/**
 * The iOS resolver `PackageInfo.current()`: it reads four entries of the main bundle and
 * classifies the path of the App Store receipt into one of three installer identifiers.
 * The bundle is an input; a dictionary entry is `None` when the key is missing.
 */
module IosPackageInfo {
  import opened Wrappers
  import opened PackageRecord

  const Simulator: string := "com.apple.simulator"
  const TestFlight: string := "com.apple.testflight"
  const AppStore: string := "com.apple"

  /** The parts of `NSBundle.mainBundle` that `current` reads. */
  datatype Bundle = Bundle(
    displayName: Option<string>,          // objectForInfoDictionaryKey("CFBundleDisplayName")
    bundleIdentifier: Option<string>,     // bundleIdentifier
    shortVersionString: Option<string>,   // objectForInfoDictionaryKey("CFBundleShortVersionString")
    bundleVersion: Option<string>,        // objectForInfoDictionaryKey("CFBundleVersion")
    appStoreReceiptPath: Option<string>)  // appStoreReceiptURL?.path

  /** Kotlin's `String.contains(other)`: `sub` occurs in `s` as a contiguous substring. */
  predicate Contains(s: string, sub: string)
    decreases |s|
  {
    |sub| <= |s| && (s[..|sub|] == sub || (|s| > 0 && Contains(s[1..], sub)))
  }

  /** `sub` occurs in `s` starting at position `i`. */
  predicate OccursAt(sub: string, s: string, i: int) {
    0 <= i <= |s| - |sub| && s[i..i + |sub|] == sub
  }

  /** The occurrence of `sub` in `s` at some position, stated directly. */
  ghost predicate OccursIn(sub: string, s: string) {
    exists i :: OccursAt(sub, s, i)
  }

  lemma {:induction false} ContainsHasOccurrence(s: string, sub: string)
    requires Contains(s, sub)
    ensures OccursIn(sub, s)
    decreases |s|
  {
    if s[..|sub|] == sub {
      assert OccursAt(sub, s, 0);
    } else {
      ContainsHasOccurrence(s[1..], sub);
      var i :| OccursAt(sub, s[1..], i);
      assert s[1..][i..i + |sub|] == s[i + 1..i + 1 + |sub|];
      assert OccursAt(sub, s, i + 1);
    }
  }

  lemma {:induction false} OccurrenceIsContained(s: string, sub: string, i: int)
    requires OccursAt(sub, s, i)
    ensures Contains(s, sub)
    decreases i
  {
    if i > 0 {
      assert s[1..][i - 1..i - 1 + |sub|] == s[i..i + |sub|];
      OccurrenceIsContained(s[1..], sub, i - 1);
    }
  }

  lemma ContainsOccurs(s: string, sub: string)
    ensures Contains(s, sub) <==> OccursIn(sub, s)
  {
    if Contains(s, sub) {
      ContainsHasOccurrence(s, sub);
    }
    if OccursIn(sub, s) {
      var i :| OccursAt(sub, s, i);
      OccurrenceIsContained(s, sub, i);
    }
  }

  /** `installedFrom`: the simulator, TestFlight or the App Store, by markers in the receipt path. */
  function InstalledFrom(receiptPath: Option<string>): (store: string)
    ensures store == Simulator || store == TestFlight || store == AppStore
    ensures store == Simulator <==>
      receiptPath.Some? && OccursIn("CoreSimulator", receiptPath.value)
    ensures store == TestFlight <==>
      receiptPath.Some? && !OccursIn("CoreSimulator", receiptPath.value) &&
      OccursIn("sandboxReceipt", receiptPath.value)
    ensures store == AppStore <==>
      receiptPath.None? ||
      (!OccursIn("CoreSimulator", receiptPath.value) && !OccursIn("sandboxReceipt", receiptPath.value))
  {
    // `appStoreReceipt?.contains(marker) == true` is false for a null path
    match receiptPath
    case None => AppStore
    case Some(path) =>
      ContainsOccurs(path, "CoreSimulator");
      ContainsOccurs(path, "sandboxReceipt");
      if Contains(path, "CoreSimulator") then Simulator
      else if Contains(path, "sandboxReceipt") then TestFlight
      else AppStore
  }

  /** `current()`: the four bundle entries, the classified installer and an empty signature. */
  function Current(bundle: Bundle): (p: Package)
    ensures p.appName == Render(bundle.displayName)
    ensures p.packageName == bundle.bundleIdentifier.GetOr("")
    ensures p.version == Render(bundle.shortVersionString)
    ensures p.build == Render(bundle.bundleVersion)
    ensures p.buildSignature == ""
    ensures p.installerStore == Some(InstalledFrom(bundle.appStoreReceiptPath))
  {
    var installStore := InstalledFrom(bundle.appStoreReceiptPath);
    Package(
      Render(bundle.displayName),
      bundle.bundleIdentifier.GetOr(""),
      Render(bundle.shortVersionString),
      Render(bundle.bundleVersion),
      "",
      Some(installStore))
  }

  /** A string without the first character of `sub` has no occurrence of `sub`. */
  lemma FirstCharMissing(sub: string, s: string)
    requires |sub| > 0 && sub[0] !in s
    ensures !OccursIn(sub, s)
  {
  }

  /** A receipt path holding the simulator marker is the simulator, even when it also holds the sandbox marker. */
  lemma SimulatorReceipt(path: string)
    requires OccursIn("CoreSimulator", path) && OccursIn("sandboxReceipt", path)
    ensures InstalledFrom(Some(path)) == Simulator
  {
  }

  /** A receipt path holding the sandbox marker but not the simulator marker is TestFlight. */
  lemma SandboxReceipt(path: string)
    requires OccursIn("sandboxReceipt", path) && !OccursIn("CoreSimulator", path)
    ensures InstalledFrom(Some(path)) == TestFlight
  {
  }

  /** A concrete simulator receipt path. */
  lemma SimulatorReceiptExample()
    ensures InstalledFrom(Some("/CoreSimulator/sandboxReceipt")) == Simulator
  {
    var path := "/CoreSimulator/sandboxReceipt";
    assert path == "/" + "CoreSimulator" + "/sandboxReceipt";
    assert path[1..14] == "CoreSimulator";
    assert OccursAt("CoreSimulator", path, 1);
  }

  /** A concrete sandbox receipt path on a device. */
  lemma SandboxReceiptExample()
    ensures InstalledFrom(Some("/StoreKit/sandboxReceipt")) == TestFlight
  {
    var path := "/StoreKit/sandboxReceipt";
    assert path == "/StoreKit/" + "sandboxReceipt";
    assert path[10..24] == "sandboxReceipt";
    assert OccursAt("sandboxReceipt", path, 10);
    FirstCharMissing("CoreSimulator", path);
    SandboxReceipt(path);
  }

  /** Without a receipt the App Store identifier is reported, never `null`. */
  lemma NoReceipt(bundle: Bundle)
    requires bundle.appStoreReceiptPath.None?
    ensures Current(bundle).installerStore == Some(AppStore)
  {
  }
}
