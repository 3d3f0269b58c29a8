/**
 * The Android resolver `PackageInfo.current()`: it reads the package metadata of the
 * registered application context, picks the version code and the installer by SDK level,
 * hashes a signing certificate with SHA-1 and assembles a `Package`.
 *
 * Every answer of the operating system is an input: `Build.VERSION.SDK_INT` is `sdkInt`,
 * each `PackageManager` query is a field of `PackageManager` holding what it returns or
 * the exception it throws, and the SHA-1 provider of `MessageDigest` is `sha1`.
 */
module AndroidPackageInfo {
  import opened Wrappers
  import opened HexCodec
  import opened LongFormat
  import opened PackageRecord

  /** `Build.VERSION_CODES.P`: the first level with `longVersionCode` and `signingInfo`. */
  const P: int := 28

  /** `Build.VERSION_CODES.R`: the first level with `getInstallSourceInfo`. */
  const R: int := 30

  /** The message of the error raised when no context has been registered. */
  const ContextNotSetMessage: string :=
    "Android context has not been set. Please call setContext in your Application's onCreate."

  /** The exceptions that matter here; `Other` stands for any further one a query may throw. */
  datatype Exception =
    | IllegalState(message: string)   // raised by Kotlin's `error(...)`
    | NameNotFound                     // `PackageManager.NameNotFoundException`
    | NoSuchAlgorithm                  // `java.security.NoSuchAlgorithmException`
    | NoSuchElement                    // `first()` on an empty array
    | Other(name: string)

  /** A signing certificate, as the bytes `Signature.toByteArray()` returns. */
  datatype Signature = Signature(bytes: seq<int8>)

  datatype SigningInfo = SigningInfo(
    hasMultipleSigners: bool,
    apkContentsSigners: seq<Signature>,
    signingCertificateHistory: seq<Signature>)

  /** The fields of `getPackageInfo(name, 0)` that `current` reads (the label already loaded). */
  datatype PackageMeta = PackageMeta(
    appLabel: string,
    versionName: string,
    versionCode: int32,
    longVersionCode: int64)

  /** What each query of the package manager, made for the context's own package, returns or throws. */
  datatype PackageManager = PackageManager(
    packageInfo: Result<PackageMeta, Exception>,                     // getPackageInfo(name, 0)
    signingInfo: Result<Option<SigningInfo>, Exception>,             // getPackageInfo(name, GET_SIGNING_CERTIFICATES).signingInfo
    signatures: Result<Option<seq<Option<Signature>>>, Exception>,   // getPackageInfo(name, GET_SIGNATURES).signatures
    installSourceInitiator: Result<Option<string>, Exception>,       // getInstallSourceInfo(name).initiatingPackageName
    legacyInstaller: Result<Option<string>, Exception>)              // getInstallerPackageName(name)

  datatype Context = Context(packageName: string, packageManager: PackageManager)

  /** A message digest: the SHA-1 function of `MessageDigest`, which is not part of this model. */
  type Digest = seq<int8> -> seq<int8>

  /** SHA-1 yields 20 bytes. */
  ghost predicate IsSha1Provider(sha1: Option<Digest>) {
    sha1.Some? ==> forall m :: |sha1.value(m)| == 20
  }

  /** The private getter `context`: the registered context, or the configuration error. */
  function ContextOf(applicationContext: Option<Context>): (r: Result<Context, Exception>)
    ensures r.Success? <==> applicationContext.Some?
    ensures r.Success? ==> r.value == applicationContext.value
    ensures r.Failure? ==> r.error == IllegalState(ContextNotSetMessage)
  {
    match applicationContext
    case Some(ctx) => Success(ctx)
    case None => Failure(IllegalState(ContextNotSetMessage))
  }

  /** `getLongVersionCode`: the wide code from P on, the widened 32-bit code before. */
  function LongVersionCode(sdkInt: int, info: PackageMeta): (code: int64)
    ensures sdkInt >= P ==> code == info.longVersionCode
    ensures sdkInt < P ==> code as int == info.versionCode as int
  {
    if sdkInt >= P then info.longVersionCode else ToLong(info.versionCode)
  }

  /** `getInstallerPackageName`: the initiating package of the install source from R on, the legacy installer before. */
  function InstallerPackageName(sdkInt: int, ctx: Context): (r: Result<Option<string>, Exception>)
    ensures sdkInt >= R ==> r == ctx.packageManager.installSourceInitiator
    ensures sdkInt < R ==> r == ctx.packageManager.legacyInstaller
  {
    if sdkInt >= R then ctx.packageManager.installSourceInitiator
    else ctx.packageManager.legacyInstaller
  }

  /** Kotlin's `Array.first()`. */
  function First<T>(a: seq<T>): (r: Result<T, Exception>)
    ensures r.Success? <==> |a| > 0
    ensures r.Success? ==> r.value == a[0]
    ensures r.Failure? ==> r.error == NoSuchElement
  {
    if |a| == 0 then Failure(NoSuchElement) else Success(a[0])
  }

  /** `signatureToSha1`: the upper-case hex text of the certificate's SHA-1 digest. */
  function SignatureToSha1(sig: seq<int8>, sha1: Option<Digest>): (r: Result<string, Exception>)
    ensures r.Failure? <==> sha1.None?
    ensures r.Failure? ==> r.error == NoSuchAlgorithm
    ensures r.Success? ==> IsUpperHex(r.value) && |r.value| == 2 * |sha1.value(sig)| && Unhex(r.value) == sha1.value(sig)
    ensures r.Success? && IsSha1Provider(sha1) ==> |r.value| == 40
  {
    match sha1
    case None => Failure(NoSuchAlgorithm)
    case Some(digest) =>
      HexIsUpperHex(digest(sig));
      UnhexHex(digest(sig));
      Success(Hex(digest(sig)))
  }

  /** The `try` block of `getBuildSignature`, before its `catch` clauses. */
  function TryBuildSignature(sdkInt: int, ctx: Context, sha1: Option<Digest>): Result<Option<string>, Exception> {
    if sdkInt >= P then
      var signingInfo :- ctx.packageManager.signingInfo;
      match signingInfo
      case None => Success(None)
      case Some(info) =>
        var certificate :- if info.hasMultipleSigners then First(info.apkContentsSigners)
                           else First(info.signingCertificateHistory);
        var hash :- SignatureToSha1(certificate.bytes, sha1);
        Success(Some(hash))
    else
      var signatures :- ctx.packageManager.signatures;
      if signatures.None? || |signatures.value| == 0 || signatures.value[0].None? then Success(None)
      else
        var hash :- SignatureToSha1(signatures.value[0].value.bytes, sha1);
        Success(Some(hash))
  }

  /**
   * `getBuildSignature`: the hex SHA-1 of the chosen certificate, `None` for `null`.
   * A missing package or a missing SHA-1 provider degrades to `None`; no other exception is caught.
   */
  function BuildSignature(sdkInt: int, ctx: Context, sha1: Option<Digest>): (r: Result<Option<string>, Exception>)
    ensures r.Failure? ==> r.error != NameNotFound && r.error != NoSuchAlgorithm
    ensures r.Success? && r.value.Some? ==> sha1.Some? && IsUpperHex(r.value.value)
    ensures r.Success? && r.value.Some? && IsSha1Provider(sha1) ==> |r.value.value| == 40
  {
    var attempt := TryBuildSignature(sdkInt, ctx, sha1);
    if attempt.Failure? && (attempt.error == NameNotFound || attempt.error == NoSuchAlgorithm) then
      Success(None)
    else
      attempt
  }

  /**
   * `current()`: fails when no context is registered, propagates the exceptions that
   * escape the lookups, and otherwise assembles the record.
   */
  function Current(sdkInt: int, applicationContext: Option<Context>, sha1: Option<Digest>): (r: Result<Package, Exception>)
    ensures applicationContext.None? ==> r == Failure(IllegalState(ContextNotSetMessage))
    ensures r.Success? <==>
      applicationContext.Some? &&
      applicationContext.value.packageManager.packageInfo.Success? &&
      BuildSignature(sdkInt, applicationContext.value, sha1).Success? &&
      InstallerPackageName(sdkInt, applicationContext.value).Success?
    ensures r.Success? ==>
      var ctx := applicationContext.value;
      ctx.packageManager.packageInfo.Success? &&
      var info := ctx.packageManager.packageInfo.value;
      r.value.appName == info.appLabel &&
      r.value.packageName == ctx.packageName &&
      r.value.version == info.versionName &&
      r.value.build == LongToString(LongVersionCode(sdkInt, info)) &&
      ParseDecimal(r.value.build) == Some(LongVersionCode(sdkInt, info) as int) &&
      BuildSignature(sdkInt, ctx, sha1).Success? &&
      r.value.buildSignature == BuildSignature(sdkInt, ctx, sha1).value.GetOr("") &&
      Success(r.value.installerStore) == InstallerPackageName(sdkInt, ctx)
    ensures r.Success? && IsSha1Provider(sha1) ==>
      (r.value.buildSignature == "" <==> BuildSignature(sdkInt, applicationContext.value, sha1) == Success(None))
    ensures r.Success? ==> IsUpperHex(r.value.buildSignature)
  {
    var ctx :- ContextOf(applicationContext);
    var info :- ctx.packageManager.packageInfo;
    var buildSignature :- BuildSignature(sdkInt, ctx, sha1);
    var installerPackage :- InstallerPackageName(sdkInt, ctx);
    LongToStringRoundTrip(LongVersionCode(sdkInt, info));
    Success(Package(
      info.appLabel,
      ctx.packageName,
      info.versionName,
      LongToString(LongVersionCode(sdkInt, info)),
      buildSignature.GetOr(""),
      installerPackage))
  }

  /** From P on, a package without `signingInfo` has no signature. */
  lemma SignatureWithoutSigningInfo(sdkInt: int, ctx: Context, sha1: Option<Digest>)
    requires sdkInt >= P && ctx.packageManager.signingInfo == Success(None)
    ensures BuildSignature(sdkInt, ctx, sha1) == Success(None)
  {
  }

  /** From P on, with several signers the first APK-contents signer is hashed. */
  lemma SignatureOfFirstSigner(sdkInt: int, ctx: Context, info: SigningInfo, digest: Digest)
    requires sdkInt >= P && ctx.packageManager.signingInfo == Success(Some(info))
    requires info.hasMultipleSigners && |info.apkContentsSigners| > 0
    ensures BuildSignature(sdkInt, ctx, Some(digest)) == Success(Some(Hex(digest(info.apkContentsSigners[0].bytes))))
  {
  }

  /** From P on, with one signer the first entry of the certificate history is hashed. */
  lemma SignatureOfCertificateHistory(sdkInt: int, ctx: Context, info: SigningInfo, digest: Digest)
    requires sdkInt >= P && ctx.packageManager.signingInfo == Success(Some(info))
    requires !info.hasMultipleSigners && |info.signingCertificateHistory| > 0
    ensures BuildSignature(sdkInt, ctx, Some(digest)) == Success(Some(Hex(digest(info.signingCertificateHistory[0].bytes))))
  {
  }

  /** `first()` on an empty signer array throws, and that exception is not caught. */
  lemma SignatureOfEmptySigners(sdkInt: int, ctx: Context, info: SigningInfo, sha1: Option<Digest>)
    requires sdkInt >= P && ctx.packageManager.signingInfo == Success(Some(info))
    requires if info.hasMultipleSigners then info.apkContentsSigners == [] else info.signingCertificateHistory == []
    ensures BuildSignature(sdkInt, ctx, sha1) == Failure(NoSuchElement)
    ensures Current(sdkInt, Some(ctx), sha1).Failure?
  {
  }

  /**
   * Before P, the signature is absent exactly when the legacy list is null or empty or
   * starts with null; otherwise it is the hash of the first signature.
   */
  lemma LegacySignature(sdkInt: int, ctx: Context, signatures: Option<seq<Option<Signature>>>, digest: Digest)
    requires sdkInt < P && ctx.packageManager.signatures == Success(signatures)
    ensures var r := BuildSignature(sdkInt, ctx, Some(digest));
      r.Success? &&
      (r.value.None? <==> signatures.None? || |signatures.value| == 0 || signatures.value[0].None?) &&
      (r.value.Some? ==> r.value.value == Hex(digest(signatures.value[0].value.bytes)))
  {
  }

  /** A `NameNotFoundException` from the signature lookup degrades to no signature. */
  lemma SignatureLookupNotFound(sdkInt: int, ctx: Context, sha1: Option<Digest>)
    requires if sdkInt >= P then ctx.packageManager.signingInfo == Failure(NameNotFound)
             else ctx.packageManager.signatures == Failure(NameNotFound)
    ensures BuildSignature(sdkInt, ctx, sha1) == Success(None)
  {
  }

  /** Without a SHA-1 provider the signature is absent or the lookup failed; it is never a hash. */
  lemma SignatureWithoutSha1(sdkInt: int, ctx: Context)
    ensures var r := BuildSignature(sdkInt, ctx, None);
      r.Success? ==> r.value.None?
  {
  }

  /**
   * With a registered context whose queries all answer, `current` returns a record whose
   * signature is 40 upper-case hex characters or the empty string.
   */
  lemma CurrentSignatureShape(sdkInt: int, ctx: Context, sha1: Option<Digest>)
    requires IsSha1Provider(sha1)
    requires ctx.packageManager.packageInfo.Success?
    requires ctx.packageManager.signingInfo.Success? && ctx.packageManager.signatures.Success?
    requires ctx.packageManager.signingInfo.value.Some? ==>
      var info := ctx.packageManager.signingInfo.value.value;
      if info.hasMultipleSigners then |info.apkContentsSigners| > 0 else |info.signingCertificateHistory| > 0
    requires ctx.packageManager.installSourceInitiator.Success? && ctx.packageManager.legacyInstaller.Success?
    ensures var r := Current(sdkInt, Some(ctx), sha1);
      r.Success? && r.value.packageName == ctx.packageName &&
      (r.value.buildSignature == "" || (|r.value.buildSignature| == 40 && IsUpperHex(r.value.buildSignature)))
  {
  }
}
