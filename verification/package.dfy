/**
 * The `Package` record shared by both platforms: six immutable fields, of which only
 * `installerStore` may be absent, and its fixed-format `toString`.
 */
module PackageRecord {
  import opened Wrappers

  datatype Package = Package(
    appName: string,
    packageName: string,
    version: string,
    build: string,
    buildSignature: string,
    installerStore: Option<string>)

  /** A nullable string inside a Kotlin string template (or `Any?.toString()`): `null` prints as "null". */
  function Render(o: Option<string>): string {
    match o
    case None => "null"
    case Some(s) => s
  }

  /** The text `toString` places before the first field. */
  const Head: string := "Package(appName='"

  /** The number of characters `toString` adds around the six field values. */
  const Overhead: nat := 89

  /**
   * `Package.toString()`. The source joins six string templates; adjacent literal parts
   * are written here as one literal (the same characters).
   */
  function ToString(p: Package): (s: string)
    ensures |s| == Overhead + |p.appName| + |p.packageName| + |p.version| + |p.build|
                  + |p.buildSignature| + |Render(p.installerStore)|
    ensures s[..|Head|] == Head
    ensures s[|s| - 1] == ')'
  {
    "Package(appName='" + p.appName +
    "', packageName='" + p.packageName +
    "',version='" + p.version +
    "',build='" + p.build +
    "',buildSignature='" + p.buildSignature +
    "',installerStore=" + Render(p.installerStore) + ")"
  }

  /** `s` with the literal `lit` removed from its front, if it starts with `lit`. */
  function StripLiteral(s: string, lit: string): Option<string> {
    if |lit| <= |s| && s[..|lit|] == lit then Some(s[|lit|..]) else None
  }

  /** `s` cut before its first single quote: the text before it and the rest, quote included. */
  function BreakAtQuote(s: string): Option<(string, string)> {
    if s == [] then None
    else if s[0] == '\'' then Some(([], s))
    else
      var split :- BreakAtQuote(s[1..]);
      Some(([s[0]] + split.0, split.1))
  }

  /** A quoted field value, up to and including the separator `sep` that closes it. */
  function ReadQuoted(s: string, sep: string): Option<(string, string)> {
    var split :- BreakAtQuote(s);
    var rest :- StripLiteral(split.1, sep);
    Some((split.0, rest))
  }

  /** Reads the output of `ToString` back into a record: the reference `ToString` is proved against. */
  function ParseRecord(s: string): Option<Package> {
    var r0 :- StripLiteral(s, Head);
    var appName :- ReadQuoted(r0, "', packageName='");
    var packageName :- ReadQuoted(appName.1, "',version='");
    var version :- ReadQuoted(packageName.1, "',build='");
    var build :- ReadQuoted(version.1, "',buildSignature='");
    var signature :- ReadQuoted(build.1, "',installerStore=");
    var r6 := signature.1;
    if r6 == [] || r6[|r6| - 1] != ')' then None
    else
      var store := r6[..|r6| - 1];
      Some(Package(appName.0, packageName.0, version.0, build.0, signature.0,
                   if store == "null" then None else Some(store)))
  }

  predicate QuoteFree(s: string) {
    '\'' !in s
  }

  /**
   * The records `toString` renders without ambiguity: no quoted field contains a single
   * quote, and the installer is not the text "null" (which prints like an absent installer).
   */
  predicate Unambiguous(p: Package) {
    QuoteFree(p.appName) && QuoteFree(p.packageName) && QuoteFree(p.version) &&
    QuoteFree(p.build) && QuoteFree(p.buildSignature) && p.installerStore != Some("null")
  }

  lemma {:induction false} BreakAtQuoteOf(x: string, y: string)
    requires QuoteFree(x) && |y| > 0 && y[0] == '\''
    ensures BreakAtQuote(x + y) == Some((x, y))
  {
    if x != [] {
      assert (x + y)[0] == x[0] != '\'';
      assert (x + y)[1..] == x[1..] + y;
      BreakAtQuoteOf(x[1..], y);
      assert [x[0]] + x[1..] == x;
    } else {
      assert x + y == y;
    }
  }

  lemma ReadQuotedOf(x: string, sep: string, y: string)
    requires QuoteFree(x) && |sep| > 0 && sep[0] == '\''
    ensures ReadQuoted(x + (sep + y), sep) == Some((x, y))
  {
    BreakAtQuoteOf(x, sep + y);
    assert (sep + y)[..|sep|] == sep;
    assert (sep + y)[|sep|..] == y;
  }

  /** The text of a record after `Head`, grouped field by field from the right. */
  function FromAppName(p: Package): string {
    p.appName + ("', packageName='" +
    (p.packageName + ("',version='" +
    (p.version + ("',build='" +
    (p.build + ("',buildSignature='" +
    (p.buildSignature + ("',installerStore=" +
    (Render(p.installerStore) + ")"))))))))))
  }

  lemma Regroup(a: string, b: string, c: string, d: string, e: string, f: string)
    ensures "Package(appName='" + a + "', packageName='" + b + "',version='" + c +
            "',build='" + d + "',buildSignature='" + e + "',installerStore=" + f + ")"
         == "Package(appName='" + (a + ("', packageName='" + (b + ("',version='" + (c +
            ("',build='" + (d + ("',buildSignature='" + (e + ("',installerStore=" + (f + ")")))))))))))
  {
  }

  lemma ToStringShape(p: Package)
    ensures ToString(p) == Head + FromAppName(p)
  {
    Regroup(p.appName, p.packageName, p.version, p.build, p.buildSignature, Render(p.installerStore));
  }

  /** Parsing the text of a record gives the record back. */
  lemma ParseToString(p: Package)
    requires Unambiguous(p)
    ensures ParseRecord(ToString(p)) == Some(p)
  {
    var store := Render(p.installerStore);
    var r5 := store + ")";
    var r4 := p.buildSignature + ("',installerStore=" + r5);
    var r3 := p.build + ("',buildSignature='" + r4);
    var r2 := p.version + ("',build='" + r3);
    var r1 := p.packageName + ("',version='" + r2);
    var r0 := p.appName + ("', packageName='" + r1);
    ToStringShape(p);
    assert StripLiteral(ToString(p), Head) == Some(r0) by {
      assert (Head + r0)[..|Head|] == Head;
      assert (Head + r0)[|Head|..] == r0;
    }
    ReadQuotedOf(p.appName, "', packageName='", r1);
    ReadQuotedOf(p.packageName, "',version='", r2);
    ReadQuotedOf(p.version, "',build='", r3);
    ReadQuotedOf(p.build, "',buildSignature='", r4);
    ReadQuotedOf(p.buildSignature, "',installerStore=", r5);
    assert r5[..|r5| - 1] == store;
  }

  /** Distinct unambiguous records have distinct texts. */
  lemma ToStringInjective(p: Package, q: Package)
    requires Unambiguous(p) && Unambiguous(q)
    requires ToString(p) == ToString(q)
    ensures p == q
  {
    ParseToString(p);
    ParseToString(q);
  }

  /** An absent installer and the installer text "null" print alike. */
  lemma AbsentInstallerPrintsAsNull(p: Package)
    ensures ToString(p.(installerStore := None)) == ToString(p.(installerStore := Some("null")))
  {
  }

  /**
   * Without `Unambiguous`, distinct records can print alike: a quote inside the package
   * name can take the place of the version's separator.
   */
  lemma QuoteInFieldCanCollide(a: string, x: string, y: string, z: string, build: string, sig: string, store: Option<string>)
    ensures var p := Package(a, x + "',version='" + y, z, build, sig, store);
            var q := Package(a, x, y + "',version='" + z, build, sig, store);
            p != q && ToString(p) == ToString(q)
  {
    var p := Package(a, x + "',version='" + y, z, build, sig, store);
    var q := Package(a, x, y + "',version='" + z, build, sig, store);
    assert |p.packageName| != |q.packageName|;
    var v := "',version='";
    var rest := "',build='" + (build + ("',buildSignature='" + (sig + ("',installerStore=" + (Render(store) + ")")))));
    ToStringShape(p);
    ToStringShape(q);
    assert FromAppName(p) == a + ("', packageName='" + ((x + v + y) + (v + (z + rest))));
    assert FromAppName(q) == a + ("', packageName='" + (x + (v + ((y + v + z) + rest))));
    var w := v + (z + rest);
    Assoc(x + v, y, w);
    Assoc(x, v, y + w);
    Assoc(y + v, z, rest);
    Assoc(y, v, z + rest);
  }

  lemma Assoc(a: string, b: string, c: string)
    ensures a + b + c == a + (b + c)
  {
  }
}
