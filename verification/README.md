# PlatformInfo — a Dafny model of the package-metadata resolvers

PlatformInfo exposes one accessor, `PackageInfo.current()`, that describes the running
application as a six-field `Package` record: display name, package identifier, version,
build, build signature and installer store. Each host platform has its own resolver.

This project models, as Dafny functions, lemmas and one array method:

- the `Package` record and its fixed-format `toString` (module `PackageRecord`, `package.dfy`);
- the Android resolver (module `AndroidPackageInfo`, `android.dfy`): the missing-context error,
  the choice of version code and installer by SDK level, the decision tree of
  `getBuildSignature` with its `try`/`catch`, and the assembly of the record;
- the Base16 encoder `bytesToHex` that renders the SHA-1 digest (module `HexCodec`, `hex.dfy`),
  kept imperative: it allocates a character array and fills it in a loop;
- Kotlin's `Int`/`Long` and the decimal text `Long.toString()` gives the build number
  (module `LongFormat`, `longformat.dfy`);
- the iOS resolver (module `IosPackageInfo`, `ios.dfy`): the receipt-path classification
  `installedFrom` and the assembly of the record;
- `Option` for Kotlin's nullable values and `Result` for values that may be an exception
  (module `Wrappers`, `wrappers.dfy`).

Everything the operating system answers is an input. On Android, `Build.VERSION.SDK_INT` is
the parameter `sdkInt`; every `PackageManager` query made for the context's own package is a
field of `AndroidPackageInfo.PackageManager` that holds either its answer or the exception it
throws; the process-wide `applicationContext` is an `Option<Context>` parameter; the SHA-1
provider of `MessageDigest` is a parameter `sha1: Option<Digest>`, where `None` stands for
`NoSuchAlgorithmException`. On iOS the main bundle is a `Bundle` value whose dictionary
entries are `None` when the key is missing.

Each property is paired with an independent partner: `Hex` with its inverse `Unhex`,
`LongToString` with the parser `ParseDecimal`, `ToString` with the parser `ParseRecord`,
and Kotlin's `contains` with a direct statement of a substring occurrence (`OccursIn`).

Behaviour of the code that the model keeps as written:

- the legacy signature list counts as absent when it is `null`, when it is empty, or when its first entry is `null`;
- `first()` on an empty signer array (`apkContentsSigners` or `signingCertificateHistory`)
  throws `NoSuchElementException`, which `getBuildSignature` does not catch, so `current()`
  fails (`AndroidPackageInfo.SignatureOfEmptySigners`);
- lookups made by `current()` itself (`getPackageInfo(name, 0)`, `getInstallSourceInfo`,
  `getInstallerPackageName`) are not guarded, so their exceptions escape `current()`;
- on iOS a missing display name, version or build prints as the text `null` (Kotlin's
  `Any?.toString()`), which the model keeps.

## Model

| member | source | states |
|---|---|---|
| HexCodec.Unsigned | lib/src/androidMain/kotlin/com/m7mdra/platforminfo/PackageInfo.kt:127 | `and 0xFF` reads the signed byte as 0..255: the byte itself when non-negative, the byte plus 256 when negative |
| HexCodec.HexArrayDigit | lib/src/androidMain/kotlin/com/m7mdra/platforminfo/PackageInfo.kt:121-123 | entry n of the lookup table is a digit of the upper-case RFC 4648 alphabet whose value is n |
| HexCodec.Hex | lib/src/androidMain/kotlin/com/m7mdra/platforminfo/PackageInfo.kt:124-131 | the encoding is exactly twice as long as the input |
| HexCodec.BytesToHex | lib/src/androidMain/kotlin/com/m7mdra/platforminfo/PackageInfo.kt:120-132 | the array-filling loop returns exactly `Hex` of the input bytes |
| HexCodec.HexAt | lib/src/androidMain/kotlin/com/m7mdra/platforminfo/PackageInfo.kt:126-130 | position 2j holds the digit of the high nibble of byte j and position 2j+1 the digit of its low nibble |
| HexCodec.HexIsUpperHex | lib/src/androidMain/kotlin/com/m7mdra/platforminfo/PackageInfo.kt:121-129 | every output character lies in 0-9A-F |
| HexCodec.UnhexHex | lib/src/androidMain/kotlin/com/m7mdra/platforminfo/PackageInfo.kt:126-130 | decoding the output pairwise gives back the input bytes |
| HexCodec.HexInjective | lib/src/androidMain/kotlin/com/m7mdra/platforminfo/PackageInfo.kt:126-130 | distinct byte sequences encode to distinct strings |
| HexCodec.HexExamples | lib/src/androidMain/kotlin/com/m7mdra/platforminfo/PackageInfo.kt:124-131 | the empty input gives "", byte -89 (0xA7) gives "A7", bytes 0, 127, -1 give "007FFF" |
| LongFormat.ToLong | lib/src/androidMain/kotlin/com/m7mdra/platforminfo/PackageInfo.kt:70 | widening an `Int` to a `Long` keeps its value |
| LongFormat.NatToDecimal | lib/src/androidMain/kotlin/com/m7mdra/platforminfo/PackageInfo.kt:41 | the digits of a natural number are non-empty, all decimal digits, start with '0' only for zero, and are exactly "0" for zero |
| LongFormat.LongToString | lib/src/androidMain/kotlin/com/m7mdra/platforminfo/PackageInfo.kt:41 | the text of a `Long` starts with '-' exactly when the number is negative |
| LongFormat.NatToDecimalValue | lib/src/androidMain/kotlin/com/m7mdra/platforminfo/PackageInfo.kt:41 | the digits of n have the value n |
| LongFormat.LongToStringRoundTrip | lib/src/androidMain/kotlin/com/m7mdra/platforminfo/PackageInfo.kt:41 | the build text parses back to the version code it was made from |
| LongFormat.LongToStringInjective | lib/src/androidMain/kotlin/com/m7mdra/platforminfo/PackageInfo.kt:41 | distinct version codes give distinct build texts |
| LongFormat.LongToStringExamples | lib/src/androidMain/kotlin/com/m7mdra/platforminfo/PackageInfo.kt:41 | 0, 2024 and -7 print as "0", "2024" and "-7" |
| PackageRecord.ToString | lib/src/commonMain/kotlin/com/m7mdra/platforminfo/Package.kt:26-33 | the text starts with "Package(appName='", ends with ")", and its length is 89 plus the lengths of the six rendered field values |
| PackageRecord.ParseToString | lib/src/commonMain/kotlin/com/m7mdra/platforminfo/Package.kt:27-32 | when no quoted field holds a single quote and the installer is not the text "null", parsing the text recovers all six fields in the order appName, packageName, version, build, buildSignature, installerStore: five quoted strings, the first closed by "', " and the next four by "',", then the unquoted installer, "null" when absent |
| PackageRecord.ToStringInjective | lib/src/commonMain/kotlin/com/m7mdra/platforminfo/Package.kt:27-32 | under the same condition, distinct records print differently |
| PackageRecord.AbsentInstallerPrintsAsNull | lib/src/commonMain/kotlin/com/m7mdra/platforminfo/Package.kt:32 | the absent installer is printed unquoted as `null`, like the installer text "null" |
| PackageRecord.QuoteInFieldCanCollide | lib/src/commonMain/kotlin/com/m7mdra/platforminfo/Package.kt:27-29 | a single quote inside a field lets two distinct records print alike |
| AndroidPackageInfo.ContextOf | lib/src/androidMain/kotlin/com/m7mdra/platforminfo/PackageInfo.kt:16-18 | the context getter yields the registered context, and the configuration error with its message when none is set |
| AndroidPackageInfo.LongVersionCode | lib/src/androidMain/kotlin/com/m7mdra/platforminfo/PackageInfo.kt:66-72 | from SDK 28 on the wide `longVersionCode` is used; below it the 32-bit `versionCode`, with its value kept |
| AndroidPackageInfo.InstallerPackageName | lib/src/androidMain/kotlin/com/m7mdra/platforminfo/PackageInfo.kt:51-60 | from SDK 30 on the install source's initiating package, below it the legacy installer name; either may be null or an exception |
| AndroidPackageInfo.First | lib/src/androidMain/kotlin/com/m7mdra/platforminfo/PackageInfo.kt:85-87 | `first()` yields the first element of a non-empty array and throws `NoSuchElementException` on an empty one |
| AndroidPackageInfo.SignatureToSha1 | lib/src/androidMain/kotlin/com/m7mdra/platforminfo/PackageInfo.kt:110-115 | without a SHA-1 provider it throws `NoSuchAlgorithmException`; otherwise it yields upper-case hex, two characters per digest byte, that decodes to the digest, 40 characters for a 20-byte digest |
| AndroidPackageInfo.BuildSignature | lib/src/androidMain/kotlin/com/m7mdra/platforminfo/PackageInfo.kt:78-104 | `NameNotFoundException` and `NoSuchAlgorithmException` never escape; a signature present is upper-case hex, 40 characters for SHA-1 |
| AndroidPackageInfo.SignatureWithoutSigningInfo | lib/src/androidMain/kotlin/com/m7mdra/platforminfo/PackageInfo.kt:80-82 | from SDK 28 on, absent `signingInfo` gives null |
| AndroidPackageInfo.SignatureOfFirstSigner | lib/src/androidMain/kotlin/com/m7mdra/platforminfo/PackageInfo.kt:84-85 | with multiple signers the first `apkContentsSigners` entry is hashed |
| AndroidPackageInfo.SignatureOfCertificateHistory | lib/src/androidMain/kotlin/com/m7mdra/platforminfo/PackageInfo.kt:86-87 | otherwise the first `signingCertificateHistory` entry is hashed |
| AndroidPackageInfo.SignatureOfEmptySigners | lib/src/androidMain/kotlin/com/m7mdra/platforminfo/PackageInfo.kt:84-88 | an empty signer array makes `first()` throw, which is not caught, so `current()` fails |
| AndroidPackageInfo.LegacySignature | lib/src/androidMain/kotlin/com/m7mdra/platforminfo/PackageInfo.kt:90-97 | below SDK 28 the signature is null exactly when the list is null, empty or starts with null; otherwise it is the hash of the first signature |
| AndroidPackageInfo.SignatureLookupNotFound | lib/src/androidMain/kotlin/com/m7mdra/platforminfo/PackageInfo.kt:99-100 | a `NameNotFoundException` from the signature lookup gives null |
| AndroidPackageInfo.SignatureWithoutSha1 | lib/src/androidMain/kotlin/com/m7mdra/platforminfo/PackageInfo.kt:101-102 | without a SHA-1 provider the signature is never a hash: `NoSuchAlgorithmException` gives null |
| AndroidPackageInfo.Current | lib/src/androidMain/kotlin/com/m7mdra/platforminfo/PackageInfo.kt:25-45 | no context gives the configuration error; a record is returned exactly when the context is set and the metadata, signature and installer lookups do not throw; it carries the context's package name, the label, the version name, the `Long.toString` text of the chosen version code (which parses back to it), the chosen installer, and the signature `getBuildSignature` produced, or "" exactly when that was null |
| AndroidPackageInfo.CurrentSignatureShape | lib/src/androidMain/kotlin/com/m7mdra/platforminfo/PackageInfo.kt:37-44 | when every lookup answers, `current()` returns a record with the context's package name whose signature is "" or 40 upper-case hex characters |
| IosPackageInfo.ContainsOccurs | lib/src/iosMain/kotlin/com/m7mdra/platforminfo/PackageInfo.kt:38-41 | Kotlin's `contains` holds exactly when the marker occurs at some position of the path |
| IosPackageInfo.InstalledFrom | lib/src/iosMain/kotlin/com/m7mdra/platforminfo/PackageInfo.kt:33-47 | the result is always one of the three identifiers: the simulator exactly when the path contains "CoreSimulator", TestFlight exactly when it contains "sandboxReceipt" but not "CoreSimulator", the App Store exactly when there is no path or neither marker |
| IosPackageInfo.Current | lib/src/iosMain/kotlin/com/m7mdra/platforminfo/PackageInfo.kt:15-26 | the signature is always "", the installer is always present and is the classification of the receipt path, the package name is the bundle identifier or "" when absent, and the other three fields are the dictionary entries as text |
| IosPackageInfo.SimulatorReceipt | lib/src/iosMain/kotlin/com/m7mdra/platforminfo/PackageInfo.kt:38-39 | every path holding both markers is classified as the simulator |
| IosPackageInfo.SimulatorReceiptExample | lib/src/iosMain/kotlin/com/m7mdra/platforminfo/PackageInfo.kt:38-39 | the path "/CoreSimulator/sandboxReceipt" is classified as the simulator |
| IosPackageInfo.SandboxReceiptExample | lib/src/iosMain/kotlin/com/m7mdra/platforminfo/PackageInfo.kt:41-42 | the path "/StoreKit/sandboxReceipt" is classified as TestFlight |
| IosPackageInfo.SandboxReceipt | lib/src/iosMain/kotlin/com/m7mdra/platforminfo/PackageInfo.kt:41-42 | every path holding "sandboxReceipt" but not "CoreSimulator" is classified as TestFlight |
| IosPackageInfo.NoReceipt | lib/src/iosMain/kotlin/com/m7mdra/platforminfo/PackageInfo.kt:36-45 | with no receipt the installer is the App Store identifier, never null |

## Left out

- SHA-1 itself (`MessageDigest`): a parameter of type `seq<int8> -> seq<int8>`; its output is only assumed to be 20 bytes where a 40-character signature is claimed.
- Android platform calls (`getPackageInfo`, `loadLabel`, `getInstallSourceInfo`, `getInstallerPackageName`, `Signature.toByteArray`, `Build.VERSION.SDK_INT`): their answers or exceptions are inputs; exceptions other than the ones the code names are one `Other` case.
- iOS platform calls (`NSBundle.mainBundle`, `objectForInfoDictionaryKey`, `appStoreReceiptURL`): the entries are inputs, a present entry given as the text its `toString()` would produce.
- The mutable `applicationContext` field: the file only reads it (no setter is part of this file), so it is a parameter; concurrent re-registration is not modelled.
- Null checks Kotlin inserts for platform types (a null `versionName` or `applicationInfo` would fail that null check): these values are taken as non-null.
- Reference identity of `Package`: the source declares a plain class (identity equality); the model uses a value type, which matters only for equality, not for any output.
- The shared `expect` declaration (lib/src/commonMain/kotlin/com/m7mdra/platforminfo/PackageInfo.kt) holds no logic; it is the signature both `Current` functions implement.
- Literal layout: `ToString` writes adjacent literal parts of the six string templates as one literal; the characters are the same.
