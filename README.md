# PatchLoader: the macOS Doorstop loader, in Dafny

PatchLoader starts Cities: Skylines through Doorstop, a native library. On
macOS the library is `doorstop.dylib`, injected through `DYLD_INSERT_LIBRARIES`
by the launch script `Cities_Loader.sh`. This project models three parts of
that code:

- `MacOSDoorstopManager`. It writes the launch script and reads it back. It
  removes from an inherited `DYLD_INSERT_LIBRARIES` the entries that start
  with the text `$doorstop_libname`. It checks that
  the installed `doorstop.dylib` is the expected build, by MD5, and installs it
  from the bytes embedded in the mod.
- `MacOSUpgrade`. It records whether the loader is up to date. Its first phase
  rewrites `doorstop.dylib`.
- `FileExtensions`. It prints an MD5 digest as lowercase hex and does a
  best-effort `chmod +x`.

Files:

- `wrappers.dfy`: `Option`, `Result` and `Outcome`.
- `strings.dfy`: the .NET string operations the code uses (`Split`, `Join`,
  `Trim`, ASCII `ToLower`/`ToUpper`, `StartsWith`, `Contains`,
  `Replace(x, "")`). `Split`, `Trim`, the case mappings and `Replace` carry
  contracts; `Join`, `StartsWith` and `Contains` are plain definitions.
- `host_files.dfy`: what the process sees of its working directory, as a value
  `Files`. It has the names and contents of the existing files, the names that
  cannot be opened for reading, the names that cannot be opened for writing,
  and the names carrying the execute bit. It also has
  `CreateFile` (`File.Create` followed by the stream copy), and the `Host`
  object: the directory whose state changes, the directory separator, and the
  embedded library.
- `file_extensions.dfy`: `CalculateFileMd5Hash` and `SetExecutable`, with the
  hex chain `BitConverter.ToString(..).Replace("-", "").ToLowerInvariant()`
  written out. It is proved equal to a two-digits-per-byte reference
  encoding, which is injective.
- `launch_script.dfy`: `BuildConfig`, `InternalLoadConfig` and
  `ExtractInsertLibEnvVariable` as functions. It proves:
  - the 13-line layout of the script;
  - the round trip from the written settings back to the read ones;
  - the failure cases of the reader;
  - what happens to a target path containing `=`.
- `doorstop_manager.dfy`: the version check and the install as functions with
  lemmas. The class `MacOSDoorstopManager` has methods proved against those
  functions.
- `macos_upgrade.dfy`: the class `MacOSUpgrade`. The setters replace its
  reference fields and `UpdateState` its state; phase one changes the working
  directory and the logger's entries.

`InternalLoadConfig` reads each setting line with `Split('=')[1]`: the text
between the first and the second `=`, not everything after the first `=`. So
`ConfigPathCutAtEquals` proves that a target path `a=b` comes back as `a`. The
enabled flag is read with `Trim(';')`, which strips `;` at both ends of the
field, not only a trailing one.

## Model

| member | source | states |
|---|---|---|
| Strings.Split | PatchLoaderMod/Doorstop/MacOSDoorstopManager.cs:82-88 | `String.Split(c)`: at least one part, no part contains the separator, joining the parts gives back the input, and there is exactly one part iff the separator does not occur |
| Strings.SplitJoin | PatchLoaderMod/Doorstop/MacOSDoorstopManager.cs:74-75 | splitting a join of separator-free parts gives the parts back |
| Strings.Join | PatchLoaderMod/Doorstop/MacOSDoorstopManager.cs:75 | `string.Join(":", values)`: the parts with one separator between neighbours; `JoinAppend` and `SplitJoin` state how it composes and that `Split` undoes it |
| Strings.StartsWith | PatchLoaderMod/Doorstop/MacOSDoorstopManager.cs:74 | `v.StartsWith("$doorstop_libname")`: the prefix equals the first characters of the text, compared character by character |
| Strings.Contains | PatchLoaderMod/Doorstop/MacOSDoorstopManager.cs:73 | `env.Contains("$doorstop_libname")`: the text starts with the substring at some position |
| Strings.ToLower | PatchLoaderMod/Doorstop/MacOSDoorstopManager.cs:86 | `ToLower()` here and `ToLowerInvariant()` at Utils/FileExtensions.cs line 19: the same length, and every character mapped by the ASCII lower-case mapping |
| Strings.ToUpper | PatchLoaderMod/Doorstop/MacOSDoorstopManager.cs:60 | `ToUpper()`: the same length, and every character mapped by the ASCII upper-case mapping |
| Strings.RemoveAll | Utils/FileExtensions.cs:19 | `Replace("-", "")`: the removed character is gone, and every other character present before is still present |
| Strings.Trim | PatchLoaderMod/Doorstop/MacOSDoorstopManager.cs:86-89 | `Trim(chars)`: the result is no longer than the input, neither of its ends is a trimmed character, and a text whose ends are not trimmed characters is returned unchanged |
| Strings.TrimIsSlice | PatchLoaderMod/Doorstop/MacOSDoorstopManager.cs:86-89 | `Trim(chars)` cuts a middle slice out of the input, and everything cut away before and after it is a trimmed character |
| Strings.TrimAround | PatchLoaderMod/Doorstop/MacOSDoorstopManager.cs:89 | trimming a text padded with trimmed characters on both sides gives the text back when its own ends are not trimmed characters |
| HostFiles.CreateFile | PatchLoaderMod/Doorstop/MacOSDoorstopManager.cs:101-106 | `File.Create` plus the copy: it fails, with AccessDenied, exactly on a name that cannot be opened for writing, whether or not the file exists; otherwise the file holds exactly the given bytes, every other file, permission and execute bit is unchanged; in a well-formed directory (only existing files carry the execute bit) the result is well-formed, and a newly created file does not carry the bit |
| FileExtensions.BitConverterToString | Utils/FileExtensions.cs:19 | `BitConverter.ToString`: three characters per byte, less the final dash, and nothing for no bytes |
| FileExtensions.LowerHexDigit | Utils/FileExtensions.cs:19 | a nibble prints as the character at its index in `0123456789abcdef` |
| FileExtensions.NibbleHexAt | Utils/FileExtensions.cs:19 | the reference encoding has two characters per byte; byte i gives characters 2i (high nibble) and 2i+1 (low nibble) |
| FileExtensions.HexChainIsNibbleHex | Utils/FileExtensions.cs:19 | `BitConverter.ToString`, then dash removal, then lower-casing gives the reference encoding |
| FileExtensions.Md5Hex | Utils/FileExtensions.cs:19 | the printed digest is twice as long as the digest (32 characters for MD5), uses only `0-9a-f`, and holds byte i at characters 2i and 2i+1, high nibble first |
| FileExtensions.Md5HexInjective | Utils/FileExtensions.cs:19 | two digests print alike iff they are equal |
| FileExtensions.HexDecode | Utils/FileExtensions.cs:19 | read-back of an even-length lowercase hex string: half as many bytes, and the reference encoding of the result is the string |
| FileExtensions.Md5HexDecode | Utils/FileExtensions.cs:19 | the printing of line 19 and HexDecode are inverses: every even-length lowercase hex string is the print of exactly one byte string |
| FileExtensions.CalculateFileMd5Hash | Utils/FileExtensions.cs:15-23 | fails iff the file is missing (FileNotFound) or cannot be opened for reading; on success the result is 32 lowercase hex characters, and the only digest that prints as it is the MD5 of the file's bytes |
| FileExtensions.SetExecutable | Utils/FileExtensions.cs:25-40 | never fails and never changes contents or permissions; with separator `\` nothing changes at all; otherwise only the execute bit of the given name can be added, exactly when chmod runs and the file exists, so a well-formed directory (only existing files carry the execute bit) stays well-formed |
| MacOSLaunchScript.BuildConfig | PatchLoaderMod/Doorstop/MacOSDoorstopManager.cs:56-69 | the StringBuilder chain written out, one `Append`/`AppendLine` at a time; `BuildConfigIsJoin` and `MacOSLayout` state what it produces |
| MacOSLaunchScript.BoolToString | PatchLoaderMod/Doorstop/MacOSDoorstopManager.cs:60 | `Enabled.ToString()`: `True` or `False`; `UpperBoolText` states its upper-case form |
| MacOSLaunchScript.AppendLine | PatchLoaderMod/Doorstop/MacOSDoorstopManager.cs:58-66 | `StringBuilder.AppendLine(text)`: the builder's text, then the given text, then the newline; `BuildConfigIsJoin` states what the chain of them builds |
| MacOSLaunchScript.UpperBoolText | PatchLoaderMod/Doorstop/MacOSDoorstopManager.cs:60 | `Enabled.ToString().ToUpper()` is `TRUE` or `FALSE` |
| MacOSLaunchScript.BuildConfigIsJoin | PatchLoaderMod/Doorstop/MacOSDoorstopManager.cs:56-69 | the StringBuilder chain is the script's lines joined by newlines: every AppendLine ends a line, and the final exec line has no newline |
| MacOSLaunchScript.MacOSHeaderLines | PatchLoaderMod/Doorstop/MacOSDoorstopManager.cs:38-42 | the macOS header is exactly the four lines shebang, `doorstop_libname`, `doorstop_dir` and `DYLD_LIBRARY_PATH` |
| MacOSLaunchScript.ScriptLines | PatchLoaderMod/Doorstop/MacOSDoorstopManager.cs:56-69 | for newline-free keys, exec line and path, splitting the script on newlines gives the line layout back |
| MacOSLaunchScript.MacOSScriptLines | PatchLoaderMod/Doorstop/MacOSDoorstopManager.cs:56-69 | the same for the macOS properties, for every target path without a newline |
| MacOSLaunchScript.MacOSLayout | PatchLoaderMod/Doorstop/MacOSDoorstopManager.cs:38-69 | 13 lines: the four header lines; `export DYLD_INSERT_LIBRARIES=$doorstop_libname;`; `export DOORSTOP_ENABLED=TRUE;` or `=FALSE;`; `export DOORSTOP_TARGET_ASSEMBLY="<path>";`; the five echo lines in order; and `./Cities.app/Contents/MacOS/Cities $@` last |
| MacOSLaunchScript.SecondField | PatchLoaderMod/Doorstop/MacOSDoorstopManager.cs:82-83 | `Split('=')[1]` is missing iff the line has no `=`, and never contains `=` |
| MacOSLaunchScript.SecondFieldOf | PatchLoaderMod/Doorstop/MacOSDoorstopManager.cs:82-89 | the second field of `key=value` and of `key=value=rest` is `value`: text after a second `=` is dropped |
| MacOSLaunchScript.InternalLoadConfig | PatchLoaderMod/Doorstop/MacOSDoorstopManager.cs:81-94 | fails on fewer than 7 lines and on any of lines 4 to 6 without `=`; succeeds iff there are 7 lines, those three lines have `=`, and the enabled field parses; then enabled is the parsed flag, the path is line 6's second field trimmed of `"` and `;`, and the user-preload flag is false |
| MacOSLaunchScript.BoolParse | PatchLoaderMod/Doorstop/MacOSDoorstopManager.cs:86 | `bool.Parse`: `true` or `false` in any case after trimming white space and NUL, anything else rejected; `BoolParseLiteral` and `BoolParseShort` state its behaviour |
| MacOSLaunchScript.ParseEnabled | PatchLoaderMod/Doorstop/MacOSDoorstopManager.cs:85-86 | the enabled field lower-cased, trimmed of `;` and given to `bool.Parse`; `ParseEnabledAnyCase`, `ParseEnabledFlag` and `ParseEnabledRejectsShort` state its behaviour |
| MacOSLaunchScript.BoolParseLiteral | PatchLoaderMod/Doorstop/MacOSDoorstopManager.cs:86 | `bool.Parse` accepts `true` and `false` |
| MacOSLaunchScript.ParseEnabledAnyCase | PatchLoaderMod/Doorstop/MacOSDoorstopManager.cs:86 | any casing of `true` or `false`, with any number of `;` before and after, parses to that flag |
| MacOSLaunchScript.ParseEnabledFlag | PatchLoaderMod/Doorstop/MacOSDoorstopManager.cs:60-86 | the written `TRUE;` and `FALSE;` parse back to true and false |
| MacOSLaunchScript.ParseEnabledRejectsShort | PatchLoaderMod/Doorstop/MacOSDoorstopManager.cs:86 | a field too short to hold a Boolean literal, such as `1;`, does not parse, so the reader fails on it |
| MacOSLaunchScript.BoolParseShort | PatchLoaderMod/Doorstop/MacOSDoorstopManager.cs:86 | `bool.Parse` rejects every text shorter than `true` |
| MacOSLaunchScript.TrimQuoted | PatchLoaderMod/Doorstop/MacOSDoorstopManager.cs:61-89 | `Trim('"', ';')` of the written `"<path>";` gives the path back when the path is safe |
| MacOSLaunchScript.LoadConfigFields | PatchLoaderMod/Doorstop/MacOSDoorstopManager.cs:81-94 | given seven lines whose fields are present and whose flag parses, the reader returns that flag, the trimmed path and false |
| MacOSLaunchScript.LayoutReadBack | PatchLoaderMod/Doorstop/MacOSDoorstopManager.cs:81-94 | reading the line layout back gives the written flag and path, and false |
| MacOSLaunchScript.ScriptRoundTrip | PatchLoaderMod/Doorstop/MacOSDoorstopManager.cs:56-94 | for any properties with a four-line header, keys without newlines or `=`, and an exec line without a newline, reading back the written script gives the enabled flag and a safe target path unchanged, with user preload false |
| MacOSLaunchScript.ConfigRoundTrip | PatchLoaderMod/Doorstop/MacOSDoorstopManager.cs:56-94 | the macOS round trip: for a target path with no `=`, no newline and no `"` or `;` at either end, reading back the script gives the written flag and path, with user preload false |
| MacOSLaunchScript.ScriptPathCutAtEquals | PatchLoaderMod/Doorstop/MacOSDoorstopManager.cs:88-89 | for any properties with a four-line header, keys without newlines or `=`, and an exec line without a newline, a target path `head=tail`, whose `head` is safe and whose `tail` has no newline, reads back as `head` |
| MacOSLaunchScript.ConfigPathCutAtEquals | PatchLoaderMod/Doorstop/MacOSDoorstopManager.cs:88-89 | in the macOS script, a target path `head=tail` reads back as `head` |
| MacOSLaunchScript.KeepSegments | PatchLoaderMod/Doorstop/MacOSDoorstopManager.cs:74 | the `Where` filter: no kept entry starts with `$doorstop_libname`, and an entry is kept iff it was there and does not start with it |
| MacOSLaunchScript.KeepSegmentsAppend | PatchLoaderMod/Doorstop/MacOSDoorstopManager.cs:74 | the filter keeps the original order: it distributes over concatenation |
| MacOSLaunchScript.ExtractInsertLibEnvVariable | PatchLoaderMod/Doorstop/MacOSDoorstopManager.cs:71-79 | an unset variable gives `""`; a value without `$doorstop_libname` is returned unchanged; otherwise the result is empty when no entry survives, and splits on `:` into exactly the surviving entries, in order |
| MacOSLaunchScript.ExtractIdempotent | PatchLoaderMod/Doorstop/MacOSDoorstopManager.cs:71-79 | cleaning the variable twice gives the same as cleaning it once |
| MacOSDoorstop.LoaderMD5IsHex | PatchLoaderMod/Doorstop/MacOSDoorstopManager.cs:12 | `LoaderMD5` has the form of a printed digest: 32 lowercase hex digits |
| MacOSDoorstop.LoaderMD5NamesOneDigest | PatchLoaderMod/Doorstop/MacOSDoorstopManager.cs:124 | exactly one digest prints as `LoaderMD5`: the string comparison is a comparison with that digest, and it can succeed |
| MacOSDoorstop.LoaderDigestExists | PatchLoaderMod/Doorstop/MacOSDoorstopManager.cs:12 | a 32-digit lowercase hex string such as `LoaderMD5` is the print of some 16-byte digest (which file contents, if any, hash to it is not modelled) |
| MacOSDoorstop.LatestLoaderCheck | PatchLoaderMod/Doorstop/MacOSDoorstopManager.cs:116-131 | the version check as a value: false when the loader is missing, false when hashing fails, otherwise the comparison with `LoaderMD5`; `LatestLoaderCheckMeaning` states it |
| MacOSDoorstop.LatestLoaderCheckMeaning | PatchLoaderMod/Doorstop/MacOSDoorstopManager.cs:116-131 | the version check holds iff the loader exists, can be opened for reading, and its digest prints as `LoaderMD5` |
| MacOSDoorstop.LatestLoaderCheckByContents | PatchLoaderMod/Doorstop/MacOSDoorstopManager.cs:116-131 | two directories holding the same readable loader bytes give the same verdict |
| MacOSDoorstop.InstallLoaderEffect | PatchLoaderMod/Doorstop/MacOSDoorstopManager.cs:96-109 | the install as a value: `File.Create` with the embedded bytes, then `SetExecutable` on the loader, stopping at a failing create; `InstallLoaderWrites` states its effect |
| MacOSDoorstop.InstallLoaderWrites | PatchLoaderMod/Doorstop/MacOSDoorstopManager.cs:96-109 | the install fails iff the loader cannot be opened for writing, and then with AccessDenied; otherwise `doorstop.dylib` holds exactly the embedded bytes, no other file's contents change, no permission changes, no file loses its execute bit, only the loader can gain it, and it gains it exactly when chmod runs on a Unix separator; a well-formed directory stays well-formed |
| MacOSDoorstop.ReadOnlyLoader | PatchLoaderMod/Doorstop/MacOSDoorstopManager.cs:96-131 | a loader that can be read but not written: the version check still compares its digest with `LoaderMD5`, while the install fails with AccessDenied |
| MacOSDoorstop.InstallLoaderIdempotent | PatchLoaderMod/Doorstop/MacOSDoorstopManager.cs:96-109 | installing again after a successful install leaves the directory as it was |
| MacOSDoorstop.InstalledIsLatestIff | PatchLoaderMod/Doorstop/MacOSDoorstopManager.cs:96-131 | right after an install, the version check holds iff the loader can be opened for reading and the embedded bytes hash to `LoaderMD5` |
| MacOSDoorstop.MacOSDoorstopManager.constructor | PatchLoaderMod/Doorstop/MacOSDoorstopManager.cs:49-54 | the manager works on the given directory, MD5 and settings |
| MacOSDoorstop.MacOSDoorstopManager.IsLoaderInstalled | PatchLoaderMod/Doorstop/MacOSDoorstopManager.cs:117 | the base class's installed test: the loader file exists |
| MacOSDoorstop.MacOSDoorstopManager.BuildConfig | PatchLoaderMod/Doorstop/MacOSDoorstopManager.cs:56-69 | the current settings' script splits into the 13-line layout whenever the target path has no newline |
| MacOSDoorstop.MacOSDoorstopManager.IsLatestLoaderVersion | PatchLoaderMod/Doorstop/MacOSDoorstopManager.cs:116-131 | never fails. False when the loader is not installed. Otherwise true iff the loader can be opened for reading and its digest prints as `LoaderMD5`, which is the version check computed on the directory |
| MacOSDoorstop.MacOSDoorstopManager.InstallLoader | PatchLoaderMod/Doorstop/MacOSDoorstopManager.cs:96-109 | fails iff the loader cannot be opened for writing, and then with AccessDenied and the directory untouched; otherwise the directory is the install's effect on the old one, and a well-formed directory stays well-formed |
| MacOSDoorstop.MacOSDoorstopManager.GrantExecuteAccessForConfig | PatchLoaderMod/Doorstop/MacOSDoorstopManager.cs:111-114 | only the execute bit of `Cities_Loader.sh` can change: contents and permissions stay. It is set exactly when it already was, or when chmod runs on a Unix separator and the script exists |
| DoorstopUpgrade.Logger.Info | PatchLoaderMod/DoorstopUpgrade/MacOSUpgrade.cs:36-48 | `_logger.Info(message)`: exactly one info entry with that message is appended, and earlier entries stay |
| DoorstopUpgrade.Logger.Error | PatchLoaderMod/DoorstopUpgrade/MacOSUpgrade.cs:51 | `_logger.Error(message + e)`: exactly one error entry with that message and the caught error is appended, and earlier entries stay |
| DoorstopUpgrade.StateFor | PatchLoaderMod/DoorstopUpgrade/MacOSUpgrade.cs:14-20 | the recorded state is Latest iff the check passed, and otherwise Outdated |
| DoorstopUpgrade.StateAfterInstall | PatchLoaderMod/DoorstopUpgrade/MacOSUpgrade.cs:14-46 | after a successful phase one or install, UpdateState's verdict depends only on whether the loader can be read and the embedded bytes hash to `LoaderMD5` |
| DoorstopUpgrade.MacOSUpgrade.constructor | PatchLoaderMod/DoorstopUpgrade/MacOSUpgrade.cs:8-12 | a new coordinator has no logger, manager or configuration manager |
| DoorstopUpgrade.MacOSUpgrade.UpdateState | PatchLoaderMod/DoorstopUpgrade/MacOSUpgrade.cs:14-20 | only State changes. It becomes Latest iff the manager's loader is installed, can be opened and hashes to `LoaderMD5`, and Outdated otherwise; it is a function of the directory, so a repeat call on an unchanged directory records the same state. When the manager shares the coordinator's directory, the state is the version check on that directory |
| DoorstopUpgrade.MacOSUpgrade.SetDoorstopManager | PatchLoaderMod/DoorstopUpgrade/MacOSUpgrade.cs:22-24 | replaces the manager reference and nothing else; the manager works in the coordinator's directory |
| DoorstopUpgrade.MacOSUpgrade.SetLogger | PatchLoaderMod/DoorstopUpgrade/MacOSUpgrade.cs:26-28 | replaces the logger reference and nothing else |
| DoorstopUpgrade.MacOSUpgrade.SetConfigManager | PatchLoaderMod/DoorstopUpgrade/MacOSUpgrade.cs:30-32 | replaces the configuration manager reference and nothing else |
| DoorstopUpgrade.MacOSUpgrade.FollowToPhaseOne | PatchLoaderMod/DoorstopUpgrade/MacOSUpgrade.cs:34-54 | never fails. Returns true iff the loader can be opened for writing, and then the directory is exactly the install's effect, the attempt and success messages are logged, and, when the manager shares the coordinator's directory, a following UpdateState records Latest iff the loader can be read and the embedded bytes hash to `LoaderMD5`. Otherwise it returns false, the directory is untouched, and the attempt message and the error are logged |
| DoorstopUpgrade.MacOSUpgrade.FollowToPhaseTwo | PatchLoaderMod/DoorstopUpgrade/MacOSUpgrade.cs:56-58 | returns false and changes nothing |
| DoorstopUpgrade.MacOSUpgrade.FollowToPhaseThree | PatchLoaderMod/DoorstopUpgrade/MacOSUpgrade.cs:60-62 | returns false and changes nothing |
| DoorstopUpgrade.MacOSUpgrade.HandleError | PatchLoaderMod/DoorstopUpgrade/MacOSUpgrade.cs:64-66 | returns false and changes nothing |

## Left out

- The MD5 algorithm: `Md5` is an arbitrary function from bytes to a 16-byte digest. The model proves nothing about cryptography.
- Opening the embedded resource and copying streams: the resource is a fixed byte sequence, and `File.Create` plus `CopyStream` writes it whole. A missing resource (a null stream), a partial copy and a disk-full error are not modelled.
- Running `/bin/chmod`: whether the process starts and succeeds is the parameter `chmodRuns`. Its exceptions are swallowed in the source, so `SetExecutable` is total.
- Reading the process environment: the value of `DYLD_INSERT_LIBRARIES` is a parameter. `None` stands for an unset variable.
- `File.ReadAllLines` is not part of this model. The script is read back as its split on `'\n'`, and the round trip is proved for that split only. `ReadAllLines` also ends a line at `\r\n` and at a lone `\r`, so a target path holding `\r` would not survive the real reader.
- Failures of `File.OpenRead` and `File.Create`: each is a set of names (`unreadable`, `unwritable`), whatever the cause (permissions, sharing, a directory in the way). Partial permissions such as write-only are expressible; the reasons are not.
- The manager's logging: the `Info`, `_Debug` and `Error` calls of the manager are not modelled. In the upgrade coordinator the logger is a list of entries. The text appended from an exception's `ToString()` is the modelled `IoError` instead.
- `InstallMessage` and `UninstallMessage`: they are display text only.
- DoorstopManager, the base class, is not part of this model. Its `IsLoaderInstalled` is file existence. Its `_configValues` is the field `configValues`. The upgrade's `CheckLoaderVersionVersion` is taken to call `IsLatestLoaderVersion`, so `UpdateState` calls that directly.
- The constructor's `UpgradeManager = new MacOSUpgrade()` is not modelled. The coordinator gets its manager through `SetDoorstopManager`, which keeps the two modules acyclic.
- `ConfigManager<Config>` is not part of this model: the coordinator only stores the reference.
- The default value of the `UpgradeState` enumeration is not shown in the source. It is a constructor parameter, and only the two values `UpdateState` writes are named.
- The culture rules of `ToLower`, `ToUpper`, `ToLowerInvariant` and the culture-sensitive `StartsWith(string)`: the case mappings are modelled on ASCII letters, and `StartsWith` compares character by character. `bool.Parse`'s white space is modelled as ASCII white space plus NUL.
- DoorstopUpgrade.MacOSUpgrade.FollowToPhaseOne: it requires a logger. With a null logger, the source's `Info` call throws, and the catch block's own `Error` call throws again out of the method. The model does not cover that case.
- DoorstopUpgrade.MacOSUpgrade.UpdateState: it requires a manager, because a null manager makes the source throw.
- DoorstopUpgrade.MacOSUpgrade.SetDoorstopManager: it requires the manager to work in the coordinator's directory. In the source both use the one working directory of the process; the model has a `Host` per object and states the sharing instead.
- MacOSDoorstop.MacOSDoorstopManager.BuildConfig: its layout guarantee covers target paths without a newline. A newline in the path would split the script differently.
