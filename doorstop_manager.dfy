/**
 * MacOSDoorstopManager: where the Doorstop loader lives on macOS, how its
 * version is checked against the expected MD5, and how it is installed
 * from the bytes embedded in the mod's assembly.
 */
module MacOSDoorstop {
  import opened Wrappers
  import opened HostFiles
  import opened FileExtensions
  import opened MacOSLaunchScript
  import opened Strings

  /** The MD5 of the loader this release ships, as lowercase hex. */
  const LoaderMD5 := "878ce9acec5a81571c3750f243efab53"

  /** The loader library and the launch script, relative to the working directory. */
  const LoaderFileName := "doorstop.dylib"
  const ConfigFileName := "Cities_Loader.sh"

  /** The capabilities the macOS variant reports. */
  const RequiresRestart := false
  const PlatformSupported := true
  const CanEnable := true

  /** LoaderMD5 has the shape of a printed digest: 32 lowercase hex digits. */
  lemma LoaderMD5IsHex()
    ensures |LoaderMD5| == 32
    ensures forall k :: 0 <= k < |LoaderMD5| ==> LoaderMD5[k] in LowerHexDigits
  {
  }

  /**
   * Exactly one digest prints as LoaderMD5, so comparing the strings
   * compares the digests, and the comparison can succeed.
   */
  lemma LoaderMD5NamesOneDigest()
    ensures exists d: Digest :: Md5Hex(d) == LoaderMD5
    ensures forall a: Digest, b: Digest :: Md5Hex(a) == LoaderMD5 && Md5Hex(b) == LoaderMD5 ==> a == b
  {
    LoaderMD5IsHex();
    LoaderDigestExists(LoaderMD5);
    forall a: Digest, b: Digest | Md5Hex(a) == LoaderMD5 && Md5Hex(b) == LoaderMD5 ensures a == b {
      Md5HexInjective(a, b);
    }
  }

  /** A 32-digit lowercase hex string is the print of a digest. */
  lemma LoaderDigestExists(hex: string)
    requires |hex| == 32
    requires forall k :: 0 <= k < |hex| ==> hex[k] in LowerHexDigits
    ensures exists d: Digest :: Md5Hex(d) == hex
  {
    Md5HexDecode(hex);
    var d: Digest := HexDecode(hex);
    assert Md5Hex(d) == hex;
  }

  /**
   * The version check as a value: not installed gives false, a hash that
   * throws gives false, otherwise the hex digest is compared to LoaderMD5.
   */
  function LatestLoaderCheck(fs: Files, md5: Md5): bool
  {
    if LoaderFileName !in fs.contents then false
    else match CalculateFileMd5Hash(md5, fs, LoaderFileName)
      case Success(hex) => hex == LoaderMD5
      case Failure(_) => false
  }

  /**
   * The version check holds exactly when the loader is present and readable
   * and its digest prints as LoaderMD5.
   */
  lemma LatestLoaderCheckMeaning(fs: Files, md5: Md5)
    ensures LatestLoaderCheck(fs, md5) <==>
      LoaderFileName in fs.contents && LoaderFileName !in fs.unreadable
      && Md5Hex(md5(fs.contents[LoaderFileName])) == LoaderMD5
  {
    if LoaderFileName in fs.contents && LoaderFileName !in fs.unreadable {
      var d := md5(fs.contents[LoaderFileName]);
      assert CalculateFileMd5Hash(md5, fs, LoaderFileName).value == Md5Hex(d);
    }
  }

  /** Two file sets holding the same readable loader bytes agree on the version check. */
  lemma LatestLoaderCheckByContents(fs1: Files, fs2: Files, md5: Md5)
    requires LoaderFileName in fs1.contents && LoaderFileName !in fs1.unreadable
    requires LoaderFileName in fs2.contents && LoaderFileName !in fs2.unreadable
    requires fs1.contents[LoaderFileName] == fs2.contents[LoaderFileName]
    ensures LatestLoaderCheck(fs1, md5) == LatestLoaderCheck(fs2, md5)
  {
    LatestLoaderCheckMeaning(fs1, md5);
    LatestLoaderCheckMeaning(fs2, md5);
  }

  /**
   * InstallLoader's effect: File.Create("doorstop.dylib") filled with the
   * embedded bytes, then SetExecutable on it. A failing File.Create throws
   * before anything is written.
   */
  function InstallLoaderEffect(fs: Files, resource: seq<byte>, separator: char, chmodRuns: bool): Result<Files, IoError>
  {
    match CreateFile(fs, LoaderFileName, resource)
      case Failure(e) => Failure(e)
      case Success(created) => Success(SetExecutable(created, LoaderFileName, separator, chmodRuns))
  }

  /**
   * Installing fails only on an unwritable loader file, and then with
   * AccessDenied; otherwise doorstop.dylib holds the embedded bytes, no
   * other file's contents change, no file loses its execute bit, and the
   * loader gains it exactly when chmod can run.
   */
  lemma InstallLoaderWrites(fs: Files, resource: seq<byte>, separator: char, chmodRuns: bool)
    ensures var r := InstallLoaderEffect(fs, resource, separator, chmodRuns);
      && (r.Failure? <==> LoaderFileName in fs.unwritable)
      && (r.Failure? ==> r.error == AccessDenied(LoaderFileName))
      && (r.Success? ==> r.value.contents == fs.contents[LoaderFileName := resource])
      && (r.Success? ==> r.value.unreadable == fs.unreadable && r.value.unwritable == fs.unwritable)
      && (r.Success? ==> fs.executable <= r.value.executable <= fs.executable + {LoaderFileName})
      && (r.Success? ==> (LoaderFileName in r.value.executable <==>
                          LoaderFileName in fs.executable || (separator != '\\' && chmodRuns)))
      && (r.Success? && WellFormed(fs) ==> WellFormed(r.value))
  {
    var r := InstallLoaderEffect(fs, resource, separator, chmodRuns);
    if r.Success? {
      var created := CreateFile(fs, LoaderFileName, resource).value;
      assert created.contents == fs.contents[LoaderFileName := resource];
    }
  }

  /**
   * A read-only loader: the version check can pass while the install
   * fails, since reading and writing are refused separately.
   */
  lemma ReadOnlyLoader(fs: Files, resource: seq<byte>, separator: char, chmodRuns: bool, md5: Md5)
    requires LoaderFileName in fs.contents && LoaderFileName !in fs.unreadable
    requires LoaderFileName in fs.unwritable
    ensures LatestLoaderCheck(fs, md5) <==> Md5Hex(md5(fs.contents[LoaderFileName])) == LoaderMD5
    ensures InstallLoaderEffect(fs, resource, separator, chmodRuns) == Failure(AccessDenied(LoaderFileName))
  {
    LatestLoaderCheckMeaning(fs, md5);
  }

  /** Installing a second time leaves the files as the first install left them. */
  lemma InstallLoaderIdempotent(fs: Files, resource: seq<byte>, separator: char, chmodRuns: bool)
    requires InstallLoaderEffect(fs, resource, separator, chmodRuns).Success?
    ensures var once := InstallLoaderEffect(fs, resource, separator, chmodRuns).value;
      InstallLoaderEffect(once, resource, separator, chmodRuns) == Success(once)
  {
    var once := InstallLoaderEffect(fs, resource, separator, chmodRuns).value;
    InstallLoaderWrites(fs, resource, separator, chmodRuns);
    InstallLoaderWrites(once, resource, separator, chmodRuns);
    var twice := InstallLoaderEffect(once, resource, separator, chmodRuns).value;
    assert twice.contents == once.contents;
    var created := CreateFile(once, LoaderFileName, resource).value;
    assert created.contents == once.contents;
    assert created.executable == once.executable;
    assert LoaderFileName in created.contents;
    assert twice.executable == once.executable;
  }

  /**
   * Right after an install, the loader is the latest exactly when it can
   * be read back and the embedded bytes hash to LoaderMD5.
   */
  lemma InstalledIsLatestIff(fs: Files, resource: seq<byte>, separator: char, chmodRuns: bool, md5: Md5)
    requires InstallLoaderEffect(fs, resource, separator, chmodRuns).Success?
    ensures LatestLoaderCheck(InstallLoaderEffect(fs, resource, separator, chmodRuns).value, md5)
            <==> LoaderFileName !in fs.unreadable && Md5Hex(md5(resource)) == LoaderMD5
  {
    var after := InstallLoaderEffect(fs, resource, separator, chmodRuns).value;
    InstallLoaderWrites(fs, resource, separator, chmodRuns);
    LatestLoaderCheckMeaning(after, md5);
  }

  /** MacOSDoorstopManager, over the process's working directory. */
  class MacOSDoorstopManager {
    const host: Host
    const md5: Md5                  // MD5.ComputeHash
    var configValues: ConfigValues  // the _configValues snapshot of the base class

    constructor (host: Host, md5: Md5, configValues: ConfigValues)
      ensures this.host == host && this.md5 == md5 && this.configValues == configValues
    {
      this.host := host;
      this.md5 := md5;
      this.configValues := configValues;
    }

    /** IsLoaderInstalled(): the loader file exists. */
    predicate IsLoaderInstalled()
      reads host
    {
      LoaderFileName in host.fs.contents
    }

    /** BuildConfig(): the launch script for the current settings. */
    function BuildConfig(): (text: string)
      reads this
      ensures '\n' !in configValues.targetAssembly ==>
        Split(text, '\n') == ScriptLayout(MacOSConfigProperties, configValues)
    {
      if '\n' !in configValues.targetAssembly then
        MacOSLaunchScript.MacOSScriptLines(configValues);
        MacOSLaunchScript.BuildConfig(MacOSConfigProperties, configValues)
      else
        MacOSLaunchScript.BuildConfig(MacOSConfigProperties, configValues)
    }

    /**
     * IsLatestLoaderVersion(): false when the loader is missing, false when
     * hashing it throws, otherwise whether its hash is LoaderMD5. Never throws.
     */
    method IsLatestLoaderVersion() returns (latest: bool)
      ensures latest == LatestLoaderCheck(host.fs, md5)
      ensures !IsLoaderInstalled() ==> !latest
      ensures latest <==> IsLoaderInstalled() && LoaderFileName !in host.fs.unreadable
                           && Md5Hex(md5(host.fs.contents[LoaderFileName])) == LoaderMD5
    {
      LatestLoaderCheckMeaning(host.fs, md5);
      if !IsLoaderInstalled() {
        return false;
      }
      var hash := CalculateFileMd5Hash(md5, host.fs, LoaderFileName);
      match hash {
        case Success(hex) => latest := hex == LoaderMD5;
        case Failure(_) => latest := false;
      }
    }

    /**
     * InstallLoader(): overwrite doorstop.dylib with the embedded library and
     * mark it executable. The exception of a failing File.Create is returned
     * as Fail, with the files untouched.
     */
    method InstallLoader(chmodRuns: bool) returns (r: Outcome<IoError>)
      modifies host
      ensures r.Fail? <==> LoaderFileName in old(host.fs).unwritable
      ensures r.Pass? ==> host.fs == InstallLoaderEffect(old(host.fs), host.resource, host.separator, chmodRuns).value
      ensures r.Fail? ==> host.fs == old(host.fs) && r.error == AccessDenied(LoaderFileName)
      ensures WellFormed(old(host.fs)) ==> WellFormed(host.fs)
    {
      var created := CreateFile(host.fs, LoaderFileName, host.resource);
      if created.Failure? {
        return Fail(created.error);
      }
      host.fs := SetExecutable(created.value, LoaderFileName, host.separator, chmodRuns);
      r := Pass;
    }

    /**
     * GrantExecuteAccessForConfig(): the best-effort chmod +x of the launch
     * script; nothing but its executable bit can change.
     */
    method GrantExecuteAccessForConfig(chmodRuns: bool)
      modifies host
      ensures host.fs == SetExecutable(old(host.fs), ConfigFileName, host.separator, chmodRuns)
      ensures host.fs.contents == old(host.fs).contents
      ensures host.fs.unreadable == old(host.fs).unreadable && host.fs.unwritable == old(host.fs).unwritable
      ensures ConfigFileName in host.fs.executable <==>
        ConfigFileName in old(host.fs).executable
        || (host.separator != '\\' && chmodRuns && ConfigFileName in host.fs.contents)
    {
      host.fs := SetExecutable(host.fs, ConfigFileName, host.separator, chmodRuns);
    }
  }
}
