/**
 * MacOSUpgrade: the upgrade coordinator of the macOS loader. It records
 * whether the installed loader is the latest one and, in its first
 * phase, rewrites doorstop.dylib from the embedded library, reporting
 * failure instead of throwing.
 */
module DoorstopUpgrade {
  import opened HostFiles
  import opened FileExtensions
  import opened MacOSDoorstop

  /**
   * The upgrade states. This coordinator only ever sets Latest and
   * Outdated; Unknown stands for every other value of the enumeration.
   */
  datatype UpgradeState = Unknown | Latest | Outdated

  /** What the logger was asked to record, in order. */
  datatype LogEntry = InfoEntry(message: string) | ErrorEntry(message: string, cause: IoError)

  /** The mod's logger, reduced to the list of entries it was given. */
  class Logger {
    var entries: seq<LogEntry>

    constructor ()
      ensures entries == []
    {
      entries := [];
    }

    method Info(message: string)
      modifies this
      ensures entries == old(entries) + [InfoEntry(message)]
    {
      entries := entries + [InfoEntry(message)];
    }

    method Error(message: string, cause: IoError)
      modifies this
      ensures entries == old(entries) + [ErrorEntry(message, cause)]
    {
      entries := entries + [ErrorEntry(message, cause)];
    }
  }

  /** The mod's configuration manager; this coordinator only stores it. */
  class ConfigManager {
    constructor ()
    {
    }
  }

  const AttemptMessage := "MacOSUpgrade: Attempting to update doorstop.dylib"
  const SuccessMessage := "MacOSUpgrade: Update successful"
  const FailureMessage := "MacOSUpgrade: Update failed. "

  /** The state UpdateState records for an outcome of the version check. */
  function StateFor(latest: bool): (s: UpgradeState)
    ensures s != Unknown
    ensures s == Latest <==> latest
  {
    if latest then Latest else Outdated
  }

  /**
   * The state UpdateState records right after a successful phase one (or
   * install) is decided by the embedded bytes and the loader's read
   * permission alone.
   */
  lemma StateAfterInstall(fs: Files, resource: seq<byte>, separator: char, chmodRuns: bool, md5: Md5)
    requires InstallLoaderEffect(fs, resource, separator, chmodRuns).Success?
    ensures StateFor(LatestLoaderCheck(InstallLoaderEffect(fs, resource, separator, chmodRuns).value, md5))
            == StateFor(LoaderFileName !in fs.unreadable && Md5Hex(md5(resource)) == LoaderMD5)
  {
    InstalledIsLatestIff(fs, resource, separator, chmodRuns, md5);
  }

  class MacOSUpgrade {
    const host: Host
    var logger: Logger?
    var doorstopManager: MacOSDoorstopManager?
    var configManager: ConfigManager?
    var state: UpgradeState

    /**
     * The coordinator and its manager act on the one working directory of
     * the process.
     */
    predicate SharesDirectory()
      reads this
    {
      doorstopManager != null ==> doorstopManager.host == host
    }

    /**
     * A fresh coordinator: no logger, manager or configuration yet. State
     * starts at the enumeration's default value, which is a parameter here.
     */
    constructor (host: Host, initial: UpgradeState)
      ensures this.host == host
      ensures logger == null && doorstopManager == null && configManager == null
      ensures state == initial
      ensures SharesDirectory()
    {
      this.host := host;
      logger := null;
      doorstopManager := null;
      configManager := null;
      state := initial;
    }

    /**
     * UpdateState(): Latest when the manager's version check passes,
     * Outdated otherwise. Calling it without a manager throws.
     */
    method UpdateState()
      requires doorstopManager != null
      modifies this`state
      ensures state == StateFor(LatestLoaderCheck(doorstopManager.host.fs, doorstopManager.md5))
      ensures state == Latest <==>
        doorstopManager.IsLoaderInstalled() && LoaderFileName !in doorstopManager.host.fs.unreadable
        && Md5Hex(doorstopManager.md5(doorstopManager.host.fs.contents[LoaderFileName])) == LoaderMD5
      ensures SharesDirectory() ==> state == StateFor(LatestLoaderCheck(host.fs, doorstopManager.md5))
    {
      var latest := doorstopManager.IsLatestLoaderVersion();
      state := StateFor(latest);
    }

    /** The manager handed over works in the same directory as the coordinator. */
    method SetDoorstopManager(manager: MacOSDoorstopManager?)
      requires manager != null ==> manager.host == host
      modifies this`doorstopManager
      ensures doorstopManager == manager
      ensures SharesDirectory()
    {
      doorstopManager := manager;
    }

    method SetLogger(logger: Logger?)
      modifies this`logger
      ensures this.logger == logger
    {
      this.logger := logger;
    }

    method SetConfigManager(manager: ConfigManager?)
      modifies this`configManager
      ensures configManager == manager
    {
      configManager := manager;
    }

    /**
     * FollowToPhaseOne(): rewrite doorstop.dylib from the embedded library
     * and mark it executable. A failure to create the file is logged and
     * reported as false, with the files untouched. Without a logger the
     * catch block itself throws, so a logger is required. After a success,
     * the next UpdateState is decided by the embedded bytes.
     */
    method FollowToPhaseOne(chmodRuns: bool) returns (ok: bool)
      requires logger != null
      modifies host, logger
      ensures ok <==> LoaderFileName !in old(host.fs).unwritable
      ensures ok ==> host.fs == InstallLoaderEffect(old(host.fs), host.resource, host.separator, chmodRuns).value
      ensures ok ==> logger.entries == old(logger.entries) + [InfoEntry(AttemptMessage), InfoEntry(SuccessMessage)]
      ensures !ok ==> host.fs == old(host.fs)
      ensures !ok ==> (logger.entries ==
        old(logger.entries) + [InfoEntry(AttemptMessage), ErrorEntry(FailureMessage, AccessDenied(LoaderFileName))])
      ensures ok && doorstopManager != null && SharesDirectory() ==>
        StateFor(LatestLoaderCheck(host.fs, doorstopManager.md5))
        == StateFor(LoaderFileName !in old(host.fs).unreadable && Md5Hex(doorstopManager.md5(host.resource)) == LoaderMD5)
    {
      logger.Info(AttemptMessage);
      var created := CreateFile(host.fs, LoaderFileName, host.resource);
      if created.Failure? {
        logger.Error(FailureMessage, created.error);
        return false;
      }
      host.fs := SetExecutable(created.value, LoaderFileName, host.separator, chmodRuns);
      if doorstopManager != null {
        StateAfterInstall(old(host.fs), host.resource, host.separator, chmodRuns, doorstopManager.md5);
      }
      logger.Info(SuccessMessage);
      ok := true;
    }

    /** The later phases and the error handler have nothing to do on macOS. */
    method FollowToPhaseTwo() returns (ok: bool)
      ensures !ok
    {
      ok := false;
    }

    method FollowToPhaseThree() returns (ok: bool)
      ensures !ok
    {
      ok := false;
    }

    method HandleError() returns (ok: bool)
      ensures !ok
    {
      ok := false;
    }
  }
}
