/** Path helpers and the modification monitor of `file_utils.c`. The file
    system is replaced by what `stat` reports: `None` for a failed `stat`,
    otherwise the file's modification time. */
module FileUtils {
  import opened Common

  /** `filename`: the part of the path after its last '/', or the whole path. */
  function Filename(path: string): (r: string)
    ensures '/' !in r
    ensures '/' !in path ==> r == path
    ensures |r| <= |path| && path[|path| - |r|..] == r
    ensures |r| < |path| ==> path[|path| - |r| - 1] == '/'
  {
    match LastIndexOf(path, '/')
    case None => path
    case Some(i) => path[i + 1..]
  }

  /** A name behind a directory is its file name. */
  lemma FilenameOfJoin(dir: string, name: string)
    requires '/' !in name
    ensures Filename(dir + "/" + name) == name
  {
    var p := dir + "/" + name;
    assert p[|dir|] == '/';
  }

  /** `extension`: the text after the last '.', or None when there is no '.'
      or it is the last character. */
  function Extension(path: string): (r: Option<string>)
    ensures r.Some? ==> r.value != [] && '.' !in r.value
    ensures r.Some? ==> |r.value| < |path| && path == path[..|path| - |r.value| - 1] + "." + r.value
    ensures r.None? <==> '.' !in path || path[|path| - 1] == '.'
  {
    match LastIndexOf(path, '.')
    case None => None
    case Some(i) =>
      if i + 1 == |path| then None
      else
        assert path == path[..i] + "." + path[i + 1..];
        Some(path[i + 1..])
  }

  /** The extension of `base.ext` is `ext`. */
  lemma ExtensionOfJoin(base: string, ext: string)
    requires ext != [] && '.' !in ext
    ensures Extension(base + "." + ext) == Some(ext)
  {
    var p := base + "." + ext;
    assert p[|base|] == '.';
    assert p[|base| + 1..] == ext;
  }

  // ---------------------------------------------------------------------------
  // Modification monitor

  /** What `file_monitor_check` returns: -1 when the file cannot be examined,
      1 when its modification time moved, 0 otherwise. */
  function CheckResult(lastUpdate: int, mtime: Option<int>): (r: int)
    ensures r == -1 <==> mtime.None?
    ensures r == 1 <==> mtime.Some? && mtime.value != lastUpdate
    ensures r == 0 <==> mtime == Some(lastUpdate)
  {
    match mtime
    case None => -1
    case Some(t) => if t != lastUpdate then 1 else 0
  }

  /** The time a check records: the new time when it moved. */
  function RecordedTime(lastUpdate: int, mtime: Option<int>): int {
    if mtime.Some? then mtime.value else lastUpdate
  }

  /** Right after a check, a second one with the same modification time
      reports no change. */
  lemma SecondCheckQuiet(lastUpdate: int, t: int)
    ensures CheckResult(RecordedTime(lastUpdate, Some(t)), Some(t)) == 0
  {
  }

  /** `file_monitor`: the watched path and the time of its last modification
      seen. */
  class FileMonitor {
    var filepath: string
    var lastUpdate: int

    constructor (filepath: string)
      ensures this.filepath == filepath && lastUpdate == 0
    {
      this.filepath := filepath;
      lastUpdate := 0;
    }
  }

  /** `file_monitor_init`: a missing monitor or path fails; otherwise the path
      is stored and, when `stat` succeeds, so is the time. */
  method MonitorInit(monitor: FileMonitor?, filepath: Option<string>, mtime: Option<int>) returns (ok: bool)
    modifies monitor
    ensures ok <==> monitor != null && filepath.Some? && mtime.Some?
    ensures monitor != null && filepath.Some? ==> monitor.filepath == filepath.value
    ensures ok ==> monitor.lastUpdate == mtime.value
    ensures monitor != null && !ok ==> monitor.lastUpdate == old(monitor.lastUpdate)
    ensures monitor != null && filepath.None? ==> monitor.filepath == old(monitor.filepath)
  {
    if monitor == null || filepath.None? {
      return false;
    }
    monitor.filepath := filepath.value;
    if mtime.None? {
      return false;
    }
    monitor.lastUpdate := mtime.value;
    return true;
  }

  /** `file_monitor_check`: -1 for a missing monitor or a failed `stat`; else
      whether the modification time moved, recording the new one. */
  method MonitorCheck(monitor: FileMonitor?, mtime: Option<int>) returns (r: int)
    modifies monitor
    ensures monitor == null ==> r == -1
    ensures monitor != null ==> r == CheckResult(old(monitor.lastUpdate), mtime)
    ensures monitor != null ==> monitor.lastUpdate == RecordedTime(old(monitor.lastUpdate), mtime)
    ensures monitor != null ==> monitor.filepath == old(monitor.filepath)
  {
    if monitor == null {
      return -1;
    }
    if mtime.None? {
      return -1;
    }
    if mtime.value != monitor.lastUpdate {
      monitor.lastUpdate := mtime.value;
      return 1;
    }
    return 0;
  }
}
