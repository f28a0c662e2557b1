/**
 * The start-up values the master process writes to the configuration store
 * before reading the configuration file: where that file is, which stream
 * the log goes to, and the program mode chosen by the name it was called by.
 *
 * The store is a map from variable names to variables; `set_variable`
 * replaces the entry under the variable's name.
 */
module Startup {
  import opened Wrappers
  import opened Values
  import opened Paths

  type Store = map<string, Variable>

  /** The log destinations of `enum OutputStream`. */
  const STDOUT := 1
  const STDERR := 2
  const FILESTREAM := 3

  /** The configuration file, relative to the directory of the executable. */
  const StdConfigPath := "../proxy.conf"

  /** The executable name that selects debug mode. */
  const DebugName := "debug_proxy"

  /** `set_variable` for a variable holding one integer. */
  function SetInt(store: Store, name: string, n: int): Store {
    store[name := Variable(Integer, [Int(n)])]
  }

  /**
   * `init_config_values`: "config" names the configuration file next to the
   * executable's directory and "log_stream" is STDERR; nothing else changes.
   * The C code passes the path on even when `exec_path` is NULL, which only
   * the store could make sense of, so the path is required here.
   */
  function InitConfigValues(execPath: string, store: Store): (r: (int, Store))
    ensures r.0 == 0
    ensures r.1.Keys == store.Keys + {"config", "log_stream"}
    ensures r.1["config"] == Variable(String, [Str(CreatePathFromCallDir(Some(execPath), Some(StdConfigPath)).value)])
    ensures r.1["log_stream"] == Variable(Integer, [Int(STDERR)])
    ensures forall k | k in store && k !in {"config", "log_stream"} :: r.1[k] == store[k]
  {
    var configPath := ExecDir(execPath) + StdConfigPath;
    var s1 := store["config" := Variable(String, [Str(configPath)])];
    (0, SetInt(s1, "log_stream", STDERR))
  }

  /**
   * `set_program_mode`: -1 for NULL. Otherwise "program_mode" is 1 when the
   * name after the last '/' is "debug_proxy", and then "log_stream" is
   * STDOUT; else "program_mode" is 0 and "log_stream" is left as it was.
   */
  function SetProgramMode(hardlink: Option<string>, store: Store): (r: (int, Store))
    ensures hardlink.None? ==> r == (-1, store)
    ensures hardlink.Some? ==> r.0 == 0 && "program_mode" in r.1
    ensures hardlink.Some? ==>
              (r.1["program_mode"] == Variable(Integer, [Int(1)]) <==> BaseName(hardlink.value) == DebugName)
    ensures hardlink.Some? && BaseName(hardlink.value) == DebugName ==>
              r.1 == store["log_stream" := Variable(Integer, [Int(STDOUT)])]["program_mode" := Variable(Integer, [Int(1)])]
    ensures hardlink.Some? && BaseName(hardlink.value) != DebugName ==>
              r.1 == store["program_mode" := Variable(Integer, [Int(0)])]
  {
    if hardlink.None? then (-1, store)
    else
      var isDebug := BaseName(hardlink.value) == DebugName;
      var s1 := if isDebug then SetInt(store, "log_stream", STDOUT) else store;
      (0, SetInt(s1, "program_mode", if isDebug then 1 else 0))
  }

  /** The backward scan of `set_program_mode` for the name it compares. */
  method ProgramName(hardlink: string) returns (name: string)
    ensures name == BaseName(hardlink)
    ensures '/' in hardlink ==> ExecDir(hardlink) + name == hardlink
  {
    var start := |hardlink| - 1;
    assert hardlink[..start + 1] == hardlink && hardlink[start + 1..] == [];
    while start >= 0 && hardlink[start] != '/'
      invariant -1 <= start < |hardlink|
      invariant BaseName(hardlink) == BaseName(hardlink[..start + 1]) + hardlink[start + 1..]
    {
      NameStep(hardlink, start);
      start := start - 1;
    }
    NameEnd(hardlink, start);
    name := hardlink[start + 1..];
    if '/' in hardlink {
      DirAndBase(hardlink);
    }
  }

  /** The scan stops before the string or at a '/': what lies after it is the name. */
  lemma {:induction false} NameEnd(s: string, start: int)
    requires -1 <= start < |s| && (start == -1 || s[start] == '/')
    requires BaseName(s) == BaseName(s[..start + 1]) + s[start + 1..]
    ensures BaseName(s) == s[start + 1..]
  {
    assert BaseName(s[..start + 1]) == [];
  }

  /** One step of the backward scan past a character that is not '/'. */
  lemma {:induction false} NameStep(s: string, start: nat)
    requires start < |s| && s[start] != '/'
    requires BaseName(s) == BaseName(s[..start + 1]) + s[start + 1..]
    ensures BaseName(s) == BaseName(s[..start]) + s[start..]
  {
    var c := s[start];
    assert s[..start + 1] == s[..start] + [c];
    BaseNameSnoc(s[..start], c);
    assert s[start..] == [c] + s[start + 1..];
  }

  /** A character other than '/' extends the base name. */
  lemma {:induction false} BaseNameSnoc(t: string, c: char)
    requires c != '/'
    ensures BaseName(t + [c]) == BaseName(t) + [c]
  {
    assert (t + [c])[..|t|] == t;
  }

  /** An executable called as `dir/debug_proxy` runs in debug mode and logs to STDOUT. */
  lemma {:induction false} DebugByName(dir: string, store: Store)
    ensures SetProgramMode(Some(dir + "/" + DebugName), store).1["program_mode"] == Variable(Integer, [Int(1)])
    ensures SetProgramMode(Some(dir + "/" + DebugName), store).1["log_stream"] == Variable(Integer, [Int(STDOUT)])
  {
    var s := dir + "/" + DebugName;
    assert '/' in s by { assert s[|dir|] == '/'; }
    ExecDirOf(dir, DebugName);
    DirAndBase(s);
    assert s == (dir + "/") + DebugName;
  }

  /**
   * The order in `main`: `init_config_values` then `set_program_mode` with
   * the same `argv[0]`. The log goes to STDOUT in debug mode and to STDERR
   * otherwise, and the configuration file is found next to the executable.
   */
  lemma {:induction false} StartupValues(arg0: string, store: Store)
    ensures var s := SetProgramMode(Some(arg0), InitConfigValues(arg0, store).1).1;
            && s["log_stream"] == Variable(Integer, [Int(if BaseName(arg0) == DebugName then STDOUT else STDERR)])
            && s["program_mode"] == Variable(Integer, [Int(if BaseName(arg0) == DebugName then 1 else 0)])
            && s["config"] == Variable(String, [Str(ExecDir(arg0) + StdConfigPath)])
  {
    Distinct();
    var s0 := InitConfigValues(arg0, store).1;
    assert s0["log_stream"] == Variable(Integer, [Int(STDERR)]);
    assert s0["config"] == Variable(String, [Str(ExecDir(arg0) + StdConfigPath)]);
    var s := SetProgramMode(Some(arg0), s0).1;
    if BaseName(arg0) == DebugName {
      assert s == s0["log_stream" := Variable(Integer, [Int(STDOUT)])]["program_mode" := Variable(Integer, [Int(1)])];
    } else {
      assert s == s0["program_mode" := Variable(Integer, [Int(0)])];
    }
  }

  /** The three names the start-up code writes are different keys. */
  lemma {:induction false} Distinct()
    ensures "config" != "log_stream" && "config" != "program_mode" && "log_stream" != "program_mode"
  {
    assert "config"[0] != "log_stream"[0];
    assert "config"[0] != "program_mode"[0];
    assert "log_stream"[0] != "program_mode"[0];
  }
}
