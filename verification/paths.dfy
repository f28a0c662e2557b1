/**
 * The path helpers of the master process: the directory of the executable
 * as it was called, paths relative to it, and the file name of a plugin.
 *
 * A C string is modelled by its characters before the terminating NUL, and a
 * NULL pointer by None.
 */
module Paths {
  import opened Wrappers

  /**
   * What `get_path_from_arg0` computes for a non-NULL `arg0`: everything up
   * to and including the last '/', or "./" when there is none.
   */
  function ExecDir(arg0: string): (d: string)
    ensures '/' in arg0 ==> d <= arg0 && |d| > 0 && d[|d| - 1] == '/' && '/' !in arg0[|d|..]
    ensures '/' !in arg0 ==> d == "./"
  {
    if |arg0| == 0 then "./"
    else if arg0[|arg0| - 1] == '/' then arg0
    else
      assert arg0 == arg0[..|arg0| - 1] + [arg0[|arg0| - 1]];
      ExecDir(arg0[..|arg0| - 1])
  }

  /** The file name `set_program_mode` compares: everything after the last '/'. */
  function BaseName(arg0: string): (b: string)
    ensures '/' !in b
  {
    if |arg0| == 0 then ""
    else if arg0[|arg0| - 1] == '/' then ""
    else BaseName(arg0[..|arg0| - 1]) + [arg0[|arg0| - 1]]
  }

  /** A path splits into the directory `get_path_from_arg0` keeps and the base name. */
  lemma {:induction false} DirAndBase(arg0: string)
    requires '/' in arg0
    ensures ExecDir(arg0) + BaseName(arg0) == arg0
  {
    if arg0[|arg0| - 1] != '/' {
      var init := arg0[..|arg0| - 1];
      assert arg0 == init + [arg0[|arg0| - 1]];
      assert '/' in init by {
        var j :| 0 <= j < |arg0| && arg0[j] == '/';
        assert init[j] == '/';
      }
      DirAndBase(init);
    }
  }

  /** Without a '/', the whole argument is the base name. */
  lemma {:induction false} BaseNameWhole(arg0: string)
    requires '/' !in arg0
    ensures BaseName(arg0) == arg0
  {
    if |arg0| > 0 {
      var init := arg0[..|arg0| - 1];
      assert '/' !in init by {
        forall j | 0 <= j < |init| ensures init[j] != '/' {
          assert init[j] == arg0[j];
        }
      }
      BaseNameWhole(init);
      assert arg0 == init + [arg0[|arg0| - 1]];
    }
  }

  /** The directory of `dir/name` is `dir/` whatever `name` is, as long as it holds no '/'. */
  lemma {:induction false} ExecDirOf(dir: string, name: string)
    requires '/' !in name
    ensures ExecDir(dir + "/" + name) == dir + "/"
  {
    if |name| > 0 {
      var init := name[..|name| - 1];
      assert dir + "/" + name == (dir + "/" + init) + [name[|name| - 1]];
      assert '/' !in init by {
        forall j | 0 <= j < |init| ensures init[j] != '/' {
          assert init[j] == name[j];
        }
      }
      ExecDirOf(dir, init);
    } else {
      assert dir + "/" + name == dir + "/";
    }
  }

  /** `get_path_from_arg0`: the backward scan for the last '/'. */
  method GetPathFromArg0(arg0: Option<string>) returns (r: Option<string>)
    ensures arg0.None? ==> r.None?
    ensures arg0.Some? ==> r == Some(ExecDir(arg0.value))
  {
    if arg0.None? {
      return None;
    }
    var s := arg0.value;
    var pos := |s| - 1;
    while pos >= 0
      invariant -1 <= pos < |s|
      invariant ExecDir(s) == ExecDir(s[..pos + 1])
      invariant '/' !in s[pos + 1..]
    {
      if s[pos] == '/' {
        pos := pos + 1;
        break;
      }
      ScanStep(s, pos);
      pos := pos - 1;
    }
    if pos < 0 {
      return Some("./");
    }
    ScanFound(s, pos);
    return Some(s[..pos]);
  }

  /** One step of the backward scan past a character that is not '/'. */
  lemma {:induction false} ScanStep(s: string, pos: nat)
    requires pos < |s| && s[pos] != '/' && '/' !in s[pos + 1..]
    ensures ExecDir(s[..pos + 1]) == ExecDir(s[..pos])
    ensures '/' !in s[pos..]
  {
    assert s[..pos + 1][..pos] == s[..pos];
    assert s[pos..] == [s[pos]] + s[pos + 1..];
  }

  /** The scan stops just after a '/', which ends the directory. */
  lemma {:induction false} ScanFound(s: string, pos: nat)
    requires 0 < pos <= |s| && s[pos - 1] == '/'
    ensures ExecDir(s[..pos]) == s[..pos]
  {
  }

  /** `create_path_from_call_dir`: a path relative to the directory of the executable. */
  function CreatePathFromCallDir(arg0: Option<string>, path: Option<string>): (r: Option<string>)
    ensures r.Some? <==> arg0.Some? && path.Some?
    ensures r.Some? ==> r.value == ExecDir(arg0.value) + path.value
  {
    if arg0.None? || path.None? then None
    else Some(ExecDir(arg0.value) + path.value)
  }

  /** Called as `dir/name`, paths are relative to `dir/`; called as a bare name, to "./". */
  lemma {:induction false} CallDirPaths(dir: string, name: string, path: string)
    requires '/' !in name
    ensures CreatePathFromCallDir(Some(dir + "/" + name), Some(path)) == Some(dir + "/" + path)
    ensures CreatePathFromCallDir(Some(name), Some(path)) == Some("./" + path)
  {
    ExecDirOf(dir, name);
  }

  /** The directory `mk_plugin_path` uses when none is given. */
  function DefaultPluginsDir(arg0: string): string {
    ExecDir(arg0) + "./plugins/"
  }

  /**
   * `mk_plugin_path`: the plugins directory, a '/' unless it already ends in
   * one, the file name and ".so". The directory defaults to "./plugins/"
   * next to the executable. An empty directory would make the C code read
   * before its first character, and a NULL directory with a NULL `arg0`
   * would dereference NULL; both are excluded.
   */
  function MkPluginPath(fileName: Option<string>, pluginsDir: Option<string>, arg0: Option<string>): (r: Option<string>)
    requires fileName.Some? ==> (pluginsDir.Some? && pluginsDir.value != "") || (pluginsDir.None? && arg0.Some?)
    ensures r.Some? <==> fileName.Some?
    ensures r.Some? ==>
              var dir := if pluginsDir.Some? then pluginsDir.value else DefaultPluginsDir(arg0.value);
              exists sep :: sep in {"", "/"} && r.value == dir + sep + fileName.value + ".so" &&
                            (dir + sep)[|dir + sep| - 1] == '/' && (sep == "/" ==> dir[|dir| - 1] != '/')
  {
    if fileName.None? then None
    else
      var dir := if pluginsDir.Some? then pluginsDir.value else CreatePathFromCallDir(arg0, Some("./plugins/")).value;
      var slash := if dir[|dir| - 1] != '/' then "/" else "";
      Some(dir + slash + fileName.value + ".so")
  }

  /** A trailing '/' on the plugins directory makes no difference. */
  lemma {:induction false} TrailingSlashIgnored(name: string, dir: string, arg0: Option<string>)
    requires dir != "" && dir[|dir| - 1] != '/'
    ensures MkPluginPath(Some(name), Some(dir + "/"), arg0) == MkPluginPath(Some(name), Some(dir), arg0)
  {
    assert dir + "/" + "" + name + ".so" == dir + "/" + name + ".so";
  }

  /** The default directory is "plugins" next to the executable, spelled through "./". */
  lemma {:induction false} DefaultPluginPath(name: string, dir: string, exe: string)
    requires '/' !in exe
    ensures MkPluginPath(Some(name), None, Some(dir + "/" + exe)) == Some(dir + "/./plugins/" + name + ".so")
    ensures MkPluginPath(Some(name), None, Some(exe)) == Some("././plugins/" + name + ".so")
  {
    ExecDirOf(dir, exe);
    assert dir + "/" + "./plugins/" + "" + name + ".so" == dir + "/./plugins/" + name + ".so";
    assert "./" + "./plugins/" + "" + name + ".so" == "././plugins/" + name + ".so";
  }
}
