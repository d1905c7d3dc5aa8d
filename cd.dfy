/** The `cd` builtin (src/drshell/commands/cd.rs): expanding `-`, `~` and `~/…` into a
    target directory, and the previous directory it remembers for `cd -`. HOME, the
    current directory and the outcome of changing directory are given as inputs. */
module ChangeDir {
  import opened Util

  /** `env::current_dir` followed by the conversion of the path to a String. */
  datatype CurrentDir = Cwd(path: string) | CwdNotUnicode | CwdError(message: string)

  const NO_EMPTY_DIR: string := "cd: : No such file or directory"
  const NO_LAST_DIR: string := "no previous worked directory"
  const HOME_ERROR: string := "can't get the directory of home: "

  /** The directory that `cd dir` changes to, or the diagnostic that stops it. `home` is
      HOME or the message of the error reading it. */
  function Target(dir: string, lastDir: string, home: Result<string, string>): (r: Result<string, string>)
    ensures dir == "" ==> r == Err(NO_EMPTY_DIR)
    ensures dir == "-" ==> (r.Err? <==> lastDir == "") && (r.Ok? ==> r.value == lastDir)
    ensures dir == "-" && r.Err? ==> r.error == NO_LAST_DIR
    ensures dir == "~" || StartsWith(dir, "~/") ==>
              && (r.Err? <==> home.Err?)
              && (r.Ok? ==> r.value == home.value + dir[1..])
              && (r.Err? ==> r.error == HOME_ERROR + home.error)
    ensures dir != "" && dir != "-" && dir != "~" && !StartsWith(dir, "~/") ==> r == Ok(dir)
  {
    if dir == "" then Err(NO_EMPTY_DIR)
    else if dir == "-" then
      if lastDir == "" then Err(NO_LAST_DIR) else Ok(lastDir)
    else if dir == "~" then
      match home
      case Ok(h) => Ok(h)
      case Err(e) => Err(HOME_ERROR + e)
    else if |dir| >= 2 && dir[0] == '~' && dir[1] == '/' then
      match home
      case Ok(h) => Ok(h + dir[1..])
      case Err(e) => Err(HOME_ERROR + e)
    else Ok(dir)
  }

  /** The diagnostic for a current directory that cannot be read. */
  function CwdMessage(cwd: CurrentDir): string
    requires !cwd.Cwd?
  {
    match cwd
    case CwdNotUnicode => "can't resolve the current working directory"
    case CwdError(m) => "can't resolve the current working directory: " + m
  }

  /** The diagnostic for a target that cannot be entered. */
  function NoSuchDir(target: string): string
  {
    "cd: " + target + ": No such file or directory"
  }

  /** A target is never empty when HOME is not: an empty target is refused before the
      directory is changed. */
  lemma TargetNonEmpty(dir: string, lastDir: string, home: Result<string, string>)
    requires home.Ok? ==> home.value != ""
    ensures Target(dir, lastDir, home).Ok? ==> Target(dir, lastDir, home).value != ""
  {
  }

  /** `~x` is not a home directory form and is used as it is. */
  lemma TildeWithoutSlashKept(rest: string, lastDir: string, home: Result<string, string>)
    requires rest != "" && rest[0] != '/'
    ensures Target("~" + rest, lastDir, home) == Ok("~" + rest)
  {
    assert ("~" + rest)[1] == rest[0];
  }

  /** `~` and `~/…` put HOME in place of the tilde. */
  lemma HomeReplacesTilde(rest: string, lastDir: string, h: string)
    requires rest == "" || rest[0] == '/'
    ensures Target("~" + rest, lastDir, Ok(h)) == Ok(h + rest)
  {
    var dir := "~" + rest;
    assert dir[1..] == rest;
    if rest != "" {
      assert dir[1] == '/';
      assert StartsWith(dir, "~/") by { assert dir[..2] == "~/"; }
    }
  }

  /** The state `cd` keeps between calls: the directory before the last successful
      change (LAST_DIR, empty until then). */
  class CdState {
    var lastDir: string

    constructor()
      ensures lastDir == ""
    {
      lastDir := "";
    }

    /** `cd`: resolve the target, read the current directory, change directory; only a
        successful change records the directory that was left. `chdirOk` says whether
        changing to a directory succeeds. Returns the diagnostic printed, if any, and
        the directory entered, if any. */
    method Cd(dir: string, home: Result<string, string>, cwd: CurrentDir, chdirOk: string -> bool)
      returns (diagnostic: Option<string>, entered: Option<string>)
      modifies this
      ensures var t := Target(dir, old(lastDir), home);
              && (t.Err? ==> diagnostic == Some(t.error) && entered == None && lastDir == old(lastDir))
              && (t.Ok? && !cwd.Cwd? ==>
                    diagnostic == Some(CwdMessage(cwd)) && entered == None && lastDir == old(lastDir))
              && (t.Ok? && cwd.Cwd? && chdirOk(t.value) ==>
                    diagnostic == None && entered == Some(t.value) && lastDir == cwd.path)
              && (t.Ok? && cwd.Cwd? && !chdirOk(t.value) ==>
                    diagnostic == Some(NoSuchDir(t.value)) && entered == None && lastDir == old(lastDir))
      ensures entered.Some? && cwd.Cwd? && cwd.path != "" ==> Target("-", lastDir, home) == Ok(cwd.path)
    {
      var target := dir;
      if dir == "" {
        return Some(NO_EMPTY_DIR), None;
      } else if dir == "-" {
        target := lastDir;
        if target == "" {
          return Some(NO_LAST_DIR), None;
        }
      } else if dir == "~" {
        match home {
          case Ok(h) => target := h;
          case Err(e) => return Some(HOME_ERROR + e), None;
        }
      } else if |dir| >= 2 && dir[0] == '~' && dir[1] == '/' {
        match home {
          case Ok(h) => target := h + dir[1..];
          case Err(e) => return Some(HOME_ERROR + e), None;
        }
      }
      var left: string;
      match cwd {
        case Cwd(p) => left := p;
        case CwdNotUnicode => return Some(CwdMessage(cwd)), None;
        case CwdError(_) => return Some(CwdMessage(cwd)), None;
      }
      if !chdirOk(target) {
        return Some(NoSuchDir(target)), None;
      }
      lastDir := left;
      return None, Some(target);
    }
  }
}
