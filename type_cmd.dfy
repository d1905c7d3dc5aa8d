/** The `type` builtin (src/drshell/commands/type.rs): whether a name is a builtin, an
    executable on PATH (with its path) or unknown. The PATH search is given as `lookup`,
    the path of the executable a name resolves to, if any. */
module TypeCmd {
  import opened Util
  import opened Commands

  /** A line written to standard output or to standard error. */
  datatype Report = ToStdout(text: string) | ToStderr(text: string)

  /** `type`: builtins first, then the empty name, then the PATH search. */
  function TypeReport(name: string, lookup: string -> Option<string>): (r: Report)
    ensures name in BUILTIN_CMDS ==> r == ToStdout(name + " is a shell builtin")
    ensures name !in BUILTIN_CMDS && name == "" ==> r == ToStderr(": not found")
    ensures name !in BUILTIN_CMDS && name != "" && lookup(name).Some? ==>
              r == ToStdout(name + " is " + lookup(name).value)
    ensures name !in BUILTIN_CMDS && name != "" && lookup(name).None? ==>
              r == ToStderr(name + ": not found")
    ensures r.ToStdout? <==> name in BUILTIN_CMDS || (name != "" && lookup(name).Some?)
    ensures r.ToStderr? ==> r.text == name + ": not found"
    ensures StartsWith(r.text, name)
  {
    if name in BUILTIN_CMDS then ToStdout(name + " is a shell builtin")
    else if name == "" then ToStderr(": not found")
    else match lookup(name)
      case Some(path) => ToStdout(name + " is " + path)
      case None => ToStderr(name + ": not found")
  }

  /** A builtin and the empty name are answered without searching PATH. */
  lemma NoLookupForBuiltinOrEmpty(name: string, l1: string -> Option<string>, l2: string -> Option<string>)
    requires name in BUILTIN_CMDS || name == ""
    ensures TypeReport(name, l1) == TypeReport(name, l2)
  {
  }

  /** `type` and the command parser agree: with the same PATH, a non-builtin name is
      reported found exactly when the parser accepts it as an external command. */
  lemma TypeAgreesWithParse(name: string, lookup: string -> Option<string>)
    requires name != "" && name !in BUILTIN_CMDS
    ensures var onPath := (n: string) => lookup(n).Some?;
            TypeReport(name, lookup).ToStdout? <==> ParseCmd([name], onPath) == Ok(NotBuiltin([name]))
  {
    var onPath := (n: string) => lookup(n).Some?;
    var r := ParseCmd([name], onPath);
    assert [name][0] == name;
    if lookup(name).None? {
      assert r.Err? && r.error.NotCommand?;
    }
  }
}
