/** Command-line dispatch (src/drshell/args.rs): `drshell -c <words>` evaluates one
    command, `drshell -o <kind> <file>` runs a redirect sink; this is how the processes
    that a pipeline spawns for builtins and sinks run. */
module Args {
  import opened Util
  import opened Operators
  import opened Commands

  datatype ArgsParseSuccess = SubCmdExeOver | NoArgs

  /** What the dispatch does with the arguments after the flag. */
  datatype SubAction =
    | NoAction
    | EvalCmd(cmd: Cmd)
    | ReportCmdFail(reason: CmdParseFail)
    | RunOperator(opt: Opt)
    | ReportOptFail(optReason: OptParseFail)

  /** The action for a command line of at least two words: `-c` parses the words after
      it as a command, `-o` as an operator, any other flag does nothing. */
  function Dispatch(args: seq<string>, onPath: string -> bool): (a: SubAction)
    requires |args| >= 2
    ensures args[1] != "-c" && args[1] != "-o" ==> a == NoAction
    ensures args[1] == "-c" ==> a.EvalCmd? || a.ReportCmdFail?
    ensures args[1] == "-o" ==> a.RunOperator? || a.ReportOptFail?
    ensures a.EvalCmd? ==> args[1] == "-c" && ParseCmd(args[2..], onPath) == Ok(a.cmd)
    ensures a.ReportCmdFail? ==> args[1] == "-c" && ParseCmd(args[2..], onPath) == Err(a.reason)
    ensures a.RunOperator? ==> args[1] == "-o" && ParseOpt(args[2..]) == Ok(a.opt)
    ensures a.ReportOptFail? ==> args[1] == "-o" && ParseOpt(args[2..]) == Err(a.optReason)
  {
    if args[1] == "-c" then
      match ParseCmd(args[2..], onPath)
      case Ok(c) => EvalCmd(c)
      case Err(reason) => ReportCmdFail(reason)
    else if args[1] == "-o" then
      match ParseOpt(args[2..])
      case Ok(o) => RunOperator(o)
      case Err(reason) => ReportOptFail(reason)
    else NoAction
  }

  /** The words after the flag, collected by the enumerate loop that skips the first two. */
  method Rest(args: seq<string>) returns (rest: seq<string>)
    requires |args| >= 2
    ensures rest == args[2..]
  {
    rest := [];
    var i := 0;
    while i < |args|
      invariant 0 <= i <= |args|
      invariant rest == if i <= 2 then [] else args[2..i]
    {
      if i > 1 {
        assert args[2..i + 1] == (if i <= 2 then [] else args[2..i]) + [args[i]];
        rest := rest + [args[i]];
      }
      i := i + 1;
    }
    assert args[2..i] == args[2..];
  }

  /** `parse_args`: with one word or none nothing runs and the shell starts; otherwise
      the flag is dispatched and the shell stops afterwards, whatever the outcome. */
  method ParseArgs(args: seq<string>, onPath: string -> bool)
    returns (r: ArgsParseSuccess, action: SubAction)
    ensures r == NoArgs <==> |args| <= 1
    ensures r == NoArgs ==> action == NoAction
    ensures r == SubCmdExeOver ==> action == Dispatch(args, onPath)
  {
    if |args| <= 1 {
      return NoArgs, NoAction;
    }
    action := NoAction;
    if args[1] == "-c" {
      var cmd := Rest(args);
      match ParseCmd(cmd, onPath) {
        case Ok(c) => action := EvalCmd(c);
        case Err(reason) => action := ReportCmdFail(reason);
      }
    } else if args[1] == "-o" {
      var opt := Rest(args);
      match ParseOpt(opt) {
        case Ok(o) => action := RunOperator(o);
        case Err(reason) => action := ReportOptFail(reason);
      }
    }
    r := SubCmdExeOver;
  }

  /** The process a pipeline spawns for a builtin stage, started with its own program
      name as the first word, evaluates that same builtin. */
  lemma BuiltinStageRunsItself(c: Cmd, onPath: string -> bool)
    requires Producible(c, onPath) && !c.NotBuiltin?
    ensures var command := CommandFor(c);
            Dispatch([command.program] + command.args, onPath) == EvalCmd(c)
  {
    GenerateCmdParsesBack(c, onPath);
    var command := CommandFor(c);
    var args := [command.program] + command.args;
    assert args[1] == "-c";
    assert args[2..] == command.args[1..];
  }

  /** The sink process started for a redirect operator runs an operator with the same
      file and the same truncate-or-append decision. */
  lemma SinkRunsOperator(o: Opt, onPath: string -> bool)
    requires o.file != ""
    ensures var command := SinkCommand(o);
            var a := Dispatch([command.program] + command.args, onPath);
            a.RunOperator? && a.opt.file == o.file && Truncates(a.opt) == Truncates(o)
  {
    SinkArgsRoundTrip(o);
    var command := SinkCommand(o);
    var args := [command.program] + command.args;
    assert args[1] == "-o";
    assert args[2..] == command.args[1..];
  }
}
