/** The command compiler (src/drshell/commands.rs): the builtin grammar that turns the
    words of one pipeline stage into a Cmd, the re-encoding of a Cmd as the process that
    runs it (the program itself, or `drshell -c ...` for a builtin), and the dispatch of
    history requests. */
module Commands {
  import opened Util
  import opened Numbers
  import opened Operators
  import opened HistoryLog

  const BUILTIN_CMDS: seq<string> := ["echo", "exit", "type", "pwd", "cd", "lsbuiltin", "history"]

  /** The argument that asks a builtin for its help text. */
  const HELP_ARG: string := "-h"

  datatype HistoryArgs = Show(limit: Option<nat>) | ReadFromFile(path: string) | WriteToFile(path: string)

  datatype Cmd =
    | Echo(words: seq<string>)
    | Exit(code: int)
    | Type(name: string)
    | Pwd
    | Cd(dir: string)
    | BuiltinLs
    | BuiltinHelp(builtin: string)
    | History(hargs: HistoryArgs)
    | NotBuiltin(argv: seq<string>)

  datatype CmdParseFail =
    | NoCommand
    | NotCommand(name: string)
    | ExitArgsError
    | TypeArgsError
    | CdArgsError
    | HistoryArgsError
    | Never

  /** The Cmds `parse_cmd` can produce. A builtin whose first argument is `-h` is read as
      a help request instead, so such commands are excluded; an exit code is an i32, a
      history limit a usize; an external command is a non-builtin name found on PATH. */
  predicate Producible(c: Cmd, onPath: string -> bool)
  {
    match c
    case Echo(words) => words == [] || words[0] != HELP_ARG
    case Exit(code) => I32_MIN <= code <= I32_MAX
    case Type(name) => name != HELP_ARG
    case Pwd => true
    case Cd(dir) => dir != HELP_ARG
    case BuiltinLs => true
    case BuiltinHelp(builtin) => builtin in BUILTIN_CMDS
    case History(hargs) => hargs.Show? && hargs.limit.Some? ==> hargs.limit.value <= USIZE_MAX
    case NotBuiltin(argv) => argv != [] && argv[0] !in BUILTIN_CMDS && onPath(argv[0])
  }

  /** The words of the history arguments. */
  function HistoryWords(h: HistoryArgs): seq<string>
  {
    match h
    case Show(limit) => if limit.Some? then [FormatNat(limit.value)] else []
    case ReadFromFile(path) => ["-r", path]
    case WriteToFile(path) => ["-w", path]
  }

  /** The stage words a Cmd stands for: its name and arguments, in the form `parse_cmd`
      reads them. */
  function CmdTokens(c: Cmd): seq<string>
  {
    match c
    case Echo(words) => ["echo"] + words
    case Exit(code) => ["exit", FormatInt(code)]
    case Type(name) => ["type", name]
    case Pwd => ["pwd"]
    case Cd(dir) => ["cd", dir]
    case BuiltinLs => ["lsbuiltin"]
    case BuiltinHelp(builtin) => [builtin, HELP_ARG]
    case History(hargs) => ["history"] + HistoryWords(hargs)
    case NotBuiltin(argv) => argv
  }

  /** `parse_cmd`: the builtin grammar. PATH lookup is given as `onPath`. */
  function ParseCmd(cmd: seq<string>, onPath: string -> bool): (r: Result<Cmd, CmdParseFail>)
    ensures r == Err(NoCommand) <==> cmd == []
    ensures r != Err(Never)
    ensures r.Ok? ==> Producible(r.value, onPath)
    ensures r.Ok? && r.value.NotBuiltin? <==> cmd != [] && cmd[0] !in BUILTIN_CMDS && onPath(cmd[0])
    ensures r.Ok? && r.value.NotBuiltin? ==> r.value.argv == cmd
    ensures r.Err? && r.error.NotCommand? <==>
              cmd != [] && cmd[0] !in BUILTIN_CMDS && !onPath(cmd[0])
    ensures r.Err? && r.error.NotCommand? ==> r.error.name == cmd[0]
    ensures |cmd| >= 2 && cmd[0] in BUILTIN_CMDS && cmd[1] == HELP_ARG ==>
              r == Ok(BuiltinHelp(cmd[0]))
    ensures cmd == ["exit"] ==> r == Ok(Exit(0))
    ensures |cmd| >= 2 && cmd[0] == "exit" && cmd[1] != HELP_ARG ==>
              (r == Err(ExitArgsError) <==> ParseI32(cmd[1]).None?)
              && (r.Ok? ==> r.value == Exit(ParseI32(cmd[1]).value))
    ensures cmd == ["type"] ==> r == Err(TypeArgsError)
    ensures cmd == ["cd"] ==> r == Err(CdArgsError)
    ensures cmd == ["history"] ==> r == Ok(History(Show(None)))
    ensures |cmd| >= 2 && cmd[0] == "history" && cmd[1] != HELP_ARG ==>
              (r == Err(HistoryArgsError) <==>
                 if cmd[1] == "-r" || cmd[1] == "-w" then |cmd| < 3 else ParseUsize(cmd[1]).None?)
    ensures |cmd| >= 3 && cmd[0] == "history" && cmd[1] == "-r" ==>
              r == Ok(History(ReadFromFile(cmd[2])))
    ensures |cmd| >= 3 && cmd[0] == "history" && cmd[1] == "-w" ==>
              r == Ok(History(WriteToFile(cmd[2])))
    ensures |cmd| >= 2 && cmd[0] == "history" && cmd[1] != HELP_ARG && cmd[1] != "-r"
              && cmd[1] != "-w" && ParseUsize(cmd[1]).Some? ==>
              r == Ok(History(Show(ParseUsize(cmd[1]))))
  {
    if cmd == [] then Err(NoCommand)
    else if |cmd| >= 2 && cmd[0] in BUILTIN_CMDS && cmd[1] == HELP_ARG then
      Ok(BuiltinHelp(cmd[0]))
    else
      var name := cmd[0];
      if name == "echo" then Ok(Echo(cmd[1..]))
      else if name == "exit" then
        if |cmd| == 1 then Ok(Exit(0))
        else
          var num := ParseI32(cmd[1]);
          if num.Some? then Ok(Exit(num.value)) else Err(ExitArgsError)
      else if name == "type" then
        if |cmd| == 1 then Err(TypeArgsError) else Ok(Type(cmd[1]))
      else if name == "pwd" then Ok(Pwd)
      else if name == "cd" then
        if |cmd| == 1 then Err(CdArgsError) else Ok(Cd(cmd[1]))
      else if name == "lsbuiltin" then Ok(BuiltinLs)
      else if name == "history" then
        if |cmd| > 1 then
          if cmd[1] == "-r" || cmd[1] == "-w" then
            if |cmd| < 3 then Err(HistoryArgsError)
            else if cmd[1] == "-r" then Ok(History(ReadFromFile(cmd[2])))
            else Ok(History(WriteToFile(cmd[2])))
          else
            var num := ParseUsize(cmd[1]);
            if num.Some? then Ok(History(Show(Some(num.value)))) else Err(HistoryArgsError)
        else Ok(History(Show(None)))
      else if onPath(name) then Ok(NotBuiltin(cmd))
      else Err(NotCommand(name))
  }

  /** Every Cmd `parse_cmd` can produce is read back from its own words. */
  lemma ParseCmdTokens(c: Cmd, onPath: string -> bool)
    requires Producible(c, onPath)
    ensures ParseCmd(CmdTokens(c), onPath) == Ok(c)
  {
    match c
    case Exit(code) =>
      ParseFormatI32(code);
    case History(hargs) =>
      if hargs.Show? && hargs.limit.Some? {
        var n := hargs.limit.value;
        ParseFormatUsize(n);
        var s := FormatNat(n);
        assert s[0] != '-' by { assert IsDigit(s[0]); }
      }
    case Echo(words) =>
      assert CmdTokens(c)[1..] == words;
    case _ =>
  }

  /** Parsing is stable under re-encoding: the words of a parsed Cmd parse to that Cmd,
      whatever else was on the original stage (ignored extra arguments are dropped). */
  lemma ReparseTokens(cmd: seq<string>, onPath: string -> bool)
    requires ParseCmd(cmd, onPath).Ok?
    ensures ParseCmd(CmdTokens(ParseCmd(cmd, onPath).value), onPath) == ParseCmd(cmd, onPath)
  {
    ParseCmdTokens(ParseCmd(cmd, onPath).value, onPath);
  }

  /** `pwd` and `lsbuiltin` ignore whatever follows them, unless it is the help flag. */
  lemma ExtraArgumentsIgnored(rest: seq<string>, onPath: string -> bool)
    requires rest == [] || rest[0] != HELP_ARG
    ensures ParseCmd(["pwd"] + rest, onPath) == Ok(Pwd)
    ensures ParseCmd(["lsbuiltin"] + rest, onPath) == Ok(BuiltinLs)
  {
    assert (["pwd"] + rest)[0] == "pwd";
    assert (["lsbuiltin"] + rest)[0] == "lsbuiltin";
  }

  /** `exit`, `type` and `cd` read only their first argument: anything after it, the help
      flag included, is ignored. */
  lemma ArgumentExtraIgnored(rest: seq<string>, arg: string, onPath: string -> bool)
    requires arg != HELP_ARG
    ensures ParseCmd(["exit", arg] + rest, onPath) == ParseCmd(["exit", arg], onPath)
    ensures ParseCmd(["type", arg] + rest, onPath) == Ok(Type(arg))
    ensures ParseCmd(["cd", arg] + rest, onPath) == Ok(Cd(arg))
  {
    assert (["exit", arg] + rest)[..2] == ["exit", arg];
    assert (["type", arg] + rest)[..2] == ["type", arg];
    assert (["cd", arg] + rest)[..2] == ["cd", arg];
  }

  /** `history -a <file>` is not part of the grammar: `-a` is neither a file flag nor a
      number, so the request never reaches `append_to_file`. */
  lemma HistoryAppendRejected(file: string, onPath: string -> bool)
    ensures ParseCmd(["history", "-a", file], onPath) == Err(HistoryArgsError)
  {
    var s := "-a";
    assert s[0] == '-' && |s| == 2;
    assert !AllDigits(s[1..]) by { assert !IsDigit(s[1]); }
  }

  /** The process that runs a Cmd: an external command runs itself, a builtin runs as
      `drshell -c <its words>`. */
  function CommandFor(c: Cmd): Command
    requires c.NotBuiltin? ==> c.argv != []
  {
    if c.NotBuiltin? then Command(c.argv[0], c.argv[1..])
    else Command(SHELL_PROGRAM, ["-c"] + CmdTokens(c))
  }

  /** `generate_cmd`: the argument vector is built by pushes. */
  method GenerateCmd(c: Cmd) returns (command: Command)
    requires c.NotBuiltin? ==> c.argv != []
    ensures command == CommandFor(c)
  {
    var program: string;
    var args: seq<string> := [];
    if c.NotBuiltin? {
      program := c.argv[0];
      args := PushEach(args, c.argv[1..]);
    } else {
      program := SHELL_PROGRAM;
      args := args + ["-c"];
      args := PushBuiltin(args, c);
    }
    command := Command(program, args);
  }

  /** The pushes of `generate_cmd` for a builtin: its name, then its arguments. */
  method PushBuiltin(args: seq<string>, c: Cmd) returns (r: seq<string>)
    requires !c.NotBuiltin?
    ensures r == args + CmdTokens(c)
  {
    r := args;
    match c {
      case Echo(words) =>
        r := r + ["echo"];
        r := PushEach(r, words);
      case Exit(code) =>
        r := r + ["exit"];
        r := r + [FormatInt(code)];
      case Type(name) =>
        r := r + ["type"];
        r := r + [name];
      case Pwd =>
        r := r + ["pwd"];
      case Cd(dir) =>
        r := r + ["cd"];
        r := r + [dir];
      case BuiltinLs =>
        r := r + ["lsbuiltin"];
      case BuiltinHelp(builtin) =>
        r := r + [builtin];
        r := r + [HELP_ARG];
      case History(hargs) =>
        r := r + ["history"];
        match hargs {
          case Show(limit) =>
            if limit.Some? {
              r := r + [FormatNat(limit.value)];
            }
          case ReadFromFile(path) =>
            r := r + ["-r"];
            r := r + [path];
          case WriteToFile(path) =>
            r := r + ["-w"];
            r := r + [path];
        }
    }
  }

  /** The push loop of `generate_cmd`: every word is pushed in order. */
  method PushEach(args: seq<string>, words: seq<string>) returns (r: seq<string>)
    ensures r == args + words
  {
    r := args;
    var i := 0;
    while i < |words|
      invariant 0 <= i <= |words|
      invariant r == args + words[..i]
    {
      assert words[..i + 1] == words[..i] + [words[i]];
      r := r + [words[i]];
      i := i + 1;
    }
    assert words[..i] == words;
  }

  /** The re-encoding of a builtin is `drshell -c` followed by words that parse back to
      the same builtin; an external command keeps its argument vector. */
  lemma GenerateCmdParsesBack(c: Cmd, onPath: string -> bool)
    requires Producible(c, onPath)
    ensures !c.NotBuiltin? ==>
              CommandFor(c).program == SHELL_PROGRAM && CommandFor(c).args[0] == "-c"
              && ParseCmd(CommandFor(c).args[1..], onPath) == Ok(c)
    ensures c.NotBuiltin? ==> [CommandFor(c).program] + CommandFor(c).args == c.argv
  {
    ParseCmdTokens(c, onPath);
    if !c.NotBuiltin? {
      assert CommandFor(c).args[1..] == CmdTokens(c);
    }
  }

  /** The diagnostic `parse_cmd_fail_process` writes to stderr. */
  function CmdParseFailMessage(reason: CmdParseFail): (m: Option<string>)
    ensures m.None? <==> reason == NoCommand || reason == Never
    ensures reason.NotCommand? ==> m == Some(reason.name + ": command not found")
  {
    match reason
    case NoCommand => None
    case ExitArgsError => Some("no number of exiting!!!")
    case TypeArgsError => Some("no name of a command!!!")
    case CdArgsError => Some("no name of a directory!!!")
    case NotCommand(name) => Some(name + ": command not found")
    case HistoryArgsError => Some("wrong args for history!!!")
    case Never => None
  }

  /** The requests `api` serves. */
  datatype Api =
    | SaveHistory(line: string)
    | DisplayPreviousCmd
    | DisplayNextCmd
    | InputHistory
    | ReadHistoryFromFile(file: string)
    | WriteHistoryToFile(file: string)

  /** `api`: forward a request to the history. Only InputHistory answers; a display
      request prints, a file request reads `fileContents` (None when the file does not
      exist) or returns the text to be written as `written`. */
  method ServeApi(store: HistoryStore, request: Api, fileContents: Option<string>)
    returns (r: Option<string>, written: Option<string>)
    requires store.Valid()
    modifies store
    ensures store.Valid()
    ensures r.Some? ==> request.InputHistory?
    ensures request.InputHistory? ==>
              r == Recalled(old(store.log), old(store.status)) && unchanged(store)
    ensures written.Some? <==> request.WriteHistoryToFile?
    ensures written.Some? ==> written.value == Serialise(store.log) && unchanged(store)
    ensures request.SaveHistory? ==>
              store.log == old(store.log) + [request.line]
              && store.status == Status(|store.log| - 1, false, Up)
    ensures request.DisplayPreviousCmd? && old(store.log) != [] ==>
              store.log == old(store.log)
              && store.status == AfterPrevious(|store.log|, old(store.status))
    ensures request.DisplayNextCmd? && old(store.log) != [] ==>
              store.log == old(store.log)
              && store.status == AfterNext(|store.log|, old(store.status))
    ensures (request.DisplayPreviousCmd? || request.DisplayNextCmd?) && old(store.log) == [] ==>
              store.log == old(store.log) && store.status == old(store.status)
    ensures request.ReadHistoryFromFile? ==>
              store.status == old(store.status)
              && store.log == old(store.log)
                              + (if fileContents.Some? then Lines(fileContents.value) else [])
  {
    r := None;
    written := None;
    match request {
      case SaveHistory(line) =>
        store.SaveHistory(line);
      case DisplayPreviousCmd =>
        var _ := store.DisplayPreviousCmd();
      case DisplayNextCmd =>
        var _ := store.DisplayNextCmd();
      case InputHistory =>
        r := store.InputHistory();
      case ReadHistoryFromFile(_) =>
        store.ReadFromFile(fileContents);
      case WriteHistoryToFile(_) =>
        var buffer := store.WriteBuffer();
        written := Some(buffer);
    }
  }
}
