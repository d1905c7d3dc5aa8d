/** Redirection operators (src/drshell/operators.rs): the four operator kinds, the
    last-wins choice of one stdout and one stderr target, the `-o` argument vector that
    starts a sink process, its decoding in the sink, and what the sink writes. */
module Operators {
  import opened Util

  datatype Opt =
    | RedirectStdout(file: string)
    | RedirectStderr(file: string)
    | AppendStdout(file: string)
    | AppendStderr(file: string)

  /** The stream an operator redirects (OptFind in the source). */
  datatype Stream = Stdout | Stderr

  datatype OptParseFail = NoOpt | NofileName | WrongOpt

  function StreamOf(o: Opt): Stream
  {
    if o.RedirectStdout? || o.AppendStdout? then Stdout else Stderr
  }

  /** A `Redirect*` operator empties its file first; an `Append*` one keeps it. */
  predicate Truncates(o: Opt): (b: bool)
    ensures b <==> StartsWith(KindName(o), "redirect_")
  {
    var name := KindName(o);
    assert o.RedirectStdout? || o.RedirectStderr? ==> name[..9] == "redirect_";
    assert o.AppendStdout? || o.AppendStderr? ==> name[0] == 'a';
    o.RedirectStdout? || o.RedirectStderr?
  }

  /** `r` is the last operator of `opts` on stream `s`, and None exactly when there is none. */
  predicate IsLastOn(opts: seq<Opt>, s: Stream, r: Option<Opt>)
  {
    (r.None? <==> forall i :: 0 <= i < |opts| ==> StreamOf(opts[i]) != s)
    && (r.Some? ==>
          exists i :: 0 <= i < |opts| && opts[i] == r.value && StreamOf(opts[i]) == s
                      && forall j :: i < j < |opts| ==> StreamOf(opts[j]) != s)
  }

  /** `find_last_opt`: the last operator on one stream, in list order. */
  function FindLastOpt(opts: seq<Opt>, s: Stream): (r: Option<Opt>)
    ensures IsLastOn(opts, s, r)
  {
    if opts == [] then None
    else if StreamOf(opts[|opts| - 1]) == s then Some(opts[|opts| - 1])
    else FindLastOpt(opts[..|opts| - 1], s)
  }

  /** `find_last_opts`: first the stdout target, then the stderr target, each chosen on
      its own stream only. */
  function FindLastOpts(opts: seq<Opt>): (r: (Option<Opt>, Option<Opt>))
    ensures IsLastOn(opts, Stdout, r.0) && IsLastOn(opts, Stderr, r.1)
  {
    (FindLastOpt(opts, Stdout), FindLastOpt(opts, Stderr))
  }

  /** A later operator wins on its own stream and leaves the other stream's pick alone. */
  lemma LaterOperatorWins(opts: seq<Opt>, o: Opt)
    ensures StreamOf(o) == Stdout ==>
      FindLastOpts(opts + [o]) == (Some(o), FindLastOpts(opts).1)
    ensures StreamOf(o) == Stderr ==>
      FindLastOpts(opts + [o]) == (FindLastOpts(opts).0, Some(o))
  {
    assert (opts + [o])[..|opts|] == opts;
  }

  /** `> a >> b 2> c` resolves to stdout appending to b and stderr truncating c. */
  lemma ResolveExample()
    ensures FindLastOpts([RedirectStdout("a"), AppendStdout("b"), RedirectStderr("c")])
            == (Some(AppendStdout("b")), Some(RedirectStderr("c")))
  {
    var opts := [RedirectStdout("a"), AppendStdout("b"), RedirectStderr("c")];
    assert opts[..2] == [RedirectStdout("a"), AppendStdout("b")];
    assert opts[..2][..1] == [RedirectStdout("a")];
  }

  const SHELL_PROGRAM: string := "drshell"

  /** The operator name written after `-o`. */
  function KindName(o: Opt): string
  {
    match o
    case RedirectStdout(_) => "redirect_stdout"
    case RedirectStderr(_) => "redirect_stderr"
    case AppendStdout(_) => "append_stdout"
    case AppendStderr(_) => "append_stderr"
  }

  /** The process that realises operator `o` as a sink: `drshell -o <kind> <file>`. */
  function SinkCommand(o: Opt): Command
  {
    Command(SHELL_PROGRAM, ["-o", KindName(o), o.file])
  }

  /** `generate_opt`: the argument vector is built by pushes. */
  method GenerateOpt(opt: Opt) returns (cmd: Command)
    ensures cmd == SinkCommand(opt)
  {
    var args: seq<string> := [];
    args := args + ["-o"];
    var file: string;
    match opt {
      case RedirectStdout(f) =>
        args := args + ["redirect_stdout"];
        file := f;
      case RedirectStderr(f) =>
        args := args + ["redirect_stderr"];
        file := f;
      case AppendStdout(f) =>
        args := args + ["append_stdout"];
        file := f;
      case AppendStderr(f) =>
        args := args + ["append_stderr"];
        file := f;
    }
    args := args + [file];
    cmd := Command(SHELL_PROGRAM, args);
  }

  predicate IsKindName(name: string)
  {
    name == "redirect_stdout" || name == "redirect_stderr"
    || name == "append_stdout" || name == "append_stderr"
  }

  /** `parse_opt`: decode the arguments after `-o`. An unknown name is reported before a
      missing file name; arguments after the file name are ignored; `redirect_stderr`
      decodes as RedirectStdout. */
  function ParseOpt(opt: seq<string>): (r: Result<Opt, OptParseFail>)
    ensures r == Err(NoOpt) <==> opt == []
    ensures r == Err(WrongOpt) <==> opt != [] && !IsKindName(opt[0])
    ensures r == Err(NofileName) <==>
              opt != [] && IsKindName(opt[0]) && (|opt| < 2 || opt[1] == "")
    ensures r.Ok? ==> |opt| >= 2 && r.value.file == opt[1]
    ensures r.Ok? && opt[0] == "redirect_stderr" ==> r.value == RedirectStdout(opt[1])
    ensures r.Ok? && opt[0] != "redirect_stderr" ==> KindName(r.value) == opt[0]
  {
    if opt == [] then Err(NoOpt)
    else
      var filename := if |opt| > 1 then opt[1] else "";
      var ret :=
        if opt[0] == "redirect_stdout" then Ok(RedirectStdout(filename))
        else if opt[0] == "redirect_stderr" then Ok(RedirectStdout(filename))
        else if opt[0] == "append_stdout" then Ok(AppendStdout(filename))
        else if opt[0] == "append_stderr" then Ok(AppendStderr(filename))
        else Err(WrongOpt);
      if ret.Err? then ret
      else if filename == "" then Err(NofileName)
      else ret
  }

  /** What the sink process decodes from a sink command: the same operator, except that
      RedirectStderr comes back as RedirectStdout; the file and the truncate decision are
      kept, so the sink behaves the same. */
  lemma SinkArgsRoundTrip(o: Opt)
    requires o.file != ""
    ensures var r := ParseOpt(SinkCommand(o).args[1..]);
            r.Ok? && r.value.file == o.file && Truncates(r.value) == Truncates(o)
            && (r.value == o <==> !o.RedirectStderr?)
  {
  }

  /** The contents the sink starts from: empty for `Redirect*` or a missing file, the
      current contents for `Append*` on an existing file. */
  function InitialContents(o: Opt, existing: Option<string>): (r: string)
    ensures Truncates(o) || existing.None? ==> r == ""
    ensures !Truncates(o) && existing.Some? ==> r == existing.value
  {
    if Truncates(o) || existing.None? then "" else existing.value
  }

  /** `operator_action`: empty the file when needed, then append every stdin line in
      order until a read returns 0 bytes or fails; a failed read is reported. The file is
      given by its contents before the call (None when it does not exist). */
  method OperatorAction(opt: Opt, existing: Option<string>, input: StdinScript)
    returns (contents: string, diagnostics: seq<string>)
    ensures contents == InitialContents(opt, existing) + Concat(input.lines)
    ensures diagnostics == if input.end == ReadFailure then [READ_STDIN_ERROR] else []
  {
    var flagRedirect := Truncates(opt);
    contents := if flagRedirect || existing.None? then "" else existing.value;
    contents := AppendLines(contents, input.lines);
    diagnostics := if input.end == ReadFailure then [READ_STDIN_ERROR] else [];
  }
}
