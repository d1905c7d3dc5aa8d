/** The steps of the read-eval loop in src/main.rs between reading a line and running it:
    history recall and saving, parsing every stage, and the choice between evaluating a
    lone command directly and assembling a pipeline with its redirect sinks. */
module Shell {
  import opened Util
  import opened Operators
  import opened Input
  import opened HistoryLog
  import opened Commands
  import opened Pipelines

  /** The line that is run: the recalled history entry when one is being browsed, the
      typed line otherwise. */
  function SubmittedLine(log: seq<string>, s: Status, typed: string): (line: string)
    requires StatusFits(|log|, s)
    ensures s.browsing ==> line == log[s.pos]
    ensures !s.browsing ==> line == typed
  {
    match Recalled(log, s)
    case Some(entry) => entry
    case None => typed
  }

  /** `handle_history_with_line`: a recalled entry replaces the typed line, and the line
      that will run is saved unless it is empty (a blank but non-empty line is saved). */
  method HandleHistoryWithLine(store: HistoryStore, typed: string) returns (line: string)
    requires store.Valid()
    modifies store
    ensures store.Valid()
    ensures line == SubmittedLine(old(store.log), old(store.status), typed)
    ensures line != "" ==>
              store.log == old(store.log) + [line] && store.status == Status(|store.log| - 1, false, Up)
    ensures line == "" ==> store.log == old(store.log) && store.status == old(store.status)
  {
    line := typed;
    var input, _ := ServeApi(store, InputHistory, None);
    if input.Some? {
      line := input.value;
    }
    if line != "" {
      var _, _ := ServeApi(store, SaveHistory(line), None);
    }
  }

  /** Parse every stage in order; the first stage that fails decides the error. */
  function ParseAll(stages: seq<seq<string>>, onPath: string -> bool): (r: Result<seq<Cmd>, CmdParseFail>)
    ensures r.Ok? ==>
              |r.value| == |stages|
              && forall k :: 0 <= k < |stages| ==> ParseCmd(stages[k], onPath) == Ok(r.value[k])
    ensures r.Err? ==>
              exists k :: 0 <= k < |stages| && ParseCmd(stages[k], onPath) == Err(r.error)
                          && forall j :: 0 <= j < k ==> ParseCmd(stages[j], onPath).Ok?
  {
    if stages == [] then Ok([])
    else
      var n := |stages| - 1;
      var init := stages[..n];
      assert forall k :: 0 <= k < n ==> init[k] == stages[k];
      match ParseAll(init, onPath)
      case Err(e) => Err(e)
      case Ok(cs) =>
        match ParseCmd(stages[n], onPath)
        case Err(e) => Err(e)
        case Ok(c) => Ok(cs + [c])
  }

  /** Parsing one more stage: an earlier failure stays, otherwise the new stage's
      failure or its Cmd is added. */
  lemma ParseAllStep(stages: seq<seq<string>>, i: nat, onPath: string -> bool)
    requires i < |stages|
    ensures var before := ParseAll(stages[..i], onPath);
            var p := ParseCmd(stages[i], onPath);
            ParseAll(stages[..i + 1], onPath) ==
              if before.Err? then before
              else if p.Err? then Err(p.error)
              else Ok(before.value + [p.value])
  {
    assert stages[..i + 1][..i] == stages[..i];
  }

  /** Every stage parses exactly when no stage fails. */
  lemma ParseAllOkIff(stages: seq<seq<string>>, onPath: string -> bool)
    ensures ParseAll(stages, onPath).Ok? <==>
              forall k :: 0 <= k < |stages| ==> ParseCmd(stages[k], onPath).Ok?
  {
    var r := ParseAll(stages, onPath);
    if r.Err? {
      var k :| 0 <= k < |stages| && ParseCmd(stages[k], onPath) == Err(r.error);
      assert !ParseCmd(stages[k], onPath).Ok?;
    }
  }

  /** Stages coming out of the line splitter are never empty, so a parse failure is
      never NoCommand. */
  lemma SplitStagesNeverNoCommand(stages: seq<seq<string>>, onPath: string -> bool)
    requires forall k :: 0 <= k < |stages| ==> stages[k] != []
    ensures ParseAll(stages, onPath) != Err(NoCommand)
  {
  }

  /** `parse_cmds_and_opts`: parse the stages in order, stopping at the first failure,
      which is the one reported; the operators pass through unchanged. */
  method ParseCmdsAndOpts(cmdsAndOperators: CmdsAndOperators, onPath: string -> bool)
    returns (r: Option<(seq<Cmd>, seq<Opt>)>, reported: Option<CmdParseFail>)
    ensures var p := ParseAll(cmdsAndOperators.cmds, onPath);
            && (r.Some? <==> p.Ok?)
            && (p.Ok? ==> r == Some((p.value, cmdsAndOperators.operators)) && reported == None)
            && (p.Err? ==> reported == Some(p.error))
  {
    var stages := cmdsAndOperators.cmds;
    var cmds: seq<Cmd> := [];
    var i := 0;
    while i < |stages|
      invariant 0 <= i <= |stages|
      invariant ParseAll(stages[..i], onPath) == Ok(cmds)
    {
      ParseAllStep(stages, i, onPath);
      match ParseCmd(stages[i], onPath) {
        case Ok(c) =>
          cmds := cmds + [c];
        case Err(reason) =>
          assert ParseAll(stages[..i + 1], onPath) == Err(reason);
          ParsePrefixFails(stages, onPath, i + 1);
          return None, Some(reason);
      }
      i := i + 1;
    }
    assert stages[..i] == stages;
    return Some((cmds, cmdsAndOperators.operators)), None;
  }

  /** A failure on a prefix of the stages is the failure of the whole list. */
  lemma {:induction false} ParsePrefixFails(stages: seq<seq<string>>, onPath: string -> bool, i: nat)
    requires i <= |stages| && ParseAll(stages[..i], onPath).Err?
    ensures ParseAll(stages, onPath) == ParseAll(stages[..i], onPath)
    decreases |stages| - i
  {
    if i < |stages| {
      var next := stages[..i + 1];
      assert next[..i] == stages[..i];
      assert ParseAll(next, onPath) == ParseAll(stages[..i], onPath);
      ParsePrefixFails(stages, onPath, i + 1);
    } else {
      assert stages[..i] == stages;
    }
  }

  /** What running a parsed line did: a lone command evaluated in the shell itself, or a
      pipeline with the children spawned, those waited on, and on a spawn failure how
      many were killed and whether a kill failed. */
  datatype Outcome =
    | RanDirectly(cmd: Cmd)
    | RanPipeline(children: seq<Process>, waited: seq<Process>, killed: nat, killFailed: bool)

  /** Every Cmd can be turned into a process. */
  predicate Generatable(cmds: seq<Cmd>)
  {
    forall k :: 0 <= k < |cmds| ==> (cmds[k].NotBuiltin? ==> cmds[k].argv != [])
  }

  /** The commands of the pipeline stages, one per Cmd, in order. */
  function StageCommands(cmds: seq<Cmd>): (r: seq<Command>)
    requires Generatable(cmds)
    ensures |r| == |cmds| && forall k :: 0 <= k < |cmds| ==> r[k] == CommandFor(cmds[k])
  {
    seq(|cmds|, k requires 0 <= k < |cmds| && Generatable(cmds) => CommandFor(cmds[k]))
  }

  /** The sink process of an optional operator. */
  function SinkFor(o: Option<Opt>): (r: Option<Command>)
    ensures r.Some? <==> o.Some?
    ensures o.Some? ==> r.value == SinkCommand(o.value)
  {
    if o.Some? then Some(SinkCommand(o.value)) else None
  }

  /** The processes `execute_cmds_and_opts` asks `pipe` for: the stages, then a sink for
      the last stdout operator and one for the last stderr operator. */
  function LinePlan(cmds: seq<Cmd>, opts: seq<Opt>): seq<Process>
    requires Generatable(cmds)
  {
    var (out, err) := FindLastOpts(opts);
    Plan(StageCommands(cmds), SinkFor(out), SinkFor(err))
  }

  /** A pipeline has one process per stage plus one sink per stream that some operator
      redirects, however many operators there are. */
  lemma LinePlanSize(cmds: seq<Cmd>, opts: seq<Opt>)
    requires Generatable(cmds) && cmds != []
    ensures |LinePlan(cmds, opts)| ==
              |cmds| + (if exists i :: 0 <= i < |opts| && StreamOf(opts[i]) == Stdout then 1 else 0)
                     + (if exists i :: 0 <= i < |opts| && StreamOf(opts[i]) == Stderr then 1 else 0)
  {
  }

  /** The operator written last on a stream is the one whose sink reads that stream of
      the last stage: the stdout sink right after the stages, the stderr sink at the end. */
  lemma LastOperatorGetsSink(cmds: seq<Cmd>, opts: seq<Opt>, o: Opt)
    requires Generatable(cmds) && cmds != []
    ensures var p := LinePlan(cmds, opts + [o]);
            var n := |cmds|;
            && (StreamOf(o) == Stdout ==>
                  |p| > n && p[n] == Process(SinkCommand(o), FromStdoutOf(n - 1), Inherit, Inherit))
            && (StreamOf(o) == Stderr ==>
                  |p| > n && p[|p| - 1] == Process(SinkCommand(o), FromStderrOf(n - 1), Inherit, Inherit))
  {
    LaterOperatorWins(opts, o);
    var (out, err) := FindLastOpts(opts + [o]);
    PlanShape(StageCommands(cmds), SinkFor(out), SinkFor(err), LinePlan(cmds, opts + [o]));
  }

  /** The builder `execute_cmds_and_opts` fills: every Cmd's process in order, and the
      sinks of the last stdout and the last stderr operator. */
  method BuildCmds(cmds: seq<Cmd>, opts: seq<Opt>) returns (generated: Cmds)
    requires Generatable(cmds)
    ensures fresh(generated)
    ensures generated.cmds == StageCommands(cmds)
    ensures generated.redirectStdout == SinkFor(FindLastOpts(opts).0)
    ensures generated.redirectStderr == SinkFor(FindLastOpts(opts).1)
  {
    generated := new Cmds();
    var i := 0;
    while i < |cmds|
      invariant 0 <= i <= |cmds|
      invariant generated.cmds == StageCommands(cmds[..i])
      invariant generated.redirectStdout == None && generated.redirectStderr == None
    {
      var command := GenerateCmd(cmds[i]);
      generated.AddCmd(command);
      assert StageCommands(cmds[..i + 1]) == StageCommands(cmds[..i]) + [command];
      i := i + 1;
    }
    assert cmds[..i] == cmds;
    var (redirectStdout, redirectStderr) := FindLastOpts(opts);
    if redirectStdout.Some? {
      var sink := GenerateOpt(redirectStdout.value);
      generated.AddRedirectStdout(sink);
    }
    if redirectStderr.Some? {
      var sink := GenerateOpt(redirectStderr.value);
      generated.AddRedirectStderr(sink);
    }
  }

  /** `execute_cmds_and_opts`: one Cmd and no operator is evaluated directly; otherwise a
      pipeline is built with the stage commands and the last-wins sinks, spawned, and
      then waited on, or killed when a spawn failed. */
  method ExecuteCmdsAndOpts(cmds: seq<Cmd>, opts: seq<Opt>, spawnOk: nat -> bool, killOk: nat -> bool)
    returns (o: Outcome)
    requires Generatable(cmds)
    ensures |cmds| == 1 && opts == [] ==> o == RanDirectly(cmds[0])
    ensures !(|cmds| == 1 && opts == []) ==>
              var plan := LinePlan(cmds, opts);
              var m := FirstFailure(|plan|, spawnOk);
              && o.RanPipeline?
              && o.children == plan[..m]
              && (m == |plan| ==> o.waited == o.children && o.killed == 0 && !o.killFailed)
              && (m < |plan| ==>
                    o.waited == [] && o.killed == FirstFailure(m, killOk) && (o.killFailed <==> o.killed < m))
  {
    if |cmds| == 1 && |opts| == 0 {
      return RanDirectly(cmds[0]);
    }
    var generated := BuildCmds(cmds, opts);
    var pipeline := new Pipeline();
    var ok := pipeline.Pipe(generated, spawnOk);
    if ok {
      var waited := pipeline.Wait();
      o := RanPipeline(pipeline.childs, waited, 0, false);
    } else {
      var killedAll, killed := pipeline.Kill(killOk);
      o := RanPipeline(pipeline.childs, [], killed, !killedAll);
    }
  }
}
