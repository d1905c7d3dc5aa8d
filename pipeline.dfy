/** Pipeline assembly (src/drshell/pipline.rs): the Cmds builder that collects the stage
    processes and the two sinks, and the Pipeline that spawns them wired stage to stage,
    then waits for them or kills them. Spawning and killing are outside the model: the
    outcome of the k-th spawn (or kill) of a call is given as `spawnOk(k)` (`killOk(k)`). */
module Pipelines {
  import opened Util

  /** Where a process reads its standard input: the shell's own, or a pipe from the
      standard output or standard error of an earlier stage (by stage number). */
  datatype StdinSource = InheritStdin | FromStdoutOf(stage: nat) | FromStderrOf(stage: nat)

  /** Whether an output stream is the shell's own or captured in a pipe. */
  datatype OutMode = Inherit | Piped

  /** A spawned process with its standard streams. */
  datatype Process = Process(command: Command, stdin: StdinSource, stdout: OutMode, stderr: OutMode)

  /** The builder of a pipeline: its stage commands and the optional sinks. */
  class Cmds {
    var cmds: seq<Command>
    var redirectStdout: Option<Command>
    var redirectStderr: Option<Command>

    constructor()
      ensures cmds == [] && redirectStdout == None && redirectStderr == None
    {
      cmds := [];
      redirectStdout := None;
      redirectStderr := None;
    }

    method AddCmd(cmd: Command)
      modifies this
      ensures cmds == old(cmds) + [cmd]
      ensures redirectStdout == old(redirectStdout) && redirectStderr == old(redirectStderr)
    {
      cmds := cmds + [cmd];
    }

    /** A later stdout sink replaces an earlier one. */
    method AddRedirectStdout(cmd: Command)
      modifies this
      ensures redirectStdout == Some(cmd)
      ensures cmds == old(cmds) && redirectStderr == old(redirectStderr)
    {
      redirectStdout := Some(cmd);
    }

    /** A later stderr sink replaces an earlier one. */
    method AddRedirectStderr(cmd: Command)
      modifies this
      ensures redirectStderr == Some(cmd)
      ensures cmds == old(cmds) && redirectStdout == old(redirectStdout)
    {
      redirectStderr := Some(cmd);
    }

    method TakeRedirectStdout() returns (r: Option<Command>)
      modifies this
      ensures r == old(redirectStdout) && redirectStdout == None
      ensures cmds == old(cmds) && redirectStderr == old(redirectStderr)
    {
      r := redirectStdout;
      redirectStdout := None;
    }

    method TakeRedirectStderr() returns (r: Option<Command>)
      modifies this
      ensures r == old(redirectStderr) && redirectStderr == None
      ensures cmds == old(cmds) && redirectStdout == old(redirectStdout)
    {
      r := redirectStderr;
      redirectStderr := None;
    }

    method IsEmpty() returns (b: bool)
      ensures b <==> cmds == []
    {
      b := |cmds| == 0;
    }
  }

  /** Stage `k` of a pipeline: the first reads the shell's stdin, every other the stdout
      of the stage before it; a stage before the last has its stdout piped; the last has
      its stdout piped exactly when there is a stdout sink and its stderr piped exactly
      when there is a stderr sink. */
  function StageProcess(stages: seq<Command>, k: nat, hasOut: bool, hasErr: bool): Process
    requires k < |stages|
  {
    var last := k == |stages| - 1;
    Process(stages[k],
            if k == 0 then InheritStdin else FromStdoutOf(k - 1),
            if !last || hasOut then Piped else Inherit,
            if last && hasErr then Piped else Inherit)
  }

  /** The number of sinks present. */
  function SinkCount(out: Option<Command>, err: Option<Command>): nat
  {
    (if out.Some? then 1 else 0) + (if err.Some? then 1 else 0)
  }

  /** Process `i` in spawn order: the stages, then the stdout sink reading the last
      stage's stdout, then the stderr sink reading its stderr. */
  function PlanAt(stages: seq<Command>, out: Option<Command>, err: Option<Command>, i: nat): Process
    requires stages != [] && i < |stages| + SinkCount(out, err)
  {
    var n := |stages|;
    if i < n then StageProcess(stages, i, out.Some?, err.Some?)
    else if i == n && out.Some? then Process(out.value, FromStdoutOf(n - 1), Inherit, Inherit)
    else Process(err.value, FromStderrOf(n - 1), Inherit, Inherit)
  }

  /** The processes of a pipeline in spawn order; none for an empty pipeline. */
  function Plan(stages: seq<Command>, out: Option<Command>, err: Option<Command>): (p: seq<Process>)
    ensures stages == [] ==> p == []
    ensures stages != [] ==> |p| == |stages| + SinkCount(out, err)
  {
    if stages == [] then []
    else
      seq(|stages| + SinkCount(out, err),
          i requires 0 <= i < |stages| + SinkCount(out, err) => PlanAt(stages, out, err, i))
  }

  /** The shape of the plan: the stages in order with their wiring, then the sinks. */
  lemma PlanShape(stages: seq<Command>, out: Option<Command>, err: Option<Command>, p: seq<Process>)
    requires stages != [] && p == Plan(stages, out, err)
    ensures |p| == |stages| + SinkCount(out, err)
    ensures forall k :: 0 <= k < |stages| ==> p[k].command == stages[k]
    ensures p[0].stdin == InheritStdin
    ensures forall k :: 0 < k < |stages| ==> p[k].stdin == FromStdoutOf(k - 1)
    ensures forall k :: 0 <= k < |stages| - 1 ==> p[k].stdout == Piped && p[k].stderr == Inherit
    ensures p[|stages| - 1].stdout == (if out.Some? then Piped else Inherit)
    ensures p[|stages| - 1].stderr == (if err.Some? then Piped else Inherit)
    ensures out.Some? ==>
              p[|stages|] == Process(out.value, FromStdoutOf(|stages| - 1), Inherit, Inherit)
    ensures err.Some? ==>
              p[|p| - 1] == Process(err.value, FromStderrOf(|stages| - 1), Inherit, Inherit)
  {
    assert forall k :: 0 <= k < |p| ==> p[k] == PlanAt(stages, out, err, k);
  }

  /** Element `k` of the plan is `PlanAt(k)`. */
  lemma PlanIndex(stages: seq<Command>, out: Option<Command>, err: Option<Command>, p: seq<Process>, k: nat)
    requires stages != [] && p == Plan(stages, out, err) && k < |p|
    ensures p[k] == PlanAt(stages, out, err, k)
  {
  }

  /** Every pipe a process reads from is an output that an earlier stage captured:
      unwrapping a captured stream never fails. */
  lemma PlanReadsCaptured(stages: seq<Command>, out: Option<Command>, err: Option<Command>, p: seq<Process>)
    requires stages != [] && p == Plan(stages, out, err)
    ensures forall i :: 0 <= i < |p| && p[i].stdin.FromStdoutOf? ==>
              p[i].stdin.stage < i && p[i].stdin.stage < |stages| && p[p[i].stdin.stage].stdout == Piped
    ensures forall i :: 0 <= i < |p| && p[i].stdin.FromStderrOf? ==>
              p[i].stdin.stage < i && p[i].stdin.stage < |stages| && p[p[i].stdin.stage].stderr == Piped
  {
    forall i | 0 <= i < |p| && p[i].stdin.FromStdoutOf?
      ensures p[i].stdin.stage < i && p[i].stdin.stage < |stages| && p[p[i].stdin.stage].stdout == Piped
    {
      PlanIndex(stages, out, err, p, i);
      PlanIndex(stages, out, err, p, p[i].stdin.stage);
    }
    forall i | 0 <= i < |p| && p[i].stdin.FromStderrOf?
      ensures p[i].stdin.stage < i && p[i].stdin.stage < |stages| && p[p[i].stdin.stage].stderr == Piped
    {
      PlanIndex(stages, out, err, p, i);
      PlanIndex(stages, out, err, p, p[i].stdin.stage);
    }
  }

  /** Every stage output that is captured is read by some process: no pipe is left
      without a reader. */
  lemma PlanCapturedIsRead(stages: seq<Command>, out: Option<Command>, err: Option<Command>, p: seq<Process>)
    requires stages != [] && p == Plan(stages, out, err)
    ensures forall j :: 0 <= j < |stages| && p[j].stdout == Piped ==>
              exists i :: 0 <= i < |p| && p[i].stdin == FromStdoutOf(j)
    ensures forall j :: 0 <= j < |stages| && p[j].stderr == Piped ==>
              exists i :: 0 <= i < |p| && p[i].stdin == FromStderrOf(j)
  {
    var n := |stages|;
    forall j | 0 <= j < n && p[j].stdout == Piped
      ensures exists i :: 0 <= i < |p| && p[i].stdin == FromStdoutOf(j)
    {
      PlanIndex(stages, out, err, p, j);
      if j < n - 1 {
        PlanIndex(stages, out, err, p, j + 1);
      } else {
        PlanIndex(stages, out, err, p, n);
      }
    }
    forall j | 0 <= j < n && p[j].stderr == Piped
      ensures exists i :: 0 <= i < |p| && p[i].stdin == FromStderrOf(j)
    {
      PlanIndex(stages, out, err, p, j);
      PlanIndex(stages, out, err, p, |p| - 1);
    }
  }

  /** No two processes read the same pipe. */
  lemma PlanNoSharedPipe(stages: seq<Command>, out: Option<Command>, err: Option<Command>, p: seq<Process>)
    requires stages != [] && p == Plan(stages, out, err)
    ensures forall i1, i2 :: 0 <= i1 < i2 < |p| && p[i1].stdin == p[i2].stdin ==>
              p[i1].stdin == InheritStdin
  {
    forall i1, i2 | 0 <= i1 < i2 < |p| && p[i1].stdin == p[i2].stdin
      ensures p[i1].stdin == InheritStdin
    {
      PlanIndex(stages, out, err, p, i1);
      PlanIndex(stages, out, err, p, i2);
    }
  }

  /** The number of attempts from `i` on that succeed before the first failure, up to n. */
  function FirstFailureFrom(i: nat, n: nat, ok: nat -> bool): (m: nat)
    requires i <= n
    ensures i <= m <= n
    ensures forall k :: i <= k < m ==> ok(k)
    ensures m < n ==> !ok(m)
    decreases n - i
  {
    if i == n then n else if !ok(i) then i else FirstFailureFrom(i + 1, n, ok)
  }

  /** The number of the first failing attempt among n, or n when all succeed. */
  function FirstFailure(n: nat, ok: nat -> bool): (m: nat)
    ensures m <= n
    ensures forall k :: 0 <= k < m ==> ok(k)
    ensures m < n ==> !ok(m)
  {
    FirstFailureFrom(0, n, ok)
  }

  /** Attempt `k`, reached with every earlier attempt successful, either succeeds and
      the first failure lies beyond it, or fails and is the first failure. */
  lemma FirstFailureStep(n: nat, ok: nat -> bool, k: nat)
    requires k < n && k <= FirstFailure(n, ok)
    ensures ok(k) ==> k + 1 <= FirstFailure(n, ok)
    ensures !ok(k) ==> FirstFailure(n, ok) == k
  {
  }

  class Pipeline {
    var childs: seq<Process>

    constructor()
      ensures childs == []
    {
      childs := [];
    }

    /** `pipe`: spawn the stages in order, each reading the previous stage's stdout, then
        the sinks. Stops at the first spawn that fails; the processes spawned before it
        stay in `childs`. An empty builder spawns nothing and succeeds. */
    method Pipe(cmds: Cmds, spawnOk: nat -> bool) returns (ok: bool)
      modifies this, cmds
      ensures var plan := Plan(old(cmds.cmds), old(cmds.redirectStdout), old(cmds.redirectStderr));
              var m := FirstFailure(|plan|, spawnOk);
              && childs == old(childs) + plan[..m]
              && (ok <==> m == |plan|)
      ensures old(cmds.cmds) == [] ==> ok && childs == old(childs)
      ensures old(cmds.cmds) != [] ==>
                cmds.redirectStdout.None? && cmds.redirectStderr.None?
                && cmds.cmds == old(cmds.cmds)[..|old(cmds.cmds)| - 1]
    {
      var empty := cmds.IsEmpty();
      if empty {
        return true;
      }
      var optStdout := cmds.TakeRedirectStdout();
      var optStderr := cmds.TakeRedirectStderr();
      var n := |cmds.cmds|;
      var lastCmd := cmds.cmds[n - 1];
      cmds.cmds := cmds.cmds[..n - 1];
      assert cmds.cmds + [lastCmd] == old(cmds.cmds);
      ok := SpawnAll(cmds.cmds, lastCmd, optStdout, optStderr, spawnOk);
    }

    /** Spawn one process as attempt number `attempt`, the process at that position of
        `plan`; it joins `childs` when the spawn succeeds. */
    method Spawn(ghost plan: seq<Process>, ghost base: seq<Process>, child: Process, attempt: nat,
                 spawnOk: nat -> bool) returns (ok: bool)
      requires attempt < |plan| && plan[attempt] == child
      requires attempt <= FirstFailure(|plan|, spawnOk) && childs == base + plan[..attempt]
      modifies this
      ensures ok == spawnOk(attempt)
      ensures ok ==> childs == base + plan[..attempt + 1] && attempt + 1 <= FirstFailure(|plan|, spawnOk)
      ensures !ok ==> childs == old(childs) && FirstFailure(|plan|, spawnOk) == attempt
    {
      FirstFailureStep(|plan|, spawnOk, attempt);
      ok := spawnOk(attempt);
      if ok {
        assert plan[..attempt + 1] == plan[..attempt] + [child];
        childs := childs + [child];
      }
    }

    /** The spawning half of `pipe`, once the last stage has been popped off the builder
        and the sinks taken out of it. */
    method SpawnAll(init: seq<Command>, lastCmd: Command, optStdout: Option<Command>,
                    optStderr: Option<Command>, spawnOk: nat -> bool) returns (ok: bool)
      modifies this
      ensures var plan := Plan(init + [lastCmd], optStdout, optStderr);
              var m := FirstFailure(|plan|, spawnOk);
              && childs == old(childs) + plan[..m]
              && (ok <==> m == |plan|)
    {
      var stages := init + [lastCmd];
      ghost var plan := Plan(stages, optStdout, optStderr);
      ghost var base := childs;
      var previousStdout;
      ok, previousStdout := SpawnInit(init, lastCmd, optStdout, optStderr, spawnOk);
      if !ok {
        return;
      }
      var stdin := if previousStdout.Some? then FromStdoutOf(previousStdout.value) else InheritStdin;
      var last := Process(lastCmd, stdin,
                          if optStdout.Some? then Piped else Inherit,
                          if optStderr.Some? then Piped else Inherit);
      PlanIndex(stages, optStdout, optStderr, plan, |init|);
      ok := Spawn(plan, base, last, |init|, spawnOk);
      if !ok {
        return;
      }
      ok := SpawnSinks(stages, optStdout, optStderr, spawnOk, base);
    }

    /** The sinks of `pipe`, spawned after every stage: the stdout sink reads the last
        stage's stdout, then the stderr sink reads its stderr. */
    method SpawnSinks(stages: seq<Command>, optStdout: Option<Command>,
                      optStderr: Option<Command>, spawnOk: nat -> bool, ghost base: seq<Process>)
      returns (ok: bool)
      requires stages != []
      requires var plan := Plan(stages, optStdout, optStderr);
               |stages| <= FirstFailure(|plan|, spawnOk) && childs == base + plan[..|stages|]
      modifies this
      ensures var plan := Plan(stages, optStdout, optStderr);
              var m := FirstFailure(|plan|, spawnOk);
              && childs == base + plan[..m]
              && (ok <==> m == |plan|)
    {
      ghost var plan := Plan(stages, optStdout, optStderr);
      var n := |stages|;
      var spawned := n;
      ok := true;
      if optStdout.Some? {
        var sink := Process(optStdout.value, FromStdoutOf(n - 1), Inherit, Inherit);
        PlanIndex(stages, optStdout, optStderr, plan, spawned);
        ok := Spawn(plan, base, sink, spawned, spawnOk);
        if !ok {
          return;
        }
        spawned := spawned + 1;
      }
      if optStderr.Some? {
        var sink := Process(optStderr.value, FromStderrOf(n - 1), Inherit, Inherit);
        PlanIndex(stages, optStdout, optStderr, plan, spawned);
        ok := Spawn(plan, base, sink, spawned, spawnOk);
        if !ok {
          return;
        }
        spawned := spawned + 1;
      }
      assert plan[..spawned] == plan;
    }

    /** The loop of `pipe` over every stage but the last: each has its stdout piped and
        reads the stdout of the stage before it. On success `previousStdout` names the
        stage whose stdout the last stage reads. */
    method SpawnInit(init: seq<Command>, lastCmd: Command, optStdout: Option<Command>,
                     optStderr: Option<Command>, spawnOk: nat -> bool)
      returns (ok: bool, previousStdout: Option<nat>)
      modifies this
      ensures var plan := Plan(init + [lastCmd], optStdout, optStderr);
              var m := FirstFailure(|plan|, spawnOk);
              && (ok ==> |init| <= m && childs == old(childs) + plan[..|init|])
              && (ok ==> previousStdout == if |init| == 0 then None else Some(|init| - 1))
              && (!ok ==> m < |init| && childs == old(childs) + plan[..m])
    {
      ghost var stages := init + [lastCmd];
      ghost var plan := Plan(stages, optStdout, optStderr);
      previousStdout := None;
      var spawned: nat := 0;
      while spawned < |init|
        invariant 0 <= spawned <= |init| && spawned <= FirstFailure(|plan|, spawnOk)
        invariant childs == old(childs) + plan[..spawned]
        invariant previousStdout == if spawned == 0 then None else Some(spawned - 1)
      {
        var stdin := if previousStdout.Some? then FromStdoutOf(previousStdout.value) else InheritStdin;
        var child := Process(init[spawned], stdin, Piped, Inherit);
        PlanIndex(stages, optStdout, optStderr, plan, spawned);
        ok := Spawn(plan, old(childs), child, spawned, spawnOk);
        if !ok {
          return;
        }
        previousStdout := Some(spawned);
        spawned := spawned + 1;
      }
      ok := true;
    }

    /** `wait`: wait on every child in order, ignoring failures. Returns the children
        waited on, in order. */
    method Wait() returns (waited: seq<Process>)
      ensures waited == childs
    {
      waited := [];
      var i := 0;
      while i < |childs|
        invariant 0 <= i <= |childs|
        invariant waited == childs[..i]
      {
        assert childs[..i + 1] == childs[..i] + [childs[i]];
        waited := waited + [childs[i]];
        i := i + 1;
      }
      assert childs[..i] == childs;
    }

    /** `kill`: kill the children in order, returning at the first kill that fails.
        Returns how many were killed; the ones after a failure are not tried. */
    method Kill(killOk: nat -> bool) returns (ok: bool, killed: nat)
      ensures killed == FirstFailure(|childs|, killOk)
      ensures ok <==> killed == |childs|
    {
      var i := 0;
      while i < |childs|
        invariant 0 <= i <= |childs|
        invariant forall k :: 0 <= k < i ==> killOk(k)
        invariant FirstFailure(|childs|, killOk) >= i
      {
        if !killOk(i) {
          return false, i;
        }
        i := i + 1;
      }
      return true, i;
    }
  }
}
