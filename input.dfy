/** The line splitter (src/drshell/input.rs): after word splitting, redirect operators
    are taken out together with the file name that follows each, and the remaining words
    are cut at `|` into pipeline stages. */
module Input {
  import opened Util
  import opened Operators

  datatype InputSplitFail = NoInput | NoRedirectArg | NoAppendArg | NoPipCmd | ShlexError

  /** The words of the line with the redirects taken out (CmdsNoSplitAndOperators). */
  datatype Unsplit = Unsplit(cmds: seq<string>, operators: seq<Opt>)

  /** A split line: its pipeline stages and its redirect operators (CmdsAndOperators). */
  datatype CmdsAndOperators = CmdsAndOperators(cmds: seq<seq<string>>, operators: seq<Opt>)

  const PIPE: string := "|"

  /** The operator a token denotes, applied to its file name; None for any other token. */
  function RedirectOf(tok: string, file: string): Option<Opt>
  {
    if tok == ">" || tok == "1>" then Some(RedirectStdout(file))
    else if tok == "2>" then Some(RedirectStderr(file))
    else if tok == ">>" || tok == "1>>" then Some(AppendStdout(file))
    else if tok == "2>>" then Some(AppendStderr(file))
    else None
  }

  predicate IsOperator(tok: string)
  {
    RedirectOf(tok, "").Some?
  }

  lemma RedirectOfTable(tok: string, file: string)
    ensures RedirectOf(tok, file).Some? == IsOperator(tok)
    ensures tok == ">" || tok == "1>" <==> RedirectOf(tok, file) == Some(RedirectStdout(file))
    ensures tok == "2>" <==> RedirectOf(tok, file) == Some(RedirectStderr(file))
    ensures tok == ">>" || tok == "1>>" <==> RedirectOf(tok, file) == Some(AppendStdout(file))
    ensures tok == "2>>" <==> RedirectOf(tok, file) == Some(AppendStderr(file))
  {
  }

  /** One piece of a scanned line: a word kept for the stages, or an operator token with
      the operator it produced from the token after it. */
  datatype Piece = Word(w: string) | Redirect(tok: string, opt: Opt)

  /** The pieces can be scanned left to right without running out of tokens: the list
      does not end in an operator. */
  predicate Scannable(toks: seq<string>)
  {
    toks == [] || !IsOperator(toks[|toks| - 1])
  }

  /** A piece is read correctly: a word is no operator, and an operator produced exactly
      what its token denotes for its file name. */
  predicate WellRead(p: Piece)
  {
    match p
    case Word(w) => !IsOperator(w)
    case Redirect(tok, opt) => RedirectOf(tok, opt.file) == Some(opt)
  }

  /** The left-to-right scan: every operator consumes the very next token as its file. */
  function Scan(toks: seq<string>): (ps: seq<Piece>)
    requires Scannable(toks)
    ensures forall i :: 0 <= i < |ps| ==> WellRead(ps[i])
    decreases |toks|
  {
    if toks == [] then []
    else if IsOperator(toks[0]) then
      assert |toks| >= 2;
      [Redirect(toks[0], RedirectOf(toks[0], toks[1]).value)] + Scan(toks[2..])
    else [Word(toks[0])] + Scan(toks[1..])
  }

  /** The tokens a sequence of pieces was read from. */
  function Tokens(ps: seq<Piece>): seq<string>
  {
    if ps == [] then []
    else
      (match ps[0]
       case Word(w) => [w]
       case Redirect(tok, opt) => [tok, opt.file])
      + Tokens(ps[1..])
  }

  function Words(ps: seq<Piece>): seq<string>
  {
    if ps == [] then [] else (if ps[0].Word? then [ps[0].w] else []) + Words(ps[1..])
  }

  function OptsOf(ps: seq<Piece>): seq<Opt>
  {
    if ps == [] then [] else (if ps[0].Redirect? then [ps[0].opt] else []) + OptsOf(ps[1..])
  }

  /** The scan loses nothing: its pieces give back the tokens, in order. */
  lemma {:induction false} ScanTokens(toks: seq<string>)
    requires Scannable(toks)
    ensures Tokens(Scan(toks)) == toks
    decreases |toks|
  {
    if toks != [] {
      if IsOperator(toks[0]) {
        ScanTokens(toks[2..]);
        assert toks == [toks[0], toks[1]] + toks[2..];
      } else {
        ScanTokens(toks[1..]);
        assert toks == [toks[0]] + toks[1..];
      }
    }
  }

  /** The scan is the only correct reading: any well-read pieces that give back the
      tokens are the scan's pieces. */
  lemma {:induction false} ScanUnique(toks: seq<string>, ps: seq<Piece>)
    requires Scannable(toks)
    requires forall i :: 0 <= i < |ps| ==> WellRead(ps[i])
    requires Tokens(ps) == toks
    ensures ps == Scan(toks)
    decreases |toks|
  {
    if ps != [] {
      assert WellRead(ps[0]);
      forall i | 0 <= i < |ps[1..]| ensures WellRead(ps[1..][i]) {
        assert ps[1..][i] == ps[i + 1];
      }
      match ps[0]
      case Word(w) =>
        assert toks == [w] + Tokens(ps[1..]);
        assert toks[1..] == Tokens(ps[1..]);
        ScanUnique(toks[1..], ps[1..]);
      case Redirect(tok, opt) =>
        assert toks == [tok, opt.file] + Tokens(ps[1..]);
        assert toks[2..] == Tokens(ps[1..]);
        assert toks[0] == tok && toks[1] == opt.file;
        ScanUnique(toks[2..], ps[1..]);
    }
  }

  /** Without operator tokens every token is a stage word and there is no operator. */
  lemma {:induction false} ScanWithoutOperators(toks: seq<string>)
    requires forall i :: 0 <= i < |toks| ==> !IsOperator(toks[i])
    ensures Scannable(toks)
    ensures Words(Scan(toks)) == toks && OptsOf(Scan(toks)) == []
    decreases |toks|
  {
    if toks != [] {
      ScanWithoutOperators(toks[1..]);
      assert toks == [toks[0]] + toks[1..];
    }
  }

  /** One step of the scan at an operator: it takes the next token as its file. */
  lemma ScanStepOperator(toks: seq<string>, i: nat)
    requires Scannable(toks) && i < |toks| && IsOperator(toks[i])
    ensures i + 1 < |toks| && Scannable(toks[i..]) && Scannable(toks[i + 2..])
    ensures Words(Scan(toks[i..])) == Words(Scan(toks[i + 2..]))
    ensures OptsOf(Scan(toks[i..])) ==
              [RedirectOf(toks[i], toks[i + 1]).value] + OptsOf(Scan(toks[i + 2..]))
  {
    var rest := toks[i..];
    assert rest[0] == toks[i];
    assert rest[2..] == toks[i + 2..];
  }

  /** One step of the scan at any other token: it becomes a stage word. */
  lemma ScanStepWord(toks: seq<string>, i: nat)
    requires Scannable(toks) && i < |toks| && !IsOperator(toks[i])
    ensures Scannable(toks[i..]) && Scannable(toks[i + 1..])
    ensures Words(Scan(toks[i..])) == [toks[i]] + Words(Scan(toks[i + 1..]))
    ensures OptsOf(Scan(toks[i..])) == OptsOf(Scan(toks[i + 1..]))
  {
    var rest := toks[i..];
    assert rest[0] == toks[i];
    assert rest[1..] == toks[i + 1..];
  }

  lemma ScanExample()
    ensures Scan(["echo", "a", "b", ">", "out.txt"])
            == [Word("echo"), Word("a"), Word("b"), Redirect(">", RedirectStdout("out.txt"))]
    ensures Words(Scan(["echo", "a", "b", ">", "out.txt"])) == ["echo", "a", "b"]
    ensures OptsOf(Scan(["echo", "a", "b", ">", "out.txt"])) == [RedirectStdout("out.txt")]
  {
    var toks := ["echo", "a", "b", ">", "out.txt"];
    var ps := [Word("echo"), Word("a"), Word("b"), Redirect(">", RedirectStdout("out.txt"))];
    var last := [Redirect(">", RedirectStdout("out.txt"))];
    assert ps[3..] == last && Tokens(last) == [">", "out.txt"];
    assert Tokens(ps) == toks;
    assert !IsOperator("out.txt");
    ScanUnique(toks, ps);
    assert Words(ps) == ["echo", "a", "b"];
    assert OptsOf(ps) == [RedirectStdout("out.txt")];
  }

  /** The words of the line after `trim_end` and `shlex::split`. Word splitting is an
      external collaborator, given here as a function that fails with None. */
  function WordsOf(line: string, shlex: string -> Option<seq<string>>): Option<seq<string>>
  {
    shlex(TrimEnd(line))
  }

  /** The walk of `split_operators` over words that do not end in an operator: each
      operator takes the word after it as its file, every other word is kept. */
  method WalkWords(input: seq<string>) returns (cmds: seq<string>, operators: seq<Opt>)
    requires Scannable(input)
    ensures cmds == Words(Scan(input)) && operators == OptsOf(Scan(input))
  {
    assert input[0..] == input;
    operators := [];
    cmds := [];
    var i := 0;
    while i < |input|
      invariant 0 <= i <= |input|
      invariant Scannable(input[i..])
      invariant Words(Scan(input)) == cmds + Words(Scan(input[i..]))
      invariant OptsOf(Scan(input)) == operators + OptsOf(Scan(input[i..]))
      decreases |input| - i
    {
      var s := input[i];
      // The operator this word denotes, applied to the word after it (lines 48-59).
      var file := if i + 1 < |input| then input[i + 1] else "";
      var op := RedirectOf(s, file);
      RedirectOfTable(s, file);
      if op.Some? {
        ScanStepOperator(input, i);
        assert operators + OptsOf(Scan(input[i..])) == (operators + [op.value]) + OptsOf(Scan(input[i + 2..]));
        operators := operators + [op.value];
        i := i + 2;
      } else {
        ScanStepWord(input, i);
        assert cmds + Words(Scan(input[i..])) == (cmds + [s]) + Words(Scan(input[i + 1..]));
        cmds := cmds + [s];
        i := i + 1;
      }
    }
    assert input[i..] == [];
  }

  /** `split_operators`: check the last word, then walk the words, taking each operator
      and the word after it out of the stage words. */
  method SplitOperators(line: string, shlex: string -> Option<seq<string>>)
    returns (r: Result<Unsplit, InputSplitFail>)
    ensures var w := WordsOf(line, shlex);
      && (w.None? ==> r == Err(ShlexError))
      && (w == Some([]) ==> r == Err(NoInput))
      && (w.Some? && w.value != [] ==>
            var last := w.value[|w.value| - 1];
            && (last in {">", "1>", "2>"} ==> r == Err(NoRedirectArg))
            && (last in {">>", "1>>", "2>>"} ==> r == Err(NoAppendArg))
            && (!IsOperator(last) ==>
                  r == Ok(Unsplit(Words(Scan(w.value)), OptsOf(Scan(w.value))))))
  {
    var words := WordsOf(line, shlex);
    if words.None? {
      return Err(ShlexError);
    }
    var input := words.value;
    if input == [] {
      return Err(NoInput);
    }
    var last := input[|input| - 1];
    if last == ">" || last == "1>" || last == "2>" {
      return Err(NoRedirectArg);
    } else if last == ">>" || last == "1>>" || last == "2>>" {
      return Err(NoAppendArg);
    }
    var cmds, operators := WalkWords(input);
    return Ok(Unsplit(cmds, operators));
  }

  /** No `|` stands first, last, or right before another `|`. */
  predicate PipesWellPlaced(t: seq<string>)
  {
    forall i :: 0 <= i < |t| && t[i] == PIPE ==> 0 < i < |t| - 1 && t[i + 1] != PIPE
  }

  /** The stages written back with `|` between them. */
  function JoinPipes(stages: seq<seq<string>>): seq<string>
  {
    if stages == [] then []
    else if |stages| == 1 then stages[0]
    else JoinPipes(stages[..|stages| - 1]) + [PIPE] + stages[|stages| - 1]
  }

  /** Every stage has a word and no `|`. */
  predicate GoodStages(stages: seq<seq<string>>)
  {
    forall k :: 0 <= k < |stages| ==> stages[k] != [] && PIPE !in stages[k]
  }

  lemma GoodStagesInit(stages: seq<seq<string>>)
    requires stages != [] && GoodStages(stages)
    ensures GoodStages(stages[..|stages| - 1])
  {
    var init := stages[..|stages| - 1];
    forall k | 0 <= k < |init| ensures init[k] != [] && PIPE !in init[k] {
      assert init[k] == stages[k];
    }
  }

  function CountPipes(t: seq<string>): nat
  {
    if t == [] then 0 else CountPipes(t[..|t| - 1]) + (if t[|t| - 1] == PIPE then 1 else 0)
  }

  lemma {:induction false} CountPipesAppend(a: seq<string>, b: seq<string>)
    ensures CountPipes(a + b) == CountPipes(a) + CountPipes(b)
    decreases |b|
  {
    if b == [] {
      assert a + b == a;
    } else {
      CountPipesAppend(a, b[..|b| - 1]);
      assert (a + b)[..|a + b| - 1] == a + b[..|b| - 1];
    }
  }

  lemma {:induction false} CountPipesNone(t: seq<string>)
    requires PIPE !in t
    ensures CountPipes(t) == 0
    decreases |t|
  {
    if t != [] {
      CountPipesNone(t[..|t| - 1]);
    }
  }

  /** Joined good stages hold one `|` fewer than they have stages. */
  lemma {:induction false} JoinPipesCount(stages: seq<seq<string>>)
    requires stages != [] && GoodStages(stages)
    ensures CountPipes(JoinPipes(stages)) == |stages| - 1
    decreases |stages|
  {
    var n := |stages|;
    CountPipesNone(stages[n - 1]);
    if n > 1 {
      var init := stages[..n - 1];
      GoodStagesInit(stages);
      JoinPipesCount(init);
      CountPipesAppend(JoinPipes(init), [PIPE]);
      CountPipesAppend(JoinPipes(init) + [PIPE], stages[n - 1]);
      assert CountPipes([PIPE]) == 1 by { assert [PIPE][..0] == []; }
    }
  }

  /** Joined good stages place no `|` first, last or twice in a row. */
  lemma {:induction false} JoinPipesWellPlaced(stages: seq<seq<string>>)
    requires stages != [] && GoodStages(stages)
    ensures JoinPipes(stages) != [] && PipesWellPlaced(JoinPipes(stages))
    ensures JoinPipes(stages)[0] != PIPE
    decreases |stages|
  {
    var n := |stages|;
    if n > 1 {
      var init := stages[..n - 1];
      GoodStagesInit(stages);
      JoinPipesWellPlaced(init);
      var a := JoinPipes(init);
      var last := stages[n - 1];
      var t := a + [PIPE] + last;
      assert t == JoinPipes(stages);
      assert last[0] in last;
      assert a[|a| - 1] != PIPE;
      forall i | 0 <= i < |t|
        ensures t[i] == PIPE ==> 0 < i < |t| - 1 && t[i + 1] != PIPE
      {
        if i < |a| - 1 {
          assert t[i] == a[i] && t[i + 1] == a[i + 1];
        } else if i == |a| - 1 {
          assert t[i] == a[i];
        } else if i == |a| {
          assert t[i + 1] == last[0];
        } else {
          assert t[i] == last[i - |a| - 1];
          assert last[i - |a| - 1] in last;
        }
      }
    } else {
      var t := stages[0];
      forall i | 0 <= i < |t| ensures t[i] != PIPE {
        assert t[i] in t;
      }
    }
  }

  /** The index of the last `|`, or -1 when there is none. */
  function LastPipe(t: seq<string>): (r: int)
    ensures -1 <= r < |t|
    ensures r >= 0 ==> t[r] == PIPE
    ensures forall j :: r < j < |t| ==> t[j] != PIPE
  {
    if t == [] then -1
    else if t[|t| - 1] == PIPE then |t| - 1
    else LastPipe(t[..|t| - 1])
  }

  /** In joined good stages of more than one, the last `|` is the one before the last
      stage. */
  lemma JoinPipesLastPipe(stages: seq<seq<string>>)
    requires |stages| > 1 && GoodStages(stages)
    ensures LastPipe(JoinPipes(stages)) == |JoinPipes(stages[..|stages| - 1])|
  {
    var a := JoinPipes(stages[..|stages| - 1]);
    var last := stages[|stages| - 1];
    var t := a + [PIPE] + last;
    assert t == JoinPipes(stages);
    assert t[|a|] == PIPE;
    forall j | |a| < j < |t| ensures t[j] != PIPE {
      assert t[j] == last[j - |a| - 1];
      assert last[j - |a| - 1] in last;
    }
  }

  /** The stages of a pipe-separated word list are determined by it. */
  lemma {:induction false} JoinPipesUnique(s1: seq<seq<string>>, s2: seq<seq<string>>)
    requires s1 != [] && GoodStages(s1) && s2 != [] && GoodStages(s2)
    requires JoinPipes(s1) == JoinPipes(s2)
    ensures s1 == s2
    decreases |s1| + |s2|
  {
    var n1, n2 := |s1|, |s2|;
    var t := JoinPipes(s1);
    JoinPipesCount(s1);
    JoinPipesCount(s2);
    if n1 > 1 {
      var a1 := JoinPipes(s1[..n1 - 1]);
      var a2 := JoinPipes(s2[..n2 - 1]);
      var l1, l2 := s1[n1 - 1], s2[n2 - 1];
      GoodStagesInit(s1);
      GoodStagesInit(s2);
      JoinPipesLastPipe(s1);
      JoinPipesLastPipe(s2);
      assert t == a1 + [PIPE] + l1 && t == a2 + [PIPE] + l2;
      assert |a1| == |a2|;
      assert l1 == t[|a1| + 1..] == l2;
      assert a1 == t[..|a1|] == a2;
      JoinPipesUnique(s1[..n1 - 1], s2[..n2 - 1]);
      assert s1 == s1[..n1 - 1] + [l1];
      assert s2 == s2[..n2 - 1] + [l2];
    }
  }

  /** `index` lists, in increasing order, exactly the positions of the `|` words of `t`. */
  predicate PipeIndices(t: seq<string>, index: seq<nat>)
  {
    && (forall j :: 0 <= j < |index| ==> index[j] < |t| && t[index[j]] == PIPE)
    && (forall j, l :: 0 <= j < l < |index| ==> index[j] < index[l])
    && (forall p :: 0 <= p < |t| && t[p] == PIPE ==> p in index)
  }

  /** No two listed positions are neighbours. */
  predicate NoNeighbours(index: seq<nat>)
  {
    forall m :: 0 < m < |index| ==> index[m] != index[m - 1] + 1
  }

  /** The checks of `split_cmds` on the `|` positions decide that the pipes are well placed:
      the first position is not 0, the last not the final word, and no two neighbour. */
  lemma PipeIndicesDecide(t: seq<string>, index: seq<nat>)
    requires PipeIndices(t, index) && index != []
    ensures PipesWellPlaced(t) <==>
              index[0] != 0 && index[|index| - 1] != |t| - 1 && NoNeighbours(index)
  {
    var n := |index|;
    if PipesWellPlaced(t) {
      assert t[index[0]] == PIPE && t[index[n - 1]] == PIPE;
      forall m | 0 < m < n ensures index[m] != index[m - 1] + 1 {
        assert t[index[m - 1]] == PIPE && t[index[m - 1] + 1] != PIPE;
      }
    }
    if index[0] != 0 && index[n - 1] != |t| - 1 && NoNeighbours(index) {
      forall i | 0 <= i < |t| && t[i] == PIPE
        ensures 0 < i < |t| - 1 && t[i + 1] != PIPE
      {
        assert i in index;
        var j :| 0 <= j < n && index[j] == i;
        assert index[0] <= i <= index[n - 1] by {
          if 0 < j { assert index[0] < index[j]; }
          if j < n - 1 { assert index[j] < index[n - 1]; }
        }
        forall l | 0 <= l < n ensures index[l] != i + 1 {
          if l <= j {
            assert l == j || index[l] < index[j];
          } else {
            assert index[j] < index[j + 1] && index[j + 1] <= index[l];
          }
        }
        assert i + 1 !in index;
      }
    }
  }

  /** Collect the positions of the `|` words. */
  method CollectPipes(t: seq<string>) returns (index: seq<nat>)
    ensures PipeIndices(t, index)
  {
    index := [];
    var k := 0;
    while k < |t|
      invariant 0 <= k <= |t|
      invariant forall j :: 0 <= j < |index| ==> index[j] < k && t[index[j]] == PIPE
      invariant forall j, l :: 0 <= j < l < |index| ==> index[j] < index[l]
      invariant forall p :: 0 <= p < k && t[p] == PIPE ==> p in index
    {
      if t[k] == PIPE {
        index := index + [k];
      }
      k := k + 1;
    }
  }

  /** Pipe placement, as `split_cmds` checks it: the positions of the `|` words are
      collected, then the first and last position and each pair of neighbours examined. */
  method CheckPipes(t: seq<string>) returns (bad: bool)
    ensures bad == !PipesWellPlaced(t)
  {
    var index := CollectPipes(t);
    if index == [] {
      forall i | 0 <= i < |t| ensures t[i] != PIPE {
        assert t[i] == PIPE ==> i in index;
      }
      return false;
    }
    PipeIndicesDecide(t, index);
    var first := index[0];
    var last := index[|index| - 1];
    if first == 0 || last == |t| - 1 {
      return true;
    }
    var previous := first;
    var m := 1;
    while m < |index|
      invariant 1 <= m <= |index|
      invariant previous == index[m - 1]
      invariant forall j :: 0 < j < m ==> index[j] != index[j - 1] + 1
    {
      var i := index[m];
      if i - previous == 1 {
        return true;
      }
      previous := i;
      m := m + 1;
    }
    return false;
  }

  /** The stage-building loop of `split_cmds`, on a word list whose pipes are well
      placed. */
  method CutAtPipes(cmds: seq<string>) returns (stages: seq<seq<string>>)
    requires cmds != [] && PipesWellPlaced(cmds)
    ensures stages != [] && GoodStages(stages) && JoinPipes(stages) == cmds
  {
    var cmd: seq<string> := [];
    stages := [];
    var k := 0;
    while k < |cmds|
      invariant 0 <= k <= |cmds|
      invariant cmds[..k] == if stages == [] then cmd else JoinPipes(stages) + [PIPE] + cmd
      invariant GoodStages(stages)
      invariant PIPE !in cmd
      invariant cmd == [] ==> k == 0 || cmds[k - 1] == PIPE
      invariant stages != [] ==> k > 0
    {
      var s := cmds[k];
      assert cmds[..k + 1] == cmds[..k] + [s];
      if s == PIPE && cmd != [] {
        assert JoinPipes(stages + [cmd]) ==
          if stages == [] then cmd else JoinPipes(stages) + [PIPE] + cmd by {
          assert (stages + [cmd])[..|stages|] == stages;
        }
        stages := stages + [cmd];
        cmd := [];
      } else {
        if k > 0 {
          assert cmds[k - 1] == PIPE ==> cmds[k] != PIPE;
        }
        assert cmds[0] != PIPE;
        cmd := cmd + [s];
      }
      k := k + 1;
    }
    assert cmds[..k] == cmds;
    assert cmds[|cmds| - 1] != PIPE;
    assert JoinPipes(stages + [cmd]) ==
      if stages == [] then cmd else JoinPipes(stages) + [PIPE] + cmd by {
      assert (stages + [cmd])[..|stages|] == stages;
    }
    stages := stages + [cmd];
  }

  /** `split_cmds`: no words is NoInput; a misplaced `|` is NoPipCmd; otherwise the stages,
      each non-empty and free of `|`, one more than there are pipes, joining back to the
      words. The stages are determined by these facts (JoinPipesUnique). */
  method SplitCmds(cmds: seq<string>) returns (r: Result<seq<seq<string>>, InputSplitFail>)
    ensures cmds == [] ==> r == Err(NoInput)
    ensures cmds != [] && !PipesWellPlaced(cmds) ==> r == Err(NoPipCmd)
    ensures cmds != [] && PipesWellPlaced(cmds) ==>
              r.Ok? && r.value != [] && GoodStages(r.value) && JoinPipes(r.value) == cmds
              && |r.value| == CountPipes(cmds) + 1
    ensures PIPE !in cmds && cmds != [] ==> r == Ok([cmds])
  {
    if cmds == [] {
      return Err(NoInput);
    }
    var bad := CheckPipes(cmds);
    if bad {
      return Err(NoPipCmd);
    }
    if PIPE !in cmds {
      CountPipesNone(cmds);
      return Ok([cmds]);
    }
    var stages := CutAtPipes(cmds);
    JoinPipesCount(stages);
    return Ok(stages);
  }

  /** `split_input`: the operator pass and then the pipe pass. */
  method SplitInput(line: string, shlex: string -> Option<seq<string>>)
    returns (r: Result<CmdsAndOperators, InputSplitFail>)
    ensures var w := WordsOf(line, shlex);
      && (w.None? ==> r == Err(ShlexError))
      && (w == Some([]) ==> r == Err(NoInput))
      && (w.Some? && w.value != [] ==>
            var last := w.value[|w.value| - 1];
            && (last in {">", "1>", "2>"} ==> r == Err(NoRedirectArg))
            && (last in {">>", "1>>", "2>>"} ==> r == Err(NoAppendArg))
            && (!IsOperator(last) ==>
                  var words := Words(Scan(w.value));
                  && (words == [] ==> r == Err(NoInput))
                  && (words != [] && !PipesWellPlaced(words) ==> r == Err(NoPipCmd))
                  && (words != [] && PipesWellPlaced(words) ==>
                        r.Ok? && r.value.operators == OptsOf(Scan(w.value))
                        && r.value.cmds != [] && GoodStages(r.value.cmds)
                        && JoinPipes(r.value.cmds) == words)))
  {
    var unsplit := SplitOperators(line, shlex);
    if unsplit.Err? {
      return Err(unsplit.error);
    }
    var stages := SplitCmds(unsplit.value.cmds);
    if stages.Err? {
      return Err(stages.error);
    }
    return Ok(CmdsAndOperators(stages.value, unsplit.value.operators));
  }

  /** `echo a b > out.txt` splits into the one stage `echo a b` and one redirect. */
  lemma SplitExample(stages: seq<seq<string>>)
    requires stages != [] && GoodStages(stages)
    requires JoinPipes(stages) == Words(Scan(["echo", "a", "b", ">", "out.txt"]))
    ensures stages == [["echo", "a", "b"]]
  {
    ScanExample();
    assert GoodStages([["echo", "a", "b"]]);
    JoinPipesUnique(stages, [["echo", "a", "b"]]);
  }

  /** The diagnostic `split_fail_process` writes to stderr; nothing for an empty line. */
  function SplitFailMessage(reason: InputSplitFail): (m: Option<string>)
    ensures m.None? <==> reason == NoInput
  {
    match reason
    case NoInput => None
    case NoRedirectArg => Some("no file to redirect!!!")
    case NoAppendArg => Some("no file to append!!!")
    case NoPipCmd => Some("no command for the pips!!!")
    case ShlexError => Some("shlex error!!!")
  }
}
