/** Tab completion (src/drshell/rustyline/cmp.rs): the sorted list of command names, the
    command and file completers, and the choice between them. The executables on PATH
    and the files of the current directory are given as lists of names. Strings are read
    as sequences of ASCII characters, so byte positions and character positions agree. */
module Completion {
  import opened Util
  import opened Commands

  // ---------------------------------------------------------------------------
  // The order of `String`: lexicographic on characters

  predicate LessEq(a: string, b: string)
    decreases |a|
  {
    a == [] || (b != [] && (a[0] < b[0] || (a[0] == b[0] && LessEq(a[1..], b[1..]))))
  }

  predicate Less(a: string, b: string)
  {
    LessEq(a, b) && a != b
  }

  lemma {:induction false} LessEqTotal(a: string, b: string)
    ensures LessEq(a, b) || LessEq(b, a)
    decreases |a|
  {
    if a != [] && b != [] && a[0] == b[0] {
      LessEqTotal(a[1..], b[1..]);
    }
  }

  lemma {:induction false} LessEqTrans(a: string, b: string, c: string)
    requires LessEq(a, b) && LessEq(b, c)
    ensures LessEq(a, c)
    decreases |a|
  {
    if a != [] && b != [] && c != [] && a[0] == b[0] && b[0] == c[0] {
      LessEqTrans(a[1..], b[1..], c[1..]);
    }
  }

  lemma {:induction false} LessEqAntisym(a: string, b: string)
    requires LessEq(a, b) && LessEq(b, a)
    ensures a == b
    decreases |a|
  {
    if a != [] && b != [] {
      LessEqAntisym(a[1..], b[1..]);
      assert a == [a[0]] + a[1..] && b == [b[0]] + b[1..];
    }
  }

  lemma LessTrans(a: string, b: string, c: string)
    requires Less(a, b) && Less(b, c)
    ensures Less(a, c)
  {
    LessEqTrans(a, b, c);
    if a == c {
      LessEqAntisym(a, b);
    }
  }

  /** Each element is at most the next one. */
  predicate Sorted(s: seq<string>)
  {
    forall i :: 0 < i < |s| ==> LessEq(s[i - 1], s[i])
  }

  /** Each element is below the next one. */
  predicate StrictlyIncreasing(s: seq<string>)
  {
    forall i :: 0 < i < |s| ==> Less(s[i - 1], s[i])
  }

  /** A strictly increasing list holds no name twice. */
  lemma {:induction false} StrictlyIncreasingDistinct(s: seq<string>)
    requires StrictlyIncreasing(s)
    ensures forall i, j :: 0 <= i < j < |s| ==> Less(s[i], s[j])
    decreases |s|
  {
    if |s| > 1 {
      var init := s[..|s| - 1];
      assert StrictlyIncreasing(init) by {
        forall i | 0 < i < |init|
          ensures Less(init[i - 1], init[i])
        {
          assert init[i - 1] == s[i - 1] && init[i] == s[i];
        }
      }
      StrictlyIncreasingDistinct(init);
      forall i, j | 0 <= i < j < |s|
        ensures Less(s[i], s[j])
      {
        if j < |s| - 1 {
          assert s[i] == init[i] && s[j] == init[j];
        } else if i < j - 1 {
          assert s[i] == init[i] && s[j - 1] == init[j - 1];
          LessTrans(s[i], s[j - 1], s[j]);
        }
      }
    }
  }

  // ---------------------------------------------------------------------------
  // `Vec<String>::sort`, written as an insertion sort

  function Insert(x: string, s: seq<string>): (r: seq<string>)
    requires Sorted(s)
    ensures Sorted(r) && multiset(r) == multiset(s) + multiset{x}
    ensures r[0] == x || (s != [] && r[0] == s[0])
  {
    if s == [] then [x]
    else if LessEq(x, s[0]) then [x] + s
    else
      var rest := Insert(x, s[1..]);
      LessEqTotal(x, s[0]);
      assert s == [s[0]] + s[1..];
      [s[0]] + rest
  }

  /** The names of `s` in ascending order. */
  function Sort(s: seq<string>): (r: seq<string>)
    ensures Sorted(r) && multiset(r) == multiset(s)
  {
    if s == [] then []
    else
      assert s == s[..|s| - 1] + [s[|s| - 1]];
      Insert(s[|s| - 1], Sort(s[..|s| - 1]))
  }

  /** A sorted list with each run of equal names reduced to one. */
  function Dedup(s: seq<string>): (r: seq<string>)
    ensures forall x :: x in r <==> x in s
    ensures s != [] ==> r != [] && r[|r| - 1] == s[|s| - 1]
    ensures Sorted(s) ==> StrictlyIncreasing(r)
  {
    if s == [] then []
    else
      var init := s[..|s| - 1];
      var last := s[|s| - 1];
      assert s == init + [last];
      var d := Dedup(init);
      if d != [] && d[|d| - 1] == last then
        SortedInit(s);
        d
      else
        SortedInit(s);
        DedupSnoc(s, d);
        d + [last]
  }

  /** The list without its last element of a sorted list is sorted. */
  lemma SortedInit(s: seq<string>)
    requires s != []
    ensures Sorted(s) ==> Sorted(s[..|s| - 1])
  {
    if Sorted(s) {
      var init := s[..|s| - 1];
      forall i | 0 < i < |init|
        ensures LessEq(init[i - 1], init[i])
      {
        assert init[i - 1] == s[i - 1] && init[i] == s[i];
      }
    }
  }

  /** Appending the last name of a sorted list to the dedup of the rest, when it is not
      a repeat, keeps the dedup strictly increasing. */
  lemma DedupSnoc(s: seq<string>, d: seq<string>)
    requires |s| > 1 ==> d != [] && d[|d| - 1] == s[|s| - 2]
    requires |s| == 1 ==> d == []
    requires s != [] && (Sorted(s[..|s| - 1]) ==> StrictlyIncreasing(d))
    requires d == [] || d[|d| - 1] != s[|s| - 1]
    ensures Sorted(s) ==> StrictlyIncreasing(d + [s[|s| - 1]])
  {
    if Sorted(s) {
      SortedInit(s);
      var r := d + [s[|s| - 1]];
      forall i | 0 < i < |r|
        ensures Less(r[i - 1], r[i])
      {
        if i < |d| {
          assert r[i - 1] == d[i - 1] && r[i] == d[i];
        } else {
          assert r[i - 1] == s[|s| - 2] && r[i] == s[|s| - 1];
          assert LessEq(s[|s| - 2], s[|s| - 1]);
        }
      }
    }
  }

  /** The dedup loop of `sort_cmds`: a name is kept unless it equals the one kept last. */
  method DedupSorted(cmds: seq<string>) returns (unrepeat: seq<string>)
    ensures unrepeat == Dedup(cmds)
  {
    unrepeat := [];
    var i := 0;
    while i < |cmds|
      invariant 0 <= i <= |cmds|
      invariant unrepeat == Dedup(cmds[..i])
    {
      assert cmds[..i + 1][..i] == cmds[..i];
      if unrepeat != [] && cmds[i] == unrepeat[|unrepeat| - 1] {
        i := i + 1;
        continue;
      }
      unrepeat := unrepeat + [cmds[i]];
      i := i + 1;
    }
    assert cmds[..i] == cmds;
  }

  /** The builtins in the order `sort_cmds` puts them: each is inserted at the front. */
  const BUILTINS_FIRST: seq<string> := ["history", "lsbuiltin", "cd", "pwd", "type", "exit", "echo"]

  function Reverse(s: seq<string>): (r: seq<string>)
    ensures |r| == |s| && forall k :: 0 <= k < |s| ==> r[k] == s[|s| - 1 - k]
  {
    if s == [] then [] else [s[|s| - 1]] + Reverse(s[..|s| - 1])
  }

  lemma SortSameNames(s: seq<string>)
    ensures forall x :: x in Sort(s) <==> x in s
  {
    var r := Sort(s);
    forall x
      ensures x in r <==> x in s
    {
      assert x in r <==> x in multiset(r);
      assert x in s <==> x in multiset(s);
    }
  }

  /** Inserting each builtin at the front leaves them last to first. */
  lemma BuiltinsReversed()
    ensures Reverse(BUILTIN_CMDS) == BUILTINS_FIRST
  {
  }

  /** The candidate command names: the builtins last to first, then the executable names
      ascending with no repeats. A builtin that is also an executable appears twice. */
  function SortedCmds(exes: seq<string>): (r: seq<string>)
    ensures |r| >= |BUILTINS_FIRST| && r[..|BUILTINS_FIRST|] == BUILTINS_FIRST
    ensures StrictlyIncreasing(r[|BUILTINS_FIRST|..])
    ensures forall x :: x in r[|BUILTINS_FIRST|..] <==> x in exes
  {
    var u := Dedup(Sort(exes));
    SortSameNames(exes);
    var r := BUILTINS_FIRST + u;
    assert r[..|BUILTINS_FIRST|] == BUILTINS_FIRST && r[|BUILTINS_FIRST|..] == u;
    r
  }

  /** Every candidate command name is a builtin or an executable. */
  lemma SortedCmdsNames(exes: seq<string>)
    ensures forall x :: x in SortedCmds(exes) <==> x in BUILTIN_CMDS || x in exes
  {
    var c := SortedCmds(exes);
    assert c == c[..|BUILTINS_FIRST|] + c[|BUILTINS_FIRST|..];
    assert forall x :: x in BUILTIN_CMDS <==> x in BUILTINS_FIRST;
  }

  /** `sort_cmds`: collect the executable names, sort them, drop repeats, then insert
      each builtin at the front. */
  method SortCmds(exes: seq<string>) returns (unrepeat: seq<string>)
    ensures unrepeat == SortedCmds(exes)
  {
    var cmds: seq<string> := [];
    var i := 0;
    while i < |exes|
      invariant 0 <= i <= |exes|
      invariant cmds == exes[..i]
    {
      assert exes[..i + 1] == exes[..i] + [exes[i]];
      cmds := cmds + [exes[i]];
      i := i + 1;
    }
    assert exes[..i] == exes;
    cmds := Sort(cmds);
    unrepeat := DedupSorted(cmds);
    unrepeat := InsertEachAtFront(BUILTIN_CMDS, unrepeat);
    BuiltinsReversed();
  }

  /** The insertion loop of `sort_cmds`: each name goes in front of everything so far. */
  method InsertEachAtFront(names: seq<string>, u: seq<string>) returns (r: seq<string>)
    ensures r == Reverse(names) + u
  {
    r := u;
    var k := 0;
    while k < |names|
      invariant 0 <= k <= |names|
      invariant r == Reverse(names[..k]) + u
    {
      assert names[..k + 1][..k] == names[..k];
      r := [names[k]] + r;
      k := k + 1;
    }
    assert names[..k] == names;
  }

  // ---------------------------------------------------------------------------
  // The completers

  /** A completion candidate: the text shown and the line that replaces the input. */
  datatype Pair = Pair(display: string, replacement: string)

  /** The names that start with `prefix`, in their original order. */
  function FilterPrefix(names: seq<string>, prefix: string): (r: seq<string>)
    ensures forall x :: x in r <==> x in names && StartsWith(x, prefix)
  {
    if names == [] then []
    else
      var last := names[|names| - 1];
      assert names == names[..|names| - 1] + [last];
      FilterPrefix(names[..|names| - 1], prefix) + (if StartsWith(last, prefix) then [last] else [])
  }

  /** Filtering keeps the order: it distributes over concatenation. */
  lemma {:induction false} FilterPrefixAppend(a: seq<string>, b: seq<string>, prefix: string)
    ensures FilterPrefix(a + b, prefix) == FilterPrefix(a, prefix) + FilterPrefix(b, prefix)
    decreases |b|
  {
    if b == [] {
      assert a + b == a;
    } else {
      var init := b[..|b| - 1];
      assert (a + b)[..|a + b| - 1] == a + init;
      FilterPrefixAppend(a, init, prefix);
    }
  }

  /** No name starts with the prefix: nothing is kept. */
  lemma {:induction false} FilterPrefixNone(names: seq<string>, prefix: string)
    requires forall k :: 0 <= k < |names| ==> !StartsWith(names[k], prefix)
    ensures FilterPrefix(names, prefix) == []
  {
    if names != [] {
      FilterPrefixNone(names[..|names| - 1], prefix);
    }
  }
  /** The empty prefix keeps every name, so the `!prefix.is_empty()` test of
      `complete_files` changes nothing. */
  lemma {:induction false} FilterEmptyPrefix(names: seq<string>)
    ensures FilterPrefix(names, "") == names
  {
    if names != [] {
      FilterEmptyPrefix(names[..|names| - 1]);
      assert names == names[..|names| - 1] + [names[|names| - 1]];
    }
  }

  /** The candidates offered for `names` when completing from position `pos`: each name
      is shown as is and replaces the line from `pos` on; a lone candidate is followed
      by a space. */
  function Offer(line: string, pos: nat, names: seq<string>): (r: seq<Pair>)
    requires pos <= |line|
    ensures |r| == |names|
    ensures forall k :: 0 <= k < |r| ==>
              r[k].display == names[k]
              && r[k].replacement == line[..pos] + names[k] + (if |r| == 1 then " " else "")
  {
    var base := seq(|names|, k requires 0 <= k < |names| => Pair(names[k], line[..pos] + names[k]));
    if |base| == 1 then [Pair(names[0], line[..pos] + names[0] + " ")] else base
  }

  /** The names shown by a list of candidates, in order. */
  function Displays(r: seq<Pair>): seq<string>
  {
    seq(|r|, k requires 0 <= k < |r| => r[k].display)
  }

  /** The candidates offered for `names` show exactly `names`, in order. */
  lemma OfferDisplays(line: string, pos: nat, names: seq<string>)
    requires pos <= |line|
    ensures Displays(Offer(line, pos, names)) == names
  {
  }

  /** The push loop of both completers followed by the lone-candidate space. */
  method OfferPairs(line: string, pos: nat, names: seq<string>) returns (result: seq<Pair>)
    requires pos <= |line|
    ensures result == Offer(line, pos, names)
  {
    result := [];
    var i := 0;
    while i < |names|
      invariant 0 <= i <= |names| && |result| == i
      invariant forall k :: 0 <= k < i ==> result[k] == Pair(names[k], line[..pos] + names[k])
    {
      result := result + [Pair(names[i], line[..pos] + names[i])];
      i := i + 1;
    }
    if |result| == 1 {
      result := [result[0].(replacement := result[0].replacement + " ")];
    }
  }

  /** `complete_cmds`: complete the word from `pos` to the end of the line against the
      command names; an empty word gets no candidates. */
  function CommandCandidates(line: string, pos: nat, exes: seq<string>): (r: seq<Pair>)
    requires pos <= |line|
    ensures line[pos..] == "" ==> r == []
    ensures forall k :: 0 <= k < |r| ==>
              StartsWith(r[k].display, line[pos..])
              && (r[k].display in BUILTIN_CMDS || r[k].display in exes)
    ensures forall k :: 0 <= k < |r| ==>
              r[k].replacement == line[..pos] + r[k].display + (if |r| == 1 then " " else "")
    ensures forall k :: 0 <= k < |r| ==> StartsWith(r[k].replacement, line)
  {
    var prefix := line[pos..];
    if prefix == "" then []
    else
      var names := FilterPrefix(SortedCmds(exes), prefix);
      var r := Offer(line, pos, names);
      assert forall k :: 0 <= k < |r| ==> r[k].display in names;
      SortedCmdsNames(exes);
      OfferExtendsLine(line, pos, names);
      assert forall k :: 0 <= k < |r| ==> r[k] in r;
      r
  }

  method CompleteCmds(line: string, pos: nat, exes: seq<string>) returns (result: seq<Pair>)
    requires pos <= |line|
    ensures result == CommandCandidates(line, pos, exes)
  {
    result := [];
    var prefix := line[pos..];
    if prefix != "" {
      var all := SortCmds(exes);
      var cmds := FilterPrefix(all, prefix);
      result := OfferPairs(line, pos, cmds);
    }
  }

  /** `complete_files`: complete the word from `pos` to the end of the line against the
      file names; an empty word is offered every file. */
  function FileCandidates(line: string, pos: nat, files: seq<string>): (r: seq<Pair>)
    requires pos <= |line|
    ensures line[pos..] == "" ==> r == Offer(line, pos, files)
    ensures forall k :: 0 <= k < |r| ==> StartsWith(r[k].display, line[pos..]) && r[k].display in files
    ensures forall k :: 0 <= k < |r| ==>
              r[k].replacement == line[..pos] + r[k].display + (if |r| == 1 then " " else "")
    ensures forall k :: 0 <= k < |r| ==> StartsWith(r[k].replacement, line)
  {
    var prefix := line[pos..];
    var names := if prefix != "" then FilterPrefix(files, prefix) else files;
    var r := Offer(line, pos, names);
    assert forall k :: 0 <= k < |r| ==> r[k].display in names;
    OfferExtendsLine(line, pos, names);
    assert forall k :: 0 <= k < |r| ==> r[k] in r;
    r
  }

  /** Every command name that starts with a non-empty word is offered, and the names
      are offered in the `sort_cmds` order. */
  lemma CommandCandidatesComplete(line: string, pos: nat, exes: seq<string>)
    requires pos <= |line|
    ensures var r := CommandCandidates(line, pos, exes);
            && (line[pos..] != "" ==> Displays(r) == FilterPrefix(SortedCmds(exes), line[pos..]))
            && forall x :: x in Displays(r) <==>
                 line[pos..] != "" && (x in BUILTIN_CMDS || x in exes) && StartsWith(x, line[pos..])
  {
    if line[pos..] != "" {
      OfferDisplays(line, pos, FilterPrefix(SortedCmds(exes), line[pos..]));
      SortedCmdsNames(exes);
    }
  }

  method CompleteFiles(line: string, pos: nat, files: seq<string>) returns (result: seq<Pair>)
    requires pos <= |line|
    ensures result == FileCandidates(line, pos, files)
  {
    var prefix := line[pos..];
    var names := files;
    if prefix != "" {
      names := FilterPrefix(names, prefix);
    }
    result := OfferPairs(line, pos, names);
  }

  /** Every file that starts with the word is offered, in the order of the file list;
      an empty word is offered every file. */
  lemma FileCandidatesComplete(line: string, pos: nat, files: seq<string>)
    requires pos <= |line|
    ensures var r := FileCandidates(line, pos, files);
            && Displays(r) == FilterPrefix(files, line[pos..])
            && forall x :: x in Displays(r) <==> x in files && StartsWith(x, line[pos..])
  {
    FilterEmptyPrefix(files);
    OfferDisplays(line, pos, FilterPrefix(files, line[pos..]));
  }

  // ---------------------------------------------------------------------------
  // Choosing the completer

  /** `str::find(|c| c != ' ')`: the first character that is not a space. */
  function FirstNonSpace(s: string): (r: Option<nat>)
    ensures r.None? <==> forall i :: 0 <= i < |s| ==> s[i] == ' '
    ensures r.Some? ==> r.value < |s| && s[r.value] != ' ' && forall i :: 0 <= i < r.value ==> s[i] == ' '
  {
    if s == [] then None
    else if s[0] != ' ' then Some(0)
    else match FirstNonSpace(s[1..])
      case None => None
      case Some(i) => Some(i + 1)
  }

  /** `pat` occurs in `s` at position `j`. */
  predicate OccursAt(s: string, pat: string, j: nat)
  {
    j + |pat| <= |s| && s[j..j + |pat|] == pat
  }

  /** The last occurrence of `pat` starting below `i`. */
  function RFindBelow(s: string, pat: string, i: nat): (r: Option<nat>)
    ensures r.Some? ==> r.value < i && OccursAt(s, pat, r.value)
    ensures forall j :: (if r.Some? then r.value + 1 else 0) <= j < i ==> !OccursAt(s, pat, j)
  {
    if i == 0 then None
    else if OccursAt(s, pat, i - 1) then Some(i - 1)
    else RFindBelow(s, pat, i - 1)
  }

  /** `str::rfind`: the start of the last occurrence of `pat`. */
  function RFind(s: string, pat: string): (r: Option<nat>)
    ensures r.Some? ==> OccursAt(s, pat, r.value)
    ensures forall j :: (if r.Some? then r.value + 1 else 0) <= j ==> !OccursAt(s, pat, j)
  {
    RFindBelow(s, pat, |s| + 1)
  }

  /** `pat` occurs at `j` and nowhere after it. */
  predicate LastOccurrence(s: string, pat: string, j: nat)
  {
    OccursAt(s, pat, j) && forall k: nat :: j < k <= |s| ==> !OccursAt(s, pat, k)
  }

  /** `pat` does not occur in `s`. */
  predicate Absent(s: string, pat: string)
  {
    forall k: nat :: k <= |s| ==> !OccursAt(s, pat, k)
  }

  /** `str::rfind` finds the last occurrence, and nothing exactly when there is none. */
  lemma RFindCharacterised(s: string, pat: string)
    ensures forall j: nat :: LastOccurrence(s, pat, j) ==> RFind(s, pat) == Some(j)
    ensures RFind(s, pat).None? <==> Absent(s, pat)
  {
    var r := RFind(s, pat);
    forall j | LastOccurrence(s, pat, j)
      ensures r == Some(j)
    {
      assert r.Some? && r.value >= j;
    }
    if r.Some? {
      assert OccursAt(s, pat, r.value);
    }
  }

  /** Only spaces from `from` to the end of the line. */
  predicate BlankFrom(line: string, from: nat)
  {
    forall i :: from <= i < |line| ==> line[i] == ' '
  }

  /** `w` is the first non-space character of the stage after the last " | ", which
      starts at `p`. */
  predicate StageWordStart(line: string, p: nat, w: nat)
  {
    && LastOccurrence(line, " | ", p)
    && p + 3 <= w < |line| && line[w] != ' '
    && forall i :: p + 3 <= i < w ==> line[i] == ' '
  }

  /** The first non-space character of the stage after `p` is found by `str::find`. */
  lemma StageWordFound(line: string, p: nat, w: nat)
    requires StageWordStart(line, p, w)
    ensures StageStart(line, p + 3) == Some(w)
  {
    var content := line[p + 3..];
    var f := FirstNonSpace(content);
    assert content[w - (p + 3)] == line[w];
    assert f.Some? && f.value <= w - (p + 3);
    assert f.value >= w - (p + 3) by {
      assert content[f.value] == line[p + 3 + f.value];
    }
  }

  /** A stage after the last " | " with no non-space character. */
  lemma StageBlank(line: string, p: nat)
    requires p + 3 <= |line| && BlankFrom(line, p + 3)
    ensures StageStart(line, p + 3).None?
  {
    var content := line[p + 3..];
    forall i | 0 <= i < |content| ensures content[i] == ' ' {
      assert content[i] == line[p + 3 + i];
    }
  }

  /** Where the first word starts: the first non-space character, or 0 on a blank line. */
  function FirstWordStart(line: string): nat
  {
    match FirstNonSpace(line)
    case Some(i) => i
    case None => 0
  }

  /** `complete`: always replaces from position 0. With no space between the first word
      and the cursor it completes a command name. Otherwise, after the last " | ", it
      completes a command when the rest of the line from its first non-space character
      has no space, files from after the last space when it has one, and nothing when
      that rest is blank. With no " | " it completes files from after the last space. */
  function Complete(line: string, pos: nat, exes: seq<string>, files: seq<string>): (r: (nat, seq<Pair>))
    requires FirstWordStart(line) <= pos <= |line|
    ensures r.0 == 0
    ensures ' ' !in line[FirstWordStart(line)..pos] ==>
              r.1 == CommandCandidates(line, FirstWordStart(line), exes)
    ensures forall k :: 0 <= k < |r.1| ==> StartsWith(r.1[k].replacement, line)
  {
    var start := FirstWordStart(line);
    if ' ' !in line[start..pos] then (0, CommandCandidates(line, start, exes))
    else
      match RFind(line, " | ")
      case Some(p) => (0, CompleteStage(line, p + 3, exes, files))
      case None => (0, CompleteLastWord(line, files))
  }

  /** The file completion of the word after the last space, if there is a space. */
  function CompleteLastWord(line: string, files: seq<string>): (r: seq<Pair>)
    ensures forall k :: 0 <= k < |r| ==> StartsWith(r[k].replacement, line)
  {
    match RFind(line, " ")
    case Some(q) => FileCandidates(line, q + 1, files)
    case None => []
  }

  /** The completion of the stage that starts at `from`, just after the last " | ":
      nothing when it is blank, otherwise from its first word on. */
  function CompleteStage(line: string, from: nat, exes: seq<string>, files: seq<string>): (r: seq<Pair>)
    requires from <= |line|
    ensures forall k :: 0 <= k < |r| ==> StartsWith(r[k].replacement, line)
  {
    match StageStart(line, from)
    case Some(w) => CompleteStageWord(line, w, exes, files)
    case None => []
  }

  /** The first non-space character from `from` on, found by `str::find` on the rest of
      the line. */
  function StageStart(line: string, from: nat): (r: Option<nat>)
    requires from <= |line|
    ensures r.Some? ==> from <= r.value < |line|
  {
    match FirstNonSpace(line[from..])
    case Some(i) => Some(from + i)
    case None => None
  }

  /** The completion of a stage whose first word starts at `w`: that word as a command
      when it runs to the end of the line, otherwise the last word as a file. */
  function CompleteStageWord(line: string, w: nat, exes: seq<string>, files: seq<string>): (r: seq<Pair>)
    requires w <= |line|
    ensures forall k :: 0 <= k < |r| ==> StartsWith(r[k].replacement, line)
  {
    if ' ' !in line[w..] then CommandCandidates(line, w, exes) else CompleteLastWord(line, files)
  }

  /** The branches of `complete` once the first word is behind the cursor. With no
      " | " the word after the last space is completed as a file. After the last " | ",
      a blank stage gets nothing; a stage whose first word runs to the end of the line is
      completed as a command from that word's first character; otherwise the word after
      the last space is completed as a file. */
  lemma CompleteAfterFirstWord(line: string, pos: nat, exes: seq<string>, files: seq<string>)
    requires FirstWordStart(line) <= pos <= |line|
    requires ' ' in line[FirstWordStart(line)..pos]
    ensures forall q: nat :: Absent(line, " | ") && LastOccurrence(line, " ", q) ==>
              Complete(line, pos, exes, files).1 == FileCandidates(line, q + 1, files)
    ensures forall p: nat :: LastOccurrence(line, " | ", p) && BlankFrom(line, p + 3) ==>
              Complete(line, pos, exes, files).1 == []
    ensures forall p: nat, w: nat :: StageWordStart(line, p, w) && ' ' !in line[w..] ==>
              Complete(line, pos, exes, files).1 == CommandCandidates(line, w, exes)
    ensures forall p: nat, w: nat, q: nat ::
              StageWordStart(line, p, w) && ' ' in line[w..] && LastOccurrence(line, " ", q) ==>
              Complete(line, pos, exes, files).1 == FileCandidates(line, q + 1, files)
  {
    forall q: nat | Absent(line, " | ") && LastOccurrence(line, " ", q)
      ensures Complete(line, pos, exes, files).1 == FileCandidates(line, q + 1, files)
    {
      RFindCharacterised(line, " | ");
      RFindCharacterised(line, " ");
    }
    forall p: nat | LastOccurrence(line, " | ", p) && BlankFrom(line, p + 3)
      ensures Complete(line, pos, exes, files).1 == []
    {
      CompleteBlankStage(line, pos, exes, files, p);
    }
    forall p: nat, w: nat | StageWordStart(line, p, w) && ' ' !in line[w..]
      ensures Complete(line, pos, exes, files).1 == CommandCandidates(line, w, exes)
    {
      CompleteStageCommand(line, pos, exes, files, p, w);
    }
    forall p: nat, w: nat, q: nat | StageWordStart(line, p, w) && ' ' in line[w..] && LastOccurrence(line, " ", q)
      ensures Complete(line, pos, exes, files).1 == FileCandidates(line, q + 1, files)
    {
      CompleteStageFile(line, pos, exes, files, p, w, q);
    }
  }

  lemma CompleteBlankStage(line: string, pos: nat, exes: seq<string>, files: seq<string>, p: nat)
    requires FirstWordStart(line) <= pos <= |line| && ' ' in line[FirstWordStart(line)..pos]
    requires LastOccurrence(line, " | ", p) && BlankFrom(line, p + 3)
    ensures Complete(line, pos, exes, files).1 == []
  {
    RFindCharacterised(line, " | ");
    assert RFind(line, " | ") == Some(p);
    StageBlank(line, p);
  }

  lemma CompleteStageCommand(line: string, pos: nat, exes: seq<string>, files: seq<string>, p: nat, w: nat)
    requires FirstWordStart(line) <= pos <= |line| && ' ' in line[FirstWordStart(line)..pos]
    requires StageWordStart(line, p, w) && ' ' !in line[w..]
    ensures Complete(line, pos, exes, files).1 == CommandCandidates(line, w, exes)
  {
    RFindCharacterised(line, " | ");
    assert RFind(line, " | ") == Some(p);
    StageCommandWord(line, p, w, exes, files);
  }

  lemma StageCommandWord(line: string, p: nat, w: nat, exes: seq<string>, files: seq<string>)
    requires StageWordStart(line, p, w) && ' ' !in line[w..]
    ensures CompleteStage(line, p + 3, exes, files) == CommandCandidates(line, w, exes)
  {
    StageWordFound(line, p, w);
    StageWordAt(line, p + 3, w, exes, files);
  }

  /** The stage after the " | " at `p` is completed from its first word at `w`. */
  lemma StageWordAt(line: string, from: nat, w: nat, exes: seq<string>, files: seq<string>)
    requires from <= w <= |line| && StageStart(line, from) == Some(w)
    ensures CompleteStage(line, from, exes, files) == CompleteStageWord(line, w, exes, files)
  {
  }

  lemma CompleteStageFile(line: string, pos: nat, exes: seq<string>, files: seq<string>, p: nat, w: nat, q: nat)
    requires FirstWordStart(line) <= pos <= |line| && ' ' in line[FirstWordStart(line)..pos]
    requires StageWordStart(line, p, w) && ' ' in line[w..] && LastOccurrence(line, " ", q)
    ensures Complete(line, pos, exes, files).1 == FileCandidates(line, q + 1, files)
  {
    RFindCharacterised(line, " | ");
    assert RFind(line, " | ") == Some(p);
    StageFileWord(line, p, w, q, exes, files);
  }

  lemma StageFileWord(line: string, p: nat, w: nat, q: nat, exes: seq<string>, files: seq<string>)
    requires StageWordStart(line, p, w) && ' ' in line[w..] && LastOccurrence(line, " ", q)
    ensures CompleteStage(line, p + 3, exes, files) == FileCandidates(line, q + 1, files)
  {
    StageWordFound(line, p, w);
    StageWordAt(line, p + 3, w, exes, files);
    LastWordFile(line, q, files);
  }

  /** With a space in the line, the word after the last one is completed as a file. */
  lemma LastWordFile(line: string, q: nat, files: seq<string>)
    requires LastOccurrence(line, " ", q)
    ensures CompleteLastWord(line, files) == FileCandidates(line, q + 1, files)
  {
    RFindCharacterised(line, " ");
    assert RFind(line, " ") == Some(q);
  }

  /** Candidates whose names extend the word being completed replace the line with a
      line that extends it. */
  lemma OfferExtendsLine(line: string, k: nat, names: seq<string>)
    requires k <= |line|
    requires forall i :: 0 <= i < |names| ==> StartsWith(names[i], line[k..])
    ensures forall c :: c in Offer(line, k, names) ==> StartsWith(c.replacement, line)
  {
    var r := Offer(line, k, names);
    forall c | c in r
      ensures StartsWith(c.replacement, line)
    {
      var i :| 0 <= i < |r| && r[i] == c;
      var w := names[i];
      assert line == line[..k] + line[k..];
      assert w == line[k..] + w[|line[k..]|..];
      assert c.replacement == line + (w[|line[k..]|..] + (if |r| == 1 then " " else ""));
    }
  }

  /** A name that differs from the prefix at some position does not start with it. */
  lemma DiffersAt(s: string, prefix: string, i: nat)
    requires i < |prefix| && i < |s| && s[i] != prefix[i]
    ensures !StartsWith(s, prefix)
  {
    if |prefix| <= |s| {
      assert s[..|prefix|][i] == s[i];
    }
  }

  /** Of the builtins, only `echo` starts with "ec". */
  lemma FilterEc()
    ensures FilterPrefix(BUILTINS_FIRST, "ec") == ["echo"]
  {
    var others := ["history", "lsbuiltin", "cd", "pwd", "type", "exit"];
    assert BUILTINS_FIRST == others + ["echo"];
    FilterPrefixAppend(others, ["echo"], "ec");
    forall k | 0 <= k < |others|
      ensures !StartsWith(others[k], "ec")
    {
      DiffersAt(others[k], "ec", if k == 5 then 1 else 0);
    }
    FilterPrefixNone(others, "ec");
    assert StartsWith("echo", "ec");
    assert FilterPrefix(["echo"], "ec") == FilterPrefix([], "ec") + ["echo"];
  }

  /** Tab after "ec" offers the one command `echo`, followed by a space. */
  lemma CompleteEchoExample()
    ensures Complete("ec", 2, [], []) == (0, [Pair("echo", "echo ")])
  {
    assert FirstNonSpace("ec") == Some(0);
    assert ' ' !in "ec"[0..2] by { assert "ec"[0..2] == "ec"; }
    assert Sort([]) == [] && Dedup([]) == [];
    assert SortedCmds([]) == BUILTINS_FIRST;
    FilterEc();
    EchoOffer();
  }

  /** The lone candidate for `echo` from the start of "ec". */
  lemma EchoOffer()
    ensures Offer("ec", 0, ["echo"]) == [Pair("echo", "echo ")]
  {
    var o := Offer("ec", 0, ["echo"]);
    assert "ec"[..0] == "";
    assert o[0].replacement == "" + "echo" + " ";
    assert "" + "echo" + " " == "echo ";
  }
}
