/** The `echo` builtin (src/drshell/commands/echo.rs): its arguments separated by single
    spaces and ended by a newline, or with no argument a copy of standard input. */
module Echo {
  import opened Util

  /** The words separated by single spaces. */
  function JoinSpace(words: seq<string>): string
    requires words != []
  {
    if |words| == 1 then words[0] else words[0] + " " + JoinSpace(words[1..])
  }

  /** Each word followed by a space, as the loop prints all arguments but the last. */
  function SpaceAfterEach(words: seq<string>): string
  {
    if words == [] then "" else words[0] + " " + SpaceAfterEach(words[1..])
  }

  lemma {:induction false} SpaceAfterEachSnoc(words: seq<string>, w: string)
    ensures SpaceAfterEach(words + [w]) == SpaceAfterEach(words) + w + " "
  {
    if words != [] {
      assert (words + [w])[1..] == words[1..] + [w];
      SpaceAfterEachSnoc(words[1..], w);
    }
  }

  /** Printing every word but the last with a space after it, then the last, gives the
      words joined by spaces. */
  lemma {:induction false} SpaceAfterEachThenLast(words: seq<string>, last: string)
    ensures SpaceAfterEach(words) + last == JoinSpace(words + [last])
  {
    if words != [] {
      assert (words + [last])[1..] == words[1..] + [last];
      SpaceAfterEachThenLast(words[1..], last);
    }
  }

  /** `echo`: with arguments, print all but the last each followed by a space, then the
      last and a newline; without, copy each line read from stdin until a read returns
      0 bytes or fails, reporting a failed read. */
  method Echo(args: seq<string>, stdin: StdinScript) returns (out: string, diagnostics: seq<string>)
    ensures args != [] ==> out == JoinSpace(args) + "\n" && diagnostics == []
    ensures args == [] ==> out == Concat(stdin.lines)
    ensures args == [] ==> diagnostics == if stdin.end == ReadFailure then [READ_STDIN_ERROR] else []
  {
    out := "";
    diagnostics := [];
    if args == [] {
      out := AppendLines(out, stdin.lines);
      if stdin.end == ReadFailure {
        diagnostics := [READ_STDIN_ERROR];
      }
    } else {
      var last := args[|args| - 1];
      var init := args[..|args| - 1];
      var i := 0;
      while i < |init|
        invariant 0 <= i <= |init|
        invariant out == SpaceAfterEach(init[..i])
      {
        SpaceAfterEachSnoc(init[..i], init[i]);
        assert init[..i + 1] == init[..i] + [init[i]];
        out := out + init[i] + " ";
        i := i + 1;
      }
      assert init[..i] == init;
      SpaceAfterEachThenLast(init, last);
      assert init + [last] == args;
      out := out + last + "\n";
    }
  }

  /** The first space in `s`. */
  function IndexOfSpace(s: string): (r: Option<nat>)
    ensures r.None? <==> ' ' !in s
    ensures r.Some? ==> r.value < |s| && s[r.value] == ' ' && ' ' !in s[..r.value]
  {
    if s == [] then None
    else if s[0] == ' ' then Some(0)
    else match IndexOfSpace(s[1..])
      case None => None
      case Some(i) =>
        assert s[..i + 1] == [s[0]] + s[1..][..i];
        Some(i + 1)
  }

  /** The pieces of `s` between single spaces. */
  function SplitSpace(s: string): seq<string>
    decreases |s|
  {
    match IndexOfSpace(s)
    case None => [s]
    case Some(i) => [s[..i]] + SplitSpace(s[i + 1..])
  }

  /** The echoed words are recovered by splitting the output line at each space, as long
      as no word holds a space itself. */
  lemma {:induction false} EchoWordsRecovered(words: seq<string>)
    requires words != [] && forall k :: 0 <= k < |words| ==> ' ' !in words[k]
    ensures SplitSpace(JoinSpace(words)) == words
    decreases |words|
  {
    if |words| > 1 {
      var s := JoinSpace(words);
      var w := words[0];
      assert s == w + " " + JoinSpace(words[1..]);
      assert s[..|w|] == w && s[|w|] == ' ';
      assert IndexOfSpace(s) == Some(|w|) by {
        assert forall j :: 0 <= j < |w| ==> s[j] == w[j];
        assert s[..|w| + 1][|w|] == ' ';
      }
      assert s[|w| + 1..] == JoinSpace(words[1..]);
      EchoWordsRecovered(words[1..]);
      assert words == [w] + words[1..];
    } else {
      assert JoinSpace(words) == words[0];
    }
  }
}
