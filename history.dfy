/** The command history (src/drshell/commands/history.rs): an append-only log of
    submitted lines and a recall cursor moved by the Up and Down keys, together with the
    listing printed by `history`, the text written to and read from a history file, and
    the selection `append_to_file` writes. */
module HistoryLog {
  import opened Util
  import opened Numbers

  datatype Direction = Up | Down

  /** The recall cursor (`Status` in the source). */
  datatype Status = Status(pos: nat, browsing: bool, last: Direction)

  /** The status the shell starts with. */
  const INITIAL_STATUS: Status := Status(0, false, Up)

  /** The escape sequence that clears the terminal line and rewrites the prompt before a
      recalled entry is shown again. */
  const REDRAW: string := [27 as char] + "[2K\r$ "

  /** The cursor stays on an entry of a non-empty log; an empty log has never been
      browsed. */
  predicate StatusFits(len: nat, s: Status)
  {
    (len > 0 ==> s.pos < len) && (len == 0 ==> s.pos == 0 && !s.browsing)
  }

  // ---------------------------------------------------------------------------------
  // The cursor steps as written.

  /** The entry `display_previous_cmd` shows: after a Down the cursor first steps back by
      1 from the newest entry and by 2 elsewhere, floored at 0. */
  function PreviousIndex(len: nat, s: Status): (k: nat)
    requires s.pos < len
    ensures k < len
    ensures !(s.browsing && s.last == Down) ==> k == s.pos
    ensures s.browsing && s.last == Down ==> k < s.pos || k == 0
  {
    if s.browsing && s.last == Down then
      var mov := if s.pos == len - 1 then 1 else 2;
      if s.pos >= mov then s.pos - mov else 0
    else s.pos
  }

  /** The status after `display_previous_cmd`: browsing, one below the shown entry
      unless it is the oldest, direction Up. */
  function AfterPrevious(len: nat, s: Status): (t: Status)
    requires s.pos < len
    ensures t.browsing && t.last == Up && t.pos < len
  {
    var k := PreviousIndex(len, s);
    Status(if k > 0 then k - 1 else k, true, Up)
  }

  /** The entry `display_next_cmd` shows: after an Up the cursor first steps forward by 1
      from the oldest entry and by 2 elsewhere, capped at the newest. */
  function NextIndex(len: nat, s: Status): (k: nat)
    requires s.pos < len
    ensures k < len
    ensures !(s.browsing && s.last == Up) ==> k == s.pos
    ensures s.browsing && s.last == Up ==> k > s.pos || k == len - 1
  {
    if s.browsing && s.last == Up then
      var mov := if s.pos == 0 then 1 else 2;
      if s.pos + mov < len - 1 then s.pos + mov else len - 1
    else s.pos
  }

  /** The status after `display_next_cmd`: browsing, one above the shown entry unless it
      is the newest, direction Down. */
  function AfterNext(len: nat, s: Status): (t: Status)
    requires s.pos < len
    ensures t.browsing && t.last == Down && t.pos < len
  {
    var k := NextIndex(len, s);
    Status(if k < len - 1 then k + 1 else k, true, Down)
  }

  /** The text printed for a shown entry: bare on the first recall, after REDRAW while
      already browsing. */
  function ShownText(entry: string, wasBrowsing: bool): (out: string)
    ensures out == entry || out == REDRAW + entry
    ensures out == entry <==> !wasBrowsing
  {
    if wasBrowsing then REDRAW + entry else entry
  }

  /** `input_history`: the entry under the cursor while browsing, nothing otherwise. */
  function Recalled(log: seq<string>, s: Status): (r: Option<string>)
    requires StatusFits(|log|, s)
    ensures r.Some? <==> s.browsing
    ensures r.Some? ==> r.value == log[s.pos]
  {
    if s.browsing then Some(log[s.pos]) else None
  }

  // ---------------------------------------------------------------------------------
  // Listing, history files, append selection.

  /** One line of the `history` listing: the 1-based index, a space, the entry. */
  function ListingLine(i: nat, entry: string): string
  {
    FormatNat(i + 1) + " " + entry
  }

  /** How many entries `history(limit)` lists. */
  function ListedCount(len: nat, limit: Option<nat>): (n: nat)
    ensures n <= len
    ensures limit.None? ==> n == len
    ensures limit.Some? ==> n == if limit.value < len then limit.value else len
  {
    if limit.Some? && limit.value < len then limit.value else len
  }

  /** The text of the history file: every entry followed by a newline. */
  function Serialise(log: seq<string>): string
  {
    if log == [] then "" else log[0] + "\n" + Serialise(log[1..])
  }

  lemma {:induction false} SerialiseSnoc(log: seq<string>, h: string)
    ensures Serialise(log + [h]) == Serialise(log) + h + "\n"
    decreases |log|
  {
    if log == [] {
      assert log + [h] == [h];
      assert [h][1..] == [];
    } else {
      assert (log + [h])[1..] == log[1..] + [h];
      SerialiseSnoc(log[1..], h);
    }
  }

  /** The position of the first newline of `s`, or |s| when there is none. */
  function LineEnd(s: string): (k: nat)
    ensures k <= |s|
    ensures k < |s| ==> s[k] == '\n'
    ensures forall j :: 0 <= j < k ==> s[j] != '\n'
  {
    if s == [] then 0 else if s[0] == '\n' then 0 else 1 + LineEnd(s[1..])
  }

  /** A line ended by a newline loses one carriage return before it. */
  function StripCr(line: string): (r: string)
    ensures r == line || (line != [] && line[|line| - 1] == '\r' && r == line[..|line| - 1])
  {
    if line != [] && line[|line| - 1] == '\r' then line[..|line| - 1] else line
  }

  /** Rust's `str::lines`: the text cut at each newline, one carriage return before a
      newline dropped; a final newline does not start an empty line, and a final line
      without newline is kept as it is. */
  function Lines(s: string): (r: seq<string>)
    ensures r == [] <==> s == []
    ensures forall i :: 0 <= i < |r| ==> '\n' !in r[i]
    decreases |s|
  {
    if s == [] then []
    else
      var k := LineEnd(s);
      if k == |s| then [s] else [StripCr(s[..k])] + Lines(s[k + 1..])
  }

  /** An entry survives a trip through a history file. */
  predicate Storable(h: string)
  {
    '\n' !in h && (h == [] || h[|h| - 1] != '\r')
  }

  /** Writing the log to a file and reading the file back gives the same entries, when
      no entry holds a newline or ends in a carriage return. */
  lemma {:induction false} ReadBackWritten(log: seq<string>)
    requires forall i :: 0 <= i < |log| ==> Storable(log[i])
    ensures Lines(Serialise(log)) == log
    decreases |log|
  {
    if log != [] {
      var h := log[0];
      var s := Serialise(log);
      assert s == h + "\n" + Serialise(log[1..]);
      assert Storable(h);
      forall j | 0 <= j < |h| ensures s[j] != '\n' {
        assert s[j] == h[j];
        assert h[j] in h;
      }
      assert s[|h|] == '\n';
      assert LineEnd(s) == |h|;
      assert s[..|h|] == h;
      assert s[|h| + 1..] == Serialise(log[1..]);
      forall i | 0 <= i < |log[1..]| ensures Storable(log[1..][i]) {
        assert log[1..][i] == log[i + 1];
      }
      ReadBackWritten(log[1..]);
      assert log == [h] + log[1..];
    }
  }

  /** `str::split_whitespace().count()`: the number of maximal runs of non-whitespace. */
  function WordCount(s: string): (n: nat)
    ensures n == 0 <==> forall i :: 0 <= i < |s| ==> IsWhitespace(s[i])
    ensures n <= |s|
  {
    if s == [] then 0
    else
      var n := |s|;
      WordCount(s[..n - 1])
      + (if !IsWhitespace(s[n - 1]) && (n == 1 || IsWhitespace(s[n - 2])) then 1 else 0)
  }

  const APPEND_MARKER: string := "history -a "

  /** An entry that recorded an earlier `history -a <file>`. */
  predicate IsAppendMarker(h: string)
  {
    StartsWith(h, APPEND_MARKER) && WordCount(h) > 2
  }

  /** `start` is where the `append_to_file` selection begins: no marker in
      `log[start..|log|-1]`, and either `start` is 0 or the entry before it is a marker
      older than the newest entry. */
  predicate AppendStart(log: seq<string>, start: nat)
  {
    && start <= |log|
    && (forall j :: start <= j < |log| - 1 ==> !IsAppendMarker(log[j]))
    && (start > 0 ==> start - 1 < |log| - 1 && IsAppendMarker(log[start - 1]))
  }

  /** The append selection is determined by the log. */
  lemma AppendStartUnique(log: seq<string>, s1: nat, s2: nat)
    requires AppendStart(log, s1) && AppendStart(log, s2)
    ensures s1 == s2
  {
  }

  // ---------------------------------------------------------------------------------
  // The shared log and cursor.

  class HistoryStore {
    /** HISTORY_CMDS */
    var log: seq<string>
    /** HISTORY_STATUS */
    var status: Status

    ghost predicate Valid()
      reads this
    {
      StatusFits(|log|, status)
    }

    constructor()
      ensures Valid() && log == [] && status == INITIAL_STATUS
    {
      log := [];
      status := INITIAL_STATUS;
    }

    /** `save_history`: append the line as it is and put the cursor on it, not browsing,
        direction Up. */
    method SaveHistory(h: string)
      modifies this
      ensures Valid()
      ensures log == old(log) + [h]
      ensures status == Status(|log| - 1, false, Up)
    {
      log := log + [h];
      status := Status(|log| - 1, false, Up);
    }

    /** `display_previous_cmd`: nothing on an empty log; otherwise correct the cursor after
        a Down, show the entry under it and move it one older. Returns the text printed. */
    method DisplayPreviousCmd() returns (out: string)
      requires Valid()
      modifies this
      ensures Valid() && log == old(log)
      ensures old(log) == [] ==> status == old(status) && out == ""
      ensures old(log) != [] ==>
                && status == AfterPrevious(|log|, old(status))
                && out == ShownText(log[PreviousIndex(|log|, old(status))], old(status).browsing)
    {
      if log == [] {
        return "";
      }
      var pos := status.pos;
      if status.browsing && status.last == Down {
        var mov := if pos == |log| - 1 then 1 else 2;
        pos := if pos >= mov then pos - mov else 0;
      }
      var c := log[pos];
      out := if !status.browsing then c else REDRAW + c;
      if pos > 0 {
        pos := pos - 1;
      }
      status := Status(pos, true, Up);
    }

    /** `display_next_cmd`: nothing on an empty log; otherwise correct the cursor after an
        Up, show the entry under it and move it one newer. Returns the text printed. */
    method DisplayNextCmd() returns (out: string)
      requires Valid()
      modifies this
      ensures Valid() && log == old(log)
      ensures old(log) == [] ==> status == old(status) && out == ""
      ensures old(log) != [] ==>
                && status == AfterNext(|log|, old(status))
                && out == ShownText(log[NextIndex(|log|, old(status))], old(status).browsing)
    {
      if log == [] {
        return "";
      }
      var pos := status.pos;
      if status.browsing && status.last == Up {
        var mov := if pos == 0 then 1 else 2;
        pos := if pos + mov < |log| - 1 then pos + mov else |log| - 1;
      }
      var c := log[pos];
      out := if !status.browsing then c else REDRAW + c;
      if pos < |log| - 1 {
        pos := pos + 1;
      }
      status := Status(pos, true, Down);
    }

    /** `input_history`: the entry under the cursor while browsing. */
    method InputHistory() returns (r: Option<string>)
      requires Valid()
      ensures r == Recalled(log, status)
    {
      if status.browsing {
        r := Some(log[status.pos]);
      } else {
        r := None;
      }
    }

    /** `history(limit)`: the last `min(limit, len)` entries, oldest first, each with its
        1-based index. */
    method Listing(limit: Option<nat>) returns (lines: seq<string>)
      ensures var n := ListedCount(|log|, limit);
              |lines| == n
              && forall j :: 0 <= j < n ==>
                   lines[j] == ListingLine(|log| - n + j, log[|log| - n + j])
    {
      var len := |log|;
      var n := len;
      if limit.Some? {
        n := if limit.value < n then limit.value else n;
      }
      lines := [];
      var i := 0;
      while i < len
        invariant 0 <= i <= len
        invariant n == ListedCount(len, limit)
        invariant |lines| == if i <= len - n then 0 else i - (len - n)
        invariant forall j :: 0 <= j < |lines| ==>
                    lines[j] == ListingLine(len - n + j, log[len - n + j])
      {
        if i >= len - n {
          lines := lines + [ListingLine(i, log[i])];
        }
        i := i + 1;
      }
    }

    /** The buffer `write_to_file` writes over the file. */
    method WriteBuffer() returns (buffer: string)
      ensures buffer == Serialise(log)
    {
      buffer := "";
      var i := 0;
      while i < |log|
        invariant 0 <= i <= |log|
        invariant buffer == Serialise(log[..i])
      {
        SerialiseSnoc(log[..i], log[i]);
        assert log[..i + 1] == log[..i] + [log[i]];
        buffer := buffer + log[i];
        buffer := buffer + "\n";
        i := i + 1;
      }
      assert log[..i] == log;
    }

    /** `read_from_file`: append every line of the file, if it exists, leaving the cursor
        alone. The file is given by its contents (None when it does not exist). */
    method ReadFromFile(contents: Option<string>)
      requires Valid()
      modifies this
      ensures Valid() && status == old(status)
      ensures log == old(log) + (if contents.Some? then Lines(contents.value) else [])
    {
      var buffer := if contents.Some? then contents.value else "";
      var lines := Lines(buffer);
      var i := 0;
      while i < |lines|
        invariant 0 <= i <= |lines|
        invariant status == old(status)
        invariant log == old(log) + lines[..i]
        invariant Valid()
      {
        assert lines[..i + 1] == lines[..i] + [lines[i]];
        log := log + [lines[i]];
        i := i + 1;
      }
      assert lines[..i] == lines;
    }

    /** The selection of `append_to_file`: walking from the newest entry back, stop
        before the first older marker; the selection is written oldest first. */
    method AppendBuffer() returns (buffer: string, ghost start: nat)
      ensures AppendStart(log, start)
      ensures buffer == Serialise(log[start..])
    {
      var n := |log|;
      // The walk from the newest entry: cmds holds log[n-1], log[n-2], ... in that order.
      var cmds: seq<string> := [];
      var i := 0;
      while i < n
        invariant 0 <= i <= n
        invariant |cmds| == i
        invariant forall j :: 0 <= j < i ==> cmds[j] == log[n - 1 - j]
        invariant forall j :: n - i <= j < n - 1 ==> !IsAppendMarker(log[j])
      {
        var h := log[n - 1 - i];
        if i != 0 && StartsWith(h, APPEND_MARKER) && WordCount(h) > 2 {
          break;
        }
        cmds := cmds + [h];
        i := i + 1;
      }
      start := n - i;
      buffer := "";
      var k := |cmds|;
      while k > 0
        invariant 0 <= k <= |cmds|
        invariant buffer == Serialise(log[start..n - k])
      {
        k := k - 1;
        assert cmds[k] == log[n - 1 - k];
        assert log[start..n - k] == log[start..n - 1 - k] + [log[n - 1 - k]];
        SerialiseSnoc(log[start..n - 1 - k], log[n - 1 - k]);
        buffer := buffer + cmds[k];
        buffer := buffer + "\n";
      }
      assert log[start..n - k] == log[start..];
    }
  }

  // ---------------------------------------------------------------------------------
  // Properties of the steps as written.

  /** Saving, displaying and reading keep the cursor on the log. */
  lemma StepsKeepFit(log: seq<string>, s: Status, h: string, lines: seq<string>)
    requires StatusFits(|log|, s)
    ensures StatusFits(|log + [h]|, Status(|log|, false, Up))
    ensures log != [] ==> StatusFits(|log|, AfterPrevious(|log|, s))
    ensures log != [] ==> StatusFits(|log|, AfterNext(|log|, s))
    ensures StatusFits(|log + lines|, s)
  {
  }

  /** The trace from a log [e0, e1, e2] just after e2 was saved: three Up keys show e2,
      e1, e0, a fourth shows e0 again, and a Down after it shows e1. */
  lemma TraceExample()
    ensures var s0 := Status(2, false, Up);
            var s1 := AfterPrevious(3, s0);
            var s2 := AfterPrevious(3, s1);
            var s3 := AfterPrevious(3, s2);
            && PreviousIndex(3, s0) == 2 && PreviousIndex(3, s1) == 1
            && PreviousIndex(3, s2) == 0 && PreviousIndex(3, s3) == 0
            && NextIndex(3, AfterPrevious(3, s3)) == 1
  {
  }

  /** What the as-written cursor shows right after it reversed direction, for the entry
      `d` shown last: one newer than `d`, except after showing entry 1 going up, and one
      older, except after showing entry len-2 going down, where `d` is shown again. */
  lemma ReversalAsWritten(len: nat, d: nat)
    requires d < len
    ensures var up := Status(if d > 0 then d - 1 else d, true, Up);
            NextIndex(len, up) == if d == 1 then 1 else if d + 1 < len then d + 1 else d
    ensures var down := Status(if d < len - 1 then d + 1 else d, true, Down);
            PreviousIndex(len, down) ==
              if 0 < d && d == len - 2 then d else if d > 0 then d - 1 else 0
  {
  }

  /** The line the shell runs after a single Up key on a log of at least two entries
      with the cursor reset by saving is not the line shown. */
  lemma RecallNotShown(log: seq<string>)
    requires |log| >= 2 && log[|log| - 1] != log[|log| - 2]
    ensures var s := Status(|log| - 1, false, Up);
            var shown := log[PreviousIndex(|log|, s)];
            Recalled(log, AfterPrevious(|log|, s)) == Some(log[|log| - 2])
            && shown == log[|log| - 1] && shown != log[|log| - 2]
  {
  }

  // ---------------------------------------------------------------------------------
  // The corrected cursor: `pos` is the entry on screen while browsing.

  /** The entry the Up key should show: the newest entry first, then one older each time,
      stopping at the oldest. */
  function CorrectedPreviousIndex(len: nat, s: Status): (k: nat)
    requires s.pos < len
    ensures k < len
    ensures !s.browsing ==> k == s.pos
    ensures s.browsing ==> k == if s.pos > 0 then s.pos - 1 else 0
  {
    if !s.browsing then s.pos else if s.pos > 0 then s.pos - 1 else 0
  }

  /** The entry the Down key should show: one newer each time, stopping at the newest. */
  function CorrectedNextIndex(len: nat, s: Status): (k: nat)
    requires s.pos < len
    ensures k < len
    ensures !s.browsing ==> k == s.pos
    ensures s.browsing ==> k == if s.pos < len - 1 then s.pos + 1 else len - 1
  {
    if !s.browsing then s.pos else if s.pos < len - 1 then s.pos + 1 else len - 1
  }

  function CorrectedAfterPrevious(len: nat, s: Status): (t: Status)
    requires s.pos < len
    ensures t.browsing && t.pos == CorrectedPreviousIndex(len, s) && t.pos < len
  {
    Status(CorrectedPreviousIndex(len, s), true, Up)
  }

  function CorrectedAfterNext(len: nat, s: Status): (t: Status)
    requires s.pos < len
    ensures t.browsing && t.pos == CorrectedNextIndex(len, s) && t.pos < len
  {
    Status(CorrectedNextIndex(len, s), true, Down)
  }

  /** With the corrected cursor the line recalled on Enter is the line on screen, after
      either key. */
  lemma CorrectedRecallIsShown(log: seq<string>, s: Status)
    requires log != [] && StatusFits(|log|, s)
    ensures Recalled(log, CorrectedAfterPrevious(|log|, s))
            == Some(log[CorrectedPreviousIndex(|log|, s)])
    ensures Recalled(log, CorrectedAfterNext(|log|, s))
            == Some(log[CorrectedNextIndex(|log|, s)])
  {
  }

  /** With the corrected cursor a reversal shows the neighbour of the entry on screen:
      one newer after Up, one older after Down, bounded by the ends of the log. */
  lemma CorrectedReversal(len: nat, s: Status)
    requires s.pos < len && s.browsing
    ensures var d := CorrectedPreviousIndex(len, s);
            CorrectedNextIndex(len, CorrectedAfterPrevious(len, s))
              == if d < len - 1 then d + 1 else d
    ensures var d := CorrectedNextIndex(len, s);
            CorrectedPreviousIndex(len, CorrectedAfterNext(len, s))
              == if d > 0 then d - 1 else 0
  {
  }

  /** The corrected cursor walks back through the whole log from the newest entry and
      stays at the oldest. */
  lemma {:induction false} CorrectedWalkBack(len: nat, k: nat)
    requires len > 0 && k < len
    ensures CorrectedPreviousIndex(len, UpPresses(len, k)) == len - 1 - k
    ensures CorrectedPreviousIndex(len, UpPresses(len, len)) == 0
  {
    UpPressesPos(len, k);
    UpPressesPos(len, len);
  }

  /** The status after `k` Up keys with the corrected cursor, starting just after a save. */
  function UpPresses(len: nat, k: nat): (s: Status)
    requires len > 0
    ensures s.pos < len
  {
    if k == 0 then Status(len - 1, false, Up)
    else CorrectedAfterPrevious(len, UpPresses(len, k - 1))
  }

  lemma {:induction false} UpPressesPos(len: nat, k: nat)
    requires len > 0
    ensures k > 0 ==> UpPresses(len, k).browsing
    ensures k > 0 ==> UpPresses(len, k).pos == if k <= len - 1 then len - k else 0
    ensures k == 0 ==> UpPresses(len, k) == Status(len - 1, false, Up)
  {
    if k > 0 {
      UpPressesPos(len, k - 1);
    }
  }
}
