/** Small shared vocabulary of the drshell model: optional values and results (Rust's
    Option and Result), the argument vector of a process to spawn (std::process::Command
    as far as the shell sets it up), a script of standard-input reads, and the string
    helpers the shell relies on (prefix tests, concatenation, Rust's notion of
    whitespace and str::trim_end). */
module Util {

  datatype Option<T> = None | Some(value: T)

  datatype Result<T, E> = Ok(value: T) | Err(error: E)

  /** A program together with the arguments it is started with. */
  datatype Command = Command(program: string, args: seq<string>)

  /** How a sequence of `read_line` calls on standard input ends: a read of 0 bytes
      (end of file) or a read error. */
  datatype StdinEnd = Eof | ReadFailure

  /** The successive non-empty results of `read_line`, followed by how reading stopped. */
  datatype StdinScript = StdinScript(lines: seq<string>, end: StdinEnd)

  const READ_STDIN_ERROR: string := "read stdin error!!!"

  /** The strings of `ss` written one after the other. */
  function Concat(ss: seq<string>): string
  {
    if ss == [] then "" else Concat(ss[..|ss| - 1]) + ss[|ss| - 1]
  }

  lemma ConcatSnoc(ss: seq<string>, s: string)
    ensures Concat(ss + [s]) == Concat(ss) + s
  {
    assert (ss + [s])[..|ss|] == ss;
  }

  /** The read loop shared by `echo` and the redirect sink: every line read is appended
      to what was there, in order. */
  method AppendLines(start: string, lines: seq<string>) returns (out: string)
    ensures out == start + Concat(lines)
  {
    out := start;
    var i := 0;
    while i < |lines|
      invariant 0 <= i <= |lines|
      invariant out == start + Concat(lines[..i])
    {
      var line := lines[i];
      ConcatSnoc(lines[..i], line);
      assert lines[..i + 1] == lines[..i] + [line];
      out := out + line;
      assert out == start + (Concat(lines[..i]) + line);
      i := i + 1;
    }
    assert lines[..i] == lines;
  }

  predicate StartsWith(s: string, prefix: string)
  {
    |prefix| <= |s| && s[..|prefix|] == prefix
  }

  /** Rust's `char::is_whitespace`: the Unicode White_Space property. */
  predicate IsWhitespace(c: char)
  {
    var n := c as int;
    (9 <= n <= 13) || n == 32 || n == 0x85 || n == 0xA0 || n == 0x1680
    || (0x2000 <= n <= 0x200A) || n == 0x2028 || n == 0x2029 || n == 0x202F
    || n == 0x205F || n == 0x3000
  }

  /** Rust's `str::trim_end`: drop trailing whitespace. */
  function TrimEnd(s: string): (r: string)
    ensures |r| <= |s| && r == s[..|r|]
    ensures r == [] || !IsWhitespace(r[|r| - 1])
    ensures forall i :: |r| <= i < |s| ==> IsWhitespace(s[i])
  {
    if s == [] || !IsWhitespace(s[|s| - 1]) then s else TrimEnd(s[..|s| - 1])
  }
}
