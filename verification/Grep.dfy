/** grep's line loop: a 1024-byte buffer filled by reads of arbitrary sizes, searched for newlines,
    edited in place and shifted down. */
module Grep {
  import opened Regex

  const BUFSIZE: nat := 1024

  /** The index of the first '\n' of s that no NUL precedes, or -1: strchr on a C string. */
  function Newline(s: string): (k: int)
    ensures -1 <= k < |s|
    ensures k >= 0 ==> s[k] == '\n' && '\n' !in s[..k] && '\0' !in s[..k]
  {
    if |s| == 0 || s[0] == '\0' then -1
    else if s[0] == '\n' then 0
    else
      var k := Newline(s[1..]);
      if k < 0 then -1
      else
        assert s[..k + 1] == [s[0]] + s[1..][..k];
        k + 1
  }

  /** What grep prints for a whole input: its matching lines in order, up to the first line that
      contains a NUL or, with its newline, exceeds BUFSIZE - 1 bytes; a last line without newline is
      never printed. */
  ghost function Output(re: string, input: string): string
    decreases |input|
  {
    var k := Newline(input);
    if k < 0 || k >= BUFSIZE - 1 then ""
    else (if Found(re, input[..k]) then input[..k + 1] else "") + Output(re, input[k + 1..])
  }

  /** The index of the first '\n' of s, or -1. */
  function LineEnd(s: string): (k: int)
    ensures -1 <= k < |s|
    ensures k >= 0 ==> s[k] == '\n' && '\n' !in s[..k]
    ensures k < 0 ==> '\n' !in s
  {
    if |s| == 0 then -1
    else if s[0] == '\n' then 0
    else
      var k := LineEnd(s[1..]);
      assert s == [s[0]] + s[1..];
      if k < 0 then -1
      else
        assert s[..k + 1] == [s[0]] + s[1..][..k];
        k + 1
  }

  /** The lines of an input, each with its newline; the last one may lack it. */
  function Lines(input: string): seq<string>
    decreases |input|
  {
    var k := LineEnd(input);
    if |input| == 0 then [] else if k < 0 then [input] else [input[..k + 1]] + Lines(input[k + 1..])
  }

  /** A line without its newline. */
  function Text(line: string): string
  {
    if |line| > 0 && line[|line| - 1] == '\n' then line[..|line| - 1] else line
  }

  /** The matching lines, in order. */
  ghost function Select(re: string, lines: seq<string>): string
  {
    if |lines| == 0 then ""
    else (if Found(re, Text(lines[0])) then lines[0] else "") + Select(re, lines[1..])
  }

  /** A line that grep can handle: it ends in a newline, fits the buffer and contains no NUL. */
  predicate Handled(line: string)
  {
    |line| <= BUFSIZE - 1 && '\0' !in line && '\n' in line
  }

  ghost predicate AllHandled(lines: seq<string>)
  {
    forall i :: 0 <= i < |lines| ==> Handled(lines[i])
  }

  lemma AllHandledCons(line: string, rest: seq<string>)
    ensures AllHandled([line] + rest) <==> Handled(line) && AllHandled(rest)
  {
    hide Handled;
    var all := [line] + rest;
    assert all[0] == line;
    assert forall i :: 0 <= i < |rest| ==> all[i + 1] == rest[i];
  }

  lemma {:induction false} NewlineIs(s: string)
    ensures LineEnd(s) >= 0 && '\0' !in s[..LineEnd(s)] ==> Newline(s) == LineEnd(s)
    ensures LineEnd(s) < 0 || '\0' in s[..LineEnd(s)] ==> Newline(s) < 0
    decreases |s|
  {
    if |s| > 0 && s[0] != '\n' {
      NewlineIs(s[1..]);
      if LineEnd(s) >= 0 {
        assert s[..LineEnd(s)] == [s[0]] + s[1..][..LineEnd(s) - 1];
      }
    }
  }

  lemma {:induction false} LineEndIs(s: string, k: nat)
    requires k < |s| && s[k] == '\n' && '\n' !in s[..k]
    ensures LineEnd(s) == k
  {
    if k > 0 {
      assert s[0] == s[..k][0] && s[1..][..k - 1] == s[..k][1..];
      LineEndIs(s[1..], k - 1);
    }
  }

  lemma LinesCons(line: string, rest: string)
    requires |line| > 0 && line[|line| - 1] == '\n' && '\n' !in line[..|line| - 1]
    ensures Lines(line + rest) == [line] + Lines(rest)
  {
    var k, s := |line| - 1, line + rest;
    assert s[..k] == line[..k];
    LineEndIs(s, k);
    assert s[..k + 1] == line && s[k + 1..] == rest;
  }

  lemma CutLine(input: string, k: nat)
    requires LineEnd(input) == k
    ensures Lines(input) == [input[..k + 1]] + Lines(input[k + 1..])
  {
    hide LineEnd;
  }

  lemma CutNothing(input: string)
    requires LineEnd(input) < 0 && |input| > 0
    ensures Lines(input) == [input] + Lines(input[|input|..])
  {
    hide LineEnd;
    assert input[|input|..] == "";
  }

  /** The first line of an input, and the rest. */
  lemma FirstLine(input: string)
    requires |input| > 0
    ensures var line, k := Lines(input)[0], LineEnd(input);
            && |line| == (if k < 0 then |input| else k + 1) && line == input[..|line|]
            && Lines(input) == [line] + Lines(input[|line|..])
            && (Handled(line) ==> k >= 0)
            && (k >= 0 ==> Text(line) == input[..k] && (Handled(line) <==> k < BUFSIZE - 1 && '\0' !in input[..k]))
  {
    hide Handled, Text, LineEnd, Lines;
    var k := LineEnd(input);
    if k >= 0 {
      CutLine(input, k);
      HandledLine(input, k);
    } else {
      CutNothing(input);
      assert input[..|input|] == input;
      Unfinished(input);
    }
  }

  lemma HandledLine(s: string, k: nat)
    requires k < |s| && s[k] == '\n'
    ensures Text(s[..k + 1]) == s[..k] && (Handled(s[..k + 1]) <==> k < BUFSIZE - 1 && '\0' !in s[..k])
  {
    var line := s[..k + 1];
    assert line == s[..k] + ['\n'];
    assert line[k] in line;
  }

  lemma Unfinished(s: string)
    requires '\n' !in s
    ensures !Handled(s)
  {
  }

  /** What becomes of the first line of an input. */
  lemma FirstOutput(re: string, input: string)
    requires |input| > 0
    ensures var line := Lines(input)[0];
            && 0 < |line| <= |input| && line == input[..|line|] && Lines(input) == [line] + Lines(input[|line|..])
            && Output(re, input) ==
               if Handled(line) then (if Found(re, Text(line)) then line else "") + Output(re, input[|line|..]) else ""
  {
    hide Found, Lines, Handled, Text, Newline, LineEnd;
    FirstLine(input);
    NewlineIs(input);
  }

  lemma {:induction false} HandledOutput(re: string, input: string)
    requires AllHandled(Lines(input))
    ensures Output(re, input) == Select(re, Lines(input))
    decreases |input|
  {
    hide Found, Handled, Text, AllHandled;
    if |input| > 0 {
      FirstOutput(re, input);
      var line := Lines(input)[0];
      var rest := input[|line|..];
      AllHandledCons(line, Lines(rest));
      HandledOutput(re, rest);
      assert ([line] + Lines(rest))[1..] == Lines(rest);
    } else {
      assert Lines(input) == [];
    }
  }

  /** With the empty pattern every line matches: all of the input should come out, and does exactly if
      grep can handle all lines. */
  lemma {:induction false} EverythingMatches(input: string)
    ensures Select("", Lines(input)) == input && |Output("", input)| <= |input|
    ensures Output("", input) == input <==> AllHandled(Lines(input))
    decreases |input|
  {
    hide Handled, Text, AllHandled, Found, Output, Lines;
    if |input| > 0 {
      FirstOutput("", input);
      var line := Lines(input)[0];
      var rest := input[|line|..];
      EmptyFound(Text(line));
      AllHandledCons(line, Lines(rest));
      EverythingMatches(rest);
      assert ([line] + Lines(rest))[1..] == Lines(rest);
      assert input == line + rest;
      Cancel(line, Output("", rest), rest);
    } else {
      NoLines(input);
    }
  }

  lemma NoLines(input: string)
    requires |input| == 0
    ensures Lines(input) == [] && AllHandled([]) && Output("", input) == ""
  {
  }

  lemma Cancel(a: string, b: string, c: string)
    ensures a + b == a + c <==> b == c
  {
    assert (a + b)[|a|..] == b && (a + c)[|a|..] == c;
  }

  lemma EmptyFound(text: string)
    ensures Found("", text)
  {
    hide Here;
    HereEmpty(text[0..]);
  }

  /** grep prints the matching lines of an input, whatever the pattern, exactly if every line ends in a
      newline, is at most BUFSIZE - 1 bytes long and contains no NUL. */
  lemma OutputIsMatchingLines(input: string)
    ensures (forall re :: Output(re, input) == Select(re, Lines(input))) <==> AllHandled(Lines(input))
  {
    hide Found, Handled, Output, Select, Lines;
    EverythingMatches(input);
    if AllHandled(Lines(input)) {
      forall re ensures Output(re, input) == Select(re, Lines(input)) {
        HandledOutput(re, input);
      }
    }
  }

  /** A NUL hides the rest of the input. */
  lemma NulHidesTheRest()
    ensures var input := "a\0b\n" + "foo\n";
            Lines(input) == ["a\0b\n", "foo\n"] && Output("", input) == "" && Select("", Lines(input)) == input
  {
    hide Select, Found, Lines;
    var input := "a\0b\n" + "foo\n";
    EverythingMatches(input);
    assert input[1..][0] == '\0';
    LinesCons("a\0b\n", "foo\n");
    LinesCons("foo\n", "");
    assert "foo\n" + "" == "foo\n" && Lines("") == [] by { NoLines(""); }
  }

  lemma {:induction false} NewlinePrefix(s: string, n: nat)
    requires n <= |s|
    ensures Newline(s[..n]) >= 0 ==> Newline(s) == Newline(s[..n])
    ensures Newline(s[..n]) < 0 ==> Newline(s) < 0 || Newline(s) >= n
    decreases |s|
  {
    if n > 0 && s[0] != '\0' && s[0] != '\n' {
      assert s[..n][1..] == s[1..][..n - 1];
      NewlinePrefix(s[1..], n - 1);
    }
  }

  /** A full buffer, or the end of the input, without a newline in it: nothing more is printed. */
  lemma OutputStops(re: string, rest: string, m: nat)
    requires m <= |rest| && Newline(rest[..m]) < 0 && (m == BUFSIZE - 1 || m == |rest|)
    ensures Output(re, rest) == ""
  {
    NewlinePrefix(rest, m);
  }

  lemma OutputLine(re: string, rest: string, m: nat, k: nat)
    requires m <= |rest| && m <= BUFSIZE - 1 && Newline(rest[..m]) == k
    ensures k < m && rest[k] == '\n'
    ensures Output(re, rest) == (if Found(re, rest[..k]) then rest[..k + 1] else "") + Output(re, rest[k + 1..])
  {
    hide Found, Newline;
    NewlinePrefix(rest, m);
  }

  /** strchr(p, '\n') in the buffer, whose bytes from m on start with a NUL. */
  method FindNewline(buf: array<char>, p: nat, m: nat) returns (q: int)
    requires p <= m < buf.Length && buf[m] == '\0'
    ensures q == if Newline(buf[p..m]) < 0 then -1 else p + Newline(buf[p..m])
  {
    var s := p;
    while buf[s] != '\0'
      invariant p <= s <= m
      invariant Newline(buf[p..m]) == if Newline(buf[s..m]) < 0 then -1 else s - p + Newline(buf[s..m])
      decreases m - s
    {
      assert buf[s..m][1..] == buf[s + 1..m];
      if buf[s] == '\n' {
        return s;
      }
      s := s + 1;
    }
    if s < m {
      assert buf[s..m][0] == '\0';
    }
    return -1;
  }

  /** memmove(buf, buf + p, m). */
  method ShiftDown(buf: array<char>, p: nat, m: nat)
    requires p + m <= buf.Length
    modifies buf
    ensures buf[..m] == old(buf[p..p + m])
  {
    var i := 0;
    while i < m
      invariant i <= m && (forall k :: 0 <= k < i ==> buf[k] == old(buf[p + k]))
      invariant forall k :: i <= k < buf.Length ==> buf[k] == old(buf[k])
    {
      buf[i] := buf[p + i];
      i := i + 1;
    }
  }

  /** Match the line buf[p..q]: its newline is overwritten by a NUL meanwhile and put back only if
      the line is printed. */
  method MatchLine(re: string, buf: array<char>, p: nat, q: nat) returns (printed: string)
    requires p <= q < buf.Length && buf[q] == '\n'
    modifies buf
    ensures printed == if Found(re, old(buf[p..q])) then old(buf[p..q + 1]) else ""
    ensures forall j :: 0 <= j < buf.Length && j != q ==> buf[j] == old(buf[j])
  {
    hide Found;
    buf[q] := '\0';
    assert buf[p..q] == old(buf[p..q]);
    var found := Match(re, buf[p..q]);
    printed := "";
    if found {
      buf[q] := '\n';
      printed := buf[p..q + 1];
    }
  }

  /** The inner loop of grep: print and consume the complete lines of buf[..m]. */
  method ScanLines(re: string, buf: array<char>, m: nat, ghost rest: string) returns (p: nat, out: string)
    requires m < buf.Length == BUFSIZE && buf[m] == '\0' && m <= |rest| && buf[..m] == rest[..m]
    modifies buf
    ensures p <= m && buf[p..m] == rest[p..m] && Newline(rest[p..m]) < 0
    ensures Output(re, rest) == out + Output(re, rest[p..])
  {
    hide Output, Found, Newline;
    p, out := 0, "";
    ghost var tail := rest;
    assert rest[0..] == rest;
    while true
      invariant p <= m && buf[m] == '\0' && tail == rest[p..] && buf[p..m] == tail[..m - p]
      invariant Output(re, rest) == out + Output(re, tail)
      decreases m - p
    {
      var q := FindNewline(buf, p, m);
      if q < 0 {
        assert rest[p..m] == tail[..m - p];
        return;
      }
      ghost var k := q - p;
      OutputLine(re, tail, m - p, k);
      ghost var b0 := buf[..];
      LineInBuffer(b0, p, m, tail, k);
      var printed := MatchLine(re, buf, p, q);
      out := out + printed;
      assert buf[q + 1..m] == b0[q + 1..m] by { SameBytes(buf[..], b0, q, m); }
      p := q + 1;
      tail := tail[k + 1..];
    }
  }

  lemma SameBytes(b: string, b0: string, q: nat, m: nat)
    requires |b| == |b0| && q < m <= |b| && forall j :: 0 <= j < |b| && j != q ==> b[j] == b0[j]
    ensures b[q + 1..m] == b0[q + 1..m]
  {
  }

  lemma LineInBuffer(b: string, p: nat, m: nat, tail: string, k: nat)
    requires p <= m <= |b| && m - p <= |tail| && b[p..m] == tail[..m - p] && k < m - p && tail[k] == '\n'
    ensures b[p + k] == '\n' && b[p..p + k] == tail[..k] && b[p..p + k + 1] == tail[..k + 1]
    ensures b[p + k + 1..m] == tail[k + 1..][..m - p - k - 1]
  {
    assert forall j :: p <= j < m ==> b[j] == b[p..m][j - p];
  }

  /** grep.  Each read delivers some positive number of the remaining bytes, at most what the buffer
      has room for; whatever the sizes, the output is the same. */
  method Grep(re: string, input: string) returns (out: string)
    ensures out == Output(re, input)
  {
    hide Output, Newline, Found;
    var buf := new char[BUFSIZE](_ => '\0');
    var m, read := 0, 0;
    out := "";
    ghost var rest := input;
    NoNewline();
    assert buf[..0] == "";
    while true
      invariant 0 <= m <= BUFSIZE - 1 && m <= |rest| && read <= |input|
      invariant rest[m..] == input[read..] && buf[..m] == rest[..m] && Newline(rest[..m]) < 0
      invariant Output(re, input) == out + Output(re, rest)
      decreases |input| - read
    {
      var room := BUFSIZE - m - 1;
      if room == 0 || read == |input| {
        OutputStops(re, rest, m);
        return;
      }
      var n: nat :| 0 < n <= room && read + n <= |input|;
      Arrived(input, rest, read, m, n);
      Fill(buf, m, input[read..read + n]);
      m, read := m + n, read + n;
      buf[m] := '\0';
      assert buf[..m] == rest[..m];
      var p, printed := ScanLines(re, buf, m, rest);
      out := out + printed;
      Consumed(input, rest, read, m, p);
      m := m - p;
      rest := rest[p..];
      ShiftDown(buf, p, m);
    }
  }

  lemma NoNewline()
    ensures Newline("") < 0
  {
  }

  lemma Arrived(input: string, rest: string, read: nat, m: nat, n: nat)
    requires m <= |rest| && read + n <= |input| && rest[m..] == input[read..]
    ensures m + n <= |rest| && rest[..m] + input[read..read + n] == rest[..m + n]
    ensures rest[m + n..] == input[read + n..]
  {
    assert input[read..][..n] == input[read..read + n];
    assert rest[m..][..n] == rest[m..m + n];
    assert rest[m..][n..] == rest[m + n..];
    assert input[read..][n..] == input[read + n..];
  }

  lemma Consumed(input: string, rest: string, read: nat, m: nat, p: nat)
    requires p <= m <= |rest| && read <= |input| && rest[m..] == input[read..]
    ensures rest[p..][m - p..] == input[read..] && rest[p..][..m - p] == rest[p..m]
  {
  }

  /** The kernel's side of read: bytes stored at buf + m. */
  method Fill(buf: array<char>, m: nat, bytes: string)
    requires m + |bytes| < buf.Length
    modifies buf
    ensures buf[..m + |bytes|] == old(buf[..m]) + bytes
  {
    forall i | m <= i < m + |bytes| {
      buf[i] := bytes[i - m];
    }
  }
}
