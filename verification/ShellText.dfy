/** The tokens of a command line as user/sh.c reads them, and the texts that a line of the
    language is written as. */
module ShellText {
  import opened ShellGrammar
  import opened ShellSyntax

  /** The part [lo, hi) of the line, as the pointers q and eq delimit it. */
  datatype Span = Span(lo: nat, hi: nat)

  predicate IsSpace(c: char) {
    c == ' ' || c == '\t' || c == '\r' || c == '\n' || c == '\U{B}'
  }

  predicate IsSymbol(c: char) {
    c == '<' || c == '|' || c == '>' || c == '&' || c == ';' || c == '(' || c == ')'
  }

  predicate InWord(c: char) {
    !IsSpace(c) && !IsSymbol(c)
  }

  function Skip(text: string, s: nat): (r: nat)
    requires s <= |text|
    ensures s <= r <= |text| && (r < |text| ==> !IsSpace(text[r]))
    decreases |text| - s
  {
    if s < |text| && IsSpace(text[s]) then Skip(text, s + 1) else s
  }

  function WordEnd(text: string, s: nat): (r: nat)
    requires s <= |text|
    ensures s <= r <= |text| && (forall i :: s <= i < r ==> InWord(text[i]))
    ensures r < |text| ==> !InWord(text[r])
    decreases |text| - s
  {
    if s < |text| && InWord(text[s]) then WordEnd(text, s + 1) else s
  }

  /** Where the token that starts at `a` ends, and what it is. */
  function TokenEnd(text: string, a: nat): (e: nat)
    requires a < |text| && !IsSpace(text[a])
    ensures a < e <= |text|
  {
    if !IsSymbol(text[a]) then WordEnd(text, a)
    else if text[a] == '>' && a + 1 < |text| && text[a + 1] == '>' then a + 2
    else a + 1
  }

  function TokenAt(text: string, a: nat): Token<Span>
    requires a < |text| && !IsSpace(text[a])
  {
    if !IsSymbol(text[a]) then Word(Span(a, TokenEnd(text, a)))
    else if TokenEnd(text, a) == a + 2 then Append
    else Sym(text[a])
  }

  /** All tokens from position `s` on. */
  function Tokens(text: string, s: nat): seq<Token<Span>>
    requires s <= |text|
    decreases |text| - s
  {
    var a := Skip(text, s);
    if a == |text| then [] else [TokenAt(text, a)] + Tokens(text, TokenEnd(text, a))
  }

  lemma SkipTwice(text: string, s: nat)
    requires s <= |text|
    ensures Tokens(text, Skip(text, s)) == Tokens(text, s)
  {
  }

  // ---- Spans and the words they stand for ----

  function Spelled(text: string, sp: Span): string {
    if sp.lo <= sp.hi <= |text| then text[sp.lo..sp.hi] else ""
  }

  function TokenText(text: string, t: Token<Span>): Token<string> {
    match t case Sym(c) => Sym(c) case Append => Append case Word(sp) => Word(Spelled(text, sp))
  }

  function TokensText(text: string, ts: seq<Token<Span>>): (r: seq<Token<string>>)
    ensures |r| == |ts| && forall i :: 0 <= i < |ts| ==> r[i] == TokenText(text, ts[i])
  {
    seq(|ts|, i requires 0 <= i < |ts| => TokenText(text, ts[i]))
  }

  function ListText(text: string, list: seq<(Span, Mode)>): (r: seq<(string, Mode)>)
    ensures |r| == |list| && forall i :: 0 <= i < |list| ==> r[i] == (Spelled(text, list[i].0), list[i].1)
  {
    seq(|list|, i requires 0 <= i < |list| => (Spelled(text, list[i].0), list[i].1))
  }

  function ArgsText(text: string, args: seq<Span>): (r: seq<string>)
    ensures |r| == |args| && forall i :: 0 <= i < |args| ==> r[i] == Spelled(text, args[i])
  {
    seq(|args|, i requires 0 <= i < |args| => Spelled(text, args[i]))
  }

  function CmdText(text: string, t: Cmd<Span>): Cmd<string> {
    match t
    case Exec(args) => Exec(ArgsText(text, args))
    case Redir(c, f, m) => Redir(CmdText(text, c), Spelled(text, f), m)
    case Pipe(l, r) => Pipe(CmdText(text, l), CmdText(text, r))
    case List(l, r) => List(CmdText(text, l), CmdText(text, r))
    case Back(c) => Back(CmdText(text, c))
  }

  function ResultText(text: string, r: Result<Span>): Result<string> {
    if r.Fail? then Fail else Ok(CmdText(text, r.cmd), TokensText(text, r.rest))
  }

  lemma Heads(text: string, ts: seq<Token<Span>>)
    ensures forall c :: Starts(TokensText(text, ts), c) <==> Starts(ts, c)
    ensures IsRedir(TokensText(text, ts)) <==> IsRedir(ts)
    ensures IsEnd(TokensText(text, ts)) <==> IsEnd(ts)
    ensures forall k :: 0 <= k <= |ts| ==> TokensText(text, ts)[k..] == TokensText(text, ts[k..])
  {
  }

  lemma {:induction false} RedirsText(text: string, list: seq<(Span, Mode)>, ts: seq<Token<Span>>)
    ensures var r, w := ParseRedirs(list, ts), ParseRedirs(ListText(text, list), TokensText(text, ts));
            && (r.NoFile? <==> w.NoFile?)
            && (r.Redirs? ==> w == Redirs(ListText(text, r.list), TokensText(text, r.rest)))
    decreases |ts|
  {
    hide Spelled;
    Heads(text, ts);
    if IsRedir(ts) && |ts| >= 2 && ts[1].Word? {
      var more := list + [(ts[1].w, ModeOf(ts[0]))];
      RedirsText(text, more, ts[2..]);
      assert ListText(text, more) == ListText(text, list) + [(Spelled(text, ts[1].w), ModeOf(ts[0]))];
      assert ModeOf(TokenText(text, ts[0])) == ModeOf(ts[0]);
    }
  }

  lemma {:induction false} WrapText(text: string, cmd: Cmd<Span>, list: seq<(Span, Mode)>)
    ensures CmdText(text, Wrap(cmd, list)) == Wrap(CmdText(text, cmd), ListText(text, list))
    decreases |list|
  {
    hide Spelled;
    if list != [] {
      WrapText(text, Redir(cmd, list[0].0, list[0].1), list[1..]);
      assert ListText(text, list)[1..] == ListText(text, list[1..]);
    }
  }

  lemma {:induction false} ArgsParse(text: string, args: seq<Span>, list: seq<(Span, Mode)>, ts: seq<Token<Span>>)
    ensures ParseArgs(ArgsText(text, args), ListText(text, list), TokensText(text, ts)) ==
            ResultText(text, ParseArgs(args, list, ts))
    decreases |ts|
  {
    hide Spelled, Wrap, ParseRedirs, IsEnd;
    Heads(text, ts);
    if IsEnd(ts) {
      WrapText(text, Exec(args), list);
    } else {
      EndNot(ts);
      EndNot(TokensText(text, ts));
      if ts[0].Word? && |args| + 1 < MAXARGS {
        RedirsText(text, list, ts[1..]);
        var more := ParseRedirs(list, ts[1..]);
        if more.Redirs? {
          ArgsParse(text, args + [ts[0].w], more.list, more.rest);
          assert ArgsText(text, args + [ts[0].w]) == ArgsText(text, args) + [Spelled(text, ts[0].w)];
        }
      }
    }
  }

  lemma EndNot<W>(ts: seq<Token<W>>)
    ensures !IsEnd(ts) ==> |ts| > 0
  {
  }

  lemma {:induction false} ExecParse(text: string, ts: seq<Token<Span>>)
    ensures ParseExec(TokensText(text, ts)) == ResultText(text, ParseExec(ts))
    decreases |ts|, 0
  {
    hide Spelled, Wrap, ParseRedirs, ParseArgs, ParseLine, Starts;
    Heads(text, ts);
    assert ListText(text, []) == [] && ArgsText(text, []) == [];
    if Starts(ts, '(') {
      StartsNot(ts, '(');
      LineParse(text, ts[1..]);
      var inner := ParseLine(ts[1..]);
      if inner.Ok? {
        Heads(text, inner.rest);
        if Starts(inner.rest, ')') {
          StartsNot(inner.rest, ')');
          RedirsText(text, [], inner.rest[1..]);
          var more := ParseRedirs([], inner.rest[1..]);
          if more.Redirs? {
            WrapText(text, inner.cmd, more.list);
          }
        }
      }
    } else {
      RedirsText(text, [], ts);
      var more := ParseRedirs([], ts);
      if more.Redirs? {
        ArgsParse(text, [], more.list, more.rest);
      }
    }
  }

  lemma StartsNot<W>(ts: seq<Token<W>>, c: char)
    requires Starts(ts, c)
    ensures |ts| > 0
  {
  }

  lemma {:induction false} PipeParse(text: string, ts: seq<Token<Span>>)
    ensures ParsePipe(TokensText(text, ts)) == ResultText(text, ParsePipe(ts))
    decreases |ts|, 1
  {
    hide Spelled, ParseExec;
    ExecParse(text, ts);
    var left := ParseExec(ts);
    if left.Ok? {
      Heads(text, left.rest);
      if Starts(left.rest, '|') {
        PipeParse(text, left.rest[1..]);
      }
    }
  }

  lemma {:induction false} BacksParse(text: string, cmd: Cmd<Span>, ts: seq<Token<Span>>)
    ensures Backs(CmdText(text, cmd), TokensText(text, ts)) == ResultText(text, Backs(cmd, ts))
    decreases |ts|
  {
    hide Spelled;
    Heads(text, ts);
    if Starts(ts, '&') {
      BacksParse(text, Back(cmd), ts[1..]);
    }
  }

  /** The parser does not look inside words: spans or strings, it builds the same tree. */
  lemma {:induction false} LineParse(text: string, ts: seq<Token<Span>>)
    ensures ParseLine(TokensText(text, ts)) == ResultText(text, ParseLine(ts))
    decreases |ts|, 2
  {
    hide Spelled, ParsePipe, Backs;
    PipeParse(text, ts);
    var first := ParsePipe(ts);
    if first.Ok? {
      BacksParse(text, first.cmd, first.rest);
      var left := Backs(first.cmd, first.rest);
      Heads(text, left.rest);
      if Starts(left.rest, ';') {
        LineParse(text, left.rest[1..]);
      }
    }
  }

  // ---- A line as text ----

  function Spell(t: Token<string>): string {
    match t case Sym(c) => [c] case Append => ">>" case Word(w) => w
  }

  /** What separates tokens: blank, tab, carriage return, newline and vertical tab. */
  predicate Gap(g: string) {
    forall i :: 0 <= i < |g| ==> g[i] == ' ' || g[i] == '\t' || g[i] == '\r' || g[i] == '\n' || g[i] == '\U{B}'
  }

  predicate GoodWord(w: string) {
    |w| > 0 && forall i :: 0 <= i < |w| ==> w[i] !in " \t\r\n\U{B}<|>&;()\0"
  }

  predicate GoodToken(t: Token<string>) {
    match t case Sym(c) => c in "<|>&;()" case Append => true case Word(w) => GoodWord(w)
  }

  ghost predicate GoodTokens(ts: seq<Token<string>>) {
    forall i :: 0 <= i < |ts| ==> GoodToken(ts[i])
  }

  /** Two tokens that would run together without something between them. */
  predicate RunTogether(t: Token<string>, u: Token<string>) {
    (t.Word? && u.Word?) || (t == Sym('>') && (u == Sym('>') || u == Append))
  }

  /** A gap before the first token, between any two, and after the last; it is empty only where it can be. */
  ghost predicate Spaced(gaps: seq<string>, ts: seq<Token<string>>) {
    && |gaps| == |ts| + 1 && (forall i :: 0 <= i < |gaps| ==> Gap(gaps[i]))
    && forall i :: 0 <= i < |ts| - 1 && RunTogether(ts[i], ts[i + 1]) ==> gaps[i + 1] != ""
  }

  /** The tokens as text, with these gaps. */
  function Lay(gaps: seq<string>, ts: seq<Token<string>>): string
    requires |gaps| == |ts| + 1
    decreases |ts|
  {
    gaps[0] + if ts == [] then "" else Spell(ts[0]) + Lay(gaps[1..], ts[1..])
  }

  lemma Chars(c: char)
    ensures IsSpace(c) <==> c == ' ' || c == '\t' || c == '\r' || c == '\n' || c == '\U{B}'
    ensures IsSymbol(c) <==> c in "<|>&;()"
    ensures InWord(c) && c != '\0' <==> c !in " \t\r\n\U{B}<|>&;()\0"
    ensures !(IsSpace(c) && IsSymbol(c))
  {
  }

  lemma {:induction false} WordEndIs(text: string, s: nat, e: nat)
    requires s <= e <= |text| && (e < |text| ==> !InWord(text[e])) && forall i :: s <= i < e ==> InWord(text[i])
    ensures WordEnd(text, s) == e
    decreases e - s
  {
    if s < e {
      WordEndIs(text, s + 1, e);
    }
  }

  lemma {:induction false} SkipIs(text: string, s: nat, e: nat)
    requires s <= e <= |text| && (e < |text| ==> !IsSpace(text[e])) && forall i :: s <= i < e ==> IsSpace(text[i])
    ensures Skip(text, s) == e
    decreases e - s
  {
    if s < e {
      SkipIs(text, s + 1, e);
    }
  }

  /** The text at `e` is the end, a gap, or a token that does not run together with `t`. */
  ghost predicate Follows(text: string, e: nat, t: Token<string>) {
    e < |text| ==> && (t.Word? ==> !InWord(text[e])) && (t == Sym('>') ==> text[e] != '>')
  }

  lemma OneToken(text: string, a: nat, t: Token<string>)
    requires GoodToken(t) && a + |Spell(t)| <= |text| && text[a..a + |Spell(t)|] == Spell(t)
    requires Follows(text, a + |Spell(t)|, t)
    ensures a < |text| && !IsSpace(text[a]) && TokenEnd(text, a) == a + |Spell(t)|
    ensures TokenText(text, TokenAt(text, a)) == t
  {
    var e := a + |Spell(t)|;
    assert text[a] == Spell(t)[0];
    Chars(text[a]);
    match t
    case Word(w) =>
      forall i | a <= i < e
        ensures InWord(text[i])
      {
        assert text[i] == text[a..e][i - a];
        Chars(text[i]);
      }
      WordEndIs(text, a, e);
    case Append =>
      assert text[a + 1] == text[a..e][1];
    case Sym(_) =>
  }

  lemma Pieces(text: string, s: nat, gap: string, word: string, rest: string)
    requires s <= |text| && text[s..] == gap + (word + rest)
    ensures s + |gap| + |word| <= |text| && text[s..s + |gap|] == gap
    ensures text[s + |gap|..s + |gap| + |word|] == word && text[s + |gap| + |word|..] == rest
  {
    var tail := text[s..];
    assert tail[..|gap|] == gap && tail[|gap|..|gap| + |word|] == word && tail[|gap| + |word|..] == rest;
    assert text[s..s + |gap|] == tail[..|gap|];
    assert text[s + |gap|..s + |gap| + |word|] == tail[|gap|..|gap| + |word|];
    assert text[s + |gap| + |word|..] == tail[|gap| + |word|..];
  }

  lemma MoreText(text: string, t: Token<Span>, rest: seq<Token<Span>>)
    ensures TokensText(text, [t] + rest) == [TokenText(text, t)] + TokensText(text, rest)
  {
  }

  lemma GapSkipped(text: string, s: nat, gap: string)
    requires Gap(gap) && s + |gap| <= |text| && text[s..s + |gap|] == gap
    requires s + |gap| < |text| ==> !IsSpace(text[s + |gap|])
    ensures Skip(text, s) == s + |gap|
  {
    forall i | s <= i < s + |gap| ensures IsSpace(text[i]) {
      assert text[i] == gap[i - s];
    }
    SkipIs(text, s, s + |gap|);
  }

  /** How the text of the rest starts. */
  lemma RestFollows(text: string, e: nat, gaps: seq<string>, t: Token<string>, ts: seq<Token<string>>)
    requires Spaced(gaps, ts) && GoodTokens(ts) && e <= |text| && text[e..] == Lay(gaps, ts)
    requires |ts| > 0 && RunTogether(t, ts[0]) ==> gaps[0] != ""
    ensures Follows(text, e, t)
  {
    if e < |text| {
      var c := text[e];
      assert c == text[e..][0];
      Chars(c);
      if gaps[0] != "" {
        assert c == gaps[0][0];
      } else if ts != [] {
        assert GoodToken(ts[0]) && c == Spell(ts[0])[0];
      }
    }
  }

  lemma SpacedRest(gaps: seq<string>, ts: seq<Token<string>>)
    requires Spaced(gaps, ts) && GoodTokens(ts) && ts != []
    ensures Spaced(gaps[1..], ts[1..]) && GoodTokens(ts[1..]) && Gap(gaps[0]) && GoodToken(ts[0])
    ensures |ts| > 1 && RunTogether(ts[0], ts[1]) ==> gaps[1] != ""
  {
    hide Gap, GoodToken, RunTogether;
    forall i | 0 <= i < |ts[1..]| - 1 && RunTogether(ts[1..][i], ts[1..][i + 1]) ensures gaps[1..][i + 1] != "" {
      assert RunTogether(ts[i + 1], ts[i + 2]);
    }
  }

  /** A gap and a token are taken off the text. */
  lemma TakeToken(text: string, s: nat, gap: string, t: Token<string>)
    requires Gap(gap) && GoodToken(t) && s + |gap| + |Spell(t)| <= |text| && text[s..s + |gap|] == gap
    requires text[s + |gap|..s + |gap| + |Spell(t)|] == Spell(t) && Follows(text, s + |gap| + |Spell(t)|, t)
    ensures TokensText(text, Tokens(text, s)) == [t] + TokensText(text, Tokens(text, s + |gap| + |Spell(t)|))
  {
    hide Gap, GoodToken, TokensText, TokenText, Skip, Follows;
    var a := s + |gap|;
    OneToken(text, a, t);
    GapSkipped(text, s, gap);
    MoreText(text, TokenAt(text, a), Tokens(text, a + |Spell(t)|));
  }

  lemma NoToken(text: string, s: nat, gap: string)
    requires Gap(gap) && s <= |text| && text[s..] == gap
    ensures TokensText(text, Tokens(text, s)) == []
  {
    assert text[s..s + |gap|] == text[s..];
    GapSkipped(text, s, gap);
  }

  /** The tokens of a text are those it was laid out from, whatever the gaps. */
  lemma {:induction false} ReadLaid(text: string, s: nat, gaps: seq<string>, ts: seq<Token<string>>)
    requires Spaced(gaps, ts) && GoodTokens(ts) && s <= |text| && text[s..] == Lay(gaps, ts)
    ensures TokensText(text, Tokens(text, s)) == ts
    decreases |ts|
  {
    hide Gap, GoodToken, GoodTokens, TokensText, Tokens, Follows, RunTogether, Spell;
    if ts == [] {
      NoToken(text, s, gaps[0]);
    } else {
      SpacedRest(gaps, ts);
      hide Spaced;
      var t, rest := ts[0], Lay(gaps[1..], ts[1..]);
      var e := s + |gaps[0]| + |Spell(t)|;
      Pieces(text, s, gaps[0], Spell(t), rest);
      hide Lay;
      RestFollows(text, e, gaps[1..], t, ts[1..]);
      TakeToken(text, s, gaps[0], t);
      ReadLaid(text, e, gaps[1..], ts[1..]);
      assert ts == [t] + ts[1..];
    }
  }

  /** Every text without a NUL is laid out from its tokens. */
  lemma {:induction false} LaidOut(text: string, s: nat) returns (gaps: seq<string>)
    requires s <= |text| && '\0' !in text
    ensures var ts := TokensText(text, Tokens(text, s));
            && |gaps| == |ts| + 1 && Spaced(gaps, ts) && GoodTokens(ts)
            && text[s..] == Lay(gaps, ts) && gaps[0] == text[s..Skip(text, s)]
    decreases |text| - s
  {
    hide Gap, GoodToken, GoodTokens, TokensText, TokenText, RunTogether, TokenEnd, TokenAt, Spaced, Lay, Spell, Skip;
    var a := Skip(text, s);
    SkipGap(text, s);
    if a == |text| {
      gaps := [text[s..a]];
      OnlyGap(text, s, gaps[0]);
    } else {
      var t, e := TokenText(text, TokenAt(text, a)), TokenEnd(text, a);
      var more := LaidOut(text, e);
      gaps := [text[s..a]] + more;
      var rest := TokensText(text, Tokens(text, e));
      MoreText(text, TokenAt(text, a), Tokens(text, e));
      Token1(text, a);
      Apart(text, a);
      SpacedCons(text[s..a], more, t, rest);
      assert text[s..] == text[s..a] + (text[a..e] + text[e..]);
      LayCons(text[s..a], more, t, rest);
    }
  }

  lemma OnlyGap(text: string, s: nat, gap: string)
    requires s <= |text| == Skip(text, s) && gap == text[s..] && Gap(gap)
    ensures var ts := TokensText(text, Tokens(text, s));
            ts == [] && Spaced([gap], ts) && GoodTokens(ts) && Lay([gap], ts) == gap
  {
  }

  lemma LayCons(gap: string, gaps: seq<string>, t: Token<string>, ts: seq<Token<string>>)
    requires |gaps| == |ts| + 1
    ensures Lay([gap] + gaps, [t] + ts) == gap + (Spell(t) + Lay(gaps, ts))
  {
    assert ([gap] + gaps)[1..] == gaps && ([t] + ts)[1..] == ts;
  }

  lemma SkipGap(text: string, s: nat)
    requires s <= |text|
    ensures Gap(text[s..Skip(text, s)])
  {
    var a := Skip(text, s);
    forall i | s <= i < a ensures IsSpace(text[i]) {
      SkipAll(text, s, i);
    }
    forall i | 0 <= i < a - s ensures IsSpace(text[s..a][i]) {
      assert text[s..a][i] == text[s + i];
    }
  }

  lemma {:induction false} SkipAll(text: string, s: nat, i: nat)
    requires s <= |text| && s <= i < Skip(text, s)
    ensures IsSpace(text[i])
    decreases |text| - s
  {
    if s < i {
      SkipAll(text, s + 1, i);
    }
  }

  /** A token of the text is a good one, spelled as it stands there. */
  lemma Token1(text: string, a: nat)
    requires a < |text| && !IsSpace(text[a]) && '\0' !in text
    ensures var t := TokenText(text, TokenAt(text, a)); GoodToken(t) && Spell(t) == text[a..TokenEnd(text, a)]
  {
    var e := TokenEnd(text, a);
    Chars(text[a]);
    if !IsSymbol(text[a]) {
      forall i | 0 <= i < e - a ensures text[a..e][i] !in " \t\r\n\U{B}<|>&;()\0" {
        assert text[a..e][i] == text[a + i];
        assert text[a + i] in text;
        Chars(text[a + i]);
      }
    }
  }

  /** Tokens that follow each other without a gap do not run together. */
  lemma Apart(text: string, a: nat)
    requires a < |text| && !IsSpace(text[a])
    ensures var e := TokenEnd(text, a);
            var ts := Tokens(text, e);
            |ts| > 0 && RunTogether(TokenText(text, TokenAt(text, a)), TokenText(text, ts[0])) ==> Skip(text, e) > e
  {
    var e := TokenEnd(text, a);
    if e < |text| {
      Chars(text[e]);
    }
  }

  lemma SpacedCons(gap: string, gaps: seq<string>, t: Token<string>, ts: seq<Token<string>>)
    requires Gap(gap) && GoodToken(t) && Spaced(gaps, ts) && GoodTokens(ts)
    requires |ts| > 0 && RunTogether(t, ts[0]) ==> gaps[0] != ""
    ensures Spaced([gap] + gaps, [t] + ts) && GoodTokens([t] + ts)
  {
    hide Gap, GoodToken, RunTogether;
  }

  // ---- Lines of the language as text ----

  /** The text is a way to write down this line. */
  ghost predicate Written(text: string, l: Line<string>, gaps: seq<string>) {
    var ts := LineTokens(l);
    LineOk(l) && GoodTokens(ts) && Spaced(gaps, ts) && text == Lay(gaps, ts)
  }

  /** However a line is written down, the parser reads it as spans that spell out its tree. */
  lemma TextRoundTrip(text: string, l: Line<string>, gaps: seq<string>)
    requires Written(text, l, gaps)
    ensures var r := ParseAll(Tokens(text, 0)); r.Ok? && r.rest == [] && CmdText(text, r.cmd) == LineTree(l)
  {
    hide Lay, ParseLine, Tokens, LineOk, LineTokens, LineTree, Spaced, GoodTokens;
    var ts := LineTokens(l);
    assert text[0..] == text;
    ReadLaid(text, 0, gaps, ts);
    assert Writes(l, ts);
    ParsesExactly(ts);
    LineParse(text, Tokens(text, 0));
  }

  /** And a text that the parser accepts is a line written down. */
  lemma OnlyLinesParse(text: string) returns (l: Line<string>, gaps: seq<string>)
    requires '\0' !in text && ParseAll(Tokens(text, 0)).Ok?
    ensures Written(text, l, gaps)
  {
    hide Lay, ParseLine, Tokens, LineOk, LineTokens, LineTree, Spaced, GoodTokens;
    LineParse(text, Tokens(text, 0));
    var ts := TokensText(text, Tokens(text, 0));
    gaps := LaidOut(text, 0);
    assert text[0..] == text;
    ParsesExactly(ts);
    l :| Writes(l, ts);
  }

  /** Every command tree that the parser's tables can hold can be written down. */
  lemma EveryTreeIsWritten<W>(t: Cmd<W>) returns (l: Line<W>)
    requires Fits(t)
    ensures LineTree(l) == t && LineOk(l)
  {
    RoundTrip(t);
    l := FindLine(PrintLine(t));
  }
}
