/** user/sh.c: the parser that moves a cursor through the line, and the in-place termination of its words. */
module Shell {
  import opened Base
  import opened ShellGrammar
  import opened ShellSyntax
  import opened ShellText

  /** The line is the text before the terminating NUL. */
  ghost predicate Holds(buf: array<char>, es: nat, text: string)
    reads buf
  {
    es < buf.Length && buf[..es] == text && buf[es] == '\0'
  }

  ghost predicate Input(buf: array<char>, es: nat, text: string)
    reads buf
  {
    Holds(buf, es, text) && forall i :: 0 <= i < |text| ==> text[i] != '\0'
  }

  /** The next token begins with one of these characters. */
  predicate HeadIn<W>(ts: seq<Token<W>>, toks: string) {
    |ts| > 0 && match ts[0] case Sym(c) => c in toks case Append => '>' in toks case Word(_) => false
  }

  method SkipSpace(buf: array<char>, s0: nat, es: nat, ghost text: string) returns (s: nat)
    requires Holds(buf, es, text) && s0 <= es
    ensures s == Skip(text, s0)
  {
    s := s0;
    while s < es && IsSpace(buf[s])
      invariant s0 <= s <= es && Skip(text, s) == Skip(text, s0)
    {
      assert text[s] == buf[s];
      s := s + 1;
    }
    if s < es {
      assert text[s] == buf[s];
    }
  }

  /** True exactly when the next token starts with one of `toks`. */
  method Peek(buf: array<char>, s0: nat, es: nat, toks: string, ghost text: string) returns (hit: bool, s: nat)
    requires Holds(buf, es, text) && s0 <= es && forall c :: c in toks ==> IsSymbol(c)
    ensures s0 <= s <= es && Tokens(text, s) == Tokens(text, s0) && (s < es ==> !IsSpace(text[s]))
    ensures hit <==> HeadIn(Tokens(text, s), toks)
    ensures hit ==> s < es
  {
    s := SkipSpace(buf, s0, es, text);
    SkipTwice(text, s0);
    hit := buf[s] != '\0' && buf[s] in toks;
    if s < es {
      assert text[s] == buf[s];
    }
  }

  /** The span is one whole word of the line. */
  ghost predicate WholeWord(text: string, sp: Span) {
    && sp.lo < sp.hi <= |text| && (forall i :: sp.lo <= i < sp.hi ==> InWord(text[i]))
    && (sp.hi < |text| ==> !InWord(text[sp.hi]))
  }

  method ScanWord(buf: array<char>, s0: nat, es: nat, ghost text: string) returns (s: nat)
    requires Holds(buf, es, text) && s0 <= es
    ensures s == WordEnd(text, s0)
  {
    s := s0;
    while s < es && !IsSpace(buf[s]) && !IsSymbol(buf[s])
      invariant s0 <= s <= es && WordEnd(text, s) == WordEnd(text, s0)
    {
      assert text[s] == buf[s];
      s := s + 1;
    }
    if s < es {
      assert text[s] == buf[s];
    }
  }

  /** Takes the next token off the line; none is left exactly at the end. */
  method GetToken(buf: array<char>, s0: nat, es: nat, ghost text: string) returns (tok: Option<Token<Span>>, s: nat)
    requires Input(buf, es, text) && s0 <= es
    ensures s0 <= s <= es
    ensures tok.None? ==> Tokens(text, s0) == [] && Tokens(text, s) == []
    ensures tok.Some? ==> s0 < s && Tokens(text, s0) == [tok.value] + Tokens(text, s)
    ensures tok.Some? && tok.value.Word? ==> WholeWord(text, tok.value.w)
  {
    s := SkipSpace(buf, s0, es, text);
    SkipTwice(text, s0);
    var q := s;
    if s < es {
      assert text[s] == buf[s];
    }
    if s + 1 < es {
      assert text[s + 1] == buf[s + 1];
    }
    if buf[s] == '\0' {
      tok := None;
    } else if buf[s] == '|' || buf[s] == '(' || buf[s] == ')' || buf[s] == ';' || buf[s] == '&' || buf[s] == '<' {
      tok := Some(Sym(buf[s]));
      s := s + 1;
    } else if buf[s] == '>' {
      s := s + 1;
      tok := Some(Sym('>'));
      if buf[s] == '>' {
        tok := Some(Append);
        s := s + 1;
      }
    } else {
      s := ScanWord(buf, s, es, text);
      tok := Some(Word(Span(q, s)));
    }
    var eq := s;
    s := SkipSpace(buf, s, es, text);
    SkipTwice(text, eq);
  }

  // ---- The parser ----

  ghost predicate ListWords(text: string, list: seq<(Span, Mode)>) {
    forall i :: 0 <= i < |list| ==> WholeWord(text, list[i].0)
  }

  /** Every word of the command is a whole word of the line. */
  ghost predicate CmdWords(text: string, t: Cmd<Span>) {
    match t
    case Exec(args) => forall i :: 0 <= i < |args| ==> WholeWord(text, args[i])
    case Redir(c, f, _) => CmdWords(text, c) && WholeWord(text, f)
    case Pipe(l, r) => CmdWords(text, l) && CmdWords(text, r)
    case List(l, r) => CmdWords(text, l) && CmdWords(text, r)
    case Back(c) => CmdWords(text, c)
  }

  lemma {:induction false} WrapWords(text: string, cmd: Cmd<Span>, list: seq<(Span, Mode)>)
    requires CmdWords(text, cmd) && ListWords(text, list)
    ensures CmdWords(text, Wrap(cmd, list))
    decreases |list|
  {
    hide WholeWord;
    if list != [] {
      WrapWords(text, Redir(cmd, list[0].0, list[0].1), list[1..]);
    }
  }

  /** The method stopped where the grammar says, with the command that the grammar gives. */
  ghost predicate Agrees(r: Result<Span>, text: string, s0: nat, ok: bool, cmd: Cmd<Span>, s: nat) {
    && (ok <==> r.Ok?)
    && (ok ==> s0 <= s <= |text| && r == Ok(cmd, Tokens(text, s)) && CmdWords(text, cmd))
  }

  lemma RedirHead<W>(ts: seq<Token<W>>)
    ensures HeadIn(ts, "<>") <==> IsRedir(ts)
    ensures HeadIn(ts, "|)&;") || |ts| == 0 <==> IsEnd(ts)
    ensures HeadIn(ts, "(") <==> Starts(ts, '(')
    ensures HeadIn(ts, ")") <==> Starts(ts, ')')
    ensures HeadIn(ts, "|") <==> Starts(ts, '|')
    ensures HeadIn(ts, "&") <==> Starts(ts, '&')
    ensures HeadIn(ts, ";") <==> Starts(ts, ';')
  {
  }

  method Redirections(buf: array<char>, s0: nat, es: nat, list0: seq<(Span, Mode)>, ghost text: string)
    returns (ok: bool, list: seq<(Span, Mode)>, s: nat)
    requires Input(buf, es, text) && s0 <= es && ListWords(text, list0)
    ensures ok <==> ParseRedirs(list0, Tokens(text, s0)).Redirs?
    ensures ok ==>
              && s0 <= s <= es && ListWords(text, list)
              && ParseRedirs(list0, Tokens(text, s0)) == Redirs(list, Tokens(text, s))
  {
    hide Tokens, IsRedir, HeadIn, WholeWord;
    var hit: bool;
    list := list0;
    hit, s := Peek(buf, s0, es, "<>", text);
    RedirHead(Tokens(text, s));
    while hit
      invariant s0 <= s <= es && ListWords(text, list)
      invariant ParseRedirs(list, Tokens(text, s)) == ParseRedirs(list0, Tokens(text, s0))
      invariant hit <==> IsRedir(Tokens(text, s))
      decreases es - s
    {
      ghost var ts := Tokens(text, s);
      var tok, file;
      tok, s := GetToken(buf, s, es, text);
      RedirSome(ts);
      file, s := GetToken(buf, s, es, text);
      if file.None? || !file.value.Word? {
        return false, list, s;
      }
      assert ts[0] == tok.value && ts[1] == file.value && ts[2..] == Tokens(text, s);
      ghost var before, mode := list, ModeOf(ts[0]);
      if tok.value == Sym('<') {
        list := list + [(file.value.w, In)];
      } else if tok.value == Sym('>') {
        list := list + [(file.value.w, Out)];
      } else {
        list := list + [(file.value.w, Add)];
      }
      assert list == before + [(ts[1].w, mode)];
      NextRedir(before, ts);
      Appended(text, before, file.value.w, mode);
      hit, s := Peek(buf, s, es, "<>", text);
      RedirHead(Tokens(text, s));
    }
    ok := true;
  }

  lemma NextRedir<W>(list: seq<(W, Mode)>, ts: seq<Token<W>>)
    requires IsRedir(ts) && |ts| >= 2 && ts[1].Word?
    ensures ParseRedirs(list, ts) == ParseRedirs(list + [(ts[1].w, ModeOf(ts[0]))], ts[2..])
  {
  }

  lemma Appended(text: string, list: seq<(Span, Mode)>, file: Span, mode: Mode)
    requires ListWords(text, list) && WholeWord(text, file)
    ensures ListWords(text, list + [(file, mode)])
  {
  }

  lemma RedirSome<W>(ts: seq<Token<W>>)
    requires IsRedir(ts)
    ensures |ts| > 0 && !ts[0].Word? && (ts[0].Sym? ==> ts[0].c == '<' || ts[0].c == '>')
  {
  }

  lemma EndOrMore<W>(ts: seq<Token<W>>)
    ensures |ts| == 0 ==> IsEnd(ts)
  {
  }

  /** A simple command: arguments and redirections in any order. */
  method ParseSimple(buf: array<char>, s0: nat, es: nat, ghost text: string) returns (ok: bool, cmd: Cmd<Span>, s: nat)
    requires Input(buf, es, text) && s0 <= es && !Starts(Tokens(text, s0), '(')
    ensures Agrees(ShellGrammar.ParseExec(Tokens(text, s0)), text, s0, ok, cmd, s)
  {
    hide Tokens, IsEnd, HeadIn, WholeWord, ParseRedirs, Wrap, Starts;
    cmd := Exec([]);
    var args: seq<Span>, list: seq<(Span, Mode)> := [], [];
    var more, hit;
    more, list, s := Redirections(buf, s0, es, [], text);
    if !more {
      return false, cmd, s;
    }
    hit, s := Peek(buf, s, es, "|)&;", text);
    RedirHead(Tokens(text, s));
    while !hit
      invariant s0 <= s <= es && ListWords(text, list) && |args| < MAXARGS
      invariant forall i :: 0 <= i < |args| ==> WholeWord(text, args[i])
      invariant ParseArgs(args, list, Tokens(text, s)) == ShellGrammar.ParseExec(Tokens(text, s0))
      invariant hit || |Tokens(text, s)| == 0 <==> IsEnd(Tokens(text, s))
      decreases !hit, es - s
    {
      ghost var ts := Tokens(text, s);
      var tok;
      tok, s := GetToken(buf, s, es, text);
      EndOrMore(ts);
      if tok.None? {
        break;
      }
      if !tok.value.Word? {
        return false, cmd, s;
      }
      assert ts[1..] == Tokens(text, s);
      args := args + [tok.value.w];
      if |args| >= MAXARGS {
        return false, cmd, s;
      }
      more, list, s := Redirections(buf, s, es, list, text);
      if !more {
        return false, cmd, s;
      }
      hit, s := Peek(buf, s, es, "|)&;", text);
      RedirHead(Tokens(text, s));
    }
    EndOrMore(Tokens(text, s));
    cmd := Wrap(Exec(args), list);
    WrapWords(text, Exec(args), list);
    ok := true;
  }

  /** A line in parentheses, then redirections. */
  method ParseBlock(buf: array<char>, s0: nat, es: nat, ghost text: string) returns (ok: bool, cmd: Cmd<Span>, s: nat)
    requires Input(buf, es, text) && s0 <= es && Starts(Tokens(text, s0), '(')
    ensures Agrees(ShellGrammar.ParseExec(Tokens(text, s0)), text, s0, ok, cmd, s)
    decreases es - s0, 0
  {
    hide Tokens, HeadIn, WholeWord, ParseRedirs, Wrap, ShellGrammar.ParseLine, IsRedir;
    ghost var ts := Tokens(text, s0);
    var tok, hit, list;
    tok, s := GetToken(buf, s0, es, text);
    assert ts[1..] == Tokens(text, s);
    ok, cmd, s := ParseLine(buf, s, es, text);
    if !ok {
      return;
    }
    ghost var rest := Tokens(text, s);
    hit, s := Peek(buf, s, es, ")", text);
    RedirHead(rest);
    if !hit {
      return false, cmd, s;
    }
    tok, s := GetToken(buf, s, es, text);
    assert rest[1..] == Tokens(text, s);
    ok, list, s := Redirections(buf, s, es, [], text);
    if ok {
      WrapWords(text, cmd, list);
      cmd := Wrap(cmd, list);
    }
  }

  method ParseExec(buf: array<char>, s0: nat, es: nat, ghost text: string) returns (ok: bool, cmd: Cmd<Span>, s: nat)
    requires Input(buf, es, text) && s0 <= es
    ensures Agrees(ShellGrammar.ParseExec(Tokens(text, s0)), text, s0, ok, cmd, s)
    decreases es - s0, 1
  {
    hide Tokens, HeadIn, Starts, ShellGrammar.ParseExec;
    var hit, s1 := Peek(buf, s0, es, "(", text);
    RedirHead(Tokens(text, s1));
    if hit {
      ok, cmd, s := ParseBlock(buf, s1, es, text);
    } else {
      ok, cmd, s := ParseSimple(buf, s1, es, text);
    }
  }

  method ParsePipe(buf: array<char>, s0: nat, es: nat, ghost text: string) returns (ok: bool, cmd: Cmd<Span>, s: nat)
    requires Input(buf, es, text) && s0 <= es
    ensures Agrees(ShellGrammar.ParsePipe(Tokens(text, s0)), text, s0, ok, cmd, s)
    decreases es - s0, 2
  {
    hide Tokens, HeadIn, ShellGrammar.ParseExec;
    ok, cmd, s := ParseExec(buf, s0, es, text);
    if !ok {
      return;
    }
    var hit;
    ghost var rest := Tokens(text, s);
    hit, s := Peek(buf, s, es, "|", text);
    RedirHead(rest);
    if hit {
      var tok, right;
      tok, s := GetToken(buf, s, es, text);
      assert rest[1..] == Tokens(text, s);
      ok, right, s := ParsePipe(buf, s, es, text);
      cmd := Pipe(cmd, right);
    }
  }

  method ParseLine(buf: array<char>, s0: nat, es: nat, ghost text: string) returns (ok: bool, cmd: Cmd<Span>, s: nat)
    requires Input(buf, es, text) && s0 <= es
    ensures Agrees(ShellGrammar.ParseLine(Tokens(text, s0)), text, s0, ok, cmd, s)
    decreases es - s0, 3
  {
    hide Tokens, HeadIn, ShellGrammar.ParsePipe;
    ok, cmd, s := ParsePipe(buf, s0, es, text);
    if !ok {
      return;
    }
    var hit, tok;
    ghost var first := ShellGrammar.ParsePipe(Tokens(text, s0));
    hit, s := Peek(buf, s, es, "&", text);
    RedirHead(Tokens(text, s));
    while hit
      invariant s0 <= s <= es && CmdWords(text, cmd)
      invariant Backs(cmd, Tokens(text, s)) == Backs(first.cmd, first.rest)
      invariant hit <==> Starts(Tokens(text, s), '&')
      decreases es - s
    {
      ghost var ts := Tokens(text, s);
      tok, s := GetToken(buf, s, es, text);
      assert ts[1..] == Tokens(text, s);
      cmd := Back(cmd);
      hit, s := Peek(buf, s, es, "&", text);
      RedirHead(Tokens(text, s));
    }
    ghost var rest := Tokens(text, s);
    hit, s := Peek(buf, s, es, ";", text);
    RedirHead(rest);
    if hit {
      var right;
      tok, s := GetToken(buf, s, es, text);
      assert rest[1..] == Tokens(text, s);
      ok, right, s := ParseLine(buf, s, es, text);
      cmd := List(cmd, right);
    }
  }

  // ---- Terminating the words in place ----

  /** Where the words of a command end. */
  ghost function Ends(t: Cmd<Span>): set<nat> {
    match t
    case Exec(args) => set i | 0 <= i < |args| :: args[i].hi
    case Redir(c, f, _) => Ends(c) + {f.hi}
    case Pipe(l, r) => Ends(l) + Ends(r)
    case List(l, r) => Ends(l) + Ends(r)
    case Back(c) => Ends(c)
  }

  lemma {:induction false} EndsInside(text: string, t: Cmd<Span>, e: nat)
    requires CmdWords(text, t) && e in Ends(t)
    ensures e <= |text| && (e < |text| ==> !InWord(text[e]))
    decreases t
  {
    match t
    case Exec(args) =>
    case Redir(c, f, _) =>
      if e in Ends(c) {
        EndsInside(text, c, e);
      }
    case Pipe(l, r) =>
      if e in Ends(l) {
        EndsInside(text, l, e);
      } else {
        EndsInside(text, r, e);
      }
    case List(l, r) =>
      if e in Ends(l) {
        EndsInside(text, l, e);
      } else {
        EndsInside(text, r, e);
      }
    case Back(c) =>
      EndsInside(text, c, e);
  }

  /** Writes a NUL at the end of every word of the command and nowhere else. */
  method NulTerminate(buf: array<char>, t: Cmd<Span>, ghost text: string)
    requires |text| < buf.Length && CmdWords(text, t)
    modifies buf
    ensures forall i :: 0 <= i < buf.Length ==> buf[i] == if i in Ends(t) then '\0' else old(buf[i])
    decreases t
  {
    match t
    case Exec(args) =>
      var i := 0;
      while i < |args|
        invariant 0 <= i <= |args|
        invariant forall j :: 0 <= j < buf.Length ==>
                    buf[j] == if exists k :: 0 <= k < i && args[k].hi == j then '\0' else old(buf[j])
      {
        buf[args[i].hi] := '\0';
        i := i + 1;
      }
    case Redir(c, f, _) =>
      NulTerminate(buf, c, text);
      buf[f.hi] := '\0';
    case Pipe(l, r) =>
      NulTerminate(buf, l, text);
      NulTerminate(buf, r, text);
    case List(l, r) =>
      NulTerminate(buf, l, text);
      NulTerminate(buf, r, text);
    case Back(c) =>
      NulTerminate(buf, c, text);
  }

  /** The C string at an address of the buffer. */
  function CString(buf: seq<char>, p: nat): string
    decreases |buf| - p
  {
    if p >= |buf| || buf[p] == '\0' then "" else [buf[p]] + CString(buf, p + 1)
  }

  /** The command as a program that reads the buffer finds it. */
  function CmdStrings(buf: seq<char>, t: Cmd<Span>): Cmd<string> {
    match t
    case Exec(args) => Exec(seq(|args|, i requires 0 <= i < |args| => CString(buf, args[i].lo)))
    case Redir(c, f, m) => Redir(CmdStrings(buf, c), CString(buf, f.lo), m)
    case Pipe(l, r) => Pipe(CmdStrings(buf, l), CmdStrings(buf, r))
    case List(l, r) => List(CmdStrings(buf, l), CmdStrings(buf, r))
    case Back(c) => Back(CmdStrings(buf, c))
  }

  lemma {:induction false} CStringIs(buf: seq<char>, lo: nat, hi: nat)
    requires lo <= hi < |buf| && buf[hi] == '\0' && forall i :: lo <= i < hi ==> buf[i] != '\0'
    ensures CString(buf, lo) == buf[lo..hi]
    decreases hi - lo
  {
    if lo < hi {
      CStringIs(buf, lo + 1, hi);
      assert buf[lo..hi] == [buf[lo]] + buf[lo + 1..hi];
    }
  }

  /** The buffer has a NUL at every place in `ends`, all outside words, and is otherwise the line. */
  ghost predicate Cut(buf: seq<char>, text: string, ends: set<nat>) {
    && |text| < |buf| && (forall i :: 0 <= i < |text| ==> text[i] != '\0')
    && (forall i :: 0 <= i < |text| ==> buf[i] == if i in ends then '\0' else text[i])
    && (forall e :: e in ends ==> e <= |text| && buf[e] == '\0' && (e < |text| ==> !InWord(text[e])))
  }

  lemma WordIs(buf: seq<char>, text: string, ends: set<nat>, sp: Span)
    requires Cut(buf, text, ends) && WholeWord(text, sp) && sp.hi in ends
    ensures CString(buf, sp.lo) == Spelled(text, sp)
  {
    CStringIs(buf, sp.lo, sp.hi);
    assert buf[sp.lo..sp.hi] == text[sp.lo..sp.hi];
  }

  lemma {:induction false} StringsAreWords(buf: seq<char>, text: string, ends: set<nat>, t: Cmd<Span>)
    requires Cut(buf, text, ends) && CmdWords(text, t) && Ends(t) <= ends
    ensures CmdStrings(buf, t) == CmdText(text, t)
    decreases t
  {
    hide Cut, WholeWord, CString, Spelled;
    match t
    case Exec(args) =>
      forall i | 0 <= i < |args|
        ensures CString(buf, args[i].lo) == Spelled(text, args[i])
      {
        assert args[i].hi in Ends(t);
        WordIs(buf, text, ends, args[i]);
      }
    case Redir(c, f, _) =>
      StringsAreWords(buf, text, ends, c);
      WordIs(buf, text, ends, f);
    case Pipe(l, r) =>
      StringsAreWords(buf, text, ends, l);
      StringsAreWords(buf, text, ends, r);
    case List(l, r) =>
      StringsAreWords(buf, text, ends, l);
      StringsAreWords(buf, text, ends, r);
    case Back(c) =>
      StringsAreWords(buf, text, ends, c);
  }

  /** Parsing and termination: the command of the grammar, with its words as C strings in the buffer. */
  method ParseText(buf: array<char>, es: nat) returns (ok: bool, cmd: Cmd<Span>)
    requires es < buf.Length && buf[es] == '\0' && forall i :: 0 <= i < es ==> buf[i] != '\0'
    modifies buf
    ensures ok <==> ParseAll(Tokens(old(buf[..es]), 0)).Ok?
    ensures ok ==> cmd == ParseAll(Tokens(old(buf[..es]), 0)).cmd
    ensures ok ==> CmdStrings(buf[..], cmd) == CmdText(old(buf[..es]), cmd)
    ensures !ok ==> buf[..] == old(buf[..])
  {
    hide Tokens, ShellGrammar.ParseLine, CmdWords, CmdStrings, CmdText, InWord;
    ghost var text := buf[..es];
    var s, hit;
    ok, cmd, s := ParseLine(buf, 0, es, text);
    if !ok {
      return;
    }
    hit, s := Peek(buf, s, es, "", text);
    AtEnd(text, s);
    if s != es {
      return false, cmd;
    }
    forall e | e in Ends(cmd)
      ensures e <= |text| && (e < |text| ==> !InWord(text[e]))
    {
      EndsInside(text, cmd, e);
    }
    NulTerminate(buf, cmd, text);
    StringsAreWords(buf[..], text, Ends(cmd), cmd);
  }

  lemma AtEnd(text: string, s: nat)
    requires s <= |text| && (s < |text| ==> !IsSpace(text[s]))
    ensures s == |text| <==> Tokens(text, s) == []
  {
  }

  /**
   * parsecmd(): it ends on every line, succeeds exactly on the texts that write down a line of the language,
   * with any white space between the tokens, and leaves a buffer in which the words of the line's tree stand
   * as C strings.
   */
  method ParseCmd(buf: array<char>, es: nat) returns (ok: bool, cmd: Cmd<Span>)
    requires es < buf.Length && buf[es] == '\0' && forall i :: 0 <= i < es ==> buf[i] != '\0'
    modifies buf
    ensures ok <==> exists l, gaps :: Written(old(buf[..es]), l, gaps)
    ensures forall l, gaps :: Written(old(buf[..es]), l, gaps) ==> CmdStrings(buf[..], cmd) == LineTree(l)
    ensures !ok ==> buf[..] == old(buf[..])
  {
    hide Tokens, ParseAll, CmdStrings, CmdText, Written, LineTree;
    ghost var text := buf[..es];
    NoNul(text);
    ok, cmd := ParseText(buf, es);
    if ok {
      ghost var l, gaps := OnlyLinesParse(text);
    }
    forall l, gaps | Written(text, l, gaps) ensures ok && CmdStrings(buf[..], cmd) == LineTree(l) {
      TextRoundTrip(text, l, gaps);
    }
  }

  lemma NoNul(text: string)
    requires forall i :: 0 <= i < |text| ==> text[i] != '\0'
    ensures '\0' !in text
  {
  }

  /** Writing a line down, with any gaps, and parsing the text gives programs exactly the words of its tree. */
  method ReadBack(l: Line<string>, gaps: seq<string>) returns (found: Cmd<string>)
    requires LineOk(l) && GoodTokens(LineTokens(l)) && Spaced(gaps, LineTokens(l))
    ensures found == LineTree(l)
  {
    hide LineOk, GoodTokens, LineTokens, Lay, CmdStrings, LineTree;
    var text := Lay(gaps, LineTokens(l));
    assert Written(text, l, gaps);
    LaidNoNul(gaps, LineTokens(l));
    var buf := new char[|text| + 1](i => if 0 <= i < |text| then text[i] else '\0');
    assert buf[..|text|] == text;
    var ok, cmd := ParseCmd(buf, |text|);
    found := CmdStrings(buf[..], cmd);
  }

  lemma {:induction false} LaidNoNul(gaps: seq<string>, ts: seq<Token<string>>)
    requires Spaced(gaps, ts) && GoodTokens(ts)
    ensures forall i :: 0 <= i < |Lay(gaps, ts)| ==> Lay(gaps, ts)[i] != '\0'
    decreases |ts|
  {
    assert Gap(gaps[0]);
    if ts != [] {
      SpacedRest(gaps, ts);
      LaidNoNul(gaps[1..], ts[1..]);
      assert GoodToken(ts[0]);
      TokenNoNul(ts[0]);
    }
  }

  lemma TokenNoNul(t: Token<string>)
    requires GoodToken(t)
    ensures forall i :: 0 <= i < |Spell(t)| ==> Spell(t)[i] != '\0'
  {
  }
}
