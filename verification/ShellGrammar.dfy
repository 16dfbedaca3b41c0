/**
 * The command language of user/sh.c over tokens: what the parser accepts, and how a command tree
 * is written down. `W` is whatever stands for a word: a span of the input or a string.
 */
module ShellGrammar {
  datatype Token<W> = Sym(c: char) | Append | Word(w: W)

  datatype Mode = In | Out | Add

  datatype Cmd<W> =
    | Exec(args: seq<W>)
    | Redir(cmd: Cmd<W>, file: W, mode: Mode)
    | Pipe(left: Cmd<W>, right: Cmd<W>)
    | List(left: Cmd<W>, right: Cmd<W>)
    | Back(cmd: Cmd<W>)

  /** A command and the tokens after it, or a panic of the parser. */
  datatype Result<W> = Fail | Ok(cmd: Cmd<W>, rest: seq<Token<W>>)

  datatype Redirs<W> = NoFile | Redirs(list: seq<(W, Mode)>, rest: seq<Token<W>>)

  const MAXARGS := 10

  predicate Starts<W>(ts: seq<Token<W>>, c: char) {
    |ts| > 0 && ts[0].Sym? && ts[0].c == c
  }

  predicate IsRedir<W>(ts: seq<Token<W>>) {
    Starts(ts, '<') || Starts(ts, '>') || (|ts| > 0 && ts[0].Append?)
  }

  /** The tokens that end a simple command. */
  predicate IsEnd<W>(ts: seq<Token<W>>) {
    |ts| == 0 || Starts(ts, '|') || Starts(ts, ')') || Starts(ts, '&') || Starts(ts, ';')
  }

  function ModeOf<W>(t: Token<W>): Mode {
    if t.Append? then Add else if t.Sym? && t.c == '<' then In else Out
  }

  // ---- The parser ----

  /** parseredirs(): the redirections that come next, in order. */
  function ParseRedirs<W>(list: seq<(W, Mode)>, ts: seq<Token<W>>): (r: Redirs<W>)
    ensures r.Redirs? ==> |r.rest| <= |ts| && !IsRedir(r.rest)
    decreases |ts|
  {
    if !IsRedir(ts) then Redirs(list, ts)
    else if |ts| < 2 || !ts[1].Word? then NoFile
    else ParseRedirs(list + [(ts[1].w, ModeOf(ts[0]))], ts[2..])
  }

  /** Redirections wrap the command from the inside out. */
  function Wrap<W>(cmd: Cmd<W>, list: seq<(W, Mode)>): Cmd<W>
    decreases |list|
  {
    if list == [] then cmd else Wrap(Redir(cmd, list[0].0, list[0].1), list[1..])
  }

  /** The loop of parseexec(). */
  function ParseArgs<W>(args: seq<W>, list: seq<(W, Mode)>, ts: seq<Token<W>>): (r: Result<W>)
    ensures r.Ok? ==> |r.rest| <= |ts|
    decreases |ts|
  {
    if IsEnd(ts) then Ok(Wrap(Exec(args), list), ts)
    else if !ts[0].Word? || |args| + 1 >= MAXARGS then Fail
    else
      var more := ParseRedirs(list, ts[1..]);
      if more.NoFile? then Fail else ParseArgs(args + [ts[0].w], more.list, more.rest)
  }

  function ParseExec<W>(ts: seq<Token<W>>): (r: Result<W>)
    ensures r.Ok? ==> |r.rest| <= |ts|
    decreases |ts|, 0
  {
    if Starts(ts, '(') then
      var inner := ParseLine(ts[1..]);
      if inner.Fail? || !Starts(inner.rest, ')') then Fail
      else
        var more := ParseRedirs([], inner.rest[1..]);
        if more.NoFile? then Fail else Ok(Wrap(inner.cmd, more.list), more.rest)
    else
      var more := ParseRedirs([], ts);
      if more.NoFile? then Fail else ParseArgs([], more.list, more.rest)
  }

  function ParsePipe<W>(ts: seq<Token<W>>): (r: Result<W>)
    ensures r.Ok? ==> |r.rest| <= |ts|
    decreases |ts|, 1
  {
    var left := ParseExec(ts);
    if left.Fail? || !Starts(left.rest, '|') then left
    else
      var right := ParsePipe(left.rest[1..]);
      if right.Fail? then Fail else Ok(Pipe(left.cmd, right.cmd), right.rest)
  }

  /** The ampersands after a pipeline. */
  function Backs<W>(cmd: Cmd<W>, ts: seq<Token<W>>): (r: Result<W>)
    ensures r.Ok? && |r.rest| <= |ts|
    decreases |ts|
  {
    if Starts(ts, '&') then Backs(Back(cmd), ts[1..]) else Ok(cmd, ts)
  }

  function ParseLine<W>(ts: seq<Token<W>>): (r: Result<W>)
    ensures r.Ok? ==> |r.rest| <= |ts|
    decreases |ts|, 2
  {
    var first := ParsePipe(ts);
    if first.Fail? then Fail
    else
      var left := Backs(first.cmd, first.rest);
      if !Starts(left.rest, ';') then left
      else
        var right := ParseLine(left.rest[1..]);
        if right.Fail? then Fail else Ok(List(left.cmd, right.cmd), right.rest)
  }

  /** parsecmd(): the whole input must be one line. */
  function ParseAll<W>(ts: seq<Token<W>>): Result<W> {
    var r := ParseLine(ts);
    if r.Ok? && r.rest != [] then Fail else r
  }

  // ---- The printer ----

  function Words<W>(args: seq<W>): seq<Token<W>> {
    seq(|args|, i requires 0 <= i < |args| => Word(args[i]))
  }

  function RedirToken<W>(mode: Mode): Token<W> {
    match mode case In => Sym('<') case Out => Sym('>') case Add => Append
  }

  function PrintRedirs<W>(list: seq<(W, Mode)>): seq<Token<W>> {
    if list == [] then [] else [RedirToken(list[0].1), Word(list[0].0)] + PrintRedirs(list[1..])
  }

  function PrintExec<W>(t: Cmd<W>): seq<Token<W>>
    decreases t, 1
  {
    match t
    case Exec(args) => Words(args)
    case Redir(c, f, m) => PrintExec(c) + [RedirToken(m), Word(f)]
    case Pipe(_, _) => [Sym('(')] + PrintPipe(t) + [Sym(')')]
    case Back(_) => [Sym('(')] + PrintBacks(t) + [Sym(')')]
    case List(_, _) => [Sym('(')] + PrintLine(t) + [Sym(')')]
  }

  function PrintPipe<W>(t: Cmd<W>): seq<Token<W>>
    decreases t, if t.Pipe? then 0 else 2
  {
    if t.Pipe? then PrintExec(t.left) + [Sym('|')] + PrintPipe(t.right) else PrintExec(t)
  }

  function PrintBacks<W>(t: Cmd<W>): seq<Token<W>>
    decreases t, if t.Back? then 0 else 3
  {
    if t.Back? then PrintBacks(t.cmd) + [Sym('&')] else PrintPipe(t)
  }

  function PrintLine<W>(t: Cmd<W>): seq<Token<W>>
    decreases t, if t.List? then 0 else 4
  {
    if t.List? then PrintBacks(t.left) + [Sym(';')] + PrintLine(t.right) else PrintBacks(t)
  }

  /** No simple command has more arguments than the parser takes. */
  ghost predicate Fits<W>(t: Cmd<W>) {
    match t
    case Exec(args) => |args| < MAXARGS
    case Redir(c, _, _) => Fits(c)
    case Pipe(l, r) => Fits(l) && Fits(r)
    case List(l, r) => Fits(l) && Fits(r)
    case Back(c) => Fits(c)
  }

  // ---- Reading back what was printed ----

  /** What may follow a pipeline's last command. */
  predicate Stops<W>(ts: seq<Token<W>>) {
    |ts| == 0 || Starts(ts, ')') || Starts(ts, '&') || Starts(ts, ';')
  }

  /** Which of the four levels reads a tree directly; the others go through it in turn. */
  ghost function Rank<W>(t: Cmd<W>, level: nat): int {
    var own := if t.Pipe? then 1 else if t.Back? then 2 else if t.List? then 3 else 0;
    if level < own then level + 4 - own else level - own
  }

  lemma {:induction false} ReadRedirs<W>(before: seq<(W, Mode)>, list: seq<(W, Mode)>, rest: seq<Token<W>>)
    requires !IsRedir(rest)
    ensures ParseRedirs(before, PrintRedirs(list) + rest) == Redirs(before + list, rest)
    decreases |list|
  {
    if list == [] {
      assert PrintRedirs(list) + rest == rest;
      assert before + list == before;
    } else {
      var ts := PrintRedirs(list) + rest;
      assert ts[2..] == PrintRedirs(list[1..]) + rest;
      ReadRedirs(before + [list[0]], list[1..], rest);
      assert before + [list[0]] + list[1..] == before + list;
      assert ModeOf(ts[0]) == list[0].1;
    }
  }

  lemma {:induction false} ReadWords<W>(args: seq<W>, more: seq<W>, list: seq<(W, Mode)>, rest: seq<Token<W>>)
    requires IsEnd(rest) && more != [] && |args| + |more| < MAXARGS
    ensures ParseArgs(args, [], Words(more) + PrintRedirs(list) + rest) == Ok(Wrap(Exec(args + more), list), rest)
    decreases |more|
  {
    hide PrintRedirs, Wrap;
    var ts := Words(more) + PrintRedirs(list) + rest;
    var tail := Words(more[1..]) + PrintRedirs(list) + rest;
    assert ts[1..] == tail;
    if |more| == 1 {
      assert tail == PrintRedirs(list) + rest;
      ReadRedirs([], list, rest);
      assert [] + list == list;
      assert args + [more[0]] == args + more;
    } else {
      assert tail[0] == Word(more[1]);
      assert ParseRedirs([], tail) == Redirs([], tail);
      ReadWords(args + [more[0]], more[1..], list, rest);
      assert args + [more[0]] + more[1..] == args + more;
    }
  }

  lemma NoBlock<W>(list: seq<(W, Mode)>, rest: seq<Token<W>>)
    requires IsEnd(rest)
    ensures !Starts(PrintRedirs(list) + rest, '(')
  {
  }

  lemma NoRedirs<W>(ts: seq<Token<W>>)
    requires |ts| > 0 && ts[0].Word?
    ensures ParseRedirs([], ts) == Redirs([], ts)
  {
  }

  /** A simple command with its redirections. */
  lemma ReadSimple<W>(args: seq<W>, list: seq<(W, Mode)>, rest: seq<Token<W>>)
    requires IsEnd(rest) && |args| < MAXARGS
    ensures ParseExec(Words(args) + PrintRedirs(list) + rest) == Ok(Wrap(Exec(args), list), rest)
  {
    hide Wrap, ParseLine, PrintRedirs, ParseRedirs;
    var ts := Words(args) + PrintRedirs(list) + rest;
    if args == [] {
      assert ts == PrintRedirs(list) + rest;
      ReadRedirs([], list, rest);
      assert [] + list == list;
      NoBlock(list, rest);
    } else {
      assert ts[0] == Word(args[0]);
      NoRedirs(ts);
      ReadWords([], args, list, rest);
      assert [] + args == args;
    }
  }

  /** A line in parentheses, with redirections. */
  lemma ReadBlock<W>(t: Cmd<W>, list: seq<(W, Mode)>, rest: seq<Token<W>>)
    requires IsEnd(rest)
    requires ParseLine(PrintLine(t) + ([Sym(')')] + (PrintRedirs(list) + rest))) ==
             Ok(t, [Sym(')')] + (PrintRedirs(list) + rest))
    ensures ParseExec([Sym('(')] + PrintLine(t) + [Sym(')')] + PrintRedirs(list) + rest) == Ok(Wrap(t, list), rest)
  {
    hide PrintLine, ParseLine, PrintRedirs, ParseRedirs, Wrap, ParseArgs;
    var ts := [Sym('(')] + PrintLine(t) + [Sym(')')] + PrintRedirs(list) + rest;
    var after := [Sym(')')] + (PrintRedirs(list) + rest);
    assert ts[1..] == PrintLine(t) + after;
    assert after[1..] == PrintRedirs(list) + rest;
    ReadRedirs([], list, rest);
    assert [] + list == list;
  }

  lemma {:induction false} ReadExec<W>(t: Cmd<W>, list: seq<(W, Mode)>, rest: seq<Token<W>>)
    requires IsEnd(rest) && Fits(t)
    ensures ParseExec(PrintExec(t) + PrintRedirs(list) + rest) == Ok(Wrap(t, list), rest)
    decreases t, Rank(t, 0)
  {
    match t
    case Exec(args) =>
      ReadSimple(args, list, rest);
    case Redir(c, f, m) =>
      ReadExec(c, [(f, m)] + list, rest);
      assert PrintRedirs([(f, m)] + list) == [RedirToken(m), Word(f)] + PrintRedirs(list) by {
        assert ([(f, m)] + list)[1..] == list;
      }
      assert PrintExec(t) + PrintRedirs(list) + rest == PrintExec(c) + PrintRedirs([(f, m)] + list) + rest;
      assert ([(f, m)] + list)[1..] == list;
    case Pipe(_, _) =>
      ReadLine(t, [Sym(')')] + (PrintRedirs(list) + rest));
      ReadBlock(t, list, rest);
      assert PrintLine(t) == PrintPipe(t);
    case Back(_) =>
      ReadLine(t, [Sym(')')] + (PrintRedirs(list) + rest));
      ReadBlock(t, list, rest);
      assert PrintLine(t) == PrintBacks(t);
    case List(_, _) =>
      ReadLine(t, [Sym(')')] + (PrintRedirs(list) + rest));
      ReadBlock(t, list, rest);
  }

  lemma {:induction false} ReadPipe<W>(t: Cmd<W>, rest: seq<Token<W>>)
    requires Stops(rest) && Fits(t)
    ensures ParsePipe(PrintPipe(t) + rest) == Ok(t, rest)
    decreases t, Rank(t, 1)
  {
    hide ParseExec, PrintExec;
    if t.Pipe? {
      var after := [Sym('|')] + (PrintPipe(t.right) + rest);
      ReadExec(t.left, [], after);
      assert PrintPipe(t) + rest == PrintExec(t.left) + PrintRedirs([]) + after;
      assert after[1..] == PrintPipe(t.right) + rest;
      ReadPipe(t.right, rest);
    } else {
      ReadExec(t, [], rest);
      assert PrintPipe(t) + rest == PrintExec(t) + PrintRedirs([]) + rest;
    }
  }

  /** The pipeline under the ampersands is read first; the ampersands then rebuild the command. */
  lemma {:induction false} ReadBacks<W>(t: Cmd<W>, rest: seq<Token<W>>)
    requires Stops(rest) && Fits(t)
    ensures var r := ParsePipe(PrintBacks(t) + rest);
            r.Ok? && Backs(r.cmd, r.rest) == Backs(t, rest)
    decreases t, Rank(t, 2)
  {
    if t.Back? {
      ReadBacks(t.cmd, [Sym('&')] + rest);
      assert PrintBacks(t) + rest == PrintBacks(t.cmd) + ([Sym('&')] + rest);
      assert ([Sym('&')] + rest)[1..] == rest;
    } else {
      ReadPipe(t, rest);
    }
  }

  lemma {:induction false} ReadLine<W>(t: Cmd<W>, rest: seq<Token<W>>)
    requires (rest == [] || Starts(rest, ')')) && Fits(t)
    ensures ParseLine(PrintLine(t) + rest) == Ok(t, rest)
    decreases t, Rank(t, 3)
  {
    hide ParsePipe, PrintBacks, PrintPipe;
    if t.List? {
      var after := [Sym(';')] + (PrintLine(t.right) + rest);
      ReadBacks(t.left, after);
      assert PrintLine(t) + rest == PrintBacks(t.left) + after;
      assert after[1..] == PrintLine(t.right) + rest;
      ReadLine(t.right, rest);
    } else {
      ReadBacks(t, rest);
    }
  }

  // ---- What the parser can produce ----

  lemma {:induction false} WrapFits<W>(cmd: Cmd<W>, list: seq<(W, Mode)>)
    ensures Fits(Wrap(cmd, list)) <==> Fits(cmd)
    decreases |list|
  {
    if list != [] {
      WrapFits(Redir(cmd, list[0].0, list[0].1), list[1..]);
    }
  }

  lemma {:induction false} ArgsFit<W>(args: seq<W>, list: seq<(W, Mode)>, ts: seq<Token<W>>)
    requires |args| < MAXARGS
    ensures var r := ParseArgs(args, list, ts); r.Ok? ==> Fits(r.cmd)
    decreases |ts|
  {
    WrapFits(Exec(args), list);
    if !IsEnd(ts) && ts[0].Word? && |args| + 1 < MAXARGS {
      var more := ParseRedirs(list, ts[1..]);
      if more.Redirs? {
        ArgsFit(args + [ts[0].w], more.list, more.rest);
      }
    }
  }

  lemma {:induction false} ExecFits<W>(ts: seq<Token<W>>)
    ensures var r := ParseExec(ts); r.Ok? ==> Fits(r.cmd)
    decreases |ts|, 0
  {
    if Starts(ts, '(') {
      LineFits(ts[1..]);
      var inner := ParseLine(ts[1..]);
      if inner.Ok? && Starts(inner.rest, ')') {
        var more := ParseRedirs([], inner.rest[1..]);
        if more.Redirs? {
          WrapFits(inner.cmd, more.list);
        }
      }
    } else {
      var more := ParseRedirs([], ts);
      if more.Redirs? {
        ArgsFit([], more.list, more.rest);
      }
    }
  }

  lemma {:induction false} PipeFits<W>(ts: seq<Token<W>>)
    ensures var r := ParsePipe(ts); r.Ok? ==> Fits(r.cmd)
    decreases |ts|, 1
  {
    hide ParseExec;
    ExecFits(ts);
    var left := ParseExec(ts);
    if left.Ok? && Starts(left.rest, '|') {
      PipeFits(left.rest[1..]);
    }
  }

  lemma {:induction false} BacksFit<W>(cmd: Cmd<W>, ts: seq<Token<W>>)
    ensures Fits(Backs(cmd, ts).cmd) <==> Fits(cmd)
    decreases |ts|
  {
    if Starts(ts, '&') {
      BacksFit(Back(cmd), ts[1..]);
    }
  }

  lemma {:induction false} LineFits<W>(ts: seq<Token<W>>)
    ensures var r := ParseLine(ts); r.Ok? ==> Fits(r.cmd)
    decreases |ts|, 2
  {
    hide ParsePipe;
    PipeFits(ts);
    var first := ParsePipe(ts);
    if first.Ok? {
      BacksFit(first.cmd, first.rest);
      var left := Backs(first.cmd, first.rest);
      if Starts(left.rest, ';') {
        LineFits(left.rest[1..]);
      }
    }
  }

  /** Parsing the printed form of a command tree gives the tree back exactly when no command has too many arguments. */
  lemma RoundTrip<W>(t: Cmd<W>)
    ensures ParseAll(PrintLine(t)) == Ok(t, []) <==> Fits(t)
  {
    LineFits(PrintLine(t));
    if Fits(t) {
      ReadLine(t, []);
      assert PrintLine(t) + [] == PrintLine(t);
    }
  }
}
