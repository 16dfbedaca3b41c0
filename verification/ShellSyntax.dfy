/**
 * The lines of the shell's language as they are written: redirections stand anywhere in a simple command, and
 * anything can be put in parentheses. The parser reads exactly these lines, each as its one tree.
 */
module ShellSyntax {
  import opened ShellGrammar

  /** A piece of a simple command: an argument, or a redirection to a file. */
  datatype Item<W> = Arg(w: W) | To(file: W, mode: Mode)

  datatype Unit<W> = Simple(items: seq<Item<W>>) | Block(line: Line<W>, redirs: seq<(W, Mode)>)

  datatype Pipeline<W> = One(unit: Unit<W>) | Into(unit: Unit<W>, next: Pipeline<W>)

  /** A pipeline with its ampersands, and what follows after a semicolon. */
  datatype Line<W> = Last(pipe: Pipeline<W>, amps: nat) | Then(pipe: Pipeline<W>, amps: nat, next: Line<W>)

  // ---- How a line is written ----

  function ItemTokens<W>(items: seq<Item<W>>): seq<Token<W>> {
    if items == [] then []
    else
      (match items[0] case Arg(w) => [Word(w)] case To(f, m) => [RedirToken(m), Word(f)]) + ItemTokens(items[1..])
  }

  function Amps<W>(n: nat): seq<Token<W>> {
    if n == 0 then [] else [Sym('&')] + Amps(n - 1)
  }

  function UnitTokens<W>(u: Unit<W>): seq<Token<W>> {
    match u
    case Simple(items) => ItemTokens(items)
    case Block(line, redirs) => [Sym('(')] + LineTokens(line) + [Sym(')')] + PrintRedirs(redirs)
  }

  function PipeTokens<W>(p: Pipeline<W>): seq<Token<W>> {
    match p
    case One(u) => UnitTokens(u)
    case Into(u, next) => UnitTokens(u) + [Sym('|')] + PipeTokens(next)
  }

  function LineTokens<W>(l: Line<W>): seq<Token<W>> {
    match l
    case Last(p, n) => PipeTokens(p) + Amps(n)
    case Then(p, n, next) => PipeTokens(p) + Amps(n) + [Sym(';')] + LineTokens(next)
  }

  // ---- What it means ----

  function ArgsOf<W>(items: seq<Item<W>>): seq<W> {
    if items == [] then [] else (if items[0].Arg? then [items[0].w] else []) + ArgsOf(items[1..])
  }

  function RedirsOf<W>(items: seq<Item<W>>): seq<(W, Mode)> {
    if items == [] then []
    else (if items[0].To? then [(items[0].file, items[0].mode)] else []) + RedirsOf(items[1..])
  }

  function InBack<W>(cmd: Cmd<W>, n: nat): Cmd<W>
    decreases n
  {
    if n == 0 then cmd else InBack(Back(cmd), n - 1)
  }

  function UnitTree<W>(u: Unit<W>): Cmd<W> {
    match u
    case Simple(items) => Wrap(Exec(ArgsOf(items)), RedirsOf(items))
    case Block(line, redirs) => Wrap(LineTree(line), redirs)
  }

  function PipeTree<W>(p: Pipeline<W>): Cmd<W> {
    match p
    case One(u) => UnitTree(u)
    case Into(u, next) => Pipe(UnitTree(u), PipeTree(next))
  }

  function LineTree<W>(l: Line<W>): Cmd<W> {
    match l
    case Last(p, n) => InBack(PipeTree(p), n)
    case Then(p, n, next) => List(InBack(PipeTree(p), n), LineTree(next))
  }

  /** Every simple command has fewer arguments than the parser's table. */
  ghost predicate UnitOk<W>(u: Unit<W>) {
    match u case Simple(items) => |ArgsOf(items)| < MAXARGS case Block(line, _) => LineOk(line)
  }

  ghost predicate PipeOk<W>(p: Pipeline<W>) {
    match p case One(u) => UnitOk(u) case Into(u, next) => UnitOk(u) && PipeOk(next)
  }

  ghost predicate LineOk<W>(l: Line<W>) {
    match l case Last(p, _) => PipeOk(p) case Then(p, _, next) => PipeOk(p) && LineOk(next)
  }

  // ---- Every line is read as its tree ----

  /** What parseexec() does between two arguments: the redirections, and then its loop. */
  function Continue<W>(args: seq<W>, list: seq<(W, Mode)>, ts: seq<Token<W>>): Result<W> {
    var more := ParseRedirs(list, ts);
    if more.NoFile? then Fail else ParseArgs(args, more.list, more.rest)
  }

  lemma ContinueTo<W>(args: seq<W>, list: seq<(W, Mode)>, file: W, mode: Mode, ts: seq<Token<W>>)
    ensures Continue(args, list, [RedirToken(mode), Word(file)] + ts) == Continue(args, list + [(file, mode)], ts)
  {
    hide ParseArgs;
    var all := [RedirToken(mode), Word(file)] + ts;
    assert all[2..] == ts && ModeOf(all[0]) == mode && all[1] == Word(file);
  }

  lemma ContinueArg<W>(args: seq<W>, list: seq<(W, Mode)>, w: W, ts: seq<Token<W>>)
    ensures Continue(args, list, [Word(w)] + ts) ==
            if |args| + 1 >= MAXARGS then Fail else Continue(args + [w], list, ts)
  {
    var all := [Word(w)] + ts;
    assert all[1..] == ts && ParseRedirs(list, all) == Redirs(list, all);
  }

  /** A simple command that starts with an argument, and one that starts with a redirection. */
  lemma ArgFirst<W>(w: W, more: seq<Item<W>>, args: seq<W>, list: seq<(W, Mode)>, rest: seq<Token<W>>)
    ensures var items := [Arg(w)] + more;
            && ItemTokens(items) + rest == [Word(w)] + (ItemTokens(more) + rest)
            && |ArgsOf(items)| == |ArgsOf(more)| + 1 && args + ArgsOf(items) == args + [w] + ArgsOf(more)
            && RedirsOf(items) == RedirsOf(more)
  {
    var items := [Arg(w)] + more;
    assert items[1..] == more;
  }

  lemma ToFirst<W>(f: W, m: Mode, more: seq<Item<W>>, args: seq<W>, list: seq<(W, Mode)>, rest: seq<Token<W>>)
    ensures var items := [To(f, m)] + more;
            && ItemTokens(items) + rest == [RedirToken(m), Word(f)] + (ItemTokens(more) + rest)
            && ArgsOf(items) == ArgsOf(more) && list + RedirsOf(items) == list + [(f, m)] + RedirsOf(more)
  {
    var items := [To(f, m)] + more;
    assert items[1..] == more;
  }

  lemma {:induction false} ReadItems<W>(args: seq<W>, list: seq<(W, Mode)>, items: seq<Item<W>>, rest: seq<Token<W>>)
    requires IsEnd(rest) && |args| + |ArgsOf(items)| < MAXARGS
    ensures Continue(args, list, ItemTokens(items) + rest) ==
            Ok(Wrap(Exec(args + ArgsOf(items)), list + RedirsOf(items)), rest)
    decreases |items|
  {
    if items == [] {
      NothingMore(args, list, rest);
      assert ItemTokens(items) + rest == rest && args + ArgsOf(items) == args && list + RedirsOf(items) == list;
    } else {
      hide Continue, Wrap, ItemTokens, ArgsOf, RedirsOf;
      var more := items[1..];
      assert items == [items[0]] + more;
      match items[0]
      case Arg(w) =>
        ArgFirst(w, more, args, list, rest);
        ContinueArg(args, list, w, ItemTokens(more) + rest);
        ReadItems(args + [w], list, more, rest);
      case To(f, m) =>
        ToFirst(f, m, more, args, list, rest);
        ContinueTo(args, list, f, m, ItemTokens(more) + rest);
        ReadItems(args, list + [(f, m)], more, rest);
    }
  }

  lemma NothingMore<W>(args: seq<W>, list: seq<(W, Mode)>, rest: seq<Token<W>>)
    requires IsEnd(rest)
    ensures Continue(args, list, rest) == Ok(Wrap(Exec(args), list), rest)
  {
  }

  lemma NoParenthesis<W>(items: seq<Item<W>>, rest: seq<Token<W>>)
    requires IsEnd(rest)
    ensures !Starts(ItemTokens(items) + rest, '(')
  {
  }

  lemma PlainExec<W>(ts: seq<Token<W>>)
    requires !Starts(ts, '(')
    ensures ParseExec(ts) == Continue([], [], ts)
  {
    hide ParseArgs, ParseRedirs;
  }

  lemma BlockExec<W>(inner: seq<Token<W>>, cmd: Cmd<W>, redirs: seq<(W, Mode)>, rest: seq<Token<W>>)
    requires IsEnd(rest)
    requires ParseLine(inner + ([Sym(')')] + (PrintRedirs(redirs) + rest))) ==
             Ok(cmd, [Sym(')')] + (PrintRedirs(redirs) + rest))
    ensures ParseExec([Sym('(')] + inner + [Sym(')')] + PrintRedirs(redirs) + rest) == Ok(Wrap(cmd, redirs), rest)
  {
    hide ParseLine, PrintRedirs, ParseRedirs, Wrap, ParseArgs;
    var ts := [Sym('(')] + inner + [Sym(')')] + PrintRedirs(redirs) + rest;
    var after := [Sym(')')] + (PrintRedirs(redirs) + rest);
    assert ts[1..] == inner + after;
    assert after[1..] == PrintRedirs(redirs) + rest;
    ReadRedirs([], redirs, rest);
    assert [] + redirs == redirs;
  }

  lemma {:induction false} ReadUnit<W>(u: Unit<W>, rest: seq<Token<W>>)
    requires UnitOk(u) && IsEnd(rest)
    ensures ParseExec(UnitTokens(u) + rest) == Ok(UnitTree(u), rest)
    decreases u
  {
    hide ParseExec, Wrap, Continue, ItemTokens;
    match u
    case Simple(items) =>
      NoParenthesis(items, rest);
      PlainExec(ItemTokens(items) + rest);
      ReadItems([], [], items, rest);
      assert [] + ArgsOf(items) == ArgsOf(items) && [] + RedirsOf(items) == RedirsOf(items);
    case Block(line, redirs) =>
      ReadWhole(line, [Sym(')')] + (PrintRedirs(redirs) + rest));
      BlockExec(LineTokens(line), LineTree(line), redirs, rest);
  }

  lemma {:induction false} ReadPipeline<W>(p: Pipeline<W>, rest: seq<Token<W>>)
    requires PipeOk(p) && Stops(rest)
    ensures ParsePipe(PipeTokens(p) + rest) == Ok(PipeTree(p), rest)
    decreases p
  {
    hide ParseExec, UnitTokens, UnitTree, UnitOk;
    match p
    case One(u) =>
      ReadUnit(u, rest);
    case Into(u, next) =>
      var after := [Sym('|')] + (PipeTokens(next) + rest);
      ReadUnit(u, after);
      assert PipeTokens(p) + rest == UnitTokens(u) + after;
      assert after[1..] == PipeTokens(next) + rest;
      ReadPipeline(next, rest);
  }

  lemma {:induction false} ReadAmps<W>(cmd: Cmd<W>, n: nat, rest: seq<Token<W>>)
    requires !Starts(rest, '&')
    ensures Backs(cmd, Amps(n) + rest) == Ok(InBack(cmd, n), rest)
    decreases n
  {
    if n == 0 {
      assert Amps(n) + rest == rest;
    } else {
      assert (Amps(n) + rest)[1..] == Amps(n - 1) + rest;
      ReadAmps(Back(cmd), n - 1, rest);
    }
  }

  lemma AmpsStop<W>(n: nat, rest: seq<Token<W>>)
    requires |rest| == 0 || Starts(rest, ')') || Starts(rest, ';')
    ensures Stops(Amps(n) + rest)
  {
  }

  lemma {:induction false} ReadWhole<W>(l: Line<W>, rest: seq<Token<W>>)
    requires LineOk(l) && (rest == [] || Starts(rest, ')'))
    ensures ParseLine(LineTokens(l) + rest) == Ok(LineTree(l), rest)
    decreases l
  {
    hide ParsePipe, PipeTokens, PipeTree, PipeOk, Amps, InBack;
    match l
    case Last(p, n) =>
      AmpsStop(n, rest);
      ReadPipeline(p, Amps(n) + rest);
      ReadAmps(PipeTree(p), n, rest);
      assert LineTokens(l) + rest == PipeTokens(p) + (Amps(n) + rest);
    case Then(p, n, next) =>
      var after := [Sym(';')] + (LineTokens(next) + rest);
      AmpsStop(n, after);
      ReadPipeline(p, Amps(n) + after);
      ReadAmps(PipeTree(p), n, after);
      assert LineTokens(l) + rest == PipeTokens(p) + (Amps(n) + after);
      assert after[1..] == LineTokens(next) + rest;
      ReadWhole(next, rest);
  }

  // ---- Nothing else is read ----

  lemma {:induction false} FindRedirs<W>(before: seq<(W, Mode)>, ts: seq<Token<W>>) returns (list: seq<(W, Mode)>)
    requires ParseRedirs(before, ts).Redirs?
    ensures var r := ParseRedirs(before, ts); r.list == before + list && ts == PrintRedirs(list) + r.rest
    decreases |ts|
  {
    if IsRedir(ts) {
      var next := (ts[1].w, ModeOf(ts[0]));
      var more := FindRedirs(before + [next], ts[2..]);
      list := [next] + more;
      assert list[1..] == more && RedirToken(next.1) == ts[0];
      assert before + [next] + more == before + list;
    } else {
      list := [];
    }
  }

  lemma ContinueEnds<W>(args: seq<W>, list: seq<(W, Mode)>, ts: seq<Token<W>>)
    requires Continue(args, list, ts).Ok?
    ensures IsRedir(ts) ==> |ts| >= 2 && ts[1].Word? && ts == [RedirToken(ModeOf(ts[0])), Word(ts[1].w)] + ts[2..]
    ensures !IsRedir(ts) && !IsEnd(ts) ==> |ts| > 0 && ts[0].Word? && ts == [Word(ts[0].w)] + ts[1..]
  {
  }

  lemma {:induction false} FindItems<W>(args: seq<W>, list: seq<(W, Mode)>, ts: seq<Token<W>>)
    returns (items: seq<Item<W>>)
    requires Continue(args, list, ts).Ok? && |args| < MAXARGS
    ensures var r := Continue(args, list, ts);
            && ts == ItemTokens(items) + r.rest && |args| + |ArgsOf(items)| < MAXARGS
            && r.cmd == Wrap(Exec(args + ArgsOf(items)), list + RedirsOf(items))
    decreases |ts|
  {
    ContinueEnds(args, list, ts);
    var rest := Continue(args, list, ts).rest;
    if IsRedir(ts) {
      hide Continue, Wrap, ItemTokens, ArgsOf, RedirsOf, IsRedir;
      var file, mode := ts[1].w, ModeOf(ts[0]);
      ContinueTo(args, list, file, mode, ts[2..]);
      var more := FindItems(args, list + [(file, mode)], ts[2..]);
      items := [To(file, mode)] + more;
      ToFirst(file, mode, more, args, list, rest);
    } else if IsEnd(ts) {
      items := [];
      NothingMore(args, list, ts);
      assert args + ArgsOf(items) == args && list + RedirsOf(items) == list;
    } else {
      hide Continue, Wrap, ItemTokens, ArgsOf, RedirsOf, IsRedir, IsEnd;
      var w := ts[0].w;
      ContinueArg(args, list, w, ts[1..]);
      var more := FindItems(args + [w], list, ts[1..]);
      items := [Arg(w)] + more;
      ArgFirst(w, more, args, list, rest);
    }
  }

  lemma BlockParts<W>(ts: seq<Token<W>>)
    requires Starts(ts, '(') && ParseExec(ts).Ok?
    ensures ts == [Sym('(')] + ts[1..] && ParseLine(ts[1..]).Ok?
    ensures var after := ParseLine(ts[1..]).rest;
            && |after| > 0 && after == [Sym(')')] + after[1..] && ParseRedirs([], after[1..]).Redirs?
            && var more := ParseRedirs([], after[1..]);
               ParseExec(ts) == Ok(Wrap(ParseLine(ts[1..]).cmd, more.list), more.rest)
  {
    hide ParseLine, ParseArgs, ParseRedirs, Wrap;
  }

  lemma {:induction false} FindUnit<W>(ts: seq<Token<W>>) returns (u: Unit<W>)
    requires ParseExec(ts).Ok?
    ensures var r := ParseExec(ts); ts == UnitTokens(u) + r.rest && r.cmd == UnitTree(u) && UnitOk(u)
    decreases |ts|, 0
  {
    hide Wrap, ParseExec, ParseLine, ParseRedirs, Continue, ItemTokens, LineTokens, LineTree, LineOk, PrintRedirs,
         Starts;
    var rest := ParseExec(ts).rest;
    if Starts(ts, '(') {
      BlockParts(ts);
      var after := ParseLine(ts[1..]).rest;
      var line := FindLine(ts[1..]);
      var redirs := FindRedirs([], after[1..]);
      u := Block(line, redirs);
      assert [] + redirs == redirs;
      var tail := [Sym(')')] + (PrintRedirs(redirs) + rest);
      assert ts == [Sym('(')] + (LineTokens(line) + tail);
      assert UnitTokens(u) + rest == [Sym('(')] + (LineTokens(line) + tail);
    } else {
      PlainExec(ts);
      var items := FindItems([], [], ts);
      u := Simple(items);
      assert [] + ArgsOf(items) == ArgsOf(items) && [] + RedirsOf(items) == RedirsOf(items);
    }
  }

  lemma {:induction false} FindPipeline<W>(ts: seq<Token<W>>) returns (p: Pipeline<W>)
    requires ParsePipe(ts).Ok?
    ensures var r := ParsePipe(ts); ts == PipeTokens(p) + r.rest && r.cmd == PipeTree(p) && PipeOk(p)
    decreases |ts|, 1
  {
    hide ParseExec, UnitTokens, UnitTree, UnitOk;
    var r, left := ParsePipe(ts), ParseExec(ts);
    var u := FindUnit(ts);
    if Starts(left.rest, '|') {
      var next := FindPipeline(left.rest[1..]);
      p := Into(u, next);
      assert ts == UnitTokens(u) + ([Sym('|')] + (PipeTokens(next) + r.rest));
      assert PipeTokens(p) + r.rest == UnitTokens(u) + ([Sym('|')] + (PipeTokens(next) + r.rest));
    } else {
      p := One(u);
    }
  }

  lemma {:induction false} FindAmps<W>(cmd: Cmd<W>, ts: seq<Token<W>>) returns (n: nat)
    ensures var r := Backs(cmd, ts); ts == Amps(n) + r.rest && r.cmd == InBack(cmd, n)
    decreases |ts|
  {
    if Starts(ts, '&') {
      var m := FindAmps(Back(cmd), ts[1..]);
      n := m + 1;
      assert ts == [Sym('&')] + ts[1..];
    } else {
      n := 0;
    }
  }

  lemma {:induction false} FindLine<W>(ts: seq<Token<W>>) returns (l: Line<W>)
    requires ParseLine(ts).Ok?
    ensures var r := ParseLine(ts); ts == LineTokens(l) + r.rest && r.cmd == LineTree(l) && LineOk(l)
    decreases |ts|, 2
  {
    hide ParsePipe, Backs, PipeTokens, PipeTree, PipeOk, Amps, InBack;
    var r, first := ParseLine(ts), ParsePipe(ts);
    var p := FindPipeline(ts);
    var left := Backs(first.cmd, first.rest);
    var n := FindAmps(first.cmd, first.rest);
    if Starts(left.rest, ';') {
      var next := FindLine(left.rest[1..]);
      l := Then(p, n, next);
      assert ts == PipeTokens(p) + (Amps(n) + ([Sym(';')] + (LineTokens(next) + r.rest)));
      assert LineTokens(l) + r.rest == PipeTokens(p) + (Amps(n) + ([Sym(';')] + (LineTokens(next) + r.rest)));
    } else {
      l := Last(p, n);
      assert ts == PipeTokens(p) + (Amps(n) + r.rest);
      assert LineTokens(l) + r.rest == PipeTokens(p) + (Amps(n) + r.rest);
    }
  }

  /** The tokens are a way to write this line down, and the line fits the parser's tables. */
  ghost predicate Writes<W>(l: Line<W>, ts: seq<Token<W>>) {
    LineTokens(l) == ts && LineOk(l)
  }

  /** The parser accepts exactly the token sequences that write some line down, and reads each as its tree. */
  lemma ParsesExactly<W>(ts: seq<Token<W>>)
    ensures ParseAll(ts).Ok? <==> exists l :: Writes(l, ts)
    ensures forall l :: Writes(l, ts) ==> ParseAll(ts) == Ok(LineTree(l), [])
  {
    hide ParseLine, LineTokens, LineTree, LineOk;
    forall l | Writes(l, ts) ensures ParseAll(ts) == Ok(LineTree(l), []) {
      ReadWhole(l, []);
      assert LineTokens(l) + [] == LineTokens(l);
    }
    if ParseAll(ts).Ok? {
      var l := FindLine(ts);
      assert LineTokens(l) + [] == LineTokens(l);
      assert Writes(l, ts);
    }
  }
}
