/** The pattern matcher of grep, and what its patterns mean. */
module Regex {
  /** One element of a pattern.  The character '.' stands for any character. */
  datatype Atom = One(c: char) | Star(c: char)

  predicate Fits(c: char, x: char)
  {
    c == '.' || c == x
  }

  /** The strings an atom stands for. */
  ghost predicate Piece(a: Atom, p: string)
  {
    match a
    case One(c) => |p| == 1 && Fits(c, p[0])
    case Star(c) => forall i :: 0 <= i < |p| ==> Fits(c, p[i])
  }

  /** The elements of a pattern without its leading ^.  A star binds to the character before it, even
      if that is another star or an anchor; a $ is an anchor only at the very end. */
  function Atoms(re: string): seq<Atom>
  {
    if |re| == 0 || re == "$" then []
    else if |re| >= 2 && re[1] == '*' then [Star(re[0])] + Atoms(re[2..])
    else [One(re[0])] + Atoms(re[1..])
  }

  predicate AtEnd(re: string)
  {
    if |re| == 0 then false
    else if re == "$" then true
    else if |re| >= 2 && re[1] == '*' then AtEnd(re[2..])
    else AtEnd(re[1..])
  }

  function Concat(pieces: seq<string>): string
  {
    if |pieces| == 0 then "" else pieces[0] + Concat(pieces[1..])
  }

  ghost predicate Splits(atoms: seq<Atom>, pieces: seq<string>, s: string)
  {
    && |pieces| == |atoms| && Concat(pieces) == s
    && forall i :: 0 <= i < |atoms| ==> Piece(atoms[i], pieces[i])
  }

  /** s can be cut into one piece for each atom. */
  ghost predicate Matches(atoms: seq<Atom>, s: string)
  {
    exists pieces :: Splits(atoms, pieces, s)
  }

  /** The pattern, without ^, matches a prefix of the text (all of it if the pattern ends in $). */
  ghost predicate Here(re: string, text: string)
  {
    exists j :: 0 <= j <= |text| && Upto(re, text, j)
  }

  ghost predicate Upto(re: string, text: string, j: nat)
    requires j <= |text|
  {
    (AtEnd(re) ==> j == |text|) && Matches(Atoms(re), text[..j])
  }

  /** The meaning of a pattern: it matches somewhere in the text, or at its start after a ^. */
  ghost predicate Found(re: string, text: string)
  {
    if |re| > 0 && re[0] == '^' then Here(re[1..], text)
    else exists i :: 0 <= i <= |text| && Here(re, text[i..])
  }

  // ---------------------------------------------------------------------

  lemma MatchesNil(s: string)
    ensures Matches([], s) <==> s == ""
  {
    if s == "" {
      assert Splits([], [], s);
    }
  }

  lemma MatchesCons(a: Atom, atoms: seq<Atom>, s: string, k: nat)
    requires k <= |s| && Piece(a, s[..k]) && Matches(atoms, s[k..])
    ensures Matches([a] + atoms, s)
  {
    var pieces :| Splits(atoms, pieces, s[k..]);
    assert ([s[..k]] + pieces)[1..] == pieces;
    assert Splits([a] + atoms, [s[..k]] + pieces, s);
  }

  lemma MatchesUncons(a: Atom, atoms: seq<Atom>, s: string) returns (k: nat)
    requires Matches([a] + atoms, s)
    ensures k <= |s| && Piece(a, s[..k]) && Matches(atoms, s[k..])
  {
    var pieces :| Splits([a] + atoms, pieces, s);
    k := |pieces[0]|;
    assert s[..k] == pieces[0] && s[k..] == Concat(pieces[1..]);
    assert Piece(([a] + atoms)[0], pieces[0]);
    forall i | 0 <= i < |atoms| ensures Piece(atoms[i], pieces[1..][i]) {
      assert ([a] + atoms)[i + 1] == atoms[i];
    }
    assert Splits(atoms, pieces[1..], s[k..]);
  }

  lemma HereEmpty(text: string)
    ensures Here("", text)
  {
    MatchesNil("");
    assert text[..0] == "";
    assert Upto("", text, 0);
  }

  lemma HereEnd(text: string)
    ensures Here("$", text) <==> text == ""
  {
    if text == "" {
      MatchesNil(text[..0]);
      assert Upto("$", text, 0);
    }
    if Here("$", text) {
      var j :| 0 <= j <= |text| && Upto("$", text, j);
      MatchesNil(text[..j]);
    }
  }

  /** A plain character takes one character of the text. */
  lemma HereOne(re: string, text: string)
    requires |re| > 0 && re != "$" && !(|re| >= 2 && re[1] == '*')
    ensures Here(re, text) <==> |text| > 0 && Fits(re[0], text[0]) && Here(re[1..], text[1..])
  {
    if Here(re, text) {
      var j :| 0 <= j <= |text| && Upto(re, text, j);
      var k := MatchesUncons(One(re[0]), Atoms(re[1..]), text[..j]);
      assert text[..j][1..] == text[1..][..j - 1];
      assert Upto(re[1..], text[1..], j - 1);
    }
    if |text| > 0 && Fits(re[0], text[0]) && Here(re[1..], text[1..]) {
      var j :| 0 <= j <= |text[1..]| && Upto(re[1..], text[1..], j);
      assert text[..j + 1][1..] == text[1..][..j] && text[..j + 1][..1] == text[..1];
      MatchesCons(One(re[0]), Atoms(re[1..]), text[..j + 1], 1);
      assert Upto(re, text, j + 1);
    }
  }

  ghost predicate AllFit(c: char, text: string, k: nat)
    requires k <= |text|
  {
    forall i :: 0 <= i < k ==> Fits(c, text[i])
  }

  /** A starred character takes any number of fitting characters. */
  lemma HereStar(re: string, text: string)
    requires |re| >= 2 && re[1] == '*'
    ensures Here(re, text) <==> exists k :: 0 <= k <= |text| && AllFit(re[0], text, k) && Here(re[2..], text[k..])
  {
    if Here(re, text) {
      var j :| 0 <= j <= |text| && Upto(re, text, j);
      var k := MatchesUncons(Star(re[0]), Atoms(re[2..]), text[..j]);
      assert forall i :: 0 <= i < k ==> text[..j][..k][i] == text[i];
      assert text[..j][k..] == text[k..][..j - k];
      assert Upto(re[2..], text[k..], j - k);
      assert AllFit(re[0], text, k) && Here(re[2..], text[k..]);
    }
    if k :| 0 <= k <= |text| && AllFit(re[0], text, k) && Here(re[2..], text[k..]) {
      var j :| 0 <= j <= |text[k..]| && Upto(re[2..], text[k..], j);
      assert text[..k + j][k..] == text[k..][..j] && text[..k + j][..k] == text[..k];
      MatchesCons(Star(re[0]), Atoms(re[2..]), text[..k + j], k);
      assert Upto(re, text, k + j);
    }
  }

  // ---------------------------------------------------------------------

  /** matchhere: recursion on the pattern.  Strings carry their length instead of a final NUL. */
  method MatchHere(re: string, text: string) returns (r: bool)
    ensures r <==> Here(re, text)
    decreases |re|, |text|, 0
  {
    hide Here;
    if |re| == 0 {
      HereEmpty(text);
      return true;
    }
    if |re| >= 2 && re[1] == '*' {
      HereStar(re, text);
      r := MatchStar(re[0], re[2..], text);
      return;
    }
    if re[0] == '$' && |re| == 1 {
      assert re == "$";
      HereEnd(text);
      return |text| == 0;
    }
    HereOne(re, text);
    if |text| > 0 && (re[0] == '.' || re[0] == text[0]) {
      r := MatchHere(re[1..], text[1..]);
      return;
    }
    return false;
  }

  /** matchstar: try re after zero, one, two, ... characters that fit c. */
  method MatchStar(c: char, re: string, text: string) returns (r: bool)
    ensures r <==> exists k :: 0 <= k <= |text| && AllFit(c, text, k) && Here(re, text[k..])
    decreases |re|, |text|, 1
  {
    hide Here;
    var t := 0;
    while true
      invariant 0 <= t <= |text| && AllFit(c, text, t)
      invariant forall k :: 0 <= k < t ==> !Here(re, text[k..])
      decreases |text| - t
    {
      assert text[0..] == text;
      var here := MatchHere(re, text[t..]);
      if here {
        return true;
      }
      if !(t < |text| && (text[t] == c || c == '.')) {
        return false;
      }
      t := t + 1;
    }
  }

  /** match: search the whole text, the empty suffix included. */
  method Match(re: string, text: string) returns (r: bool)
    ensures r <==> Found(re, text)
  {
    hide Here;
    if |re| > 0 && re[0] == '^' {
      r := MatchHere(re[1..], text);
      return;
    }
    var t := 0;
    while true
      invariant 0 <= t <= |text|
      invariant forall k :: 0 <= k < t ==> !Here(re, text[k..])
      decreases |text| - t
    {
      var here := MatchHere(re, text[t..]);
      if here {
        return true;
      }
      if t == |text| {
        return false;
      }
      t := t + 1;
    }
  }
}
