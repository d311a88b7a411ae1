/** The matcher of user/grep.c against the language its patterns denote.
    Strings are without their terminating NUL. */
module Grep {
  /** Char('.') stands for any one character, Star('.') for any number of them. */
  datatype Atom = Char(c: char) | Star(c: char) | End

  function Parse(re: string): seq<Atom> {
    if re == [] then []
    else if |re| >= 2 && re[1] == '*' then [Star(re[0])] + Parse(re[2..])
    else if re == "$" then [End]
    else [Char(re[0])] + Parse(re[1..])
  }

  predicate Same(c: char, x: char) {
    c == '.' || c == x
  }

  predicate Run(c: char, s: string) {
    forall i | 0 <= i < |s| :: Same(c, s[i])
  }

  /** The strings of one atom. */
  predicate Denotes(a: Atom, s: string) {
    match a
    case Char(c) => |s| == 1 && Same(c, s[0])
    case Star(c) => Run(c, s)
    case End => s == []
  }

  function Concat(pieces: seq<string>): string {
    if pieces == [] then [] else pieces[0] + Concat(pieces[1..])
  }

  /** `pieces` are strings of the atoms in order, and together begin the text; they
      are all of it if the atoms end with End. */
  predicate Splits(atoms: seq<Atom>, pieces: seq<string>, text: string) {
    && |pieces| == |atoms|
    && (forall i | 0 <= i < |atoms| :: Denotes(atoms[i], pieces[i]))
    && Concat(pieces) <= text
    && (atoms != [] && atoms[|atoms| - 1].End? ==> Concat(pieces) == text)
  }

  /** Some beginning of the text is in the language of the pattern. */
  ghost predicate Here(re: string, text: string) {
    exists pieces :: Splits(Parse(re), pieces, text)
  }

  // ---- One atom at a time ----

  lemma Head(a: Atom, atoms: seq<Atom>, s: string, rest: seq<string>, text: string)
    requires Denotes(a, s) && s <= text && Splits(atoms, rest, text[|s|..]) && (a.End? ==> text == [])
    ensures Splits([a] + atoms, [s] + rest, text)
  {
  }

  lemma Uncons(a: Atom, atoms: seq<Atom>, pieces: seq<string>, text: string)
    requires Splits([a] + atoms, pieces, text)
    ensures |pieces| == |atoms| + 1 && Denotes(a, pieces[0]) && pieces[0] <= text && Splits(atoms, pieces[1..], text[|pieces[0]|..])
    ensures a.End? && atoms == [] ==> text == []
  {
  }

  lemma HereEmpty(text: string)
    ensures Here([], text)
  {
    var none: seq<string> := [];
    assert Parse([]) == [] && Splits(Parse([]), none, text);
  }

  lemma HereEnd(text: string)
    ensures Here("$", text) <==> text == []
  {
    assert Parse("$") == [End];
    if text == [] {
      assert Splits(Parse("$"), [[]], text);
    }
    if pieces :| Splits(Parse("$"), pieces, text) {
      assert Parse("$") == [End] + [];
      Uncons(End, [], pieces, text);
    }
  }

  lemma HereChar(re: string, text: string)
    requires re != [] && !(|re| >= 2 && re[1] == '*') && re != "$"
    ensures Here(re, text) <==> text != [] && (re[0] == '.' || re[0] == text[0]) && Here(re[1..], text[1..])
  {
    var a, atoms := Char(re[0]), Parse(re[1..]);
    if text != [] && Same(re[0], text[0]) && Here(re[1..], text[1..]) {
      var rest :| Splits(atoms, rest, text[1..]);
      Head(a, atoms, [text[0]], rest, text);
      assert Splits(Parse(re), [[text[0]]] + rest, text);
    }
    if pieces :| Splits(Parse(re), pieces, text) {
      Uncons(a, atoms, pieces, text);
      assert Here(re[1..], text[1..]);
    }
  }

  /** After n characters of the star the rest matches. */
  ghost predicate StarAt(c: char, re: string, text: string, n: int) {
    0 <= n <= |text| && Run(c, text[..n]) && Here(re, text[n..])
  }

  lemma StarSpelled(c: char, re: string, text: string)
    ensures (exists n :: StarAt(c, re, text, n)) <==>
            exists n :: 0 <= n <= |text| && (forall i | 0 <= i < n :: c == '.' || c == text[i]) && Here(re, text[n..])
  {
    if n :| StarAt(c, re, text, n) {
      assert forall i | 0 <= i < n :: Same(c, text[..n][i]);
      assert Here(re, text[n..]);
    }
    if n :| 0 <= n <= |text| && (forall i | 0 <= i < n :: c == '.' || c == text[i]) && Here(re, text[n..]) {
      assert StarAt(c, re, text, n);
    }
  }

  lemma HereStar(re: string, text: string)
    requires |re| >= 2 && re[1] == '*'
    ensures Here(re, text) <==> exists n :: StarAt(re[0], re[2..], text, n)
    ensures Here(re, text) <==> exists n :: 0 <= n <= |text| && (forall i | 0 <= i < n :: re[0] == '.' || re[0] == text[i]) && Here(re[2..], text[n..])
  {
    StarSpelled(re[0], re[2..], text);
    var a, atoms := Star(re[0]), Parse(re[2..]);
    if n :| StarAt(re[0], re[2..], text, n) {
      var rest :| Splits(atoms, rest, text[n..]);
      Head(a, atoms, text[..n], rest, text);
      assert Splits(Parse(re), [text[..n]] + rest, text);
    }
    if pieces :| Splits(Parse(re), pieces, text) {
      Uncons(a, atoms, pieces, text);
      var n := |pieces[0]|;
      assert text[..n] == pieces[0];
      assert Here(re[2..], text[n..]);
      assert StarAt(re[0], re[2..], text, n);
    }
  }

  // ---- The code ----

  /** matchhere: sound and complete. */
  method MatchHere(re: string, text: string) returns (b: bool)
    ensures b <==> Here(re, text)
    decreases |re|, 0
  {
    if re == [] {
      HereEmpty(text);
      return true;
    }
    if |re| >= 2 && re[1] == '*' {
      HereStar(re, text);
      b := MatchStar(re[0], re[2..], text);
      return;
    }
    if re[0] == '$' && |re| == 1 {
      HereEnd(text);
      assert re == "$";
      return text == [];
    }
    HereChar(re, text);
    if text != [] && (re[0] == '.' || re[0] == text[0]) {
      b := MatchHere(re[1..], text[1..]);
      return;
    }
    return false;
  }

  /** matchstar. */
  method MatchStar(c: char, re: string, text: string) returns (b: bool)
    ensures b <==> exists n :: StarAt(c, re, text, n)
    decreases |re|, 1
  {
    var t := 0;
    while true
      invariant 0 <= t <= |text| && Run(c, text[..t])
      invariant forall n | 0 <= n < t :: !StarAt(c, re, text, n)
      decreases |text| - t
    {
      var found := MatchHere(re, text[t..]);
      if found {
        assert StarAt(c, re, text, t);
        return true;
      }
      if !(t < |text| && (text[t] == c || c == '.')) {
        forall n | t < n <= |text| ensures !Run(c, text[..n]) {
          assert text[..n][t] == text[t];
        }
        return false;
      }
      assert text[..t + 1] == text[..t] + [text[t]];
      t := t + 1;
    }
  }

  /** match: the pattern matches at the start of some suffix, or of the text itself
      if it begins with ^. */
  method Match(re: string, text: string) returns (b: bool)
    ensures re != [] && re[0] == '^' ==> (b <==> Here(re[1..], text))
    ensures !(re != [] && re[0] == '^') ==> (b <==> exists k :: 0 <= k <= |text| && Here(re, text[k..]))
  {
    if re != [] && re[0] == '^' {
      b := MatchHere(re[1..], text);
      return;
    }
    var t := 0;
    while true
      invariant 0 <= t <= |text|
      invariant forall k | 0 <= k < t :: !Here(re, text[k..])
      decreases |text| - t
    {
      b := MatchHere(re, text[t..]);
      if b {
        return;
      }
      if t == |text| {
        return;
      }
      t := t + 1;
    }
  }
}
