/**
  The matcher of the default pattern `/(_v)(\d+)/g` as `String.prototype.replace`
  runs it: leftmost first, the digit group greedy, matches never overlapping, and
  the search resumed right after each match. A text is cut into tokens: a single
  character outside every match, or one match with its digit group.
 */
module Scanner {
  import opened Decimal

  /** The first capture group of the default pattern, always matched literally. */
  const Prefix: string := "_v"

  datatype Token = Text(c: char) | Marker(digits: string)

  /** The characters a token stands for. */
  function Spell(tok: Token): string {
    match tok
    case Text(c) => [c]
    case Marker(d) => Prefix + d
  }

  function Flatten(t: seq<Token>): string
    decreases |t|
  {
    if |t| == 0 then [] else Spell(t[0]) + Flatten(t[1..])
  }

  /** A match of the pattern begins at the first character of `s`. */
  predicate StartsMarker(s: string) {
    |s| >= 3 && s[0] == '_' && s[1] == 'v' && IsDigit(s[2])
  }

  predicate StartsWithDigit(s: string) {
    |s| > 0 && IsDigit(s[0])
  }

  /** The length of the longest run of digits at the front of `s`: what greedy `\d+` takes. */
  function DigitRun(s: string): (n: nat)
    ensures n <= |s|
    ensures AllDigits(s[..n])
    ensures !StartsWithDigit(s[n..])
    decreases |s|
  {
    if |s| == 0 || !IsDigit(s[0]) then 0 else 1 + DigitRun(s[1..])
  }

  predicate ValidToken(tok: Token) {
    tok.Marker? ==> IsDigitRun(tok.digits)
  }

  predicate WellFormed(t: seq<Token>) {
    forall i :: 0 <= i < |t| ==> ValidToken(t[i])
  }

  /** The scan: try a match at the current position; on success skip past it, otherwise move on one character. */
  function Tokenize(s: string): (t: seq<Token>)
    ensures Flatten(t) == s
    ensures WellFormed(t)
    decreases |s|
  {
    if |s| == 0 then []
    else if StartsMarker(s) then
      var n := 2 + DigitRun(s[2..]);
      assert s == Prefix + s[2..n] + s[n..];
      assert s[2..][..n - 2] == s[2..n];
      [Marker(s[2..n])] + Tokenize(s[n..])
    else
      [Text(s[0])] + Tokenize(s[1..])
  }

  /**
    The declarative description of a global-regex scan: no match starts at a
    character left as text, and every match holds one or more digits and is not
    followed by another digit (the digit group is maximal).
   */
  predicate Canonical(t: seq<Token>)
    decreases |t|
  {
    |t| == 0 ||
    ((match t[0]
      case Text(_) => !StartsMarker(Flatten(t))
      case Marker(d) => IsDigitRun(d) && !StartsWithDigit(Flatten(t[1..])))
     && Canonical(t[1..]))
  }

  /** The scan produces the canonical tokenization. */
  lemma {:induction false} TokenizeCanonical(s: string)
    ensures Canonical(Tokenize(s))
    decreases |s|
  {
    var t := Tokenize(s);
    if |s| > 0 {
      assert t[1..] == Tokenize(s[if StartsMarker(s) then 2 + DigitRun(s[2..]) else 1..]);
      if StartsMarker(s) {
        var n := 2 + DigitRun(s[2..]);
        TokenizeCanonical(s[n..]);
        assert s[2..][..n - 2] == s[2..n];
      } else {
        TokenizeCanonical(s[1..]);
      }
    }
  }

  /** A digit run followed by something that does not start with a digit is cut exactly there. */
  lemma {:induction false} DigitRunExact(d: string, rest: string)
    requires AllDigits(d) && !StartsWithDigit(rest)
    ensures DigitRun(d + rest) == |d|
    decreases |d|
  {
    if |d| > 0 {
      assert (d + rest)[1..] == d[1..] + rest;
      DigitRunExact(d[1..], rest);
    } else {
      assert d + rest == rest;
    }
  }

  /** The scan leaves a character as text when no match starts at it. */
  lemma TokenizeText(c: char, rest: string)
    requires !StartsMarker([c] + rest)
    ensures Tokenize([c] + rest) == [Text(c)] + Tokenize(rest)
  {
    assert ([c] + rest)[1..] == rest;
  }

  /** The scan takes a whole maximal digit run into one match. */
  lemma TokenizeMarker(d: string, rest: string)
    requires IsDigitRun(d) && !StartsWithDigit(rest)
    ensures Tokenize(Prefix + d + rest) == [Marker(d)] + Tokenize(rest)
  {
    var s := Prefix + d + rest;
    assert s[2..] == d + rest;
    assert StartsMarker(s);
    DigitRunExact(d, rest);
    assert s[2..2 + |d|] == d;
    assert s[2 + |d|..] == rest;
  }

  /** The canonical tokenization of a text is unique, so the scan is the only one. */
  lemma {:induction false} CanonicalUnique(t: seq<Token>)
    requires Canonical(t)
    ensures Tokenize(Flatten(t)) == t
    decreases |t|
  {
    if |t| > 0 {
      var rest := Flatten(t[1..]);
      CanonicalUnique(t[1..]);
      assert t == [t[0]] + t[1..];
      match t[0]
      case Text(c) =>
        assert Flatten(t) == [c] + rest;
        TokenizeText(c, rest);
      case Marker(d) =>
        assert Flatten(t) == Prefix + d + rest;
        TokenizeMarker(d, rest);
    }
  }

  /**
    Two token sequences have the same shape when they hold the same characters
    outside matches, and matches (with at least one digit on the right) at the
    same positions.
   */
  predicate Congruent(a: Token, b: Token) {
    match a
    case Text(_) => b == a
    case Marker(_) => b.Marker? && IsDigitRun(b.digits)
  }

  predicate SameShape(t: seq<Token>, u: seq<Token>) {
    |t| == |u| && forall i :: 0 <= i < |t| ==> Congruent(t[i], u[i])
  }

  lemma ShapeTail(t: seq<Token>, u: seq<Token>)
    requires SameShape(t, u) && |t| > 0
    ensures SameShape(t[1..], u[1..])
  {
    forall i | 0 <= i < |t| - 1 ensures Congruent(t[1..][i], u[1..][i]) {
      assert t[1..][i] == t[i + 1] && u[1..][i] == u[i + 1];
    }
  }

  /** Texts of the same shape agree on their first character. */
  lemma ShapeHead(t: seq<Token>, u: seq<Token>)
    requires SameShape(t, u)
    ensures |Flatten(t)| > 0 <==> |Flatten(u)| > 0
    ensures |Flatten(t)| > 0 ==> Flatten(t)[0] == Flatten(u)[0]
  {
    if |t| > 0 {
      assert Flatten(t)[0] == Spell(t[0])[0];
      assert Flatten(u)[0] == Spell(u[0])[0];
    }
  }

  /** Whether a match begins at a text character depends only on the shape. */
  lemma ShapeStartsMarker(t: seq<Token>, u: seq<Token>)
    requires SameShape(t, u) && |t| > 0 && t[0].Text?
    ensures StartsMarker(Flatten(t)) <==> StartsMarker(Flatten(u))
  {
    var c := t[0].c;
    assert u[0] == Text(c);
    var x := Flatten(t[1..]);
    var y := Flatten(u[1..]);
    assert Flatten(t) == [c] + x;
    assert Flatten(u) == [c] + y;
    ShapeTail(t, u);
    ShapeHead(t[1..], u[1..]);
    if |x| > 0 && x[0] == 'v' {
      assert t[1].Text? && t[1].c == 'v';
      assert u[1] == t[1];
      ShapeTail(t[1..], u[1..]);
      assert t[1..][1..] == t[2..] && u[1..][1..] == u[2..];
      ShapeHead(t[2..], u[2..]);
      assert x == ['v'] + Flatten(t[2..]);
      assert y == ['v'] + Flatten(u[2..]);
    }
  }

  /** Replacing matches by matches of another digit string keeps a tokenization canonical. */
  lemma {:induction false} CanonicalShape(t: seq<Token>, u: seq<Token>)
    requires Canonical(t) && SameShape(t, u)
    ensures Canonical(u)
    decreases |t|
  {
    if |t| > 0 {
      ShapeTail(t, u);
      CanonicalShape(t[1..], u[1..]);
      if t[0].Text? {
        ShapeStartsMarker(t, u);
      } else {
        ShapeHead(t[1..], u[1..]);
      }
    }
  }
}
