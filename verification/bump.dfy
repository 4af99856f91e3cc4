/**
  One file's rewrite: `content.replace(pattern, callback)` with the default
  pattern, where the callback parses the digit group, computes the new version
  from the mode, and puts the prefix and the new number in place of the match
  only when the number changes.
 */
module Bump {
  import opened Decimal
  import opened Scanner
  import opened Flags

  /** The new version of one match: reset to 1 wins; otherwise increase; otherwise keep. */
  function NewVersion(m: Mode, current: nat): nat {
    if m.shouldFresh then 1 else if m.shouldIncrease then current + 1 else current
  }

  /**
    The digit group that takes the place of `d`: the rendering of the new version
    when it differs from the parsed one, the matched digits verbatim otherwise.
   */
  function BumpDigits(m: Mode, d: string): (r: string)
    requires IsDigitRun(d)
    ensures IsDigitRun(r)
    ensures Parse(r) == NewVersion(m, Parse(d))
    ensures r == d <==> NewVersion(m, Parse(d)) == Parse(d)
    ensures r != d ==> NoLeadingZero(r)
  {
    var current := Parse(d);
    var newVer := NewVersion(m, current);
    ParseShow(newVer);
    if newVer != current then Show(newVer) else d
  }

  /** The callback decides to replace this match. */
  predicate Changes(m: Mode, tok: Token)
    requires ValidToken(tok)
  {
    tok.Marker? && NewVersion(m, Parse(tok.digits)) != Parse(tok.digits)
  }

  function BumpToken(m: Mode, tok: Token): Token
    requires ValidToken(tok)
  {
    match tok
    case Text(_) => tok
    case Marker(d) => Marker(BumpDigits(m, d))
  }

  /** Every token after the callback has run on each match. */
  function BumpAll(m: Mode, t: seq<Token>): (u: seq<Token>)
    requires WellFormed(t)
    ensures SameShape(t, u)
    ensures forall i :: 0 <= i < |t| ==> u[i] == BumpToken(m, t[i])
  {
    seq(|t|, i requires 0 <= i < |t| => BumpToken(m, t[i]))
  }

  /** One line of the change log: the match and what replaced it. */
  datatype Edit = Edit(before: string, after: string)

  function EditOf(m: Mode, tok: Token): Edit
    requires ValidToken(tok)
  {
    Edit(Spell(tok), Spell(BumpToken(m, tok)))
  }

  /** What one `replace` call yields: the new text, the `hasChange` flag and the change log. */
  datatype FileRewrite = FileRewrite(content: string, hasChange: bool, edits: seq<Edit>)

  /** The callback run on each match from left to right, the result assembled as it goes. */
  function RewriteTokens(m: Mode, t: seq<Token>): (r: FileRewrite)
    requires WellFormed(t)
    ensures r.content == Flatten(BumpAll(m, t))
    ensures r.hasChange <==> exists i :: 0 <= i < |t| && Changes(m, t[i])
    ensures r.hasChange <==> |r.edits| > 0
    decreases |t|
  {
    if |t| == 0 then FileRewrite([], false, [])
    else
      var rest := RewriteTokens(m, t[1..]);
      assert BumpAll(m, t)[1..] == BumpAll(m, t[1..]);
      assert forall i :: 1 <= i < |t| ==> t[i] == t[1..][i - 1];
      if Changes(m, t[0]) then
        FileRewrite(Spell(BumpToken(m, t[0])) + rest.content, true, [EditOf(m, t[0])] + rest.edits)
      else
        FileRewrite(Spell(t[0]) + rest.content, rest.hasChange, rest.edits)
  }

  /** `content.replace(/(_v)(\d+)/g, callback)` for one file's text. */
  function Rewrite(m: Mode, s: string): FileRewrite {
    RewriteTokens(m, Tokenize(s))
  }

  /** A log line always shows a different text after the arrow than before it. */
  lemma EditDiffers(m: Mode, tok: Token)
    requires ValidToken(tok) && Changes(m, tok)
    ensures EditOf(m, tok).before != EditOf(m, tok).after
  {
    var e := EditOf(m, tok);
    assert e.before[2..] == tok.digits && e.after[2..] == BumpDigits(m, tok.digits);
  }

  /** Each log line records a match that was replaced, and each replaced match has its line. */
  lemma {:induction false} EditLog(m: Mode, t: seq<Token>)
    requires WellFormed(t)
    ensures forall e :: e in RewriteTokens(m, t).edits ==>
              e.before != e.after && exists i :: 0 <= i < |t| && Changes(m, t[i]) && e == EditOf(m, t[i])
    ensures forall i :: 0 <= i < |t| && Changes(m, t[i]) ==> EditOf(m, t[i]) in RewriteTokens(m, t).edits
    decreases |t|
  {
    if |t| > 0 {
      var rest := RewriteTokens(m, t[1..]);
      EditLog(m, t[1..]);
      assert forall i :: 1 <= i < |t| ==> t[i] == t[1..][i - 1];
      if Changes(m, t[0]) {
        EditDiffers(m, t[0]);
        assert RewriteTokens(m, t).edits == [EditOf(m, t[0])] + rest.edits;
      } else {
        assert RewriteTokens(m, t).edits == rest.edits;
      }
    }
  }

  /**
    The positions, from `from` on and in increasing order, of the matches whose
    version changes: exactly the calls of the callback that return a new text.
   */
  function ChangesFrom(m: Mode, t: seq<Token>, from: nat): (idx: seq<nat>)
    requires WellFormed(t) && from <= |t|
    ensures forall j :: 0 <= j < |idx| ==> from <= idx[j] < |t| && Changes(m, t[idx[j]])
    ensures forall j, k :: 0 <= j < k < |idx| ==> idx[j] < idx[k]
    ensures forall i :: from <= i < |t| && Changes(m, t[i]) ==> i in idx
    decreases |t| - from
  {
    if from == |t| then []
    else if Changes(m, t[from]) then [from] + ChangesFrom(m, t, from + 1)
    else ChangesFrom(m, t, from + 1)
  }

  /** The log of the suffix from `from`: one line per changing match, in the order of the matches. */
  lemma {:induction false} EditLogFrom(m: Mode, t: seq<Token>, from: nat)
    requires WellFormed(t) && from <= |t|
    ensures var edits := RewriteTokens(m, t[from..]).edits;
            var idx := ChangesFrom(m, t, from);
            |edits| == |idx| && forall j :: 0 <= j < |idx| ==> edits[j] == EditOf(m, t[idx[j]])
    decreases |t| - from
  {
    if from < |t| {
      EditLogFrom(m, t, from + 1);
      var u := t[from..];
      assert u[0] == t[from] && u[1..] == t[from + 1..];
      EditsStep(m, u);
      LogAligned(m, t, from, RewriteTokens(m, t[from + 1..]).edits, ChangesFrom(m, t, from + 1));
    }
  }

  /** One step of the fold, as far as the log is concerned. */
  lemma EditsStep(m: Mode, u: seq<Token>)
    requires WellFormed(u) && |u| > 0
    ensures RewriteTokens(m, u).edits
            == (if Changes(m, u[0]) then [EditOf(m, u[0])] else []) + RewriteTokens(m, u[1..]).edits
  {
  }

  /** Putting the line of position `from`, if it changes, in front of an aligned log keeps it aligned. */
  lemma LogAligned(m: Mode, t: seq<Token>, from: nat, rest: seq<Edit>, idx: seq<nat>)
    requires WellFormed(t) && from < |t|
    requires idx == ChangesFrom(m, t, from + 1)
    requires |rest| == |idx| && forall j :: 0 <= j < |idx| ==> rest[j] == EditOf(m, t[idx[j]])
    ensures var edits := (if Changes(m, t[from]) then [EditOf(m, t[from])] else []) + rest;
            var all := ChangesFrom(m, t, from);
            |edits| == |all| && forall j :: 0 <= j < |all| ==> edits[j] == EditOf(m, t[all[j]])
  {
  }

  /**
    The change log has exactly one line per match whose version changes, and the
    lines come in the order of those matches in the text.
   */
  lemma EditLogInOrder(m: Mode, t: seq<Token>)
    requires WellFormed(t)
    ensures var edits := RewriteTokens(m, t).edits;
            var idx := ChangesFrom(m, t, 0);
            |edits| == |idx| && forall j :: 0 <= j < |idx| ==> edits[j] == EditOf(m, t[idx[j]])
  {
    EditLogFrom(m, t, 0);
    assert t[0..] == t;
  }

  /**
    Scanning the output finds the input's tokens again: every character outside
    a match is where it was, and every match is still a match, now holding its
    bumped digits.
   */
  lemma RewriteTokenizes(m: Mode, s: string)
    ensures Tokenize(Rewrite(m, s).content) == BumpAll(m, Tokenize(s))
    ensures SameShape(Tokenize(s), Tokenize(Rewrite(m, s).content))
  {
    var t := Tokenize(s);
    TokenizeCanonical(s);
    CanonicalShape(t, BumpAll(m, t));
    CanonicalUnique(BumpAll(m, t));
  }

  /** Putting every match back unchanged gives the input back. */
  lemma BumpAllIdentity(m: Mode, t: seq<Token>)
    requires WellFormed(t)
    requires forall i :: 0 <= i < |t| ==> !Changes(m, t[i])
    ensures BumpAll(m, t) == t
  {
    forall i | 0 <= i < |t| ensures BumpAll(m, t)[i] == t[i] {
      assert ValidToken(t[i]);
    }
  }

  /** The `hasChange` flag is set exactly when the rewritten text differs from the file's text. */
  lemma HasChangeIffDiffers(m: Mode, s: string)
    ensures Rewrite(m, s).hasChange <==> Rewrite(m, s).content != s
  {
    var t := Tokenize(s);
    var r := Rewrite(m, s);
    if r.hasChange {
      var i :| 0 <= i < |t| && Changes(m, t[i]);
      assert ValidToken(t[i]);
      assert BumpAll(m, t)[i] != t[i];
      RewriteTokenizes(m, s);
    } else {
      BumpAllIdentity(m, t);
    }
  }

  /** A text in which no match would change comes back as it is, with nothing logged. */
  lemma NoChangingMatch(m: Mode, s: string)
    requires forall i :: 0 <= i < |Tokenize(s)| ==> !Changes(m, Tokenize(s)[i])
    ensures Rewrite(m, s) == FileRewrite(s, false, [])
  {
    BumpAllIdentity(m, Tokenize(s));
  }

  /** A mode with neither switch on leaves every match, and so the whole text, as it was. */
  lemma InactiveKeepsText(m: Mode, s: string)
    requires !m.Active()
    ensures Rewrite(m, s) == FileRewrite(s, false, [])
  {
    NoChangingMatch(m, s);
  }

  /** The callback only ever looks at the new version, so modes that agree on it rewrite alike. */
  lemma {:induction false} SameVersionsSameRewrite(m1: Mode, m2: Mode, t: seq<Token>)
    requires WellFormed(t)
    requires forall v: nat :: NewVersion(m1, v) == NewVersion(m2, v)
    ensures RewriteTokens(m1, t) == RewriteTokens(m2, t)
    decreases |t|
  {
    if |t| > 0 {
      SameVersionsSameRewrite(m1, m2, t[1..]);
      assert ValidToken(t[0]);
    }
  }

  /** Under reset every match ends up holding version 1. */
  lemma FreshBumpsToOne(m: Mode, t: seq<Token>)
    requires m.shouldFresh && WellFormed(t)
    ensures forall i :: 0 <= i < |t| && BumpAll(m, t)[i].Marker? ==> Parse(BumpAll(m, t)[i].digits) == 1
  {
    var u := BumpAll(m, t);
    forall i | 0 <= i < |t| && u[i].Marker? ensures Parse(u[i].digits) == 1 {
      assert ValidToken(t[i]);
    }
  }

  /**
    Reset wins: whenever it is on, the increase switch makes no difference, and
    every match of the output holds version 1.
   */
  lemma FreshWins(m: Mode, s: string)
    requires m.shouldFresh
    ensures Rewrite(m, s) == Rewrite(Mode(false, true), s)
    ensures var u := Tokenize(Rewrite(m, s).content);
            forall i :: 0 <= i < |u| && u[i].Marker? ==> Parse(u[i].digits) == 1
  {
    SameVersionsSameRewrite(m, Mode(false, true), Tokenize(s));
    RewriteTokenizes(m, s);
    FreshBumpsToOne(m, Tokenize(s));
  }

  /** Reset is idempotent: a second reset over its own output changes nothing and logs nothing. */
  lemma FreshIdempotent(m: Mode, s: string)
    requires m.shouldFresh
    ensures var out := Rewrite(m, s).content;
            Rewrite(m, out) == FileRewrite(out, false, [])
  {
    var out := Rewrite(m, s).content;
    FreshWins(m, s);
    NoChangingMatch(m, out);
  }

  /**
    `u` is `t` with every character outside a match kept and every match's
    version raised by `k`; after at least one raise the digits carry no padding.
   */
  predicate RaisedBy(t: seq<Token>, u: seq<Token>, k: nat)
    requires WellFormed(t) && WellFormed(u)
  {
    |u| == |t| &&
    forall i :: 0 <= i < |t| ==>
      (t[i].Text? ==> u[i] == t[i]) &&
      (t[i].Marker? ==> u[i].Marker? && Parse(u[i].digits) == Parse(t[i].digits) + k
                        && (k > 0 ==> u[i].digits == Show(Parse(t[i].digits) + k)))
  }

  /** Increase alone replaces every match by the prefix and its version plus one. */
  lemma IncreaseStep(s: string)
    ensures RaisedBy(Tokenize(s), Tokenize(Rewrite(Mode(true, false), s).content), 1)
  {
    RewriteTokenizes(Mode(true, false), s);
    var t := Tokenize(s);
    forall i | 0 <= i < |t| ensures ValidToken(t[i]) {
    }
  }

  /** The text after `k` runs in the same mode, each over the previous run's output. */
  function Repeat(m: Mode, s: string, k: nat): string
    decreases k
  {
    if k == 0 then s else Rewrite(m, Repeat(m, s, k - 1)).content
  }

  /** Every tokenization is raised by zero from itself. */
  lemma RaisedRefl(t: seq<Token>)
    requires WellFormed(t)
    ensures RaisedBy(t, t, 0)
  {
  }

  /** Raising by `k` and then by one more raises by `k + 1`. */
  lemma RaisedCompose(t: seq<Token>, p: seq<Token>, u: seq<Token>, k: nat)
    requires WellFormed(t) && WellFormed(p) && WellFormed(u)
    requires RaisedBy(t, p, k) && RaisedBy(p, u, 1)
    ensures RaisedBy(t, u, k + 1)
  {
    forall i | 0 <= i < |t| && t[i].Marker?
      ensures Parse(u[i].digits) == Parse(t[i].digits) + k + 1
    {
      assert p[i].Marker?;
    }
  }

  /** One more increase run raises every version by one more. */
  lemma IncreaseAgain(s: string, prev: string, next: string, k: nat)
    requires k > 0 && RaisedBy(Tokenize(s), Tokenize(prev), k - 1)
    requires next == Rewrite(Mode(true, false), prev).content
    ensures RaisedBy(Tokenize(s), Tokenize(next), k)
  {
    IncreaseStep(prev);
    RaisedCompose(Tokenize(s), Tokenize(prev), Tokenize(next), k - 1);
  }

  /** Increase applied `k` times turns every `_vN` into `_v` followed by the rendering of N+k. */
  lemma {:induction false} IncreaseRepeated(s: string, k: nat)
    ensures RaisedBy(Tokenize(s), Tokenize(Repeat(Mode(true, false), s, k)), k)
    decreases k
  {
    if k == 0 {
      RaisedRefl(Tokenize(s));
    } else {
      IncreaseRepeated(s, k - 1);
      IncreaseAgain(s, Repeat(Mode(true, false), s, k - 1), Repeat(Mode(true, false), s, k), k);
    }
  }

  /** Where no match starts, the replace call copies the character and goes on. */
  lemma RewriteAtText(m: Mode, c: char, rest: string)
    requires !StartsMarker([c] + rest)
    ensures var r := Rewrite(m, rest);
            Rewrite(m, [c] + rest) == FileRewrite([c] + r.content, r.hasChange, r.edits)
  {
    TokenizeText(c, rest);
    var t := [Text(c)] + Tokenize(rest);
    assert t[1..] == Tokenize(rest);
  }

  /**
    At a match the replace call emits the prefix and either the new version's
    rendering (logging the change) or the matched digits, then goes on after
    the match.
   */
  lemma RewriteAtMatch(m: Mode, d: string, rest: string)
    requires IsDigitRun(d) && !StartsWithDigit(rest)
    ensures var r := Rewrite(m, rest);
            var newVer := NewVersion(m, Parse(d));
            Rewrite(m, Prefix + d + rest) ==
              if newVer != Parse(d) then
                FileRewrite(Prefix + Show(newVer) + r.content, true, [Edit(Prefix + d, Prefix + Show(newVer))] + r.edits)
              else
                FileRewrite(Prefix + d + r.content, r.hasChange, r.edits)
  {
    TokenizeMarker(d, rest);
    var t := [Marker(d)] + Tokenize(rest);
    assert t[1..] == Tokenize(rest);
  }

  /** Splitting off the first character of a concatenation. */
  lemma ConsSplit(w: string, rest: string)
    requires |w| > 0
    ensures w + rest == [w[0]] + (w[1..] + rest)
  {
    assert w == [w[0]] + w[1..];
  }

  /** A stretch of text without an underscore holds no match and is copied as it is. */
  lemma {:induction false} RewritePlain(m: Mode, w: string, rest: string)
    requires '_' !in w
    ensures var r := Rewrite(m, rest);
            Rewrite(m, w + rest) == FileRewrite(w + r.content, r.hasChange, r.edits)
    decreases |w|
  {
    var r := Rewrite(m, rest);
    if |w| == 0 {
      assert w + rest == rest;
      assert w + r.content == r.content;
    } else {
      var c := w[0];
      var tail := w[1..] + rest;
      assert c != '_' by { assert c in w; }
      assert '_' !in w[1..] by { assert forall x :: x in w[1..] ==> x in w; }
      ConsSplit(w, rest);
      ConsSplit(w, r.content);
      RewritePlain(m, w[1..], rest);
      RewriteAtText(m, c, tail);
    }
  }
}
