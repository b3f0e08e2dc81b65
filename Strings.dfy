/**
 * String operations of JavaScript that the application relies on, on `seq<char>`:
 * `String.prototype.split` with a one-character separator and `String.prototype.trim`.
 * `Join` is not used by the application; it is the reference inverse of `Split`.
 */
module Strings {
  import opened Optional

  /** `s.split(sep)`: the pieces between occurrences of `sep`; never empty, and
      a single piece exactly when `sep` does not occur. */
  function Split(s: string, sep: char): (pieces: seq<string>)
    ensures |pieces| >= 1
    ensures |pieces| == 1 <==> sep !in s
    ensures forall k :: 0 <= k < |pieces| ==> sep !in pieces[k]
    decreases |s|
  {
    if |s| == 0 then [""]
    else
      var rest := Split(s[1..], sep);
      if s[0] == sep then [""] + rest
      else [[s[0]] + rest[0]] + rest[1..]
  }

  /** `pieces.join(sep)` */
  function Join(pieces: seq<string>, sep: char): string
    decreases |pieces|
  {
    if |pieces| == 0 then ""
    else if |pieces| == 1 then pieces[0]
    else pieces[0] + [sep] + Join(pieces[1..], sep)
  }

  lemma JoinFive(x0: string, x1: string, x2: string, x3: string, x4: string, sep: char)
    ensures Join([x0, x1, x2, x3, x4], sep) == x0 + [sep] + x1 + [sep] + x2 + [sep] + x3 + [sep] + x4
  {
    assert [x3, x4][1..] == [x4];
    assert Join([x3, x4], sep) == x3 + [sep] + x4;
    assert [x2, x3, x4][1..] == [x3, x4];
    assert Join([x2, x3, x4], sep) == x2 + [sep] + (x3 + [sep] + x4);
    assert [x1, x2, x3, x4][1..] == [x2, x3, x4];
    assert Join([x1, x2, x3, x4], sep) == x1 + [sep] + (x2 + [sep] + (x3 + [sep] + x4));
    assert [x0, x1, x2, x3, x4][1..] == [x1, x2, x3, x4];
  }

  lemma {:induction false} SplitWithoutSeparator(s: string, sep: char)
    requires sep !in s
    ensures Split(s, sep) == [s]
  {
    if |s| > 0 {
      SplitWithoutSeparator(s[1..], sep);
      assert [s[0]] + s[1..] == s;
    }
  }

  /** Splitting at the first separator. */
  lemma {:induction false} SplitAtFirst(x: string, sep: char, y: string)
    requires sep !in x
    ensures Split(x + [sep] + y, sep) == [x] + Split(y, sep)
  {
    var s := x + [sep] + y;
    if |x| == 0 {
      assert s[0] == sep && s[1..] == y;
    } else {
      assert s[0] == x[0] != sep;
      assert s[1..] == x[1..] + [sep] + y;
      SplitAtFirst(x[1..], sep, y);
      var rest := Split(s[1..], sep);
      assert rest == [x[1..]] + Split(y, sep);
      assert Split(s, sep) == [[x[0]] + rest[0]] + rest[1..];
      assert [x[0]] + x[1..] == x;
    }
  }

  /** Joining pieces that hold no separator and splitting again gives the pieces back. */
  lemma {:induction false} SplitJoin(pieces: seq<string>, sep: char)
    requires |pieces| >= 1
    requires forall k :: 0 <= k < |pieces| ==> sep !in pieces[k]
    ensures Split(Join(pieces, sep), sep) == pieces
  {
    if |pieces| == 1 {
      SplitWithoutSeparator(pieces[0], sep);
    } else {
      SplitJoin(pieces[1..], sep);
      SplitAtFirst(pieces[0], sep, Join(pieces[1..], sep));
      assert [pieces[0]] + pieces[1..] == pieces;
    }
  }

  /** Splitting and joining again gives the string back. */
  lemma {:induction false} JoinSplit(s: string, sep: char)
    ensures Join(Split(s, sep), sep) == s
    decreases |s|
  {
    if |s| > 0 {
      var rest := Split(s[1..], sep);
      JoinSplit(s[1..], sep);
      if s[0] == sep {
        assert Split(s, sep) == [""] + rest;
        assert ([""] + rest)[1..] == rest;
        assert [s[0]] + s[1..] == s;
      } else {
        var pieces := Split(s, sep);
        assert pieces == [[s[0]] + rest[0]] + rest[1..];
        if |rest| == 1 {
          assert [s[0]] + s[1..] == s;
        } else {
          assert pieces[1..] == rest[1..];
          assert Join(rest, sep) == rest[0] + [sep] + Join(rest[1..], sep);
          assert [s[0]] + s[1..] == s;
        }
      }
    }
  }

  /** `sub` occurs in `s` starting at index `i`. */
  predicate OccursAt(s: string, sub: string, i: int) {
    0 <= i <= |s| - |sub| && s[i..i + |sub|] == sub
  }

  /** `s.includes(sub)` */
  predicate Contains(s: string, sub: string) {
    exists i :: 0 <= i <= |s| - |sub| && OccursAt(s, sub, i)
  }

  predicate StartsWith(s: string, prefix: string) {
    OccursAt(s, prefix, 0)
  }

  predicate EndsWith(s: string, suffix: string) {
    |suffix| <= |s| && OccursAt(s, suffix, |s| - |suffix|)
  }

  lemma ConcatParts(x: string, y: string)
    ensures StartsWith(x + y, x) && EndsWith(x + y, y)
    ensures OccursAt(x + y, y, |x|)
  {
    assert (x + y)[..|x|] == x;
    assert (x + y)[|x|..] == y;
  }

  /** An occurrence inside an occurrence. */
  lemma OccursWithin(s: string, t: string, u: string, i: int, j: int)
    requires OccursAt(s, t, i) && OccursAt(t, u, j)
    ensures OccursAt(s, u, i + j)
  {
    forall m | 0 <= m < |u|
      ensures s[i + j + m] == u[m]
    {
      assert s[i..i + |t|][j + m] == t[j + m] == t[j..j + |u|][m];
    }
    assert s[i + j..i + j + |u|] == u;
  }

  /** The three parts of `lead + v + tail`, at their positions. */
  lemma Framed(lead: string, v: string, tail: string)
    ensures StartsWith(lead + v + tail, lead)
    ensures OccursAt(lead + v + tail, v, |lead|)
    ensures EndsWith(lead + v + tail, tail)
  {
    ConcatParts(lead, v);
    ConcatParts(lead + v, tail);
    OccursWithin(lead + v + tail, lead + v, lead, 0, 0);
    OccursWithin(lead + v + tail, lead + v, v, 0, |lead|);
  }

  /** The text between a known prefix and a known suffix, if `s` has both. */
  function Between(s: string, prefix: string, suffix: string): Option<string> {
    if |prefix| + |suffix| <= |s| && StartsWith(s, prefix) && EndsWith(s, suffix)
    then Some(s[|prefix|..|s| - |suffix|])
    else None
  }

  /** `Between` recovers exactly what was framed, and succeeds only on framed strings. */
  lemma BetweenFramed(prefix: string, v: string, suffix: string)
    ensures Between(prefix + v + suffix, prefix, suffix) == Some(v)
  {
    Framed(prefix, v, suffix);
    var s := prefix + v + suffix;
    assert s[|prefix|..|s| - |suffix|] == v;
  }

  lemma BetweenSome(s: string, prefix: string, suffix: string)
    requires Between(s, prefix, suffix).Some?
    ensures s == prefix + Between(s, prefix, suffix).value + suffix
  {
    var v := Between(s, prefix, suffix).value;
    assert s == s[..|prefix|] + v + s[|s| - |suffix|..];
  }

  /** Where piece `k` starts in `Join(pieces, sep)`. */
  function PieceStart(pieces: seq<string>, k: nat): nat
    requires k < |pieces|
    decreases k
  {
    if k == 0 then 0 else |pieces[0]| + 1 + PieceStart(pieces[1..], k - 1)
  }

  lemma JoinFiveLayout(x0: string, x1: string, x2: string, x3: string, x4: string, sep: char)
    ensures var s := Join([x0, x1, x2, x3, x4], sep);
      && |s| == |x0| + |x1| + |x2| + |x3| + |x4| + 4
      && OccursAt(s, x0, 0)
      && OccursAt(s, x1, |x0| + 1)
      && OccursAt(s, x2, |x0| + |x1| + 2)
      && OccursAt(s, x3, |x0| + |x1| + |x2| + 3)
      && OccursAt(s, x4, |x0| + |x1| + |x2| + |x3| + 4)
  {
    var xs := [x0, x1, x2, x3, x4];
    assert xs[1..] == [x1, x2, x3, x4];
    assert xs[1..][1..] == [x2, x3, x4];
    assert xs[1..][1..][1..] == [x3, x4];
    JoinPieceAt(xs, sep, 0);
    JoinPieceAt(xs, sep, 1);
    JoinPieceAt(xs, sep, 2);
    JoinPieceAt(xs, sep, 3);
    JoinPieceAt(xs, sep, 4);
  }

  /** The joined string starts with the first piece and ends with the last one,
      here a piece made of three parts. */
  lemma JoinFiveEnds(x0: string, x1: string, x2: string, x3: string, lead: string, mid: string, tail: string, sep: char)
    ensures var s := Join([x0, x1, x2, x3, lead + mid + tail], sep);
      && StartsWith(s, x0)
      && EndsWith(s, tail)
      && OccursAt(s, mid, |s| - |tail| - |mid|)
      && Contains(s, mid)
  {
    var x4 := lead + mid + tail;
    var s := Join([x0, x1, x2, x3, x4], sep);
    JoinFiveLayout(x0, x1, x2, x3, x4, sep);
    var at := |s| - |x4|;
    Framed(lead, mid, tail);
    OccursWithin(s, x4, tail, at, |x4| - |tail|);
    OccursWithin(s, x4, mid, at, |lead|);
    assert at + |lead| == |s| - |tail| - |mid|;
  }

  /** Each piece occurs in the joined string at its start position, and the last
      one ends it. */
  lemma {:induction false} JoinPieceAt(pieces: seq<string>, sep: char, k: nat)
    requires k < |pieces|
    ensures OccursAt(Join(pieces, sep), pieces[k], PieceStart(pieces, k))
    ensures k == |pieces| - 1 ==> |Join(pieces, sep)| == PieceStart(pieces, k) + |pieces[k]|
    decreases k
  {
    var s := Join(pieces, sep);
    if |pieces| == 1 {
      ConcatParts(pieces[0], "");
      assert pieces[0] + "" == s;
    } else {
      var rest := Join(pieces[1..], sep);
      assert s == pieces[0] + [sep] + rest;
      if k == 0 {
        ConcatParts(pieces[0], [sep] + rest);
        assert pieces[0] + ([sep] + rest) == s;
      } else {
        JoinPieceAt(pieces[1..], sep, k - 1);
        ConcatParts(pieces[0] + [sep], rest);
        OccursWithin(s, rest, pieces[k], |pieces[0]| + 1, PieceStart(pieces[1..], k - 1));
      }
    }
  }

  /** A non-empty string without the separator, longer than every piece, does
      not occur in the joined pieces: an occurrence would have to straddle a separator. */
  lemma {:induction false} NotContainedInShortPieces(pieces: seq<string>, sep: char, sub: string)
    requires |sub| > 0 && sep !in sub
    requires forall k :: 0 <= k < |pieces| ==> |pieces[k]| < |sub|
    ensures !Contains(Join(pieces, sep), sub)
    decreases |pieces|
  {
    if |pieces| == 0 {
    } else if |pieces| == 1 {
    } else {
      var first, rest := pieces[0], Join(pieces[1..], sep);
      var s := Join(pieces, sep);
      assert s == first + [sep] + rest;
      NotContainedInShortPieces(pieces[1..], sep, sub);
      forall i | 0 <= i <= |s| - |sub|
        ensures !OccursAt(s, sub, i)
      {
        if i <= |first| {
          // an occurrence starting here would cover the separator
          assert s[i..i + |sub|][|first| - i] == sep;
        } else {
          var j := i - |first| - 1;
          assert s[i..i + |sub|] == rest[j..j + |sub|];
          assert !OccursAt(rest, sub, j);
        }
      }
    }
  }

  lemma NotInFiveShortPieces(x0: string, x1: string, x2: string, x3: string, x4: string, sep: char, sub: string)
    requires |sub| > 0 && sep !in sub
    requires |x0| < |sub| && |x1| < |sub| && |x2| < |sub| && |x3| < |sub| && |x4| < |sub|
    ensures !Contains(Join([x0, x1, x2, x3, x4], sep), sub)
  {
    NotContainedInShortPieces([x0, x1, x2, x3, x4], sep, sub);
  }

  /** The characters that `trim` removes: ECMAScript's WhiteSpace and LineTerminator. */
  predicate IsWhitespace(c: char) {
    c == '\t' || c == '\n' || c == '\U{000B}' || c == '\U{000C}' || c == '\r' || c == ' '
    || c == '\U{00A0}' || c == '\U{1680}' || ('\U{2000}' <= c <= '\U{200A}')
    || c == '\U{2028}' || c == '\U{2029}' || c == '\U{202F}' || c == '\U{205F}'
    || c == '\U{3000}' || c == '\U{FEFF}'
  }

  /** `s.trimStart()` */
  function TrimStart(s: string): string
    decreases |s|
  {
    if |s| > 0 && IsWhitespace(s[0]) then TrimStart(s[1..]) else s
  }

  /** `s.trimEnd()` */
  function TrimEnd(s: string): string
    decreases |s|
  {
    if |s| > 0 && IsWhitespace(s[|s| - 1]) then TrimEnd(s[..|s| - 1]) else s
  }

  /** `s.trim()` */
  function Trim(s: string): string {
    TrimEnd(TrimStart(s))
  }

  /** `TrimStart` keeps a suffix of `s`: everything dropped is whitespace and
      what is kept does not start with whitespace. */
  lemma {:induction false} TrimStartKeepsSuffix(s: string)
    ensures var r := TrimStart(s);
      && |r| <= |s| && r == s[|s| - |r|..]
      && (forall k :: 0 <= k < |s| - |r| ==> IsWhitespace(s[k]))
      && (|r| > 0 ==> !IsWhitespace(r[0]))
    decreases |s|
  {
    if |s| > 0 && IsWhitespace(s[0]) {
      TrimStartKeepsSuffix(s[1..]);
    }
  }

  /** `TrimEnd` keeps a prefix of `s`: everything dropped is whitespace and
      what is kept does not end with whitespace. */
  lemma {:induction false} TrimEndKeepsPrefix(s: string)
    ensures var r := TrimEnd(s);
      && |r| <= |s| && r == s[..|r|]
      && (forall k :: |r| <= k < |s| ==> IsWhitespace(s[k]))
      && (|r| > 0 ==> !IsWhitespace(r[|r| - 1]))
    decreases |s|
  {
    if |s| > 0 && IsWhitespace(s[|s| - 1]) {
      TrimEndKeepsPrefix(s[..|s| - 1]);
    }
  }

  /** A string that neither starts nor ends with whitespace is its own trim. */
  lemma TrimUnchanged(s: string)
    requires |s| > 0 && !IsWhitespace(s[0]) && !IsWhitespace(s[|s| - 1])
    ensures Trim(s) == s
  {
    TrimStartKeepsSuffix(s);
    var t := TrimStart(s);
    assert |s| - |t| == 0;
    assert t == s;
    TrimEndKeepsPrefix(t);
    var r := TrimEnd(t);
    assert |r| == |t|;
  }

  /** `trim` removes exactly the leading and trailing whitespace: the result is a
      slice of `s`, everything cut off is whitespace, and the result neither starts
      nor ends with whitespace. */
  lemma TrimRemovesOuterWhitespace(s: string)
    ensures exists i, j :: 0 <= i <= j <= |s| && Trim(s) == s[i..j]
              && (forall k :: 0 <= k < i ==> IsWhitespace(s[k]))
              && (forall k :: j <= k < |s| ==> IsWhitespace(s[k]))
    ensures |Trim(s)| > 0 ==> !IsWhitespace(Trim(s)[0]) && !IsWhitespace(Trim(s)[|Trim(s)| - 1])
  {
    var t := TrimStart(s);
    TrimStartKeepsSuffix(s);
    TrimEndKeepsPrefix(t);
    var r := TrimEnd(t);
    var i := |s| - |t|;
    var j := i + |r|;
    assert r == s[i..j];
    forall k | j <= k < |s| ensures IsWhitespace(s[k]) {
      assert s[k] == t[k - i];
    }
    if |r| > 0 {
      assert r[0] == t[0];
    }
  }
}
