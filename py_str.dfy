/**
 * The Python `str` operations that the feature extractor relies on
 * (`count`, `in`, `startswith`, `split`, `lower`, `isdigit`, `isalpha`),
 * over Dafny strings. Character classes and case mapping are ASCII only.
 */
module PyStr {

  /** `s.count(c)` for a one-character string `c`. */
  function Count(s: string, c: char): (n: nat)
    ensures n <= |s|
  {
    if |s| == 0 then 0 else (if s[0] == c then 1 else 0) + Count(s[1..], c)
  }

  /** A character is counted zero times exactly when it does not occur. */
  lemma {:induction false} CountZero(s: string, c: char)
    ensures Count(s, c) == 0 <==> c !in s
  {
    if |s| > 0 {
      CountZero(s[1..], c);
      assert s == [s[0]] + s[1..];
    }
  }

  /** A character count depends only on the multiset of characters. */
  lemma {:induction false} CountIsMultiplicity(s: string, c: char)
    ensures Count(s, c) == multiset(s)[c]
  {
    if |s| > 0 {
      assert s == [s[0]] + s[1..];
      CountIsMultiplicity(s[1..], c);
    }
  }

  /** `c.isdigit()`, restricted to ASCII. */
  predicate IsDigit(c: char) {
    '0' <= c <= '9'
  }

  /** `c.isalpha()`, restricted to ASCII. */
  predicate IsAlpha(c: char) {
    'A' <= c <= 'Z' || 'a' <= c <= 'z'
  }

  /** `sum(c.isdigit() for c in s)` */
  function CountDigits(s: string): (n: nat)
    ensures n <= |s|
  {
    if |s| == 0 then 0 else (if IsDigit(s[0]) then 1 else 0) + CountDigits(s[1..])
  }

  /** `sum(c.isalpha() for c in s)` */
  function CountAlpha(s: string): (n: nat)
    ensures n <= |s|
  {
    if |s| == 0 then 0 else (if IsAlpha(s[0]) then 1 else 0) + CountAlpha(s[1..])
  }

  /** `s.startswith(p)` */
  predicate StartsWith(s: string, p: string) {
    |p| <= |s| && s[..|p|] == p
  }

  /** `w in s`: `w` occurs as a contiguous substring of `s`. */
  predicate Contains(s: string, w: string)
    decreases |s|
  {
    StartsWith(s, w) || (|s| > 0 && Contains(s[1..], w))
  }

  /** `w` occurs in `s` starting at index `i`. */
  predicate OccursAt(s: string, w: string, i: int) {
    0 <= i <= |s| - |w| && s[i..i + |w|] == w
  }

  /** A window of `s` equal to `w` is found by the recursive search. */
  lemma {:induction false} OccursContains(s: string, w: string, i: int)
    requires OccursAt(s, w, i)
    ensures Contains(s, w)
    decreases i
  {
    if i > 0 {
      assert OccursAt(s[1..], w, i - 1) by {
        assert s[1..][i - 1..i - 1 + |w|] == s[i..i + |w|];
      }
      OccursContains(s[1..], w, i - 1);
    }
  }

  /** The recursive search succeeds only at some window of `s` equal to `w`. */
  lemma {:induction false} ContainsOccurs(s: string, w: string) returns (i: int)
    requires Contains(s, w)
    ensures OccursAt(s, w, i)
    decreases |s|
  {
    if StartsWith(s, w) {
      i := 0;
    } else {
      var j := ContainsOccurs(s[1..], w);
      assert s[j + 1..j + 1 + |w|] == s[1..][j..j + |w|];
      i := j + 1;
    }
  }

  /** The recursive search agrees with "some window of `s` equals `w`". */
  lemma ContainsIffOccurs(s: string, w: string)
    ensures Contains(s, w) <==> exists i :: OccursAt(s, w, i)
  {
    if Contains(s, w) {
      var i := ContainsOccurs(s, w);
    }
    if exists i :: OccursAt(s, w, i) {
      var i :| OccursAt(s, w, i);
      OccursContains(s, w, i);
    }
  }

  /** `c.lower()` for one character, ASCII only. */
  function LowerChar(c: char): char {
    if 'A' <= c <= 'Z' then (c as int + 32) as char else c
  }

  /** `s.lower()`, ASCII only. */
  function Lower(s: string): (r: string)
    ensures |r| == |s|
  {
    seq(|s|, i requires 0 <= i < |s| => LowerChar(s[i]))
  }

  /**
   * The longest prefix of `s` that holds no character of `stops`; it is
   * followed by a stop character unless it is the whole of `s`.
   */
  function PrefixBefore(s: string, stops: set<char>): (r: string)
    ensures |r| <= |s| && r == s[..|r|]
    ensures forall i :: 0 <= i < |r| ==> r[i] !in stops
    ensures |r| < |s| ==> s[|r|] in stops
  {
    if |s| == 0 || s[0] in stops then "" else [s[0]] + PrefixBefore(s[1..], stops)
  }

  /** `s.split(d)` for a one-character separator `d`. */
  function Split(s: string, d: char): (parts: seq<string>)
    ensures |parts| >= 1
    decreases |s|
  {
    if |s| == 0 then [""]
    else
      var rest := Split(s[1..], d);
      if s[0] == d then [""] + rest else [[s[0]] + rest[0]] + rest[1..]
  }

  /** There is one more piece than there are separators. */
  lemma {:induction false} SplitCount(s: string, d: char)
    ensures |Split(s, d)| == Count(s, d) + 1
  {
    if |s| > 0 {
      SplitCount(s[1..], d);
    }
  }

  /** No piece holds the separator, and none is longer than the string. */
  lemma {:induction false} SplitPieces(s: string, d: char)
    ensures forall i :: 0 <= i < |Split(s, d)| ==> d !in Split(s, d)[i] && |Split(s, d)[i]| <= |s|
  {
    if |s| > 0 {
      SplitPieces(s[1..], d);
    }
  }

  /** `d.join(parts)`, the inverse of `Split`. */
  function Join(parts: seq<string>, d: char): string
    requires |parts| >= 1
  {
    if |parts| == 1 then parts[0] else parts[0] + [d] + Join(parts[1..], d)
  }

  /** Joining a first piece onto further pieces puts one separator between them. */
  lemma JoinCons(a: string, rest: seq<string>, d: char)
    requires |rest| >= 1
    ensures Join([a] + rest, d) == a + [d] + Join(rest, d)
  {
    assert ([a] + rest)[1..] == rest;
  }

  lemma {:induction false} SplitNoSeparator(s: string, d: char)
    requires d !in s
    ensures Split(s, d) == [s]
  {
    if |s| > 0 {
      SplitNoSeparator(s[1..], d);
      assert [s[0]] + s[1..] == s;
    }
  }

  lemma {:induction false} SplitPrefix(p: string, d: char, t: string)
    requires d !in p
    ensures Split(p + [d] + t, d) == [p] + Split(t, d)
  {
    var s := p + [d] + t;
    if |p| == 0 {
      assert s[1..] == t;
    } else {
      assert s[1..] == p[1..] + [d] + t;
      SplitPrefix(p[1..], d, t);
      assert [p[0]] + p[1..] == p;
    }
  }

  /** Splitting peels off the piece before the first separator. */
  lemma SplitAt(s: string, d: char)
    ensures var p := PrefixBefore(s, {d});
      && (d !in s ==> p == s && Split(s, d) == [s])
      && (d in s ==> |p| < |s| && s == p + [d] + s[|p| + 1..] && Split(s, d) == [p] + Split(s[|p| + 1..], d))
  {
    var p := PrefixBefore(s, {d});
    if d !in s {
      SplitNoSeparator(s, d);
    } else {
      var k :| 0 <= k < |s| && s[k] == d;
      assert s == p + [d] + s[|p| + 1..];
      SplitPrefix(p, d, s[|p| + 1..]);
    }
  }

  /** The first piece is the text before the first separator. */
  lemma SplitHead(s: string, d: char)
    ensures Split(s, d)[0] == PrefixBefore(s, {d})
  {
    SplitAt(s, d);
  }

  /** The last piece is the text after the last separator, when there is one. */
  lemma {:induction false} SplitLast(s: string, d: char)
    requires d in s
    ensures var last := Split(s, d)[|Split(s, d)| - 1];
      |last| < |s| && s[|s| - |last| - 1] == d && s[|s| - |last|..] == last
  {
    var t := s[1..];
    var rest := Split(t, d);
    if d in t {
      CountZero(t, d);
      SplitCount(t, d);
      SplitLast(t, d);
      var last := rest[|rest| - 1];
      var m := |s| - |last|;
      assert Split(s, d)[|Split(s, d)| - 1] == last;
      assert s[m - 1] == t[m - 2];
      assert s[m..] == t[m - 1..];
    } else {
      SplitNoSeparator(t, d);
      assert Split(s, d) == ["", t];
    }
  }

  /** The second piece is the text between the first separator and the next one (or the end). */
  lemma {:induction false} SplitSecond(s: string, d: char)
    requires d in s
    ensures var k := |PrefixBefore(s, {d})|;
      k < |s| && |Split(s, d)| >= 2 && Split(s, d)[1] == PrefixBefore(s[k + 1..], {d})
  {
    var rest := Split(s[1..], d);
    if s[0] == d {
      assert PrefixBefore(s, {d}) == "";
      assert Split(s, d) == [""] + rest;
      SplitHead(s[1..], d);
    } else {
      assert d in s[1..];
      SplitSecond(s[1..], d);
      var k := |PrefixBefore(s[1..], {d})|;
      assert PrefixBefore(s, {d}) == [s[0]] + PrefixBefore(s[1..], {d});
      assert Split(s, d) == [[s[0]] + rest[0]] + rest[1..];
      assert s[k + 2..] == s[1..][k + 1..];
    }
  }

  /** Joining the pieces of a split gives back the string. */
  lemma {:induction false} JoinSplit(s: string, d: char)
    ensures Join(Split(s, d), d) == s
    decreases |s|
  {
    SplitAt(s, d);
    if d in s {
      var p := PrefixBefore(s, {d});
      var t := s[|p| + 1..];
      var parts := [p] + Split(t, d);
      assert parts[1..] == Split(t, d);
      JoinSplit(t, d);
    }
  }

  /** Splitting a join of separator-free pieces gives back the pieces. */
  lemma {:induction false} SplitJoin(parts: seq<string>, d: char)
    requires |parts| >= 1
    requires forall i :: 0 <= i < |parts| ==> d !in parts[i]
    ensures Split(Join(parts, d), d) == parts
  {
    if |parts| == 1 {
      SplitNoSeparator(parts[0], d);
    } else {
      SplitJoin(parts[1..], d);
      SplitPrefix(parts[0], d, Join(parts[1..], d));
      assert [parts[0]] + parts[1..] == parts;
    }
  }
}
