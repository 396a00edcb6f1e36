/**
 * Python's `str.split(sep)` for a one-character separator, and its inverse
 * `sep.join(parts)`. `split` always yields at least one piece (the empty
 * string splits into `['']`), no piece contains the separator, and there is
 * one more piece than there are separators in the input.
 */
module PyStr {

  /** `sep.join(parts)`, for the non-empty lists that `Split` produces. */
  function Join(parts: seq<string>, sep: char): (s: string)
    requires |parts| >= 1
    decreases |parts|
  {
    if |parts| == 1 then parts[0] else parts[0] + [sep] + Join(parts[1..], sep)
  }

  /** No piece of `parts` contains `sep`. */
  predicate FreeOf(parts: seq<string>, sep: char) {
    forall i :: 0 <= i < |parts| ==> sep !in parts[i]
  }

  /** Number of occurrences of `c` in `s`. */
  function Count(s: string, c: char): nat {
    if s == [] then 0 else (if s[0] == c then 1 else 0) + Count(s[1..], c)
  }

  /** `s.split(sep)`: the pieces of `s` between occurrences of `sep`. */
  function Split(s: string, sep: char): (parts: seq<string>)
    ensures |parts| >= 1
    decreases |s|
  {
    if s == [] then [[]]
    else
      var rest := Split(s[1..], sep);
      if s[0] == sep then [[]] + rest
      else [[s[0]] + rest[0]] + rest[1..]
  }

  /** No piece contains the separator, and joining the pieces gives back `s`. */
  lemma {:induction false} SplitJoinsBack(s: string, sep: char)
    ensures FreeOf(Split(s, sep), sep)
    ensures Join(Split(s, sep), sep) == s
    decreases |s|
  {
    if s != [] {
      var rest := Split(s[1..], sep);
      SplitJoinsBack(s[1..], sep);
      var parts := Split(s, sep);
      if s[0] == sep {
        assert parts == [[]] + rest;
        assert parts[1..] == rest;
      } else {
        assert parts == [[s[0]] + rest[0]] + rest[1..];
        assert |rest| > 1 ==> parts[1..] == rest[1..] && Join(rest, sep) == rest[0] + [sep] + Join(rest[1..], sep);
        assert forall i :: 1 <= i < |parts| ==> parts[i] == rest[i];
      }
      assert s == [s[0]] + s[1..];
    }
  }

  /** There is one more piece than there are separators. */
  lemma {:induction false} SplitCount(s: string, sep: char)
    ensures |Split(s, sep)| == Count(s, sep) + 1
    decreases |s|
  {
    if s != [] {
      SplitCount(s[1..], sep);
    }
  }

  /** There are at least two pieces exactly when the separator occurs. */
  lemma {:induction false} SeveralPiecesIffSeparator(s: string, sep: char)
    ensures |Split(s, sep)| >= 2 <==> sep in s
    decreases |s|
  {
    if s != [] {
      SeveralPiecesIffSeparator(s[1..], sep);
      assert s == [s[0]] + s[1..];
    }
  }

  /**
   * The first piece of a join is a prefix of it, followed by the separator
   * when more pieces come after it, and by the end of the string otherwise.
   */
  lemma JoinHead(parts: seq<string>, sep: char)
    requires |parts| >= 1
    ensures |parts[0]| <= |Join(parts, sep)|
    ensures Join(parts, sep)[..|parts[0]|] == parts[0]
    ensures |parts| == 1 ==> |Join(parts, sep)| == |parts[0]|
    ensures |parts| > 1 ==> Join(parts, sep)[|parts[0]|] == sep
    ensures |parts| > 1 ==> Join(parts, sep)[|parts[0]| + 1..] == Join(parts[1..], sep)
  {
    if |parts| > 1 {
      var j := Join(parts, sep);
      assert j == parts[0] + [sep] + Join(parts[1..], sep);
      assert j[..|parts[0]|] == parts[0];
    }
  }

  /** What a join has after its second piece: nothing, or `sep` and the rest. */
  function JoinAfterSecond(parts: seq<string>, sep: char): (tail: string)
    requires |parts| >= 2
  {
    if |parts| == 2 then [] else [sep] + Join(parts[2..], sep)
  }

  /** A join of two or more pieces spelled out up to its second piece. */
  lemma JoinFirstTwo(parts: seq<string>, sep: char)
    requires |parts| >= 2
    ensures Join(parts, sep) == parts[0] + [sep] + parts[1] + JoinAfterSecond(parts, sep)
  {
    if |parts| > 2 {
      assert parts[1..][1..] == parts[2..];
    }
  }

  /**
   * Two separator-free fields of `t` that start at `offset` and each stop at
   * the end of `t` or at a character of `stops` are the same string.
   */
  lemma SameFieldAt(t: string, offset: nat, a: string, b: string, stops: set<char>)
    requires offset + |a| <= |t| && t[offset..offset + |a|] == a
    requires offset + |b| <= |t| && t[offset..offset + |b|] == b
    requires forall i :: 0 <= i < |a| ==> a[i] !in stops
    requires forall i :: 0 <= i < |b| ==> b[i] !in stops
    requires offset + |a| < |t| ==> t[offset + |a|] in stops
    requires offset + |b| < |t| ==> t[offset + |b|] in stops
    ensures a == b
  {
    assert forall i :: 0 <= i < |a| ==> a[i] == t[offset + i];
    assert forall i :: 0 <= i < |b| ==> b[i] == t[offset + i];
  }

  /** A string has only one splitting into separator-free pieces. */
  lemma {:induction false} JoinInjective(ps: seq<string>, qs: seq<string>, sep: char)
    requires |ps| >= 1 && |qs| >= 1
    requires FreeOf(ps, sep) && FreeOf(qs, sep)
    requires Join(ps, sep) == Join(qs, sep)
    ensures ps == qs
    decreases |ps|
  {
    var j := Join(ps, sep);
    JoinHead(ps, sep);
    JoinHead(qs, sep);
    SameFieldAt(j, 0, ps[0], qs[0], {sep});
    if |ps| == 1 || |qs| == 1 {
      assert |ps| == 1 && |qs| == 1;
      assert ps == [ps[0]] && qs == [qs[0]];
    } else {
      assert FreeOf(ps[1..], sep) && FreeOf(qs[1..], sep) by {
        forall i | 0 <= i < |ps| - 1 ensures sep !in ps[1..][i] { assert ps[1..][i] == ps[i + 1]; }
        forall i | 0 <= i < |qs| - 1 ensures sep !in qs[1..][i] { assert qs[1..][i] == qs[i + 1]; }
      }
      JoinInjective(ps[1..], qs[1..], sep);
      assert ps == [ps[0]] + ps[1..] && qs == [qs[0]] + qs[1..];
    }
  }

  /** Splitting undoes joining separator-free pieces (the other round trip). */
  lemma SplitJoin(parts: seq<string>, sep: char)
    requires |parts| >= 1 && FreeOf(parts, sep)
    ensures Split(Join(parts, sep), sep) == parts
  {
    SplitJoinsBack(Join(parts, sep), sep);
    JoinInjective(Split(Join(parts, sep), sep), parts, sep);
  }
}
