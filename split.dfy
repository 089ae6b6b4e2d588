/** Go's `bytes.Index` for a one-byte separator and `bytes.SplitN(s, sep, n)`
    for n > 0, which is how both stream codecs cut a frame into fields. */
module Split {
  import opened Wire

  /** Position of the first `c` in `s`, or `|s|` when there is none. */
  function Find(s: Bytes, c: char): (i: nat)
    ensures i <= |s|
    ensures i < |s| ==> s[i] == c
    ensures forall j :: 0 <= j < i ==> s[j] != c
  {
    if s == [] then 0
    else if s[0] == c then 0
    else 1 + Find(s[1..], c)
  }

  /** At most `n` pieces: cut at each of the first `n - 1` separators; the
      last piece is the unsplit remainder. */
  function SplitN(s: Bytes, sep: char, n: nat): (parts: seq<Bytes>)
    requires n >= 1
    ensures 1 <= |parts| <= n
    decreases n
  {
    var i := Find(s, sep);
    if n == 1 || i == |s| then [s]
    else [s[..i]] + SplitN(s[i + 1..], sep, n - 1)
  }

  /** The inverse of `SplitN`: the pieces glued back with the separator. */
  function Join(parts: seq<Bytes>, sep: char): Bytes
    requires |parts| >= 1
  {
    if |parts| == 1 then parts[0]
    else parts[0] + [sep] + Join(parts[1..], sep)
  }

  /** Pieces `SplitN` can produce: none but the last holds the separator,
      and the last holds none either unless all `n` pieces were used. */
  ghost predicate WellCut(parts: seq<Bytes>, sep: char, n: nat)
  {
    1 <= |parts| <= n &&
    (forall k :: 0 <= k < |parts| - 1 ==> sep !in parts[k]) &&
    (|parts| < n ==> sep !in parts[|parts| - 1])
  }

  /** `SplitN` loses nothing: joining its pieces gives the input back. */
  lemma {:induction false} SplitNJoin(s: Bytes, sep: char, n: nat)
    requires n >= 1
    ensures Join(SplitN(s, sep, n), sep) == s
    decreases n
  {
    var i := Find(s, sep);
    if n > 1 && i < |s| {
      SplitNJoin(s[i + 1..], sep, n - 1);
      var rest := SplitN(s[i + 1..], sep, n - 1);
      JoinCons(s[..i], rest, sep);
      assert s == s[..i] + [sep] + s[i + 1..];
    }
  }

  lemma JoinCons(p: Bytes, rest: seq<Bytes>, sep: char)
    requires |rest| >= 1
    ensures Join([p] + rest, sep) == p + [sep] + Join(rest, sep)
  {
    assert ([p] + rest)[0] == p && ([p] + rest)[1..] == rest;
  }

  /** The pieces of `SplitN` are well cut. */
  lemma {:induction false} SplitNWellCut(s: Bytes, sep: char, n: nat)
    requires n >= 1
    ensures WellCut(SplitN(s, sep, n), sep, n)
    decreases n
  {
    var i := Find(s, sep);
    var parts := SplitN(s, sep, n);
    if n == 1 || i == |s| {
      assert parts == [s];
      assert n > 1 ==> sep !in s;
    } else {
      SplitNWellCut(s[i + 1..], sep, n - 1);
      var rest := SplitN(s[i + 1..], sep, n - 1);
      assert parts == [s[..i]] + rest;
      assert sep !in s[..i];
      WellCutCons(s[..i], rest, sep, n);
    }
  }

  /** A first piece without the separator in front of well-cut pieces for
      one split fewer. */
  lemma WellCutCons(p: Bytes, rest: seq<Bytes>, sep: char, n: nat)
    requires sep !in p && n > 1 && WellCut(rest, sep, n - 1)
    ensures WellCut([p] + rest, sep, n)
  {
    var parts := [p] + rest;
    forall k | 0 <= k < |parts| - 1 ensures sep !in parts[k] {
      if k > 0 {
        assert parts[k] == rest[k - 1];
      }
    }
    assert parts[|parts| - 1] == rest[|rest| - 1];
  }

  /** A piece without the separator, then the separator: the first cut
      falls right there. */
  lemma SplitNCons(p: Bytes, sep: char, t: Bytes, n: nat)
    requires sep !in p && n > 1
    ensures SplitN(p + [sep] + t, sep, n) == [p] + SplitN(t, sep, n - 1)
  {
    var s := p + [sep] + t;
    assert s[|p|] == sep;
    assert forall j :: 0 <= j < |p| ==> s[j] == p[j];
    assert Find(s, sep) == |p|;
    assert s[..|p|] == p && s[|p| + 1..] == t;
  }

  /** No separator, or no cut allowed: one piece. */
  lemma SplitNWhole(s: Bytes, sep: char, n: nat)
    requires n == 1 || (n > 1 && sep !in s)
    ensures SplitN(s, sep, n) == [s]
  {
    assert n > 1 ==> Find(s, sep) == |s|;
  }

  /** Dropping the first of several well-cut pieces leaves well-cut pieces
      for one split fewer. */
  lemma WellCutTail(parts: seq<Bytes>, sep: char, n: nat)
    requires WellCut(parts, sep, n) && |parts| > 1
    ensures WellCut(parts[1..], sep, n - 1)
  {
    forall k | 0 <= k < |parts| - 2 ensures sep !in parts[1..][k] {
      assert parts[1..][k] == parts[k + 1];
    }
  }

  /** The inductive step of `JoinSplitN`. */
  lemma JoinSplitNStep(parts: seq<Bytes>, sep: char, n: nat)
    requires |parts| > 1 && n > 1 && sep !in parts[0]
    requires SplitN(Join(parts[1..], sep), sep, n - 1) == parts[1..]
    ensures SplitN(Join(parts, sep), sep, n) == parts
  {
    SplitNCons(parts[0], sep, Join(parts[1..], sep), n);
    assert [parts[0]] + parts[1..] == parts;
  }

  /** Conversely, well-cut pieces are exactly what `SplitN` returns for
      their join: the split is unique. */
  lemma {:induction false} JoinSplitN(parts: seq<Bytes>, sep: char, n: nat)
    requires WellCut(parts, sep, n)
    ensures SplitN(Join(parts, sep), sep, n) == parts
    decreases n
  {
    if |parts| == 1 {
      SplitNWhole(parts[0], sep, n);
    } else {
      WellCutTail(parts, sep, n);
      JoinSplitN(parts[1..], sep, n - 1);
      JoinSplitNStep(parts, sep, n);
    }
  }
}
