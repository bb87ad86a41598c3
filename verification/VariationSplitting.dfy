/** Splitting the 32-bit hash words into percentage buckets. */
module VariationSplitting {
  const HALF := 0x8000_0000

  /** A signed 32-bit word: the first four bytes of the MD5 digest of a key. */
  type Word = w: int | -HALF <= w < HALF

  /** A half-open share of [0, 1], or all of it when it is exactly [0, 1]. */
  datatype Range = Range(lo: real, hi: real) {
    predicate IsFull() { lo == 0.0 && hi == 1.0 }
  }

  /** |word / -2^31|; the quotient is exact in binary floating point, so it is exact here too. */
  function PercentageOf(w: Word): (p: real)
    ensures 0.0 <= p <= 1.0
    ensures p == 1.0 <==> w == -HALF
  {
    var q := w as real / -2147483648.0;
    if q < 0.0 then -q else q
  }

  predicate Belongs(w: Word, r: Range) {
    r.IsFull() || r.lo <= PercentageOf(w) < r.hi
  }

  // ---------- how many words a range receives ----------

  function Ceiling(x: real): (c: int)
    ensures c as real - 1.0 < x <= c as real
  {
    -((-x).Floor)
  }

  ghost function WordsOf(r: Range): set<int> {
    set w: int | -HALF <= w < HALF && Belongs(w, r)
  }

  ghost function Interval(a: int, b: int): (r: set<int>)
    requires a <= b
    ensures forall w :: w in r <==> a <= w < b
    ensures |r| == b - a
    decreases b - a
  {
    if a == b then {} else Interval(a, b - 1) + {b - 1}
  }

  function Magnitude(w: int): int {
    if w < 0 then -w else w
  }

  /** Membership in a proper range, restated on the magnitude of the word. */
  lemma MagnitudeBounds(w: Word, r: Range)
    requires !r.IsFull()
    ensures Belongs(w, r) <==>
            Ceiling(r.lo * 2147483648.0) <= Magnitude(w) < Ceiling(r.hi * 2147483648.0)
  {
  }

  /**
   * Of the 2^32 words, a proper range [lo, hi) receives exactly
   * 2 * (ceil(hi * 2^31) - ceil(lo * 2^31)) of them, less one when it starts at 0
   * (the word 0 has no negative twin).
   */
  lemma BucketSize(r: Range)
    requires 0.0 <= r.lo <= r.hi <= 1.0 && !r.IsFull()
    ensures |WordsOf(r)| == 2 * (Ceiling(r.hi * 2147483648.0) - Ceiling(r.lo * 2147483648.0))
                            - (if r.lo == 0.0 < r.hi then 1 else 0)
  {
    var c, d := Ceiling(r.lo * 2147483648.0), Ceiling(r.hi * 2147483648.0);
    assert 0 <= c <= d <= HALF;
    var first := if c == 0 && d > 0 then 1 else c;
    var positive, negative := Interval(c, d), Interval(1 - d, 1 - first);
    forall w: int | -HALF <= w < HALF
      ensures w in WordsOf(r) <==> w in positive + negative
    {
      MagnitudeBounds(w, r);
    }
    assert WordsOf(r) == positive + negative;
    assert positive !! negative;
  }

  /** Hence every range is within three words of its proportional share of 2^32. */
  lemma BucketFairness(r: Range)
    requires 0.0 <= r.lo <= r.hi <= 1.0
    ensures -3.0 <= |WordsOf(r)| as real - 4294967296.0 * (r.hi - r.lo) <= 3.0
  {
    if r.IsFull() {
      assert WordsOf(r) == Interval(-HALF, HALF);
    } else {
      BucketSize(r);
    }
  }

  // ---------- picking one of several ranges ----------

  /** The ranges cut [0, 1] into consecutive pieces. */
  ghost predicate Partition(rs: seq<Range>) {
    && |rs| > 0 && rs[0].lo == 0.0 && rs[|rs| - 1].hi == 1.0
    && (forall i :: 0 <= i < |rs| ==> rs[i].lo <= rs[i].hi)
    && (forall i :: 0 <= i < |rs| - 1 ==> rs[i].hi == rs[i + 1].lo)
  }

  lemma {:induction false} PiecesOrdered(rs: seq<Range>, i: nat, j: nat)
    requires Partition(rs) && i < j < |rs|
    ensures rs[i].hi <= rs[j].lo
    decreases j - i
  {
    if i + 1 < j {
      PiecesOrdered(rs, i, j - 1);
    }
  }

  lemma {:induction false} PieceBelowOne(rs: seq<Range>, i: nat)
    requires Partition(rs) && i < |rs|
    ensures rs[i].hi <= 1.0
    decreases |rs| - i
  {
    if i + 1 < |rs| { PieceBelowOne(rs, i + 1); }
  }

  /** The first range that contains the word, as the selection loop finds it. */
  function Select(w: Word, rs: seq<Range>): (k: nat)
    ensures k <= |rs|
    ensures k < |rs| ==> Belongs(w, rs[k])
    ensures forall i :: 0 <= i < k ==> !Belongs(w, rs[i])
  {
    if rs == [] then 0 else if Belongs(w, rs[0]) then 0 else
      var rest := Select(w, rs[1..]);
      assert forall i :: 1 <= i < |rs| ==> rs[i] == rs[1..][i - 1];
      1 + rest
  }

  /** No two pieces of a partition contain the same word. */
  lemma PiecesDisjoint(w: Word, rs: seq<Range>, i: nat, j: nat)
    requires Partition(rs) && i < |rs| && j < |rs|
    requires Belongs(w, rs[i]) && Belongs(w, rs[j])
    ensures i == j
  {
    PieceBelowOne(rs, i);
    PieceBelowOne(rs, j);
    if i < j { PiecesOrdered(rs, i, j); }
    if j < i { PiecesOrdered(rs, j, i); }
  }

  /** Some piece contains any word below the top of the scale. */
  lemma {:induction false} PieceFound(w: Word, rs: seq<Range>, k: nat)
    requires Partition(rs) && k < |rs| && rs[k].lo <= PercentageOf(w) < 1.0
    ensures Select(w, rs) < |rs|
    decreases |rs| - k
  {
    if PercentageOf(w) < rs[k].hi {
      assert Belongs(w, rs[k]);
    } else {
      PieceFound(w, rs, k + 1);
    }
  }

  /**
   * Over a partition of [0, 1] the loop picks exactly one range for every word, with one
   * exception: the word -2^31 (the only one at 1.0) is left unserved unless some piece is all of [0, 1].
   */
  lemma SelectionExact(w: Word, rs: seq<Range>)
    requires Partition(rs)
    ensures Select(w, rs) == |rs| <==> w == -HALF && forall i :: 0 <= i < |rs| ==> !rs[i].IsFull()
    ensures Select(w, rs) < |rs| ==>
              forall i :: 0 <= i < |rs| ==> (Belongs(w, rs[i]) <==> i == Select(w, rs))
  {
    if w != -HALF {
      PieceFound(w, rs, 0);
    } else {
      forall i | 0 <= i < |rs| ensures Belongs(w, rs[i]) <==> rs[i].IsFull() {
        PieceBelowOne(rs, i);
      }
    }
    if Select(w, rs) < |rs| {
      forall i | 0 <= i < |rs| && Belongs(w, rs[i]) ensures i == Select(w, rs) {
        PiecesDisjoint(w, rs, i, Select(w, rs));
      }
    }
  }

  /** Raising the upper bound of a range that starts at 0 keeps every word it already served. */
  lemma GrowingKeepsWords(w: Word, hi: real, hi': real)
    requires hi <= hi' <= 1.0
    ensures Belongs(w, Range(0.0, hi)) ==> Belongs(w, Range(0.0, hi'))
  {
  }
}
