/** Small shared vocabulary: optional values, calls that may raise, and string tests. */
module Common {
  datatype Option<+T> = None | Some(value: T)

  /** What a Python call gives back: a value, or an exception. */
  datatype Eval<+T> = Value(value: T) | Raised

  function Max(a: int, b: int): (m: int)
    ensures m >= a && m >= b && (m == a || m == b)
  {
    if a >= b then a else b
  }

  /** `part in text` */
  predicate HasSubstring(text: string, part: string) {
    |part| <= |text| && (part <= text || HasSubstring(text[1..], part))
  }

  predicate StartsWith(text: string, part: string) {
    part <= text
  }

  predicate EndsWith(text: string, part: string) {
    |part| <= |text| && text[|text| - |part|..] == part
  }

  ghost predicate NoDuplicates<T>(xs: seq<T>) {
    forall i, j :: 0 <= i < j < |xs| ==> xs[i] != xs[j]
  }

  /** `list.remove(x)`: drops the first occurrence; the list is unchanged when there is none. */
  function RemoveFirst<T(==)>(xs: seq<T>, x: T): (r: seq<T>) {
    if xs == [] then []
    else if xs[0] == x then xs[1..]
    else [xs[0]] + RemoveFirst(xs[1..], x)
  }

  /** Removal takes away exactly one registration and keeps every other one. */
  lemma {:induction false} RemoveFirstCounts<T>(xs: seq<T>, x: T)
    ensures multiset(RemoveFirst(xs, x)) == multiset(xs) - multiset{x}
    ensures x !in xs ==> RemoveFirst(xs, x) == xs
  {
    if xs != [] {
      assert xs == [xs[0]] + xs[1..];
      if xs[0] != x {
        RemoveFirstCounts(xs[1..], x);
      }
    }
  }

  /** Elements left by a removal were there before it. */
  lemma {:induction false} RemoveFirstSubset<T>(xs: seq<T>, x: T)
    ensures forall y :: y in RemoveFirst(xs, x) ==> y in xs
  {
    if xs != [] && xs[0] != x {
      RemoveFirstSubset(xs[1..], x);
    }
  }
}
