/**
 * The slice and iterator adaptors the board is built from: `windows`,
 * `join`, and itertools' `unique`, `all_equal` and `intersperse`.
 */
module Sequences {

  /** Pairwise distinct elements. */
  predicate Distinct<T(==)>(s: seq<T>) {
    forall i, j :: 0 <= i < j < |s| ==> s[i] != s[j]
  }

  /** itertools `unique()`: keeps the first occurrence of each element, in order. */
  function Unique<T(==,!new)>(s: seq<T>): (r: seq<T>)
    ensures forall x :: x in r <==> x in s
    ensures Distinct(r)
    ensures |r| <= |s|
    decreases |s|
  {
    if s == [] then []
    else
      var front := Unique(s[..|s| - 1]);
      if s[|s| - 1] in front then front else front + [s[|s| - 1]]
  }

  /** Removing duplicates from a sequence without any leaves it as it is. */
  lemma {:induction false} UniqueOfDistinct<T(!new)>(s: seq<T>)
    requires Distinct(s)
    ensures Unique(s) == s
    decreases |s|
  {
    if s != [] {
      var front := s[..|s| - 1];
      UniqueOfDistinct(front);
      assert s[|s| - 1] !in front;
      assert front + [s[|s| - 1]] == s;
    }
  }

  /**
   * Each element is kept where it first occurs: appending an element seen
   * before changes nothing, a new one goes to the end.
   */
  lemma UniqueSnoc<T(!new)>(s: seq<T>, x: T)
    ensures Unique(s + [x]) == if x in s then Unique(s) else Unique(s) + [x]
  {
    assert (s + [x])[..|s|] == s;
  }

  /** `slice::windows(k)`: every contiguous run of `k` elements, from the left. */
  function Windows<T>(s: seq<T>, k: nat): (r: seq<seq<T>>)
    requires k > 0
    ensures |r| == if |s| >= k then |s| - k + 1 else 0
    ensures forall i :: 0 <= i < |r| ==> r[i] == s[i..i + k]
    decreases |s|
  {
    if |s| < k then []
    else
      var rest := Windows(s[1..], k);
      assert forall i :: 0 <= i < |rest| ==> rest[i] == s[i + 1..i + 1 + k];
      [s[..k]] + rest
  }

  /** itertools `all_equal()`: every element equals the first; true of an empty sequence. */
  predicate AllEqual<T(==)>(s: seq<T>) {
    forall i :: 0 <= i < |s| ==> s[i] == s[0]
  }

  /** itertools `intersperse(sep)`: `sep` between every two neighbours. */
  function Intersperse<T>(s: seq<T>, sep: T): (r: seq<T>)
    ensures |r| == if s == [] then 0 else 2 * |s| - 1
    decreases |s|
  {
    if |s| <= 1 then s
    else [s[0], sep] + Intersperse(s[1..], sep)
  }

  /** The elements sit at the even positions, in order, and `sep` at the odd ones. */
  lemma {:induction false} IntersperseAt<T>(s: seq<T>, sep: T, i: nat)
    requires i < |Intersperse(s, sep)|
    ensures Intersperse(s, sep)[i] == if i % 2 == 0 then s[i / 2] else sep
    decreases |s|
  {
    if i >= 2 {
      var rest := Intersperse(s[1..], sep);
      assert Intersperse(s, sep)[i] == rest[i - 2];
      IntersperseAt(s[1..], sep, i - 2);
      assert (i - 2) % 2 == i % 2 && (i - 2) / 2 == i / 2 - 1;
    }
  }

  /** `[String].join(sep)`. */
  function Join(parts: seq<string>, sep: string): string
    decreases |parts|
  {
    if parts == [] then ""
    else if |parts| == 1 then parts[0]
    else parts[0] + sep + Join(parts[1..], sep)
  }

  /** Joining `n` parts of width `w` gives `n * w` characters plus `n - 1` separators. */
  lemma {:induction false} JoinLength(parts: seq<string>, sep: string, w: nat)
    requires forall i :: 0 <= i < |parts| ==> |parts[i]| == w
    ensures parts != [] ==> |Join(parts, sep)| == |parts| * w + (|parts| - 1) * |sep|
    decreases |parts|
  {
    if |parts| > 1 {
      JoinLength(parts[1..], sep, w);
    }
  }
}
