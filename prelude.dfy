/** Small value helpers shared by the gesture recogniser and the desktop:
    an optional value, Python's `abs`, `min` and `max` on integers, and
    Python's `list.remove` (remove the first occurrence of a value). */
module Prelude {

  datatype Option<T> = None | Some(value: T)

  /** Python's `abs` on an integer. */
  function Abs(n: int): nat {
    if n < 0 then -n else n
  }

  /** Python's `min` of two integers. */
  function Min(a: int, b: int): int {
    if a <= b then a else b
  }

  /** Python's `max` of two integers. */
  function Max(a: int, b: int): int {
    if a >= b then a else b
  }

  /** No element occurs twice. */
  predicate Distinct<T(==)>(s: seq<T>) {
    forall i, j :: 0 <= i < j < |s| ==> s[i] != s[j]
  }

  /** The position of the first occurrence of `x` in `s`. */
  function IndexOf<T(==)>(s: seq<T>, x: T): (i: nat)
    requires x in s
    ensures i < |s| && s[i] == x
    ensures forall j :: 0 <= j < i ==> s[j] != x
  {
    if s[0] == x then 0 else 1 + IndexOf(s[1..], x)
  }

  /** Python's `s.remove(x)` when `x in s`; the sequence itself otherwise.
      It takes out exactly one copy of `x` and keeps the order of the rest. */
  function RemoveFirst<T(==)>(s: seq<T>, x: T): (r: seq<T>)
    ensures x !in s ==> r == s
    ensures x in s ==> |r| == |s| - 1 && multiset(r) + multiset{x} == multiset(s)
    ensures x in s ==> forall j :: 0 <= j < IndexOf(s, x) ==> r[j] == s[j]
    ensures x in s ==> forall j :: IndexOf(s, x) <= j < |r| ==> r[j] == s[j + 1]
  {
    if x in s then
      var i := IndexOf(s, x);
      assert s == s[..i] + [x] + s[i + 1..];
      s[..i] + s[i + 1..]
    else
      s
  }

  /** Removing a member and appending it again ("bring to front") reorders the
      sequence without losing, duplicating or adding anything, and keeps a
      sequence of distinct elements distinct. */
  lemma MoveToBackPermutes<T>(s: seq<T>, x: T)
    requires x in s
    ensures multiset(RemoveFirst(s, x) + [x]) == multiset(s)
    ensures forall z :: z in RemoveFirst(s, x) + [x] <==> z in s
    ensures Distinct(s) ==> Distinct(RemoveFirst(s, x) + [x])
  {
  }
}
