/** Small generic helpers shared by every module of the model: optional
    values, order-preserving filtering, reversal and substring search. */
module Common {

  /** JavaScript's `undefined` versus a present value. */
  datatype Option<+T> = None | Some(value: T) {
    function GetOr(default: T): T {
      match this
      case Some(v) => v
      case None => default
    }
  }

  /** `Array.prototype.filter`: keeps the elements satisfying `p`, in order. */
  function Filter<T>(s: seq<T>, p: T -> bool): (r: seq<T>)
    ensures |r| <= |s|
    ensures forall x :: x in r ==> x in s && p(x)
    ensures forall x :: x in s && p(x) ==> x in r
  {
    if s == [] then []
    else if p(s[0]) then [s[0]] + Filter(s[1..], p)
    else Filter(s[1..], p)
  }

  /** Filtering distributes over concatenation, so it keeps relative order. */
  lemma {:induction false} FilterAppend<T>(a: seq<T>, b: seq<T>, p: T -> bool)
    ensures Filter(a + b, p) == Filter(a, p) + Filter(b, p)
  {
    if a == [] {
      assert a + b == b;
    } else {
      assert (a + b)[1..] == a[1..] + b;
      FilterAppend(a[1..], b, p);
    }
  }

  /** Filtering a single element keeps it exactly when it satisfies `p`. */
  lemma FilterSingleton<T>(x: T, p: T -> bool)
    ensures Filter([x], p) == if p(x) then [x] else []
  {
    assert [x][1..] == [];
  }

  /** `[x]` when `x` satisfies `p`, otherwise `[]`. */
  function KeepIf<T>(x: T, p: T -> bool): (r: seq<T>)
    ensures r == Filter([x], p)
  {
    FilterSingleton(x, p);
    if p(x) then [x] else []
  }

  /** Filtering distributes over the elements of a sequence. */
  lemma {:induction false} FilterElementwise<T>(s: seq<T>, p: T -> bool, n: nat)
    requires n <= |s|
    ensures Filter(s[..n], p) == if n == 0 then [] else Filter(s[..n - 1], p) + KeepIf(s[n - 1], p)
  {
    if n > 0 {
      assert s[..n] == s[..n - 1] + [s[n - 1]];
      FilterAppend(s[..n - 1], [s[n - 1]], p);
    }
  }

  lemma FilterFive<T>(s: seq<T>, p: T -> bool)
    requires |s| == 5
    ensures Filter(s, p) == KeepIf(s[0], p) + KeepIf(s[1], p) + KeepIf(s[2], p) + KeepIf(s[3], p) + KeepIf(s[4], p)
  {
    assert s[..5] == s;
    FilterElementwise(s, p, 1);
    assert s[..0] == [];
    FilterElementwise(s, p, 2);
    FilterElementwise(s, p, 3);
    FilterElementwise(s, p, 4);
    FilterElementwise(s, p, 5);
  }

  /** `findIndex` from position `from`: the index of the first element
      satisfying `p`, or `None` (the source's -1). */
  function FindIndex<T>(s: seq<T>, p: T -> bool, from: nat): (r: Option<nat>)
    requires from <= |s|
    ensures r.Some? ==> from <= r.value < |s| && p(s[r.value])
    ensures r.Some? ==> forall j :: from <= j < r.value ==> !p(s[j])
    ensures r.None? ==> forall j :: from <= j < |s| ==> !p(s[j])
    decreases |s| - from
  {
    if from == |s| then None
    else if p(s[from]) then Some(from)
    else FindIndex(s, p, from + 1)
  }

  function Reverse<T>(s: seq<T>): (r: seq<T>)
    ensures |r| == |s|
    ensures forall i :: 0 <= i < |s| ==> r[i] == s[|s| - 1 - i]
  {
    if s == [] then [] else Reverse(s[1..]) + [s[0]]
  }

  /** Reversing `a + [x]` puts `x` first. */
  lemma ReverseSnoc<T>(a: seq<T>, x: T)
    ensures Reverse(a + [x]) == [x] + Reverse(a)
  {
    var r := Reverse(a + [x]);
    assert forall i :: 0 <= i < |r| ==> r[i] == ([x] + Reverse(a))[i];
  }

  /** `haystack.includes(needle)` for strings. */
  predicate Contains(haystack: string, needle: string) {
    exists i :: 0 <= i <= |haystack| - |needle| && OccursAt(haystack, needle, i)
  }

  predicate OccursAt(haystack: string, needle: string, i: int) {
    0 <= i <= |haystack| - |needle| && haystack[i..i + |needle|] == needle
  }
}
