/**
 * pkg/support/slices: generic loops over Go slices. Each loop is a method
 * proved against a recursive definition, and the definitions carry the
 * properties callers rely on.
 */
module Slices {
  import opened GoTypes

  /** Left fold: `f` applied to the running result and each element in turn. */
  function FoldLeft<T, R>(f: (R, T) -> R, zero: R, arr: seq<T>): R
    decreases |arr|
  {
    if |arr| == 0 then zero else f(FoldLeft(f, zero, arr[..|arr| - 1]), arr[|arr| - 1])
  }

  /** A fold over a concatenation is the fold of the second part, started from the fold of the first. */
  lemma {:induction false} FoldLeftConcat<T, R>(f: (R, T) -> R, zero: R, a: seq<T>, b: seq<T>)
    ensures FoldLeft(f, zero, a + b) == FoldLeft(f, FoldLeft(f, zero, a), b)
    decreases |b|
  {
    if |b| > 0 {
      var b' := b[..|b| - 1];
      assert (a + b)[..|a + b| - 1] == a + b';
      FoldLeftConcat(f, zero, a, b');
    } else {
      assert a + b == a;
    }
  }

  /** The elements that satisfy `f`, in order. */
  function Kept<T>(f: T -> bool, arr: seq<T>): seq<T>
    decreases |arr|
  {
    if |arr| == 0 then []
    else if f(arr[|arr| - 1]) then Kept(f, arr[..|arr| - 1]) + [arr[|arr| - 1]]
    else Kept(f, arr[..|arr| - 1])
  }

  /** Filtering keeps exactly the elements that satisfy `f` and never lengthens the list. */
  lemma {:induction false} KeptMembers<T>(f: T -> bool, arr: seq<T>)
    ensures |Kept(f, arr)| <= |arr|
    ensures forall x :: x in Kept(f, arr) <==> x in arr && f(x)
    decreases |arr|
  {
    if |arr| > 0 {
      var init := arr[..|arr| - 1];
      KeptMembers(f, init);
      assert arr == init + [arr[|arr| - 1]];
    }
  }

  /** Filtering twice by the same predicate changes nothing the second time. */
  lemma {:induction false} KeptIdempotent<T>(f: T -> bool, arr: seq<T>)
    ensures Kept(f, Kept(f, arr)) == Kept(f, arr)
    decreases |arr|
  {
    if |arr| > 0 {
      var init := arr[..|arr| - 1];
      KeptIdempotent(f, init);
      if f(arr[|arr| - 1]) {
        var k := Kept(f, init) + [arr[|arr| - 1]];
        assert k[..|k| - 1] == Kept(f, init);
      }
    }
  }

  /** The first occurrences of the elements, in the order they first appear. */
  function Firsts<T(==)>(arr: seq<T>): seq<T>
    decreases |arr|
  {
    if |arr| == 0 then []
    else
      var prior := Firsts(arr[..|arr| - 1]);
      if arr[|arr| - 1] in prior then prior else prior + [arr[|arr| - 1]]
  }

  /** No element occurs twice. */
  predicate Distinct<T(==)>(s: seq<T>)
  {
    forall i, j :: 0 <= i < j < |s| ==> s[i] != s[j]
  }

  /** Unique keeps every element, adds none, and repeats none. */
  lemma {:induction false} FirstsFacts<T>(arr: seq<T>)
    ensures forall x :: x in Firsts(arr) <==> x in arr
    ensures Distinct(Firsts(arr))
    decreases |arr|
  {
    if |arr| > 0 {
      var init := arr[..|arr| - 1];
      FirstsFacts(init);
      assert arr == init + [arr[|arr| - 1]];
    }
  }

  /** A list without repeats is its own Unique. */
  lemma {:induction false} FirstsOfDistinct<T>(arr: seq<T>)
    requires Distinct(arr)
    ensures Firsts(arr) == arr
    decreases |arr|
  {
    if |arr| > 0 {
      var init := arr[..|arr| - 1];
      FirstsOfDistinct(init);
      assert arr[|arr| - 1] !in init;
      assert arr == init + [arr[|arr| - 1]];
    }
  }

  /** The number of elements that satisfy `f`. */
  function CountWhere<T>(f: T -> bool, arr: seq<T>): (n: nat)
    ensures n <= |arr|
    ensures n == |arr| <==> forall i :: 0 <= i < |arr| ==> f(arr[i])
    decreases |arr|
  {
    if |arr| == 0 then 0
    else
      var init := arr[..|arr| - 1];
      assert forall i :: 0 <= i < |init| ==> init[i] == arr[i];
      CountWhere(f, init) + (if f(arr[|arr| - 1]) then 1 else 0)
  }

  /** Map: `f` of each element, in order. */
  method Map<T, R>(arr: seq<T>, f: T -> R) returns (result: seq<R>)
    ensures |result| == |arr|
    ensures forall i :: 0 <= i < |arr| ==> result[i] == f(arr[i])
  {
    result := [];
    for i := 0 to |arr|
      invariant |result| == i
      invariant forall j :: 0 <= j < i ==> result[j] == f(arr[j])
    {
      result := result + [f(arr[i])];
    }
  }

  /** Reduce: the left fold from the zero value of the result type, given as `zero`. */
  method Reduce<T, R>(arr: seq<T>, f: (R, T) -> R, zero: R) returns (result: R)
    ensures result == FoldLeft(f, zero, arr)
  {
    result := zero;
    for i := 0 to |arr|
      invariant result == FoldLeft(f, zero, arr[..i])
    {
      assert arr[..i + 1][..i] == arr[..i];
      result := f(result, arr[i]);
    }
    assert arr[..|arr|] == arr;
  }

  /**
   * RemoveAt: `append(slice[:s], slice[s+1:]...)` shifts the tail one place
   * left inside the slice's own backing array, so every other slice over
   * that array sees the shift; the last element stays where it was.
   */
  method RemoveAt<T>(a: array<T>, len: nat, s: int) returns (newLen: nat)
    requires len <= a.Length && 0 <= s < len
    modifies a
    ensures newLen == len - 1
    ensures a[..newLen] == old(a[..s]) + old(a[s + 1..len])
    ensures a[newLen..] == old(a[newLen..])
  {
    ghost var before := a[..];
    var i := s;
    while i < len - 1
      invariant s <= i <= len - 1
      invariant a[..s] == before[..s]
      invariant forall j :: s <= j < i ==> a[j] == before[j + 1]
      invariant a[i..] == before[i..]
    {
      a[i] := a[i + 1];
      i := i + 1;
    }
    newLen := len - 1;
    assert a[..newLen] == a[..s] + a[s..newLen];
    assert a[s..newLen] == before[s + 1..len];
  }

  /** Filter: the elements that satisfy `f`, in order. */
  method Filter<T>(arr: seq<T>, f: T -> bool) returns (result: seq<T>)
    ensures result == Kept(f, arr)
  {
    result := [];
    for i := 0 to |arr|
      invariant result == Kept(f, arr[..i])
    {
      assert arr[..i + 1][..i] == arr[..i];
      if f(arr[i]) {
        result := result + [arr[i]];
      }
    }
    assert arr[..|arr|] == arr;
  }

  /** FirstBy: the first element that satisfies `f`, or nil. */
  method FirstBy<T>(arr: seq<T>, f: T -> bool) returns (r: Option<T>)
    ensures r.None? <==> forall i :: 0 <= i < |arr| ==> !f(arr[i])
    ensures r.Some? ==> exists i :: 0 <= i < |arr| && arr[i] == r.value && f(arr[i]) && forall j :: 0 <= j < i ==> !f(arr[j])
  {
    for i := 0 to |arr|
      invariant forall j :: 0 <= j < i ==> !f(arr[j])
    {
      if f(arr[i]) {
        return Option.Some(arr[i]);
      }
    }
    return None;
  }

  /** First: the first element, or nil for an empty slice. */
  method First<T>(arr: seq<T>) returns (r: Option<T>)
    ensures r.None? <==> |arr| == 0
    ensures r.Some? ==> r.value == arr[0]
  {
    if |arr| > 0 {
      return Option.Some(arr[0]);
    }
    return None;
  }

  /** Unique: a set of the elements seen so far decides what is appended. */
  method Unique<T(==)>(arr: seq<T>) returns (list: seq<T>)
    ensures list == Firsts(arr)
  {
    var keys: set<T> := {};
    list := [];
    for i := 0 to |arr|
      invariant list == Firsts(arr[..i])
      invariant forall x :: x in keys <==> x in list
    {
      assert arr[..i + 1][..i] == arr[..i];
      if arr[i] !in keys {
        keys := keys + {arr[i]};
        list := list + [arr[i]];
      }
    }
    assert arr[..|arr|] == arr;
  }

  method Contains<T(==)>(s: seq<T>, e: T) returns (found: bool)
    ensures found <==> e in s
  {
    for i := 0 to |s|
      invariant e !in s[..i]
    {
      if s[i] == e {
        return true;
      }
      assert s[..i + 1] == s[..i] + [s[i]];
    }
    assert s[..|s|] == s;
    return false;
  }

  method Some<T>(arr: seq<T>, f: T -> bool) returns (found: bool)
    ensures found <==> exists i :: 0 <= i < |arr| && f(arr[i])
  {
    for i := 0 to |arr|
      invariant forall j :: 0 <= j < i ==> !f(arr[j])
    {
      if f(arr[i]) {
        return true;
      }
    }
    return false;
  }

  /** Always: counts the elements that satisfy `f` and compares with the length. */
  method Always<T>(arr: seq<T>, f: T -> bool) returns (all: bool)
    ensures all <==> forall i :: 0 <= i < |arr| ==> f(arr[i])
  {
    var c := 0;
    for i := 0 to |arr|
      invariant c == CountWhere(f, arr[..i])
    {
      assert arr[..i + 1][..i] == arr[..i];
      if f(arr[i]) {
        c := c + 1;
      }
    }
    assert arr[..|arr|] == arr;
    all := c == |arr|;
  }
}
