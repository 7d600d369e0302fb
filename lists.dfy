/** The array methods the stores use: `findIndex`, `filter` and `splice(i, 1)`. */
module Lists {

  /** `s.findIndex(p)`: the first index whose element satisfies `p`, or -1. */
  function FirstIndex<T>(s: seq<T>, p: T -> bool): (r: int)
    ensures -1 <= r < |s|
    ensures r >= 0 ==> p(s[r]) && forall j :: 0 <= j < r ==> !p(s[j])
    ensures r == -1 <==> forall j :: 0 <= j < |s| ==> !p(s[j])
  {
    if |s| == 0 then -1
    else if p(s[0]) then 0
    else
      var k := FirstIndex(s[1..], p);
      if k == -1 then -1 else k + 1
  }

  /** The linear search behind `findIndex`, scanning from the front. */
  method FindIndex<T>(s: seq<T>, p: T -> bool) returns (index: int)
    ensures index == FirstIndex(s, p)
  {
    index := 0;
    while index < |s|
      invariant 0 <= index <= |s|
      invariant forall j :: 0 <= j < index ==> !p(s[j])
    {
      if p(s[index]) {
        return;
      }
      index := index + 1;
    }
    index := -1;
  }

  /** Replacing the first match by another match leaves the first match where it was. */
  lemma FirstIndexUpdate<T>(s: seq<T>, p: T -> bool, k: int, x: T)
    requires k == FirstIndex(s, p) && k >= 0 && p(x)
    ensures FirstIndex(s[k := x], p) == k
  {
    assert p(s[k := x][k]);
    assert forall j :: 0 <= j < k ==> s[k := x][j] == s[j];
  }

  /** Appending a match to a sequence without one makes the new last index the first match. */
  lemma FirstIndexAppend<T>(s: seq<T>, p: T -> bool, x: T)
    requires forall j :: 0 <= j < |s| ==> !p(s[j])
    requires p(x)
    ensures FirstIndex(s + [x], p) == |s|
  {
    assert p((s + [x])[|s|]);
    assert forall j :: 0 <= j < |s| ==> (s + [x])[j] == s[j];
  }

  /** `s.filter(p)`: the elements satisfying `p`, in their original order. */
  function Filter<T>(s: seq<T>, p: T -> bool): (r: seq<T>)
    ensures |r| <= |s|
    ensures forall i :: 0 <= i < |r| ==> r[i] in s && p(r[i])
    ensures forall i :: 0 <= i < |s| && p(s[i]) ==> s[i] in r
  {
    if s == [] then []
    else (if p(s[0]) then [s[0]] else []) + Filter(s[1..], p)
  }

  /** Filtering a concatenation filters each part and keeps them in order. */
  lemma {:induction false} FilterAppend<T>(a: seq<T>, b: seq<T>, p: T -> bool)
    ensures Filter(a + b, p) == Filter(a, p) + Filter(b, p)
  {
    if a == [] {
      assert a + b == b;
    } else {
      assert (a + b)[1..] == a[1..] + b;
      FilterAppend(a[1..], b, p);
    }
  }

  /** A filter every element passes returns the sequence itself. */
  lemma {:induction false} FilterKeepsAll<T>(s: seq<T>, p: T -> bool)
    requires forall i :: 0 <= i < |s| ==> p(s[i])
    ensures Filter(s, p) == s
  {
    if s != [] {
      FilterKeepsAll(s[1..], p);
    }
  }

  /** A filter and its complement split a sequence: their lengths add up to the whole. */
  lemma {:induction false} FilterSplit<T>(s: seq<T>, p: T -> bool, q: T -> bool)
    requires forall i :: 0 <= i < |s| ==> (q(s[i]) <==> !p(s[i]))
    ensures |Filter(s, p)| + |Filter(s, q)| == |s|
  {
    if s != [] {
      FilterSplit(s[1..], p, q);
    }
  }

  /** Replacing one element changes the filtered length only by what the two elements contribute. */
  lemma {:induction false} FilterReplaceLength<T>(s: seq<T>, k: nat, x: T, p: T -> bool)
    requires k < |s|
    ensures |Filter(s[k := x], p)| ==
            |Filter(s, p)| - (if p(s[k]) then 1 else 0) + (if p(x) then 1 else 0)
  {
    if k == 0 {
      assert s[k := x][1..] == s[1..];
    } else {
      assert s[k := x][1..] == s[1..][k - 1 := x];
      FilterReplaceLength(s[1..], k - 1, x, p);
    }
  }

  /** `s.splice(i, 1)`: the sequence without its element at `i`, the others in order. */
  function RemoveAt<T>(s: seq<T>, i: nat): (r: seq<T>)
    requires i < |s|
    ensures |r| == |s| - 1
    ensures forall j :: 0 <= j < i ==> r[j] == s[j]
    ensures forall j :: i <= j < |r| ==> r[j] == s[j + 1]
  {
    s[..i] + s[i + 1..]
  }

  /** Removing an element keeps it out of the filter count exactly when it passed the filter. */
  lemma {:induction false} FilterRemoveLength<T>(s: seq<T>, k: nat, p: T -> bool)
    requires k < |s|
    ensures |Filter(RemoveAt(s, k), p)| == |Filter(s, p)| - (if p(s[k]) then 1 else 0)
  {
    assert s == s[..k] + [s[k]] + s[k + 1..];
    FilterAppend(s[..k] + [s[k]], s[k + 1..], p);
    FilterAppend(s[..k], [s[k]], p);
    FilterAppend(s[..k], s[k + 1..], p);
  }
}
