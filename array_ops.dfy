/** The JavaScript array and Math built-ins the slice relies on. */
module ArrayOps {

  /** `Math.max` of two integers. */
  function Max(a: int, b: int): (r: int)
    ensures r >= a && r >= b
    ensures r == a || r == b
  {
    if a >= b then a else b
  }

  function Min(a: int, b: int): (r: int)
    ensures r <= a && r <= b
    ensures r == a || r == b
  {
    if a <= b then a else b
  }

  /** The last `n` elements of `xs`, or all of it when it has fewer: what
      `xs.slice(-n)` returns for a positive `n`. */
  function Last<T>(xs: seq<T>, n: nat): (r: seq<T>)
    ensures |r| == Min(|xs|, n)
    ensures xs == xs[..|xs| - |r|] + r
  {
    if |xs| <= n then xs else xs[|xs| - n..]
  }

  /** Extending a prefix by the next element. */
  lemma PrefixSnoc<T>(xs: seq<T>, i: nat)
    requires i < |xs|
    ensures xs[..i] + [xs[i]] == xs[..i + 1]
  {
  }

  /** Overwriting the first element after a prefix extends the prefix. */
  lemma UpdateAtSplit<T>(p: seq<T>, s: seq<T>, y: T)
    requires |s| > 0
    ensures (p + s)[|p| := y] == (p + [y]) + s[1..]
  {
  }

  /** Keeping the last `n` twice is keeping the last `n` once: appending to a
      window and trimming again gives the window of the whole history. */
  lemma LastOfLast<T>(xs: seq<T>, ys: seq<T>, n: nat)
    ensures Last(Last(xs, n) + ys, n) == Last(xs + ys, n)
  {
    var l := Last(xs, n);
    if |xs| > n {
      var d := |xs| - n;
      assert xs == xs[..d] + l;
      assert xs + ys == xs[..d] + (l + ys);
      if |l + ys| > n {
        assert (xs + ys)[|xs + ys| - n..] == (l + ys)[|l + ys| - n..];
      }
    }
  }

  /** The index `xs.splice(start, 1)` removes at, for an array of length
      `len`: a negative start counts from the end, and both ends clamp. */
  function SpliceStart(len: nat, start: int): (k: nat)
    ensures k <= len
  {
    if start < 0 then (if len + start < 0 then 0 else len + start)
    else if start > len then len
    else start
  }

  /** `xs.splice(start, 1)`: the array without the element at the clamped
      start, or unchanged when that position is past the end. */
  function SpliceOne<T>(xs: seq<T>, start: int): seq<T>
  {
    var k := SpliceStart(|xs|, start);
    if k < |xs| then xs[..k] + xs[k + 1..] else xs
  }

  /** Splicing at an index inside the array deletes exactly that element
      and keeps the others in order. */
  lemma SpliceOneAt<T>(xs: seq<T>, i: int)
    requires 0 <= i < |xs|
    ensures |SpliceOne(xs, i)| == |xs| - 1
    ensures forall j :: 0 <= j < i ==> SpliceOne(xs, i)[j] == xs[j]
    ensures forall j :: i <= j < |xs| - 1 ==> SpliceOne(xs, i)[j] == xs[j + 1]
  {
  }

  /** Splicing at or past the end changes nothing; a negative index
      counts from the end. */
  lemma SpliceOneOutside<T>(xs: seq<T>, i: int)
    ensures i >= |xs| ==> SpliceOne(xs, i) == xs
    ensures i < 0 && |xs| + i >= 0 ==> SpliceOne(xs, i) == SpliceOne(xs, |xs| + i)
    ensures |xs| + i < 0 && |xs| > 0 ==> SpliceOne(xs, i) == xs[1..]
  {
  }

  /** The reducers' guarded removal: nothing is removed from a list with at
      most one element (removeSource, removeExecutor). */
  function RemoveGuarded<T>(xs: seq<T>, index: int): (r: seq<T>)
    ensures |xs| >= 1 ==> |r| >= 1
    ensures |xs| <= 1 ==> r == xs
    ensures |xs| > 1 && 0 <= index < |xs| ==> r == xs[..index] + xs[index + 1..]
  {
    if |xs| > 1 then SpliceOne(xs, index) else xs
  }

  /** The list after a series of removal attempts, one index per attempt. */
  function RemoveAll<T>(xs: seq<T>, indices: seq<int>): seq<T>
    decreases |indices|
  {
    if indices == [] then xs else RemoveAll(RemoveGuarded(xs, indices[0]), indices[1..])
  }

  /** However many removals are attempted, a non-empty list never becomes
      empty, and it shrinks by at most one element per attempt. */
  lemma {:induction false} RemoveAllFloor<T>(xs: seq<T>, indices: seq<int>)
    requires |xs| >= 1
    ensures 1 <= |RemoveAll(xs, indices)| <= |xs|
    ensures |RemoveAll(xs, indices)| >= |xs| - |indices|
    decreases |indices|
  {
    if indices != [] {
      var ys := RemoveGuarded(xs, indices[0]);
      assert |ys| >= |xs| - 1 && |ys| <= |xs|;
      RemoveAllFloor(ys, indices[1..]);
    }
  }
}
