/**
 Python list idioms the text processor relies on: `xs[:n]` slicing,
 `list(set(xs))` deduplication, list comprehensions with a filter,
 `xs.index(x)`, `random.shuffle` and stepping through a list in windows.
 */
module PyLists {

  /** A loop iteration's product, or nothing when the iteration was skipped. */
  datatype Option<T> = None | Some(value: T)

  function Min(a: int, b: int): int { if a <= b then a else b }

  function Max(a: int, b: int): int { if a <= b then b else a }

  /** `xs[:n]`, including Python's reading of a negative `n` as "all but the last -n". */
  function Prefix<T>(xs: seq<T>, n: int): (r: seq<T>)
    ensures n >= 0 ==> |r| == Min(n, |xs|)
    ensures n < 0 ==> |r| == Max(0, |xs| + n)
    ensures r == xs[..|r|]
  {
    if n >= 0 then (if n <= |xs| then xs[..n] else xs)
    else if -n <= |xs| then xs[..|xs| + n]
    else []
  }

  /** No element occurs twice. */
  predicate NoDups<T(==)>(xs: seq<T>) {
    forall i, j :: 0 <= i < j < |xs| ==> xs[i] != xs[j]
  }

  /** `list(set(xs))`. Python leaves the order of a set unspecified; this keeps
      first occurrences, and everything said about it holds for any order. */
  function Dedup<T(==,!new)>(xs: seq<T>): (r: seq<T>)
    ensures NoDups(r)
    ensures forall x :: x in r <==> x in xs
    ensures |r| <= |xs|
  {
    if xs == [] then []
    else
      var d := Dedup(xs[..|xs| - 1]);
      var last := xs[|xs| - 1];
      assert forall x :: x in xs <==> x in xs[..|xs| - 1] || x == last by {
        assert xs == xs[..|xs| - 1] + [last];
      }
      if last in d then d else d + [last]
  }

  /** The elements of `xs` that pass `keep`, in their order. */
  function Filter<T(==,!new)>(keep: T -> bool, xs: seq<T>): (r: seq<T>)
    ensures |r| <= |xs|
    ensures forall i :: 0 <= i < |r| ==> keep(r[i])
    ensures forall x :: x in r <==> x in xs && keep(x)
  {
    if xs == [] then []
    else if keep(xs[0]) then [xs[0]] + Filter(keep, xs[1..])
    else Filter(keep, xs[1..])
  }

  /** Filtering keeps order and multiplicity: filtering a concatenation is
      concatenating the filtered parts. */
  lemma {:induction false} FilterAppend<T(!new)>(keep: T -> bool, a: seq<T>, b: seq<T>)
    ensures Filter(keep, a + b) == Filter(keep, a) + Filter(keep, b)
    decreases |a|
  {
    if a == [] {
      assert a + b == b;
    } else {
      FilterAppend(keep, a[1..], b);
      assert (a + b)[0] == a[0] && (a + b)[1..] == a[1..] + b;
    }
  }

  /** Filtering keeps a duplicate-free list duplicate-free. */
  lemma {:induction false} FilterNoDups<T(!new)>(keep: T -> bool, xs: seq<T>)
    requires NoDups(xs)
    ensures NoDups(Filter(keep, xs))
    decreases |xs|
  {
    if xs != [] {
      FilterNoDups(keep, xs[1..]);
      assert xs[0] !in xs[1..];
    }
  }

  /** Filtering removes nothing when every element is kept. */
  lemma {:induction false} FilterKeepsAll<T(!new)>(keep: T -> bool, xs: seq<T>)
    requires forall i :: 0 <= i < |xs| ==> keep(xs[i])
    ensures Filter(keep, xs) == xs
    decreases |xs|
  {
    if xs != [] {
      FilterKeepsAll(keep, xs[1..]);
      assert xs == [xs[0]] + xs[1..];
    }
  }

  /** A duplicate-free list has as many elements as its set. */
  lemma {:induction false} NoDupsCardinality<T>(xs: seq<T>)
    requires NoDups(xs)
    ensures |set x | x in xs| == |xs|
    decreases |xs|
  {
    if xs != [] {
      var t := xs[1..];
      NoDupsCardinality(t);
      assert (set x | x in xs) == (set x | x in t) + {xs[0]} by {
        assert xs == [xs[0]] + t;
      }
      assert xs[0] !in t;
    }
  }

  /** `xs.index(x)`: the position of the first occurrence of `x`. */
  function IndexOf<T(==)>(xs: seq<T>, x: T): (i: nat)
    requires x in xs
    ensures i < |xs| && xs[i] == x
    ensures forall j :: 0 <= j < i ==> xs[j] != x
  {
    if xs[0] == x then 0 else 1 + IndexOf(xs[1..], x)
  }

  /** `xs[i], xs[j] = xs[j], xs[i]`. */
  function Swap<T>(xs: seq<T>, i: nat, j: nat): (r: seq<T>)
    requires i < |xs| && j < |xs|
    ensures |r| == |xs| && multiset(r) == multiset(xs)
  {
    xs[i := xs[j]][j := xs[i]]
  }

  /** The random draws `random.shuffle` makes for a list of length `n`: one
      `randbelow(i + 1)` for each `i` from `n - 1` down to 1, in that order. */
  predicate IsShuffleDraw(js: seq<nat>, n: nat) {
    |js| == Max(n - 1, 0) && forall k :: 0 <= k < |js| ==> js[k] <= n - 1 - k
  }

  /** `random.shuffle(xs)` as CPython performs it (a Fisher-Yates pass from the
      back), with the values `randbelow` returned given as `js`. */
  function Shuffle<T>(xs: seq<T>, js: seq<nat>): (r: seq<T>)
    requires IsShuffleDraw(js, |xs|)
    ensures |r| == |xs|
    ensures multiset(r) == multiset(xs)
  {
    ShuffleFrom(xs, js, |xs| - 1)
  }

  /** The Fisher-Yates pass from position `i` down to 1. */
  function ShuffleFrom<T>(xs: seq<T>, js: seq<nat>, i: int): (r: seq<T>)
    requires IsShuffleDraw(js, |xs|)
    requires i < |xs|
    ensures |r| == |xs|
    ensures multiset(r) == multiset(xs)
    decreases i
  {
    if i <= 0 then xs
    else
      var k := |xs| - 1 - i;
      ShuffleFrom(Swap(xs, i, js[k]), js, i - 1)
  }

  /** Concatenation of a list of lists. */
  function Flatten<T>(xss: seq<seq<T>>): seq<T>
  {
    if xss == [] then [] else xss[0] + Flatten(xss[1..])
  }

  /** Number of `k`-wide windows `range(0, n, k)` visits. */
  function WindowCount(n: nat, k: nat): nat
    requires k >= 1
  {
    if n == 0 then 0 else if n <= k then 1 else 1 + WindowCount(n - k, k)
  }

  /** The window count is the ceiling of `n / k`. */
  lemma {:induction false} WindowCountIsCeiling(n: nat, k: nat)
    requires k >= 1
    ensures WindowCount(n, k) == (n + k - 1) / k
    decreases n
  {
    if n == 0 {
      DivUnique(k - 1, k, 0, k - 1);
    } else if n <= k {
      DivOne(n + k - 1, k);
    } else {
      WindowCountIsCeiling(n - k, k);
      DivStep(n - 1, k);
    }
  }

  /** The slices of `k` elements starting at every multiple of `k`: consecutive windows of `k`
      elements, the last one possibly shorter. */
  function Group<T>(xs: seq<T>, k: nat): (g: seq<seq<T>>)
    requires k >= 1
    ensures |g| == WindowCount(|xs|, k)
    ensures forall j :: 0 <= j < |g| ==> 1 <= |g[j]| <= k
    ensures forall j :: 0 <= j < |g| - 1 ==> |g[j]| == k
    decreases |xs|
  {
    if xs == [] then []
    else if |xs| <= k then [xs]
    else [xs[..k]] + Group(xs[k..], k)
  }

  /** The windows partition the list: concatenated in order they give it back. */
  lemma {:induction false} GroupFlatten<T>(xs: seq<T>, k: nat)
    requires k >= 1
    ensures Flatten(Group(xs, k)) == xs
    decreases |xs|
  {
    var g := Group(xs, k);
    if xs == [] {
    } else if |xs| <= k {
      assert g[1..] == [];
      assert xs + [] == xs;
    } else {
      GroupFlatten(xs[k..], k);
      assert g[1..] == Group(xs[k..], k);
      assert xs[..k] + xs[k..] == xs;
    }
  }

  /** Windows of width 1 hold one element each. */
  lemma {:induction false} GroupOfOnes<T>(xs: seq<T>)
    ensures |Group(xs, 1)| == |xs|
    ensures forall j :: 0 <= j < |xs| ==> Group(xs, 1)[j] == [xs[j]]
    decreases |xs|
  {
    if |xs| > 1 {
      GroupOfOnes(xs[1..]);
      assert Group(xs, 1) == [xs[..1]] + Group(xs[1..], 1);
    }
  }

  /** Integer division by a positive `k` is determined by quotient and remainder. */
  lemma DivUnique(m: int, k: int, q: int, r: int)
    requires k >= 1 && 0 <= r < k && m == q * k + r
    ensures m / k == q
  {
    var d, s := m / k, m % k;
    assert m == d * k + s && 0 <= s < k;
    assert (d - q) * k == r - s;
    MulOutside(d - q, k);
  }

  /** A non-zero multiple of a positive `k` is at least `k` away from zero. */
  lemma MulOutside(a: int, k: int)
    requires k >= 1
    ensures a >= 1 ==> a * k >= k
    ensures a <= -1 ==> a * k <= -k
  {
  }

  lemma DivOne(m: nat, k: nat)
    requires k >= 1 && k <= m < 2 * k
    ensures m / k == 1
  {
    DivUnique(m, k, 1, m - k);
  }

  lemma DivStep(m: nat, k: nat)
    requires k >= 1
    ensures (m + k) / k == m / k + 1
  {
    var q, r := m / k, m % k;
    assert m + k == (q + 1) * k + r;
    DivUnique(m + k, k, q + 1, r);
  }

  /** Where window `j` starts: `j * k`, written as repeated addition. */
  function WindowStart(j: nat, k: nat): nat
  {
    if j == 0 then 0 else WindowStart(j - 1, k) + k
  }

  lemma {:induction false} WindowStartIsProduct(j: nat, k: nat)
    ensures WindowStart(j, k) == j * k
  {
    if j > 0 {
      WindowStartIsProduct(j - 1, k);
      assert (j - 1) * k + k == j * k;
    }
  }

  /** Past the first window, `Group` continues with the rest of the list. */
  lemma GroupTail<T>(xs: seq<T>, k: nat, j: nat)
    requires k >= 1 && 0 < j < |Group(xs, k)|
    ensures |xs| > k && j - 1 < |Group(xs[k..], k)|
    ensures Group(xs, k)[j] == Group(xs[k..], k)[j - 1]
  {
  }

  /** Window `j` of `Group(xs, k)` is the slice `xs[j*k : j*k + k]`. */
  lemma {:induction false} GroupSlice<T>(xs: seq<T>, k: nat, j: nat)
    requires k >= 1
    requires j < |Group(xs, k)|
    ensures WindowStart(j, k) < |xs|
    ensures Group(xs, k)[j] == xs[WindowStart(j, k) .. Min(WindowStart(j, k) + k, |xs|)]
    decreases j
  {
    if j > 0 {
      GroupTail(xs, k, j);
      GroupSlice(xs[k..], k, j - 1);
      var a := WindowStart(j - 1, k);
      var b := Min(a + k, |xs| - k);
      SliceOfSuffix(xs, k, a, b);
      assert WindowStart(j, k) == k + a;
      assert Min(WindowStart(j, k) + k, |xs|) == k + b;
    }
  }

  /** Slicing a suffix is slicing the whole list at shifted bounds. */
  lemma SliceOfSuffix<T>(xs: seq<T>, k: nat, lo: nat, hi: nat)
    requires k <= |xs| && lo <= hi <= |xs| - k
    ensures xs[k..][lo..hi] == xs[k + lo .. k + hi]
  {
  }
}
