/** The JavaScript array built-ins the news utilities use (`filter`, `slice`, `sort`),
    stated on Dafny sequences. */
module JsArray {

  /** `xs.filter(p)`. */
  function Filter<T>(xs: seq<T>, p: T -> bool): (r: seq<T>)
    ensures |r| <= |xs|
    ensures forall i :: 0 <= i < |r| ==> p(r[i])
  {
    if xs == [] then [] else (if p(xs[0]) then [xs[0]] else []) + Filter(xs[1..], p)
  }

  /** `xs.filter(x => !p(x))`. */
  function FilterOut<T>(xs: seq<T>, p: T -> bool): (r: seq<T>)
    ensures |r| <= |xs|
    ensures forall i :: 0 <= i < |r| ==> !p(r[i])
  {
    if xs == [] then [] else (if p(xs[0]) then [] else [xs[0]]) + FilterOut(xs[1..], p)
  }

  /** What survives a filter: exactly the elements the predicate accepts. */
  lemma {:induction false} FilterMembers<T>(xs: seq<T>, p: T -> bool)
    ensures forall x :: x in Filter(xs, p) <==> x in xs && p(x)
    ensures forall x :: x in FilterOut(xs, p) <==> x in xs && !p(x)
  {
    if xs != [] {
      FilterMembers(xs[1..], p);
      assert xs == [xs[0]] + xs[1..];
    }
  }

  /** Filtering distributes over concatenation: the kept elements keep their relative order. */
  lemma {:induction false} FilterConcat<T>(a: seq<T>, b: seq<T>, p: T -> bool)
    ensures Filter(a + b, p) == Filter(a, p) + Filter(b, p)
    ensures FilterOut(a + b, p) == FilterOut(a, p) + FilterOut(b, p)
  {
    if a == [] {
      assert a + b == b;
    } else {
      assert (a + b)[0] == a[0] && (a + b)[1..] == a[1..] + b;
      FilterConcat(a[1..], b, p);
      assert Filter(a + b, p) == (if p(a[0]) then [a[0]] else []) + Filter(a[1..] + b, p);
      assert FilterOut(a + b, p) == (if p(a[0]) then [] else [a[0]]) + FilterOut(a[1..] + b, p);
    }
  }

  /** A filter and its complement split the input: every element goes to exactly one side. */
  lemma {:induction false} FilterPartition<T>(xs: seq<T>, p: T -> bool)
    ensures multiset(Filter(xs, p)) + multiset(FilterOut(xs, p)) == multiset(xs)
    ensures |Filter(xs, p)| + |FilterOut(xs, p)| == |xs|
  {
    if xs != [] {
      FilterPartition(xs[1..], p);
      assert xs == [xs[0]] + xs[1..];
    }
  }

  /** `xs.slice(0, end)`, with JavaScript's reading of a negative `end` as counted from the back. */
  function SliceTo<T>(xs: seq<T>, end: int): (r: seq<T>)
    ensures end >= 0 ==> |r| == (if end < |xs| then end else |xs|)
    ensures end < 0 ==> |r| == (if |xs| + end < 0 then 0 else |xs| + end)
    ensures r == xs[..|r|]
  {
    var e := if end < 0 then (if |xs| + end < 0 then 0 else |xs| + end)
             else (if end < |xs| then end else |xs|);
    xs[..e]
  }

  // ---------------------------------------------------------------------------
  // sort((a, b) => key(b) - key(a))

  /** Non-increasing by `key`. */
  predicate SortedDesc<T>(xs: seq<T>, key: T -> int) {
    forall i, j :: 0 <= i < j < |xs| ==> key(xs[i]) >= key(xs[j])
  }

  /** The elements of `xs` whose key is `k`, in order: the class stability talks about. */
  function KeyClass<T>(xs: seq<T>, key: T -> int, k: int): seq<T> {
    if xs == [] then [] else (if key(xs[0]) == k then [xs[0]] else []) + KeyClass(xs[1..], key, k)
  }

  lemma ConsSorted<T>(h: T, t: seq<T>, key: T -> int)
    requires SortedDesc(t, key)
    requires t == [] || key(h) >= key(t[0])
    ensures SortedDesc([h] + t, key)
  {
    var r := [h] + t;
    forall i, j | 0 <= i < j < |r| ensures key(r[i]) >= key(r[j]) {
      if i == 0 {
        assert r[j] == t[j - 1];
        assert key(t[0]) >= key(t[j - 1]) || j == 1;
      } else {
        assert r[i] == t[i - 1] && r[j] == t[j - 1];
      }
    }
  }

  /** Puts `x` in front of the first element whose key does not exceed its own. */
  function InsertDesc<T>(x: T, xs: seq<T>, key: T -> int): (r: seq<T>)
    ensures multiset(r) == multiset(xs) + multiset{x} && |r| == |xs| + 1
    ensures r[0] == x || (xs != [] && r[0] == xs[0])
    ensures SortedDesc(xs, key) ==> SortedDesc(r, key)
  {
    if xs == [] || key(x) >= key(xs[0]) then
      var r := [x] + xs;
      assert SortedDesc(xs, key) ==> SortedDesc(r, key) by {
        if SortedDesc(xs, key) { ConsSorted(x, xs, key); }
      }
      r
    else
      var rest := InsertDesc(x, xs[1..], key);
      var r := [xs[0]] + rest;
      assert xs == [xs[0]] + xs[1..];
      assert SortedDesc(xs, key) ==> SortedDesc(r, key) by {
        if SortedDesc(xs, key) {
          assert SortedDesc(xs[1..], key);
          ConsSorted(xs[0], rest, key);
        }
      }
      r
  }

  lemma HeadMultiset<T>(xs: seq<T>)
    requires xs != []
    ensures multiset(xs) == multiset(xs[1..]) + multiset{xs[0]}
  {
    assert xs == [xs[0]] + xs[1..];
  }

  /** `[...xs].sort((a, b) => key(b) - key(a))`. ECMAScript requires `Array.prototype.sort`
      to be stable, so the result is the stable insertion sort written here. */
  function SortDesc<T>(xs: seq<T>, key: T -> int): (r: seq<T>)
    ensures multiset(r) == multiset(xs) && |r| == |xs|
    ensures SortedDesc(r, key)
  {
    if xs == [] then []
    else
      HeadMultiset(xs);
      InsertDesc(xs[0], SortDesc(xs[1..], key), key)
  }

  lemma {:induction false} InsertKeepsClasses<T>(x: T, xs: seq<T>, key: T -> int, k: int)
    requires SortedDesc(xs, key)
    ensures KeyClass(InsertDesc(x, xs, key), key, k) == KeyClass([x] + xs, key, k)
  {
    if xs != [] && key(x) < key(xs[0]) {
      InsertKeepsClasses(x, xs[1..], key, k);
      assert ([x] + xs[1..])[1..] == xs[1..];
      assert ([x] + xs)[1..] == xs;
    }
  }

  /** Stability: elements with equal keys leave the sort in the order they came in. */
  lemma {:induction false} SortDescStable<T>(xs: seq<T>, key: T -> int, k: int)
    ensures KeyClass(SortDesc(xs, key), key, k) == KeyClass(xs, key, k)
  {
    if xs != [] {
      SortDescStable(xs[1..], key, k);
      InsertKeepsClasses(xs[0], SortDesc(xs[1..], key), key, k);
      assert ([xs[0]] + SortDesc(xs[1..], key))[1..] == SortDesc(xs[1..], key);
    }
  }

  /** Sorting an already sorted sequence changes nothing. */
  lemma {:induction false} SortDescOfSorted<T>(xs: seq<T>, key: T -> int)
    requires SortedDesc(xs, key)
    ensures SortDesc(xs, key) == xs
  {
    if xs != [] {
      SortDescOfSorted(xs[1..], key);
      assert xs == [xs[0]] + xs[1..];
    }
  }

  /** `xs.map(f)`. */
  function MapSeq<T, U>(xs: seq<T>, f: T -> U): (r: seq<U>)
    ensures |r| == |xs|
    ensures forall i :: 0 <= i < |xs| ==> r[i] == f(xs[i])
  {
    if xs == [] then [] else [f(xs[0])] + MapSeq(xs[1..], f)
  }

  lemma {:induction false} MapSeqConcat<T, U>(a: seq<T>, b: seq<T>, f: T -> U)
    ensures MapSeq(a + b, f) == MapSeq(a, f) + MapSeq(b, f)
  {
    if a != [] {
      MapSeqConcat(a[1..], b, f);
      assert (a + b)[1..] == a[1..] + b;
    } else {
      assert a + b == b;
    }
  }

  lemma {:induction false} InsertDescMapMultiset<T, U>(x: T, xs: seq<T>, key: T -> int, f: T -> U)
    ensures multiset(MapSeq(InsertDesc(x, xs, key), f)) == multiset(MapSeq(xs, f)) + multiset{f(x)}
  {
    if xs != [] && key(x) < key(xs[0]) {
      InsertDescMapMultiset(x, xs[1..], key, f);
      var r := InsertDesc(x, xs, key);
      assert r == [xs[0]] + InsertDesc(x, xs[1..], key);
      assert MapSeq(r, f) == [f(xs[0])] + MapSeq(InsertDesc(x, xs[1..], key), f);
      assert MapSeq(xs, f) == [f(xs[0])] + MapSeq(xs[1..], f);
    } else {
      assert MapSeq([x] + xs, f) == [f(x)] + MapSeq(xs, f);
    }
  }

  /** Sorting permutes whatever is attached to the elements too: the images under `f`
      of the sorted sequence are a permutation of those of the input. */
  lemma {:induction false} SortDescMapMultiset<T, U>(xs: seq<T>, key: T -> int, f: T -> U)
    ensures multiset(MapSeq(SortDesc(xs, key), f)) == multiset(MapSeq(xs, f))
  {
    if xs != [] {
      SortDescMapMultiset(xs[1..], key, f);
      InsertDescMapMultiset(xs[0], SortDesc(xs[1..], key), key, f);
      assert MapSeq(xs, f) == [f(xs[0])] + MapSeq(xs[1..], f);
    }
  }

  /** `xs.map((x, i) => f(x, i))`: the callback also receives the position. */
  function MapIndexed<T, U>(xs: seq<T>, f: (T, nat) -> U): (r: seq<U>)
    ensures |r| == |xs|
  {
    if xs == [] then [] else MapIndexed(xs[..|xs| - 1], f) + [f(xs[|xs| - 1], |xs| - 1)]
  }

  /** Element `i` of an indexed map is the callback on element `i` and position `i`. */
  lemma {:induction false} MapIndexedAt<T, U>(xs: seq<T>, f: (T, nat) -> U)
    ensures forall i :: 0 <= i < |xs| ==> MapIndexed(xs, f)[i] == f(xs[i], i)
  {
    if xs != [] {
      var init := xs[..|xs| - 1];
      MapIndexedAt(init, f);
      assert forall i :: 0 <= i < |init| ==> init[i] == xs[i];
    }
  }

  /** Mapping one more element appends its image. */
  lemma MapIndexedSnoc<T, U>(xs: seq<T>, i: nat, f: (T, nat) -> U)
    requires i < |xs|
    ensures MapIndexed(xs[..i + 1], f) == MapIndexed(xs[..i], f) + [f(xs[i], i)]
  {
    assert xs[..i + 1][..i] == xs[..i];
  }
}
