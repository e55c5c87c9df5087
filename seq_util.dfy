/**
 * Sequence operations that the source performs with `Array.prototype.filter`,
 * `Array.prototype.sort` and insertion-ordered `Map`/`Set` keys.
 */
module SeqUtil {

  /** `s.filter(p)`: the elements satisfying `p`, in their original order. */
  function Filter<T(!new)>(s: seq<T>, p: T -> bool): (r: seq<T>)
    ensures |r| <= |s|
    ensures forall x :: x in r <==> x in s && p(x)
    ensures forall i :: 0 <= i < |r| ==> p(r[i])
    decreases |s|
  {
    if |s| == 0 then [] else (if p(s[0]) then [s[0]] else []) + Filter(s[1..], p)
  }

  /** When no element satisfies `p`, the filter is empty. */
  lemma {:induction false} FilterNone<T(!new)>(s: seq<T>, p: T -> bool)
    requires forall k :: 0 <= k < |s| ==> !p(s[k])
    ensures Filter(s, p) == []
    decreases |s|
  {
    if |s| > 0 {
      assert forall k :: 0 <= k < |s[1..]| ==> s[1..][k] == s[k + 1];
      FilterNone(s[1..], p);
    }
  }

  /** Prepending one element to one side of a split of `rest` gives a split of `[x] + rest`. */
  lemma PartitionStep<T>(x: T, hp: seq<T>, hq: seq<T>, fp: seq<T>, fq: seq<T>, rest: seq<T>)
    requires (hp == [x] && hq == []) || (hp == [] && hq == [x])
    requires multiset(fp) + multiset(fq) == multiset(rest) && |fp| + |fq| == |rest|
    ensures multiset(hp + fp) + multiset(hq + fq) == multiset([x] + rest)
    ensures |hp + fp| + |hq + fq| == |[x] + rest|
  {
  }

  /** A filter and the filter of the complementary predicate split the input exactly. */
  lemma {:induction false} FilterPartition<T(!new)>(s: seq<T>, p: T -> bool, q: T -> bool)
    requires forall x :: q(x) == !p(x)
    ensures multiset(Filter(s, p)) + multiset(Filter(s, q)) == multiset(s)
    ensures |Filter(s, p)| + |Filter(s, q)| == |s|
    decreases |s|
  {
    if |s| > 0 {
      var hp := if p(s[0]) then [s[0]] else [];
      var hq := if q(s[0]) then [s[0]] else [];
      assert Filter(s, p) == hp + Filter(s[1..], p);
      assert Filter(s, q) == hq + Filter(s[1..], q);
      assert s == [s[0]] + s[1..];
      FilterPartition(s[1..], p, q);
      PartitionStep(s[0], hp, hq, Filter(s[1..], p), Filter(s[1..], q), s[1..]);
    }
  }

  /** The number of elements satisfying `p`. */
  function Count<T(!new)>(s: seq<T>, p: T -> bool): (n: nat)
    ensures n <= |s|
    ensures n == |Filter(s, p)|
    decreases |s|
  {
    if |s| == 0 then 0 else (if p(s[0]) then 1 else 0) + Count(s[1..], p)
  }

  /** `s` is ordered by `key`, ties allowed. */
  ghost predicate SortedBy<T>(s: seq<T>, key: T -> int) {
    forall i, j :: 0 <= i < j < |s| ==> key(s[i]) <= key(s[j])
  }

  /** Filtering keeps the relative order of the kept elements, so an ordered input gives an ordered output. */
  lemma {:induction false} FilterKeepsOrder<T(!new)>(s: seq<T>, p: T -> bool, key: T -> int)
    requires SortedBy(s, key)
    ensures SortedBy(Filter(s, p), key)
    decreases |s|
  {
    if |s| > 0 {
      FilterKeepsOrder(s[1..], p, key);
      var rest := Filter(s[1..], p);
      forall k | 0 <= k < |rest| ensures key(s[0]) <= key(rest[k]) {
        assert rest[k] in s[1..];
      }
    }
  }

  /** Stable insertion of `x` after every element whose key is not larger. */
  function InsertBy<T>(x: T, s: seq<T>, key: T -> int): (r: seq<T>)
    ensures multiset(r) == multiset(s) + multiset{x}
    ensures |r| == |s| + 1
    decreases |s|
  {
    if |s| == 0 then [x]
    else if key(x) < key(s[0]) then [x] + s
    else
      assert s == [s[0]] + s[1..];
      [s[0]] + InsertBy(x, s[1..], key)
  }

  lemma {:induction false} InsertByKeepsOrder<T>(x: T, s: seq<T>, key: T -> int)
    requires SortedBy(s, key)
    ensures SortedBy(InsertBy(x, s, key), key)
    decreases |s|
  {
    if |s| > 0 && key(x) >= key(s[0]) {
      InsertByKeepsOrder(x, s[1..], key);
      var rest := InsertBy(x, s[1..], key);
      forall k | 0 <= k < |rest| ensures key(s[0]) <= key(rest[k]) {
        assert rest[k] in multiset(rest);
        assert rest[k] in multiset(s[1..]) + multiset{x};
        if rest[k] != x {
          assert rest[k] in s[1..];
        }
      }
    }
  }

  /** A stable sort by `key`, standing for `Array.prototype.sort` (stable since ES2019) or a database `orderBy`. */
  function SortBy<T>(s: seq<T>, key: T -> int): (r: seq<T>)
    ensures multiset(r) == multiset(s)
    ensures |r| == |s|
    decreases |s|
  {
    if |s| == 0 then []
    else
      assert s == s[..|s| - 1] + [s[|s| - 1]];
      InsertBy(s[|s| - 1], SortBy(s[..|s| - 1], key), key)
  }

  /** Sorting keeps exactly the elements of its input. */
  lemma SortByMembers<T>(s: seq<T>, key: T -> int)
    ensures forall x :: x in SortBy(s, key) <==> x in s
  {
    var r := SortBy(s, key);
    forall x ensures x in r <==> x in s {
      assert x in r <==> x in multiset(r);
      assert x in s <==> x in multiset(s);
    }
  }

  lemma {:induction false} SortByIsSorted<T>(s: seq<T>, key: T -> int)
    ensures SortedBy(SortBy(s, key), key)
    decreases |s|
  {
    if |s| > 0 {
      SortByIsSorted(s[..|s| - 1], key);
      InsertByKeepsOrder(s[|s| - 1], SortBy(s[..|s| - 1], key), key);
    }
  }

  /** The distinct elements of `s` in order of first appearance (the key order of a JS `Map` filled front to back). */
  function Distinct<T(==,!new)>(s: seq<T>): (r: seq<T>)
    decreases |s|
  {
    if |s| == 0 then []
    else
      var d := Distinct(s[..|s| - 1]);
      if s[|s| - 1] in d then d else d + [s[|s| - 1]]
  }

  /** Appending an element keeps `Distinct` when it was already seen, and appends it otherwise. */
  lemma DistinctSnoc<T(!new)>(s: seq<T>, x: T)
    ensures Distinct(s + [x]) == if x in Distinct(s) then Distinct(s) else Distinct(s) + [x]
  {
    assert (s + [x])[..|s|] == s;
  }

  /** `Distinct` keeps exactly the elements of its input, each once, and is never longer than it. */
  lemma {:induction false} DistinctSpec<T(!new)>(s: seq<T>)
    ensures forall x :: x in Distinct(s) <==> x in s
    ensures forall i, j :: 0 <= i < j < |Distinct(s)| ==> Distinct(s)[i] != Distinct(s)[j]
    ensures |Distinct(s)| <= |s|
    decreases |s|
  {
    if |s| > 0 {
      var init := s[..|s| - 1];
      DistinctSpec(init);
      assert s == init + [s[|s| - 1]];
    }
  }

  /** `Distinct` lists keys by first appearance: any occurrence of a later key comes after an occurrence of every earlier key. */
  lemma {:induction false} DistinctFirstAppearance<T(!new)>(s: seq<T>)
    ensures forall i, j, k :: 0 <= i < j < |Distinct(s)| && 0 <= k < |s| && s[k] == Distinct(s)[j] ==> Distinct(s)[i] in s[..k]
    decreases |s|
  {
    if |s| > 0 {
      var init := s[..|s| - 1];
      var x := s[|s| - 1];
      DistinctFirstAppearance(init);
      DistinctSpec(init);
      var d := Distinct(init);
      forall i, j, k | 0 <= i < j < |Distinct(s)| && 0 <= k < |s| && s[k] == Distinct(s)[j]
        ensures Distinct(s)[i] in s[..k]
      {
        assert Distinct(s)[i] == d[i];
        if k < |s| - 1 {
          assert s[..k] == init[..k];
          assert s[k] == init[k];
          if j < |d| {
            assert Distinct(s)[j] == d[j];
          }
        } else {
          assert s[..k] == init;
        }
      }
    }
  }

  /** A sequence without repeated elements has as many elements as its set of elements. */
  lemma {:induction false} NoRepeatsCard<T>(s: seq<T>)
    requires forall i, j :: 0 <= i < j < |s| ==> s[i] != s[j]
    ensures |set x | x in s| == |s|
    decreases |s|
  {
    if |s| > 0 {
      var init := s[..|s| - 1];
      var last := s[|s| - 1];
      NoRepeatsCard(init);
      assert s == init + [last];
      assert last !in init;
      assert (set x | x in s) == (set x | x in init) + {last};
    }
  }

  /** The number of distinct elements is the size of the set of elements (`new Set(s).size`). */
  lemma DistinctCount<T(!new)>(s: seq<T>)
    ensures |Distinct(s)| == |set x | x in s|
  {
    DistinctSpec(s);
    NoRepeatsCard(Distinct(s));
    assert (set x | x in Distinct(s)) == (set x | x in s);
  }

  /** Filtering by a stronger predicate after a weaker one is filtering by the stronger one alone. */
  lemma {:induction false} FilterOfFilter<T(!new)>(s: seq<T>, p: T -> bool, q: T -> bool)
    requires forall x :: q(x) ==> p(x)
    ensures Filter(Filter(s, p), q) == Filter(s, q)
    decreases |s|
  {
    if |s| > 0 {
      var rest := Filter(s[1..], p);
      FilterOfFilter(s[1..], p, q);
      assert Filter(s, q) == (if q(s[0]) then [s[0]] else []) + Filter(s[1..], q);
      if p(s[0]) {
        var fp := [s[0]] + rest;
        assert Filter(s, p) == fp;
        assert fp[0] == s[0] && fp[1..] == rest;
        assert Filter(fp, q) == (if q(s[0]) then [s[0]] else []) + Filter(rest, q);
      } else {
        assert Filter(s, p) == rest;
      }
    }
  }

  /** Filtering a sequence with one more element at the end filters the rest, then that element. */
  lemma {:induction false} FilterSnoc<T(!new)>(s: seq<T>, x: T, p: T -> bool)
    ensures Filter(s + [x], p) == Filter(s, p) + (if p(x) then [x] else [])
    decreases |s|
  {
    if |s| == 0 {
      assert s + [x] == [x];
      assert [x][1..] == [];
    } else {
      FilterSnoc(s[1..], x, p);
      var head := if p(s[0]) then [s[0]] else [];
      var tail := if p(x) then [x] else [];
      assert (s + [x])[0] == s[0];
      assert (s + [x])[1..] == s[1..] + [x];
      assert Filter(s + [x], p) == head + Filter(s[1..] + [x], p);
      assert Filter(s, p) == head + Filter(s[1..], p);
      assert head + (Filter(s[1..], p) + tail) == (head + Filter(s[1..], p)) + tail;
    }
  }

  /** Filtering a concatenation filters each part, in order. */
  lemma {:induction false} FilterConcat<T(!new)>(a: seq<T>, b: seq<T>, p: T -> bool)
    ensures Filter(a + b, p) == Filter(a, p) + Filter(b, p)
    decreases |a|
  {
    if |a| == 0 {
      assert a + b == b;
    } else {
      FilterConcat(a[1..], b, p);
      var head := if p(a[0]) then [a[0]] else [];
      assert (a + b)[0] == a[0];
      assert (a + b)[1..] == a[1..] + b;
      assert Filter(a + b, p) == head + Filter(a[1..] + b, p);
      assert Filter(a, p) == head + Filter(a[1..], p);
      assert head + (Filter(a[1..], p) + Filter(b, p)) == (head + Filter(a[1..], p)) + Filter(b, p);
    }
  }
}
