/** Python list idioms over `seq`: slicing with negative and out-of-range
    bounds, comprehension filters, and the stable sort that `list.sort` and
    `sorted` perform. */
module Seqs {

  /** Python's normalisation of one slice bound against a length `n`:
      negative bounds count from the end, and the result is clamped to `[0, n]`. */
  function SliceBound(i: int, n: nat): (r: nat)
    ensures r <= n
    ensures 0 <= i <= n ==> r == i
    ensures i > n ==> r == n
    ensures i < 0 ==> r == (if i + n < 0 then 0 else i + n)
  {
    if i < 0 then (if i + n < 0 then 0 else i + n) else if i > n then n else i
  }

  /** `s[a:b]`. */
  function PySlice<T>(s: seq<T>, a: int, b: int): seq<T> {
    var lo := SliceBound(a, |s|);
    var hi := SliceBound(b, |s|);
    if hi <= lo then [] else s[lo..hi]
  }

  /** For non-negative bounds a slice is the elements at indices `a, a+1, ...`
      below both `b` and `|s|`; a slice `s[:b]` is a prefix of `s`. */
  lemma {:induction false} PySliceNonNegative<T>(s: seq<T>, a: int, b: int)
    requires 0 <= a && 0 <= b
    ensures var r := PySlice(s, a, b);
      && |r| == (if b <= a || a >= |s| then 0 else (if b < |s| then b else |s|) - a)
      && forall k | 0 <= k < |r| :: r[k] == s[a + k]
  {
  }

  lemma {:induction false} PySlicePrefix<T>(s: seq<T>, b: int)
    ensures |PySlice(s, 0, b)| <= |s|
    ensures PySlice(s, 0, b) == s[..|PySlice(s, 0, b)|]
    ensures 0 <= b ==> |PySlice(s, 0, b)| == (if b < |s| then b else |s|)
  {
  }

  /** Every slice is a contiguous piece of `s`. */
  lemma {:induction false} PySliceIn<T>(s: seq<T>, a: int, b: int)
    ensures exists lo, hi | 0 <= lo <= hi <= |s| :: PySlice(s, a, b) == s[lo..hi]
    ensures forall x | x in PySlice(s, a, b) :: x in s
  {
    var lo := SliceBound(a, |s|);
    var hi := SliceBound(b, |s|);
    if hi <= lo {
      assert 0 <= lo <= lo <= |s| && PySlice(s, a, b) == s[lo..lo];
    } else {
      assert 0 <= lo <= hi <= |s| && PySlice(s, a, b) == s[lo..hi];
    }
  }

  /** `s[0]` followed by `s[1:1+n]` is the prefix of `s` of length `1 + n`,
      or all of `s` when it is shorter. */
  lemma {:induction false} HeadAndNext<T>(s: seq<T>, n: nat)
    requires |s| > 0
    ensures var rows := PySlice(s, 1, 1 + n);
            && |rows| == (if n < |s| - 1 then n else |s| - 1)
            && [s[0]] + rows == s[..1 + |rows|]
  {
    var rows := PySlice(s, 1, 1 + n);
    PySliceNonNegative(s, 1, 1 + n);
    assert rows == s[1..1 + |rows|];
  }

  /** `[x for x in s if p(x)]`. */
  function Filter<T>(s: seq<T>, p: T -> bool): (r: seq<T>)
    ensures |r| <= |s|
    ensures forall i | 0 <= i < |r| :: p(r[i])
    ensures forall x | x in r :: x in s
    ensures forall x | x in s && p(x) :: x in r
    decreases |s|
  {
    if |s| == 0 then []
    else if p(s[0]) then [s[0]] + Filter(s[1..], p)
    else Filter(s[1..], p)
  }

  lemma {:induction false} FilterAppend<T>(a: seq<T>, b: seq<T>, p: T -> bool)
    ensures Filter(a + b, p) == Filter(a, p) + Filter(b, p)
    decreases |a|
  {
    if |a| > 0 {
      assert (a + b)[1..] == a[1..] + b;
      FilterAppend(a[1..], b, p);
    } else {
      assert a + b == b;
    }
  }

  lemma {:induction false} FilterCount<T>(s: seq<T>, p: T -> bool, x: T)
    ensures multiset(Filter(s, p))[x] == if p(x) then multiset(s)[x] else 0
    decreases |s|
  {
    if |s| > 0 {
      var head := if p(s[0]) then [s[0]] else [];
      FilterCount(s[1..], p, x);
      assert Filter(s, p) == head + Filter(s[1..], p);
      assert multiset(Filter(s, p)) == multiset(head) + multiset(Filter(s[1..], p));
      assert s == [s[0]] + s[1..];
      assert multiset(s) == multiset{s[0]} + multiset(s[1..]);
    }
  }


  lemma {:induction false} FilterIdempotent<T>(s: seq<T>, p: T -> bool)
    ensures Filter(Filter(s, p), p) == Filter(s, p)
    decreases |s|
  {
    if |s| > 0 {
      FilterIdempotent(s[1..], p);
      if p(s[0]) {
        assert Filter(s, p)[1..] == Filter(s[1..], p);
      }
    }
  }

  /** Tests that agree on the elements of `s` filter it alike. */
  lemma {:induction false} FilterExt<T>(s: seq<T>, p: T -> bool, q: T -> bool)
    requires forall x | x in s :: p(x) == q(x)
    ensures Filter(s, p) == Filter(s, q)
    decreases |s|
  {
    if |s| > 0 {
      assert forall x | x in s[1..] :: x in s;
      FilterExt(s[1..], p, q);
    }
  }

  /** A test every element passes keeps the whole sequence. */
  lemma {:induction false} FilterAll<T>(s: seq<T>, p: T -> bool)
    requires forall x | x in s :: p(x)
    ensures Filter(s, p) == s
    decreases |s|
  {
    if |s| > 0 {
      assert forall x | x in s[1..] :: x in s;
      FilterAll(s[1..], p);
      assert s == [s[0]] + s[1..];
    }
  }

  /** Filtering by `p` and then by `q` is one pass with the test `pq`
      that holds exactly when both do. */
  lemma {:induction false} FilterFuse<T>(s: seq<T>, p: T -> bool, q: T -> bool, pq: T -> bool)
    requires forall x | x in s :: pq(x) == (p(x) && q(x))
    ensures Filter(Filter(s, p), q) == Filter(s, pq)
    decreases |s|
  {
    if |s| > 0 {
      assert forall x | x in s[1..] :: x in s;
      FilterFuse(s[1..], p, q, pq);
      if p(s[0]) {
        var rest := Filter(s[1..], p);
        assert Filter(s, p) == [s[0]] + rest;
        assert ([s[0]] + rest)[1..] == rest;
      }
    }
  }

  /** Two optional filter passes, where a pass that is switched off keeps
      everything anyway, are the single filter by both tests. */
  lemma {:induction false} FilterPasses<T>(s: seq<T>, usep: bool, p: T -> bool, useq: bool, q: T -> bool, pq: T -> bool)
    requires !usep ==> forall x | x in s :: p(x)
    requires !useq ==> forall x | x in s :: q(x)
    requires forall x | x in s :: pq(x) == (p(x) && q(x))
    ensures var a := if usep then Filter(s, p) else s;
            (if useq then Filter(a, q) else a) == Filter(s, pq)
  {
    if !usep {
      FilterAll(s, p);
    }
    if !useq {
      FilterAll(Filter(s, p), q);
    }
    FilterFuse(s, p, q, pq);
  }

  /** The filter keeps exactly the elements that pass. */
  lemma {:induction false} FilterMembers<T>(s: seq<T>, p: T -> bool)
    ensures forall x :: x in Filter(s, p) <==> x in s && p(x)
  {
    var r := Filter(s, p);
    forall x | x in r ensures p(x) {
      var i :| 0 <= i < |r| && r[i] == x;
    }
  }

  /** `a` is `b` with some elements left out and the others in their order. */
  ghost predicate Subsequence<T>(a: seq<T>, b: seq<T>)
    decreases |b|
  {
    |a| == 0 || (|b| > 0 && ((a[0] == b[0] && Subsequence(a[1..], b[1..])) || Subsequence(a, b[1..])))
  }

  lemma {:induction false} SubsequenceOfSelf<T>(s: seq<T>)
    ensures Subsequence(s, s)
    decreases |s|
  {
    if |s| > 0 {
      SubsequenceOfSelf(s[1..]);
    }
  }

  /** `FilterCount` for every element at once. */
  lemma {:induction false} FilterCounts<T>(s: seq<T>, p: T -> bool)
    ensures forall x :: multiset(Filter(s, p))[x] == if p(x) then multiset(s)[x] else 0
  {
    forall x ensures multiset(Filter(s, p))[x] == if p(x) then multiset(s)[x] else 0 {
      FilterCount(s, p, x);
    }
  }

  /** The filter keeps the surviving elements in their order. */
  lemma {:induction false} FilterSubsequence<T>(s: seq<T>, p: T -> bool)
    ensures Subsequence(Filter(s, p), s)
    decreases |s|
  {
    if |s| > 0 {
      FilterSubsequence(s[1..], p);
      var r := Filter(s, p);
      if p(s[0]) {
        assert r[0] == s[0] && r[1..] == Filter(s[1..], p);
      }
    }
  }

  lemma {:induction false} FilterSingle<T>(x: T, p: T -> bool)
    ensures Filter([x], p) == if p(x) then [x] else []
  {
    assert [x][1..] == [];
  }

  /** Nothing passes a filter that no element satisfies. */
  lemma {:induction false} FilterNone<T>(s: seq<T>, p: T -> bool)
    requires forall x | x in s :: !p(x)
    ensures Filter(s, p) == []
    decreases |s|
  {
    if |s| > 0 {
      assert s[0] in s;
      FilterNone(s[1..], p);
    }
  }

  /** The index of the first element satisfying `p`, or `|s|` when there is
      none: `next(i for i, x in enumerate(s) if p(x))` with a default. */
  function FindFirst<T>(s: seq<T>, p: T -> bool): (r: nat)
    ensures r <= |s|
    ensures r < |s| ==> p(s[r])
    ensures forall j | 0 <= j < r :: !p(s[j])
    decreases |s|
  {
    if |s| == 0 then 0
    else if p(s[0]) then 0
    else
      var k := FindFirst(s[1..], p);
      assert forall j | 1 <= j < k + 1 :: s[j] == s[1..][j - 1];
      k + 1
  }

  /** The `seen`-set loop: keeps each element whose key has not been met
      before, in order. */
  function DedupBy<T, K>(s: seq<T>, key: T -> K, seen: set<K>): (r: seq<T>)
    ensures forall x | x in r :: x in s && key(x) !in seen
    ensures forall i, j | 0 <= i < j < |r| :: key(r[i]) != key(r[j])
    decreases |s|
  {
    if |s| == 0 then []
    else
      var k := key(s[0]);
      if k in seen then
        var r := DedupBy(s[1..], key, seen);
        assert forall x | x in r :: x in s[1..];
        r
      else
        var rest := DedupBy(s[1..], key, seen + {k});
        var r := [s[0]] + rest;
        assert forall x | x in rest :: x in s[1..];
        assert forall i, j | 0 <= i < j < |r| :: key(r[i]) != key(r[j]) by {
          forall i, j | 0 <= i < j < |r| ensures key(r[i]) != key(r[j]) {
            assert r[j] == rest[j - 1] && r[j] in rest;
            if i > 0 { assert r[i] == rest[i - 1]; }
          }
        }
        r
  }

  /** Every key of `s` is either seen already or carried by a kept element. */
  lemma {:induction false} DedupByCovers<T, K>(s: seq<T>, key: T -> K, seen: set<K>, x: T)
    requires x in s
    ensures key(x) in seen || exists y | y in DedupBy(s, key, seen) :: key(y) == key(x)
    decreases |s|
  {
    var k := key(s[0]);
    var r := DedupBy(s, key, seen);
    if x == s[0] {
      if k !in seen {
        assert r[0] == x;
      }
    } else {
      assert x in s[1..];
      if k in seen {
        DedupByCovers(s[1..], key, seen, x);
      } else {
        DedupByCovers(s[1..], key, seen + {k}, x);
        if key(x) != k && key(x) !in seen {
          var y :| y in DedupBy(s[1..], key, seen + {k}) && key(y) == key(x);
          assert y in r;
        } else if key(x) == k {
          assert r[0] in r;
        }
      }
    }
  }

  /** An element whose key was already met changes nothing. */
  lemma {:induction false} DedupByDropsRepeat<T, K>(s: seq<T>, y: T, key: T -> K, seen: set<K>)
    requires key(y) in seen || exists x | x in s :: key(x) == key(y)
    ensures DedupBy(s + [y], key, seen) == DedupBy(s, key, seen)
    decreases |s|
  {
    if |s| == 0 {
      assert [] + [y] == [y];
      assert [y][1..] == [];
    } else {
      var k := key(s[0]);
      assert (s + [y])[0] == s[0];
      assert (s + [y])[1..] == s[1..] + [y];
      if k in seen {
        DedupByDropsRepeat(s[1..], y, key, seen);
      } else {
        assert key(y) in seen + {k} || exists x | x in s[1..] :: key(x) == key(y) by {
          if key(y) !in seen {
            var x :| x in s && key(x) == key(y);
            if x != s[0] {
              var i :| 0 <= i < |s| && s[i] == x;
              assert s[1..][i - 1] == x;
            }
          }
        }
        DedupByDropsRepeat(s[1..], y, key, seen + {k});
      }
    }
  }

  /** An element with a new key is appended. */
  lemma {:induction false} DedupByAppendNew<T, K>(s: seq<T>, y: T, key: T -> K, seen: set<K>)
    requires key(y) !in seen && forall x | x in s :: key(x) != key(y)
    ensures DedupBy(s + [y], key, seen) == DedupBy(s, key, seen) + [y]
    decreases |s|
  {
    if |s| == 0 {
      assert [] + [y] == [y];
      assert [y][1..] == [];
    } else {
      var k := key(s[0]);
      assert (s + [y])[0] == s[0];
      assert (s + [y])[1..] == s[1..] + [y];
      assert forall x | x in s[1..] :: x in s;
      if k in seen {
        DedupByAppendNew(s[1..], y, key, seen);
      } else {
        assert s[0] in s;
        DedupByAppendNew(s[1..], y, key, seen + {k});
      }
    }
  }

  /** Elements with pairwise different keys, none of them seen, all survive. */
  lemma {:induction false} DedupByOfDistinct<T, K>(s: seq<T>, key: T -> K, seen: set<K>)
    requires forall x | x in s :: key(x) !in seen
    requires forall i, j | 0 <= i < j < |s| :: key(s[i]) != key(s[j])
    ensures DedupBy(s, key, seen) == s
    decreases |s|
  {
    if |s| > 0 {
      var k := key(s[0]);
      forall x | x in s[1..] ensures key(x) !in seen + {k} {
        var i :| 0 <= i < |s[1..]| && s[1..][i] == x;
        assert s[i + 1] == x;
      }
      forall i, j | 0 <= i < j < |s[1..]| ensures key(s[1..][i]) != key(s[1..][j]) {
        assert s[1..][i] == s[i + 1] && s[1..][j] == s[j + 1];
      }
      DedupByOfDistinct(s[1..], key, seen + {k});
      assert [s[0]] + s[1..] == s;
    }
  }

  /** Keys never decrease from left to right. */
  ghost predicate SortedBy<T>(s: seq<T>, key: T -> int) {
    forall i, j | 0 <= i < j < |s| :: key(s[i]) <= key(s[j])
  }

  /** The elements of `s` whose key is `k`, in their order in `s`. */
  function WithKey<T>(s: seq<T>, key: T -> int, k: int): seq<T>
    decreases |s|
  {
    if |s| == 0 then []
    else if key(s[0]) == k then [s[0]] + WithKey(s[1..], key, k)
    else WithKey(s[1..], key, k)
  }

  /** Places `x` before the first element whose key is not smaller. */
  function Insert<T>(x: T, s: seq<T>, key: T -> int): seq<T>
    decreases |s|
  {
    if |s| == 0 then [x]
    else if key(x) <= key(s[0]) then [x] + s
    else [s[0]] + Insert(x, s[1..], key)
  }

  /** Stable ascending sort by `key`, as Python's `sorted(s, key=key)`. */
  function SortBy<T>(s: seq<T>, key: T -> int): seq<T>
    decreases |s|
  {
    if |s| == 0 then [] else Insert(s[0], SortBy(s[1..], key), key)
  }

  lemma {:induction false} InsertCount<T>(x: T, s: seq<T>, key: T -> int)
    ensures multiset(Insert(x, s, key)) == multiset{x} + multiset(s)
    ensures |Insert(x, s, key)| == |s| + 1
    decreases |s|
  {
    if |s| > 0 && key(x) > key(s[0]) {
      InsertCount(x, s[1..], key);
      assert s == [s[0]] + s[1..];
    }
  }

  /** Inserting keeps a lower bound that `x` and all of `s` respect. */
  lemma {:induction false} InsertAbove<T>(x: T, s: seq<T>, key: T -> int, b: int)
    requires b <= key(x) && forall i | 0 <= i < |s| :: b <= key(s[i])
    ensures forall i | 0 <= i < |Insert(x, s, key)| :: b <= key(Insert(x, s, key)[i])
    decreases |s|
  {
    if |s| > 0 && key(x) > key(s[0]) {
      var t := s[1..];
      assert forall i | 0 <= i < |t| :: b <= key(t[i]) by {
        forall i | 0 <= i < |t| ensures b <= key(t[i]) {
          assert t[i] == s[i + 1];
        }
      }
      InsertAbove(x, t, key, b);
      var r := [s[0]] + Insert(x, t, key);
      forall i | 1 <= i < |r| ensures b <= key(r[i]) {
        assert r[i] == Insert(x, t, key)[i - 1];
      }
    }
  }

  lemma {:induction false} InsertSorted<T>(x: T, s: seq<T>, key: T -> int)
    requires SortedBy(s, key)
    ensures SortedBy(Insert(x, s, key), key)
    decreases |s|
  {
    if |s| > 0 && key(x) > key(s[0]) {
      var t := s[1..];
      assert SortedBy(t, key) by {
        forall i, j | 0 <= i < j < |t| ensures key(t[i]) <= key(t[j]) {
          assert t[i] == s[i + 1] && t[j] == s[j + 1];
        }
      }
      assert forall i | 0 <= i < |t| :: key(s[0]) <= key(t[i]) by {
        forall i | 0 <= i < |t| ensures key(s[0]) <= key(t[i]) {
          assert t[i] == s[i + 1];
        }
      }
      InsertSorted(x, t, key);
      InsertAbove(x, t, key, key(s[0]));
      var it := Insert(x, t, key);
      var r := [s[0]] + it;
      forall i, j | 0 <= i < j < |r| ensures key(r[i]) <= key(r[j]) {
        assert r[j] == it[j - 1];
        if i > 0 {
          assert r[i] == it[i - 1];
        }
      }
    }
  }

  lemma {:induction false} InsertWithKey<T>(x: T, s: seq<T>, key: T -> int, k: int)
    ensures WithKey(Insert(x, s, key), key, k) == (if key(x) == k then [x] else []) + WithKey(s, key, k)
    decreases |s|
  {
    if |s| > 0 && key(x) > key(s[0]) {
      InsertWithKey(x, s[1..], key, k);
    }
  }

  lemma {:induction false} SortByFacts<T>(s: seq<T>, key: T -> int)
    ensures SortedBy(SortBy(s, key), key)
    ensures multiset(SortBy(s, key)) == multiset(s)
    ensures |SortBy(s, key)| == |s|
  {
    SortBySorted(s, key);
    SortByCount(s, key);
  }

  lemma {:induction false} SortBySorted<T>(s: seq<T>, key: T -> int)
    ensures SortedBy(SortBy(s, key), key)
    decreases |s|
  {
    if |s| > 0 {
      SortBySorted(s[1..], key);
      InsertSorted(s[0], SortBy(s[1..], key), key);
    }
  }

  lemma {:induction false} SortByCount<T>(s: seq<T>, key: T -> int)
    ensures multiset(SortBy(s, key)) == multiset(s)
    ensures |SortBy(s, key)| == |s|
    decreases |s|
  {
    if |s| > 0 {
      SortByCount(s[1..], key);
      InsertCount(s[0], SortBy(s[1..], key), key);
      assert s == [s[0]] + s[1..];
    }
  }

  /** The sort is stable: the elements sharing any one key keep their order. */
  lemma {:induction false} SortByStable<T>(s: seq<T>, key: T -> int, k: int)
    ensures WithKey(SortBy(s, key), key, k) == WithKey(s, key, k)
    decreases |s|
  {
    if |s| > 0 {
      SortByStable(s[1..], key, k);
      InsertWithKey(s[0], SortBy(s[1..], key), key, k);
    }
  }
}
