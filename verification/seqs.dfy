/** Generic sequence operations that mirror the JavaScript array methods the
    console uses: `slice(0, n)`, `filter`, `reduce` for sums, and the stable
    `sort` with a numeric key compared in descending order. */
module Seqs {

  /** `s.slice(0, n)`: the first `n` elements, or all of them when there are fewer. */
  function Take<T>(s: seq<T>, n: nat): (r: seq<T>)
    ensures |r| == (if |s| < n then |s| else n)
    ensures r == s[..|r|]
  {
    if |s| <= n then s else s[..n]
  }

  /** `s.filter(f)`: the elements satisfying `f`, in their original order. */
  function Filter<T(!new)>(f: T -> bool, s: seq<T>): (r: seq<T>)
    ensures |r| <= |s|
    ensures forall x :: x in r <==> x in s && f(x)
    ensures multiset(r) <= multiset(s)
  {
    if |s| == 0 then []
    else
      assert s == [s[0]] + s[1..];
      if f(s[0]) then [s[0]] + Filter(f, s[1..]) else Filter(f, s[1..])
  }

  /** Filtering keeps every passing element exactly as often as it occurs, and
      no failing one. */
  lemma {:induction false} FilterCount<T(!new)>(f: T -> bool, s: seq<T>)
    ensures forall x :: multiset(Filter(f, s))[x] == if f(x) then multiset(s)[x] else 0
  {
    if |s| > 0 {
      var tail := s[1..];
      FilterCount(f, tail);
      FilterStep(f, s);
      var head := if f(s[0]) then [s[0]] else [];
      assert multiset(Filter(f, s)) == multiset(head) + multiset(Filter(f, tail));
      assert s == [s[0]] + tail;
      assert multiset(s) == multiset{s[0]} + multiset(tail);
    }
  }

  lemma {:induction false} FilterConcat<T(!new)>(f: T -> bool, a: seq<T>, b: seq<T>)
    ensures Filter(f, a + b) == Filter(f, a) + Filter(f, b)
  {
    if |a| > 0 {
      assert (a + b)[1..] == a[1..] + b;
      FilterConcat(f, a[1..], b);
    } else {
      assert a + b == b;
    }
  }

  /** Filtering keeps a sequence whole exactly when every element passes. */
  lemma FilterKeepsAll<T(!new)>(f: T -> bool, s: seq<T>)
    ensures Filter(f, s) == s <==> forall i :: 0 <= i < |s| ==> f(s[i])
  {
    if forall i :: 0 <= i < |s| ==> f(s[i]) {
      FilterAllPass(f, s);
    }
    if Filter(f, s) == s {
      forall i | 0 <= i < |s| ensures f(s[i]) {
        assert s[i] in Filter(f, s);
      }
    }
  }

  lemma {:induction false} FilterAllPass<T(!new)>(f: T -> bool, s: seq<T>)
    requires forall i :: 0 <= i < |s| ==> f(s[i])
    ensures Filter(f, s) == s
  {
    if |s| > 0 {
      var tail := s[1..];
      assert forall i :: 0 <= i < |tail| ==> f(tail[i]) by {
        forall i | 0 <= i < |tail| ensures f(tail[i]) {
          assert tail[i] == s[i + 1];
        }
      }
      FilterAllPass(f, tail);
      assert f(s[0]);
      FilterStep(f, s);
      calc {
        Filter(f, s);
        [s[0]] + Filter(f, tail);
        [s[0]] + tail;
        { assert s == [s[0]] + tail; }
        s;
      }
    }
  }

  /** One step of the filter: the head, if it passes, in front of the filtered rest. */
  lemma FilterStep<T(!new)>(f: T -> bool, s: seq<T>)
    requires |s| > 0
    ensures Filter(f, s) == (if f(s[0]) then [s[0]] else []) + Filter(f, s[1..])
  {
  }

  /** The sum of `f` over the elements, over integers. */
  function SumInt<T>(f: T -> int, s: seq<T>): int
  {
    if |s| == 0 then 0 else f(s[0]) + SumInt(f, s[1..])
  }

  /** The sum of `f` over the elements, over exact reals. */
  function SumReal<T>(f: T -> real, s: seq<T>): real
  {
    if |s| == 0 then 0.0 else f(s[0]) + SumReal(f, s[1..])
  }

  /** An integer sum splits over concatenation. */
  lemma {:induction false} SumIntConcat<T>(f: T -> int, a: seq<T>, b: seq<T>)
    ensures SumInt(f, a + b) == SumInt(f, a) + SumInt(f, b)
  {
    if |a| > 0 {
      assert (a + b)[1..] == a[1..] + b;
      SumIntConcat(f, a[1..], b);
    } else {
      assert a + b == b;
    }
  }

  /** A sum of non-negative integers is non-negative. */
  lemma {:induction false} SumIntNonNegative<T>(f: T -> int, s: seq<T>)
    requires forall i :: 0 <= i < |s| ==> f(s[i]) >= 0
    ensures SumInt(f, s) >= 0
  {
    if |s| > 0 {
      assert forall i :: 0 <= i < |s[1..]| ==> s[1..][i] == s[i + 1];
      SumIntNonNegative(f, s[1..]);
    }
  }

  /** A sum of non-negative reals is non-negative. */
  lemma {:induction false} SumRealNonNegative<T>(f: T -> real, s: seq<T>)
    requires forall i :: 0 <= i < |s| ==> f(s[i]) >= 0.0
    ensures SumReal(f, s) >= 0.0
  {
    if |s| > 0 {
      assert forall i :: 0 <= i < |s[1..]| ==> s[1..][i] == s[i + 1];
      SumRealNonNegative(f, s[1..]);
    }
  }

  /** Replacing one element changes an integer sum by exactly the difference. */
  lemma {:induction false} SumIntUpdate<T>(f: T -> int, s: seq<T>, k: int, x: T)
    requires 0 <= k < |s|
    ensures SumInt(f, s[k := x]) == SumInt(f, s) - f(s[k]) + f(x)
  {
    if k > 0 {
      assert s[k := x][1..] == s[1..][k - 1 := x];
      SumIntUpdate(f, s[1..], k - 1, x);
    } else {
      assert s[k := x][1..] == s[1..];
    }
  }

  /** Replacing one element changes a real sum by exactly the difference. */
  lemma {:induction false} SumRealUpdate<T>(f: T -> real, s: seq<T>, k: int, x: T)
    requires 0 <= k < |s|
    ensures SumReal(f, s[k := x]) == SumReal(f, s) - f(s[k]) + f(x)
  {
    if k > 0 {
      assert s[k := x][1..] == s[1..][k - 1 := x];
      SumRealUpdate(f, s[1..], k - 1, x);
    } else {
      assert s[k := x][1..] == s[1..];
    }
  }

  /** Replacing one element changes the number of elements passing a filter
      by whether the old one passed and whether the new one does. */
  lemma {:induction false} FilterUpdateCount<T(!new)>(f: T -> bool, s: seq<T>, k: int, x: T)
    requires 0 <= k < |s|
    ensures |Filter(f, s[k := x])| == |Filter(f, s)| - (if f(s[k]) then 1 else 0) + (if f(x) then 1 else 0)
  {
    var t := s[k := x];
    FilterStep(f, s);
    FilterStep(f, t);
    if k > 0 {
      assert t[0] == s[0];
      assert t[1..] == s[1..][k - 1 := x];
      FilterUpdateCount(f, s[1..], k - 1, x);
    } else {
      assert t[1..] == s[1..];
    }
  }


  /** Every element's key is at least the key of every later element. */
  ghost predicate SortedDesc<T>(key: T -> int, s: seq<T>)
  {
    forall i, j :: 0 <= i < j < |s| ==> key(s[i]) >= key(s[j])
  }

  /** The elements whose key is `d`, in their order in `s`: the sub-sequence a
      stable sort must not reorder. */
  function WithKey<T>(key: T -> int, d: int, s: seq<T>): seq<T>
  {
    if |s| == 0 then []
    else (if key(s[0]) == d then [s[0]] else []) + WithKey(key, d, s[1..])
  }

  /** Inserts `x` in front of the first element whose key is not larger, so
      that `x` precedes the elements of equal key that came after it. */
  function Insert<T>(key: T -> int, x: T, s: seq<T>): (r: seq<T>)
    requires SortedDesc(key, s)
    ensures |r| == |s| + 1
    ensures multiset(r) == multiset(s) + multiset{x}
    ensures SortedDesc(key, r)
  {
    if |s| == 0 || key(s[0]) <= key(x) then
      [x] + s
    else
      assert s == [s[0]] + s[1..];
      var rest := Insert(key, x, s[1..]);
      assert forall j :: 0 <= j < |rest| ==> key(rest[j]) <= key(s[0]) by {
        forall j | 0 <= j < |rest|
          ensures key(rest[j]) <= key(s[0])
        {
          assert rest[j] in multiset(rest);
          if rest[j] != x {
            assert rest[j] in multiset(s[1..]);
            var k :| 0 <= k < |s[1..]| && s[1..][k] == rest[j];
            assert s[k + 1] == rest[j];
          }
        }
      }
      [s[0]] + rest
  }

  /** Insertion adds `x` to the run of its own key in front, and leaves the
      run of every other key as it was. */
  lemma {:induction false} InsertKeepsRuns<T>(key: T -> int, x: T, s: seq<T>, d: int)
    requires SortedDesc(key, s)
    ensures WithKey(key, d, Insert(key, x, s)) == (if key(x) == d then [x] else []) + WithKey(key, d, s)
  {
    if |s| == 0 || key(s[0]) <= key(x) {
      assert Insert(key, x, s) == [x] + s;
      WithKeyCons(key, d, x, s);
    } else {
      var rest := Insert(key, x, s[1..]);
      assert Insert(key, x, s) == [s[0]] + rest;
      assert SortedDesc(key, s[1..]);
      InsertKeepsRuns(key, x, s[1..], d);
      WithKeyCons(key, d, s[0], rest);
      WithKeyCons(key, d, s[0], s[1..]);
      assert s == [s[0]] + s[1..];
      var own := if key(x) == d then [x] else [];
      var head := if key(s[0]) == d then [s[0]] else [];
      assert own == [] || head == [];
      assert head + (own + WithKey(key, d, s[1..])) == own + (head + WithKey(key, d, s[1..]));
    }
  }

  lemma WithKeyCons<T>(key: T -> int, d: int, a: T, t: seq<T>)
    ensures WithKey(key, d, [a] + t) == (if key(a) == d then [a] else []) + WithKey(key, d, t)
  {
    assert ([a] + t)[1..] == t;
  }

  /** Sorts by `key`, largest first, as a numeric comparator passed to
      `Array.prototype.sort` does (the language guarantees that sort is
      stable; see SortDescIsStable). */
  function SortDesc<T>(key: T -> int, s: seq<T>): (r: seq<T>)
    ensures |r| == |s|
    ensures multiset(r) == multiset(s)
    ensures SortedDesc(key, r)
  {
    if |s| == 0 then []
    else
      assert s == [s[0]] + s[1..];
      Insert(key, s[0], SortDesc(key, s[1..]))
  }

  /** The sort is stable: for every key, the elements carrying that key keep
      their relative order. */
  lemma {:induction false} SortDescIsStable<T>(key: T -> int, s: seq<T>, d: int)
    ensures WithKey(key, d, SortDesc(key, s)) == WithKey(key, d, s)
  {
    if |s| > 0 {
      SortDescIsStable(key, s[1..], d);
      InsertKeepsRuns(key, s[0], SortDesc(key, s[1..]), d);
    }
  }

  /** Every element of a sort result comes from the input, and back. */
  lemma SortDescMembers<T>(key: T -> int, s: seq<T>, x: T)
    ensures x in SortDesc(key, s) <==> x in s
  {
    assert x in SortDesc(key, s) <==> x in multiset(SortDesc(key, s));
  }

  /** Sorting an already descending sequence leaves it as it is. */
  lemma {:induction false} SortDescOfSorted<T>(key: T -> int, s: seq<T>)
    requires SortedDesc(key, s)
    ensures SortDesc(key, s) == s
  {
    if |s| > 0 {
      assert SortedDesc(key, s[1..]);
      SortDescOfSorted(key, s[1..]);
      assert s == [s[0]] + s[1..];
    }
  }
}
