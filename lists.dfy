/**
 * Python's `list.sort(key=..., reverse=True)` and `s[:n]`.
 *
 * Sort keys are tuples of numbers, compared lexicographically as Python
 * compares tuples. Python's sort is stable also when reversed: items with
 * equal keys keep their input order. An ascending sort by `k` is the
 * descending sort by `-k` with the same tie order.
 */
module Lists {
  /** `a > b` on Python tuples of numbers. */
  predicate LexGt(a: seq<real>, b: seq<real>)
    decreases |a|
  {
    |a| > 0 && (|b| == 0 || a[0] > b[0] || (a[0] == b[0] && LexGt(a[1..], b[1..])))
  }

  lemma {:induction false} LexGtIrreflexive(a: seq<real>)
    ensures !LexGt(a, a)
    decreases |a|
  {
    if |a| > 0 { LexGtIrreflexive(a[1..]); }
  }

  lemma {:induction false} LexGtTransitive(a: seq<real>, b: seq<real>, c: seq<real>)
    requires LexGt(a, b) && LexGt(b, c)
    ensures LexGt(a, c)
    decreases |a|
  {
    if |c| > 0 && a[0] == b[0] && b[0] == c[0] {
      LexGtTransitive(a[1..], b[1..], c[1..]);
    }
  }

  lemma {:induction false} LexGtTotal(a: seq<real>, b: seq<real>)
    ensures a == b || LexGt(a, b) || LexGt(b, a)
    decreases |a|
  {
    if |a| > 0 && |b| > 0 && a[0] == b[0] {
      LexGtTotal(a[1..], b[1..]);
      if a[1..] == b[1..] {
        assert a == [a[0]] + a[1..] && b == [b[0]] + b[1..];
      }
    }
  }

  /** No later item has a strictly greater key than an earlier one. */
  ghost predicate SortedDesc<T>(s: seq<T>, key: T -> seq<real>) {
    forall i, j :: 0 <= i < j < |s| ==> !LexGt(key(s[j]), key(s[i]))
  }

  /** Place `x` after every item whose key is not smaller than its own. */
  function Insert<T>(x: T, s: seq<T>, key: T -> seq<real>): (r: seq<T>)
    ensures |r| == |s| + 1
  {
    if s == [] then [x]
    else if LexGt(key(x), key(s[0])) then [x] + s
    else [s[0]] + Insert(x, s[1..], key)
  }

  /** Stable insertion sort, descending by `key`. */
  function SortDesc<T>(s: seq<T>, key: T -> seq<real>): (r: seq<T>)
    ensures |r| == |s|
  {
    if s == [] then [] else Insert(s[|s| - 1], SortDesc(s[..|s| - 1], key), key)
  }

  /** The items of `s` whose key is `k`, in order. */
  function KeyClass<T>(s: seq<T>, key: T -> seq<real>, k: seq<real>): seq<T> {
    if s == [] then [] else (if key(s[0]) == k then [s[0]] else []) + KeyClass(s[1..], key, k)
  }

  lemma {:induction false} KeyClassAppend<T>(a: seq<T>, b: seq<T>, key: T -> seq<real>, k: seq<real>)
    ensures KeyClass(a + b, key, k) == KeyClass(a, key, k) + KeyClass(b, key, k)
  {
    if a == [] {
      assert a + b == b;
    } else {
      var h := if key(a[0]) == k then [a[0]] else [];
      var ka, kb := KeyClass(a[1..], key, k), KeyClass(b, key, k);
      assert (a + b)[0] == a[0];
      assert (a + b)[1..] == a[1..] + b;
      KeyClassAppend(a[1..], b, key, k);
      assert KeyClass(a + b, key, k) == h + (ka + kb);
      assert KeyClass(a, key, k) == h + ka;
      assert h + (ka + kb) == (h + ka) + kb;
    }
  }

  lemma {:induction false} InsertSorted<T>(x: T, s: seq<T>, key: T -> seq<real>)
    requires SortedDesc(s, key)
    ensures SortedDesc(Insert(x, s, key), key)
    ensures multiset(Insert(x, s, key)) == multiset(s) + multiset{x}
  {
    InsertPermutes(x, s, key);
    if s == [] {
    } else if LexGt(key(x), key(s[0])) {
      InsertFrontSorted(x, s, key);
    } else {
      InsertSorted(x, s[1..], key);
      InsertBehindSorted(x, s, key);
    }
  }

  lemma {:induction false} InsertPermutes<T>(x: T, s: seq<T>, key: T -> seq<real>)
    ensures multiset(Insert(x, s, key)) == multiset(s) + multiset{x}
  {
    if s != [] && !LexGt(key(x), key(s[0])) {
      InsertPermutes(x, s[1..], key);
      assert s == [s[0]] + s[1..];
    }
  }

  lemma InsertFrontSorted<T>(x: T, s: seq<T>, key: T -> seq<real>)
    requires SortedDesc(s, key) && s != [] && LexGt(key(x), key(s[0]))
    ensures SortedDesc([x] + s, key)
  {
    var r := [x] + s;
    forall i, j | 0 <= i < j < |r| ensures !LexGt(key(r[j]), key(r[i])) {
      if i == 0 {
        if LexGt(key(r[j]), key(x)) {
          LexGtTransitive(key(r[j]), key(x), key(s[0]));
          if j - 1 == 0 { LexGtIrreflexive(key(s[0])); }
        }
      }
    }
  }

  lemma InsertBehindSorted<T>(x: T, s: seq<T>, key: T -> seq<real>)
    requires SortedDesc(s, key) && s != [] && !LexGt(key(x), key(s[0]))
    requires SortedDesc(Insert(x, s[1..], key), key)
    requires multiset(Insert(x, s[1..], key)) == multiset(s[1..]) + multiset{x}
    ensures SortedDesc([s[0]] + Insert(x, s[1..], key), key)
  {
    var t := Insert(x, s[1..], key);
    var r := [s[0]] + t;
    forall i, j | 0 <= i < j < |r| ensures !LexGt(key(r[j]), key(r[i])) {
      if i == 0 {
        assert r[j] in multiset(t);
        assert r[j] == x || r[j] in multiset(s[1..]);
      }
    }
  }

  lemma {:induction false} SortDescSorted<T>(s: seq<T>, key: T -> seq<real>)
    ensures SortedDesc(SortDesc(s, key), key)
    ensures multiset(SortDesc(s, key)) == multiset(s)
  {
    if s != [] {
      SortDescSorted(s[..|s| - 1], key);
      InsertSorted(s[|s| - 1], SortDesc(s[..|s| - 1], key), key);
      assert s == s[..|s| - 1] + [s[|s| - 1]];
    }
  }

  lemma {:induction false} InsertStable<T>(x: T, s: seq<T>, key: T -> seq<real>, k: seq<real>)
    requires SortedDesc(s, key)
    ensures KeyClass(Insert(x, s, key), key, k)
         == KeyClass(s, key, k) + (if key(x) == k then [x] else [])
  {
    if s == [] {
    } else if LexGt(key(x), key(s[0])) {
      InsertFrontClass(x, s, key, k);
    } else {
      SortedTail(s, key);
      InsertStable(x, s[1..], key, k);
      InsertBehindClass(x, s, key, k);
    }
  }

  /** Inserting in front: an item with key `k` can only join an empty class. */
  lemma InsertFrontClass<T>(x: T, s: seq<T>, key: T -> seq<real>, k: seq<real>)
    requires SortedDesc(s, key) && s != [] && LexGt(key(x), key(s[0]))
    ensures KeyClass(Insert(x, s, key), key, k)
         == KeyClass(s, key, k) + (if key(x) == k then [x] else [])
  {
    assert Insert(x, s, key) == [x] + s;
    KeyClassAppend([x], s, key, k);
    if key(x) == k {
      NoneAbove(s, key, k);
    } else {
      assert KeyClass([x], key, k) == [];
    }
  }

  /** The tail of a sorted list is sorted. */
  lemma SortedTail<T>(s: seq<T>, key: T -> seq<real>)
    requires SortedDesc(s, key) && s != []
    ensures SortedDesc(s[1..], key)
  {
    forall i, j | 0 <= i < j < |s| - 1 ensures !LexGt(key(s[1..][j]), key(s[1..][i])) {
      assert s[1..][j] == s[j + 1] && s[1..][i] == s[i + 1];
    }
  }

  /** Inserting behind the head: the head's class entry stays in front. */
  lemma InsertBehindClass<T>(x: T, s: seq<T>, key: T -> seq<real>, k: seq<real>)
    requires s != [] && !LexGt(key(x), key(s[0]))
    ensures KeyClass(Insert(x, s, key), key, k)
         == KeyClass([s[0]], key, k) + KeyClass(Insert(x, s[1..], key), key, k)
    ensures KeyClass(s, key, k) == KeyClass([s[0]], key, k) + KeyClass(s[1..], key, k)
  {
    assert s == [s[0]] + s[1..];
    KeyClassAppend([s[0]], Insert(x, s[1..], key), key, k);
    KeyClassAppend([s[0]], s[1..], key, k);
  }

  /** In a sorted list headed by a key below `k`, no item has key `k`. */
  lemma {:induction false} NoneAbove<T>(s: seq<T>, key: T -> seq<real>, k: seq<real>)
    requires SortedDesc(s, key) && s != [] && LexGt(k, key(s[0]))
    ensures KeyClass(s, key, k) == []
  {
    if key(s[0]) == k { LexGtIrreflexive(k); }
    if |s| > 1 {
      assert !LexGt(key(s[1]), key(s[0]));
      LexGtTotal(key(s[1]), key(s[0]));
      if key(s[1]) != key(s[0]) {
        LexGtTransitive(k, key(s[0]), key(s[1]));
      }
      SortedTail(s, key);
      NoneAbove(s[1..], key, k);
    }
  }

  /** Stability: each class of equal keys keeps its input order. */
  lemma {:induction false} SortDescStable<T>(s: seq<T>, key: T -> seq<real>, k: seq<real>)
    ensures KeyClass(SortDesc(s, key), key, k) == KeyClass(s, key, k)
  {
    if s != [] {
      var init := s[..|s| - 1];
      SortDescStable(init, key, k);
      SortDescSorted(init, key);
      InsertStable(s[|s| - 1], SortDesc(init, key), key, k);
      assert s == init + [s[|s| - 1]];
      KeyClassAppend(init, [s[|s| - 1]], key, k);
    }
  }

  /** `s[:n]` with Python's slice rule for a negative `n`. */
  function Take<T>(s: seq<T>, n: int): (r: seq<T>)
    ensures |r| <= |s|
    ensures r == s[..|r|]
    ensures n >= 0 ==> |r| == if n < |s| then n else |s|
    ensures n < 0 ==> |r| == if |s| + n > 0 then |s| + n else 0
  {
    if n >= 0 then (if n < |s| then s[..n] else s)
    else if |s| + n > 0 then s[..|s| + n] else []
  }

  /** A prefix of a descending sequence is descending, and keeps only its elements. */
  lemma TakeSorted<T>(s: seq<T>, n: int, key: T -> seq<real>)
    requires SortedDesc(s, key)
    ensures SortedDesc(Take(s, n), key)
    ensures forall x :: x in Take(s, n) ==> x in s
  {
    var r := Take(s, n);
    forall i, j | 0 <= i < j < |r| ensures !LexGt(key(r[j]), key(r[i])) {
      assert r[i] == s[i] && r[j] == s[j];
    }
    forall x | x in r ensures x in s {
      var k :| 0 <= k < |r| && r[k] == x;
      assert s[k] == x;
    }
  }

  lemma IndexInPrefix<T>(s: seq<T>, m: int, j: int)
    ensures 0 <= j < m <= |s| ==> s[j] in s[..m]
  {
    if 0 <= j < m <= |s| {
      assert s[..m][j] == s[j];
    }
  }

  /** Cutting a descending sequence keeps its best items: nothing left out ranks above anything kept. */
  lemma TakeKeepsBest<T>(s: seq<T>, n: int, key: T -> seq<real>, x: T)
    requires SortedDesc(s, key) && x in s && x !in Take(s, n)
    ensures forall y :: y in Take(s, n) ==> !LexGt(key(x), key(y))
  {
    var r := Take(s, n);
    var j :| 0 <= j < |s| && s[j] == x;
    if j < |r| {
      IndexInPrefix(s, |r|, j);
      assert false;
    }
    forall y | y in r ensures !LexGt(key(x), key(y)) {
      var i :| 0 <= i < |r| && r[i] == y;
      assert s[i] == y;
    }
  }

  /**
   * `r` is `s` ranked descending by `key` and cut to `n`: ordered, of size
   * `min(n, |s|)` for `n >= 0`, all of `s` when it fits, drawn from `s`, and
   * nothing left out ranks above anything kept.
   */
  ghost predicate RankedCut<T>(r: seq<T>, s: seq<T>, n: int, key: T -> seq<real>) {
    && SortedDesc(r, key)
    && (n >= 0 ==> |r| == if n < |s| then n else |s|)
    && (n >= |s| ==> multiset(r) == multiset(s))
    && (forall x :: x in r ==> x in s)
    && forall x, y :: x in s && x !in r && y in r ==> !LexGt(key(x), key(y))
  }

  /** Sorting descending and taking the first `n` is a ranked cut. */
  lemma RankedCutOfSort<T>(s: seq<T>, n: int, key: T -> seq<real>)
    ensures RankedCut(Take(SortDesc(s, key), n), s, n, key)
  {
    var sorted := SortDesc(s, key);
    var r := Take(sorted, n);
    SortDescSorted(s, key);
    TakeSorted(sorted, n, key);
    forall x | x in r ensures x in s {
      assert x in multiset(sorted);
    }
    if n >= |s| {
      assert r == sorted;
    }
    forall x, y | x in s && x !in r && y in r ensures !LexGt(key(x), key(y)) {
      assert x in multiset(sorted);
      TakeKeepsBest(sorted, n, key, x);
    }
  }

  /** The elements satisfying `p`, in order (a list comprehension with a condition). */
  function Filter<T(!new)>(s: seq<T>, p: T -> bool): (r: seq<T>)
    ensures |r| <= |s|
    ensures forall x :: x in r <==> x in s && p(x)
  {
    if |s| == 0 then []
    else
      var last := s[|s| - 1];
      assert s == s[..|s| - 1] + [last];
      Filter(s[..|s| - 1], p) + (if p(last) then [last] else [])
  }

  /** No element passes the filter: nothing is kept. */
  lemma {:induction false} FilterNone<T(!new)>(s: seq<T>, p: T -> bool)
    requires forall i :: 0 <= i < |s| ==> !p(s[i])
    ensures Filter(s, p) == []
  {
    if |s| > 0 {
      FilterNone(s[..|s| - 1], p);
    }
  }

  /** Exactly the element at `k` passes the filter: it alone is kept. */
  lemma {:induction false} FilterOne<T(!new)>(s: seq<T>, p: T -> bool, k: nat)
    requires k < |s| && p(s[k])
    requires forall i :: 0 <= i < |s| && i != k ==> !p(s[i])
    ensures Filter(s, p) == [s[k]]
  {
    var init := s[..|s| - 1];
    if k == |s| - 1 {
      FilterNone(init, p);
    } else {
      FilterOne(init, p, k);
    }
  }

  /** Sum of the counts of a tally. */
  function SumCounts<K>(t: seq<(K, nat)>): nat {
    if |t| == 0 then 0 else t[0].1 + SumCounts(t[1..])
  }

  /** The count recorded for `k`, 0 when absent (`dict.get(k, 0)`). */
  function Lookup<K(==)>(t: seq<(K, nat)>, k: K): nat {
    if |t| == 0 then 0 else if t[0].0 == k then t[0].1 else Lookup(t[1..], k)
  }

  function Keys<K>(t: seq<(K, nat)>): (ks: seq<K>)
    ensures |ks| == |t| && forall i :: 0 <= i < |t| ==> ks[i] == t[i].0
  {
    seq(|t|, i requires 0 <= i < |t| => t[i].0)
  }

  predicate UniqueKeys<K(==)>(t: seq<(K, nat)>) {
    forall i, j :: 0 <= i < j < |t| ==> t[i].0 != t[j].0
  }

  /** `d[k] = d.get(k, 0) + 1` on a dictionary kept as its items in insertion order. */
  function Bump<K(==)>(t: seq<(K, nat)>, k: K): seq<(K, nat)> {
    if |t| == 0 then [(k, 1)]
    else if t[0].0 == k then [(k, t[0].1 + 1)] + t[1..]
    else [t[0]] + Bump(t[1..], k)
  }

  /** Bumping one key adds one to its count and to the total, and leaves the other counts alone. */
  lemma BumpFacts<K>(t: seq<(K, nat)>, k: K)
    requires UniqueKeys(t)
    ensures UniqueKeys(Bump(t, k))
    ensures SumCounts(Bump(t, k)) == SumCounts(t) + 1
    ensures Lookup(Bump(t, k), k) == Lookup(t, k) + 1
    ensures forall k' :: k' != k ==> Lookup(Bump(t, k), k') == Lookup(t, k')
    ensures forall k' :: k' in Keys(Bump(t, k)) <==> k' in Keys(t) || k' == k
  {
    BumpKeys(t, k);
    BumpUnique(t, k);
    BumpSum(t, k);
    forall k' ensures Lookup(Bump(t, k), k') == Lookup(t, k') + (if k' == k then 1 else 0) {
      BumpLookup(t, k, k');
    }
  }

  lemma BumpKeys<K>(t: seq<(K, nat)>, k: K)
    ensures forall k' :: k' in Keys(Bump(t, k)) <==> k' in Keys(t) || k' == k
  {
    forall k' ensures k' in Keys(Bump(t, k)) <==> k' in Keys(t) || k' == k {
      BumpKeysAt(t, k, k');
    }
  }

  /** `k` is one of the keys of `t`, counted from the front. */
  predicate HasKey<K(==)>(t: seq<(K, nat)>, k: K) {
    |t| > 0 && (t[0].0 == k || HasKey(t[1..], k))
  }

  lemma {:induction false} HasKeyInKeys<K>(t: seq<(K, nat)>, k: K)
    ensures HasKey(t, k) <==> k in Keys(t)
  {
    if |t| > 0 {
      HasKeyInKeys(t[1..], k);
      assert Keys(t) == [t[0].0] + Keys(t[1..]);
    }
  }

  lemma {:induction false} BumpHasKey<K>(t: seq<(K, nat)>, k: K, k': K)
    ensures HasKey(Bump(t, k), k') <==> HasKey(t, k') || k' == k
  {
    if |t| > 0 {
      var b := Bump(t, k);
      if t[0].0 == k {
        assert b[1..] == t[1..];
      } else {
        BumpHasKey(t[1..], k, k');
        assert b[1..] == Bump(t[1..], k);
      }
    }
  }

  lemma BumpKeysAt<K>(t: seq<(K, nat)>, k: K, k': K)
    ensures k' in Keys(Bump(t, k)) <==> k' in Keys(t) || k' == k
  {
    BumpHasKey(t, k, k');
    HasKeyInKeys(t, k');
    HasKeyInKeys(Bump(t, k), k');
  }

  lemma {:induction false} BumpUnique<K>(t: seq<(K, nat)>, k: K)
    requires UniqueKeys(t)
    ensures UniqueKeys(Bump(t, k))
  {
    if |t| > 0 && t[0].0 != k {
      var b := Bump(t, k);
      var rest := Bump(t[1..], k);
      BumpUnique(t[1..], k);
      BumpKeys(t[1..], k);
      assert b == [t[0]] + rest;
      forall j | 0 < j < |b| ensures b[0].0 != b[j].0 {
        assert b[j] == rest[j - 1];
        assert b[j].0 in Keys(rest);
        if b[j].0 in Keys(t[1..]) {
          var m :| 0 <= m < |t[1..]| && Keys(t[1..])[m] == b[j].0;
          assert t[m + 1].0 == b[j].0;
        }
      }
    }
  }

  lemma {:induction false} BumpSum<K>(t: seq<(K, nat)>, k: K)
    ensures SumCounts(Bump(t, k)) == SumCounts(t) + 1
  {
    if |t| > 0 {
      var b := Bump(t, k);
      if t[0].0 == k {
        assert b[1..] == t[1..];
      } else {
        BumpSum(t[1..], k);
        assert b[1..] == Bump(t[1..], k);
      }
    }
  }

  lemma {:induction false} BumpLookup<K>(t: seq<(K, nat)>, k: K, k': K)
    ensures Lookup(Bump(t, k), k') == Lookup(t, k') + (if k' == k then 1 else 0)
  {
    if |t| > 0 {
      var b := Bump(t, k);
      if t[0].0 == k {
        assert b[1..] == t[1..];
      } else {
        BumpLookup(t[1..], k, k');
        assert b[1..] == Bump(t[1..], k);
      }
    }
  }

  /** `for x in ks: d[x] = d.get(x, 0) + 1` from an empty dictionary. */
  function Tally<K(==)>(ks: seq<K>): seq<(K, nat)> {
    if |ks| == 0 then [] else Bump(Tally(ks[..|ks| - 1]), ks[|ks| - 1])
  }

  /**
   * The tally has one entry per distinct value, in order of first
   * occurrence; each count is the number of occurrences, and the counts
   * add up to the length of the input.
   */
  lemma {:induction false} TallyFacts<K>(ks: seq<K>)
    ensures UniqueKeys(Tally(ks))
    ensures SumCounts(Tally(ks)) == |ks|
    ensures forall k :: Lookup(Tally(ks), k) == multiset(ks)[k]
    ensures forall k :: k in Keys(Tally(ks)) <==> k in ks
  {
    if |ks| > 0 {
      var init := ks[..|ks| - 1];
      var x := ks[|ks| - 1];
      assert ks == init + [x];
      TallyFacts(init);
      BumpFacts(Tally(init), x);
    }
  }

  /** A non-empty sequence is its front followed by its last element. */
  lemma SplitLast<T>(s: seq<T>)
    requires |s| > 0
    ensures s[..|s| - 1] + [s[|s| - 1]] == s
  {
  }

  /** Extending a prefix by one element. */
  lemma PrefixSnoc<T>(s: seq<T>, i: nat)
    requires i < |s|
    ensures s[..i + 1] == s[..i] + [s[i]]
  {
  }

  /** A sequence is its prefix up to `i` followed by the rest. */
  lemma SplitAt<T>(s: seq<T>, i: nat)
    requires i <= |s|
    ensures s[..i] + s[i..] == s
  {
  }

  /** No element occurs twice. */
  predicate Distinct<T(==)>(s: seq<T>) {
    forall i, j :: 0 <= i < j < |s| ==> s[i] != s[j]
  }

  /** Filtering keeps distinct elements distinct. */
  lemma {:induction false} FilterDistinct<T(!new)>(s: seq<T>, p: T -> bool)
    requires Distinct(s)
    ensures Distinct(Filter(s, p))
  {
    if |s| > 0 {
      var init := s[..|s| - 1];
      var last := s[|s| - 1];
      assert Distinct(init);
      FilterDistinct(init, p);
      assert last !in init;
      assert last !in Filter(init, p);
    }
  }
}
