/** The handful of DataFrame operations the SDS pipeline is built from, on
    tables modelled as sequences of rows:

    - `Collect`: a row filter (`dropna`, a boolean mask) possibly deriving
      new columns on the rows it keeps;
    - `Dedup`: `drop_duplicates(subset=...)`, the first row of each key wins;
    - `Merge`: `pd.merge`, an inner join, rows in left-then-right order;
    - `Mode`: `Series.mode()[0]`, a most frequent non-missing value.

    Each is a specification function with its properties; the `...Rows`
    methods compute the same tables with loops. */
module Tables {
  import opened Common

  // ---------------------------------------------------------------------
  // Filtering
  // ---------------------------------------------------------------------

  /** The rows `f` keeps, each replaced by what `f` makes of it. */
  function Collect<T, U(==,!new)>(s: seq<T>, f: T -> Option<U>): (r: seq<U>)
    ensures |r| <= |s|
    ensures forall u :: u in r <==> exists i :: 0 <= i < |s| && f(s[i]) == Some(u)
    decreases |s|
  {
    if s == [] then []
    else
      var n := |s| - 1;
      var prefix := Collect(s[..n], f);
      assert forall i :: 0 <= i < n ==> s[..n][i] == s[i];
      match f(s[n])
      case Some(u) => prefix + [u]
      case None => prefix
  }

  /** The filter that keeps the rows satisfying `p`, unchanged. */
  function Only<T>(p: T -> bool): T -> Option<T> {
    x => if p(x) then Some(x) else None
  }

  /** A boolean-mask selection. */
  function Where<T(==,!new)>(s: seq<T>, p: T -> bool): (r: seq<T>)
    ensures forall x :: x in r <==> x in s && p(x)
  {
    var r := Collect(s, Only(p));
    assert forall x :: x in r ==> x in s && p(x);
    assert forall i :: 0 <= i < |s| && p(s[i]) ==> Only(p)(s[i]) == Some(s[i]);
    r
  }

  /** A column computed from every row. */
  function Project<T, U>(s: seq<T>, f: T -> U): (r: seq<U>)
    ensures |r| == |s| && forall i :: 0 <= i < |s| ==> r[i] == f(s[i])
  {
    seq(|s|, i requires 0 <= i < |s| => f(s[i]))
  }

  /** A kept row yields its value, and every value comes from a kept row. */
  lemma CollectIn<T, U(!new)>(s: seq<T>, f: T -> Option<U>, x: T)
    requires x in s && f(x).Some?
    ensures f(x).value in Collect(s, f)
  {
    var i :| 0 <= i < |s| && s[i] == x;
  }

  lemma CollectFrom<T(!new), U(!new)>(s: seq<T>, f: T -> Option<U>, u: U)
    requires u in Collect(s, f)
    ensures exists x :: x in s && f(x) == Some(u)
  {
    var i :| 0 <= i < |s| && f(s[i]) == Some(u);
    assert s[i] in s;
  }

  lemma ProjectIn<T, U>(s: seq<T>, f: T -> U, x: T)
    requires x in s
    ensures f(x) in Project(s, f)
  {
    var i :| 0 <= i < |s| && s[i] == x;
    assert Project(s, f)[i] == f(x);
  }

  lemma ProjectFrom<T(!new), U>(s: seq<T>, f: T -> U, y: U)
    requires y in Project(s, f)
    ensures exists x :: x in s && f(x) == y
  {
    var i :| 0 <= i < |s| && Project(s, f)[i] == y;
    assert s[i] in s;
  }

  method CollectRows<T, U(==,!new)>(s: seq<T>, f: T -> Option<U>) returns (r: seq<U>)
    ensures r == Collect(s, f)
  {
    r := [];
    for i := 0 to |s|
      invariant r == Collect(s[..i], f)
    {
      assert s[..i + 1][..i] == s[..i];
      match f(s[i]) {
        case Some(u) => r := r + [u];
        case None =>
      }
    }
    assert s[..|s|] == s;
  }

  // ---------------------------------------------------------------------
  // drop_duplicates
  // ---------------------------------------------------------------------

  /** The keys of the rows of `s`. */
  function KeySet<T, K>(s: seq<T>, key: T -> K): set<K> {
    set i | 0 <= i < |s| :: key(s[i])
  }

  /** No two rows of `s` share a key. */
  ghost predicate UniqueKeys<T, K>(s: seq<T>, key: T -> K) {
    forall i, j :: 0 <= i < j < |s| ==> key(s[i]) != key(s[j])
  }

  /** Row `i` of `s` is the first one with its key. */
  ghost predicate FirstOfKey<T, K>(s: seq<T>, key: T -> K, i: nat)
    requires i < |s|
  {
    forall j :: 0 <= j < i ==> key(s[j]) != key(s[i])
  }

  lemma KeySetAppend<T, K>(r: seq<T>, x: T, key: T -> K)
    ensures KeySet(r + [x], key) == KeySet(r, key) + {key(x)}
  {
    var rx := r + [x];
    forall k | k in KeySet(rx, key) ensures k in KeySet(r, key) + {key(x)} {
      var i :| 0 <= i < |rx| && key(rx[i]) == k;
      if i < |r| {
        assert rx[i] == r[i];
      }
    }
    forall k | k in KeySet(r, key) + {key(x)} ensures k in KeySet(rx, key) {
      if k == key(x) {
        assert rx[|r|] == x;
      } else {
        var i :| 0 <= i < |r| && key(r[i]) == k;
        assert rx[i] == r[i];
      }
    }
  }

  /** `drop_duplicates(subset=key)`: each row whose key was not seen before. */
  function Dedup<T, K(==)>(s: seq<T>, key: T -> K): seq<T>
    decreases |s|
  {
    if s == [] then []
    else
      var n := |s| - 1;
      var prefix := Dedup(s[..n], key);
      if key(s[n]) in KeySet(prefix, key) then prefix else prefix + [s[n]]
  }

  /** What `drop_duplicates` keeps: one row per key (the same keys as the
      input), and a row is kept exactly when it is the first occurrence of
      its key. */
  lemma {:induction false} DedupSpec<T, K>(s: seq<T>, key: T -> K)
    ensures UniqueKeys(Dedup(s, key), key)
    ensures KeySet(Dedup(s, key), key) == KeySet(s, key)
    ensures forall x :: x in Dedup(s, key) <==>
      exists i :: 0 <= i < |s| && s[i] == x && FirstOfKey(s, key, i)
    decreases |s|
  {
    if s != [] {
      var n := |s| - 1;
      var p := s[..n];
      var x := s[n];
      var prefix := Dedup(p, key);
      DedupSpec(p, key);
      assert forall i :: 0 <= i < n ==> p[i] == s[i];
      assert forall i :: 0 <= i < n ==> (FirstOfKey(p, key, i) <==> FirstOfKey(s, key, i));
      assert s == p + [x];
      KeySetAppend(p, x, key);
      if key(x) in KeySet(prefix, key) {
        assert !FirstOfKey(s, key, n) by {
          var j :| 0 <= j < n && key(p[j]) == key(x);
        }
      } else {
        var r := prefix + [x];
        KeySetAppend(prefix, x, key);
        assert forall i :: 0 <= i < |prefix| ==> key(prefix[i]) in KeySet(prefix, key);
        assert FirstOfKey(s, key, n);
        forall y | y in r
          ensures exists i :: 0 <= i < |s| && s[i] == y && FirstOfKey(s, key, i)
        {
          if y != x {
            assert y in prefix;
          }
        }
      }
    }
  }

  /** `drop_duplicates` keeps only input rows, and keeps a row for every key. */
  lemma DedupFrom<T, K>(s: seq<T>, key: T -> K, x: T)
    requires x in Dedup(s, key)
    ensures x in s
  {
    DedupSpec(s, key);
  }

  lemma DedupCovers<T(!new), K>(s: seq<T>, key: T -> K, x: T)
    requires x in s
    ensures exists y :: y in Dedup(s, key) && key(y) == key(x)
  {
    DedupSpec(s, key);
    var i :| 0 <= i < |s| && s[i] == x;
    assert key(x) in KeySet(Dedup(s, key), key);
    var j :| 0 <= j < |Dedup(s, key)| && key(Dedup(s, key)[j]) == key(x);
    assert Dedup(s, key)[j] in Dedup(s, key);
  }

  method DropDuplicates<T, K(==)>(s: seq<T>, key: T -> K) returns (r: seq<T>)
    ensures r == Dedup(s, key)
  {
    r := [];
    var seen: set<K> := {};
    for i := 0 to |s|
      invariant r == Dedup(s[..i], key)
      invariant seen == KeySet(r, key)
    {
      assert s[..i + 1][..i] == s[..i];
      if key(s[i]) !in seen {
        KeySetAppend(r, s[i], key);
        r := r + [s[i]];
        seen := seen + {key(s[i])};
      }
    }
    assert s[..|s|] == s;
  }

  // ---------------------------------------------------------------------
  // merge (inner join)
  // ---------------------------------------------------------------------

  /** The rows of `rs` whose key matches the left row `l`, each paired with it. */
  function Matches<L(!new), R(!new), K(==)>(l: L, rs: seq<R>, lk: L -> K, rk: R -> K): (r: seq<(L, R)>)
    ensures forall p :: p in r <==> p.0 == l && p.1 in rs && rk(p.1) == lk(l)
    decreases |rs|
  {
    if rs == [] then []
    else
      var n := |rs| - 1;
      var prefix := Matches(l, rs[..n], lk, rk);
      assert forall y :: y in rs <==> y in rs[..n] || y == rs[n];
      if rk(rs[n]) == lk(l) then prefix + [(l, rs[n])] else prefix
  }

  /** `pd.merge(ls, rs, left_on=lk, right_on=rk)`: every pair of a left row
      and a right row with equal keys, left rows first. */
  function Merge<L(!new), R(!new), K(==)>(ls: seq<L>, rs: seq<R>, lk: L -> K, rk: R -> K): (r: seq<(L, R)>)
    ensures forall p :: p in r <==> p.0 in ls && p.1 in rs && lk(p.0) == rk(p.1)
    decreases |ls|
  {
    if ls == [] then []
    else
      var n := |ls| - 1;
      assert forall x :: x in ls <==> x in ls[..n] || x == ls[n];
      Merge(ls[..n], rs, lk, rk) + Matches(ls[n], rs, lk, rk)
  }

  method MergeRows<L(!new), R(!new), K(==)>(ls: seq<L>, rs: seq<R>, lk: L -> K, rk: R -> K)
    returns (r: seq<(L, R)>)
    ensures r == Merge(ls, rs, lk, rk)
  {
    r := [];
    for i := 0 to |ls|
      invariant r == Merge(ls[..i], rs, lk, rk)
    {
      var m := [];
      for j := 0 to |rs|
        invariant m == Matches(ls[i], rs[..j], lk, rk)
      {
        assert rs[..j + 1][..j] == rs[..j];
        if rk(rs[j]) == lk(ls[i]) {
          m := m + [(ls[i], rs[j])];
        }
      }
      assert rs[..|rs|] == rs;
      assert ls[..i + 1][..i] == ls[..i];
      r := r + m;
    }
    assert ls[..|ls|] == ls;
  }

  // ---------------------------------------------------------------------
  // mode
  // ---------------------------------------------------------------------

  /** How many rows of `s` hold `x`. */
  function Count<T(==,!new)>(s: seq<T>, x: T): (c: nat)
    ensures c <= |s|
    ensures c == 0 <==> x !in s
    decreases |s|
  {
    if s == [] then 0
    else
      var n := |s| - 1;
      assert forall y :: y in s <==> y in s[..n] || y == s[n];
      Count(s[..n], x) + (if s[n] == x then 1 else 0)
  }

  method CountRows<T(==,!new)>(s: seq<T>, x: T) returns (c: nat)
    ensures c == Count(s, x)
  {
    c := 0;
    for j := 0 to |s|
      invariant c == Count(s[..j], x)
    {
      assert s[..j + 1][..j] == s[..j];
      if s[j] == x {
        c := c + 1;
      }
    }
    assert s[..|s|] == s;
  }

  /** `s.mode()[0]` for a column with missing cells: a most frequent present
      value, and none when every cell is missing (where pandas' `[0]`
      fails). */
  method Mode<T(==,!new)>(s: seq<Option<T>>) returns (m: Option<T>)
    ensures m.None? <==> forall x :: x in s ==> x.None?
    ensures m.Some? ==> m in s && forall x :: x in s && x.Some? ==> Count(s, x) <= Count(s, m)
  {
    m := None;
    var best := 0;
    for i := 0 to |s|
      invariant m.None? ==> forall k :: 0 <= k < i ==> s[k].None?
      invariant m.Some? ==> m in s && best == Count(s, m)
      invariant forall k :: 0 <= k < i && s[k].Some? ==> m.Some? && Count(s, s[k]) <= best
    {
      if s[i].Some? {
        var c := CountRows(s, s[i]);
        if m.None? || c > best {
          m, best := s[i], c;
        }
      }
    }
  }
}
