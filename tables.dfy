/** The relational store's read operations over a table held as a sequence
    of rows in storage order: `find` with a where clause, `count` and
    `findOne`, plus key integrity of a table. */
module Tables {
  import opened Entities

  /** The rows of `s` satisfying `p`, in storage order. */
  function Where<T(!new)>(s: seq<T>, p: T -> bool): (r: seq<T>)
    ensures |r| <= |s|
    ensures forall x :: x in r <==> x in s && p(x)
    decreases |s|
  {
    if s == [] then []
    else Where(s[..|s| - 1], p) + (if p(s[|s| - 1]) then [s[|s| - 1]] else [])
  }

  /** `count` with a where clause. */
  function Count<T(!new)>(s: seq<T>, p: T -> bool): nat {
    |Where(s, p)|
  }

  /** `findOne` with a where clause: the first matching row, if any. */
  function FindFirst<T(!new)>(s: seq<T>, p: T -> bool): (r: Option<T>)
    ensures r.Some? ==> r.value in s && p(r.value)
    ensures r.None? <==> forall x :: x in s ==> !p(x)
  {
    var w := Where(s, p);
    if w == [] then None
    else
      assert w[0] in w;
      Some(w[0])
  }

  /** Inserting a row extends the result of every query by that row exactly when it matches. */
  lemma WhereAppend<T(!new)>(s: seq<T>, x: T, p: T -> bool)
    ensures Where(s + [x], p) == Where(s, p) + (if p(x) then [x] else [])
  {
    assert (s + [x])[..|s|] == s;
  }

  lemma CountAppend<T(!new)>(s: seq<T>, x: T, p: T -> bool)
    ensures Count(s + [x], p) == Count(s, p) + (if p(x) then 1 else 0)
  {
    WhereAppend(s, x, p);
  }

  /** A one-row table yields its row exactly when the row matches. */
  lemma WhereSingleton<T(!new)>(x: T, p: T -> bool)
    ensures Where([x], p) == if p(x) then [x] else []
  {
    WhereAppend([], x, p);
    assert [] + [x] == [x];
  }

  /** Inserting a row does not change which row `findOne` returns when it
      already found one; otherwise `findOne` returns the new row exactly when
      it matches. */
  lemma FindFirstAppend<T(!new)>(s: seq<T>, x: T, p: T -> bool)
    ensures FindFirst(s + [x], p) ==
      if FindFirst(s, p).Some? then FindFirst(s, p) else if p(x) then Some(x) else None
  {
    WhereAppend(s, x, p);
  }

  /** Every key is non-empty and no two rows share a key: a primary-key column. */
  predicate WellKeyed<T>(s: seq<T>, key: T -> Id) {
    && (forall i :: 0 <= i < |s| ==> key(s[i]) != "")
    && (forall i, j :: 0 <= i < j < |s| ==> key(s[i]) != key(s[j]))
  }

  /** `k` is a key the database may generate for a new row of `s`. */
  predicate KeyFree<T>(s: seq<T>, key: T -> Id, k: Id) {
    k != "" && forall i :: 0 <= i < |s| ==> key(s[i]) != k
  }

  lemma AppendKeepsWellKeyed<T>(s: seq<T>, x: T, key: T -> Id)
    requires WellKeyed(s, key) && KeyFree(s, key, key(x))
    ensures WellKeyed(s + [x], key)
  {
  }

  /** Two rows of a well-keyed table with the same key are the same row. */
  lemma KeyedUnique<T>(s: seq<T>, key: T -> Id, x: T, y: T)
    requires WellKeyed(s, key) && x in s && y in s && key(x) == key(y)
    ensures x == y
  {
    var i :| 0 <= i < |s| && s[i] == x;
    var j :| 0 <= j < |s| && s[j] == y;
    assert !(i < j) && !(j < i);
  }

  /** A filtered table keeps its primary key. */
  lemma {:induction false} WhereKeepsWellKeyed<T(!new)>(s: seq<T>, p: T -> bool, key: T -> Id)
    requires WellKeyed(s, key)
    ensures WellKeyed(Where(s, p), key)
    decreases |s|
  {
    if s != [] {
      var init, last := s[..|s| - 1], s[|s| - 1];
      assert s == init + [last];
      WhereKeepsWellKeyed(init, p, key);
      if p(last) {
        forall i | 0 <= i < |Where(init, p)|
          ensures key(Where(init, p)[i]) != key(last)
        {
          var y := Where(init, p)[i];
          assert y in Where(init, p);
          assert y in init;
          var k :| 0 <= k < |init| && init[k] == y;
          assert s[k] == y && s[|s| - 1] == last;
        }
      }
    }
  }

  /** The keys of a table, row by row. */
  function Keys<T>(s: seq<T>, key: T -> Id): (r: seq<Id>)
    ensures |r| == |s|
    ensures forall i :: 0 <= i < |s| ==> r[i] == key(s[i])
  {
    seq(|s|, i requires 0 <= i < |s| => key(s[i]))
  }

  predicate Distinct(s: seq<Id>) {
    forall i, j :: 0 <= i < j < |s| ==> s[i] != s[j]
  }

  function Elements(s: seq<Id>): set<Id> {
    set x | x in s
  }

  /** A sequence has at least as many positions as distinct elements, and
      exactly as many when no element repeats. */
  lemma {:induction false} DistinctCard(s: seq<Id>)
    ensures |Elements(s)| <= |s|
    ensures |Elements(s)| == |s| <==> Distinct(s)
    decreases |s|
  {
    if s != [] {
      var init, last := s[..|s| - 1], s[|s| - 1];
      assert s == init + [last];
      DistinctCard(init);
      assert Elements(s) == Elements(init) + {last};
      if last in init {
        assert Elements(s) == Elements(init);
        var k :| 0 <= k < |init| && init[k] == last;
        assert s[k] == s[|s| - 1];
        assert !Distinct(s);
      } else {
        assert |Elements(s)| == |Elements(init)| + 1;
        if Distinct(init) {
          forall i, j | 0 <= i < j < |s| ensures s[i] != s[j] {
            if j == |s| - 1 {
              assert init[i] in init;
            } else {
              assert s[i] == init[i] && s[j] == init[j];
            }
          }
        } else {
          var i, j :| 0 <= i < j < |init| && init[i] == init[j];
          assert s[i] == s[j];
        }
      }
    }
  }

  lemma SubsetCard(a: set<Id>, b: set<Id>)
    requires a <= b
    ensures |a| <= |b|
  {
    assert b == a + (b - a);
  }

  /** A subset as large as its superset is the whole superset. */
  lemma SubsetSameSize(a: set<Id>, b: set<Id>)
    requires a <= b && |a| == |b|
    ensures a == b
  {
    assert |b - a| == |b| - |a|;
  }
}
