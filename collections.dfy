/** Sequence, dictionary and ordering helpers shared by the planner model.
    A Python `dict` keeps insertion order, so it is modelled as `Dict`: the
    keys in insertion order plus a finite map from keys to values. */
module Collections {

  datatype Option<T> = None | Some(value: T)

  predicate Distinct<T(==)>(s: seq<T>) {
    forall i, j :: 0 <= i < j < |s| ==> s[i] != s[j]
  }

  predicate StrictlyIncreasing(s: seq<int>) {
    forall i, j :: 0 <= i < j < |s| ==> s[i] < s[j]
  }

  /** The elements of `s` that satisfy `keep`, in their original order
      (a list comprehension with an `if`, or a boolean row mask). */
  function Filter<T(!new)>(s: seq<T>, keep: T -> bool): (r: seq<T>)
    ensures |r| <= |s|
    ensures forall x :: x in r <==> x in s && keep(x)
  {
    if s == [] then []
    else
      assert s == [s[0]] + s[1..];
      (if keep(s[0]) then [s[0]] else []) + Filter(s[1..], keep)
  }

  /** `f` applied to every element of `s`, in order (a column projection). */
  function MapSeq<T, U>(s: seq<T>, f: T -> U): (r: seq<U>)
    ensures |r| == |s|
    ensures forall i :: 0 <= i < |s| ==> r[i] == f(s[i])
  {
    seq(|s|, i requires 0 <= i < |s| => f(s[i]))
  }

  lemma MapSeqMembership<T, U>(s: seq<T>, f: T -> U)
    ensures forall y :: y in MapSeq(s, f) <==> exists x :: x in s && f(x) == y
  {
    var r := MapSeq(s, f);
    forall y ensures y in r <==> exists x :: x in s && f(x) == y {
      if y in r {
        var i :| 0 <= i < |r| && r[i] == y;
        assert s[i] in s && f(s[i]) == y;
      }
      if exists x :: x in s && f(x) == y {
        var x :| x in s && f(x) == y;
        var i :| 0 <= i < |s| && s[i] == x;
        assert r[i] == y;
      }
    }
  }

  /** The distinct elements of `s` in order of first occurrence
      (pandas `Series.unique()`). */
  function Unique<T(==,!new)>(s: seq<T>): (r: seq<T>)
    ensures Distinct(r)
    ensures forall x :: x in r <==> x in s
  {
    if s == [] then []
    else
      var u := Unique(s[..|s| - 1]);
      if s[|s| - 1] in u then u else u + [s[|s| - 1]]
  }

  /** `unique()` lists the values in order of first occurrence. */
  lemma {:induction false} UniqueInFirstOccurrenceOrder<T(!new)>(s: seq<T>)
    ensures forall i, j :: 0 <= i < j < |Unique(s)| ==> IndexOf(s, Unique(s)[i]) < IndexOf(s, Unique(s)[j])
  {
    if s != [] {
      var init, last := s[..|s| - 1], s[|s| - 1];
      assert s == init + [last];
      var u := Unique(init);
      UniqueInFirstOccurrenceOrder(init);
      forall x | x in init ensures IndexOf(s, x) == IndexOf(init, x) {
        IndexOfExtend(init, last, x);
      }
      if last !in u {
        IndexOfExtend(init, last, last);
        assert Unique(s) == u + [last];
        assert forall i :: 0 <= i < |u| ==> IndexOf(init, u[i]) < |init|;
      }
    }
  }

  /** The first position of `x` does not move when an element is appended. */
  lemma IndexOfExtend<T>(init: seq<T>, last: T, x: T)
    requires x in init + [last]
    ensures IndexOf(init + [last], x) == if x in init then IndexOf(init, x) else |init|
  {
    var s := init + [last];
    assert forall j :: 0 <= j < |init| ==> s[j] == init[j];
    if x in init {
      assert s[IndexOf(init, x)] == x;
    } else {
      assert s[|init|] == x;
    }
  }

  /** An embedding of `a` into `s`: strictly increasing positions of `s`
      at which the elements of `a` stand. */
  ghost predicate Embeds<T>(idx: seq<int>, a: seq<T>, s: seq<T>) {
    && |idx| == |a|
    && (forall i :: 0 <= i < |idx| ==> 0 <= idx[i] < |s| && a[i] == s[idx[i]])
    && (forall i, j :: 0 <= i < j < |idx| ==> idx[i] < idx[j])
  }

  /** `a` keeps a selection of the elements of `s` in their relative order. */
  ghost predicate IsSubsequence<T>(a: seq<T>, s: seq<T>) {
    exists idx :: Embeds(idx, a, s)
  }

  /** Every position moved one place right. */
  function Shift(idx: seq<int>): (r: seq<int>)
    ensures |r| == |idx|
    ensures forall i :: 0 <= i < |idx| ==> r[i] == idx[i] + 1
  {
    seq(|idx|, i requires 0 <= i < |idx| => idx[i] + 1)
  }

  /** An embedding into the tail of `s` is one into `s`, and stays one when
      the head of `s` is put in front. */
  lemma EmbedsInTail<T>(idx: seq<int>, a: seq<T>, s: seq<T>)
    requires s != [] && Embeds(idx, a, s[1..])
    ensures Embeds(Shift(idx), a, s)
    ensures Embeds([0] + Shift(idx), [s[0]] + a, s)
  {
    var sh := Shift(idx);
    forall i | 0 <= i < |sh| ensures 0 <= sh[i] < |s| && a[i] == s[sh[i]] {
      assert s[1..][idx[i]] == s[idx[i] + 1];
    }
    var ext := [0] + sh;
    var b := [s[0]] + a;
    forall i | 0 <= i < |ext| ensures 0 <= ext[i] < |s| && b[i] == s[ext[i]] {
      if i > 0 {
        assert ext[i] == sh[i - 1] && b[i] == a[i - 1];
      }
    }
    forall i, j | 0 <= i < j < |ext| ensures ext[i] < ext[j] {
      if i > 0 {
        assert ext[i] == sh[i - 1] && ext[j] == sh[j - 1];
      } else {
        assert ext[j] == sh[j - 1];
      }
    }
  }

  lemma {:induction false} FilterIsSubsequence<T(!new)>(s: seq<T>, keep: T -> bool)
    ensures IsSubsequence(Filter(s, keep), s)
  {
    if s == [] {
      assert Embeds([], Filter(s, keep), s);
    } else {
      FilterIsSubsequence(s[1..], keep);
      var rest := Filter(s[1..], keep);
      var idx :| Embeds(idx, rest, s[1..]);
      EmbedsInTail(idx, rest, s);
      if keep(s[0]) {
        assert Filter(s, keep) == [s[0]] + rest;
        assert Embeds([0] + Shift(idx), Filter(s, keep), s);
      } else {
        assert Filter(s, keep) == rest;
        assert Embeds(Shift(idx), Filter(s, keep), s);
      }
    }
  }

  lemma {:induction false} FilterKeepsDistinct<T(!new)>(s: seq<T>, keep: T -> bool)
    requires Distinct(s)
    ensures Distinct(Filter(s, keep))
  {
    if s != [] {
      assert Distinct(s[1..]) by {
        forall i, j | 0 <= i < j < |s[1..]| ensures s[1..][i] != s[1..][j] {
          assert s[1..][i] == s[i + 1] && s[1..][j] == s[j + 1];
        }
      }
      FilterKeepsDistinct(s[1..], keep);
      assert s[0] !in s[1..] by {
        forall k | 0 <= k < |s[1..]| ensures s[1..][k] != s[0] {
          assert s[1..][k] == s[k + 1];
        }
      }
    }
  }

  /** Splitting `s` by a condition and by its negation loses and invents nothing. */
  lemma {:induction false} FilterPartition<T(!new)>(s: seq<T>, keep: T -> bool, drop: T -> bool)
    requires forall x :: drop(x) == !keep(x)
    ensures multiset(Filter(s, keep)) + multiset(Filter(s, drop)) == multiset(s)
  {
    if s != [] {
      var head, tail := s[0], s[1..];
      var keptTail, droppedTail := Filter(tail, keep), Filter(tail, drop);
      FilterPartition(tail, keep, drop);
      assert multiset(s) == multiset{head} + multiset(tail) by {
        assert s == [head] + tail;
      }
      if keep(head) {
        assert !drop(head);
        assert Filter(s, keep) == [head] + keptTail;
        assert Filter(s, drop) == droppedTail;
      } else {
        assert drop(head);
        assert Filter(s, keep) == keptTail;
        assert Filter(s, drop) == [head] + droppedTail;
      }
    }
  }

  /** In a sequence without repetitions every element occurs once. */
  lemma {:induction false} DistinctOccursOnce<T>(s: seq<T>, x: T)
    requires Distinct(s)
    ensures multiset(s)[x] == if x in s then 1 else 0
  {
    if s != [] {
      assert s == [s[0]] + s[1..];
      assert Distinct(s[1..]) by {
        forall i, j | 0 <= i < j < |s[1..]| ensures s[1..][i] != s[1..][j] {
          assert s[1..][i] == s[i + 1] && s[1..][j] == s[j + 1];
        }
      }
      DistinctOccursOnce(s[1..], x);
      if x == s[0] {
        assert x !in s[1..] by {
          forall k | 0 <= k < |s[1..]| ensures s[1..][k] != x {
            assert s[1..][k] == s[k + 1];
          }
        }
      }
    }
  }

  /** Position of `x` in `s`; with distinct elements it is the only one. */
  function IndexOf<T(==)>(s: seq<T>, x: T): (i: nat)
    requires x in s
    ensures i < |s| && s[i] == x
    ensures forall j :: 0 <= j < i ==> s[j] != x
  {
    if s[0] == x then 0 else 1 + IndexOf(s[1..], x)
  }

  /** `sorted(set(s))`: the distinct values of `s` in ascending order. */
  function SortedSet(s: seq<int>): (r: seq<int>)
    ensures StrictlyIncreasing(r)
    ensures forall y :: y in r <==> y in s
  {
    if s == [] then []
    else
      assert s == [s[0]] + s[1..];
      InsertSorted(s[0], SortedSet(s[1..]))
  }

  /** The tail of a strictly increasing sequence is strictly increasing and
      above its head. */
  lemma HeadBelowTail(s: seq<int>)
    requires StrictlyIncreasing(s) && s != []
    ensures s == [s[0]] + s[1..]
    ensures StrictlyIncreasing(s[1..])
    ensures forall y :: y in s[1..] ==> s[0] < y
  {
    forall y | y in s[1..] ensures s[0] < y {
      var m :| 0 <= m < |s[1..]| && s[1..][m] == y;
      assert s[1..][m] == s[m + 1];
    }
  }

  /** Putting a smaller value in front keeps a sequence strictly increasing. */
  lemma PrependBelow(h: int, t: seq<int>)
    requires StrictlyIncreasing(t)
    requires forall y :: y in t ==> h < y
    ensures StrictlyIncreasing([h] + t)
  {
    var r := [h] + t;
    forall i, j | 0 <= i < j < |r| ensures r[i] < r[j] {
      assert r[j] == t[j - 1];
      if i > 0 {
        assert r[i] == t[i - 1];
      } else {
        assert t[j - 1] in t;
      }
    }
  }

  function InsertSorted(x: int, s: seq<int>): (r: seq<int>)
    requires StrictlyIncreasing(s)
    ensures StrictlyIncreasing(r)
    ensures forall y :: y in r <==> y == x || y in s
  {
    if s == [] then [x]
    else if x < s[0] then
      HeadBelowTail(s);
      PrependBelow(x, s);
      [x] + s
    else if x == s[0] then s
    else
      HeadBelowTail(s);
      var t := InsertSorted(x, s[1..]);
      PrependBelow(s[0], t);
      [s[0]] + t
  }

  /** A strictly increasing sequence is determined by its elements. */
  lemma {:induction false} StrictlyIncreasingDeterminedBySet(a: seq<int>, b: seq<int>)
    requires StrictlyIncreasing(a) && StrictlyIncreasing(b)
    requires forall x :: x in a <==> x in b
    ensures a == b
  {
    assert a != [] ==> a[0] in a && a[0] in b;
    assert b != [] ==> b[0] in b && b[0] in a;
    if a != [] && b != [] {
      assert a[0] in a && b[0] in b;
      var i :| 0 <= i < |a| && a[i] == b[0];
      var j :| 0 <= j < |b| && b[j] == a[0];
      assert a[0] <= a[i] && b[0] <= b[j];
      assert a[0] == b[0];
      forall x ensures x in a[1..] <==> x in b[1..] {
        if x in a[1..] {
          assert x in b && x != b[0];
          assert x in b[1..] by { assert b == [b[0]] + b[1..]; }
        }
        if x in b[1..] {
          assert x in a && x != a[0];
          assert x in a[1..] by { assert a == [a[0]] + a[1..]; }
        }
      }
      StrictlyIncreasingDeterminedBySet(a[1..], b[1..]);
      assert a == [a[0]] + a[1..] && b == [b[0]] + b[1..];
    }
  }

  /** A Python dict: keys in insertion order and the key/value mapping. */
  datatype Dict<K(==,!new), V> = Dict(keys: seq<K>, entries: map<K, V>) {

    ghost predicate Wf() {
      Distinct(keys) && forall k :: k in entries <==> k in keys
    }

    /** `d[k] = v`: a new key goes to the end, an old key keeps its place. */
    function Insert(k: K, v: V): (d: Dict<K, V>)
      requires Wf()
      ensures d.Wf()
      ensures d.entries == entries[k := v]
      ensures k in entries ==> d.keys == keys
      ensures k !in entries ==> d.keys == keys + [k]
    {
      if k in entries then Dict(keys, entries[k := v]) else Dict(keys + [k], entries[k := v])
    }

    /** `d.values()`: the values in key order. */
    function Values(): (vs: seq<V>)
      requires Wf()
      ensures |vs| == |keys|
      ensures forall i :: 0 <= i < |keys| ==> vs[i] == entries[keys[i]]
    {
      seq(|keys|, i requires 0 <= i < |keys| => entries[keys[i]])
    }
  }

  /** A dictionary with the keys of a well-formed one, in the same order, is well formed. */
  lemma SameKeys<K(!new), V>(a: Dict<K, V>, b: Dict<K, V>)
    requires a.Wf() && b.keys == a.keys && b.entries.Keys == a.entries.Keys
    ensures b.Wf() && forall k :: k in b.entries <==> k in a.entries
  {
  }

  /** Row `i` is the last row with key `k` that has a value in the column,
      and that value is `v`. */
  ghost predicate LastValueAt<R, K, V>(rows: seq<R>, key: R -> K, column: R -> Option<V>, k: K, v: V, i: int) {
    && 0 <= i < |rows|
    && key(rows[i]) == k
    && column(rows[i]) == Some(v)
    && forall j :: i < j < |rows| && key(rows[j]) == k ==> column(rows[j]).None?
  }

  /** A value kept for a key is the value of some row with that key. */
  lemma ValueFromSomeRow<R, K(!new), V>(rows: seq<R>, key: R -> K, column: R -> Option<V>, d: Dict<K, V>)
    requires forall k :: k in d.entries ==> exists i :: LastValueAt(rows, key, column, k, d.entries[k], i)
    ensures forall k :: k in d.entries ==> exists row :: row in rows && key(row) == k && column(row) == Some(d.entries[k])
  {
    forall k | k in d.entries ensures exists row :: row in rows && key(row) == k && column(row) == Some(d.entries[k]) {
      var i :| LastValueAt(rows, key, column, k, d.entries[k], i);
      assert rows[i] in rows;
    }
  }

  /** `rows.dropna(subset=[column]).set_index(key)[column].to_dict()`:
      rows without a value are dropped, and when a key repeats the last
      row's value wins. */
  function ColumnToDict<R, K(==,!new), V>(rows: seq<R>, key: R -> K, column: R -> Option<V>): (d: Dict<K, V>)
    ensures d.Wf()
    ensures forall k :: k in d.entries <==> exists row :: row in rows && key(row) == k && column(row).Some?
    ensures forall k :: k in d.entries ==> exists i :: LastValueAt(rows, key, column, k, d.entries[k], i)
  {
    if rows == [] then Dict([], map[])
    else
      var init := rows[..|rows| - 1];
      var d := ColumnToDict(init, key, column);
      var r := if column(rows[|rows| - 1]).Some? then d.Insert(key(rows[|rows| - 1]), column(rows[|rows| - 1]).value) else d;
      ColumnToDictStep(rows, init, key, column, d, r);
      r
  }

  lemma ColumnToDictStep<R, K(!new), V>(rows: seq<R>, init: seq<R>, key: R -> K, column: R -> Option<V>, d: Dict<K, V>, r: Dict<K, V>)
    requires rows != [] && init == rows[..|rows| - 1]
    requires d.Wf()
    requires forall k :: k in d.entries <==> exists row :: row in init && key(row) == k && column(row).Some?
    requires forall k :: k in d.entries ==> exists i :: LastValueAt(init, key, column, k, d.entries[k], i)
    requires r == if column(rows[|rows| - 1]).Some? then d.Insert(key(rows[|rows| - 1]), column(rows[|rows| - 1]).value) else d
    ensures r.Wf()
    ensures forall k :: k in r.entries <==> exists row :: row in rows && key(row) == k && column(row).Some?
    ensures forall k :: k in r.entries ==> exists i :: LastValueAt(rows, key, column, k, r.entries[k], i)
  {
    var n := |rows| - 1;
    forall k | k in r.entries ensures exists i :: LastValueAt(rows, key, column, k, r.entries[k], i) {
      if column(rows[n]).Some? && k == key(rows[n]) {
        assert LastValueAt(rows, key, column, k, r.entries[k], n);
      } else {
        var i :| LastValueAt(init, key, column, k, d.entries[k], i);
        assert LastValueAt(rows, key, column, k, r.entries[k], i);
      }
    }
    assert rows == init + [rows[n]];
    forall k ensures k in r.entries <==> exists row :: row in rows && key(row) == k && column(row).Some? {
    }
  }
}
