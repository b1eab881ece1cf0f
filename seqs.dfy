/** Sequence tables: the operations the ORM performs on a table that is kept
    as a sequence of records in insertion order. `key` selects the column a
    query looks at (an id, a timestamp). */
module Seqs {
  import opened Outcomes

  /** `WHERE p`: the rows satisfying `p`, in table order. */
  function Filter<T(!new)>(s: seq<T>, p: T -> bool): (r: seq<T>)
    ensures |r| <= |s|
    ensures forall x :: x in r <==> x in s && p(x)
    ensures forall i :: 0 <= i < |r| ==> p(r[i])
    ensures multiset(r) <= multiset(s)
    ensures forall x :: multiset(r)[x] == if p(x) then multiset(s)[x] else 0
  {
    if s == [] then []
    else
      assert s == [s[0]] + s[1..];
      assert multiset(s) == multiset{s[0]} + multiset(s[1..]);
      if p(s[0]) then
        var r := [s[0]] + Filter(s[1..], p);
        assert multiset(r) == multiset{s[0]} + multiset(Filter(s[1..], p));
        r
      else Filter(s[1..], p)
  }

  /** `findByPk`: the position of the first row whose key is `k`. */
  function FindIndex<T>(s: seq<T>, key: T -> int, k: int): (r: Option<nat>)
    ensures r.Some? ==> r.value < |s| && key(s[r.value]) == k
    ensures r.Some? ==> forall i :: 0 <= i < r.value ==> key(s[i]) != k
    ensures r.None? <==> forall i :: 0 <= i < |s| ==> key(s[i]) != k
  {
    if s == [] then None
    else match FindIndex(s[..|s| - 1], key, k)
      case Some(i) => Some(i)
      case None => if key(s[|s| - 1]) == k then Some(|s| - 1) else None
  }

  /** Every key occurs at most once. */
  ghost predicate UniqueKeys<T>(s: seq<T>, key: T -> int) {
    forall i, j :: 0 <= i < j < |s| ==> key(s[i]) != key(s[j])
  }

  /** With unique keys, the lookup finds the one row holding the key. */
  lemma FindUnique<T>(s: seq<T>, key: T -> int, i: nat)
    requires UniqueKeys(s, key) && i < |s|
    ensures FindIndex(s, key, key(s[i])) == Some(i)
  {
  }

  /** Extensionally equal conditions select the same rows. */
  lemma {:induction false} FilterExt<T(!new)>(s: seq<T>, p: T -> bool, q: T -> bool)
    requires forall x :: p(x) == q(x)
    ensures Filter(s, p) == Filter(s, q)
  {
    if s != [] {
      FilterExt(s[1..], p, q);
    }
  }

  /** The id an autoincrement column hands out next: above every stored id. */
  function NextId<T>(s: seq<T>, key: T -> int): (r: int)
    ensures r >= 1
    ensures forall i :: 0 <= i < |s| ==> key(s[i]) < r
  {
    if s == [] then 1
    else
      var prev := NextId(s[..|s| - 1], key);
      var last := key(s[|s| - 1]) + 1;
      if prev < last then last else prev
  }

  /** Appending a row under a fresh id keeps the keys unique. */
  lemma AppendFresh<T>(s: seq<T>, key: T -> int, x: T)
    requires UniqueKeys(s, key)
    requires key(x) == NextId(s, key)
    ensures UniqueKeys(s + [x], key)
  {
    var t := s + [x];
    forall i, j | 0 <= i < j < |t| ensures key(t[i]) != key(t[j]) {
      if j == |s| {
        assert t[i] == s[i];
      } else {
        assert t[i] == s[i] && t[j] == s[j];
      }
    }
  }

  /** Overwriting a row with one that has the same key keeps the keys unique. */
  lemma UpdateSameKey<T>(s: seq<T>, key: T -> int, i: nat, x: T)
    requires UniqueKeys(s, key)
    requires i < |s| && key(x) == key(s[i])
    ensures UniqueKeys(s[i := x], key)
  {
  }

  /** A lookup only looks at the keys: rewriting rows without changing
      their keys does not move what it finds. */
  lemma FindIndexSameKeys<T>(s: seq<T>, t: seq<T>, key: T -> int, k: int)
    requires |s| == |t|
    requires forall i :: 0 <= i < |s| ==> key(s[i]) == key(t[i])
    ensures FindIndex(s, key, k) == FindIndex(t, key, k)
  {
    var a := FindIndex(s, key, k);
    var b := FindIndex(t, key, k);
    if a.Some? && b.Some? {
      assert !(a.value < b.value) && !(b.value < a.value);
    }
  }

  /** Ascending order on `key`. */
  ghost predicate SortedBy<T>(s: seq<T>, key: T -> int) {
    forall i, j :: 0 <= i < j < |s| ==> key(s[i]) <= key(s[j])
  }

  /** Places `x` before the first element whose key is not below its own. */
  function InsertBy<T>(x: T, s: seq<T>, key: T -> int): seq<T> {
    if s == [] || key(x) <= key(s[0]) then [x] + s
    else [s[0]] + InsertBy(x, s[1..], key)
  }

  /** Inserting adds exactly `x`. */
  lemma {:induction false} InsertByMultiset<T>(x: T, s: seq<T>, key: T -> int)
    ensures multiset(InsertBy(x, s, key)) == multiset(s) + multiset{x}
  {
    if s != [] && key(x) > key(s[0]) {
      assert s == [s[0]] + s[1..];
      InsertByMultiset(x, s[1..], key);
    }
  }

  /** A lower bound of `x` and of every key in `s` bounds every key after
      the insertion. */
  lemma {:induction false} InsertByBound<T>(x: T, s: seq<T>, key: T -> int, lo: int)
    requires lo <= key(x)
    requires forall j :: 0 <= j < |s| ==> lo <= key(s[j])
    ensures forall j :: 0 <= j < |InsertBy(x, s, key)| ==> lo <= key(InsertBy(x, s, key)[j])
  {
    if s != [] && key(x) > key(s[0]) {
      InsertByBound(x, s[1..], key, lo);
      var rest := InsertBy(x, s[1..], key);
      assert InsertBy(x, s, key) == [s[0]] + rest;
    }
  }

  /** Inserting into a sorted sequence keeps it sorted. */
  lemma {:induction false} InsertBySorted<T>(x: T, s: seq<T>, key: T -> int)
    requires SortedBy(s, key)
    ensures SortedBy(InsertBy(x, s, key), key)
  {
    if s == [] || key(x) <= key(s[0]) {
      var r := [x] + s;
      forall i, j | 0 <= i < j < |r| ensures key(r[i]) <= key(r[j]) {
        if i == 0 {
          if j > 1 {
            assert key(s[0]) <= key(s[j - 1]);
          }
        } else {
          assert r[i] == s[i - 1] && r[j] == s[j - 1];
        }
      }
    } else {
      var tail := s[1..];
      assert SortedBy(tail, key) by {
        forall i, j | 0 <= i < j < |tail| ensures key(tail[i]) <= key(tail[j]) {
          assert tail[i] == s[i + 1] && tail[j] == s[j + 1];
        }
      }
      assert forall j :: 0 <= j < |tail| ==> key(s[0]) <= key(tail[j]) by {
        forall j | 0 <= j < |tail| ensures key(s[0]) <= key(tail[j]) {
          assert tail[j] == s[j + 1];
        }
      }
      InsertBySorted(x, tail, key);
      InsertByBound(x, tail, key, key(s[0]));
      var rest := InsertBy(x, tail, key);
      var r := [s[0]] + rest;
      assert InsertBy(x, s, key) == r;
      forall i, j | 0 <= i < j < |r| ensures key(r[i]) <= key(r[j]) {
        if i == 0 {
          assert r[j] == rest[j - 1];
        } else {
          assert r[i] == rest[i - 1] && r[j] == rest[j - 1];
        }
      }
    }
  }

  /** `ORDER BY key ASC` and JavaScript's stable `sort`: a permutation of
      `s` in ascending key order. */
  function SortBy<T>(s: seq<T>, key: T -> int): (r: seq<T>)
    ensures multiset(r) == multiset(s)
    ensures |r| == |s|
    ensures SortedBy(r, key)
  {
    if s == [] then []
    else
      assert s == [s[0]] + s[1..];
      var sorted := SortBy(s[1..], key);
      InsertByMultiset(s[0], sorted, key);
      InsertBySorted(s[0], sorted, key);
      InsertBy(s[0], sorted, key)
  }

  /** Two sequences with the same multiset hold the same elements. */
  lemma SameElements<T>(s: seq<T>, t: seq<T>)
    requires multiset(s) == multiset(t)
    ensures forall x :: x in s <==> x in t
  {
    forall x ensures x in s <==> x in t {
      assert x in s <==> x in multiset(s);
      assert x in t <==> x in multiset(t);
    }
  }

  /** A multiset occurrence count of two or more comes from two positions. */
  lemma {:induction false} TwoOccurrences<T>(s: seq<T>, x: T)
    requires multiset(s)[x] >= 2
    ensures exists p, q :: 0 <= p < q < |s| && s[p] == x && s[q] == x
  {
    var t := s[1..];
    assert s == [s[0]] + t;
    if s[0] == x {
      assert x in multiset(t);
      var q :| 0 <= q < |t| && t[q] == x;
      assert s[0] == x && s[q + 1] == x;
    } else {
      TwoOccurrences(t, x);
      var p, q :| 0 <= p < q < |t| && t[p] == x && t[q] == x;
      assert s[p + 1] == x && s[q + 1] == x;
    }
  }

  /** Taking the row at `i` out of a sequence removes one copy of it. */
  lemma MultisetRemoveAt<T>(s: seq<T>, i: int)
    requires 0 <= i < |s|
    ensures multiset(s[..i] + s[i + 1..]) == multiset(s) - multiset{s[i]}
  {
    assert s == s[..i] + [s[i]] + s[i + 1..];
  }

  /** Permuting a sequence keeps "no two elements with property `P` share a
      key". */
  lemma DistinctKeysPermutation<T>(s: seq<T>, t: seq<T>, P: T -> bool, key: T -> int)
    requires multiset(s) == multiset(t)
    requires forall i, j :: 0 <= i < j < |s| && P(s[i]) && P(s[j]) ==> key(s[i]) != key(s[j])
    ensures forall i, j :: 0 <= i < j < |t| && P(t[i]) && P(t[j]) ==> key(t[i]) != key(t[j])
  {
    forall i, j | 0 <= i < j < |t| && P(t[i]) && P(t[j]) ensures key(t[i]) != key(t[j]) {
      assert t[i] in multiset(s) && t[j] in multiset(s);
      if t[i] == t[j] {
        var x := t[i];
        assert multiset(t)[x] >= 2 by {
          assert t == t[..j] + t[j..];
          assert x in t[..j] && x in t[j..];
        }
        TwoOccurrences(s, x);
      } else {
        var p :| 0 <= p < |s| && s[p] == t[i];
        var q :| 0 <= q < |s| && s[q] == t[j];
        assert p != q;
      }
    }
  }
}
