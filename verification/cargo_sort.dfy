/**
 Clicking a column header sorts the list on screen by that column with the
 three-way comparator `a[field] > b[field] ? 1 : a[field] < b[field] ? -1 : 0`.
 `Array.prototype.sort` is stable, so the result is the unique stable sorted
 permutation; insertion sort computes it.
 */
module CargoSort {
  import opened Strings
  import opened Seqs
  import opened Cargos

  /** Ascending under the comparator: no earlier record compares greater than a later one
      (`Compare(a, b) <= 0` is exactly `Leq(a, b)`). */
  ghost predicate Sorted(s: seq<Cargo>, f: Field) {
    forall i, j :: 0 <= i < j < |s| ==> Leq(Key(s[i], f), Key(s[j], f))
  }

  /** Selects the records whose `field` is exactly `k`; used to state stability. */
  function HasKey(f: Field, k: string): Cargo -> bool {
    c => Key(c, f) == k
  }

  /** Places `x` in front of the first record it does not compare greater than. */
  function Insert(x: Cargo, t: seq<Cargo>, f: Field): seq<Cargo> {
    if |t| == 0 then [x]
    else if Compare(Key(x, f), Key(t[0], f)) > 0 then [t[0]] + Insert(x, t[1..], f)
    else [x] + t
  }

  lemma {:induction false} InsertMultiset(x: Cargo, t: seq<Cargo>, f: Field)
    ensures multiset(Insert(x, t, f)) == multiset(t) + multiset{x}
  {
    if |t| > 0 {
      assert t == [t[0]] + t[1..];
      InsertMultiset(x, t[1..], f);
    }
  }

  /** A record no greater than any record of a sorted list can go in front of it. */
  lemma PrependSorted(a: Cargo, t: seq<Cargo>, f: Field)
    requires Sorted(t, f)
    requires forall j :: 0 <= j < |t| ==> Leq(Key(a, f), Key(t[j], f))
    ensures Sorted([a] + t, f)
  {
  }

  lemma {:induction false} InsertSorted(x: Cargo, t: seq<Cargo>, f: Field)
    requires Sorted(t, f)
    ensures Sorted(Insert(x, t, f), f)
  {
    if |t| == 0 {
    } else if Compare(Key(x, f), Key(t[0], f)) > 0 {
      var tail := t[1..];
      assert Sorted(tail, f) by {
        forall i, j | 0 <= i < j < |tail| ensures Leq(Key(tail[i], f), Key(tail[j], f)) {
          assert tail[i] == t[i + 1] && tail[j] == t[j + 1];
        }
      }
      InsertSorted(x, tail, f);
      InsertMultiset(x, tail, f);
      var rest := Insert(x, tail, f);
      forall j | 0 <= j < |rest| ensures Leq(Key(t[0], f), Key(rest[j], f)) {
        assert rest[j] in multiset(rest);
        if rest[j] != x {
          assert rest[j] in multiset(tail);
          var m :| 0 <= m < |tail| && tail[m] == rest[j];
          assert t[m + 1] == rest[j];
        }
      }
      PrependSorted(t[0], rest, f);
    } else {
      forall j | 0 <= j < |t| ensures Leq(Key(x, f), Key(t[j], f)) {
        if j > 0 {
          LeqTransitive(Key(x, f), Key(t[0], f), Key(t[j], f));
        }
      }
      PrependSorted(x, t, f);
    }
  }

  /** `sort(field)` applied to the list on screen: ascending under the comparator, and a
      permutation of its input. */
  function SortBy(s: seq<Cargo>, f: Field): (r: seq<Cargo>)
    ensures Sorted(r, f)
    ensures multiset(r) == multiset(s)
    ensures |r| == |s|
  {
    if |s| == 0 then []
    else
      assert s == [s[0]] + s[1..];
      var rest := SortBy(s[1..], f);
      InsertSorted(s[0], rest, f);
      InsertMultiset(s[0], rest, f);
      Insert(s[0], rest, f)
  }

  /** A list already sorted by `f` is returned unchanged. */
  lemma {:induction false} SortedInputIsUnchanged(s: seq<Cargo>, f: Field)
    requires Sorted(s, f)
    ensures SortBy(s, f) == s
  {
    if |s| > 0 {
      SortedInputIsUnchanged(s[1..], f);
    }
  }

  /** Sorting twice by the same column gives what sorting once gives. */
  lemma SortIdempotent(s: seq<Cargo>, f: Field)
    ensures SortBy(SortBy(s, f), f) == SortBy(s, f)
  {
    SortedInputIsUnchanged(SortBy(s, f), f);
  }

  /** Insertion passes only records with strictly smaller keys, so the records sharing any
      one key keep their order. */
  lemma {:induction false} InsertStable(x: Cargo, t: seq<Cargo>, f: Field, k: string)
    requires Sorted(t, f)
    ensures Filter(Insert(x, t, f), HasKey(f, k)) == Filter([x], HasKey(f, k)) + Filter(t, HasKey(f, k))
  {
    var p := HasKey(f, k);
    if |t| == 0 {
    } else if Compare(Key(x, f), Key(t[0], f)) > 0 {
      assert t == [t[0]] + t[1..];
      InsertStable(x, t[1..], f, k);
      FilterAppend([t[0]], Insert(x, t[1..], f), p);
      FilterAppend([t[0]], t[1..], p);
      if Key(x, f) == k {
        assert Filter([t[0]], p) == [];
      }
    } else {
      FilterAppend([x], t, p);
    }
  }

  /** Stability: for every key value, the records carrying it appear in the same order
      before and after sorting. */
  lemma {:induction false} SortStable(s: seq<Cargo>, f: Field, k: string)
    ensures Filter(SortBy(s, f), HasKey(f, k)) == Filter(s, HasKey(f, k))
  {
    if |s| > 0 {
      SortStable(s[1..], f, k);
      InsertStable(s[0], SortBy(s[1..], f), f, k);
      assert s == [s[0]] + s[1..];
      FilterAppend([s[0]], s[1..], HasKey(f, k));
    }
  }

  /** The first record heads the records that share its key. */
  lemma FirstOfKey(r: seq<Cargo>, f: Field)
    requires |r| > 0
    ensures Filter(r, HasKey(f, Key(r[0], f))) == [r[0]] + Filter(r[1..], HasKey(f, Key(r[0], f)))
  {
  }

  lemma SortedTail(r: seq<Cargo>, f: Field)
    requires Sorted(r, f) && |r| > 0
    ensures Sorted(r[1..], f)
  {
  }

  /** Sorted lists whose records of every key agree start with the same record: both
      start with the first record of the smallest key. */
  lemma SameHead(r: seq<Cargo>, q: seq<Cargo>, f: Field)
    requires Sorted(r, f) && Sorted(q, f) && |r| > 0 && |q| > 0
    requires forall k :: Filter(r, HasKey(f, k)) == Filter(q, HasKey(f, k))
    ensures r[0] == q[0]
  {
    var kr, kq := Key(r[0], f), Key(q[0], f);
    FirstOfKey(r, f);
    FirstOfKey(q, f);
    FilterProperties(q, HasKey(f, kr));
    FilterProperties(r, HasKey(f, kq));
    assert r[0] in Filter(q, HasKey(f, kr));
    assert q[0] in Filter(r, HasKey(f, kq));
    var i :| 0 <= i < |r| && r[i] == q[0];
    var j :| 0 <= j < |q| && q[j] == r[0];
    LessIrreflexive(kr);
    assert Leq(kr, kq) by {
      if i > 0 {
        assert Leq(Key(r[0], f), Key(r[i], f));
      }
    }
    assert Leq(kq, kr) by {
      if j > 0 {
        assert Leq(Key(q[0], f), Key(q[j], f));
      }
    }
    LeqAntisymmetric(kr, kq);
    assert Filter(q, HasKey(f, kr)) == [q[0]] + Filter(q[1..], HasKey(f, kr));
  }

  /** Removing the same first record from both lists keeps every key's records equal. */
  lemma TailsAgree(r: seq<Cargo>, q: seq<Cargo>, f: Field, k: string)
    requires |r| > 0 && |q| > 0 && r[0] == q[0]
    requires Filter(r, HasKey(f, k)) == Filter(q, HasKey(f, k))
    ensures Filter(r[1..], HasKey(f, k)) == Filter(q[1..], HasKey(f, k))
  {
  }

  /** Two sorted lists in which every key's records appear in the same order are equal. */
  lemma {:induction false} SortedStableUnique(r: seq<Cargo>, q: seq<Cargo>, f: Field)
    requires Sorted(r, f) && Sorted(q, f)
    requires forall k :: Filter(r, HasKey(f, k)) == Filter(q, HasKey(f, k))
    ensures r == q
  {
    if |r| == 0 {
      if |q| > 0 {
        FirstOfKey(q, f);
      }
    } else if |q| == 0 {
      FirstOfKey(r, f);
    } else {
      SameHead(r, q, f);
      forall k ensures Filter(r[1..], HasKey(f, k)) == Filter(q[1..], HasKey(f, k)) {
        TailsAgree(r, q, f, k);
      }
      SortedTail(r, f);
      SortedTail(q, f);
      SortedStableUnique(r[1..], q[1..], f);
      assert r == [r[0]] + r[1..] && q == [q[0]] + q[1..];
    }
  }

  /** Any stable sort by `field` returns exactly what `SortBy` returns. */
  lemma StableSortIsSortBy(s: seq<Cargo>, r: seq<Cargo>, f: Field)
    requires Sorted(r, f)
    requires forall k :: Filter(r, HasKey(f, k)) == Filter(s, HasKey(f, k))
    ensures r == SortBy(s, f)
  {
    forall k ensures Filter(r, HasKey(f, k)) == Filter(SortBy(s, f), HasKey(f, k)) {
      SortStable(s, f, k);
    }
    SortedStableUnique(r, SortBy(s, f), f);
  }
}
