/** Sorting the entries of an object by key, and why the result depends on the entry set alone. */
module KeySort {
  import opened Strings

  datatype Entry<+T> = Entry(key: string, value: T)

  function Insert<T>(e: Entry<T>, sorted: seq<Entry<T>>): seq<Entry<T>> {
    if sorted == [] then [e]
    else if Less(sorted[0].key, e.key) then [sorted[0]] + Insert(e, sorted[1..])
    else [e] + sorted
  }

  function Sort<T>(entries: seq<Entry<T>>): seq<Entry<T>> {
    if entries == [] then [] else Insert(entries[0], Sort(entries[1..]))
  }

  ghost predicate DistinctKeys<T>(entries: seq<Entry<T>>) {
    forall i, j :: 0 <= i < j < |entries| ==> entries[i].key != entries[j].key
  }

  ghost predicate Ascending<T>(entries: seq<Entry<T>>) {
    forall i, j :: 0 <= i < j < |entries| ==> Less(entries[i].key, entries[j].key)
  }

  lemma {:induction false} InsertMembers<T(!new)>(e: Entry<T>, sorted: seq<Entry<T>>)
    ensures |Insert(e, sorted)| == |sorted| + 1
    ensures forall x :: x in Insert(e, sorted) <==> x == e || x in sorted
  {
    if sorted != [] {
      InsertMembers(e, sorted[1..]);
      assert sorted == [sorted[0]] + sorted[1..];
    }
  }

  lemma {:induction false} InsertAscending<T(!new)>(e: Entry<T>, sorted: seq<Entry<T>>)
    requires Ascending(sorted)
    requires forall x :: x in sorted ==> x.key != e.key
    ensures Ascending(Insert(e, sorted))
  {
    if sorted != [] {
      if Less(sorted[0].key, e.key) {
        InsertAscending(e, sorted[1..]);
        InsertMembers(e, sorted[1..]);
        var rest := Insert(e, sorted[1..]);
        forall x | x in rest ensures Less(sorted[0].key, x.key) {
          if x != e {
            var i :| 0 <= i < |sorted[1..]| && sorted[1..][i] == x;
            assert sorted[i + 1] == x;
          }
        }
      } else {
        LessTotal(sorted[0].key, e.key);
        forall x | x in sorted ensures Less(e.key, x.key) {
          if x != sorted[0] {
            LessTransitive(e.key, sorted[0].key, x.key);
          }
        }
      }
    }
  }

  lemma {:induction false} SortMembers<T(!new)>(entries: seq<Entry<T>>)
    ensures |Sort(entries)| == |entries|
    ensures forall x :: x in Sort(entries) <==> x in entries
  {
    if entries != [] {
      SortMembers(entries[1..]);
      InsertMembers(entries[0], Sort(entries[1..]));
      assert entries == [entries[0]] + entries[1..];
    }
  }

  lemma {:induction false} SortAscending<T(!new)>(entries: seq<Entry<T>>)
    requires DistinctKeys(entries)
    ensures Ascending(Sort(entries))
  {
    if entries != [] {
      var rest := entries[1..];
      SortAscending(rest);
      SortMembers(rest);
      forall x | x in Sort(rest) ensures x.key != entries[0].key {
        assert x in rest;
        var i :| 0 <= i < |rest| && rest[i] == x;
        assert entries[i + 1] == x;
      }
      InsertAscending(entries[0], Sort(rest));
    }
  }

  // Two strictly ascending lists with the same members are the same list.
  lemma {:induction false} AscendingUnique<T(!new)>(a: seq<Entry<T>>, b: seq<Entry<T>>)
    requires Ascending(a) && Ascending(b)
    requires forall x :: x in a <==> x in b
    ensures a == b
  {
    assert b != [] ==> b[0] in b;
    if a != [] {
      assert a[0] in b;
      HeadsAgree(a, b);
      forall x ensures x in a[1..] <==> x in b[1..] {
        TailMembers(a, x);
        TailMembers(b, x);
      }
      AscendingUnique(a[1..], b[1..]);
      assert a == [a[0]] + a[1..] && b == [b[0]] + b[1..];
    }
  }

  lemma {:induction false} HeadsAgree<T(!new)>(a: seq<Entry<T>>, b: seq<Entry<T>>)
    requires Ascending(a) && Ascending(b) && a != [] && b != []
    requires a[0] in b && b[0] in a
    ensures a[0] == b[0]
  {
    if a[0] != b[0] {
      LessTransitive(a[0].key, b[0].key, a[0].key);
      LessIrreflexive(a[0].key);
    }
  }

  lemma {:induction false} TailMembers<T(!new)>(a: seq<Entry<T>>, x: Entry<T>)
    requires Ascending(a) && a != []
    ensures x in a[1..] <==> x in a && x != a[0]
  {
    if x in a[1..] {
      LessIrreflexive(x.key);
    }
    assert a == [a[0]] + a[1..];
  }
}
