/** When two values print the same canonical text, and which values survive a JSONB round trip. */
module JsonEquality {
  import opened Options
  import opened Strings
  import opened KeySort
  import opened CanonicalJson
  import opened JsonReader
  import opened JsonUnambiguous

  // Equality up to the order of object keys, at every depth.
  ghost predicate SameUpToKeyOrder(a: Value, b: Value)
    decreases a, b
  {
    match (a, b)
    case (Array(x), Array(y)) =>
      |x| == |y| && forall i :: 0 <= i < |x| ==> SameUpToKeyOrder(x[i], y[i])
    case (Object(x), Object(y)) =>
      && Keys(x) == Keys(y)
      && forall i, j :: 0 <= i < |x| && 0 <= j < |y| && x[i].key == y[j].key ==>
           SameUpToKeyOrder(x[i].value, y[j].value)
    case (_, _) => a == b
  }

  ghost function Keys(members: seq<Entry<Value>>): set<string> {
    set i | 0 <= i < |members| :: members[i].key
  }

  // ---------------------------------------------------------------------------
  // Equal texts exactly when equal normal forms, for every well-formed value
  // ---------------------------------------------------------------------------

  lemma {:induction false} CanonicalEqualIffNormalEqual(a: Value, b: Value)
    requires WellFormed(a) && WellFormed(b)
    ensures Canonical(a) == Canonical(b) <==> Normal(a) == Normal(b)
  {
    CanonicalPrintsNormal(a);
    CanonicalPrintsNormal(b);
    CanonicalReadsBack(a);
    CanonicalReadsBack(b);
  }

  // Outside JSON the printer does collapse values: an array of one `undefined` is the empty array.
  lemma {:induction false} UndefinedElementCollides()
    ensures Canonical(Array([Undefined])) == Canonical(Array([])) == "[]"
    ensures Canonical(NonFinite) == Canonical(Null)
  {
    assert ItemTexts([Undefined]) == [""];
  }

  // ---------------------------------------------------------------------------
  // On JSON values, normal forms are equal exactly up to key order
  // ---------------------------------------------------------------------------

  lemma {:induction false} SameImpliesNormalEqual(a: Value, b: Value)
    requires WellFormed(a) && WellFormed(b) && IsJson(a) && IsJson(b)
    requires SameUpToKeyOrder(a, b)
    ensures Normal(a) == Normal(b)
    decreases a
  {
    match (a, b)
    case (Array(x), Array(y)) =>
      forall i | 0 <= i < |x| ensures Normal(x[i]) == Normal(y[i]) {
        SameImpliesNormalEqual(x[i], y[i]);
      }
      NoUndefinedItems(x);
      NoUndefinedItems(y);
      assert NormalItems(x) == NormalItems(y);
    case (Object(x), Object(y)) =>
      forall i, j | 0 <= i < |x| && 0 <= j < |y| && x[i].key == y[j].key
        ensures Normal(x[i].value) == Normal(y[j].value)
      {
        SameImpliesNormalEqual(x[i].value, y[j].value);
      }
      SameMembersSortEqually(x, y);
    case (_, _) =>
  }

  lemma {:induction false} NoUndefinedItems(items: seq<Value>)
    requires IsJson(Array(items))
    ensures items != [Undefined]
  {
    if items != [] {
      assert IsJson(items[0]);
    }
  }

  lemma {:induction false} SameMembersSortEqually(x: seq<Entry<Value>>, y: seq<Entry<Value>>)
    requires DistinctKeys(x) && DistinctKeys(y) && Keys(x) == Keys(y)
    requires forall i, j :: 0 <= i < |x| && 0 <= j < |y| && x[i].key == y[j].key ==>
      Normal(x[i].value) == Normal(y[j].value)
    ensures Sort(NormalMembers(x)) == Sort(NormalMembers(y))
  {
    var nx, ny := NormalMembers(x), NormalMembers(y);
    forall e ensures e in nx <==> e in ny {
      if e in nx {
        var i :| 0 <= i < |nx| && nx[i] == e;
        assert x[i].key in Keys(y);
        var j :| 0 <= j < |y| && x[i].key == y[j].key;
        assert ny[j] == e;
      }
      if e in ny {
        var j :| 0 <= j < |ny| && ny[j] == e;
        assert y[j].key in Keys(x);
        var i :| 0 <= i < |x| && x[i].key == y[j].key;
        assert nx[i] == e;
      }
    }
    SortDependsOnMembersOnly(nx, ny);
  }

  lemma {:induction false} SortDependsOnMembersOnly(x: seq<Entry<Value>>, y: seq<Entry<Value>>)
    requires DistinctKeys(x) && DistinctKeys(y)
    requires forall e :: e in x <==> e in y
    ensures Sort(x) == Sort(y)
  {
    SortMembers(x);
    SortMembers(y);
    SortAscending(x);
    SortAscending(y);
    AscendingUnique(Sort(x), Sort(y));
  }

  lemma {:induction false} NormalEqualImpliesSame(a: Value, b: Value)
    requires WellFormed(a) && WellFormed(b) && IsJson(a) && IsJson(b)
    requires Normal(a) == Normal(b)
    ensures SameUpToKeyOrder(a, b)
    decreases a
  {
    match (a, b)
    case (Array(x), Array(y)) =>
      NoUndefinedItems(x);
      NoUndefinedItems(y);
      forall i | 0 <= i < |x| ensures SameUpToKeyOrder(x[i], y[i]) {
        assert NormalItems(x)[i] == NormalItems(y)[i];
        NormalEqualImpliesSame(x[i], y[i]);
      }
    case (Object(x), Object(y)) =>
      EqualSortsHaveSameMembers(x, y);
      forall i, j | 0 <= i < |x| && 0 <= j < |y| && x[i].key == y[j].key
        ensures SameUpToKeyOrder(x[i].value, y[j].value)
      {
        NormalEqualImpliesSame(x[i].value, y[j].value);
      }
    case (_, _) =>
  }

  lemma {:induction false} EqualSortsHaveSameMembers(x: seq<Entry<Value>>, y: seq<Entry<Value>>)
    requires DistinctKeys(x) && DistinctKeys(y)
    requires Sort(NormalMembers(x)) == Sort(NormalMembers(y))
    ensures Keys(x) == Keys(y)
    ensures forall i, j :: 0 <= i < |x| && 0 <= j < |y| && x[i].key == y[j].key ==>
      Normal(x[i].value) == Normal(y[j].value)
  {
    MembersFound(x, y);
    MembersFound(y, x);
  }

  lemma {:induction false} MembersFound(x: seq<Entry<Value>>, y: seq<Entry<Value>>)
    requires DistinctKeys(y)
    requires Sort(NormalMembers(x)) == Sort(NormalMembers(y))
    ensures Keys(x) <= Keys(y)
    ensures forall i, j :: 0 <= i < |x| && 0 <= j < |y| && x[i].key == y[j].key ==>
      Normal(x[i].value) == Normal(y[j].value)
  {
    var nx, ny := NormalMembers(x), NormalMembers(y);
    forall i | 0 <= i < |x|
      ensures x[i].key in Keys(y)
      ensures forall j :: 0 <= j < |y| && x[i].key == y[j].key ==> Normal(x[i].value) == Normal(y[j].value)
    {
      assert nx[i] in ny by {
        SortMembers(nx);
        SortMembers(ny);
        assert nx[i] in Sort(nx);
      }
      var k :| 0 <= k < |ny| && ny[k] == nx[i];
      assert y[k].key == x[i].key;
    }
  }

  // Keys in ascending order of their code units, at every depth.
  ghost predicate KeysAscend(v: Value) {
    match v
    case Array(items) => forall i :: 0 <= i < |items| ==> KeysAscend(items[i])
    case Object(members) =>
      && (forall i, j :: 0 <= i < j < |members| ==> Smaller(CodeUnits(members[i].key), CodeUnits(members[j].key)))
      && forall i :: 0 <= i < |members| ==> KeysAscend(members[i].value)
    case _ => true
  }

  // A JSON value's canonical text reads as that value, its keys in ascending order.
  lemma {:induction false} CanonicalIsSortedText(v: Value)
    requires WellFormed(v) && IsJson(v)
    ensures
      var read := Parse(Canonical(v));
      read.Some? && SameUpToKeyOrder(read.value, v) && KeysAscend(read.value)
  {
    CanonicalReadsBack(v);
    NormalIsSorted(v);
  }

  lemma {:induction false} NormalIsSorted(v: Value)
    requires WellFormed(v) && IsJson(v)
    ensures SameUpToKeyOrder(Normal(v), v) && KeysAscend(Normal(v))
  {
    match v
    case Array(items) =>
      NoUndefinedItems(items);
      forall i | 0 <= i < |items| ensures SameUpToKeyOrder(Normal(items[i]), items[i]) && KeysAscend(Normal(items[i])) {
        NormalIsSorted(items[i]);
      }
    case Object(members) =>
      forall i | 0 <= i < |members|
        ensures SameUpToKeyOrder(Normal(members[i].value), members[i].value) && KeysAscend(Normal(members[i].value))
      {
        NormalIsSorted(members[i].value);
      }
      SortedMembers(members);
    case _ =>
  }

  lemma {:induction false} SortedMembers(members: seq<Entry<Value>>)
    requires DistinctKeys(members)
    requires forall i :: 0 <= i < |members| ==>
      SameUpToKeyOrder(Normal(members[i].value), members[i].value) && KeysAscend(Normal(members[i].value))
    ensures SameUpToKeyOrder(Normal(Object(members)), Object(members)) && KeysAscend(Normal(Object(members)))
  {
    var sorted := Sort(NormalMembers(members));
    assert Normal(Object(members)) == Object(sorted);
    SortAscending(NormalMembers(members));
    SortedKeys(members);
    hide Sort;
    hide Normal;
    hide Less;
    hide NormalMembers;
    hide Smaller;
    forall i | 0 <= i < |sorted|
      ensures exists k :: 0 <= k < |members| && sorted[i] == Entry(members[k].key, Normal(members[k].value))
    {
      SortedEntry(members, i);
    }
    forall i, j | 0 <= i < j < |sorted| ensures Smaller(CodeUnits(sorted[i].key), CodeUnits(sorted[j].key)) {
      LessIffSmallerUnits(sorted[i].key, sorted[j].key);
    }
  }

  lemma {:induction false} SortedEntry(members: seq<Entry<Value>>, i: nat)
    requires i < |Sort(NormalMembers(members))|
    ensures
      var e := Sort(NormalMembers(members))[i];
      exists k :: 0 <= k < |members| && e == Entry(members[k].key, Normal(members[k].value))
  {
    SortMembers(NormalMembers(members));
    assert Sort(NormalMembers(members))[i] in NormalMembers(members);
  }

  lemma {:induction false} SortedKeys(members: seq<Entry<Value>>)
    ensures Keys(Sort(NormalMembers(members))) == Keys(members)
  {
    var sorted := Sort(NormalMembers(members));
    SortMembers(NormalMembers(members));
    hide Sort;
    hide Normal;
    forall i | 0 <= i < |sorted| ensures sorted[i].key in Keys(members) {
      assert sorted[i] in NormalMembers(members);
    }
    forall j | 0 <= j < |members| ensures members[j].key in Keys(sorted) {
      assert NormalMembers(members)[j] in sorted;
    }
  }

  // The printer's law: equal texts exactly when the values are equal up to key order.
  lemma {:induction false} CanonicalEqualIffSame(a: Value, b: Value)
    requires WellFormed(a) && WellFormed(b) && IsJson(a) && IsJson(b)
    ensures Canonical(a) == Canonical(b) <==> SameUpToKeyOrder(a, b)
  {
    CanonicalEqualIffNormalEqual(a, b);
    if SameUpToKeyOrder(a, b) {
      SameImpliesNormalEqual(a, b);
    }
    if Normal(a) == Normal(b) {
      NormalEqualImpliesSame(a, b);
    }
  }

  // ---------------------------------------------------------------------------
  // Round trip through a JSONB column
  // ---------------------------------------------------------------------------

  // What the column holds: members with an undefined value are dropped, undefined elements
  // and non-finite numbers become null. PostgreSQL then picks its own key order.
  function Stored(v: Value): (r: Value)
    ensures r != Undefined
  {
    match v
    case Undefined => Null
    case NonFinite => Null
    case Array(items) => Array(StoredItems(items))
    case Object(members) => Object(StoredMembers(members))
    case _ => v
  }

  function StoredItems(items: seq<Value>): (r: seq<Value>)
    ensures |r| == |items|
    ensures forall i :: 0 <= i < |r| ==> r[i] == Stored(items[i])
  {
    if items == [] then [] else [Stored(items[0])] + StoredItems(items[1..])
  }

  function StoredMembers(members: seq<Entry<Value>>): seq<Entry<Value>> {
    if members == [] then []
    else if members[0].value == Undefined then StoredMembers(members[1..])
    else [Entry(members[0].key, Stored(members[0].value))] + StoredMembers(members[1..])
  }

  // No `undefined` at any depth.
  ghost predicate Defined(v: Value) {
    match v
    case Undefined => false
    case Array(items) => forall i :: 0 <= i < |items| ==> Defined(items[i])
    case Object(members) => forall i :: 0 <= i < |members| ==> Defined(members[i].value)
    case _ => true
  }

  lemma {:induction false} StoredMembersShape(members: seq<Entry<Value>>)
    ensures |StoredMembers(members)| <= |members|
    ensures forall e :: e in StoredMembers(members) ==>
      exists i :: 0 <= i < |members| && members[i].value != Undefined
        && e == Entry(members[i].key, Stored(members[i].value))
    ensures (forall i :: 0 <= i < |members| ==> members[i].value != Undefined) <==>
      |StoredMembers(members)| == |members|
    ensures |StoredMembers(members)| == |members| ==>
      forall i :: 0 <= i < |members| ==> StoredMembers(members)[i] == Entry(members[i].key, Stored(members[i].value))
  {
    if members != [] {
      StoredMembersShape(members[1..]);
      assert members == [members[0]] + members[1..];
      assert forall i :: 0 < i < |members| ==> members[i] == members[1..][i - 1];
    }
  }

  lemma {:induction false} StoredDistinct(members: seq<Entry<Value>>)
    requires DistinctKeys(members)
    ensures DistinctKeys(StoredMembers(members))
  {
    if members != [] {
      StoredDistinct(members[1..]);
      StoredMembersShape(members[1..]);
      var rest := StoredMembers(members[1..]);
      forall j | 0 <= j < |rest| ensures rest[j].key != members[0].key {
        assert rest[j] in rest;
      }
    }
  }

  lemma {:induction false} StoredIsJson(v: Value)
    requires WellFormed(v)
    ensures WellFormed(Stored(v)) && IsJson(Stored(v))
  {
    match v
    case Array(items) =>
      forall i | 0 <= i < |items| ensures WellFormed(Stored(items[i])) && IsJson(Stored(items[i])) {
        StoredIsJson(items[i]);
      }
    case Object(members) =>
      StoredDistinct(members);
      StoredMembersShape(members);
      var kept := StoredMembers(members);
      forall j | 0 <= j < |kept| ensures WellFormed(kept[j].value) && IsJson(kept[j].value) {
        assert kept[j] in kept;
        var i :| 0 <= i < |members| && kept[j] == Entry(members[i].key, Stored(members[i].value));
        StoredIsJson(members[i].value);
      }
    case _ =>
  }

  lemma {:induction false} DefinedIsKept(v: Value)
    requires WellFormed(v) && Defined(v)
    ensures Normal(Stored(v)) == Normal(v)
  {
    match v
    case Array(items) =>
      forall i | 0 <= i < |items| ensures Normal(Stored(items[i])) == Normal(items[i]) {
        DefinedIsKept(items[i]);
      }
      assert forall i :: 0 <= i < |items| ==> items[i] != Undefined && StoredItems(items)[i] != Undefined;
      assert NormalItems(StoredItems(items)) == NormalItems(items);
    case Object(members) =>
      StoredMembersShape(members);
      forall i | 0 <= i < |members| ensures Normal(Stored(members[i].value)) == Normal(members[i].value) {
        DefinedIsKept(members[i].value);
      }
      assert NormalMembers(StoredMembers(members)) == NormalMembers(members);
    case _ =>
  }

  lemma {:induction false} KeptIsDefined(v: Value)
    requires WellFormed(v)
    requires Normal(Stored(v)) == Normal(v)
    ensures Defined(v)
  {
    match v
    case Array(items) =>
      KeptItems(items);
      forall i | 0 <= i < |items| ensures Defined(items[i]) {
        KeptIsDefined(items[i]);
      }
    case Object(members) =>
      KeptMembers(members);
      forall i | 0 <= i < |members| ensures Defined(members[i].value) {
        KeptIsDefined(members[i].value);
      }
    case _ =>
  }

  lemma {:induction false} KeptItems(items: seq<Value>)
    requires Normal(Stored(Array(items))) == Normal(Array(items))
    ensures forall i :: 0 <= i < |items| ==> Normal(Stored(items[i])) == Normal(items[i])
  {
    var kept := StoredItems(items);
    assert forall i :: 0 <= i < |kept| ==> kept[i] != Undefined;
    assert items != [Undefined] by {
      assert |NormalItems(kept)| == |items|;
    }
    forall i | 0 <= i < |items| ensures Normal(Stored(items[i])) == Normal(items[i]) {
      assert NormalItems(kept)[i] == NormalItems(items)[i];
    }
  }

  lemma {:induction false} KeptMembers(members: seq<Entry<Value>>)
    requires WellFormed(Object(members))
    requires Normal(Stored(Object(members))) == Normal(Object(members))
    ensures forall i :: 0 <= i < |members| ==> Normal(Stored(members[i].value)) == Normal(members[i].value)
  {
    var kept := StoredMembers(members);
    var nk, nm := NormalMembers(kept), NormalMembers(members);
    SortMembers(nk);
    SortMembers(nm);
    StoredMembersShape(members);
    assert |kept| == |members|;
    assert Sort(nk) == Sort(nm);
    assert forall i :: 0 <= i < |members| ==> kept[i] == Entry(members[i].key, Stored(members[i].value));
    hide Sort;
    hide Stored;
    hide StoredMembers;
    hide Normal;
    hide WellFormed;
    forall i | 0 <= i < |members| ensures nk[i] == nm[i] {
      assert nk[i] in Sort(nk) && nk[i] in nm;
      var j :| 0 <= j < |nm| && nm[j] == nk[i];
      assert members[j].key == members[i].key;
    }
  }

  // The hash input is stable across the column exactly when no `undefined` is hidden in it,
  // whatever key order the database returns.
  lemma {:induction false} RoundTripStableIffDefined(v: Value, read: Value)
    requires WellFormed(v) && WellFormed(read) && IsJson(read)
    requires SameUpToKeyOrder(read, Stored(v))
    ensures Canonical(read) == Canonical(v) <==> Defined(v)
  {
    StoredIsJson(v);
    CanonicalEqualIffSame(read, Stored(v));
    CanonicalEqualIffNormalEqual(Stored(v), v);
    if Defined(v) {
      DefinedIsKept(v);
    }
    if Normal(Stored(v)) == Normal(v) {
      KeptIsDefined(v);
    }
  }
}
