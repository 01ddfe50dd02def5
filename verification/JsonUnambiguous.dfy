/** Unique decoding: a printed text determines its value and where it ends. */
module JsonUnambiguous {
  import opened Options
  import opened Strings
  import opened KeySort
  import opened CanonicalJson
  import opened JsonReader

  lemma {:induction false} NormalIsPlain(v: Value)
    requires WellFormed(v)
    ensures Plain(Normal(v))
  {
    match v
    case Array(items) =>
      forall i | 0 <= i < |items| ensures Plain(Normal(items[i])) {
        NormalIsPlain(items[i]);
      }
      if NormalItems(items) == [Undefined] {
        assert items == [Undefined] by {
          assert Normal(items[0]) == Undefined;
        }
      }
    case Object(members) =>
      var ns := NormalMembers(members);
      forall i | 0 <= i < |members| ensures Plain(ns[i].value) {
        NormalIsPlain(members[i].value);
      }
      SortMembers(ns);
      var sorted := Sort(ns);
      forall i | 0 <= i < |sorted| ensures Plain(sorted[i].value) {
        assert sorted[i] in ns;
      }
    case _ =>
  }

  // Whatever the value, its canonical text is read back as its normal form.
  lemma {:induction false} CanonicalReadsBack(v: Value)
    requires WellFormed(v)
    ensures Parse(Canonical(v)) == Some(Normal(v))
  {
    CanonicalPrintsNormal(v);
    NormalIsPlain(v);
    PrintedReads(Normal(v));
  }

  lemma {:induction false} PrintedReads(v: Value)
    requires Plain(v)
    ensures Parse(Print(v)) == Some(v)
  {
    PrintReads(v, "");
    assert Print(v) + "" == Print(v);
  }

  lemma {:induction false} PrintUnique(a: Value, b: Value, s: string, t: string)
    requires Plain(a) && Plain(b) && Delimited(s) && Delimited(t)
    requires Print(a) + s == Print(b) + t
    ensures a == b && s == t
  {
    PrintReads(a, s);
    PrintReads(b, t);
  }
}
