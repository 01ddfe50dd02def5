/** The hash-chained audit log: what a row's hash commits to, and how appended rows link up. */
module AuditChain {
  import opened Strings
  import opened KeySort
  import opened CanonicalJson
  import opened Options
  import opened JsonReader
  import opened JsonUnambiguous
  import opened JsonEquality

  datatype Payload = Payload(
    actorId: string,
    action: string,
    entityType: string,
    entityId: string,
    before: Value,
    after: Value,
    ts: string)

  // ---------------------------------------------------------------------------
  // Hash input
  // ---------------------------------------------------------------------------

  // The template of the hash input: seven fields in this order.
  function Body(p: Payload): string {
    "{" + Join([
      Field("actor_id", Quote(p.actorId)),
      Field("action", Quote(p.action)),
      Field("entity_type", Quote(p.entityType)),
      Field("entity_id", Quote(p.entityId)),
      Field("before", Canonical(p.before)),
      Field("after", Canonical(p.after)),
      Field("ts", Quote(p.ts))], ",") + "}"
  }

  function Field(name: string, text: string): string {
    "\"" + name + "\":" + text
  }

  function Preimage(prevHash: string, p: Payload): string {
    prevHash + Body(p)
  }

  // A hexadecimal digest holds no brace, which is all the framing relies on.
  predicate BraceFree(s: string) {
    forall i :: 0 <= i < |s| ==> s[i] != '{'
  }

  ghost predicate JsonPayload(p: Payload) {
    WellFormed(p.before) && WellFormed(p.after) && IsJson(p.before) && IsJson(p.after)
  }

  ghost predicate SamePayload(p: Payload, q: Payload) {
    && p.actorId == q.actorId && p.action == q.action
    && p.entityType == q.entityType && p.entityId == q.entityId && p.ts == q.ts
    && SameUpToKeyOrder(p.before, q.before) && SameUpToKeyOrder(p.after, q.after)
  }

  // The object a hash input spells out.
  function PayloadObject(p: Payload): Value {
    Object([
      Entry("actor_id", Str(p.actorId)),
      Entry("action", Str(p.action)),
      Entry("entity_type", Str(p.entityType)),
      Entry("entity_id", Str(p.entityId)),
      Entry("before", Normal(p.before)),
      Entry("after", Normal(p.after)),
      Entry("ts", Str(p.ts))])
  }

  predicate NeedsNoEscape(s: string) {
    forall i :: 0 <= i < |s| ==> s[i] >= ' ' && s[i] != '"' && s[i] != '\\'
  }

  lemma {:induction false} EscapeLeavesPlain(s: string)
    requires NeedsNoEscape(s)
    ensures Escape(s) == s
  {
    if s != "" {
      EscapeLeavesPlain(s[1..]);
      assert EscapeChar(s[0]) == [s[0]];
      assert s == [s[0]] + s[1..];
    }
  }

  lemma {:induction false} MemberTextAt(members: seq<Entry<Value>>, i: nat)
    requires i < |members| && NeedsNoEscape(members[i].key)
    ensures |MemberTexts(PrintValues(members))| == |members|
    ensures MemberTexts(PrintValues(members))[i] == Field(members[i].key, Print(members[i].value))
  {
    MemberTextsLength(members);
    if i > 0 {
      MemberTextAt(members[1..], i - 1);
      hide Print;
      assert PrintValues(members)[1..] == PrintValues(members[1..]);
    } else {
      EscapeLeavesPlain(members[0].key);
      hide Print;
      assert PrintValues(members)[0] == Entry(members[0].key, Print(members[0].value));
    }
  }

  lemma {:induction false} MemberTextsLength(members: seq<Entry<Value>>)
    ensures |MemberTexts(PrintValues(members))| == |members| == |PrintValues(members)|
  {
    if members != [] {
      MemberTextsLength(members[1..]);
      hide Print;
      assert PrintValues(members)[1..] == PrintValues(members[1..]);
    }
  }

  lemma {:induction false} NamesNeedNoEscape()
    ensures NeedsNoEscape("actor_id") && NeedsNoEscape("action") && NeedsNoEscape("entity_type")
    ensures NeedsNoEscape("entity_id") && NeedsNoEscape("before") && NeedsNoEscape("after") && NeedsNoEscape("ts")
  {
  }

  // The printed object of seven members, whatever their names.
  lemma {:induction false} SevenMembers(names: seq<string>, values: seq<Value>, members: seq<Entry<Value>>)
    requires |names| == |values| == |members| == 7
    requires forall i :: 0 <= i < 7 ==> NeedsNoEscape(names[i]) && members[i] == Entry(names[i], values[i])
    ensures Print(Object(members)) == "{" + Join([
      Field(names[0], Print(values[0])), Field(names[1], Print(values[1])), Field(names[2], Print(values[2])),
      Field(names[3], Print(values[3])), Field(names[4], Print(values[4])), Field(names[5], Print(values[5])),
      Field(names[6], Print(values[6]))], ",") + "}"
  {
    var texts := MemberTexts(PrintValues(members));
    assert Print(Object(members)) == "{" + Join(texts, ",") + "}";
    hide *;
    MemberTextAt(members, 0);
    MemberTextAt(members, 1);
    MemberTextAt(members, 2);
    MemberTextAt(members, 3);
    MemberTextAt(members, 4);
    MemberTextAt(members, 5);
    MemberTextAt(members, 6);
    assert texts == [
      Field(names[0], Print(values[0])), Field(names[1], Print(values[1])), Field(names[2], Print(values[2])),
      Field(names[3], Print(values[3])), Field(names[4], Print(values[4])), Field(names[5], Print(values[5])),
      Field(names[6], Print(values[6]))];
  }

  lemma {:induction false} StrIsQuoted(text: string)
    ensures Print(Str(text)) == Quote(text)
  {
  }

  lemma {:induction false} BodyIsPrinted(p: Payload)
    ensures Body(p) == Print(PayloadObject(p))
  {
    hide Print;
    hide Join;
    hide NeedsNoEscape;
    hide Canonical;
    hide Normal;
    hide Field;
    hide Quote;
    CanonicalPrintsNormal(p.before);
    CanonicalPrintsNormal(p.after);
    StrIsQuoted(p.actorId);
    StrIsQuoted(p.action);
    StrIsQuoted(p.entityType);
    StrIsQuoted(p.entityId);
    StrIsQuoted(p.ts);
    NamesNeedNoEscape();
    var names := ["actor_id", "action", "entity_type", "entity_id", "before", "after", "ts"];
    var values := [Str(p.actorId), Str(p.action), Str(p.entityType), Str(p.entityId),
                   Normal(p.before), Normal(p.after), Str(p.ts)];
    SevenMembers(names, values, PayloadObject(p).members);
  }

  lemma {:induction false} PayloadObjectIsPlain(p: Payload)
    requires WellFormed(p.before) && WellFormed(p.after)
    ensures Plain(PayloadObject(p))
  {
    NormalIsPlain(p.before);
    NormalIsPlain(p.after);
    hide Normal;
  }

  // Read as JSON, the hash input is the payload under its seven names.
  lemma {:induction false} BodyReadsBack(p: Payload)
    requires WellFormed(p.before) && WellFormed(p.after)
    ensures Parse(Body(p)) == Some(PayloadObject(p))
  {
    hide *;
    BodyIsPrinted(p);
    PayloadObjectIsPlain(p);
    PrintedReads(PayloadObject(p));
  }

  lemma {:induction false} PrefixLength(a: string, b: string, s: string, t: string)
    requires BraceFree(b) && s != "" && s[0] == '{' && |a| < |b|
    ensures a + s != b + t
  {
    assert (a + s)[|a|] == s[0];
  }

  lemma {:induction false} PrefixUnique(a: string, b: string, s: string, t: string)
    requires BraceFree(a) && BraceFree(b)
    requires s != "" && t != "" && s[0] == '{' == t[0]
    requires a + s == b + t
    ensures a == b && s == t
  {
    if |a| < |b| {
      PrefixLength(a, b, s, t);
    } else if |b| < |a| {
      PrefixLength(b, a, t, s);
    }
    assert (a + s)[..|a|] == a && (b + t)[..|b|] == b && (a + s)[|a|..] == s && (b + t)[|b|..] == t;
  }

  lemma {:induction false} SameFields(p: Payload, q: Payload)
    requires PayloadObject(p) == PayloadObject(q)
    ensures p.actorId == q.actorId && p.action == q.action && p.entityType == q.entityType && p.entityId == q.entityId
    ensures Normal(p.before) == Normal(q.before) && Normal(p.after) == Normal(q.after) && p.ts == q.ts
  {
    var x, y := PayloadObject(p).members, PayloadObject(q).members;
    hide Normal;
    assert x[0] == y[0] && x[1] == y[1] && x[2] == y[2] && x[3] == y[3] && x[4] == y[4] && x[5] == y[5] && x[6] == y[6];
  }

  // A hash input commits to the previous hash and to every payload field, and to nothing else.
  lemma {:induction false} PreimageEqualIffSame(prev1: string, p: Payload, prev2: string, q: Payload)
    requires BraceFree(prev1) && BraceFree(prev2) && JsonPayload(p) && JsonPayload(q)
    ensures Preimage(prev1, p) == Preimage(prev2, q) <==> prev1 == prev2 && SamePayload(p, q)
  {
    CanonicalEqualIffSame(p.before, q.before);
    CanonicalEqualIffSame(p.after, q.after);
    if Preimage(prev1, p) == Preimage(prev2, q) {
      PrefixUnique(prev1, prev2, Body(p), Body(q));
      BodyReadsBack(p);
      BodyReadsBack(q);
      SameFields(p, q);
      CanonicalEqualIffNormalEqual(p.before, q.before);
      CanonicalEqualIffNormalEqual(p.after, q.after);
    }
  }

  // Re-reading a row recomputes its hash input exactly when neither JSON column hid an `undefined`.
  lemma {:induction false} RereadRowMatchesIffDefined(prev: string, p: Payload, before: Value, after: Value)
    requires BraceFree(prev)
    requires WellFormed(p.before) && WellFormed(p.after)
    requires WellFormed(before) && IsJson(before) && SameUpToKeyOrder(before, Stored(p.before))
    requires WellFormed(after) && IsJson(after) && SameUpToKeyOrder(after, Stored(p.after))
    ensures Preimage(prev, p.(before := before, after := after)) == Preimage(prev, p)
            <==> Defined(p.before) && Defined(p.after)
  {
    var q := p.(before := before, after := after);
    RoundTripStableIffDefined(p.before, before);
    RoundTripStableIffDefined(p.after, after);
    CanonicalEqualIffNormalEqual(before, p.before);
    CanonicalEqualIffNormalEqual(after, p.after);
    if Preimage(prev, q) == Preimage(prev, p) {
      assert Body(q) == (prev + Body(q))[|prev|..] && Body(p) == (prev + Body(p))[|prev|..];
      BodyReadsBack(p);
      BodyReadsBack(q);
      SameFields(q, p);
    }
  }

  // ---------------------------------------------------------------------------
  // The appender
  // ---------------------------------------------------------------------------

  const GENESIS_HASH := Zeros(64)

  function Zeros(n: nat): string {
    if n == 0 then "" else "0" + Zeros(n - 1)
  }

  lemma {:induction false} ZerosAreBraceFree(n: nat)
    ensures BraceFree(Zeros(n))
  {
    if n > 0 {
      ZerosAreBraceFree(n - 1);
    }
  }

  datatype Row = Row(id: string, payload: Payload, prevHash: string, hash: string)

  // The digest and the reading of an ISO timestamp are left uninterpreted.
  datatype Platform = Platform(digest: string -> string, instant: string -> int)

  // The index order of `ORDER BY ts, id`.
  predicate Earlier(env: Platform, a: Row, b: Row) {
    var s, t := env.instant(a.payload.ts), env.instant(b.payload.ts);
    s < t || (s == t && Less(a.id, b.id))
  }

  function Latest(env: Platform, rows: seq<Row>): Row
    requires rows != []
  {
    if |rows| == 1 then rows[0]
    else
      var rest := Latest(env, rows[1..]);
      if Earlier(env, rest, rows[0]) then rows[0] else rest
  }

  function PreviousHash(env: Platform, rows: seq<Row>): string {
    if rows == [] then GENESIS_HASH else Latest(env, rows).hash
  }

  function NewRow(env: Platform, rows: seq<Row>, id: string, payload: Payload): Row {
    var prev := PreviousHash(env, rows);
    Row(id, payload, prev, env.digest(Preimage(prev, payload)))
  }

  datatype Event = Event(id: string, payload: Payload)

  // The table after a run of inserts; an insert that repeats a primary key rolls back.
  function Run(env: Platform, events: seq<Event>): seq<Row> {
    if events == [] then []
    else
      var rows, e := Run(env, events[..|events| - 1]), events[|events| - 1];
      if exists r :: r in rows && r.id == e.id then rows else rows + [NewRow(env, rows, e.id, e.payload)]
  }

  lemma {:induction false} RunStep(env: Platform, events: seq<Event>, e: Event)
    ensures
      var rows := Run(env, events);
      Run(env, events + [e]) ==
      if exists r :: r in rows && r.id == e.id then rows else rows + [NewRow(env, rows, e.id, e.payload)]
  {
    assert (events + [e])[..|events|] == events;
  }

  // What the similarity query records about itself.
  function SimilarityQuery(actorId: string, tenantId: string, topK: string, ts: string): Payload {
    Payload(actorId, "corpus_chunk.similarity_query", "corpus_chunk", tenantId, Null,
            Object([Entry("top_k", Number(topK)), Entry("tenant_id", Str(tenantId))]), ts)
  }

  // The columns of an inserted row, one by one.
  ghost predicate Describes(r: Row, id: string, actorId: string, tenantId: string, topK: string, ts: string) {
    && r.id == id && r.payload.actorId == actorId && r.payload.ts == ts
    && r.payload.action == "corpus_chunk.similarity_query"
    && r.payload.entityType == "corpus_chunk" && r.payload.entityId == tenantId
    && r.payload.before == Null
    && r.payload.after == Object([Entry("top_k", Number(topK)), Entry("tenant_id", Str(tenantId))])
  }

  // Sixty-four zeros on an empty table, else the hash of a row that no row has a later instant than,
  // nor the same instant and a greater id.
  ghost predicate NamesLatestOf(env: Platform, rows: seq<Row>, hash: string) {
    if rows == [] then |hash| == 64 && forall i :: 0 <= i < 64 ==> hash[i] == '0'
    else exists p :: p in rows && p.hash == hash && NoneLater(env, rows, p)
  }

  ghost predicate NoneLater(env: Platform, rows: seq<Row>, p: Row) {
    forall q :: q in rows ==>
      env.instant(q.payload.ts) < env.instant(p.payload.ts)
      || (env.instant(q.payload.ts) == env.instant(p.payload.ts)
          && (q.id == p.id || Smaller(CodeUnits(q.id), CodeUnits(p.id))))
  }

  lemma {:induction false} ZerosAreZeros(n: nat)
    ensures |Zeros(n)| == n && forall i :: 0 <= i < n ==> Zeros(n)[i] == '0'
  {
    if n > 0 {
      ZerosAreZeros(n - 1);
    }
  }

  lemma {:induction false} PreviousHashNamesLatest(env: Platform, rows: seq<Row>)
    ensures NamesLatestOf(env, rows, PreviousHash(env, rows))
  {
    if rows == [] {
      ZerosAreZeros(64);
    } else {
      LatestIsMaximal(env, rows);
      var p := Latest(env, rows);
      forall q | q in rows
        ensures Less(q.id, p.id) <==> Smaller(CodeUnits(q.id), CodeUnits(p.id))
        ensures q.id == p.id || Less(q.id, p.id) || Less(p.id, q.id)
      {
        LessIffSmallerUnits(q.id, p.id);
        LessTotal(q.id, p.id);
      }
      assert NoneLater(env, rows, p);
    }
  }

  class AuditLog {
    const env: Platform
    var rows: seq<Row>

    constructor (env: Platform)
      ensures this.env == env && rows == Run(env, [])
    {
      this.env := env;
      rows := [];
    }

    // One serialisable transaction: read the latest row, hash, insert.
    method WriteAuditEvent(id: string, actorId: string, tenantId: string, topK: string, ts: string,
                           ghost events: seq<Event>) returns (committed: bool)
      requires rows == Run(env, events)
      modifies this`rows
      ensures rows == Run(env, events + [Event(id, SimilarityQuery(actorId, tenantId, topK, ts))])
      ensures committed <==> forall r :: r in old(rows) ==> r.id != id
      ensures !committed ==> rows == old(rows)
      ensures committed ==> |rows| == |old(rows)| + 1 && rows[..|old(rows)|] == old(rows)
      ensures committed ==> Describes(rows[|old(rows)|], id, actorId, tenantId, topK, ts)
      ensures committed ==>
        rows[|old(rows)|].hash == env.digest(rows[|old(rows)|].prevHash + Body(rows[|old(rows)|].payload))
      ensures committed ==> NamesLatestOf(env, old(rows), rows[|old(rows)|].prevHash)
    {
      PreviousHashNamesLatest(env, rows);
      var prevHash := PreviousHash(env, rows);
      var payload := SimilarityQuery(actorId, tenantId, topK, ts);
      var hash := env.digest(Preimage(prevHash, payload));
      RunStep(env, events, Event(id, payload));
      committed := forall r :: r in rows ==> r.id != id;
      if committed {
        rows := rows + [Row(id, payload, prevHash, hash)];
      }
    }
  }

  // ---------------------------------------------------------------------------
  // Linking
  // ---------------------------------------------------------------------------

  // What every insert records, whatever the timestamps.
  ghost predicate Recorded(env: Platform, rows: seq<Row>) {
    && (forall i :: 0 <= i < |rows| ==> rows[i] == NewRow(env, rows[..i], rows[i].id, rows[i].payload))
    && (forall i, j :: 0 <= i < j < |rows| ==> rows[i].id != rows[j].id)
  }

  lemma {:induction false} RunIsRecorded(env: Platform, events: seq<Event>)
    ensures Recorded(env, Run(env, events))
  {
    if events != [] {
      var before, rows := Run(env, events[..|events| - 1]), Run(env, events);
      RunIsRecorded(env, events[..|events| - 1]);
      forall i | 0 <= i < |rows| ensures rows[i] == NewRow(env, rows[..i], rows[i].id, rows[i].payload) {
        assert rows[..i] == before[..i];
        assert before == before[..|before|];
      }
    }
  }

  ghost predicate InsertedInTimeOrder(env: Platform, rows: seq<Row>) {
    forall i, j :: 0 <= i < j < |rows| ==> Earlier(env, rows[i], rows[j])
  }

  // `p` is the row just before `r` when the table is listed by (ts, id).
  ghost predicate JustBefore(env: Platform, rows: seq<Row>, p: Row, r: Row) {
    p in rows && Earlier(env, p, r) && forall q :: q in rows && Earlier(env, q, r) ==> q == p || Earlier(env, q, p)
  }

  // Listed by (ts, id), the rows form one chain from the genesis hash.
  ghost predicate LinkedByTime(env: Platform, rows: seq<Row>) {
    && (forall r :: r in rows && (forall q :: q in rows ==> !Earlier(env, q, r)) ==> r.prevHash == GENESIS_HASH)
    && (forall p, r :: r in rows && JustBefore(env, rows, p, r) ==> r.prevHash == p.hash)
  }

  ghost predicate DistinctHashes(rows: seq<Row>) {
    && (forall i :: 0 <= i < |rows| ==> rows[i].hash != GENESIS_HASH)
    && (forall i, j :: 0 <= i < j < |rows| ==> rows[i].hash != rows[j].hash)
  }

  lemma {:induction false} EarlierIsStrictOrder(env: Platform, a: Row, b: Row, c: Row)
    ensures !Earlier(env, a, a)
    ensures Earlier(env, a, b) && Earlier(env, b, c) ==> Earlier(env, a, c)
    ensures a.id != b.id ==> Earlier(env, a, b) || Earlier(env, b, a)
  {
    LessIrreflexive(a.id);
    LessTotal(a.id, b.id);
    if Less(a.id, b.id) && Less(b.id, c.id) {
      LessTransitive(a.id, b.id, c.id);
    }
  }

  lemma {:induction false} LatestIsMaximal(env: Platform, rows: seq<Row>)
    requires rows != []
    ensures Latest(env, rows) in rows
    ensures forall r :: r in rows ==> !Earlier(env, Latest(env, rows), r)
  {
    if |rows| > 1 {
      LatestIsMaximal(env, rows[1..]);
      var rest := Latest(env, rows[1..]);
      assert rows == [rows[0]] + rows[1..];
      forall r | r in rows ensures !Earlier(env, Latest(env, rows), r) {
        EarlierIsStrictOrder(env, rest, rows[0], r);
        EarlierIsStrictOrder(env, rows[0], r, r);
      }
    } else {
      EarlierIsStrictOrder(env, rows[0], rows[0], rows[0]);
    }
  }

  // Among the rows earlier than `r` there is a last one.
  lemma {:induction false} PredecessorExists(env: Platform, rows: seq<Row>, r: Row, q: Row) returns (p: Row)
    requires q in rows && Earlier(env, q, r)
    requires forall i, j :: 0 <= i < j < |rows| ==> rows[i].id != rows[j].id
    ensures JustBefore(env, rows, p, r)
    decreases |rows|
  {
    var rest := rows[1..];
    assert rows == [rows[0]] + rest;
    if candidate :| candidate in rest && Earlier(env, candidate, r) {
      p := PredecessorExists(env, rest, r, candidate);
      var k :| 0 <= k < |rest| && rest[k] == p;
      assert rows[k + 1] == p;
      EarlierIsStrictOrder(env, rows[0], p, r);
      if Earlier(env, rows[0], r) && Earlier(env, p, rows[0]) {
        forall x | x in rows && Earlier(env, x, r) ensures x == rows[0] || Earlier(env, x, rows[0]) {
          EarlierIsStrictOrder(env, x, p, rows[0]);
        }
        p := rows[0];
      }
    } else {
      p := q;
    }
  }

  lemma {:induction false} InOrderFollows(env: Platform, rows: seq<Row>)
    requires Recorded(env, rows) && InsertedInTimeOrder(env, rows)
    ensures forall i :: 0 <= i < |rows| ==> Follows(rows, i)
  {
    forall i | 0 <= i < |rows| ensures Follows(rows, i) {
      if i > 0 {
        LatestIsLast(env, rows, i);
      }
    }
  }

  ghost predicate Follows(rows: seq<Row>, i: nat)
    requires i < |rows|
  {
    rows[i].prevHash == if i == 0 then GENESIS_HASH else rows[i - 1].hash
  }

  lemma {:induction false} InOrderLinks(env: Platform, rows: seq<Row>)
    requires InsertedInTimeOrder(env, rows)
    requires forall i :: 0 <= i < |rows| ==> Follows(rows, i)
    ensures LinkedByTime(env, rows)
  {
    forall r | r in rows && (forall q :: q in rows ==> !Earlier(env, q, r)) ensures r.prevHash == GENESIS_HASH {
      FirstFollowsGenesis(env, rows, r);
    }
    forall p, r | r in rows && JustBefore(env, rows, p, r) ensures r.prevHash == p.hash {
      NextFollows(env, rows, p, r);
    }
  }

  lemma {:induction false} FirstFollowsGenesis(env: Platform, rows: seq<Row>, r: Row)
    requires InsertedInTimeOrder(env, rows)
    requires forall i :: 0 <= i < |rows| ==> Follows(rows, i)
    requires r in rows && forall q :: q in rows ==> !Earlier(env, q, r)
    ensures r.prevHash == GENESIS_HASH
  {
    hide Earlier;
    var i :| 0 <= i < |rows| && rows[i] == r;
    assert rows[0] in rows;
    assert i == 0;
    assert Follows(rows, i);
  }

  lemma {:induction false} NextFollows(env: Platform, rows: seq<Row>, p: Row, r: Row)
    requires InsertedInTimeOrder(env, rows)
    requires forall i :: 0 <= i < |rows| ==> Follows(rows, i)
    requires r in rows && JustBefore(env, rows, p, r)
    ensures r.prevHash == p.hash
  {
    hide Earlier;
    var i :| 0 <= i < |rows| && rows[i] == r;
    var k :| 0 <= k < |rows| && rows[k] == p;
    EarlierIsStrictOrder(env, p, r, p);
    assert k < i;
    var last := rows[i - 1];
    assert last in rows && Earlier(env, last, r);
    EarlierIsStrictOrder(env, p, last, p);
    assert k < i - 1 ==> Earlier(env, p, last);
    assert Follows(rows, i);
  }

  lemma {:induction false} LatestIsLast(env: Platform, rows: seq<Row>, i: nat)
    requires 0 < i <= |rows| && InsertedInTimeOrder(env, rows)
    ensures Latest(env, rows[..i]) == rows[i - 1]
  {
    var prefix := rows[..i];
    LatestIsMaximal(env, prefix);
    var k :| 0 <= k < |prefix| && prefix[k] == Latest(env, prefix);
    assert rows[i - 1] in prefix by {
      assert prefix[i - 1] == rows[i - 1];
    }
    assert forall l :: 0 <= l < i - 1 ==> Earlier(env, rows[l], rows[i - 1]);
  }

  // Every row after the first names an earlier-inserted row, and no such row lies after that one.
  lemma {:induction false} NamesLatest(env: Platform, rows: seq<Row>, j: nat) returns (k: nat)
    requires Recorded(env, rows) && 0 < j < |rows|
    ensures k < j && rows[j].prevHash == rows[k].hash
    ensures forall i :: 0 <= i < j ==> !Earlier(env, rows[k], rows[i])
  {
    hide Earlier;
    var seen := rows[..j];
    LatestIsMaximal(env, seen);
    k :| 0 <= k < |seen| && seen[k] == Latest(env, seen);
    assert forall i :: 0 <= i < j ==> rows[i] == seen[i] && seen[i] in seen;
    assert rows[j] == NewRow(env, seen, rows[j].id, rows[j].payload);
  }

  // In a linked log the row a row names is the one just before it in time.
  lemma {:induction false} NamesPredecessor(env: Platform, rows: seq<Row>, j: nat, k: nat)
    requires Recorded(env, rows) && LinkedByTime(env, rows) && DistinctHashes(rows)
    requires k < j < |rows| && rows[j].prevHash == rows[k].hash
    ensures Earlier(env, rows[k], rows[j])
  {
    hide Earlier;
    hide NewRow;
    var x := rows[j];
    assert x in rows && x.prevHash != GENESIS_HASH;
    var q :| q in rows && Earlier(env, q, x);
    var p := PredecessorExists(env, rows, x, q);
    var l :| 0 <= l < |rows| && rows[l] == p;
    assert rows[l].hash == rows[k].hash;
    assert l == k;
  }

  lemma {:induction false} LinksImplyInOrder(env: Platform, rows: seq<Row>, i: nat, j: nat)
    requires Recorded(env, rows) && LinkedByTime(env, rows) && DistinctHashes(rows)
    requires i < j < |rows|
    ensures Earlier(env, rows[i], rows[j])
  {
    var k := NamesLatest(env, rows, j);
    NamesPredecessor(env, rows, j, k);
    assert i != k ==> rows[i].id != rows[k].id;
    hide *;
    EarlierIsStrictOrder(env, rows[i], rows[k], rows[j]);
  }

  // Out of time order the log does not link: a row stamped before its predecessor comes first in
  // the listing and does not follow the genesis hash.
  lemma {:induction false} LateStampBreaksChain(env: Platform, first: Event, second: Event)
    requires first.id != second.id && env.instant(second.payload.ts) < env.instant(first.payload.ts)
    requires env.digest(Preimage(GENESIS_HASH, first.payload)) != GENESIS_HASH
    ensures |Run(env, [first, second])| == 2 && !LinkedByTime(env, Run(env, [first, second]))
  {
    hide Preimage;
    var a := NewRow(env, [], first.id, first.payload);
    var b := NewRow(env, [a], second.id, second.payload);
    RunOfTwo(env, first, second);
    assert b.prevHash == a.hash != GENESIS_HASH;
    assert !Earlier(env, a, b);
    EarlierIsStrictOrder(env, b, b, b);
    hide *;
    EarliestMustFollowGenesis(env, a, b);
  }

  lemma {:induction false} EarliestMustFollowGenesis(env: Platform, a: Row, b: Row)
    requires !Earlier(env, a, b) && !Earlier(env, b, b) && b.prevHash != GENESIS_HASH
    ensures !LinkedByTime(env, [a, b])
  {
    hide Earlier;
    assert b in [a, b] && forall q :: q in [a, b] ==> !Earlier(env, q, b);
  }

  lemma {:induction false} RunOfTwo(env: Platform, first: Event, second: Event)
    requires first.id != second.id
    ensures
      var a := NewRow(env, [], first.id, first.payload);
      Run(env, [first, second]) == [a, NewRow(env, [a], second.id, second.payload)]
  {
    RunStep(env, [], first);
    RunStep(env, [first], second);
    EmptyRun(env);
    hide Run;
    hide Preimage;
    assert [] + [first] == [first] && [first] + [second] == [first, second];
    var a := NewRow(env, [], first.id, first.payload);
    assert Run(env, [first]) == [] + [a] == [a];
  }

  lemma {:induction false} EmptyRun(env: Platform)
    ensures Run(env, []) == []
  {
  }

  // Listed by time the log is one chain exactly when rows were inserted in time order.
  lemma {:induction false} RunLinkedIffInTimeOrder(env: Platform, events: seq<Event>)
    requires DistinctHashes(Run(env, events))
    ensures LinkedByTime(env, Run(env, events)) <==> InsertedInTimeOrder(env, Run(env, events))
  {
    var rows := Run(env, events);
    RunIsRecorded(env, events);
    if InsertedInTimeOrder(env, rows) {
      InOrderFollows(env, rows);
      InOrderLinks(env, rows);
    }
    if LinkedByTime(env, rows) {
      forall i, j | 0 <= i < j < |rows| ensures Earlier(env, rows[i], rows[j]) {
        LinksImplyInOrder(env, rows, i, j);
      }
    }
  }

  // ---------------------------------------------------------------------------
  // Tamper evidence
  // ---------------------------------------------------------------------------

  ghost predicate Chain(env: Platform, rows: seq<Row>) {
    forall i :: 0 <= i < |rows| ==> Link(env, rows, i)
  }

  ghost predicate Link(env: Platform, rows: seq<Row>, i: nat)
    requires i < |rows|
  {
    && Follows(rows, i)
    && rows[i].hash == env.digest(Preimage(rows[i].prevHash, rows[i].payload))
    && rows[i].hash != GENESIS_HASH && BraceFree(rows[i].hash) && JsonPayload(rows[i].payload)
  }

  // No two hash inputs of the two logs collide.
  ghost predicate NoCollision(env: Platform, a: seq<Row>, b: seq<Row>) {
    forall i, j :: 0 <= i < |a| && 0 <= j < |b| && a[i].hash == b[j].hash ==>
      Preimage(a[i].prevHash, a[i].payload) == Preimage(b[j].prevHash, b[j].payload)
  }

  lemma {:induction false} OrderedRunIsChain(env: Platform, events: seq<Event>)
    requires InsertedInTimeOrder(env, Run(env, events))
    requires forall r :: r in Run(env, events) ==>
      r.hash != GENESIS_HASH && BraceFree(r.hash) && JsonPayload(r.payload)
    ensures Chain(env, Run(env, events))
  {
    RunIsRecorded(env, events);
    InOrderFollows(env, Run(env, events));
  }

  lemma {:induction false} ChainPrefix(env: Platform, a: seq<Row>, m: nat)
    requires m <= |a| && Chain(env, a)
    ensures Chain(env, a[..m])
  {
    forall i | 0 <= i < m ensures Link(env, a[..m], i) {
      assert Link(env, a, i);
    }
  }

  ghost predicate SameRow(a: Row, b: Row) {
    a.prevHash == b.prevHash && a.hash == b.hash && SamePayload(a.payload, b.payload)
  }

  lemma {:induction false} LastRowsAgree(env: Platform, a: seq<Row>, b: seq<Row>)
    requires Chain(env, a) && Chain(env, b) && NoCollision(env, a, b)
    requires a != [] && b != [] && a[|a| - 1].hash == b[|b| - 1].hash
    ensures SameRow(a[|a| - 1], b[|b| - 1]) && a[|a| - 1].prevHash == b[|b| - 1].prevHash
    ensures |a| == 1 <==> |b| == 1
  {
    hide Preimage;
    hide SamePayload;
    hide JsonPayload;
    var m, n := |a| - 1, |b| - 1;
    assert Link(env, a, m) && Link(env, b, n);
    assert m > 0 ==> Link(env, a, m - 1);
    assert n > 0 ==> Link(env, b, n - 1);
    ZerosAreBraceFree(64);
    PreimageEqualIffSame(a[m].prevHash, a[m].payload, b[n].prevHash, b[n].payload);
  }

  lemma {:induction false} LastLinksAgree(env: Platform, a: seq<Row>, b: seq<Row>)
    requires Chain(env, a) && Chain(env, b) && |a| > 1 && |b| > 1
    requires a[|a| - 1].prevHash == b[|b| - 1].prevHash
    ensures a[|a| - 2].hash == b[|b| - 2].hash
  {
    hide Preimage;
    hide JsonPayload;
    assert Link(env, a, |a| - 1) && Link(env, b, |b| - 1);
  }

  // The final hash pins the whole history: same length, same links, same payloads.
  lemma {:induction false} LastHashDeterminesLog(env: Platform, a: seq<Row>, b: seq<Row>)
    requires Chain(env, a) && Chain(env, b) && NoCollision(env, a, b)
    requires a != [] && b != [] && a[|a| - 1].hash == b[|b| - 1].hash
    ensures |a| == |b|
    ensures forall i :: 0 <= i < |a| ==> SameRow(a[i], b[i])
    decreases |a|
  {
    hide Preimage;
    hide SamePayload;
    hide JsonPayload;
    hide SameRow;
    var m, n := |a| - 1, |b| - 1;
    LastRowsAgree(env, a, b);
    if m > 0 {
      ChainPrefix(env, a, m);
      ChainPrefix(env, b, n);
      LastLinksAgree(env, a, b);
      hide Link;
      var a', b' := a[..m], b[..n];
      LastHashDeterminesLog(env, a', b');
      assert forall i :: 0 <= i < m ==> a'[i] == a[i] && b'[i] == b[i];
    }
  }
}
