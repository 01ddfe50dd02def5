/** The KMS backfill: cursor pagination over the entity table, encrypting what is still plaintext. */
module KmsBackfill {
  import opened Strings
  import opened Encryption

  datatype Field = Text(text: string) | Other

  datatype Entity = Entity(kind: string, properties: map<string, Field>)

  type Table = map<string, Entity>

  // The registry of sensitive fields and the cipher; `nonce` gives each encryption its random IV.
  datatype Platform = Platform(sensitive: map<string, seq<string>>, cipher: Cipher, nonce: (string, string) -> string)

  function SensitiveKeys(env: Platform, kind: string): seq<string> {
    if kind in env.sensitive then env.sensitive[kind] else []
  }

  predicate Plaintext(f: Field) {
    f.Text? && !IsEncrypted(f.text)
  }

  // `needsBackfill`.
  predicate NeedsBackfill(env: Platform, kind: string, properties: map<string, Field>) {
    exists k :: k in SensitiveKeys(env, kind) && k in properties && Plaintext(properties[k])
  }

  function EncryptedField(env: Platform, kind: string, id: string, key: string, f: Field): Field {
    if key in SensitiveKeys(env, kind) && Plaintext(f)
    then Text(EncryptField(env.cipher, kind, env.nonce(id, key), f.text))
    else f
  }

  function EncryptedFields(env: Platform, kind: string, id: string, properties: map<string, Field>)
    : map<string, Field>
  {
    map k | k in properties :: EncryptedField(env, kind, id, k, properties[k])
  }

  // Nonces are base64 and hold no colon; the registry lists each key once.
  ghost predicate Proper(env: Platform) {
    && Opens(env.cipher) && (forall id, key :: ':' !in env.nonce(id, key))
    && (forall kind, i, j :: kind in env.sensitive && 0 <= i < j < |env.sensitive[kind]| ==>
          env.sensitive[kind][i] != env.sensitive[kind][j])
  }

  // ---------------------------------------------------------------------------
  // One row
  // ---------------------------------------------------------------------------

  method CheckNeedsBackfill(env: Platform, kind: string, properties: map<string, Field>) returns (needed: bool)
    ensures needed == NeedsBackfill(env, kind, properties)
  {
    var keys := SensitiveKeys(env, kind);
    for i := 0 to |keys|
      invariant forall j :: 0 <= j < i ==> keys[j] !in properties || !Plaintext(properties[keys[j]])
    {
      if keys[i] in properties && Plaintext(properties[keys[i]]) {
        return true;
      }
    }
    needed := false;
  }

  method EncryptPlaintextFields(env: Platform, kind: string, id: string, properties: map<string, Field>)
    returns (result: map<string, Field>)
    requires Proper(env)
    ensures result == EncryptedFields(env, kind, id, properties)
  {
    var keys := SensitiveKeys(env, kind);
    result := properties;
    for i := 0 to |keys|
      invariant result.Keys == properties.Keys
      invariant forall k :: k in properties ==>
        result[k] == if k in keys[..i] then EncryptedField(env, kind, id, k, properties[k]) else properties[k]
    {
      var key := keys[i];
      assert key !in keys[..i] && keys[..i + 1] == keys[..i] + [key];
      if key in result && Plaintext(result[key]) {
        result := result[key := Text(EncryptField(env.cipher, kind, env.nonce(id, key), result[key].text))];
      }
    }
    assert keys[..|keys|] == keys;
  }

  // Every field reads back as before; with encryption on, nothing sensitive stays plaintext.
  lemma {:induction false} BackfilledRowReadsBack(env: Platform, kind: string, id: string,
                                                  properties: map<string, Field>)
    requires Proper(env)
    ensures
      var after := EncryptedFields(env, kind, id, properties);
      && after.Keys == properties.Keys
      && (forall k :: k in properties && !(k in SensitiveKeys(env, kind) && Plaintext(properties[k])) ==>
         after[k] == properties[k])
      && (forall k :: k in properties && k in SensitiveKeys(env, kind) && Plaintext(properties[k]) ==>
            after[k].Text? && DecryptField(env.cipher, kind, after[k].text) == properties[k].text)
      && (NeedsBackfill(env, kind, after) <==> !env.cipher.enabled && NeedsBackfill(env, kind, properties))
  {
    var after := EncryptedFields(env, kind, id, properties);
    forall k | k in properties && k in SensitiveKeys(env, kind) && Plaintext(properties[k])
      ensures after[k].Text? && DecryptField(env.cipher, kind, after[k].text) == properties[k].text
      ensures env.cipher.enabled ==> !Plaintext(after[k])
      ensures !env.cipher.enabled ==> after[k] == properties[k]
    {
      DecryptUndoesEncrypt(env.cipher, kind, env.nonce(id, k), properties[k].text);
    }
    hide DecryptField;
    hide EncryptField;
  }

  // ---------------------------------------------------------------------------
  // Pages
  // ---------------------------------------------------------------------------

  predicate Matches(table: Table, kind: string, cursor: string, id: string) {
    id in table && table[id].kind == kind && Less(cursor, id)
  }

  // `WHERE type = kind AND id > cursor ORDER BY id ASC LIMIT limit`.
  ghost predicate IsPage(table: Table, kind: string, cursor: string, limit: nat, page: seq<string>) {
    && (forall i :: 0 <= i < |page| ==> Matches(table, kind, cursor, page[i]))
    && (forall i, j :: 0 <= i < j < |page| ==> Less(page[i], page[j]))
    && |page| <= limit
    && (|page| < limit ==> forall id :: Matches(table, kind, cursor, id) ==> id in page)
    && (forall id, i :: Matches(table, kind, cursor, id) && id !in page && 0 <= i < |page| ==> Less(page[i], id))
  }

  method LeastId(ids: set<string>) returns (least: string)
    requires ids != {}
    ensures least in ids && forall id :: id in ids && id != least ==> Less(least, id)
    decreases |ids|
  {
    least :| least in ids;
    if ids != {least} {
      var rest := LeastId(ids - {least});
      LessTotal(least, rest);
      if Less(rest, least) {
        least := rest;
      } else {
        forall id | id in ids && id != least ensures Less(least, id) {
          if id != rest {
            LessTransitive(least, rest, id);
          }
        }
      }
    }
  }

  method FetchPage(table: Table, kind: string, cursor: string, limit: nat) returns (page: seq<string>)
    ensures IsPage(table, kind, cursor, limit, page)
  {
    var left := set id | id in table && Matches(table, kind, cursor, id);
    page := [];
    while left != {} && |page| < limit
      invariant |page| <= limit
      invariant forall id :: Matches(table, kind, cursor, id) <==> id in left || id in page
      invariant forall i :: 0 <= i < |page| ==> page[i] !in left
      invariant forall i, j :: 0 <= i < j < |page| ==> Less(page[i], page[j])
      invariant forall id, i :: id in left && 0 <= i < |page| ==> Less(page[i], id)
      decreases |left|
    {
      var next := LeastId(left);
      page := page + [next];
      left := left - {next};
    }
  }

  // ---------------------------------------------------------------------------
  // The whole run
  // ---------------------------------------------------------------------------

  datatype Result = Result(scanned: nat, updated: nat, skipped: nat, errors: nat)

  function Plus(a: Result, b: Result): Result {
    Result(a.scanned + b.scanned, a.updated + b.updated, a.skipped + b.skipped, a.errors + b.errors)
  }

  // Distinct rows of one type.
  ghost predicate Batch(table: Table, kind: string, page: seq<string>) {
    && (forall i :: 0 <= i < |page| ==> page[i] in table && table[page[i]].kind == kind)
    && (forall i, j :: 0 <= i < j < |page| ==> page[i] != page[j])
  }

  ghost function Needing(env: Platform, table: Table): set<string> {
    set id | id in table && NeedsBackfill(env, table[id].kind, table[id].properties)
  }

  // What a pass over these rows reports: the rows that need nothing, those whose encryption or
  // update fails, and the rest.
  ghost function Counted(env: Platform, table: Table, failing: set<string>, ids: set<string>): Result {
    var needing := Needing(env, table);
    Result(|ids|, |ids * (needing - failing)|, |ids - needing|, |ids * (needing * failing)|)
  }

  // The rows a run rewrites: plaintext left, no failure, and writing allowed.
  ghost predicate Rewritten(env: Platform, table: Table, failing: set<string>, dryRun: bool, id: string) {
    id in table && !dryRun && id !in failing && NeedsBackfill(env, table[id].kind, table[id].properties)
  }

  ghost function Row(env: Platform, table: Table, failing: set<string>, dryRun: bool, id: string): Entity
    requires id in table
  {
    if Rewritten(env, table, failing, dryRun, id)
    then table[id].(properties := EncryptedFields(env, table[id].kind, id, table[id].properties))
    else table[id]
  }

  // The table once the rows in `seen` have been processed.
  ghost function Processed(env: Platform, table: Table, failing: set<string>, dryRun: bool, seen: set<string>): Table {
    map id | id in table :: if id in seen then Row(env, table, failing, dryRun, id) else table[id]
  }

  // Rows of this type the cursor, which starts at the empty string, can reach.
  ghost function Reachable(table: Table, kind: string): (r: set<string>)
    ensures r <= table.Keys
  {
    set id | id in table && table[id].kind == kind && id != ""
  }

  lemma {:induction false} ReachableIsAfterEmpty(table: Table, kind: string, id: string)
    ensures Matches(table, kind, "", id) <==> id in Reachable(table, kind)
  {
  }

  class Backfill {
    const env: Platform
    var table: Table
    // The row updates that throw, in any way, before the row is written.
    const failing: set<string>

    constructor (env: Platform, table: Table, failing: set<string>)
      ensures this.env == env && this.table == table && this.failing == failing
    {
      this.env, this.table, this.failing := env, table, failing;
    }

    method ProcessRow(kind: string, id: string, dryRun: bool, before: Result) returns (after: Result)
      requires Proper(env) && id in table && table[id].kind == kind
      modifies this`table
      ensures table == old(table)[id := Row(env, old(table), failing, dryRun, id)]
      ensures after == Plus(before, Counted(env, old(table), failing, {id})).(scanned := before.scanned)
    {
      CountedOne(env, table, failing, id);
      hide Counted;
      var properties := table[id].properties;
      assert table == table[id := table[id]];
      var needed := CheckNeedsBackfill(env, kind, properties);
      if !needed {
        return before.(skipped := before.skipped + 1);
      }
      if id in failing {
        return before.(errors := before.errors + 1);
      }
      var encrypted := EncryptPlaintextFields(env, kind, id, properties);
      if !dryRun {
        table := table[id := table[id].(properties := encrypted)];
      }
      after := before.(updated := before.updated + 1);
    }

    // One page, row by row.
    method ProcessPage(kind: string, page: seq<string>, dryRun: bool, before: Result) returns (after: Result)
      requires Proper(env) && Batch(table, kind, page)
      modifies this`table
      ensures table == Processed(env, old(table), failing, dryRun, Ids(page))
      ensures after == Plus(before, Counted(env, old(table), failing, Ids(page))).(scanned := before.scanned)
    {
      hide Proper;
      hide Processed;
      hide Counted;
      hide Batch;
      hide Row;
      after := before;
      ghost var start := table;
      NoRows(env, start, failing, dryRun, page);
      for i := 0 to |page|
        invariant table == Processed(env, start, failing, dryRun, Ids(page[..i]))
        invariant after == Plus(before, Counted(env, start, failing, Ids(page[..i]))).(scanned := before.scanned)
      {
        RowDone(env, start, failing, dryRun, kind, page, i);
        after := ProcessRow(kind, page[i], dryRun, after);
      }
      assert page[..|page|] == page;
    }

    // All pages of one entity type.
    method ProcessType(kind: string, batchSize: nat, dryRun: bool, before: Result)
      returns (after: Result, ghost visited: seq<string>)
      requires Proper(env)
      modifies this`table
      ensures Ascending(visited) && Ids(visited) == (if batchSize >= 1 then Reachable(old(table), kind) else {})
      ensures table == Processed(env, old(table), failing, dryRun, Ids(visited))
      ensures after == Plus(before, Counted(env, old(table), failing, Ids(visited)))
    {
      hide Proper;
      hide Reported;
      hide Processed;
      hide Counted;
      hide Plus;
      hide Ids;
      hide Reachable;
      hide IsPage;
      hide Batch;
      after, visited := before, [];
      var cursor := "";
      ghost var start := table;
      Opening(env, start, failing, dryRun, kind, before);
      var more := true;
      while more
        invariant Reported(env, start, table, failing, dryRun, kind, cursor, visited, before, after)
        invariant batchSize == 0 ==> visited == []
        invariant !more && batchSize >= 1 ==> Ids(visited) == Reachable(start, kind)
        decreases more, |Reachable(start, kind) - Ids(visited)|
      {
        var page := FetchPage(table, kind, cursor, batchSize);
        PageFits(table, kind, cursor, batchSize, page);
        if |page| == 0 {
          NothingLeft(env, start, table, failing, dryRun, kind, cursor, visited, batchSize, page, before, after);
          more := false;
        } else {
          PageIsBatch(env, start, table, failing, dryRun, kind, cursor, visited, batchSize, page, before, after);
          TurnPage(env, start, table, failing, dryRun, kind, cursor, visited, batchSize, page, before, after);
          after := after.(scanned := after.scanned + |page|);
          after := ProcessPage(kind, page, dryRun, after);
          cursor := page[|page| - 1];
          visited := visited + page;
        }
      }
      ReportMeans(env, start, table, failing, dryRun, kind, cursor, visited, before, after);
    }
  }

  // ---------------------------------------------------------------------------
  // Pagination lemmas
  // ---------------------------------------------------------------------------

  ghost function Ids(ids: seq<string>): set<string> {
    set id | id in ids
  }

  ghost predicate Ascending(ids: seq<string>) {
    forall i, j :: 0 <= i < j < |ids| ==> Less(ids[i], ids[j])
  }

  // Exactly the reachable rows up to the cursor have been visited.
  ghost predicate UpTo(table: Table, kind: string, cursor: string, visited: seq<string>) {
    && (forall i :: 0 <= i < |visited| ==> visited[i] in Reachable(table, kind) && !Less(cursor, visited[i]))
    && (forall id :: id in Reachable(table, kind) ==> id in visited || Less(cursor, id))
  }

  ghost predicate Progress(env: Platform, start: Table, table: Table, failing: set<string>, dryRun: bool,
                           kind: string, cursor: string, visited: seq<string>)
  {
    && table == Processed(env, start, failing, dryRun, Ids(visited))
    && Ascending(visited) && UpTo(start, kind, cursor, visited)
  }

  // ... and the report counts exactly those.
  ghost predicate Reported(env: Platform, start: Table, table: Table, failing: set<string>, dryRun: bool,
                           kind: string, cursor: string, visited: seq<string>, before: Result, after: Result)
  {
    && Progress(env, start, table, failing, dryRun, kind, cursor, visited)
    && after == Plus(before, Counted(env, start, failing, Ids(visited)))
  }

  lemma {:induction false} ReportMeans(env: Platform, start: Table, table: Table, failing: set<string>, dryRun: bool,
                                       kind: string, cursor: string, visited: seq<string>, before: Result,
                                       after: Result)
    requires Reported(env, start, table, failing, dryRun, kind, cursor, visited, before, after)
    ensures Ascending(visited) && table == Processed(env, start, failing, dryRun, Ids(visited))
    ensures after == Plus(before, Counted(env, start, failing, Ids(visited)))
    ensures visited == [] ==> Ids(visited) == {}
  {
  }

  lemma {:induction false} Opening(env: Platform, table: Table, failing: set<string>, dryRun: bool, kind: string,
                                   before: Result)
    ensures Reported(env, table, table, failing, dryRun, kind, "", [], before, before)
  {
    assert Ids([]) == {};
    CountedNone(env, table, failing);
    OpeningTable(env, table, failing, dryRun);
    OpeningCursor(table, kind);
    hide Counted;
    hide Processed;
    hide UpTo;
  }

  lemma {:induction false} OpeningTable(env: Platform, table: Table, failing: set<string>, dryRun: bool)
    ensures table == Processed(env, table, failing, dryRun, {})
  {
    hide Row;
  }

  lemma {:induction false} OpeningCursor(table: Table, kind: string)
    ensures UpTo(table, kind, "", [])
  {
    forall id | id in Reachable(table, kind) ensures Less("", id) {
      ReachableIsAfterEmpty(table, kind, id);
    }
    hide Less;
    hide Reachable;
  }

  // Processing changes neither ids nor types.
  lemma {:induction false} ProcessingKeepsIds(env: Platform, table: Table, failing: set<string>, dryRun: bool,
                                              seen: set<string>,
                                              kind: string, cursor: string, id: string)
    ensures Matches(Processed(env, table, failing, dryRun, seen), kind, cursor, id) <==>
      Matches(table, kind, cursor, id)
  {
    hide NeedsBackfill;
    hide EncryptedFields;
    hide Less;
  }

  lemma {:induction false} SamePage(env: Platform, start: Table, failing: set<string>, dryRun: bool, seen: set<string>,
                                    kind: string, cursor: string, limit: nat, page: seq<string>)
    requires IsPage(Processed(env, start, failing, dryRun, seen), kind, cursor, limit, page)
    ensures IsPage(start, kind, cursor, limit, page)
  {
    hide Processed;
    hide Matches;
    forall id ensures Matches(Processed(env, start, failing, dryRun, seen), kind, cursor, id) <==>
      Matches(start, kind, cursor, id) {
      ProcessingKeepsIds(env, start, failing, dryRun, seen, kind, cursor, id);
    }
  }

  lemma {:induction false} NothingLeft(env: Platform, start: Table, table: Table, failing: set<string>, dryRun: bool,
                                       kind: string, cursor: string, visited: seq<string>, limit: nat,
                                       page: seq<string>,
                                       before: Result, after: Result)
    requires Reported(env, start, table, failing, dryRun, kind, cursor, visited, before, after)
    requires IsPage(table, kind, cursor, limit, page) && page == []
    ensures limit >= 1 ==> Ids(visited) == Reachable(start, kind)
  {
    if limit == 0 {
      return;
    }
    SamePage(env, start, failing, dryRun, Ids(visited), kind, cursor, limit, page);
    forall id | id in Reachable(start, kind) ensures id in visited {
      assert Less(cursor, id) ==> Matches(start, kind, cursor, id);
    }
  }

  lemma {:induction false} PageFits(table: Table, kind: string, cursor: string, limit: nat, page: seq<string>)
    requires IsPage(table, kind, cursor, limit, page)
    ensures |page| <= limit
  {
  }

  lemma {:induction false} MatchIsReachable(table: Table, kind: string, cursor: string, id: string)
    requires Matches(table, kind, cursor, id)
    ensures id in Reachable(table, kind)
  {
  }

  // A page lists distinct reachable rows that were not visited before.
  lemma {:induction false} PageIsNew(env: Platform, start: Table, table: Table, failing: set<string>, dryRun: bool,
                                     kind: string, cursor: string, visited: seq<string>, limit: nat, page: seq<string>)
    requires Progress(env, start, table, failing, dryRun, kind, cursor, visited)
    requires IsPage(table, kind, cursor, limit, page)
    ensures forall i, j :: 0 <= i < j < |page| ==> page[i] != page[j]
    ensures forall i :: 0 <= i < |page| ==> page[i] in table && table[page[i]].kind == kind
    ensures forall id :: id in page ==>
      id in Reachable(start, kind) && id !in visited && id in start && table[id] == start[id]
    ensures forall i, j :: 0 <= i < |visited| && 0 <= j < |page| ==> Less(visited[i], page[j])
  {
    hide Row;
    SamePage(env, start, failing, dryRun, Ids(visited), kind, cursor, limit, page);
    forall i, j | 0 <= i < j < |page| ensures page[i] != page[j] {
      LessIrreflexive(page[i]);
    }
    forall i, j | 0 <= i < |visited| && 0 <= j < |page| ensures Less(visited[i], page[j]) && visited[i] != page[j] {
      BeforeCursor(visited[i], cursor, page[j]);
      LessIrreflexive(page[j]);
    }
    forall id | id in page ensures id in Reachable(start, kind) && id in start && id !in visited {
      MatchIsReachable(start, kind, cursor, id);
    }
  }

  lemma {:induction false} PageIsBatch(env: Platform, start: Table, table: Table, failing: set<string>, dryRun: bool,
                                       kind: string, cursor: string, visited: seq<string>, limit: nat,
                                       page: seq<string>,
                                       before: Result, after: Result)
    requires Reported(env, start, table, failing, dryRun, kind, cursor, visited, before, after)
    requires IsPage(table, kind, cursor, limit, page)
    ensures Batch(table, kind, page)
  {
    PageIsNew(env, start, table, failing, dryRun, kind, cursor, visited, limit, page);
  }

  lemma {:induction false} CountPage(env: Platform, start: Table, table: Table, failing: set<string>, dryRun: bool,
                                     kind: string, cursor: string, visited: seq<string>, limit: nat,
                                     page: seq<string>, before: Result)
    requires Progress(env, start, table, failing, dryRun, kind, cursor, visited)
    requires IsPage(table, kind, cursor, limit, page)
    ensures
      var earlier := Plus(before, Counted(env, start, failing, Ids(visited)));
      var scanned := earlier.(scanned := earlier.scanned + |page|);
      Plus(before, Counted(env, start, failing, Ids(visited + page))) ==
      Plus(scanned, Counted(env, table, failing, Ids(page))).(scanned := scanned.scanned)
  {
    PageIsNew(env, start, table, failing, dryRun, kind, cursor, visited, limit, page);
    hide Counted;
    hide Progress;
    hide IsPage;
    CountedPage(env, start, table, failing, visited, page, before);
  }

  lemma {:induction false} AdvanceCursor(env: Platform, start: Table, table: Table, failing: set<string>, dryRun: bool,
                                    kind: string, cursor: string, visited: seq<string>, limit: nat, page: seq<string>)
    requires Proper(env) && Progress(env, start, table, failing, dryRun, kind, cursor, visited)
    requires IsPage(table, kind, cursor, limit, page) && page != []
    ensures Progress(env, start, Processed(env, table, failing, dryRun, Ids(page)), failing, dryRun,
                     kind, page[|page| - 1], visited + page)
    ensures |Reachable(start, kind) - Ids(visited + page)| < |Reachable(start, kind) - Ids(visited)|
  {
    PageIsNew(env, start, table, failing, dryRun, kind, cursor, visited, limit, page);
    SamePage(env, start, failing, dryRun, Ids(visited), kind, cursor, limit, page);
    ProcessedMore(env, start, failing, dryRun, Ids(visited), Ids(page));
    assert Ids(visited + page) == Ids(visited) + Ids(page);
    assert page[0] in page;
    Shrinks(Reachable(start, kind), Ids(visited), Ids(visited + page), page[0]);
    CursorMoves(start, kind, cursor, visited, limit, page);
  }

  // One page: the table, the report and the cursor move on together, and fewer rows are left.
  lemma {:induction false} TurnPage(env: Platform, start: Table, table: Table, failing: set<string>, dryRun: bool,
                                    kind: string, cursor: string, visited: seq<string>, limit: nat, page: seq<string>,
                                    before: Result, after: Result)
    requires Proper(env) && Reported(env, start, table, failing, dryRun, kind, cursor, visited, before, after)
    requires IsPage(table, kind, cursor, limit, page) && page != []
    ensures
      var scanned := after.(scanned := after.scanned + |page|);
      Reported(env, start, Processed(env, table, failing, dryRun, Ids(page)), failing, dryRun, kind, page[|page| - 1],
               visited + page, before,
               Plus(scanned, Counted(env, table, failing, Ids(page))).(scanned := scanned.scanned))
    ensures |Reachable(start, kind) - Ids(visited + page)| < |Reachable(start, kind) - Ids(visited)|
  {
    AdvanceCursor(env, start, table, failing, dryRun, kind, cursor, visited, limit, page);
    CountPage(env, start, table, failing, dryRun, kind, cursor, visited, limit, page, before);
    hide Progress;
    hide Counted;
    hide Plus;
    hide Ids;
    hide Processed;
    hide Reachable;
    hide IsPage;
  }

  lemma {:induction false} CursorMoves(table: Table, kind: string, cursor: string, visited: seq<string>, limit: nat,
                                       page: seq<string>)
    requires UpTo(table, kind, cursor, visited) && Ascending(visited) && IsPage(table, kind, cursor, limit, page) &&
      page != []
    ensures UpTo(table, kind, page[|page| - 1], visited + page) && Ascending(visited + page)
  {
    var last := page[|page| - 1];
    forall i, j | 0 <= i < |visited| && 0 <= j < |page| ensures Less(visited[i], page[j]) {
      BeforeCursor(visited[i], cursor, page[j]);
    }
    forall i | 0 <= i < |page| ensures page[i] in Reachable(table, kind) && !Less(last, page[i]) {
      MatchIsReachable(table, kind, cursor, page[i]);
      NotAfter(page[i], last);
    }
    forall i | 0 <= i < |visited| ensures !Less(last, visited[i]) {
      NotAfter(visited[i], last);
    }
    hide Less;
    forall id | id in Reachable(table, kind) ensures id in visited + page || Less(last, id) {
      if Less(cursor, id) && id !in page {
        assert Matches(table, kind, cursor, id);
      }
    }
  }

  lemma {:induction false} NotAfter(a: string, b: string)
    requires a == b || Less(a, b)
    ensures !Less(b, a)
  {
    LessIrreflexive(a);
    if Less(b, a) && a != b {
      LessTransitive(a, b, a);
    }
  }

  lemma {:induction false} BeforeCursor(a: string, cursor: string, b: string)
    requires !Less(cursor, a) && Less(cursor, b)
    ensures Less(a, b)
  {
    LessTotal(cursor, a);
    if Less(a, cursor) {
      LessTransitive(a, cursor, b);
    }
  }

  lemma {:induction false} Shrinks(all: set<string>, a: set<string>, b: set<string>, one: string)
    requires a <= b && one in all && one in b && one !in a
    ensures |all - b| < |all - a|
  {
    assert all - b <= (all - a) - {one};
    SubsetSize(all - b, (all - a) - {one});
  }

  lemma {:induction false} SubsetSize(a: set<string>, b: set<string>)
    requires a <= b
    ensures |a| <= |b|
  {
    assert b == a + (b - a);
  }

  lemma {:induction false} ProcessedStep(env: Platform, table: Table, failing: set<string>, dryRun: bool,
                                         done: set<string>, id: string)
    requires id in table && id !in done
    ensures
      var current := Processed(env, table, failing, dryRun, done);
      && current[id] == table[id]
      && Row(env, current, failing, dryRun, id) == Row(env, table, failing, dryRun, id)
      && current[id := Row(env, table, failing, dryRun, id)] == Processed(env, table, failing, dryRun, done + {id})
  {
    hide NeedsBackfill;
    hide EncryptedFields;
  }

  lemma {:induction false} NoRows(env: Platform, table: Table, failing: set<string>, dryRun: bool, page: seq<string>)
    ensures Processed(env, table, failing, dryRun, Ids(page[..0])) == table
    ensures Counted(env, table, failing, Ids(page[..0])) == Result(0, 0, 0, 0)
  {
    hide Row;
    assert Ids(page[..0]) == {};
    CountedNone(env, table, failing);
    hide Counted;
  }

  // One more row of a page: the table and the report after it.
  lemma {:induction false} RowDone(env: Platform, start: Table, failing: set<string>, dryRun: bool,
                                   kind: string, page: seq<string>, i: nat)
    requires Batch(start, kind, page) && i < |page|
    ensures
      var done, next, id := Ids(page[..i]), Ids(page[..i + 1]), page[i];
      var current := Processed(env, start, failing, dryRun, done);
      && id in current && current[id].kind == kind
      && current[id := Row(env, current, failing, dryRun, id)] == Processed(env, start, failing, dryRun, next)
      && Plus(Counted(env, start, failing, done), Counted(env, current, failing, {id})) ==
         Counted(env, start, failing, next)
  {
    hide Counted;
    hide Row;
    var done, id := Ids(page[..i]), page[i];
    assert page[..i + 1] == page[..i] + [id];
    assert Ids(page[..i + 1]) == done + {id} && id !in done;
    hide Ids;
    ProcessedStep(env, start, failing, dryRun, done, id);
    CountedSame(env, Processed(env, start, failing, dryRun, done), start, failing, {id});
    CountedUnion(env, start, failing, done, {id});
  }

  // Processing a row twice is processing it once.
  lemma {:induction false} RowIsIdempotent(env: Platform, table: Table, failing: set<string>, dryRun: bool, id: string)
    requires Proper(env) && id in table
    ensures
      var after := table[id := Row(env, table, failing, dryRun, id)];
      Row(env, after, failing, dryRun, id) == after[id]
  {
    var e := table[id];
    BackfilledRowReadsBack(env, e.kind, id, e.properties);
    if !env.cipher.enabled {
      assert EncryptedFields(env, e.kind, id, e.properties) == e.properties;
    }
  }

  // Processing one batch after another processes their union.
  lemma {:induction false} ProcessedMore(env: Platform, table: Table, failing: set<string>, dryRun: bool,
                                         a: set<string>, b: set<string>)
    requires Proper(env)
    ensures Processed(env, Processed(env, table, failing, dryRun, a), failing, dryRun, b)
         == Processed(env, table, failing, dryRun, a + b)
  {
    hide NeedsBackfill;
    hide EncryptedFields;
    hide Proper;
    forall id | id in table && id in a && id in b
      ensures Row(env, Processed(env, table, failing, dryRun, a), failing, dryRun, id) ==
        Row(env, table, failing, dryRun, id)
    {
      RowIsIdempotent(env, table, failing, dryRun, id);
    }
  }

  // ---------------------------------------------------------------------------
  // Main results about a run
  // ---------------------------------------------------------------------------

  // The rows a run over these types visits.
  ghost function Scope(table: Table, kinds: seq<string>): (r: set<string>)
    ensures r <= table.Keys
  {
    set id | id in table && table[id].kind in kinds && id != ""
  }

  // With encryption on, a written run leaves nothing to do: exactly the rows that failed, that a
  // dry run left alone, or that encryption being off left alone, still need backfill.
  lemma {:induction false} SecondRunFindsNothing(env: Platform, table: Table, failing: set<string>, dryRun: bool,
                                                 kinds: seq<string>, id: string)
    requires Proper(env) && id in Scope(table, kinds)
    ensures
      var after := Processed(env, table, failing, dryRun, Scope(table, kinds));
      && id in Scope(after, kinds)
      && (NeedsBackfill(env, after[id].kind, after[id].properties) <==>
            NeedsBackfill(env, table[id].kind, table[id].properties) &&
              (!env.cipher.enabled || dryRun || id in failing))
  {
    BackfilledRowReadsBack(env, table[id].kind, id, table[id].properties);
    hide NeedsBackfill;
    hide EncryptedFields;
  }

  // So the report of a second run is exact too: with encryption on and no failure it updates none.
  lemma {:induction false} SecondRunUpdatesNothing(env: Platform, table: Table, failing: set<string>,
                                                   kinds: seq<string>)
    requires Proper(env) && env.cipher.enabled
    ensures
      var after := Processed(env, table, failing, false, Scope(table, kinds));
      Counted(env, after, failing, Scope(after, kinds)).updated == 0
  {
    var after := Processed(env, table, failing, false, Scope(table, kinds));
    hide Proper;
    hide NeedsBackfill;
    hide Row;
    forall id | id in Scope(after, kinds) ensures id !in Needing(env, after) || id in failing {
      assert after[id].kind == table[id].kind by {
        SecondRunKeepsKinds(env, table, failing, kinds, id);
      }
      SecondRunFindsNothing(env, table, failing, false, kinds, id);
    }
    hide Processed;
    assert Scope(after, kinds) * (Needing(env, after) - failing) == {};
  }

  lemma {:induction false} SecondRunKeepsKinds(env: Platform, table: Table, failing: set<string>, kinds: seq<string>,
                                               id: string)
    requires id in table
    ensures Processed(env, table, failing, false, Scope(table, kinds))[id].kind == table[id].kind
  {
    hide NeedsBackfill;
  }

  lemma {:induction false} ScopeGrows(env: Platform, table: Table, failing: set<string>, dryRun: bool,
                                      kinds: seq<string>, kind: string)
    ensures
      var current := Processed(env, table, failing, dryRun, Scope(table, kinds));
      && Reachable(current, kind) == Reachable(table, kind)
      && Scope(table, kinds) + Reachable(table, kind) == Scope(table, kinds + [kind])
  {
    hide NeedsBackfill;
    hide EncryptedFields;
  }

  lemma {:induction false} NoScope(env: Platform, table: Table, failing: set<string>, dryRun: bool)
    ensures Processed(env, table, failing, dryRun, Scope(table, [])) == table
    ensures Counted(env, table, failing, Scope(table, [])) == Result(0, 0, 0, 0)
  {
    hide Row;
    assert Scope(table, []) == {};
    CountedNone(env, table, failing);
    hide Counted;
  }

  // `backfillEntities`. With no type listed twice the report is exact: every row of the listed
  // types counted once, in the right column.
  method BackfillEntities(backfill: Backfill, kinds: seq<string>, batchSize: nat, dryRun: bool) returns (result: Result)
    requires Proper(backfill.env)
    modifies backfill`table
    ensures
      var scope := Scope(old(backfill.table), if batchSize >= 1 then kinds else []);
      && backfill.table == Processed(backfill.env, old(backfill.table), backfill.failing, dryRun, scope)
      && (Distinct(kinds) ==> result == Counted(backfill.env, old(backfill.table), backfill.failing, scope))
    ensures result.scanned == result.updated + result.skipped + result.errors
  {
    hide Proper;
    hide Processed;
    hide Counted;
    hide Scope;
    hide Reachable;
    hide Distinct;
    result := Result(0, 0, 0, 0);
    ghost var start, env, failing := backfill.table, backfill.env, backfill.failing;
    NoScope(env, start, failing, dryRun);
    for i := 0 to |kinds|
      invariant backfill.table == Processed(env, start, failing, dryRun, Scope(start, Done(kinds, i, batchSize)))
      invariant result.scanned == result.updated + result.skipped + result.errors
      invariant Distinct(kinds) ==> result == Counted(env, start, failing, Scope(start, Done(kinds, i, batchSize)))
    {
      ghost var current := backfill.table;
      ghost var visited;
      TypeDone(env, start, failing, dryRun, kinds, i, batchSize);
      CountsAddUp(env, current, failing, if batchSize >= 1 then Reachable(current, kinds[i]) else {});
      result, visited := backfill.ProcessType(kinds[i], batchSize, dryRun, result);
    }
    assert kinds[..|kinds|] == kinds;
  }

  ghost function Done(kinds: seq<string>, i: nat, batchSize: nat): seq<string>
    requires i <= |kinds|
  {
    if batchSize >= 1 then kinds[..i] else []
  }

  // One more type: the table and the report after it.
  lemma {:induction false} TypeDone(env: Platform, start: Table, failing: set<string>, dryRun: bool,
                                    kinds: seq<string>, i: nat, batchSize: nat)
    requires Proper(env) && i < |kinds|
    ensures
      var done, next := Scope(start, Done(kinds, i, batchSize)), Scope(start, Done(kinds, i + 1, batchSize));
      var current := Processed(env, start, failing, dryRun, done);
      var more := if batchSize >= 1 then Reachable(current, kinds[i]) else {};
      && Processed(env, current, failing, dryRun, more) == Processed(env, start, failing, dryRun, next)
      && (Distinct(kinds) ==>
            Plus(Counted(env, start, failing, done), Counted(env, current, failing, more)) ==
              Counted(env, start, failing, next))
  {
    var before := Done(kinds, i, batchSize);
    var done, next := Scope(start, before), Scope(start, Done(kinds, i + 1, batchSize));
    ScopeGrows(env, start, failing, dryRun, before, kinds[i]);
    var more := if batchSize >= 1 then Reachable(start, kinds[i]) else {};
    ProcessedMore(env, start, failing, dryRun, done, more);
    assert kinds[..i + 1] == kinds[..i] + [kinds[i]];
    assert next == done + more by {
      hide Reachable;
      assert done + {} == done;
    }
    if Distinct(kinds) {
      assert kinds[i] !in before;
      hide Counted;
      CountedKind(env, start, failing, dryRun, before, kinds[i], more);
    }
  }

  // ---------------------------------------------------------------------------
  // Counting rows
  // ---------------------------------------------------------------------------

  ghost predicate Distinct(kinds: seq<string>) {
    forall i, j :: 0 <= i < j < |kinds| ==> kinds[i] != kinds[j]
  }

  lemma {:induction false} CountedNone(env: Platform, table: Table, failing: set<string>)
    ensures Counted(env, table, failing, {}) == Result(0, 0, 0, 0)
  {
    hide Needing;
    var needing, none: set<string> := Needing(env, table), {};
    assert none * (needing - failing) == {} && none - needing == {} && none * (needing * failing) == {};
  }

  lemma {:induction false} CountedOne(env: Platform, table: Table, failing: set<string>, id: string)
    ensures Counted(env, table, failing, {id}) ==
      if id !in Needing(env, table) then Result(1, 0, 1, 0)
      else if id in failing then Result(1, 0, 0, 1)
      else Result(1, 1, 0, 0)
  {
    hide Needing;
    var needing := Needing(env, table);
    if id !in needing {
      assert {id} * (needing - failing) == {} && {id} - needing == {id} && {id} * (needing * failing) == {};
    } else if id in failing {
      assert {id} * (needing - failing) == {} && {id} - needing == {} && {id} * (needing * failing) == {id};
    } else {
      assert {id} * (needing - failing) == {id} && {id} - needing == {} && {id} * (needing * failing) == {};
    }
  }

  // The report depends on the listed rows alone.
  lemma {:induction false} CountedSame(env: Platform, table: Table, other: Table, failing: set<string>,
                                       ids: set<string>)
    requires forall id :: id in ids ==> id in table && id in other && table[id] == other[id]
    ensures Counted(env, table, failing, ids) == Counted(env, other, failing, ids)
  {
    hide NeedsBackfill;
    var a, b := Needing(env, table), Needing(env, other);
    assert forall id :: id in ids ==> (id in a <==> id in b);
    hide Needing;
    assert ids * (a - failing) == ids * (b - failing) && ids - a == ids - b &&
      ids * (a * failing) == ids * (b * failing);
  }

  lemma {:induction false} CountedUnion(env: Platform, table: Table, failing: set<string>, a: set<string>,
                                        b: set<string>)
    requires a !! b
    ensures Counted(env, table, failing, a + b) ==
      Plus(Counted(env, table, failing, a), Counted(env, table, failing, b))
  {
    hide Needing;
    var needing := Needing(env, table);
    SizeOfUnion(a, b, needing - failing);
    SizeOfUnion(a, b, needing);
    SizeOfUnion(a, b, needing * failing);
  }

  lemma {:induction false} SizeOfUnion(a: set<string>, b: set<string>, part: set<string>)
    requires a !! b
    ensures |(a + b) * part| == |a * part| + |b * part|
    ensures |(a + b) - part| == |a - part| + |b - part|
    ensures |a + b| == |a| + |b|
  {
    assert (a + b) * part == (a * part) + (b * part);
    assert (a + b) - part == (a - part) + (b - part);
  }

  lemma {:induction false} CountsAddUp(env: Platform, table: Table, failing: set<string>, ids: set<string>)
    ensures
      var r := Counted(env, table, failing, ids);
      r.scanned == r.updated + r.skipped + r.errors
  {
    hide Needing;
    var needing := Needing(env, table);
    assert ids * needing == ids * (needing - failing) + ids * (needing * failing);
    assert ids == ids * needing + (ids - needing);
  }

  lemma {:induction false} IdsOfPage(visited: seq<string>, page: seq<string>)
    ensures Ids(visited + page) == Ids(visited) + Ids(page)
    ensures forall id :: id in Ids(page) <==> id in page
    ensures (forall id :: id in page ==> id !in visited) ==> Ids(visited) !! Ids(page)
  {
  }

  lemma {:induction false} CountedAll(env: Platform, table: Table, failing: set<string>, ids: set<string>)
    ensures Counted(env, table, failing, ids).scanned == |ids|
  {
  }

  lemma {:induction false} CountedPage(env: Platform, start: Table, table: Table, failing: set<string>,
                                       visited: seq<string>, page: seq<string>, before: Result)
    requires forall i, j :: 0 <= i < j < |page| ==> page[i] != page[j]
    requires forall id :: id in page ==> id !in visited && id in table && id in start && table[id] == start[id]
    ensures
      var earlier := Plus(before, Counted(env, start, failing, Ids(visited)));
      var scanned := earlier.(scanned := earlier.scanned + |page|);
      Plus(before, Counted(env, start, failing, Ids(visited + page))) ==
      Plus(scanned, Counted(env, table, failing, Ids(page))).(scanned := scanned.scanned)
  {
    hide Counted;
    hide Ids;
    IdsOfPage(visited, page);
    SizeOfDistinct(page);
    CountedAll(env, table, failing, Ids(page));
    CountedSame(env, table, start, failing, Ids(page));
    CountedUnion(env, start, failing, Ids(visited), Ids(page));
  }

  lemma {:induction false} SizeOfDistinct(page: seq<string>)
    requires forall i, j :: 0 <= i < j < |page| ==> page[i] != page[j]
    ensures |Ids(page)| == |page|
  {
    if page != [] {
      var front, last := page[..|page| - 1], page[|page| - 1];
      SizeOfDistinct(front);
      assert page == front + [last] && last !in front;
      assert Ids(page) == Ids(front) + {last};
    }
  }

  lemma {:induction false} CountedKind(env: Platform, table: Table, failing: set<string>, dryRun: bool,
                                       done: seq<string>, kind: string, more: set<string>)
    requires kind !in done && more <= Reachable(table, kind)
    ensures
      var current := Processed(env, table, failing, dryRun, Scope(table, done));
      Counted(env, table, failing, Scope(table, done) + more) ==
      Plus(Counted(env, table, failing, Scope(table, done)), Counted(env, current, failing, more))
  {
    var current := Processed(env, table, failing, dryRun, Scope(table, done));
    CountedSame(env, current, table, failing, more) by {
      hide Row;
    }
    CountedUnion(env, table, failing, Scope(table, done), more);
  }
}
