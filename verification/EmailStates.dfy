/**
 * The email ingestion state machine: what the transition history of an email says when calls
 * interleave, and what it says about anonymisation.
 */
module EmailStates {
  import opened Options

  datatype State = ImapReceived | Anonymising | Storing | Queued | Indexed | Failed

  function LegalTransitions(s: State): set<State> {
    match s
    case ImapReceived => {Anonymising}
    case Anonymising => {Storing, Failed}
    case Storing => {Queued, Failed}
    case Queued => {Indexed}
    case Indexed => {}
    case Failed => {Anonymising, Storing}
  }

  predicate Legal(current: State, to: State) {
    to in LegalTransitions(current)
  }

  // The allowed pairs of states, one by one.
  const TABLE := {
    (ImapReceived, Anonymising), (Anonymising, Storing), (Anonymising, Failed), (Storing, Queued), (Storing, Failed),
    (Queued, Indexed), (Failed, Anonymising), (Failed, Storing)}

  lemma {:induction false} LegalIffInTable()
    ensures forall current, to :: Legal(current, to) <==> (current, to) in TABLE
  {
  }

  // A row of the transition log; the log keeps its rows in the order they were inserted.
  datatype LogRow = LogRow(emailId: string, current: Option<State>, to: State)

  // How far a call has come: it has read the state, or written it without having logged that yet.
  datatype Call = Seen(emailId: string, state: State) | Unlogged(row: LogRow)

  // The two tables and the calls under way. `updates` is no table: it remembers the writes of the
  // state table in the order they took effect.
  datatype Db = Db(states: map<string, State>, log: seq<LogRow>, calls: map<int, Call>, updates: seq<LogRow>)

  const EMPTY := Db(map[], [], map[], [])

  // One SQL statement each. Nothing locks the state row between a read and its update, and no
  // transaction binds an update to its log row.
  datatype Step =
    | Init(call: int, emailId: string)
    | Read(call: int, emailId: string)
    | Update(call: int, to: State)
    | Log(call: int)

  // The change of the state table a step makes.
  function Written(db: Db, s: Step): Option<LogRow> {
    match s
    case Init(call, id) =>
      if call in db.calls || id in db.states then None else Some(LogRow(id, None, ImapReceived))
    case Update(call, to) =>
      if call in db.calls && db.calls[call].Seen? && Legal(db.calls[call].state, to)
      then Some(LogRow(db.calls[call].emailId, Some(db.calls[call].state), to))
      else None
    case _ => None
  }

  // The row a step inserts into the log.
  function Inserted(db: Db, s: Step): Option<LogRow> {
    if s.Log? && s.call in db.calls && db.calls[s.call].Unlogged? then Some(db.calls[s.call].row) else None
  }

  function Next(db: Db, s: Step): Db {
    var written, inserted := Written(db, s), Inserted(db, s);
    if written.Some? then
      var row := written.value;
      Db(db.states[row.emailId := row.to], db.log, db.calls[s.call := Unlogged(row)], db.updates + [row])
    else if inserted.Some? then
      db.(log := db.log + [inserted.value], calls := db.calls - {s.call})
    else if s.Update? && s.call in db.calls && db.calls[s.call].Seen? then
      db.(calls := db.calls - {s.call})
    else if s.Read? && s.call !in db.calls && s.emailId in db.states then
      db.(calls := db.calls[s.call := Seen(s.emailId, db.states[s.emailId])])
    else db
  }

  datatype Outcome = Done | Duplicate | Missing | Illegal

  class EmailIngestion {
    var states: map<string, State>
    var log: seq<LogRow>
    ghost var updates: seq<LogRow>

    ghost function Contents(): Db
      reads this
    {
      Db(states, log, map[], updates)
    }

    constructor ()
      ensures Contents() == EMPTY
    {
      states, log, updates := map[], [], [];
    }

    // A call that nothing interleaves with: its statements one after the other.
    method InitEmailState(emailId: string) returns (outcome: Outcome)
      modifies this
      ensures Contents() == Next(Next(old(Contents()), Init(0, emailId)), Log(0))
      ensures outcome == if emailId in old(states) then Duplicate else Done
    {
      if emailId in states {
        return Duplicate;
      }
      ghost var row := LogRow(emailId, None, ImapReceived);
      assert Next(Contents(), Init(0, emailId)).calls == map[0 := Unlogged(row)];
      states := states[emailId := ImapReceived];
      updates := updates + [row];
      log := log + [LogRow(emailId, None, ImapReceived)];
      outcome := Done;
    }

    method Transition(emailId: string, to: State) returns (outcome: Outcome)
      modifies this
      ensures Contents() == Next(Next(Next(old(Contents()), Read(0, emailId)), Update(0, to)), Log(0))
      ensures outcome ==
        if emailId !in old(states) then Missing else if Legal(old(states)[emailId], to) then Done else Illegal
      ensures emailId in old(states) ==> (outcome == Done <==> (old(states)[emailId], to) in TABLE)
      ensures outcome == Done ==>
        && states == old(states)[emailId := to]
        && log == old(log) + [LogRow(emailId, Some(old(states)[emailId]), to)]
      ensures outcome != Done ==> states == old(states) && log == old(log)
    {
      LegalIffInTable();
      if emailId !in states {
        return Missing;
      }
      var currentState := states[emailId];
      assert Next(Contents(), Read(0, emailId)).calls == map[0 := Seen(emailId, currentState)];
      if !Legal(currentState, to) {
        return Illegal;
      }
      ghost var row := LogRow(emailId, Some(currentState), to);
      assert Next(Next(Contents(), Read(0, emailId)), Update(0, to)).calls == map[0 := Unlogged(row)];
      states := states[emailId := to];
      updates := updates + [row];
      log := log + [LogRow(emailId, Some(currentState), to)];
      outcome := Done;
    }

    method GetTransitionHistory(emailId: string) returns (history: seq<LogRow>)
      ensures history == History(log, emailId)
    {
      history := [];
      for i := 0 to |log|
        invariant history == History(log[..i], emailId)
      {
        HistoryGrows(log[..i], log[i], emailId);
        assert log[..i + 1] == log[..i] + [log[i]];
        if log[i].emailId == emailId {
          history := history + [log[i]];
        }
      }
      assert log[..|log|] == log;
    }
  }

  function History(log: seq<LogRow>, id: string): seq<LogRow> {
    if log == [] then []
    else
      var earlier := History(log[..|log| - 1], id);
      if log[|log| - 1].emailId == id then earlier + [log[|log| - 1]] else earlier
  }

  lemma {:induction false} HistoryGrows(log: seq<LogRow>, row: LogRow, id: string)
    ensures History(log + [row], id) == History(log, id) + if row.emailId == id then [row] else []
  {
    assert (log + [row])[..|log|] == log;
  }

  // ---------------------------------------------------------------------------
  // Every interleaving
  // ---------------------------------------------------------------------------

  function Run(steps: seq<Step>): Db {
    if steps == [] then EMPTY else Next(Run(steps[..|steps| - 1]), steps[|steps| - 1])
  }

  // The email as its updates tell it, and as the log does.
  function Course(db: Db, id: string): seq<LogRow> {
    History(db.updates, id)
  }

  function Logged(db: Db, id: string): seq<LogRow> {
    History(db.log, id)
  }

  function StateOf(db: Db, id: string): Option<State> {
    if id in db.states then Some(db.states[id]) else None
  }

  // The calls that have changed the email without having logged it.
  ghost function Behind(db: Db, id: string): set<int> {
    set c | c in db.calls && db.calls[c].Unlogged? && db.calls[c].row.emailId == id
  }

  ghost predicate LegalRow(row: LogRow) {
    if row.current.None? then row.to == ImapReceived else Legal(row.current.value, row.to)
  }

  // The updates start at IMAP_RECEIVED, are legal pairs and end in the stored state.
  ghost predicate Faithful(course: seq<LogRow>, state: Option<State>) {
    && (course == [] <==> state.None?)
    && (course != [] ==> course[0].current.None? && state == Some(course[|course| - 1].to))
    && (forall i :: 1 <= i < |course| ==> course[i].current.Some?)
    && forall i :: 0 <= i < |course| ==> LegalRow(course[i])
  }

  // Each row starts where the row before it ended.
  ghost predicate Linked(history: seq<LogRow>) {
    forall i :: 1 <= i < |history| ==> history[i].current == Some(history[i - 1].to)
  }

  ghost predicate CallsKnown(db: Db) {
    forall c :: c in db.calls ==>
      if db.calls[c].Seen? then db.calls[c].emailId in db.states
      else db.calls[c].row.emailId in db.states && LegalRow(db.calls[c].row)
  }

  // What holds of an email whatever the interleaving.
  ghost predicate Always(db: Db, id: string) {
    && CallsKnown(db)
    && Faithful(Course(db, id), StateOf(db, id))
    && |Logged(db, id)| + |Behind(db, id)| == |Course(db, id)|
    && forall i :: 0 <= i < |Logged(db, id)| ==> LegalRow(Logged(db, id)[i])
  }

  // The history is the course of the email, as far as it goes, and the course is one path.
  ghost predicate Truthful(db: Db, id: string) {
    Logged(db, id) <= Course(db, id) && Linked(Course(db, id))
  }

  // An update that rests on a state the email has left.
  predicate StaleUpdate(db: Db, s: Step, id: string) {
    var row := Written(db, s);
    row.Some? && row.value.emailId == id && row.value.current != StateOf(db, id)
  }

  // A log row that is not the next one of the email's updates.
  predicate OutOfOrder(db: Db, s: Step, id: string) {
    var row := Inserted(db, s);
    row.Some? && row.value.emailId == id &&
    !(|Logged(db, id)| < |Course(db, id)| && Course(db, id)[|Logged(db, id)|] == row.value)
  }

  ghost predicate Orderly(steps: seq<Step>, id: string) {
    steps == [] ||
    var db, s := Run(steps[..|steps| - 1]), steps[|steps| - 1];
    Orderly(steps[..|steps| - 1], id) && !StaleUpdate(db, s, id) && !OutOfOrder(db, s, id)
  }

  lemma {:induction false} StepKeepsCalls(db: Db, s: Step)
    requires CallsKnown(db)
    ensures CallsKnown(Next(db, s))
  {
    hide Legal;
  }

  lemma {:induction false} StepWrites(db: Db, s: Step, id: string)
    ensures
      var row, after := Written(db, s), Next(db, s);
      if row.Some? && row.value.emailId == id then
        Course(after, id) == Course(db, id) + [row.value] && StateOf(after, id) == Some(row.value.to)
      else
        Course(after, id) == Course(db, id) && StateOf(after, id) == StateOf(db, id)
  {
    var row := Written(db, s);
    if row.Some? {
      HistoryGrows(db.updates, row.value, id);
      assert Next(db, s).updates == db.updates + [row.value];
    }
    hide History;
    hide Legal;
  }

  lemma {:induction false} StepInserts(db: Db, s: Step, id: string)
    ensures
      var row, after := Inserted(db, s), Next(db, s);
      Logged(after, id) == Logged(db, id) + if row.Some? && row.value.emailId == id then [row.value] else []
  {
    var row := Inserted(db, s);
    if row.Some? {
      HistoryGrows(db.log, row.value, id);
      assert Next(db, s).log == db.log + [row.value];
    }
    hide History;
    hide Legal;
  }

  // An update puts one call behind, its log row takes it out again.
  lemma {:induction false} StepKeepsCount(db: Db, s: Step, id: string)
    ensures
      var written, inserted := Written(db, s), Inserted(db, s);
      |Behind(Next(db, s), id)| == |Behind(db, id)|
        + (if written.Some? && written.value.emailId == id then 1 else 0)
        - (if inserted.Some? && inserted.value.emailId == id then 1 else 0)
  {
    hide Legal;
    var written, inserted := Written(db, s), Inserted(db, s);
    var before, after := Behind(db, id), Behind(Next(db, s), id);
    if written.Some? && written.value.emailId == id {
      assert after == before + {s.call} && s.call !in before;
    } else if inserted.Some? && inserted.value.emailId == id {
      assert after == before - {s.call} && s.call in before;
    } else {
      assert after == before;
    }
  }

  lemma {:induction false} FaithfulGrows(course: seq<LogRow>, row: LogRow, state: Option<State>)
    requires Faithful(course, state) && LegalRow(row) && (row.current.None? <==> course == [])
    ensures Faithful(course + [row], Some(row.to))
  {
    hide LegalRow;
    var more := course + [row];
    assert forall i :: 0 <= i < |course| ==> more[i] == course[i];
  }

  lemma {:induction false} LinkedGrows(h: seq<LogRow>, row: LogRow)
    ensures Linked(h + [row]) <==> Linked(h) && (h != [] ==> row.current == Some(h[|h| - 1].to))
  {
    var more := h + [row];
    assert h != [] ==> more[|h|] == row && more[|h| - 1] == h[|h| - 1];
    assert forall i :: 0 <= i < |h| ==> more[i] == h[i];
    if Linked(more) {
      if h != [] {
        assert more[|h|].current == Some(more[|h| - 1].to);
      }
      forall i | 1 <= i < |h| ensures h[i].current == Some(h[i - 1].to) {
        assert more[i].current == Some(more[i - 1].to);
      }
    }
  }

  // The row a step writes fits the calls and tables it came from.
  lemma {:induction false} WrittenIsLegal(db: Db, s: Step)
    requires CallsKnown(db) && Written(db, s).Some?
    ensures
      var row := Written(db, s).value;
      LegalRow(row) && (row.current.None? <==> row.emailId !in db.states)
  {
    hide Legal;
  }

  lemma {:induction false} InsertedIsLegal(db: Db, s: Step)
    requires CallsKnown(db) && Inserted(db, s).Some?
    ensures LegalRow(Inserted(db, s).value) && s.call in Behind(db, Inserted(db, s).value.emailId)
  {
  }

  lemma {:induction false} StepKeepsFaith(db: Db, s: Step, id: string)
    requires CallsKnown(db) && Faithful(Course(db, id), StateOf(db, id))
    ensures Faithful(Course(Next(db, s), id), StateOf(Next(db, s), id))
  {
    StepWrites(db, s, id);
    var row := Written(db, s);
    if row.Some? && row.value.emailId == id {
      WrittenIsLegal(db, s);
      hide Next;
      hide History;
      hide Written;
      FaithfulGrows(Course(db, id), row.value, StateOf(db, id));
    }
  }

  lemma {:induction false} StepKeepsRows(db: Db, s: Step, id: string)
    requires CallsKnown(db) && forall i :: 0 <= i < |Logged(db, id)| ==> LegalRow(Logged(db, id)[i])
    ensures forall i :: 0 <= i < |Logged(Next(db, s), id)| ==> LegalRow(Logged(Next(db, s), id)[i])
  {
    StepInserts(db, s, id);
    if Inserted(db, s).Some? {
      InsertedIsLegal(db, s);
    }
    hide Next;
    hide History;
    hide Inserted;
    hide LegalRow;
  }

  lemma {:induction false} StepKeepsAlways(db: Db, s: Step, id: string)
    requires Always(db, id)
    ensures Always(Next(db, s), id)
  {
    StepKeepsCalls(db, s);
    StepKeepsFaith(db, s, id);
    StepKeepsRows(db, s, id);
    StepWrites(db, s, id);
    StepInserts(db, s, id);
    StepKeepsCount(db, s, id);
    hide Written;
    hide Inserted;
    hide Next;
    hide LegalRow;
    hide CallsKnown;
    hide Faithful;
    hide Behind;
    hide History;
  }

  lemma {:induction false} WritesOrInserts(db: Db, s: Step)
    ensures Written(db, s).None? || Inserted(db, s).None?
  {
  }

  lemma {:induction false} PrefixGrowsBelow(a: seq<LogRow>, b: seq<LogRow>, row: LogRow)
    requires |a| <= |b|
    ensures a <= b + [row] <==> a <= b
  {
    assert (b + [row])[..|a|] == b[..|a|];
    assert a <= b <==> a == b[..|a|];
    assert a <= b + [row] <==> a == (b + [row])[..|a|];
  }

  lemma {:induction false} PrefixGrowsAbove(a: seq<LogRow>, row: LogRow, b: seq<LogRow>)
    requires |a| < |b|
    ensures a + [row] <= b <==> a <= b && b[|a|] == row
  {
    var n := |a|;
    assert b[..n + 1] == b[..n] + [b[n]];
    assert a + [row] <= b <==> a + [row] == b[..n + 1];
    assert a <= b <==> a == b[..n];
    if a + [row] == b[..n + 1] {
      assert (a + [row])[..n] == a && (a + [row])[n] == row;
    }
  }

  lemma {:induction false} SomeoneBehind(db: Db, s: Step, id: string)
    requires Always(db, id) && Inserted(db, s).Some? && Inserted(db, s).value.emailId == id
    ensures |Logged(db, id)| < |Course(db, id)|
  {
    InsertedIsLegal(db, s);
    assert Behind(db, id) != {};
  }

  lemma {:induction false} StepKeepsTruthIff(db: Db, s: Step, id: string)
    requires Always(db, id)
    ensures Truthful(Next(db, s), id) <==> Truthful(db, id) && !StaleUpdate(db, s, id) && !OutOfOrder(db, s, id)
  {
    StepWrites(db, s, id);
    StepInserts(db, s, id);
    WritesOrInserts(db, s);
    hide Linked;
    hide History;
    hide Next;
    var written, inserted := Written(db, s), Inserted(db, s);
    if inserted.Some? && inserted.value.emailId == id {
      SomeoneBehind(db, s, id);
      hide Always;
      hide Inserted;
      hide Written;
      PrefixGrowsAbove(Logged(db, id), inserted.value, Course(db, id));
    } else if written.Some? && written.value.emailId == id {
      WrittenIsLegal(db, s);
      hide Inserted;
      hide Written;
      hide LegalRow;
      hide Behind;
      PrefixGrowsBelow(Logged(db, id), Course(db, id), written.value);
      LinkedGrows(Course(db, id), written.value);
    }
  }

  // In every interleaving of statements: every logged pair is legal, the updates of an email are
  // legal pairs from IMAP_RECEIVED to the stored state, and the log lacks exactly the rows of the
  // calls that have not logged yet. The history is the true course of the email, and that course
  // one path, exactly when no call updated a state that had moved since it read it and the rows
  // of the email were logged in the order of its updates.
  lemma {:induction false} HistoryIsTrueIffOrderly(steps: seq<Step>, id: string)
    ensures Always(Run(steps), id)
    ensures Truthful(Run(steps), id) <==> Orderly(steps, id)
  {
    if steps == [] {
      assert Behind(EMPTY, id) == {};
    } else {
      var earlier := steps[..|steps| - 1];
      HistoryIsTrueIffOrderly(earlier, id);
      hide Always;
      hide Truthful;
      StepKeepsAlways(Run(earlier), steps[|steps| - 1], id);
      StepKeepsTruthIff(Run(earlier), steps[|steps| - 1], id);
    }
  }

  // Once nobody is behind, an orderly run has logged the whole course, up to the stored state.
  lemma {:induction false} OrderlyHistoryIsComplete(steps: seq<Step>, id: string)
    requires Behind(Run(steps), id) == {}
    ensures
      var db := Run(steps);
      && (Logged(db, id) == Course(db, id) && Linked(Logged(db, id)) <==> Orderly(steps, id))
      && (Orderly(steps, id) ==> Faithful(Logged(db, id), StateOf(db, id)))
  {
    HistoryIsTrueIffOrderly(steps, id);
    var db := Run(steps);
    hide *;
    AlwaysMeans(db, id);
    TruthfulMeans(db, id);
    PrefixOfSameLength(Logged(db, id), Course(db, id));
  }

  lemma {:induction false} AlwaysMeans(db: Db, id: string)
    requires Always(db, id) && Behind(db, id) == {}
    ensures Faithful(Course(db, id), StateOf(db, id)) && |Logged(db, id)| == |Course(db, id)|
  {
    assert |Behind(db, id)| == 0;
  }

  lemma {:induction false} TruthfulMeans(db: Db, id: string)
    ensures Truthful(db, id) <==> Logged(db, id) <= Course(db, id) && Linked(Course(db, id))
  {
  }

  lemma {:induction false} PrefixOfSameLength(a: seq<LogRow>, b: seq<LogRow>)
    requires |a| == |b|
    ensures a <= b <==> a == b
  {
  }

  // Two overlapping calls can both take a received email to ANONYMISING: the second one starts
  // from IMAP_RECEIVED, where the email no longer is.
  lemma {:induction false} OverlappingCallsBothSucceed(id: string)
    ensures
      var steps := [Init(0, id), Log(0), Read(1, id), Read(2, id), Update(1, Anonymising), Update(2, Anonymising)];
      var twice := LogRow(id, Some(ImapReceived), Anonymising);
      Run(steps).updates == [LogRow(id, None, ImapReceived), twice, twice] && !Orderly(steps, id)
  {
    var steps := [Init(0, id), Log(0), Read(1, id), Read(2, id), Update(1, Anonymising), Update(2, Anonymising)];
    var twice := LogRow(id, Some(ImapReceived), Anonymising);
    assert Legal(ImapReceived, Anonymising) && steps[..6] == steps;
    hide *;
    BothSeen(steps, id);
    var d4 := Run(steps[..4]);
    var d5 := DoUpdate(steps, 4, d4, ImapReceived);
    var d6 := DoUpdate(steps, 5, d5, ImapReceived);
    assert d6.updates == [LogRow(id, None, ImapReceived), twice, twice];
    StaleIsNotOrderly(steps, 5, id, d5);
  }

  // Two calls that do not even race for the state can log in the wrong order: no update is stale,
  // yet the history neither links nor ends in the stored state.
  lemma {:induction false} LateLogBreaksHistory(id: string)
    ensures
      var steps := [Init(0, id), Log(0), Read(1, id), Update(1, Anonymising), Read(2, id), Update(2, Storing),
        Log(2), Log(1)];
      var db := Run(steps);
      var first, second, third :=
        LogRow(id, None, ImapReceived), LogRow(id, Some(ImapReceived), Anonymising),
          LogRow(id, Some(Anonymising), Storing);
      && db.calls.Keys == {} && StateOf(db, id) == Some(Storing)
      && Course(db, id) == [first, second, third] && Linked(Course(db, id))
      && Logged(db, id) == [first, third, second] && !Linked(Logged(db, id))
      && !Orderly(steps, id)
  {
    var steps := [Init(0, id), Log(0), Read(1, id), Update(1, Anonymising), Read(2, id), Update(2, Storing), Log(2),
      Log(1)];
    var first, second, third :=
      LogRow(id, None, ImapReceived), LogRow(id, Some(ImapReceived), Anonymising),
        LogRow(id, Some(Anonymising), Storing);
    assert steps[..8] == steps;
    hide *;
    TwoUnlogged(steps, id);
    var d6 := Run(steps[..6]);
    var d7 := DoLog(steps, 6, d6);
    var d8 := DoLog(steps, 7, d7);
    assert d8.updates == [first, second, third] && d8.log == [first, third, second];
    LateLogOf(d8, first, second, third, id);
    HistoryIsTrueIffOrderly(steps, id);
    assert d8.calls.Keys == {};
    assert d8.states[id] == Storing;
    StateIs(d8, id);
  }

  lemma {:induction false} BothSeen(steps: seq<Step>, id: string)
    requires |steps| >= 4 && steps[0] == Init(0, id) && steps[1] == Log(0) && steps[2] == Read(1, id) &&
      steps[3] == Read(2, id)
    ensures
      var db := Run(steps[..4]);
      && db.updates == [LogRow(id, None, ImapReceived)] && id in db.states && db.states[id] == ImapReceived
      && 1 in db.calls && 2 in db.calls && db.calls[1] == db.calls[2] == Seen(id, ImapReceived)
  {
    assert steps[..0] == [] && Run([]) == EMPTY;
    hide *;
    var d1 := DoInit(steps, 0, EMPTY);
    var d2 := DoLog(steps, 1, d1);
    var d3 := DoRead(steps, 2, d2);
    var d4 := DoRead(steps, 3, d3);
  }

  lemma {:induction false} OneUnlogged(steps: seq<Step>, id: string)
    requires |steps| >= 4 && steps[0] == Init(0, id) && steps[1] == Log(0) && steps[2] == Read(1, id)
    requires steps[3] == Update(1, Anonymising)
    ensures
      var db := Run(steps[..4]);
      var first, second := LogRow(id, None, ImapReceived), LogRow(id, Some(ImapReceived), Anonymising);
      && db.log == [first] && db.updates == [first, second] && id in db.states && db.states[id] == Anonymising
      && db.calls.Keys == {1} && db.calls[1] == Unlogged(second)
  {
    assert Legal(ImapReceived, Anonymising);
    assert steps[..0] == [] && Run([]) == EMPTY;
    hide *;
    var d1 := DoInit(steps, 0, EMPTY);
    var d2 := DoLog(steps, 1, d1);
    var d3 := DoRead(steps, 2, d2);
    var d4 := DoUpdate(steps, 3, d3, ImapReceived);
  }

  lemma {:induction false} TwoUnlogged(steps: seq<Step>, id: string)
    requires |steps| >= 6 && steps[0] == Init(0, id) && steps[1] == Log(0) && steps[2] == Read(1, id)
    requires steps[3] == Update(1, Anonymising) && steps[4] == Read(2, id) && steps[5] == Update(2, Storing)
    ensures
      var db := Run(steps[..6]);
      var first, second, third :=
        LogRow(id, None, ImapReceived), LogRow(id, Some(ImapReceived), Anonymising),
          LogRow(id, Some(Anonymising), Storing);
      && db.log == [first] && db.updates == [first, second, third] && id in db.states && db.states[id] == Storing
      && db.calls.Keys == {1, 2} && db.calls[1] == Unlogged(second) && db.calls[2] == Unlogged(third)
  {
    assert Legal(Anonymising, Storing);
    hide *;
    OneUnlogged(steps, id);
    var d4 := Run(steps[..4]);
    var d5 := DoRead(steps, 4, d4);
    var d6 := DoUpdate(steps, 5, d5, Anonymising);
  }

  lemma {:induction false} StateIs(db: Db, id: string)
    requires id in db.states
    ensures StateOf(db, id) == Some(db.states[id])
  {
  }

  lemma {:induction false} LateLogOf(db: Db, a: LogRow, b: LogRow, c: LogRow, id: string)
    requires db.updates == [a, b, c] && db.log == [a, c, b] && a.emailId == b.emailId == c.emailId == id
    requires b.current == Some(a.to) && c.current == Some(b.to) && c.current != Some(a.to)
    ensures Course(db, id) == [a, b, c] && Linked(Course(db, id))
    ensures Logged(db, id) == [a, c, b] && !Linked(Logged(db, id)) && !Truthful(db, id)
  {
    ThreeRows(a, b, c, id);
    ThreeRows(a, c, b, id);
    hide History;
    assert [a, c, b][1].current != Some([a, c, b][0].to);
    assert [a, c, b][1] != [a, b, c][1];
  }

  lemma {:induction false} ThreeRows(a: LogRow, b: LogRow, c: LogRow, id: string)
    requires a.emailId == b.emailId == c.emailId == id
    ensures History([a, b, c], id) == [a, b, c]
  {
    HistoryGrows([], a, id);
    HistoryGrows([a], b, id);
    HistoryGrows([a, b], c, id);
    assert [a, b] == [a] + [b] && [a, b, c] == [a, b] + [c] && [a] == [] + [a];
  }

  lemma {:induction false} StaleIsNotOrderly(steps: seq<Step>, i: nat, id: string, db: Db)
    requires |steps| == i + 1 && Run(steps[..i]) == db && steps[i].Update?
    requires steps[i].call in db.calls && db.calls[steps[i].call].Seen? &&
      Legal(db.calls[steps[i].call].state, steps[i].to)
    requires db.calls[steps[i].call].emailId == id && id in db.states && db.states[id] != db.calls[steps[i].call].state
    ensures !Orderly(steps, id)
  {
    hide Run;
    hide Legal;
    assert StaleUpdate(db, steps[i], id);
  }

  // One step of a concrete run.
  lemma {:induction false} DoInit(steps: seq<Step>, i: nat, db: Db) returns (after: Db)
    requires i < |steps| && steps[i].Init? && Run(steps[..i]) == db
    requires steps[i].call !in db.calls && steps[i].emailId !in db.states
    ensures
      var id := steps[i].emailId;
      var row := LogRow(id, None, ImapReceived);
      Run(steps[..i + 1]) == after ==
      Db(db.states[id := ImapReceived], db.log, db.calls[steps[i].call := Unlogged(row)], db.updates + [row])
  {
    RunAt(steps, i);
    hide Run;
    after := Next(db, steps[i]);
  }

  lemma {:induction false} DoRead(steps: seq<Step>, i: nat, db: Db) returns (after: Db)
    requires i < |steps| && steps[i].Read? && Run(steps[..i]) == db
    requires steps[i].call !in db.calls && steps[i].emailId in db.states
    ensures
      var id := steps[i].emailId;
      Run(steps[..i + 1]) == after == db.(calls := db.calls[steps[i].call := Seen(id, db.states[id])])
  {
    RunAt(steps, i);
    hide Run;
    after := Next(db, steps[i]);
  }

  lemma {:induction false} DoUpdate(steps: seq<Step>, i: nat, db: Db, seen: State) returns (after: Db)
    requires i < |steps| && steps[i].Update? && Run(steps[..i]) == db
    requires steps[i].call in db.calls && db.calls[steps[i].call].Seen? && db.calls[steps[i].call].state == seen
    requires Legal(seen, steps[i].to)
    ensures
      var id := db.calls[steps[i].call].emailId;
      var row := LogRow(id, Some(seen), steps[i].to);
      Run(steps[..i + 1]) == after ==
      Db(db.states[id := steps[i].to], db.log, db.calls[steps[i].call := Unlogged(row)], db.updates + [row])
  {
    RunAt(steps, i);
    hide Run;
    hide Legal;
    after := Next(db, steps[i]);
  }

  lemma {:induction false} DoLog(steps: seq<Step>, i: nat, db: Db) returns (after: Db)
    requires i < |steps| && steps[i].Log? && Run(steps[..i]) == db
    requires steps[i].call in db.calls && db.calls[steps[i].call].Unlogged?
    ensures
      Run(steps[..i + 1]) == after ==
      db.(log := db.log + [db.calls[steps[i].call].row], calls := db.calls - {steps[i].call})
  {
    RunAt(steps, i);
    hide Run;
    after := Next(db, steps[i]);
  }

  lemma {:induction false} RunAt(steps: seq<Step>, i: nat)
    requires i < |steps|
    ensures Run(steps[..i + 1]) == Next(Run(steps[..i]), steps[i])
  {
    var upTo := steps[..i + 1];
    assert upTo[..i] == steps[..i] && upTo[i] == steps[i];
  }

  // ---------------------------------------------------------------------------
  // Anonymisation before storing, in every interleaving
  // ---------------------------------------------------------------------------

  // The state was reached by one of these updates.
  ghost predicate Reached(course: seq<LogRow>, state: State) {
    exists k :: 0 <= k < |course| && course[k].to == state
  }

  // Every update starts from a state an earlier one reached, whoever may have moved the email on
  // in between; and so does every call that has read the state.
  ghost predicate Caused(course: seq<LogRow>) {
    forall j :: 0 <= j < |course| && course[j].current.Some? ==> Reached(course[..j], course[j].current.value)
  }

  ghost predicate ReadsAreCaused(db: Db, id: string) {
    forall c :: c in db.calls && db.calls[c].Seen? && db.calls[c].emailId == id ==>
      Reached(Course(db, id), db.calls[c].state)
  }

  lemma {:induction false} CausedGrows(course: seq<LogRow>, row: LogRow)
    requires Caused(course) && (row.current.Some? ==> Reached(course, row.current.value))
    ensures Caused(course + [row])
  {
    var more := course + [row];
    hide Reached;
    assert more[..|course|] == course;
    forall j | 0 <= j < |more| && more[j].current.Some? ensures Reached(more[..j], more[j].current.value) {
      if j < |course| {
        assert more[j] == course[j] && more[..j] == course[..j];
      }
    }
  }

  lemma {:induction false} ReachedGrows(course: seq<LogRow>, row: LogRow, state: State)
    requires Reached(course, state)
    ensures Reached(course + [row], state)
  {
    var k :| 0 <= k < |course| && course[k].to == state;
    assert (course + [row])[k] == course[k];
  }

  // A call that reads finds the state the last update reached.
  lemma {:induction false} StepKeepsReads(db: Db, s: Step, id: string)
    requires CallsKnown(db) && Faithful(Course(db, id), StateOf(db, id)) && ReadsAreCaused(db, id)
    ensures ReadsAreCaused(Next(db, s), id)
  {
    StepWrites(db, s, id);
    var next, course := Next(db, s), Course(db, id);
    forall c | c in next.calls && next.calls[c].Seen? && next.calls[c].emailId == id
      ensures Reached(Course(next, id), next.calls[c].state)
    {
      if c in db.calls && db.calls[c] == next.calls[c] {
        assert Reached(course, next.calls[c].state);
        if Course(next, id) != course {
          ReachedGrows(course, Written(db, s).value, next.calls[c].state);
        }
      } else {
        assert s.Read? && StateOf(db, id) == Some(next.calls[c].state);
        assert course[|course| - 1].to == next.calls[c].state;
      }
    }
  }

  lemma {:induction false} StepKeepsCauses(db: Db, s: Step, id: string)
    requires ReadsAreCaused(db, id) && Caused(Course(db, id))
    ensures Caused(Course(Next(db, s), id))
  {
    StepWrites(db, s, id);
    var row := Written(db, s);
    if row.Some? && row.value.emailId == id {
      assert row.value.current.Some? ==> Reached(Course(db, id), row.value.current.value);
      hide Next;
      hide Reached;
      hide Written;
      CausedGrows(Course(db, id), row.value);
    }
  }

  lemma {:induction false} RunIsCaused(steps: seq<Step>, id: string)
    ensures Caused(Course(Run(steps), id)) && ReadsAreCaused(Run(steps), id)
  {
    if steps != [] {
      var earlier, s := steps[..|steps| - 1], steps[|steps| - 1];
      RunIsCaused(earlier, id);
      HistoryIsTrueIffOrderly(earlier, id);
      var db := Run(earlier);
      assert CallsKnown(db) && Faithful(Course(db, id), StateOf(db, id));
      hide *;
      RunEnds(steps);
      StepKeepsReads(db, s, id);
      StepKeepsCauses(db, s, id);
    }
  }

  lemma {:induction false} RunEnds(steps: seq<Step>)
    requires steps != []
    ensures Run(steps) == Next(Run(steps[..|steps| - 1]), steps[|steps| - 1])
  {
  }

  // The update that first reached a state, and the one before it that reached where it came from.
  lemma {:induction false} FirstReaching(course: seq<LogRow>, state: State, i: nat) returns (first: nat)
    requires i < |course| && course[i].to == state
    ensures first <= i && course[first].to == state && forall k :: 0 <= k < first ==> course[k].to != state
  {
    first := 0;
    while course[first].to != state
      invariant first <= i && forall k :: 0 <= k < first ==> course[k].to != state
      decreases i - first
    {
      first := first + 1;
    }
  }

  lemma {:induction false} Origin(course: seq<LogRow>, i: nat) returns (k: nat)
    requires Caused(course) && i < |course| && course[i].current.Some?
    ensures k < i && course[k].to == course[i].current.value
  {
    var before := course[..i];
    k :| 0 <= k < |before| && before[k].to == course[i].current.value;
  }

  // Any course of legal, caused updates: what it takes to reach STORING at all.
  lemma {:induction false} StoringWasAnonymising(course: seq<LogRow>, i: nat) returns (a: nat, first: nat)
    requires Caused(course) && (forall k :: 0 <= k < |course| ==> LegalRow(course[k]))
    requires i < |course| && course[i].to == Storing
    ensures a < first <= i && course[a].to == Anonymising && course[first].to == Storing
    ensures forall k :: 0 <= k < first ==> course[k].to != Storing
  {
    first := FirstReaching(course, Storing, i);
    assert LegalRow(course[first]);
    a := Origin(course, first);
    if course[a].to == Failed {
      assert LegalRow(course[a]);
      a := Origin(course, a);
    }
  }

  // In every interleaving of statements, an email that is INDEXED was ANONYMISING before its
  // first STORING, and QUEUED after a STORING and before.
  lemma {:induction false} IndexedWasAnonymised(steps: seq<Step>, id: string, i: nat)
    returns (a: nat, first: nat, queued: nat)
    requires i < |Course(Run(steps), id)| && Course(Run(steps), id)[i].to == Indexed
    ensures
      var course := Course(Run(steps), id);
      && a < first < queued < i && course[a].to == Anonymising && course[first].to == Storing &&
         course[queued].to == Queued
      && forall k :: 0 <= k < first ==> course[k].to != Storing
  {
    var course := Course(Run(steps), id);
    RunIsCaused(steps, id);
    HistoryIsTrueIffOrderly(steps, id);
    assert forall k :: 0 <= k < |course| ==> LegalRow(course[k]);
    hide *;
    a, first, queued := IndexedWasQueued(course, i);
  }

  lemma {:induction false} IndexedWasQueued(course: seq<LogRow>, i: nat) returns (a: nat, first: nat, queued: nat)
    requires Caused(course) && (forall k :: 0 <= k < |course| ==> LegalRow(course[k]))
    requires i < |course| && course[i].to == Indexed
    ensures a < first < queued < i && course[a].to == Anonymising && course[first].to == Storing &&
      course[queued].to == Queued
    ensures forall k :: 0 <= k < first ==> course[k].to != Storing
  {
    assert LegalRow(course[i]);
    queued := Origin(course, i);
    assert LegalRow(course[queued]);
    var stored := Origin(course, queued);
    assert course[stored].to == Storing;
    hide LegalRow;
    a, first := StoringWasAnonymising(course, stored);
  }

  // ---------------------------------------------------------------------------
  // Anonymisation completed before storing, in every interleaving
  // ---------------------------------------------------------------------------

  predicate Completes(row: LogRow) {
    row.current == Some(Anonymising) && row.to == Storing
  }

  // Before the email is stored, some call has taken it from ANONYMISING to STORING.
  ghost predicate CourseClean(course: seq<LogRow>) {
    forall k :: 0 <= k < |course| && course[k].to == Storing ==> CompletedUpTo(course, k)
  }

  ghost predicate CompletedUpTo(course: seq<LogRow>, k: nat)
    requires k < |course|
  {
    exists j :: 0 <= j <= k && Completes(course[j])
  }

  // A call that retries at STORING an email that never got there.
  ghost predicate SkippingUpdate(db: Db, s: Step, id: string) {
    var row := Written(db, s);
    row.Some? && row.value.emailId == id && SkippingRow(Course(db, id), row.value)
  }

  ghost predicate SkippingRow(course: seq<LogRow>, row: LogRow) {
    row.current == Some(Failed) && row.to == Storing && !Reached(course, Storing)
  }

  ghost predicate NeverSkipping(steps: seq<Step>, id: string) {
    steps == [] ||
    (NeverSkipping(steps[..|steps| - 1], id) && !SkippingUpdate(Run(steps[..|steps| - 1]), steps[|steps| - 1], id))
  }

  lemma {:induction false} CompletionStays(course: seq<LogRow>, row: LogRow, k: nat)
    requires k < |course|
    ensures CompletedUpTo(course + [row], k) <==> CompletedUpTo(course, k)
  {
    hide Completes;
    var more := course + [row];
    if CompletedUpTo(course, k) {
      var j :| 0 <= j <= k && Completes(course[j]);
      assert more[j] == course[j];
    }
    if CompletedUpTo(more, k) {
      var j :| 0 <= j <= k && Completes(more[j]);
      assert more[j] == course[j];
    }
  }

  // The row that is added is preceded by a completed anonymisation, unless it skips it.
  lemma {:induction false} CompletionBefore(course: seq<LogRow>, row: LogRow)
    requires CourseClean(course) && LegalRow(row) && row.to == Storing
    ensures CompletedUpTo(course + [row], |course|) <==> !SkippingRow(course, row)
  {
    var n, more := |course|, course + [row];
    assert row.current == Some(Anonymising) || row.current == Some(Failed);
    assert more[n] == row;
    hide LegalRow;
    if row.current == Some(Anonymising) {
      assert Completes(more[n]);
    } else if Reached(course, Storing) {
      var k :| 0 <= k < n && course[k].to == Storing;
      assert CompletedUpTo(course, k);
      var j :| 0 <= j <= k && Completes(course[j]);
      assert Completes(more[j]);
    } else {
      assert forall j :: 0 <= j < n ==> more[j] == course[j] && !Completes(more[j]);
    }
  }

  lemma {:induction false} CleanGrows(course: seq<LogRow>, row: LogRow)
    requires LegalRow(row)
    ensures CourseClean(course + [row]) <==> CourseClean(course) && !SkippingRow(course, row)
  {
    var n, more := |course|, course + [row];
    assert more[n] == row && forall k :: 0 <= k < n ==> more[k] == course[k];
    forall k | 0 <= k < n ensures CompletedUpTo(more, k) <==> CompletedUpTo(course, k) {
      CompletionStays(course, row, k);
    }
    if CourseClean(course) && row.to == Storing {
      CompletionBefore(course, row);
    }
    hide CompletedUpTo;
    hide LegalRow;
    hide Reached;
  }

  // In every interleaving the anonymisation of an email completed before it was stored exactly
  // when no call retried at STORING an email that had not been there.
  lemma {:induction false} StoredCleanIffNeverSkipping(steps: seq<Step>, id: string)
    ensures CourseClean(Course(Run(steps), id)) <==> NeverSkipping(steps, id)
  {
    if steps != [] {
      var earlier, s := steps[..|steps| - 1], steps[|steps| - 1];
      StoredCleanIffNeverSkipping(earlier, id);
      HistoryIsTrueIffOrderly(earlier, id);
      var db := Run(earlier);
      StepWrites(db, s, id);
      var row := Written(db, s);
      if row.Some? && row.value.emailId == id {
        WrittenIsLegal(db, s);
        hide History;
        hide Next;
        hide CourseClean;
        hide SkippingRow;
        CleanGrows(Course(db, id), row.value);
      }
    }
  }

  // ---------------------------------------------------------------------------
  // What a legal path says
  // ---------------------------------------------------------------------------

  function PathOf(history: seq<LogRow>): (path: seq<State>) {
    seq(|history|, i requires 0 <= i < |history| => history[i].to)
  }

  ghost predicate LegalPath(path: seq<State>) {
    path != [] && path[0] == ImapReceived && forall i :: 1 <= i < |path| ==> Legal(path[i - 1], path[i])
  }

  // Without stale updates and late logs the logged history is a legal path, and it reaches the
  // stored state once nobody is behind.
  lemma {:induction false} OrderlyHistoryIsLegalPath(steps: seq<Step>, id: string)
    requires Orderly(steps, id)
    ensures
      var db := Run(steps);
      var path := PathOf(Logged(db, id));
      && (path != [] ==> LegalPath(path))
      && (Behind(db, id) == {} && id in db.states ==> path != [] && path[|path| - 1] == db.states[id])
  {
    HistoryIsTrueIffOrderly(steps, id);
    var db := Run(steps);
    hide History;
    hide Run;
    hide Orderly;
    var logged, course := Logged(db, id), Course(db, id);
    assert forall i :: 0 <= i < |logged| ==> logged[i] == course[i];
    hide Legal;
  }

  // Before QUEUED, a path only moves between ANONYMISING, STORING and FAILED.
  lemma {:induction false} MiddleOfPath(path: seq<State>, i: nat)
    requires LegalPath(path) && i < |path|
    ensures path[i] == Queued ==> i >= 3 && path[i - 1] == Storing
    ensures path[i] == Indexed ==> i == |path| - 1 && i >= 4 && path[i - 1] == Queued && path[i - 2] == Storing
    ensures i >= 1 ==> path[1] == Anonymising && path[i] != ImapReceived
  {
    if i >= 1 {
      assert Legal(path[0], path[1]) && Legal(path[i - 1], path[i]);
      if i < |path| - 1 {
        assert Legal(path[i], path[i + 1]);
      }
      MiddleOfPath(path, i - 1);
    }
  }

  // An indexed email was ANONYMISING before its first STORING, and QUEUED after a STORING.
  lemma {:induction false} IndexedWasAnonymisingBeforeStoring(path: seq<State>) returns (first: nat)
    requires LegalPath(path) && path[|path| - 1] == Indexed
    ensures 1 < first < |path| - 2 && path[first] == Storing && Storing !in path[..first] &&
      Anonymising in path[..first]
    ensures path[|path| - 3] == Storing && path[|path| - 2] == Queued
    ensures Indexed !in path[..|path| - 1] && Queued !in path[..|path| - 2]
  {
    MiddleOfPath(path, |path| - 1);
    forall i | 0 <= i < |path| - 1 ensures path[i] != Indexed && (path[i] == Queued ==> i == |path| - 2) {
      MiddleOfPath(path, i);
      if path[i] == Queued {
        assert Legal(path[i], path[i + 1]);
        MiddleOfPath(path, i + 1);
      }
    }
    first := 2;
    MiddleOfPath(path, 1);
    assert path[..2][1] == Anonymising;
    while path[first] != Storing
      invariant 2 <= first <= |path| - 3 && Storing !in path[..first] && path[..first][1] == Anonymising
      decreases |path| - first
    {
      assert path[..first + 1] == path[..first] + [path[first]];
      first := first + 1;
    }
  }

  // The updates along a path.
  function CourseOf(path: seq<State>): (course: seq<LogRow>)
    ensures |course| == |path| && forall i :: 0 <= i < |path| ==> course[i].to == path[i]
  {
    if path == [] then []
    else
      var n := |path| - 1;
      CourseOf(path[..n]) + [LogRow("", if n == 0 then None else Some(path[n - 1]), path[n])]
  }

  lemma {:induction false} CourseOfGrows(path: seq<State>, to: State)
    requires path != []
    ensures CourseOf(path + [to]) == CourseOf(path) + [LogRow("", Some(path[|path| - 1]), to)]
  {
    assert (path + [to])[..|path|] == path;
  }

  lemma {:induction false} ReachedOnPath(path: seq<State>, state: State)
    ensures Reached(CourseOf(path), state) <==> state in path
  {
    var course := CourseOf(path);
    hide CourseOf;
    if state in path {
      var i :| 0 <= i < |path| && path[i] == state;
      assert course[i].to == state;
    }
  }

  // Anonymisation completed before the path got to STORING.
  ghost predicate StoredClean(path: seq<State>) {
    CourseClean(CourseOf(path))
  }

  // The one transition that stores an email whose anonymisation never completed: the retry at
  // STORING of an email that failed before it ever reached STORING.
  predicate SkipsAnonymisation(path: seq<State>, to: State) {
    path != [] && path[|path| - 1] == Failed && to == Storing && Storing !in path
  }

  lemma {:induction false} TransitionStoresCleanIff(path: seq<State>, to: State)
    requires path != [] && Legal(path[|path| - 1], to)
    ensures StoredClean(path + [to]) <==> StoredClean(path) && !SkipsAnonymisation(path, to)
  {
    var row := LogRow("", Some(path[|path| - 1]), to);
    CourseOfGrows(path, to);
    ReachedOnPath(path, Storing);
    hide Legal;
    hide CourseOf;
    hide CourseClean;
    CleanGrows(CourseOf(path), row);
    hide Reached;
    assert SkippingRow(CourseOf(path), row) <==> SkipsAnonymisation(path, to);
  }

  ghost predicate NeverSkips(path: seq<State>)
    decreases |path|
  {
    |path| <= 1 || (NeverSkips(path[..|path| - 1]) && !SkipsAnonymisation(path[..|path| - 1], path[|path| - 1]))
  }

  // Every path keeps the promise exactly when none of its transitions was such a retry.
  lemma {:induction false} StoredCleanIffNoSkip(path: seq<State>)
    requires LegalPath(path)
    ensures StoredClean(path) <==> NeverSkips(path)
    decreases |path|
  {
    var n := |path|;
    if n == 1 {
      assert path[..0] == [] && CourseOf(path[..0]) == [];
    } else {
      var shorter, to := path[..n - 1], path[n - 1];
      assert path == shorter + [to] && Legal(path[n - 2], path[n - 1]);
      StoredCleanIffNoSkip(shorter);
      hide StoredClean;
      hide Legal;
      hide SkipsAnonymisation;
      TransitionStoresCleanIff(shorter, to);
    }
  }

  // The machine lets an email be stored and indexed although its anonymisation failed.
  lemma {:induction false} FailedAnonymisationCanBeIndexed()
    ensures
      var path := [ImapReceived, Anonymising, Failed, Storing, Queued, Indexed];
      LegalPath(path) && !StoredClean(path)
  {
    var three := [ImapReceived, Anonymising, Failed];
    var four, five := three + [Storing], three + [Storing] + [Queued];
    assert Legal(Failed, Storing) && Legal(Storing, Queued) && Legal(Queued, Indexed) &&
      SkipsAnonymisation(three, Storing);
    SixStates();
    hide *;
    assert four[|four| - 1] == Storing && five[|five| - 1] == Queued;
    TransitionStoresCleanIff(three, Storing);
    TransitionStoresCleanIff(four, Queued);
    TransitionStoresCleanIff(five, Indexed);
    assert five + [Indexed] == [ImapReceived, Anonymising, Failed, Storing, Queued, Indexed];
  }

  lemma {:induction false} SixStates()
    ensures LegalPath([ImapReceived, Anonymising, Failed, Storing, Queued, Indexed])
  {
  }
}
