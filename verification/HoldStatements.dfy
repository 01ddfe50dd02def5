/**
 * The removal of legal holds, statement by statement: what holds when the calls of different
 * officers interleave because no transaction encloses them.
 */
module HoldStatements {
  import opened Options
  import opened LegalHold

  // How far a call has come. `Marked...` calls have made the first of their two writes.
  datatype Call =
    | SawHold(officer: string, holdId: string)
    | MarkedHold(officer: string, holdId: string)
    | SawRequest(officer: string, requestId: string, verdict: RequestStatus)
    | MarkedRequest(holdId: string, verdict: RequestStatus)

  datatype State = State(db: Db, calls: map<int, Call>)

  // One SQL statement each; reads come with the checks that follow them.
  datatype Step =
    | InsertHold(actor: Actor, tenant: string, newId: string)
    | ReadHold(call: int, actor: Actor, holdId: string)
    | MarkHold(call: int)
    | InsertRequest(call: int, newId: string)
    | ReadRequest(call: int, actor: Actor, requestId: string, approve: bool)
    | MarkRequest(call: int)
    | SettleHold(call: int)

  // The unique constraint, seen from the row that is about to change.
  predicate TakenByOther(db: Db, requestId: string, status: RequestStatus)
    requires requestId in db.requests
  {
    exists r :: r in db.requests && r != requestId && db.requests[r].holdId == db.requests[requestId].holdId
                && db.requests[r].status == status && db.requests[r].requestedBy == db.requests[requestId].requestedBy
  }

  predicate Can(s: State, step: Step) {
    match step
    case InsertHold(actor, _, newId) => Authorised(actor) && newId !in s.db.holds
    case ReadHold(call, actor, holdId) =>
      Authorised(actor) && call !in s.calls && holdId in s.db.holds && s.db.holds[holdId].status == Active
    case MarkHold(call) => call in s.calls && s.calls[call].SawHold?
    case InsertRequest(call, newId) => call in s.calls && s.calls[call].MarkedHold? && newId !in s.db.requests
    case ReadRequest(call, actor, requestId, approve) =>
      && Authorised(actor) && call !in s.calls
      && requestId in s.db.requests && s.db.requests[requestId].status == Pending
      && (approve ==> s.db.requests[requestId].requestedBy != actor.id)
    case MarkRequest(call) =>
      call in s.calls && s.calls[call].SawRequest? && s.calls[call].requestId in s.db.requests
    case SettleHold(call) => call in s.calls && s.calls[call].MarkedRequest?
  }

  // Whether the statement runs into the unique constraint; the call then throws.
  predicate Violates(s: State, step: Step)
    requires Can(s, step)
  {
    match step
    case InsertRequest(call, _) => Taken(s.db, s.calls[call].holdId, Pending, s.calls[call].officer)
    case MarkRequest(call) => TakenByOther(s.db, s.calls[call].requestId, s.calls[call].verdict)
    case _ => false
  }

  function Next(s: State, step: Step): State {
    if !Can(s, step) then s
    else if Violates(s, step) then s.(calls := s.calls - {step.call})
    else
      match step
      case InsertHold(actor, tenant, newId) =>
        s.(db := s.db.(holds := s.db.holds[newId := Hold(tenant, actor.id, Active)]))
      case ReadHold(call, actor, holdId) =>
        s.(calls := s.calls[call := SawHold(actor.id, holdId)])
      case MarkHold(call) =>
        var c := s.calls[call];
        State(s.db.(holds := SetStatus(s.db.holds, c.holdId, PendingRemoval)),
          s.calls[call := MarkedHold(c.officer, c.holdId)])
      case InsertRequest(call, newId) =>
        var c := s.calls[call];
        State(s.db.(requests := s.db.requests[newId := Request(c.holdId, c.officer, None, Pending)]), s.calls - {call})
      case ReadRequest(call, actor, requestId, approve) =>
        s.(calls := s.calls[call := SawRequest(actor.id, requestId, if approve then Approved else Rejected)])
      case MarkRequest(call) =>
        var c := s.calls[call];
        var r := s.db.requests[c.requestId];
        var marked := if c.verdict == Approved then r.(status := Approved, coApprovedBy := Some(c.officer))
                      else r.(status := Rejected);
        State(s.db.(requests := s.db.requests[c.requestId := marked]),
          s.calls[call := MarkedRequest(r.holdId, c.verdict)])
      case SettleHold(call) =>
        var c := s.calls[call];
        var status := if c.verdict == Approved then Removed else Active;
        State(s.db.(holds := SetStatus(s.db.holds, c.holdId, status)), s.calls - {call})
  }

  const NOTHING := State(EMPTY, map[])

  function RunAll(s: State, steps: seq<Step>): State
    decreases |steps|
  {
    if steps == [] then s else RunAll(Next(s, steps[0]), steps[1..])
  }

  // ---------------------------------------------------------------------------
  // The condition, and what it is exact for
  // ---------------------------------------------------------------------------

  // The first write of a call lands on a row that has moved since the call read it.
  predicate Stale(s: State, step: Step) {
    Can(s, step) && !Violates(s, step) &&
    match step
    case MarkHold(call) => s.calls[call].holdId in s.db.holds && s.db.holds[s.calls[call].holdId].status != Active
    case MarkRequest(call) => s.db.requests[s.calls[call].requestId].status != Pending
    case _ => false
  }

  ghost predicate NeverStale(s: State, steps: seq<Step>)
    decreases |steps|
  {
    steps == [] || (!Stale(s, steps[0]) && NeverStale(Next(s, steps[0]), steps[1..]))
  }

  // The status changes the design knows: active to pending_removal, from there to removed or back
  // to active; a request from pending to approved or rejected, once.
  predicate LegalWrite(s: State, step: Step) {
    Can(s, step) && !Violates(s, step) ==>
      match step
      case MarkHold(call) => s.calls[call].holdId in s.db.holds ==> s.db.holds[s.calls[call].holdId].status == Active
      case MarkRequest(call) => s.db.requests[s.calls[call].requestId].status == Pending
      case SettleHold(call) => s.calls[call].holdId in s.db.holds ==>
        s.db.holds[s.calls[call].holdId].status == PendingRemoval
      case _ => true
  }

  ghost predicate AllLegal(s: State, steps: seq<Step>)
    decreases |steps|
  {
    steps == [] || (LegalWrite(s, steps[0]) && AllLegal(Next(s, steps[0]), steps[1..]))
  }

  // What accounts for a hold being pending_removal: a call that marked it, a pending request, or
  // a call that resolved the request and has not settled the hold yet.
  datatype Cause = OfCall(call: int) | OfRequest(requestId: string)

  ghost predicate Explains(s: State, c: Cause, holdId: string) {
    match c
    case OfCall(call) =>
      call in s.calls && (s.calls[call].MarkedHold? || s.calls[call].MarkedRequest?) && s.calls[call].holdId == holdId
    case OfRequest(r) => IsPending(s.db, r, holdId)
  }

  ghost predicate IsPendingRemoval(db: Db, holdId: string) {
    holdId in db.holds && db.holds[holdId].status == PendingRemoval
  }

  ghost predicate OneCause(s: State) {
    && (forall h, c, d :: Explains(s, c, h) && Explains(s, d, h) ==> c == d)
    && (forall h, c :: Explains(s, c, h) ==> IsPendingRemoval(s.db, h))
    && (forall h :: IsPendingRemoval(s.db, h) ==> exists c :: Explains(s, c, h))
  }

  ghost predicate KnownCall(s: State, c: Call) {
    if c.SawRequest? then
      && c.requestId in s.db.requests && c.verdict != Pending
      && (c.verdict == Approved ==> s.db.requests[c.requestId].requestedBy != c.officer)
    else
      c.holdId in s.db.holds && (c.MarkedRequest? ==> c.verdict != Pending)
  }

  // Rows and calls refer to rows that exist, and every approval carries two names.
  ghost predicate Grounded(s: State) {
    && (forall r :: r in s.db.requests ==> s.db.requests[r].holdId in s.db.holds)
    && (forall r :: r in s.db.requests && s.db.requests[r].status == Approved ==> FourEyes(s.db.requests[r]))
    && (forall c :: c in s.calls ==> KnownCall(s, s.calls[c]))
  }

  ghost predicate Signed(db: Db, holdId: string, r: string) {
    r in db.requests && db.requests[r].holdId == holdId && db.requests[r].status == Approved
  }

  // A call that has approved a removal and has yet to remove the hold.
  ghost predicate Removing(s: State, call: int, holdId: string) {
    call in s.calls && s.calls[call] == MarkedRequest(holdId, Approved)
  }

  ghost predicate IsRemoved(db: Db, holdId: string) {
    holdId in db.holds && db.holds[holdId].status == Removed
  }

  // Removals and approvals go together.
  ghost predicate SignedOff(s: State) {
    && (forall h :: IsRemoved(s.db, h) ==> exists r :: Signed(s.db, h, r))
    && (forall h, c :: Removing(s, c, h) ==> exists r :: Signed(s.db, h, r))
    && (forall h, r :: Signed(s.db, h, r) ==> IsRemoved(s.db, h) || exists c :: Removing(s, c, h))
  }

  ghost predicate Sound(s: State) {
    Grounded(s) && OneCause(s) && SignedOff(s) && RejectionsDiffer(s.db)
  }

  // Rows stay, and keep what they refer to.
  lemma {:induction false} RowsStay(s: State, step: Step)
    ensures
      var t := Next(s, step);
      && (forall h :: h in s.db.holds ==> h in t.db.holds && t.db.holds[h].tenant == s.db.holds[h].tenant)
      && (forall r :: r in s.db.requests ==>
            r in t.db.requests && t.db.requests[r].holdId == s.db.requests[r].holdId
            && t.db.requests[r].requestedBy == s.db.requests[r].requestedBy)
  {
    hide Taken;
    hide TakenByOther;
    hide Authorised;
  }

  lemma {:induction false} StepKeepsCalls(s: State, step: Step, c: int)
    requires Grounded(s) && c in Next(s, step).calls
    ensures KnownCall(Next(s, step), Next(s, step).calls[c])
  {
    RowsStay(s, step);
    hide Taken;
    hide TakenByOther;
    hide Authorised;
    assert c in s.calls ==> KnownCall(s, s.calls[c]);
  }

  lemma {:induction false} StepKeepsGrounded(s: State, step: Step)
    requires Grounded(s)
    ensures Grounded(Next(s, step))
  {
    hide Taken;
    hide TakenByOther;
    hide Authorised;
    var t := Next(s, step);
    if step.MarkRequest? && Can(s, step) {
      assert KnownCall(s, s.calls[step.call]);
    }
    if (step.MarkHold? || step.InsertRequest?) && Can(s, step) {
      assert KnownCall(s, s.calls[step.call]);
    }
    forall c | c in t.calls ensures KnownCall(t, t.calls[c]) {
      StepKeepsCalls(s, step, c);
    }
    hide KnownCall;
  }

  // A marked hold can always take its request: nothing else is pending on it.
  lemma {:induction false} InsertNeverViolates(s: State, step: Step)
    requires OneCause(s) && step.InsertRequest? && Can(s, step)
    ensures !Violates(s, step)
  {
    var c := s.calls[step.call];
    if Taken(s.db, c.holdId, Pending, c.officer) {
      var r :| r in s.db.requests && s.db.requests[r].holdId == c.holdId && s.db.requests[r].status == Pending;
      assert Explains(s, OfRequest(r), c.holdId) && Explains(s, OfCall(step.call), c.holdId);
    }
  }

  // The hold a step is about and the causes it takes away and brings.
  lemma {:induction false} CausesMove(s: State, t: State, h: string, gone: Option<Cause>, new_: Option<Cause>)
    requires OneCause(s)
    requires forall x, c :: Explains(t, c, x) <==>
      (Explains(s, c, x) && !(x == h && gone == Some(c))) || (x == h && new_ == Some(c))
    requires gone.Some? ==> Explains(s, gone.value, h)
    requires gone.None? && new_.Some? ==> !IsPendingRemoval(s.db, h)
    requires forall x :: x != h ==> (IsPendingRemoval(t.db, x) <==> IsPendingRemoval(s.db, x))
    requires IsPendingRemoval(t.db, h) <==> new_.Some? || (gone.None? && IsPendingRemoval(s.db, h))
    ensures OneCause(t)
  {
    hide Explains;
    hide IsPendingRemoval;
    forall x | IsPendingRemoval(t.db, x) ensures exists c :: Explains(t, c, x) {
      if x == h && new_.Some? {
        assert Explains(t, new_.value, x);
      } else {
        var c :| Explains(s, c, x);
        assert Explains(t, c, x);
      }
    }
  }

  lemma {:induction false} MarkHoldKeepsCause(s: State, step: Step)
    requires step.MarkHold? && Can(s, step) && Grounded(s) && OneCause(s) && !Stale(s, step)
    ensures OneCause(Next(s, step))
  {
    var h := s.calls[step.call].holdId;
    assert KnownCall(s, s.calls[step.call]);
    CausesMove(s, Next(s, step), h, None, Some(OfCall(step.call)));
  }

  lemma {:induction false} InsertRequestKeepsCause(s: State, step: Step)
    requires step.InsertRequest? && Can(s, step) && OneCause(s)
    ensures OneCause(Next(s, step))
  {
    InsertNeverViolates(s, step);
    hide Taken;
    var h := s.calls[step.call].holdId;
    assert Explains(s, OfCall(step.call), h);
    CausesMove(s, Next(s, step), h, Some(OfCall(step.call)), Some(OfRequest(step.newId)));
  }

  lemma {:induction false} MarkRequestKeepsCause(s: State, step: Step)
    requires step.MarkRequest? && Can(s, step) && !Violates(s, step) && Grounded(s) && OneCause(s) && !Stale(s, step)
    ensures OneCause(Next(s, step))
  {
    hide TakenByOther;
    var r := s.calls[step.call].requestId;
    var h := s.db.requests[r].holdId;
    assert KnownCall(s, s.calls[step.call]);
    assert Explains(s, OfRequest(r), h);
    CausesMove(s, Next(s, step), h, Some(OfRequest(r)), Some(OfCall(step.call)));
  }

  lemma {:induction false} SettleHoldKeepsCause(s: State, step: Step)
    requires step.SettleHold? && Can(s, step) && OneCause(s)
    ensures OneCause(Next(s, step))
  {
    var h := s.calls[step.call].holdId;
    assert Explains(s, OfCall(step.call), h);
    CausesMove(s, Next(s, step), h, Some(OfCall(step.call)), None);
  }

  lemma {:induction false} StepKeepsCause(s: State, step: Step)
    requires Grounded(s) && OneCause(s) && !Stale(s, step)
    ensures OneCause(Next(s, step))
  {
    if !Can(s, step) {
    } else if step.MarkHold? {
      MarkHoldKeepsCause(s, step);
    } else if step.InsertRequest? {
      InsertRequestKeepsCause(s, step);
    } else if step.MarkRequest? && !Violates(s, step) {
      MarkRequestKeepsCause(s, step);
    } else if step.SettleHold? {
      SettleHoldKeepsCause(s, step);
    } else {
      QuietStepKeepsCause(s, step);
    }
  }

  lemma {:induction false} QuietStepKeepsCause(s: State, step: Step)
    requires Can(s, step) && OneCause(s)
    requires step.InsertHold? || step.ReadHold? || step.ReadRequest? || (step.MarkRequest? && Violates(s, step))
    ensures OneCause(Next(s, step))
  {
    hide TakenByOther;
    var t, h := Next(s, step), if step.InsertHold? then step.newId else "";
    assert forall x, c :: Explains(t, c, x) <==> Explains(s, c, x);
    CausesMove(s, t, h, None, None);
  }

  // A settled hold was pending_removal, and a step leaves removed holds alone.
  lemma {:induction false} StepIsLegal(s: State, step: Step)
    requires OneCause(s) && !Stale(s, step)
    ensures LegalWrite(s, step)
    ensures forall h :: IsRemoved(s.db, h) ==> IsRemoved(Next(s, step).db, h)
  {
    hide Taken;
    hide TakenByOther;
    if step.SettleHold? && Can(s, step) {
      assert Explains(s, OfCall(step.call), s.calls[step.call].holdId);
    }
  }

  lemma {:induction false} StepKeepsSigned(s: State, step: Step)
    requires Grounded(s) && OneCause(s) && SignedOff(s) && !Stale(s, step)
    ensures SignedOff(Next(s, step))
  {
    hide Taken;
    hide TakenByOther;
    StepIsLegal(s, step);
    var t := Next(s, step);
    forall h, r | Signed(s.db, h, r) ensures Signed(t.db, h, r) {
    }
    forall h | IsRemoved(t.db, h) ensures exists r :: Signed(t.db, h, r) {
      if IsRemoved(s.db, h) {
        var r :| Signed(s.db, h, r);
        assert Signed(t.db, h, r);
      } else {
        assert Removing(s, step.call, h);
        var r :| Signed(s.db, h, r);
        assert Signed(t.db, h, r);
      }
    }
    forall h, c | Removing(t, c, h) ensures exists r :: Signed(t.db, h, r) {
      if Removing(s, c, h) {
        var r :| Signed(s.db, h, r);
        assert Signed(t.db, h, r);
      } else {
        assert Signed(t.db, h, s.calls[c].requestId);
      }
    }
    forall h, r | Signed(t.db, h, r) ensures IsRemoved(t.db, h) || exists c :: Removing(t, c, h) {
      if Signed(s.db, h, r) {
        if !IsRemoved(s.db, h) {
          var c :| Removing(s, c, h);
          assert KnownCall(s, s.calls[c]);
          assert Removing(t, c, h) || IsRemoved(t.db, h);
        }
      } else {
        assert Removing(t, step.call, h);
      }
    }
  }

  lemma {:induction false} StepKeepsRejections(s: State, step: Step)
    requires Grounded(s) && RejectionsDiffer(s.db)
    ensures RejectionsDiffer(Next(s, step).db)
  {
    hide Taken;
    if step.MarkRequest? && Can(s, step) {
      assert KnownCall(s, s.calls[step.call]);
    }
  }

  lemma {:induction false} StepKeepsSound(s: State, step: Step)
    requires Sound(s) && !Stale(s, step)
    ensures Sound(Next(s, step))
  {
    hide *;
    SoundMeans(s);
    StepKeepsGrounded(s, step);
    StepKeepsCause(s, step);
    StepKeepsSigned(s, step);
    StepKeepsRejections(s, step);
    SoundMeans(Next(s, step));
  }

  lemma {:induction false} SoundMeans(s: State)
    ensures Sound(s) <==> Grounded(s) && OneCause(s) && SignedOff(s) && RejectionsDiffer(s.db)
  {
  }

  // ---------------------------------------------------------------------------
  // Whole runs
  // ---------------------------------------------------------------------------

  lemma {:induction false} RunIsLegal(s: State, steps: seq<Step>)
    requires Sound(s)
    ensures AllLegal(s, steps) <==> NeverStale(s, steps)
    decreases |steps|
  {
    if steps != [] {
      SoundMeans(s);
      hide Sound;
      hide Next;
      hide OneCause;
      if Stale(s, steps[0]) {
        assert !LegalWrite(s, steps[0]);
      } else {
        hide Stale;
        hide LegalWrite;
        StepIsLegal(s, steps[0]);
        StepKeepsSound(s, steps[0]);
        RunIsLegal(Next(s, steps[0]), steps[1..]);
      }
    }
  }

  lemma {:induction false} RunKeepsSound(s: State, steps: seq<Step>)
    requires Sound(s) && NeverStale(s, steps)
    ensures Sound(RunAll(s, steps))
    ensures forall h :: IsRemoved(s.db, h) ==> IsRemoved(RunAll(s, steps).db, h)
    decreases |steps|
  {
    if steps != [] {
      SoundMeans(s);
      hide Sound;
      hide Next;
      hide Stale;
      hide OneCause;
      hide IsRemoved;
      StepIsLegal(s, steps[0]);
      StepKeepsSound(s, steps[0]);
      RunKeepsSound(Next(s, steps[0]), steps[1..]);
    }
  }

  lemma {:induction false} NothingIsSound()
    ensures Sound(NOTHING)
  {
  }

  // Over every interleaving of statements, every status change of holds and requests is one the
  // design knows exactly when no call's first write landed on a row that had moved since its read.
  lemma {:induction false} WritesAreLegalIffNeverStale(steps: seq<Step>)
    ensures AllLegal(NOTHING, steps) <==> NeverStale(NOTHING, steps)
  {
    hide *;
    NothingIsSound();
    RunIsLegal(NOTHING, steps);
  }

  // No call is between its two writes.
  ghost predicate Quiet(s: State) {
    forall c :: c in s.calls ==> s.calls[c].SawHold? || s.calls[c].SawRequest?
  }

  // ... and then the tables are consistent whenever no call is between its two writes, and a
  // removed hold stays removed.
  lemma {:induction false} FreshWritesKeepHolds(steps: seq<Step>, more: seq<Step>)
    requires NeverStale(NOTHING, steps) && NeverStale(RunAll(NOTHING, steps), more)
    ensures
      var s := RunAll(NOTHING, steps);
      && (Quiet(s) ==> Consistent(s.db))
      && forall h :: IsRemoved(s.db, h) ==> IsRemoved(RunAll(s, more).db, h)
  {
    hide IsRemoved;
    hide Sound;
    hide NeverStale;
    hide Quiet;
    hide Consistent;
    NothingIsSound();
    RunKeepsSound(NOTHING, steps);
    var s := RunAll(NOTHING, steps);
    RunKeepsSound(s, more);
    if Quiet(s) {
      SoundAndQuiet(s);
    }
  }

  lemma {:induction false} SoundAndQuiet(s: State)
    requires Sound(s) && Quiet(s)
    ensures Consistent(s.db)
  {
    QuietMatchesPending(s);
    QuietMatchesRemoved(s);
    hide PendingMatches;
    hide RemovedMatches;
  }

  lemma {:induction false} QuietMatchesPending(s: State)
    requires Grounded(s) && OneCause(s) && Quiet(s)
    ensures PendingMatches(s.db)
  {
    forall r | r in s.db.requests && s.db.requests[r].status == Pending
      ensures s.db.holds[s.db.requests[r].holdId].status == PendingRemoval
    {
      assert Explains(s, OfRequest(r), s.db.requests[r].holdId);
    }
    forall h | h in s.db.holds && s.db.holds[h].status == PendingRemoval ensures exists r :: IsPending(s.db, r, h) {
      assert IsPendingRemoval(s.db, h);
      var c :| Explains(s, c, h);
    }
    forall h, r, q | IsPending(s.db, r, h) && IsPending(s.db, q, h) ensures r == q {
      assert Explains(s, OfRequest(r), h) && Explains(s, OfRequest(q), h);
    }
  }

  lemma {:induction false} QuietMatchesRemoved(s: State)
    requires Grounded(s) && SignedOff(s) && Quiet(s)
    ensures RemovedMatches(s.db)
  {
    forall h | h in s.db.holds && s.db.holds[h].status == Removed
      ensures exists r :: r in s.db.requests && s.db.requests[r].holdId == h && FourEyes(s.db.requests[r])
    {
      assert IsRemoved(s.db, h);
      var r :| Signed(s.db, h, r);
      assert FourEyes(s.db.requests[r]);
    }
    forall r | r in s.db.requests && s.db.requests[r].status == Approved
      ensures s.db.requests[r].holdId in s.db.holds && s.db.holds[s.db.requests[r].holdId].status == Removed
    {
      assert Signed(s.db, s.db.requests[r].holdId, r);
    }
  }

  // Whatever the interleaving, an approved request carries two names.
  lemma {:induction false} FourEyesAlways(s: State, steps: seq<Step>)
    requires Grounded(s)
    ensures Grounded(RunAll(s, steps))
    decreases |steps|
  {
    hide Grounded;
    hide Next;
    if steps != [] {
      StepKeepsGrounded(s, steps[0]);
      FourEyesAlways(Next(s, steps[0]), steps[1..]);
    }
  }

  // ---------------------------------------------------------------------------
  // What goes wrong otherwise
  // ---------------------------------------------------------------------------

  lemma {:induction false} RunAppend(s: State, a: seq<Step>, b: seq<Step>)
    ensures RunAll(s, a + b) == RunAll(RunAll(s, a), b)
    decreases |a|
  {
    hide Next;
    if a == [] {
      assert a + b == b;
    } else {
      assert (a + b)[0] == a[0] && (a + b)[1..] == a[1..] + b;
      RunAppend(Next(s, a[0]), a[1..], b);
    }
  }

  lemma {:induction false} TwoSteps(s: State, a: Step, b: Step)
    ensures RunAll(s, [a, b]) == Next(Next(s, a), b)
    ensures NeverStale(s, [a, b]) <==> !Stale(s, a) && !Stale(Next(s, a), b)
  {
    hide Next;
    hide Stale;
    assert [a, b][1..] == [b] && [b][1..] == [];
    assert RunAll(Next(s, a), [b]) == RunAll(Next(Next(s, a), b), []);
    assert NeverStale(Next(s, a), [b]) <==> !Stale(Next(s, a), b) && NeverStale(Next(Next(s, a), b), []);
  }

  function Opening(officer: Actor, tenant: string): seq<Step> {
    [InsertHold(officer, tenant, "h"), ReadHold(1, officer, "h")] + [MarkHold(1), InsertRequest(1, "r")]
  }

  // One hold with one pending request.
  ghost predicate OnePending(s: State, officer: string) {
    && s.calls.Keys == {} && "h" in s.db.holds && s.db.holds["h"].status == PendingRemoval
    && s.db.requests.Keys == {"r"} && s.db.requests["r"] == Request("h", officer, None, Pending)
  }

  lemma {:induction false} OpeningReaches(officer: Actor, tenant: string)
    requires Authorised(officer)
    ensures OnePending(RunAll(NOTHING, Opening(officer, tenant)), officer.id)
  {
    var a, b := InsertHold(officer, tenant, "h"), ReadHold(1, officer, "h");
    var c, d := MarkHold(1), InsertRequest(1, "r");
    RunAppend(NOTHING, [a, b], [c, d]);
    TwoSteps(NOTHING, a, b);
    var s := RunAll(NOTHING, [a, b]);
    TwoSteps(s, c, d);
    hide RunAll;
    hide Authorised;
    assert s.db.requests == map[] && s.calls[1] == SawHold(officer.id, "h") && s.calls.Keys == {1};
  }

  // Two officers read the pending request before either writes.
  lemma {:induction false} BothRead(s: State, requester: string, approver: Actor, rejecter: Actor)
    requires OnePending(s, requester) && Authorised(approver) && Authorised(rejecter) && approver.id != requester
    ensures
      var t := RunAll(s, [ReadRequest(2, approver, "r", true), ReadRequest(3, rejecter, "r", false)]);
      && t.db == s.db && t.calls.Keys == {2, 3}
      && t.calls[2] == SawRequest(approver.id, "r", Approved) && t.calls[3] == SawRequest(rejecter.id, "r", Rejected)
  {
    TwoSteps(s, ReadRequest(2, approver, "r", true), ReadRequest(3, rejecter, "r", false));
    hide RunAll;
    hide Authorised;
  }

  lemma {:induction false} Resolve(s: State, call: int)
    requires s.db.requests.Keys == {"r"} && s.db.requests["r"].holdId == "h" && "h" in s.db.holds
    requires call in s.calls && s.calls[call].SawRequest? && s.calls[call].requestId == "r" &&
      s.calls[call].verdict != Pending
    ensures
      var t := RunAll(s, [MarkRequest(call), SettleHold(call)]);
      && t.calls == s.calls - {call} && t.db.requests.Keys == {"r"} && "h" in t.db.holds
      && t.db.requests["r"].holdId == "h" && t.db.requests["r"].status == s.calls[call].verdict
      && t.db.holds["h"].status == (if s.calls[call].verdict == Approved then Removed else Active)
    ensures s.db.requests["r"].status != Pending ==> !NeverStale(s, [MarkRequest(call), SettleHold(call)])
  {
    TwoSteps(s, MarkRequest(call), SettleHold(call));
    hide RunAll;
    hide NeverStale;
    assert !TakenByOther(s.db, "r", s.calls[call].verdict);
    hide TakenByOther;
  }

  // An approval and a rejection that overlap: the hold is removed, and then active again.
  lemma {:induction false} OverlapReactivatesHold(officer: Actor, tenant: string, approver: Actor, rejecter: Actor)
    requires Authorised(officer) && Authorised(approver) && Authorised(rejecter) && approver.id != officer.id
    ensures
      var looks := [ReadRequest(2, approver, "r", true), ReadRequest(3, rejecter, "r", false)];
      var s := RunAll(RunAll(NOTHING, Opening(officer, tenant)), looks);
      var removed := RunAll(s, [MarkRequest(2), SettleHold(2)]);
      var back := RunAll(removed, [MarkRequest(3), SettleHold(3)]);
      && IsRemoved(removed.db, "h") && Quiet(removed)
      && "h" in back.db.holds && back.db.holds["h"].status == Active
      && !NeverStale(removed, [MarkRequest(3), SettleHold(3)])
  {
    hide *;
    OpeningReaches(officer, tenant);
    var start := RunAll(NOTHING, Opening(officer, tenant));
    BothRead(start, officer.id, approver, rejecter);
    var s := RunAll(start, [ReadRequest(2, approver, "r", true), ReadRequest(3, rejecter, "r", false)]);
    OnePendingMeans(start, officer.id);
    Resolve(s, 2);
    var removed := RunAll(s, [MarkRequest(2), SettleHold(2)]);
    Resolve(removed, 3);
    RemovedAndQuiet(removed);
  }

  // In that run there is one hold, and it keeps its tenant.
  lemma {:induction false} OpeningTenant(officer: Actor, tenant: string, approver: Actor, rejecter: Actor)
    requires Authorised(officer)
    ensures
      var looks := [ReadRequest(2, approver, "r", true), ReadRequest(3, rejecter, "r", false)];
      var s := RunAll(RunAll(NOTHING, Opening(officer, tenant)), looks);
      var removed := RunAll(s, [MarkRequest(2), SettleHold(2)]);
      var back := RunAll(removed, [MarkRequest(3), SettleHold(3)]);
      && removed.db.holds.Keys == {"h"} && removed.db.holds["h"].tenant == tenant
      && back.db.holds.Keys == {"h"} && back.db.holds["h"].tenant == tenant
  {
    var looks := [ReadRequest(2, approver, "r", true), ReadRequest(3, rejecter, "r", false)];
    var a, b, c, d := InsertHold(officer, tenant, "h"), ReadHold(1, officer, "h"), MarkHold(1), InsertRequest(1, "r");
    RunAppend(NOTHING, [a, b], [c, d]);
    TwoSteps(NOTHING, a, b);
    var one := Next(NOTHING, a);
    assert one.db.holds.Keys == {"h"} && one.db.holds["h"].tenant == tenant;
    hide *;
    var first := Next(one, b);
    SameHolds(one, b);
    KeepsOnlyHold(first, c, d, tenant);
    var start := RunAll(NOTHING, Opening(officer, tenant));
    OpeningIs(officer, tenant);
    KeepsOnlyHold(start, looks[0], looks[1], tenant);
    var s := RunAll(start, looks);
    KeepsOnlyHold(s, MarkRequest(2), SettleHold(2), tenant);
    KeepsOnlyHold(RunAll(s, [MarkRequest(2), SettleHold(2)]), MarkRequest(3), SettleHold(3), tenant);
  }

  lemma {:induction false} OpeningIs(officer: Actor, tenant: string)
    ensures Opening(officer, tenant) ==
      [InsertHold(officer, tenant, "h"), ReadHold(1, officer, "h")] + [MarkHold(1), InsertRequest(1, "r")]
  {
  }

  lemma {:induction false} SameHolds(s: State, step: Step)
    requires !step.InsertHold?
    ensures Next(s, step).db.holds.Keys == s.db.holds.Keys
    ensures forall h :: h in s.db.holds ==> Next(s, step).db.holds[h].tenant == s.db.holds[h].tenant
  {
    hide Taken;
    hide TakenByOther;
    hide Authorised;
  }

  lemma {:induction false} KeepsOnlyHold(s: State, a: Step, b: Step, tenant: string)
    requires s.db.holds.Keys == {"h"} && s.db.holds["h"].tenant == tenant && !a.InsertHold? && !b.InsertHold?
    ensures RunAll(s, [a, b]).db.holds.Keys == {"h"} && RunAll(s, [a, b]).db.holds["h"].tenant == tenant
  {
    hide *;
    TwoSteps(s, a, b);
    SameHolds(s, a);
    SameHolds(Next(s, a), b);
  }

  lemma {:induction false} OnePendingMeans(s: State, officer: string)
    requires OnePending(s, officer)
    ensures s.db.requests.Keys == {"r"} && s.db.requests["r"].holdId == "h" && "h" in s.db.holds
  {
  }

  lemma {:induction false} RemovedAndQuiet(s: State)
    requires "h" in s.db.holds && s.db.holds["h"].status == Removed && s.calls.Keys == {3} && s.calls[3].SawRequest?
    ensures IsRemoved(s.db, "h") && Quiet(s)
  {
  }

  // ---------------------------------------------------------------------------
  // Calls that run as one transaction
  // ---------------------------------------------------------------------------

  function Statements(c: Command): seq<Step> {
    match c
    case Place(actor, tenant, newId) => [InsertHold(actor, tenant, newId)]
    case RequestRemoval(actor, holdId, newId) => [ReadHold(0, actor, holdId), MarkHold(0), InsertRequest(0, newId)]
    case Approve(actor, requestId) => [ReadRequest(0, actor, requestId, true), MarkRequest(0), SettleHold(0)]
    case Reject(actor, requestId) => [ReadRequest(0, actor, requestId, false), MarkRequest(0), SettleHold(0)]
  }

  lemma {:induction false} ThreeSteps(s: State, a: Step, b: Step, c: Step)
    ensures RunAll(s, [a, b, c]) == Next(Next(Next(s, a), b), c)
    ensures NeverStale(s, [a, b, c]) <==> !Stale(s, a) && !Stale(Next(s, a), b) && !Stale(Next(Next(s, a), b), c)
  {
    hide Next;
    hide Stale;
    assert [a, b, c][1..] == [b, c];
    TwoSteps(Next(s, a), b, c);
  }

  // Generated ids are new.
  predicate NewId(db: Db, c: Command) {
    match c
    case Place(_, _, newId) => newId !in db.holds
    case RequestRemoval(_, _, newId) => newId !in db.requests
    case _ => true
  }

  lemma {:induction false} ResolveAsOne(db: Db, c: Command)
    requires c.Approve? || c.Reject?
    ensures RunAll(State(db, map[]), Statements(c)) == State(Apply(db, c), map[])
    ensures NeverStale(State(db, map[]), Statements(c))
  {
    var s, x, y, z := State(db, map[]), Statements(c)[0], MarkRequest(0), SettleHold(0);
    ThreeSteps(s, x, y, z);
    hide RunAll;
    hide NeverStale;
    hide Authorised;
    if Can(s, x) {
      var verdict := if c.Approve? then Approved else Rejected;
      var t := Next(s, x);
      assert t.calls - {0} == map[];
      assert TakenByOther(db, c.requestId, verdict) <==>
        Taken(db, db.requests[c.requestId].holdId, verdict, db.requests[c.requestId].requestedBy);
      hide Taken;
      hide TakenByOther;
      var u := Next(t, y);
      assert u.calls - {0} == map[];
    }
  }

  lemma {:induction false} RequestAsOne(db: Db, c: Command)
    requires Consistent(db) && c.RequestRemoval? && NewId(db, c)
    ensures RunAll(State(db, map[]), Statements(c)) == State(Apply(db, c), map[])
    ensures NeverStale(State(db, map[]), Statements(c))
  {
    var s, x, y, z := State(db, map[]), ReadHold(0, c.actor, c.holdId), MarkHold(0), InsertRequest(0, c.newId);
    ThreeSteps(s, x, y, z);
    hide RunAll;
    hide NeverStale;
    hide Authorised;
    if Can(s, x) {
      var t := Next(s, x);
      var u := Next(t, y);
      assert u.calls - {0} == map[];
      assert !Taken(db, c.holdId, Pending, c.actor.id);
      assert !Taken(u.db, c.holdId, Pending, c.actor.id);
      hide Taken;
    }
  }

  // Enclosed in a transaction a call is its statements in a row: then it is the single step
  // `Apply` and never stale.
  lemma {:induction false} CallAsOne(db: Db, c: Command)
    requires Consistent(db) && NewId(db, c)
    ensures RunAll(State(db, map[]), Statements(c)) == State(Apply(db, c), map[])
    ensures NeverStale(State(db, map[]), Statements(c))
  {
    if c.Place? {
      var s, step := State(db, map[]), InsertHold(c.actor, c.tenant, c.newId);
      assert Statements(c) == [step] && [step][1..] == [];
      assert RunAll(s, [step]) == RunAll(Next(s, step), []);
      assert NeverStale(s, [step]) <==> !Stale(s, step) && NeverStale(Next(s, step), []);
    } else if c.RequestRemoval? {
      hide *;
      RequestAsOne(db, c);
    } else {
      hide *;
      ResolveAsOne(db, c);
    }
  }
}
