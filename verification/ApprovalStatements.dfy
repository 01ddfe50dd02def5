/**
 * M-of-N approvals, statement by statement: tallies, status changes and executions when the calls
 * of different approvers interleave because no transaction encloses them.
 */
module ApprovalStatements {
  import opened Options
  import opened Approvals

  // How far a call has come.
  datatype Call =
    | Voting(id: string, approver: string, decision: Decision)
    | Counting(id: string)
    | Writing(id: string, status: Status)
    | Executing(id: string)

  datatype State = State(db: Db, calls: map<int, Call>)

  const NOTHING := State(EMPTY, map[])

  // One SQL statement each; reads come with the checks that follow them.
  datatype Step =
    | InsertRequest(newId: string, operation: string, requester: string, required: Option<int>)
    | ReadForVote(call: int, id: string, approver: string, decision: Decision)
    | InsertVote(call: int)
    | CountApprovals(call: int)
    | WriteStatus(call: int)
    | ReadForExecution(call: int, id: string)
    | WriteExecuted(call: int)

  predicate Can(s: State, step: Step) {
    match step
    case InsertRequest(newId, operation, requester, required) =>
      Check(s.db, Create(newId, operation, requester, required)) == Done
    case ReadForVote(call, id, _, _) => call !in s.calls && id in s.db.requests && s.db.requests[id].status == Pending
    case InsertVote(call) => call in s.calls && s.calls[call].Voting? && s.calls[call].id in s.db.requests
    case CountApprovals(call) => call in s.calls && s.calls[call].Counting? && s.calls[call].id in s.db.requests
    case WriteStatus(call) => call in s.calls && s.calls[call].Writing? && s.calls[call].id in s.db.requests
    case ReadForExecution(call, id) => call !in s.calls && id in s.db.requests && s.db.requests[id].status == Approved
    case WriteExecuted(call) => call in s.calls && s.calls[call].Executing? && s.calls[call].id in s.db.requests
  }

  function WithStatus(db: Db, id: string, status: Status): Db
    requires id in db.requests
  {
    db.(requests := db.requests[id := db.requests[id].(status := status)])
  }

  function Next(s: State, step: Step): State {
    if !Can(s, step) then s
    else
      match step
      case InsertRequest(newId, operation, requester, required) =>
        s.(db := Apply(s.db, Create(newId, operation, requester, required)))
      case ReadForVote(call, id, approver, decision) =>
        s.(calls := s.calls[call := Voting(id, approver, decision)])
      case InsertVote(call) =>
        var c := s.calls[call];
        var votes := VotesOn(s.db, c.id);
        if c.approver in votes then s.(calls := s.calls - {call})
        else State(s.db.(votes := s.db.votes[c.id := votes[c.approver := c.decision]]),
                   s.calls[call := if c.decision == Reject then Writing(c.id, Rejected) else Counting(c.id)])
      case CountApprovals(call) =>
        var id := s.calls[call].id;
        if Count(VotesOn(s.db, id), Approve) >= s.db.requests[id].required
        then s.(calls := s.calls[call := Writing(id, Approved)])
        else s.(calls := s.calls - {call})
      case WriteStatus(call) =>
        State(WithStatus(s.db, s.calls[call].id, s.calls[call].status), s.calls - {call})
      case ReadForExecution(call, id) =>
        s.(calls := s.calls[call := Executing(id)])
      case WriteExecuted(call) =>
        State(WithStatus(s.db, s.calls[call].id, Executed), s.calls - {call})
  }

  function RunAll(s: State, steps: seq<Step>): State
    decreases |steps|
  {
    if steps == [] then s else RunAll(Next(s, steps[0]), steps[1..])
  }

  // ---------------------------------------------------------------------------
  // What every interleaving keeps
  // ---------------------------------------------------------------------------

  function Tally(s: State, id: string, decision: Decision): nat {
    Count(VotesOn(s.db, id), decision)
  }

  ghost predicate Grounded(s: State) {
    && s.db.requests.Keys == s.db.votes.Keys
    && (forall id :: id in s.db.requests ==> s.db.requests[id].required >= 1)
    && (forall c :: c in s.calls ==> s.calls[c].id in s.db.requests)
    && (forall c :: c in s.calls && s.calls[c].Writing? ==> s.calls[c].status in {Approved, Rejected})
  }

  // A status, written or about to be, has the votes behind it.
  ghost predicate Backed(s: State, id: string, status: Status)
    requires id in s.db.requests
  {
    match status
    case Pending => true
    case Rejected => Tally(s, id, Reject) >= 1
    case _ => Tally(s, id, Approve) >= s.db.requests[id].required
  }

  // A call that has voted and not finished.
  ghost predicate Midway(s: State, call: int, id: string) {
    call in s.calls && s.calls[call].id == id && (s.calls[call].Counting? || s.calls[call].Writing?)
  }

  ghost predicate Quiet(s: State, id: string) {
    forall c :: !Midway(s, c, id)
  }

  ghost predicate Tied(s: State, id: string)
    requires id in s.db.requests
  {
    && Backed(s, id, s.db.requests[id].status)
    && (forall c :: c in s.calls && s.calls[c].Writing? && s.calls[c].id == id ==> Backed(s, id, s.calls[c].status))
    && (forall c :: c in s.calls && s.calls[c].Executing? && s.calls[c].id == id ==> Backed(s, id, Executed))
    && (Backed(s, id, Approved) ==> s.db.requests[id].status != Pending || exists c :: Midway(s, c, id))
    && (Backed(s, id, Rejected) ==> s.db.requests[id].status != Pending || exists c :: Rejecting(s, c, id))
  }

  ghost predicate Rejecting(s: State, call: int, id: string) {
    call in s.calls && s.calls[call] == Writing(id, Rejected)
  }

  // The votes alone say one thing: open, exactly M approvals, or one rejection short of M.
  ghost predicate Exact(s: State, id: string)
    requires id in s.db.requests
  {
    var a, r, m := Tally(s, id, Approve), Tally(s, id, Reject), s.db.requests[id].required;
    (a < m && r <= 1) || (a == m && r == 0)
  }

  predicate Votes(s: State, step: Step, id: string) {
    step.InsertVote? && Can(s, step) && s.calls[step.call].id == id && s.calls[step.call].approver !in VotesOn(s.db, id)
  }

  // A vote that comes in when the votes have settled the matter and would unsettle it.
  predicate LateVote(s: State, step: Step, id: string) {
    Votes(s, step, id) &&
    var a, r, m := Tally(s, id, Approve), Tally(s, id, Reject), s.db.requests[id].required;
    a >= m || (r >= 1 && (s.calls[step.call].decision == Reject || a + 1 >= m))
  }

  ghost predicate NeverLate(s: State, steps: seq<Step>, id: string)
    decreases |steps|
  {
    steps == [] || (!LateVote(s, steps[0], id) && NeverLate(Next(s, steps[0]), steps[1..], id))
  }

  lemma {:induction false} StepKeepsGrounded(s: State, step: Step)
    requires Grounded(s)
    ensures Grounded(Next(s, step))
    ensures forall id :: id in s.db.requests ==>
      id in Next(s, step).db.requests && Next(s, step).db.requests[id].required == s.db.requests[id].required
  {
    hide Count;
  }

  // How a step changes the tally of a request.
  lemma {:induction false} StepTallies(s: State, step: Step, id: string, d: Decision)
    requires Grounded(s) && id in s.db.requests
    ensures Tally(Next(s, step), id, d) ==
      Tally(s, id, d) + if Votes(s, step, id) && s.calls[step.call].decision == d then 1 else 0
  {
    if step.InsertVote? && Can(s, step) {
      var c := s.calls[step.call];
      if c.approver !in VotesOn(s.db, c.id) {
        VoteCounts(VotesOn(s.db, c.id), c.approver, c.decision, d);
      }
    }
    hide Count;
  }

  lemma {:induction false} StepKeepsExactIff(s: State, step: Step, id: string)
    requires Grounded(s) && id in s.db.requests
    ensures id in Next(s, step).db.requests
    ensures Exact(Next(s, step), id) <==> Exact(s, id) && !LateVote(s, step, id)
  {
    StepKeepsGrounded(s, step);
    StepTallies(s, step, id, Approve);
    StepTallies(s, step, id, Reject);
    hide Next;
    hide Tally;
    hide Can;
  }

  lemma {:induction false} NewRequestIsExact(s: State, step: Step, id: string)
    requires Grounded(s) && id !in s.db.requests && id in Next(s, step).db.requests
    ensures Exact(Next(s, step), id) && Tied(Next(s, step), id) && !LateVote(s, step, id)
  {
    assert Count(map[], Approve) == 0 && Count(map[], Reject) == 0;
    hide Count;
    var t := Next(s, step);
    assert VotesOn(t.db, id) == map[] && t.calls == s.calls;
  }

  // The status follows the votes.
  lemma {:induction false} StepKeepsBacking(s: State, step: Step, id: string, status: Status)
    requires Grounded(s) && id in s.db.requests && Backed(s, id, status)
    ensures id in Next(s, step).db.requests && Backed(Next(s, step), id, status)
  {
    StepKeepsGrounded(s, step);
    StepTallies(s, step, id, Approve);
    StepTallies(s, step, id, Reject);
    hide Next;
    hide Tally;
    hide Votes;
  }

  lemma {:induction false} NewWritingIsBacked(s: State, step: Step, id: string, c: int)
    requires Grounded(s) && id in s.db.requests && Tied(s, id)
    requires c in Next(s, step).calls && Next(s, step).calls[c].id == id
    requires Next(s, step).calls[c].Writing? || Next(s, step).calls[c].Executing?
    ensures
      var t := Next(s, step);
      id in t.db.requests && Backed(t, id, if t.calls[c].Writing? then t.calls[c].status else Executed)
  {
    var t := Next(s, step);
    StepKeepsGrounded(s, step);
    var status := if t.calls[c].Writing? then t.calls[c].status else Executed;
    if c in s.calls && s.calls[c] == t.calls[c] {
      StepKeepsBacking(s, step, id, status);
    } else {
      StepTallies(s, step, id, Approve);
      StepTallies(s, step, id, Reject);
      hide Count;
    }
  }

  lemma {:induction false} NewStatusIsBacked(s: State, step: Step, id: string)
    requires Grounded(s) && id in s.db.requests && Tied(s, id)
    ensures id in Next(s, step).db.requests && Backed(Next(s, step), id, Next(s, step).db.requests[id].status)
  {
    var t := Next(s, step);
    StepKeepsGrounded(s, step);
    var status := t.db.requests[id].status;
    assert Backed(s, id, status) by {
      hide Count;
      hide Backed;
    }
    StepKeepsBacking(s, step, id, status);
  }

  lemma {:induction false} SomeoneApproves(s: State, step: Step, id: string)
    requires Grounded(s) && id in s.db.requests && Tied(s, id)
    ensures
      var t := Next(s, step);
      id in t.db.requests &&
        (Backed(t, id, Approved) ==> t.db.requests[id].status != Pending || exists c :: Midway(t, c, id))
  {
    var t := Next(s, step);
    StepKeepsGrounded(s, step);
    StepTallies(s, step, id, Approve);
    hide Count;
    if Votes(s, step, id) {
      assert Midway(t, step.call, id);
    } else if Backed(t, id, Approved) && t.db.requests[id].status == Pending {
      var c :| Midway(s, c, id);
      assert Midway(t, c, id);
    }
  }

  lemma {:induction false} SomeoneRejects(s: State, step: Step, id: string)
    requires Grounded(s) && id in s.db.requests && Tied(s, id)
    ensures
      var t := Next(s, step);
      id in t.db.requests &&
        (Backed(t, id, Rejected) ==> t.db.requests[id].status != Pending || exists c :: Rejecting(t, c, id))
  {
    var t := Next(s, step);
    StepKeepsGrounded(s, step);
    StepTallies(s, step, id, Reject);
    hide Count;
    if Backed(t, id, Rejected) && t.db.requests[id].status == Pending {
      if Backed(s, id, Rejected) {
        var c :| Rejecting(s, c, id);
        assert Rejecting(t, c, id);
      } else {
        assert Rejecting(t, step.call, id);
      }
    }
  }

  lemma {:induction false} StepKeepsTied(s: State, step: Step, id: string)
    requires Grounded(s) && id in s.db.requests && Tied(s, id)
    ensures id in Next(s, step).db.requests && Tied(Next(s, step), id)
  {
    var t := Next(s, step);
    NewStatusIsBacked(s, step, id);
    SomeoneApproves(s, step, id);
    SomeoneRejects(s, step, id);
    forall c | c in t.calls && t.calls[c].id == id && (t.calls[c].Writing? || t.calls[c].Executing?)
      ensures Backed(t, id, if t.calls[c].Writing? then t.calls[c].status else Executed)
    {
      NewWritingIsBacked(s, step, id, c);
    }
    hide Next;
    hide Backed;
    hide Midway;
    hide Rejecting;
  }

  ghost predicate Known(s: State, id: string) {
    Grounded(s) && (id in s.db.requests ==> Tied(s, id))
  }

  ghost predicate ExactIfKnown(s: State, id: string) {
    id in s.db.requests ==> Exact(s, id)
  }

  lemma {:induction false} StepKeepsKnown(s: State, step: Step, id: string)
    requires Known(s, id)
    ensures Known(Next(s, step), id)
    ensures ExactIfKnown(Next(s, step), id) <==> ExactIfKnown(s, id) && !LateVote(s, step, id)
  {
    StepKeepsGrounded(s, step);
    var t := Next(s, step);
    if id in s.db.requests {
      StepKeepsTied(s, step, id);
      StepKeepsExactIff(s, step, id);
    } else if id in t.db.requests {
      NewRequestIsExact(s, step, id);
    } else {
      assert !LateVote(s, step, id);
    }
    hide Next;
    hide Grounded;
    hide Tied;
    hide Exact;
    hide LateVote;
  }

  lemma {:induction false} RunKeepsKnown(s: State, steps: seq<Step>, id: string)
    requires Known(s, id)
    ensures Known(RunAll(s, steps), id)
    ensures ExactIfKnown(RunAll(s, steps), id) <==> ExactIfKnown(s, id) && NeverLate(s, steps, id)
    decreases |steps|
  {
    hide Known;
    hide ExactIfKnown;
    hide LateVote;
    hide Next;
    if steps != [] {
      StepKeepsKnown(s, steps[0], id);
      RunKeepsKnown(Next(s, steps[0]), steps[1..], id);
    }
  }

  lemma {:induction false} QuietIsTalliedIff(s: State, id: string)
    requires Known(s, id) && id in s.db.requests && Quiet(s, id)
    ensures id in s.db.votes
    ensures Tallied(s.db.requests[id], s.db.votes[id]) <==> Exact(s, id)
  {
    hide Count;
    assert forall c :: Rejecting(s, c, id) ==> Midway(s, c, id);
    assert VotesOn(s.db, id) == s.db.votes[id];
  }

  // In every interleaving, once no voter of a request is halfway, status and votes agree as they
  // would without interleaving exactly when no vote came in after the votes had settled it.
  lemma {:induction false} TalliedIffNoLateVote(steps: seq<Step>, id: string)
    ensures
      var s := RunAll(NOTHING, steps);
      id in s.db.requests && Quiet(s, id) ==>
        id in s.db.votes && (Tallied(s.db.requests[id], s.db.votes[id]) <==> NeverLate(NOTHING, steps, id))
  {
    assert Known(NOTHING, id) && ExactIfKnown(NOTHING, id);
    RunKeepsKnown(NOTHING, steps, id);
    var s := RunAll(NOTHING, steps);
    hide RunAll;
    hide NeverLate;
    hide Known;
    if id in s.db.requests && Quiet(s, id) {
      QuietIsTalliedIff(s, id);
      hide Exact;
      hide Tallied;
    }
  }

  // In every interleaving whatsoever, an approved or executed request has at least M distinct
  // approvers behind it and a rejected one at least one rejection; and a request still pending
  // with nobody halfway is one the votes have not settled.
  lemma {:induction false} StatusHasVotesBehindIt(steps: seq<Step>, id: string)
    ensures
      var s := RunAll(NOTHING, steps);
      id in s.db.requests ==>
        var r, votes := s.db.requests[id], VotesOn(s.db, id);
        && r.required >= 1
        && (r.status in {Approved, Executed} ==> |Deciding(votes, Approve)| >= r.required)
        && (r.status == Rejected ==> |Deciding(votes, Reject)| >= 1)
        && (r.status == Pending && Quiet(s, id) ==>
           |Deciding(votes, Approve)| < r.required && Deciding(votes, Reject) == {})
  {
    assert Known(NOTHING, id);
    RunKeepsKnown(NOTHING, steps, id);
    var s := RunAll(NOTHING, steps);
    hide RunAll;
    hide Deciding;
    if id in s.db.requests {
      assert Tied(s, id) && Grounded(s);
      assert forall c :: Rejecting(s, c, id) ==> Midway(s, c, id);
    }
  }

  // ---------------------------------------------------------------------------
  // Status changes and executions
  // ---------------------------------------------------------------------------

  predicate Executes(s: State, step: Step, id: string) {
    step.WriteExecuted? && Can(s, step) && s.calls[step.call].id == id
  }

  predicate Decides(s: State, step: Step, id: string) {
    step.WriteStatus? && Can(s, step) && s.calls[step.call].id == id
  }

  // A status written over one that has moved since the call read it.
  predicate Stale(s: State, step: Step, id: string) {
    && (Decides(s, step, id) || Executes(s, step, id))
    && s.db.requests[id].status != (if step.WriteStatus? then Pending else Approved)
  }

  ghost predicate NeverStale(s: State, steps: seq<Step>, id: string)
    decreases |steps|
  {
    steps == [] || (!Stale(s, steps[0], id) && NeverStale(Next(s, steps[0]), steps[1..], id))
  }

  // Executions of a request during a run, and the execution calls that were cleared for one.
  function Executions(s: State, steps: seq<Step>, id: string): nat
    decreases |steps|
  {
    if steps == [] then 0
    else (if Executes(s, steps[0], id) then 1 else 0) + Executions(Next(s, steps[0]), steps[1..], id)
  }

  predicate Clears(s: State, step: Step, id: string) {
    step.ReadForExecution? && Can(s, step) && step.id == id
  }

  function Cleared(s: State, steps: seq<Step>, id: string): nat
    decreases |steps|
  {
    if steps == [] then 0
    else (if Clears(s, steps[0], id) then 1 else 0) + Cleared(Next(s, steps[0]), steps[1..], id)
  }

  ghost function InExecution(s: State, id: string): set<int> {
    set c | c in s.calls && s.calls[c] == Executing(id)
  }

  // How a step changes the calls about to execute a request.
  lemma {:induction false} StepMovesExecution(s: State, step: Step, id: string, c: int)
    requires Grounded(s)
    ensures c in InExecution(Next(s, step), id) <==>
      (c in InExecution(s, id) && !(Executes(s, step, id) && step.call == c)) || (Clears(s, step, id) && step.call == c)
    ensures Executes(s, step, id) ==> step.call in InExecution(s, id)
    ensures Clears(s, step, id) ==> step.call !in InExecution(s, id)
  {
    hide Count;
    hide Check;
    hide Apply;
  }

  lemma {:induction false} StepKeepsExecutionCount(s: State, step: Step, id: string)
    requires Grounded(s)
    ensures |InExecution(Next(s, step), id)| + (if Executes(s, step, id) then 1 else 0)
         == |InExecution(s, id)| + if Clears(s, step, id) then 1 else 0
  {
    forall c: int ensures c in InExecution(Next(s, step), id) <==>
      (c in InExecution(s, id) && !(Executes(s, step, id) && step.call == c)) || (Clears(s, step, id) && step.call == c)
    {
      StepMovesExecution(s, step, id, c);
    }
    StepMovesExecution(s, step, id, 0);
    OneKind(s, step, id);
    var before, after := InExecution(s, id), InExecution(Next(s, step), id);
    hide InExecution;
    hide Next;
    hide Executes;
    hide Clears;
    if Executes(s, step, id) {
      assert after == before - {step.call};
    } else if Clears(s, step, id) {
      assert after == before + {step.call};
    } else {
      assert after == before;
    }
  }

  lemma {:induction false} OneKind(s: State, step: Step, id: string)
    ensures !(Executes(s, step, id) && Clears(s, step, id))
    ensures Executes(s, step, id) || Clears(s, step, id) ==> step.WriteExecuted? || step.ReadForExecution?
  {
  }

  // Conservation: every cleared call executes or is still about to. So once none is under way, a
  // request was executed at most once exactly when at most one call found it approved.
  lemma {:induction false} ExecutionsAreClearedCalls(s: State, steps: seq<Step>, id: string)
    requires Grounded(s)
    ensures Executions(s, steps, id) + |InExecution(RunAll(s, steps), id)| ==
      |InExecution(s, id)| + Cleared(s, steps, id)
    decreases |steps|
  {
    hide Grounded;
    hide Next;
    hide InExecution;
    hide Executes;
    hide Clears;
    if steps != [] {
      StepKeepsGrounded(s, steps[0]);
      StepKeepsExecutionCount(s, steps[0], id);
      ExecutionsAreClearedCalls(Next(s, steps[0]), steps[1..], id);
    }
  }

  lemma {:induction false} ExecutedOnceIffClearedOnce(steps: seq<Step>, id: string)
    requires InExecution(RunAll(NOTHING, steps), id) == {}
    ensures Executions(NOTHING, steps, id) <= 1 <==> Cleared(NOTHING, steps, id) <= 1
  {
    assert InExecution(NOTHING, id) == {};
    ExecutionsAreClearedCalls(NOTHING, steps, id);
    hide *;
  }

  ghost predicate Over(s: State, id: string) {
    id in s.db.requests && s.db.requests[id].status in {Executed, Rejected}
  }

  lemma {:induction false} StepKeepsStatus(s: State, step: Step, id: string)
    requires id in s.db.requests && !Decides(s, step, id) && !Executes(s, step, id)
    ensures id in Next(s, step).db.requests && Next(s, step).db.requests[id].status == s.db.requests[id].status
  {
    hide Count;
  }

  // Without stale writes an executed or rejected request never changes again.
  lemma {:induction false} OverIsFinalIfNeverStale(s: State, steps: seq<Step>, id: string)
    requires Over(s, id) && NeverStale(s, steps, id)
    ensures Executions(s, steps, id) == 0
    ensures Over(RunAll(s, steps), id) && RunAll(s, steps).db.requests[id].status == s.db.requests[id].status
    decreases |steps|
  {
    if steps != [] {
      assert !Decides(s, steps[0], id) && !Executes(s, steps[0], id);
      StepKeepsStatus(s, steps[0], id);
      hide Next;
      OverIsFinalIfNeverStale(Next(s, steps[0]), steps[1..], id);
    }
  }

  // ... and is executed at most once.
  lemma {:induction false} ExecutedAtMostOnceIfNeverStale(s: State, steps: seq<Step>, id: string)
    requires NeverStale(s, steps, id)
    ensures Executions(s, steps, id) <= 1
    decreases |steps|
  {
    if steps != [] {
      var next := Next(s, steps[0]);
      if Executes(s, steps[0], id) {
        assert Over(next, id);
        OverIsFinalIfNeverStale(next, steps[1..], id);
      } else {
        ExecutedAtMostOnceIfNeverStale(next, steps[1..], id);
      }
    }
  }

  ghost predicate UnderWay(s: State, id: string) {
    exists c :: c in InExecution(s, id)
  }

  // The two ways to be cleared again: while another execution call of the request is under way, or
  // after a voter wrote a status over the executed one.
  ghost predicate Overlaps(s: State, step: Step, id: string) {
    Clears(s, step, id) && UnderWay(s, id)
  }

  predicate Revives(s: State, step: Step, id: string) {
    Decides(s, step, id) && s.db.requests[id].status == Executed
  }

  // An execution is under way or done.
  ghost predicate Spent(s: State, id: string) {
    UnderWay(s, id) || (id in s.db.requests && s.db.requests[id].status == Executed)
  }

  lemma {:induction false} ExecutesIsUnderWay(s: State, step: Step, id: string)
    requires Executes(s, step, id)
    ensures UnderWay(s, id)
  {
    assert step.call in InExecution(s, id);
  }

  lemma {:induction false} StepKeepsSpent(s: State, step: Step, id: string)
    requires Grounded(s) && Spent(s, id) && !Clears(s, step, id) && !Revives(s, step, id)
    ensures Spent(Next(s, step), id)
  {
    var t := Next(s, step);
    hide Count;
    if UnderWay(s, id) {
      var c :| c in InExecution(s, id);
      assert c in InExecution(t, id) || Executes(s, step, id);
    } else {
      if Executes(s, step, id) {
        ExecutesIsUnderWay(s, step, id);
        assert false;
      }
      StepKeepsStatus(s, step, id);
    }
  }

  // From here on, some call is cleared while another execution is under way, or after a revival.
  ghost predicate ClearedAgain(s: State, steps: seq<Step>, id: string, revived: bool)
    decreases |steps|
  {
    steps != [] &&
    ((Clears(s, steps[0], id) && (revived || UnderWay(s, id))) ||
     ClearedAgain(Next(s, steps[0]), steps[1..], id, revived || Revives(s, steps[0], id)))
  }

  ghost predicate Untouched(s: State, id: string) {
    !UnderWay(s, id) && (id in s.db.requests ==> s.db.requests[id].status != Executed)
  }

  lemma {:induction false} StepKeepsUntouched(s: State, step: Step, id: string)
    requires Grounded(s) && Untouched(s, id) && !Clears(s, step, id)
    ensures Untouched(Next(s, step), id) && !Revives(s, step, id)
  {
    var t := Next(s, step);
    forall c: int ensures c !in InExecution(t, id) {
      StepMovesExecution(s, step, id, c);
    }
    StepMovesExecution(s, step, id, 0);
    assert !Executes(s, step, id);
    StepKeepsGrounded(s, step);
    hide Count;
  }

  // Once cleared, a call is cleared again exactly in one of these ways.
  lemma {:induction false} SpentIsClearedIff(s: State, steps: seq<Step>, id: string, revived: bool)
    requires Grounded(s) && (revived || Spent(s, id))
    ensures Cleared(s, steps, id) >= 1 <==> ClearedAgain(s, steps, id, revived)
    decreases |steps|
  {
    if steps != [] {
      var step, next := steps[0], Next(s, steps[0]);
      StepKeepsGrounded(s, step);
      if Clears(s, step, id) {
        assert revived || UnderWay(s, id);
      } else {
        var again := revived || Revives(s, step, id);
        if !again {
          StepKeepsSpent(s, step, id);
        }
        hide Grounded;
        hide Spent;
        hide Next;
        SpentIsClearedIff(next, steps[1..], id, again);
      }
    }
  }

  lemma {:induction false} UntouchedIsClearedTwiceIff(s: State, steps: seq<Step>, id: string)
    requires Grounded(s) && Untouched(s, id)
    ensures Cleared(s, steps, id) >= 2 <==> ClearedAgain(s, steps, id, false)
    decreases |steps|
  {
    if steps != [] {
      var step, next := steps[0], Next(s, steps[0]);
      StepKeepsGrounded(s, step);
      if Clears(s, step, id) {
        StepMovesExecution(s, step, id, step.call);
        assert UnderWay(next, id) && !Revives(s, step, id);
        SpentIsClearedIff(next, steps[1..], id, false);
      } else {
        StepKeepsUntouched(s, step, id);
        hide Grounded;
        hide Untouched;
        hide Next;
        UntouchedIsClearedTwiceIff(next, steps[1..], id);
      }
    }
  }

  // In every interleaving: a request is cleared for execution a second time exactly when some
  // call reads it approved while another execution of it is under way, or after a voter wrote a
  // status over its executed one. Once none is under way, executions count the same.
  lemma {:induction false} ClearedTwiceIff(steps: seq<Step>, id: string)
    ensures Cleared(NOTHING, steps, id) >= 2 <==> ClearedAgain(NOTHING, steps, id, false)
    ensures Executions(NOTHING, steps, id) >= 2 ==> ClearedAgain(NOTHING, steps, id, false)
    ensures InExecution(RunAll(NOTHING, steps), id) == {} ==>
      (Executions(NOTHING, steps, id) >= 2 <==> ClearedAgain(NOTHING, steps, id, false))
  {
    assert InExecution(NOTHING, id) == {} && Grounded(NOTHING) && Untouched(NOTHING, id);
    hide *;
    UntouchedIsClearedTwiceIff(NOTHING, steps, id);
    ExecutionsAreClearedCalls(NOTHING, steps, id);
    assert |InExecution(NOTHING, id)| == 0;
  }

  // ---------------------------------------------------------------------------
  // What goes wrong otherwise
  // ---------------------------------------------------------------------------

  // Runs are put together piece by piece.
  ghost predicate NeverOverlaps(s: State, steps: seq<Step>, id: string)
    decreases |steps|
  {
    steps == [] || (!Overlaps(s, steps[0], id) && NeverOverlaps(Next(s, steps[0]), steps[1..], id))
  }

  lemma {:induction false} RunAppend(s: State, a: seq<Step>, b: seq<Step>, id: string)
    ensures
      var t := RunAll(s, a);
      && RunAll(s, a + b) == RunAll(t, b)
      && Executions(s, a + b, id) == Executions(s, a, id) + Executions(t, b, id)
      && (NeverLate(s, a + b, id) <==> NeverLate(s, a, id) && NeverLate(t, b, id))
      && (NeverOverlaps(s, a + b, id) <==> NeverOverlaps(s, a, id) && NeverOverlaps(t, b, id))
    decreases |a|
  {
    hide Next;
    hide Executes;
    hide LateVote;
    hide Overlaps;
    if a == [] {
      assert a + b == b;
    } else {
      assert (a + b)[0] == a[0] && (a + b)[1..] == a[1..] + b;
      RunAppend(Next(s, a[0]), a[1..], b, id);
    }
  }

  lemma {:induction false} OneStep(s: State, a: Step, id: string)
    ensures RunAll(s, [a]) == Next(s, a) && Executions(s, [a], id) == if Executes(s, a, id) then 1 else 0
    ensures NeverLate(s, [a], id) <==> !LateVote(s, a, id)
    ensures NeverOverlaps(s, [a], id) <==> !Overlaps(s, a, id)
  {
    hide Next;
    hide Executes;
    hide LateVote;
    hide Overlaps;
    assert [a][1..] == [];
    assert RunAll(s, [a]) == RunAll(Next(s, a), []);
    assert Executions(s, [a], id) == (if Executes(s, a, id) then 1 else 0) + Executions(Next(s, a), [], id);
    assert NeverLate(s, [a], id) <==> !LateVote(s, a, id) && NeverLate(Next(s, a), [], id);
    assert NeverOverlaps(s, [a], id) <==> !Overlaps(s, a, id) && NeverOverlaps(Next(s, a), [], id);
  }

  lemma {:induction false} TwoSteps(s: State, a: Step, b: Step, id: string)
    ensures RunAll(s, [a, b]) == Next(Next(s, a), b)
    ensures Executions(s, [a, b], id) ==
      (if Executes(s, a, id) then 1 else 0) + if Executes(Next(s, a), b, id) then 1 else 0
    ensures NeverLate(s, [a, b], id) <==> !LateVote(s, a, id) && !LateVote(Next(s, a), b, id)
    ensures NeverStale(s, [a, b], id) <==> !Stale(s, a, id) && !Stale(Next(s, a), b, id)
    ensures NeverOverlaps(s, [a, b], id) <==> !Overlaps(s, a, id) && !Overlaps(Next(s, a), b, id)
  {
    hide Next;
    hide Executes;
    hide LateVote;
    hide Stale;
    hide Overlaps;
    assert [a, b][1..] == [b] && [b][1..] == [];
    assert RunAll(Next(s, a), [b]) == RunAll(Next(Next(s, a), b), []);
    assert Executions(Next(s, a), [b], id) ==
      (if Executes(Next(s, a), b, id) then 1 else 0) + Executions(Next(Next(s, a), b), [], id);
    assert NeverLate(Next(s, a), [b], id) <==>
      !LateVote(Next(s, a), b, id) && NeverLate(Next(Next(s, a), b), [], id);
    assert NeverStale(Next(s, a), [b], id) <==>
      !Stale(Next(s, a), b, id) && NeverStale(Next(Next(s, a), b), [], id);
    assert NeverOverlaps(Next(s, a), [b], id) <==>
      !Overlaps(Next(s, a), b, id) && NeverOverlaps(Next(Next(s, a), b), [], id);
  }

  // From any state with an approved request, two overlapping executions both go through.
  lemma {:induction false} OverlappingExecutions(s: State, id: string)
    requires id in s.db.requests && s.db.requests[id].status == Approved && s.calls == map[]
    ensures
      var both := RunAll(s, [ReadForExecution(1, id), ReadForExecution(2, id)]);
      Executions(both, [WriteExecuted(1), WriteExecuted(2)], id) == 2
  {
    TwoSteps(s, ReadForExecution(1, id), ReadForExecution(2, id), id);
    var both := RunAll(s, [ReadForExecution(1, id), ReadForExecution(2, id)]);
    TwoSteps(both, WriteExecuted(1), WriteExecuted(2), id);
    hide RunAll;
    hide Executions;
    assert both.calls[1] == Executing(id) && both.calls[2] == Executing(id);
  }

  // Two voters whose votes are both in, and enough, before either counts.
  ghost predicate TwoCounting(s: State, id: string) {
    && id in s.db.requests && s.db.requests[id].status == Pending
    && Tally(s, id, Approve) >= s.db.requests[id].required
    && s.calls.Keys == {1, 2} && s.calls[1] == Counting(id) && s.calls[2] == Counting(id)
  }

  // Both count; the first writes approved, and an execution begins.
  lemma {:induction false} FirstVoterDecides(s: State, id: string)
    requires TwoCounting(s, id)
    ensures
      var steps := [CountApprovals(1), CountApprovals(2)] + [WriteStatus(1), ReadForExecution(3, id)];
      var t := RunAll(s, steps);
      && id in t.db.requests && t.calls.Keys == {2, 3} && t.calls[2] == Writing(id, Approved) &&
         t.calls[3] == Executing(id)
      && Executions(s, steps, id) == 0 && NeverLate(s, steps, id) && NeverOverlaps(s, steps, id)
  {
    RunAppend(s, [CountApprovals(1), CountApprovals(2)], [WriteStatus(1), ReadForExecution(3, id)], id);
    TwoSteps(s, CountApprovals(1), CountApprovals(2), id);
    var counted := RunAll(s, [CountApprovals(1), CountApprovals(2)]);
    TwoSteps(counted, WriteStatus(1), ReadForExecution(3, id), id);
    hide RunAll;
    hide Executions;
    hide NeverLate;
    hide NeverOverlaps;
    hide Count;
    assert counted.db == s.db && counted.calls.Keys == {1, 2};
    assert counted.calls[1] == Writing(id, Approved) && counted.calls[2] == Writing(id, Approved);
    var one := Next(counted, WriteStatus(1));
    assert one.calls.Keys == {2} && InExecution(one, id) == {};
  }

  // The request is executed, the second voter writes approved over that, and it is executed again.
  lemma {:induction false} SecondVoterRevives(t: State, id: string)
    requires id in t.db.requests && t.calls.Keys == {2, 3}
    requires t.calls[2] == Writing(id, Approved) && t.calls[3] == Executing(id)
    ensures
      var steps := [WriteExecuted(3), WriteStatus(2)] + [ReadForExecution(4, id), WriteExecuted(4)];
      Executions(t, steps, id) == 2 && NeverLate(t, steps, id) && NeverOverlaps(t, steps, id)
  {
    RunAppend(t, [WriteExecuted(3), WriteStatus(2)], [ReadForExecution(4, id), WriteExecuted(4)], id);
    TwoSteps(t, WriteExecuted(3), WriteStatus(2), id);
    var u := RunAll(t, [WriteExecuted(3), WriteStatus(2)]);
    TwoSteps(u, ReadForExecution(4, id), WriteExecuted(4), id);
    hide RunAll;
    hide Executions;
    hide NeverLate;
    hide NeverOverlaps;
    hide Count;
    assert u.calls.Keys == {} && InExecution(u, id) == {};
  }

  function Revival(id: string): seq<Step> {
    [CountApprovals(1), CountApprovals(2)] + [WriteStatus(1), ReadForExecution(3, id)] +
    ([WriteExecuted(3), WriteStatus(2)] + [ReadForExecution(4, id), WriteExecuted(4)])
  }

  // From every state with two voters about to count enough votes.
  lemma {:induction false} LateVoterRevivesExecuted(s: State, id: string)
    requires TwoCounting(s, id)
    ensures Executions(s, Revival(id), id) == 2 && NeverLate(s, Revival(id), id) && NeverOverlaps(s, Revival(id), id)
  {
    var decide := [CountApprovals(1), CountApprovals(2)] + [WriteStatus(1), ReadForExecution(3, id)];
    var revive := [WriteExecuted(3), WriteStatus(2)] + [ReadForExecution(4, id), WriteExecuted(4)];
    assert Revival(id) == decide + revive;
    hide *;
    FirstVoterDecides(s, id);
    SecondVoterRevives(RunAll(s, decide), id);
    RunAppend(s, decide, revive, id);
  }

  function TwoVotes(requester: string, a: string, b: string): seq<Step> {
    [InsertRequest("r", "bulk_export", requester, Some(2)), ReadForVote(1, "r", a, Approve)] +
    [ReadForVote(2, "r", b, Approve), InsertVote(1)] + [InsertVote(2)]
  }

  // Two approvers of two get there, without a late vote.
  lemma {:induction false} TwoCountingIsReachable(requester: string, a: string, b: string)
    requires a != b
    ensures
      var steps := TwoVotes(requester, a, b);
      && TwoCounting(RunAll(NOTHING, steps), "r") && Executions(NOTHING, steps, "r") == 0
      && NeverLate(NOTHING, steps, "r") && NeverOverlaps(NOTHING, steps, "r")
  {
    var ask, vote1 := InsertRequest("r", "bulk_export", requester, Some(2)), ReadForVote(1, "r", a, Approve);
    var vote2 := ReadForVote(2, "r", b, Approve);
    TwoSteps(NOTHING, ask, vote1, "r");
    var s1 := RunAll(NOTHING, [ask, vote1]);
    TwoSteps(s1, vote2, InsertVote(1), "r");
    var s2 := RunAll(s1, [vote2, InsertVote(1)]);
    OneStep(s2, InsertVote(2), "r");
    RunAppend(NOTHING, [ask, vote1], [vote2, InsertVote(1)], "r");
    RunAppend(NOTHING, [ask, vote1] + [vote2, InsertVote(1)], [InsertVote(2)], "r");
    hide RunAll;
    hide NeverLate;
    hide NeverOverlaps;
    hide Executions;
    assert Count(map[], Approve) == 0 && Count(map[], Reject) == 0;
    VoteCounts(map[], a, Approve, Approve);
    VoteCounts(map[], a, Approve, Reject);
    VoteCounts(map[a := Approve], b, Approve, Approve);
    hide Count;
    assert s1.calls == map[1 := Voting("r", a, Approve)] && VotesOn(s1.db, "r") == map[];
    var mid := Next(s1, vote2);
    assert mid.calls[1] == Voting("r", a, Approve) && mid.calls[2] == Voting("r", b, Approve) &&
      mid.calls.Keys == {1, 2};
    assert VotesOn(s2.db, "r") == map[a := Approve] && s2.calls.Keys == {1, 2} &&
      s2.calls[2] == Voting("r", b, Approve);
    var t := Next(s2, InsertVote(2));
    assert VotesOn(t.db, "r") == map[a := Approve][b := Approve] && t.calls.Keys == {1, 2};
  }

  // One whole run: two executions, no vote late and no two executions overlapping.
  lemma {:induction false} ExecutedTwiceWithoutOverlap(requester: string, a: string, b: string)
    requires a != b
    ensures
      var steps := TwoVotes(requester, a, b) + Revival("r");
      && Executions(NOTHING, steps, "r") == 2
      && NeverLate(NOTHING, steps, "r") && NeverOverlaps(NOTHING, steps, "r")
  {
    hide *;
    var votes := TwoVotes(requester, a, b);
    TwoCountingIsReachable(requester, a, b);
    LateVoterRevivesExecuted(RunAll(NOTHING, votes), "r");
    RunAppend(NOTHING, votes, Revival("r"), "r");
  }

  // From any state with one approval missing, two overlapping approvals leave one too many.
  lemma {:induction false} OverlappingApprovals(s: State, id: string, a: string, b: string)
    requires Grounded(s) && id in s.db.requests && s.db.requests[id].status == Pending && s.calls == map[]
    requires a != b && a !in VotesOn(s.db, id) && b !in VotesOn(s.db, id)
    requires Tally(s, id, Approve) + 1 == s.db.requests[id].required
    ensures
      var both := RunAll(s, [ReadForVote(1, id, a, Approve), ReadForVote(2, id, b, Approve)]);
      var voted := RunAll(both, [InsertVote(1), InsertVote(2)]);
      && id in voted.db.requests && Tally(voted, id, Approve) == voted.db.requests[id].required + 1
      && !NeverLate(both, [InsertVote(1), InsertVote(2)], id)
  {
    TwoSteps(s, ReadForVote(1, id, a, Approve), ReadForVote(2, id, b, Approve), id);
    var both := RunAll(s, [ReadForVote(1, id, a, Approve), ReadForVote(2, id, b, Approve)]);
    TwoSteps(both, InsertVote(1), InsertVote(2), id);
    hide RunAll;
    hide NeverLate;
    assert both.db == s.db && both.calls[1] == Voting(id, a, Approve) && both.calls[2] == Voting(id, b, Approve);
    StepKeepsGrounded(s, ReadForVote(1, id, a, Approve));
    StepKeepsGrounded(Next(s, ReadForVote(1, id, a, Approve)), ReadForVote(2, id, b, Approve));
    StepTallies(both, InsertVote(1), id, Approve);
    var one := Next(both, InsertVote(1));
    assert VotesOn(one.db, id) == VotesOn(s.db, id)[a := Approve] && one.calls[2] == Voting(id, b, Approve);
    StepKeepsGrounded(both, InsertVote(1));
    StepTallies(one, InsertVote(2), id, Approve);
    StepKeepsGrounded(one, InsertVote(2));
    hide Count;
    hide Grounded;
  }

  // Both are reachable: one approver of one takes a request to approved.
  lemma {:induction false} ApprovedIsReachable(requester: string, approver: string)
    ensures
      var steps := [InsertRequest("r", "bulk_export", requester, Some(1)), ReadForVote(0, "r", approver, Approve)] +
                   [InsertVote(0), CountApprovals(0)] + [WriteStatus(0)];
      var s := RunAll(NOTHING, steps);
      "r" in s.db.requests && s.db.requests["r"].status == Approved && s.calls == map[]
  {
    var ask, vote := InsertRequest("r", "bulk_export", requester, Some(1)), ReadForVote(0, "r", approver, Approve);
    RunAppend(NOTHING, [ask, vote], [InsertVote(0), CountApprovals(0)], "r");
    RunAppend(NOTHING, [ask, vote] + [InsertVote(0), CountApprovals(0)], [WriteStatus(0)], "r");
    TwoSteps(NOTHING, ask, vote, "r");
    var s := RunAll(NOTHING, [ask, vote]);
    TwoSteps(s, InsertVote(0), CountApprovals(0), "r");
    var t := RunAll(s, [InsertVote(0), CountApprovals(0)]);
    OneStep(t, WriteStatus(0), "r");
    hide RunAll;
    hide NeverLate;
    hide NeverOverlaps;
    hide Executions;
    assert s.calls == map[0 := Voting("r", approver, Approve)] && VotesOn(s.db, "r") == map[];
    assert s.db.requests["r"].required == 1 && Count(map[], Approve) == 0;
    VoteCounts(map[], approver, Approve, Approve);
    hide Count;
    assert t.calls == map[0 := Writing("r", Approved)];
    assert Next(t, WriteStatus(0)).calls == map[];
  }

  // ---------------------------------------------------------------------------
  // Calls that run as one transaction
  // ---------------------------------------------------------------------------

  function Statements(c: Command): seq<Step> {
    match c
    case Create(newId, operation, requester, required) => [InsertRequest(newId, operation, requester, required)]
    case Vote(id, approver, decision) =>
      [ReadForVote(0, id, approver, decision), InsertVote(0), CountApprovals(0), WriteStatus(0)]
    case Execute(id) => [ReadForExecution(0, id), WriteExecuted(0)]
  }

  lemma {:induction false} FourSteps(s: State, a: Step, b: Step, c: Step, d: Step, id: string)
    ensures RunAll(s, [a, b, c, d]) == Next(Next(Next(Next(s, a), b), c), d)
    ensures NeverStale(s, [a, b, c, d], id) <==>
      !Stale(s, a, id) && !Stale(Next(s, a), b, id) && !Stale(Next(Next(s, a), b), c, id) &&
        !Stale(Next(Next(Next(s, a), b), c), d, id)
    ensures NeverLate(s, [a, b, c, d], id) <==>
      !LateVote(s, a, id) && !LateVote(Next(s, a), b, id) && !LateVote(Next(Next(s, a), b), c, id)
      && !LateVote(Next(Next(Next(s, a), b), c), d, id)
  {
    hide Next;
    hide Stale;
    hide LateVote;
    assert [a, b, c, d][1..] == [b, c, d] && [b, c, d][1..] == [c, d];
    TwoSteps(Next(Next(s, a), b), c, d, id);
  }

  lemma {:induction false} VoteAsOne(db: Db, c: Command, id: string)
    requires Consistent(db) && c.Vote?
    ensures RunAll(State(db, map[]), Statements(c)) == State(Apply(db, c), map[])
    ensures NeverStale(State(db, map[]), Statements(c), id) && NeverLate(State(db, map[]), Statements(c), id)
  {
    var s := State(db, map[]);
    var w, x, y, z := ReadForVote(0, c.id, c.approver, c.decision), InsertVote(0), CountApprovals(0), WriteStatus(0);
    FourSteps(s, w, x, y, z, id);
    hide RunAll;
    hide NeverStale;
    hide NeverLate;
    hide Count;
    if Can(s, w) {
      assert Tallied(db.requests[c.id], db.votes[c.id]);
      var s1 := Next(s, w);
      assert s1.calls - {0} == map[];
      assert !LateVote(s1, x, id);
      var s2 := Next(s1, x);
      assert s2.calls - {0} == map[];
      var s3 := Next(s2, y);
      assert s3.calls - {0} == map[] && s3.db.requests == db.requests;
      if c.approver !in VotesOn(db, c.id) {
        assert db.requests[c.id := db.requests[c.id]] == db.requests;
      }
    }
  }

  // Enclosed in a transaction a call is its statements in a row: then it is the single step
  // `Apply`, never stale and never a late vote.
  lemma {:induction false} CallAsOne(db: Db, c: Command, id: string)
    requires Consistent(db)
    ensures RunAll(State(db, map[]), Statements(c)) == State(Apply(db, c), map[])
    ensures NeverStale(State(db, map[]), Statements(c), id) && NeverLate(State(db, map[]), Statements(c), id)
  {
    var s := State(db, map[]);
    match c
    case Create(newId, operation, requester, required) =>
      var step := InsertRequest(newId, operation, requester, required);
      assert [step][1..] == [];
      assert RunAll(s, [step]) == RunAll(Next(s, step), []);
      assert NeverStale(s, [step], id) <==> !Stale(s, step, id) && NeverStale(Next(s, step), [], id);
      assert NeverLate(s, [step], id) <==> !LateVote(s, step, id) && NeverLate(Next(s, step), [], id);
    case Vote(_, _, _) =>
      VoteAsOne(db, c, id);
    case Execute(requestId) =>
      TwoSteps(s, ReadForExecution(0, requestId), WriteExecuted(0), id);
      hide RunAll;
      hide NeverStale;
      hide NeverLate;
      hide Count;
      var t := Next(s, ReadForExecution(0, requestId));
      assert t.calls - {0} == map[];
  }
}
