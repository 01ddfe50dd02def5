/** Legal holds and their four-eyes removal, as rows updated by atomic calls. */
module LegalHold {
  import opened Options

  datatype HoldStatus = Active | PendingRemoval | Removed
  datatype Hold = Hold(tenant: string, placedBy: string, status: HoldStatus)

  datatype RequestStatus = Pending | Approved | Rejected
  datatype Request = Request(holdId: string, requestedBy: string, coApprovedBy: Option<string>, status: RequestStatus)

  // The two tables. Here each call is one step, as it is inside a transaction; module
  // HoldStatements takes the calls apart.
  datatype Db = Db(holds: map<string, Hold>, requests: map<string, Request>)

  datatype Actor = Actor(id: string, role: Option<string>, superuser: bool)

  datatype Command =
    | Place(actor: Actor, tenant: string, newId: string)
    | RequestRemoval(actor: Actor, holdId: string, newId: string)
    | Approve(actor: Actor, requestId: string)
    | Reject(actor: Actor, requestId: string)

  datatype Outcome =
    | Done
    | InsufficientRole
    | HoldNotFound
    | WrongStatus
    | RequestNotFound
    | FourEyesViolation
    | ConstraintViolation

  predicate Authorised(actor: Actor) {
    actor.superuser || actor.role == Some("compliance_officer")
  }

  // The table constraint UNIQUE (hold_id, status, requested_by).
  predicate Taken(db: Db, holdId: string, status: RequestStatus, requestedBy: string) {
    exists r :: r in db.requests && db.requests[r].holdId == holdId && db.requests[r].status == status
                && db.requests[r].requestedBy == requestedBy
  }

  function Check(db: Db, c: Command): Outcome {
    if !Authorised(c.actor) then InsufficientRole
    else
      match c
      case Place(_, _, newId) => if newId in db.holds then ConstraintViolation else Done
      case RequestRemoval(actor, holdId, newId) =>
        if holdId !in db.holds then HoldNotFound
        else if db.holds[holdId].status != Active then WrongStatus
        else if newId in db.requests || Taken(db, holdId, Pending, actor.id) then ConstraintViolation
        else Done
      case Approve(actor, requestId) =>
        if requestId !in db.requests || db.requests[requestId].status != Pending then RequestNotFound
        else if db.requests[requestId].requestedBy == actor.id then FourEyesViolation
        else if Taken(db, db.requests[requestId].holdId, Approved, db.requests[requestId].requestedBy)
        then ConstraintViolation
        else Done
      case Reject(_, requestId) =>
        if requestId !in db.requests || db.requests[requestId].status != Pending then RequestNotFound
        else if Taken(db, db.requests[requestId].holdId, Rejected, db.requests[requestId].requestedBy)
        then ConstraintViolation
        else Done
  }

  // `UPDATE legal_holds SET status = ... WHERE id = ...`: no row, no change.
  function SetStatus(holds: map<string, Hold>, id: string, status: HoldStatus): map<string, Hold> {
    if id in holds then holds[id := holds[id].(status := status)] else holds
  }

  function Apply(db: Db, c: Command): Db {
    if Check(db, c) != Done then db
    else
      match c
      case Place(actor, tenant, newId) =>
        db.(holds := db.holds[newId := Hold(tenant, actor.id, Active)])
      case RequestRemoval(actor, holdId, newId) =>
        Db(SetStatus(db.holds, holdId, PendingRemoval),
           db.requests[newId := Request(holdId, actor.id, None, Pending)])
      case Approve(actor, requestId) =>
        var r := db.requests[requestId];
        Db(SetStatus(db.holds, r.holdId, Removed),
           db.requests[requestId := r.(status := Approved, coApprovedBy := Some(actor.id))])
      case Reject(_, requestId) =>
        var r := db.requests[requestId];
        Db(SetStatus(db.holds, r.holdId, Active), db.requests[requestId := r.(status := Rejected)])
  }

  class LegalHolds {
    var holds: map<string, Hold>
    var requests: map<string, Request>

    ghost function Contents(): Db
      reads this
    {
      Db(holds, requests)
    }

    constructor ()
      ensures Contents() == EMPTY
    {
      holds, requests := map[], map[];
    }

    method PlaceLegalHold(actor: Actor, tenant: string, newId: string) returns (outcome: Outcome)
      modifies this
      ensures outcome == Check(old(Contents()), Place(actor, tenant, newId))
      ensures Contents() == Apply(old(Contents()), Place(actor, tenant, newId))
      ensures outcome == InsufficientRole <==> !actor.superuser && actor.role != Some("compliance_officer")
      ensures outcome != Done ==> holds == old(holds) && requests == old(requests)
      ensures outcome == Done ==>
        && newId !in old(holds) && holds == old(holds)[newId := Hold(tenant, actor.id, Active)]
        && requests == old(requests)
    {
      if !actor.superuser && actor.role != Some("compliance_officer") {
        return InsufficientRole;
      }
      if newId in holds {
        return ConstraintViolation;
      }
      holds := holds[newId := Hold(tenant, actor.id, Active)];
      outcome := Done;
    }

    method RequestHoldRemoval(actor: Actor, holdId: string, newId: string) returns (outcome: Outcome)
      modifies this
      ensures outcome == Check(old(Contents()), RequestRemoval(actor, holdId, newId))
      ensures Contents() == Apply(old(Contents()), RequestRemoval(actor, holdId, newId))
      ensures outcome == InsufficientRole <==> !actor.superuser && actor.role != Some("compliance_officer")
      ensures outcome != Done ==> holds == old(holds) && requests == old(requests)
      ensures outcome == Done ==>
        && holdId in old(holds) && old(holds)[holdId].status == Active && newId !in old(requests)
        && holds == old(holds)[holdId := old(holds)[holdId].(status := PendingRemoval)]
        && requests == old(requests)[newId := Request(holdId, actor.id, None, Pending)]
    {
      if !actor.superuser && actor.role != Some("compliance_officer") {
        return InsufficientRole;
      }
      if holdId !in holds {
        return HoldNotFound;
      }
      if holds[holdId].status != Active {
        return WrongStatus;
      }
      if newId in requests || Taken(Db(holds, requests), holdId, Pending, actor.id) {
        return ConstraintViolation;
      }
      holds := holds[holdId := holds[holdId].(status := PendingRemoval)];
      requests := requests[newId := Request(holdId, actor.id, None, Pending)];
      outcome := Done;
    }

    method ApproveHoldRemoval(actor: Actor, requestId: string) returns (outcome: Outcome)
      modifies this
      ensures outcome == Check(old(Contents()), Approve(actor, requestId))
      ensures Contents() == Apply(old(Contents()), Approve(actor, requestId))
      ensures outcome == InsufficientRole <==> !actor.superuser && actor.role != Some("compliance_officer")
      ensures outcome != Done ==> holds == old(holds) && requests == old(requests)
      ensures outcome == Done ==>
        && requestId in old(requests) && old(requests)[requestId].status == Pending
        && old(requests)[requestId].requestedBy != actor.id
        && requests == old(requests)[requestId := old(requests)[requestId].(status := Approved,
                                                                            coApprovedBy := Some(actor.id))]
        && holds.Keys == old(holds).Keys
        && forall h :: h in holds ==>
             holds[h] == (if h != old(requests)[requestId].holdId then old(holds)[h]
                          else old(holds)[h].(status := Removed))
    {
      if !actor.superuser && actor.role != Some("compliance_officer") {
        return InsufficientRole;
      }
      if requestId !in requests || requests[requestId].status != Pending {
        return RequestNotFound;
      }
      var request := requests[requestId];
      if request.requestedBy == actor.id {
        return FourEyesViolation;
      }
      if Taken(Db(holds, requests), request.holdId, Approved, request.requestedBy) {
        return ConstraintViolation;
      }
      requests := requests[requestId := request.(status := Approved, coApprovedBy := Some(actor.id))];
      holds := SetStatus(holds, request.holdId, Removed);
      outcome := Done;
    }

    method RejectHoldRemoval(actor: Actor, requestId: string) returns (outcome: Outcome)
      modifies this
      ensures outcome == Check(old(Contents()), Reject(actor, requestId))
      ensures Contents() == Apply(old(Contents()), Reject(actor, requestId))
      ensures outcome == InsufficientRole <==> !actor.superuser && actor.role != Some("compliance_officer")
      ensures outcome != Done ==> holds == old(holds) && requests == old(requests)
      ensures outcome == Done ==>
        && requestId in old(requests) && old(requests)[requestId].status == Pending
        && requests == old(requests)[requestId := old(requests)[requestId].(status := Rejected)]
        && holds.Keys == old(holds).Keys
        && forall h :: h in holds ==>
             holds[h] == (if h != old(requests)[requestId].holdId then old(holds)[h]
                          else old(holds)[h].(status := Active))
    {
      if !actor.superuser && actor.role != Some("compliance_officer") {
        return InsufficientRole;
      }
      if requestId !in requests || requests[requestId].status != Pending {
        return RequestNotFound;
      }
      var request := requests[requestId];
      if Taken(Db(holds, requests), request.holdId, Rejected, request.requestedBy) {
        return ConstraintViolation;
      }
      requests := requests[requestId := request.(status := Rejected)];
      holds := SetStatus(holds, request.holdId, Active);
      outcome := Done;
    }
  }

  // ---------------------------------------------------------------------------
  // What every run keeps
  // ---------------------------------------------------------------------------

  const EMPTY := Db(map[], map[])

  function Run(db: Db, commands: seq<Command>): Db
    decreases |commands|
  {
    if commands == [] then db else Run(Apply(db, commands[0]), commands[1..])
  }

  ghost predicate IsPending(db: Db, r: string, holdId: string) {
    r in db.requests && db.requests[r].holdId == holdId && db.requests[r].status == Pending
  }

  // A different officer than the requester signed the removal.
  ghost predicate FourEyes(r: Request) {
    r.status == Approved && r.coApprovedBy.Some? && r.coApprovedBy.value != r.requestedBy
  }

  ghost predicate PendingMatches(db: Db) {
    && (forall r :: r in db.requests ==> db.requests[r].holdId in db.holds)
    && (forall r :: r in db.requests && db.requests[r].status == Pending ==>
          db.holds[db.requests[r].holdId].status == PendingRemoval)
    && (forall h :: h in db.holds && db.holds[h].status == PendingRemoval ==> exists r :: IsPending(db, r, h))
    && (forall h, r, q :: IsPending(db, r, h) && IsPending(db, q, h) ==> r == q)
  }

  ghost predicate RemovedMatches(db: Db) {
    && (forall h :: h in db.holds && db.holds[h].status == Removed ==>
          exists r :: r in db.requests && db.requests[r].holdId == h && FourEyes(db.requests[r]))
    && (forall r :: r in db.requests && db.requests[r].status == Approved ==>
          db.requests[r].holdId in db.holds && db.holds[db.requests[r].holdId].status == Removed)
  }

  ghost predicate RejectionsDiffer(db: Db) {
    forall r, q :: r in db.requests && q in db.requests && r != q
                   && db.requests[r].status == Rejected == db.requests[q].status
                   && db.requests[r].holdId == db.requests[q].holdId ==>
      db.requests[r].requestedBy != db.requests[q].requestedBy
  }

  // A hold is pending removal exactly when one request is pending on it, a removed hold has a
  // request approved by two people, and no officer has two rejected requests on one hold.
  ghost predicate Consistent(db: Db) {
    PendingMatches(db) && RemovedMatches(db) && RejectionsDiffer(db)
  }

  lemma {:induction false} PlaceKeeps(db: Db, c: Command)
    requires Consistent(db) && c.Place? && Check(db, c) == Done
    ensures Consistent(Apply(db, c))
  {
    var next := Apply(db, c);
    forall h | h in next.holds && next.holds[h].status == PendingRemoval ensures exists r :: IsPending(next, r, h) {
      var r :| IsPending(db, r, h);
      assert IsPending(next, r, h);
    }
    assert forall h, r :: IsPending(next, r, h) ==> IsPending(db, r, h);
  }

  lemma {:induction false} RequestKeeps(db: Db, c: Command)
    requires Consistent(db) && c.RequestRemoval? && Check(db, c) == Done
    ensures Consistent(Apply(db, c))
  {
    var next := Apply(db, c);
    assert IsPending(next, c.newId, c.holdId);
    forall h | h in next.holds && next.holds[h].status == PendingRemoval ensures exists r :: IsPending(next, r, h) {
      if h != c.holdId {
        var r :| IsPending(db, r, h);
        assert IsPending(next, r, h);
      }
    }
    forall h, r, q | IsPending(next, r, h) && IsPending(next, q, h) ensures r == q {
      if h != c.holdId {
        assert IsPending(db, r, h) && IsPending(db, q, h);
      } else {
        assert r != c.newId ==> IsPending(db, r, h);
        assert q != c.newId ==> IsPending(db, q, h);
      }
    }
    forall h | h in next.holds && next.holds[h].status == Removed
      ensures exists r :: r in next.requests && next.requests[r].holdId == h && FourEyes(next.requests[r])
    {
      var r :| r in db.requests && db.requests[r].holdId == h && FourEyes(db.requests[r]);
      assert r in next.requests && next.requests[r] == db.requests[r];
    }
  }

  // Resolving the one pending request of a hold, either way.
  lemma {:induction false} ResolveKeepsPending(db: Db, c: Command)
    requires PendingMatches(db) && (c.Approve? || c.Reject?) && Check(db, c) == Done
    ensures PendingMatches(Apply(db, c))
  {
    var next, resolved := Apply(db, c), db.requests[c.requestId];
    assert IsPending(db, c.requestId, resolved.holdId);
    assert forall h, r :: IsPending(next, r, h) ==> IsPending(db, r, h) && r != c.requestId;
    assert forall r :: IsPending(db, r, resolved.holdId) ==> r == c.requestId;
    forall r | r in next.requests && next.requests[r].status == Pending
      ensures next.holds[next.requests[r].holdId].status == PendingRemoval
    {
      assert IsPending(next, r, next.requests[r].holdId);
    }
    forall h | h in next.holds && next.holds[h].status == PendingRemoval ensures exists r :: IsPending(next, r, h) {
      var r :| IsPending(db, r, h);
      assert IsPending(next, r, h);
    }
  }

  lemma {:induction false} ResolveKeepsRemoved(db: Db, c: Command)
    requires PendingMatches(db) && RemovedMatches(db) && (c.Approve? || c.Reject?) && Check(db, c) == Done
    ensures RemovedMatches(Apply(db, c))
  {
    var next, resolved := Apply(db, c), db.requests[c.requestId];
    assert db.holds[resolved.holdId].status == PendingRemoval;
    forall h | h in next.holds && next.holds[h].status == Removed
      ensures exists r :: r in next.requests && next.requests[r].holdId == h && FourEyes(next.requests[r])
    {
      if h == resolved.holdId {
        assert FourEyes(next.requests[c.requestId]);
      } else {
        var r :| r in db.requests && db.requests[r].holdId == h && FourEyes(db.requests[r]);
        assert r in next.requests && next.requests[r] == db.requests[r];
      }
    }
  }

  lemma {:induction false} ResolveKeepsRejections(db: Db, c: Command)
    requires RejectionsDiffer(db) && (c.Approve? || c.Reject?) && Check(db, c) == Done
    ensures RejectionsDiffer(Apply(db, c))
  {
  }

  lemma {:induction false} ResolveKeeps(db: Db, c: Command)
    requires Consistent(db) && (c.Approve? || c.Reject?) && Check(db, c) == Done
    ensures Consistent(Apply(db, c))
  {
    ResolveKeepsPending(db, c);
    ResolveKeepsRemoved(db, c);
    ResolveKeepsRejections(db, c);
    hide Apply;
    hide PendingMatches;
    hide RemovedMatches;
    hide RejectionsDiffer;
  }

  lemma {:induction false} CommandKeeps(db: Db, c: Command)
    requires Consistent(db)
    ensures Consistent(Apply(db, c))
  {
    hide Consistent;
    if Check(db, c) == Done {
      match c
      case Place(_, _, _) => PlaceKeeps(db, c);
      case RequestRemoval(_, _, _) => RequestKeeps(db, c);
      case _ => ResolveKeeps(db, c);
    }
  }

  // Every reachable pair of tables is consistent, although approve and reject never read the
  // status of the hold they change; and from there on no hold is lost or comes back.
  lemma {:induction false} RunIsConsistent(commands: seq<Command>, more: seq<Command>)
    ensures
      var db := Run(EMPTY, commands);
      Consistent(db) && Progressed(db, Run(db, more))
  {
    RunKeeps(EMPTY, commands);
    RemovedIsFinal(Run(EMPTY, commands), more);
  }

  lemma {:induction false} RunKeeps(db: Db, commands: seq<Command>)
    requires Consistent(db)
    ensures Consistent(Run(db, commands))
    decreases |commands|
  {
    hide Consistent;
    if commands != [] {
      CommandKeeps(db, commands[0]);
      RunKeeps(Apply(db, commands[0]), commands[1..]);
    }
  }

  // A hold never vanishes, keeps its tenant, and once removed stays removed.
  ghost predicate Progressed(before: Db, after: Db) {
    forall h :: h in before.holds ==>
      && h in after.holds && after.holds[h].tenant == before.holds[h].tenant
      && (before.holds[h].status == Removed ==> after.holds[h].status == Removed)
  }

  lemma {:induction false} CommandProgresses(db: Db, c: Command)
    requires Consistent(db)
    ensures Progressed(db, Apply(db, c))
  {
    hide RejectionsDiffer;
    hide IsPending;
    hide FourEyes;
  }

  lemma {:induction false} RemovedIsFinal(db: Db, commands: seq<Command>)
    requires Consistent(db)
    ensures Progressed(db, Run(db, commands))
    decreases |commands|
  {
    hide Consistent;
    if commands != [] {
      CommandKeeps(db, commands[0]);
      CommandProgresses(db, commands[0]);
      RemovedIsFinal(Apply(db, commands[0]), commands[1..]);
    }
  }

  // Whoever signed something in the tables made a call of the run as superuser or compliance officer.
  ghost predicate Signer(commands: seq<Command>, id: string) {
    exists i :: 0 <= i < |commands| && commands[i].actor.id == id
                && (commands[i].actor.superuser || commands[i].actor.role == Some("compliance_officer"))
  }

  ghost predicate SignedBy(commands: seq<Command>, db: Db) {
    && (forall h :: h in db.holds ==> Signer(commands, db.holds[h].placedBy))
    && (forall r :: r in db.requests ==>
          && Signer(commands, db.requests[r].requestedBy)
          && (db.requests[r].coApprovedBy.Some? ==> Signer(commands, db.requests[r].coApprovedBy.value)))
  }

  lemma {:induction false} OfficersSignEverything(commands: seq<Command>)
    ensures SignedBy(commands, Run(EMPTY, commands))
  {
    assert commands[0..] == commands;
    RunIsSigned(commands, EMPTY, 0);
  }

  lemma {:induction false} RunIsSigned(commands: seq<Command>, db: Db, k: nat)
    requires k <= |commands| && SignedBy(commands, db)
    ensures SignedBy(commands, Run(db, commands[k..]))
    decreases |commands| - k
  {
    if k < |commands| {
      CallIsSigned(commands, db, k);
      RunIsSigned(commands, Apply(db, commands[k]), k + 1);
      assert commands[k..][1..] == commands[k + 1..];
    }
  }

  lemma {:induction false} CallIsSigned(commands: seq<Command>, db: Db, k: nat)
    requires k < |commands| && SignedBy(commands, db)
    ensures SignedBy(commands, Apply(db, commands[k]))
  {
    var c := commands[k];
    if Check(db, c) == Done {
      assert Signer(commands, c.actor.id);
    }
    hide Signer;
  }

  // ---------------------------------------------------------------------------
  // A consequence of the table's unique constraint
  // ---------------------------------------------------------------------------

  // Once an officer had a request on a hold rejected, a later request of theirs on that hold
  // can only be approved: rejecting it violates the constraint for ever.
  ghost predicate RejectedBefore(db: Db, requestId: string) {
    requestId in db.requests && Taken(db, db.requests[requestId].holdId, Rejected, db.requests[requestId].requestedBy)
  }

  lemma {:induction false} SecondRequestCannotBeRejected(db: Db, commands: seq<Command>, requestId: string)
    requires RejectedBefore(db, requestId) && db.requests[requestId].status == Pending
    ensures requestId in Run(db, commands).requests
    ensures Run(db, commands).requests[requestId].status in {Pending, Approved}
    decreases |commands|
  {
    if commands != [] {
      var next := Apply(db, commands[0]);
      KeepsRejections(db, commands[0], requestId);
      if next.requests[requestId].status == Pending {
        SecondRequestCannotBeRejected(next, commands[1..], requestId);
      } else {
        ApprovedIsFinal(next, commands[1..], requestId);
      }
    }
  }

  lemma {:induction false} KeepsRejections(db: Db, c: Command, requestId: string)
    requires RejectedBefore(db, requestId) && db.requests[requestId].status == Pending
    ensures RejectedBefore(Apply(db, c), requestId)
    ensures Apply(db, c).requests[requestId].status in {Pending, Approved}
  {
    var request := db.requests[requestId];
    var r :| r in db.requests && db.requests[r].holdId == request.holdId && db.requests[r].status == Rejected
             && db.requests[r].requestedBy == request.requestedBy;
    var next := Apply(db, c);
    assert next.requests[r] == db.requests[r];
  }

  lemma {:induction false} ApprovedIsFinal(db: Db, commands: seq<Command>, requestId: string)
    requires requestId in db.requests && db.requests[requestId].status == Approved
    ensures requestId in Run(db, commands).requests
    ensures Run(db, commands).requests[requestId].status == Approved
    decreases |commands|
  {
    if commands != [] {
      ApprovedIsFinal(Apply(db, commands[0]), commands[1..], requestId);
    }
  }

  // In every reachable state, rejecting a pending request succeeds exactly when its requester has
  // no rejected request on that hold.
  lemma {:induction false} RejectionSucceedsIff(commands: seq<Command>, actor: Actor, requestId: string)
    requires Authorised(actor)
    ensures
      var db := Run(EMPTY, commands);
      requestId in db.requests && db.requests[requestId].status == Pending ==>
        var request := db.requests[requestId];
        var next := Apply(db, Reject(actor, requestId));
        && (Check(db, Reject(actor, requestId)) == Done <==> !RejectedBefore(db, requestId))
        && (next.requests[requestId].status == Rejected <==> !RejectedBefore(db, requestId))
        && (!RejectedBefore(db, requestId) ==>
           request.holdId in next.holds && next.holds[request.holdId].status == Active)
        && (RejectedBefore(db, requestId) ==>
           next == db && request.holdId in db.holds && db.holds[request.holdId].status == PendingRemoval)
  {
    RunIsConsistent(commands, []);
    var db := Run(EMPTY, commands);
    hide Run;
    hide RejectionsDiffer;
    hide RemovedMatches;
    hide Progressed;
  }

  // Such a request is reachable: ask, be rejected, ask again.
  lemma {:induction false} SecondRejectionFails(officer: Actor, tenant: string)
    requires Authorised(officer)
    ensures
      var db := Run(EMPTY, [Place(officer, tenant, "h"), RequestRemoval(officer, "h", "r1"), Reject(officer, "r1"),
                            RequestRemoval(officer, "h", "r2")]);
      && RejectedBefore(db, "r2") && db.requests["r2"].status == Pending
      && Check(db, Reject(officer, "r2")) == ConstraintViolation
  {
    var a, b, c, d := Place(officer, tenant, "h"), RequestRemoval(officer, "h", "r1"), Reject(officer, "r1"),
                      RequestRemoval(officer, "h", "r2");
    FourCommands(EMPTY, a, b, c, d);
    hide Run;
    hide Authorised;
    var d1 := Apply(EMPTY, a);
    assert !Taken(d1, "h", Pending, officer.id);
    var d2 := Apply(d1, b);
    assert d2.requests["r1"] == Request("h", officer.id, None, Pending) && d2.requests.Keys == {"r1"};
    assert !Taken(d2, "h", Rejected, officer.id);
    var d3 := Apply(d2, c);
    assert d3.requests["r1"].status == Rejected && d3.requests.Keys == {"r1"} && d3.holds["h"].status == Active;
    assert !Taken(d3, "h", Pending, officer.id);
    var d4 := Apply(d3, d);
    assert d4.requests["r1"] == d3.requests["r1"] && d4.requests["r2"] == Request("h", officer.id, None, Pending);
    assert Taken(d4, "h", Rejected, officer.id);
  }

  lemma {:induction false} FourCommands(db: Db, a: Command, b: Command, c: Command, d: Command)
    ensures Run(db, [a, b, c, d]) == Apply(Apply(Apply(Apply(db, a), b), c), d)
  {
    hide Apply;
    assert [a, b, c, d][1..] == [b, c, d] && [b, c, d][1..] == [c, d] && [c, d][1..] == [d] && [d][1..] == [];
    var d1 := Apply(db, a);
    var d2 := Apply(d1, b);
    var d3 := Apply(d2, c);
    assert Run(db, [a, b, c, d]) == Run(d1, [b, c, d]) == Run(d2, [c, d]) == Run(d3, [d]) == Run(Apply(d3, d), []);
  }
}
