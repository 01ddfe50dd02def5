/** M-of-N approval of privileged operations. */
module Approvals {
  import opened Options

  datatype Status = Pending | Approved | Rejected | Executed

  datatype Decision = Approve | Reject

  datatype Request = Request(operation: string, requestedBy: string, required: int, status: Status)

  // Votes are keyed by approver: UNIQUE (request_id, approver_id). Here each call is one step, as
  // it is inside a transaction; module ApprovalStatements takes the calls apart.
  datatype Db = Db(requests: map<string, Request>, votes: map<string, map<string, Decision>>)

  const PRIVILEGED_OPERATIONS := {"root_key_rotate", "bulk_export", "enable_worm"}

  datatype Command =
    | Create(newId: string, operation: string, requestedBy: string, required: Option<int>)
    | Vote(id: string, approver: string, decision: Decision)
    | Execute(id: string)

  datatype Outcome = Done | UnknownOperation | TooFewApprovals | NotFound | WrongStatus | AlreadyVoted | DuplicateId

  function VotesOn(db: Db, id: string): map<string, Decision> {
    if id in db.votes then db.votes[id] else map[]
  }

  function Deciding(votes: map<string, Decision>, decision: Decision): set<string> {
    set a | a in votes && votes[a] == decision
  }

  function Count(votes: map<string, Decision>, decision: Decision): nat {
    |Deciding(votes, decision)|
  }

  function Check(db: Db, c: Command): Outcome {
    match c
    case Create(newId, operation, _, required) =>
      if operation !in PRIVILEGED_OPERATIONS then UnknownOperation
      else if required.Some? && required.value < 1 then TooFewApprovals
      else if newId in db.requests then DuplicateId
      else Done
    case Vote(id, approver, _) =>
      if id !in db.requests then NotFound
      else if db.requests[id].status != Pending then WrongStatus
      else if approver in VotesOn(db, id) then AlreadyVoted
      else Done
    case Execute(id) =>
      if id !in db.requests then NotFound
      else if db.requests[id].status != Approved then WrongStatus
      else Done
  }

  function AfterVote(r: Request, votes: map<string, Decision>, decision: Decision): Request {
    if decision == Reject then r.(status := Rejected)
    else if Count(votes, Approve) >= r.required then r.(status := Approved)
    else r
  }

  function Apply(db: Db, c: Command): Db {
    if Check(db, c) != Done then db
    else
      match c
      case Create(newId, operation, requester, required) =>
        var m := if required.Some? then required.value else 2;
        Db(db.requests[newId := Request(operation, requester, m, Pending)], db.votes[newId := map[]])
      case Vote(id, approver, decision) =>
        var votes := VotesOn(db, id)[approver := decision];
        Db(db.requests[id := AfterVote(db.requests[id], votes, decision)], db.votes[id := votes])
      case Execute(id) =>
        db.(requests := db.requests[id := db.requests[id].(status := Executed)])
  }

  class ApprovalStore {
    var requests: map<string, Request>
    var votes: map<string, map<string, Decision>>

    ghost function Contents(): Db
      reads this
    {
      Db(requests, votes)
    }

    constructor ()
      ensures Contents() == EMPTY
    {
      requests, votes := map[], map[];
    }

    method CreateApprovalRequest(newId: string, operation: string, requester: string,
                                 required: Option<int>) returns (outcome: Outcome)
      modifies this
      ensures outcome == Check(old(Contents()), Create(newId, operation, requester, required))
      ensures Contents() == Apply(old(Contents()), Create(newId, operation, requester, required))
      ensures outcome == UnknownOperation <==> operation !in {"root_key_rotate", "bulk_export", "enable_worm"}
      ensures outcome == Done ==>
        && newId !in old(requests) && (required.Some? ==> required.value >= 1) && newId in requests
        && requests[newId] == Request(operation, requester, if required.Some? then required.value else 2, Pending)
        && requests == old(requests)[newId := requests[newId]] && votes == old(votes)[newId := map[]]
      ensures outcome != Done ==> requests == old(requests) && votes == old(votes)
    {
      if operation !in PRIVILEGED_OPERATIONS {
        return UnknownOperation;
      }
      var requiredApprovals := if required.Some? then required.value else 2;
      if requiredApprovals < 1 {
        return TooFewApprovals;
      }
      if newId in requests {
        return DuplicateId;
      }
      requests := requests[newId := Request(operation, requester, requiredApprovals, Pending)];
      votes := votes[newId := map[]];
      outcome := Done;
    }

    method CastVote(id: string, approver: string, decision: Decision) returns (outcome: Outcome, quorumReached: bool)
      modifies this
      ensures outcome == Check(old(Contents()), Vote(id, approver, decision))
      ensures Contents() == Apply(old(Contents()), Vote(id, approver, decision))
      ensures outcome == Done ==>
        && id in old(requests) && old(requests)[id].status == Pending
        && votes == old(votes)[id := (if id in old(votes) then old(votes)[id] else map[])[approver := decision]]
      ensures quorumReached <==> outcome == Done && id in requests && requests[id].status == Approved
    {
      quorumReached := false;
      if id !in requests {
        return NotFound, false;
      }
      var request := requests[id];
      if request.status != Pending {
        return WrongStatus, false;
      }
      var cast := if id in votes then votes[id] else map[];
      if approver in cast {
        return AlreadyVoted, false;
      }
      cast := cast[approver := decision];
      votes := votes[id := cast];
      if decision == Reject {
        request := request.(status := Rejected);
      } else {
        var approvalCount := Count(cast, Approve);
        if approvalCount >= request.required {
          request := request.(status := Approved);
          quorumReached := true;
        }
      }
      requests := requests[id := request];
      outcome := Done;
    }

    method MarkExecuted(id: string) returns (outcome: Outcome)
      modifies this
      ensures outcome == Check(old(Contents()), Execute(id))
      ensures Contents() == Apply(old(Contents()), Execute(id))
    {
      if id !in requests {
        return NotFound;
      }
      if requests[id].status != Approved {
        return WrongStatus;
      }
      requests := requests[id := requests[id].(status := Executed)];
      outcome := Done;
    }

    // The gate the enforcement middleware asks before a privileged operation.
    method AssertApproved(id: string) returns (cleared: bool)
      ensures cleared <==> Check(Contents(), Execute(id)) == Done
      ensures cleared <==> id in requests && requests[id].status == Approved
    {
      if id !in requests {
        return false;
      }
      if requests[id].status == Executed {
        return false;
      }
      cleared := requests[id].status == Approved;
    }
  }

  // ---------------------------------------------------------------------------
  // What every run keeps
  // ---------------------------------------------------------------------------

  const EMPTY := Db(map[], map[])

  function Run(db: Db, commands: seq<Command>): Db
    decreases |commands|
  {
    if commands == [] then db else Run(Apply(db, commands[0]), commands[1..])
  }

  // Status and tally say the same: exactly M distinct approvers behind an approval, never more.
  ghost predicate Tallied(r: Request, votes: map<string, Decision>) {
    var approvals, rejections := Count(votes, Approve), Count(votes, Reject);
    && r.required >= 1
    && match r.status
       case Pending => approvals < r.required && rejections == 0
       case Approved => approvals == r.required && rejections == 0
       case Executed => approvals == r.required && rejections == 0
       case Rejected => approvals < r.required && rejections == 1
  }

  ghost predicate Consistent(db: Db) {
    db.requests.Keys == db.votes.Keys && forall id :: id in db.requests ==> Tallied(db.requests[id], db.votes[id])
  }

  lemma {:induction false} VoteCounts(votes: map<string, Decision>, approver: string, decision: Decision, d: Decision)
    requires approver !in votes
    ensures Count(votes[approver := decision], d) == Count(votes, d) + if d == decision then 1 else 0
  {
    var before, after := Deciding(votes, d), Deciding(votes[approver := decision], d);
    assert after == if d == decision then before + {approver} else before;
  }

  lemma {:induction false} VoteKeepsTally(r: Request, votes: map<string, Decision>, approver: string,
                                          decision: Decision)
    requires Tallied(r, votes) && r.status == Pending && approver !in votes
    ensures Tallied(AfterVote(r, votes[approver := decision], decision), votes[approver := decision])
  {
    VoteCounts(votes, approver, decision, Approve);
    VoteCounts(votes, approver, decision, Reject);
    hide Count;
  }

  lemma {:induction false} CommandKeeps(db: Db, c: Command)
    requires Consistent(db)
    ensures Consistent(Apply(db, c))
  {
    assert Count(map[], Approve) == 0 && Count(map[], Reject) == 0;
    hide Count;
    if c.Vote? && Check(db, c) == Done {
      VoteKeepsTally(db.requests[c.id], db.votes[c.id], c.approver, c.decision);
      hide Tallied;
      hide AfterVote;
    }
  }

  lemma {:induction false} RunKeeps(db: Db, commands: seq<Command>)
    requires Consistent(db)
    ensures Consistent(Run(db, commands))
    decreases |commands|
  {
    hide Consistent;
    hide Apply;
    if commands != [] {
      CommandKeeps(db, commands[0]);
      RunKeeps(Apply(db, commands[0]), commands[1..]);
    }
  }

  lemma {:induction false} RunIsConsistent(commands: seq<Command>)
    ensures Consistent(Run(EMPTY, commands))
  {
    RunKeeps(EMPTY, commands);
  }

  // A call of the run asked for this request, as it stands, and for one of the three operations.
  ghost predicate AskedFor(commands: seq<Command>, id: string, r: Request) {
    && r.operation in {"root_key_rotate", "bulk_export", "enable_worm"} && r.required >= 1
    && exists i :: 0 <= i < |commands| && Asks(commands[i], id, r)
  }

  ghost predicate Asks(c: Command, id: string, r: Request) {
    && c.Create? && c.newId == id && c.operation == r.operation && c.requestedBy == r.requestedBy
    && r.required == (if c.required.Some? then c.required.value else 2)
  }

  // Over every run, the operation, the requester and the quorum of a request are those some call
  // asked for, the quorum being two where it named none.
  lemma {:induction false} QuorumIsAsAsked(commands: seq<Command>, id: string)
    ensures
      var db := Run(EMPTY, commands);
      id in db.requests ==> AskedFor(commands, id, db.requests[id])
  {
    assert commands[0..] == commands;
    RunIsAsked(commands, EMPTY, 0, id);
  }

  lemma {:induction false} RunIsAsked(commands: seq<Command>, db: Db, k: nat, id: string)
    requires k <= |commands| && (id in db.requests ==> AskedFor(commands, id, db.requests[id]))
    ensures
      var after := Run(db, commands[k..]);
      id in after.requests ==> AskedFor(commands, id, after.requests[id])
    decreases |commands| - k
  {
    if k < |commands| {
      var next := Apply(db, commands[k]);
      if id in next.requests {
        if id in db.requests {
          var i :| 0 <= i < |commands| && Asks(commands[i], id, db.requests[id]);
          assert Asks(commands[i], id, next.requests[id]);
        } else {
          assert Asks(commands[k], id, next.requests[id]);
        }
      }
      hide AskedFor;
      hide Apply;
      RunIsAsked(commands, next, k + 1, id);
      assert commands[k..][1..] == commands[k + 1..];
    }
  }

  // Successful executions of a request during a run.
  function Executions(db: Db, commands: seq<Command>, id: string): nat
    decreases |commands|
  {
    if commands == [] then 0
    else
      (if commands[0] == Execute(id) && Check(db, commands[0]) == Done then 1 else 0) +
      Executions(Apply(db, commands[0]), commands[1..], id)
  }

  ghost predicate Over(db: Db, id: string) {
    id in db.requests && db.requests[id].status in {Executed, Rejected}
  }

  lemma {:induction false} OverIsFinal(db: Db, commands: seq<Command>, id: string)
    requires Over(db, id)
    ensures Executions(db, commands, id) == 0
    ensures Over(Run(db, commands), id) && Run(db, commands).requests[id] == db.requests[id]
    decreases |commands|
  {
    if commands != [] {
      OverIsFinal(Apply(db, commands[0]), commands[1..], id);
    }
  }

  // A request is executed at most once, and one rejection blocks it for good.
  lemma {:induction false} ExecutedAtMostOnce(db: Db, commands: seq<Command>, id: string)
    ensures Executions(db, commands, id) <= 1
    decreases |commands|
  {
    if commands != [] {
      var next := Apply(db, commands[0]);
      if commands[0] == Execute(id) && Check(db, commands[0]) == Done {
        OverIsFinal(next, commands[1..], id);
      } else {
        ExecutedAtMostOnce(next, commands[1..], id);
      }
    }
  }

  // The quorum does not exclude the requester, but it cannot shrink by more than that: of the M
  // approvers behind an approval at least M - 1 are someone else, and all M are exactly when the
  // requester did not vote for the request.
  lemma {:induction false} OthersBehindApproval(commands: seq<Command>, id: string)
    ensures
      var db := Run(EMPTY, commands);
      id in db.requests && db.requests[id].status in {Approved, Executed} ==>
        var r, approvers := db.requests[id], Deciding(VotesOn(db, id), Approve);
        && |approvers - {r.requestedBy}| >= r.required - 1
        && (|approvers - {r.requestedBy}| == r.required <==> r.requestedBy !in approvers)
  {
    RunIsConsistent(commands);
    var db := Run(EMPTY, commands);
    hide Run;
    if id in db.requests && db.requests[id].status in {Approved, Executed} {
      var r, approvers := db.requests[id], Deciding(VotesOn(db, id), Approve);
      assert Tallied(r, db.votes[id]) && |approvers| == r.required;
      hide Deciding;
      assert r.requestedBy !in approvers ==> approvers - {r.requestedBy} == approvers;
      assert r.requestedBy in approvers ==> approvers == (approvers - {r.requestedBy}) + {r.requestedBy};
    }
  }

  // With M = 1 the requester alone is enough.
  lemma {:induction false} RequesterMayApproveOwnRequest(requester: string)
    ensures
      var db := Run(EMPTY, [Create("r", "bulk_export", requester, Some(1)), Vote("r", requester, Approve)]);
      "r" in db.requests && db.requests["r"].status == Approved
  {
    var create, vote := Create("r", "bulk_export", requester, Some(1)), Vote("r", requester, Approve);
    var db1 := Apply(EMPTY, create);
    assert db1.votes["r"] == map[] && Count(map[], Approve) == 0;
    VoteCounts(map[], requester, Approve, Approve);
    hide Count;
    var db2 := Apply(db1, vote);
    assert db2.requests["r"].status == Approved;
    assert [create, vote][1..] == [vote] && [vote][1..] == [];
    assert Run(db1, [vote]) == Run(db2, []);
  }
}
