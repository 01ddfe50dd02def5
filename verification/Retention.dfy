/** The deletion guard, the guarded delete and the nightly scheduler, against concurrent legal holds. */
module Retention {
  import opened Options
  import opened Extremes
  import opened LegalHold
  import HoldStatements

  datatype Entity = Entity(kind: string, tenant: Option<string>, retentionClass: Option<string>,
                           createdAt: int, legalHold: Option<bool>)

  const DAY_MS := 24 * 60 * 60 * 1000

  predicate HasActiveLegalHold(db: Db, tenant: string) {
    exists h :: h in db.holds && db.holds[h].tenant == tenant && db.holds[h].status != Removed
  }

  datatype Verdict = Verdict(blocked: bool, eligibleAt: Option<int>, legalHoldActive: bool)

  // `isWithinRetentionFloor` on an existing row. The empty string is falsy: it counts as no
  // tenant and as no retention class.
  function Guard(db: Db, policies: map<string, int>, now: int, e: Entity): Verdict {
    if e.tenant.Some? && e.tenant.value != "" && HasActiveLegalHold(db, e.tenant.value) then Verdict(true, None, true)
    else if e.retentionClass.None? || e.retentionClass.value == "" then Verdict(false, None, false)
    else if e.retentionClass.value !in policies then Verdict(false, None, false)
    else
      var eligibleAt := e.createdAt + policies[e.retentionClass.value] * DAY_MS;
      Verdict(now < eligibleAt, Some(eligibleAt), false)
  }

  predicate FloorElapsed(policies: map<string, int>, now: int, e: Entity) {
    e.retentionClass.None? || e.retentionClass.value == "" || e.retentionClass.value !in policies ||
    now >= e.createdAt + policies[e.retentionClass.value] * 86_400_000
  }

  // A day is 86,400,000 milliseconds: who is blocked, until when, and why.
  lemma {:induction false} GuardBlocksIff(db: Db, policies: map<string, int>, now: int, e: Entity)
    ensures
      var verdict := Guard(db, policies, now, e);
      var held := exists h :: h in db.holds && e.tenant == Some(db.holds[h].tenant) && db.holds[h].tenant != ""
                              && db.holds[h].status in {Active, PendingRemoval};
      && verdict.legalHoldActive == held
      && (held ==> verdict.blocked && verdict.eligibleAt == None)
      && (!held ==> forall c :: c in policies && c != "" && e.retentionClass == Some(c) ==>
              && (verdict.blocked <==> now < e.createdAt + policies[c] * 86_400_000)
              && verdict.eligibleAt == Some(e.createdAt + policies[c] * 86_400_000))
      && (!held && (e.retentionClass in {None, Some("")} || e.retentionClass.value !in policies) ==>
            !verdict.blocked && verdict.eligibleAt == None)
  {
    var tenant := e.tenant;
    if tenant.Some? && tenant.value != "" && HasActiveLegalHold(db, tenant.value) {
      var h :| h in db.holds && db.holds[h].tenant == tenant.value && db.holds[h].status != Removed;
      assert db.holds[h].status in {Active, PendingRemoval};
    }
  }

  // ---------------------------------------------------------------------------
  // Interleavings: a delete is two steps, the guard's reads and the DELETE statement; the calls
  // on holds run statement by statement
  // ---------------------------------------------------------------------------

  // `armed` maps an entity whose guard has passed to the table of holds as it was at that moment.
  datatype System = System(now: int, holds: HoldStatements.State, entities: map<string, Entity>,
                           armed: map<string, map<string, Hold>>)

  datatype Event =
    | Tick(ms: nat)
    | OnHolds(statement: HoldStatements.Step)
    | Ingest(id: string, entity: Entity)
    | PassGuard(id: string)
    | Delete(id: string)

  function Step(policies: map<string, int>, s: System, e: Event): System {
    match e
    case Tick(ms) => s.(now := s.now + ms)
    case OnHolds(statement) => s.(holds := HoldStatements.Next(s.holds, statement))
    case Ingest(id, entity) => if id in s.entities then s else s.(entities := s.entities[id := entity])
    case PassGuard(id) =>
      if id !in s.entities || Guard(s.holds.db, policies, s.now, s.entities[id]).blocked then s
      else s.(armed := s.armed[id := s.holds.db.holds])
    case Delete(id) =>
      if id !in s.armed then s else s.(entities := s.entities - {id}, armed := s.armed - {id})
  }

  function Run(policies: map<string, int>, s: System, events: seq<Event>): System
    decreases |events|
  {
    if events == [] then s else Run(policies, Step(policies, s, events[0]), events[1..])
  }

  // No call on a hold writes over a row that has moved since it read it.
  ghost predicate NeverStale(policies: map<string, int>, s: System, events: seq<Event>)
    decreases |events|
  {
    events == [] ||
    ((events[0].OnHolds? ==> !HoldStatements.Stale(s.holds, events[0].statement)) &&
     NeverStale(policies, Step(policies, s, events[0]), events[1..]))
  }

  ghost predicate FloorGuarded(policies: map<string, int>, s: System) {
    && s.armed.Keys <= s.entities.Keys
    && forall id :: id in s.armed ==> FloorElapsed(policies, s.now, s.entities[id]) && SawOnlyRemoved(s, id)
  }

  // The guard saw no hold of the tenant that was not removed; the holds it saw are still there.
  ghost predicate SawOnlyRemoved(s: System, id: string)
    requires id in s.armed && id in s.entities
  {
    forall h :: h in s.armed[id] ==>
      && h in s.holds.db.holds && s.holds.db.holds[h].tenant == s.armed[id][h].tenant
      && (OfTenant(s, id, h) ==> s.armed[id][h].status == Removed)
  }

  // The holds the guard saw are all removed.
  ghost predicate HoldGuarded(s: System) {
    && HoldStatements.Sound(s.holds)
    && forall id, h :: id in s.armed && id in s.entities && h in s.armed[id] && OfTenant(s, id, h) ==>
       HoldStatements.IsRemoved(s.holds.db, h)
  }

  ghost predicate OfTenant(s: System, id: string, h: string)
    requires id in s.entities
  {
    var tenant := s.entities[id].tenant;
    tenant.Some? && tenant.value != "" && h in s.holds.db.holds && s.holds.db.holds[h].tenant == tenant.value
  }

  lemma {:induction false} StepKeepsSeen(policies: map<string, int>, s: System, e: Event, id: string)
    requires id in s.armed && id in s.entities && SawOnlyRemoved(s, id)
    requires id in Step(policies, s, e).armed && id in Step(policies, s, e).entities && !(e.PassGuard? && e.id == id)
    ensures SawOnlyRemoved(Step(policies, s, e), id)
  {
    if e.OnHolds? {
      HoldStatements.RowsStay(s.holds, e.statement);
    }
    hide HoldStatements.Next;
    hide Guard;
    var next := Step(policies, s, e);
    forall h | h in next.armed[id]
      ensures && h in next.holds.db.holds && next.holds.db.holds[h].tenant == next.armed[id][h].tenant
              && (OfTenant(next, id, h) ==> next.armed[id][h].status == Removed)
    {
      assert OfTenant(next, id, h) ==> OfTenant(s, id, h);
    }
  }

  lemma {:induction false} GuardSeesOnlyRemoved(policies: map<string, int>, s: System, id: string)
    requires id in s.entities && !Guard(s.holds.db, policies, s.now, s.entities[id]).blocked
    ensures
      var next := Step(policies, s, PassGuard(id));
      id in next.armed && id in next.entities && FloorElapsed(policies, next.now, next.entities[id]) &&
        SawOnlyRemoved(next, id)
  {
    var next, tenant := Step(policies, s, PassGuard(id)), s.entities[id].tenant;
    assert tenant.Some? && tenant.value != "" ==> !HasActiveLegalHold(s.holds.db, tenant.value);
  }

  lemma {:induction false} StepKeepsFloor(policies: map<string, int>, s: System, e: Event)
    requires FloorGuarded(policies, s)
    ensures FloorGuarded(policies, Step(policies, s, e))
  {
    var next := Step(policies, s, e);
    if e.PassGuard? && e.id in s.entities && !Guard(s.holds.db, policies, s.now, s.entities[e.id]).blocked {
      GuardSeesOnlyRemoved(policies, s, e.id);
    }
    forall id | id in next.armed
      ensures id in next.entities && FloorElapsed(policies, next.now, next.entities[id]) && SawOnlyRemoved(next, id)
    {
      if id in s.armed && !(e.PassGuard? && e.id == id) {
        StepKeepsSeen(policies, s, e, id);
      }
    }
  }

  lemma {:induction false} HoldStepKeepsGuard(policies: map<string, int>, s: System, e: Event)
    requires FloorGuarded(policies, s) && HoldGuarded(s) && e.OnHolds? && !HoldStatements.Stale(s.holds, e.statement)
    ensures HoldGuarded(Step(policies, s, e))
  {
    HoldStatements.RowsStay(s.holds, e.statement);
    HoldStatements.StepKeepsSound(s.holds, e.statement);
    HoldStatements.SoundMeans(s.holds);
    hide HoldStatements.Sound;
    HoldStatements.StepIsLegal(s.holds, e.statement);
    hide HoldStatements.Next;
    hide HoldStatements.Stale;
    hide HoldStatements.OneCause;
    hide HoldStatements.IsRemoved;
    var next := Step(policies, s, e);
    forall id, h | id in next.armed && id in next.entities && h in next.armed[id] && OfTenant(next, id, h)
      ensures HoldStatements.IsRemoved(next.holds.db, h)
    {
      assert OfTenant(s, id, h);
    }
  }

  lemma {:induction false} StepKeepsGuard(policies: map<string, int>, s: System, e: Event)
    requires FloorGuarded(policies, s) && HoldGuarded(s)
    requires e.OnHolds? ==> !HoldStatements.Stale(s.holds, e.statement)
    ensures HoldGuarded(Step(policies, s, e))
  {
    hide HoldStatements.Sound;
    if e.OnHolds? {
      HoldStepKeepsGuard(policies, s, e);
    } else {
      var next := Step(policies, s, e);
      assert next.holds == s.holds;
      forall id, h | id in next.armed && id in next.entities && h in next.armed[id] && OfTenant(next, id, h)
        ensures HoldStatements.IsRemoved(next.holds.db, h)
      {
        if id in s.armed && s.armed[id] == next.armed[id] {
          assert OfTenant(s, id, h);
        }
      }
    }
  }

  lemma {:induction false} RunKeepsFloor(policies: map<string, int>, s: System, events: seq<Event>)
    requires FloorGuarded(policies, s)
    ensures FloorGuarded(policies, Run(policies, s, events))
    ensures HoldGuarded(s) && NeverStale(policies, s, events) ==> HoldGuarded(Run(policies, s, events))
    decreases |events|
  {
    hide FloorGuarded;
    hide HoldGuarded;
    hide Step;
    if events != [] {
      StepKeepsFloor(policies, s, events[0]);
      if HoldGuarded(s) && NeverStale(policies, s, events) {
        StepKeepsGuard(policies, s, events[0]);
      }
      RunKeepsFloor(policies, Step(policies, s, events[0]), events[1..]);
    }
  }

  function Start(now: int): System {
    System(now, HoldStatements.NOTHING, map[], map[])
  }

  // A hold that blocks the tenant and was placed after the guard looked.
  ghost predicate PlacedSinceGuard(s: System, id: string, tenant: string)
    requires id in s.armed
  {
    exists h :: h in s.holds.db.holds && h !in s.armed[id] && s.holds.db.holds[h].tenant == tenant
                && s.holds.db.holds[h].status != Removed
  }

  // A hold that blocks the tenant and that the guard saw removed.
  ghost predicate CameBackSinceGuard(s: System, id: string, tenant: string)
    requires id in s.armed
  {
    exists h :: h in s.armed[id] && s.armed[id][h].status == Removed && h in s.holds.db.holds
                && s.holds.db.holds[h].tenant == tenant && s.holds.db.holds[h].status != Removed
  }

  // In every interleaving, an entity disappears only with its floor elapsed; its tenant is under
  // a hold at that moment exactly when a hold was placed since the guard, or one the guard saw
  // removed came back; and none comes back unless a call on a hold wrote over a row that had moved.
  lemma {:induction false} DeletionIsGuarded(policies: map<string, int>, now: int, events: seq<Event>, e: Event,
                                             id: string)
    requires
      var s := Run(policies, Start(now), events);
      id in s.entities && id !in Step(policies, s, e).entities
    ensures
      var s := Run(policies, Start(now), events);
      var entity := s.entities[id];
      && e == Delete(id) && id in s.armed
      && (forall c :: c in policies && c != "" && entity.retentionClass == Some(c) ==>
            s.now >= entity.createdAt + policies[c] * 86_400_000)
      && (entity.tenant.Some? && entity.tenant.value != "" ==>
            var tenant := entity.tenant.value;
            && (HasActiveLegalHold(s.holds.db, tenant) <==>
               PlacedSinceGuard(s, id, tenant) || CameBackSinceGuard(s, id, tenant))
            && (NeverStale(policies, Start(now), events) ==> !CameBackSinceGuard(s, id, tenant)))
  {
    var s := Run(policies, Start(now), events);
    HoldStatements.NothingIsSound();
    hide HoldStatements.Sound;
    RunKeepsFloor(policies, Start(now), events);
    hide Run;
    hide NeverStale;
    hide HoldStatements.Next;
    var entity := s.entities[id];
    assert SawOnlyRemoved(s, id);
    if entity.tenant.Some? && entity.tenant.value != "" {
      HeldIff(s, id, entity.tenant.value);
      if HoldGuarded(s) {
        NoneCameBack(s, id, entity.tenant.value);
      }
    }
  }

  lemma {:induction false} HeldIff(s: System, id: string, tenant: string)
    requires id in s.armed && id in s.entities && SawOnlyRemoved(s, id) && s.entities[id].tenant == Some(tenant) &&
      tenant != ""
    ensures HasActiveLegalHold(s.holds.db, tenant) <==>
      PlacedSinceGuard(s, id, tenant) || CameBackSinceGuard(s, id, tenant)
  {
    if HasActiveLegalHold(s.holds.db, tenant) {
      var h :| h in s.holds.db.holds && s.holds.db.holds[h].tenant == tenant && s.holds.db.holds[h].status != Removed;
      assert OfTenant(s, id, h);
    }
  }

  lemma {:induction false} NoneCameBack(s: System, id: string, tenant: string)
    requires id in s.armed && id in s.entities && HoldGuarded(s) && s.entities[id].tenant == Some(tenant) &&
      tenant != ""
    ensures !CameBackSinceGuard(s, id, tenant)
  {
    hide HoldStatements.Sound;
    forall h | h in s.armed[id] && h in s.holds.db.holds && s.holds.db.holds[h].tenant == tenant
      ensures s.holds.db.holds[h].status == Removed
    {
      assert OfTenant(s, id, h);
    }
  }

  // It can come back: with the calls of an approval and a rejection overlapping, a hold that the
  // guard saw removed is active again at the DELETE.
  function Lifted(steps: seq<HoldStatements.Step>): seq<Event> {
    if steps == [] then [] else [OnHolds(steps[0])] + Lifted(steps[1..])
  }

  lemma {:induction false} LiftedRun(policies: map<string, int>, s: System, steps: seq<HoldStatements.Step>)
    ensures Run(policies, s, Lifted(steps)) == s.(holds := HoldStatements.RunAll(s.holds, steps))
    decreases |steps|
  {
    hide HoldStatements.Next;
    if steps != [] {
      assert Lifted(steps)[1..] == Lifted(steps[1..]);
      LiftedRun(policies, s.(holds := HoldStatements.Next(s.holds, steps[0])), steps[1..]);
    }
  }

  lemma {:induction false} HoldComesBackInGap(policies: map<string, int>, now: int, officer: Actor, tenant: string,
                                              approver: Actor, rejecter: Actor)
    requires Authorised(officer) && Authorised(approver) && Authorised(rejecter) && approver.id != officer.id &&
      tenant != ""
    ensures
      var looks := [HoldStatements.ReadRequest(2, approver, "r", true),
        HoldStatements.ReadRequest(3, rejecter, "r", false)];
      var s1 := Run(policies, Start(now), Lifted(HoldStatements.Opening(officer, tenant)));
      var s2 := Run(policies, Run(policies, s1, Lifted(looks)),
        Lifted([HoldStatements.MarkRequest(2), HoldStatements.SettleHold(2)]));
      var entity := Entity("email", Some(tenant), None, now, None);
      var s3 := Run(policies, s2, [Ingest("e", entity), PassGuard("e")]);
      var s4 := Run(policies, s3, Lifted([HoldStatements.MarkRequest(3), HoldStatements.SettleHold(3)]));
      && "e" in s4.armed && CameBackSinceGuard(s4, "e", tenant)
      && "e" in s4.entities && "e" !in Step(policies, s4, Delete("e")).entities
  {
    hide HoldStatements.RunAll;
    hide HoldStatements.Opening;
    var looks := [HoldStatements.ReadRequest(2, approver, "r", true),
      HoldStatements.ReadRequest(3, rejecter, "r", false)];
    LiftedRun(policies, Start(now), HoldStatements.Opening(officer, tenant));
    var s1 := Run(policies, Start(now), Lifted(HoldStatements.Opening(officer, tenant)));
    LiftedRun(policies, s1, looks);
    var seen := Run(policies, s1, Lifted(looks));
    LiftedRun(policies, seen, [HoldStatements.MarkRequest(2), HoldStatements.SettleHold(2)]);
    var s2 := Run(policies, seen, Lifted([HoldStatements.MarkRequest(2), HoldStatements.SettleHold(2)]));
    HoldStatements.OverlapReactivatesHold(officer, tenant, approver, rejecter);
    HoldStatements.OpeningTenant(officer, tenant, approver, rejecter);
    hide Lifted;
    var entity := Entity("email", Some(tenant), None, now, None);
    GuardPasses(policies, s2, entity, tenant);
    var s3 := Run(policies, s2, [Ingest("e", entity), PassGuard("e")]);
    LiftedRun(policies, s3, [HoldStatements.MarkRequest(3), HoldStatements.SettleHold(3)]);
    hide Run;
  }

  lemma {:induction false} GuardPasses(policies: map<string, int>, s: System, entity: Entity, tenant: string)
    requires "e" !in s.entities && entity.tenant == Some(tenant) && entity.retentionClass == None
    requires forall h :: h in s.holds.db.holds ==> s.holds.db.holds[h].status == Removed
    ensures
      var t := Run(policies, s, [Ingest("e", entity), PassGuard("e")]);
      && t.holds == s.holds && "e" in t.entities && "e" in t.armed && t.armed["e"] == s.holds.db.holds
  {
    var one := Step(policies, s, Ingest("e", entity));
    assert [Ingest("e", entity), PassGuard("e")][1..] == [PassGuard("e")] && [PassGuard("e")][1..] == [];
    assert Run(policies, one, [PassGuard("e")]) == Run(policies, Step(policies, one, PassGuard("e")), []);
  }

  // Run as one step, the guarded delete never removes an entity of a held tenant.
  lemma {:induction false} AtomicDeletionRespectsHolds(policies: map<string, int>, now: int, events: seq<Event>,
                                                       id: string)
    requires
      var s := Run(policies, Start(now), events);
      id in s.entities && id !in s.armed && id !in Run(policies, s, [PassGuard(id), Delete(id)]).entities
    ensures
      var s := Run(policies, Start(now), events);
      var entity := s.entities[id];
      && (forall c :: c in policies && c != "" && entity.retentionClass == Some(c) ==>
            s.now >= entity.createdAt + policies[c] * 86_400_000)
      && (entity.tenant.Some? && entity.tenant.value != "" ==> !HasActiveLegalHold(s.holds.db, entity.tenant.value))
  {
    var s := Run(policies, Start(now), events);
    var s1 := Step(policies, s, PassGuard(id));
    assert Run(policies, s, [PassGuard(id), Delete(id)]) == Step(policies, s1, Delete(id)) by {
      assert [PassGuard(id), Delete(id)][1..] == [Delete(id)];
      assert Run(policies, s1, [Delete(id)]) == Run(policies, Step(policies, s1, Delete(id)), []);
    }
  }

  // The gap is real: a hold placed between the guard and the DELETE does not stop the delete.
  lemma {:induction false} HoldPlacedInGapIsIgnored(policies: map<string, int>, now: int, tenant: string,
                                                    officer: Actor)
    requires tenant != "" && Authorised(officer)
    ensures
      var entity := Entity("email", Some(tenant), None, now, None);
      var s := Run(policies, Start(now),
        [Ingest("e", entity), PassGuard("e"), OnHolds(HoldStatements.InsertHold(officer, tenant, "h"))]);
      && "e" in s.entities && HasActiveLegalHold(s.holds.db, tenant)
      && "e" !in Step(policies, s, Delete("e")).entities
  {
    var entity := Entity("email", Some(tenant), None, now, None);
    var c := HoldStatements.InsertHold(officer, tenant, "h");
    var events := [Ingest("e", entity), PassGuard("e"), OnHolds(c)];
    var s1 := Step(policies, Start(now), events[0]);
    var s2 := Step(policies, s1, events[1]);
    var s3 := Step(policies, s2, events[2]);
    assert events[1..] == [PassGuard("e"), OnHolds(c)] && events[1..][1..] == [OnHolds(c)] &&
      events[1..][1..][1..] == [];
    assert Run(policies, s2, [OnHolds(c)]) == Run(policies, s3, []) == s3;
    assert Run(policies, s1, events[1..]) == s3;
    assert "h" in s3.holds.db.holds;
  }

  // ---------------------------------------------------------------------------
  // The nightly scan
  // ---------------------------------------------------------------------------

  // The WHERE clause of the eligibility query.
  predicate Eligible(db: Db, policies: map<string, int>, now: int, e: Entity) {
    && e.retentionClass.Some? && e.retentionClass.value in policies
    && e.legalHold != Some(true)
    && now >= e.createdAt + policies[e.retentionClass.value] * DAY_MS
    && (e.tenant.None? || !HasActiveLegalHold(db, e.tenant.value))
  }

  // The query pre-filters for the guard: it selects exactly the rows the guard lets through that
  // carry a known class past its floor and no entity-level hold, and whose tenant passes also
  // when it is the empty string, which the guard skips.
  lemma {:induction false} EligibleIffGuardPasses(db: Db, policies: map<string, int>, now: int, e: Entity)
    ensures Eligible(db, policies, now, e) <==>
      && !Guard(db, policies, now, e).blocked
      && e.retentionClass.Some? && e.retentionClass.value in policies && e.legalHold != Some(true)
      && now >= e.createdAt + policies[e.retentionClass.value] * 86_400_000
      && (e.tenant == Some("") ==> !HasActiveLegalHold(db, ""))
  {
  }

  function EligibleIds(db: Db, policies: map<string, int>, now: int, entities: map<string, Entity>): set<string> {
    set id | id in entities && Eligible(db, policies, now, entities[id])
  }

  // A possible answer of the query: `ORDER BY created_at ASC LIMIT batchSize`, ties in any order.
  ghost predicate Selected(db: Db, policies: map<string, int>, now: int, entities: map<string, Entity>,
                           batchSize: nat, rows: seq<string>)
  {
    var eligible := EligibleIds(db, policies, now, entities);
    && (forall i :: 0 <= i < |rows| ==> rows[i] in eligible)
    && (forall i, j :: 0 <= i < j < |rows| ==> rows[i] != rows[j])
    && |rows| == (if |eligible| < batchSize then |eligible| else batchSize)
    && (forall i, j :: 0 <= i < j < |rows| ==> entities[rows[i]].createdAt <= entities[rows[j]].createdAt)
    && (forall i, id :: 0 <= i < |rows| && id in eligible && id !in rows ==>
          entities[rows[i]].createdAt <= entities[id].createdAt)
  }

  datatype DeleteResult = DeleteResult(entityId: string, deleted: bool)

  function CountDeleted(results: seq<DeleteResult>, flag: bool): nat {
    if results == [] then 0
    else (if results[0].deleted == flag then 1 else 0) + CountDeleted(results[1..], flag)
  }

  lemma {:induction false} CountsPartition(results: seq<DeleteResult>)
    ensures CountDeleted(results, true) + CountDeleted(results, false) == |results|
    ensures (forall i :: 0 <= i < |results| ==> results[i].deleted) ==> CountDeleted(results, false) == 0
  {
    if results != [] {
      CountsPartition(results[1..]);
    }
  }

  // Whether the guarded delete of a row succeeds.
  predicate Deletable(db: Db, policies: map<string, int>, now: int, entities: map<string, Entity>, id: string) {
    id !in entities || !Guard(db, policies, now, entities[id]).blocked
  }

  class RetentionStore {
    const policies: map<string, int>
    var db: Db
    var entities: map<string, Entity>

    constructor (policies: map<string, int>, db: Db, entities: map<string, Entity>)
      ensures this.policies == policies && this.db == db && this.entities == entities
    {
      this.policies, this.db, this.entities := policies, db, entities;
    }

    // Throws (returns false) when blocked; a missing row counts as already deleted.
    method DeleteEntityPastRetention(id: string, now: int) returns (deleted: bool)
      modifies this`entities
      ensures deleted <==> id !in old(entities) || !Guard(db, policies, now, old(entities)[id]).blocked
      ensures entities == if deleted then old(entities) - {id} else old(entities)
      ensures deleted && id in old(entities) ==>
        forall c :: c in policies && c != "" && old(entities)[id].retentionClass == Some(c) ==>
          now >= old(entities)[id].createdAt + policies[c] * 86_400_000
    {
      if id !in entities {
        return true;
      }
      var verdict := Guard(db, policies, now, entities[id]);
      if verdict.blocked {
        if verdict.legalHoldActive {
          return false;
        }
        if verdict.eligibleAt.Some? {
          return false;
        }
      }
      entities := entities - {id};
      deleted := true;
    }

    // The eligibility query: `ORDER BY created_at LIMIT batchSize`.
    method SelectEligible(batchSize: nat, now: int) returns (rows: seq<string>)
      ensures Selected(db, policies, now, entities, batchSize, rows)
    {
      hide Eligible;
      hide Picked;
      var eligible := EligibleIds(db, policies, now, entities);
      rows := [];
      var left := eligible;
      NothingPicked(entities, eligible);
      while left != {} && |rows| < batchSize
        invariant Picked(entities, eligible, left, rows) && |rows| <= batchSize
        decreases |left|
      {
        PickedMeans(entities, eligible, left, rows);
        ghost var oldest := Oldest(map id | id in entities :: entities[id].createdAt, left);
        var next :| next in left && forall id :: id in left ==> entities[next].createdAt <= entities[id].createdAt;
        PickNext(entities, eligible, left, rows, next);
        rows := rows + [next];
        left := left - {next};
      }
      PickedIsSelected(db, policies, now, entities, batchSize, left, rows);
    }

    // One night with nothing else writing: the query, then the loop. It is one step of `Nights`.
    method RunRetentionScheduler(batchSize: nat, now: int)
      returns (results: seq<DeleteResult>, deletedCount: nat, skippedCount: nat, ghost rows: seq<string>)
      modifies this`entities
      ensures Nights(db, policies, now, [old(entities), entities], [rows], batchSize)
      ensures |results| == |rows| == deletedCount && skippedCount == 0
      ensures forall i :: 0 <= i < |rows| ==> results[i] == DeleteResult(rows[i], true)
    {
      var eligibleRows := SelectEligible(batchSize, now);
      rows := eligibleRows;
      SelectedRowsAreDeletable(db, policies, now, entities, batchSize, rows);
      hide Selected;
      hide Deletable;
      assert (set id | id in rows && Deletable(db, policies, now, entities, id)) == (set id | id in rows);
      results, deletedCount, skippedCount := DeleteRows(eligibleRows, now);
    }

    // The loop over the rows the query returned. They may be stale: a row that is blocked by now
    // is skipped and kept.
    method DeleteRows(rows: seq<string>, now: int)
      returns (results: seq<DeleteResult>, deletedCount: nat, skippedCount: nat)
      modifies this`entities
      ensures |results| == |rows| == deletedCount + skippedCount
      ensures forall i :: 0 <= i < |rows| ==>
        results[i] == DeleteResult(rows[i], Deletable(db, policies, now, old(entities), rows[i]))
      ensures entities == old(entities) - (set id | id in rows && Deletable(db, policies, now, old(entities), id))
      ensures (forall i :: 0 <= i < |rows| ==> Deletable(db, policies, now, old(entities), rows[i])) ==>
        skippedCount == 0
    {
      results := [];
      for i := 0 to |rows|
        invariant |results| == i
        invariant forall j :: 0 <= j < i ==>
          results[j] == DeleteResult(rows[j], Deletable(db, policies, now, old(entities), rows[j]))
        invariant entities ==
          old(entities) - (set id | id in rows[..i] && Deletable(db, policies, now, old(entities), id))
      {
        var deleted := DeleteEntityPastRetention(rows[i], now);
        results := results + [DeleteResult(rows[i], deleted)];
        assert rows[..i + 1] == rows[..i] + [rows[i]];
      }
      assert rows[..|rows|] == rows;
      CountsPartition(results);
      deletedCount := CountDeleted(results, true);
      skippedCount := CountDeleted(results, false);
    }
  }

  // With a frozen clock and no writer between query and loop, nothing the query selected is skipped.
  lemma {:induction false} SelectedRowsAreDeletable(db: Db, policies: map<string, int>, now: int,
                                                    entities: map<string, Entity>, batchSize: nat, rows: seq<string>)
    requires Selected(db, policies, now, entities, batchSize, rows)
    ensures forall id :: id in rows ==> Deletable(db, policies, now, entities, id)
  {
    forall id | id in rows ensures Deletable(db, policies, now, entities, id) {
      assert Eligible(db, policies, now, entities[id]);
    }
  }

  // ---------------------------------------------------------------------------
  // Night after night
  // ---------------------------------------------------------------------------

  // Each night deletes one selected batch, the clock and the holds unchanged.
  ghost predicate Nights(db: Db, policies: map<string, int>, now: int, tables: seq<map<string, Entity>>,
                         batches: seq<seq<string>>, batchSize: nat)
  {
    && |tables| == |batches| + 1
    && forall n :: 0 <= n < |batches| ==>
         && Selected(db, policies, now, tables[n], batchSize, batches[n])
         && tables[n + 1] == tables[n] - (set id | id in batches[n])
  }

  lemma {:induction false} DistinctSize(rows: seq<string>)
    requires forall i, j :: 0 <= i < j < |rows| ==> rows[i] != rows[j]
    ensures |set id | id in rows| == |rows|
  {
    if rows != [] {
      DistinctSize(rows[1..]);
      assert (set id | id in rows) == {rows[0]} + (set id | id in rows[1..]);
    }
  }

  lemma {:induction false} OneNight(db: Db, policies: map<string, int>, now: int, entities: map<string, Entity>,
                                    batchSize: nat, rows: seq<string>)
    requires Selected(db, policies, now, entities, batchSize, rows)
    ensures
      var eligible, gone := EligibleIds(db, policies, now, entities), set id | id in rows;
      && gone <= eligible
      && EligibleIds(db, policies, now, entities - gone) == eligible - gone
      && |eligible - gone| == (if |eligible| < batchSize then 0 else |eligible| - batchSize)
  {
    DistinctSize(rows);
    var eligible, gone := EligibleIds(db, policies, now, entities), set id | id in rows;
    assert EligibleIds(db, policies, now, entities - gone) == eligible - gone;
    assert eligible == gone + (eligible - gone);
  }

  // After n nights exactly max(0, |eligible| - n * batchSize) eligible rows are left, and every
  // ineligible row is still there, untouched.
  lemma {:induction false} NightsDrain(db: Db, policies: map<string, int>, now: int, tables: seq<map<string, Entity>>,
                                       batches: seq<seq<string>>, batchSize: nat)
    requires Nights(db, policies, now, tables, batches, batchSize)
    ensures
      var first, last := EligibleIds(db, policies, now, tables[0]), EligibleIds(db, policies, now, tables[|batches|]);
      && last <= first
      && |last| == (if |first| < |batches| * batchSize then 0 else |first| - |batches| * batchSize)
      && tables[|batches|] == tables[0] - (first - last)
    decreases |batches|
  {
    hide Selected;
    var n := |batches|;
    if n > 0 {
      NightsDrain(db, policies, now, tables[..n], batches[..n - 1], batchSize);
      OneNight(db, policies, now, tables[n - 1], batchSize, batches[n - 1]);
      assert n * batchSize == (n - 1) * batchSize + batchSize;
      assert tables[..n][n - 1] == tables[n - 1];
      hide EligibleIds;
      Drained(db, policies, now, tables[0], tables[n - 1], batches[n - 1]);
    } else {
      assert tables[0] == tables[0] - {};
    }
  }

  lemma {:induction false} Drained(db: Db, policies: map<string, int>, now: int, first: map<string, Entity>,
                                   previous: map<string, Entity>, rows: seq<string>)
    requires
      var a, b, gone := EligibleIds(db, policies, now, first), EligibleIds(db, policies, now, previous),
        set id | id in rows;
      b <= a && gone <= b && previous == first - (a - b)
      && EligibleIds(db, policies, now, previous - gone) == b - gone
    ensures
      var a, gone := EligibleIds(db, policies, now, first), set id | id in rows;
      previous - gone == first - (a - EligibleIds(db, policies, now, previous - gone))
  {
    var a, b, gone := EligibleIds(db, policies, now, first), EligibleIds(db, policies, now, previous),
      set id | id in rows;
    assert a - (b - gone) == (a - b) + gone;
  }

  // The oldest eligible rows so far, in order, and those still left.
  ghost predicate Picked(entities: map<string, Entity>, eligible: set<string>, left: set<string>, rows: seq<string>) {
    && eligible <= entities.Keys && left <= eligible && |left| + |rows| == |eligible|
    && (forall id :: id in eligible <==> id in left || id in rows)
    && (forall i :: 0 <= i < |rows| ==> rows[i] in eligible && rows[i] !in left)
    && (forall i, j :: 0 <= i < j < |rows| ==> rows[i] != rows[j])
    && (forall i, j :: 0 <= i < j < |rows| ==> entities[rows[i]].createdAt <= entities[rows[j]].createdAt)
    && (forall i, id :: 0 <= i < |rows| && id in left ==> entities[rows[i]].createdAt <= entities[id].createdAt)
  }

  lemma {:induction false} NothingPicked(entities: map<string, Entity>, eligible: set<string>)
    requires eligible <= entities.Keys
    ensures Picked(entities, eligible, eligible, [])
  {
  }

  lemma {:induction false} PickedMeans(entities: map<string, Entity>, eligible: set<string>, left: set<string>,
                                       rows: seq<string>)
    requires Picked(entities, eligible, left, rows)
    ensures left <= entities.Keys
  {
  }

  lemma {:induction false} PickNext(entities: map<string, Entity>, eligible: set<string>, left: set<string>,
                                    rows: seq<string>, next: string)
    requires Picked(entities, eligible, left, rows) && next in left && next in entities
    requires forall id :: id in left ==> id in entities && entities[next].createdAt <= entities[id].createdAt
    ensures Picked(entities, eligible, left - {next}, rows + [next])
  {
    var more := rows + [next];
    assert forall i :: 0 <= i < |rows| ==> more[i] == rows[i];
    assert forall id :: id in more <==> id in rows || id == next;
  }

  lemma {:induction false} PickedIsSelected(db: Db, policies: map<string, int>, now: int, entities: map<string, Entity>,
                                            batchSize: nat, left: set<string>, rows: seq<string>)
    requires Picked(entities, EligibleIds(db, policies, now, entities), left, rows)
    requires |rows| <= batchSize && (left == {} || |rows| >= batchSize)
    ensures Selected(db, policies, now, entities, batchSize, rows)
  {
    hide Eligible;
  }
}
