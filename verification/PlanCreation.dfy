/**
 * Creating payment plans in overlapping transactions: the check for a current plan and the insert
 * are separate statements, and neither a lock nor an index stands between them.
 */
module PlanCreation {
  import opened Options
  import opened Installments
  import opened PaymentPlans

  // A creation that has passed its checks. `known` are the plans that existed then.
  datatype Creation = Creation(plan: Plan, known: set<string>)

  datatype State = State(plans: map<string, Plan>, creations: map<int, Creation>)

  datatype Step =
    | CheckCase(call: int, caseId: string, total: int, count: nat, firstDue: int, today: int)
    | Insert(call: int, newId: string)
    | Leave(id: string, status: Status)

  predicate HasCurrent(plans: map<string, Plan>, caseId: string) {
    exists p :: p in plans && plans[p].caseId == caseId && plans[p].status == Current
  }

  predicate Can(cases: set<string>, s: State, step: Step) {
    match step
    case CheckCase(call, caseId, total, count, firstDue, today) =>
      && call !in s.creations && total > 0 && count >= 1 && firstDue >= today
      && caseId in cases && !HasCurrent(s.plans, caseId)
    case Insert(call, newId) => call in s.creations && newId !in s.plans
    case Leave(id, status) => id in s.plans && status != Current
  }

  function Next(cases: set<string>, s: State, step: Step): State {
    if !Can(cases, s, step) then s
    else
      match step
      case CheckCase(call, caseId, total, count, firstDue, today) =>
        var plan := Plan(caseId, total, count, RoundedShare(total, count), Some(firstDue), today, Current);
        s.(creations := s.creations[call := Creation(plan, s.plans.Keys)])
      case Insert(call, newId) =>
        State(s.plans[newId := s.creations[call].plan], s.creations - {call})
      case Leave(id, status) =>
        s.(plans := s.plans[id := s.plans[id].(status := status)])
  }

  function RunAll(cases: set<string>, s: State, steps: seq<Step>): State
    decreases |steps|
  {
    if steps == [] then s else RunAll(cases, Next(cases, s, steps[0]), steps[1..])
  }

  // At no point of the run has a case two current plans.
  ghost predicate AlwaysOneCurrent(cases: set<string>, s: State, steps: seq<Step>)
    decreases |steps|
  {
    OneCurrent(s.plans) && (steps == [] || AlwaysOneCurrent(cases, Next(cases, s, steps[0]), steps[1..]))
  }

  // Another plan of the case was created after this creation had looked, and is current still.
  predicate Crossed(cases: set<string>, s: State, step: Step) {
    && step.Insert? && Can(cases, s, step)
    && exists p :: p in s.plans && p !in s.creations[step.call].known
                   && s.plans[p].caseId == s.creations[step.call].plan.caseId && s.plans[p].status == Current
  }

  ghost predicate NeverCrossed(cases: set<string>, s: State, steps: seq<Step>)
    decreases |steps|
  {
    steps == [] || (!Crossed(cases, s, steps[0]) && NeverCrossed(cases, Next(cases, s, steps[0]), steps[1..]))
  }

  // None of the plans a creation knew of is a current plan of its case: there was none, and plans
  // do not become current again.
  ghost predicate Informed(s: State) {
    forall c, p :: c in s.creations && p in s.plans && p in s.creations[c].known ==>
      && s.creations[c].plan.status == Current
      && !(s.plans[p].caseId == s.creations[c].plan.caseId && s.plans[p].status == Current)
  }

  ghost predicate AllCurrent(s: State) {
    forall c :: c in s.creations ==> s.creations[c].plan.status == Current && s.creations[c].known <= s.plans.Keys
  }

  lemma {:induction false} StepKeepsInformed(cases: set<string>, s: State, step: Step)
    requires Informed(s) && AllCurrent(s)
    ensures Informed(Next(cases, s, step)) && AllCurrent(Next(cases, s, step))
  {
  }

  // The insert meets a current plan of its case exactly when it was crossed.
  lemma {:induction false} CrossedIffMeetsCurrent(cases: set<string>, s: State, step: Step)
    requires Informed(s) && step.Insert? && Can(cases, s, step)
    ensures Crossed(cases, s, step) <==> HasCurrent(s.plans, s.creations[step.call].plan.caseId)
  {
    var caseId := s.creations[step.call].plan.caseId;
    if HasCurrent(s.plans, caseId) {
      var p :| p in s.plans && s.plans[p].caseId == caseId && s.plans[p].status == Current;
      assert p !in s.creations[step.call].known;
    }
  }

  lemma {:induction false} StepKeepsOneCurrentIff(cases: set<string>, s: State, step: Step)
    requires Informed(s) && AllCurrent(s) && OneCurrent(s.plans)
    ensures OneCurrent(Next(cases, s, step).plans) <==> !Crossed(cases, s, step)
  {
    var t := Next(cases, s, step);
    if step.Insert? && Can(cases, s, step) {
      CrossedIffMeetsCurrent(cases, s, step);
      hide Crossed;
      var plan := s.creations[step.call].plan;
      if HasCurrent(s.plans, plan.caseId) {
        var p :| p in s.plans && s.plans[p].caseId == plan.caseId && s.plans[p].status == Current;
        assert t.plans[p] == s.plans[p] && t.plans[step.newId] == plan && p != step.newId;
      }
    }
  }

  lemma {:induction false} RunIsOneCurrentIff(cases: set<string>, s: State, steps: seq<Step>)
    requires Informed(s) && AllCurrent(s) && OneCurrent(s.plans)
    ensures AlwaysOneCurrent(cases, s, steps) <==> NeverCrossed(cases, s, steps)
    decreases |steps|
  {
    if steps != [] {
      StepKeepsInformed(cases, s, steps[0]);
      StepKeepsOneCurrentIff(cases, s, steps[0]);
      hide Next;
      hide Informed;
      hide AllCurrent;
      hide Crossed;
      hide OneCurrent;
      var next := Next(cases, s, steps[0]);
      if !Crossed(cases, s, steps[0]) {
        RunIsOneCurrentIff(cases, next, steps[1..]);
      } else {
        assert !AlwaysOneCurrent(cases, next, steps[1..]);
      }
    }
  }

  // In every interleaving of creations and status changes, a case never has two current plans
  // exactly when no creation was crossed by another one between its check and its insert.
  lemma {:induction false} OneCurrentIffNeverCrossed(cases: set<string>, steps: seq<Step>)
    ensures AlwaysOneCurrent(cases, State(map[], map[]), steps) <==> NeverCrossed(cases, State(map[], map[]), steps)
  {
    RunIsOneCurrentIff(cases, State(map[], map[]), steps);
  }

  lemma {:induction false} TwoSteps(cases: set<string>, s: State, a: Step, b: Step)
    ensures RunAll(cases, s, [a, b]) == Next(cases, Next(cases, s, a), b)
    ensures NeverCrossed(cases, s, [a, b]) <==> !Crossed(cases, s, a) && !Crossed(cases, Next(cases, s, a), b)
  {
    hide Next;
    hide Crossed;
    var one := Next(cases, s, a);
    assert [a, b][1..] == [b] && [b][1..] == [];
    assert RunAll(cases, one, [b]) == RunAll(cases, Next(cases, one, b), []);
    assert NeverCrossed(cases, one, [b]) <==> !Crossed(cases, one, b) && NeverCrossed(cases, Next(cases, one, b), []);
  }

  // Two creations for a case without a current plan that check before either inserts both succeed.
  lemma {:induction false} OverlappingCreationsBothSucceed(cases: set<string>, plans: map<string, Plan>,
                                                           caseId: string, total: int,
                                                           count: nat, day: int, p: string, q: string)
    requires caseId in cases && total > 0 && count >= 1 && !HasCurrent(plans, caseId)
    requires p !in plans && q !in plans && p != q
    ensures
      var checked := RunAll(cases, State(plans, map[]),
                            [CheckCase(1, caseId, total, count, day, day),
                              CheckCase(2, caseId, total, count, day, day)]);
      var after := RunAll(cases, checked, [Insert(1, p), Insert(2, q)]);
      && !OneCurrent(after.plans) && !NeverCrossed(cases, checked, [Insert(1, p), Insert(2, q)])
      && p in after.plans && q in after.plans && after.plans[p].caseId == after.plans[q].caseId == caseId
  {
    var s := State(plans, map[]);
    var a, b := CheckCase(1, caseId, total, count, day, day), CheckCase(2, caseId, total, count, day, day);
    TwoSteps(cases, s, a, b);
    var checked := RunAll(cases, s, [a, b]);
    TwoSteps(cases, checked, Insert(1, p), Insert(2, q));
    hide RunAll;
    hide NeverCrossed;
    var plan := Plan(caseId, total, count, RoundedShare(total, count), Some(day), day, Current);
    assert checked.creations[1].plan == plan && checked.creations[2].plan == plan;
    var one := Next(cases, checked, Insert(1, p));
    assert one.creations[2] == checked.creations[2] && p !in one.creations[2].known;
    var two := Next(cases, one, Insert(2, q));
    assert two.plans[p] == plan && two.plans[q] == plan;
  }

  // A creation whose check and insert nothing comes between is never crossed.
  lemma {:induction false} UninterruptedIsNeverCrossed(cases: set<string>, s: State, check: Step, newId: string)
    requires check.CheckCase? && Can(cases, s, check)
    ensures NeverCrossed(cases, s, [check, Insert(check.call, newId)])
  {
    TwoSteps(cases, s, check, Insert(check.call, newId));
  }
}
