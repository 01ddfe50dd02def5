/** Payment plans: creation, status changes and the daily reconciler over the plan table. */
module PaymentPlans {
  import opened Options
  import opened Extremes
  import opened Installments

  datatype Status = Current | Breached | Completed | Cancelled

  datatype Plan = Plan(caseId: string, total: int, count: nat, amount: int, nextDue: Option<int>, createdOn: int,
                       status: Status)

  datatype Case = Case(invoiceId: string, resolved: bool)

  // Payments and cases as the reconciler reads them; days are numbered.
  datatype Ledger = Ledger(cases: map<string, Case>, payments: map<string, int>)

  function PaymentTotal(ledger: Ledger, plan: Plan): int
    requires plan.caseId in ledger.cases
  {
    var invoice := ledger.cases[plan.caseId].invoiceId;
    if invoice in ledger.payments then ledger.payments[invoice] else 0
  }

  function FirstDue(plan: Plan): int {
    if plan.nextDue.Some? then plan.nextDue.value else plan.createdOn
  }

  function FirstUnpaid(installments: seq<Installment>): Option<Installment> {
    if installments == [] then None
    else if !installments[0].paid then Some(installments[0])
    else FirstUnpaid(installments[1..])
  }

  datatype PlanState = PlanState(paidCount: nat, fullyPaid: bool, breached: bool, nextDue: Option<int>)

  function DerivePlanState(plan: Plan, payments: int, today: int): PlanState {
    var installments := Schedule(plan.total, plan.count, plan.amount, FirstDue(plan), payments);
    var paidCount := CountPaid(installments);
    var fullyPaid := payments >= plan.total || paidCount >= plan.count;
    var firstUnpaid := FirstUnpaid(installments);
    var breached := firstUnpaid.Some? && firstUnpaid.value.dueDate < today && !fullyPaid;
    PlanState(paidCount, fullyPaid, breached,
              if fullyPaid || firstUnpaid.None? then None else Some(firstUnpaid.value.dueDate))
  }

  // A plan row as `createPaymentPlan` writes it.
  ghost predicate WellFormed(plan: Plan) {
    plan.total > 0 && plan.count >= 1 && plan.amount == RoundedShare(plan.total, plan.count)
  }

  // The first unpaid instalment is the first one the payments do not reach.
  lemma {:induction false} PaidIffReached(dues: seq<int>, payments: int, i: nat)
    requires i < |dues| && payments >= 0 && forall j :: 0 <= j < |dues| ==> dues[j] >= 0
    ensures Allocate(dues, payments)[i] >= dues[i] <==> dues[i] == 0 || Sum(dues[..i + 1]) <= payments
  {
    AllocationClosedForm(dues, payments, i);
    SumPush(dues[..i], dues[i]);
    assert dues[..i + 1] == dues[..i] + [dues[i]];
  }

  lemma {:induction false} FirstUnpaidExists(installments: seq<Installment>)
    ensures FirstUnpaid(installments).Some? <==> CountPaid(installments) < |installments|
  {
    if installments != [] {
      CountPaidBound(installments[1..]);
      FirstUnpaidExists(installments[1..]);
    }
  }

  // A plan that is not covered always has a next due date, and a covered one never is breached.
  lemma {:induction false} OpenPlanHasNextDue(plan: Plan, payments: int, today: int)
    requires WellFormed(plan)
    ensures
      var state := DerivePlanState(plan, payments, today);
      && (state.fullyPaid <==> payments >= plan.total)
      && (state.nextDue.Some? <==> payments < plan.total)
      && (state.breached <==> state.nextDue.Some? && state.nextDue.value < today)
  {
    FullyPaidIffCovered(plan.total, plan.count, FirstDue(plan), payments);
    FirstUnpaidExists(Schedule(plan.total, plan.count, plan.amount, FirstDue(plan), payments));
  }

  lemma {:induction false} FirstUnpaidAt(installments: seq<Installment>, i: nat)
    requires i < |installments| && !installments[i].paid && forall j :: 0 <= j < i ==> installments[j].paid
    ensures FirstUnpaid(installments) == Some(installments[i])
  {
    if i > 0 {
      FirstUnpaidAt(installments[1..], i - 1);
    }
  }

  lemma {:induction false} EarlierDues(total: int, count: nat, amount: int, i: nat)
    requires i < count
    ensures Sum(Dues(total, count, amount)[..i]) == amount * i
  {
    var dues := Dues(total, count, amount);
    if i == 0 {
      assert dues[..0] == [];
    } else {
      EarlierDues(total, count, amount, i - 1);
      DueAt(total, count, amount, i - 1);
      SumPush(dues[..i - 1], dues[i - 1]);
      assert dues[..i] == dues[..i - 1] + [dues[i - 1]];
      assert amount * i == amount * (i - 1) + amount;
    }
  }

  // What instalment `i` has received.
  lemma {:induction false} ShareAt(total: int, count: nat, amount: nat, payments: int, i: nat)
    requires i < count
    ensures
      var due := Dues(total, count, amount)[i];
      && due == (if i + 1 < count then amount else total - amount * (count - 1))
      && Allocate(Dues(total, count, amount), payments)[i] == Min(due, Max(0, payments - amount * i))
  {
    var dues := Dues(total, count, amount);
    DueAt(total, count, amount, i);
    forall j | 0 <= j < i ensures dues[j] >= 0 {
      DueAt(total, count, amount, j);
    }
    EarlierDues(total, count, amount, i);
    AllocationClosedForm(dues, payments, i);
  }

  // The instalment a plan waits for: one per whole amount paid, at most the last.
  function Awaited(plan: Plan, payments: nat): int {
    if plan.amount <= 0 || payments / plan.amount >= plan.count then plan.count - 1 else payments / plan.amount
  }

  lemma {:induction false} PaidBefore(total: int, count: nat, amount: nat, payments: nat, j: nat)
    requires j + 1 < count && (amount == 0 || j < payments / amount)
    ensures Allocate(Dues(total, count, amount), payments)[j] >= Dues(total, count, amount)[j]
  {
    hide Dues;
    hide Allocate;
    ShareAt(total, count, amount, payments, j);
    if amount > 0 {
      WholeAmounts(amount, payments, j + 1);
      assert amount * (j + 1) == amount * j + amount;
    }
  }

  lemma {:induction false} WholeAmounts(amount: nat, payments: nat, n: nat)
    requires amount > 0 && n <= payments / amount
    ensures amount * n <= payments
  {
    var q := payments / amount;
    assert payments == amount * q + payments % amount;
    assert amount * q - amount * n == amount * (q - n) >= 0;
  }

  lemma {:induction false} UnpaidAt(total: int, count: nat, amount: nat, payments: nat, i: nat)
    requires payments < total && i < count
    requires if i + 1 < count then amount > 0 && i == payments / amount
             else amount * (count - 1) <= payments
    ensures Allocate(Dues(total, count, amount), payments)[i] < Dues(total, count, amount)[i]
  {
    hide Dues;
    hide Allocate;
    ShareAt(total, count, amount, payments, i);
    if i + 1 < count {
      RestIsSmall(amount, payments);
    }
  }

  lemma {:induction false} RestIsSmall(amount: nat, payments: nat)
    requires amount > 0
    ensures payments - amount * (payments / amount) < amount
  {
  }

  lemma {:induction false} AwaitedIsUnpaid(plan: Plan, payments: nat)
    requires WellFormed(plan) && payments < plan.total && plan.amount >= 0
    ensures
      var i, dues := Awaited(plan, payments), Dues(plan.total, plan.count, plan.amount);
      && 0 <= i < plan.count && Allocate(dues, payments)[i] < dues[i]
      && forall j :: 0 <= j < i ==> Allocate(dues, payments)[j] >= dues[j]
  {
    var i, amount, dues := Awaited(plan, payments), plan.amount, Dues(plan.total, plan.count, plan.amount);
    hide RoundedShare;
    hide Dues;
    hide Allocate;
    if i + 1 == plan.count && amount > 0 {
      WholeAmounts(amount, payments, i);
    }
    UnpaidAt(plan.total, plan.count, amount, payments, i);
    forall j | 0 <= j < i ensures Allocate(dues, payments)[j] >= dues[j] {
      PaidBefore(plan.total, plan.count, amount, payments, j);
    }
  }

  // The next due date in numbers: thirty days for every whole amount paid, from the first due date
  // or, where none is stored, the day of creation.
  lemma {:induction false} NextDueDate(plan: Plan, payments: nat, today: int)
    requires WellFormed(plan) && payments < plan.total
    ensures
      var first := if plan.nextDue.Some? then plan.nextDue.value else plan.createdOn;
      DerivePlanState(plan, payments, today).nextDue == Some(first + 30 * Awaited(plan, payments))
  {
    RoundedShareIsNatural(plan.total, plan.count);
    AwaitedIsUnpaid(plan, payments);
    OpenPlanHasNextDue(plan, payments, today);
    hide Awaited;
    hide Dues;
    hide Allocate;
    hide RoundedShare;
    FirstUnpaidAt(Schedule(plan.total, plan.count, plan.amount, FirstDue(plan), payments), Awaited(plan, payments));
  }

  // ---------------------------------------------------------------------------
  // Reconciliation as a function of one plan
  // ---------------------------------------------------------------------------

  function NextStatus(ledger: Ledger, today: int, plan: Plan): Status {
    if plan.caseId !in ledger.cases || plan.status !in {Current, Breached} then plan.status
    else
      var state := DerivePlanState(plan, PaymentTotal(ledger, plan), today);
      if state.fullyPaid then Completed
      else if plan.status == Current && state.breached then Breached
      else plan.status
  }

  // The reconciler in terms of money and dates: an open plan is completed exactly when the payments
  // on its invoice reach its total, a current one breached exactly when they do not and it is overdue.
  lemma {:induction false} NextStatusIff(ledger: Ledger, today: int, plan: Plan)
    requires WellFormed(plan) && plan.caseId in ledger.cases
    ensures
      var invoice := ledger.cases[plan.caseId].invoiceId;
      var paid := if invoice in ledger.payments then ledger.payments[invoice] else 0;
      var first := if plan.nextDue.Some? then plan.nextDue.value else plan.createdOn;
      var next := NextStatus(ledger, today, plan);
      && (plan.status in {Completed, Cancelled} ==> next == plan.status)
      && (plan.status in {Current, Breached} && paid >= plan.total ==> next == Completed)
      && (plan.status == Breached && paid < plan.total ==> next == Breached)
      && (plan.status == Current && 0 <= paid < plan.total ==>
            next == if first + 30 * Awaited(plan, paid) < today then Breached else Current)
  {
    var paid := PaymentTotal(ledger, plan);
    OpenPlanHasNextDue(plan, paid, today);
    if 0 <= paid < plan.total {
      NextDueDate(plan, paid, today);
    }
    hide DerivePlanState;
    hide Awaited;
  }

  // The table after a pass: every plan in its next status.
  ghost function Reconciled(ledger: Ledger, today: int, plans: map<string, Plan>): map<string, Plan> {
    map id | id in plans :: plans[id].(status := NextStatus(ledger, today, plans[id]))
  }

  // A second look on the same day with the same payments changes nothing.
  lemma {:induction false} NextStatusIsStable(ledger: Ledger, today: int, plan: Plan)
    ensures
      var after := plan.(status := NextStatus(ledger, today, plan));
      NextStatus(ledger, today, after) == after.status
  {
    hide Schedule;
    hide CountPaid;
    hide FirstUnpaid;
  }

  datatype Outcome =
    | Done
    | NotFound
    | NotFullyPaid
    | BadAmount
    | BadCount
    | DueDateInPast
    | CaseNotFound
    | PlanAlreadyActive

  // At most one current plan per collection case. Creation alone can break this; module
  // PlanCreation says when it does.
  ghost predicate OneCurrent(plans: map<string, Plan>) {
    forall p, q :: p in plans && q in plans && p != q && plans[p].status == Current == plans[q].status ==>
      plans[p].caseId != plans[q].caseId
  }

  // A completed plan is covered, its case resolved and its invoice paid.
  ghost predicate Settled(books: Ledger, paidInvoices: set<string>, plan: Plan) {
    plan.status == Completed ==>
      && plan.caseId in books.cases && books.cases[plan.caseId].resolved
      && books.cases[plan.caseId].invoiceId in paidInvoices
      && PaymentTotal(books, plan) >= plan.total
  }

  // The side of a completion that falls on the case and its invoice.
  datatype Closing = Closing(cases: map<string, Case>, paidInvoices: set<string>)

  ghost function Close(b: Closing, plan: Plan): Closing {
    if plan.caseId !in b.cases then b
    else Closing(
      b.cases[plan.caseId := b.cases[plan.caseId].(resolved := true)],
      b.paidInvoices + {b.cases[plan.caseId].invoiceId})
  }

  ghost function Closed(b: Closing, plans: map<string, Plan>, completed: seq<string>): Closing
    requires forall id :: id in completed ==> id in plans
  {
    if completed == [] then b
    else
      var last := completed[|completed| - 1];
      Close(Closed(b, plans, completed[..|completed| - 1]), plans[last])
  }

  class PlanTable {
    var plans: map<string, Plan>
    var cases: map<string, Case>
    var paidInvoices: set<string>
    const payments: map<string, int>

    ghost predicate Valid()
      reads this
    {
      && (forall id :: id in plans ==> WellFormed(plans[id]))
      && forall id :: id in plans ==> Settled(Books(), paidInvoices, plans[id])
    }

    ghost function Books(): Ledger
      reads this
    {
      Ledger(cases, payments)
    }

    constructor (cases: map<string, Case>, payments: map<string, int>)
      ensures Valid() && plans == map[] && this.cases == cases && this.payments == payments && paidInvoices == {}
    {
      this.plans, this.cases, this.payments, this.paidInvoices := map[], cases, payments, {};
    }

    method CreatePaymentPlan(newId: string, caseId: string, total: int, count: int, firstDue: int, today: int)
      returns (outcome: Outcome)
      requires Valid() && newId !in plans
      modifies this`plans
      ensures Valid() && (OneCurrent(old(plans)) ==> OneCurrent(plans))
      ensures outcome == Done <==>
        && total > 0 && count >= 1 && firstDue >= today && caseId in cases
        && forall p :: p in old(plans) && old(plans)[p].caseId == caseId ==> old(plans)[p].status != Current
      ensures outcome != Done ==> plans == old(plans)
      ensures outcome == Done ==>
        plans == old(plans)[
          newId := Plan(caseId, total, count, RoundedShare(total, count), Some(firstDue), today, Current)]
    {
      if total <= 0 {
        return BadAmount;
      }
      if count < 1 {
        return BadCount;
      }
      if firstDue < today {
        return DueDateInPast;
      }
      if caseId !in cases {
        return CaseNotFound;
      }
      if exists p :: p in plans && plans[p].caseId == caseId && plans[p].status == Current {
        return PlanAlreadyActive;
      }
      var amount := RoundedShare(total, count);
      plans := plans[newId := Plan(caseId, total, count, amount, Some(firstDue), today, Current)];
      outcome := Done;
    }

    // `status` is one of current, breached and completed; `current` changes nothing.
    method UpdatePaymentPlanStatus(planId: string, status: Status) returns (outcome: Outcome)
      requires Valid() && status != Cancelled
      modifies this`plans, this`cases, this`paidInvoices
      ensures Valid() && (OneCurrent(old(plans)) ==> OneCurrent(plans))
      ensures outcome == NotFound <==> planId !in old(plans) || old(plans)[planId].caseId !in old(cases)
      ensures outcome == NotFullyPaid <==>
        && planId in old(plans) && old(plans)[planId].caseId in old(cases) && status == Completed
        && PaymentTotal(old(Books()), old(plans)[planId]) < old(plans)[planId].total
      ensures outcome in {Done, NotFound, NotFullyPaid}
      ensures plans == if outcome == Done && status != Current
                       then old(plans)[planId := old(plans)[planId].(status := status)]
                       else old(plans)
      ensures cases.Keys == old(cases).Keys && forall c :: c in cases ==>
        cases[c].invoiceId == old(cases)[c].invoiceId
        && (cases[c].resolved <==>
           old(cases)[c].resolved || (outcome == Done && status == Completed && c == old(plans)[planId].caseId))
      ensures paidInvoices == if outcome == Done && status == Completed
                              then old(paidInvoices) + {old(cases)[old(plans)[planId].caseId].invoiceId}
                              else old(paidInvoices)
    {
      if planId !in plans || plans[planId].caseId !in cases {
        return NotFound;
      }
      var plan := plans[planId];
      if status == Completed {
        if PaymentTotal(Ledger(cases, payments), plan) < plan.total {
          return NotFullyPaid;
        }
        plans := plans[planId := plan.(status := Completed)];
        var invoice := cases[plan.caseId].invoiceId;
        cases := cases[plan.caseId := cases[plan.caseId].(resolved := true)];
        paidInvoices := paidInvoices + {invoice};
      } else if status == Breached {
        plans := plans[planId := plan.(status := Breached)];
      }
      outcome := Done;
    }

    // The body of the reconciler's loop, for one plan the query returned.
    method ReconcileOne(id: string, today: int) returns (completes: bool, breaches: bool)
      requires Valid() && id in plans && IsOpen(plans[id])
      modifies this`plans, this`cases, this`paidInvoices
      ensures Valid() && SameMoney(old(Books()), Books()) && (OneCurrent(old(plans)) ==> OneCurrent(plans))
      ensures plans == old(plans)[id := old(plans)[id].(status := NextStatus(old(Books()), today, old(plans)[id]))]
      ensures completes <==> Completes(old(Books()), today, old(plans)[id])
      ensures breaches <==> Breaches(old(Books()), today, old(plans)[id])
      ensures Closing(cases, paidInvoices) ==
        if completes then Close(old(Closing(cases, paidInvoices)), old(plans)[id])
          else old(Closing(cases, paidInvoices))
    {
      completes, breaches := false, false;
      var plan := plans[id];
      assert plans == plans[id := plan.(status := plan.status)];
      if plan.caseId !in cases {
        return;
      }
      var paid := PaymentTotal(Ledger(cases, payments), plan);
      var state := DerivePlanState(plan, paid, today);
      OpenPlanHasNextDue(plan, paid, today);
      hide DerivePlanState;
      if state.fullyPaid {
        var outcome := UpdatePaymentPlanStatus(id, Completed);
        assert outcome == Done;
        completes := true;
      } else if plan.status == Current && state.breached {
        var outcome := UpdatePaymentPlanStatus(id, Breached);
        assert outcome == Done;
        breaches := true;
      }
    }

    // The reconciler's query: `status IN ('current', 'breached') ORDER BY created_at`.
    method OpenPlans() returns (ids: seq<string>)
      ensures OpenQuery(plans, ids)
    {
      hide IsOpen;
      hide WellFormed;
      hide Settled;
      ids := [];
      var left := set id | id in plans && IsOpen(plans[id]);
      while left != {}
        invariant forall id :: id in left || id in ids <==> id in plans && IsOpen(plans[id])
        invariant forall id :: !(id in left && id in ids)
        invariant Unique(ids)
        invariant forall i, j :: 0 <= i < j < |ids| ==> plans[ids[i]].createdOn <= plans[ids[j]].createdOn
        invariant forall i, id :: 0 <= i < |ids| && id in left ==> plans[ids[i]].createdOn <= plans[id].createdOn
        decreases |left|
      {
        ghost var oldest := Oldest(map id | id in plans :: plans[id].createdOn, left);
        var next :| next in left && forall id :: id in left ==> plans[next].createdOn <= plans[id].createdOn;
        ids := ids + [next];
        left := left - {next};
      }
    }

    // One pass: exactly the open plans are looked at, once each.
    method ReconcilePaymentPlanLifecycle(today: int)
      returns (completed: seq<string>, breached: seq<string>, ghost ids: seq<string>)
      requires Valid()
      modifies this`plans, this`cases, this`paidInvoices
      ensures Valid() && SameMoney(old(Books()), Books()) && (OneCurrent(old(plans)) ==> OneCurrent(plans))
      ensures OpenQuery(old(plans), ids)
      ensures plans == Reconciled(old(Books()), today, old(plans))
      ensures completed == CompletedOf(old(Books()), today, old(plans), ids)
      ensures breached == BreachedOf(old(Books()), today, old(plans), ids)
      ensures Closing(cases, paidInvoices) == Closed(old(Closing(cases, paidInvoices)), old(plans), completed)
    {
      ghost var start, books, opening := plans, Books(), Closing(cases, paidInvoices);
      hide NextStatus;
      hide OneCurrent;
      hide WellFormed;
      hide Completes;
      hide Breaches;
      hide SameMoney;
      hide Settled;
      hide Close;
      hide IsOpen;
      hide Visited;
      hide OpenQuery;
      hide CompletedOf;
      hide BreachedOf;
      hide Closed;
      hide Reconciled;
      var planIds := OpenPlans();
      ids := planIds;
      completed, breached := [], [];
      KeepsMoney(books);
      NothingVisited(books, today, start);
      NothingReported(books, today, start, opening);
      assert ids[..0] == [];
      for i := 0 to |planIds|
        invariant Valid() && SameMoney(books, Books()) && (OneCurrent(start) ==> OneCurrent(plans))
        invariant plans == Visited(books, today, start, ids[..i])
        invariant completed == CompletedOf(books, today, start, ids[..i])
        invariant breached == BreachedOf(books, today, start, ids[..i])
        invariant Closing(cases, paidInvoices) == Closed(opening, start, completed)
      {
        var id := planIds[i];
        VisitOne(books, Books(), today, start, ids, i);
        ghost var before := Books();
        var completes, breaches := ReconcileOne(id, today);
        MoneyIsTransitive(books, before, Books());
        if completes {
          ClosedMore(opening, start, completed, id);
          completed := completed + [id];
        }
        if breaches {
          breached := breached + [id];
        }
      }
      assert ids[..|ids|] == ids;
      AllVisited(books, today, start, ids);
    }
  }

  predicate IsOpen(plan: Plan) {
    plan.status in {Current, Breached}
  }

  predicate Unique(ids: seq<string>) {
    forall i, j :: 0 <= i < j < |ids| ==> ids[i] != ids[j]
  }

  ghost predicate OpenQuery(plans: map<string, Plan>, ids: seq<string>) {
    && (forall id :: id in ids <==> id in plans && IsOpen(plans[id]))
    && Unique(ids)
    && forall i, j :: 0 <= i < j < |ids| ==> plans[ids[i]].createdOn <= plans[ids[j]].createdOn
  }

  // The plans a pass over these ids reports, in their order.
  ghost function CompletedOf(ledger: Ledger, today: int, plans: map<string, Plan>, ids: seq<string>): (r: seq<string>)
    ensures forall id :: id in r <==> id in ids && id in plans && Completes(ledger, today, plans[id])
  {
    if ids == [] then []
    else
      var earlier, last := CompletedOf(ledger, today, plans, ids[..|ids| - 1]), ids[|ids| - 1];
      assert ids == ids[..|ids| - 1] + [last];
      if last in plans && Completes(ledger, today, plans[last]) then earlier + [last] else earlier
  }

  ghost function BreachedOf(ledger: Ledger, today: int, plans: map<string, Plan>, ids: seq<string>): (r: seq<string>)
    ensures forall id :: id in r <==> id in ids && id in plans && Breaches(ledger, today, plans[id])
  {
    if ids == [] then []
    else
      var earlier, last := BreachedOf(ledger, today, plans, ids[..|ids| - 1]), ids[|ids| - 1];
      assert ids == ids[..|ids| - 1] + [last];
      if last in plans && Breaches(ledger, today, plans[last]) then earlier + [last] else earlier
  }

  // The table when the plans in `ids` have been looked at.
  ghost function Visited(ledger: Ledger, today: int, plans: map<string, Plan>, ids: seq<string>): map<string, Plan> {
    map id | id in plans :: if id in ids then plans[id].(status := NextStatus(ledger, today, plans[id])) else plans[id]
  }

  lemma {:induction false} NothingVisited(ledger: Ledger, today: int, plans: map<string, Plan>)
    ensures Visited(ledger, today, plans, []) == plans
  {
    hide NextStatus;
  }

  lemma {:induction false} NothingReported(ledger: Ledger, today: int, plans: map<string, Plan>, opening: Closing)
    ensures CompletedOf(ledger, today, plans, []) == [] && BreachedOf(ledger, today, plans, []) == []
    ensures Closed(opening, plans, []) == opening
  {
  }

  // A pass over all open plans moves every plan to its next status: the others have none.
  lemma {:induction false} AllVisited(ledger: Ledger, today: int, plans: map<string, Plan>, ids: seq<string>)
    requires OpenQuery(plans, ids)
    ensures Visited(ledger, today, plans, ids) == Reconciled(ledger, today, plans)
  {
    forall id | id in plans && id !in ids
      ensures plans[id].(status := NextStatus(ledger, today, plans[id])) == plans[id]
    {
    }
    hide NextStatus;
    hide IsOpen;
  }

  lemma {:induction false} VisitOne(ledger: Ledger, current: Ledger, today: int, plans: map<string, Plan>,
                                    ids: seq<string>, i: nat)
    requires OpenQuery(plans, ids) && i < |ids| && SameMoney(ledger, current)
    ensures
      var id, table := ids[i], Visited(ledger, today, plans, ids[..i]);
      && id in plans && id in table && table[id] == plans[id] && IsOpen(plans[id])
      && table[id := plans[id].(status := NextStatus(current, today, plans[id]))] ==
         Visited(ledger, today, plans, ids[..i + 1])
      && CompletedOf(ledger, today, plans, ids[..i + 1]) ==
           CompletedOf(ledger, today, plans, ids[..i]) + (if Completes(current, today, plans[id]) then [id] else [])
      && BreachedOf(ledger, today, plans, ids[..i + 1]) ==
           BreachedOf(ledger, today, plans, ids[..i]) + (if Breaches(current, today, plans[id]) then [id] else [])
  {
    var id, upTo := ids[i], ids[..i + 1];
    assert id in ids && id !in ids[..i];
    SameMoneySameStatus(ledger, current, today, plans[id]);
    hide NextStatus;
    hide Completes;
    hide Breaches;
    hide SameMoney;
    hide IsOpen;
    assert upTo[..i] == ids[..i] && upTo == ids[..i] + [id];
  }

  lemma {:induction false} ClosedMore(b: Closing, plans: map<string, Plan>, completed: seq<string>, id: string)
    requires id in plans && forall x :: x in completed ==> x in plans
    ensures (forall x :: x in completed + [id] ==> x in plans)
            && Closed(b, plans, completed + [id]) == Close(Closed(b, plans, completed), plans[id])
  {
    hide Close;
    assert (completed + [id])[..|completed|] == completed;
  }

  // A pass resolves exactly the cases, and pays exactly the invoices, of the plans it completed.
  lemma {:induction false} ClosedIff(b: Closing, plans: map<string, Plan>, completed: seq<string>)
    requires forall id :: id in completed ==> id in plans && plans[id].caseId in b.cases
    ensures
      var after := Closed(b, plans, completed);
      && after.cases.Keys == b.cases.Keys
      && (forall c :: c in b.cases ==> after.cases[c].invoiceId == b.cases[c].invoiceId)
      && (forall c :: c in b.cases ==>
            (after.cases[c].resolved <==> b.cases[c].resolved || exists id :: id in completed && plans[id].caseId == c))
      && (forall invoice :: invoice in after.paidInvoices <==>
            invoice in b.paidInvoices || exists id :: id in completed && b.cases[plans[id].caseId].invoiceId == invoice)
  {
    if completed != [] {
      var front, last := completed[..|completed| - 1], completed[|completed| - 1];
      assert completed == front + [last];
      ClosedIff(b, plans, front);
    }
  }

  lemma {:induction false} KeepsMoney(a: Ledger)
    ensures SameMoney(a, a)
  {
  }

  lemma {:induction false} MoneyIsTransitive(a: Ledger, b: Ledger, c: Ledger)
    requires SameMoney(a, b) && SameMoney(b, c)
    ensures SameMoney(a, c)
  {
  }

  // The reconciler completes this plan.
  ghost predicate Completes(ledger: Ledger, today: int, plan: Plan) {
    plan.status in {Current, Breached} && NextStatus(ledger, today, plan) == Completed
  }

  // The reconciler marks this plan breached.
  ghost predicate Breaches(ledger: Ledger, today: int, plan: Plan) {
    plan.status == Current && NextStatus(ledger, today, plan) == Breached
  }

  // Resolving cases leaves every payment total as it was.
  ghost predicate SameMoney(a: Ledger, b: Ledger) {
    a.payments == b.payments && a.cases.Keys == b.cases.Keys &&
    forall c :: c in a.cases ==> a.cases[c].invoiceId == b.cases[c].invoiceId
  }

  lemma {:induction false} SameMoneySameStatus(a: Ledger, b: Ledger, today: int, plan: Plan)
    requires SameMoney(a, b)
    ensures NextStatus(a, today, plan) == NextStatus(b, today, plan)
    ensures Completes(a, today, plan) <==> Completes(b, today, plan)
    ensures Breaches(a, today, plan) <==> Breaches(b, today, plan)
  {
    hide DerivePlanState;
  }

  // Two passes the same day, each over its own query result, with no payment between them: the
  // first reports no plan twice, and the second reports none at all and changes nothing.
  lemma {:induction false} SecondPassIsEmpty(ledger: Ledger, later: Ledger, today: int, plans: map<string, Plan>,
                                             ids: seq<string>, ids2: seq<string>)
    requires SameMoney(ledger, later)
    requires OpenQuery(plans, ids) && OpenQuery(Reconciled(ledger, today, plans), ids2)
    ensures
      var completed, breached := CompletedOf(ledger, today, plans, ids), BreachedOf(ledger, today, plans, ids);
      && Unique(completed) && Unique(breached) && (forall id :: !(id in completed && id in breached))
      && (forall id :: id in plans && IsOpen(plans[id]) && NextStatus(ledger, today, plans[id]) != plans[id].status ==>
            id in completed || id in breached)
    ensures
      var after := Reconciled(ledger, today, plans);
      && CompletedOf(later, today, after, ids2) == [] && BreachedOf(later, today, after, ids2) == []
      && Reconciled(later, today, after) == after
  {
    FirstPassReports(ledger, today, plans, ids);
    var after := Reconciled(ledger, today, plans);
    forall id | id in after
      ensures !Completes(later, today, after[id]) && !Breaches(later, today, after[id])
              && NextStatus(later, today, after[id]) == after[id].status
    {
      NextStatusIsStable(ledger, today, plans[id]);
      SameMoneySameStatus(ledger, later, today, after[id]);
      hide DerivePlanState;
    }
    hide NextStatus;
    hide Completes;
    hide Breaches;
    FirstIsIn(CompletedOf(later, today, after, ids2));
    FirstIsIn(BreachedOf(later, today, after, ids2));
  }

  lemma {:induction false} FirstIsIn(ids: seq<string>)
    ensures ids == [] || ids[0] in ids
  {
  }

  lemma {:induction false} FirstPassReports(ledger: Ledger, today: int, plans: map<string, Plan>, ids: seq<string>)
    requires OpenQuery(plans, ids)
    ensures
      var completed, breached := CompletedOf(ledger, today, plans, ids), BreachedOf(ledger, today, plans, ids);
      && Unique(completed) && Unique(breached) && (forall id :: !(id in completed && id in breached))
      && (forall id :: id in plans && IsOpen(plans[id]) && NextStatus(ledger, today, plans[id]) != plans[id].status ==>
            id in completed || id in breached)
  {
    FilterIsUnique(ledger, today, plans, ids);
    hide DerivePlanState;
    hide CompletedOf;
    hide BreachedOf;
  }

  lemma {:induction false} FilterIsUnique(ledger: Ledger, today: int, plans: map<string, Plan>, ids: seq<string>)
    requires Unique(ids)
    ensures Unique(CompletedOf(ledger, today, plans, ids)) && Unique(BreachedOf(ledger, today, plans, ids))
    decreases |ids|
  {
    hide Completes;
    hide Breaches;
    if ids != [] {
      var front, last := ids[..|ids| - 1], ids[|ids| - 1];
      FilterIsUnique(ledger, today, plans, front);
      assert last !in front;
    }
  }
}
