/** Instalment schedules in integer cents and the oldest-first allocation of payments. */
module Installments {
  import opened Extremes

  // `Math.round(total / count)` on cents: halves round up.
  function RoundedShare(total: int, count: int): (r: int)
    requires count >= 1
    ensures -count < 2 * (total - count * r) < count || 2 * (total - count * r) == -count
  {
    var r := (2 * total + count) / (2 * count);
    assert 2 * count * r == 2 * (count * r);
    r
  }

  datatype Installment = Installment(number: nat, dueDate: int, amount: int, paid: bool, paidAmount: int)

  // The schedule: equal amounts, the last absorbing the rounding remainder.
  function Dues(total: int, count: nat, amount: int): (r: seq<int>)
    ensures |r| == count
    decreases count
  {
    if count == 0 then [] else if count == 1 then [total] else [amount] + Dues(total - amount, count - 1, amount)
  }

  // The running-remainder allocation.
  function Allocate(dues: seq<int>, remaining: int): (r: seq<int>)
    ensures |r| == |dues|
  {
    if dues == [] then []
    else
      var paid := Min(dues[0], Max(0, remaining));
      [paid] + Allocate(dues[1..], remaining - paid)
  }

  function Schedule(total: int, count: nat, amount: int, firstDue: int, paymentTotal: int): (r: seq<Installment>)
    ensures |r| == count
  {
    var dues := Dues(total, count, amount);
    var paid := Allocate(dues, paymentTotal);
    seq(count, i requires 0 <= i < count =>
      Installment(i + 1, firstDue + 30 * i, dues[i], paid[i] >= dues[i], paid[i]))
  }

  function Sum(xs: seq<int>): int {
    if xs == [] then 0 else xs[0] + Sum(xs[1..])
  }

  // ---------------------------------------------------------------------------
  // The loop
  // ---------------------------------------------------------------------------

  lemma {:induction false} DueAt(total: int, count: nat, amount: int, i: nat)
    requires i < count
    ensures Dues(total, count, amount)[i] == if i == count - 1 then total - amount * (count - 1) else amount
    decreases count
  {
    if count > 1 && i > 0 {
      DueAt(total - amount, count - 1, amount, i - 1);
      assert amount * (count - 1) == amount + amount * (count - 2);
    }
  }

  lemma {:induction false} AllocateAt(dues: seq<int>, remaining: int, i: nat)
    requires i < |dues|
    ensures Allocate(dues, remaining)[i] == Allocate(dues[i..], remaining - Sum(Allocate(dues, remaining)[..i]))[0]
  {
    hide Min;
    hide Max;
    var paid := Allocate(dues, remaining);
    if i == 0 {
      assert dues[0..] == dues && paid[..0] == [] && Sum([]) == 0;
    } else {
      var rest := Allocate(dues[1..], remaining - paid[0]);
      assert paid == [paid[0]] + rest;
      hide Allocate;
      AllocateAt(dues[1..], remaining - paid[0], i - 1);
      assert dues[1..][i - 1..] == dues[i..];
      assert paid[..i][0] == paid[0] && paid[..i][1..] == rest[..i - 1];
      assert Sum(paid[..i]) == paid[0] + Sum(rest[..i - 1]);
    }
  }

  lemma {:induction false} SumPush(xs: seq<int>, x: int)
    ensures Sum(xs + [x]) == Sum(xs) + x
  {
    if xs == [] {
      assert xs + [x] == [x] && Sum([x]) == x + Sum([]);
    } else {
      SumPush(xs[1..], x);
      assert (xs + [x])[1..] == xs[1..] + [x];
    }
  }

  method BuildPaymentPlanInstallments(total: int, count: nat, amount: int, firstDue: int, paymentTotal: int)
    returns (installments: seq<Installment>)
    ensures installments == Schedule(total, count, amount, firstDue, paymentTotal)
    ensures |installments| == count
    ensures forall i :: 0 <= i < count ==>
      && installments[i].number == i + 1 && installments[i].dueDate == firstDue + 30 * i
      && installments[i].amount == (if i + 1 < count then amount else total - amount * (count - 1))
      && (installments[i].paid <==> installments[i].paidAmount >= installments[i].amount)
  {
    installments := [];
    var remainingPaid := paymentTotal;
    ghost var dues := Dues(total, count, amount);
    ghost var paid := Allocate(dues, paymentTotal);
    ghost var expected := Schedule(total, count, amount, firstDue, paymentTotal);
    assert paid[..0] == [];
    for i := 0 to count
      invariant |installments| == i
      invariant forall j :: 0 <= j < i ==>
        && installments[j] == expected[j]
        && installments[j].number == j + 1 && installments[j].dueDate == firstDue + 30 * j
        && installments[j].amount == (if j + 1 < count then amount else total - amount * (count - 1))
        && (installments[j].paid <==> installments[j].paidAmount >= installments[j].amount)
      invariant remainingPaid == paymentTotal - Sum(paid[..i])
    {
      DueAt(total, count, amount, i);
      AllocateAt(dues, paymentTotal, i);
      var dueAmount := if i == count - 1 then total - amount * (count - 1) else amount;
      assert dues[i..][0] == dueAmount;
      var paidAmount := Min(dueAmount, Max(0, remainingPaid));
      installments := installments +
        [Installment(i + 1, firstDue + i * 30, dueAmount, paidAmount >= dueAmount, paidAmount)];
      remainingPaid := remainingPaid - paidAmount;
      SumPush(paid[..i], paidAmount);
      assert paid[..i + 1] == paid[..i] + [paidAmount];
    }
  }

  // ---------------------------------------------------------------------------
  // The allocation
  // ---------------------------------------------------------------------------

  // The dues add up to the plan total for every count, whatever the rounded amount.
  lemma {:induction false} DuesSumToTotal(total: int, count: nat, amount: int)
    requires count >= 1
    ensures Sum(Dues(total, count, amount)) == total
    decreases count
  {
    if count == 1 {
      assert Sum([total]) == total + Sum([]);
    } else {
      DuesSumToTotal(total - amount, count - 1, amount);
      assert Dues(total, count, amount)[1..] == Dues(total - amount, count - 1, amount);
    }
  }

  // The loop equals the closed form: each instalment gets what is left after the earlier dues.
  lemma {:induction false} AllocationClosedForm(dues: seq<int>, payments: int, i: nat)
    requires i < |dues| && forall j :: 0 <= j < i ==> dues[j] >= 0
    ensures Allocate(dues, payments)[i] == Min(dues[i], Max(0, payments - Sum(dues[..i])))
  {
    if i == 0 {
      assert dues[..0] == [];
    } else {
      var paid := Min(dues[0], Max(0, payments));
      AllocationClosedForm(dues[1..], payments - paid, i - 1);
      assert dues[..i][1..] == dues[1..][..i - 1];
      SumIsNatural(dues[1..][..i - 1]);
    }
  }

  lemma {:induction false} SumIsNatural(xs: seq<int>)
    requires forall j :: 0 <= j < |xs| ==> xs[j] >= 0
    ensures Sum(xs) >= 0
  {
    if xs != [] {
      SumIsNatural(xs[1..]);
    }
  }

  // Nothing is lost or invented: the allocations add up to the payments, capped by the total.
  lemma {:induction false} AllocationConserves(dues: seq<int>, payments: int)
    requires forall j :: 0 <= j < |dues| ==> dues[j] >= 0
    ensures Sum(Allocate(dues, payments)) == Min(Max(0, payments), Sum(dues))
  {
    SumIsNatural(dues);
    if dues != [] {
      var paid := Min(dues[0], Max(0, payments));
      AllocationConserves(dues[1..], payments - paid);
      SumIsNatural(dues[1..]);
      assert Allocate(dues, payments)[1..] == Allocate(dues[1..], payments - paid);
    }
  }

  // More payments never reduce any instalment's share, for any schedule.
  lemma {:induction false} AllocationIsMonotone(dues: seq<int>, less: int, more: int, i: nat)
    requires less <= more && i < |dues|
    ensures Allocate(dues, less)[i] <= Allocate(dues, more)[i]
  {
    if i > 0 {
      AllocationIsMonotone(dues[1..], less - Min(dues[0], Max(0, less)), more - Min(dues[0], Max(0, more)), i - 1);
    }
  }

  // What all but the last instalment come to.
  function EqualPart(count: nat, amount: int): int {
    amount * (count - 1)
  }

  lemma {:induction false} EqualPartStep(count: nat, amount: int)
    requires count >= 1 && amount >= 0
    ensures EqualPart(count, amount) >= 0 && (EqualPart(count, amount) > 0 <==> count >= 2 && amount > 0)
    ensures count >= 2 ==> EqualPart(count, amount) == amount + EqualPart(count - 1, amount)
  {
  }

  lemma {:induction false} ScheduleAllocation(total: int, count: nat, amount: int, payments: int)
    requires count >= 1 && amount >= 0 && payments >= 0
    ensures
      var equal := EqualPart(count, amount);
      Sum(Allocate(Dues(total, count, amount), payments)) ==
      Min(payments, equal) + Min(total - equal, Max(0, payments - equal))
    decreases count
  {
    EqualPartStep(count, amount);
    if count == 1 {
      assert Sum(Allocate([total], payments)) == Min(total, Max(0, payments)) + Sum([]);
    } else {
      EqualPartStep(count - 1, amount);
      hide EqualPart;
      var paid := Min(amount, payments);
      var dues := Dues(total, count, amount);
      assert dues[0] == amount && dues[1..] == Dues(total - amount, count - 1, amount);
      hide Dues;
      var rest := Allocate(dues[1..], payments - paid);
      assert Allocate(dues, payments) == [paid] + rest;
      hide Allocate;
      assert ([paid] + rest)[1..] == rest;
      assert Sum([paid] + rest) == paid + Sum(rest);
      hide Sum;
      ScheduleAllocation(total - amount, count - 1, amount, payments - paid);
    }
  }

  // With many tiny instalments the last due is negative, and the allocations then miss the
  // payments exactly while the equal instalments are not yet covered.
  lemma {:induction false} ScheduleConservesIff(total: int, count: nat, amount: int, payments: int)
    requires count >= 1 && amount >= 0 && payments >= 0
    ensures
      var equal := EqualPart(count, amount);
      var handedOut := Sum(Allocate(Dues(total, count, amount), payments));
      handedOut == Min(payments, total) <==> total - equal >= 0 || payments >= equal
  {
    ScheduleAllocation(total, count, amount, payments);
    EqualPartStep(count, amount);
    hide EqualPart;
  }

  // Five cents over ten instalments: nine times one cent, then minus four.
  lemma {:induction false} LastInstallmentCanBeNegative()
    ensures RoundedShare(5, 10) == 1 && Dues(5, 10, 1)[9] == -4
  {
    DueAt(5, 10, 1, 9);
  }

  // ---------------------------------------------------------------------------
  // Fully paid
  // ---------------------------------------------------------------------------

  ghost predicate AllPaid(dues: seq<int>, payments: int) {
    forall i :: 0 <= i < |dues| ==> Allocate(dues, payments)[i] >= dues[i]
  }

  lemma {:induction false} AllPaidCons(dues: seq<int>, payments: int)
    requires dues != []
    ensures AllPaid(dues, payments) <==>
      dues[0] <= Max(0, payments) && AllPaid(dues[1..], payments - dues[0])
  {
    var paid := Allocate(dues, payments);
    var first := Min(dues[0], Max(0, payments));
    if dues[0] <= Max(0, payments) {
      assert paid[1..] == Allocate(dues[1..], payments - dues[0]);
      if AllPaid(dues[1..], payments - dues[0]) {
        forall i | 0 <= i < |dues| ensures paid[i] >= dues[i] {
          if i > 0 {
            assert paid[i] == paid[1..][i - 1] && dues[i] == dues[1..][i - 1];
          }
        }
      }
      if AllPaid(dues, payments) {
        forall i | 0 <= i < |dues[1..]| ensures Allocate(dues[1..], payments - dues[0])[i] >= dues[1..][i] {
          assert paid[i + 1] >= dues[i + 1];
        }
      }
    } else {
      assert paid[0] < dues[0];
    }
  }

  // Every instalment reads "paid" exactly when the payments cover both the plan total and the
  // equal instalments; the second bites only when the last instalment is negative.
  lemma {:induction false} AllPaidIff(total: int, count: nat, amount: int, payments: int)
    requires count >= 1 && amount >= 0
    ensures
      var equal := EqualPart(count, amount);
      AllPaid(Dues(total, count, amount), payments) <==>
      (equal > 0 ==> payments >= equal) && (total > equal ==> payments >= total)
    decreases count
  {
    hide AllPaid;
    var dues := Dues(total, count, amount);
    AllPaidCons(dues, payments);
    EqualPartStep(count, amount);
    if count == 1 {
      NothingToPay(payments - total);
      assert dues[1..] == [];
    } else {
      EqualPartStep(count - 1, amount);
      assert dues[1..] == Dues(total - amount, count - 1, amount);
      AllPaidIff(total - amount, count - 1, amount, payments - amount);
      hide EqualPart;
    }
  }

  lemma {:induction false} NothingToPay(payments: int)
    ensures AllPaid([], payments)
  {
  }

  function CountPaid(installments: seq<Installment>): nat {
    if installments == [] then 0 else (if installments[0].paid then 1 else 0) + CountPaid(installments[1..])
  }

  lemma {:induction false} CountPaidBound(installments: seq<Installment>)
    ensures CountPaid(installments) <= |installments|
    ensures CountPaid(installments) == |installments| <==> forall i :: 0 <= i < |installments| ==> installments[i].paid
  {
    if installments != [] {
      CountPaidBound(installments[1..]);
      assert forall i :: 0 < i < |installments| ==> installments[i] == installments[1..][i - 1];
    }
  }

  // `derivePlanState`'s verdict.
  predicate FullyPaid(total: int, count: nat, amount: int, firstDue: int, payments: int) {
    payments >= total || CountPaid(Schedule(total, count, amount, firstDue, payments)) >= count
  }

  lemma {:induction false} CountPaidIsAllPaid(total: int, count: nat, amount: int, firstDue: int, payments: int)
    ensures CountPaid(Schedule(total, count, amount, firstDue, payments)) >= count <==>
      AllPaid(Dues(total, count, amount), payments)
  {
    hide Dues;
    hide Allocate;
    var schedule := Schedule(total, count, amount, firstDue, payments);
    CountPaidBound(schedule);
    assert forall i :: 0 <= i < count ==>
      (schedule[i].paid <==> Allocate(Dues(total, count, amount), payments)[i] >= Dues(total, count, amount)[i]);
  }

  lemma {:induction false} RoundedShareIsNatural(total: int, count: int)
    requires count >= 1 && total >= 0
    ensures RoundedShare(total, count) >= 0
  {
  }

  // Counting paid instalments never calls a plan paid before the money is in, negative last
  // instalment or not, so the completion guard cannot trip.
  lemma {:induction false} FullyPaidIffCovered(total: int, count: nat, firstDue: int, payments: int)
    requires count >= 1 && total > 0
    ensures FullyPaid(total, count, RoundedShare(total, count), firstDue, payments) <==> payments >= total
  {
    var amount := RoundedShare(total, count);
    RoundedShareIsNatural(total, count);
    CountPaidIsAllPaid(total, count, amount, firstDue, payments);
    hide Schedule;
    hide RoundedShare;
    AllPaidIff(total, count, amount, payments);
    EqualPartStep(count, amount);
  }
}
