/** The sliding-window limiter of the embedding query path, under every interleaving of queries. */
module RateLimiter {
  import opened Strings

  // ---------------------------------------------------------------------------
  // Window arithmetic
  // ---------------------------------------------------------------------------

  function After(log: seq<int>, start: int): seq<int> {
    if log == [] then []
    else (if log[0] > start then [log[0]] else []) + After(log[1..], start)
  }

  // Entries in the half-open window of the given length that ends at `end`.
  function CountIn(log: seq<int>, end: int, length: int): nat {
    if log == [] then 0
    else (if end - length < log[0] <= end then 1 else 0) + CountIn(log[1..], end, length)
  }

  function CeilDiv(a: int, b: int): int
    requires b > 0
  {
    -((-a) / b)
  }

  lemma {:induction false} AfterAppend(a: seq<int>, b: seq<int>, start: int)
    ensures After(a + b, start) == After(a, start) + After(b, start)
  {
    if a == [] {
      assert a + b == b;
    } else {
      AfterAppend(a[1..], b, start);
      assert (a + b)[1..] == a[1..] + b && (a + b)[0] == a[0];
      Regroup(if a[0] > start then [a[0]] else [], After(a[1..], start), After(b, start));
    }
  }

  lemma {:induction false} AfterTwice(log: seq<int>, p: int, q: int)
    requires p <= q
    ensures After(After(log, p), q) == After(log, q)
  {
    if log != [] {
      AfterTwice(log[1..], p, q);
      AfterAppend(if log[0] > p then [log[0]] else [], After(log[1..], p), q);
    }
  }

  lemma {:induction false} AfterShrinks(log: seq<int>, p: int, q: int)
    requires p <= q
    ensures |After(log, q)| <= |After(log, p)| <= |log|
  {
    if log != [] {
      AfterShrinks(log[1..], p, q);
    }
  }

  lemma {:induction false} CountAppend(a: seq<int>, b: seq<int>, end: int, length: int)
    ensures CountIn(a + b, end, length) == CountIn(a, end, length) + CountIn(b, end, length)
  {
    if a == [] {
      assert a + b == b;
    } else {
      CountAppend(a[1..], b, end, length);
      assert (a + b)[1..] == a[1..] + b;
    }
  }

  lemma {:induction false} CountAtMostAfter(log: seq<int>, end: int, length: int, start: int)
    requires start <= end - length
    ensures CountIn(log, end, length) <= |After(log, start)|
  {
    if log != [] {
      CountAtMostAfter(log[1..], end, length, start);
    }
  }

  // ---------------------------------------------------------------------------
  // The limiter
  // ---------------------------------------------------------------------------

  datatype Config = Config(windowMs: int, maxRequests: int)

  datatype CheckResult = CheckResult(allowed: bool, limit: int, remaining: int, resetAt: int)

  function Recent(store: map<string, seq<int>>, key: string): seq<int> {
    if key in store then store[key] else []
  }

  function CheckAt(cfg: Config, stamps: seq<int>, now: int): CheckResult {
    var live := After(stamps, now - cfg.windowMs);
    var allowed := |live| < cfg.maxRequests;
    var spare := cfg.maxRequests - |live| - (if allowed then 1 else 0);
    var oldest := if live == [] then now else live[0];
    CheckResult(allowed, cfg.maxRequests, if spare > 0 then spare else 0, CeilDiv(oldest + cfg.windowMs, 1000))
  }

  function ConsumeAt(cfg: Config, stamps: seq<int>, now: int): seq<int> {
    After(stamps, now - cfg.windowMs) + [now]
  }

  // The requests strictly younger than the window.
  ghost function LiveIndices(stamps: seq<int>, start: int): set<int> {
    set i | 0 <= i < |stamps| && stamps[i] > start
  }

  // `s` is the number of seconds in `ms`, rounded up.
  predicate WholeSeconds(s: int, ms: int) {
    1000 * (s - 1) < ms <= 1000 * s
  }

  // What a result tells: who may go on, how many more may follow, and when the oldest live
  // request leaves the window.
  ghost predicate Tells(cfg: Config, stamps: seq<int>, now: int, r: CheckResult) {
    var live := LiveIndices(stamps, now - cfg.windowMs);
    && r.limit == cfg.maxRequests
    && (r.allowed <==> |live| < cfg.maxRequests)
    && (r.allowed ==> |live| + 1 + r.remaining == cfg.maxRequests)
    && (!r.allowed ==> r.remaining == 0)
    && (live == {} ==> WholeSeconds(r.resetAt, now + cfg.windowMs))
    && forall i :: i in live && (forall j :: j in live ==> i <= j) ==>
         WholeSeconds(r.resetAt, stamps[i] + cfg.windowMs)
  }

  lemma {:induction false} AfterCountsLive(stamps: seq<int>, start: int)
    ensures |After(stamps, start)| == |LiveIndices(stamps, start)|
    ensures forall i :: i in LiveIndices(stamps, start) && (forall j :: j in LiveIndices(stamps, start) ==> i <= j) ==>
      After(stamps, start) != [] && After(stamps, start)[0] == stamps[i]
  {
    if stamps != [] {
      var n := |stamps| - 1;
      var front, last := stamps[..n], stamps[n];
      assert stamps == front + [last];
      AfterAppend(front, [last], start);
      AfterOne(last, start);
      AfterCountsLive(front, start);
      var x, y := LiveIndices(front, start), LiveIndices(stamps, start);
      assert y == x + (if last > start then {n} else {});
      assert n !in x;
      if x == {} {
        assert After(front, start) == [];
      }
      hide After;
      forall i | i in y && (forall j :: j in y ==> i <= j)
        ensures After(stamps, start) != [] && After(stamps, start)[0] == stamps[i]
      {
        if x != {} {
          var k :| k in x;
          assert i <= k < n && i in x;
        }
      }
    }
  }

  lemma {:induction false} AfterOne(x: int, start: int)
    ensures After([x], start) == if x > start then [x] else []
  {
  }

  lemma {:induction false} CheckTells(cfg: Config, stamps: seq<int>, now: int)
    ensures Tells(cfg, stamps, now, CheckAt(cfg, stamps, now))
  {
    AfterCountsLive(stamps, now - cfg.windowMs);
    hide After;
    hide LiveIndices;
  }

  class EmbeddingRateLimiter {
    const cfg: Config
    var store: map<string, seq<int>>

    constructor (windowMs: int, maxRequests: int)
      ensures cfg == Config(windowMs, maxRequests) && store == map[]
    {
      cfg := Config(windowMs, maxRequests);
      store := map[];
    }

    method Check(key: string, now: int) returns (r: CheckResult)
      ensures r == CheckAt(cfg, Recent(store, key), now)
      ensures Tells(cfg, if key in store then store[key] else [], now, r)
    {
      CheckTells(cfg, Recent(store, key), now);
      hide Tells;
      var windowStart := now - cfg.windowMs;
      var timestamps := After(if key in store then store[key] else [], windowStart);
      var count := |timestamps|;
      var allowed := count < cfg.maxRequests;
      var remaining := cfg.maxRequests - count;
      if allowed {
        remaining := remaining - 1;
      }
      if remaining < 0 {
        remaining := 0;
      }
      var oldest := now;
      if count > 0 {
        oldest := timestamps[0];
      }
      r := CheckResult(allowed, cfg.maxRequests, remaining, CeilDiv(oldest + cfg.windowMs, 1000));
    }

    method Consume(key: string, now: int)
      modifies this
      ensures store == old(store)[key := ConsumeAt(cfg, Recent(old(store), key), now)]
    {
      var windowStart := now - cfg.windowMs;
      var timestamps := After(if key in store then store[key] else [], windowStart);
      timestamps := timestamps + [now];
      store := store[key := timestamps];
    }

    method Reset()
      modifies this
      ensures store == map[]
    {
      store := map[];
    }
  }

  lemma {:induction false} CeilDivBound(a: int, b: int)
    requires b > 0
    ensures b * CeilDiv(a, b) >= a
  {
  }

  // A refused caller that waits until `resetAt` finds at least one slot fewer taken.
  lemma {:induction false} ResetFreesASlot(cfg: Config, stamps: seq<int>, now: int, later: int)
    requires After(stamps, now - cfg.windowMs) != []
    requires later >= now && later >= 1000 * CheckAt(cfg, stamps, now).resetAt
    ensures |After(stamps, later - cfg.windowMs)| < |After(stamps, now - cfg.windowMs)|
  {
    hide CeilDiv;
    var live := After(stamps, now - cfg.windowMs);
    CeilDivBound(live[0] + cfg.windowMs, 1000);
    AfterTwice(stamps, now - cfg.windowMs, later - cfg.windowMs);
    AfterShrinks(live[1..], later - cfg.windowMs, later - cfg.windowMs);
  }

  // ---------------------------------------------------------------------------
  // Queries in flight
  // ---------------------------------------------------------------------------

  // Per tenant: the limiter's pruned list, the full history of consumed requests, and how many
  // queries wait for their audit write, for `consume`, and for the similarity read.
  datatype Tenant = Tenant(store: seq<int>, log: seq<int>, admitted: nat, audited: nat, ready: nat,
                           audits: nat, served: nat)

  datatype State = State(now: int, tenants: map<string, Tenant>)

  datatype Step =
    | Tick(ms: nat)
    | Admit(tenant: string)
    | AuditWritten(tenant: string)
    | AuditFailed(tenant: string)
    | Consumed(tenant: string)
    | RowsRead(tenant: string)

  const IDLE := Tenant([], [], 0, 0, 0, 0, 0)

  function Of(s: State, tenant: string): Tenant {
    if tenant in s.tenants then s.tenants[tenant] else IDLE
  }

  function TenantStep(cfg: Config, t: Tenant, now: int, step: Step): Tenant {
    match step
    case Tick(_) => t
    case Admit(_) =>
      if CheckAt(cfg, t.store, now).allowed then t.(admitted := t.admitted + 1) else t
    case AuditWritten(_) =>
      if t.admitted == 0 then t
      else t.(admitted := t.admitted - 1, audited := t.audited + 1, audits := t.audits + 1)
    case AuditFailed(_) =>
      if t.admitted == 0 then t else t.(admitted := t.admitted - 1)
    case Consumed(_) =>
      if t.audited == 0 then t
      else t.(audited := t.audited - 1, ready := t.ready + 1,
              store := ConsumeAt(cfg, t.store, now), log := t.log + [now])
    case RowsRead(_) =>
      if t.ready == 0 then t else t.(ready := t.ready - 1, served := t.served + 1)
  }

  // A step that is not enabled changes nothing.
  function Apply(cfg: Config, s: State, step: Step): State {
    if step.Tick? then s.(now := s.now + step.ms)
    else s.(tenants := s.tenants[step.tenant := TenantStep(cfg, Of(s, step.tenant), s.now, step)])
  }

  function Run(cfg: Config, s: State, steps: seq<Step>): State
    decreases |steps|
  {
    if steps == [] then s else Run(cfg, Apply(cfg, s, steps[0]), steps[1..])
  }

  function InFlight(t: Tenant): nat {
    t.admitted + t.audited
  }

  ghost predicate AtMostInFlight(cfg: Config, s: State, steps: seq<Step>, tenant: string, k: nat)
    decreases |steps|
  {
    InFlight(Of(s, tenant)) <= k &&
    (steps == [] || AtMostInFlight(cfg, Apply(cfg, s, steps[0]), steps[1..], tenant, k))
  }

  function Bound(cfg: Config, k: nat): int {
    if cfg.maxRequests <= 0 then 0 else cfg.maxRequests + k - 1
  }

  ghost predicate Limited(cfg: Config, t: Tenant, now: int, k: nat) {
    && PruningIsInvisible(cfg, t, now)
    && |After(t.log, now - cfg.windowMs)| + InFlight(t) <= Bound(cfg, k)
    && forall x :: CountIn(t.log, x, cfg.windowMs) <= Bound(cfg, k)
  }

  ghost predicate Accounted(cfg: Config, t: Tenant, now: int) {
    && PruningIsInvisible(cfg, t, now)
    && t.ready + t.served == |t.log| && t.audits == |t.log| + t.audited
  }

  // Now and at any later time, the pruned list and the full history hold the same recent entries.
  ghost predicate PruningIsInvisible(cfg: Config, t: Tenant, now: int) {
    forall q :: q >= now - cfg.windowMs ==> After(t.store, q) == After(t.log, q)
  }

  lemma {:induction false} ConsumeKeepsPruning(cfg: Config, t: Tenant, now: int)
    requires PruningIsInvisible(cfg, t, now)
    ensures PruningIsInvisible(cfg, t.(store := ConsumeAt(cfg, t.store, now), log := t.log + [now]), now)
  {
    forall q | q >= now - cfg.windowMs
      ensures After(ConsumeAt(cfg, t.store, now), q) == After(t.log + [now], q)
    {
      AfterAppend(After(t.store, now - cfg.windowMs), [now], q);
      AfterTwice(t.store, now - cfg.windowMs, q);
      AfterAppend(t.log, [now], q);
    }
  }

  lemma {:induction false} ConsumeKeepsWindows(cfg: Config, log: seq<int>, now: int, bound: int)
    requires forall x :: CountIn(log, x, cfg.windowMs) <= bound
    requires |After(log + [now], now - cfg.windowMs)| <= bound
    ensures forall x :: CountIn(log + [now], x, cfg.windowMs) <= bound
  {
    forall x ensures CountIn(log + [now], x, cfg.windowMs) <= bound {
      CountAppend(log, [now], x, cfg.windowMs);
      if x >= now {
        CountAtMostAfter(log + [now], x, cfg.windowMs, now - cfg.windowMs);
      }
    }
  }

  lemma {:induction false} ConsumedKeepsLimit(cfg: Config, t: Tenant, now: int, k: nat, step: Step)
    requires Limited(cfg, t, now, k) && t.audited > 0 && step.Consumed?
    ensures Limited(cfg, TenantStep(cfg, t, now, step), now, k)
  {
    AfterAppend(t.log, [now], now - cfg.windowMs);
    ConsumeKeepsPruning(cfg, t, now);
    ConsumeKeepsWindows(cfg, t.log, now, Bound(cfg, k));
  }

  lemma {:induction false} TenantStepKeepsLimit(cfg: Config, t: Tenant, now: int, step: Step, k: nat)
    requires Limited(cfg, t, now, k) && InFlight(TenantStep(cfg, t, now, step)) <= k
    ensures Limited(cfg, TenantStep(cfg, t, now, step), now, k)
  {
    hide CeilDiv;
    match step
    case Consumed(_) =>
      if t.audited > 0 {
        ConsumedKeepsLimit(cfg, t, now, k, step);
      }
    case Admit(_) =>
      assert After(t.store, now - cfg.windowMs) == After(t.log, now - cfg.windowMs);
    case _ =>
  }

  lemma {:induction false} StepKeepsLimit(cfg: Config, s: State, step: Step, tenant: string, k: nat)
    requires Limited(cfg, Of(s, tenant), s.now, k)
    requires InFlight(Of(Apply(cfg, s, step), tenant)) <= k
    ensures Limited(cfg, Of(Apply(cfg, s, step), tenant), Apply(cfg, s, step).now, k)
  {
    hide TenantStep;
    var t := Of(s, tenant);
    if step.Tick? {
      AfterShrinks(t.log, s.now - cfg.windowMs, s.now + step.ms - cfg.windowMs);
    } else if step.tenant == tenant {
      TenantStepKeepsLimit(cfg, t, s.now, step, k);
    }
  }

  lemma {:induction false} RunKeepsLimit(cfg: Config, s: State, steps: seq<Step>, tenant: string, k: nat)
    requires Limited(cfg, Of(s, tenant), s.now, k) && AtMostInFlight(cfg, s, steps, tenant, k)
    ensures Limited(cfg, Of(Run(cfg, s, steps), tenant), Run(cfg, s, steps).now, k)
    decreases |steps|
  {
    if steps != [] {
      var next := Apply(cfg, s, steps[0]);
      assert AtMostInFlight(cfg, next, steps[1..], tenant, k);
      StepKeepsLimit(cfg, s, steps[0], tenant, k);
      RunKeepsLimit(cfg, next, steps[1..], tenant, k);
    }
  }

  lemma {:induction false} StepKeepsAccounts(cfg: Config, t: Tenant, now: int, step: Step)
    requires Accounted(cfg, t, now)
    ensures Accounted(cfg, TenantStep(cfg, t, now, step), now)
  {
    hide CheckAt;
    hide ConsumeAt;
    ConsumeKeepsPruning(cfg, t, now);
  }

  lemma {:induction false} RunKeepsAccounts(cfg: Config, s: State, steps: seq<Step>, tenant: string)
    requires Accounted(cfg, Of(s, tenant), s.now)
    ensures Accounted(cfg, Of(Run(cfg, s, steps), tenant), Run(cfg, s, steps).now)
    decreases |steps|
  {
    hide TenantStep;
    if steps != [] {
      StepKeepsAccounts(cfg, Of(s, tenant), s.now, steps[0]);
      RunKeepsAccounts(cfg, Apply(cfg, s, steps[0]), steps[1..], tenant);
    }
  }

  function Start(now: int): State {
    State(now, map[])
  }

  lemma {:induction false} BoundIsNatural(cfg: Config, k: nat)
    ensures Bound(cfg, k) >= 0
  {
  }

  lemma {:induction false} StartIsLimited(cfg: Config, now: int, tenant: string, k: nat)
    ensures Limited(cfg, Of(Start(now), tenant), now, k)
  {
    BoundIsNatural(cfg, k);
    hide After;
    hide CountIn;
    hide Bound;
    EmptyWindow(now - cfg.windowMs, now, cfg.windowMs);
    forall x ensures CountIn([], x, cfg.windowMs) == 0 {
      EmptyWindow(now, x, cfg.windowMs);
    }
  }

  lemma {:induction false} EmptyWindow(start: int, end: int, length: int)
    ensures After([], start) == [] && CountIn([], end, length) == 0
  {
  }

  // In every interleaving with at most k queries of the tenant between check and consume, no
  // window of the configured length holds more than maxRequests + k - 1 consumed requests.
  lemma {:induction false} WindowBound(cfg: Config, now: int, steps: seq<Step>, tenant: string, k: nat, end: int)
    requires AtMostInFlight(cfg, Start(now), steps, tenant, k)
    ensures CountIn(Of(Run(cfg, Start(now), steps), tenant).log, end, cfg.windowMs) <= Bound(cfg, k)
  {
    StartIsLimited(cfg, now, tenant, k);
    hide AtMostInFlight;
    hide Run;
    RunKeepsLimit(cfg, Start(now), steps, tenant, k);
  }

  // The limiter answers from its pruned list exactly as it would from the full history.
  lemma {:induction false} PrunedCheckIsExact(cfg: Config, now: int, steps: seq<Step>, tenant: string, later: int)
    requires later >= Run(cfg, Start(now), steps).now
    ensures
      var t := Of(Run(cfg, Start(now), steps), tenant);
      CheckAt(cfg, t.store, later) == CheckAt(cfg, t.log, later)
  {
    RunKeepsAccounts(cfg, Start(now), steps, tenant);
  }

  // Rows are read only after an audit event was written for the query.
  lemma {:induction false} AuditBeforeRead(cfg: Config, now: int, steps: seq<Step>, tenant: string)
    ensures
      var t := Of(Run(cfg, Start(now), steps), tenant);
      t.served <= |t.log| <= t.audits
  {
    RunKeepsAccounts(cfg, Start(now), steps, tenant);
  }

  // ---------------------------------------------------------------------------
  // The bound is reached
  // ---------------------------------------------------------------------------

  function Repeat(step: Step, n: nat): seq<Step> {
    if n == 0 then [] else [step] + Repeat(step, n - 1)
  }

  // maxRequests - 1 queries one after the other, then k that overlap.
  function Overlapping(tenant: string, sequential: nat, k: nat): seq<Step> {
    if sequential == 0 then Repeat(Admit(tenant), k) + Repeat(AuditWritten(tenant), k) + Repeat(Consumed(tenant), k)
    else [Admit(tenant), AuditWritten(tenant), Consumed(tenant)] + Overlapping(tenant, sequential - 1, k)
  }

  lemma {:induction false} RepeatOnce(step: Step)
    ensures Repeat(step, 1) == [step]
  {
    assert Repeat(step, 0) == [];
  }

  // Everything consumed so far was consumed at the current instant.
  ghost predicate Burst(s: State, tenant: string, consumed: nat, admitted: nat, audited: nat) {
    var t := Of(s, tenant);
    && t.store == t.log && |t.log| == consumed && t.admitted == admitted && t.audited == audited
    && forall i :: 0 <= i < |t.log| ==> t.log[i] == s.now
  }

  lemma {:induction false} AllInWindow(log: seq<int>, now: int, length: int)
    requires length > 0 && forall i :: 0 <= i < |log| ==> log[i] == now
    ensures After(log, now - length) == log && CountIn(log, now, length) == |log|
  {
    if log != [] {
      AllInWindow(log[1..], now, length);
    }
  }

  lemma {:induction false} RunAppend(cfg: Config, s: State, a: seq<Step>, b: seq<Step>, tenant: string, k: nat)
    requires AtMostInFlight(cfg, s, a, tenant, k) && AtMostInFlight(cfg, Run(cfg, s, a), b, tenant, k)
    ensures Run(cfg, s, a + b) == Run(cfg, Run(cfg, s, a), b)
    ensures AtMostInFlight(cfg, s, a + b, tenant, k)
    decreases |a|
  {
    hide Apply;
    hide InFlight;
    if a == [] {
      assert a + b == b;
    } else {
      RunAppend(cfg, Apply(cfg, s, a[0]), a[1..], b, tenant, k);
      assert (a + b)[1..] == a[1..] + b;
    }
  }

  lemma {:induction false} BurstInFlight(s: State, tenant: string, c: nat, a: nat, d: nat)
    requires Burst(s, tenant, c, a, d)
    ensures InFlight(Of(s, tenant)) == a + d
  {
  }

  lemma {:induction false} AdmitOne(cfg: Config, s: State, tenant: string, c: nat, a: nat)
    requires cfg.windowMs > 0 && c < cfg.maxRequests && Burst(s, tenant, c, a, 0)
    ensures Burst(Apply(cfg, s, Admit(tenant)), tenant, c, a + 1, 0) && Apply(cfg, s, Admit(tenant)).now == s.now
  {
    AllInWindow(Of(s, tenant).log, s.now, cfg.windowMs);
  }

  lemma {:induction false} ConsumeOne(cfg: Config, s: State, tenant: string, c: nat, d: nat)
    requires cfg.windowMs > 0 && d > 0 && Burst(s, tenant, c, 0, d)
    ensures Burst(Apply(cfg, s, Consumed(tenant)), tenant, c + 1, 0, d - 1) &&
      Apply(cfg, s, Consumed(tenant)).now == s.now
  {
    AllInWindow(Of(s, tenant).log, s.now, cfg.windowMs);
  }

  lemma {:induction false} AuditOne(cfg: Config, s: State, tenant: string, c: nat, a: nat, d: nat)
    requires a > 0 && Burst(s, tenant, c, a, d)
    ensures Burst(Apply(cfg, s, AuditWritten(tenant)), tenant, c, a - 1, d + 1) &&
      Apply(cfg, s, AuditWritten(tenant)).now == s.now
  {
  }

  lemma {:induction false} RepeatStep(cfg: Config, s: State, step: Step, n: nat, tenant: string, k: nat)
    ensures n == 0 ==>
      Run(cfg, s, Repeat(step, n)) == s &&
      (AtMostInFlight(cfg, s, Repeat(step, n), tenant, k) <==> InFlight(Of(s, tenant)) <= k)
    ensures n > 0 ==>
      var next := Apply(cfg, s, step);
      Run(cfg, s, Repeat(step, n)) == Run(cfg, next, Repeat(step, n - 1)) &&
      (AtMostInFlight(cfg, s, Repeat(step, n), tenant, k) <==>
       InFlight(Of(s, tenant)) <= k && AtMostInFlight(cfg, next, Repeat(step, n - 1), tenant, k))
  {
    hide Apply;
    hide InFlight;
    var steps := Repeat(step, n);
    if n > 0 {
      assert steps[0] == step && steps[1..] == Repeat(step, n - 1);
      hide Repeat;
    }
  }

  lemma {:induction false} AdmitPhase(cfg: Config, s: State, tenant: string, c: nat, a: nat, n: nat, k: nat)
    requires cfg.windowMs > 0 && c < cfg.maxRequests && a + n <= k && Burst(s, tenant, c, a, 0)
    ensures Burst(Run(cfg, s, Repeat(Admit(tenant), n)), tenant, c, a + n, 0)
    ensures AtMostInFlight(cfg, s, Repeat(Admit(tenant), n), tenant, k)
    ensures Run(cfg, s, Repeat(Admit(tenant), n)).now == s.now
    decreases n
  {
    hide *;
    RepeatStep(cfg, s, Admit(tenant), n, tenant, k);
    BurstInFlight(s, tenant, c, a, 0);
    if n > 0 {
      AdmitOne(cfg, s, tenant, c, a);
      AdmitPhase(cfg, Apply(cfg, s, Admit(tenant)), tenant, c, a + 1, n - 1, k);
    }
  }

  lemma {:induction false} AuditPhase(cfg: Config, s: State, tenant: string, c: nat, a: nat, d: nat, n: nat, k: nat)
    requires n <= a && a + d <= k && Burst(s, tenant, c, a, d)
    ensures Burst(Run(cfg, s, Repeat(AuditWritten(tenant), n)), tenant, c, a - n, d + n)
    ensures AtMostInFlight(cfg, s, Repeat(AuditWritten(tenant), n), tenant, k)
    ensures Run(cfg, s, Repeat(AuditWritten(tenant), n)).now == s.now
    decreases n
  {
    hide *;
    RepeatStep(cfg, s, AuditWritten(tenant), n, tenant, k);
    BurstInFlight(s, tenant, c, a, d);
    if n > 0 {
      AuditOne(cfg, s, tenant, c, a, d);
      AuditPhase(cfg, Apply(cfg, s, AuditWritten(tenant)), tenant, c, a - 1, d + 1, n - 1, k);
    }
  }

  lemma {:induction false} ConsumePhase(cfg: Config, s: State, tenant: string, c: nat, d: nat, n: nat, k: nat)
    requires cfg.windowMs > 0 && n <= d <= k && Burst(s, tenant, c, 0, d)
    ensures Burst(Run(cfg, s, Repeat(Consumed(tenant), n)), tenant, c + n, 0, d - n)
    ensures AtMostInFlight(cfg, s, Repeat(Consumed(tenant), n), tenant, k)
    ensures Run(cfg, s, Repeat(Consumed(tenant), n)).now == s.now
    decreases n
  {
    hide *;
    RepeatStep(cfg, s, Consumed(tenant), n, tenant, k);
    BurstInFlight(s, tenant, c, 0, d);
    if n > 0 {
      ConsumeOne(cfg, s, tenant, c, d);
      ConsumePhase(cfg, Apply(cfg, s, Consumed(tenant)), tenant, c + 1, d - 1, n - 1, k);
    }
  }

  // Queries that all check before any consumes.
  lemma {:induction false} OverlapPhase(cfg: Config, s: State, tenant: string, c: nat, n: nat, k: nat)
    requires cfg.windowMs > 0 && c < cfg.maxRequests && n <= k && Burst(s, tenant, c, 0, 0)
    ensures
      var steps := Repeat(Admit(tenant), n) + Repeat(AuditWritten(tenant), n) + Repeat(Consumed(tenant), n);
      && Burst(Run(cfg, s, steps), tenant, c + n, 0, 0)
      && AtMostInFlight(cfg, s, steps, tenant, k)
      && Run(cfg, s, steps).now == s.now
  {
    hide Apply;
    hide InFlight;
    hide Burst;
    var x, y, z := Repeat(Admit(tenant), n), Repeat(AuditWritten(tenant), n), Repeat(Consumed(tenant), n);
    AdmitPhase(cfg, s, tenant, c, 0, n, k);
    var s1 := Run(cfg, s, x);
    AuditPhase(cfg, s1, tenant, c, n, 0, n, k);
    RunAppend(cfg, s, x, y, tenant, k);
    var s2 := Run(cfg, s1, y);
    ConsumePhase(cfg, s2, tenant, c, n, n, k);
    RunAppend(cfg, s, x + y, z, tenant, k);
  }

  lemma {:induction false} OverlappingReaches(cfg: Config, s: State, tenant: string, c: nat, sequential: nat, k: nat)
    requires cfg.windowMs > 0 && k >= 1 && c + sequential < cfg.maxRequests && Burst(s, tenant, c, 0, 0)
    ensures
      var steps := Overlapping(tenant, sequential, k);
      && Burst(Run(cfg, s, steps), tenant, c + sequential + k, 0, 0)
      && AtMostInFlight(cfg, s, steps, tenant, k)
      && Run(cfg, s, steps).now == s.now
    decreases sequential
  {
    hide Burst;
    hide Run;
    hide AtMostInFlight;
    if sequential == 0 {
      OverlapPhase(cfg, s, tenant, c, k, k);
    } else {
      var head := Repeat(Admit(tenant), 1) + Repeat(AuditWritten(tenant), 1) + Repeat(Consumed(tenant), 1);
      RepeatOnce(Admit(tenant));
      RepeatOnce(AuditWritten(tenant));
      RepeatOnce(Consumed(tenant));
      assert head == [Admit(tenant), AuditWritten(tenant), Consumed(tenant)];
      OverlapPhase(cfg, s, tenant, c, 1, k);
      var next := Run(cfg, s, head);
      OverlappingReaches(cfg, next, tenant, c + 1, sequential - 1, k);
      RunAppend(cfg, s, head, Overlapping(tenant, sequential - 1, k), tenant, k);
    }
  }

  // For every limit and every k there is a run with k queries in flight that fills a window to
  // exactly the bound, so the check/consume gap costs k - 1 requests and no fewer.
  lemma {:induction false} WindowBoundIsTight(cfg: Config, now: int, tenant: string, k: nat)
    requires cfg.windowMs > 0 && cfg.maxRequests >= 1 && k >= 1
    ensures
      var steps := Overlapping(tenant, cfg.maxRequests - 1, k);
      && AtMostInFlight(cfg, Start(now), steps, tenant, k)
      && CountIn(Of(Run(cfg, Start(now), steps), tenant).log, now, cfg.windowMs) == Bound(cfg, k)
  {
    hide Apply;
    hide Run;
    hide AtMostInFlight;
    var steps := Overlapping(tenant, cfg.maxRequests - 1, k);
    OverlappingReaches(cfg, Start(now), tenant, 0, cfg.maxRequests - 1, k);
    AllInWindow(Of(Run(cfg, Start(now), steps), tenant).log, now, cfg.windowMs);
  }
}
