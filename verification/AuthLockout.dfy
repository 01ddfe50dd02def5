/** Progressive lockout: how fast failed authentication attempts can follow each other. */
module AuthLockout {
  import opened Options

  const LOCKOUT_THRESHOLD := 5
  const LOCKOUT_DURATION_SECONDS := 15 * 60
  const SECOND := 1000

  // A row of the lockout table, times in milliseconds.
  datatype Row = Row(failedCount: nat, delayUntil: Option<int>, lockedUntil: Option<int>)

  datatype LockoutState = LockoutState(blocked: bool, retryAfterSeconds: int, lockedOut: bool)

  function Pow2(n: nat): (r: nat)
    ensures r >= 1
  {
    if n == 0 then 1 else 2 * Pow2(n - 1)
  }

  function DelaySecondsFor(failCount: int): nat {
    if failCount <= 0 then 0 else Pow2(failCount - 1)
  }

  function CeilSeconds(ms: int): int {
    -((-ms) / SECOND)
  }

  function CheckAt(row: Option<Row>, now: int): LockoutState {
    if row.None? then LockoutState(false, 0, false)
    else if row.value.lockedUntil.Some? && row.value.lockedUntil.value > now then
      LockoutState(true, CeilSeconds(row.value.lockedUntil.value - now), true)
    else if row.value.delayUntil.Some? && row.value.delayUntil.value > now then
      LockoutState(true, CeilSeconds(row.value.delayUntil.value - now), false)
    else LockoutState(false, 0, false)
  }

  function Failures(row: Option<Row>): nat {
    if row.None? then 0 else row.value.failedCount
  }

  function Failed(row: Option<Row>, now: int): Row {
    var newCount := Failures(row) + 1;
    if newCount >= LOCKOUT_THRESHOLD then Row(newCount, None, Some(now + LOCKOUT_DURATION_SECONDS * SECOND))
    else Row(newCount, Some(now + DelaySecondsFor(newCount) * SECOND), None)
  }

  datatype Event = Fail(user: string, at: int) | Success(user: string)

  function RowOf(rows: map<string, Row>, user: string): Option<Row> {
    if user in rows then Some(rows[user]) else None
  }

  function After(rows: map<string, Row>, e: Event): map<string, Row> {
    match e
    case Fail(user, at) => rows[user := Failed(RowOf(rows, user), at)]
    case Success(user) => rows[user := Row(0, None, None)]
  }

  predicate Later(deadline: Option<int>, now: int) {
    deadline.Some? && deadline.value > now
  }

  // The least number of whole seconds that covers `ms` milliseconds.
  predicate RoundedUp(seconds: int, ms: int) {
    1000 * (seconds - 1) < ms <= 1000 * seconds
  }

  // The wait in milliseconds that the n-th failure in a row imposes.
  predicate WaitAfter(n: nat, ms: int) {
    && (n == 1 ==> ms == 1_000) && (n == 2 ==> ms == 2_000) && (n == 3 ==> ms == 4_000) && (n == 4 ==> ms == 8_000)
    && (n >= 5 ==> ms == 900_000)
  }

  lemma {:induction false} FirstDelays()
    ensures DelaySecondsFor(1) == 1 && DelaySecondsFor(2) == 2 && DelaySecondsFor(3) == 4 && DelaySecondsFor(4) == 8
  {
    assert Pow2(0) == 1 && Pow2(1) == 2 && Pow2(2) == 4 && Pow2(3) == 8;
  }

  class LockoutTable {
    var rows: map<string, Row>

    constructor ()
      ensures rows == map[]
    {
      rows := map[];
    }

    method CheckLockout(user: string, now: int) returns (state: LockoutState)
      ensures state == CheckAt(RowOf(rows, user), now)
      ensures state.lockedOut <==> user in rows && Later(rows[user].lockedUntil, now)
      ensures state.blocked <==>
        user in rows && (Later(rows[user].lockedUntil, now) || Later(rows[user].delayUntil, now))
      ensures !state.blocked ==> state.retryAfterSeconds == 0
      ensures state.lockedOut ==> RoundedUp(state.retryAfterSeconds, rows[user].lockedUntil.value - now)
      ensures state.blocked && !state.lockedOut ==>
        RoundedUp(state.retryAfterSeconds, rows[user].delayUntil.value - now)
    {
      if user !in rows {
        return LockoutState(false, 0, false);
      }
      var row := rows[user];
      if row.lockedUntil.Some? && row.lockedUntil.value > now {
        return LockoutState(true, CeilSeconds(row.lockedUntil.value - now), true);
      }
      if row.delayUntil.Some? && row.delayUntil.value > now {
        return LockoutState(true, CeilSeconds(row.delayUntil.value - now), false);
      }
      state := LockoutState(false, 0, false);
    }

    method RecordFailedAttempt(user: string, now: int) returns (state: LockoutState)
      modifies this
      ensures rows == After(old(rows), Fail(user, now))
      ensures state.blocked && state == CheckAt(RowOf(rows, user), now)
      ensures user in rows
      ensures rows[user].failedCount == 1 + (if user in old(rows) then old(rows)[user].failedCount else 0)
      ensures state.lockedOut <==> rows[user].failedCount >= 5
      ensures
        var count, ms := rows[user].failedCount, 1000 * state.retryAfterSeconds;
        && WaitAfter(count, ms)
        && (count < 5 ==> rows[user].delayUntil == Some(now + ms) && rows[user].lockedUntil == None)
        && (count >= 5 ==> rows[user].lockedUntil == Some(now + ms) && rows[user].delayUntil == None)
    {
      var row := if user in rows then rows[user].(failedCount := rows[user].failedCount + 1)
                 else Row(1, Some(now + SECOND), None);
      var newCount := row.failedCount;
      if newCount >= LOCKOUT_THRESHOLD {
        row := row.(lockedUntil := Some(now + LOCKOUT_DURATION_SECONDS * SECOND), delayUntil := None);
        rows := rows[user := row];
        return LockoutState(true, LOCKOUT_DURATION_SECONDS, true);
      }
      var delaySec := DelaySecondsFor(newCount);
      row := row.(delayUntil := Some(now + delaySec * SECOND), lockedUntil := None);
      rows := rows[user := row];
      state := LockoutState(true, delaySec, false);
      assert CeilSeconds(delaySec * SECOND) == delaySec;
      FirstDelays();
    }

    method ResetLockout(user: string)
      modifies this
      ensures rows == After(old(rows), Success(user))
    {
      rows := rows[user := Row(0, None, None)];
    }
  }

  // ---------------------------------------------------------------------------
  // Runs of failures without a reset
  // ---------------------------------------------------------------------------

  // Every attempt was made when the check did not block it.
  ghost predicate Admitted(row: Option<Row>, times: seq<int>)
    decreases |times|
  {
    times == [] || (!CheckAt(row, times[0]).blocked && Admitted(Some(Failed(row, times[0])), times[1..]))
  }

  // The enforced wait after the n-th failure, in seconds.
  function Gap(n: nat): nat {
    if n >= LOCKOUT_THRESHOLD then LOCKOUT_DURATION_SECONDS else DelaySecondsFor(n)
  }

  // A row `count` failures deep whose last failure was at `last`.
  ghost predicate Deep(row: Option<Row>, count: nat, last: int) {
    count >= 1 && row.Some? &&
      exists earlier: Option<Row> :: row.value == Failed(earlier, last) && row.value.failedCount == count
  }

  lemma {:induction false} BlockedDuringGap(row: Option<Row>, count: nat, last: int, now: int)
    requires Deep(row, count, last)
    ensures CheckAt(row, now).blocked <==> now < last + Gap(count) * SECOND
  {
    hide Pow2;
  }

  // The failure at times[i] was followed by a wait of Gap(count + i) seconds at least.
  ghost predicate Spaced(times: seq<int>, count: nat) {
    forall i :: 1 <= i < |times| ==> times[i] - times[i - 1] >= Gap(count + i - 1) * SECOND
  }

  lemma {:induction false} SpacedTail(times: seq<int>, count: nat)
    requires |times| >= 2
    ensures Spaced(times, count) <==> times[1] - times[0] >= Gap(count) * SECOND && Spaced(times[1..], count + 1)
  {
    hide Gap;
    var tail := times[1..];
    if Spaced(times, count) {
      forall i | 1 <= i < |tail| ensures tail[i] - tail[i - 1] >= Gap(count + 1 + i - 1) * SECOND {
        assert times[i + 1] - times[i + 1 - 1] >= Gap(count + (i + 1) - 1) * SECOND;
      }
    }
    if times[1] - times[0] >= Gap(count) * SECOND && Spaced(tail, count + 1) {
      forall i | 1 <= i < |times| ensures times[i] - times[i - 1] >= Gap(count + i - 1) * SECOND {
        if i > 1 {
          assert tail[i - 1] - tail[i - 1 - 1] >= Gap(count + 1 + (i - 1) - 1) * SECOND;
        }
      }
    }
  }

  lemma {:induction false} AdmittedIffSpaced(row: Option<Row>, count: nat, times: seq<int>)
    requires times != [] && Deep(row, count, times[0])
    ensures Admitted(row, times[1..]) <==> Spaced(times, count)
    decreases |times|
  {
    hide Gap;
    hide Spaced;
    hide DelaySecondsFor;
    if |times| == 1 {
      OneIsSpaced(times, count);
    } else {
      var tail := times[1..];
      BlockedDuringGap(row, count, times[0], tail[0]);
      var next := Some(Failed(row, tail[0]));
      assert Deep(next, count + 1, tail[0]);
      AdmittedIffSpaced(next, count + 1, tail);
      SpacedTail(times, count);
    }
  }

  lemma {:induction false} OneIsSpaced(times: seq<int>, count: nat)
    requires |times| == 1
    ensures Spaced(times, count)
  {
  }

  // Exactly the runs whose consecutive failures are spaced by the enforced waits can happen.
  lemma {:induction false} RunPossibleIffSpaced(row: Option<Row>, times: seq<int>)
    requires times != []
    ensures Admitted(row, times) <==> !CheckAt(row, times[0]).blocked && Spaced(times, Failures(row) + 1)
  {
    hide Gap;
    hide Spaced;
    var next := Some(Failed(row, times[0]));
    assert Deep(next, Failures(row) + 1, times[0]);
    AdmittedIffSpaced(next, Failures(row) + 1, times);
  }

  // The least time from the first to the n-th failure, in seconds.
  function Least(n: nat): nat
    requires n >= 1
  {
    if n <= 5 then Pow2(n - 1) - 1 else 15 + 900 * (n - 5)
  }

  lemma {:induction false} LeastStep(n: nat)
    requires n >= 1
    ensures Least(n + 1) == Least(n) + Gap(n)
  {
    assert Pow2(0) == 1 && Pow2(1) == 2 && Pow2(2) == 4 && Pow2(3) == 8 && Pow2(4) == 16;
  }

  lemma {:induction false} GapGrows(n: nat, m: nat)
    requires 1 <= n <= m
    ensures Gap(n) <= Gap(m)
    decreases m - n
  {
    if n < m {
      if m <= LOCKOUT_THRESHOLD {
        assert Pow2(0) == 1 && Pow2(1) == 2 && Pow2(2) == 4 && Pow2(3) == 8;
      }
      GapGrows(n, m - 1);
    }
  }

  lemma {:induction false} SpacedTakesTime(times: seq<int>, count: nat)
    requires times != [] && count >= 1 && Spaced(times, count)
    ensures times[|times| - 1] - times[0] >= Least(|times|) * SECOND
    decreases |times|
  {
    hide Least;
    hide Gap;
    var n := |times|;
    if n == 1 {
      FirstIsFree();
    } else {
      SpacedTakesTime(times[..n - 1], count);
      LeastStep(n - 1);
      GapGrows(n - 1, count + (n - 1) - 1);
    }
  }

  // Whatever the row was, n failures in a row take at least 2^(n-1) - 1 seconds for n <= 5 and
  // 15 + 900 * (n - 5) seconds beyond.
  lemma {:induction false} FailuresTakeAtLeast(row: Option<Row>, times: seq<int>)
    requires times != [] && Admitted(row, times)
    ensures times[|times| - 1] - times[0] >= Least(|times|) * 1_000
  {
    hide Least;
    RunPossibleIffSpaced(row, times);
    SpacedTakesTime(times, Failures(row) + 1);
  }

  lemma {:induction false} FirstIsFree()
    ensures Least(1) == 0
  {
  }

  // ... and a user without failures who retries the moment they may meets the bound exactly.
  lemma {:induction false} BoundIsMet(start: int, n: nat) returns (times: seq<int>)
    requires n >= 1
    ensures |times| == n && times[0] == start && Admitted(None, times)
    ensures times[n - 1] - times[0] == Least(n) * 1_000
  {
    hide Least;
    hide Gap;
    FirstIsFree();
    times := [start];
    while |times| < n
      invariant 1 <= |times| <= n && times[0] == start
      invariant Spaced(times, 1)
      invariant times[|times| - 1] - start == Least(|times|) * SECOND
    {
      LeastStep(|times|);
      times := times + [times[|times| - 1] + Gap(|times|) * SECOND];
    }
    RunPossibleIffSpaced(None, times);
  }

  // ---------------------------------------------------------------------------
  // Runs of the whole table: users interleave, and a success resets one user
  // ---------------------------------------------------------------------------

  ghost predicate Unblocked(rows: map<string, Row>, events: seq<Event>)
    decreases |events|
  {
    events == [] ||
    ((events[0].Fail? ==> !CheckAt(RowOf(rows, events[0].user), events[0].at).blocked) &&
     Unblocked(After(rows, events[0]), events[1..]))
  }

  function FailTimes(events: seq<Event>, user: string): seq<int>
    decreases |events|
  {
    if events == [] then []
    else (if events[0].Fail? && events[0].user == user then [events[0].at] else []) + FailTimes(events[1..], user)
  }

  lemma {:induction false} UserSeesOwnFailures(rows: map<string, Row>, events: seq<Event>, user: string)
    requires Unblocked(rows, events) && Success(user) !in events
    ensures Admitted(RowOf(rows, user), FailTimes(events, user))
    decreases |events|
  {
    hide CheckAt;
    hide Failed;
    if events != [] {
      var next, rest := After(rows, events[0]), events[1..];
      UserSeesOwnFailures(next, rest, user);
      if events[0].Fail? && events[0].user == user {
        assert FailTimes(events, user)[1..] == FailTimes(rest, user);
      } else {
        assert FailTimes(events, user) == FailTimes(rest, user);
        assert events[0].user != user;
      }
    }
  }

  // From any table, in any interleaving of users: between two successes of a user, n failures of
  // that user take at least this long.
  lemma {:induction false} NoUserFailsFaster(rows: map<string, Row>, events: seq<Event>, user: string)
    requires Unblocked(rows, events) && Success(user) !in events && FailTimes(events, user) != []
    ensures
      var times := FailTimes(events, user);
      times[|times| - 1] - times[0] >= Least(|times|) * 1_000
  {
    UserSeesOwnFailures(rows, events, user);
    FailuresTakeAtLeast(RowOf(rows, user), FailTimes(events, user));
  }

  // ---------------------------------------------------------------------------
  // Overlapping attempts of one user. Nothing locks the row between the check and the failure, and
  // a failure is two statements: one counts it, one writes the deadline for that count
  // ---------------------------------------------------------------------------

  function Upserted(row: Option<Row>, at: int): Row {
    if row.None? then Row(1, Some(at + SECOND), None) else row.value.(failedCount := row.value.failedCount + 1)
  }

  function Settled(row: Row, count: nat, at: int): Row {
    if count >= LOCKOUT_THRESHOLD
    then row.(lockedUntil := Some(at + LOCKOUT_DURATION_SECONDS * SECOND), delayUntil := None)
    else row.(delayUntil := Some(at + DelaySecondsFor(count) * SECOND), lockedUntil := None)
  }

  // One statement right after the other, they are the single failure above.
  lemma {:induction false} FailureAsOne(row: Option<Row>, at: int)
    ensures Settled(Upserted(row, at), Failures(row) + 1, at) == Failed(row, at)
  {
    hide Pow2;
  }

  // An attempt passes the check, and later fails or comes to nothing.
  datatype Attempt = Begin(at: int) | Upsert(at: int) | Settle(at: int, count: nat) | Ends(at: int)

  // `checked` attempts have passed the check and not failed yet; `pending` are the counts whose
  // deadlines are still to be written. `promised` is no column: the latest deadline written so far.
  datatype Attempts = Attempts(row: Option<Row>, checked: nat, pending: set<nat>, now: int, promised: Option<int>)

  function Fresh(row: Option<Row>, now: int): Attempts {
    Attempts(row, 0, {}, now, None)
  }

  // At most k attempts are between their check and their end.
  predicate Possible(s: Attempts, e: Attempt, k: nat) {
    && e.at >= s.now
    && match e
       case Begin(at) => s.checked + |s.pending| < k && !CheckAt(s.row, at).blocked
       case Settle(_, count) => count in s.pending && s.row.Some?
       case _ => s.checked > 0
  }

  function Deadline(e: Attempt): int
    requires e.Settle?
  {
    e.at + Gap(e.count) * SECOND
  }

  function Move(s: Attempts, e: Attempt): Attempts {
    var left := if s.checked > 0 then s.checked - 1 else 0;
    match e
    case Begin(at) => s.(checked := s.checked + 1, now := at)
    case Upsert(at) =>
      var row := Upserted(s.row, at);
      s.(row := Some(row), checked := left, pending := s.pending + {row.failedCount}, now := at)
    case Settle(at, count) =>
      var row := if s.row.None? then None else Some(Settled(s.row.value, count, at));
      s.(row := row, pending := s.pending - {count}, now := at,
         promised := if s.promised.Some? && s.promised.value > Deadline(e) then s.promised else Some(Deadline(e)))
    case Ends(at) => s.(checked := left, now := at)
  }

  function MoveAll(s: Attempts, events: seq<Attempt>): Attempts
    decreases |events|
  {
    if events == [] then s else MoveAll(Move(s, events[0]), events[1..])
  }

  ghost predicate AllPossible(s: Attempts, events: seq<Attempt>, k: nat)
    decreases |events|
  {
    events == [] || (Possible(s, events[0], k) && AllPossible(Move(s, events[0]), events[1..], k))
  }

  // A deadline written over a later one.
  predicate Shortens(s: Attempts, e: Attempt) {
    e.Settle? && s.promised.Some? && Deadline(e) < s.promised.value
  }

  ghost predicate NeverShortens(s: Attempts, events: seq<Attempt>)
    decreases |events|
  {
    events == [] || (!Shortens(s, events[0]) && NeverShortens(Move(s, events[0]), events[1..]))
  }

  // Failures count from the statement that counts them.
  function FailedAt(events: seq<Attempt>): seq<int>
    decreases |events|
  {
    if events == [] then []
    else (if events[0].Upsert? then [events[0].at] else []) + FailedAt(events[1..])
  }

  // Failure i and the k-th after it are a wait apart: one of the k began after a deadline that
  // covers failure i was written.
  ghost predicate SpacedBy(times: seq<int>, count: nat, k: nat) {
    && (forall i, j :: 0 <= i <= j < |times| ==> times[i] <= times[j])
    && forall i :: 0 <= i && i + k < |times| ==> times[i + k] - times[i] >= Gap(count + i + 1) * SECOND
  }

  function WaitOver(times: seq<int>, count: nat, i: nat): int
    requires i < |times|
  {
    times[i] + Gap(count + i + 1) * SECOND
  }

  // Either the wait after failure i is over, or too few attempts began before that.
  ghost predicate Waits(s: Attempts, times: seq<int>, count: nat, k: nat, i: nat)
    requires i < |times|
  {
    s.now >= WaitOver(times, count, i) || s.checked + (|times| - 1 - i) < k
  }

  // Some failure after the first `low` has its deadline written.
  ghost predicate Covered(pending: set<nat>, low: nat, high: nat) {
    exists c :: low < c <= high && c !in pending
  }

  // The deadlines written cover the failures before them, and the row keeps them.
  ghost predicate Promises(s: Attempts, times: seq<int>, count: nat) {
    && (forall i :: 0 <= i < |times| ==> Promised(s, times, count, i))
    && (s.promised.Some? ==> BlocksUntil(s.row, s.promised.value))
  }

  ghost predicate Promised(s: Attempts, times: seq<int>, count: nat, i: nat)
    requires i < |times|
  {
    Covered(s.pending, count + i, count + |times|) ==> s.promised.Some? && s.promised.value >= WaitOver(times, count, i)
  }

  ghost predicate BlocksUntil(row: Option<Row>, deadline: int) {
    forall t :: t < deadline ==> CheckAt(row, t).blocked
  }

  // `times` are the failures since a row of `count` failures.
  ghost predicate Counts(s: Attempts, times: seq<int>, count: nat, k: nat) {
    && s.checked + |s.pending| <= k && Failures(s.row) == count + |times| &&
       (times != [] || s.promised.Some? ==> s.row.Some?)
    && (forall c :: c in s.pending ==> count < c <= count + |times|)
    && (times != [] ==> times[|times| - 1] <= s.now)
  }

  ghost predicate Underway(s: Attempts, times: seq<int>, count: nat, k: nat) {
    && Counts(s, times, count, k) && SpacedBy(times, count, k) && Promises(s, times, count)
    && forall i :: 0 <= i < |times| ==> Waits(s, times, count, k, i)
  }

  // If no deadline from the i-th failure on is written, all those failures are still in flight.
  lemma {:induction false} UncoveredAreInFlight(pending: set<nat>, low: nat, high: nat)
    requires low <= high && forall c :: low < c <= high ==> c in pending
    ensures |pending| >= high - low
    decreases high - low
  {
    if low < high {
      var rest := pending - {high};
      UncoveredAreInFlight(rest, low, high - 1);
      assert pending == rest + {high};
    }
  }

  lemma {:induction false} BeginKeepsWaits(s: Attempts, e: Attempt, times: seq<int>, count: nat, k: nat, i: nat)
    requires e.Begin? && Possible(s, e, k) && Underway(s, times, count, k) && i < |times|
    ensures Waits(Move(s, e), times, count, k, i)
  {
    hide Gap;
    hide SpacedBy;
    hide WaitOver;
    if Covered(s.pending, count + i, count + |times|) {
      assert Promised(s, times, count, i);
      assert BlocksUntil(s.row, s.promised.value);
      hide CheckAt;
      assert e.at >= s.promised.value;
    } else {
      hide CheckAt;
      UncoveredAreInFlight(s.pending, count + i, count + |times|);
    }
  }

  lemma {:induction false} BeginKeeps(s: Attempts, e: Attempt, times: seq<int>, count: nat, k: nat)
    requires e.Begin? && Possible(s, e, k) && Underway(s, times, count, k)
    ensures Underway(Move(s, e), times, count, k)
  {
    var t := Move(s, e);
    forall i | 0 <= i < |times| ensures Waits(t, times, count, k, i) && Promised(t, times, count, i) {
      BeginKeepsWaits(s, e, times, count, k, i);
      assert Promised(s, times, count, i);
    }
    hide Waits;
    hide CheckAt;
    hide SpacedBy;
    hide Covered;
    hide BlocksUntil;
    hide WaitOver;
  }

  lemma {:induction false} UpsertKeepsSpacing(s: Attempts, e: Attempt, times: seq<int>, count: nat, k: nat)
    requires e.Upsert? && Possible(s, e, k) && Underway(s, times, count, k)
    ensures SpacedBy(times + [e.at], count, k)
  {
    hide Gap;
    hide Promises;
    hide CheckAt;
    var n, more := |times|, times + [e.at];
    assert forall i :: 0 <= i < n ==> more[i] == times[i];
    forall i | 0 <= i && i + k < |more| ensures more[i + k] - more[i] >= Gap(count + i + 1) * SECOND {
      if i + k < n {
        assert times[i + k] - times[i] >= Gap(count + i + 1) * SECOND;
      } else {
        assert i + k == n && k >= 1;
        assert Waits(s, times, count, k, i);
      }
    }
  }

  lemma {:induction false} UpsertKeepsPromises(s: Attempts, e: Attempt, times: seq<int>, count: nat, k: nat)
    requires e.Upsert? && Possible(s, e, k) && Underway(s, times, count, k)
    ensures Promises(Move(s, e), times + [e.at], count)
  {
    hide Gap;
    hide SpacedBy;
    hide Waits;
    var n, t, more := |times|, Move(s, e), times + [e.at];
    assert t.pending == s.pending + {count + n + 1};
    forall i | 0 <= i < |more| ensures Promised(t, more, count, i) {
      if Covered(t.pending, count + i, count + |more|) {
        var c :| count + i < c <= count + |more| && c !in t.pending;
        assert c !in s.pending && c <= count + n;
        assert Covered(s.pending, count + i, count + n) && more[i] == times[i];
        assert Promised(s, times, count, i);
      }
    }
    if s.promised.Some? {
      assert BlocksUntil(s.row, s.promised.value);
      UpsertKeepsBlock(s.row, e.at, s.promised.value);
    }
  }

  lemma {:induction false} UpsertKeepsBlock(row: Option<Row>, at: int, deadline: int)
    requires row.Some? && BlocksUntil(row, deadline)
    ensures BlocksUntil(Some(Upserted(row, at)), deadline)
  {
    forall t | t < deadline ensures CheckAt(Some(Upserted(row, at)), t).blocked {
      assert CheckAt(row, t).blocked;
    }
  }

  lemma {:induction false} UpsertKeeps(s: Attempts, e: Attempt, times: seq<int>, count: nat, k: nat)
    requires e.Upsert? && Possible(s, e, k) && Underway(s, times, count, k)
    ensures Underway(Move(s, e), times + [e.at], count, k)
  {
    UpsertKeepsSpacing(s, e, times, count, k);
    UpsertKeepsPromises(s, e, times, count, k);
    hide Gap;
    hide SpacedBy;
    hide Promises;
    hide CheckAt;
    var n, t, more := |times|, Move(s, e), times + [e.at];
    assert count + n + 1 !in s.pending && t.pending == s.pending + {count + n + 1};
    assert |t.pending| == |s.pending| + 1;
    forall i | 0 <= i < |more| ensures Waits(t, more, count, k, i) {
      if i < n {
        assert Waits(s, times, count, k, i) && more[i] == times[i];
      }
    }
  }

  lemma {:induction false} SettleBlocks(row: Row, count: nat, at: int)
    requires count >= 1
    ensures BlocksUntil(Some(Settled(row, count, at)), at + Gap(count) * SECOND)
  {
    hide Pow2;
    var settled := Some(Settled(row, count, at));
    forall t | t < at + Gap(count) * SECOND ensures CheckAt(settled, t).blocked {
    }
  }

  lemma {:induction false} SettleKeepsPromises(s: Attempts, e: Attempt, times: seq<int>, count: nat, k: nat)
    requires e.Settle? && Possible(s, e, k) && Underway(s, times, count, k) && !Shortens(s, e)
    ensures Promises(Move(s, e), times, count)
  {
    SettleBlocks(s.row.value, e.count, e.at);
    hide BlocksUntil;
    hide Settled;
    hide CheckAt;
    hide Gap;
    hide Waits;
    var n, t := |times|, Move(s, e);
    assert t.promised == Some(Deadline(e));
    forall i | 0 <= i < n ensures Promised(t, times, count, i) {
      if Covered(s.pending, count + i, count + n) {
        assert Promised(s, times, count, i);
      } else if Covered(t.pending, count + i, count + n) {
        var c :| count + i < c <= count + n && c !in t.pending;
        assert c == e.count;
        GapGrows(count + i + 1, c);
        assert times[i] <= times[n - 1] <= e.at;
      }
    }
  }

  lemma {:induction false} SettleKeeps(s: Attempts, e: Attempt, times: seq<int>, count: nat, k: nat)
    requires e.Settle? && Possible(s, e, k) && Underway(s, times, count, k) && !Shortens(s, e)
    ensures Underway(Move(s, e), times, count, k)
  {
    SettleKeepsPromises(s, e, times, count, k);
    hide Gap;
    hide SpacedBy;
    hide Promises;
    hide CheckAt;
    hide DelaySecondsFor;
    var t := Move(s, e);
    assert s.pending == t.pending + {e.count};
    forall i | 0 <= i < |times| ensures Waits(t, times, count, k, i) {
      assert Waits(s, times, count, k, i);
    }
  }

  lemma {:induction false} EndKeeps(s: Attempts, e: Attempt, times: seq<int>, count: nat, k: nat)
    requires e.Ends? && Possible(s, e, k) && Underway(s, times, count, k)
    ensures Underway(Move(s, e), times, count, k)
  {
    hide Gap;
    hide CheckAt;
    hide SpacedBy;
    hide BlocksUntil;
    var t := Move(s, e);
    hide Covered;
    forall i | 0 <= i < |times| ensures Waits(t, times, count, k, i) && Promised(t, times, count, i) {
      assert Waits(s, times, count, k, i) && Promised(s, times, count, i);
    }
  }

  lemma {:induction false} RunKeepsUnderway(s: Attempts, events: seq<Attempt>, times: seq<int>, count: nat, k: nat)
    requires AllPossible(s, events, k) && NeverShortens(s, events) && Underway(s, times, count, k)
    ensures Underway(MoveAll(s, events), times + FailedAt(events), count, k)
    decreases |events|
  {
    hide Underway;
    hide Possible;
    hide Shortens;
    if events == [] {
      assert times + [] == times;
    } else {
      var e, rest := events[0], events[1..];
      match e {
        case Begin(_) => BeginKeeps(s, e, times, count, k);
        case Upsert(_) => UpsertKeeps(s, e, times, count, k);
        case Settle(_, _) => SettleKeeps(s, e, times, count, k);
        case Ends(_) => EndKeeps(s, e, times, count, k);
      }
      hide Move;
      var more := if e.Upsert? then times + [e.at] else times;
      RunKeepsUnderway(Move(s, e), rest, more, count, k);
      assert times + FailedAt(events) == more + FailedAt(rest);
    }
  }

  // The least time from the first to the n-th failure, in seconds, with k attempts in flight.
  function LeastOverlapping(n: nat, k: nat): nat
    requires k >= 1
  {
    if n <= k then 0 else LeastOverlapping(n - k, k) + Gap(n - k)
  }

  lemma {:induction false} SpacedByTakesTime(times: seq<int>, count: nat, k: nat, n: nat)
    requires k >= 1 && SpacedBy(times, count, k) && 1 <= n <= |times|
    ensures times[n - 1] - times[0] >= LeastOverlapping(n, k) * SECOND
    decreases n
  {
    hide Gap;
    if n > k {
      SpacedByTakesTime(times, count, k, n - k);
      assert times[n - 1 - k + k] - times[n - 1 - k] >= Gap(count + (n - 1 - k) + 1) * SECOND;
      GapGrows(n - k, count + n - k);
    }
  }

  lemma {:induction false} UnderwayIsSpaced(s: Attempts, times: seq<int>, count: nat, k: nat)
    requires Underway(s, times, count, k)
    ensures SpacedBy(times, count, k)
  {
  }

  // From any row, in every interleaving of statements with at most k attempts of the user between
  // check and end: unless a deadline is written over a later one, n failures take this long.
  lemma {:induction false} OverlappingFailuresTakeAtLeast(row: Option<Row>, start: int, events: seq<Attempt>, k: nat)
    requires k >= 1 && AllPossible(Fresh(row, start), events, k) && NeverShortens(Fresh(row, start), events)
    ensures
      var times := FailedAt(events);
      times != [] ==> times[|times| - 1] - times[0] >= LeastOverlapping(|times|, k) * SECOND
  {
    var s, times := Fresh(row, start), FailedAt(events);
    assert Underway(s, [], Failures(row), k);
    hide *;
    RunKeepsUnderway(s, events, [], Failures(row), k);
    assert [] + times == times;
    UnderwayIsSpaced(MoveAll(s, events), times, Failures(row), k);
    if times != [] {
      SpacedByTakesTime(times, Failures(row), k, |times|);
    }
  }

  // With one attempt at a time it is the bound above.
  lemma {:induction false} OneAtATime(n: nat)
    requires n >= 1
    ensures LeastOverlapping(n, 1) == Least(n)
  {
    hide Least;
    hide Gap;
    if n == 1 {
      FirstIsFree();
    } else {
      OneAtATime(n - 1);
      LeastStep(n - 1);
    }
  }

  // ---------------------------------------------------------------------------
  // When deadlines cannot be shortened
  // ---------------------------------------------------------------------------

  // Deadlines written in the order of their counts.
  ghost predicate InOrder(s: Attempts, events: seq<Attempt>, last: nat)
    decreases |events|
  {
    events == [] ||
    ((events[0].Settle? ==> events[0].count > last) &&
     InOrder(Move(s, events[0]), events[1..], if events[0].Settle? then events[0].count else last))
  }

  // The latest deadline so far was written for `last`, no later than now.
  ghost predicate PromisedFor(s: Attempts, last: nat) {
    s.promised.Some? ==> last >= 1 && s.promised.value <= s.now + Gap(last) * SECOND
  }

  lemma {:induction false} InOrderNeverShortens(s: Attempts, events: seq<Attempt>, k: nat, last: nat)
    requires AllPossible(s, events, k) && InOrder(s, events, last) && PromisedFor(s, last)
    ensures NeverShortens(s, events)
    decreases |events|
  {
    hide Gap;
    hide CheckAt;
    hide Settled;
    hide Upserted;
    if events != [] {
      var e := events[0];
      var next := if e.Settle? then e.count else last;
      if e.Settle? && s.promised.Some? {
        GapGrows(last, e.count);
      }
      InOrderNeverShortens(Move(s, e), events[1..], k, next);
    }
  }

  // From the fifth failure on every deadline is a lockout, all of one length: no condition needed.
  ghost predicate AllLockouts(s: Attempts) {
    && Failures(s.row) >= LOCKOUT_THRESHOLD - 1 && s.row.Some?
    && (forall c :: c in s.pending ==> c >= LOCKOUT_THRESHOLD)
    && (s.promised.Some? ==> s.promised.value <= s.now + LOCKOUT_DURATION_SECONDS * SECOND)
  }

  lemma {:induction false} LockoutsNeverShorten(s: Attempts, events: seq<Attempt>, k: nat)
    requires AllPossible(s, events, k) && AllLockouts(s)
    ensures NeverShortens(s, events)
    decreases |events|
  {
    hide CheckAt;
    hide DelaySecondsFor;
    if events != [] {
      LockoutsNeverShorten(Move(s, events[0]), events[1..], k);
    }
  }

  // In every interleaving whatsoever, from a row with at least four failures: more than m * k
  // failures take at least m lockouts.
  lemma {:induction false} LockedFailuresTakeAtLeast(row: Option<Row>, start: int, events: seq<Attempt>, k: nat, m: nat)
    requires k >= 1 && AllPossible(Fresh(row, start), events, k) && Failures(row) >= LOCKOUT_THRESHOLD - 1
    ensures
      var times := FailedAt(events);
      |times| > m * k ==> times[|times| - 1] - times[0] >= m * LOCKOUT_DURATION_SECONDS * SECOND
  {
    var s, times, count := Fresh(row, start), FailedAt(events), Failures(row);
    assert AllLockouts(s) && Underway(s, [], count, k);
    hide *;
    LockoutsNeverShorten(s, events, k);
    RunKeepsUnderway(s, events, [], count, k);
    assert [] + times == times;
    UnderwayIsSpaced(MoveAll(s, events), times, count, k);
    if |times| > m * k {
      LockoutSpacing(times, count, k, |times|, m);
    }
  }

  lemma {:induction false} LockoutSpacing(times: seq<int>, count: nat, k: nat, n: nat, m: nat)
    requires k >= 1 && SpacedBy(times, count, k) && m * k < n <= |times| && count >= LOCKOUT_THRESHOLD - 1
    ensures times[n - 1] - times[0] >= m * LOCKOUT_DURATION_SECONDS * SECOND
    decreases m
  {
    if m > 0 {
      assert m * k == (m - 1) * k + k && (m - 1) * k >= 0;
      LockoutSpacing(times, count, k, n - k, m - 1);
      assert times[n - 1 - k + k] - times[n - 1 - k] >= Gap(count + (n - 1 - k) + 1) * SECOND;
    }
  }

  // ---------------------------------------------------------------------------
  // The bound is met: bursts of k attempts that all check before any fails
  // ---------------------------------------------------------------------------

  function Repeat(e: Attempt, n: nat): seq<Attempt> {
    if n == 0 then [] else [e] + Repeat(e, n - 1)
  }

  // The failures base + 1 up to base + n, each with its deadline written at once.
  function FailureStatements(at: int, base: nat, n: nat): seq<Attempt>
    decreases n
  {
    if n == 0 then [] else [Upsert(at), Settle(at, base + 1)] + FailureStatements(at, base + 1, n - 1)
  }

  function Copies(at: int, n: nat): (times: seq<int>)
    ensures |times| == n && forall i :: 0 <= i < n ==> times[i] == at
  {
    if n == 0 then [] else [at] + Copies(at, n - 1)
  }

  ghost predicate Runs(s: Attempts, events: seq<Attempt>, k: nat) {
    AllPossible(s, events, k) && NeverShortens(s, events)
  }

  lemma {:induction false} MoveAppend(s: Attempts, a: seq<Attempt>, b: seq<Attempt>, k: nat)
    ensures MoveAll(s, a + b) == MoveAll(MoveAll(s, a), b)
    ensures AllPossible(s, a + b, k) <==> AllPossible(s, a, k) && AllPossible(MoveAll(s, a), b, k)
    ensures NeverShortens(s, a + b) <==> NeverShortens(s, a) && NeverShortens(MoveAll(s, a), b)
    ensures FailedAt(a + b) == FailedAt(a) + FailedAt(b)
    decreases |a|
  {
    hide Possible;
    hide Move;
    hide Shortens;
    if a == [] {
      assert a + b == b;
    } else {
      assert (a + b)[0] == a[0] && (a + b)[1..] == a[1..] + b;
      MoveAppend(Move(s, a[0]), a[1..], b, k);
      var one := if a[0].Upsert? then [a[0].at] else [];
      assert one + (FailedAt(a[1..]) + FailedAt(b)) == one + FailedAt(a[1..]) + FailedAt(b);
    }
  }

  lemma {:induction false} MoveOne(s: Attempts, e: Attempt, k: nat)
    ensures MoveAll(s, [e]) == Move(s, e) && (AllPossible(s, [e], k) <==> Possible(s, e, k))
    ensures NeverShortens(s, [e]) <==> !Shortens(s, e)
    ensures FailedAt([e]) == if e.Upsert? then [e.at] else []
  {
    hide Move;
    assert [e][1..] == [];
    assert MoveAll(s, [e]) == MoveAll(Move(s, e), []);
    assert AllPossible(s, [e], k) <==> Possible(s, e, k) && AllPossible(Move(s, e), [], k);
    assert NeverShortens(s, [e]) <==> !Shortens(s, e) && NeverShortens(Move(s, e), []);
    assert FailedAt([e]) == (if e.Upsert? then [e.at] else []) + FailedAt([]);
  }

  lemma {:induction false} BeginAll(s: Attempts, at: int, n: nat, k: nat)
    requires s.checked + |s.pending| + n <= k && at >= s.now && !CheckAt(s.row, at).blocked
    ensures Runs(s, Repeat(Begin(at), n), k) && FailedAt(Repeat(Begin(at), n)) == []
    ensures MoveAll(s, Repeat(Begin(at), n)) == s.(checked := s.checked + n, now := if n == 0 then s.now else at)
    decreases n
  {
    hide CheckAt;
    if n > 0 {
      assert Repeat(Begin(at), n)[1..] == Repeat(Begin(at), n - 1);
      BeginAll(Move(s, Begin(at)), at, n - 1, k);
    }
  }

  // One failure, its deadline right after it.
  lemma {:induction false} FailOnce(s: Attempts, at: int, k: nat)
    requires s.checked >= 1 && s.pending == {} && at >= s.now
    requires s.promised.Some? ==> s.promised.value <= at + Gap(Failures(s.row) + 1) * SECOND
    ensures
      var base := Failures(s.row);
      var pair := [Upsert(at), Settle(at, base + 1)];
      && Runs(s, pair, k) && FailedAt(pair) == [at]
      && MoveAll(s, pair) == Attempts(Some(Failed(s.row, at)), s.checked - 1, {}, at, Some(at + Gap(base + 1) * SECOND))
  {
    hide Gap;
    hide CheckAt;
    var base := Failures(s.row);
    var e, f := Upsert(at), Settle(at, base + 1);
    var t := Move(s, e);
    FailureAsOne(s.row, at);
    MoveOne(s, e, k);
    MoveOne(t, f, k);
    MoveAppend(s, [e], [f], k);
    assert [e] + [f] == [e, f] && {base + 1} - {base + 1} == {};
    hide MoveAll;
    hide AllPossible;
    hide NeverShortens;
    hide FailedAt;
    hide Settled;
    assert t.pending == {base + 1} && t.row == Some(Upserted(s.row, at));
    hide Upserted;
    assert Move(t, f).pending == {};
  }

  lemma {:induction false} FailAll(s: Attempts, at: int, n: nat, k: nat)
    requires s.checked == n >= 1 && s.pending == {} && at >= s.now
    requires s.promised.Some? ==> s.promised.value <= at + Gap(Failures(s.row) + 1) * SECOND
    ensures
      var base := Failures(s.row);
      var events := FailureStatements(at, base, n);
      var t := MoveAll(s, events);
      && Runs(s, events, k) && FailedAt(events) == Copies(at, n)
      && t.checked == 0 && t.pending == {} && t.now == at && Deep(t.row, base + n, at)
      && t.promised == Some(at + Gap(base + n) * SECOND)
    decreases n
  {
    hide *;
    var base := Failures(s.row);
    var pair, rest := [Upsert(at), Settle(at, base + 1)], FailureStatements(at, base + 1, n - 1);
    FailOnce(s, at, k);
    FailedIsDeep(s.row, at);
    var next := MoveAll(s, pair);
    FailureUnfolds(at, base, n);
    RunsAppend(s, pair, rest, k);
    if n > 1 {
      WaitGrows(base + 1, base + 2);
      FailAll(next, at, n - 1, k);
    } else {
      NothingRuns(next, at, k);
      FailureUnfolds(at, base + 1, 0);
    }
  }

  lemma {:induction false} WaitGrows(n: nat, m: nat)
    requires 1 <= n <= m
    ensures Gap(n) * SECOND <= Gap(m) * SECOND
  {
    GapGrows(n, m);
    hide Gap;
  }

  lemma {:induction false} FailedIsDeep(row: Option<Row>, at: int)
    ensures
      var next := Some(Failed(row, at));
      Deep(next, Failures(row) + 1, at) && Failures(next) == Failures(row) + 1
  {
    hide DelaySecondsFor;
  }

  lemma {:induction false} FailureUnfolds(at: int, base: nat, n: nat)
    ensures n == 0 ==> FailureStatements(at, base, n) == []
    ensures n > 0 ==>
      && FailureStatements(at, base, n) == [Upsert(at), Settle(at, base + 1)] + FailureStatements(at, base + 1, n - 1)
      && Copies(at, n) == [at] + Copies(at, n - 1)
  {
  }

  lemma {:induction false} NothingRuns(s: Attempts, at: int, k: nat)
    ensures Runs(s, [], k) && MoveAll(s, []) == s && FailedAt([]) == [] == Copies(at, 0)
  {
  }

  lemma {:induction false} RunsAppend(s: Attempts, a: seq<Attempt>, b: seq<Attempt>, k: nat)
    ensures Runs(s, a + b, k) <==> Runs(s, a, k) && Runs(MoveAll(s, a), b, k)
    ensures MoveAll(s, a + b) == MoveAll(MoveAll(s, a), b) && FailedAt(a + b) == FailedAt(a) + FailedAt(b)
  {
    MoveAppend(s, a, b, k);
    hide MoveAll;
    hide AllPossible;
    hide NeverShortens;
    hide FailedAt;
  }

  function Burst(at: int, base: nat, n: nat): seq<Attempt> {
    Repeat(Begin(at), n) + FailureStatements(at, base, n)
  }

  lemma {:induction false} BurstWorks(s: Attempts, at: int, n: nat, k: nat)
    requires s.checked == 0 && s.pending == {} && 1 <= n <= k && at >= s.now && !CheckAt(s.row, at).blocked
    requires s.promised.Some? ==> s.promised.value <= at
    ensures
      var base := Failures(s.row);
      var events := Burst(at, base, n);
      var t := MoveAll(s, events);
      && Runs(s, events, k) && FailedAt(events) == Copies(at, n)
      && t.checked == 0 && t.pending == {} && t.now == at && Deep(t.row, base + n, at)
      && t.promised == Some(at + Gap(base + n) * SECOND)
  {
    hide Deep;
    hide MoveAll;
    hide AllPossible;
    hide NeverShortens;
    hide FailedAt;
    hide Gap;
    var begins, fails := Repeat(Begin(at), n), FailureStatements(at, Failures(s.row), n);
    BeginAll(s, at, n, k);
    FailAll(MoveAll(s, begins), at, n, k);
    MoveAppend(s, begins, fails, k);
    assert [] + Copies(at, n) == Copies(at, n);
  }

  // A user without failures who always fills all k places, and retries the moment they may.
  lemma {:induction false} OverlappingBoundIsMet(start: int, n: nat, k: nat) returns (events: seq<Attempt>)
    requires n >= 1 && k >= 1
    ensures
      var s, times := Fresh(None, start), FailedAt(events);
      && Runs(s, events, k) && |times| == n
      && times[0] == start && times[n - 1] - times[0] == LeastOverlapping(n, k) * SECOND
      && var t := MoveAll(s, events);
         && t.checked == 0 && t.pending == {} && t.now == times[n - 1] && Deep(t.row, n, times[n - 1])
         && t.promised == Some(times[n - 1] + Gap(n) * SECOND)
    decreases n
  {
    hide Gap;
    hide Deep;
    hide AllPossible;
    hide NeverShortens;
    hide MoveAll;
    hide FailedAt;
    hide Burst;
    var s := Fresh(None, start);
    if n <= k {
      events := Burst(start, 0, n);
      BurstWorks(s, start, n, k);
    } else {
      var earlier := OverlappingBoundIsMet(start, n - k, k);
      var t, last := MoveAll(s, earlier), start + LeastOverlapping(n - k, k) * SECOND;
      var at := last + Gap(n - k) * SECOND;
      BlockedDuringGap(t.row, n - k, last, at);
      DeepMeans(t.row, n - k, last);
      hide CheckAt;
      BurstWorks(t, at, k, k);
      MoveAppend(s, earlier, Burst(at, n - k, k), k);
      events := earlier + Burst(at, n - k, k);
    }
  }

  lemma {:induction false} DeepMeans(row: Option<Row>, count: nat, last: int)
    requires Deep(row, count, last)
    ensures Failures(row) == count
  {
  }

  // ---------------------------------------------------------------------------
  // A deadline written over a later one breaks it
  // ---------------------------------------------------------------------------

  // Two attempts fail together; the second writes its deadline first, and the first writes over it.
  function Overtaken(at: int, count: nat): seq<Attempt>
    requires count >= 1
  {
    [Begin(at), Begin(at)] + [Upsert(at), Upsert(at)] + [Settle(at, count), Settle(at, count - 1)]
  }

  lemma {:induction false} MoveTwo(s: Attempts, a: Attempt, b: Attempt, k: nat)
    ensures MoveAll(s, [a, b]) == Move(Move(s, a), b)
    ensures AllPossible(s, [a, b], k) <==> Possible(s, a, k) && Possible(Move(s, a), b, k)
    ensures NeverShortens(s, [a, b]) <==> !Shortens(s, a) && !Shortens(Move(s, a), b)
    ensures FailedAt([a, b]) == (if a.Upsert? then [a.at] else []) + (if b.Upsert? then [b.at] else [])
  {
    hide Move;
    hide Possible;
    hide Shortens;
    MoveOne(s, a, k);
    MoveOne(Move(s, a), b, k);
    MoveAppend(s, [a], [b], k);
    assert [a] + [b] == [a, b];
  }

  lemma {:induction false} OvertakenWorks(s: Attempts, at: int, count: nat)
    requires s.checked == 0 && s.pending == {} && at >= s.now && !CheckAt(s.row, at).blocked
    requires s.row.Some? && s.row.value.failedCount + 2 == count && 3 <= count <= LOCKOUT_THRESHOLD
    ensures
      var events := Overtaken(at, count);
      var t := MoveAll(s, events);
      && AllPossible(s, events, 2) && !NeverShortens(s, events) && FailedAt(events) == [at, at]
      && t.checked == 0 && t.pending == {} && t.now == at
      && t.row == Some(Row(count, Some(at + DelaySecondsFor(count - 1) * SECOND), None))
  {
    var b, u, e, f := Begin(at), Upsert(at), Settle(at, count), Settle(at, count - 1);
    var s1 := s.(checked := 2, now := at);
    var row := s.row.value.(failedCount := count);
    var s2 := s1.(checked := 0, pending := {count - 1, count}, row := Some(row));
    MoveTwo(s, b, b, 2);
    MoveTwo(s1, u, u, 2);
    MoveTwo(s2, e, f, 2);
    MoveAppend(s, [b, b], [u, u], 2);
    MoveAppend(s, [b, b] + [u, u], [e, f], 2);
    hide MoveAll;
    hide AllPossible;
    hide NeverShortens;
    hide FailedAt;
    assert Move(Move(s, b), b) == s1;
    assert |{count - 1}| == 1;
    assert Move(s1, u).pending == {count - 1} && Move(Move(s1, u), u) == s2;
    assert DelaySecondsFor(1) == 1 && DelaySecondsFor(2) == 2 && DelaySecondsFor(3) == 4 && DelaySecondsFor(4) == 8 by {
      assert Pow2(0) == 1 && Pow2(1) == 2 && Pow2(2) == 4 && Pow2(3) == 8;
    }
    hide DelaySecondsFor;
    hide CheckAt;
    var s3 := Move(s2, e);
    assert s3.pending == {count - 1} && Shortens(s3, f);
    assert Move(s3, f).pending == {};
  }

  function FastRun(start: int): seq<Attempt> {
    [Begin(start), Upsert(start)] + [Settle(start, 1)] +
    Overtaken(start + 1 * SECOND, 3) + Overtaken(start + 3 * SECOND, 5) +
    ([Begin(start + 11 * SECOND), Begin(start + 11 * SECOND)] +
      [Upsert(start + 11 * SECOND), Upsert(start + 11 * SECOND)])
  }

  // With two attempts at a time, seven failures in eleven seconds instead of fifteen minutes.
  lemma {:induction false} ShortenedDeadlinesBreakBound(start: int)
    ensures
      var s, times := Fresh(None, start), FailedAt(FastRun(start));
      && AllPossible(s, FastRun(start), 2) && !NeverShortens(s, FastRun(start))
      && |times| == 7 && times[6] - times[0] == 11 * SECOND && LeastOverlapping(7, 2) == 905
  {
    var s := Fresh(None, start);
    var a := [Begin(start), Upsert(start)] + [Settle(start, 1)];
    var t1, t3, t11 := start + 1 * SECOND, start + 3 * SECOND, start + 11 * SECOND;
    FirstFailure(start);
    var s1 := MoveAll(s, a);
    DelayTable();
    assert !CheckAt(s1.row, t1).blocked;
    OvertakenWorks(s1, t1, 3);
    var s2 := MoveAll(s1, Overtaken(t1, 3));
    assert !CheckAt(s2.row, t3).blocked;
    OvertakenWorks(s2, t3, 5);
    var s3 := MoveAll(s2, Overtaken(t3, 5));
    assert !CheckAt(s3.row, t11).blocked;
    hide CheckAt;
    LastTwo(s3, t11);
    hide Overtaken;
    hide MoveAll;
    hide AllPossible;
    hide NeverShortens;
    hide FailedAt;
    MoveAppend(s, a, Overtaken(t1, 3), 2);
    MoveAppend(s, a + Overtaken(t1, 3), Overtaken(t3, 5), 2);
    MoveAppend(s, a + Overtaken(t1, 3) + Overtaken(t3, 5), [Begin(t11), Begin(t11)] + [Upsert(t11), Upsert(t11)], 2);
    BoundTable();
  }

  lemma {:induction false} DelayTable()
    ensures DelaySecondsFor(1) == 1 && DelaySecondsFor(2) == 2 && DelaySecondsFor(4) == 8
  {
    assert Pow2(0) == 1 && Pow2(1) == 2 && Pow2(2) == 4 && Pow2(3) == 8;
  }

  lemma {:induction false} BoundTable()
    ensures LeastOverlapping(7, 2) == 905
  {
    assert Pow2(0) == 1 && Pow2(1) == 2 && Pow2(2) == 4;
    assert LeastOverlapping(1, 2) == 0 && LeastOverlapping(3, 2) == 1 && LeastOverlapping(5, 2) == 5;
  }

  lemma {:induction false} FirstFailure(start: int)
    ensures
      var s, a := Fresh(None, start), [Begin(start), Upsert(start)] + [Settle(start, 1)];
      var t := MoveAll(s, a);
      && AllPossible(s, a, 2) && FailedAt(a) == [start] && t.checked == 0 && t.pending == {} && t.now == start
      && t.row == Some(Row(1, Some(start + DelaySecondsFor(1) * SECOND), None))
  {
    var s := Fresh(None, start);
    MoveTwo(s, Begin(start), Upsert(start), 2);
    var t := Move(Move(s, Begin(start)), Upsert(start));
    MoveOne(t, Settle(start, 1), 2);
    MoveAppend(s, [Begin(start), Upsert(start)], [Settle(start, 1)], 2);
    hide MoveAll;
    hide AllPossible;
    hide NeverShortens;
    hide FailedAt;
    hide DelaySecondsFor;
    assert t.pending == {1} && Move(t, Settle(start, 1)).pending == {};
  }

  lemma {:induction false} LastTwo(s: Attempts, at: int)
    requires s.checked == 0 && s.pending == {} && at >= s.now && !CheckAt(s.row, at).blocked && s.row.Some?
    ensures
      var events := [Begin(at), Begin(at)] + [Upsert(at), Upsert(at)];
      AllPossible(s, events, 2) && FailedAt(events) == [at, at]
  {
    var s1 := s.(checked := 2, now := at);
    MoveTwo(s, Begin(at), Begin(at), 2);
    MoveTwo(s1, Upsert(at), Upsert(at), 2);
    MoveAppend(s, [Begin(at), Begin(at)], [Upsert(at), Upsert(at)], 2);
    hide MoveAll;
    hide AllPossible;
    hide NeverShortens;
    hide FailedAt;
    assert Move(Move(s, Begin(at)), Begin(at)) == s1;
  }

  // ---------------------------------------------------------------------------
  // ... in a table of many users
  // ---------------------------------------------------------------------------

  datatype Act = Act(user: string, attempt: Attempt) | Cleared(user: string)

  // The rows, and what each user has under way.
  datatype Table = Table(rows: map<string, Row>, under: map<string, Attempts>, now: int)

  function Own(t: Table, user: string): Attempts {
    var base := if user in t.under then t.under[user] else Fresh(None, t.now);
    base.(row := RowOf(t.rows, user), now := t.now)
  }

  function Happen(t: Table, a: Act): Table {
    match a
    case Cleared(user) => t.(rows := t.rows[user := Row(0, None, None)])
    case Act(user, attempt) =>
      var next := Move(Own(t, user), attempt);
      Table(if next.row.Some? then t.rows[user := next.row.value] else t.rows, t.under[user := next], attempt.at)
  }

  ghost predicate AllHappen(t: Table, acts: seq<Act>, k: nat)
    decreases |acts|
  {
    acts == [] ||
    ((acts[0].Act? ==> Possible(Own(t, acts[0].user), acts[0].attempt, k)) &&
     AllHappen(Happen(t, acts[0]), acts[1..], k))
  }

  function OwnAttempts(acts: seq<Act>, user: string): seq<Attempt>
    decreases |acts|
  {
    if acts == [] then []
    else (if acts[0].Act? && acts[0].user == user then [acts[0].attempt] else []) + OwnAttempts(acts[1..], user)
  }

  // Other users only let time pass.
  lemma {:induction false} LaterIsPossible(s: Attempts, now: int, events: seq<Attempt>, k: nat)
    requires now <= s.now && AllPossible(s, events, k)
    ensures AllPossible(s.(now := now), events, k)
  {
    hide CheckAt;
    hide Gap;
    if events != [] {
      assert Move(s.(now := now), events[0]) == Move(s, events[0]);
    }
  }

  lemma {:induction false} OthersLeaveAlone(t: Table, a: Act, user: string, k: nat)
    requires a.user != user && (a.Act? ==> Possible(Own(t, a.user), a.attempt, k))
    ensures Own(Happen(t, a), user).(now := t.now) == Own(t, user) && Happen(t, a).now >= t.now
  {
    hide CheckAt;
    hide Move;
  }

  lemma {:induction false} OwnActMoves(t: Table, a: Act)
    requires a.Act?
    ensures Own(Happen(t, a), a.user) == Move(Own(t, a.user), a.attempt)
  {
    hide Upserted;
    hide Settled;
    hide Gap;
  }

  lemma {:induction false} UserSeesOwnAttempts(t: Table, acts: seq<Act>, user: string, k: nat)
    requires AllHappen(t, acts, k) && Cleared(user) !in acts
    ensures AllPossible(Own(t, user), OwnAttempts(acts, user), k)
    decreases |acts|
  {
    hide Possible;
    hide Move;
    if acts != [] {
      var a, next, rest := acts[0], Happen(t, acts[0]), acts[1..];
      UserSeesOwnAttempts(next, rest, user, k);
      if a.user == user {
        assert a.Act?;
        OwnActMoves(t, a);
        assert OwnAttempts(acts, user)[1..] == OwnAttempts(rest, user);
      } else {
        OthersLeaveAlone(t, a, user, k);
        LaterIsPossible(Own(next, user), t.now, OwnAttempts(rest, user), k);
        assert OwnAttempts(acts, user) == OwnAttempts(rest, user);
      }
    }
  }

  // From any table nobody is using, in any interleaving of users and statements with at most k
  // attempts of each in flight: between two successes of a user none of whose deadlines is written
  // over a later one, n failures of that user take at least this long; and for a user with four
  // failures or more the lockouts count whatever the interleaving.
  lemma {:induction false} NoUserFailsFasterOverlapping(rows: map<string, Row>, start: int, acts: seq<Act>,
                                                        user: string, k: nat, m: nat)
    requires k >= 1 && AllHappen(Table(rows, map[], start), acts, k) && Cleared(user) !in acts
    ensures
      var events := OwnAttempts(acts, user);
      var times := FailedAt(events);
      && (times != [] && NeverShortens(Fresh(RowOf(rows, user), start), events) ==>
            times[|times| - 1] - times[0] >= LeastOverlapping(|times|, k) * SECOND)
      && (Failures(RowOf(rows, user)) >= LOCKOUT_THRESHOLD - 1 && |times| > m * k ==>
            times[|times| - 1] - times[0] >= m * LOCKOUT_DURATION_SECONDS * SECOND)
  {
    var table, row, events := Table(rows, map[], start), RowOf(rows, user), OwnAttempts(acts, user);
    UserSeesOwnAttempts(table, acts, user, k);
    assert Own(table, user) == Fresh(row, start);
    hide *;
    if NeverShortens(Fresh(row, start), events) {
      OverlappingFailuresTakeAtLeast(row, start, events, k);
    }
    if Failures(row) >= LOCKOUT_THRESHOLD - 1 {
      LockedFailuresTakeAtLeast(row, start, events, k, m);
    }
  }
}
