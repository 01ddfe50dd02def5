/** The IMAP fetch loop: which messages each run lands, and that none is delivered twice or lost. */
module ImapWorker {
  import opened Strings
  import opened Extremes

  // A message on the server. `bytes` is empty when the server returned no source.
  datatype Message = Message(uid: nat, bytes: seq<int>)

  // UIDs are positive and strictly ascending (section 2.3.1.1 of RFC 3501).
  ghost predicate Ascending(box: seq<Message>) {
    && (forall i :: 0 <= i < |box| ==> box[i].uid >= 1)
    && (forall i, j :: 0 <= i < j < |box| ==> box[i].uid < box[j].uid)
  }

  function From(box: seq<Message>, uid: nat): seq<Message> {
    if box == [] then []
    else (if box[0].uid >= uid then [box[0]] else []) + From(box[1..], uid)
  }

  // The answer to a fetch of `uid:*`: with no such message it is the last one in the mailbox
  // (section 6.4.8 of RFC 3501).
  function FetchRange(box: seq<Message>, uid: nat): seq<Message> {
    if From(box, uid) == [] && box != [] then [box[|box| - 1]] else From(box, uid)
  }

  predicate Fresh(since: nat, m: Message) {
    m.uid != 0 && m.bytes != [] && m.uid > since
  }

  function Land(stream: seq<Message>, since: nat, limit: nat): seq<Message> {
    if stream == [] || limit == 0 then []
    else if Fresh(since, stream[0]) then [stream[0]] + Land(stream[1..], since, limit - 1)
    else Land(stream[1..], since, limit)
  }

  lemma {:induction false} LandMeans(stream: seq<Message>, since: nat, limit: nat)
    ensures
      var landed := Land(stream, since, limit);
      && |landed| <= limit
      && (forall m :: m in landed ==> m in stream && m.uid != 0 && m.bytes != [] && m.uid > since)
      && (|landed| < limit ==>
            forall m :: m in stream && m.uid != 0 && m.bytes != [] && m.uid > since ==> m in landed)
  {
    if stream != [] && limit > 0 {
      LandMeans(stream[1..], since, if Fresh(since, stream[0]) then limit - 1 else limit);
      assert stream == [stream[0]] + stream[1..];
    }
  }

  // The batch size is only compared after a push, so at least one message can land.
  function Limit(batchSize: int): nat {
    if batchSize < 1 then 1 else batchSize
  }

  // Only new messages with a source land, at most a batch of them, and all of them if they are fewer.
  ghost predicate LandsNew(stream: seq<Message>, since: nat, batchSize: int, landed: seq<Message>) {
    && (forall m :: m in landed ==> m in stream && m.uid != 0 && m.bytes != [] && m.uid > since)
    && (|landed| <= 1 || |landed| <= batchSize)
    && (|landed| == 0 || |landed| < batchSize ==>
          forall m :: m in stream && m.uid != 0 && m.bytes != [] && m.uid > since ==> m in landed)
  }

  lemma {:induction false} BatchLandsNew(stream: seq<Message>, since: nat, batchSize: int)
    ensures LandsNew(stream, since, batchSize, Land(stream, since, Limit(batchSize)))
  {
    LandMeans(stream, since, Limit(batchSize));
  }

  method LandMessages(stream: seq<Message>, since: nat, batchSize: int) returns (landed: seq<Message>)
    ensures landed == Land(stream, since, Limit(batchSize))
  {
    landed := [];
    for i := 0 to |stream|
      invariant |landed| < Limit(batchSize)
      invariant landed + Land(stream[i..], since, Limit(batchSize) - |landed|) == Land(stream, since, Limit(batchSize))
    {
      var msg := stream[i];
      assert stream[i..][1..] == stream[i + 1..];
      if msg.uid == 0 || msg.bytes == [] {
        continue;
      }
      if msg.uid <= since {
        continue;
      }
      landed := landed + [msg];
      if |landed| >= batchSize {
        return;
      }
    }
  }

  datatype FetchResult = FetchResult(messages: seq<nat>, highestUid: nat, failedUids: seq<nat>)

  function Uids(landed: seq<Message>): seq<nat> {
    if landed == [] then [] else [landed[0].uid] + Uids(landed[1..])
  }

  // Landed UIDs whose parse succeeds (`flag`) or fails.
  function Classified(parses: nat -> bool, landed: seq<Message>, flag: bool): seq<nat> {
    if landed == [] then [] else ClassifiedOne(parses, landed[0], flag) + Classified(parses, landed[1..], flag)
  }

  function ClassifiedOne(parses: nat -> bool, m: Message, flag: bool): seq<nat> {
    if parses(m.uid) == flag then [m.uid] else []
  }

  function Highest(landed: seq<Message>): nat {
    if landed == [] then 0
    else
      var rest := Highest(landed[1..]);
      if landed[0].uid > rest then landed[0].uid else rest
  }

  function Fetch(parses: nat -> bool, landed: seq<Message>): FetchResult {
    FetchResult(Classified(parses, landed, true), Highest(landed), Classified(parses, landed, false))
  }

  lemma {:induction false} ClassifiedAppend(parses: nat -> bool, a: seq<Message>, b: seq<Message>, flag: bool)
    ensures Classified(parses, a + b, flag) == Classified(parses, a, flag) + Classified(parses, b, flag)
  {
    hide ClassifiedOne;
    if a == [] {
      assert a + b == b;
    } else {
      ClassifiedAppend(parses, a[1..], b, flag);
      assert (a + b)[0] == a[0] && (a + b)[1..] == a[1..] + b;
      Regroup(ClassifiedOne(parses, a[0], flag), Classified(parses, a[1..], flag), Classified(parses, b, flag));
    }
  }

  lemma {:induction false} ClassifiedPush(parses: nat -> bool, landed: seq<Message>, m: Message, flag: bool)
    ensures Classified(parses, landed + [m], flag) == Classified(parses, landed, flag) + ClassifiedOne(parses, m, flag)
  {
    ClassifiedAppend(parses, landed, [m], flag);
    assert Classified(parses, [m], flag) == ClassifiedOne(parses, m, flag) + Classified(parses, [], flag);
  }

  lemma {:induction false} HighestPush(landed: seq<Message>, m: Message)
    ensures Highest(landed + [m]) == if m.uid > Highest(landed) then m.uid else Highest(landed)
  {
    if landed == [] {
      assert landed + [m] == [m] && Highest([m]) == if m.uid > Highest([]) then m.uid else Highest([]);
    } else {
      HighestPush(landed[1..], m);
      assert (landed + [m])[1..] == landed[1..] + [m];
    }
  }

  // Each landed UID is in one of the two lists, by whether it parses; the reported UID is the largest.
  ghost predicate SortedByParse(parses: nat -> bool, landed: seq<Message>, r: FetchResult) {
    && (forall m :: m in landed ==>
          (m.uid in r.messages <==> parses(m.uid)) && (m.uid in r.failedUids <==> !parses(m.uid)))
    && multiset(r.messages) + multiset(r.failedUids) == multiset(Uids(landed))
    && (forall m :: m in landed ==> m.uid <= r.highestUid)
    && (if landed == [] then r.highestUid == 0 else exists m :: m in landed && m.uid == r.highestUid)
  }

  lemma {:induction false} FetchSortsByParse(parses: nat -> bool, landed: seq<Message>)
    ensures SortedByParse(parses, landed, Fetch(parses, landed))
  {
    ClassifiedIff(parses, landed, true);
    ClassifiedIff(parses, landed, false);
    ClassifiedPartition(parses, landed);
    HighestIsMaximum(landed);
  }

  lemma {:induction false} ClassifiedIff(parses: nat -> bool, landed: seq<Message>, flag: bool)
    ensures forall u :: u in Classified(parses, landed, flag) ==> parses(u) == flag && InUids(landed, u)
    ensures forall m :: m in landed && parses(m.uid) == flag ==> m.uid in Classified(parses, landed, flag)
  {
    if landed != [] {
      ClassifiedIff(parses, landed[1..], flag);
      assert landed == [landed[0]] + landed[1..];
      assert forall m :: m in landed[1..] ==> m in landed;
      forall u | u in Classified(parses, landed, flag) ensures parses(u) == flag && InUids(landed, u) {
        if u != landed[0].uid {
          assert InUids(landed[1..], u);
        } else {
          assert landed[0] in landed;
        }
      }
    }
  }

  ghost predicate InUids(landed: seq<Message>, u: nat) {
    exists m :: m in landed && m.uid == u
  }

  lemma {:induction false} HighestIsMaximum(landed: seq<Message>)
    ensures forall m :: m in landed ==> m.uid <= Highest(landed)
    ensures if landed == [] then Highest(landed) == 0 else InUids(landed, Highest(landed))
  {
    if landed != [] {
      HighestIsMaximum(landed[1..]);
      assert landed == [landed[0]] + landed[1..];
      assert landed[0] in landed;
      if Highest(landed) != landed[0].uid {
        var m :| m in landed[1..] && m.uid == Highest(landed);
        assert m in landed;
      }
    }
  }

  // `fetchNewMessages` once the connection has delivered its stream.
  method FetchNewMessages(parses: nat -> bool, stream: seq<Message>, since: nat,
                          batchSize: int) returns (r: FetchResult)
    ensures r == Fetch(parses, Land(stream, since, Limit(batchSize)))
    ensures SortedByParse(parses, Land(stream, since, Limit(batchSize)), r)
  {
    hide SortedByParse;
    hide Land;
    var landed := LandMessages(stream, since, batchSize);
    FetchSortsByParse(parses, landed);
    if |landed| == 0 {
      return FetchResult([], 0, []);
    }
    var messages: seq<nat>, failedUids: seq<nat>, highestUid := [], [], 0;
    for i := 0 to |landed|
      invariant FetchResult(messages, highestUid, failedUids) == Fetch(parses, landed[..i])
    {
      var uid := landed[i].uid;
      ClassifiedPush(parses, landed[..i], landed[i], true);
      ClassifiedPush(parses, landed[..i], landed[i], false);
      HighestPush(landed[..i], landed[i]);
      assert landed[..i + 1] == landed[..i] + [landed[i]];
      if uid > highestUid {
        highestUid := uid;
      }
      if parses(uid) {
        messages := messages + [uid];
      } else {
        failedUids := failedUids + [uid];
      }
    }
    assert landed[..|landed|] == landed;
    r := FetchResult(messages, highestUid, failedUids);
  }

  // ---------------------------------------------------------------------------
  // What one fetch lands
  // ---------------------------------------------------------------------------

  function FreshOnes(stream: seq<Message>, since: nat): seq<Message> {
    if stream == [] then []
    else (if Fresh(since, stream[0]) then [stream[0]] else []) + FreshOnes(stream[1..], since)
  }

  function Take(messages: seq<Message>, n: nat): seq<Message> {
    if |messages| <= n then messages else messages[..n]
  }

  lemma {:induction false} LandTakesFresh(stream: seq<Message>, since: nat, limit: nat)
    ensures Land(stream, since, limit) == Take(FreshOnes(stream, since), limit)
  {
    hide Fresh;
    if stream == [] || limit == 0 {
    } else if Fresh(since, stream[0]) {
      LandTakesFresh(stream[1..], since, limit - 1);
      var rest := FreshOnes(stream[1..], since);
      assert Take([stream[0]] + rest, limit) == [stream[0]] + Take(rest, limit - 1);
    } else {
      LandTakesFresh(stream[1..], since, limit);
    }
  }

  lemma {:induction false} FreshLieBeyond(box: seq<Message>, since: nat)
    ensures FreshOnes(From(box, since + 1), since) == FreshOnes(box, since)
  {
    if box != [] {
      FreshLieBeyond(box[1..], since);
      var rest := From(box[1..], since + 1);
      if box[0].uid >= since + 1 {
        assert From(box, since + 1)[1..] == rest;
      } else {
        assert From(box, since + 1) == rest;
      }
    }
  }

  // The messages that came with a source.
  function Sourced(box: seq<Message>): seq<Message> {
    if box == [] then [] else SourcedOne(box[0]) + Sourced(box[1..])
  }

  function SourcedOne(m: Message): seq<Message> {
    if m.bytes != [] then [m] else []
  }

  lemma {:induction false} SourcedMembers(box: seq<Message>)
    requires Ascending(box)
    ensures Ascending(Sourced(box))
    ensures forall m :: m in Sourced(box) ==> m in box
    ensures forall i :: 0 <= i < |Sourced(box)| ==> Sourced(box)[i].bytes != []
  {
    if box != [] {
      assert box == [box[0]] + box[1..];
      SourcedMembers(box[1..]);
      var rest := Sourced(box[1..]);
      forall i | 0 <= i < |rest| ensures box[0].uid < rest[i].uid && rest[i].uid >= 1 {
        assert rest[i] in rest;
      }
    }
  }

  // How many messages of an ascending list lie at or below the checkpoint.
  function CountUpTo(messages: seq<Message>, since: nat): (n: nat)
    ensures n <= |messages|
  {
    if messages == [] || messages[0].uid > since then 0 else 1 + CountUpTo(messages[1..], since)
  }

  function Passed(box: seq<Message>, since: nat): seq<Message> {
    Sourced(box)[..CountUpTo(Sourced(box), since)]
  }

  function Waiting(box: seq<Message>, since: nat): seq<Message> {
    Sourced(box)[CountUpTo(Sourced(box), since)..]
  }

  lemma {:induction false} CountAt(messages: seq<Message>, j: nat)
    requires Ascending(messages) && j < |messages|
    ensures CountUpTo(messages, messages[j].uid) == j + 1
  {
    if j == 0 {
      assert |messages| > 1 ==> messages[1..][0].uid > messages[0].uid;
    } else {
      CountAt(messages[1..], j - 1);
      assert messages[0].uid < messages[j].uid;
    }
  }

  lemma {:induction false} FreshHaveSources(box: seq<Message>, since: nat)
    ensures FreshOnes(Sourced(box), since) == FreshOnes(box, since)
  {
    if box != [] {
      FreshHaveSources(box[1..], since);
      if box[0].bytes != [] {
        assert Sourced(box)[1..] == Sourced(box[1..]);
      } else {
        assert Sourced(box) == Sourced(box[1..]);
      }
    }
  }

  lemma {:induction false} AllFresh(messages: seq<Message>, since: nat)
    requires forall i :: 0 <= i < |messages| ==> Fresh(since, messages[i])
    ensures FreshOnes(messages, since) == messages
  {
    if messages != [] {
      AllFresh(messages[1..], since);
    }
  }

  lemma {:induction false} FreshAreLast(messages: seq<Message>, since: nat)
    requires Ascending(messages) && forall i :: 0 <= i < |messages| ==> messages[i].bytes != []
    ensures FreshOnes(messages, since) == messages[CountUpTo(messages, since)..]
  {
    if messages != [] {
      if messages[0].uid > since {
        AllFresh(messages, since);
        assert messages[0..] == messages;
      } else {
        FreshAreLast(messages[1..], since);
        assert messages[1..][CountUpTo(messages[1..], since)..] == messages[1 + CountUpTo(messages[1..], since)..];
      }
    }
  }

  lemma {:induction false} FreshIsWaiting(box: seq<Message>, since: nat)
    requires Ascending(box)
    ensures FreshOnes(box, since) == Waiting(box, since)
  {
    SourcedMembers(box);
    FreshHaveSources(box, since);
    FreshAreLast(Sourced(box), since);
  }

  // One fetch lands the next batch of waiting messages; the `n:*` rule cannot bring back an old
  // one, because the loop drops it.
  lemma {:induction false} FetchLandsNextBatch(box: seq<Message>, since: nat, limit: nat)
    requires Ascending(box)
    ensures Land(FetchRange(box, since + 1), since, limit) == Take(Waiting(box, since), limit)
  {
    FreshLieBeyond(box, since);
    FreshIsWaiting(box, since);
    LandTakesFresh(FetchRange(box, since + 1), since, limit);
    if From(box, since + 1) == [] && box != [] {
      NothingFrom(box, since + 1);
      OldIsNotFresh(box[|box| - 1], since);
    }
  }

  lemma {:induction false} OldIsNotFresh(m: Message, since: nat)
    requires m.uid <= since
    ensures FreshOnes([m], since) == []
  {
    assert FreshOnes([m], since) == [] + FreshOnes([m][1..], since);
  }

  lemma {:induction false} NothingFrom(box: seq<Message>, uid: nat)
    requires From(box, uid) == []
    ensures forall i :: 0 <= i < |box| ==> box[i].uid < uid
  {
    if box != [] {
      NothingFrom(box[1..], uid);
    }
  }

  // ---------------------------------------------------------------------------
  // Repeated fetches
  // ---------------------------------------------------------------------------

  // The mailbox, the saved checkpoint and everything handed to the caller so far.
  datatype State = State(box: seq<Message>, checkpoint: nat, messages: seq<nat>, failed: seq<nat>)

  // Mail arrives, then one fetch runs; the checkpoint is the maximum seen.
  datatype Round = Round(arrivals: seq<Message>, batchSize: int)

  function Step(parses: nat -> bool, s: State, r: Round): State {
    var box := s.box + r.arrivals;
    var landed := Land(FetchRange(box, s.checkpoint + 1), s.checkpoint, Limit(r.batchSize));
    var fetched := Fetch(parses, landed);
    State(box, if fetched.highestUid > s.checkpoint then fetched.highestUid else s.checkpoint,
          s.messages + fetched.messages, s.failed + fetched.failedUids)
  }

  function Run(parses: nat -> bool, s: State, rounds: seq<Round>): State
    decreases |rounds|
  {
    if rounds == [] then s else Run(parses, Step(parses, s, rounds[0]), rounds[1..])
  }

  ghost predicate Inside(box: seq<Message>, checkpoint: nat) {
    checkpoint == 0 || exists i :: 0 <= i < |box| && checkpoint <= box[i].uid
  }

  // What has been delivered is exactly what the checkpoint has passed, split by parse result.
  ghost predicate ExactlyOnce(parses: nat -> bool, s: State) {
    && Inside(s.box, s.checkpoint)
    && s.messages == Classified(parses, Passed(s.box, s.checkpoint), true)
    && s.failed == Classified(parses, Passed(s.box, s.checkpoint), false)
  }

  lemma {:induction false} SourcedAppend(a: seq<Message>, b: seq<Message>)
    ensures Sourced(a + b) == Sourced(a) + Sourced(b)
  {
    hide SourcedOne;
    if a == [] {
      assert a + b == b;
    } else {
      SourcedAppend(a[1..], b);
      assert (a + b)[0] == a[0] && (a + b)[1..] == a[1..] + b;
      Regroup(SourcedOne(a[0]), Sourced(a[1..]), Sourced(b));
    }
  }

  lemma {:induction false} CountIgnoresLater(a: seq<Message>, b: seq<Message>, since: nat)
    requires forall m :: m in b ==> m.uid > since
    ensures CountUpTo(a + b, since) == CountUpTo(a, since)
  {
    if a == [] {
      assert a + b == b;
      assert b != [] ==> b[0] in b;
    } else {
      CountIgnoresLater(a[1..], b, since);
      assert (a + b)[0] == a[0] && (a + b)[1..] == a[1..] + b;
    }
  }

  lemma {:induction false} ArrivalsAreLater(box: seq<Message>, arrivals: seq<Message>, since: nat, j: nat)
    requires Ascending(box + arrivals) && Inside(box, since) && j < |arrivals|
    ensures arrivals[j].uid > since
  {
    var all := box + arrivals;
    assert all[|box| + j] == arrivals[j];
    if since > 0 {
      var i :| 0 <= i < |box| && since <= box[i].uid;
      assert all[i] == box[i] && all[i].uid < all[|box| + j].uid;
    }
  }

  // Mail that arrives later does not change what was passed.
  lemma {:induction false} ArrivalsAreNotPassed(box: seq<Message>, arrivals: seq<Message>, since: nat)
    requires Ascending(box + arrivals) && Inside(box, since)
    ensures Passed(box + arrivals, since) == Passed(box, since) && Inside(box + arrivals, since)
  {
    var all := box + arrivals;
    assert Ascending(arrivals) by {
      assert forall i :: 0 <= i < |arrivals| ==> arrivals[i] == all[|box| + i];
    }
    SourcedMembers(arrivals);
    SourcedAppend(box, arrivals);
    hide Sourced;
    var x, y := Sourced(box), Sourced(arrivals);
    forall m | m in y ensures m.uid > since {
      var j :| 0 <= j < |arrivals| && arrivals[j] == m;
      ArrivalsAreLater(box, arrivals, since, j);
    }
    CountIgnoresLater(x, y, since);
    hide CountUpTo;
    assert (x + y)[..CountUpTo(x, since)] == x[..CountUpTo(x, since)];
    if since > 0 {
      var i :| 0 <= i < |box| && since <= box[i].uid;
      assert all[i] == box[i];
    }
  }

  lemma {:induction false} TakeSlice(x: seq<Message>, k: nat, limit: nat)
    requires k <= |x|
    ensures
      var n := |Take(x[k..], limit)|;
      && k + n <= |x| && Take(x[k..], limit) == x[k..k + n]
      && x[..k + n] == x[..k] + x[k..k + n] && x[k..][n..] == x[k + n..]
  {
  }

  lemma {:induction false} SliceAscends(x: seq<Message>, k: nat, n: nat)
    requires Ascending(x) && k + n <= |x|
    ensures Ascending(x[k..k + n])
    ensures Highest(x[k..k + n]) == if n == 0 then 0 else x[k + n - 1].uid
  {
    var y := x[k..k + n];
    assert forall i :: 0 <= i < n ==> y[i] == x[k + i];
    HighestIsLast(y);
  }

  lemma {:induction false} CheckpointAt(box: seq<Message>, since: nat, j: nat)
    requires Ascending(box) && CountUpTo(Sourced(box), since) <= j < |Sourced(box)|
    ensures
      var x := Sourced(box);
      var next := x[j].uid;
      next > since && Passed(box, next) == x[..j + 1] && Waiting(box, next) == x[j + 1..] && Inside(box, next)
  {
    var x := Sourced(box);
    SourcedMembers(box);
    CountAt(x, j);
    CountIsStrict(x, since, j);
    assert x[j] in x;
    var i :| 0 <= i < |box| && box[i] == x[j];
  }

  // Moving the checkpoint to the highest landed UID passes exactly the landed messages.
  lemma {:induction false} CheckpointPasses(box: seq<Message>, since: nat, limit: nat)
    requires Ascending(box) && Inside(box, since)
    ensures
      var landed := Take(Waiting(box, since), limit);
      var next := if Highest(landed) > since then Highest(landed) else since;
      && Passed(box, next) == Passed(box, since) + landed
      && Waiting(box, next) == Waiting(box, since)[|landed|..]
      && Inside(box, next)
  {
    hide *;
    var x := Sourced(box);
    var k := CountUpTo(x, since);
    SplitPoint(box, since);
    SourcedMembers(box);
    TakeSlice(x, k, limit);
    var n := |Take(x[k..], limit)|;
    SliceAscends(x, k, n);
    if n > 0 {
      CheckpointAt(box, since, k + n - 1);
    } else {
      assert x[..k] + [] == x[..k] && x[k..][0..] == x[k..];
    }
  }

  lemma {:induction false} SplitPoint(box: seq<Message>, since: nat)
    ensures
      var k := CountUpTo(Sourced(box), since);
      Waiting(box, since) == Sourced(box)[k..] && Passed(box, since) == Sourced(box)[..k]
  {
  }

  lemma {:induction false} CountIsStrict(messages: seq<Message>, since: nat, j: nat)
    requires Ascending(messages) && CountUpTo(messages, since) <= j < |messages|
    ensures messages[j].uid > since
  {
    if messages[0].uid <= since {
      CountIsStrict(messages[1..], since, j - 1);
    } else {
      assert j > 0 ==> messages[0].uid < messages[j].uid;
    }
  }

  lemma {:induction false} HighestIsLast(landed: seq<Message>)
    requires Ascending(landed)
    ensures Highest(landed) == if landed == [] then 0 else landed[|landed| - 1].uid
  {
    if landed != [] {
      HighestIsLast(landed[1..]);
    }
  }

  lemma {:induction false} StepIsExactlyOnce(parses: nat -> bool, s: State, r: Round)
    requires ExactlyOnce(parses, s) && Ascending(s.box + r.arrivals)
    ensures ExactlyOnce(parses, Step(parses, s, r))
  {
    hide Ascending;
    hide Inside;
    hide Passed;
    hide Waiting;
    hide Land;
    hide Classified;
    var box, limit := s.box + r.arrivals, Limit(r.batchSize);
    var landed := Take(Waiting(box, s.checkpoint), limit);
    ArrivalsAreNotPassed(s.box, r.arrivals, s.checkpoint);
    FetchLandsNextBatch(box, s.checkpoint, limit);
    CheckpointPasses(box, s.checkpoint, limit);
    ClassifiedAppend(parses, Passed(box, s.checkpoint), landed, true);
    ClassifiedAppend(parses, Passed(box, s.checkpoint), landed, false);
  }

  // Arrivals keep the mailbox in ascending order at every round.
  ghost predicate Delivery(box: seq<Message>, rounds: seq<Round>)
    decreases |rounds|
  {
    Ascending(box) && (rounds == [] || Delivery(box + rounds[0].arrivals, rounds[1..]))
  }

  lemma {:induction false} RunKeepsExactlyOnce(parses: nat -> bool, s: State, rounds: seq<Round>)
    requires ExactlyOnce(parses, s) && Delivery(s.box, rounds)
    ensures ExactlyOnce(parses, Run(parses, s, rounds))
    decreases |rounds|
  {
    hide ExactlyOnce;
    hide Ascending;
    if rounds != [] {
      assert Delivery(s.box + rounds[0].arrivals, rounds[1..]);
      StepIsExactlyOnce(parses, s, rounds[0]);
      RunKeepsExactlyOnce(parses, Step(parses, s, rounds[0]), rounds[1..]);
    }
  }

  // Over any number of rounds, batch sizes and parse failures: every message with a source that
  // the checkpoint has passed was handed over exactly once, as parsed or as failed, in order.
  lemma {:induction false} RunIsExactlyOnce(parses: nat -> bool, box: seq<Message>, rounds: seq<Round>)
    requires Ascending(box) && Delivery(box, rounds)
    ensures ExactlyOnce(parses, Run(parses, State(box, 0, [], []), rounds))
  {
    StartIsExact(parses, box);
    hide *;
    RunKeepsExactlyOnce(parses, State(box, 0, [], []), rounds);
  }

  lemma {:induction false} PassedIff(box: seq<Message>, since: nat, m: Message)
    requires Ascending(box)
    ensures m in Passed(box, since) <==> m in box && m.bytes != [] && m.uid <= since
  {
    SourcedMembers(box);
    SourcedIff(box, m);
    var x, k := Sourced(box), CountUpTo(Sourced(box), since);
    CountedAreBelow(x, since);
    hide Sourced;
    if m in x {
      var j :| 0 <= j < |x| && x[j] == m;
      if j < k {
        assert x[..k][j] == m;
      } else {
        CountIsStrict(x, since, j);
      }
    }
  }

  lemma {:induction false} SourcedIff(box: seq<Message>, m: Message)
    ensures m in Sourced(box) <==> m in box && m.bytes != []
  {
    if box != [] {
      SourcedIff(box[1..], m);
      assert box == [box[0]] + box[1..];
    }
  }

  lemma {:induction false} CountedAreBelow(messages: seq<Message>, since: nat)
    ensures forall j :: 0 <= j < CountUpTo(messages, since) ==> messages[j].uid <= since
  {
    if messages != [] && messages[0].uid <= since {
      CountedAreBelow(messages[1..], since);
      assert forall j :: 1 <= j < CountUpTo(messages, since) ==> messages[j] == messages[1..][j - 1];
    }
  }

  // Over any run, the parsed list holds exactly the UIDs at or below the checkpoint that carry a
  // source and parse, the failed list exactly those that do not parse.
  lemma {:induction false} RunHandsOverByParse(parses: nat -> bool, box: seq<Message>, rounds: seq<Round>, u: nat)
    requires Ascending(box) && Delivery(box, rounds)
    ensures
      var s := Run(parses, State(box, 0, [], []), rounds);
      var due := exists m :: m in s.box && m.uid == u && m.bytes != [] && u <= s.checkpoint;
      && (u in s.messages <==> due && parses(u))
      && (u in s.failed <==> due && !parses(u))
  {
    var s := Run(parses, State(box, 0, [], []), rounds);
    RunIsExactlyOnce(parses, box, rounds);
    RunAscends(parses, State(box, 0, [], []), rounds);
    hide Run;
    var passed := Passed(s.box, s.checkpoint);
    ClassifiedIff(parses, passed, true);
    ClassifiedIff(parses, passed, false);
    hide Passed;
    hide Classified;
    hide Ascending;
    forall m ensures m in passed <==> m in s.box && m.bytes != [] && m.uid <= s.checkpoint {
      PassedIff(s.box, s.checkpoint, m);
    }
  }

  lemma {:induction false} RunAscends(parses: nat -> bool, s: State, rounds: seq<Round>)
    requires Delivery(s.box, rounds)
    ensures Ascending(Run(parses, s, rounds).box)
    decreases |rounds|
  {
    hide Ascending;
    if rounds != [] {
      assert Step(parses, s, rounds[0]).box == s.box + rounds[0].arrivals;
      hide Step;
      RunAscends(parses, Step(parses, s, rounds[0]), rounds[1..]);
    }
  }

  lemma {:induction false} StartIsExact(parses: nat -> bool, box: seq<Message>)
    requires Ascending(box)
    ensures ExactlyOnce(parses, State(box, 0, [], []))
  {
    hide Passed;
    hide Ascending;
    hide Classified;
    NothingPassedYet(box);
    NothingClassified(parses);
  }

  lemma {:induction false} NothingClassified(parses: nat -> bool)
    ensures Classified(parses, [], true) == [] && Classified(parses, [], false) == []
  {
  }

  lemma {:induction false} ClassifiedPartition(parses: nat -> bool, landed: seq<Message>)
    ensures multiset(Classified(parses, landed, true)) + multiset(Classified(parses, landed, false)) ==
      multiset(Uids(landed))
  {
    if landed != [] {
      ClassifiedPartition(parses, landed[1..]);
    }
  }

  lemma {:induction false} UidOccursOnce(messages: seq<Message>, i: nat)
    requires Ascending(messages) && i < |messages|
    ensures multiset(Uids(messages))[messages[i].uid] == 1
    ensures forall u :: u < messages[0].uid ==> multiset(Uids(messages))[u] == 0
  {
    var rest := messages[1..];
    assert multiset(Uids(messages)) == multiset{messages[0].uid} + multiset(Uids(rest));
    if rest != [] {
      UidOccursOnce(rest, if i > 0 then i - 1 else 0);
      assert messages[0].uid < rest[0].uid;
    }
  }

  // Stated on counts: a message with a source, once passed, is among the parsed and the failed
  // UIDs exactly one time in total.
  lemma {:induction false} PassedMessageIsHandedOverOnce(parses: nat -> bool, s: State, m: Message)
    requires Ascending(s.box) && ExactlyOnce(parses, s) && m in Passed(s.box, s.checkpoint)
    ensures (multiset(s.messages) + multiset(s.failed))[m.uid] == 1
  {
    var passed := Passed(s.box, s.checkpoint);
    ClassifiedPartition(parses, passed);
    SourcedMembers(s.box);
    SliceAscends(Sourced(s.box), 0, |passed|);
    var i :| 0 <= i < |passed| && passed[i] == m;
    UidOccursOnce(passed, i);
  }

  // A quiet mailbox is drained: each round takes a full batch off the waiting list.
  lemma {:induction false} RoundDrainsBatch(parses: nat -> bool, s: State, batchSize: int)
    requires Ascending(s.box) && Inside(s.box, s.checkpoint)
    ensures
      var next := Step(parses, s, Round([], batchSize));
      var waiting := Waiting(s.box, s.checkpoint);
      && next.box == s.box
      && Waiting(next.box, next.checkpoint) == waiting[|Take(waiting, Limit(batchSize))|..]
  {
    hide Waiting;
    hide Land;
    hide FetchRange;
    hide Passed;
    hide Take;
    hide Ascending;
    hide Inside;
    hide Classified;
    assert s.box + [] == s.box;
    FetchLandsNextBatch(s.box, s.checkpoint, Limit(batchSize));
    CheckpointPasses(s.box, s.checkpoint, Limit(batchSize));
  }

  lemma {:induction false} NothingPassedYet(box: seq<Message>)
    requires Ascending(box)
    ensures Passed(box, 0) == [] && Waiting(box, 0) == Sourced(box)
  {
    var x := Sourced(box);
    SourcedMembers(box);
    assert CountUpTo(x, 0) == 0;
    assert x[0..] == x;
  }

  lemma {:induction false} EverythingPassed(box: seq<Message>, since: nat)
    requires Waiting(box, since) == []
    ensures Passed(box, since) == Sourced(box)
  {
    hide Sourced;
    hide CountUpTo;
    assert CountUpTo(Sourced(box), since) == |Sourced(box)|;
  }

  lemma {:induction false} NothingLanded(limit: nat)
    ensures Highest(Take([], limit)) == 0
  {
  }

  // Saving `highestUid` verbatim instead of the maximum resets the checkpoint on an empty fetch,
  // and the next fetch delivers the mailbox from its first message again.
  lemma {:induction false} VerbatimCheckpointRedelivers(box: seq<Message>, since: nat, batchSize: int)
    requires Ascending(box) && Waiting(box, since) == []
    ensures Highest(Land(FetchRange(box, since + 1), since, Limit(batchSize))) == 0
    ensures Land(FetchRange(box, 1), 0, Limit(batchSize)) == Take(Passed(box, since), Limit(batchSize))
  {
    hide *;
    FetchLandsNextBatch(box, since, Limit(batchSize));
    FetchLandsNextBatch(box, 0, Limit(batchSize));
    NothingPassedYet(box);
    EverythingPassed(box, since);
    NothingLanded(Limit(batchSize));
  }

  // ---------------------------------------------------------------------------
  // Saving `highestUid` verbatim: exactly when it does no harm
  // ---------------------------------------------------------------------------

  // The saved UID is the one to save exactly when something was waiting or nothing was passed yet.
  lemma {:induction false} VerbatimIsMaximumIff(box: seq<Message>, since: nat, batchSize: int)
    requires Ascending(box)
    ensures
      var highest := Highest(Land(FetchRange(box, since + 1), since, Limit(batchSize)));
      highest == Max(since, highest) <==> Waiting(box, since) != [] || since == 0
  {
    hide *;
    var limit := Limit(batchSize);
    FetchLandsNextBatch(box, since, limit);
    LimitIsPositive(batchSize);
    if Waiting(box, since) == [] {
      NothingLanded(limit);
      MaxMeans(since, 0);
    } else {
      LandedIsNewer(box, since, limit);
      MaxMeans(since, Highest(Take(Waiting(box, since), limit)));
    }
  }

  lemma {:induction false} MaxMeans(a: nat, b: nat)
    ensures Max(a, b) == if a > b then a else b
  {
  }

  lemma {:induction false} LimitIsPositive(batchSize: int)
    ensures Limit(batchSize) >= 1
  {
  }

  lemma {:induction false} TakeSome(messages: seq<Message>, limit: nat)
    requires messages != [] && limit >= 1
    ensures Take(messages, limit) != []
  {
  }

  lemma {:induction false} LandedIsNewer(box: seq<Message>, since: nat, limit: nat)
    requires Ascending(box) && Waiting(box, since) != [] && limit >= 1
    ensures Highest(Take(Waiting(box, since), limit)) > since && Take(Waiting(box, since), limit) != []
  {
    hide *;
    var x := Sourced(box);
    var k := CountUpTo(x, since);
    SourcedMembers(box);
    SplitPoint(box, since);
    TakeSlice(x, k, limit);
    TakeSome(x[k..], limit);
    var n := |Take(x[k..], limit)|;
    SliceAscends(x, k, n);
    CountIsStrict(x, since, k + n - 1);
  }

  function StepVerbatim(parses: nat -> bool, s: State, r: Round): State {
    var box := s.box + r.arrivals;
    var landed := Land(FetchRange(box, s.checkpoint + 1), s.checkpoint, Limit(r.batchSize));
    Step(parses, s, r).(checkpoint := Fetch(parses, landed).highestUid)
  }

  function RunVerbatim(parses: nat -> bool, s: State, rounds: seq<Round>): State
    decreases |rounds|
  {
    if rounds == [] then s else RunVerbatim(parses, StepVerbatim(parses, s, rounds[0]), rounds[1..])
  }

  // An empty fetch after something was delivered.
  ghost predicate EmptyFetch(s: State, r: Round) {
    s.checkpoint > 0 && Waiting(s.box + r.arrivals, s.checkpoint) == []
  }

  ghost predicate NoEmptyFetch(parses: nat -> bool, s: State, rounds: seq<Round>)
    decreases |rounds|
  {
    rounds == [] ||
    (!EmptyFetch(s, rounds[0]) && NoEmptyFetch(parses, StepVerbatim(parses, s, rounds[0]), rounds[1..]))
  }

  // What was delivered: `messages` and `failed` in earlier sweeps of the mailbox, and in this one
  // exactly what the checkpoint has passed.
  ghost predicate Delivered(parses: nat -> bool, s: State, messages: seq<nat>, failed: seq<nat>) {
    && Inside(s.box, s.checkpoint) && (s.checkpoint > 0 ==> Passed(s.box, s.checkpoint) != [])
    && s.messages == messages + Classified(parses, Passed(s.box, s.checkpoint), true)
    && s.failed == failed + Classified(parses, Passed(s.box, s.checkpoint), false)
  }

  lemma {:induction false} DeliveredOnceIff(parses: nat -> bool, s: State, messages: seq<nat>, failed: seq<nat>)
    requires Delivered(parses, s, messages, failed)
    ensures ExactlyOnce(parses, s) <==> messages == [] && failed == []
  {
    hide Classified;
    hide Passed;
    hide Inside;
  }

  // A fetch that lands something, or runs before anything was passed, saves the right checkpoint.
  lemma {:induction false} SafeStepIsStep(parses: nat -> bool, s: State, r: Round)
    requires Ascending(s.box + r.arrivals) && !EmptyFetch(s, r)
    ensures StepVerbatim(parses, s, r) == Step(parses, s, r)
  {
    VerbatimIsMaximumIff(s.box + r.arrivals, s.checkpoint, r.batchSize);
    hide Land;
    hide Highest;
    hide Waiting;
    hide Ascending;
  }

  lemma {:induction false} SafeStepDelivers(parses: nat -> bool, s: State, r: Round, messages: seq<nat>,
                                            failed: seq<nat>)
    requires Ascending(s.box + r.arrivals) && Delivered(parses, s, messages, failed) && !EmptyFetch(s, r)
    ensures Delivered(parses, StepVerbatim(parses, s, r), messages, failed)
  {
    SafeStepIsStep(parses, s, r);
    StepPasses(parses, s, r);
    hide Ascending;
    hide StepVerbatim;
    hide EmptyFetch;
    hide Passed;
    hide Inside;
    hide Step;
    var passed, landed := Passed(s.box, s.checkpoint), Landed(s, r);
    ClassifiedAppend(parses, passed, landed, true);
    ClassifiedAppend(parses, passed, landed, false);
    hide Classified;
    Regroup(messages, Classified(parses, passed, true), Classified(parses, landed, true));
    Regroup(failed, Classified(parses, passed, false), Classified(parses, landed, false));
  }

  function Landed(s: State, r: Round): seq<Message> {
    Take(Waiting(s.box + r.arrivals, s.checkpoint), Limit(r.batchSize))
  }

  lemma {:induction false} StepPasses(parses: nat -> bool, s: State, r: Round)
    requires Ascending(s.box + r.arrivals) && Inside(s.box, s.checkpoint) && !EmptyFetch(s, r)
    ensures
      var next := Step(parses, s, r);
      && Inside(next.box, next.checkpoint)
      && Passed(next.box, next.checkpoint) == Passed(s.box, s.checkpoint) + Landed(s, r)
      && next.messages == s.messages + Classified(parses, Landed(s, r), true)
      && next.failed == s.failed + Classified(parses, Landed(s, r), false)
      && (next.checkpoint > 0 ==> Passed(next.box, next.checkpoint) != [])
  {
    var box, limit := s.box + r.arrivals, Limit(r.batchSize);
    ArrivalsAreNotPassed(s.box, r.arrivals, s.checkpoint);
    FetchLandsNextBatch(box, s.checkpoint, limit);
    CheckpointPasses(box, s.checkpoint, limit);
    LimitIsPositive(r.batchSize);
    if Waiting(box, s.checkpoint) == [] {
      NothingLanded(limit);
    } else {
      LandedIsNewer(box, s.checkpoint, limit);
    }
    hide Ascending;
    hide Inside;
    hide Passed;
    hide Waiting;
    hide Land;
    hide Highest;
    hide Classified;
    hide Take;
    hide Limit;
    hide FetchRange;
  }

  // An empty fetch starts the mailbox over, with everything delivered so far left behind.
  lemma {:induction false} EmptyFetchResets(parses: nat -> bool, s: State, r: Round, messages: seq<nat>,
                                            failed: seq<nat>)
    requires Ascending(s.box + r.arrivals) && Delivered(parses, s, messages, failed) && EmptyFetch(s, r)
    ensures Delivered(parses, StepVerbatim(parses, s, r), s.messages, s.failed)
    ensures s.messages != [] || s.failed != []
  {
    var box := s.box + r.arrivals;
    FetchLandsNextBatch(box, s.checkpoint, Limit(r.batchSize));
    NothingLanded(Limit(r.batchSize));
    NothingPassedYet(box);
    NothingClassified(parses);
    SomethingClassified(parses, Passed(s.box, s.checkpoint));
    hide Ascending;
    hide Passed;
    hide Waiting;
    hide Land;
    hide Highest;
    hide Classified;
    hide Limit;
    hide FetchRange;
    assert Take([], Limit(r.batchSize)) == [];
    assert StepVerbatim(parses, s, r).checkpoint == 0;
  }

  lemma {:induction false} SomethingClassified(parses: nat -> bool, landed: seq<Message>)
    requires landed != []
    ensures Classified(parses, landed, true) != [] || Classified(parses, landed, false) != []
  {
    assert ClassifiedOne(parses, landed[0], parses(landed[0].uid)) == [landed[0].uid];
  }

  lemma {:induction false} VerbatimRunDelivers(parses: nat -> bool, s: State, rounds: seq<Round>, messages: seq<nat>,
                                               failed: seq<nat>)
    returns (messages2: seq<nat>, failed2: seq<nat>)
    requires Delivery(s.box, rounds) && Delivered(parses, s, messages, failed)
    ensures Delivered(parses, RunVerbatim(parses, s, rounds), messages2, failed2)
    ensures messages2 == [] && failed2 == [] <==> messages == [] && failed == [] && NoEmptyFetch(parses, s, rounds)
    decreases |rounds|
  {
    if rounds == [] {
      messages2, failed2 := messages, failed;
    } else {
      var r, next := rounds[0], StepVerbatim(parses, s, rounds[0]);
      assert Delivery(s.box + r.arrivals, rounds[1..]) && Ascending(s.box + r.arrivals) &&
        next.box == s.box + r.arrivals;
      hide Ascending;
      hide Delivered;
      hide EmptyFetch;
      hide StepVerbatim;
      if EmptyFetch(s, r) {
        EmptyFetchResets(parses, s, r, messages, failed);
        messages2, failed2 := VerbatimRunDelivers(parses, next, rounds[1..], s.messages, s.failed);
      } else {
        SafeStepDelivers(parses, s, r, messages, failed);
        messages2, failed2 := VerbatimRunDelivers(parses, next, rounds[1..], messages, failed);
      }
    }
  }

  // Saving `highestUid` verbatim keeps checkpoint and deliveries in step precisely when no fetch
  // after the first delivery comes back empty.
  lemma {:induction false} VerbatimIsExactlyOnceIff(parses: nat -> bool, box: seq<Message>, rounds: seq<Round>)
    requires Delivery(box, rounds)
    ensures
      var start := State(box, 0, [], []);
      ExactlyOnce(parses, RunVerbatim(parses, start, rounds)) <==> NoEmptyFetch(parses, start, rounds)
  {
    var start := State(box, 0, [], []);
    assert Ascending(box);
    StartIsExact(parses, box);
    hide Ascending;
    hide Passed;
    hide Classified;
    assert Delivered(parses, start, [], []);
    hide *;
    var messages, failed := VerbatimRunDelivers(parses, start, rounds, [], []);
    DeliveredOnceIff(parses, RunVerbatim(parses, start, rounds), messages, failed);
  }

  // ---------------------------------------------------------------------------
  // ... and exactly when something is delivered twice
  // ---------------------------------------------------------------------------

  // How often a UID was handed over, parsed or failed.
  ghost function Times(s: State, uid: nat): nat {
    multiset(s.messages)[uid] + multiset(s.failed)[uid]
  }

  ghost predicate DeliveredTwice(s: State) {
    exists uid :: Times(s, uid) >= 2
  }

  lemma {:induction false} TimesGrow(parses: nat -> bool, s: State, rounds: seq<Round>, uid: nat)
    ensures Times(RunVerbatim(parses, s, rounds), uid) >= Times(s, uid)
    decreases |rounds|
  {
    hide Land;
    hide Classified;
    hide Highest;
    hide FetchRange;
    if rounds != [] {
      TimesGrow(parses, StepVerbatim(parses, s, rounds[0]), rounds[1..], uid);
    }
  }

  lemma {:induction false} OnceIsNotTwice(parses: nat -> bool, s: State)
    requires Ascending(s.box) && Delivered(parses, s, [], [])
    ensures !DeliveredTwice(s)
  {
    var passed := Passed(s.box, s.checkpoint);
    SourcedMembers(s.box);
    SliceAscends(Sourced(s.box), 0, |passed|);
    ClassifiedPartition(parses, passed);
    hide Classified;
    hide Passed;
    forall uid ensures Times(s, uid) <= 1 {
      UidsAreDistinct(passed, uid);
      assert [] + Classified(parses, passed, true) == Classified(parses, passed, true);
      assert [] + Classified(parses, passed, false) == Classified(parses, passed, false);
      assert Times(s, uid) ==
        (multiset(Classified(parses, passed, true)) + multiset(Classified(parses, passed, false)))[uid];
    }
  }

  lemma {:induction false} UidsAreDistinct(messages: seq<Message>, uid: nat)
    requires Ascending(messages)
    ensures multiset(Uids(messages))[uid] <= 1
  {
    if messages != [] {
      var rest := messages[1..];
      UidsAreDistinct(rest, uid);
      assert multiset(Uids(messages)) == multiset{messages[0].uid} + multiset(Uids(rest));
      if rest != [] {
        UidOccursOnce(rest, 0);
      }
    }
  }

  lemma {:induction false} FirstIsCounted(parses: nat -> bool, landed: seq<Message>)
    requires landed != []
    ensures multiset(Classified(parses, landed, true))[landed[0].uid] +
      multiset(Classified(parses, landed, false))[landed[0].uid] >= 1
  {
    assert ClassifiedOne(parses, landed[0], parses(landed[0].uid)) == [landed[0].uid];
    assert Classified(parses, landed, parses(landed[0].uid))[0] == landed[0].uid;
  }

  // The fetch after a reset lands the first message of the mailbox again.
  lemma {:induction false} LandsFirst(box: seq<Message>, arrivals: seq<Message>, batchSize: int)
    requires Ascending(box + arrivals) && Sourced(box) != []
    ensures
      var landed := Land(FetchRange(box + arrivals, 0 + 1), 0, Limit(batchSize));
      landed != [] && landed[0] == Sourced(box)[0]
  {
    hide *;
    var all, limit := box + arrivals, Limit(batchSize);
    FetchLandsNextBatch(all, 0, limit);
    NothingPassedYet(all);
    SourcedAppend(box, arrivals);
    LimitIsPositive(batchSize);
    TakeKeepsFirst(Sourced(box) + Sourced(arrivals), limit);
  }

  lemma {:induction false} TakeKeepsFirst(messages: seq<Message>, limit: nat)
    requires messages != [] && limit >= 1
    ensures Take(messages, limit) != [] && Take(messages, limit)[0] == messages[0]
  {
  }

  lemma {:induction false} RoundAfterReset(parses: nat -> bool, s: State, r: Round, first: Message)
    requires Ascending(s.box + r.arrivals) && s.checkpoint == 0
    requires Sourced(s.box) != [] && Sourced(s.box)[0] == first
    ensures Times(StepVerbatim(parses, s, r), first.uid) >= Times(s, first.uid) + 1
  {
    LandsFirst(s.box, r.arrivals, r.batchSize);
    var landed := Land(FetchRange(s.box + r.arrivals, 0 + 1), 0, Limit(r.batchSize));
    FirstIsCounted(parses, landed);
    hide Land;
    hide Sourced;
    hide Classified;
    hide Highest;
    hide Ascending;
    hide FetchRange;
    hide Limit;
  }

  lemma {:induction false} FirstWasDelivered(parses: nat -> bool, s: State)
    requires Delivered(parses, s, [], []) && s.checkpoint > 0
    ensures Sourced(s.box) != [] && Times(s, Sourced(s.box)[0].uid) >= 1
  {
    var passed := Passed(s.box, s.checkpoint);
    assert passed[0] == Sourced(s.box)[0];
    FirstIsCounted(parses, passed);
    hide Classified;
    assert [] + Classified(parses, passed, true) == Classified(parses, passed, true);
    assert [] + Classified(parses, passed, false) == Classified(parses, passed, false);
  }

  lemma {:induction false} ResetRedelivers(parses: nat -> bool, s: State, rounds: seq<Round>)
    requires |rounds| >= 2 && Delivery(s.box, rounds) && Delivered(parses, s, [], []) && EmptyFetch(s, rounds[0])
    ensures DeliveredTwice(RunVerbatim(parses, s, rounds))
  {
    assert s.checkpoint > 0;
    var r, q, next := rounds[0], rounds[1], StepVerbatim(parses, s, rounds[0]);
    assert next.box == s.box + r.arrivals;
    hide *;
    var later, rest := StepVerbatim(parses, next, q), rounds[1..];
    DeliveryGoesOn(parses, s, rounds);
    DeliveryGoesOn(parses, next, rest);
    ResetsToZero(parses, s, r);
    FirstWasDelivered(parses, s);
    var first := Sourced(s.box)[0];
    SourcedAppend(s.box, r.arrivals);
    RoundAfterReset(parses, next, q, first);
    SameTimes(s, next, first.uid);
    TimesGrow(parses, later, rest[1..], first.uid);
    TwiceMeans(RunVerbatim(parses, s, rounds), first.uid);
  }

  lemma {:induction false} SameTimes(a: State, b: State, uid: nat)
    requires a.messages == b.messages && a.failed == b.failed
    ensures Times(a, uid) == Times(b, uid)
  {
  }

  lemma {:induction false} TwiceMeans(s: State, uid: nat)
    requires Times(s, uid) >= 2
    ensures DeliveredTwice(s)
  {
  }

  lemma {:induction false} ResetsToZero(parses: nat -> bool, s: State, r: Round)
    requires Ascending(s.box + r.arrivals) && EmptyFetch(s, r)
    ensures
      var next := StepVerbatim(parses, s, r);
      next.checkpoint == 0 && next.messages == s.messages && next.failed == s.failed
  {
    FetchLandsNextBatch(s.box + r.arrivals, s.checkpoint, Limit(r.batchSize));
    NothingLanded(Limit(r.batchSize));
    NothingClassified(parses);
    hide Ascending;
    hide Waiting;
    hide Land;
    hide Highest;
    hide Classified;
    hide Limit;
    hide FetchRange;
    assert Take([], Limit(r.batchSize)) == [];
  }

  // An empty fetch that nothing follows delivers nothing.
  lemma {:induction false} LastEmptyFetch(parses: nat -> bool, s: State, r: Round)
    requires Ascending(s.box) && Ascending(s.box + r.arrivals) && Delivered(parses, s, [], []) && EmptyFetch(s, r)
    ensures !DeliveredTwice(StepVerbatim(parses, s, r))
  {
    ResetsToZero(parses, s, r);
    OnceIsNotTwice(parses, s);
    hide StepVerbatim;
    hide Delivered;
    hide EmptyFetch;
    hide Ascending;
    assert forall uid :: Times(StepVerbatim(parses, s, r), uid) == Times(s, uid);
  }

  lemma {:induction false} OneRound(parses: nat -> bool, s: State, r: Round)
    requires Ascending(s.box) && Ascending(s.box + r.arrivals) && Delivered(parses, s, [], [])
    ensures !DeliveredTwice(StepVerbatim(parses, s, r))
  {
    hide DeliveredTwice;
    if EmptyFetch(s, r) {
      LastEmptyFetch(parses, s, r);
    } else {
      SafeStepDelivers(parses, s, r, [], []);
      OnceIsNotTwice(parses, StepVerbatim(parses, s, r));
    }
  }

  lemma {:induction false} DeliveryGoesOn(parses: nat -> bool, s: State, rounds: seq<Round>)
    requires rounds != [] && Delivery(s.box, rounds)
    ensures Ascending(s.box) && Ascending(s.box + rounds[0].arrivals)
    ensures Delivery(StepVerbatim(parses, s, rounds[0]).box, rounds[1..])
    ensures RunVerbatim(parses, s, rounds) == RunVerbatim(parses, StepVerbatim(parses, s, rounds[0]), rounds[1..])
  {
    hide Ascending;
    assert StepVerbatim(parses, s, rounds[0]).box == s.box + rounds[0].arrivals;
    hide StepVerbatim;
    assert Delivery(s.box + rounds[0].arrivals, rounds[1..]);
  }

  lemma {:induction false} EmptyFetchFirst(parses: nat -> bool, s: State, rounds: seq<Round>)
    requires |rounds| >= 2
    ensures NoEmptyFetch(parses, s, rounds[..|rounds| - 1]) <==>
      !EmptyFetch(s, rounds[0]) && NoEmptyFetch(parses, StepVerbatim(parses, s, rounds[0]), rounds[1..][..|rounds| - 2])
  {
    hide EmptyFetch;
    hide StepVerbatim;
    var most := rounds[..|rounds| - 1];
    assert most[0] == rounds[0] && most[1..] == rounds[1..][..|rounds| - 2];
  }

  lemma {:induction false} VerbatimRunTwiceIff(parses: nat -> bool, s: State, rounds: seq<Round>)
    requires rounds != [] && Delivery(s.box, rounds) && Delivered(parses, s, [], [])
    ensures DeliveredTwice(RunVerbatim(parses, s, rounds)) <==> !NoEmptyFetch(parses, s, rounds[..|rounds| - 1])
    decreases |rounds|
  {
    DeliveryGoesOn(parses, s, rounds);
    var r, next := rounds[0], StepVerbatim(parses, s, rounds[0]);
    if |rounds| == 1 {
      assert rounds[1..] == [] && rounds[..0] == [];
      assert RunVerbatim(parses, next, []) == next && NoEmptyFetch(parses, s, []);
      hide *;
      OneRound(parses, s, r);
    } else {
      hide *;
      EmptyFetchFirst(parses, s, rounds);
      if EmptyFetch(s, r) {
        ResetRedelivers(parses, s, rounds);
      } else {
        SafeStepDelivers(parses, s, r, [], []);
        VerbatimRunTwiceIff(parses, next, rounds[1..]);
      }
    }
  }

  // Some message is handed over twice precisely when a fetch after the first delivery comes back
  // empty and another fetch follows it.
  lemma {:induction false} VerbatimRedeliversIff(parses: nat -> bool, box: seq<Message>, rounds: seq<Round>)
    requires Delivery(box, rounds) && rounds != []
    ensures
      var start := State(box, 0, [], []);
      DeliveredTwice(RunVerbatim(parses, start, rounds)) <==> !NoEmptyFetch(parses, start, rounds[..|rounds| - 1])
  {
    var start := State(box, 0, [], []);
    assert Ascending(box);
    StartIsExact(parses, box);
    hide Ascending;
    hide Passed;
    hide Classified;
    assert Delivered(parses, start, [], []);
    hide *;
    VerbatimRunTwiceIff(parses, start, rounds);
  }
}
