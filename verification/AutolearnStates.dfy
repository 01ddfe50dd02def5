/** The autolearn job state machine: every history a job can have, from creation to the end. */
module AutolearnStates {
  import opened Options

  datatype State =
    | WorkerStarted | FetchingGroundTruth | FetchingWiki | WritingTempFiles | ClaudeCliRunning
    | WritingNewVersion | Embedding | AwaitingReview | Published | Rejected | Complete | Failed

  function LegalSuccessors(s: State): set<State> {
    match s
    case WorkerStarted => {FetchingGroundTruth, Failed}
    case FetchingGroundTruth => {FetchingWiki, Failed}
    case FetchingWiki => {WritingTempFiles, Failed}
    case WritingTempFiles => {ClaudeCliRunning, Failed}
    case ClaudeCliRunning => {WritingNewVersion, Failed}
    case WritingNewVersion => {Embedding, Failed}
    case Embedding => {AwaitingReview, Failed}
    case AwaitingReview => {Published, State.Rejected, Failed}
    case Published => {Complete, Failed}
    case Rejected => {}
    case Complete => {}
    case Failed => {}
  }

  datatype Job = Job(state: State, errorMessage: Option<string>, wikiVersionId: Option<string>)

  datatype Command =
    | Create(newId: string)
    | Advance(id: string, to: State, errorMessage: Option<string>, wikiVersionId: Option<string>)

  datatype Outcome = Done | Duplicate | NotFound | InvalidTransition

  function Check(jobs: map<string, Job>, c: Command): Outcome {
    match c
    case Create(newId) => if newId in jobs then Duplicate else Done
    case Advance(id, to, _, _) =>
      if id !in jobs then NotFound else if to in LegalSuccessors(jobs[id].state) then Done else InvalidTransition
  }

  function Apply(jobs: map<string, Job>, c: Command): map<string, Job> {
    if Check(jobs, c) != Done then jobs
    else
      match c
      case Create(newId) => jobs[newId := Job(WorkerStarted, None, None)]
      case Advance(id, to, errorMessage, wikiVersionId) =>
        jobs[id := Job(
          to,
          if to == Failed then errorMessage else None,
          if wikiVersionId.Some? then wikiVersionId else jobs[id].wikiVersionId)]
  }

  class AutolearnJobs {
    var jobs: map<string, Job>

    constructor ()
      ensures jobs == map[]
    {
      jobs := map[];
    }

    method CreateAutolearnJob(newId: string) returns (outcome: Outcome)
      modifies this
      ensures outcome == Check(old(jobs), Create(newId)) && jobs == Apply(old(jobs), Create(newId))
    {
      if newId in jobs {
        return Duplicate;
      }
      jobs := jobs[newId := Job(WorkerStarted, None, None)];
      outcome := Done;
    }

    method AdvanceAutolearnState(id: string, to: State, errorMessage: Option<string>, wikiVersionId: Option<string>)
      returns (outcome: Outcome)
      modifies this
      ensures outcome == Check(old(jobs), Advance(id, to, errorMessage, wikiVersionId))
      ensures jobs == Apply(old(jobs), Advance(id, to, errorMessage, wikiVersionId))
    {
      if id !in jobs {
        return NotFound;
      }
      var current := jobs[id];
      if to !in LegalSuccessors(current.state) {
        return InvalidTransition;
      }
      var errMsg := if to == Failed then errorMessage else None;
      var version := if wikiVersionId.Some? then wikiVersionId else current.wikiVersionId;
      jobs := jobs[id := Job(to, errMsg, version)];
      outcome := Done;
    }
  }

  // ---------------------------------------------------------------------------
  // Histories
  // ---------------------------------------------------------------------------

  const PIPELINE: seq<State> := [
    WorkerStarted, FetchingGroundTruth, FetchingWiki, WritingTempFiles, ClaudeCliRunning,
    WritingNewVersion, Embedding, AwaitingReview, Published, Complete
  ]

  // The states a job has been in during a run, oldest first.
  function Visited(jobs: map<string, Job>, commands: seq<Command>, id: string): seq<State>
    decreases |commands|
  {
    if commands == [] then if id in jobs then [jobs[id].state] else []
    else
      var rest := Visited(Apply(jobs, commands[0]), commands[1..], id);
      if commands[0].Advance? && commands[0].id == id && Check(jobs, commands[0]) == Done then [jobs[id].state] + rest
      else rest
  }

  ghost predicate LegalPath(path: seq<State>) {
    forall i :: 1 <= i < |path| ==> path[i] in LegalSuccessors(path[i - 1])
  }

  // A stretch of the pipeline from its start, perhaps cut short by a failure or a rejected review.
  ghost predicate Stretch(path: seq<State>) {
    exists n :: 1 <= n <= |PIPELINE| && StretchOf(path, n)
  }

  ghost predicate StretchOf(path: seq<State>, n: nat)
    requires 1 <= n <= |PIPELINE|
  {
    || path == PIPELINE[..n]
    || (path == PIPELINE[..n] + [Failed] && PIPELINE[n - 1] != Complete)
    || (path == PIPELINE[..n] + [State.Rejected] && PIPELINE[n - 1] == AwaitingReview)
  }

  lemma {:induction false} Successors(k: nat)
    requires k < |PIPELINE|
    ensures forall s :: s in LegalSuccessors(PIPELINE[k]) <==>
      (k + 1 < |PIPELINE| && (s == PIPELINE[k + 1] || s == Failed)) ||
        (PIPELINE[k] == AwaitingReview && s == State.Rejected)
    ensures PIPELINE[k] == Complete <==> k == |PIPELINE| - 1
  {
  }

  lemma {:induction false} PathGrows(path: seq<State>, s: State)
    requires path != []
    ensures LegalPath(path + [s]) <==> LegalPath(path) && s in LegalSuccessors(path[|path| - 1])
  {
    var more := path + [s];
    hide LegalSuccessors;
    assert forall i :: 0 <= i < |path| ==> more[i] == path[i];
    if LegalPath(more) {
      assert more[|path|] in LegalSuccessors(more[|path| - 1]);
      forall i | 1 <= i < |path| ensures path[i] in LegalSuccessors(path[i - 1]) {
        assert more[i] in LegalSuccessors(more[i - 1]);
      }
    }
  }

  lemma {:induction false} PipelineIsLegal(n: nat)
    requires 1 <= n <= |PIPELINE|
    ensures LegalPath(PIPELINE[..n])
  {
    if n > 1 {
      PipelineIsLegal(n - 1);
      Successors(n - 2);
      assert PIPELINE[..n] == PIPELINE[..n - 1] + [PIPELINE[n - 1]];
      PathGrows(PIPELINE[..n - 1], PIPELINE[n - 1]);
    }
  }

  // A path from the start is legal exactly when it is a prefix of the pipeline, a proper prefix
  // followed by FAILED, or the prefix up to the review followed by REJECTED.
  lemma {:induction false} LegalIffStretch(path: seq<State>)
    requires path != [] && path[0] == WorkerStarted
    ensures LegalPath(path) <==> Stretch(path)
  {
    if LegalPath(path) {
      LegalIsStretch(path);
    }
    if Stretch(path) {
      var n :| 1 <= n <= |PIPELINE| && StretchOf(path, n);
      PipelineIsLegal(n);
      Successors(n - 1);
      PathGrows(PIPELINE[..n], path[|path| - 1]);
    }
  }

  lemma {:induction false} EndedStretchStops(path: seq<State>, n: nat)
    requires 1 <= n <= |PIPELINE| && StretchOf(path, n) && path != PIPELINE[..n]
    ensures LegalSuccessors(path[|path| - 1]) == {}
  {
  }

  lemma {:induction false} StretchGrows(path: seq<State>, n: nat, s: State)
    requires 1 <= n <= |PIPELINE| && path == PIPELINE[..n] && s in LegalSuccessors(PIPELINE[n - 1])
    ensures Stretch(path + [s])
  {
    Successors(n - 1);
    hide LegalSuccessors;
    if n < |PIPELINE| && s == PIPELINE[n] {
      assert path + [s] == PIPELINE[..n + 1];
      assert StretchOf(path + [s], n + 1);
    } else {
      assert StretchOf(path + [s], n);
    }
  }

  lemma {:induction false} LegalIsStretch(path: seq<State>)
    requires path != [] && path[0] == WorkerStarted && LegalPath(path)
    ensures Stretch(path)
    decreases |path|
  {
    hide LegalSuccessors;
    var m := |path|;
    if m == 1 {
      assert path == PIPELINE[..1];
      assert StretchOf(path, 1);
    } else {
      var shorter, s := path[..m - 1], path[m - 1];
      assert path == shorter + [s];
      PathGrows(shorter, s);
      LegalIsStretch(shorter);
      var n :| 1 <= n <= |PIPELINE| && StretchOf(shorter, n);
      if shorter == PIPELINE[..n] {
        StretchGrows(shorter, n, s);
      } else {
        EndedStretchStops(shorter, n);
      }
    }
  }

  lemma {:induction false} VisitedIsLegal(jobs: map<string, Job>, commands: seq<Command>, id: string)
    ensures LegalPath(Visited(jobs, commands, id))
    ensures id in jobs ==> Visited(jobs, commands, id) != [] && Visited(jobs, commands, id)[0] == jobs[id].state
    ensures id !in jobs && Visited(jobs, commands, id) != [] ==> Visited(jobs, commands, id)[0] == WorkerStarted
    decreases |commands|
  {
    if commands != [] {
      var c, next := commands[0], Apply(jobs, commands[0]);
      VisitedIsLegal(next, commands[1..], id);
      var rest := Visited(next, commands[1..], id);
      if c.Advance? && c.id == id && Check(jobs, c) == Done {
        var path := [jobs[id].state] + rest;
        hide LegalSuccessors;
        assert forall i :: 1 <= i < |path| ==> path[i] == rest[i - 1];
        forall i | 1 <= i < |path| ensures path[i] in LegalSuccessors(path[i - 1]) {
          if i > 1 {
            assert rest[i - 1] in LegalSuccessors(rest[i - 2]);
          }
        }
      } else if id in jobs {
        assert next[id] == jobs[id];
      }
    }
  }

  // In every run from the empty table a job makes at most nine transitions; one that is COMPLETE
  // went through every stage in order, the review included.
  lemma {:induction false} AtMostNineTransitions(commands: seq<Command>, id: string)
    ensures
      var path := Visited(map[], commands, id);
      path != [] ==>
        && Stretch(path)
        && |path| <= 1 + 9
        && (path[|path| - 1] == Complete ==> path == PIPELINE)
  {
    var path := Visited(map[], commands, id);
    VisitedIsLegal(map[], commands, id);
    if path != [] {
      LegalIffStretch(path);
      var n :| 1 <= n <= |PIPELINE| && StretchOf(path, n);
      Successors(n - 1);
    }
  }

  function Run(jobs: map<string, Job>, commands: seq<Command>): map<string, Job>
    decreases |commands|
  {
    if commands == [] then jobs else Run(Apply(jobs, commands[0]), commands[1..])
  }

  // Only failed jobs carry an error, and a recorded wiki version is never lost.
  lemma {:induction false} ErrorsBelongToFailures(jobs: map<string, Job>, commands: seq<Command>)
    requires forall id :: id in jobs && jobs[id].errorMessage.Some? ==> jobs[id].state == Failed
    ensures
      var after := Run(jobs, commands);
      && (forall id :: id in after && after[id].errorMessage.Some? ==> after[id].state == Failed)
      && forall id :: id in jobs ==> id in after && (jobs[id].wikiVersionId.Some? ==> after[id].wikiVersionId.Some?)
    decreases |commands|
  {
    if commands != [] {
      ErrorsBelongToFailures(Apply(jobs, commands[0]), commands[1..]);
    }
  }

  // ---------------------------------------------------------------------------
  // Statement by statement: nothing locks the job between the read and the update of a call
  // ---------------------------------------------------------------------------

  // A call that has read the job and found its transition legal.
  datatype Call = Call(id: string, seen: State)

  // `path` is no column: it remembers the states each job has been in.
  datatype System = System(path: map<string, seq<State>>, calls: map<int, Call>)

  datatype Step =
    | InsertJob(newId: string)
    | ReadJob(call: int, readId: string)
    | UpdateJob(call: int, to: State)

  const NOTHING := System(map[], map[])

  ghost predicate Paths(s: System) {
    && (forall id :: id in s.path ==> s.path[id] != [] && s.path[id][0] == WorkerStarted)
    && forall c :: c in s.calls ==> s.calls[c].id in s.path
  }

  function Current(path: seq<State>): State {
    if path == [] then WorkerStarted else path[|path| - 1]
  }

  // The job is in state `to` from now on if the state the call has read allows it.
  predicate Updates(s: System, step: Step, id: string) {
    && step.UpdateJob? && step.call in s.calls && s.calls[step.call].id == id && id in s.path
    && step.to in LegalSuccessors(s.calls[step.call].seen)
  }

  function Next(s: System, step: Step): System {
    match step
    case InsertJob(newId) => if newId in s.path then s else s.(path := s.path[newId := [WorkerStarted]])
    case ReadJob(call, id) =>
      if id !in s.path || call in s.calls then s else s.(calls := s.calls[call := Call(id, Current(s.path[id]))])
    case UpdateJob(call, to) =>
      if call !in s.calls then s
      else
        var id, calls := s.calls[call].id, s.calls - {call};
        if Updates(s, step, id) then System(s.path[id := s.path[id] + [to]], calls) else s.(calls := calls)
  }

  function RunAll(s: System, steps: seq<Step>): System
    decreases |steps|
  {
    if steps == [] then s else RunAll(Next(s, steps[0]), steps[1..])
  }

  // The job has moved since the call read it, and the update is no mere report of failure for a
  // job that has not ended.
  predicate Harms(s: System, step: Step, id: string) {
    && Updates(s, step, id) && s.calls[step.call].seen != Current(s.path[id])
    && !(step.to == Failed && LegalSuccessors(Current(s.path[id])) != {})
  }

  ghost predicate NeverHarms(s: System, steps: seq<Step>, id: string)
    decreases |steps|
  {
    steps == [] || (!Harms(s, steps[0], id) && NeverHarms(Next(s, steps[0]), steps[1..], id))
  }

  // Except for FAILED, every state has one predecessor, and FAILED follows every state with any
  // successor.
  lemma {:induction false} OnePredecessor(a: State, b: State, to: State)
    requires a != b && to in LegalSuccessors(a)
    ensures to in LegalSuccessors(b) <==> to == Failed && LegalSuccessors(b) != {}
  {
  }

  lemma {:induction false} StepIsLegalIff(s: System, step: Step, id: string)
    requires Paths(s)
    ensures Paths(Next(s, step))
    ensures
      var t := Next(s, step);
      && (id in s.path ==> id in t.path)
      && (id in t.path ==>
            (LegalPath(t.path[id]) <==> (id in s.path ==> LegalPath(s.path[id])) && !Harms(s, step, id)))
  {
    if Updates(s, step, id) {
      var seen, now := s.calls[step.call].seen, Current(s.path[id]);
      PathGrows(s.path[id], step.to);
      if seen != now {
        OnePredecessor(seen, now, step.to);
      }
    }
    hide LegalSuccessors;
    var t := Next(s, step);
    if id in s.path && !Updates(s, step, id) {
      assert t.path[id] == s.path[id];
    }
  }

  lemma {:induction false} RunIsLegalIff(s: System, steps: seq<Step>, id: string)
    requires Paths(s)
    ensures Paths(RunAll(s, steps)) && (id in s.path ==> id in RunAll(s, steps).path)
    ensures id in RunAll(s, steps).path ==>
      (LegalPath(RunAll(s, steps).path[id]) <==> (id in s.path ==> LegalPath(s.path[id])) && NeverHarms(s, steps, id))
    decreases |steps|
  {
    hide Paths;
    hide LegalPath;
    if steps != [] {
      StepIsLegalIff(s, steps[0], id);
      var next := Next(s, steps[0]);
      RunIsLegalIff(next, steps[1..], id);
      if id !in next.path {
        assert !Harms(s, steps[0], id);
      }
      hide Next;
      hide Harms;
    }
  }

  // In every interleaving, a job's states form a stretch of the pipeline, with at most nine
  // transitions, exactly when no call moved a job that had moved since it read it, other than to
  // report the failure of one that had not ended.
  lemma {:induction false} StretchIffNeverHarmed(steps: seq<Step>, id: string)
    ensures
      var s := RunAll(NOTHING, steps);
      id in s.path ==>
        && (Stretch(s.path[id]) <==> NeverHarms(NOTHING, steps, id))
        && (NeverHarms(NOTHING, steps, id) ==> |s.path[id]| <= 1 + 9)
  {
    RunIsLegalIff(NOTHING, steps, id);
    var s := RunAll(NOTHING, steps);
    hide RunAll;
    hide NeverHarms;
    if id in s.path {
      LegalIffStretch(s.path[id]);
      hide LegalPath;
      if Stretch(s.path[id]) {
        var n :| 1 <= n <= |PIPELINE| && StretchOf(s.path[id], n);
        Successors(n - 1);
      }
    }
  }

  // Calls that all read a new job before any updates it.
  function Readers(id: string, n: nat): seq<Step> {
    if n == 0 then [] else Readers(id, n - 1) + [ReadJob(n, id)]
  }

  function Updaters(n: nat): seq<Step> {
    if n == 0 then [] else Updaters(n - 1) + [UpdateJob(n, FetchingGroundTruth)]
  }

  lemma {:induction false} RunGrows(s: System, steps: seq<Step>, step: Step)
    ensures RunAll(s, steps + [step]) == Next(RunAll(s, steps), step)
    decreases |steps|
  {
    hide Next;
    if steps == [] {
      assert [step][1..] == [] && steps + [step] == [step];
      assert RunAll(s, [step]) == RunAll(Next(s, step), []);
    } else {
      assert (steps + [step])[0] == steps[0] && (steps + [step])[1..] == steps[1..] + [step];
      RunGrows(Next(s, steps[0]), steps[1..], step);
    }
  }

  lemma {:induction false} ReadersRead(s: System, id: string, n: nat)
    requires id in s.path && s.path[id] == [WorkerStarted] && s.calls == map[]
    ensures
      var t := RunAll(s, Readers(id, n));
      && t.path == s.path && (forall c :: c in t.calls <==> 1 <= c <= n)
      && forall c :: c in t.calls ==> t.calls[c] == Call(id, WorkerStarted)
  {
    if n > 0 {
      ReadersRead(s, id, n - 1);
      RunGrows(s, Readers(id, n - 1), ReadJob(n, id));
      hide RunAll;
    }
  }

  lemma {:induction false} UpdatersUpdate(s: System, id: string, n: nat)
    requires id in s.path && s.path[id] == [WorkerStarted]
    requires forall c :: 1 <= c <= n ==> c in s.calls && s.calls[c] == Call(id, WorkerStarted)
    ensures
      var t := RunAll(s, Updaters(n));
      && id in t.path && |t.path[id]| == 1 + n
      && forall c :: c > n && c in s.calls ==> c in t.calls && t.calls[c] == s.calls[c]
  {
    if n > 0 {
      UpdatersUpdate(s, id, n - 1);
      RunGrows(s, Updaters(n - 1), UpdateJob(n, FetchingGroundTruth));
      hide RunAll;
    }
  }

  // Otherwise there is no bound at all: n overlapping calls make n transitions.
  lemma {:induction false} OverlappingCallsHaveNoBound(id: string, n: nat)
    ensures
      var s := RunAll(Next(NOTHING, InsertJob(id)), Readers(id, n));
      var t := RunAll(s, Updaters(n));
      id in t.path && |t.path[id]| == 1 + n
  {
    var start := Next(NOTHING, InsertJob(id));
    assert start.path[id] == [WorkerStarted] && start.calls == map[];
    hide RunAll;
    ReadersRead(start, id, n);
    UpdatersUpdate(RunAll(start, Readers(id, n)), id, n);
  }
}
