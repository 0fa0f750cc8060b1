/** Whose result a step run records. A finish message names the step run its run was started for,
    and the executor does not compare that run with the one the step run carries now. */
module PipelineStale {
  import opened Wrappers
  import opened Definitions
  import opened StepRows
  import opened RunState
  import opened AdvanceProofs
  import opened Invariants
  import opened History
  import opened Progress
  import opened PipelineTheorems

  function EndOf(outcome: Outcome): StepState {
    if outcome == Won then Success else Failed
  }

  /** A result the step run records, success or failure, is the one its own run produced. */
  predicate OwnResult(s: State, sr: StepRun) {
    (sr.state == Success || sr.state == Failed) && sr.runID.Some? ==>
      && sr.runID.value in s.runs
      && s.runs[sr.runID.value].outcome != InFlight
      && sr.state == EndOf(s.runs[sr.runID.value].outcome)
      && sr.report == s.runs[sr.runID.value].report
  }

  ghost predicate OwnResults(s: State) {
    forall i :: 0 <= i < |s.rows| ==> OwnResult(s, s.rows[i])
  }

  // ---------------------------------------------------------------- the advance records nothing

  /** Waiting step runs carry no run. */
  ghost predicate WaitingUnrun(rows: seq<StepRun>) {
    forall i :: 0 <= i < |rows| && rows[i].state == Pending ==> rows[i].runID.None?
  }

  predicate Ended(sr: StepRun) { (sr.state == Success || sr.state == Failed) && sr.runID.Some? }

  /** A row that ended through a run was already there, unchanged. */
  ghost predicate NoNewEndings(rows: seq<StepRun>, rows': seq<StepRun>) {
    forall i :: 0 <= i < |rows'| && Ended(rows'[i]) ==> i < |rows| && rows'[i] == rows[i]
  }

  lemma NoNewEndingsTrans(a: seq<StepRun>, b: seq<StepRun>, c: seq<StepRun>)
    requires NoNewEndings(a, b) && NoNewEndings(b, c)
    ensures NoNewEndings(a, c)
  {}

  lemma NoNewEndingsRefl(rows: seq<StepRun>)
    ensures NoNewEndings(rows, rows)
  {}

  lemma StartRowsNoNewEndings(rows: seq<StepRun>, w: World, id: string)
    requires WaitingUnrun(rows)
    ensures NoNewEndings(rows, StartRows(rows, w, id)) && WaitingUnrun(StartRows(rows, w, id))
  {
    var rows' := StartRows(rows, w, id);
    forall i | 0 <= i < |rows'|
      ensures Ended(rows'[i]) ==> rows'[i] == rows[i]
      ensures rows'[i].state == Pending ==> rows'[i].runID.None?
    {
      StartRowsAt(rows, w, id, i);
    }
  }

  lemma ExpandNoNewEndings(s: State, w: World, step: Step)
    requires WaitingUnrun(s.rows)
    ensures NoNewEndings(s.rows, Expand(s, w, step).rows) && WaitingUnrun(Expand(s, w, step).rows)
  {
    hide StateOf;
    NewRowsShape(step, w.fan(step.id));
    var s1 := Expand(s, w, step);
    forall i | |s.rows| <= i < |s1.rows| ensures s1.rows[i].runID.None? {
      assert s1.rows[i] == NewRows(step, w.fan(step.id))[i - |s.rows|];
    }
  }

  lemma AdvanceStepNoNewEndings(s: State, w: World, step: Step)
    requires WaitingUnrun(s.rows)
    ensures NoNewEndings(s.rows, AdvanceStep(s, w, step).rows) && WaitingUnrun(AdvanceStep(s, w, step).rows)
  {
    hide NoNewEndings, WaitingUnrun, StartRows, Expand, DepsSucceeded;
    NoNewEndingsRefl(s.rows);
    ExpandNoNewEndings(s, w, step);
    var s1 := Expand(s, w, step);
    StartRowsNoNewEndings(s1.rows, w, step.id);
    NoNewEndingsTrans(s.rows, s1.rows, StartRows(s1.rows, w, step.id));
  }

  lemma {:induction false} PassNoNewEndings(s: State, w: World, k: nat)
    requires k <= |s.def.steps| && WaitingUnrun(s.rows)
    ensures NoNewEndings(s.rows, Pass(s, w, k).rows) && WaitingUnrun(Pass(s, w, k).rows)
    decreases k
  {
    hide AdvanceStep, NoNewEndings, WaitingUnrun;
    if k == 0 {
      NoNewEndingsRefl(s.rows);
    } else {
      PassNoNewEndings(s, w, k - 1);
      AdvanceStepNoNewEndings(Pass(s, w, k - 1), w, s.def.steps[k - 1]);
      NoNewEndingsTrans(s.rows, Pass(s, w, k - 1).rows, Pass(s, w, k).rows);
    }
  }

  lemma StopNoNewEndings(rows: seq<StepRun>, p: StepState, r: StepState)
    requires (p == Skipped || p == Cancelled) && r == Cancelled
    ensures NoNewEndings(rows, StopRows(rows, p, r))
  {}

  lemma AdvanceNoNewEndings(s: State, w: World)
    requires WaitingUnrun(s.rows)
    ensures NoNewEndings(s.rows, Advance(s, w).rows)
  {
    hide NoNewEndings, AnyBad, AnyBusy, StopRows, WaitingUnrun;
    if s.status.Terminal() {
      NoNewEndingsRefl(s.rows);
    } else {
      var p := Pass(s, w, |s.def.steps|);
      PassNoNewEndings(s, w, |s.def.steps|);
      StopNoNewEndings(p.rows, Skipped, Cancelled);
      NoNewEndingsTrans(s.rows, p.rows, StopRows(p.rows, Skipped, Cancelled));
    }
  }

  lemma CoreWaitingUnrun(s: State)
    requires Core(s)
    ensures WaitingUnrun(s.rows)
  {}

  lemma OwnResultsKept(s: State, s': State)
    requires OwnResults(s) && NoNewEndings(s.rows, s'.rows) && KeepsResults(s, s')
    ensures OwnResults(s')
  {
    forall i | 0 <= i < |s'.rows| ensures OwnResult(s', s'.rows[i]) {
      if Ended(s'.rows[i]) {
        assert OwnResult(s, s.rows[i]);
      }
    }
  }

  // ---------------------------------------------------------------- exactly when a message is faithful

  /** The two runs ended alike. */
  predicate Agree(a: EngineRun, b: EngineRun) {
    a.outcome != InFlight && EndOf(a.outcome) == EndOf(b.outcome) && a.report == b.report
  }

  lemma RecordOwnRows(s: State, r: RunId, own: RunId)
    requires OwnResults(s) && Records(s, r) && own in s.runs
    requires s.rows[r.row].state == Running && s.rows[r.row].runID == Some(own)
    ensures OwnResults(Record(s, r)) <==> Agree(s.runs[own], s.runs[r])
  {
    var s1 := Record(s, r);
    assert s1.rows[r.row].runID == Some(own) && s1.rows[r.row].report == s.runs[r].report;
    assert s1.rows[r.row].state == EndOf(s.runs[r].outcome);
    forall i | 0 <= i < |s1.rows| && i != r.row ensures OwnResult(s1, s1.rows[i]) {
      if i < |s.rows| { assert OwnResult(s, s.rows[i]); }
    }
    assert OwnResults(s1) ==> OwnResult(s1, s1.rows[r.row]);
  }

  lemma RecordOwn(s: State, r: RunId)
    requires Inv(s) && OwnResults(s) && Records(s, r)
    ensures s.rows[r.row].runID.Some? && s.rows[r.row].runID.value in s.runs
    ensures OwnResults(Record(s, r)) <==> Agree(s.runs[s.rows[r.row].runID.value], s.runs[r])
  {
    hide Inv, Core, StateOf, Newest, OwnResults, Record;
    MessageFindsRunning(s, r);
    InvWellOrdered(s);
    CoreLinked(s);
    RecordOwnRows(s, r, s.rows[r.row].runID.value);
  }

  /** The run a recording message finds on its step run. */
  function OwnRun(s: State, r: RunId): EngineRun
    requires Records(s, r) && s.rows[r.row].runID.Some? && s.rows[r.row].runID.value in s.runs
  {
    s.runs[s.rows[r.row].runID.value]
  }

  /** The advance after a recording neither breaks own results nor mends them. */
  lemma AdvanceOwn(s1: State, w: World)
    requires Core(s1) && Fresh(s1, w) && s1.status == Live
    ensures OwnResults(Advance(s1, w)) <==> OwnResults(s1)
  {
    hide Core, Advance, WaitingUnrun, Fresh, Forward, NoNewEndings;
    CoreWaitingUnrun(s1);
    CoreLinked(s1);
    AdvanceForward(s1, w);
    AdvanceNoNewEndings(s1, w);
    var s' := Advance(s1, w);
    if OwnResults(s1) {
      OwnResultsKept(s1, s');
    } else {
      var i :| 0 <= i < |s1.rows| && !OwnResult(s1, s1.rows[i]);
      ForwardAt(s1.rows, s'.rows, i);
      assert !OwnResult(s', s'.rows[i]);
    }
  }

  /** A message leaves every recorded result with its own run if and only if the run it names ended exactly as the run
      the step run carries now did. */
  lemma FaithfulExactly(s: State, r: RunId, w: World)
    requires Inv(s) && OwnResults(s) && Fresh(s, w) && Records(s, r)
    ensures s.rows[r.row].runID.Some? && s.rows[r.row].runID.value in s.runs
    ensures OwnResults(CompleteStep(s, r, w)) <==> Agree(OwnRun(s, r), s.runs[r])
  {
    hide Inv, Core, OwnResults, Advance, Forward, KeepsDone, OneRun;
    var s1 := Record(s, r);
    RecordOwn(s, r);
    RecordForward(s, r);
    RecordKeeps(s, r);
    FreshRows(s, s1, w);
    CompleteIsAdvance(s, r, w);
    AdvanceOwn(s1, w);
  }

  lemma FreshRows(s: State, s1: State, w: World)
    requires Fresh(s, w) && s1.runs == s.runs
    ensures Fresh(s1, w)
  {}

  lemma CompleteIsAdvance(s: State, r: RunId, w: World)
    requires Records(s, r)
    ensures CompleteStep(s, r, w) == Advance(Record(s, r), w)
  {}

  /** The guard the executor leaves out: a message for a finished run is faithful when it names the run the step run
      carries, and when that run is still going it is faithful only then. */
  lemma GuardDecides(s: State, r: RunId, w: World)
    requires Inv(s) && OwnResults(s) && Fresh(s, w) && Records(s, r) && s.runs[r].outcome != InFlight
    ensures s.rows[r.row].runID.Some? && s.rows[r.row].runID.value in s.runs
    ensures s.rows[r.row].runID == Some(r) ==> OwnResults(CompleteStep(s, r, w))
    ensures OwnRun(s, r).outcome == InFlight ==>
              (OwnResults(CompleteStep(s, r, w)) <==> s.rows[r.row].runID == Some(r))
  {
    hide Inv, OwnResults, Fresh, CompleteStep, Records;
    FaithfulExactly(s, r, w);
  }

  // ---------------------------------------------------------------- a retry makes it unfaithful

  const ONLY := Step("a", "t", [], map[], "", 0, "")
  const SOLO := Definition(0, [ONLY])
  const OLD := RunId(0, 1)
  const NEW := RunId(0, 2)

  function Answer(serial: nat): World {
    World(i => Started, id => Items([]), serial)
  }

  function SoloRow(run: Option<RunId>, state: StepState, report: string): StepRun {
    StepRun("a", 0, "", run, 1, state, report)
  }

  lemma SoloNode(sr: StepRun)
    requires sr.stepID == "a" && sr.index == 0
    ensures Newest([sr], 0) && (forall i :: NewestOf([sr], "a", i) <==> i == 0)
    ensures AnyBad([sr]) <==> sr.state.Bad()
    ensures AnyBusy([sr]) <==> !sr.state.Terminal()
    ensures StateOf([sr], "a") != Absent
  {
    assert NewestOf([sr], "a", 0);
  }

  lemma SoloStarts(now: int, status: RunStatus, runs: map<RunId, EngineRun>, serial: nat)
    requires status == Live
    ensures Advance(State(SOLO, now, status, [SoloRow(None, Pending, "")], runs), Answer(serial))
         == State(SOLO, now, Live, [SoloRow(Some(RunId(0, serial)), Running, "")], runs[RunId(0, serial) := NEW_RUN])
  {
    var w := Answer(serial);
    var rows := [SoloRow(None, Pending, "")];
    var s := State(SOLO, now, status, rows, runs);
    SoloNode(rows[0]);
    assert Startable(rows, "a", 0);
    assert StartedRuns(rows, w, "a") == {RunId(0, serial)};
    assert StartRows(rows, w, "a") == [SoloRow(Some(RunId(0, serial)), Running, "")];
    var p := AdvanceStep(s, w, ONLY);
    assert p.runs == runs[RunId(0, serial) := NEW_RUN];
    assert Pass(s, w, 1) == AdvanceStep(Pass(s, w, 0), w, ONLY);
    SoloNode(p.rows[0]);
  }

  lemma SoloFinishes(now: int, runs: map<RunId, EngineRun>, run: RunId, report: string, w: World)
    ensures Advance(State(SOLO, now, Live, [SoloRow(Some(run), Success, report)], runs), w)
         == State(SOLO, now, Succeeded_, [SoloRow(Some(run), Success, report)], runs)
  {
    var rows := [SoloRow(Some(run), Success, report)];
    var s := State(SOLO, now, Live, rows, runs);
    SoloNode(rows[0]);
    forall i | Startable(rows, "a", i) ensures false {}
    AdvanceStepIdle(s, w, ONLY);
    assert Pass(s, w, 1) == AdvanceStep(Pass(s, w, 0), w, ONLY);
  }

  lemma SoloReopens(sr: StepRun)
    requires sr.stepID == "a" && sr.index == 0 && sr.state == Cancelled
    ensures ReopenRows([sr], CurrentRows([sr])) == [ReopenRow(sr)]
  {
    SoloNode(sr);
    assert CurrentBelow([sr], 0) == [];
    assert FirstOf([sr], 0) == 0;
    assert CurrentRows([sr]) == [NewestIn([sr], 0)];
    assert ReopenRows([ReopenRow(sr)], []) == [ReopenRow(sr)];
  }

  lemma SoloFails(now: int, runs: map<RunId, EngineRun>, run: RunId, report: string, w: World)
    ensures Advance(State(SOLO, now, Live, [SoloRow(Some(run), Failed, report)], runs), w)
         == State(SOLO, now, Failed_, [SoloRow(Some(run), Failed, report)], runs)
  {
    var rows := [SoloRow(Some(run), Failed, report)];
    var s := State(SOLO, now, Live, rows, runs);
    SoloNode(rows[0]);
    forall i | Startable(rows, "a", i) ensures false {}
    AdvanceStepIdle(s, w, ONLY);
    assert Pass(s, w, 1) == AdvanceStep(Pass(s, w, 0), w, ONLY);
    assert StopRows(rows, Skipped, Cancelled) == rows;
  }

  const E1 := Cancelling
  const E2 := Retrying(Answer(2))
  const E4 := Message(OLD, Answer(3))

  const S0 := State(SOLO, 0, Live, [SoloRow(Some(OLD), Running, "")], map[OLD := NEW_RUN])
  const S1 := S0.(status := Cancelled_, rows := [SoloRow(Some(OLD), Cancelled, "")])
  const S2 := State(SOLO, 0, Live, [SoloRow(Some(NEW), Running, "")], map[OLD := NEW_RUN, NEW := NEW_RUN])

  /** The first run has ended while the second is going. */
  function S3(result: EngineRun): State {
    S2.(runs := map[OLD := result, NEW := NEW_RUN])
  }

  /** Its message has been recorded on the second. */
  function S4(result: EngineRun): State {
    S3(result).(status := if result.outcome == Won then Succeeded_ else Failed_,
                rows := [SoloRow(Some(NEW), EndOf(result.outcome), result.report)])
  }

  lemma SoloBegins()
    ensures Start(SOLO, 0, Answer(1)) == S0 && Next(S0, E1) == S1
  {
    assert FirstRows(SOLO.steps) == [SoloRow(None, Pending, "")] by {
      assert FirstRows([]) == [];
    }
    SoloStarts(0, Live, map[], 1);
    SoloNode(S0.rows[0]);
    assert StopRows(S0.rows, Cancelled, Cancelled) == S1.rows;
  }

  lemma SoloRestarts(result: EngineRun)
    ensures Next(S1, E2) == S2 && Next(S2, Finished(OLD, result)) == S3(result)
  {
    SoloNode(S1.rows[0]);
    SoloReopens(S1.rows[0]);
    SoloStarts(0, Live, S1.runs, 2);
    assert S1.runs[NEW := NEW_RUN] == S2.runs;
    assert S2.runs[OLD := result] == S3(result).runs;
  }

  lemma SoloRecords(result: EngineRun)
    requires result.outcome != InFlight
    ensures Records(S3(result), OLD)
    ensures Record(S3(result), OLD) == S3(result).(rows := [SoloRow(Some(NEW), EndOf(result.outcome), result.report)])
  {
    var end := SoloRow(Some(NEW), EndOf(result.outcome), result.report);
    assert S3(result).rows[0 := end] == [end];
    assert StepByID(SOLO.steps, "a") == Some(ONLY);
  }

  lemma SoloLast(result: EngineRun)
    requires result.outcome != InFlight
    ensures Next(S3(result), E4) == S4(result)
    ensures !OwnResults(S4(result))
  {
    SoloRecords(result);
    hide Record, Records, Advance;
    SoloFinishes(0, S3(result).runs, NEW, result.report, Answer(3));
    SoloFails(0, S3(result).runs, NEW, result.report, Answer(3));
    assert !OwnResult(S4(result), S4(result).rows[0]);
  }

  /** One step, started, cancelled and retried: the finish message of the first run, arriving after the retry, ends the
      step with the first run's result, won or lost, while the run the step carries is still going. */
  lemma LateMessageHitsTheRetry(result: EngineRun)
    requires result.outcome != InFlight
    ensures var es := [E1, E2, Finished(OLD, result), E4];
            var s := Exec(Start(SOLO, 0, Answer(1)), es);
            && LegalHistory(Start(SOLO, 0, Answer(1)), es)
            && s.status == (if result.outcome == Won then Succeeded_ else Failed_)
            && s.rows == [SoloRow(Some(NEW), EndOf(result.outcome), result.report)]
            && NEW in s.runs && s.runs[NEW].outcome == InFlight
            && !OwnResults(s)
  {
    SoloBegins();
    SoloRestarts(result);
    SoloLast(result);
    SoloLegal(result);
    hide Start, Next, OwnResults, Answer, Legal, LegalHistory, Exec, S3;
    FourEvents(S0, E1, S1, E2, S2, Finished(OLD, result), S3(result), E4, S4(result));
  }

  lemma SoloLegal(result: EngineRun)
    requires result.outcome != InFlight
    ensures Legal(S0, E1) && Legal(S1, E2) && Legal(S2, Finished(OLD, result)) && Legal(S3(result), E4)
  {}

  lemma FourEvents(s0: State, e1: Event, s1: State, e2: Event, s2: State, e3: Event, s3: State, e4: Event, s4: State)
    requires Legal(s0, e1) && Next(s0, e1) == s1 && Legal(s1, e2) && Next(s1, e2) == s2
    requires Legal(s2, e3) && Next(s2, e3) == s3 && Legal(s3, e4) && Next(s3, e4) == s4
    ensures LegalHistory(s0, [e1, e2, e3, e4]) && Exec(s0, [e1, e2, e3, e4]) == s4
  {
    hide Next, Legal, LegalHistory, Exec;
    NoEvents(s0);
    OneMoreEvent(s0, [], e1);
    assert [] + [e1] == [e1];
    OneMoreEvent(s0, [e1], e2);
    assert [e1] + [e2] == [e1, e2];
    OneMoreEvent(s0, [e1, e2], e3);
    assert [e1, e2] + [e3] == [e1, e2, e3];
    OneMoreEvent(s0, [e1, e2, e3], e4);
    assert [e1, e2, e3] + [e4] == [e1, e2, e3, e4];
  }

  // ---------------------------------------------------------------- guarded histories are faithful

  /** Whatever the snapshot took for running still runs under the same run, or has ended. */
  ghost predicate StillOwn(s: State, snapshot: seq<StepRun>) {
    forall k :: 0 <= k < |snapshot| && snapshot[k].state == Running && snapshot[k].runID.Some? ==>
      RunsOrEnded(s.rows, snapshot[k].runID.value)
  }

  predicate RunsOrEnded(rows: seq<StepRun>, r: RunId) {
    r.row < |rows| && (rows[r.row].state.Terminal() || (rows[r.row].state == Running && rows[r.row].runID == Some(r)))
  }

  lemma CompleteOwn(s: State, r: RunId, w: World)
    requires Inv(s) && OwnResults(s) && Fresh(s, w)
    requires Records(s, r) ==> s.runs[r].outcome != InFlight && s.rows[r.row].runID == Some(r)
    ensures OwnResults(CompleteStep(s, r, w))
  {
    if Records(s, r) {
      GuardDecides(s, r, w);
    }
  }

  lemma StillOwnKept(s: State, s1: State, snapshot: seq<StepRun>)
    requires StillOwn(s, snapshot) && Forward(s.rows, s1.rows)
    ensures StillOwn(s1, snapshot)
  {
    forall k | 0 <= k < |snapshot| && snapshot[k].state == Running && snapshot[k].runID.Some?
      ensures RunsOrEnded(s1.rows, snapshot[k].runID.value)
    {
      var i := snapshot[k].runID.value.row;
      assert RunsOrEnded(s.rows, snapshot[k].runID.value);
      assert RowForward(s.rows[i], s1.rows[i]);
    }
  }

  lemma SweepRowOwn(s: State, sr: StepRun, w: World)
    requires Inv(s) && OwnResults(s) && Fresh(s, w)
    requires sr.state == Running && sr.runID.Some? ==> RunsOrEnded(s.rows, sr.runID.value)
    ensures OwnResults(SweepRow(s, sr, w))
  {
    hide Inv, OwnResults, Fresh, CompleteStep;
    if Stranded(s, sr) {
      CompleteOwn(s, sr.runID.value, w);
    }
  }

  lemma {:induction false} ReconcileOwn(s: State, snapshot: seq<StepRun>, w: World)
    requires Inv(s) && OwnResults(s) && Fresh(s, w) && StillOwn(s, snapshot)
    ensures OwnResults(Reconcile(s, snapshot, w))
    decreases |snapshot|
  {
    hide Inv, OwnResults, OneRun, Fresh, SweepRow, Forward;
    if snapshot != [] {
      var s1 := SweepRow(s, snapshot[0], w);
      SweepRowForward(s, snapshot[0], w);
      SweepRowOwn(s, snapshot[0], w);
      StillOwnKept(s, s1, snapshot);
      assert StillOwn(s1, snapshot[1..]);
      ReconcileOwn(s1, snapshot[1..], w.(serial := w.serial + 1));
    }
  }

  lemma SnapshotOwn(s: State)
    requires Inv(s)
    ensures StillOwn(s, s.rows)
  {}

  lemma StopOwn(s: State, status: RunStatus)
    requires OwnResults(s)
    ensures OwnResults(s.(rows := StopRows(s.rows, Cancelled, Cancelled), status := status))
  {
    StopNoNewEndings(s.rows, Cancelled, Cancelled);
    OwnResultsKept(s, s.(rows := StopRows(s.rows, Cancelled, Cancelled), status := status));
  }

  lemma TickOwn(s: State, now: int, w: World)
    requires Inv(s) && OwnResults(s) && Fresh(s, w)
    ensures OwnResults(Tick(s, now, w))
  {
    hide Inv, OwnResults, Fresh, Reconcile, StopRows, StillOwn;
    SnapshotOwn(s);
    ReconcileOwn(s, s.rows, w);
    StopOwn(s, TimedOut);
  }

  lemma {:induction false} ReopenNoNewEndings(rows: seq<StepRun>, cur: seq<nat>)
    requires forall k :: 0 <= k < |cur| ==> cur[k] < |rows|
    ensures NoNewEndings(rows, ReopenRows(rows, cur))
    ensures WaitingUnrun(rows) ==> WaitingUnrun(ReopenRows(rows, cur))
    decreases |cur|
  {
    NoNewEndingsRefl(rows);
    if cur != [] {
      var rows1 := ReopenOne(rows, cur[0]);
      assert forall k :: 0 <= k < |cur[1..]| ==> cur[1..][k] == cur[k + 1];
      ReopenNoNewEndings(rows1, cur[1..]);
      NoNewEndingsTrans(rows, rows1, ReopenRows(rows1, cur[1..]));
    }
  }

  lemma RetryOwn(s: State, w: World)
    requires Inv(s) && OwnResults(s) && Fresh(s, w)
    ensures OwnResults(RetryFailed(s, w))
  {
    if s.status.Terminal() && AnyBad(s.rows) {
      InvWellOrdered(s);
      CoreWaitingUnrun(s);
      CurrentIsNewest(s.rows);
      ReopenKeeps(s, CurrentRows(s.rows));
      var rows1 := ReopenRows(s.rows, CurrentRows(s.rows));
      CoreUpdatedStatus(s.(rows := rows1), Live);
      hide Inv, Core, OwnResults, Fresh, Advance, NoNewEndings, WaitingUnrun, AnyBad, Newest;
      ReopenNoNewEndings(s.rows, CurrentRows(s.rows));
      var s1 := s.(rows := rows1, status := Live);
      FreshRows(s, s1, w);
      AdvanceForward(s1, w);
      AdvanceNoNewEndings(s1, w);
      NoNewEndingsTrans(s.rows, rows1, Advance(s1, w).rows);
      OwnResultsKept(s, Advance(s1, w));
    }
  }

  lemma FinishedOwn(s: State, r: RunId, result: EngineRun)
    requires OwnResults(s) && r in s.runs && s.runs[r].outcome == InFlight
    ensures OwnResults(s.(runs := s.runs[r := result]))
  {
    var s' := s.(runs := s.runs[r := result]);
    forall i | 0 <= i < |s'.rows| ensures OwnResult(s', s'.rows[i]) {
      assert OwnResult(s, s.rows[i]);
    }
  }

  /** A message with something to record names the run its step run carries. */
  ghost predicate Guarded(s: State, e: Event) {
    e.Message? && Records(s, e.run) ==> s.rows[e.run.row].runID == Some(e.run)
  }

  ghost predicate GuardedHistory(s: State, es: seq<Event>)
    decreases |es|
  {
    es == [] || (GuardedHistory(s, es[..|es| - 1]) && Guarded(Exec(s, es[..|es| - 1]), es[|es| - 1]))
  }

  lemma NextOwn(s: State, e: Event)
    requires Inv(s) && OwnResults(s) && Legal(s, e) && Guarded(s, e)
    ensures OwnResults(Next(s, e))
  {
    hide Inv, OwnResults, Fresh, StopRows, Tick, CompleteStep, RetryFailed;
    match e
    case Finished(r, result) => FinishedOwn(s, r, result);
    case Message(r, w) => CompleteOwn(s, r, w);
    case Cancelling => StopOwn(s, Cancelled_);
    case Ticking(now, w) => TickOwn(s, now, w);
    case Retrying(w) => RetryOwn(s, w);
  }

  lemma {:induction false} HistoryOwn(s: State, es: seq<Event>)
    requires Inv(s) && OwnResults(s) && LegalHistory(s, es) && GuardedHistory(s, es)
    ensures OwnResults(Exec(s, es))
    decreases |es|
  {
    hide Inv, OwnResults, Legal, Next, Guarded;
    if es != [] {
      var front := es[..|es| - 1];
      HistoryOwn(s, front);
      HistoryInv(s, front);
      NextOwn(Exec(s, front), es[|es| - 1]);
    }
  }

  lemma StartOwn(def: Definition, now: int, w: World)
    requires WellOrdered(def)
    ensures OwnResults(Start(def, now, w))
  {
    var s := State(def, now, Live, FirstRows(def.steps), map[]);
    FirstRowsShape(def.steps);
    AdvanceNoNewEndings(s, w);
    OwnResultsKept(s, Start(def, now, w));
  }

  /** With that guard on every message, sweeps unguarded, all recorded results are own results in every history,
      operator retries included. */
  lemma GuardedResultsAreOwn(def: Definition, now: int, w: World, es: seq<Event>)
    requires WellOrdered(def)
    requires LegalHistory(Start(def, now, w), es) && GuardedHistory(Start(def, now, w), es)
    ensures OwnResults(Exec(Start(def, now, w), es))
  {
    hide Inv, OwnResults, Start;
    StartOwn(def, now, w);
    StartInv(def, now, w);
    HistoryOwn(Start(def, now, w), es);
  }

  lemma {:induction false} UnretriedIsGuarded(s: State, es: seq<Event>)
    requires Inv(s) && OneRun(s) && LegalHistory(s, es) && NoRetry(es)
    ensures GuardedHistory(s, es)
    decreases |es|
  {
    hide Inv, Legal, Next;
    if es != [] {
      var front := es[..|es| - 1];
      assert NoRetry(front);
      UnretriedIsGuarded(s, front);
      HistoryInv(s, front);
      HistoryForward(s, front);
      OneRunIsGuarded(Exec(s, front), es[|es| - 1]);
    }
  }

  lemma OneRunIsGuarded(s: State, e: Event)
    requires OneRun(s)
    ensures Guarded(s, e)
  {}

  /** Without an operator's retry no guard is needed: every recorded success or failure is the result of the step
      run's own run. */
  lemma ResultsAreOwn(def: Definition, now: int, w: World, es: seq<Event>)
    requires WellOrdered(def) && LegalHistory(Start(def, now, w), es) && NoRetry(es)
    ensures OwnResults(Exec(Start(def, now, w), es))
  {
    hide Inv, OwnResults, Start, GuardedHistory;
    StartInv(def, now, w);
    StartOneRunEach(def, now, w);
    UnretriedIsGuarded(Start(def, now, w), es);
    GuardedResultsAreOwn(def, now, w, es);
  }
}
