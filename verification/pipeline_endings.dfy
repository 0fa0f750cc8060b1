/** How a run ends other than by success, and comes back: the timeout, a cancellation, a failure, an operator's
    retry. */
module PipelineEndings {
  import opened Wrappers
  import opened Definitions
  import opened StepRows
  import opened RunState
  import opened AdvanceProofs
  import opened Invariants
  import opened History
  import opened Progress
  import opened PipelineRetries

  // ---------------------------------------------------------------- what stopping leaves

  /** Every newest attempt that was pending or running is cancelled, and nothing else has changed. */
  ghost predicate AllCancelled(rows: seq<StepRun>, rows': seq<StepRun>) {
    && |rows'| == |rows|
    && forall i :: 0 <= i < |rows| ==>
        rows'[i] == if Newest(rows, i) && (rows[i].state == Pending || rows[i].state == Running)
                    then rows[i].(state := Cancelled) else rows[i]
  }

  /** A cancellation of a live run, whatever it was doing; a finished one is left alone. */
  lemma CancelExactly(s: State)
    ensures var s' := Cancel(s);
            && (s.status != Live ==> s' == s)
            && (s.status == Live ==> s'.status == Cancelled_ && AllCancelled(s.rows, s'.rows))
            && s'.runs == s.runs && s'.def == s.def && s'.startedAt == s.startedAt
  {}

  // ---------------------------------------------------------------- a pass leaves what has started alone

  lemma StepLeavesStarted(s: State, w: World, step: Step, i: nat)
    requires i < |s.rows| && s.rows[i].state != Pending
    ensures i < |AdvanceStep(s, w, step).rows| && AdvanceStep(s, w, step).rows[i] == s.rows[i]
    ensures forall r :: r in s.runs && r.serial < w.serial ==>
              r in AdvanceStep(s, w, step).runs && AdvanceStep(s, w, step).runs[r] == s.runs[r]
  {
    hide StateOf, DepsSucceeded;
    if DepsSucceeded(s.rows, step) {
      var s1 := Expand(s, w, step);
      assert s1.rows[i] == s.rows[i];
      StartRowsAt(s1.rows, w, step.id, i);
    }
  }

  lemma {:induction false} PassLeavesStarted(s: State, w: World, k: nat, i: nat)
    requires k <= |s.def.steps| && i < |s.rows| && s.rows[i].state != Pending
    ensures i < |Pass(s, w, k).rows| && Pass(s, w, k).rows[i] == s.rows[i]
    ensures forall r :: r in s.runs && r.serial < w.serial ==>
              r in Pass(s, w, k).runs && Pass(s, w, k).runs[r] == s.runs[r]
    decreases k
  {
    hide AdvanceStep;
    if k > 0 {
      PassLeavesStarted(s, w, k - 1, i);
      StepLeavesStarted(Pass(s, w, k - 1), w, s.def.steps[k - 1], i);
    }
  }

  lemma AdvanceLeavesStarted(s: State, w: World, i: nat)
    requires s.status == Live && i < |s.rows| && s.rows[i].state != Pending
    ensures var s' := Advance(s, w);
            && i < |s'.rows| && (s'.status == Failed_ || s'.rows[i] == s.rows[i])
            && (s'.status == Failed_ || s'.status == Live || s'.status == Succeeded_)
            && (forall r :: r in s.runs && r.serial < w.serial ==> r in s'.runs && s'.runs[r] == s.runs[r])
  {
    hide Pass, AnyBad, AnyBusy;
    PassLeavesStarted(s, w, |s.def.steps|, i);
    PassKeepsDone(s, w, |s.def.steps|);
  }

  // ---------------------------------------------------------------- the sweep

  /** Row i is running on a run that is still going. */
  predicate Going(s: State, i: nat) {
    && i < |s.rows| && s.rows[i].state == Running && s.rows[i].runID.Some?
    && s.rows[i].runID.value in s.runs && s.runs[s.rows[i].runID.value].outcome == InFlight
  }

  /** What the call did to row i: nothing, unless it failed the run. */
  ghost predicate LeftAlone(s: State, s': State, i: nat) {
    s'.status == Failed_ || (Going(s', i) && i < |s.rows| && s'.rows[i] == s.rows[i])
  }

  lemma RecordElsewhere(s: State, r: RunId, i: nat)
    requires Records(s, r) && i < |s.rows| && i != r.row
    ensures var s1 := Record(s, r);
            i < |s1.rows| && s1.rows[i] == s.rows[i] && s1.runs == s.runs && s1.status == s.status
  {}

  lemma CompleteLeavesGoing(s: State, r: RunId, w: World, i: nat)
    requires Inv(s) && Fresh(s, w) && Going(s, i) && r.row != i
    ensures LeftAlone(s, CompleteStep(s, r, w), i)
  {
    if Records(s, r) {
      MessageFindsRunning(s, r);
      hide Inv, Record, Advance, Records;
      RecordElsewhere(s, r, i);
      AdvanceLeavesStarted(Record(s, r), w, i);
    }
  }

  /** A run in the snapshot that belongs to row i is the one row i is going on. */
  ghost predicate Current(snapshot: seq<StepRun>, i: nat, run: Option<RunId>) {
    forall k :: 0 <= k < |snapshot| && snapshot[k].runID.Some? && snapshot[k].runID.value.row == i ==>
      snapshot[k].runID == run
  }

  lemma {:induction false} SweepLeavesGoing(s: State, snapshot: seq<StepRun>, w: World, i: nat)
    requires Inv(s) && Fresh(s, w)
    requires s.status == Failed_ || (Going(s, i) && Current(snapshot, i, s.rows[i].runID))
    ensures var s' := Reconcile(s, snapshot, w);
            && (s.status == Failed_ ==> s'.status == Failed_)
            && (Going(s, i) ==> LeftAlone(s, s', i))
    decreases |snapshot|
  {
    hide Inv, CompleteStep, Fresh, Forward, KeepsResults, OneRun, RowEnded;
    if snapshot != [] {
      var s1 := SweepRow(s, snapshot[0], w);
      SweepRowForward(s, snapshot[0], w);
      if Stranded(s, snapshot[0]) {
        SweepTurn(s, snapshot[0], w, i);
      }
      assert forall k :: 0 <= k < |snapshot| - 1 ==> snapshot[1..][k] == snapshot[k + 1];
      SweepLeavesGoing(s1, snapshot[1..], w.(serial := w.serial + 1), i);
    }
  }

  lemma SweepTurn(s: State, sr: StepRun, w: World, i: nat)
    requires Inv(s) && Fresh(s, w) && Stranded(s, sr)
    requires s.status == Failed_ || (Going(s, i) && (sr.runID.value.row == i ==> sr.runID == s.rows[i].runID))
    ensures var s' := CompleteStep(s, sr.runID.value, w);
            && (s.status == Failed_ ==> s'.status == Failed_)
            && (Going(s, i) ==> LeftAlone(s, s', i))
  {
    hide Inv, CompleteStep, Fresh;
    if s.status == Failed_ {
      FailedIsQuiet(s, sr.runID.value, w);
    } else {
      CompleteLeavesGoing(s, sr.runID.value, w, i);
    }
  }

  lemma FailedIsQuiet(s: State, r: RunId, w: World)
    requires Inv(s) && s.status == Failed_
    ensures CompleteStep(s, r, w) == s
  {
    if Records(s, r) {
      MessageFindsRunning(s, r);
    }
  }

  /** The definition's own limit, or two hours when it has none. */
  function Limit(def: Definition): int {
    if def.timeout > 0 then def.timeout else 2 * 3600 * 1_000_000_000
  }

  lemma {:induction false} SweepIsNoTimeout(s: State, snapshot: seq<StepRun>, w: World)
    requires s.status != TimedOut
    ensures var s' := Reconcile(s, snapshot, w);
            s'.status != TimedOut && s'.startedAt == s.startedAt && s'.def == s.def
    decreases |snapshot|
  {
    hide CompleteStep;
    if snapshot != [] {
      if Stranded(s, snapshot[0]) {
        CompleteIsNoTimeout(s, snapshot[0].runID.value, w);
      }
      SweepIsNoTimeout(SweepRow(s, snapshot[0], w), snapshot[1..], w.(serial := w.serial + 1));
    }
  }

  lemma CompleteIsNoTimeout(s: State, r: RunId, w: World)
    requires s.status != TimedOut
    ensures var s' := CompleteStep(s, r, w);
            s'.status != TimedOut && s'.startedAt == s.startedAt && s'.def == s.def
  {
    hide Pass, AnyBad, AnyBusy;
    if Records(s, r) {
      PassKeepsDone(Record(s, r), w, |s.def.steps|);
    }
  }

  lemma {:induction false} NothingStranded(s: State, snapshot: seq<StepRun>, w: World)
    requires forall k :: 0 <= k < |snapshot| ==> !Stranded(s, snapshot[k])
    ensures Reconcile(s, snapshot, w) == s
    decreases |snapshot|
  {
    if snapshot != [] {
      NothingStranded(s, snapshot[1..], w.(serial := w.serial + 1));
    }
  }

  lemma RowsNameTheirRuns(s: State, i: nat)
    requires Inv(s) && i < |s.rows|
    ensures Current(s.rows, i, s.rows[i].runID)
  {}

  /**
   * The sweep. A run that is over, or no older than now, is left alone. At the limit the run is timed out: its newest
   * pending and running step runs are cancelled and nothing else changes. Before the limit it is not, and a step run
   * whose run is still going is left alone unless another result fails the run; when no result is waiting to be
   * recorded, nothing changes at all.
   */
  lemma TickExactly(s: State, now: int, w: World)
    requires Inv(s) && Fresh(s, w)
    ensures var s' := Tick(s, now, w);
            && (s.status != Live || now <= s.startedAt ==> s' == s)
            && (s.status == Live && s.startedAt < now && s.startedAt + Limit(s.def) <= now ==>
                  && s'.status == TimedOut && AllCancelled(s.rows, s'.rows)
                  && s'.runs == s.runs && s'.def == s.def && s'.startedAt == s.startedAt)
            && (s.status == Live && s.startedAt < now < s.startedAt + Limit(s.def) ==>
                  && s'.status != TimedOut && s'.def == s.def && s'.startedAt == s.startedAt
                  && (forall i :: 0 <= i < |s.rows| && Going(s, i) ==> LeftAlone(s, s', i))
                  && ((forall i :: 0 <= i < |s.rows| && s.rows[i].state == Running ==> Going(s, i)) ==> s' == s))
  {
    hide Inv, Reconcile, Fresh, LeftAlone, AllCancelled, Current, StopRows;
    StoppedIsCancelled(s.rows);
    if s.status == Live && s.startedAt < now < s.startedAt + Limit(s.def) {
      SweepIsNoTimeout(s, s.rows, w);
      forall i | 0 <= i < |s.rows| && Going(s, i) ensures LeftAlone(s, Tick(s, now, w), i) {
        RowsNameTheirRuns(s, i);
        SweepLeavesGoing(s, s.rows, w, i);
      }
      if forall i :: 0 <= i < |s.rows| && s.rows[i].state == Running ==> Going(s, i) {
        NothingStranded(s, s.rows, w);
      }
    }
  }

  lemma StoppedIsCancelled(rows: seq<StepRun>)
    ensures AllCancelled(rows, StopRows(rows, Cancelled, Cancelled))
  {}

  // ---------------------------------------------------------------- a failure

  /** A pending row whose start was tried: running under the call's run, or failed with the reason. */
  predicate Tried(sr: StepRun, sr': StepRun, i: nat, w: World) {
    && sr.state == Pending
    && match w.start(i)
       case Started => sr' == sr.(state := Running, runID := Some(RunId(i, w.serial)))
       case Refused(report) => sr' == sr.(state := Failed, report := report)
  }

  lemma StepRow(s: State, w: World, step: Step, i: nat)
    requires Newest(s.rows, i)
    ensures var rows' := AdvanceStep(s, w, step).rows;
            Newest(rows', i) && (rows'[i] == s.rows[i] || Tried(s.rows[i], rows'[i], i, w))
  {
    hide DepsSucceeded;
    if DepsSucceeded(s.rows, step) {
      var s1 := Expand(s, w, step);
      ExpandedNewest(s, w, step, i);
      StartRowsFrame(s1.rows, w, step.id);
      StartRowsAt(s1.rows, w, step.id, i);
    }
  }

  lemma ExpandedNewest(s: State, w: World, step: Step, i: nat)
    requires Newest(s.rows, i)
    ensures var rows' := Expand(s, w, step).rows; Newest(rows', i) && rows'[i] == s.rows[i]
  {
    if StateOf(s.rows, step.id) == Absent {
      var added := NewRows(step, w.fan(step.id));
      AbsentHasNoRows(s.rows, step.id);
      NewRowsShape(step, w.fan(step.id));
      NewSlotsNewest(s.rows, added, step.id);
    }
  }

  lemma {:induction false} PassRow(s: State, w: World, k: nat, i: nat)
    requires k <= |s.def.steps| && Newest(s.rows, i)
    ensures var rows' := Pass(s, w, k).rows;
            Newest(rows', i) && (rows'[i] == s.rows[i] || Tried(s.rows[i], rows'[i], i, w))
    decreases k
  {
    hide AdvanceStep, Newest;
    if k > 0 {
      PassRow(s, w, k - 1, i);
      StepRow(Pass(s, w, k - 1), w, s.def.steps[k - 1], i);
    }
  }

  /** What a failing call leaves of a newest attempt: a running one is cancelled; a pending one is skipped, unless its
      start was tried, and then it is cancelled or carries the refusal; one that had ended is as it was. */
  predicate Halted(sr: StepRun, sr': StepRun, i: nat, w: World) {
    match sr.state
    case Running => sr' == sr.(state := Cancelled)
    case Pending =>
      || sr' == sr.(state := Skipped)
      || (w.start(i).Started? && sr' == sr.(state := Cancelled, runID := Some(RunId(i, w.serial))))
      || (w.start(i).Refused? && sr' == sr.(state := Failed, report := w.start(i).report))
    case _ => sr' == sr
  }

  /** The run fails exactly when the newest attempt of some slot has ended badly, and then everything else is
      stopped. */
  lemma FailureExactly(s: State, w: World)
    requires s.status == Live
    ensures var s' := Advance(s, w);
            && (s'.status == Failed_ <==> AnyBad(s'.rows))
            && (s'.status == Failed_ ==> !AnyBusy(s'.rows))
            && (s'.status == Failed_ ==> forall i: nat :: Newest(s.rows, i) ==>
                  i < |s.rows| && i < |s'.rows| && Halted(s.rows[i], s'.rows[i], i, w))
  {
    var p := Pass(s, w, |s.def.steps|);
    PassKeepsDone(s, w, |s.def.steps|);
    hide Pass, Newest, Halted, StopRows;
    if AnyBad(p.rows) {
      StoppedBadly(p.rows);
      forall i: nat | Newest(s.rows, i)
        ensures i < |s.rows| && i < |p.rows| && i < |Advance(s, w).rows|
        ensures Halted(s.rows[i], Advance(s, w).rows[i], i, w)
      {
        PassRow(s, w, |s.def.steps|, i);
        RowHalts(s.rows, p.rows, i, w);
      }
    }
  }

  lemma StoppedBadly(rows: seq<StepRun>)
    requires AnyBad(rows)
    ensures AnyBad(StopRows(rows, Skipped, Cancelled)) && !AnyBusy(StopRows(rows, Skipped, Cancelled))
  {
    StopRowsFrame(rows, Skipped, Cancelled);
    var b :| Newest(rows, b) && rows[b].state.Bad();
    assert Newest(StopRows(rows, Skipped, Cancelled), b);
  }

  lemma RowHalts(rows: seq<StepRun>, rows': seq<StepRun>, i: nat, w: World)
    requires Newest(rows, i) && Newest(rows', i) && (rows'[i] == rows[i] || Tried(rows[i], rows'[i], i, w))
    ensures |StopRows(rows', Skipped, Cancelled)| == |rows'|
    ensures Halted(rows[i], StopRows(rows', Skipped, Cancelled)[i], i, w)
  {}

  // ---------------------------------------------------------------- an operator's retry

  /** Every run starts and every list can be used. */
  ghost predicate Willing(w: World) {
    (forall i :: w.start(i).Started?) && forall id :: w.fan(id).Items? && |w.fan(id).items| <= MAX_FANOUT
  }

  lemma StepHealthy(s: State, w: World, step: Step)
    requires Willing(w) && !AnyBad(s.rows)
    ensures !AnyBad(AdvanceStep(s, w, step).rows)
  {
    var s1 := Expand(s, w, step);
    ExpandHealthy(s, w, step);
    StartRowsFrame(s1.rows, w, step.id);
    forall i | Newest(StartRows(s1.rows, w, step.id), i) ensures !StartRows(s1.rows, w, step.id)[i].state.Bad() {
      StartRowsAt(s1.rows, w, step.id, i);
    }
  }

  lemma ExpandHealthy(s: State, w: World, step: Step)
    requires Willing(w) && !AnyBad(s.rows)
    ensures !AnyBad(Expand(s, w, step).rows)
  {
    var added := NewRows(step, w.fan(step.id));
    assert forall k :: 0 <= k < |added| ==> !added[k].state.Bad();
    hide NewRows, StateOf;
    var rows' := s.rows + added;
    forall i | Newest(rows', i) ensures !rows'[i].state.Bad() {
      if i < |s.rows| {
        OlderNewest(s.rows, added, i);
      }
    }
  }

  lemma {:induction false} PassHealthy(s: State, w: World, k: nat)
    requires k <= |s.def.steps| && Willing(w) && !AnyBad(s.rows)
    ensures !AnyBad(Pass(s, w, k).rows)
    decreases k
  {
    hide AdvanceStep, AnyBad, Willing;
    if k > 0 {
      PassHealthy(s, w, k - 1);
      StepHealthy(Pass(s, w, k - 1), w, s.def.steps[k - 1]);
    }
  }

  /** The reopened rows: the newest attempt of a slot that ended badly is pending again, on its own row or a new one. */
  lemma ReopenedNewest(rows: seq<StepRun>, i: nat) returns (k: nat)
    requires Newest(rows, i) && rows[i].state.Bad()
    ensures var rows' := ReopenRows(rows, CurrentRows(rows));
            && Newest(rows', k)
            && (if rows[i].state == Failed then k >= |rows| && rows'[k] == NextAttempt(rows[i])
                else k == i && rows'[k] == rows[i].(state := Pending, runID := None, report := ""))
  {
    var rows' := ReopenRows(rows, CurrentRows(rows));
    RetryReopensExactly(rows);
    if rows[i].state == Failed {
      assert NextAttempt(rows[i]) in rows'[|rows|..];
      k :| |rows| <= k < |rows'| && rows'[k] == NextAttempt(rows[i]);
      NextIsNewest(rows, rows', i, k);
    } else {
      k := i;
      KeptIsNewest(rows, rows', i);
    }
  }

  /** Among the rows of a retried table: a next attempt is the newest of its slot. */
  lemma NextIsNewest(rows: seq<StepRun>, rows': seq<StepRun>, i: nat, k: nat)
    requires Newest(rows, i) && |rows| <= k < |rows'| && rows'[k] == NextAttempt(rows[i])
    requires forall j :: 0 <= j < |rows| ==> SameKey(rows[j], rows'[j])
    requires forall j, l :: |rows| <= j < l < |rows'| ==> !SameSlot(rows'[j], rows'[l])
    ensures Newest(rows', k)
  {
    forall j | 0 <= j < |rows'| && SameSlot(rows'[j], rows'[k])
      ensures rows'[j].attempt < rows'[k].attempt || (rows'[j].attempt == rows'[k].attempt && j <= k)
    {
      if j < |rows| {
        assert SameKey(rows[j], rows'[j]) && SameSlot(rows[j], rows[i]);
      }
    }
  }

  lemma KeptIsNewest(rows: seq<StepRun>, rows': seq<StepRun>, i: nat)
    requires Newest(rows, i) && rows[i].state != Failed && |rows| <= |rows'|
    requires forall j :: 0 <= j < |rows| ==> SameKey(rows[j], rows'[j])
    requires forall x :: x in rows'[|rows|..] ==>
               exists j :: Newest(rows, j) && rows[j].state == Failed && x == NextAttempt(rows[j])
    ensures Newest(rows', i)
  {
    forall j | |rows| <= j < |rows'| ensures !SameSlot(rows'[j], rows'[i]) {
      assert rows'[j] == rows'[|rows|..][j - |rows|] && rows'[j] in rows'[|rows|..];
      var l :| Newest(rows, l) && rows[l].state == Failed && rows'[j] == NextAttempt(rows[l]);
      NewestUnique(rows);
      assert SameKey(rows[i], rows'[i]);
    }
    forall j | 0 <= j < |rows| && SameSlot(rows'[j], rows'[i])
      ensures rows'[j].attempt < rows'[i].attempt || (rows'[j].attempt == rows'[i].attempt && j <= i)
    {
      assert SameKey(rows[j], rows'[j]) && SameKey(rows[i], rows'[i]);
    }
  }

  lemma ReopenedHealthy(rows: seq<StepRun>)
    ensures !AnyBad(ReopenRows(rows, CurrentRows(rows)))
  {
    var rows' := ReopenRows(rows, CurrentRows(rows));
    RetryReopensExactly(rows);
    hide Newest, CurrentRows, ReopenRows;
    forall i | Newest(rows', i) ensures !rows'[i].state.Bad() {
      ReopenedIsFine(rows, rows', i);
    }
  }

  lemma ReopenedIsFine(rows: seq<StepRun>, rows': seq<StepRun>, i: nat)
    requires Newest(rows', i) && rows' == ReopenRows(rows, CurrentRows(rows))
    ensures i < |rows'| && !rows'[i].state.Bad()
  {
    RetryReopensExactly(rows);
    if i < |rows| {
      KeysNewest(rows, rows', i);
      if rows[i].state == Failed {
        var k := ReopenedNewest(rows, i);
        NewestUnique(rows');
      }
    } else {
      assert rows'[i] == rows'[|rows|..][i - |rows|] && rows'[i] in rows'[|rows|..];
    }
  }

  lemma KeysNewest(rows: seq<StepRun>, rows': seq<StepRun>, i: nat)
    requires Newest(rows', i) && i < |rows| <= |rows'|
    requires forall j :: 0 <= j < |rows| ==> SameKey(rows[j], rows'[j])
    ensures Newest(rows, i)
  {
    forall j | 0 <= j < |rows| && SameSlot(rows[j], rows[i])
      ensures rows[j].attempt < rows[i].attempt || (rows[j].attempt == rows[i].attempt && j <= i)
    {
      assert SameKey(rows[j], rows'[j]) && SameKey(rows[i], rows'[i]);
    }
  }

  /** The newest attempt of a slot that ended badly is under way again in s', on its own row or a new one. */
  ghost predicate Revived(s: State, s': State, i: nat, w: World) {
    && i < |s.rows|
    && exists k :: 0 <= k < |s'.rows| && Newest(s'.rows, k) && UnderWay(s'.rows[k], k, w)
         && (if s.rows[i].state == Failed
             then k >= |s.rows| && SameItem(s'.rows[k], s.rows[i]) && s'.rows[k].attempt == s.rows[i].attempt + 1
             else k == i && SameKey(s'.rows[k], s.rows[i]))
  }

  /** The row waits without a run, or runs under one this call started; it has no report yet. */
  predicate UnderWay(sr: StepRun, i: nat, w: World) {
    && sr.report == ""
    && ((sr.state == Pending && sr.runID == None) || (sr.state == Running && sr.runID == Some(RunId(i, w.serial))))
  }

  lemma RevivedPass(s: State, w: World, i: nat)
    requires Newest(s.rows, i) && s.rows[i].state.Bad() && Willing(w)
    ensures var s1 := s.(rows := ReopenRows(s.rows, CurrentRows(s.rows)), status := Live);
            var p := Pass(s1, w, |s.def.steps|);
            Revived(s, p, i, w) && AnyBusy(p.rows)
  {
    var s1 := s.(rows := ReopenRows(s.rows, CurrentRows(s.rows)), status := Live);
    var k := ReopenedNewest(s.rows, i);
    PassRow(s1, w, |s.def.steps|, k);
    assert k < |s1.rows|;
    hide Pass, ReopenRows, CurrentRows;
    var p := Pass(s1, w, |s.def.steps|);
    assert Newest(p.rows, k) && (p.rows[k] == s1.rows[k] || Tried(s1.rows[k], p.rows[k], k, w));
    assert !p.rows[k].state.Terminal();
  }

  /**
   * An operator's retry. A live run, or one with nothing to retry, is left alone. Otherwise, when every run starts and
   * every list can be used, the run is live again with nothing failed, and every slot that had ended badly is under
   * way.
   */
  lemma RetryRevives(s: State, w: World)
    ensures var s' := RetryFailed(s, w);
            && (s.status == Live || !AnyBad(s.rows) ==> s' == s)
            && (s.status != Live && AnyBad(s.rows) && Willing(w) ==>
                  && s'.status == Live && !AnyBad(s'.rows)
                  && forall i :: Newest(s.rows, i) && s.rows[i].state.Bad() ==> Revived(s, s', i, w))
  {
    if s.status != Live && AnyBad(s.rows) && Willing(w) {
      var s1 := s.(rows := ReopenRows(s.rows, CurrentRows(s.rows)), status := Live);
      CurrentIsNewest(s.rows);
      ReopenedHealthy(s.rows);
      PassHealthy(s1, w, |s.def.steps|);
      PassKeepsDone(s1, w, |s.def.steps|);
      hide Pass, ReopenRows, CurrentRows, Newest, Willing;
      var b :| Newest(s.rows, b) && s.rows[b].state.Bad();
      RevivedPass(s, w, b);
      forall i | Newest(s.rows, i) && s.rows[i].state.Bad() ensures Revived(s, RetryFailed(s, w), i, w) {
        RevivedPass(s, w, i);
      }
    }
  }
}
