/** What holds as long as no operator retries a finished run: step runs only move forward,
    each starts at most one run, finish messages are idempotent and the work is bounded. */
module Progress {
  import opened Wrappers
  import opened Definitions
  import opened StepRows
  import opened RunState
  import opened AdvanceProofs
  import opened Invariants
  import opened History

  // ---------------------------------------------------------------- moving forward

  predicate RowForward(a: StepRun, b: StepRun) {
    && SameKey(a, b)
    && (a.state.Terminal() ==> b == a)
    && (a.state == Running ==> b.state != Pending && b.runID == a.runID)
  }

  /** Pending, then running, then ended; an ended step run is never written again. */
  ghost predicate Forward(rows: seq<StepRun>, rows': seq<StepRun>) {
    && |rows| <= |rows'|
    && forall i :: 0 <= i < |rows| ==> RowForward(rows[i], rows'[i])
  }

  /** Results already recorded by the run engine are kept, and new runs carry the call's serial. */
  ghost predicate RunsKept(s: State, s': State, serial: nat) {
    && (forall r :: r in s.runs ==> r in s'.runs && s'.runs[r] == s.runs[r])
    && (forall r :: r in s'.runs && r !in s.runs ==> r.serial == serial)
  }

  /** Every run ever started belongs to the step run that carries its id. */
  ghost predicate OneRun(s: State) {
    forall r :: r in s.runs ==> r.row < |s.rows| && s.rows[r.row].runID == Some(r)
  }

  lemma ForwardTrans(a: seq<StepRun>, b: seq<StepRun>, c: seq<StepRun>)
    requires Forward(a, b) && Forward(b, c)
    ensures Forward(a, c)
  {
    forall i | 0 <= i < |a| ensures RowForward(a[i], c[i]) {
      assert RowForward(a[i], b[i]) && RowForward(b[i], c[i]);
    }
  }

  lemma ForwardKeepsOneRun(s: State, s': State)
    requires OneRun(s) && Linked(s) && Forward(s.rows, s'.rows) && s'.runs.Keys == s.runs.Keys
    ensures OneRun(s')
  {
    forall r | r in s'.runs ensures r.row < |s'.rows| && s'.rows[r.row].runID == Some(r) {
      assert r in s.runs;
      assert RowForward(s.rows[r.row], s'.rows[r.row]);
    }
  }

  // ---------------------------------------------------------------- the advance moves forward

  lemma StartForward(s: State, w: World, id: string)
    ensures Forward(s.rows, StartPending(s, w, id).rows)
  {
    var s' := StartPending(s, w, id);
    forall i | 0 <= i < |s.rows| ensures RowForward(s.rows[i], s'.rows[i]) {
      StartRowsAt(s.rows, w, id, i);
    }
  }

  lemma StartOneRun(s: State, w: World, id: string)
    requires OneRun(s) && Linked(s)
    ensures OneRun(StartPending(s, w, id))
  {
    var s' := StartPending(s, w, id);
    forall r | r in s'.runs ensures r.row < |s'.rows| && s'.rows[r.row].runID == Some(r) {
      if r in StartedRuns(s.rows, w, id) {
        StartRowsAt(s.rows, w, id, r.row);
      } else {
        StartRowsAt(s.rows, w, id, r.row);
        assert s.rows[r.row].runID == Some(r);
      }
    }
  }

  lemma ExpandForward(s: State, w: World, step: Step)
    ensures Forward(s.rows, Expand(s, w, step).rows)
    ensures Expand(s, w, step).runs == s.runs
    ensures OneRun(s) ==> OneRun(Expand(s, w, step))
  {
    var s' := Expand(s, w, step);
    NewRowsShape(step, w.fan(step.id));
    forall i | 0 <= i < |s.rows| ensures s'.rows[i] == s.rows[i] {}
  }

  /** Everything one call of the advance may do to the tables. */
  ghost predicate Moved(s: State, s': State, serial: nat) {
    && Forward(s.rows, s'.rows)
    && RunsKept(s, s', serial)
    && (OneRun(s) ==> OneRun(s'))
  }

  /** The runs started so far by this call were started for rows that are no longer pending. */
  ghost predicate Unstarted(s: State, w: World) {
    forall r :: r in s.runs && r.serial >= w.serial ==> r.row < |s.rows| && s.rows[r.row].state != Pending
  }

  lemma ExpandMoved(s: State, w: World, step: Step)
    requires Unstarted(s, w)
    ensures Moved(s, Expand(s, w, step), w.serial) && Unstarted(Expand(s, w, step), w)
  {
    ExpandForward(s, w, step);
    var s' := Expand(s, w, step);
    forall r | r in s'.runs && r.serial >= w.serial ensures r.row < |s'.rows| && s'.rows[r.row].state != Pending {
      assert RowForward(s.rows[r.row], s'.rows[r.row]);
    }
  }

  lemma StartMoved(s: State, w: World, id: string)
    requires Linked(s) && Unstarted(s, w)
    ensures Moved(s, StartPending(s, w, id), w.serial) && Unstarted(StartPending(s, w, id), w)
  {
    hide Linked, OneRun, StartPending, Forward, RunsKept, Unstarted;
    StartForward(s, w, id);
    StartUnstarted(s, w, id);
    if OneRun(s) { StartOneRun(s, w, id); }
  }

  lemma AdvanceStepForward(s: State, w: World, k: nat)
    requires Core(s) && Unstarted(s, w) && k < |s.def.steps|
    ensures Moved(s, AdvanceStep(s, w, s.def.steps[k]), w.serial)
    ensures Unstarted(AdvanceStep(s, w, s.def.steps[k]), w)
  {
    hide Core, DepsSucceeded, NeedsDone, Moved, Unstarted, Expand, StartPending;
    var step := s.def.steps[k];
    if DepsSucceeded(s.rows, step) {
      var s1 := Expand(s, w, step);
      ExpandMoved(s, w, step);
      CoreExpanded(s, w, k);
      CoreLinked(s1);
      StartMoved(s1, w, step.id);
      MovedTrans(s, s1, StartPending(s1, w, step.id), w.serial);
    } else {
      MovedRefl(s, w.serial);
    }
  }

  lemma StartUnstarted(s: State, w: World, id: string)
    requires Unstarted(s, w)
    ensures Unstarted(StartPending(s, w, id), w)
    ensures RunsKept(s, StartPending(s, w, id), w.serial)
  {
    var s' := StartPending(s, w, id);
    forall r | r in s'.runs && r.serial >= w.serial ensures r.row < |s'.rows| && s'.rows[r.row].state != Pending {
      StartRowsAt(s.rows, w, id, r.row);
    }
    forall r | r in s.runs ensures r in s'.runs && s'.runs[r] == s.runs[r] {}
  }

  lemma MovedTrans(a: State, b: State, c: State, serial: nat)
    requires Moved(a, b, serial) && Moved(b, c, serial)
    ensures Moved(a, c, serial)
  {
    ForwardTrans(a.rows, b.rows, c.rows);
  }

  lemma {:induction false} PassForward(s: State, w: World, k: nat)
    requires Core(s) && Fresh(s, w) && k <= |s.def.steps|
    ensures Moved(s, Pass(s, w, k), w.serial) && Unstarted(Pass(s, w, k), w)
    decreases k
  {
    hide Core, AdvanceStep;
    if k > 0 {
      PassForward(s, w, k - 1);
      CorePassed(s, w, k - 1);
      AdvanceStepForward(Pass(s, w, k - 1), w, k - 1);
      MovedTrans(s, Pass(s, w, k - 1), Pass(s, w, k), w.serial);
    }
  }

  lemma StopForward(s: State, p: StepState, r: StepState)
    requires p.Terminal() && r.Terminal() && Linked(s)
    ensures Forward(s.rows, StopRows(s.rows, p, r))
    ensures OneRun(s) ==> OneRun(s.(rows := StopRows(s.rows, p, r)))
  {
    var rows' := StopRows(s.rows, p, r);
    forall i | 0 <= i < |s.rows| ensures RowForward(s.rows[i], rows'[i]) {}
    if OneRun(s) { ForwardKeepsOneRun(s, s.(rows := rows')); }
  }

  lemma SettleForward(s: State, serial: nat)
    requires Linked(s)
    ensures Moved(s, Settle(s), serial)
  {
    hide AnyBad, AnyBusy, Linked, StopRows;
    ForwardRefl(s.rows);
    StopForward(s, Skipped, Cancelled);
    StopLength(s.rows);
  }

  lemma StopLength(rows: seq<StepRun>)
    ensures |StopRows(rows, Skipped, Cancelled)| == |rows|
  {}

  lemma AdvanceForward(s: State, w: World)
    requires Core(s) && Fresh(s, w)
    ensures Moved(s, Advance(s, w), w.serial)
  {
    hide Moved, Settle, Core, Fresh;
    if s.status.Terminal() {
      MovedRefl(s, w.serial);
    } else {
      var p := Pass(s, w, |s.def.steps|);
      PassForward(s, w, |s.def.steps|);
      CorePassed(s, w, |s.def.steps|);
      CoreLinked(p);
      SettleForward(p, w.serial);
      MovedTrans(s, p, Settle(p), w.serial);
    }
  }

  lemma CoreLinked(s: State)
    requires Core(s)
    ensures Linked(s)
  {}

  lemma MovedRefl(s: State, serial: nat)
    ensures Moved(s, s, serial)
  {}

  // ---------------------------------------------------------------- recording moves forward

  lemma RecordForward(s: State, r: RunId)
    requires Inv(s) && Records(s, r)
    ensures Forward(s.rows, Record(s, r).rows) && Record(s, r).runs == s.runs
    ensures Record(s, r).rows[r.row].state.Terminal()
    ensures OneRun(s) ==> OneRun(Record(s, r))
  {
    hide Inv, Core, StateOf, Linked, Newest, Forward, OneRun;
    MessageFindsRunning(s, r);
    InvWellOrdered(s);
    CoreLinked(s);
    var s' := Record(s, r);
    RecordRows(s, r);
    if OneRun(s) { ForwardKeepsOneRun(s, s'); }
  }

  lemma RecordRows(s: State, r: RunId)
    requires Records(s, r) && s.rows[r.row].state == Running
    ensures var s' := Record(s, r);
            && |s.rows| <= |s'.rows|
            && Forward(s.rows, s'.rows)
            && s'.rows[r.row].state.Terminal()
            && s'.rows[r.row].state == (if s.runs[r].outcome == Won then Success else Failed)
            && s'.rows[r.row].report == s.runs[r].report
  {
    var s' := Record(s, r);
    forall i | 0 <= i < |s.rows| ensures RowForward(s.rows[i], s'.rows[i]) {}
  }

  lemma CompleteForward(s: State, r: RunId, w: World)
    requires Inv(s) && Fresh(s, w)
    ensures Forward(s.rows, CompleteStep(s, r, w).rows)
    ensures RunsKept(s, CompleteStep(s, r, w), w.serial)
    ensures OneRun(s) ==> OneRun(CompleteStep(s, r, w))
    ensures r in s.runs ==> RowEnded(CompleteStep(s, r, w).rows, r.row)
  {
    hide Inv, Core, Forward, OneRun, Advance;
    if Records(s, r) {
      var s1 := Record(s, r);
      RecordForward(s, r);
      RecordKeeps(s, r);
      AdvanceForward(s1, w);
      ForwardTrans(s.rows, s1.rows, Advance(s1, w).rows);
      ForwardAt(s1.rows, Advance(s1, w).rows, r.row);
    } else {
      ForwardRefl(s.rows);
      InvWellOrdered(s);
      CoreLinked(s);
    }
  }

  /** Every step run of the snapshot whose run had already ended is recorded by now. */
  ghost predicate Recorded(s: State, snapshot: seq<StepRun>, rows': seq<StepRun>) {
    forall k :: 0 <= k < |snapshot| && Stranded(s, snapshot[k]) ==> RowEnded(rows', snapshot[k].runID.value.row)
  }

  predicate RowEnded(rows: seq<StepRun>, i: nat) {
    i < |rows| && rows[i].state.Terminal()
  }

  ghost predicate KeepsResults(s: State, s': State) {
    forall r :: r in s.runs ==> r in s'.runs && s'.runs[r] == s.runs[r]
  }

  lemma RecordedCons(s: State, s1: State, snapshot: seq<StepRun>, rows': seq<StepRun>)
    requires snapshot != [] && KeepsResults(s, s1) && Recorded(s1, snapshot[1..], rows')
    requires Stranded(s, snapshot[0]) ==> RowEnded(rows', snapshot[0].runID.value.row)
    ensures Recorded(s, snapshot, rows')
  {
    forall k | 0 <= k < |snapshot| && Stranded(s, snapshot[k]) ensures RowEnded(rows', snapshot[k].runID.value.row) {
      if k > 0 { assert snapshot[1..][k - 1] == snapshot[k]; }
    }
  }

  lemma CompleteSerial(s: State, r: RunId, w: World)
    requires Fresh(s, w) && RunsKept(s, CompleteStep(s, r, w), w.serial)
    ensures KeepsResults(s, CompleteStep(s, r, w))
    ensures Fresh(CompleteStep(s, r, w), w.(serial := w.serial + 1))
  {}

  lemma SweepRowForward(s: State, sr: StepRun, w: World)
    requires Inv(s) && Fresh(s, w)
    ensures var s1 := SweepRow(s, sr, w);
            && Inv(s1) && Fresh(s1, w.(serial := w.serial + 1))
            && Forward(s.rows, s1.rows) && KeepsResults(s, s1)
            && (OneRun(s) ==> OneRun(s1))
            && (Stranded(s, sr) ==> RowEnded(s1.rows, sr.runID.value.row))
  {
    hide Inv, CompleteStep, RunsKept, OneRun;
    ForwardRefl(s.rows);
    if Stranded(s, sr) {
      CompleteForward(s, sr.runID.value, w);
      CompleteKeeps(s, sr.runID.value, w);
      CompleteSerial(s, sr.runID.value, w);
    }
  }

  lemma SweepDone(s: State)
    ensures Recorded(s, [], s.rows) && KeepsResults(s, s) && Forward(s.rows, s.rows)
  {}

  lemma KeepsResultsTrans(a: State, b: State, c: State)
    requires KeepsResults(a, b) && KeepsResults(b, c)
    ensures KeepsResults(a, c)
  {}

  /** A sweep records every stranded step run of its snapshot. */
  lemma {:induction false} ReconcileForward(s: State, snapshot: seq<StepRun>, w: World)
    requires Inv(s) && Fresh(s, w)
    ensures Forward(s.rows, Reconcile(s, snapshot, w).rows)
    ensures KeepsResults(s, Reconcile(s, snapshot, w))
    ensures OneRun(s) ==> OneRun(Reconcile(s, snapshot, w))
    ensures Recorded(s, snapshot, Reconcile(s, snapshot, w).rows)
    decreases |snapshot|
  {
    hide Inv, CompleteStep, Forward, KeepsResults, Fresh, OneRun, Recorded;
    SweepDone(s);
    if snapshot != [] {
      var s1, w1 := SweepRow(s, snapshot[0], w), w.(serial := w.serial + 1);
      SweepRowForward(s, snapshot[0], w);
      ReconcileForward(s1, snapshot[1..], w1);
      var s' := Reconcile(s1, snapshot[1..], w1);
      ForwardTrans(s.rows, s1.rows, s'.rows);
      KeepsResultsTrans(s, s1, s');
      if Stranded(s, snapshot[0]) {
        ForwardAt(s1.rows, s'.rows, snapshot[0].runID.value.row);
      }
      RecordedCons(s, s1, snapshot, s'.rows);
    }
  }

  lemma ForwardRefl(rows: seq<StepRun>)
    ensures Forward(rows, rows)
  {}

  lemma ForwardAt(rows: seq<StepRun>, rows': seq<StepRun>, i: nat)
    requires Forward(rows, rows') && i < |rows|
    ensures i < |rows'|
    ensures rows[i].state.Terminal() ==> rows'[i] == rows[i]
  {
    assert RowForward(rows[i], rows'[i]);
  }
}
