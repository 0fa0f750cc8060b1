/** What every reachable pipeline run satisfies, and why each kind of row update keeps it. */
module Invariants {
  import opened Wrappers
  import opened Definitions
  import opened StepRows
  import opened RunState
  import opened AdvanceProofs

  // ---------------------------------------------------------------- the invariant

  ghost predicate Increasing(rows: seq<StepRun>) {
    forall i, j :: 0 <= i < j < |rows| && SameSlot(rows[i], rows[j]) ==> rows[i].attempt < rows[j].attempt
  }

  ghost predicate HasAttempt(rows: seq<StepRun>, i: int, attempt: int) {
    0 <= i < |rows| && exists j :: 0 <= j < i && SameSlot(rows[j], rows[i]) && rows[j].attempt == attempt
  }

  ghost predicate Consecutive(rows: seq<StepRun>) {
    forall i :: 0 <= i < |rows| ==> rows[i].attempt == 1 || HasAttempt(rows, i, rows[i].attempt - 1)
  }

  ghost predicate OldFailed(rows: seq<StepRun>) {
    forall i :: 0 <= i < |rows| && !Newest(rows, i) ==> rows[i].state == Failed
  }

  ghost predicate Bounds(rows: seq<StepRun>) {
    forall i :: 0 <= i < |rows| ==> rows[i].index < MAX_FANOUT && 1 <= rows[i].attempt
  }

  /** The attempts of a slot are 1, 2, 3, ... in insertion order, and all but the newest failed. */
  ghost predicate Attempts(rows: seq<StepRun>) {
    Increasing(rows) && Consecutive(rows) && OldFailed(rows) && Bounds(rows)
  }

  /** Rows and runs refer to each other consistently. */
  ghost predicate Linked(s: State) {
    && (forall r :: r in s.runs ==> r.row < |s.rows|)
    && (forall i :: 0 <= i < |s.rows| && s.rows[i].runID.Some? ==>
          s.rows[i].runID.value in s.runs && s.rows[i].runID.value.row == i)
    && (forall i :: 0 <= i < |s.rows| ==>
          (s.rows[i].state == Running ==> s.rows[i].runID.Some?) &&
          (s.rows[i].state == Pending ==> s.rows[i].runID.None?))
  }

  /** Everything node id needs has succeeded. */
  ghost predicate NeedsDone(def: Definition, rows: seq<StepRun>, id: string) {
    forall k :: 0 <= k < |def.steps| && def.steps[k].id == id ==> DepsSucceeded(rows, def.steps[k])
  }

  /** The row is running, has succeeded, carries a run id, or had a run started for it earlier. */
  ghost predicate Reached(s: State, i: int) {
    && 0 <= i < |s.rows|
    && (s.rows[i].state == Running || s.rows[i].state == Success || s.rows[i].runID.Some?
        || exists r :: r in s.runs && r.row == i)
  }

  ghost predicate DepSafe(s: State) {
    forall i :: Reached(s, i) ==> NeedsDone(s.def, s.rows, s.rows[i].stepID)
  }

  ghost predicate Core(s: State) {
    && WellOrdered(s.def)
    && RowsInDef(s.def, s.rows)
    && Attempts(s.rows)
    && Linked(s)
    && DepSafe(s)
  }

  ghost predicate SomeRunning(rows: seq<StepRun>) {
    exists i :: Newest(rows, i) && rows[i].state == Running
  }

  /** A live run is waiting on a running step and has left nothing unstarted; a finished run is quiet. */
  ghost predicate AtRest(s: State) {
    && (s.status == Live ==>
          Passed(s.def, s.rows, |s.def.steps|) && !AnyBad(s.rows) && SomeRunning(s.rows))
    && (s.status.Terminal() ==> forall i :: 0 <= i < |s.rows| ==> s.rows[i].state.Terminal())
    && (s.status == Succeeded_ ==>
          forall j :: 0 <= j < |s.def.steps| ==> StateOf(s.rows, s.def.steps[j].id) == Succeeded)
  }

  ghost predicate Inv(s: State) {
    Core(s) && AtRest(s)
  }

  // ---------------------------------------------------------------- updates in place

  /** The keys of the first rows decide the attempt order, whatever else changes or is appended. */
  lemma ConsecutiveKeys(rows: seq<StepRun>, rows': seq<StepRun>)
    requires Consecutive(rows) && |rows| <= |rows'|
    requires forall i :: 0 <= i < |rows| ==> SameKey(rows[i], rows'[i])
    ensures forall i :: 0 <= i < |rows| ==> rows'[i].attempt == 1 || HasAttempt(rows', i, rows'[i].attempt - 1)
  {
    forall i | 0 <= i < |rows| ensures rows'[i].attempt == 1 || HasAttempt(rows', i, rows'[i].attempt - 1) {
      if rows[i].attempt != 1 {
        assert HasAttempt(rows, i, rows[i].attempt - 1);
        var j :| 0 <= j < i && SameSlot(rows[j], rows[i]) && rows[j].attempt == rows[i].attempt - 1;
        assert SameSlot(rows'[j], rows'[i]);
      }
    }
  }

  /** An update that keeps every key and touches only newest attempts keeps the attempt order. */
  lemma AttemptsUpdated(rows: seq<StepRun>, rows': seq<StepRun>)
    requires Attempts(rows) && |rows| == |rows'|
    requires forall i :: 0 <= i < |rows| ==> SameKey(rows[i], rows'[i])
    requires forall i :: 0 <= i < |rows| && !Newest(rows, i) ==> rows'[i] == rows[i]
    ensures Attempts(rows')
  {
    SameKeysNewest(rows, rows');
    ConsecutiveKeys(rows, rows');
  }

  lemma NeedsStayDone(def: Definition, rows: seq<StepRun>, rows': seq<StepRun>, id: string)
    requires KeepsDone(rows, rows') && NeedsDone(def, rows, id)
    ensures NeedsDone(def, rows', id)
  {
    KeepsDoneStates(rows, rows');
  }

  lemma CoreUpdated(s: State, s': State)
    requires Core(s) && s'.def == s.def && Linked(s') && Attempts(s'.rows)
    requires KeepsDone(s.rows, s'.rows) && RowsInDef(s.def, s'.rows)
    requires forall i :: Reached(s', i) ==>
               NeedsDone(s.def, s.rows, s'.rows[i].stepID) || NeedsDone(s.def, s'.rows, s'.rows[i].stepID)
    ensures Core(s')
  {
    forall i | Reached(s', i) ensures NeedsDone(s'.def, s'.rows, s'.rows[i].stepID) {
      if NeedsDone(s.def, s.rows, s'.rows[i].stepID) {
        NeedsStayDone(s.def, s.rows, s'.rows, s'.rows[i].stepID);
      }
    }
  }

  // ---------------------------------------------------------------- the pass keeps the core

  /** Rows with slots of their own are appended: who is newest among the old rows stays. */
  lemma NewSlotsNewest(rows: seq<StepRun>, added: seq<StepRun>, id: string)
    requires forall i :: 0 <= i < |rows| ==> rows[i].stepID != id
    requires forall i :: 0 <= i < |added| ==> added[i].stepID == id && added[i].index == i
    ensures forall i :: Newest(rows, i) ==> Newest(rows + added, i)
    ensures forall i :: |rows| <= i < |rows| + |added| ==> Newest(rows + added, i)
  {
    var rows' := rows + added;
    forall i | Newest(rows, i) || |rows| <= i < |rows'| ensures Newest(rows', i) {
      forall j | 0 <= j < |rows'| && SameSlot(rows'[j], rows'[i])
        ensures rows'[j].attempt < rows'[i].attempt || (rows'[j].attempt == rows'[i].attempt && j <= i)
      {
        if i < |rows| {
          assert rows'[i] == rows[i];
        } else {
          assert rows'[i] == added[i - |rows|];
          if j >= |rows| { assert rows'[j] == added[j - |rows|]; }
        }
      }
    }
  }

  lemma AttemptsExpanded(rows: seq<StepRun>, added: seq<StepRun>, id: string)
    requires Attempts(rows) && |added| <= MAX_FANOUT
    requires forall i :: 0 <= i < |rows| ==> rows[i].stepID != id
    requires forall i :: 0 <= i < |added| ==> added[i].stepID == id && added[i].index == i && added[i].attempt == 1
    ensures Attempts(rows + added)
  {
    var rows' := rows + added;
    forall i | 0 <= i < |rows'|
      ensures i < |rows| ==> rows'[i] == rows[i]
      ensures i >= |rows| ==> rows'[i] == added[i - |rows|]
    {}
    NewSlotsNewest(rows, added, id);
    ConsecutiveKeys(rows, rows');
    assert OldFailed(rows');
    assert Increasing(rows');
  }

  lemma KeepsDoneExpanded(rows: seq<StepRun>, added: seq<StepRun>, id: string)
    requires forall i :: 0 <= i < |rows| ==> rows[i].stepID != id
    requires forall i :: 0 <= i < |added| ==> added[i].stepID == id
    ensures KeepsDone(rows, rows + added)
  {
    var rows' := rows + added;
    assert TouchesOnly(rows, rows', id);
    AbsentHasNoRows(rows, id);
    forall x | StateOf(rows, x) == Succeeded ensures Untouched(rows, rows', x) {
      TouchesOnlyLeaves(rows, rows', id, x);
    }
  }

  lemma UniqueStep(def: Definition, k: nat)
    requires WellOrdered(def) && k < |def.steps|
    ensures forall j :: 0 <= j < |def.steps| && def.steps[j].id == def.steps[k].id ==> j == k
  {}

  lemma CoreExpanded(s: State, w: World, k: nat)
    requires Core(s) && k < |s.def.steps| && DepsSucceeded(s.rows, s.def.steps[k])
    ensures Core(Expand(s, w, s.def.steps[k]))
    ensures NeedsDone(s.def, Expand(s, w, s.def.steps[k]).rows, s.def.steps[k].id)
    ensures KeepsDone(s.rows, Expand(s, w, s.def.steps[k]).rows)
  {
    var step := s.def.steps[k];
    var s' := Expand(s, w, step);
    UniqueStep(s.def, k);
    assert NeedsDone(s.def, s.rows, step.id);
    if StateOf(s.rows, step.id) == Absent {
      var fan := w.fan(step.id);
      NewRowsShape(step, fan);
      AbsentHasNoRows(s.rows, step.id);
      AttemptsExpanded(s.rows, NewRows(step, fan), step.id);
      KeepsDoneExpanded(s.rows, NewRows(step, fan), step.id);
      ExpandedLinked(s, NewRows(step, fan), step.id);
      CoreUpdated(s, s');
      NeedsStayDone(s.def, s.rows, s'.rows, step.id);
    }
  }

  lemma ExpandedLinked(s: State, added: seq<StepRun>, id: string)
    requires Linked(s) && RowsInDef(s.def, s.rows) && HasStep(s.def.steps, id)
    requires forall i :: 0 <= i < |added| ==>
        added[i].stepID == id && added[i].runID == None && added[i].state != Running
    ensures Linked(s.(rows := s.rows + added))
    ensures RowsInDef(s.def, s.rows + added)
    ensures forall i :: Reached(s.(rows := s.rows + added), i) ==> Reached(s, i) || (s.rows + added)[i].stepID == id
    ensures forall i :: Reached(s, i) ==> (s.rows + added)[i] == s.rows[i]
  {
    var rows' := s.rows + added;
    forall i | 0 <= i < |rows'| ensures i < |s.rows| ==> rows'[i] == s.rows[i]
      ensures i >= |s.rows| ==> rows'[i] == added[i - |s.rows|] {}
  }

  lemma StartedRowKeeps(s: State, w: World, id: string, i: nat)
    requires Linked(s) && i < |s.rows|
    ensures var s' := StartPending(s, w, id);
            && |s'.rows| == |s.rows|
            && SameKey(s.rows[i], s'.rows[i])
            && (!Newest(s.rows, i) ==> s'.rows[i] == s.rows[i])
            && (s'.rows[i].runID.Some? ==> s'.rows[i].runID.value in s'.runs && s'.rows[i].runID.value.row == i)
            && (s'.rows[i].state == Running ==> s'.rows[i].runID.Some?)
            && (s'.rows[i].state == Pending ==> s'.rows[i].runID.None?)
  {
    hide Newest;
    StartRowsAt(s.rows, w, id, i);
    if Startable(s.rows, id, i) && w.start(i).Started? {
      assert RunId(i, w.serial) in StartedRuns(s.rows, w, id);
    }
  }

  lemma StartedLinked(s: State, w: World, id: string)
    requires Linked(s)
    ensures Linked(StartPending(s, w, id))
    ensures Attempts(s.rows) ==> Attempts(StartPending(s, w, id).rows)
  {
    hide StartRows, Newest, Attempts;
    var s' := StartPending(s, w, id);
    StartRowsFrame(s.rows, w, id);
    forall i | 0 <= i < |s.rows|
      ensures SameKey(s.rows[i], s'.rows[i])
      ensures !Newest(s.rows, i) ==> s'.rows[i] == s.rows[i]
      ensures s'.rows[i].runID.Some? ==> s'.rows[i].runID.value in s'.runs && s'.rows[i].runID.value.row == i
      ensures s'.rows[i].state == Running ==> s'.rows[i].runID.Some?
      ensures s'.rows[i].state == Pending ==> s'.rows[i].runID.None?
    {
      StartedRowKeeps(s, w, id, i);
    }
    if Attempts(s.rows) {
      AttemptsUpdated(s.rows, s'.rows);
    }
  }

  lemma StartedKeepsDone(rows: seq<StepRun>, w: World, id: string)
    ensures KeepsDone(rows, StartRows(rows, w, id))
  {
    var rows' := StartRows(rows, w, id);
    StartRowsFrame(rows, w, id);
    forall x | StateOf(rows, x) == Succeeded ensures Untouched(rows, rows', x) {
      SucceededMeans(rows, x);
      forall i | 0 <= i < |rows| && rows[i].stepID == x ensures rows'[i] == rows[i] {
        StartRowsAt(rows, w, id, i);
      }
    }
  }

  lemma StartedReached(s: State, w: World, id: string, i: int)
    requires Linked(s) && Reached(StartPending(s, w, id), i)
    ensures i < |s.rows| && StartPending(s, w, id).rows[i].stepID == s.rows[i].stepID
    ensures Reached(s, i) || s.rows[i].stepID == id
  {
    hide Newest;
    var s' := StartPending(s, w, id);
    StartRowsAt(s.rows, w, id, i);
    assert forall r :: r in s'.runs ==> r in s.runs || Startable(s.rows, id, r.row);
  }

  lemma CoreStarted(s: State, w: World, id: string)
    requires Core(s) && NeedsDone(s.def, s.rows, id)
    ensures Core(StartPending(s, w, id))
    ensures KeepsDone(s.rows, StartPending(s, w, id).rows)
  {
    hide Linked, Attempts, NeedsDone, StartRows, KeepsDone;
    var s' := StartPending(s, w, id);
    StartedLinked(s, w, id);
    StartedKeepsDone(s.rows, w, id);
    StartRowsFrame(s.rows, w, id);
    assert |s'.rows| == |s.rows|;
    forall i | Reached(s', i) ensures NeedsDone(s.def, s.rows, s'.rows[i].stepID) {
      StartedReached(s, w, id, i);
    }
    assert RowsInDef(s.def, s'.rows) by {
      forall i | 0 <= i < |s'.rows| ensures HasStep(s.def.steps, s'.rows[i].stepID) {
        assert SameKey(s.rows[i], s'.rows[i]);
      }
    }
    CoreUpdated(s, s');
  }

  lemma CoreAdvanceStep(s: State, w: World, k: nat)
    requires Core(s) && k < |s.def.steps|
    ensures Core(AdvanceStep(s, w, s.def.steps[k]))
  {
    hide Core, NeedsDone, StartPending;
    var step := s.def.steps[k];
    if DepsSucceeded(s.rows, step) {
      CoreExpanded(s, w, k);
      CoreStarted(Expand(s, w, step), w, step.id);
    }
  }

  lemma {:induction false} CorePassed(s: State, w: World, k: nat)
    requires Core(s) && k <= |s.def.steps|
    ensures Core(Pass(s, w, k))
    decreases k
  {
    hide Core, AdvanceStep;
    if k > 0 {
      CorePassed(s, w, k - 1);
      CoreAdvanceStep(Pass(s, w, k - 1), w, k - 1);
    }
  }

  // ---------------------------------------------------------------- stopping and settling

  lemma StoppedLinked(s: State, p: StepState, r: StepState)
    requires Core(s) && (p == Skipped || p == Cancelled) && r == Cancelled
    ensures Linked(s.(rows := StopRows(s.rows, p, r)))
    ensures forall i :: Reached(s.(rows := StopRows(s.rows, p, r)), i) ==> Reached(s, i)
  {}

  lemma StoppedAttempts(rows: seq<StepRun>, p: StepState, r: StepState)
    requires Attempts(rows) && p.Terminal() && r.Terminal()
    ensures Attempts(StopRows(rows, p, r))
    ensures forall i :: 0 <= i < |rows| ==> StopRows(rows, p, r)[i].state.Terminal()
  {
    StopRowsFrame(rows, p, r);
    AttemptsUpdated(rows, StopRows(rows, p, r));
  }

  /** Ending every unfinished newest attempt leaves nothing unfinished at all. */
  lemma CoreStopped(s: State, p: StepState, r: StepState, status: RunStatus)
    requires Core(s) && (p == Skipped || p == Cancelled) && r == Cancelled
    ensures var s' := s.(rows := StopRows(s.rows, p, r), status := status);
            && Core(s')
            && KeepsDone(s.rows, s'.rows)
            && forall i :: 0 <= i < |s'.rows| ==> s'.rows[i].state.Terminal()
  {
    var s' := s.(rows := StopRows(s.rows, p, r));
    StopRowsFrame(s.rows, p, r);
    StoppedAttempts(s.rows, p, r);
    StoppedLinked(s, p, r);
    CoreUpdated(s, s');
    CoreUpdatedStatus(s', status);
  }

  /** From any consistent live table the advance ends in a state satisfying the whole invariant. */
  lemma AdvanceInv(s: State, w: World)
    requires Core(s) && s.status == Live
    ensures Inv(Advance(s, w))
  {
    var p := Pass(s, w, |s.def.steps|);
    CorePassed(s, w, |s.def.steps|);
    NoStall(s, w);
    SuccessIsGenuine(s, w);
    PassKeepsDone(s, w, |s.def.steps|);
    if AnyBad(p.rows) {
      CoreStopped(p, Skipped, Cancelled, Failed_);
    } else if !AnyBusy(p.rows) {
      assert Reached(p.(status := Succeeded_), 0) ==> Reached(p, 0);
      CoreUpdatedStatus(p, Succeeded_);
      forall i | 0 <= i < |p.rows| ensures p.rows[i].state.Terminal() {
        assert Newest(p.rows, i) || p.rows[i].state == Failed;
      }
    }
  }

  lemma CoreUpdatedStatus(s: State, status: RunStatus)
    requires Core(s)
    ensures Core(s.(status := status))
  {
    var s' := s.(status := status);
    forall i | Reached(s', i) ensures NeedsDone(s'.def, s'.rows, s'.rows[i].stepID) {
      assert Reached(s, i);
    }
  }
}
