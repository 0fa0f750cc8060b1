/** A world in which every run starts and wins: how far a pipeline run gets in it, step order within the file aside. */
module PipelineLiveness {
  import opened Definitions
  import opened StepRows
  import opened RunState
  import opened AdvanceProofs
  import opened Invariants
  import opened History
  import opened PipelineTheorems
  import opened PipelineEndings
  import opened UnnamedSteps

  /** Named steps have ids of their own and need only named steps before them. */
  ghost predicate NamedInOrder(def: Definition) {
    forall k :: 0 <= k < |def.steps| && def.steps[k].id != "" ==>
      && (forall j :: 0 <= j < k ==> def.steps[j].id != def.steps[k].id)
      && (forall n :: 0 <= n < |def.steps[k].needs| ==>
            def.steps[k].needs[n] != "" && DefinedBefore(def, def.steps[k].needs[n], k))
  }

  /** Every list has one item and every run starts. */
  function Friendly(serial: nat): World {
    World(i => Started, id => Items(["x"]), serial)
  }

  // ---------------------------------------------------------------- tables of such a world

  predicate CleanRow(sr: StepRun) {
    sr.index == 0 && sr.attempt == 1 && (sr.state == Pending || sr.state == Running || sr.state == Success)
  }

  ghost predicate Uniform(rows: seq<StepRun>) {
    forall i :: 0 <= i < |rows| ==> CleanRow(rows[i])
  }

  predicate OnItsRun(s: State, i: nat)
    requires i < |s.rows|
  {
    var run := s.rows[i].runID;
    run.Some? && run.value.row == i && run.value in s.runs && s.runs[run.value].outcome == InFlight
  }

  ghost predicate RunningOnRuns(s: State) {
    forall i :: 0 <= i < |s.rows| && s.rows[i].state == Running ==> OnItsRun(s, i)
  }

  ghost predicate PlainUnnamed(steps: seq<Step>) {
    exists t :: 0 <= t < |steps| && steps[t].id == "" && steps[t].over == ""
  }

  /** Rows without a step id come from a plain step or a ready one. */
  ghost predicate Justified(steps: seq<Step>, rows: seq<StepRun>) {
    SomeUnnamed(rows) ==> PlainUnnamed(steps) || !Unanswered(steps)
  }

  ghost predicate SerialsBelow(s: State, serial: nat) {
    forall r :: r in s.runs ==> r.serial < serial
  }

  /** A row with a run has left pending, and a running row is the newest of its node. */
  ghost predicate RunsStarted(s: State) {
    && (forall r :: r in s.runs ==> r.row < |s.rows| && s.rows[r.row].state != Pending)
    && (forall i :: 0 <= i < |s.rows| && s.rows[i].state == Running ==> Newest(s.rows, i))
  }

  ghost predicate Clean(s: State, serial: nat) {
    && Uniform(s.rows) && RowsInDef(s.def, s.rows) && RunningOnRuns(s) && RunsStarted(s)
    && Justified(s.def.steps, s.rows) && SerialsBelow(s, serial)
  }

  /** The same nodes have succeeded. */
  ghost predicate SameDone(rows: seq<StepRun>, rows': seq<StepRun>) {
    forall id :: StateOf(rows, id) == Succeeded <==> StateOf(rows', id) == Succeeded
  }

  lemma SameDoneTrans(a: seq<StepRun>, b: seq<StepRun>, c: seq<StepRun>)
    requires SameDone(a, b) && SameDone(b, c)
    ensures SameDone(a, c)
  {}

  /** With one attempt everywhere, the newest row of a node is its last. */
  lemma NewestIsLast(rows: seq<StepRun>, i: int)
    requires Uniform(rows)
    ensures Newest(rows, i) <==> 0 <= i < |rows| && forall j :: i < j < |rows| ==> rows[j].stepID != rows[i].stepID
  {
    assert forall j :: 0 <= j < |rows| ==> CleanRow(rows[j]);
    assert 0 <= i < |rows| ==> forall j :: 0 <= j < |rows| && rows[j].stepID == rows[i].stepID ==>
        SameSlot(rows[j], rows[i]);
  }

  lemma OneNewest(rows: seq<StepRun>, id: string, i: int, j: int)
    requires Uniform(rows) && NewestOf(rows, id, i) && NewestOf(rows, id, j)
    ensures i == j
  {
    NewestIsLast(rows, i);
    NewestIsLast(rows, j);
  }

  /** A node has succeeded exactly when its last row has. */
  lemma DoneIsLast(rows: seq<StepRun>, id: string, i: int)
    requires Uniform(rows) && NewestOf(rows, id, i)
    ensures StateOf(rows, id) == Succeeded <==> rows[i].state == Success
  {
    SucceededMeans(rows, id);
    forall j | NewestOf(rows, id, j) ensures j == i {
      OneNewest(rows, id, i, j);
    }
  }

  // ---------------------------------------------------------------- one step of the pass

  lemma UniformExpanded(s: State, serial: nat, step: Step)
    requires Uniform(s.rows)
    ensures Uniform(Expand(s, Friendly(serial), step).rows)
  {
    hide StateOf;
    assert NewRows(step, Items(["x"])) == [PendingRow(step.id, 0, if step.over == "" then "" else "x", 1)];
  }

  lemma UniformStarted(rows: seq<StepRun>, serial: nat, id: string)
    requires Uniform(rows)
    ensures Uniform(StartRows(rows, Friendly(serial), id))
  {
    hide Newest;
    var rows' := StartRows(rows, Friendly(serial), id);
    forall i | 0 <= i < |rows'| ensures CleanRow(rows'[i]) {
      assert CleanRow(rows[i]);
      StartRowsAt(rows, Friendly(serial), id, i);
    }
  }

  lemma StepUniform(s: State, serial: nat, step: Step)
    requires Uniform(s.rows)
    ensures Uniform(AdvanceStep(s, Friendly(serial), step).rows)
  {
    hide Uniform, Expand, StartRows, DepsSucceeded;
    UniformExpanded(s, serial, step);
    UniformStarted(Expand(s, Friendly(serial), step).rows, serial, step.id);
  }

  /** A step never makes a node succeed: its row is only started. */
  lemma StepSameDone(s: State, serial: nat, step: Step)
    requires Uniform(s.rows)
    ensures SameDone(s.rows, AdvanceStep(s, Friendly(serial), step).rows)
  {
    var s' := AdvanceStep(s, Friendly(serial), step);
    AdvanceStepFrame(s, Friendly(serial), step);
    AdvanceStepKeepsDone(s, Friendly(serial), step);
    KeepsDoneStates(s.rows, s'.rows);
    StepUniform(s, serial, step);
    forall id | StateOf(s'.rows, id) == Succeeded ensures StateOf(s.rows, id) == Succeeded {
      if id != step.id {
        TouchesOnlyLeaves(s.rows, s'.rows, step.id, id);
      } else {
        StartedIsUndone(s, serial, step);
      }
    }
  }

  lemma StartedIsUndone(s: State, serial: nat, step: Step)
    requires Uniform(s.rows) && StateOf(AdvanceStep(s, Friendly(serial), step).rows, step.id) == Succeeded
    ensures StateOf(s.rows, step.id) == Succeeded
  {
    var w := Friendly(serial);
    var s1 := Expand(s, w, step);
    var rows' := AdvanceStep(s, w, step).rows;
    StepUniform(s, serial, step);
    UniformExpanded(s, serial, step);
    if DepsSucceeded(s.rows, step) {
      hide DepsSucceeded, Uniform;
      SucceededMeans(rows', step.id);
      var i :| NewestOf(rows', step.id, i);
      StartRowsFrame(s1.rows, w, step.id);
      StartRowsAt(s1.rows, w, step.id, i);
      assert NewestOf(s1.rows, step.id, i) && s1.rows[i] == rows'[i];
      DoneIsLast(s1.rows, step.id, i);
      FreshIsPending(s, serial, step, i);
    }
  }

  lemma FreshIsPending(s: State, serial: nat, step: Step, i: int)
    requires 0 <= i < |Expand(s, Friendly(serial), step).rows|
    requires Expand(s, Friendly(serial), step).rows[i].stepID == step.id
    requires Expand(s, Friendly(serial), step).rows[i].state == Success
    ensures Expand(s, Friendly(serial), step) == s
  {
    AbsentHasNoRows(s.rows, step.id);
  }

  lemma StepRuns(s: State, serial: nat, step: Step)
    requires RunningOnRuns(s) && SerialsBelow(s, serial + 1)
    ensures var s' := AdvanceStep(s, Friendly(serial), step); RunningOnRuns(s') && SerialsBelow(s', serial + 1)
  {
    hide StateOf, DepsSucceeded;
    var s1 := Expand(s, Friendly(serial), step);
    assert RunningOnRuns(s1) by {
      ExpandRuns(s, serial, step);
    }
    StartRuns(s1, serial, step.id);
  }

  lemma ExpandRuns(s: State, serial: nat, step: Step)
    requires RunningOnRuns(s)
    ensures RunningOnRuns(Expand(s, Friendly(serial), step))
  {
    hide StateOf;
    var s1 := Expand(s, Friendly(serial), step);
    forall i | 0 <= i < |s1.rows| && s1.rows[i].state == Running ensures OnItsRun(s1, i) {
      assert i < |s.rows| ==> OnItsRun(s, i);
    }
  }

  lemma StartRuns(s: State, serial: nat, id: string)
    requires RunningOnRuns(s) && SerialsBelow(s, serial + 1)
    ensures var s' := StartPending(s, Friendly(serial), id); RunningOnRuns(s') && SerialsBelow(s', serial + 1)
  {
    hide Newest;
    var w := Friendly(serial);
    var s' := StartPending(s, w, id);
    forall i | 0 <= i < |s'.rows| && s'.rows[i].state == Running ensures OnItsRun(s', i) {
      StartRowsAt(s.rows, w, id, i);
      if Startable(s.rows, id, i) {
        assert RunId(i, serial) in StartedRuns(s.rows, w, id);
      } else {
        assert OnItsRun(s, i);
        NotRestarted(s, serial, id, i);
      }
    }
  }

  lemma NotRestarted(s: State, serial: nat, id: string, i: nat)
    requires i < |s.rows| && !Startable(s.rows, id, i)
    ensures forall r :: r in StartedRuns(s.rows, Friendly(serial), id) ==> r.row != i
  {}

  lemma ExpandStarted(s: State, w: World, step: Step)
    requires RunsStarted(s)
    ensures RunsStarted(Expand(s, w, step))
  {
    var s1 := Expand(s, w, step);
    AbsentHasNoRows(s.rows, step.id);
    NewRowsShape(step, w.fan(step.id));
    if s1 != s {
      NewSlotsNewest(s.rows, NewRows(step, w.fan(step.id)), step.id);
      forall i | |s.rows| <= i < |s1.rows| ensures s1.rows[i].state != Running {
        assert s1.rows[i] == NewRows(step, w.fan(step.id))[i - |s.rows|];
      }
    }
  }

  lemma StartStarted(s: State, w: World, id: string)
    requires RunsStarted(s)
    ensures RunsStarted(StartPending(s, w, id))
  {
    var s' := StartPending(s, w, id);
    StartRowsFrame(s.rows, w, id);
    hide Newest;
    forall i | 0 <= i < |s.rows|
      ensures s.rows[i].state != Pending ==> s'.rows[i].state != Pending
      ensures s'.rows[i].state == Running ==> Newest(s.rows, i)
      ensures Startable(s.rows, id, i) ==> s'.rows[i].state != Pending
    {
      StartRowsAt(s.rows, w, id, i);
    }
  }

  lemma StepStarted(s: State, w: World, step: Step)
    requires RunsStarted(s)
    ensures RunsStarted(AdvanceStep(s, w, step))
  {
    hide RunsStarted, Expand, StartPending, DepsSucceeded;
    ExpandStarted(s, w, step);
    StartStarted(Expand(s, w, step), w, step.id);
  }

  lemma StepJustified(s: State, serial: nat, k: nat)
    requires k < |s.def.steps| && RowsInDef(s.def, s.rows) && Justified(s.def.steps, s.rows)
    ensures Justified(s.def.steps, AdvanceStep(s, Friendly(serial), s.def.steps[k]).rows)
  {
    var step := s.def.steps[k];
    var s' := AdvanceStep(s, Friendly(serial), step);
    AdvanceStepFrame(s, Friendly(serial), step);
    if SomeUnnamed(s'.rows) && !SomeUnnamed(s.rows) {
      var i :| 0 <= i < |s'.rows| && s'.rows[i].stepID == "";
      assert i < |s.rows| ==> SameKey(s.rows[i], s'.rows[i]);
      ReadyIsAnswered(s.def.steps, s.rows, k);
    }
  }

  lemma StepClean(s: State, serial: nat, k: nat)
    requires Clean(s, serial + 1) && k < |s.def.steps|
    ensures Clean(AdvanceStep(s, Friendly(serial), s.def.steps[k]), serial + 1)
  {
    hide Uniform, RunningOnRuns, RunsStarted, Justified, SerialsBelow, RowsInDef, TouchesOnly, Handled, DepsSucceeded;
    var step := s.def.steps[k];
    StepStarted(s, Friendly(serial), step);
    AdvanceStepFrame(s, Friendly(serial), step);
    StepRowsInDef(s.def, s.rows, AdvanceStep(s, Friendly(serial), step).rows, k);
    StepUniform(s, serial, step);
    StepRuns(s, serial, step);
    StepJustified(s, serial, k);
  }

  /** Order within the file does not matter here: no node succeeds during a pass, so a ready step was ready all along.
      */
  lemma StepPasses(s: State, serial: nat, k: nat)
    requires Uniform(s.rows) && k < |s.def.steps| && Passed(s.def, s.rows, k)
    ensures Passed(s.def, AdvanceStep(s, Friendly(serial), s.def.steps[k]).rows, k + 1)
  {
    hide Uniform, Handled, StateOf, TouchesOnly;
    var step := s.def.steps[k];
    var s' := AdvanceStep(s, Friendly(serial), step);
    AdvanceStepFrame(s, Friendly(serial), step);
    StepSameDone(s, serial, step);
    forall j | 0 <= j < k + 1 && DepsSucceeded(s'.rows, s.def.steps[j]) ensures Handled(s'.rows, s.def.steps[j].id) {
      assert DepsSucceeded(s.rows, s.def.steps[j]);
      if j < k {
        HandledStays(s, serial, step, s.def.steps[j].id);
      }
    }
  }

  lemma HandledStays(s: State, serial: nat, step: Step, id: string)
    requires Handled(s.rows, id)
    ensures Handled(AdvanceStep(s, Friendly(serial), step).rows, id)
  {
    var s' := AdvanceStep(s, Friendly(serial), step);
    AdvanceStepFrame(s, Friendly(serial), step);
    if id != step.id {
      TouchesOnlyLeaves(s.rows, s'.rows, step.id, id);
      forall i | NewestOf(s'.rows, id, i) ensures s'.rows[i].state != Pending {
        assert NewestOf(s.rows, id, i) && s'.rows[i] == s.rows[i];
      }
    } else {
      AdvanceStepIdle(s, Friendly(serial), step);
    }
  }

  lemma {:induction false} PassClean(s: State, serial: nat, k: nat)
    requires Clean(s, serial + 1) && k <= |s.def.steps|
    ensures var s' := Pass(s, Friendly(serial), k);
            Clean(s', serial + 1) && SameDone(s.rows, s'.rows) && Passed(s.def, s'.rows, k) && s'.status == s.status
    decreases k
  {
    hide Clean, AdvanceStep, SameDone, Passed, TouchesOnly, DepsSucceeded, Handled, Uniform;
    if k == 0 {
      PassedNone(s.def, s.rows);
      SameDoneRefl(s.rows);
    } else {
      PassClean(s, serial, k - 1);
      var s1, step := Pass(s, Friendly(serial), k - 1), s.def.steps[k - 1];
      CleanIsUniform(s1, serial + 1);
      StepClean(s1, serial, k - 1);
      StepPasses(s1, serial, k - 1);
      StepSameDone(s1, serial, step);
      AdvanceStepFrame(s1, Friendly(serial), step);
      SameDoneTrans(s.rows, s1.rows, AdvanceStep(s1, Friendly(serial), step).rows);
    }
  }

  lemma SameDoneRefl(rows: seq<StepRun>)
    ensures SameDone(rows, rows)
  {}

  lemma CleanIsUniform(s: State, serial: nat)
    requires Clean(s, serial)
    ensures Uniform(s.rows) && RowsInDef(s.def, s.rows)
  {}

  // ---------------------------------------------------------------- one completion

  /** At rest in such a world: nothing ready is left unstarted, and the run is over exactly when nothing is
      unfinished. */
  ghost predicate Resting(s: State, serial: nat) {
    && Clean(s, serial) && Passed(s.def, s.rows, |s.def.steps|)
    && ((s.status == Live && AnyBusy(s.rows)) || (s.status == Succeeded_ && !AnyBusy(s.rows)))
  }

  lemma AdvanceRests(s: State, serial: nat)
    requires Clean(s, serial + 1) && s.status == Live
    ensures var s' := Advance(s, Friendly(serial));
            Resting(s', serial + 1) && SameDone(s.rows, s'.rows) && s'.def == s.def
  {
    hide Clean, SameDone, Passed, Uniform, AnyBusy;
    var p := Pass(s, Friendly(serial), |s.def.steps|);
    PassClean(s, serial, |s.def.steps|);
    CleanIsUniform(p, serial + 1);
    CleanNotBad(p.rows);
    CleanStatus(p, serial + 1, Succeeded_);
  }

  lemma CleanNotBad(rows: seq<StepRun>)
    requires Uniform(rows)
    ensures !AnyBad(rows)
  {
    forall i | 0 <= i < |rows| ensures CleanRow(rows[i]) {}
  }

  lemma CleanStatus(s: State, serial: nat, status: RunStatus)
    requires Clean(s, serial)
    ensures Clean(s.(status := status), serial)
  {
    var s' := s.(status := status);
    forall i | 0 <= i < |s'.rows| && s'.rows[i].state == Running ensures OnItsRun(s', i) {
      assert OnItsRun(s, i);
    }
  }

  /** The run of row i is finished and recorded as won. */
  function WonOn(s: State, i: nat): State
    requires i < |s.rows| && s.rows[i].runID.Some?
  {
    var r := s.rows[i].runID.value;
    s.(runs := s.runs[r := EngineRun(Won, "")], rows := s.rows[i := s.rows[i].(state := Success, report := "")])
  }

  lemma WonClean(s: State, serial: nat, i: nat)
    requires Clean(s, serial) && i < |s.rows| && s.rows[i].state == Running && s.rows[i].runID.Some?
    requires s.rows[i].runID.value in s.runs && s.rows[i].runID.value.row == i
    ensures Clean(WonOn(s, i), serial)
  {
    var s' := WonOn(s, i);
    forall j | 0 <= j < |s'.rows| ensures CleanRow(s'.rows[j]) && HasStep(s.def.steps, s'.rows[j].stepID) {
      assert CleanRow(s.rows[j]) && HasStep(s.def.steps, s.rows[j].stepID);
    }
    forall j | 0 <= j < |s'.rows| && s'.rows[j].state == Running ensures OnItsRun(s', j) {
      assert OnItsRun(s, j);
    }
    SameKeysNewest(s.rows, s'.rows);
    if SomeUnnamed(s'.rows) {
      var j :| 0 <= j < |s'.rows| && s'.rows[j].stepID == "";
      assert s.rows[j].stepID == "";
    }
  }

  /** Exactly one more node has succeeded. */
  lemma WonDone(s: State, i: nat)
    requires Uniform(s.rows) && Newest(s.rows, i) && s.rows[i].state == Running && s.rows[i].runID.Some?
    ensures var rows', id := WonOn(s, i).rows, s.rows[i].stepID;
            && StateOf(s.rows, id) != Succeeded && StateOf(rows', id) == Succeeded
            && forall other :: other != id ==>
                (StateOf(rows', other) == Succeeded <==> StateOf(s.rows, other) == Succeeded)
  {
    var s', id := WonOn(s, i), s.rows[i].stepID;
    SameKeysNewest(s.rows, s'.rows);
    assert Uniform(s'.rows) by {
      forall j | 0 <= j < |s'.rows| ensures CleanRow(s'.rows[j]) { assert CleanRow(s.rows[j]); }
    }
    assert NewestOf(s.rows, id, i) && NewestOf(s'.rows, id, i);
    DoneIsLast(s.rows, id, i);
    DoneIsLast(s'.rows, id, i);
    assert TouchesOnly(s.rows, s'.rows, id);
    forall other | other != id ensures StateOf(s'.rows, other) == Succeeded <==> StateOf(s.rows, other) == Succeeded {
      TouchesOnlyLeaves(s.rows, s'.rows, id, other);
    }
  }

  /** How many of the first k steps' nodes have not succeeded. */
  ghost function Undone(steps: seq<Step>, rows: seq<StepRun>, k: nat): nat
    requires k <= |steps|
  {
    if k == 0 then 0 else Undone(steps, rows, k - 1) + (if StateOf(rows, steps[k - 1].id) == Succeeded then 0 else 1)
  }

  lemma {:induction false} UndoneDrops(steps: seq<Step>, rows: seq<StepRun>, rows': seq<StepRun>, k: nat, id: string)
    requires k <= |steps| && StateOf(rows, id) != Succeeded && StateOf(rows', id) == Succeeded
    requires forall other :: StateOf(rows, other) == Succeeded ==> StateOf(rows', other) == Succeeded
    ensures Undone(steps, rows', k) <= Undone(steps, rows, k)
    ensures (exists j :: 0 <= j < k && steps[j].id == id) ==> Undone(steps, rows', k) < Undone(steps, rows, k)
  {
    if k > 0 {
      UndoneDrops(steps, rows, rows', k - 1, id);
    }
  }

  /** From a state at rest with row i running: its run finishes, the message arrives, and one node more has succeeded.
      */
  lemma OneWin(s: State, serial: nat, i: nat) returns (e1: Event, e2: Event, s': State)
    requires Resting(s, serial) && s.status == Live && Newest(s.rows, i) && s.rows[i].state == Running
    ensures Legal(s, e1) && Legal(Next(s, e1), e2) && Next(Next(s, e1), e2) == s'
    ensures Resting(s', serial + 1) && s'.def == s.def
    ensures forall id :: id != s.rows[i].stepID && StateOf(s'.rows, id) == Succeeded ==>
              StateOf(s.rows, id) == Succeeded
    ensures Undone(s.def.steps, s'.rows, |s.def.steps|) < Undone(s.def.steps, s.rows, |s.def.steps|)
  {
    CleanRunning(s, serial, i);
    var r := s.rows[i].runID.value;
    e1, e2 := Finished(r, EngineRun(Won, "")), Message(r, Friendly(serial));
    var t := WonOn(s, i);
    WonNext(s, Friendly(serial), i);
    WonClean(s, serial, i);
    CleanSerial(t, serial);
    AdvanceRests(t, serial);
    s' := Advance(t, Friendly(serial));
    CleanIsUniform(s, serial);
    hide Resting, Clean, Advance, Uniform, Newest, StateOf;
    WonDone(s, i);
    RowHasStep(s.def, s.rows, i);
    UndoneDrops(s.def.steps, s.rows, s'.rows, |s.def.steps|, s.rows[i].stepID);
  }

  lemma RowHasStep(def: Definition, rows: seq<StepRun>, i: nat)
    requires RowsInDef(def, rows) && i < |rows|
    ensures exists j :: 0 <= j < |def.steps| && def.steps[j].id == rows[i].stepID
  {
    assert HasStep(def.steps, rows[i].stepID);
  }

  lemma CleanRunning(s: State, serial: nat, i: nat)
    requires Clean(s, serial) && i < |s.rows| && s.rows[i].state == Running
    ensures s.rows[i].runID.Some? && s.rows[i].runID.value.row == i && s.rows[i].runID.value in s.runs
    ensures s.runs[s.rows[i].runID.value].outcome == InFlight && SerialsBelow(s, serial)
  {
    assert OnItsRun(s, i);
  }

  lemma CleanSerial(s: State, serial: nat)
    requires Clean(s, serial)
    ensures Clean(s, serial + 1)
  {}

  lemma WonNext(s: State, w: World, i: nat)
    requires SerialsBelow(s, w.serial) && i < |s.rows| && s.rows[i].state == Running && s.rows[i].runID.Some?
    requires s.rows[i].runID.value.row == i && s.rows[i].runID.value in s.runs
    requires s.runs[s.rows[i].runID.value].outcome == InFlight
    ensures var r := s.rows[i].runID.value;
            var e1, e2 := Finished(r, EngineRun(Won, "")), Message(r, w);
            && Legal(s, e1) && Legal(Next(s, e1), e2)
            && Next(Next(s, e1), e2) == Advance(WonOn(s, i), w)
  {
    hide Advance;
  }

  // ---------------------------------------------------------------- to the end

  /** Some row is running whose node is not held back. */
  ghost predicate RunningOutside(rows: seq<StepRun>, held: set<string>) {
    exists i :: Newest(rows, i) && rows[i].state == Running && rows[i].stepID !in held
  }

  /** Of the nodes held back none has succeeded. */
  ghost predicate HeldBack(rows: seq<StepRun>, held: set<string>) {
    forall id :: id in held ==> StateOf(rows, id) != Succeeded
  }

  /** Win by win until nothing is running any more but what is held back. */
  lemma {:induction false} WinAll(start: State, es: seq<Event>, serial: nat, held: set<string>)
    returns (all: seq<Event>, last: nat)
    requires LegalHistory(start, es) && Resting(Exec(start, es), serial) && HeldBack(Exec(start, es).rows, held)
    ensures LegalHistory(start, all) && Resting(Exec(start, all), last)
    ensures !RunningOutside(Exec(start, all).rows, held) && HeldBack(Exec(start, all).rows, held)
    ensures Exec(start, all).def == Exec(start, es).def
    decreases Undone(Exec(start, es).def.steps, Exec(start, es).rows, |Exec(start, es).def.steps|)
  {
    hide Resting, Legal, Next, Undone, Newest, LegalHistory, Exec, RunningOutside, StateOf;
    var s := Exec(start, es);
    if RunningOutside(s.rows, held) {
      var i := PickRunning(s.rows, held);
      RunningIsLive(s, serial, i);
      var e1, e2, s' := OneWin(s, serial, i);
      OneMoreEvent(start, es, e1);
      OneMoreEvent(start, es + [e1], e2);
      all, last := WinAll(start, es + [e1] + [e2], serial + 1, held);
    } else {
      all, last := es, serial;
    }
  }

  lemma PickRunning(rows: seq<StepRun>, held: set<string>) returns (i: nat)
    requires RunningOutside(rows, held)
    ensures i < |rows| && Newest(rows, i) && rows[i].state == Running && rows[i].stepID !in held
  {
    i :| Newest(rows, i) && rows[i].state == Running && rows[i].stepID !in held;
  }

  lemma NothingHeld(rows: seq<StepRun>)
    ensures HeldBack(rows, {}) && (RunningOutside(rows, {}) <==> SomeRunning(rows))
  {}

  lemma RunningIsLive(s: State, serial: nat, i: int)
    requires Resting(s, serial) && Newest(s.rows, i) && s.rows[i].state == Running
    ensures s.status == Live && 0 <= i < |s.rows|
  {}

  lemma {:induction false} FirstRowsPlain(steps: seq<Step>, i: nat)
    requires i < |FirstRows(steps)|
    ensures exists t :: 0 <= t < |steps| && steps[t].id == FirstRows(steps)[i].stepID && steps[t].over == ""
  {
    var off := if steps[0].over == "" then 1 else 0;
    if i < off {
      assert steps[0].id == FirstRows(steps)[i].stepID;
    } else {
      FirstRowsPlain(steps[1..], i - off);
      assert FirstRows(steps)[i] == FirstRows(steps[1..])[i - off];
      var t :| 0 <= t < |steps[1..]| && steps[1..][t].id == FirstRows(steps)[i].stepID && steps[1..][t].over == "";
      assert steps[t + 1] == steps[1..][t];
    }
  }

  lemma StartRests(def: Definition)
    ensures Resting(Start(def, 0, Friendly(0)), 1) && Start(def, 0, Friendly(0)).def == def
    ensures forall id :: StateOf(Start(def, 0, Friendly(0)).rows, id) != Succeeded
  {
    var rows := FirstRows(def.steps);
    var s := State(def, 0, Live, rows, map[]);
    FirstRowsShape(def.steps);
    if SomeUnnamed(rows) {
      var i :| 0 <= i < |rows| && rows[i].stepID == "";
      FirstRowsPlain(def.steps, i);
    }
    assert Clean(s, 1);
    AdvanceRests(s, 0);
    forall id ensures StateOf(rows, id) != Succeeded {
      SucceededMeans(rows, id);
    }
  }

  /** A handled node of which nothing runs has succeeded. */
  lemma HandledIsDone(rows: seq<StepRun>, id: string)
    requires Uniform(rows) && Handled(rows, id) && !SomeRunning(rows)
    ensures StateOf(rows, id) == Succeeded
  {
    CleanNotBad(rows);
  }

  /** Every named step has succeeded, in file order. */
  lemma {:induction false} NamedAreDone(s: State, serial: nat, k: nat)
    requires NamedInOrder(s.def) && Resting(s, serial) && !SomeRunning(s.rows) && k <= |s.def.steps|
    ensures forall j :: 0 <= j < k && s.def.steps[j].id != "" ==> StateOf(s.rows, s.def.steps[j].id) == Succeeded
  {
    hide StateOf, Uniform, Handled, SomeRunning, RunningOnRuns, RunsStarted, Justified, SerialsBelow, RowsInDef;
    if k > 0 {
      NamedAreDone(s, serial, k - 1);
      var step := s.def.steps[k - 1];
      if step.id != "" {
        forall n | 0 <= n < |step.needs| ensures StateOf(s.rows, step.needs[n]) == Succeeded {
          assert DefinedBefore(s.def, step.needs[n], k - 1);
        }
        assert DepsSucceeded(s.rows, step);
        HandledIsDone(s.rows, step.id);
      }
    }
  }

  lemma AnsweredIsDone(s: State, serial: nat, t: nat)
    requires NamedInOrder(s.def) && Resting(s, serial) && !SomeRunning(s.rows)
    requires t < |s.def.steps| && Answered(s.def.steps, t)
    ensures StateOf(s.rows, s.def.steps[t].id) == Succeeded
  {
    hide StateOf, Uniform, Handled, SomeRunning, RunningOnRuns, RunsStarted, Justified, SerialsBelow, RowsInDef,
        NamedInOrder;
    var step := s.def.steps[t];
    NamedAreDone(s, serial, |s.def.steps|);
    forall n | 0 <= n < |step.needs| ensures StateOf(s.rows, step.needs[n]) == Succeeded {
      assert HasStep(s.def.steps, step.needs[n]);
    }
    assert DepsSucceeded(s.rows, step);
    HandledIsDone(s.rows, step.id);
  }

  lemma UnblockedSucceeds(s: State, serial: nat)
    requires NamedInOrder(s.def) && Resting(s, serial) && !SomeRunning(s.rows) && !Blocked(s.def.steps)
    ensures s.status == Succeeded_
  {
    if s.status == Live {
      var b :| Newest(s.rows, b) && !s.rows[b].state.Terminal();
      var id := s.rows[b].stepID;
      NodeIsDone(s, serial, id, b);
      DoneIsLast(s.rows, id, b);
    }
  }

  lemma NodeIsDone(s: State, serial: nat, id: string, b: nat)
    requires NamedInOrder(s.def) && Resting(s, serial) && !SomeRunning(s.rows) && !Blocked(s.def.steps)
    requires b < |s.rows| && s.rows[b].stepID == id
    ensures StateOf(s.rows, id) == Succeeded
  {
    hide StateOf, Uniform, Handled, SomeRunning, RunningOnRuns, RunsStarted, SerialsBelow, NamedInOrder, Passed,
        Answered;
    NamedAreDone(s, serial, |s.def.steps|);
    if id != "" {
      assert HasStep(s.def.steps, id);
    } else {
      assert SomeUnnamed(s.rows);
      var t :| 0 <= t < |s.def.steps| && s.def.steps[t].id == "" && Answered(s.def.steps, t);
      AnsweredIsDone(s, serial, t);
    }
  }

  /** Nothing but a cancellation, a retry or the timeout can move this state. */
  ghost predicate Stuck(s: State) {
    && s.status == Live && !SomeRunning(s.rows)
    && forall e: Event :: e.Message? || (e.Ticking? && e.now - s.startedAt < TimeoutOf(s.def)) ==> Next(s, e) == s
  }

  /** A live state in which no row is running and no run has anything to record. */
  lemma IdleIsStuck(s: State)
    requires s.status == Live && forall i :: 0 <= i < |s.rows| ==> s.rows[i].state != Running
    requires forall r: RunId :: !Records(s, r)
    ensures Stuck(s)
  {
    forall e: Event | e.Message? || (e.Ticking? && e.now - s.startedAt < TimeoutOf(s.def)) ensures Next(s, e) == s {
      if e.Ticking? {
        NothingStranded(s, s.rows, e.w);
      }
    }
  }

  lemma RestingIsStuck(s: State, serial: nat)
    requires Resting(s, serial) && s.status == Live && !SomeRunning(s.rows)
    ensures Stuck(s)
  {
    assert forall i :: 0 <= i < |s.rows| ==> s.rows[i].state != Running;
    forall r: RunId ensures !Records(s, r) {
      assert r in s.runs ==> CleanRow(s.rows[r.row]);
    }
    IdleIsStuck(s);
  }

  // ---------------------------------------------------------------- main results

  /** Some history of the definition ends with the status success. */
  ghost predicate CanSucceed(def: Definition) {
    exists now: int, w: World, es: seq<Event> :: SucceedsIn(def, now, w, es)
  }

  ghost predicate SucceedsIn(def: Definition, now: int, w: World, es: seq<Event>) {
    LegalHistory(Start(def, now, w), es) && Exec(Start(def, now, w), es).status == Succeeded_
  }

  /** Some history ends with the status success and every step succeeded. */
  ghost predicate CanComplete(def: Definition) {
    exists now: int, w: World, es: seq<Event> :: CompletesIn(def, now, w, es)
  }

  ghost predicate CompletesIn(def: Definition, now: int, w: World, es: seq<Event>) {
    SucceedsIn(def, now, w, es) && AllDone(Exec(Start(def, now, w), es))
  }

  ghost predicate AllDone(s: State) {
    forall k :: 0 <= k < |s.def.steps| ==> StateOf(s.rows, s.def.steps[k].id) == Succeeded
  }

  /** Every step has an id, or some step without one needs named steps only. */
  ghost predicate Completable(steps: seq<Step>) {
    || (forall t :: 0 <= t < |steps| ==> steps[t].id != "")
    || (exists t :: 0 <= t < |steps| && steps[t].id == "" && Answered(steps, t))
  }

  lemma SucceedingIn(def: Definition)
    requires NamedInOrder(def) && !Blocked(def.steps)
    ensures exists es: seq<Event> :: SucceedsIn(def, 0, Friendly(0), es) &&
              (Completable(def.steps) ==> CompletesIn(def, 0, Friendly(0), es))
  {
    hide NamedInOrder, Blocked, Resting, Exec, LegalHistory, SomeRunning, RunningOutside, HeldBack, Start, AllDone,
        Completable;
    StartRests(def);
    var start := Start(def, 0, Friendly(0));
    NoEvents(start);
    NothingHeld(start.rows);
    var es, last := WinAll(start, [], 1, {});
    NothingHeld(Exec(start, es).rows);
    UnblockedSucceeds(Exec(start, es), last);
    if Completable(def.steps) {
      RestingIsComplete(Exec(start, es), last);
    }
    assert SucceedsIn(def, 0, Friendly(0), es);
  }

  lemma RestingIsComplete(s: State, serial: nat)
    requires NamedInOrder(s.def) && Resting(s, serial) && !SomeRunning(s.rows) && Completable(s.def.steps)
    ensures AllDone(s)
  {
    hide StateOf, NamedInOrder, Resting, SomeRunning, Answered;
    NamedAreDone(s, serial, |s.def.steps|);
    if t :| 0 <= t < |s.def.steps| && s.def.steps[t].id == "" && Answered(s.def.steps, t) {
      AnsweredIsDone(s, serial, t);
    }
  }

  /** The run of a definition can end with the status success if and only if it is not blocked. */
  lemma SucceedsExactly(def: Definition)
    requires NamedInOrder(def)
    ensures CanSucceed(def) <==> !Blocked(def.steps)
  {
    hide NamedInOrder, Blocked, SucceedsIn, CompletesIn, Completable;
    if Blocked(def.steps) {
      forall now: int, w: World, es: seq<Event> ensures !SucceedsIn(def, now, w, es) {
        BlockedNotIn(def, now, w, es);
      }
    } else {
      SucceedingIn(def);
    }
  }

  lemma BlockedNotIn(def: Definition, now: int, w: World, es: seq<Event>)
    requires Blocked(def.steps)
    ensures !SucceedsIn(def, now, w, es)
  {
    BlockedNeverSucceeds(def, now, w, es);
  }

  /** And with every step succeeded if and only if no step lacks an id or one that does needs named steps only. */
  lemma CompletesExactly(def: Definition)
    requires NamedInOrder(def)
    ensures CanComplete(def) <==> Completable(def.steps)
  {
    hide NamedInOrder, Blocked, SucceedsIn, CompletesIn, Completable;
    if Completable(def.steps) {
      CompletableIsUnblocked(def.steps);
      SucceedingIn(def);
    } else {
      forall now: int, w: World, es: seq<Event> ensures !CompletesIn(def, now, w, es) {
        NeverCompletes(def, now, w, es);
      }
    }
  }

  lemma CompletableIsUnblocked(steps: seq<Step>)
    requires Completable(steps)
    ensures !Blocked(steps)
  {
    hide Answered;
  }

  lemma NeverCompletes(def: Definition, now: int, w: World, es: seq<Event>)
    requires !Completable(def.steps)
    ensures !CompletesIn(def, now, w, es)
  {
    hide Answered, StateOf, Start, Exec;
    UnansweredNeverRuns(def, now, w, es);
    var t :| 0 <= t < |def.steps| && def.steps[t].id == "";
    assert AllDone(Exec(Start(def, now, w), es)) ==> StateOf(Exec(Start(def, now, w), es).rows, "") == Succeeded;
  }

  ghost predicate GetsStuckIn(def: Definition, now: int, w: World, es: seq<Event>) {
    LegalHistory(Start(def, now, w), es) && Stuck(Exec(Start(def, now, w), es))
  }

  /** Every blocked definition has a history that ends stuck. */
  lemma BlockedGetsStuck(def: Definition) returns (es: seq<Event>)
    requires NamedInOrder(def) && Blocked(def.steps)
    ensures GetsStuckIn(def, 0, Friendly(0), es)
  {
    hide NamedInOrder, Blocked, Exec, LegalHistory, SomeRunning, RunningOutside, HeldBack, Start, Clean, Passed,
        AnyBusy, Stuck;
    StartRests(def);
    var start := Start(def, 0, Friendly(0));
    NoEvents(start);
    var last;
    NothingHeld(start.rows);
    es, last := WinAll(start, [], 1, {});
    NothingHeld(Exec(start, es).rows);
    BlockedNeverSucceeds(def, 0, Friendly(0), es);
    RestingIsStuck(Exec(start, es), last);
  }
}
