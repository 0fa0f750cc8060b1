/** What one call of the graph advance guarantees, from any table of step runs:
    nothing is left startable, nothing stalls, and success is never claimed early. */
module AdvanceProofs {
  import opened Wrappers
  import opened Definitions
  import opened StepRows
  import opened RunState

  // ---------------------------------------------------------------- one step of the pass

  lemma NewRowsShape(step: Step, fan: FanOut)
    ensures var rs := NewRows(step, fan);
            && rs != []
            && (forall i :: 0 <= i < |rs| ==> rs[i].stepID == step.id && rs[i].attempt == 1 && rs[i].runID == None)
            && (forall i :: 0 <= i < |rs| ==> rs[i].index == i)
            && |rs| <= MAX_FANOUT
  {}

  /** Expanding an absent node leaves every other node alone, and every new row is the newest of its slot. */
  lemma ExpandFrame(s: State, w: World, step: Step)
    ensures var s' := Expand(s, w, step);
            && TouchesOnly(s.rows, s'.rows, step.id)
            && StateOf(s'.rows, step.id) != Absent
            && s'.runs == s.runs && s'.status == s.status && s'.def == s.def
  {
    if StateOf(s.rows, step.id) == Absent {
      var added := NewRows(step, w.fan(step.id));
      NewRowsShape(step, w.fan(step.id));
      var rows' := s.rows + added;
      assert rows'[|s.rows|] == added[0];
      AbsentHasNoRows(rows', step.id);
    }
  }

  lemma StartRowsAt(rows: seq<StepRun>, w: World, id: string, i: nat)
    requires i < |rows|
    ensures var sr := StartRows(rows, w, id)[i];
            && SameKey(rows[i], sr)
            && (!Startable(rows, id, i) ==> sr == rows[i])
            && (Startable(rows, id, i) ==> sr == StartedRow(rows[i], RunId(i, w.serial), w.start(i)))
            && (Startable(rows, id, i) ==> sr.state == Running || sr.state == Failed)
  {
    match w.start(i)
    case Started =>
    case Refused(report) =>
  }

  lemma StartRowsFrame(rows: seq<StepRun>, w: World, id: string)
    ensures var rows' := StartRows(rows, w, id);
            && |rows'| == |rows|
            && TouchesOnly(rows, rows', id)
            && (forall i :: Newest(rows, i) <==> Newest(rows', i))
            && (forall i :: NewestOf(rows', id, i) ==> rows'[i].state != Pending)
  {
    var rows' := StartRows(rows, w, id);
    forall i | 0 <= i < |rows|
      ensures SameKey(rows[i], rows'[i]) && (rows[i].stepID != id ==> rows'[i] == rows[i])
    {
      StartRowsAt(rows, w, id, i);
    }
    SameKeysNewest(rows, rows');
    forall i | NewestOf(rows', id, i) ensures rows'[i].state != Pending {
      StartRowsAt(rows, w, id, i);
    }
  }

  /** The node is settled for this pass: it has rows and none of them still waits. */
  ghost predicate Handled(rows: seq<StepRun>, id: string) {
    && StateOf(rows, id) != Absent
    && forall i :: NewestOf(rows, id, i) ==> rows[i].state != Pending
  }

  lemma AdvanceStepFrame(s: State, w: World, step: Step)
    ensures var s' := AdvanceStep(s, w, step);
            && TouchesOnly(s.rows, s'.rows, step.id)
            && s'.status == s.status && s'.def == s.def && s'.startedAt == s.startedAt
            && (DepsSucceeded(s.rows, step) ==> Handled(s'.rows, step.id))
  {
    var s1 := Expand(s, w, step);
    ExpandFrame(s, w, step);
    StartRowsFrame(s1.rows, w, step.id);
    var s' := StartPending(s1, w, step.id);
    if DepsSucceeded(s.rows, step) {
      AbsentHasNoRows(s1.rows, step.id);
      AbsentHasNoRows(s'.rows, step.id);
    }
  }

  /** A node with nothing left to do is passed over without a trace. */
  lemma AdvanceStepIdle(s: State, w: World, step: Step)
    requires DepsSucceeded(s.rows, step) ==> Handled(s.rows, step.id)
    ensures AdvanceStep(s, w, step) == s
  {
    if DepsSucceeded(s.rows, step) {
      var rows' := StartRows(s.rows, w, step.id);
      forall i | 0 <= i < |rows'| ensures rows'[i] == s.rows[i] {
        assert !Startable(s.rows, step.id, i);
      }
      assert rows' == s.rows;
      assert StartedRuns(s.rows, w, step.id) == {};
    }
  }

  lemma SucceededIsHandled(rows: seq<StepRun>, id: string)
    requires StateOf(rows, id) == Succeeded
    ensures Handled(rows, id)
  {
    SucceededMeans(rows, id);
  }

  lemma AdvanceStepKeepsDone(s: State, w: World, step: Step)
    ensures KeepsDone(s.rows, AdvanceStep(s, w, step).rows)
  {
    var s' := AdvanceStep(s, w, step);
    AdvanceStepFrame(s, w, step);
    forall id | StateOf(s.rows, id) == Succeeded ensures Untouched(s.rows, s'.rows, id) {
      if id == step.id {
        SucceededIsHandled(s.rows, id);
        AdvanceStepIdle(s, w, step);
      } else {
        TouchesOnlyLeaves(s.rows, s'.rows, step.id, id);
      }
    }
  }

  // ---------------------------------------------------------------- the whole pass

  /** Of the first k steps, every one whose needs succeeded is handled. */
  ghost predicate Passed(def: Definition, rows: seq<StepRun>, k: nat)
    requires k <= |def.steps|
  {
    forall j :: 0 <= j < k && DepsSucceeded(rows, def.steps[j]) ==> Handled(rows, def.steps[j].id)
  }

  /** A need is an earlier step, so it is a different node. */
  lemma NeedIsEarlier(def: Definition, k: nat, n: nat) returns (j: nat)
    requires WellOrdered(def) && k < |def.steps| && n < |def.steps[k].needs|
    ensures j < k && def.steps[j].id == def.steps[k].needs[n]
  {
    assert DefinedBefore(def, def.steps[k].needs[n], k);
    j :| 0 <= j < k && def.steps[j].id == def.steps[k].needs[n];
  }

  /** Work on node k disturbs neither an earlier node nor what an earlier node needs. */
  lemma EarlierUndisturbed(def: Definition, rows: seq<StepRun>, rows': seq<StepRun>, j: nat, k: nat)
    requires WellOrdered(def) && j <= k < |def.steps|
    requires TouchesOnly(rows, rows', def.steps[k].id)
    ensures DepsSucceeded(rows, def.steps[j]) <==> DepsSucceeded(rows', def.steps[j])
    ensures j < k ==> (Handled(rows, def.steps[j].id) <==> Handled(rows', def.steps[j].id))
  {
    forall n | 0 <= n < |def.steps[j].needs|
      ensures StateOf(rows, def.steps[j].needs[n]) == StateOf(rows', def.steps[j].needs[n])
    {
      var e := NeedIsEarlier(def, j, n);
      TouchesOnlyLeaves(rows, rows', def.steps[k].id, def.steps[e].id);
    }
    if j < k {
      var id := def.steps[j].id;
      TouchesOnlyLeaves(rows, rows', def.steps[k].id, id);
      forall i | NewestOf(rows, id, i) ensures rows'[i] == rows[i] {}
    }
  }

  lemma AdvanceStepPassed(s: State, w: World, k: nat)
    requires WellOrdered(s.def) && k < |s.def.steps| && Passed(s.def, s.rows, k)
    ensures Passed(s.def, AdvanceStep(s, w, s.def.steps[k]).rows, k + 1)
  {
    var s' := AdvanceStep(s, w, s.def.steps[k]);
    AdvanceStepFrame(s, w, s.def.steps[k]);
    forall j | 0 <= j < k + 1 && DepsSucceeded(s'.rows, s.def.steps[j])
      ensures Handled(s'.rows, s.def.steps[j].id)
    {
      EarlierUndisturbed(s.def, s.rows, s'.rows, j, k);
    }
  }

  lemma PassedNone(def: Definition, rows: seq<StepRun>)
    ensures Passed(def, rows, 0)
  {}

  lemma {:induction false} PassPassed(s: State, w: World, k: nat)
    requires WellOrdered(s.def) && k <= |s.def.steps|
    ensures Passed(s.def, Pass(s, w, k).rows, k)
    decreases k
  {
    hide AdvanceStep, Passed, WellOrdered;
    if k == 0 {
      PassedNone(s.def, s.rows);
    } else {
      PassPassed(s, w, k - 1);
      AdvanceStepPassed(Pass(s, w, k - 1), w, k - 1);
    }
  }

  lemma KeepsDoneRefl(rows: seq<StepRun>)
    ensures KeepsDone(rows, rows)
  {}

  lemma {:induction false} PassKeepsDone(s: State, w: World, k: nat)
    requires k <= |s.def.steps|
    ensures KeepsDone(s.rows, Pass(s, w, k).rows)
    ensures Pass(s, w, k).status == s.status && Pass(s, w, k).startedAt == s.startedAt
    decreases k
  {
    hide AdvanceStep, KeepsDone, TouchesOnly, DepsSucceeded, Handled;
    KeepsDoneRefl(s.rows);
    if k > 0 {
      PassKeepsDone(s, w, k - 1);
      var s1, step := Pass(s, w, k - 1), s.def.steps[k - 1];
      AdvanceStepFrame(s1, w, step);
      AdvanceStepKeepsDone(s1, w, step);
      KeepsDoneTrans(s.rows, s1.rows, AdvanceStep(s1, w, step).rows);
    }
  }

  lemma {:induction false} PassIdle(s: State, w: World, k: nat)
    requires k <= |s.def.steps| && Passed(s.def, s.rows, |s.def.steps|)
    ensures Pass(s, w, k) == s
    decreases k
  {
    hide AdvanceStep, Handled, DepsSucceeded;
    if k > 0 {
      PassIdle(s, w, k - 1);
      AdvanceStepIdle(s, w, s.def.steps[k - 1]);
    }
  }

  // ---------------------------------------------------------------- settling

  lemma StopRowsFrame(rows: seq<StepRun>, p: StepState, r: StepState)
    requires p.Terminal() && r.Terminal()
    ensures var rows' := StopRows(rows, p, r);
            && |rows'| == |rows|
            && (forall i :: 0 <= i < |rows| ==> SameKey(rows[i], rows'[i]))
            && (forall i :: Newest(rows, i) <==> Newest(rows', i))
            && (forall i :: Newest(rows', i) ==> rows'[i].state.Terminal())
            && KeepsDone(rows, rows')
  {
    var rows' := StopRows(rows, p, r);
    SameKeysNewest(rows, rows');
    forall id | StateOf(rows, id) == Succeeded ensures Untouched(rows, rows', id) {
      SucceededMeans(rows, id);
    }
  }

  /** Walking back through needs from a node that has not succeeded always ends at a running step. */
  lemma {:induction false} BlockedOnRunning(def: Definition, rows: seq<StepRun>, j: nat) returns (i: nat)
    requires WellOrdered(def) && j < |def.steps|
    requires Passed(def, rows, |def.steps|) && !AnyBad(rows)
    requires StateOf(rows, def.steps[j].id) != Succeeded
    ensures Newest(rows, i) && rows[i].state == Running
    decreases j
  {
    var id := def.steps[j].id;
    if DepsSucceeded(rows, def.steps[j]) {
      assert Handled(rows, id);
      i :| NewestOf(rows, id, i) && !rows[i].state.Terminal();
    } else {
      var n :| 0 <= n < |def.steps[j].needs| && StateOf(rows, def.steps[j].needs[n]) != Succeeded;
      var e := NeedIsEarlier(def, j, n);
      i := BlockedOnRunning(def, rows, e);
    }
  }

  /** The same walk, when nothing is running either: every node has succeeded. */
  lemma AllSucceeded(def: Definition, rows: seq<StepRun>)
    requires WellOrdered(def) && Passed(def, rows, |def.steps|)
    requires !AnyBad(rows) && !AnyBusy(rows)
    ensures forall j :: 0 <= j < |def.steps| ==> StateOf(rows, def.steps[j].id) == Succeeded
  {
    forall j | 0 <= j < |def.steps| ensures StateOf(rows, def.steps[j].id) == Succeeded {
      if StateOf(rows, def.steps[j].id) != Succeeded {
        var i := BlockedOnRunning(def, rows, j);
      }
    }
  }

  ghost predicate RowsInDef(def: Definition, rows: seq<StepRun>) {
    forall i :: 0 <= i < |rows| ==> HasStep(def.steps, rows[i].stepID)
  }

  lemma StepRowsInDef(def: Definition, rows: seq<StepRun>, rows': seq<StepRun>, k: nat)
    requires k < |def.steps| && RowsInDef(def, rows) && TouchesOnly(rows, rows', def.steps[k].id)
    ensures RowsInDef(def, rows')
  {
    forall i | 0 <= i < |rows'| ensures HasStep(def.steps, rows'[i].stepID) {
      if i < |rows| {
        assert SameKey(rows[i], rows'[i]) && HasStep(def.steps, rows[i].stepID);
      }
    }
  }

  lemma {:induction false} PassRowsInDef(s: State, w: World, k: nat)
    requires k <= |s.def.steps| && RowsInDef(s.def, s.rows)
    ensures RowsInDef(s.def, Pass(s, w, k).rows)
    decreases k
  {
    hide AdvanceStep, HasStep, RowsInDef, TouchesOnly, DepsSucceeded, Handled;
    if k > 0 {
      PassRowsInDef(s, w, k - 1);
      var s1, step := Pass(s, w, k - 1), s.def.steps[k - 1];
      AdvanceStepFrame(s1, w, step);
      StepRowsInDef(s.def, s1.rows, AdvanceStep(s1, w, step).rows, k - 1);
    }
  }

  // ---------------------------------------------------------------- main results

  /** No stall: when the advance returns with the run still live, some step is running,
      nothing has failed, and every step whose needs succeeded has been started. */
  lemma NoStall(s: State, w: World)
    requires WellOrdered(s.def) && !s.status.Terminal()
    requires RowsInDef(s.def, s.rows)
    ensures var s' := Advance(s, w);
            s'.status == Live ==>
              && Passed(s.def, s'.rows, |s.def.steps|)
              && !AnyBad(s'.rows)
              && exists i :: Newest(s'.rows, i) && s'.rows[i].state == Running
  {
    var p := Pass(s, w, |s.def.steps|);
    PassPassed(s, w, |s.def.steps|);
    PassKeepsDone(s, w, |s.def.steps|);
    PassRowsInDef(s, w, |s.def.steps|);
    if !AnyBad(p.rows) && AnyBusy(p.rows) {
      var b :| Newest(p.rows, b) && !p.rows[b].state.Terminal();
      if p.rows[b].state == Pending {
        var j :| 0 <= j < |s.def.steps| && s.def.steps[j].id == p.rows[b].stepID;
        assert NewestOf(p.rows, s.def.steps[j].id, b);
        SucceededMeans(p.rows, s.def.steps[j].id);
        var i := BlockedOnRunning(s.def, p.rows, j);
      }
    }
  }

  /** Success is genuine: it is only ever recorded when every step of the definition has
      step runs and the newest attempt of every slot succeeded. */
  lemma SuccessIsGenuine(s: State, w: World)
    requires WellOrdered(s.def) && !s.status.Terminal()
    ensures var s' := Advance(s, w);
            s'.status == Succeeded_ ==>
              && (forall j :: 0 <= j < |s.def.steps| ==> StateOf(s'.rows, s.def.steps[j].id) == Succeeded)
              && (forall i :: Newest(s'.rows, i) ==> s'.rows[i].state == Success)
  {
    var p := Pass(s, w, |s.def.steps|);
    PassPassed(s, w, |s.def.steps|);
    PassKeepsDone(s, w, |s.def.steps|);
    if !AnyBad(p.rows) && !AnyBusy(p.rows) {
      AllSucceeded(s.def, p.rows);
    }
  }

  /** One pass is a fixpoint, whatever the world answers the second time. */
  lemma AdvanceIsFixpoint(s: State, w: World, w': World)
    requires WellOrdered(s.def)
    ensures Advance(Advance(s, w), w') == Advance(s, w)
  {
    var s' := Advance(s, w);
    if !s.status.Terminal() && !s'.status.Terminal() {
      PassPassed(s, w, |s.def.steps|);
      PassKeepsDone(s, w, |s.def.steps|);
      PassIdle(s', w', |s.def.steps|);
    }
  }

  /** The advance never disturbs a node that had succeeded. */
  lemma AdvanceKeepsDone(s: State, w: World)
    requires WellOrdered(s.def)
    ensures KeepsDone(s.rows, Advance(s, w).rows)
    ensures Advance(s, w).def == s.def && Advance(s, w).startedAt == s.startedAt
  {
    if !s.status.Terminal() {
      var p := Pass(s, w, |s.def.steps|);
      PassPassed(s, w, |s.def.steps|);
      PassKeepsDone(s, w, |s.def.steps|);
      StopRowsFrame(p.rows, Skipped, Cancelled);
      KeepsDoneTrans(s.rows, p.rows, StopRows(p.rows, Skipped, Cancelled));
    }
  }
}
