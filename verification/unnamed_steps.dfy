/** Steps without an id, whose needs the rule set never looks at: which accepted definitions can still succeed. */
module UnnamedSteps {
  import opened Definitions
  import opened StepRows
  import opened RunState
  import opened AdvanceProofs
  import opened History

  /** Every need of step t names a step that has an id. */
  ghost predicate Answered(steps: seq<Step>, t: nat)
    requires t < |steps|
  {
    forall n :: 0 <= n < |steps[t].needs| ==> steps[t].needs[n] != "" && HasStep(steps, steps[t].needs[n])
  }

  /** A plain step without an id waits, and no step without an id can ever be ready. */
  ghost predicate Blocked(steps: seq<Step>) {
    && (exists t :: 0 <= t < |steps| && steps[t].id == "" && steps[t].over == "")
    && Unanswered(steps)
  }

  ghost predicate Unanswered(steps: seq<Step>) {
    forall t :: 0 <= t < |steps| && steps[t].id == "" ==> !Answered(steps, t)
  }

  // ---------------------------------------------------------------- blocked definitions never succeed

  /** The rows without a step id never ran, and every row belongs to a step. */
  ghost predicate Dormant(steps: seq<Step>, rows: seq<StepRun>) {
    forall i :: 0 <= i < |rows| ==>
      && HasStep(steps, rows[i].stepID)
      && (rows[i].stepID == "" ==>
            rows[i].runID.None? && (rows[i].state == Pending || rows[i].state == Skipped || rows[i].state == Cancelled))
  }

  ghost predicate RunsNamed(s: State) {
    forall r :: r in s.runs ==> r.row < |s.rows| && s.rows[r.row].stepID != ""
  }

  ghost predicate SomeUnnamed(rows: seq<StepRun>) {
    exists i :: 0 <= i < |rows| && rows[i].stepID == ""
  }

  ghost predicate Waiting(s: State) {
    Dormant(s.def.steps, s.rows) && RunsNamed(s) && (SomeUnnamed(s.rows) ==> s.status != Succeeded_)
  }

  ghost predicate SameUnnamed(rows: seq<StepRun>, rows': seq<StepRun>) {
    SomeUnnamed(rows) <==> SomeUnnamed(rows')
  }

  lemma SucceededIsNamed(steps: seq<Step>, rows: seq<StepRun>, id: string)
    requires Dormant(steps, rows) && StateOf(rows, id) == Succeeded
    ensures id != "" && HasStep(steps, id)
  {
    SucceededMeans(rows, id);
    var i :| NewestOf(rows, id, i);
    assert rows[i].state == Success;
  }

  /** Only a step whose needs all have ids can become ready. */
  lemma ReadyIsAnswered(steps: seq<Step>, rows: seq<StepRun>, t: nat)
    requires t < |steps| && Dormant(steps, rows) && DepsSucceeded(rows, steps[t])
    ensures Answered(steps, t)
  {
    forall n | 0 <= n < |steps[t].needs| ensures steps[t].needs[n] != "" && HasStep(steps, steps[t].needs[n]) {
      SucceededIsNamed(steps, rows, steps[t].needs[n]);
    }
  }

  lemma UnansweredIsUnready(steps: seq<Step>, rows: seq<StepRun>, t: nat)
    requires t < |steps| && !Answered(steps, t) && Dormant(steps, rows)
    ensures !DepsSucceeded(rows, steps[t])
  {
    if DepsSucceeded(rows, steps[t]) {
      ReadyIsAnswered(steps, rows, t);
    }
  }

  /** The rows without a step id stay exactly as they are. */
  lemma NamedStepWaits(s: State, w: World, step: Step)
    requires Dormant(s.def.steps, s.rows) && RunsNamed(s) && HasStep(s.def.steps, step.id)
    requires step.id != ""
    ensures var s' := AdvanceStep(s, w, step);
            && Dormant(s.def.steps, s'.rows) && RunsNamed(s') && s'.status == s.status
            && SameUnnamed(s.rows, s'.rows)
  {
    var s' := AdvanceStep(s, w, step);
    AdvanceStepFrame(s, w, step);
    hide StateOf, DepsSucceeded, Handled;
    forall i | 0 <= i < |s.rows| ensures s'.rows[i].stepID == s.rows[i].stepID {
      assert SameKey(s.rows[i], s'.rows[i]);
    }
    AdvanceStepRuns(s, w, step);
  }

  lemma AdvanceStepRuns(s: State, w: World, step: Step)
    ensures var s' := AdvanceStep(s, w, step);
            forall r :: r in s'.runs ==> r in s.runs || (r.row < |s'.rows| && s'.rows[r.row].stepID == step.id)
  {
    hide StateOf, DepsSucceeded, Newest;
    var s1 := Expand(s, w, step);
    var added := StartedRuns(s1.rows, w, step.id);
    if DepsSucceeded(s.rows, step) {
      forall r | r in added ensures r.row < |s1.rows| && s1.rows[r.row].stepID == step.id {}
      StartRowsFrame(s1.rows, w, step.id);
    }
  }

  lemma {:induction false} PassWaits(s: State, w: World, k: nat)
    requires k <= |s.def.steps| && Dormant(s.def.steps, s.rows) && RunsNamed(s)
    requires Unanswered(s.def.steps)
    ensures var s' := Pass(s, w, k);
            && Dormant(s.def.steps, s'.rows) && RunsNamed(s') && s'.status == s.status
            && SameUnnamed(s.rows, s'.rows)
    decreases k
  {
    hide AdvanceStep, Dormant, RunsNamed, SomeUnnamed, Answered, HasStep;
    if k > 0 {
      PassWaits(s, w, k - 1);
      var s1, step := Pass(s, w, k - 1), s.def.steps[k - 1];
      StepExists(s.def.steps, k - 1);
      if step.id == "" {
        UnansweredIsUnready(s.def.steps, s1.rows, k - 1);
        UnreadyIsSkipped(s1, w, step);
      } else {
        NamedStepWaits(s1, w, step);
      }
    }
  }

  lemma StepExists(steps: seq<Step>, k: nat)
    requires k < |steps|
    ensures HasStep(steps, steps[k].id)
  {}

  lemma UnreadyIsSkipped(s: State, w: World, step: Step)
    requires !DepsSucceeded(s.rows, step)
    ensures AdvanceStep(s, w, step) == s
  {}

  lemma StopWaits(s: State, p: StepState, r: StepState)
    requires Dormant(s.def.steps, s.rows) && RunsNamed(s) && (p == Skipped || p == Cancelled)
    ensures var rows := StopRows(s.rows, p, r);
            && Dormant(s.def.steps, rows) && RunsNamed(s.(rows := rows))
            && SameUnnamed(s.rows, rows)
  {
    hide Newest;
    var rows := StopRows(s.rows, p, r);
    assert forall i :: 0 <= i < |rows| ==> rows[i].stepID == s.rows[i].stepID;
  }

  /** A row that waits or was stopped speaks against success. */
  lemma UnnamedIsUndone(steps: seq<Step>, rows: seq<StepRun>)
    requires Dormant(steps, rows) && SomeUnnamed(rows)
    ensures AnyBad(rows) || AnyBusy(rows)
  {
    var i :| 0 <= i < |rows| && rows[i].stepID == "";
    var k := NewestExists(rows, i);
    assert Newest(rows, k) && rows[k].stepID == "";
  }

  lemma AdvanceWaits(s: State, w: World)
    requires Waiting(s) && Unanswered(s.def.steps)
    ensures Waiting(Advance(s, w)) && Advance(s, w).def == s.def
    ensures SameUnnamed(s.rows, Advance(s, w).rows)
  {
    hide Dormant, RunsNamed, SomeUnnamed, Unanswered, StopRows, AnyBad, AnyBusy;
    if !s.status.Terminal() {
      var p := Pass(s, w, |s.def.steps|);
      PassWaits(s, w, |s.def.steps|);
      if SomeUnnamed(p.rows) {
        UnnamedIsUndone(s.def.steps, p.rows);
      }
      StopWaits(p, Skipped, Cancelled);
      RunsNamedStatus(p, Succeeded_);
      RunsNamedStatus(p.(rows := StopRows(p.rows, Skipped, Cancelled)), Failed_);
    }
  }

  lemma RunsNamedStatus(s: State, status: RunStatus)
    requires RunsNamed(s)
    ensures RunsNamed(s.(status := status))
  {}

  lemma RecordWaits(s: State, r: RunId)
    requires Waiting(s) && Records(s, r)
    ensures Waiting(Record(s, r)) && Record(s, r).def == s.def
    ensures SameUnnamed(s.rows, Record(s, r).rows)
  {
    var s1 := Record(s, r);
    assert s.rows[r.row].stepID != "";
    forall i | 0 <= i < |s1.rows|
      ensures i < |s.rows| ==> s1.rows[i].stepID == s.rows[i].stepID
      ensures i < |s.rows| && s.rows[i].stepID == "" ==> s1.rows[i] == s.rows[i]
      ensures i >= |s.rows| ==> s1.rows[i].stepID == s.rows[r.row].stepID
    {}
    SameIDsSameUnnamed(s.rows, s1.rows);
  }

  /** The rows added have a step id. */
  lemma SameIDsSameUnnamed(rows: seq<StepRun>, rows': seq<StepRun>)
    requires |rows| <= |rows'|
    requires forall i :: 0 <= i < |rows| ==> rows'[i].stepID == rows[i].stepID
    requires forall i :: |rows| <= i < |rows'| && rows'[i].stepID == "" ==> SomeUnnamed(rows)
    ensures SameUnnamed(rows, rows')
  {
    if SomeUnnamed(rows) {
      var u :| 0 <= u < |rows| && rows[u].stepID == "";
      assert rows'[u].stepID == "";
    }
  }

  lemma CompleteWaits(s: State, r: RunId, w: World)
    requires Waiting(s) && Unanswered(s.def.steps)
    ensures Waiting(CompleteStep(s, r, w)) && CompleteStep(s, r, w).def == s.def
    ensures SameUnnamed(s.rows, CompleteStep(s, r, w).rows)
  {
    hide Waiting, Unanswered, Record, Advance, Records;
    if Records(s, r) {
      RecordWaits(s, r);
      AdvanceWaits(Record(s, r), w);
    }
  }

  lemma {:induction false} ReconcileWaits(s: State, snapshot: seq<StepRun>, w: World)
    requires Waiting(s) && Unanswered(s.def.steps)
    ensures Waiting(Reconcile(s, snapshot, w)) && Reconcile(s, snapshot, w).def == s.def
    ensures SameUnnamed(s.rows, Reconcile(s, snapshot, w).rows)
    decreases |snapshot|
  {
    hide Waiting, Unanswered, CompleteStep;
    if snapshot != [] {
      if Stranded(s, snapshot[0]) {
        CompleteWaits(s, snapshot[0].runID.value, w);
      }
      ReconcileWaits(SweepRow(s, snapshot[0], w), snapshot[1..], w.(serial := w.serial + 1));
    }
  }

  lemma {:induction false} ReopenWaits(s: State, cur: seq<nat>)
    requires Dormant(s.def.steps, s.rows) && RunsNamed(s)
    requires forall k :: 0 <= k < |cur| ==> cur[k] < |s.rows|
    ensures var s' := s.(rows := ReopenRows(s.rows, cur));
            Dormant(s.def.steps, s'.rows) && RunsNamed(s') && SameUnnamed(s.rows, s'.rows)
    decreases |cur|
  {
    if cur != [] {
      var s1 := s.(rows := ReopenOne(s.rows, cur[0]));
      ReopenOneWaits(s, cur[0]);
      assert forall k :: 0 <= k < |cur[1..]| ==> cur[1..][k] == cur[k + 1];
      ReopenWaits(s1, cur[1..]);
    }
  }

  lemma ReopenOneWaits(s: State, i: nat)
    requires Dormant(s.def.steps, s.rows) && RunsNamed(s) && i < |s.rows|
    ensures var s' := s.(rows := ReopenOne(s.rows, i));
            Dormant(s.def.steps, s'.rows) && RunsNamed(s') && SameUnnamed(s.rows, s'.rows)
  {
    var rows' := ReopenOne(s.rows, i);
    forall j | 0 <= j < |s.rows| ensures rows'[j].stepID == s.rows[j].stepID {}
    forall j | |s.rows| <= j < |rows'| && rows'[j].stepID == "" ensures SomeUnnamed(s.rows) {
      assert s.rows[i].stepID == "";
    }
    SameIDsSameUnnamed(s.rows, rows');
  }

  lemma RetryWaits(s: State, w: World)
    requires Waiting(s) && Unanswered(s.def.steps)
    ensures Waiting(RetryFailed(s, w)) && RetryFailed(s, w).def == s.def
    ensures SameUnnamed(s.rows, RetryFailed(s, w).rows)
  {
    hide Dormant, RunsNamed, SomeUnnamed, Unanswered, Advance, AnyBad;
    if s.status.Terminal() && AnyBad(s.rows) {
      CurrentIsNewest(s.rows);
      ReopenWaits(s, CurrentRows(s.rows));
      var s1 := s.(rows := ReopenRows(s.rows, CurrentRows(s.rows)));
      RunsNamedStatus(s1, Live);
      AdvanceWaits(s1.(status := Live), w);
    }
  }

  lemma StopAllWaits(s: State, status: RunStatus)
    requires Waiting(s) && status != Succeeded_
    ensures Waiting(s.(rows := StopRows(s.rows, Cancelled, Cancelled), status := status))
    ensures SameUnnamed(s.rows, StopRows(s.rows, Cancelled, Cancelled))
  {
    hide StopRows;
    StopWaits(s, Cancelled, Cancelled);
  }

  lemma NextWaits(s: State, e: Event)
    requires Waiting(s) && Unanswered(s.def.steps)
    ensures Waiting(Next(s, e)) && Next(s, e).def == s.def
    ensures SameUnnamed(s.rows, Next(s, e).rows)
  {
    hide Dormant, SomeUnnamed, Unanswered, StopRows, Reconcile, CompleteStep, RetryFailed;
    match e
    case Finished(r, result) =>
    case Message(r, w) => CompleteWaits(s, r, w);
    case Cancelling => StopAllWaits(s, Cancelled_);
    case Ticking(now, w) =>
      ReconcileWaits(s, s.rows, w);
      StopAllWaits(s, TimedOut);
    case Retrying(w) => RetryWaits(s, w);
  }

  lemma {:induction false} HistoryWaits(s: State, es: seq<Event>)
    requires Waiting(s) && Unanswered(s.def.steps)
    ensures Waiting(Exec(s, es)) && Exec(s, es).def == s.def
    ensures SameUnnamed(s.rows, Exec(s, es).rows)
    decreases |es|
  {
    hide Waiting, Unanswered, Next;
    if es != [] {
      HistoryWaits(s, es[..|es| - 1]);
      NextWaits(Exec(s, es[..|es| - 1]), es[|es| - 1]);
    }
  }

  lemma {:induction false} PlainHasRow(steps: seq<Step>, t: nat)
    requires t < |steps| && steps[t].over == ""
    ensures exists i :: 0 <= i < |FirstRows(steps)| && FirstRows(steps)[i].stepID == steps[t].id
  {
    var off := if steps[0].over == "" then 1 else 0;
    if t == 0 {
      assert FirstRows(steps)[0].stepID == steps[0].id;
    } else {
      PlainHasRow(steps[1..], t - 1);
      var i :| 0 <= i < |FirstRows(steps[1..])| && FirstRows(steps[1..])[i].stepID == steps[1..][t - 1].id;
      assert FirstRows(steps)[i + off] == FirstRows(steps[1..])[i];
    }
  }

  lemma FirstWaits(def: Definition, now: int)
    ensures Waiting(State(def, now, Live, FirstRows(def.steps), map[]))
    ensures Blocked(def.steps) ==> SomeUnnamed(FirstRows(def.steps))
  {
    FirstRowsShape(def.steps);
    if t :| 0 <= t < |def.steps| && def.steps[t].id == "" && def.steps[t].over == "" {
      PlainHasRow(def.steps, t);
    }
  }

  lemma StartWaits(def: Definition, now: int, w: World, es: seq<Event>)
    requires Unanswered(def.steps)
    ensures var s := Exec(Start(def, now, w), es);
            Waiting(s) && s.def == def && (Blocked(def.steps) ==> SomeUnnamed(s.rows))
  {
    hide Exec, Start, Advance, Waiting, Unanswered, Blocked;
    FirstWaits(def, now);
    StartIs(def, now, w);
    AdvanceWaits(State(def, now, Live, FirstRows(def.steps), map[]), w);
    HistoryWaits(Start(def, now, w), es);
  }

  /** Whatever happens, the steps without an id never run when none of them needs named steps only. */
  lemma UnansweredNeverRuns(def: Definition, now: int, w: World, es: seq<Event>)
    requires Unanswered(def.steps)
    ensures var s := Exec(Start(def, now, w), es);
            && (forall i :: 0 <= i < |s.rows| && s.rows[i].stepID == "" ==>
                  s.rows[i].runID.None? && s.rows[i].state != Running && s.rows[i].state != Success)
            && StateOf(s.rows, "") != Succeeded && s.def == def
  {
    hide Exec, Start, Unanswered;
    StartWaits(def, now, w, es);
    var s := Exec(Start(def, now, w), es);
    if StateOf(s.rows, "") == Succeeded {
      SucceededIsNamed(def.steps, s.rows, "");
    }
  }

  /** And when one of them is plain, the run never succeeds. */
  lemma BlockedNeverSucceeds(def: Definition, now: int, w: World, es: seq<Event>)
    requires Blocked(def.steps)
    ensures Exec(Start(def, now, w), es).status != Succeeded_
  {
    hide Exec, Start, Dormant;
    StartWaits(def, now, w, es);
  }

  lemma StartIs(def: Definition, now: int, w: World)
    ensures Start(def, now, w) == Advance(State(def, now, Live, FirstRows(def.steps), map[]), w)
  {}
}
