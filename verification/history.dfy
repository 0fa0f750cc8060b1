/** Every history of one pipeline run: the operations of the executor interleaved, in any order,
    with a run engine that may finish runs, drop finish messages and repeat them. */
module History {
  import opened Wrappers
  import opened Definitions
  import opened StepRows
  import opened RunState
  import opened AdvanceProofs
  import opened Invariants

  datatype Event =
    | Finished(run: RunId, result: EngineRun)   // the run engine closes a run out
    | Message(run: RunId, w: World)             // one finish message reaches the executor
    | Cancelling
    | Ticking(now: int, w: World)
    | Retrying(w: World)

  ghost function Next(s: State, e: Event): State {
    match e
    case Finished(r, result) => if r in s.runs then s.(runs := s.runs[r := result]) else s
    case Message(r, w) => CompleteStep(s, r, w)
    case Cancelling => Cancel(s)
    case Ticking(now, w) => Tick(s, now, w)
    case Retrying(w) => RetryFailed(s, w)
  }

  ghost function Exec(s: State, es: seq<Event>): State
    decreases |es|
  {
    if es == [] then s else Next(Exec(s, es[..|es| - 1]), es[|es| - 1])
  }

  // ---------------------------------------------------------------- recording a result

  /** A message that still has something to record always finds a running, newest step run
      of a live pipeline run: never a pending one, even after a retry reset the row. */
  lemma MessageFindsRunning(s: State, r: RunId)
    requires Inv(s) && Records(s, r)
    ensures s.status == Live && Newest(s.rows, r.row) && s.rows[r.row].state == Running
    ensures StateOf(s.rows, s.rows[r.row].stepID) != Succeeded
  {
    var i := r.row;
    var id := s.rows[i].stepID;
    assert Reached(s, i);
    assert NewestOf(s.rows, id, i);
    SucceededMeans(s.rows, id);
    var k :| 0 <= k < |s.def.steps| && s.def.steps[k].id == id;
    assert NeedsDone(s.def, s.rows, id);
    assert Handled(s.rows, id);
  }

  /** One newest, not yet successful row is rewritten in place. */
  lemma OneRowAttempts(rows: seq<StepRun>, i: nat, x: StepRun)
    requires Attempts(rows) && Newest(rows, i) && SameKey(rows[i], x)
    ensures Attempts(rows[i := x])
    ensures forall j :: Newest(rows, j) <==> Newest(rows[i := x], j)
  {
    SameKeysNewest(rows, rows[i := x]);
    AttemptsUpdated(rows, rows[i := x]);
  }

  lemma OneRowKeepsDone(rows: seq<StepRun>, i: nat, x: StepRun)
    requires Newest(rows, i) && SameKey(rows[i], x) && rows[i].state != Success
    ensures KeepsDone(rows, rows[i := x])
  {
    forall id | StateOf(rows, id) == Succeeded ensures Untouched(rows, rows[i := x], id) {
      SucceededMeans(rows, id);
      assert id == rows[i].stepID ==> NewestOf(rows, id, i);
    }
  }

  lemma OneRowCore(s: State, i: nat, x: StepRun)
    requires Core(s) && Newest(s.rows, i) && SameKey(s.rows[i], x) && s.rows[i].state != Success
    requires x.state != Running && (x.runID == None || (x.runID == s.rows[i].runID && x.state != Pending))
    requires x.state == Success ==> Reached(s, i)
    ensures Core(s.(rows := s.rows[i := x]))
    ensures KeepsDone(s.rows, s.rows[i := x])
  {
    var s' := s.(rows := s.rows[i := x]);
    OneRowAttempts(s.rows, i, x);
    OneRowKeepsDone(s.rows, i, x);
    forall j | Reached(s', j) ensures NeedsDone(s.def, s.rows, s'.rows[j].stepID) {
      assert Reached(s, j);
    }
    CoreUpdated(s, s');
  }

  lemma SetStateKeeps(s: State, i: nat, state: StepState, report: string)
    requires Core(s) && i < |s.rows| && Newest(s.rows, i) && s.rows[i].state == Running
    requires state == Success || state == Failed
    ensures Core(SetState(s, i, state, report))
    ensures KeepsDone(s.rows, SetState(s, i, state, report).rows)
    ensures Newest(SetState(s, i, state, report).rows, i)
  {
    hide Core, KeepsDone;
    var x := s.rows[i].(state := state, report := report);
    OneRowCore(s, i, x);
    SameKeysNewest(s.rows, s.rows[i := x]);
  }

  lemma NextAttemptNewest(rows: seq<StepRun>, i: nat)
    requires Newest(rows, i)
    ensures var rows' := rows + [NextAttempt(rows[i])];
            && Newest(rows', |rows|)
            && !Newest(rows', i)
            && (forall j :: 0 <= j < |rows| && j != i && Newest(rows, j) ==> Newest(rows', j))
  {
    var rows' := rows + [NextAttempt(rows[i])];
    forall j | 0 <= j < |rows| ensures rows'[j] == rows[j] {}
    assert rows'[|rows|] == NextAttempt(rows[i]);
    assert SameSlot(rows'[|rows|], rows'[i]);
  }

  /** A failed newest attempt gets its successor. */
  lemma NextAttemptKeeps(s: State, i: nat)
    requires Core(s) && i < |s.rows| && Newest(s.rows, i) && s.rows[i].state == Failed
    ensures Core(s.(rows := s.rows + [NextAttempt(s.rows[i])]))
    ensures KeepsDone(s.rows, s.rows + [NextAttempt(s.rows[i])])
  {
    var rows, x := s.rows, NextAttempt(s.rows[i]);
    var rows' := rows + [x];
    NextAttemptAttempts(rows, i);
    ExpandedLinked(s, [x], x.stepID);
    NextAttemptKeepsDone(rows, i);
    forall j | Reached(s.(rows := rows'), j) ensures NeedsDone(s.def, rows, rows'[j].stepID) {
      assert j < |rows|;
      assert Reached(s, j);
    }
    CoreUpdated(s, s.(rows := rows'));
  }

  lemma NextAttemptIncreasing(rows: seq<StepRun>, i: nat)
    requires Increasing(rows) && Newest(rows, i)
    ensures Increasing(rows + [NextAttempt(rows[i])])
  {
    var rows' := rows + [NextAttempt(rows[i])];
    forall j, k | 0 <= j < k < |rows'| && SameSlot(rows'[j], rows'[k]) ensures rows'[j].attempt < rows'[k].attempt {
      assert rows'[j] == rows[j];
    }
  }

  lemma NextAttemptAttempts(rows: seq<StepRun>, i: nat)
    requires Attempts(rows) && Newest(rows, i) && rows[i].state == Failed
    ensures Attempts(rows + [NextAttempt(rows[i])])
  {
    hide Increasing, Newest, HasAttempt;
    NewestInRange(rows, i);
    var x := NextAttempt(rows[i]);
    var rows' := rows + [x];
    NextAttemptNewest(rows, i);
    NextAttemptIncreasing(rows, i);
    ConsecutiveKeys(rows, rows');
    AttemptBefore(rows', |rows|, i);
    assert Consecutive(rows');
    forall j | 0 <= j < |rows'| && !Newest(rows', j) ensures rows'[j].state == Failed {
      assert j < |rows| && rows'[j] == rows[j];
    }
  }

  lemma NewestInRange(rows: seq<StepRun>, i: nat)
    requires Newest(rows, i)
    ensures i < |rows|
  {}

  lemma AttemptBefore(rows: seq<StepRun>, k: nat, i: nat)
    requires i < k < |rows| && SameSlot(rows[i], rows[k])
    ensures HasAttempt(rows, k, rows[i].attempt)
  {}

  lemma NextAttemptKeepsDone(rows: seq<StepRun>, i: nat)
    requires Newest(rows, i) && rows[i].state == Failed
    ensures KeepsDone(rows, rows + [NextAttempt(rows[i])])
  {
    var rows' := rows + [NextAttempt(rows[i])];
    forall id | StateOf(rows, id) == Succeeded ensures Untouched(rows, rows', id) {
      SucceededMeans(rows, id);
      assert id == rows[i].stepID ==> NewestOf(rows, id, i);
    }
  }

  lemma RecordKeeps(s: State, r: RunId)
    requires Inv(s) && Records(s, r)
    ensures Core(Record(s, r)) && Record(s, r).status == Live
    ensures KeepsDone(s.rows, Record(s, r).rows)
  {
    MessageFindsRunning(s, r);
    var run := s.runs[r];
    var state := if run.outcome == Won then Success else Failed;
    var s1 := SetState(s, r.row, state, run.report);
    SetStateKeeps(s, r.row, state, run.report);
    if run.outcome != Won && MayRetry(s1, s1.rows[r.row]) {
      NextAttemptKeeps(s1, r.row);
      KeepsDoneTrans(s.rows, s1.rows, Record(s, r).rows);
    }
  }

  lemma CompleteKeeps(s: State, r: RunId, w: World)
    requires Inv(s)
    ensures Inv(CompleteStep(s, r, w))
    ensures KeepsDone(s.rows, CompleteStep(s, r, w).rows)
    ensures CompleteStep(s, r, w).def == s.def
  {
    hide Inv, Core, KeepsDone;
    if Records(s, r) {
      var s1 := Record(s, r);
      RecordKeeps(s, r);
      InvWellOrdered(s);
      AdvanceInv(s1, w);
      AdvanceKeepsDone(s1, w);
      KeepsDoneTrans(s.rows, s1.rows, Advance(s1, w).rows);
    } else {
      KeepsDoneRefl(s.rows);
    }
  }

  lemma InvWellOrdered(s: State)
    requires Inv(s)
    ensures WellOrdered(s.def) && Core(s)
  {}

  lemma {:induction false} ReconcileKeeps(s: State, snapshot: seq<StepRun>, w: World)
    requires Inv(s)
    ensures Inv(Reconcile(s, snapshot, w))
    ensures KeepsDone(s.rows, Reconcile(s, snapshot, w).rows)
    ensures Reconcile(s, snapshot, w).def == s.def
    decreases |snapshot|
  {
    hide Inv, KeepsDone, CompleteStep;
    if snapshot == [] {
      KeepsDoneRefl(s.rows);
    } else {
      var s1 := if Stranded(s, snapshot[0]) then CompleteStep(s, snapshot[0].runID.value, w) else s;
      if Stranded(s, snapshot[0]) {
        CompleteKeeps(s, snapshot[0].runID.value, w);
      } else {
        KeepsDoneRefl(s.rows);
      }
      var w1 := w.(serial := w.serial + 1);
      ReconcileKeeps(s1, snapshot[1..], w1);
      KeepsDoneTrans(s.rows, s1.rows, Reconcile(s1, snapshot[1..], w1).rows);
    }
  }

  // ---------------------------------------------------------------- stopping by hand or by the sweep

  lemma StopKeeps(s: State, status: RunStatus)
    requires Inv(s) && (status == Cancelled_ || status == TimedOut)
    ensures Inv(s.(rows := StopRows(s.rows, Cancelled, Cancelled), status := status))
    ensures KeepsDone(s.rows, StopRows(s.rows, Cancelled, Cancelled))
  {
    CoreStopped(s, Cancelled, Cancelled, status);
  }

  // ---------------------------------------------------------------- retrying

  /** The listed rows are newest attempts, and none is listed twice. */
  ghost predicate DistinctNewest(rows: seq<StepRun>, cur: seq<nat>) {
    DistinctRows(cur, |rows|) && forall k :: 0 <= k < |cur| ==> Newest(rows, cur[k])
  }

  lemma ResetKeeps(s: State, i: nat)
    requires Core(s) && i < |s.rows| && Newest(s.rows, i) &&
        (s.rows[i].state == Skipped || s.rows[i].state == Cancelled)
    ensures Core(s.(rows := s.rows[i := ReopenRow(s.rows[i])]))
    ensures KeepsDone(s.rows, s.rows[i := ReopenRow(s.rows[i])])
    ensures forall j :: Newest(s.rows, j) <==> Newest(s.rows[i := ReopenRow(s.rows[i])], j)
  {
    OneRowCore(s, i, ReopenRow(s.rows[i]));
    SameKeysNewest(s.rows, s.rows[i := ReopenRow(s.rows[i])]);
  }

  lemma ReopenOneKeeps(s: State, cur: seq<nat>)
    requires Core(s) && cur != [] && DistinctNewest(s.rows, cur)
    ensures Core(s.(rows := ReopenOne(s.rows, cur[0])))
    ensures KeepsDone(s.rows, ReopenOne(s.rows, cur[0]))
    ensures DistinctNewest(ReopenOne(s.rows, cur[0]), cur[1..])
  {
    var i := cur[0];
    var rows' := ReopenOne(s.rows, i);
    match s.rows[i].state {
      case Failed =>
        NextAttemptKeeps(s, i);
        NextAttemptNewest(s.rows, i);
        forall k | 0 <= k < |cur[1..]| ensures Newest(rows', cur[1..][k]) {
          assert cur[1..][k] == cur[k + 1] && cur[k + 1] != cur[0];
        }
      case Skipped => ResetKeeps(s, i);
      case Cancelled => ResetKeeps(s, i);
      case _ => KeepsDoneRefl(s.rows);
    }
  }

  lemma {:induction false} ReopenKeeps(s: State, cur: seq<nat>)
    requires Core(s) && DistinctNewest(s.rows, cur)
    ensures Core(s.(rows := ReopenRows(s.rows, cur)))
    ensures KeepsDone(s.rows, ReopenRows(s.rows, cur))
    decreases |cur|
  {
    hide Core, KeepsDone;
    if cur == [] {
      KeepsDoneRefl(s.rows);
      assert s.(rows := s.rows) == s;
    } else {
      var rows1 := ReopenOne(s.rows, cur[0]);
      ReopenOneKeeps(s, cur);
      ReopenKeeps(s.(rows := rows1), cur[1..]);
      assert ReopenRows(s.rows, cur) == ReopenRows(rows1, cur[1..]);
      KeepsDoneTrans(s.rows, rows1, ReopenRows(rows1, cur[1..]));
    }
  }

  lemma RetryKeeps(s: State, w: World)
    requires Inv(s)
    ensures Inv(RetryFailed(s, w))
    ensures KeepsDone(s.rows, RetryFailed(s, w).rows)
    ensures RetryFailed(s, w).def == s.def
  {
    hide Inv, Core, KeepsDone, Advance;
    if s.status.Terminal() && AnyBad(s.rows) {
      InvWellOrdered(s);
      CurrentIsNewest(s.rows);
      var s1 := s.(rows := ReopenRows(s.rows, CurrentRows(s.rows)));
      ReopenKeeps(s, CurrentRows(s.rows));
      CoreUpdatedStatus(s1, Live);
      var s2 := s1.(status := Live);
      AdvanceInv(s2, w);
      AdvanceKeepsDone(s2, w);
      KeepsDoneTrans(s.rows, s2.rows, Advance(s2, w).rows);
    } else {
      KeepsDoneRefl(s.rows);
    }
  }

  // ---------------------------------------------------------------- every history

  lemma CancelKeeps(s: State)
    requires Inv(s)
    ensures Inv(Cancel(s)) && KeepsDone(s.rows, Cancel(s).rows) && Cancel(s).def == s.def
  {
    hide Inv, KeepsDone;
    KeepsDoneRefl(s.rows);
    StopKeeps(s, Cancelled_);
  }

  lemma TickKeeps(s: State, now: int, w: World)
    requires Inv(s)
    ensures Inv(Tick(s, now, w)) && KeepsDone(s.rows, Tick(s, now, w).rows) && Tick(s, now, w).def == s.def
  {
    hide Inv, KeepsDone;
    KeepsDoneRefl(s.rows);
    ReconcileKeeps(s, s.rows, w);
    StopKeeps(s, TimedOut);
  }

  lemma NextKeeps(s: State, e: Event)
    requires Inv(s)
    ensures Inv(Next(s, e))
    ensures KeepsDone(s.rows, Next(s, e).rows)
    ensures Next(s, e).def == s.def
  {
    hide Inv, KeepsDone, Tick, Cancel, CompleteStep, RetryFailed;
    match e
    case Finished(r, result) =>
      KeepsDoneRefl(s.rows);
      if r in s.runs {
        ResultKeeps(s, r, result);
      }
    case Message(r, w) => CompleteKeeps(s, r, w);
    case Cancelling => CancelKeeps(s);
    case Ticking(now, w) => TickKeeps(s, now, w);
    case Retrying(w) => RetryKeeps(s, w);
  }

  lemma ResultKeeps(s: State, r: RunId, result: EngineRun)
    requires Inv(s) && r in s.runs
    ensures Inv(s.(runs := s.runs[r := result]))
  {
    var s' := s.(runs := s.runs[r := result]);
    assert s'.runs.Keys == s.runs.Keys;
    forall i | Reached(s', i) ensures Reached(s, i) {}
    forall i | Reached(s', i) ensures NeedsDone(s'.def, s'.rows, s'.rows[i].stepID) {}
  }

  lemma {:induction false} FirstRowsShape(steps: seq<Step>)
    ensures forall i :: 0 <= i < |FirstRows(steps)| ==>
              FirstRows(steps)[i] == PendingRow(FirstRows(steps)[i].stepID, 0, "", 1) &&
              HasStep(steps, FirstRows(steps)[i].stepID)
  {
    if steps != [] {
      var rest := FirstRows(steps[1..]);
      FirstRowsShape(steps[1..]);
      var rs := FirstRows(steps);
      var off := if steps[0].over == "" then 1 else 0;
      forall i | 0 <= i < |rs|
        ensures rs[i] == PendingRow(rs[i].stepID, 0, "", 1) && HasStep(steps, rs[i].stepID)
      {
        if i < off {
          assert steps[0].id == rs[i].stepID;
        } else {
          assert rs[i] == rest[i - off];
          var k :| 0 <= k < |steps[1..]| && steps[1..][k].id == rs[i].stepID;
          assert steps[k + 1].id == rs[i].stepID;
        }
      }
    }
  }

  ghost predicate DistinctIDs(steps: seq<Step>) {
    forall j, k :: 0 <= j < k < |steps| ==> steps[j].id != steps[k].id
  }

  lemma {:induction false} FirstRowsDistinct(steps: seq<Step>)
    requires DistinctIDs(steps)
    ensures forall i, j :: 0 <= i < j < |FirstRows(steps)| ==>
              FirstRows(steps)[i].stepID != FirstRows(steps)[j].stepID
  {
    if steps != [] {
      var rest := FirstRows(steps[1..]);
      assert DistinctIDs(steps[1..]);
      FirstRowsDistinct(steps[1..]);
      FirstRowsShape(steps[1..]);
      var rs := FirstRows(steps);
      var off := if steps[0].over == "" then 1 else 0;
      forall i, j | 0 <= i < j < |rs| ensures rs[i].stepID != rs[j].stepID {
        assert rs[j] == rest[j - off];
        if i >= off {
          assert rs[i] == rest[i - off];
        } else {
          var k :| 0 <= k < |steps[1..]| && steps[1..][k].id == rs[j].stepID;
          assert steps[k + 1].id != steps[0].id;
        }
      }
    }
  }

  lemma FirstCore(def: Definition, now: int)
    requires WellOrdered(def)
    ensures Core(State(def, now, Live, FirstRows(def.steps), map[]))
  {
    var rows := FirstRows(def.steps);
    FirstRowsShape(def.steps);
    FirstRowsDistinct(def.steps);
    forall i | 0 <= i < |rows| ensures HasStep(def.steps, rows[i].stepID) {
      assert HasStep(def.steps, rows[i].stepID);
    }
    AllNewest(rows);
  }

  lemma StartInv(def: Definition, now: int, w: World)
    requires WellOrdered(def)
    ensures Inv(Start(def, now, w)) && Start(def, now, w).def == def
  {
    hide Core, Inv;
    var s := State(def, now, Live, FirstRows(def.steps), map[]);
    FirstCore(def, now);
    AdvanceInv(s, w);
    AdvanceKeepsDone(s, w);
  }

  lemma AllNewest(rows: seq<StepRun>)
    requires forall i :: 0 <= i < |rows| ==> rows[i].attempt == 1 && rows[i].index == 0
    requires forall i, j :: 0 <= i < j < |rows| ==> rows[i].stepID != rows[j].stepID
    ensures Attempts(rows)
  {}

  /** The invariant holds after every history, and what had succeeded is never touched again. */
  lemma {:induction false} HistoryInv(s: State, es: seq<Event>)
    requires Inv(s)
    ensures Inv(Exec(s, es)) && Exec(s, es).def == s.def
    ensures KeepsDone(s.rows, Exec(s, es).rows)
    decreases |es|
  {
    hide Inv, KeepsDone, Next;
    if es == [] {
      KeepsDoneRefl(s.rows);
    } else {
      var s1 := Exec(s, es[..|es| - 1]);
      HistoryInv(s, es[..|es| - 1]);
      NextKeeps(s1, es[|es| - 1]);
      KeepsDoneTrans(s.rows, s1.rows, Exec(s, es).rows);
    }
  }
}
