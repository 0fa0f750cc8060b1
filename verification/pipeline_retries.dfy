/** What a lost run and an operator's retry do, exactly. */
module PipelineRetries {
  import opened Wrappers
  import opened Definitions
  import opened StepRows
  import opened RunState
  import opened AdvanceProofs
  import opened Invariants
  import opened History

  // ---------------------------------------------------------------- one touched node, everything else idle

  /** The step has nothing to do in this pass. */
  ghost predicate Idle(rows: seq<StepRun>, step: Step) {
    DepsSucceeded(rows, step) ==> Handled(rows, step.id)
  }

  lemma TouchesOnlyTrans(a: seq<StepRun>, b: seq<StepRun>, c: seq<StepRun>, id: string)
    requires TouchesOnly(a, b, id) && TouchesOnly(b, c, id)
    ensures TouchesOnly(a, c, id)
  {
    forall i | 0 <= i < |a| ensures SameKey(a[i], c[i]) && (a[i].stepID != id ==> c[i] == a[i]) {
      assert SameKey(a[i], b[i]) && SameKey(b[i], c[i]);
    }
    forall i | |a| <= i < |c| ensures c[i].stepID == id {
      assert i < |b| ==> SameKey(b[i], c[i]);
    }
  }

  /** Work on a node that has not succeeded, before or after, leaves every other step idle. */
  lemma OthersStayIdle(rows: seq<StepRun>, rows': seq<StepRun>, id: string, step: Step)
    requires TouchesOnly(rows, rows', id) && step.id != id
    requires StateOf(rows, id) != Succeeded && StateOf(rows', id) != Succeeded
    requires Idle(rows, step)
    ensures Idle(rows', step)
  {
    if DepsSucceeded(rows', step) {
      forall n | 0 <= n < |step.needs| ensures StateOf(rows, step.needs[n]) == Succeeded {
        TouchesOnlyLeaves(rows, rows', id, step.needs[n]);
      }
      TouchesOnlyLeaves(rows, rows', id, step.id);
      forall i | NewestOf(rows', step.id, i) ensures rows'[i].state != Pending {
        assert NewestOf(rows, step.id, i) && rows'[i] == rows[i];
      }
    }
  }

  lemma DepsKept(rows: seq<StepRun>, rows': seq<StepRun>, id: string, step: Step)
    requires TouchesOnly(rows, rows', id) && StateOf(rows, id) != Succeeded && DepsSucceeded(rows, step)
    ensures DepsSucceeded(rows', step)
  {
    forall n | 0 <= n < |step.needs| ensures StateOf(rows', step.needs[n]) == Succeeded {
      TouchesOnlyLeaves(rows, rows', id, step.needs[n]);
    }
  }

  /** When the steps from j up to k are idle in what the pass has made of s so far, they change nothing. */
  lemma {:induction false} PassStays(s: State, w: World, j: nat, k: nat)
    requires j <= k <= |s.def.steps|
    requires forall m :: j <= m < k ==> Idle(Pass(s, w, j).rows, s.def.steps[m])
    ensures Pass(s, w, k) == Pass(s, w, j)
    decreases k
  {
    hide AdvanceStep, Idle;
    if j < k {
      PassStays(s, w, j, k - 1);
      IdleStep(Pass(s, w, j), w, s.def.steps[k - 1]);
    }
  }

  lemma IdleStep(s: State, w: World, step: Step)
    requires Idle(s.rows, step)
    ensures AdvanceStep(s, w, step) == s
  {
    AdvanceStepIdle(s, w, step);
  }

  // ---------------------------------------------------------------- a lost run

  lemma RecordTouches(s: State, r: RunId)
    requires Records(s, r)
    ensures TouchesOnly(s.rows, Record(s, r).rows, s.rows[r.row].stepID)
  {
    var s' := Record(s, r);
    forall i | 0 <= i < |s.rows| ensures SameKey(s.rows[i], s'.rows[i]) {}
  }

  /** All a later argument needs to know about the state a message finds. */
  lemma LostFound(s: State, r: RunId, k: nat)
    requires Inv(s) && Records(s, r) && k < |s.def.steps| && s.def.steps[k].id == s.rows[r.row].stepID
    ensures s.status == Live && Newest(s.rows, r.row) && StateOf(s.rows, s.rows[r.row].stepID) != Succeeded
    ensures DepsSucceeded(s.rows, s.def.steps[k]) && !AnyBad(s.rows) && Increasing(s.rows)
    ensures forall m :: 0 <= m < |s.def.steps| ==> Idle(s.rows, s.def.steps[m])
    ensures forall m :: 0 <= m < |s.def.steps| && m != k ==> s.def.steps[m].id != s.rows[r.row].stepID
  {
    MessageFindsRunning(s, r);
    UniqueStep(s.def, k);
    assert Reached(s, r.row);
    assert NeedsDone(s.def, s.rows, s.rows[r.row].stepID);
  }

  lemma {:induction false} StepFound(steps: seq<Step>, k: nat)
    requires k < |steps| && forall j, m :: 0 <= j < m < |steps| ==> steps[j].id != steps[m].id
    ensures StepByID(steps, steps[k].id) == Some(steps[k])
  {
    if k > 0 {
      StepFound(steps[1..], k - 1);
    }
  }

  lemma LostRecord(s: State, r: RunId, k: nat)
    requires WellOrdered(s.def) && s.status == Live && Records(s, r) && s.runs[r].outcome != Won
    requires k < |s.def.steps| && s.def.steps[k].id == s.rows[r.row].stepID
    ensures var failed := s.rows[r.row].(state := Failed, report := s.runs[r].report);
            Record(s, r) == s.(rows := s.rows[r.row := failed]
                                       + if failed.attempt <= s.def.steps[k].retries then [NextAttempt(failed)] else [])
  {
    StepFound(s.def.steps, k);
  }

  /** Budget spent: nothing is left to do in the pass, and the failed newest attempt fails the run. */
  lemma SpentFails(s: State, r: RunId, w: World, k: nat)
    requires Inv(s) && Records(s, r) && s.runs[r].outcome != Won
    requires k < |s.def.steps| && s.def.steps[k].id == s.rows[r.row].stepID
    requires s.rows[r.row].attempt > s.def.steps[k].retries
    ensures CompleteStep(s, r, w).status == Failed_
  {
    var s1 := Record(s, r);
    LostFound(s, r, k);
    InvWellOrdered(s);
    LostRecord(s, r, k);
    SpentIsIdle(s, r, k);
    hide Inv, Idle, Record, AdvanceStep, DepsSucceeded;
    assert Pass(s1, w, 0) == s1;
    PassStays(s1, w, 0, |s.def.steps|);
  }

  lemma SpentIsIdle(s: State, r: RunId, k: nat)
    requires Inv(s) && Records(s, r) && s.runs[r].outcome != Won
    requires k < |s.def.steps| && s.def.steps[k].id == s.rows[r.row].stepID
    requires s.rows[r.row].attempt > s.def.steps[k].retries
    ensures Newest(Record(s, r).rows, r.row)
    ensures forall m :: 0 <= m < |s.def.steps| ==> Idle(Record(s, r).rows, s.def.steps[m])
  {
    var id, s1 := s.rows[r.row].stepID, Record(s, r);
    LostFound(s, r, k);
    InvWellOrdered(s);
    LostRecord(s, r, k);
    RecordTouches(s, r);
    assert Handled(s.rows, id);
    hide Inv, Handled, DepsSucceeded, TouchesOnly, Record, StateOf;
    SameKeysNewest(s.rows, s1.rows);
    NewestBad(s1.rows, r.row);
    NothingPending(s, s1, r.row);
    forall m | 0 <= m < |s.def.steps| ensures Idle(s1.rows, s.def.steps[m]) {
      if m != k {
        OthersStayIdle(s.rows, s1.rows, id, s.def.steps[m]);
      }
    }
  }

  lemma NewestBad(rows: seq<StepRun>, i: nat)
    requires Newest(rows, i) && rows[i].state.Bad()
    ensures StateOf(rows, rows[i].stepID) != Succeeded && AnyBad(rows)
  {
    assert NewestOf(rows, rows[i].stepID, i);
  }

  lemma NothingPending(s: State, s1: State, i: nat)
    requires i < |s.rows| && Handled(s.rows, s.rows[i].stepID) && |s1.rows| == |s.rows|
    requires s1.rows[i].state != Pending && SameKey(s.rows[i], s1.rows[i])
    requires forall j :: 0 <= j < |s.rows| && j != i ==> s1.rows[j] == s.rows[j]
    ensures Handled(s1.rows, s.rows[i].stepID)
  {
    var id := s.rows[i].stepID;
    SameKeysNewest(s.rows, s1.rows);
    AbsentHasNoRows(s1.rows, id);
    forall j | NewestOf(s1.rows, id, j) ensures s1.rows[j].state != Pending {
      assert NewestOf(s.rows, id, j);
    }
  }

  /** Within the budget the pass starts exactly the new attempt. */
  lemma OneMoreStarts(s: State, r: RunId, w: World, k: nat)
    requires Inv(s) && Records(s, r) && s.runs[r].outcome != Won
    requires k < |s.def.steps| && s.def.steps[k].id == s.rows[r.row].stepID
    requires s.rows[r.row].attempt <= s.def.steps[k].retries
    ensures Pass(Record(s, r), w, |s.def.steps|) == AdvanceStep(Record(s, r), w, s.def.steps[k])
    ensures DepsSucceeded(Record(s, r).rows, s.def.steps[k])
  {
    hide Inv, Idle, Handled, DepsSucceeded, TouchesOnly, Record, StateOf, Newest, AdvanceStep, WellOrdered, AnyBad,
        Increasing;
    var s1, step := Record(s, r), s.def.steps[k];
    RecordKeepsDef(s, r);
    OthersIdleAfterRecord(s, r, k);
    assert Pass(s1, w, 0) == s1;
    PassStays(s1, w, 0, k);
    var s2 := AdvanceStep(s1, w, step);
    assert Pass(s1, w, k + 1) == s2;
    OthersIdleAfterStart(s, r, w, k);
    PassStays(s1, w, k + 1, |s.def.steps|);
  }

  lemma RecordKeepsDef(s: State, r: RunId)
    requires Records(s, r)
    ensures Record(s, r).def == s.def
  {}

  lemma OthersIdleAfterRecord(s: State, r: RunId, k: nat)
    requires Inv(s) && Records(s, r) && s.runs[r].outcome != Won
    requires k < |s.def.steps| && s.def.steps[k].id == s.rows[r.row].stepID
    requires s.rows[r.row].attempt <= s.def.steps[k].retries
    ensures DepsSucceeded(Record(s, r).rows, s.def.steps[k])
    ensures forall m :: 0 <= m < |s.def.steps| && m != k ==> Idle(Record(s, r).rows, s.def.steps[m])
  {
    hide Inv, Idle, Handled, DepsSucceeded, TouchesOnly, Record, StateOf, Newest, WellOrdered, AnyBad, Increasing;
    var id, s1 := s.rows[r.row].stepID, Record(s, r);
    LostFound(s, r, k);
    RecordTouches(s, r);
    NewAttemptNewest(s, r, k);
    DepsKept(s.rows, s1.rows, id, s.def.steps[k]);
    forall m | 0 <= m < |s.def.steps| && m != k ensures Idle(s1.rows, s.def.steps[m]) {
      OthersStayIdle(s.rows, s1.rows, id, s.def.steps[m]);
    }
  }

  lemma OthersIdleAfterStart(s: State, r: RunId, w: World, k: nat)
    requires Inv(s) && Records(s, r) && s.runs[r].outcome != Won
    requires k < |s.def.steps| && s.def.steps[k].id == s.rows[r.row].stepID
    requires s.rows[r.row].attempt <= s.def.steps[k].retries
    ensures forall m :: 0 <= m < |s.def.steps| && m != k ==>
        Idle(AdvanceStep(Record(s, r), w, s.def.steps[k]).rows, s.def.steps[m])
  {
    hide Inv, Idle, Handled, DepsSucceeded, TouchesOnly, Record, StateOf, Newest, AdvanceStep, WellOrdered, AnyBad,
        Increasing;
    var id, s1, step := s.rows[r.row].stepID, Record(s, r), s.def.steps[k];
    LostFound(s, r, k);
    RecordTouches(s, r);
    NewAttemptNewest(s, r, k);
    OthersIdleAfterRecord(s, r, k);
    var s2 := AdvanceStep(s1, w, step);
    AdvanceStepFrame(s1, w, step);
    TouchesOnlyTrans(s.rows, s1.rows, s2.rows, id);
    StartedNotDone(s1, w, step, |s.rows|);
    forall m | 0 <= m < |s.def.steps| && m != k ensures Idle(s2.rows, s.def.steps[m]) {
      OthersStayIdle(s.rows, s2.rows, id, s.def.steps[m]);
    }
  }

  /** Failing the newest attempt and appending its successor: the successor is the newest, all others stay. */
  lemma SuccessorNewest(rows: seq<StepRun>, i: nat, failed: StepRun)
    requires Increasing(rows) && Newest(rows, i) && SameKey(rows[i], failed)
    ensures var rows' := rows[i := failed] + [NextAttempt(failed)];
            && Newest(rows', |rows|)
            && (forall j :: Newest(rows', j) && j != |rows| ==> Newest(rows, j) && j != i && rows'[j] == rows[j])
  {
    var rows1 := rows[i := failed];
    SameKeysNewest(rows, rows1);
    NextAttemptNewest(rows1, i);
    var rows' := rows1 + [NextAttempt(failed)];
    forall j | Newest(rows', j) && j != |rows| ensures Newest(rows, j) && j != i && rows'[j] == rows[j] {
      OlderNewest(rows1, [NextAttempt(failed)], j);
    }
  }

  lemma PendingNotDone(rows: seq<StepRun>, n: nat)
    requires Newest(rows, n) && rows[n].state == Pending
    ensures NewestOf(rows, rows[n].stepID, n) && StateOf(rows, rows[n].stepID) != Succeeded
  {
    SucceededMeans(rows, rows[n].stepID);
    assert NewestOf(rows, rows[n].stepID, n);
  }

  /** The attempt a lost run opens: pending, and the newest of its slot. */
  lemma NewAttemptNewest(s: State, r: RunId, k: nat)
    requires Inv(s) && Records(s, r) && s.runs[r].outcome != Won
    requires k < |s.def.steps| && s.def.steps[k].id == s.rows[r.row].stepID
    requires s.rows[r.row].attempt <= s.def.steps[k].retries
    ensures var rows := Record(s, r).rows;
            && |rows| == |s.rows| + 1 && NewestOf(rows, s.rows[r.row].stepID, |s.rows|)
            && rows[|s.rows|] == NextAttempt(s.rows[r.row])
            && StateOf(rows, s.rows[r.row].stepID) != Succeeded
            && (forall j :: Newest(rows, j) && j != |s.rows| ==>
                j < |s.rows| && Newest(s.rows, j) && rows[j] == s.rows[j])
  {
    hide Inv, Idle, StateOf, Increasing, DepsSucceeded, AnyBad, WellOrdered;
    LostFound(s, r, k);
    InvWellOrdered(s);
    LostRecord(s, r, k);
    SuccessorNewest(s.rows, r.row, s.rows[r.row].(state := Failed, report := s.runs[r].report));
    PendingNotDone(Record(s, r).rows, |s.rows|);
  }

  lemma OlderNewest(rows: seq<StepRun>, more: seq<StepRun>, j: nat)
    requires Newest(rows + more, j) && j < |rows|
    ensures Newest(rows, j)
  {
    forall i | 0 <= i < |rows| && SameSlot(rows[i], rows[j])
      ensures rows[i].attempt < rows[j].attempt || (rows[i].attempt == rows[j].attempt && i <= j)
    {
      assert (rows + more)[i] == rows[i];
    }
  }

  lemma StartedNotDone(s1: State, w: World, step: Step, n: nat)
    requires DepsSucceeded(s1.rows, step) && NewestOf(s1.rows, step.id, n) && s1.rows[n].state == Pending
    ensures var rows := AdvanceStep(s1, w, step).rows;
            && |rows| == |s1.rows| && StateOf(rows, step.id) != Succeeded
            && (forall i :: Newest(s1.rows, i) <==> Newest(rows, i))
            && rows[n] == StartedRow(s1.rows[n], RunId(n, w.serial), w.start(n))
            && (forall j :: 0 <= j < |rows| && !Startable(s1.rows, step.id, j) ==> rows[j] == s1.rows[j])
  {
    AbsentHasNoRows(s1.rows, step.id);
    var rows := StartRows(s1.rows, w, step.id);
    StartRowsFrame(s1.rows, w, step.id);
    StartRowsAt(s1.rows, w, step.id, n);
    forall j | 0 <= j < |rows| && !Startable(s1.rows, step.id, j) ensures rows[j] == s1.rows[j] {
      StartRowsAt(s1.rows, w, step.id, j);
    }
    SucceededMeans(rows, step.id);
    assert NewestOf(rows, step.id, n);
  }

  /** A row that was newest and fine stays as it is when only pending newest rows of a handled node are started. */
  lemma OldRowHealthy(before: seq<StepRun>, mid: seq<StepRun>, rows: seq<StepRun>, id: string, j: nat)
    requires Newest(before, j) && !AnyBad(before) && Handled(before, id) && j < |mid| && mid[j] == before[j]
    requires j < |rows| && (!Startable(mid, id, j) ==> rows[j] == mid[j])
    ensures !rows[j].state.Bad()
  {
    assert before[j].stepID == id ==> NewestOf(before, id, j);
  }

  /** Nothing that has not failed before fails because of the new attempt, when its run starts. */
  lemma StillHealthy(s: State, r: RunId, w: World, k: nat)
    requires Inv(s) && Records(s, r) && s.runs[r].outcome != Won
    requires k < |s.def.steps| && s.def.steps[k].id == s.rows[r.row].stepID
    requires s.rows[r.row].attempt <= s.def.steps[k].retries && w.start(|s.rows|).Started?
    ensures var rows := Pass(Record(s, r), w, |s.def.steps|).rows;
            !AnyBad(rows) && Newest(rows, |s.rows|) && rows[|s.rows|].state == Running
  {
    hide Inv, Idle, Handled, DepsSucceeded, Record, StateOf, Newest, AdvanceStep, Startable, WellOrdered, Increasing,
        Pass;
    var id, s1, n := s.rows[r.row].stepID, Record(s, r), |s.rows|;
    LostFound(s, r, k);
    IdleHandled(s.rows, s.def.steps[k]);
    NewAttemptNewest(s, r, k);
    OneMoreStarts(s, r, w, k);
    StartedNotDone(s1, w, s.def.steps[k], n);
    var rows := AdvanceStep(s1, w, s.def.steps[k]).rows;
    NewestOfIs(s1.rows, id, n);
    forall j | 0 <= j < |rows| && Newest(rows, j) ensures !rows[j].state.Bad() {
      if j != n {
        OldRowHealthy(s.rows, s1.rows, rows, id, j);
      }
    }
    NoneBad(rows);
  }

  lemma NoneBad(rows: seq<StepRun>)
    requires forall j :: 0 <= j < |rows| && Newest(rows, j) ==> !rows[j].state.Bad()
    ensures !AnyBad(rows)
  {}

  lemma IdleHandled(rows: seq<StepRun>, step: Step)
    requires Idle(rows, step) && DepsSucceeded(rows, step)
    ensures Handled(rows, step.id)
  {}

  lemma NewestOfIs(rows: seq<StepRun>, id: string, i: int)
    requires 0 <= i < |rows| ==> rows[i].stepID == id
    ensures Newest(rows, i) <==> NewestOf(rows, id, i)
    ensures Newest(rows, i) ==> 0 <= i < |rows|
  {}

  /**
   * A lost run, exactly: inside the step's budget its slot gets the next attempt, on the same item, and when the run of
   * that attempt starts the pipeline run goes on; with the budget spent the pipeline run has failed.
   */
  lemma LostRunExactly(s: State, r: RunId, w: World, k: nat)
    requires Inv(s) && Records(s, r) && s.runs[r].outcome != Won
    requires k < |s.def.steps| && s.def.steps[k].id == s.rows[r.row].stepID
    ensures var s', n := CompleteStep(s, r, w), |s.rows|;
            && (s.rows[r.row].attempt > s.def.steps[k].retries ==> s'.status == Failed_)
            && (s.rows[r.row].attempt <= s.def.steps[k].retries ==>
                  && |s'.rows| == n + 1 && SameKey(s'.rows[n], NextAttempt(s.rows[r.row]))
                  && (w.start(n).Started? ==>
                      s'.status == Live && s'.rows[n].state == Running && s'.rows[n].runID == Some(RunId(n, w.serial)))
                  && (w.start(n).Refused? ==> s'.status == Failed_))
  {
    if s.rows[r.row].attempt > s.def.steps[k].retries {
      SpentFails(s, r, w, k);
    } else {
      var s1 := Record(s, r);
      LostFound(s, r, k);
      InvWellOrdered(s);
      LostRecord(s, r, k);
      NewAttemptNewest(s, r, k);
      OneMoreStarts(s, r, w, k);
      StartedNotDone(s1, w, s.def.steps[k], |s.rows|);
      AdvanceStepFrame(s1, w, s.def.steps[k]);
      if w.start(|s.rows|).Started? {
        StillHealthy(s, r, w, k);
      }
      hide Inv, Record, Pass, AdvanceStep, DepsSucceeded;
      SettledLost(Pass(s1, w, |s.def.steps|), |s.rows|);
    }
  }

  lemma SettledLost(p: State, n: nat)
    requires Newest(p.rows, n)
    ensures |Settle(p).rows| == |p.rows| && SameKey(p.rows[n], Settle(p).rows[n])
    ensures p.rows[n].state == Failed ==> Settle(p).status == Failed_
    ensures !AnyBad(p.rows) && p.rows[n].state == Running ==> Settle(p) == p
  {}

  // ---------------------------------------------------------------- an operator's retry

  predicate Unfinished(sr: StepRun) { sr.state == Skipped || sr.state == Cancelled }

  /** The listed rows that were skipped or cancelled go back to pending where they are. */
  function InPlace(rows: seq<StepRun>, cur: seq<nat>): seq<StepRun> {
    seq(|rows|, i requires 0 <= i < |rows| => if i in cur && Unfinished(rows[i]) then ReopenRow(rows[i]) else rows[i])
  }

  /** One further attempt for each of the listed rows that failed, in their order. */
  function Further(rows: seq<StepRun>, cur: seq<nat>): seq<StepRun>
    requires forall k :: 0 <= k < |cur| ==> cur[k] < |rows|
  {
    if cur == [] then []
    else (if rows[cur[0]].state == Failed then [NextAttempt(rows[cur[0]])] else []) + Further(rows, cur[1..])
  }

  lemma {:induction false} FurtherSame(rows: seq<StepRun>, rows': seq<StepRun>, cur: seq<nat>)
    requires |rows| <= |rows'| && forall k :: 0 <= k < |cur| ==> cur[k] < |rows| && rows'[cur[k]] == rows[cur[k]]
    ensures Further(rows', cur) == Further(rows, cur)
  {
    if cur != [] {
      FurtherSame(rows, rows', cur[1..]);
    }
  }

  /** One turn of the loop: the rows in place and the further attempts it accounts for. */
  lemma ReopenOneInPlace(rows: seq<StepRun>, cur: seq<nat>)
    requires DistinctRows(cur, |rows|) && cur != []
    ensures var rows1 := ReopenOne(rows, cur[0]);
            && DistinctRows(cur[1..], |rows1|) && Further(rows1, cur[1..]) == Further(rows, cur[1..])
            && (rows[cur[0]].state == Failed ==>
                  InPlace(rows1, cur[1..]) == InPlace(rows, cur) + [NextAttempt(rows[cur[0]])])
            && (rows[cur[0]].state != Failed ==> InPlace(rows1, cur[1..]) == InPlace(rows, cur))
  {
    hide Further, InPlace;
    var rest, rows1 := cur[1..], ReopenOne(rows, cur[0]);
    assert forall k :: 0 <= k < |rest| ==> rest[k] == cur[k + 1];
    FurtherSame(rows, rows1, rest);
    ListedFirst(cur);
    if rows[cur[0]].state == Failed {
      AppendedInPlace(rows, NextAttempt(rows[cur[0]]), rest);
      UnlistedInPlace(rows, cur, rest);
    } else {
      UpdatedInPlace(rows, rows1, cur, rest);
    }
  }

  lemma UnlistedInPlace(rows: seq<StepRun>, cur: seq<nat>, rest: seq<nat>)
    requires cur != [] && cur[0] < |rows| && !Unfinished(rows[cur[0]])
    requires forall i :: i in cur <==> i == cur[0] || i in rest
    ensures InPlace(rows, cur) == InPlace(rows, rest)
  {}

  lemma UpdatedInPlace(rows: seq<StepRun>, rows1: seq<StepRun>, cur: seq<nat>, rest: seq<nat>)
    requires cur != [] && cur[0] < |rows| && cur[0] !in rest && |rows1| == |rows|
    requires forall i :: i in cur <==> i == cur[0] || i in rest
    requires rows1[cur[0]] == if Unfinished(rows[cur[0]]) then ReopenRow(rows[cur[0]]) else rows[cur[0]]
    requires forall i :: 0 <= i < |rows| && i != cur[0] ==> rows1[i] == rows[i]
    ensures InPlace(rows1, rest) == InPlace(rows, cur)
  {}

  lemma ListedFirst(cur: seq<nat>)
    requires cur != [] && forall k, l :: 0 <= k < l < |cur| ==> cur[k] != cur[l]
    ensures cur[0] !in cur[1..] && forall i :: i in cur <==> i == cur[0] || i in cur[1..]
  {
    assert forall k :: 0 <= k < |cur[1..]| ==> cur[1..][k] == cur[k + 1];
    assert cur == [cur[0]] + cur[1..];
  }

  /** The loop over the listed rows, said at once. */
  lemma {:induction false} ReopenedAtOnce(rows: seq<StepRun>, cur: seq<nat>)
    requires DistinctRows(cur, |rows|)
    ensures ReopenRows(rows, cur) == InPlace(rows, cur) + Further(rows, cur)
    decreases |cur|
  {
    hide ReopenOne, DistinctRows;
    if cur == [] {
      assert InPlace(rows, cur) + Further(rows, cur) == rows;
    } else {
      ReopenOneInPlace(rows, cur);
      InRange(rows, cur);
      ReopenedAtOnce(ReopenOne(rows, cur[0]), cur[1..]);
      if rows[cur[0]].state == Failed {
        assert InPlace(rows, cur) + [NextAttempt(rows[cur[0]])] + Further(rows, cur[1..])
            == InPlace(rows, cur) + ([NextAttempt(rows[cur[0]])] + Further(rows, cur[1..]));
      } else {
        assert [] + Further(rows, cur[1..]) == Further(rows, cur[1..]);
      }
    }
  }

  lemma InRange(rows: seq<StepRun>, cur: seq<nat>)
    requires DistinctRows(cur, |rows|)
    ensures forall k :: 0 <= k < |cur| ==> cur[k] < |rows|
  {}

  lemma AppendedInPlace(rows: seq<StepRun>, x: StepRun, cur: seq<nat>)
    requires forall k :: 0 <= k < |cur| ==> cur[k] < |rows|
    ensures InPlace(rows + [x], cur) == InPlace(rows, cur) + [x]
  {}

  lemma {:induction false} FurtherIs(rows: seq<StepRun>, cur: seq<nat>)
    requires forall k :: 0 <= k < |cur| ==> cur[k] < |rows|
    ensures forall x :: x in Further(rows, cur) <==>
        exists k :: 0 <= k < |cur| && rows[cur[k]].state == Failed && x == NextAttempt(rows[cur[k]])
  {
    if cur != [] {
      FurtherIs(rows, cur[1..]);
      assert forall k :: 0 <= k < |cur[1..]| ==> cur[1..][k] == cur[k + 1];
      forall x ensures x in Further(rows, cur) <==>
          exists k :: 0 <= k < |cur| && rows[cur[k]].state == Failed && x == NextAttempt(rows[cur[k]]) {
        if k :| 0 <= k < |cur| && rows[cur[k]].state == Failed && x == NextAttempt(rows[cur[k]]) {
          assert k > 0 ==> rows[cur[1..][k - 1]].state == Failed && x == NextAttempt(rows[cur[1..][k - 1]]);
        }
      }
    }
  }

  /** What the retried table is, row by row: only newest attempts are touched, and what was added are next attempts of
      newest attempts that failed, each of them once. */
  lemma RetryReopensExactly(rows: seq<StepRun>)
    ensures var rows' := ReopenRows(rows, CurrentRows(rows));
            && |rows| <= |rows'|
            && (forall i :: 0 <= i < |rows| ==>
                  rows'[i] == if Newest(rows, i) && Unfinished(rows[i]) then ReopenRow(rows[i]) else rows[i])
            && rows'[|rows|..] == Further(rows, CurrentRows(rows))
            && (forall x :: x in rows'[|rows|..] <==>
                exists i :: Newest(rows, i) && rows[i].state == Failed && x == NextAttempt(rows[i]))
            && (forall i, j :: |rows| <= i < j < |rows'| ==> !SameSlot(rows'[i], rows'[j]))
  {
    hide Newest;
    var cur := CurrentRows(rows);
    CurrentIsNewest(rows);
    CurrentInRange(rows);
    ReopenedAtOnce(rows, cur);
    FurtherIs(rows, cur);
    var rows' := ReopenRows(rows, cur);
    assert rows'[|rows|..] == Further(rows, cur);
    forall x ensures x in rows'[|rows|..] <==>
        exists i :: Newest(rows, i) && rows[i].state == Failed && x == NextAttempt(rows[i]) {
      CurrentFailed(rows, cur, x);
    }
    FurtherApart(rows, cur);
    forall i, j | |rows| <= i < j < |rows'| ensures !SameSlot(rows'[i], rows'[j]) {
      assert rows'[i] == Further(rows, cur)[i - |rows|] && rows'[j] == Further(rows, cur)[j - |rows|];
    }
  }

  lemma CurrentInRange(rows: seq<StepRun>)
    ensures forall k :: 0 <= k < |CurrentRows(rows)| ==> CurrentRows(rows)[k] < |rows|
    ensures forall k, l :: 0 <= k < l < |CurrentRows(rows)| ==>
              !SameSlot(rows[CurrentRows(rows)[k]], rows[CurrentRows(rows)[l]])
    ensures forall i :: Newest(rows, i) ==> 0 <= i < |rows|
  {
    CurrentIsNewest(rows);
    NewestUnique(rows);
  }

  lemma CurrentFailed(rows: seq<StepRun>, cur: seq<nat>, x: StepRun)
    requires forall i :: Newest(rows, i) <==> i in cur
    requires forall k :: 0 <= k < |cur| ==> cur[k] < |rows|
    ensures (exists k :: 0 <= k < |cur| && rows[cur[k]].state == Failed && x == NextAttempt(rows[cur[k]]))
        <==> exists i :: Newest(rows, i) && rows[i].state == Failed && x == NextAttempt(rows[i])
  {
    hide Newest;
    if i :| i in cur && rows[i].state == Failed && x == NextAttempt(rows[i]) {
      var k :| 0 <= k < |cur| && cur[k] == i;
    }
  }

  lemma {:induction false} FurtherApart(rows: seq<StepRun>, cur: seq<nat>)
    requires forall k :: 0 <= k < |cur| ==> cur[k] < |rows|
    requires forall k, l :: 0 <= k < l < |cur| ==> !SameSlot(rows[cur[k]], rows[cur[l]])
    ensures forall i, j :: 0 <= i < j < |Further(rows, cur)| ==> !SameSlot(Further(rows, cur)[i], Further(rows, cur)[j])
  {
    if cur != [] {
      var rest := cur[1..];
      assert forall k :: 0 <= k < |rest| ==> rest[k] == cur[k + 1];
      FurtherApart(rows, rest);
      FurtherIs(rows, rest);
      forall x | x in Further(rows, rest) ensures !SameSlot(rows[cur[0]], x) {
        var k :| 0 <= k < |rest| && rows[rest[k]].state == Failed && x == NextAttempt(rows[rest[k]]);
        assert !SameSlot(rows[cur[0]], rows[cur[k + 1]]);
      }
      var all, tail := Further(rows, cur), Further(rows, rest);
      var n := |all| - |tail|;
      assert forall i :: n <= i < |all| ==> all[i] == tail[i - n];
      forall i, j | 0 <= i < j < |all| ensures !SameSlot(all[i], all[j]) {
        assert tail[j - n] in tail;
      }
    }
  }
}
