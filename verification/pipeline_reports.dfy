/** The list of reports a fanned-out node hands to its dependents lines up with its items. */
module PipelineReports {
  import opened Wrappers
  import opened Definitions
  import opened StepRows
  import opened RunState
  import opened AdvanceProofs
  import opened Invariants
  import opened History

  /** The reports of node id among the given current attempts, in their order. */
  function ReportsOf(rows: seq<StepRun>, cur: seq<nat>, id: string): seq<string>
    requires forall k :: 0 <= k < |cur| ==> cur[k] < |rows|
  {
    if cur == [] then []
    else
      var sr := rows[cur[0]];
      (if sr.stepID == id && sr.state == Success && sr.runID.Some? then [sr.report] else [])
        + ReportsOf(rows, cur[1..], id)
  }

  /** Node id was expanded from these items: their first attempts are the rows from b on, in item
      order, every other row of the node is a later attempt of one of them, and every one that
      succeeded did so through a run. */
  ghost predicate FannedOut(rows: seq<StepRun>, id: string, items: seq<string>, b: nat) {
    && items != [] && b + |items| <= |rows|
    && (forall j :: b <= j < b + |items| ==> IsItem(rows[j], id, j - b, items[j - b]))
    && (forall i :: 0 <= i < |rows| && rows[i].stepID == id ==>
          && b <= i && rows[i].index < |items| && rows[i].item == items[rows[i].index]
          && (i < b + |items| || rows[i].attempt > 1))
    && HasRuns(rows, id)
  }

  predicate IsItem(sr: StepRun, id: string, index: nat, item: string) {
    sr.stepID == id && sr.index == index && sr.item == item && sr.attempt == 1
  }

  ghost predicate HasRuns(rows: seq<StepRun>, id: string) {
    forall i :: 0 <= i < |rows| && rows[i].stepID == id && rows[i].state == Success ==> rows[i].runID.Some?
  }

  // ---------------------------------------------------------------- the list itself

  lemma {:induction false} ReportsAppend(rows: seq<StepRun>, cur: seq<nat>, i: nat, id: string)
    requires (forall k :: 0 <= k < |cur| ==> cur[k] < |rows|) && i < |rows|
    ensures ReportsOf(rows, cur + [i], id) == ReportsOf(rows, cur, id) + ReportsOf(rows, [i], id)
  {
    if cur == [] {
      assert cur + [i] == [i];
    } else {
      ReportsAppend(rows, cur[1..], i, id);
      assert (cur + [i])[1..] == cur[1..] + [i];
    }
  }

  ghost function ItemReports(rows: seq<StepRun>, b: nat, n: nat): seq<string>
    requires b + n <= |rows|
  {
    seq(n, j requires 0 <= j < n => rows[NewestIn(rows, b + j)].report)
  }

  /** The slots of the node first appear exactly in the rows it was expanded into. */
  lemma WindowIsFirst(rows: seq<StepRun>, id: string, items: seq<string>, b: nat, i: nat)
    requires FannedOut(rows, id, items, b) && i < |rows|
    ensures rows[i].stepID == id && FirstOf(rows, i) == i <==> b <= i < b + |items|
  {
    var f := FirstOf(rows, i);
    if b <= i < b + |items| {
      assert IsItem(rows[i], id, i - b, items[i - b]);
      assert b <= f;
      assert IsItem(rows[f], id, f - b, items[f - b]);
    }
    if rows[i].stepID == id && f == i {
      var j := b + rows[i].index;
      assert IsItem(rows[j], id, j - b, items[j - b]);
      assert SameSlot(rows[j], rows[i]);
    }
  }

  /** What the slot that first appears in row i adds to the list. */
  lemma SlotReports(rows: seq<StepRun>, id: string, items: seq<string>, b: nat, i: nat)
    requires FannedOut(rows, id, items, b) && StateOf(rows, id) == Succeeded
    requires i < |rows| && FirstOf(rows, i) == i
    ensures ReportsOf(rows, [NewestIn(rows, i)], id)
         == if b <= i < b + |items| then [rows[NewestIn(rows, i)].report] else []
  {
    var k := NewestIn(rows, i);
    WindowIsFirst(rows, id, items, b, i);
    SucceededMeans(rows, id);
    assert rows[i].stepID == id ==> NewestOf(rows, id, k);
  }

  function Clamp(n: nat, b: nat, size: nat): nat {
    if n <= b then 0 else if n <= b + size then n - b else size
  }

  lemma ReportsOfNone(rows: seq<StepRun>, b: nat, id: string)
    requires b <= |rows|
    ensures ReportsOf(rows, [], id) == ItemReports(rows, b, 0)
  {}

  lemma ItemReportsNext(rows: seq<StepRun>, b: nat, n: nat)
    requires b + n < |rows|
    ensures ItemReports(rows, b, n + 1) == ItemReports(rows, b, n) + [rows[NewestIn(rows, b + n)].report]
  {}

  lemma {:induction false} ReportsBelow(rows: seq<StepRun>, id: string, items: seq<string>, b: nat, n: nat)
    requires FannedOut(rows, id, items, b) && StateOf(rows, id) == Succeeded && n <= |rows|
    requires b + |items| <= |rows|
    ensures ReportsOf(rows, CurrentBelow(rows, n), id) == ItemReports(rows, b, Clamp(n, b, |items|))
    decreases n
  {
    hide FannedOut, StateOf, ReportsOf, ItemReports;
    if n == 0 {
      ReportsOfNone(rows, b, id);
    } else {
      var i := n - 1;
      ReportsBelow(rows, id, items, b, i);
      WindowIsFirst(rows, id, items, b, i);
      if FirstOf(rows, i) == i {
        ReportsAppend(rows, CurrentBelow(rows, i), NewestIn(rows, i), id);
        SlotReports(rows, id, items, b, i);
        if b <= i < b + |items| {
          ItemReportsNext(rows, b, i - b);
        }
      }
    }
  }

  /** The newest attempt at item j, which is this item, succeeded and reported this. */
  ghost predicate NewestReport(rows: seq<StepRun>, id: string, j: nat, item: string, report: string) {
    exists k :: NewestOf(rows, id, k) && rows[k].index == j && rows[k].item == item && rows[k].state == Success
                && rows[k].report == report
  }

  lemma ItemReport(rows: seq<StepRun>, id: string, items: seq<string>, b: nat, j: nat)
    requires FannedOut(rows, id, items, b) && StateOf(rows, id) == Succeeded && j < |items|
    ensures b + j < |rows| && NewestReport(rows, id, j, items[j], rows[NewestIn(rows, b + j)].report)
  {
    assert IsItem(rows[b + j], id, b + j - b, items[b + j - b]);
    SucceededMeans(rows, id);
    assert NewestOf(rows, id, NewestIn(rows, b + j));
  }

  lemma FannedOutFits(rows: seq<StepRun>, id: string, items: seq<string>, b: nat)
    requires FannedOut(rows, id, items, b)
    ensures b + |items| <= |rows|
  {}

  /** Whatever order items finished or were retried in, entry j is the newest report of item j. */
  lemma ReportsLineUp(rows: seq<StepRun>, id: string, items: seq<string>, b: nat)
    requires FannedOut(rows, id, items, b) && StateOf(rows, id) == Succeeded
    ensures var reports := ReportsOf(rows, CurrentRows(rows), id);
            && |reports| == |items|
            && forall j :: 0 <= j < |items| ==> NewestReport(rows, id, j, items[j], reports[j])
  {
    hide FannedOut, StateOf, NewestReport;
    FannedOutFits(rows, id, items, b);
    ReportsBelow(rows, id, items, b, |rows|);
    assert ReportsOf(rows, CurrentRows(rows), id) == ItemReports(rows, b, |items|);
    forall j | 0 <= j < |items| ensures NewestReport(rows, id, j, items[j], ItemReports(rows, b, |items|)[j]) {
      ItemReport(rows, id, items, b, j);
    }
  }

  // ---------------------------------------------------------------- the shape is never lost

  /** Node id gained at most later attempts of slots it already had. */
  ghost predicate NodeGrows(rows: seq<StepRun>, rows': seq<StepRun>, id: string) {
    && |rows| <= |rows'|
    && (forall i :: 0 <= i < |rows| ==> SameKey(rows[i], rows'[i]))
    && (forall i :: |rows| <= i < |rows'| && rows'[i].stepID == id ==>
        rows'[i].attempt > 1 && SlotBelow(rows', |rows|, i))
    && (HasRuns(rows, id) ==> HasRuns(rows', id))
  }

  ghost predicate SlotBelow(rows: seq<StepRun>, n: nat, i: int) {
    n <= |rows| && 0 <= i < |rows| && exists j :: 0 <= j < n && SameItem(rows[j], rows[i])
  }

  lemma FannedOutStays(rows: seq<StepRun>, rows': seq<StepRun>, id: string, items: seq<string>, b: nat)
    requires FannedOut(rows, id, items, b) && NodeGrows(rows, rows', id)
    ensures FannedOut(rows', id, items, b)
  {
    forall j | b <= j < b + |items| ensures IsItem(rows'[j], id, j - b, items[j - b]) {
      assert IsItem(rows[j], id, j - b, items[j - b]) && SameKey(rows[j], rows'[j]);
    }
    forall i | 0 <= i < |rows'| && rows'[i].stepID == id
      ensures b <= i && rows'[i].index < |items| && rows'[i].item == items[rows'[i].index]
      ensures i < b + |items| || rows'[i].attempt > 1
    {
      if i < |rows| {
        assert SameKey(rows[i], rows'[i]);
      } else {
        assert SlotBelow(rows', |rows|, i);
        var j :| 0 <= j < |rows| && SameItem(rows'[j], rows'[i]);
        assert SameKey(rows[j], rows'[j]);
      }
    }
  }

  lemma NodeGrowsTrans(a: seq<StepRun>, m: seq<StepRun>, c: seq<StepRun>, id: string)
    requires NodeGrows(a, m, id) && NodeGrows(m, c, id)
    ensures NodeGrows(a, c, id)
  {
    forall i | 0 <= i < |a| ensures SameKey(a[i], c[i]) {
      assert SameKey(a[i], m[i]) && SameKey(m[i], c[i]);
    }
    forall i | |a| <= i < |c| && c[i].stepID == id ensures c[i].attempt > 1 && SlotBelow(c, |a|, i) {
      if i < |m| {
        assert SameKey(m[i], c[i]);
        assert SlotBelow(m, |a|, i);
        var j :| 0 <= j < |a| && SameItem(m[j], m[i]);
        assert SameKey(m[j], c[j]);
      } else {
        assert SlotBelow(c, |m|, i);
        var j :| 0 <= j < |m| && SameItem(c[j], c[i]);
        if j >= |a| {
          assert SameKey(m[j], c[j]);
          assert SlotBelow(m, |a|, j);
          var l :| 0 <= l < |a| && SameItem(m[l], m[j]);
          assert SameKey(m[l], c[l]);
          assert SameItem(c[l], c[i]);
        }
      }
    }
  }

  lemma NodeGrowsRefl(rows: seq<StepRun>, id: string)
    ensures NodeGrows(rows, rows, id)
  {}

  lemma AdvanceStepNodeGrows(s: State, w: World, step: Step, id: string)
    requires StateOf(s.rows, id) != Absent
    ensures NodeGrows(s.rows, AdvanceStep(s, w, step).rows, id)
    ensures StateOf(AdvanceStep(s, w, step).rows, id) != Absent
  {
    var s' := AdvanceStep(s, w, step);
    AdvanceStepFrame(s, w, step);
    AbsentHasNoRows(s.rows, id);
    AbsentHasNoRows(s'.rows, id);
    if id == step.id {
      forall i | 0 <= i < |s'.rows| ensures s'.rows[i].state == Success ==> s'.rows[i] == s.rows[i] {
        StartRowsAt(s.rows, w, id, i);
      }
    }
  }

  lemma {:induction false} PassNodeGrows(s: State, w: World, from: nat, k: nat, id: string)
    requires from <= k <= |s.def.steps| && StateOf(Pass(s, w, from).rows, id) != Absent
    ensures NodeGrows(Pass(s, w, from).rows, Pass(s, w, k).rows, id)
    ensures StateOf(Pass(s, w, k).rows, id) != Absent
    decreases k
  {
    hide NodeGrows, StateOf, AdvanceStep;
    if k == from {
      NodeGrowsRefl(Pass(s, w, from).rows, id);
    } else {
      PassNodeGrows(s, w, from, k - 1, id);
      AdvanceStepNodeGrows(Pass(s, w, k - 1), w, s.def.steps[k - 1], id);
      NodeGrowsTrans(Pass(s, w, from).rows, Pass(s, w, k - 1).rows, Pass(s, w, k).rows, id);
    }
  }

  lemma StopNodeGrows(rows: seq<StepRun>, p: StepState, r: StepState, id: string)
    requires p != Success && r != Success
    ensures NodeGrows(rows, StopRows(rows, p, r), id)
  {}

  lemma SettleNodeGrows(s: State, id: string)
    ensures NodeGrows(s.rows, Settle(s).rows, id)
  {
    hide NodeGrows, AnyBad, AnyBusy, StopRows;
    NodeGrowsRefl(s.rows, id);
    StopNodeGrows(s.rows, Skipped, Cancelled, id);
  }

  lemma AdvanceNodeGrows(s: State, w: World, id: string)
    requires StateOf(s.rows, id) != Absent
    ensures NodeGrows(s.rows, Advance(s, w).rows, id)
  {
    hide NodeGrows, StateOf, Settle, AdvanceStep;
    NodeGrowsRefl(s.rows, id);
    if !s.status.Terminal() {
      var p := Pass(s, w, |s.def.steps|);
      PassNodeGrows(s, w, 0, |s.def.steps|, id);
      SettleNodeGrows(p, id);
      NodeGrowsTrans(s.rows, p.rows, Settle(p).rows, id);
    }
  }

  lemma RecordNodeGrows(s: State, r: RunId, id: string)
    requires Records(s, r) && s.rows[r.row].runID.Some? && s.rows[r.row].attempt >= 1
    ensures NodeGrows(s.rows, Record(s, r).rows, id)
  {
    var s' := Record(s, r);
    if |s'.rows| > |s.rows| {
      assert SameItem(s'.rows[r.row], s'.rows[|s.rows|]);
    }
  }

  lemma ReopenOneGrows(rows: seq<StepRun>, i: nat, id: string)
    requires i < |rows| && rows[i].attempt >= 1
    ensures NodeGrows(rows, ReopenOne(rows, i), id)
  {
    var rows' := ReopenOne(rows, i);
    if rows[i].state == Failed {
      assert SameItem(rows'[i], rows'[|rows|]);
    }
  }

  lemma {:induction false} ReopenNodeGrows(rows: seq<StepRun>, cur: seq<nat>, id: string)
    requires forall k :: 0 <= k < |cur| ==> cur[k] < |rows| && rows[cur[k]].attempt >= 1
    ensures NodeGrows(rows, ReopenRows(rows, cur), id)
    decreases |cur|
  {
    hide NodeGrows;
    if cur == [] {
      NodeGrowsRefl(rows, id);
    } else {
      var rows1 := ReopenOne(rows, cur[0]);
      ReopenOneGrows(rows, cur[0], id);
      forall k | 0 <= k < |cur[1..]| ensures cur[1..][k] < |rows1| && rows1[cur[1..][k]].attempt >= 1 {
        assert cur[1..][k] == cur[k + 1];
      }
      ReopenNodeGrows(rows1, cur[1..], id);
      assert ReopenRows(rows, cur) == ReopenRows(rows1, cur[1..]);
      NodeGrowsTrans(rows, rows1, ReopenRows(rows, cur), id);
    }
  }

  // ---------------------------------------------------------------- every event

  lemma NodeStaysPresent(rows: seq<StepRun>, rows': seq<StepRun>, id: string)
    requires NodeGrows(rows, rows', id) && StateOf(rows, id) != Absent
    ensures StateOf(rows', id) != Absent
  {
    AbsentHasNoRows(rows, id);
    AbsentHasNoRows(rows', id);
    var i :| 0 <= i < |rows| && rows[i].stepID == id;
    assert SameKey(rows[i], rows'[i]);
  }

  lemma CompleteNodeGrows(s: State, r: RunId, w: World, id: string)
    requires Inv(s) && StateOf(s.rows, id) != Absent
    ensures NodeGrows(s.rows, CompleteStep(s, r, w).rows, id)
  {
    NodeGrowsRefl(s.rows, id);
    if Records(s, r) {
      MessageFindsRunning(s, r);
      hide NodeGrows, StateOf, Advance, Newest, NeedsDone, Increasing, Consecutive, OldFailed;
      var s1 := Record(s, r);
      RecordNodeGrows(s, r, id);
      NodeStaysPresent(s.rows, s1.rows, id);
      AdvanceNodeGrows(s1, w, id);
      NodeGrowsTrans(s.rows, s1.rows, Advance(s1, w).rows, id);
    }
  }

  lemma {:induction false} ReconcileNodeGrows(s: State, snapshot: seq<StepRun>, w: World, id: string)
    requires Inv(s) && StateOf(s.rows, id) != Absent
    ensures NodeGrows(s.rows, Reconcile(s, snapshot, w).rows, id)
    decreases |snapshot|
  {
    hide Inv, NodeGrows, StateOf, CompleteStep;
    NodeGrowsRefl(s.rows, id);
    if snapshot != [] {
      var s1 := SweepRow(s, snapshot[0], w);
      if Stranded(s, snapshot[0]) {
        CompleteNodeGrows(s, snapshot[0].runID.value, w, id);
        CompleteKeeps(s, snapshot[0].runID.value, w);
      }
      NodeStaysPresent(s.rows, s1.rows, id);
      var w1 := w.(serial := w.serial + 1);
      ReconcileNodeGrows(s1, snapshot[1..], w1, id);
      NodeGrowsTrans(s.rows, s1.rows, Reconcile(s1, snapshot[1..], w1).rows, id);
    }
  }

  lemma RetryNodeGrows(s: State, w: World, id: string)
    requires Inv(s) && StateOf(s.rows, id) != Absent
    ensures NodeGrows(s.rows, RetryFailed(s, w).rows, id)
  {
    hide NodeGrows, StateOf, Advance, AnyBad, NeedsDone, Increasing, Consecutive, OldFailed;
    NodeGrowsRefl(s.rows, id);
    if s.status.Terminal() && AnyBad(s.rows) {
      var cur := CurrentRows(s.rows);
      var s1 := s.(rows := ReopenRows(s.rows, cur), status := Live);
      ReopenNodeGrows(s.rows, cur, id);
      NodeStaysPresent(s.rows, s1.rows, id);
      AdvanceNodeGrows(s1, w, id);
      NodeGrowsTrans(s.rows, s1.rows, Advance(s1, w).rows, id);
    }
  }

  lemma NextNodeGrows(s: State, e: Event, id: string)
    requires Inv(s) && StateOf(s.rows, id) != Absent
    ensures NodeGrows(s.rows, Next(s, e).rows, id)
  {
    hide Inv, NodeGrows, StateOf, CompleteStep, Reconcile, RetryFailed, StopRows;
    NodeGrowsRefl(s.rows, id);
    match e
    case Finished(r, result) =>
    case Message(r, w) => CompleteNodeGrows(s, r, w, id);
    case Cancelling => StopNodeGrows(s.rows, Cancelled, Cancelled, id);
    case Ticking(now, w) =>
      ReconcileNodeGrows(s, s.rows, w, id);
      StopNodeGrows(s.rows, Cancelled, Cancelled, id);
    case Retrying(w) => RetryNodeGrows(s, w, id);
  }

  lemma {:induction false} HistoryNodeGrows(s: State, es: seq<Event>, id: string)
    requires Inv(s) && StateOf(s.rows, id) != Absent
    ensures NodeGrows(s.rows, Exec(s, es).rows, id)
    decreases |es|
  {
    hide Inv, NodeGrows, StateOf, Next;
    NodeGrowsRefl(s.rows, id);
    if es != [] {
      var front := es[..|es| - 1];
      HistoryNodeGrows(s, front, id);
      HistoryInv(s, front);
      NodeStaysPresent(s.rows, Exec(s, front).rows, id);
      NextNodeGrows(Exec(s, front), es[|es| - 1], id);
      NodeGrowsTrans(s.rows, Exec(s, front).rows, Exec(s, es).rows, id);
    }
  }

  // ---------------------------------------------------------------- from the expansion to the end

  lemma ExpandFansOut(s: State, w: World, step: Step, items: seq<string>)
    requires StateOf(s.rows, step.id) == Absent && step.over != ""
    requires w.fan(step.id) == Items(items) && 1 <= |items| <= MAX_FANOUT
    ensures FannedOut(Expand(s, w, step).rows, step.id, items, |s.rows|)
  {
    var rows' := Expand(s, w, step).rows;
    AbsentHasNoRows(s.rows, step.id);
    forall j | |s.rows| <= j < |rows'|
      ensures rows'[j] == PendingRow(step.id, j - |s.rows|, items[j - |s.rows|], 1)
    {}
    assert forall j :: |s.rows| <= j < |s.rows| + |items| ==>
        IsItem(rows'[j], step.id, j - |s.rows|, items[j - |s.rows|]);
  }

  lemma StepFansOut(s: State, w: World, step: Step, items: seq<string>)
    requires StateOf(s.rows, step.id) == Absent && step.over != "" && DepsSucceeded(s.rows, step)
    requires w.fan(step.id) == Items(items) && 1 <= |items| <= MAX_FANOUT
    ensures FannedOut(AdvanceStep(s, w, step).rows, step.id, items, |s.rows|)
  {
    var s1 := Expand(s, w, step);
    ExpandFansOut(s, w, step, items);
    var rows' := StartRows(s1.rows, w, step.id);
    forall i | 0 <= i < |s1.rows|
      ensures SameKey(s1.rows[i], rows'[i]) && (rows'[i].state == Success ==> rows'[i] == s1.rows[i])
    {
      StartRowsAt(s1.rows, w, step.id, i);
    }
    FannedOutStays(s1.rows, rows', step.id, items, |s.rows|);
  }

  lemma {:induction false} PassLeavesAbsent(s: State, w: World, k: nat, j: nat)
    requires WellOrdered(s.def) && k <= j < |s.def.steps| && StateOf(s.rows, s.def.steps[j].id) == Absent
    ensures StateOf(Pass(s, w, k).rows, s.def.steps[j].id) == Absent
    decreases k
  {
    if k > 0 {
      PassLeavesAbsent(s, w, k - 1, j);
      var s1, step := Pass(s, w, k - 1), s.def.steps[k - 1];
      AdvanceStepFrame(s1, w, step);
      TouchesOnlyLeaves(s1.rows, AdvanceStep(s1, w, step).rows, step.id, s.def.steps[j].id);
    }
  }

  /** A node the advance expands from a list keeps the shape of that list to the end of the call. */
  lemma AdvanceFansOut(s: State, w: World, j: nat, items: seq<string>) returns (b: nat)
    requires WellOrdered(s.def) && !s.status.Terminal() && j < |s.def.steps|
    requires s.def.steps[j].over != "" && StateOf(s.rows, s.def.steps[j].id) == Absent
    requires w.fan(s.def.steps[j].id) == Items(items) && 1 <= |items| <= MAX_FANOUT
    requires DepsSucceeded(Pass(s, w, j).rows, s.def.steps[j])
    ensures FannedOut(Advance(s, w).rows, s.def.steps[j].id, items, b)
  {
    hide NodeGrows, FannedOut, Settle, AdvanceStep, DepsSucceeded, StateOf;
    var step, n := s.def.steps[j], |s.def.steps|;
    b := |Pass(s, w, j).rows|;
    PassLeavesAbsent(s, w, j, j);
    StepFansOut(Pass(s, w, j), w, step, items);
    var s1 := Pass(s, w, j + 1);
    FannedOutPresent(s1.rows, step.id, items, b);
    PassNodeGrows(s, w, j + 1, n, step.id);
    SettleNodeGrows(Pass(s, w, n), step.id);
    NodeGrowsTrans(s1.rows, Pass(s, w, n).rows, Advance(s, w).rows, step.id);
    FannedOutStays(s1.rows, Advance(s, w).rows, step.id, items, b);
  }

  lemma FannedOutPresent(rows: seq<StepRun>, id: string, items: seq<string>, b: nat)
    requires FannedOut(rows, id, items, b)
    ensures StateOf(rows, id) != Absent
  {
    assert IsItem(rows[b], id, 0, items[0]);
    AbsentHasNoRows(rows, id);
  }

  /** From the call that expanded node j from n items, through any further history of finishes,
      retries, cancellations and sweeps: once the node has succeeded its reports are n long and
      entry i is what the newest attempt of item i reported. */
  lemma FanOutReports(s: State, w: World, j: nat, items: seq<string>, es: seq<Event>)
    requires Core(s) && s.status == Live && j < |s.def.steps|
    requires s.def.steps[j].over != "" && StateOf(s.rows, s.def.steps[j].id) == Absent
    requires w.fan(s.def.steps[j].id) == Items(items) && 1 <= |items| <= 25
    requires DepsSucceeded(Pass(s, w, j).rows, s.def.steps[j])
    ensures var rows, id := Exec(Advance(s, w), es).rows, s.def.steps[j].id;
            StateOf(rows, id) == Succeeded ==>
              var reports := ReportsOf(rows, CurrentRows(rows), id);
              && |reports| == |items|
              && forall i :: 0 <= i < |items| ==> NewestReport(rows, id, i, items[i], reports[i])
  {
    hide Core, Inv, NodeGrows, FannedOut, Advance;
    var id := s.def.steps[j].id;
    InvFromAdvance(s, w);
    var b := AdvanceFansOut(s, w, j, items);
    var s1 := Advance(s, w);
    FannedOutPresent(s1.rows, id, items, b);
    HistoryNodeGrows(s1, es, id);
    FannedOutStays(s1.rows, Exec(s1, es).rows, id, items, b);
    if StateOf(Exec(s1, es).rows, id) == Succeeded {
      ReportsLineUp(Exec(s1, es).rows, id, items, b);
    }
  }

  lemma InvFromAdvance(s: State, w: World)
    requires Core(s) && s.status == Live
    ensures WellOrdered(s.def) && Inv(Advance(s, w))
  {
    AdvanceInv(s, w);
  }

  // ---------------------------------------------------------------- a list that could not be used

  /** Node id has no slot but the first. */
  ghost predicate OneSlot(rows: seq<StepRun>, id: string) {
    forall i :: 0 <= i < |rows| && rows[i].stepID == id ==> rows[i].index == 0
  }

  lemma OneSlotStays(rows: seq<StepRun>, rows': seq<StepRun>, id: string)
    requires OneSlot(rows, id) && NodeGrows(rows, rows', id)
    ensures OneSlot(rows', id)
  {
    forall i | 0 <= i < |rows'| && rows'[i].stepID == id ensures rows'[i].index == 0 {
      if i < |rows| {
        assert SameKey(rows[i], rows'[i]);
      } else {
        assert SlotBelow(rows', |rows|, i);
        var j :| 0 <= j < |rows| && SameItem(rows'[j], rows'[i]);
        assert SameKey(rows[j], rows'[j]);
      }
    }
  }

  predicate NoUsableList(fan: FanOut) {
    fan.NotAList? || |fan.items| > 25 || fan.items == []
  }

  lemma ExpandMarks(s: State, w: World, step: Step)
    requires StateOf(s.rows, step.id) == Absent && step.over != "" && NoUsableList(w.fan(step.id))
    ensures OneSlot(Expand(s, w, step).rows, step.id)
  {
    hide StateOf;
    AbsentHasNoRows(s.rows, step.id);
    assert |NewRows(step, w.fan(step.id))| == 1;
  }

  lemma StepMarks(s: State, w: World, step: Step)
    requires StateOf(s.rows, step.id) == Absent && step.over != "" && DepsSucceeded(s.rows, step)
    requires NoUsableList(w.fan(step.id))
    ensures OneSlot(AdvanceStep(s, w, step).rows, step.id)
    ensures StateOf(AdvanceStep(s, w, step).rows, step.id) != Absent
  {
    hide StateOf, Expand, StartRows, NewRows, NoUsableList, DepsSucceeded;
    var s1 := Expand(s, w, step);
    ExpandMarks(s, w, step);
    ExpandFrame(s, w, step);
    StartRowsFrame(s1.rows, w, step.id);
    AbsentHasNoRows(s1.rows, step.id);
    AbsentHasNoRows(StartRows(s1.rows, w, step.id), step.id);
  }

  /** A node whose list was empty, too long or not a list never gets a second slot: retrying the failed marker does not
      render the list again, it runs the step once. */
  lemma MarkerIsNeverExpanded(s: State, w: World, j: nat, es: seq<Event>)
    requires Core(s) && s.status == Live && j < |s.def.steps|
    requires s.def.steps[j].over != "" && StateOf(s.rows, s.def.steps[j].id) == Absent
    requires NoUsableList(w.fan(s.def.steps[j].id)) && DepsSucceeded(Pass(s, w, j).rows, s.def.steps[j])
    ensures OneSlot(Exec(Advance(s, w), es).rows, s.def.steps[j].id)
  {
    hide Core, Inv, NodeGrows, OneSlot, Settle, AdvanceStep, DepsSucceeded, StateOf, NoUsableList;
    var step, n := s.def.steps[j], |s.def.steps|;
    InvFromAdvance(s, w);
    PassLeavesAbsent(s, w, j, j);
    StepMarks(Pass(s, w, j), w, step);
    var s1, s' := Pass(s, w, j + 1), Advance(s, w);
    PassNodeGrows(s, w, j + 1, n, step.id);
    SettleNodeGrows(Pass(s, w, n), step.id);
    NodeGrowsTrans(s1.rows, Pass(s, w, n).rows, s'.rows, step.id);
    NodeStaysPresent(s1.rows, s'.rows, step.id);
    HistoryNodeGrows(s', es, step.id);
    NodeGrowsTrans(s1.rows, s'.rows, Exec(s', es).rows, step.id);
    OneSlotStays(s1.rows, Exec(s', es).rows, step.id);
  }

  // ---------------------------------------------------------------- and what becomes of the run

  /** Node id has this one row and no other. */
  ghost predicate OnlyRow(rows: seq<StepRun>, id: string, sr: StepRun) {
    && sr.stepID == id
    && exists i :: 0 <= i < |rows| && rows[i] == sr && forall j :: 0 <= j < |rows| && rows[j].stepID == id ==> j == i
  }

  /** The one row of a node whose list could not be used. */
  function MarkerRow(id: string, fan: FanOut): StepRun
    requires NoUsableList(fan)
  {
    match fan
    case NotAList(report) => StepRun(id, 0, "", None, 1, Failed, report)
    case Items(items) =>
      if items == [] then StepRun(id, 0, "", None, 1, Success, "{}")
      else StepRun(id, 0, "", None, 1, Failed, TOO_MANY)
  }

  lemma OnlyRowState(rows: seq<StepRun>, id: string, sr: StepRun)
    requires OnlyRow(rows, id, sr)
    ensures sr.state == Success ==> StateOf(rows, id) == Succeeded
    ensures sr.state == Failed ==> StateOf(rows, id) == NodeFailed && AnyBad(rows)
  {
    var i :| 0 <= i < |rows| && rows[i] == sr && forall j :: 0 <= j < |rows| && rows[j].stepID == id ==> j == i;
    assert NewestOf(rows, id, i);
  }

  lemma StepMarksOne(s: State, w: World, step: Step)
    requires StateOf(s.rows, step.id) == Absent && step.over != "" && DepsSucceeded(s.rows, step)
    requires NoUsableList(w.fan(step.id))
    ensures OnlyRow(AdvanceStep(s, w, step).rows, step.id, MarkerRow(step.id, w.fan(step.id)))
  {
    var s1, sr := Expand(s, w, step), MarkerRow(step.id, w.fan(step.id));
    AbsentHasNoRows(s.rows, step.id);
    assert NewRows(step, w.fan(step.id)) == [sr];
    assert s1.rows == s.rows + [sr];
    hide StateOf, DepsSucceeded;
    var rows', n := StartRows(s1.rows, w, step.id), |s.rows|;
    StartRowsAt(s1.rows, w, step.id, n);
    forall j | 0 <= j < |rows'| && rows'[j].stepID == step.id ensures j == n {
      StartRowsAt(s1.rows, w, step.id, j);
    }
    assert rows'[n] == sr;
  }

  lemma OnlyRowStays(rows: seq<StepRun>, rows': seq<StepRun>, id: string, other: string, sr: StepRun)
    requires OnlyRow(rows, id, sr) && TouchesOnly(rows, rows', other) && other != id
    ensures OnlyRow(rows', id, sr)
  {
    var i :| 0 <= i < |rows| && rows[i] == sr && forall j :: 0 <= j < |rows| && rows[j].stepID == id ==> j == i;
    forall j | 0 <= j < |rows'| && rows'[j].stepID == id ensures j == i {
      assert j < |rows| ==> SameKey(rows[j], rows'[j]);
    }
    assert rows'[i] == sr;
  }

  lemma {:induction false} PassKeepsMarker(s: State, w: World, j: nat, k: nat, sr: StepRun)
    requires WellOrdered(s.def) && j < k <= |s.def.steps|
    requires OnlyRow(Pass(s, w, j + 1).rows, s.def.steps[j].id, sr)
    ensures OnlyRow(Pass(s, w, k).rows, s.def.steps[j].id, sr)
    decreases k
  {
    hide AdvanceStep, OnlyRow, DepsSucceeded, Handled, TouchesOnly;
    if j + 1 < k {
      PassKeepsMarker(s, w, j, k - 1, sr);
      var s1, step := Pass(s, w, k - 1), s.def.steps[k - 1];
      AdvanceStepFrame(s1, w, step);
      OnlyRowStays(s1.rows, AdvanceStep(s1, w, step).rows, s.def.steps[j].id, step.id, sr);
    }
  }

  lemma SettleKeepsMarker(p: State, id: string, sr: StepRun)
    requires OnlyRow(p.rows, id, sr) && sr.state.Terminal()
    ensures OnlyRow(Settle(p).rows, id, sr)
    ensures sr.state == Failed ==> Settle(p).status == Failed_
  {
    hide AnyBusy;
    if sr.state == Failed {
      OnlyRowState(p.rows, id, sr);
    }
    var i :| 0 <= i < |p.rows| && p.rows[i] == sr && forall j :: 0 <= j < |p.rows| && p.rows[j].stepID == id ==> j == i;
    forall j | 0 <= j < |p.rows| ensures Settle(p).rows[j].stepID == p.rows[j].stepID {}
    assert Settle(p).rows[i] == sr;
  }

  /** No step that needs the node carries a run or has one under way. */
  ghost predicate NoDependentRan(s: State, id: string) {
    forall k :: 0 <= k < |s.def.steps| && id in s.def.steps[k].needs ==>
      && (forall i :: 0 <= i < |s.rows| && s.rows[i].stepID == s.def.steps[k].id ==> s.rows[i].runID.None?)
      && (forall r :: r in s.runs && r.row < |s.rows| ==> s.rows[r.row].stepID != s.def.steps[k].id)
  }

  lemma FailedBlocksDependents(s: State, id: string)
    requires Core(s) && StateOf(s.rows, id) == NodeFailed
    ensures NoDependentRan(s, id)
  {
    hide StateOf, Attempts, Linked, RowsInDef, WellOrdered;
    forall k, i | 0 <= k < |s.def.steps| && id in s.def.steps[k].needs && Reached(s, i)
      ensures s.rows[i].stepID != s.def.steps[k].id
    {
      var n :| 0 <= n < |s.def.steps[k].needs| && s.def.steps[k].needs[n] == id;
      assert NeedsDone(s.def, s.rows, s.rows[i].stepID);
      assert s.rows[i].stepID == s.def.steps[k].id ==> DepsSucceeded(s.rows, s.def.steps[k]);
    }
    forall k, r | 0 <= k < |s.def.steps| && id in s.def.steps[k].needs && r in s.runs && r.row < |s.rows|
      ensures s.rows[r.row].stepID != s.def.steps[k].id
    {
      assert Reached(s, r.row);
    }
  }

  /** A ready list that is empty makes its node succeed at once on a row without a run. One that is too long, or no
      list, makes it fail on a row that carries the reason; the pipeline run fails and no dependent has run. */
  lemma MarkerDecides(s: State, w: World, j: nat)
    requires Core(s) && s.status == Live && j < |s.def.steps|
    requires s.def.steps[j].over != "" && StateOf(s.rows, s.def.steps[j].id) == Absent
    requires NoUsableList(w.fan(s.def.steps[j].id)) && DepsSucceeded(Pass(s, w, j).rows, s.def.steps[j])
    ensures var s', id, fan := Advance(s, w), s.def.steps[j].id, w.fan(s.def.steps[j].id);
            && OnlyRow(s'.rows, id, MarkerRow(id, fan))
            && (fan == Items([]) ==> StateOf(s'.rows, id) == Succeeded)
            && (fan != Items([]) ==>
                  StateOf(s'.rows, id) == NodeFailed && s'.status == Failed_ && NoDependentRan(s', id))
  {
    hide Core, Inv, OnlyRow, Settle, AdvanceStep, DepsSucceeded, StateOf;
    var step, n := s.def.steps[j], |s.def.steps|;
    var sr, s' := MarkerRow(step.id, w.fan(step.id)), Advance(s, w);
    InvFromAdvance(s, w);
    PassLeavesAbsent(s, w, j, j);
    StepMarksOne(Pass(s, w, j), w, step);
    PassKeepsMarker(s, w, j, n, sr);
    SettleKeepsMarker(Pass(s, w, n), step.id, sr);
    OnlyRowState(s'.rows, step.id, sr);
    if w.fan(step.id) != Items([]) {
      InvCore(s');
      FailedBlocksDependents(s', step.id);
      AdvanceKeepsDone(s, w);
    }
  }

  lemma InvCore(s: State)
    requires Inv(s)
    ensures Core(s)
  {}
}
