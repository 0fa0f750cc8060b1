/** The executor's own form: rows and runs updated in place, one operation at a time.
    Every operation is proved to have exactly the effect of its specification in RunState. */
module Executors {
  import opened Wrappers
  import opened Definitions
  import opened StepRows
  import opened RunState
  import opened AdvanceProofs

  datatype Slot = Slot(stepID: string, index: nat)

  function SlotOf(sr: StepRun): Slot {
    Slot(sr.stepID, sr.index)
  }

  // ---------------------------------------------------------------- current attempts

  /** The slots that first appear below row n, in order of appearance. */
  ghost function SlotsBelow(rows: seq<StepRun>, n: nat): seq<Slot>
    requires n <= |rows|
  {
    if n == 0 then []
    else if FirstOf(rows, n - 1) == n - 1 then SlotsBelow(rows, n - 1) + [SlotOf(rows[n - 1])]
    else SlotsBelow(rows, n - 1)
  }

  lemma {:induction false} SlotsBelowCurrent(rows: seq<StepRun>, n: nat)
    requires n <= |rows|
    ensures |SlotsBelow(rows, n)| == |CurrentBelow(rows, n)|
    ensures forall k :: 0 <= k < |SlotsBelow(rows, n)| ==>
              SlotOf(rows[CurrentBelow(rows, n)[k]]) == SlotsBelow(rows, n)[k]
  {
    hide Newest;
    if n > 0 {
      SlotsBelowCurrent(rows, n - 1);
    }
  }

  lemma {:induction false} SlotsBelowSeen(rows: seq<StepRun>, n: nat, slot: Slot)
    requires n <= |rows|
    ensures slot in SlotsBelow(rows, n) <==> exists i :: 0 <= i < n && SlotOf(rows[i]) == slot
  {
    if n > 0 {
      SlotsBelowSeen(rows, n - 1, slot);
      var f := FirstOf(rows, n - 1);
      assert SlotOf(rows[f]) == SlotOf(rows[n - 1]);
    }
  }

  /** Row i is the newest of its slot among the first n rows. */
  ghost predicate NewestBelow(rows: seq<StepRun>, n: nat, i: int)
    requires n <= |rows|
  {
    Newest(rows[..n], i)
  }

  lemma NewestBelowStep(rows: seq<StepRun>, n: nat, i: nat)
    requires n < |rows| && NewestBelow(rows, n, i)
    ensures !SameSlot(rows[n], rows[i]) || rows[n].attempt < rows[i].attempt ==> NewestBelow(rows, n + 1, i)
    ensures SameSlot(rows[n], rows[i]) && rows[n].attempt >= rows[i].attempt ==> NewestBelow(rows, n + 1, n)
  {
    var front, more := rows[..n], rows[..n + 1];
    forall j | 0 <= j < n ensures more[j] == front[j] == rows[j] {}
    assert more[n] == rows[n];
  }

  lemma NewestBelowFirst(rows: seq<StepRun>, n: nat)
    requires n < |rows| && FirstOf(rows, n) == n
    ensures NewestBelow(rows, n + 1, n)
  {
    var more := rows[..n + 1];
    forall j | 0 <= j < |more| && SameSlot(more[j], more[n]) ensures j == n {
      assert more[j] == rows[j];
    }
  }

  /** The three collections the scan keeps after n rows. */
  ghost predicate Scanned(rows: seq<StepRun>, n: nat, order: seq<Slot>, best: map<Slot, int>, bySlot: map<Slot, nat>) {
    && n <= |rows|
    && order == SlotsBelow(rows, n)
    && (forall s :: s in order <==> s in bySlot)
    && (forall s :: s in best <==> s in bySlot)
    && (forall s :: s in bySlot ==> ScannedSlot(rows, n, s, best[s], bySlot[s]))
  }

  ghost predicate ScannedSlot(rows: seq<StepRun>, n: nat, s: Slot, attempt: int, i: nat)
    requires n <= |rows|
  {
    NewestBelow(rows, n, i) && SlotOf(rows[i]) == s && attempt == rows[i].attempt
  }

  lemma ScanOther(rows: seq<StepRun>, n: nat, s: Slot, attempt: int, i: nat)
    requires n < |rows| && ScannedSlot(rows, n, s, attempt, i)
    ensures s != SlotOf(rows[n]) || rows[n].attempt < attempt ==> ScannedSlot(rows, n + 1, s, attempt, i)
    ensures s == SlotOf(rows[n]) && rows[n].attempt >= attempt ==> ScannedSlot(rows, n + 1, s, rows[n].attempt, n)
  {
    NewestBelowStep(rows, n, i);
  }

  lemma ScanNew(rows: seq<StepRun>, n: nat, order: seq<Slot>, best: map<Slot, int>, bySlot: map<Slot, nat>)
    requires n < |rows| && Scanned(rows, n, order, best, bySlot) && SlotOf(rows[n]) !in best
    ensures var s := SlotOf(rows[n]);
            Scanned(rows, n + 1, order + [s], best[s := rows[n].attempt], bySlot[s := n])
  {
    hide NewestBelow;
    FirstIffUnseen(rows, n);
    NewestBelowFirst(rows, n);
    forall s | s in bySlot ensures ScannedSlot(rows, n + 1, s, best[s], bySlot[s]) {
      ScanOther(rows, n, s, best[s], bySlot[s]);
    }
  }

  lemma ScanSeen(rows: seq<StepRun>, n: nat, order: seq<Slot>, best: map<Slot, int>, bySlot: map<Slot, nat>)
    requires n < |rows| && Scanned(rows, n, order, best, bySlot) && SlotOf(rows[n]) in best
    ensures var s := SlotOf(rows[n]);
            if rows[n].attempt >= best[s]
            then Scanned(rows, n + 1, order, best[s := rows[n].attempt], bySlot[s := n])
            else Scanned(rows, n + 1, order, best, bySlot)
  {
    hide NewestBelow;
    FirstIffUnseen(rows, n);
    forall s | s in bySlot
      ensures s != SlotOf(rows[n]) || rows[n].attempt < best[s] ==> ScannedSlot(rows, n + 1, s, best[s], bySlot[s])
      ensures s == SlotOf(rows[n]) && rows[n].attempt >= best[s] ==> ScannedSlot(rows, n + 1, s, rows[n].attempt, n)
    {
      ScanOther(rows, n, s, best[s], bySlot[s]);
    }
  }

  lemma ScanEnd(rows: seq<StepRun>, order: seq<Slot>, best: map<Slot, int>, bySlot: map<Slot, nat>)
    requires Scanned(rows, |rows|, order, best, bySlot)
    ensures |order| == |CurrentRows(rows)|
    ensures forall k :: 0 <= k < |order| ==> order[k] in bySlot && bySlot[order[k]] == CurrentRows(rows)[k]
  {
    assert rows[..|rows|] == rows;
    SlotsBelowCurrent(rows, |rows|);
    forall k | 0 <= k < |order| ensures order[k] in bySlot && bySlot[order[k]] == CurrentRows(rows)[k] {
      assert order[k] in order;
      assert ScannedSlot(rows, |rows|, order[k], best[order[k]], bySlot[order[k]]);
      NewestUnique(rows);
      assert SameSlot(rows[bySlot[order[k]]], rows[CurrentRows(rows)[k]]);
    }
  }

  /** The newest attempt of each slot, in the order the slots first appear. */
  method CurrentAttempts(rows: seq<StepRun>) returns (out: seq<nat>)
    ensures out == CurrentRows(rows)
  {
    hide ScannedSlot, CurrentRows;
    var best: map<Slot, int> := map[];
    var order: seq<Slot> := [];
    var bySlot: map<Slot, nat> := map[];
    var n := 0;
    while n < |rows|
      invariant Scanned(rows, n, order, best, bySlot)
    {
      var sr := rows[n];
      var k := SlotOf(sr);
      if k !in best {
        ScanNew(rows, n, order, best, bySlot);
      } else {
        ScanSeen(rows, n, order, best, bySlot);
      }
      if k !in best || sr.attempt >= best[k] {
        if k !in best {
          order := order + [k];
        }
        best := best[k := sr.attempt];
        bySlot := bySlot[k := n];
      }
      n := n + 1;
    }
    ScanEnd(rows, order, best, bySlot);
    out := [];
    var j := 0;
    while j < |order|
      invariant j <= |order| && out == CurrentRows(rows)[..j]
    {
      out := out + [bySlot[order[j]]];
      j := j + 1;
    }
  }

  lemma FirstIffUnseen(rows: seq<StepRun>, n: nat)
    requires n < |rows|
    ensures FirstOf(rows, n) == n <==> SlotOf(rows[n]) !in SlotsBelow(rows, n)
  {
    SlotsBelowSeen(rows, n, SlotOf(rows[n]));
    var f := FirstOf(rows, n);
    assert SlotOf(rows[f]) == SlotOf(rows[n]);
    if i :| 0 <= i < n && SlotOf(rows[i]) == SlotOf(rows[n]) {
      assert SameSlot(rows[i], rows[n]);
    }
  }

  /** What the scan of the current attempts knows about node id after the first j of them. */
  ghost predicate Summary(rows: seq<StepRun>, cur: seq<nat>, j: nat, id: string, state: NodeState) {
    && j <= |cur| && (forall k :: 0 <= k < |cur| ==> cur[k] < |rows|)
    && (forall k :: 0 <= k < j && rows[cur[k]].stepID == id ==> !rows[cur[k]].state.Bad())
    && (state == Busy ==> exists k :: 0 <= k < j && rows[cur[k]].stepID == id && !rows[cur[k]].state.Terminal())
    && (state == Succeeded ==> exists k :: 0 <= k < j && rows[cur[k]].stepID == id)
    && (state != Busy ==> forall k :: 0 <= k < j && rows[cur[k]].stepID == id ==> rows[cur[k]].state == Success)
    && (state == Absent ==> forall k :: 0 <= k < j ==> rows[cur[k]].stepID != id)
    && state != NodeFailed
  }

  lemma SummaryStep(rows: seq<StepRun>, cur: seq<nat>, j: nat, id: string, state: NodeState)
    requires Summary(rows, cur, j, id, state) && j < |cur|
    ensures cur[j] < |rows|
    ensures var sr := rows[cur[j]];
            && (sr.stepID != id ==> Summary(rows, cur, j + 1, id, state))
            && (sr.stepID == id && !sr.state.Terminal() ==> Summary(rows, cur, j + 1, id, Busy))
            && (sr.stepID == id && sr.state == Success ==>
                  Summary(rows, cur, j + 1, id, if state == Busy then Busy else Succeeded))
  {}

  lemma SummaryBad(rows: seq<StepRun>, id: string, i: nat)
    requires i in CurrentRows(rows)
    ensures i < |rows|
    ensures rows[i].stepID == id && rows[i].state.Bad() ==> StateOf(rows, id) == NodeFailed
  {
    CurrentIsNewest(rows);
    assert rows[i].stepID == id ==> NewestOf(rows, id, i);
  }

  lemma SummaryDone(rows: seq<StepRun>, id: string, state: NodeState)
    requires Summary(rows, CurrentRows(rows), |CurrentRows(rows)|, id, state)
    ensures state == StateOf(rows, id)
  {
    hide CurrentRows, SameSlot;
    var cur := CurrentRows(rows);
    CurrentIsNewest(rows);
    forall i ensures NewestOf(rows, id, i) <==> i in cur && rows[i].stepID == id {}
    if state == Busy {
      var k :| 0 <= k < |cur| && rows[cur[k]].stepID == id && !rows[cur[k]].state.Terminal();
      assert NewestOf(rows, id, cur[k]);
    } else if state == Succeeded {
      var k :| 0 <= k < |cur| && rows[cur[k]].stepID == id;
      assert NewestOf(rows, id, cur[k]);
    }
  }

  /** Summarises one node from the current attempts. */
  method NodeStateOf(rows: seq<StepRun>, current: seq<nat>, id: string) returns (state: NodeState)
    requires current == CurrentRows(rows)
    ensures state == StateOf(rows, id)
    ensures state == NodeFailed <==> exists i :: NewestOf(rows, id, i) && rows[i].state.Bad()
    ensures state == Busy <==> (exists i :: NewestOf(rows, id, i) && !rows[i].state.Terminal()) &&
                               !(exists i :: NewestOf(rows, id, i) && rows[i].state.Bad())
    ensures state == Absent <==> forall i :: !NewestOf(rows, id, i)
  {
    CurrentIsNewest(rows);
    state := Absent;
    var j := 0;
    assert Summary(rows, current, 0, id, Absent);
    hide Summary, StateOf, CurrentRows;
    while j < |current|
      invariant j <= |current| && Summary(rows, current, j, id, state)
    {
      SummaryStep(rows, current, j, id, state);
      SummaryBad(rows, id, current[j]);
      var sr := rows[current[j]];
      if sr.stepID == id {
        match sr.state {
          case Failed => return NodeFailed;
          case Skipped => return NodeFailed;
          case Cancelled => return NodeFailed;
          case Pending => state := Busy;
          case Running => state := Busy;
          case Success => if state != Busy { state := Succeeded; }
        }
      }
      j := j + 1;
    }
    SummaryDone(rows, id, state);
  }

  method NeedsMet(rows: seq<StepRun>, current: seq<nat>, step: Step) returns (ok: bool)
    requires current == CurrentRows(rows)
    ensures ok == DepsSucceeded(rows, step)
  {
    var n := 0;
    while n < |step.needs|
      invariant n <= |step.needs|
      invariant forall m :: 0 <= m < n ==> StateOf(rows, step.needs[m]) == Succeeded
    {
      var state := NodeStateOf(rows, current, step.needs[n]);
      if state != Succeeded { return false; }
      n := n + 1;
    }
    return true;
  }

  // ---------------------------------------------------------------- loops over the current attempts

  /** The first j current attempts already look as in goal, everything else as before. */
  ghost predicate Halfway(before: seq<StepRun>, goal: seq<StepRun>, cur: seq<nat>, j: nat, rows: seq<StepRun>) {
    && |rows| == |before| == |goal| && j <= |cur| && DistinctRows(cur, |before|)
    && (forall k :: 0 <= k < j ==> rows[cur[k]] == goal[cur[k]])
    && (forall k :: j <= k < |cur| ==> rows[cur[k]] == before[cur[k]])
    && (forall i :: 0 <= i < |rows| && i !in cur ==> rows[i] == before[i])
  }

  lemma HalfwayHere(before: seq<StepRun>, goal: seq<StepRun>, cur: seq<nat>, j: nat, rows: seq<StepRun>)
    requires Halfway(before, goal, cur, j, rows) && j < |cur|
    ensures |rows| == |before| == |goal| && cur[j] < |rows| && rows[cur[j]] == before[cur[j]]
  {}

  lemma HalfwayStep(before: seq<StepRun>, goal: seq<StepRun>, cur: seq<nat>, j: nat, rows: seq<StepRun>, sr: StepRun)
    requires Halfway(before, goal, cur, j, rows) && j < |cur| && cur[j] < |goal| && cur[j] < |rows|
    requires sr == goal[cur[j]]
    ensures Halfway(before, goal, cur, j + 1, rows[cur[j] := sr])
    ensures sr == rows[cur[j]] ==> rows[cur[j] := sr] == rows
  {}

  lemma HalfwayDone(before: seq<StepRun>, goal: seq<StepRun>, rows: seq<StepRun>)
    requires Halfway(before, goal, CurrentRows(before), |CurrentRows(before)|, rows)
    requires forall i :: 0 <= i < |before| && !Newest(before, i) ==> goal[i] == before[i]
    ensures rows == goal
  {
    CurrentIsNewest(before);
  }

  lemma HalfwayDoneStop(before: seq<StepRun>, p: StepState, r: StepState, rows: seq<StepRun>)
    requires |StopRows(before, p, r)| == |before|
    requires Halfway(before, StopRows(before, p, r), CurrentRows(before), |CurrentRows(before)|, rows)
    ensures rows == StopRows(before, p, r)
  {
    HalfwayDone(before, StopRows(before, p, r), rows);
  }

  lemma HalfwayDoneStart(before: seq<StepRun>, w: World, id: string, rows: seq<StepRun>)
    requires |StartRows(before, w, id)| == |before|
    requires Halfway(before, StartRows(before, w, id), CurrentRows(before), |CurrentRows(before)|, rows)
    ensures rows == StartRows(before, w, id)
  {
    forall i | 0 <= i < |before| && !Newest(before, i) ensures StartRows(before, w, id)[i] == before[i] {
      StartRowsAt(before, w, id, i);
    }
    HalfwayDone(before, StartRows(before, w, id), rows);
  }

  lemma HalfwayBegin(rows: seq<StepRun>, goal: seq<StepRun>)
    requires |goal| == |rows|
    ensures Halfway(rows, goal, CurrentRows(rows), 0, rows)
  {
    CurrentIsNewest(rows);
  }

  lemma StopRowAt(rows: seq<StepRun>, p: StepState, r: StepState, i: nat)
    requires i in CurrentRows(rows)
    ensures i < |rows| && |StopRows(rows, p, r)| == |rows|
    ensures StopRows(rows, p, r)[i] ==
              match rows[i].state
              case Pending => rows[i].(state := p)
              case Running => rows[i].(state := r)
              case _ => rows[i]
  {
    CurrentIsNewest(rows);
  }

  lemma StartRowAt(rows: seq<StepRun>, w: World, id: string, i: nat)
    requires i in CurrentRows(rows)
    ensures i < |rows| && |StartRows(rows, w, id)| == |rows|
    ensures StartRows(rows, w, id)[i] ==
              if rows[i].stepID == id && rows[i].state == Pending
              then StartedRow(rows[i], RunId(i, w.serial), w.start(i)) else rows[i]
  {
    CurrentIsNewest(rows);
    StartRowsAt(rows, w, id, i);
  }

  lemma ExpandPresent(s: State, w: World, step: Step)
    requires StateOf(s.rows, step.id) != Absent
    ensures Expand(s, w, step) == s
  {}

  /** The runs started for the first j current attempts. */
  ghost function StartedBy(rows: seq<StepRun>, w: World, id: string, cur: seq<nat>, j: nat): set<RunId>
    requires j <= |cur| && forall k :: 0 <= k < |cur| ==> cur[k] < |rows|
  {
    set k | 0 <= k < j && StartsRun(rows, w, id, cur[k]) :: RunId(cur[k], w.serial)
  }

  predicate StartsRun(rows: seq<StepRun>, w: World, id: string, i: nat)
    requires i < |rows|
  {
    rows[i].stepID == id && rows[i].state == Pending && w.start(i).Started?
  }

  ghost function WithRuns(runs: map<RunId, EngineRun>, added: set<RunId>): map<RunId, EngineRun> {
    runs + map r | r in added :: NEW_RUN
  }

  lemma WithRunsIs(runs: map<RunId, EngineRun>, added: set<RunId>)
    ensures WithRuns(runs, added) == runs + map r | r in added :: NEW_RUN
  {}

  lemma StartedNone(rows: seq<StepRun>, w: World, id: string, cur: seq<nat>, runs: map<RunId, EngineRun>)
    requires forall k :: 0 <= k < |cur| ==> cur[k] < |rows|
    ensures WithRuns(runs, StartedBy(rows, w, id, cur, 0)) == runs
  {}

  lemma StartedByNext(rows: seq<StepRun>, w: World, id: string, cur: seq<nat>, j: nat)
    requires j < |cur| && forall k :: 0 <= k < |cur| ==> cur[k] < |rows|
    ensures StartedBy(rows, w, id, cur, j + 1) ==
              StartedBy(rows, w, id, cur, j) + (if StartsRun(rows, w, id, cur[j]) then {RunId(cur[j], w.serial)}
                  else {})
  {}

  lemma WithOneMore(runs: map<RunId, EngineRun>, added: set<RunId>, r: RunId)
    ensures WithRuns(runs, added + {r}) == WithRuns(runs, added)[r := NEW_RUN]
  {}

  lemma StartedByStep(rows: seq<StepRun>, w: World, id: string, cur: seq<nat>, j: nat, runs: map<RunId, EngineRun>)
    requires j < |cur| && forall k :: 0 <= k < |cur| ==> cur[k] < |rows|
    ensures WithRuns(runs, StartedBy(rows, w, id, cur, j + 1)) ==
              if StartsRun(rows, w, id, cur[j])
              then WithRuns(runs, StartedBy(rows, w, id, cur, j))[RunId(cur[j], w.serial) := NEW_RUN]
              else WithRuns(runs, StartedBy(rows, w, id, cur, j))
  {
    hide StartedBy, WithRuns;
    StartedByNext(rows, w, id, cur, j);
    WithOneMore(runs, StartedBy(rows, w, id, cur, j), RunId(cur[j], w.serial));
    assert StartedBy(rows, w, id, cur, j) + {} == StartedBy(rows, w, id, cur, j);
  }

  lemma StartedByDone(rows: seq<StepRun>, w: World, id: string)
    ensures forall k :: 0 <= k < |CurrentRows(rows)| ==> CurrentRows(rows)[k] < |rows|
    ensures StartedBy(rows, w, id, CurrentRows(rows), |CurrentRows(rows)|) == StartedRuns(rows, w, id)
  {
    var cur := CurrentRows(rows);
    CurrentIsNewest(rows);
    forall r | r in StartedRuns(rows, w, id) ensures r in StartedBy(rows, w, id, cur, |cur|) {
      assert Startable(rows, id, r.row);
      var k :| 0 <= k < |cur| && cur[k] == r.row;
      assert StartsRun(rows, w, id, cur[k]);
    }
    forall k | 0 <= k < |cur| && StartsRun(rows, w, id, cur[k])
        ensures RunId(cur[k], w.serial) in StartedRuns(rows, w, id) {
      assert Startable(rows, id, cur[k]);
    }
  }

  /** The first j current attempts are reopened; the rest still look as before. */
  ghost predicate Reopening(before: seq<StepRun>, cur: seq<nat>, j: nat, rows: seq<StepRun>, retried: nat) {
    && j <= |cur| && |before| <= |rows| && DistinctRows(cur, |before|)
    && (forall k :: j <= k < |cur| ==> rows[cur[k]] == before[cur[k]])
    && ReopenRows(rows, cur[j..]) == ReopenRows(before, cur)
    && (retried == 0 ==> rows == before && forall k :: 0 <= k < j ==> !before[cur[k]].state.Bad())
    && (retried > 0 ==> exists k :: 0 <= k < j && before[cur[k]].state.Bad())
  }

  lemma ReopeningBegin(rows: seq<StepRun>)
    ensures Reopening(rows, CurrentRows(rows), 0, rows, 0)
  {
    CurrentIsNewest(rows);
    assert CurrentRows(rows)[0..] == CurrentRows(rows);
  }

  lemma ReopeningHere(before: seq<StepRun>, cur: seq<nat>, j: nat, rows: seq<StepRun>, retried: nat)
    requires Reopening(before, cur, j, rows, retried) && j < |cur|
    ensures cur[j] < |before| <= |rows| && rows[cur[j]] == before[cur[j]]
  {}

  lemma ReopeningStep(before: seq<StepRun>, cur: seq<nat>, j: nat, rows: seq<StepRun>, retried: nat)
    requires Reopening(before, cur, j, rows, retried) && j < |cur| && cur[j] < |rows| && cur[j] < |before|
    ensures Reopening(before, cur, j + 1, ReopenOne(rows, cur[j]),
                      if before[cur[j]].state.Bad() then retried + 1 else retried)
  {
    assert cur[j..][0] == cur[j] && cur[j..][1..] == cur[j + 1..];
  }

  lemma ReopeningDone(before: seq<StepRun>, rows: seq<StepRun>, retried: nat)
    requires Reopening(before, CurrentRows(before), |CurrentRows(before)|, rows, retried)
    ensures rows == ReopenRows(before, CurrentRows(before))
    ensures retried == 0 ==> rows == before
    ensures retried == 0 <==> !AnyBad(before)
  {
    var cur := CurrentRows(before);
    assert cur[|cur|..] == [];
    CurrentIsNewest(before);
    if retried > 0 {
      var k :| 0 <= k < |cur| && before[cur[k]].state.Bad();
      assert Newest(before, cur[k]);
    }
  }

  // ---------------------------------------------------------------- the executor

  class Executor {
    const def: Definition
    var startedAt: int
    var status: RunStatus
    var rows: seq<StepRun>
    var runs: map<RunId, EngineRun>

    ghost function Value(): State
      reads this
    {
      State(def, startedAt, status, rows, runs)
    }

    /** Creates the run with one pending step run per plain step and advances it. */
    constructor (def: Definition, now: int, w: World)
      ensures Value() == RunState.Start(def, now, w)
    {
      this.def := def;
      startedAt := now;
      status := Live;
      rows := [];
      runs := map[];
      new;
      var k := 0;
      assert def.steps[0..] == def.steps;
      while k < |def.steps|
        invariant k <= |def.steps|
        invariant this.def == def && startedAt == now && status == Live && runs == map[]
        invariant rows + FirstRows(def.steps[k..]) == FirstRows(def.steps)
      {
        var step := def.steps[k];
        assert def.steps[k..][1..] == def.steps[k + 1..];
        if step.over == "" {
          rows := rows + [PendingRow(step.id, 0, "", 1)];
        }
        k := k + 1;
      }
      assert def.steps[k..] == [] && FirstRows([]) == [];
      assert Value() == State(def, now, Live, FirstRows(def.steps), map[]);
      AdvanceLocked(w);
    }

    /** Creates the step runs of a node whose dependencies have just succeeded. */
    method ExpandNode(step: Step, w: World)
      modifies this
      requires StateOf(rows, step.id) == Absent
      ensures Value() == Expand(old(Value()), w, step)
    {
      if step.over == "" {
        rows := rows + [PendingRow(step.id, 0, "", 1)];
        return;
      }
      match w.fan(step.id)
      case NotAList(report) =>
        rows := rows + [PendingRow(step.id, 0, "", 1).(state := Failed, report := report)];
      case Items(items) =>
        if |items| > MAX_FANOUT {
          rows := rows + [PendingRow(step.id, 0, "", 1).(state := Failed, report := TOO_MANY)];
        } else if items == [] {
          rows := rows + [PendingRow(step.id, 0, "", 1).(state := Success, report := "{}")];
        } else {
          var i := 0;
          ghost var added := NewRows(step, w.fan(step.id));
          while i < |items|
            invariant i <= |items|
            invariant rows == old(rows) + added[..i]
            invariant status == old(status) && runs == old(runs) && startedAt == old(startedAt)
          {
            rows := rows + [PendingRow(step.id, i, items[i], 1)];
            i := i + 1;
          }
        }
    }

    /** Starts the run behind one pending step run, or fails the step run with the reason. */
    method StartStep(i: nat, w: World)
      modifies this
      requires i < |rows|
      ensures rows == old(rows)[i := StartedRow(old(rows)[i], RunId(i, w.serial), w.start(i))]
      ensures runs == if w.start(i).Started? then old(runs)[RunId(i, w.serial) := NEW_RUN] else old(runs)
      ensures status == old(status) && startedAt == old(startedAt)
    {
      match w.start(i)
      case Refused(report) =>
        rows := rows[i := rows[i].(state := Failed, report := report)];
      case Started =>
        var run := RunId(i, w.serial);
        runs := runs[run := NEW_RUN];
        rows := rows[i := rows[i].(state := Running, runID := Some(run))];
    }

    /** Starts every pending current attempt of one node. */
    method StartPendingSteps(current: seq<nat>, id: string, w: World)
      modifies this
      requires current == CurrentRows(rows)
      ensures Value() == StartPending(old(Value()), w, id)
    {
      hide Halfway, StartRows, CurrentRows, WithRuns, StartedBy, StartedRow, Newest, NewestOf, StartedRuns;
      ghost var before, goal := rows, StartRows(rows, w, id);
      StartRowsFrame(before, w, id);
      HalfwayBegin(before, goal);
      StartedByDone(before, w, id);
      StartedNone(before, w, id, current, runs);
      var listed := rows;
      var j := 0;
      while j < |current|
        invariant Halfway(before, goal, current, j, rows) && j <= |current|
        invariant status == old(status) && startedAt == old(startedAt)
        invariant runs == WithRuns(old(runs), StartedBy(before, w, id, current, j))
      {
        var i := current[j];
        HalfwayHere(before, goal, current, j, rows);
        StartRowAt(before, w, id, i);
        HalfwayStep(before, goal, current, j, rows, goal[i]);
        StartedByStep(before, w, id, current, j, old(runs));
        if listed[i].stepID == id && listed[i].state == Pending {
          StartStep(i, w);
        }
        j := j + 1;
      }
      HalfwayDoneStart(before, w, id, rows);
      WithRunsIs(old(runs), StartedRuns(before, w, id));
    }

    method StopSteps(current: seq<nat>, pending: StepState, running: StepState)
      modifies this
      requires current == CurrentRows(rows)
      requires pending.Terminal() && running.Terminal()
      ensures rows == StopRows(old(rows), pending, running)
      ensures status == old(status) && startedAt == old(startedAt) && runs == old(runs)
    {
      hide Halfway, StopRows, CurrentRows;
      ghost var before, goal := rows, StopRows(rows, pending, running);
      StopRowsFrame(before, pending, running);
      HalfwayBegin(before, goal);
      var j := 0;
      while j < |current|
        invariant Halfway(before, goal, current, j, rows) && j <= |current|
        invariant status == old(status) && startedAt == old(startedAt) && runs == old(runs)
      {
        var i := current[j];
        HalfwayHere(before, goal, current, j, rows);
        StopRowAt(before, pending, running, i);
        HalfwayStep(before, goal, current, j, rows, goal[i]);
        match rows[i].state {
          case Pending => rows := rows[i := rows[i].(state := pending)];
          case Running => rows := rows[i := rows[i].(state := running)];
          case _ =>
        }
        j := j + 1;
      }
      HalfwayDoneStop(before, pending, running, rows);
    }

    /** Closes the run out when nothing is left to do. */
    method SettleRun(current: seq<nat>)
      modifies this
      requires current == CurrentRows(rows)
      ensures Value() == Settle(old(Value()))
    {
      hide Newest;
      CurrentIsNewest(rows);
      var failed, busy := false, false;
      var j := 0;
      while j < |current|
        invariant j <= |current|
        invariant failed <==> exists k :: 0 <= k < j && rows[current[k]].state.Bad()
        invariant busy <==> exists k :: 0 <= k < j && !rows[current[k]].state.Terminal()
      {
        match rows[current[j]].state {
          case Failed => failed := true;
          case Cancelled => failed := true;
          case Skipped => failed := true;
          case Pending => busy := true;
          case Running => busy := true;
          case Success =>
        }
        j := j + 1;
      }
      assert failed <==> AnyBad(rows);
      assert busy <==> AnyBusy(rows);
      if failed {
        StopSteps(current, Skipped, Cancelled);
        status := Failed_;
      } else if !busy {
        status := Succeeded_;
      }
    }

    /** One pass over the steps in file order, then settle. */
    method AdvanceLocked(w: World)
      modifies this
      ensures Value() == Advance(old(Value()), w)
    {
      hide StateOf, DepsSucceeded, CurrentRows, StartPending, Expand, Settle;
      if status.Terminal() { return; }
      ghost var s := Value();
      var current := CurrentAttempts(rows);
      var k := 0;
      while k < |def.steps|
        invariant k <= |def.steps|
        invariant current == CurrentRows(rows)
        invariant Value() == Pass(s, w, k)
      {
        var step := def.steps[k];
        ghost var s1 := Value();
        var ready := NeedsMet(rows, current, step);
        if ready {
          var state := NodeStateOf(rows, current, step.id);
          if state == Absent {
            ExpandNode(step, w);
            current := CurrentAttempts(rows);
          } else {
            ExpandPresent(s1, w, step);
          }
          StartPendingSteps(current, step.id, w);
          current := CurrentAttempts(rows);
        }
        assert Value() == AdvanceStep(s1, w, step);
        k := k + 1;
      }
      SettleRun(current);
    }

    method FindStep(id: string) returns (step: Option<Step>)
      ensures step == StepByID(def.steps, id)
      ensures step == None <==> !HasStep(def.steps, id)
      ensures step.Some? ==> exists k :: 0 <= k < |def.steps| && step == Some(def.steps[k]) && def.steps[k].id == id &&
                                 forall j :: 0 <= j < k ==> def.steps[j].id != id
    {
      var k := 0;
      assert def.steps[0..] == def.steps;
      while k < |def.steps|
        invariant k <= |def.steps|
        invariant StepByID(def.steps[k..], id) == StepByID(def.steps, id)
        invariant forall j :: 0 <= j < k ==> def.steps[j].id != id
      {
        if def.steps[k].id == id { return Some(def.steps[k]); }
        assert def.steps[k..][1..] == def.steps[k + 1..];
        k := k + 1;
      }
      return None;
    }

    /** Applies a finished run to the step run it belongs to, then advances. */
    method CompleteStep(r: RunId, w: World)
      modifies this
      ensures Value() == RunState.CompleteStep(old(Value()), r, w)
    {
      hide Advance, StepByID;
      if r !in runs || r.row >= |rows| { return; }
      var i := r.row;
      if rows[i].state.Terminal() { return; }
      var run := runs[r];
      if run.outcome == Won {
        rows := rows[i := rows[i].(state := Success, report := run.report)];
        AdvanceLocked(w);
        return;
      }
      rows := rows[i := rows[i].(state := Failed, report := run.report)];
      if !status.Terminal() {
        var step := FindStep(rows[i].stepID);
        if step.Some? && rows[i].attempt <= step.value.retries {
          rows := rows + [PendingRow(rows[i].stepID, rows[i].index, rows[i].item, rows[i].attempt + 1)];
        }
      }
      AdvanceLocked(w);
    }

    /** Stops a live run by an operator's hand; a finished one is a conflict. */
    method Cancel() returns (conflict: bool)
      modifies this
      ensures conflict == old(status).Terminal()
      ensures Value() == RunState.Cancel(old(Value()))
    {
      if status.Terminal() { return true; }
      var current := CurrentAttempts(rows);
      StopSteps(current, Cancelled, Cancelled);
      status := Cancelled_;
      return false;
    }

    /** Re-runs the failed steps of a finished run; a live one, or one with nothing to retry, is a conflict. */
    method RetryFailed(w: World) returns (conflict: bool)
      modifies this
      ensures conflict == (!old(status).Terminal() || !AnyBad(old(rows)))
      ensures Value() == RunState.RetryFailed(old(Value()), w)
    {
      if !status.Terminal() { return true; }
      var current := CurrentAttempts(rows);
      var retried := ReopenSteps(current);
      if retried == 0 { return true; }
      status := Live;
      AdvanceLocked(w);
      return false;
    }

    /** Opens a fresh attempt for every failed step and puts every stopped one back to pending. */
    method ReopenSteps(current: seq<nat>) returns (retried: nat)
      modifies this
      requires current == CurrentRows(rows)
      ensures retried == 0 <==> !AnyBad(old(rows))
      ensures rows == if retried == 0 then old(rows) else ReopenRows(old(rows), current)
      ensures status == old(status) && startedAt == old(startedAt) && runs == old(runs)
    {
      hide CurrentRows, AnyBad, Reopening;
      ghost var before := rows;
      var listed := rows;
      var j := 0;
      retried := 0;
      ReopeningBegin(before);
      while j < |current|
        invariant Reopening(before, current, j, rows, retried) && j <= |current|
        invariant status == old(status) && startedAt == old(startedAt) && runs == old(runs)
      {
        var i := current[j];
        ReopeningHere(before, current, j, rows, retried);
        ReopeningStep(before, current, j, rows, retried);
        match listed[i].state {
          case Failed =>
            rows := rows + [PendingRow(listed[i].stepID, listed[i].index, listed[i].item, listed[i].attempt + 1)];
            retried := retried + 1;
          case Skipped =>
            rows := rows[i := listed[i].(state := Pending, runID := None, report := "")];
            retried := retried + 1;
          case Cancelled =>
            rows := rows[i := listed[i].(state := Pending, runID := None, report := "")];
            retried := retried + 1;
          case _ =>
        }
        j := j + 1;
      }
      ReopeningDone(before, rows, retried);
    }

    /** Records every step run whose run already ended but whose message was never seen. */
    method ReconcileRuns(w: World)
      modifies this
      ensures Value() == Reconcile(old(Value()), old(rows), w)
    {
      var listed := rows;
      var j := 0;
      var w1 := w;
      assert listed[0..] == listed;
      while j < |listed|
        invariant j <= |listed|
        invariant Reconcile(Value(), listed[j..], w1) == Reconcile(old(Value()), listed, w)
      {
        var sr := listed[j];
        assert listed[j..][1..] == listed[j + 1..];
        ghost var s := Value();
        if sr.state == Running && sr.runID.Some? {
          var r := sr.runID.value;
          if r in runs && runs[r].outcome != InFlight {
            CompleteStep(r, w1);
          }
        }
        assert Value() == SweepRow(s, sr, w1);
        w1 := w1.(serial := w1.serial + 1);
        j := j + 1;
      }
    }

    /** The periodic sweep: time out an overrunning run, reconcile any other live one. */
    method Tick(now: int, w: World)
      modifies this
      ensures Value() == RunState.Tick(old(Value()), now, w)
    {
      if status.Terminal() || !(startedAt < now) { return; }
      var timeout := if def.timeout > 0 then def.timeout else DEFAULT_TIMEOUT;
      if now - startedAt < timeout {
        ReconcileRuns(w);
        return;
      }
      var current := CurrentAttempts(rows);
      StopSteps(current, Cancelled, Cancelled);
      status := TimedOut;
    }
  }
}
