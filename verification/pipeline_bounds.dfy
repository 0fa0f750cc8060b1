/** How much work a pipeline run can ever do. */
module PipelineBounds {
  import opened Definitions
  import opened StepRows
  import opened RunState
  import opened AdvanceProofs
  import opened Invariants
  import opened History
  import opened Progress
  import opened PipelineTheorems

  // ---------------------------------------------------------------- attempts per slot

  /** The retry budget of every step, as the rule set bounds it. */
  predicate BudgetsOk(def: Definition) {
    forall k :: 0 <= k < |def.steps| ==> 0 <= def.steps[k].retries <= MAX_RETRIES
  }

  /** No slot has more attempts than its step's budget, the first attempt and `extra` allow. */
  ghost predicate AttemptsWithin(def: Definition, rows: seq<StepRun>, extra: nat) {
    forall i, k :: 0 <= i < |rows| && 0 <= k < |def.steps| && def.steps[k].id == rows[i].stepID ==>
      rows[i].attempt <= def.steps[k].retries + 1 + extra
  }

  /** The table grew: old keys stay, and every added row satisfies the bound. */
  ghost predicate KeysGrow(def: Definition, rows: seq<StepRun>, rows': seq<StepRun>, extra: nat) {
    && |rows| <= |rows'|
    && (forall i :: 0 <= i < |rows| ==> SameKey(rows[i], rows'[i]))
    && (forall i, k :: |rows| <= i < |rows'| && 0 <= k < |def.steps| && def.steps[k].id == rows'[i].stepID ==>
          rows'[i].attempt <= def.steps[k].retries + 1 + extra)
  }

  lemma KeysGrowWithin(def: Definition, rows: seq<StepRun>, rows': seq<StepRun>, extra: nat)
    requires AttemptsWithin(def, rows, extra) && KeysGrow(def, rows, rows', extra)
    ensures AttemptsWithin(def, rows', extra)
  {
    forall i, k | 0 <= i < |rows'| && 0 <= k < |def.steps| && def.steps[k].id == rows'[i].stepID
      ensures rows'[i].attempt <= def.steps[k].retries + 1 + extra
    {
      if i < |rows| { assert SameKey(rows[i], rows'[i]); }
    }
  }

  lemma KeysGrowTrans(def: Definition, a: seq<StepRun>, b: seq<StepRun>, c: seq<StepRun>, extra: nat)
    requires KeysGrow(def, a, b, extra) && KeysGrow(def, b, c, extra)
    ensures KeysGrow(def, a, c, extra)
  {
    forall i, k | |a| <= i < |c| && 0 <= k < |def.steps| && def.steps[k].id == c[i].stepID
      ensures c[i].attempt <= def.steps[k].retries + 1 + extra
    {
      if i < |b| { assert SameKey(b[i], c[i]); }
    }
  }

  lemma AdvanceStepGrows(s: State, w: World, step: Step, extra: nat)
    requires BudgetsOk(s.def)
    ensures KeysGrow(s.def, s.rows, AdvanceStep(s, w, step).rows, extra)
  {
    var s' := AdvanceStep(s, w, step);
    AdvanceStepFrame(s, w, step);
    var s1 := Expand(s, w, step);
    NewRowsShape(step, w.fan(step.id));
    forall i | |s.rows| <= i < |s'.rows| ensures s'.rows[i].attempt == 1 {
      StartRowsAt(s1.rows, w, step.id, i);
      assert s1.rows[i] == NewRows(step, w.fan(step.id))[i - |s.rows|];
    }
  }

  lemma {:induction false} PassGrows(s: State, w: World, k: nat, extra: nat)
    requires BudgetsOk(s.def) && k <= |s.def.steps|
    ensures KeysGrow(s.def, s.rows, Pass(s, w, k).rows, extra)
    decreases k
  {
    if k > 0 {
      hide KeysGrow, AdvanceStep;
      PassGrows(s, w, k - 1, extra);
      AdvanceStepGrows(Pass(s, w, k - 1), w, s.def.steps[k - 1], extra);
      KeysGrowTrans(s.def, s.rows, Pass(s, w, k - 1).rows, Pass(s, w, k).rows, extra);
    }
  }

  lemma StopGrows(def: Definition, rows: seq<StepRun>, p: StepState, r: StepState, extra: nat)
    ensures KeysGrow(def, rows, StopRows(rows, p, r), extra)
  {}

  lemma AdvanceGrows(s: State, w: World, extra: nat)
    requires BudgetsOk(s.def)
    ensures KeysGrow(s.def, s.rows, Advance(s, w).rows, extra)
  {
    if !s.status.Terminal() {
      hide KeysGrow;
      var p := Pass(s, w, |s.def.steps|);
      PassGrows(s, w, |s.def.steps|, extra);
      StopGrows(s.def, p.rows, Skipped, Cancelled, extra);
      KeysGrowTrans(s.def, s.rows, p.rows, StopRows(p.rows, Skipped, Cancelled), extra);
    }
  }

  lemma {:induction false} FoundStep(steps: seq<Step>, id: string)
    ensures var f := StepByID(steps, id);
            f.Some? ==> exists k :: 0 <= k < |steps| && steps[k] == f.value && f.value.id == id
  {
    if steps != [] && steps[0].id != id {
      FoundStep(steps[1..], id);
      var f := StepByID(steps[1..], id);
      if f.Some? {
        var k :| 0 <= k < |steps[1..]| && steps[1..][k] == f.value && f.value.id == id;
        assert steps[k + 1] == f.value;
      }
    }
  }

  lemma RecordGrows(s: State, r: RunId, extra: nat)
    requires WellOrdered(s.def) && Records(s, r)
    ensures KeysGrow(s.def, s.rows, Record(s, r).rows, extra)
  {
    FoundStep(s.def.steps, s.rows[r.row].stepID);
    var s' := Record(s, r);
    forall i, k | |s.rows| <= i < |s'.rows| && 0 <= k < |s.def.steps| && s.def.steps[k].id == s'.rows[i].stepID
      ensures s'.rows[i].attempt <= s.def.steps[k].retries + 1 + extra
    {
      UniqueStep(s.def, k);
    }
  }

  lemma CompleteGrows(s: State, r: RunId, w: World, extra: nat)
    requires WellOrdered(s.def) && BudgetsOk(s.def)
    ensures KeysGrow(s.def, s.rows, CompleteStep(s, r, w).rows, extra)
    ensures CompleteStep(s, r, w).def == s.def
  {
    if Records(s, r) {
      var s1 := Record(s, r);
      hide KeysGrow, WellOrdered, Advance;
      RecordGrows(s, r, extra);
      AdvanceGrows(s1, w, extra);
      AdvanceKeepsDone(s1, w);
      KeysGrowTrans(s.def, s.rows, s1.rows, Advance(s1, w).rows, extra);
    }
  }

  lemma {:induction false} ReconcileGrows(s: State, snapshot: seq<StepRun>, w: World, extra: nat)
    requires WellOrdered(s.def) && BudgetsOk(s.def)
    ensures KeysGrow(s.def, s.rows, Reconcile(s, snapshot, w).rows, extra)
    decreases |snapshot|
  {
    hide KeysGrow, WellOrdered, CompleteStep;
    GrowRefl(s.def, s.rows, extra);
    if snapshot != [] {
      var s1 := SweepRow(s, snapshot[0], w);
      if Stranded(s, snapshot[0]) {
        CompleteGrows(s, snapshot[0].runID.value, w, extra);
      }
      var w1 := w.(serial := w.serial + 1);
      ReconcileGrows(s1, snapshot[1..], w1, extra);
      KeysGrowTrans(s.def, s.rows, s1.rows, Reconcile(s1, snapshot[1..], w1).rows, extra);
    }
  }

  lemma GrowRefl(def: Definition, rows: seq<StepRun>, extra: nat)
    ensures KeysGrow(def, rows, rows, extra)
  {}

  /** A retry opens at most one more attempt per slot. */
  lemma {:induction false} ReopenGrows(def: Definition, rows: seq<StepRun>, cur: seq<nat>, extra: nat)
    requires forall k :: 0 <= k < |cur| ==> cur[k] < |rows|
    requires forall i :: 0 <= i < |cur| ==> ShortRow(def, rows[cur[i]], extra)
    ensures KeysGrow(def, rows, ReopenRows(rows, cur), extra + 1)
    decreases |cur|
  {
    if cur == [] { return; }
    var rows1 := ReopenOne(rows, cur[0]);
    assert KeysGrow(def, rows, rows1, extra + 1) by {
      assert ShortRow(def, rows[cur[0]], extra);
      forall i | 0 <= i < |rows| ensures SameKey(rows[i], rows1[i]) {}
    }
    forall k | 0 <= k < |cur[1..]| ensures cur[1..][k] < |rows1| && ShortRow(def, rows1[cur[1..][k]], extra) {
      assert cur[1..][k] == cur[k + 1];
      assert SameKey(rows[cur[k + 1]], rows1[cur[k + 1]]);
      assert ShortRow(def, rows[cur[k + 1]], extra);
    }
    ReopenGrows(def, rows1, cur[1..], extra);
    KeysGrowTrans(def, rows, rows1, ReopenRows(rows1, cur[1..]), extra + 1);
  }

  ghost predicate ShortRow(def: Definition, sr: StepRun, extra: nat) {
    forall k :: 0 <= k < |def.steps| && def.steps[k].id == sr.stepID ==> sr.attempt <= def.steps[k].retries + 1 + extra
  }

  lemma ShortRows(def: Definition, rows: seq<StepRun>, cur: seq<nat>, extra: nat)
    requires AttemptsWithin(def, rows, extra)
    requires forall k :: 0 <= k < |cur| ==> cur[k] < |rows|
    ensures forall i :: 0 <= i < |cur| ==> ShortRow(def, rows[cur[i]], extra)
  {}

  lemma RetryGrows(s: State, w: World, extra: nat)
    requires Inv(s) && BudgetsOk(s.def) && AttemptsWithin(s.def, s.rows, extra)
    ensures KeysGrow(s.def, s.rows, RetryFailed(s, w).rows, extra + 1)
  {
    hide Inv, AttemptsWithin, KeysGrow, Advance, AnyBad, ShortRow;
    GrowRefl(s.def, s.rows, extra + 1);
    if s.status.Terminal() && AnyBad(s.rows) {
      var cur := CurrentRows(s.rows);
      CurrentIsNewest(s.rows);
      ShortRows(s.def, s.rows, cur, extra);
      ReopenGrows(s.def, s.rows, cur, extra);
      var s1 := s.(rows := ReopenRows(s.rows, cur), status := Live);
      AdvanceGrows(s1, w, extra + 1);
      KeysGrowTrans(s.def, s.rows, s1.rows, Advance(s1, w).rows, extra + 1);
    }
  }

  function Retries(es: seq<Event>): nat
    decreases |es|
  {
    if es == [] then 0 else Retries(es[..|es| - 1]) + (if es[|es| - 1].Retrying? then 1 else 0)
  }

  lemma NextWithin(s: State, e: Event, extra: nat)
    requires Inv(s) && BudgetsOk(s.def) && AttemptsWithin(s.def, s.rows, extra)
    ensures AttemptsWithin(s.def, Next(s, e).rows, if e.Retrying? then extra + 1 else extra)
  {
    var more := if e.Retrying? then extra + 1 else extra;
    assert AttemptsWithin(s.def, s.rows, more);
    assert KeysGrow(s.def, s.rows, Next(s, e).rows, more) by {
      hide Inv, KeysGrow, AttemptsWithin, StopRows, Reconcile, RetryFailed, CompleteStep;
      InvWellOrdered(s);
      GrowRefl(s.def, s.rows, more);
      match e
      case Finished(r, result) =>
      case Message(r, w) => CompleteGrows(s, r, w, more);
      case Cancelling => StopGrows(s.def, s.rows, Cancelled, Cancelled, more);
      case Ticking(now, w) =>
        ReconcileGrows(s, s.rows, w, more);
        StopGrows(s.def, s.rows, Cancelled, Cancelled, more);
      case Retrying(w) => RetryGrows(s, w, extra);
    }
    KeysGrowWithin(s.def, s.rows, Next(s, e).rows, more);
  }

  lemma {:induction false} HistoryWithin(s: State, es: seq<Event>, extra: nat)
    requires Inv(s) && BudgetsOk(s.def) && AttemptsWithin(s.def, s.rows, extra)
    ensures AttemptsWithin(s.def, Exec(s, es).rows, extra + Retries(es))
    decreases |es|
  {
    hide Inv, AttemptsWithin, Next;
    if es != [] {
      var front := es[..|es| - 1];
      HistoryWithin(s, front, extra);
      HistoryInv(s, front);
      NextWithin(Exec(s, front), es[|es| - 1], extra + Retries(front));
    }
  }

  lemma StartWithin(def: Definition, now: int, w: World)
    requires WellOrdered(def) && BudgetsOk(def)
    ensures AttemptsWithin(def, Start(def, now, w).rows, 0)
  {
    var s := State(def, now, Live, FirstRows(def.steps), map[]);
    FirstRowsShape(def.steps);
    AdvanceGrows(s, w, 0);
    KeysGrowWithin(def, s.rows, Start(def, now, w).rows, 0);
  }

  /** Attempts of every slot are 1..n in order, all but the newest failed, and n never exceeds
      the step's budget plus one for the first attempt plus one for every operator retry. */
  lemma AttemptsAreBounded(def: Definition, now: int, w: World, es: seq<Event>)
    requires WellOrdered(def) && BudgetsOk(def)
    ensures var s := Exec(Start(def, now, w), es);
            Attempts(s.rows) && AttemptsWithin(def, s.rows, Retries(es))
  {
    hide Inv, AttemptsWithin, Attempts;
    StartInv(def, now, w);
    StartWithin(def, now, w);
    HistoryInv(Start(def, now, w), es);
    HistoryWithin(Start(def, now, w), es, 0);
    InvAttempts(Exec(Start(def, now, w), es));
  }

  lemma InvAttempts(s: State)
    requires Inv(s)
    ensures Attempts(s.rows) && RowsInDef(s.def, s.rows)
  {}

  // ---------------------------------------------------------------- total work

  const MAX_RUNS: nat := MAX_STEPS * MAX_FANOUT * (MAX_RETRIES + 1)

  ghost function StepIndex(def: Definition, id: string): (k: nat)
    requires HasStep(def.steps, id)
    ensures k < |def.steps| && def.steps[k].id == id
  {
    var k :| 0 <= k < |def.steps| && def.steps[k].id == id; k
  }

  /** A step run's position in the grid of step, fan-out index and attempt. */
  ghost function CellOf(def: Definition, sr: StepRun): int
    requires HasStep(def.steps, sr.stepID)
  {
    (StepIndex(def, sr.stepID) * MAX_FANOUT + sr.index) * (MAX_RETRIES + 1) + (sr.attempt - 1)
  }

  lemma {:induction false} DistinctBelow(xs: seq<int>, n: nat)
    requires forall i :: 0 <= i < |xs| ==> 0 <= xs[i] < n
    requires forall i, j :: 0 <= i < j < |xs| ==> xs[i] != xs[j]
    ensures |xs| <= n
    decreases n
  {
    if xs != [] {
      assert 0 <= xs[0] < n;
      if i :| 0 <= i < |xs| && xs[i] == n - 1 {
        var ys := xs[..i] + xs[i + 1..];
        forall j | 0 <= j < |ys| ensures ys[j] == xs[if j < i then j else j + 1] {}
        DistinctBelow(ys, n - 1);
      } else {
        DistinctBelow(xs, n - 1);
      }
    }
  }

  lemma CellInGrid(s: State, i: nat)
    requires RowsInDef(s.def, s.rows) && Attempts(s.rows) && BudgetsOk(s.def) && |s.def.steps| <= MAX_STEPS
    requires AttemptsWithin(s.def, s.rows, 0) && i < |s.rows|
    ensures 1 <= s.rows[i].attempt <= MAX_RETRIES + 1 && s.rows[i].index < MAX_FANOUT
    ensures 0 <= CellOf(s.def, s.rows[i]) < MAX_RUNS
  {
    hide Increasing, Consecutive, OldFailed;
    var k := StepIndex(s.def, s.rows[i].stepID);
    assert s.rows[i].attempt <= s.def.steps[k].retries + 1;
  }

  /** Different slots or attempts lie in different cells. */
  lemma CellsDiffer(def: Definition, a: StepRun, b: StepRun)
    requires HasStep(def.steps, a.stepID) && HasStep(def.steps, b.stepID)
    requires a.index < MAX_FANOUT && b.index < MAX_FANOUT
    requires 1 <= a.attempt <= MAX_RETRIES + 1 && 1 <= b.attempt <= MAX_RETRIES + 1
    requires !SameSlot(a, b) || a.attempt != b.attempt
    ensures CellOf(def, a) != CellOf(def, b)
  {
    var k, l := StepIndex(def, a.stepID), StepIndex(def, b.stepID);
    assert k * MAX_FANOUT + a.index == l * MAX_FANOUT + b.index ==> k == l && a.index == b.index;
  }

  lemma RowsAreBounded(s: State)
    requires Attempts(s.rows) && RowsInDef(s.def, s.rows)
    requires BudgetsOk(s.def) && |s.def.steps| <= MAX_STEPS && AttemptsWithin(s.def, s.rows, 0)
    ensures |s.rows| <= 20 * 25 * 4
  {
    var cells := seq(|s.rows|, i requires 0 <= i < |s.rows| => CellOf(s.def, s.rows[i]));
    forall i | 0 <= i < |cells| ensures 0 <= cells[i] < MAX_RUNS {
      CellInGrid(s, i);
    }
    forall i, j | 0 <= i < j < |cells| ensures cells[i] != cells[j] {
      CellInGrid(s, i);
      CellInGrid(s, j);
      assert SameSlot(s.rows[i], s.rows[j]) ==> s.rows[i].attempt < s.rows[j].attempt;
      CellsDiffer(s.def, s.rows[i], s.rows[j]);
    }
    DistinctBelow(cells, MAX_RUNS);
  }

  /** Distinct runs belong to distinct rows below n. */
  lemma {:induction false} RunsPerRow(runs: set<RunId>, n: nat)
    requires forall r :: r in runs ==> r.row < n
    requires forall r, q :: r in runs && q in runs && r.row == q.row ==> r == q
    ensures |runs| <= n
    decreases n
  {
    if r :| r in runs && r.row == n - 1 {
      RunsPerRow(runs - {r}, n - 1);
    } else if n > 0 {
      RunsPerRow(runs, n - 1);
    } else {
      assert runs == {};
    }
  }

  /** A pipeline run no operator retries starts at most 20 * 25 * 4 = 2000 runs. */
  lemma WorkIsBounded(def: Definition, now: int, w: World, es: seq<Event>)
    requires WellOrdered(def) && BudgetsOk(def) && |def.steps| <= MAX_STEPS
    requires LegalHistory(Start(def, now, w), es) && NoRetry(es)
    ensures var s := Exec(Start(def, now, w), es);
            |s.runs| <= |s.rows| <= 2000
  {
    var s := Exec(Start(def, now, w), es);
    AttemptsAreBounded(def, now, w, es);
    NoRetriesCount(es);
    StartInv(def, now, w);
    HistoryInv(Start(def, now, w), es);
    OneRunPerStepRun(def, now, w, es);
    InvAttempts(s);
    RowsAreBounded(s);
    RunsPerRow(s.runs.Keys, |s.rows|);
  }

  lemma {:induction false} NoRetriesCount(es: seq<Event>)
    requires NoRetry(es)
    ensures Retries(es) == 0
    decreases |es|
  {
    if es != [] {
      assert NoRetry(es[..|es| - 1]);
      NoRetriesCount(es[..|es| - 1]);
    }
  }

  // ---------------------------------------------------------------- termination

  function Ended(rows: seq<StepRun>): nat
    decreases |rows|
  {
    if rows == [] then 0
    else Ended(rows[..|rows| - 1]) + (if rows[|rows| - 1].state.Terminal() then 1 else 0)
  }

  lemma {:induction false} EndedGrows(rows: seq<StepRun>, rows': seq<StepRun>)
    requires Forward(rows, rows')
    ensures Ended(rows) <= Ended(rows')
    ensures (exists i :: 0 <= i < |rows| && !rows[i].state.Terminal() && rows'[i].state.Terminal()) ==>
              Ended(rows) < Ended(rows')
    decreases |rows'|
  {
    if |rows'| > |rows| {
      var front := rows'[..|rows'| - 1];
      assert Forward(rows, front);
      EndedGrows(rows, front);
      if i :| 0 <= i < |rows| && !rows[i].state.Terminal() && rows'[i].state.Terminal() {
        assert front[i].state.Terminal();
      }
    } else if rows != [] {
      var front, front' := rows[..|rows| - 1], rows'[..|rows| - 1];
      forall i | 0 <= i < |front| ensures RowForward(front[i], front'[i]) {
        assert RowForward(rows[i], rows'[i]);
      }
      EndedGrows(front, front');
      assert RowForward(rows[|front|], rows'[|front|]);
      if i :| 0 <= i < |rows| && !rows[i].state.Terminal() && rows'[i].state.Terminal() && i < |front| {
        assert !front[i].state.Terminal() && front'[i].state.Terminal();
      }
    }
  }

  lemma {:induction false} EndedAtMost(rows: seq<StepRun>)
    ensures Ended(rows) <= |rows|
    decreases |rows|
  {
    if rows != [] { EndedAtMost(rows[..|rows| - 1]); }
  }

  /** The results one sweep records. */
  ghost function Swept(s: State, snapshot: seq<StepRun>, w: World): nat
    decreases |snapshot|
  {
    if snapshot == [] then 0
    else
      (if Stranded(s, snapshot[0]) && Records(s, snapshot[0].runID.value) then 1 else 0)
        + Swept(SweepRow(s, snapshot[0], w), snapshot[1..], w.(serial := w.serial + 1))
  }

  /** The results an event records, through a message or a sweep. */
  ghost function Recordings(s: State, e: Event): nat {
    match e
    case Message(r, w) => if Records(s, r) then 1 else 0
    case Ticking(now, w) =>
      if !s.status.Terminal() && s.startedAt < now && now - s.startedAt < TimeoutOf(s.def) then Swept(s, s.rows, w)
          else 0
    case _ => 0
  }

  ghost function Completions(s: State, es: seq<Event>): nat
    decreases |es|
  {
    if es == [] then 0
    else Completions(s, es[..|es| - 1]) + Recordings(Exec(s, es[..|es| - 1]), es[|es| - 1])
  }

  /** A message that records something ends a step run for good. */
  lemma CompleteEndsRow(s: State, r: RunId, w: World)
    requires Inv(s) && Fresh(s, w)
    ensures (if Records(s, r) then 1 else 0) + Ended(s.rows) <= Ended(CompleteStep(s, r, w).rows)
  {
    hide Inv, Forward, CompleteStep, Fresh;
    CompleteForward(s, r, w);
    EndedGrows(s.rows, CompleteStep(s, r, w).rows);
    assert Records(s, r) ==> !s.rows[r.row].state.Terminal();
  }

  lemma {:induction false} SweepEndsRows(s: State, snapshot: seq<StepRun>, w: World)
    requires Inv(s) && Fresh(s, w)
    ensures Swept(s, snapshot, w) + Ended(s.rows) <= Ended(Reconcile(s, snapshot, w).rows)
    decreases |snapshot|
  {
    hide Inv, Forward, CompleteStep, Fresh, KeepsResults, OneRun;
    if snapshot != [] {
      if Stranded(s, snapshot[0]) {
        CompleteEndsRow(s, snapshot[0].runID.value, w);
      }
      SweepRowForward(s, snapshot[0], w);
      SweepEndsRows(SweepRow(s, snapshot[0], w), snapshot[1..], w.(serial := w.serial + 1));
    }
  }

  lemma RecordingsEndRows(s: State, e: Event)
    requires Inv(s) && Legal(s, e) && !e.Retrying?
    ensures Recordings(s, e) + Ended(s.rows) <= Ended(Next(s, e).rows)
  {
    hide Inv, Forward, CompleteStep, Reconcile, Swept, StopRows, OneRun;
    NextForward(s, e);
    EndedGrows(s.rows, Next(s, e).rows);
    match e
    case Message(r, w) => CompleteEndsRow(s, r, w);
    case Ticking(now, w) => SweepEndsRows(s, s.rows, w);
    case _ =>
  }

  lemma {:induction false} CompletionsEndRows(s: State, es: seq<Event>)
    requires Inv(s) && LegalHistory(s, es) && NoRetry(es)
    ensures Completions(s, es) + Ended(s.rows) <= Ended(Exec(s, es).rows)
    decreases |es|
  {
    hide Inv, Next, Recordings, Legal;
    if es != [] {
      var front := es[..|es| - 1];
      assert NoRetry(front);
      CompletionsEndRows(s, front);
      HistoryInv(s, front);
      RecordingsEndRows(Exec(s, front), es[|es| - 1]);
    }
  }

  /** Without a retry messages and sweeps together record at most 2000 results. */
  lemma CompletionsAreBounded(def: Definition, now: int, w: World, es: seq<Event>)
    requires WellOrdered(def) && BudgetsOk(def) && |def.steps| <= MAX_STEPS
    requires LegalHistory(Start(def, now, w), es) && NoRetry(es)
    ensures Completions(Start(def, now, w), es) <= 2000
  {
    StartInv(def, now, w);
    CompletionsEndRows(Start(def, now, w), es);
    WorkIsBounded(def, now, w, es);
    EndedAtMost(Exec(Start(def, now, w), es).rows);
  }
}
