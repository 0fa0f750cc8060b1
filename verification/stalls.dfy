/** Steps without an id keep no order in the file: when a run can end up live with nothing running, or recorded as a
    success without them. */
module Stalls {
  import opened Definitions
  import opened StepRows
  import opened RunState
  import opened AdvanceProofs
  import opened Invariants
  import opened History
  import opened UnnamedSteps
  import opened PipelineLiveness

  // ---------------------------------------------------------------- the condition

  /** Step j needs node q, directly or through other steps before it. */
  ghost predicate Follows(def: Definition, q: string, j: nat)
    requires j < |def.steps|
    decreases j
  {
    exists e :: 0 <= e < j && def.steps[e].id in def.steps[j].needs && (def.steps[e].id == q || Follows(def, q, e))
  }

  /** The unnamed step t needs list j, whose turn comes later. */
  predicate LateNeed(def: Definition, t: int, j: int) {
    && 0 <= t < j < |def.steps| && def.steps[j].id != "" && def.steps[j].over != ""
    && def.steps[j].id in def.steps[t].needs
  }

  /** With nothing but lists to begin with, every unnamed step that can become ready misses one of them. */
  ghost predicate StartMisses(def: Definition) {
    && (forall k :: 0 <= k < |def.steps| && def.steps[k].id != "" ==> def.steps[k].over != "")
    && (forall t :: 0 <= t < |def.steps| && def.steps[t].id == "" && Answered(def.steps, t) ==>
          exists j :: LateNeed(def, t, j))
  }

  /** Only lists depend on node q, and every unnamed step that can become ready misses one of them. */
  ghost predicate TurnMisses(def: Definition, q: string) {
    && (forall k :: 0 <= k < |def.steps| && def.steps[k].id != "" && Follows(def, q, k) ==> def.steps[k].over != "")
    && (forall t :: 0 <= t < |def.steps| && def.steps[t].id == "" && Answered(def.steps, t) ==>
          exists j :: LateNeed(def, t, j) && Follows(def, q, j))
  }

  /** There is a call after which nothing will ever start an unnamed step: none ever does, or it is the first call, or
      the one that records the last result of a node. */
  ghost predicate Misses(def: Definition) {
    || Unanswered(def.steps)
    || StartMisses(def)
    || exists k :: 0 <= k < |def.steps| && def.steps[k].id != "" && TurnMisses(def, def.steps[k].id)
  }

  /** A plain unnamed step has a row from the start, and that can be left waiting. */
  ghost predicate MayStall(def: Definition) {
    PlainUnnamed(def.steps) && Misses(def)
  }

  /** An unnamed list has none, and can be forgotten. */
  ghost predicate MayForget(def: Definition) {
    HasStep(def.steps, "") && !PlainUnnamed(def.steps) && Misses(def)
  }

  // ---------------------------------------------------------------- what every such run keeps

  predicate Named(def: Definition, j: int) {
    0 <= j < |def.steps| && def.steps[j].id != ""
  }

  ghost predicate Done(rows: seq<StepRun>, id: string) { StateOf(rows, id) == Succeeded }

  ghost predicate HasRows(rows: seq<StepRun>, id: string) { StateOf(rows, id) != Absent }

  ghost predicate KnownNodes(def: Definition, rows: seq<StepRun>) {
    forall id :: HasRows(rows, id) ==> HasStep(def.steps, id)
  }

  ghost predicate ReadyUnnamed(def: Definition, rows: seq<StepRun>) {
    exists t :: 0 <= t < |def.steps| && def.steps[t].id == "" && Answered(def.steps, t) &&
      DepsSucceeded(rows, def.steps[t])
  }

  /** Rows without a step id come from a plain step or a ready one, and succeed only when some unnamed step is ready. */
  ghost predicate UnnamedReady(def: Definition, rows: seq<StepRun>) {
    && (HasRows(rows, "") ==> PlainUnnamed(def.steps) || ReadyUnnamed(def, rows))
    && (Done(rows, "") ==> ReadyUnnamed(def, rows))
  }

  /** Every plain step has a row from the start. */
  ghost predicate PlainRows(def: Definition, rows: seq<StepRun>) {
    forall k :: 0 <= k < |def.steps| && def.steps[k].over == "" ==> HasRows(rows, def.steps[k].id)
  }

  /** A named step that has succeeded, and a list that has rows, had all its needs. */
  ghost predicate SafeNodes(def: Definition, rows: seq<StepRun>) {
    forall j :: Named(def, j) ==>
      Done(rows, def.steps[j].id) || (def.steps[j].over != "" && HasRows(rows, def.steps[j].id)) ==>
        DepsSucceeded(rows, def.steps[j])
  }

  ghost predicate Nodes(def: Definition, rows: seq<StepRun>) {
    KnownNodes(def, rows) && PlainRows(def, rows) && UnnamedReady(def, rows) && SafeNodes(def, rows)
  }

  /** A run may be started for node id. */
  ghost predicate Allowed(def: Definition, rows: seq<StepRun>, id: string) {
    if id == "" then ReadyUnnamed(def, rows) else NeedsDone(def, rows, id)
  }

  ghost predicate RunTidy(s: State, r: RunId) {
    && r.row < |s.rows| && (s.rows[r.row].state.Terminal() || Newest(s.rows, r.row))
    && Allowed(s.def, s.rows, s.rows[r.row].stepID)
  }

  ghost predicate RunsTidy(s: State) {
    forall r :: r in s.runs ==> RunTidy(s, r)
  }

  ghost predicate Tidy(s: State) {
    Nodes(s.def, s.rows) && RunsTidy(s)
  }

  /** The same nodes have rows and the same have succeeded, except that node q may have come to succeed. */
  ghost predicate Alike(rows: seq<StepRun>, rows': seq<StepRun>, q: string) {
    forall id :: (HasRows(rows, id) <==> HasRows(rows', id)) && (id != q ==> (Done(rows, id) <==> Done(rows', id)))
  }

  ghost predicate SameNodes(rows: seq<StepRun>, rows': seq<StepRun>) {
    forall id :: (HasRows(rows, id) <==> HasRows(rows', id)) && (Done(rows, id) <==> Done(rows', id))
  }

  lemma SameNodesDeps(def: Definition, rows: seq<StepRun>, rows': seq<StepRun>)
    requires SameNodes(rows, rows')
    ensures forall j :: 0 <= j < |def.steps| ==>
              (DepsSucceeded(rows, def.steps[j]) <==> DepsSucceeded(rows', def.steps[j]))
    ensures Nodes(def, rows) ==> Nodes(def, rows')
    ensures NamedReady(def, rows) ==> NamedReady(def, rows')
  {
    forall j | 0 <= j < |def.steps| ensures DepsSucceeded(rows, def.steps[j]) <==> DepsSucceeded(rows', def.steps[j]) {
      forall n | 0 <= n < |def.steps[j].needs|
        ensures StateOf(rows, def.steps[j].needs[n]) == Succeeded <==>
                StateOf(rows', def.steps[j].needs[n]) == Succeeded
      {
        assert Done(rows, def.steps[j].needs[n]) <==> Done(rows', def.steps[j].needs[n]);
      }
    }
  }

  /** Every named step whose needs succeeded has rows. */
  ghost predicate NamedReady(def: Definition, rows: seq<StepRun>) {
    forall j :: Named(def, j) && DepsSucceeded(rows, def.steps[j]) ==> HasRows(rows, def.steps[j].id)
  }

  // ---------------------------------------------------------------- one step of the pass

  /** The step before k that a named step needs. */
  lemma NamedNeed(def: Definition, k: nat, n: nat) returns (e: nat)
    requires NamedInOrder(def) && Named(def, k) && n < |def.steps[k].needs|
    ensures e < k && Named(def, e) && def.steps[e].id == def.steps[k].needs[n]
  {
    assert DefinedBefore(def, def.steps[k].needs[n], k);
    e :| 0 <= e < k && def.steps[e].id == def.steps[k].needs[n];
  }

  lemma NamedUnique(def: Definition, j: nat, k: nat)
    requires NamedInOrder(def) && Named(def, j) && k < |def.steps| && def.steps[k].id == def.steps[j].id
    ensures k == j
  {}

  lemma DepsStay(rows: seq<StepRun>, rows': seq<StepRun>, step: Step)
    requires KeepsDone(rows, rows') && DepsSucceeded(rows, step)
    ensures DepsSucceeded(rows', step)
  {
    KeepsDoneStates(rows, rows');
  }

  /** What work on step k leaves of the nodes: the others as they were, its own with rows still. */
  lemma StepTouches(s: State, w: World, k: nat)
    requires k < |s.def.steps|
    ensures var rows', id := AdvanceStep(s, w, s.def.steps[k]).rows, s.def.steps[k].id;
            && (forall x :: x != id ==>
                  (Done(rows', x) <==> Done(s.rows, x)) && (HasRows(rows', x) <==> HasRows(s.rows, x)))
            && (HasRows(s.rows, id) ==> HasRows(rows', id))
            && forall j :: 0 <= j < |s.def.steps| && DepsSucceeded(s.rows, s.def.steps[j]) ==>
                 DepsSucceeded(rows', s.def.steps[j])
  {
    var step := s.def.steps[k];
    var s' := AdvanceStep(s, w, step);
    AdvanceStepFrame(s, w, step);
    AdvanceStepKeepsDone(s, w, step);
    AllDepsStay(s.def, s.rows, s'.rows);
    hide AdvanceStep, StateOf, KeepsDone, TouchesOnly, DepsSucceeded, Handled;
    forall x | x != step.id
      ensures (Done(s'.rows, x) <==> Done(s.rows, x)) && (HasRows(s'.rows, x) <==> HasRows(s.rows, x))
    {
      TouchesOnlyLeaves(s.rows, s'.rows, step.id, x);
    }
    if HasRows(s.rows, step.id) {
      RowsStayTouched(s.rows, s'.rows, step.id, step.id);
    }
  }

  lemma StepNodes(s: State, w: World, k: nat)
    requires NamedInOrder(s.def) && k < |s.def.steps| && Nodes(s.def, s.rows)
    ensures Nodes(s.def, AdvanceStep(s, w, s.def.steps[k]).rows)
  {
    var step := s.def.steps[k];
    var s' := AdvanceStep(s, w, step);
    hide AdvanceStep, HasRows, Done, DepsSucceeded, NamedInOrder, Answered, PlainUnnamed;
    StepTouches(s, w, k);
    if s' != s {
      StepReady(s, w, step);
      if step.id == "" {
        ReadyIsSome(s.def, s.rows, k);
      }
      StepSafe(s.def, s.rows, s'.rows, k);
    }
  }

  lemma StepSafe(def: Definition, rows: seq<StepRun>, rows': seq<StepRun>, k: nat)
    requires NamedInOrder(def) && k < |def.steps| && SafeNodes(def, rows) && DepsSucceeded(rows, def.steps[k])
    requires forall x :: x != def.steps[k].id ==>
               (Done(rows', x) <==> Done(rows, x)) && (HasRows(rows', x) <==> HasRows(rows, x))
    requires forall j :: 0 <= j < |def.steps| && DepsSucceeded(rows, def.steps[j]) ==>
               DepsSucceeded(rows', def.steps[j])
    ensures SafeNodes(def, rows')
  {
    hide HasRows, Done, DepsSucceeded, NamedInOrder;
    forall j | Named(def, j) && def.steps[j].id == def.steps[k].id ensures j == k {
      NamedUnique(def, j, k);
    }
  }

  /** A ready unnamed step needs named steps only, or there is one that does and is ready too. */
  lemma ReadyIsSome(def: Definition, rows: seq<StepRun>, k: nat)
    requires Nodes(def, rows) && k < |def.steps| && def.steps[k].id == "" && DepsSucceeded(rows, def.steps[k])
    ensures ReadyUnnamed(def, rows)
  {
    hide StateOf, SafeNodes, PlainRows;
    if !Answered(def.steps, k) {
      var n :| 0 <= n < |def.steps[k].needs| &&
        (def.steps[k].needs[n] == "" || !HasStep(def.steps, def.steps[k].needs[n]));
      assert Done(rows, def.steps[k].needs[n]) && HasRows(rows, def.steps[k].needs[n]);
    }
  }

  lemma StepReady(s: State, w: World, step: Step)
    requires AdvanceStep(s, w, step) != s
    ensures DepsSucceeded(s.rows, step)
  {}

  lemma ReadyNode(def: Definition, rows: seq<StepRun>, k: nat)
    requires NamedInOrder(def) && Named(def, k) && DepsSucceeded(rows, def.steps[k])
    ensures NeedsDone(def, rows, def.steps[k].id)
  {
    forall j | 0 <= j < |def.steps| && def.steps[j].id == def.steps[k].id ensures DepsSucceeded(rows, def.steps[j]) {
      NamedUnique(def, k, j);
    }
  }

  lemma AllowedStays(def: Definition, rows: seq<StepRun>, rows': seq<StepRun>, id: string)
    requires Allowed(def, rows, id)
    requires forall j :: 0 <= j < |def.steps| && DepsSucceeded(rows, def.steps[j]) ==>
               DepsSucceeded(rows', def.steps[j])
    ensures Allowed(def, rows', id)
  {
    hide DepsSucceeded, Answered;
  }

  lemma AllDepsStay(def: Definition, rows: seq<StepRun>, rows': seq<StepRun>)
    requires KeepsDone(rows, rows')
    ensures forall j :: 0 <= j < |def.steps| && DepsSucceeded(rows, def.steps[j]) ==> DepsSucceeded(rows', def.steps[j])
  {
    hide DepsSucceeded, KeepsDone;
    forall j | 0 <= j < |def.steps| && DepsSucceeded(rows, def.steps[j]) ensures DepsSucceeded(rows', def.steps[j]) {
      DepsStay(rows, rows', def.steps[j]);
    }
  }

  lemma ExpandRunsTidy(s: State, w: World, step: Step)
    requires RunsTidy(s)
    ensures RunsTidy(Expand(s, w, step))
  {
    var s1 := Expand(s, w, step);
    if StateOf(s.rows, step.id) == Absent {
      var added := NewRows(step, w.fan(step.id));
      AbsentHasNoRows(s.rows, step.id);
      NewRowsShape(step, w.fan(step.id));
      NewSlotsNewest(s.rows, added, step.id);
      KeepsDoneExpanded(s.rows, added, step.id);
      AllDepsStay(s.def, s.rows, s1.rows);
      hide StateOf, Newest, KeepsDone, Allowed;
      forall r | r in s1.runs ensures RunTidy(s1, r) {
        assert RunTidy(s, r);
        AllowedStays(s.def, s.rows, s1.rows, s.rows[r.row].stepID);
      }
    }
  }

  lemma StartRunsTidy(s: State, w: World, id: string)
    requires RunsTidy(s) && Allowed(s.def, s.rows, id)
    ensures RunsTidy(StartPending(s, w, id))
  {
    var s' := StartPending(s, w, id);
    StartRowsFrame(s.rows, w, id);
    StartedKeepsDone(s.rows, w, id);
    AllDepsStay(s.def, s.rows, s'.rows);
    hide StateOf, Newest, KeepsDone, Allowed, StartRows;
    forall r | r in s'.runs ensures RunTidy(s', r) {
      assert r in s.runs ==> RunTidy(s, r);
      StartRowsAt(s.rows, w, id, r.row);
      AllowedStays(s.def, s.rows, s'.rows, s'.rows[r.row].stepID);
    }
  }

  lemma StepRunsTidy(s: State, w: World, k: nat)
    requires NamedInOrder(s.def) && k < |s.def.steps| && Tidy(s)
    ensures RunsTidy(AdvanceStep(s, w, s.def.steps[k]))
  {
    hide RunsTidy, Expand, StartPending, Allowed, NamedInOrder, Nodes;
    var step := s.def.steps[k];
    if DepsSucceeded(s.rows, step) {
      var s1 := Expand(s, w, step);
      ExpandRunsTidy(s, w, step);
      ReadyIsAllowed(s.def, s.rows, k);
      ExpandKeepsDeps(s, w, step);
      AllowedStays(s.def, s.rows, s1.rows, step.id);
      StartRunsTidy(s1, w, step.id);
    }
  }

  lemma ReadyIsAllowed(def: Definition, rows: seq<StepRun>, k: nat)
    requires NamedInOrder(def) && k < |def.steps| && Nodes(def, rows) && DepsSucceeded(rows, def.steps[k])
    ensures Allowed(def, rows, def.steps[k].id)
  {
    hide NamedInOrder, Nodes, DepsSucceeded, ReadyUnnamed;
    if def.steps[k].id == "" {
      ReadyIsSome(def, rows, k);
    } else {
      ReadyNode(def, rows, k);
    }
  }

  lemma ExpandKeepsDeps(s: State, w: World, step: Step)
    ensures var s1 := Expand(s, w, step);
            && s1.def == s.def
            && forall j :: 0 <= j < |s.def.steps| && DepsSucceeded(s.rows, s.def.steps[j]) ==>
                 DepsSucceeded(s1.rows, s.def.steps[j])
  {
    hide DepsSucceeded;
    if StateOf(s.rows, step.id) == Absent {
      AbsentHasNoRows(s.rows, step.id);
      NewRowsShape(step, w.fan(step.id));
      KeepsDoneExpanded(s.rows, NewRows(step, w.fan(step.id)), step.id);
      AllDepsStay(s.def, s.rows, Expand(s, w, step).rows);
    }
  }

  /** Only a list that had no rows can succeed on its own turn, and only when it was ready. */
  lemma OnlyListsSucceed(s: State, w: World, step: Step)
    requires !Done(s.rows, step.id) && Done(AdvanceStep(s, w, step).rows, step.id)
    ensures step.over != "" && !HasRows(s.rows, step.id) && DepsSucceeded(s.rows, step)
  {
    var s1 := Expand(s, w, step);
    var rows' := AdvanceStep(s, w, step).rows;
    StartRowsFrame(s1.rows, w, step.id);
    SucceededMeans(rows', step.id);
    forall i | NewestOf(s1.rows, step.id, i) ensures s1.rows[i] == rows'[i] {
      StartRowsAt(s1.rows, w, step.id, i);
    }
    SucceededMeans(s1.rows, step.id);
    if step.over == "" {
      PlainIsUndone(s, w, step);
    }
  }

  lemma PlainIsUndone(s: State, w: World, step: Step)
    requires step.over == "" && !Done(s.rows, step.id)
    ensures !Done(Expand(s, w, step).rows, step.id)
  {
    if StateOf(s.rows, step.id) == Absent {
      var added := NewRows(step, w.fan(step.id));
      var rows' := s.rows + added;
      AbsentHasNoRows(s.rows, step.id);
      NewSlotsNewest(s.rows, added, step.id);
      assert NewestOf(rows', step.id, |s.rows|) && rows'[|s.rows|].state == Pending;
      SucceededMeans(rows', step.id);
    }
  }

  // ---------------------------------------------------------------- the whole pass

  /** Of the first k steps, every named one whose needs succeeded is handled. */
  ghost predicate NamedPassed(def: Definition, rows: seq<StepRun>, k: nat) {
    forall j :: Named(def, j) && j < k && DepsSucceeded(rows, def.steps[j]) ==> Handled(rows, def.steps[j].id)
  }

  /** Work on step k disturbs neither an earlier named node nor what a named step up to k needs. */
  lemma NamedUndisturbed(def: Definition, rows: seq<StepRun>, rows': seq<StepRun>, j: nat, k: nat)
    requires NamedInOrder(def) && Named(def, j) && j <= k < |def.steps|
    requires TouchesOnly(rows, rows', def.steps[k].id)
    ensures DepsSucceeded(rows, def.steps[j]) <==> DepsSucceeded(rows', def.steps[j])
    ensures j < k ==> (Handled(rows, def.steps[j].id) <==> Handled(rows', def.steps[j].id))
  {
    hide StateOf, TouchesOnly, Newest;
    forall n | 0 <= n < |def.steps[j].needs|
      ensures StateOf(rows, def.steps[j].needs[n]) == StateOf(rows', def.steps[j].needs[n])
    {
      var e := NamedNeed(def, j, n);
      TouchesOnlyLeaves(rows, rows', def.steps[k].id, def.steps[e].id);
    }
    if j < k {
      HandledElsewhere(rows, rows', def.steps[k].id, def.steps[j].id);
    }
  }

  lemma HandledElsewhere(rows: seq<StepRun>, rows': seq<StepRun>, id: string, other: string)
    requires TouchesOnly(rows, rows', id) && other != id
    ensures Handled(rows, other) <==> Handled(rows', other)
  {
    TouchesOnlyLeaves(rows, rows', id, other);
    forall i | NewestOf(rows, other, i) ensures rows'[i] == rows[i] {}
  }

  lemma StepNamedPassed(s: State, w: World, k: nat)
    requires NamedInOrder(s.def) && k < |s.def.steps| && NamedPassed(s.def, s.rows, k)
    ensures NamedPassed(s.def, AdvanceStep(s, w, s.def.steps[k]).rows, k + 1)
  {
    hide Handled, DepsSucceeded, TouchesOnly, NamedInOrder;
    var s' := AdvanceStep(s, w, s.def.steps[k]);
    AdvanceStepFrame(s, w, s.def.steps[k]);
    forall j | Named(s.def, j) && j < k + 1 && DepsSucceeded(s'.rows, s.def.steps[j])
      ensures Handled(s'.rows, s.def.steps[j].id)
    {
      NamedUndisturbed(s.def, s.rows, s'.rows, j, k);
    }
  }

  lemma {:induction false} PassTidy(s: State, w: World, k: nat)
    requires NamedInOrder(s.def) && k <= |s.def.steps| && Tidy(s)
    ensures Tidy(Pass(s, w, k)) && NamedPassed(s.def, Pass(s, w, k).rows, k)
    decreases k
  {
    hide NamedInOrder, Nodes, RunsTidy, AdvanceStep, NamedPassed;
    if k == 0 {
      NonePassed(s.def, s.rows);
    } else {
      PassTidy(s, w, k - 1);
      var s1 := Pass(s, w, k - 1);
      StepNodes(s1, w, k - 1);
      StepRunsTidy(s1, w, k - 1);
      StepNamedPassed(s1, w, k - 1);
      StepKeepsDef(s1, w, s.def.steps[k - 1]);
    }
  }

  lemma NonePassed(def: Definition, rows: seq<StepRun>)
    ensures NamedPassed(def, rows, 0)
  {}

  lemma StepKeepsDef(s: State, w: World, step: Step)
    ensures AdvanceStep(s, w, step).def == s.def
  {}

  /** What had succeeded after k steps of a pass has succeeded after more of them. */
  lemma {:induction false} LaterKeepsDone(s: State, w: World, k: nat, m: nat)
    requires k <= m <= |s.def.steps|
    ensures KeepsDone(Pass(s, w, k).rows, Pass(s, w, m).rows)
    decreases m
  {
    hide AdvanceStep, KeepsDone;
    KeepsDoneRefl(Pass(s, w, k).rows);
    if k < m {
      LaterKeepsDone(s, w, k, m - 1);
      var s1, step := Pass(s, w, m - 1), s.def.steps[m - 1];
      AdvanceStepKeepsDone(s1, w, step);
      KeepsDoneTrans(Pass(s, w, k).rows, s1.rows, AdvanceStep(s1, w, step).rows);
    }
  }

  /** After its turn a named node is left alone. */
  lemma {:induction false} SettledAfterTurn(s: State, w: World, j: nat, k: nat)
    requires NamedInOrder(s.def) && Named(s.def, j) && j < k <= |s.def.steps|
    ensures StateOf(Pass(s, w, k).rows, s.def.steps[j].id) == StateOf(Pass(s, w, j + 1).rows, s.def.steps[j].id)
    decreases k
  {
    hide AdvanceStep, StateOf, Handled, DepsSucceeded, TouchesOnly;
    if j + 1 < k {
      SettledAfterTurn(s, w, j, k - 1);
      var s1, step := Pass(s, w, k - 1), s.def.steps[k - 1];
      AdvanceStepFrame(s1, w, step);
      TouchesOnlyLeaves(s1.rows, AdvanceStep(s1, w, step).rows, step.id, s.def.steps[j].id);
    }
  }

  /** A node that comes to succeed during a pass is a list that had no rows when the pass began. */
  lemma {:induction false} SucceedsInPass(s: State, w: World, j: nat, k: nat)
    requires NamedInOrder(s.def) && Named(s.def, j) && k <= |s.def.steps|
    requires !Done(s.rows, s.def.steps[j].id) && Done(Pass(s, w, k).rows, s.def.steps[j].id)
    ensures s.def.steps[j].over != "" && !HasRows(s.rows, s.def.steps[j].id)
    decreases k
  {
    hide AdvanceStep, StateOf, Handled, DepsSucceeded, TouchesOnly, NamedInOrder;
    var s1, step, id := Pass(s, w, k - 1), s.def.steps[k - 1], s.def.steps[j].id;
    AdvanceStepFrame(s1, w, step);
    if step.id != id {
      TouchesOnlyLeaves(s1.rows, AdvanceStep(s1, w, step).rows, step.id, id);
    }
    if Done(s1.rows, id) {
      SucceedsInPass(s, w, j, k - 1);
    } else {
      NamedUnique(s.def, j, k - 1);
      OnlyListsSucceed(s1, w, step);
      if HasRows(s.rows, id) {
        RowsStay(s, w, id, k - 1);
      }
    }
  }

  lemma {:induction false} RowsStay(s: State, w: World, id: string, k: nat)
    requires k <= |s.def.steps| && HasRows(s.rows, id)
    ensures HasRows(Pass(s, w, k).rows, id)
    decreases k
  {
    hide AdvanceStep, StateOf, Handled, DepsSucceeded;
    if k > 0 {
      RowsStay(s, w, id, k - 1);
      var s1, step := Pass(s, w, k - 1), s.def.steps[k - 1];
      AdvanceStepFrame(s1, w, step);
      RowsStayTouched(s1.rows, AdvanceStep(s1, w, step).rows, step.id, id);
    }
  }

  lemma RowsStayTouched(rows: seq<StepRun>, rows': seq<StepRun>, touched: string, id: string)
    requires TouchesOnly(rows, rows', touched) && HasRows(rows, id)
    ensures HasRows(rows', id)
  {
    AbsentHasNoRows(rows, id);
    AbsentHasNoRows(rows', id);
    var i :| 0 <= i < |rows| && rows[i].stepID == id;
    assert SameKey(rows[i], rows'[i]);
  }

  // ---------------------------------------------------------------- the steps without an id

  lemma {:induction false} UnnamedStayHandled(s: State, w: World, k: nat, m: nat)
    requires k <= m <= |s.def.steps| && Handled(Pass(s, w, k).rows, "")
    ensures Handled(Pass(s, w, m).rows, "")
    decreases m
  {
    hide AdvanceStep, Handled, DepsSucceeded, TouchesOnly;
    if k < m {
      UnnamedStayHandled(s, w, k, m - 1);
      var s1, step := Pass(s, w, m - 1), s.def.steps[m - 1];
      if step.id == "" {
        AdvanceStepIdle(s1, w, step);
      } else {
        AdvanceStepFrame(s1, w, step);
        HandledElsewhere(s1.rows, AdvanceStep(s1, w, step).rows, step.id, "");
      }
    }
  }

  ghost predicate ReadyAtTurn(s: State, w: World, t: nat) {
    t < |s.def.steps| && s.def.steps[t].id == "" && DepsSucceeded(Pass(s, w, t).rows, s.def.steps[t])
  }

  /** One unnamed step that is ready at its turn starts everything that waits without a step id. */
  lemma ReadyTurnHandles(s: State, w: World, t: nat)
    requires ReadyAtTurn(s, w, t)
    ensures Handled(Pass(s, w, |s.def.steps|).rows, "")
  {
    hide Handled, DepsSucceeded, TouchesOnly;
    AdvanceStepFrame(Pass(s, w, t), w, s.def.steps[t]);
    UnnamedStayHandled(s, w, t + 1, |s.def.steps|);
  }

  lemma {:induction false} UnnamedAppear(s: State, w: World, k: nat) returns (t: nat)
    requires k <= |s.def.steps| && !HasRows(s.rows, "") && HasRows(Pass(s, w, k).rows, "")
    ensures t < k && ReadyAtTurn(s, w, t)
    decreases k
  {
    hide AdvanceStep, StateOf, Handled, DepsSucceeded, TouchesOnly;
    var s1, step := Pass(s, w, k - 1), s.def.steps[k - 1];
    if HasRows(s1.rows, "") {
      t := UnnamedAppear(s, w, k - 1);
    } else {
      AdvanceStepFrame(s1, w, step);
      if step.id != "" {
        TouchesOnlyLeaves(s1.rows, AdvanceStep(s1, w, step).rows, step.id, "");
      }
      t := k - 1;
      StepReady(s1, w, step);
    }
  }

  lemma ReadyLater(s: State, w: World, t: nat)
    requires t < |s.def.steps| && s.def.steps[t].id == "" && DepsSucceeded(s.rows, s.def.steps[t])
    ensures ReadyAtTurn(s, w, t)
  {
    PassKeepsDone(s, w, t);
    DepsStay(s.rows, Pass(s, w, t).rows, s.def.steps[t]);
  }

  /** Without a plain unnamed step nothing unnamed is ever left waiting by a pass. */
  lemma UnnamedListsHandled(s: State, w: World)
    requires UnnamedReady(s.def, s.rows) && !PlainUnnamed(s.def.steps)
    requires HasRows(Pass(s, w, |s.def.steps|).rows, "")
    ensures Handled(Pass(s, w, |s.def.steps|).rows, "")
  {
    hide HasRows, Handled, DepsSucceeded, PlainUnnamed;
    var t: nat;
    if HasRows(s.rows, "") {
      t :| t < |s.def.steps| && s.def.steps[t].id == "" && DepsSucceeded(s.rows, s.def.steps[t]);
      ReadyLater(s, w, t);
    } else {
      t := UnnamedAppear(s, w, |s.def.steps|);
    }
    ReadyTurnHandles(s, w, t);
  }

  // ---------------------------------------------------------------- the last pass

  /** Walking back through needs from a named node that has not succeeded always ends at a running step. */
  lemma {:induction false} NamedBlockedOnRunning(def: Definition, rows: seq<StepRun>, j: nat) returns (i: nat)
    requires NamedInOrder(def) && Named(def, j)
    requires NamedPassed(def, rows, |def.steps|) && !AnyBad(rows)
    requires !Done(rows, def.steps[j].id)
    ensures Newest(rows, i) && rows[i].state == Running
    decreases j
  {
    var id := def.steps[j].id;
    if DepsSucceeded(rows, def.steps[j]) {
      assert Handled(rows, id);
      i :| NewestOf(rows, id, i) && !rows[i].state.Terminal();
    } else {
      var n :| 0 <= n < |def.steps[j].needs| && StateOf(rows, def.steps[j].needs[n]) != Succeeded;
      var e := NamedNeed(def, j, n);
      i := NamedBlockedOnRunning(def, rows, e);
    }
  }

  lemma AllNamedDone(def: Definition, rows: seq<StepRun>)
    requires NamedInOrder(def) && NamedPassed(def, rows, |def.steps|) && !AnyBad(rows) && !SomeRunning(rows)
    ensures forall j :: Named(def, j) ==> Done(rows, def.steps[j].id)
  {
    hide NamedInOrder, NamedPassed, AnyBad, Done, Newest;
    forall j | Named(def, j) ensures Done(rows, def.steps[j].id) {
      if !Done(rows, def.steps[j].id) {
        var i := NamedBlockedOnRunning(def, rows, j);
      }
    }
  }

  /** A pass that leaves nothing running and the unnamed steps unhandled: everything named has succeeded by its end, and
      each unnamed step that could have started them misses a list that succeeded after its turn. */
  lemma LastPass(s: State, w: World)
    requires NamedInOrder(s.def) && Tidy(s)
    requires var p := Pass(s, w, |s.def.steps|); !AnyBad(p.rows) && !SomeRunning(p.rows) && !Handled(p.rows, "")
    ensures forall t :: 0 <= t < |s.def.steps| && s.def.steps[t].id == "" && Answered(s.def.steps, t) ==>
                exists j :: LateNeed(s.def, t, j) && !HasRows(s.rows, s.def.steps[j].id)
  {
    hide AnyBad, NamedInOrder, NamedPassed, RunsTidy, StateOf, Answered, Handled;
    var n := |s.def.steps|;
    var p := Pass(s, w, n);
    PassTidy(s, w, n);
    AllNamedDone(s.def, p.rows);
    forall t | 0 <= t < n && s.def.steps[t].id == "" && Answered(s.def.steps, t)
      ensures exists j :: LateNeed(s.def, t, j) && !HasRows(s.rows, s.def.steps[j].id)
    {
      if ReadyAtTurn(s, w, t) {
        ReadyTurnHandles(s, w, t);
      } else {
        var j := LateList(s, w, t);
      }
    }
  }

  /** What is unfinished waits and has no step id. */
  lemma UnnamedIsLeft(def: Definition, rows: seq<StepRun>)
    requires KnownNodes(def, rows) && AnyBusy(rows) && !SomeRunning(rows)
    requires forall j :: Named(def, j) ==> Done(rows, def.steps[j].id)
    ensures HasRows(rows, "") && !Handled(rows, "")
  {
    var b :| Newest(rows, b) && !rows[b].state.Terminal();
    var id := rows[b].stepID;
    assert NewestOf(rows, id, b) && rows[b].state == Pending;
    SucceededMeans(rows, id);
    AbsentHasNoRows(rows, id);
    if id != "" {
      assert HasRows(rows, id);
      var j :| 0 <= j < |def.steps| && def.steps[j].id == id;
      assert Named(def, j);
    }
  }

  lemma LateList(s: State, w: World, t: nat) returns (j: nat)
    requires NamedInOrder(s.def)
    requires t < |s.def.steps| && s.def.steps[t].id == "" && Answered(s.def.steps, t) && !ReadyAtTurn(s, w, t)
    requires forall j :: Named(s.def, j) ==> Done(Pass(s, w, |s.def.steps|).rows, s.def.steps[j].id)
    ensures LateNeed(s.def, t, j) && !HasRows(s.rows, s.def.steps[j].id)
  {
    hide StateOf, NamedInOrder, KeepsDone;
    var need :| need in s.def.steps[t].needs && StateOf(Pass(s, w, t).rows, need) != Succeeded;
    assert HasStep(s.def.steps, need);
    j :| 0 <= j < |s.def.steps| && s.def.steps[j].id == need;
    PassKeepsDone(s, w, t);
    KeepsDoneStates(s.rows, Pass(s, w, t).rows);
    SucceedsInPass(s, w, j, |s.def.steps|);
    if j < t {
      SettledAfterTurn(s, w, j, t);
      SettledAfterTurn(s, w, j, |s.def.steps|);
    }
  }

  // ---------------------------------------------------------------- between two calls

  ghost predicate Rest(s: State) {
    && Tidy(s) && NamedReady(s.def, s.rows)
    && (s.status == Live && !SomeRunning(s.rows) ==> MayStall(s.def))
    && (s.status != Live ==> !AnyBusy(s.rows))
    && (s.status == Succeeded_ ==> Complete(s.def, s.rows))
  }

  /** Every named step has succeeded, and so has every unnamed one unless they were forgotten. */
  ghost predicate Complete(def: Definition, rows: seq<StepRun>) {
    && (forall j :: Named(def, j) ==> Done(rows, def.steps[j].id))
    && (Done(rows, "") || (!HasRows(rows, "") && Misses(def)))
  }

  lemma StopSameNodes(rows: seq<StepRun>, p: StepState, r: StepState)
    requires p.Bad() && r.Bad()
    ensures SameNodes(rows, StopRows(rows, p, r)) && KeepsDone(rows, StopRows(rows, p, r))
    ensures !AnyBusy(StopRows(rows, p, r))
  {
    var rows' := StopRows(rows, p, r);
    StopRowsFrame(rows, p, r);
    assert forall i :: 0 <= i < |rows| ==> SameKey(rows[i], rows'[i]);
    assert forall i :: Newest(rows, i) ==> (rows[i].state == Success <==> rows'[i].state == Success);
    forall id ensures (HasRows(rows, id) <==> HasRows(rows', id)) && (Done(rows, id) <==> Done(rows', id)) {
      AbsentHasNoRows(rows, id);
      AbsentHasNoRows(rows', id);
      SucceededMeans(rows, id);
      SucceededMeans(rows', id);
      hide Newest, StateOf;
      assert forall i :: NewestOf(rows, id, i) <==> NewestOf(rows', id, i);
    }
  }

  /** The keys and the needs stay, and what has ended stays so: the runs are still in order. */
  lemma RunsStayTidy(s: State, s': State)
    requires RunsTidy(s) && s'.def == s.def && s'.runs.Keys == s.runs.Keys && |s.rows| <= |s'.rows|
    requires forall i :: 0 <= i < |s.rows| ==> s'.rows[i].stepID == s.rows[i].stepID
    requires forall i :: 0 <= i < |s.rows| && (s.rows[i].state.Terminal() || Newest(s.rows, i)) ==>
               s'.rows[i].state.Terminal() || Newest(s'.rows, i)
    requires forall j :: 0 <= j < |s.def.steps| && DepsSucceeded(s.rows, s.def.steps[j]) ==>
               DepsSucceeded(s'.rows, s.def.steps[j])
    ensures RunsTidy(s')
  {
    hide Newest, DepsSucceeded, Allowed;
    forall r | r in s'.runs ensures RunTidy(s', r) {
      assert r in s.runs.Keys && RunTidy(s, r);
      AllowedStays(s.def, s.rows, s'.rows, s.rows[r.row].stepID);
    }
  }

  lemma StopTidy(s: State, p: StepState, r: StepState, status: RunStatus)
    requires Tidy(s) && p.Bad() && r.Bad()
    ensures var s' := s.(rows := StopRows(s.rows, p, r), status := status);
            Tidy(s') && (NamedReady(s.def, s.rows) ==> NamedReady(s'.def, s'.rows)) && !AnyBusy(s'.rows)
  {
    hide Nodes, RunsTidy, NamedReady, SameNodes, AnyBusy;
    var s' := s.(rows := StopRows(s.rows, p, r), status := status);
    StopSameNodes(s.rows, p, r);
    StopRowsFrame(s.rows, p, r);
    SameNodesDeps(s.def, s.rows, s'.rows);
    StoppedEnds(s.rows, p, r);
    RunsStayTidy(s, s');
  }

  lemma StoppedEnds(rows: seq<StepRun>, p: StepState, r: StepState)
    requires p.Bad() && r.Bad()
    ensures var rows' := StopRows(rows, p, r);
            && forall i :: 0 <= i < |rows| ==>
                && rows'[i].stepID == rows[i].stepID
                && (rows[i].state.Terminal() || Newest(rows, i) ==> rows'[i].state.Terminal() || Newest(rows', i))
  {
    StopRowsFrame(rows, p, r);
  }

  lemma SettleRests(p: State)
    requires NamedInOrder(p.def) && Tidy(p) && NamedPassed(p.def, p.rows, |p.def.steps|) && p.status == Live
    requires !AnyBad(p.rows) && !SomeRunning(p.rows) && !Handled(p.rows, "") ==> Misses(p.def)
    requires HasRows(p.rows, "") && !Handled(p.rows, "") ==> PlainUnnamed(p.def.steps)
    ensures Rest(Settle(p)) && Settle(p).def == p.def
  {
    hide NamedInOrder, Tidy, StopRows, Misses, Newest, Handled, HasRows, SomeRunning;
    PassedReady(p.def, p.rows);
    if AnyBad(p.rows) {
      StopTidy(p, Skipped, Cancelled, Failed_);
    } else if !AnyBusy(p.rows) {
      TidyStatus(p, Succeeded_);
      CompleteAtLast(p.def, p.rows);
    } else if !SomeRunning(p.rows) {
      AllNamedDone(p.def, p.rows);
      TidyKnown(p);
      UnnamedIsLeft(p.def, p.rows);
    }
  }

  lemma TidyKnown(s: State)
    requires Tidy(s)
    ensures KnownNodes(s.def, s.rows)
  {}

  lemma TidyStatus(s: State, status: RunStatus)
    requires Tidy(s)
    ensures Tidy(s.(status := status))
  {
    hide Nodes, Newest, NeedsDone;
    RunsStayTidy(s, s.(status := status));
  }

  lemma PassedReady(def: Definition, rows: seq<StepRun>)
    requires NamedPassed(def, rows, |def.steps|)
    ensures NamedReady(def, rows)
  {
    hide DepsSucceeded, StateOf;
  }

  lemma CompleteAtLast(def: Definition, rows: seq<StepRun>)
    requires NamedInOrder(def) && NamedPassed(def, rows, |def.steps|) && !AnyBad(rows) && !AnyBusy(rows)
    requires !AnyBad(rows) && !SomeRunning(rows) && !Handled(rows, "") ==> Misses(def)
    ensures Complete(def, rows)
  {
    hide NamedInOrder, NamedPassed, Misses;
    assert !SomeRunning(rows);
    AllNamedDone(def, rows);
    forall id | HasRows(rows, id) ensures Done(rows, id) {}
  }

  // ---------------------------------------------------------------- what a call can miss

  lemma FollowsNamed(def: Definition, q: string, j: nat) returns (e: nat)
    requires NamedInOrder(def) && Named(def, j) && Follows(def, q, j)
    ensures e < j && Named(def, e) && def.steps[e].id == q
    decreases j
  {
    var k :| 0 <= k < j && def.steps[k].id in def.steps[j].needs && (def.steps[k].id == q || Follows(def, q, k));
    var n :| 0 <= n < |def.steps[j].needs| && def.steps[j].needs[n] == def.steps[k].id;
    var k' := NamedNeed(def, j, n);
    if def.steps[k].id == q {
      e := k;
    } else {
      e := FollowsNamed(def, q, k);
    }
  }

  /** A step that follows q and has succeeded had all it needs, so q has succeeded. */
  lemma {:induction false} FollowsDone(def: Definition, rows: seq<StepRun>, q: string, j: nat)
    requires NamedInOrder(def) && SafeNodes(def, rows) && Named(def, j) && Done(rows, def.steps[j].id)
    requires Follows(def, q, j)
    ensures Done(rows, q)
    decreases j
  {
    hide StateOf;
    var e :| 0 <= e < j && def.steps[e].id in def.steps[j].needs && (def.steps[e].id == q || Follows(def, q, e));
    var n :| 0 <= n < |def.steps[j].needs| && def.steps[j].needs[n] == def.steps[e].id;
    var e' := NamedNeed(def, j, n);
    assert DepsSucceeded(rows, def.steps[j]);
    if def.steps[e].id != q {
      FollowsDone(def, rows, q, e);
    }
  }

  /** A call that begins with s0 turned into s, node q perhaps having come to succeed. */
  ghost predicate Begins(s0: State, s: State, q: string) {
    && NamedInOrder(s.def) && s0.def == s.def && SafeNodes(s0.def, s0.rows) && NamedReady(s0.def, s0.rows)
    && Tidy(s) && s.status == Live && Alike(s0.rows, s.rows, q) && (q != "" ==> !Done(s0.rows, q))
  }

  /** What succeeds in the pass follows the node whose result the call recorded. */
  lemma {:induction false} SuccessFollows(s0: State, s: State, w: World, q: string, j: nat)
    requires Begins(s0, s, q) && Named(s.def, j)
    requires Done(Pass(s, w, |s.def.steps|).rows, s.def.steps[j].id) && !HasRows(s.rows, s.def.steps[j].id)
    ensures Follows(s.def, q, j)
    decreases j
  {
    hide StateOf, NamedInOrder, KnownNodes, UnnamedReady, RunsTidy;
    var p := Pass(s, w, |s.def.steps|);
    assert !DepsSucceeded(s0.rows, s.def.steps[j]);
    var n :| 0 <= n < |s.def.steps[j].needs| && !Done(s0.rows, s.def.steps[j].needs[n]);
    var e := NamedNeed(s.def, j, n);
    PassTidy(s, w, |s.def.steps|);
    assert DepsSucceeded(p.rows, s.def.steps[j]);
    if s.def.steps[e].id != q {
      SucceedsInPass(s, w, e, |s.def.steps|);
      SuccessFollows(s0, s, w, q, e);
    }
  }

  /** Such a call leaves nothing running and the unnamed steps unhandled only when it can miss them. */
  lemma CallMisses(s0: State, s: State, w: World, q: string)
    requires Begins(s0, s, q)
    requires var p := Pass(s, w, |s.def.steps|); !AnyBad(p.rows) && !SomeRunning(p.rows) && !Handled(p.rows, "")
    ensures Misses(s.def)
  {
    hide StateOf, NamedInOrder, KnownNodes, UnnamedReady, RunsTidy, AnyBad, SomeRunning, Answered, Follows,
        NamedPassed, Handled, StartMisses, NamedReady;
    var p := Pass(s, w, |s.def.steps|);
    PassTidy(s, w, |s.def.steps|);
    AllNamedDone(s.def, p.rows);
    LastPass(s, w);
    forall t, j | LateNeed(s.def, t, j) && !HasRows(s.rows, s.def.steps[j].id) ensures Follows(s.def, q, j) {
      SuccessFollows(s0, s, w, q, j);
    }
    if !Unanswered(s.def.steps) {
      var t :| 0 <= t < |s.def.steps| && s.def.steps[t].id == "" && Answered(s.def.steps, t);
      var j :| LateNeed(s.def, t, j) && !HasRows(s.rows, s.def.steps[j].id);
      var k := FollowsNamed(s.def, q, j);
      forall i | Named(s.def, i) && Follows(s.def, q, i) ensures s.def.steps[i].over != "" {
        PlainFollower(s0, s, w, q, i);
      }
      assert TurnMisses(s.def, s.def.steps[k].id);
    }
  }

  lemma PlainFollower(s0: State, s: State, w: World, q: string, i: nat)
    requires Begins(s0, s, q) && Named(s.def, i) && Follows(s.def, q, i)
    requires Done(Pass(s, w, |s.def.steps|).rows, s.def.steps[i].id)
    ensures s.def.steps[i].over != ""
  {
    hide StateOf, KnownNodes, UnnamedReady, RunsTidy, NamedReady, Follows;
    if s.def.steps[i].over == "" {
      if !Done(s.rows, s.def.steps[i].id) {
        SucceedsInPass(s, w, i, |s.def.steps|);
      }
      var e := FollowsNamed(s.def, q, i);
      assert s.def.steps[i].id != q;
      FollowsDone(s.def, s0.rows, q, i);
    }
  }

  lemma PlainIsLeft(s: State, w: World)
    requires Tidy(s)
    ensures var p := Pass(s, w, |s.def.steps|);
            HasRows(p.rows, "") && !Handled(p.rows, "") ==> PlainUnnamed(s.def.steps)
  {
    hide HasRows, Handled, PlainUnnamed;
    if HasRows(Pass(s, w, |s.def.steps|).rows, "") && !PlainUnnamed(s.def.steps) {
      UnnamedListsHandled(s, w);
    }
  }

  lemma CallRests(s0: State, s: State, w: World, q: string)
    requires Begins(s0, s, q)
    ensures Rest(Advance(s, w)) && Advance(s, w).def == s.def
  {
    hide Rest, Misses, NamedPassed, Tidy, Alike, SafeNodes, NamedReady, NamedInOrder, Handled, AnyBad, SomeRunning,
        HasRows;
    var p := Pass(s, w, |s.def.steps|);
    PassTidy(s, w, |s.def.steps|);
    PassKeepsDone(s, w, |s.def.steps|);
    if !AnyBad(p.rows) && !SomeRunning(p.rows) && !Handled(p.rows, "") {
      CallMisses(s0, s, w, q);
    }
    PlainIsLeft(s, w);
    SettleRests(p);
  }

  // ---------------------------------------------------------------- the calls

  /** What recording a result leaves of the rows: only the row's own node changes. */
  lemma RecordRows(s: State, r: RunId)
    requires Records(s, r) && Newest(s.rows, r.row)
    ensures var s', q := Record(s, r), s.rows[r.row].stepID;
            && TouchesOnly(s.rows, s'.rows, q) && KeepsDone(s.rows, s'.rows) && !Done(s.rows, q)
            && s'.def == s.def && s'.status == s.status && s'.runs == s.runs
  {
    var i, run := r.row, s.runs[r];
    var state := if run.outcome == Won then Success else Failed;
    var s1 := SetState(s, i, state, run.report);
    OneRowKeepsDone(s.rows, i, s1.rows[i]);
    SameKeysNewest(s.rows, s1.rows);
    if run.outcome != Won && MayRetry(s1, s1.rows[i]) {
      NextAttemptKeepsDone(s1.rows, i);
      KeepsDoneTrans(s.rows, s1.rows, Record(s, r).rows);
    }
    SucceededMeans(s.rows, s.rows[i].stepID);
    assert NewestOf(s.rows, s.rows[i].stepID, i);
  }

  lemma RecordNewest(s: State, r: RunId)
    requires Records(s, r) && Newest(s.rows, r.row)
    ensures var s' := Record(s, r);
            forall i :: 0 <= i < |s.rows| && (s.rows[i].state.Terminal() || Newest(s.rows, i)) ==>
              s'.rows[i].state.Terminal() || Newest(s'.rows, i)
  {
    var i, run := r.row, s.runs[r];
    var state := if run.outcome == Won then Success else Failed;
    var s1 := SetState(s, i, state, run.report);
    SameKeysNewest(s.rows, s1.rows);
    NextAttemptNewest(s1.rows, i);
    hide Newest;
  }

  lemma TouchedAlike(rows: seq<StepRun>, rows': seq<StepRun>, q: string)
    requires TouchesOnly(rows, rows', q) && HasRows(rows, q)
    ensures Alike(rows, rows', q)
  {
    forall id
      ensures (HasRows(rows, id) <==> HasRows(rows', id)) && (id != q ==> (Done(rows, id) <==> Done(rows', id)))
    {
      if id == q {
        RowsStayTouched(rows, rows', q, q);
      } else {
        TouchesOnlyLeaves(rows, rows', q, id);
      }
    }
  }

  lemma RecordNodes(def: Definition, rows: seq<StepRun>, rows': seq<StepRun>, q: string)
    requires Nodes(def, rows) && Alike(rows, rows', q) && KeepsDone(rows, rows')
    requires Allowed(def, rows, q)
    ensures Nodes(def, rows')
    ensures forall j :: 0 <= j < |def.steps| && DepsSucceeded(rows, def.steps[j]) ==> DepsSucceeded(rows', def.steps[j])
  {
    hide StateOf, KeepsDone, DepsSucceeded, Answered, PlainUnnamed;
    AllDepsStay(def, rows, rows');
  }

  lemma RecordBegins(s: State, r: RunId)
    requires NamedInOrder(s.def) && Rest(s) && Records(s, r)
    ensures Begins(s, Record(s, r), s.rows[r.row].stepID)
  {
    var i := r.row;
    assert RunTidy(s, r);
    assert AnyBusy(s.rows);
    var s', q := Record(s, r), s.rows[i].stepID;
    RecordRows(s, r);
    RecordNewest(s, r);
    AbsentHasNoRows(s.rows, q);
    TouchedAlike(s.rows, s'.rows, q);
    RecordNodes(s.def, s.rows, s'.rows, q);
    hide Record, StateOf, Newest, KeepsDone, DepsSucceeded, Nodes, AnyBusy, RunTidy, NamedInOrder, Alike;
    RunsStayTidy(s, s');
  }

  lemma CompleteRests(s: State, r: RunId, w: World)
    requires NamedInOrder(s.def) && Rest(s)
    ensures Rest(CompleteStep(s, r, w)) && CompleteStep(s, r, w).def == s.def
  {
    hide Rest, NamedInOrder, Begins, Advance, Record;
    if Records(s, r) {
      RecordBegins(s, r);
      RecordKeepsDef(s, r);
      CallRests(s, Record(s, r), w, s.rows[r.row].stepID);
    }
  }

  lemma RecordKeepsDef(s: State, r: RunId)
    requires Records(s, r)
    ensures Record(s, r).def == s.def
  {}

  lemma {:induction false} ReconcileRests(s: State, snapshot: seq<StepRun>, w: World)
    requires NamedInOrder(s.def) && Rest(s)
    ensures Rest(Reconcile(s, snapshot, w)) && Reconcile(s, snapshot, w).def == s.def
    decreases |snapshot|
  {
    hide Rest, NamedInOrder, CompleteStep;
    if snapshot != [] {
      if Stranded(s, snapshot[0]) {
        CompleteRests(s, snapshot[0].runID.value, w);
      }
      ReconcileRests(SweepRow(s, snapshot[0], w), snapshot[1..], w.(serial := w.serial + 1));
    }
  }

  lemma StopRests(s: State, status: RunStatus)
    requires Rest(s) && (status == Cancelled_ || status == TimedOut)
    ensures Rest(s.(rows := StopRows(s.rows, Cancelled, Cancelled), status := status))
  {
    hide Tidy, StopRows, NamedReady;
    StopTidy(s, Cancelled, Cancelled, status);
  }

  /** Reopening one of the current rows. */
  lemma ReopenOneTidy(s: State, cur: seq<nat>)
    requires RunsTidy(s) && cur != [] && DistinctNewest(s.rows, cur)
    ensures var rows' := ReopenOne(s.rows, cur[0]);
            && SameNodes(s.rows, rows') && RunsTidy(s.(rows := rows')) && DistinctNewest(rows', cur[1..])
  {
    var i := cur[0];
    var rows' := ReopenOne(s.rows, i);
    ReopenOneNewest(s.rows, i);
    ReopenOneNodes(s.rows, i);
    hide ReopenOne, StateOf, Newest;
    SameNodesDeps(s.def, s.rows, rows');
    RunsStayTidy(s, s.(rows := rows'));
    forall k | 0 <= k < |cur[1..]| ensures Newest(rows', cur[1..][k]) {
      assert cur[1..][k] == cur[k + 1] && cur[k + 1] != cur[0];
    }
  }

  lemma ReopenOneNewest(rows: seq<StepRun>, i: nat)
    requires Newest(rows, i)
    ensures var rows' := ReopenOne(rows, i);
            && |rows| <= |rows'|
            && (forall j :: 0 <= j < |rows| ==> rows'[j].stepID == rows[j].stepID)
            && (forall j :: Newest(rows, j) && j != i ==> Newest(rows', j))
            && (forall j :: 0 <= j < |rows| && (rows[j].state.Terminal() || Newest(rows, j)) ==>
                  rows'[j].state.Terminal() || Newest(rows', j))
  {
    var rows' := ReopenOne(rows, i);
    match rows[i].state
    case Failed => NextAttemptNewest(rows, i);
    case Skipped => SameKeysNewest(rows, rows');
    case Cancelled => SameKeysNewest(rows, rows');
    case _ =>
  }

  lemma ReopenOneNodes(rows: seq<StepRun>, i: nat)
    requires Newest(rows, i)
    ensures SameNodes(rows, ReopenOne(rows, i))
  {
    var rows', q := ReopenOne(rows, i), rows[i].stepID;
    if rows[i].state.Bad() {
      assert TouchesOnly(rows, rows', q);
      AbsentHasNoRows(rows, q);
      TouchedAlike(rows, rows', q);
      SucceededMeans(rows, q);
      SucceededMeans(rows', q);
      assert NewestOf(rows, q, i);
      ReopenedIsNewest(rows, i);
    }
  }

  lemma ReopenedIsNewest(rows: seq<StepRun>, i: nat)
    requires Newest(rows, i) && rows[i].state.Bad()
    ensures exists k :: NewestOf(ReopenOne(rows, i), rows[i].stepID, k) && ReopenOne(rows, i)[k].state == Pending
  {
    var rows' := ReopenOne(rows, i);
    if rows[i].state == Failed {
      NextAttemptNewest(rows, i);
      assert NewestOf(rows', rows[i].stepID, |rows|);
    } else {
      SameKeysNewest(rows, rows');
      assert NewestOf(rows', rows[i].stepID, i);
    }
  }

  lemma {:induction false} ReopenTidy(s: State, cur: seq<nat>)
    requires RunsTidy(s) && DistinctNewest(s.rows, cur)
    ensures var rows' := ReopenRows(s.rows, cur); SameNodes(s.rows, rows') && RunsTidy(s.(rows := rows'))
    decreases |cur|
  {
    hide RunsTidy, DistinctNewest, ReopenOne, HasRows, Done;
    if cur == [] {
      assert s.(rows := s.rows) == s;
    } else {
      DistinctHead(s.rows, cur);
      ReopenOneTidy(s, cur);
      ReopenTidy(s.(rows := ReopenOne(s.rows, cur[0])), cur[1..]);
    }
  }

  lemma DistinctHead(rows: seq<StepRun>, cur: seq<nat>)
    requires cur != [] && DistinctNewest(rows, cur)
    ensures cur[0] < |rows|
  {}

  lemma RetryRests(s: State, w: World)
    requires NamedInOrder(s.def) && Rest(s)
    ensures Rest(RetryFailed(s, w)) && RetryFailed(s, w).def == s.def
  {
    if s.status.Terminal() && AnyBad(s.rows) {
      hide NamedInOrder, Advance, Nodes, RunsTidy, NamedReady, AnyBad, MayStall, SafeNodes, HasRows, Done;
      CurrentIsNewest(s.rows);
      var rows' := ReopenRows(s.rows, CurrentRows(s.rows));
      ReopenTidy(s, CurrentRows(s.rows));
      SameNodesDeps(s.def, s.rows, rows');
      TidyStatus(s.(rows := rows'), Live);
      NodesAreSafe(s.def, s.rows);
      CallRests(s, s.(rows := rows', status := Live), w, "");
    }
  }

  lemma NodesAreSafe(def: Definition, rows: seq<StepRun>)
    requires Nodes(def, rows)
    ensures SafeNodes(def, rows)
  {}

  lemma NextRests(s: State, e: Event)
    requires NamedInOrder(s.def) && Rest(s)
    ensures Rest(Next(s, e)) && Next(s, e).def == s.def
  {
    hide Rest, NamedInOrder, Reconcile, CompleteStep, RetryFailed, StopRows;
    match e
    case Finished(r, result) =>
      if r in s.runs {
        ResultRests(s, r, result);
      }
    case Message(r, w) => CompleteRests(s, r, w);
    case Cancelling => StopRests(s, Cancelled_);
    case Ticking(now, w) =>
      ReconcileRests(s, s.rows, w);
      StopRests(s, TimedOut);
    case Retrying(w) => RetryRests(s, w);
  }

  lemma ResultRests(s: State, r: RunId, result: EngineRun)
    requires Rest(s) && r in s.runs
    ensures Rest(s.(runs := s.runs[r := result]))
  {
    hide Nodes, Newest, NeedsDone, NamedReady, MayStall, Complete;
    var s' := s.(runs := s.runs[r := result]);
    assert s'.runs.Keys == s.runs.Keys;
    RunsStayTidy(s, s');
  }

  lemma FirstTidy(def: Definition, now: int)
    requires NamedInOrder(def)
    ensures Tidy(State(def, now, Live, FirstRows(def.steps), map[]))
    ensures forall id :: !Done(FirstRows(def.steps), id)
  {
    var rows := FirstRows(def.steps);
    FirstRowsShape(def.steps);
    forall id ensures !Done(rows, id) {
      SucceededMeans(rows, id);
    }
    forall k | 0 <= k < |def.steps| && def.steps[k].over == "" ensures HasRows(rows, def.steps[k].id) {
      PlainHasRow(def.steps, k);
      AbsentHasNoRows(rows, def.steps[k].id);
    }
    forall id | HasRows(rows, id)
      ensures exists k :: 0 <= k < |def.steps| && def.steps[k].id == id && def.steps[k].over == ""
    {
      AbsentHasNoRows(rows, id);
      var i :| 0 <= i < |rows| && rows[i].stepID == id;
      FirstRowsPlain(def.steps, i);
    }
    forall j | Named(def, j) && HasRows(rows, def.steps[j].id) ensures def.steps[j].over == "" {
      var k :| 0 <= k < |def.steps| && def.steps[k].id == def.steps[j].id && def.steps[k].over == "";
      NamedUnique(def, j, k);
    }
  }

  lemma StartRestsWeakly(def: Definition, now: int, w: World)
    requires NamedInOrder(def)
    ensures Rest(Start(def, now, w)) && Start(def, now, w).def == def
  {
    var s := State(def, now, Live, FirstRows(def.steps), map[]);
    FirstTidy(def, now);
    var p := Pass(s, w, |def.steps|);
    PassTidy(s, w, |def.steps|);
    PassKeepsDone(s, w, |def.steps|);
    hide Tidy, Rest, Misses, NamedInOrder, NamedPassed, Answered, Pass, Handled, AnyBad, SomeRunning, HasRows, Done;
    if !AnyBad(p.rows) && !SomeRunning(p.rows) && !Handled(p.rows, "") {
      FirstCallMisses(s, w);
    }
    PlainIsLeft(s, w);
    SettleRests(p);
    StartIs(def, now, w);
  }

  lemma FirstCallMisses(s: State, w: World)
    requires NamedInOrder(s.def) && Tidy(s) && forall id :: !Done(s.rows, id)
    requires var p := Pass(s, w, |s.def.steps|); !AnyBad(p.rows) && !SomeRunning(p.rows) && !Handled(p.rows, "")
    ensures Misses(s.def)
  {
    hide StateOf, Nodes, RunsTidy, AnyBad, SomeRunning, Answered, NamedPassed, Handled;
    var p := Pass(s, w, |s.def.steps|);
    LastPass(s, w);
    PassTidy(s, w, |s.def.steps|);
    AllNamedDone(s.def, p.rows);
    forall k | Named(s.def, k) ensures s.def.steps[k].over != "" {
      SucceedsInPass(s, w, k, |s.def.steps|);
    }
    assert StartMisses(s.def);
  }

  lemma {:induction false} HistoryRests(s: State, es: seq<Event>)
    requires NamedInOrder(s.def) && Rest(s)
    ensures Rest(Exec(s, es)) && Exec(s, es).def == s.def
    decreases |es|
  {
    hide Rest, NamedInOrder, Next;
    if es != [] {
      HistoryRests(s, es[..|es| - 1]);
      NextRests(Exec(s, es[..|es| - 1]), es[|es| - 1]);
    }
  }

  /** A run never sits live with nothing running unless its definition may stall, and never records success without a
      step unless that is an unnamed list of a definition that may forget it. */
  lemma StallsOnlyIf(def: Definition, now: int, w: World, es: seq<Event>)
    requires NamedInOrder(def)
    ensures var s := Exec(Start(def, now, w), es);
            && (s.status == Live && !SomeRunning(s.rows) ==> MayStall(def))
            && (s.status == Succeeded_ ==> forall k :: 0 <= k < |def.steps| ==>
                  StateOf(s.rows, def.steps[k].id) == Succeeded || (def.steps[k].id == "" && MayForget(def)))
  {
    hide NamedInOrder, RunsTidy, NamedReady, Misses, Exec, Start, KnownNodes, UnnamedReady, SafeNodes, StateOf;
    StartRestsWeakly(def, now, w);
    HistoryRests(Start(def, now, w), es);
  }
}
