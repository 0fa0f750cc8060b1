/** A history for every definition that may stall, which ends live with nothing running, and for every one that may
    forget its unnamed lists, which ends as a success without them. */
module StallHistories {
  import opened Definitions
  import opened StepRows
  import opened RunState
  import opened AdvanceProofs
  import opened History
  import opened PipelineTheorems
  import opened UnnamedSteps
  import opened PipelineLiveness
  import opened Stalls

  /** Every list is empty. */
  function Empty(serial: nat): World {
    World(i => Started, id => Items([]), serial)
  }

  function Marker(id: string): StepRun {
    PendingRow(id, 0, "", 1).(state := Success, report := "{}")
  }

  // ---------------------------------------------------------------- a pass in which every list is empty

  /** Nothing runs, and what has an id and rows has succeeded. */
  ghost predicate Idle(rows: seq<StepRun>) {
    && Uniform(rows)
    && (forall i :: 0 <= i < |rows| ==> rows[i].state != Running)
    && (forall id :: id != "" && HasRows(rows, id) ==> Done(rows, id))
    && !Done(rows, "")
  }

  ghost predicate OnlyKnown(def: Definition, rows: seq<StepRun>) {
    forall id :: Done(rows, id) ==> HasStep(def.steps, id)
  }

  /** Every plain named step is done, and what an unnamed step could become ready by is still to come. */
  ghost predicate Missing(s: State, k: nat) {
    && (forall j :: Named(s.def, j) && s.def.steps[j].over == "" ==> Done(s.rows, s.def.steps[j].id))
    && (forall t :: k <= t < |s.def.steps| && s.def.steps[t].id == "" && Answered(s.def.steps, t) ==>
          exists j :: LateNeed(s.def, t, j) && !HasRows(s.rows, s.def.steps[j].id))
  }

  ghost predicate Before(s: State, k: nat) {
    Idle(s.rows) && OnlyKnown(s.def, s.rows) && Missing(s, k)
  }

  lemma MissesNeed(s: State, t: nat, j: nat)
    requires LateNeed(s.def, t, j) && !HasRows(s.rows, s.def.steps[j].id)
    ensures !DepsSucceeded(s.rows, s.def.steps[t])
  {
    var n :| 0 <= n < |s.def.steps[t].needs| && s.def.steps[t].needs[n] == s.def.steps[j].id;
  }

  lemma UnnamedNotReady(s: State, k: nat)
    requires Before(s, k) && k < |s.def.steps| && s.def.steps[k].id == ""
    ensures !DepsSucceeded(s.rows, s.def.steps[k])
  {
    hide StateOf, Uniform;
    if Answered(s.def.steps, k) {
      var j :| LateNeed(s.def, k, j) && !HasRows(s.rows, s.def.steps[j].id);
      MissesNeed(s, k, j);
    } else {
      var n :| 0 <= n < |s.def.steps[k].needs| &&
        (s.def.steps[k].needs[n] == "" || !HasStep(s.def.steps, s.def.steps[k].needs[n]));
      assert !Done(s.rows, s.def.steps[k].needs[n]);
    }
  }

  /** A ready step either has nothing to do or is an empty list that succeeds at once. */
  lemma EmptyStep(s: State, serial: nat, k: nat)
    requires Before(s, k) && k < |s.def.steps|
    ensures var s', id := AdvanceStep(s, Empty(serial), s.def.steps[k]), s.def.steps[k].id;
            s' == s || (id != "" && !HasRows(s.rows, id) && s' == s.(rows := s.rows + [Marker(id)]))
  {
    var step := s.def.steps[k];
    hide DepsSucceeded, Uniform;
    if step.id == "" {
      UnnamedNotReady(s, k);
      UnreadyIsSkipped(s, Empty(serial), step);
    } else if HasRows(s.rows, step.id) {
      SucceededIsHandled(s.rows, step.id);
      AdvanceStepIdle(s, Empty(serial), step);
    } else if DepsSucceeded(s.rows, step) {
      assert Named(s.def, k);
      MarkerStep(s, serial, step);
    }
  }

  lemma MarkerStep(s: State, serial: nat, step: Step)
    requires step.over != "" && !HasRows(s.rows, step.id) && DepsSucceeded(s.rows, step)
    ensures AdvanceStep(s, Empty(serial), step) == s.(rows := s.rows + [Marker(step.id)])
  {
    var w := Empty(serial);
    var s1 := Expand(s, w, step);
    AbsentHasNoRows(s.rows, step.id);
    assert NewRows(step, Items([])) == [Marker(step.id)];
    assert s1.rows == s.rows + [Marker(step.id)];
    hide Newest, StateOf;
    assert forall i :: 0 <= i < |s1.rows| ==> !Startable(s1.rows, step.id, i);
    assert StartRows(s1.rows, w, step.id) == s1.rows && StartedRuns(s1.rows, w, step.id) == {};
  }

  lemma MarkerNodes(rows: seq<StepRun>, id: string)
    requires Uniform(rows) && !HasRows(rows, id)
    ensures var rows' := rows + [Marker(id)];
            && Uniform(rows') && Done(rows', id) && HasRows(rows', id)
            && forall other :: other != id ==>
                (Done(rows', other) <==> Done(rows, other)) && (HasRows(rows', other) <==> HasRows(rows, other))
  {
    var rows' := rows + [Marker(id)];
    assert forall i :: 0 <= i < |rows| ==> rows'[i] == rows[i] && CleanRow(rows[i]);
    assert TouchesOnly(rows, rows', id);
    forall other | other != id
      ensures (Done(rows', other) <==> Done(rows, other)) && (HasRows(rows', other) <==> HasRows(rows, other))
    {
      TouchesOnlyLeaves(rows, rows', id, other);
    }
    NewestIsLast(rows', |rows|);
    DoneIsLast(rows', id, |rows|);
  }

  lemma MarkerIdle(def: Definition, rows: seq<StepRun>, k: nat)
    requires Named(def, k) && !HasRows(rows, def.steps[k].id) && Idle(rows) && OnlyKnown(def, rows)
    ensures var rows' := rows + [Marker(def.steps[k].id)];
            Idle(rows') && OnlyKnown(def, rows') && (HasRows(rows', "") <==> HasRows(rows, ""))
  {
    MarkerNodes(rows, def.steps[k].id);
    assert HasStep(def.steps, def.steps[k].id);
    hide HasRows, Done, Uniform, HasStep;
  }

  lemma MarkerMissing(s: State, k: nat)
    requires NamedInOrder(s.def) && Named(s.def, k) && !HasRows(s.rows, s.def.steps[k].id)
    requires Uniform(s.rows) && Missing(s, k)
    ensures Missing(s.(rows := s.rows + [Marker(s.def.steps[k].id)]), k + 1)
  {
    var id := s.def.steps[k].id;
    var rows' := s.rows + [Marker(id)];
    MarkerNodes(s.rows, id);
    hide HasRows, Done, Uniform, Answered;
    forall t | k + 1 <= t < |s.def.steps| && s.def.steps[t].id == "" && Answered(s.def.steps, t)
      ensures exists j :: LateNeed(s.def, t, j) && !HasRows(rows', s.def.steps[j].id)
    {
      var j :| LateNeed(s.def, t, j) && !HasRows(s.rows, s.def.steps[j].id);
      assert s.def.steps[j].id != id;
    }
  }

  lemma StepBefore(s: State, serial: nat, k: nat)
    requires NamedInOrder(s.def) && Before(s, k) && k < |s.def.steps|
    ensures var s' := AdvanceStep(s, Empty(serial), s.def.steps[k]);
            && Before(s', k + 1) && s.rows <= s'.rows && s' == s.(rows := s'.rows)
            && (HasRows(s'.rows, "") <==> HasRows(s.rows, ""))
  {
    var s' := AdvanceStep(s, Empty(serial), s.def.steps[k]);
    EmptyStep(s, serial, k);
    hide HasRows, Done, AdvanceStep, Uniform, Answered, OnlyKnown;
    if s' != s {
      MarkerIdle(s.def, s.rows, k);
      hide Idle;
      MarkerMissing(s, k);
    }
  }

  lemma {:induction false} PassBefore(s: State, serial: nat, k: nat)
    requires NamedInOrder(s.def) && Before(s, 0) && k <= |s.def.steps|
    ensures var s' := Pass(s, Empty(serial), k);
            && Before(s', k) && s.rows <= s'.rows && s' == s.(rows := s'.rows)
            && (HasRows(s'.rows, "") <==> HasRows(s.rows, ""))
    decreases k
  {
    hide Before, AdvanceStep, NamedInOrder;
    if k > 0 {
      PassBefore(s, serial, k - 1);
      StepBefore(Pass(s, Empty(serial), k - 1), serial, k - 1);
    }
  }

  /** Every run's row has ended. */
  ghost predicate RunsEnded(s: State) {
    forall r :: r in s.runs ==> r.row < |s.rows| && s.rows[r.row].state.Terminal()
  }

  /** What waits then has no step id. */
  lemma IdleIsBusy(rows: seq<StepRun>)
    requires Idle(rows)
    ensures !AnyBad(rows) && (AnyBusy(rows) <==> HasRows(rows, ""))
  {
    CleanNotBad(rows);
    if HasRows(rows, "") {
      UnnamedIsBusy(rows);
    }
    if AnyBusy(rows) {
      BusyIsUnnamed(rows);
    }
  }

  lemma UnnamedIsBusy(rows: seq<StepRun>)
    requires Idle(rows) && HasRows(rows, "")
    ensures AnyBusy(rows)
  {
    AbsentHasNoRows(rows, "");
    var u :| 0 <= u < |rows| && rows[u].stepID == "";
    var i := NewestExists(rows, u);
    DoneIsLast(rows, "", i);
    assert CleanRow(rows[i]);
  }

  lemma BusyIsUnnamed(rows: seq<StepRun>)
    requires Idle(rows) && AnyBusy(rows)
    ensures HasRows(rows, "")
  {
    var b :| Newest(rows, b) && !rows[b].state.Terminal();
    var id := rows[b].stepID;
    AbsentHasNoRows(rows, id);
    assert NewestOf(rows, id, b) && HasRows(rows, id);
    DoneIsLast(rows, id, b);
  }

  /** Recorded as a success without the unnamed steps. */
  ghost predicate Forgotten(s: State) {
    s.status == Succeeded_ && !Done(s.rows, "")
  }

  ghost predicate Missed(s: State) {
    if PlainUnnamed(s.def.steps) then Stuck(s) else Forgotten(s)
  }

  /** From such a state one advance ends without the unnamed steps. */
  lemma EmptyAdvance(s: State, serial: nat)
    requires NamedInOrder(s.def) && Before(s, 0) && s.status == Live && RunsEnded(s)
    requires HasRows(s.rows, "") <==> PlainUnnamed(s.def.steps)
    ensures Missed(Advance(s, Empty(serial)))
  {
    var p := Pass(s, Empty(serial), |s.def.steps|);
    PassBefore(s, serial, |s.def.steps|);
    IdleIsBusy(p.rows);
    hide Pass, AnyBad, AnyBusy, HasRows, Done, NamedInOrder, Missing, PlainUnnamed, Stuck, Records;
    if PlainUnnamed(s.def.steps) {
      assert Advance(s, Empty(serial)) == p;
      NoRecords(s, p);
      IdleIsStuck(p);
    }
  }

  lemma NoRecords(s: State, p: State)
    requires RunsEnded(s) && s.rows <= p.rows && p.runs == s.runs
    ensures forall r: RunId :: !Records(p, r)
  {
    forall r: RunId ensures !Records(p, r) {
      assert r in p.runs ==> p.rows[r.row] == s.rows[r.row];
    }
  }

  // ---------------------------------------------------------------- the first call

  ghost predicate MissedIn(def: Definition, now: int, w: World, es: seq<Event>) {
    LegalHistory(Start(def, now, w), es) && Missed(Exec(Start(def, now, w), es)) &&
    Exec(Start(def, now, w), es).def == def
  }

  lemma FirstCallMissed(def: Definition)
    requires NamedInOrder(def) && StartMisses(def)
    ensures MissedIn(def, 0, Empty(0), [])
  {
    var s := State(def, 0, Live, FirstRows(def.steps), map[]);
    FirstBefore(def, s);
    EmptyAdvance(s, 0);
    PassKeepsDone(s, Empty(0), |def.steps|);
    hide Missed, Start, LegalHistory;
    NoEvents(Start(def, 0, Empty(0)));
    StartIs(def, 0, Empty(0));
  }

  lemma FirstBefore(def: Definition, s: State)
    requires NamedInOrder(def) && StartMisses(def)
    requires s == State(def, 0, Live, FirstRows(def.steps), map[])
    ensures Before(s, 0) && (HasRows(s.rows, "") <==> PlainUnnamed(def.steps))
  {
    hide StateOf, Answered;
    FirstRowsShape(def.steps);
    FirstTidy(def, 0);
    forall id | HasRows(s.rows, id) ensures id == "" && PlainUnnamed(def.steps) {
      AbsentHasNoRows(s.rows, id);
      var i :| 0 <= i < |s.rows| && s.rows[i].stepID == id;
      FirstRowsPlain(def.steps, i);
      var t :| 0 <= t < |def.steps| && def.steps[t].id == id && def.steps[t].over == "";
    }
    forall t, j | LateNeed(def, t, j) ensures !HasRows(s.rows, def.steps[j].id) {}
  }

  // ---------------------------------------------------------------- the call that records a last result

  /** Everything but what is held back has had its turn. */
  ghost predicate Ready(s: State, serial: nat, q: string) {
    && NamedInOrder(s.def) && Resting(s, serial) && Nodes(s.def, s.rows)
    && !RunningOutside(s.rows, {q}) && HeldBack(s.rows, {q})
  }

  /** A handled node of which nothing runs has succeeded, whatever runs elsewhere. */
  lemma HandledOutside(rows: seq<StepRun>, q: string, id: string)
    requires Uniform(rows) && Handled(rows, id) && !RunningOutside(rows, {q}) && id != q
    ensures Done(rows, id)
  {
    CleanNotBad(rows);
  }

  lemma {:induction false} OthersAreDone(s: State, serial: nat, q: string, k: nat)
    requires Ready(s, serial, q) && Named(s.def, k) && s.def.steps[k].id != q && !Follows(s.def, q, k)
    ensures Done(s.rows, s.def.steps[k].id)
    decreases k
  {
    hide StateOf, Uniform, Handled, RunningOutside, HeldBack, RunningOnRuns, RunsStarted, Justified, SerialsBelow,
        RowsInDef, Nodes, NamedInOrder;
    NeedsOfOthers(s, serial, q, k);
    HandledOutside(s.rows, q, s.def.steps[k].id);
  }

  lemma NeedsOfOthers(s: State, serial: nat, q: string, k: nat)
    requires Ready(s, serial, q) && Named(s.def, k) && !Follows(s.def, q, k)
    ensures DepsSucceeded(s.rows, s.def.steps[k])
    decreases k, 0
  {
    hide StateOf, Resting, RunningOutside, HeldBack, Nodes, NamedInOrder;
    forall n | 0 <= n < |s.def.steps[k].needs| ensures StateOf(s.rows, s.def.steps[k].needs[n]) == Succeeded {
      var e := NamedNeed(s.def, k, n);
      OthersAreDone(s, serial, q, e);
    }
  }

  /** The node held back is running: all it needs is done. */
  lemma HeldIsRunning(s: State, serial: nat, k: nat) returns (i: nat)
    requires Named(s.def, k) && Ready(s, serial, s.def.steps[k].id)
    ensures NewestOf(s.rows, s.def.steps[k].id, i) && s.rows[i].state == Running && s.status == Live
  {
    var q := s.def.steps[k].id;
    if Follows(s.def, q, k) {
      var e := FollowsNamed(s.def, q, k);
      NamedUnique(s.def, k, e);
    }
    NeedsOfOthers(s, serial, q, k);
    assert Handled(s.rows, q);
    CleanNotBad(s.rows);
    i :| NewestOf(s.rows, q, i) && !s.rows[i].state.Terminal();
    RunningIsLive(s, serial, i);
  }

  /** A list that follows the node held back has no rows yet. */
  lemma FollowerHasNone(s: State, serial: nat, q: string, j: nat)
    requires Ready(s, serial, q) && Named(s.def, j) && s.def.steps[j].over != "" && Follows(s.def, q, j)
    ensures !HasRows(s.rows, s.def.steps[j].id)
  {
    hide StateOf, Resting, RunningOutside, NamedInOrder;
    if HasRows(s.rows, s.def.steps[j].id) {
      assert DepsSucceeded(s.rows, s.def.steps[j]);
      var e :| 0 <= e < j && s.def.steps[e].id in s.def.steps[j].needs &&
        (s.def.steps[e].id == q || Follows(s.def, q, e));
      var n :| 0 <= n < |s.def.steps[j].needs| && s.def.steps[j].needs[n] == s.def.steps[e].id;
      var e' := NamedNeed(s.def, j, n);
      if s.def.steps[e].id != q {
        FollowsDone(s.def, s.rows, q, e);
      }
    }
  }

  lemma TurnMissesNow(s: State, serial: nat, q: string)
    requires Ready(s, serial, q) && TurnMisses(s.def, q) && q != ""
    ensures forall t :: 0 <= t < |s.def.steps| && s.def.steps[t].id == "" && Answered(s.def.steps, t) ==>
              exists j :: LateNeed(s.def, t, j) && s.def.steps[j].id != q && !HasRows(s.rows, s.def.steps[j].id)
    ensures forall j :: Named(s.def, j) && s.def.steps[j].id != q ==>
              Done(s.rows, s.def.steps[j].id) || !HasRows(s.rows, s.def.steps[j].id)
    ensures forall j :: Named(s.def, j) && s.def.steps[j].id != q && s.def.steps[j].over == "" ==>
              Done(s.rows, s.def.steps[j].id)
    ensures !Done(s.rows, "") && (HasRows(s.rows, "") <==> PlainUnnamed(s.def.steps))
  {
    hide StateOf, Resting, RunningOutside, NamedInOrder, Follows, Answered, KnownNodes, SafeNodes;
    forall j | Named(s.def, j) && Follows(s.def, q, j)
      ensures s.def.steps[j].id != q && s.def.steps[j].over != "" && !HasRows(s.rows, s.def.steps[j].id)
    {
      var e := FollowsNamed(s.def, q, j);
      if s.def.steps[j].id == q {
        NamedUnique(s.def, e, j);
      }
      FollowerHasNone(s, serial, q, j);
    }
    forall j | Named(s.def, j) && s.def.steps[j].id != q && !Follows(s.def, q, j)
      ensures Done(s.rows, s.def.steps[j].id)
    {
      OthersAreDone(s, serial, q, j);
    }
    forall t | 0 <= t < |s.def.steps| && s.def.steps[t].id == "" && Answered(s.def.steps, t)
      ensures exists j :: LateNeed(s.def, t, j) && s.def.steps[j].id != q && !HasRows(s.rows, s.def.steps[j].id)
      ensures !DepsSucceeded(s.rows, s.def.steps[t])
    {
      var j :| LateNeed(s.def, t, j) && Follows(s.def, q, j);
      MissesNeed(s, t, j);
    }
    hide DepsSucceeded;
  }

  /** With the last result recorded as won, only empty lists are left to succeed. */
  lemma LastWinBefore(s: State, serial: nat, q: string, i: nat)
    requires Ready(s, serial, q) && TurnMisses(s.def, q) && q != ""
    requires NewestOf(s.rows, q, i) && s.rows[i].state == Running && s.rows[i].runID.Some?
    requires s.rows[i].runID.value in s.runs && s.rows[i].runID.value.row == i
    ensures Before(WonOn(s, i), 0) && RunsEnded(WonOn(s, i))
    ensures HasRows(WonOn(s, i).rows, "") <==> PlainUnnamed(s.def.steps)
  {
    var t := WonOn(s, i);
    TurnMissesNow(s, serial, q);
    WonClean(s, serial, i);
    WonDone(s, i);
    WonRows(s, i);
    WonIsQuiet(s, serial, q, i);
    ReadyNodes(s, serial, q);
    hide StateOf, Resting, Clean, Nodes, Follows, Answered, RunningOutside, NamedInOrder, Newest, WonOn, PlainUnnamed,
        Uniform, RunsEnded, HeldBack, TurnMisses;
    CleanIsUniform(t, serial);
    WonIdle(s.def, s.rows, t.rows, q);
    WonMissing(s, t, q);
  }

  lemma ReadyNodes(s: State, serial: nat, q: string)
    requires Ready(s, serial, q)
    ensures Clean(s, serial) && KnownNodes(s.def, s.rows)
  {}

  lemma WonIdle(def: Definition, rows: seq<StepRun>, rows': seq<StepRun>, q: string)
    requires KnownNodes(def, rows) && !Done(rows, "") && q != "" && Done(rows', q)
    requires forall id :: HasRows(rows', id) <==> HasRows(rows, id)
    requires forall id :: id != q ==> (StateOf(rows', id) == Succeeded <==> StateOf(rows, id) == Succeeded)
    requires forall j :: Named(def, j) && def.steps[j].id != q ==>
               Done(rows, def.steps[j].id) || !HasRows(rows, def.steps[j].id)
    requires Uniform(rows') && forall i :: 0 <= i < |rows'| ==> rows'[i].state != Running
    ensures Idle(rows') && OnlyKnown(def, rows')
  {
    hide StateOf, Uniform;
    forall id | HasRows(rows', id) && id != "" && id != q ensures Done(rows', id) {
      assert HasStep(def.steps, id);
      var j :| 0 <= j < |def.steps| && def.steps[j].id == id;
      assert Named(def, j);
    }
    forall id | Done(rows', id) ensures HasStep(def.steps, id) {
      assert HasRows(rows', id);
    }
  }

  lemma WonMissing(s: State, t: State, q: string)
    requires t.def == s.def && Done(t.rows, q)
    requires forall id :: HasRows(t.rows, id) <==> HasRows(s.rows, id)
    requires forall id :: id != q ==> (StateOf(t.rows, id) == Succeeded <==> StateOf(s.rows, id) == Succeeded)
    requires forall u :: 0 <= u < |s.def.steps| && s.def.steps[u].id == "" && Answered(s.def.steps, u) ==>
              exists j :: LateNeed(s.def, u, j) && s.def.steps[j].id != q && !HasRows(s.rows, s.def.steps[j].id)
    requires forall j :: Named(s.def, j) && s.def.steps[j].id != q && s.def.steps[j].over == "" ==>
              Done(s.rows, s.def.steps[j].id)
    ensures Missing(t, 0)
  {
    hide StateOf, Answered, HasRows;
    forall u | 0 <= u < |t.def.steps| && t.def.steps[u].id == "" && Answered(t.def.steps, u)
      ensures exists j :: LateNeed(t.def, u, j) && !HasRows(t.rows, t.def.steps[j].id)
    {
      var j :| LateNeed(s.def, u, j) && s.def.steps[j].id != q && !HasRows(s.rows, s.def.steps[j].id);
    }
  }

  lemma WonRows(s: State, i: nat)
    requires i < |s.rows| && s.rows[i].runID.Some?
    ensures WonOn(s, i).def == s.def && WonOn(s, i).status == s.status
    ensures forall id :: HasRows(WonOn(s, i).rows, id) <==> HasRows(s.rows, id)
  {
    var rows' := WonOn(s, i).rows;
    assert forall j :: 0 <= j < |s.rows| ==> rows'[j].stepID == s.rows[j].stepID;
    hide StateOf;
    forall id ensures HasRows(rows', id) <==> HasRows(s.rows, id) {
      AbsentHasNoRows(s.rows, id);
      AbsentHasNoRows(rows', id);
    }
  }

  lemma WonIsQuiet(s: State, serial: nat, q: string, i: nat)
    requires Resting(s, serial) && !RunningOutside(s.rows, {q}) && NewestOf(s.rows, q, i)
    requires s.rows[i].state == Running && s.rows[i].runID.Some?
    requires s.rows[i].runID.value in s.runs && s.rows[i].runID.value.row == i
    ensures var t := WonOn(s, i);
            (forall j :: 0 <= j < |t.rows| ==> t.rows[j].state != Running) && RunsEnded(t)
  {
    var t := WonOn(s, i);
    forall j | 0 <= j < |t.rows| ensures t.rows[j].state != Running {
      if j != i && s.rows[j].state == Running {
        assert Newest(s.rows, j);
        OneNewest(s.rows, q, i, j);
      }
    }
    forall r | r in t.runs ensures r.row < |t.rows| && t.rows[r.row].state.Terminal() {
      assert r in s.runs;
      assert CleanRow(s.rows[r.row]);
    }
  }

  /** The last result arrives while every list that waits for it is empty. */
  lemma TurnMissed(def: Definition, k: nat) returns (es: seq<Event>)
    requires NamedInOrder(def) && Named(def, k) && TurnMisses(def, def.steps[k].id)
    ensures MissedIn(def, 0, Friendly(0), es)
  {
    hide NamedInOrder, PlainUnnamed, TurnMisses, Clean, Passed, AnyBusy, Exec, LegalHistory, Start, RunningOutside,
        HeldBack, Missed, Before, RunsEnded, Next, Legal, Tidy, Advance;
    var q, start := def.steps[k].id, Start(def, 0, Friendly(0));
    StartRests(def);
    NoEvents(start);
    HeldAtFirst(start.rows, q);
    var last;
    es, last := WinAll(start, [], 1, {q});
    var s := Exec(start, es);
    StallsRest(def, es);
    var i := HeldIsRunning(s, last, k);
    CleanRunning(s, last, i);
    var t, w := WonOn(s, i), Empty(last);
    LastWinBefore(s, last, q, i);
    WonRows(s, i);
    EmptyAdvance(t, last);
    WonNext(s, w, i);
    var r := s.rows[i].runID.value;
    OneMoreEvent(start, es, Finished(r, EngineRun(Won, "")));
    OneMoreEvent(start, es + [Finished(r, EngineRun(Won, ""))], Message(r, w));
    es := es + [Finished(r, EngineRun(Won, ""))] + [Message(r, w)];
    StallsRest(def, es);
  }

  lemma HeldAtFirst(rows: seq<StepRun>, q: string)
    requires forall id :: StateOf(rows, id) != Succeeded
    ensures HeldBack(rows, {q})
  {}

  lemma StallsRest(def: Definition, es: seq<Event>)
    requires NamedInOrder(def)
    ensures var s := Exec(Start(def, 0, Friendly(0)), es); Nodes(s.def, s.rows) && s.def == def
  {
    hide NamedInOrder, Start, Exec, Nodes, RunsTidy, NamedReady, MayStall, Complete;
    StartRestsWeakly(def, 0, Friendly(0));
    HistoryRests(Start(def, 0, Friendly(0)), es);
  }

  // ---------------------------------------------------------------- main results

  ghost predicate CanStall(def: Definition) {
    exists now: int, w: World, es: seq<Event> :: GetsStuckIn(def, now, w, es)
  }

  ghost predicate ForgetsIn(def: Definition, now: int, w: World, es: seq<Event>) {
    SucceedsIn(def, now, w, es) && !AllDone(Exec(Start(def, now, w), es))
  }

  /** Some history ends with the status success although a step has not succeeded. */
  ghost predicate CanForget(def: Definition) {
    exists now: int, w: World, es: seq<Event> :: ForgetsIn(def, now, w, es)
  }

  lemma NeverOtherwise(def: Definition, now: int, w: World, es: seq<Event>)
    requires NamedInOrder(def)
    ensures GetsStuckIn(def, now, w, es) ==> MayStall(def)
    ensures ForgetsIn(def, now, w, es) ==> MayForget(def)
  {
    hide NamedInOrder, MayStall, MayForget, Exec, Start, StateOf, LegalHistory;
    StallsOnlyIf(def, now, w, es);
    StallsRestIn(def, now, w, es);
  }

  lemma StallsRestIn(def: Definition, now: int, w: World, es: seq<Event>)
    requires NamedInOrder(def)
    ensures Exec(Start(def, now, w), es).def == def
  {
    hide NamedInOrder, Start, Exec, Rest;
    StartRestsWeakly(def, now, w);
    HistoryRests(Start(def, now, w), es);
  }

  /** When no unnamed step ever becomes ready, plain ones wait and lists are forgotten. */
  lemma UnansweredMissed(def: Definition) returns (es: seq<Event>)
    requires NamedInOrder(def) && Unanswered(def.steps)
    ensures MissedIn(def, 0, Friendly(0), es)
  {
    hide NamedInOrder, Unanswered, LegalHistory, Start, Exec, Stuck, Done;
    if PlainUnnamed(def.steps) {
      es := BlockedGetsStuck(def);
    } else {
      SucceedingIn(def);
      es :| SucceedsIn(def, 0, Friendly(0), es);
      UnansweredNeverRuns(def, 0, Friendly(0), es);
      NotDone(Exec(Start(def, 0, Friendly(0)), es).rows);
    }
    StallsRest(def, es);
  }

  lemma NotDone(rows: seq<StepRun>)
    requires StateOf(rows, "") != Succeeded
    ensures !Done(rows, "")
  {}

  lemma MissingHistory(def: Definition) returns (w: World, es: seq<Event>)
    requires NamedInOrder(def) && Misses(def)
    ensures MissedIn(def, 0, w, es)
  {
    hide NamedInOrder, Unanswered, StartMisses, TurnMisses, MissedIn;
    if Unanswered(def.steps) {
      es := UnansweredMissed(def);
      w := Friendly(0);
    } else if StartMisses(def) {
      FirstCallMissed(def);
      w, es := Empty(0), [];
    } else {
      var k :| 0 <= k < |def.steps| && def.steps[k].id != "" && TurnMisses(def, def.steps[k].id);
      es := TurnMissed(def, k);
      w := Friendly(0);
    }
  }

  lemma MissedEnds(def: Definition, now: int, w: World, es: seq<Event>)
    requires MissedIn(def, now, w, es)
    ensures PlainUnnamed(def.steps) ==> GetsStuckIn(def, now, w, es)
    ensures HasStep(def.steps, "") && !PlainUnnamed(def.steps) ==> ForgetsIn(def, now, w, es)
  {
    hide StateOf, LegalHistory, Start, Exec, PlainUnnamed, Stuck;
  }

  /** Some history gets stuck if and only if the definition may stall, and some history is recorded as a success without
      one of the steps if and only if the definition may forget one. */
  lemma MissesExactly(def: Definition)
    requires NamedInOrder(def)
    ensures CanStall(def) <==> MayStall(def)
    ensures CanForget(def) <==> MayForget(def)
  {
    hide NamedInOrder, PlainUnnamed, Misses, GetsStuckIn, ForgetsIn, MissedIn;
    if Misses(def) {
      var w, es := MissingHistory(def);
      MissedEnds(def, 0, w, es);
    }
    forall now: int, w: World, es: seq<Event>
      ensures GetsStuckIn(def, now, w, es) ==> MayStall(def)
      ensures ForgetsIn(def, now, w, es) ==> MayForget(def)
    {
      NeverOtherwise(def, now, w, es);
    }
  }
}
