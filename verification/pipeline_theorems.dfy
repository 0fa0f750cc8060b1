/** The guarantees of the pipeline executor over whole histories. */
module PipelineTheorems {
  import opened Wrappers
  import opened Definitions
  import opened StepRows
  import opened RunState
  import opened Invariants
  import opened History
  import opened Progress

  // ---------------------------------------------------------------- safety over every history

  /** Dependency safety: in every history a step run that is running, has succeeded or carries
      a run id has all its needs succeeded. */
  lemma DependencySafety(def: Definition, now: int, w: World, es: seq<Event>, i: nat)
    requires WellOrdered(def)
    ensures var s := Exec(Start(def, now, w), es);
            i < |s.rows| && (s.rows[i].state == Running || s.rows[i].state == Success || s.rows[i].runID.Some?) ==>
              NeedsDone(def, s.rows, s.rows[i].stepID)
  {
    StartInv(def, now, w);
    HistoryInv(Start(def, now, w), es);
    var s := Exec(Start(def, now, w), es);
    assert i < |s.rows| && (s.rows[i].state == Running || s.rows[i].state == Success || s.rows[i].runID.Some?) ==>
             Reached(s, i);
  }

  /** A node that has succeeded keeps exactly the rows it had, through every further event. */
  lemma SucceededForever(def: Definition, now: int, w: World, es: seq<Event>, later: seq<Event>, id: string)
    requires WellOrdered(def)
    requires StateOf(Exec(Start(def, now, w), es).rows, id) == Succeeded
    ensures var s := Exec(Start(def, now, w), es);
            && Untouched(s.rows, Exec(s, later).rows, id)
            && StateOf(Exec(s, later).rows, id) == Succeeded
  {
    StartInv(def, now, w);
    HistoryInv(Start(def, now, w), es);
    var s := Exec(Start(def, now, w), es);
    HistoryInv(s, later);
    UntouchedNewest(s.rows, Exec(s, later).rows, id);
  }

  /** A live run is never stuck and a finished one is quiet; success covers the whole definition. */
  lemma LiveOrQuiet(def: Definition, now: int, w: World, es: seq<Event>)
    requires WellOrdered(def)
    ensures var s := Exec(Start(def, now, w), es);
            && (s.status == Live ==> SomeRunning(s.rows) && !AnyBad(s.rows))
            && (s.status != Live ==> forall i :: 0 <= i < |s.rows| ==> s.rows[i].state.Terminal())
            && (s.status == Succeeded_ ==>
                  forall k :: 0 <= k < |def.steps| ==> StateOf(s.rows, def.steps[k].id) == Succeeded)
  {
    StartInv(def, now, w);
    HistoryInv(Start(def, now, w), es);
  }

  // ---------------------------------------------------------------- histories without a retry

  ghost predicate Legal(s: State, e: Event) {
    match e
    case Finished(r, result) => r in s.runs && s.runs[r].outcome == InFlight && result.outcome != InFlight
    case Message(r, w) => r in s.runs && s.runs[r].outcome != InFlight && Fresh(s, w)
    case Cancelling => true
    case Ticking(now, w) => Fresh(s, w)
    case Retrying(w) => Fresh(s, w)
  }

  /** A run ends once, messages follow the end of their run, and every call's runs are new. */
  ghost predicate LegalHistory(s: State, es: seq<Event>)
    decreases |es|
  {
    es == [] || (LegalHistory(s, es[..|es| - 1]) && Legal(Exec(s, es[..|es| - 1]), es[|es| - 1]))
  }

  lemma NoEvents(s: State)
    ensures LegalHistory(s, []) && Exec(s, []) == s
  {}

  lemma OneMoreEvent(s: State, es: seq<Event>, e: Event)
    requires LegalHistory(s, es) && Legal(Exec(s, es), e)
    ensures LegalHistory(s, es + [e]) && Exec(s, es + [e]) == Next(Exec(s, es), e)
  {
    assert (es + [e])[..|es|] == es;
  }

  predicate NoRetry(es: seq<Event>) {
    forall k :: 0 <= k < |es| ==> !es[k].Retrying?
  }

  lemma NextForward(s: State, e: Event)
    requires Inv(s) && Legal(s, e) && !e.Retrying?
    ensures Forward(s.rows, Next(s, e).rows)
    ensures s.runs.Keys <= Next(s, e).runs.Keys
    ensures OneRun(s) ==> OneRun(Next(s, e))
  {
    hide Inv, Forward, Tick, Cancel, CompleteStep, OneRun;
    ForwardRefl(s.rows);
    match e
    case Finished(r, result) => SameRowsOneRun(s, Next(s, e));
    case Message(r, w) => CompleteForward(s, r, w);
    case Cancelling => CancelForward(s);
    case Ticking(now, w) => TickForward(s, now, w);
  }

  lemma SameRowsOneRun(s: State, s': State)
    requires s'.runs.Keys == s.runs.Keys
    ensures s'.rows == s.rows ==> OneRun(s) ==> OneRun(s')
  {
    assert forall r :: r in s'.runs <==> r in s.runs.Keys;
  }

  lemma CancelForward(s: State)
    requires Inv(s)
    ensures Forward(s.rows, Cancel(s).rows) && Cancel(s).runs == s.runs
    ensures OneRun(s) ==> OneRun(Cancel(s))
  {
    hide Inv, Core, Linked, Forward, StopRows, OneRun;
    ForwardRefl(s.rows);
    InvWellOrdered(s);
    CoreLinked(s);
    StopForward(s, Cancelled, Cancelled);
    SameRowsOneRun(s.(rows := StopRows(s.rows, Cancelled, Cancelled)), Cancel(s));
  }

  lemma TickForward(s: State, now: int, w: World)
    requires Inv(s) && Fresh(s, w)
    ensures Forward(s.rows, Tick(s, now, w).rows) && KeepsResults(s, Tick(s, now, w))
    ensures OneRun(s) ==> OneRun(Tick(s, now, w))
  {
    hide Inv, Core, Linked, Forward, StopRows, Reconcile, Recorded, OneRun, Fresh;
    ForwardRefl(s.rows);
    ReconcileForward(s, s.rows, w);
    InvWellOrdered(s);
    CoreLinked(s);
    StopForward(s, Cancelled, Cancelled);
    if !s.status.Terminal() && s.startedAt < now && now - s.startedAt >= TimeoutOf(s.def) {
      SameRowsOneRun(s.(rows := StopRows(s.rows, Cancelled, Cancelled)), Tick(s, now, w));
    }
  }

  lemma {:induction false} HistoryForward(s: State, es: seq<Event>)
    requires Inv(s) && LegalHistory(s, es) && NoRetry(es)
    ensures Forward(s.rows, Exec(s, es).rows)
    ensures s.runs.Keys <= Exec(s, es).runs.Keys
    ensures OneRun(s) ==> OneRun(Exec(s, es))
    decreases |es|
  {
    hide Inv, Forward, Next, OneRun, Legal;
    ForwardRefl(s.rows);
    if es != [] {
      var front := es[..|es| - 1];
      assert NoRetry(front);
      HistoryForward(s, front);
      HistoryInv(s, front);
      NextForward(Exec(s, front), es[|es| - 1]);
      ForwardTrans(s.rows, Exec(s, front).rows, Exec(s, es).rows);
    }
  }

  /** Duplicated messages: once a run's message was handled, repeating it changes nothing,
      now or after any further events that do not retry the run. */
  lemma ReplayIsIgnored(s: State, r: RunId, w: World, es: seq<Event>, w': World)
    requires Inv(s) && Legal(s, Message(r, w))
    requires LegalHistory(Next(s, Message(r, w)), es) && NoRetry(es)
    ensures var s' := Exec(Next(s, Message(r, w)), es);
            Next(s', Message(r, w')) == s'
  {
    var s1 := Next(s, Message(r, w));
    CompleteForward(s, r, w);
    CompleteKeeps(s, r, w);
    HistoryForward(s1, es);
    ForwardAt(s1.rows, Exec(s1, es).rows, r.row);
  }

  /** Lost messages: one sweep ends every step run that was running on a finished run, whether
      or not its message ever arrived. */
  lemma SweepCatchesLostMessages(s: State, now: int, w: World, i: nat, r: RunId)
    requires Inv(s) && Fresh(s, w) && s.status == Live && s.startedAt < now
    requires i < |s.rows| && s.rows[i].state == Running && s.rows[i].runID == Some(r)
    requires r in s.runs && s.runs[r].outcome != InFlight
    ensures RowEnded(Tick(s, now, w).rows, i)
  {
    hide Inv, Core, Reconcile, StopRows, Fresh;
    InvWellOrdered(s);
    CoreLinked(s);
    if now - s.startedAt < TimeoutOf(s.def) {
      ReconcileForward(s, s.rows, w);
      assert Stranded(s, s.rows[i]);
    } else {
      CoreStopped(s, Cancelled, Cancelled, TimedOut);
    }
  }

  lemma StartOneRunEach(def: Definition, now: int, w: World)
    requires WellOrdered(def)
    ensures OneRun(Start(def, now, w))
    ensures forall r :: r in Start(def, now, w).runs ==> r.serial == w.serial
  {
    var s := State(def, now, Live, FirstRows(def.steps), map[]);
    FirstCore(def, now);
    AdvanceForward(s, w);
  }

  /** Without a retry each step run has at most one run, which it carries. */
  lemma OneRunPerStepRun(def: Definition, now: int, w: World, es: seq<Event>)
    requires WellOrdered(def)
    requires LegalHistory(Start(def, now, w), es) && NoRetry(es)
    ensures OneRun(Exec(Start(def, now, w), es))
  {
    StartInv(def, now, w);
    StartOneRunEach(def, now, w);
    HistoryForward(Start(def, now, w), es);
  }
}
