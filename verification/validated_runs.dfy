/** From the rule set to the executor: what an accepted definition guarantees about its runs, and what the gap in the
    rule set, steps without an id, costs. */
module ValidatedRuns {
  import opened Wrappers
  import opened Definitions
  import opened StepRows
  import opened RunState
  import opened Invariants
  import opened History
  import opened PipelineTheorems
  import opened PipelineBounds
  import opened PipelineLiveness
  import opened UnnamedSteps
  import opened Stalls
  import opened StallHistories
  import opened Validation

  lemma AcceptedIsNamedInOrder(def: Definition, c: Checks)
    requires Accepted(def, c)
    ensures NamedInOrder(def)
  {
    forall k | 0 <= k < |def.steps| && def.steps[k].id != "" ensures PlaceOk(def, k) {}
  }

  /** In every history of an accepted definition a live run has a step running unless the definition may stall, and a
      recorded success leaves out no step unless it is an unnamed list that the definition may forget. When the one
      unnamed step, if there is one, needs earlier steps only, a run without a retry starts at most 2000 runs. */
  lemma AcceptedRunsAreSound(def: Definition, c: Checks, now: int, w: World, es: seq<Event>)
    requires Accepted(def, c)
    ensures var s := Exec(Start(def, now, w), es);
            && (s.status == Live && !MayStall(def) ==> SomeRunning(s.rows))
            && (s.status == Succeeded_ ==> forall k :: 0 <= k < |def.steps| ==>
                  StateOf(s.rows, def.steps[k].id) == Succeeded || (def.steps[k].id == "" && MayForget(def)))
            && (UnnamedOk(def) && LegalHistory(Start(def, now, w), es) && NoRetry(es) ==>
                  |s.runs| <= 2000 && Completions(Start(def, now, w), es) <= 2000)
  {
    AcceptedIsNamedInOrder(def, c);
    AcceptedIsWellOrdered(def, c);
    StallsOnlyIf(def, now, w, es);
    hide MayStall, MayForget, StateOf, Start, Exec;
    if UnnamedOk(def) && LegalHistory(Start(def, now, w), es) && NoRetry(es) {
      WorkIsBounded(def, now, w, es);
      CompletionsAreBounded(def, now, w, es);
    }
  }

  /** Both conditions are exact: some history of an accepted definition ends live with nothing running and nothing to
      record if and only if it may stall, and some history ends with the status success and a step that has not
      succeeded if and only if it may forget one. */
  lemma AcceptedMissesExactly(def: Definition, c: Checks)
    requires Accepted(def, c)
    ensures CanStall(def) <==> MayStall(def)
    ensures CanForget(def) <==> MayForget(def)
  {
    hide NamedInOrder, CanStall, MayStall, CanForget, MayForget;
    AcceptedIsNamedInOrder(def, c);
    MissesExactly(def);
  }

  /** With at most one unnamed step, all of whose needs come earlier in the file, neither can happen. */
  lemma OrderlyMissesNothing(def: Definition, c: Checks)
    requires Accepted(def, c) && UnnamedOk(def)
    ensures !MayStall(def) && !MayForget(def)
  {
    AcceptedIsNamedInOrder(def, c);
    if t :| 0 <= t < |def.steps| && def.steps[t].id == "" {
      forall n | 0 <= n < |def.steps[t].needs|
        ensures def.steps[t].needs[n] != "" && HasStep(def.steps, def.steps[t].needs[n])
      {
        assert DefinedBefore(def, def.steps[t].needs[n], t);
      }
      assert Answered(def.steps, t);
      forall j ensures !LateNeed(def, t, j) {
        NeededEarlier(def, t, j);
      }
    }
  }

  lemma NeededEarlier(def: Definition, t: int, j: int)
    requires NamedInOrder(def) && UnnamedOk(def) && 0 <= t < |def.steps| && def.steps[t].id == ""
    ensures !LateNeed(def, t, j)
  {
    forall n | 0 <= n < |def.steps[t].needs| && t < j < |def.steps| && def.steps[j].id != ""
      ensures def.steps[t].needs[n] != def.steps[j].id
    {
      assert DefinedBefore(def, def.steps[t].needs[n], t);
    }
  }

  // ---------------------------------------------------------------- steps without an id

  /** Some history of an accepted definition ends with the status success if and only if none of its unnamed steps is
      plain, or one of them needs named steps only. Otherwise no history does. */
  lemma AcceptedSucceedsExactly(def: Definition, c: Checks)
    requires Accepted(def, c)
    ensures CanSucceed(def) <==>
              || (forall t :: 0 <= t < |def.steps| && def.steps[t].id == "" ==> def.steps[t].over != "")
              || (exists t :: 0 <= t < |def.steps| && def.steps[t].id == "" && Answered(def.steps, t))
  {
    hide NamedInOrder, CanSucceed, Answered;
    AcceptedIsNamedInOrder(def, c);
    SucceedsExactly(def);
  }

  /** Some history ends with that status and every step succeeded if and only if each step has an id, or one of those
      without needs named steps only. What lies between the two conditions is recorded as success without its unnamed
      lists. */
  lemma AcceptedCompletesExactly(def: Definition, c: Checks)
    requires Accepted(def, c)
    ensures CanComplete(def) <==>
              || (forall t :: 0 <= t < |def.steps| ==> def.steps[t].id != "")
              || (exists t :: 0 <= t < |def.steps| && def.steps[t].id == "" && Answered(def.steps, t))
  {
    hide NamedInOrder, CanComplete, Answered;
    AcceptedIsNamedInOrder(def, c);
    CompletesExactly(def);
  }

  /** Where no history can end with the status success, the run, when everything else has won, waits with
      nothing running until it is cancelled or times out. */
  lemma AcceptedGetsStuck(def: Definition, c: Checks) returns (es: seq<Event>)
    requires Accepted(def, c) && !CanSucceed(def)
    ensures GetsStuckIn(def, 0, Friendly(0), es)
  {
    hide NamedInOrder, CanSucceed, Blocked;
    AcceptedIsNamedInOrder(def, c);
    SucceedsExactly(def);
    es := BlockedGetsStuck(def);
  }

  const UNNAMED := Step("", "t", ["zz"], map[], "", 0, "")
  const GAP := Definition(0, [UNNAMED])
  const ANYTHING := Checks(None, text => true)

  /** A single unnamed step that needs a step which does not exist passes every rule, and its run
      waits with nothing running from the start: it cannot succeed. */
  lemma UnnamedStepStalls(now: int, w: World)
    ensures Accepted(GAP, ANYTHING) && !UnnamedOk(GAP) && !CanSucceed(GAP)
    ensures var s := Start(GAP, now, w);
            s.status == Live && !SomeRunning(s.rows) && forall w' :: Advance(s, w') == s
  {
    var rows := [PendingRow("", 0, "", 1)];
    assert FirstRows(GAP.steps) == rows by {
      assert FirstRows([]) == [];
    }
    var s := State(GAP, now, Live, rows, map[]);
    AbsentHasNoRows(rows, "zz");
    assert UNNAMED.needs[0] == "zz" && !DepsSucceeded(rows, UNNAMED);
    assert Newest(rows, 0);
    forall w' ensures Advance(s, w') == s {
      assert Pass(s, w', 1) == AdvanceStep(Pass(s, w', 0), w', UNNAMED) == s;
    }
    assert FieldsOk(GAP, ANYTHING, 0);
    assert GAP.steps[0].needs[0] == "zz" && !DefinedBefore(GAP, "zz", 0);
    assert !Answered(GAP.steps, 0) && GAP.steps[0].over == "";
    AcceptedSucceedsExactly(GAP, ANYTHING);
  }

  const UNNAMED_LIST := Step("", "t", ["zz"], map[], "", 0, "xs")
  const HOLLOW := Definition(0, [UNNAMED_LIST])

  /** A single unnamed list step that needs a step which does not exist passes every rule, and its run is a success
      from the start, without a single row: the step was never looked at. */
  lemma HollowSuccess(now: int, w: World)
    ensures Accepted(HOLLOW, ANYTHING) && CanSucceed(HOLLOW) && !CanComplete(HOLLOW)
    ensures var s := Start(HOLLOW, now, w); s.status == Succeeded_ && s.rows == []
  {
    assert FieldsOk(HOLLOW, ANYTHING, 0);
    assert HOLLOW.steps[0].needs[0] == "zz" && !DefinedBefore(HOLLOW, "zz", 0);
    assert !Answered(HOLLOW.steps, 0) && HOLLOW.steps[0].id == "";
    HollowStart(now, w);
    hide CanSucceed, CanComplete, Answered;
    AcceptedSucceedsExactly(HOLLOW, ANYTHING);
    AcceptedCompletesExactly(HOLLOW, ANYTHING);
  }

  lemma HollowStart(now: int, w: World)
    ensures var s := Start(HOLLOW, now, w); s.status == Succeeded_ && s.rows == []
  {
    assert FirstRows(HOLLOW.steps) == [] by {
      assert HOLLOW.steps[1..] == [] && FirstRows([]) == [];
    }
    var s := State(HOLLOW, now, Live, [], map[]);
    AbsentHasNoRows([], "zz");
    assert UNNAMED_LIST.needs[0] == "zz" && !DepsSucceeded([], UNNAMED_LIST);
    assert Pass(s, w, 1) == AdvanceStep(Pass(s, w, 0), w, UNNAMED_LIST) == s;
  }

  const LATE := Step("", "t", ["b"], map[], "", 0, "")
  const LISTED := Step("b", "t", [], map[], "", 0, "xs")
  const EARLY := Definition(0, [LATE, LISTED])

  lemma EarlyPass(s: State, w: World)
    requires s.def == EARLY && s.rows == [PendingRow("", 0, "", 1)] && w.fan("b") == Items([])
    ensures Pass(s, w, 2) == s.(rows := s.rows + [PendingRow("b", 0, "", 1).(state := Success, report := "{}")])
  {
    AbsentHasNoRows(s.rows, "b");
    assert LATE.needs[0] == "b" && !DepsSucceeded(s.rows, LATE);
    assert Pass(s, w, 1) == AdvanceStep(Pass(s, w, 0), w, LATE) == s;
    var s1 := Expand(s, w, LISTED);
    assert s1.rows == s.rows + [PendingRow("b", 0, "", 1).(state := Success, report := "{}")];
    assert forall i :: 0 <= i < |s1.rows| ==> !Startable(s1.rows, "b", i);
    assert StartRows(s1.rows, w, "b") == s1.rows && StartedRuns(s1.rows, w, "b") == {};
    assert Pass(s, w, 2) == AdvanceStep(Pass(s, w, 1), w, LISTED);
  }

  lemma EarlyStarts(now: int, w: World)
    requires w.fan("b") == Items([])
    ensures Stuck(Start(EARLY, now, w))
  {
    var rows := [PendingRow("", 0, "", 1)];
    assert FirstRows(EARLY.steps) == rows by {
      assert EARLY.steps[1..] == [LISTED] && FirstRows([LISTED]) == [] + FirstRows([]);
    }
    var s := State(EARLY, now, Live, rows, map[]);
    EarlyPass(s, w);
    EarlySettles(Pass(s, w, 2));
  }

  /** One row waits and the other has succeeded: the run stays live. */
  lemma EarlySettles(p: State)
    requires p.status == Live && p.runs == map[]
    requires p.rows == [PendingRow("", 0, "", 1), PendingRow("b", 0, "", 1).(state := Success, report := "{}")]
    ensures Settle(p) == p && Stuck(p)
  {
    hide Stuck, Records;
    assert Newest(p.rows, 0);
    NoRunsRecord(p);
    IdleIsStuck(p);
  }

  lemma NoRunsRecord(s: State)
    requires s.runs == map[]
    ensures forall r: RunId :: !Records(s, r)
  {}

  lemma EarlyAccepted()
    ensures Accepted(EARLY, ANYTHING) && !UnnamedOk(EARLY) && CanSucceed(EARLY)
  {
    assert FieldsOk(EARLY, ANYTHING, 0) && FieldsOk(EARLY, ANYTHING, 1) && PlaceOk(EARLY, 1);
    assert EARLY.steps[0].needs[0] == "b" && !DefinedBefore(EARLY, "b", 0);
    assert EARLY.steps[1].id == "b";
    assert Answered(EARLY.steps, 0);
    hide CanSucceed, Answered;
    AcceptedSucceedsExactly(EARLY, ANYTHING);
  }

  /** Between the two conditions a run can both succeed and get stuck: an unnamed step needs a later list, and when the
      list is empty it becomes ready after its turn in a pass that leaves nothing running. */
  lemma LaterListGetsStuck(now: int, w: World)
    requires w.fan("b") == Items([])
    ensures Accepted(EARLY, ANYTHING) && !UnnamedOk(EARLY) && CanSucceed(EARLY)
    ensures Stuck(Start(EARLY, now, w))
  {
    EarlyAccepted();
    EarlyStarts(now, w);
  }
}
