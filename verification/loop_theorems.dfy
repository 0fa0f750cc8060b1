/** What holds of a loop and its runs over every history of reports, sweeps, stops and restarts. */
module LoopTheorems {
  import opened UntilDoneLoops

  datatype Event =
    | Finish(r: nat, e: Ending)
    | Report(e: Ending)
    | Tick(cutoff: int)
    | Stop
    | Restart

  /** A run somebody may still try to close: it is running, or this process has closed it and a copy is still around. */
  predicate Known(s: System, r: nat) {
    r < |s.runs| && (r in s.completed || s.runs[r].outcome == Running)
  }

  function Next(s: System, ev: Event): System {
    match ev
    case Finish(r, e) => if Known(s, r) && e.outcome != Running then Closed(s, r, e) else s
    case Report(e) => if e.outcome != Running then Reported(s, e) else s
    case Tick(cutoff) => Swept(s, cutoff)
    case Stop => Stopped(s)
    case Restart => s.(completed := {}, cached := false)
  }

  function After(s: System, events: seq<Event>): System
    decreases |events|
  {
    if events == [] then s else After(Next(s, events[0]), events[1..])
  }

  // ---------------------------------------------------------------- the invariant

  ghost predicate Numbered(s: System) {
    && 1 <= |s.runs| <= s.loop.max
    && forall i :: 0 <= i < |s.runs| ==> s.runs[i].iteration == i + 1
  }

  /** Only the last run can be anything but a success, and what was closed stays closed. */
  ghost predicate Progressed(s: System) {
    && (forall i :: 0 <= i < |s.runs| - 1 ==> s.runs[i].outcome == Success)
    && (forall i :: i in s.completed ==> i < |s.runs| && s.runs[i].outcome != Running)
  }

  /** The loop row agrees with the runs. */
  ghost predicate Agrees(s: System)
    requires s.runs != []
  {
    var last := s.runs[|s.runs| - 1].outcome;
    && (s.loop.state == LoopRunning ==> last == Running && s.loop.iteration == |s.runs|)
    && (s.loop.state == LoopDone || s.loop.state == LoopExhausted ==> last == Success)
    && (s.loop.state == LoopFailed ==> last != Running)
    && (s.loop.state == LoopExhausted ==> |s.runs| == s.loop.max)
    && (s.loop.iteration == |s.runs| || (s.loop.state == LoopFailed && s.loop.iteration == |s.runs| - 1 >= 1))
    && (s.cached ==> s.loop.state == LoopRunning)
  }

  ghost predicate Inv(s: System) { Numbered(s) && Progressed(s) && Agrees(s) }

  /** The send of a next iteration fails: the one case where the loop row is written from a copy read too early. */
  predicate SendFails(s: System, r: nat, e: Ending) {
    && r < |s.runs| && r !in s.completed && s.loop.state == LoopRunning
    && e.outcome == Success && !e.done && s.runs[r].iteration < s.loop.max && e.attempt == NotSent
  }

  lemma KnownIsLast(s: System, r: nat)
    requires Inv(s) && Known(s, r) && r !in s.completed
    ensures r == |s.runs| - 1 && s.runs[r].outcome == Running
  {}

  lemma ClosedFailed(s: System, r: nat, e: Ending)
    requires Inv(s) && Known(s, r) && e.outcome != Running && e.outcome != Success
    ensures Inv(Closed(s, r, e))
    ensures |Closed(s, r, e).runs| == |s.runs|
    ensures s.loop.iteration == |s.runs| ==> Closed(s, r, e).loop.iteration == |s.runs|
    ensures s.loop.max == Closed(s, r, e).loop.max
    ensures s.loop.state != LoopRunning ==> Closed(s, r, e).loop == s.loop
    ensures forall i :: 0 <= i < |s.runs| - 1 ==> Closed(s, r, e).runs[i] == s.runs[i]
  {
    if r !in s.completed {
      KnownIsLast(s, r);
    }
  }

  /** A failed send leaves a closed, failed run and an ended loop, whose row then gets the earlier iteration. */
  lemma NotSentIs(s: System, r: nat, e: Ending)
    requires r < |s.runs| && s.loop.state == LoopRunning && e.outcome == Success && e.attempt == NotSent
    requires |s.runs| !in s.completed
    ensures var next := s.runs[r].iteration + 1;
            Iterated(s, r, e) == System(Loop(LoopFailed, next, s.loop.max), s.runs + [Run(next, e.now, Failed)],
                                        s.completed + {|s.runs|}, false)
  {
    var next := s.runs[r].iteration + 1;
    var s' := s.(runs := s.runs + [Run(next, e.now, Running)],
        loop := s.loop.(state := LoopRunning, iteration := next));
    var ending := Ending(Failed, false, NotPrepared, e.now);
    var row := |s.runs|;
    assert s'.runs[row := s'.runs[row].(outcome := Failed)] == s.runs + [Run(next, e.now, Failed)];
    assert Closed(s', row, ending) ==
           Advanced(s'.(completed := s'.completed + {row}, runs := s.runs + [Run(next, e.now, Failed)]), row, ending);
  }

  lemma ClosedOver(s: System, r: nat, e: Ending)
    requires Inv(s) && Known(s, r) && r !in s.completed && e.outcome == Success
    requires s.loop.state != LoopRunning || e.done || s.runs[r].iteration >= s.loop.max || e.attempt == NotPrepared
    ensures Inv(Closed(s, r, e)) && s.loop.max == Closed(s, r, e).loop.max
    ensures s.loop.iteration == |s.runs| ==> Closed(s, r, e).loop.iteration == |Closed(s, r, e).runs|
    ensures s.loop.state != LoopRunning ==> Closed(s, r, e).loop == s.loop
    ensures |Closed(s, r, e).runs| == |s.runs| && forall i :: 0 <= i < |s.runs| - 1 ==>
        Closed(s, r, e).runs[i] == s.runs[i]
  {
    KnownIsLast(s, r);
    var s1 := s.(completed := s.completed + {r}, runs := s.runs[r := s.runs[r].(outcome := Success)]);
    assert Closed(s, r, e) == Advanced(s1, r, e);
    hide Closed;
    if e.attempt == NotPrepared {
      assert Iterated(s1, r, e) == s1;
    }
  }

  lemma ClosedSent(s: System, r: nat, e: Ending)
    requires Inv(s) && Known(s, r) && r !in s.completed && e.outcome == Success
    requires s.loop.state == LoopRunning && !e.done && s.runs[r].iteration < s.loop.max && e.attempt == Sent
    ensures Inv(Closed(s, r, e)) && s.loop.max == Closed(s, r, e).loop.max
    ensures s.loop.iteration == |s.runs| ==> Closed(s, r, e).loop.iteration == |Closed(s, r, e).runs|
    ensures |Closed(s, r, e).runs| == |s.runs| + 1
    ensures forall i :: 0 <= i < |s.runs| - 1 ==> Closed(s, r, e).runs[i] == s.runs[i]
  {
    KnownIsLast(s, r);
    var s1 := s.(completed := s.completed + {r}, runs := s.runs[r := s.runs[r].(outcome := Success)]);
    assert Closed(s, r, e) == Advanced(s1, r, e) == Iterated(s1, r, e);
    hide Closed, Advanced;
  }

  lemma ClosedUnsent(s: System, r: nat, e: Ending)
    requires Inv(s) && Known(s, r) && SendFails(s, r, e)
    ensures Inv(Closed(s, r, e)) && s.loop.max == Closed(s, r, e).loop.max
    ensures Closed(s, r, e).loop.iteration != |Closed(s, r, e).runs|
    ensures |s.runs| <= |Closed(s, r, e).runs| && forall i :: 0 <= i < |s.runs| - 1 ==>
        Closed(s, r, e).runs[i] == s.runs[i]
  {
    hide Iterated;
    KnownIsLast(s, r);
    NotSentIs(s.(completed := s.completed + {r}, runs := s.runs[r := s.runs[r].(outcome := Success)]), r, e);
  }

  lemma ClosedKeeps(s: System, r: nat, e: Ending)
    requires Inv(s) && Known(s, r) && e.outcome != Running
    ensures Inv(Closed(s, r, e)) && s.loop.max == Closed(s, r, e).loop.max
    ensures s.loop.iteration == |s.runs| ==>
              (Closed(s, r, e).loop.iteration == |Closed(s, r, e).runs| <==> !SendFails(s, r, e))
    ensures s.loop.state != LoopRunning ==> Closed(s, r, e).loop == s.loop && |Closed(s, r, e).runs| == |s.runs|
    ensures |s.runs| <= |Closed(s, r, e).runs|
    ensures forall i :: 0 <= i < |s.runs| && s.runs[i].outcome != Running ==> Closed(s, r, e).runs[i] == s.runs[i]
  {
    if r !in s.completed {
      KnownIsLast(s, r);
      hide Inv, Closed;
      if e.outcome != Success {
        ClosedFailed(s, r, e);
      } else if SendFails(s, r, e) {
        ClosedUnsent(s, r, e);
      } else if s.loop.state == LoopRunning && !e.done && s.runs[r].iteration < s.loop.max && e.attempt == Sent {
        ClosedSent(s, r, e);
      } else {
        ClosedOver(s, r, e);
      }
    }
  }

  lemma {:induction false} NoneStale(s: System, cutoff: int, n: nat)
    requires n <= |s.runs| && forall i :: 0 <= i < n ==> s.runs[i].outcome != Running
    ensures StaleBelow(s, cutoff, n) == []
  {
    if n > 0 {
      NoneStale(s, cutoff, n - 1);
    }
  }

  /** At most one run can be stale: the last. */
  lemma StaleIsLast(s: System, cutoff: int)
    requires Inv(s)
    ensures var last := |s.runs| - 1;
            Stale(s, cutoff) == if s.runs[last].outcome == Running && s.runs[last].startedAt < cutoff then [last]
                else []
  {
    NoneStale(s, cutoff, |s.runs| - 1);
  }

  lemma SweptIs(s: System, cutoff: int)
    requires Inv(s)
    ensures Swept(s, cutoff) == if Stale(s, cutoff) == [] then s else Closed(s, |s.runs| - 1, TIMED_OUT)
  {
    hide Inv, Closed, StaleBelow;
    StaleIsLast(s, cutoff);
    var stale := Stale(s, cutoff);
    if stale != [] {
      assert |stale[1..]| == 0;
      assert ClosedAll(Closed(s, stale[0], TIMED_OUT), stale[1..], TIMED_OUT) == Closed(s, stale[0], TIMED_OUT);
    }
  }

  /** The event closes a run, and the next iteration it calls for cannot be sent. */
  predicate EventFails(s: System, ev: Event) {
    match ev
    case Finish(r, e) => Known(s, r) && SendFails(s, r, e)
    case Report(e) => s.runs != [] && s.runs[|s.runs| - 1].outcome == Running && SendFails(s, |s.runs| - 1, e)
    case _ => false
  }

  lemma NextKeeps(s: System, ev: Event)
    requires Inv(s)
    ensures Inv(Next(s, ev))
    ensures s.loop.iteration == |s.runs| ==>
              (Next(s, ev).loop.iteration == |Next(s, ev).runs| <==> !EventFails(s, ev))
  {
    hide Closed, Swept;
    match ev
    case Finish(r, e) => CloseIfKnown(s, r, e);
    case Report(e) => CloseIfKnown(s, |s.runs| - 1, e);
    case Tick(cutoff) =>
      SweptIs(s, cutoff);
      StaleIsLast(s, cutoff);
      CloseIfKnown(s, |s.runs| - 1, TIMED_OUT);
    case Stop =>
    case Restart =>
  }

  lemma CloseIfKnown(s: System, r: nat, e: Ending)
    requires Inv(s)
    ensures Known(s, r) && e.outcome != Running ==>
              && Inv(Closed(s, r, e))
              && (s.loop.iteration == |s.runs| ==>
                    (Closed(s, r, e).loop.iteration == |Closed(s, r, e).runs| <==> !SendFails(s, r, e)))
  {
    if Known(s, r) && e.outcome != Running {
      ClosedKeeps(s, r, e);
    }
  }

  /** What a step does to what is settled: the budget, an ended loop, a closed run. */
  lemma NextSettled(s: System, ev: Event)
    requires Inv(s)
    ensures Next(s, ev).loop.max == s.loop.max
    ensures s.loop.state != LoopRunning ==> Next(s, ev).loop == s.loop && |Next(s, ev).runs| == |s.runs|
    ensures |s.runs| <= |Next(s, ev).runs|
    ensures forall i :: 0 <= i < |s.runs| && s.runs[i].outcome != Running ==> Next(s, ev).runs[i] == s.runs[i]
  {
    hide Closed, Swept;
    match ev
    case Finish(r, e) => SettledIfKnown(s, r, e);
    case Report(e) => SettledIfKnown(s, |s.runs| - 1, e);
    case Tick(cutoff) =>
      SweptIs(s, cutoff);
      StaleIsLast(s, cutoff);
      SettledIfKnown(s, |s.runs| - 1, TIMED_OUT);
    case Stop =>
    case Restart =>
  }

  lemma SettledIfKnown(s: System, r: nat, e: Ending)
    requires Inv(s)
    ensures Known(s, r) && e.outcome != Running ==>
              && Closed(s, r, e).loop.max == s.loop.max
              && (s.loop.state != LoopRunning ==> Closed(s, r, e).loop == s.loop && |Closed(s, r, e).runs| == |s.runs|)
              && |s.runs| <= |Closed(s, r, e).runs|
              && forall i :: 0 <= i < |s.runs| && s.runs[i].outcome != Running ==> Closed(s, r, e).runs[i] == s.runs[i]
  {
    if Known(s, r) && e.outcome != Running {
      ClosedKeeps(s, r, e);
    }
  }

  lemma {:induction false} RunInv(s: System, events: seq<Event>)
    requires Inv(s)
    ensures Inv(After(s, events))
    decreases |events|
  {
    hide Inv, Next;
    if events != [] {
      NextKeeps(s, events[0]);
      RunInv(Next(s, events[0]), events[1..]);
    }
  }

  lemma StartedInv(loopMax: int, now: int)
    ensures Inv(Started(loopMax, now)) && Started(loopMax, now).loop.max == Budget(loopMax)
  {}

  lemma {:induction false} RunMax(s: System, events: seq<Event>)
    requires Inv(s)
    ensures After(s, events).loop.max == s.loop.max
    decreases |events|
  {
    hide Inv, Next;
    if events != [] {
      NextSettled(s, events[0]);
      NextKeeps(s, events[0]);
      RunMax(Next(s, events[0]), events[1..]);
    }
  }

  // ---------------------------------------------------------------- main results

  /**
   * Over every history the runs are numbered 1..k with k within the budget, all but run k succeeded, only run k can be
   * running, and while the loop runs it does; an exhausted loop spent its whole budget.
   */
  lemma BudgetHolds(loopMax: int, now: int, events: seq<Event>)
    ensures var s := After(Started(loopMax, now), events);
            && 1 <= |s.runs| <= Budget(loopMax)
            && (forall i :: 0 <= i < |s.runs| ==> s.runs[i].iteration == i + 1)
            && (forall i :: 0 <= i < |s.runs| - 1 ==> s.runs[i].outcome == Success)
            && (s.loop.state == LoopRunning ==> s.runs[|s.runs| - 1].outcome == Running)
            && (s.loop.state == LoopExhausted ==>
                |s.runs| == Budget(loopMax) && s.runs[|s.runs| - 1].outcome == Success)
            && (s.cached ==> s.loop.state == LoopRunning)
  {
    hide After;
    StartedInv(loopMax, now);
    RunInv(Started(loopMax, now), events);
    RunMax(Started(loopMax, now), events);
  }

  /** A loop that has left running never gets another run, and its row never changes again. */
  lemma {:induction false} EndedForGood(s: System, more: seq<Event>)
    requires Inv(s) && s.loop.state != LoopRunning
    ensures After(s, more).loop == s.loop && |After(s, more).runs| == |s.runs|
    decreases |more|
  {
    hide Inv, Next;
    if more != [] {
      NextSettled(s, more[0]);
      NextKeeps(s, more[0]);
      EndedForGood(Next(s, more[0]), more[1..]);
    }
  }

  /** Each run is closed at most once: its first outcome is its last, whatever is reported, swept or repeated. */
  lemma {:induction false} ClosedOnce(s: System, more: seq<Event>, r: nat)
    requires Inv(s) && r < |s.runs| && s.runs[r].outcome != Running
    ensures r < |After(s, more).runs| && After(s, more).runs[r] == s.runs[r]
    decreases |more|
  {
    hide Inv, Next;
    if more != [] {
      NextSettled(s, more[0]);
      NextKeeps(s, more[0]);
      ClosedOnce(Next(s, more[0]), more[1..], r);
    }
  }

  /** One sweep leaves no run older than the cutoff running. */
  lemma SweepClosesTheStale(s: System, cutoff: int)
    requires Inv(s)
    ensures forall r :: 0 <= r < |Swept(s, cutoff).runs| && Swept(s, cutoff).runs[r].outcome == Running ==>
              Swept(s, cutoff).runs[r].startedAt >= cutoff
  {
    SweptIs(s, cutoff);
    StaleIsLast(s, cutoff);
    if Stale(s, cutoff) != [] {
      ClosedFailed(s, |s.runs| - 1, TIMED_OUT);
    }
  }

  predicate NoSendFailed(s: System, events: seq<Event>)
    decreases |events|
  {
    events == [] || (!EventFails(s, events[0]) && NoSendFailed(Next(s, events[0]), events[1..]))
  }

  /** What one ending of the run in flight makes of a running loop, the failed send included. */
  lemma EndsExactly(s: System, r: nat, e: Ending)
    requires Inv(s) && s.loop.state == LoopRunning && Known(s, r) && r !in s.completed && e.outcome != Running
    ensures var s' := Closed(s, r, e);
            var more := e.outcome == Success && !e.done && |s.runs| < s.loop.max;
            && (s'.loop.state == LoopRunning <==> more && e.attempt == Sent)
            && (s'.loop.state == LoopDone <==> e.outcome == Success && e.done)
            && (s'.loop.state == LoopExhausted <==> e.outcome == Success && !e.done && |s.runs| == s.loop.max)
            && (s'.loop.state == LoopFailed <==> e.outcome != Success || (more && e.attempt != Sent))
            && s'.runs == s.runs[r := s.runs[r].(outcome := e.outcome)]
                + (if more && e.attempt == Sent then [Run(|s.runs| + 1, e.now, Running)]
                   else if more && e.attempt == NotSent then [Run(|s.runs| + 1, e.now, Failed)] else [])
            && (s'.loop.state != LoopRunning ==> !s'.cached)
  {
    KnownIsLast(s, r);
    var s1 := s.(completed := s.completed + {r}, runs := s.runs[r := s.runs[r].(outcome := e.outcome)]);
    assert Closed(s, r, e) == Advanced(s1, r, e);
    if SendFails(s, r, e) {
      NotSentIs(s1, r, e);
    } else if e.outcome == Success {
      assert e.attempt == NotPrepared ==> Iterated(s1, r, e) == s1;
    }
  }

  lemma {:induction false} CountFrom(s: System, events: seq<Event>)
    requires Inv(s) && s.loop.iteration == |s.runs|
    ensures var s' := After(s, events); s'.loop.iteration == |s'.runs| <==> NoSendFailed(s, events)
    decreases |events|
  {
    hide Inv, Next, EventFails;
    if events != [] {
      var s' := Next(s, events[0]);
      NextKeeps(s, events[0]);
      if s'.loop.iteration == |s'.runs| {
        CountFrom(s', events[1..]);
      } else {
        BehindIsEnded(s');
        EndedForGood(s', events[1..]);
      }
    }
  }

  lemma BehindIsEnded(s: System)
    requires Inv(s) && s.loop.iteration != |s.runs|
    ensures s.loop.state != LoopRunning
  {}

  /** The loop row counts the runs exactly when no next iteration ever failed to be sent. */
  lemma IterationCountsRuns(loopMax: int, now: int, events: seq<Event>)
    ensures var s := After(Started(loopMax, now), events);
            s.loop.iteration == |s.runs| <==> NoSendFailed(Started(loopMax, now), events)
  {
    hide Inv, After, NoSendFailed;
    StartedInv(loopMax, now);
    CountFrom(Started(loopMax, now), events);
  }

  /** When the send of iteration 2 fails, the row the failed run wrote is overwritten with the earlier number. */
  lemma FailedSendWritesBack()
    ensures var s := After(Started(3, 0), [Finish(0, Ending(Success, false, NotSent, 1))]);
            s.loop == Loop(LoopFailed, 1, 3) && s.runs == [Run(1, 0, Success), Run(2, 1, Failed)]
  {
    var s, e := Started(3, 0), Ending(Success, false, NotSent, 1);
    var s1 := s.(completed := {0}, runs := [Run(1, 0, Success)]);
    NotSentIs(s1, 0, e);
    assert s.runs[0 := Run(1, 0, Success)] == [Run(1, 0, Success)];
    assert Closed(s, 0, e) == Advanced(s1, 0, e) == Ended(Iterated(s1, 0, e), s1.loop, 1, LoopFailed) by {
      hide Iterated;
    }
    hide Closed;
    assert |[Finish(0, e)][1..]| == 0;
    assert After(s, [Finish(0, e)]) == Next(s, Finish(0, e));
  }

  /** Once its loop is over, a run in flight is closed with its outcome and nothing else happens; one that this process
      has closed is not closed again. */
  lemma EndsQuietly(s: System, r: nat, e: Ending)
    requires Inv(s) && Known(s, r) && e.outcome != Running
    ensures r in s.completed ==> Closed(s, r, e) == s
    ensures r !in s.completed && s.loop.state != LoopRunning ==>
              Closed(s, r, e) ==
              s.(completed := s.completed + {r}, runs := s.runs[r := s.runs[r].(outcome := e.outcome)])
  {}

  /** A stop takes a running loop to stopped and its variables away, and touches no run; the loop stays stopped whatever
      follows, and never gets another run. Any other loop is left alone. */
  lemma StopIsFinal(s: System, more: seq<Event>)
    requires Inv(s)
    ensures s.loop.state != LoopRunning ==> Next(s, Stop) == s
    ensures s.loop.state == LoopRunning ==>
              && Next(s, Stop) == s.(loop := s.loop.(state := LoopStopped), cached := false)
              && After(Next(s, Stop), more).loop == s.loop.(state := LoopStopped)
              && |After(Next(s, Stop), more).runs| == |s.runs|
  {
    hide Inv, After;
    if s.loop.state == LoopRunning {
      NextKeeps(s, Stop);
      EndedForGood(Next(s, Stop), more);
    }
  }

  /** A sweep times the run in flight out exactly when it started before the cutoff, which fails a running loop; nothing
      else is touched. */
  lemma SweepTimesOut(s: System, cutoff: int)
    requires Inv(s)
    ensures var s', last := Swept(s, cutoff), |s.runs| - 1;
            if s.runs[last].outcome == Running && s.runs[last].startedAt < cutoff
            then && s'.runs == s.runs[last := s.runs[last].(outcome := Timeout)]
                 && s'.loop.state == (if s.loop.state == LoopRunning then LoopFailed else s.loop.state)
            else s' == s
  {
    SweptIs(s, cutoff);
    StaleIsLast(s, cutoff);
  }

  /** A report closes the newest run when that is running, with the reported outcome, and is dropped otherwise. */
  lemma ReportCloses(s: System, e: Ending)
    requires Inv(s) && e.outcome != Running
    ensures var s', last := Reported(s, e), |s.runs| - 1;
            if s.runs[last].outcome == Running then |s.runs| <= |s'.runs| && s'.runs[last].outcome == e.outcome
            else s' == s
  {
    var last := |s.runs| - 1;
    if s.runs[last].outcome == Running {
      if s.loop.state == LoopRunning {
        EndsExactly(s, last, e);
      } else {
        EndsQuietly(s, last, e);
      }
    }
  }
}
