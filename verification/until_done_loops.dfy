/** Until-done loops: closing a run, and what that does to the loop the run belongs to. */
module UntilDoneLoops {
  datatype LoopState = LoopRunning | LoopDone | LoopExhausted | LoopFailed | LoopStopped

  datatype Loop = Loop(state: LoopState, iteration: nat, max: nat)

  datatype Outcome = Running | Success | Failed | Timeout

  /** A run of the loop; run i of the sequence is the i-th row created. */
  datatype Run = Run(iteration: nat, startedAt: int, outcome: Outcome)

  // Starting the next iteration: its prompt cannot be made, its prompt cannot be sent, or it is under way.
  datatype Attempt = NotPrepared | NotSent | Sent

  /** How a run ended: the outcome, whether its report says done, and what becomes of a next iteration at time now. */
  datatype Ending = Ending(outcome: Outcome, done: bool, attempt: Attempt, now: int)

  /**
   * The rows of one loop and what the process remembers about them: the runs it has closed, and whether the loop's
   * template variables are cached.
   */
  datatype System = System(loop: Loop, runs: seq<Run>, completed: set<nat>, cached: bool)

  const DEFAULT_LOOP_MAX: nat := 5

  function Budget(loopMax: int): (n: nat)
    ensures n >= 1 && (loopMax >= 1 ==> n == loopMax) && (loopMax < 1 ==> n == 5)
  {
    if loopMax < 1 then DEFAULT_LOOP_MAX else loopMax
  }

  function Started(loopMax: int, now: int): System {
    System(Loop(LoopRunning, 1, Budget(loopMax)), [Run(1, now, Running)], {}, true)
  }

  /** The loop's final write: the iteration is the run's, or that of the loop row read earlier if that is larger. */
  function Ended(s: System, read: Loop, iteration: nat, state: LoopState): System {
    s.(loop := s.loop.(state := state, iteration := if iteration < read.iteration then read.iteration else iteration),
       cached := false)
  }

  function Closed(s: System, r: nat, e: Ending): System
    decreases if e.outcome == Success then 1 else 0, 3
  {
    if r >= |s.runs| || r in s.completed then s
    else Advanced(s.(completed := s.completed + {r}, runs := s.runs[r := s.runs[r].(outcome := e.outcome)]), r, e)
  }

  function Advanced(s: System, r: nat, e: Ending): System
    requires r < |s.runs|
    decreases if e.outcome == Success then 1 else 0, 2
  {
    var iteration := s.runs[r].iteration;
    if s.loop.state != LoopRunning then s
    else if e.outcome != Success then Ended(s, s.loop, iteration, LoopFailed)
    else if e.done then Ended(s, s.loop, iteration, LoopDone)
    else if iteration >= s.loop.max then Ended(s, s.loop, iteration, LoopExhausted)
    else
      var s' := Iterated(s, r, e);
      if e.attempt == Sent then s' else Ended(s', s.loop, iteration, LoopFailed)
  }

  /** The next run's row and the loop's new iteration are written before the prompt is sent. */
  function Iterated(s: System, r: nat, e: Ending): System
    requires r < |s.runs| && e.outcome == Success
    decreases 1, 1
  {
    if e.attempt == NotPrepared then s
    else
      var next := s.runs[r].iteration + 1;
      var s' := s.(runs := s.runs + [Run(next, e.now, Running)],
          loop := s.loop.(state := LoopRunning, iteration := next));
      if e.attempt == Sent then s' else Closed(s', |s.runs|, Ending(Failed, false, NotPrepared, e.now))
  }

  function Stopped(s: System): System {
    if s.loop.state != LoopRunning then s else s.(loop := s.loop.(state := LoopStopped), cached := false)
  }

  /** The run a session's live events belong to: the newest, while it is running. */
  function Live(s: System): set<nat> {
    if s.runs != [] && s.runs[|s.runs| - 1].outcome == Running then {|s.runs| - 1} else {}
  }

  /** A turn's result, or the session's failure, reaching the engine. */
  function Reported(s: System, e: Ending): System {
    if Live(s) == {} then s else Closed(s, |s.runs| - 1, e)
  }

  function Stale(s: System, cutoff: int): seq<nat> {
    StaleBelow(s, cutoff, |s.runs|)
  }

  function StaleBelow(s: System, cutoff: int, n: nat): seq<nat>
    requires n <= |s.runs|
  {
    if n == 0 then []
    else StaleBelow(s, cutoff, n - 1)
         + (if s.runs[n - 1].outcome == Running && s.runs[n - 1].startedAt < cutoff then [n - 1] else [])
  }

  function ClosedAll(s: System, rs: seq<nat>, e: Ending): System
    decreases |rs|
  {
    if rs == [] then s else ClosedAll(Closed(s, rs[0], e), rs[1..], e)
  }

  const TIMED_OUT := Ending(Timeout, false, NotPrepared, 0)

  function Swept(s: System, cutoff: int): System { ClosedAll(s, Stale(s, cutoff), TIMED_OUT) }

  // ---------------------------------------------------------------- the engine

  class Engine {
    var loop: Loop
    var runs: seq<Run>
    var completed: set<nat>
    var cached: bool

    function Value(): System
      reads this
    {
      System(loop, runs, completed, cached)
    }

    constructor StartLoop(loopMax: int, now: int)
      ensures Value() == Started(loopMax, now)
      ensures loop == Loop(LoopRunning, 1, if loopMax < 1 then 5 else loopMax) && cached
      ensures runs == [Run(1, now, Running)] && completed == {}
    {
      var max := loopMax;
      if max < 1 {
        max := DEFAULT_LOOP_MAX;
      }
      loop := Loop(LoopRunning, 1, max);
      cached := true;
      completed := {};
      runs := [Run(1, now, Running)];
    }

    /** Whether this call closed the run. */
    method Finish(r: nat, e: Ending) returns (closed: bool)
      requires r < |runs|
      modifies this
      ensures Value() == Closed(old(Value()), r, e) && (closed <==> r !in old(completed))
      decreases if e.outcome == Success then 1 else 0, 3
    {
      if r in completed {
        return false;
      }
      completed := completed + {r};
      runs := runs[r := runs[r].(outcome := e.outcome)];
      Advance(r, e);
      closed := true;
    }

    method Advance(r: nat, e: Ending)
      requires r < |runs|
      modifies this
      ensures Value() == Advanced(old(Value()), r, e)
      decreases if e.outcome == Success then 1 else 0, 2
    {
      var read := loop;
      if read.state != LoopRunning {
        return;
      }
      if e.outcome != Success {
        EndLoop(read, runs[r].iteration, LoopFailed);
      } else if e.done {
        EndLoop(read, runs[r].iteration, LoopDone);
      } else if runs[r].iteration >= read.max {
        EndLoop(read, runs[r].iteration, LoopExhausted);
      } else {
        var iteration := runs[r].iteration;
        var ok := NextIteration(r, e);
        if !ok {
          EndLoop(read, iteration, LoopFailed);
        }
      }
    }

    method EndLoop(read: Loop, iteration: nat, state: LoopState)
      modifies this
      ensures Value() == Ended(old(Value()), read, iteration, state)
      ensures loop.state == state && loop.max == old(loop).max && !cached
      ensures loop.iteration == if iteration < read.iteration then read.iteration else iteration
    {
      var reached := iteration;
      if reached < read.iteration {
        reached := read.iteration;
      }
      loop := loop.(state := state, iteration := reached);
      cached := false;
    }

    method NextIteration(r: nat, e: Ending) returns (ok: bool)
      requires r < |runs| && e.outcome == Success
      modifies this
      ensures Value() == Iterated(old(Value()), r, e) && (ok <==> e.attempt == Sent)
      decreases 1, 1
    {
      if e.attempt == NotPrepared {
        return false;
      }
      var next := runs[r].iteration + 1;
      var row := |runs|;
      runs := runs + [Run(next, e.now, Running)];
      loop := loop.(state := LoopRunning, iteration := next);
      if e.attempt == NotSent {
        var _ := Finish(row, Ending(Failed, false, NotPrepared, e.now));
        return false;
      }
      ok := true;
    }

    /** Refused, and nothing changes, unless the loop is running. */
    method Stop() returns (ok: bool)
      modifies this
      ensures Value() == Stopped(old(Value())) && (ok <==> old(loop).state == LoopRunning)
    {
      if loop.state != LoopRunning {
        return false;
      }
      loop := loop.(state := LoopStopped);
      cached := false;
      ok := true;
    }

    method HandleReport(e: Ending) returns (closed: bool)
      modifies this
      ensures Value() == Reported(old(Value()), e)
    {
      if runs == [] || runs[|runs| - 1].outcome != Running {
        return false;
      }
      closed := Finish(|runs| - 1, e);
    }

    /** The timeout sweep: the runs found stale at its start, each closed as timed out. */
    method Tick(cutoff: int)
      modifies this
      ensures Value() == Swept(old(Value()), cutoff)
    {
      var stale: seq<nat> := [];
      var i := 0;
      while i < |runs|
        invariant i <= |runs| && stale == StaleBelow(Value(), cutoff, i) && Value() == old(Value())
        invariant forall k :: 0 <= k < |stale| ==> stale[k] < |runs|
      {
        if runs[i].outcome == Running && runs[i].startedAt < cutoff {
          stale := stale + [i];
        }
        i := i + 1;
      }
      var k := 0;
      assert stale[0..] == stale;
      while k < |stale|
        invariant k <= |stale| && forall j :: 0 <= j < |stale| ==> stale[j] < |runs|
        invariant ClosedAll(Value(), stale[k..], TIMED_OUT) == Swept(old(Value()), cutoff)
      {
        assert stale[k..][0] == stale[k] && stale[k..][1..] == stale[k + 1..];
        ClosedKeepsRows(Value(), stale[k], TIMED_OUT);
        var _ := Finish(stale[k], TIMED_OUT);
        k := k + 1;
      }
    }

    /** The process restarts: it forgets which runs it closed, and the variables. */
    method Restart()
      modifies this
      ensures Value() == old(Value()).(completed := {}, cached := false)
    {
      completed := {};
      cached := false;
    }
  }

  lemma ClosedKeepsRows(s: System, r: nat, e: Ending)
    requires e.outcome != Success
    ensures |Closed(s, r, e).runs| == |s.runs|
  {}
}
