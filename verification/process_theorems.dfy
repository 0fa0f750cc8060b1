/** What holds after every interleaving of starts, pumps, closers and exits. */
module ProcessTheorems {
  import opened ProcessTable
  import opened ProcessProtocol

  /** The system after any sequence of steps from an empty table. */
  function After(maxOpen: int, actions: seq<Action>): System {
    Run(Init(maxOpen), actions)
  }

  lemma AfterInv(maxOpen: int, actions: seq<Action>)
    ensures Inv(After(maxOpen, actions)) && After(maxOpen, actions).table.capacity == Capacity(maxOpen)
  {
    hide Inv, Run;
    InitInv(maxOpen);
    RunInv(Init(maxOpen), actions);
  }

  /** Slots taken are tracked processes, starters with a slot but no tracked process, and pumps yet to give theirs
      back. */
  lemma SlotsBalance(maxOpen: int, actions: seq<Action>)
    ensures var s := After(maxOpen, actions);
            && s.table.tokens == |s.table.procs| + |Slots(s)| + |Draining(s)|
            && |s.table.procs| <= s.table.tokens <= Capacity(maxOpen)
  {
    hide After;
    AfterInv(maxOpen, actions);
    var s := After(maxOpen, actions);
    assert |s.table.procs| == |s.table.procs.Keys|;
  }

  predicate IsRelease(s: System, a: Action) {
    (a.GiveBack? && In(s, a.t, Returning)) || (a.ReleaseSlot? && a.p in s.pumps && s.pumps[a.p].phase == Removed)
  }

  /** A release always finds the token it gives back, so the silent default branch never hides an imbalance. */
  lemma ReleaseFindsAToken(maxOpen: int, actions: seq<Action>, a: Action)
    requires IsRelease(After(maxOpen, actions), a)
    ensures After(maxOpen, actions).table.tokens > 0
    ensures After(maxOpen, actions + [a]).table.tokens == After(maxOpen, actions).table.tokens - 1
  {
    var s := After(maxOpen, actions);
    SomeoneHolds(maxOpen, actions, a);
    RunAppend(Init(maxOpen), actions, [a]);
    assert Run(s, [a]) == Next(s, a) by {
      assert |[a][1..]| == 0;
    }
  }

  lemma SomeoneHolds(maxOpen: int, actions: seq<Action>, a: Action)
    requires IsRelease(After(maxOpen, actions), a)
    ensures After(maxOpen, actions).table.tokens > 0
  {
    hide After, Owned, Handed, Accounted, Claims, MarksFit;
    var s := After(maxOpen, actions);
    AfterInv(maxOpen, actions);
    if a.GiveBack? {
      assert a.t in Slots(s);
    } else {
      assert a.p in Draining(s);
    }
  }

  lemma {:induction false} RunAppend(s: System, a: seq<Action>, b: seq<Action>)
    ensures Run(s, a + b) == Run(Run(s, a), b)
    decreases |a|
  {
    hide Next;
    if a == [] {
      assert a + b == b;
    } else {
      assert (a + b)[0] == a[0] && (a + b)[1..] == a[1..] + b;
      RunAppend(Next(s, a[0]), a[1..], b);
    }
  }

  /** Only a process's own pump stops tracking it, and only once it has exited. */
  lemma OnlyItsPumpRemoves(s: System, a: Action, id: SessionId)
    requires Inv(s) && id in s.table.procs
    ensures var p := s.table.procs[id];
            if a == Remove(p) && p in s.pumps && s.pumps[p].phase == ExitRead
            then id !in Next(s, a).table.procs && p in s.exited
            else id in Next(s, a).table.procs && Next(s, a).table.procs[id] == p
  {
    hide Inv, StarterStep, PumpStep;
    if a.ReadExit? || a.Remove? || a.ReleaseSlot? {
      if a.p in s.pumps {
        PumpsKeep(s, a, a.p, id);
      }
    } else if !Outside(a) && a.t in s.starters {
      StartersKeep(s, a, a.t, id);
    }
  }

  lemma PumpsKeep(s: System, a: Action, p: Proc, id: SessionId)
    requires Inv(s) && p in s.pumps && id in s.table.procs &&
        (a == ReadExit(p) || a == Remove(p) || a == ReleaseSlot(p))
    ensures var s' := PumpStep(s, a, p);
            if a == Remove(s.table.procs[id]) && s.pumps[p].phase == ExitRead
            then id !in s'.table.procs && p in s.exited
            else id in s'.table.procs && s'.table.procs[id] == s.table.procs[id]
  {
    hide Handed, Claims, MarksFit, Balanced;
  }

  lemma StartersKeep(s: System, a: Action, t: Thread, id: SessionId)
    requires t in s.starters && id in s.table.procs
    ensures id in StarterStep(s, a, t).table.procs && StarterStep(s, a, t).table.procs[id] == s.table.procs[id]
  {}

  /** From registration to removal a session names one process, whatever else happens. */
  lemma {:induction false} NamesOneProcess(s: System, more: seq<Action>, id: SessionId)
    requires Inv(s) && id in s.table.procs && Remove(s.table.procs[id]) !in more
    ensures id in Run(s, more).table.procs && Run(s, more).table.procs[id] == s.table.procs[id]
    decreases |more|
  {
    hide Inv, Next;
    if more != [] {
      assert more[0] in more;
      OnlyItsPumpRemoves(s, more[0], id);
      NextKeeps(s, more[0]);
      NamesOneProcess(Next(s, more[0]), more[1..], id);
    }
  }

  /**
   * A launched process that has not exited is tracked under one session with its one pump, or is in the hands of the
   * start that launched it, or was a refused duplicate and has been told to close. No two sessions share a process.
   */
  lemma NoProcessIsForgotten(maxOpen: int, actions: seq<Action>, p: Proc)
    ensures var s := After(maxOpen, actions);
            && (p in s.launchedBy && p !in s.exited ==>
                  || (p in s.refused && p in s.closed)
                  || (p in s.pumps && s.pumps[p].id in s.table.procs && s.table.procs[s.pumps[p].id] == p)
                  || Held(s, p))
            && (forall i, j :: i in s.table.procs && j in s.table.procs && s.table.procs[i] == s.table.procs[j] ==>
                i == j)
  {
    hide After, Balanced, Handed, Claims, MarksFit;
    AfterInv(maxOpen, actions);
  }

  /** A closing mark is about the process that is tracked now, never about a predecessor. */
  lemma ClosingIsAboutTheTracked(maxOpen: int, actions: seq<Action>)
    ensures var s := After(maxOpen, actions);
            forall id :: id in s.table.closing ==>
                id in s.table.procs && id in s.marks && s.marks[id] == s.table.procs[id]
  {
    hide After, Balanced, Handed, Claims, Owned, Accounted;
    AfterInv(maxOpen, actions);
  }

  predicate IsMark(a: Action, id: SessionId) { a == Mark(id) || a == MarkAll }

  lemma ClosingStep(s: System, a: Action, id: SessionId)
    requires Inv(s) && id in s.table.procs && a != Remove(s.table.procs[id])
    ensures id in Next(s, a).table.closing <==> id in s.table.closing || IsMark(a, id)
  {
    hide Inv, StarterStep, PumpStep, SendStep;
    if a.ReadExit? || a.Remove? || a.ReleaseSlot? {
      if a.p in s.pumps {
        PumpLeavesMark(s, a, a.p, id);
      }
    } else if a.Send? {
      SendLeavesMarks(s, a.t, a.id);
    } else if !Outside(a) && a.t in s.starters {
      StarterLeavesMark(s, a, a.t, id);
    }
  }

  lemma SendLeavesMarks(s: System, t: Thread, id: SessionId)
    ensures SendStep(s, t, id).table.closing == s.table.closing
  {}

  lemma StarterLeavesMark(s: System, a: Action, t: Thread, id: SessionId)
    requires t in s.starters && id in s.table.procs
    ensures id in StarterStep(s, a, t).table.closing <==> id in s.table.closing
  {}

  lemma PumpLeavesMark(s: System, a: Action, p: Proc, id: SessionId)
    requires Inv(s) && p in s.pumps && id in s.table.procs && a != Remove(s.table.procs[id])
    requires a == ReadExit(p) || a == Remove(p) || a == ReleaseSlot(p)
    ensures id in PumpStep(s, a, p).table.closing <==> id in s.table.closing
  {
    hide Balanced, Handed, Accounted, Claims, MarksFit;
  }

  lemma {:induction false} MarkedSince(s: System, more: seq<Action>, id: SessionId)
    requires Inv(s) && id in s.table.procs && Remove(s.table.procs[id]) !in more
    ensures id in Run(s, more).table.closing <==> id in s.table.closing || exists a :: a in more && IsMark(a, id)
    decreases |more|
  {
    hide Inv, Next;
    if more != [] {
      assert more[0] in more;
      ClosingStep(s, more[0], id);
      OnlyItsPumpRemoves(s, more[0], id);
      NextKeeps(s, more[0]);
      MarkedSince(Next(s, more[0]), more[1..], id);
      assert forall a :: a in more <==> a == more[0] || a in more[1..];
    }
  }

  /**
   * From its registration until its own pump removes it, a process is marked as closing exactly when somebody marked
   * its session, or all of them, in between, whatever else happens. So its exit is put down as closed if that was asked
   * for or the exit was clean, and as failed otherwise.
   */
  lemma ClosingWasAsked(maxOpen: int, before: seq<Action>, t: Thread, p: Proc, since: seq<Action>)
    requires var s0 := After(maxOpen, before);
             In(s0, t, Launched(p)) && s0.starters[t].id !in s0.table.procs && Remove(p) !in since
    ensures var id := After(maxOpen, before).starters[t].id;
            var s := After(maxOpen, before + [Register(t)] + since);
            && id in s.table.procs && s.table.procs[id] == p
            && (id in s.table.closing <==> Mark(id) in since || MarkAll in since)
  {
    hide Inv, Next;
    var s0 := After(maxOpen, before);
    var id, s1 := s0.starters[t].id, Next(s0, Register(t));
    RunAppend(Init(maxOpen), before + [Register(t)], since);
    RunAppend(Init(maxOpen), before, [Register(t)]);
    assert Run(s0, [Register(t)]) == s1 by {
      assert [Register(t)][1..] == [];
    }
    AfterInv(maxOpen, before);
    NextKeeps(s0, Register(t));
    FreshlyTracked(s0, t, p);
    NamesOneProcess(s1, since, id);
    MarkedSince(s1, since, id);
  }

  lemma FreshlyTracked(s: System, t: Thread, p: Proc)
    requires Inv(s) && In(s, t, Launched(p)) && s.starters[t].id !in s.table.procs
    ensures var s', id := Next(s, Register(t)), s.starters[t].id;
            id in s'.table.procs && s'.table.procs[id] == p && id !in s'.table.closing
  {}

  /** At most one Send is starting a process for a session, and while one is, another changes nothing and waits for it
      or delivers to its process. */
  lemma OneStartPerSession(maxOpen: int, actions: seq<Action>, t: Thread, u: Thread)
    ensures var s := After(maxOpen, actions);
            && (t in s.starters && u in s.starters && s.starters[t].claimed && s.starters[u].claimed ==>
                  s.starters[t].id == s.starters[u].id ==> t == u)
            && (t in s.starters && s.starters[t].claimed && u !in s.starters ==>
                  var id := s.starters[t].id;
                  var phase := if id in s.table.procs then Told(Ready(s.table.procs[id])) else Awaiting;
                  Next(s, Send(u, id)) == s.(starters := s.starters[u := Starter(id, false, phase)]))
  {
    hide After, Balanced, Handed, MarksFit, Owned, Accounted;
    AfterInv(maxOpen, actions);
  }

  // ---------------------------------------------------------------- waiting for another Send's start

  predicate Watching(s: System, t: Thread) {
    t in s.starters && Watches(s.starters[t].phase)
  }

  predicate By(a: Action, t: Thread) {
    !a.Mark? && !a.MarkAll? && !a.CallClose? && !a.Exit? && !a.ReadExit? && !a.Remove? && !a.ReleaseSlot? && a.t == t
  }

  function Others(actions: seq<Action>, t: Thread): seq<Action> {
    if actions == [] then []
    else (if By(actions[0], t) then [] else [actions[0]]) + Others(actions[1..], t)
  }

  function Without(s: System, t: Thread): System { s.(starters := s.starters - {t}) }

  lemma PumpGoesOn(s: System, a: Action, p: Proc, t: Thread)
    requires a == ReadExit(p) || a == Remove(p) || a == ReleaseSlot(p)
    ensures Next(Without(s, t), a) == Without(Next(s, a), t)
    ensures Next(s, a).starters == s.starters && Next(s, a).launchedBy == s.launchedBy
  {
    hide Unregistered, Released;
  }

  lemma SendGoesOn(s: System, u: Thread, id: SessionId, t: Thread)
    requires t in s.starters && u != t
    ensures t in SendStep(s, u, id).starters && SendStep(s, u, id).starters[t] == s.starters[t]
    ensures SendStep(Without(s, t), u, id) == Without(SendStep(s, u, id), t)
    ensures SendStep(s, u, id).launchedBy == s.launchedBy
  {}

  lemma MoveAside(s: System, u: Thread, phase: StartPhase, t: Thread)
    requires u in s.starters && u != t
    ensures To(Without(s, t), u, phase) == Without(To(s, u, phase), t)
    ensures To(s, u, phase) == s.(starters := To(s, u, phase).starters)
    ensures t in s.starters ==> t in To(s, u, phase).starters && To(s, u, phase).starters[t] == s.starters[t]
  {
    assert (s.starters - {t})[u := s.starters[u].(phase := phase)] ==
           s.starters[u := s.starters[u].(phase := phase)] - {t};
  }

  lemma LeaveAside(s: System, u: Thread, t: Thread)
    requires t in s.starters && u in s.starters && u != t
    ensures LeaveStep(Without(s, t), u) == Without(LeaveStep(s, u), t)
    ensures t in LeaveStep(s, u).starters && LeaveStep(s, u).starters[t] == s.starters[t]
    ensures LeaveStep(s, u).launchedBy == s.launchedBy
  {
    assert s.starters - {t} - {u} == s.starters - {u} - {t};
  }

  lemma RegisterAside(s: System, u: Thread, p: Proc, t: Thread)
    requires t in s.starters && u in s.starters && u != t
    ensures RegisterStep(Without(s, t), u, p) == Without(RegisterStep(s, u, p), t)
    ensures t in RegisterStep(s, u, p).starters && RegisterStep(s, u, p).starters[t] == s.starters[t]
    ensures RegisterStep(s, u, p).launchedBy == s.launchedBy
  {
    hide To;
    MoveAside(s, u, Refused(p), t);
    MoveAside(s, u, Tracked(p), t);
  }

  lemma QuietAside(s: System, a: Action, u: Thread, t: Thread)
    requires t in s.starters && u in s.starters && u != t
    requires !a.Launch? && !a.Register? && !a.LaunchPump? && !a.Leave?
    ensures StarterStep(Without(s, t), a, u) == Without(StarterStep(s, a, u), t)
  {
    hide To, PollOf;
    match a
    case Acquire(_) => MoveAside(s, u, Holding, t);
    case GiveUp(_) =>
      MoveAside(s, u, Leaving, t);
      MoveAside(s, u, Told(StillStarting), t);
    case Poll(_) => MoveAside(s, u, Told(PollOf(s.table, s.starters[u].id)), t);
    case LaunchFails(_) => MoveAside(s, u, Returning, t);
    case CloseRefused(_) => MoveAside(s, u, Returning, t);
    case GiveBack(_) => MoveAside(s, u, Leaving, t);
    case _ =>
  }

  lemma StarterAside(s: System, a: Action, u: Thread, t: Thread)
    requires t in s.starters && u in s.starters && u != t
    ensures StarterStep(Without(s, t), a, u) == Without(StarterStep(s, a, u), t)
  {
    hide To, LeaveStep, RegisterStep, PollOf;
    var phase := s.starters[u].phase;
    if a.Register? {
      if phase.Launched? {
        RegisterAside(s, u, phase.proc, t);
      }
    } else if a.Leave? {
      LeaveAside(s, u, t);
    } else if a.Launch? {
      MoveAside(s, u, Launched(a.p), t);
    } else if a.LaunchPump? {
      MoveAside(s, u, Leaving, t);
    } else {
      QuietAside(s, a, u, t);
    }
  }

  /** A starter's step moves that starter alone, and only a leaving one goes. */
  lemma StarterMoves(s: System, a: Action, u: Thread)
    requires u in s.starters
    ensures var s' := StarterStep(s, a, u);
            if a.Leave? && Done(s, u) then s'.starters == s.starters - {u}
            else u in s'.starters && s'.starters == s.starters[u := s.starters[u].(phase := s'.starters[u].phase)]
  {
    hide PollOf, Registered, Acquired, Released, Unclaimed, RegisterStep;
    if a.Register? && s.starters[u].phase.Launched? {
      RegisterMoves(s, u, s.starters[u].phase.proc);
    }
  }

  lemma RegisterMoves(s: System, u: Thread, p: Proc)
    requires u in s.starters
    ensures var s' := RegisterStep(s, u, p);
            u in s'.starters && s'.starters == s.starters[u := s.starters[u].(phase := s'.starters[u].phase)]
  {}

  lemma StarterLaunches(s: System, a: Action, u: Thread)
    requires u in s.starters
    ensures StarterStep(s, a, u).launchedBy ==
            if a.Launch? && s.starters[u].phase == Holding && a.p !in s.launchedBy then s.launchedBy[a.p := u]
            else s.launchedBy
  {
    hide PollOf, Registered, Acquired, Released, Unclaimed;
  }

  lemma StarterGoesOn(s: System, a: Action, u: Thread, t: Thread)
    requires t in s.starters && u in s.starters && u != t
    ensures t in StarterStep(s, a, u).starters && StarterStep(s, a, u).starters[t] == s.starters[t]
    ensures StarterStep(Without(s, t), a, u) == Without(StarterStep(s, a, u), t)
    ensures forall p :: p in StarterStep(s, a, u).launchedBy && StarterStep(s, a, u).launchedBy[p] == t ==>
                          p in s.launchedBy && s.launchedBy[p] == t
  {
    hide StarterStep;
    StarterAside(s, a, u, t);
    StarterMoves(s, a, u);
    StarterLaunches(s, a, u);
  }

  lemma OpenGoesOn(s: System, u: Thread, id: SessionId, t: Thread)
    requires t in s.starters && u != t
    ensures var s' := Next(s, Action.Open(u, id));
            && t in s'.starters && s'.starters[t] == s.starters[t] && s'.launchedBy == s.launchedBy
            && Next(Without(s, t), Action.Open(u, id)) == Without(s', t)
  {
    assert s.starters[u := Starter(id, false, Queued)] - {t} == (s.starters - {t})[u := Starter(id, false, Queued)];
  }

  lemma OutsideGoesOn(s: System, a: Action, t: Thread)
    requires t in s.starters && Outside(a) && !By(a, t)
    ensures t in Next(s, a).starters && Next(s, a).starters[t] == s.starters[t]
    ensures Next(Without(s, t), a) == Without(Next(s, a), t) && Next(s, a).launchedBy == s.launchedBy
  {
    hide SendStep;
    if a.Send? {
      SendGoesOn(s, a.t, a.id, t);
    } else if a.Open? {
      OpenGoesOn(s, a.t, a.id, t);
    }
  }

  lemma OthersGoOn(s: System, a: Action, t: Thread)
    requires t in s.starters && !By(a, t)
    ensures t in Next(s, a).starters && Next(s, a).starters[t] == s.starters[t]
    ensures Next(Without(s, t), a) == Without(Next(s, a), t)
    ensures forall p :: p in Next(s, a).launchedBy && Next(s, a).launchedBy[p] == t ==>
                          p in s.launchedBy && s.launchedBy[p] == t
  {
    hide StarterStep, PumpStep, SendStep;
    if a.ReadExit? || a.Remove? || a.ReleaseSlot? {
      PumpGoesOn(s, a, a.p, t);
    } else if Outside(a) {
      OutsideGoesOn(s, a, t);
    } else if a.t in s.starters {
      StarterGoesOn(s, a, a.t, t);
    }
  }

  lemma WatcherOnlyWatches(s: System, a: Action, t: Thread)
    requires Watching(s, t) && By(a, t) && a != Leave(t)
    ensures Watching(Next(s, a), t) && Without(Next(s, a), t) == Without(s, t)
    ensures Next(s, a).launchedBy == s.launchedBy
    ensures Next(s, a).starters[t].id == s.starters[t].id && Next(s, a).starters[t].claimed == s.starters[t].claimed
  {}

  /** Until it leaves, a Send that waits for another's start only watches: the system is the one in which it takes no
      step at all, so it never claims, never takes a slot and never launches a process. */
  lemma {:induction false} WaiterLeavesNoTrace(s: System, more: seq<Action>, t: Thread)
    requires Watching(s, t) && Leave(t) !in more
    ensures var s' := Run(s, more);
            && Watching(s', t) && s'.starters[t] == s.starters[t].(phase := s'.starters[t].phase)
            && Without(s', t) == Run(Without(s, t), Others(more, t))
            && (forall p :: p in s'.launchedBy && s'.launchedBy[p] == t ==>
                  p in s.launchedBy && s.launchedBy[p] == t)
    decreases |more|
  {
    hide Next, Watches;
    if more != [] {
      var a, s1 := more[0], Next(s, more[0]);
      assert a in more;
      if By(a, t) {
        WatcherOnlyWatches(s, a, t);
        assert [] + Others(more[1..], t) == Others(more[1..], t);
      } else {
        OthersGoOn(s, a, t);
        assert ([a] + Others(more[1..], t))[1..] == Others(more[1..], t);
      }
      WaiterLeavesNoTrace(s1, more[1..], t);
    }
  }

  predicate Starting(s: System, u: Thread, id: SessionId) {
    u in s.starters && s.starters[u].claimed && s.starters[u].id == id
  }

  /** A waiter is told ready exactly when a process is tracked for its session, and then that process, whose one pump is
      there; it is told that the start failed exactly when none is tracked and nobody holds the claim; and otherwise it
      goes on waiting. */
  lemma PollTells(maxOpen: int, actions: seq<Action>, t: Thread)
    requires In(After(maxOpen, actions), t, Awaiting)
    ensures var s := After(maxOpen, actions);
            var id := s.starters[t].id;
            var phase := Next(s, Poll(t)).starters[t].phase;
            && (id in s.table.procs ==>
                  && phase == Told(Ready(s.table.procs[id]))
                  && forall p :: p in s.pumps && s.pumps[p].id == id && s.pumps[p].phase != Removed <==>
                                 p == s.table.procs[id])
            && (id !in s.table.procs ==>
                  phase == if exists u :: Starting(s, u, id) then Awaiting else Told(StartFailed))
            && In(Next(s, GiveUp(t)), t, Told(StillStarting))
  {
    hide After, Balanced, Handed, MarksFit, Accounted;
    AfterInv(maxOpen, actions);
    var s := After(maxOpen, actions);
    var id := s.starters[t].id;
    assert id in s.claims ==> Starting(s, s.claims[id], id);
  }

  lemma ClaimGoesOn(s: System, a: Action, u: Thread, id: SessionId)
    requires Starting(s, u, id) && a != Leave(u)
    ensures Starting(Next(s, a), u, id)
  {
    hide StarterStep, PumpStep, SendStep;
    if By(a, u) && !Outside(a) {
      StarterMoves(s, a, u);
    } else if !By(a, u) {
      OthersGoOn(s, a, u);
    }
  }

  lemma {:induction false} ClaimStays(s: System, more: seq<Action>, u: Thread, id: SessionId)
    requires Starting(s, u, id) && Leave(u) !in more
    ensures Starting(Run(s, more), u, id)
    decreases |more|
  {
    hide Next, Starting;
    if more != [] {
      assert more[0] in more;
      ClaimGoesOn(s, more[0], u, id);
      ClaimStays(Next(s, more[0]), more[1..], u, id);
    }
  }

  /** Whoever polls while a start is under way is not told that it failed, and whoever polls between its registration
      and its removal is given the process. */
  lemma WaiterIsServed(maxOpen: int, actions: seq<Action>, more: seq<Action>, t: Thread, u: Thread)
    requires In(After(maxOpen, actions + more), t, Awaiting)
    ensures var s, s' := After(maxOpen, actions), After(maxOpen, actions + more);
            var id := s'.starters[t].id;
            var phase := Next(s', Poll(t)).starters[t].phase;
            && (Starting(s, u, id) && Leave(u) !in more ==> phase != Told(StartFailed))
            && (id in s.table.procs && Remove(s.table.procs[id]) !in more ==> phase == Told(Ready(s.table.procs[id])))
  {
    hide Inv, Next, Starting;
    var s, id := After(maxOpen, actions), After(maxOpen, actions + more).starters[t].id;
    AfterInv(maxOpen, actions);
    RunAppend(Init(maxOpen), actions, more);
    PollTells(maxOpen, actions + more, t);
    if Starting(s, u, id) && Leave(u) !in more {
      ClaimStays(s, more, u, id);
    }
    if id in s.table.procs && Remove(s.table.procs[id]) !in more {
      NamesOneProcess(s, more, id);
    }
  }

  /** When every start and every pump has finished, every slot is free again and nothing stays marked or claimed. */
  lemma NothingLeaks(maxOpen: int, actions: seq<Action>)
    requires After(maxOpen, actions).starters == map[] && After(maxOpen, actions).pumps == map[]
    ensures After(maxOpen, actions).table == Table(map[], {}, {}, 0, Capacity(maxOpen))
  {
    hide After, Handed, Accounted;
    AfterInv(maxOpen, actions);
    var s := After(maxOpen, actions);
    assert Slots(s) == {} && Draining(s) == {};
    assert s.claims.Keys == {};
    assert s.table.procs == map[];
    assert s.table.closing == {};
  }

  // ---------------------------------------------------------------- with nobody in between

  /** What a start leaves behind that went well. */
  function TrackedBy(s: System, id: SessionId, t: Thread, p: Proc): System {
    s.(table := s.table.(procs := s.table.procs[id := p], closing := s.table.closing - {id},
                         tokens := s.table.tokens + 1),
       pumps := s.pumps[p := Pump(id, Reading)], launchedBy := s.launchedBy[p := t])
  }

  /** Half way: the start holds a slot and has launched its process. */
  function LaunchedBy(s: System, x: Starter, t: Thread, p: Proc): System {
    s.(table := s.table.(tokens := s.table.tokens + 1), starters := s.starters[t := x.(phase := Launched(p))],
       launchedBy := s.launchedBy[p := t])
  }

  lemma StartLaunches(s: System, t: Thread, p: Proc)
    requires In(s, t, Queued) && p !in s.launchedBy && s.table.tokens < s.table.capacity
    ensures Next(Next(s, Acquire(t)), Launch(t, p)) == LaunchedBy(s, s.starters[t], t, p)
  {
    var s1 := Next(s, Acquire(t));
    assert s1 == To(s, t, Holding).(table := s.table.(tokens := s.table.tokens + 1));
    assert s.starters[t := s.starters[t].(phase := Holding)][t := s.starters[t].(phase := Launched(p))] ==
           s.starters[t := s.starters[t].(phase := Launched(p))];
  }

  lemma LaunchedRegisters(s: System, t: Thread, p: Proc)
    requires In(s, t, Launched(p)) && s.starters[t].id !in s.table.procs
    ensures var x := s.starters[t];
            Next(Next(s, Register(t)), LaunchPump(t)) ==
            s.(table := s.table.(procs := s.table.procs[x.id := p], closing := s.table.closing - {x.id}),
               starters := s.starters[t := x.(phase := Leaving)], pumps := s.pumps[p := Pump(x.id, Reading)])
  {
    var x, s1 := s.starters[t], Next(s, Register(t));
    assert s1 == RegisterStep(s, t, p) && In(s1, t, Tracked(p));
    assert s.starters[t := x.(phase := Tracked(p))][t := x.(phase := Leaving)] == s.starters[t := x.(phase := Leaving)];
    assert s.pumps[p := Pump(x.id, Unlaunched(t))][p := Pump(x.id, Reading)] == s.pumps[p := Pump(x.id, Reading)];
  }

  /** A start with a slot free and no live process ends with its process tracked, a pump reading it and one slot
      taken. */
  lemma StartRuns(s: System, t: Thread, p: Proc)
    requires In(s, t, Queued) && p !in s.launchedBy && s.table.tokens < s.table.capacity
    requires s.starters[t].id !in s.table.procs
    ensures Run(s, [Acquire(t), Launch(t, p)] + [Register(t), LaunchPump(t)]) ==
            TrackedBy(s, s.starters[t].id, t, p).(starters := s.starters[t := s.starters[t].(phase := Leaving)])
  {
    hide Next;
    var x := s.starters[t];
    var s1 := LaunchedBy(s, x, t, p);
    StartLaunches(s, t, p);
    RunTwo(s, Acquire(t), Launch(t, p));
    LaunchedRegisters(s1, t, p);
    RunTwo(s1, Register(t), LaunchPump(t));
    RunAppend(s, [Acquire(t), Launch(t, p)], [Register(t), LaunchPump(t)]);
    assert s1.starters[t := x.(phase := Leaving)] == s.starters[t := x.(phase := Leaving)];
  }

  /** One for a session whose process is there by then has its own process closed and gives the slot back. */
  lemma DuplicateIsClosed(s: System, t: Thread, p: Proc)
    requires In(s, t, Queued) && p !in s.launchedBy && s.table.tokens < s.table.capacity
    requires s.starters[t].id in s.table.procs
    ensures Run(s, [Acquire(t), Launch(t, p)] + [Register(t), CloseRefused(t), GiveBack(t)]) ==
            s.(starters := s.starters[t := s.starters[t].(phase := Leaving)], launchedBy := s.launchedBy[p := t],
               closed := s.closed + {p}, refused := s.refused + {p})
  {
    hide Next;
    var x := s.starters[t];
    var s1 := LaunchedBy(s, x, t, p);
    StartLaunches(s, t, p);
    RunTwo(s, Acquire(t), Launch(t, p));
    LaunchedIsRefused(s1, t, p);
    RunThree(s1, Register(t), CloseRefused(t), GiveBack(t));
    RunAppend(s, [Acquire(t), Launch(t, p)], [Register(t), CloseRefused(t), GiveBack(t)]);
    assert s1.starters[t := x.(phase := Leaving)] == s.starters[t := x.(phase := Leaving)];
  }

  lemma LaunchedIsRefused(s: System, t: Thread, p: Proc)
    requires In(s, t, Launched(p)) && s.starters[t].id in s.table.procs && s.table.tokens > 0
    ensures Next(Next(Next(s, Register(t)), CloseRefused(t)), GiveBack(t)) ==
            s.(table := s.table.(tokens := s.table.tokens - 1),
               starters := s.starters[t := s.starters[t].(phase := Leaving)],
               closed := s.closed + {p}, refused := s.refused + {p})
  {
    var x, s1 := s.starters[t], Next(s, Register(t));
    assert s1 == To(s, t, Refused(p));
    var s2 := Next(s1, CloseRefused(t));
    assert In(s2, t, Returning);
    assert s.starters[t := x.(phase := Refused(p))][t := x.(phase := Returning)][t := x.(phase := Leaving)] ==
           s.starters[t := x.(phase := Leaving)];
  }

  /** A Send for a session nobody serves claims it and queues, and leaving gives the claim back: in between it is a
      start like any other. */
  lemma SendQueues(s: System, t: Thread, id: SessionId)
    requires t !in s.starters && id !in s.table.procs && id !in s.table.starting
    ensures var s' := Next(s, Send(t, id));
            && In(s', t, Queued) && s'.starters[t].id == id
            && s' == s.(table := s.table.(starting := s.table.starting + {id}), claims := s.claims[id := t],
                        starters := s.starters[t := Starter(id, true, Queued)])
    ensures forall s' :: In(s', t, Leaving) && s'.starters[t] == Starter(id, true, Leaving) ==>
              Next(s', Leave(t)) == s'.(table := s'.table.(starting := s'.table.starting - {id}),
                                        claims := s'.claims - {id}, starters := s'.starters - {t})
  {}

  /** So a Send for a session nobody serves ends, with a slot free, with its process tracked, a pump reading it, one
      slot taken and its claim given back. */
  lemma SendStarts(s: System, t: Thread, id: SessionId, p: Proc)
    requires t !in s.starters && id !in s.table.procs && id !in s.table.starting && id !in s.claims
    requires p !in s.launchedBy && s.table.tokens < s.table.capacity
    ensures var s2 := Run(Next(s, Send(t, id)), [Acquire(t), Launch(t, p)] + [Register(t), LaunchPump(t)]);
            Next(s2, Leave(t)) == TrackedBy(s, id, t, p)
  {
    hide Next;
    var s1 := Next(s, Send(t, id));
    SendQueues(s, t, id);
    StartRuns(s1, t, p);
    var s2 := Run(s1, [Acquire(t), Launch(t, p)] + [Register(t), LaunchPump(t)]);
    assert s2.starters[t] == Starter(id, true, Leaving);
    assert s2.starters - {t} == s.starters && s2.claims - {id} == s.claims;
    assert s2.table.starting - {id} == s.table.starting;
  }

  /** A start that gets no slot, or whose launch fails, leaves the table as it was. */
  lemma StartFails(s: System, t: Thread)
    requires In(s, t, Queued)
    ensures Next(s, GiveUp(t)) == s.(starters := s.starters[t := s.starters[t].(phase := Leaving)])
    ensures s.table.tokens < s.table.capacity ==>
              Run(s, [Acquire(t), LaunchFails(t), GiveBack(t)]) ==
              s.(starters := s.starters[t := s.starters[t].(phase := Leaving)])
  {
    if s.table.tokens < s.table.capacity {
      RunThree(s, Acquire(t), LaunchFails(t), GiveBack(t));
      var x := s.starters[t];
      assert s.starters[t := x.(phase := Holding)][t := x.(phase := Returning)][t := x.(phase := Leaving)] ==
             s.starters[t := x.(phase := Leaving)];
    }
  }

  /** Closing a session whose process is tracked marks the session and tells that process. */
  lemma CloseRuns(s: System, id: SessionId)
    requires Inv(s) && id in s.table.procs
    ensures var p := s.table.procs[id];
            Run(s, [Mark(id), CallClose(p)]) ==
            s.(table := s.table.(closing := s.table.closing + {id}), marks := s.marks[id := p],
               closed := s.closed + {p})
  {
    hide Balanced, Accounted, Claims, MarksFit;
    RunTwo(s, Mark(id), CallClose(s.table.procs[id]));
  }

  /** A tracked process that exits is read by its pump, untracked, and its slot is free again. */
  lemma ExitRuns(s: System, p: Proc)
    requires Inv(s) && p in s.pumps && s.pumps[p].phase == Reading
    ensures var id := s.pumps[p].id;
            Run(s, [Exit(p), ReadExit(p)] + [Remove(p), ReleaseSlot(p)]) ==
            s.(table := s.table.(procs := s.table.procs - {id}, closing := s.table.closing - {id},
                                 tokens := s.table.tokens - 1),
               pumps := s.pumps - {p}, exited := s.exited + {p})
  {
    var id := s.pumps[p].id;
    SlotIsTaken(s, p);
    RunTwo(s, Exit(p), ReadExit(p));
    var s1 := s.(exited := s.exited + {p}, pumps := s.pumps[p := Pump(id, ExitRead)]);
    ExitIsRead(s, p);
    RunTwo(s1, Remove(p), ReleaseSlot(p));
    ReadIsReleased(s1, p);
    hide Next, Inv;
    RunAppend(s, [Exit(p), ReadExit(p)], [Remove(p), ReleaseSlot(p)]);
    assert s1.pumps - {p} == s.pumps - {p};
  }

  lemma ExitIsRead(s: System, p: Proc)
    requires p in s.pumps && s.pumps[p].phase == Reading && p in s.launchedBy
    ensures Next(Next(s, Exit(p)), ReadExit(p)) ==
            s.(exited := s.exited + {p}, pumps := s.pumps[p := Pump(s.pumps[p].id, ExitRead)])
  {}

  lemma ReadIsReleased(s: System, p: Proc)
    requires p in s.pumps && s.pumps[p].phase == ExitRead && s.table.tokens > 0
    ensures var id := s.pumps[p].id;
            Next(Next(s, Remove(p)), ReleaseSlot(p)) ==
            s.(table := s.table.(procs := s.table.procs - {id}, closing := s.table.closing - {id},
                                 tokens := s.table.tokens - 1),
               pumps := s.pumps - {p})
  {
    var s1 := Next(s, Remove(p));
    assert s1.pumps == s.pumps[p := Pump(s.pumps[p].id, Removed)];
    assert s1.pumps - {p} == s.pumps - {p};
  }

  lemma SlotIsTaken(s: System, p: Proc)
    requires Inv(s) && p in s.pumps && s.pumps[p].phase == Reading
    ensures s.table.tokens > 0 && p in s.launchedBy
  {
    hide Accounted, Claims, MarksFit;
    assert s.pumps[p].id in s.table.procs.Keys;
  }

  lemma RunTwo(s: System, a: Action, b: Action)
    ensures Run(s, [a, b]) == Next(Next(s, a), b)
  {
    hide Next;
    assert [a, b][1..] == [b] && [b][1..] == [];
    assert Run(s, [a, b]) == Run(Next(s, a), [b]);
  }

  lemma RunThree(s: System, a: Action, b: Action, c: Action)
    ensures Run(s, [a, b, c]) == Next(Next(Next(s, a), b), c)
  {
    hide Next;
    RunTwo(Next(s, a), b, c);
    assert [a, b, c][1..] == [b, c];
    assert Run(s, [a, b, c]) == Run(Next(s, a), [b, c]);
  }
}
