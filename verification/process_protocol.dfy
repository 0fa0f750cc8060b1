/** Session starts, pumps, closers and exiting processes, interleaved at the critical sections of ProcessTable. */
module ProcessProtocol {
  import opened ProcessTable

  type Thread = nat

  // Where a call of Send or startProcess stands.
  datatype StartPhase =
    | Queued                  // waiting for a slot
    | Holding                 // slot acquired, process not launched
    | Launched(proc: Proc)    // process launched, not registered
    | Tracked(proc: Proc)     // registered, pump not launched
    | Refused(proc: Proc)     // a duplicate: not closed yet
    | Returning               // failed: the slot is to be given back
    | Leaving
    | Awaiting                // polls for the process another Send is starting
    | Told(answer: Poll)      // knows what it polled for; still starting when it gave up

  datatype Starter = Starter(id: SessionId, claimed: bool, phase: StartPhase)

  // A pump exists from the moment its process is tracked; it handles its process's one exit event in three steps.
  datatype PumpPhase = Unlaunched(owner: Thread) | Reading | ExitRead | Removed

  datatype Pump = Pump(id: SessionId, phase: PumpPhase)

  /**
   * The whole system. closed are the processes told to close, refused the duplicates among them. The last three fields
   * only remember the past: who launched a process, who claimed a session's start and which process a session's closing
   * mark was meant for.
   */
  datatype System = System(table: Table, starters: map<Thread, Starter>, pumps: map<Proc, Pump>,
                           exited: set<Proc>, closed: set<Proc>, refused: set<Proc>,
                           launchedBy: map<Proc, Thread>, claims: map<SessionId, Thread>, marks: map<SessionId, Proc>)

  datatype Action =
    | Send(t: Thread, id: SessionId)
    | Open(t: Thread, id: SessionId)
    | Acquire(t: Thread)
    | GiveUp(t: Thread)
    | Poll(t: Thread)
    | Launch(t: Thread, p: Proc)
    | LaunchFails(t: Thread)
    | Register(t: Thread)
    | CloseRefused(t: Thread)
    | GiveBack(t: Thread)
    | LaunchPump(t: Thread)
    | Leave(t: Thread)
    | Mark(id: SessionId)
    | MarkAll
    | CallClose(p: Proc)
    | Exit(p: Proc)
    | ReadExit(p: Proc)
    | Remove(p: Proc)
    | ReleaseSlot(p: Proc)

  function Init(maxOpen: int): System {
    System(Table(map[], {}, {}, 0, Capacity(maxOpen)), map[], map[], {}, {}, {}, map[], map[], map[])
  }

  predicate In(s: System, t: Thread, phase: StartPhase) {
    t in s.starters && s.starters[t].phase == phase
  }

  predicate Done(s: System, t: Thread) {
    t in s.starters && (s.starters[t].phase == Leaving || s.starters[t].phase.Told?)
  }

  function To(s: System, t: Thread, phase: StartPhase): System
    requires t in s.starters
  {
    s.(starters := s.starters[t := s.starters[t].(phase := phase)])
  }

  function PumpTo(s: System, p: Proc, phase: PumpPhase): System
    requires p in s.pumps
  {
    s.(pumps := s.pumps[p := s.pumps[p].(phase := phase)])
  }

  function RegisterStep(s: System, t: Thread, p: Proc): System
    requires t in s.starters
  {
    var id := s.starters[t].id;
    if id in s.table.procs then To(s, t, Refused(p))
    else To(s, t, Tracked(p)).(table := Registered(s.table, id, p), pumps := s.pumps[p := Pump(id, Unlaunched(t))])
  }

  function LeaveStep(s: System, t: Thread): System
    requires t in s.starters
  {
    var starter := s.starters[t];
    var s' := s.(starters := s.starters - {t});
    if starter.claimed then s'.(table := Unclaimed(s.table, starter.id), claims := s.claims - {starter.id}) else s'
  }

  function StarterStep(s: System, a: Action, t: Thread): System
    requires t in s.starters
  {
    var phase := s.starters[t].phase;
    match a
    case Acquire(_) =>
      if phase == Queued && s.table.tokens < s.table.capacity then To(s, t, Holding).(table := Acquired(s.table)) else s
    case GiveUp(_) =>
      if phase == Queued then To(s, t, Leaving) else if phase == Awaiting then To(s, t, Told(StillStarting)) else s
    case Poll(_) =>
      var answer := PollOf(s.table, s.starters[t].id);
      if phase == Awaiting && answer != StillStarting then To(s, t, Told(answer)) else s
    case Launch(_, p) =>
      if phase == Holding && p !in s.launchedBy then To(s, t, Launched(p)).(launchedBy := s.launchedBy[p := t]) else s
    case LaunchFails(_) => if phase == Holding then To(s, t, Returning) else s
    case Register(_) => if phase.Launched? then RegisterStep(s, t, phase.proc) else s
    case CloseRefused(_) =>
      if phase.Refused? then
        To(s, t, Returning).(closed := s.closed + {phase.proc}, refused := s.refused + {phase.proc})
      else s
    case GiveBack(_) => if phase == Returning then To(s, t, Leaving).(table := Released(s.table)) else s
    case LaunchPump(_) =>
      if phase.Tracked? && phase.proc in s.pumps then PumpTo(To(s, t, Leaving), phase.proc, Reading) else s
    case Leave(_) => if phase == Leaving || phase.Told? then LeaveStep(s, t) else s
    case _ => s
  }

  function PumpStep(s: System, a: Action, p: Proc): System
    requires p in s.pumps
  {
    var pump := s.pumps[p];
    match a
    case ReadExit(_) => if pump.phase == Reading && p in s.exited then PumpTo(s, p, ExitRead) else s
    case Remove(_) =>
      if pump.phase == ExitRead then PumpTo(s, p, Removed).(table := Unregistered(s.table, pump.id)) else s
    case ReleaseSlot(_) =>
      if pump.phase == Removed then s.(pumps := s.pumps - {p}, table := Released(s.table)) else s
    case _ => s
  }

  /** Where a Send goes from there: a start of its own, the wait for somebody else's, or the delivery. */
  function FirstPhase(claim: Claim): StartPhase {
    match claim
    case StartIt => Queued
    case AwaitStart => Awaiting
    case Deliver(p) => Told(Ready(p))
  }

  function SendStep(s: System, t: Thread, id: SessionId): System {
    var claim := ClaimOf(s.table, id);
    s.(table := Claimed(s.table, id), starters := s.starters[t := Starter(id, claim == StartIt, FirstPhase(claim))],
        claims := if claim == StartIt then s.claims[id := t] else s.claims)
  }

  /** One step of anybody; a step that is not possible now changes nothing. */
  function Next(s: System, a: Action): System {
    match a
    case Send(t, id) => if t !in s.starters then SendStep(s, t, id) else s
    case Open(t, id) => if t !in s.starters then s.(starters := s.starters[t := Starter(id, false, Queued)]) else s
    case Mark(id) =>
      if id in s.table.procs then s.(table := Marked(s.table, id), marks := s.marks[id := s.table.procs[id]]) else s
    case MarkAll => s.(table := AllMarked(s.table), marks := s.marks + s.table.procs)
    case CallClose(p) => if p in s.launchedBy then s.(closed := s.closed + {p}) else s
    case Exit(p) => if p in s.launchedBy then s.(exited := s.exited + {p}) else s
    case ReadExit(p) => if p in s.pumps then PumpStep(s, a, p) else s
    case Remove(p) => if p in s.pumps then PumpStep(s, a, p) else s
    case ReleaseSlot(p) => if p in s.pumps then PumpStep(s, a, p) else s
    case _ => if a.t in s.starters then StarterStep(s, a, a.t) else s
  }

  function Run(s: System, actions: seq<Action>): System
    decreases |actions|
  {
    if actions == [] then s else Run(Next(s, actions[0]), actions[1..])
  }

  // ---------------------------------------------------------------- the invariant

  predicate HoldsSlot(phase: StartPhase) {
    phase.Holding? || phase.Launched? || phase.Refused? || phase.Returning?
  }

  /** Starters that hold a slot and have no tracked process. */
  ghost function Slots(s: System): set<Thread> {
    set t | t in s.starters && HoldsSlot(s.starters[t].phase)
  }

  /** Pumps between removing their process and releasing its slot. */
  ghost function Draining(s: System): set<Proc> {
    set p | p in s.pumps && s.pumps[p].phase == Removed
  }

  ghost predicate Balanced(s: System) {
    && s.table.tokens == |s.table.procs.Keys| + |Slots(s)| + |Draining(s)|
    && s.table.tokens <= s.table.capacity
  }

  /** A tracked process has exactly one pump, and every pump that has not removed its process is about a tracked one. */
  ghost predicate Owned(s: System) {
    && (forall id :: id in s.table.procs ==>
          var p := s.table.procs[id]; p in s.pumps && s.pumps[p].id == id && s.pumps[p].phase != Removed)
    && (forall p :: p in s.pumps && s.pumps[p].phase != Removed ==>
          s.pumps[p].id in s.table.procs && s.table.procs[s.pumps[p].id] == p)
  }

  function ProcOf(phase: StartPhase): set<Proc> {
    if phase.Launched? || phase.Refused? || phase.Tracked? then {phase.proc} else {}
  }

  /** A starter's process is one it launched itself, without a pump until it is tracked. */
  ghost predicate Launchers(s: System) {
    && (forall t :: t in s.starters ==> forall p :: p in ProcOf(s.starters[t].phase) ==>
        p in s.launchedBy && s.launchedBy[p] == t)
    && (forall t :: t in s.starters && (s.starters[t].phase.Launched? || s.starters[t].phase.Refused?) ==>
          s.starters[t].phase.proc !in s.pumps)
    && (forall p :: p in s.pumps ==> p in s.launchedBy)
  }

  /** Starters about to launch a pump and pumps not launched yet go in pairs. */
  ghost predicate Paired(s: System) {
    && (forall t :: t in s.starters && s.starters[t].phase.Tracked? ==>
          var p := s.starters[t].phase.proc; p in s.pumps && s.pumps[p] == Pump(s.starters[t].id, Unlaunched(t)))
    && (forall p :: p in s.pumps && s.pumps[p].phase.Unlaunched? ==> In(s, s.pumps[p].phase.owner, Tracked(p)))
  }

  ghost predicate Handed(s: System) { Launchers(s) && Paired(s) }

  predicate Held(s: System, p: Proc) {
    p in s.launchedBy && (In(s, s.launchedBy[p], Launched(p)) || In(s, s.launchedBy[p], Refused(p)))
  }

  predicate IsTracked(s: System, p: Proc) {
    p in s.pumps && s.pumps[p].phase != Removed
  }

  /** No process is forgotten while it lives, and no pump believes in an exit that has not happened. */
  ghost predicate Accounted(s: System) {
    && s.refused <= s.closed
    && (forall p :: p in s.launchedBy && p !in s.exited ==> p in s.refused || IsTracked(s, p) || Held(s, p))
    && (forall p :: p in s.pumps && (s.pumps[p].phase == ExitRead || s.pumps[p].phase == Removed) ==> p in s.exited)
  }

  /** Starts nothing itself. */
  predicate Watches(phase: StartPhase) { phase.Awaiting? || phase.Told? }

  ghost predicate Claims(s: System) {
    && s.table.starting == s.claims.Keys
    && (forall id :: id in s.claims ==>
          s.claims[id] in s.starters && s.starters[s.claims[id]].claimed && s.starters[s.claims[id]].id == id)
    && (forall t :: t in s.starters && s.starters[t].claimed ==>
        s.starters[t].id in s.claims && s.claims[s.starters[t].id] == t)
    && (forall t :: t in s.starters && Watches(s.starters[t].phase) ==> !s.starters[t].claimed)
  }

  ghost predicate MarksFit(s: System) {
    forall id :: id in s.table.closing ==> id in s.table.procs && id in s.marks && s.marks[id] == s.table.procs[id]
  }

  ghost predicate Inv(s: System) {
    Balanced(s) && Owned(s) && Handed(s) && Accounted(s) && Claims(s) && MarksFit(s)
  }

  // ---------------------------------------------------------------- every step keeps it

  lemma SlotsMove(s: System, s': System, t: Thread, x: Starter)
    requires s'.starters == s.starters[t := x]
    ensures Slots(s') == if HoldsSlot(x.phase) then Slots(s) + {t} else Slots(s) - {t}
  {}

  lemma SlotsLeave(s: System, s': System, t: Thread)
    requires s'.starters == s.starters - {t}
    ensures Slots(s') == Slots(s) - {t}
  {}

  lemma DrainingMove(s: System, s': System, p: Proc, x: Pump)
    requires s'.pumps == s.pumps[p := x]
    ensures Draining(s') == if x.phase == Removed then Draining(s) + {p} else Draining(s) - {p}
  {}

  lemma DrainingLeave(s: System, s': System, p: Proc)
    requires s'.pumps == s.pumps - {p}
    ensures Draining(s') == Draining(s) - {p}
  {}

  /** A starter moves to x: the token count follows what it holds and what is tracked. */
  lemma BalancedMove(s: System, s': System, t: Thread, x: Starter)
    requires Balanced(s) && t in s.starters && s'.starters == s.starters[t := x] && Draining(s') == Draining(s)
    requires s'.table.tokens - |s'.table.procs.Keys| - (if HoldsSlot(x.phase) then 1 else 0)
             == s.table.tokens - |s.table.procs.Keys| - (if HoldsSlot(s.starters[t].phase) then 1 else 0)
    requires s'.table.tokens <= s'.table.capacity
    ensures Balanced(s')
  {
    hide Draining, HoldsSlot;
    SlotsMove(s, s', t, x);
    HoldsIffIn(s, t);
  }

  lemma HoldsIffIn(s: System, t: Thread)
    requires t in s.starters
    ensures t in Slots(s) <==> HoldsSlot(s.starters[t].phase)
  {}

  lemma BalancedTokens(s: System)
    requires Balanced(s)
    ensures s.table.tokens <= s.table.capacity
    ensures Slots(s) != {} || Draining(s) != {} ==> s.table.tokens > 0
  {}

  lemma LeaveBalanced(s: System, t: Thread)
    requires Balanced(s) && Done(s, t)
    ensures Balanced(LeaveStep(s, t))
  {
    hide Slots, Draining;
    SlotsLeave(s, LeaveStep(s, t), t);
    NotHolding(s, t);
    SamePumps(s, LeaveStep(s, t));
  }

  lemma RegisterBalanced(s: System, t: Thread, p: Proc)
    requires Balanced(s) && Handed(s) && In(s, t, Launched(p))
    ensures Balanced(RegisterStep(s, t, p))
  {
    hide Slots, Draining, Balanced, Handed;
    var id := s.starters[t].id;
    BalancedTokens(s);
    if id in s.table.procs {
      SlotBalanced(s, RegisterStep(s, t, p), t, Refused(p));
    } else {
      TrackBalanced(s, t, p);
    }
  }

  lemma UndrainedMove(s: System, s': System, p: Proc, t: Thread)
    requires Handed(s) && (In(s, t, Launched(p)) || In(s, t, Tracked(p)))
    requires p in s'.pumps && s'.pumps[p].phase != Removed && s'.pumps == s.pumps[p := s'.pumps[p]]
    ensures Draining(s') == Draining(s)
  {
    hide Draining, Handed;
    DrainingMove(s, s', p, s'.pumps[p]);
    NotDraining(s, p, t);
    assert Draining(s) - {p} == Draining(s);
  }

  lemma TrackBalanced(s: System, t: Thread, p: Proc)
    requires Balanced(s) && Handed(s) && In(s, t, Launched(p)) && s.starters[t].id !in s.table.procs
    ensures Balanced(RegisterStep(s, t, p))
  {
    hide Slots, Draining, Balanced, Handed;
    var s' := RegisterStep(s, t, p);
    BalancedTokens(s);
    UndrainedMove(s, s', p, t);
    OneMoreKey(s.table, s.starters[t].id, p);
    BalancedMove(s, s', t, s'.starters[t]);
  }

  lemma OneMoreKey(table: Table, id: SessionId, p: Proc)
    requires id !in table.procs
    ensures |Registered(table, id, p).procs.Keys| == |table.procs.Keys| + 1
  {
    assert Registered(table, id, p).procs.Keys == table.procs.Keys + {id};
  }

  lemma LaunchPumpBalanced(s: System, t: Thread, p: Proc)
    requires Balanced(s) && Handed(s) && In(s, t, Tracked(p)) && p in s.pumps
    ensures Balanced(PumpTo(To(s, t, Leaving), p, Reading))
  {
    hide Slots, Draining, Balanced, Handed;
    var s' := PumpTo(To(s, t, Leaving), p, Reading);
    BalancedTokens(s);
    UndrainedMove(s, s', p, t);
    BalancedMove(s, s', t, s'.starters[t]);
  }

  /** A step that moves only a starter and the token count. */
  lemma SlotBalanced(s: System, s': System, t: Thread, phase: StartPhase)
    requires Balanced(s) && t in s.starters && s'.starters == s.starters[t := s.starters[t].(phase := phase)]
    requires s'.pumps == s.pumps && s'.table == s.table.(tokens := s'.table.tokens)
    requires s'.table.tokens - (if HoldsSlot(phase) then 1 else 0)
             == s.table.tokens - (if HoldsSlot(s.starters[t].phase) then 1 else 0)
    requires s'.table.tokens <= s.table.capacity
    ensures Balanced(s')
  {
    hide Slots, Draining, Balanced, HoldsSlot;
    SamePumps(s, s');
    BalancedMove(s, s', t, s.starters[t].(phase := phase));
  }

  lemma StarterBalanced(s: System, a: Action, t: Thread)
    requires Balanced(s) && Handed(s) && t in s.starters
    ensures Balanced(StarterStep(s, a, t))
  {
    hide Slots, Draining, Handed, Balanced, RegisterStep, LeaveStep;
    var s' := StarterStep(s, a, t);
    if s' != s {
      var phase := s.starters[t].phase;
      BalancedTokens(s);
      HoldsIffIn(s, t);
      match a
      case Register(_) => RegisterBalanced(s, t, phase.proc);
      case Leave(_) => LeaveBalanced(s, t);
      case LaunchPump(_) => LaunchPumpBalanced(s, t, phase.proc);
      case Acquire(_) => SlotBalanced(s, s', t, Holding);
      case GiveUp(_) => SlotBalanced(s, s', t, s'.starters[t].phase);
      case Poll(_) => SlotBalanced(s, s', t, s'.starters[t].phase);
      case Launch(_, p) => SlotBalanced(s, s', t, Launched(p));
      case LaunchFails(_) => SlotBalanced(s, s', t, Returning);
      case CloseRefused(_) => SlotBalanced(s, s', t, Returning);
      case GiveBack(_) => SlotBalanced(s, s', t, Leaving);
      case _ =>
    }
  }

  lemma SamePumps(s: System, s': System)
    requires s'.pumps == s.pumps
    ensures Draining(s') == Draining(s)
  {}

  lemma SameStarters(s: System, s': System)
    requires s'.starters == s.starters
    ensures Slots(s') == Slots(s)
  {}

  lemma NotHolding(s: System, t: Thread)
    requires Done(s, t)
    ensures t !in Slots(s)
  {}

  lemma NotDraining(s: System, p: Proc, t: Thread)
    requires Handed(s) && (In(s, t, Launched(p)) || In(s, t, Tracked(p)))
    ensures p !in Draining(s)
  {}

  lemma RemoveBalanced(s: System, p: Proc)
    requires Balanced(s) && Owned(s) && p in s.pumps && s.pumps[p].phase == ExitRead
    ensures Balanced(PumpTo(s, p, Removed).(table := Unregistered(s.table, s.pumps[p].id)))
  {
    hide Slots, Draining;
    var s' := PumpTo(s, p, Removed).(table := Unregistered(s.table, s.pumps[p].id));
    SameStarters(s, s');
    DrainingMove(s, s', p, s'.pumps[p]);
    DrainsIffIn(s, p);
    assert s'.table.procs.Keys == s.table.procs.Keys - {s.pumps[p].id};
  }

  lemma DrainsIffIn(s: System, p: Proc)
    requires p in s.pumps
    ensures p in Draining(s) <==> s.pumps[p].phase == Removed
  {}

  lemma ReleaseBalanced(s: System, p: Proc)
    requires Balanced(s) && p in s.pumps && s.pumps[p].phase == Removed
    ensures Balanced(s.(pumps := s.pumps - {p}, table := Released(s.table)))
  {
    hide Slots, Draining;
    var s' := s.(pumps := s.pumps - {p}, table := Released(s.table));
    SameStarters(s, s');
    DrainsIffIn(s, p);
    DrainingLeave(s, s', p);
  }

  lemma ReadBalanced(s: System, p: Proc)
    requires Balanced(s) && p in s.pumps && s.pumps[p].phase == Reading
    ensures Balanced(PumpTo(s, p, ExitRead))
  {
    hide Slots, Draining;
    SameStarters(s, PumpTo(s, p, ExitRead));
    DrainsIffIn(s, p);
    DrainingMove(s, PumpTo(s, p, ExitRead), p, s.pumps[p].(phase := ExitRead));
    assert Draining(s) - {p} == Draining(s);
  }

  lemma PumpBalanced(s: System, a: Action, p: Proc)
    requires Balanced(s) && Owned(s) && p in s.pumps
    ensures Balanced(PumpStep(s, a, p))
  {
    hide Balanced, Owned;
    if PumpStep(s, a, p) != s {
      match a
      case ReadExit(_) => ReadBalanced(s, p);
      case Remove(_) => RemoveBalanced(s, p);
      case ReleaseSlot(_) => ReleaseBalanced(s, p);
      case _ =>
    }
  }

  ghost predicate Responsible(s: System) { Owned(s) && Handed(s) && Accounted(s) }

  lemma QuietMoveOwned(s: System, s': System, t: Thread, phase: StartPhase)
    requires Owned(s) && t in s.starters && s'.starters == s.starters[t := s.starters[t].(phase := phase)]
    requires s'.pumps == s.pumps && s'.table.procs == s.table.procs && s'.launchedBy == s.launchedBy
    requires s'.exited == s.exited && s.refused <= s'.refused && (s.refused <= s.closed ==> s'.refused <= s'.closed)
    requires ProcOf(phase) == {} && !s.starters[t].phase.Tracked? && ProcOf(s.starters[t].phase) <= s'.refused
    ensures Owned(s')
  {}

  lemma QuietMoveHanded(s: System, s': System, t: Thread, phase: StartPhase)
    requires Handed(s) && t in s.starters && s'.starters == s.starters[t := s.starters[t].(phase := phase)]
    requires s'.pumps == s.pumps && s'.table.procs == s.table.procs && s'.launchedBy == s.launchedBy
    requires s'.exited == s.exited && s.refused <= s'.refused && (s.refused <= s.closed ==> s'.refused <= s'.closed)
    requires ProcOf(phase) == {} && !s.starters[t].phase.Tracked? && ProcOf(s.starters[t].phase) <= s'.refused
    ensures Handed(s')
  {}

  lemma QuietMoveAccounted(s: System, s': System, t: Thread, phase: StartPhase)
    requires Handed(s) && Accounted(s) && t in s.starters &&
        s'.starters == s.starters[t := s.starters[t].(phase := phase)]
    requires s'.pumps == s.pumps && s'.table.procs == s.table.procs && s'.launchedBy == s.launchedBy
    requires s'.exited == s.exited && s.refused <= s'.refused && (s.refused <= s.closed ==> s'.refused <= s'.closed)
    requires ProcOf(phase) == {} && !s.starters[t].phase.Tracked? && ProcOf(s.starters[t].phase) <= s'.refused
    ensures Accounted(s')
  {
    forall p | p in s'.launchedBy && p !in s'.exited ensures p in s'.refused || IsTracked(s', p) || Held(s', p) {
      assert p in s.refused || IsTracked(s, p) || Held(s, p);
    }
  }

  /** A starter that had no process of its own to lose, or has just closed it, moves to a phase without one. */
  lemma QuietMove(s: System, s': System, t: Thread, phase: StartPhase)
    requires Responsible(s) && t in s.starters && s'.starters == s.starters[t := s.starters[t].(phase := phase)]
    requires s'.pumps == s.pumps && s'.table.procs == s.table.procs && s'.launchedBy == s.launchedBy
    requires s'.exited == s.exited && s.refused <= s'.refused && (s.refused <= s.closed ==> s'.refused <= s'.closed)
    requires ProcOf(phase) == {} && !s.starters[t].phase.Tracked? && ProcOf(s.starters[t].phase) <= s'.refused
    ensures Responsible(s')
  {
    hide Owned, Handed, Accounted;
    QuietMoveOwned(s, s', t, phase);
    QuietMoveHanded(s, s', t, phase);
    QuietMoveAccounted(s, s', t, phase);
  }

  lemma LaunchMoveOwned(s: System, t: Thread, p: Proc)
    requires Owned(s) && In(s, t, Holding) && p !in s.launchedBy
    ensures Owned(To(s, t, Launched(p)).(launchedBy := s.launchedBy[p := t]))
  {}

  lemma LaunchMoveHanded(s: System, t: Thread, p: Proc)
    requires Handed(s) && In(s, t, Holding) && p !in s.launchedBy
    ensures Handed(To(s, t, Launched(p)).(launchedBy := s.launchedBy[p := t]))
  {}

  lemma LaunchMoveAccounted(s: System, t: Thread, p: Proc)
    requires Handed(s) && Accounted(s) && In(s, t, Holding) && p !in s.launchedBy
    ensures Accounted(To(s, t, Launched(p)).(launchedBy := s.launchedBy[p := t]))
  {
    var s' := To(s, t, Launched(p)).(launchedBy := s.launchedBy[p := t]);
    forall q | q in s'.launchedBy && q !in s'.exited ensures q in s'.refused || IsTracked(s', q) || Held(s', q) {
      assert q != p ==> q in s.refused || IsTracked(s, q) || Held(s, q);
    }
  }

  lemma LaunchMove(s: System, t: Thread, p: Proc)
    requires Responsible(s) && In(s, t, Holding) && p !in s.launchedBy
    ensures Responsible(To(s, t, Launched(p)).(launchedBy := s.launchedBy[p := t]))
  {
    hide Owned, Handed, Accounted;
    LaunchMoveOwned(s, t, p);
    LaunchMoveHanded(s, t, p);
    LaunchMoveAccounted(s, t, p);
  }

  lemma RefuseMove(s: System, t: Thread, p: Proc)
    requires Responsible(s) && In(s, t, Launched(p))
    ensures Responsible(To(s, t, Refused(p)))
  {
    var s' := To(s, t, Refused(p));
    forall q | q in s'.launchedBy && q !in s'.exited ensures q in s'.refused || IsTracked(s', q) || Held(s', q) {
      assert q in s.refused || IsTracked(s, q) || Held(s, q);
    }
  }

  lemma TrackOwned(s: System, t: Thread, p: Proc)
    requires Responsible(s) && In(s, t, Launched(p)) && s.starters[t].id !in s.table.procs
    ensures Owned(RegisterStep(s, t, p))
  {}

  lemma TrackLaunchers(s: System, t: Thread, p: Proc)
    requires Launchers(s) && In(s, t, Launched(p)) && s.starters[t].id !in s.table.procs
    ensures Launchers(RegisterStep(s, t, p))
  {}

  lemma TrackPaired(s: System, t: Thread, p: Proc)
    requires Handed(s) && In(s, t, Launched(p)) && s.starters[t].id !in s.table.procs
    ensures Paired(RegisterStep(s, t, p))
  {}

  lemma TrackHanded(s: System, t: Thread, p: Proc)
    requires Handed(s) && In(s, t, Launched(p)) && s.starters[t].id !in s.table.procs
    ensures Handed(RegisterStep(s, t, p))
  {
    hide Launchers, Paired;
    TrackLaunchers(s, t, p);
    TrackPaired(s, t, p);
  }

  lemma TrackAccounted(s: System, t: Thread, p: Proc)
    requires Handed(s) && Accounted(s) && In(s, t, Launched(p)) && s.starters[t].id !in s.table.procs
    ensures Accounted(RegisterStep(s, t, p))
  {
    var s' := RegisterStep(s, t, p);
    forall q | q in s'.launchedBy && q !in s'.exited ensures q in s'.refused || IsTracked(s', q) || Held(s', q) {
      assert q in s.refused || IsTracked(s, q) || Held(s, q);
    }
  }

  lemma LaunchPumpMoveOwned(s: System, t: Thread, p: Proc)
    requires Owned(s) && Handed(s) && In(s, t, Tracked(p)) && p in s.pumps
    ensures Owned(PumpTo(To(s, t, Leaving), p, Reading))
  {}

  lemma LaunchPumpMoveLaunchers(s: System, t: Thread, p: Proc)
    requires Launchers(s) && In(s, t, Tracked(p)) && p in s.pumps
    ensures Launchers(PumpTo(To(s, t, Leaving), p, Reading))
  {}

  lemma LaunchPumpMovePaired(s: System, t: Thread, p: Proc)
    requires Handed(s) && In(s, t, Tracked(p)) && p in s.pumps
    ensures Paired(PumpTo(To(s, t, Leaving), p, Reading))
  {}

  lemma LaunchPumpMoveHanded(s: System, t: Thread, p: Proc)
    requires Handed(s) && In(s, t, Tracked(p)) && p in s.pumps
    ensures Handed(PumpTo(To(s, t, Leaving), p, Reading))
  {
    hide Launchers, Paired;
    LaunchPumpMovePaired(s, t, p);
    LaunchPumpMoveLaunchers(s, t, p);
  }

  lemma LaunchPumpMoveAccounted(s: System, t: Thread, p: Proc)
    requires Handed(s) && Accounted(s) && In(s, t, Tracked(p)) && p in s.pumps
    ensures Accounted(PumpTo(To(s, t, Leaving), p, Reading))
  {
    var s' := PumpTo(To(s, t, Leaving), p, Reading);
    forall q | q in s'.launchedBy && q !in s'.exited ensures q in s'.refused || IsTracked(s', q) || Held(s', q) {
      assert q in s.refused || IsTracked(s, q) || Held(s, q);
    }
  }

  lemma LaunchPumpMove(s: System, t: Thread, p: Proc)
    requires Responsible(s) && In(s, t, Tracked(p)) && p in s.pumps
    ensures Responsible(PumpTo(To(s, t, Leaving), p, Reading))
  {
    hide Owned, Handed, Accounted;
    LaunchPumpMoveOwned(s, t, p);
    LaunchPumpMoveHanded(s, t, p);
    LaunchPumpMoveAccounted(s, t, p);
  }

  lemma LeaveMoveOwned(s: System, t: Thread)
    requires Owned(s) && Done(s, t)
    ensures Owned(LeaveStep(s, t))
  {}

  lemma LeaveMoveLaunchers(s: System, t: Thread)
    requires Launchers(s) && Done(s, t)
    ensures Launchers(LeaveStep(s, t))
  {}

  lemma LeaveMovePaired(s: System, t: Thread)
    requires Handed(s) && Done(s, t)
    ensures Paired(LeaveStep(s, t))
  {}

  lemma LeaveMoveHanded(s: System, t: Thread)
    requires Handed(s) && Done(s, t)
    ensures Handed(LeaveStep(s, t))
  {
    hide Launchers, Paired;
    LeaveMovePaired(s, t);
    LeaveMoveLaunchers(s, t);
  }

  lemma LeaveMoveAccounted(s: System, t: Thread)
    requires Handed(s) && Accounted(s) && Done(s, t)
    ensures Accounted(LeaveStep(s, t))
  {
    var s' := LeaveStep(s, t);
    forall q | q in s'.launchedBy && q !in s'.exited ensures q in s'.refused || IsTracked(s', q) || Held(s', q) {
      assert q in s.refused || IsTracked(s, q) || Held(s, q);
    }
  }

  lemma LeaveMove(s: System, t: Thread)
    requires Responsible(s) && Done(s, t)
    ensures Responsible(LeaveStep(s, t))
  {
    hide Owned, Handed, Accounted;
    LeaveMoveOwned(s, t);
    LeaveMoveHanded(s, t);
    LeaveMoveAccounted(s, t);
  }

  lemma StarterResponsible(s: System, a: Action, t: Thread)
    requires Responsible(s) && t in s.starters
    ensures Responsible(StarterStep(s, a, t))
  {
    hide Responsible, LeaveStep, RegisterStep;
    if StarterStep(s, a, t) != s {
      var phase := s.starters[t].phase;
      match a
      case Launch(_, p) => LaunchMove(s, t, p);
      case Register(_) => RegisterMove(s, t, phase.proc);
      case LaunchPump(_) => LaunchPumpMove(s, t, phase.proc);
      case Leave(_) => LeaveMove(s, t);
      case _ => QuietResponsible(s, a, t);
    }
  }

  lemma QuietResponsible(s: System, a: Action, t: Thread)
    requires Responsible(s) && t in s.starters
    requires !a.Launch? && !a.Register? && !a.LaunchPump? && !a.Leave?
    ensures Responsible(StarterStep(s, a, t))
  {
    hide Responsible, PollOf;
    var s' := StarterStep(s, a, t);
    if s' != s {
      QuietMove(s, s', t, s'.starters[t].phase);
    }
  }

  lemma RegisterMove(s: System, t: Thread, p: Proc)
    requires Responsible(s) && In(s, t, Launched(p))
    ensures Responsible(RegisterStep(s, t, p))
  {
    hide Owned, Handed, Accounted;
    if s.starters[t].id in s.table.procs {
      RefuseMove(s, t, p);
    } else {
      TrackOwned(s, t, p);
      TrackHanded(s, t, p);
      TrackAccounted(s, t, p);
    }
  }

  /** Starters touch the claims only by giving theirs up. */
  lemma ClaimsMove(s: System, s': System, t: Thread, phase: StartPhase)
    requires t in s.starters && (Watches(phase) ==> Watches(s.starters[t].phase))
    requires Claims(s) && t in s.starters && s'.starters == s.starters[t := s.starters[t].(phase := phase)]
    requires s'.table.starting == s.table.starting && s'.claims == s.claims
    ensures Claims(s')
  {}

  lemma LeaveClaims(s: System, t: Thread)
    requires Claims(s) && Done(s, t)
    ensures Claims(LeaveStep(s, t))
  {}

  lemma StarterClaims(s: System, a: Action, t: Thread)
    requires Claims(s) && t in s.starters
    ensures Claims(StarterStep(s, a, t))
  {
    hide Claims, LeaveStep, PollOf;
    var s' := StarterStep(s, a, t);
    if s' != s {
      if a.Leave? {
        LeaveClaims(s, t);
      } else {
        ClaimsMove(s, s', t, s'.starters[t].phase);
      }
    }
  }

  lemma StarterMarks(s: System, a: Action, t: Thread)
    requires MarksFit(s) && t in s.starters
    ensures MarksFit(StarterStep(s, a, t))
  {}

  lemma PumpOwned(s: System, a: Action, p: Proc)
    requires Owned(s) && p in s.pumps
    ensures Owned(PumpStep(s, a, p))
  {}

  lemma PumpHanded(s: System, a: Action, p: Proc)
    requires Handed(s) && p in s.pumps
    ensures Handed(PumpStep(s, a, p))
  {}

  lemma PumpAccounted(s: System, a: Action, p: Proc)
    requires Accounted(s) && p in s.pumps
    ensures Accounted(PumpStep(s, a, p))
  {}

  lemma PumpClaims(s: System, a: Action, p: Proc)
    requires Claims(s) && MarksFit(s) && Owned(s) && p in s.pumps
    ensures Claims(PumpStep(s, a, p)) && MarksFit(PumpStep(s, a, p))
  {}

  predicate Outside(a: Action) {
    a.Send? || a.Open? || a.Mark? || a.MarkAll? || a.CallClose? || a.Exit?
  }

  predicate Bare(phase: StartPhase) { phase.Queued? || Watches(phase) }

  lemma NewStarter(s: System, s': System, t: Thread, x: Starter)
    requires t !in s.starters && s'.starters == s.starters[t := x] && Bare(x.phase)
    requires s'.pumps == s.pumps && s'.table.procs == s.table.procs && s'.launchedBy == s.launchedBy
    requires s'.exited == s.exited && s'.closed == s.closed && s'.refused == s.refused
    requires s'.table.tokens == s.table.tokens && s'.table.capacity == s.table.capacity
    ensures Balanced(s) ==> Balanced(s')
    ensures Responsible(s) ==> Responsible(s')
  {
    hide Balanced, Responsible;
    NewStarterBalanced(s, s', t, x);
    NewStarterResponsible(s, s', t, x);
  }

  lemma NewStarterBalanced(s: System, s': System, t: Thread, x: Starter)
    requires t !in s.starters && s'.starters == s.starters[t := x] && Bare(x.phase)
    requires s'.pumps == s.pumps && s'.table.procs == s.table.procs
    requires s'.table.tokens == s.table.tokens && s'.table.capacity == s.table.capacity
    ensures Balanced(s) ==> Balanced(s')
  {
    hide Slots, Draining;
    SlotsMove(s, s', t, x);
    AbsentHoldsNone(s, t);
    SamePumps(s, s');
  }

  lemma AbsentHoldsNone(s: System, t: Thread)
    requires t !in s.starters
    ensures Slots(s) - {t} == Slots(s)
  {}

  lemma NewStarterResponsible(s: System, s': System, t: Thread, x: Starter)
    requires t !in s.starters && s'.starters == s.starters[t := x] && Bare(x.phase)
    requires s'.pumps == s.pumps && s'.table.procs == s.table.procs && s'.launchedBy == s.launchedBy
    requires s'.exited == s.exited && s'.closed == s.closed && s'.refused == s.refused
    ensures Responsible(s) ==> Responsible(s')
  {
    hide Accounted;
    if Responsible(s) {
      NewStarterAccounted(s, s', t, x);
    }
  }

  lemma NewStarterAccounted(s: System, s': System, t: Thread, x: Starter)
    requires t !in s.starters && s'.starters == s.starters[t := x] && Bare(x.phase)
    requires s'.pumps == s.pumps && s'.launchedBy == s.launchedBy && s'.exited == s.exited && s'.closed == s.closed &&
        s'.refused == s.refused
    requires Accounted(s)
    ensures Accounted(s')
  {
    forall q | q in s'.launchedBy && q !in s'.exited ensures q in s'.refused || IsTracked(s', q) || Held(s', q) {
      assert q in s.refused || IsTracked(s, q) || Held(s, q);
    }
  }

  /** Closing, exiting and marking move no slot and hand over no process. */
  lemma SignalsOnly(s: System, s': System)
    requires s'.starters == s.starters && s'.pumps == s.pumps && s'.launchedBy == s.launchedBy
    requires s'.table == s.table.(closing := s'.table.closing) && s.exited <= s'.exited && s.closed <= s'.closed &&
        s'.refused == s.refused
    requires Balanced(s) && Responsible(s)
    ensures Balanced(s') && Responsible(s')
  {
    hide Slots, Draining, Owned, Handed, Accounted;
    SameStarters(s, s');
    SamePumps(s, s');
    SignalsHanded(s, s');
    SignalsAccounted(s, s');
  }

  lemma SignalsHanded(s: System, s': System)
    requires s'.starters == s.starters && s'.pumps == s.pumps && s'.launchedBy == s.launchedBy
    requires s'.table.procs == s.table.procs
    requires Owned(s) && Handed(s)
    ensures Owned(s') && Handed(s')
  {}

  lemma SignalsAccounted(s: System, s': System)
    requires s'.starters == s.starters && s'.pumps == s.pumps && s'.launchedBy == s.launchedBy
    requires s.exited <= s'.exited && s.closed <= s'.closed && s'.refused == s.refused && Accounted(s)
    ensures Accounted(s')
  {
    forall q | q in s'.launchedBy && q !in s'.exited ensures q in s'.refused || IsTracked(s', q) || Held(s', q) {
      assert q in s.refused || IsTracked(s, q) || Held(s, q);
    }
  }

  lemma SendResponsible(s: System, t: Thread, id: SessionId)
    requires Balanced(s) && Responsible(s) && t !in s.starters
    ensures Balanced(SendStep(s, t, id)) && Responsible(SendStep(s, t, id))
  {
    hide Balanced, Responsible, ClaimOf;
    var s', claim := SendStep(s, t, id), ClaimOf(s.table, id);
    NewStarter(s, s', t, Starter(id, claim == StartIt, FirstPhase(claim)));
  }

  lemma OutsideResponsible(s: System, a: Action)
    requires Balanced(s) && Responsible(s) && Outside(a)
    ensures Balanced(Next(s, a)) && Responsible(Next(s, a))
  {
    hide Balanced, Responsible, SendStep;
    var s' := Next(s, a);
    if s' != s {
      match a
      case Send(t, id) => SendResponsible(s, t, id);
      case Open(t, id) => NewStarter(s, s', t, Starter(id, false, Queued));
      case Mark(_) => SignalsOnly(s, s');
      case MarkAll => SignalsOnly(s, s');
      case CallClose(_) => SignalsOnly(s, s');
      case Exit(_) => SignalsOnly(s, s');
      case _ =>
    }
  }

  lemma OutsideClaims(s: System, a: Action)
    requires Claims(s) && Outside(a)
    ensures Claims(Next(s, a))
  {
    hide Claims, SendStep;
    if a.Send? && a.t !in s.starters {
      SendClaims(s, a.t, a.id);
    } else if a.Open? && a.t !in s.starters {
      UnclaimedStarter(s, Next(s, a), a.t);
    } else {
      SameClaims(s, Next(s, a));
    }
  }

  lemma SendClaims(s: System, t: Thread, id: SessionId)
    requires Claims(s) && t !in s.starters
    ensures Claims(SendStep(s, t, id))
  {
    if ClaimOf(s.table, id) != StartIt {
      UnclaimedStarter(s, SendStep(s, t, id), t);
    }
  }

  lemma UnclaimedStarter(s: System, s': System, t: Thread)
    requires Claims(s) && t !in s.starters && t in s'.starters && !s'.starters[t].claimed
    requires s'.starters == s.starters[t := s'.starters[t]]
    requires s'.table.starting == s.table.starting && s'.claims == s.claims
    ensures Claims(s')
  {}

  lemma SameClaims(s: System, s': System)
    requires Claims(s) && s'.starters == s.starters
    requires s'.table.starting == s.table.starting && s'.claims == s.claims
    ensures Claims(s')
  {}

  lemma OutsideMarks(s: System, a: Action)
    requires MarksFit(s) && Outside(a)
    ensures MarksFit(Next(s, a))
  {}

  lemma NextKeeps(s: System, a: Action)
    requires Inv(s)
    ensures Inv(Next(s, a))
  {
    hide Balanced, Owned, Handed, Accounted, Claims, MarksFit, StarterStep, PumpStep;
    if Outside(a) {
      OutsideResponsible(s, a);
      OutsideClaims(s, a);
      OutsideMarks(s, a);
    } else if a.ReadExit? || a.Remove? || a.ReleaseSlot? {
      if a.p in s.pumps {
        PumpBalanced(s, a, a.p);
        PumpOwned(s, a, a.p);
        PumpHanded(s, a, a.p);
        PumpAccounted(s, a, a.p);
        PumpClaims(s, a, a.p);
      }
    } else if a.t in s.starters {
      StarterBalanced(s, a, a.t);
      StarterResponsible(s, a, a.t);
      StarterClaims(s, a, a.t);
      StarterMarks(s, a, a.t);
    }
  }

  lemma InitInv(maxOpen: int)
    ensures Inv(Init(maxOpen))
  {
    var s := Init(maxOpen);
    assert Slots(s) == {} && Draining(s) == {};
  }

  /** Every interleaving keeps the invariant. */
  lemma {:induction false} RunInv(s: System, actions: seq<Action>)
    requires Inv(s)
    ensures Inv(Run(s, actions)) && Run(s, actions).table.capacity == s.table.capacity
    decreases |actions|
  {
    hide Inv, Next;
    if actions != [] {
      NextKeeps(s, actions[0]);
      SameCapacity(s, actions[0]);
      RunInv(Next(s, actions[0]), actions[1..]);
    }
  }

  lemma SameCapacity(s: System, a: Action)
    ensures Next(s, a).table.capacity == s.table.capacity
  {
    hide StarterStep, PumpStep;
    if Outside(a) {
    } else if a.ReadExit? || a.Remove? || a.ReleaseSlot? {
      if a.p in s.pumps {
        PumpCapacity(s, a, a.p);
      }
    } else if a.t in s.starters {
      StarterCapacity(s, a, a.t);
    }
  }

  lemma StarterCapacity(s: System, a: Action, t: Thread)
    requires t in s.starters
    ensures StarterStep(s, a, t).table.capacity == s.table.capacity
  {}

  lemma PumpCapacity(s: System, a: Action, p: Proc)
    requires p in s.pumps
    ensures PumpStep(s, a, p).table.capacity == s.table.capacity
  {}
}
