/** The table of live harness processes and the semaphore that bounds them: one operation per critical section. */
module ProcessTable {
  import opened Wrappers

  type SessionId = string
  type Proc = nat

  /** What the lock and the semaphore protect. */
  datatype Table = Table(procs: map<SessionId, Proc>, closing: set<SessionId>, starting: set<SessionId>,
                         tokens: nat, capacity: nat)

  // What a Send finds: a live process, somebody already starting one, or the claim to start it.
  datatype Claim = Deliver(proc: Proc) | AwaitStart | StartIt
  datatype Poll = Ready(proc: Proc) | StartFailed | StillStarting

  // What came of a Send; one that finds a start in progress has yet to poll for it.
  datatype Sent = Delivered(proc: Proc) | InProgress | Started(proc: Proc) | NotStarted

  function Capacity(maxOpen: int): (n: nat)
    ensures n >= 1 && n >= maxOpen && (n == 1 || n == maxOpen)
  {
    if maxOpen < 1 then 1 else maxOpen
  }

  function ClaimOf(t: Table, id: SessionId): Claim {
    if id in t.procs then Deliver(t.procs[id]) else if id in t.starting then AwaitStart else StartIt
  }

  function Claimed(t: Table, id: SessionId): Table {
    if ClaimOf(t, id) == StartIt then t.(starting := t.starting + {id}) else t
  }

  function Unclaimed(t: Table, id: SessionId): Table { t.(starting := t.starting - {id}) }

  function PollOf(t: Table, id: SessionId): Poll {
    if id in t.procs then Ready(t.procs[id]) else if id in t.starting then StillStarting else StartFailed
  }

  function Registered(t: Table, id: SessionId, p: Proc): Table {
    if id in t.procs then t else t.(procs := t.procs[id := p], closing := t.closing - {id})
  }

  function Unregistered(t: Table, id: SessionId): Table {
    t.(procs := t.procs - {id}, closing := t.closing - {id})
  }

  function Marked(t: Table, id: SessionId): Table {
    if id in t.procs then t.(closing := t.closing + {id}) else t
  }

  function AllMarked(t: Table): Table { t.(closing := t.closing + t.procs.Keys) }

  function Acquired(t: Table): Table { if t.tokens < t.capacity then t.(tokens := t.tokens + 1) else t }

  function Released(t: Table): Table { if t.tokens > 0 then t.(tokens := t.tokens - 1) else t }

  // ---------------------------------------------------------------- choosing what to evict

  datatype SessionState = Open | Running | Waiting | Closed | Failed

  /** What the eviction reads about a session: its state, its profile when that loads, its last activity. */
  datatype SessionInfo = SessionInfo(state: SessionState, unattended: Option<bool>, lastActive: int)

  predicate Evictable(sessions: map<SessionId, SessionInfo>, id: SessionId) {
    id in sessions && sessions[id].state == Open && sessions[id].unattended == Some(true)
  }

  /** The session is one of ids, open and unattended, and no other of these has been idle for longer. */
  ghost predicate IsOldestIdle(ids: set<SessionId>, sessions: map<SessionId, SessionInfo>, oldest: SessionId) {
    && oldest in ids && oldest in sessions
    && sessions[oldest].state == Open && sessions[oldest].unattended == Some(true)
    && forall id :: id in ids && id in sessions ==>
        sessions[id].state == Open && sessions[id].unattended == Some(true) ==>
          sessions[oldest].lastActive <= sessions[id].lastActive
  }

  /** The longest idle of the tracked unattended sessions, whatever order they are looked at in. */
  method OldestIdleUnattended(ids: set<SessionId>, sessions: map<SessionId, SessionInfo>)
      returns (oldest: Option<SessionId>)
    ensures oldest == None <==> forall id :: id in ids ==> !Evictable(sessions, id)
    ensures oldest.Some? ==> IsOldestIdle(ids, sessions, oldest.value)
  {
    oldest := None;
    var oldestAt := 0;
    var rest := ids;
    while rest != {}
      invariant rest <= ids
      invariant oldest == None ==> forall id :: id in ids - rest ==> !Evictable(sessions, id)
      invariant oldest.Some? ==> oldest.value in ids && Evictable(sessions, oldest.value)
                                 && oldestAt == sessions[oldest.value].lastActive
      invariant oldest.Some? ==> forall id :: id in ids - rest && Evictable(sessions, id) ==>
          oldestAt <= sessions[id].lastActive
    {
      var id :| id in rest;
      rest := rest - {id};
      assert id in ids - rest;
      if id !in sessions || sessions[id].state != Open {
        continue;
      }
      if sessions[id].unattended != Some(true) {
        continue;
      }
      if oldest == None || sessions[id].lastActive < oldestAt {
        oldest, oldestAt := Some(id), sessions[id].lastActive;
      }
    }
  }

  // ---------------------------------------------------------------- the service

  class Service {
    var procs: map<SessionId, Proc>
    var closing: set<SessionId>
    var starting: set<SessionId>
    var tokens: nat
    const capacity: nat

    function Value(): Table
      reads this
    {
      Table(procs, closing, starting, tokens, capacity)
    }

    constructor (maxOpen: int)
      ensures Value() == Table(map[], {}, {}, 0, Capacity(maxOpen))
    {
      procs, closing, starting, tokens := map[], {}, {}, 0;
      capacity := Capacity(maxOpen);
    }

    /** The non-blocking send on the semaphore channel; a blocked acquire retries it until its timer fires. */
    method TryAcquire() returns (ok: bool)
      modifies this
      ensures Value() == Acquired(old(Value())) && (ok <==> old(tokens) < capacity)
    {
      ok := tokens < capacity;
      if ok {
        tokens := tokens + 1;
      }
    }

    method Release()
      modifies this
      ensures Value() == Released(old(Value()))
    {
      if tokens > 0 {
        tokens := tokens - 1;
      }
    }

    method BeginSend(id: SessionId) returns (claim: Claim)
      modifies this
      ensures claim == ClaimOf(old(Value()), id) && Value() == Claimed(old(Value()), id)
    {
      if id in procs {
        return Deliver(procs[id]);
      }
      if id in starting {
        return AwaitStart;
      }
      starting := starting + {id};
      claim := StartIt;
    }

    method EndSend(id: SessionId)
      modifies this
      ensures Value() == Unclaimed(old(Value()), id)
    {
      starting := starting - {id};
    }

    /** One look of a Send that waits for another's start; what happens between two looks is in `ProcessProtocol`. */
    method PollStarting(id: SessionId) returns (poll: Poll)
      ensures poll == PollOf(Value(), id)
    {
      if id in procs {
        return Ready(procs[id]);
      }
      poll := if id in starting then StillStarting else StartFailed;
    }

    /** Refused when the session already has a live process. */
    method RegisterProcess(id: SessionId, p: Proc) returns (ok: bool)
      modifies this
      ensures Value() == Registered(old(Value()), id, p) && (ok <==> id !in old(procs))
      ensures procs == if ok then old(procs)[id := p] else old(procs)
      ensures closing == if ok then old(closing) - {id} else old(closing)
    {
      if id in procs {
        return false;
      }
      procs := procs[id := p];
      closing := closing - {id};
      ok := true;
    }

    method UnregisterProcess(id: SessionId)
      modifies this
      ensures Value() == Unregistered(old(Value()), id)
    {
      procs := procs - {id};
      closing := closing - {id};
    }

    method IsClosing(id: SessionId) returns (marked: bool)
      ensures marked <==> id in closing
    {
      marked := id in closing;
    }

    /** The locked part of Close, of an eviction and of a model switch: the process to close, if any. */
    method MarkClosing(id: SessionId) returns (entry: Option<Proc>)
      modifies this
      ensures Value() == Marked(old(Value()), id)
      ensures closing == old(closing) + (if id in procs then {id} else {})
      ensures entry == if id in procs then Some(procs[id]) else None
    {
      entry := None;
      if id in procs {
        entry := Some(procs[id]);
        closing := closing + {id};
      }
    }

    /** The locked part of a shutdown: every tracked process is marked, whatever order the map is walked in. */
    method MarkAllClosing() returns (entries: map<SessionId, Proc>)
      modifies this
      ensures Value() == AllMarked(old(Value())) && entries == procs == old(procs)
      ensures closing == old(closing) + procs.Keys
    {
      entries := map[];
      var rest := procs.Keys;
      while rest != {}
        invariant rest <= procs.Keys && entries.Keys == procs.Keys - rest
        invariant forall id :: id in entries ==> entries[id] == procs[id]
        invariant Value() == old(Value()).(closing := closing) && closing == old(closing) + entries.Keys
      {
        var id :| id in rest;
        entries := entries[id := procs[id]];
        closing := closing + {id};
        rest := rest - {id};
      }
    }

    // -------------------------------------------------------------- whole operations, nobody else in between

    /** Marks the longest idle unattended session for closing, when there is one. */
    method EvictOldestIdle(sessions: map<SessionId, SessionInfo>) returns (evicted: Option<SessionId>)
      modifies this
      ensures evicted == None <==> forall id :: id in procs ==> !Evictable(sessions, id)
      ensures evicted == None ==> Value() == old(Value())
      ensures evicted.Some? ==> IsOldestIdle(procs.Keys, sessions, evicted.value)
      ensures evicted.Some? ==> Value() == old(Value()).(closing := old(closing) + {evicted.value})
    {
      evicted := OldestIdleUnattended(procs.Keys, sessions);
      if evicted.Some? {
        var _ := MarkClosing(evicted.value);
      }
    }

    /** The start without its wait for a slot: with every slot taken an interactive start evicts and then, nobody being
        there to free a slot, gives up. Otherwise it acquires one and tracks the process the harness launched, if it
        did. Every failure leaves slots and processes as they were. */
    method StartProcess(id: SessionId, launched: Option<Proc>, interactive: bool, sessions: map<SessionId, SessionInfo>)
      returns (ok: bool)
      modifies this
      ensures ok <==> old(tokens) < capacity && launched.Some? && id !in old(procs)
      ensures ok ==> Value() == Registered(Acquired(old(Value())), id, launched.value)
      ensures !ok ==> Value() == old(Value()).(closing := closing)
      ensures !ok && (old(tokens) < capacity || !interactive) ==> closing == old(closing)
      ensures !ok && old(tokens) >= capacity && interactive ==>
                || (closing == old(closing) && forall id :: id in procs ==> !Evictable(sessions, id))
                || exists id :: IsOldestIdle(procs.Keys, sessions, id) && closing == old(closing) + {id}
    {
      var acquired := TryAcquire();
      if !acquired {
        if interactive {
          var _ := EvictOldestIdle(sessions);
        }
        return false;
      }
      if launched == None {
        Release();
        return false;
      }
      ok := RegisterProcess(id, launched.value);
      if !ok {
        Release();
      }
    }

    /** Delivers to the live process, is left to wait for the start another Send has begun, or starts one itself under a
        claim that is given back however the start ends. */
    method Send(id: SessionId, launched: Option<Proc>, interactive: bool, sessions: map<SessionId, SessionInfo>)
      returns (sent: Sent)
      modifies this
      ensures starting == old(starting)
      ensures sent.Delivered? <==> id in old(procs)
      ensures sent.InProgress? <==> id !in old(procs) && id in old(starting)
      ensures sent.Started? <==>
                id !in old(procs) && id !in old(starting) && old(tokens) < capacity && launched.Some?
      ensures sent.Delivered? ==> sent.proc == old(procs)[id]
      ensures sent.Delivered? || sent.InProgress? ==> Value() == old(Value())
      ensures sent.Started? ==>
                launched == Some(sent.proc) && Value() == Registered(Acquired(old(Value())), id, sent.proc)
      ensures sent.NotStarted? ==> Value() == old(Value()).(closing := closing)
    {
      var claim := BeginSend(id);
      match claim
      case Deliver(p) => return Delivered(p);
      case AwaitStart => return InProgress;
      case StartIt =>
      var ok := StartProcess(id, launched, interactive, sessions);
      EndSend(id);
      assert starting == old(starting);
      sent := if ok then Started(launched.value) else NotStarted;
    }

    /** A process has exited: closed when that was asked for or went well, failed otherwise; its slot is free again. */
    method HandleExit(id: SessionId, exitCode: int) returns (state: SessionState)
      modifies this
      ensures state == if id in old(closing) || exitCode == 0 then Closed else Failed
      ensures Value() == Released(Unregistered(old(Value()), id))
      ensures procs == old(procs) - {id} && closing == old(closing) - {id}
      ensures tokens == if old(tokens) > 0 then old(tokens) - 1 else 0
    {
      var asked := IsClosing(id);
      state := if asked || exitCode == 0 then Closed else Failed;
      UnregisterProcess(id);
      Release();
    }
  }
}
