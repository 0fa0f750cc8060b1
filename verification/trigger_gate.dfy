/** The gate of a trigger: which deliveries start a run, decided over the log of earlier deliveries. */
module TriggerGate {
  import opened Machine
  import opened Wrappers

  datatype Kind = Grafana | Github | Generic

  datatype Trigger = Trigger(kind: Kind, runOnResolved: bool, cooldownS: int, stormCapPerHour: int)

  datatype Status = Accepted | Rejected | Failed | Skipped | CoolingDown | Deduped | Storm

  /** A row of the trigger's delivery log; times in nanoseconds. */
  datatype Delivery = Delivery(receivedAt: int, key: string, status: Status)

  /**
   * One delivery as it arrives: the alert status of the payload (none when the payload cannot be normalised), the
   * rendered dedupe key (none when rendering fails), whether it is forced, and whether a run could be started for it.
   */
  datatype Inbound = Inbound(now: int, alert: Option<string>, key: Option<string>, force: bool, starts: bool)

  const SECOND := 1_000_000_000
  const HOUR := 3600 * SECOND
  const DEDUPE_WINDOW := 24 * HOUR

  function Cooldown(tr: Trigger): int { Int64(tr.cooldownS * SECOND) }

  // ---------------------------------------------------------------- what the queries mean

  predicate AcceptedWith(d: Delivery, key: string) { d.status == Accepted && d.key == key }

  predicate AcceptedSince(d: Delivery, since: int) { d.status == Accepted && d.receivedAt >= since }

  function CountSince(log: seq<Delivery>, since: int): nat {
    if log == [] then 0
    else CountSince(log[..|log| - 1], since) + (if AcceptedSince(log[|log| - 1], since) then 1 else 0)
  }

  /** When the newest accepted delivery with this key arrived. */
  function LastAcceptedAt(log: seq<Delivery>, key: string): Option<int> {
    if log == [] then None
    else
      var last := log[|log| - 1];
      var before := LastAcceptedAt(log[..|log| - 1], key);
      if AcceptedWith(last, key) && (before == None || before.value <= last.receivedAt) then Some(last.receivedAt)
          else before
  }

  /** Accepted means the delivery passes; any other status is why it does not. */
  function GateOf(tr: Trigger, log: seq<Delivery>, alert: string, key: string, now: int, force: bool): Status {
    if tr.kind == Grafana && !tr.runOnResolved && alert == "resolved" then Skipped
    else if force then Accepted
    else
      var last := LastAcceptedAt(log, key);
      if last.Some? && now - last.value < Cooldown(tr) then CoolingDown
      else if last.Some? && (tr.kind == Grafana || now - last.value < DEDUPE_WINDOW) then Deduped
      else if tr.stormCapPerHour > 0 && CountSince(log, now - HOUR) >= tr.stormCapPerHour then Storm
      else Accepted
  }

  /** The row one delivery leaves in the log. */
  function RowOf(tr: Trigger, log: seq<Delivery>, e: Inbound): Delivery {
    if e.alert == None then Delivery(e.now, "", Rejected)
    else if e.key == None then Delivery(e.now, "", Failed)
    else
      var status := GateOf(tr, log, e.alert.value, e.key.value, e.now, e.force);
      Delivery(e.now, e.key.value, if status == Accepted && !e.starts then Failed else status)
  }

  // ---------------------------------------------------------------- the service

  class Service {
    const trigger: Trigger
    var log: seq<Delivery>

    constructor (trigger: Trigger)
      ensures this.trigger == trigger && log == []
    {
      this.trigger := trigger;
      log := [];
    }

    method CountAcceptedSince(since: int) returns (n: nat)
      ensures n == CountSince(log, since)
    {
      n := 0;
      var i := 0;
      while i < |log|
        invariant i <= |log| && n == CountSince(log[..i], since)
      {
        assert log[..i + 1][..i] == log[..i];
        if log[i].status == Accepted && log[i].receivedAt >= since {
          n := n + 1;
        }
        i := i + 1;
      }
      assert log[..|log|] == log;
    }

    method LastAcceptedByKey(key: string) returns (found: Option<Delivery>)
      ensures LastAcceptedAt(log, key) == if found.Some? then Some(found.value.receivedAt) else None
      ensures found.Some? ==> found.value in log && AcceptedWith(found.value, key)
    {
      found := None;
      var i := 0;
      while i < |log|
        invariant i <= |log|
        invariant LastAcceptedAt(log[..i], key) == if found.Some? then Some(found.value.receivedAt) else None
        invariant found.Some? ==> found.value in log && AcceptedWith(found.value, key)
      {
        assert log[..i + 1][..i] == log[..i];
        if log[i].status == Accepted && log[i].key == key &&
            (found == None || found.value.receivedAt <= log[i].receivedAt) {
          found := Some(log[i]);
        }
        i := i + 1;
      }
      assert log[..|log|] == log;
    }

    method Gate(alert: string, key: string, now: int, force: bool) returns (status: Status)
      ensures status == GateOf(trigger, log, alert, key, now, force)
    {
      if trigger.kind == Grafana && !trigger.runOnResolved && alert == "resolved" {
        return Skipped;
      }
      if force {
        return Accepted;
      }
      var last := LastAcceptedByKey(key);
      if last.Some? {
        if now - last.value.receivedAt < Cooldown(trigger) {
          return CoolingDown;
        }
        if trigger.kind == Grafana || now - last.value.receivedAt < DEDUPE_WINDOW {
          return Deduped;
        }
      }
      if trigger.stormCapPerHour > 0 {
        var count := CountAcceptedSince(now - HOUR);
        if count >= trigger.stormCapPerHour {
          return Storm;
        }
      }
      status := Accepted;
    }

    /** Writes exactly one row, whatever becomes of the delivery. */
    method Process(e: Inbound) returns (row: Delivery)
      modifies this
      ensures row == RowOf(trigger, old(log), e) && log == old(log) + [row]
    {
      if e.alert == None {
        row := Record(Delivery(e.now, "", Rejected));
        return;
      }
      if e.key == None {
        row := Record(Delivery(e.now, "", Failed));
        return;
      }
      var status := Gate(e.alert.value, e.key.value, e.now, e.force);
      row := Record(Delivery(e.now, e.key.value, status));
      if status == Accepted && !e.starts {
        row := FailDelivery(|log| - 1);
      }
    }

    method Record(d: Delivery) returns (row: Delivery)
      modifies this
      ensures row == d && log == old(log) + [d]
    {
      log := log + [d];
      row := d;
    }

    /** The run of an accepted delivery could not be started: its row says so. */
    method FailDelivery(i: nat) returns (row: Delivery)
      requires i < |log|
      modifies this
      ensures row == old(log)[i].(status := Failed) && log == old(log)[i := row]
    {
      row := log[i].(status := Failed);
      log := log[i := row];
    }
  }

  // ---------------------------------------------------------------- histories

  /** The log after a history of deliveries. */
  function LogOf(tr: Trigger, events: seq<Inbound>): (log: seq<Delivery>)
    ensures |log| == |events|
  {
    if events == [] then []
    else
      var before := LogOf(tr, events[..|events| - 1]);
      before + [RowOf(tr, before, events[|events| - 1])]
  }

  /** Rows are never revised: a shorter history leaves a prefix, and row i is decided by the rows before it. */
  lemma {:induction false} RowAt(tr: Trigger, events: seq<Inbound>, i: nat)
    requires i < |events|
    ensures LogOf(tr, events)[..i] == LogOf(tr, events[..i])
    ensures LogOf(tr, events)[i] == RowOf(tr, LogOf(tr, events)[..i], events[i])
  {
    var front := events[..|events| - 1];
    var log := LogOf(tr, events);
    assert log[..|events| - 1] == LogOf(tr, front);
    if i < |events| - 1 {
      RowAt(tr, front, i);
      assert front[..i] == events[..i];
      assert log[..i] == LogOf(tr, front)[..i];
    } else {
      assert front == events[..i];
    }
  }

  lemma {:induction false} LastIsNewest(log: seq<Delivery>, key: string)
    ensures LastAcceptedAt(log, key) == None <==> forall i :: 0 <= i < |log| ==> !AcceptedWith(log[i], key)
    ensures forall i :: 0 <= i < |log| && AcceptedWith(log[i], key) ==>
        log[i].receivedAt <= LastAcceptedAt(log, key).value
    ensures LastAcceptedAt(log, key).Some? ==>
              exists i :: 0 <= i < |log| && AcceptedWith(log[i], key) &&
                  log[i].receivedAt == LastAcceptedAt(log, key).value
  {
    if log != [] {
      var front := log[..|log| - 1];
      LastIsNewest(front, key);
      assert AcceptedWith(log[|log| - 1], key) || !AcceptedWith(log[|log| - 1], key);
      if LastAcceptedAt(front, key).Some? {
        var i :| 0 <= i < |front| && AcceptedWith(front[i], key) &&
            front[i].receivedAt == LastAcceptedAt(front, key).value;
        assert log[i] == front[i];
      }
      assert forall i :: 0 <= i < |front| ==> log[i] == front[i];
    }
  }

  predicate Unblocked(tr: Trigger, alert: string) {
    tr.kind != Grafana || tr.runOnResolved || alert != "resolved"
  }

  /** Far enough from an accepted delivery with the same key. */
  predicate FarFrom(tr: Trigger, now: int, d: Delivery) {
    tr.kind != Grafana && now - d.receivedAt >= Cooldown(tr) && now - d.receivedAt >= 24 * 3600 * SECOND
  }

  /** The gate, said about the whole log: an unforced delivery passes exactly when no rule speaks against it. */
  lemma GatePassesExactly(tr: Trigger, log: seq<Delivery>, alert: string, key: string, now: int, force: bool)
    ensures GateOf(tr, log, alert, key, now, force) == Accepted <==>
              && Unblocked(tr, alert)
              && (force || forall i :: 0 <= i < |log| && AcceptedWith(log[i], key) ==> FarFrom(tr, now, log[i]))
              && (force || (tr.stormCapPerHour > 0 ==> CountSince(log, now - HOUR) < tr.stormCapPerHour))
  {
    hide LastAcceptedAt, CountSince, Cooldown;
    LastIsNewest(log, key);
  }

  predicate TooSoon(tr: Trigger, now: int, d: Delivery) { now - d.receivedAt < Cooldown(tr) }

  predicate Repeats(tr: Trigger, now: int, d: Delivery) { tr.kind == Grafana || now - d.receivedAt < DEDUPE_WINDOW }

  /** Why the gate refuses, said about the whole log: each reason holds exactly when no earlier one does and some
      accepted delivery with the key (for the storm cap, the number of recent ones) gives it. */
  lemma GateRefusesExactly(tr: Trigger, log: seq<Delivery>, alert: string, key: string, now: int, force: bool)
    ensures var status := GateOf(tr, log, alert, key, now, force);
            var open := Unblocked(tr, alert) && !force;
            var soon := exists i :: 0 <= i < |log| && AcceptedWith(log[i], key) && TooSoon(tr, now, log[i]);
            var again := exists i :: 0 <= i < |log| && AcceptedWith(log[i], key) && Repeats(tr, now, log[i]);
            && (status == Skipped <==> !Unblocked(tr, alert))
            && (status == CoolingDown <==> open && soon)
            && (status == Deduped <==> open && !soon && again)
            && (status == Storm <==> open && !soon && !again
                                     && tr.stormCapPerHour > 0 && CountSince(log, now - HOUR) >= tr.stormCapPerHour)
            && status != Rejected && status != Failed
  {
    hide LastAcceptedAt, CountSince, Cooldown;
    LastIsNewest(log, key);
  }

  // ---------------------------------------------------------------- main results

  /** Two accepted deliveries with one key, the later unforced, are far apart; for Grafana there are no two. */
  lemma {:induction false} AcceptedAreApart(tr: Trigger, events: seq<Inbound>, i: nat, j: nat)
    requires i < j < |events| && !events[j].force
    requires LogOf(tr, events)[i].status == Accepted && LogOf(tr, events)[j].status == Accepted
    requires LogOf(tr, events)[i].key == LogOf(tr, events)[j].key
    ensures tr.kind != Grafana
    ensures events[j].now - events[i].now >= Cooldown(tr)
    ensures events[j].now - events[i].now >= 24 * 3600 * 1_000_000_000
    ensures 0 <= tr.cooldownS * 1_000_000_000 <= MAX_INT64 ==>
              events[j].now - events[i].now >= tr.cooldownS * 1_000_000_000
  {
    hide GateOf, Cooldown;
    RowAt(tr, events, i);
    RowAt(tr, events, j);
    var log := LogOf(tr, events)[..j];
    GatePassesExactly(tr, log, events[j].alert.value, events[j].key.value, events[j].now, false);
    assert AcceptedWith(log[i], events[j].key.value);
    CooldownIs(tr);
  }

  lemma CooldownIs(tr: Trigger)
    ensures 0 <= tr.cooldownS * 1_000_000_000 <= MAX_INT64 ==> Cooldown(tr) == tr.cooldownS * 1_000_000_000
  {}

  /** An accepted delivery nobody forced, inside the closed hour that starts at from. */
  predicate InWindow(e: Inbound, d: Delivery, from: int) {
    d.status == Accepted && !e.force && from <= e.now <= from + 3600 * 1_000_000_000
  }

  function CountInWindow(events: seq<Inbound>, log: seq<Delivery>, from: int): nat
    requires |log| == |events|
  {
    if events == [] then 0
    else
      var n := |events| - 1;
      CountInWindow(events[..n], log[..n], from) + (if InWindow(events[n], log[n], from) then 1 else 0)
  }

  /** Seen from inside the window, the deliveries counted in it so far are among those the storm cap counts. */
  lemma {:induction false} WindowIsCounted(tr: Trigger, events: seq<Inbound>, from: int, now: int)
    requires from <= now <= from + 3600 * 1_000_000_000
    ensures CountInWindow(events, LogOf(tr, events), from) <= CountSince(LogOf(tr, events), now - HOUR)
  {
    if events != [] {
      var n := |events| - 1;
      WindowIsCounted(tr, events[..n], from, now);
      RowAt(tr, events, n);
      RowTime(tr, LogOf(tr, events)[..n], events[n]);
    }
  }

  lemma RowTime(tr: Trigger, log: seq<Delivery>, e: Inbound)
    ensures RowOf(tr, log, e).receivedAt == e.now
    ensures RowOf(tr, log, e).status == Accepted && !e.force && tr.stormCapPerHour > 0 ==>
              CountSince(log, e.now - HOUR) < tr.stormCapPerHour
  {}

  /** Over every history, no closed hour holds more unforced accepted deliveries than the storm cap. */
  lemma {:induction false} StormCapHolds(tr: Trigger, events: seq<Inbound>, from: int)
    requires tr.stormCapPerHour > 0
    ensures CountInWindow(events, LogOf(tr, events), from) <= tr.stormCapPerHour
  {
    if events != [] {
      var n := |events| - 1;
      StormCapHolds(tr, events[..n], from);
      RowAt(tr, events, n);
      RowTime(tr, LogOf(tr, events)[..n], events[n]);
      if InWindow(events[n], LogOf(tr, events)[n], from) {
        WindowIsCounted(tr, events[..n], from, events[n].now);
      }
    }
  }

  // ---------------------------------------------------------------- what one delivery leaves in the log

  /** A payload nobody can read is rejected and one without a key has failed, both without a key; any other row carries
      its key, and is accepted exactly when the gate lets it pass and a run starts for it. One that passes without a run
      has failed; any other keeps the gate's reason. */
  lemma RowExactly(tr: Trigger, log: seq<Delivery>, e: Inbound)
    ensures var row := RowOf(tr, log, e);
            && row.receivedAt == e.now
            && (e.alert == None ==> row.status == Rejected && row.key == "")
            && (e.alert != None && e.key == None ==> row.status == Failed && row.key == "")
            && (e.alert != None && e.key != None ==>
                  var gate := GateOf(tr, log, e.alert.value, e.key.value, e.now, e.force);
                  && row.key == e.key.value
                  && (row.status == Accepted <==> gate == Accepted && e.starts)
                  && (row.status == Failed <==> gate == Accepted && !e.starts)
                  && (gate != Accepted ==> row.status == gate && gate != Rejected))
  {}

  /** Over every history: row i says so about delivery i, judged by the rows before it. */
  lemma LogExactly(tr: Trigger, events: seq<Inbound>, i: nat)
    requires i < |events|
    ensures var e, row, before := events[i], LogOf(tr, events)[i], LogOf(tr, events)[..i];
            && row.receivedAt == e.now
            && (row.status == Rejected <==> e.alert == None)
            && (e.alert != None && e.key != None ==>
                  var gate := GateOf(tr, before, e.alert.value, e.key.value, e.now, e.force);
                  && row.key == e.key.value
                  && (row.status == Accepted <==> gate == Accepted && e.starts)
                  && (row.status == Failed <==> gate == Accepted && !e.starts)
                  && (gate != Accepted ==> row.status == gate))
            && (e.alert == None || e.key == None ==> row.key == "" && (e.alert != None ==> row.status == Failed))
  {
    hide RowOf, GateOf, LogOf;
    RowAt(tr, events, i);
    RowExactly(tr, LogOf(tr, events)[..i], events[i]);
  }

  /** The accepted rows received at or after the instant. */
  function RecentlyAccepted(log: seq<Delivery>, since: int): set<int> {
    set i | 0 <= i < |log| && log[i].status == Accepted && log[i].receivedAt >= since
  }

  lemma OneMoreRow(log: seq<Delivery>, since: int)
    requires log != []
    ensures var n := |log| - 1;
            && n !in RecentlyAccepted(log[..n], since)
            && RecentlyAccepted(log, since) ==
               if AcceptedSince(log[n], since) then RecentlyAccepted(log[..n], since) + {n}
               else RecentlyAccepted(log[..n], since)
  {}

  /** The storm cap counts those rows, each once. */
  lemma {:induction false} CountIsCardinality(log: seq<Delivery>, since: int)
    ensures CountSince(log, since) == |RecentlyAccepted(log, since)|
  {
    if log != [] {
      OneMoreRow(log, since);
      CountIsCardinality(log[..|log| - 1], since);
      hide RecentlyAccepted, AcceptedSince;
    }
  }
}
