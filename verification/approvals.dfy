/** Approval rows: the guarded statements that decide who wins a race to answer a permission request. */
module Approvals {
  type ApprovalId = string

  datatype Verdict = Pending | Allowed | Denied | Expired

  /** The columns a decision depends on. createdAt is a count of time units. */
  datatype Approval = Approval(session: string, request: string, verdict: Verdict, createdAt: int)

  datatype Decision = Recorded | Conflict | NotFound

  type Rows = map<ApprovalId, Approval>

  predicate IsPending(rows: Rows, id: ApprovalId) { id in rows && rows[id].verdict == Pending }

  function Decided(rows: Rows, id: ApprovalId, verdict: Verdict): Rows {
    if IsPending(rows, id) then rows[id := rows[id].(verdict := verdict)] else rows
  }

  function Swept(rows: Rows, before: int): Rows {
    map id | id in rows ::
      if rows[id].verdict == Pending && rows[id].createdAt < before then rows[id].(verdict := Expired) else rows[id]
  }

  /** The approvals among ids that a sweep expires. */
  ghost function Due(rows: Rows, ids: set<ApprovalId>, before: int): set<ApprovalId> {
    set id | id in ids && IsPending(rows, id) && rows[id].createdAt < before
  }

  ghost function SweptBut(rows: Rows, rest: set<ApprovalId>, before: int): Rows {
    map id | id in rows :: if id in rest then rows[id] else Swept(rows, before)[id]
  }

  lemma DueGrows(rows: Rows, rest: set<ApprovalId>, id: ApprovalId, before: int)
    requires rest <= rows.Keys && id in rest
    ensures Due(rows, rows.Keys - (rest - {id}), before) ==
            Due(rows, rows.Keys - rest, before) + (if id in Due(rows, {id}, before) then {id} else {})
    ensures id !in Due(rows, rows.Keys - rest, before)
    ensures SweptBut(rows, rest - {id}, before) == SweptBut(rows, rest, before)[id := Swept(rows, before)[id]]
  {}

  class Table {
    var rows: map<ApprovalId, Approval>

    constructor ()
      ensures rows == map[]
    {
      rows := map[];
    }

    /** Fails, and changes nothing, when the id is taken. */
    method Create(id: ApprovalId, approval: Approval) returns (ok: bool)
      modifies this
      ensures ok <==> id !in old(rows)
      ensures rows == if ok then old(rows)[id := approval] else old(rows)
    {
      ok := id !in rows;
      if ok {
        rows := rows[id := approval];
      }
    }

    /** Updates the row only while it is pending; when none was updated, tells a lost race from a bad id. */
    method Decide(id: ApprovalId, verdict: Verdict) returns (decision: Decision)
      modifies this
      ensures decision == NotFound <==> id !in old(rows)
      ensures decision == Conflict <==> id in old(rows) && old(rows)[id].verdict != Pending
      ensures decision == Recorded <==> id in old(rows) && old(rows)[id].verdict == Pending
      ensures rows == if decision == Recorded then old(rows)[id := old(rows)[id].(verdict := verdict)] else old(rows)
      ensures rows == Decided(old(rows), id, verdict)
    {
      var affected := 0;
      if id in rows && rows[id].verdict == Pending {
        rows := rows[id := rows[id].(verdict := verdict)];
        affected := 1;
      }
      if affected == 0 {
        return if id in rows then Conflict else NotFound;
      }
      decision := Recorded;
    }

    /** Expires every pending approval created before t, and counts them. */
    method ExpireBefore(t: int) returns (n: nat)
      modifies this
      ensures rows.Keys == old(rows).Keys && rows == Swept(old(rows), t)
      ensures forall id :: id in old(rows) && old(rows)[id].verdict == Pending && old(rows)[id].createdAt < t ==>
                rows[id] == old(rows)[id].(verdict := Expired)
      ensures forall id :: id in old(rows) && (old(rows)[id].verdict != Pending || t <= old(rows)[id].createdAt) ==>
                rows[id] == old(rows)[id]
      ensures n == |set id | id in old(rows) && rows[id] != old(rows)[id]|
    {
      n := 0;
      var rest := rows.Keys;
      ghost var before := rows;
      while rest != {}
        invariant rest <= before.Keys && rows == SweptBut(before, rest, t) && n == |Due(before, before.Keys - rest, t)|
      {
        var id :| id in rest;
        DueGrows(before, rest, id, t);
        rest := rest - {id};
        if rows[id].verdict == Pending && rows[id].createdAt < t {
          rows := rows[id := rows[id].(verdict := Expired)];
          n := n + 1;
        }
      }
      assert before.Keys - rest == before.Keys;
      assert Due(before, before.Keys, t) == set id | id in before && rows[id] != before[id];
    }
  }
}
