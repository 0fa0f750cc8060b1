/** The step-run table of one pipeline run: rows in insertion order, addressed by position.
    Rows are only ever inserted and updated, so a row's position is its identity. */
module StepRows {
  import opened Wrappers
  import opened Definitions

  datatype StepState = Pending | Running | Success | Failed | Skipped | Cancelled {
    /** An end state for a step run. */
    predicate Terminal() { !Pending? && !Running? }

    /** Ended badly: the node cannot succeed through this attempt any more. */
    predicate Bad() { Failed? || Skipped? || Cancelled? }
  }

  /** A run is identified by the step run it was started for and the call that started it
      (one call starts a step run at most once). */
  datatype RunId = RunId(row: nat, serial: nat)

  datatype StepRun = StepRun(
    stepID: string,
    index: nat,
    item: string,
    runID: Option<RunId>,
    attempt: int,
    state: StepState,
    report: string)

  datatype NodeState = Absent | Busy | Succeeded | NodeFailed

  predicate SameSlot(a: StepRun, b: StepRun) {
    a.stepID == b.stepID && a.index == b.index
  }

  predicate SameItem(a: StepRun, b: StepRun) { SameSlot(a, b) && a.item == b.item }

  /** Row i is the newest attempt of its slot: highest attempt, and the later row on a tie. */
  ghost predicate Newest(rows: seq<StepRun>, i: int) {
    && 0 <= i < |rows|
    && forall j :: 0 <= j < |rows| && SameSlot(rows[j], rows[i]) ==>
         rows[j].attempt < rows[i].attempt || (rows[j].attempt == rows[i].attempt && j <= i)
  }

  ghost predicate NewestOf(rows: seq<StepRun>, id: string, i: int) {
    Newest(rows, i) && rows[i].stepID == id
  }

  /** What the graph knows about one node, from the newest attempt of each of its slots. */
  ghost function StateOf(rows: seq<StepRun>, id: string): NodeState {
    if exists i :: NewestOf(rows, id, i) && rows[i].state.Bad() then NodeFailed
    else if exists i :: NewestOf(rows, id, i) && !rows[i].state.Terminal() then Busy
    else if exists i :: NewestOf(rows, id, i) then Succeeded
    else Absent
  }

  ghost predicate DepsSucceeded(rows: seq<StepRun>, step: Step) {
    forall n :: 0 <= n < |step.needs| ==> StateOf(rows, step.needs[n]) == Succeeded
  }

  /** Every slot that has rows has a newest one. */
  lemma {:induction false} NewestExists(rows: seq<StepRun>, i: nat) returns (k: nat)
    requires i < |rows|
    ensures Newest(rows, k) && SameSlot(rows[k], rows[i])
    decreases |rows|
  {
    var n := |rows| - 1;
    var front := rows[..n];
    if i < n {
      k := NewestExists(front, i);
      if SameSlot(rows[n], rows[i]) && rows[n].attempt >= rows[k].attempt {
        k := n;
      }
    } else if j :| 0 <= j < n && SameSlot(rows[j], rows[n]) {
      k := NewestExists(front, j);
      if rows[n].attempt >= rows[k].attempt {
        k := n;
      }
    } else {
      k := n;
    }
  }

  lemma AbsentHasNoRows(rows: seq<StepRun>, id: string)
    ensures StateOf(rows, id) == Absent <==> forall i :: 0 <= i < |rows| ==> rows[i].stepID != id
  {
    if i :| 0 <= i < |rows| && rows[i].stepID == id {
      var k := NewestExists(rows, i);
      assert NewestOf(rows, id, k);
    }
  }

  lemma SucceededMeans(rows: seq<StepRun>, id: string)
    ensures StateOf(rows, id) == Succeeded <==>
            (exists i :: NewestOf(rows, id, i)) &&
            (forall i :: NewestOf(rows, id, i) ==> rows[i].state == Success)
  {}

  // ---------------------------------------------------------------- frames

  /** The fields of a row no update ever changes. */
  predicate SameKey(a: StepRun, b: StepRun) {
    SameSlot(a, b) && a.attempt == b.attempt && a.item == b.item
  }

  /** rows' differs from rows in rows of node id only. */
  ghost predicate TouchesOnly(rows: seq<StepRun>, rows': seq<StepRun>, id: string) {
    && |rows| <= |rows'|
    && (forall i :: 0 <= i < |rows| ==> SameKey(rows[i], rows'[i]))
    && (forall i :: 0 <= i < |rows| && rows[i].stepID != id ==> rows'[i] == rows[i])
    && (forall i :: |rows| <= i < |rows'| ==> rows'[i].stepID == id)
  }

  /** Node id has exactly the same rows in both tables. */
  ghost predicate Untouched(rows: seq<StepRun>, rows': seq<StepRun>, id: string) {
    && |rows| <= |rows'|
    && (forall i :: 0 <= i < |rows| && rows[i].stepID == id ==> rows'[i] == rows[i])
    && (forall i :: 0 <= i < |rows'| && rows'[i].stepID == id ==> i < |rows| && rows[i].stepID == id)
  }

  /** Every node that had succeeded keeps its rows exactly as they were. */
  ghost predicate KeepsDone(rows: seq<StepRun>, rows': seq<StepRun>) {
    && |rows| <= |rows'|
    && (forall i :: 0 <= i < |rows| ==> SameKey(rows[i], rows'[i]))
    && forall id :: StateOf(rows, id) == Succeeded ==> Untouched(rows, rows', id)
  }

  lemma UntouchedNewest(rows: seq<StepRun>, rows': seq<StepRun>, id: string)
    requires Untouched(rows, rows', id)
    ensures forall i :: NewestOf(rows, id, i) <==> NewestOf(rows', id, i)
    ensures StateOf(rows, id) == StateOf(rows', id)
  {
    forall i ensures NewestOf(rows, id, i) <==> NewestOf(rows', id, i) {
      if NewestOf(rows, id, i) {
        assert rows'[i] == rows[i];
        forall j | 0 <= j < |rows'| && SameSlot(rows'[j], rows'[i])
          ensures rows'[j].attempt < rows'[i].attempt || (rows'[j].attempt == rows'[i].attempt && j <= i)
        {
          assert rows'[j].stepID == id && rows'[j] == rows[j];
        }
      }
      if NewestOf(rows', id, i) {
        assert rows'[i] == rows[i];
        forall j | 0 <= j < |rows| && SameSlot(rows[j], rows[i])
          ensures rows[j].attempt < rows[i].attempt || (rows[j].attempt == rows[i].attempt && j <= i)
        {
          assert rows'[j] == rows[j];
        }
      }
    }
    forall i | NewestOf(rows, id, i) ensures rows[i] == rows'[i] {}
  }

  lemma TouchesOnlyLeaves(rows: seq<StepRun>, rows': seq<StepRun>, id: string, other: string)
    requires TouchesOnly(rows, rows', id) && other != id
    ensures Untouched(rows, rows', other)
    ensures StateOf(rows, other) == StateOf(rows', other)
    ensures forall i :: NewestOf(rows, other, i) <==> NewestOf(rows', other, i)
  {
    assert Untouched(rows, rows', other);
    UntouchedNewest(rows, rows', other);
  }

  lemma KeepsDoneStates(rows: seq<StepRun>, rows': seq<StepRun>)
    requires KeepsDone(rows, rows')
    ensures forall id :: StateOf(rows, id) == Succeeded ==> StateOf(rows', id) == Succeeded
  {
    forall id | StateOf(rows, id) == Succeeded ensures StateOf(rows', id) == Succeeded {
      UntouchedNewest(rows, rows', id);
    }
  }

  lemma KeepsDoneTrans(a: seq<StepRun>, b: seq<StepRun>, c: seq<StepRun>)
    requires KeepsDone(a, b) && KeepsDone(b, c)
    ensures KeepsDone(a, c)
  {
    KeepsDoneStates(a, b);
    forall id | StateOf(a, id) == Succeeded ensures Untouched(a, c, id) {
      assert Untouched(a, b, id) && Untouched(b, c, id);
    }
  }

  /** Updates that keep every key keep who is newest. */
  lemma SameKeysNewest(rows: seq<StepRun>, rows': seq<StepRun>)
    requires |rows| == |rows'|
    requires forall i :: 0 <= i < |rows| ==> SameKey(rows[i], rows'[i])
    ensures forall i :: Newest(rows, i) <==> Newest(rows', i)
  {
    forall i ensures Newest(rows, i) <==> Newest(rows', i) {
      if Newest(rows, i) {
        forall j | 0 <= j < |rows'| && SameSlot(rows'[j], rows'[i])
          ensures rows'[j].attempt < rows'[i].attempt || (rows'[j].attempt == rows'[i].attempt && j <= i)
        { assert SameSlot(rows[j], rows[i]); }
      }
      if Newest(rows', i) {
        forall j | 0 <= j < |rows| && SameSlot(rows[j], rows[i])
          ensures rows[j].attempt < rows[i].attempt || (rows[j].attempt == rows[i].attempt && j <= i)
        { assert SameSlot(rows'[j], rows'[i]); }
      }
    }
  }
}
