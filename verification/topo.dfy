/** The levelled sort over the needs graph: Kahn's algorithm with counters, level by level. */
module Topo {
  import opened Definitions
  import opened NeedsGraph

  // ---------------------------------------------------------------- counting needs

  /** How often id appears in needs. */
  function CountOf(needs: seq<string>, id: string): nat {
    if needs == [] then 0 else CountOf(needs[..|needs| - 1], id) + (if needs[|needs| - 1] == id then 1 else 0)
  }

  /** How many entries of needs are known steps that are not processed yet, repeats included. */
  function Unmet(needs: seq<string>, known: set<string>, processed: set<string>): nat {
    if needs == [] then 0
    else
      var need := needs[|needs| - 1];
      Unmet(needs[..|needs| - 1], known, processed) + (if need in known && need !in processed then 1 else 0)
  }

  lemma {:induction false} UnmetZero(needs: seq<string>, known: set<string>, processed: set<string>)
    ensures Unmet(needs, known, processed) == 0 <==> forall need :: need in needs && need in known ==> need in processed
  {
    if needs != [] {
      var front, last := needs[..|needs| - 1], needs[|needs| - 1];
      UnmetZero(front, known, processed);
      assert needs == front + [last];
    }
  }

  lemma {:induction false} UnmetProcess(needs: seq<string>, known: set<string>, processed: set<string>, id: string)
    requires id in known && id !in processed
    ensures Unmet(needs, known, processed) == Unmet(needs, known, processed + {id}) + CountOf(needs, id)
  {
    if needs != [] { UnmetProcess(needs[..|needs| - 1], known, processed, id); }
  }

  lemma CountAppend(xs: seq<string>, x: string, id: string)
    ensures CountOf(xs + [x], id) == CountOf(xs, id) + (if x == id then 1 else 0)
  {
    assert (xs + [x])[..|xs|] == xs;
  }

  lemma CountNext(xs: seq<string>, m: nat, id: string)
    requires m < |xs|
    ensures CountOf(xs[..m + 1], id) == CountOf(xs[..m], id) + (if xs[m] == id then 1 else 0)
  {
    assert xs[..m + 1][..m] == xs[..m];
  }

  lemma {:induction false} CountPrefix(xs: seq<string>, m: nat, id: string)
    requires m <= |xs|
    ensures CountOf(xs[..m], id) <= CountOf(xs, id)
    ensures m < |xs| && xs[m] == id ==> CountOf(xs[..m], id) < CountOf(xs, id)
    decreases |xs| - m
  {
    if m < |xs| {
      CountNext(xs, m, id);
      CountPrefix(xs, m + 1, id);
    } else {
      assert xs[..m] == xs;
    }
  }

  lemma UnmetNext(needs: seq<string>, m: nat, known: set<string>, processed: set<string>)
    requires m < |needs|
    ensures Unmet(needs[..m + 1], known, processed) ==
              Unmet(needs[..m], known, processed) + (if needs[m] in known && needs[m] !in processed then 1 else 0)
  {
    assert needs[..m + 1][..m] == needs[..m];
  }

  // ---------------------------------------------------------------- the pieces of the algorithm

  /** The index names every id's first step. */
  ghost predicate Indexed(steps: seq<Step>, idIndex: map<string, nat>) {
    idIndex.Keys == Ids(steps) && forall id :: id in idIndex ==> idIndex[id] == IndexOf(steps, id)
  }

  /** Which step first carries each id. */
  method FirstIndexes(steps: seq<Step>) returns (idIndex: map<string, nat>)
    ensures Indexed(steps, idIndex)
  {
    idIndex := map[];
    var i := 0;
    while i < |steps|
      invariant i <= |steps|
      invariant forall id :: id in idIndex <==> exists j :: 0 <= j < i && steps[j].id == id && id != ""
      invariant forall id :: id in idIndex ==>
          idIndex[id] < i && IsFirst(steps, idIndex[id]) && steps[idIndex[id]].id == id
    {
      if steps[i].id != "" && steps[i].id !in idIndex {
        idIndex := idIndex[steps[i].id := i];
      }
      i := i + 1;
    }
    forall id | id in idIndex ensures id in Ids(steps) && idIndex[id] == IndexOf(steps, id) {
      IndexUnique(steps, idIndex[id]);
    }
    forall id | id in Ids(steps) ensures id in idIndex {
      var j := IndexOf(steps, id);
    }
  }

  /** Sorts distinct ids by their first step. Any sort by that key gives this sequence. */
  method SortIds(steps: seq<Step>, idIndex: map<string, nat>, ids: seq<string>) returns (sorted: seq<string>)
    requires Indexed(steps, idIndex)
    requires forall id :: id in ids ==> id in Ids(steps)
    ensures sorted == InOrder(steps, set id | id in ids, |steps|)
  {
    ghost var S := set id | id in ids;
    sorted := [];
    var i := 0;
    while i < |steps|
      invariant i <= |steps| && sorted == InOrder(steps, S, i)
    {
      var id := steps[i].id;
      if id in idIndex && idIndex[id] == i && id in ids {
        sorted := sorted + [id];
      } else if IsFirst(steps, i) {
        IndexUnique(steps, i);
      }
      i := i + 1;
    }
  }

  function Get(m: map<string, seq<string>>, id: string): seq<string> {
    if id in m then m[id] else []
  }

  /** The counters after the first steps: one per known need, once for each time it is named. */
  ghost predicate Counted(steps: seq<Step>, n: nat, id: string, indegree: map<string, int>, dependents: map<string,
      seq<string>>)
    requires id in Ids(steps)
  {
    && id in indegree
    && indegree[id] == (if IndexOf(steps, id) < n then Unmet(NeedsOf(steps, id), Ids(steps), {}) else 0)
    && forall need :: need in Ids(steps) ==>
         CountOf(Get(dependents, need), id) == (if IndexOf(steps, id) < n then CountOf(NeedsOf(steps, id), need) else 0)
  }

  ghost predicate DependentsKnown(steps: seq<Step>, dependents: map<string, seq<string>>) {
    forall need, x :: x in Get(dependents, need) ==> x in Ids(steps)
  }

  /** While step i is being read: its first m needs are counted, every other id is as at step n. */
  ghost predicate Counting(steps: seq<Step>, i: nat, m: nat, id: string, indegree: map<string, int>,
      dependents: map<string, seq<string>>)
    requires id in Ids(steps) && i < |steps| && m <= |steps[i].needs|
  {
    if IndexOf(steps, id) != i then Counted(steps, i, id, indegree, dependents)
    else
      && id in indegree
      && indegree[id] == Unmet(steps[i].needs[..m], Ids(steps), {})
      && forall need :: need in Ids(steps) ==>
           CountOf(Get(dependents, need), id) == CountOf(steps[i].needs[..m], need)
  }

  lemma NeedCount(needs: seq<string>, m: nat, dependents: map<string, seq<string>>, x: string, y: string)
    requires m < |needs| && CountOf(Get(dependents, y), x) == CountOf(needs[..m], y)
    ensures CountOf(Get(dependents[needs[m] := Get(dependents, needs[m]) + [x]], y), x) == CountOf(needs[..m + 1], y)
  {
    hide CountOf;
    CountNext(needs, m, y);
    CountAppend(Get(dependents, needs[m]), x, x);
  }

  lemma NeedCounts(needs: seq<string>, m: nat, known: set<string>, dependents: map<string, seq<string>>, x: string)
    requires m < |needs|
    requires forall y :: y in known ==> CountOf(Get(dependents, y), x) == CountOf(needs[..m], y)
    ensures forall y :: y in known ==>
              CountOf(Get(dependents[needs[m] := Get(dependents, needs[m]) + [x]], y), x) == CountOf(needs[..m + 1], y)
  {
    hide CountOf, Get;
    forall y | y in known
      ensures CountOf(Get(dependents[needs[m] := Get(dependents, needs[m]) + [x]], y), x) == CountOf(needs[..m + 1], y)
    {
      NeedCount(needs, m, dependents, x, y);
    }
  }

  lemma OtherCounts(dependents: map<string, seq<string>>, need: string, x: string, id: string)
    requires id != x
    ensures forall y ::
              CountOf(Get(dependents[need := Get(dependents, need) + [x]], y), id) == CountOf(Get(dependents, y), id)
  {
    CountAppend(Get(dependents, need), x, id);
  }

  lemma UnknownCounts(needs: seq<string>, m: nat, known: set<string>)
    requires m < |needs| && needs[m] !in known
    ensures forall y :: y in known ==> CountOf(needs[..m + 1], y) == CountOf(needs[..m], y)
  {
    forall y | y in known ensures CountOf(needs[..m + 1], y) == CountOf(needs[..m], y) {
      CountNext(needs, m, y);
    }
  }

  lemma CountingNeed(steps: seq<Step>, i: nat, m: nat, id: string, indegree: map<string, int>, dependents: map<string,
      seq<string>>)
    requires i < |steps| && IsFirst(steps, i) && m < |steps[i].needs| && id in Ids(steps)
    requires Counting(steps, i, m, id, indegree, dependents) && steps[i].id in indegree
    ensures var need, x := steps[i].needs[m], steps[i].id;
            if need in Ids(steps)
            then Counting(steps, i, m + 1, id, indegree[x := indegree[x] + 1],
                          dependents[need := Get(dependents, need) + [x]])
            else Counting(steps, i, m + 1, id, indegree, dependents)
  {
    hide Ids, CountOf, Get, Unmet, IsFirst;
    var needs, x := steps[i].needs, steps[i].id;
    IndexUnique(steps, i);
    UnmetNext(needs, m, Ids(steps), {});
    if id == x {
      if needs[m] in Ids(steps) {
        NeedCounts(needs, m, Ids(steps), dependents, x);
      } else {
        UnknownCounts(needs, m, Ids(steps));
      }
    } else {
      IndexApart(steps, i, id);
      OtherCounts(dependents, needs[m], x, id);
    }
  }

  lemma IndexApart(steps: seq<Step>, i: nat, id: string)
    requires i < |steps| && id in Ids(steps) && id != steps[i].id
    ensures IndexOf(steps, id) != i
  {}

  lemma CountingDone(steps: seq<Step>, i: nat, id: string, indegree: map<string, int>, dependents: map<string,
      seq<string>>)
    requires i < |steps| && id in Ids(steps)
    requires Counting(steps, i, |steps[i].needs|, id, indegree, dependents)
    ensures Counted(steps, i + 1, id, indegree, dependents)
  {
    assert steps[i].needs[..|steps[i].needs|] == steps[i].needs;
  }

  lemma CountingBegin(steps: seq<Step>, i: nat, id: string, indegree: map<string, int>, dependents: map<string,
      seq<string>>)
    requires i < |steps| && id in Ids(steps) && Counted(steps, i, id, indegree, dependents)
    ensures Counting(steps, i, 0, id, indegree, dependents)
  {
    assert steps[i].needs[..0] == [];
  }

  /** A step that is not the first of its id adds nothing. */
  lemma CountedSkip(steps: seq<Step>, i: nat, id: string, indegree: map<string, int>, dependents: map<string,
      seq<string>>)
    requires i < |steps| && !IsFirst(steps, i) && id in Ids(steps) && Counted(steps, i, id, indegree, dependents)
    ensures Counted(steps, i + 1, id, indegree, dependents)
  {}

  ghost predicate AllCounted(steps: seq<Step>, n: nat, indegree: map<string, int>, dependents: map<string,
      seq<string>>) {
    && (forall id :: id in Ids(steps) ==> Counted(steps, n, id, indegree, dependents))
    && DependentsKnown(steps, dependents)
  }

  ghost predicate AllCounting(steps: seq<Step>, i: nat, m: nat, indegree: map<string, int>, dependents: map<string,
      seq<string>>)
    requires i < |steps| && m <= |steps[i].needs|
  {
    && (forall id :: id in Ids(steps) ==> Counting(steps, i, m, id, indegree, dependents))
    && DependentsKnown(steps, dependents)
    && (IsFirst(steps, i) ==> steps[i].id in Ids(steps) && steps[i].id in indegree)
  }

  lemma IndexedKey(steps: seq<Step>, idIndex: map<string, nat>, id: string)
    requires Indexed(steps, idIndex)
    ensures id in idIndex <==> id in Ids(steps)
  {}

  lemma AllStart(steps: seq<Step>, idIndex: map<string, nat>)
    requires Indexed(steps, idIndex)
    ensures AllCounted(steps, 0, map id | id in idIndex :: 0, map[])
  {}

  lemma AllBegin(steps: seq<Step>, i: nat, indegree: map<string, int>, dependents: map<string, seq<string>>)
    requires i < |steps| && AllCounted(steps, i, indegree, dependents)
    ensures !IsFirst(steps, i) ==> AllCounted(steps, i + 1, indegree, dependents)
    ensures AllCounting(steps, i, 0, indegree, dependents)
  {
    hide Ids, Counted, Counting, IsFirst;
    if IsFirst(steps, i) {
      IndexUnique(steps, i);
      CountedKnows(steps, i, steps[i].id, indegree, dependents);
    }
    forall id | id in Ids(steps)
      ensures Counting(steps, i, 0, id, indegree, dependents)
      ensures !IsFirst(steps, i) ==> Counted(steps, i + 1, id, indegree, dependents)
    {
      CountingBegin(steps, i, id, indegree, dependents);
      if !IsFirst(steps, i) { CountedSkip(steps, i, id, indegree, dependents); }
    }
  }

  lemma CountedKnows(steps: seq<Step>, n: nat, id: string, indegree: map<string, int>, dependents: map<string,
      seq<string>>)
    requires id in Ids(steps) && Counted(steps, n, id, indegree, dependents)
    ensures id in indegree
  {}

  lemma KnownAppend(steps: seq<Step>, dependents: map<string, seq<string>>, need: string, x: string)
    requires DependentsKnown(steps, dependents) && x in Ids(steps)
    ensures DependentsKnown(steps, dependents[need := Get(dependents, need) + [x]])
  {
    var more := dependents[need := Get(dependents, need) + [x]];
    forall n, y | y in Get(more, n) ensures y in Ids(steps) {
      if n == need && y != x { assert y in Get(dependents, need); }
      if n != need { assert y in Get(dependents, n); }
    }
  }

  lemma AllNeed(steps: seq<Step>, i: nat, m: nat, indegree: map<string, int>, dependents: map<string, seq<string>>)
    requires IsFirst(steps, i) && m < |steps[i].needs| && AllCounting(steps, i, m, indegree, dependents)
    ensures steps[i].id in indegree
    ensures var need, x := steps[i].needs[m], steps[i].id;
            if need in Ids(steps)
            then AllCounting(steps, i, m + 1, indegree[x := indegree[x] + 1],
                             dependents[need := Get(dependents, need) + [x]])
            else AllCounting(steps, i, m + 1, indegree, dependents)
  {
    hide Ids, Counting;
    var need, x := steps[i].needs[m], steps[i].id;
    KnownAppend(steps, dependents, need, x);
    if need in Ids(steps) {
      var indegree', dependents' := indegree[x := indegree[x] + 1], dependents[need := Get(dependents, need) + [x]];
      forall id | id in Ids(steps) ensures Counting(steps, i, m + 1, id, indegree', dependents') {
        CountingNeed(steps, i, m, id, indegree, dependents);
      }
    } else {
      forall id | id in Ids(steps) ensures Counting(steps, i, m + 1, id, indegree, dependents) {
        CountingNeed(steps, i, m, id, indegree, dependents);
      }
    }
  }

  lemma AllDone(steps: seq<Step>, i: nat, indegree: map<string, int>, dependents: map<string, seq<string>>)
    requires i < |steps| && AllCounting(steps, i, |steps[i].needs|, indegree, dependents)
    ensures AllCounted(steps, i + 1, indegree, dependents)
  {
    hide Ids, Counting, Counted;
    forall id | id in Ids(steps) ensures Counted(steps, i + 1, id, indegree, dependents) {
      CountingDone(steps, i, id, indegree, dependents);
    }
  }

  /** Builds the need counters and the reverse edges. */
  method CountNeeds(steps: seq<Step>, idIndex: map<string, nat>)
    returns (indegree: map<string, int>, dependents: map<string, seq<string>>)
    requires Indexed(steps, idIndex)
    ensures AllCounted(steps, |steps|, indegree, dependents)
  {
    hide AllCounted, AllCounting, Ids, IsFirst, Get, Indexed;
    indegree := map id | id in idIndex :: 0;
    dependents := map[];
    AllStart(steps, idIndex);
    var i := 0;
    while i < |steps|
      invariant i <= |steps| && AllCounted(steps, i, indegree, dependents)
    {
      var s := steps[i];
      FirstByIndex(steps, idIndex, i);
      AllBegin(steps, i, indegree, dependents);
      if s.id != "" && idIndex[s.id] == i {
        var m := 0;
        while m < |s.needs|
          invariant m <= |s.needs| && AllCounting(steps, i, m, indegree, dependents)
        {
          AllNeed(steps, i, m, indegree, dependents);
          var need := s.needs[m];
          IndexedKey(steps, idIndex, need);
          if need in idIndex {
            indegree := indegree[s.id := indegree[s.id] + 1];
            dependents := dependents[need := Get(dependents, need) + [s.id]];
          }
          m := m + 1;
        }
        AllDone(steps, i, indegree, dependents);
      }
      i := i + 1;
    }
  }

  lemma FirstByIndex(steps: seq<Step>, idIndex: map<string, nat>, i: nat)
    requires i < |steps|
    requires Indexed(steps, idIndex)
    ensures steps[i].id != "" ==> steps[i].id in idIndex
    ensures IsFirst(steps, i) <==> steps[i].id != "" && idIndex[steps[i].id] == i
  {
    if IsFirst(steps, i) { IndexUnique(steps, i); }
    if steps[i].id != "" { assert steps[i].id in Ids(steps); }
  }

  // ---------------------------------------------------------------- one round

  ghost function UnmetOf(steps: seq<Step>, id: string, processed: set<string>): nat
    requires id in Ids(steps)
  {
    Unmet(NeedsOf(steps, id), Ids(steps), processed)
  }

  lemma UnmetOfZero(steps: seq<Step>, id: string, processed: set<string>)
    requires id in Ids(steps)
    ensures UnmetOf(steps, id, processed) == 0 <==> id in Ready(steps, processed)
  {
    UnmetZero(NeedsOf(steps, id), Ids(steps), processed);
    if UnmetOf(steps, id, processed) == 0 {
      forall need | Edge(steps, id, need) ensures need in processed {}
    }
    if id in Ready(steps, processed) {
      forall need | need in NeedsOf(steps, id) && need in Ids(steps) ensures need in processed {
        assert Edge(steps, id, need);
      }
    }
  }

  lemma {:induction false} UnmetShrinks(needs: seq<string>, known: set<string>, p: set<string>, q: set<string>)
    requires p <= q
    ensures Unmet(needs, known, q) <= Unmet(needs, known, p)
  {
    if needs != [] { UnmetShrinks(needs[..|needs| - 1], known, p, q); }
  }

  /** The counters say how many needs of each id are still unprocessed. */
  ghost predicate Tally(steps: seq<Step>, processed: set<string>, indegree: map<string, int>) {
    forall x :: x in Ids(steps) ==> x in indegree && indegree[x] == UnmetOf(steps, x, processed)
  }

  ghost predicate ReverseOf(steps: seq<Step>, dependents: map<string, seq<string>>, x: string, y: string)
    requires x in Ids(steps)
  {
    CountOf(Get(dependents, y), x) == CountOf(NeedsOf(steps, x), y)
  }

  /** dependents lists every edge backwards, as often as it occurs. */
  ghost predicate Reversed(steps: seq<Step>, dependents: map<string, seq<string>>) {
    && DependentsKnown(steps, dependents)
    && forall x, y :: x in Ids(steps) && y in Ids(steps) ==> ReverseOf(steps, dependents, x, y)
  }

  lemma CountedAll(steps: seq<Step>, indegree: map<string, int>, dependents: map<string, seq<string>>)
    requires AllCounted(steps, |steps|, indegree, dependents)
    ensures Tally(steps, {}, indegree) && Reversed(steps, dependents)
  {
    hide Ids, CountOf, Get, Unmet;
    forall x | x in Ids(steps)
      ensures x in indegree && indegree[x] == UnmetOf(steps, x, {})
      ensures forall y :: y in Ids(steps) ==> ReverseOf(steps, dependents, x, y)
    {
      assert Counted(steps, |steps|, x, indegree, dependents);
    }
  }

  predicate NoDup(q: seq<string>) {
    forall k, l :: 0 <= k < l < |q| ==> q[k] != q[l]
  }

  /** The ids waiting in `next` are those whose last unmet need was processed in this round. */
  ghost predicate JustFreed(steps: seq<Step>, base: set<string>, indegree: map<string, int>, next: seq<string>) {
    && NoDup(next)
    && (forall x :: x in next ==> x in Ids(steps))
    && (forall x :: x in Ids(steps) ==> x in indegree)
    && (forall x :: x in Ids(steps) ==> (x in next <==> indegree[x] == 0 && UnmetOf(steps, x, base) > 0))
  }

  /** While the m first dependents of id are served. */
  ghost predicate Serving(steps: seq<Step>, processed: set<string>, deps: seq<string>, m: nat, indegree: map<string,
      int>) {
    && m <= |deps|
    && forall x :: x in Ids(steps) ==>
        x in indegree && indegree[x] == UnmetOf(steps, x, processed) - CountOf(deps[..m], x)
  }

  lemma ServeDependent(steps: seq<Step>, base: set<string>, processed: set<string>, id: string,
                       dependents: map<string, seq<string>>, m: nat, indegree: map<string, int>, next: seq<string>)
    requires base <= processed && id in Ids(steps) && id !in processed && Reversed(steps, dependents)
    requires m < |Get(dependents, id)|
    requires Serving(steps, processed, Get(dependents, id), m, indegree) && JustFreed(steps, base, indegree, next)
    ensures var dep := Get(dependents, id)[m];
            && dep in Ids(steps) && dep in indegree && indegree[dep] > 0 && dep !in next
            && Serving(steps, processed, Get(dependents, id), m + 1, indegree[dep := indegree[dep] - 1])
            && JustFreed(steps, base, indegree[dep := indegree[dep] - 1],
                         if indegree[dep] == 1 then next + [dep] else next)
  {
    var deps := Get(dependents, id);
    var dep := deps[m];
    assert dep in Ids(steps);
    DependentPending(steps, processed, id, dependents, m);
    UnmetShrinks(NeedsOf(steps, dep), Ids(steps), base, processed);
    ServeCounts(steps, processed, deps, m, indegree);
  }

  lemma ServeCounts(steps: seq<Step>, processed: set<string>, deps: seq<string>, m: nat, indegree: map<string, int>)
    requires m < |deps| && deps[m] in Ids(steps) && Serving(steps, processed, deps, m, indegree)
    ensures deps[m] in indegree
    ensures Serving(steps, processed, deps, m + 1, indegree[deps[m] := indegree[deps[m]] - 1])
  {
    hide Ids, CountOf;
    forall x | x in Ids(steps)
      ensures CountOf(deps[..m + 1], x) == CountOf(deps[..m], x) + (if deps[m] == x then 1 else 0)
    {
      CountNext(deps, m, x);
    }
  }

  /** A dependent not yet served still has an unmet need. */
  lemma DependentPending(steps: seq<Step>, processed: set<string>, id: string, dependents: map<string, seq<string>>,
      m: nat)
    requires id in Ids(steps) && id !in processed && Reversed(steps, dependents) && m < |Get(dependents, id)|
    ensures var deps := Get(dependents, id);
            deps[m] in Ids(steps) && UnmetOf(steps, deps[m], processed) > CountOf(deps[..m], deps[m])
  {
    var deps := Get(dependents, id);
    var dep := deps[m];
    assert dep in deps;
    CountPrefix(deps, m, dep);
    UnmetProcess(NeedsOf(steps, dep), Ids(steps), processed, id);
    assert ReverseOf(steps, dependents, dep, id);
  }

  lemma ServeBegin(steps: seq<Step>, processed: set<string>, deps: seq<string>, indegree: map<string, int>)
    requires Tally(steps, processed, indegree)
    ensures Serving(steps, processed, deps, 0, indegree)
  {
    assert deps[..0] == [];
  }

  lemma ServeEnd(steps: seq<Step>, processed: set<string>, id: string, dependents: map<string, seq<string>>,
      indegree: map<string, int>)
    requires id in Ids(steps) && id !in processed && Reversed(steps, dependents)
    requires Serving(steps, processed, Get(dependents, id), |Get(dependents, id)|, indegree)
    ensures Tally(steps, processed + {id}, indegree)
  {
    hide Ids, CountOf, Unmet, Get;
    var deps := Get(dependents, id);
    assert deps[..|deps|] == deps;
    forall x | x in Ids(steps) ensures x in indegree && indegree[x] == UnmetOf(steps, x, processed + {id}) {
      assert ReverseOf(steps, dependents, x, id);
      UnmetProcess(NeedsOf(steps, x), Ids(steps), processed, id);
    }
  }

  /** A queue holding exactly the next level, without repeats. */
  ghost predicate Queued(steps: seq<Step>, n: nat, queue: seq<string>) {
    NoDup(queue) && forall x :: x in queue <==> x in Level(steps, n)
  }

  ghost function Served(steps: seq<Step>, n: nat, queue: seq<string>, j: nat): set<string>
    requires j <= |queue|
  {
    Done(steps, n) + set x | x in queue[..j]
  }

  lemma ServedNext(steps: seq<Step>, n: nat, queue: seq<string>, j: nat)
    requires j < |queue| && Queued(steps, n, queue)
    ensures queue[j] in Ids(steps) && queue[j] !in Served(steps, n, queue, j)
    ensures Served(steps, n, queue, j + 1) == Served(steps, n, queue, j) + {queue[j]}
    ensures Done(steps, n) <= Served(steps, n, queue, j)
  {
    DoneGrows(steps, n);
    assert queue[j] in queue;
    assert queue[..j + 1] == queue[..j] + [queue[j]];
  }

  /** When the whole level is processed, what was freed is the next level. */
  lemma RoundEnd(steps: seq<Step>, n: nat, queue: seq<string>, indegree: map<string, int>, next: seq<string>)
    requires Queued(steps, n, queue)
    requires Tally(steps, Served(steps, n, queue, |queue|), indegree)
    requires JustFreed(steps, Done(steps, n), indegree, next)
    ensures Served(steps, n, queue, |queue|) == Done(steps, n + 1)
    ensures Queued(steps, n + 1, next)
  {
    hide Done, Ready, UnmetOf, Ids;
    DoneGrows(steps, n);
    DoneGrows(steps, n + 1);
    assert queue[..|queue|] == queue;
    var all := Served(steps, n, queue, |queue|);
    assert all == Done(steps, n + 1);
    DoneNext(steps, n);
    DoneNext(steps, n + 1);
    forall x ensures x in next <==> x in Level(steps, n + 1) {
      if x in Ids(steps) {
        UnmetOfZero(steps, x, Done(steps, n));
        UnmetOfZero(steps, x, Done(steps, n + 1));
      }
    }
  }

  lemma RoundBegin(steps: seq<Step>, n: nat, indegree: map<string, int>)
    requires Tally(steps, Done(steps, n), indegree)
    ensures JustFreed(steps, Done(steps, n), indegree, [])
    ensures forall queue :: Served(steps, n, queue, 0) == Done(steps, n)
  {}

  /** Processes one level: returns the ids it frees. */
  method ProcessLevel(steps: seq<Step>, ghost n: nat, queue: seq<string>, indegree0: map<string, int>,
                      dependents: map<string, seq<string>>, processed0: set<string>)
    returns (indegree: map<string, int>, processed: set<string>, next: seq<string>)
    requires Queued(steps, n, queue) && Reversed(steps, dependents)
    requires processed0 == Done(steps, n) && Tally(steps, processed0, indegree0)
    ensures processed == Done(steps, n + 1) && Tally(steps, processed, indegree)
    ensures Queued(steps, n + 1, next)
  {
    hide Queued, Reversed, Tally, JustFreed, Serving, Done, Ids, Served, Get;
    indegree, processed, next := indegree0, processed0, [];
    ghost var base := processed0;
    RoundBegin(steps, n, indegree0);
    var j := 0;
    while j < |queue|
      invariant j <= |queue| && processed == Served(steps, n, queue, j)
      invariant Tally(steps, processed, indegree) && JustFreed(steps, base, indegree, next)
    {
      var id := queue[j];
      ServedNext(steps, n, queue, j);
      var deps := Get(dependents, id);
      ghost var before := processed;
      processed := processed + {id};
      ServeBegin(steps, before, deps, indegree);
      var m := 0;
      while m < |deps|
        invariant m <= |deps| && Serving(steps, before, deps, m, indegree) && JustFreed(steps, base, indegree, next)
      {
        var dep := deps[m];
        ServeDependent(steps, base, before, id, dependents, m, indegree, next);
        indegree := indegree[dep := indegree[dep] - 1];
        if indegree[dep] == 0 {
          next := next + [dep];
        }
        m := m + 1;
      }
      ServeEnd(steps, before, id, dependents, indegree);
      j := j + 1;
    }
    RoundEnd(steps, n, queue, indegree, next);
  }

  // ---------------------------------------------------------------- the whole sort

  /** What the sort returns: every non-empty level in definition order, and the rest. */
  ghost predicate Levelled(steps: seq<Step>, levels: seq<seq<string>>, n: nat) {
    && |levels| == n
    && forall k :: 0 <= k < n ==> Level(steps, k) != {} && levels[k] == InOrder(steps, Level(steps, k), |steps|)
  }

  lemma SetOfSeq(q: seq<string>, S: set<string>)
    requires forall x :: x in q <==> x in S
    ensures (set x | x in q) == S
  {}

  lemma LevelledNext(steps: seq<Step>, levels: seq<seq<string>>, n: nat, queue: seq<string>, sorted: seq<string>)
    requires Levelled(steps, levels, n) && Queued(steps, n, queue) && queue != []
    requires sorted == InOrder(steps, set x | x in queue, |steps|)
    ensures Levelled(steps, levels + [sorted], n + 1)
    ensures Queued(steps, n, sorted)
  {
    hide Level;
    SetOfSeq(queue, Level(steps, n));
    assert queue[0] in queue;
    LevelInIds(steps, n);
    InOrderSorted(steps, Level(steps, n), |steps|);
    SortedNoDup(steps, sorted);
    forall x | x in Ids(steps) ensures IndexOf(steps, x) < |steps| {}
  }

  lemma LevelInIds(steps: seq<Step>, n: nat)
    ensures Level(steps, n) <= Ids(steps)
  {
    DoneGrows(steps, n);
  }

  lemma SortedNoDup(steps: seq<Step>, q: seq<string>)
    requires SortedByIndex(steps, q)
    ensures NoDup(q)
  {
    forall k, l | 0 <= k < l < |q| ensures q[k] != q[l] {
      assert Before(steps, q[k], q[l]);
    }
  }

  /** The levels, the ids left over, and the index of each id. */
  method TopoSort(steps: seq<Step>)
    returns (levels: seq<seq<string>>, cyclic: seq<string>, idIndex: map<string, nat>)
    ensures Indexed(steps, idIndex)
    ensures Levelled(steps, levels, |levels|) && Level(steps, |levels|) == {}
    ensures cyclic == InOrder(steps, Ids(steps) - Done(steps, |levels|), |steps|)
  {
    hide Queued, Reversed, Tally, AllCounted, Levelled, Done, Level, Indexed, Ids;
    idIndex := FirstIndexes(steps);
    var indegree, dependents := CountNeeds(steps, idIndex);
    CountedAll(steps, indegree, dependents);
    DoneNone(steps);
    var queue := FreeIds(steps, idIndex, indegree);
    var processed: set<string> := {};
    ghost var n := 0;
    levels := [];
    LevelledNone(steps);
    while |queue| > 0
      invariant Queued(steps, n, queue) && Tally(steps, processed, indegree) && processed == Done(steps, n)
      invariant Levelled(steps, levels, n)
      decreases Ids(steps) - processed
    {
      QueueKnown(steps, n, queue);
      var sorted := SortIds(steps, idIndex, queue);
      LevelledNext(steps, levels, n, queue, sorted);
      Progress(steps, n, queue);
      levels := levels + [sorted];
      indegree, processed, queue := ProcessLevel(steps, n, sorted, indegree, dependents, processed);
      n := n + 1;
    }
    QueueEmpty(steps, n, queue);
    LevelledLength(steps, levels, n);
    cyclic := Leftover(steps, idIndex, processed);
  }

  lemma LevelledLength(steps: seq<Step>, levels: seq<seq<string>>, n: nat)
    requires Levelled(steps, levels, n)
    ensures |levels| == n
  {}

  lemma LevelledNone(steps: seq<Step>)
    ensures Levelled(steps, [], 0)
  {}

  lemma DoneNone(steps: seq<Step>)
    ensures Done(steps, 0) == {}
  {}

  lemma QueueKnown(steps: seq<Step>, n: nat, queue: seq<string>)
    requires Queued(steps, n, queue)
    ensures forall id :: id in queue ==> id in Ids(steps)
  {
    LevelInIds(steps, n);
  }

  lemma QueueEmpty(steps: seq<Step>, n: nat, queue: seq<string>)
    requires Queued(steps, n, queue) && |queue| == 0
    ensures Level(steps, n) == {}
  {}

  lemma Progress(steps: seq<Step>, n: nat, queue: seq<string>)
    requires Queued(steps, n, queue) && queue != []
    ensures Ids(steps) - Done(steps, n + 1) < Ids(steps) - Done(steps, n)
  {
    DoneGrows(steps, n);
    assert queue[0] in queue;
    assert queue[0] in Ids(steps) - Done(steps, n) && queue[0] !in Ids(steps) - Done(steps, n + 1);
  }

  /** The ids without unmet needs, collected in whatever order the index map yields them. */
  method FreeIds(steps: seq<Step>, idIndex: map<string, nat>, indegree: map<string, int>) returns (queue: seq<string>)
    requires Indexed(steps, idIndex) && Tally(steps, {}, indegree)
    ensures Queued(steps, 0, queue)
  {
    queue := [];
    var rest := idIndex.Keys;
    while rest != {}
      invariant rest <= Ids(steps) && NoDup(queue)
      invariant forall x :: x in queue <==> x in Ids(steps) - rest && UnmetOf(steps, x, {}) == 0
      decreases rest
    {
      var id :| id in rest;
      rest := rest - {id};
      if indegree[id] == 0 {
        queue := queue + [id];
      }
    }
    forall x ensures x in queue <==> x in Level(steps, 0) {
      if x in Ids(steps) { UnmetOfZero(steps, x, {}); }
    }
  }

  /** The ids never processed, collected in any order and then sorted. */
  method Leftover(steps: seq<Step>, idIndex: map<string, nat>, processed: set<string>) returns (cyclic: seq<string>)
    requires Indexed(steps, idIndex)
    ensures cyclic == InOrder(steps, Ids(steps) - processed, |steps|)
  {
    cyclic := [];
    var rest := idIndex.Keys;
    while rest != {}
      invariant rest <= Ids(steps)
      invariant forall x :: x in cyclic <==> x in Ids(steps) - rest && x !in processed
      decreases rest
    {
      var id :| id in rest;
      rest := rest - {id};
      if id !in processed {
        cyclic := cyclic + [id];
      }
    }
    SetOfSeq(cyclic, Ids(steps) - processed);
    cyclic := SortIds(steps, idIndex, cyclic);
  }
}
