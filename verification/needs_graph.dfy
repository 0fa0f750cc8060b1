/** The needs graph of a definition: its nodes, its edges, and what depth and cycles mean,
    stated through chains of needs and independently of any algorithm. */
module NeedsGraph {
  import opened Definitions

  /** Row i is the first step with its (non-empty) id; only it carries edges. */
  predicate IsFirst(steps: seq<Step>, i: int) {
    && 0 <= i < |steps| && steps[i].id != ""
    && forall j :: 0 <= j < i ==> steps[j].id != steps[i].id
  }

  ghost function Ids(steps: seq<Step>): set<string> {
    set i | 0 <= i < |steps| && steps[i].id != "" :: steps[i].id
  }

  lemma FirstExists(steps: seq<Step>, id: string)
    requires id in Ids(steps)
    ensures exists i :: IsFirst(steps, i) && steps[i].id == id
  {
    var i :| 0 <= i < |steps| && steps[i].id == id;
    var k := FirstAtOrBelow(steps, i);
  }

  lemma {:induction false} FirstAtOrBelow(steps: seq<Step>, i: nat) returns (k: nat)
    requires i < |steps| && steps[i].id != ""
    ensures IsFirst(steps, k) && steps[k].id == steps[i].id && k <= i
    decreases i
  {
    if j :| 0 <= j < i && steps[j].id == steps[i].id {
      k := FirstAtOrBelow(steps, j);
    } else {
      k := i;
    }
  }

  ghost function IndexOf(steps: seq<Step>, id: string): (i: nat)
    requires id in Ids(steps)
    ensures IsFirst(steps, i) && steps[i].id == id
  {
    FirstExists(steps, id);
    var i :| IsFirst(steps, i) && steps[i].id == id;
    i
  }

  lemma IndexUnique(steps: seq<Step>, i: nat)
    requires IsFirst(steps, i)
    ensures steps[i].id in Ids(steps) && IndexOf(steps, steps[i].id) == i
  {
    var k := IndexOf(steps, steps[i].id);
  }

  ghost function NeedsOf(steps: seq<Step>, id: string): seq<string>
    requires id in Ids(steps)
  {
    steps[IndexOf(steps, id)].needs
  }

  /** An edge: id needs the known step need. */
  ghost predicate Edge(steps: seq<Step>, id: string, need: string) {
    id in Ids(steps) && need in Ids(steps) && need in NeedsOf(steps, id)
  }

  /** A chain of needs: every entry needs the next one. */
  ghost predicate Chain(steps: seq<Step>, p: seq<string>) {
    && p != [] && p[0] in Ids(steps)
    && forall i :: 0 <= i < |p| - 1 ==> Edge(steps, p[i], p[i + 1])
  }

  ghost predicate ChainFrom(steps: seq<Step>, id: string, p: seq<string>) {
    Chain(steps, p) && p[0] == id
  }

  /** The longest chain from id has exactly k edges. */
  ghost predicate Depth(steps: seq<Step>, id: string, k: nat) {
    && (exists p :: ChainFrom(steps, id, p) && |p| == k + 1)
    && (forall p :: ChainFrom(steps, id, p) ==> |p| <= k + 1)
  }

  /** Following needs from id one comes back to a step already visited. */
  ghost predicate ReachesCycle(steps: seq<Step>, id: string) {
    exists p, i, j :: ChainFrom(steps, id, p) && 0 <= i < j < |p| && p[i] == p[j]
  }

  // ---------------------------------------------------------------- closing under satisfied needs

  /** The ids all of whose known needs lie in S. */
  ghost function Ready(steps: seq<Step>, S: set<string>): set<string> {
    set id | id in Ids(steps) && (forall need :: Edge(steps, id, need) ==> need in S)
  }

  /** What n rounds of "everything whose needs are done" can finish. */
  ghost function Done(steps: seq<Step>, n: nat): set<string> {
    if n == 0 then {} else Ready(steps, Done(steps, n - 1))
  }

  ghost function Level(steps: seq<Step>, n: nat): set<string> {
    Done(steps, n + 1) - Done(steps, n)
  }

  lemma {:induction false} DoneGrows(steps: seq<Step>, n: nat)
    ensures Done(steps, n) <= Done(steps, n + 1) <= Ids(steps)
  {
    if n > 0 { DoneGrows(steps, n - 1); }
  }

  lemma {:induction false} DoneMonotone(steps: seq<Step>, m: nat, n: nat)
    requires m <= n
    ensures Done(steps, m) <= Done(steps, n)
    decreases n
  {
    hide Done;
    if m < n {
      DoneMonotone(steps, m, n - 1);
      DoneGrows(steps, n - 1);
    }
  }

  lemma {:induction false} DoneFixed(steps: seq<Step>, m: nat, n: nat)
    requires m <= n && Level(steps, m) == {}
    ensures Done(steps, n) == Done(steps, m)
    decreases n
  {
    hide Done, Ready;
    if m < n {
      DoneFixed(steps, m, n - 1);
      DoneNext(steps, n - 1);
      DoneNext(steps, m);
      DoneGrows(steps, m);
      forall x | x in Done(steps, m + 1) ensures x in Done(steps, m) {
        assert x !in Level(steps, m);
      }
    }
  }

  lemma DoneNext(steps: seq<Step>, n: nat)
    ensures Done(steps, n + 1) == Ready(steps, Done(steps, n))
  {}

  /** Finished within n rounds: no chain from id has more than n entries. */
  lemma {:induction false} DoneBoundsChains(steps: seq<Step>, id: string, n: nat, p: seq<string>)
    requires id in Done(steps, n) && ChainFrom(steps, id, p)
    ensures |p| <= n
    decreases n
  {
    DoneGrows(steps, n);
    if |p| > 1 {
      assert Edge(steps, p[0], p[1]);
      var q := p[1..];
      forall i | 0 <= i < |q| - 1 ensures Edge(steps, q[i], q[i + 1]) {
        assert Edge(steps, p[i + 1], p[i + 2]);
      }
      assert n > 0;
      DoneBoundsChains(steps, p[1], n - 1, q);
    }
  }

  lemma UnmetNeed(steps: seq<Step>, id: string, S: set<string>) returns (need: string)
    requires id in Ids(steps) && id !in Ready(steps, S)
    ensures Edge(steps, id, need) && need !in S
  {
    need :| Edge(steps, id, need) && need !in S;
  }

  lemma ChainCons(steps: seq<Step>, id: string, q: seq<string>)
    requires Chain(steps, q) && Edge(steps, id, q[0])
    ensures ChainFrom(steps, id, [id] + q)
  {
    var p := [id] + q;
    forall i | 0 <= i < |p| - 1 ensures Edge(steps, p[i], p[i + 1]) {
      if i > 0 { assert Edge(steps, q[i - 1], q[i]); }
    }
  }

  /** Not finished within n rounds: there is a chain from id with n + 1 entries. */
  lemma {:induction false} NotDoneHasChain(steps: seq<Step>, id: string, n: nat) returns (p: seq<string>)
    requires id in Ids(steps) && id !in Done(steps, n)
    ensures ChainFrom(steps, id, p) && |p| == n + 1
    decreases n
  {
    hide Edge, Ready, Ids;
    if n == 0 {
      p := [id];
    } else {
      DoneNext(steps, n - 1);
      var need := UnmetNeed(steps, id, Done(steps, n - 1));
      EdgeKnown(steps, id, need);
      var q := NotDoneHasChain(steps, need, n - 1);
      ChainCons(steps, id, q);
      p := [id] + q;
    }
  }

  lemma EdgeKnown(steps: seq<Step>, id: string, need: string)
    requires Edge(steps, id, need)
    ensures id in Ids(steps) && need in Ids(steps)
  {}

  /** Level k holds exactly the ids whose longest chain of needs has k edges. */
  lemma LevelIsDepth(steps: seq<Step>, id: string, k: nat)
    ensures id in Level(steps, k) <==> Depth(steps, id, k)
  {
    if id in Level(steps, k) {
      DoneGrows(steps, k);
      var p := NotDoneHasChain(steps, id, k);
      forall q | ChainFrom(steps, id, q) ensures |q| <= k + 1 {
        DoneBoundsChains(steps, id, k + 1, q);
      }
    }
    if Depth(steps, id, k) {
      var p :| ChainFrom(steps, id, p) && |p| == k + 1;
      if id in Done(steps, k) {
        DoneBoundsChains(steps, id, k, p);
      }
      if id !in Done(steps, k + 1) {
        var q := NotDoneHasChain(steps, id, k + 1);
      }
    }
  }

  // ---------------------------------------------------------------- cycles

  lemma {:induction false} CycleNeverDone(steps: seq<Step>, p: seq<string>, i: nat, j: nat, k: nat, n: nat)
    requires Chain(steps, p) && i < j < |p| && p[i] == p[j] && k <= j
    ensures p[k] !in Done(steps, n)
    decreases n
  {
    hide Ready, Edge;
    var l := if k == j then i else k;
    if n > 0 {
      CycleNeverDone(steps, p, i, j, l + 1, n - 1);
      assert Edge(steps, p[l], p[l + 1]);
      DoneNext(steps, n - 1);
      NotReady(steps, p[l], p[l + 1], Done(steps, n - 1));
    }
  }

  lemma NotReady(steps: seq<Step>, id: string, need: string, S: set<string>)
    requires Edge(steps, id, need) && need !in S
    ensures id !in Ready(steps, S)
  {}

  lemma {:induction false} Pigeonhole(p: seq<string>, S: set<string>)
    requires (forall i :: 0 <= i < |p| ==> p[i] in S) && |p| > |S|
    ensures exists i, j :: 0 <= i < j < |p| && p[i] == p[j]
    decreases |p|
  {
    var last := p[|p| - 1];
    var front := p[..|p| - 1];
    if k :| 0 <= k < |front| && front[k] == last {
      assert p[k] == p[|p| - 1];
    } else {
      forall i | 0 <= i < |front| ensures front[i] in S - {last} {
        assert front[i] == p[i];
      }
      Pigeonhole(front, S - {last});
      var i, j :| 0 <= i < j < |front| && front[i] == front[j];
      assert p[i] == p[j];
    }
  }

  lemma {:induction false} ChainInIds(steps: seq<Step>, p: seq<string>, i: nat)
    requires Chain(steps, p) && i < |p|
    ensures p[i] in Ids(steps)
  {
    if i > 0 { assert Edge(steps, p[i - 1], p[i]); }
  }

  /** Once a round adds nothing, what is left is exactly what reaches a cycle. */
  lemma LeftoverIsCyclic(steps: seq<Step>, n: nat, id: string)
    requires Level(steps, n) == {} && id in Ids(steps)
    ensures id !in Done(steps, n) <==> ReachesCycle(steps, id)
  {
    if id !in Done(steps, n) {
      var size := |Ids(steps)|;
      if size >= n { DoneFixed(steps, n, size); } else { DoneMonotone(steps, size, n); }
      var p := NotDoneHasChain(steps, id, size);
      forall i | 0 <= i < |p| ensures p[i] in Ids(steps) { ChainInIds(steps, p, i); }
      Pigeonhole(p, Ids(steps));
      var i, j :| 0 <= i < j < |p| && p[i] == p[j];
      assert ChainFrom(steps, id, p);
    }
    if ReachesCycle(steps, id) {
      var p, i, j :| ChainFrom(steps, id, p) && 0 <= i < j < |p| && p[i] == p[j];
      CycleNeverDone(steps, p, i, j, 0, n);
    }
  }

  // ---------------------------------------------------------------- definition order

  /** The ids of S in the order of their first steps. */
  function InOrder(steps: seq<Step>, S: set<string>, n: nat): seq<string>
    requires n <= |steps|
  {
    if n == 0 then []
    else if IsFirst(steps, n - 1) && steps[n - 1].id in S then InOrder(steps, S, n - 1) + [steps[n - 1].id]
    else InOrder(steps, S, n - 1)
  }

  ghost predicate SortedByIndex(steps: seq<Step>, q: seq<string>) {
    && (forall k :: 0 <= k < |q| ==> q[k] in Ids(steps))
    && (forall k, l :: 0 <= k < l < |q| ==> Before(steps, q[k], q[l]))
  }

  ghost predicate Before(steps: seq<Step>, a: string, b: string) {
    a in Ids(steps) && b in Ids(steps) && IndexOf(steps, a) < IndexOf(steps, b)
  }

  ghost predicate InPart(steps: seq<Step>, S: set<string>, n: nat, id: string) {
    id in S && id in Ids(steps) && IndexOf(steps, id) < n
  }

  lemma {:induction false} InOrderSorted(steps: seq<Step>, S: set<string>, n: nat)
    requires n <= |steps|
    ensures SortedByIndex(steps, InOrder(steps, S, n))
    ensures forall id :: id in InOrder(steps, S, n) <==> InPart(steps, S, n, id)
  {
    hide Ids;
    if n > 0 {
      InOrderSorted(steps, S, n - 1);
      var front, q := InOrder(steps, S, n - 1), InOrder(steps, S, n);
      forall id ensures InPart(steps, S, n, id) <==>
          InPart(steps, S, n - 1, id) || (IsFirst(steps, n - 1) && id == steps[n - 1].id && id in S) {
        if IsFirst(steps, n - 1) { IndexUnique(steps, n - 1); }
      }
      forall k, l | 0 <= k < l < |q| ensures Before(steps, q[k], q[l]) {
        if l < |front| {
          assert Before(steps, front[k], front[l]);
        } else {
          assert front[k] in front;
          IndexUnique(steps, n - 1);
        }
      }
    }
  }

  lemma Irreflexive(steps: seq<Step>, q: seq<string>, k: nat)
    requires SortedByIndex(steps, q) && k < |q| && q[k] == q[|q| - 1]
    ensures k == |q| - 1
  {
    assert k < |q| - 1 ==> Before(steps, q[k], q[|q| - 1]);
  }

  lemma SortedFront(steps: seq<Step>, q: seq<string>)
    requires SortedByIndex(steps, q) && q != []
    ensures SortedByIndex(steps, q[..|q| - 1])
    ensures forall id :: id in q[..|q| - 1] <==> id in q && id != q[|q| - 1]
  {
    var f := q[..|q| - 1];
    forall k | 0 <= k < |f| ensures f[k] == q[k] && q[k] != q[|q| - 1] {
      if q[k] == q[|q| - 1] { Irreflexive(steps, q, k); }
    }
    forall id | id in q && id != q[|q| - 1] ensures id in f {
      var k :| 0 <= k < |q| && q[k] == id;
      assert f[k] == id;
    }
  }

  lemma SameLast(steps: seq<Step>, a: seq<string>, b: seq<string>)
    requires SortedByIndex(steps, a) && SortedByIndex(steps, b) && a != [] && b != []
    requires a[|a| - 1] in b && b[|b| - 1] in a
    ensures a[|a| - 1] == b[|b| - 1]
  {
    var x, y := a[|a| - 1], b[|b| - 1];
    var k :| 0 <= k < |b| && b[k] == x;
    var l :| 0 <= l < |a| && a[l] == y;
    assert k < |b| - 1 ==> Before(steps, x, y);
    assert l < |a| - 1 ==> Before(steps, y, x);
  }

  /** Sorting by first occurrence has one answer. */
  lemma {:induction false} SortedUnique(steps: seq<Step>, a: seq<string>, b: seq<string>)
    requires SortedByIndex(steps, a) && SortedByIndex(steps, b)
    requires forall id :: id in a <==> id in b
    ensures a == b
    decreases |a|
  {
    hide SortedByIndex;
    assert b != [] ==> b[0] in b;
    if a != [] {
      assert a[|a| - 1] in a && a[|a| - 1] in b;
      assert b[|b| - 1] in b && b[|b| - 1] in a;
      SameLast(steps, a, b);
      SortedFront(steps, a);
      SortedFront(steps, b);
      var af, bf := a[..|a| - 1], b[..|b| - 1];
      forall id ensures id in af <==> id in bf {
        assert id in af <==> id in a && id != a[|a| - 1];
        assert id in bf <==> id in b && id != b[|b| - 1];
      }
      SortedUnique(steps, af, bf);
      assert a == af + [a[|a| - 1]] && b == bf + [b[|b| - 1]];
    }
  }
}
