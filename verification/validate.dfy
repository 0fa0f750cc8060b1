/** The rule set a definition must pass before it may be stored or started. */
module Validation {
  import opened Wrappers
  import opened Definitions
  import opened NeedsGraph
  import opened Topo

  /** One finding, without its line number and wording. */
  datatype Problem =
    | TooManySteps
    | TimeoutTooLong
    | Duplicate(i: nat)
    | BadWorktree(i: nat)
    | SharedWithoutNeeds(i: nat)
    | BadRetries(i: nat)
    | UnknownTemplate(i: nat)
    | BadVar(i: nat, key: string)
    | BadForeach(i: nat)
    | UnknownNeed(i: nat, need: string)
    | NotBefore(i: nat, need: string)
    | InCycle(id: string)

  /** What validation asks of its surroundings: which templates exist (None: not checked) and
      which texts parse as templates. */
  datatype Checks = Checks(templates: Option<set<string>>, parses: string -> bool)

  function EffectiveTimeout(def: Definition): int {
    if def.timeout <= 0 then DEFAULT_TIMEOUT else def.timeout
  }

  /** Exactly the findings the definition deserves. */
  ghost predicate Deserved(def: Definition, c: Checks, p: Problem) {
    match p
    case TooManySteps => |def.steps| > MAX_STEPS
    case TimeoutTooLong => EffectiveTimeout(def) > MAX_TIMEOUT
    case InCycle(id) => id in Ids(def.steps) && ReachesCycle(def.steps, id)
    case _ => p.i < |def.steps| && DeservedByStep(def.steps, c, p.i, p)
  }

  ghost predicate DeservedByStep(steps: seq<Step>, c: Checks, i: nat, p: Problem)
    requires i < |steps|
  {
    var s := steps[i];
    match p
    case Duplicate(j) => i == j && s.id != "" && !IsFirst(steps, i)
    case BadWorktree(j) => i == j && s.worktree != "" && s.worktree != "own" && s.worktree != "shared"
    case SharedWithoutNeeds(j) => i == j && s.worktree == "shared" && s.needs == []
    case BadRetries(j) => i == j && !(0 <= s.retries <= MAX_RETRIES)
    case UnknownTemplate(j) => i == j && c.templates.Some? && s.template !in c.templates.value
    case BadVar(j, key) => i == j && key in s.vars && !c.parses(s.vars[key])
    case BadForeach(j) => i == j && s.over != "" && !c.parses(s.over)
    case UnknownNeed(j, need) => i == j && IsFirst(steps, i) && need in s.needs && need !in Ids(steps)
    case NotBefore(j, need) => i == j && MisplacedNeed(steps, i, need)
    case _ => false
  }

  /** A known need of a step, neither of them reaching a cycle, that is not defined before it. */
  ghost predicate MisplacedNeed(steps: seq<Step>, i: nat, need: string)
    requires i < |steps|
  {
    && IsFirst(steps, i) && need in steps[i].needs && need in Ids(steps)
    && !ReachesCycle(steps, steps[i].id) && !ReachesCycle(steps, need)
    && IndexOf(steps, need) >= i
  }

  // ---------------------------------------------------------------- the scan of one step

  /** The findings about one step's own fields. */
  method CheckFields(steps: seq<Step>, c: Checks, i: nat, idIndex: map<string, nat>) returns (problems: seq<Problem>)
    requires i < |steps| && Indexed(steps, idIndex)
    ensures forall p :: p in problems <==>
              DeservedByStep(steps, c, i, p) && !p.UnknownNeed? && !p.NotBefore?
  {
    var s := steps[i];
    FirstByIndex(steps, idIndex, i);
    problems := [];
    if s.id != "" && idIndex[s.id] != i { problems := problems + [Duplicate(i)]; }
    if s.worktree != "" && s.worktree != "own" && s.worktree != "shared" { problems := problems + [BadWorktree(i)]; }
    if s.worktree == "shared" && |s.needs| == 0 { problems := problems + [SharedWithoutNeeds(i)]; }
    if s.retries < 0 || s.retries > MAX_RETRIES { problems := problems + [BadRetries(i)]; }
    if c.templates.Some? && s.template !in c.templates.value { problems := problems + [UnknownTemplate(i)]; }
    if s.over != "" && !c.parses(s.over) { problems := problems + [BadForeach(i)]; }
    var bad := CheckVars(s, c, i);
    problems := problems + bad;
  }

  method CheckVars(s: Step, c: Checks, i: nat) returns (problems: seq<Problem>)
    ensures forall p :: p in problems <==> p.BadVar? && p.i == i && p.key in s.vars && !c.parses(s.vars[p.key])
  {
    problems := [];
    var rest := s.vars.Keys;
    while rest != {}
      invariant rest <= s.vars.Keys
      invariant forall p :: p in problems <==>
                  p.BadVar? && p.i == i && p.key in s.vars && p.key !in rest && !c.parses(s.vars[p.key])
      decreases rest
    {
      var key :| key in rest;
      rest := rest - {key};
      if !c.parses(s.vars[key]) { problems := problems + [BadVar(i, key)]; }
    }
  }

  /** The findings about the needs of a step that is the first of its id. */
  method CheckNeeds(steps: seq<Step>, c: Checks, i: nat, idIndex: map<string, nat>, cyclic: set<string>)
      returns (problems: seq<Problem>)
    requires i < |steps| && Indexed(steps, idIndex) && IsFirst(steps, i)
    requires forall id :: id in cyclic <==> id in Ids(steps) && ReachesCycle(steps, id)
    ensures forall p :: p in problems <==> DeservedByStep(steps, c, i, p) && (p.UnknownNeed? || p.NotBefore?)
  {
    hide ReachesCycle, IsFirst;
    IndexUnique(steps, i);
    var s := steps[i];
    problems := [];
    var n := 0;
    while n < |s.needs|
      invariant n <= |s.needs|
      invariant forall p :: p in problems <==>
                  (p.UnknownNeed? || p.NotBefore?) && p.need in s.needs[..n] && DeservedByStep(steps, c, i, p)
    {
      var need := s.needs[n];
      assert s.needs[..n + 1] == s.needs[..n] + [need];
      if need !in idIndex {
        problems := problems + [UnknownNeed(i, need)];
      } else if s.id in cyclic || need in cyclic {
      } else if idIndex[need] >= i {
        problems := problems + [NotBefore(i, need)];
      }
      n := n + 1;
    }
    assert s.needs[..n] == s.needs;
  }

  /** The findings of the limits and of the first n steps. */
  ghost predicate Found(steps: seq<Step>, c: Checks, limits: seq<Problem>, n: nat, problems: seq<Problem>)
    requires n <= |steps|
  {
    forall p :: p in problems <==> p in limits || exists j :: 0 <= j < n && DeservedByStep(steps, c, j, p)
  }

  lemma FoundNext(steps: seq<Step>, c: Checks, limits: seq<Problem>, n: nat, problems: seq<Problem>,
      found: seq<Problem>)
    requires n < |steps| && Found(steps, c, limits, n, problems)
    requires forall p :: p in found <==> DeservedByStep(steps, c, n, p)
    ensures Found(steps, c, limits, n + 1, problems + found)
  {
    hide DeservedByStep;
    forall p ensures p in problems + found <==>
        p in limits || exists j :: 0 <= j < n + 1 && DeservedByStep(steps, c, j, p) {
      assert p in problems + found <==> p in problems || p in found;
    }
  }

  /** Runs the whole rule set. */
  method Validate(def: Definition, c: Checks) returns (problems: seq<Problem>)
    ensures forall p :: p in problems <==> Deserved(def, c, p)
  {
    hide Deserved, DeservedByStep, ReachesCycle, Levelled, InOrder, IsFirst, Ids, Indexed, Level, Done, Found;
    var steps := def.steps;
    problems := [];
    if |steps| > MAX_STEPS { problems := problems + [TooManySteps]; }
    var timeout := if def.timeout <= 0 then DEFAULT_TIMEOUT else def.timeout;
    if timeout > MAX_TIMEOUT { problems := problems + [TimeoutTooLong]; }
    ghost var limits := problems;
    var levels, cyclic, idIndex := TopoSort(steps);
    var cyclicSet := set id | id in cyclic;
    CyclicExactly(steps, |levels|, cyclic);
    FoundNone(steps, c, limits);
    var i := 0;
    while i < |steps|
      invariant i <= |steps| && Found(steps, c, limits, i, problems)
    {
      var found := CheckFields(steps, c, i, idIndex);
      FirstByIndex(steps, idIndex, i);
      if steps[i].id != "" && idIndex[steps[i].id] == i {
        var misfits := CheckNeeds(steps, c, i, idIndex, cyclicSet);
        found := found + misfits;
      } else {
        OnlyFirstHasNeeds(steps, c, i);
      }
      FoundNext(steps, c, limits, i, problems, found);
      problems := problems + found;
      i := i + 1;
    }
    ghost var rest := problems;
    var k := 0;
    while k < |cyclic|
      invariant k <= |cyclic|
      invariant forall p :: p in problems <==> p in rest || (p.InCycle? && p.id in cyclic[..k])
    {
      assert cyclic[..k + 1] == cyclic[..k] + [cyclic[k]];
      problems := problems + [InCycle(cyclic[k])];
      k := k + 1;
    }
    assert cyclic[..k] == cyclic;
    FoundAll(def, c, limits, rest);
  }

  lemma FoundNone(steps: seq<Step>, c: Checks, limits: seq<Problem>)
    ensures Found(steps, c, limits, 0, limits)
  {}

  lemma FoundAll(def: Definition, c: Checks, limits: seq<Problem>, rest: seq<Problem>)
    requires Found(def.steps, c, limits, |def.steps|, rest)
    requires forall p :: p in limits <==>
               (p == TooManySteps && |def.steps| > MAX_STEPS) || (p == TimeoutTooLong &&
                   EffectiveTimeout(def) > MAX_TIMEOUT)
    ensures forall p :: Deserved(def, c, p) <==>
              p in rest || (p.InCycle? && p.id in Ids(def.steps) && ReachesCycle(def.steps, p.id))
  {
    hide Deserved, DeservedByStep, ReachesCycle, Ids;
    DeservedExactly(def, c);
  }

  lemma OnlyFirstHasNeeds(steps: seq<Step>, c: Checks, i: nat)
    requires i < |steps| && !IsFirst(steps, i)
    ensures forall p :: DeservedByStep(steps, c, i, p) ==> !p.UnknownNeed? && !p.NotBefore?
  {}

  lemma DeservedExactly(def: Definition, c: Checks)
    ensures forall p :: Deserved(def, c, p) <==>
              || (p == TooManySteps && |def.steps| > MAX_STEPS)
              || (p == TimeoutTooLong && EffectiveTimeout(def) > MAX_TIMEOUT)
              || (p.InCycle? && p.id in Ids(def.steps) && ReachesCycle(def.steps, p.id))
              || exists j :: 0 <= j < |def.steps| && DeservedByStep(def.steps, c, j, p)
  {
    hide ReachesCycle, MisplacedNeed, IsFirst, Ids;
    forall p, j | 0 <= j < |def.steps| && DeservedByStep(def.steps, c, j, p)
      ensures !p.TooManySteps? && !p.TimeoutTooLong? && !p.InCycle? && p.i == j
    {}
  }

  /** The ids left over by the sort are exactly those that reach a cycle. */
  lemma CyclicExactly(steps: seq<Step>, n: nat, cyclic: seq<string>)
    requires Level(steps, n) == {} && cyclic == InOrder(steps, Ids(steps) - Done(steps, n), |steps|)
    ensures forall id :: id in cyclic <==> id in Ids(steps) && ReachesCycle(steps, id)
  {
    hide Level, Done, ReachesCycle, Ids;
    InOrderSorted(steps, Ids(steps) - Done(steps, n), |steps|);
    forall id ensures id in cyclic <==> id in Ids(steps) && ReachesCycle(steps, id) {
      if id in Ids(steps) {
        LeftoverIsCyclic(steps, n, id);
      }
    }
  }

  // ---------------------------------------------------------------- what acceptance means

  /** The rules without any mention of cycles or sorting. */
  ghost predicate Accepted(def: Definition, c: Checks) {
    && |def.steps| <= 20
    && def.timeout <= 24 * 3600 * 1_000_000_000
    && forall i :: 0 <= i < |def.steps| ==> FieldsOk(def, c, i) && (def.steps[i].id != "" ==> PlaceOk(def, i))
  }

  ghost predicate FieldsOk(def: Definition, c: Checks, i: nat)
    requires i < |def.steps|
  {
    var s := def.steps[i];
    && (s.worktree == "" || s.worktree == "own" || (s.worktree == "shared" && s.needs != []))
    && 0 <= s.retries <= 3
    && (c.templates.Some? ==> s.template in c.templates.value)
    && (forall key :: key in s.vars ==> c.parses(s.vars[key]))
    && (s.over != "" ==> c.parses(s.over))
  }

  /** The id is new and every need names an earlier step. */
  ghost predicate PlaceOk(def: Definition, i: nat)
    requires i < |def.steps|
  {
    && (forall j :: 0 <= j < i ==> def.steps[j].id != def.steps[i].id)
    && (forall n :: 0 <= n < |def.steps[i].needs| ==>
          def.steps[i].needs[n] != "" && DefinedBefore(def, def.steps[i].needs[n], i))
  }

  ghost predicate Backward(steps: seq<Step>) {
    forall id, need :: Edge(steps, id, need) ==> IndexOf(steps, need) < IndexOf(steps, id)
  }

  lemma {:induction false} BackwardChain(steps: seq<Step>, p: seq<string>, i: nat, j: nat)
    requires Backward(steps) && Chain(steps, p) && i < j < |p|
    ensures p[i] in Ids(steps) && p[j] in Ids(steps) && IndexOf(steps, p[j]) < IndexOf(steps, p[i])
    decreases j
  {
    assert Edge(steps, p[j - 1], p[j]);
    if i < j - 1 { BackwardChain(steps, p, i, j - 1); }
  }

  /** Needs that only point backwards cannot form a cycle. */
  lemma BackwardIsAcyclic(steps: seq<Step>, id: string)
    requires Backward(steps)
    ensures !ReachesCycle(steps, id)
  {
    if ReachesCycle(steps, id) {
      var p, i, j :| ChainFrom(steps, id, p) && 0 <= i < j < |p| && p[i] == p[j];
      BackwardChain(steps, p, i, j);
    }
  }

  lemma AcceptedIsBackward(def: Definition, c: Checks)
    requires Accepted(def, c)
    ensures Backward(def.steps)
  {
    forall id, need | Edge(def.steps, id, need) ensures IndexOf(def.steps, need) < IndexOf(def.steps, id) {
      var i := IndexOf(def.steps, id);
      assert PlaceOk(def, i);
      var n :| 0 <= n < |def.steps[i].needs| && def.steps[i].needs[n] == need;
      EarlierFirst(def.steps, need, i);
    }
  }

  lemma EarlierFirst(steps: seq<Step>, id: string, i: nat)
    requires i <= |steps| && id != "" && exists j :: 0 <= j < i && steps[j].id == id
    ensures id in Ids(steps) && IndexOf(steps, id) < i
  {
    var j :| 0 <= j < i && steps[j].id == id;
    var k := FirstAtOrBelow(steps, j);
    IndexUnique(steps, k);
  }

  lemma AcceptedDeservesNothing(def: Definition, c: Checks, p: Problem)
    requires Accepted(def, c)
    ensures !Deserved(def, c, p)
  {
    AcceptedIsBackward(def, c);
    if p.InCycle? {
      BackwardIsAcyclic(def.steps, p.id);
    } else if !p.TooManySteps? && !p.TimeoutTooLong? && p.i < |def.steps| {
      var s := def.steps[p.i];
      assert FieldsOk(def, c, p.i) && (s.id != "" ==> PlaceOk(def, p.i));
      if (p.UnknownNeed? || p.NotBefore?) && s.id != "" && p.need in s.needs {
        var n :| 0 <= n < |s.needs| && s.needs[n] == p.need;
        EarlierFirst(def.steps, p.need, p.i);
      }
    }
  }

  lemma NothingDeservedPlace(def: Definition, c: Checks, i: nat)
    requires (forall p :: !Deserved(def, c, p)) && i < |def.steps| && def.steps[i].id != ""
    ensures PlaceOk(def, i)
  {
    assert !Deserved(def, c, Duplicate(i));
    assert IsFirst(def.steps, i);
    IndexUnique(def.steps, i);
    forall n | 0 <= n < |def.steps[i].needs|
      ensures def.steps[i].needs[n] != "" && DefinedBefore(def, def.steps[i].needs[n], i)
    {
      var need := def.steps[i].needs[n];
      assert !Deserved(def, c, UnknownNeed(i, need)) && !Deserved(def, c, NotBefore(i, need));
      assert !Deserved(def, c, InCycle(def.steps[i].id)) && !Deserved(def, c, InCycle(need));
      var j := IndexOf(def.steps, need);
    }
  }

  lemma NothingDeservedFields(def: Definition, c: Checks, i: nat)
    requires (forall p :: !Deserved(def, c, p)) && i < |def.steps|
    ensures FieldsOk(def, c, i)
  {
    assert !Deserved(def, c, BadWorktree(i)) && !Deserved(def, c, SharedWithoutNeeds(i));
    assert !Deserved(def, c, BadRetries(i)) && !Deserved(def, c, UnknownTemplate(i)) &&
        !Deserved(def, c, BadForeach(i));
    forall key | key in def.steps[i].vars ensures c.parses(def.steps[i].vars[key]) {
      assert !Deserved(def, c, BadVar(i, key));
    }
  }

  /** A definition has no findings exactly when it satisfies the cycle-free rules. */
  lemma AcceptedExactly(def: Definition, c: Checks)
    ensures Accepted(def, c) <==> forall p :: !Deserved(def, c, p)
  {
    hide Deserved, FieldsOk, PlaceOk;
    if Accepted(def, c) {
      forall p ensures !Deserved(def, c, p) {
        AcceptedDeservesNothing(def, c, p);
      }
    }
    if forall p :: !Deserved(def, c, p) {
      NothingDeservedLimits(def, c);
      forall i | 0 <= i < |def.steps|
        ensures FieldsOk(def, c, i) && (def.steps[i].id != "" ==> PlaceOk(def, i))
      {
        NothingDeservedFields(def, c, i);
        if def.steps[i].id != "" { NothingDeservedPlace(def, c, i); }
      }
    }
  }

  lemma NothingDeservedLimits(def: Definition, c: Checks)
    requires forall p :: !Deserved(def, c, p)
    ensures |def.steps| <= MAX_STEPS && EffectiveTimeout(def) <= MAX_TIMEOUT
  {
    assert !Deserved(def, c, TooManySteps) && !Deserved(def, c, TimeoutTooLong);
  }

  // ---------------------------------------------------------------- what the executor relies on

  /** Steps without an id: at most one, and its needs name earlier steps. */
  ghost predicate UnnamedOk(def: Definition) {
    && (forall j, k :: 0 <= j < k < |def.steps| && def.steps[j].id == "" ==> def.steps[k].id != "")
    && (forall k, n :: 0 <= k < |def.steps| && def.steps[k].id == "" && 0 <= n < |def.steps[k].needs| ==>
          DefinedBefore(def, def.steps[k].needs[n], k))
  }

  /** An accepted definition has unique ids in dependency order exactly when its unnamed steps,
      which the rule set does not look at, happen to obey the same order. */
  lemma AcceptedIsWellOrdered(def: Definition, c: Checks)
    requires Accepted(def, c)
    ensures WellOrdered(def) <==> UnnamedOk(def)
    ensures (forall i :: 0 <= i < |def.steps| ==> def.steps[i].id != "") ==> WellOrdered(def)
    ensures forall k :: 0 <= k < |def.steps| ==> 0 <= def.steps[k].retries <= MAX_RETRIES
  {
    forall k | 0 <= k < |def.steps| ensures 0 <= def.steps[k].retries <= MAX_RETRIES {
      assert FieldsOk(def, c, k);
    }
    forall k | 0 <= k < |def.steps| && def.steps[k].id != "" ensures PlaceOk(def, k) {}
    if WellOrdered(def) {
      assert UnnamedOk(def);
    }
    if UnnamedOk(def) {
      forall j, k | 0 <= j < k < |def.steps| ensures def.steps[j].id != def.steps[k].id {
        if def.steps[k].id != "" { assert PlaceOk(def, k); }
      }
      forall k, n | 0 <= k < |def.steps| && 0 <= n < |def.steps[k].needs|
          ensures DefinedBefore(def, def.steps[k].needs[n], k) {
        if def.steps[k].id != "" { assert PlaceOk(def, k); }
      }
    }
  }

  // ---------------------------------------------------------------- the order of the steps

  /** Each id of level k has a longest chain of needs of k edges, and nothing else is in level k. */
  lemma LevelsAreDepths(steps: seq<Step>, levels: seq<seq<string>>, k: nat, id: string)
    requires Levelled(steps, levels, |levels|) && k < |levels|
    ensures id in levels[k] <==> Depth(steps, id, k)
  {
    hide Level, Depth;
    LevelInIds(steps, k);
    LevelIsDepth(steps, id, k);
    InOrderSorted(steps, Level(steps, k), |steps|);
  }

  /** What a step needs lies in an earlier level than the step itself. */
  lemma NeedsInEarlierLevels(steps: seq<Step>, levels: seq<seq<string>>, k: nat, id: string, need: string)
    requires Levelled(steps, levels, |levels|) && k < |levels| && id in levels[k] && Edge(steps, id, need)
    ensures exists j :: 0 <= j < k && need in levels[j]
  {
    hide Ready, Ids;
    InOrderSorted(steps, Level(steps, k), |steps|);
    DoneNext(steps, k);
    NeedReady(steps, id, need, Done(steps, k));
    var j := FirstDone(steps, need, k);
    InOrderSorted(steps, Level(steps, j), |steps|);
    EdgeKnown(steps, id, need);
    assert InPart(steps, Level(steps, j), |steps|, need);
  }

  lemma NeedReady(steps: seq<Step>, id: string, need: string, S: set<string>)
    requires id in Ready(steps, S) && Edge(steps, id, need)
    ensures need in S
  {}

  lemma {:induction false} FirstDone(steps: seq<Step>, id: string, n: nat) returns (k: nat)
    requires id in Done(steps, n)
    ensures k < n && id in Level(steps, k)
  {
    if n > 0 && id in Done(steps, n - 1) {
      k := FirstDone(steps, id, n - 1);
    } else {
      k := n - 1;
    }
  }

  /** In an accepted definition every named step is listed once: in exactly one level, and once there. */
  lemma AcceptedOrderCoversAll(def: Definition, c: Checks, levels: seq<seq<string>>, id: string)
    requires Accepted(def, c) && id in Ids(def.steps)
    requires Levelled(def.steps, levels, |levels|) && Level(def.steps, |levels|) == {}
    ensures exists k :: 0 <= k < |levels| && id in levels[k]
                        && forall l :: 0 <= l < |levels| && id in levels[l] ==> l == k
    ensures forall l :: 0 <= l < |levels| ==> NoDup(levels[l])
  {
    var steps := def.steps;
    AcceptedIsBackward(def, c);
    BackwardIsAcyclic(steps, id);
    LeftoverIsCyclic(steps, |levels|, id);
    var k := FirstDone(steps, id, |levels|);
    LevelIsDepth(steps, id, k);
    LevelsAreDepths(steps, levels, k, id);
    forall l | 0 <= l < |levels| && id in levels[l] ensures l == k {
      LevelsAreDepths(steps, levels, l, id);
      DepthUnique(steps, id, k, l);
    }
    forall l | 0 <= l < |levels| ensures NoDup(levels[l]) {
      LevelInIds(steps, l);
      InOrderSorted(steps, Level(steps, l), |steps|);
      SortedNoDup(steps, levels[l]);
    }
  }

  lemma DepthUnique(steps: seq<Step>, id: string, k: nat, l: nat)
    requires Depth(steps, id, k) && Depth(steps, id, l)
    ensures k == l
  {
    var p :| ChainFrom(steps, id, p) && |p| == k + 1;
    var q :| ChainFrom(steps, id, q) && |q| == l + 1;
  }
}
