/** A parsed pipeline definition: its steps in file order and the limits the rule set enforces. */
module Definitions {

  const MAX_STEPS := 20
  const MAX_RETRIES := 3
  const MAX_FANOUT := 25

  /** Durations are nanoseconds, as in the source's clock type. */
  const SECOND := 1_000_000_000
  const DEFAULT_TIMEOUT := 2 * 3600 * SECOND
  const MAX_TIMEOUT := 24 * 3600 * SECOND

  /** `over` is the step's `foreach` list expression ("" for a plain step). */
  datatype Step = Step(
    id: string,
    template: string,
    needs: seq<string>,
    vars: map<string, string>,
    worktree: string,
    retries: int,
    over: string)

  datatype Definition = Definition(timeout: int, steps: seq<Step>)

  predicate HasStep(steps: seq<Step>, id: string) {
    exists k :: 0 <= k < |steps| && steps[k].id == id
  }

  predicate DefinedBefore(def: Definition, id: string, k: nat)
    requires k <= |def.steps|
  {
    exists j :: 0 <= j < k && def.steps[j].id == id
  }

  /** Ids are unique and every need names a step that comes earlier in the file. */
  predicate WellOrdered(def: Definition) {
    && (forall j, k :: 0 <= j < k < |def.steps| ==> def.steps[j].id != def.steps[k].id)
    && (forall k, n :: 0 <= k < |def.steps| && 0 <= n < |def.steps[k].needs| ==>
          DefinedBefore(def, def.steps[k].needs[n], k))
  }
}
