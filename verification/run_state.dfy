/** One pipeline run as a value, and what each executor operation does to it. */
module RunState {
  import opened Wrappers
  import opened Definitions
  import opened StepRows

  datatype RunStatus = Live | Succeeded_ | Failed_ | Cancelled_ | TimedOut {
    predicate Terminal() { !Live? }
  }

  datatype Outcome = InFlight | Won | Lost

  /** What the run engine records about one run it started for a step. */
  datatype EngineRun = EngineRun(outcome: Outcome, report: string)

  /** The whole database slice of one pipeline run. */
  datatype State = State(
    def: Definition,
    startedAt: int,
    status: RunStatus,
    rows: seq<StepRun>,
    runs: map<RunId, EngineRun>)

  datatype StartResult = Started | Refused(report: string)
  datatype FanOut = NotAList(report: string) | Items(items: seq<string>)

  /** What the outside world answers during one call: whether the run of a step can be
      started, what each `foreach` expression renders to, and the serial that makes the
      runs of this call distinct from all earlier ones. */
  datatype World = World(start: nat -> StartResult, fan: string -> FanOut, serial: nat)

  const NEW_RUN := EngineRun(InFlight, "{}")
  const TOO_MANY := "{\"error\":\"foreach produced too many items\"}"

  function PendingRow(id: string, index: nat, item: string, attempt: int): StepRun {
    StepRun(id, index, item, None, attempt, Pending, "")
  }

  /** No run of this call exists yet. */
  ghost predicate Fresh(s: State, w: World) {
    forall r :: r in s.runs ==> r.serial < w.serial
  }

  // ---------------------------------------------------------------- expanding a node

  /** The rows a node gets when its dependencies succeeded and it has none yet. */
  function NewRows(step: Step, fan: FanOut): seq<StepRun> {
    if step.over == "" then [PendingRow(step.id, 0, "", 1)]
    else match fan
      case NotAList(report) => [PendingRow(step.id, 0, "", 1).(state := Failed, report := report)]
      case Items(items) =>
        if |items| > MAX_FANOUT then
          [PendingRow(step.id, 0, "", 1).(state := Failed, report := TOO_MANY)]
        else if items == [] then
          [PendingRow(step.id, 0, "", 1).(state := Success, report := "{}")]
        else
          seq(|items|, i requires 0 <= i < |items| => PendingRow(step.id, i, items[i], 1))
  }

  ghost function Expand(s: State, w: World, step: Step): State {
    if StateOf(s.rows, step.id) == Absent
    then s.(rows := s.rows + NewRows(step, w.fan(step.id)))
    else s
  }

  // ---------------------------------------------------------------- starting pending rows

  ghost predicate Startable(rows: seq<StepRun>, id: string, i: int) {
    NewestOf(rows, id, i) && rows[i].state == Pending
  }

  function StartedRow(sr: StepRun, run: RunId, result: StartResult): StepRun {
    match result
    case Started => sr.(state := Running, runID := Some(run))
    case Refused(report) => sr.(state := Failed, report := report)
  }

  ghost function StartRows(rows: seq<StepRun>, w: World, id: string): seq<StepRun> {
    seq(|rows|, i requires 0 <= i < |rows| =>
      if Startable(rows, id, i) then StartedRow(rows[i], RunId(i, w.serial), w.start(i)) else rows[i])
  }

  ghost function StartedRuns(rows: seq<StepRun>, w: World, id: string): set<RunId> {
    set i | 0 <= i < |rows| && Startable(rows, id, i) && w.start(i).Started? :: RunId(i, w.serial)
  }

  ghost function StartPending(s: State, w: World, id: string): State {
    s.(rows := StartRows(s.rows, w, id),
       runs := s.runs + map r | r in StartedRuns(s.rows, w, id) :: NEW_RUN)
  }

  // ---------------------------------------------------------------- one pass over the graph

  ghost function AdvanceStep(s: State, w: World, step: Step): State {
    if !DepsSucceeded(s.rows, step) then s
    else StartPending(Expand(s, w, step), w, step.id)
  }

  /** The first k steps of the definition, handled in file order. */
  ghost function Pass(s: State, w: World, k: nat): State
    requires k <= |s.def.steps|
    ensures Pass(s, w, k).def == s.def
    decreases k
  {
    if k == 0 then s else AdvanceStep(Pass(s, w, k - 1), w, s.def.steps[k - 1])
  }

  ghost predicate AnyBad(rows: seq<StepRun>) {
    exists i :: Newest(rows, i) && rows[i].state.Bad()
  }

  ghost predicate AnyBusy(rows: seq<StepRun>) {
    exists i :: Newest(rows, i) && !rows[i].state.Terminal()
  }

  /** Every newest attempt that has not finished ends in the given state. */
  ghost function StopRows(rows: seq<StepRun>, pending: StepState, running: StepState): seq<StepRun> {
    seq(|rows|, i requires 0 <= i < |rows| =>
      if Newest(rows, i) && rows[i].state == Pending then rows[i].(state := pending)
      else if Newest(rows, i) && rows[i].state == Running then rows[i].(state := running)
      else rows[i])
  }

  ghost function Settle(s: State): State {
    if AnyBad(s.rows) then s.(rows := StopRows(s.rows, Skipped, Cancelled), status := Failed_)
    else if AnyBusy(s.rows) then s
    else s.(status := Succeeded_)
  }

  ghost function Advance(s: State, w: World): State {
    if s.status.Terminal() then s else Settle(Pass(s, w, |s.def.steps|))
  }

  // ---------------------------------------------------------------- operations

  function StepByID(steps: seq<Step>, id: string): Option<Step> {
    if steps == [] then None
    else if steps[0].id == id then Some(steps[0])
    else StepByID(steps[1..], id)
  }

  function FirstRows(steps: seq<Step>): seq<StepRun> {
    if steps == [] then []
    else (if steps[0].over == "" then [PendingRow(steps[0].id, 0, "", 1)] else []) + FirstRows(steps[1..])
  }

  ghost function Start(def: Definition, now: int, w: World): State {
    Advance(State(def, now, Live, FirstRows(def.steps), map[]), w)
  }

  function SetState(s: State, i: nat, state: StepState, report: string): State
    requires i < |s.rows|
  {
    s.(rows := s.rows[i := s.rows[i].(state := state, report := report)])
  }

  function NextAttempt(sr: StepRun): StepRun {
    PendingRow(sr.stepID, sr.index, sr.item, sr.attempt + 1)
  }

  predicate MayRetry(s: State, sr: StepRun) {
    && !s.status.Terminal()
    && var step := StepByID(s.def.steps, sr.stepID);
       step.Some? && sr.attempt <= step.value.retries
  }

  /** Whether a finish message for run r has anything left to record. */
  predicate Records(s: State, r: RunId) {
    r in s.runs && r.row < |s.rows| && !s.rows[r.row].state.Terminal()
  }

  function Record(s: State, r: RunId): State
    requires Records(s, r)
  {
    var run := s.runs[r];
    if run.outcome == Won then SetState(s, r.row, Success, run.report)
    else
      var s1 := SetState(s, r.row, Failed, run.report);
      if MayRetry(s1, s1.rows[r.row]) then s1.(rows := s1.rows + [NextAttempt(s1.rows[r.row])]) else s1
  }

  ghost function CompleteStep(s: State, r: RunId, w: World): State {
    if Records(s, r) then Advance(Record(s, r), w) else s
  }

  ghost function Cancel(s: State): State {
    if s.status.Terminal() then s
    else s.(rows := StopRows(s.rows, Cancelled, Cancelled), status := Cancelled_)
  }

  function TimeoutOf(def: Definition): int {
    if def.timeout > 0 then def.timeout else DEFAULT_TIMEOUT
  }

  /** The sweep's look at one row of its snapshot: a running row whose run already ended. */
  predicate Stranded(s: State, sr: StepRun) {
    sr.state == Running && sr.runID.Some? && sr.runID.value in s.runs
      && s.runs[sr.runID.value].outcome != InFlight
  }

  /** One turn of the sweep's loop. */
  ghost function SweepRow(s: State, sr: StepRun, w: World): State {
    if Stranded(s, sr) then CompleteStep(s, sr.runID.value, w) else s
  }

  ghost function Reconcile(s: State, snapshot: seq<StepRun>, w: World): State
    decreases |snapshot|
  {
    if snapshot == [] then s
    else Reconcile(SweepRow(s, snapshot[0], w), snapshot[1..], w.(serial := w.serial + 1))
  }

  ghost function Tick(s: State, now: int, w: World): State {
    if s.status.Terminal() || !(s.startedAt < now) then s
    else if now - s.startedAt < TimeoutOf(s.def) then Reconcile(s, s.rows, w)
    else s.(rows := StopRows(s.rows, Cancelled, Cancelled), status := TimedOut)
  }

  // ---------------------------------------------------------------- retrying a finished run

  ghost function FirstOf(rows: seq<StepRun>, i: nat): (f: nat)
    requires i < |rows|
    ensures f <= i && SameSlot(rows[f], rows[i])
    ensures forall j :: 0 <= j < f ==> !SameSlot(rows[j], rows[i])
  {
    FirstFrom(rows, i, 0)
  }

  ghost function FirstFrom(rows: seq<StepRun>, i: nat, k: nat): (f: nat)
    requires k <= i < |rows|
    requires forall j :: 0 <= j < k ==> !SameSlot(rows[j], rows[i])
    ensures f <= i && SameSlot(rows[f], rows[i])
    ensures forall j :: 0 <= j < f ==> !SameSlot(rows[j], rows[i])
    decreases i - k
  {
    if SameSlot(rows[k], rows[i]) then k else FirstFrom(rows, i, k + 1)
  }

  /** The newest attempts of the slots that first appear below row n, in order of appearance. */
  ghost function CurrentBelow(rows: seq<StepRun>, n: nat): (cur: seq<nat>)
    requires n <= |rows|
    ensures forall k :: 0 <= k < |cur| ==> Newest(rows, cur[k])
  {
    if n == 0 then []
    else if FirstOf(rows, n - 1) == n - 1 then CurrentBelow(rows, n - 1) + [NewestIn(rows, n - 1)]
    else CurrentBelow(rows, n - 1)
  }

  ghost function NewestIn(rows: seq<StepRun>, i: nat): (k: nat)
    requires i < |rows|
    ensures Newest(rows, k) && SameSlot(rows[k], rows[i])
  {
    SlotHasNewest(rows, i);
    var k :| Newest(rows, k) && SameSlot(rows[k], rows[i]);
    k
  }

  lemma SlotHasNewest(rows: seq<StepRun>, i: nat)
    requires i < |rows|
    ensures exists k :: Newest(rows, k) && SameSlot(rows[k], rows[i])
  {
    var k := NewestExists(rows, i);
  }

  lemma NewestUnique(rows: seq<StepRun>)
    ensures forall i, j :: Newest(rows, i) && Newest(rows, j) && SameSlot(rows[i], rows[j]) ==> i == j
  {}

  lemma SlotFirst(rows: seq<StepRun>, i: nat, j: nat)
    requires i < |rows| && j < |rows| && SameSlot(rows[i], rows[j])
    ensures FirstOf(rows, i) == FirstOf(rows, j)
  {}

  ghost function CurrentRows(rows: seq<StepRun>): seq<nat> {
    CurrentBelow(rows, |rows|)
  }

  /** Distinct rows of a table with n rows. */
  predicate DistinctRows(cur: seq<nat>, n: nat) {
    && (forall k :: 0 <= k < |cur| ==> cur[k] < n)
    && (forall k, l :: 0 <= k < l < |cur| ==> cur[k] != cur[l])
  }

  lemma {:induction false} CurrentDistinct(rows: seq<StepRun>, n: nat)
    requires n <= |rows|
    ensures DistinctRows(CurrentBelow(rows, n), |rows|)
    ensures forall k :: 0 <= k < |CurrentBelow(rows, n)| ==> FirstOf(rows, CurrentBelow(rows, n)[k]) < n
  {
    if n > 0 {
      CurrentDistinct(rows, n - 1);
      if FirstOf(rows, n - 1) == n - 1 {
        SlotFirst(rows, NewestIn(rows, n - 1), n - 1);
      }
    }
  }

  lemma {:induction false} CurrentHasSlot(rows: seq<StepRun>, n: nat, i: nat)
    requires i < |rows| && Newest(rows, i) && FirstOf(rows, i) < n <= |rows|
    ensures i in CurrentBelow(rows, n)
  {
    if FirstOf(rows, i) < n - 1 {
      CurrentHasSlot(rows, n - 1, i);
    } else {
      SlotFirst(rows, i, n - 1);
      NewestUnique(rows);
    }
  }

  /** The current rows are exactly the newest attempts, each listed once. */
  lemma CurrentIsNewest(rows: seq<StepRun>)
    ensures forall i :: Newest(rows, i) <==> i in CurrentRows(rows)
    ensures DistinctRows(CurrentRows(rows), |rows|)
  {
    CurrentDistinct(rows, |rows|);
    forall i | Newest(rows, i) ensures i in CurrentRows(rows) {
      CurrentHasSlot(rows, |rows|, i);
    }
  }

  function ReopenRow(sr: StepRun): StepRun {
    sr.(state := Pending, runID := None, report := "")
  }

  /** A failed attempt is kept and followed by a new one; a step that never finished goes back
      to pending on its own row. */
  function ReopenOne(rows: seq<StepRun>, i: nat): seq<StepRun>
    requires i < |rows|
  {
    match rows[i].state
    case Failed => rows + [NextAttempt(rows[i])]
    case Skipped => rows[i := ReopenRow(rows[i])]
    case Cancelled => rows[i := ReopenRow(rows[i])]
    case _ => rows
  }

  function ReopenRows(rows: seq<StepRun>, cur: seq<nat>): seq<StepRun>
    requires forall k :: 0 <= k < |cur| ==> cur[k] < |rows|
    decreases |cur|
  {
    if cur == [] then rows else ReopenRows(ReopenOne(rows, cur[0]), cur[1..])
  }

  ghost function RetryFailed(s: State, w: World): State {
    if !s.status.Terminal() || !AnyBad(s.rows) then s
    else Advance(s.(rows := ReopenRows(s.rows, CurrentRows(s.rows)), status := Live), w)
  }
}
