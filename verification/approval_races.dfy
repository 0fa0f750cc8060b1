/** Human decisions, the expiry sweep and the pumps that record requests, interleaved statement by statement. */
module ApprovalRaces {
  import opened Approvals

  type Thread = nat
  type Proc = nat

  // A decider is past its guarded update only if the update changed the row.
  datatype Phase = Deciding | Won | Found(proc: Proc) | Finished

  datatype Decider = Decider(id: ApprovalId, verdict: Verdict, phase: Phase)

  /** What a process is told: the request, the answer and the approval behind it, or none for a direct denial. */
  datatype Answer = Answer(proc: Proc, session: string, request: string, allow: bool, approvals: set<ApprovalId>)

  /** asked remembers every request a process has made. */
  datatype System = System(rows: Rows, deciders: map<Thread, Decider>, answers: seq<Answer>,
      asked: set<(string, string)>)

  datatype Action =
    | Ask(id: ApprovalId, session: string, request: string, proc: Proc, now: int)
    | Click(t: Thread, id: ApprovalId, allow: bool)
    | Sweep(t: Thread, id: ApprovalId)
    | Update(t: Thread)
    | Stop(t: Thread)
    | Look(t: Thread, proc: Proc)
    | Tell(t: Thread)
    | ExpireAll(before: int)

  const INITIAL := System(map[], map[], [], {})

  function To(s: System, t: Thread, phase: Phase): System
    requires t in s.deciders
  {
    s.(deciders := s.deciders[t := s.deciders[t].(phase := phase)])
  }

  /** A permission request: recorded as pending, or denied at once when its row cannot be written. */
  function AskStep(s: System, a: Action): System
    requires a.Ask?
  {
    var key := (a.session, a.request);
    if key in s.asked then s
    else
      var s' := s.(asked := s.asked + {key});
      if a.id in s.rows then s'.(answers := s.answers + [Answer(a.proc, a.session, a.request, false, {})])
      else s'.(rows := s.rows[a.id := Approval(a.session, a.request, Pending, a.now)])
  }

  function UpdateStep(s: System, t: Thread): System
    requires t in s.deciders
  {
    var d := s.deciders[t];
    if d.phase != Deciding then s
    else if IsPending(s.rows, d.id) then To(s, t, Won).(rows := Decided(s.rows, d.id, d.verdict))
    else To(s, t, Finished)
  }

  function TellStep(s: System, t: Thread): System
    requires t in s.deciders
  {
    var d := s.deciders[t];
    if d.phase.Found? && d.id in s.rows then
      var row := s.rows[d.id];
      To(s, t, Finished).(answers := s.answers + [Answer(d.phase.proc, row.session, row.request, d.verdict == Allowed,
          {d.id})])
    else s
  }

  /**
   * One statement of anybody. Stop is a decider that gives up after its update: the state write failed, or no process
   * was found. Look gives the process found in the table at that moment, whichever it is.
   */
  function Next(s: System, a: Action): System {
    match a
    case Ask(_, _, _, _, _) => AskStep(s, a)
    case Click(t, id, allow) =>
      if t in s.deciders || id !in s.rows then s
      else s.(deciders := s.deciders[t := Decider(id, if allow then Allowed else Denied, Deciding)])
    case Sweep(t, id) =>
      if t in s.deciders || !IsPending(s.rows, id) then s
          else s.(deciders := s.deciders[t := Decider(id, Expired, Deciding)])
    case Update(t) => if t in s.deciders then UpdateStep(s, t) else s
    case Stop(t) => if t in s.deciders && s.deciders[t].phase == Won then To(s, t, Finished) else s
    case Look(t, proc) => if t in s.deciders && s.deciders[t].phase == Won then To(s, t, Found(proc)) else s
    case Tell(t) => if t in s.deciders then TellStep(s, t) else s
    case ExpireAll(before) => s.(rows := Swept(s.rows, before))
  }

  function Run(s: System, actions: seq<Action>): System
    decreases |actions|
  {
    if actions == [] then s else Run(Next(s, actions[0]), actions[1..])
  }

  // ---------------------------------------------------------------- the invariant

  predicate Committed(s: System, t: Thread) {
    t in s.deciders && (s.deciders[t].phase == Won || s.deciders[t].phase.Found?)
  }

  /** Whoever is past the guarded update left its own verdict there, and is the only one. */
  ghost predicate OneWinner(s: System) {
    && (forall t :: t in s.deciders ==> s.deciders[t].id in s.rows && s.deciders[t].verdict != Pending)
    && (forall t :: Committed(s, t) ==> s.rows[s.deciders[t].id].verdict == s.deciders[t].verdict)
    && (forall t, u :: Committed(s, t) && Committed(s, u) && s.deciders[t].id == s.deciders[u].id ==> t == u)
    && (forall t, i :: Committed(s, t) && 0 <= i < |s.answers| ==> s.deciders[t].id !in s.answers[i].approvals)
  }

  /** Every answer agrees with the row behind it; a direct denial has no row. */
  ghost predicate AnswersAgree(s: System) {
    forall i :: 0 <= i < |s.answers| ==> AnswerAgrees(s, s.answers[i])
  }

  ghost predicate AnswerAgrees(s: System, a: Answer) {
    && (a.session, a.request) in s.asked
    && (a.approvals == {} ==> !a.allow && forall id :: id in s.rows ==>
        (s.rows[id].session, s.rows[id].request) != (a.session, a.request))
    && (forall id :: id in a.approvals ==>
          && id in s.rows && a.approvals == {id} && s.rows[id].session == a.session && s.rows[id].request == a.request
          && s.rows[id].verdict != Pending && (a.allow <==> s.rows[id].verdict == Allowed))
  }

  ghost predicate AnsweredOnce(s: System) {
    forall i, j :: 0 <= i < j < |s.answers| ==>
      (s.answers[i].session, s.answers[i].request) != (s.answers[j].session, s.answers[j].request)
  }

  /** Each request has at most one row. */
  ghost predicate OneRow(s: System) {
    && (forall id :: id in s.rows ==> (s.rows[id].session, s.rows[id].request) in s.asked)
    && (forall i, j :: i in s.rows && j in s.rows ==>
          (s.rows[i].session, s.rows[i].request) == (s.rows[j].session, s.rows[j].request) ==> i == j)
  }

  ghost predicate Inv(s: System) { OneWinner(s) && AnswersAgree(s) && AnsweredOnce(s) && OneRow(s) }

  /** Rows that only leave pending disturb no answer and no request. */
  lemma RowsMove(s: System, s': System)
    requires s'.answers == s.answers && s'.asked == s.asked && s'.rows.Keys == s.rows.Keys
    requires forall id :: id in s.rows ==> s'.rows[id] == s.rows[id].(verdict := s'.rows[id].verdict)
    requires forall id :: id in s.rows && s.rows[id].verdict != Pending ==> s'.rows[id] == s.rows[id]
    requires AnswersAgree(s) && AnsweredOnce(s) && OneRow(s)
    ensures AnswersAgree(s') && AnsweredOnce(s') && OneRow(s')
  {
    forall i | 0 <= i < |s'.answers| ensures AnswerAgrees(s', s'.answers[i]) {
      assert AnswerAgrees(s, s.answers[i]);
    }
  }

  lemma WinnerKeeps(s: System, t: Thread)
    requires OneWinner(s) && AnswersAgree(s) && t in s.deciders
    ensures OneWinner(UpdateStep(s, t))
  {
    var s' := UpdateStep(s, t);
    if s'.rows != s.rows {
      forall i | 0 <= i < |s.answers| ensures s.deciders[t].id !in s.answers[i].approvals {
        assert AnswerAgrees(s, s.answers[i]);
      }
    }
  }

  lemma UpdateKeeps(s: System, t: Thread)
    requires Inv(s) && t in s.deciders
    ensures Inv(UpdateStep(s, t))
  {
    hide OneWinner, AnswersAgree, AnsweredOnce, OneRow;
    WinnerKeeps(s, t);
    RowsMove(s, UpdateStep(s, t));
  }

  lemma ExpireKeeps(s: System, before: int)
    requires Inv(s)
    ensures Inv(s.(rows := Swept(s.rows, before)))
  {
    hide AnswersAgree, AnsweredOnce, OneRow;
    RowsMove(s, s.(rows := Swept(s.rows, before)));
  }

  /** One more answer, for a request no earlier answer was for. */
  lemma AnswerAdded(s: System, s': System, a: Answer)
    requires AnswersAgree(s) && AnsweredOnce(s)
    requires s'.rows == s.rows && s.asked <= s'.asked && s'.answers == s.answers + [a]
    requires AnswerAgrees(s', a)
    requires forall i :: 0 <= i < |s.answers| ==> (s.answers[i].session, s.answers[i].request) != (a.session, a.request)
    ensures AnswersAgree(s') && AnsweredOnce(s')
  {
    forall i | 0 <= i < |s'.answers| ensures AnswerAgrees(s', s'.answers[i]) {
      if i < |s.answers| {
        assert AnswerAgrees(s, s.answers[i]);
      }
    }
  }

  /** A request nobody made before has no answer and no row. */
  lemma NotAskedYet(s: System, session: string, request: string)
    requires AnswersAgree(s) && OneRow(s) && (session, request) !in s.asked
    ensures forall i :: 0 <= i < |s.answers| ==> (s.answers[i].session, s.answers[i].request) != (session, request)
    ensures forall id :: id in s.rows ==> (s.rows[id].session, s.rows[id].request) != (session, request)
  {
    forall i | 0 <= i < |s.answers| ensures (s.answers[i].session, s.answers[i].request) != (session, request) {
      assert AnswerAgrees(s, s.answers[i]);
    }
  }

  lemma DenyKeeps(s: System, a: Action)
    requires Inv(s) && a.Ask? && (a.session, a.request) !in s.asked && a.id in s.rows
    ensures Inv(AskStep(s, a))
  {
    hide AnswersAgree, AnsweredOnce;
    NotAskedYet(s, a.session, a.request);
    AnswerAdded(s, AskStep(s, a), Answer(a.proc, a.session, a.request, false, {}));
  }

  lemma RecordKeepsRows(s: System, a: Action)
    requires Inv(s) && a.Ask? && (a.session, a.request) !in s.asked && a.id !in s.rows
    ensures OneWinner(AskStep(s, a)) && OneRow(AskStep(s, a))
  {
    hide AnswersAgree, AnsweredOnce;
    NotAskedYet(s, a.session, a.request);
  }

  lemma RecordKeepsAnswers(s: System, a: Action)
    requires Inv(s) && a.Ask? && (a.session, a.request) !in s.asked && a.id !in s.rows
    ensures AnswersAgree(AskStep(s, a)) && AnsweredOnce(AskStep(s, a))
  {
    hide OneWinner, OneRow;
    NotAskedYet(s, a.session, a.request);
    forall i | 0 <= i < |s.answers| ensures AnswerAgrees(AskStep(s, a), s.answers[i]) {
      assert AnswerAgrees(s, s.answers[i]);
    }
  }

  lemma AskKeeps(s: System, a: Action)
    requires Inv(s) && a.Ask?
    ensures Inv(AskStep(s, a))
  {
    hide OneWinner, AnswersAgree, AnsweredOnce, OneRow;
    if (a.session, a.request) !in s.asked {
      if a.id in s.rows {
        DenyKeeps(s, a);
      } else {
        RecordKeepsRows(s, a);
        RecordKeepsAnswers(s, a);
      }
    }
  }

  /** An answered approval has no decider on its way, so a telling decider's request has no answer yet. */
  lemma NotToldYet(s: System, t: Thread)
    requires Inv(s) && Committed(s, t)
    ensures var row := s.rows[s.deciders[t].id];
            forall i :: 0 <= i < |s.answers| ==>
                (s.answers[i].session, s.answers[i].request) != (row.session, row.request)
  {
    var id := s.deciders[t].id;
    forall i | 0 <= i < |s.answers|
      ensures (s.answers[i].session, s.answers[i].request) != (s.rows[id].session, s.rows[id].request)
    {
      var a := s.answers[i];
      assert AnswerAgrees(s, a);
      if a.approvals != {} {
        var other :| other in a.approvals;
      }
    }
  }

  lemma TellKeeps(s: System, t: Thread)
    requires Inv(s) && t in s.deciders
    ensures Inv(TellStep(s, t))
  {
    hide AnswersAgree, AnsweredOnce;
    var d := s.deciders[t];
    if d.phase.Found? {
      NotToldYet(s, t);
      var row := s.rows[d.id];
      AnswerAdded(s, TellStep(s, t), Answer(d.phase.proc, row.session, row.request, d.verdict == Allowed, {d.id}));
    }
  }

  lemma MoveKeeps(s: System, t: Thread, phase: Phase)
    requires Inv(s) && t in s.deciders && s.deciders[t].phase == Won && phase != Deciding
    ensures Inv(To(s, t, phase))
  {
    forall i | 0 <= i < |s.answers| ensures AnswerAgrees(To(s, t, phase), s.answers[i]) {
      assert AnswerAgrees(s, s.answers[i]);
    }
  }

  lemma EnterKeeps(s: System, t: Thread, id: ApprovalId, verdict: Verdict)
    requires Inv(s) && t !in s.deciders && id in s.rows && verdict != Pending
    ensures Inv(s.(deciders := s.deciders[t := Decider(id, verdict, Deciding)]))
  {}

  lemma NextKeeps(s: System, a: Action)
    requires Inv(s)
    ensures Inv(Next(s, a))
  {
    hide Inv, AskStep, UpdateStep, TellStep, Swept;
    if Next(s, a) != s {
      match a
      case Ask(_, _, _, _, _) => AskKeeps(s, a);
      case Click(t, id, allow) => EnterKeeps(s, t, id, if allow then Allowed else Denied);
      case Sweep(t, id) => EnterKeeps(s, t, id, Expired);
      case Update(t) => UpdateKeeps(s, t);
      case Stop(t) => MoveKeeps(s, t, Finished);
      case Look(t, proc) => MoveKeeps(s, t, Found(proc));
      case Tell(t) => TellKeeps(s, t);
      case ExpireAll(before) => ExpireKeeps(s, before);
    }
  }

  lemma {:induction false} RunInv(s: System, actions: seq<Action>)
    requires Inv(s)
    ensures Inv(Run(s, actions))
    decreases |actions|
  {
    hide Inv, Next;
    if actions != [] {
      NextKeeps(s, actions[0]);
      RunInv(Next(s, actions[0]), actions[1..]);
    }
  }

  // ---------------------------------------------------------------- main results

  /** Over every interleaving, a process gets at most one answer for a request, and every answer is the stored one. */
  lemma OneAnswerAsStored(actions: seq<Action>)
    ensures var s := Run(INITIAL, actions);
            && (forall i, j :: 0 <= i < j < |s.answers| ==>
                  (s.answers[i].session, s.answers[i].request) != (s.answers[j].session, s.answers[j].request))
            && (forall i, id :: 0 <= i < |s.answers| && id in s.answers[i].approvals ==>
                  && id in s.rows && s.rows[id].verdict != Pending
                  && (s.rows[id].session, s.rows[id].request) == (s.answers[i].session, s.answers[i].request)
                  && (s.answers[i].allow <==> s.rows[id].verdict == Allowed))
            && (forall i :: 0 <= i < |s.answers| && s.answers[i].allow ==> s.answers[i].approvals != {})
  {
    hide Run, OneWinner, OneRow;
    InitInv();
    RunInv(INITIAL, actions);
    var s := Run(INITIAL, actions);
    forall i | 0 <= i < |s.answers| ensures AnswerAgrees(s, s.answers[i]) {}
  }

  lemma StepKeepsDecided(s: System, a: Action, id: ApprovalId)
    requires id in s.rows && s.rows[id].verdict != Pending
    ensures id in Next(s, a).rows && Next(s, a).rows[id] == s.rows[id]
  {}

  /** Once an approval has left pending, nothing any decider, sweep or pump does changes its row again. */
  lemma {:induction false} LeavesPendingOnce(s: System, more: seq<Action>, id: ApprovalId)
    requires id in s.rows && s.rows[id].verdict != Pending
    ensures id in Run(s, more).rows && Run(s, more).rows[id] == s.rows[id]
    decreases |more|
  {
    hide Next;
    if more != [] {
      StepKeepsDecided(s, more[0], id);
      LeavesPendingOnce(Next(s, more[0]), more[1..], id);
    }
  }

  /** Two deciders never both win an approval, and the winner's verdict is the stored one. */
  lemma OneDeciderWins(actions: seq<Action>, t: Thread, u: Thread)
    ensures var s := Run(INITIAL, actions);
            && (Committed(s, t) && Committed(s, u) ==> s.deciders[t].id == s.deciders[u].id ==> t == u)
            && (Committed(s, t) ==>
                  s.deciders[t].id in s.rows && s.rows[s.deciders[t].id].verdict == s.deciders[t].verdict)
  {
    hide Run, AnswersAgree, AnsweredOnce, OneRow;
    InitInv();
    RunInv(INITIAL, actions);
  }

  lemma InitInv()
    ensures Inv(INITIAL)
  {}

  // ---------------------------------------------------------------- what was asked for is what is stored

  /** The verdict a decider that entered with this action works for. */
  predicate Means(a: Action, t: Thread, id: ApprovalId, verdict: Verdict) {
    || (verdict == Allowed && a == Click(t, id, true))
    || (verdict == Denied && a == Click(t, id, false))
    || (verdict == Expired && a == Sweep(t, id))
  }

  /** Row id holds a verdict somebody in this history asked for, or is too old for a bulk expiry in it. */
  ghost predicate Meant(actions: seq<Action>, id: ApprovalId, row: Approval) {
    || row.verdict == Pending
    || (exists t, a :: a in actions && Means(a, t, id, row.verdict))
    || (row.verdict == Expired && exists before :: ExpireAll(before) in actions && row.createdAt < before)
  }

  /** The process an answer goes to is one a decider found, or the one that asked. */
  ghost predicate Addressed(actions: seq<Action>, a: Answer) {
    if a.approvals != {} then exists t :: Look(t, a.proc) in actions
    else exists id, now :: Ask(id, a.session, a.request, a.proc, now) in actions
  }

  ghost predicate Traced(all: seq<Action>, s: System) {
    && (forall t :: t in s.deciders ==> DeciderMeant(all, t, s.deciders[t]))
    && (forall id :: id in s.rows ==> Meant(all, id, s.rows[id]))
    && (forall i :: 0 <= i < |s.answers| ==> Addressed(all, s.answers[i]))
  }

  ghost predicate DeciderMeant(all: seq<Action>, t: Thread, d: Decider) {
    (exists a :: a in all && Means(a, t, d.id, d.verdict)) && (d.phase.Found? ==> Look(t, d.phase.proc) in all)
  }

  lemma DecidersTraced(all: seq<Action>, s: System, a: Action, t: Thread)
    requires Traced(all, s) && a in all && t in Next(s, a).deciders
    ensures DeciderMeant(all, t, Next(s, a).deciders[t])
  {
    hide Meant, Addressed;
    assert t in s.deciders ==> DeciderMeant(all, t, s.deciders[t]);
    if t !in s.deciders {
      assert Means(a, t, Next(s, a).deciders[t].id, Next(s, a).deciders[t].verdict);
    }
  }

  lemma RowsTraced(all: seq<Action>, s: System, a: Action, id: ApprovalId)
    requires Traced(all, s) && a in all && id in Next(s, a).rows
    ensures Meant(all, id, Next(s, a).rows[id])
  {
    hide Addressed;
    assert id in s.rows ==> Meant(all, id, s.rows[id]);
    if a.Update? && a.t in s.deciders {
      assert DeciderMeant(all, a.t, s.deciders[a.t]);
    }
  }

  lemma AnswersTraced(all: seq<Action>, s: System, a: Action, i: nat)
    requires Traced(all, s) && a in all && i < |Next(s, a).answers|
    ensures Addressed(all, Next(s, a).answers[i])
  {
    hide Meant;
    if i < |s.answers| {
      assert Addressed(all, s.answers[i]) && Next(s, a).answers[i] == s.answers[i];
    } else if a.Tell? {
      assert DeciderMeant(all, a.t, s.deciders[a.t]);
    }
  }

  lemma {:induction false} RunTraced(all: seq<Action>, s: System, more: seq<Action>)
    requires Traced(all, s) && forall a :: a in more ==> a in all
    ensures Traced(all, Run(s, more))
    decreases |more|
  {
    hide Next, DeciderMeant, Meant, Addressed;
    if more != [] {
      var s1 := Next(s, more[0]);
      forall t | t in s1.deciders ensures DeciderMeant(all, t, s1.deciders[t]) {
        DecidersTraced(all, s, more[0], t);
      }
      forall id | id in s1.rows ensures Meant(all, id, s1.rows[id]) {
        RowsTraced(all, s, more[0], id);
      }
      forall i | 0 <= i < |s1.answers| ensures Addressed(all, s1.answers[i]) {
        AnswersTraced(all, s, more[0], i);
      }
      RunTraced(all, s1, more[1..]);
    }
  }

  /**
   * Over every interleaving a stored verdict is one that was asked for: a row is allowed only if somebody clicked allow
   * on it, denied only if somebody clicked deny, and expired only by a sweep that took it up or a bulk expiry it was
   * too old for. So a process is told allow only for a request somebody allowed, and every answer goes to a process a
   * decider found, or is the direct denial to the process that asked.
   */
  lemma StoredAsMeant(actions: seq<Action>)
    ensures var s := Run(INITIAL, actions);
            && (forall id :: id in s.rows ==> Meant(actions, id, s.rows[id]))
            && (forall i :: 0 <= i < |s.answers| ==> Addressed(actions, s.answers[i]))
            && (forall i :: 0 <= i < |s.answers| && s.answers[i].allow ==>
                  exists t, id :: s.answers[i].approvals == {id} && Click(t, id, true) in actions)
  {
    hide Run, Meant, Addressed;
    RunTraced(actions, INITIAL, actions);
    OneAnswerAsStored(actions);
    var s := Run(INITIAL, actions);
    forall i | 0 <= i < |s.answers| && s.answers[i].allow
      ensures exists t, id :: s.answers[i].approvals == {id} && Click(t, id, true) in actions
    {
      AllowedWasClicked(actions, s, i);
    }
  }

  lemma AllowedWasClicked(actions: seq<Action>, s: System, i: nat)
    requires s == Run(INITIAL, actions) && i < |s.answers| && s.answers[i].allow && Traced(actions, s)
    ensures exists t, id :: s.answers[i].approvals == {id} && Click(t, id, true) in actions
  {
    hide Run, OneWinner, OneRow, AnsweredOnce;
    InitInv();
    RunInv(INITIAL, actions);
    assert AnswerAgrees(s, s.answers[i]);
    var id :| id in s.answers[i].approvals;
    assert Meant(actions, id, s.rows[id]);
    var t, a :| a in actions && Means(a, t, id, Allowed);
  }

  // ---------------------------------------------------------------- what one decider does

  /** Past its entry a decider keeps its approval and its verdict. */
  lemma {:induction false} DeciderStays(s: System, more: seq<Action>, t: Thread)
    requires t in s.deciders
    ensures var s' := Run(s, more);
            t in s'.deciders && s'.deciders[t].id == s.deciders[t].id && s'.deciders[t].verdict == s.deciders[t].verdict
    decreases |more|
  {
    hide Next;
    if more != [] {
      DeciderStep(s, more[0], t);
      DeciderStays(Next(s, more[0]), more[1..], t);
    }
  }

  lemma DeciderStep(s: System, a: Action, t: Thread)
    requires t in s.deciders
    ensures var s' := Next(s, a);
            t in s'.deciders && s'.deciders[t].id == s.deciders[t].id && s'.deciders[t].verdict == s.deciders[t].verdict
  {}

  lemma {:induction false} RunAppend(s: System, a: seq<Action>, b: seq<Action>)
    ensures Run(s, a + b) == Run(Run(s, a), b)
    decreases |a|
  {
    hide Next;
    if a == [] {
      assert a + b == b;
    } else {
      assert (a + b)[0] == a[0] && (a + b)[1..] == a[1..] + b;
      RunAppend(Next(s, a[0]), a[1..], b);
    }
  }

  /**
   * A decider that enters by a click, whatever happens before and after: when it wins, the row holds allow exactly when
   * allow was clicked, and what it then tells the process it found is just that, about this request. One that enters by
   * the sweep stores expired and tells the process no.
   */
  lemma DeciderDoesAsAsked(before: seq<Action>, entry: Action, after: seq<Action>, t: Thread, id: ApprovalId)
    requires var s0 := Run(INITIAL, before);
             t !in s0.deciders && id in s0.rows && (entry.Sweep? ==> IsPending(s0.rows, id))
    requires entry == Sweep(t, id) || entry == Click(t, id, true) || entry == Click(t, id, false)
    ensures var s := Run(INITIAL, before + [entry] + after);
            var allow := entry == Click(t, id, true);
            && t in s.deciders && s.deciders[t].id == id && id in s.rows
            && (Committed(s, t) ==>
                  s.rows[id].verdict == if entry.Sweep? then Expired else if allow then Allowed else Denied)
            && (s.deciders[t].phase.Found? ==>
                  var told := Answer(s.deciders[t].phase.proc, s.rows[id].session, s.rows[id].request, allow, {id});
                  Next(s, Tell(t)).answers == s.answers + [told])
            && (!s.deciders[t].phase.Found? ==> Next(s, Tell(t)) == s)
  {
    var s0 := Run(INITIAL, before);
    RunAppend(INITIAL, before + [entry], after);
    RunAppend(INITIAL, before, [entry]);
    var s1 := Next(s0, entry);
    assert Run(s0, [entry]) == s1 by {
      assert [entry][1..] == [];
    }
    EntryIs(s0, entry, t, id);
    DeciderStays(s1, after, t);
    InitInv();
    RunInv(INITIAL, before + [entry] + after);
    hide Run, AnswersAgree, AnsweredOnce, OneRow;
  }

  lemma EntryIs(s: System, entry: Action, t: Thread, id: ApprovalId)
    requires t !in s.deciders && id in s.rows && (entry.Sweep? ==> IsPending(s.rows, id))
    requires entry == Sweep(t, id) || entry == Click(t, id, true) || entry == Click(t, id, false)
    ensures t in Next(s, entry).deciders
    ensures Next(s, entry).deciders[t] == Decider(id, if entry.Sweep? then Expired
                                                      else if entry.allow then Allowed else Denied, Deciding)
  {}

  /** Nobody in between, a click on a pending approval is stored, and told to the process that is found. */
  lemma ClickIsAnswered(s: System, t: Thread, id: ApprovalId, allow: bool, proc: Proc)
    requires t !in s.deciders && IsPending(s.rows, id)
    ensures var s' := Run(s, [Click(t, id, allow), Update(t), Look(t, proc), Tell(t)]);
            var row := s.rows[id];
            && s'.rows == s.rows[id := row.(verdict := if allow then Allowed else Denied)]
            && s'.answers == s.answers + [Answer(proc, row.session, row.request, allow, {id})]
  {
    var s1 := Next(s, Click(t, id, allow));
    var s2 := Next(s1, Update(t));
    RunFour(s, Click(t, id, allow), Update(t), Look(t, proc), Tell(t));
    assert s2.rows == Run(s, [Click(t, id, allow), Update(t), Look(t, proc), Tell(t)]).rows;
  }

  lemma RunFour(s: System, a: Action, b: Action, c: Action, d: Action)
    ensures Run(s, [a, b, c, d]) == Next(Next(Next(Next(s, a), b), c), d)
  {
    hide Next;
    assert [a, b, c, d][1..] == [b, c, d] && [b, c, d][1..] == [c, d] && [c, d][1..] == [d] && [d][1..] == [];
    assert Run(s, [a, b, c, d]) == Run(Next(s, a), [b, c, d]);
    assert Run(Next(Next(s, a), b), [c, d]) == Run(Next(Next(Next(s, a), b), c), [d]);
  }

  /** A request made for the first time waits on a pending row of its own, or is denied at once when its row cannot be
      written; asking again changes nothing. */
  lemma AskedOnce(s: System, id: ApprovalId, session: string, request: string, proc: Proc, now: int)
    ensures var s' := Next(s, Ask(id, session, request, proc, now));
            && ((session, request) in s.asked ==> s' == s)
            && ((session, request) !in s.asked ==>
                  if id in s.rows
                  then s'.rows == s.rows && s'.answers == s.answers + [Answer(proc, session, request, false, {})]
                  else s'.rows == s.rows[id := Approval(session, request, Pending, now)] && s'.answers == s.answers)
  {}

  /** From the request to the answer, with nobody in between: a click on a request that was just made is told to the
      process found, about that request. */
  lemma RequestIsAnswered(s: System, ask: Action, t: Thread, allow: bool, proc: Proc)
    requires ask.Ask? && (ask.session, ask.request) !in s.asked && ask.id !in s.rows && t !in s.deciders
    ensures var s' := Run(Next(s, ask), [Click(t, ask.id, allow), Update(t), Look(t, proc), Tell(t)]);
            && s'.rows == s.rows[ask.id :=
                 Approval(ask.session, ask.request, if allow then Allowed else Denied, ask.now)]
            && s'.answers == s.answers + [Answer(proc, ask.session, ask.request, allow, {ask.id})]
  {
    hide Run;
    AskedOnce(s, ask.id, ask.session, ask.request, ask.proc, ask.now);
    ClickIsAnswered(Next(s, ask), t, ask.id, allow, proc);
  }

  // ---------------------------------------------------------------- verdicts nobody hears of

  /** The approval is decided, nobody is on the way to answer it, and nobody has. */
  ghost predicate Silent(s: System, id: ApprovalId) {
    && id in s.rows && s.rows[id].verdict != Pending
    && (forall t :: Committed(s, t) ==> s.deciders[t].id != id)
    && (forall i :: 0 <= i < |s.answers| ==> id !in s.answers[i].approvals)
  }

  lemma SilentStep(s: System, a: Action, id: ApprovalId)
    requires Silent(s, id)
    ensures Silent(Next(s, a), id) && Next(s, a).rows[id] == s.rows[id]
  {}

  lemma {:induction false} StaysSilent(s: System, more: seq<Action>, id: ApprovalId)
    requires Silent(s, id)
    ensures Silent(Run(s, more), id) && Run(s, more).rows[id] == s.rows[id]
    decreases |more|
  {
    hide Next, Silent;
    if more != [] {
      SilentStep(s, more[0], id);
      StaysSilent(Next(s, more[0]), more[1..], id);
    }
  }

  /** A decider that wins and then gives up leaves its verdict stored, and nobody ever answers the request. */
  lemma GivenUpIsSilent(s: System, t: Thread, more: seq<Action>)
    requires Inv(s) && t in s.deciders && s.deciders[t].phase == Won
    ensures var d, s' := s.deciders[t], Run(Next(s, Stop(t)), more);
            && d.id in s'.rows && s'.rows[d.id].verdict == d.verdict
            && forall i :: 0 <= i < |s'.answers| ==> d.id !in s'.answers[i].approvals
  {
    hide Run, AnswersAgree, AnsweredOnce, OneRow;
    StaysSilent(Next(s, Stop(t)), more, s.deciders[t].id);
  }

  /** The bulk expiry expires exactly the pending rows that are too old, and nobody ever answers one of those. */
  lemma BulkExpiryIsSilent(s: System, before: int, more: seq<Action>)
    requires Inv(s)
    ensures var s1 := Next(s, ExpireAll(before));
            && s1.rows.Keys == s.rows.Keys && s1.answers == s.answers && s1.deciders == s.deciders
            && forall id :: id in s.rows ==>
                if s.rows[id].verdict == Pending && s.rows[id].createdAt < before
                then s1.rows[id] == s.rows[id].(verdict := Expired) && Unanswered(Run(s1, more), id, s1.rows[id])
                else s1.rows[id] == s.rows[id]
  {
    hide Run;
    var s1 := Next(s, ExpireAll(before));
    forall id | id in s.rows && s.rows[id].verdict == Pending && s.rows[id].createdAt < before
      ensures Unanswered(Run(s1, more), id, s1.rows[id])
    {
      PendingIsSilent(s, before, id);
      StaysSilent(s1, more, id);
    }
  }

  ghost predicate Unanswered(s: System, id: ApprovalId, row: Approval) {
    id in s.rows && s.rows[id] == row && forall i :: 0 <= i < |s.answers| ==> id !in s.answers[i].approvals
  }

  lemma PendingIsSilent(s: System, before: int, id: ApprovalId)
    requires Inv(s) && IsPending(s.rows, id) && s.rows[id].createdAt < before
    ensures Silent(Next(s, ExpireAll(before)), id)
  {
    hide AnsweredOnce, OneRow;
    forall i | 0 <= i < |s.answers| ensures id !in s.answers[i].approvals {
      assert AnswerAgrees(s, s.answers[i]);
    }
  }
}
