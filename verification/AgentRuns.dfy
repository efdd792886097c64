/**
 Run rows of the agent store. Event handlers race for a row by reads and
 conditional updates, each atomic on its own, and end it by unconditional
 updates; nothing stops a late handler.
 */
module AgentRuns {
  import opened Domain

  const STALE_AFTER: nat := 180_000

  datatype Status = Running | Completed | RunFailed

  datatype AgentRun = AgentRun(status: Status, attempts: nat, createdAt: int, startedAt: Option<int>)

  /** Where a handler stands; from `Working` on it acts for the event. */
  datatype Stage =
    | Looking                    // about to read the row
    | Creating                   // found no row
    | Reclaiming(seen: Status)   // found a failed or stale row
    | Rereading                  // lost the race for the row
    | Working
    | Replied

  datatype Task = Task(event: EventId, stage: Stage) {
    predicate Active() {
      stage.Working? || stage.Replied?
    }
  }

  /** `failedOnce` remembers which runs were ever marked failed. */
  datatype State = State(
    runs: map<EventId, AgentRun>, tasks: map<int, Task>, turns: set<EventId>, failedOnce: set<EventId>)

  const INITIAL := State(map[], map[], {}, {})

  datatype Action =
    | Look
    | Create
    | ReclaimFailed
    | ReclaimStale
    | Reread
    | Begin
    | ReplySent
    | AddTurn
    | Complete
    | Fail
    | Crash

  predicate Stale(run: AgentRun, now: int) {
    run.status == Running && (if run.startedAt.Some? then run.startedAt.value else run.createdAt) < now - STALE_AFTER
  }

  predicate Enabled(stage: Stage, x: Action) {
    match x
    case Look => stage.Looking?
    case Create => stage.Creating?
    case ReclaimFailed => stage.Reclaiming?
    case ReclaimStale => stage.Reclaiming? && stage.seen == Running
    case Reread => stage.Rereading?
    case Begin => stage.Working?
    case ReplySent => stage.Working?
    case Fail => stage.Working?
    case AddTurn => stage.Replied?
    case Complete => stage.Replied?
    case Crash => true
  }

  function Goto(s: State, w: int, e: EventId, stage: Stage): State {
    s.(tasks := s.tasks[w := Task(e, stage)])
  }

  function Leave(s: State, w: int): State {
    s.(tasks := s.tasks - {w})
  }

  function WithRun(s: State, e: EventId, run: AgentRun): State {
    s.(runs := s.runs[e := run])
  }

  /** UpdateRun addresses the row by its id only. */
  function WithStatus(s: State, e: EventId, status: Status): State {
    if e in s.runs then WithRun(s, e, s.runs[e].(status := status)) else s
  }

  function Perform(s: State, w: int, x: Action, now: int): State {
    if w !in s.tasks || !Enabled(s.tasks[w].stage, x) then s
    else
      var e, stage := s.tasks[w].event, s.tasks[w].stage;
      match x
      case Look =>
        if e !in s.runs then Goto(s, w, e, Creating)
        else if s.runs[e].status == RunFailed || Stale(s.runs[e], now)
        then Goto(s, w, e, Reclaiming(s.runs[e].status))
        else Leave(s, w)
      case Create =>
        if e in s.runs then Goto(s, w, e, Rereading)
        else Goto(WithRun(s, e, AgentRun(Running, 1, now, None)), w, e, Working)
      case ReclaimFailed =>
        var won := e in s.runs && s.runs[e].status == RunFailed;
        var s1 := if won
                  then WithRun(s, e, s.runs[e].(status := Running, attempts := s.runs[e].attempts + 1)) else s;
        // a handler that saw a stale run still has its own update to try
        if stage.Reclaiming? && stage.seen == Running then s1
        else Goto(s1, w, e, if won then Working else Rereading)
      case ReclaimStale =>
        if e in s.runs && Stale(s.runs[e], now)
        then Goto(WithRun(s, e, s.runs[e].(attempts := s.runs[e].attempts + 1)), w, e, Working)
        else Goto(s, w, e, Rereading)
      case Reread =>
        if e in s.runs && s.runs[e].status == RunFailed then Goto(s, w, e, Working) else Leave(s, w)
      case Begin =>
        if e in s.runs then WithRun(s, e, s.runs[e].(status := Running, startedAt := Some(now))) else s
      case ReplySent => Goto(s, w, e, Replied)
      case AddTurn => s.(turns := s.turns + {e})
      case Complete => Leave(WithStatus(s, e, Completed), w)
      case Fail => Leave(WithStatus(s, e, RunFailed), w).(failedOnce := s.failedOnce + {e})
      case Crash => Leave(s, w)
  }

  datatype Label =
    | Start(worker: int, event: EventId)
    | Act(worker: int, action: Action, now: int)

  function Step(s: State, l: Label): State {
    match l
    case Start(w, e) => if w in s.tasks then s else Goto(s, w, e, Looking)
    case Act(w, x, now) => Perform(s, w, x, now)
  }

  function Run(labels: seq<Label>): State {
    if labels == [] then INITIAL
    else Step(Run(labels[..|labels| - 1]), labels[|labels| - 1])
  }

  predicate ActiveOn(s: State, w: int, e: EventId) {
    w in s.tasks && s.tasks[w].event == e && s.tasks[w].Active()
  }

  /** The run of `e` was granted once and was never marked failed. */
  predicate FirstAttempt(s: State, e: EventId) {
    e in s.runs && s.runs[e].attempts == 1 && e !in s.failedOnce
  }

  ghost predicate RunsOk(s: State) {
    && (forall e :: e in s.runs ==> s.runs[e].attempts >= 1 && (s.runs[e].status == RunFailed ==> e in s.failedOnce))
    && (forall w, e :: ActiveOn(s, w, e) ==> e in s.runs)
  }

  /** During a first attempt that was never marked failed, at most one handler acts for the event. */
  ghost predicate SingleWorker(s: State) {
    forall v, w, e :: ActiveOn(s, v, e) && ActiveOn(s, w, e) && FirstAttempt(s, e) ==> v == w
  }

  /** What an action may change about who acts for which event. */
  ghost predicate Effect(s: State, w: int, s': State) {
    && RunsOk(s')
    && (forall v, e :: v != w ==> ActiveOn(s', v, e) == ActiveOn(s, v, e))
    && (forall e :: FirstAttempt(s', e) ==> FirstAttempt(s, e) || e !in s.runs)
    && (forall e :: ActiveOn(s', w, e) && FirstAttempt(s', e) ==> ActiveOn(s, w, e) || e !in s.runs)
  }

  lemma ClaimEffect(s: State, w: int, x: Action, now: int)
    requires RunsOk(s) && (x.Look? || x.Create? || x.Reread?)
    ensures Effect(s, w, Perform(s, w, x, now))
  {
    var s' := Perform(s, w, x, now);
    assert forall v, e :: v != w ==> ActiveOn(s', v, e) == ActiveOn(s, v, e);
  }

  lemma ReclaimEffect(s: State, w: int, x: Action, now: int)
    requires RunsOk(s) && (x.ReclaimFailed? || x.ReclaimStale?)
    ensures Effect(s, w, Perform(s, w, x, now))
  {
    var s' := Perform(s, w, x, now);
    assert forall v, e :: v != w ==> ActiveOn(s', v, e) == ActiveOn(s, v, e);
  }

  lemma WorkEffect(s: State, w: int, x: Action, now: int)
    requires RunsOk(s) && !(x.Look? || x.Create? || x.ReclaimFailed? || x.ReclaimStale? || x.Reread?)
    ensures Effect(s, w, Perform(s, w, x, now))
  {
    var s' := Perform(s, w, x, now);
    assert forall v, e :: v != w ==> ActiveOn(s', v, e) == ActiveOn(s, v, e);
    assert w in s.tasks ==> ActiveOn(s, w, s.tasks[w].event) == s.tasks[w].Active();
  }

  lemma PerformEffect(s: State, w: int, x: Action, now: int)
    requires RunsOk(s)
    ensures Effect(s, w, Perform(s, w, x, now))
  {
    if x.Look? || x.Create? || x.Reread? {
      ClaimEffect(s, w, x, now);
    } else if x.ReclaimFailed? || x.ReclaimStale? {
      ReclaimEffect(s, w, x, now);
    } else {
      WorkEffect(s, w, x, now);
    }
  }

  lemma StepKeepsSingleWorker(s: State, l: Label)
    requires RunsOk(s) && SingleWorker(s)
    ensures RunsOk(Step(s, l)) && SingleWorker(Step(s, l))
  {
    if l.Act? {
      PerformEffect(s, l.worker, l.action, l.now);
    } else {
      assert forall v, e :: ActiveOn(Step(s, l), v, e) == ActiveOn(s, v, e);
    }
  }

  lemma {:induction false} RunHasSingleWorker(labels: seq<Label>)
    ensures RunsOk(Run(labels)) && SingleWorker(Run(labels))
  {
    if labels != [] {
      RunHasSingleWorker(labels[..|labels| - 1]);
      StepKeepsSingleWorker(Run(labels[..|labels| - 1]), labels[|labels| - 1]);
    }
  }

  // ------------------------------------------------------------ when a second handler acts

  /** When the work on a row last began, or the row was made if it never did. */
  function Since(run: AgentRun): int {
    match run.startedAt
    case Some(t) => t
    case None => run.createdAt
  }

  /** The action of w finds the row of its event failed, or running for more than three minutes, and takes it. */
  predicate TakesOver(s: State, w: int, x: Action, now: int) {
    w in s.tasks && s.tasks[w].event in s.runs &&
    var run, stage := s.runs[s.tasks[w].event], s.tasks[w].stage;
    match x
    case ReclaimFailed => stage.Reclaiming? && stage.seen != Running && run.status == RunFailed
    case Reread => stage.Rereading? && run.status == RunFailed
    case ReclaimStale => stage.Reclaiming? && stage.seen == Running && run.status == Running && now - Since(run) > 180_000
    case _ => false
  }

  /** While v acts for an event, another handler starts acting for it exactly by taking over such a row. */
  lemma SecondWorkerIff(s: State, v: int, w: int, x: Action, now: int)
    requires RunsOk(s) && v != w && w in s.tasks
    requires ActiveOn(s, v, s.tasks[w].event) && !s.tasks[w].Active()
    ensures ActiveOn(Perform(s, w, x, now), w, s.tasks[w].event) <==> TakesOver(s, w, x, now)
  {
    assert s.tasks[w].event in s.runs;
  }

  /** The claim of a newcomer from start to end, nobody else moving: look, then create or reclaim, and reread if that failed. */
  function Claim(s: State, w: int, e: EventId, now: int): State {
    var looked := Perform(Step(s, Start(w, e)), w, Look, now);
    if w !in looked.tasks then looked
    else
      var tried := match looked.tasks[w].stage
        case Creating => Perform(looked, w, Create, now)
        case Reclaiming(seen) =>
          var first := Perform(looked, w, ReclaimFailed, now);
          if seen == Running then Perform(first, w, ReclaimStale, now) else first
        case _ => looked;
      Perform(tried, w, Reread, now)
  }

  /**
   A claim makes the newcomer act exactly if there is no row yet, the row is
   failed, or it is running and was started more than three minutes ago, or
   made then and never started; whoever acts for the event goes on acting.
   */
  lemma ClaimAdmitsIff(s: State, w: int, e: EventId, now: int)
    requires w !in s.tasks
    ensures ActiveOn(Claim(s, w, e, now), w, e) <==>
              || e !in s.runs || s.runs[e].status == RunFailed
              || (s.runs[e].status == Running
                  && match s.runs[e].startedAt
                     case Some(t) => now - t > 180_000
                     case None => now - s.runs[e].createdAt > 180_000)
    ensures Claim(s, w, e, now) ==
              if e !in s.runs
              then s.(tasks := s.tasks[w := Task(e, Working)], runs := s.runs[e := AgentRun(Running, 1, now, None)])
              else if ActiveOn(Claim(s, w, e, now), w, e)
              then s.(tasks := s.tasks[w := Task(e, Working)],
                      runs := s.runs[e := s.runs[e].(status := Running, attempts := s.runs[e].attempts + 1)])
              else s
    ensures forall v :: ActiveOn(s, v, e) ==> ActiveOn(Claim(s, w, e, now), v, e)
  {
    var started := Step(s, Start(w, e));
    assert started.runs == s.runs && started.tasks[w] == Task(e, Looking);
    var looked := Perform(started, w, Look, now);
    assert looked.runs == s.runs;
    assert started.tasks - {w} == s.tasks;
  }

  /** A worker's label that takes over a row of e. */
  ghost predicate TakeoverAt(labels: seq<Label>, i: nat, w: int, e: EventId) {
    i < |labels| && labels[i].Act? && labels[i].worker == w &&
    var s := Run(labels[..i]);
    w in s.tasks && s.tasks[w].event == e && TakesOver(s, w, labels[i].action, labels[i].now)
  }

  /** What one action can do to tasks: move its own handler along, never onto another event. */
  lemma PerformFrame(s: State, w: int, x: Action, now: int)
    ensures
      var s' := Perform(s, w, x, now);
      forall v :: v in s'.tasks ==> v in s.tasks && s'.tasks[v].event == s.tasks[v].event
  {
  }

  /** Only the acting worker's task changes, and not its event; starting makes nobody act. */
  lemma StepMovesOne(s: State, l: Label)
    ensures forall v, e :: l.Start? || v != l.worker ==> ActiveOn(Step(s, l), v, e) == ActiveOn(s, v, e)
    ensures forall e :: l.Act? && ActiveOn(Step(s, l), l.worker, e) ==> l.worker in s.tasks && s.tasks[l.worker].event == e
  {
    if l.Act? {
      PerformFrame(s, l.worker, l.action, l.now);
    }
  }

  /** In every run, two handlers act for one event only if one of them took over its row when it was failed or stale. */
  lemma {:induction false} SecondWorkerHasCause(labels: seq<Label>, v: int, w: int, e: EventId)
    requires v != w && ActiveOn(Run(labels), v, e) && ActiveOn(Run(labels), w, e)
    ensures exists i: nat :: TakeoverAt(labels, i, v, e) || TakeoverAt(labels, i, w, e)
  {
    var n := |labels| - 1;
    var before, l := labels[..n], labels[n];
    var s := Run(before);
    RunHasSingleWorker(before);
    StepMovesOne(s, l);
    if ActiveOn(s, v, e) && ActiveOn(s, w, e) {
      SecondWorkerHasCause(before, v, w, e);
      var i: nat :| TakeoverAt(before, i, v, e) || TakeoverAt(before, i, w, e);
      assert before[..i] == labels[..i] && before[i] == labels[i];
      assert TakeoverAt(labels, i, v, e) || TakeoverAt(labels, i, w, e);
    } else if ActiveOn(s, v, e) {
      SecondWorkerIff(s, v, w, l.action, l.now);
      assert TakeoverAt(labels, n, w, e);
    } else {
      SecondWorkerIff(s, w, v, l.action, l.now);
      assert TakeoverAt(labels, n, v, e);
    }
  }

  ghost predicate ClockForward(labels: seq<Label>) {
    forall i, j :: 0 <= i < j < |labels| && labels[i].Act? && labels[j].Act? ==> labels[i].now <= labels[j].now
  }

  /** The row of `e` is made, or the work on it begins. */
  ghost predicate StartedAt(labels: seq<Label>, i: nat, e: EventId) {
    i < |labels| && labels[i].Act? &&
    var s, w := Run(labels[..i]), labels[i].worker;
    && w in s.tasks && s.tasks[w].event == e
    && match labels[i].action
       case Create => s.tasks[w].stage.Creating? && e !in s.runs
       case Begin => s.tasks[w].stage.Working?
       case _ => false
  }

  /** Every row was made by somebody. */
  lemma {:induction false} RowWasMade(labels: seq<Label>, e: EventId)
    requires e in Run(labels).runs
    ensures exists i: nat :: StartedAt(labels, i, e)
  {
    var n := |labels| - 1;
    var before := labels[..n];
    if e in Run(before).runs {
      RowWasMade(before, e);
      var i: nat :| StartedAt(before, i, e);
      assert before[..i] == labels[..i];
      assert StartedAt(labels, i, e);
    } else {
      assert StartedAt(labels, n, e);
    }
  }

  lemma SinceStays(s: State, l: Label, e: EventId, t: int)
    requires e in s.runs && t <= Since(s.runs[e]) && (l.Act? ==> t <= l.now)
    ensures e in Step(s, l).runs && t <= Since(Step(s, l).runs[e])
  {
  }

  /** The row's time is that of its last start. */
  lemma {:induction false} RunningSince(labels: seq<Label>, i: nat, n: nat, e: EventId)
    requires ClockForward(labels) && StartedAt(labels, i, e) && i < n <= |labels|
    ensures e in Run(labels[..n]).runs && labels[i].now <= Since(Run(labels[..n]).runs[e])
    decreases n
  {
    assert labels[..n][..n - 1] == labels[..n - 1] && labels[..n][n - 1] == labels[n - 1];
    if n - 1 > i {
      RunningSince(labels, i, n - 1, e);
      SinceStays(Run(labels[..n - 1]), labels[n - 1], e, labels[i].now);
    } else {
      RunHasSingleWorker(labels[..i]);
      assert labels[i].action.Begin? ==> ActiveOn(Run(labels[..i]), labels[i].worker, e);
    }
  }

  /**
   With a clock that does not go back and a row that was never marked failed:
   after the row was made, a handler starts to act for the event only more than
   three minutes after that, and after every time the work on it began.
   */
  lemma NobodyJoinsEarly(labels: seq<Label>, i: nat, n: nat, e: EventId)
    requires ClockForward(labels) && StartedAt(labels, i, e) && i < n < |labels| && labels[n].Act?
    requires e !in Run(labels[..n]).failedOnce && !ActiveOn(Run(labels[..n]), labels[n].worker, e)
    requires ActiveOn(Run(labels[..n + 1]), labels[n].worker, e)
    ensures labels[n].now - labels[i].now > 180_000
  {
    var s := Run(labels[..n]);
    assert labels[..n + 1][..n] == labels[..n];
    RunningSince(labels, i, n, e);
    RunHasSingleWorker(labels[..n]);
    StepMovesOne(s, labels[n]);
  }

  // ------------------------------------------------------------ what rows and turns record

  /** Label `l` makes the row of `e`, or takes it back to work from failure or from being stale. */
  ghost predicate Grants(s: State, l: Label, e: EventId) {
    l.Act? && l.worker in s.tasks && s.tasks[l.worker].event == e &&
    var stage := s.tasks[l.worker].stage;
    match l.action
    case Create => stage.Creating? && e !in s.runs
    case ReclaimFailed => stage.Reclaiming? && e in s.runs && s.runs[e].status == RunFailed
    case ReclaimStale =>
      stage == Reclaiming(Running) && e in s.runs && s.runs[e].status == Running && l.now - Since(s.runs[e]) > 180_000
    case _ => false
  }

  ghost function GrantCount(labels: seq<Label>, e: EventId): nat {
    if labels == [] then 0
    else
      var before, last := labels[..|labels| - 1], labels[|labels| - 1];
      GrantCount(before, e) + if Grants(Run(before), last, e) then 1 else 0
  }

  lemma GrantRaisesAttempts(s: State, l: Label, e: EventId)
    ensures
      var before := if e in s.runs then s.runs[e].attempts else 0;
      var after := if e in Step(s, l).runs then Step(s, l).runs[e].attempts else 0;
      after == before + if Grants(s, l, e) then 1 else 0
  {
  }

  /** The attempts of a row count how often it was granted. */
  lemma {:induction false} AttemptsCountGrants(labels: seq<Label>, e: EventId)
    ensures GrantCount(labels, e) == if e in Run(labels).runs then Run(labels).runs[e].attempts else 0
  {
    if labels != [] {
      AttemptsCountGrants(labels[..|labels| - 1], e);
      GrantRaisesAttempts(Run(labels[..|labels| - 1]), labels[|labels| - 1], e);
    }
  }

  /** A handler that has sent its reply records the turn. */
  ghost predicate RecordsTurn(labels: seq<Label>, i: nat, e: EventId) {
    i < |labels| && labels[i].Act? && labels[i].action == AddTurn &&
    var tasks := Run(labels[..i]).tasks;
    labels[i].worker in tasks && tasks[labels[i].worker] == Task(e, Replied)
  }

  /** The turn of an event is there exactly if some handler recorded it after its reply, and is never lost. */
  lemma {:induction false} TurnsAreRecorded(labels: seq<Label>, e: EventId)
    ensures e in Run(labels).turns <==> exists i: nat :: RecordsTurn(labels, i, e)
  {
    if labels != [] {
      var n := |labels| - 1;
      TurnsAreRecorded(labels[..n], e);
      forall i: nat | i < n ensures RecordsTurn(labels, i, e) == RecordsTurn(labels[..n], i, e) {
        assert labels[..n][..i] == labels[..i];
      }
      if e in Run(labels).turns && e !in Run(labels[..n]).turns {
        assert RecordsTurn(labels, n, e);
      }
    }
  }

  /** Whoever acts goes on acting until it completes after its reply, fails before it, or crashes. */
  lemma StopsActingIff(s: State, w: int, e: EventId, x: Action, now: int)
    requires ActiveOn(s, w, e)
    ensures !ActiveOn(Perform(s, w, x, now), w, e) <==>
              || x.Crash?
              || (x.Fail? && s.tasks[w].stage.Working?)
              || (x.Complete? && s.tasks[w].stage.Replied?)
  {
  }

  /** A handler may stop anywhere, and nothing else changes. */
  lemma CrashOnlyLeaves(s: State, w: int, now: int)
    ensures Perform(s, w, Crash, now) == s.(tasks := s.tasks - {w})
  {
    assert w !in s.tasks ==> s.tasks - {w} == s.tasks;
  }

  ghost predicate AtTimeZero(labels: seq<Label>) {
    forall i :: 0 <= i < |labels| && labels[i].Act? ==> labels[i].now == 0
  }

  lemma Extend(labels: seq<Label>, l: Label) returns (labels': seq<Label>, s: State)
    ensures labels' == labels + [l]
    ensures s == Step(Run(labels), l) == Run(labels')
  {
    labels', s := labels + [l], Step(Run(labels), l);
    assert labels'[..|labels|] == labels;
  }

  /** One handler creates the run and fails while another is about to create it. */
  lemma FailedRun(e: EventId) returns (ls: seq<Label>, s: State)
    ensures AtTimeZero(ls) && s == Run(ls)
    ensures s == State(map[e := AgentRun(RunFailed, 1, 0, None)], map[2 := Task(e, Creating)], {}, {e})
  {
    ls, s := Extend([], Start(1, e));
    ls, s := Extend(ls, Start(2, e));
    ls, s := Extend(ls, Act(1, Look, 0));
    ls, s := Extend(ls, Act(2, Look, 0));
    ls, s := Extend(ls, Act(1, Create, 0));
    ls, s := Extend(ls, Act(1, Fail, 0));
  }

  /** Once a run was marked failed, two handlers can be at work on it, no row having gone stale. */
  lemma FailureAdmitsSecondWorker(e: EventId)
    ensures exists labels: seq<Label> ::
      AtTimeZero(labels) && ActiveOn(Run(labels), 2, e) && ActiveOn(Run(labels), 3, e)
  {
    var ls, s := FailedRun(e);
    ls, s := Extend(ls, Act(2, Create, 0));
    ls, s := Extend(ls, Act(2, Reread, 0));
    ls, s := Extend(ls, Start(3, e));
    ls, s := Extend(ls, Act(3, Look, 0));
    ls, s := Extend(ls, Act(3, ReclaimFailed, 0));
    assert ActiveOn(s, 2, e) && ActiveOn(s, 3, e);
  }

  /** A handler that is still at work when its row goes stale is joined by the next one to claim it. */
  lemma StaleRunAdmitsSecondWorker(e: EventId)
    ensures exists labels: seq<Label> ::
      ActiveOn(Run(labels), 1, e) && ActiveOn(Run(labels), 2, e) && e !in Run(labels).failedOnce
  {
    var ls, s := Extend([], Start(1, e));
    ls, s := Extend(ls, Act(1, Look, 0));
    ls, s := Extend(ls, Act(1, Create, 0));
    ls, s := Extend(ls, Act(1, Begin, 0));
    assert s == State(map[e := AgentRun(Running, 1, 0, Some(0))], map[1 := Task(e, Working)], {}, {});
    ls, s := Extend(ls, Start(2, e));
    ls, s := Extend(ls, Act(2, Look, STALE_AFTER + 1));
    ls, s := Extend(ls, Act(2, ReclaimFailed, STALE_AFTER + 1));
    ls, s := Extend(ls, Act(2, ReclaimStale, STALE_AFTER + 1));
    assert ActiveOn(s, 1, e) && ActiveOn(s, 2, e);
  }

  // ------------------------------------------------------------ claims for certain, and closed runs

  /** The five actions of a claim in the order of the code; those that do not apply change nothing. */
  function ClaimActions(s: State, w: int, now: int): State {
    var looked := Perform(s, w, Look, now);
    var created := Perform(looked, w, Create, now);
    var reclaimed := Perform(Perform(created, w, ReclaimFailed, now), w, ReclaimStale, now);
    Perform(reclaimed, w, Reread, now)
  }

  /** A handler that starts on a missing or failed row, or one running for more than three minutes, gets to work. */
  lemma ClaimActionsWork(s: State, w: int, e: EventId, now: int)
    requires w in s.tasks && s.tasks[w] == Task(e, Looking)
    requires || e !in s.runs || s.runs[e].status == RunFailed
             || (s.runs[e].status == Running && now - Since(s.runs[e]) > 180_000)
    ensures w in ClaimActions(s, w, now).tasks && ClaimActions(s, w, now).tasks[w] == Task(e, Working)
    ensures e in ClaimActions(s, w, now).runs && ClaimActions(s, w, now).tasks.Keys == s.tasks.Keys
  {
    var looked := Perform(s, w, Look, now);
    assert looked.runs == s.runs && w in looked.tasks;
    if e in s.runs {
      assert looked.tasks[w] == Task(e, Reclaiming(s.runs[e].status));
    }
  }

  predicate AtWork(s: State, e: EventId) {
    exists w :: w in s.tasks && s.tasks[w] == Task(e, Working)
  }

  /** The run is completed and no handler is at work on it any more. */
  predicate Closed(s: State, e: EventId) {
    e in s.runs && s.runs[e].status == Completed && !AtWork(s, e)
  }

  /** A closed run stays closed, whatever handlers do. */
  lemma ClosedStays(s: State, l: Label, e: EventId)
    requires Closed(s, e)
    ensures Closed(Step(s, l), e)
  {
    var s' := Step(s, l);
    assert e in s'.runs && s'.runs[e].status == Completed by {
      if l.Act? && l.worker in s.tasks && s.tasks[l.worker].event == e {
        assert !s.tasks[l.worker].stage.Working?;
      }
    }
    forall w | w in s'.tasks ensures s'.tasks[w] != Task(e, Working) {
      if l.worker != w {
        assert w in s.tasks && s'.tasks[w] == s.tasks[w];
      } else if l.Act? && w in s.tasks && s.tasks[w].event == e {
        assert !s.tasks[w].stage.Working?;
      }
    }
  }
}
