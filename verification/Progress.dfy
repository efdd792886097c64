/**
 What the composed system can still achieve: from every reachable state, which
 requests of stored messages can be brought to a stored reply without faults,
 through relay, claim, model, send and save.
 */
module Progress {
  import opened Domain
  import opened Storage
  import opened Pipeline
  import O = Outbox
  import P = Persistence
  import R = Relay
  import H = AgentRuns
  import Sequences

  // ------------------------------------------------------------------ runs

  lemma {:induction false} RunsCompose(team: Team, s: State, a: seq<Label>, b: seq<Label>)
    ensures RunFrom(team, s, a + b) == RunFrom(team, RunFrom(team, s, a), b)
  {
    if b == [] {
      assert a + b == a;
    } else {
      RunsCompose(team, s, a, b[..|b| - 1]);
      assert (a + b)[..|a + b| - 1] == a + b[..|b| - 1];
    }
  }

  lemma OneStep(team: Team, s: State, l: Label)
    ensures RunFrom(team, s, [l]) == Step(team, s, l)
  {
    assert [l][..0] == [];
    assert RunFrom(team, s, [l]) == Step(team, RunFrom(team, s, [l][..0]), l);
  }

  /** Neither faults nor crashes, and nothing said by users meanwhile. */
  predicate Faultless(l: Label) {
    match l
    case Worker(pl) => (pl.Receive? && pl.fault == NoFault) || (pl.Transact? && pl.faults == [] && pl.outcome == Committed)
    case Relaying(rl) => R.Faultless(rl)
    case Consume(_, _, _) => true
    case Act(_, x) => !x.Fail? && !x.Crash?
    case Send(_, _, fault) => fault == NoFault
  }

  ghost predicate AllFaultless(ls: seq<Label>) {
    forall l :: l in ls ==> Faultless(l)
  }

  // ------------------------------------------------------------------ requests and replies

  function ReplyClient(e: EventId, a: Agent): ClientId {
    FromAgent(e, a.agentId)
  }

  /** The agent's reply to the event was accepted upstream. */
  ghost predicate ReplySent(s: State, e: EventId, a: Agent) {
    exists m :: m in s.p.upstream && m.client == ReplyClient(e, a)
  }

  ghost predicate ReplyStored(s: State, e: EventId, a: Agent) {
    exists r :: r in ReplyRows(s) && r.client == ReplyClient(e, a)
  }

  /** Slot k holds a stored message that asks agent a of the team. */
  ghost predicate Asks(team: Team, s: State, k: Slot, a: Agent) {
    && a in team && k in s.p.allocs && ShouldHandle(a, s.p.allocs[k].msg)
    && P.AllStored(s.p.tables, s.p.allocs[k], k.seqNo)
  }

  /** Agent ids tell the agents of a team apart. */
  predicate DistinctIds(team: Team) {
    forall a, b :: a in team && b in team && a.agentId == b.agentId ==> a == b
  }

  /** The topic's counter has room for another block of numbers. */
  predicate HasRoom(p: P.State, t: Topic) {
    Sequences.Counter(p.seqs.counters, t) + Sequences.BATCH_SIZE <= Sequences.INT64_MAX
  }

  // ------------------------------------------------------------------ relay

  function Lift(ls: seq<R.Label>): seq<Label> {
    seq(|ls|, i requires 0 <= i < |ls| => Relaying(ls[i]))
  }

  lemma {:induction false} RelayRun(team: Team, s: State, ls: seq<R.Label>)
    requires forall l :: l in ls ==> R.Faultless(l)
    ensures RunFrom(team, s, Lift(ls)) == s.(r := R.RunFrom(s.r, ls)) && AllFaultless(Lift(ls))
  {
    if ls != [] {
      var front, last := ls[..|ls| - 1], ls[|ls| - 1];
      RelayRun(team, s, front);
      assert Lift(ls)[..|ls| - 1] == Lift(front) && Lift(ls)[|ls| - 1] == Relaying(last);
      assert last in ls;
    }
  }

  lemma EventIsCommitted(s: State, k: Slot)
    requires O.OutboxOk(s.p) && k in s.p.allocs && !k.topic.System? && s.p.allocs[k].msg.topic == k.topic
    requires P.AllStored(s.p.tables, s.p.allocs[k], k.seqNo)
    ensures EventAt(s.p, k) in s.p.outbox
  {
    var m := s.p.allocs[k].msg;
    var owner := MainOwners(m)[0];
    var r := RowFor(m, s.p.allocs[k].msgId, k.seqNo, owner);
    assert r in s.p.tables.Rows(MainCollection(m.topic)) && MainCollection(m.topic) != Mentions;
  }

  /** The event of a stored request reaches the agent topic. */
  lemma Deliver(team: Team, s: State, k: Slot, a: Agent) returns (ls: seq<Label>)
    requires Inv(team, s) && Asks(team, s, k, a)
    ensures AllFaultless(ls) && RunFrom(team, s, ls) == s.(r := RunFrom(team, s, ls).r)
    ensures Trigger(a, s.p, RunFrom(team, s, ls).r.delivered, k)
  {
    EventIsCommitted(s, k);
    var rls := R.EventCanBeDelivered(s.r, EventAt(s.p, k));
    RelayRun(team, s, rls);
    ls := Lift(rls);
  }

  // ------------------------------------------------------------------ claim

  predicate Claimable(s: State, e: EventId) {
    e !in s.h.runs || s.h.runs[e].status == H.RunFailed || H.Stale(s.h.runs[e], s.r.now)
  }

  lemma GoesStale(team: Team, s: State, e: EventId) returns (ls: seq<Label>)
    requires e in s.h.runs && s.h.runs[e].status == H.Running
    ensures AllFaultless(ls)
    ensures
      var s' := RunFrom(team, s, ls);
      Claimable(s', e) && s'.p == s.p && s.r.delivered <= s'.r.delivered
  {
    var run := s.h.runs[e];
    var since := if run.startedAt.Some? then run.startedAt.value else run.createdAt;
    var wait := since + H.STALE_AFTER + 1 - s.r.now;
    var tick := Relaying(R.Tick(if wait > 0 then wait else 0));
    OneStep(team, s, tick);
    ls := [tick];
  }

  /** Waiting makes a running row stale; a completed one is first taken up again by a handler still at work. */
  lemma BecomesClaimable(team: Team, s: State, e: EventId) returns (ls: seq<Label>)
    requires !H.Closed(s.h, e)
    ensures AllFaultless(ls)
    ensures
      var s' := RunFrom(team, s, ls);
      Claimable(s', e) && s'.p == s.p && s.r.delivered <= s'.r.delivered
  {
    if Claimable(s, e) {
      ls := [];
    } else if s.h.runs[e].status == H.Running {
      ls := GoesStale(team, s, e);
    } else {
      var w :| w in s.h.tasks && s.h.tasks[w] == H.Task(e, H.Working);
      var begin := Act(w, H.Begin);
      OneStep(team, s, begin);
      var rest := GoesStale(team, Step(team, s, begin), e);
      RunsCompose(team, s, [begin], rest);
      ls := [begin] + rest;
    }
  }

  function ClaimLabels(w: int, k: Slot, a: Agent): seq<Label> {
    [Consume(w, k, a), Act(w, H.Look), Act(w, H.Create), Act(w, H.ReclaimFailed), Act(w, H.ReclaimStale), Act(w, H.Reread)]
  }

  lemma ActsRun(team: Team, s: State, w: int, k: Slot, a: Agent)
    requires Trigger(a, s.p, s.r.delivered, k) && a in team && w !in s.h.tasks
    ensures RunFrom(team, s, ClaimLabels(w, k, a)) ==
              s.(h := H.ClaimActions(H.Step(s.h, H.Start(w, EventAt(s.p, k))), w, s.r.now), who := s.who[w := a])
  {
    var ls := ClaimLabels(w, k, a);
    assert ls[..5][..4] == ls[..4] && ls[..4][..3] == ls[..3] && ls[..3][..2] == ls[..2];
    assert ls[..2][..1] == ls[..1] && ls[..1] == [Consume(w, k, a)];
    OneStep(team, s, Consume(w, k, a));
    var h := H.Step(s.h, H.Start(w, EventAt(s.p, k)));
    var s1 := s.(h := h, who := s.who[w := a]);
    assert RunFrom(team, s, ls[..1]) == s1;
    var h2 := H.Perform(h, w, H.Look, s.r.now);
    assert RunFrom(team, s, ls[..2]) == Step(team, s1, ls[1]) == s1.(h := h2);
    var h3 := H.Perform(h2, w, H.Create, s.r.now);
    assert RunFrom(team, s, ls[..3]) == Step(team, s1.(h := h2), ls[2]) == s1.(h := h3);
    var h4 := H.Perform(h3, w, H.ReclaimFailed, s.r.now);
    assert RunFrom(team, s, ls[..4]) == Step(team, s1.(h := h3), ls[3]) == s1.(h := h4);
    var h5 := H.Perform(h4, w, H.ReclaimStale, s.r.now);
    assert RunFrom(team, s, ls[..5]) == Step(team, s1.(h := h4), ls[4]) == s1.(h := h5);
  }

  /** A new handler for the request gets to work. */
  lemma GetsToWork(team: Team, s: State, k: Slot, a: Agent) returns (w: int, ls: seq<Label>)
    requires a in team && Trigger(a, s.p, s.r.delivered, k) && Claimable(s, EventAt(s.p, k))
    ensures AllFaultless(ls)
    ensures
      var s' := RunFrom(team, s, ls);
      && s'.p == s.p && s'.r == s.r && w in s'.h.tasks && s'.h.tasks[w] == H.Task(EventAt(s.p, k), H.Working)
      && w in s'.who && s'.who[w] == a && EventAt(s.p, k) in s'.h.runs && s'.h.tasks.Keys == s.h.tasks.Keys + {w}
  {
    w := FreshInt(s.h.tasks.Keys);
    ls := ClaimLabels(w, k, a);
    ActsRun(team, s, w, k, a);
    H.ClaimActionsWork(H.Step(s.h, H.Start(w, EventAt(s.p, k))), w, EventAt(s.p, k), s.r.now);
  }

  // ------------------------------------------------------------------ send

  /** The part of the invariant that a send relies on. */
  ghost predicate SendingOk(team: Team, s: State) {
    P.UpstreamOk(s.p.upstream) && P.AllocsOk(s.p) && RepliesOk(team, s.p, s.r.delivered) && TasksOk(team, s)
  }

  /** Upstream always accepts the reply: it is addressed well and agrees with what was sent under its id. */
  lemma ReplyIsAccepted(team: Team, s: State, a: Agent, e: EventId, text: string)
    requires SendingOk(team, s) && DistinctIds(team) && a in team && Triggered(a, s.p, s.r.delivered, e)
    ensures WellFormed(Reply(a, e, text)) && forall n :: n in s.p.upstream ==> SameIdentity(Reply(a, e, text), n)
  {
    var k :| Trigger(a, s.p, s.r.delivered, k) && EventAt(s.p, k) == e;
    assert s.p.allocs[k].msg in s.p.upstream && WellFormed(s.p.allocs[k].msg);
    forall n | n in s.p.upstream ensures SameIdentity(Reply(a, e, text), n) {
      assert Sendable(team, s.p, s.r.delivered, n);
      if n.client == ReplyClient(e, a) {
        var b :| b in team && AnswerOf(b, s.p, s.r.delivered, n);
        assert b == a;
      }
    }
  }

  /** Producing a message that is accepted changes nothing but what is upstream. */
  lemma ProduceAdds(p: P.State, m: Message)
    requires WellFormed(m) && forall n :: n in p.upstream ==> SameIdentity(m, n)
    ensures P.Step(true, p, P.Produce(m)) == p.(upstream := p.upstream + {m})
  {
  }

  lemma SendsReply(team: Team, s: State, w: int, text: string)
    requires SendingOk(team, s) && DistinctIds(team) && !Blank(text)
    requires w in s.h.tasks && s.h.tasks[w].stage.Working? && w in s.who
    ensures
      var reply := Reply(s.who[w], s.h.tasks[w].event, text);
      Step(team, s, Send(w, text, NoFault)).p == s.p.(upstream := s.p.upstream + {reply})
  {
    var reply := Reply(s.who[w], s.h.tasks[w].event, text);
    ReplyIsAccepted(team, s, s.who[w], s.h.tasks[w].event, text);
    ProduceAdds(s.p, reply);
  }

  // ------------------------------------------------------------------ save

  lemma {:induction false} NoFaultsNoErrors(t: Tables, c: Collection, docs: seq<Row>)
    ensures WriteFailed !in InsertMany(t, c, docs, []).1
  {
    if docs != [] {
      NoFaultsNoErrors(t, c, docs[..|docs| - 1]);
    }
  }

  ghost predicate CopyStored(p: P.State, m: Message) {
    exists x :: x in p.tables.Rows(MainCollection(m.topic)) && x.client == m.client
  }

  /** A transaction without faults leaves the message stored, by itself or by another delivery before. */
  lemma TransactionStores(p: P.State, h: int)
    requires P.Stored(p) && h in p.handlers && P.HandlerOk(p.allocs, p.tables, p.handlers[h])
    requires p.handlers[h].results == [] && !p.handlers[h].msg.topic.System?
    ensures CopyStored(P.Step(true, p, P.Transact(h, [], Committed)), p.handlers[h].msg)
  {
    var hd := p.handlers[h];
    var c, tx := MainCollection(hd.msg.topic), Transaction(p.tables, p.outbox, hd.msg, hd.msgId, hd.seqNo, [], Committed);
    assert P.Step(true, p, P.Transact(h, [], Committed)).tables == tx.tables;
    P.WholeSave(p, hd, []);
    NoFaultsNoErrors(p.tables, c, P.RowsOf(hd));
    var results := InsertMany(p.tables, c, P.RowsOf(hd), []).1;
    if VerdictOf(results) == Fresh {
      var owner := MainOwners(hd.msg)[0];
      assert owner in MainOwners(hd.msg);
      assert RowFor(hd.msg, hd.msgId, hd.seqNo, owner) in tx.tables.Rows(c);
    } else {
      var x :| x in p.tables.Rows(c) && x.client == hd.msg.client && x.seqNo != hd.seqNo;
      assert x in tx.tables.Rows(c);
    }
  }

  lemma IsReceived(p: P.State, h: int, m: Message)
    requires m in p.upstream && h !in p.handlers && HasRoom(p, m.topic)
    ensures
      var p1 := P.Step(true, p, P.Receive(h, 0, m, NoFault));
      h in p1.handlers && p1.handlers[h].msg == m && p1.handlers[h].results == []
  {
  }

  /** A message upstream can be received and saved. */
  lemma CanBeSaved(p: P.State, m: Message) returns (h: int)
    requires P.Inv(p) && m in p.upstream && !m.topic.System? && HasRoom(p, m.topic)
    ensures CopyStored(P.Step(true, P.Step(true, p, P.Receive(h, 0, m, NoFault)), P.Transact(h, [], Committed)), m)
  {
    h := FreshInt(p.handlers.Keys);
    var p1 := P.Step(true, p, P.Receive(h, 0, m, NoFault));
    P.StepKeepsInv(true, p, P.Receive(h, 0, m, NoFault));
    assert h in p1.handlers && p1.handlers[h].msg == m && p1.handlers[h].results == [] by {
      IsReceived(p, h, m);
    }
    assert P.HandlerOk(p1.allocs, p1.tables, p1.handlers[h]);
    TransactionStores(p1, h);
  }

  lemma SentReply(team: Team, s: State, e: EventId, a: Agent) returns (m: Message)
    requires RepliesOk(team, s.p, s.r.delivered) && P.AllocsOk(s.p) && ReplySent(s, e, a)
    ensures m in s.p.upstream && m.client == ReplyClient(e, a) && m.topic == e.topic && !m.topic.System?
  {
    m :| m in s.p.upstream && m.client == ReplyClient(e, a);
    assert Sendable(team, s.p, s.r.delivered, m);
    var b :| b in team && AnswerOf(b, s.p, s.r.delivered, m);
    var k :| Trigger(b, s.p, s.r.delivered, k) && EventAt(s.p, k) == e;
  }

  function SaveLabels(h: int, m: Message): seq<Label> {
    [Worker(P.Receive(h, 0, m, NoFault))] + [Worker(P.Transact(h, [], Committed))]
  }

  lemma SaveRun(team: Team, s: State, h: int, m: Message)
    ensures RunFrom(team, s, SaveLabels(h, m)).p ==
              P.Step(true, P.Step(true, s.p, P.Receive(h, 0, m, NoFault)), P.Transact(h, [], Committed))
    ensures AllFaultless(SaveLabels(h, m))
  {
    var receive, transact := Worker(P.Receive(h, 0, m, NoFault)), Worker(P.Transact(h, [], Committed));
    OneStep(team, s, receive);
    OneStep(team, Step(team, s, receive), transact);
    RunsCompose(team, s, [receive], [transact]);
  }

  lemma StoredCopyIsReply(s: State, m: Message, e: EventId, a: Agent)
    requires CopyStored(s.p, m) && m.client == ReplyClient(e, a) && !m.topic.System?
    ensures ReplyStored(s, e, a)
  {
    var x :| x in s.p.tables.Rows(MainCollection(m.topic)) && x.client == m.client;
    assert x in ReplyRows(s);
  }

  /** A reply that was sent can be stored. */
  lemma SentIsStored(team: Team, s: State, e: EventId, a: Agent) returns (ls: seq<Label>)
    requires Inv(team, s) && ReplySent(s, e, a) && HasRoom(s.p, e.topic)
    ensures AllFaultless(ls) && ReplyStored(RunFrom(team, s, ls), e, a)
  {
    var m := SentReply(team, s, e, a);
    var h := CanBeSaved(s.p, m);
    SaveRun(team, s, h, m);
    StoredCopyIsReply(RunFrom(team, s, SaveLabels(h, m)), m, e, a);
    ls := SaveLabels(h, m);
  }

  // ------------------------------------------------------------------ all the way

  /** Worker w is at work on event e for agent a and may send. */
  ghost predicate ReadyToSend(team: Team, s: State, w: int, e: EventId, a: Agent) {
    && SendingOk(team, s) && w in s.h.tasks && s.h.tasks[w] == H.Task(e, H.Working) && w in s.who && s.who[w] == a
  }

  lemma InvAllowsSending(team: Team, s: State, ls: seq<Label>)
    requires Inv(team, s)
    ensures SendingOk(team, RunFrom(team, s, ls))
  {
    RunFromKeepsInv(team, s, ls);
  }

  lemma ReadyIsSent(team: Team, s: State, w: int, e: EventId, a: Agent, text: string)
    requires ReadyToSend(team, s, w, e, a) && DistinctIds(team) && !Blank(text)
    ensures
      var s' := RunFrom(team, s, [Send(w, text, NoFault)]);
      && s'.p == s.p.(upstream := s.p.upstream + {Reply(a, e, text)})
      && s'.h == s.h.(tasks := s.h.tasks[w := H.Task(e, H.Replied)])
      && ReplySent(s', e, a)
  {
    SendsReply(team, s, w, text);
    OneStep(team, s, Send(w, text, NoFault));
    assert Reply(a, e, text) in RunFrom(team, s, [Send(w, text, NoFault)]).p.upstream;
  }

  /** The labels that bring a stored request whose run is not closed to a handler at work. */
  lemma OpenGetsToWork(team: Team, s: State, k: Slot, a: Agent) returns (w: int, ls: seq<Label>)
    requires Inv(team, s) && Asks(team, s, k, a) && !H.Closed(s.h, EventAt(s.p, k))
    ensures AllFaultless(ls) && RunFrom(team, s, ls).p == s.p
    ensures ReadyToSend(team, RunFrom(team, s, ls), w, EventAt(s.p, k), a)
  {
    var first := Deliver(team, s, k, a);
    var delivered := RunFrom(team, s, first);
    var second := BecomesClaimable(team, delivered, EventAt(s.p, k));
    var third;
    w, third := GetsToWork(team, RunFrom(team, delivered, second), k, a);
    RunsCompose(team, s, first, second);
    RunsCompose(team, s, first + second, third);
    ls := first + second + third;
    InvAllowsSending(team, s, ls);
  }

  /** From a stored request whose run is not closed to the reply sent. */
  lemma OpenIsSent(team: Team, s: State, k: Slot, a: Agent, text: string) returns (ls: seq<Label>)
    requires Inv(team, s) && DistinctIds(team) && Asks(team, s, k, a) && !H.Closed(s.h, EventAt(s.p, k)) && !Blank(text)
    ensures AllFaultless(ls)
    ensures
      var s' := RunFrom(team, s, ls);
      ReplySent(s', EventAt(s.p, k), a) && s'.p.seqs == s.p.seqs
  {
    var w, first := OpenGetsToWork(team, s, k, a);
    ReadyIsSent(team, RunFrom(team, s, first), w, EventAt(s.p, k), a, text);
    RunsCompose(team, s, first, [Send(w, text, NoFault)]);
    ls := first + [Send(w, text, NoFault)];
  }

  /**
   From every reachable state, a request of a stored message is brought to a
   stored reply by a continuation without faults, whatever text but a blank one
   the model gives, if the reply was sent already or the run is not closed.
   */
  lemma RequestCanBeAnswered(team: Team, s: State, k: Slot, a: Agent, text: string) returns (ls: seq<Label>)
    requires Inv(team, s) && DistinctIds(team) && Asks(team, s, k, a) && HasRoom(s.p, k.topic) && !Blank(text)
    requires ReplySent(s, EventAt(s.p, k), a) || !H.Closed(s.h, EventAt(s.p, k))
    ensures AllFaultless(ls) && ReplyStored(RunFrom(team, s, ls), EventAt(s.p, k), a)
  {
    var e := EventAt(s.p, k);
    assert e.topic == k.topic;
    if ReplySent(s, e, a) {
      ls := SentIsStored(team, s, e, a);
    } else {
      var first := OpenIsSent(team, s, k, a, text);
      RunFromKeepsInv(team, s, first);
      var second := SentIsStored(team, RunFrom(team, s, first), e, a);
      RunsCompose(team, s, first, second);
      ls := first + second;
    }
  }

  // ------------------------------------------------------------------ closed runs

  /** The run is closed and the agent's reply was not sent. */
  ghost predicate ShutOut(s: State, e: EventId, a: Agent) {
    H.Closed(s.h, e) && !ReplySent(s, e, a)
  }

  lemma WorkerAddsNoReply(s: State, wl: P.Label)
    ensures forall m :: m in P.Step(true, s.p, wl).upstream && m !in s.p.upstream ==> wl.Produce? && m == wl.msg
  {
  }

  lemma StepKeepsShutOut(team: Team, s: State, l: Label, e: EventId, a: Agent)
    requires ShutOut(s, e, a)
    ensures ShutOut(Step(team, s, l), e, a)
  {
    var s' := Step(team, s, l);
    match l
    case Worker(wl) => WorkerAddsNoReply(s, wl);
    case Relaying(_) =>
    case Consume(w, k, b) =>
      if s' != s {
        H.ClosedStays(s.h, H.Start(w, EventAt(s.p, k)), e);
      }
    case Act(w, x) => H.ClosedStays(s.h, H.Act(w, x, s.r.now), e);
    case Send(w, text, fault) =>
      if w in s.h.tasks && s.h.tasks[w].stage.Working? && w in s.who {
        assert s.h.tasks[w].event != e;
        H.ClosedStays(s.h, H.Act(w, H.ReplySent, s.r.now), e);
      }
  }

  lemma {:induction false} StaysShutOut(team: Team, s: State, more: seq<Label>, e: EventId, a: Agent)
    requires ShutOut(s, e, a)
    ensures ShutOut(RunFrom(team, s, more), e, a)
  {
    if more != [] {
      StaysShutOut(team, s, more[..|more| - 1], e, a);
      StepKeepsShutOut(team, RunFrom(team, s, more[..|more| - 1]), more[|more| - 1], e, a);
    }
  }

  lemma StoredWasSent(team: Team, s: State, e: EventId, a: Agent)
    requires Inv(team, s) && ReplyStored(s, e, a)
    ensures ReplySent(s, e, a)
  {
    var r :| r in ReplyRows(s) && r.client == ReplyClient(e, a);
    var b := ReplyRowOrigin(team, s, r);
  }

  /**
   After any run, a request of a stored message can still be brought to a
   stored reply exactly if the reply was sent or the run of its event is not
   closed. Otherwise no continuation whatever stores one.
   */
  lemma CanBeAnsweredIff(team: Team, labels: seq<Label>, k: Slot, a: Agent)
    requires DistinctIds(team) && Asks(team, Run(team, labels), k, a) && HasRoom(Run(team, labels).p, k.topic)
    ensures
      var s := Run(team, labels);
      var e := EventAt(s.p, k);
      && ((exists more :: ReplyStored(Run(team, labels + more), e, a)) <==> ReplySent(s, e, a) || !H.Closed(s.h, e))
      && (ReplySent(s, e, a) || !H.Closed(s.h, e) ==>
            exists more :: AllFaultless(more) && ReplyStored(Run(team, labels + more), e, a))
  {
    var s := Run(team, labels);
    var e := EventAt(s.p, k);
    RunKeepsInv(team, labels);
    if ReplySent(s, e, a) || !H.Closed(s.h, e) {
      assert !IsSpace("ok"[0]);
      var more := RequestCanBeAnswered(team, s, k, a, "ok");
      RunsCompose(team, INITIAL, labels, more);
    } else {
      forall more ensures !ReplyStored(Run(team, labels + more), e, a) {
        RunsCompose(team, INITIAL, labels, more);
        StaysShutOut(team, s, more, e, a);
        RunKeepsInv(team, labels + more);
        if ReplyStored(Run(team, labels + more), e, a) {
          StoredWasSent(team, Run(team, labels + more), e, a);
        }
      }
    }
  }

  // ------------------------------------------------------------------ one agent

  /** Replied tasks have sent their reply, and a completed run has some agent's. */
  ghost predicate SentOk(team: Team, s: State) {
    && (forall w :: w in s.h.tasks && s.h.tasks[w].stage.Replied? ==> w in s.who && ReplySent(s, s.h.tasks[w].event, s.who[w]))
    && (forall e :: e in s.h.runs && s.h.runs[e].status == H.Completed ==> exists a :: a in team && ReplySent(s, e, a))
  }

  lemma SentStays(s: State, s': State, e: EventId, a: Agent)
    requires s.p.upstream <= s'.p.upstream && ReplySent(s, e, a)
    ensures ReplySent(s', e, a)
  {
    var m :| m in s.p.upstream && m.client == ReplyClient(e, a);
    assert m in s'.p.upstream;
  }

  /** Nothing but the upstream grew. */
  lemma GrowthKeepsSentOk(team: Team, s: State, s': State)
    requires SentOk(team, s) && s'.h == s.h && s'.who == s.who && s.p.upstream <= s'.p.upstream
    ensures SentOk(team, s')
  {
    forall w | w in s'.h.tasks && s'.h.tasks[w].stage.Replied? ensures ReplySent(s', s'.h.tasks[w].event, s'.who[w]) {
      SentStays(s, s', s.h.tasks[w].event, s.who[w]);
    }
    forall e | e in s'.h.runs && s'.h.runs[e].status == H.Completed ensures exists a :: a in team && ReplySent(s', e, a) {
      var a :| a in team && ReplySent(s, e, a);
      SentStays(s, s', e, a);
    }
  }

  lemma ActKeepsSentOk(team: Team, s: State, w: int, x: H.Action)
    requires TasksOk(team, s) && SentOk(team, s) && !x.ReplySent?
    ensures SentOk(team, s.(h := H.Perform(s.h, w, x, s.r.now)))
  {
    var s' := s.(h := H.Perform(s.h, w, x, s.r.now));
    assert forall e, a :: ReplySent(s', e, a) == ReplySent(s, e, a);
    forall v | v in s'.h.tasks && s'.h.tasks[v].stage.Replied? ensures v in s.h.tasks && s.h.tasks[v] == s'.h.tasks[v] {
    }
    forall e | e in s'.h.runs && s'.h.runs[e].status == H.Completed ensures exists a :: a in team && ReplySent(s, e, a) {
      if e !in s.h.runs || s.h.runs[e].status != H.Completed {
        assert x.Complete? && w in s.h.tasks && s.h.tasks[w] == H.Task(e, H.Replied);
        assert s.who[w] in team;
      }
    }
  }

  /** The send was accepted and the handler knows it. */
  lemma RepliedKeepsSentOk(team: Team, s: State, w: int)
    requires SentOk(team, s) && w in s.h.tasks && s.h.tasks[w].stage.Working? && w in s.who
    requires ReplySent(s, s.h.tasks[w].event, s.who[w])
    ensures SentOk(team, s.(h := H.Perform(s.h, w, H.ReplySent, s.r.now)))
  {
    var s' := s.(h := H.Perform(s.h, w, H.ReplySent, s.r.now));
    assert forall f, b :: ReplySent(s', f, b) == ReplySent(s, f, b);
    assert s'.h.runs == s.h.runs;
  }

  lemma SendKeepsSentOk(team: Team, s: State, w: int, text: string, fault: Fault)
    requires SendingOk(team, s) && DistinctIds(team) && SentOk(team, s)
    ensures SentOk(team, Step(team, s, Send(w, text, fault)))
  {
    if w in s.h.tasks && s.h.tasks[w].stage.Working? && w in s.who && fault != Failed(false) && !Blank(text) {
      var a, e := s.who[w], s.h.tasks[w].event;
      var reply := Reply(a, e, text);
      ReplyIsAccepted(team, s, a, e, text);
      ProduceAdds(s.p, reply);
      var s1 := WithPersistence(s, P.Step(true, s.p, P.Produce(reply)));
      GrowthKeepsSentOk(team, s, s1);
      assert reply in s1.p.upstream;
      RepliedKeepsSentOk(team, s1, w);
    }
  }

  lemma WorkerKeepsUpstream(s: State, wl: P.Label)
    ensures s.p.upstream <= P.Step(true, s.p, wl).upstream
  {
  }

  lemma WorkerKeepsSentOk(team: Team, s: State, wl: P.Label)
    requires SentOk(team, s)
    ensures SentOk(team, Step(team, s, Worker(wl)))
  {
    WorkerKeepsUpstream(s, wl);
    GrowthKeepsSentOk(team, s, Step(team, s, Worker(wl)));
  }

  lemma ConsumeKeepsSentOk(team: Team, s: State, w: int, k: Slot, b: Agent)
    requires SentOk(team, s)
    ensures SentOk(team, Step(team, s, Consume(w, k, b)))
  {
    assert forall e, a :: ReplySent(Step(team, s, Consume(w, k, b)), e, a) == ReplySent(s, e, a);
  }

  lemma StepKeepsSentOk(team: Team, s: State, l: Label)
    requires SendingOk(team, s) && DistinctIds(team) && SentOk(team, s)
    ensures SentOk(team, Step(team, s, l))
  {
    match l
    case Worker(wl) => WorkerKeepsSentOk(team, s, wl);
    case Relaying(_) => GrowthKeepsSentOk(team, s, Step(team, s, l));
    case Consume(w, k, b) => ConsumeKeepsSentOk(team, s, w, k, b);
    case Act(w, x) =>
      if !x.ReplySent? {
        ActKeepsSentOk(team, s, w, x);
      }
    case Send(w, text, fault) => SendKeepsSentOk(team, s, w, text, fault);
  }

  lemma {:induction false} RunKeepsSentOk(team: Team, labels: seq<Label>)
    requires DistinctIds(team)
    ensures SentOk(team, Run(team, labels))
  {
    if labels != [] {
      var before := labels[..|labels| - 1];
      RunKeepsSentOk(team, before);
      RunKeepsInv(team, before);
      StepKeepsSentOk(team, Run(team, before), labels[|labels| - 1]);
    }
  }

  /** A lone agent is never shut out: from every reachable state each of its stored requests can be answered. */
  lemma LoneAgentCanAlwaysAnswer(a: Agent, labels: seq<Label>, k: Slot, text: string) returns (more: seq<Label>)
    requires Asks({a}, Run({a}, labels), k, a) && HasRoom(Run({a}, labels).p, k.topic) && !Blank(text)
    ensures AllFaultless(more) && ReplyStored(Run({a}, labels + more), EventAt(Run({a}, labels).p, k), a)
  {
    RunKeepsInv({a}, labels);
    RunKeepsSentOk({a}, labels);
    more := RequestCanBeAnswered({a}, Run({a}, labels), k, a, text);
    RunsCompose({a}, INITIAL, labels, more);
  }

  // ------------------------------------------------------------------ two agents

  /** A handler that has sent its reply completes the run; if it was the only one, the run is closed. */
  lemma CompletionCloses(team: Team, s: State, w: int, e: EventId)
    requires w in s.h.tasks && s.h.tasks[w] == H.Task(e, H.Replied) && s.h.tasks.Keys == {w} && e in s.h.runs
    ensures
      var s' := RunFrom(team, s, [Act(w, H.Complete)]);
      H.Closed(s'.h, e) && s'.p == s.p
  {
    OneStep(team, s, Act(w, H.Complete));
  }

  /** A first handler at work on the event, and no other. */
  lemma LoneHandler(team: Team, s: State, k: Slot, a: Agent) returns (w: int, ls: seq<Label>)
    requires Inv(team, s) && Asks(team, s, k, a) && s.h == H.INITIAL
    ensures AllFaultless(ls)
    ensures
      var s' := RunFrom(team, s, ls);
      && s'.p == s.p && s'.h.tasks.Keys == {w} && EventAt(s.p, k) in s'.h.runs
      && ReadyToSend(team, s', w, EventAt(s.p, k), a)
  {
    var first := Deliver(team, s, k, a);
    var second;
    w, second := GetsToWork(team, RunFrom(team, s, first), k, a);
    RunsCompose(team, s, first, second);
    ls := first + second;
    InvAllowsSending(team, s, ls);
  }

  /** It answers and completes the run, and every other agent is shut out. */
  lemma LoneAnswerShutsOut(team: Team, s: State, w: int, e: EventId, a: Agent, b: Agent) returns (ls: seq<Label>)
    requires ReadyToSend(team, s, w, e, a) && DistinctIds(team) && a in team && b in team && a != b
    requires s.h.tasks.Keys == {w} && e in s.h.runs && !ReplySent(s, e, b)
    ensures AllFaultless(ls) && ShutOut(RunFrom(team, s, ls), e, b)
    ensures RunFrom(team, s, ls).p.tables == s.p.tables && RunFrom(team, s, ls).p.allocs == s.p.allocs
  {
    var send, complete := Send(w, "ok", NoFault), Act(w, H.Complete);
    assert !IsSpace("ok"[0]);
    ReadyIsSent(team, s, w, e, a, "ok");
    CompletionCloses(team, RunFrom(team, s, [send]), w, e);
    RunsCompose(team, s, [send], [complete]);
    ls := [send] + [complete];
  }

  /** While no one is at work: one agent answers, and any other that was asked by the same message is shut out. */
  lemma OneAnswerShutsOut(team: Team, s: State, k: Slot, a: Agent, b: Agent) returns (ls: seq<Label>)
    requires Inv(team, s) && DistinctIds(team) && Asks(team, s, k, a) && Asks(team, s, k, b) && a != b
    requires s.h == H.INITIAL && !ReplySent(s, EventAt(s.p, k), b)
    ensures AllFaultless(ls) && ShutOut(RunFrom(team, s, ls), EventAt(s.p, k), b)
    ensures RunFrom(team, s, ls).p.tables == s.p.tables && RunFrom(team, s, ls).p.allocs == s.p.allocs
  {
    var w, first := LoneHandler(team, s, k, a);
    var second := LoneAnswerShutsOut(team, RunFrom(team, s, first), w, EventAt(s.p, k), a, b);
    RunsCompose(team, s, first, second);
    ls := first + second;
  }

  lemma FirstReceipt(p: P.State, m: Message)
    requires p == P.INITIAL.(upstream := {m})
    ensures
      var p' := P.Step(true, p, P.Receive(1, 0, m, NoFault));
      && p'.allocs == map[Slot(m.topic, 1) := P.Alloc(m, 0)] && p'.handlers == map[1 := P.Handler(m, 0, 1, [])]
      && p'.tables == NO_ROWS && p'.upstream == {m}
  {
    assert Sequences.Allocate(map[], map[], m.topic, NoFault).number == Some(1);
  }

  lemma FirstCommit(p: P.State, m: Message)
    requires m.topic.Group? && p.allocs == map[Slot(m.topic, 1) := P.Alloc(m, 0)]
    requires p.handlers == map[1 := P.Handler(m, 0, 1, [])] && p.tables == NO_ROWS
    ensures
      var p' := P.Step(true, p, P.Transact(1, [], Committed));
      p'.allocs == p.allocs && p'.upstream == p.upstream && P.AllStored(p'.tables, P.Alloc(m, 0), 1)
  {
    var r := RowFor(m, 0, 1, m.sender);
    assert MainRows(m, 0, 1) == [r] && [r][..0] == [];
    assert InsertMany(NO_ROWS, Messages, [r][..0], []) == (NO_ROWS, []);
    assert !Clashes(NO_ROWS, Messages, r) && NO_ROWS.With(Messages, {} + {r}) == Tables({}, {r}, {});
    assert InsertMany(NO_ROWS, Messages, [r], []) == (Tables({}, {r}, {}), [] + [Inserted]);
    assert MainOwners(m) == [m.sender];
  }

  /** A group message that mentions two agents, stored and not handled yet. */
  lemma TwoAreAsked(team: Team, m: Message, k: Slot) returns (ls: seq<Label>)
    requires m == Message(1, Group(5), FromUser("x"), "hi", [8, 9]) && team == {Agent(1, 8), Agent(2, 9)} && k == Slot(Group(5), 1)
    ensures
      var s := Run(team, ls);
      && s.h == H.INITIAL && s.p.upstream == {m}
      && Asks(team, s, k, Agent(1, 8)) && Asks(team, s, k, Agent(2, 9))
  {
    var p1 := P.INITIAL.(upstream := {m});
    ProduceAdds(P.INITIAL, m);
    var produce, receive := Worker(P.Produce(m)), Worker(P.Receive(1, 0, m, NoFault));
    OneStep(team, INITIAL, produce);
    var s1 := Step(team, INITIAL, produce);
    assert s1.p == p1 && s1.h == H.INITIAL;
    var s2 := Step(team, s1, receive);
    FirstReceipt(p1, m);
    assert s2.p.allocs == map[k := P.Alloc(m, 0)] && s2.p.handlers == map[1 := P.Handler(m, 0, 1, [])];
    var transact := Worker(P.Transact(1, [], Committed));
    FirstCommit(s2.p, m);
    var s3 := Step(team, s2, transact);
    ls := [produce, receive, transact];
    assert ls[..2][..1] == ls[..1] == [produce];
    assert RunFrom(team, INITIAL, ls[..2]) == s2;
    assert Run(team, ls) == s3;
  }

  /** Two agents share the run rows: after the first has answered, the second never will. */
  lemma SecondAgentIsShutOut()
    ensures exists team: Team, labels: seq<Label>, k: Slot, b: Agent ::
      && DistinctIds(team)
      && Asks(team, Run(team, labels), k, b) && ShutOut(Run(team, labels), EventAt(Run(team, labels).p, k), b)
  {
    var m, k := Message(1, Group(5), FromUser("x"), "hi", [8, 9]), Slot(Group(5), 1);
    var a, b := Agent(1, 8), Agent(2, 9);
    var team := {a, b};
    var asked := TwoAreAsked(team, m, k);
    RunKeepsInv(team, asked);
    var more := OneAnswerShutsOut(team, Run(team, asked), k, a, b);
    RunsCompose(team, INITIAL, asked, more);
    assert Asks(team, Run(team, asked + more), k, b);
  }
}
