/**
 The agent harness on top of persistence and relay. Events that relays put on
 the agent topic are handled any number of times; handlers claim run rows,
 ask the model, send replies back upstream, fail and crash in any order.
 */
module Pipeline {
  import opened Domain
  import opened Storage
  import O = Outbox
  import P = Persistence
  import R = Relay
  import H = AgentRuns

  /** One harness: the agent it runs and the bot account it answers from. */
  datatype Agent = Agent(agentId: int, botId: UserId)

  /** The agents at work, each on any number of workers; all share one store of run rows. */
  type Team = set<Agent>

  /** `who` tells for which agent a worker handles its event. */
  datatype State = State(p: P.State, r: R.State, h: H.State, who: map<int, Agent>)

  const INITIAL := State(P.INITIAL, R.INITIAL, H.INITIAL, map[])

  datatype Label =
    | Worker(workerLabel: P.Label)
    | Relaying(relayLabel: R.Label)
    | Consume(w: int, slot: Slot, agent: Agent)
    | Act(w: int, action: H.Action)
    | Send(w: int, text: string, fault: Fault)

  /** The trigger check: never the bot's own messages, and only where the bot is addressed. */
  predicate ShouldHandle(a: Agent, m: Message) {
    && m.sender != a.botId
    && match m.topic
       case Group(_) => a.botId in m.mentioned
       case P2P(first, second) => first == a.botId || second == a.botId
       case System(_) => false
  }

  function Reply(a: Agent, e: EventId, text: string): Message {
    Message(a.botId, e.topic, FromAgent(e, a.agentId), text, [])
  }

  function EventAt(p: P.State, k: Slot): EventId
    requires k in p.allocs
  {
    EventOf(p.allocs[k].msg, p.allocs[k].msgId)
  }

  /** Slot `k` holds a message the agent answers, and its event reached the agent topic. */
  predicate Trigger(a: Agent, p: P.State, delivered: set<EventId>, k: Slot) {
    k in p.allocs && EventAt(p, k) in delivered && ShouldHandle(a, p.allocs[k].msg)
  }

  /** The outbox rows follow the events that persistence commits. */
  function Synced(r: R.State, outbox: set<EventId>): R.State {
    r.(rows := map e | e in outbox :: if e in r.rows then r.rows[e] else R.NewRow(r.now))
  }

  function WithPersistence(s: State, p: P.State): State {
    s.(p := p, r := Synced(s.r, p.outbox))
  }

  /** White space as Go's unicode package has it. */
  predicate IsSpace(c: char) {
    || '\t' <= c <= '\r' || c == ' ' || c == '\U{0085}' || c == '\U{00A0}' || c == '\U{1680}' || '\U{2000}' <= c <= '\U{200A}'
    || '\U{2028}' <= c <= '\U{2029}' || c == '\U{202F}' || c == '\U{205F}' || c == '\U{3000}'
  }

  lemma SpacesAre(c: char)
    ensures IsSpace(c) <==>
              c in "\t\n\U{000B}\U{000C}\r \U{0085}\U{00A0}\U{1680}\U{2000}\U{2001}\U{2002}\U{2003}\U{2004}\U{2005}" +
                   "\U{2006}\U{2007}\U{2008}\U{2009}\U{200A}\U{2028}\U{2029}\U{202F}\U{205F}\U{3000}"
  {
  }

  /** A response that is empty once trimmed; the harness fails on it. */
  predicate Blank(text: string) {
    forall i :: 0 <= i < |text| ==> IsSpace(text[i])
  }

  /** Sending a reply that is not blank: on an error it may still have been accepted. */
  function DoSend(s: State, w: int, text: string, fault: Fault): State {
    if w !in s.h.tasks || !s.h.tasks[w].stage.Working? || w !in s.who || Blank(text) then s
    else
      var reply := Reply(s.who[w], s.h.tasks[w].event, text);
      var s1 := if fault == Failed(false) then s else WithPersistence(s, P.Step(true, s.p, P.Produce(reply)));
      if fault == NoFault then s1.(h := H.Perform(s.h, w, H.ReplySent, s.r.now)) else s1
  }

  function Step(team: Team, s: State, l: Label): State {
    match l
    case Worker(wl) =>
      // only the harness produces messages under agent client ids
      if wl.Produce? && wl.msg.client.FromAgent? then s else WithPersistence(s, P.Step(true, s.p, wl))
    case Relaying(rl) => if rl.Enqueue? then s else s.(r := R.Step(s.r, rl))
    case Consume(w, k, a) =>
      if a in team && w !in s.h.tasks && Trigger(a, s.p, s.r.delivered, k)
      then s.(h := H.Step(s.h, H.Start(w, EventAt(s.p, k))), who := s.who[w := a]) else s
    case Act(w, x) => if x.ReplySent? then s else s.(h := H.Perform(s.h, w, x, s.r.now))
    case Send(w, text, fault) => DoSend(s, w, text, fault)
  }

  function RunFrom(team: Team, s: State, labels: seq<Label>): State {
    if labels == [] then s
    else Step(team, RunFrom(team, s, labels[..|labels| - 1]), labels[|labels| - 1])
  }

  function Run(team: Team, labels: seq<Label>): State {
    RunFrom(team, INITIAL, labels)
  }

  // ------------------------------------------------------------------ invariant

  ghost predicate Triggered(a: Agent, p: P.State, delivered: set<EventId>, e: EventId) {
    exists k :: Trigger(a, p, delivered, k) && EventAt(p, k) == e
  }

  /** Every worker at work acts for an agent of the team, on an event that agent answers. */
  ghost predicate TasksOk(team: Team, s: State) {
    forall w :: w in s.h.tasks ==>
      w in s.who && s.who[w] in team && Triggered(s.who[w], s.p, s.r.delivered, s.h.tasks[w].event)
  }

  /** The message is the agent's answer to an event it handles. */
  ghost predicate AnswerOf(a: Agent, p: P.State, delivered: set<EventId>, m: Message) {
    && m.client.FromAgent?
    && m.sender == a.botId && m.topic == m.client.event.topic && m.client.agent == a.agentId
    && Triggered(a, p, delivered, m.client.event)
  }

  /** `m` may go upstream: it is no agent reply, or an agent's answer to a trigger. */
  ghost predicate Sendable(team: Team, p: P.State, delivered: set<EventId>, m: Message) {
    m.client.FromAgent? ==> exists a :: a in team && AnswerOf(a, p, delivered, m)
  }

  /** Every message under an agent client id is an agent's answer to a trigger. */
  ghost predicate RepliesOk(team: Team, p: P.State, delivered: set<EventId>) {
    forall m :: m in p.upstream ==> Sendable(team, p, delivered, m)
  }

  ghost predicate Lower(s: State) {
    P.Inv(s.p) && O.OutboxOk(s.p)
  }

  ghost predicate Upper(team: Team, s: State) {
    && R.PublishedOk(s.r) && s.r.rows.Keys == s.p.outbox
    && TasksOk(team, s) && RepliesOk(team, s.p, s.r.delivered)
  }

  /** The relay's own account of calls and leases. */
  ghost predicate Accounts(s: State) {
    R.CallsOk(s.r) && R.LeaseOk(s.r)
  }

  ghost predicate Inv(team: Team, s: State) {
    Lower(s) && Upper(team, s) && Accounts(s)
  }

  /** Triggers stay triggers while allocations and delivered events only grow. */
  lemma TriggeredStays(a: Agent, s: State, s': State, e: EventId)
    requires forall k :: k in s.p.allocs ==> k in s'.p.allocs && s'.p.allocs[k] == s.p.allocs[k]
    requires s.r.delivered <= s'.r.delivered
    requires Triggered(a, s.p, s.r.delivered, e)
    ensures Triggered(a, s'.p, s'.r.delivered, e)
  {
    var k :| Trigger(a, s.p, s.r.delivered, k) && EventAt(s.p, k) == e;
    assert Trigger(a, s'.p, s'.r.delivered, k);
  }

  lemma SyncKeepsRelay(r: R.State, outbox: set<EventId>)
    requires R.PublishedOk(r) && r.rows.Keys <= outbox
    ensures R.PublishedOk(Synced(r, outbox)) && Synced(r, outbox).rows.Keys == outbox
    ensures Synced(r, outbox).delivered == r.delivered
  {
  }

  lemma GrowthKeepsTasks(team: Team, s: State, s': State, added: set<Message>)
    requires TasksOk(team, s) && RepliesOk(team, s.p, s.r.delivered) && s'.h == s.h && s'.who == s.who
    requires O.Grew(s.p, s'.p, added) && s.r.delivered <= s'.r.delivered
    requires forall m :: m in added ==> Sendable(team, s.p, s.r.delivered, m)
    ensures TasksOk(team, s') && RepliesOk(team, s'.p, s'.r.delivered)
  {
    forall w | w in s'.h.tasks ensures Triggered(s.who[w], s'.p, s'.r.delivered, s'.h.tasks[w].event) {
      TriggeredStays(s.who[w], s, s', s.h.tasks[w].event);
    }
    forall m | m in s'.p.upstream ensures Sendable(team, s'.p, s'.r.delivered, m) {
      assert Sendable(team, s.p, s.r.delivered, m);
      if m.client.FromAgent? {
        var a :| a in team && AnswerOf(a, s.p, s.r.delivered, m);
        TriggeredStays(a, s, s', m.client.event);
        assert AnswerOf(a, s'.p, s'.r.delivered, m);
      }
    }
  }

  /** A persistence step, together with the relay seeing its events. */
  lemma GrowthKeepsUpper(team: Team, s: State, p': P.State, added: set<Message>)
    requires Upper(team, s) && O.Grew(s.p, p', added)
    requires forall m :: m in added ==> Sendable(team, s.p, s.r.delivered, m)
    ensures Upper(team, WithPersistence(s, p'))
  {
    SyncKeepsRelay(s.r, p'.outbox);
    GrowthKeepsTasks(team, s, WithPersistence(s, p'), added);
  }

  lemma RelayGrows(r: R.State, l: R.Label)
    ensures r.delivered <= R.Step(r, l).delivered
    ensures !l.Enqueue? ==> R.Step(r, l).rows.Keys == r.rows.Keys
  {
  }

  lemma RelayKeepsUpper(team: Team, s: State, l: R.Label)
    requires Upper(team, s) && !l.Enqueue?
    ensures Upper(team, s.(r := R.Step(s.r, l)))
  {
    R.StepKeepsPublished(s.r, l);
    RelayGrows(s.r, l);
    GrowthKeepsTasks(team, s, s.(r := R.Step(s.r, l)), {});
  }

  lemma ActKeepsUpper(team: Team, s: State, w: int, x: H.Action)
    requires Upper(team, s)
    ensures Upper(team, s.(h := H.Perform(s.h, w, x, s.r.now)))
  {
    H.PerformFrame(s.h, w, x, s.r.now);
  }

  lemma SendKeepsUpper(team: Team, s: State, w: int, text: string, fault: Fault)
    requires Upper(team, s)
    ensures Upper(team, DoSend(s, w, text, fault))
  {
    if w in s.h.tasks && s.h.tasks[w].stage.Working? {
      var reply := Reply(s.who[w], s.h.tasks[w].event, text);
      assert AnswerOf(s.who[w], s.p, s.r.delivered, reply);
      var s1 := if fault == Failed(false) then s else WithPersistence(s, P.Step(true, s.p, P.Produce(reply)));
      if fault != Failed(false) {
        O.OtherStepGrows(true, s.p, P.Produce(reply));
        GrowthKeepsUpper(team, s, P.Step(true, s.p, P.Produce(reply)), {reply});
      }
      ActKeepsUpper(team, s1, w, H.ReplySent);
    }
  }

  lemma StepKeepsUpper(team: Team, s: State, l: Label)
    requires Upper(team, s)
    requires l.Worker? ==> O.Grew(s.p, P.Step(true, s.p, l.workerLabel), O.Added(l.workerLabel))
    ensures Upper(team, Step(team, s, l))
  {
    match l
    case Worker(wl) =>
      if !(wl.Produce? && wl.msg.client.FromAgent?) {
        GrowthKeepsUpper(team, s, P.Step(true, s.p, wl), O.Added(wl));
      }
    case Relaying(rl) =>
      if !rl.Enqueue? {
        RelayKeepsUpper(team, s, rl);
      }
    case Consume(w, k, a) =>
      assert Trigger(a, s.p, s.r.delivered, k) ==> Triggered(a, s.p, s.r.delivered, EventAt(s.p, k));
    case Act(w, x) => ActKeepsUpper(team, s, w, x);
    case Send(w, text, fault) => SendKeepsUpper(team, s, w, text, fault);
  }

  /** What a step does to the message store is a step of the message store. */
  lemma StepOnPersistence(team: Team, s: State, l: Label)
    ensures Step(team, s, l).p == s.p || exists pl :: Step(team, s, l).p == P.Step(true, s.p, pl)
  {
    match l
    case Worker(wl) =>
      assert Step(team, s, l).p in {s.p, P.Step(true, s.p, wl)};
    case Send(w, text, fault) =>
      if w in s.h.tasks && w in s.who {
        assert Step(team, s, l).p in {s.p, P.Step(true, s.p, P.Produce(Reply(s.who[w], s.h.tasks[w].event, text)))};
      }
    case _ =>
  }

  lemma StepKeepsLower(team: Team, s: State, l: Label)
    requires Lower(s)
    ensures Lower(Step(team, s, l))
  {
    StepOnPersistence(team, s, l);
    if Step(team, s, l).p != s.p {
      var pl :| Step(team, s, l).p == P.Step(true, s.p, pl);
      P.StepKeepsInv(true, s.p, pl);
      O.StepKeepsOutbox(s.p, pl);
    }
  }

  /** Rows that appear with a commit have no calls and no holders yet. */
  lemma SyncKeepsAccounts(r: R.State, outbox: set<EventId>)
    requires R.PublishedOk(r) && R.CallsOk(r) && R.LeaseOk(r) && r.rows.Keys <= outbox
    ensures R.CallsOk(Synced(r, outbox)) && R.LeaseOk(Synced(r, outbox))
  {
    var r' := Synced(r, outbox);
    forall e | e in r'.rows ensures R.Calls(r', e) + |R.Holders(r', e)| <= r'.rows[e].attempts {
      assert R.Holders(r', e) == R.Holders(r, e);
      if e !in r.rows {
        assert forall q :: q in r.relays ==> r.relays[q].event in r.rows;
        assert R.Holders(r, e) == {};
      }
    }
  }

  /** A relay, worker or send step keeps the relay's account, the outbox only growing. */
  lemma StepKeepsAccounts(team: Team, s: State, l: Label)
    requires R.PublishedOk(s.r) && s.r.rows.Keys == s.p.outbox && Accounts(s)
    requires s.p.outbox <= Step(team, s, l).p.outbox
    ensures Accounts(Step(team, s, l))
  {
    if l.Relaying? {
      R.StepKeepsInv(s.r, l.relayLabel);
    } else {
      SyncKeepsAccounts(s.r, Step(team, s, l).p.outbox);
      assert Step(team, s, l).r in {s.r, Synced(s.r, Step(team, s, l).p.outbox)};
    }
  }

  lemma ProduceKeepsOutbox(p: P.State, m: Message)
    ensures P.Step(true, p, P.Produce(m)).outbox == p.outbox
  {
  }

  lemma OutboxGrows(team: Team, s: State, l: Label)
    requires l.Worker? ==> O.Grew(s.p, P.Step(true, s.p, l.workerLabel), O.Added(l.workerLabel))
    ensures s.p.outbox <= Step(team, s, l).p.outbox
  {
    if l.Send? && l.w in s.h.tasks && l.w in s.who {
      ProduceKeepsOutbox(s.p, Reply(s.who[l.w], s.h.tasks[l.w].event, l.text));
    }
  }

  lemma StepKeepsInv(team: Team, s: State, l: Label)
    requires Inv(team, s)
    ensures Inv(team, Step(team, s, l))
  {
    if l.Worker? {
      O.StepGrows(true, s.p, l.workerLabel);
    }
    StepKeepsUpper(team, s, l);
    StepKeepsLower(team, s, l);
    OutboxGrows(team, s, l);
    StepKeepsAccounts(team, s, l);
  }

  lemma {:induction false} RunFromKeepsInv(team: Team, s: State, labels: seq<Label>)
    requires Inv(team, s)
    ensures Inv(team, RunFrom(team, s, labels))
  {
    if labels != [] {
      RunFromKeepsInv(team, s, labels[..|labels| - 1]);
      StepKeepsInv(team, RunFrom(team, s, labels[..|labels| - 1]), labels[|labels| - 1]);
    }
  }

  lemma RunKeepsInv(team: Team, labels: seq<Label>)
    ensures Inv(team, Run(team, labels))
  {
    RunFromKeepsInv(team, INITIAL, labels);
  }

  // ------------------------------------------------------------------ main results

  /** The stored copies of harness replies, in inboxes and group messages. */
  function ReplyRows(s: State): set<Row> {
    set r | r in s.p.tables.inboxes + s.p.tables.messages && r.client.FromAgent?
  }

  lemma ReplyRowOrigin(team: Team, s: State, r: Row) returns (a: Agent)
    requires P.Core(s.p) && Upper(team, s) && r in ReplyRows(s)
    ensures
      var k := Slot(r.topic, r.seqNo);
      && k in s.p.allocs && s.p.allocs[k].msg in s.p.upstream && s.p.allocs[k].msg.client == r.client
      && r in O.Copies(s.p, s.p.allocs[k].msg)
      && a in team && AnswerOf(a, s.p, s.r.delivered, s.p.allocs[k].msg) && !r.topic.System?
  {
    var c := if r in s.p.tables.inboxes then Inboxes else Messages;
    assert P.RowOk(s.p.allocs, c, r);
    var m := s.p.allocs[Slot(r.topic, r.seqNo)].msg;
    assert Sendable(team, s.p, s.r.delivered, m);
    a :| a in team && AnswerOf(a, s.p, s.r.delivered, m);
  }

  /** All stored copies under one agent client id belong to one message. */
  lemma CopiesOfOneReply(team: Team, s: State, x: Row, y: Row)
    requires P.Core(s.p) && O.OutboxOk(s.p) && Upper(team, s)
    requires x in ReplyRows(s) && y in ReplyRows(s) && x.client == y.client
    ensures x.msgId == y.msgId && x.seqNo == y.seqNo && x.content == y.content
  {
    var a := ReplyRowOrigin(team, s, x);
    var b := ReplyRowOrigin(team, s, y);
    var m := s.p.allocs[Slot(x.topic, x.seqNo)].msg;
    assert SameIdentity(m, s.p.allocs[Slot(y.topic, y.seqNo)].msg);
    assert y in O.Copies(s.p, m);
    O.StoredOnceOrNotAtAll(s.p, m);
    var al, n :| O.StoredOnce(s.p, m, al, n);
  }

  /**
   After any run of any team, with duplicated events, double claims, retries
   and crashes, whatever texts the models produced: the stored replies of one
   agent to one event are copies of a single message.
   */
  lemma AtMostOneReply(team: Team, labels: seq<Label>, x: Row, y: Row)
    requires x in ReplyRows(Run(team, labels)) && y in ReplyRows(Run(team, labels))
    requires x.client.event == y.client.event && x.client.agent == y.client.agent
    ensures x.msgId == y.msgId && x.seqNo == y.seqNo && x.content == y.content
  {
    RunKeepsInv(team, labels);
    CopiesOfOneReply(team, Run(team, labels), x, y);
  }

  /** No handler is ever at work on a message of its own bot. */
  lemma BotIsNeverAnswered(team: Team, labels: seq<Label>, w: int)
    requires w in Run(team, labels).h.tasks
    ensures
      var s := Run(team, labels);
      var e := s.h.tasks[w].event;
      e in s.p.outbox && w in s.who && s.who[w] in team && e.sender != s.who[w].botId
  {
    RunKeepsInv(team, labels);
    var s := Run(team, labels);
    assert Triggered(s.who[w], s.p, s.r.delivered, s.h.tasks[w].event);
  }

  /**
   An agent starts on a stored slot exactly if it belongs to the team, its
   worker is free, the event has reached the agent topic, and the message comes
   from someone else and mentions its bot in a group or is in a conversation
   with its bot.
   */
  lemma ConsumeStartsIff(team: Team, s: State, w: int, k: Slot, a: Agent)
    ensures Step(team, s, Consume(w, k, a)) != s <==>
              && a in team && w !in s.h.tasks && k in s.p.allocs
              && var m := s.p.allocs[k].msg;
                 && EventId(s.p.allocs[k].msgId, m.topic, m.sender) in s.r.delivered && m.sender != a.botId
                 && ((m.topic.Group? && a.botId in m.mentioned)
                     || (m.topic.P2P? && a.botId in {m.topic.first, m.topic.second}))
    ensures Step(team, s, Consume(w, k, a)) != s ==>
              var m := s.p.allocs[k].msg;
              && Step(team, s, Consume(w, k, a)).who == s.who[w := a]
              && Step(team, s, Consume(w, k, a)).h ==
                   s.h.(tasks := s.h.tasks[w := H.Task(EventId(s.p.allocs[k].msgId, m.topic, m.sender), H.Looking)])
  {
    var s' := Step(team, s, Consume(w, k, a));
    if a in team && w !in s.h.tasks && Trigger(a, s.p, s.r.delivered, k) {
      assert w in s'.h.tasks;
    }
  }

  /** Who is at work, in every run, is at work on a stored number's message that mentions its bot, or is addressed to it. */
  lemma HandledIsAddressed(team: Team, labels: seq<Label>, w: int)
    requires w in Run(team, labels).h.tasks
    ensures
      var s := Run(team, labels);
      w in s.who && exists k :: && k in s.p.allocs && EventAt(s.p, k) == s.h.tasks[w].event
                                && var m := s.p.allocs[k].msg;
                                   || (m.topic.Group? && s.who[w].botId in m.mentioned)
                                   || (m.topic.P2P? && s.who[w].botId in {m.topic.first, m.topic.second})
  {
    RunKeepsInv(team, labels);
    var s := Run(team, labels);
    assert Triggered(s.who[w], s.p, s.r.delivered, s.h.tasks[w].event);
  }

  /** A worker at work for an agent sends its reply `m`. */
  ghost predicate Sends(s: State, l: Label, m: Message) {
    && l.Send? && l.w in s.h.tasks && l.w in s.who && s.h.tasks[l.w].stage.Working?
    && m.sender == s.who[l.w].botId && m.topic == s.h.tasks[l.w].event.topic && m.content == l.text
    && m.client == FromAgent(s.h.tasks[l.w].event, s.who[l.w].agentId) && m.mentioned == []
    && exists i :: 0 <= i < |l.text| && !IsSpace(l.text[i])
  }

  ghost predicate SentAt(team: Team, labels: seq<Label>, i: nat, m: Message) {
    i < |labels| && Sends(Run(team, labels[..i]), labels[i], m)
  }

  lemma OnlyProduceAdds(p: P.State, l: P.Label)
    ensures P.Step(true, p, l).upstream <= p.upstream + O.Added(l)
  {
  }

  lemma NewReplyIsSent(team: Team, s: State, l: Label, m: Message)
    requires m in Step(team, s, l).p.upstream && m !in s.p.upstream && m.client.FromAgent?
    ensures Sends(s, l, m)
  {
    if l.Worker? {
      OnlyProduceAdds(s.p, l.workerLabel);
    }
    if l.Send? && l.w in s.h.tasks && l.w in s.who {
      OnlyProduceAdds(s.p, P.Produce(Reply(s.who[l.w], s.h.tasks[l.w].event, l.text)));
    }
  }

  lemma {:induction false} ReplyWasSent(team: Team, labels: seq<Label>, m: Message)
    requires m in Run(team, labels).p.upstream && m.client.FromAgent?
    ensures exists i: nat :: SentAt(team, labels, i, m)
  {
    var n := |labels| - 1;
    var before := labels[..n];
    if m in Run(team, before).p.upstream {
      ReplyWasSent(team, before, m);
      var i: nat :| SentAt(team, before, i, m);
      assert before[..i] == labels[..i];
      assert SentAt(team, labels, i, m);
    } else {
      NewReplyIsSent(team, Run(team, before), labels[n], m);
      assert SentAt(team, labels, n, m);
    }
  }

  /**
   Every stored reply is one that a handler at work sent: to the topic of the
   event it worked on, from its agent's bot, under the client id of the two,
   with the text it produced, which is not blank.
   */
  lemma StoredReplyWasSent(team: Team, labels: seq<Label>, r: Row)
    requires r in ReplyRows(Run(team, labels))
    ensures exists i: nat, m :: && SentAt(team, labels, i, m)
                                && r.sender == m.sender && r.topic == m.topic && r.client == m.client && r.content == m.content
  {
    RunKeepsInv(team, labels);
    var s := Run(team, labels);
    var a := ReplyRowOrigin(team, s, r);
    var m := s.p.allocs[Slot(r.topic, r.seqNo)].msg;
    ReplyWasSent(team, labels, m);
    var i: nat :| SentAt(team, labels, i, m);
    assert P.RowOk(s.p.allocs, if r in s.p.tables.inboxes then Inboxes else Messages, r);
  }

  /** An event that a step commits has a new row, which is due at once. */
  lemma CommittedEventIsDue(team: Team, s: State, l: Label, e: EventId)
    requires s.r.rows.Keys == s.p.outbox && e !in s.p.outbox && e in Step(team, s, l).p.outbox
    ensures e in Step(team, s, l).r.rows
    ensures
      var row := Step(team, s, l).r.rows[e];
      row.status == R.Pending && row.attempts == 0 && row.createdAt == row.nextAttemptAt == s.r.now
  {
  }

  /**
   In the composed system, too: an event that was published was committed with
   its message and acknowledged by the broker, its publish calls never exceed
   its attempts, and a claimed row is claimable again within one lease.
   */
  lemma EventsAreAccountedFor(team: Team, labels: seq<Label>, e: EventId)
    requires e in Run(team, labels).r.rows
    ensures
      var s := Run(team, labels);
      && e in s.p.outbox
      && (s.r.rows[e].status == R.Published ==> e in s.r.acknowledged)
      && R.Calls(s.r, e) <= s.r.rows[e].attempts
      && (s.r.rows[e].status == R.Processing ==> R.ClaimableAt(s.r.rows[e]) <= s.r.now + R.LEASE + 1)
  {
    RunKeepsInv(team, labels);
  }

  function ReplyIds(s: State): set<nat> {
    set r | r in ReplyRows(s) :: r.msgId
  }

  /** An agent, by its id, is asked by the stored message with this id. */
  datatype Request = Request(agentId: int, msgId: nat)

  /** The stored messages with the agents that are meant to answer them. */
  ghost function Requests(team: Team, s: State): set<Request> {
    set a, k | a in team && k in s.p.allocs && ShouldHandle(a, s.p.allocs[k].msg)
               && P.AllStored(s.p.tables, s.p.allocs[k], k.seqNo)
      :: Request(a.agentId, s.p.allocs[k].msgId)
  }

  function RequestOf(r: Row): Request
    requires r.client.FromAgent?
  {
    Request(r.client.agent, r.client.event.msgId)
  }

  /** A reply answers a message that is stored and asks its agent. */
  lemma ReplyHasTrigger(team: Team, s: State, r: Row)
    requires P.Core(s.p) && O.OutboxOk(s.p) && Upper(team, s) && r in ReplyRows(s)
    ensures RequestOf(r) in Requests(team, s)
  {
    var a := ReplyRowOrigin(team, s, r);
    var k :| Trigger(a, s.p, s.r.delivered, k) && EventAt(s.p, k) == r.client.event;
    assert P.AllStored(s.p.tables, s.p.allocs[k], k.seqNo);
  }

  /** Replies of one agent to events of one message id answer one event. */
  lemma SameRequestSameReply(team: Team, s: State, x: Row, y: Row)
    requires P.Core(s.p) && O.OutboxOk(s.p) && Upper(team, s)
    requires x in ReplyRows(s) && y in ReplyRows(s) && RequestOf(x) == RequestOf(y)
    ensures x.msgId == y.msgId
  {
    var a := ReplyRowOrigin(team, s, x);
    var b := ReplyRowOrigin(team, s, y);
    var j :| Trigger(a, s.p, s.r.delivered, j) && EventAt(s.p, j) == x.client.event;
    var k :| Trigger(b, s.p, s.r.delivered, k) && EventAt(s.p, k) == y.client.event;
    assert j == k;
    CopiesOfOneReply(team, s, x, y);
  }

  ghost function Answered(s: State, id: nat): Request
    requires id in ReplyIds(s)
  {
    var r :| r in ReplyRows(s) && r.msgId == id;
    RequestOf(r)
  }

  lemma {:induction false} InjectionBound(xs: set<nat>, ys: set<Request>, f: map<nat, Request>)
    requires f.Keys == xs && forall x :: x in xs ==> f[x] in ys
    requires forall x, x' :: x in xs && x' in xs && f[x] == f[x'] ==> x == x'
    ensures |xs| <= |ys|
  {
    if x :| x in xs {
      InjectionBound(xs - {x}, ys - {f[x]}, f - {x});
    }
  }

  lemma RepliesAreBoundedIn(team: Team, s: State)
    requires P.Core(s.p) && O.OutboxOk(s.p) && Upper(team, s)
    ensures |ReplyIds(s)| <= |Requests(team, s)|
  {
    var f := map id | id in ReplyIds(s) :: Answered(s, id);
    forall id | id in ReplyIds(s) ensures f[id] in Requests(team, s) {
      var r :| r in ReplyRows(s) && r.msgId == id && f[id] == RequestOf(r);
      ReplyHasTrigger(team, s, r);
    }
    forall i, j | i in ReplyIds(s) && j in ReplyIds(s) && f[i] == f[j] ensures i == j {
      var x :| x in ReplyRows(s) && x.msgId == i && f[i] == RequestOf(x);
      var y :| y in ReplyRows(s) && y.msgId == j && f[j] == RequestOf(y);
      SameRequestSameReply(team, s, x, y);
    }
    InjectionBound(ReplyIds(s), Requests(team, s), f);
  }

  /** Stored replies never outnumber the requests that stored messages make of the team's agents. */
  lemma RepliesAreBounded(team: Team, labels: seq<Label>)
    ensures |ReplyIds(Run(team, labels))| <= |Requests(team, Run(team, labels))|
  {
    RunKeepsInv(team, labels);
    RepliesAreBoundedIn(team, Run(team, labels));
  }
}
