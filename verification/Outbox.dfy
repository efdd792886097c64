/**
 What the step system of the message workers promises: stored messages and
 outbox events correspond, verdicts are exact, and the sender cache is right.
 */
module Outbox {
  import opened Domain
  import opened Storage
  import opened Persistence
  import Sequences

  // ------------------------------------------------------------ the outbox

  /** With the outbox on: each stored message is stored for all its parties and has its event, and events have messages. */
  ghost predicate OutboxOk(s: State) {
    && (forall k :: k in s.allocs && !k.topic.System? && EventOf(s.allocs[k].msg, s.allocs[k].msgId) in s.outbox ==>
          AllStored(s.tables, s.allocs[k], k.seqNo))
    && (forall c, r :: r in s.tables.Rows(c) && c != Mentions && !r.topic.System? ==>
          EventId(r.msgId, r.topic, r.sender) in s.outbox)
    && (forall e :: e in s.outbox ==>
          exists k :: k in s.allocs && e == EventOf(s.allocs[k].msg, s.allocs[k].msgId) && !k.topic.System?)
  }

  /** No allocation made from now on can find its event already in the outbox. */
  lemma AllocationKeepsOutbox(s: State, s': State, k: Slot)
    requires AllocsOk(s) && OutboxOk(s) && k !in s.allocs
    requires k in s'.allocs && s'.allocs == s.allocs[k := s'.allocs[k]] && s'.allocs[k].msgId == s.nextId
    requires s'.tables == s.tables && s'.outbox == s.outbox
    ensures OutboxOk(s')
  {
    forall e | e in s.outbox ensures e.msgId < s.nextId {
      var j :| j in s.allocs && e == EventOf(s.allocs[j].msg, s.allocs[j].msgId) && !j.topic.System?;
    }
    forall e | e in s'.outbox
      ensures exists j :: j in s'.allocs && e == EventOf(s'.allocs[j].msg, s'.allocs[j].msgId) && !j.topic.System?
    {
      var j :| j in s.allocs && e == EventOf(s.allocs[j].msg, s.allocs[j].msgId) && !j.topic.System?;
      assert s'.allocs[j] == s.allocs[j];
    }
  }

  lemma CommitKeepsOutbox(s: State, s': State, k: Slot)
    requires AllocsOk(s) && OutboxOk(s) && k in s.allocs && !k.topic.System?
    requires s'.allocs == s.allocs && s'.outbox == s.outbox + {EventOf(s.allocs[k].msg, s.allocs[k].msgId)}
    requires AllStored(s'.tables, s.allocs[k], k.seqNo)
    requires Adds(s.tables, s'.tables, MainCollection(k.topic), k) && RowsOk(s'.allocs, s'.tables)
    ensures OutboxOk(s')
  {
    forall j | j in s.allocs && !j.topic.System? && EventOf(s.allocs[j].msg, s.allocs[j].msgId) in s'.outbox
      ensures AllStored(s'.tables, s.allocs[j], j.seqNo)
    {
      if EventOf(s.allocs[j].msg, s.allocs[j].msgId) !in s.outbox {
        assert s.allocs[j].msgId == s.allocs[k].msgId;
      }
    }
    forall c, r | r in s'.tables.Rows(c) && c != Mentions && !r.topic.System?
      ensures EventId(r.msgId, r.topic, r.sender) in s'.outbox
    {
      assert RowOk(s'.allocs, c, r);
      assert r !in s.tables.Rows(c) ==> Slot(r.topic, r.seqNo) == k;
    }
  }

  lemma TransactKeepsOutbox(s: State, h: int, faults: seq<Fault>, outcome: CommitOutcome)
    requires Core(s) && OutboxOk(s) && h in s.handlers && !s.handlers[h].msg.topic.System?
    ensures OutboxOk(DoTransact(s, h, faults, outcome))
  {
    var s' := DoTransact(s, h, faults, outcome);
    var hd := s.handlers[h];
    if hd.results == [] {
      assert HandlerOk(s.allocs, s.tables, hd);
      TransactionIsAtomic(s, hd, faults, outcome);
      if s'.outbox != s.outbox || s'.tables != s.tables {
        assert s'.outbox == s.outbox + {EventOf(hd.msg, hd.msgId)};
        assert AllStored(s'.tables, s.allocs[SlotOf(hd)], hd.seqNo);
        CommitKeepsOutbox(s, s', SlotOf(hd));
      }
    }
  }

  /** Writes outside transactions only concern system messages and mentions. */
  lemma PlainWritesKeepOutbox(s: State, s': State, c: Collection, k: Slot)
    requires OutboxOk(s) && s'.allocs == s.allocs && s'.outbox == s.outbox
    requires Adds(s.tables, s'.tables, c, k) && (c == Mentions || k.topic.System?)
    ensures OutboxOk(s')
  {
    forall j | j in s.allocs && !j.topic.System? && EventOf(s.allocs[j].msg, s.allocs[j].msgId) in s.outbox
      ensures AllStored(s'.tables, s.allocs[j], j.seqNo)
    {
      assert AllStored(s.tables, s.allocs[j], j.seqNo);
    }
  }

  lemma SameKeepsOutbox(s: State, s': State)
    requires OutboxOk(s) && s'.allocs == s.allocs && s'.outbox == s.outbox && s'.tables == s.tables
    ensures OutboxOk(s')
  {
  }

  lemma ReceiveKeepsOutbox(s: State, h: int, gen: int, m: Message, fault: Fault)
    requires AllocsOk(s) && OutboxOk(s) && NumberIsFresh(s, gen, m, fault)
    ensures OutboxOk(DoReceive(s, h, gen, m, fault))
  {
    var s' := DoReceive(s, h, gen, m, fault);
    if s'.allocs != s.allocs {
      var n := Sequences.Allocate(s.seqs.counters, Sequences.RangesOf(s.seqs, gen), m.topic, fault).number.value;
      AllocationKeepsOutbox(s, s', Slot(m.topic, n));
    } else {
      SameKeepsOutbox(s, s');
    }
  }

  lemma WriteRowKeepsOutbox(s: State, h: int, fault: Fault)
    requires Core(s) && OutboxOk(s)
    requires h in s.handlers && s.handlers[h].msg.topic.System?
    ensures OutboxOk(DoWriteRow(s, h, fault))
  {
    var hd := s.handlers[h];
    if !Complete(hd) {
      assert HandlerOk(s.allocs, s.tables, hd);
      OwnWrite(s, hd, s.tables, fault);
      PlainWritesKeepOutbox(s, DoWriteRow(s, h, fault), MainCollection(hd.msg.topic), SlotOf(hd));
    }
  }

  lemma WriteMentionKeepsOutbox(s: State, h: int, index: nat, fault: Fault)
    requires Core(s) && OutboxOk(s)
    ensures OutboxOk(DoWriteMention(s, h, index, fault))
  {
    var s' := DoWriteMention(s, h, index, fault);
    if s' != s {
      var hd := s.handlers[h];
      assert HandlerOk(s.allocs, s.tables, hd);
      InsertKeepsTables(s.allocs, s.tables, Mentions,
                        RowFor(hd.msg, hd.msgId, hd.seqNo, hd.msg.mentioned[index]), fault);
      PlainWritesKeepOutbox(s, s', Mentions, SlotOf(hd));
    }
  }

  lemma WriteStepKeepsOutbox(s: State, l: Label)
    requires Core(s) && OutboxOk(s)
    requires l.WriteRow? || l.Transact? || l.WriteMention?
    ensures OutboxOk(Step(true, s, l))
  {
    match l
    case WriteRow(h, fault) =>
      if h in s.handlers && s.handlers[h].msg.topic.System? {
        WriteRowKeepsOutbox(s, h, fault);
      }
    case Transact(h, faults, outcome) =>
      if h in s.handlers && !s.handlers[h].msg.topic.System? {
        TransactKeepsOutbox(s, h, faults, outcome);
      }
    case WriteMention(h, index, fault) => WriteMentionKeepsOutbox(s, h, index, fault);
  }

  lemma QuietStepKeepsOutbox(s: State, l: Label)
    requires OutboxOk(s) && !l.Receive? && !l.WriteRow? && !l.Transact? && !l.WriteMention?
    ensures OutboxOk(Step(true, s, l))
  {
    SameKeepsOutbox(s, Step(true, s, l));
  }

  lemma StepKeepsOutbox(s: State, l: Label)
    requires Inv(s) && OutboxOk(s)
    ensures OutboxOk(Step(true, s, l))
  {
    if l.Receive? {
      ReceivedNumberIsFresh(s, l.gen, l.msg, l.fault);
      ReceiveKeepsOutbox(s, l.h, l.gen, l.msg, l.fault);
    } else if l.WriteRow? || l.Transact? || l.WriteMention? {
      WriteStepKeepsOutbox(s, l);
    } else {
      QuietStepKeepsOutbox(s, l);
    }
  }

  lemma {:induction false} RunKeepsOutbox(labels: seq<Label>)
    ensures Inv(Run(true, labels)) && OutboxOk(Run(true, labels))
  {
    RunKeepsInv(true, labels);
    if labels != [] {
      RunKeepsOutbox(labels[..|labels| - 1]);
      StepKeepsOutbox(Run(true, labels[..|labels| - 1]), labels[|labels| - 1]);
    }
  }

  /** What no step takes back: allocations and events; and only `Produce` adds messages. */
  ghost predicate Grew(s: State, s': State, added: set<Message>) {
    && (forall k :: k in s.allocs ==> k in s'.allocs && s'.allocs[k] == s.allocs[k])
    && s.outbox <= s'.outbox
    && s'.upstream <= s.upstream + added
  }

  function Added(l: Label): set<Message> {
    if l.Produce? then {l.msg} else {}
  }

  lemma ReceiveGrows(s: State, h: int, gen: int, m: Message, fault: Fault)
    requires NumberIsFresh(s, gen, m, fault)
    ensures Grew(s, DoReceive(s, h, gen, m, fault), {})
  {
  }

  lemma OtherStepGrows(outboxOn: bool, s: State, l: Label)
    requires !l.Receive?
    ensures Grew(s, Step(outboxOn, s, l), Added(l))
  {
  }

  lemma StepGrows(outboxOn: bool, s: State, l: Label)
    requires Inv(s)
    ensures Grew(s, Step(outboxOn, s, l), Added(l))
  {
    if l.Receive? {
      ReceivedNumberIsFresh(s, l.gen, l.msg, l.fault);
      ReceiveGrows(s, l.h, l.gen, l.msg, l.fault);
    } else {
      OtherStepGrows(outboxOn, s, l);
    }
  }

  // ------------------------------------------------------------ main results

  /** The stored copies of the logical message `m`. */
  function Copies(s: State, m: Message): set<Row> {
    set r | r in s.tables.Rows(MainCollection(m.topic)) && r.client == m.client
  }

  /** The outbox rows of the logical message `m`. */
  function Events(s: State, m: Message): set<EventId> {
    set k | k in s.allocs && s.allocs[k].msg.client == m.client
            && EventOf(s.allocs[k].msg, s.allocs[k].msgId) in s.outbox
      :: EventOf(s.allocs[k].msg, s.allocs[k].msgId)
  }

  /** All of `m` is stored, once per party under one message id and one number, with exactly one outbox row. */
  ghost predicate StoredOnce(s: State, m: Message, a: Alloc, seqNo: nat) {
    && a.msg in s.upstream && a.msg.client == m.client
    && Copies(s, m) == (set u | u in MainOwners(m) :: RowFor(a.msg, a.msgId, seqNo, u))
    && Events(s, m) == {EventOf(m, a.msgId)}
  }

  lemma CopyIsOurs(s: State, m: Message, k: Slot, c: Collection, x: Row)
    requires Stored(s) && m in s.upstream && c == MainCollection(m.topic)
    requires k in s.allocs && s.allocs[k].msg.client == m.client && AllStored(s.tables, s.allocs[k], k.seqNo)
    requires x in s.tables.Rows(c) && x.client == m.client
    ensures x.owner in MainOwners(m) && x == RowFor(s.allocs[k].msg, s.allocs[k].msgId, k.seqNo, x.owner)
  {
    assert RowOk(s.allocs, c, x);
    var mx := s.allocs[Slot(x.topic, x.seqNo)].msg;
    assert SameIdentity(mx, m) && SameIdentity(s.allocs[k].msg, m);
    var y := RowFor(s.allocs[k].msg, s.allocs[k].msgId, k.seqNo, x.owner);
    assert y in s.tables.Rows(c);
    assert SameClient(x, y);
  }

  /** A slot of `m` whose event is in the outbox accounts for every copy and every event of `m`. */
  lemma StoredSlotIsWhole(s: State, m: Message, k: Slot)
    requires Stored(s) && OutboxOk(s) && m in s.upstream && !m.topic.System?
    requires k in s.allocs && s.allocs[k].msg.client == m.client
    requires EventOf(s.allocs[k].msg, s.allocs[k].msgId) in s.outbox
    ensures StoredOnce(s, m, s.allocs[k], k.seqNo)
  {
    var a := s.allocs[k];
    var c := MainCollection(m.topic);
    assert SameIdentity(a.msg, m);
    assert AllStored(s.tables, a, k.seqNo);
    var whole := set u | u in MainOwners(m) :: RowFor(a.msg, a.msgId, k.seqNo, u);
    forall x | x in Copies(s, m) ensures x in whole {
      CopyIsOurs(s, m, k, c, x);
    }
    forall e | e in Events(s, m) ensures e == EventOf(m, a.msgId) {
      var j :| j in s.allocs && s.allocs[j].msg.client == m.client
               && EventOf(s.allocs[j].msg, s.allocs[j].msgId) in s.outbox
               && e == EventOf(s.allocs[j].msg, s.allocs[j].msgId);
      assert SameIdentity(s.allocs[j].msg, m);
      var u := MainOwners(m)[0];
      assert AllStored(s.tables, s.allocs[j], j.seqNo);
      var x := RowFor(s.allocs[j].msg, s.allocs[j].msgId, j.seqNo, u);
      assert x in s.tables.Rows(c);
      CopyIsOurs(s, m, k, c, x);
    }
    assert EventOf(m, a.msgId) == EventOf(a.msg, a.msgId);
  }

  lemma StoredOnceOrNotAtAll(s: State, m: Message)
    requires Stored(s) && OutboxOk(s) && m in s.upstream && !m.topic.System?
    ensures (Copies(s, m) == {} && Events(s, m) == {}) || (exists a, seqNo :: StoredOnce(s, m, a, seqNo))
  {
    if r :| r in Copies(s, m) {
      assert RowOk(s.allocs, MainCollection(m.topic), r);
      var k := Slot(r.topic, r.seqNo);
      assert EventOf(s.allocs[k].msg, s.allocs[k].msgId) == EventId(r.msgId, r.topic, r.sender);
      assert SameIdentity(s.allocs[k].msg, m);
      StoredSlotIsWhole(s, m, k);
    } else if e :| e in Events(s, m) {
      var k :| k in s.allocs && s.allocs[k].msg.client == m.client
               && EventOf(s.allocs[k].msg, s.allocs[k].msgId) in s.outbox
               && e == EventOf(s.allocs[k].msg, s.allocs[k].msgId);
      StoredSlotIsWhole(s, m, k);
    }
  }

  /**
   With the agent outbox on, after any run of deliveries, redeliveries,
   retries and crashes: a message is stored not at all and has no event, or
   exactly once for each party with exactly one event.
   */
  lemma ExactlyOnce(labels: seq<Label>, m: Message)
    requires m in Run(true, labels).upstream && !m.topic.System?
    ensures
      var s := Run(true, labels);
      || (Copies(s, m) == {} && Events(s, m) == {})
      || (exists a, seqNo :: StoredOnce(s, m, a, seqNo))
  {
    RunKeepsOutbox(labels);
    StoredOnceOrNotAtAll(Run(true, labels), m);
  }

  /** Some message under the client id of `m` with this text was produced. */
  ghost predicate Produced(s: State, m: Message, text: string) {
    exists x :: x in s.upstream && x.client == m.client && x.content == text
  }

  /** `copies` are the copies of `m` for these two users, alike but for the user. */
  ghost predicate TwoCopies(copies: set<Row>, m: Message, a: UserId, b: UserId, id: nat, n: nat, text: string) {
    copies == {Row(a, id, m.topic, m.sender, n, m.client, text), Row(b, id, m.topic, m.sender, n, m.client, text)}
  }

  lemma StoredOnceForParties(s: State, m: Message, a: Alloc, n: nat)
    requires m in s.upstream && UpstreamOk(s.upstream) && StoredOnce(s, m, a, n)
    ensures m.topic.P2P? ==> TwoCopies(Copies(s, m), m, m.topic.first, m.topic.second, a.msgId, n, a.msg.content)
    ensures m.topic.Group? ==> Copies(s, m) == {Row(m.sender, a.msgId, m.topic, m.sender, n, m.client, a.msg.content)}
    ensures Produced(s, m, a.msg.content)
  {
    assert SameIdentity(a.msg, m) && WellFormed(m);
    var rows := set u | u in MainOwners(m) :: RowFor(a.msg, a.msgId, n, u);
    var text := a.msg.content;
    match m.topic
    case P2P(x, y) =>
      assert MainOwners(m)[0] in MainOwners(m) && MainOwners(m)[1] in MainOwners(m);
      assert x in MainOwners(m) && y in MainOwners(m) && forall u :: u in MainOwners(m) ==> u == x || u == y;
      assert rows == {RowFor(a.msg, a.msgId, n, x), RowFor(a.msg, a.msgId, n, y)};
    case Group(_) =>
      assert MainOwners(m)[0] in MainOwners(m) && forall u :: u in MainOwners(m) ==> u == m.sender;
      assert rows == {RowFor(a.msg, a.msgId, n, m.sender)};
    case System(_) =>
  }

  /**
   With the agent outbox on, after any run: no inbox has a copy of a P2P
   message, or the two users of its topic have exactly one each, with its
   sender and client id, one message id, one number and one produced text.
   */
  lemma BothUsersHaveIt(labels: seq<Label>, m: Message)
    requires m in Run(true, labels).upstream && m.topic.P2P?
    ensures
      var s := Run(true, labels);
      var copies := set r | r in s.tables.inboxes && r.client == m.client;
      || copies == {}
      || (exists id, n, text :: && TwoCopies(copies, m, m.topic.first, m.topic.second, id, n, text)
                                && Produced(s, m, text))
  {
    ExactlyOnce(labels, m);
    RunKeepsOutbox(labels);
    var s := Run(true, labels);
    var copies := set r | r in s.tables.inboxes && r.client == m.client;
    assert copies == Copies(s, m);
    if copies != {} {
      var a, n :| StoredOnce(s, m, a, n);
      StoredOnceForParties(s, m, a, n);
    }
  }

  /** Likewise a group message has no row, or exactly one under its sender. */
  lemma GroupHasItOnce(labels: seq<Label>, m: Message)
    requires m in Run(true, labels).upstream && m.topic.Group?
    ensures
      var s := Run(true, labels);
      var copies := set r | r in s.tables.messages && r.client == m.client;
      || copies == {}
      || (exists id, n, text :: && copies == {Row(m.sender, id, m.topic, m.sender, n, m.client, text)}
                                && Produced(s, m, text))
  {
    ExactlyOnce(labels, m);
    RunKeepsOutbox(labels);
    var s := Run(true, labels);
    var copies := set r | r in s.tables.messages && r.client == m.client;
    assert copies == Copies(s, m);
    if copies != {} {
      var a, n :| StoredOnce(s, m, a, n);
      StoredOnceForParties(s, m, a, n);
    }
  }

  /**
   With the outbox on or off, after any run: every row stored is a copy of a
   produced message. It lies in the inbox of a user of its P2P topic, in the
   inbox of the user of its system feed, among the group messages under its
   sender, or among the mentions of a user whom the message mentions.
   */
  lemma RowsAreAddressed(outboxOn: bool, labels: seq<Label>, c: Collection, r: Row)
    requires r in Run(outboxOn, labels).tables.Rows(c)
    ensures exists m :: && m in Run(outboxOn, labels).upstream
                        && m.sender == r.sender && m.topic == r.topic && m.client == r.client && m.content == r.content
                        && match c
                           case Inboxes =>
                             || (r.topic.P2P? && r.owner in {r.topic.first, r.topic.second})
                             || (r.topic.System? && r.owner == r.topic.user)
                           case Messages => r.topic.Group? && r.owner == r.sender
                           case Mentions => r.topic.Group? && r.owner in m.mentioned
  {
    RunKeepsInv(outboxOn, labels);
    var s := Run(outboxOn, labels);
    assert RowOk(s.allocs, c, r);
    var m := s.allocs[Slot(r.topic, r.seqNo)].msg;
    assert m in s.upstream && WellFormed(m);
  }

  lemma SystemRow(s: State, m: Message, x: Row)
    requires UpstreamOk(s.upstream) && AllocsOk(s) && RowsOk(s.allocs, s.tables)
    requires m in s.upstream && m.topic.System? && x in s.tables.inboxes && x.client == m.client
    ensures x.topic == m.topic && x.sender == m.sender && x.owner == m.topic.user && m.client != Absent
  {
    assert x in s.tables.Rows(Inboxes) && RowOk(s.allocs, Inboxes, x) && WellFormed(m);
    assert SameIdentity(s.allocs[Slot(x.topic, x.seqNo)].msg, m);
  }

  lemma OneSystemRow(s: State, m: Message, x: Row, y: Row)
    requires Stored(s) && m in s.upstream && m.topic.System?
    requires x in s.tables.inboxes && y in s.tables.inboxes && x.client == y.client == m.client
    ensures x == y
  {
    SystemRow(s, m, x);
    SystemRow(s, m, y);
    assert x in s.tables.Rows(Inboxes) && y in s.tables.Rows(Inboxes) && SameClient(x, y);
  }

  /** With the outbox on or off, a system message has no copy, or exactly one in the inbox of the feed's user. */
  lemma SystemFeedHasItOnce(outboxOn: bool, labels: seq<Label>, m: Message)
    requires m in Run(outboxOn, labels).upstream && m.topic.System?
    ensures
      var copies := set r | r in Run(outboxOn, labels).tables.inboxes && r.client == m.client;
      copies == {} || exists r :: copies == {r} && r.owner == m.topic.user && r.topic == m.topic && r.sender == m.sender
  {
    RunKeepsInv(outboxOn, labels);
    var s := Run(outboxOn, labels);
    var copies := set r | r in s.tables.inboxes && r.client == m.client;
    if r :| r in copies {
      SystemRow(s, m, r);
      forall x | x in copies ensures x == r {
        OneSystemRow(s, m, x, r);
      }
      assert copies == {r};
    }
  }

  /** A fresh answer means all rows went in, and then no other delivery has a copy. */
  lemma FreshIsWhole(s: State, hd: Handler)
    requires Stored(s) && HandlerOk(s.allocs, s.tables, hd) && Complete(hd) && VerdictOf(hd.results) == Fresh
    ensures Copies(s, hd.msg) == (set r | r in RowsOf(hd)) && !Known(s.tables, hd)
  {
    assert forall i :: 0 <= i < |hd.results| ==> hd.results[i] in hd.results;
    assert forall i :: 0 <= i < |hd.results| ==> RowsOf(hd)[i] in s.tables.Rows(MainCollection(hd.msg.topic));
    AllRowsAllStored(s.tables, hd);
    forall x | x in Copies(s, hd.msg) ensures x in RowsOf(hd) && x.seqNo == hd.seqNo {
      CopyIsOurs(s, hd.msg, SlotOf(hd), MainCollection(hd.msg.topic), x);
      assert s.allocs[SlotOf(hd)] == Alloc(hd.msg, hd.msgId);
      var i :| 0 <= i < |MainOwners(hd.msg)| && MainOwners(hd.msg)[i] == x.owner;
      assert RowsOf(hd)[i] == RowFor(hd.msg, hd.msgId, hd.seqNo, x.owner);
    }
    assert forall x :: x in s.tables.Rows(MainCollection(hd.msg.topic)) && x.client == hd.msg.client ==> x in Copies(s, hd.msg);
  }

  lemma AnswerIsExact(s: State, hd: Handler)
    requires Stored(s) && HandlerOk(s.allocs, s.tables, hd) && Complete(hd) && VerdictOf(hd.results) != Error
    ensures VerdictOf(hd.results) == Duplicate <==> Known(s.tables, hd)
    ensures VerdictOf(hd.results) == Fresh <==> Copies(s, hd.msg) == (set r | r in RowsOf(hd))
  {
    if VerdictOf(hd.results) == Fresh {
      FreshIsWhole(s, hd);
    } else {
      var x :| x in s.tables.Rows(MainCollection(hd.msg.topic)) && x.client == hd.msg.client && x.seqNo != hd.seqNo;
      assert x in Copies(s, hd.msg) && x !in RowsOf(hd);
    }
  }

  /**
   On every single-message path, once a handler has an answer: it reports a
   duplicate exactly when the client id is stored by another delivery, and a
   fresh save exactly when its own copies are the only ones. Sequence numbers
   never cause a false duplicate.
   */
  lemma VerdictIsExact(outboxOn: bool, labels: seq<Label>, h: int)
    requires
      var s := Run(outboxOn, labels);
      h in s.handlers && Complete(s.handlers[h]) && VerdictOf(s.handlers[h].results) != Error
    ensures
      var s := Run(outboxOn, labels);
      var hd := s.handlers[h];
      && (VerdictOf(hd.results) == Duplicate <==> Known(s.tables, hd))
      && (VerdictOf(hd.results) == Fresh <==> Copies(s, hd.msg) == (set r | r in RowsOf(hd)))
  {
    RunKeepsInv(outboxOn, labels);
    var s := Run(outboxOn, labels);
    assert HandlerOk(s.allocs, s.tables, s.handlers[h]);
    AnswerIsExact(s, s.handlers[h]);
  }

  /**
   A sender-cache entry, whenever and by whatever path it was written, names
   the sender of every row stored at its topic and number in any collection.
   */
  lemma CacheNamesTheSender(outboxOn: bool, labels: seq<Label>, k: Slot, c: Collection, r: Row)
    requires k in Run(outboxOn, labels).senders
    requires r in Run(outboxOn, labels).tables.Rows(c) && Slot(r.topic, r.seqNo) == k
    ensures Run(outboxOn, labels).senders[k] == r.sender
  {
    RunKeepsInv(outboxOn, labels);
    assert RowOk(Run(outboxOn, labels).allocs, c, r);
  }
}
