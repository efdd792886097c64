/**
 What repeated and interleaved deliveries of one message add up to: which of
 them reports it fresh, and under which number its mentions are stored.
 */
module Deliveries {
  import opened Domain
  import opened Storage
  import opened Outbox
  import opened Persistence
  import G = GroupBatch
  import Sequences

  /** All stored copies of the message carry one sequence number. */
  ghost predicate OneNumber(s: State, m: Message) {
    forall x, y :: x in Copies(s, m) && y in Copies(s, m) ==> x.seqNo == y.seqNo
  }

  predicate Answered(s: State, h: int) {
    h in s.handlers && Complete(s.handlers[h]) && VerdictOf(s.handlers[h].results) != Error
  }

  // ------------------------------------------------------------------ nothing is taken back

  ghost predicate KeepsRows(t: Tables, t': Tables) {
    forall c, r :: r in t.Rows(c) ==> r in t'.Rows(c)
  }

  lemma {:induction false} InsertManyKeepsRows(t: Tables, c: Collection, docs: seq<Row>, faults: seq<Fault>)
    ensures KeepsRows(t, InsertMany(t, c, docs, faults).0)
  {
    if docs != [] {
      InsertManyKeepsRows(t, c, docs[..|docs| - 1], faults);
    }
  }

  lemma StepKeepsRows(outboxOn: bool, s: State, l: Label)
    ensures KeepsRows(s.tables, Step(outboxOn, s, l).tables) && s.upstream <= Step(outboxOn, s, l).upstream
  {
    if l.Transact? && l.h in s.handlers {
      var hd := s.handlers[l.h];
      InsertManyKeepsRows(s.tables, MainCollection(hd.msg.topic), MainRows(hd.msg, hd.msgId, hd.seqNo), l.faults);
    }
  }

  /** Rows, allocations and messages of an earlier state are still there. */
  ghost predicate Later(s: State, s': State) {
    && KeepsRows(s.tables, s'.tables) && s.upstream <= s'.upstream
    && forall k :: k in s.allocs ==> k in s'.allocs && s'.allocs[k] == s.allocs[k]
  }

  lemma {:induction false} RunIsLater(outboxOn: bool, labels: seq<Label>, i: nat)
    requires i <= |labels|
    ensures Later(Run(outboxOn, labels[..i]), Run(outboxOn, labels))
  {
    if i == |labels| {
      assert labels[..i] == labels;
    } else {
      var before, l := labels[..|labels| - 1], labels[|labels| - 1];
      RunIsLater(outboxOn, before, i);
      assert before[..i] == labels[..i];
      RunKeepsInv(outboxOn, before);
      StepKeepsRows(outboxOn, Run(outboxOn, before), l);
      StepGrows(outboxOn, Run(outboxOn, before), l);
    }
  }

  // ------------------------------------------------------------------ fresh deliveries

  /** Every copy that is stored later carries the number of the handler. */
  ghost predicate OnlyNumber(s: State, hd: Handler) {
    forall x :: x in Copies(s, hd.msg) ==> x.seqNo == hd.seqNo
  }

  lemma FreshStays(s: State, s': State, hd: Handler)
    requires Stored(s) && HandlerOk(s.allocs, s.tables, hd) && Complete(hd) && VerdictOf(hd.results) == Fresh
    requires Stored(s') && Later(s, s')
    ensures OnlyNumber(s', hd)
  {
    FreshIsWhole(s, hd);
    assert hd.msg in s.upstream;
    forall i | 0 <= i < |RowsOf(hd)| ensures RowsOf(hd)[i] in s'.tables.Rows(MainCollection(hd.msg.topic)) {
      assert RowsOf(hd)[i] in Copies(s, hd.msg);
    }
    AllRowsAllStored(s'.tables, hd);
    forall x | x in Copies(s', hd.msg) ensures x.seqNo == hd.seqNo {
      CopyIsOurs(s', hd.msg, SlotOf(hd), MainCollection(hd.msg.topic), x);
    }
  }

  lemma DuplicateStays(s: State, s': State, hd: Handler)
    requires Stored(s) && HandlerOk(s.allocs, s.tables, hd) && Complete(hd) && VerdictOf(hd.results) == Duplicate
    requires Later(s, s')
    ensures !OnlyNumber(s', hd)
  {
    AnswerIsExact(s, hd);
    var x :| x in s.tables.Rows(MainCollection(hd.msg.topic)) && x.client == hd.msg.client && x.seqNo != hd.seqNo;
    assert x in Copies(s', hd.msg);
  }

  /**
   On the single-message paths, whenever a delivery was answered in a run: it
   was answered fresh exactly if, at the end of the run, every stored copy of
   the message carries its number.
   */
  lemma FreshIffOnlyNumber(outboxOn: bool, labels: seq<Label>, i: nat, h: int)
    requires i <= |labels| && Answered(Run(outboxOn, labels[..i]), h)
    ensures
      var hd := Run(outboxOn, labels[..i]).handlers[h];
      VerdictOf(hd.results) == Fresh <==> OnlyNumber(Run(outboxOn, labels), hd)
  {
    RunKeepsInv(outboxOn, labels[..i]);
    RunKeepsInv(outboxOn, labels);
    RunIsLater(outboxOn, labels, i);
    var s, s' := Run(outboxOn, labels[..i]), Run(outboxOn, labels);
    var hd := s.handlers[h];
    assert HandlerOk(s.allocs, s.tables, hd);
    if VerdictOf(hd.results) == Fresh {
      FreshStays(s, s', hd);
    } else {
      DuplicateStays(s, s', hd);
    }
  }

  /** Once the copies of a message carry two numbers, no delivery of it was or will be answered fresh. */
  lemma TwoNumbersNobodyFresh(outboxOn: bool, labels: seq<Label>, m: Message, j: nat, i: nat, h: int)
    requires j <= |labels| && !OneNumber(Run(outboxOn, labels[..j]), m)
    requires i <= |labels| && Answered(Run(outboxOn, labels[..i]), h)
    requires
      var n := Run(outboxOn, labels[..i]).handlers[h].msg;
      n.client == m.client && n.topic == m.topic
    ensures VerdictOf(Run(outboxOn, labels[..i]).handlers[h].results) == Duplicate
  {
    FreshIffOnlyNumber(outboxOn, labels, i, h);
    RunIsLater(outboxOn, labels, j);
    var s, s' := Run(outboxOn, labels[..j]), Run(outboxOn, labels);
    assert Copies(s, m) <= Copies(s', m);
    assert Copies(s', Run(outboxOn, labels[..i]).handlers[h].msg) == Copies(s', m);
  }

  lemma Extend(outboxOn: bool, labels: seq<Label>, l: Label) returns (labels': seq<Label>, s: State)
    ensures labels' == labels + [l]
    ensures s == Step(outboxOn, Run(outboxOn, labels), l) == Run(outboxOn, labels')
  {
    labels', s := labels + [l], Step(outboxOn, Run(outboxOn, labels), l);
    assert labels'[..|labels|] == labels;
  }

  /** The first two numbers of a topic, taken from one generator. */
  lemma FirstNumbers(t: Topic)
    ensures
      var s1 := Sequences.AfterNext(Sequences.INITIAL, 0, t, NoFault);
      && Sequences.Allocate(map[], map[], t, NoFault).number == Some(1)
      && Sequences.Allocate(s1.counters, Sequences.RangesOf(s1, 0), t, NoFault).number == Some(2)
  {
    var a := Sequences.Allocate(map[], map[], t, NoFault);
    assert a.counters == map[t := 100] && a.ranges == map[t := Sequences.Range(2, 100)];
  }

  /** Two handlers of one message under the numbers 1 and 2, neither having written yet. */
  lemma TwoReceipts(outboxOn: bool, m: Message) returns (ls: seq<Label>, s: State)
    requires WellFormed(m)
    ensures s == Run(outboxOn, ls) && s.tables == NO_ROWS
    ensures s.handlers == map[1 := Handler(m, 0, 1, []), 2 := Handler(m, 1, 2, [])]
  {
    FirstNumbers(m.topic);
    ls, s := Extend(outboxOn, [], Produce(m));
    assert s == INITIAL.(upstream := {m});
    ls, s := Extend(outboxOn, ls, Receive(1, 0, m, NoFault));
    assert s.handlers == map[1 := Handler(m, 0, 1, [])];
    assert s.seqs == Sequences.AfterNext(Sequences.INITIAL, 0, m.topic, NoFault) && s.nextId == 1;
    ls, s := Extend(outboxOn, ls, Receive(2, 0, m, NoFault));
  }

  /** The next row of handler h, written outside a transaction. */
  lemma NextRow(labels: seq<Label>, h: int, t: Tables, hs: map<int, Handler>, r: Row) returns (ls: seq<Label>)
    requires Run(false, labels).tables == t && Run(false, labels).handlers == hs
    requires h in hs && |hs[h].results| < |RowsOf(hs[h])| && r == RowsOf(hs[h])[|hs[h].results|]
    ensures
      var c := MainCollection(hs[h].msg.topic);
      var result := if Clashes(t, c, r) then DuplicateKey else Inserted;
      && Run(false, ls).tables == (if Clashes(t, c, r) then t else t.With(c, t.Rows(c) + {r}))
      && Run(false, ls).handlers == hs[h := hs[h].(results := hs[h].results + [result])]
  {
    var s;
    ls, s := Extend(false, labels, WriteRow(h, NoFault));
  }

  /** The second delivery meets the first one's copy and stores the other. */
  lemma SecondDelivery(labels: seq<Label>, m: Message, first: Handler, second: Handler) returns (ls: seq<Label>)
    requires m == Message(1, P2P(1, 2), FromUser("a"), "hi", []) && second == Handler(m, 1, 2, [])
    requires Run(false, labels).tables == Tables({RowFor(m, 0, 1, 2)}, {}, {})
    requires Run(false, labels).handlers == map[1 := first, 2 := second]
    ensures Run(false, ls).tables == Tables({RowFor(m, 0, 1, 2), RowFor(m, 1, 2, 1)}, {}, {})
    ensures Run(false, ls).handlers == map[1 := first, 2 := second.(results := [DuplicateKey, Inserted])]
  {
    var mine, t := RowFor(m, 0, 1, 2), Tables({RowFor(m, 0, 1, 2)}, {}, {});
    ls := NextRow(labels, 2, t, map[1 := first, 2 := second], RowFor(m, 1, 2, 2));
    assert SameClient(mine, RowFor(m, 1, 2, 2));
    var half := second.(results := [] + [DuplicateKey]);
    assert Run(false, ls).handlers == map[1 := first, 2 := half];
    ls := NextRow(ls, 2, t, map[1 := first, 2 := half], RowFor(m, 1, 2, 1));
    assert [] + [DuplicateKey] + [Inserted] == [DuplicateKey, Inserted];
  }

  /** The first delivery stores the receiver's copy. */
  lemma FirstDelivery(m: Message) returns (ls: seq<Label>)
    requires m == Message(1, P2P(1, 2), FromUser("a"), "hi", [])
    ensures Run(false, ls).tables == Tables({RowFor(m, 0, 1, 2)}, {}, {})
    ensures Run(false, ls).handlers == map[1 := Handler(m, 0, 1, [Inserted]), 2 := Handler(m, 1, 2, [])]
  {
    var s;
    ls, s := TwoReceipts(false, m);
    ls := NextRow(ls, 1, NO_ROWS, map[1 := Handler(m, 0, 1, []), 2 := Handler(m, 1, 2, [])], RowFor(m, 0, 1, 2));
    assert [] + [Inserted] == [Inserted];
  }

  predicate AnsweredDuplicate(s: State, h: int) {
    Answered(s, h) && VerdictOf(s.handlers[h].results) == Duplicate
  }

  /** Two deliveries crossing: each stores one of the two copies, and both are answered duplicate. */
  lemma CrossedDeliveriesBothDuplicate()
    ensures exists labels: seq<Label> ::
      AnsweredDuplicate(Run(false, labels), 1) && AnsweredDuplicate(Run(false, labels), 2)
      && |Run(false, labels).tables.inboxes| == 2
  {
    var m := Message(1, P2P(1, 2), FromUser("a"), "hi", []);
    var first, second := Handler(m, 0, 1, [Inserted]), Handler(m, 1, 2, []);
    var ls := FirstDelivery(m);
    ls := SecondDelivery(ls, m, first, second);
    var t := Tables({RowFor(m, 0, 1, 2), RowFor(m, 1, 2, 1)}, {}, {});
    second := second.(results := [DuplicateKey, Inserted]);
    ls := NextRow(ls, 1, t, map[1 := first, 2 := second], RowFor(m, 0, 1, 1));
    assert SameClient(RowFor(m, 1, 2, 1), RowFor(m, 0, 1, 1));
    assert Run(false, ls).handlers[1].results == [Inserted] + [DuplicateKey] == [Inserted, DuplicateKey];
  }

  // ------------------------------------------------------------------ mentions

  /** The handler writes a mention that was not stored before. */
  ghost predicate WritesMention(outboxOn: bool, s: State, h: int, index: nat, fault: Fault, r: Row) {
    r in Step(outboxOn, s, WriteMention(h, index, fault)).tables.mentions && r !in s.tables.mentions
  }

  /** Such a mention is a copy of the message for one of the mentioned users, under the handler's number. */
  lemma MentionIsCopy(outboxOn: bool, s: State, h: int, index: nat, fault: Fault, r: Row)
    requires WritesMention(outboxOn, s, h, index, fault, r)
    ensures Answered(s, h) && s.handlers[h].msg.topic.Group? && index < |s.handlers[h].msg.mentioned|
    ensures
      var hd := s.handlers[h];
      r == RowFor(hd.msg, hd.msgId, hd.seqNo, hd.msg.mentioned[index])
  {
  }

  /** A group message has one row per client id. */
  lemma SameMessageSameRow(s: State, hd: Handler, x: Row, y: Row)
    requires Stored(s) && HandlerOk(s.allocs, s.tables, hd) && hd.msg.topic.Group?
    requires x in s.tables.messages && y in s.tables.messages && x.client == y.client == hd.msg.client
    ensures x == y
  {
    assert RowOk(s.allocs, Messages, x) && RowOk(s.allocs, Messages, y);
    assert SameIdentity(s.allocs[Slot(x.topic, x.seqNo)].msg, hd.msg);
    assert SameIdentity(s.allocs[Slot(y.topic, y.seqNo)].msg, hd.msg);
    assert SameClient(x, y);
    assert x in s.tables.Rows(Messages) && y in s.tables.Rows(Messages);
  }

  /** The row this delivery of a group message would store. */
  function OwnRow(hd: Handler): Row {
    RowFor(hd.msg, hd.msgId, hd.seqNo, hd.msg.sender)
  }

  lemma StoredAtIff(s: State, hd: Handler, x: Row)
    requires Stored(s) && HandlerOk(s.allocs, s.tables, hd)
    requires hd.msg.topic.Group? && x in s.tables.messages && x.client == hd.msg.client
    ensures x.seqNo == hd.seqNo <==> OwnRow(hd) in s.tables.messages
  {
    assert RowOk(s.allocs, Messages, x);
    assert SameIdentity(s.allocs[Slot(x.topic, x.seqNo)].msg, hd.msg);
    if OwnRow(hd) in s.tables.messages {
      SameMessageSameRow(s, hd, x, OwnRow(hd));
    }
  }

  /**
   After any run on the single-message paths, a mention is stored under the
   number of its group message exactly if the delivery that writes it stored
   the message.
   */
  lemma MentionAgreesIff(outboxOn: bool, labels: seq<Label>, h: int, index: nat, fault: Fault, x: Row)
    requires x in Run(outboxOn, labels).tables.messages
    ensures
      var s := Run(outboxOn, labels);
      forall r :: WritesMention(outboxOn, s, h, index, fault, r) && r.client == x.client ==>
        h in s.handlers && (x.seqNo == r.seqNo <==> OwnRow(s.handlers[h]) in s.tables.messages)
  {
    RunKeepsInv(outboxOn, labels);
    var s := Run(outboxOn, labels);
    forall r | WritesMention(outboxOn, s, h, index, fault, r) && r.client == x.client
      ensures h in s.handlers && (x.seqNo == r.seqNo <==> OwnRow(s.handlers[h]) in s.tables.messages)
    {
      MentionIsCopy(outboxOn, s, h, index, fault, r);
      assert HandlerOk(s.allocs, s.tables, s.handlers[h]);
      StoredAtIff(s, s.handlers[h], x);
    }
  }

  /** The label by which handler h writes its group message, in a transaction or not. */
  predicate WritesGroupMessage(s: State, h: int, l: Label) {
    && h in s.handlers && s.handlers[h].msg.topic.Group? && s.handlers[h].results == []
    && (l.Transact? || l.WriteRow?) && l.h == h
  }

  predicate KnownClient(t: Tables, m: Message) {
    exists x :: x in t.messages && x.client == m.client
  }

  /** The write of a group message adds at most its own row. */
  lemma AddsOwnRowOnly(outboxOn: bool, s: State, h: int, l: Label, x: Row)
    requires Core(s) && WritesGroupMessage(s, h, l)
    requires x in Step(outboxOn, s, l).tables.messages && x !in s.tables.messages
    ensures x.seqNo == s.handlers[h].seqNo
  {
    var hd := s.handlers[h];
    assert HandlerOk(s.allocs, s.tables, hd);
    if l.Transact? {
      TransactionIsAtomic(s, hd, l.faults, l.outcome);
    } else {
      OwnWrite(s, hd, s.tables, l.fault);
    }
    assert x in Step(outboxOn, s, l).tables.Rows(Messages) && x !in s.tables.Rows(Messages);
  }

  /** Before a handler writes, nothing is stored under its number. */
  lemma UnwrittenIsAbsent(s: State, hd: Handler)
    requires HandlerOk(s.allocs, s.tables, hd) && hd.msg.topic.Group? && hd.results == []
    ensures OwnRow(hd) !in s.tables.messages
  {
    assert MainOwners(hd.msg)[0] == hd.msg.sender;
    assert OwnRow(hd) in s.tables.messages ==> OwnRow(hd) in s.tables.Rows(Messages);
  }

  lemma TwoRowsOneClient(s: State, hd: Handler, x: Row)
    requires Stored(s) && SlotOf(hd) in s.allocs && s.allocs[SlotOf(hd)] == Alloc(hd.msg, hd.msgId) && hd.msg.topic.Group?
    requires x in s.tables.messages && x.client == hd.msg.client && OwnRow(hd) in s.tables.messages
    ensures x == OwnRow(hd)
  {
    assert RowOk(s.allocs, Messages, x);
    assert SameIdentity(s.allocs[Slot(x.topic, x.seqNo)].msg, hd.msg);
    assert SameClient(x, OwnRow(hd)) && x in s.tables.Rows(Messages) && OwnRow(hd) in s.tables.Rows(Messages);
  }

  lemma KnownIsNotStored(s: State, s': State, hd: Handler)
    requires Stored(s) && Stored(s') && KeepsRows(s.tables, s'.tables)
    requires HandlerOk(s.allocs, s.tables, hd) && hd.results == [] && hd.msg.topic.Group? && KnownClient(s.tables, hd.msg)
    requires SlotOf(hd) in s'.allocs && s'.allocs[SlotOf(hd)] == Alloc(hd.msg, hd.msgId)
    ensures OwnRow(hd) !in s'.tables.messages
  {
    var x :| x in s.tables.messages && x.client == hd.msg.client;
    assert x in s.tables.Rows(Messages) && x in s'.tables.Rows(Messages);
    StoredAtIff(s, hd, x);
    UnwrittenIsAbsent(s, hd);
    if OwnRow(hd) in s'.tables.messages {
      TwoRowsOneClient(s', hd, x);
    }
  }

  lemma UnknownIsStored(s': State, hd': Handler)
    requires Stored(s') && HandlerOk(s'.allocs, s'.tables, hd') && Complete(hd') && VerdictOf(hd'.results) != Error
    requires hd'.msg.topic.Group?
    requires forall x :: x in s'.tables.messages && x.client == hd'.msg.client ==> x.seqNo == hd'.seqNo
    ensures OwnRow(hd') in s'.tables.messages
  {
    AnswerIsExact(s', hd');
    assert RowsOf(hd') == [OwnRow(hd')];
    assert OwnRow(hd') in RowsOf(hd') && (OwnRow(hd') in Copies(s', hd'.msg) || Known(s'.tables, hd'));
  }

  /** The write changes tables, outbox and its own handler's results. */
  lemma WriteFrame(outboxOn: bool, s: State, h: int, l: Label)
    requires WritesGroupMessage(s, h, l)
    ensures
      var s' := Step(outboxOn, s, l);
      && h in s'.handlers && s'.handlers[h] == s.handlers[h].(results := s'.handlers[h].results)
      && s'.allocs == s.allocs && KeepsRows(s.tables, s'.tables)
  {
    StepKeepsRows(outboxOn, s, l);
  }

  /** What the write of `hd`, which leaves it as `hd'`, does to the collection. */
  ghost predicate OwnWriteOnly(s: State, s': State, hd: Handler, hd': Handler) {
    && hd.msg.topic.Group? && hd.results == [] && hd' == hd.(results := hd'.results)
    && HandlerOk(s.allocs, s.tables, hd) && HandlerOk(s'.allocs, s'.tables, hd')
    && KeepsRows(s.tables, s'.tables)
    && forall x :: x in s'.tables.messages && x !in s.tables.messages ==> x.seqNo == hd.seqNo
  }

  lemma OwnWriteStoresIff(s: State, s': State, hd: Handler, hd': Handler)
    requires Stored(s) && Stored(s') && OwnWriteOnly(s, s', hd, hd')
    requires Complete(hd') && VerdictOf(hd'.results) != Error
    ensures OwnRow(hd) in s'.tables.messages <==> !KnownClient(s.tables, hd.msg)
  {
    if KnownClient(s.tables, hd.msg) {
      KnownIsNotStored(s, s', hd);
    } else {
      UnknownIsStored(s', hd');
    }
  }

  lemma StoresIff(outboxOn: bool, s: State, h: int, l: Label)
    requires Inv(s) && WritesGroupMessage(s, h, l) && Answered(Step(outboxOn, s, l), h)
    ensures OwnRow(s.handlers[h]) in Step(outboxOn, s, l).tables.messages <==> !KnownClient(s.tables, s.handlers[h].msg)
  {
    var s' := Step(outboxOn, s, l);
    StepKeepsCore(outboxOn, s, l);
    WriteFrame(outboxOn, s, h, l);
    assert HandlerOk(s.allocs, s.tables, s.handlers[h]) && HandlerOk(s'.allocs, s'.tables, s'.handlers[h]);
    forall x | x in s'.tables.messages && x !in s.tables.messages ensures x.seqNo == s.handlers[h].seqNo {
      AddsOwnRowOnly(outboxOn, s, h, l, x);
    }
    OwnWriteStoresIff(s, s', s.handlers[h], s'.handlers[h]);
  }

  /**
   A delivery of a group message that is answered without an error stores it
   exactly if no row of its client id was stored when it wrote.
   */
  lemma DeliveryStoresIff(outboxOn: bool, labels: seq<Label>, h: int, l: Label)
    requires WritesGroupMessage(Run(outboxOn, labels), h, l)
    requires Answered(Step(outboxOn, Run(outboxOn, labels), l), h)
    ensures
      var s := Run(outboxOn, labels);
      OwnRow(s.handlers[h]) in Step(outboxOn, s, l).tables.messages <==> !KnownClient(s.tables, s.handlers[h].msg)
  {
    RunKeepsInv(outboxOn, labels);
    var s := Run(outboxOn, labels);
    StoresIff(outboxOn, s, h, l);
  }

  // ------------------------------------------------------------------ mentions of batched messages

  /** Numbers are never reused: nothing is stored under the item's, and no other item has it. */
  ghost predicate OwnNumber(before: Tables, items: seq<G.Item>, i: nat)
    requires i < |items|
  {
    && (forall r :: r in before.messages ==> !SameSlot(Messages, r, G.RowOfItem(items[i])))
    && (forall j :: 0 <= j < |items| && j != i ==> !SameSlot(Messages, G.RowOfItem(items[j]), G.RowOfItem(items[i])))
  }

  /** Row x is the stored copy of the item's message, this delivery's or another's. */
  predicate CopyOf(x: Row, item: G.Item) {
    x.client == item.msg.client != Absent && x.owner == x.sender == item.msg.sender && x.topic == item.msg.topic
  }

  lemma AtOwnNumber(before: Tables, after: Tables, items: seq<G.Item>, i: nat, x: Row)
    requires i < |items| && OwnNumber(before, items, i) && G.OnlyFrom(before, after, items)
    requires x in after.messages && SameSlot(Messages, x, G.RowOfItem(items[i]))
    ensures x == G.RowOfItem(items[i])
  {
    var j :| 0 <= j < |items| && G.RowsOfItems(items)[j] == x;
  }

  /**
   For a message saved in a batch and not answered with an error: its mentions
   carry the number of its stored row exactly if this flush stored it, that is,
   if it was answered fresh or is one of those misreported as duplicates.
   */
  lemma BatchedMentionAgreesIff(items: seq<G.Item>, bulk: G.BulkOutcome, singles: seq<Fault>, before: Tables, after: Tables,
                                given: seq<G.Answer>, i: nat, x: Row, mention: Row)
    requires G.Flushed(items, bulk, singles, before, after, given) && IndexOk(after)
    requires i < |items| && given[i].verdict != Error && forall j :: 0 <= j < |items| ==> OwnNumber(before, items, j)
    requires x in after.messages && CopyOf(x, items[i])
    requires mention in MentionRows(items[i].msg, items[i].msgId, items[i].seqNo)
    ensures mention.seqNo == x.seqNo <==> G.RowOfItem(items[i]) in after.messages
    ensures mention.seqNo == x.seqNo <==>
              given[i].verdict == Fresh || G.MisreportsAt(before, items, bulk, singles, i)
  {
    var own := G.RowOfItem(items[i]);
    assert G.DistinctRows(items) by {
      forall j, k | 0 <= j < k < |items| ensures G.RowOfItem(items[j]) != G.RowOfItem(items[k]) {
        assert OwnNumber(before, items, k);
      }
    }
    assert OwnNumber(before, items, i) && given[i] in given;
    assert own !in before.messages by {
      assert SameSlot(Messages, own, own);
    }
    assert G.Misreported(before, after, given[i]) <==> G.MisreportsAt(before, items, bulk, singles, i);
    assert mention.seqNo == items[i].seqNo;
    if own in after.messages {
      assert SameClient(x, own) && x in after.Rows(Messages) && own in after.Rows(Messages);
    }
    if x.seqNo == items[i].seqNo {
      AtOwnNumber(before, after, items, i, x);
    }
  }

  /** After the earlier items were tried, each one's client id is stored. */
  lemma EarlierIsMet(before: Tables, items: seq<G.Item>, front: seq<G.Item>, j: nat, t1: Tables)
    requires items != [] && front == items[..|items| - 1] && j < |front| && front[j].msg.client != Absent
    requires forall k :: 0 <= k < |items| ==> OwnNumber(before, items, k)
    requires t1 == InsertMany(before, Messages, G.RowsOfItems(front), []).0
    ensures exists r :: r in t1.messages && SameClient(r, G.RowOfItem(front[j]))
  {
    var docs, own := G.RowsOfItems(front), G.RowOfItem(front[j]);
    var results := InsertMany(before, Messages, docs, []).1;
    G.AllInsertedIff(before, docs);
    G.InsertManyResults(before, docs, [], j);
    G.InsertManyGrows(before, docs, []);
    assert results[j] in results && OwnNumber(before, items, j) && SameClient(own, own);
    if results[j] == DuplicateKey {
      var r :| r in t1.messages && (SameSlot(Messages, r, own) || SameClient(r, own));
      if r !in before.messages {
        var k :| 0 <= k < |docs| && docs[k] == r;
        assert r == G.RowOfItem(items[k]);
      }
    }
  }

  /** What meets the last row in the tables the earlier ones left has its client id, and every earlier client id is met. */
  lemma OnlyClientsClash(before: Tables, items: seq<G.Item>, front: seq<G.Item>, own: Row, t1: Tables)
    requires items != [] && front == items[..|items| - 1] && own == G.RowOfItem(items[|items| - 1])
    requires forall j :: 0 <= j < |items| ==> OwnNumber(before, items, j)
    requires t1 == InsertMany(before, Messages, G.RowsOfItems(front), []).0
    ensures own !in t1.messages
    ensures Clashes(t1, Messages, own) <==>
              || (exists r :: r in before.messages && SameClient(r, own))
              || (exists j :: 0 <= j < |front| && SameClient(G.RowOfItem(front[j]), own))
  {
    var n, docs := |items| - 1, G.RowsOfItems(front);
    assert OwnNumber(before, items, n) && SameSlot(Messages, own, own);
    G.InsertManyGrows(before, docs, []);
    forall r | r in t1.messages
      ensures !SameSlot(Messages, r, own)
      ensures r in before.messages || exists j :: 0 <= j < |front| && r == G.RowOfItem(front[j])
    {
      if r !in before.messages {
        var j :| 0 <= j < |docs| && docs[j] == r;
        assert r == G.RowOfItem(items[j]);
      }
    }
    forall j | 0 <= j < |front| && SameClient(G.RowOfItem(front[j]), own)
      ensures Clashes(t1, Messages, own)
    {
      EarlierIsMet(before, items, front, j, t1);
      var r :| r in t1.messages && SameClient(r, G.RowOfItem(front[j]));
      assert SameClient(r, own);
    }
  }

  /** In a batch without faults the flush stores exactly the first delivery of each client id not stored before. */
  lemma {:induction false} FirstOfClientGoesIn(before: Tables, items: seq<G.Item>, i: nat)
    requires i < |items| && forall j :: 0 <= j < |items| ==> OwnNumber(before, items, j)
    ensures G.RowOfItem(items[i]) in InsertMany(before, Messages, G.RowsOfItems(items), []).0.messages <==>
              && (forall r :: r in before.messages ==> !SameClient(r, G.RowOfItem(items[i])))
              && (forall j :: 0 <= j < i ==> !SameClient(G.RowOfItem(items[j]), G.RowOfItem(items[i])))
    decreases |items|
  {
    var n := |items| - 1;
    var front, own := items[..n], G.RowOfItem(items[i]);
    assert G.RowsOfItems(items)[..n] == G.RowsOfItems(front);
    forall j | 0 <= j < n ensures OwnNumber(before, front, j) {
      assert OwnNumber(before, items, j);
    }
    var t1 := InsertMany(before, Messages, G.RowsOfItems(front), []).0;
    assert OwnNumber(before, items, i) && SameSlot(Messages, own, own);
    if i < n {
      FirstOfClientGoesIn(before, front, i);
      assert G.RowOfItem(items[n]) != own;
    } else {
      G.InsertManyGrows(before, G.RowsOfItems(front), []);
      OnlyClientsClash(before, items, front, own, t1);
    }
  }

  // ------------------------------------------------------------------ split mentions

  lemma SameWithoutFaults(t: Tables, r: Row)
    ensures InsertMany(t, Messages, [r], []) == InsertMany(t, Messages, [r], [NoFault])
  {
    assert [r][..0] == [];
    assert InsertMany(t, Messages, [r][..0], []) == InsertMany(t, Messages, [r][..0], [NoFault]) == (t, []);
  }

  /** The transaction of handler h on a group message. */
  lemma NextCommit(labels: seq<Label>, h: int, t: Tables, hs: map<int, Handler>) returns (ls: seq<Label>)
    requires Run(true, labels).tables == t && Run(true, labels).handlers == hs
    requires h in hs && hs[h].results == [] && hs[h].msg.topic.Group?
    ensures
      var r := OwnRow(hs[h]);
      && Run(true, ls).tables == (if Clashes(t, Messages, r) then t else t.(messages := t.messages + {r}))
      && Run(true, ls).handlers ==
           hs[h := hs[h].(results := [if Clashes(t, Messages, r) then DuplicateKey else Inserted])]
  {
    var s;
    var hd, r := hs[h], OwnRow(hs[h]);
    assert MainRows(hd.msg, hd.msgId, hd.seqNo) == [r];
    G.OneDocument(t, r, NoFault);
    SameWithoutFaults(t, r);
    ls, s := Extend(true, labels, Transact(h, [], Committed));
    assert forall result: WriteResult :: seq(1, _ => result) == [result];
  }

  /** Mention `index` of handler h, the mention collection being empty. */
  lemma FirstMention(labels: seq<Label>, h: int, index: nat, t: Tables, hs: map<int, Handler>) returns (ls: seq<Label>)
    requires Run(true, labels).tables == t && Run(true, labels).handlers == hs && t.mentions == {}
    requires h in hs && hs[h].msg.topic.Group? && index < |hs[h].msg.mentioned|
    requires Complete(hs[h]) && VerdictOf(hs[h].results) != Error
    ensures Run(true, ls).tables ==
              t.(mentions := {RowFor(hs[h].msg, hs[h].msgId, hs[h].seqNo, hs[h].msg.mentioned[index])})
  {
    var s;
    ls, s := Extend(true, labels, WriteMention(h, index, NoFault));
  }

  /** A worker that stops between message and mention: the redelivery stores the mention under another number. */
  lemma CrashSplitsMention()
    ensures exists labels: seq<Label> ::
      var s := Run(true, labels);
      exists x, r :: x in s.tables.messages && r in s.tables.mentions && x.client == r.client && x.seqNo != r.seqNo
  {
    var m := Message(1, Group(5), FromUser("a"), "hi", [7]);
    var ls, s := TwoReceipts(true, m);
    var first, second := Handler(m, 0, 1, []), Handler(m, 1, 2, []);
    var x, r := OwnRow(first), RowFor(m, 1, 2, 7);
    ls := NextCommit(ls, 1, NO_ROWS, map[1 := first, 2 := second]);
    ls, s := Extend(true, ls, Return(1));
    assert s.tables == Tables({}, {x}, {}) && s.handlers == map[2 := second];
    ls := NextCommit(ls, 2, Tables({}, {x}, {}), map[2 := second]);
    assert SameClient(x, OwnRow(second));
    ls := FirstMention(ls, 2, 0, Tables({}, {x}, {}), map[2 := second.(results := [DuplicateKey])]);
    assert r in Run(true, ls).tables.mentions && x in Run(true, ls).tables.messages;
  }
}
