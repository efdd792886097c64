/**
 The group message batcher: messages wait in a pending list, are inserted in
 one unordered bulk write, and every waiting handler gets one answer; when the
 bulk write is unclear, each message is saved again on its own.
 */
module GroupBatch {
  import opened Domain
  import opened Storage

  /** A waiting group message with the id and number its handler took for it. */
  datatype Item = Item(ticket: nat, msg: Message, msgId: nat, seqNo: nat)

  function RowOfItem(x: Item): Row {
    RowFor(x.msg, x.msgId, x.seqNo, x.msg.sender)
  }

  function RowsOfItems(items: seq<Item>): (rows: seq<Row>)
    ensures |rows| == |items|
    ensures forall i :: 0 <= i < |items| ==> rows[i] == RowOfItem(items[i])
  {
    seq(|items|, i requires 0 <= i < |items| => RowOfItem(items[i]))
  }

  /** How the bulk write is reported: by write errors per document, or not at all. */
  datatype BulkOutcome = BulkOutcome(faults: seq<Fault>, broken: bool)

  /** The answer sent to a handler. */
  datatype Answer = Answer(item: Item, verdict: Verdict)

  /** The client id of the item is in the collection. */
  ghost predicate ClientStored(t: Tables, x: Item) {
    exists r :: r in t.messages && SameClient(r, RowOfItem(x))
  }

  function Items(answers: seq<Answer>): seq<Item> {
    seq(|answers|, i requires 0 <= i < |answers| => answers[i].item)
  }

  /** What an answer promises about the collection before and after the flush. */
  ghost predicate AnswerOk(before: Tables, after: Tables, a: Answer) {
    var r := RowOfItem(a.item);
    && (a.verdict == Fresh ==> r in after.messages && r !in before.messages)
    && (a.verdict == Duplicate ==> Clashes(after, Messages, r))
  }

  /** Every row that is new came from one of the items. */
  ghost predicate OnlyFrom(before: Tables, after: Tables, items: seq<Item>) {
    forall r :: r in after.messages && r !in before.messages ==> r in RowsOfItems(items)
  }

  /** One answer per item, in order, each keeping its promise; rows only added, and only those of the items. */
  ghost predicate Answers(items: seq<Item>, given: seq<Answer>, before: Tables, after: Tables) {
    && |given| == |items|
    && (forall i :: 0 <= i < |items| ==> given[i].item == items[i])
    && (forall a :: a in given ==> AnswerOk(before, after, a))
    && before.messages <= after.messages && OnlyFrom(before, after, items)
  }

  /** The bulk write came back, and every write error it reported was a duplicate key. */
  ghost predicate OnlyDuplicates(before: Tables, items: seq<Item>, bulk: BulkOutcome) {
    !bulk.broken && WriteFailed !in InsertMany(before, Messages, RowsOfItems(items), bulk.faults).1
  }

  lemma SaveStaysWithin(before: Tables, t: Tables, t': Tables, items: seq<Item>, i: nat)
    requires i < |items| && OnlyFrom(before, t, items) && t'.messages <= t.messages + {RowOfItem(items[i])}
    ensures OnlyFrom(before, t', items)
  {
    assert RowsOfItems(items)[i] == RowOfItem(items[i]);
  }

  lemma AnswersCount(earlier: seq<Answer>, given: seq<Answer>, items: seq<Item>)
    requires |given| == |items| && forall i :: 0 <= i < |items| ==> given[i].item == items[i]
    ensures multiset(Items(earlier + given)) == multiset(Items(earlier)) + multiset(items)
  {
    assert Items(earlier + given) == Items(earlier) + items;
  }

  function FaultAt(faults: seq<Fault>, i: nat): Fault {
    if i < |faults| then faults[i] else NoFault
  }

  /** The item's row went in during the flush, and its handler is told that it is a duplicate. */
  ghost predicate Misreported(before: Tables, after: Tables, a: Answer) {
    a.verdict == Duplicate && RowOfItem(a.item) in after.messages && RowOfItem(a.item) !in before.messages
  }

  // ------------------------------------------------------------------ bulk inserts

  lemma {:induction false} InsertManyGrows(t: Tables, docs: seq<Row>, faults: seq<Fault>)
    ensures
      var (t', results) := InsertMany(t, Messages, docs, faults);
      && t.messages <= t'.messages && t'.inboxes == t.inboxes && t'.mentions == t.mentions
      && (forall r :: r in t'.messages && r !in t.messages ==> r in docs)
  {
    if docs != [] {
      InsertManyGrows(t, docs[..|docs| - 1], faults);
    }
  }

  /** An inserted document is new and stays; a rejected one was in conflict. */
  lemma {:induction false} InsertManyResults(t: Tables, docs: seq<Row>, faults: seq<Fault>, i: nat)
    requires i < |docs|
    ensures
      var (t', results) := InsertMany(t, Messages, docs, faults);
      && (results[i] == Inserted ==> docs[i] in t'.messages && docs[i] !in t.messages)
      && (results[i] == DuplicateKey ==> Clashes(t', Messages, docs[i]))
  {
    var n := |docs| - 1;
    var (t1, _) := InsertMany(t, Messages, docs[..n], faults);
    InsertManyGrows(t, docs[..n], faults);
    InsertManyGrows(t, docs, faults);
    if i < n {
      InsertManyResults(t, docs[..n], faults, i);
      var (t', _) := InsertMany(t, Messages, docs, faults);
      if x :| x in t1.messages && (SameSlot(Messages, x, docs[i]) || SameClient(x, docs[i])) {
        assert x in t'.messages;
      }
    } else if docs[n] in t1.messages {
      assert SameSlot(Messages, docs[n], docs[n]);
    }
  }

  lemma {:induction false} NoFailuresNoFaults(t: Tables, docs: seq<Row>, faults: seq<Fault>)
    requires WriteFailed !in InsertMany(t, Messages, docs, faults).1
    ensures InsertMany(t, Messages, docs, faults) == InsertMany(t, Messages, docs, [])
  {
    if docs != [] {
      var (t1, results) := InsertMany(t, Messages, docs[..|docs| - 1], faults);
      var all := InsertMany(t, Messages, docs, faults).1;
      assert all == results + [all[|docs| - 1]];
      assert all[|docs| - 1] in all;
      NoFailuresNoFaults(t, docs[..|docs| - 1], faults);
    }
  }

  // ------------------------------------------------------------------ mixed batches

  predicate Conflict(a: Row, b: Row) {
    SameSlot(Messages, a, b) || SameClient(a, b)
  }

  /** No document is in conflict with a stored row or with another document. */
  ghost predicate ClashFree(t: Tables, docs: seq<Row>) {
    && (forall i :: 0 <= i < |docs| ==> !Clashes(t, Messages, docs[i]))
    && (forall i, j :: 0 <= i < j < |docs| ==> !Conflict(docs[i], docs[j]))
  }

  /** Every document is in conflict with a row that was stored before. */
  ghost predicate AllClash(t: Tables, docs: seq<Row>) {
    forall i :: 0 <= i < |docs| ==> Clashes(t, Messages, docs[i])
  }

  /** Without faults all documents go in exactly if nothing is in conflict. */
  lemma {:induction false} AllInsertedIff(t: Tables, docs: seq<Row>)
    ensures
      var (t', results) := InsertMany(t, Messages, docs, []);
      && WriteFailed !in results
      && (DuplicateKey !in results <==> ClashFree(t, docs))
      && (DuplicateKey !in results ==> forall r :: r in t'.messages <==> r in t.messages || r in docs)
  {
    if docs != [] {
      var front, last := docs[..|docs| - 1], docs[|docs| - 1];
      assert docs == front + [last];
      AllInsertedIff(t, front);
      var (t1, results) := InsertMany(t, Messages, front, []);
      if ClashFree(t, front) {
        assert forall i :: 0 <= i < |front| ==> front[i] in front;
        assert Clashes(t1, Messages, last) <==>
               Clashes(t, Messages, last) || exists i :: 0 <= i < |front| && Conflict(front[i], last);
      }
    }
  }

  /** Without faults none goes in exactly if each is in conflict with a row stored before. */
  lemma {:induction false} AllRejectedIff(t: Tables, docs: seq<Row>)
    ensures
      var (t', results) := InsertMany(t, Messages, docs, []);
      (Inserted !in results <==> AllClash(t, docs)) && (Inserted !in results ==> t' == t)
  {
    if docs != [] {
      var front, last := docs[..|docs| - 1], docs[|docs| - 1];
      assert docs == front + [last];
      AllInsertedIff(t, front);
      AllRejectedIff(t, front);
    }
  }

  /**
   When duplicates are the only write errors, all items get the verdict of the
   whole batch. It fits every one of them exactly if nothing was in conflict or
   everything was in conflict with rows stored before.
   */
  lemma BatchVerdictFitsIff(t: Tables, docs: seq<Row>)
    ensures
      var results := InsertMany(t, Messages, docs, []).1;
      (forall i :: 0 <= i < |docs| ==> (VerdictOf(results) == Duplicate <==> results[i] == DuplicateKey)) <==>
        ClashFree(t, docs) || AllClash(t, docs)
  {
    var results := InsertMany(t, Messages, docs, []).1;
    AllInsertedIff(t, docs);
    AllRejectedIff(t, docs);
    assert forall i :: 0 <= i < |results| ==> results[i] in results;
    if Inserted in results {
      var i :| 0 <= i < |results| && results[i] == Inserted;
    }
  }

  /**
   Exactly when item i is inserted and reported as a duplicate: the bulk write
   put its row in, and either duplicates were its only errors and there was
   one, or the item was saved again on its own and that save did not fail.
   */
  ghost predicate MisreportsAt(before: Tables, items: seq<Item>, bulk: BulkOutcome, singles: seq<Fault>, i: nat)
    requires i < |items|
  {
    var docs := RowsOfItems(items);
    && docs[i] in InsertMany(before, Messages, docs, bulk.faults).0.messages && docs[i] !in before.messages
    && if OnlyDuplicates(before, items, bulk) then !ClashFree(before, docs) else FaultAt(singles, i) == NoFault
  }

  lemma TwoDocuments(t: Tables, docs: seq<Row>, faults: seq<Fault>)
    requires |docs| == 2
    ensures
      var (t1, first) := Insert(t, Messages, docs[0], FaultAt(faults, 0));
      var (t2, second) := Insert(t1, Messages, docs[1], FaultAt(faults, 1));
      InsertMany(t, Messages, docs, faults) == (t2, [first, second])
  {
    assert docs[..1][..0] == [];
    assert InsertMany(t, Messages, docs[..1][..0], faults) == (t, []);
    var (t1, first) := Insert(t, Messages, docs[0], FaultAt(faults, 0));
    assert InsertMany(t, Messages, docs[..1], faults) == (t1, [] + [first]);
    assert [] + [first] == [first];
    assert [first] + [Insert(t1, Messages, docs[1], FaultAt(faults, 1)).1] ==
           [first, Insert(t1, Messages, docs[1], FaultAt(faults, 1)).1];
  }

  /** A redelivery under a new number in one batch with a new message: the new one is reported as a duplicate. */
  lemma MixedBatchMisreports()
    ensures
      var stored := Row(1, 7, Group(5), 1, 3, FromUser("a"), "hi");
      var x := Item(0, Message(1, Group(5), FromUser("a"), "hi", []), 8, 4);
      var y := Item(1, Message(2, Group(5), FromUser("b"), "yo", []), 9, 5);
      MisreportsAt(Tables({}, {stored}, {}), [x, y], BulkOutcome([], false), [], 1)
  {
    var stored := Row(1, 7, Group(5), 1, 3, FromUser("a"), "hi");
    var x := Item(0, Message(1, Group(5), FromUser("a"), "hi", []), 8, 4);
    var y := Item(1, Message(2, Group(5), FromUser("b"), "yo", []), 9, 5);
    var t, docs := Tables({}, {stored}, {}), RowsOfItems([x, y]);
    assert docs == [RowOfItem(x), RowOfItem(y)];
    assert Clashes(t, Messages, docs[0]) by {
      assert SameClient(stored, RowOfItem(x));
    }
    assert "a"[0] != "b"[0];
    TwoDocuments(t, docs, []);
  }

  /** A new message in one batch with one whose write fails: saved again, it meets its own row. */
  lemma FallbackMisreports()
    ensures
      var x := Item(0, Message(1, Group(5), FromUser("a"), "hi", []), 8, 4);
      var y := Item(1, Message(2, Group(5), FromUser("b"), "yo", []), 9, 5);
      MisreportsAt(NO_ROWS, [x, y], BulkOutcome([NoFault, Failed(false)], false), [], 0)
  {
    var x := Item(0, Message(1, Group(5), FromUser("a"), "hi", []), 8, 4);
    var y := Item(1, Message(2, Group(5), FromUser("b"), "yo", []), 9, 5);
    var docs := RowsOfItems([x, y]);
    assert docs == [RowOfItem(x), RowOfItem(y)];
    TwoDocuments(NO_ROWS, docs, [NoFault, Failed(false)]);
  }

  // ------------------------------------------------------------------ the promises

  lemma AnswerStays(before: Tables, t: Tables, t': Tables, a: Answer)
    requires AnswerOk(before, t, a) && t.messages <= t'.messages
    ensures AnswerOk(before, t', a)
  {
    var r := RowOfItem(a.item);
    if x :| x in t.messages && (SameSlot(Messages, x, r) || SameClient(x, r)) {
      assert x in t'.messages;
    }
  }

  /** The verdict of the whole batch, given to each item, promises what it should. */
  lemma BatchAnswers(before: Tables, docs: seq<Row>, faults: seq<Fault>, x: Item, i: nat)
    requires i < |docs| && docs[i] == RowOfItem(x)
    requires VerdictOf(InsertMany(before, Messages, docs, faults).1) != Error
    ensures
      var (t, results) := InsertMany(before, Messages, docs, faults);
      AnswerOk(before, t, Answer(x, VerdictOf(results)))
  {
    var (t, results) := InsertMany(before, Messages, docs, faults);
    InsertManyResults(before, docs, faults, i);
    assert results[i] in results;
    if results[i] == Inserted {
      assert SameSlot(Messages, docs[i], docs[i]);
    }
  }

  /** The sender cache after the senders of these items are written to it, in order. */
  function WithSenders(cache: SenderCache, items: seq<Item>): SenderCache {
    if items == [] then cache
    else
      var x := items[|items| - 1];
      WithSenders(cache, items[..|items| - 1])[Slot(x.msg.topic, x.seqNo) := x.msg.sender]
  }

  function FreshItems(answers: seq<Answer>): seq<Item> {
    if answers == [] then []
    else
      var before, last := FreshItems(answers[..|answers| - 1]), answers[|answers| - 1];
      if last.verdict == Fresh then before + [last.item] else before
  }

  lemma FreshItemsOfNext(answers: seq<Answer>, a: Answer)
    ensures FreshItems(answers + [a]) == if a.verdict == Fresh then FreshItems(answers) + [a.item] else FreshItems(answers)
    ensures forall cache :: WithSenders(cache, FreshItems(answers) + [a.item]) ==
              WithSenders(cache, FreshItems(answers))[Slot(a.item.msg.topic, a.item.seqNo) := a.item.msg.sender]
  {
    assert (answers + [a])[..|answers|] == answers;
    assert (FreshItems(answers) + [a.item])[..|FreshItems(answers)|] == FreshItems(answers);
  }

  lemma {:induction false} SameVerdict(items: seq<Item>, answers: seq<Answer>, v: Verdict)
    requires |answers| == |items|
    requires forall k :: 0 <= k < |items| ==> answers[k] == Answer(items[k], v)
    ensures FreshItems(answers) == if v == Fresh then items else []
  {
    if items != [] {
      SameVerdict(items[..|items| - 1], answers[..|answers| - 1], v);
      assert items == items[..|items| - 1] + [items[|items| - 1]];
    }
  }

  /** No two items have the same row; their numbers differ. */
  ghost predicate DistinctRows(items: seq<Item>) {
    forall i, j :: 0 <= i < j < |items| ==> RowOfItem(items[i]) != RowOfItem(items[j])
  }

  /** What the single saves so far have answered, the bulk write having left `t1` and the saves since then `t`. */
  ghost predicate SavedAgain(items: seq<Item>, singles: seq<Fault>, t1: Tables, t: Tables, given: seq<Answer>) {
    && |given| <= |items| && t1.messages <= t.messages
    && (forall k :: 0 <= k < |given| ==>
          && (given[k].verdict == Duplicate ==> FaultAt(singles, k) == NoFault)
          && (RowOfItem(items[k]) in t1.messages && FaultAt(singles, k) == NoFault ==> given[k].verdict == Duplicate))
    && (forall k :: 0 <= k < |items| && RowOfItem(items[k]) in t.messages && RowOfItem(items[k]) !in t1.messages ==>
          k < |given| && given[k].verdict != Duplicate)
  }

  /** What one save of an item on its own does and answers. */
  ghost predicate SavesOne(t: Tables, t': Tables, x: Item, fault: Fault, v: Verdict) {
    var room := !Clashes(t, Messages, RowOfItem(x));
    && t'.messages == (if room && fault != Failed(false) then t.messages + {RowOfItem(x)} else t.messages)
    && v == if fault.Failed? then Error else if room then Fresh else Duplicate
  }

  lemma NextSavedAgain(items: seq<Item>, singles: seq<Fault>, t1: Tables, t: Tables, t': Tables, given: seq<Answer>,
                       a: Answer)
    requires DistinctRows(items) && SavedAgain(items, singles, t1, t, given) && |given| < |items|
    requires a.item == items[|given|] && SavesOne(t, t', a.item, FaultAt(singles, |given|), a.verdict)
    ensures SavedAgain(items, singles, t1, t', given + [a])
  {
    var i, r := |given|, RowOfItem(a.item);
    assert r in t.messages ==> Clashes(t, Messages, r) by {
      assert SameSlot(Messages, r, r);
    }
    forall k | 0 <= k < |items| && RowOfItem(items[k]) in t'.messages && RowOfItem(items[k]) !in t1.messages
      ensures k < |given + [a]| && (given + [a])[k].verdict != Duplicate
    {
      if RowOfItem(items[k]) !in t.messages {
        assert RowOfItem(items[k]) == r;
        assert k == i;
      }
    }
  }

  lemma SavePromises(before: Tables, t: Tables, t': Tables, x: Item, fault: Fault, v: Verdict)
    requires before.messages <= t.messages && SavesOne(t, t', x, fault, v)
    ensures AnswerOk(before, t', Answer(x, v))
  {
    var r := RowOfItem(x);
    assert r in t.messages ==> Clashes(t, Messages, r) by {
      assert SameSlot(Messages, r, r);
    }
  }

  lemma OneDocument(t: Tables, r: Row, fault: Fault)
    ensures InsertMany(t, Messages, [r], [fault]) == (Insert(t, Messages, r, fault).0, [Insert(t, Messages, r, fault).1])
  {
    assert [r][..0] == [];
    assert InsertMany(t, Messages, [r][..0], [fault]) == (t, []);
    assert [] + [Insert(t, Messages, r, fault).1] == [Insert(t, Messages, r, fault).1];
  }

  /** Everything a flush of these items does and answers. */
  ghost predicate Flushed(items: seq<Item>, bulk: BulkOutcome, singles: seq<Fault>, before: Tables, after: Tables,
                          given: seq<Answer>)
  {
    && Answers(items, given, before, after)
    && (OnlyDuplicates(before, items, bulk) ==> after == InsertMany(before, Messages, RowsOfItems(items), []).0)
    && (DistinctRows(items) ==>
          forall i :: 0 <= i < |items| ==>
            (Misreported(before, after, given[i]) <==> MisreportsAt(before, items, bulk, singles, i)))
  }

  lemma BulkAnswered(items: seq<Item>, bulk: BulkOutcome, singles: seq<Fault>, before: Tables, given: seq<Answer>)
    requires
      var (after, results) := InsertMany(before, Messages, RowsOfItems(items), bulk.faults);
      && OnlyDuplicates(before, items, bulk) && |given| == |items|
      && forall k :: 0 <= k < |items| ==> given[k] == Answer(items[k], VerdictOf(results))
    ensures Flushed(items, bulk, singles, before, InsertMany(before, Messages, RowsOfItems(items), bulk.faults).0, given)
  {
    var docs := RowsOfItems(items);
    NoFailuresNoFaults(before, docs, bulk.faults);
    AllInsertedIff(before, docs);
    InsertManyGrows(before, docs, bulk.faults);
    forall a | a in given
      ensures AnswerOk(before, InsertMany(before, Messages, docs, bulk.faults).0, a)
    {
      var k :| 0 <= k < |given| && given[k] == a;
      BatchAnswers(before, docs, bulk.faults, items[k], k);
    }
  }

  lemma SinglesAnswered(items: seq<Item>, bulk: BulkOutcome, singles: seq<Fault>, before: Tables, after: Tables,
                        given: seq<Answer>)
    requires !OnlyDuplicates(before, items, bulk) && Answers(items, given, before, after)
    requires DistinctRows(items) ==>
               SavedAgain(items, singles, InsertMany(before, Messages, RowsOfItems(items), bulk.faults).0, after, given)
    ensures Flushed(items, bulk, singles, before, after, given)
  {
    assert forall i :: 0 <= i < |items| ==> RowsOfItems(items)[i] == RowOfItem(items[i]);
  }

  /** Slots are never reused, so a clash after the flush means the client id is stored. */
  lemma DuplicateMeansStored(before: Tables, after: Tables, items: seq<Item>, i: nat)
    requires i < |items| && items[i].msg.client != Absent
    requires forall r :: r in after.messages && r !in before.messages ==> r in RowsOfItems(items)
    requires forall r :: r in before.messages ==> !SameSlot(Messages, r, RowOfItem(items[i]))
    requires forall j :: 0 <= j < |items| && SameSlot(Messages, RowOfItem(items[j]), RowOfItem(items[i])) ==> j == i
    requires Clashes(after, Messages, RowOfItem(items[i]))
    ensures ClientStored(after, items[i])
  {
    var r := RowOfItem(items[i]);
    var x :| x in after.messages && (SameSlot(Messages, x, r) || SameClient(x, r));
    if x !in before.messages {
      var j :| 0 <= j < |items| && RowsOfItems(items)[j] == x;
      assert SameSlot(Messages, x, r) ==> j == i;
    }
    assert SameClient(x, r);
  }

  // ------------------------------------------------------------------ the batcher

  class GroupMessageBatcher {
    const batchSize: nat
    var storage: MessageStorage
    var pending: seq<Item>
    var answers: seq<Answer>

    constructor (storage: MessageStorage, batchSize: int)
      ensures this.storage == storage && pending == [] && answers == []
      ensures this.batchSize == (if batchSize <= 0 then 16 else batchSize)
    {
      this.storage := storage;
      this.batchSize := if batchSize <= 0 then 16 else batchSize;
      pending, answers := [], [];
    }

    /** What each handler is owed: its item is pending or answered, once. */
    ghost function Accounted(): multiset<Item>
      reads this
    {
      multiset(pending) + multiset(Items(answers))
    }

    method CacheSenders(items: seq<Item>)
      modifies storage`senders
      ensures storage.senders == WithSenders(old(storage.senders), items)
    {
      assert items[..|items|] == items;
      for i := 0 to |items|
        invariant storage.senders == WithSenders(old(storage.senders), items[..i])
      {
        assert items[..i + 1][..i] == items[..i];
        storage.senders := storage.senders[Slot(items[i].msg.topic, items[i].seqNo) := items[i].msg.sender];
      }
    }

    method SaveOne(x: Item, fault: Fault) returns (v: Verdict)
      requires x.msg.topic.Group?
      modifies storage
      ensures SavesOne(old(storage.tables), storage.tables, x, fault, v)
      ensures storage.senders == if v == Fresh then old(storage.senders)[Slot(x.msg.topic, x.seqNo) := x.msg.sender]
                                 else old(storage.senders)
    {
      OneDocument(storage.tables, RowOfItem(x), fault);
      assert MainRows(x.msg, x.msgId, x.seqNo) == [RowOfItem(x)];
      v := storage.Save(x.msg, x.msgId, x.seqNo, [fault], true);
    }

    /** The fallback: each item saved on its own, after the bulk write. */
    method AnswerOneByOne(items: seq<Item>, singles: seq<Fault>, ghost before: Tables) returns (given: seq<Answer>)
      requires forall y :: y in items ==> y.msg.topic.Group?
      requires before.messages <= storage.tables.messages && OnlyFrom(before, storage.tables, items)
      modifies storage
      ensures Answers(items, given, before, storage.tables)
      ensures DistinctRows(items) ==> SavedAgain(items, singles, old(storage.tables), storage.tables, given)
      ensures storage.senders == WithSenders(old(storage.senders), FreshItems(given))
    {
      given := [];
      for i := 0 to |items|
        invariant before.messages <= storage.tables.messages && OnlyFrom(before, storage.tables, items)
        invariant |given| == i && forall k :: 0 <= k < i ==> given[k].item == items[k]
        invariant forall a :: a in given ==> AnswerOk(before, storage.tables, a)
        invariant DistinctRows(items) ==> SavedAgain(items, singles, old(storage.tables), storage.tables, given)
        invariant storage.senders == WithSenders(old(storage.senders), FreshItems(given))
      {
        ghost var t := storage.tables;
        var v := SaveOne(items[i], FaultAt(singles, i));
        var a := Answer(items[i], v);
        SaveStaysWithin(before, t, storage.tables, items, i);
        SavePromises(before, t, storage.tables, items[i], FaultAt(singles, i), v);
        forall b | b in given ensures AnswerOk(before, storage.tables, b) {
          AnswerStays(before, t, storage.tables, b);
        }
        if DistinctRows(items) {
          NextSavedAgain(items, singles, old(storage.tables), t, storage.tables, given, a);
        }
        FreshItemsOfNext(given, a);
        given := given + [a];
      }
    }

    static method AnswerAll(items: seq<Item>, v: Verdict) returns (given: seq<Answer>)
      ensures |given| == |items| && forall k :: 0 <= k < |items| ==> given[k] == Answer(items[k], v)
    {
      given := [];
      for i := 0 to |items|
        invariant |given| == i && forall k :: 0 <= k < i ==> given[k] == Answer(items[k], v)
      {
        given := given + [Answer(items[i], v)];
      }
    }

    /** Writes the items and answers each; the single saves take over when the bulk write is unclear. */
    method WriteBatch(items: seq<Item>, bulk: BulkOutcome, singles: seq<Fault>) returns (given: seq<Answer>)
      requires forall y :: y in items ==> y.msg.topic.Group?
      modifies storage
      ensures Flushed(items, bulk, singles, old(storage.tables), storage.tables, given)
      ensures storage.senders == WithSenders(old(storage.senders), FreshItems(given))
    {
      ghost var before := storage.tables;
      var docs := RowsOfItems(items);
      var results := storage.InsertDocs(Messages, docs, bulk.faults);
      InsertManyGrows(before, docs, bulk.faults);
      var v := storage.Classify(results);
      if bulk.broken || v == Error {
        given := AnswerOneByOne(items, singles, before);
        SinglesAnswered(items, bulk, singles, before, storage.tables, given);
        return;
      }
      if v == Fresh {
        CacheSenders(items);
      }
      given := AnswerAll(items, v);
      SameVerdict(items, given, v);
      BulkAnswered(items, bulk, singles, before, given);
    }

    /**
     Takes all pending items, writes them, and answers each exactly once, in
     order. Whatever the bulk write and the single saves do, "fresh" goes only
     to items whose row this flush inserted, every answer but an error means
     that the row is stored or in conflict with a stored one, and the senders of
     the fresh items are cached.
     When duplicates are the only write errors, the rows are those of
     inserting the items one by one. An item that was inserted is reported as a
     duplicate exactly as `MisreportsAt` says.
     */
    method Flush(bulk: BulkOutcome, singles: seq<Fault>) returns (given: seq<Answer>)
      requires forall y :: y in pending ==> y.msg.topic.Group?
      modifies this`pending, this`answers, storage
      ensures pending == [] && answers == old(answers) + given
      ensures Flushed(old(pending), bulk, singles, old(storage.tables), storage.tables, given)
      ensures storage.senders == WithSenders(old(storage.senders), FreshItems(given))
    {
      if |pending| == 0 {
        return [];
      }
      var items := pending;
      pending := [];
      given := WriteBatch(items, bulk, singles);
      answers := answers + given;
    }

    /** Add: queue the item, and flush once the batch is full. */
    method Add(x: Item, bulk: BulkOutcome, singles: seq<Fault>) returns (given: seq<Answer>)
      requires x.msg.topic.Group?
      requires forall y :: y in pending ==> y.msg.topic.Group?
      modifies this`pending, this`answers, storage
      ensures Accounted() == old(Accounted()) + multiset{x} && answers == old(answers) + given
      ensures |old(pending)| + 1 < batchSize ==>
                pending == old(pending) + [x] && given == [] && storage.tables == old(storage.tables)
      ensures |old(pending)| + 1 >= batchSize ==>
                pending == [] && Flushed(old(pending) + [x], bulk, singles, old(storage.tables), storage.tables, given)
    {
      pending := pending + [x];
      given := [];
      if |pending| >= batchSize {
        ghost var items := pending;
        given := Flush(bulk, singles);
        AnswersCount(old(answers), given, items);
      }
    }
  }
}
