/**
 Message workers as one labelled step system. Any number of handlers, on any
 number of workers, receive messages any number of times, take a sequence
 number, and write row by row or in one transaction; they crash anywhere, and
 sender lookups and cache expiry interleave with all of it.
 */
module Persistence {
  import opened Domain
  import opened Storage
  import Sequences

  /** Which message a sequence number was taken for, and under which message id. */
  datatype Alloc = Alloc(msg: Message, msgId: nat)

  /** A message handler between taking its number and returning. */
  datatype Handler = Handler(msg: Message, msgId: nat, seqNo: nat, results: seq<WriteResult>)

  /** A sender lookup that has read a row and not yet written the cache. */
  datatype Lookup = Lookup(slot: Slot, sender: UserId)

  datatype State = State(
    seqs: Sequences.State,
    nextId: nat,
    upstream: set<Message>,
    allocs: map<Slot, Alloc>,
    tables: Tables,
    outbox: set<EventId>,
    senders: SenderCache,
    handlers: map<int, Handler>,
    lookups: map<int, Lookup>)

  const INITIAL := State(Sequences.INITIAL, 0, {}, map[], NO_ROWS, {}, map[], map[], map[])

  datatype Label =
    | Produce(msg: Message)
    | Receive(h: int, gen: int, msg: Message, fault: Fault)
    | OtherNumbers(seqLabel: Sequences.Label)
    | WriteRow(h: int, fault: Fault)
    | Transact(h: int, faults: seq<Fault>, outcome: CommitOutcome)
    | CacheSender(h: int)
    | WriteMention(h: int, index: nat, fault: Fault)
    | Return(h: int)
    | FindSender(q: int, collection: Collection, row: Row)
    | Refill(q: int)
    | Expire(slot: Slot)

  // ------------------------------------------------------------------ the steps

  function SlotOf(hd: Handler): Slot {
    Slot(hd.msg.topic, hd.seqNo)
  }

  function RowsOf(hd: Handler): (rows: seq<Row>)
    ensures |rows| == |MainOwners(hd.msg)|
    ensures forall i :: 0 <= i < |rows| ==> rows[i] == RowFor(hd.msg, hd.msgId, hd.seqNo, MainOwners(hd.msg)[i])
  {
    MainRows(hd.msg, hd.msgId, hd.seqNo)
  }

  predicate Complete(hd: Handler) {
    |hd.results| == |MainOwners(hd.msg)|
  }

  /** With the agent outbox on, everything but system messages is saved in a transaction. */
  predicate Transactional(outboxOn: bool, t: Topic) {
    outboxOn && !t.System?
  }

  /** A transaction writes the cache before it commits; a plain save writes it with its verdict. */
  predicate MayCacheSender(outboxOn: bool, hd: Handler) {
    || Transactional(outboxOn, hd.msg.topic)
    || (Complete(hd) && CachesSender(hd.msg.topic, VerdictOf(hd.results)))
  }

  function DoReceive(s: State, h: int, gen: int, m: Message, fault: Fault): State {
    if m !in s.upstream || h in s.handlers then s
    else
      var a := Sequences.Allocate(s.seqs.counters, Sequences.RangesOf(s.seqs, gen), m.topic, fault);
      var s1 := s.(seqs := Sequences.AfterNext(s.seqs, gen, m.topic, fault), nextId := s.nextId + 1);
      if a.number.None? then s1
      else
        s1.(allocs := s.allocs[Slot(m.topic, a.number.value) := Alloc(m, s.nextId)],
            handlers := s.handlers[h := Handler(m, s.nextId, a.number.value, [])])
  }

  function DoWriteRow(s: State, h: int, fault: Fault): State {
    if h !in s.handlers || Complete(s.handlers[h]) || |s.handlers[h].results| > |MainOwners(s.handlers[h].msg)| then s
    else
      var hd := s.handlers[h];
      var (t, result) := Insert(s.tables, MainCollection(hd.msg.topic), RowsOf(hd)[|hd.results|], fault);
      s.(tables := t, handlers := s.handlers[h := hd.(results := hd.results + [result])])
  }

  function DoTransact(s: State, h: int, faults: seq<Fault>, outcome: CommitOutcome): State {
    if h !in s.handlers || s.handlers[h].results != [] then s
    else
      var hd := s.handlers[h];
      var tx := Transaction(s.tables, s.outbox, hd.msg, hd.msgId, hd.seqNo, faults, outcome);
      var result := match tx.verdict
        case Fresh => Inserted
        case Duplicate => DuplicateKey
        case Error => WriteFailed;
      s.(tables := tx.tables, outbox := tx.outbox,
         handlers := s.handlers[h := hd.(results := seq(|MainOwners(hd.msg)|, _ => result))])
  }

  function DoWriteMention(s: State, h: int, index: nat, fault: Fault): State {
    if h !in s.handlers || !s.handlers[h].msg.topic.Group? || index >= |s.handlers[h].msg.mentioned|
       || !Complete(s.handlers[h]) || VerdictOf(s.handlers[h].results) == Error then s
    else
      var hd := s.handlers[h];
      s.(tables := Insert(s.tables, Mentions,
                          RowFor(hd.msg, hd.msgId, hd.seqNo, hd.msg.mentioned[index]), fault).0)
  }

  /** The effect of a label; a label that is not enabled changes nothing. */
  function Step(outboxOn: bool, s: State, l: Label): State {
    match l
    case Produce(m) =>
      if WellFormed(m) && (forall n :: n in s.upstream ==> SameIdentity(m, n))
      then s.(upstream := s.upstream + {m}) else s
    case Receive(h, gen, m, fault) => DoReceive(s, h, gen, m, fault)
    case OtherNumbers(sl) => s.(seqs := Sequences.Step(s.seqs, sl))
    case WriteRow(h, fault) =>
      if h in s.handlers && !Transactional(outboxOn, s.handlers[h].msg.topic) then DoWriteRow(s, h, fault) else s
    case Transact(h, faults, outcome) =>
      if h in s.handlers && Transactional(outboxOn, s.handlers[h].msg.topic)
      then DoTransact(s, h, faults, outcome) else s
    case CacheSender(h) =>
      if h in s.handlers && MayCacheSender(outboxOn, s.handlers[h])
      then s.(senders := s.senders[SlotOf(s.handlers[h]) := s.handlers[h].msg.sender]) else s
    case WriteMention(h, index, fault) => DoWriteMention(s, h, index, fault)
    case Return(h) => s.(handlers := s.handlers - {h})
    case FindSender(q, c, r) =>
      if r in s.tables.Rows(c) then s.(lookups := s.lookups[q := Lookup(Slot(r.topic, r.seqNo), r.sender)]) else s
    case Refill(q) =>
      if q in s.lookups
      then s.(senders := s.senders[s.lookups[q].slot := s.lookups[q].sender], lookups := s.lookups - {q}) else s
    case Expire(slot) => s.(senders := s.senders - {slot})
  }

  function Run(outboxOn: bool, labels: seq<Label>): State {
    if labels == [] then INITIAL
    else Step(outboxOn, Run(outboxOn, labels[..|labels| - 1]), labels[|labels| - 1])
  }

  /**
   In a transaction a handler may cache its sender any time; outside one it does
   so exactly once all its rows were tried without an error, and on a duplicate
   only for a P2P message.
   */
  lemma SaveCachesIff(outboxOn: bool, s: State, h: int)
    requires h in s.handlers
    ensures
      var hd := s.handlers[h];
      Step(outboxOn, s, CacheSender(h)) ==
        if || (outboxOn && !hd.msg.topic.System?)
           || (Complete(hd) && WriteFailed !in hd.results && (DuplicateKey in hd.results ==> hd.msg.topic.P2P?))
        then s.(senders := s.senders[Slot(hd.msg.topic, hd.seqNo) := hd.msg.sender]) else s
  {
  }

  /** A lookup that found a row fills the cache from it once, and an entry may expire any time. */
  lemma LookupFillsCache(outboxOn: bool, s: State, q: int, c: Collection, r: Row)
    requires r in s.tables.Rows(c)
    ensures
      var found := Step(outboxOn, s, FindSender(q, c, r));
      && found == s.(lookups := s.lookups[q := Lookup(Slot(r.topic, r.seqNo), r.sender)])
      && Step(outboxOn, found, Refill(q)) ==
           s.(senders := s.senders[Slot(r.topic, r.seqNo) := r.sender], lookups := s.lookups - {q})
      && Step(outboxOn, s, Expire(Slot(r.topic, r.seqNo))) == s.(senders := s.senders - {Slot(r.topic, r.seqNo)})
  {
    assert s.lookups[q := Lookup(Slot(r.topic, r.seqNo), r.sender)] - {q} == s.lookups - {q};
  }

  // ------------------------------------------------------------------ invariants

  ghost predicate UpstreamOk(upstream: set<Message>) {
    && (forall m :: m in upstream ==> WellFormed(m))
    && (forall m, n :: m in upstream && n in upstream ==> SameIdentity(m, n))
  }

  ghost predicate AllocsOk(s: State) {
    && (forall k :: k in s.allocs ==>
          && Sequences.Issued(s.seqs, k.topic, k.seqNo)
          && s.allocs[k].msg in s.upstream && s.allocs[k].msg.topic == k.topic
          && s.allocs[k].msgId < s.nextId && 1 <= k.seqNo)
    && (forall k, j :: k in s.allocs && j in s.allocs && s.allocs[k].msgId == s.allocs[j].msgId ==> k == j)
  }

  /** Row `r` of collection `c` is a copy of the message its sequence number was taken for. */
  ghost predicate RowOk(allocs: map<Slot, Alloc>, c: Collection, r: Row) {
    var k := Slot(r.topic, r.seqNo);
    && k in allocs
    && r == RowFor(allocs[k].msg, allocs[k].msgId, r.seqNo, r.owner)
    && if c == Mentions then r.topic.Group? && r.owner in allocs[k].msg.mentioned
       else c == MainCollection(r.topic) && r.owner in MainOwners(allocs[k].msg)
  }

  ghost predicate RowsOk(allocs: map<Slot, Alloc>, t: Tables) {
    forall c, r :: r in t.Rows(c) ==> RowOk(allocs, c, r)
  }

  /** The unique indexes hold. */
  ghost predicate IndexOk(t: Tables) {
    forall c, x, y :: x in t.Rows(c) && y in t.Rows(c) && x != y ==> !SameSlot(c, x, y) && !SameClient(x, y)
  }

  /** Every cached sender is the sender of the message that owns the slot. */
  ghost predicate SendersOk(s: State) {
    && (forall k :: k in s.senders ==> k in s.allocs && s.senders[k] == s.allocs[k].msg.sender)
    && (forall q :: q in s.lookups ==>
          s.lookups[q].slot in s.allocs && s.lookups[q].sender == s.allocs[s.lookups[q].slot].msg.sender)
  }

  /** A row of the same client id, written for another delivery. */
  ghost predicate Known(t: Tables, hd: Handler) {
    exists x :: x in t.Rows(MainCollection(hd.msg.topic)) && x.client == hd.msg.client && x.seqNo != hd.seqNo
  }

  /** What the results so far say about the collection, and that nothing is written ahead of them. */
  ghost predicate WritesOk(t: Tables, hd: Handler) {
    var rows := t.Rows(MainCollection(hd.msg.topic));
    && (forall i :: 0 <= i < |hd.results| && i < |RowsOf(hd)| && hd.results[i] == Inserted ==> RowsOf(hd)[i] in rows)
    && (forall i :: 0 <= i < |hd.results| && hd.results[i] == DuplicateKey ==> Known(t, hd))
    && (forall x :: x in rows && x.topic == hd.msg.topic && x.seqNo == hd.seqNo ==>
          forall i :: |hd.results| <= i < |MainOwners(hd.msg)| ==> x.owner != MainOwners(hd.msg)[i])
  }

  ghost predicate HandlerOk(allocs: map<Slot, Alloc>, t: Tables, hd: Handler) {
    && SlotOf(hd) in allocs && allocs[SlotOf(hd)] == Alloc(hd.msg, hd.msgId)
    && |hd.results| <= |MainOwners(hd.msg)|
    && WritesOk(t, hd)
  }

  ghost predicate HandlersOk(s: State) {
    && (forall h :: h in s.handlers ==> HandlerOk(s.allocs, s.tables, s.handlers[h]))
    && (forall g, h :: g in s.handlers && h in s.handlers && SlotOf(s.handlers[g]) == SlotOf(s.handlers[h]) ==> g == h)
  }

  ghost predicate AllStored(t: Tables, a: Alloc, seqNo: nat) {
    forall u :: u in MainOwners(a.msg) ==> RowFor(a.msg, a.msgId, seqNo, u) in t.Rows(MainCollection(a.msg.topic))
  }

  /** The database part of the invariant. */
  ghost predicate Stored(s: State) {
    UpstreamOk(s.upstream) && AllocsOk(s) && RowsOk(s.allocs, s.tables) && IndexOk(s.tables)
  }

  ghost predicate Core(s: State) {
    && Stored(s)
    && SendersOk(s)
    && HandlersOk(s)
  }

  ghost predicate Inv(s: State) {
    Sequences.Inv(s.seqs) && Core(s)
  }

  // ------------------------------------------------------------ writing rows

  /** `t'` is `t` with rows added, all of them in collection `c` and at slot `k`. */
  ghost predicate Adds(t: Tables, t': Tables, c: Collection, k: Slot) {
    forall d, x :: (x in t.Rows(d) ==> x in t'.Rows(d))
                   && (x in t'.Rows(d) && x !in t.Rows(d) ==> d == c && Slot(x.topic, x.seqNo) == k)
  }

  lemma InsertKeepsTables(allocs: map<Slot, Alloc>, t: Tables, c: Collection, r: Row, fault: Fault)
    requires RowsOk(allocs, t) && IndexOk(t) && RowOk(allocs, c, r)
    ensures
      var t' := Insert(t, c, r, fault).0;
      Adds(t, t', c, Slot(r.topic, r.seqNo)) && RowsOk(allocs, t') && IndexOk(t')
  {
    var t' := Insert(t, c, r, fault).0;
    if !Clashes(t, c, r) {
      forall d, x, y | x in t'.Rows(d) && y in t'.Rows(d) && x != y
        ensures !SameSlot(d, x, y) && !SameClient(x, y)
      {
        assert x in t.Rows(d) || (d == c && x == r);
        assert y in t.Rows(d) || (d == c && y == r);
        assert SameSlot(d, x, y) == SameSlot(d, y, x) && SameClient(x, y) == SameClient(y, x);
      }
    }
  }

  lemma OtherWritesSurvive(t: Tables, t': Tables, c: Collection, k: Slot, hd: Handler)
    requires Adds(t, t', c, k) && WritesOk(t, hd)
    requires c == Mentions || k != SlotOf(hd)
    ensures WritesOk(t', hd)
  {
    assert Known(t, hd) ==> Known(t', hd);
  }

  /** The row a handler writes next never meets its own sequence number: only a client id can reject it. */
  lemma OnlyClientIdsCollide(s: State, hd: Handler, t: Tables, x: Row)
    requires UpstreamOk(s.upstream) && AllocsOk(s) && RowsOk(s.allocs, t)
    requires HandlerOk(s.allocs, t, hd) && !Complete(hd)
    requires x in t.Rows(MainCollection(hd.msg.topic))
    ensures !SameSlot(MainCollection(hd.msg.topic), x, RowsOf(hd)[|hd.results|])
    ensures SameClient(x, RowsOf(hd)[|hd.results|]) ==> x.seqNo != hd.seqNo
  {
    var c := MainCollection(hd.msg.topic);
    var r := RowsOf(hd)[|hd.results|];
    assert RowOk(s.allocs, c, x);
    assert SameIdentity(s.allocs[Slot(x.topic, x.seqNo)].msg, hd.msg);
  }

  /** One more result, and at most the row it speaks of. */
  lemma NextResultOk(t: Tables, t': Tables, hd: Handler, result: WriteResult)
    requires WritesOk(t, hd) && !Complete(hd) && |hd.results| < |RowsOf(hd)|
    requires |MainOwners(hd.msg)| == 2 ==> MainOwners(hd.msg)[0] != MainOwners(hd.msg)[1]
    requires
      var c, r := MainCollection(hd.msg.topic), RowsOf(hd)[|hd.results|];
      && (t' == t || t' == t.With(c, t.Rows(c) + {r}))
      && (result == Inserted ==> r in t'.Rows(c))
    requires result == DuplicateKey ==> Known(t, hd)
    ensures WritesOk(t', hd.(results := hd.results + [result]))
  {
    var hd' := hd.(results := hd.results + [result]);
    assert Known(t, hd) ==> Known(t', hd');
    assert forall i :: 0 <= i < |hd.results| ==> hd'.results[i] == hd.results[i];
  }

  lemma RejectionIsKnown(s: State, hd: Handler, t: Tables)
    requires UpstreamOk(s.upstream) && AllocsOk(s) && RowsOk(s.allocs, t)
    requires HandlerOk(s.allocs, t, hd) && !Complete(hd)
    requires Clashes(t, MainCollection(hd.msg.topic), RowsOf(hd)[|hd.results|])
    ensures Known(t, hd)
  {
    var c, r := MainCollection(hd.msg.topic), RowsOf(hd)[|hd.results|];
    var x :| x in t.Rows(c) && (SameSlot(c, x, r) || SameClient(x, r));
    OnlyClientIdsCollide(s, hd, t, x);
  }

  /** One more row of handler `hd` is written. */
  lemma OwnWrite(s: State, hd: Handler, t: Tables, fault: Fault)
    requires UpstreamOk(s.upstream) && AllocsOk(s) && RowsOk(s.allocs, t) && IndexOk(t)
    requires HandlerOk(s.allocs, t, hd) && !Complete(hd)
    ensures
      var r := RowsOf(hd)[|hd.results|];
      var (t', result) := Insert(t, MainCollection(hd.msg.topic), r, fault);
      && Adds(t, t', MainCollection(hd.msg.topic), SlotOf(hd))
      && RowsOk(s.allocs, t') && IndexOk(t')
      && HandlerOk(s.allocs, t', hd.(results := hd.results + [result]))
  {
    var c := MainCollection(hd.msg.topic);
    var r := RowsOf(hd)[|hd.results|];
    var (t', result) := Insert(t, c, r, fault);
    InsertKeepsTables(s.allocs, t, c, r, fault);
    if result == DuplicateKey {
      RejectionIsKnown(s, hd, t);
    }
    NextResultOk(t, t', hd, result);
  }

  /** k row writes of handler h in a row, with nothing in between. */
  function WriteRows(s: State, h: int, faults: seq<Fault>, k: nat): State {
    if k == 0 then s
    else DoWriteRow(WriteRows(s, h, faults, k - 1), h, if k <= |faults| then faults[k - 1] else NoFault)
  }

  /** Undisturbed, the row steps of a handler are one bulk insert: a plain save is a run of this system. */
  lemma {:induction false} RowStepsAreTheBulkInsert(s: State, h: int, faults: seq<Fault>, k: nat)
    requires h in s.handlers && s.handlers[h].results == [] && k <= |RowsOf(s.handlers[h])|
    ensures
      var hd := s.handlers[h];
      var (t, results) := InsertMany(s.tables, MainCollection(hd.msg.topic), RowsOf(hd)[..k], faults);
      WriteRows(s, h, faults, k) == s.(tables := t, handlers := s.handlers[h := hd.(results := results)])
  {
    var hd := s.handlers[h];
    if k == 0 {
      assert s.handlers[h := hd.(results := [])] == s.handlers;
    } else {
      RowStepsAreTheBulkInsert(s, h, faults, k - 1);
      assert RowsOf(hd)[..k][..k - 1] == RowsOf(hd)[..k - 1];
    }
  }

  /** The writes of a whole save, one after the other. */
  lemma {:induction false} SaveInOrder(s: State, hd: Handler, faults: seq<Fault>, k: nat)
    requires Stored(s)
    requires HandlerOk(s.allocs, s.tables, hd) && hd.results == []
    requires k <= |RowsOf(hd)|
    ensures
      var (t, results) := InsertMany(s.tables, MainCollection(hd.msg.topic), RowsOf(hd)[..k], faults);
      && Adds(s.tables, t, MainCollection(hd.msg.topic), SlotOf(hd))
      && RowsOk(s.allocs, t) && IndexOk(t)
      && HandlerOk(s.allocs, t, hd.(results := results))
  {
    var rows := RowsOf(hd);
    if k == 0 {
      assert hd.(results := []) == hd;
    } else {
      SaveInOrder(s, hd, faults, k - 1);
      assert rows[..k][..k - 1] == rows[..k - 1];
      var (t, results) := InsertMany(s.tables, MainCollection(hd.msg.topic), rows[..k - 1], faults);
      var fault := if k <= |faults| then faults[k - 1] else NoFault;
      var hd' := hd.(results := results);
      assert rows[..k][k - 1] == RowsOf(hd')[|hd'.results|];
      OwnWrite(s, hd', t, fault);
    }
  }

  lemma AllRowsAllStored(t: Tables, hd: Handler)
    requires forall i :: 0 <= i < |RowsOf(hd)| ==> RowsOf(hd)[i] in t.Rows(MainCollection(hd.msg.topic))
    ensures AllStored(t, Alloc(hd.msg, hd.msgId), hd.seqNo)
  {
    forall u | u in MainOwners(hd.msg)
      ensures RowFor(hd.msg, hd.msgId, hd.seqNo, u) in t.Rows(MainCollection(hd.msg.topic))
    {
      var i :| 0 <= i < |MainOwners(hd.msg)| && MainOwners(hd.msg)[i] == u;
      assert RowsOf(hd)[i] == RowFor(hd.msg, hd.msgId, hd.seqNo, u);
    }
  }

  lemma WholeSave(s: State, hd: Handler, faults: seq<Fault>)
    requires Stored(s) && HandlerOk(s.allocs, s.tables, hd) && hd.results == []
    ensures
      var (t, results) := InsertMany(s.tables, MainCollection(hd.msg.topic), RowsOf(hd), faults);
      && Adds(s.tables, t, MainCollection(hd.msg.topic), SlotOf(hd))
      && RowsOk(s.allocs, t) && IndexOk(t)
      && (VerdictOf(results) == Duplicate ==> Known(s.tables, hd))
      && (VerdictOf(results) == Fresh ==> AllStored(t, Alloc(hd.msg, hd.msgId), hd.seqNo))
  {
    var c, rows := MainCollection(hd.msg.topic), RowsOf(hd);
    assert rows[..|rows|] == rows;
    SaveInOrder(s, hd, faults, |rows|);
    var (t, results) := InsertMany(s.tables, c, rows, faults);
    if VerdictOf(results) == Duplicate {
      var x :| x in t.Rows(c) && x.client == hd.msg.client && x.seqNo != hd.seqNo;
      assert x in s.tables.Rows(c);
    }
    if VerdictOf(results) == Fresh {
      assert forall i :: 0 <= i < |results| ==> results[i] in results;
      AllRowsAllStored(t, hd);
    }
  }

  /** A transactional save: all rows and the event, or nothing; a duplicate means another delivery was first. */
  lemma TransactionIsAtomic(s: State, hd: Handler, faults: seq<Fault>, outcome: CommitOutcome)
    requires Stored(s)
    requires HandlerOk(s.allocs, s.tables, hd) && hd.results == []
    ensures
      var tx := Transaction(s.tables, s.outbox, hd.msg, hd.msgId, hd.seqNo, faults, outcome);
      && Adds(s.tables, tx.tables, MainCollection(hd.msg.topic), SlotOf(hd))
      && RowsOk(s.allocs, tx.tables) && IndexOk(tx.tables)
      && (tx.verdict == Duplicate ==> Known(s.tables, hd))
      && ((tx.tables == s.tables && tx.outbox == s.outbox && tx.verdict != Fresh)
          || (tx.outbox == s.outbox + {EventOf(hd.msg, hd.msgId)} && tx.verdict != Duplicate
              && AllStored(tx.tables, Alloc(hd.msg, hd.msgId), hd.seqNo)))
  {
    WholeSave(s, hd, faults);
  }

  // ------------------------------------------------------------ every step keeps Inv

  /** Allocated numbers stay issued, whatever the generators do. */
  lemma NumbersKeepCore(s: State, sl: Sequences.Label, nextId: nat)
    requires Core(s) && s.nextId <= nextId
    ensures Core(s.(seqs := Sequences.Step(s.seqs, sl), nextId := nextId))
  {
    forall k | k in s.allocs ensures Sequences.Issued(Sequences.Step(s.seqs, sl), k.topic, k.seqNo) {
      Sequences.IssuedStays(s.seqs, sl, k.topic, k.seqNo);
    }
  }

  /** What a receipt of `m` may rely on: a number it gets was never given to anyone. */
  ghost predicate NumberIsFresh(s: State, gen: int, m: Message, fault: Fault) {
    var number := Sequences.Allocate(s.seqs.counters, Sequences.RangesOf(s.seqs, gen), m.topic, fault).number;
    number.Some? ==>
      && 1 <= number.value && Slot(m.topic, number.value) !in s.allocs
      && Sequences.Issued(Sequences.AfterNext(s.seqs, gen, m.topic, fault), m.topic, number.value)
  }

  lemma ReceivedNumberIsFresh(s: State, gen: int, m: Message, fault: Fault)
    requires Sequences.Inv(s.seqs) && AllocsOk(s)
    ensures NumberIsFresh(s, gen, m, fault)
  {
    if Sequences.Allocate(s.seqs.counters, Sequences.RangesOf(s.seqs, gen), m.topic, fault).number.Some? {
      Sequences.NumberIsFresh(s.seqs, gen, m.topic, fault);
    }
  }

  /** A new handler on a slot nobody was allocated disturbs nothing. */
  lemma FreshSlot(s: State, s': State, h: int, hd: Handler)
    requires Core(s) && SlotOf(hd) !in s.allocs && hd.results == []
    requires s'.allocs == s.allocs[SlotOf(hd) := Alloc(hd.msg, hd.msgId)]
    requires s'.handlers == s.handlers[h := hd]
    requires s'.tables == s.tables && s'.senders == s.senders && s'.lookups == s.lookups
    ensures RowsOk(s'.allocs, s'.tables) && SendersOk(s') && HandlersOk(s')
  {
    forall c, r | r in s.tables.Rows(c) ensures RowOk(s'.allocs, c, r) && Slot(r.topic, r.seqNo) != SlotOf(hd) {
      assert RowOk(s.allocs, c, r);
    }
    forall g | g in s'.handlers ensures HandlerOk(s'.allocs, s'.tables, s'.handlers[g]) {
      if g == h {
        assert WritesOk(s'.tables, hd);
      } else {
        assert HandlerOk(s.allocs, s.tables, s.handlers[g]);
      }
    }
  }

  lemma NewAllocOk(s: State, s': State, k: Slot, a: Alloc)
    requires AllocsOk(s) && k !in s.allocs && s'.allocs == s.allocs[k := a] && s'.upstream == s.upstream
    requires a.msg in s.upstream && a.msg.topic == k.topic && a.msgId == s.nextId < s'.nextId && 1 <= k.seqNo
    requires forall j :: j in s'.allocs ==> Sequences.Issued(s'.seqs, j.topic, j.seqNo)
    ensures AllocsOk(s')
  {
  }

  /** The numbers allocated before and the new one are issued afterwards. */
  lemma StayIssued(s: State, gen: int, m: Message, fault: Fault, n: nat)
    requires AllocsOk(s) && Sequences.Issued(Sequences.AfterNext(s.seqs, gen, m.topic, fault), m.topic, n)
    ensures forall j :: j in s.allocs.Keys + {Slot(m.topic, n)} ==>
              Sequences.Issued(Sequences.AfterNext(s.seqs, gen, m.topic, fault), j.topic, j.seqNo)
  {
    forall j | j in s.allocs ensures Sequences.Issued(Sequences.AfterNext(s.seqs, gen, m.topic, fault), j.topic, j.seqNo) {
      Sequences.IssuedStays(s.seqs, Sequences.Next(gen, m.topic, fault), j.topic, j.seqNo);
    }
  }

  lemma ReceiveKeepsCore(s: State, h: int, gen: int, m: Message, fault: Fault)
    requires Core(s) && NumberIsFresh(s, gen, m, fault)
    ensures Core(DoReceive(s, h, gen, m, fault))
  {
    if m in s.upstream && h !in s.handlers {
      var number := Sequences.Allocate(s.seqs.counters, Sequences.RangesOf(s.seqs, gen), m.topic, fault).number;
      if number.Some? {
        var s', hd := DoReceive(s, h, gen, m, fault), Handler(m, s.nextId, number.value, []);
        FreshSlot(s, s', h, hd);
        StayIssued(s, gen, m, fault, number.value);
        NewAllocOk(s, s', SlotOf(hd), Alloc(m, s.nextId));
      } else {
        NumbersKeepCore(s, Sequences.Next(gen, m.topic, fault), s.nextId + 1);
      }
    }
  }

  /** Writes of handler `h` leave the other handlers' view of the tables intact. */
  lemma WritesKeepHandlers(s: State, h: int, hd: Handler, t: Tables, c: Collection)
    requires HandlersOk(s) && h in s.handlers && SlotOf(hd) == SlotOf(s.handlers[h])
    requires Adds(s.tables, t, c, SlotOf(hd))
    requires HandlerOk(s.allocs, t, hd)
    ensures HandlersOk(s.(tables := t, handlers := s.handlers[h := hd]))
  {
    forall g | g in s.handlers && g != h ensures HandlerOk(s.allocs, t, s.handlers[g]) {
      OtherWritesSurvive(s.tables, t, c, SlotOf(hd), s.handlers[g]);
    }
  }

  lemma WriteRowKeepsCore(s: State, h: int, fault: Fault)
    requires Core(s)
    ensures Core(DoWriteRow(s, h, fault))
  {
    if h in s.handlers && !Complete(s.handlers[h]) {
      var hd := s.handlers[h];
      assert HandlerOk(s.allocs, s.tables, hd);
      OwnWrite(s, hd, s.tables, fault);
      var (t, result) := Insert(s.tables, MainCollection(hd.msg.topic), RowsOf(hd)[|hd.results|], fault);
      WritesKeepHandlers(s, h, hd.(results := hd.results + [result]), t, MainCollection(hd.msg.topic));
    }
  }

  /** The answer of a transaction, given as the result of each of its rows, fits the tables it left. */
  lemma TransactedOk(s: State, hd: Handler, faults: seq<Fault>, outcome: CommitOutcome, result: WriteResult)
    requires Stored(s) && HandlerOk(s.allocs, s.tables, hd) && hd.results == []
    requires
      var tx := Transaction(s.tables, s.outbox, hd.msg, hd.msgId, hd.seqNo, faults, outcome);
      (result == Inserted <==> tx.verdict == Fresh) && (result == DuplicateKey <==> tx.verdict == Duplicate)
    ensures
      var tx := Transaction(s.tables, s.outbox, hd.msg, hd.msgId, hd.seqNo, faults, outcome);
      WritesOk(tx.tables, hd.(results := seq(|MainOwners(hd.msg)|, _ => result)))
  {
    var tx := Transaction(s.tables, s.outbox, hd.msg, hd.msgId, hd.seqNo, faults, outcome);
    TransactionIsAtomic(s, hd, faults, outcome);
    assert Known(s.tables, hd) ==> Known(tx.tables, hd.(results := seq(|MainOwners(hd.msg)|, _ => result)));
  }

  lemma TransactKeepsCore(s: State, h: int, faults: seq<Fault>, outcome: CommitOutcome)
    requires Core(s)
    ensures Core(DoTransact(s, h, faults, outcome))
  {
    if h in s.handlers && s.handlers[h].results == [] {
      var hd := s.handlers[h];
      var s' := DoTransact(s, h, faults, outcome);
      assert HandlerOk(s.allocs, s.tables, hd);
      TransactionIsAtomic(s, hd, faults, outcome);
      TransactedOk(s, hd, faults, outcome, s'.handlers[h].results[0]);
      WritesKeepHandlers(s, h, s'.handlers[h], s'.tables, MainCollection(hd.msg.topic));
    }
  }

  lemma WriteMentionKeepsCore(s: State, h: int, index: nat, fault: Fault)
    requires Core(s)
    ensures Core(DoWriteMention(s, h, index, fault))
  {
    var s' := DoWriteMention(s, h, index, fault);
    if s' != s {
      var hd := s.handlers[h];
      assert HandlerOk(s.allocs, s.tables, hd);
      InsertKeepsTables(s.allocs, s.tables, Mentions,
                        RowFor(hd.msg, hd.msgId, hd.seqNo, hd.msg.mentioned[index]), fault);
      forall g | g in s.handlers ensures HandlerOk(s.allocs, s'.tables, s.handlers[g]) {
        OtherWritesSurvive(s.tables, s'.tables, Mentions, SlotOf(hd), s.handlers[g]);
      }
    }
  }

  lemma CacheSenderKeepsCore(s: State, h: int)
    requires Core(s) && h in s.handlers
    ensures Core(s.(senders := s.senders[SlotOf(s.handlers[h]) := s.handlers[h].msg.sender]))
  {
    assert HandlerOk(s.allocs, s.tables, s.handlers[h]);
  }

  lemma FindSenderKeepsCore(s: State, q: int, c: Collection, r: Row)
    requires Core(s) && r in s.tables.Rows(c)
    ensures Core(s.(lookups := s.lookups[q := Lookup(Slot(r.topic, r.seqNo), r.sender)]))
  {
    assert RowOk(s.allocs, c, r);
  }

  lemma WriteStepKeepsCore(outboxOn: bool, s: State, l: Label)
    requires Core(s)
    requires l.WriteRow? || l.Transact? || l.WriteMention?
    ensures Core(Step(outboxOn, s, l))
  {
    match l
    case WriteRow(h, fault) => WriteRowKeepsCore(s, h, fault);
    case Transact(h, faults, outcome) => TransactKeepsCore(s, h, faults, outcome);
    case WriteMention(h, index, fault) => WriteMentionKeepsCore(s, h, index, fault);
  }

  lemma ProduceOrReturnKeepsCore(outboxOn: bool, s: State, l: Label)
    requires Core(s)
    requires l.Produce? || l.Return?
    ensures Core(Step(outboxOn, s, l))
  {
  }

  lemma CacheStepKeepsCore(outboxOn: bool, s: State, l: Label)
    requires Core(s)
    requires l.CacheSender? || l.FindSender? || l.Refill? || l.Expire?
    ensures Core(Step(outboxOn, s, l))
  {
    match l
    case CacheSender(h) =>
      if h in s.handlers {
        CacheSenderKeepsCore(s, h);
      }
    case FindSender(q, c, r) =>
      if r in s.tables.Rows(c) {
        FindSenderKeepsCore(s, q, c, r);
      }
    case Refill(q) =>
    case Expire(slot) =>
  }

  lemma QuietStepKeepsCore(outboxOn: bool, s: State, l: Label)
    requires Core(s)
    requires l.Produce? || l.OtherNumbers? || l.CacheSender? || l.Return? || l.FindSender? || l.Refill? || l.Expire?
    ensures Core(Step(outboxOn, s, l))
  {
    if l.OtherNumbers? {
      NumbersKeepCore(s, l.seqLabel, s.nextId);
    } else if l.Produce? || l.Return? {
      ProduceOrReturnKeepsCore(outboxOn, s, l);
    } else {
      CacheStepKeepsCore(outboxOn, s, l);
    }
  }

  lemma StepKeepsCore(outboxOn: bool, s: State, l: Label)
    requires Inv(s)
    ensures Core(Step(outboxOn, s, l))
  {
    if l.Receive? {
      ReceivedNumberIsFresh(s, l.gen, l.msg, l.fault);
      ReceiveKeepsCore(s, l.h, l.gen, l.msg, l.fault);
    } else if l.WriteRow? || l.Transact? || l.WriteMention? {
      WriteStepKeepsCore(outboxOn, s, l);
    } else {
      QuietStepKeepsCore(outboxOn, s, l);
    }
  }

  lemma StepKeepsInv(outboxOn: bool, s: State, l: Label)
    requires Inv(s)
    ensures Inv(Step(outboxOn, s, l))
  {
    StepKeepsCore(outboxOn, s, l);
    if l.Receive? {
      Sequences.StepKeepsInv(s.seqs, Sequences.Next(l.gen, l.msg.topic, l.fault));
    } else if l.OtherNumbers? {
      Sequences.StepKeepsInv(s.seqs, l.seqLabel);
    }
  }

  lemma {:induction false} RunKeepsInv(outboxOn: bool, labels: seq<Label>)
    ensures Inv(Run(outboxOn, labels))
  {
    if labels != [] {
      RunKeepsInv(outboxOn, labels[..|labels| - 1]);
      StepKeepsInv(outboxOn, Run(outboxOn, labels[..|labels| - 1]), labels[|labels| - 1]);
    }
  }
}
