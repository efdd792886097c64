/**
 The MongoDB side of message storage: three collections under unique indexes,
 the agent outbox, and the write operations of the message worker on them.
 */
module Storage {
  import opened Domain

  /**
   A stored copy of a message. `owner` is the party its client-id index is
   scoped to: the inbox user, the mentioned user, or the sender of a group
   message.
   */
  datatype Row = Row(
    owner: UserId, msgId: nat, topic: Topic, sender: UserId, seqNo: nat, client: ClientId, content: string)

  datatype Collection = Inboxes | Messages | Mentions

  datatype Tables = Tables(inboxes: set<Row>, messages: set<Row>, mentions: set<Row>) {
    function Rows(c: Collection): set<Row> {
      match c
      case Inboxes => inboxes
      case Messages => messages
      case Mentions => mentions
    }

    function With(c: Collection, rows: set<Row>): Tables {
      match c
      case Inboxes => this.(inboxes := rows)
      case Messages => this.(messages := rows)
      case Mentions => this.(mentions := rows)
    }
  }

  const NO_ROWS := Tables({}, {}, {})

  /** Collision in the sequence-number index of a collection. */
  predicate SameSlot(c: Collection, a: Row, b: Row) {
    a.topic == b.topic && a.seqNo == b.seqNo && (c == Messages || a.owner == b.owner)
  }

  /** Collision in the client-id index, which skips rows without a client id. */
  predicate SameClient(a: Row, b: Row) {
    a.client != Absent && a.client == b.client && a.owner == b.owner
  }

  predicate Clashes(t: Tables, c: Collection, r: Row) {
    exists x :: x in t.Rows(c) && (SameSlot(c, x, r) || SameClient(x, r))
  }

  datatype WriteResult = Inserted | DuplicateKey | WriteFailed

  /** One insert under the unique indexes. */
  function Insert(t: Tables, c: Collection, r: Row, fault: Fault): (Tables, WriteResult) {
    var room := !Clashes(t, c, r);
    var t' := if room && fault != Failed(false) then t.With(c, t.Rows(c) + {r}) else t;
    (t', if fault.Failed? then WriteFailed else if room then Inserted else DuplicateKey)
  }

  /** Where a message is stored, and for whom; the order is the order of the writes. */
  function MainCollection(t: Topic): Collection {
    if t.Group? then Messages else Inboxes
  }

  function Receiver(m: Message): UserId
    requires m.topic.P2P?
  {
    if m.sender == m.topic.first then m.topic.second else m.topic.first
  }

  function MainOwners(m: Message): (owners: seq<UserId>)
    ensures 1 <= |owners| <= 2
    ensures WellFormed(m) && |owners| == 2 ==> owners[0] != owners[1]
  {
    match m.topic
    case P2P(_, _) => [Receiver(m), m.sender]
    case Group(_) => [m.sender]
    case System(u) => [u]
  }

  function RowFor(m: Message, msgId: nat, seqNo: nat, owner: UserId): Row {
    Row(owner, msgId, m.topic, m.sender, seqNo, m.client, m.content)
  }

  /** The documents of one save, in write order. */
  function MainRows(m: Message, msgId: nat, seqNo: nat): (rows: seq<Row>)
    ensures |rows| == |MainOwners(m)|
    ensures forall i :: 0 <= i < |rows| ==> rows[i] == RowFor(m, msgId, seqNo, MainOwners(m)[i])
  {
    var owners := MainOwners(m);
    seq(|owners|, i requires 0 <= i < |owners| => RowFor(m, msgId, seqNo, owners[i]))
  }

  /** InsertMany with `ordered: false`: every document is tried. Missing fault entries mean no fault. */
  function InsertMany(t: Tables, c: Collection, docs: seq<Row>, faults: seq<Fault>): (r: (Tables, seq<WriteResult>))
    ensures |r.1| == |docs|
    decreases |docs|
  {
    if docs == [] then (t, [])
    else
      var (t1, results) := InsertMany(t, c, docs[..|docs| - 1], faults);
      var fault := if |docs| <= |faults| then faults[|docs| - 1] else NoFault;
      var (t2, last) := Insert(t1, c, docs[|docs| - 1], fault);
      (t2, results + [last])
  }

  /** A bulk insert only adds its documents; an inserted one is new and there afterwards, a rejected one meets a row. */
  lemma {:induction false} InsertManyAdds(t: Tables, c: Collection, docs: seq<Row>, faults: seq<Fault>)
    ensures
      var (t', results) := InsertMany(t, c, docs, faults);
      && t' == t.With(c, t'.Rows(c)) && t.Rows(c) <= t'.Rows(c)
      && (forall r :: r in t'.Rows(c) && r !in t.Rows(c) ==> r in docs)
      && (forall i :: 0 <= i < |docs| && results[i] == Inserted ==> docs[i] in t'.Rows(c) && docs[i] !in t.Rows(c))
      && (forall i :: 0 <= i < |docs| && results[i] == DuplicateKey ==> Clashes(t', c, docs[i]))
    decreases |docs|
  {
    if docs != [] {
      InsertManyAdds(t, c, docs[..|docs| - 1], faults);
    }
  }

  /** How a save is reported to its caller. */
  datatype Verdict = Fresh | Duplicate | Error

  function VerdictOf(results: seq<WriteResult>): Verdict {
    if WriteFailed in results then Error
    else if DuplicateKey in results then Duplicate
    else Fresh
  }

  /**
   What a save does to the tables, stated on the topic: nothing but copies of
   the message are added, for both users of a P2P topic, for the user of a
   system feed, or one under the sender for a group; if all went in they are
   there now and were not before.
   */
  ghost predicate SavedFor(t: Tables, t': Tables, m: Message, msgId: nat, seqNo: nat, all: bool) {
    match m.topic
    case P2P(a, b) =>
      var copies := {Row(a, msgId, m.topic, m.sender, seqNo, m.client, m.content),
                     Row(b, msgId, m.topic, m.sender, seqNo, m.client, m.content)};
      && t' == t.(inboxes := t'.inboxes) && t.inboxes <= t'.inboxes <= t.inboxes + copies
      && (all ==> copies <= t'.inboxes && copies !! t.inboxes)
    case Group(_) =>
      var copies := {Row(m.sender, msgId, m.topic, m.sender, seqNo, m.client, m.content)};
      && t' == t.(messages := t'.messages) && t.messages <= t'.messages <= t.messages + copies
      && (all ==> copies <= t'.messages && copies !! t.messages)
    case System(u) =>
      var copies := {Row(u, msgId, m.topic, m.sender, seqNo, m.client, m.content)};
      && t' == t.(inboxes := t'.inboxes) && t.inboxes <= t'.inboxes <= t.inboxes + copies
      && (all ==> copies <= t'.inboxes && copies !! t.inboxes)
  }

  /** The sender of a P2P message is one of the two users of its topic. */
  predicate SenderTakesPart(m: Message) {
    m.topic.P2P? ==> m.sender in {m.topic.first, m.topic.second}
  }

  lemma BulkInsertSaves(t: Tables, m: Message, msgId: nat, seqNo: nat, faults: seq<Fault>)
    requires SenderTakesPart(m)
    ensures
      var (t', results) := InsertMany(t, MainCollection(m.topic), MainRows(m, msgId, seqNo), faults);
      SavedFor(t, t', m, msgId, seqNo, VerdictOf(results) == Fresh)
  {
    var rows := MainRows(m, msgId, seqNo);
    var (t', results) := InsertMany(t, MainCollection(m.topic), rows, faults);
    InsertManyAdds(t, MainCollection(m.topic), rows, faults);
    assert forall i :: 0 <= i < |results| ==> results[i] in results;
    assert forall r :: r in rows ==> r == rows[0] || r == rows[|rows| - 1];
    assert rows[0] in rows && rows[|rows| - 1] in rows;
  }

  datatype Slot = Slot(topic: Topic, seqNo: nat)
  type SenderCache = map<Slot, UserId>

  /** How a transaction ends once all its writes succeeded. */
  datatype CommitOutcome = Committed | Aborted | CommittedReplyLost

  /** A P2P save refreshes the sender cache on duplicates too, the others only when fresh. */
  predicate CachesSender(t: Topic, v: Verdict) {
    v == Fresh || (v == Duplicate && t.P2P?)
  }

  function MentionRows(m: Message, msgId: nat, seqNo: nat): seq<Row> {
    seq(|m.mentioned|, i requires 0 <= i < |m.mentioned| => RowFor(m, msgId, seqNo, m.mentioned[i]))
  }

  /** User `u` has a mention under this number or of this client id. */
  ghost predicate MentionStored(t: Tables, m: Message, seqNo: nat, u: UserId) {
    exists r :: && r in t.mentions && r.owner == u
                && ((r.topic == m.topic && r.seqNo == seqNo) || (r.client == m.client && m.client != Absent))
  }

  lemma MentionsGoIn(t: Tables, m: Message, msgId: nat, seqNo: nat, faults: seq<Fault>)
    ensures
      var (t', results) := InsertMany(t, Mentions, MentionRows(m, msgId, seqNo), faults);
      && t' == t.(mentions := t'.mentions) && t.mentions <= t'.mentions
      && (forall r :: r in t'.mentions && r !in t.mentions ==>
            r.owner in m.mentioned && r == Row(r.owner, msgId, m.topic, m.sender, seqNo, m.client, m.content))
      && (VerdictOf(results) != Error ==>
            forall u :: u in m.mentioned ==> MentionStored(t', m, seqNo, u))
  {
    var docs := MentionRows(m, msgId, seqNo);
    var (t', results) := InsertMany(t, Mentions, docs, faults);
    InsertManyAdds(t, Mentions, docs, faults);
    if VerdictOf(results) != Error {
      forall u | u in m.mentioned
        ensures MentionStored(t', m, seqNo, u)
      {
        var i :| 0 <= i < |m.mentioned| && m.mentioned[i] == u;
        assert docs[i].owner == u && results[i] in results;
        if results[i] == Inserted {
          assert docs[i] in t'.mentions;
        } else {
          var r :| r in t'.mentions && (SameSlot(Mentions, r, docs[i]) || SameClient(r, docs[i]));
          assert r.owner == u;
        }
      }
    }
  }

  datatype TransactionResult = TransactionResult(tables: Tables, outbox: set<EventId>, verdict: Verdict)

  /** The effect of one transactional save on the database. */
  function Transaction(t: Tables, outbox: set<EventId>, m: Message, msgId: nat, seqNo: nat,
                       faults: seq<Fault>, outcome: CommitOutcome): TransactionResult
  {
    var (t', results) := InsertMany(t, MainCollection(m.topic), MainRows(m, msgId, seqNo), faults);
    var v := VerdictOf(results);
    if v != Fresh || outcome == Aborted then
      TransactionResult(t, outbox, if v == Fresh then Error else v)
    else
      TransactionResult(t', outbox + {EventOf(m, msgId)}, if outcome == Committed then Fresh else Error)
  }

  // -------------------------------------------------------------- the storage

  class MessageStorage {
    var tables: Tables
    var outbox: set<EventId>
    var senders: SenderCache

    constructor ()
      ensures tables == NO_ROWS && outbox == {} && senders == map[]
    {
      tables, outbox, senders := NO_ROWS, {}, map[];
    }

    method InsertDocs(c: Collection, docs: seq<Row>, faults: seq<Fault>) returns (results: seq<WriteResult>)
      modifies this`tables
      ensures (tables, results) == InsertMany(old(tables), c, docs, faults)
    {
      results := [];
      for i := 0 to |docs|
        invariant (tables, results) == InsertMany(old(tables), c, docs[..i], faults)
      {
        var fault := if i < |faults| then faults[i] else NoFault;
        var (t, last) := Insert(tables, c, docs[i], fault);
        assert docs[..i + 1][..i] == docs[..i];
        tables, results := t, results + [last];
      }
      assert docs[..|docs|] == docs;
    }

    /** The scan over the write errors of a bulk insert. */
    method Classify(results: seq<WriteResult>) returns (v: Verdict)
      ensures v == VerdictOf(results)
    {
      var errors, allDuplicate := 0, true;
      for i := 0 to |results|
        invariant 0 <= errors <= i
        invariant errors == 0 <==> forall k :: 0 <= k < i ==> results[k] == Inserted
        invariant allDuplicate <==> WriteFailed !in results[..i]
        invariant errors > 0 && allDuplicate ==> DuplicateKey in results[..i]
      {
        if results[i] != Inserted {
          errors := errors + 1;
          if results[i] != DuplicateKey {
            allDuplicate := false;
          }
        }
      }
      assert results[..|results|] == results;
      v := if errors == 0 then Fresh else if allDuplicate then Duplicate else Error;
    }

    /** SaveP2PMessage, SaveGroupMessage and SaveSystemMessage outside a transaction. */
    method Save(m: Message, msgId: nat, seqNo: nat, faults: seq<Fault>, cacheUp: bool)
      returns (v: Verdict)
      modifies this`tables, this`senders
      ensures
        var (t, results) := InsertMany(old(tables), MainCollection(m.topic), MainRows(m, msgId, seqNo), faults);
        tables == t && v == VerdictOf(results)
      ensures SenderTakesPart(m) ==> SavedFor(old(tables), tables, m, msgId, seqNo, v == Fresh)
      ensures senders == if cacheUp && CachesSender(m.topic, v)
                         then old(senders)[Slot(m.topic, seqNo) := m.sender] else old(senders)
    {
      if SenderTakesPart(m) {
        BulkInsertSaves(tables, m, msgId, seqNo, faults);
      }
      var results := InsertDocs(MainCollection(m.topic), MainRows(m, msgId, seqNo), faults);
      v := Classify(results);
      if cacheUp && (v == Fresh || (v == Duplicate && m.topic.P2P?)) {
        senders := senders[Slot(m.topic, seqNo) := m.sender];
      }
    }

    /**
     SaveP2PMessageWithAgentEvent and SaveGroupMessageWithAgentEvent: message
     rows and outbox row together or not at all. The sender cache lives in
     Redis and is not rolled back.
     */
    method SaveWithAgentEvent(m: Message, msgId: nat, seqNo: nat, faults: seq<Fault>, cacheUp: bool,
                              outcome: CommitOutcome)
      returns (v: Verdict)
      modifies this
      ensures
        var save := Transaction(old(tables), old(outbox), m, msgId, seqNo, faults, outcome);
        tables == save.tables && outbox == save.outbox && v == save.verdict
      ensures SenderTakesPart(m) ==>
                || (tables == old(tables) && outbox == old(outbox) && v != Fresh)
                || (SavedFor(old(tables), tables, m, msgId, seqNo, true)
                    && outbox == old(outbox) + {EventId(msgId, m.topic, m.sender)} && v != Duplicate)
      ensures
        var results := InsertMany(old(tables), MainCollection(m.topic), MainRows(m, msgId, seqNo), faults).1;
        senders == if cacheUp && CachesSender(m.topic, VerdictOf(results))
                   then old(senders)[Slot(m.topic, seqNo) := m.sender] else old(senders)
    {
      var before := tables;
      v := Save(m, msgId, seqNo, faults, cacheUp);
      if v != Fresh {
        tables := before;
        return;
      }
      if outcome == Aborted {
        tables := before;
        return Error;
      }
      outbox := outbox + {EventOf(m, msgId)};
      if outcome == CommittedReplyLost {
        v := Error;
      }
    }

    /** SaveMentionInbox: one row per mentioned user, idempotent; true when nothing but duplicates failed. */
    method SaveMentionInbox(m: Message, msgId: nat, seqNo: nat, faults: seq<Fault>) returns (ok: bool)
      modifies this`tables
      ensures
        var (t, results) := InsertMany(old(tables), Mentions, MentionRows(m, msgId, seqNo), faults);
        tables == t && ok == (VerdictOf(results) != Error)
      ensures tables == old(tables).(mentions := tables.mentions) && old(tables).mentions <= tables.mentions
      ensures forall r :: r in tables.mentions && r !in old(tables).mentions ==>
                r.owner in m.mentioned && r == Row(r.owner, msgId, m.topic, m.sender, seqNo, m.client, m.content)
      ensures ok ==> forall u :: u in m.mentioned ==> MentionStored(tables, m, seqNo, u)
    {
      MentionsGoIn(tables, m, msgId, seqNo, faults);
      if |m.mentioned| == 0 {
        return true;
      }
      var docs: seq<Row> := [];
      for i := 0 to |m.mentioned|
        invariant |docs| == i
        invariant forall k :: 0 <= k < i ==> docs[k] == RowFor(m, msgId, seqNo, m.mentioned[k])
      {
        docs := docs + [RowFor(m, msgId, seqNo, m.mentioned[i])];
      }
      assert docs == MentionRows(m, msgId, seqNo);
      var results := InsertDocs(Mentions, docs, faults);
      var v := Classify(results);
      ok := v != Error;
    }
  }
}
