/**
 The agent-event outbox and its relays. Relays claim due rows under a lease,
 publish them and mark or release them; they may crash, lose their lease and
 act late, and publishing may fail before or after the event went out.
 */
module Relay {
  import opened Domain

  const LEASE: nat := 60_000
  const DEFAULT_BACKOFF: nat := 1_000
  const DEFAULT_LIMIT: nat := 32

  datatype Status = Pending | Processing | Published

  /** Times are milliseconds. `lockedUntil` counts only while processing, `nextAttemptAt` only while pending. */
  datatype OutboxRow = OutboxRow(status: Status, attempts: nat, nextAttemptAt: int, lockedUntil: int, createdAt: int)

  type Rows = map<EventId, OutboxRow>

  /** The filter of the claim query. */
  predicate Due(row: OutboxRow, now: int) {
    || (row.status == Pending && row.nextAttemptAt <= now)
    || (row.status == Processing && row.lockedUntil < now)
  }

  function DueSet(rows: Rows, now: int): set<EventId> {
    set e | e in rows && Due(rows[e], now)
  }

  /** The claim query sorts by creation time. */
  predicate OldestDue(rows: Rows, now: int, e: EventId) {
    e in DueSet(rows, now) && forall f :: f in DueSet(rows, now) ==> rows[e].createdAt <= rows[f].createdAt
  }

  function NewRow(now: int): OutboxRow {
    OutboxRow(Pending, 0, now, 0, now)
  }

  function ClaimedRow(row: OutboxRow, now: int): OutboxRow {
    row.(status := Processing, lockedUntil := now + LEASE, attempts := row.attempts + 1)
  }

  /** Mark and release apply only to a row that is being processed, by whomever. */
  function Marked(rows: Rows, e: EventId): Rows {
    if e in rows && rows[e].status == Processing then rows[e := rows[e].(status := Published)] else rows
  }

  function Released(rows: Rows, e: EventId, until: int): Rows {
    if e in rows && rows[e].status == Processing
    then rows[e := rows[e].(status := Pending, nextAttemptAt := until)] else rows
  }

  // ------------------------------------------------------------------ the steps

  /** What a relay holds: a claimed event, or one it has tried to publish. */
  datatype Work = Claimed(event: EventId) | Tried(event: EventId, ok: bool)

  datatype State = State(
    rows: Rows, now: int, relays: map<int, Work>,
    calls: map<EventId, nat>, acknowledged: set<EventId>, delivered: set<EventId>)

  const INITIAL := State(map[], 0, map[], map[], {}, {})

  datatype Label =
    | Enqueue(event: EventId)
    | Claim(relay: int, event: EventId)
    | BadPayload(relay: int, backoff: nat)
    | Publish(relay: int, fault: Fault)
    | Mark(relay: int)
    | Release(relay: int, backoff: nat)
    | Crash(relay: int)
    | Tick(elapsed: nat)

  function Calls(s: State, e: EventId): nat {
    if e in s.calls then s.calls[e] else 0
  }

  predicate Holds(s: State, relay: int, e: EventId) {
    relay in s.relays && s.relays[relay] == Claimed(e)
  }

  predicate HasTried(s: State, relay: int, ok: bool) {
    relay in s.relays && s.relays[relay].Tried? && s.relays[relay].ok == ok
  }

  function Step(s: State, l: Label): State {
    match l
    case Enqueue(e) => if e in s.rows then s else s.(rows := s.rows[e := NewRow(s.now)])
    case Claim(r, e) =>
      if r in s.relays || !OldestDue(s.rows, s.now, e) then s
      else s.(rows := s.rows[e := ClaimedRow(s.rows[e], s.now)], relays := s.relays[r := Claimed(e)])
    case BadPayload(r, backoff) =>
      if r !in s.relays || !s.relays[r].Claimed? then s
      else s.(rows := Released(s.rows, s.relays[r].event, s.now + backoff), relays := s.relays - {r})
    case Publish(r, fault) =>
      if r !in s.relays || !s.relays[r].Claimed? then s
      else
        var e := s.relays[r].event;
        s.(calls := s.calls[e := Calls(s, e) + 1],
           acknowledged := if fault == NoFault then s.acknowledged + {e} else s.acknowledged,
           delivered := if fault == Failed(false) then s.delivered else s.delivered + {e},
           relays := s.relays[r := Tried(e, fault == NoFault)])
    case Mark(r) =>
      if !HasTried(s, r, true) then s
      else s.(rows := Marked(s.rows, s.relays[r].event), relays := s.relays - {r})
    case Release(r, backoff) =>
      if !HasTried(s, r, false) then s
      else s.(rows := Released(s.rows, s.relays[r].event, s.now + backoff), relays := s.relays - {r})
    case Crash(r) => s.(relays := s.relays - {r})
    case Tick(elapsed) => s.(now := s.now + elapsed)
  }

  function RunFrom(s: State, labels: seq<Label>): State {
    if labels == [] then s
    else Step(RunFrom(s, labels[..|labels| - 1]), labels[|labels| - 1])
  }

  function Run(labels: seq<Label>): State {
    RunFrom(INITIAL, labels)
  }

  // ------------------------------------------------------------------ invariant

  /** The relays that have claimed `e` and not yet tried to publish it. */
  ghost function Holders(s: State, e: EventId): set<int> {
    set r | r in s.relays && s.relays[r] == Claimed(e)
  }

  ghost predicate PublishedOk(s: State) {
    && (forall e :: e in s.rows && s.rows[e].status == Published ==> e in s.acknowledged)
    && (forall r :: HasTried(s, r, true) ==> s.relays[r].event in s.acknowledged)
    && s.acknowledged <= s.delivered
    && s.delivered <= s.rows.Keys
    && (forall r :: r in s.relays ==> s.relays[r].event in s.rows)
  }

  ghost predicate CallsOk(s: State) {
    && (forall e :: e in s.rows ==> Calls(s, e) + |Holders(s, e)| <= s.rows[e].attempts)
    && (forall e :: e in s.calls ==> e in s.rows)
  }

  ghost predicate LeaseOk(s: State) {
    forall e :: e in s.rows && s.rows[e].status == Processing ==> s.rows[e].lockedUntil <= s.now + LEASE
  }

  ghost predicate Inv(s: State) {
    PublishedOk(s) && CallsOk(s) && LeaseOk(s)
  }

  lemma HoldersOf(s: State, s': State, e: EventId, r: int)
    requires forall q :: q != r ==> Holds(s', q, e) == Holds(s, q, e)
    ensures |Holders(s', e)| == |Holders(s, e)| + (if Holds(s', r, e) then 1 else 0) - (if Holds(s, r, e) then 1 else 0)
  {
    var rest := Holders(s, e) - {r};
    forall q | q != r ensures q in rest <==> q in Holders(s', e) {
      assert Holds(s', q, e) == Holds(s, q, e);
    }
    assert Holders(s, e) == if Holds(s, r, e) then rest + {r} else rest;
    assert Holders(s', e) == if Holds(s', r, e) then rest + {r} else rest;
  }

  /** The relay a label is about. */
  function Actor(l: Label): int {
    match l
    case Claim(r, _) => r
    case BadPayload(r, _) => r
    case Publish(r, _) => r
    case Mark(r) => r
    case Release(r, _) => r
    case Crash(r) => r
    case Enqueue(_) => 0
    case Tick(_) => 0
  }

  lemma StepKeepsCallsOf(s: State, l: Label, e: EventId)
    requires e in s.rows && Calls(s, e) + |Holders(s, e)| <= s.rows[e].attempts
    ensures e in Step(s, l).rows
    ensures Calls(Step(s, l), e) + |Holders(Step(s, l), e)| <= Step(s, l).rows[e].attempts
  {
    HoldersOf(s, Step(s, l), e, Actor(l));
  }

  lemma NewRowHasNoCalls(s: State, l: Label, e: EventId)
    requires CallsOk(s) && PublishedOk(s) && e !in s.rows && e in Step(s, l).rows
    ensures Calls(Step(s, l), e) + |Holders(Step(s, l), e)| == 0
  {
    assert forall q :: q in s.relays ==> s.relays[q].event in s.rows;
    assert Holders(Step(s, l), e) == {};
  }

  lemma StepKeepsCalls(s: State, l: Label)
    requires CallsOk(s) && PublishedOk(s)
    ensures CallsOk(Step(s, l))
  {
    forall e | e in Step(s, l).rows
      ensures Calls(Step(s, l), e) + |Holders(Step(s, l), e)| <= Step(s, l).rows[e].attempts
    {
      if e in s.rows {
        StepKeepsCallsOf(s, l, e);
      } else {
        NewRowHasNoCalls(s, l, e);
      }
    }
  }

  lemma StepKeepsPublished(s: State, l: Label)
    requires PublishedOk(s)
    ensures PublishedOk(Step(s, l))
  {
  }

  lemma StepKeepsInv(s: State, l: Label)
    requires Inv(s)
    ensures Inv(Step(s, l))
  {
    StepKeepsCalls(s, l);
    StepKeepsPublished(s, l);
  }

  lemma {:induction false} RunKeepsInv(labels: seq<Label>)
    ensures Inv(Run(labels))
  {
    if labels == [] {
    } else {
      RunKeepsInv(labels[..|labels| - 1]);
      StepKeepsInv(Run(labels[..|labels| - 1]), labels[|labels| - 1]);
    }
  }

  // ------------------------------------------------------------------ main results

  /**
   After any run: a published row's event was acknowledged by the broker, and
   the publish calls for a row never exceed its attempts.
   */
  lemma PublishedWasSent(labels: seq<Label>, e: EventId)
    requires e in Run(labels).rows
    ensures Run(labels).rows[e].status == Published ==> e in Run(labels).acknowledged
    ensures Calls(Run(labels), e) <= Run(labels).rows[e].attempts
  {
    RunKeepsInv(labels);
  }

  /** Published is final: whatever relays do later, however late, the row stays as it is. */
  lemma {:induction false} PublishedIsFinal(s: State, labels: seq<Label>, e: EventId)
    requires e in s.rows && s.rows[e].status == Published
    ensures e in RunFrom(s, labels).rows && RunFrom(s, labels).rows[e] == s.rows[e]
  {
    if labels != [] {
      PublishedIsFinal(s, labels[..|labels| - 1], e);
    }
  }

  /** When an unpublished row becomes claimable, if nobody touches it. */
  function ClaimableAt(row: OutboxRow): int {
    if row.status == Processing then row.lockedUntil + 1 else row.nextAttemptAt
  }

  /** Letting the clock run makes every unpublished row claimable; a claimed one within one lease. */
  lemma UnpublishedIsClaimable(labels: seq<Label>, e: EventId, elapsed: nat)
    requires e in Run(labels).rows && Run(labels).rows[e].status != Published
    requires Run(labels).now + elapsed >= ClaimableAt(Run(labels).rows[e])
    ensures e in DueSet(Run(labels + [Tick(elapsed)]).rows, Run(labels + [Tick(elapsed)]).now)
    ensures Run(labels).rows[e].status == Processing ==> ClaimableAt(Run(labels).rows[e]) <= Run(labels).now + LEASE + 1
  {
    RunKeepsInv(labels);
    assert (labels + [Tick(elapsed)])[..|labels|] == labels;
  }

  /** A claim that succeeds takes exactly its row out of the due set. */
  lemma ClaimTakesOne(s: State, l: Label)
    requires l.Claim? && Step(s, l) != s
    ensures l.event in DueSet(s.rows, s.now)
    ensures Step(s, l).now == s.now
    ensures Step(s, l).rows == s.rows[l.event := ClaimedRow(s.rows[l.event], s.now)]
    ensures DueSet(Step(s, l).rows, s.now) == DueSet(s.rows, s.now) - {l.event}
  {
  }

  ghost predicate AllSucceed(s: State, claims: seq<Label>) {
    claims == [] ||
    var before, last := claims[..|claims| - 1], claims[|claims| - 1];
    AllSucceed(s, before) && last.Claim? && Step(RunFrom(s, before), last) != RunFrom(s, before)
  }

  /** As many successful claims as there are due rows claim every one of them, none twice. */
  lemma {:induction false} ClaimsDrain(s: State, claims: seq<Label>)
    requires AllSucceed(s, claims)
    ensures RunFrom(s, claims).now == s.now
    ensures DueSet(RunFrom(s, claims).rows, s.now) <= DueSet(s.rows, s.now)
    ensures |DueSet(RunFrom(s, claims).rows, s.now)| == |DueSet(s.rows, s.now)| - |claims|
    ensures forall l :: l in claims ==> l.Claim? && l.event in DueSet(s.rows, s.now)
    ensures forall l :: l in claims ==> l.Claim? && l.event !in DueSet(RunFrom(s, claims).rows, s.now)
  {
    if claims != [] {
      var before, last := claims[..|claims| - 1], claims[|claims| - 1];
      ClaimsDrain(s, before);
      ClaimTakesOne(RunFrom(s, before), last);
    }
  }

  // ------------------------------------------------------------------ leases

  /** What a claim does to a row it gets. */
  ghost predicate TakenOnLease(before: OutboxRow, after: OutboxRow, now: int) {
    && after.status == Processing && after.lockedUntil == now + 60_000
    && after.attempts == before.attempts + 1 && after.createdAt == before.createdAt
  }

  /** A row under lease, a row waiting for its time and a published row are refused to everyone. */
  lemma LeaseExcludes(s: State, r: int, e: EventId)
    requires e in s.rows ==>
               || (s.rows[e].status == Processing && s.now <= s.rows[e].lockedUntil)
               || (s.rows[e].status == Pending && s.now < s.rows[e].nextAttemptAt)
               || s.rows[e].status == Published
    ensures Step(s, Claim(r, e)) == s
  {
  }

  /**
   A claim succeeds exactly if its relay is free and the row is the oldest of
   those that are pending and whose time has come, or processing and past their
   lease; the row is then leased for a minute, and no other row changes.
   */
  lemma ClaimSucceedsIff(s: State, r: int, e: EventId)
    ensures
      var ready := set f | f in s.rows &&
        ((s.rows[f].status == Pending && s.rows[f].nextAttemptAt <= s.now)
         || (s.rows[f].status == Processing && s.rows[f].lockedUntil < s.now));
      Step(s, Claim(r, e)) != s <==>
        r !in s.relays && e in ready && forall f :: f in ready ==> s.rows[e].createdAt <= s.rows[f].createdAt
    ensures Step(s, Claim(r, e)) != s ==>
              && e in s.rows && Step(s, Claim(r, e)).rows == s.rows[e := Step(s, Claim(r, e)).rows[e]]
              && TakenOnLease(s.rows[e], Step(s, Claim(r, e)).rows[e], s.now)
              && Step(s, Claim(r, e)).relays == s.relays[r := Claimed(e)]
  {
    var ready := set f | f in s.rows &&
      ((s.rows[f].status == Pending && s.rows[f].nextAttemptAt <= s.now)
       || (s.rows[f].status == Processing && s.rows[f].lockedUntil < s.now));
    assert ready == DueSet(s.rows, s.now);
    if r !in s.relays && OldestDue(s.rows, s.now, e) {
      assert Step(s, Claim(r, e)).rows[e].attempts == s.rows[e].attempts + 1;
    }
  }

  ghost predicate ClaimedAt(labels: seq<Label>, i: nat, e: EventId) {
    && i < |labels| && labels[i].Claim? && labels[i].event == e
    && Step(Run(labels[..i]), labels[i]) != Run(labels[..i])
  }

  /** The relay that acts holds `e` and gives it back. */
  ghost predicate ReleasedAt(labels: seq<Label>, i: nat, e: EventId) {
    && i < |labels| && (labels[i].Release? || labels[i].BadPayload?)
    && labels[i].relay in Run(labels[..i]).relays && Run(labels[..i]).relays[labels[i].relay].event == e
  }

  /** After a claim the row stays leased from its time on, or is published, until somebody gives it back. */
  lemma {:induction false} LeasedSince(labels: seq<Label>, i: nat, n: nat, e: EventId)
    requires ClaimedAt(labels, i, e) && i < n <= |labels|
    requires forall k: nat :: i < k < n ==> !ReleasedAt(labels, k, e)
    ensures
      var t, s := Run(labels[..i]).now, Run(labels[..n]);
      && t <= s.now && e in s.rows
      && (s.rows[e].status == Published || (s.rows[e].status == Processing && t + 60_000 <= s.rows[e].lockedUntil))
    decreases n
  {
    assert labels[..n][..n - 1] == labels[..n - 1] && labels[..n][n - 1] == labels[n - 1];
    var s := Run(labels[..n - 1]);
    if n - 1 > i {
      LeasedSince(labels, i, n - 1, e);
      assert !ReleasedAt(labels, n - 1, e);
    }
  }

  /** Two claims of one event get it only if it was given back in between, or more than a minute apart. */
  lemma ClaimsAreApart(labels: seq<Label>, i: nat, j: nat, e: EventId)
    requires i < j && ClaimedAt(labels, i, e) && ClaimedAt(labels, j, e)
    ensures || (exists k: nat :: i < k < j && ReleasedAt(labels, k, e))
            || Run(labels[..j]).now - Run(labels[..i]).now > 60_000
  {
    if forall k: nat :: i < k < j ==> !ReleasedAt(labels, k, e) {
      LeasedSince(labels, i, j, e);
    }
  }

  ghost predicate EnqueuedAt(labels: seq<Label>, i: nat, e: EventId) {
    i < |labels| && labels[i] == Enqueue(e) && e !in Run(labels[..i]).rows
  }

  /** A new row is pending and due at once, and remembers for ever when it was made. */
  lemma {:induction false} EnqueuedSince(labels: seq<Label>, i: nat, n: nat, e: EventId)
    requires EnqueuedAt(labels, i, e) && i < n <= |labels|
    ensures e in Run(labels[..n]).rows && Run(labels[..n]).rows[e].createdAt == Run(labels[..i]).now
    ensures n == i + 1 ==> var row := Run(labels[..n]).rows[e];
              row.status == Pending && row.attempts == 0 && row.nextAttemptAt <= Run(labels[..n]).now
    decreases n
  {
    assert labels[..n][..n - 1] == labels[..n - 1] && labels[..n][n - 1] == labels[n - 1];
    if n - 1 > i {
      EnqueuedSince(labels, i, n - 1, e);
    }
  }

  /** While an event that came earlier can be claimed, a later one cannot. */
  lemma EarlierGoesFirst(labels: seq<Label>, i: nat, j: nat, e: EventId, f: EventId, r: int)
    requires EnqueuedAt(labels, i, e) && EnqueuedAt(labels, j, f) && Run(labels[..i]).now < Run(labels[..j]).now
    requires
      var s := Run(labels);
      e in s.rows && ((s.rows[e].status == Pending && s.rows[e].nextAttemptAt <= s.now)
                      || (s.rows[e].status == Processing && s.rows[e].lockedUntil < s.now))
    ensures Step(Run(labels), Claim(r, f)) == Run(labels)
  {
    assert labels[..|labels|] == labels;
    EnqueuedSince(labels, i, |labels|, e);
    EnqueuedSince(labels, j, |labels|, f);
    assert e in DueSet(Run(labels).rows, Run(labels).now);
  }

  /** A relay that holds `e` tries to publish it, with this outcome. */
  ghost predicate TriedAt(labels: seq<Label>, i: nat, e: EventId, fault: Fault) {
    && i < |labels| && labels[i].Publish? && labels[i].fault == fault
    && labels[i].relay in Run(labels[..i]).relays && Run(labels[..i]).relays[labels[i].relay] == Claimed(e)
  }

  lemma TriedBeforeOrLast(labels: seq<Label>, e: EventId, fault: Fault)
    requires labels != []
    ensures
      var n := |labels| - 1;
      (exists i: nat :: TriedAt(labels, i, e, fault)) <==>
        TriedAt(labels, n, e, fault) || exists i: nat :: TriedAt(labels[..n], i, e, fault)
  {
    var n := |labels| - 1;
    forall i: nat | i < n ensures TriedAt(labels, i, e, fault) == TriedAt(labels[..n], i, e, fault) {
      assert labels[..n][..i] == labels[..i];
    }
    if i: nat :| TriedAt(labels[..n], i, e, fault) {
      assert TriedAt(labels, i, e, fault);
    }
  }

  lemma PublishStep(s: State, l: Label, e: EventId)
    ensures
      var tried := l.Publish? && l.relay in s.relays && s.relays[l.relay] == Claimed(e);
      && (e in Step(s, l).acknowledged <==> e in s.acknowledged || (tried && l.fault == NoFault))
      && (e in Step(s, l).delivered <==> e in s.delivered || (tried && l.fault != Failed(false)))
  {
  }

  /**
   After any run an event was acknowledged exactly if some relay's publish call
   for it succeeded, and has reached the agent topic exactly if some call did
   not fail before it took effect.
   */
  lemma {:induction false} DeliveredIff(labels: seq<Label>, e: EventId)
    ensures e in Run(labels).acknowledged <==> exists i: nat :: TriedAt(labels, i, e, NoFault)
    ensures e in Run(labels).delivered <==>
              (exists i: nat :: TriedAt(labels, i, e, NoFault)) || (exists i: nat :: TriedAt(labels, i, e, Failed(true)))
  {
    if labels != [] {
      var n := |labels| - 1;
      DeliveredIff(labels[..n], e);
      PublishStep(Run(labels[..n]), labels[n], e);
      TriedBeforeOrLast(labels, e, NoFault);
      TriedBeforeOrLast(labels, e, Failed(true));
    }
  }

  /** The publish calls for `e` among the labels. */
  ghost function TryCount(labels: seq<Label>, e: EventId): nat {
    if labels == [] then 0
    else
      var n := |labels| - 1;
      TryCount(labels[..n], e) + if labels[n].Publish? && TriedAt(labels, n, e, labels[n].fault) then 1 else 0
  }

  /** After any run an event was claimed at least as often as relays called the broker for it. */
  lemma {:induction false} CallsAreCounted(labels: seq<Label>, e: EventId)
    ensures Calls(Run(labels), e) == TryCount(labels, e)
    ensures e in Run(labels).rows ==> TryCount(labels, e) <= Run(labels).rows[e].attempts
  {
    if labels != [] {
      CallsAreCounted(labels[..|labels| - 1], e);
    }
    RunKeepsInv(labels);
  }

  // ------------------------------------------------------------------ every event can be delivered

  /** Neither a fault nor a crash, and nothing new in the outbox. */
  predicate Faultless(l: Label) {
    l.Claim? || (l.Publish? && l.fault == NoFault) || l.Mark? || l.Tick?
  }

  lemma {:induction false} RunsCompose(s: State, a: seq<Label>, b: seq<Label>)
    ensures RunFrom(s, a + b) == RunFrom(RunFrom(s, a), b)
  {
    if b == [] {
      assert a + b == a;
    } else {
      RunsCompose(s, a, b[..|b| - 1]);
      assert (a + b)[..|a + b| - 1] == a + b[..|b| - 1];
    }
  }

  lemma {:induction false} OldestOf(rows: Rows, due: set<EventId>) returns (e: EventId)
    requires due != {} && due <= rows.Keys
    ensures e in due && forall f :: f in due ==> rows[e].createdAt <= rows[f].createdAt
  {
    var f :| f in due;
    e := f;
    assert forall h :: h in due ==> h == f || h in due - {f};
    if due - {f} != {} {
      var g := OldestOf(rows, due - {f});
      e := if rows[g].createdAt < rows[f].createdAt then g else f;
    }
  }

  /** One undisturbed iteration of a relay. */
  lemma RoundPublishes(s: State, q: int, e: EventId)
    requires q !in s.relays && OldestDue(s.rows, s.now, e)
    ensures
      var s' := RunFrom(s, [Claim(q, e), Publish(q, NoFault), Mark(q)]);
      && s'.rows == s.rows[e := ClaimedRow(s.rows[e], s.now).(status := Published)]
      && s'.now == s.now && s'.relays == s.relays && s'.delivered == s.delivered + {e}
  {
    var ls := [Claim(q, e), Publish(q, NoFault), Mark(q)];
    assert ls[..2][..1] == ls[..1] && ls[..1][..0] == [];
    assert RunFrom(s, ls[..1]) == Step(RunFrom(s, ls[..1][..0]), ls[0]);
    assert RunFrom(s, ls[..2]) == Step(RunFrom(s, ls[..1]), ls[1]);
    var claimed := Step(s, Claim(q, e));
    assert claimed.relays[q] == Claimed(e);
    var tried := Step(claimed, Publish(q, NoFault));
    assert HasTried(tried, q, true) && tried.relays - {q} == s.relays;
  }

  /** A due event is delivered after the older due ones, each by a relay that has nothing else to do. */
  lemma {:induction false} DueIsDelivered(s: State, e: EventId) returns (ls: seq<Label>)
    requires e in DueSet(s.rows, s.now)
    ensures e in RunFrom(s, ls).delivered && forall l :: l in ls ==> Faultless(l)
    decreases |DueSet(s.rows, s.now)|
  {
    var f := OldestOf(s.rows, DueSet(s.rows, s.now));
    var q := FreshInt(s.relays.Keys);
    var round := [Claim(q, f), Publish(q, NoFault), Mark(q)];
    RoundPublishes(s, q, f);
    var s' := RunFrom(s, round);
    if f == e {
      ls := round;
    } else {
      assert DueSet(s'.rows, s'.now) == DueSet(s.rows, s.now) - {f};
      var rest := DueIsDelivered(s', e);
      RunsCompose(s, round, rest);
      ls := round + rest;
    }
  }

  /** From every state every event in the outbox can be brought to the agent topic without faults. */
  lemma EventCanBeDelivered(s: State, e: EventId) returns (ls: seq<Label>)
    requires PublishedOk(s) && e in s.rows
    ensures e in RunFrom(s, ls).delivered && forall l :: l in ls ==> Faultless(l)
  {
    if e in s.delivered {
      ls := [];
    } else {
      var at := ClaimableAt(s.rows[e]);
      var tick := [Tick(if at > s.now then at - s.now else 0)];
      assert tick[..0] == [] && RunFrom(s, tick) == Step(RunFrom(s, tick[..0]), tick[0]);
      var rest := DueIsDelivered(RunFrom(s, tick), e);
      RunsCompose(s, tick, rest);
      ls := tick + rest;
    }
  }

  // ------------------------------------------------------------------ the relay loop

  function EffectiveLimit(limit: int): nat {
    if limit <= 0 then DEFAULT_LIMIT else limit
  }

  function EffectiveBackoff(backoff: int): nat {
    if backoff <= 0 then DEFAULT_BACKOFF else backoff
  }

  datatype Publishing = Acked | Undecodable | Rejected

  /** How one iteration turns out: the claim, decoding and publishing, and the update that marks or releases the row. */
  datatype Attempt = Attempt(claim: Fault, publish: Publishing, update: Fault)

  predicate Succeeds(a: Attempt) {
    a == Attempt(NoFault, Acked, NoFault)
  }

  function AttemptAt(attempts: seq<Attempt>, i: nat): Attempt {
    if i < |attempts| then attempts[i] else Attempt(NoFault, Acked, NoFault)
  }

  /**
   What an iteration leaves of the row it claimed: marked, released, or still
   processing until the lease ends, when the claim's reply or the update got lost.
   */
  function AfterAttempt(row: OutboxRow, a: Attempt, now: int, wait: nat): OutboxRow {
    var claimed := ClaimedRow(row, now);
    if a.claim != NoFault || a.update == Failed(false) then claimed
    else if a.publish == Acked then claimed.(status := Published)
    else claimed.(status := Pending, nextAttemptAt := now + wait)
  }

  /** The steps of such an iteration; the relay stops where a reply or an update gets lost. */
  function IterationSteps(q: int, e: EventId, a: Attempt, wait: nat): seq<Label> {
    if a.claim != NoFault then [Claim(q, e), Crash(q)]
    else if a.publish == Undecodable then [Claim(q, e), if a.update == Failed(false) then Crash(q) else BadPayload(q, wait)]
    else
      [Claim(q, e), Publish(q, if a.publish == Acked then NoFault else Failed(false)),
       if a.update == Failed(false) then Crash(q) else if a.publish == Acked then Mark(q) else Release(q, wait)]
  }

  lemma TwoSteps(s: State, a: Label, b: Label)
    ensures RunFrom(s, [a, b]) == Step(Step(s, a), b)
  {
    var ls := [a, b];
    assert ls[..1][..0] == [] && RunFrom(s, ls[..1]) == Step(RunFrom(s, ls[..1][..0]), a);
  }

  lemma ThreeSteps(s: State, a: Label, b: Label, c: Label)
    ensures RunFrom(s, [a, b, c]) == Step(Step(Step(s, a), b), c)
  {
    assert [a, b, c][..2] == [a, b];
    TwoSteps(s, a, b);
  }

  /** What a relay that holds a row it is processing makes of it with one more step. */
  lemma LastStep(s: State, q: int, e: EventId, wait: nat)
    requires q in s.relays && s.relays[q].event == e && e in s.rows && s.rows[e].status == Processing
    ensures Step(s, Crash(q)) == s.(relays := s.relays - {q})
    ensures s.relays[q].Claimed? ==>
              Step(s, BadPayload(q, wait)) ==
                s.(rows := s.rows[e := s.rows[e].(status := Pending, nextAttemptAt := s.now + wait)], relays := s.relays - {q})
    ensures s.relays[q] == Tried(e, true) ==>
              Step(s, Mark(q)) == s.(rows := s.rows[e := s.rows[e].(status := Published)], relays := s.relays - {q})
    ensures s.relays[q] == Tried(e, false) ==>
              Step(s, Release(q, wait)) ==
                s.(rows := s.rows[e := s.rows[e].(status := Pending, nextAttemptAt := s.now + wait)], relays := s.relays - {q})
  {
  }

  lemma UpdatedTwice(rows: Rows, e: EventId, x: OutboxRow, y: OutboxRow)
    ensures rows[e := x][e := y] == rows[e := y]
  {
  }

  /** An iteration of the relay loop is a run of this system: its row is left as the loop leaves it, its relay free. */
  lemma IterationIsSteps(s: State, q: int, e: EventId, a: Attempt, wait: nat)
    requires q !in s.relays && OldestDue(s.rows, s.now, e) && a.claim != Failed(false)
    ensures
      var s' := RunFrom(s, IterationSteps(q, e, a, wait));
      && s'.rows == s.rows[e := AfterAttempt(s.rows[e], a, s.now, wait)]
      && s'.relays == s.relays && s'.now == s.now
  {
    var ls := IterationSteps(q, e, a, wait);
    var row := ClaimedRow(s.rows[e], s.now);
    var claimed := Step(s, Claim(q, e));
    assert claimed == s.(rows := s.rows[e := row], relays := s.relays[q := Claimed(e)]);
    assert claimed.relays - {q} == s.relays;
    UpdatedTwice(s.rows, e, row, AfterAttempt(s.rows[e], a, s.now, wait));
    if |ls| == 2 {
      TwoSteps(s, ls[0], ls[1]);
      LastStep(claimed, q, e, wait);
    } else {
      ThreeSteps(s, ls[0], ls[1], ls[2]);
      var tried := Step(claimed, ls[1]);
      assert tried.rows == claimed.rows && tried.relays == claimed.relays[q := Tried(e, a.publish == Acked)];
      assert tried.relays - {q} == s.relays;
      LastStep(tried, q, e, wait);
    }
  }

  /** A row that changed without being one of these. */
  predicate Touched(before: Rows, after: Rows, others: seq<EventId>, e: EventId) {
    e in before && e in after && e !in others && after[e] != before[e]
  }

  datatype Progress = Idle | Done | Broken

  class AgentOutbox {
    var rows: Rows

    constructor ()
      ensures rows == map[]
    {
      rows := map[];
    }

    method ClaimAgentEvent(now: int) returns (claimed: Option<EventId>)
      modifies this
      ensures claimed.None? ==> rows == old(rows) && DueSet(rows, now) == {}
      ensures claimed.None? ==> forall e :: e in rows ==>
                && (rows[e].status == Pending ==> now < rows[e].nextAttemptAt)
                && (rows[e].status == Processing ==> now <= rows[e].lockedUntil)
      ensures claimed.Some? ==>
                && claimed.value in old(rows) && claimed.value in rows
                && var row := old(rows)[claimed.value];
                   && ((row.status == Pending && row.nextAttemptAt <= now)
                       || (row.status == Processing && row.lockedUntil < now))
                   && TakenOnLease(row, rows[claimed.value], now)
      ensures claimed.Some? ==>
                && OldestDue(old(rows), now, claimed.value)
                && rows == old(rows)[claimed.value := ClaimedRow(old(rows)[claimed.value], now)]
    {
      var due := DueSet(rows, now);
      if due == {} {
        assert forall e :: e in rows ==> e !in due;
        return None;
      }
      var best :| best in due;
      var rest := due - {best};
      while rest != {}
        invariant best in due && rest <= due
        invariant forall f :: f in due - rest ==> rows[best].createdAt <= rows[f].createdAt
        decreases rest
      {
        var f :| f in rest;
        if rows[f].createdAt < rows[best].createdAt {
          best := f;
        }
        rest := rest - {f};
      }
      rows := rows[best := ClaimedRow(rows[best], now)];
      claimed := Some(best);
    }

    /** One iteration. `row` is the row it claimed, which the relay does not learn when the reply is lost. */
    method RelayOne(now: int, wait: nat, a: Attempt)
      returns (progress: Progress, sent: Option<EventId>, ghost row: Option<EventId>)
      modifies this
      ensures row.None? ==> rows == old(rows) && sent.None? && progress != Done
      ensures row.Some? ==>
                && OldestDue(old(rows), now, row.value)
                && rows == old(rows)[row.value := AfterAttempt(old(rows)[row.value], a, now, wait)]
      ensures row.Some? <==> a.claim != Failed(false) && DueSet(old(rows), now) != {}
      ensures sent == if a.claim == NoFault && a.publish != Undecodable then row else None
      ensures progress == Idle <==> row.None? && a.claim == NoFault
      ensures progress == Done <==> row.Some? && Succeeds(a)
    {
      sent, row := None, None;
      if a.claim == Failed(false) {
        return Broken, None, None;
      }
      var claimed := ClaimAgentEvent(now);
      row := claimed;
      if a.claim != NoFault {
        return Broken, None, row;
      }
      if claimed.None? {
        return Idle, None, row;
      }
      var e := claimed.value;
      if a.publish != Undecodable {
        sent := Some(e);
      }
      if a.update != Failed(false) {
        rows := if a.publish == Acked then Marked(rows, e) else Released(rows, e, now + wait);
      }
      progress := if a.publish == Acked && a.update == NoFault then Done else Broken;
    }

    /**
     RelayAgentEvents: claims, publishes and marks until the limit, an error,
     or no row is due. `sent` are the events handed to the broker, in order:
     each at most once and only if it was due. The first `processed` of them
     are published; an error leaves at most one more row touched, as the
     failing iteration left it; stopping early without an error means nothing
     is left to claim.
     */
    method RelayAgentEvents(now: int, limit: int, backoff: int, attempts: seq<Attempt>)
      returns (processed: nat, failed: bool, sent: seq<EventId>)
      modifies this
      ensures
        var n := if limit <= 0 then 32 else limit;
        && processed <= n && (failed ==> processed < n)
        && (!failed && processed < n ==> DueSet(rows, now) == {})
      ensures forall i :: 0 <= i < processed && i < |attempts| ==> attempts[i] == Attempt(NoFault, Acked, NoFault)
      ensures failed ==> processed < |attempts| && attempts[processed] != Attempt(NoFault, Acked, NoFault)
      ensures rows.Keys == old(rows).Keys && processed <= |sent| <= processed + 1
      ensures forall i, j :: 0 <= i < j < |sent| ==> sent[i] != sent[j]
      ensures forall i :: 0 <= i < |sent| ==> sent[i] in DueSet(old(rows), now)
      ensures forall i :: 0 <= i < processed ==>
                sent[i] in rows && rows[sent[i]] == ClaimedRow(old(rows)[sent[i]], now).(status := Published)
      ensures forall e :: Touched(old(rows), rows, sent[..processed], e) ==>
                && failed && e in DueSet(old(rows), now)
                && rows[e] == AfterAttempt(old(rows)[e], AttemptAt(attempts, processed), now,
                                           if backoff <= 0 then 1_000 else backoff)
      ensures forall e, f :: Touched(old(rows), rows, sent[..processed], e)
                             && Touched(old(rows), rows, sent[..processed], f) ==>
                e == f
    {
      var n := EffectiveLimit(limit);
      var wait := EffectiveBackoff(backoff);
      processed, failed, sent := 0, false, [];
      while processed < n
        invariant 0 <= processed <= n && |sent| == processed && !failed
        invariant forall i :: 0 <= i < processed && i < |attempts| ==> attempts[i] == Attempt(NoFault, Acked, NoFault)
        invariant rows.Keys == old(rows).Keys
        invariant forall i, j :: 0 <= i < j < |sent| ==> sent[i] != sent[j]
        invariant forall i :: 0 <= i < |sent| ==> sent[i] in DueSet(old(rows), now)
        invariant forall i :: 0 <= i < processed ==>
                    rows[sent[i]] == ClaimedRow(old(rows)[sent[i]], now).(status := Published)
        invariant forall e :: e in rows && e !in sent ==> rows[e] == old(rows)[e]
      {
        var progress, event, row := RelayOne(now, wait, AttemptAt(attempts, processed));
        assert row.Some? ==> row.value !in sent;
        if event.Some? {
          sent := sent + [event.value];
        }
        if progress != Done {
          failed := progress == Broken;
          return;
        }
        processed := processed + 1;
      }
    }
  }
}
