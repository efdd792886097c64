/**
 Delayed retries of failed pushes: a sorted set in Redis shared by all
 workers, whose members are removed before they are pushed and put back with
 a higher count when the push fails again.
 */
module RetryQueue {
  import opened Domain

  const BASE_DELAY: nat := 5
  const MAX_DELAY: nat := 300
  const MAX_ATTEMPTS: nat := 3

  /** A queue member; its text holds every field, so equal members are equal items. */
  datatype Item = Item(user: UserId, msgId: nat, payload: string, count: nat, retryAt: int)

  function Backoff(count: nat): nat {
    if count == 0 then BASE_DELAY
    else var d := 2 * Backoff(count - 1); if d > MAX_DELAY then MAX_DELAY else d
  }

  function Pow2(n: nat): nat {
    if n == 0 then 1 else 2 * Pow2(n - 1)
  }

  /** Five seconds doubled with every retry, and five minutes at most: capping on the way changes nothing. */
  lemma {:induction false} BackoffIsCapped(count: nat)
    ensures Backoff(count) == if 5 * Pow2(count) > 300 then 300 else 5 * Pow2(count)
    ensures count <= 2 ==> Backoff(count) == (if count == 0 then 5 else if count == 1 then 10 else 20)
  {
    if count > 0 {
      BackoffIsCapped(count - 1);
    }
  }

  function First(user: UserId, msgId: nat, payload: string, now: int): Item {
    Item(user, msgId, payload, 0, now + Backoff(0))
  }

  function Again(x: Item, now: int): Item {
    x.(count := x.count + 1, retryAt := now + Backoff(x.count + 1))
  }

  // ------------------------------------------------------------------ the steps

  /** What a worker goroutine holds: a removed item to push, or a failed one to put back. */
  datatype Hold = ToPush(item: Item, origin: nat) | ToRequeue(item: Item, origin: nat)

  /** How it goes with one ScheduleRetry call. `Merged` means an equal member was already queued. */
  datatype Fate = Waiting | Delivered | Dropped | Merged | Lost

  datatype Life = Life(pushes: nat, failures: nat, fate: Fate)

  datatype State = State(queue: map<Item, nat>, holds: map<int, Hold>, lives: seq<Life>, now: int)

  const INITIAL := State(map[], map[], [], 0)

  datatype Label =
    | Schedule(user: UserId, msgId: nat, payload: string, fault: Fault)
    | Take(w: int, item: Item)
    | TakeReplyLost(item: Item)
    | Push(w: int, ok: bool)
    | Requeue(w: int, fault: Fault)
    | Crash(w: int)
    | Tick(elapsed: nat)

  function SetLife(s: State, k: nat, life: Life): State {
    if k < |s.lives| then s.(lives := s.lives[k := life]) else s
  }

  function LifeOf(s: State, k: nat): Life {
    if k < |s.lives| then s.lives[k] else Life(0, 0, Lost)
  }

  function WithFate(s: State, k: nat, fate: Fate): State {
    SetLife(s, k, LifeOf(s, k).(fate := fate))
  }

  /** ZADD: an equal member absorbs the new one. */
  function Enqueue(s: State, x: Item, origin: nat): State {
    if x in s.queue then WithFate(s, origin, Merged) else s.(queue := s.queue[x := origin])
  }

  function DoPush(s: State, w: int, x: Item, k: nat, ok: bool): State {
    var life := LifeOf(s, k);
    var s1 := s.(holds := s.holds - {w});
    if ok then SetLife(s1, k, Life(life.pushes + 1, life.failures, Delivered))
    else
      var failed := Life(life.pushes + 1, life.failures + 1, life.fate);
      if x.count >= MAX_ATTEMPTS - 1 then SetLife(s1, k, failed.(fate := Dropped))
      else SetLife(s, k, failed).(holds := s.holds[w := ToRequeue(x, k)])
  }

  function Step(s: State, l: Label): State {
    match l
    case Schedule(user, msgId, payload, fault) =>
      if fault == Failed(false) then s.(lives := s.lives + [Life(0, 0, Lost)])
      else Enqueue(s.(lives := s.lives + [Life(0, 0, Waiting)]), First(user, msgId, payload, s.now), |s.lives|)
    case Take(w, x) =>
      if w in s.holds || x !in s.queue || x.retryAt > s.now then s
      else if x.count >= MAX_ATTEMPTS then WithFate(s.(queue := s.queue - {x}), s.queue[x], Dropped)
      else s.(queue := s.queue - {x}, holds := s.holds[w := ToPush(x, s.queue[x])])
    case TakeReplyLost(x) =>
      if x !in s.queue then s else WithFate(s.(queue := s.queue - {x}), s.queue[x], Lost)
    case Push(w, ok) =>
      if w in s.holds && s.holds[w].ToPush? then DoPush(s, w, s.holds[w].item, s.holds[w].origin, ok) else s
    case Requeue(w, fault) =>
      if w !in s.holds || !s.holds[w].ToRequeue? then s
      else
        var s1 := s.(holds := s.holds - {w});
        if fault == Failed(false) then WithFate(s1, s.holds[w].origin, Lost)
        else Enqueue(s1, Again(s.holds[w].item, s.now), s.holds[w].origin)
    case Crash(w) =>
      if w !in s.holds then s else WithFate(s.(holds := s.holds - {w}), s.holds[w].origin, Lost)
    case Tick(elapsed) => s.(now := s.now + elapsed)
  }

  function RunFrom(s: State, labels: seq<Label>): State {
    if labels == [] then s
    else Step(RunFrom(s, labels[..|labels| - 1]), labels[|labels| - 1])
  }

  function Run(labels: seq<Label>): State {
    RunFrom(INITIAL, labels)
  }

  // ------------------------------------------------------------------ invariant

  /** A queued item carries the count of failed pushes of the call it comes from. */
  ghost predicate QueueOk(s: State) {
    forall x :: x in s.queue ==>
      && s.queue[x] < |s.lives| && x.count < MAX_ATTEMPTS
      && s.lives[s.queue[x]] == Life(x.count, x.count, Waiting)
  }

  ghost predicate HoldOk(lives: seq<Life>, h: Hold) {
    && h.origin < |lives| && h.item.count < MAX_ATTEMPTS
    && if h.ToPush? then lives[h.origin] == Life(h.item.count, h.item.count, Waiting)
       else h.item.count < MAX_ATTEMPTS - 1 && lives[h.origin] == Life(h.item.count + 1, h.item.count + 1, Waiting)
  }

  ghost predicate HoldsOk(s: State) {
    forall w :: w in s.holds ==> HoldOk(s.lives, s.holds[w])
  }

  /** Calls that are over: delivered at the first success, dropped after exactly three failures. */
  ghost predicate LifeOk(l: Life) {
    && l.pushes <= MAX_ATTEMPTS && l.failures <= l.pushes
    && (l.fate == Waiting ==> l.pushes == l.failures < MAX_ATTEMPTS)
    && (l.fate == Delivered ==> l.pushes == l.failures + 1)
    && (l.fate == Dropped ==> l.pushes == l.failures == MAX_ATTEMPTS)
  }

  /** No two queue members or worker hands carry the same call. */
  ghost predicate OneHolder(s: State) {
    && (forall x, y :: x in s.queue && y in s.queue && s.queue[x] == s.queue[y] ==> x == y)
    && (forall v, w :: v in s.holds && w in s.holds && s.holds[v].origin == s.holds[w].origin ==> v == w)
    && (forall x, w :: x in s.queue && w in s.holds ==> s.queue[x] != s.holds[w].origin)
  }

  ghost predicate Held(s: State, k: nat) {
    (exists x :: x in s.queue && s.queue[x] == k) || (exists w :: w in s.holds && s.holds[w].origin == k)
  }

  ghost predicate LivesOk(s: State) {
    forall k :: 0 <= k < |s.lives| ==> LifeOk(s.lives[k])
  }

  /** Every waiting call, except `but`, is queued or in some worker's hands; `but` is nowhere. */
  ghost predicate InvBut(s: State, but: nat) {
    && QueueOk(s) && HoldsOk(s) && LivesOk(s) && OneHolder(s) && !Held(s, but)
    && forall k :: 0 <= k < |s.lives| && s.lives[k].fate == Waiting && k != but ==> Held(s, k)
  }

  ghost predicate Inv(s: State) {
    && QueueOk(s) && HoldsOk(s) && LivesOk(s) && OneHolder(s)
    && forall k :: 0 <= k < |s.lives| && s.lives[k].fate == Waiting ==> Held(s, k)
  }

  /** Taking a member out of the queue leaves its call, and only that, nowhere. */
  lemma RemovalLeavesOut(s: State, x: Item)
    requires Inv(s) && x in s.queue
    ensures InvBut(s.(queue := s.queue - {x}), s.queue[x])
  {
    var s' := s.(queue := s.queue - {x});
    forall k | 0 <= k < |s.lives| && s.lives[k].fate == Waiting && k != s.queue[x] ensures Held(s', k) {
      assert Held(s, k);
      if y :| y in s.queue && s.queue[y] == k {
        assert s'.queue[y] == k;
      }
    }
  }

  lemma ReleaseLeavesOut(s: State, w: int)
    requires Inv(s) && w in s.holds
    ensures InvBut(s.(holds := s.holds - {w}), s.holds[w].origin)
  {
    var s' := s.(holds := s.holds - {w});
    forall k | 0 <= k < |s.lives| && s.lives[k].fate == Waiting && k != s.holds[w].origin ensures Held(s', k) {
      assert Held(s, k);
      if v :| v in s.holds && s.holds[v].origin == k {
        assert s'.holds[v].origin == k;
      }
    }
  }

  /** A call that is nowhere may end ... */
  lemma EndingKeepsInv(s: State, k: nat, life: Life)
    requires InvBut(s, k) && life.fate != Waiting && LifeOk(life)
    ensures Inv(SetLife(s, k, life))
  {
    var s' := SetLife(s, k, life);
    forall x | x in s'.queue ensures s'.lives[s'.queue[x]] == s.lives[s.queue[x]] {
      assert s.queue[x] != k;
    }
    forall w | w in s'.holds ensures HoldOk(s'.lives, s'.holds[w]) {
      assert s.holds[w].origin != k;
    }
    forall j | 0 <= j < |s'.lives| && s'.lives[j].fate == Waiting ensures Held(s', j) {
      assert Held(s, j);
    }
  }

  lemma NewMemberKeepsInv(s: State, x: Item, k: nat)
    requires InvBut(s, k) && k < |s.lives| && x !in s.queue
    requires s.lives[k] == Life(x.count, x.count, Waiting) && x.count < MAX_ATTEMPTS
    ensures Inv(s.(queue := s.queue[x := k]))
  {
    var s' := s.(queue := s.queue[x := k]);
    assert s'.queue[x] == k;
    forall j | 0 <= j < |s'.lives| && s'.lives[j].fate == Waiting && j != k ensures Held(s', j) {
      assert Held(s, j);
      if y :| y in s.queue && s.queue[y] == j {
        assert s'.queue[y] == j;
      }
    }
  }

  /** ... or be queued ... */
  lemma EnqueueKeepsInv(s: State, x: Item, k: nat)
    requires InvBut(s, k) && k < |s.lives|
    requires s.lives[k] == Life(x.count, x.count, Waiting) && x.count < MAX_ATTEMPTS
    ensures Inv(Enqueue(s, x, k))
  {
    if x in s.queue {
      EndingKeepsInv(s, k, s.lives[k].(fate := Merged));
    } else {
      NewMemberKeepsInv(s, x, k);
    }
  }

  /** ... or be handed to a free worker. */
  lemma HandingKeepsInv(s: State, w: int, h: Hold)
    requires InvBut(s, h.origin) && w !in s.holds && HoldOk(s.lives, h)
    ensures Inv(s.(holds := s.holds[w := h]))
  {
    var s' := s.(holds := s.holds[w := h]);
    forall j | 0 <= j < |s'.lives| && s'.lives[j].fate == Waiting ensures Held(s', j) {
      if j == h.origin {
        assert s'.holds[w].origin == j;
      } else {
        assert Held(s, j);
        if v :| v in s.holds && s.holds[v].origin == j {
          assert s'.holds[v].origin == j;
        }
      }
    }
  }

  /** One more failed push of a call that is nowhere. */
  lemma FailureCounts(s: State, k: nat, life: Life)
    requires InvBut(s, k) && k < |s.lives| && LifeOk(life)
    ensures InvBut(SetLife(s, k, life), k)
  {
    var s' := SetLife(s, k, life);
    forall x | x in s'.queue ensures s'.lives[s'.queue[x]] == s.lives[s.queue[x]] {
      assert s.queue[x] != k;
    }
    forall w | w in s'.holds ensures HoldOk(s'.lives, s'.holds[w]) {
      assert s.holds[w].origin != k;
    }
    forall j | 0 <= j < |s'.lives| && s'.lives[j].fate == Waiting && j != k ensures Held(s', j) {
      assert Held(s, j);
    }
    assert Held(s', k) ==> Held(s, k);
  }

  lemma ScheduleKeepsInv(s: State, x: Item)
    requires Inv(s) && x.count == 0
    ensures Inv(Enqueue(s.(lives := s.lives + [Life(0, 0, Waiting)]), x, |s.lives|))
  {
    var s1 := s.(lives := s.lives + [Life(0, 0, Waiting)]);
    forall j | 0 <= j < |s1.lives| && s1.lives[j].fate == Waiting && j != |s.lives| ensures Held(s1, j) {
      assert Held(s, j);
    }
    EnqueueKeepsInv(s1, x, |s.lives|);
  }

  lemma LostScheduleKeepsInv(s: State)
    requires Inv(s)
    ensures Inv(s.(lives := s.lives + [Life(0, 0, Lost)]))
  {
    var s' := s.(lives := s.lives + [Life(0, 0, Lost)]);
    forall k | 0 <= k < |s'.lives| && s'.lives[k].fate == Waiting ensures Held(s', k) {
      assert Held(s, k);
    }
  }

  lemma PushOutcomes(s: State, w: int, x: Item, k: nat, ok: bool)
    requires k < |s.lives| && s.lives[k] == Life(x.count, x.count, Waiting)
    ensures DoPush(s, w, x, k, ok) ==
              if ok then SetLife(s.(holds := s.holds - {w}), k, Life(x.count + 1, x.count, Delivered))
              else if x.count >= MAX_ATTEMPTS - 1 then
                SetLife(s.(holds := s.holds - {w}), k, Life(x.count + 1, x.count + 1, Dropped))
              else SetLife(s, k, Life(x.count + 1, x.count + 1, Waiting)).(holds := s.holds[w := ToRequeue(x, k)])
  {
  }

  lemma LastPushKeepsInv(s: State, w: int, x: Item, k: nat, life: Life)
    requires Inv(s) && w in s.holds && s.holds[w] == ToPush(x, k) && life.fate != Waiting && LifeOk(life)
    ensures Inv(SetLife(s.(holds := s.holds - {w}), k, life))
  {
    ReleaseLeavesOut(s, w);
    EndingKeepsInv(s.(holds := s.holds - {w}), k, life);
  }

  lemma FailedPushKeepsInv(s: State, w: int, x: Item, k: nat)
    requires Inv(s) && w in s.holds && s.holds[w] == ToPush(x, k) && x.count < MAX_ATTEMPTS - 1
    ensures Inv(SetLife(s, k, Life(x.count + 1, x.count + 1, Waiting)).(holds := s.holds[w := ToRequeue(x, k)]))
  {
    var life := Life(x.count + 1, x.count + 1, Waiting);
    var s1 := s.(holds := s.holds - {w});
    assert HoldOk(s.lives, s.holds[w]);
    ReleaseLeavesOut(s, w);
    FailureCounts(s1, k, life);
    HandingKeepsInv(SetLife(s1, k, life), w, ToRequeue(x, k));
    assert (s.holds - {w})[w := ToRequeue(x, k)] == s.holds[w := ToRequeue(x, k)];
    assert SetLife(s1, k, life).(holds := s.holds[w := ToRequeue(x, k)])
        == SetLife(s, k, life).(holds := s.holds[w := ToRequeue(x, k)]);
  }

  lemma PushKeepsInv(s: State, w: int, ok: bool)
    requires Inv(s) && w in s.holds && s.holds[w].ToPush?
    ensures Inv(DoPush(s, w, s.holds[w].item, s.holds[w].origin, ok))
  {
    var x, k := s.holds[w].item, s.holds[w].origin;
    assert HoldOk(s.lives, s.holds[w]);
    PushOutcomes(s, w, x, k, ok);
    if ok {
      LastPushKeepsInv(s, w, x, k, Life(x.count + 1, x.count, Delivered));
    } else if x.count >= MAX_ATTEMPTS - 1 {
      LastPushKeepsInv(s, w, x, k, Life(x.count + 1, x.count + 1, Dropped));
    } else {
      FailedPushKeepsInv(s, w, x, k);
    }
  }

  lemma TakeKeepsInv(s: State, w: int, x: Item)
    requires Inv(s)
    ensures Inv(Step(s, Take(w, x)))
  {
    if w !in s.holds && x in s.queue {
      RemovalLeavesOut(s, x);
      HandingKeepsInv(s.(queue := s.queue - {x}), w, ToPush(x, s.queue[x]));
    }
  }

  lemma LossKeepsInv(s: State, x: Item)
    requires Inv(s)
    ensures Inv(Step(s, TakeReplyLost(x)))
  {
    if x in s.queue {
      RemovalLeavesOut(s, x);
      EndingKeepsInv(s.(queue := s.queue - {x}), s.queue[x], s.lives[s.queue[x]].(fate := Lost));
    }
  }

  lemma TickKeepsInv(s: State, elapsed: nat)
    requires Inv(s)
    ensures Inv(Step(s, Tick(elapsed)))
  {
    assert forall k :: Held(Step(s, Tick(elapsed)), k) == Held(s, k);
  }

  lemma ReleaseKeepsInv(s: State, w: int, now: int)
    requires Inv(s) && w in s.holds
    ensures Inv(WithFate(s.(holds := s.holds - {w}), s.holds[w].origin, Lost))
    ensures s.holds[w].ToRequeue? ==>
              Inv(Enqueue(s.(holds := s.holds - {w}), Again(s.holds[w].item, now), s.holds[w].origin))
  {
    assert HoldOk(s.lives, s.holds[w]);
    ReleaseLeavesOut(s, w);
    var k := s.holds[w].origin;
    EndingKeepsInv(s.(holds := s.holds - {w}), k, s.lives[k].(fate := Lost));
    if s.holds[w].ToRequeue? {
      EnqueueKeepsInv(s.(holds := s.holds - {w}), Again(s.holds[w].item, now), k);
    }
  }

  lemma StepKeepsInv(s: State, l: Label)
    requires Inv(s)
    ensures Inv(Step(s, l))
  {
    match l
    case Schedule(user, msgId, payload, fault) =>
      if fault == Failed(false) {
        LostScheduleKeepsInv(s);
      } else {
        ScheduleKeepsInv(s, First(user, msgId, payload, s.now));
      }
    case Take(w, x) => TakeKeepsInv(s, w, x);
    case TakeReplyLost(x) => LossKeepsInv(s, x);
    case Push(w, ok) =>
      if w in s.holds && s.holds[w].ToPush? {
        PushKeepsInv(s, w, ok);
      }
    case Requeue(w, fault) =>
      if w in s.holds {
        ReleaseKeepsInv(s, w, s.now);
      }
    case Crash(w) =>
      if w in s.holds {
        ReleaseKeepsInv(s, w, s.now);
      }
    case Tick(elapsed) => TickKeepsInv(s, elapsed);
  }

  lemma {:induction false} RunFromKeepsInv(s: State, labels: seq<Label>)
    requires Inv(s)
    ensures Inv(RunFrom(s, labels))
  {
    if labels != [] {
      RunFromKeepsInv(s, labels[..|labels| - 1]);
      StepKeepsInv(RunFrom(s, labels[..|labels| - 1]), labels[|labels| - 1]);
    }
  }

  lemma RunKeepsInv(labels: seq<Label>)
    ensures Inv(Run(labels))
  {
    RunFromKeepsInv(INITIAL, labels);
  }

  // ------------------------------------------------------------------ main results

  /** No call leads to more than three pushes, and no two workers ever act for one call. */
  lemma AtMostThreePushes(labels: seq<Label>)
    ensures forall k :: 0 <= k < |Run(labels).lives| ==> Run(labels).lives[k].pushes <= MAX_ATTEMPTS
    ensures forall v, w :: v in Run(labels).holds && w in Run(labels).holds && v != w ==>
              Run(labels).holds[v].origin != Run(labels).holds[w].origin
  {
    RunKeepsInv(labels);
    assert forall k :: 0 <= k < |Run(labels).lives| ==> LifeOk(Run(labels).lives[k]);
  }

  /** Neither a crash nor a Redis error. */
  predicate Faultless(l: Label) {
    !l.TakeReplyLost? && !l.Crash? && !((l.Requeue? || l.Schedule?) && l.fault == Failed(false))
  }

  lemma FaultlessStep(s: State, l: Label)
    requires Faultless(l) && forall k :: 0 <= k < |s.lives| ==> s.lives[k].fate != Lost
    ensures forall k :: 0 <= k < |Step(s, l).lives| ==> Step(s, l).lives[k].fate != Lost
  {
  }

  lemma {:induction false} FaultlessLosesNothing(labels: seq<Label>)
    requires forall l :: l in labels ==> Faultless(l)
    ensures forall k :: 0 <= k < |Run(labels).lives| ==> Run(labels).lives[k].fate != Lost
  {
    if labels != [] {
      FaultlessLosesNothing(labels[..|labels| - 1]);
      FaultlessStep(Run(labels[..|labels| - 1]), labels[|labels| - 1]);
    }
  }

  /**
   Without crashes and Redis errors, every call is still queued or in a
   worker's hands, or was delivered, or was dropped after exactly three failed
   pushes, or joined an equal queue member.
   */
  lemma EveryCallIsAccountedFor(labels: seq<Label>, k: nat)
    requires forall l :: l in labels ==> Faultless(l)
    requires k < |Run(labels).lives|
    ensures
      var s := Run(labels);
      || Held(s, k)
      || (s.lives[k].fate == Delivered && s.lives[k].pushes == s.lives[k].failures + 1)
      || (s.lives[k].fate == Dropped && s.lives[k].pushes == s.lives[k].failures == MAX_ATTEMPTS)
      || s.lives[k].fate == Merged
  {
    RunKeepsInv(labels);
    FaultlessLosesNothing(labels);
    assert LifeOk(Run(labels).lives[k]);
  }

  function Remaining(l: Life): nat {
    if l.fate == Waiting && l.pushes < MAX_ATTEMPTS then MAX_ATTEMPTS - l.pushes else 0
  }

  /** The pushes that may still come. */
  function Potential(lives: seq<Life>): nat {
    if lives == [] then 0 else Potential(lives[..|lives| - 1]) + Remaining(lives[|lives| - 1])
  }

  lemma {:induction false} PotentialOfUpdate(lives: seq<Life>, k: nat, life: Life)
    requires k < |lives|
    ensures Potential(lives[k := life]) == Potential(lives) - Remaining(lives[k]) + Remaining(life)
  {
    var n := |lives| - 1;
    if k < n {
      PotentialOfUpdate(lives[..n], k, life);
      assert lives[k := life][..n] == lives[..n][k := life];
    } else {
      assert lives[k := life][..n] == lives[..n];
    }
  }

  /** Every push uses up some of what remains, so pushing comes to an end unless more is scheduled. */
  lemma PushLowersPotential(s: State, w: int, ok: bool)
    requires Inv(s) && w in s.holds && s.holds[w].ToPush?
    ensures Potential(Step(s, Push(w, ok)).lives) < Potential(s.lives)
  {
    var x, k := s.holds[w].item, s.holds[w].origin;
    assert HoldOk(s.lives, s.holds[w]);
    PotentialOfUpdate(s.lives, k, Step(s, Push(w, ok)).lives[k]);
    assert Step(s, Push(w, ok)).lives == s.lives[k := Step(s, Push(w, ok)).lives[k]];
  }

  /** A step that touches at most one call, and gives it no more time, adds nothing. */
  lemma OneCallNoMore(lives: seq<Life>, lives': seq<Life>, k: nat)
    requires k < |lives| == |lives'| && lives' == lives[k := lives'[k]] && Remaining(lives'[k]) <= Remaining(lives[k])
    ensures Potential(lives') <= Potential(lives)
  {
    PotentialOfUpdate(lives, k, lives'[k]);
  }

  lemma SchedulingAddsThree(s: State, l: Label)
    requires l.Schedule?
    ensures Potential(Step(s, l).lives) <= Potential(s.lives) + MAX_ATTEMPTS
  {
    var longer := s.lives + [Life(0, 0, Waiting)];
    assert longer[..|s.lives|] == s.lives;
    PotentialOfUpdate(longer, |s.lives|, Life(0, 0, Merged));
  }

  /** Only scheduling adds to it, three at a time. */
  lemma OtherStepsKeepPotential(s: State, l: Label)
    requires Inv(s) && !l.Push?
    ensures Potential(Step(s, l).lives) <= Potential(s.lives) + (if l.Schedule? then MAX_ATTEMPTS else 0)
  {
    if l.Schedule? {
      SchedulingAddsThree(s, l);
    } else if l.Take? || l.TakeReplyLost? {
      if l.item in s.queue {
        OneCallNoMore(s.lives, Step(s, l).lives, s.queue[l.item]);
      }
    } else if (l.Requeue? || l.Crash?) && l.w in s.holds {
      assert HoldOk(s.lives, s.holds[l.w]);
      OneCallNoMore(s.lives, Step(s, l).lives, s.holds[l.w].origin);
    }
  }

  // ------------------------------------------------------------------ every call can come to its end

  /** Delivered, dropped after exactly three failures, or joined to an equal queue member. */
  ghost predicate Ended(s: State, k: nat) {
    k < |s.lives| &&
    var life := s.lives[k];
    || (life.fate == Delivered && life.pushes == life.failures + 1)
    || (life.fate == Dropped && life.pushes == life.failures == MAX_ATTEMPTS)
    || life.fate == Merged
  }

  function WaitFor(s: State, x: Item): nat {
    if x.retryAt > s.now then x.retryAt - s.now else 0
  }

  /** Once the clock has run that long, a free worker can take the item. */
  lemma QueuedBecomesTakeable(s: State, w: int, x: Item)
    requires QueueOk(s) && x in s.queue && w !in s.holds
    ensures
      var due := Step(s, Tick(WaitFor(s, x)));
      Step(due, Take(w, x)) == due.(queue := s.queue - {x}, holds := s.holds[w := ToPush(x, s.queue[x])])
  {
  }

  function Round(s: State, w: int, x: Item, ok: bool): seq<Label> {
    [Tick(WaitFor(s, x)), Take(w, x), Push(w, ok), Requeue(w, NoFault)]
  }

  lemma {:induction false} RunsCompose(s: State, a: seq<Label>, b: seq<Label>)
    ensures RunFrom(s, a + b) == RunFrom(RunFrom(s, a), b)
  {
    if b == [] {
      assert a + b == a;
    } else {
      RunsCompose(s, a, b[..|b| - 1]);
      assert (a + b)[..|a + b| - 1] == a + b[..|b| - 1];
    }
  }

  lemma FourSteps(s: State, a: Label, b: Label, c: Label, d: Label)
    ensures RunFrom(s, [a, b, c, d]) == Step(Step(Step(Step(s, a), b), c), d)
  {
    var ls := [a, b, c, d];
    assert ls[..3][..2] == ls[..2] && ls[..2][..1] == ls[..1] && ls[..1][..0] == [];
    assert RunFrom(s, ls[..1]) == Step(RunFrom(s, ls[..1][..0]), a);
    assert RunFrom(s, ls[..2]) == Step(RunFrom(s, ls[..1]), b);
    assert RunFrom(s, ls[..3]) == Step(RunFrom(s, ls[..2]), c);
  }

  /** After a push of a held item and the requeueing its worker is free, and the call has ended or is queued again. */
  ghost predicate MovedOn(s: State, w: int, x: Item, k: nat, ok: bool) {
    && w !in s.holds && k < |s.lives|
    && if ok then s.lives[k] == Life(x.count + 1, x.count, Delivered)
       else if x.count >= MAX_ATTEMPTS - 1 then s.lives[k] == Life(x.count + 1, x.count + 1, Dropped)
       else s.lives[k].fate == Merged || (Again(x, s.now) in s.queue && s.queue[Again(x, s.now)] == k)
  }

  lemma RequeueMovesOn(s: State, w: int, x: Item, k: nat)
    requires w in s.holds && s.holds[w] == ToRequeue(x, k) && k < |s.lives| && x.count < MAX_ATTEMPTS - 1
    ensures MovedOn(Step(s, Requeue(w, NoFault)), w, x, k, false)
  {
  }

  lemma PushMovesOn(s: State, w: int, x: Item, k: nat, ok: bool)
    requires w in s.holds && s.holds[w] == ToPush(x, k)
    requires k < |s.lives| && s.lives[k] == Life(x.count, x.count, Waiting)
    ensures MovedOn(Step(Step(s, Push(w, ok)), Requeue(w, NoFault)), w, x, k, ok)
  {
    PushOutcomes(s, w, x, k, ok);
    if !ok && x.count < MAX_ATTEMPTS - 1 {
      RequeueMovesOn(Step(s, Push(w, ok)), w, x, k);
    }
  }

  /** One round for a queued call: wait, take, push, requeue. */
  lemma RoundMovesOn(s: State, w: int, x: Item, ok: bool)
    requires QueueOk(s) && x in s.queue && w !in s.holds
    ensures MovedOn(RunFrom(s, Round(s, w, x, ok)), w, x, s.queue[x], ok)
  {
    var k := s.queue[x];
    var due := Step(s, Tick(WaitFor(s, x)));
    QueuedBecomesTakeable(s, w, x);
    PushMovesOn(Step(due, Take(w, x)), w, x, k, ok);
    FourSteps(s, Tick(WaitFor(s, x)), Take(w, x), Push(w, ok), Requeue(w, NoFault));
  }

  /** What the pushes among the labels returned, in order. */
  function PushResults(labels: seq<Label>): seq<bool> {
    if labels == [] then []
    else
      var before, last := PushResults(labels[..|labels| - 1]), labels[|labels| - 1];
      if last.Push? then before + [last.ok] else before
  }

  lemma {:induction false} PushResultsCompose(a: seq<Label>, b: seq<Label>)
    ensures PushResults(a + b) == PushResults(a) + PushResults(b)
  {
    if b == [] {
      assert a + b == a;
    } else {
      PushResultsCompose(a, b[..|b| - 1]);
      assert (a + b)[..|a + b| - 1] == a + b[..|b| - 1];
    }
  }

  lemma RoundPushesOnce(s: State, w: int, x: Item, ok: bool)
    ensures PushResults(Round(s, w, x, ok)) == [ok]
  {
    var ls := Round(s, w, x, ok);
    assert ls[..3][..2] == ls[..2] && ls[..2][..1] == ls[..1] && ls[..1][..0] == [];
    assert PushResults(ls[..1]) == PushResults(ls[..1][..0]) == [];
    assert PushResults(ls[..2]) == PushResults(ls[..1]);
    assert PushResults(ls[..3]) == [] + [ok] == [ok];
  }

  /** A continuation without faults that ends call k, its pushes returning what `oks` says. */
  ghost predicate Ends(s: State, k: nat, oks: seq<bool>, more: seq<Label>) {
    && (forall l :: l in more ==> Faultless(l))
    && PushResults(more) <= oks
    && Ended(RunFrom(s, more), k)
  }

  lemma EndsAfter(s: State, k: nat, first: seq<Label>, ok: seq<bool>, oks: seq<bool>, more: seq<Label>)
    requires (forall l :: l in first ==> Faultless(l)) && PushResults(first) == ok
    requires Ends(RunFrom(s, first), k, oks, more)
    ensures Ends(s, k, ok + oks, first + more)
  {
    RunsCompose(s, first, more);
    PushResultsCompose(first, more);
  }

  lemma EndsAfterPush(s: State, k: nat, first: seq<Label>, oks: seq<bool>, more: seq<Label>)
    requires oks != [] && (forall l :: l in first ==> Faultless(l)) && PushResults(first) == [oks[0]]
    requires Ends(RunFrom(s, first), k, oks[1..], more)
    ensures Ends(s, k, oks, first + more)
  {
    EndsAfter(s, k, first, [oks[0]], oks[1..], more);
    assert oks == [oks[0]] + oks[1..];
  }

  /** A queued call ends within three rounds, whatever the pushes return. */
  lemma {:induction false} QueuedCallEnds(s: State, w: int, x: Item, oks: seq<bool>) returns (more: seq<Label>)
    requires Inv(s) && x in s.queue && w !in s.holds && |oks| >= MAX_ATTEMPTS - x.count
    ensures Ends(s, s.queue[x], oks, more) && |more| <= 4 * (MAX_ATTEMPTS - x.count)
    decreases MAX_ATTEMPTS - x.count, 1
  {
    assert x.count < MAX_ATTEMPTS;
    var k, round := s.queue[x], Round(s, w, x, oks[0]);
    RoundMovesOn(s, w, x, oks[0]);
    RoundPushesOnce(s, w, x, oks[0]);
    RunFromKeepsInv(s, round);
    var rest := MovedOnCallEnds(RunFrom(s, round), w, x, k, oks[0], oks[1..]);
    EndsAfterPush(s, k, round, oks, rest);
    more := round + rest;
  }

  lemma {:induction false} MovedOnCallEnds(s: State, w: int, x: Item, k: nat, ok: bool, oks: seq<bool>)
    returns (more: seq<Label>)
    requires Inv(s) && x.count < MAX_ATTEMPTS && MovedOn(s, w, x, k, ok) && |oks| >= MAX_ATTEMPTS - x.count - 1
    ensures Ends(s, k, oks, more) && |more| <= 4 * (MAX_ATTEMPTS - x.count - 1)
    decreases MAX_ATTEMPTS - x.count, 0
  {
    if ok || x.count == MAX_ATTEMPTS - 1 || s.lives[k].fate == Merged {
      more := [];
    } else {
      more := QueuedCallEnds(s, w, Again(x, s.now), oks);
    }
  }

  lemma TwoSteps(s: State, w: int, ok: bool)
    ensures
      var ls := [Push(w, ok), Requeue(w, NoFault)];
      RunFrom(s, ls) == Step(Step(s, Push(w, ok)), Requeue(w, NoFault)) && PushResults(ls) == [ok]
  {
    var ls := [Push(w, ok), Requeue(w, NoFault)];
    assert ls[..1][..0] == [];
    assert RunFrom(s, ls[..1]) == Step(RunFrom(s, ls[..1][..0]), Push(w, ok));
    assert PushResults(ls[..1]) == [] + [ok] == [ok];
  }

  /** A call held for a push is pushed and requeued by its worker, and then ends or is a queued one. */
  lemma PushedCallEnds(s: State, w: int, x: Item, k: nat, oks: seq<bool>) returns (more: seq<Label>)
    requires Inv(s) && w in s.holds && s.holds[w] == ToPush(x, k) && |oks| >= MAX_ATTEMPTS
    ensures Ends(s, k, oks, more) && |more| <= 2 + 4 * MAX_ATTEMPTS
  {
    assert HoldOk(s.lives, s.holds[w]);
    var first := [Push(w, oks[0]), Requeue(w, NoFault)];
    TwoSteps(s, w, oks[0]);
    PushMovesOn(s, w, x, k, oks[0]);
    RunFromKeepsInv(s, first);
    var rest := MovedOnCallEnds(RunFrom(s, first), w, x, k, oks[0], oks[1..]);
    EndsAfterPush(s, k, first, oks, rest);
    more := first + rest;
  }

  /** A call held after a failed push is requeued by its worker. */
  lemma RequeuedCallEnds(s: State, w: int, x: Item, k: nat, oks: seq<bool>) returns (more: seq<Label>)
    requires Inv(s) && w in s.holds && s.holds[w] == ToRequeue(x, k) && |oks| >= MAX_ATTEMPTS
    ensures Ends(s, k, oks, more) && |more| <= 2 + 4 * MAX_ATTEMPTS
  {
    assert HoldOk(s.lives, s.holds[w]);
    var first := [Requeue(w, NoFault)];
    assert first[..0] == [] && RunFrom(s, first) == Step(RunFrom(s, first[..0]), first[0]);
    RequeueMovesOn(s, w, x, k);
    RunFromKeepsInv(s, first);
    var rest := MovedOnCallEnds(RunFrom(s, first), w, x, k, false, oks);
    EndsAfter(s, k, first, [], oks, rest);
    assert oks == [] + oks;
    more := first + rest;
  }

  lemma HeldCallEnds(s: State, w: int, oks: seq<bool>) returns (more: seq<Label>)
    requires Inv(s) && w in s.holds && |oks| >= MAX_ATTEMPTS
    ensures Ends(s, s.holds[w].origin, oks, more) && |more| <= 2 + 4 * MAX_ATTEMPTS
  {
    match s.holds[w]
    case ToPush(x, k) => more := PushedCallEnds(s, w, x, k, oks);
    case ToRequeue(x, k) => more := RequeuedCallEnds(s, w, x, k, oks);
  }

  /**
   From every reachable state every call still waiting can be brought to its
   end without faults, in at most three more pushes and whatever these return:
   it is delivered, dropped after exactly three failures, or merged.
   */
  lemma WaitingCallEnds(labels: seq<Label>, k: nat, oks: seq<bool>) returns (more: seq<Label>)
    requires k < |Run(labels).lives| && Run(labels).lives[k].fate == Waiting && |oks| == MAX_ATTEMPTS
    ensures Ended(Run(labels + more), k) && PushResults(more) <= oks
    ensures (forall l :: l in more ==> Faultless(l)) && |more| <= 2 + 4 * MAX_ATTEMPTS
  {
    var s := Run(labels);
    RunKeepsInv(labels);
    assert Held(s, k);
    if x :| x in s.queue && s.queue[x] == k {
      var w := FreshInt(s.holds.Keys);
      more := QueuedCallEnds(s, w, x, oks);
    } else {
      var w :| w in s.holds && s.holds[w].origin == k;
      more := HeldCallEnds(s, w, oks);
    }
    RunsCompose(INITIAL, labels, more);
  }

  /** A waiting call is lost exactly by a lost reply to its removal, a failed requeueing or the crash of its worker. */
  lemma LostIff(s: State, l: Label, k: nat)
    requires Inv(s) && k < |s.lives| && s.lives[k].fate == Waiting
    ensures Step(s, l).lives[k].fate == Lost <==>
              match l
              case TakeReplyLost(x) => x in s.queue && s.queue[x] == k
              case Crash(w) => w in s.holds && s.holds[w].origin == k
              case Requeue(w, fault) => fault == Failed(false) && w in s.holds && s.holds[w].ToRequeue? && s.holds[w].origin == k
              case _ => false
  {
    if (l.Crash? || l.Requeue? || l.Push?) && l.w in s.holds {
      assert HoldOk(s.lives, s.holds[l.w]);
    }
  }

  /** A scheduled push is queued under its own call and due after the base delay, finds an equal member, or is lost. */
  lemma ScheduledIsQueued(s: State, user: UserId, msgId: nat, payload: string, fault: Fault)
    ensures
      var s', x := Step(s, Schedule(user, msgId, payload, fault)), Item(user, msgId, payload, 0, s.now + 5);
      && s'.queue.Keys == s.queue.Keys + (if fault == Failed(false) then {} else {x}) && |s'.lives| == |s.lives| + 1
      && (s'.lives[|s.lives|].fate ==
            if fault == Failed(false) then Lost else if x in s.queue then Merged else Waiting)
      && (fault != Failed(false) && x !in s.queue ==> s'.queue[x] == |s.lives|)
  {
    BackoffIsCapped(0);
  }

  /** A worker gets a member exactly if it is free, the member is queued and its time has come. */
  lemma TakenIff(s: State, w: int, x: Item)
    requires QueueOk(s)
    ensures Step(s, Take(w, x)) != s <==> w !in s.holds && x in s.queue && x.retryAt <= s.now
    ensures Step(s, Take(w, x)) != s ==>
              Step(s, Take(w, x)) == s.(queue := s.queue - {x}, holds := s.holds[w := ToPush(x, s.queue[x])])
  {
    if w !in s.holds && x in s.queue && x.retryAt <= s.now {
      assert w in Step(s, Take(w, x)).holds;
    }
  }

  /** After a first failure the same push is queued again for ten seconds later, after a second for twenty. */
  lemma RequeuedLater(s: State, w: int, x: Item, k: nat)
    requires w in s.holds && s.holds[w] == ToRequeue(x, k) && HoldOk(s.lives, s.holds[w])
    ensures
      var s' := Step(s, Requeue(w, NoFault));
      s'.queue.Keys ==
        s.queue.Keys + {Item(x.user, x.msgId, x.payload, x.count + 1, s.now + if x.count == 0 then 10 else 20)}
  {
    BackoffIsCapped(x.count + 1);
  }

  /** The scheduling calls among the labels, in order. */
  function SchedulesOf(labels: seq<Label>): seq<Label> {
    if labels == [] then []
    else
      var before, last := SchedulesOf(labels[..|labels| - 1]), labels[|labels| - 1];
      if last.Schedule? then before + [last] else before
  }

  /** Item `x` carries what call `k` wanted pushed. */
  ghost predicate Carries(calls: seq<Label>, k: nat, x: Item) {
    && k < |calls| && calls[k].Schedule?
    && x.user == calls[k].user && x.msgId == calls[k].msgId && x.payload == calls[k].payload
  }

  ghost predicate CarriesAll(s: State, calls: seq<Label>) {
    && |s.lives| == |calls|
    && (forall x :: x in s.queue ==> Carries(calls, s.queue[x], x))
    && (forall w :: w in s.holds ==> Carries(calls, s.holds[w].origin, s.holds[w].item))
  }

  lemma StepCarriesOn(s: State, l: Label, calls: seq<Label>)
    requires CarriesAll(s, calls)
    ensures CarriesAll(Step(s, l), if l.Schedule? then calls + [l] else calls)
  {
    var calls' := if l.Schedule? then calls + [l] else calls;
    assert forall k: nat, x :: Carries(calls, k, x) ==> Carries(calls', k, x);
  }

  /** In every run each queued or held item is for the user, message and payload of the call it comes from, however often requeued. */
  lemma {:induction false} PayloadIsKept(labels: seq<Label>)
    ensures CarriesAll(Run(labels), SchedulesOf(labels))
  {
    if labels != [] {
      PayloadIsKept(labels[..|labels| - 1]);
      StepCarriesOn(Run(labels[..|labels| - 1]), labels[|labels| - 1], SchedulesOf(labels[..|labels| - 1]));
    }
  }

  /** A worker that is not disturbed takes, pushes and requeues as ProcessRetryTask does on the members. */
  lemma UndisturbedTask(s: State, w: int, x: Item, ok: bool)
    requires QueueOk(s) && w !in s.holds && x in s.queue && x.retryAt <= s.now
    ensures
      var s' := Step(Step(Step(s, Take(w, x)), Push(w, ok)), Requeue(w, NoFault));
      && s'.holds == s.holds
      && s'.queue.Keys == s.queue.Keys - {x}
                          + (if !ok && x.count < 2
                             then {Item(x.user, x.msgId, x.payload, x.count + 1, s.now + if x.count == 0 then 10 else 20)}
                             else {})
  {
    var k := s.queue[x];
    assert s.lives[k] == Life(x.count, x.count, Waiting);
    var taken := Step(s, Take(w, x));
    assert taken == s.(queue := s.queue - {x}, holds := s.holds[w := ToPush(x, k)]);
    BackoffIsCapped(x.count + 1);
    var pushed := Step(taken, Push(w, ok));
    assert pushed.queue == s.queue - {x};
    assert taken.holds - {w} == s.holds && taken.holds[w := ToRequeue(x, k)] - {w} == s.holds;
  }

  // ------------------------------------------------------------------ the queue

  /** The members added for these users, the command for each going as `faults` says. */
  function FirstRetries(users: seq<UserId>, msgId: nat, payload: string, now: int, faults: seq<Fault>): set<Item>
    requires |faults| == |users|
  {
    if users == [] then {}
    else
      var n := |users| - 1;
      FirstRetries(users[..n], msgId, payload, now, faults[..n])
      + if faults[n] == Failed(false) then {} else {First(users[n], msgId, payload, now)}
  }

  /** A user is missing exactly if every command for that user failed before it took effect. */
  lemma {:induction false} FirstRetriesMembers(users: seq<UserId>, msgId: nat, payload: string, now: int,
                                               faults: seq<Fault>, u: UserId)
    requires |faults| == |users|
    ensures Item(u, msgId, payload, 0, now + 5) in FirstRetries(users, msgId, payload, now, faults) <==>
              exists i :: 0 <= i < |users| && users[i] == u && faults[i] != Failed(false)
    ensures forall x :: x in FirstRetries(users, msgId, payload, now, faults) ==>
              x == Item(x.user, msgId, payload, 0, now + 5)
  {
    BackoffIsCapped(0);
    if users != [] {
      var n := |users| - 1;
      FirstRetriesMembers(users[..n], msgId, payload, now, faults[..n], u);
    }
  }

  class PushRetryQueue {
    var members: set<Item>

    constructor ()
      ensures members == {}
    {
      members := {};
    }

    /** The member is added unless the command failed before it took effect. */
    method ScheduleRetry(user: UserId, msgId: nat, payload: string, now: int, fault: Fault) returns (ok: bool)
      modifies this
      ensures members == old(members) + (if fault == Failed(false) then {} else {Item(user, msgId, payload, 0, now + 5)})
      ensures ok <==> fault == NoFault
    {
      BackoffIsCapped(0);
      if fault != Failed(false) {
        members := members + {Item(user, msgId, payload, 0, now + Backoff(0))};
      }
      ok := fault == NoFault;
    }

    /** handleFailedPushes: every user that was not reached is scheduled, also after another one could not be. */
    method HandleFailedPushes(users: seq<UserId>, msgId: nat, payload: string, now: int, faults: seq<Fault>)
      requires |faults| == |users|
      modifies this
      ensures members == old(members) + FirstRetries(users, msgId, payload, now, faults)
    {
      assert users[..|users|] == users && faults[..|users|] == faults;
      for i := 0 to |users|
        invariant members == old(members) + FirstRetries(users[..i], msgId, payload, now, faults[..i])
      {
        assert users[..i + 1][..i] == users[..i] && faults[..i + 1][..i] == faults[..i];
        var ok := ScheduleRetry(users[i], msgId, payload, now, faults[i]);
      }
    }

    /** True for the one caller whose ZREM removed the member. */
    method RemoveRetryItem(x: Item) returns (removed: bool)
      modifies this
      ensures members == old(members) - {x} && (removed <==> x in old(members))
    {
      removed := x in members;
      members := members - {x};
    }

    method RequeueIfNeeded(x: Item, now: int)
      modifies this
      ensures
        var later := Item(x.user, x.msgId, x.payload, x.count + 1, now + if x.count == 0 then 10 else 20);
        members == old(members) + (if x.count < 2 then {later} else {})
    {
      BackoffIsCapped(x.count + 1);
      if x.count >= MAX_ATTEMPTS - 1 {
        return;
      }
      members := members + {x.(count := x.count + 1, retryAt := now + Backoff(x.count + 1))};
    }

    /**
     A due member that was fetched: only if this call removes it is it pushed,
     and it comes back, with a higher count and a later time, exactly when the
     push failed for less than the third time.
     */
    method ProcessRetryTask(x: Item, ok: bool, now: int) returns (pushed: bool)
      modifies this
      ensures pushed <==> x in old(members) && x.count < 3
      ensures
        var later := Item(x.user, x.msgId, x.payload, x.count + 1, now + if x.count == 0 then 10 else 20);
        members == old(members) - {x} + (if pushed && !ok && x.count < 2 then {later} else {})
    {
      pushed := false;
      var mine := RemoveRetryItem(x);
      if !mine {
        return;
      }
      if x.count >= MAX_ATTEMPTS {
        return;
      }
      pushed := true;
      if !ok {
        RequeueIfNeeded(x, now);
      }
    }
  }
}
