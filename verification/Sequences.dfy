/**
 Topic sequence numbers. Every worker process keeps, per topic, a range of
 numbers it fetched from one shared Redis counter; restarts forget the range
 and increments may fail before or after the counter moved.
 */
module Sequences {
  import opened Domain

  const BATCH_SIZE: nat := 100
  const INT64_MAX: nat := 0x7FFF_FFFF_FFFF_FFFF

  /** Cached numbers `next..max`; `next == 0` marks a range that was never filled. */
  datatype Range = Range(next: nat, max: nat) {
    predicate HasNumber() {
      0 < next <= max
    }
  }

  type Counters = map<Topic, nat>
  type Ranges = map<Topic, Range>
  type GeneratorId = int

  function Counter(c: Counters, t: Topic): nat {
    if t in c then c[t] else 0
  }

  function RangeFor(rs: Ranges, t: Topic): Range {
    if t in rs then rs[t] else Range(0, 0)
  }

  /** INCRBY: the counter after adding `n`; Redis refuses to pass the 64-bit bound. */
  function IncrBy(c: Counters, t: Topic, n: nat, fault: Fault): (Counters, Option<nat>) {
    var sum := Counter(c, t) + n;
    if sum > INT64_MAX then (c, None)
    else match fault
      case NoFault => (c[t := sum], Some(sum))
      case Failed(applied) => (if applied then c[t := sum] else c, None)
  }

  datatype Allocation = Allocation(counters: Counters, ranges: Ranges, number: Option<nat>)

  /** NextSeq: serve from the cached range, otherwise fetch a new one. */
  function Allocate(c: Counters, rs: Ranges, t: Topic, fault: Fault): Allocation {
    var r := RangeFor(rs, t);
    if r.HasNumber() then
      Allocation(c, rs[t := Range(r.next + 1, r.max)], Some(r.next))
    else
      var (c', end) := IncrBy(c, t, BATCH_SIZE, fault);
      if end.None? then Allocation(c', rs[t := r], None)
      else
        var first := c'[t] - BATCH_SIZE + 1;
        Allocation(c', rs[t := Range(first + 1, c'[t])], Some(first))
  }

  /** The consecutive numbers `first, first + 1, ...` of a batch. */
  function Consecutive(first: nat, count: nat): (ns: seq<nat>)
    ensures |ns| == count
    ensures forall i :: 0 <= i < count ==> ns[i] == first + i
  {
    seq(count, i => first + i)
  }

  /** NextSeqBatch: a whole block straight from the counter. */
  function AllocateBatch(c: Counters, t: Topic, count: int, fault: Fault): (Counters, Option<seq<nat>>) {
    if count <= 0 then (c, Some([]))
    else
      var (c', end) := IncrBy(c, t, count, fault);
      if end.None? then (c', None) else (c', Some(Consecutive(end.value - count + 1, count)))
  }

  /** One number handed out by a generator, by NextSeq (`single`) or as part of a batch. */
  datatype Issue = Issue(gen: GeneratorId, topic: Topic, number: nat, single: bool)

  datatype State = State(counters: Counters, gens: map<GeneratorId, Ranges>, log: seq<Issue>)

  datatype Label =
    | Next(gen: GeneratorId, topic: Topic, fault: Fault)
    | Batch(gen: GeneratorId, topic: Topic, count: int, fault: Fault)
    | Restart(gen: GeneratorId)

  const INITIAL := State(map[], map[], [])

  function RangesOf(s: State, g: GeneratorId): Ranges {
    if g in s.gens then s.gens[g] else map[]
  }

  function Held(s: State, g: GeneratorId, t: Topic): Range {
    RangeFor(RangesOf(s, g), t)
  }

  function AfterNext(s: State, g: GeneratorId, t: Topic, fault: Fault): State {
    var a := Allocate(s.counters, RangesOf(s, g), t, fault);
    State(a.counters, s.gens[g := a.ranges],
          if a.number.Some? then s.log + [Issue(g, t, a.number.value, true)] else s.log)
  }

  function AfterBatch(s: State, g: GeneratorId, t: Topic, count: int, fault: Fault): State {
    var (c', ns) := AllocateBatch(s.counters, t, count, fault);
    if ns.None? then s.(counters := c')
    else
      State(c', s.gens,
            s.log + seq(|ns.value|, i requires 0 <= i < |ns.value| => Issue(g, t, ns.value[i], false)))
  }

  function Step(s: State, l: Label): State {
    match l
    case Next(g, t, fault) => AfterNext(s, g, t, fault)
    case Batch(g, t, count, fault) => AfterBatch(s, g, t, count, fault)
    case Restart(g) => s.(gens := s.gens[g := map[]])
  }

  function Run(labels: seq<Label>): State {
    if labels == [] then INITIAL
    else Step(Run(labels[..|labels| - 1]), labels[|labels| - 1])
  }

  /** A batch that succeeds issues exactly the numbers after the counter, as many as asked for; one that fails issues none. */
  lemma BatchTakesBlock(s: State, g: GeneratorId, t: Topic, count: nat, fault: Fault)
    requires count > 0
    ensures
      var s', c := Step(s, Batch(g, t, count, fault)), Counter(s.counters, t);
      if fault == NoFault && c + count <= INT64_MAX
      then && Counter(s'.counters, t) == c + count && |s'.log| == |s.log| + count && s.log <= s'.log
           && (forall i :: |s.log| <= i < |s'.log| ==> s'.log[i] == Issue(g, t, c + 1 + i - |s.log|, false))
           && s'.gens == s.gens
      else s'.log == s.log && s'.gens == s.gens
  {
  }

  // ---------------------------------------------------------------- invariant

  ghost predicate LogInRange(s: State) {
    forall i :: 0 <= i < |s.log| ==> 1 <= s.log[i].number <= Counter(s.counters, s.log[i].topic)
  }

  /** No number of a topic is issued twice, by whichever generators and calls. */
  ghost predicate LogDistinct(s: State) {
    forall i, j :: 0 <= i < j < |s.log| && s.log[i].topic == s.log[j].topic
                   ==> s.log[i].number != s.log[j].number
  }

  /** What one generator's NextSeq returns for a topic only grows. */
  ghost predicate LogIncreasing(s: State) {
    forall i, j :: 0 <= i < j < |s.log| && s.log[i].topic == s.log[j].topic
                   && s.log[i].gen == s.log[j].gen && s.log[i].single && s.log[j].single
                   ==> s.log[i].number < s.log[j].number
  }

  ghost predicate HeldInRange(s: State) {
    forall g, t :: Held(s, g, t).HasNumber() ==> Held(s, g, t).max <= Counter(s.counters, t)
  }

  ghost predicate HeldUnissued(s: State) {
    forall g, t, i :: Held(s, g, t).HasNumber() && 0 <= i < |s.log| && s.log[i].topic == t
                      ==> !(Held(s, g, t).next <= s.log[i].number <= Held(s, g, t).max)
  }

  ghost predicate HeldDisjoint(s: State) {
    forall g, h, t :: g != h && Held(s, g, t).HasNumber() && Held(s, h, t).HasNumber()
                      ==> Held(s, g, t).max < Held(s, h, t).next || Held(s, h, t).max < Held(s, g, t).next
  }

  ghost predicate HeldAhead(s: State) {
    forall g, t, i :: Held(s, g, t).HasNumber() && 0 <= i < |s.log|
                      && s.log[i].topic == t && s.log[i].gen == g && s.log[i].single
                      ==> s.log[i].number < Held(s, g, t).next
  }

  ghost predicate Inv(s: State) {
    && LogInRange(s) && LogDistinct(s) && LogIncreasing(s)
    && HeldInRange(s) && HeldUnissued(s) && HeldDisjoint(s) && HeldAhead(s)
  }

  predicate Issued(s: State, t: Topic, n: nat) {
    exists i :: 0 <= i < |s.log| && s.log[i].topic == t && s.log[i].number == n
  }

  /** `s'` holds the same ranges and the same log; only counters moved up. */
  ghost predicate OnlyCountersGrew(s: State, s': State) {
    && s'.log == s.log
    && (forall g, t :: Held(s', g, t) == Held(s, g, t))
    && (forall t :: Counter(s.counters, t) <= Counter(s'.counters, t))
  }

  lemma GrowthKeepsInv(s: State, s': State)
    requires Inv(s) && OnlyCountersGrew(s, s')
    ensures Inv(s')
  {
  }

  /** Fetching: the counter moves by `n` and generator `g`, which held nothing, holds the new block. */
  ghost predicate Fetched(s: State, g: GeneratorId, t: Topic, n: nat, s': State) {
    && s'.log == s.log
    && (forall h, u :: (h, u) != (g, t) ==> Held(s', h, u) == Held(s, h, u))
    && (forall u :: u != t ==> Counter(s'.counters, u) == Counter(s.counters, u))
    && Counter(s'.counters, t) == Counter(s.counters, t) + n
    && Held(s', g, t) == Range(Counter(s.counters, t) + 1, Counter(s'.counters, t))
  }

  lemma FetchedBlockIsNew(s: State, g: GeneratorId, t: Topic, n: nat, s': State)
    requires LogInRange(s) && HeldInRange(s) && HeldUnissued(s) && HeldDisjoint(s) && Fetched(s, g, t, n, s')
    ensures HeldInRange(s') && HeldUnissued(s') && HeldDisjoint(s')
  {
  }

  lemma FetchStaysAhead(s: State, g: GeneratorId, t: Topic, n: nat, s': State)
    requires LogInRange(s) && HeldAhead(s) && Fetched(s, g, t, n, s')
    ensures HeldAhead(s')
  {
  }

  lemma FetchKeepsInv(s: State, g: GeneratorId, t: Topic, n: nat, s': State)
    requires Inv(s) && Fetched(s, g, t, n, s')
    ensures Inv(s')
  {
    FetchedBlockIsNew(s, g, t, n, s');
    FetchStaysAhead(s, g, t, n, s');
  }

  /** Serving: generator `g` issues the first number of the range it holds. */
  ghost predicate Served(s: State, g: GeneratorId, t: Topic, s': State) {
    var r := Held(s, g, t);
    && r.HasNumber()
    && s'.log == s.log + [Issue(g, t, r.next, true)]
    && (forall h, u :: (h, u) != (g, t) ==> Held(s', h, u) == Held(s, h, u))
    && s'.counters == s.counters
    && Held(s', g, t) == Range(r.next + 1, r.max)
  }

  lemma ServeLeavesHeldUnissued(s: State, g: GeneratorId, t: Topic, s': State)
    requires HeldUnissued(s) && HeldDisjoint(s) && Served(s, g, t, s')
    ensures HeldUnissued(s')
  {
    forall h, u, i | Held(s', h, u).HasNumber() && 0 <= i < |s'.log| && s'.log[i].topic == u
      ensures !(Held(s', h, u).next <= s'.log[i].number <= Held(s', h, u).max)
    {
      assert Held(s, h, u).HasNumber();
      assert i < |s.log| ==> s'.log[i] == s.log[i];
    }
  }

  lemma ServeStaysAhead(s: State, g: GeneratorId, t: Topic, s': State)
    requires HeldAhead(s) && Served(s, g, t, s')
    ensures HeldAhead(s')
  {
    forall h, u, i | Held(s', h, u).HasNumber() && 0 <= i < |s'.log|
                     && s'.log[i].topic == u && s'.log[i].gen == h && s'.log[i].single
      ensures s'.log[i].number < Held(s', h, u).next
    {
      assert Held(s, h, u).HasNumber();
      assert i < |s.log| ==> s'.log[i] == s.log[i];
    }
  }

  lemma ServeKeepsInv(s: State, g: GeneratorId, t: Topic, s': State)
    requires Inv(s) && Served(s, g, t, s')
    ensures Inv(s')
    ensures !Issued(s, t, Held(s, g, t).next)
  {
    var n := |s.log|;
    assert forall i :: 0 <= i < n ==> s'.log[i] == s.log[i];
    assert LogInRange(s') && LogDistinct(s') && LogIncreasing(s');
    assert HeldInRange(s') && HeldDisjoint(s');
    assert HeldUnissued(s') by { ServeLeavesHeldUnissued(s, g, t, s'); }
    assert HeldAhead(s') by { ServeStaysAhead(s, g, t, s'); }
  }

  /** The state between the fetch and the issue of a NextSeq call that had to go to Redis. */
  ghost function Refilled(s: State, g: GeneratorId, t: Topic): State {
    var sum := Counter(s.counters, t) + BATCH_SIZE;
    State(s.counters[t := sum],
          s.gens[g := RangesOf(s, g)[t := Range(sum - BATCH_SIZE + 1, sum)]],
          s.log)
  }

  /** A NextSeq call serves from the range it holds, serves from a range it fetches, or moves only the counter. */
  lemma NextServesOrFails(s: State, g: GeneratorId, t: Topic, fault: Fault)
    ensures
      var s' := AfterNext(s, g, t, fault);
      var number := Allocate(s.counters, RangesOf(s, g), t, fault).number;
      if Held(s, g, t).HasNumber() then Served(s, g, t, s') && number == Some(Held(s, g, t).next)
      else if number.Some? then
        && Fetched(s, g, t, BATCH_SIZE, Refilled(s, g, t))
        && Served(Refilled(s, g, t), g, t, s') && number == Some(Held(Refilled(s, g, t), g, t).next)
      else OnlyCountersGrew(s, s')
  {
  }

  lemma NextKeepsInv(s: State, g: GeneratorId, t: Topic, fault: Fault)
    requires Inv(s)
    ensures Inv(AfterNext(s, g, t, fault))
    ensures
      var a := Allocate(s.counters, RangesOf(s, g), t, fault);
      a.number.Some? ==> 1 <= a.number.value && !Issued(s, t, a.number.value)
  {
    var s' := AfterNext(s, g, t, fault);
    NextServesOrFails(s, g, t, fault);
    if Held(s, g, t).HasNumber() {
      ServeKeepsInv(s, g, t, s');
    } else if Allocate(s.counters, RangesOf(s, g), t, fault).number.Some? {
      FetchKeepsInv(s, g, t, BATCH_SIZE, Refilled(s, g, t));
      ServeKeepsInv(Refilled(s, g, t), g, t, s');
    } else {
      GrowthKeepsInv(s, s');
    }
  }

  lemma AppendedBlockKeepsInv(s: State, s': State, g: GeneratorId, t: Topic, count: nat)
    requires Inv(s)
    requires s.log <= s'.log && |s'.log| == |s.log| + count
    requires forall i :: |s.log| <= i < |s'.log| ==>
               s'.log[i] == Issue(g, t, Counter(s.counters, t) + 1 + i - |s.log|, false)
    requires forall h, u :: Held(s', h, u) == Held(s, h, u)
    requires forall u :: u != t ==> Counter(s'.counters, u) == Counter(s.counters, u)
    requires Counter(s'.counters, t) == Counter(s.counters, t) + count
    ensures Inv(s')
  {
    assert forall i :: 0 <= i < |s.log| ==> s'.log[i] == s.log[i];
  }

  lemma BatchKeepsInv(s: State, g: GeneratorId, t: Topic, count: int, fault: Fault)
    requires Inv(s)
    ensures Inv(AfterBatch(s, g, t, count, fault))
  {
    var s' := AfterBatch(s, g, t, count, fault);
    if |s'.log| == |s.log| {
      assert OnlyCountersGrew(s, s');
      GrowthKeepsInv(s, s');
    } else {
      var base := Counter(s.counters, t);
      assert forall i :: |s.log| <= i < |s'.log| ==> s'.log[i] == Issue(g, t, base + 1 + i - |s.log|, false);
      assert forall h, u :: Held(s', h, u) == Held(s, h, u);
      AppendedBlockKeepsInv(s, s', g, t, count);
    }
  }

  lemma RestartKeepsInv(s: State, g: GeneratorId)
    requires Inv(s)
    ensures Inv(Step(s, Restart(g)))
  {
    var s' := Step(s, Restart(g));
    assert forall h, u :: Held(s', h, u) == if h == g then Range(0, 0) else Held(s, h, u);
  }

  lemma StepKeepsInv(s: State, l: Label)
    requires Inv(s)
    ensures Inv(Step(s, l))
  {
    match l
    case Next(g, t, fault) => NextKeepsInv(s, g, t, fault);
    case Batch(g, t, count, fault) => BatchKeepsInv(s, g, t, count, fault);
    case Restart(g) => RestartKeepsInv(s, g);
  }

  /**
   Over every run of any number of generators, with restarts and failed
   increments anywhere: numbers are positive and bounded by the counter, never
   issued twice, and grow along each generator.
   */
  lemma {:induction false} RunIsSafe(labels: seq<Label>)
    ensures Inv(Run(labels))
    ensures LogInRange(Run(labels)) && LogDistinct(Run(labels)) && LogIncreasing(Run(labels))
  {
    if labels != [] {
      RunIsSafe(labels[..|labels| - 1]);
      StepKeepsInv(Run(labels[..|labels| - 1]), labels[|labels| - 1]);
    }
  }

  lemma IssuedStays(s: State, l: Label, t: Topic, n: nat)
    requires Issued(s, t, n)
    ensures Issued(Step(s, l), t, n)
  {
    var i :| 0 <= i < |s.log| && s.log[i].topic == t && s.log[i].number == n;
    assert Step(s, l).log[i] == s.log[i];
  }

  /** A number returned by NextSeq had never been issued for its topic. */
  lemma NumberIsFresh(s: State, g: GeneratorId, t: Topic, fault: Fault)
    requires Inv(s)
    requires Allocate(s.counters, RangesOf(s, g), t, fault).number.Some?
    ensures
      var n := Allocate(s.counters, RangesOf(s, g), t, fault).number.value;
      var s' := AfterNext(s, g, t, fault);
      && 1 <= n
      && !Issued(s, t, n) && Issued(s', t, n)
  {
    NextKeepsInv(s, g, t, fault);
    var n := Allocate(s.counters, RangesOf(s, g), t, fault).number.value;
    var s' := AfterNext(s, g, t, fault);
    assert s'.log[|s.log|] == Issue(g, t, n, true);
  }

  // ------------------------------------------------------------ the generator

  /** The counter keys in Redis, shared by all generators. */
  class SharedCounter {
    var counters: Counters

    constructor ()
      ensures counters == INITIAL.counters
    {
      counters := map[];
    }

    method Increment(t: Topic, n: nat, fault: Fault) returns (end: Option<nat>)
      modifies this
      ensures (counters, end) == IncrBy(old(counters), t, n, fault)
    {
      var sum := Counter(counters, t) + n;
      if sum > INT64_MAX {
        return None;
      }
      match fault {
        case NoFault =>
          counters := counters[t := sum];
          end := Some(sum);
        case Failed(applied) =>
          if applied {
            counters := counters[t := sum];
          }
          end := None;
      }
    }
  }

  class SeqGenerator {
    var ranges: Ranges

    constructor ()
      ensures ranges == map[]
    {
      ranges := map[];
    }

    /** Takes the step `Next` of the run semantics on this generator and the shared counter. */
    method NextSeq(redis: SharedCounter, t: Topic, fault: Fault) returns (number: Option<nat>)
      modifies this, redis
      ensures Allocation(redis.counters, ranges, number)
           == Allocate(old(redis.counters), old(ranges), t, fault)
    {
      var r := RangeFor(ranges, t);
      ranges := ranges[t := r];
      if 0 < r.next && r.next <= r.max {
        number := Some(r.next);
        ranges := ranges[t := Range(r.next + 1, r.max)];
        return;
      }
      var end := redis.Increment(t, BATCH_SIZE, fault);
      if end.None? {
        return None;
      }
      var first := end.value - BATCH_SIZE + 1;
      number := Some(first);
      ranges := ranges[t := Range(first + 1, end.value)];
    }

    /** Takes the step `Batch` on the shared counter. */
    method NextSeqBatch(redis: SharedCounter, t: Topic, count: int, fault: Fault)
      returns (numbers: Option<seq<nat>>)
      modifies redis
      ensures (redis.counters, numbers) == AllocateBatch(old(redis.counters), t, count, fault)
    {
      if count <= 0 {
        return Some([]);
      }
      var end := redis.Increment(t, count, fault);
      if end.None? {
        return None;
      }
      var first := end.value - count + 1;
      var ns: seq<nat> := [];
      for i := 0 to count
        invariant |ns| == i
        invariant forall k :: 0 <= k < i ==> ns[k] == first + k
      {
        ns := ns + [first + i];
      }
      assert ns == Consecutive(first, count);
      numbers := Some(ns);
    }
  }
}
