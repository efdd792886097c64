/**
 Delivering one message to many users: the gateway's worker pool, which cuts
 the user list into chunks and may be cancelled at any point, and the fan-out
 of the whole list over several gateways.
 */
module PushPool {
  import opened Domain

  /** What one user's turn in the pool produced: how many devices got the message. */
  datatype Result = Result(user: UserId, delivered: nat)

  function Total(rs: seq<Result>): nat {
    if rs == [] then 0 else Total(rs[..|rs| - 1]) + rs[|rs| - 1].delivered
  }

  function Failures(rs: seq<Result>): seq<UserId> {
    if rs == [] then []
    else
      var before, last := Failures(rs[..|rs| - 1]), rs[|rs| - 1];
      if last.delivered == 0 then before + [last.user] else before
  }

  lemma {:induction false} FailuresMembers(rs: seq<Result>, u: UserId)
    ensures u in Failures(rs) <==> Result(u, 0) in rs
  {
    if rs != [] {
      FailuresMembers(rs[..|rs| - 1], u);
      assert rs == rs[..|rs| - 1] + [rs[|rs| - 1]];
    }
  }

  function Failure(r: Result): multiset<UserId> {
    if r.delivered == 0 then multiset{r.user} else multiset{}
  }

  lemma OneMore(rs: seq<Result>, r: Result)
    ensures Total(rs + [r]) == Total(rs) + r.delivered
    ensures multiset(Failures(rs + [r])) == multiset(Failures(rs)) + Failure(r)
  {
    assert (rs + [r])[..|rs|] == rs;
  }

  /** Taking one result out changes total and failures by exactly that result. */
  lemma {:induction false} TakeOut(rs: seq<Result>, i: nat)
    requires i < |rs|
    ensures
      var rest := rs[..i] + rs[i + 1..];
      && Total(rs) == Total(rest) + rs[i].delivered
      && multiset(Failures(rs)) == multiset(Failures(rest)) + Failure(rs[i])
  {
    var n := |rs| - 1;
    var short, last := rs[..n], rs[n];
    assert rs == short + [last];
    OneMore(short, last);
    if i < n {
      var shorter := short[..i] + short[i + 1..];
      TakeOut(short, i);
      OneMore(shorter, last);
      assert rs[..i] + rs[i + 1..] == shorter + [last];
    } else {
      assert rs[..i] + rs[i + 1..] == short;
    }
  }

  lemma Matching(rs: seq<Result>, qs: seq<Result>) returns (i: nat)
    requires rs != [] && multiset(rs) == multiset(qs)
    ensures i < |qs| && qs[i] == rs[|rs| - 1]
    ensures multiset(rs[..|rs| - 1]) == multiset(qs[..i] + qs[i + 1..])
  {
    var last := rs[|rs| - 1];
    assert rs == rs[..|rs| - 1] + [last];
    assert last in multiset(qs);
    i :| 0 <= i < |qs| && qs[i] == last;
    assert qs == qs[..i] + [qs[i]] + qs[i + 1..];
    assert multiset(rs[..|rs| - 1]) == multiset(rs) - multiset{last};
    assert multiset(qs[..i] + qs[i + 1..]) == multiset(qs) - multiset{last};
  }

  /** The order in which workers' results arrive does not matter. */
  lemma {:induction false} ArrivalOrderIsIrrelevant(rs: seq<Result>, qs: seq<Result>)
    requires multiset(rs) == multiset(qs)
    ensures Total(rs) == Total(qs)
    ensures multiset(Failures(rs)) == multiset(Failures(qs))
    decreases |rs|
  {
    assert |multiset(rs)| == |rs| && |multiset(qs)| == |qs|;
    if rs != [] {
      var i := Matching(rs, qs);
      TakeOut(qs, i);
      ArrivalOrderIsIrrelevant(rs[..|rs| - 1], qs[..i] + qs[i + 1..]);
    }
  }

  // ------------------------------------------------------------------ the pool

  /** The results of a batch, one per position of the user list. */
  function Results(ids: seq<UserId>, delivered: seq<nat>): seq<Result>
    requires |ids| == |delivered|
  {
    seq(|ids|, p requires 0 <= p < |ids| => Result(ids[p], delivered[p]))
  }

  function ChunkSize(n: nat, workers: nat): nat
    requires workers > 0
  {
    (n + workers - 1) / workers
  }

  lemma CeilingCovers(n: nat, workers: nat)
    requires workers > 0
    ensures workers * ChunkSize(n, workers) >= n
    ensures n > 0 ==> workers * (ChunkSize(n, workers) - 1) < n
    ensures n > 0 ==> ChunkSize(n, workers) > 0
  {
    var q := ChunkSize(n, workers);
    assert q * workers + (n + workers - 1) % workers == n + workers - 1;
    assert workers * (q - 1) == q * workers - workers;
  }

  /**
   One worker over its chunk: sends user by user until it sees the
   cancellation, from where on it reports the rest of the chunk as failed.
   `sent` is what a send to each position would deliver.
   */
  method RunChunk(ids: seq<UserId>, sent: seq<nat>, start: nat, end: nat, cancelAt: nat)
    returns (delivered: seq<nat>)
    requires |ids| == |sent| && start <= end <= |ids|
    ensures |delivered| == end - start
    ensures forall k :: 0 <= k < end - start ==> delivered[k] == if k < cancelAt then sent[start + k] else 0
  {
    delivered := [];
    var idx := 0;
    while idx < end - start
      invariant 0 <= idx <= end - start && |delivered| == idx && (idx <= cancelAt || idx == end - start)
      invariant forall k :: 0 <= k < idx ==> delivered[k] == if k < cancelAt then sent[start + k] else 0
    {
      if idx == cancelAt {
        delivered := delivered + seq(end - start - idx, _ => 0);
        idx := end - start;
      } else {
        delivered := delivered + [sent[start + idx]];
        idx := idx + 1;
      }
    }
  }

  /** The outcome of position `p`: chunk `p / chunk` got it if it was not cancelled before. */
  function Outcome(sent: seq<nat>, chunk: nat, cancelAt: seq<nat>, p: nat): nat
    requires p < |sent| && chunk > 0
  {
    if p / chunk < |cancelAt| && cancelAt[p / chunk] <= p % chunk then 0 else sent[p]
  }

  lemma ProductsKeepOrder(a: nat, b: nat, d: nat)
    requires a <= b
    ensures a * d <= b * d && a * d == (a - 1) * d + d
  {
  }

  lemma ChunkPosition(chunk: nat, i: nat, k: nat)
    requires k < chunk
    ensures (i * chunk + k) / chunk == i && (i * chunk + k) % chunk == k
  {
    var p := i * chunk + k;
    var q, r := p / chunk, p % chunk;
    assert p == q * chunk + r;
    if q < i {
      ProductsKeepOrder(q + 1, i, chunk);
    } else if q > i {
      ProductsKeepOrder(i + 1, q, chunk);
    }
  }

  lemma NextChunk(i: nat, chunk: nat)
    ensures (i + 1) * chunk == i * chunk + chunk
  {
  }

  /** The results of one chunk are the outcomes of its positions. */
  lemma ChunkOutcomes(sent: seq<nat>, chunk: nat, cancelAt: seq<nat>, i: nat, part: seq<nat>)
    requires chunk > 0 && |part| <= chunk && i * chunk + |part| <= |sent|
    requires forall k :: 0 <= k < |part| ==>
               part[k] == if i < |cancelAt| && cancelAt[i] <= k then 0 else sent[i * chunk + k]
    ensures forall p :: i * chunk <= p < i * chunk + |part| ==> part[p - i * chunk] == Outcome(sent, chunk, cancelAt, p)
  {
    forall p | i * chunk <= p < i * chunk + |part| ensures part[p - i * chunk] == Outcome(sent, chunk, cancelAt, p) {
      ChunkPosition(chunk, i, p - i * chunk);
    }
  }

  /**
   batchPushConcurrent: for every batch, number of workers and cancellation
   points, each position of the list gets exactly one outcome: its own
   delivery, or zero from where its worker saw the cancellation.
   */
  method BatchPush(ids: seq<UserId>, sent: seq<nat>, workers: nat, cancelAt: seq<nat>)
    returns (delivered: seq<nat>, chunk: nat)
    requires ids != [] && |sent| == |ids| && workers > 0
    ensures |delivered| == |ids|
    ensures chunk == ChunkSize(|ids|, if |ids| < workers then |ids| else workers) > 0
    ensures var count := if |ids| < workers then |ids| else workers; count * (chunk - 1) < |ids| <= count * chunk
    ensures forall p :: 0 <= p < |ids| ==> delivered[p] == Outcome(sent, chunk, cancelAt, p)
  {
    var count := if |ids| < workers then |ids| else workers;
    chunk := ChunkSize(|ids|, count);
    CeilingCovers(|ids|, count);
    delivered := [];
    var i, start := 0, 0;
    while i < count && start < |ids|
      invariant 0 <= i <= count && start == i * chunk && chunk > 0
      invariant |delivered| == if start < |ids| then start else |ids|
      invariant forall p :: 0 <= p < |delivered| ==> delivered[p] == Outcome(sent, chunk, cancelAt, p)
      decreases count - i
    {
      var end := if start + chunk > |ids| then |ids| else start + chunk;
      var part := RunChunk(ids, sent, start, end, if i < |cancelAt| then cancelAt[i] else end - start);
      ChunkOutcomes(sent, chunk, cancelAt, i, part);
      NextChunk(i, chunk);
      delivered := delivered + part;
      i, start := i + 1, start + chunk;
    }
  }

  /** The collecting loop, on whatever order the results arrive in. */
  method Collect(arrived: seq<Result>) returns (total: nat, failed: seq<UserId>)
    ensures total == Total(arrived) && failed == Failures(arrived)
  {
    total, failed := 0, [];
    for i := 0 to |arrived|
      invariant total == Total(arrived[..i]) && failed == Failures(arrived[..i])
    {
      assert arrived[..i + 1][..i] == arrived[..i];
      if arrived[i].delivered == 0 {
        failed := failed + [arrived[i].user];
      }
      total := total + arrived[i].delivered;
    }
    assert arrived[..|arrived|] == arrived;
  }

  ghost predicate FailedAt(ids: seq<UserId>, delivered: seq<nat>, u: UserId)
    requires |ids| == |delivered|
  {
    exists p :: 0 <= p < |ids| && ids[p] == u && delivered[p] == 0
  }

  /** Whatever the arrival order, a user is reported failed exactly if some turn of theirs delivered nothing. */
  lemma PoolFailures(ids: seq<UserId>, delivered: seq<nat>, arrived: seq<Result>, u: UserId)
    requires |ids| == |delivered| && multiset(arrived) == multiset(Results(ids, delivered))
    ensures u in Failures(arrived) <==> FailedAt(ids, delivered, u)
    ensures |arrived| == |ids|
  {
    var rs := Results(ids, delivered);
    assert |multiset(arrived)| == |arrived| && |multiset(rs)| == |rs|;
    FailuresMembers(arrived, u);
    assert Result(u, 0) in arrived <==> Result(u, 0) in multiset(arrived);
    assert Result(u, 0) in rs <==> Result(u, 0) in multiset(rs);
    if FailedAt(ids, delivered, u) {
      var p :| 0 <= p < |ids| && ids[p] == u && delivered[p] == 0;
      assert rs[p] == Result(u, 0);
    }
  }

  function Outcomes(sent: seq<nat>, chunk: nat, cancelAt: seq<nat>): (delivered: seq<nat>)
    requires chunk > 0
    ensures |delivered| == |sent| && forall p :: 0 <= p < |sent| ==> delivered[p] == Outcome(sent, chunk, cancelAt, p)
  {
    seq(|sent|, p requires 0 <= p < |sent| => Outcome(sent, chunk, cancelAt, p))
  }

  /**
   The whole pool, the results arriving in any order: the total is the sum of
   the outcomes, and a user is reported failed once for each of their positions
   whose outcome is zero.
   */
  method BatchPushConcurrent(ids: seq<UserId>, sent: seq<nat>, workers: nat, cancelAt: seq<nat>,
                             arrive: seq<Result> -> seq<Result>)
    returns (total: nat, failed: seq<UserId>)
    requires ids != [] && |sent| == |ids| && workers > 0
    requires forall rs :: multiset(arrive(rs)) == multiset(rs)
    ensures
      var chunk := ChunkSize(|ids|, if |ids| < workers then |ids| else workers);
      && chunk > 0
      && total == Total(Results(ids, Outcomes(sent, chunk, cancelAt)))
      && multiset(failed) == multiset(Failures(Results(ids, Outcomes(sent, chunk, cancelAt))))
      && forall u :: u in failed <==> FailedAt(ids, Outcomes(sent, chunk, cancelAt), u)
  {
    var delivered, chunk := BatchPush(ids, sent, workers, cancelAt);
    assert delivered == Outcomes(sent, chunk, cancelAt);
    var rs := Results(ids, delivered);
    total, failed := Collect(arrive(rs));
    ArrivalOrderIsIrrelevant(arrive(rs), rs);
    forall u ensures u in failed <==> FailedAt(ids, delivered, u) {
      PoolFailures(ids, delivered, arrive(rs), u);
    }
  }

  // ------------------------------------------------------------------ the fan-out

  /** A gateway's reply to the batch. */
  datatype Reply = Unreachable | Answered(total: nat, failed: seq<UserId>)

  /** All gateways failed this user. */
  predicate Hopeless(replies: seq<Reply>, u: UserId) {
    forall g :: 0 <= g < |replies| ==> replies[g].Unreachable? || u in replies[g].failed
  }

  /** Gateways report only users they were asked for. */
  ghost predicate WithinBatch(ids: seq<UserId>, replies: seq<Reply>) {
    forall g, u :: 0 <= g < |replies| && replies[g].Answered? && u in replies[g].failed ==> u in ids
  }

  /** Devices reached over all gateways that answered. */
  function Reached(replies: seq<Reply>): nat {
    if replies == [] then 0
    else
      var last := replies[|replies| - 1];
      Reached(replies[..|replies| - 1]) + if last.Answered? then last.total else 0
  }

  function Keep(ids: seq<UserId>, replies: seq<Reply>): seq<UserId> {
    if ids == [] then []
    else
      var before, last := Keep(ids[..|ids| - 1], replies), ids[|ids| - 1];
      if Hopeless(replies, last) then before + [last] else before
  }

  lemma {:induction false} KeepMembers(ids: seq<UserId>, replies: seq<Reply>, u: UserId)
    ensures u in Keep(ids, replies) <==> u in ids && Hopeless(replies, u)
  {
    if ids != [] {
      KeepMembers(ids[..|ids| - 1], replies, u);
      assert ids == ids[..|ids| - 1] + [ids[|ids| - 1]];
    }
  }

  method MarkSuccess(ids: seq<UserId>, failedHere: seq<UserId>, success: set<UserId>) returns (marked: set<UserId>)
    ensures marked == success + (set u | u in ids && u !in failedHere)
  {
    marked := success;
    for i := 0 to |ids|
      invariant marked == success + (set u | u in ids[..i] && u !in failedHere)
    {
      assert ids[..i + 1] == ids[..i] + [ids[i]];
      if ids[i] !in failedHere {
        marked := marked + {ids[i]};
      }
    }
    assert ids[..|ids|] == ids;
  }

  /** batchPushStatic: the whole list goes to every gateway; a user fails only if every gateway failed them. */
  method BatchPushStatic(ids: seq<UserId>, replies: seq<Reply>)
    returns (total: nat, failed: seq<UserId>, error: bool)
    ensures error <==> replies == [] || (|replies| == 1 && replies[0].Unreachable?)
    ensures error ==> failed == ids
    ensures total == Reached(replies)
    ensures |replies| > 1 ==> failed == Keep(ids, replies)
    ensures WithinBatch(ids, replies) ==> forall u :: u in failed <==> u in ids && Hopeless(replies, u)
  {
    forall u ensures u in Keep(ids, replies) <==> u in ids && Hopeless(replies, u) {
      KeepMembers(ids, replies, u);
    }
    if |replies| == 0 {
      return 0, ids, true;
    }
    if |replies| == 1 {
      assert replies[..0] == [];
      if replies[0].Unreachable? {
        return 0, ids, true;
      }
      return replies[0].total, replies[0].failed, false;
    }
    total, error := 0, false;
    var success: set<UserId> := {};
    for g := 0 to |replies|
      invariant total == Reached(replies[..g])
      invariant forall u :: u in ids ==> (u in success <==> !Hopeless(replies[..g], u))
    {
      assert replies[..g + 1][..g] == replies[..g];
      assert forall u :: Hopeless(replies[..g + 1], u) <==>
               Hopeless(replies[..g], u) && (replies[g].Unreachable? || u in replies[g].failed) by {
        assert replies[..g + 1] == replies[..g] + [replies[g]];
      }
      if replies[g].Unreachable? {
        continue;
      }
      total := total + replies[g].total;
      success := MarkSuccess(ids, replies[g].failed, success);
    }
    assert replies[..|replies|] == replies;
    failed := [];
    for i := 0 to |ids|
      invariant failed == Keep(ids[..i], replies)
    {
      assert ids[..i + 1][..i] == ids[..i];
      if ids[i] !in success {
        failed := failed + [ids[i]];
      }
    }
    assert ids[..|ids|] == ids;
  }

  /** What happened at one gateway: unreachable, or the deliveries of its pool, per position of the list. */
  datatype Gateway = Down | Up(delivered: seq<nat>)

  /** The reply is the one the gateway's pool gives, in some arrival order. */
  ghost predicate Replies(ids: seq<UserId>, g: Gateway, r: Reply) {
    match g
    case Down => r.Unreachable?
    case Up(delivered) =>
      |delivered| == |ids| && r.Answered? &&
      exists arrived :: multiset(arrived) == multiset(Results(ids, delivered))
                        && r == Answered(Total(arrived), Failures(arrived))
  }

  /** The devices of position `p` that some gateway delivered to. */
  function DevicesAt(gateways: seq<Gateway>, p: nat): nat {
    if gateways == [] then 0
    else
      var last := gateways[|gateways| - 1];
      DevicesAt(gateways[..|gateways| - 1], p) + if last.Up? && p < |last.delivered| then last.delivered[p] else 0
  }

  function DevicesUpTo(gateways: seq<Gateway>, n: nat): nat {
    if n == 0 then 0 else DevicesUpTo(gateways, n - 1) + DevicesAt(gateways, n - 1)
  }

  lemma {:induction false} SamePrefix(a: seq<Gateway>, b: seq<Gateway>, n: nat)
    requires |a| == |b| && |a| > 0 && a[..|a| - 1] == b[..|b| - 1]
    requires
      var x, y := a[|a| - 1], b[|b| - 1];
      x.Up? && y.Up? && n <= |x.delivered| && n <= |y.delivered| && x.delivered[..n] == y.delivered[..n]
    ensures DevicesUpTo(a, n) == DevicesUpTo(b, n)
  {
    if n > 0 {
      var x, y := a[|a| - 1], b[|b| - 1];
      assert x.delivered[..n][..n - 1] == x.delivered[..n - 1] && y.delivered[..n][..n - 1] == y.delivered[..n - 1];
      SamePrefix(a, b, n - 1);
      assert x.delivered[..n][n - 1] == y.delivered[..n][n - 1];
    }
  }

  lemma {:induction false} OneGatewayMore(gateways: seq<Gateway>, g: Gateway, ids: seq<UserId>)
    requires g.Up? ==> |g.delivered| == |ids|
    ensures DevicesUpTo(gateways + [g], |ids|) ==
              DevicesUpTo(gateways, |ids|) + if g.Up? then Total(Results(ids, g.delivered)) else 0
    decreases |ids|
  {
    var n := |ids| - 1;
    if n >= 0 {
      assert (gateways + [g])[..|gateways|] == gateways;
      if g.Up? {
        var short := Up(g.delivered[..n]);
        SamePrefix(gateways + [g], gateways + [short], n);
        OneGatewayMore(gateways, short, ids[..n]);
        assert Results(ids, g.delivered)[..n] == Results(ids[..n], g.delivered[..n]);
      } else {
        OneGatewayMore(gateways, g, ids[..n]);
      }
    }
  }

  lemma {:induction false} NoDevices(n: nat)
    ensures DevicesUpTo([], n) == 0
  {
    if n > 0 {
      NoDevices(n - 1);
    }
  }

  /** The total over the gateways is the number of devices reached, summed user by user. */
  lemma {:induction false} ReachedIsEverybodysDevices(ids: seq<UserId>, gateways: seq<Gateway>, replies: seq<Reply>)
    requires |gateways| == |replies|
    requires forall g :: 0 <= g < |gateways| ==> Replies(ids, gateways[g], replies[g])
    ensures Reached(replies) == DevicesUpTo(gateways, |ids|)
  {
    var n := |gateways| - 1;
    if n < 0 {
      NoDevices(|ids|);
    } else {
      ReachedIsEverybodysDevices(ids, gateways[..n], replies[..n]);
      assert gateways == gateways[..n] + [gateways[n]];
      assert Replies(ids, gateways[n], replies[n]);
      OneGatewayMore(gateways[..n], gateways[n], ids);
      if gateways[n].Up? {
        var arrived :| multiset(arrived) == multiset(Results(ids, gateways[n].delivered))
                       && replies[n] == Answered(Total(arrived), Failures(arrived));
        ArrivalOrderIsIrrelevant(arrived, Results(ids, gateways[n].delivered));
      }
    }
  }

  /** A pool reports no one it was not asked for. */
  lemma PoolStaysWithinBatch(ids: seq<UserId>, gateways: seq<Gateway>, replies: seq<Reply>)
    requires |gateways| == |replies|
    requires forall g :: 0 <= g < |gateways| ==> Replies(ids, gateways[g], replies[g])
    ensures WithinBatch(ids, replies)
  {
    forall g, u | 0 <= g < |replies| && replies[g].Answered? && u in replies[g].failed ensures u in ids {
      assert Replies(ids, gateways[g], replies[g]);
      var delivered := gateways[g].delivered;
      var arrived :| multiset(arrived) == multiset(Results(ids, delivered))
                     && replies[g] == Answered(Total(arrived), Failures(arrived));
      PoolFailures(ids, delivered, arrived, u);
    }
  }

  /**
   Pool and fan-out together: with distinct users, the pusher reports a user
   failed exactly when every gateway was unreachable or delivered to no device
   of that user.
   */
  lemma FanOutIsExact(ids: seq<UserId>, gateways: seq<Gateway>, replies: seq<Reply>, failed: seq<UserId>, p: nat)
    requires p < |ids| && forall i, j :: 0 <= i < j < |ids| ==> ids[i] != ids[j]
    requires |gateways| == |replies|
    requires forall g :: 0 <= g < |gateways| ==> Replies(ids, gateways[g], replies[g])
    requires WithinBatch(ids, replies) ==> forall u :: u in failed <==> u in ids && Hopeless(replies, u)
    ensures ids[p] in failed <==>
              forall g :: 0 <= g < |gateways| ==>
                gateways[g].Down? || (p < |gateways[g].delivered| && gateways[g].delivered[p] == 0)
  {
    PoolStaysWithinBatch(ids, gateways, replies);
    forall g | 0 <= g < |gateways|
      ensures (replies[g].Unreachable? || ids[p] in replies[g].failed)
         <==> (gateways[g].Down? || (p < |gateways[g].delivered| && gateways[g].delivered[p] == 0))
    {
      assert Replies(ids, gateways[g], replies[g]);
      if gateways[g].Up? {
        var delivered := gateways[g].delivered;
        var arrived :| multiset(arrived) == multiset(Results(ids, delivered))
                       && replies[g] == Answered(Total(arrived), Failures(arrived));
        PoolFailures(ids, delivered, arrived, ids[p]);
      }
    }
  }
}
