/** The receipt batcher: collects send receipts per user and pushes them in one routed batch. */
module Receipts {
  import opened Domain
  import opened Routing

  type Pending = map<UserId, seq<nat>>

  function ReceiptsOf(pending: Pending, u: UserId): seq<nat> {
    if u in pending then pending[u] else []
  }

  /** The list holds exactly the pending receipts, each as often as it is pending. */
  ghost predicate Lists(items: seq<Receipt>, pending: Pending) {
    forall x :: multiset(items)[x] == multiset(ReceiptsOf(pending, x.user))[x.id]
  }

  lemma ListingsAgree(a: seq<Receipt>, b: seq<Receipt>, pending: Pending)
    requires Lists(a, pending) && Lists(b, pending)
    ensures multiset(a) == multiset(b) && |a| == |b|
  {
    assert forall x :: multiset(a)[x] == multiset(b)[x];
    assert |multiset(a)| == |a| && |multiset(b)| == |b|;
  }

  method AppendReceipts(items: seq<Receipt>, u: UserId, ids: seq<nat>) returns (longer: seq<Receipt>)
    ensures forall x :: multiset(longer)[x] == multiset(items)[x] + (if x.user == u then multiset(ids)[x.id] else 0)
  {
    longer := items;
    for i := 0 to |ids|
      invariant forall x :: multiset(longer)[x] ==
                  multiset(items)[x] + (if x.user == u then multiset(ids[..i])[x.id] else 0)
    {
      assert ids[..i + 1] == ids[..i] + [ids[i]];
      longer := longer + [Receipt(u, ids[i])];
    }
    assert ids[..|ids|] == ids;
  }

  method Flatten(pending: Pending) returns (items: seq<Receipt>)
    ensures Lists(items, pending)
  {
    items := [];
    var rest := pending.Items;
    while rest != {}
      invariant rest <= pending.Items
      invariant forall x: Receipt :: multiset(items)[x] ==
                  if (x.user, ReceiptsOf(pending, x.user)) in rest then 0
                  else multiset(ReceiptsOf(pending, x.user))[x.id]
      decreases rest
    {
      var entry :| entry in rest;
      assert entry.1 == ReceiptsOf(pending, entry.0);
      items := AppendReceipts(items, entry.0, entry.1);
      rest := rest - {entry};
    }
  }

  class ReceiptBatcher {
    const batchSize: nat
    var pending: Pending

    constructor (batchSize: int)
      ensures pending == map[] && this.batchSize == (if batchSize <= 0 then 32 else batchSize)
    {
      this.batchSize := if batchSize <= 0 then 32 else batchSize;
      pending := map[];
    }

    /** Add: `full` tells the caller to flush. A missing receipt is ignored. */
    method Add(u: UserId, receipt: Option<nat>) returns (full: bool)
      modifies this
      ensures receipt.None? ==> pending == old(pending) && !full
      ensures receipt.Some? ==> pending == old(pending)[u := ReceiptsOf(old(pending), u) + [receipt.value]]
      ensures receipt.Some? ==> forall items :: Lists(items, pending) ==> (full <==> |items| >= batchSize)
    {
      if receipt.None? {
        return false;
      }
      pending := pending[u := ReceiptsOf(pending, u) + [receipt.value]];
      var items := Flatten(pending);
      full := |items| >= batchSize;
      forall other | Lists(other, pending)
        ensures |other| == |items|
      {
        ListingsAgree(items, other, pending);
      }
    }

    /**
     Flush: everything pending is taken and sent to the gateways that host its
     user by the router's cache and Redis; a receipt is pushed on its own again
     exactly if there is no such gateway or one of them got nothing through.
     */
    method Flush(router: GatewayRouter, w: World)
      returns (items: seq<Receipt>, retried: seq<Receipt>, sent: map<string, seq<Receipt>>)
      modifies this, router
      ensures pending == map[] && Lists(items, old(pending))
      ensures forall x :: x in retried <==> x in items && Fails(old(router.cache), w, x.user)
      ensures SentToHosts(old(router.cache), w, items, sent)
      ensures forall x :: x in items && x !in retried ==>
                exists n :: n in sent && x in sent[n] && Delivered(w.reach, n, x.user) > 0
    {
      items := Flatten(pending);
      pending := map[];
      retried, sent := [], map[];
      if |items| == 0 {
        return;
      }
      retried, sent := PushReceipts(router, items, w);
    }
  }
}
