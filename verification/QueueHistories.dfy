/** The broker's queue holds what was published and is with no worker. */
module QueueHistories {
  import opened Prelude
  import opened Decimal
  import opened Protocol
  import opened Invariants
  import Conservation
  import opened Histories
  import opened PairHistories
  import opened WorkerHistories

  lemma PublishedIs(cfg: Config, acts: seq<Action>, d: Delivery)
    requires cfg.Valid() && Run(cfg, acts).Some?
    ensures PublishedAs(acts, d) <==> d in Bag(Run(cfg, acts).value.pairs, PublishedBag)
  {
    var s := Run(cfg, acts).value;
    BagMember(s.pairs, PublishedBag, d);
    PairCount(cfg, acts);
    if PublishedAs(acts, d) {
      var i, k := d.id.pair, d.id.k;
      HandedByGenerator(cfg, acts, i);
      PairHistory(cfg, acts, i);
      PairsOf(cfg, acts, i);
      assert s.pairs[i].published[k] == d;
      assert d in PublishedBag(s.pairs[i]);
    }
    if i: nat :| i < |s.pairs| && d in PublishedBag(s.pairs[i]) {
      PairHistory(cfg, acts, i);
      PairsOf(cfg, acts, i);
      assert d in s.pairs[i].published;
    }
  }

  /** Nothing is handed over by a generator that was not deployed. */
  lemma {:induction false} HandedByGenerator(cfg: Config, acts: seq<Action>, i: nat)
    requires cfg.Valid() && Run(cfg, acts).Some? && Handed(acts, i) != []
    ensures IsGenerator(cfg, i)
  {
    var h, a := acts[..|acts| - 1], acts[|acts| - 1];
    assert acts == h + [a];
    RunLast(cfg, Init(cfg), h, a);
    if Handed(h, i) != [] {
      HandedByGenerator(cfg, h, i);
    } else {
      MorePair(h, a, i);
      Sizes(cfg, h);
    }
  }

  lemma {:induction false} ArrivedAtWorker(cfg: Config, acts: seq<Action>, w: nat)
    requires cfg.Valid() && Run(cfg, acts).Some? && Arrived(acts, w) != []
    ensures IsWorker(cfg, w)
  {
    var h, a := acts[..|acts| - 1], acts[|acts| - 1];
    assert acts == h + [a];
    RunLast(cfg, Init(cfg), h, a);
    if Arrived(h, w) != [] {
      ArrivedAtWorker(cfg, h, w);
    } else {
      MoreWorker(h, a, w);
      Sizes(cfg, h);
    }
  }

  lemma {:induction false} TagsHold(ds: seq<Delivery>, from: nat, d: Delivery)
    requires from <= |ds|
    ensures d in Untagged(Tags(ds, from)) <==> d in ds[from..]
    decreases |ds| - from
  {
    if from < |ds| {
      TagsFirst(ds, from);
      TagsHold(ds, from + 1, d);
      assert Tags(ds, from)[1..] == Tags(ds, from + 1) && ds[from..] == [ds[from]] + ds[from + 1..];
    }
  }

  /** What worker `w` keeps from the queue is on its channel or acknowledged. */
  lemma TakenIs(cfg: Config, acts: seq<Action>, w: nat, d: Delivery)
    requires cfg.Valid() && Run(cfg, acts).Some? && IsWorker(cfg, w)
    ensures w < |Run(cfg, acts).value.workers|
    ensures var v := Run(cfg, acts).value.workers[w];
      d in TakenBy(acts, w) <==> d in UnackedBag(v) || d in AckedBag(v)
  {
    WorkerHistory(cfg, acts, w);
    FitTaken(Run(cfg, acts).value.workers[w], FactsOf(acts, w), TakenBy(acts, w), d);
  }

  lemma TakenSplits(arrived: seq<Delivery>, acked: nat, closed: bool, d: Delivery)
    requires acked <= |arrived|
    ensures d in (if closed then arrived[..acked] else arrived) <==>
            d in Untagged(if closed then [] else Tags(arrived, acked)) || d in arrived[..acked]
  {
    TagsHold(arrived, acked, d);
    assert arrived == arrived[..acked] + arrived[acked..];
  }

  lemma FitTaken(v: Worker, f: Facts, taken: seq<Delivery>, d: Delivery)
    requires ChannelIs(v, f) && taken == if f.closed && f.acked <= |f.arrived| then f.arrived[..f.acked] else f.arrived
    ensures d in taken <==> d in UnackedBag(v) || d in AckedBag(v)
  {
    TakenSplits(f.arrived, f.acked, f.closed, d);
  }

  lemma NobodyHas(cfg: Config, acts: seq<Action>, d: Delivery)
    requires cfg.Valid() && Run(cfg, acts).Some?
    ensures var s := Run(cfg, acts).value;
      NobodyTook(acts, d) <==> d !in Bag(s.workers, UnackedBag) && d !in Bag(s.workers, AckedBag)
  {
    var s := Run(cfg, acts).value;
    BagMember(s.workers, UnackedBag, d);
    BagMember(s.workers, AckedBag, d);
    PairCount(cfg, acts);
    if w: nat :| d in TakenBy(acts, w) {
      assert Arrived(acts, w) != [];
      ArrivedAtWorker(cfg, acts, w);
      TakenIs(cfg, acts, w, d);
    }
    if w: nat :| w < |s.workers| && (d in UnackedBag(s.workers[w]) || d in AckedBag(s.workers[w])) {
      TakenIs(cfg, acts, w, d);
    }
  }

  lemma OnceAtBroker(cfg: Config, acts: seq<Action>, d: Delivery)
    requires cfg.Valid() && Run(cfg, acts).Some?
    ensures var s := Run(cfg, acts).value;
      d in s.ready <==>
        (d in Bag(s.pairs, PublishedBag) && d !in Bag(s.workers, UnackedBag) && d !in Bag(s.workers, AckedBag))
  {
    RunInv(cfg, acts);
    var s := Run(cfg, acts).value;
    Conservation.PublishedOnce(s.pairs, d);
    assert Bag(s.pairs, PublishedBag)[d] == s.ready[d] + Bag(s.workers, UnackedBag)[d] + Bag(s.workers, AckedBag)[d];
  }

  lemma QueueIs(cfg: Config, acts: seq<Action>, d: Delivery)
    requires cfg.Valid() && Run(cfg, acts).Some?
    ensures d in Run(cfg, acts).value.ready <==> Queued(acts, d)
  {
    PublishedIs(cfg, acts, d);
    NobodyHas(cfg, acts, d);
    OnceAtBroker(cfg, acts, d);
  }

  lemma EmptyIs(cfg: Config, acts: seq<Action>)
    requires cfg.Valid() && Run(cfg, acts).Some?
    ensures Run(cfg, acts).value.ready == multiset{} <==> QueueEmpty(acts)
  {
    var ready := Run(cfg, acts).value.ready;
    forall d
      ensures d in ready <==> Queued(acts, d)
    {
      QueueIs(cfg, acts, d);
    }
    if ready != multiset{} {
      var d :| d in ready;
      assert Queued(acts, d);
    }
  }
}
