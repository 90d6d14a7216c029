/** Every message is in exactly one place, and every acknowledged message has its row. */
module Conservation {
  import opened Prelude
  import opened Decimal
  import opened Protocol
  import opened Invariants

  datatype Place = HeldByProducer | DroppedAtExit | InQueue | OnChannel(w: nat) | AckedBy(w: nat)

  /** Whether the `k`-th message that pair `i` took over is at `place`. */
  ghost predicate At(s: State, i: nat, k: nat, place: Place)
    requires i < |s.pairs|
  {
    var id := MsgId(i, k);
    match place
    case HeldByProducer => s.pairs[i].held.Some? && k + 1 == |s.pairs[i].taken|
    case DroppedAtExit => s.pairs[i].dropped.Some? && k + 1 == |s.pairs[i].taken|
    case InQueue => exists d :: d in s.ready && d.id == id
    case OnChannel(w) => w < |s.workers| && exists d :: d in UnackedBag(s.workers[w]) && d.id == id
    case AckedBy(w) => w < |s.workers| && exists d :: d in AckedBag(s.workers[w]) && d.id == id
  }

  /** The three bags a published delivery can be in. */
  ghost function Everywhere(s: State): multiset<Delivery> {
    s.ready + Bag(s.workers, UnackedBag) + Bag(s.workers, AckedBag)
  }

  /** A delivery found anywhere was published by the pair its id names, at the position its id names. */
  lemma Origin(s: State, d: Delivery)
    requires PairsInv(s) && BrokerInv(s) && d in Everywhere(s)
    ensures d.id.pair < |s.pairs| && d.id.k < |s.pairs[d.id.pair].published|
    ensures d == s.pairs[d.id.pair].published[d.id.k]
  {
    BagMember(s.pairs, PublishedBag, d);
    var i :| 0 <= i < |s.pairs| && d in PublishedBag(s.pairs[i]);
    assert PairInv(i, s.pairs[i]);
    assert d in s.pairs[i].published;
  }

  lemma {:induction false} DistinctOnce<T>(s: seq<T>, x: T)
    requires NoDup(s)
    ensures multiset(s)[x] <= 1
  {
    if s != [] {
      var n := |s| - 1;
      assert s == s[..n] + [s[n]];
      DistinctOnce(s[..n], x);
      if x == s[n] {
        assert x !in s[..n];
      }
    }
  }

  /** The broker never multiplies a message: across queue, channels and acknowledgements it counts once. */
  lemma {:induction false} PublishedOnce(pairs: seq<Pair>, d: Delivery)
    requires forall i :: 0 <= i < |pairs| ==> PairInv(i, pairs[i])
    ensures Bag(pairs, PublishedBag)[d] <= 1
    ensures d in Bag(pairs, PublishedBag) ==> d.id.pair < |pairs|
  {
    if pairs != [] {
      var n := |pairs| - 1;
      var q := pairs[n];
      assert PairInv(n, q);
      forall i | 0 <= i < n
        ensures PairInv(i, pairs[..n][i])
      {
        assert PairInv(i, pairs[i]);
      }
      PublishedOnce(pairs[..n], d);
      assert NoDup(q.published);
      DistinctOnce(q.published, d);
      assert d in PublishedBag(q) ==> d in q.published;
    }
  }

  lemma BagOf(s: State, d: Delivery, w: nat)
    requires w < |s.workers|
    ensures d in UnackedBag(s.workers[w]) ==> d in Bag(s.workers, UnackedBag)
    ensures d in AckedBag(s.workers[w]) ==> d in Bag(s.workers, AckedBag)
  {
    BagMember(s.workers, UnackedBag, d);
    BagMember(s.workers, AckedBag, d);
  }

  /** The place of a published message is where its one delivery is. */
  lemma PlaceOfPublished(s: State, i: nat, k: nat, place: Place)
    requires PairsInv(s) && BrokerInv(s) && i < |s.pairs| && k < |s.pairs[i].published|
    requires place.InQueue? || place.OnChannel? || place.AckedBy?
    ensures var d := s.pairs[i].published[k];
      At(s, i, k, place) <==>
        match place
        case InQueue => d in s.ready
        case OnChannel(w) => w < |s.workers| && d in UnackedBag(s.workers[w])
        case AckedBy(w) => w < |s.workers| && d in AckedBag(s.workers[w])
        case _ => false
  {
    assert PairInv(i, s.pairs[i]);
    var d := s.pairs[i].published[k];
    assert d.id == MsgId(i, k);
    if At(s, i, k, place) {
      var e: Delivery;
      if place.InQueue? {
        e :| e in s.ready && e.id == MsgId(i, k);
      } else if place.OnChannel? {
        e :| e in UnackedBag(s.workers[place.w]) && e.id == MsgId(i, k);
        BagOf(s, e, place.w);
      } else {
        e :| e in AckedBag(s.workers[place.w]) && e.id == MsgId(i, k);
        BagOf(s, e, place.w);
      }
      assert e in Everywhere(s);
      Origin(s, e);
      assert e == d;
    }
  }

  /** Nothing that has not been published is known to the broker. */
  lemma UnpublishedNowhere(s: State, i: nat, k: nat, place: Place)
    requires PairsInv(s) && BrokerInv(s) && i < |s.pairs| && k >= |s.pairs[i].published|
    requires place.InQueue? || place.OnChannel? || place.AckedBy?
    ensures !At(s, i, k, place)
  {
    if At(s, i, k, place) {
      var e: Delivery;
      if place.InQueue? {
        e :| e in s.ready && e.id == MsgId(i, k);
      } else if place.OnChannel? {
        e :| e in UnackedBag(s.workers[place.w]) && e.id == MsgId(i, k);
        BagOf(s, e, place.w);
      } else {
        e :| e in AckedBag(s.workers[place.w]) && e.id == MsgId(i, k);
        BagOf(s, e, place.w);
      }
      assert e in Everywhere(s);
      Origin(s, e);
    }
  }

  lemma SomePlace(cfg: Config, s: State, i: nat, k: nat) returns (place: Place)
    requires Inv(cfg, s) && i < |s.pairs| && k < |s.pairs[i].taken|
    ensures At(s, i, k, place)
  {
    var q := s.pairs[i];
    assert PairInv(i, q);
    if k == |q.published| {
      place := if q.held.Some? then HeldByProducer else DroppedAtExit;
    } else {
      var d := q.published[k];
      assert d in PublishedBag(q);
      BagMember(s.pairs, PublishedBag, d);
      assert d in Everywhere(s);
      if d in s.ready {
        place := InQueue;
      } else if d in Bag(s.workers, UnackedBag) {
        BagMember(s.workers, UnackedBag, d);
        var w :| 0 <= w < |s.workers| && d in UnackedBag(s.workers[w]);
        place := OnChannel(w);
      } else {
        BagMember(s.workers, AckedBag, d);
        var w :| 0 <= w < |s.workers| && d in AckedBag(s.workers[w]);
        place := AckedBy(w);
      }
      PlaceOfPublished(s, i, k, place);
    }
  }

  lemma OnePlace(cfg: Config, s: State, i: nat, k: nat, x: Place, y: Place)
    requires Inv(cfg, s) && i < |s.pairs| && k < |s.pairs[i].taken|
    requires At(s, i, k, x) && At(s, i, k, y)
    ensures x == y
  {
    var q := s.pairs[i];
    assert PairInv(i, q);
    if k == |q.published| {
      if x.InQueue? || x.OnChannel? || x.AckedBy? { UnpublishedNowhere(s, i, k, x); }
      if y.InQueue? || y.OnChannel? || y.AckedBy? { UnpublishedNowhere(s, i, k, y); }
    } else {
      var d := q.published[k];
      PlaceOfPublished(s, i, k, x);
      PlaceOfPublished(s, i, k, y);
      PublishedOnce(s.pairs, d);
      assert Everywhere(s)[d] <= 1;
      if x.OnChannel? { BagOf(s, d, x.w); }
      if x.AckedBy? { BagOf(s, d, x.w); }
      if y.OnChannel? { BagOf(s, d, y.w); }
      if y.AckedBy? { BagOf(s, d, y.w); }
      if x.OnChannel? && y.OnChannel? && x.w != y.w {
        BagTwice(s.workers, UnackedBag, d, if x.w < y.w then x.w else y.w, if x.w < y.w then y.w else x.w);
      }
      if x.AckedBy? && y.AckedBy? && x.w != y.w {
        BagTwice(s.workers, AckedBag, d, if x.w < y.w then x.w else y.w, if x.w < y.w then y.w else x.w);
      }
    }
  }

  /** In every reachable state every message taken over is in exactly one place. */
  lemma ExactlyOnePlace(cfg: Config, acts: seq<Action>, i: nat, k: nat)
    requires cfg.Valid() && Run(cfg, acts).Some?
    requires i < |Run(cfg, acts).value.pairs| && k < |Run(cfg, acts).value.pairs[i].taken|
    ensures var s := Run(cfg, acts).value;
      exists p :: At(s, i, k, p) && forall q :: At(s, i, k, q) ==> q == p
  {
    RunInv(cfg, acts);
    var s := Run(cfg, acts).value;
    var p := SomePlace(cfg, s, i, k);
    forall q | At(s, i, k, q)
      ensures q == p
    {
      OnePlace(cfg, s, i, k, p, q);
    }
  }

  /** No message is ever acknowledged twice, by one worker or by two, however often it was requeued. */
  lemma AckedOnce(cfg: Config, acts: seq<Action>, d: Delivery)
    requires cfg.Valid() && Run(cfg, acts).Some?
    ensures (Bag(Run(cfg, acts).value.workers, AckedBag))[d] <= 1
  {
    RunInv(cfg, acts);
    var s := Run(cfg, acts).value;
    PublishedOnce(s.pairs, d);
    assert Everywhere(s)[d] == Bag(s.pairs, PublishedBag)[d];
  }

  // ----- Rows -----

  function RowCount(w: Worker): nat { |w.rows| }
  function AckCount(w: Worker): nat { |w.acked| }
  function Handling(w: Worker): bool { w.current.Some? }

  /** Rows written are acknowledgements plus the workers that stand between the write and the acknowledgement. */
  lemma RowsPerAck(cfg: Config, acts: seq<Action>)
    requires cfg.Valid() && Run(cfg, acts).Some?
    ensures var s := Run(cfg, acts).value;
      Sum(s.workers, RowCount) == Sum(s.workers, AckCount) + Count(s.workers, Handling)
  {
    RunInv(cfg, acts);
    var s := Run(cfg, acts).value;
    forall w | 0 <= w < |s.workers|
      ensures RowCount(s.workers[w]) == AckCount(s.workers[w]) + if Handling(s.workers[w]) then 1 else 0
    {
      assert RowsMatch(s.workers[w]);
    }
    SumSplit(s.workers, RowCount, AckCount, Handling);
  }

  /** What was acknowledged was published, with the clock of the publish as its header. */
  lemma AckOrigin(cfg: Config, acts: seq<Action>, w: nat, k: nat)
    requires cfg.Valid() && Run(cfg, acts).Some?
    requires w < |Run(cfg, acts).value.workers| && k < |Run(cfg, acts).value.workers[w].acked|
    ensures var s := Run(cfg, acts).value;
      var d := s.workers[w].acked[k];
      && d.id.pair < |s.pairs| && d.id.k < |s.pairs[d.id.pair].stamps| && d.id.k < |s.pairs[d.id.pair].taken|
      && d.body == s.pairs[d.id.pair].taken[d.id.k] && d.header == FormatInt(s.pairs[d.id.pair].stamps[d.id.k])
  {
    RunInv(cfg, acts);
    var s := Run(cfg, acts).value;
    var d := s.workers[w].acked[k];
    assert d in AckedBag(s.workers[w]);
    BagOf(s, d, w);
    assert d in Everywhere(s);
    Origin(s, d);
    assert PairInv(d.id.pair, s.pairs[d.id.pair]);
  }

  lemma AckRow(cfg: Config, acts: seq<Action>, w: nat, k: nat)
    requires cfg.Valid() && Run(cfg, acts).Some?
    requires w < |Run(cfg, acts).value.workers| && k < |Run(cfg, acts).value.workers[w].acked|
    ensures var v := Run(cfg, acts).value.workers[w];
      k < |v.rows| && v.rows[k].tProducer == HeaderStamp(v.acked[k].header)
  {
    RunInv(cfg, acts);
    assert RowsMatch(Run(cfg, acts).value.workers[w]);
  }

  /**
   * The row of an acknowledged message is in the log of the worker that acknowledged it, and its first column is the
   * clock the producer worker read when it published that very message.
   */
  lemma RowOfAck(cfg: Config, acts: seq<Action>, w: nat, k: nat)
    requires cfg.Valid() && Run(cfg, acts).Some?
    requires w < |Run(cfg, acts).value.workers| && k < |Run(cfg, acts).value.workers[w].acked|
    ensures var s := Run(cfg, acts).value;
      var d := s.workers[w].acked[k];
      && d.id.pair < |s.pairs| && d.id.k < |s.pairs[d.id.pair].stamps| && d.id.k < |s.pairs[d.id.pair].taken|
      && d.body == s.pairs[d.id.pair].taken[d.id.k]
      && k < |s.workers[w].rows|
      && s.workers[w].rows[k].tProducer == s.pairs[d.id.pair].stamps[d.id.k]
  {
    AckOrigin(cfg, acts, w, k);
    AckRow(cfg, acts, w, k);
    var s := Run(cfg, acts).value;
    var d := s.workers[w].acked[k];
    ParsedFormat(s.pairs[d.id.pair].stamps[d.id.k]);
  }

  // ----- basic.ack with and without `multiple` -----

  lemma AckModesStep(cfg: Config, s: State, a: Action, m: bool)
    requires QueuesInv(s)
    ensures Enabled(cfg.(ackMultiple := m), s, a) <==> Enabled(cfg, s, a)
    ensures Enabled(cfg, s, a) ==> WorkersAfter(cfg.(ackMultiple := m), s, a) == WorkersAfter(cfg, s, a)
    ensures Enabled(cfg, s, a) ==> ConsumersAfter(cfg.(ackMultiple := m), s, a) == ConsumersAfter(cfg, s, a)
  {
    if Enabled(cfg, s, a) && a.Ack? {
      assert QueueInv(s.workers[a.w]);
      QueueAcknowledged(s.workers[a.w], m);
      QueueAcknowledged(s.workers[a.w], cfg.ackMultiple);
    }
  }

  lemma {:induction false} AckModesFrom(cfg: Config, s: State, acts: seq<Action>, m: bool)
    requires Inv(cfg, s)
    ensures RunFrom(cfg.(ackMultiple := m), s, acts) == RunFrom(cfg, s, acts)
  {
    if acts != [] {
      var n := |acts| - 1;
      AckModesFrom(cfg, s, acts[..n], m);
      if RunFrom(cfg, s, acts[..n]).Some? {
        RunFromInv(cfg, s, acts[..n]);
        AckModesStep(cfg, RunFrom(cfg, s, acts[..n]).value, acts[n], m);
      }
    }
  }

  /** Both settings of AckMultiple allow the same runs and lead to the same states. */
  lemma AckModesAgree(cfg: Config, acts: seq<Action>)
    requires cfg.Valid()
    ensures Run(cfg.(ackMultiple := true), acts) == Run(cfg.(ackMultiple := false), acts)
  {
    InitInv(cfg);
    AckModesFrom(cfg, Init(cfg), acts, true);
    AckModesFrom(cfg, Init(cfg), acts, false);
  }
}
