/** What every step of the experiment keeps, and therefore what holds in every reachable state. */
module Invariants {
  import opened Prelude
  import opened Decimal
  import opened Text
  import opened Protocol

  // ----- The invariant -----

  ghost predicate Shape(cfg: Config, s: State) {
    && |s.producers| == cfg.producers && |s.consumers| == cfg.consumers
    && (forall i :: 0 <= i < |s.pairs| ==> s.pairs[i].owner < cfg.producers)
    && (forall w :: 0 <= w < |s.workers| ==> s.workers[w].host < cfg.consumers)
  }

  /** Of everything handed over, all but at most the last message is published, in order and with its own stamp. */
  ghost predicate PairInv(i: nat, q: Pair) {
    && |q.taken| == |q.published| + |OptSeq(q.held)| + |OptSeq(q.dropped)|
    && (q.held.Some? ==> q.dropped.None? && q.held.value == q.taken[|q.taken| - 1])
    && (q.dropped.Some? ==> q.generator == WgDone && q.dropped.value == q.taken[|q.taken| - 1])
    && |q.stamps| == |q.published|
    && (forall k :: 0 <= k < |q.published| ==>
          q.published[k] == Delivery(MsgId(i, k), q.taken[k], FormatInt(q.stamps[k])))
    && (q.source.Preloaded? ==> q.taken <= q.source.messages)
  }

  function PendingOf(p: nat): Pair -> bool {
    (q: Pair) => q.owner == p && q.generator != WgDone
  }

  ghost predicate ProducerInv(p: nat, x: Producer, pairs: seq<Pair>) {
    && x.wg == Count(pairs, PendingOf(p))
    && (x.endSent ==> x.wg == 0)
  }

  ghost predicate ConsumerInv(cfg: Config, c: Consumer, producers: seq<Producer>) {
    && NoDup(c.heard + c.inbox)
    && (forall p :: p in c.heard + c.inbox ==> p < |producers| && producers[p].endSent)
    && c.nDone == |c.heard|
    && c.doneCloses <= 1
    && (c.main == NotStarted ==> c.supervisor == Selecting && c.heard == [] && c.inbox == [])
    && (c.main == NotStarted || c.main == Counting ==> c.doneCloses == 0)
    && (c.doneCloses == 1 ==> c.nDone == cfg.nProducers)
    && (c.supervisor.Polling? || c.supervisor.Sleeping? ==> c.doneCloses == 1)
    && (c.supervisor.Stopping? || c.supervisor.Over? ==> (c.supervisor.polled ==> c.doneCloses == 1))
    && c.stopCloses == if c.supervisor.Over? then 1 else 0
  }

  ghost predicate SortedTags(u: seq<Tagged>, next: nat) {
    && (forall a, b :: 0 <= a < b < |u| ==> u[a].tag < u[b].tag)
    && (forall a :: 0 <= a < |u| ==> u[a].tag < next)
  }

  /** Rows are written before the acknowledgement, one for each delivery, in order. */
  ghost predicate RowsMatch(w: Worker) {
    && |w.rows| == |w.acked| + |OptSeq(w.current)|
    && (forall k :: 0 <= k < |w.acked| ==> w.rows[k].tProducer == HeaderStamp(w.acked[k].header))
    && (w.current.Some? ==> w.rows[|w.rows| - 1].tProducer == HeaderStamp(w.current.value.delivery.header))
  }

  /** The broker's view of a channel is the delivery being handled followed by those waiting in the worker. */
  ghost predicate QueueInv(w: Worker) {
    && SortedTags(w.unacked, w.nextTag)
    && w.unacked == OptSeq(w.current) + w.local
    && (w.phase == Created ==> w.unacked == [])
    && (w.phase != Running ==> w.current.None?)
    && (w.phase == ChannelClosed || w.phase == Finished ==> w.unacked == [])
  }

  /** No text is lost between the rows written and the file, and nothing is left in the buffer after the flush. */
  ghost predicate TextInv(w: Worker) {
    && w.file + w.pending == RowsText(w.rows)
    && (w.phase == Flushed || w.phase == ChannelClosed || w.phase == Finished ==> w.pending == "")
    && (w.phase == Created ==> w.rows == [])
  }

  ghost predicate StopInv(w: Worker, consumers: seq<Consumer>) {
    w.phase != Created && w.phase != Running ==> w.host < |consumers| && consumers[w.host].stopCloses > 0
  }

  function ActiveOn(c: nat): Worker -> bool {
    (w: Worker) => w.host == c && Active(w)
  }

  ghost predicate NoneStarted(workers: seq<Worker>, c: nat) {
    forall w :: 0 <= w < |workers| && workers[w].host == c ==> workers[w].phase == Created
  }

  ghost predicate WaitInv(c: nat, x: Consumer, workers: seq<Worker>) {
    && x.wg == Count(workers, ActiveOn(c))
    && (x.main.Returned? ==> x.wg == 0)
    && ((x.main.Waiting? || x.main.Returned?) && x.main.allStarted ==> AllStarted(workers, c))
    && (x.main == NotStarted ==> NoneStarted(workers, c))
  }

  ghost function PublishedBag(q: Pair): multiset<Delivery> { multiset(q.published) }
  ghost function UnackedBag(w: Worker): multiset<Delivery> { Untagged(w.unacked) }
  ghost function AckedBag(w: Worker): multiset<Delivery> { multiset(w.acked) }

  /** Everything published is ready, on one worker's channel, or acknowledged. */
  ghost predicate BrokerInv(s: State) {
    Bag(s.pairs, PublishedBag) == s.ready + Bag(s.workers, UnackedBag) + Bag(s.workers, AckedBag)
  }

  ghost predicate PairsInv(s: State) {
    forall i :: 0 <= i < |s.pairs| ==> PairInv(i, s.pairs[i])
  }

  ghost predicate ProducersInv(s: State) {
    forall p :: 0 <= p < |s.producers| ==> ProducerInv(p, s.producers[p], s.pairs)
  }

  ghost predicate ConsumersInv(cfg: Config, s: State) {
    forall c :: 0 <= c < |s.consumers| ==> ConsumerInv(cfg, s.consumers[c], s.producers)
  }

  ghost predicate QueuesInv(s: State) {
    forall w :: 0 <= w < |s.workers| ==> QueueInv(s.workers[w])
  }

  ghost predicate RowsInv(s: State) {
    forall w :: 0 <= w < |s.workers| ==> RowsMatch(s.workers[w])
  }

  ghost predicate TextsInv(s: State) {
    forall w :: 0 <= w < |s.workers| ==> TextInv(s.workers[w])
  }

  ghost predicate StopsInv(s: State) {
    forall w :: 0 <= w < |s.workers| ==> StopInv(s.workers[w], s.consumers)
  }

  ghost predicate WaitsInv(s: State) {
    forall c :: 0 <= c < |s.consumers| ==> WaitInv(c, s.consumers[c], s.workers)
  }

  ghost predicate Inv(cfg: Config, s: State) {
    && Shape(cfg, s) && PairsInv(s) && ProducersInv(s) && ConsumersInv(cfg, s)
    && QueuesInv(s) && RowsInv(s) && TextsInv(s) && StopsInv(s) && WaitsInv(s) && BrokerInv(s)
  }

  // ----- Deployments -----

  function OwnedBy(p: nat): nat -> bool {
    (o: nat) => o == p
  }

  lemma {:induction false} RepeatBelow(v: nat, k: nat)
    ensures forall i :: 0 <= i < |Repeat(v, k)| ==> Repeat(v, k)[i] == v
  {
    if k > 0 {
      RepeatBelow(v, k - 1);
    }
  }

  lemma {:induction false} BlocksBelow(n: nat, k: nat)
    ensures forall i :: 0 <= i < |Blocks(n, k)| ==> Blocks(n, k)[i] < n
  {
    if n > 0 {
      BlocksBelow(n - 1, k);
      RepeatBelow(n - 1, k);
    }
  }

  /** Each owner holds exactly `k` positions. */
  lemma {:induction false} BlocksCount(n: nat, k: nat, p: nat)
    ensures Count(Blocks(n, k), OwnedBy(p)) == if p < n then k else 0
  {
    if n > 0 {
      BlocksCount(n - 1, k, p);
      CountConstant(Blocks(n - 1, k), k, n - 1, p);
    }
  }

  lemma {:induction false} CountConstant(s: seq<nat>, k: nat, v: nat, p: nat)
    ensures Count(s + Repeat(v, k), OwnedBy(p)) == Count(s, OwnedBy(p)) + if v == p then k else 0
  {
    if k == 0 {
      assert s + Repeat(v, k) == s;
    } else {
      CountConstant(s, k - 1, v, p);
      assert (s + Repeat(v, k))[..|s| + k - 1] == s + Repeat(v, k - 1);
    }
  }

  lemma {:induction false} CountMap<T, U>(s: seq<T>, p: T -> bool, t: seq<U>, q: U -> bool)
    requires |s| == |t| && forall i :: 0 <= i < |s| ==> p(s[i]) == q(t[i])
    ensures Count(s, p) == Count(t, q)
  {
    if s != [] {
      var n := |s| - 1;
      forall i | 0 <= i < n
        ensures p(s[..n][i]) == q(t[..n][i])
      {
        assert p(s[i]) == q(t[i]);
      }
      CountMap(s[..n], p, t[..n], q);
    }
  }

  lemma InitProducers(cfg: Config)
    requires cfg.Valid()
    ensures ProducersInv(Init(cfg))
  {
    var s := Init(cfg);
    forall p | 0 <= p < |s.producers|
      ensures ProducerInv(p, s.producers[p], s.pairs)
    {
      BlocksCount(cfg.producers, cfg.generatorsEach, p);
      CountMap(s.pairs, PendingOf(p), Blocks(cfg.producers, cfg.generatorsEach), OwnedBy(p));
    }
  }

  lemma InitWaits(cfg: Config)
    requires cfg.Valid()
    ensures WaitsInv(Init(cfg))
  {
    forall c | 0 <= c < cfg.consumers
      ensures WaitInv(c, Init(cfg).consumers[c], Init(cfg).workers)
    {
      CountZero(Init(cfg).workers, ActiveOn(c));
    }
  }

  lemma InitBroker(cfg: Config)
    requires cfg.Valid()
    ensures BrokerInv(Init(cfg))
  {
    BagEmpty(Init(cfg).pairs, PublishedBag);
    BagEmpty(Init(cfg).workers, UnackedBag);
    BagEmpty(Init(cfg).workers, AckedBag);
  }

  lemma InitShape(cfg: Config)
    requires cfg.Valid()
    ensures Shape(cfg, Init(cfg))
  {
    BlocksBelow(cfg.producers, cfg.generatorsEach);
    BlocksBelow(cfg.consumers, cfg.workersEach);
  }

  lemma InitLocal(cfg: Config)
    requires cfg.Valid()
    ensures PairsInv(Init(cfg)) && ConsumersInv(cfg, Init(cfg))
    ensures QueuesInv(Init(cfg)) && RowsInv(Init(cfg)) && TextsInv(Init(cfg)) && StopsInv(Init(cfg))
  {
  }

  lemma InitInv(cfg: Config)
    requires cfg.Valid()
    ensures Inv(cfg, Init(cfg))
  {
    InitShape(cfg);
    InitLocal(cfg);
    InitProducers(cfg);
    InitWaits(cfg);
    InitBroker(cfg);
  }

  // ----- One step -----

  lemma StepShape(cfg: Config, s: State, a: Action)
    requires Shape(cfg, s) && Enabled(cfg, s, a)
    ensures Shape(cfg, Step(cfg, s, a))
  {
    StepOwners(cfg, s, a);
    StepHosts(cfg, s, a);
  }

  lemma StepOwners(cfg: Config, s: State, a: Action)
    requires Enabled(cfg, s, a)
    ensures |PairsAfter(cfg, s, a)| == |s.pairs|
    ensures forall i :: 0 <= i < |s.pairs| ==> PairsAfter(cfg, s, a)[i].owner == s.pairs[i].owner
  {
  }

  lemma StepHosts(cfg: Config, s: State, a: Action)
    requires Enabled(cfg, s, a)
    ensures |WorkersAfter(cfg, s, a)| == |s.workers|
    ensures forall w :: 0 <= w < |s.workers| ==> WorkersAfter(cfg, s, a)[w].host == s.workers[w].host
  {
  }

  /** Once a producer has sent "end", every one of its generators has closed its channel and reported done. */
  lemma EndedGenerators(cfg: Config, s: State, i: nat)
    requires ProducersInv(s) && i < |s.pairs| && s.pairs[i].owner < |s.producers|
    requires s.producers[s.pairs[i].owner].endSent
    ensures s.pairs[i].generator == WgDone
  {
    var p := s.pairs[i].owner;
    assert ProducerInv(p, s.producers[p], s.pairs);
    CountZero(s.pairs, PendingOf(p));
    assert !PendingOf(p)(s.pairs[i]);
  }

  lemma StepPair(cfg: Config, s: State, a: Action)
    requires PairsInv(s) && Enabled(cfg, s, a) && OnPair(a)
    requires a.Drop? ==> s.pairs[a.i].generator == WgDone
    ensures PairInv(a.i, PairStep(a.i, s.pairs[a.i], a))
  {
    assert PairInv(a.i, s.pairs[a.i]);
  }

  lemma StepPairs(cfg: Config, s: State, a: Action)
    requires PairsInv(s) && ProducersInv(s) && Enabled(cfg, s, a)
    ensures PairsInv(Step(cfg, s, a))
  {
    if OnPair(a) {
      if a.Drop? {
        EndedGenerators(cfg, s, a.i);
      }
      StepPair(cfg, s, a);
    }
  }

  lemma StepProducers(cfg: Config, s: State, a: Action)
    requires ProducersInv(s) && Enabled(cfg, s, a)
    ensures ProducersInv(Step(cfg, s, a))
  {
    var s' := Step(cfg, s, a);
    if a.HandOver? || a.CloseMessages? || a.GeneratorDone? || a.Publish? || a.Drop? {
      var i := a.i;
      forall p | 0 <= p < |s'.producers|
        ensures ProducerInv(p, s'.producers[p], s'.pairs)
      {
        assert ProducerInv(p, s.producers[p], s.pairs);
        CountUpdate(s.pairs, i, s'.pairs[i], PendingOf(p));
        CountZero(s.pairs, PendingOf(p));
      }
    } else {
      assert s'.pairs == s.pairs;
      forall p | 0 <= p < |s'.producers|
        ensures ProducerInv(p, s'.producers[p], s'.pairs)
      {
        assert ProducerInv(p, s.producers[p], s.pairs);
      }
    }
  }

  lemma StepHeard(cfg: Config, x: Consumer, producers: seq<Producer>, allStarted: bool)
    requires ConsumerInv(cfg, x, producers) && x.main == Counting && x.inbox != []
    ensures ConsumerInv(cfg, Heard(cfg, x, allStarted), producers)
  {
    var y := Heard(cfg, x, allStarted);
    assert y.heard + y.inbox == x.heard + x.inbox;
  }

  lemma StepConsumer(cfg: Config, s: State, a: Action)
    requires ConsumersInv(cfg, s) && Enabled(cfg, s, a) && OnConsumer(a)
    ensures ConsumerInv(cfg, ConsumersAfter(cfg, s, a)[a.c], s.producers)
  {
    assert ConsumerInv(cfg, s.consumers[a.c], s.producers);
    if a.HearEnd? {
      StepHeard(cfg, s.consumers[a.c], s.producers, AllStarted(s.workers, a.c));
    }
  }

  /** A producer sends its "end" once, so no consumer finds the same producer twice in its queue. */
  lemma StepFanOut(cfg: Config, s: State, p: nat, c: nat)
    requires ConsumersInv(cfg, s) && Enabled(cfg, s, SendEnd(p)) && c < |s.consumers|
    ensures ConsumerInv(cfg, FanOut(s.consumers, p)[c], ProducersAfter(cfg, s, SendEnd(p)))
  {
    var x, x' := s.consumers[c], FanOut(s.consumers, p)[c];
    assert ConsumerInv(cfg, x, s.producers);
    if x.main != NotStarted {
      assert x'.heard + x'.inbox == (x.heard + x.inbox) + [p];
      assert p !in x.heard + x.inbox;
    }
  }

  lemma ConsumerFrame(cfg: Config, x: Consumer, before: seq<Producer>, after: seq<Producer>)
    requires ConsumerInv(cfg, x, before) && |before| == |after|
    requires forall p :: 0 <= p < |before| && before[p].endSent ==> after[p].endSent
    ensures ConsumerInv(cfg, x, after)
  {
  }

  lemma EndsStay(cfg: Config, s: State, a: Action)
    requires Enabled(cfg, s, a)
    ensures forall p :: 0 <= p < |s.producers| && s.producers[p].endSent ==> ProducersAfter(cfg, s, a)[p].endSent
  {
  }

  lemma StepConsumers(cfg: Config, s: State, a: Action)
    requires ConsumersInv(cfg, s) && Enabled(cfg, s, a)
    ensures ConsumersInv(cfg, Step(cfg, s, a))
  {
    var xs, producers := ConsumersAfter(cfg, s, a), ProducersAfter(cfg, s, a);
    EndsStay(cfg, s, a);
    if OnConsumer(a) {
      StepConsumer(cfg, s, a);
    }
    forall c | 0 <= c < |xs|
      ensures ConsumerInv(cfg, xs[c], producers)
    {
      assert ConsumerInv(cfg, s.consumers[c], s.producers);
      if a.SendEnd? {
        StepFanOut(cfg, s, a.p, c);
      } else {
        var x := xs[c];
        assert ConsumerInv(cfg, x, s.producers);
        ConsumerFrame(cfg, x, s.producers, producers);
      }
    }
  }

  // ----- basic.ack settles the one delivery being handled -----

  lemma UntaggedAppend(u: seq<Tagged>, x: Tagged)
    ensures Untagged(u + [x]) == Untagged(u) + multiset{x.delivery}
  {
    if u == [] {
      assert u + [x] == [x];
    } else {
      assert (u + [x])[1..] == u[1..] + [x];
      UntaggedAppend(u[1..], x);
    }
  }

  lemma {:induction false} SettleNone(u: seq<Tagged>, t: nat, multiple: bool)
    requires forall a :: 0 <= a < |u| ==> t < u[a].tag
    ensures Unsettled(u, t, multiple) == u && Settled(u, t, multiple) == []
  {
    if u != [] {
      SettleNone(u[1..], t, multiple);
    }
  }

  /** On a channel handled in order, acknowledging the oldest delivery removes just that one, `multiple` or not. */
  lemma SettleOldest(u: seq<Tagged>, next: nat, multiple: bool)
    requires SortedTags(u, next) && u != []
    ensures Unsettled(u, u[0].tag, multiple) == u[1..]
    ensures Settled(u, u[0].tag, multiple) == [u[0].delivery]
  {
    SettleNone(u[1..], u[0].tag, multiple);
  }

  lemma RecordText(file: string, pending: string, rows: seq<Row>, r: Row)
    requires file + pending == RowsText(rows)
    ensures file + (pending + (RowLine(r) + "\n")) == RowsText(rows + [r])
  {
    RowsTextAppend(rows, r);
    Associate(file, pending, RowLine(r) + "\n");
  }

  lemma SpillText(file: string, pending: string, n: nat)
    requires n <= |pending|
    ensures file + pending[..n] + pending[n..] == file + pending
  {
  }

  lemma FlushText(file: string, pending: string)
    ensures file + pending + "" == file + pending
  {
  }

  lemma StepText(cfg: Config, s: State, a: Action)
    requires TextsInv(s) && Enabled(cfg, s, a) && OnWorker(a)
    ensures TextInv(WorkerStep(cfg, s.workers[a.w], a))
  {
    var w := s.workers[a.w];
    assert TextInv(w);
    if a.Record? {
      RecordText(w.file, w.pending, w.rows, Row(HeaderStamp(w.local[0].delivery.header), a.now));
    } else if a.Spill? {
      SpillText(w.file, w.pending, a.n);
    } else if a.Flush? {
      FlushText(w.file, w.pending);
    }
  }

  lemma QueueDelivered(w: Worker, d: Delivery)
    requires QueueInv(w) && ChannelOpen(w)
    ensures QueueInv(Delivered(w, d))
    ensures UnackedBag(Delivered(w, d)) == UnackedBag(w) + multiset{d}
  {
    var x := Tagged(w.nextTag, d);
    assert w.unacked + [x] == OptSeq(w.current) + (w.local + [x]);
    UntaggedAppend(w.unacked, x);
  }

  lemma QueueRecorded(w: Worker, now: int64)
    requires QueueInv(w) && w.phase == Running && w.current.None? && w.local != []
    ensures QueueInv(Recorded(w, now))
  {
    assert w.local == [w.local[0]] + w.local[1..];
  }

  /** An acknowledgement takes the oldest delivery off the channel, and only that one. */
  lemma QueueAcknowledged(w: Worker, multiple: bool)
    requires QueueInv(w) && w.current.Some?
    ensures w.unacked != [] && w.current == Some(w.unacked[0]) && w.unacked[1..] == w.local
    ensures Acknowledged(w, multiple) == Oldest(w)
  {
    assert w.unacked[0] == w.current.value;
    SettleOldest(w.unacked, w.nextTag, multiple);
    assert w.unacked[1..] == w.local;
  }

  /** A worker whose oldest delivery has moved from unacknowledged to acknowledged. */
  function Oldest(w: Worker): Worker
    requires w.unacked != []
  {
    w.(current := None, unacked := w.unacked[1..], acked := w.acked + [w.unacked[0].delivery])
  }

  lemma OldestQueue(w: Worker)
    requires QueueInv(w) && w.current.Some? && w.unacked != [] && w.unacked[1..] == w.local
    ensures QueueInv(Oldest(w))
  {
  }

  lemma OldestBags(w: Worker)
    requires w.unacked != []
    ensures UnackedBag(Oldest(w)) + AckedBag(Oldest(w)) == UnackedBag(w) + AckedBag(w)
  {
    var d := w.unacked[0].delivery;
    assert multiset(w.acked + [d]) == multiset(w.acked) + multiset{d};
  }

  lemma OldestRows(w: Worker)
    requires RowsMatch(w) && w.unacked != [] && w.current == Some(w.unacked[0])
    ensures RowsMatch(Oldest(w))
  {
  }

  lemma RecordedRows(w: Worker, now: int64)
    requires RowsMatch(w) && w.current.None? && w.local != []
    ensures RowsMatch(Recorded(w, now))
  {
  }

  lemma StepRows(cfg: Config, s: State, a: Action)
    requires QueuesInv(s) && RowsInv(s) && Enabled(cfg, s, a) && OnWorker(a)
    ensures RowsMatch(WorkerStep(cfg, s.workers[a.w], a))
  {
    var w := s.workers[a.w];
    assert QueueInv(w) && RowsMatch(w);
    if a.Ack? {
      QueueAcknowledged(w, cfg.ackMultiple);
      OldestRows(w);
    } else if a.Record? {
      RecordedRows(w, a.now);
    }
  }

  lemma StepQueue(cfg: Config, s: State, a: Action)
    requires QueuesInv(s) && Enabled(cfg, s, a) && OnWorker(a)
    ensures QueueInv(WorkerStep(cfg, s.workers[a.w], a))
  {
    var w := s.workers[a.w];
    assert QueueInv(w);
    if a.Ack? {
      QueueAcknowledged(w, cfg.ackMultiple);
      OldestQueue(w);
    } else if a.Deliver? {
      QueueDelivered(w, a.d);
    } else if a.Record? {
      QueueRecorded(w, a.now);
    }
  }

  lemma StepQueues(cfg: Config, s: State, a: Action)
    requires QueuesInv(s) && Enabled(cfg, s, a)
    ensures QueuesInv(Step(cfg, s, a))
  {
    if OnWorker(a) {
      StepQueue(cfg, s, a);
    }
  }

  lemma StepAllRows(cfg: Config, s: State, a: Action)
    requires QueuesInv(s) && RowsInv(s) && Enabled(cfg, s, a)
    ensures RowsInv(Step(cfg, s, a))
  {
    if OnWorker(a) {
      StepRows(cfg, s, a);
    }
  }

  lemma StepTexts(cfg: Config, s: State, a: Action)
    requires TextsInv(s) && Enabled(cfg, s, a)
    ensures TextsInv(Step(cfg, s, a))
  {
    if OnWorker(a) {
      StepText(cfg, s, a);
    }
  }

  lemma ClosesStay(cfg: Config, s: State, a: Action)
    requires Enabled(cfg, s, a)
    ensures |ConsumersAfter(cfg, s, a)| == |s.consumers|
    ensures forall c :: 0 <= c < |s.consumers| ==> s.consumers[c].stopCloses <= ConsumersAfter(cfg, s, a)[c].stopCloses
    ensures forall c :: 0 <= c < |s.consumers| ==> s.consumers[c].doneCloses <= ConsumersAfter(cfg, s, a)[c].doneCloses
  {
  }

  lemma StepStop(cfg: Config, s: State, a: Action)
    requires StopsInv(s) && Enabled(cfg, s, a) && OnWorker(a)
    ensures StopInv(WorkerStep(cfg, s.workers[a.w], a), s.consumers)
  {
    assert StopInv(s.workers[a.w], s.consumers);
  }

  lemma StepStops(cfg: Config, s: State, a: Action)
    requires StopsInv(s) && Enabled(cfg, s, a)
    ensures StopsInv(Step(cfg, s, a))
  {
    ClosesStay(cfg, s, a);
    var workers := WorkersAfter(cfg, s, a);
    if OnWorker(a) {
      StepStop(cfg, s, a);
    }
    forall w | 0 <= w < |workers|
      ensures StopInv(workers[w], ConsumersAfter(cfg, s, a))
    {
      assert StopInv(workers[w], s.consumers);
    }
  }

  // ----- The consumer's wait group -----

  /** How one worker step moves the wait group of consumer `c`. */
  function WgChange(s: State, a: Action, c: nat): int
    requires OnWorker(a) && a.w < |s.workers|
  {
    if s.workers[a.w].host != c then 0
    else if a.StartWorker? then 1
    else if a.FinishWorker? then -1
    else 0
  }

  lemma ActiveMoves(cfg: Config, s: State, a: Action)
    requires Enabled(cfg, s, a) && OnWorker(a)
    ensures var w, w' := s.workers[a.w], WorkerStep(cfg, s.workers[a.w], a);
      if a.StartWorker? then !Active(w) && Active(w')
      else if a.FinishWorker? then Active(w) && !Active(w')
      else Active(w') == Active(w)
  {
  }

  lemma StepActive(cfg: Config, s: State, a: Action, c: nat)
    requires Enabled(cfg, s, a) && OnWorker(a)
    ensures Count(WorkersAfter(cfg, s, a), ActiveOn(c)) == Count(s.workers, ActiveOn(c)) + WgChange(s, a, c)
  {
    var w' := WorkerStep(cfg, s.workers[a.w], a);
    ActiveMoves(cfg, s, a);
    assert w'.host == s.workers[a.w].host;
    CountUpdate(s.workers, a.w, w', ActiveOn(c));
  }

  lemma StepWg(cfg: Config, s: State, a: Action, c: nat)
    requires Enabled(cfg, s, a) && OnWorker(a) && c < |s.consumers|
    ensures ConsumersAfter(cfg, s, a)[c] == s.consumers[c].(wg := s.consumers[c].wg + WgChange(s, a, c))
    ensures WgChange(s, a, c) > 0 ==> s.consumers[c].main == Counting || s.consumers[c].main.Waiting?
  {
  }

  lemma StepStarted(cfg: Config, s: State, a: Action)
    requires Enabled(cfg, s, a) && OnWorker(a)
    ensures var w, w' := s.workers[a.w], WorkerStep(cfg, s.workers[a.w], a);
      && w'.host == w.host
      && (w.phase != Created ==> w'.phase != Created)
      && (w.phase == Created && w'.phase != Created ==> a.StartWorker?)
  {
  }

  lemma StepAllStarted(cfg: Config, s: State, a: Action, c: nat)
    requires Enabled(cfg, s, a) && OnWorker(a)
    ensures AllStarted(s.workers, c) ==> AllStarted(WorkersAfter(cfg, s, a), c)
    ensures c < |s.consumers| && s.consumers[c].main == NotStarted && NoneStarted(s.workers, c) ==>
      NoneStarted(WorkersAfter(cfg, s, a), c)
  {
    StepStarted(cfg, s, a);
    var w' := WorkerStep(cfg, s.workers[a.w], a);
    assert WorkersAfter(cfg, s, a) == s.workers[a.w := w'];
  }

  lemma StepWaitWorker(cfg: Config, s: State, a: Action, c: nat)
    requires Enabled(cfg, s, a) && OnWorker(a) && c < |s.consumers|
    requires WaitInv(c, s.consumers[c], s.workers)
    ensures WaitInv(c, ConsumersAfter(cfg, s, a)[c], WorkersAfter(cfg, s, a))
  {
    StepActive(cfg, s, a, c);
    StepAllStarted(cfg, s, a, c);
    StepWg(cfg, s, a, c);
    var x, workers := s.consumers[c], WorkersAfter(cfg, s, a);
    if x.main.Returned? {
      assert Count(workers, ActiveOn(c)) >= 0;
    }
    assert |workers| == |s.workers|;
  }

  lemma StepWaitConsumer(cfg: Config, s: State, a: Action, c: nat)
    requires Enabled(cfg, s, a) && !OnWorker(a) && c < |s.consumers|
    requires WaitInv(c, s.consumers[c], s.workers)
    ensures WaitInv(c, ConsumersAfter(cfg, s, a)[c], s.workers)
  {
  }

  lemma StepWaits(cfg: Config, s: State, a: Action)
    requires Shape(cfg, s) && WaitsInv(s) && Enabled(cfg, s, a)
    ensures WaitsInv(Step(cfg, s, a))
  {
    ClosesStay(cfg, s, a);
    forall c | 0 <= c < |s.consumers|
      ensures WaitInv(c, ConsumersAfter(cfg, s, a)[c], WorkersAfter(cfg, s, a))
    {
      assert WaitInv(c, s.consumers[c], s.workers);
      if OnWorker(a) {
        StepWaitWorker(cfg, s, a, c);
      } else {
        StepWaitConsumer(cfg, s, a, c);
      }
    }
  }

  // ----- Conservation at the broker -----

  lemma StepPublish(cfg: Config, s: State, a: Action)
    requires Enabled(cfg, s, a) && a.Publish?
    ensures Bag(PairsAfter(cfg, s, a), PublishedBag) + s.ready == Bag(s.pairs, PublishedBag) + ReadyAfter(cfg, s, a)
  {
    var q, q' := s.pairs[a.i], PairStep(a.i, s.pairs[a.i], a);
    var d := q'.published[|q.published|];
    BagChange(s.pairs, a.i, q', PublishedBag, multiset{d}, multiset{});
    var before, after := Bag(s.pairs, PublishedBag), Bag(PairsAfter(cfg, s, a), PublishedBag);
    assert after == before + multiset{d};
    assert (before + multiset{d}) + s.ready == before + (s.ready + multiset{d});
  }

  lemma StepUnpublished(cfg: Config, s: State, a: Action)
    requires Enabled(cfg, s, a) && OnPair(a) && !a.Publish?
    ensures Bag(PairsAfter(cfg, s, a), PublishedBag) == Bag(s.pairs, PublishedBag)
  {
    var q' := PairStep(a.i, s.pairs[a.i], a);
    assert PublishedBag(q') == PublishedBag(s.pairs[a.i]);
    BagSame(s.pairs, a.i, q', PublishedBag);
  }

  lemma MovesOnDeliver(w: Worker, d: Delivery, ready: multiset<Delivery>)
    requires QueueInv(w) && ChannelOpen(w) && d in ready
    ensures UnackedBag(Delivered(w, d)) + AckedBag(Delivered(w, d)) + (ready - multiset{d}) ==
      UnackedBag(w) + AckedBag(w) + ready
  {
    QueueDelivered(w, d);
    assert multiset{d} + (ready - multiset{d}) == ready;
  }

  lemma OtherMoves(cfg: Config, s: State, a: Action)
    requires Enabled(cfg, s, a) && OnWorker(a) && !a.Deliver? && !a.Ack? && !a.CloseChannel?
    ensures var w' := WorkerStep(cfg, s.workers[a.w], a);
      w'.unacked == s.workers[a.w].unacked && w'.acked == s.workers[a.w].acked
  {
  }

  lemma MovesOnAck(w: Worker, multiple: bool)
    requires QueueInv(w) && w.current.Some? && w.phase == Running
    ensures UnackedBag(Acknowledged(w, multiple)) + AckedBag(Acknowledged(w, multiple)) == UnackedBag(w) + AckedBag(w)
  {
    QueueAcknowledged(w, multiple);
    OldestBags(w);
  }

  lemma MovesOnClose(cfg: Config, s: State, a: Action)
    requires Enabled(cfg, s, a) && a.CloseChannel?
    ensures var w, w' := s.workers[a.w], WorkerStep(cfg, s.workers[a.w], a);
      UnackedBag(w') + AckedBag(w') + ReadyAfter(cfg, s, a) == UnackedBag(w) + AckedBag(w) + s.ready
  {
    assert UnackedBag(WorkerStep(cfg, s.workers[a.w], a)) == multiset{};
  }

  /** A worker step only moves deliveries between ready, unacknowledged and acknowledged. */
  lemma WorkerMoves(cfg: Config, s: State, a: Action)
    requires QueuesInv(s) && Enabled(cfg, s, a) && OnWorker(a)
    ensures var w, w' := s.workers[a.w], WorkerStep(cfg, s.workers[a.w], a);
      UnackedBag(w') + AckedBag(w') + ReadyAfter(cfg, s, a) == UnackedBag(w) + AckedBag(w) + s.ready
  {
    assert QueueInv(s.workers[a.w]);
    if a.Deliver? {
      MovesOnDeliver(s.workers[a.w], a.d, s.ready);
    } else if a.Ack? {
      MovesOnAck(s.workers[a.w], cfg.ackMultiple);
    } else if a.CloseChannel? {
      MovesOnClose(cfg, s, a);
    } else {
      OtherMoves(cfg, s, a);
    }
  }

  lemma StepWorkerBags(cfg: Config, s: State, a: Action)
    requires QueuesInv(s) && Enabled(cfg, s, a) && OnWorker(a)
    ensures
      Bag(WorkersAfter(cfg, s, a), UnackedBag) + Bag(WorkersAfter(cfg, s, a), AckedBag) + ReadyAfter(cfg, s, a) ==
      Bag(s.workers, UnackedBag) + Bag(s.workers, AckedBag) + s.ready
  {
    var w, w' := s.workers[a.w], WorkerStep(cfg, s.workers[a.w], a);
    WorkerMoves(cfg, s, a);
    BagUpdate(s.workers, a.w, w', UnackedBag);
    BagUpdate(s.workers, a.w, w', AckedBag);
    Regroup(Bag(s.workers, UnackedBag), Bag(s.workers, AckedBag), s.ready, UnackedBag(w), AckedBag(w),
            Bag(WorkersAfter(cfg, s, a), UnackedBag), Bag(WorkersAfter(cfg, s, a), AckedBag), ReadyAfter(cfg, s, a),
            UnackedBag(w'), AckedBag(w'));
  }

  lemma Regroup<M>(u: multiset<M>, k: multiset<M>, r: multiset<M>, wu: multiset<M>, wk: multiset<M>,
                   u': multiset<M>, k': multiset<M>, r': multiset<M>, wu': multiset<M>, wk': multiset<M>)
    requires u' + wu == u + wu' && k' + wk == k + wk' && wu' + wk' + r' == wu + wk + r
    ensures u' + k' + r' == u + k + r
  {
    forall m
      ensures (u' + k' + r')[m] == (u + k + r)[m]
    {
      assert (u' + wu)[m] == (u + wu')[m];
      assert (k' + wk)[m] == (k + wk')[m];
      assert (wu' + wk' + r')[m] == (wu + wk + r)[m];
    }
  }

  lemma StepBroker(cfg: Config, s: State, a: Action)
    requires BrokerInv(s) && QueuesInv(s) && Enabled(cfg, s, a)
    ensures BrokerInv(Step(cfg, s, a))
  {
    var u, k := Bag(s.workers, UnackedBag), Bag(s.workers, AckedBag);
    if a.Publish? {
      StepPublish(cfg, s, a);
      Balance(Bag(s.pairs, PublishedBag), Bag(PairsAfter(cfg, s, a), PublishedBag),
              s.ready, ReadyAfter(cfg, s, a), u, k);
    } else if OnPair(a) {
      StepUnpublished(cfg, s, a);
    } else if OnWorker(a) {
      StepWorkerBags(cfg, s, a);
      Shuffle(s.ready, u, k, ReadyAfter(cfg, s, a),
              Bag(WorkersAfter(cfg, s, a), UnackedBag), Bag(WorkersAfter(cfg, s, a), AckedBag));
    }
  }

  lemma Shuffle<M>(r: multiset<M>, u: multiset<M>, k: multiset<M>, r': multiset<M>, u': multiset<M>, k': multiset<M>)
    requires u' + k' + r' == u + k + r
    ensures r' + u' + k' == r + u + k
  {
    assert r' + u' + k' == u' + k' + r';
    assert r + u + k == u + k + r;
  }

  lemma Balance<M>(p: multiset<M>, p': multiset<M>, r: multiset<M>, r': multiset<M>, u: multiset<M>, k: multiset<M>)
    requires p == r + u + k && p' + r == p + r'
    ensures p' == r' + u + k
  {
    forall m
      ensures p'[m] == (r' + u + k)[m]
    {
      assert (p' + r)[m] == (p + r')[m];
      assert p[m] == (r + u + k)[m];
    }
  }

  /** Every action keeps the invariant. */
  lemma StepInv(cfg: Config, s: State, a: Action)
    requires Inv(cfg, s) && Enabled(cfg, s, a)
    ensures Inv(cfg, Step(cfg, s, a))
  {
    StepShape(cfg, s, a);
    StepPairs(cfg, s, a);
    StepProducers(cfg, s, a);
    StepConsumers(cfg, s, a);
    StepQueues(cfg, s, a);
    StepAllRows(cfg, s, a);
    StepTexts(cfg, s, a);
    StepStops(cfg, s, a);
    StepWaits(cfg, s, a);
    StepBroker(cfg, s, a);
  }

  lemma {:induction false} RunFromInv(cfg: Config, s: State, acts: seq<Action>)
    requires Inv(cfg, s) && RunFrom(cfg, s, acts).Some?
    ensures Inv(cfg, RunFrom(cfg, s, acts).value)
  {
    if acts != [] {
      var n := |acts| - 1;
      RunFromInv(cfg, s, acts[..n]);
      StepInv(cfg, RunFrom(cfg, s, acts[..n]).value, acts[n]);
    }
  }

  /** The invariant holds in every reachable state. */
  lemma RunInv(cfg: Config, acts: seq<Action>)
    requires cfg.Valid() && Run(cfg, acts).Some?
    ensures Inv(cfg, Run(cfg, acts).value)
  {
    InitInv(cfg);
    RunFromInv(cfg, Init(cfg), acts);
  }
}
