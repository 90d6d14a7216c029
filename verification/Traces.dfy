/**
 * The runs of the step system are the sequences in which every action has its causes before it, and what that says of
 * the order of events.
 */
module Traces {
  import opened Prelude
  import opened Decimal
  import opened Text
  import opened Protocol
  import opened Invariants
  import opened Histories
  import opened PairHistories
  import opened WorkerHistories
  import opened QueueHistories
  import opened ConsumerHistories
  import Supervision

  // ----- An action is possible exactly when its causes have happened -----

  lemma Owners(cfg: Config, i: nat)
    requires IsGenerator(cfg, i)
    ensures OwnerOf(cfg, i) < cfg.producers
  {
    BlocksBelow(cfg.producers, cfg.generatorsEach);
  }

  lemma Hosts(cfg: Config, w: nat)
    requires IsWorker(cfg, w)
    ensures HostOf(cfg, w) < cfg.consumers
  {
    BlocksBelow(cfg.consumers, cfg.workersEach);
  }

  lemma GeneratorMayIs(cfg: Config, s: State, h: History, a: Action)
    requires OnPair(a) && IsGenerator(cfg, a.i) && a.i < |s.pairs| && OwnerOf(cfg, a.i) < |s.producers|
    requires PairIs(cfg, h, a.i, s.pairs[a.i]) && PairInv(a.i, s.pairs[a.i])
    requires ProducerIs(h, OwnerOf(cfg, a.i), s.producers[OwnerOf(cfg, a.i)])
    ensures PairEnabled(s, a) <==> GeneratorMay(cfg, h, a)
  {
    var q := s.pairs[a.i];
    if q.source.Preloaded? {
      assert |q.taken| == |q.source.messages| <==> q.taken == q.source.messages;
    }
  }

  lemma PairMayIs(cfg: Config, acts: seq<Action>, a: Action)
    requires cfg.Valid() && Run(cfg, acts).Some? && OnPair(a)
    ensures PairEnabled(Run(cfg, acts).value, a) <==> GeneratorMay(cfg, acts, a)
  {
    PairCount(cfg, acts);
    if IsGenerator(cfg, a.i) {
      Owners(cfg, a.i);
      PairHistory(cfg, acts, a.i);
      PairsOf(cfg, acts, a.i);
      ProducerHistory(cfg, acts, OwnerOf(cfg, a.i));
      GeneratorMayIs(cfg, Run(cfg, acts).value, acts, a);
    }
  }

  /** The wait group is empty when all workers that have started have finished. */
  ghost predicate NobodyOut(cfg: Config, h: History, c: nat) {
    forall w: nat :: IsWorker(cfg, w) && HostOf(cfg, w) == c && StartWorker(w) in h ==> FinishWorker(w) in h
  }

  lemma WaitOf(cfg: Config, acts: seq<Action>, c: nat)
    requires cfg.Valid() && Run(cfg, acts).Some? && c < |Run(cfg, acts).value.consumers|
    ensures WaitInv(c, Run(cfg, acts).value.consumers[c], Run(cfg, acts).value.workers)
  {
    RunInv(cfg, acts);
  }

  lemma ActiveIs(cfg: Config, acts: seq<Action>, w: nat, c: nat)
    requires cfg.Valid() && Run(cfg, acts).Some? && IsWorker(cfg, w)
    ensures w < |Run(cfg, acts).value.workers|
    ensures ActiveOn(c)(Run(cfg, acts).value.workers[w]) <==>
            HostOf(cfg, w) == c && StartWorker(w) in acts && FinishWorker(w) !in acts
  {
    PhaseHistory(cfg, acts, w);
    Order(cfg, acts, w);
    ActivePhase(acts, w);
  }

  lemma OutIs(cfg: Config, acts: seq<Action>, c: nat)
    requires cfg.Valid() && Run(cfg, acts).Some? && c < |Run(cfg, acts).value.consumers|
    ensures Run(cfg, acts).value.consumers[c].wg == 0 <==> NobodyOut(cfg, acts, c)
  {
    var workers := Run(cfg, acts).value.workers;
    WaitOf(cfg, acts, c);
    CountZero(workers, ActiveOn(c));
    PairCount(cfg, acts);
    forall w: nat | IsWorker(cfg, w)
      ensures w < |workers|
      ensures ActiveOn(c)(workers[w]) <==> HostOf(cfg, w) == c && StartWorker(w) in acts && FinishWorker(w) !in acts
    {
      ActiveIs(cfg, acts, w, c);
    }
  }

  lemma CourseMayIs(cfg: Config, x: Consumer, h: History, a: Action)
    requires OnConsumer(a) && !a.Return? && a.c < cfg.consumers && ConsumerIs(cfg, h, a.c, x)
    ensures ConsumerReady(x, a) <==> ConsumerMay(cfg, h, a)
  {
    assert |x.inbox| == |Sent(h, a.c)| - Times(h, HearEnd(a.c));
  }

  lemma ReturnMayIs(cfg: Config, x: Consumer, h: History, c: nat)
    requires c < cfg.consumers && ConsumerIs(cfg, h, c, x) && (x.wg == 0 <==> NobodyOut(cfg, h, c))
    ensures x.main.Waiting? && x.wg == 0 <==> ConsumerMay(cfg, h, Return(c))
  {
  }

  lemma ReadyIsEnabled(s: State, a: Action)
    requires OnConsumer(a) && a.c < |s.consumers|
    ensures ConsumerEnabled(s, a) <==> ConsumerReady(s.consumers[a.c], a) && (a.Return? ==> s.consumers[a.c].wg == 0)
  {
  }

  lemma ConsumerMayIs(cfg: Config, acts: seq<Action>, a: Action)
    requires cfg.Valid() && Run(cfg, acts).Some? && OnConsumer(a)
    ensures ConsumerEnabled(Run(cfg, acts).value, a) <==> ConsumerMay(cfg, acts, a)
  {
    var s := Run(cfg, acts).value;
    Sizes(cfg, acts);
    if a.c < cfg.consumers {
      ConsumerHistory(cfg, acts, a.c);
      ReadyIsEnabled(s, a);
      if a.Return? {
        OutIs(cfg, acts, a.c);
        ReturnMayIs(cfg, s.consumers[a.c], acts, a.c);
      } else {
        CourseMayIs(cfg, s.consumers[a.c], acts, a);
      }
    }
  }

  /** What the worker's guards look at. */
  ghost predicate Shows(h: History, w: nat, v: Worker) {
    && v.phase == PhaseOf(h, w) && (v.current.Some? ==> v.phase == Running)
    && (v.current.Some? <==> Times(h, Ack(w)) < |Receipts(h, w)|)
    && (v.current.None? <==> Times(h, Ack(w)) == |Receipts(h, w)|)
    && (v.phase == Running ==> (v.local != [] <==> |Receipts(h, w)| < |Arrived(h, w)|))
    && |v.pending| + Written(h, w) == TextLength(Arrived(h, w), Receipts(h, w))
  }

  lemma WorkerShows(cfg: Config, h: History, w: nat, v: Worker)
    requires IsWorker(cfg, w) && WorkerIs(cfg, h, w, v) && QueueInv(v)
    ensures v.host == HostOf(cfg, w) && Shows(h, w, v)
  {
  }

  /** What they look at in the consumer. */
  predicate HostShows(h: History, c: nat, x: Consumer) {
    && (x.main == Counting || x.main.Waiting? <==> Bind(c) in h && Return(c) !in h)
    && (x.stopCloses > 0 <==> CloseStop(c) in h)
  }

  lemma ConsumerShows(cfg: Config, h: History, c: nat, x: Consumer)
    requires ConsumerIs(cfg, h, c, x)
    ensures HostShows(h, c, x)
  {
  }

  lemma ChannelMayIs(cfg: Config, s: State, h: History, a: Action)
    requires OnWorker(a) && IsWorker(cfg, a.w) && a.w < |s.workers| && HostOf(cfg, a.w) < |s.consumers|
    requires s.workers[a.w].host == HostOf(cfg, a.w) && Shows(h, a.w, s.workers[a.w]) && InOrder(h, a.w)
    requires HostShows(h, HostOf(cfg, a.w), s.consumers[HostOf(cfg, a.w)])
    requires a.Deliver? ==> (a.d in s.ready <==> Queued(h, a.d))
    ensures WorkerEnabled(s, a) <==> WorkerMay(cfg, h, a)
  {
  }

  lemma WorkerMayIs(cfg: Config, acts: seq<Action>, a: Action)
    requires cfg.Valid() && Run(cfg, acts).Some? && OnWorker(a)
    ensures WorkerEnabled(Run(cfg, acts).value, a) <==> WorkerMay(cfg, acts, a)
  {
    PairCount(cfg, acts);
    if IsWorker(cfg, a.w) {
      Hosts(cfg, a.w);
      WorkerHistory(cfg, acts, a.w);
      QueueOf(cfg, acts, a.w);
      Order(cfg, acts, a.w);
      ConsumerHistory(cfg, acts, HostOf(cfg, a.w));
      if a.Deliver? {
        QueueIs(cfg, acts, a.d);
      }
      var s := Run(cfg, acts).value;
      WorkerShows(cfg, acts, a.w, s.workers[a.w]);
      ConsumerShows(cfg, acts, HostOf(cfg, a.w), s.consumers[HostOf(cfg, a.w)]);
      ChannelMayIs(cfg, s, acts, a);
    }
  }

  lemma WgOf(cfg: Config, acts: seq<Action>, p: nat)
    requires cfg.Valid() && Run(cfg, acts).Some? && p < |Run(cfg, acts).value.producers|
    ensures ProducerInv(p, Run(cfg, acts).value.producers[p], Run(cfg, acts).value.pairs)
  {
    RunInv(cfg, acts);
  }

  /** All generators of the producer are done. */
  ghost predicate AllDone(cfg: Config, h: History, p: nat) {
    forall i: nat :: IsGenerator(cfg, i) && OwnerOf(cfg, i) == p ==> GeneratorDone(i) in h
  }

  lemma WgIs(cfg: Config, acts: seq<Action>, p: nat)
    requires cfg.Valid() && Run(cfg, acts).Some? && p < |Run(cfg, acts).value.producers|
    ensures Run(cfg, acts).value.producers[p].wg == 0 <==> AllDone(cfg, acts, p)
  {
    var s := Run(cfg, acts).value;
    WgOf(cfg, acts, p);
    CountZero(s.pairs, PendingOf(p));
    PairCount(cfg, acts);
    forall i: nat | IsGenerator(cfg, i)
      ensures i < |s.pairs|
      ensures PendingOf(p)(s.pairs[i]) <==> OwnerOf(cfg, i) == p && GeneratorDone(i) !in acts
    {
      PairHistory(cfg, acts, i);
    }
  }

  lemma MayIs(cfg: Config, acts: seq<Action>, a: Action)
    requires cfg.Valid() && Run(cfg, acts).Some?
    ensures Enabled(cfg, Run(cfg, acts).value, a) <==> May(cfg, acts, a)
  {
    if OnPair(a) {
      PairMayIs(cfg, acts, a);
    } else if OnConsumer(a) {
      ConsumerMayIs(cfg, acts, a);
    } else if OnWorker(a) {
      WorkerMayIs(cfg, acts, a);
    } else {
      Sizes(cfg, acts);
      if a.p < cfg.producers {
        ProducerHistory(cfg, acts, a.p);
        WgIs(cfg, acts, a.p);
      }
    }
  }

  lemma TraceLast(cfg: Config, h: History, a: Action)
    ensures IsTrace(cfg, h + [a]) <==> IsTrace(cfg, h) && May(cfg, h, a)
  {
    var acts := h + [a];
    forall j: nat | j < |h|
      ensures acts[..j] == h[..j] && acts[j] == h[j]
    {
    }
    assert acts[..|h|] == h && acts[|h|] == a;
    if IsTrace(cfg, acts) {
      forall j: nat | j < |h|
        ensures May(cfg, h[..j], h[j])
      {
        assert May(cfg, acts[..j], acts[j]);
      }
      assert May(cfg, acts[..|h|], acts[|h|]);
    }
  }

  /**
   * The step system allows exactly the sequences of actions in which every action has its causes before it, and no
   * second chance: what may happen next is said of the sequence so far, and not of any state.
   */
  lemma {:induction false} RunIsTrace(cfg: Config, acts: seq<Action>)
    requires cfg.Valid()
    ensures Run(cfg, acts).Some? <==> IsTrace(cfg, acts)
  {
    if acts != [] {
      var h, a := acts[..|acts| - 1], acts[|acts| - 1];
      assert acts == h + [a];
      RunIsTrace(cfg, h);
      TraceLast(cfg, h, a);
      if Run(cfg, h).Some? {
        MayIs(cfg, h, a);
      }
    }
  }

  // ----- What the order of events says -----

  lemma Caused(cfg: Config, acts: seq<Action>, j: nat)
    requires cfg.Valid() && Run(cfg, acts).Some? && j < |acts|
    ensures May(cfg, acts[..j], acts[j])
  {
    RunIsTrace(cfg, acts);
  }

  lemma ClosedByTimer(cfg: Config, acts: seq<Action>, i: nat)
    requires cfg.Valid() && Run(cfg, acts).Some?
    requires IsGenerator(cfg, i) && cfg.sources[i].RealTime? && HasClosed(acts, i)
    ensures StopTimer(OwnerOf(cfg, i)) in acts
  {
    var j :| 0 <= j < |acts| && (acts[j] == CloseMessages(i, true) || acts[j] == CloseMessages(i, false));
    Caused(cfg, acts, j);
    assert StopTimer(OwnerOf(cfg, i)) in acts[..j];
  }

  /** A real-time generator goes on until the `stop` of its producer is closed, by the timer or an interrupt. */
  lemma RealTimeUntilTimer(cfg: Config, acts: seq<Action>, i: nat)
    requires cfg.Valid() && Run(cfg, acts).Some? && i < |Run(cfg, acts).value.pairs|
    requires var q := Run(cfg, acts).value.pairs[i]; q.source.RealTime? && q.generator != Generating
    ensures StopTimer(Run(cfg, acts).value.pairs[i].owner) in acts
  {
    PairCount(cfg, acts);
    PairHistory(cfg, acts, i);
    ClosedByTimer(cfg, acts, i);
  }

  /** So a producer with a real-time generator sends its "end" only after that. */
  lemma EndAfterTimer(cfg: Config, acts: seq<Action>, j: nat, i: nat)
    requires cfg.Valid() && Run(cfg, acts).Some? && j < |acts| && acts[j].SendEnd?
    requires IsGenerator(cfg, i) && cfg.sources[i].RealTime? && OwnerOf(cfg, i) == acts[j].p
    ensures StopTimer(acts[j].p) in acts[..j]
  {
    Caused(cfg, acts, j);
    Prefix(cfg, Init(cfg), acts, j);
    PairHistory(cfg, acts[..j], i);
    ClosedByTimer(cfg, acts[..j], i);
  }

  /** The supervisor sleeps min(100*2^k, 6400) milliseconds after its k-th poll, in every run. */
  lemma SleepAfterPolls(cfg: Config, acts: seq<Action>, c: nat)
    requires cfg.Valid() && Run(cfg, acts).Some? && c < |Run(cfg, acts).value.consumers|
    ensures var v, k := Run(cfg, acts).value.consumers[c].supervisor, Times(acts, Poll(c));
      v.Polling? || v.Sleeping? ==> v.t == if 100 * Supervision.Pow2(k) < 6400 then 100 * Supervision.Pow2(k) else 6400
  {
    Sizes(cfg, acts);
    ConsumerHistory(cfg, acts, c);
    Supervision.SleepIs(Times(acts, Poll(c)));
  }

  function HostIs(c: nat): Worker -> bool {
    (v: Worker) => v.host == c
  }

  /** Every consumer has as many workers as configured, and nobody else has any. */
  lemma WorkersDeployed(cfg: Config, acts: seq<Action>, c: nat)
    requires cfg.Valid() && Run(cfg, acts).Some?
    ensures Count(Run(cfg, acts).value.workers, HostIs(c)) == if c < cfg.consumers then cfg.workersEach else 0
  {
    var workers, hosts := Run(cfg, acts).value.workers, Blocks(cfg.consumers, cfg.workersEach);
    PairCount(cfg, acts);
    Sizes(cfg, acts);
    BlocksCount(cfg.consumers, cfg.workersEach, c);
    forall w | 0 <= w < |workers|
      ensures HostIs(c)(workers[w]) == OwnedBy(c)(hosts[w])
    {
      WorkerHistory(cfg, acts, w);
    }
    CountMap(workers, HostIs(c), hosts, OwnedBy(c));
  }
}
