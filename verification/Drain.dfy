/** Once no producer can publish, the consumers' work comes to an end. */
module Drain {
  import opened Prelude
  import opened Protocol
  import opened Invariants

  /** No generator is running and no producer worker holds a message. */
  ghost predicate Quiet(s: State) {
    forall i :: 0 <= i < |s.pairs| ==> s.pairs[i].generator != Generating && s.pairs[i].held.None?
  }

  /** Everything a consumer worker and its channel do, except moving text from the buffer to the disk. */
  predicate DrainAction(a: Action) {
    OnWorker(a) && !a.Spill?
  }

  function Rank(w: Worker): nat {
    match w.phase
    case Created => 5
    case Running => 4
    case Exiting => 3
    case Flushed => 2
    case ChannelClosed => 1
    case Finished => 0
  }

  /** A delivery weighs 3 in the queue, 2 on a channel and 1 between its row and its acknowledgement. */
  function Load(w: Worker): nat { 2 * |w.local| + |OptSeq(w.current)| }

  function Held(w: Worker): nat { |w.unacked| }

  function Ranks(s: State): nat { Sum(s.workers, Rank) }

  function Weight(s: State): nat { 3 * |s.ready| + Sum(s.workers, Load) }

  function Outstanding(s: State): nat { |s.ready| + Sum(s.workers, Held) }

  /** How many steps the drain can take at most: each stage of each worker may find every message requeued. */
  function Potential(s: State): nat { Combine(Ranks(s), Outstanding(s), Weight(s)) }

  function Combine(ranks: nat, outstanding: nat, weight: nat): nat { ranks * (3 * outstanding + 1) + weight }

  lemma {:induction false} LoadBound(workers: seq<Worker>)
    requires forall w :: 0 <= w < |workers| ==> QueueInv(workers[w])
    ensures Sum(workers, Load) <= 2 * Sum(workers, Held)
  {
    if workers != [] {
      var n := |workers| - 1;
      assert QueueInv(workers[n]);
      assert forall w :: 0 <= w < n ==> workers[..n][w] == workers[w];
      LoadBound(workers[..n]);
    }
  }

  lemma {:induction false} UntaggedSize(u: seq<Tagged>)
    ensures |Untagged(u)| == |u|
  {
    if u != [] {
      UntaggedSize(u[1..]);
    }
  }

  /** Messages do not become more, and each move of one takes weight off. */
  lemma MessageMeasure(cfg: Config, s: State, a: Action)
    requires QueuesInv(s) && Enabled(cfg, s, a) && (a.Deliver? || a.Record? || a.Ack?)
    ensures var w, w' := s.workers[a.w], WorkerStep(cfg, s.workers[a.w], a);
      var r, r' := |s.ready|, |ReadyAfter(cfg, s, a)|;
      && Rank(w') == Rank(w) && r' + Held(w') <= r + Held(w) && 3 * r' + Load(w') < 3 * r + Load(w)
  {
    var w := s.workers[a.w];
    assert QueueInv(w);
    if a.Ack? {
      QueueAcknowledged(w, cfg.ackMultiple);
    }
  }

  lemma PhaseMeasure(cfg: Config, s: State, a: Action)
    requires QueuesInv(s) && Enabled(cfg, s, a) && OnWorker(a) && !(a.Deliver? || a.Record? || a.Ack? || a.Spill?)
    ensures var w, w' := s.workers[a.w], WorkerStep(cfg, s.workers[a.w], a);
      Rank(w') < Rank(w) && |ReadyAfter(cfg, s, a)| + Held(w') <= |s.ready| + Held(w)
  {
    if a.CloseChannel? {
      UntaggedSize(s.workers[a.w].unacked);
    }
  }

  /** What each worker step does to rank, load, channel and queue. */
  lemma WorkerMeasure(cfg: Config, s: State, a: Action)
    requires QueuesInv(s) && Enabled(cfg, s, a) && OnWorker(a)
    ensures var w, w' := s.workers[a.w], WorkerStep(cfg, s.workers[a.w], a);
      var r, r' := |s.ready|, |ReadyAfter(cfg, s, a)|;
      && Rank(w') <= Rank(w)
      && r' + Held(w') <= r + Held(w)
      && (a.Spill? ==> Rank(w') == Rank(w) && Load(w') == Load(w) && r' == r && Held(w') == Held(w))
      && (!a.Spill? ==> Rank(w') < Rank(w) || (Rank(w') == Rank(w) && 3 * r' + Load(w') < 3 * r + Load(w)))
  {
    if a.Deliver? || a.Record? || a.Ack? {
      MessageMeasure(cfg, s, a);
    } else if !a.Spill? {
      PhaseMeasure(cfg, s, a);
    }
  }

  lemma MeasureStep(cfg: Config, s: State, a: Action)
    requires QueuesInv(s) && Enabled(cfg, s, a) && OnWorker(a)
    ensures var t := Step(cfg, s, a);
      && Ranks(t) <= Ranks(s) && Outstanding(t) <= Outstanding(s)
      && (a.Spill? ==> Ranks(t) == Ranks(s) && Weight(t) == Weight(s) && Outstanding(t) == Outstanding(s))
      && (!a.Spill? ==> Ranks(t) < Ranks(s) || (Ranks(t) == Ranks(s) && Weight(t) < Weight(s)))
  {
    var w' := WorkerStep(cfg, s.workers[a.w], a);
    WorkerMeasure(cfg, s, a);
    SumUpdate(s.workers, a.w, w', Rank);
    SumUpdate(s.workers, a.w, w', Load);
    SumUpdate(s.workers, a.w, w', Held);
  }

  /** The lexicographic decrease as a decrease of one number. */
  lemma LexDecrease(r: nat, m: nat, w: nat, r': nat, m': nat, w': nat)
    requires r' <= r && m' <= m && w' <= 3 * m'
    requires r' < r || w' < w
    ensures Combine(r', m', w') < Combine(r, m, w)
  {
    var b, b' := 3 * m + 1, 3 * m' + 1;
    assert r' * b' <= r' * b by { Multiply(b', b, r'); }
    if r' < r {
      assert (r' + 1) * b <= r * b by { Multiply(r' + 1, r, b); }
      assert (r' + 1) * b == r' * b + b;
    } else {
      assert r' * b == r * b;
    }
  }

  lemma WeightBound(s: State)
    requires QueuesInv(s)
    ensures Weight(s) <= 3 * Outstanding(s)
  {
    LoadBound(s.workers);
  }

  lemma WorkerDrain(cfg: Config, s: State, a: Action, t: State)
    requires Enabled(cfg, s, a) && QueuesInv(s) && t == Step(cfg, s, a) && QueuesInv(t) && OnWorker(a)
    ensures DrainAction(a) ==> Potential(t) < Potential(s)
    ensures !DrainAction(a) ==> Potential(t) == Potential(s)
  {
    MeasureStep(cfg, s, a);
    WeightBound(t);
    if DrainAction(a) {
      LexDecrease(Ranks(s), Outstanding(s), Weight(s), Ranks(t), Outstanding(t), Weight(t));
    }
  }

  lemma OtherDrain(cfg: Config, s: State, a: Action)
    requires Enabled(cfg, s, a) && !OnWorker(a) && !a.Publish?
    ensures Potential(Step(cfg, s, a)) == Potential(s)
  {
    assert Step(cfg, s, a).workers == s.workers;
    assert Step(cfg, s, a).ready == s.ready;
  }

  lemma DrainStep(cfg: Config, s: State, a: Action)
    requires Enabled(cfg, s, a) && QueuesInv(s) && QueuesInv(Step(cfg, s, a)) && Quiet(s)
    ensures Quiet(Step(cfg, s, a))
    ensures DrainAction(a) ==> Potential(Step(cfg, s, a)) < Potential(s)
    ensures !DrainAction(a) ==> Potential(Step(cfg, s, a)) == Potential(s)
  {
    QuietStays(cfg, s, a);
    if OnWorker(a) {
      WorkerDrain(cfg, s, a, Step(cfg, s, a));
    } else {
      OtherDrain(cfg, s, a);
    }
  }

  lemma DrainNext(cfg: Config, s: State, a: Action)
    requires Inv(cfg, s) && Quiet(s) && Enabled(cfg, s, a)
    ensures Quiet(Step(cfg, s, a))
    ensures Potential(Step(cfg, s, a)) + (if DrainAction(a) then 1 else 0) <= Potential(s)
  {
    StepQueues(cfg, s, a);
    DrainStep(cfg, s, a);
  }

  lemma CountLast(acts: seq<Action>)
    requires acts != []
    ensures Count(acts, DrainAction) ==
            Count(acts[..|acts| - 1], DrainAction) + if DrainAction(acts[|acts| - 1]) then 1 else 0
  {
  }

  lemma QuietStays(cfg: Config, s: State, a: Action)
    requires Quiet(s) && Enabled(cfg, s, a)
    ensures Quiet(Step(cfg, s, a)) && !a.Publish?
  {
  }

  ghost predicate Bounded(cfg: Config, s: State, acts: seq<Action>) {
    match RunFrom(cfg, s, acts)
    case None => false
    case Some(x) => Inv(cfg, x) && Quiet(x) && Count(acts, DrainAction) + Potential(x) <= Potential(s)
  }

  lemma BoundedNext(cfg: Config, s: State, acts: seq<Action>)
    requires acts != [] && Bounded(cfg, s, acts[..|acts| - 1]) && RunFrom(cfg, s, acts).Some?
    ensures Bounded(cfg, s, acts)
  {
    var x, a := RunFrom(cfg, s, acts[..|acts| - 1]).value, acts[|acts| - 1];
    StepInv(cfg, x, a);
    DrainNext(cfg, x, a);
    CountLast(acts);
  }

  lemma {:induction false} RunBounded(cfg: Config, s: State, acts: seq<Action>)
    requires Inv(cfg, s) && Quiet(s) && RunFrom(cfg, s, acts).Some?
    ensures Bounded(cfg, s, acts)
  {
    if acts != [] {
      RunBounded(cfg, s, acts[..|acts| - 1]);
      BoundedNext(cfg, s, acts);
    }
  }

  /**
   * From any state in which no producer can publish, every schedule, whatever else happens in between, contains at
   * most `Potential` drain steps.
   */
  lemma DrainTerminates(cfg: Config, s: State, acts: seq<Action>)
    requires Inv(cfg, s) && Quiet(s) && RunFrom(cfg, s, acts).Some?
    ensures Quiet(RunFrom(cfg, s, acts).value)
    ensures Count(acts, DrainAction) + Potential(RunFrom(cfg, s, acts).value) <= Potential(s)
  {
    RunBounded(cfg, s, acts);
  }

  /** A worker that is on its way out, or has something to handle, can take a step of its own. */
  lemma OwnStep(s: State, w: nat) returns (a: Action)
    requires w < |s.workers| && s.workers[w].host < |s.consumers| && Active(s.workers[w])
    requires s.workers[w].phase == Running ==>
      s.workers[w].current.Some? || s.workers[w].local != [] || s.consumers[s.workers[w].host].stopCloses > 0
    ensures DrainAction(a) && !a.Deliver? && a.w == w && WorkerEnabled(s, a)
  {
    match s.workers[w].phase
    case Running =>
      if s.workers[w].current.Some? {
        a := Ack(w);
      } else if s.workers[w].local != [] {
        a := Record(w, 0);
      } else {
        a := SeeStop(w);
      }
    case Exiting => a := Flush(w);
    case Flushed => a := CloseChannel(w);
    case ChannelClosed => a := FinishWorker(w);
  }

  ghost predicate Drained(s: State) {
    forall a :: DrainAction(a) ==> !WorkerEnabled(s, a)
  }

  lemma WorkerAtRest(s: State, w: nat)
    requires Drained(s) && QueuesInv(s)
    requires w < |s.workers| && s.workers[w].host < |s.consumers|
    ensures s.workers[w].phase == Created || s.workers[w].phase == Running || s.workers[w].phase == Finished
    ensures s.workers[w].unacked == []
  {
    assert QueueInv(s.workers[w]);
    if Active(s.workers[w]) && (s.workers[w].phase == Running ==> s.workers[w].unacked != []) {
      var a := OwnStep(s, w);
      assert false;
    }
  }

  lemma ChannelDelivers(s: State, w: nat, d: Delivery)
    requires d in s.ready && w < |s.workers| && s.workers[w].host < |s.consumers| && ChannelOpen(s.workers[w])
    ensures DrainAction(Deliver(w, d)) && WorkerEnabled(s, Deliver(w, d))
  {
  }

  /** Where no drain step is left, the queue is empty or no worker has a channel, and no worker is halfway out. */
  lemma DrainEnds(cfg: Config, s: State)
    requires Inv(cfg, s) && Drained(s)
    ensures s.ready == multiset{} || forall w :: 0 <= w < |s.workers| ==> !ChannelOpen(s.workers[w])
    ensures forall w :: 0 <= w < |s.workers| ==>
      && (s.workers[w].phase == Created || s.workers[w].phase == Running || s.workers[w].phase == Finished)
      && s.workers[w].unacked == []
  {
    assert Shape(cfg, s);
    forall w | 0 <= w < |s.workers|
      ensures s.workers[w].phase == Created || s.workers[w].phase == Running || s.workers[w].phase == Finished
      ensures s.workers[w].unacked == []
      ensures s.ready != multiset{} ==> !ChannelOpen(s.workers[w])
    {
      WorkerAtRest(s, w);
      if s.ready != multiset{} && ChannelOpen(s.workers[w]) {
        var d :| d in s.ready;
        ChannelDelivers(s, w, d);
      }
    }
  }

  lemma SomeActive(s: State, c: nat) returns (w: nat)
    requires WaitsInv(s) && c < |s.consumers| && s.consumers[c].wg > 0
    ensures w < |s.workers| && s.workers[w].host == c && Active(s.workers[w])
  {
    assert WaitInv(c, s.consumers[c], s.workers);
    CountZero(s.workers, ActiveOn(c));
    w :| 0 <= w < |s.workers| && ActiveOn(c)(s.workers[w]);
  }

  /** With `stop` closed, a consumer that still waits for workers always has one that can take a step of its own. */
  lemma WaitersProgress(cfg: Config, s: State, c: nat) returns (a: Action)
    requires Inv(cfg, s) && c < |s.consumers| && s.consumers[c].stopCloses > 0 && s.consumers[c].wg > 0
    ensures DrainAction(a) && !a.Deliver? && a.w < |s.workers| && s.workers[a.w].host == c
    ensures WorkerEnabled(s, a)
  {
    var w := SomeActive(s, c);
    a := OwnStep(s, w);
  }
}
