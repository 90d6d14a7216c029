/**
 * Whether a consumer that stops has emptied the queue. At the moment its supervisor finds nothing ready, it is settled
 * which messages are sure to be acknowledged by the time it has returned: those that are already, and those its own
 * workers are handling. Every other message can be left behind.
 */
module Emptying {
  import opened Prelude
  import opened Decimal
  import opened Protocol
  import opened Invariants
  import opened Conservation
  import opened Handoff
  import opened Shutdown
  import opened Quitting

  /** A worker of consumer `c` has written the row of the message and is about to acknowledge it. */
  ghost predicate InHand(s: State, c: nat, i: nat, k: nat) {
    exists w: nat :: IsCurrent(s, c, w, i, k)
  }

  ghost predicate IsCurrent(s: State, c: nat, w: nat, i: nat, k: nat) {
    && w < |s.workers| && s.workers[w].host == c
    && s.workers[w].current.Some? && s.workers[w].current.value.delivery.id == MsgId(i, k)
  }

  /** Held by or dropped from a producer worker, or on a channel without being handled by a worker of `c`. */
  ghost predicate AtRisk(s: State, c: nat, i: nat, k: nat)
    requires i < |s.pairs|
  {
    InFlight(s, i, k) && !InHand(s, c, i, k)
  }

  ghost predicate AckedIn(t: State, i: nat, k: nat) { i < |t.pairs| && IsAcked(t, i, k) }

  /** However the run goes on, the message is acknowledged once `c` has returned with all its workers started. */
  ghost predicate SureToBeAcked(cfg: Config, acts: seq<Action>, c: nat, i: nat, k: nat)
    requires cfg.Valid()
  {
    forall more :: Run(cfg, acts + more).Some? && Gone(Run(cfg, acts + more).value, c) ==>
      AckedIn(Run(cfg, acts + more).value, i, k)
  }

  // ----- What is being handled will be acknowledged -----

  /** Worker `w` has acknowledged the message or is about to. */
  ghost predicate Done(s: State, w: nat, i: nat, k: nat) {
    w < |s.workers| && exists d :: d in Handled(s.workers[w]) && d.id == MsgId(i, k)
  }

  lemma HandledGrows(cfg: Config, s: State, a: Action)
    requires OnWorker(a) && WorkerEnabled(s, a) && QueueInv(s.workers[a.w])
    ensures Handled(s.workers[a.w]) <= Handled(WorkerStep(cfg, s.workers[a.w], a))
  {
    var w := s.workers[a.w];
    if a.Ack? {
      QueueAcknowledged(w, cfg.ackMultiple);
    }
  }

  lemma {:induction false} DoneStays(cfg: Config, acts: seq<Action>, more: seq<Action>, w: nat, i: nat, k: nat)
    requires cfg.Valid() && Run(cfg, acts).Some? && Run(cfg, acts + more).Some? && Done(Run(cfg, acts).value, w, i, k)
    ensures Done(Run(cfg, acts + more).value, w, i, k)
  {
    if more == [] {
      assert acts + more == acts;
    } else {
      var n := |more| - 1;
      assert acts + more == acts + more[..n] + [more[n]];
      RunLast(cfg, Init(cfg), acts + more[..n], more[n]);
      DoneStays(cfg, acts, more[..n], w, i, k);
      Queues(cfg, acts + more[..n]);
      DoneStep(cfg, Run(cfg, acts + more[..n]).value, more[n], w, i, k);
    }
  }

  lemma WorkerAfter(cfg: Config, s: State, a: Action, w: nat)
    requires Enabled(cfg, s, a) && w < |s.workers|
    ensures |Step(cfg, s, a).workers| == |s.workers|
    ensures Step(cfg, s, a).workers[w] ==
            if OnWorker(a) && a.w == w then WorkerStep(cfg, s.workers[w], a) else s.workers[w]
  {
  }

  lemma DoneStep(cfg: Config, s: State, a: Action, w: nat, i: nat, k: nat)
    requires QueuesInv(s) && Enabled(cfg, s, a) && Done(s, w, i, k)
    ensures Done(Step(cfg, s, a), w, i, k)
  {
    var d :| d in Handled(s.workers[w]) && d.id == MsgId(i, k);
    assert QueueInv(s.workers[w]);
    WorkerAfter(cfg, s, a, w);
    if OnWorker(a) && a.w == w {
      HandledGrows(cfg, s, a);
    }
    assert d in Handled(Step(cfg, s, a).workers[w]);
  }

  lemma GoneIsFinished(cfg: Config, acts: seq<Action>, c: nat)
    requires cfg.Valid() && Run(cfg, acts).Some? && Gone(Run(cfg, acts).value, c)
    ensures AllFinished(Run(cfg, acts).value, c)
  {
    Waits(cfg, acts, c);
    var s := Run(cfg, acts).value;
    CountZero(s.workers, ActiveOn(c));
    forall w | 0 <= w < |s.workers| && s.workers[w].host == c
      ensures s.workers[w].phase == Finished
    {
      assert !ActiveOn(c)(s.workers[w]);
    }
  }

  lemma DoneAndFinished(s: State, w: nat, i: nat, k: nat)
    requires Done(s, w, i, k) && s.workers[w].phase == Finished && QueueInv(s.workers[w]) && i < |s.pairs|
    ensures IsAcked(s, i, k)
  {
    var d :| d in Handled(s.workers[w]) && d.id == MsgId(i, k);
    assert d in AckedBag(s.workers[w]);
    assert At(s, i, k, AckedBy(w));
  }

  lemma CurrentIsDone(s: State, c: nat, w: nat, i: nat, k: nat)
    requires IsCurrent(s, c, w, i, k)
    ensures Done(s, w, i, k)
  {
    assert s.workers[w].current.value.delivery in Handled(s.workers[w]);
  }

  lemma QueueOf(cfg: Config, acts: seq<Action>, w: nat)
    requires cfg.Valid() && Run(cfg, acts).Some? && w < |Run(cfg, acts).value.workers|
    ensures QueueInv(Run(cfg, acts).value.workers[w])
  {
    Queues(cfg, acts);
  }

  lemma InHandIsAcked(cfg: Config, acts: seq<Action>, more: seq<Action>, c: nat, i: nat, k: nat)
    requires cfg.Valid() && Run(cfg, acts).Some? && Run(cfg, acts + more).Some? && InHand(Run(cfg, acts).value, c, i, k)
    requires i < |Run(cfg, acts + more).value.pairs| && Gone(Run(cfg, acts + more).value, c)
    ensures IsAcked(Run(cfg, acts + more).value, i, k)
  {
    var w: nat :| IsCurrent(Run(cfg, acts).value, c, w, i, k);
    CurrentIsDone(Run(cfg, acts).value, c, w, i, k);
    DoneStays(cfg, acts, more, w, i, k);
    HostStays(cfg, acts, more, w);
    GoneIsFinished(cfg, acts + more, c);
    QueueOf(cfg, acts + more, w);
    DoneAndFinished(Run(cfg, acts + more).value, w, i, k);
  }

  lemma GrowsAfter(cfg: Config, acts: seq<Action>, more: seq<Action>)
    requires cfg.Valid() && Run(cfg, acts).Some? && Run(cfg, acts + more).Some?
    ensures Grows(Run(cfg, acts).value, Run(cfg, acts + more).value)
  {
    var all := acts + more;
    assert all[..|acts|] == acts && all[..|all|] == all;
    RunGrows(cfg, Init(cfg), all, |acts|, |all|);
  }

  lemma HostStays(cfg: Config, acts: seq<Action>, more: seq<Action>, w: nat)
    requires cfg.Valid() && Run(cfg, acts).Some? && Run(cfg, acts + more).Some? && w < |Run(cfg, acts).value.workers|
    ensures w < |Run(cfg, acts + more).value.workers|
    ensures Run(cfg, acts + more).value.workers[w].host == Run(cfg, acts).value.workers[w].host
  {
    GrowsAfter(cfg, acts, more);
  }

  lemma SureIfHandled(cfg: Config, acts: seq<Action>, c: nat, i: nat, k: nat)
    requires cfg.Valid() && Run(cfg, acts).Some? && i < |Run(cfg, acts).value.pairs|
    requires IsAcked(Run(cfg, acts).value, i, k) || InHand(Run(cfg, acts).value, c, i, k)
    ensures SureToBeAcked(cfg, acts, c, i, k)
  {
    forall more | Run(cfg, acts + more).Some? && Gone(Run(cfg, acts + more).value, c)
      ensures AckedIn(Run(cfg, acts + more).value, i, k)
    {
      GrowsAfter(cfg, acts, more);
      if IsAcked(Run(cfg, acts).value, i, k) {
        AckedStays(Run(cfg, acts).value, Run(cfg, acts + more).value, i, k);
      } else {
        InHandIsAcked(cfg, acts, more, c, i, k);
      }
    }
  }

  // ----- Everything else can be left behind -----

  /** The supervisor of `c` has closed `stop` or is about to, and the main goroutine waits or has gone. */
  ghost predicate AboutToGo(s: State, c: nat) {
    && c < |s.consumers| && Leaving(s.consumers[c])
    && (s.consumers[c].main.Waiting? || Gone(s, c))
  }

  lemma CloseStopKeeps(cfg: Config, s: State, c: nat)
    requires c < |s.consumers| && s.consumers[c].supervisor.Stopping?
    ensures Enabled(cfg, s, CloseStop(c))
    ensures var t := Step(cfg, s, CloseStop(c));
      && t.pairs == s.pairs && t.workers == s.workers && OthersKept(s, t, c)
      && t.consumers[c].main == s.consumers[c].main && t.consumers[c].stopCloses == s.consumers[c].stopCloses + 1
      && t.consumers[c].doneCloses == s.consumers[c].doneCloses
  {
  }

  lemma OverIsClosed(cfg: Config, acts: seq<Action>, c: nat)
    requires cfg.Valid() && Run(cfg, acts).Some? && c < |Run(cfg, acts).value.consumers|
    ensures var x := Run(cfg, acts).value.consumers[c];
      && (x.supervisor.Over? ==> x.stopCloses == 1) && (!x.supervisor.Over? ==> x.stopCloses == 0)
      && (Leaving(x) && x.supervisor.polled ==> x.doneCloses == 1)
      && (x.main == Counting ==> x.doneCloses == 0)
  {
    RunInv(cfg, acts);
    var s := Run(cfg, acts).value;
    assert ConsumerInv(cfg, s.consumers[c], s.producers);
  }

  /** Winding up changes neither the generators nor what anybody but the workers of `c` has, and they take nothing. */
  ghost predicate LeftAlone(s: State, t: State, c: nat) {
    && t.pairs == s.pairs && |t.workers| == |s.workers|
    && forall w :: 0 <= w < |s.workers| ==> WorkerKept(s.workers[w], t.workers[w], c)
  }

  ghost predicate WindsUpBy(cfg: Config, acts: seq<Action>, more: seq<Action>, c: nat)
    requires cfg.Valid() && Run(cfg, acts).Some?
  {
    && Run(cfg, acts + more).Some? && Gone(Run(cfg, acts + more).value, c)
    && LeftAlone(Run(cfg, acts).value, Run(cfg, acts + more).value, c)
    && (forall a :: a in more ==> !a.Signal? && !a.CloseMessages?)
    && c < |Run(cfg, acts).value.consumers| && OthersKept(Run(cfg, acts).value, Run(cfg, acts + more).value, c)
    && Run(cfg, acts + more).value.consumers[c].doneCloses == Run(cfg, acts).value.consumers[c].doneCloses
  }

  lemma WindUpClosed(cfg: Config, acts: seq<Action>, c: nat) returns (more: seq<Action>)
    requires cfg.Valid() && Run(cfg, acts).Some? && Winding(Run(cfg, acts).value, c)
    ensures WindsUpBy(cfg, acts, more, c)
  {
    more := QuitAndReturn(cfg, acts, c);
  }

  lemma WindUpStopping(cfg: Config, acts: seq<Action>, c: nat) returns (more: seq<Action>)
    requires cfg.Valid() && Run(cfg, acts).Some? && c < |Run(cfg, acts).value.consumers|
    requires Run(cfg, acts).value.consumers[c].main.Waiting? && Run(cfg, acts).value.consumers[c].supervisor.Stopping?
    ensures WindsUpBy(cfg, acts, more, c)
  {
    CloseStopKeeps(cfg, Run(cfg, acts).value, c);
    Extend(cfg, Init(cfg), acts, CloseStop(c));
    var rest := WindUpClosed(cfg, acts + [CloseStop(c)], c);
    more := [CloseStop(c)] + rest;
    Associate(acts, [CloseStop(c)], rest);
    OthersKeptOn(Run(cfg, acts).value, Run(cfg, acts + [CloseStop(c)]).value, Run(cfg, acts + more).value, c);
  }

  /** A continuation that ends with `c` gone and nothing new acknowledged but what its workers were handling. */
  lemma WindUp(cfg: Config, acts: seq<Action>, c: nat) returns (more: seq<Action>)
    requires cfg.Valid() && Run(cfg, acts).Some? && AboutToGo(Run(cfg, acts).value, c)
    ensures WindsUpBy(cfg, acts, more, c)
  {
    var s := Run(cfg, acts).value;
    if !s.consumers[c].main.Waiting? {
      more := [];
      assert acts + more == acts;
    } else if s.consumers[c].supervisor.Over? {
      OverIsClosed(cfg, acts, c);
      more := WindUpClosed(cfg, acts, c);
    } else {
      more := WindUpStopping(cfg, acts, c);
    }
  }

  lemma HasAcked(s: State, w: nat, d: Delivery, i: nat, k: nat)
    requires w < |s.workers| && d in s.workers[w].acked && d.id == MsgId(i, k) && i < |s.pairs|
    ensures IsAcked(s, i, k)
  {
    assert d in AckedBag(s.workers[w]);
    assert At(s, i, k, AckedBy(w));
  }

  lemma NotAcked(cfg: Config, acts: seq<Action>, t: State, c: nat, i: nat, k: nat)
    requires cfg.Valid() && Run(cfg, acts).Some? && LeftAlone(Run(cfg, acts).value, t, c) && i < |t.pairs|
    requires !IsAcked(Run(cfg, acts).value, i, k) && !InHand(Run(cfg, acts).value, c, i, k)
    ensures !IsAcked(t, i, k)
  {
    var s := Run(cfg, acts).value;
    if w: nat :| At(t, i, k, AckedBy(w)) {
      var d :| d in AckedBag(t.workers[w]) && d.id == MsgId(i, k);
      assert d in t.workers[w].acked && d in Handled(t.workers[w]);
      assert WorkerKept(s.workers[w], t.workers[w], c);
      assert d in Handled(s.workers[w]);
      if d in s.workers[w].acked {
        HasAcked(s, w, d, i, k);
      } else {
        assert IsCurrent(s, c, w, i, k);
      }
    }
  }

  /** The exact condition for one message. */
  lemma AckedExactly(cfg: Config, acts: seq<Action>, c: nat, i: nat, k: nat)
    requires cfg.Valid() && Run(cfg, acts).Some? && AboutToGo(Run(cfg, acts).value, c)
    requires i < |Run(cfg, acts).value.pairs|
    ensures SureToBeAcked(cfg, acts, c, i, k) <==>
            IsAcked(Run(cfg, acts).value, i, k) || InHand(Run(cfg, acts).value, c, i, k)
  {
    if IsAcked(Run(cfg, acts).value, i, k) || InHand(Run(cfg, acts).value, c, i, k) {
      SureIfHandled(cfg, acts, c, i, k);
    } else {
      var more := WindUp(cfg, acts, c);
      NotAcked(cfg, acts, Run(cfg, acts + more).value, c, i, k);
      assert !AckedIn(Run(cfg, acts + more).value, i, k);
    }
  }

  // ----- At the poll -----

  lemma PollStep(cfg: Config, s: State, c: nat)
    requires ConsumerEnabled(s, Poll(c)) && s.ready == multiset{}
    ensures Enabled(cfg, s, Poll(c))
    ensures var t := Step(cfg, s, Poll(c));
      && t.pairs == s.pairs && t.workers == s.workers
      && t.consumers == s.consumers[c := s.consumers[c].(supervisor := SupervisorState.Stopping(true))]
  {
  }

  /** The poll that finds nothing only moves the supervisor on. */
  lemma PollKeeps(cfg: Config, acts: seq<Action>, c: nat, j: nat)
    requires cfg.Valid() && Run(cfg, acts).Some? && EmptyPoll(cfg, acts, c, j)
    ensures Run(cfg, acts[..j + 1]).Some?
    ensures var s, t := Run(cfg, acts[..j]).value, Run(cfg, acts[..j + 1]).value;
      && t.pairs == s.pairs && t.workers == s.workers && |t.consumers| == |s.consumers|
      && t.consumers[c].supervisor == SupervisorState.Stopping(true) && t.consumers[c].main == s.consumers[c].main
      && t.consumers[c].doneCloses == s.consumers[c].doneCloses
  {
    Prefix(cfg, Init(cfg), acts, j);
    PollStep(cfg, Run(cfg, acts[..j]).value, c);
  }

  lemma SamePlaces(s: State, t: State, c: nat, i: nat, k: nat)
    requires t.pairs == s.pairs && t.workers == s.workers && i < |s.pairs|
    ensures IsAcked(t, i, k) <==> IsAcked(s, i, k)
    ensures InHand(t, c, i, k) <==> InHand(s, c, i, k)
  {
    if w: nat :| At(t, i, k, AckedBy(w)) {
      assert At(s, i, k, AckedBy(w));
    }
    if w: nat :| At(s, i, k, AckedBy(w)) {
      assert At(t, i, k, AckedBy(w));
    }
    if w: nat :| IsCurrent(t, c, w, i, k) {
      assert IsCurrent(s, c, w, i, k);
    }
    if w: nat :| IsCurrent(s, c, w, i, k) {
      assert IsCurrent(t, c, w, i, k);
    }
  }

  /** With nothing ready, a message is at risk unless it is acknowledged or being handled. */
  lemma AtRiskOtherwise(cfg: Config, acts: seq<Action>, c: nat, i: nat, k: nat)
    requires cfg.Valid() && Run(cfg, acts).Some? && Run(cfg, acts).value.ready == multiset{}
    requires i < |Run(cfg, acts).value.pairs| && k < |Run(cfg, acts).value.pairs[i].taken|
    ensures var s := Run(cfg, acts).value;
      AtRisk(s, c, i, k) <==> !IsAcked(s, i, k) && !InHand(s, c, i, k)
  {
    AckedOrInFlight(cfg, acts, i, k);
    if IsAcked(Run(cfg, acts).value, i, k) {
      AckedNotInFlight(cfg, acts, i, k);
    }
  }

  lemma AckedOrInFlight(cfg: Config, acts: seq<Action>, i: nat, k: nat)
    requires cfg.Valid() && Run(cfg, acts).Some? && Run(cfg, acts).value.ready == multiset{}
    requires Taken(Run(cfg, acts).value, i, k)
    ensures IsAcked(Run(cfg, acts).value, i, k) || InFlight(Run(cfg, acts).value, i, k)
  {
    RunInv(cfg, acts);
    NotInQueue(cfg, Run(cfg, acts).value, i, k);
  }

  lemma AckedNotInFlight(cfg: Config, acts: seq<Action>, i: nat, k: nat)
    requires cfg.Valid() && Run(cfg, acts).Some? && Taken(Run(cfg, acts).value, i, k)
    requires IsAcked(Run(cfg, acts).value, i, k)
    ensures !InFlight(Run(cfg, acts).value, i, k)
  {
    var s := Run(cfg, acts).value;
    var w: nat :| At(s, i, k, AckedBy(w));
    if At(s, i, k, HeldByProducer) {
      SamePlace(cfg, acts, i, k, AckedBy(w), HeldByProducer);
    } else if At(s, i, k, DroppedAtExit) {
      SamePlace(cfg, acts, i, k, AckedBy(w), DroppedAtExit);
    } else if v: nat :| At(s, i, k, OnChannel(v)) {
      SamePlace(cfg, acts, i, k, AckedBy(w), OnChannel(v));
    }
  }

  /**
   * When the supervisor of `c` finds the queue empty and the main goroutine waits for its workers, a message is sure to
   * be acknowledged by the time `c` has returned, with all workers started, if and only if it is not at risk then.
   */
  lemma PollDecides(cfg: Config, acts: seq<Action>, c: nat, j: nat, i: nat, k: nat)
    requires cfg.Valid() && Run(cfg, acts).Some? && EmptyPoll(cfg, acts, c, j)
    requires var s := Run(cfg, acts[..j]).value;
      && (s.consumers[c].main.Waiting? || Gone(s, c))
      && i < |s.pairs| && k < |s.pairs[i].taken|
    ensures SureToBeAcked(cfg, acts[..j + 1], c, i, k) <==> !AtRisk(Run(cfg, acts[..j]).value, c, i, k)
  {
    PollKeeps(cfg, acts, c, j);
    var s, t := Run(cfg, acts[..j]).value, Run(cfg, acts[..j + 1]).value;
    AtRiskOtherwise(cfg, acts[..j], c, i, k);
    SamePlaces(s, t, c, i, k);
    AckedExactly(cfg, acts[..j + 1], c, i, k);
  }

  ghost predicate Taken(s: State, i: nat, k: nat) { i < |s.pairs| && k < |s.pairs[i].taken| }

  /** Everything that was ever handed over has been acknowledged. */
  ghost predicate AllAcked(t: State) { forall i: nat, k: nat :: Taken(t, i, k) ==> AckedIn(t, i, k) }

  ghost predicate Empties(cfg: Config, acts: seq<Action>, c: nat)
    requires cfg.Valid()
  {
    forall more :: Run(cfg, acts + more).Some? && Gone(Run(cfg, acts + more).value, c) ==>
      AllAcked(Run(cfg, acts + more).value)
  }

  ghost predicate NothingAtRisk(s: State, c: nat) {
    forall i: nat, k: nat :: Taken(s, i, k) ==> !AtRisk(s, c, i, k)
  }

  /** After the poll nothing more is handed over, when all the producers were counted. */
  lemma TakenStays(cfg: Config, acts: seq<Action>, more: seq<Action>, c: nat, i: nat, k: nat)
    requires cfg.Valid() && Run(cfg, acts).Some? && Run(cfg, acts + more).Some? && cfg.nProducers == cfg.producers
    requires c < |Run(cfg, acts).value.consumers| && Run(cfg, acts).value.consumers[c].doneCloses > 0
    ensures Taken(Run(cfg, acts + more).value, i, k) <==> Taken(Run(cfg, acts).value, i, k)
  {
    var s, t := Run(cfg, acts).value, Run(cfg, acts + more).value;
    RunInv(cfg, acts);
    DoneMeansEnded(cfg, s, c);
    AllEnded(cfg, s, s.consumers[c].heard);
    GrowsAfter(cfg, acts, more);
    assert i < |s.pairs| ==> PairGrows(s.pairs[i], t.pairs[i]);
  }

  lemma EmptiesIfSure(cfg: Config, acts: seq<Action>, c: nat)
    requires cfg.Valid() && Run(cfg, acts).Some? && cfg.nProducers == cfg.producers
    requires c < |Run(cfg, acts).value.consumers| && Run(cfg, acts).value.consumers[c].doneCloses > 0
    requires forall i: nat, k: nat :: Taken(Run(cfg, acts).value, i, k) ==> SureToBeAcked(cfg, acts, c, i, k)
    ensures Empties(cfg, acts, c)
  {
    forall more | Run(cfg, acts + more).Some? && Gone(Run(cfg, acts + more).value, c)
      ensures AllAcked(Run(cfg, acts + more).value)
    {
      forall i: nat, k: nat | Taken(Run(cfg, acts + more).value, i, k)
        ensures AckedIn(Run(cfg, acts + more).value, i, k)
      {
        TakenStays(cfg, acts, more, c, i, k);
      }
    }
  }

  lemma SureIfEmpties(cfg: Config, acts: seq<Action>, c: nat, i: nat, k: nat)
    requires cfg.Valid() && Run(cfg, acts).Some? && Empties(cfg, acts, c) && Taken(Run(cfg, acts).value, i, k)
    ensures SureToBeAcked(cfg, acts, c, i, k)
  {
    forall more | Run(cfg, acts + more).Some? && Gone(Run(cfg, acts + more).value, c)
      ensures AckedIn(Run(cfg, acts + more).value, i, k)
    {
      GrowsAfter(cfg, acts, more);
      assert PairGrows(Run(cfg, acts).value.pairs[i], Run(cfg, acts + more).value.pairs[i]);
      assert Taken(Run(cfg, acts + more).value, i, k);
    }
  }

  /**
   * So the consumers are sure to have emptied the queue, and every message handed over to be acknowledged once `c` has
   * returned, if and only if nothing is at risk when its supervisor finds the queue empty.
   */
  lemma EmptiedExactly(cfg: Config, acts: seq<Action>, c: nat, j: nat)
    requires cfg.Valid() && Run(cfg, acts).Some? && EmptyPoll(cfg, acts, c, j) && cfg.nProducers == cfg.producers
    requires var s := Run(cfg, acts[..j]).value; s.consumers[c].main.Waiting? || Gone(s, c)
    ensures Empties(cfg, acts[..j + 1], c) <==> NothingAtRisk(Run(cfg, acts[..j]).value, c)
  {
    PollKeeps(cfg, acts, c, j);
    var s, p := Run(cfg, acts[..j]).value, acts[..j + 1];
    forall i: nat, k: nat | Taken(s, i, k)
      ensures SureToBeAcked(cfg, p, c, i, k) <==> !AtRisk(s, c, i, k)
    {
      PollDecides(cfg, acts, c, j, i, k);
    }
    if NothingAtRisk(s, c) {
      EmptiesIfSure(cfg, p, c);
    } else if Empties(cfg, p, c) {
      var i: nat, k: nat :| Taken(s, i, k) && AtRisk(s, c, i, k);
      SureIfEmpties(cfg, p, c, i, k);
    }
  }

  /**
   * A consumer that has gone without an interrupt at its supervisor had found the queue empty once, and whatever is
   * unacknowledged now was at risk then.
   */
  lemma StopSettles(cfg: Config, acts: seq<Action>, c: nat)
    requires cfg.Valid() && Run(cfg, acts).Some? && Gone(Run(cfg, acts).value, c) && cfg.nProducers == cfg.producers
    requires Run(cfg, acts).value.consumers[c].stopCloses > 0 && InterruptSupervisor(c) !in acts
    ensures exists j: nat :: EmptyPoll(cfg, acts, c, j) && LeftWasAtRisk(cfg, acts, c, j)
  {
    StopCausality(cfg, acts, c);
    var j: nat :| EmptyPoll(cfg, acts, c, j) && PollExplains(cfg, acts, c, j);
    forall i: nat, k: nat | Taken(Run(cfg, acts).value, i, k) && !IsAcked(Run(cfg, acts).value, i, k)
      ensures Taken(Run(cfg, acts[..j]).value, i, k) && AtRisk(Run(cfg, acts[..j]).value, c, i, k)
    {
      if InHand(Run(cfg, acts[..j]).value, c, i, k) {
        assert acts[..j] + acts[j..] == acts;
        InHandIsAcked(cfg, acts[..j], acts[j..], c, i, k);
      }
    }
  }

  ghost predicate LeftWasAtRisk(cfg: Config, acts: seq<Action>, c: nat, j: nat)
    requires cfg.Valid() && Run(cfg, acts).Some? && EmptyPoll(cfg, acts, c, j)
  {
    forall i: nat, k: nat :: Taken(Run(cfg, acts).value, i, k) && !IsAcked(Run(cfg, acts).value, i, k) ==>
      Taken(Run(cfg, acts[..j]).value, i, k) && AtRisk(Run(cfg, acts[..j]).value, c, i, k)
  }

  // ----- Left in the queue -----

  /** The message is on the channel of a worker of `c` that has not come to it. */
  ghost predicate StillWaiting(s: State, c: nat, i: nat, k: nat)
    requires i < |s.pairs|
  {
    (exists w: nat :: w < |s.workers| && s.workers[w].host == c && At(s, i, k, OnChannel(w))) && !InHand(s, c, i, k)
  }

  lemma PublishKeeps(cfg: Config, s: State, i: nat, now: int64)
    requires i < |s.pairs| && s.pairs[i].held.Some? && s.pairs[i].owner < |s.producers|
    ensures Enabled(cfg, s, Publish(i, now))
    ensures var t := Step(cfg, s, Publish(i, now));
      && t.workers == s.workers && t.consumers == s.consumers && |t.pairs| == |s.pairs|
      && Delivery(MsgId(i, |s.pairs[i].published|), s.pairs[i].held.value, FormatInt(now)) in t.ready
  {
    var d := PairStep(i, s.pairs[i], Publish(i, now)).published[|s.pairs[i].published|];
    assert d in s.ready + multiset{d};
  }

  /** A message that a producer worker still holds can end up in the queue of a consumer that has gone. */
  lemma HeldIsLeftBehind(cfg: Config, acts: seq<Action>, c: nat, i: nat, k: nat, now: int64) returns (more: seq<Action>)
    requires cfg.Valid() && Run(cfg, acts).Some? && AboutToGo(Run(cfg, acts).value, c)
    requires i < |Run(cfg, acts).value.pairs| && At(Run(cfg, acts).value, i, k, HeldByProducer)
    ensures Run(cfg, acts + more).Some? && Gone(Run(cfg, acts + more).value, c)
    ensures i < |Run(cfg, acts + more).value.pairs| && At(Run(cfg, acts + more).value, i, k, InQueue)
  {
    var wind := WindUp(cfg, acts, c);
    var m := Run(cfg, acts + wind).value;
    HeldFacts(cfg, acts + wind, i, k);
    PublishKeeps(cfg, m, i, now);
    Extend(cfg, Init(cfg), acts + wind, Publish(i, now));
    more := wind + [Publish(i, now)];
    Associate(acts, wind, [Publish(i, now)]);
  }

  lemma HeldFacts(cfg: Config, acts: seq<Action>, i: nat, k: nat)
    requires cfg.Valid() && Run(cfg, acts).Some? && i < |Run(cfg, acts).value.pairs|
    requires At(Run(cfg, acts).value, i, k, HeldByProducer)
    ensures var s := Run(cfg, acts).value; s.pairs[i].owner < |s.producers| && |s.pairs[i].published| == k
  {
    RunInv(cfg, acts);
    assert PairInv(i, Run(cfg, acts).value.pairs[i]);
  }

  /** And so can a message that waits on a channel of its own. */
  lemma WaitingIsLeftBehind(cfg: Config, acts: seq<Action>, c: nat, i: nat, k: nat) returns (more: seq<Action>)
    requires cfg.Valid() && Run(cfg, acts).Some? && AboutToGo(Run(cfg, acts).value, c)
    requires Taken(Run(cfg, acts).value, i, k) && StillWaiting(Run(cfg, acts).value, c, i, k)
    ensures Run(cfg, acts + more).Some? && Gone(Run(cfg, acts + more).value, c)
    ensures i < |Run(cfg, acts + more).value.pairs| && At(Run(cfg, acts + more).value, i, k, InQueue)
  {
    more := WindUp(cfg, acts, c);
    var p := PlaceAfter(cfg, acts + more, i, k);
    if p != InQueue {
      NotElsewhere(cfg, acts, more, c, i, k, p);
    }
  }

  lemma PlaceAfter(cfg: Config, acts: seq<Action>, i: nat, k: nat) returns (p: Place)
    requires cfg.Valid() && Run(cfg, acts).Some? && Taken(Run(cfg, acts).value, i, k)
    ensures At(Run(cfg, acts).value, i, k, p)
  {
    RunInv(cfg, acts);
    p := SomePlace(cfg, Run(cfg, acts).value, i, k);
  }

  lemma SamePlace(cfg: Config, acts: seq<Action>, i: nat, k: nat, p: Place, q: Place)
    requires cfg.Valid() && Run(cfg, acts).Some? && Taken(Run(cfg, acts).value, i, k)
    requires At(Run(cfg, acts).value, i, k, p) && At(Run(cfg, acts).value, i, k, q)
    ensures p == q
  {
    RunInv(cfg, acts);
    OnePlace(cfg, Run(cfg, acts).value, i, k, p, q);
  }

  /** After the winding up, what waited is neither acknowledged nor on any channel nor with a producer. */
  lemma NotElsewhere(cfg: Config, acts: seq<Action>, more: seq<Action>, c: nat, i: nat, k: nat, p: Place)
    requires cfg.Valid() && Run(cfg, acts).Some? && WindsUpBy(cfg, acts, more, c)
    requires Taken(Run(cfg, acts).value, i, k) && StillWaiting(Run(cfg, acts).value, c, i, k) && p != InQueue
    ensures !At(Run(cfg, acts + more).value, i, k, p)
  {
    var s, t := Run(cfg, acts).value, Run(cfg, acts + more).value;
    var v: nat :| v < |s.workers| && s.workers[v].host == c && At(s, i, k, OnChannel(v));
    if At(t, i, k, p) {
      if p.AckedBy? {
        if w: nat :| At(s, i, k, AckedBy(w)) {
          SamePlace(cfg, acts, i, k, OnChannel(v), AckedBy(w));
        }
        NotAcked(cfg, acts, t, c, i, k);
      } else {
        if p.OnChannel? {
          NoChannel(cfg, acts, more, c, p.w, i, k);
        }
        SamePlace(cfg, acts, i, k, OnChannel(v), p);
      }
    }
  }

  lemma NoChannel(cfg: Config, acts: seq<Action>, more: seq<Action>, c: nat, w: nat, i: nat, k: nat)
    requires cfg.Valid() && Run(cfg, acts).Some? && WindsUpBy(cfg, acts, more, c)
    requires i < |Run(cfg, acts).value.pairs| && At(Run(cfg, acts + more).value, i, k, OnChannel(w))
    ensures Run(cfg, acts).value.workers[w].host != c && At(Run(cfg, acts).value, i, k, OnChannel(w))
  {
    GoneIsFinished(cfg, acts + more, c);
    QueueOf(cfg, acts + more, w);
    assert WorkerKept(Run(cfg, acts).value.workers[w], Run(cfg, acts + more).value.workers[w], c);
  }
}
