/**
 * A consumer whose `stop` is closed can always wind up: a schedule in which its workers finish the delivery they are
 * at, flush and leave, without receiving anything more, and its main goroutine returns.
 */
module Quitting {
  import opened Prelude
  import opened Protocol
  import opened Invariants
  import Drain

  predicate QuitAction(a: Action) {
    a.StartWorker? || a.Ack? || a.SeeStop? || a.Flush? || a.CloseChannel? || a.FinishWorker?
  }

  /** What a worker has acknowledged once it is done with the delivery it is at. */
  function Handled(w: Worker): seq<Delivery> {
    w.acked + match w.current case None => [] case Some(x) => [x.delivery]
  }

  /** Nothing but consumer `c`'s own workers and its wait group has changed, and they have received nothing new. */
  ghost predicate Kept(s: State, t: State, c: nat) {
    && t.pairs == s.pairs && t.producers == s.producers
    && |t.consumers| == |s.consumers| && |t.workers| == |s.workers|
    && (forall b :: 0 <= b < |s.consumers| ==> ConsumerKept(s.consumers[b], t.consumers[b], b == c))
    && (forall w :: 0 <= w < |s.workers| ==> WorkerKept(s.workers[w], t.workers[w], c))
  }

  ghost predicate ConsumerKept(x: Consumer, y: Consumer, own: bool) {
    if own then y == x.(wg := y.wg) else y == x
  }

  ghost predicate WorkerKept(w: Worker, v: Worker, c: nat) {
    && v.host == w.host
    && if w.host == c then Handled(v) == Handled(w) && (w.phase != Created ==> v.phase != Created) else v == w
  }

  lemma KeptOn(s: State, t: State, u: State, c: nat)
    requires Kept(s, t, c) && Kept(t, u, c)
    ensures Kept(s, u, c)
  {
    forall b | 0 <= b < |s.consumers|
      ensures ConsumerKept(s.consumers[b], u.consumers[b], b == c)
    {
      assert ConsumerKept(s.consumers[b], t.consumers[b], b == c);
      assert ConsumerKept(t.consumers[b], u.consumers[b], b == c);
    }
    forall w | 0 <= w < |s.workers|
      ensures WorkerKept(s.workers[w], u.workers[w], c)
    {
      assert WorkerKept(s.workers[w], t.workers[w], c) && WorkerKept(t.workers[w], u.workers[w], c);
    }
  }

  /** How many steps a worker of `c` still has to take. */
  function Distance(c: nat): Worker -> nat {
    (w: Worker) => if w.host == c then 2 * Drain.Rank(w) + |OptSeq(w.current)| else 0
  }

  lemma QuitWorker(cfg: Config, s: State, a: Action)
    requires QueuesInv(s) && Enabled(cfg, s, a) && QuitAction(a)
    ensures var c := s.workers[a.w].host;
      && WorkerKept(s.workers[a.w], WorkerStep(cfg, s.workers[a.w], a), c)
      && Distance(c)(WorkerStep(cfg, s.workers[a.w], a)) < Distance(c)(s.workers[a.w])
  {
    var w := s.workers[a.w];
    assert QueueInv(w);
    if a.Ack? {
      QueueAcknowledged(w, cfg.ackMultiple);
      assert w.acked + [w.current.value.delivery] + [] == w.acked + [w.current.value.delivery];
    }
  }

  lemma QuitConsumers(cfg: Config, s: State, a: Action)
    requires Enabled(cfg, s, a) && QuitAction(a)
    ensures forall b :: 0 <= b < |s.consumers| ==>
      ConsumerKept(s.consumers[b], ConsumersAfter(cfg, s, a)[b], b == s.workers[a.w].host)
  {
  }

  lemma QuitStep(cfg: Config, s: State, a: Action)
    requires Enabled(cfg, s, a) && QuitAction(a)
    requires WorkerKept(s.workers[a.w], WorkerStep(cfg, s.workers[a.w], a), s.workers[a.w].host)
    ensures Kept(s, Step(cfg, s, a), s.workers[a.w].host)
    ensures Step(cfg, s, a).workers == s.workers[a.w := WorkerStep(cfg, s.workers[a.w], a)]
  {
    QuitWorkers(cfg, s, a);
    QuitConsumers(cfg, s, a);
  }

  lemma QuitWorkers(cfg: Config, s: State, a: Action)
    requires Enabled(cfg, s, a) && QuitAction(a)
    ensures WorkersAfter(cfg, s, a) == s.workers[a.w := WorkerStep(cfg, s.workers[a.w], a)]
  {
  }

  /** Consumer `c` waits for its workers, and nothing keeps them. */
  ghost predicate Winding(s: State, c: nat) {
    c < |s.consumers| && s.consumers[c].main.Waiting? && s.consumers[c].stopCloses > 0
  }

  /** A worker that has not finished can take a step towards it. */
  lemma NextStep(cfg: Config, s: State, c: nat, w: nat) returns (a: Action)
    requires Winding(s, c) && w < |s.workers| && s.workers[w].host == c && s.workers[w].phase != Finished
    ensures QuitAction(a) && a.w == w && Enabled(cfg, s, a)
  {
    match s.workers[w].phase
    case Created => a := StartWorker(w);
    case Running => a := if s.workers[w].current.Some? then Ack(w) else SeeStop(w);
    case Exiting => a := Flush(w);
    case Flushed => a := CloseChannel(w);
    case ChannelClosed => a := FinishWorker(w);
  }

  lemma StepTowards(cfg: Config, pre: seq<Action>, c: nat, w: nat) returns (a: Action)
    requires cfg.Valid() && Run(cfg, pre).Some? && Winding(Run(cfg, pre).value, c)
    requires var s := Run(cfg, pre).value;
      w < |s.workers| && s.workers[w].host == c && s.workers[w].phase != Finished
    ensures QuitAction(a) && Run(cfg, pre + [a]).Some?
    ensures Kept(Run(cfg, pre).value, Run(cfg, pre + [a]).value, c)
    ensures Sum(Run(cfg, pre + [a]).value.workers, Distance(c)) < Sum(Run(cfg, pre).value.workers, Distance(c))
  {
    var s := Run(cfg, pre).value;
    a := NextStep(cfg, s, c, w);
    Queues(cfg, pre);
    QuitWorker(cfg, s, a);
    QuitStep(cfg, s, a);
    SumUpdate(s.workers, w, WorkerStep(cfg, s.workers[w], a), Distance(c));
    Extend(cfg, Init(cfg), pre, a);
  }

  lemma Queues(cfg: Config, pre: seq<Action>)
    requires cfg.Valid() && Run(cfg, pre).Some?
    ensures QueuesInv(Run(cfg, pre).value)
  {
    RunInv(cfg, pre);
  }

  lemma StillWinding(s: State, t: State, c: nat)
    requires Winding(s, c) && Kept(s, t, c)
    ensures Winding(t, c)
  {
    assert ConsumerKept(s.consumers[c], t.consumers[c], true);
  }

  lemma KeptItself(s: State, c: nat)
    ensures Kept(s, s, c)
  {
  }

  ghost predicate AllFinished(s: State, c: nat) {
    forall w :: 0 <= w < |s.workers| && s.workers[w].host == c ==> s.workers[w].phase == Finished
  }

  /** After `pre`, the actions `acts` bring all workers of `c` to their end. */
  ghost predicate QuitsBy(cfg: Config, pre: seq<Action>, acts: seq<Action>, c: nat)
    requires cfg.Valid() && Run(cfg, pre).Some?
  {
    && Run(cfg, pre + acts).Some? && Kept(Run(cfg, pre).value, Run(cfg, pre + acts).value, c)
    && AllFinished(Run(cfg, pre + acts).value, c) && forall a :: a in acts ==> QuitAction(a)
  }

  lemma QuitsOnward(cfg: Config, pre: seq<Action>, a: Action, rest: seq<Action>, c: nat)
    requires cfg.Valid() && Run(cfg, pre).Some? && QuitAction(a) && Run(cfg, pre + [a]).Some?
    requires Kept(Run(cfg, pre).value, Run(cfg, pre + [a]).value, c) && QuitsBy(cfg, pre + [a], rest, c)
    ensures QuitsBy(cfg, pre, [a] + rest, c)
  {
    Associate(pre, [a], rest);
    KeptOn(Run(cfg, pre).value, Run(cfg, pre + [a]).value, Run(cfg, pre + [a] + rest).value, c);
  }

  lemma QuitAlready(cfg: Config, pre: seq<Action>, c: nat)
    requires cfg.Valid() && Run(cfg, pre).Some? && AllFinished(Run(cfg, pre).value, c)
    ensures QuitsBy(cfg, pre, [], c)
  {
    assert pre + [] == pre;
    KeptItself(Run(cfg, pre).value, c);
  }

  /** The workers of `c` leave one step at a time. */
  lemma {:induction false} Quit(cfg: Config, pre: seq<Action>, c: nat) returns (acts: seq<Action>)
    requires cfg.Valid() && Run(cfg, pre).Some? && Winding(Run(cfg, pre).value, c)
    ensures QuitsBy(cfg, pre, acts, c)
    decreases Sum(Run(cfg, pre).value.workers, Distance(c))
  {
    var s := Run(cfg, pre).value;
    if w: nat :| w < |s.workers| && s.workers[w].host == c && s.workers[w].phase != Finished {
      var a := StepTowards(cfg, pre, c, w);
      StillWinding(s, Run(cfg, pre + [a]).value, c);
      var rest := Quit(cfg, pre + [a], c);
      QuitsOnward(cfg, pre, a, rest, c);
      acts := [a] + rest;
    } else {
      QuitAlready(cfg, pre, c);
      acts := [];
    }
  }

  /** The consumer has returned, and there is no worker of its that has not started. */
  ghost predicate Gone(s: State, c: nat) {
    c < |s.consumers| && s.consumers[c].main.Returned? && AllStarted(s.workers, c)
  }

  lemma NobodyWaitedFor(s: State, c: nat)
    requires c < |s.consumers| && WaitInv(c, s.consumers[c], s.workers) && AllFinished(s, c)
    ensures s.consumers[c].wg == 0
  {
    CountZero(s.workers, ActiveOn(c));
  }

  lemma Waits(cfg: Config, pre: seq<Action>, c: nat)
    requires cfg.Valid() && Run(cfg, pre).Some? && c < |Run(cfg, pre).value.consumers|
    ensures WaitInv(c, Run(cfg, pre).value.consumers[c], Run(cfg, pre).value.workers)
  {
    RunInv(cfg, pre);
  }

  /** Neither the producers nor any other consumer has changed. */
  ghost predicate OthersKept(s: State, t: State, c: nat) {
    && t.producers == s.producers && |t.consumers| == |s.consumers|
    && forall b :: 0 <= b < |s.consumers| && b != c ==> t.consumers[b] == s.consumers[b]
  }

  lemma OthersKeptOn(s: State, t: State, u: State, c: nat)
    requires OthersKept(s, t, c) && OthersKept(t, u, c)
    ensures OthersKept(s, u, c)
  {
  }

  lemma OthersOfKept(s: State, t: State, c: nat)
    requires Kept(s, t, c)
    ensures OthersKept(s, t, c)
  {
    forall b | 0 <= b < |s.consumers| && b != c
      ensures t.consumers[b] == s.consumers[b]
    {
      assert ConsumerKept(s.consumers[b], t.consumers[b], false);
    }
  }

  lemma ReturnKeeps(cfg: Config, s: State, c: nat)
    requires ConsumerEnabled(s, Return(c))
    ensures var t := Step(cfg, s, Return(c));
      && Enabled(cfg, s, Return(c)) && t.workers == s.workers && t.pairs == s.pairs
      && OthersKept(s, t, c) && t.consumers[c].main.Returned?
      && t.consumers[c].doneCloses == s.consumers[c].doneCloses
  {
  }

  /** What a return leaves as it was. */
  ghost predicate WoundUp(s: State, t: State, c: nat) {
    && t.pairs == s.pairs && c < |s.consumers| && OthersKept(s, t, c) && |t.workers| == |s.workers|
    && t.consumers[c].doneCloses == s.consumers[c].doneCloses
    && (forall w :: 0 <= w < |s.workers| ==> WorkerKept(s.workers[w], t.workers[w], c))
    && AllFinished(t, c)
  }

  /** Every consumer that waits with `stop` closed can return, with nothing received beyond what it is handling. */
  lemma QuitAndReturn(cfg: Config, pre: seq<Action>, c: nat) returns (acts: seq<Action>)
    requires cfg.Valid() && Run(cfg, pre).Some? && Winding(Run(cfg, pre).value, c)
    ensures Run(cfg, pre + acts).Some? && Gone(Run(cfg, pre + acts).value, c)
    ensures WoundUp(Run(cfg, pre).value, Run(cfg, pre + acts).value, c)
    ensures forall a :: a in acts ==> QuitAction(a) || a == Return(c)
  {
    var quit := Quit(cfg, pre, c);
    var m := Run(cfg, pre + quit).value;
    StillWinding(Run(cfg, pre).value, m, c);
    Waits(cfg, pre + quit, c);
    NobodyWaitedFor(m, c);
    ReturnKeeps(cfg, m, c);
    Extend(cfg, Init(cfg), pre + quit, Return(c));
    acts := quit + [Return(c)];
    Associate(pre, quit, [Return(c)]);
    WindsUp(Run(cfg, pre).value, m, Run(cfg, pre + acts).value, c);
  }

  lemma WindsUp(s: State, m: State, t: State, c: nat)
    requires Kept(s, m, c) && AllFinished(m, c) && c < |s.consumers|
    requires t.workers == m.workers && t.pairs == m.pairs && OthersKept(m, t, c)
    requires t.consumers[c].main.Returned? && t.consumers[c].doneCloses == m.consumers[c].doneCloses
    ensures WoundUp(s, t, c) && Gone(t, c)
  {
    assert ConsumerKept(s.consumers[c], m.consumers[c], true);
    OthersOfKept(s, m, c);
    OthersKeptOn(s, m, t, c);
  }
}
