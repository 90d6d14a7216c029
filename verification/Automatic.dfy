/**
 * When an experiment stops by itself: from any reachable state, some way on without any interrupt closes `done` for a
 * consumer exactly when enough "end" messages have reached it or can still reach it.
 */
module Automatic {
  import opened Prelude
  import opened Protocol
  import opened Invariants

  // ----- The "end" messages that a consumer can count on -----

  predicate Unended(p: Producer) { !p.endSent }

  /** Those it has counted, those in its queue, and those that are not sent yet. */
  function Available(s: State, c: nat): nat
    requires c < |s.consumers|
  {
    |s.consumers[c].heard| + |s.consumers[c].inbox| + Count(s.producers, Unended)
  }

  lemma UnendedStep(cfg: Config, s: State, a: Action)
    requires Enabled(cfg, s, a)
    ensures Count(s.producers, Unended) == Count(ProducersAfter(cfg, s, a), Unended) + AsNat(a.SendEnd?)
  {
    if a.StopTimer? || a.SendEnd? {
      CountUpdate(s.producers, a.p, ProducersAfter(cfg, s, a)[a.p], Unended);
    } else if a.GeneratorDone? {
      var p := s.pairs[a.i].owner;
      CountUpdate(s.producers, p, ProducersAfter(cfg, s, a)[p], Unended);
    }
  }

  /** An "end" that is sent before the consumer has bound its queue passes it by; nothing else takes one away. */
  lemma EndsStep(cfg: Config, s: State, a: Action, c: nat)
    requires Enabled(cfg, s, a) && c < |s.consumers|
    ensures var x, x' := s.consumers[c], ConsumersAfter(cfg, s, a)[c];
      |x'.heard| + |x'.inbox| == |x.heard| + |x.inbox| + AsNat(a.SendEnd? && x.main != NotStarted)
  {
  }

  lemma AvailableStep(cfg: Config, s: State, a: Action, c: nat)
    requires Enabled(cfg, s, a) && c < |s.consumers|
    ensures Available(Step(cfg, s, a), c) <= Available(s, c)
    ensures s.consumers[c].main != NotStarted ==> Available(Step(cfg, s, a), c) == Available(s, c)
  {
    UnendedStep(cfg, s, a);
    EndsStep(cfg, s, a, c);
  }

  lemma {:induction false} AvailableAfter(cfg: Config, pre: seq<Action>, more: seq<Action>, c: nat)
    requires cfg.Valid() && Run(cfg, pre).Some? && Run(cfg, pre + more).Some? && c < |Run(cfg, pre).value.consumers|
    ensures c < |Run(cfg, pre + more).value.consumers|
    ensures Available(Run(cfg, pre + more).value, c) <= Available(Run(cfg, pre).value, c)
  {
    if more == [] {
      assert pre + more == pre;
    } else {
      var n := |more| - 1;
      assert pre + more == pre + more[..n] + [more[n]];
      RunLast(cfg, Init(cfg), pre + more[..n], more[n]);
      AvailableAfter(cfg, pre, more[..n], c);
      AvailableStep(cfg, Run(cfg, pre + more[..n]).value, more[n], c);
    }
  }

  // ----- The count -----

  /** `done` is closed by the "end" that makes the count that of the configuration, and the counting stops there. */
  ghost predicate Counted(cfg: Config, x: Consumer) {
    && x.nDone >= 0
    && (x.doneCloses > 0 ==> x.nDone == cfg.nProducers > 0)
    && (x.main == NotStarted || x.main == Counting ==>
          x.doneCloses == 0 && (cfg.nProducers > 0 ==> x.nDone < cfg.nProducers))
  }

  lemma CountedStep(cfg: Config, s: State, a: Action, c: nat)
    requires Enabled(cfg, s, a) && c < |s.consumers| && Counted(cfg, s.consumers[c])
    ensures Counted(cfg, ConsumersAfter(cfg, s, a)[c])
  {
  }

  lemma {:induction false} CountedRun(cfg: Config, acts: seq<Action>, c: nat)
    requires cfg.Valid() && Run(cfg, acts).Some? && c < |Run(cfg, acts).value.consumers|
    ensures Counted(cfg, Run(cfg, acts).value.consumers[c])
  {
    if acts != [] {
      var n := |acts| - 1;
      assert acts == acts[..n] + [acts[n]];
      RunLast(cfg, Init(cfg), acts[..n], acts[n]);
      CountedRun(cfg, acts[..n], c);
      CountedStep(cfg, Run(cfg, acts[..n]).value, acts[n], c);
    }
  }

  lemma CountIsHeard(cfg: Config, acts: seq<Action>, c: nat)
    requires cfg.Valid() && Run(cfg, acts).Some? && c < |Run(cfg, acts).value.consumers|
    ensures Run(cfg, acts).value.consumers[c].nDone == |Run(cfg, acts).value.consumers[c].heard|
  {
    RunInv(cfg, acts);
    var s := Run(cfg, acts).value;
    assert ConsumerInv(cfg, s.consumers[c], s.producers);
  }

  /** After `pre`, the actions bring consumer `c` to close `done`. */
  ghost predicate DoneBy(cfg: Config, pre: seq<Action>, more: seq<Action>, c: nat)
    requires cfg.Valid()
  {
    && Run(cfg, pre + more).Some? && c < |Run(cfg, pre + more).value.consumers|
    && Run(cfg, pre + more).value.consumers[c].doneCloses > 0
  }

  lemma DoneNeeds(cfg: Config, pre: seq<Action>, more: seq<Action>, c: nat)
    requires cfg.Valid() && Run(cfg, pre).Some? && c < |Run(cfg, pre).value.consumers| && DoneBy(cfg, pre, more, c)
    ensures 0 < cfg.nProducers <= Available(Run(cfg, pre).value, c)
  {
    CountedRun(cfg, pre + more, c);
    CountIsHeard(cfg, pre + more, c);
    AvailableAfter(cfg, pre, more, c);
  }

  // ----- Every producer can end -----

  /** Actions that need no interrupt. */
  predicate Unaided(acts: seq<Action>) {
    forall a :: a in acts ==> !a.Signal? && !(a.CloseMessages? && a.interrupted)
  }

  lemma UnaidedJoin(a: seq<Action>, b: seq<Action>)
    requires Unaided(a) && Unaided(b)
    ensures Unaided(a + b)
  {
  }

  /** What a generator still has to do, and its worker for it. */
  function Work(q: Pair): nat {
    match q.generator
    case WgDone => 0
    case Closed => 1
    case Generating => 2 + |OptSeq(q.held)| + 2 * ToHandOver(q)
  }

  function ToHandOver(q: Pair): nat {
    if q.source.Preloaded? && |q.taken| < |q.source.messages| then |q.source.messages| - |q.taken| else 0
  }

  /** The step that brings a generator nearer to its end. A message is only published to make room for the next. */
  function GeneratorStep(q: Pair, i: nat, stopClosed: bool): Action {
    if q.generator == Closed then GeneratorDone(i)
    else if q.source.RealTime? then (if stopClosed then CloseMessages(i, false) else StopTimer(q.owner))
    else if ToHandOver(q) == 0 then CloseMessages(i, false)
    else if q.held.Some? then Publish(i, 0)
    else HandOver(i, q.source.messages[|q.taken|])
  }

  predicate Ticking(p: Producer) { !p.stopClosed }

  /** How much is left until every producer has sent its "end". */
  function ToEnd(s: State): nat {
    Sum(s.pairs, Work) + Count(s.producers, Ticking) + Count(s.producers, Unended)
  }

  /** The worker holds a message, or will get one. */
  predicate KeepsOne(q: Pair) {
    q.held.Some? || (q.generator == Generating && ToHandOver(q) > 0)
  }

  ghost predicate EndsOnly(x: Consumer, y: Consumer) { y == x.(inbox := y.inbox) }

  /** The producers went on; the consumers did no more than get what was sent. */
  ghost predicate Produced(s: State, t: State) {
    && t.workers == s.workers && |t.pairs| == |s.pairs| && |t.consumers| == |s.consumers|
    && (forall c :: 0 <= c < |s.consumers| ==> EndsOnly(s.consumers[c], t.consumers[c]))
    && (forall c :: 0 <= c < |s.consumers| && s.consumers[c].main != NotStarted ==> Available(t, c) == Available(s, c))
    && (forall i :: 0 <= i < |s.pairs| && KeepsOne(s.pairs[i]) ==> KeepsOne(t.pairs[i]))
  }

  lemma ProducedItself(s: State)
    ensures Produced(s, s)
  {
  }

  lemma ProducedOn(s: State, t: State, u: State)
    requires Produced(s, t) && Produced(t, u)
    ensures Produced(s, u)
  {
    forall c | 0 <= c < |s.consumers|
      ensures EndsOnly(s.consumers[c], u.consumers[c])
      ensures s.consumers[c].main != NotStarted ==> Available(u, c) == Available(s, c)
    {
      assert EndsOnly(s.consumers[c], t.consumers[c]) && EndsOnly(t.consumers[c], u.consumers[c]);
    }
  }

  predicate ProducerAction(a: Action) {
    a.StopTimer? || a.HandOver? || (a.CloseMessages? && !a.interrupted) || a.GeneratorDone? || a.Publish? || a.SendEnd?
  }

  lemma ProducerActionIs(cfg: Config, s: State, a: Action)
    requires Enabled(cfg, s, a) && ProducerAction(a)
    requires OnPair(a) ==> KeepsOne(s.pairs[a.i]) ==> KeepsOne(PairStep(a.i, s.pairs[a.i], a))
    ensures Produced(s, Step(cfg, s, a))
  {
    var t := Step(cfg, s, a);
    assert t.pairs == PairsAfter(cfg, s, a) && t.consumers == ConsumersAfter(cfg, s, a);
    forall c | 0 <= c < |s.consumers|
      ensures EndsOnly(s.consumers[c], t.consumers[c])
      ensures s.consumers[c].main != NotStarted ==> Available(t, c) == Available(s, c)
    {
      AvailableStep(cfg, s, a, c);
    }
  }

  lemma GeneratorMoves(s: State, i: nat)
    requires i < |s.pairs| && s.pairs[i].generator != WgDone && s.pairs[i].owner < |s.producers|
    requires s.pairs[i].source.Preloaded? ==> s.pairs[i].taken <= s.pairs[i].source.messages
    ensures var q := s.pairs[i];
      var a := GeneratorStep(q, i, s.producers[q.owner].stopClosed);
      && ProducerAction(a)
      && (a.StopTimer? ==> a.p == q.owner && !s.producers[a.p].stopClosed)
      && (!a.StopTimer? ==> OnPair(a) && a.i == i && PairEnabled(s, a) && Work(PairStep(i, q, a)) < Work(q))
      && (!a.StopTimer? ==> KeepsOne(q) ==> KeepsOne(PairStep(i, q, a)))
  {
  }

  lemma TickingStep(cfg: Config, s: State, a: Action)
    requires Enabled(cfg, s, a)
    ensures Count(s.producers, Ticking) ==
            Count(ProducersAfter(cfg, s, a), Ticking) + AsNat(a.StopTimer? && !s.producers[a.p].stopClosed)
  {
    if a.StopTimer? || a.SendEnd? {
      CountUpdate(s.producers, a.p, ProducersAfter(cfg, s, a)[a.p], Ticking);
    } else if a.GeneratorDone? {
      var p := s.pairs[a.i].owner;
      CountUpdate(s.producers, p, ProducersAfter(cfg, s, a)[p], Ticking);
    }
  }

  lemma WorkStep(cfg: Config, s: State, a: Action)
    requires Enabled(cfg, s, a) && ProducerAction(a)
    requires OnPair(a) ==> Work(PairStep(a.i, s.pairs[a.i], a)) < Work(s.pairs[a.i])
    requires a.StopTimer? ==> !s.producers[a.p].stopClosed
    ensures ToEnd(Step(cfg, s, a)) < ToEnd(s)
  {
    UnendedStep(cfg, s, a);
    TickingStep(cfg, s, a);
    if OnPair(a) {
      SumUpdate(s.pairs, a.i, PairStep(a.i, s.pairs[a.i], a), Work);
    }
  }

  /** The action is possible, is the producers' own, and brings them nearer to their ends. */
  ghost predicate Nearer(cfg: Config, s: State, a: Action) {
    && ProducerAction(a) && Enabled(cfg, s, a)
    && Produced(s, Step(cfg, s, a)) && ToEnd(Step(cfg, s, a)) < ToEnd(s)
  }

  lemma SendsEnd(cfg: Config, s: State, p: nat)
    requires p < |s.producers| && s.producers[p].wg == 0 && !s.producers[p].endSent
    ensures Nearer(cfg, s, SendEnd(p))
  {
    ProducerActionIs(cfg, s, SendEnd(p));
    WorkStep(cfg, s, SendEnd(p));
  }

  lemma GeneratorNearer(cfg: Config, s: State, i: nat)
    requires i < |s.pairs| && s.pairs[i].generator != WgDone && s.pairs[i].owner < |s.producers|
    requires s.pairs[i].source.Preloaded? ==> s.pairs[i].taken <= s.pairs[i].source.messages
    ensures Nearer(cfg, s, GeneratorStep(s.pairs[i], i, s.producers[s.pairs[i].owner].stopClosed))
  {
    var a := GeneratorStep(s.pairs[i], i, s.producers[s.pairs[i].owner].stopClosed);
    GeneratorMoves(s, i);
    ProducerActionIs(cfg, s, a);
    WorkStep(cfg, s, a);
  }

  lemma SomePending(s: State, p: nat) returns (i: nat)
    requires p < |s.producers| && ProducerInv(p, s.producers[p], s.pairs) && s.producers[p].wg != 0
    ensures i < |s.pairs| && s.pairs[i].owner == p && s.pairs[i].generator != WgDone
  {
    CountZero(s.pairs, PendingOf(p));
    i :| 0 <= i < |s.pairs| && PendingOf(p)(s.pairs[i]);
  }

  /** Some step brings a producer that has not sent its "end" nearer to it. */
  lemma NextEnd(cfg: Config, s: State, p: nat) returns (a: Action)
    requires PairsInv(s) && p < |s.producers| && ProducerInv(p, s.producers[p], s.pairs) && !s.producers[p].endSent
    ensures Nearer(cfg, s, a)
  {
    if s.producers[p].wg == 0 {
      a := SendEnd(p);
      SendsEnd(cfg, s, p);
    } else {
      var i := SomePending(s, p);
      assert PairInv(i, s.pairs[i]);
      a := GeneratorStep(s.pairs[i], i, s.producers[p].stopClosed);
      GeneratorNearer(cfg, s, i);
    }
  }

  ghost predicate AllSent(s: State) { forall p :: 0 <= p < |s.producers| ==> s.producers[p].endSent }

  /** After `pre`, every producer sends its "end". */
  ghost predicate EndsBy(cfg: Config, pre: seq<Action>, acts: seq<Action>)
    requires cfg.Valid() && Run(cfg, pre).Some?
  {
    && Run(cfg, pre + acts).Some? && AllSent(Run(cfg, pre + acts).value) && Unaided(acts)
    && Produced(Run(cfg, pre).value, Run(cfg, pre + acts).value)
  }

  lemma StepToEnd(cfg: Config, pre: seq<Action>, p: nat) returns (a: Action)
    requires cfg.Valid() && Run(cfg, pre).Some?
    requires p < |Run(cfg, pre).value.producers| && !Run(cfg, pre).value.producers[p].endSent
    ensures ProducerAction(a) && Run(cfg, pre + [a]).Some?
    ensures Produced(Run(cfg, pre).value, Run(cfg, pre + [a]).value)
    ensures ToEnd(Run(cfg, pre + [a]).value) < ToEnd(Run(cfg, pre).value)
  {
    var s := Run(cfg, pre).value;
    RunInv(cfg, pre);
    assert ProducerInv(p, s.producers[p], s.pairs);
    a := NextEnd(cfg, s, p);
    Extend(cfg, Init(cfg), pre, a);
  }

  lemma EndsOnward(cfg: Config, pre: seq<Action>, a: Action, rest: seq<Action>)
    requires cfg.Valid() && Run(cfg, pre).Some? && Run(cfg, pre + [a]).Some? && ProducerAction(a)
    requires Produced(Run(cfg, pre).value, Run(cfg, pre + [a]).value) && EndsBy(cfg, pre + [a], rest)
    ensures EndsBy(cfg, pre, [a] + rest)
  {
    Associate(pre, [a], rest);
    ProducedOn(Run(cfg, pre).value, Run(cfg, pre + [a]).value, Run(cfg, pre + [a] + rest).value);
    UnaidedJoin([a], rest);
  }

  lemma EndedAlready(cfg: Config, pre: seq<Action>)
    requires cfg.Valid() && Run(cfg, pre).Some? && AllSent(Run(cfg, pre).value)
    ensures EndsBy(cfg, pre, [])
  {
    assert pre + [] == pre;
    ProducedItself(Run(cfg, pre).value);
  }

  lemma {:induction false} EndAll(cfg: Config, pre: seq<Action>) returns (acts: seq<Action>)
    requires cfg.Valid() && Run(cfg, pre).Some?
    ensures EndsBy(cfg, pre, acts)
    decreases ToEnd(Run(cfg, pre).value)
  {
    if p: nat :| p < |Run(cfg, pre).value.producers| && !Run(cfg, pre).value.producers[p].endSent {
      var a := StepToEnd(cfg, pre, p);
      var rest := EndAll(cfg, pre + [a]);
      EndsOnward(cfg, pre, a, rest);
      acts := [a] + rest;
    } else {
      EndedAlready(cfg, pre);
      acts := [];
    }
  }

  // ----- The consumer hears them -----

  /** Nothing but consumer `c` itself has changed. */
  ghost predicate OnlyConsumer(s: State, t: State, c: nat) {
    && t.pairs == s.pairs && t.producers == s.producers && t.ready == s.ready && t.workers == s.workers
    && |t.consumers| == |s.consumers|
    && forall b :: 0 <= b < |s.consumers| && b != c ==> t.consumers[b] == s.consumers[b]
  }

  /** It has counted to the last, and its supervisor is where it was. */
  ghost predicate HeardAll(s: State, t: State, c: nat) {
    && OnlyConsumer(s, t, c) && c < |s.consumers|
    && t.consumers[c].main == Waiting(AllStarted(s.workers, c)) && t.consumers[c].doneCloses == 1
    && t.consumers[c].supervisor == s.consumers[c].supervisor
  }

  ghost predicate HearsBy(cfg: Config, pre: seq<Action>, acts: seq<Action>, c: nat)
    requires cfg.Valid() && Run(cfg, pre).Some?
  {
    Run(cfg, pre + acts).Some? && Unaided(acts) && HeardAll(Run(cfg, pre).value, Run(cfg, pre + acts).value, c)
  }

  lemma HearEndIs(cfg: Config, s: State, c: nat)
    requires ConsumerEnabled(s, HearEnd(c))
    ensures Enabled(cfg, s, HearEnd(c)) && OnlyConsumer(s, Step(cfg, s, HearEnd(c)), c)
    ensures Step(cfg, s, HearEnd(c)).consumers[c] == Heard(cfg, s.consumers[c], AllStarted(s.workers, c))
  {
  }

  /** There is enough in the queue for the count. */
  ghost predicate CanHear(cfg: Config, s: State, c: nat) {
    && c < |s.consumers| && s.consumers[c].main == Counting && s.consumers[c].doneCloses == 0
    && s.consumers[c].nDone < cfg.nProducers <= s.consumers[c].nDone + |s.consumers[c].inbox|
  }

  lemma HearsOne(cfg: Config, pre: seq<Action>, c: nat)
    requires cfg.Valid() && Run(cfg, pre).Some? && CanHear(cfg, Run(cfg, pre).value, c)
    ensures Run(cfg, pre + [HearEnd(c)]).Some?
    ensures var s, t := Run(cfg, pre).value, Run(cfg, pre + [HearEnd(c)]).value;
      && OnlyConsumer(s, t, c) && t.consumers[c].supervisor == s.consumers[c].supervisor
      && t.consumers[c].nDone == s.consumers[c].nDone + 1
      && if t.consumers[c].nDone == cfg.nProducers then HeardAll(s, t, c) else CanHear(cfg, t, c)
  {
    HearEndIs(cfg, Run(cfg, pre).value, c);
    Extend(cfg, Init(cfg), pre, HearEnd(c));
  }

  lemma HeardOn(s: State, m: State, t: State, c: nat)
    requires OnlyConsumer(s, m, c) && HeardAll(m, t, c) && m.consumers[c].supervisor == s.consumers[c].supervisor
    ensures HeardAll(s, t, c)
  {
  }

  lemma {:induction false} HearAll(cfg: Config, pre: seq<Action>, c: nat) returns (acts: seq<Action>)
    requires cfg.Valid() && Run(cfg, pre).Some? && CanHear(cfg, Run(cfg, pre).value, c)
    ensures HearsBy(cfg, pre, acts, c)
    decreases cfg.nProducers - Run(cfg, pre).value.consumers[c].nDone
  {
    HearsOne(cfg, pre, c);
    acts := [HearEnd(c)];
    if Run(cfg, pre + acts).value.consumers[c].nDone != cfg.nProducers {
      var rest := HearAll(cfg, pre + acts, c);
      Associate(pre, acts, rest);
      HeardOn(Run(cfg, pre).value, Run(cfg, pre + acts).value, Run(cfg, pre + acts + rest).value, c);
      UnaidedJoin(acts, rest);
      acts := acts + rest;
    }
  }

  // ----- Together -----

  lemma {:induction false} NoneUnended(ps: seq<Producer>)
    requires forall p :: 0 <= p < |ps| ==> ps[p].endSent
    ensures Count(ps, Unended) == 0
  {
    CountZero(ps, Unended);
  }

  lemma EndsThenHears(cfg: Config, pre: seq<Action>, c: nat) returns (more: seq<Action>)
    requires cfg.Valid() && Run(cfg, pre).Some? && c < |Run(cfg, pre).value.consumers|
    requires Run(cfg, pre).value.consumers[c].main == Counting
    requires 0 < cfg.nProducers <= Available(Run(cfg, pre).value, c)
    ensures DoneBy(cfg, pre, more, c) && Unaided(more)
  {
    var ends := EndAll(cfg, pre);
    var m := Run(cfg, pre + ends).value;
    assert EndsOnly(Run(cfg, pre).value.consumers[c], m.consumers[c]);
    NoneUnended(m.producers);
    CountedRun(cfg, pre + ends, c);
    CountIsHeard(cfg, pre + ends, c);
    var hears := HearAll(cfg, pre + ends, c);
    more := ends + hears;
    Associate(pre, ends, hears);
    UnaidedJoin(ends, hears);
  }

  lemma BindIs(cfg: Config, pre: seq<Action>, c: nat)
    requires cfg.Valid() && Run(cfg, pre).Some? && c < |Run(cfg, pre).value.consumers|
    requires Run(cfg, pre).value.consumers[c].main == NotStarted
    ensures Run(cfg, pre + [Bind(c)]).Some?
    ensures var s, t := Run(cfg, pre).value, Run(cfg, pre + [Bind(c)]).value;
      && |t.consumers| == |s.consumers| && t.consumers[c] == s.consumers[c].(main := Counting)
      && Available(t, c) == Available(s, c)
  {
    Extend(cfg, Init(cfg), pre, Bind(c));
  }

  lemma Enough(cfg: Config, pre: seq<Action>, c: nat) returns (more: seq<Action>)
    requires cfg.Valid() && Run(cfg, pre).Some? && c < |Run(cfg, pre).value.consumers|
    requires Run(cfg, pre).value.consumers[c].main == NotStarted || Run(cfg, pre).value.consumers[c].main == Counting
    requires 0 < cfg.nProducers <= Available(Run(cfg, pre).value, c)
    ensures DoneBy(cfg, pre, more, c) && Unaided(more)
  {
    if Run(cfg, pre).value.consumers[c].main == Counting {
      more := EndsThenHears(cfg, pre, c);
    } else {
      BindIs(cfg, pre, c);
      var rest := EndsThenHears(cfg, pre + [Bind(c)], c);
      more := [Bind(c)] + rest;
      Associate(pre, [Bind(c)], rest);
      UnaidedJoin([Bind(c)], rest);
    }
  }

  /**
   * The documentation promises that the experiment stops automatically when the producers are done. For a consumer
   * that has not begun, or still counts, that is possible, and possible without any interrupt, exactly when it was
   * configured to wait for at least one "end" and for no more than it has counted, has in its queue, or has coming: an
   * "end" sent before it bound its queue is none of them.
   */
  lemma StopsByItself(cfg: Config, pre: seq<Action>, c: nat)
    requires cfg.Valid() && Run(cfg, pre).Some? && c < |Run(cfg, pre).value.consumers|
    requires Run(cfg, pre).value.consumers[c].main == NotStarted || Run(cfg, pre).value.consumers[c].main == Counting
    ensures (exists more :: DoneBy(cfg, pre, more, c)) <==>
            0 < cfg.nProducers <= Available(Run(cfg, pre).value, c)
    ensures (exists more :: DoneBy(cfg, pre, more, c) && Unaided(more)) <==>
            0 < cfg.nProducers <= Available(Run(cfg, pre).value, c)
  {
    if more :| DoneBy(cfg, pre, more, c) {
      DoneNeeds(cfg, pre, more, c);
    }
    if 0 < cfg.nProducers <= Available(Run(cfg, pre).value, c) {
      var more := Enough(cfg, pre, c);
    }
  }

  /** After `pre`, whatever happens, consumer `c` never closes `done`. */
  ghost predicate NeverDone(cfg: Config, pre: seq<Action>, c: nat)
    requires cfg.Valid()
  {
    forall more :: !DoneBy(cfg, pre, more, c)
  }

  lemma NoneLeft(cfg: Config, pre: seq<Action>, c: nat)
    requires cfg.Valid() && Run(cfg, pre).Some? && AllSent(Run(cfg, pre).value)
    requires c < |Run(cfg, pre).value.consumers| && Run(cfg, pre).value.consumers[c].main == NotStarted
    ensures Available(Run(cfg, pre).value, c) == 0
  {
    RunInv(cfg, pre);
    var s := Run(cfg, pre).value;
    assert ConsumerInv(cfg, s.consumers[c], s.producers);
    NoneUnended(s.producers);
  }

  /** It can fail, in every deployment: producers that are all done before the consumer has bound its queue. */
  lemma EndsMissed(cfg: Config, c: nat) returns (pre: seq<Action>)
    requires cfg.Valid() && c < cfg.consumers
    ensures Run(cfg, pre).Some? && Unaided(pre) && NeverDone(cfg, pre, c)
  {
    var none: seq<Action> := [];
    pre := EndAll(cfg, none);
    assert none + pre == pre && Run(cfg, none) == Some(Init(cfg));
    assert EndsOnly(Init(cfg).consumers[c], Run(cfg, pre).value.consumers[c]);
    NoneLeft(cfg, pre, c);
    forall more | DoneBy(cfg, pre, more, c)
      ensures false
    {
      DoneNeeds(cfg, pre, more, c);
    }
  }
}
