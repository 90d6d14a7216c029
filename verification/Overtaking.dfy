/**
 * Whether "end" follows a worker's last publish, for a deployment: it can overtake one exactly when some generator of
 * the producer has anything to hand over, and then every such generator can have its last message overtaken at once.
 */
module Overtaking {
  import opened Prelude
  import opened Protocol
  import opened Invariants
  import opened Handoff

  /** A generator that may hand over something: a real-time one, or one with a workload that is not empty. */
  predicate HasMessages(src: Source) { src.RealTime? || src.messages != [] }

  /** What it hands over here: its whole workload, or one message made in real time. */
  function Offered(src: Source): (ms: seq<Body>)
    ensures HasMessages(src) <==> ms != []
  {
    match src
    case RealTime => [""]
    case Preloaded(messages) => messages
  }

  /** One message is handed over, after the one before it was published. */
  function OneHanded(i: nat, src: Source, k: nat): seq<Action>
    requires k < |Offered(src)|
  {
    (if k > 0 then [Publish(i, 0)] else []) + [HandOver(i, Offered(src)[k])]
  }

  function Handed(i: nat, src: Source, n: nat): seq<Action>
    requires n <= |Offered(src)|
  {
    if n == 0 then [] else Handed(i, src, n - 1) + OneHanded(i, src, n - 1)
  }

  /** The pair then: everything handed over, and all but the last published. */
  ghost predicate IsHanded(i: nat, q: Pair, q0: Pair, n: nat)
    requires n <= |Offered(q0.source)|
  {
    && q.owner == q0.owner && q.source == q0.source && q.generator == Generating && q.dropped.None?
    && q.taken == Offered(q0.source)[..n] && |q.published| == (if n == 0 then 0 else n - 1)
    && (n > 0 <==> q.held.Some?)
  }

  ghost predicate Untouched(q: Pair) {
    q.generator == Generating && q.taken == [] && q.held.None? && q.dropped.None? && q.published == [] && q.stamps == []
  }

  /** Only pair `i` has changed. */
  ghost predicate OnlyPair(s: State, t: State, i: nat) {
    && |t.pairs| == |s.pairs| && t.producers == s.producers && t.consumers == s.consumers && t.workers == s.workers
    && forall j :: 0 <= j < |s.pairs| && j != i ==> t.pairs[j] == s.pairs[j]
  }

  lemma PairActionIs(cfg: Config, s: State, a: Action)
    requires OnPair(a) && PairEnabled(s, a) && (a.HandOver? || a.Publish? || a.CloseMessages?)
    ensures Enabled(cfg, s, a)
    ensures OnlyPair(s, Step(cfg, s, a), a.i) && Step(cfg, s, a).pairs[a.i] == PairStep(a.i, s.pairs[a.i], a)
  {
  }

  /** One more action on pair `i`. */
  lemma PairMore(cfg: Config, pre: seq<Action>, a: Action, s: State)
    requires cfg.Valid() && Run(cfg, pre).Some? && OnPair(a) && (a.HandOver? || a.Publish? || a.CloseMessages?)
    requires PairEnabled(Run(cfg, pre).value, a) && OnlyPair(s, Run(cfg, pre).value, a.i)
    ensures Run(cfg, pre + [a]).Some? && OnlyPair(s, Run(cfg, pre + [a]).value, a.i) && a.i < |s.pairs|
    ensures Run(cfg, pre + [a]).value.pairs[a.i] == PairStep(a.i, Run(cfg, pre).value.pairs[a.i], a)
  {
    PairActionIs(cfg, Run(cfg, pre).value, a);
    Extend(cfg, Init(cfg), pre, a);
  }

  lemma HandsOne(cfg: Config, pre: seq<Action>, i: nat, k: nat, s: State)
    requires cfg.Valid() && Run(cfg, pre).Some? && OnlyPair(s, Run(cfg, pre).value, i) && i < |s.pairs|
    requires k < |Offered(s.pairs[i].source)| && s.pairs[i].owner < |s.producers|
    requires IsHanded(i, Run(cfg, pre).value.pairs[i], s.pairs[i], k)
    ensures var all := pre + OneHanded(i, s.pairs[i].source, k);
      && Run(cfg, all).Some? && OnlyPair(s, Run(cfg, all).value, i)
      && IsHanded(i, Run(cfg, all).value.pairs[i], s.pairs[i], k + 1)
  {
    var m := Offered(s.pairs[i].source)[k];
    assert Offered(s.pairs[i].source)[..k + 1] == Offered(s.pairs[i].source)[..k] + [m];
    if k > 0 {
      PairMore(cfg, pre, Publish(i, 0), s);
      PairMore(cfg, pre + [Publish(i, 0)], HandOver(i, m), s);
      Associate(pre, [Publish(i, 0)], [HandOver(i, m)]);
    } else {
      PairMore(cfg, pre, HandOver(i, m), s);
      assert [] + [HandOver(i, m)] == [HandOver(i, m)];
    }
  }

  /** After `pre`, a generator that has done nothing yet hands over its first `n` messages. */
  ghost predicate HandsOver(cfg: Config, pre: seq<Action>, i: nat, n: nat, s: State)
    requires cfg.Valid() && i < |s.pairs| && n <= |Offered(s.pairs[i].source)|
  {
    var all := pre + Handed(i, s.pairs[i].source, n);
    && Run(cfg, all).Some? && OnlyPair(s, Run(cfg, all).value, i)
    && IsHanded(i, Run(cfg, all).value.pairs[i], s.pairs[i], n)
  }

  lemma {:induction false} HandsAll(cfg: Config, pre: seq<Action>, i: nat, n: nat, s: State)
    requires cfg.Valid() && Run(cfg, pre) == Some(s) && i < |s.pairs| && Untouched(s.pairs[i])
    requires s.pairs[i].owner < |s.producers| && n <= |Offered(s.pairs[i].source)|
    ensures HandsOver(cfg, pre, i, n, s)
  {
    if n == 0 {
      assert pre + [] == pre;
    } else {
      HandsAll(cfg, pre, i, n - 1, s);
      HandsOne(cfg, pre + Handed(i, s.pairs[i].source, n - 1), i, n - 1, s);
      Associate(pre, Handed(i, s.pairs[i].source, n - 1), OneHanded(i, s.pairs[i].source, n - 1));
    }
  }

  // ----- One generator to its end -----

  /** Done, with the last message, if there was any, still in the hands of the worker. */
  ghost predicate LastHeld(q: Pair, q0: Pair) {
    && q.owner == q0.owner && q.source == q0.source && q.generator == WgDone
    && |q.published| == |q.taken| - AsNat(HasMessages(q.source))
  }

  function Finishing(i: nat, src: Source): seq<Action> {
    Handed(i, src, |Offered(src)|) + [CloseMessages(i, false)] + [GeneratorDone(i)]
  }

  /** Pair `i` has ended, and of its producer nothing but the wait group has changed. */
  ghost predicate PairEnded(s: State, t: State, i: nat) {
    && i < |s.pairs| && |t.pairs| == |s.pairs| && LastHeld(t.pairs[i], s.pairs[i])
    && (forall j :: 0 <= j < |s.pairs| && j != i ==> t.pairs[j] == s.pairs[j])
    && |t.producers| == |s.producers|
    && forall p :: 0 <= p < |s.producers| ==> t.producers[p] == s.producers[p].(wg := t.producers[p].wg)
  }

  lemma DoneActionIs(cfg: Config, s: State, i: nat)
    requires i < |s.pairs| && s.pairs[i].generator == Closed && s.pairs[i].owner < |s.producers|
    ensures Enabled(cfg, s, GeneratorDone(i))
    ensures var t := Step(cfg, s, GeneratorDone(i));
      && t.pairs == s.pairs[i := s.pairs[i].(generator := WgDone)] && |t.producers| == |s.producers|
      && forall p :: 0 <= p < |s.producers| ==> t.producers[p] == s.producers[p].(wg := t.producers[p].wg)
  {
  }

  lemma Ends(cfg: Config, pre: seq<Action>, i: nat, s: State)
    requires cfg.Valid() && Run(cfg, pre) == Some(s) && i < |s.pairs| && Untouched(s.pairs[i])
    requires s.pairs[i].owner < |s.producers| && s.producers[s.pairs[i].owner].stopClosed
    ensures Run(cfg, pre + Finishing(i, s.pairs[i].source)).Some?
    ensures PairEnded(s, Run(cfg, pre + Finishing(i, s.pairs[i].source)).value, i)
  {
    var src := s.pairs[i].source;
    var n := |Offered(src)|;
    HandsAll(cfg, pre, i, n, s);
    var all := pre + Handed(i, src, n);
    var m := Run(cfg, all).value;
    assert Offered(src)[..n] == Offered(src);
    PairMore(cfg, all, CloseMessages(i, false), s);
    DoneActionIs(cfg, Run(cfg, all + [CloseMessages(i, false)]).value, i);
    Extend(cfg, Init(cfg), all + [CloseMessages(i, false)], GeneratorDone(i));
    FinishingIs(pre, i, src);
  }

  lemma FinishingIs(pre: seq<Action>, i: nat, src: Source)
    ensures pre + Finishing(i, src) ==
            pre + Handed(i, src, |Offered(src)|) + [CloseMessages(i, false)] + [GeneratorDone(i)]
  {
    Associate(pre, Handed(i, src, |Offered(src)|), [CloseMessages(i, false)]);
    Associate(pre, Handed(i, src, |Offered(src)|) + [CloseMessages(i, false)], [GeneratorDone(i)]);
  }

  // ----- All generators of a producer -----

  /** The first `n` generators have ended if they are `p`'s; all others are as they were deployed. */
  ghost predicate EndedTo(cfg: Config, t: State, p: nat, n: nat)
    requires cfg.Valid()
  {
    var s := Init(cfg);
    && |t.pairs| == |s.pairs| && |t.producers| == |s.producers|
    && p < |t.producers| && t.producers[p].stopClosed && !t.producers[p].endSent
    && forall i :: 0 <= i < |s.pairs| ==> IsEndedTo(s.pairs[i], t.pairs[i], p, i < n)
  }

  ghost predicate IsEndedTo(q0: Pair, q: Pair, p: nat, past: bool) {
    if past && q0.owner == p then LastHeld(q, q0) else q == q0
  }

  function OfProducer(cfg: Config, p: nat, n: nat): seq<Action>
    requires cfg.Valid() && n <= |cfg.sources|
  {
    if n == 0 then [StopTimer(p)] else OfProducer(cfg, p, n - 1) + Turn(cfg, p, n - 1)
  }

  function Turn(cfg: Config, p: nat, i: nat): seq<Action>
    requires cfg.Valid() && i < |cfg.sources|
  {
    if OwnsSource(cfg, p, i) then Finishing(i, cfg.sources[i]) else []
  }

  lemma StopsTimer(cfg: Config, p: nat)
    requires cfg.Valid() && p < cfg.producers
    ensures Run(cfg, [StopTimer(p)]).Some? && EndedTo(cfg, Run(cfg, [StopTimer(p)]).value, p, 0)
  {
    One(cfg, Init(cfg), StopTimer(p));
  }

  lemma EndsOneMore(cfg: Config, p: nat, n: nat, s: State, t: State)
    requires cfg.Valid() && n < |cfg.sources| && EndedTo(cfg, s, p, n)
    requires Init(cfg).pairs[n].owner == p && PairEnded(s, t, n)
    ensures EndedTo(cfg, t, p, n + 1)
  {
    forall i | 0 <= i < |s.pairs|
      ensures IsEndedTo(Init(cfg).pairs[i], t.pairs[i], p, i < n + 1)
    {
      assert IsEndedTo(Init(cfg).pairs[i], s.pairs[i], p, i < n);
    }
  }

  lemma EndsNoMore(cfg: Config, p: nat, n: nat, s: State)
    requires cfg.Valid() && n < |cfg.sources| && EndedTo(cfg, s, p, n) && Init(cfg).pairs[n].owner != p
    ensures EndedTo(cfg, s, p, n + 1)
  {
    forall i | 0 <= i < |s.pairs|
      ensures IsEndedTo(Init(cfg).pairs[i], s.pairs[i], p, i < n + 1)
    {
      assert IsEndedTo(Init(cfg).pairs[i], s.pairs[i], p, i < n);
    }
  }

  lemma EndsNext(cfg: Config, pre: seq<Action>, p: nat, i: nat)
    requires cfg.Valid() && i < |cfg.sources| && Run(cfg, pre).Some? && EndedTo(cfg, Run(cfg, pre).value, p, i)
    ensures Run(cfg, pre + Turn(cfg, p, i)).Some? && EndedTo(cfg, Run(cfg, pre + Turn(cfg, p, i)).value, p, i + 1)
  {
    var s := Run(cfg, pre).value;
    assert IsEndedTo(Init(cfg).pairs[i], s.pairs[i], p, false);
    if OwnsSource(cfg, p, i) {
      Ends(cfg, pre, i, s);
      EndsOneMore(cfg, p, i, s, Run(cfg, pre + Finishing(i, cfg.sources[i])).value);
    } else {
      EndsNoMore(cfg, p, i, s);
      assert pre + [] == pre;
    }
  }

  /** What holds after the timer's stop, and goes on from turn to turn, holds in the end. */
  lemma {:induction false} RunReaches(ok: (seq<Action>, nat) -> bool, cfg: Config, p: nat, n: nat)
    requires cfg.Valid() && n <= |cfg.sources| && ok([StopTimer(p)], 0)
    requires forall pre, i: nat :: i < |cfg.sources| && ok(pre, i) ==> ok(pre + Turn(cfg, p, i), i + 1)
    ensures ok(OfProducer(cfg, p, n), n)
  {
    if n > 0 {
      RunReaches(ok, cfg, p, n - 1);
      assert ok(OfProducer(cfg, p, n - 1) + Turn(cfg, p, n - 1), n - 1 + 1);
    }
  }

  ghost predicate EndsTo(cfg: Config, p: nat, acts: seq<Action>, n: nat)
    requires cfg.Valid()
  {
    Run(cfg, acts).Some? && EndedTo(cfg, Run(cfg, acts).value, p, n)
  }

  lemma EndsAll(cfg: Config, p: nat, n: nat)
    requires cfg.Valid() && p < cfg.producers && n <= |cfg.sources|
    ensures Run(cfg, OfProducer(cfg, p, n)).Some? && EndedTo(cfg, Run(cfg, OfProducer(cfg, p, n)).value, p, n)
  {
    var ok := (acts: seq<Action>, k: nat) => EndsTo(cfg, p, acts, k);
    StopsTimer(cfg, p);
    forall pre, i: nat | i < |cfg.sources| && ok(pre, i)
      ensures ok(pre + Turn(cfg, p, i), i + 1)
    {
      EndsNext(cfg, pre, p, i);
    }
    RunReaches(ok, cfg, p, n);
  }

  /** With all its generators ended, the producer can send its "end". */
  lemma CanSendEnd(cfg: Config, acts: seq<Action>, p: nat)
    requires cfg.Valid() && Run(cfg, acts).Some? && EndedTo(cfg, Run(cfg, acts).value, p, |cfg.sources|)
    ensures Enabled(cfg, Run(cfg, acts).value, SendEnd(p))
  {
    RunInv(cfg, acts);
    var s := Run(cfg, acts).value;
    assert ProducerInv(p, s.producers[p], s.pairs);
    forall i | 0 <= i < |s.pairs|
      ensures !PendingOf(p)(s.pairs[i])
    {
      assert IsEndedTo(Init(cfg).pairs[i], s.pairs[i], p, true);
    }
    CountZero(s.pairs, PendingOf(p));
  }

  // ----- The exact condition -----

  /** A run at whose end the producer may send "end" while a message that it handed over is not published. */
  ghost predicate Overtakes(cfg: Config, acts: seq<Action>, p: nat)
    requires cfg.Valid()
  {
    && Run(cfg, acts).Some? && Enabled(cfg, Run(cfg, acts).value, SendEnd(p))
    && exists i :: Unpublished(Run(cfg, acts).value, p, i)
  }

  ghost predicate Unpublished(s: State, p: nat, i: int) {
    0 <= i < |s.pairs| && s.pairs[i].owner == p && |s.pairs[i].published| < |s.pairs[i].taken|
  }

  /** Some generator of `p` may hand over something. */
  predicate MayHandOver(cfg: Config, p: nat)
    requires cfg.Valid()
  {
    exists i :: 0 <= i < |cfg.sources| && OwnsSource(cfg, p, i) && HasMessages(cfg.sources[i])
  }

  predicate OwnsSource(cfg: Config, p: nat, i: nat)
    requires cfg.Valid() && i < |cfg.sources|
  {
    Blocks(cfg.producers, cfg.generatorsEach)[i] == p
  }

  predicate Uninterrupted(acts: seq<Action>) {
    forall a :: a in acts ==> !(a.CloseMessages? && a.interrupted)
  }

  lemma {:induction false} HandedUninterrupted(i: nat, src: Source, n: nat)
    requires n <= |Offered(src)|
    ensures Uninterrupted(Handed(i, src, n))
  {
    if n > 0 {
      HandedUninterrupted(i, src, n - 1);
    }
  }

  lemma TurnUninterrupted(cfg: Config, p: nat, i: nat)
    requires cfg.Valid() && i < |cfg.sources|
    ensures Uninterrupted(Turn(cfg, p, i))
  {
    HandedUninterrupted(i, cfg.sources[i], |Offered(cfg.sources[i])|);
  }

  lemma TurnKeeps(cfg: Config, pre: seq<Action>, p: nat, i: nat)
    requires cfg.Valid() && i < |cfg.sources| && Uninterrupted(pre)
    ensures Uninterrupted(pre + Turn(cfg, p, i))
  {
    TurnUninterrupted(cfg, p, i);
  }

  lemma RunUninterrupted(cfg: Config, p: nat, n: nat)
    requires cfg.Valid() && n <= |cfg.sources|
    ensures Uninterrupted(OfProducer(cfg, p, n))
  {
    forall pre, i: nat | i < |cfg.sources| && Uninterrupted(pre)
      ensures Uninterrupted(pre + Turn(cfg, p, i))
    {
      TurnKeeps(cfg, pre, p, i);
    }
    RunReaches((acts, _) => Uninterrupted(acts), cfg, p, n);
  }

  lemma OvertakenHas(cfg: Config, acts: seq<Action>, p: nat)
    requires cfg.Valid() && Overtakes(cfg, acts, p)
    ensures MayHandOver(cfg, p)
  {
    Deployed(cfg, acts);
    RunInv(cfg, acts);
    var s := Run(cfg, acts).value;
    var i :| Unpublished(s, p, i);
    assert PairInv(i, s.pairs[i]);
    assert OwnsSource(cfg, p, i);
  }

  lemma EndOvertakesLast(cfg: Config, p: nat, i: nat)
    requires cfg.Valid() && p < cfg.producers
    requires i < |cfg.sources| && OwnsSource(cfg, p, i) && HasMessages(cfg.sources[i])
    ensures Overtakes(cfg, OfProducer(cfg, p, |cfg.sources|), p)
  {
    var acts := OfProducer(cfg, p, |cfg.sources|);
    EndsAll(cfg, p, |cfg.sources|);
    CanSendEnd(cfg, acts, p);
    assert IsEndedTo(Init(cfg).pairs[i], Run(cfg, acts).value.pairs[i], p, true);
    assert Unpublished(Run(cfg, acts).value, p, i);
  }

  /**
   * The comment on the worker promises an "end" that follows every publish. Which deployments keep that promise: some
   * run, and even one without any interrupt, lets the "end" of `p` overtake a message if and only if some generator of
   * `p` is real-time or has a workload that is not empty.
   */
  lemma EndMayOvertake(cfg: Config, p: nat)
    requires cfg.Valid() && p < cfg.producers
    ensures (exists acts :: Overtakes(cfg, acts, p)) <==> MayHandOver(cfg, p)
    ensures (exists acts :: Overtakes(cfg, acts, p) && Uninterrupted(acts)) <==> MayHandOver(cfg, p)
  {
    if acts :| Overtakes(cfg, acts, p) {
      OvertakenHas(cfg, acts, p);
    }
    if MayHandOver(cfg, p) {
      var i :| 0 <= i < |cfg.sources| && OwnsSource(cfg, p, i) && HasMessages(cfg.sources[i]);
      EndOvertakesLast(cfg, p, i);
      RunUninterrupted(cfg, p, |cfg.sources|);
    }
  }

  /** The bound on what "end" can leave unpublished is reached: by every generator that has anything to hand over. */
  lemma BoundIsReached(cfg: Config, p: nat)
    requires cfg.Valid() && p < cfg.producers
    ensures var acts := OfProducer(cfg, p, |cfg.sources|);
      && Run(cfg, acts).Some? && Enabled(cfg, Run(cfg, acts).value, SendEnd(p)) && Uninterrupted(acts)
      && Sum(Run(cfg, acts).value.pairs, MissingOf(p)) == Count(Run(cfg, acts).value.pairs, CanMiss(p))
  {
    var acts := OfProducer(cfg, p, |cfg.sources|);
    EndsAll(cfg, p, |cfg.sources|);
    CanSendEnd(cfg, acts, p);
    RunUninterrupted(cfg, p, |cfg.sources|);
    var s := Run(cfg, acts).value;
    forall i | 0 <= i < |s.pairs|
      ensures MissingOf(p)(s.pairs[i]) == AsNat(CanMiss(p)(s.pairs[i]))
    {
      assert IsEndedTo(Init(cfg).pairs[i], s.pairs[i], p, true);
    }
    SumIsCount(s.pairs, MissingOf(p), CanMiss(p));
  }

  function CanMiss(p: nat): Pair -> bool {
    (q: Pair) => q.owner == p && HasMessages(q.source)
  }

  lemma {:induction false} SumIsCount<T>(s: seq<T>, f: T -> nat, p: T -> bool)
    requires forall i :: 0 <= i < |s| ==> f(s[i]) == AsNat(p(s[i]))
    ensures Sum(s, f) == Count(s, p)
  {
    if s != [] {
      SumIsCount(s[..|s| - 1], f, p);
    }
  }
}
