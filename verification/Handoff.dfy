/** What a producer's "end" says about its messages: at most one per generator is still unpublished. */
module Handoff {
  import opened Prelude
  import opened Protocol
  import opened Invariants

  // ----- What only grows along a run -----

  ghost predicate PairGrows(q: Pair, q': Pair) {
    && q'.owner == q.owner && q'.source == q.source
    && q.taken <= q'.taken && q.published <= q'.published
    && (q.generator != Generating ==> q'.generator != Generating && q'.taken == q.taken)
  }

  ghost predicate Grows(s: State, t: State) {
    && |t.pairs| == |s.pairs| && |t.producers| == |s.producers|
    && |t.consumers| == |s.consumers| && |t.workers| == |s.workers|
    && (forall i :: 0 <= i < |s.pairs| ==> PairGrows(s.pairs[i], t.pairs[i]))
    && (forall p :: 0 <= p < |s.producers| && s.producers[p].endSent ==> t.producers[p].endSent)
    && (forall w :: 0 <= w < |s.workers| ==> t.workers[w].host == s.workers[w].host)
    && (forall w :: 0 <= w < |s.workers| ==> s.workers[w].acked <= t.workers[w].acked)
  }

  lemma PairStepGrows(s: State, a: Action)
    requires OnPair(a) && PairEnabled(s, a)
    ensures PairGrows(s.pairs[a.i], PairStep(a.i, s.pairs[a.i], a))
  {
  }

  lemma WorkerStepGrows(cfg: Config, s: State, a: Action)
    requires OnWorker(a) && WorkerEnabled(s, a)
    ensures s.workers[a.w].acked <= WorkerStep(cfg, s.workers[a.w], a).acked
  {
  }

  lemma StepPairsGrow(cfg: Config, s: State, a: Action)
    requires Enabled(cfg, s, a)
    ensures |PairsAfter(cfg, s, a)| == |s.pairs|
    ensures forall i :: 0 <= i < |s.pairs| ==> PairGrows(s.pairs[i], PairsAfter(cfg, s, a)[i])
  {
    if OnPair(a) {
      PairStepGrows(s, a);
    }
  }

  lemma StepWorkersGrow(cfg: Config, s: State, a: Action)
    requires Enabled(cfg, s, a)
    ensures |WorkersAfter(cfg, s, a)| == |s.workers|
    ensures forall w :: 0 <= w < |s.workers| ==> WorkersAfter(cfg, s, a)[w].host == s.workers[w].host
    ensures forall w :: 0 <= w < |s.workers| ==> s.workers[w].acked <= WorkersAfter(cfg, s, a)[w].acked
  {
    if OnWorker(a) {
      WorkerStepGrows(cfg, s, a);
      var w' := WorkerStep(cfg, s.workers[a.w], a);
      assert WorkersAfter(cfg, s, a) == s.workers[a.w := w'];
    }
  }

  lemma StepGrows(cfg: Config, s: State, a: Action)
    requires Enabled(cfg, s, a)
    ensures Grows(s, Step(cfg, s, a))
  {
    EndsStay(cfg, s, a);
    StepPairsGrow(cfg, s, a);
    StepWorkersGrow(cfg, s, a);
  }

  lemma GrowsOn(s: State, t: State, u: State)
    requires Grows(s, t) && Grows(t, u)
    ensures Grows(s, u)
  {
    forall i | 0 <= i < |s.pairs|
      ensures PairGrows(s.pairs[i], u.pairs[i])
    {
      assert PairGrows(s.pairs[i], t.pairs[i]) && PairGrows(t.pairs[i], u.pairs[i]);
    }
  }

  /** The state after the first `k` actions of a run has grown from the state after the first `j`. */
  ghost predicate GrowsBetween(cfg: Config, s: State, acts: seq<Action>, j: nat, k: nat)
    requires j <= k <= |acts|
  {
    && RunFrom(cfg, s, acts[..j]).Some? && RunFrom(cfg, s, acts[..k]).Some?
    && Grows(RunFrom(cfg, s, acts[..j]).value, RunFrom(cfg, s, acts[..k]).value)
  }

  lemma GrowsAt(cfg: Config, s: State, acts: seq<Action>, j: nat)
    requires RunFrom(cfg, s, acts).Some? && j < |acts|
    ensures GrowsBetween(cfg, s, acts, j, j + 1)
  {
    Prefix(cfg, s, acts, j);
    StepGrows(cfg, RunFrom(cfg, s, acts[..j]).value, acts[j]);
  }

  lemma Stays(cfg: Config, s: State, acts: seq<Action>, j: nat)
    requires RunFrom(cfg, s, acts).Some? && j <= |acts|
    ensures GrowsBetween(cfg, s, acts, j, j)
  {
    if j < |acts| {
      Prefix(cfg, s, acts, j);
    } else {
      assert acts[..j] == acts;
    }
  }

  lemma GrowsThrough(cfg: Config, s: State, acts: seq<Action>, j: nat, m: nat, k: nat)
    requires j <= m <= k <= |acts| && GrowsBetween(cfg, s, acts, j, m) && GrowsBetween(cfg, s, acts, m, k)
    ensures GrowsBetween(cfg, s, acts, j, k)
  {
    GrowsOn(RunFrom(cfg, s, acts[..j]).value, RunFrom(cfg, s, acts[..m]).value, RunFrom(cfg, s, acts[..k]).value);
  }

  ghost function Growing(cfg: Config, s: State, acts: seq<Action>): (nat, nat) -> bool {
    (j: nat, k: nat) => j <= k <= |acts| && GrowsBetween(cfg, s, acts, j, k)
  }

  /** From any point of a run to any later point, nothing that was published, sent or acknowledged is taken back. */
  lemma RunGrows(cfg: Config, s: State, acts: seq<Action>, j: nat, k: nat)
    requires RunFrom(cfg, s, acts).Some? && j <= k <= |acts|
    ensures GrowsBetween(cfg, s, acts, j, k)
  {
    var p := Growing(cfg, s, acts);
    forall i: nat | i <= |acts| ensures p(i, i) { Stays(cfg, s, acts, i); }
    forall a: nat, b: nat | b == a + 1 <= |acts| ensures p(a, b) { GrowsAt(cfg, s, acts, a); }
    forall a: nat, b: nat, c: nat | p(a, b) && p(b, c)
      ensures p(a, c)
    {
      GrowsThrough(cfg, s, acts, a, b, c);
    }
    Chain(p, |acts|, j, k);
  }

  /** Every generator keeps the producer and the source it was deployed with. */
  lemma Deployed(cfg: Config, acts: seq<Action>)
    requires cfg.Valid() && Run(cfg, acts).Some?
    ensures var s := Run(cfg, acts).value;
      && |s.pairs| == |cfg.sources|
      && forall i :: 0 <= i < |s.pairs| ==>
           s.pairs[i].owner == Blocks(cfg.producers, cfg.generatorsEach)[i] && s.pairs[i].source == cfg.sources[i]
  {
    assert acts[..0] == [] && acts[..|acts|] == acts;
    RunGrows(cfg, Init(cfg), acts, 0, |acts|);
    var s := Run(cfg, acts).value;
    forall i | 0 <= i < |s.pairs|
      ensures s.pairs[i].owner == Blocks(cfg.producers, cfg.generatorsEach)[i] && s.pairs[i].source == cfg.sources[i]
    {
      assert PairGrows(Init(cfg).pairs[i], s.pairs[i]);
    }
  }

  // ----- The bound -----

  function OwnerIs(p: nat): Pair -> bool {
    (q: Pair) => q.owner == p
  }

  /** Messages of producer `p` that were handed over and are not published. */
  function MissingOf(p: nat): Pair -> nat {
    (q: Pair) => if q.owner == p && |q.taken| > |q.published| then |q.taken| - |q.published| else 0
  }

  lemma OwnedCount(cfg: Config, acts: seq<Action>, p: nat)
    requires cfg.Valid() && Run(cfg, acts).Some? && p < cfg.producers
    ensures Count(Run(cfg, acts).value.pairs, OwnerIs(p)) == cfg.generatorsEach
  {
    Deployed(cfg, acts);
    var blocks := Blocks(cfg.producers, cfg.generatorsEach);
    BlocksCount(cfg.producers, cfg.generatorsEach, p);
    CountMap(Run(cfg, acts).value.pairs, OwnerIs(p), blocks, OwnedBy(p));
  }

  /**
   * When a producer has sent "end", all its generators are done, each worker has published a prefix of what its
   * generator handed over, short of at most the last message, and so at most one message per generator is missing.
   */
  lemma EndBound(cfg: Config, acts: seq<Action>, p: nat)
    requires cfg.Valid() && Run(cfg, acts).Some? && p < |Run(cfg, acts).value.producers|
    requires Run(cfg, acts).value.producers[p].endSent
    ensures var s := Run(cfg, acts).value;
      && Sum(s.pairs, MissingOf(p)) <= cfg.generatorsEach
      && forall i :: 0 <= i < |s.pairs| && s.pairs[i].owner == p ==>
           && s.pairs[i].generator == WgDone
           && |s.pairs[i].published| <= |s.pairs[i].taken| <= |s.pairs[i].published| + 1
           && forall k :: 0 <= k < |s.pairs[i].published| ==> s.pairs[i].published[k].body == s.pairs[i].taken[k]
  {
    RunInv(cfg, acts);
    assert Shape(cfg, Run(cfg, acts).value);
    OwnedCount(cfg, acts, p);
    var s := Run(cfg, acts).value;
    forall i | 0 <= i < |s.pairs| && s.pairs[i].owner == p
      ensures s.pairs[i].generator == WgDone
    {
      EndedGenerators(cfg, s, i);
    }
    forall i | 0 <= i < |s.pairs|
      ensures |s.pairs[i].published| <= |s.pairs[i].taken| <= |s.pairs[i].published| + 1
      ensures forall k :: 0 <= k < |s.pairs[i].published| ==> s.pairs[i].published[k].body == s.pairs[i].taken[k]
    {
      assert PairInv(i, s.pairs[i]);
    }
    SumBound(s.pairs, MissingOf(p), OwnerIs(p));
  }

  /** What a producer has handed over by the time of its "end" is all it ever hands over. */
  lemma EndFreezes(cfg: Config, acts: seq<Action>, j: nat, i: nat)
    requires cfg.Valid() && Run(cfg, acts).Some? && j <= |acts|
    requires Run(cfg, acts[..j]).Some? && i < |Run(cfg, acts[..j]).value.pairs|
    requires var s := Run(cfg, acts[..j]).value;
      s.pairs[i].owner < |s.producers| && s.producers[s.pairs[i].owner].endSent
    ensures i < |Run(cfg, acts).value.pairs|
    ensures Run(cfg, acts).value.pairs[i].taken == Run(cfg, acts[..j]).value.pairs[i].taken
  {
    RunInv(cfg, acts[..j]);
    EndedGenerators(cfg, Run(cfg, acts[..j]).value, i);
    assert acts[..|acts|] == acts;
    RunGrows(cfg, Init(cfg), acts, j, |acts|);
    assert PairGrows(Run(cfg, acts[..j]).value.pairs[i], Run(cfg, acts).value.pairs[i]);
  }

  /** One producer with one generator whose workload is one message. */
  const ONE_MESSAGE: Config := Config(1, 1, [Preloaded(["a"])], 1, 0, 0, false)

  lemma ClosedWhileHeld() returns (s: State)
    ensures ONE_MESSAGE.Valid() && Run(ONE_MESSAGE, [HandOver(0, "a"), CloseMessages(0, false)]) == Some(s)
    ensures s.pairs == [Pair(0, Preloaded(["a"]), Closed, ["a"], Some("a"), None, [], [])]
    ensures s.producers == [Producer(1, false, false)]
  {
    var cfg := ONE_MESSAGE;
    assert Repeat(0, 1) == [0];
    assert Blocks(1, 1) == [0];
    var s0 := Init(cfg);
    var a1, a2 := HandOver(0, "a"), CloseMessages(0, false);
    assert s0.pairs == [Pair(0, Preloaded(["a"]), Generating, [], None, None, [], [])];
    var none: seq<Body> := [];
    assert none + ["a"] == ["a"];
    assert [] + [a1] == [a1] && [a1] + [a2] == [a1, a2];
    Extend(cfg, s0, [], a1);
    Extend(cfg, s0, [a1], a2);
    s := Step(cfg, Step(cfg, s0, a1), a2);
  }

  /** It can fail: an "end" that overtakes the only message. */
  lemma EndOvertakes()
    ensures var acts := [HandOver(0, "a"), CloseMessages(0, false), GeneratorDone(0), SendEnd(0)];
      && ONE_MESSAGE.Valid() && Run(ONE_MESSAGE, acts).Some?
      && Run(ONE_MESSAGE, acts).value.producers == [Producer(0, false, true)]
      && Run(ONE_MESSAGE, acts).value.pairs == [Pair(0, Preloaded(["a"]), WgDone, ["a"], Some("a"), None, [], [])]
  {
    var s2 := ClosedWhileHeld();
    var s0 := Init(ONE_MESSAGE);
    var a1, a2, a3, a4 := HandOver(0, "a"), CloseMessages(0, false), GeneratorDone(0), SendEnd(0);
    assert [a1, a2] + [a3] == [a1, a2, a3] && [a1, a2, a3] + [a4] == [a1, a2, a3, a4];
    Extend(ONE_MESSAGE, s0, [a1, a2], a3);
    Extend(ONE_MESSAGE, s0, [a1, a2, a3], a4);
  }

  lemma HandedOverStep(cfg: Config, s: State, a: Action, i: nat)
    requires Enabled(cfg, s, a) && i < |s.pairs| && PairInv(i, s.pairs[i]) && s.pairs[i].source.Preloaded?
    requires a != CloseMessages(i, true) && Step(cfg, s, a).pairs[i].generator != Generating
    requires s.pairs[i].generator != Generating ==> s.pairs[i].taken == s.pairs[i].source.messages
    ensures Step(cfg, s, a).pairs[i].taken == s.pairs[i].source.messages
  {
  }

  /** A generator that was not interrupted has handed over its whole workload before it reports done. */
  lemma {:induction false} WorkloadHandedOver(cfg: Config, acts: seq<Action>, i: nat)
    requires cfg.Valid() && Run(cfg, acts).Some?
    requires i < |Run(cfg, acts).value.pairs| && Run(cfg, acts).value.pairs[i].source.Preloaded?
    requires Run(cfg, acts).value.pairs[i].generator != Generating
    requires CloseMessages(i, true) !in acts
    ensures Run(cfg, acts).value.pairs[i].taken == Run(cfg, acts).value.pairs[i].source.messages
  {
    if acts != [] {
      var n := |acts| - 1;
      assert acts == acts[..n] + [acts[n]];
      RunLast(cfg, Init(cfg), acts[..n], acts[n]);
      var s := Run(cfg, acts[..n]).value;
      RunInv(cfg, acts[..n]);
      if s.pairs[i].generator != Generating {
        WorkloadHandedOver(cfg, acts[..n], i);
      }
      HandedOverStep(cfg, s, acts[n], i);
    }
  }
}
