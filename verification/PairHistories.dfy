/** Generators, their workers and their producers hold what the history says. */
module PairHistories {
  import opened Prelude
  import opened Protocol
  import opened Invariants
  import opened Histories

  // ----- One more action -----

  lemma MoreTimes(h: History, a: Action, b: Action)
    ensures Times(h + [a], b) == Times(h, b) + AsNat(a == b)
  {
    CountNext(h, a, (x: Action) => x == b);
  }

  lemma MorePair(h: History, a: Action, i: nat)
    ensures Handed(h + [a], i) == Handed(h, i) + (if a.HandOver? && a.i == i then [a.body] else [])
    ensures Clocks(h + [a], i) == Clocks(h, i) + (if a.Publish? && a.i == i then [a.now] else [])
  {
    FlatMapNext(h, a, (b: Action) => if b.HandOver? && b.i == i then [b.body] else []);
    FlatMapNext(h, a, (b: Action) => if b.Publish? && b.i == i then [b.now] else []);
  }

  lemma SamePairs(h: History, a: Action, i: nat)
    requires !(OnPair(a) && a.i == i)
    ensures Handed(h + [a], i) == Handed(h, i) && Clocks(h + [a], i) == Clocks(h, i)
    ensures HasClosed(h + [a], i) == HasClosed(h, i) && Holds(h + [a], i) == Holds(h, i)
    ensures GeneratorDone(i) in h + [a] <==> GeneratorDone(i) in h
    ensures Drop(i) in h + [a] <==> Drop(i) in h
  {
    MorePair(h, a, i);
  }

  lemma PairNext(cfg: Config, s: State, h: History, a: Action, i: nat)
    requires IsGenerator(cfg, i) && Enabled(cfg, s, a) && i < |s.pairs| && PairIs(cfg, h, i, s.pairs[i])
    requires PairInv(i, s.pairs[i])
    ensures i < |Step(cfg, s, a).pairs| && PairIs(cfg, h + [a], i, Step(cfg, s, a).pairs[i])
  {
    if OnPair(a) && a.i == i {
      MorePair(h, a, i);
      OwnPairNext(cfg, s, h, a);
    } else {
      SamePairs(h, a, i);
      assert Step(cfg, s, a).pairs[i] == s.pairs[i];
    }
  }

  lemma OwnPairNext(cfg: Config, s: State, h: History, a: Action)
    requires OnPair(a) && PairEnabled(s, a) && IsGenerator(cfg, a.i) && PairIs(cfg, h, a.i, s.pairs[a.i])
    requires PairInv(a.i, s.pairs[a.i])
    requires Handed(h + [a], a.i) == Handed(h, a.i) + (if a.HandOver? then [a.body] else [])
    requires Clocks(h + [a], a.i) == Clocks(h, a.i) + (if a.Publish? then [a.now] else [])
    ensures PairIs(cfg, h + [a], a.i, PairStep(a.i, s.pairs[a.i], a))
  {
  }

  lemma {:induction false} PairHistory(cfg: Config, acts: seq<Action>, i: nat)
    requires cfg.Valid() && Run(cfg, acts).Some? && IsGenerator(cfg, i)
    ensures i < |Run(cfg, acts).value.pairs| && PairIs(cfg, acts, i, Run(cfg, acts).value.pairs[i])
  {
    if acts != [] {
      var h, a := acts[..|acts| - 1], acts[|acts| - 1];
      assert acts == h + [a];
      RunLast(cfg, Init(cfg), h, a);
      PairHistory(cfg, h, i);
      PairsOf(cfg, h, i);
      PairNext(cfg, Run(cfg, h).value, h, a, i);
    }
  }

  lemma PairsOf(cfg: Config, acts: seq<Action>, i: nat)
    requires cfg.Valid() && Run(cfg, acts).Some? && i < |Run(cfg, acts).value.pairs|
    ensures PairInv(i, Run(cfg, acts).value.pairs[i])
  {
    RunInv(cfg, acts);
  }

  lemma {:induction false} ProducerHistory(cfg: Config, acts: seq<Action>, p: nat)
    requires cfg.Valid() && Run(cfg, acts).Some? && p < cfg.producers
    ensures p < |Run(cfg, acts).value.producers| && ProducerIs(acts, p, Run(cfg, acts).value.producers[p])
  {
    if acts != [] {
      var h, a := acts[..|acts| - 1], acts[|acts| - 1];
      assert acts == h + [a];
      RunLast(cfg, Init(cfg), h, a);
      ProducerHistory(cfg, h, p);
      ProducerNext(cfg, Run(cfg, h).value, h, a, p);
    }
  }

  lemma ProducerNext(cfg: Config, s: State, h: History, a: Action, p: nat)
    requires Enabled(cfg, s, a) && p < |s.producers| && ProducerIs(h, p, s.producers[p])
    ensures ProducerIs(h + [a], p, ProducersAfter(cfg, s, a)[p])
  {
  }
}
