/**
 * Which deployments can leave a message in the queue although everything goes as planned: no interrupt, every worker
 * started, every "end" sent, everything published, and every consumer returned. The run that does it lets one worker
 * take all that is ready, all supervisors poll, and all consumers go, before the last message is published.
 */
module LeftBehind {
  import opened Prelude
  import opened Protocol
  import opened Invariants
  import opened Conservation
  import opened Handoff
  import opened Quitting
  import opened Emptying
  import opened Interrupts
  import opened Overtaking
  import opened Automatic

  // ----- Every consumer in turn -----

  /** What holds of each consumer before and after its turn, and what its turn keeps of the rest of the state. */
  datatype Round = Round(before: (State, nat) -> bool, after: (State, nat) -> bool, keep: (State, State) -> bool)

  /** The actions are consumer `c`'s turn. */
  ghost predicate IsTurn(cfg: Config, pre: seq<Action>, acts: seq<Action>, c: nat, r: Round)
    requires cfg.Valid() && Run(cfg, pre).Some?
  {
    && Run(cfg, pre + acts).Some? && Unaided(acts)
    && var s, t := Run(cfg, pre).value, Run(cfg, pre + acts).value;
    && r.after(t, c) && r.keep(s, t) && |t.consumers| == |s.consumers|
    && forall b: nat :: b < |s.consumers| && b != c ==> OneStays(s, t, b, r)
  }

  ghost predicate OneStays(s: State, t: State, b: nat, r: Round) {
    (r.before(s, b) ==> r.before(t, b)) && (r.after(s, b) ==> r.after(t, b))
  }

  ghost predicate HasTurn(cfg: Config, pre: seq<Action>, c: nat, r: Round)
    requires cfg.Valid() && Run(cfg, pre).Some?
  {
    exists acts :: IsTurn(cfg, pre, acts, c, r)
  }

  ghost predicate IsNext(cfg: Config, pre: seq<Action>, c: nat, r: Round)
    requires cfg.Valid()
  {
    Run(cfg, pre).Some? && c < |Run(cfg, pre).value.consumers| && r.before(Run(cfg, pre).value, c)
  }

  /** Whoever is before its turn can have it, and what the turns keep adds up. */
  ghost predicate Works(cfg: Config, r: Round)
    requires cfg.Valid()
  {
    && (forall s :: r.keep(s, s)) && (forall s, t, u :: r.keep(s, t) && r.keep(t, u) ==> r.keep(s, u))
    && forall pre, c: nat :: IsNext(cfg, pre, c, r) ==> HasTurn(cfg, pre, c, r)
  }

  /** The first `n` consumers have had their turn. */
  ghost predicate Turned(s: State, r: Round, n: nat) {
    && (forall c: nat :: c < n && c < |s.consumers| ==> r.after(s, c))
    && (forall c: nat :: n <= c < |s.consumers| ==> r.before(s, c))
  }

  /** After `pre`, all consumers have their turn. */
  ghost predicate IsRound(cfg: Config, pre: seq<Action>, acts: seq<Action>, r: Round)
    requires cfg.Valid() && Run(cfg, pre).Some?
  {
    && Run(cfg, pre + acts).Some? && Unaided(acts)
    && var s, t := Run(cfg, pre).value, Run(cfg, pre + acts).value;
    && r.keep(s, t) && |t.consumers| == |s.consumers| && Turned(t, r, |t.consumers|)
  }

  lemma TurnedOneMore(s: State, t: State, c: nat, r: Round)
    requires Turned(s, r, c) && c < |s.consumers| == |t.consumers| && r.after(t, c)
    requires forall b: nat :: b < |s.consumers| && b != c ==> OneStays(s, t, b, r)
    ensures Turned(t, r, c + 1)
  {
    forall b: nat | b < |s.consumers|
      ensures if b < c + 1 then r.after(t, b) else r.before(t, b)
    {
      assert b != c ==> OneStays(s, t, b, r);
    }
  }

  lemma {:induction false} EachInTurn(cfg: Config, pre: seq<Action>, r: Round, n: nat) returns (acts: seq<Action>)
    requires cfg.Valid() && Run(cfg, pre).Some? && Works(cfg, r)
    requires n <= |Run(cfg, pre).value.consumers| && Turned(Run(cfg, pre).value, r, n)
    ensures IsRound(cfg, pre, acts, r)
    decreases |Run(cfg, pre).value.consumers| - n
  {
    var s := Run(cfg, pre).value;
    if n == |s.consumers| {
      acts := [];
      assert pre + acts == pre;
    } else {
      assert IsNext(cfg, pre, n, r);
      var turn :| IsTurn(cfg, pre, turn, n, r);
      var m := Run(cfg, pre + turn).value;
      TurnedOneMore(s, m, n, r);
      var rest := EachInTurn(cfg, pre + turn, r, n + 1);
      acts := turn + rest;
      Associate(pre, turn, rest);
      UnaidedJoin(turn, rest);
    }
  }

  // ----- Rounds that change nothing but the consumers -----

  ghost predicate ConsumersOnly(s: State, t: State) {
    t.pairs == s.pairs && t.producers == s.producers && t.ready == s.ready && t.workers == s.workers
  }

  /** A round in which the stages depend on the consumer and the queue. */
  ghost function RoundOf(before: (Consumer, bool) -> bool, after: Consumer -> bool): Round {
    Round((s: State, c: nat) => c < |s.consumers| && before(s.consumers[c], s.ready == multiset{}),
          (s: State, c: nat) => c < |s.consumers| && after(s.consumers[c]), ConsumersOnly)
  }

  lemma IsTurnOf(cfg: Config, pre: seq<Action>, acts: seq<Action>, c: nat,
                 before: (Consumer, bool) -> bool, after: Consumer -> bool)
    requires cfg.Valid() && Run(cfg, pre).Some? && Run(cfg, pre + acts).Some? && Unaided(acts)
    requires c < |Run(cfg, pre).value.consumers| && OnlyConsumer(Run(cfg, pre).value, Run(cfg, pre + acts).value, c)
    requires after(Run(cfg, pre + acts).value.consumers[c])
    ensures HasTurn(cfg, pre, c, RoundOf(before, after))
  {
    var r := RoundOf(before, after);
    var s, t := Run(cfg, pre).value, Run(cfg, pre + acts).value;
    forall b: nat | b < |s.consumers| && b != c
      ensures OneStays(s, t, b, r)
    {
      assert t.consumers[b] == s.consumers[b];
    }
    assert IsTurn(cfg, pre, acts, c, r);
  }

  const FRESH: Consumer := Consumer(NotStarted, 0, [], [], false, 0, 0, Selecting, 0)

  /** A consumer that has bound its queue and started nothing but workers. */
  predicate Begun(x: Consumer) {
    && x.main == Counting && x.nDone == 0 && x.heard == [] && x.inbox == []
    && x.doneCloses == 0 && x.supervisor == Selecting
  }

  ghost function Binding(): Round { RoundOf((x, _) => x == FRESH, x => Begun(x)) }

  lemma BindingWorks(cfg: Config)
    requires cfg.Valid()
    ensures Works(cfg, Binding())
  {
    forall pre, c: nat | IsNext(cfg, pre, c, Binding())
      ensures HasTurn(cfg, pre, c, Binding())
    {
      Extend(cfg, Init(cfg), pre, Bind(c));
      assert OnlyConsumer(Run(cfg, pre).value, Run(cfg, pre + [Bind(c)]).value, c);
      IsTurnOf(cfg, pre, [Bind(c)], c, (x, _) => x == FRESH, x => Begun(x));
    }
  }

  ghost predicate Hearable(cfg: Config, x: Consumer) {
    && x.main == Counting && x.doneCloses == 0 && x.supervisor == Selecting
    && x.nDone < cfg.nProducers <= x.nDone + |x.inbox|
  }

  predicate PollsNow(x: Consumer) { x.main.Waiting? && x.doneCloses > 0 && x.supervisor.Polling? }

  ghost function Hearing(cfg: Config): Round { RoundOf((x, _) => Hearable(cfg, x), x => PollsNow(x)) }

  lemma HearAndSee(cfg: Config, pre: seq<Action>, c: nat) returns (acts: seq<Action>)
    requires cfg.Valid() && Run(cfg, pre).Some? && c < |Run(cfg, pre).value.consumers|
    requires Hearable(cfg, Run(cfg, pre).value.consumers[c])
    ensures Run(cfg, pre + acts).Some? && Unaided(acts)
    ensures OnlyConsumer(Run(cfg, pre).value, Run(cfg, pre + acts).value, c)
    ensures PollsNow(Run(cfg, pre + acts).value.consumers[c])
  {
    var hears := HearAll(cfg, pre, c);
    SeesDone(cfg, pre + hears, c);
    acts := hears + [SeeDone(c)];
    Associate(pre, hears, [SeeDone(c)]);
    UnaidedJoin(hears, [SeeDone(c)]);
  }

  lemma SeesDone(cfg: Config, pre: seq<Action>, c: nat)
    requires cfg.Valid() && Run(cfg, pre).Some? && c < |Run(cfg, pre).value.consumers|
    requires var x := Run(cfg, pre).value.consumers[c]; x.main.Waiting? && x.doneCloses > 0 && x.supervisor == Selecting
    ensures Run(cfg, pre + [SeeDone(c)]).Some?
    ensures OnlyConsumer(Run(cfg, pre).value, Run(cfg, pre + [SeeDone(c)]).value, c)
    ensures PollsNow(Run(cfg, pre + [SeeDone(c)]).value.consumers[c])
  {
    Extend(cfg, Init(cfg), pre, SeeDone(c));
  }

  lemma HearingWorks(cfg: Config)
    requires cfg.Valid()
    ensures Works(cfg, Hearing(cfg))
  {
    forall pre, c: nat | IsNext(cfg, pre, c, Hearing(cfg))
      ensures HasTurn(cfg, pre, c, Hearing(cfg))
    {
      var acts := HearAndSee(cfg, pre, c);
      IsTurnOf(cfg, pre, acts, c, (x, _) => Hearable(cfg, x), x => PollsNow(x));
    }
  }

  predicate Stops(x: Consumer) { x.main.Waiting? && x.supervisor.Stopping? }

  ghost function Polling(): Round { RoundOf((x, empty) => empty && PollsNow(x), x => Stops(x)) }

  lemma PollsEmpty(cfg: Config, pre: seq<Action>, c: nat)
    requires cfg.Valid() && Run(cfg, pre).Some? && c < |Run(cfg, pre).value.consumers|
    requires Run(cfg, pre).value.ready == multiset{} && PollsNow(Run(cfg, pre).value.consumers[c])
    ensures Run(cfg, pre + [Poll(c)]).Some?
    ensures OnlyConsumer(Run(cfg, pre).value, Run(cfg, pre + [Poll(c)]).value, c)
    ensures Stops(Run(cfg, pre + [Poll(c)]).value.consumers[c])
  {
    PollStep(cfg, Run(cfg, pre).value, c);
    Extend(cfg, Init(cfg), pre, Poll(c));
  }

  lemma PollingWorks(cfg: Config)
    requires cfg.Valid()
    ensures Works(cfg, Polling())
  {
    forall pre, c: nat | IsNext(cfg, pre, c, Polling())
      ensures HasTurn(cfg, pre, c, Polling())
    {
      PollsEmpty(cfg, pre, c);
      IsTurnOf(cfg, pre, [Poll(c)], c, (x, empty) => empty && PollsNow(x), x => Stops(x));
    }
  }

  // ----- The last round: all consumers go -----

  /** Its supervisor is about to close `stop`, or there is nobody to wait for. */
  ghost predicate MayGo(s: State, c: nat) {
    && c < |s.consumers| && s.consumers[c].main.Waiting? && (s.consumers[c].supervisor.Stopping? || s.workers == [])
  }

  ghost predicate ProducersKept(s: State, t: State) { t.pairs == s.pairs && t.producers == s.producers }

  ghost function Going(): Round { Round(MayGo, Gone, ProducersKept) }

  lemma StaysGone(s: State, t: State, b: nat, c: nat)
    requires LeftAlone(s, t, c) && OthersKept(s, t, c) && b != c && b < |s.consumers|
    ensures OneStays(s, t, b, Going())
  {
    assert t.consumers[b] == s.consumers[b];
    assert s.workers == [] ==> t.workers == [];
    if Gone(s, b) {
      forall w | 0 <= w < |t.workers| && t.workers[w].host == b
        ensures t.workers[w].phase != Created
      {
        assert WorkerKept(s.workers[w], t.workers[w], c);
      }
    }
  }

  lemma IsTurnToGo(cfg: Config, pre: seq<Action>, acts: seq<Action>, c: nat)
    requires cfg.Valid() && Run(cfg, pre).Some? && Run(cfg, pre + acts).Some? && Unaided(acts)
    requires var s, t := Run(cfg, pre).value, Run(cfg, pre + acts).value;
      LeftAlone(s, t, c) && OthersKept(s, t, c) && Gone(t, c)
    ensures HasTurn(cfg, pre, c, Going())
  {
    var s, t := Run(cfg, pre).value, Run(cfg, pre + acts).value;
    forall b: nat | b < |s.consumers| && b != c
      ensures OneStays(s, t, b, Going())
    {
      StaysGone(s, t, b, c);
    }
    assert IsTurn(cfg, pre, acts, c, Going());
  }

  lemma ReturnsIdle(cfg: Config, pre: seq<Action>, c: nat)
    requires cfg.Valid() && Run(cfg, pre).Some? && c < |Run(cfg, pre).value.consumers|
    requires Run(cfg, pre).value.workers == [] && Run(cfg, pre).value.consumers[c].main.Waiting?
    ensures Run(cfg, pre + [Return(c)]).Some?
    ensures var s, t := Run(cfg, pre).value, Run(cfg, pre + [Return(c)]).value;
      LeftAlone(s, t, c) && OthersKept(s, t, c) && Gone(t, c)
  {
    var s := Run(cfg, pre).value;
    Waits(cfg, pre, c);
    NobodyWaitedFor(s, c);
    ReturnKeeps(cfg, s, c);
    Extend(cfg, Init(cfg), pre, Return(c));
  }

  lemma GoingWorks(cfg: Config)
    requires cfg.Valid()
    ensures Works(cfg, Going())
  {
    forall pre, c: nat | IsNext(cfg, pre, c, Going())
      ensures HasTurn(cfg, pre, c, Going())
    {
      if Run(cfg, pre).value.consumers[c].supervisor.Stopping? {
        var acts := WindUp(cfg, pre, c);
        IsTurnToGo(cfg, pre, acts, c);
      } else {
        ReturnsIdle(cfg, pre, c);
        IsTurnToGo(cfg, pre, [Return(c)], c);
      }
    }
  }

  // ----- One worker takes everything that is ready -----

  /** Only worker `w` and the queue have changed, and its channel is still open. */
  ghost predicate TakesTo(s: State, t: State, w: nat) {
    && t.pairs == s.pairs && t.producers == s.producers && t.consumers == s.consumers
    && |t.workers| == |s.workers| && CanTake(t, w)
  }

  ghost predicate CanTake(s: State, w: nat) {
    w < |s.workers| && s.workers[w].phase == Running && s.workers[w].host < |s.consumers|
  }

  lemma TakesOne(cfg: Config, pre: seq<Action>, w: nat, d: Delivery)
    requires cfg.Valid() && Run(cfg, pre).Some? && CanTake(Run(cfg, pre).value, w) && d in Run(cfg, pre).value.ready
    ensures Run(cfg, pre + [Deliver(w, d)]).Some?
    ensures TakesTo(Run(cfg, pre).value, Run(cfg, pre + [Deliver(w, d)]).value, w)
    ensures Run(cfg, pre + [Deliver(w, d)]).value.ready == Run(cfg, pre).value.ready - multiset{d}
  {
    Extend(cfg, Init(cfg), pre, Deliver(w, d));
  }

  lemma {:induction false} TakeAll(cfg: Config, pre: seq<Action>, w: nat) returns (acts: seq<Action>)
    requires cfg.Valid() && Run(cfg, pre).Some? && CanTake(Run(cfg, pre).value, w)
    ensures Run(cfg, pre + acts).Some? && Unaided(acts)
    ensures TakesTo(Run(cfg, pre).value, Run(cfg, pre + acts).value, w)
    ensures Run(cfg, pre + acts).value.ready == multiset{}
    decreases |Run(cfg, pre).value.ready|
  {
    if d :| d in Run(cfg, pre).value.ready {
      TakesOne(cfg, pre, w, d);
      var rest := TakeAll(cfg, pre + [Deliver(w, d)], w);
      acts := [Deliver(w, d)] + rest;
      Associate(pre, [Deliver(w, d)], rest);
      UnaidedJoin([Deliver(w, d)], rest);
    } else {
      acts := [];
      assert pre + acts == pre;
    }
  }

  // ----- Everything is published -----

  /** Producer workers have published what they held. */
  ghost predicate PublishesOnly(s: State, t: State) {
    && t.producers == s.producers && t.consumers == s.consumers && t.workers == s.workers && s.ready <= t.ready
    && |t.pairs| == |s.pairs| && forall i :: 0 <= i < |s.pairs| ==> t.pairs[i].taken == s.pairs[i].taken
  }

  function Holding(): Pair -> bool { (q: Pair) => q.held.Some? }

  lemma HeldIsLast(cfg: Config, acts: seq<Action>, i: nat)
    requires cfg.Valid() && Run(cfg, acts).Some?
    requires i < |Run(cfg, acts).value.pairs| && Run(cfg, acts).value.pairs[i].held.Some?
    ensures var s := Run(cfg, acts).value;
      s.pairs[i].owner < |s.producers| && |s.pairs[i].taken| == |s.pairs[i].published| + 1
  {
    RunInv(cfg, acts);
    assert PairInv(i, Run(cfg, acts).value.pairs[i]);
  }

  lemma PublishesOne(cfg: Config, pre: seq<Action>, i: nat)
    requires cfg.Valid() && Run(cfg, pre).Some?
    requires i < |Run(cfg, pre).value.pairs| && Run(cfg, pre).value.pairs[i].held.Some?
    ensures Run(cfg, pre + [Publish(i, 0)]).Some?
    ensures var s, t := Run(cfg, pre).value, Run(cfg, pre + [Publish(i, 0)]).value;
      && PublishesOnly(s, t) && Count(t.pairs, Holding()) < Count(s.pairs, Holding())
      && |s.pairs[i].published| < |s.pairs[i].taken| && LeftInQueue(t, i, |s.pairs[i].published|)
  {
    var s := Run(cfg, pre).value;
    HeldIsLast(cfg, pre, i);
    PublishKeeps(cfg, s, i, 0);
    Extend(cfg, Init(cfg), pre, Publish(i, 0));
    CountUpdate(s.pairs, i, PairStep(i, s.pairs[i], Publish(i, 0)), Holding());
  }

  ghost predicate AllPublished(t: State) { forall i :: 0 <= i < |t.pairs| ==> t.pairs[i].held.None? }

  lemma {:induction false} PublishAll(cfg: Config, pre: seq<Action>) returns (acts: seq<Action>)
    requires cfg.Valid() && Run(cfg, pre).Some?
    ensures Run(cfg, pre + acts).Some? && Unaided(acts)
    ensures PublishesOnly(Run(cfg, pre).value, Run(cfg, pre + acts).value) && AllPublished(Run(cfg, pre + acts).value)
    decreases Count(Run(cfg, pre).value.pairs, Holding())
  {
    if i: nat :| i < |Run(cfg, pre).value.pairs| && Run(cfg, pre).value.pairs[i].held.Some? {
      PublishesOne(cfg, pre, i);
      var rest := PublishAll(cfg, pre + [Publish(i, 0)]);
      acts := [Publish(i, 0)] + rest;
      Associate(pre, [Publish(i, 0)], rest);
      UnaidedJoin([Publish(i, 0)], rest);
    } else {
      acts := [];
      assert pre + acts == pre;
    }
  }

  // ----- The run -----

  /** After `pre`, the actions lead to a state with the property. */
  ghost predicate LeadsTo(cfg: Config, pre: seq<Action>, acts: seq<Action>, p: State -> bool)
    requires cfg.Valid()
  {
    Run(cfg, pre + acts).Some? && Unaided(acts) && p(Run(cfg, pre + acts).value)
  }

  lemma LeadsOn(cfg: Config, pre: seq<Action>, a: seq<Action>, b: seq<Action>, p: State -> bool)
    requires cfg.Valid() && Unaided(a) && LeadsTo(cfg, pre + a, b, p)
    ensures LeadsTo(cfg, pre, a + b, p)
  {
    Associate(pre, a, b);
    UnaidedJoin(a, b);
  }

  /** All consumers listen, a worker runs if there are any, and generator `i` holds a message or will. */
  ghost predicate Opened(cfg: Config, s: State, i: nat)
    requires cfg.Valid()
  {
    && s.producers == Init(cfg).producers && (forall c :: 0 <= c < |s.consumers| ==> Begun(s.consumers[c]))
    && i < |s.pairs| && KeepsOne(s.pairs[i]) && (s.workers != [] ==> CanTake(s, 0))
  }

  lemma BindAll(cfg: Config) returns (acts: seq<Action>)
    requires cfg.Valid()
    ensures Run(cfg, acts).Some? && Unaided(acts)
    ensures var t := Run(cfg, acts).value;
      && ConsumersOnly(Init(cfg), t) && |t.consumers| == cfg.consumers
      && forall c :: 0 <= c < |t.consumers| ==> Begun(t.consumers[c])
  {
    BindingWorks(cfg);
    assert Turned(Init(cfg), Binding(), 0);
    acts := EachInTurn(cfg, [], Binding(), 0);
    assert [] + acts == acts;
    var t := Run(cfg, acts).value;
    forall c: nat | c < |t.consumers|
      ensures Begun(t.consumers[c])
    {
      assert Binding().after(t, c);
    }
  }

  lemma StartsFirst(cfg: Config, pre: seq<Action>) returns (acts: seq<Action>)
    requires cfg.Valid() && Run(cfg, pre).Some?
    requires var s := Run(cfg, pre).value;
      && ConsumersOnly(Init(cfg), s) && |s.consumers| == cfg.consumers
      && forall c :: 0 <= c < |s.consumers| ==> Begun(s.consumers[c])
    ensures Run(cfg, pre + acts).Some? && Unaided(acts)
    ensures var t := Run(cfg, pre + acts).value;
      && t.pairs == Init(cfg).pairs && t.producers == Init(cfg).producers
      && (forall c :: 0 <= c < |t.consumers| ==> Begun(t.consumers[c])) && (t.workers != [] ==> CanTake(t, 0))
  {
    InitShape(cfg);
    if Run(cfg, pre).value.workers == [] {
      acts := [];
      assert pre + acts == pre;
    } else {
      acts := [StartWorker(0)];
      Extend(cfg, Init(cfg), pre, StartWorker(0));
    }
  }

  lemma OffersOne(cfg: Config, pre: seq<Action>, i: nat)
    requires cfg.Valid() && Run(cfg, pre).Some? && Run(cfg, pre).value.pairs == Init(cfg).pairs
    requires Run(cfg, pre).value.producers == Init(cfg).producers && i < |cfg.sources| && cfg.sources[i].RealTime?
    ensures Run(cfg, pre + [HandOver(i, "")]).Some?
    ensures var s, t := Run(cfg, pre).value, Run(cfg, pre + [HandOver(i, "")]).value;
      && OnlyPair(s, t, i) && t.pairs[i].held.Some?
  {
    InitShape(cfg);
    PairActionIs(cfg, Run(cfg, pre).value, HandOver(i, ""));
    Extend(cfg, Init(cfg), pre, HandOver(i, ""));
  }

  lemma Open(cfg: Config, i: nat) returns (acts: seq<Action>)
    requires cfg.Valid() && i < |cfg.sources| && HasMessages(cfg.sources[i])
    ensures LeadsTo(cfg, [], acts, (s: State) => Opened(cfg, s, i))
  {
    var binds := BindAll(cfg);
    var start := StartsFirst(cfg, binds);
    acts := binds + start;
    UnaidedJoin(binds, start);
    if cfg.sources[i].RealTime? {
      OffersOne(cfg, acts, i);
      UnaidedJoin(acts, [HandOver(i, "")]);
      acts := acts + [HandOver(i, "")];
    }
    assert [] + acts == acts;
  }

  /** Every "end" is sent and has reached every consumer, and a worker of the producers still holds a message. */
  ghost predicate Ended(cfg: Config, s: State, i: nat) {
    && AllSent(s) && i < |s.pairs| && s.pairs[i].held.Some? && (s.workers != [] ==> CanTake(s, 0))
    && forall c :: 0 <= c < |s.consumers| ==> Hearable(cfg, s.consumers[c])
  }

  lemma {:induction false} CountAll<T>(s: seq<T>, p: T -> bool)
    ensures Count(s, p) <= |s|
    ensures (forall i :: 0 <= i < |s| ==> p(s[i])) ==> Count(s, p) == |s|
  {
    if s != [] {
      CountAll(s[..|s| - 1], p);
    }
  }

  lemma HeldAtEnd(cfg: Config, acts: seq<Action>, i: nat)
    requires cfg.Valid() && Run(cfg, acts).Some? && AllSent(Run(cfg, acts).value)
    requires i < |Run(cfg, acts).value.pairs| && KeepsOne(Run(cfg, acts).value.pairs[i])
    ensures Run(cfg, acts).value.pairs[i].held.Some?
  {
    RunInv(cfg, acts);
    EndedGenerators(cfg, Run(cfg, acts).value, i);
  }

  lemma AllCanHear(cfg: Config, s: State, t: State)
    requires cfg.Valid() && s.producers == Init(cfg).producers && Produced(s, t) && AllSent(t)
    requires 0 < cfg.nProducers <= cfg.producers && forall c :: 0 <= c < |s.consumers| ==> Begun(s.consumers[c])
    ensures forall c :: 0 <= c < |t.consumers| ==> Hearable(cfg, t.consumers[c])
  {
    CountAll(s.producers, Unended);
    NoneUnended(t.producers);
    forall c | 0 <= c < |t.consumers|
      ensures Hearable(cfg, t.consumers[c])
    {
      assert EndsOnly(s.consumers[c], t.consumers[c]) && Available(t, c) == Available(s, c);
    }
  }

  lemma End(cfg: Config, pre: seq<Action>, i: nat) returns (acts: seq<Action>)
    requires cfg.Valid() && Run(cfg, pre).Some? && Opened(cfg, Run(cfg, pre).value, i)
    requires 0 < cfg.nProducers <= cfg.producers
    ensures LeadsTo(cfg, pre, acts, (s: State) => Ended(cfg, s, i))
  {
    acts := EndAll(cfg, pre);
    HeldAtEnd(cfg, pre + acts, i);
    AllCanHear(cfg, Run(cfg, pre).value, Run(cfg, pre + acts).value);
  }

  /** Every consumer is about to go, and the message is still held. */
  ghost predicate Parting(s: State, i: nat) {
    && AllSent(s) && i < |s.pairs| && s.pairs[i].held.Some?
    && forall c: nat :: c < |s.consumers| ==> MayGo(s, c)
  }

  lemma HearAllEnds(cfg: Config, pre: seq<Action>, i: nat) returns (acts: seq<Action>)
    requires cfg.Valid() && Run(cfg, pre).Some? && Ended(cfg, Run(cfg, pre).value, i)
    ensures Run(cfg, pre + acts).Some? && Unaided(acts)
    ensures ConsumersOnly(Run(cfg, pre).value, Run(cfg, pre + acts).value)
    ensures |Run(cfg, pre + acts).value.consumers| == |Run(cfg, pre).value.consumers|
    ensures forall c: nat :: c < |Run(cfg, pre + acts).value.consumers| ==>
      PollsNow(Run(cfg, pre + acts).value.consumers[c])
  {
    HearingWorks(cfg);
    assert Turned(Run(cfg, pre).value, Hearing(cfg), 0);
    acts := EachInTurn(cfg, pre, Hearing(cfg), 0);
    var t := Run(cfg, pre + acts).value;
    forall c: nat | c < |t.consumers|
      ensures PollsNow(t.consumers[c])
    {
      assert Hearing(cfg).after(t, c);
    }
  }

  lemma PollAll(cfg: Config, pre: seq<Action>) returns (acts: seq<Action>)
    requires cfg.Valid() && Run(cfg, pre).Some? && Run(cfg, pre).value.ready == multiset{}
    requires forall c: nat :: c < |Run(cfg, pre).value.consumers| ==> PollsNow(Run(cfg, pre).value.consumers[c])
    ensures Run(cfg, pre + acts).Some? && Unaided(acts)
    ensures ConsumersOnly(Run(cfg, pre).value, Run(cfg, pre + acts).value)
    ensures forall c: nat :: c < |Run(cfg, pre + acts).value.consumers| ==>
      Stops(Run(cfg, pre + acts).value.consumers[c])
  {
    PollingWorks(cfg);
    assert Turned(Run(cfg, pre).value, Polling(), 0);
    acts := EachInTurn(cfg, pre, Polling(), 0);
    var t := Run(cfg, pre + acts).value;
    forall c: nat | c < |t.consumers|
      ensures Stops(t.consumers[c])
    {
      assert Polling().after(t, c);
    }
  }

  lemma TakeAndPoll(cfg: Config, pre: seq<Action>, i: nat) returns (acts: seq<Action>)
    requires cfg.Valid() && Run(cfg, pre).Some? && CanTake(Run(cfg, pre).value, 0)
    requires AllSent(Run(cfg, pre).value)
    requires i < |Run(cfg, pre).value.pairs| && Run(cfg, pre).value.pairs[i].held.Some?
    requires forall c: nat :: c < |Run(cfg, pre).value.consumers| ==> PollsNow(Run(cfg, pre).value.consumers[c])
    ensures LeadsTo(cfg, pre, acts, (s: State) => Parting(s, i))
  {
    var takes := TakeAll(cfg, pre, 0);
    var polls := PollAll(cfg, pre + takes);
    acts := takes + polls;
    LeadsOn(cfg, pre, takes, polls, (s: State) => Parting(s, i));
  }

  lemma Part(cfg: Config, pre: seq<Action>, i: nat) returns (acts: seq<Action>)
    requires cfg.Valid() && Run(cfg, pre).Some? && Ended(cfg, Run(cfg, pre).value, i)
    ensures LeadsTo(cfg, pre, acts, (s: State) => Parting(s, i))
  {
    acts := HearAllEnds(cfg, pre, i);
    if Run(cfg, pre).value.workers != [] {
      var more := TakeAndPoll(cfg, pre + acts, i);
      LeadsOn(cfg, pre, acts, more, (s: State) => Parting(s, i));
      acts := acts + more;
    }
  }

  // ----- The exact condition -----

  /** Every producer has ended, nothing is left to publish, and every consumer has returned, its workers started. */
  ghost predicate Complete(t: State) {
    && AllSent(t) && AllPublished(t) && forall c: nat :: c < |t.consumers| ==> Gone(t, c)
  }

  /** A message that was handed over and is in the queue. */
  ghost predicate LeftInQueue(t: State, i: nat, k: nat) { Taken(t, i, k) && At(t, i, k, InQueue) }

  ghost predicate Left(t: State) {
    Complete(t) && exists i: nat, k: nat :: LeftInQueue(t, i, k)
  }

  lemma GoAll(cfg: Config, pre: seq<Action>, i: nat) returns (acts: seq<Action>)
    requires cfg.Valid() && Run(cfg, pre).Some? && Parting(Run(cfg, pre).value, i)
    ensures Run(cfg, pre + acts).Some? && Unaided(acts)
    ensures ProducersKept(Run(cfg, pre).value, Run(cfg, pre + acts).value)
    ensures forall c: nat :: c < |Run(cfg, pre + acts).value.consumers| ==> Gone(Run(cfg, pre + acts).value, c)
  {
    GoingWorks(cfg);
    acts := EachInTurn(cfg, pre, Going(), 0);
  }

  lemma PublishesOn(s: State, m: State, t: State)
    requires PublishesOnly(s, m) && PublishesOnly(m, t)
    ensures PublishesOnly(s, t)
  {
  }

  lemma StillComplete(s: State, t: State)
    requires PublishesOnly(s, t) && AllSent(s) && AllPublished(t) && forall c: nat :: c < |s.consumers| ==> Gone(s, c)
    ensures Complete(t)
  {
    forall c: nat | c < |t.consumers|
      ensures Gone(t, c)
    {
      assert Gone(s, c);
    }
  }

  lemma StillLeft(s: State, t: State, i: nat, k: nat)
    requires PublishesOnly(s, t) && LeftInQueue(s, i, k)
    ensures LeftInQueue(t, i, k)
  {
    var d :| d in s.ready && d.id == MsgId(i, k);
    assert d in t.ready;
  }

  lemma GoneThenPublished(cfg: Config, pre: seq<Action>, i: nat) returns (acts: seq<Action>)
    requires cfg.Valid() && Run(cfg, pre).Some? && AllSent(Run(cfg, pre).value)
    requires i < |Run(cfg, pre).value.pairs| && Run(cfg, pre).value.pairs[i].held.Some?
    requires forall c: nat :: c < |Run(cfg, pre).value.consumers| ==> Gone(Run(cfg, pre).value, c)
    ensures LeadsTo(cfg, pre, acts, Left)
  {
    var first := [Publish(i, 0)];
    PublishesOne(cfg, pre, i);
    var rest := PublishAll(cfg, pre + first);
    var s, m, t := Run(cfg, pre).value, Run(cfg, pre + first).value, Run(cfg, pre + first + rest).value;
    PublishesOn(s, m, t);
    StillComplete(s, t);
    StillLeft(m, t, i, |s.pairs[i].published|);
    acts := first + rest;
    LeadsOn(cfg, pre, first, rest, Left);
  }

  lemma Leave(cfg: Config, pre: seq<Action>, i: nat) returns (acts: seq<Action>)
    requires cfg.Valid() && Run(cfg, pre).Some? && Parting(Run(cfg, pre).value, i)
    ensures LeadsTo(cfg, pre, acts, Left)
  {
    var goes := GoAll(cfg, pre, i);
    var rest := GoneThenPublished(cfg, pre + goes, i);
    acts := goes + rest;
    LeadsOn(cfg, pre, goes, rest, Left);
  }

  lemma CanLose(cfg: Config, i: nat) returns (acts: seq<Action>)
    requires cfg.Valid() && 0 < cfg.nProducers <= cfg.producers && i < |cfg.sources| && HasMessages(cfg.sources[i])
    ensures LeadsTo(cfg, [], acts, Left)
  {
    var a := Open(cfg, i);
    var b := End(cfg, [] + a, i);
    var c := Part(cfg, [] + a + b, i);
    var d := Leave(cfg, [] + a + b + c, i);
    LeadsOn(cfg, [] + a + b, c, d, Left);
    LeadsOn(cfg, [] + a, b, c + d, Left);
    LeadsOn(cfg, [], a, b + (c + d), Left);
    acts := a + (b + (c + d));
  }

  lemma LeftHas(cfg: Config, acts: seq<Action>, i: nat, k: nat)
    requires cfg.Valid() && Run(cfg, acts).Some? && LeftInQueue(Run(cfg, acts).value, i, k)
    ensures i < |cfg.sources| && HasMessages(cfg.sources[i])
  {
    Deployed(cfg, acts);
    RunInv(cfg, acts);
    assert PairInv(i, Run(cfg, acts).value.pairs[i]);
  }

  /** A consumer that returned without any interrupt had its count, so the count was within reach. */
  lemma GoneHadEnds(cfg: Config, acts: seq<Action>)
    requires cfg.Valid() && Run(cfg, acts).Some? && Unaided(acts) && cfg.consumers > 0
    requires Complete(Run(cfg, acts).value)
    ensures 0 < cfg.nProducers <= cfg.producers
  {
    RunInv(cfg, acts);
    assert Gone(Run(cfg, acts).value, 0);
    InitShows(cfg, acts, 0);
    CountNone(acts, 0);
    assert [] + acts == acts;
    assert Run(cfg, []) == Some(Init(cfg));
    DoneNeeds(cfg, [], acts, 0);
    CountAll(Init(cfg).producers, Unended);
  }

  /**
   * The exact condition on a deployment: some complete run without any interrupt leaves a message in the queue, if and
   * only if some generator has anything to hand over and the consumers wait for at least one "end" and no more than
   * come. Without the second, no run is complete that had no interrupt.
   */
  lemma MessageLeftBehind(cfg: Config)
    requires cfg.Valid() && cfg.consumers > 0
    ensures (exists acts :: LeadsTo(cfg, [], acts, Left)) <==>
            0 < cfg.nProducers <= cfg.producers && exists i :: 0 <= i < |cfg.sources| && HasMessages(cfg.sources[i])
  {
    if acts :| LeadsTo(cfg, [], acts, Left) {
      assert [] + acts == acts;
      var i: nat, k: nat :| LeftInQueue(Run(cfg, acts).value, i, k);
      LeftHas(cfg, acts, i, k);
      GoneHadEnds(cfg, acts);
    }
    if 0 < cfg.nProducers <= cfg.producers && exists i :: 0 <= i < |cfg.sources| && HasMessages(cfg.sources[i]) {
      var i: nat :| i < |cfg.sources| && HasMessages(cfg.sources[i]);
      var acts := CanLose(cfg, i);
    }
  }
}
