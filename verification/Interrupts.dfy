/** How many interrupts it takes to end a consumer: each reaches one goroutine, and two have to leave their selects. */
module Interrupts {
  import opened Prelude
  import opened Protocol
  import opened Invariants
  import opened Shutdown
  import opened Quitting
  import opened Emptying

  function SignalTo(c: nat): Action -> bool {
    (a: Action) => a == Signal(c)
  }

  /** The interrupts that a consumer's state shows: one in the channel's slot, and one for each select left that way. */
  function Shown(x: Consumer): nat {
    AsNat(x.signalled)
    + AsNat((x.main.Waiting? || x.main.Returned?) && x.doneCloses == 0)
    + AsNat((x.supervisor.Stopping? || x.supervisor.Over?) && !x.supervisor.polled)
  }

  lemma ShownStep(cfg: Config, s: State, a: Action, c: nat)
    requires Enabled(cfg, s, a) && c < |s.consumers|
    requires s.consumers[c].main == Counting ==> s.consumers[c].doneCloses == 0
    ensures Shown(ConsumersAfter(cfg, s, a)[c]) <= Shown(s.consumers[c]) + AsNat(a == Signal(c))
  {
  }

  lemma CountSignals(acts: seq<Action>, c: nat)
    requires acts != []
    ensures Count(acts, SignalTo(c)) ==
            Count(acts[..|acts| - 1], SignalTo(c)) + AsNat(acts[|acts| - 1] == Signal(c))
  {
  }

  lemma SameConsumers(cfg: Config, s: State, a: Action)
    requires Enabled(cfg, s, a)
    ensures Step(cfg, s, a).consumers == ConsumersAfter(cfg, s, a) && |ConsumersAfter(cfg, s, a)| == |s.consumers|
  {
  }

  lemma ShownLast(cfg: Config, acts: seq<Action>, a: Action, c: nat)
    requires cfg.Valid() && Run(cfg, acts + [a]).Some? && Run(cfg, acts).Some? && c < |Run(cfg, acts).value.consumers|
    ensures c < |Run(cfg, acts + [a]).value.consumers|
    ensures Shown(Run(cfg, acts + [a]).value.consumers[c]) <=
            Shown(Run(cfg, acts).value.consumers[c]) + AsNat(a == Signal(c))
  {
    RunLast(cfg, Init(cfg), acts, a);
    OverIsClosed(cfg, acts, c);
    ShownStep(cfg, Run(cfg, acts).value, a, c);
    SameConsumers(cfg, Run(cfg, acts).value, a);
  }

  /** What the state shows was sent. */
  lemma {:induction false} ShownWasSent(cfg: Config, acts: seq<Action>, more: seq<Action>, c: nat)
    requires cfg.Valid() && Run(cfg, acts).Some? && Run(cfg, acts + more).Some? && c < |Run(cfg, acts).value.consumers|
    ensures c < |Run(cfg, acts + more).value.consumers|
    ensures Shown(Run(cfg, acts + more).value.consumers[c]) <=
            Shown(Run(cfg, acts).value.consumers[c]) + Count(more, SignalTo(c))
  {
    if more == [] {
      assert acts + more == acts;
    } else {
      var n := |more| - 1;
      assert acts + more == acts + more[..n] + [more[n]];
      RunLast(cfg, Init(cfg), acts + more[..n], more[n]);
      ShownWasSent(cfg, acts, more[..n], c);
      ShownLast(cfg, acts + more[..n], more[n], c);
      CountSignals(more, c);
    }
  }

  /** A worker of `c` that has started. */
  ghost predicate HasStarted(s: State, c: nat) {
    exists w :: 0 <= w < |s.workers| && s.workers[w].host == c && s.workers[w].phase != Created
  }

  lemma ReturnedIsClosed(cfg: Config, acts: seq<Action>, c: nat)
    requires cfg.Valid() && Run(cfg, acts).Some? && c < |Run(cfg, acts).value.consumers|
    requires Run(cfg, acts).value.consumers[c].main.Returned? && HasStarted(Run(cfg, acts).value, c)
    ensures Run(cfg, acts).value.consumers[c].stopCloses > 0
  {
    RunInv(cfg, acts);
    var s := Run(cfg, acts).value;
    assert WaitInv(c, s.consumers[c], s.workers);
    NoneActive(cfg, s, c);
    var w :| 0 <= w < |s.workers| && s.workers[w].host == c && s.workers[w].phase != Created;
    assert StopInv(s.workers[w], s.consumers);
  }

  /** A consumer that had a worker and has returned had counted all its "end" messages, or was interrupted twice. */
  lemma TwoOrDone(cfg: Config, acts: seq<Action>, c: nat)
    requires cfg.Valid() && Run(cfg, acts).Some? && c < |Run(cfg, acts).value.consumers|
    requires Run(cfg, acts).value.consumers[c].main.Returned? && HasStarted(Run(cfg, acts).value, c)
    ensures Run(cfg, acts).value.consumers[c].doneCloses == 1 || Count(acts, SignalTo(c)) >= 2
  {
    ReturnedIsClosed(cfg, acts, c);
    OverIsClosed(cfg, acts, c);
    ClosedOnce(cfg, acts, c);
    InitShows(cfg, acts, c);
  }

  lemma InitShows(cfg: Config, acts: seq<Action>, c: nat)
    requires cfg.Valid() && Run(cfg, acts).Some? && c < |Run(cfg, acts).value.consumers|
    ensures Shown(Run(cfg, acts).value.consumers[c]) <= Count(acts, SignalTo(c))
  {
    RunInv(cfg, acts);
    assert Shape(cfg, Run(cfg, acts).value);
    assert [] + acts == acts;
    assert Run(cfg, []) == Some(Init(cfg));
    ShownWasSent(cfg, [], acts, c);
  }

  /**
   * One interrupt is not enough, whichever goroutine receives it: with the main goroutine gone from its select the
   * supervisor still waits in its own, and with the supervisor gone the main goroutine still counts.
   */
  lemma OneReachesOne(cfg: Config, acts: seq<Action>, c: nat)
    requires cfg.Valid() && Run(cfg, acts).Some? && c < |Run(cfg, acts).value.consumers|
    requires Count(acts, SignalTo(c)) == 1 && Run(cfg, acts).value.consumers[c].doneCloses == 0
    ensures var x := Run(cfg, acts).value.consumers[c];
      && (x.main.Waiting? || x.main.Returned? ==> x.supervisor == Selecting && x.stopCloses == 0)
      && (Leaving(x) ==> x.main == NotStarted || x.main == Counting)
  {
    InitShows(cfg, acts, c);
    OverIsClosed(cfg, acts, c);
    NoPollYet(cfg, acts, c);
  }

  lemma NoPollYet(cfg: Config, acts: seq<Action>, c: nat)
    requires cfg.Valid() && Run(cfg, acts).Some? && c < |Run(cfg, acts).value.consumers|
    requires Run(cfg, acts).value.consumers[c].doneCloses == 0
    ensures var x := Run(cfg, acts).value.consumers[c];
      x.supervisor == Selecting || (Leaving(x) && !x.supervisor.polled)
  {
    RunInv(cfg, acts);
    var s := Run(cfg, acts).value;
    assert ConsumerInv(cfg, s.consumers[c], s.producers);
  }

  // ----- Two are enough -----

  lemma ConsumerActionIs(cfg: Config, s: State, a: Action)
    requires OnConsumer(a) && ConsumerEnabled(s, a)
    ensures Enabled(cfg, s, a)
    ensures var t := Step(cfg, s, a);
      && t.workers == s.workers && |t.consumers| == |s.consumers|
      && t.consumers[a.c] == ConsumerStep(cfg, s.consumers[a.c], AllStarted(s.workers, a.c), s.ready == multiset{}, a)
  {
  }

  /** No "end" has been counted to the last, and the main goroutine has neither returned nor not begun. */
  ghost predicate Undone(s: State, c: nat) {
    && c < |s.consumers| && s.consumers[c].doneCloses == 0
    && (s.consumers[c].main == Counting || s.consumers[c].main.Waiting?)
  }

  /** What brings the consumer one interrupt further: a goroutine takes the one in the slot, or one is sent. */
  function NextInterrupt(x: Consumer, c: nat): Action {
    if x.signalled && x.main == Counting then InterruptMain(c)
    else if x.signalled && x.supervisor == Selecting then InterruptSupervisor(c)
    else Signal(c)
  }

  function Open(x: Consumer): nat { AsNat(x.main == Counting) + AsNat(x.supervisor == Selecting) }

  lemma InterruptStep(cfg: Config, pre: seq<Action>, c: nat)
    requires cfg.Valid() && Run(cfg, pre).Some? && Undone(Run(cfg, pre).value, c)
    ensures var x := Run(cfg, pre).value.consumers[c];
      var a := NextInterrupt(x, c);
      && Run(cfg, pre + [a]).Some? && Undone(Run(cfg, pre + [a]).value, c)
      && Run(cfg, pre + [a]).value.workers == Run(cfg, pre).value.workers
      && var y := Run(cfg, pre + [a]).value.consumers[c];
         if a == Signal(c) then y == x.(signalled := true) else Shown(y) == Shown(x) && Open(y) < Open(x)
  {
    var s := Run(cfg, pre).value;
    var a := NextInterrupt(s.consumers[c], c);
    ConsumerActionIs(cfg, s, a);
    Extend(cfg, Init(cfg), pre, a);
  }

  /** After `pre`, the actions send `n` interrupts and get both goroutines of `c` out of their selects. */
  ghost predicate InterruptsBy(cfg: Config, pre: seq<Action>, acts: seq<Action>, c: nat, n: nat)
    requires cfg.Valid() && Run(cfg, pre).Some?
  {
    && Run(cfg, pre + acts).Some? && Count(acts, SignalTo(c)) == n
    && Interrupted(Run(cfg, pre).value, Run(cfg, pre + acts).value, c)
  }

  ghost predicate Interrupted(s: State, t: State, c: nat) {
    t.workers == s.workers && Undone(t, c) && AboutToGo(t, c)
  }

  lemma InterruptedOn(s: State, m: State, t: State, c: nat)
    requires m.workers == s.workers && Interrupted(m, t, c)
    ensures Interrupted(s, t, c)
  {
  }

  lemma CountFront(a: Action, rest: seq<Action>, c: nat)
    ensures Count([a] + rest, SignalTo(c)) == AsNat(a == Signal(c)) + Count(rest, SignalTo(c))
  {
    if rest == [] {
      assert [a] + rest == [a] && [a][..0] == [];
    } else {
      var n := |rest| - 1;
      CountFront(a, rest[..n], c);
      assert ([a] + rest)[..n + 1] == [a] + rest[..n];
      CountSignals([a] + rest, c);
      CountSignals(rest, c);
    }
  }

  lemma InterruptsOnward(cfg: Config, pre: seq<Action>, a: Action, rest: seq<Action>, c: nat, n: nat)
    requires cfg.Valid() && Run(cfg, pre).Some? && Run(cfg, pre + [a]).Some?
    requires Run(cfg, pre + [a]).value.workers == Run(cfg, pre).value.workers
    requires InterruptsBy(cfg, pre + [a], rest, c, n)
    ensures InterruptsBy(cfg, pre, [a] + rest, c, n + AsNat(a == Signal(c)))
  {
    Associate(pre, [a], rest);
    CountFront(a, rest, c);
    InterruptedOn(Run(cfg, pre).value, Run(cfg, pre + [a]).value, Run(cfg, pre + [a] + rest).value, c);
  }

  lemma InterruptedAlready(cfg: Config, pre: seq<Action>, c: nat)
    requires cfg.Valid() && Run(cfg, pre).Some? && Undone(Run(cfg, pre).value, c)
    requires Open(Run(cfg, pre).value.consumers[c]) == 0
    ensures InterruptsBy(cfg, pre, [], c, 0)
  {
    assert pre + [] == pre;
    NoPollYet(cfg, pre, c);
  }

  /** With as many interrupts as are missing, or more, both selects can be left. */
  lemma {:induction false} Interrupt(cfg: Config, pre: seq<Action>, c: nat, n: nat) returns (acts: seq<Action>)
    requires cfg.Valid() && Run(cfg, pre).Some? && Undone(Run(cfg, pre).value, c)
    requires Shown(Run(cfg, pre).value.consumers[c]) + n >= 2
    ensures InterruptsBy(cfg, pre, acts, c, n)
    decreases n, Open(Run(cfg, pre).value.consumers[c])
  {
    var x := Run(cfg, pre).value.consumers[c];
    var a := NextInterrupt(x, c);
    NoPollYet(cfg, pre, c);
    if Open(x) == 0 && n == 0 {
      InterruptedAlready(cfg, pre, c);
      acts := [];
    } else {
      InterruptStep(cfg, pre, c);
      var rest := Interrupt(cfg, pre + [a], c, n - AsNat(a == Signal(c)));
      InterruptsOnward(cfg, pre, a, rest, c, n - AsNat(a == Signal(c)));
      acts := [a] + rest;
    }
  }

  /** After `pre`, the consumer returns, all its workers started, after `n` interrupts and without its last "end". */
  ghost predicate ReturnsBy(cfg: Config, pre: seq<Action>, more: seq<Action>, c: nat, n: nat)
    requires cfg.Valid()
  {
    && Run(cfg, pre + more).Some? && Count(more, SignalTo(c)) == n
    && Gone(Run(cfg, pre + more).value, c) && Run(cfg, pre + more).value.consumers[c].doneCloses == 0
  }

  lemma {:induction false} CountNone(acts: seq<Action>, c: nat)
    requires forall a :: a in acts ==> !a.Signal?
    ensures Count(acts, SignalTo(c)) == 0
  {
    if acts != [] {
      var n := |acts| - 1;
      assert acts[n] in acts && forall a :: a in acts[..n] ==> a in acts;
      CountNone(acts[..n], c);
      CountSignals(acts, c);
    }
  }

  lemma {:induction false} CountJoin(a: seq<Action>, b: seq<Action>, c: nat)
    ensures Count(a + b, SignalTo(c)) == Count(a, SignalTo(c)) + Count(b, SignalTo(c))
  {
    if b == [] {
      assert a + b == a;
    } else {
      var n := |b| - 1;
      CountJoin(a, b[..n], c);
      assert (a + b)[..|a| + n] == a + b[..n];
      CountSignals(a + b, c);
      CountSignals(b, c);
    }
  }

  lemma EnoughReturn(cfg: Config, pre: seq<Action>, c: nat, n: nat) returns (more: seq<Action>)
    requires cfg.Valid() && Run(cfg, pre).Some? && Undone(Run(cfg, pre).value, c)
    requires Shown(Run(cfg, pre).value.consumers[c]) + n >= 2
    ensures ReturnsBy(cfg, pre, more, c, n)
  {
    var acts := Interrupt(cfg, pre, c, n);
    var wind := WindUp(cfg, pre + acts, c);
    more := acts + wind;
    Associate(pre, acts, wind);
    CountNone(wind, c);
    CountJoin(acts, wind, c);
  }

  ghost predicate HasWorker(s: State, c: nat) {
    exists w :: 0 <= w < |s.workers| && s.workers[w].host == c
  }

  lemma GoneHasStarted(cfg: Config, pre: seq<Action>, more: seq<Action>, c: nat)
    requires cfg.Valid() && Run(cfg, pre).Some? && Run(cfg, pre + more).Some? && HasWorker(Run(cfg, pre).value, c)
    requires Gone(Run(cfg, pre + more).value, c)
    ensures HasStarted(Run(cfg, pre + more).value, c)
  {
    var w :| 0 <= w < |Run(cfg, pre).value.workers| && Run(cfg, pre).value.workers[w].host == c;
    HostStays(cfg, pre, more, w);
  }

  lemma FewDoNot(cfg: Config, pre: seq<Action>, more: seq<Action>, c: nat, n: nat)
    requires cfg.Valid() && Run(cfg, pre).Some? && Undone(Run(cfg, pre).value, c) && HasWorker(Run(cfg, pre).value, c)
    requires ReturnsBy(cfg, pre, more, c, n)
    ensures Shown(Run(cfg, pre).value.consumers[c]) + n >= 2
  {
    GoneHasStarted(cfg, pre, more, c);
    ReturnedIsClosed(cfg, pre + more, c);
    OverIsClosed(cfg, pre + more, c);
    ShownWasSent(cfg, pre, more, c);
  }

  /**
   * The exact condition, from every reachable state in which `c` has not counted its last "end": it can return with
   * `n` more interrupts, and without that "end", if and only if they make two together with those it has had.
   */
  lemma TwoInterruptsExactly(cfg: Config, pre: seq<Action>, c: nat, n: nat)
    requires cfg.Valid() && Run(cfg, pre).Some? && Undone(Run(cfg, pre).value, c) && HasWorker(Run(cfg, pre).value, c)
    ensures (exists more :: ReturnsBy(cfg, pre, more, c, n)) <==> Shown(Run(cfg, pre).value.consumers[c]) + n >= 2
  {
    if Shown(Run(cfg, pre).value.consumers[c]) + n >= 2 {
      var more := EnoughReturn(cfg, pre, c, n);
    }
    if more :| ReturnsBy(cfg, pre, more, c, n) {
      FewDoNot(cfg, pre, more, c, n);
    }
  }

  // ----- A run in which the main goroutine takes the only interrupt -----

  const BUSY: Worker := IDLE.(phase := Running)

  lemma Started() returns (s: State)
    ensures ONE_WORKER.Valid() && Run(ONE_WORKER, [Bind(0), StartWorker(0)]) == Some(s)
    ensures s == State([], [], multiset{}, [Consumer(Counting, 0, [], [], false, 0, 0, Selecting, 1)], [BUSY])
  {
    var cfg := ONE_WORKER;
    assert Repeat(0, 1) == [0];
    assert Blocks(1, 1) == [0];
    var x := Consumer(NotStarted, 0, [], [], false, 0, 0, Selecting, 0);
    assert Init(cfg) == Alone(x);
    assert [] + [Bind(0)] == [Bind(0)] && [Bind(0)] + [StartWorker(0)] == [Bind(0), StartWorker(0)];
    Extend(cfg, Init(cfg), [], Bind(0));
    assert Step(cfg, Alone(x), Bind(0)) == Alone(x.(main := Counting));
    WorkerStarts(x.(main := Counting));
    Extend(cfg, Init(cfg), [Bind(0)], StartWorker(0));
    s := Step(cfg, Alone(x.(main := Counting)), StartWorker(0));
  }

  lemma WorkerStarts(x: Consumer)
    requires x.main == Counting
    ensures Enabled(ONE_WORKER, Alone(x), StartWorker(0))
    ensures Step(ONE_WORKER, Alone(x), StartWorker(0)) == State([], [], multiset{}, [x.(wg := x.wg + 1)], [BUSY])
  {
  }

  /** It is stuck then: one worker runs, and neither it nor the supervisor will ever be told. */
  lemma StuckIsReachable()
    ensures var acts := [Bind(0), StartWorker(0)] + [Signal(0)] + [InterruptMain(0)];
      && ONE_WORKER.Valid() && Run(ONE_WORKER, acts).Some?
      && Stuck(Run(ONE_WORKER, acts).value, 0, 0)
  {
    var cfg, acts := ONE_WORKER, [Bind(0), StartWorker(0)];
    var s := Started();
    ConsumerActionIs(cfg, s, Signal(0));
    Extend(cfg, Init(cfg), acts, Signal(0));
    var t := Step(cfg, s, Signal(0));
    ConsumerActionIs(cfg, t, InterruptMain(0));
    Extend(cfg, Init(cfg), acts + [Signal(0)], InterruptMain(0));
  }
}
