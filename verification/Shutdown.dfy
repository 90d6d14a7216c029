/** Why a consumer stops, what that says about the messages, and what holds when it returns. */
module Shutdown {
  import opened Prelude
  import opened Text
  import opened Protocol
  import opened Invariants
  import opened Conservation
  import opened Handoff

  // ----- `done` -----

  /** At least `nProducers` different producers sent their "end", each with all of its generators done. */
  ghost predicate EndsHeard(cfg: Config, s: State, heard: seq<nat>) {
    && |heard| == cfg.nProducers && NoDup(heard)
    && (forall p :: p in heard ==> p < |s.producers| && s.producers[p].endSent)
    && (forall i :: 0 <= i < |s.pairs| && s.pairs[i].owner in heard ==> s.pairs[i].generator == WgDone)
  }

  lemma DoneMeansEnded(cfg: Config, s: State, c: nat)
    requires Inv(cfg, s) && c < |s.consumers| && s.consumers[c].doneCloses > 0
    ensures EndsHeard(cfg, s, s.consumers[c].heard)
  {
    var x := s.consumers[c];
    assert ConsumerInv(cfg, x, s.producers);
    forall i, j | 0 <= i < j < |x.heard|
      ensures x.heard[i] != x.heard[j]
    {
      assert (x.heard + x.inbox)[i] != (x.heard + x.inbox)[j];
    }
    forall p | p in x.heard
      ensures p < |s.producers| && s.producers[p].endSent
    {
      assert p in x.heard + x.inbox;
    }
    forall i | 0 <= i < |s.pairs| && s.pairs[i].owner in x.heard
      ensures s.pairs[i].generator == WgDone
    {
      EndedGenerators(cfg, s, i);
    }
  }

  /** With as many producers deployed as configured, that is all of them. */
  lemma AllEnded(cfg: Config, s: State, heard: seq<nat>)
    requires Shape(cfg, s) && EndsHeard(cfg, s, heard) && cfg.nProducers == cfg.producers
    ensures forall p :: 0 <= p < |s.producers| ==> p in heard && s.producers[p].endSent
    ensures forall i :: 0 <= i < |s.pairs| ==> s.pairs[i].generator == WgDone
  {
    Pigeonhole(heard, cfg.producers);
    forall i | 0 <= i < |s.pairs|
      ensures s.pairs[i].generator == WgDone
    {
      assert s.pairs[i].owner in heard;
    }
  }

  // ----- `stop` -----

  /** A poll of consumer `c`'s supervisor at position `j` of a run that found the queue empty. */
  ghost predicate EmptyPoll(cfg: Config, acts: seq<Action>, c: nat, j: nat)
    requires cfg.Valid()
  {
    && j < |acts| && acts[j] == Poll(c)
    && Run(cfg, acts[..j]).Some?
    && Run(cfg, acts[..j]).value.ready == multiset{}
    && c < |Run(cfg, acts[..j]).value.consumers| && Run(cfg, acts[..j]).value.consumers[c].doneCloses > 0
  }

  ghost predicate Leaving(x: Consumer) { x.supervisor.Stopping? || x.supervisor.Over? }

  lemma SupervisorStep(cfg: Config, s: State, a: Action, c: nat)
    requires Enabled(cfg, s, a) && c < |s.consumers|
    ensures var x, x' := s.consumers[c], ConsumersAfter(cfg, s, a)[c];
      && (Leaving(x') && !Leaving(x) && x'.supervisor.polled ==>
            a == Poll(c) && s.ready == multiset{} && x.supervisor.Polling?)
      && (Leaving(x') && !Leaving(x) && !x'.supervisor.polled ==> a == InterruptSupervisor(c))
      && (Leaving(x) ==> Leaving(x') && x'.supervisor.polled == x.supervisor.polled)
  {
  }

  /** The supervisor only stops because of an empty poll after `done`, or because it received an interrupt. */
  lemma {:induction false} StopCause(cfg: Config, acts: seq<Action>, c: nat)
    requires cfg.Valid() && Run(cfg, acts).Some?
    requires c < |Run(cfg, acts).value.consumers| && Leaving(Run(cfg, acts).value.consumers[c])
    ensures !Run(cfg, acts).value.consumers[c].supervisor.polled ==> InterruptSupervisor(c) in acts
    ensures Run(cfg, acts).value.consumers[c].supervisor.polled ==> exists j: nat :: EmptyPoll(cfg, acts, c, j)
  {
    if acts != [] {
      var n := |acts| - 1;
      var before := acts[..n];
      assert acts == before + [acts[n]];
      RunLast(cfg, Init(cfg), before, acts[n]);
      var s := Run(cfg, before).value;
      SupervisorStep(cfg, s, acts[n], c);
      if Leaving(s.consumers[c]) {
        StopCause(cfg, before, c);
        if s.consumers[c].supervisor.polled {
          var j: nat :| EmptyPoll(cfg, before, c, j);
          assert before[..j] == acts[..j];
          assert EmptyPoll(cfg, acts, c, j);
        }
      } else if acts[n] == Poll(c) {
        RunInv(cfg, before);
        assert ConsumerInv(cfg, s.consumers[c], s.producers);
        assert EmptyPoll(cfg, acts, c, n);
      }
    }
  }

  /** Where an unacknowledged message can be while the queue is empty. */
  ghost predicate InFlight(s: State, i: nat, k: nat)
    requires i < |s.pairs|
  {
    || At(s, i, k, HeldByProducer)
    || At(s, i, k, DroppedAtExit)
    || exists w :: At(s, i, k, OnChannel(w))
  }

  ghost predicate IsAcked(s: State, i: nat, k: nat)
    requires i < |s.pairs|
  {
    exists w :: At(s, i, k, AckedBy(w))
  }

  lemma NotInQueue(cfg: Config, s: State, i: nat, k: nat)
    requires Inv(cfg, s) && s.ready == multiset{} && i < |s.pairs| && k < |s.pairs[i].taken|
    ensures IsAcked(s, i, k) || InFlight(s, i, k)
  {
    var p := SomePlace(cfg, s, i, k);
    match p
    case HeldByProducer =>
    case DroppedAtExit =>
    case InQueue =>
    case OnChannel(w) => assert At(s, i, k, OnChannel(w));
    case AckedBy(w) => assert At(s, i, k, AckedBy(w));
  }

  lemma AckedStays(s: State, t: State, i: nat, k: nat)
    requires Grows(s, t) && i < |s.pairs| && IsAcked(s, i, k)
    ensures IsAcked(t, i, k)
  {
    var w: nat :| At(s, i, k, AckedBy(w));
    assert w < |s.workers|;
    var d :| d in AckedBag(s.workers[w]) && d.id == MsgId(i, k);
    assert s.workers[w].acked <= t.workers[w].acked;
    assert d in s.workers[w].acked && d in t.workers[w].acked;
    assert d in AckedBag(t.workers[w]);
    assert At(t, i, k, AckedBy(w));
  }

  /**
   * A consumer whose supervisor was not interrupted closed `stop` only after a poll that found the queue empty, with
   * every configured "end" heard by then. When all producers are counted, nothing is handed over after that poll, and
   * whatever is still unacknowledged at any later point was then held by or dropped from a producer worker, or
   * delivered and unacknowledged.
   */
  lemma StopCausality(cfg: Config, acts: seq<Action>, c: nat)
    requires cfg.Valid() && Run(cfg, acts).Some? && c < |Run(cfg, acts).value.consumers|
    requires Run(cfg, acts).value.consumers[c].stopCloses > 0 && InterruptSupervisor(c) !in acts
    ensures exists j: nat :: EmptyPoll(cfg, acts, c, j) && PollExplains(cfg, acts, c, j)
  {
    RunInv(cfg, acts);
    var t := Run(cfg, acts).value;
    assert ConsumerInv(cfg, t.consumers[c], t.producers);
    StopCause(cfg, acts, c);
    var j: nat :| EmptyPoll(cfg, acts, c, j);
    PollSettles(cfg, acts, c, j);
  }

  ghost predicate PollExplains(cfg: Config, acts: seq<Action>, c: nat, j: nat)
    requires cfg.Valid() && Run(cfg, acts).Some? && EmptyPoll(cfg, acts, c, j)
  {
    var s, t := Run(cfg, acts[..j]).value, Run(cfg, acts).value;
    && EndsHeard(cfg, s, s.consumers[c].heard)
    && |t.pairs| == |s.pairs|
    && (cfg.nProducers == cfg.producers ==>
          && (forall p :: 0 <= p < |s.producers| ==> s.producers[p].endSent)
          && (forall i :: 0 <= i < |s.pairs| ==> t.pairs[i].taken == s.pairs[i].taken)
          && (forall i, k: nat :: 0 <= i < |s.pairs| && k < |s.pairs[i].taken| && !IsAcked(t, i, k) ==>
                InFlight(s, i, k)))
  }

  lemma PollSettles(cfg: Config, acts: seq<Action>, c: nat, j: nat)
    requires cfg.Valid() && Run(cfg, acts).Some? && EmptyPoll(cfg, acts, c, j)
    ensures PollExplains(cfg, acts, c, j)
  {
    var s, t := Run(cfg, acts[..j]).value, Run(cfg, acts).value;
    RunInv(cfg, acts[..j]);
    DoneMeansEnded(cfg, s, c);
    assert acts[..|acts|] == acts;
    RunGrows(cfg, Init(cfg), acts, j, |acts|);
    if cfg.nProducers == cfg.producers {
      AllEnded(cfg, s, s.consumers[c].heard);
      forall i | 0 <= i < |s.pairs|
        ensures t.pairs[i].taken == s.pairs[i].taken
      {
        assert PairGrows(s.pairs[i], t.pairs[i]);
      }
      forall i, k: nat | 0 <= i < |s.pairs| && k < |s.pairs[i].taken| && !IsAcked(t, i, k)
        ensures InFlight(s, i, k)
      {
        NotInQueue(cfg, s, i, k);
        if IsAcked(s, i, k) {
          AckedStays(s, t, i, k);
        }
      }
    }
  }

  // ----- Closing a channel twice would panic -----

  lemma ClosesOf(cfg: Config, x: Consumer, producers: seq<Producer>)
    requires ConsumerInv(cfg, x, producers)
    ensures x.stopCloses <= 1 && x.doneCloses <= 1
    ensures x.supervisor.Stopping? ==> x.stopCloses == 0
    ensures x.main == Counting ==> x.doneCloses == 0
  {
  }

  /** Neither `stop` nor `done` is closed twice: where the code would close one, it has not been closed before. */
  lemma ClosedOnce(cfg: Config, acts: seq<Action>, c: nat)
    requires cfg.Valid() && Run(cfg, acts).Some? && c < |Run(cfg, acts).value.consumers|
    ensures var x := Run(cfg, acts).value.consumers[c];
      && x.stopCloses <= 1 && x.doneCloses <= 1
      && (x.supervisor.Stopping? ==> x.stopCloses == 0)
      && (x.main == Counting ==> x.doneCloses == 0)
  {
    RunInv(cfg, acts);
    var s := Run(cfg, acts).value;
    ClosesOf(cfg, s.consumers[c], s.producers);
  }

  // ----- Return -----

  ghost predicate Durable(w: Worker) {
    && w.phase == Finished
    && w.file == RowsText(w.rows) && w.pending == ""
    && w.unacked == [] && w.current == None
    && |w.rows| == |w.acked|
  }

  lemma FinishedIsDurable(cfg: Config, s: State, w: nat)
    requires Inv(cfg, s) && w < |s.workers| && s.workers[w].phase == Finished
    ensures Durable(s.workers[w])
    ensures s.workers[w].host < |s.consumers| && s.consumers[s.workers[w].host].stopCloses == 1
  {
    assert QueueInv(s.workers[w]) && RowsMatch(s.workers[w]) && TextInv(s.workers[w]);
    assert StopInv(s.workers[w], s.consumers);
    assert ConsumerInv(cfg, s.consumers[s.workers[w].host], s.producers);
    assert s.workers[w].file + "" == s.workers[w].file;
  }

  lemma NoneActive(cfg: Config, s: State, c: nat)
    requires WaitsInv(s) && c < |s.consumers| && s.consumers[c].wg == 0
    ensures forall w :: 0 <= w < |s.workers| && s.workers[w].host == c ==>
      s.workers[w].phase == Created || s.workers[w].phase == Finished
  {
    assert WaitInv(c, s.consumers[c], s.workers);
    CountZero(s.workers, ActiveOn(c));
    forall w | 0 <= w < |s.workers| && s.workers[w].host == c
      ensures s.workers[w].phase == Created || s.workers[w].phase == Finished
    {
      assert !ActiveOn(c)(s.workers[w]);
    }
  }

  /**
   * The wait group can only be waited on in vain for workers that had not started: when the main goroutine may
   * return, all of its workers are finished exactly when all of them have started.
   */
  lemma ReturnWaits(cfg: Config, acts: seq<Action>, c: nat)
    requires cfg.Valid() && Run(cfg, acts).Some? && ConsumerEnabled(Run(cfg, acts).value, Return(c))
    ensures var s := Run(cfg, acts).value;
      AllStarted(s.workers, c) <==>
      forall w :: 0 <= w < |s.workers| && s.workers[w].host == c ==> s.workers[w].phase == Finished
  {
    RunInv(cfg, acts);
    NoneActive(cfg, Run(cfg, acts).value, c);
  }

  /** If every worker had started before the wait, returning means that `stop` is closed and every row is on disk. */
  lemma ReturnIsDurable(cfg: Config, acts: seq<Action>, c: nat)
    requires cfg.Valid() && Run(cfg, acts).Some? && c < |Run(cfg, acts).value.consumers|
    requires Run(cfg, acts).value.consumers[c].main == Returned(true)
    ensures var s := Run(cfg, acts).value;
      forall w :: 0 <= w < |s.workers| && s.workers[w].host == c ==>
        Durable(s.workers[w]) && s.consumers[c].stopCloses == 1
  {
    RunInv(cfg, acts);
    var s := Run(cfg, acts).value;
    assert WaitInv(c, s.consumers[c], s.workers);
    NoneActive(cfg, s, c);
    forall w | 0 <= w < |s.workers| && s.workers[w].host == c
      ensures Durable(s.workers[w]) && s.consumers[c].stopCloses == 1
    {
      FinishedIsDurable(cfg, s, w);
    }
  }

  const ONE_WORKER: Config := Config(0, 0, [], 1, 1, 1, false)

  const IDLE: Worker := Worker(0, Created, 0, [], [], None, [], [], "", "")

  function Alone(x: Consumer): State {
    State([], [], multiset{}, [x], [IDLE])
  }

  lemma Signalled() returns (s: State)
    ensures ONE_WORKER.Valid() && Run(ONE_WORKER, [Bind(0), Signal(0)]) == Some(s)
    ensures s == Alone(Consumer(Counting, 0, [], [], true, 0, 0, Selecting, 0))
  {
    var cfg := ONE_WORKER;
    assert Repeat(0, 1) == [0];
    assert Blocks(1, 1) == [0];
    var s0 := Init(cfg);
    var x := Consumer(NotStarted, 0, [], [], false, 0, 0, Selecting, 0);
    assert s0 == Alone(x);
    var a1, a2 := Bind(0), Signal(0);
    assert [] + [a1] == [a1] && [a1] + [a2] == [a1, a2];
    Extend(cfg, s0, [], a1);
    assert Step(cfg, s0, a1) == Alone(x.(main := Counting));
    Extend(cfg, s0, [a1], a2);
    s := Step(cfg, Alone(x.(main := Counting)), a2);
    assert s == Alone(x.(main := Counting, signalled := true));
  }

  lemma Interrupted() returns (s: State)
    ensures ONE_WORKER.Valid() && Run(ONE_WORKER, [Bind(0), Signal(0), InterruptMain(0)]) == Some(s)
    ensures s == Alone(Consumer(Waiting(false), 0, [], [], false, 0, 0, Selecting, 0))
  {
    var t := Signalled();
    assert [Bind(0), Signal(0)] + [InterruptMain(0)] == [Bind(0), Signal(0), InterruptMain(0)];
    Extend(ONE_WORKER, Init(ONE_WORKER), [Bind(0), Signal(0)], InterruptMain(0));
    s := Step(ONE_WORKER, t, InterruptMain(0));
    assert t.workers[0].host == 0 && t.workers[0].phase == Created;
    assert !AllStarted(t.workers, 0);
    assert s == Alone(Consumer(Waiting(false), 0, [], [], false, 0, 0, Selecting, 0));
  }

  /** The wait group is counted up inside the goroutines, so the consumer can return before a worker has started. */
  lemma ReturnsTooEarly()
    ensures var acts := [Bind(0), Signal(0), InterruptMain(0), Return(0)];
      && ONE_WORKER.Valid()
      && Run(ONE_WORKER, acts) == Some(Alone(Consumer(Returned(false), 0, [], [], false, 0, 0, Selecting, 0)))
      && IDLE.phase == Created
  {
    var s := Interrupted();
    var acts := [Bind(0), Signal(0), InterruptMain(0)];
    assert acts + [Return(0)] == [Bind(0), Signal(0), InterruptMain(0), Return(0)];
    Extend(ONE_WORKER, Init(ONE_WORKER), acts, Return(0));
    assert Step(ONE_WORKER, s, Return(0)) == Alone(Consumer(Returned(false), 0, [], [], false, 0, 0, Selecting, 0));
  }

  // ----- One interrupt reaches one goroutine -----

  /** The main goroutine took the interrupt, and the supervisor still selects between an interrupt and `done`. */
  ghost predicate MainAlone(x: Consumer) {
    && (x.main.Waiting? || x.main.Returned?)
    && x.supervisor == Selecting && !x.signalled && x.doneCloses == 0 && x.stopCloses == 0
  }

  lemma MainAloneStep(cfg: Config, s: State, a: Action, c: nat)
    requires Enabled(cfg, s, a) && a != Signal(c) && c < |s.consumers| && MainAlone(s.consumers[c])
    ensures MainAlone(ConsumersAfter(cfg, s, a)[c])
  {
  }

  lemma RunningStays(cfg: Config, s: State, a: Action, w: nat)
    requires Enabled(cfg, s, a) && w < |s.workers| && s.workers[w].phase == Running
    requires s.workers[w].host < |s.consumers| && s.consumers[s.workers[w].host].stopCloses == 0
    ensures WorkersAfter(cfg, s, a)[w].phase == Running && WorkersAfter(cfg, s, a)[w].host == s.workers[w].host
  {
  }

  lemma ActiveBlocksReturn(cfg: Config, s: State, c: nat, w: nat)
    requires WaitsInv(s) && c < |s.consumers| && w < |s.workers| && s.workers[w].host == c && Active(s.workers[w])
    ensures s.consumers[c].wg > 0
  {
    assert WaitInv(c, s.consumers[c], s.workers);
    CountZero(s.workers, ActiveOn(c));
    assert ActiveOn(c)(s.workers[w]);
  }

  /** Whether wg.Wait lets the main goroutine go on. */
  ghost predicate Returns(x: Consumer) { x.main.Waiting? && x.wg == 0 }

  ghost predicate Stuck(s: State, c: nat, w: nat) {
    && c < |s.consumers| && MainAlone(s.consumers[c])
    && w < |s.workers| && s.workers[w].host == c && s.workers[w].phase == Running
  }

  lemma {:induction false} StuckStays(cfg: Config, s: State, acts: seq<Action>, c: nat, w: nat)
    requires RunFrom(cfg, s, acts).Some? && Stuck(s, c, w) && Signal(c) !in acts
    ensures Stuck(RunFrom(cfg, s, acts).value, c, w)
  {
    if acts != [] {
      var n := |acts| - 1;
      var before := acts[..n];
      assert acts == before + [acts[n]];
      RunLast(cfg, s, before, acts[n]);
      StuckStays(cfg, s, before, c, w);
      var x := RunFrom(cfg, s, before).value;
      MainAloneStep(cfg, x, acts[n], c);
      RunningStays(cfg, x, acts[n], w);
    }
  }

  /**
   * When the interrupt goes to the main goroutine, nothing closes `stop` until another signal arrives: the supervisor
   * keeps waiting, running workers keep running, and so the main goroutine cannot return.
   */
  lemma InterruptLost(cfg: Config, s: State, acts: seq<Action>, c: nat, w: nat)
    requires Inv(cfg, s) && RunFrom(cfg, s, acts).Some? && Stuck(s, c, w) && Signal(c) !in acts
    ensures var t := RunFrom(cfg, s, acts).value;
      && c < |t.consumers| && w < |t.workers|
      && t.consumers[c].stopCloses == 0 && t.consumers[c].wg > 0 && t.workers[w].phase == Running
      && !Returns(t.consumers[c])
  {
    StuckStays(cfg, s, acts, c, w);
    RunFromInv(cfg, s, acts);
    ActiveBlocksReturn(cfg, RunFrom(cfg, s, acts).value, c, w);
  }
}
