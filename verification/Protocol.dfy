/**
 * The experiment as a step system: producer nodes whose generators hand messages to workers, a broker queue, and
 * consumer nodes with their main goroutine, supervisor and workers. Every action is one step of one goroutine, or one
 * step of the broker or the operating system; any interleaving of enabled actions is a run.
 */
module Protocol {
  import opened Prelude
  import opened Decimal
  import opened Text

  type Body = string

  /** Where a generator gets its messages: random ones until `stop` closes, or a workload loaded beforehand. */
  datatype Source = RealTime | Preloaded(messages: seq<Body>)

  /**
   * A deployment. `nProducers` is the number of producers each consumer was configured to wait for; `producers` is the
   * number that really run. `sources` has one entry for each generator of each producer.
   */
  datatype Config = Config(
    producers: nat, generatorsEach: nat, sources: seq<Source>,
    nProducers: nat,
    consumers: nat, workersEach: nat, ackMultiple: bool)
  {
    predicate Valid() {
      |sources| == |Blocks(producers, generatorsEach)|
    }
  }

  /** The owner of each position when `n` owners hold `k` consecutive positions each. */
  function Blocks(n: nat, k: nat): seq<nat> {
    if n == 0 then [] else Blocks(n - 1, k) + Repeat(n - 1, k)
  }

  function Repeat(v: nat, k: nat): (r: seq<nat>)
    ensures |r| == k
  {
    if k == 0 then [] else Repeat(v, k - 1) + [v]
  }

  // ----- State -----

  /** The `k`-th message that generator `pair` handed over. */
  datatype MsgId = MsgId(pair: nat, k: nat)

  datatype Delivery = Delivery(id: MsgId, body: Body, header: string)

  /** A delivery on a consumer worker's channel, with its delivery tag. */
  datatype Tagged = Tagged(tag: nat, delivery: Delivery)

  /** A generator is done once its deferred close of the hand-off channel and then its wg.Done have run. */
  datatype GeneratorState = Generating | Closed | WgDone

  /** A generator goroutine together with the worker goroutine at the other end of its unbuffered channel. */
  datatype Pair = Pair(
    owner: nat, source: Source, generator: GeneratorState,
    taken: seq<Body>,          // everything handed over so far
    held: Option<Body>,        // received by the worker, not yet published
    dropped: Option<Body>,     // lost when the producer process ended
    published: seq<Delivery>,
    stamps: seq<int64>)        // the clock at each publish

  datatype Producer = Producer(wg: int, stopClosed: bool, endSent: bool)

  datatype MainState = NotStarted | Counting | Waiting(allStarted: bool) | Returned(allStarted: bool)

  /** `polled` tells whether the supervisor came here from an empty poll or from an interrupt. */
  datatype SupervisorState =
    | Selecting
    | Polling(t: int)
    | Sleeping(t: int)
    | Stopping(polled: bool)
    | Over(polled: bool)

  datatype Consumer = Consumer(
    main: MainState,
    nDone: int,                // nProducersDone
    heard: seq<nat>,           // the producers whose "end" was counted
    inbox: seq<nat>,           // "end" messages not yet received
    signalled: bool,           // the one slot of the interrupt channel
    doneCloses: nat, stopCloses: nat,
    supervisor: SupervisorState,
    wg: int)

  datatype WorkerPhase = Created | Running | Exiting | Flushed | ChannelClosed | Finished

  datatype Worker = Worker(
    host: nat, phase: WorkerPhase, nextTag: nat,
    unacked: seq<Tagged>,      // the broker's view of this worker's channel
    local: seq<Tagged>,        // delivered to the Go channel, not yet received
    current: Option<Tagged>,   // recorded, not yet acknowledged
    acked: seq<Delivery>,
    rows: seq<Row>,            // every row ever written
    file: string, pending: string)  // text on disk, and in the bufio.Writer

  datatype State = State(
    pairs: seq<Pair>, producers: seq<Producer>,
    ready: multiset<Delivery>,
    consumers: seq<Consumer>, workers: seq<Worker>)

  function Init(cfg: Config): State
    requires cfg.Valid()
  {
    State(
      seq(|cfg.sources|, i requires 0 <= i < |cfg.sources| =>
        Pair(Blocks(cfg.producers, cfg.generatorsEach)[i], cfg.sources[i], Generating, [], None, None, [], [])),
      seq(cfg.producers, _ => Producer(cfg.generatorsEach, false, false)),
      multiset{},
      seq(cfg.consumers, _ => Consumer(NotStarted, 0, [], [], false, 0, 0, Selecting, 0)),
      var hosts := Blocks(cfg.consumers, cfg.workersEach);
      seq(|hosts|, i requires 0 <= i < |hosts| =>
        Worker(hosts[i], Created, 0, [], [], None, [], [], "", "")))
  }

  // ----- Actions -----

  datatype Action =
    // producer node: p a producer, i a generator/worker pair
    | StopTimer(p: nat)
    | HandOver(i: nat, body: Body)
    | CloseMessages(i: nat, interrupted: bool)
    | GeneratorDone(i: nat)
    | Publish(i: nat, now: int64)
    | SendEnd(p: nat)
    | Drop(i: nat)
    // consumer node c: operating system, main goroutine, supervisor
    | Bind(c: nat)
    | Signal(c: nat)
    | HearEnd(c: nat)
    | InterruptMain(c: nat)
    | Return(c: nat)
    | InterruptSupervisor(c: nat)
    | SeeDone(c: nat)
    | Poll(c: nat)
    | Wake(c: nat)
    | CloseStop(c: nat)
    // consumer worker w, and the broker's side of its channel
    | StartWorker(w: nat)
    | Deliver(w: nat, d: Delivery)
    | Record(w: nat, now: int64)
    | Ack(w: nat)
    | Spill(w: nat, n: nat)
    | SeeStop(w: nat)
    | Flush(w: nat)
    | CloseChannel(w: nat)
    | FinishWorker(w: nat)

  const MAX_SLEEP: int := 6400
  const FIRST_SLEEP: int := 100

  /** The supervisor's back-off: the sleep that follows a non-empty poll. */
  function NextSleep(t: int): int {
    if t < MAX_SLEEP then 2 * t else t
  }

  predicate ChannelOpen(w: Worker) {
    w.phase == Running || w.phase == Exiting || w.phase == Flushed
  }

  predicate Active(w: Worker) {
    ChannelOpen(w) || w.phase == ChannelClosed
  }

  predicate AllStarted(workers: seq<Worker>, c: nat) {
    forall w :: 0 <= w < |workers| && workers[w].host == c ==> workers[w].phase != Created
  }

  predicate OnPair(a: Action) {
    a.HandOver? || a.CloseMessages? || a.GeneratorDone? || a.Publish? || a.Drop?
  }

  predicate OnConsumer(a: Action) {
    || a.Bind? || a.Signal? || a.HearEnd? || a.InterruptMain? || a.Return?
    || a.InterruptSupervisor? || a.SeeDone? || a.Poll? || a.Wake? || a.CloseStop?
  }

  predicate OnWorker(a: Action) {
    || a.StartWorker? || a.Deliver? || a.Record? || a.Ack? || a.Spill?
    || a.SeeStop? || a.Flush? || a.CloseChannel? || a.FinishWorker?
  }

  predicate PairEnabled(s: State, a: Action)
    requires OnPair(a)
  {
    && a.i < |s.pairs|
    && var q := s.pairs[a.i];
    && q.owner < |s.producers|
    && if a.HandOver? then
         // the channel is unbuffered: both sides have to be at the hand-over
         && q.generator == Generating && q.held.None?
         && (q.source.Preloaded? ==>
               |q.taken| < |q.source.messages| && a.body == q.source.messages[|q.taken|])
       else if a.CloseMessages? then
         && q.generator == Generating
         && if q.source.RealTime? then !a.interrupted && s.producers[q.owner].stopClosed
            else a.interrupted || |q.taken| == |q.source.messages|
       else if a.GeneratorDone? then q.generator == Closed
       else if a.Publish? then q.held.Some?
       else
         // the connection closes and the process ends only after "end" was sent
         q.held.Some? && s.producers[q.owner].endSent
  }

  predicate ConsumerEnabled(s: State, a: Action)
    requires OnConsumer(a)
  {
    && a.c < |s.consumers|
    && var x := s.consumers[a.c];
    && if a.Bind? then x.main == NotStarted
       else if a.Signal? then true
       else if a.HearEnd? then x.main == Counting && x.inbox != []
       else if a.InterruptMain? then x.main == Counting && x.signalled
       else if a.Return? then x.main.Waiting? && x.wg == 0
       else if a.InterruptSupervisor? then x.main != NotStarted && x.supervisor == Selecting && x.signalled
       else if a.SeeDone? then x.supervisor == Selecting && x.doneCloses > 0
       else if a.Poll? then x.supervisor.Polling?
       else if a.Wake? then x.supervisor.Sleeping?
       else x.supervisor.Stopping?
  }

  predicate WorkerEnabled(s: State, a: Action)
    requires OnWorker(a)
  {
    && a.w < |s.workers|
    && var w := s.workers[a.w];
    && w.host < |s.consumers|
    && var x := s.consumers[w.host];
    && if a.StartWorker? then w.phase == Created && (x.main == Counting || x.main.Waiting?)
       else if a.Deliver? then ChannelOpen(w) && a.d in s.ready
       else if a.Record? then w.phase == Running && w.current.None? && w.local != []
       else if a.Ack? then w.phase == Running && w.current.Some?
       else if a.Spill? then a.n <= |w.pending|
       else if a.SeeStop? then w.phase == Running && w.current.None? && x.stopCloses > 0
       else if a.Flush? then w.phase == Exiting
       else if a.CloseChannel? then w.phase == Flushed
       else w.phase == ChannelClosed
  }

  predicate Enabled(cfg: Config, s: State, a: Action) {
    if OnPair(a) then PairEnabled(s, a)
    else if OnConsumer(a) then ConsumerEnabled(s, a)
    else if OnWorker(a) then WorkerEnabled(s, a)
    else if a.StopTimer? then a.p < |s.producers|
    else a.p < |s.producers| && s.producers[a.p].wg == 0 && !s.producers[a.p].endSent
  }

  // ----- basic.ack -----

  /** AMQP 0-9-1, section 1.8.3.13: with `multiple` set, every delivery up to and including the tag is settled. */
  predicate Settles(t: nat, multiple: bool, x: Tagged) {
    if multiple then x.tag <= t else x.tag == t
  }

  function Unsettled(u: seq<Tagged>, t: nat, multiple: bool): seq<Tagged> {
    if u == [] then []
    else (if Settles(t, multiple, u[0]) then [] else [u[0]]) + Unsettled(u[1..], t, multiple)
  }

  function Settled(u: seq<Tagged>, t: nat, multiple: bool): seq<Delivery> {
    if u == [] then []
    else (if Settles(t, multiple, u[0]) then [u[0].delivery] else []) + Settled(u[1..], t, multiple)
  }

  function Untagged(u: seq<Tagged>): multiset<Delivery> {
    if u == [] then multiset{} else multiset{u[0].delivery} + Untagged(u[1..])
  }

  // ----- Steps -----

  /** What the row of a delivery holds as its first column: whatever the parser makes of the header. */
  function HeaderStamp(header: string): int64 { ParsedInt(header) }

  function PairStep(i: nat, q: Pair, a: Action): (r: Pair)
    requires OnPair(a)
    requires a.Publish? ==> q.held.Some?
    ensures r.owner == q.owner && r.source == q.source
  {
    if a.HandOver? then q.(taken := q.taken + [a.body], held := Some(a.body))
    else if a.CloseMessages? then q.(generator := Closed)
    else if a.GeneratorDone? then q.(generator := WgDone)
    else if a.Publish? then
      var d := Delivery(MsgId(i, |q.published|), q.held.value, FormatInt(a.now));
      q.(held := None, published := q.published + [d], stamps := q.stamps + [a.now])
    else q.(held := None, dropped := q.held)
  }

  /** One "end" is counted; the last one closes `done` and sends the main goroutine to wait for its workers. */
  function Heard(cfg: Config, x: Consumer, allStarted: bool): Consumer
    requires x.inbox != []
  {
    var y := x.(nDone := x.nDone + 1, heard := x.heard + [x.inbox[0]], inbox := x.inbox[1..]);
    if y.nDone == cfg.nProducers then y.(doneCloses := x.doneCloses + 1, main := Waiting(allStarted)) else y
  }

  function ConsumerStep(cfg: Config, x: Consumer, allStarted: bool, queueEmpty: bool, a: Action): Consumer
    requires OnConsumer(a)
    requires a.HearEnd? ==> x.inbox != []
    requires a.Return? ==> x.main.Waiting?
    requires a.Poll? ==> x.supervisor.Polling?
    requires a.Wake? ==> x.supervisor.Sleeping?
    requires a.CloseStop? ==> x.supervisor.Stopping?
  {
    if a.Bind? then x.(main := Counting)
    else if a.Signal? then x.(signalled := true)
    else if a.HearEnd? then Heard(cfg, x, allStarted)
    else if a.InterruptMain? then x.(signalled := false, main := Waiting(allStarted))
    else if a.Return? then x.(main := Returned(x.main.allStarted))
    else if a.InterruptSupervisor? then x.(signalled := false, supervisor := Stopping(false))
    else if a.SeeDone? then x.(supervisor := Polling(FIRST_SLEEP))
    else if a.Poll? then
      x.(supervisor := if queueEmpty then Stopping(true) else Sleeping(NextSleep(x.supervisor.t)))
    else if a.Wake? then x.(supervisor := Polling(x.supervisor.t))
    else x.(stopCloses := x.stopCloses + 1, supervisor := Over(x.supervisor.polled))
  }

  function Delivered(w: Worker, d: Delivery): Worker {
    var x := Tagged(w.nextTag, d);
    w.(nextTag := w.nextTag + 1, unacked := w.unacked + [x], local := w.local + [x])
  }

  /** The worker receives its oldest delivery and writes the row for it. */
  function Recorded(w: Worker, now: int64): Worker
    requires w.local != []
  {
    var r := Row(HeaderStamp(w.local[0].delivery.header), now);
    w.(local := w.local[1..], current := Some(w.local[0]), rows := w.rows + [r],
       pending := w.pending + (RowLine(r) + "\n"))
  }

  function Acknowledged(w: Worker, multiple: bool): Worker
    requires w.current.Some?
  {
    var t := w.current.value.tag;
    w.(current := None,
       unacked := Unsettled(w.unacked, t, multiple),
       acked := w.acked + Settled(w.unacked, t, multiple))
  }

  function WorkerStep(cfg: Config, w: Worker, a: Action): (r: Worker)
    requires OnWorker(a)
    requires a.Record? ==> w.local != []
    requires a.Ack? ==> w.current.Some?
    requires a.Spill? ==> a.n <= |w.pending|
    ensures r.host == w.host
  {
    if a.StartWorker? then w.(phase := Running)
    else if a.Deliver? then Delivered(w, a.d)
    else if a.Record? then Recorded(w, a.now)
    else if a.Ack? then Acknowledged(w, cfg.ackMultiple)
    else if a.Spill? then w.(file := w.file + w.pending[..a.n], pending := w.pending[a.n..])
    else if a.SeeStop? then w.(phase := Exiting)
    else if a.Flush? then w.(phase := Flushed, file := w.file + w.pending, pending := "")
    else if a.CloseChannel? then w.(phase := ChannelClosed, unacked := [], local := [])
    else w.(phase := Finished)
  }

  /** The fan-out exchange puts "end" into the queue of every consumer that has bound one. */
  function FanOut(cs: seq<Consumer>, p: nat): seq<Consumer> {
    seq(|cs|, c requires 0 <= c < |cs| =>
      if cs[c].main == NotStarted then cs[c] else cs[c].(inbox := cs[c].inbox + [p]))
  }

  function PairsAfter(cfg: Config, s: State, a: Action): seq<Pair>
    requires Enabled(cfg, s, a)
  {
    if OnPair(a) then s.pairs[a.i := PairStep(a.i, s.pairs[a.i], a)] else s.pairs
  }

  function ProducersAfter(cfg: Config, s: State, a: Action): (r: seq<Producer>)
    requires Enabled(cfg, s, a)
    ensures |r| == |s.producers|
  {
    if a.StopTimer? then s.producers[a.p := s.producers[a.p].(stopClosed := true)]
    else if a.SendEnd? then s.producers[a.p := s.producers[a.p].(endSent := true)]
    else if a.GeneratorDone? then
      var p := s.pairs[a.i].owner;
      s.producers[p := s.producers[p].(wg := s.producers[p].wg - 1)]
    else s.producers
  }

  function ReadyAfter(cfg: Config, s: State, a: Action): multiset<Delivery>
    requires Enabled(cfg, s, a)
  {
    if a.Publish? then
      var q := s.pairs[a.i];
      s.ready + multiset{PairStep(a.i, q, a).published[|q.published|]}
    else if a.Deliver? then s.ready - multiset{a.d}
    else if a.CloseChannel? then s.ready + Untagged(s.workers[a.w].unacked)
    else s.ready
  }

  function ConsumersAfter(cfg: Config, s: State, a: Action): (r: seq<Consumer>)
    requires Enabled(cfg, s, a)
    ensures |r| == |s.consumers|
  {
    if OnConsumer(a) then
      s.consumers[a.c :=
        ConsumerStep(cfg, s.consumers[a.c], AllStarted(s.workers, a.c), s.ready == multiset{}, a)]
    else if a.SendEnd? then FanOut(s.consumers, a.p)
    else if a.StartWorker? then
      var c := s.workers[a.w].host;
      s.consumers[c := s.consumers[c].(wg := s.consumers[c].wg + 1)]
    else if a.FinishWorker? then
      var c := s.workers[a.w].host;
      s.consumers[c := s.consumers[c].(wg := s.consumers[c].wg - 1)]
    else s.consumers
  }

  function WorkersAfter(cfg: Config, s: State, a: Action): seq<Worker>
    requires Enabled(cfg, s, a)
  {
    if OnWorker(a) then s.workers[a.w := WorkerStep(cfg, s.workers[a.w], a)] else s.workers
  }

  function Step(cfg: Config, s: State, a: Action): State
    requires Enabled(cfg, s, a)
  {
    State(PairsAfter(cfg, s, a), ProducersAfter(cfg, s, a), ReadyAfter(cfg, s, a),
          ConsumersAfter(cfg, s, a), WorkersAfter(cfg, s, a))
  }

  /** The state after a sequence of actions, or None when one of them was not enabled. */
  function RunFrom(cfg: Config, s: State, acts: seq<Action>): Option<State> {
    if acts == [] then Some(s)
    else
      match RunFrom(cfg, s, acts[..|acts| - 1])
      case None => None
      case Some(t) =>
        var a := acts[|acts| - 1];
        if Enabled(cfg, t, a) then Some(Step(cfg, t, a)) else None
  }

  function Run(cfg: Config, acts: seq<Action>): Option<State>
    requires cfg.Valid()
  {
    RunFrom(cfg, Init(cfg), acts)
  }

  lemma RunLast(cfg: Config, s: State, acts: seq<Action>, a: Action)
    requires RunFrom(cfg, s, acts + [a]).Some?
    ensures RunFrom(cfg, s, acts).Some?
    ensures Enabled(cfg, RunFrom(cfg, s, acts).value, a)
    ensures RunFrom(cfg, s, acts + [a]) == Some(Step(cfg, RunFrom(cfg, s, acts).value, a))
  {
    assert (acts + [a])[..|acts|] == acts;
  }

  /** Every prefix of a run is a run, and the action after it was enabled there. */
  lemma {:induction false} Prefix(cfg: Config, s: State, acts: seq<Action>, j: nat)
    requires RunFrom(cfg, s, acts).Some? && j < |acts|
    ensures RunFrom(cfg, s, acts[..j]).Some?
    ensures Enabled(cfg, RunFrom(cfg, s, acts[..j]).value, acts[j])
    ensures RunFrom(cfg, s, acts[..j + 1]) == Some(Step(cfg, RunFrom(cfg, s, acts[..j]).value, acts[j]))
  {
    var n := |acts| - 1;
    var before := acts[..n];
    assert acts == before + [acts[n]];
    RunLast(cfg, s, before, acts[n]);
    if j < n {
      Prefix(cfg, s, before, j);
      assert before[..j] == acts[..j] && before[..j + 1] == acts[..j + 1];
    } else {
      assert acts[..j] == before && acts[..j + 1] == acts;
    }
  }

  lemma Extend(cfg: Config, s: State, acts: seq<Action>, a: Action)
    requires RunFrom(cfg, s, acts).Some? && Enabled(cfg, RunFrom(cfg, s, acts).value, a)
    ensures RunFrom(cfg, s, acts + [a]) == Some(Step(cfg, RunFrom(cfg, s, acts).value, a))
  {
    assert (acts + [a])[..|acts|] == acts;
  }

  lemma One(cfg: Config, s: State, a: Action)
    requires Enabled(cfg, s, a)
    ensures RunFrom(cfg, s, [a]) == Some(Step(cfg, s, a))
  {
    assert [a][..0] == [];
  }
}
