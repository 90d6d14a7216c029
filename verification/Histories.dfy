/**
 * The experiment seen from outside: what may happen next, and what every goroutine then holds, said of the sequence of
 * actions alone. The step system of `Protocol` allows exactly the sequences in which every action has its causes before
 * it, and its state is what the sequence says.
 */
module Histories {
  import opened Prelude
  import opened Decimal
  import opened Text
  import opened Protocol
  import Supervision

  type History = seq<Action>

  function Times(h: History, a: Action): nat { Count(h, (b: Action) => b == a) }

  // ----- The producers' side -----

  /** The bodies that generator `i` handed over, in order. */
  function Handed(h: History, i: nat): seq<Body> {
    FlatMap(h, (a: Action) => if a.HandOver? && a.i == i then [a.body] else [])
  }

  /** The clocks at the publishes of worker `i`, in order. */
  function Clocks(h: History, i: nat): seq<int64> {
    FlatMap(h, (a: Action) => if a.Publish? && a.i == i then [a.now] else [])
  }

  predicate HasClosed(h: History, i: nat) { CloseMessages(i, true) in h || CloseMessages(i, false) in h }

  /** The worker has a message that it has not published, and its process is still there. */
  predicate Holds(h: History, i: nat) { |Clocks(h, i)| < |Handed(h, i)| && Drop(i) !in h }

  predicate IsGenerator(cfg: Config, i: nat) {
    i < |cfg.sources| == |Blocks(cfg.producers, cfg.generatorsEach)|
  }

  function OwnerOf(cfg: Config, i: nat): nat
    requires IsGenerator(cfg, i)
  {
    Blocks(cfg.producers, cfg.generatorsEach)[i]
  }

  /** The message with the given name, as it was published. */
  predicate PublishedAs(h: History, d: Delivery) {
    var i, k := d.id.pair, d.id.k;
    && k < |Clocks(h, i)| && k < |Handed(h, i)|
    && d.body == Handed(h, i)[k] && d.header == FormatInt(Clocks(h, i)[k])
  }

  // ----- The consumers' side -----

  /** The "end" messages that the fan-out put into the queue of consumer `c`: those sent after it bound the queue. */
  function Sent(h: History, c: nat): seq<nat> {
    if h == [] then []
    else
      var before, a := h[..|h| - 1], h[|h| - 1];
      Sent(before, c) + if a.SendEnd? && Bind(c) in before then [a.p] else []
  }

  predicate AllHeard(cfg: Config, h: History, c: nat) { 0 < cfg.nProducers == Times(h, HearEnd(c)) }

  /** The main goroutine is at its select. */
  predicate InCount(cfg: Config, h: History, c: nat) {
    Bind(c) in h && InterruptMain(c) !in h && !AllHeard(cfg, h, c)
  }

  /** The slot of the interrupt channel is full: since the last interrupt, nobody has received one. */
  predicate Slot(h: History, c: nat) {
    h != [] &&
    var before, a := h[..|h| - 1], h[|h| - 1];
    a == Signal(c) || (a != InterruptMain(c) && a != InterruptSupervisor(c) && Slot(before, c))
  }

  function Arrived(h: History, w: nat): seq<Delivery> {
    FlatMap(h, (a: Action) => if a.Deliver? && a.w == w then [a.d] else [])
  }

  /** The clocks that worker `w` read for its rows, in order. */
  function Receipts(h: History, w: nat): seq<int64> {
    FlatMap(h, (a: Action) => if a.Record? && a.w == w then [a.now] else [])
  }

  /** The deliveries that are not in the queue because of worker `w`: those on its channel, or acknowledged. */
  function TakenBy(h: History, w: nat): seq<Delivery> {
    if CloseChannel(w) in h && Times(h, Ack(w)) <= |Arrived(h, w)| then Arrived(h, w)[..Times(h, Ack(w))]
    else Arrived(h, w)
  }

  ghost predicate NobodyTook(h: History, d: Delivery) { forall w: nat :: d !in TakenBy(h, w) }

  /** Published, and not with any worker nor acknowledged by one. */
  ghost predicate Queued(h: History, d: Delivery) { PublishedAs(h, d) && NobodyTook(h, d) }

  ghost predicate QueueEmpty(h: History) { forall d :: !Queued(h, d) }

  ghost predicate EmptyPollAt(h: History, c: nat, j: nat) {
    j < |h| && h[j] == Poll(c) && QueueEmpty(h[..j])
  }

  /** A poll of the supervisor found nothing. */
  ghost predicate FoundEmpty(h: History, c: nat) { exists j: nat :: EmptyPollAt(h, c, j) }

  predicate IsWorker(cfg: Config, w: nat) { w < |Blocks(cfg.consumers, cfg.workersEach)| }

  function HostOf(cfg: Config, w: nat): nat
    requires IsWorker(cfg, w)
  {
    Blocks(cfg.consumers, cfg.workersEach)[w]
  }

  /** The rows for deliveries received in order: the header of each, and the clock read for it. */
  function RowsOf(arrived: seq<Delivery>, clocks: seq<int64>): (rows: seq<Row>)
    requires |clocks| <= |arrived|
    ensures |rows| == |clocks|
  {
    seq(|clocks|, k requires 0 <= k < |clocks| => Row(HeaderStamp(arrived[k].header), clocks[k]))
  }

  /** The length of their text, as far as there are deliveries for the clocks. */
  function TextLength(arrived: seq<Delivery>, clocks: seq<int64>): nat {
    if |clocks| <= |arrived| then |RowsText(RowsOf(arrived, clocks))| else 0
  }

  // ----- What may happen next -----

  predicate GeneratorMay(cfg: Config, h: History, a: Action)
    requires OnPair(a)
  {
    && IsGenerator(cfg, a.i)
    && var src := cfg.sources[a.i];
    match a
    case HandOver(i, body) =>
      && !HasClosed(h, i) && !Holds(h, i)
      && (src.Preloaded? ==> |Handed(h, i)| < |src.messages| && body == src.messages[|Handed(h, i)|])
    case CloseMessages(i, interrupted) =>
      && !HasClosed(h, i)
      && (src.RealTime? ==> !interrupted && StopTimer(OwnerOf(cfg, i)) in h)
      && (src.Preloaded? ==> interrupted || Handed(h, i) == src.messages)
    case GeneratorDone(i) => HasClosed(h, i) && GeneratorDone(i) !in h
    case Publish(i, _) => Holds(h, i)
    case Drop(i) => Holds(h, i) && SendEnd(OwnerOf(cfg, i)) in h
  }

  ghost predicate ConsumerMay(cfg: Config, h: History, a: Action)
    requires OnConsumer(a)
  {
    && a.c < cfg.consumers
    && match a
       case Bind(c) => Bind(c) !in h
       case Signal(_) => true
       case HearEnd(c) => InCount(cfg, h, c) && Times(h, HearEnd(c)) < |Sent(h, c)|
       case InterruptMain(c) => InCount(cfg, h, c) && Slot(h, c)
       case Return(c) =>
         && Bind(c) in h && !InCount(cfg, h, c) && Return(c) !in h
         && forall w: nat :: IsWorker(cfg, w) && HostOf(cfg, w) == c && StartWorker(w) in h ==> FinishWorker(w) in h
       case InterruptSupervisor(c) =>
         Bind(c) in h && Slot(h, c) && SeeDone(c) !in h && InterruptSupervisor(c) !in h
       case SeeDone(c) => AllHeard(cfg, h, c) && SeeDone(c) !in h && InterruptSupervisor(c) !in h
       case Poll(c) => SeeDone(c) in h && Times(h, Poll(c)) == Times(h, Wake(c))
       case Wake(c) => Times(h, Poll(c)) > Times(h, Wake(c)) && !FoundEmpty(h, c)
       case CloseStop(c) => CloseStop(c) !in h && (FoundEmpty(h, c) || InterruptSupervisor(c) in h)
  }

  ghost predicate WorkerMay(cfg: Config, h: History, a: Action)
    requires OnWorker(a)
  {
    && IsWorker(cfg, a.w)
    && var host := HostOf(cfg, a.w);
    match a
    case StartWorker(w) => StartWorker(w) !in h && Bind(host) in h && Return(host) !in h
    case Deliver(w, d) => StartWorker(w) in h && CloseChannel(w) !in h && Queued(h, d)
    case Record(w, _) =>
      && StartWorker(w) in h && SeeStop(w) !in h
      && Times(h, Ack(w)) == |Receipts(h, w)| < |Arrived(h, w)|
    case Ack(w) => Times(h, Ack(w)) < |Receipts(h, w)|
    case Spill(w, n) => Written(h, w) + n <= TextLength(Arrived(h, w), Receipts(h, w))
    case SeeStop(w) =>
      && StartWorker(w) in h && SeeStop(w) !in h && Times(h, Ack(w)) == |Receipts(h, w)|
      && CloseStop(host) in h
    case Flush(w) => SeeStop(w) in h && Flush(w) !in h
    case CloseChannel(w) => Flush(w) in h && CloseChannel(w) !in h
    case FinishWorker(w) => CloseChannel(w) in h && FinishWorker(w) !in h
  }

  /** How much of its text the buffered writer has moved to the file; a flush moves all of it. */
  function Written(h: History, w: nat): nat {
    if h == [] then 0
    else
      var before, a := h[..|h| - 1], h[|h| - 1];
      if a.Spill? && a.w == w then Written(before, w) + a.n
      else if a == Flush(w) then TextLength(Arrived(before, w), Receipts(before, w))
      else Written(before, w)
  }

  /** The causes of an action are among the actions before it. */
  ghost predicate May(cfg: Config, h: History, a: Action) {
    if OnPair(a) then GeneratorMay(cfg, h, a)
    else if OnConsumer(a) then ConsumerMay(cfg, h, a)
    else if OnWorker(a) then WorkerMay(cfg, h, a)
    else
      && a.p < cfg.producers
      && (a.SendEnd? ==>
            && SendEnd(a.p) !in h
            && forall i: nat :: IsGenerator(cfg, i) && OwnerOf(cfg, i) == a.p ==> GeneratorDone(i) in h)
  }

  ghost predicate IsTrace(cfg: Config, acts: History) {
    forall j: nat :: j < |acts| ==> May(cfg, acts[..j], acts[j])
  }

  // ----- What the goroutines hold then -----

  ghost predicate PairIs(cfg: Config, h: History, i: nat, q: Pair)
    requires IsGenerator(cfg, i)
  {
    && q.owner == OwnerOf(cfg, i) && q.source == cfg.sources[i]
    && q.taken == Handed(h, i) && q.stamps == Clocks(h, i)
    && q.generator == (if GeneratorDone(i) in h then WgDone else if HasClosed(h, i) then Closed else Generating)
    && (GeneratorDone(i) in h ==> HasClosed(h, i))
    && (q.dropped.Some? <==> Drop(i) in h) && (q.held.Some? <==> Holds(h, i))
  }

  ghost predicate ProducerIs(h: History, p: nat, x: Producer) {
    (x.stopClosed <==> StopTimer(p) in h) && (x.endSent <==> SendEnd(p) in h)
  }

  /** 100 milliseconds, doubled after every poll that finds something, up to 6400. */
  function Nap(k: nat): int { if k < 6 then 100 * Supervision.Pow2(k) else 6400 }

  /** Every worker of `c` has started. */
  ghost predicate HaveStarted(cfg: Config, h: History, c: nat) {
    forall w: nat :: IsWorker(cfg, w) && HostOf(cfg, w) == c ==> StartWorker(w) in h
  }

  /** Whether all workers of `c` had started when the main goroutine left its select. */
  ghost predicate StartedThen(cfg: Config, h: History, c: nat) {
    h != [] &&
    var before, a := h[..|h| - 1], h[|h| - 1];
    if a == InterruptMain(c) || (a == HearEnd(c) && AllHeard(cfg, h, c)) then HaveStarted(cfg, before, c)
    else StartedThen(cfg, before, c)
  }

  /** What the history says of a consumer's main goroutine and supervisor. */
  datatype Course = Course(
    bound: bool, interrupted: bool, returned: bool, started: bool,
    sent: seq<nat>, heard: nat, slot: bool,
    seen: bool, quit: bool, polls: nat, wakes: nat, empty: bool, closed: bool)

  ghost function CourseOf(cfg: Config, h: History, c: nat): Course {
    Course(Bind(c) in h, InterruptMain(c) in h, Return(c) in h, StartedThen(cfg, h, c),
           Sent(h, c), Times(h, HearEnd(c)), Slot(h, c),
           SeeDone(c) in h, InterruptSupervisor(c) in h, Times(h, Poll(c)), Times(h, Wake(c)),
           FoundEmpty(h, c), CloseStop(c) in h)
  }

  predicate Complete(cfg: Config, f: Course) { 0 < cfg.nProducers == f.heard }

  predicate MainIs(cfg: Config, m: MainState, f: Course) {
    m == (if !f.bound then NotStarted
          else if f.returned then Returned(f.started)
          else if f.interrupted || Complete(cfg, f) then Waiting(f.started)
          else Counting)
  }

  predicate SupervisorIs(v: SupervisorState, f: Course) {
    v == (if f.closed then Over(f.empty)
          else if f.quit || f.empty then Stopping(f.empty)
          else if !f.seen then Selecting
          else if f.polls == f.wakes then Polling(Nap(f.polls))
          else Sleeping(Nap(f.polls)))
  }

  /** No course of a consumer contradicts itself. */
  predicate Sound(cfg: Config, f: Course) {
    && (!f.bound ==> !f.interrupted && !f.returned && f.heard == 0 && !f.seen && !f.quit)
    && (f.returned ==> f.interrupted || Complete(cfg, f))
    && (cfg.nProducers > 0 ==> f.heard <= cfg.nProducers)
    && (f.seen ==> Complete(cfg, f) && !f.quit)
    && (!f.seen ==> f.polls == 0 && !f.empty) && f.wakes <= f.polls <= f.wakes + 1
    && (f.empty ==> f.polls == f.wakes + 1)
    && (f.closed ==> f.quit || f.empty)
  }

  predicate ConsumerFits(cfg: Config, x: Consumer, f: Course) {
    && Sound(cfg, f)
    && x.heard + x.inbox == f.sent && |x.heard| == x.nDone == f.heard
    && x.doneCloses == AsNat(Complete(cfg, f)) && x.stopCloses == AsNat(f.closed) && x.signalled == f.slot
    && MainIs(cfg, x.main, f) && SupervisorIs(x.supervisor, f)
  }

  ghost predicate ConsumerIs(cfg: Config, h: History, c: nat, x: Consumer) {
    ConsumerFits(cfg, x, CourseOf(cfg, h, c))
  }

  function Tags(ds: seq<Delivery>, from: nat): (u: seq<Tagged>)
    requires from <= |ds|
    ensures |u| == |ds| - from
  {
    seq(|ds| - from, k requires 0 <= k < |ds| - from => Tagged(from + k, ds[from + k]))
  }

  function PhaseOf(h: History, w: nat): WorkerPhase {
    if FinishWorker(w) in h then Finished
    else if CloseChannel(w) in h then ChannelClosed
    else if Flush(w) in h then Flushed
    else if SeeStop(w) in h then Exiting
    else if StartWorker(w) in h then Running
    else Created
  }

  /** What the history says of a worker. */
  datatype Facts = Facts(arrived: seq<Delivery>, clocks: seq<int64>, acked: nat, written: nat,
                         phase: WorkerPhase, closed: bool)

  function FactsOf(h: History, w: nat): Facts {
    Facts(Arrived(h, w), Receipts(h, w), Times(h, Ack(w)), Written(h, w), PhaseOf(h, w), CloseChannel(w) in h)
  }

  /** On the channel, what was not acknowledged of what arrived, in the order of arrival. */
  ghost predicate ChannelIs(v: Worker, f: Facts) {
    && f.acked <= |f.clocks| <= f.acked + 1 && |f.clocks| <= |f.arrived| == v.nextTag
    && v.acked == f.arrived[..f.acked]
    && v.current == (if f.acked < |f.clocks| then Some(Tagged(f.acked, f.arrived[f.acked])) else None)
    && v.unacked == (if f.closed then [] else Tags(f.arrived, f.acked))
    && v.local == (if f.closed then [] else Tags(f.arrived, |f.clocks|))
  }

  /** The rows written, and how far their text has come. */
  ghost predicate LogIs(v: Worker, rows: seq<Row>, written: nat) {
    && v.rows == rows && written <= |RowsText(rows)|
    && v.file == RowsText(rows)[..written] && v.pending == RowsText(rows)[written..]
  }

  ghost predicate Fit(v: Worker, f: Facts) {
    && v.phase == f.phase && (f.closed <==> f.phase == ChannelClosed || f.phase == Finished)
    && ChannelIs(v, f) && LogIs(v, RowsOf(f.arrived, f.clocks), f.written)
  }

  /** The worker has handled its deliveries in the order of their arrival, with one row for each. */
  ghost predicate WorkerIs(cfg: Config, h: History, w: nat, v: Worker)
    requires IsWorker(cfg, w)
  {
    v.host == HostOf(cfg, w) && Fit(v, FactsOf(h, w))
  }
}
