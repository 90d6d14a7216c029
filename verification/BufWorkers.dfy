/**
 * The consumer's worker goroutine as the loop that it is. What its select receives, and what happens on its channel
 * in between, is a script; playing a script is the same as taking the corresponding steps of the protocol.
 */
module BufWorkers {
  import opened Prelude
  import opened Text
  import opened Protocol
  import opened Invariants

  /** The broker pushes a delivery; the select receives one at some time; the buffered writer moves text to the file. */
  datatype Turn = Arrives(d: Delivery) | Receives(now: int64) | Drains(n: nat)

  function Actions(i: nat, t: Turn): seq<Action> {
    match t
    case Arrives(d) => [Deliver(i, d)]
    case Receives(now) => [Record(i, now), Ack(i)]
    case Drains(n) => [Spill(i, n)]
  }

  function Script(i: nat, turns: seq<Turn>): seq<Action> {
    if turns == [] then [] else Script(i, turns[..|turns| - 1]) + Actions(i, turns[|turns| - 1])
  }

  /** None for a turn that cannot happen: receiving from an empty channel, or moving more text than there is. */
  function PlayOne(w: Worker, multiple: bool, t: Turn): Option<Worker> {
    match t
    case Arrives(d) => Some(Delivered(w, d))
    case Receives(now) =>
      if w.local == [] then None else Some(Acknowledged(Recorded(w, now), multiple))
    case Drains(n) =>
      if n > |w.pending| then None else Some(w.(file := w.file + w.pending[..n], pending := w.pending[n..]))
  }

  function Play(w: Worker, multiple: bool, turns: seq<Turn>): Option<Worker> {
    if turns == [] then Some(w)
    else
      match Play(w, multiple, turns[..|turns| - 1])
      case None => None
      case Some(x) => PlayOne(x, multiple, turns[|turns| - 1])
  }

  lemma {:induction false} PlayPrefix(w: Worker, multiple: bool, turns: seq<Turn>, i: nat)
    requires i <= |turns| && Play(w, multiple, turns).Some?
    ensures Play(w, multiple, turns[..i]).Some?
    ensures i < |turns| ==>
      Play(w, multiple, turns[..i + 1]) == PlayOne(Play(w, multiple, turns[..i]).value, multiple, turns[i])
  {
    var n := |turns| - 1;
    if i <= n {
      assert turns[..n][..i] == turns[..i];
      if i < n {
        PlayPrefix(w, multiple, turns[..n], i);
        assert turns[..n][..i + 1] == turns[..i + 1];
      } else {
        assert turns[..i + 1] == turns;
      }
    } else {
      assert turns[..i] == turns;
    }
  }

  class BufWorker {
    const host: nat
    const ackMultiple: bool
    var phase: WorkerPhase
    // the channel, as the broker sees it, and its deliveries not yet received
    var nextTag: nat
    var unacked: seq<Tagged>
    var local: seq<Tagged>
    var acked: seq<Delivery>
    // the rows written, and where their text is
    var rows: seq<Row>
    var file: string
    var pending: string

    constructor (host: nat, ackMultiple: bool)
      ensures this.host == host && this.ackMultiple == ackMultiple
      ensures Value() == Worker(host, Created, 0, [], [], None, [], [], "", "")
    {
      this.host := host;
      this.ackMultiple := ackMultiple;
      phase, nextTag, unacked, local, acked := Created, 0, [], [], [];
      rows, file, pending := [], "", "";
    }

    /** Between two turns no delivery is being handled. */
    function Value(): Worker
      reads this
    {
      Worker(host, phase, nextTag, unacked, local, None, acked, rows, file, pending)
    }

    /** On a channel handled in order, the acknowledgement settles the oldest delivery alone, with `multiple` or not. */
    method AckDelivery(tag: nat)
      requires SortedTags(unacked, nextTag) && unacked != [] && tag == unacked[0].tag
      modifies this`unacked, this`acked
      ensures unacked == old(unacked)[1..]
      ensures acked == old(acked) + [old(unacked)[0].delivery]
    {
      SettleOldest(unacked, nextTag, ackMultiple);
      acked := acked + Settled(unacked, tag, ackMultiple);
      unacked := Unsettled(unacked, tag, ackMultiple);
    }

    /** What the select does with one delivery: timestamp, row, acknowledgement. */
    method Receive(now: int64)
      requires phase == Running && QueueInv(Value()) && local != []
      modifies this`unacked, this`local, this`acked, this`rows, this`pending
      ensures QueueInv(Value()) && Some(Value()) == PlayOne(old(Value()), ackMultiple, Receives(now))
    {
      ReceiptIs(Value(), ackMultiple, now);
      var msg := local[0];
      assert msg == unacked[0];
      local := local[1..];
      var t: int64 := HeaderStamp(msg.delivery.header);
      rows := rows + [Row(t, now)];
      pending := pending + (RowLine(Row(t, now)) + "\n");
      AckDelivery(msg.tag);
    }

    method TakeTurn(turn: Turn)
      requires phase == Running && QueueInv(Value()) && PlayOne(Value(), ackMultiple, turn).Some?
      modifies this`nextTag, this`unacked, this`local, this`acked, this`rows, this`file, this`pending
      ensures QueueInv(Value()) && Some(Value()) == PlayOne(old(Value()), ackMultiple, turn)
    {
      match turn {
        case Arrives(d) =>
          QueueDelivered(Value(), d);
          unacked := unacked + [Tagged(nextTag, d)];
          local := local + [Tagged(nextTag, d)];
          nextTag := nextTag + 1;
        case Receives(now) =>
          Receive(now);
        case Drains(n) =>
          file := file + pending[..n];
          pending := pending[n..];
      }
    }

    method ListenAndStore(turns: seq<Turn>)
      requires phase == Running && QueueInv(Value()) && Play(Value(), ackMultiple, turns).Some?
      modifies this`nextTag, this`unacked, this`local, this`acked, this`rows, this`file, this`pending
      ensures Some(Value()) == Play(old(Value()), ackMultiple, turns)
    {
      ghost var w0 := Value();
      for i := 0 to |turns|
        invariant phase == Running && QueueInv(Value()) && Play(w0, ackMultiple, turns[..i]) == Some(Value())
      {
        PlayPrefix(w0, ackMultiple, turns, i);
        PlayPrefix(w0, ackMultiple, turns, i + 1);
        TakeTurn(turns[i]);
      }
      assert turns[..|turns|] == turns;
    }

    /** Consume, listen until `stop` closes, and then what was deferred: flush the writer, close the channel. */
    method Start(turns: seq<Turn>)
      requires Value() == Worker(host, Created, 0, [], [], None, [], [], "", "")
      requires Play(Value().(phase := Running), ackMultiple, turns).Some?
      modifies this
      ensures file == RowsText(rows) && pending == "" && phase == ChannelClosed
      ensures |Clocks(turns)| <= |Arrivals(turns)| && acked == Arrivals(turns)[..|Clocks(turns)|]
      ensures rows == RowsFor(acked, Clocks(turns))
    {
      phase := Running;
      ghost var w := Value();
      ListenAndStore(turns);
      LeavesLog(w, ackMultiple, turns);
      Leave();
    }

    /** What was deferred: the writer is flushed and the channel closed. */
    method Leave()
      modifies this`phase, this`file, this`pending, this`unacked, this`local
      ensures file == old(file) + old(pending) && pending == "" && phase == ChannelClosed && unacked == local == []
    {
      phase := Exiting;
      file, pending := file + pending, "";
      phase := Flushed;
      unacked, local := [], [];
      phase := ChannelClosed;
    }
  }

  // ----- What a script leaves -----

  function Arrivals(turns: seq<Turn>): seq<Delivery> {
    if turns == [] then []
    else
      var t := turns[|turns| - 1];
      Arrivals(turns[..|turns| - 1]) + if t.Arrives? then [t.d] else []
  }

  function Clocks(turns: seq<Turn>): seq<int64> {
    if turns == [] then []
    else
      var t := turns[|turns| - 1];
      Clocks(turns[..|turns| - 1]) + if t.Receives? then [t.now] else []
  }

  function RowsFor(ds: seq<Delivery>, clocks: seq<int64>): (rows: seq<Row>)
    requires |ds| == |clocks|
    ensures |rows| == |ds|
  {
    seq(|ds|, i requires 0 <= i < |ds| => Row(HeaderStamp(ds[i].header), clocks[i]))
  }

  function Deliveries(u: seq<Tagged>): (ds: seq<Delivery>)
    ensures |ds| == |u|
  {
    seq(|u|, i requires 0 <= i < |u| => u[i].delivery)
  }

  /** A worker that has acknowledged the oldest of what arrived, with a row for each. */
  ghost predicate HasHandled(w: Worker, arrived: seq<Delivery>, clocks: seq<int64>) {
    && w.phase == Running && QueueInv(w) && w.current.None?
    && Handled(w.acked, w.local, w.rows, arrived, clocks)
    && w.file + w.pending == RowsText(w.rows)
  }

  ghost predicate Handled(acked: seq<Delivery>, local: seq<Tagged>, rows: seq<Row>,
                          arrived: seq<Delivery>, clocks: seq<int64>)
  {
    && |clocks| <= |arrived|
    && acked == arrived[..|clocks|] && Deliveries(local) == arrived[|clocks|..]
    && rows == RowsFor(acked, clocks)
  }

  lemma HandlesArrival(w: Worker, d: Delivery, arrived: seq<Delivery>, clocks: seq<int64>)
    requires HasHandled(w, arrived, clocks)
    ensures HasHandled(Delivered(w, d), arrived + [d], clocks)
  {
    QueueDelivered(w, d);
    HandledArrival(w.acked, w.local, w.rows, arrived, clocks, Tagged(w.nextTag, d));
  }

  lemma HandledArrival(acked: seq<Delivery>, local: seq<Tagged>, rows: seq<Row>, arrived: seq<Delivery>,
                       clocks: seq<int64>, t: Tagged)
    requires Handled(acked, local, rows, arrived, clocks)
    ensures Handled(acked, local + [t], rows, arrived + [t.delivery], clocks)
  {
    assert Deliveries(local + [t]) == Deliveries(local) + [t.delivery];
    assert (arrived + [t.delivery])[..|clocks|] == arrived[..|clocks|];
    assert (arrived + [t.delivery])[|clocks|..] == arrived[|clocks|..] + [t.delivery];
  }

  lemma HandledOneMore(acked: seq<Delivery>, local: seq<Tagged>, rows: seq<Row>, arrived: seq<Delivery>,
                       clocks: seq<int64>, now: int64)
    requires Handled(acked, local, rows, arrived, clocks) && local != []
    ensures var d := local[0].delivery;
      Handled(acked + [d], local[1..], rows + [Row(HeaderStamp(d.header), now)], arrived, clocks + [now])
  {
    var d := local[0].delivery;
    assert Deliveries(local)[0] == d == arrived[|clocks|];
    assert Deliveries(local[1..]) == Deliveries(local)[1..];
    assert arrived[..|clocks| + 1] == arrived[..|clocks|] + [d];
    assert RowsFor(acked + [d], clocks + [now]) == RowsFor(acked, clocks) + [Row(HeaderStamp(d.header), now)];
  }

  function Received(w: Worker, now: int64): Worker
    requires w.local != [] && w.unacked != []
  {
    var d := w.local[0].delivery;
    var r := Row(HeaderStamp(d.header), now);
    w.(local := w.local[1..], unacked := w.unacked[1..], acked := w.acked + [d], rows := w.rows + [r],
       pending := w.pending + (RowLine(r) + "\n"))
  }

  lemma ReceiptIs(w: Worker, multiple: bool, now: int64)
    requires QueueInv(w) && w.phase == Running && w.current.None? && w.local != []
    ensures w.unacked != [] && Acknowledged(Recorded(w, now), multiple) == Received(w, now)
    ensures QueueInv(Received(w, now))
  {
    var x := Recorded(w, now);
    QueueRecorded(w, now);
    QueueAcknowledged(x, multiple);
    OldestQueue(x);
  }

  lemma HandlesReceipt(w: Worker, multiple: bool, now: int64, arrived: seq<Delivery>, clocks: seq<int64>)
    requires HasHandled(w, arrived, clocks) && w.local != []
    ensures HasHandled(Acknowledged(Recorded(w, now), multiple), arrived, clocks + [now])
  {
    ReceiptIs(w, multiple, now);
    HandledOneMore(w.acked, w.local, w.rows, arrived, clocks, now);
    RecordText(w.file, w.pending, w.rows, Row(HeaderStamp(w.local[0].delivery.header), now));
  }

  lemma HandlesDrain(w: Worker, n: nat, arrived: seq<Delivery>, clocks: seq<int64>)
    requires HasHandled(w, arrived, clocks) && n <= |w.pending|
    ensures HasHandled(w.(file := w.file + w.pending[..n], pending := w.pending[n..]), arrived, clocks)
  {
    assert (w.file + w.pending[..n]) + w.pending[n..] == w.file + w.pending;
  }

  lemma HandlesTurn(w: Worker, multiple: bool, t: Turn, arrived: seq<Delivery>, clocks: seq<int64>)
    requires HasHandled(w, arrived, clocks) && PlayOne(w, multiple, t).Some?
    ensures HasHandled(PlayOne(w, multiple, t).value,
                       arrived + if t.Arrives? then [t.d] else [], clocks + if t.Receives? then [t.now] else [])
  {
    assert arrived + [] == arrived && clocks + [] == clocks;
    match t
    case Arrives(d) => HandlesArrival(w, d, arrived, clocks);
    case Receives(now) => HandlesReceipt(w, multiple, now, arrived, clocks);
    case Drains(n) => HandlesDrain(w, n, arrived, clocks);
  }

  /**
   * Whatever the interleaving, and for both settings of AckMultiple: the deliveries acknowledged are the oldest ones
   * that arrived, in order, each with a row of its own that holds the parsed header, and the text of all rows is in
   * the file or still in the buffer.
   */
  lemma {:induction false} PlayedLog(w: Worker, multiple: bool, turns: seq<Turn>)
    requires w.phase == Running && w.unacked == w.local == [] && w.current.None? && w.acked == [] && w.rows == []
    requires w.file == w.pending == "" && Play(w, multiple, turns).Some?
    ensures HasHandled(Play(w, multiple, turns).value, Arrivals(turns), Clocks(turns))
  {
    if turns == [] {
      assert RowsText([]) == "";
    } else {
      var before, t := turns[..|turns| - 1], turns[|turns| - 1];
      PlayedLog(w, multiple, before);
      HandlesTurn(Play(w, multiple, before).value, multiple, t, Arrivals(before), Clocks(before));
    }
  }

  lemma LeavesLog(w: Worker, multiple: bool, turns: seq<Turn>)
    requires w.phase == Running && w.unacked == w.local == [] && w.current.None? && w.acked == [] && w.rows == []
    requires w.file == w.pending == "" && Play(w, multiple, turns).Some?
    ensures |Clocks(turns)| <= |Arrivals(turns)|
    ensures var v := Play(w, multiple, turns).value;
      && v.acked == Arrivals(turns)[..|Clocks(turns)|] && v.rows == RowsFor(v.acked, Clocks(turns))
      && v.file + v.pending == RowsText(v.rows)
  {
    PlayedLog(w, multiple, turns);
  }

  // ----- The script as a run of the protocol -----

  /** A state in which worker `i` has become `w` and `taken` has left the queue. */
  function With(s: State, i: nat, w: Worker, taken: seq<Delivery>): State
    requires i < |s.workers|
  {
    s.(workers := s.workers[i := w], ready := s.ready - multiset(taken))
  }

  predicate Listening(s: State, i: nat) {
    && i < |s.workers| && s.workers[i].phase == Running && s.workers[i].current.None?
    && s.workers[i].host < |s.consumers|
  }

  lemma WorkerActionIs(cfg: Config, x: State, i: nat, a: Action)
    requires Listening(x, i) && OnWorker(a) && a.w == i && WorkerEnabled(x, a)
    requires a.Deliver? || a.Record? || a.Ack? || a.Spill?
    ensures Enabled(cfg, x, a)
    ensures Step(cfg, x, a) == With(x, i, WorkerStep(cfg, x.workers[i], a), if a.Deliver? then [a.d] else [])
  {
    var w := WorkerStep(cfg, x.workers[i], a);
    assert x.ready - multiset([]) == x.ready;
    assert WorkersAfter(cfg, x, a) == x.workers[i := w];
    assert PairsAfter(cfg, x, a) == x.pairs && ProducersAfter(cfg, x, a) == x.producers;
    assert ConsumersAfter(cfg, x, a) == x.consumers;
    assert ReadyAfter(cfg, x, a) == x.ready - multiset(if a.Deliver? then [a.d] else []);
  }

  lemma ReceiptIsRun(cfg: Config, s: State, acts: seq<Action>, x: State, i: nat, now: int64)
    requires RunFrom(cfg, s, acts) == Some(x) && Listening(x, i) && x.workers[i].local != []
    ensures RunFrom(cfg, s, acts + [Record(i, now), Ack(i)]) ==
            Some(With(x, i, Acknowledged(Recorded(x.workers[i], now), cfg.ackMultiple), []))
  {
    WorkerActionIs(cfg, x, i, Record(i, now));
    var mid := With(x, i, Recorded(x.workers[i], now), []);
    Extend(cfg, s, acts, Record(i, now));
    AckIs(cfg, x, mid, i, now);
    Extend(cfg, s, acts + [Record(i, now)], Ack(i));
    assert acts + [Record(i, now), Ack(i)] == (acts + [Record(i, now)]) + [Ack(i)];
  }

  lemma AckIs(cfg: Config, x: State, mid: State, i: nat, now: int64)
    requires Listening(x, i) && x.workers[i].local != [] && mid == With(x, i, Recorded(x.workers[i], now), [])
    ensures Enabled(cfg, mid, Ack(i))
    ensures Step(cfg, mid, Ack(i)) == With(x, i, Acknowledged(Recorded(x.workers[i], now), cfg.ackMultiple), [])
  {
    assert mid.ready == x.ready;
  }

  lemma TurnIsRun(cfg: Config, s: State, acts: seq<Action>, x: State, i: nat, t: Turn)
    requires RunFrom(cfg, s, acts) == Some(x) && Listening(x, i)
    requires (t.Arrives? ==> t.d in x.ready) && PlayOne(x.workers[i], cfg.ackMultiple, t).Some?
    ensures RunFrom(cfg, s, acts + Actions(i, t)) ==
            Some(With(x, i, PlayOne(x.workers[i], cfg.ackMultiple, t).value, if t.Arrives? then [t.d] else []))
  {
    if t.Receives? {
      ReceiptIsRun(cfg, s, acts, x, i, t.now);
    } else {
      var a := Actions(i, t)[0];
      WorkerActionIs(cfg, x, i, a);
      Extend(cfg, s, acts, a);
    }
  }

  lemma {:induction false} KeepsListening(w: Worker, multiple: bool, turns: seq<Turn>)
    requires w.phase == Running && w.current.None? && Play(w, multiple, turns).Some?
    ensures var x := Play(w, multiple, turns).value; x.phase == Running && x.current.None? && x.host == w.host
  {
    if turns != [] {
      KeepsListening(w, multiple, turns[..|turns| - 1]);
    }
  }

  lemma Together(s: State, i: nat, w: Worker, x: Worker, some: seq<Delivery>, more: seq<Delivery>)
    requires i < |s.workers| && multiset(some + more) <= s.ready
    ensures With(With(s, i, w, some), i, x, more) == With(s, i, x, some + more)
    ensures multiset(more) <= With(s, i, w, some).ready
  {
    assert multiset(some + more) == multiset(some) + multiset(more);
  }

  /** Playing a script is a run of the protocol in which nothing else happens. */
  lemma {:induction false} ScriptIsRun(cfg: Config, s: State, i: nat, turns: seq<Turn>)
    requires Listening(s, i) && multiset(Arrivals(turns)) <= s.ready
    requires Play(s.workers[i], cfg.ackMultiple, turns).Some?
    ensures RunFrom(cfg, s, Script(i, turns)) ==
            Some(With(s, i, Play(s.workers[i], cfg.ackMultiple, turns).value, Arrivals(turns)))
  {
    if turns == [] {
      assert s.workers[i := s.workers[i]] == s.workers && s.ready - multiset([]) == s.ready;
    } else {
      var before, t := turns[..|turns| - 1], turns[|turns| - 1];
      var more := if t.Arrives? then [t.d] else [];
      var w := Play(s.workers[i], cfg.ackMultiple, before).value;
      Together(s, i, w, Play(s.workers[i], cfg.ackMultiple, turns).value, Arrivals(before), more);
      FewerArrivals(turns, s.ready);
      ScriptIsRun(cfg, s, i, before);
      KeepsListening(s.workers[i], cfg.ackMultiple, before);
      TurnIsRun(cfg, s, Script(i, before), With(s, i, w, Arrivals(before)), i, t);
    }
  }

  lemma FewerArrivals(turns: seq<Turn>, ready: multiset<Delivery>)
    requires turns != [] && multiset(Arrivals(turns)) <= ready
    ensures multiset(Arrivals(turns[..|turns| - 1])) <= ready
  {
  }
}
