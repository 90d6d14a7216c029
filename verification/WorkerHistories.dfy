/** Consumer workers hold what the history says: everything that arrived is handled in order, one row for each. */
module WorkerHistories {
  import opened Prelude
  import opened Text
  import opened Protocol
  import opened Invariants
  import opened Histories
  import opened PairHistories

  predicate PhaseAction(a: Action) {
    a.StartWorker? || a.SeeStop? || a.Flush? || a.CloseChannel? || a.FinishWorker?
  }

  predicate PhaseReady(phase: WorkerPhase, a: Action)
    requires PhaseAction(a)
  {
    match a
    case StartWorker(_) => phase == Created
    case SeeStop(_) => phase == Running
    case Flush(_) => phase == Exiting
    case CloseChannel(_) => phase == Flushed
    case FinishWorker(_) => phase == ChannelClosed
  }

  function NextPhase(phase: WorkerPhase, a: Action): WorkerPhase {
    match a
    case StartWorker(_) => Running
    case SeeStop(_) => Exiting
    case Flush(_) => Flushed
    case CloseChannel(_) => ChannelClosed
    case FinishWorker(_) => Finished
    case _ => phase
  }

  /** The facts after an action of the worker's. */
  function NextFacts(f: Facts, a: Action): Facts {
    Facts(if a.Deliver? then f.arrived + [a.d] else f.arrived,
          if a.Record? then f.clocks + [a.now] else f.clocks,
          if a.Ack? then f.acked + 1 else f.acked,
          if a.Spill? then f.written + a.n else if a.Flush? then TextLength(f.arrived, f.clocks) else f.written,
          NextPhase(f.phase, a), f.closed || a.CloseChannel?)
  }

  lemma MoreWorker(h: History, a: Action, w: nat)
    ensures Arrived(h + [a], w) == Arrived(h, w) + (if a.Deliver? && a.w == w then [a.d] else [])
    ensures Receipts(h + [a], w) == Receipts(h, w) + (if a.Record? && a.w == w then [a.now] else [])
    ensures Times(h + [a], Ack(w)) == Times(h, Ack(w)) + AsNat(a == Ack(w))
  {
    FlatMapNext(h, a, (b: Action) => if b.Deliver? && b.w == w then [b.d] else []);
    FlatMapNext(h, a, (b: Action) => if b.Record? && b.w == w then [b.now] else []);
    MoreTimes(h, a, Ack(w));
  }

  lemma MoreWritten(h: History, a: Action, w: nat)
    ensures Written(h + [a], w) ==
      if a.Spill? && a.w == w then Written(h, w) + a.n
      else if a == Flush(w) then TextLength(Arrived(h, w), Receipts(h, w))
      else Written(h, w)
  {
    assert (h + [a])[..|h|] == h;
  }

  lemma PhaseAfter(h: History, a: Action)
    requires OnWorker(a) && (PhaseAction(a) ==> PhaseReady(PhaseOf(h, a.w), a))
    ensures PhaseOf(h + [a], a.w) == NextPhase(PhaseOf(h, a.w), a)
  {
  }

  lemma FactsNext(h: History, a: Action)
    requires OnWorker(a) && (PhaseAction(a) ==> PhaseReady(PhaseOf(h, a.w), a))
    ensures FactsOf(h + [a], a.w) == NextFacts(FactsOf(h, a.w), a)
  {
    MoreWorker(h, a, a.w);
    MoreWritten(h, a, a.w);
    PhaseAfter(h, a);
  }

  lemma SamePhase(h: History, a: Action, w: nat)
    requires !(OnWorker(a) && a.w == w)
    ensures PhaseOf(h + [a], w) == PhaseOf(h, w) && (CloseChannel(w) in h + [a] <==> CloseChannel(w) in h)
  {
  }

  lemma SameFacts(h: History, a: Action, w: nat)
    requires !(OnWorker(a) && a.w == w)
    ensures FactsOf(h + [a], w) == FactsOf(h, w)
  {
    SamePhase(h, a, w);
    MoreWorker(h, a, w);
    MoreWritten(h, a, w);
  }

  lemma TagsNext(ds: seq<Delivery>, from: nat, d: Delivery)
    requires from <= |ds|
    ensures Tags(ds + [d], from) == Tags(ds, from) + [Tagged(|ds|, d)]
  {
  }

  lemma TagsFirst(ds: seq<Delivery>, from: nat)
    requires from < |ds|
    ensures Tags(ds, from) == [Tagged(from, ds[from])] + Tags(ds, from + 1)
  {
  }

  lemma FitsDelivery(v: Worker, f: Facts, a: Action)
    requires Fit(v, f) && a.Deliver? && !f.closed
    ensures Fit(Delivered(v, a.d), NextFacts(f, a))
  {
    TagsNext(f.arrived, f.acked, a.d);
    TagsNext(f.arrived, |f.clocks|, a.d);
    assert RowsOf(f.arrived + [a.d], f.clocks) == RowsOf(f.arrived, f.clocks);
  }

  lemma TextSplit(text: string, line: string, n: nat)
    requires n <= |text|
    ensures (text + line + "\n")[..n] == text[..n] && (text + line + "\n")[n..] == text[n..] + (line + "\n")
  {
  }

  lemma LogNext(v: Worker, rows: seq<Row>, written: nat, r: Row)
    requires LogIs(v, rows, written)
    ensures LogIs(v.(rows := v.rows + [r], pending := v.pending + (RowLine(r) + "\n")), rows + [r], written)
  {
    RowsTextAppend(rows, r);
    TextSplit(RowsText(rows), RowLine(r), written);
  }

  lemma RowsNext(arrived: seq<Delivery>, clocks: seq<int64>, now: int64)
    requires |clocks| < |arrived|
    ensures RowsOf(arrived, clocks + [now]) ==
            RowsOf(arrived, clocks) + [Row(HeaderStamp(arrived[|clocks|].header), now)]
  {
  }

  lemma ChannelRecord(v: Worker, f: Facts, now: int64)
    requires ChannelIs(v, f) && v.current.None? && v.local != []
    ensures |f.clocks| < |f.arrived| && v.local[0].delivery == f.arrived[|f.clocks|]
    ensures ChannelIs(Recorded(v, now), f.(clocks := f.clocks + [now]))
  {
    TagsFirst(f.arrived, |f.clocks|);
  }

  lemma FitsRecord(v: Worker, f: Facts, a: Action)
    requires Fit(v, f) && a.Record? && v.current.None? && v.local != []
    ensures Fit(Recorded(v, a.now), NextFacts(f, a))
  {
    ChannelRecord(v, f, a.now);
    RowsNext(f.arrived, f.clocks, a.now);
    LogNext(v, RowsOf(f.arrived, f.clocks), f.written, Row(HeaderStamp(v.local[0].delivery.header), a.now));
  }

  lemma ChannelOldest(v: Worker, f: Facts)
    requires ChannelIs(v, f) && v.current.Some? && v.unacked != []
    ensures ChannelIs(Oldest(v), f.(acked := f.acked + 1))
  {
    TagsFirst(f.arrived, f.acked);
  }

  lemma ChannelAck(v: Worker, f: Facts, multiple: bool)
    requires ChannelIs(v, f) && v.current.Some? && QueueInv(v)
    ensures ChannelIs(Acknowledged(v, multiple), f.(acked := f.acked + 1))
  {
    QueueAcknowledged(v, multiple);
    ChannelOldest(v, f);
  }

  lemma FitsAck(v: Worker, f: Facts, a: Action, multiple: bool)
    requires Fit(v, f) && a.Ack? && v.current.Some? && QueueInv(v)
    ensures Fit(Acknowledged(v, multiple), NextFacts(f, a))
  {
    ChannelAck(v, f, multiple);
  }

  lemma SpillSplit(text: string, m: nat, n: nat)
    requires m + n <= |text|
    ensures text[..m] + text[m..][..n] == text[..m + n] && text[m..][n..] == text[m + n..]
  {
  }

  lemma FitsSpill(v: Worker, f: Facts, a: Action)
    requires Fit(v, f) && a.Spill? && a.n <= |v.pending|
    ensures Fit(v.(file := v.file + v.pending[..a.n], pending := v.pending[a.n..]), NextFacts(f, a))
  {
    SpillSplit(RowsText(RowsOf(f.arrived, f.clocks)), f.written, a.n);
  }

  lemma FitsFlush(v: Worker, f: Facts, a: Action)
    requires Fit(v, f) && a.Flush? && v.phase == Exiting
    ensures Fit(v.(phase := Flushed, file := v.file + v.pending, pending := ""), NextFacts(f, a))
  {
    var text := RowsText(RowsOf(f.arrived, f.clocks));
    assert text[..f.written] + text[f.written..] == text && text[|text|..] == "";
  }

  lemma FitsClose(v: Worker, f: Facts, a: Action)
    requires Fit(v, f) && a.CloseChannel? && v.phase == Flushed
    ensures Fit(v.(phase := ChannelClosed, unacked := [], local := []), NextFacts(f, a))
  {
  }

  lemma FitsMove(v: Worker, f: Facts, a: Action)
    requires Fit(v, f) && (a.StartWorker? || a.SeeStop? || a.FinishWorker?) && PhaseReady(v.phase, a)
    ensures Fit(v.(phase := NextPhase(v.phase, a)), NextFacts(f, a))
  {
  }

  /** What holds of the worker as each kind of action leaves it holds after the step. */
  lemma Cases(fit: Worker -> bool, cfg: Config, v: Worker, a: Action)
    requires OnWorker(a) && (PhaseAction(a) ==> PhaseReady(v.phase, a))
    requires a.Record? ==> v.local != []
    requires a.Ack? ==> v.current.Some?
    requires a.Spill? ==> a.n <= |v.pending|
    requires a.Deliver? ==> fit(Delivered(v, a.d))
    requires a.Record? ==> fit(Recorded(v, a.now))
    requires a.Ack? ==> fit(Acknowledged(v, cfg.ackMultiple))
    requires a.Spill? ==> fit(v.(file := v.file + v.pending[..a.n], pending := v.pending[a.n..]))
    requires a.Flush? ==> fit(v.(phase := Flushed, file := v.file + v.pending, pending := ""))
    requires a.CloseChannel? ==> fit(v.(phase := ChannelClosed, unacked := [], local := []))
    requires a.StartWorker? || a.SeeStop? || a.FinishWorker? ==> fit(v.(phase := NextPhase(v.phase, a)))
    ensures fit(WorkerStep(cfg, v, a))
  {
  }

  lemma FitsPhase(cfg: Config, v: Worker, f: Facts, a: Action)
    requires Fit(v, f) && PhaseAction(a) && PhaseReady(v.phase, a)
    ensures Fit(WorkerStep(cfg, v, a), NextFacts(f, a))
  {
    if a.Flush? {
      FitsFlush(v, f, a);
    } else if a.CloseChannel? {
      FitsClose(v, f, a);
    } else {
      FitsMove(v, f, a);
    }
    Cases((x: Worker) => Fit(x, NextFacts(f, a)), cfg, v, a);
  }

  lemma FitsArrival(cfg: Config, s: State, f: Facts, a: Action)
    requires (a.Deliver? || a.Spill?) && WorkerEnabled(s, a) && Fit(s.workers[a.w], f)
    ensures Fit(WorkerStep(cfg, s.workers[a.w], a), NextFacts(f, a))
  {
    if a.Deliver? {
      FitsDelivery(s.workers[a.w], f, a);
    } else {
      FitsSpill(s.workers[a.w], f, a);
    }
    Cases((x: Worker) => Fit(x, NextFacts(f, a)), cfg, s.workers[a.w], a);
  }

  lemma FitsReceipt(cfg: Config, s: State, f: Facts, a: Action)
    requires a.Record? && WorkerEnabled(s, a) && Fit(s.workers[a.w], f)
    ensures Fit(WorkerStep(cfg, s.workers[a.w], a), NextFacts(f, a))
  {
    FitsRecord(s.workers[a.w], f, a);
    Cases((x: Worker) => Fit(x, NextFacts(f, a)), cfg, s.workers[a.w], a);
  }

  lemma FitsSettling(cfg: Config, s: State, f: Facts, a: Action)
    requires a.Ack? && WorkerEnabled(s, a) && Fit(s.workers[a.w], f) && QueueInv(s.workers[a.w])
    ensures Fit(WorkerStep(cfg, s.workers[a.w], a), NextFacts(f, a))
  {
    FitsAck(s.workers[a.w], f, a, cfg.ackMultiple);
    Cases((x: Worker) => Fit(x, NextFacts(f, a)), cfg, s.workers[a.w], a);
  }

  lemma PhaseIsReady(s: State, a: Action)
    requires PhaseAction(a) && WorkerEnabled(s, a)
    ensures PhaseReady(s.workers[a.w].phase, a)
  {
  }

  lemma OwnNext(cfg: Config, s: State, a: Action, f: Facts)
    requires OnWorker(a) && WorkerEnabled(s, a) && QueueInv(s.workers[a.w]) && Fit(s.workers[a.w], f)
    ensures Fit(WorkerStep(cfg, s.workers[a.w], a), NextFacts(f, a))
  {
    if PhaseAction(a) {
      PhaseIsReady(s, a);
      FitsPhase(cfg, s.workers[a.w], f, a);
    } else if a.Deliver? || a.Spill? {
      FitsArrival(cfg, s, f, a);
    } else if a.Record? {
      FitsReceipt(cfg, s, f, a);
    } else {
      FitsSettling(cfg, s, f, a);
    }
  }

  function FactsAfter(f: Facts, a: Action, w: nat): Facts {
    if OnWorker(a) && a.w == w then NextFacts(f, a) else f
  }

  lemma FactsFollow(cfg: Config, s: State, h: History, a: Action, w: nat)
    requires Enabled(cfg, s, a) && w < |s.workers| && s.workers[w].phase == PhaseOf(h, w)
    ensures FactsOf(h + [a], w) == FactsAfter(FactsOf(h, w), a, w)
  {
    if OnWorker(a) && a.w == w {
      if PhaseAction(a) {
        PhaseIsReady(s, a);
      }
      FactsNext(h, a);
    } else {
      SameFacts(h, a, w);
    }
  }

  /** A step of the worker's carries over whether it fits. */
  ghost predicate Carries(fit: (Worker, Facts) -> bool, cfg: Config, s: State, a: Action, f: Facts) {
    OnWorker(a) && WorkerEnabled(s, a) && QueueInv(s.workers[a.w]) && fit(s.workers[a.w], f) ==>
      fit(WorkerStep(cfg, s.workers[a.w], a), NextFacts(f, a))
  }

  lemma FitNext(fit: (Worker, Facts) -> bool, cfg: Config, s: State, a: Action, w: nat, f: Facts)
    requires Enabled(cfg, s, a) && w < |s.workers| && QueueInv(s.workers[w]) && fit(s.workers[w], f)
    requires Carries(fit, cfg, s, a, f)
    ensures w < |WorkersAfter(cfg, s, a)| && WorkersAfter(cfg, s, a)[w].host == s.workers[w].host
    ensures fit(WorkersAfter(cfg, s, a)[w], FactsAfter(f, a, w))
  {
    assert WorkersAfter(cfg, s, a) ==
      if OnWorker(a) then s.workers[a.w := WorkerStep(cfg, s.workers[a.w], a)] else s.workers;
  }

  lemma QueueOf(cfg: Config, acts: seq<Action>, w: nat)
    requires cfg.Valid() && Run(cfg, acts).Some? && w < |Run(cfg, acts).value.workers|
    ensures QueueInv(Run(cfg, acts).value.workers[w])
  {
    RunInv(cfg, acts);
  }

  lemma {:induction false} FactsHold(fit: (Worker, Facts) -> bool, cfg: Config, acts: seq<Action>, w: nat)
    requires cfg.Valid() && Run(cfg, acts).Some? && IsWorker(cfg, w)
    requires fit(Init(cfg).workers[w], FactsOf([], w))
    requires forall v, f :: fit(v, f) ==> v.phase == f.phase
    requires forall s, a, f :: Carries(fit, cfg, s, a, f)
    ensures w < |Run(cfg, acts).value.workers| && Run(cfg, acts).value.workers[w].host == HostOf(cfg, w)
    ensures fit(Run(cfg, acts).value.workers[w], FactsOf(acts, w))
  {
    if acts != [] {
      var h, a := acts[..|acts| - 1], acts[|acts| - 1];
      assert acts == h + [a];
      RunLast(cfg, Init(cfg), h, a);
      FactsHold(fit, cfg, h, w);
      QueueOf(cfg, h, w);
      FactsFollow(cfg, Run(cfg, h).value, h, a, w);
      FitNext(fit, cfg, Run(cfg, h).value, a, w, FactsOf(h, w));
    }
  }

  lemma FirstWorker(cfg: Config, w: nat)
    requires cfg.Valid() && IsWorker(cfg, w)
    ensures w < |Init(cfg).workers| && Fit(Init(cfg).workers[w], FactsOf([], w))
  {
    assert RowsText([]) == "";
  }

  lemma WorkerHistory(cfg: Config, acts: seq<Action>, w: nat)
    requires cfg.Valid() && Run(cfg, acts).Some? && IsWorker(cfg, w)
    ensures w < |Run(cfg, acts).value.workers| && WorkerIs(cfg, acts, w, Run(cfg, acts).value.workers[w])
  {
    var fit := (v: Worker, f: Facts) => Fit(v, f);
    FirstWorker(cfg, w);
    forall s, a, f
      ensures Carries(fit, cfg, s, a, f)
    {
      if OnWorker(a) && WorkerEnabled(s, a) && QueueInv(s.workers[a.w]) && Fit(s.workers[a.w], f) {
        OwnNext(cfg, s, a, f);
      }
    }
    FactsHold(fit, cfg, acts, w);
  }

  lemma PairCount(cfg: Config, acts: seq<Action>)
    requires cfg.Valid() && Run(cfg, acts).Some?
    ensures forall i: nat :: i < |Run(cfg, acts).value.pairs| <==> IsGenerator(cfg, i)
    ensures forall w: nat :: w < |Run(cfg, acts).value.workers| <==> IsWorker(cfg, w)
  {
    Sizes(cfg, acts);
  }

  lemma {:induction false} Sizes(cfg: Config, acts: seq<Action>)
    requires cfg.Valid() && Run(cfg, acts).Some?
    ensures var s := Run(cfg, acts).value;
      && |s.pairs| == |cfg.sources| && |s.workers| == |Blocks(cfg.consumers, cfg.workersEach)|
      && |s.producers| == cfg.producers && |s.consumers| == cfg.consumers
  {
    if acts != [] {
      var h, a := acts[..|acts| - 1], acts[|acts| - 1];
      assert acts == h + [a];
      RunLast(cfg, Init(cfg), h, a);
      Sizes(cfg, h);
      StepOwners(cfg, Run(cfg, h).value, a);
      StepHosts(cfg, Run(cfg, h).value, a);
    }
  }

  /** A worker's life goes on step by step. */
  ghost predicate InOrder(h: History, w: nat) {
    && (FinishWorker(w) in h ==> CloseChannel(w) in h) && (CloseChannel(w) in h ==> Flush(w) in h)
    && (Flush(w) in h ==> SeeStop(w) in h) && (SeeStop(w) in h ==> StartWorker(w) in h)
  }

  lemma OrderNext(h: History, a: Action, w: nat)
    requires InOrder(h, w) && (PhaseAction(a) && a.w == w ==> PhaseReady(PhaseOf(h, w), a))
    ensures InOrder(h + [a], w)
  {
  }

  lemma {:induction false} Order(cfg: Config, acts: seq<Action>, w: nat)
    requires cfg.Valid() && Run(cfg, acts).Some? && IsWorker(cfg, w)
    ensures InOrder(acts, w)
  {
    if acts != [] {
      var h, a := acts[..|acts| - 1], acts[|acts| - 1];
      assert acts == h + [a];
      RunLast(cfg, Init(cfg), h, a);
      Order(cfg, h, w);
      PhaseHistory(cfg, h, w);
      if PhaseAction(a) && a.w == w {
        PhaseIsReady(Run(cfg, h).value, a);
      }
      OrderNext(h, a, w);
    }
  }

  lemma PhaseHistory(cfg: Config, acts: seq<Action>, w: nat)
    requires cfg.Valid() && Run(cfg, acts).Some? && IsWorker(cfg, w)
    ensures w < |Run(cfg, acts).value.workers|
    ensures var v := Run(cfg, acts).value.workers[w]; v.host == HostOf(cfg, w) && v.phase == PhaseOf(acts, w)
  {
    WorkerHistory(cfg, acts, w);
  }

  /** A worker is waited for from its start to its end. */
  lemma ActivePhase(h: History, w: nat)
    requires InOrder(h, w)
    ensures PhaseOf(h, w) != Created <==> StartWorker(w) in h
    ensures PhaseOf(h, w) == Finished <==> FinishWorker(w) in h
  {
  }

  lemma StartedIs(cfg: Config, acts: seq<Action>, c: nat)
    requires cfg.Valid() && Run(cfg, acts).Some?
    ensures AllStarted(Run(cfg, acts).value.workers, c) <==> HaveStarted(cfg, acts, c)
  {
    PairCount(cfg, acts);
    forall w: nat | IsWorker(cfg, w)
      ensures w < |Run(cfg, acts).value.workers| && Run(cfg, acts).value.workers[w].host == HostOf(cfg, w)
      ensures Run(cfg, acts).value.workers[w].phase != Created <==> StartWorker(w) in acts
    {
      PhaseHistory(cfg, acts, w);
      Order(cfg, acts, w);
      ActivePhase(acts, w);
    }
  }
}
