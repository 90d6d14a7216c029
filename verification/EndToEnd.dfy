/** From the messages on the wire to the lines of the output file. */
module EndToEnd {
  import opened Prelude
  import opened Text
  import opened FileSystem
  import opened Merging
  import opened Sessions
  import opened Protocol
  import Columns
  import Conservation
  import ExperimentId
  import Histories
  import PairHistories
  import Shutdown
  import WorkerHistories

  // ----- The workers of one consumer -----

  function WorkersOf(workers: seq<Worker>, c: nat): (r: seq<Worker>)
    ensures forall w :: w in r <==> w in workers && w.host == c
  {
    if workers == [] then []
    else
      var n := |workers| - 1;
      WorkersOf(workers[..n], c) + if workers[n].host == c then [workers[n]] else []
  }

  function FilesOf(workers: seq<Worker>): (r: seq<string>)
    ensures |r| == |workers| && forall i :: 0 <= i < |r| ==> r[i] == workers[i].file
  {
    seq(|workers|, i requires 0 <= i < |workers| => workers[i].file)
  }

  // ----- Reading the merged lines -----

  lemma {:induction false} FlatMapAppend<T, U>(a: seq<T>, b: seq<T>, f: T -> seq<U>)
    ensures FlatMap(a + b, f) == FlatMap(a, f) + FlatMap(b, f)
  {
    if b == [] {
      assert a + b == a;
    } else {
      var n := |b| - 1;
      FlatMapAppend(a, b[..n], f);
      assert (a + b)[..|a + b| - 1] == a + b[..n];
    }
  }

  lemma {:induction false} FlatMapInverse<T, U>(s: seq<T>, f: T -> seq<U>, us: seq<U>)
    requires |s| == |us| && forall i :: 0 <= i < |s| ==> f(s[i]) == [us[i]]
    ensures FlatMap(s, f) == us
  {
    if s != [] {
      var n := |s| - 1;
      assert forall i :: 0 <= i < n ==> f(s[..n][i]) == f(s[i]) == [us[..n][i]];
      FlatMapInverse(s[..n], f, us[..n]);
    }
  }

  function ParseLine(line: string): seq<Row> { OptSeq(ParseRow(line)) }

  function ParseAll(lines: seq<string>): seq<Row> { FlatMap(lines, ParseLine) }

  lemma ParseAllRows(rows: seq<Row>)
    ensures ParseAll(RowLines(rows)) == rows
  {
    forall i | 0 <= i < |rows|
      ensures ParseLine(RowLines(rows)[i]) == [rows[i]]
    {
      ParseRowLine(rows[i]);
    }
    FlatMapInverse(RowLines(rows), ParseLine, rows);
  }

  /** The rows one directory entry contributes to the merge. */
  ghost function EntryRows(env: Env, n: nat, texts: seq<string>): Entry -> multiset<Row> {
    (e: Entry) => multiset(ParseAll(OwnLines(env, n, texts, e)))
  }

  lemma {:induction false} MergedRows(env: Env, n: nat, texts: seq<string>, entries: seq<Entry>)
    ensures multiset(ParseAll(AllOwnLines(env, n, texts, entries))) == Bag(entries, EntryRows(env, n, texts))
  {
    if entries != [] {
      var k := |entries| - 1;
      MergedRows(env, n, texts, entries[..k]);
      FlatMapAppend(AllOwnLines(env, n, texts, entries[..k]), OwnLines(env, n, texts, entries[k]), ParseLine);
    }
  }

  ghost function RowsBag(w: Worker): multiset<Row> { multiset(w.rows) }

  /** The files are those of the given workers, each with exactly its worker's rows. */
  ghost predicate Persisted(workers: seq<Worker>, texts: seq<string>) {
    && |texts| == |workers|
    && forall i :: 0 <= i < |texts| ==> texts[i] == RowsText(workers[i].rows)
  }

  function WorkerEntry(env: Env, n: nat, i: nat): Entry { Entry(WorkerPath(env, n, i).name, false) }

  lemma WorkerLines(env: Env, n: nat, workers: seq<Worker>, texts: seq<string>, i: nat)
    requires Persisted(workers, texts) && i < |texts|
    ensures OwnLines(env, n, texts, WorkerEntry(env, n, i)) == RowLines(workers[i].rows)
    ensures EntryRows(env, n, texts)(WorkerEntry(env, n, i)) == RowsBag(workers[i])
  {
    var p := WorkerPath(env, n, i);
    assert WrittenBy(env, n, texts, p, i);
    forall j: nat | WrittenBy(env, n, texts, p, j)
      ensures j == i
    {
      WorkerInjective(env, n, j, i);
    }
    RowsSurvive(workers[i].rows);
    ParseAllRows(workers[i].rows);
  }

  lemma RowsSurvive(rows: seq<Row>)
    ensures Kept(Scan(RowsText(rows))) == RowLines(rows)
  {
    var disk := Disk(map[Path("d", "f") := RowsText(rows)], {});
    LinesOfRows(disk, "d", "f", rows);
  }

  function WorkerEntries(env: Env, n: nat, k: nat): (r: seq<Entry>)
    ensures |r| == k && forall i :: 0 <= i < k ==> r[i] == WorkerEntry(env, n, i)
  {
    if k == 0 then [] else WorkerEntries(env, n, k - 1) + [WorkerEntry(env, n, k - 1)]
  }

  lemma WorkerEntriesDistinct(env: Env, n: nat, k: nat)
    ensures NoDup(WorkerEntries(env, n, k))
  {
    var es := WorkerEntries(env, n, k);
    forall i, j | 0 <= i < j < k
      ensures es[i] != es[j]
    {
      if WorkerEntry(env, n, i) == WorkerEntry(env, n, j) {
        WorkerInjective(env, n, i, j);
      }
    }
  }

  lemma WorkerEntriesRows(env: Env, n: nat, workers: seq<Worker>, texts: seq<string>)
    requires Persisted(workers, texts)
    ensures Bag(WorkerEntries(env, n, |texts|), EntryRows(env, n, texts)) == Bag(workers, RowsBag)
  {
    var own := WorkerEntries(env, n, |texts|);
    forall i | 0 <= i < |own|
      ensures EntryRows(env, n, texts)(own[i]) == RowsBag(workers[i])
    {
      WorkerLines(env, n, workers, texts, i);
    }
    BagMap(own, EntryRows(env, n, texts), workers, RowsBag);
  }

  /** In whatever order the directory is listed, the merged rows are the workers' rows, each once. */
  lemma AnyListing(env: Env, n: nat, workers: seq<Worker>, texts: seq<string>, entries: seq<Entry>)
    requires Persisted(workers, texts) && NoDup(entries)
    requires forall i: nat :: i < |texts| ==> WorkerEntry(env, n, i) in entries
    ensures multiset(ParseAll(AllOwnLines(env, n, texts, entries))) == Bag(workers, RowsBag)
  {
    var own := WorkerEntries(env, n, |texts|);
    MergedRows(env, n, texts, entries);
    WorkerEntriesDistinct(env, n, |texts|);
    forall e | e in entries && e !in own
      ensures EntryRows(env, n, texts)(e) == multiset{}
    {
      NotOwn(env, n, texts, e);
    }
    BagSupport(entries, own, EntryRows(env, n, texts));
    WorkerEntriesRows(env, n, workers, texts);
  }

  lemma NotOwn(env: Env, n: nat, texts: seq<string>, e: Entry)
    requires e !in WorkerEntries(env, n, |texts|)
    ensures OwnLines(env, n, texts, e) == []
  {
    var own := WorkerEntries(env, n, |texts|);
    if !e.isDir {
      forall i: nat
        ensures !WrittenBy(env, n, texts, Path(env.dataDir, e.name), i)
      {
        assert i < |texts| ==> own[i] in own && own[i] == WorkerEntry(env, n, i);
      }
    }
  }

  lemma Regroup(a: seq<string>, block: seq<string>, b: seq<string>, more: seq<string>)
    ensures (a + block + b) + more == a + block + (b + more)
  {
  }

  lemma {:induction false} BlockInOrder(env: Env, n: nat, texts: seq<string>, entries: seq<Entry>,
                                        e: Entry, block: seq<string>)
    returns (a: seq<string>, b: seq<string>)
    requires e in entries && OwnLines(env, n, texts, e) == block
    ensures AllOwnLines(env, n, texts, entries) == a + block + b
  {
    var k := |entries| - 1;
    if entries[k] == e {
      a, b := AllOwnLines(env, n, texts, entries[..k]), [];
    } else {
      a, b := BlockInOrder(env, n, texts, entries[..k], e, block);
      var more := OwnLines(env, n, texts, entries[k]);
      Regroup(a, block, b, more);
      b := b + more;
    }
  }

  ghost predicate IsRowLine(line: string) { exists r :: line == RowLine(r) }

  /** Nothing but rows is merged. */
  lemma {:induction false} RowLinesOnly(env: Env, n: nat, workers: seq<Worker>, texts: seq<string>, entries: seq<Entry>)
    requires Persisted(workers, texts)
    ensures forall l :: l in AllOwnLines(env, n, texts, entries) ==> IsRowLine(l)
  {
    if entries != [] {
      var e := entries[|entries| - 1];
      RowLinesOnly(env, n, workers, texts, entries[..|entries| - 1]);
      forall l | l in OwnLines(env, n, texts, e)
        ensures IsRowLine(l)
      {
        var i: nat :| WrittenBy(env, n, texts, Path(env.dataDir, e.name), i);
        assert e == WorkerEntry(env, n, i);
        WorkerLines(env, n, workers, texts, i);
        var k :| 0 <= k < |workers[i].rows| && l == RowLine(workers[i].rows[k]);
      }
    }
  }

  lemma LinesPlain(env: Env, n: nat, workers: seq<Worker>, texts: seq<string>, entries: seq<Entry>)
    requires Persisted(workers, texts)
    ensures forall l :: l in AllOwnLines(env, n, texts, entries) ==> Plain(l)
  {
    RowLinesOnly(env, n, workers, texts, entries);
    forall l | l in AllOwnLines(env, n, texts, entries)
      ensures Plain(l)
    {
      assert IsRowLine(l);
      var r :| l == RowLine(r);
      RowLinePlain(r);
    }
  }

  // ----- The whole way -----

  lemma {:induction false} SumsAgree(workers: seq<Worker>)
    requires forall w :: w in workers ==> |w.rows| == |w.acked|
    ensures |Bag(workers, RowsBag)| == Sum(workers, Conservation.AckCount)
  {
    if workers != [] {
      var n := |workers| - 1;
      assert workers[n] in workers;
      SumsAgree(workers[..n]);
    }
  }

  // ----- What the rows say -----

  lemma {:induction false} BagJoin<T, M>(a: seq<T>, b: seq<T>, f: T -> multiset<M>)
    ensures Bag(a + b, f) == Bag(a, f) + Bag(b, f)
  {
    if b == [] {
      assert a + b == a;
    } else {
      var n := |b| - 1;
      BagJoin(a, b[..n], f);
      assert (a + b)[..|a + b| - 1] == a + b[..n];
    }
  }

  lemma BagNext<T, M>(s: seq<T>, x: T, f: T -> multiset<M>)
    ensures Bag(s + [x], f) == Bag(s, f) + f(x)
  {
    assert (s + [x])[..|s|] == s;
  }

  lemma Without<T>(s: seq<T>, q: nat)
    requires q < |s|
    ensures multiset(s[..q] + s[q + 1..]) == multiset(s) - multiset{s[q]}
  {
    assert s == s[..q] + ([s[q]] + s[q + 1..]);
  }

  /** A bag taken over the elements does not depend on their order. */
  lemma {:induction false} BagPermuted<T, M>(a: seq<T>, b: seq<T>, f: T -> multiset<M>)
    requires multiset(a) == multiset(b)
    ensures Bag(a, f) == Bag(b, f)
  {
    assert |a| == |multiset(a)| == |multiset(b)| == |b|;
    if a != [] {
      var n := |a| - 1;
      assert a[n] in multiset(b);
      var q :| 0 <= q < |b| && b[q] == a[n];
      Without(a, n);
      Without(b, q);
      assert a[..n] + a[n + 1..] == a[..n];
      BagPermuted(a[..n], b[..q] + b[q + 1..], f);
      BagDrop(b, q, f);
    }
  }

  function RowsOf(w: Worker): seq<Row> { w.rows }

  lemma {:induction false} FlatBag<T, U, M>(s: seq<T>, f: T -> seq<U>, g: U -> multiset<M>, h: T -> multiset<M>)
    requires forall i :: 0 <= i < |s| ==> h(s[i]) == Bag(f(s[i]), g)
    ensures Bag(FlatMap(s, f), g) == Bag(s, h)
  {
    if s != [] {
      var n := |s| - 1;
      FlatBag(s[..n], f, g, h);
      BagJoin(FlatMap(s[..n], f), f(s[n]), g);
    }
  }

  lemma {:induction false} AllRowsBag(workers: seq<Worker>)
    ensures multiset(FlatMap(workers, RowsOf)) == Bag(workers, RowsBag)
  {
    if workers != [] {
      AllRowsBag(workers[..|workers| - 1]);
    }
  }

  ghost function OneSample(r: Row): multiset<Columns.Sample> { multiset{Columns.SampleOfRow(r)} }

  ghost function SamplesBag(w: Worker): multiset<Columns.Sample> { Bag(w.rows, OneSample) }

  lemma {:induction false} SamplesAre(rows: seq<Row>)
    ensures multiset(Columns.SamplesOfRows(rows)) == Bag(rows, OneSample)
  {
    if rows != [] {
      var n := |rows| - 1;
      SamplesAre(rows[..n]);
      assert Columns.SamplesOfRows(rows) == Columns.SamplesOfRows(rows[..n]) + [Columns.SampleOfRow(rows[n])];
    }
  }

  lemma {:induction false} RowsBehind(lines: seq<string>) returns (rows: seq<Row>)
    requires forall i :: 0 <= i < |lines| ==> IsRowLine(lines[i])
    ensures |rows| == |lines| && forall i :: 0 <= i < |lines| ==> lines[i] == RowLine(rows[i])
  {
    rows := [];
    if lines != [] {
      var n := |lines| - 1;
      var before := RowsBehind(lines[..n]);
      assert IsRowLine(lines[n]);
      var r :| lines[n] == RowLine(r);
      rows := before + [r];
    }
  }

  /** Lines that are rows are the lines of the rows that they parse to. */
  lemma LinesBack(lines: seq<string>)
    requires forall l :: l in lines ==> IsRowLine(l)
    ensures lines == RowLines(ParseAll(lines))
  {
    assert forall i :: 0 <= i < |lines| ==> lines[i] in lines;
    var rows := RowsBehind(lines);
    assert lines == RowLines(rows);
    ParseAllRows(rows);
  }

  /** Read by the names of its columns, the file says what the rows of the workers say. */
  lemma SamplesOfLines(lines: seq<string>, workers: seq<Worker>)
    requires (forall l :: l in lines ==> IsRowLine(l))
    requires multiset(ParseAll(lines)) == Bag(workers, RowsBag)
    ensures multiset(Columns.Samples(Unlines([HEADER] + lines))) == Bag(workers, SamplesBag)
  {
    LinesBack(lines);
    Columns.RowsByName(ParseAll(lines));
    SamplesAre(ParseAll(lines));
    AllRowsBag(workers);
    BagPermuted(ParseAll(lines), FlatMap(workers, RowsOf), OneSample);
    FlatBag(workers, RowsOf, OneSample, SamplesBag);
  }

  // ----- What happened -----

  /** The clock that was read at the publish of the message. */
  function SentAt(acts: seq<Action>, d: Delivery): Option<int64> {
    var clocks := Histories.Clocks(acts, d.id.pair);
    if d.id.k < |clocks| then Some(clocks[d.id.k]) else None
  }

  /** For each message that worker `w` acknowledged, in order: the clock of its publish, and that of its receipt. */
  function Witnessed(acts: seq<Action>, w: nat): seq<Columns.Sample> {
    var arrived, clocks := Histories.Arrived(acts, w), Histories.Receipts(acts, w);
    seq(Histories.Times(acts, Ack(w)), k requires 0 <= k < Histories.Times(acts, Ack(w)) =>
      Columns.Sample(if k < |arrived| then SentAt(acts, arrived[k]) else None,
                     if k < |clocks| then Some(clocks[k]) else None))
  }

  ghost function WitnessedBag(acts: seq<Action>): nat -> multiset<Columns.Sample> {
    (w: nat) => multiset(Witnessed(acts, w))
  }

  /** The positions at which `c` stands. */
  function PositionsOf(hosts: seq<nat>, c: nat): (ws: seq<nat>)
    ensures forall w :: w in ws ==> w < |hosts| && hosts[w] == c
  {
    if hosts == [] then []
    else PositionsOf(hosts[..|hosts| - 1], c) + if hosts[|hosts| - 1] == c then [|hosts| - 1] else []
  }

  lemma {:induction false} BagOfWorkers<M>(workers: seq<Worker>, hosts: seq<nat>, c: nat, f: Worker -> multiset<M>,
                                           g: nat -> multiset<M>)
    requires |hosts| == |workers| && forall w: nat :: w < |hosts| ==> workers[w].host == hosts[w]
    requires forall w: nat :: w < |hosts| && hosts[w] == c ==> f(workers[w]) == g(w)
    ensures Bag(WorkersOf(workers, c), f) == Bag(PositionsOf(hosts, c), g)
  {
    if workers != [] {
      var n := |workers| - 1;
      BagOfWorkers(workers[..n], hosts[..n], c, f, g);
      if hosts[n] == c {
        BagNext(WorkersOf(workers[..n], c), workers[n], f);
        BagNext<nat, M>(PositionsOf(hosts[..n], c), n, g);
      } else {
        assert WorkersOf(workers, c) == WorkersOf(workers[..n], c);
        assert PositionsOf(hosts, c) == PositionsOf(hosts[..n], c);
      }
    }
  }

  lemma AckedIs(cfg: Config, acts: seq<Action>, w: nat)
    requires cfg.Valid() && Run(cfg, acts).Some? && Histories.IsWorker(cfg, w)
    ensures w < |Run(cfg, acts).value.workers|
    ensures var v := Run(cfg, acts).value.workers[w];
      var arrived, clocks := Histories.Arrived(acts, w), Histories.Receipts(acts, w);
      && |v.acked| == Histories.Times(acts, Ack(w)) <= |clocks| <= |arrived| && v.acked <= arrived
      && |v.rows| == |clocks| && forall k :: 0 <= k < |clocks| ==> v.rows[k].tConsumer == clocks[k]
  {
    WorkerHistories.WorkerHistory(cfg, acts, w);
  }

  lemma SentAtIs(cfg: Config, acts: seq<Action>, w: nat, k: nat)
    requires cfg.Valid() && Run(cfg, acts).Some? && w < |Run(cfg, acts).value.workers|
    requires k < |Run(cfg, acts).value.workers[w].acked| <= |Run(cfg, acts).value.workers[w].rows|
    ensures var v := Run(cfg, acts).value.workers[w]; SentAt(acts, v.acked[k]) == Some(v.rows[k].tProducer)
  {
    Conservation.RowOfAck(cfg, acts, w, k);
    WorkerHistories.PairCount(cfg, acts);
    PairHistories.PairHistory(cfg, acts, Run(cfg, acts).value.workers[w].acked[k].id.pair);
  }

  /** The rows of a worker that has acknowledged all that it received say when each message was sent and received. */
  lemma RowsSayWhen(cfg: Config, acts: seq<Action>, w: nat)
    requires cfg.Valid() && Run(cfg, acts).Some? && w < |Run(cfg, acts).value.workers|
    requires |Run(cfg, acts).value.workers[w].rows| == |Run(cfg, acts).value.workers[w].acked|
    ensures Columns.SamplesOfRows(Run(cfg, acts).value.workers[w].rows) == Witnessed(acts, w)
  {
    var v := Run(cfg, acts).value.workers[w];
    WorkerHistories.PairCount(cfg, acts);
    AckedIs(cfg, acts, w);
    forall k | 0 <= k < |v.rows|
      ensures Columns.SampleOfRow(v.rows[k]) == Witnessed(acts, w)[k]
    {
      SentAtIs(cfg, acts, w, k);
      assert v.acked[k] == Histories.Arrived(acts, w)[k];
    }
  }

  /** Read by its columns, the file says when the messages that consumer `c` acknowledged were sent and received. */
  ghost predicate SaysWhen(text: string, cfg: Config, acts: seq<Action>, c: nat) {
    multiset(Columns.Samples(text)) ==
      Bag(PositionsOf(Blocks(cfg.consumers, cfg.workersEach), c), WitnessedBag(acts))
  }

  lemma LinesSayWhen(cfg: Config, acts: seq<Action>, c: nat, lines: seq<string>)
    requires cfg.Valid() && Run(cfg, acts).Some? && forall l :: l in lines ==> IsRowLine(l)
    requires var workers := WorkersOf(Run(cfg, acts).value.workers, c);
      && multiset(ParseAll(lines)) == Bag(workers, RowsBag)
      && forall w :: w in workers ==> |w.rows| == |w.acked|
    ensures SaysWhen(Unlines([HEADER] + lines), cfg, acts, c)
  {
    var workers, hosts := Run(cfg, acts).value.workers, Blocks(cfg.consumers, cfg.workersEach);
    SamplesOfLines(lines, WorkersOf(workers, c));
    WorkerHistories.PairCount(cfg, acts);
    WorkerHistories.Sizes(cfg, acts);
    forall w: nat | w < |hosts|
      ensures workers[w].host == hosts[w]
      ensures hosts[w] == c ==> SamplesBag(workers[w]) == WitnessedBag(acts)(w)
    {
      WorkerHistories.PhaseHistory(cfg, acts, w);
      if hosts[w] == c {
        assert workers[w] in WorkersOf(workers, c);
        RowsSayWhen(cfg, acts, w);
        SamplesAre(workers[w].rows);
      }
    }
    BagOfWorkers(workers, hosts, c, SamplesBag, WitnessedBag(acts));
  }

  /** The lines of the output are the rows of the workers, each once, each worker's in one piece and in order. */
  ghost predicate LinesAreRows(lines: seq<string>, workers: seq<Worker>) {
    && multiset(ParseAll(lines)) == Bag(workers, RowsBag)
    && forall i :: 0 <= i < |workers| ==> InOrder(lines, workers[i].rows)
  }

  ghost predicate InOrder(lines: seq<string>, rows: seq<Row>) {
    exists a, b :: lines == a + RowLines(rows) + b
  }

  lemma MergedLinesAreRows(env: Env, n: nat, workers: seq<Worker>, texts: seq<string>, entries: seq<Entry>)
    requires Persisted(workers, texts) && NoDup(entries)
    requires forall i: nat :: i < |texts| ==> WorkerEntry(env, n, i) in entries
    ensures LinesAreRows(AllOwnLines(env, n, texts, entries), workers)
  {
    AnyListing(env, n, workers, texts, entries);
    forall i | 0 <= i < |workers|
      ensures InOrder(AllOwnLines(env, n, texts, entries), workers[i].rows)
    {
      WorkerLines(env, n, workers, texts, i);
      var a, b := BlockInOrder(env, n, texts, entries, WorkerEntry(env, n, i), RowLines(workers[i].rows));
    }
  }

  /** One run of the experiment, and a consumer in it. */
  datatype Experiment = Experiment(cfg: Config, acts: seq<Action>, c: nat)

  /** The consumer returned after all its workers had started, and these are the files that they left. */
  ghost predicate Supplies(e: Experiment, texts: seq<string>) {
    && e.cfg.Valid() && Run(e.cfg, e.acts).Some?
    && var s := Run(e.cfg, e.acts).value;
    && e.c < |s.consumers| && s.consumers[e.c].main == Returned(true)
    && texts == FilesOf(WorkersOf(s.workers, e.c))
  }

  /**
   * The file holds one header line and then lines that read back, as a multiset, to exactly the rows of the consumer's
   * workers, one for each acknowledgement; each worker's rows are there in one piece and in order; and read by the
   * names of its columns it says, of every message acknowledged, when it was sent and when it was received.
   */
  ghost predicate HoldsAcks(text: string, e: Experiment, lines: seq<string>) {
    && e.cfg.Valid() && Run(e.cfg, e.acts).Some?
    && var s := Run(e.cfg, e.acts).value;
    var workers := WorkersOf(s.workers, e.c);
    && Scan(text) == [HEADER] + lines && LinesAreRows(lines, workers)
    && |Bag(workers, RowsBag)| == Sum(workers, Conservation.AckCount)
    && SaysWhen(text, e.cfg, e.acts, e.c)
  }

  lemma OutputHoldsAcks(disk: Disk, env: Env, n: nat, e: Experiment, input: Input)
    requires Supplies(e, input.texts)
    requires Ready(disk, env, n) && Listed(disk, env, ExperimentId.RunId(n), input)
    ensures HoldsAcks(OwnOutput(env, n, input), e, AllOwnLines(env, n, input.texts, input.merge))
  {
    var workers := WorkersOf(Run(e.cfg, e.acts).value.workers, e.c);
    AllPersisted(e.cfg, e.acts, e.c);
    SumsAgree(workers);
    OutputOfFiles(disk, env, n, workers, input);
    RowLinesOnly(env, n, workers, input.texts, input.merge);
    LinesSayWhen(e.cfg, e.acts, e.c, AllOwnLines(env, n, input.texts, input.merge));
  }

  /**
   * A consumer that returned after all its workers had started, and whose files were then merged from a ready data
   * directory, has an output file of just the rows of what was acknowledged.
   */
  lemma OutputIsRowsOfAcks(disk: Disk, env: Env, n: nat, e: Experiment, input: Input)
    requires Supplies(e, input.texts)
    requires Ready(disk, env, n) && n < TWO_TO_THE_63 - 1 && Listed(disk, env, ExperimentId.RunId(n), input)
    ensures Session(disk, env, ExperimentId.RunId(n), input).Ok?
    ensures var d := Session(disk, env, ExperimentId.RunId(n), input).value.0;
      && OutPath(env, n) in d.files
      && HoldsAcks(d.files[OutPath(env, n)], e, AllOwnLines(env, n, input.texts, input.merge))
  {
    RunSucceeds(disk, env, n, input);
    OutputHoldsAcks(disk, env, n, e, input);
  }

  // ----- Any number of experiments -----

  ghost predicate HoldsJustAcks(text: string, e: Experiment) { exists lines :: HoldsAcks(text, e, lines) }

  /** The output file of the `k`-th run holds the rows of the `k`-th experiment. */
  ghost predicate OutputHolds(d: Disk, env: Env, n: nat, k: nat, e: Experiment) {
    OutPath(env, n + k) in d.files && HoldsJustAcks(d.files[OutPath(env, n + k)], e)
  }

  /** All the runs came to their end, and every output file is there. */
  ghost predicate AllHold(disk: Disk, env: Env, n: nat, inputs: seq<Input>, es: seq<Experiment>) {
    match Sessions.Sessions(disk, env, ExperimentId.RunId(n), inputs)
    case Err(_) => false
    case Ok(after) => forall k: nat :: k < |es| ==> OutputHolds(after.0, env, n, k, es[k])
  }

  lemma {:induction false} ListedBefore(disk: Disk, env: Env, id: string, inputs: seq<Input>, k: nat)
    requires AllListed(disk, env, id, inputs) && k <= |inputs|
    ensures AllListed(disk, env, id, inputs[..k])
  {
    if k == |inputs| {
      assert inputs[..k] == inputs;
    } else {
      ListedBefore(disk, env, id, inputs[..|inputs| - 1], k);
      assert inputs[..|inputs| - 1][..k] == inputs[..k];
    }
  }

  lemma ReadyThen(disk: Disk, env: Env, n: nat, some: seq<Input>, m: nat) returns (d: Disk)
    requires Ready(disk, env, n) && m == n + |some| < TWO_TO_THE_63 && AllListed(disk, env, ExperimentId.RunId(n), some)
    ensures Sessions.Sessions(disk, env, ExperimentId.RunId(n), some) == Ok((d, ExperimentId.RunId(m)))
    ensures Ready(d, env, m)
  {
    AllRunsSucceed(disk, env, n, some);
    d := AfterSome(disk, env, n, some, m);
  }

  lemma ListedThen(disk: Disk, env: Env, id: string, inputs: seq<Input>, k: nat, d: Disk, i: string)
    requires AllListed(disk, env, id, inputs) && k < |inputs|
    requires Sessions.Sessions(disk, env, id, inputs[..k]) == Ok((d, i))
    ensures Listed(d, env, i, inputs[k])
  {
    ListedBefore(disk, env, id, inputs, k + 1);
    var some := inputs[..k + 1];
    assert some[..|some| - 1] == inputs[..k];
    LastSession(disk, env, id, some);
  }

  /** The disk that the `k`-th run found. */
  lemma DiskBefore(disk: Disk, env: Env, n: nat, inputs: seq<Input>, k: nat, m: nat) returns (d: Disk)
    requires Ready(disk, env, n) && k < |inputs| && m == n + k < TWO_TO_THE_63
    requires AllListed(disk, env, ExperimentId.RunId(n), inputs)
    ensures Ready(d, env, m) && Listed(d, env, ExperimentId.RunId(m), inputs[k])
  {
    var some, id, next := inputs[..k], ExperimentId.RunId(n), ExperimentId.RunId(m);
    ListedBefore(disk, env, id, inputs, k);
    d := ReadyThen(disk, env, n, some, m);
    ListedThen(disk, env, id, inputs, k, d, next);
  }

  lemma OneHolds(disk: Disk, env: Env, n: nat, inputs: seq<Input>, k: nat, m: nat, e: Experiment)
    requires Ready(disk, env, n) && k < |inputs| && m == n + k < TWO_TO_THE_63
    requires AllListed(disk, env, ExperimentId.RunId(n), inputs)
    requires Supplies(e, inputs[k].texts)
    ensures HoldsJustAcks(OwnOutput(env, m, inputs[k]), e)
  {
    var before := DiskBefore(disk, env, n, inputs, k, m);
    OutputHoldsAcks(before, env, m, e, inputs[k]);
  }

  /**
   * Over any number of experiments, one run of the program after each, in the same directories: all runs succeed, and
   * in the end the output file of every one of them holds just the rows of what its own experiment acknowledged.
   */
  lemma EveryOutputIsRowsOfAcks(disk: Disk, env: Env, n: nat, inputs: seq<Input>, es: seq<Experiment>)
    requires Ready(disk, env, n) && n + |inputs| < TWO_TO_THE_63
    requires AllListed(disk, env, ExperimentId.RunId(n), inputs)
    requires |es| == |inputs| && forall k :: 0 <= k < |es| ==> Supplies(es[k], inputs[k].texts)
    ensures AllHold(disk, env, n, inputs, es)
  {
    AllRunsSucceed(disk, env, n, inputs);
    var after := Sessions.Sessions(disk, env, ExperimentId.RunId(n), inputs).value;
    forall k: nat | k < |es|
      ensures OutputHolds(after.0, env, n, k, es[k])
    {
      assert OutputOf(after.0, env, n, inputs, k);
      OneHolds(disk, env, n, inputs, k, n + k, es[k]);
    }
  }

  lemma OutputOfFiles(disk: Disk, env: Env, n: nat, workers: seq<Worker>, input: Input)
    requires Ready(disk, env, n) && Listed(disk, env, ExperimentId.RunId(n), input)
    requires Persisted(workers, input.texts)
    ensures Scan(OwnOutput(env, n, input)) == [HEADER] + AllOwnLines(env, n, input.texts, input.merge)
    ensures LinesAreRows(AllOwnLines(env, n, input.texts, input.merge), workers)
  {
    EntriesListed(disk, env, n, input);
    MergedLinesAreRows(env, n, workers, input.texts, input.merge);
    LinesPlain(env, n, workers, input.texts, input.merge);
    ScanHeaded(AllOwnLines(env, n, input.texts, input.merge));
  }

  lemma ScanHeaded(lines: seq<string>)
    requires forall l :: l in lines ==> Plain(l)
    ensures Scan(Unlines([HEADER] + lines)) == [HEADER] + lines
  {
    assert |HEADER| == 19 && '\n' !in HEADER;
    assert Plain(HEADER);
    ScanUnlines([HEADER] + lines);
  }

  lemma EntriesListed(disk: Disk, env: Env, n: nat, input: Input)
    requires Ready(disk, env, n) && Listed(disk, env, ExperimentId.RunId(n), input)
    ensures NoDup(input.merge)
    ensures forall i: nat :: i < |input.texts| ==> WorkerEntry(env, n, i) in input.merge
  {
    RecordPhase(disk, env, n, input.texts);
    forall i: nat | i < |input.texts|
      ensures WorkerEntry(env, n, i) in input.merge
    {
      assert WrittenBy(env, n, input.texts, WorkerPath(env, n, i), i);
      assert WorkerPath(env, n, i) == Path(env.dataDir, WorkerPath(env, n, i).name);
    }
  }

  lemma AllPersisted(cfg: Config, acts: seq<Action>, c: nat)
    requires cfg.Valid() && Run(cfg, acts).Some? && c < |Run(cfg, acts).value.consumers|
    requires Run(cfg, acts).value.consumers[c].main == Returned(true)
    ensures var workers := WorkersOf(Run(cfg, acts).value.workers, c);
      Persisted(workers, FilesOf(workers)) && forall w :: w in workers ==> |w.rows| == |w.acked|
  {
    Shutdown.ReturnIsDurable(cfg, acts, c);
    var s := Run(cfg, acts).value;
    forall w | w in WorkersOf(s.workers, c)
      ensures Shutdown.Durable(w)
    {
      var i :| 0 <= i < |s.workers| && s.workers[i] == w;
    }
  }
}
