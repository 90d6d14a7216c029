/** The monitor's sample loop over network counters, and what the written rows add up to. */
module NetworkMonitor {
  import opened Prelude
  import opened Decimal
  import opened Network
  import opened Text

  datatype Sample = Sample(timestamp: int64, stats: seq<Stat>)

  /** The counter of one interface in one sample: received bytes, or transmitted ones if `tx`; the last entry counts. */
  function Counter(stats: seq<Stat>, name: string, tx: bool): Option<uint64> {
    match Last(stats, name)
    case None => None
    case Some(k) => Some(if tx then stats[k].tx else stats[k].rx)
  }

  function Side(t: Traffic, tx: bool): uint64 { if tx then t.tx else t.rx }

  // ----- Summing a column of the csv file -----

  function Number(s: string): nat { if AllDigits(s) then Value(s) else 0 }

  function ColumnSum(rows: seq<Record>, name: string, tx: bool): nat {
    if rows == [] then 0
    else
      var r := rows[|rows| - 1];
      ColumnSum(rows[..|rows| - 1], name, tx) +
      if |r| == 4 && r[1] == name then Number(r[if tx then 3 else 2]) else 0
  }

  lemma {:induction false} ColumnSumAppend(a: seq<Record>, b: seq<Record>, name: string, tx: bool)
    ensures ColumnSum(a + b, name, tx) == ColumnSum(a, name, tx) + ColumnSum(b, name, tx)
  {
    if b == [] {
      assert a + b == a;
    } else {
      var n := |b| - 1;
      ColumnSumAppend(a, b[..n], name, tx);
      assert (a + b)[..|a + b| - 1] == a + b[..n];
    }
  }

  lemma NumberOfFormat(x: uint64)
    ensures Number(FormatInt(x)) == x
  {
    ValueOfDec(x);
  }

  /** The records of one measurement add up to the measurement's value, however they are ordered. */
  lemma {:induction false} ColumnSumRecords(res: seq<Record>, ts: int64, m: map<string, Traffic>, names: seq<string>,
                                            name: string, tx: bool)
    requires NoDup(names) && |res| == |names| && (forall x :: x in names ==> x in m)
    requires forall i :: 0 <= i < |names| ==> res[i] == RecordOf(ts, names[i], m[names[i]])
    ensures ColumnSum(res, name, tx) == if name in names then Side(m[name], tx) else 0
  {
    if names != [] {
      var n := |names| - 1;
      assert names == names[..n] + [names[n]];
      ColumnSumRecords(res[..n], ts, m, names[..n], name, tx);
      NumberOfFormat(Side(m[names[n]], tx));
      assert names[n] !in names[..n];
    }
  }

  // ----- What the loop writes for one interface -----

  /** The value written at tick `k`: nothing at the first sample or after an empty one, whose slice is nil. */
  function Delta(samples: seq<Sample>, name: string, tx: bool, k: nat): nat
    requires k < |samples|
  {
    if k == 0 || samples[k - 1].stats == [] then 0
    else
      match (Counter(samples[k - 1].stats, name, tx), Counter(samples[k].stats, name, tx))
      case (_, None) => 0
      case (None, Some(c)) => c
      case (Some(p), Some(c)) => Sub64(c, p)
  }

  function WrittenSum(samples: seq<Sample>, name: string, tx: bool, n: nat): nat
    requires n <= |samples|
  {
    if n == 0 then 0 else WrittenSum(samples, name, tx, n - 1) + Delta(samples, name, tx, n - 1)
  }

  const TITLES: Record := ["timestamp", "name", "RxBytes", "TxBytes"]

  lemma TitlesSum(name: string, tx: bool)
    ensures ColumnSum([TITLES], name, tx) == 0
  {
    assert [TITLES][..0] == [];
    assert TITLES[2] == "RxBytes" && TITLES[3] == "TxBytes";
    assert !IsDigit("RxBytes"[0]) && !IsDigit("TxBytes"[0]);
  }

  // ----- The same column by its name -----

  /** The sum of a column over the rows of an interface, found by the names in the first row of the file. */
  function NamedSum(titles: Record, rows: seq<Record>, name: string, column: string): nat {
    if rows == [] then 0
    else
      var r := rows[|rows| - 1];
      NamedSum(titles, rows[..|rows| - 1], name, column) +
      if |r| == |titles| && Cell(titles, r, "name") == Some(name) then NumberIn(titles, r, column) else 0
  }

  function NumberIn(titles: Record, r: Record, column: string): nat {
    match Cell(titles, r, column)
    case None => 0
    case Some(s) => Number(s)
  }

  function FileSum(file: seq<Record>, name: string, column: string): nat {
    if file == [] then 0 else NamedSum(file[0], file[1..], name, column)
  }

  /** Where the source's own column names stand. */
  lemma Columns()
    ensures Position(TITLES, "timestamp") == Some(0) && Position(TITLES, "name") == Some(1)
    ensures Position(TITLES, "RxBytes") == Some(2) && Position(TITLES, "TxBytes") == Some(3)
  {
    assert TITLES[1..] == ["name", "RxBytes", "TxBytes"];
    assert TITLES[1..][1..] == ["RxBytes", "TxBytes"] && TITLES[1..][1..][1..] == ["TxBytes"];
  }

  lemma {:induction false} NamedIsThere(rows: seq<Record>, name: string, tx: bool)
    ensures NamedSum(TITLES, rows, name, if tx then "TxBytes" else "RxBytes") == ColumnSum(rows, name, tx)
  {
    if rows != [] {
      NamedIsThere(rows[..|rows| - 1], name, tx);
      Columns();
    }
  }

  lemma FileSumIs(file: seq<Record>, name: string, tx: bool)
    requires file != [] && file[0] == TITLES
    ensures FileSum(file, name, if tx then "TxBytes" else "RxBytes") == ColumnSum(file, name, tx)
  {
    assert file == [TITLES] + file[1..];
    ColumnSumAppend([TITLES], file[1..], name, tx);
    TitlesSum(name, tx);
    NamedIsThere(file[1..], name, tx);
  }

  /** What one tick adds to the column sum of an interface. */
  function TickValue(curr: seq<Stat>, prev: seq<Stat>, name: string, tx: bool): nat {
    if prev == [] then 0
    else
      match Change(curr, prev, name)
      case None => 0
      case Some(t) => Side(t, tx)
  }

  /** The rows of a tick: one record for each interface with a change, in any order; none without a sample before. */
  ghost predicate TickRows(added: seq<Record>, sample: Sample, prev: seq<Stat>) {
    if prev == [] then added == [] else exists m, names :: AreTickRows(added, sample, prev, m, names)
  }

  ghost predicate AreTickRows(added: seq<Record>, sample: Sample, prev: seq<Stat>,
                              m: map<string, Traffic>, names: seq<string>)
  {
    IsDifference(m, sample.stats, prev) && AreRecords(added, sample.timestamp, m, names)
  }

  /** Whether a sequence of records is what tick `k` wrote. */
  ghost function IsTick(samples: seq<Sample>): (nat, seq<Record>) -> bool {
    (k: nat, tick: seq<Record>) => k < |samples| && TickRows(tick, samples[k], Before(samples, k))
  }

  /** The file is the titles, and then the rows of each tick in the order of the ticks. */
  ghost predicate Logged(rows: seq<Record>, samples: seq<Sample>, ticks: seq<seq<Record>>) {
    rows == [TITLES] + Flatten(ticks) && |ticks| == |samples| && AllAt(ticks, IsTick(samples))
  }

  /** What the monitor holds as its previous sample at tick `k`. */
  function Before(samples: seq<Sample>, k: nat): seq<Stat>
    requires k <= |samples|
  {
    if k == 0 then [] else samples[k - 1].stats
  }

  class Monitor {
    var prev: seq<Stat>
    var rows: seq<Record>

    constructor ()
      ensures prev == [] && rows == []
    {
      prev := [];
      rows := [];
    }

    method Tick(sample: Sample) returns (ghost added: seq<Record>)
      modifies this
      ensures prev == sample.stats
      ensures rows == old(rows) + added && TickRows(added, sample, old(prev))
    {
      var curr := sample.stats;
      var measurement := NewNetworkMeasurement(curr, prev);
      added := [];
      if prev != [] {
        ghost var names;
        var records;
        records, names := Records(sample.timestamp, measurement);
        assert AreTickRows(records, sample, prev, measurement, names);
        rows := rows + records;
        added := records;
      }
      prev := curr;
    }

    /** The titles, and then one tick for each sample until `stop`. */
    method Start(samples: seq<Sample>) returns (ghost ticks: seq<seq<Record>>)
      requires prev == [] && rows == []
      modifies this
      ensures Logged(rows, samples, ticks)
    {
      rows := rows + [TITLES];
      ticks := Loop(samples, IsTick(samples));
    }

    /** `isTick` holds of what a tick writes. */
    method Loop(samples: seq<Sample>, ghost isTick: (nat, seq<Record>) -> bool)
      returns (ghost ticks: seq<seq<Record>>)
      requires prev == [] && rows == [TITLES] && Recognises(isTick, samples)
      modifies this
      ensures rows == [TITLES] + Flatten(ticks) && |ticks| == |samples| && AllAt(ticks, isTick)
    {
      ticks := [];
      for n := 0 to |samples|
        invariant prev == Before(samples, n) && |ticks| == n && rows == [TITLES] + Flatten(ticks)
        invariant AllAt(ticks, isTick)
      {
        ghost var tick := Next(samples, n, isTick);
        FlattenAdd(ticks, tick);
        AllAtNext(ticks, tick, isTick);
        ticks := ticks + [tick];
      }
    }

    /** One round of the loop. */
    method Next(samples: seq<Sample>, n: nat, ghost isTick: (nat, seq<Record>) -> bool)
      returns (ghost tick: seq<Record>)
      requires n < |samples| && prev == Before(samples, n) && Recognises(isTick, samples)
      modifies this
      ensures prev == Before(samples, n + 1) && rows == old(rows) + tick && isTick(n, tick)
    {
      tick := Tick(samples[n]);
    }
  }

  ghost predicate Recognises(isTick: (nat, seq<Record>) -> bool, samples: seq<Sample>) {
    forall k: nat, tick :: k < |samples| && TickRows(tick, samples[k], Before(samples, k)) ==> isTick(k, tick)
  }

  lemma TickSum(before: seq<Record>, added: seq<Record>, sample: Sample, prev: seq<Stat>, name: string, tx: bool)
    requires TickRows(added, sample, prev)
    ensures ColumnSum(before + added, name, tx) == ColumnSum(before, name, tx) + TickValue(sample.stats, prev, name, tx)
  {
    ColumnSumAppend(before, added, name, tx);
    if prev != [] {
      var m, names :| AreTickRows(added, sample, prev, m, names);
      RecordsSum(added, sample, prev, m, names, name, tx);
    }
  }

  lemma RecordsSum(added: seq<Record>, sample: Sample, prev: seq<Stat>, m: map<string, Traffic>, names: seq<string>,
                   name: string, tx: bool)
    requires prev != [] && AreTickRows(added, sample, prev, m, names)
    ensures ColumnSum(added, name, tx) == TickValue(sample.stats, prev, name, tx)
  {
    ColumnSumRecords(added, sample.timestamp, m, names, name, tx);
  }

  /** Every tick adds what the samples say it should. */
  ghost predicate Adds(isTick: (nat, seq<Record>) -> bool, samples: seq<Sample>, name: string, tx: bool) {
    forall k: nat, before: seq<Record>, tick: seq<Record> :: k < |samples| && isTick(k, tick) ==>
      ColumnSum(before + tick, name, tx) == ColumnSum(before, name, tx) + Delta(samples, name, tx, k)
  }

  lemma TicksAdd(samples: seq<Sample>, name: string, tx: bool)
    ensures Adds(IsTick(samples), samples, name, tx)
  {
    forall k: nat, before: seq<Record>, tick: seq<Record> | k < |samples| && IsTick(samples)(k, tick)
      ensures ColumnSum(before + tick, name, tx) == ColumnSum(before, name, tx) + Delta(samples, name, tx, k)
    {
      TickAdds(before, tick, samples, k, name, tx);
    }
  }

  lemma {:induction false} SumOfTicks(isTick: (nat, seq<Record>) -> bool, ticks: seq<seq<Record>>, samples: seq<Sample>,
                                     n: nat, name: string, tx: bool)
    requires n <= |ticks| <= |samples| && AllAt(ticks, isTick) && Adds(isTick, samples, name, tx)
    ensures ColumnSum([TITLES] + Flatten(ticks[..n]), name, tx) == WrittenSum(samples, name, tx, n)
  {
    if n == 0 {
      TitlesSum(name, tx);
      assert ticks[..0] == [] && [TITLES] + [] == [TITLES];
    } else {
      SumOfTicks(isTick, ticks, samples, n - 1, name, tx);
      OneMoreTick(ticks, n - 1);
      assert isTick(n - 1, ticks[n - 1]);
    }
  }

  /** The column of an interface in the file, found by its name, adds up to the differences tick by tick. */
  lemma LoggedSum(rows: seq<Record>, samples: seq<Sample>, ticks: seq<seq<Record>>, name: string, tx: bool)
    requires Logged(rows, samples, ticks)
    ensures FileSum(rows, name, if tx then "TxBytes" else "RxBytes") == WrittenSum(samples, name, tx, |samples|)
  {
    TicksAdd(samples, name, tx);
    SumOfTicks(IsTick(samples), ticks, samples, |samples|, name, tx);
    assert ticks[..|samples|] == ticks;
    FileSumIs(rows, name, tx);
  }

  lemma RecordSays(ts: int64, name: string, t: Traffic)
    ensures Cell(TITLES, RecordOf(ts, name, t), "timestamp") == Some(FormatInt(ts))
    ensures Cell(TITLES, RecordOf(ts, name, t), "name") == Some(name)
    ensures Cell(TITLES, RecordOf(ts, name, t), "RxBytes") == Some(FormatInt(t.rx))
    ensures Cell(TITLES, RecordOf(ts, name, t), "TxBytes") == Some(FormatInt(t.tx))
  {
    Columns();
  }

  lemma RowOfTick(tick: seq<Record>, sample: Sample, prev: seq<Stat>, i: nat) returns (name: string)
    requires TickRows(tick, sample, prev) && i < |tick|
    ensures prev != [] && Change(sample.stats, prev, name).Some?
    ensures tick[i] == RecordOf(sample.timestamp, name, Change(sample.stats, prev, name).value)
  {
    var m, names :| AreTickRows(tick, sample, prev, m, names);
    name := names[i];
    assert name in names && name in m;
  }

  /** Read by the names of the columns, each row says when and for which interface it was written, and what changed. */
  lemma RowSays(rows: seq<Record>, samples: seq<Sample>, ticks: seq<seq<Record>>, k: nat, i: nat) returns (name: string)
    requires Logged(rows, samples, ticks) && k < |ticks| && i < |ticks[k]|
    ensures k > 0 && Change(samples[k].stats, samples[k - 1].stats, name).Some?
    ensures var t := Change(samples[k].stats, samples[k - 1].stats, name).value;
      && Cell(rows[0], ticks[k][i], "timestamp") == Some(FormatInt(samples[k].timestamp))
      && Cell(rows[0], ticks[k][i], "name") == Some(name)
      && Cell(rows[0], ticks[k][i], "RxBytes") == Some(FormatInt(t.rx))
      && Cell(rows[0], ticks[k][i], "TxBytes") == Some(FormatInt(t.tx))
  {
    assert IsTick(samples)(k, ticks[k]);
    name := RowOfTick(ticks[k], samples[k], Before(samples, k), i);
    RecordSays(samples[k].timestamp, name, Change(samples[k].stats, Before(samples, k), name).value);
  }

  lemma TickAdds(before: seq<Record>, tick: seq<Record>, samples: seq<Sample>, k: nat, name: string, tx: bool)
    requires k < |samples| && TickRows(tick, samples[k], Before(samples, k))
    ensures ColumnSum(before + tick, name, tx) == ColumnSum(before, name, tx) + Delta(samples, name, tx, k)
  {
    TickDelta(samples, name, tx, k);
    TickSum(before, tick, samples[k], Before(samples, k), name, tx);
  }

  lemma OneMoreTick(ticks: seq<seq<Record>>, k: nat)
    requires k < |ticks|
    ensures [TITLES] + Flatten(ticks[..k + 1]) == ([TITLES] + Flatten(ticks[..k])) + ticks[k]
  {
    FlattenAdd(ticks[..k], ticks[k]);
    assert ticks[..k + 1] == ticks[..k] + [ticks[k]];
  }

  /** Leaving out the rows that are zero on both sides leaves out nothing from either sum. */
  lemma TickDelta(samples: seq<Sample>, name: string, tx: bool, k: nat)
    requires k < |samples|
    ensures Delta(samples, name, tx, k) ==
      TickValue(samples[k].stats, Before(samples, k), name, tx)
  {
  }

  // ----- The reference: presence runs -----

  function At(samples: seq<Sample>, name: string, tx: bool, k: nat): Option<uint64>
    requires k < |samples|
  {
    Counter(samples[k].stats, name, tx)
  }

  /** The first sample of the presence run that sample `k` belongs to. */
  function RunStart(samples: seq<Sample>, name: string, tx: bool, k: nat): (a: nat)
    requires k < |samples|
    ensures a <= k
  {
    if k == 0 || At(samples, name, tx, k - 1).None? then k else RunStart(samples, name, tx, k - 1)
  }

  /** A maximal run of presence ends at `k`, among the first `n` samples. */
  predicate RunEnds(samples: seq<Sample>, name: string, tx: bool, k: nat, n: nat)
    requires k < n <= |samples|
  {
    At(samples, name, tx, k).Some? && (k + 1 == n || At(samples, name, tx, k + 1).None?)
  }

  /** What a run from `a` on is measured from: its first value at the beginning or after an empty sample, else 0. */
  function Base(samples: seq<Sample>, name: string, tx: bool, a: nat): int
    requires a < |samples|
  {
    if (a == 0 || samples[a - 1].stats == []) && At(samples, name, tx, a).Some?
    then At(samples, name, tx, a).value else 0
  }

  function RunTotal(samples: seq<Sample>, name: string, tx: bool, k: nat): int
    requires k < |samples| && At(samples, name, tx, k).Some?
  {
    At(samples, name, tx, k).value - Base(samples, name, tx, RunStart(samples, name, tx, k))
  }

  /** The totals of the runs that end before position `m`, among the first `n` samples. */
  function RunTotals(samples: seq<Sample>, name: string, tx: bool, m: nat, n: nat): int
    requires m <= n <= |samples|
  {
    if m == 0 then 0
    else
      RunTotals(samples, name, tx, m - 1, n) +
      if RunEnds(samples, name, tx, m - 1, n) then RunTotal(samples, name, tx, m - 1) else 0
  }

  /** How often the counter went down while the interface stayed present. */
  function Wraps(samples: seq<Sample>, name: string, tx: bool, n: nat): nat
    requires n <= |samples|
  {
    if n == 0 then 0
    else
      Wraps(samples, name, tx, n - 1) +
      if n >= 2 && At(samples, name, tx, n - 2).Some? && At(samples, name, tx, n - 1).Some?
        && At(samples, name, tx, n - 1).value < At(samples, name, tx, n - 2).value then 1 else 0
  }

  /** Runs that ended earlier are not affected by one more sample. */
  lemma {:induction false} EarlierRuns(samples: seq<Sample>, name: string, tx: bool, m: nat, n: nat)
    requires m < n < |samples|
    ensures RunTotals(samples, name, tx, m, n) == RunTotals(samples, name, tx, m, n + 1)
  {
    if m > 0 {
      EarlierRuns(samples, name, tx, m - 1, n);
    }
  }

  lemma OneMoreSample(samples: seq<Sample>, name: string, tx: bool, n: nat)
    requires n < |samples|
    ensures RunTotals(samples, name, tx, n + 1, n + 1) - RunTotals(samples, name, tx, n, n) ==
      if At(samples, name, tx, n).None? then 0
      else if n > 0 && At(samples, name, tx, n - 1).Some?
      then At(samples, name, tx, n).value as int - At(samples, name, tx, n - 1).value as int
      else At(samples, name, tx, n).value as int - Base(samples, name, tx, n)
  {
    if n > 0 {
      EarlierRuns(samples, name, tx, n - 1, n);
    }
  }

  /**
   * For every sequence of samples, with empty ones among them or not, what is written for an interface adds up to the
   * totals of its presence runs, plus 2^64 for each time the counter wrapped.
   */
  lemma {:induction false} Telescopes(samples: seq<Sample>, name: string, tx: bool, n: nat)
    requires n <= |samples|
    ensures WrittenSum(samples, name, tx, n) ==
      RunTotals(samples, name, tx, n, n) + TWO_TO_THE_64 * Wraps(samples, name, tx, n)
  {
    if n > 0 {
      Telescopes(samples, name, tx, n - 1);
      OneMoreSample(samples, name, tx, n - 1);
      if n > 1 && samples[n - 2].stats != [] {
        match (At(samples, name, tx, n - 2), At(samples, name, tx, n - 1))
        case (Some(p), Some(c)) => Sub64Exact(c, p);
        case _ =>
      } else if n > 1 {
        assert Last(samples[n - 2].stats, name) == None;
      }
    }
  }

  /**
   * So the column of an interface in the monitor's file adds up to the right total modulo 2^64 always, and to exactly
   * that total if and only if no counter wrapped.
   */
  lemma SumIsExactUnlessWrapped(rows: seq<Record>, samples: seq<Sample>, ticks: seq<seq<Record>>,
                                name: string, tx: bool)
    requires Logged(rows, samples, ticks)
    ensures var total := RunTotals(samples, name, tx, |samples|, |samples|);
      && FileSum(rows, name, if tx then "TxBytes" else "RxBytes") % TWO_TO_THE_64 == total % TWO_TO_THE_64
      && (FileSum(rows, name, if tx then "TxBytes" else "RxBytes") == total <==>
            Wraps(samples, name, tx, |samples|) == 0)
  {
    LoggedSum(rows, samples, ticks, name, tx);
    Telescopes(samples, name, tx, |samples|);
    ModAdd(RunTotals(samples, name, tx, |samples|, |samples|), Wraps(samples, name, tx, |samples|));
  }

  lemma ModAdd(r: int, w: nat)
    ensures (r + TWO_TO_THE_64 * w) % TWO_TO_THE_64 == r % TWO_TO_THE_64
  {
  }
}
