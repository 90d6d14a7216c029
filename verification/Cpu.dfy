/** CPU percentages between samples, in exact arithmetic. */
module Cpu {
  import opened Prelude
  import opened Network
  import Text

  datatype Stats = Stats(user: uint64, system: uint64, idle: uint64, nice: uint64, total: uint64)

  datatype Measurement = Measurement(raw: Stats, userp: real, systemp: real, idlep: real)

  /** The share of one counter's change in the change of the total. */
  function Percentage(curr: uint64, prev: uint64, tDiff: uint64): real
    requires tDiff != 0
  {
    (Sub64(curr, prev) as real / tDiff as real) * 100.0
  }

  function NewCPUMeasurement(curr: Stats, prev: Stats): Measurement
    requires curr.total != prev.total
  {
    var tDiff := Sub64(curr.total, prev.total);
    Measurement(curr, Percentage(curr.user, prev.user, tDiff),
                Percentage(curr.system, prev.system, tDiff), Percentage(curr.idle, prev.idle, tDiff))
  }

  lemma TimesTotal(a: real, t: real)
    requires t != 0.0
    ensures t * ((a / t) * 100.0) == 100.0 * a == ((a / t) * 100.0) * t
  {
    assert (a / t) * t == a;
    assert t * ((a / t) * 100.0) == ((a / t) * t) * 100.0;
  }

  // ----- The row by the names of its columns -----

  const TITLES: seq<string> := ["timestamp", "user", "system", "idle", "nice", "total", "userp", "systemp", "idlep"]

  /** A number printed with "%d", or with "%f". */
  datatype Printed = Whole(n: int) | Share(x: real)

  /** The one record of a measurement. */
  function RecordOf(timestamp: int64, m: Measurement): (r: seq<Printed>)
    ensures |r| == |TITLES|
  {
    [Whole(timestamp), Whole(m.raw.user), Whole(m.raw.system), Whole(m.raw.idle), Whole(m.raw.nice), Whole(m.raw.total),
     Share(m.userp), Share(m.systemp), Share(m.idlep)]
  }

  function Named(titles: seq<string>, r: seq<Printed>, column: string): Option<Printed> {
    match Text.Position(titles, column)
    case None => None
    case Some(k) => if k < |r| then Some(r[k]) else None
  }

  lemma ColumnsAre()
    ensures Text.Position(TITLES, "timestamp") == Some(0) && Text.Position(TITLES, "user") == Some(1)
    ensures Text.Position(TITLES, "system") == Some(2) && Text.Position(TITLES, "idle") == Some(3)
    ensures Text.Position(TITLES, "nice") == Some(4) && Text.Position(TITLES, "total") == Some(5)
    ensures Text.Position(TITLES, "userp") == Some(6) && Text.Position(TITLES, "systemp") == Some(7)
    ensures Text.Position(TITLES, "idlep") == Some(8)
  {
    var t := TITLES;
    forall k | 0 <= k < 9
      ensures Text.Position(t, t[k]) == Some(k)
    {
      PositionAt(t, k);
    }
    assert t[0] == "timestamp" && t[1] == "user" && t[2] == "system" && t[3] == "idle" && t[4] == "nice";
    assert t[5] == "total" && t[6] == "userp" && t[7] == "systemp" && t[8] == "idlep";
  }

  lemma {:induction false} PositionAt(titles: seq<string>, k: nat)
    requires NoDup(titles) && k < |titles|
    ensures Text.Position(titles, titles[k]) == Some(k)
  {
    if k > 0 {
      assert titles[0] != titles[k];
      PositionAt(titles[1..], k - 1);
    }
  }

  /** A share, in percent: times the change of the total it is 100 times the change of the counter. */
  ghost predicate IsShare(p: Option<Printed>, curr: uint64, prev: uint64, total: uint64, before: uint64) {
    && p.Some? && p.value.Share?
    && exists d: uint64, t: uint64 :: IsChange(curr, prev, d) && IsChange(total, before, t) &&
         p.value.x * t as real == 100.0 * d as real
  }

  /** The change of a counter that wraps at 2^64. */
  predicate IsChange(curr: uint64, prev: uint64, d: uint64) { (prev + d - curr) % TWO_TO_THE_64 == 0 }

  lemma Cells(timestamp: int64, m: Measurement)
    ensures var r := RecordOf(timestamp, m);
      && Named(TITLES, r, "timestamp") == Some(Whole(timestamp))
      && Named(TITLES, r, "user") == Some(Whole(m.raw.user)) && Named(TITLES, r, "system") == Some(Whole(m.raw.system))
      && Named(TITLES, r, "idle") == Some(Whole(m.raw.idle)) && Named(TITLES, r, "nice") == Some(Whole(m.raw.nice))
      && Named(TITLES, r, "total") == Some(Whole(m.raw.total)) && Named(TITLES, r, "userp") == Some(Share(m.userp))
      && Named(TITLES, r, "systemp") == Some(Share(m.systemp)) && Named(TITLES, r, "idlep") == Some(Share(m.idlep))
  {
    ColumnsAre();
  }

  /** Read by its columns, a row has the time, the sample's counters, and their shares in the change of the total. */
  lemma RowSays(timestamp: int64, curr: Stats, prev: Stats)
    requires curr.total != prev.total
    ensures var r := RecordOf(timestamp, NewCPUMeasurement(curr, prev));
      && Named(TITLES, r, "timestamp") == Some(Whole(timestamp))
      && Named(TITLES, r, "user") == Some(Whole(curr.user)) && Named(TITLES, r, "system") == Some(Whole(curr.system))
      && Named(TITLES, r, "idle") == Some(Whole(curr.idle)) && Named(TITLES, r, "nice") == Some(Whole(curr.nice))
      && Named(TITLES, r, "total") == Some(Whole(curr.total))
      && IsShare(Named(TITLES, r, "userp"), curr.user, prev.user, curr.total, prev.total)
      && IsShare(Named(TITLES, r, "systemp"), curr.system, prev.system, curr.total, prev.total)
      && IsShare(Named(TITLES, r, "idlep"), curr.idle, prev.idle, curr.total, prev.total)
  {
    Cells(timestamp, NewCPUMeasurement(curr, prev));
    ShareOf(curr.user, prev.user, curr.total, prev.total);
    ShareOf(curr.system, prev.system, curr.total, prev.total);
    ShareOf(curr.idle, prev.idle, curr.total, prev.total);
  }

  lemma ShareOf(curr: uint64, prev: uint64, total: uint64, before: uint64)
    requires total != before
    ensures IsShare(Some(Share(Percentage(curr, prev, Sub64(total, before)))), curr, prev, total, before)
  {
    var d, t := Sub64(curr, prev), Sub64(total, before);
    Sub64Exact(curr, prev);
    Sub64Exact(total, before);
    TimesTotal(d as real, t as real);
    assert IsChange(curr, prev, d) && IsChange(total, before, t);
  }

  /** Counters that do not go down, and a total that goes up. */
  predicate Advances(prev: Stats, curr: Stats) {
    && prev.user <= curr.user && prev.system <= curr.system && prev.idle <= curr.idle
    && prev.total < curr.total
  }

  datatype Column = User | System | Idle

  function Count(s: Stats, c: Column): uint64 {
    match c
    case User => s.user
    case System => s.system
    case Idle => s.idle
  }

  function Percent(m: Measurement, c: Column): real {
    match c
    case User => m.userp
    case System => m.systemp
    case Idle => m.idlep
  }

  /** A row's percentage weighted with the total change that the row covers. */
  function Weighted(prev: Stats, curr: Stats, c: Column): real
    requires Advances(prev, curr)
  {
    (curr.total - prev.total) as real * Percent(NewCPUMeasurement(curr, prev), c)
  }

  function Rise(prev: Stats, curr: Stats, c: Column): int { Count(curr, c) as int - Count(prev, c) as int }

  /** That is 100 times the change of the counter. */
  lemma RowShare(prev: Stats, curr: Stats, c: Column)
    requires Advances(prev, curr)
    ensures Weighted(prev, curr, c) == 100.0 * Rise(prev, curr, c) as real
  {
    Sub64Exact(curr.total, prev.total);
    Sub64Exact(Count(curr, c), Count(prev, c));
    TimesTotal(Sub64(Count(curr, c), Count(prev, c)) as real, Sub64(curr.total, prev.total) as real);
  }

  predicate AllAdvance(samples: seq<Stats>) {
    forall k :: 0 <= k < |samples| - 1 ==> Advances(samples[k], samples[k + 1])
  }

  /** The weighted percentage of every row: one row for each sample but the first. */
  function WeightedRows(samples: seq<Stats>, c: Column): (rows: seq<real>)
    requires samples != [] && AllAdvance(samples)
    ensures |rows| == |samples| - 1
    ensures forall k :: 0 <= k < |rows| ==> rows[k] == Weighted(samples[k], samples[k + 1], c)
  {
    seq(|samples| - 1, k requires 0 <= k < |samples| - 1 => Weighted(samples[k], samples[k + 1], c))
  }

  function Total(rows: seq<real>): real {
    if rows == [] then 0.0 else Total(rows[..|rows| - 1]) + rows[|rows| - 1]
  }

  lemma {:induction false} RisesTelescope(rows: seq<real>, samples: seq<Stats>, c: Column)
    requires |samples| == |rows| + 1
    requires forall k :: 0 <= k < |rows| ==> rows[k] == 100.0 * Rise(samples[k], samples[k + 1], c) as real
    ensures Total(rows) == 100.0 * Rise(samples[0], samples[|rows|], c) as real
  {
    if rows != [] {
      var n := |rows| - 1;
      RisesTelescope(rows[..n], samples[..n + 1], c);
    }
  }

  /** Over any sequence of samples the weighted percentages add up to the overall change of the counter. */
  lemma PercentagesTelescope(samples: seq<Stats>, c: Column)
    requires samples != [] && AllAdvance(samples)
    ensures Total(WeightedRows(samples, c)) == 100.0 * Rise(samples[0], samples[|samples| - 1], c) as real
  {
    var rows := WeightedRows(samples, c);
    forall k | 0 <= k < |rows|
      ensures rows[k] == 100.0 * Rise(samples[k], samples[k + 1], c) as real
    {
      RowShare(samples[k], samples[k + 1], c);
    }
    RisesTelescope(rows, samples, c);
  }

  lemma Ratio(a: real, t: real)
    requires t > 0.0 && 0.0 <= a <= t
    ensures 0.0 <= a / t <= 1.0
  {
  }

  lemma RatioSum(a: real, b: real, c: real, t: real)
    requires t > 0.0
    ensures a / t + b / t + c / t == (a + b + c) / t
  {
  }

  lemma PercentIs(prev: Stats, curr: Stats, c: Column)
    requires Advances(prev, curr)
    ensures Percent(NewCPUMeasurement(curr, prev), c) ==
      (Rise(prev, curr, c) as real / (curr.total - prev.total) as real) * 100.0
  {
    Sub64Exact(curr.total, prev.total);
    Sub64Exact(Count(curr, c), Count(prev, c));
  }

  lemma ThreeShares(u: real, s: real, i: real, t: real)
    requires t > 0.0 && u >= 0.0 && s >= 0.0 && i >= 0.0 && u + s + i <= t
    ensures 0.0 <= (u / t) * 100.0 <= 100.0 && 0.0 <= (s / t) * 100.0 <= 100.0 && 0.0 <= (i / t) * 100.0 <= 100.0
    ensures (u / t) * 100.0 + (s / t) * 100.0 + (i / t) * 100.0 <= 100.0
  {
    Ratio(u, t);
    Ratio(s, t);
    Ratio(i, t);
    RatioSum(u, s, i, t);
    Ratio(u + s + i, t);
  }

  /** Each percentage lies between 0 and 100, and together they stay below 100, when the parts stay within the total. */
  lemma RowBounds(prev: Stats, curr: Stats)
    requires Advances(prev, curr)
    requires Rise(prev, curr, User) + Rise(prev, curr, System) + Rise(prev, curr, Idle) <=
             (curr.total - prev.total) as int
    ensures var m := NewCPUMeasurement(curr, prev);
      && 0.0 <= m.userp <= 100.0 && 0.0 <= m.systemp <= 100.0 && 0.0 <= m.idlep <= 100.0
      && m.userp + m.systemp + m.idlep <= 100.0
  {
    var m := NewCPUMeasurement(curr, prev);
    PercentIs(prev, curr, User);
    PercentIs(prev, curr, System);
    PercentIs(prev, curr, Idle);
    ThreeShares(Rise(prev, curr, User) as real, Rise(prev, curr, System) as real, Rise(prev, curr, Idle) as real,
                (curr.total - prev.total) as real);
  }
}
