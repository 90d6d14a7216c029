/** Network traffic between samples, from counters that wrap at 2^64. */
module Network {
  import opened Prelude
  import opened Decimal

  datatype Stat = Stat(name: string, rx: uint64, tx: uint64)

  datatype Traffic = Traffic(rx: uint64, tx: uint64)

  /** Go's subtraction of uint64 values. */
  function Sub64(a: uint64, b: uint64): uint64 {
    (a as int - b as int) % TWO_TO_THE_64
  }

  lemma Sub64Exact(a: uint64, b: uint64)
    ensures Sub64(a, b) as int == a as int - b as int + if a < b then TWO_TO_THE_64 else 0
  {
  }

  /** The last entry of a sample that has the name. */
  ghost predicate LastAt(sample: seq<Stat>, name: string, k: nat) {
    k < |sample| && sample[k].name == name && forall j :: k < j < |sample| ==> sample[j].name != name
  }

  function Last(sample: seq<Stat>, name: string): (r: Option<nat>)
    ensures r.Some? ==> r.value < |sample|
  {
    if sample == [] then None
    else if sample[|sample| - 1].name == name then Some(|sample| - 1)
    else Last(sample[..|sample| - 1], name)
  }

  lemma {:induction false} LastIs(sample: seq<Stat>, name: string)
    ensures Last(sample, name).Some? ==> LastAt(sample, name, Last(sample, name).value)
    ensures Last(sample, name).None? ==> forall k :: 0 <= k < |sample| ==> sample[k].name != name
    ensures forall k: nat :: LastAt(sample, name, k) ==> Last(sample, name) == Some(k)
  {
    if sample != [] {
      var before := sample[..|sample| - 1];
      LastIs(before, name);
      assert forall k :: 0 <= k < |before| ==> sample[k] == before[k];
      forall k: nat | LastAt(sample, name, k) && k < |before|
        ensures LastAt(before, name, k)
      {
      }
    }
  }

  /** The interfaces of the sample, each with what its last entry says was received and transmitted. */
  ghost predicate IsMapOf(m: map<string, Traffic>, sample: seq<Stat>) {
    && (forall name :: name in m ==> exists k: nat :: LastAt(sample, name, k))
    && (forall k :: 0 <= k < |sample| ==> sample[k].name in m)
    && forall name, k: nat :: LastAt(sample, name, k) ==>
         name in m && m[name].rx == sample[k].rx && m[name].tx == sample[k].tx
  }

  method ToMap(measurement: seq<Stat>) returns (res: map<string, Traffic>)
    ensures IsMapOf(res, measurement)
  {
    res := map[];
    for i := 0 to |measurement|
      invariant IsMapOf(res, measurement[..i])
    {
      var s := measurement[i];
      OneMoreEntry(res, measurement, i);
      res := res[s.name := Traffic(s.rx, s.tx)];
    }
    assert measurement[..|measurement|] == measurement;
  }

  /** One more entry is the last of its name, and the others stay. */
  lemma LastMoves(sample: seq<Stat>, i: nat, name: string, k: nat)
    requires i < |sample|
    ensures LastAt(sample[..i + 1], name, k) <==>
            if name == sample[i].name then k == i else LastAt(sample[..i], name, k)
  {
    var before, after := sample[..i], sample[..i + 1];
    assert forall j :: 0 <= j < i ==> before[j] == after[j];
    assert after[i] == sample[i];
  }

  lemma OneMoreEntry(m: map<string, Traffic>, sample: seq<Stat>, i: nat)
    requires i < |sample| && IsMapOf(m, sample[..i])
    ensures IsMapOf(m[sample[i].name := Traffic(sample[i].rx, sample[i].tx)], sample[..i + 1])
  {
    var before, after := sample[..i], sample[..i + 1];
    var m' := m[sample[i].name := Traffic(sample[i].rx, sample[i].tx)];
    forall name, k: nat | LastAt(after, name, k)
      ensures name in m' && m'[name].rx == after[k].rx && m'[name].tx == after[k].tx
    {
      LastMoves(sample, i, name, k);
    }
    forall name | name in m'
      ensures exists k: nat :: LastAt(after, name, k)
    {
      if name == sample[i].name {
        LastMoves(sample, i, name, i);
      } else {
        var k: nat :| LastAt(before, name, k);
        LastMoves(sample, i, name, k);
      }
    }
    forall k | 0 <= k < |after|
      ensures after[k].name in m'
    {
      assert k < i ==> before[k] == after[k];
    }
  }

  /** What one interface gets a row for, or None when it gets none. */
  function Change(curr: seq<Stat>, prev: seq<Stat>, name: string): Option<Traffic> {
    match (Last(curr, name), Last(prev, name))
    case (None, _) => None
    case (Some(k), None) => Some(Traffic(curr[k].rx, curr[k].tx))
    case (Some(k), Some(j)) =>
      if curr[k].rx == prev[j].rx && curr[k].tx == prev[j].tx then None
      else Some(Traffic(Sub64(curr[k].rx, prev[j].rx), Sub64(curr[k].tx, prev[j].tx)))
  }

  ghost predicate IsDifference(m: map<string, Traffic>, curr: seq<Stat>, prev: seq<Stat>) {
    forall name :: Change(curr, prev, name) == if name in m then Some(m[name]) else None
  }

  /** A row for every interface of the sample whose counters moved or that is new; the change is right modulo 2^64. */
  lemma ChangeIs(m: map<string, Traffic>, curr: seq<Stat>, prev: seq<Stat>, name: string, k: nat)
    requires IsDifference(m, curr, prev) && LastAt(curr, name, k)
    ensures (forall j :: 0 <= j < |prev| ==> prev[j].name != name) ==>
      name in m && m[name].rx == curr[k].rx && m[name].tx == curr[k].tx
    ensures forall j: nat :: LastAt(prev, name, j) ==>
      && (name in m <==> curr[k].rx != prev[j].rx || curr[k].tx != prev[j].tx)
      && (name in m ==>
            && (m[name].rx + prev[j].rx - curr[k].rx) % TWO_TO_THE_64 == 0
            && (m[name].tx + prev[j].tx - curr[k].tx) % TWO_TO_THE_64 == 0)
  {
    assert Change(curr, prev, name) == if name in m then Some(m[name]) else None;
    LastIs(curr, name);
    LastIs(prev, name);
    forall j: nat | LastAt(prev, name, j) && name in m
      ensures (m[name].rx + prev[j].rx - curr[k].rx) % TWO_TO_THE_64 == 0
      ensures (m[name].tx + prev[j].tx - curr[k].tx) % TWO_TO_THE_64 == 0
    {
      Sub64Exact(curr[k].rx, prev[j].rx);
      Sub64Exact(curr[k].tx, prev[j].tx);
    }
  }

  /** What the two maps say of an interface is what the samples say. */
  ghost function MapChange(curr: map<string, Traffic>, prev: map<string, Traffic>, name: string): Option<Traffic> {
    if name !in curr then None
    else if name !in prev then Some(curr[name])
    else
      var d := Traffic(Sub64(curr[name].rx, prev[name].rx), Sub64(curr[name].tx, prev[name].tx));
      if d == Traffic(0, 0) then None else Some(d)
  }

  lemma SubZero(a: uint64, b: uint64)
    ensures Sub64(a, b) == 0 <==> a == b
  {
    Sub64Exact(a, b);
  }

  lemma MapsSay(c: map<string, Traffic>, p: map<string, Traffic>, curr: seq<Stat>, prev: seq<Stat>, name: string)
    requires IsMapOf(c, curr) && IsMapOf(p, prev)
    ensures MapChange(c, p, name) == Change(curr, prev, name)
  {
    LastIs(curr, name);
    LastIs(prev, name);
    match (Last(curr, name), Last(prev, name))
    case (Some(k), Some(j)) =>
      SubZero(curr[k].rx, prev[j].rx);
      SubZero(curr[k].tx, prev[j].tx);
    case _ =>
  }

  method NewNetworkMeasurement(current: seq<Stat>, previous: seq<Stat>) returns (m: map<string, Traffic>)
    ensures IsDifference(m, current, previous)
  {
    var curr := ToMap(current);
    var prev := ToMap(previous);
    m := map[];
    var todo := curr.Keys;
    while todo != {}
      invariant todo <= curr.Keys
      invariant forall name :: name in m ==> name in curr && name !in todo
      invariant forall name :: name !in todo ==>
        MapChange(curr, prev, name) == if name in m then Some(m[name]) else None
      decreases |todo|
    {
      var name :| name in todo;
      var vals := curr[name];
      if name in prev {
        var rxDiff, txDiff := Sub64(vals.rx, prev[name].rx), Sub64(vals.tx, prev[name].tx);
        if rxDiff != 0 || txDiff != 0 {
          m := m[name := Traffic(rxDiff, txDiff)];
        }
      } else {
        m := m[name := vals];
      }
      todo := todo - {name};
    }
    forall name
      ensures Change(current, previous, name) == if name in m then Some(m[name]) else None
    {
      MapsSay(curr, prev, current, previous, name);
    }
  }

  // ----- Records -----

  type Record = seq<string>

  function RecordOf(timestamp: int64, name: string, t: Traffic): Record {
    [FormatInt(timestamp), name, FormatInt(t.rx), FormatInt(t.tx)]
  }

  /** One record for each interface, in whatever order the map is ranged over. */
  ghost predicate AreRecords(res: seq<Record>, timestamp: int64, m: map<string, Traffic>, names: seq<string>) {
    && NoDup(names) && |res| == |names| && (forall name :: name in names <==> name in m)
    && forall i :: 0 <= i < |names| ==> res[i] == RecordOf(timestamp, names[i], m[names[i]])
  }

  method Records(timestamp: int64, m: map<string, Traffic>) returns (res: seq<Record>, ghost names: seq<string>)
    ensures |res| == |m|
    ensures AreRecords(res, timestamp, m, names)
  {
    var slots := new Record[|m|];
    names := [];
    var todo := m.Keys;
    var i := 0;
    while todo != {}
      invariant 0 <= i <= slots.Length == |m| && i + |todo| == |m| && todo <= m.Keys
      invariant |names| == i && NoDup(names) && forall name :: name in names <==> name in m && name !in todo
      invariant forall k :: 0 <= k < i ==> slots[k] == RecordOf(timestamp, names[k], m[names[k]])
      decreases |todo|
    {
      var name :| name in todo;
      slots[i] := [FormatInt(timestamp), name, FormatInt(m[name].rx), FormatInt(m[name].tx)];
      names := names + [name];
      todo := todo - {name};
      i := i + 1;
    }
    res := slots[..];
  }
}
