/** The bounded measurement buffer: filled slot by slot, flushed into a new file when the next store finds it full. */
module Buffering {
  import opened Prelude
  import opened Decimal
  import opened Text
  import opened FileSystem

  const ZERO: Row := Row(0, 0)
  const TITLES: string := "tProducer, tConsumer"

  function DumpLine(r: Row): string {
    FormatInt(r.tProducer) + ", " + FormatInt(r.tConsumer)
  }

  /** The measurements before the first (0,0), which is how a flush recognises an unused slot. */
  function UntilZero(ms: seq<Row>): (r: seq<Row>)
    ensures r <= ms && ZERO !in r
    ensures |r| < |ms| ==> ms[|r|] == ZERO
  {
    if ms == [] || ms[0] == ZERO then [] else [ms[0]] + UntilZero(ms[1..])
  }

  function DumpLines(ms: seq<Row>): (lines: seq<string>)
    ensures |lines| == |ms| && forall i :: 0 <= i < |ms| ==> lines[i] == DumpLine(ms[i])
  {
    seq(|ms|, i requires 0 <= i < |ms| => DumpLine(ms[i]))
  }

  function DumpText(ms: seq<Row>): string {
    Unlines([TITLES] + DumpLines(UntilZero(ms)))
  }

  function DumpName(id: string, worker: string, k: nat): string {
    id + "-" + worker + "-dump-" + Dec(k) + ".csv"
  }

  function FlushName(id: string, worker: string, k: nat): string {
    id + "-" + worker + "-flush-" + Dec(k) + ".csv"
  }

  lemma UntilZeroEnds(ms: seq<Row>, i: nat)
    requires i <= |ms| && (forall k :: 0 <= k < i ==> ms[k] != ZERO) && (i < |ms| ==> ms[i] == ZERO)
    ensures UntilZero(ms) == ms[..i]
  {
    var u := UntilZero(ms);
    assert forall k :: 0 <= k < |u| ==> u[k] in u && ms[k] == u[k];
  }

  /** Unused slots are invisible in the file. */
  lemma UntilZeroPadded(ms: seq<Row>, n: nat)
    requires n <= |ms| && forall k :: n <= k < |ms| ==> ms[k] == ZERO
    ensures UntilZero(ms) == UntilZero(ms[..n])
  {
    var u := UntilZero(ms[..n]);
    assert forall k :: 0 <= k < |u| ==> u[k] in u && ms[k] == u[k];
    UntilZeroEnds(ms, |u|);
  }

  function DumpPrefix(ms: seq<Row>, i: nat): string
    requires i <= |ms|
  {
    Unlines([TITLES] + DumpLines(ms[..i]))
  }

  lemma NoLine(ms: seq<Row>)
    ensures DumpPrefix(ms, 0) == TITLES + "\n"
  {
    assert [TITLES] + DumpLines(ms[..0]) == [TITLES];
    UnlinesOne(TITLES);
  }

  lemma OneMoreLine(ms: seq<Row>, i: nat)
    requires i < |ms|
    ensures DumpPrefix(ms, i + 1) == DumpPrefix(ms, i) + (DumpLine(ms[i]) + "\n")
  {
    var lines, more := DumpLines(ms[..i]), DumpLines(ms[..i + 1]);
    assert more == lines + [DumpLine(ms[i])];
    assert [TITLES] + more == ([TITLES] + lines) + [DumpLine(ms[i])];
    UnlinesAdd([TITLES] + lines, DumpLine(ms[i]));
  }

  lemma DumpEnds(ms: seq<Row>, i: nat)
    requires i <= |ms| && (forall k :: 0 <= k < i ==> ms[k] != ZERO) && (i < |ms| ==> ms[i] == ZERO)
    ensures DumpPrefix(ms, i) == DumpText(ms)
  {
    UntilZeroEnds(ms, i);
  }

  lemma WriteTitles(disk: Disk, file: Path, ms: seq<Row>)
    ensures file in Put(disk, file, "").files
    ensures Append(Put(disk, file, ""), file, TITLES + "\n") == Put(disk, file, DumpPrefix(ms, 0))
  {
    AppendToPut(disk, file, "", TITLES + "\n");
    NoLine(ms);
    assert "" + (TITLES + "\n") == TITLES + "\n";
  }

  lemma WriteOneMore(disk: Disk, file: Path, ms: seq<Row>, i: nat)
    requires i < |ms|
    ensures file in Put(disk, file, DumpPrefix(ms, i)).files
    ensures Append(Put(disk, file, DumpPrefix(ms, i)), file, DumpLine(ms[i]) + "\n") ==
            Put(disk, file, DumpPrefix(ms, i + 1))
  {
    AppendToPut(disk, file, DumpPrefix(ms, i), DumpLine(ms[i]) + "\n");
    OneMoreLine(ms, i);
  }

  /** Line after line, up to the first unused slot; `after(i)` is the disk after `i` lines. */
  method WriteUsed(slots: array<Row>, file: Path, disk: Disk, ghost after: nat -> Disk)
    returns (d: Disk, ghost n: nat)
    requires disk == after(0)
    requires forall i: nat :: i < slots.Length ==> NextLine(after(i), after(i + 1), file, slots[i])
    ensures d == after(n) && n <= slots.Length && (n < slots.Length ==> slots[n] == ZERO)
    ensures forall k :: 0 <= k < n ==> slots[k] != ZERO
  {
    d := disk;
    var i := 0;
    while i < slots.Length
      invariant 0 <= i <= slots.Length && d == after(i)
      invariant forall k :: 0 <= k < i ==> slots[k] != ZERO
    {
      var measurement := slots[i];
      if measurement.tProducer == 0 && measurement.tConsumer == 0 {
        break;
      }
      assert NextLine(after(i), after(i + 1), file, slots[i]);
      d := Append(d, file, DumpLine(measurement) + "\n");
      i := i + 1;
    }
    n := i;
  }

  predicate NextLine(d: Disk, e: Disk, file: Path, m: Row) {
    file in d.files && Append(d, file, DumpLine(m) + "\n") == e
  }

  /** The column titles and then the slots up to the first unused one, written line by line. */
  method WriteSlots(slots: array<Row>, file: Path, disk: Disk) returns (d: Disk)
    requires CanCreate(disk, file)
    ensures d == Put(disk, file, DumpText(slots[..]))
  {
    ghost var ms := slots[..];
    ghost var after := (i: nat) => if i <= |ms| then Put(disk, file, DumpPrefix(ms, i)) else disk;
    var created := Create(disk, file).value;
    WriteTitles(disk, file, ms);
    d := Append(created, file, TITLES + "\n");
    forall i: nat | i < |ms|
      ensures NextLine(after(i), after(i + 1), file, ms[i])
    {
      WriteOneMore(disk, file, ms, i);
    }
    ghost var n;
    d, n := WriteUsed(slots, file, d, after);
    DumpEnds(ms, n);
  }

  class Buffer {
    var slots: array<Row>
    var size: nat
    var ptr: nat
    var nFlush: nat

    ghost predicate Valid()
      reads this, slots
    {
      && slots.Length == size
      && ptr <= size
      && forall k :: ptr <= k < size ==> slots[k] == ZERO
    }

    ghost function Contents(): seq<Row>
      requires Valid()
      reads this, slots
    {
      slots[..ptr]
    }

    constructor (size: nat)
      ensures Valid() && fresh(slots)
      ensures this.size == size && nFlush == 0 && Contents() == []
    {
      this.size := size;
      ptr := 0;
      nFlush := 0;
      slots := new Row[size](_ => ZERO);
    }

    /** Writes the used slots to a new file and starts over with empty ones. */
    method Flush(dir: string, filename: string, disk: Disk) returns (r: Result<Disk>)
      requires Valid()
      modifies this
      ensures Valid() && size == old(size) && (slots == old(slots) || fresh(slots))
      ensures r.Ok? <==> CanCreate(disk, Path(dir, filename))
      ensures r.Ok? ==>
        && r.value == Put(disk, Path(dir, filename), DumpText(old(Contents())))
        && Contents() == [] && nFlush == old(nFlush) + 1
      ensures r.Err? ==> slots == old(slots) && ptr == old(ptr) && nFlush == old(nFlush)
    {
      var file := Path(dir, filename);
      if !CanCreate(disk, file) {
        return Err("cannot create file");
      }
      UntilZeroPadded(slots[..], ptr);
      assert slots[..][..ptr] == Contents();
      var d := WriteSlots(slots, file, disk);
      slots := new Row[size](_ => ZERO);
      nFlush := nFlush + 1;
      ptr := 0;
      r := Ok(d);
    }

    /** Stores one measurement; a full buffer is flushed first. */
    method Store(id: string, worker: string, dir: string, m: Row, disk: Disk) returns (r: Result<Disk>)
      requires Valid()
      modifies this, slots
      ensures Valid() && size == old(size) && (slots == old(slots) || fresh(slots))
      ensures size == 0 ==> r.Err?
      ensures size > 0 && old(ptr) < size ==>
        r == Ok(disk) && Contents() == old(Contents()) + [m] && nFlush == old(nFlush)
      ensures size > 0 && old(ptr) == size ==>
        var file := Path(dir, DumpName(id, worker, old(nFlush)));
        && (r.Ok? <==> CanCreate(disk, file))
        && (r.Ok? ==> r.value == Put(disk, file, DumpText(old(Contents())))
                      && Contents() == [m] && nFlush == old(nFlush) + 1)
      ensures r.Err? ==> Contents() == old(Contents()) && nFlush == old(nFlush)
    {
      if size == 0 {
        return Err("buffer has size 0, cannot store anything");
      }
      var d := disk;
      if ptr >= size {
        var flushed := Flush(dir, DumpName(id, worker, nFlush), disk);
        if flushed.Err? {
          return flushed;
        }
        d := flushed.value;
      }
      slots[ptr] := m;
      ptr := ptr + 1;
      r := Ok(d);
    }

    /** Flushes what is left; an empty buffer leaves no file. */
    method Close(id: string, worker: string, dir: string, disk: Disk) returns (r: Result<Disk>)
      requires Valid()
      modifies this
      ensures Valid() && size == old(size)
      ensures old(ptr) == 0 ==> r == Ok(disk)
      ensures old(ptr) != 0 ==>
        var file := Path(dir, FlushName(id, worker, old(nFlush)));
        && (r.Ok? <==> CanCreate(disk, file))
        && (r.Ok? ==> r.value == Put(disk, file, DumpText(old(Contents()))) && Contents() == [])
    {
      r := Ok(disk);
      if ptr != 0 {
        r := Flush(dir, FlushName(id, worker, nFlush), disk);
      }
    }
  }
}
