/** The buffer's files, read back in flush order, are the sequence that was stored. */
module BufferLog {
  import opened Prelude
  import opened Decimal
  import opened Text
  import opened FileSystem
  import opened Buffering
  import RunNames

  // ----- What a sequence of stores leaves in the files and in the buffer -----

  /** Blocks already flushed, and the block still in the buffer. */
  datatype Log = Log(full: seq<seq<Row>>, last: seq<Row>)

  function LogOf(ms: seq<Row>, size: nat): Log {
    if ms == [] then Log([], [])
    else
      var before, m := LogOf(ms[..|ms| - 1], size), ms[|ms| - 1];
      if |before.last| == size then Log(before.full + [before.last], [m])
      else Log(before.full, before.last + [m])
  }

  lemma {:induction false} LogFlattens(ms: seq<Row>, size: nat)
    ensures Flatten(LogOf(ms, size).full) + LogOf(ms, size).last == ms
  {
    if ms != [] {
      var n := |ms| - 1;
      LogFlattens(ms[..n], size);
      var before, log := LogOf(ms[..n], size), LogOf(ms, size);
      assert ms == ms[..n] + [ms[n]];
      if |before.last| == size {
        assert log.full[..|before.full|] == before.full;
      } else {
        assert Flatten(before.full) + (before.last + [ms[n]]) == (Flatten(before.full) + before.last) + [ms[n]];
      }
    }
  }

  lemma {:induction false} LogCounts(ms: seq<Row>, size: nat)
    requires size > 0
    ensures var log := LogOf(ms, size);
      && (forall k :: 0 <= k < |log.full| ==> |log.full[k]| == size)
      && |ms| == size * |log.full| + |log.last|
      && |log.last| <= size && (ms != [] ==> log.last != []) && (ms == [] ==> log.full == [])
  {
    if ms != [] {
      var n := |ms| - 1;
      LogCounts(ms[..n], size);
      var before := LogOf(ms[..n], size);
      assert size * (|before.full| + 1) == size * |before.full| + size;
    }
  }

  /** After n >= 1 stores, (n-1)/size blocks are full and the last one has between 1 and size measurements. */
  lemma ClosedForm(ms: seq<Row>, size: nat)
    requires size > 0 && ms != []
    ensures var log := LogOf(ms, size);
      && |log.full| == (|ms| - 1) / size
      && |log.last| == |ms| - size * ((|ms| - 1) / size)
      && 1 <= |log.last| <= size
  {
    LogCounts(ms, size);
    var log := LogOf(ms, size);
    DivideUnique(|ms| - 1, size, |log.full|, |log.last| - 1);
  }

  lemma DivideUnique(n: nat, d: nat, q: nat, r: nat)
    requires d > 0 && n == d * q + r && r < d
    ensures n / d == q
  {
    var p := n / d;
    assert d * (p + 1) == d * p + d;
    assert d * (q + 1) == d * q + d;
    if p < q {
      Multiply(p + 1, q, d);
    } else if q < p {
      Multiply(q + 1, p, d);
    }
  }

  // ----- The files -----

  function Dumped(disk: Disk, dir: string, id: string, worker: string, full: seq<seq<Row>>): (d: Disk)
    ensures d.dirs == disk.dirs
  {
    if full == [] then disk
    else
      var n := |full| - 1;
      Put(Dumped(disk, dir, id, worker, full[..n]), Path(dir, DumpName(id, worker, n)), DumpText(full[n]))
  }

  function Closed(disk: Disk, dir: string, id: string, worker: string, log: Log): Disk {
    var d := Dumped(disk, dir, id, worker, log.full);
    if log.last == [] then d
    else Put(d, Path(dir, FlushName(id, worker, |log.full|)), DumpText(log.last))
  }

  function DumpPath(dir: string, id: string, worker: string, k: nat): Path { Path(dir, DumpName(id, worker, k)) }

  function FlushPath(dir: string, id: string, worker: string, k: nat): Path { Path(dir, FlushName(id, worker, k)) }

  /** The first `n` dumps can be created. */
  ghost predicate DumpsUsable(disk: Disk, dir: string, id: string, worker: string, n: nat) {
    forall k: nat :: k < n ==> CanCreate(disk, DumpPath(dir, id, worker, k))
  }

  /** All the files that the log calls for can be created. */
  ghost predicate Usable(disk: Disk, dir: string, id: string, worker: string, log: Log) {
    && DumpsUsable(disk, dir, id, worker, |log.full|)
    && (log.last != [] ==> CanCreate(disk, FlushPath(dir, id, worker, |log.full|)))
  }

  /** A log that goes on keeps its full blocks. */
  lemma {:induction false} FullStays(ms: seq<Row>, i: nat, size: nat)
    requires i <= |ms|
    ensures LogOf(ms[..i], size).full <= LogOf(ms, size).full
  {
    if i < |ms| {
      var n := |ms| - 1;
      FullStays(ms[..n], i, size);
      assert ms[..n][..i] == ms[..i];
    } else {
      assert ms[..i] == ms;
    }
  }

  lemma LogNext(disk: Disk, dir: string, id: string, worker: string, ms: seq<Row>, i: nat, size: nat)
    requires i < |ms|
    ensures var before, after := LogOf(ms[..i], size), LogOf(ms[..i + 1], size);
      if |before.last| == size then
        && after.last == [ms[i]] && |after.full| == |before.full| + 1
        && Dumped(disk, dir, id, worker, after.full) ==
             Put(Dumped(disk, dir, id, worker, before.full),
                 Path(dir, DumpName(id, worker, |before.full|)), DumpText(before.last))
      else after.last == before.last + [ms[i]] && after.full == before.full
  {
    assert ms[..i + 1][..i] == ms[..i];
    var before := LogOf(ms[..i], size);
    assert (before.full + [before.last])[..|before.full|] == before.full;
  }

  /** Buffer and disk are what the log of the stores so far says. */
  ghost predicate Follows(buffer: Buffer, d: Disk, disk: Disk, dir: string, id: string, worker: string, log: Log)
    reads buffer, buffer.slots
  {
    && buffer.Valid()
    && d == Dumped(disk, dir, id, worker, log.full) && DumpsUsable(disk, dir, id, worker, |log.full|)
    && buffer.Contents() == log.last && buffer.nFlush == |log.full|
  }

  method StoreNext(buffer: Buffer, id: string, worker: string, dir: string,
                   ms: seq<Row>, i: nat, d: Disk, ghost disk: Disk)
    returns (r: Result<Disk>)
    requires i < |ms| && buffer.size > 0
    requires Follows(buffer, d, disk, dir, id, worker, LogOf(ms[..i], buffer.size))
    modifies buffer, buffer.slots
    ensures buffer.size == old(buffer.size) && (buffer.slots == old(buffer.slots) || fresh(buffer.slots))
    ensures r.Ok? <==> DumpsUsable(disk, dir, id, worker, |LogOf(ms[..i + 1], buffer.size).full|)
    ensures r.Ok? ==> Follows(buffer, r.value, disk, dir, id, worker, LogOf(ms[..i + 1], buffer.size))
  {
    LogNext(disk, dir, id, worker, ms, i, buffer.size);
    DumpsUsableNext(disk, d, dir, id, worker, |LogOf(ms[..i], buffer.size).full|);
    assert |buffer.Contents()| == buffer.ptr;
    r := buffer.Store(id, worker, dir, ms[i], d);
  }

  lemma DumpsUsableNext(disk: Disk, d: Disk, dir: string, id: string, worker: string, n: nat)
    requires d.dirs == disk.dirs && DumpsUsable(disk, dir, id, worker, n)
    ensures DumpsUsable(disk, dir, id, worker, n + 1) <==> CanCreate(d, Path(dir, DumpName(id, worker, n)))
  {
    assert CanCreate(disk, DumpPath(dir, id, worker, n)) == CanCreate(d, Path(dir, DumpName(id, worker, n)));
  }

  /**
   * One store for each event, up to the first that needs a file that cannot be created. After n >= 1 stores, nFlush is
   * (n-1)/size, and ptr is n - size*nFlush, which lies between 1 and size.
   */
  method StoreAll(buffer: Buffer, id: string, worker: string, dir: string, events: seq<Row>, disk: Disk)
    returns (r: Result<Disk>)
    requires buffer.Valid() && buffer.size > 0 && buffer.Contents() == [] && buffer.nFlush == 0
    modifies buffer, buffer.slots
    ensures buffer.size == old(buffer.size) && (buffer.slots == old(buffer.slots) || fresh(buffer.slots))
    ensures r.Ok? <==> DumpsUsable(disk, dir, id, worker, |LogOf(events, buffer.size).full|)
    ensures r.Ok? ==> Follows(buffer, r.value, disk, dir, id, worker, LogOf(events, buffer.size))
    ensures r.Ok? && events != [] ==>
      && buffer.nFlush == (|events| - 1) / buffer.size
      && buffer.ptr == |events| - buffer.size * buffer.nFlush && 1 <= buffer.ptr <= buffer.size
  {
    r := Ok(disk);
    assert events[..0] == [];
    for i := 0 to |events|
      invariant buffer.size == old(buffer.size) && r.Ok?
      invariant buffer.slots == old(buffer.slots) || fresh(buffer.slots)
      invariant Follows(buffer, r.value, disk, dir, id, worker, LogOf(events[..i], buffer.size))
    {
      r := StoreNext(buffer, id, worker, dir, events, i, r.value, disk);
      if r.Err? {
        FullStays(events, i + 1, buffer.size);
        return;
      }
    }
    assert events[..|events|] == events;
    if events != [] {
      ClosedForm(events, buffer.size);
    }
  }

  /** The worker's loop and what follows it once `stop` is seen: the stores and the close. */
  method RecordAll(size: nat, id: string, worker: string, dir: string, events: seq<Row>, disk: Disk)
    returns (r: Result<Disk>)
    ensures size == 0 ==> r == if events == [] then Ok(disk) else Err("buffer has size 0, cannot store anything")
    ensures size > 0 ==> (r.Ok? <==> Usable(disk, dir, id, worker, LogOf(events, size)))
    ensures size > 0 && r.Ok? ==> r.value == Closed(disk, dir, id, worker, LogOf(events, size))
  {
    var buffer := new Buffer(size);
    if size == 0 {
      // the first store reports the error, and the worker panics
      return if events == [] then Ok(disk) else Err("buffer has size 0, cannot store anything");
    }
    r := StoreAll(buffer, id, worker, dir, events, disk);
    if r.Ok? {
      r := buffer.Close(id, worker, dir, r.value);
    }
  }

  // ----- How many files there are -----

  function DumpPaths(dir: string, id: string, worker: string, n: nat): (ps: seq<Path>)
    ensures |ps| == n && forall k :: 0 <= k < n ==> ps[k] == DumpPath(dir, id, worker, k)
  {
    if n == 0 then [] else DumpPaths(dir, id, worker, n - 1) + [DumpPath(dir, id, worker, n - 1)]
  }

  /** The files of a log: one for each full block, and one for the last block if there is any. */
  function LogPaths(dir: string, id: string, worker: string, log: Log): seq<Path> {
    DumpPaths(dir, id, worker, |log.full|) + if log.last == [] then [] else [FlushPath(dir, id, worker, |log.full|)]
  }

  lemma {:induction false} DumpedFiles(disk: Disk, dir: string, id: string, worker: string, full: seq<seq<Row>>)
    ensures forall q :: q in Dumped(disk, dir, id, worker, full).files <==>
              q in disk.files || q in DumpPaths(dir, id, worker, |full|)
  {
    if full != [] {
      DumpedFiles(disk, dir, id, worker, full[..|full| - 1]);
    }
  }

  lemma LogPathsDistinct(dir: string, id: string, worker: string, log: Log)
    ensures NoDup(LogPaths(dir, id, worker, log))
  {
    var ps, n := LogPaths(dir, id, worker, log), |log.full|;
    forall i, j | 0 <= i < j < |ps|
      ensures ps[i] != ps[j]
    {
      if j < n {
        if DumpName(id, worker, i) == DumpName(id, worker, j) {
          DumpNameInjective(id, worker, i, j);
        }
      } else {
        NamesApart(id, worker, i, n);
      }
    }
  }

  lemma RoundUp(n: nat, size: nat, q: nat)
    requires size > 0 && n > 0 && q == (n - 1) / size
    ensures (n + size - 1) / size == q + 1
  {
    var r := (n - 1) % size;
    assert n - 1 == size * q + r;
    assert size * (q + 1) == size * q + size;
    DivideUnique(n + size - 1, size, q + 1, r);
  }

  /** n stores and a close leave ceil(n/size) different files, and no others that were not there. */
  lemma FilesCount(disk: Disk, dir: string, id: string, worker: string, ms: seq<Row>, size: nat)
    requires size > 0
    ensures var ps := LogPaths(dir, id, worker, LogOf(ms, size));
      && NoDup(ps) && |ps| == (|ms| + size - 1) / size
      && forall q :: q in Closed(disk, dir, id, worker, LogOf(ms, size)).files <==> q in disk.files || q in ps
  {
    LogPathsDistinct(dir, id, worker, LogOf(ms, size));
    ClosedFiles(disk, dir, id, worker, LogOf(ms, size));
    PathsCount(dir, id, worker, ms, size);
  }

  lemma ClosedFiles(disk: Disk, dir: string, id: string, worker: string, log: Log)
    ensures forall q :: q in Closed(disk, dir, id, worker, log).files <==>
              q in disk.files || q in LogPaths(dir, id, worker, log)
  {
    DumpedFiles(disk, dir, id, worker, log.full);
  }

  lemma PathsCount(dir: string, id: string, worker: string, ms: seq<Row>, size: nat)
    requires size > 0
    ensures |LogPaths(dir, id, worker, LogOf(ms, size))| == (|ms| + size - 1) / size
  {
    var log := LogOf(ms, size);
    LogCounts(ms, size);
    if ms == [] {
      DivideUnique(size - 1, size, 0, size - 1);
    } else {
      ClosedForm(ms, size);
      RoundUp(|ms|, size, |log.full|);
    }
  }

  // ----- Reading the files back -----

  function ParseDumpLine(line: string): Option<Row> {
    var n := CommaAt(line);
    if n + 1 >= |line| || line[n + 1] != ' ' then None else
      match (ParseInt(line[..n]), ParseInt(line[n + 2..]))
      case (Some(p), Some(c)) => Some(Row(p, c))
      case _ => None
  }

  function ReadDump(text: string): seq<Row> {
    ReadLines(Scan(text))
  }

  function ReadLines(lines: seq<string>): seq<Row> {
    if lines == [] then []
    else (if lines[0] == TITLES then [] else OptSeq(ParseDumpLine(lines[0]))) + ReadLines(lines[1..])
  }

  lemma DumpLineParts(p: string, c: string)
    requires ',' !in p && p != ""
    ensures var line := p + ", " + c;
      && CommaAt(line) == |p| && |p| + 1 < |line| && line[|p| + 1] == ' '
      && line[..|p|] == p && line[|p| + 2..] == c && line[0] == p[0]
  {
    CommaAfter(p, " " + c);
    assert p + "," + (" " + c) == p + ", " + c;
  }

  lemma ParseOfDumpLine(r: Row)
    ensures ParseDumpLine(DumpLine(r)) == Some(r)
    ensures DumpLine(r) != TITLES
  {
    var p, c := FormatInt(r.tProducer), FormatInt(r.tConsumer);
    NoComma(r.tProducer);
    DumpLineParts(p, c);
    ParseFormat(r.tProducer);
    ParseFormat(r.tConsumer);
    assert p[0] != 't' && TITLES[0] == 't';
  }

  lemma DumpLinePlain(r: Row)
    ensures Plain(DumpLine(r))
  {
    Int64Length(r.tProducer);
    Int64Length(r.tConsumer);
    NoComma(r.tProducer);
    NoComma(r.tConsumer);
  }

  lemma {:induction false} ReadDumpLines(ms: seq<Row>)
    ensures ReadLines(DumpLines(ms)) == ms
  {
    if ms != [] {
      assert DumpLines(ms)[1..] == DumpLines(ms[1..]);
      ReadDumpLines(ms[1..]);
      ParseOfDumpLine(ms[0]);
    }
  }

  lemma DumpLinesPlain(ms: seq<Row>)
    ensures forall l :: l in DumpLines(ms) ==> Plain(l)
  {
    forall l | l in DumpLines(ms)
      ensures Plain(l)
    {
      var i :| 0 <= i < |ms| && l == DumpLine(ms[i]);
      DumpLinePlain(ms[i]);
    }
  }

  lemma TitlesSkipped(lines: seq<string>)
    ensures ReadLines([TITLES] + lines) == ReadLines(lines)
  {
    assert ([TITLES] + lines)[1..] == lines;
  }

  lemma ScanTitled(lines: seq<string>)
    requires forall l :: l in lines ==> Plain(l)
    ensures Scan(Unlines([TITLES] + lines)) == [TITLES] + lines
  {
    assert |TITLES| == 20 && '\n' !in TITLES;
    assert Plain(TITLES);
    ScanUnlines([TITLES] + lines);
  }

  /** A dump read back is the block up to its first (0,0). */
  lemma ReadDumpText(ms: seq<Row>)
    ensures ReadDump(DumpText(ms)) == UntilZero(ms)
  {
    ReadDumpLines(UntilZero(ms));
    DumpLinesPlain(UntilZero(ms));
    ScanTitled(DumpLines(UntilZero(ms)));
    TitlesSkipped(DumpLines(UntilZero(ms)));
  }

  lemma CancelPrefix(a: string, b: string, c: string)
    requires a + b == a + c
    ensures b == c
  {
    assert (a + b)[|a|..] == b && (a + c)[|a|..] == c;
  }

  lemma DumpNameInjective(id: string, worker: string, j: nat, k: nat)
    requires DumpName(id, worker, j) == DumpName(id, worker, k)
    ensures j == k
  {
    var stem := id + "-" + worker + "-dump-";
    CancelSuffix(stem + Dec(j), stem + Dec(k), ".csv");
    CancelPrefix(stem, Dec(j), Dec(k));
    DecInjective(j, k);
  }

  lemma NamesApart(id: string, worker: string, j: nat, k: nat)
    ensures DumpName(id, worker, j) != FlushName(id, worker, k)
  {
    var n := |id + "-" + worker + "-"|;
    assert DumpName(id, worker, j)[n] == 'd' && FlushName(id, worker, k)[n] == 'f';
  }

  lemma {:induction false} DumpAt(disk: Disk, dir: string, id: string, worker: string, full: seq<seq<Row>>, k: nat)
    requires k < |full|
    ensures var files := Dumped(disk, dir, id, worker, full).files;
      Path(dir, DumpName(id, worker, k)) in files && files[Path(dir, DumpName(id, worker, k))] == DumpText(full[k])
  {
    var n := |full| - 1;
    if k < n {
      DumpAt(disk, dir, id, worker, full[..n], k);
      if DumpName(id, worker, k) == DumpName(id, worker, n) {
        DumpNameInjective(id, worker, k, n);
      }
    }
  }

  /** The contents of a file, read as measurements; nothing where there is no file. */
  function ReadFile(disk: Disk, p: Path): seq<Row> {
    if p in disk.files then ReadDump(disk.files[p]) else []
  }

  /** The first `n` dumps in the order they were written. */
  function ReadDumps(disk: Disk, dir: string, id: string, worker: string, n: nat): seq<Row> {
    if n == 0 then []
    else ReadDumps(disk, dir, id, worker, n - 1) + ReadFile(disk, Path(dir, DumpName(id, worker, n - 1)))
  }

  function Truncated(blocks: seq<seq<Row>>): seq<Row> {
    if blocks == [] then [] else Truncated(blocks[..|blocks| - 1]) + UntilZero(blocks[|blocks| - 1])
  }

  lemma ReadOneDump(disk: Disk, dir: string, id: string, worker: string, log: Log, k: nat)
    requires k < |log.full|
    ensures ReadFile(Closed(disk, dir, id, worker, log), Path(dir, DumpName(id, worker, k))) == UntilZero(log.full[k])
  {
    DumpAt(disk, dir, id, worker, log.full, k);
    NamesApart(id, worker, k, |log.full|);
    ReadDumpText(log.full[k]);
  }

  lemma {:induction false} ReadDumpsOf(disk: Disk, dir: string, id: string, worker: string, log: Log, n: nat)
    requires n <= |log.full|
    ensures ReadDumps(Closed(disk, dir, id, worker, log), dir, id, worker, n) == Truncated(log.full[..n])
  {
    if n > 0 {
      ReadDumpsOf(disk, dir, id, worker, log, n - 1);
      ReadOneDump(disk, dir, id, worker, log, n - 1);
      assert log.full[..n][..n - 1] == log.full[..n - 1];
    }
  }

  lemma {:induction false} NothingTruncated(blocks: seq<seq<Row>>)
    requires ZERO !in Flatten(blocks)
    ensures Truncated(blocks) == Flatten(blocks)
  {
    if blocks != [] {
      var n := |blocks| - 1;
      var b := blocks[n];
      assert forall m :: m in Flatten(blocks[..n]) ==> m in Flatten(blocks);
      NothingTruncated(blocks[..n]);
      assert forall m :: m in b ==> m in Flatten(blocks);
      UntilZeroEnds(b, |b|);
      assert b[..|b|] == b;
    }
  }

  lemma {:induction false} NoZeroRead(blocks: seq<seq<Row>>)
    ensures ZERO !in Truncated(blocks)
  {
    if blocks != [] {
      NoZeroRead(blocks[..|blocks| - 1]);
    }
  }

  /**
   * The buffer refines an append-only log. After all stores and the close, the dumps in order and then the flush file
   * hold the stored sequence cut into blocks, each block up to its first (0,0); that is the sequence itself if and only
   * if no (0,0) was stored.
   */
  lemma RefinesLog(disk: Disk, dir: string, id: string, worker: string, ms: seq<Row>, size: nat)
    requires size > 0
    ensures var log := LogOf(ms, size);
      var d := Closed(disk, dir, id, worker, log);
      var dumps, rest := ReadDumps(d, dir, id, worker, |log.full|),
        if log.last == [] then [] else ReadFile(d, Path(dir, FlushName(id, worker, |log.full|)));
      && dumps + rest == Truncated(log.full) + UntilZero(log.last)
      && (dumps + rest == ms <==> ZERO !in ms)
  {
    var log := LogOf(ms, size);
    LogFlattens(ms, size);
    ReadDumpsOf(disk, dir, id, worker, log, |log.full|);
    assert log.full[..|log.full|] == log.full;
    ReadDumpText(log.last);
    NoZeroRead(log.full);
    assert ZERO !in Truncated(log.full) + UntilZero(log.last);
    if ZERO !in ms {
      assert forall m :: m in Flatten(log.full) ==> m in ms;
      assert forall m :: m in log.last ==> m in ms;
      NothingTruncated(log.full);
      UntilZeroEnds(log.last, |log.last|);
      assert log.last[..|log.last|] == log.last;
    }
  }

  // ----- Names of files that do not meet -----

  /** How the names of dumps and of the last flush are made, of the id, the worker and the number. */
  lemma DumpNamesSpelled(id: string, i: nat, k: nat)
    ensures DumpName(id, "worker-" + Dec(i), k) == id + "-worker-" + Dec(i) + "-dump-" + Dec(k) + ".csv"
    ensures FlushName(id, "worker-" + Dec(i), k) == id + "-worker-" + Dec(i) + "-flush-" + Dec(k) + ".csv"
  {
    assert id + "-" + ("worker-" + Dec(i)) == id + "-worker-" + Dec(i);
  }

  predicate AllNumeric(s: string) { forall k :: 0 <= k < |s| ==> RunNames.Numeric(s[k]) }

  lemma NameParts(p: string, w: string, mid: string, k: string, w': string, mid': string, k': string)
    requires AllNumeric(w) && AllNumeric(w') && AllNumeric(k) && AllNumeric(k')
    requires (mid == "-dump-" || mid == "-flush-") && (mid' == "-dump-" || mid' == "-flush-")
    requires p + w + mid + k + ".csv" == p + w' + mid' + k' + ".csv"
    ensures w == w' && mid == mid' && k == k'
  {
    var x, y := mid + k + ".csv", mid' + k' + ".csv";
    assert (p + w + mid + k + ".csv")[|p|..] == w + x && (p + w' + mid' + k' + ".csv")[|p|..] == w' + y;
    RunNames.NumberEnds(w, w', x, y);
    assert x[1] == mid[1] && y[1] == mid'[1];
    assert x[|mid|..] == k + ".csv" && y[|mid'|..] == k' + ".csv";
    CancelSuffix(k, k', ".csv");
  }

  /** Within one experiment no two dumps or flushes share a file, of one worker or of two. */
  lemma DumpIsOf(id: string, i: nat, k: nat, i': nat, k': nat)
    ensures DumpName(id, "worker-" + Dec(i), k) == DumpName(id, "worker-" + Dec(i'), k') ==> i == i' && k == k'
    ensures FlushName(id, "worker-" + Dec(i), k) == FlushName(id, "worker-" + Dec(i'), k') ==> i == i' && k == k'
    ensures DumpName(id, "worker-" + Dec(i), k) != FlushName(id, "worker-" + Dec(i'), k')
  {
    DumpNamesSpelled(id, i, k);
    DumpNamesSpelled(id, i', k');
    var p := id + "-worker-";
    if DumpName(id, "worker-" + Dec(i), k) == DumpName(id, "worker-" + Dec(i'), k') {
      NameParts(p, Dec(i), "-dump-", Dec(k), Dec(i'), "-dump-", Dec(k'));
      DecInjective(i, i');
      DecInjective(k, k');
    }
    if FlushName(id, "worker-" + Dec(i), k) == FlushName(id, "worker-" + Dec(i'), k') {
      NameParts(p, Dec(i), "-flush-", Dec(k), Dec(i'), "-flush-", Dec(k'));
      DecInjective(i, i');
      DecInjective(k, k');
    }
    if DumpName(id, "worker-" + Dec(i), k) == FlushName(id, "worker-" + Dec(i'), k') {
      NameParts(p, Dec(i), "-dump-", Dec(k), Dec(i'), "-flush-", Dec(k'));
    }
  }
}
