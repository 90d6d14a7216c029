/** The consumer program from start to end, over any number of runs in the same directories. */
module Sessions {
  import opened Prelude
  import opened Decimal
  import opened Text
  import opened FileSystem
  import opened Merging
  import opened Archiving
  import opened ExperimentId

  /** What stays the same from run to run; `configWritable` tells whether the configuration file can be created anew. */
  datatype Env = Env(dataDir: string, outDir: string, node: int, configWritable: bool)

  function WorkerName(env: Env, id: string, i: nat): string {
    Subdir(id, env.node) + "-worker-" + Dec(i) + ".csv"
  }

  function OutName(env: Env, id: string): string {
    Subdir(id, env.node) + ".csv"
  }

  /** The files the workers of one run leave at the top of the data directory: worker `i` leaves `texts[i]`. */
  function WriteFiles(disk: Disk, env: Env, id: string, texts: seq<string>): Result<Disk> {
    if texts == [] then Ok(disk)
    else
      var n := |texts| - 1;
      match WriteFiles(disk, env, id, texts[..n])
      case Err(e) => Err(e)
      case Ok(d) =>
        var p := Path(env.dataDir, WorkerName(env, id, n));
        if CanCreate(d, p) then Ok(Put(d, p, texts[n])) else Err("cannot create file")
  }

  /** One run of the program: the workers' files, and what os.ReadDir returned each of the three times. */
  datatype Input = Input(texts: seq<string>, merge: seq<Entry>, found: seq<Entry>, move: seq<Entry>)

  function Merged(disk: Disk, env: Env, id: string, entries: seq<Entry>): Result<Disk> {
    var p := Path(env.outDir, OutName(env, id));
    if env.dataDir in disk.dirs && CanCreate(disk, p)
      && !ReadsItself(OutName(env, id), env.dataDir, env.outDir, entries)
    then Ok(Put(disk, p, MergedText(disk, env.dataDir, entries)))
    else Err("cannot merge")
  }

  /** A run up to the point where only the experiment id remains to be changed. */
  function Archived(disk: Disk, env: Env, id: string, input: Input): Result<Disk> {
    match WriteFiles(disk, env, id, input.texts)
    case Err(e) => Err(e)
    case Ok(d1) =>
      match Merged(d1, env, id, input.merge)
      case Err(e) => Err(e)
      case Ok(d2) => Archive(d2, env.dataDir, id, env.node, input.found, input.move)
  }

  function Session(disk: Disk, env: Env, id: string, input: Input): Result<(Disk, string)> {
    match Archived(disk, env, id, input)
    case Err(e) => Err(e)
    case Ok(d) =>
      match NextId(id)
      case None => Err("cannot increment experiment id")
      case Some(next) => if env.configWritable then Ok((d, next)) else Err("cannot create file")
  }

  /** The three directory listings are what the disk held at the time. */
  ghost predicate Listed(disk: Disk, env: Env, id: string, input: Input) {
    WriteFiles(disk, env, id, input.texts).Ok? ==>
      var d1 := WriteFiles(disk, env, id, input.texts).value;
      && (env.dataDir in d1.dirs ==> IsListing(d1, env.dataDir, input.merge))
      && (Merged(d1, env, id, input.merge).Ok? ==>
            var d2 := Merged(d1, env, id, input.merge).value;
            && (env.dataDir in d2.dirs ==> IsListing(d2, env.dataDir, input.found))
            && (Mkdir(d2, env.dataDir, Subdir(id, env.node)).Ok? ==>
                  IsListing(Mkdir(d2, env.dataDir, Subdir(id, env.node)).value, env.dataDir, input.move)))
  }

  /** The output file by its name: the run's id, the node, and the ending. */
  function ResultPath(env: Env, id: string): Path {
    Path(env.outDir, id + "-node-" + FormatInt(env.node) + ".csv")
  }

  /** The archive step does not touch the output directory. */
  predicate OutApart(env: Env, id: string) {
    env.outDir != env.dataDir && env.outDir != env.dataDir + "/" + id + "-node-" + FormatInt(env.node)
  }

  /** A session that succeeds leaves what the merge wrote, under that name. */
  lemma SessionWrites(disk: Disk, env: Env, id: string, input: Input)
    requires Session(disk, env, id, input).Ok? && OutApart(env, id)
    ensures WriteFiles(disk, env, id, input.texts).Ok?
    ensures var d := Session(disk, env, id, input).value.0;
      && ResultPath(env, id) in d.files
      && d.files[ResultPath(env, id)] ==
           MergedText(WriteFiles(disk, env, id, input.texts).value, env.dataDir, input.merge)
  {
    var d1 := WriteFiles(disk, env, id, input.texts).value;
    var d2 := Merged(d1, env, id, input.merge).value;
    assert ResultPath(env, id) == Path(env.outDir, OutName(env, id));
    ArchiveSpares(d2, env.dataDir, id, env.node, input.found, input.move, ResultPath(env, id));
  }

  /** The merge can read its directory, make its target, and does not come to read it. */
  predicate CanMerge(disk: Disk, env: Env, id: string, entries: seq<Entry>) {
    && env.dataDir in disk.dirs && CanCreate(disk, ResultPath(env, id))
    && !(env.dataDir == env.outDir && Entry(ResultPath(env, id).name, false) in entries
         && !IsDotfile(ResultPath(env, id).name))
  }

  /** Nothing stops the archive step. */
  ghost predicate CanArchive(disk: Disk, env: Env, id: string, entries: seq<Entry>) {
    HasNewData(disk, env.dataDir) ==> HasRoom(disk, env.dataDir, id + "-node-" + FormatInt(env.node), entries)
  }

  /** A run succeeds exactly when each of its steps can, on the disk as the steps before have left it. */
  lemma SessionExactly(disk: Disk, env: Env, id: string, input: Input)
    requires Listed(disk, env, id, input)
    ensures Session(disk, env, id, input).Ok? <==>
      && WriteFiles(disk, env, id, input.texts).Ok?
      && var d1 := WriteFiles(disk, env, id, input.texts).value;
      && CanMerge(d1, env, id, input.merge)
      && CanArchive(Put(d1, ResultPath(env, id), MergedText(d1, env.dataDir, input.merge)), env, id, input.found)
      && NextId(id).Some? && env.configWritable
  {
    if WriteFiles(disk, env, id, input.texts).Ok? {
      var d1 := WriteFiles(disk, env, id, input.texts).value;
      assert ResultPath(env, id) == Path(env.outDir, OutName(env, id));
      if Merged(d1, env, id, input.merge).Ok? {
        var d2 := Merged(d1, env, id, input.merge).value;
        if HasNewData(d2, env.dataDir) {
          ArchiveExactly(d2, env.dataDir, id, env.node, input.found, input.move);
        } else {
          ArchiveLeaves(d2, env.dataDir, id, env.node, input.found, input.move);
        }
      }
    }
  }

  /**
   * The order of effects in the program: the workers' files are there, then merge, archive, increment. A run that fails
   * leaves the stored configuration alone; the id in memory has changed if and only if all that failed was to store it.
   */
  method ConsumerMain(env: Env, conf: Config, input: Input, disk: Disk) returns (r: Result<Disk>)
    requires Listed(disk, env, conf.id, input)
    modifies conf
    ensures r.Ok? <==> Session(disk, env, old(conf.id), input).Ok?
    ensures r.Ok? ==>
      && Session(disk, env, old(conf.id), input) == Ok((r.value, conf.id))
      && conf.stored == conf.id
    ensures r.Ok? && OutApart(env, old(conf.id)) ==>
      && WriteFiles(disk, env, old(conf.id), input.texts).Ok?
      && ResultPath(env, old(conf.id)) in r.value.files
      && r.value.files[ResultPath(env, old(conf.id))] ==
           MergedText(WriteFiles(disk, env, old(conf.id), input.texts).value, env.dataDir, input.merge)
    ensures r.Err? ==> conf.stored == old(conf.stored)
    ensures r.Err? ==>
      (conf.id != old(conf.id) <==> Archived(disk, env, old(conf.id), input).Ok? && NextId(old(conf.id)).Some?)
  {
    var recorded := WriteFiles(disk, env, conf.id, input.texts);
    if recorded.Err? {
      return recorded;
    }
    var merged := MergeMeasurements(OutName(env, conf.id), env.dataDir, env.outDir, input.merge, recorded.value);
    if merged.Err? {
      return merged;
    }
    var archived := ArchiveMeasurements(env.dataDir, conf.id, env.node, input.found, input.move, merged.value);
    if archived.Err? {
      return archived;
    }
    var ok := conf.IncrementExperimentId(env.configWritable);
    if !ok {
      return Err("cannot increment experiment id");
    }
    r := archived;
    if OutApart(env, old(conf.id)) {
      SessionWrites(disk, env, old(conf.id), input);
    }
  }

  // ----- When a run succeeds -----

  function Sub(env: Env, n: nat): string { Subdir(RunId(n), env.node) }

  function OutPath(env: Env, n: nat): Path { Path(env.outDir, OutName(env, RunId(n))) }

  function WorkerPath(env: Env, n: nat, i: nat): Path { Path(env.dataDir, WorkerName(env, RunId(n), i)) }

  function ArchiveDir(env: Env, n: nat): string { Join(env.dataDir, Sub(env, n)) }

  /** Where the file of worker `i` of run `n` is kept in the end. */
  function ArchivePath(env: Env, n: nat, i: nat): Path { Path(ArchiveDir(env, n), WorkerPath(env, n, i).name) }

  /** The top level of the data directory holds no data: at most dotfiles that are not csv files. */
  ghost predicate Clean(disk: Disk, dir: string) {
    forall p :: p in disk.files && p.dir == dir ==> IsDotfile(p.name) && Ext(p.name) != ".csv"
  }

  /** Nothing has been made yet that a run numbered `m` would make. */
  ghost predicate Unused(disk: Disk, env: Env, m: nat) {
    && OutPath(env, m) !in disk.files
    && Join(env.outDir, OutPath(env, m).name) !in disk.dirs
    && Join(env.dataDir, Sub(env, m)) !in disk.dirs
    && (forall x :: Join(Join(env.dataDir, Sub(env, m)), x) !in disk.dirs)
    && (forall i: nat :: Join(env.dataDir, WorkerPath(env, m, i).name) !in disk.dirs)
  }

  ghost predicate Ready(disk: Disk, env: Env, n: nat) {
    && env.dataDir in disk.dirs && env.outDir in disk.dirs && env.dataDir != env.outDir && env.configWritable
    && Clean(disk, env.dataDir)
    && forall m: nat :: n <= m ==> Unused(disk, env, m)
  }

  // ----- Names -----

  lemma JoinInjective(dir: string, x: string, y: string)
    requires Join(dir, x) == Join(dir, y)
    ensures x == y
  {
    assert Join(dir, x)[|dir| + 1..] == x && Join(dir, y)[|dir| + 1..] == y;
  }

  lemma SubInjective(env: Env, m: nat, n: nat)
    requires Sub(env, m) == Sub(env, n)
    ensures m == n
  {
    CancelSuffix(RunId(m) + "-node-", RunId(n) + "-node-", FormatInt(env.node));
    CancelSuffix(RunId(m), RunId(n), "-node-");
    RunIdInjective(m, n);
  }

  lemma OutInjective(env: Env, m: nat, n: nat)
    requires OutPath(env, m) == OutPath(env, n)
    ensures m == n
  {
    CancelSuffix(Sub(env, m), Sub(env, n), ".csv");
    SubInjective(env, m, n);
  }

  lemma WorkerInjective(env: Env, n: nat, i: nat, j: nat)
    requires WorkerPath(env, n, i) == WorkerPath(env, n, j)
    ensures i == j
  {
    var stem := Sub(env, n) + "-worker-";
    CancelSuffix(stem + Dec(i), stem + Dec(j), ".csv");
    assert (stem + Dec(i))[|stem|..] == Dec(i) && (stem + Dec(j))[|stem|..] == Dec(j);
    DecInjective(i, j);
  }

  lemma ContainsStart(prefix: string, rest: string)
    requires prefix != ""
    ensures Contains(prefix + rest, prefix)
  {
    assert (prefix + rest)[..|prefix|] == prefix;
  }

  lemma WorkerNameShape(env: Env, n: nat, i: nat)
    ensures !IsDotfile(WorkerPath(env, n, i).name)
    ensures Ext(WorkerPath(env, n, i).name) == ".csv"
    ensures Contains(WorkerPath(env, n, i).name, RUN)
  {
    var name := WorkerPath(env, n, i).name;
    var stem := Sub(env, n) + "-worker-" + Dec(i);
    ExtOfCsv(stem);
    assert name == stem + ".csv";
    assert name == RUN + name[|RUN|..];
    ContainsStart(RUN, name[|RUN|..]);
  }

  /** A new subdirectory's name is no file name and no name of another run's subdirectory. */
  lemma SubNameApart(env: Env, n: nat)
    ensures Sub(env, n) != "" && IsDigit(Sub(env, n)[|Sub(env, n)| - 1])
    ensures '/' !in Sub(env, n) && !IsDotfile(Sub(env, n))
  {
    var f := FormatInt(env.node);
    assert Sub(env, n) == PREFIX + Dec(n) + "-node-" + f;
    assert f[|f| - 1] != '-' by {
      if env.node < 0 {
        assert f == "-" + Dec(-env.node);
      }
    }
    assert '/' !in PREFIX && '/' !in "-node-" && '/' !in Dec(n) && '/' !in f;
  }

  // ----- The workers' files -----

  /** The worker that wrote a path of run `n`, if one did. */
  ghost predicate WrittenBy(env: Env, n: nat, texts: seq<string>, p: Path, i: nat) {
    i < |texts| && p == WorkerPath(env, n, i)
  }

  ghost predicate Written(env: Env, n: nat, texts: seq<string>, p: Path) {
    exists i: nat :: WrittenBy(env, n, texts, p, i)
  }

  lemma WrittenNext(env: Env, n: nat, texts: seq<string>, p: Path)
    requires texts != []
    ensures Written(env, n, texts, p) <==>
            Written(env, n, texts[..|texts| - 1], p) || p == WorkerPath(env, n, |texts| - 1)
  {
    var k := |texts| - 1;
    if Written(env, n, texts[..k], p) {
      var i: nat :| WrittenBy(env, n, texts[..k], p, i);
      assert WrittenBy(env, n, texts, p, i);
    }
    if p == WorkerPath(env, n, k) {
      assert WrittenBy(env, n, texts, p, k);
    }
    if Written(env, n, texts, p) {
      var i: nat :| WrittenBy(env, n, texts, p, i);
      assert i < k ==> WrittenBy(env, n, texts[..k], p, i);
    }
  }

  lemma {:induction false} WorkersWrite(disk: Disk, env: Env, n: nat, texts: seq<string>)
    requires env.dataDir in disk.dirs
    requires forall i: nat :: Join(env.dataDir, WorkerPath(env, n, i).name) !in disk.dirs
    ensures WriteFiles(disk, env, RunId(n), texts).Ok?
    ensures var d := WriteFiles(disk, env, RunId(n), texts).value;
      && d.dirs == disk.dirs
      && (forall p :: p in d.files <==> p in disk.files || Written(env, n, texts, p))
      && (forall i :: 0 <= i < |texts| ==>
            WorkerPath(env, n, i) in d.files && d.files[WorkerPath(env, n, i)] == texts[i])
      && (forall p :: p in disk.files && !Written(env, n, texts, p) ==> d.files[p] == disk.files[p])
  {
    if texts != [] {
      var k := |texts| - 1;
      var before := texts[..k];
      WorkersWrite(disk, env, n, before);
      var d0 := WriteFiles(disk, env, RunId(n), before).value;
      var w := WorkerPath(env, n, k);
      var d := WriteFiles(disk, env, RunId(n), texts).value;
      assert d == Put(d0, w, texts[k]);
      forall p
        ensures Written(env, n, texts, p) <==> Written(env, n, before, p) || p == w
      {
        WrittenNext(env, n, texts, p);
      }
      forall i | 0 <= i < |texts|
        ensures WorkerPath(env, n, i) in d.files && d.files[WorkerPath(env, n, i)] == texts[i]
      {
        if i < k {
          assert WrittenBy(env, n, before, WorkerPath(env, n, i), i);
          if WorkerPath(env, n, i) == w {
            WorkerInjective(env, n, i, k);
          }
        }
      }
    }
  }

  // ----- The merged output depends on nothing but the run's own rows -----

  /** What one directory entry contributes when only the run's own files count. */
  ghost function OwnLines(env: Env, n: nat, texts: seq<string>, e: Entry): seq<string> {
    if !e.isDir && Written(env, n, texts, Path(env.dataDir, e.name)) then
      var i: nat :| WrittenBy(env, n, texts, Path(env.dataDir, e.name), i);
      Kept(Scan(texts[i]))
    else []
  }

  ghost function AllOwnLines(env: Env, n: nat, texts: seq<string>, entries: seq<Entry>): seq<string> {
    if entries == [] then []
    else
      AllOwnLines(env, n, texts, entries[..|entries| - 1]) + OwnLines(env, n, texts, entries[|entries| - 1])
  }

  ghost function OwnOutput(env: Env, n: nat, input: Input): string {
    Unlines([HEADER] + AllOwnLines(env, n, input.texts, input.merge))
  }

  /** The disk after the workers' writes, seen from a clean data directory. */
  ghost predicate WorkersDone(d: Disk, env: Env, n: nat, texts: seq<string>) {
    && (forall i :: 0 <= i < |texts| ==> WorkerPath(env, n, i) in d.files && d.files[WorkerPath(env, n, i)] == texts[i])
    && (forall p :: p in d.files && p.dir == env.dataDir && !Written(env, n, texts, p) ==>
          IsDotfile(p.name) && Ext(p.name) != ".csv")
  }

  lemma OwnEntry(d: Disk, env: Env, n: nat, texts: seq<string>, e: Entry)
    requires WorkersDone(d, env, n, texts)
    ensures LinesOf(d, env.dataDir, e) == OwnLines(env, n, texts, e)
  {
    var p := Path(env.dataDir, e.name);
    if !e.isDir && Written(env, n, texts, p) {
      var i: nat :| WrittenBy(env, n, texts, p, i) && OwnLines(env, n, texts, e) == Kept(Scan(texts[i]));
      WorkerNameShape(env, n, i);
    }
  }

  lemma {:induction false} OwnEntries(d: Disk, env: Env, n: nat, texts: seq<string>, entries: seq<Entry>)
    requires WorkersDone(d, env, n, texts)
    ensures MergedLines(d, env.dataDir, entries) == AllOwnLines(env, n, texts, entries)
  {
    if entries != [] {
      OwnEntries(d, env, n, texts, entries[..|entries| - 1]);
      OwnEntry(d, env, n, texts, entries[|entries| - 1]);
    }
  }

  // ----- One run -----

  /** What a run numbered `n` leaves behind. */
  ghost predicate RunDone(disk: Disk, d: Disk, env: Env, n: nat, input: Input) {
    && disk.dirs <= d.dirs <= disk.dirs + {Join(env.dataDir, Sub(env, n))}
    && Clean(d, env.dataDir)
    && OutPath(env, n) in d.files && d.files[OutPath(env, n)] == OwnOutput(env, n, input)
    && TextsArchived(d, env, n, input.texts)
    && Apart(env, n) && forall p: Path :: Elsewhere(env, n, p) && p != OutPath(env, n) ==> SameAt(disk, d, p)
  }

  lemma OutputsSpared(disk: Disk, d: Disk, env: Env, n: nat, input: Input, p: Path)
    requires RunDone(disk, d, env, n, input) && p.dir == env.outDir && p != OutPath(env, n)
    ensures SameAt(disk, d, p)
  {
    assert Elsewhere(env, n, p);
  }

  ghost predicate TextsArchived(d: Disk, env: Env, n: nat, texts: seq<string>) {
    forall i: nat :: i < |texts| ==> TextArchived(d, env, n, texts, i)
  }

  /** The text that worker `i` left is in the run's subdirectory. */
  ghost predicate TextArchived(d: Disk, env: Env, n: nat, texts: seq<string>, i: nat)
    requires i < |texts|
  {
    ArchivePath(env, n, i) in d.files && d.files[ArchivePath(env, n, i)] == texts[i]
  }

  predicate Apart(env: Env, n: nat) {
    ArchiveDir(env, n) != env.outDir && ArchiveDir(env, n) != env.dataDir && env.dataDir != env.outDir
  }

  predicate Elsewhere(env: Env, n: nat, p: Path) { p.dir != env.dataDir && p.dir != ArchiveDir(env, n) }

  predicate SameAt(disk: Disk, d: Disk, p: Path) {
    if p in disk.files then p in d.files && d.files[p] == disk.files[p] else p !in d.files
  }

  lemma DirsApart(disk: Disk, env: Env, n: nat)
    requires Ready(disk, env, n)
    ensures Apart(env, n)
  {
    assert Unused(disk, env, n);
  }

  lemma RecordPhase(disk: Disk, env: Env, n: nat, texts: seq<string>)
    requires Ready(disk, env, n)
    ensures WriteFiles(disk, env, RunId(n), texts).Ok?
    ensures var d := WriteFiles(disk, env, RunId(n), texts).value;
      && d.dirs == disk.dirs && WorkersDone(d, env, n, texts)
      && (forall p :: p in d.files <==> p in disk.files || Written(env, n, texts, p))
      && (forall p: Path :: p.dir != env.dataDir ==> SameAt(disk, d, p))
  {
    assert Unused(disk, env, n);
    WorkersWrite(disk, env, n, texts);
    var d := WriteFiles(disk, env, RunId(n), texts).value;
    forall i | 0 <= i < |texts|
      ensures WorkerPath(env, n, i) in d.files && d.files[WorkerPath(env, n, i)] == texts[i]
    {
      assert WrittenBy(env, n, texts, WorkerPath(env, n, i), i);
    }
  }

  /** The archive step on the merged disk. */
  lemma ArchivePhase(disk: Disk, d: Disk, env: Env, n: nat, texts: seq<string>, found: seq<Entry>, move: seq<Entry>)
    requires Ready(disk, env, n) && d.dirs == disk.dirs && WorkersDone(d, env, n, texts)
    requires IsListing(d, env.dataDir, found)
    requires Mkdir(d, env.dataDir, Sub(env, n)).Ok? ==>
      IsListing(Mkdir(d, env.dataDir, Sub(env, n)).value, env.dataDir, move)
    ensures Archive(d, env.dataDir, RunId(n), env.node, found, move).Ok?
    ensures var a := Archive(d, env.dataDir, RunId(n), env.node, found, move).value;
      && disk.dirs <= a.dirs <= disk.dirs + {Join(env.dataDir, Sub(env, n))}
      && Clean(a, env.dataDir) && TextsArchived(a, env, n, texts)
      && (forall p: Path :: Elsewhere(env, n, p) ==> SameAt(d, a, p))
  {
    if exists e :: e in found && IsMeasurement(e) {
      MakesDirectory(disk, d, env, n, texts);
      DirsApart(disk, env, n);
      MovesAll(disk, d, env, n, texts, move);
    } else {
      NothingFound(d, env, n, texts, found);
    }
  }

  lemma MakesDirectory(disk: Disk, d: Disk, env: Env, n: nat, texts: seq<string>)
    requires Ready(disk, env, n) && d.dirs == disk.dirs && WorkersDone(d, env, n, texts)
    ensures Mkdir(d, env.dataDir, Sub(env, n)).Ok?
  {
    assert Unused(disk, env, n);
    var p := Path(env.dataDir, Sub(env, n));
    SubNameApart(env, n);
    forall i: nat
      ensures !WrittenBy(env, n, texts, p, i)
    {
      assert |WorkerPath(env, n, i).name| > |p.name|;
    }
  }

  lemma MovesAll(disk: Disk, d: Disk, env: Env, n: nat, texts: seq<string>, move: seq<Entry>)
    requires Ready(disk, env, n) && d.dirs == disk.dirs && WorkersDone(d, env, n, texts)
    requires Mkdir(d, env.dataDir, Sub(env, n)).Ok?
    requires IsListing(Mkdir(d, env.dataDir, Sub(env, n)).value, env.dataDir, move)
    requires Apart(env, n)
    ensures var made, to := Mkdir(d, env.dataDir, Sub(env, n)).value, Join(env.dataDir, Sub(env, n));
      && MoveAll(made, env.dataDir, to, move).Ok?
      && var a := MoveAll(made, env.dataDir, to, move).value;
      && a.dirs == made.dirs && Clean(a, env.dataDir) && TextsArchived(a, env, n, texts)
      && (forall p: Path :: Elsewhere(env, n, p) ==> SameAt(d, a, p))
  {
    var made, to := Mkdir(d, env.dataDir, Sub(env, n)).value, Join(env.dataDir, Sub(env, n));
    assert Unused(disk, env, n);
    forall e | e in move && Moves(e)
      ensures Path(env.dataDir, e.name) in made.files && CanCreate(made, Path(to, e.name))
    {
      assert e == Entry(e.name, false);
      assert Join(to, e.name) != to;
    }
    MoveAllWorks(made, env.dataDir, to, move);
    var a := MoveAll(made, env.dataDir, to, move).value;
    forall i: nat | i < |texts|
      ensures TextArchived(a, env, n, texts, i)
    {
      MovedText(made, a, env, n, texts, move, i);
    }
    forall p | p in a.files && p.dir == env.dataDir
      ensures IsDotfile(p.name) && Ext(p.name) != ".csv"
    {
      assert p == Path(env.dataDir, p.name);
      assert Entry(p.name, false) in move;
      if Written(env, n, texts, p) {
        var i: nat :| WrittenBy(env, n, texts, p, i);
        WorkerNameShape(env, n, i);
      }
    }
  }

  lemma MovedText(made: Disk, a: Disk, env: Env, n: nat, texts: seq<string>, move: seq<Entry>, i: nat)
    requires WorkersDone(made, env, n, texts) && IsListing(made, env.dataDir, move) && i < |texts|
    requires IsMoved(made, a, env.dataDir, ArchiveDir(env, n), move)
    ensures TextArchived(a, env, n, texts, i)
  {
    var name := WorkerPath(env, n, i).name;
    WorkerNameShape(env, n, i);
    assert WorkerPath(env, n, i) == Path(env.dataDir, name);
    assert Entry(name, false) in move && Moves(Entry(name, false));
  }

  lemma NothingFound(d: Disk, env: Env, n: nat, texts: seq<string>, found: seq<Entry>)
    requires WorkersDone(d, env, n, texts) && IsListing(d, env.dataDir, found)
    requires !exists e :: e in found && IsMeasurement(e)
    ensures Clean(d, env.dataDir) && texts == []
  {
    if texts != [] {
      assert WrittenBy(env, n, texts, WorkerPath(env, n, 0), 0);
      assert Entry(WorkerPath(env, n, 0).name, false) in found;
      WrittenIsFound(env, n, texts, WorkerPath(env, n, 0));
    }
    forall p | p in d.files && p.dir == env.dataDir
      ensures !Written(env, n, texts, p)
    {
      assert p == Path(env.dataDir, p.name);
      assert Entry(p.name, false) in found;
      WrittenIsFound(env, n, texts, p);
    }
  }

  lemma WrittenIsFound(env: Env, n: nat, texts: seq<string>, p: Path)
    ensures Written(env, n, texts, p) ==> IsMeasurement(Entry(p.name, false))
  {
    if Written(env, n, texts, p) {
      var i: nat :| WrittenBy(env, n, texts, p, i);
      WorkerNameShape(env, n, i);
    }
  }

  /** From a ready disk every run below the int limit succeeds, whatever order the directories are listed in. */
  lemma RunSucceeds(disk: Disk, env: Env, n: nat, input: Input)
    requires Ready(disk, env, n) && n < TWO_TO_THE_63 - 1 && Listed(disk, env, RunId(n), input)
    ensures Session(disk, env, RunId(n), input).Ok?
    ensures var (d, next) := Session(disk, env, RunId(n), input).value;
      next == RunId(n + 1) && RunDone(disk, d, env, n, input)
  {
    RecordPhase(disk, env, n, input.texts);
    var d1 := WriteFiles(disk, env, RunId(n), input.texts).value;
    MergePhase(disk, d1, env, n, input);
    var d2 := Merged(d1, env, RunId(n), input.merge).value;
    ArchivePhase(disk, d2, env, n, input.texts, input.found, input.move);
    DirsApart(disk, env, n);
    var d := Archive(d2, env.dataDir, RunId(n), env.node, input.found, input.move).value;
    PhasesTogether(disk, d1, d2, d, env, n, input);
    IncrementCounts(n);
  }

  /** The merge step on the recorded disk. */
  lemma MergePhase(disk: Disk, d1: Disk, env: Env, n: nat, input: Input)
    requires Ready(disk, env, n) && d1.dirs == disk.dirs && WorkersDone(d1, env, n, input.texts)
    ensures Merged(d1, env, RunId(n), input.merge) == Ok(Put(d1, OutPath(env, n), OwnOutput(env, n, input)))
    ensures WorkersDone(Put(d1, OutPath(env, n), OwnOutput(env, n, input)), env, n, input.texts)
  {
    assert Unused(disk, env, n);
    OwnEntries(d1, env, n, input.texts, input.merge);
  }

  lemma PhasesTogether(disk: Disk, d1: Disk, d2: Disk, d: Disk, env: Env, n: nat, input: Input)
    requires Apart(env, n) && Clean(d, env.dataDir) && TextsArchived(d, env, n, input.texts)
    requires disk.dirs <= d.dirs <= disk.dirs + {ArchiveDir(env, n)}
    requires forall p: Path :: p.dir != env.dataDir ==> SameAt(disk, d1, p)
    requires d2 == Put(d1, OutPath(env, n), OwnOutput(env, n, input))
    requires forall p: Path :: Elsewhere(env, n, p) ==> SameAt(d2, d, p)
    ensures RunDone(disk, d, env, n, input)
  {
    assert Elsewhere(env, n, OutPath(env, n)) && SameAt(d2, d, OutPath(env, n));
    forall p: Path | Elsewhere(env, n, p) && p != OutPath(env, n)
      ensures SameAt(disk, d, p)
    {
      assert SameAt(disk, d1, p) && SameAt(d2, d, p);
    }
  }

  /** A finished run leaves the disk ready for the next number. */
  lemma RunLeavesReady(disk: Disk, d: Disk, env: Env, n: nat, input: Input)
    requires Ready(disk, env, n) && RunDone(disk, d, env, n, input)
    ensures Ready(d, env, n + 1)
  {
    forall m: nat | n + 1 <= m
      ensures Unused(d, env, m)
    {
      assert Unused(disk, env, m);
      StillUnused(disk, d, env, n, m, input);
    }
  }

  lemma StillUnused(disk: Disk, d: Disk, env: Env, n: nat, m: nat, input: Input)
    requires n < m && Unused(disk, env, m) && RunDone(disk, d, env, n, input)
    ensures Unused(d, env, m)
  {
    var made := Join(env.dataDir, Sub(env, n));
    SubNameApart(env, n);
    if OutPath(env, m) == OutPath(env, n) {
      OutInjective(env, m, n);
    }
    OutputsSpared(disk, d, env, n, input, OutPath(env, m));
    assert Join(env.outDir, OutPath(env, m).name) != made by {
      var x := Join(env.outDir, OutPath(env, m).name);
      assert x[|x| - 1] == 'v' && made[|made| - 1] == Sub(env, n)[|Sub(env, n)| - 1];
    }
    if Join(env.dataDir, Sub(env, m)) == made {
      JoinInjective(env.dataDir, Sub(env, m), Sub(env, n));
      SubInjective(env, m, n);
    }
    forall x
      ensures Join(Join(env.dataDir, Sub(env, m)), x) != made
    {
      NoSlash(env.dataDir, Sub(env, m), x, Sub(env, n));
    }
    forall i: nat
      ensures Join(env.dataDir, WorkerPath(env, m, i).name) != made
    {
      var x := Join(env.dataDir, WorkerPath(env, m, i).name);
      assert x[|x| - 1] == 'v' && made[|made| - 1] == Sub(env, n)[|Sub(env, n)| - 1];
    }
  }

  lemma NoSlash(dir: string, a: string, x: string, b: string)
    requires '/' !in b
    ensures Join(Join(dir, a), x) != Join(dir, b)
  {
    var tail := a + "/" + x;
    assert Join(Join(dir, a), x) == Join(dir, tail);
    assert tail[|a|] == '/';
    if Join(dir, tail) == Join(dir, b) {
      JoinInjective(dir, tail, b);
    }
  }

  // ----- Any number of runs -----

  function Sessions(disk: Disk, env: Env, id: string, inputs: seq<Input>): Result<(Disk, string)> {
    if inputs == [] then Ok((disk, id))
    else
      match Sessions(disk, env, id, inputs[..|inputs| - 1])
      case Err(e) => Err(e)
      case Ok(before) => Session(before.0, env, before.1, inputs[|inputs| - 1])
  }

  ghost predicate AllListed(disk: Disk, env: Env, id: string, inputs: seq<Input>) {
    inputs != [] ==>
      && AllListed(disk, env, id, inputs[..|inputs| - 1])
      && (Sessions(disk, env, id, inputs[..|inputs| - 1]).Ok? ==>
            var (d, i) := Sessions(disk, env, id, inputs[..|inputs| - 1]).value;
            Listed(d, env, i, inputs[|inputs| - 1]))
  }

  /** The output file of the `k`-th run holds that run's rows. */
  ghost predicate OutputOf(d: Disk, env: Env, n: nat, inputs: seq<Input>, k: nat) {
    && k < |inputs|
    && OutPath(env, n + k) in d.files && d.files[OutPath(env, n + k)] == OwnOutput(env, n + k, inputs[k])
  }

  ghost predicate SameOutputs(disk: Disk, d: Disk, env: Env) {
    forall p: Path :: p.dir == env.outDir && p in disk.files ==> p in d.files && d.files[p] == disk.files[p]
  }

  /** The state of affairs after some runs that started with number `n` on `disk`. */
  ghost predicate AfterRuns(disk: Disk, d: Disk, id: string, env: Env, n: nat, inputs: seq<Input>) {
    && id == RunId(n + |inputs|)
    && Ready(d, env, n + |inputs|)
    && (forall k: nat :: k < |inputs| ==> OutputOf(d, env, n, inputs, k) && ArchiveOf(d, env, n, inputs, k))
    && SameOutputs(disk, d, env)
  }

  /** The files that the workers of the `k`-th run left are in its subdirectory. */
  ghost predicate ArchiveOf(d: Disk, env: Env, n: nat, inputs: seq<Input>, k: nat)
    requires k < |inputs|
  {
    Apart(env, n + k) && TextsArchived(d, env, n + k, inputs[k].texts)
  }

  lemma RunsGoOn(disk: Disk, d0: Disk, d: Disk, env: Env, n: nat, inputs: seq<Input>)
    requires inputs != []
    requires AfterRuns(disk, d0, RunId(n + |inputs| - 1), env, n, inputs[..|inputs| - 1])
    requires RunDone(d0, d, env, n + |inputs| - 1, inputs[|inputs| - 1])
    ensures AfterRuns(disk, d, RunId(n + |inputs|), env, n, inputs)
  {
    var j := |inputs| - 1;
    RunLeavesReady(d0, d, env, n + j, inputs[j]);
    assert Unused(d0, env, n + j);
    forall k: nat | k < |inputs|
      ensures OutputOf(d, env, n, inputs, k) && ArchiveOf(d, env, n, inputs, k)
    {
      if k < j {
        assert OutputOf(d0, env, n, inputs[..j], k) && ArchiveOf(d0, env, n, inputs[..j], k);
        OutputStays(d0, d, env, n, inputs, k);
        ArchiveStays(d0, d, env, n, inputs, k);
      }
    }
    OutputsStay(disk, d0, d, env, n + j, inputs[j]);
  }

  lemma OneMoreRun(disk: Disk, d0: Disk, env: Env, n: nat, inputs: seq<Input>)
    requires inputs != [] && n + |inputs| < TWO_TO_THE_63
    requires AfterRuns(disk, d0, RunId(n + |inputs| - 1), env, n, inputs[..|inputs| - 1])
    requires Listed(d0, env, RunId(n + |inputs| - 1), inputs[|inputs| - 1])
    ensures Session(d0, env, RunId(n + |inputs| - 1), inputs[|inputs| - 1]).Ok?
    ensures var (d, id) := Session(d0, env, RunId(n + |inputs| - 1), inputs[|inputs| - 1]).value;
      AfterRuns(disk, d, id, env, n, inputs)
  {
    var j := |inputs| - 1;
    RunSucceeds(d0, env, n + j, inputs[j]);
    RunsGoOn(disk, d0, Session(d0, env, RunId(n + j), inputs[j]).value.0, env, n, inputs);
  }

  lemma LastSession(disk: Disk, env: Env, id: string, inputs: seq<Input>)
    requires inputs != [] && AllListed(disk, env, id, inputs)
    ensures AllListed(disk, env, id, inputs[..|inputs| - 1])
    ensures var before := Sessions(disk, env, id, inputs[..|inputs| - 1]);
      before.Ok? ==>
        && Listed(before.value.0, env, before.value.1, inputs[|inputs| - 1])
        && Sessions(disk, env, id, inputs) == Session(before.value.0, env, before.value.1, inputs[|inputs| - 1])
  {
  }

  /** All the runs came to their end, and this is what they left. */
  ghost predicate Succeeded(disk: Disk, env: Env, n: nat, inputs: seq<Input>) {
    match Sessions(disk, env, RunId(n), inputs)
    case Err(_) => false
    case Ok(after) => AfterRuns(disk, after.0, after.1, env, n, inputs)
  }

  lemma NoRuns(disk: Disk, env: Env, n: nat)
    requires Ready(disk, env, n)
    ensures Succeeded(disk, env, n, [])
  {
  }

  lemma LastRunSucceeds(disk: Disk, env: Env, n: nat, inputs: seq<Input>)
    requires inputs != [] && n + |inputs| < TWO_TO_THE_63 && AllListed(disk, env, RunId(n), inputs)
    requires Succeeded(disk, env, n, inputs[..|inputs| - 1])
    ensures Succeeded(disk, env, n, inputs)
  {
    var m: nat := n + |inputs| - 1;
    var d0 := AfterSome(disk, env, n, inputs[..|inputs| - 1], m);
    LastSession(disk, env, RunId(n), inputs);
    SucceededFrom(disk, env, n, inputs, d0, m);
  }

  lemma AfterSome(disk: Disk, env: Env, n: nat, some: seq<Input>, m: nat) returns (d0: Disk)
    requires Succeeded(disk, env, n, some) && m == n + |some|
    ensures Sessions(disk, env, RunId(n), some) == Ok((d0, RunId(m)))
    ensures AfterRuns(disk, d0, RunId(m), env, n, some)
  {
    var after := Sessions(disk, env, RunId(n), some).value;
    IdAfter(disk, after.0, after.1, env, n, some, m);
    d0 := after.0;
  }

  lemma IdAfter(disk: Disk, d: Disk, id: string, env: Env, n: nat, some: seq<Input>, m: nat)
    requires AfterRuns(disk, d, id, env, n, some) && m == n + |some|
    ensures id == RunId(m)
  {
  }

  lemma SucceededFrom(disk: Disk, env: Env, n: nat, inputs: seq<Input>, d0: Disk, m: nat)
    requires inputs != [] && m == n + |inputs| - 1 && n + |inputs| < TWO_TO_THE_63
    requires AfterRuns(disk, d0, RunId(m), env, n, inputs[..|inputs| - 1])
    requires Listed(d0, env, RunId(m), inputs[|inputs| - 1])
    requires Sessions(disk, env, RunId(n), inputs) == Session(d0, env, RunId(m), inputs[|inputs| - 1])
    ensures Succeeded(disk, env, n, inputs)
  {
    OneMoreRun(disk, d0, env, n, inputs);
  }

  /**
   * Over any number of runs from a ready disk and below the int limit: every run succeeds, the id goes up by one each
   * time, the top level of the data directory holds no csv file in between, every output file is still there with the
   * rows of its own run and nothing else, and every worker's file is in the subdirectory of its run.
   */
  lemma {:induction false} AllRunsSucceed(disk: Disk, env: Env, n: nat, inputs: seq<Input>)
    requires Ready(disk, env, n) && n + |inputs| < TWO_TO_THE_63 && AllListed(disk, env, RunId(n), inputs)
    ensures Succeeded(disk, env, n, inputs)
  {
    if inputs == [] {
      NoRuns(disk, env, n);
    } else {
      LastSession(disk, env, RunId(n), inputs);
      AllRunsSucceed(disk, env, n, inputs[..|inputs| - 1]);
      LastRunSucceeds(disk, env, n, inputs);
    }
  }

  lemma OutputStays(d0: Disk, d: Disk, env: Env, n: nat, inputs: seq<Input>, k: nat)
    requires k + 1 < |inputs| && OutputOf(d0, env, n, inputs[..|inputs| - 1], k)
    requires RunDone(d0, d, env, n + |inputs| - 1, inputs[|inputs| - 1])
    ensures OutputOf(d, env, n, inputs, k)
  {
    if OutPath(env, n + k) == OutPath(env, n + |inputs| - 1) {
      OutInjective(env, n + k, n + |inputs| - 1);
    }
    OutputsSpared(d0, d, env, n + |inputs| - 1, inputs[|inputs| - 1], OutPath(env, n + k));
  }

  lemma ArchiveStays(d0: Disk, d: Disk, env: Env, n: nat, inputs: seq<Input>, k: nat)
    requires k + 1 < |inputs| && ArchiveOf(d0, env, n, inputs[..|inputs| - 1], k)
    requires RunDone(d0, d, env, n + |inputs| - 1, inputs[|inputs| - 1])
    ensures ArchiveOf(d, env, n, inputs, k)
  {
    var m := n + |inputs| - 1;
    if ArchiveDir(env, n + k) == ArchiveDir(env, m) {
      JoinInjective(env.dataDir, Sub(env, n + k), Sub(env, m));
      SubInjective(env, n + k, m);
    }
    TextsStay(d0, d, env, n + k, inputs[k].texts, m, inputs[|inputs| - 1]);
  }

  lemma TextsStay(d0: Disk, d: Disk, env: Env, own: nat, texts: seq<string>, m: nat, input: Input)
    requires Apart(env, own) && ArchiveDir(env, own) != ArchiveDir(env, m)
    requires TextsArchived(d0, env, own, texts) && RunDone(d0, d, env, m, input)
    ensures TextsArchived(d, env, own, texts)
  {
    forall i: nat | i < |texts|
      ensures TextArchived(d, env, own, texts, i)
    {
      assert TextArchived(d0, env, own, texts, i);
      ArchiveSpared(d0, d, env, ArchivePath(env, own, i), own, m, input);
    }
  }

  lemma ArchiveSpared(d0: Disk, d: Disk, env: Env, p: Path, own: nat, m: nat, input: Input)
    requires Apart(env, own) && ArchiveDir(env, own) != ArchiveDir(env, m) && p.dir == ArchiveDir(env, own)
    requires RunDone(d0, d, env, m, input)
    ensures SameAt(d0, d, p)
  {
    assert Elsewhere(env, m, p) && p != OutPath(env, m);
  }

  lemma OutputsStay(disk: Disk, d0: Disk, d: Disk, env: Env, n: nat, input: Input)
    requires SameOutputs(disk, d0, env) && Unused(d0, env, n) && RunDone(d0, d, env, n, input)
    ensures SameOutputs(disk, d, env)
  {
    forall p: Path | p.dir == env.outDir && p in disk.files
      ensures p in d.files && d.files[p] == disk.files[p]
    {
      OutputsSpared(d0, d, env, n, input, p);
    }
  }
}
