/** Moving a run's files into a subdirectory of their own. */
module Archiving {
  import opened Prelude
  import opened Decimal
  import opened FileSystem

  const RUN: string := "experiment-run"

  predicate IsMeasurement(e: Entry) { !e.isDir && Contains(e.name, RUN) }

  predicate Moves(e: Entry) { !e.isDir && Ext(e.name) == ".csv" }

  /** The names that count as new data, and those that are moved. */
  lemma NamesExactly(e: Entry)
    ensures IsMeasurement(e) <==> !e.isDir && exists k: nat :: StandsAt(e.name, "experiment-run", k)
    ensures Moves(e) <==> !e.isDir && |e.name| >= 4 && e.name[|e.name| - 4..] == ".csv"
  {
    ContainsExactly(e.name, "experiment-run");
    ExtExactly(e.name);
    if |e.name| >= 4 && e.name[|e.name| - 4..] == ".csv" {
      var stem := e.name[..|e.name| - 4];
      assert e.name == stem + ".csv";
      ExtOfCsv(stem);
    }
  }

  /** Whether any file at the top level looks like the data of a run. */
  method NewMeasurements(files: seq<Entry>) returns (found: bool)
    ensures found <==> exists e :: e in files && IsMeasurement(e)
  {
    for i := 0 to |files|
      invariant forall k :: 0 <= k < i ==> !IsMeasurement(files[k])
    {
      if !files[i].isDir && Contains(files[i].name, RUN) {
        assert files[i] in files;
        return true;
      }
    }
    return false;
  }

  /** The renames one after the other, up to the first that fails. */
  function MoveAll(disk: Disk, from: string, to: string, files: seq<Entry>): Result<Disk> {
    if files == [] then Ok(disk)
    else
      match MoveAll(disk, from, to, files[..|files| - 1])
      case Err(e) => Err(e)
      case Ok(d) =>
        var file := files[|files| - 1];
        if Moves(file) then Rename(d, Path(from, file.name), Path(to, file.name)) else Ok(d)
  }

  lemma {:induction false} MoveStops(disk: Disk, from: string, to: string, files: seq<Entry>, i: nat)
    requires i <= |files| && MoveAll(disk, from, to, files[..i]).Err?
    ensures MoveAll(disk, from, to, files) == MoveAll(disk, from, to, files[..i])
  {
    if i < |files| {
      var n := |files| - 1;
      assert files[..n][..i] == files[..i];
      MoveStops(disk, from, to, files[..n], i);
    } else {
      assert files[..i] == files;
    }
  }

  method MoveMeasurements(from: string, to: string, files: seq<Entry>, disk: Disk) returns (r: Result<Disk>)
    ensures r == MoveAll(disk, from, to, files)
  {
    r := Ok(disk);
    for i := 0 to |files|
      invariant r.Ok? && r == MoveAll(disk, from, to, files[..i])
    {
      var file := files[i];
      assert files[..i + 1][..i] == files[..i];
      if !file.isDir && Ext(file.name) == ".csv" {
        r := Rename(r.value, Path(from, file.name), Path(to, file.name));
        if r.Err? {
          MoveStops(disk, from, to, files, i + 1);
          return r;
        }
      }
    }
    assert files[..|files|] == files;
  }

  function Subdir(id: string, node: int): string { id + "-node-" + FormatInt(node) }

  /** The whole archive step, given the listing before and the listing after the subdirectory was made. */
  function Archive(disk: Disk, dataDir: string, id: string, node: int, files: seq<Entry>, later: seq<Entry>)
    : Result<Disk>
  {
    if dataDir !in disk.dirs then Err("cannot read data directory")
    else if !(exists e :: e in files && IsMeasurement(e)) then Ok(disk)
    else
      match Mkdir(disk, dataDir, Subdir(id, node))
      case Err(e) => Err(e)
      case Ok(d) => MoveAll(d, dataDir, Join(dataDir, Subdir(id, node)), later)
  }

  method ArchiveMeasurements(dataDir: string, id: string, node: int, files: seq<Entry>, later: seq<Entry>, disk: Disk)
    returns (r: Result<Disk>)
    requires dataDir in disk.dirs ==> IsListing(disk, dataDir, files)
    requires Mkdir(disk, dataDir, Subdir(id, node)).Ok? ==>
      IsListing(Mkdir(disk, dataDir, Subdir(id, node)).value, dataDir, later)
    ensures r == Archive(disk, dataDir, id, node, files, later)
  {
    if dataDir !in disk.dirs {
      return Err("cannot read data directory");
    }
    var found := NewMeasurements(files);
    if !found {
      return Ok(disk);
    }
    var made := Mkdir(disk, dataDir, Subdir(id, node));
    if made.Err? {
      return made;
    }
    r := MoveMeasurements(dataDir, Join(dataDir, Subdir(id, node)), later, made.value);
  }

  /** Whether it succeeds or not, a move changes nothing but the two directories. */
  lemma {:induction false} MoveSpares(disk: Disk, from: string, to: string, files: seq<Entry>, p: Path)
    requires MoveAll(disk, from, to, files).Ok? && p.dir != from && p.dir != to && p in disk.files
    ensures var d := MoveAll(disk, from, to, files).value; p in d.files && d.files[p] == disk.files[p]
  {
    if files != [] {
      MoveSpares(disk, from, to, files[..|files| - 1], p);
    }
  }

  lemma ArchiveSpares(disk: Disk, dataDir: string, id: string, node: int, files: seq<Entry>, later: seq<Entry>, p: Path)
    requires Archive(disk, dataDir, id, node, files, later).Ok?
    requires p.dir != dataDir && p.dir != dataDir + "/" + id + "-node-" + FormatInt(node) && p in disk.files
    ensures var d := Archive(disk, dataDir, id, node, files, later).value; p in d.files && d.files[p] == disk.files[p]
  {
    assert Join(dataDir, Subdir(id, node)) == dataDir + "/" + id + "-node-" + FormatInt(node);
    if exists e :: e in files && IsMeasurement(e) {
      var d := Mkdir(disk, dataDir, Subdir(id, node)).value;
      MoveSpares(d, dataDir, Join(dataDir, Subdir(id, node)), later, p);
    }
  }

  // ----- What a move does to the disk -----

  /** Every csv file of the listing is at its new place and nothing else has changed. */
  ghost predicate IsMoved(disk: Disk, d: Disk, from: string, to: string, files: seq<Entry>) {
    && d.dirs == disk.dirs
    && (forall p :: p in d.files <==>
          || (p in disk.files && !(p.dir == from && Entry(p.name, false) in files && Moves(Entry(p.name, false))))
          || (p.dir == to && Entry(p.name, false) in files && Moves(Entry(p.name, false))))
    && (forall p :: p in d.files ==>
          if p.dir == to && Entry(p.name, false) in files && Moves(Entry(p.name, false))
          then Path(from, p.name) in disk.files && d.files[p] == disk.files[Path(from, p.name)]
          else d.files[p] == disk.files[p])
  }

  lemma MoveOne(disk: Disk, d: Disk, from: string, to: string, before: seq<Entry>, file: Entry)
    requires IsMoved(disk, d, from, to, before) && from != to && file !in before && Moves(file)
    requires Path(from, file.name) in disk.files && CanCreate(disk, Path(to, file.name))
    ensures Rename(d, Path(from, file.name), Path(to, file.name)).Ok?
    ensures IsMoved(disk, Rename(d, Path(from, file.name), Path(to, file.name)).value, from, to, before + [file])
  {
    var a, b := Path(from, file.name), Path(to, file.name);
    assert file == Entry(file.name, false);
    assert a in d.files && d.files[a] == disk.files[a];
    var r := Rename(d, a, b).value;
    assert r.files == (d.files - {a})[b := d.files[a]];
  }

  lemma {:induction false} MoveAllWorks(disk: Disk, from: string, to: string, files: seq<Entry>)
    requires from != to && NoDup(files)
    requires forall e :: e in files && Moves(e) ==>
      Path(from, e.name) in disk.files && CanCreate(disk, Path(to, e.name))
    ensures MoveAll(disk, from, to, files).Ok?
    ensures IsMoved(disk, MoveAll(disk, from, to, files).value, from, to, files)
  {
    if files != [] {
      var n := |files| - 1;
      assert files == files[..n] + [files[n]];
      MoveAllWorks(disk, from, to, files[..n]);
      var d := MoveAll(disk, from, to, files[..n]).value;
      assert files[n] !in files[..n];
      if Moves(files[n]) {
        MoveOne(disk, d, from, to, files[..n], files[n]);
      } else {
        forall p | Moves(Entry(p, false))
          ensures Entry(p, false) in files[..n] <==> Entry(p, false) in files
        {
        }
      }
    }
  }

  lemma {:induction false} MoveKeepsDirs(disk: Disk, from: string, to: string, files: seq<Entry>)
    requires MoveAll(disk, from, to, files).Ok?
    ensures MoveAll(disk, from, to, files).value.dirs == disk.dirs
  {
    if files != [] {
      MoveKeepsDirs(disk, from, to, files[..|files| - 1]);
    }
  }

  lemma {:induction false} MoveBlocked(disk: Disk, from: string, to: string, files: seq<Entry>, e: Entry)
    requires e in files && Moves(e) && Join(to, e.name) in disk.dirs
    ensures MoveAll(disk, from, to, files).Err?
  {
    var n := |files| - 1;
    if e in files[..n] {
      MoveBlocked(disk, from, to, files[..n], e);
    } else {
      assert files[n] == e;
      if MoveAll(disk, from, to, files[..n]).Ok? {
        MoveKeepsDirs(disk, from, to, files[..n]);
      }
    }
  }

  /** With new data, the name of the subdirectory is free, and no directory is in the way of a csv file. */
  ghost predicate HasRoom(disk: Disk, dataDir: string, name: string, files: seq<Entry>) {
    && Path(dataDir, name) !in disk.files && Join(dataDir, name) !in disk.dirs
    && forall e :: e in files && Moves(e) ==> Join(Join(dataDir, name), e.name) !in disk.dirs
  }

  /** Some file of the directory has `experiment-run` in its name. */
  ghost predicate HasNewData(disk: Disk, dataDir: string) {
    exists name, k: nat {:trigger StandsAt(name, "experiment-run", k)} ::
      Path(dataDir, name) in disk.files && StandsAt(name, "experiment-run", k)
  }

  lemma NewDataIs(disk: Disk, dataDir: string, files: seq<Entry>)
    requires IsListing(disk, dataDir, files)
    ensures HasNewData(disk, dataDir) <==> exists e :: e in files && IsMeasurement(e)
  {
    if e :| e in files && IsMeasurement(e) {
      ContainsExactly(e.name, RUN);
      assert e == Entry(e.name, false) && Path(dataDir, e.name) in disk.files;
    }
    if name, k: nat {:trigger StandsAt(name, "experiment-run", k)} :|
      Path(dataDir, name) in disk.files && StandsAt(name, "experiment-run", k)
    {
      ContainsExactly(name, RUN);
      assert Entry(name, false) in files && IsMeasurement(Entry(name, false));
    }
  }

  /** Without new data the archive step leaves everything as it was, and it fails when the directory is missing. */
  lemma ArchiveLeaves(disk: Disk, dataDir: string, id: string, node: int, files: seq<Entry>, later: seq<Entry>)
    requires dataDir in disk.dirs ==> IsListing(disk, dataDir, files) && !HasNewData(disk, dataDir)
    ensures Archive(disk, dataDir, id, node, files, later) ==
            if dataDir in disk.dirs then Ok(disk) else Err("cannot read data directory")
  {
    if dataDir in disk.dirs {
      NewDataIs(disk, dataDir, files);
    }
  }

  /**
   * With new data the archive step succeeds exactly when there is room for it. Then the subdirectory is there, every
   * csv file has moved into it, and nothing else has changed.
   */
  lemma ArchiveExactly(disk: Disk, dataDir: string, id: string, node: int, files: seq<Entry>, later: seq<Entry>)
    requires dataDir in disk.dirs && IsListing(disk, dataDir, files) && HasNewData(disk, dataDir)
    requires Mkdir(disk, dataDir, Subdir(id, node)).Ok? ==>
      IsListing(Mkdir(disk, dataDir, Subdir(id, node)).value, dataDir, later)
    ensures var r, name := Archive(disk, dataDir, id, node, files, later), id + "-node-" + FormatInt(node);
      && (r.Ok? <==> HasRoom(disk, dataDir, name, files))
      && (r.Ok? ==>
            var made := disk.(dirs := disk.dirs + {Join(dataDir, name)});
            IsMoved(made, r.value, dataDir, Join(dataDir, name), files))
  {
    var name := id + "-node-" + FormatInt(node);
    var to := Join(dataDir, name);
    NewDataIs(disk, dataDir, files);
    if Path(dataDir, name) !in disk.files && to !in disk.dirs {
      var made := disk.(dirs := disk.dirs + {to});
      assert Mkdir(disk, dataDir, name) == Ok(made);
      forall p
        ensures Entry(p, false) in files <==> Entry(p, false) in later
      {
        assert Entry(p, false) in files <==> Path(dataDir, p) in disk.files;
        assert Entry(p, false) in later <==> Path(dataDir, p) in made.files;
      }
      assert forall e :: Moves(e) ==> e == Entry(e.name, false);
      assert forall e :: Join(to, e) != to by {
        assert forall e :: |Join(to, e)| > |to|;
      }
      if HasRoom(disk, dataDir, name, files) {
        MoveAllWorks(made, dataDir, to, later);
      } else {
        var e :| e in files && Moves(e) && Join(to, e.name) in disk.dirs;
        MoveBlocked(made, dataDir, to, later, e);
      }
    }
  }
}
