/** Joining all measurement files of a directory under one header. */
module Merging {
  import opened Prelude
  import opened Text
  import opened FileSystem
  import opened Buffering

  const HEADER: string := "tProducer,tConsumer"

  /** The lines the merge copies: all but the column titles of a buffer dump. */
  function Kept(lines: seq<string>): seq<string> {
    if lines == [] then []
    else Kept(lines[..|lines| - 1]) + if lines[|lines| - 1] == TITLES then [] else [lines[|lines| - 1]]
  }

  predicate Merges(e: Entry) { !e.isDir && !IsDotfile(e.name) }

  /** What one directory entry contributes. */
  function LinesOf(disk: Disk, dir: string, e: Entry): seq<string> {
    if Merges(e) && Path(dir, e.name) in disk.files then Kept(Scan(disk.files[Path(dir, e.name)])) else []
  }

  function MergedLines(disk: Disk, dir: string, entries: seq<Entry>): seq<string> {
    if entries == [] then []
    else MergedLines(disk, dir, entries[..|entries| - 1]) + LinesOf(disk, dir, entries[|entries| - 1])
  }

  function MergedText(disk: Disk, dir: string, entries: seq<Entry>): string {
    Unlines([HEADER] + MergedLines(disk, dir, entries))
  }

  lemma KeptNext(lines: seq<string>, j: nat)
    requires j < |lines|
    ensures Kept(lines[..j + 1]) == if lines[j] == TITLES then Kept(lines[..j]) else Kept(lines[..j]) + [lines[j]]
  {
    assert lines[..j + 1][..j] == lines[..j];
  }

  /** Appends the kept lines of one file to the target. */
  method AppendLines(text: string, target: Path, lines: seq<string>, disk: Disk) returns (d: Disk)
    requires target in disk.files && disk.files[target] == Unlines(lines)
    ensures d == Put(disk, target, Unlines(lines + Kept(Scan(text))))
  {
    var tokens := Scan(text);
    d := disk;
    assert lines + Kept(tokens[..0]) == lines;
    assert Put(disk, target, Unlines(lines)) == disk;
    for j := 0 to |tokens|
      invariant d == Put(disk, target, Unlines(lines + Kept(tokens[..j])))
    {
      var line := tokens[j];
      KeptNext(tokens, j);
      if line == TITLES {
        continue;
      }
      var before := lines + Kept(tokens[..j]);
      assert lines + Kept(tokens[..j + 1]) == before + [line];
      UnlinesAdd(before, line);
      AppendToPut(disk, target, Unlines(before), line + "\n");
      d := Append(d, target, line + "\n");
    }
    assert tokens[..|tokens|] == tokens;
  }

  function TargetLines(disk: Disk, dir: string, data: seq<Entry>, i: nat): seq<string>
    requires i <= |data|
  {
    [HEADER] + MergedLines(disk, dir, data[..i])
  }

  lemma TargetNext(disk: Disk, dir: string, data: seq<Entry>, i: nat)
    requires i < |data|
    ensures TargetLines(disk, dir, data, i + 1) == TargetLines(disk, dir, data, i) + LinesOf(disk, dir, data[i])
    ensures LinesOf(disk, dir, data[i]) == [] ==> TargetLines(disk, dir, data, i + 1) == TargetLines(disk, dir, data, i)
  {
    assert data[..i + 1][..i] == data[..i];
  }

  lemma TargetFirst(disk: Disk, dir: string, data: seq<Entry>, t: Path)
    ensures Append(Put(disk, t, ""), t, HEADER + "\n") == Put(disk, t, Unlines(TargetLines(disk, dir, data, 0)))
  {
    AppendToPut(disk, t, "", HEADER + "\n");
    assert "" + (HEADER + "\n") == HEADER + "\n";
    UnlinesOne(HEADER);
    assert TargetLines(disk, dir, data, 0) == [HEADER];
  }

  // ----- A target that is one of the merged files -----

  /** The target lies in the data directory and was listed there: the loop comes to read what it writes. */
  predicate ReadsItself(target: string, dataDir: string, outDir: string, data: seq<Entry>) {
    dataDir == outDir && Entry(target, false) in data && !IsDotfile(target)
  }

  /** The lines of the target after it has been read up to line `j` and every kept line appended to it. */
  function SelfRead(lines: seq<string>, j: nat): seq<string> {
    if j == 0 then lines
    else
      var l := SelfRead(lines, j - 1);
      if j - 1 < |l| && l[j - 1] != TITLES then l + [l[j - 1]] else l
  }

  /** Then the loop never comes to its end: however much it has read, as many lines as at the start are ahead of it. */
  lemma {:induction false} NeverEnds(lines: seq<string>, j: nat)
    requires TITLES !in lines && lines != []
    ensures |SelfRead(lines, j)| == |lines| + j && TITLES !in SelfRead(lines, j)
  {
    if j > 0 {
      NeverEnds(lines, j - 1);
    }
  }

  lemma {:induction false} KeptHasNoTitles(lines: seq<string>)
    ensures TITLES !in Kept(lines)
  {
    if lines != [] {
      KeptHasNoTitles(lines[..|lines| - 1]);
    }
  }

  lemma {:induction false} MergedHasNoTitles(disk: Disk, dir: string, entries: seq<Entry>)
    ensures TITLES !in MergedLines(disk, dir, entries)
  {
    if entries != [] {
      var e := entries[|entries| - 1];
      MergedHasNoTitles(disk, dir, entries[..|entries| - 1]);
      if Merges(e) && Path(dir, e.name) in disk.files {
        KeptHasNoTitles(Scan(disk.files[Path(dir, e.name)]));
      }
    }
  }

  /** So it is with whatever the target holds when its turn comes. */
  lemma TargetNeverEnds(disk: Disk, dir: string, data: seq<Entry>, i: nat, j: nat)
    requires i <= |data|
    ensures |SelfRead(TargetLines(disk, dir, data, i), j)| > j
  {
    MergedHasNoTitles(disk, dir, data[..i]);
    assert HEADER != TITLES by { assert |HEADER| < |TITLES|; }
    NeverEnds(TargetLines(disk, dir, data, i), j);
  }

  /**
   * `data` is what os.ReadDir returned for the data directory. Err stands for an error, and also for the merge that
   * has no end.
   */
  method MergeMeasurements(target: string, dataDir: string, outDir: string, data: seq<Entry>, disk: Disk)
    returns (r: Result<Disk>)
    requires dataDir in disk.dirs ==> IsListing(disk, dataDir, data)
    ensures r.Ok? <==>
      dataDir in disk.dirs && CanCreate(disk, Path(outDir, target)) && !ReadsItself(target, dataDir, outDir, data)
    ensures r.Ok? ==> r.value == Put(disk, Path(outDir, target), MergedText(disk, dataDir, data))
    ensures MergedText(disk, dataDir, data) == Unlines(["tProducer,tConsumer"] + MergedLines(disk, dataDir, data))
  {
    if dataDir !in disk.dirs {
      return Err("cannot read data directory");
    }
    var t := Path(outDir, target);
    if !CanCreate(disk, t) {
      return Err("cannot create target file");
    }
    var d := Append(Create(disk, t).value, t, HEADER + "\n");
    TargetFirst(disk, dataDir, data, t);
    for i := 0 to |data|
      invariant d == Put(disk, t, Unlines(TargetLines(disk, dataDir, data, i)))
      invariant dataDir == outDir && !IsDotfile(target) ==> Entry(target, false) !in data[..i]
    {
      var x := data[i];
      TargetNext(disk, dataDir, data, i);
      if x.isDir {
        continue;
      }
      if IsDotfile(x.name) {
        continue;
      }
      var file := Path(dataDir, x.name);
      assert x == Entry(x.name, false) && x in data;
      if file == t {
        return Err("the merge does not end");
      }
      d := AppendLines(d.files[file], t, TargetLines(disk, dataDir, data, i), d);
    }
    assert data[..|data|] == data;
    r := Ok(d);
  }

  lemma {:induction false} KeptAll(lines: seq<string>)
    requires TITLES !in lines
    ensures Kept(lines) == lines
  {
    if lines != [] {
      KeptAll(lines[..|lines| - 1]);
      assert lines[|lines| - 1] in lines;
    }
  }

  /** No data row is mistaken for the titles, so a worker's file contributes exactly its rows, in order. */
  lemma LinesOfRows(disk: Disk, dir: string, name: string, rows: seq<Row>)
    requires Path(dir, name) in disk.files && disk.files[Path(dir, name)] == RowsText(rows) && !IsDotfile(name)
    ensures LinesOf(disk, dir, Entry(name, false)) == RowLines(rows)
  {
    ScanRowsText(rows);
    forall l | l in RowLines(rows)
      ensures l != TITLES
    {
      var i :| 0 <= i < |rows| && l == RowLine(rows[i]);
      RowIsNoTitle(rows[i]);
    }
    KeptAll(RowLines(rows));
  }

  lemma RowIsNoTitle(r: Row)
    ensures RowLine(r) != TITLES && RowLine(r) != HEADER
  {
    assert RowLine(r)[0] != 't';
  }
}
