/** Workloads on disk: an equal split into one file per worker, and reading them back. */
module Workloads {
  import opened Prelude
  import opened Decimal
  import opened Text
  import opened FileSystem

  type Message = string

  const WORKLOAD_DIR: string := "workloads"
  const FILE_PREFIX: string := "workload-worker-"

  function FileName(k: nat): string { FILE_PREFIX + Dec(k) }

  // ----- Generating -----

  predicate Lowercase(m: Message) { forall k :: 0 <= k < |m| ==> 'a' <= m[k] <= 'z' }

  predicate Generated(msgs: seq<Message>, size: nat) {
    forall i :: 0 <= i < |msgs| ==> |msgs[i]| == size && Lowercase(msgs[i])
  }

  /** `draws` are the results of rand.Intn(26), one for each byte. */
  method GenerateMessages(n: nat, size: nat, draws: seq<seq<nat>>) returns (msgs: seq<Message>)
    requires |draws| == n
    requires forall i :: 0 <= i < n ==> |draws[i]| == size && forall k :: 0 <= k < size ==> draws[i][k] < 26
    ensures |msgs| == n && Generated(msgs, size)
    ensures forall i, k :: 0 <= i < n && 0 <= k < size ==> msgs[i][k] as int == draws[i][k] + 97
  {
    msgs := [];
    for i := 0 to n
      invariant |msgs| == i && Generated(msgs, size)
      invariant forall j, k :: 0 <= j < i && 0 <= k < size ==> msgs[j][k] as int == draws[j][k] + 97
    {
      var msg := new char[size];
      for k := 0 to size
        invariant forall b :: 0 <= b < k ==> msg[b] as int == draws[i][b] + 97
      {
        msg[k] := (draws[i][k] + 97) as char;
      }
      msgs := msgs + [msg[..]];
    }
  }

  // ----- Storing -----

  /** The position of the first message of file `f`. */
  function Offset(f: nat, nPerFile: nat): nat {
    if f == 0 then 0 else Offset(f - 1, nPerFile) + nPerFile
  }

  lemma OffsetIsProduct(f: nat, nPerFile: nat)
    ensures Offset(f, nPerFile) == f * nPerFile
  {
  }

  lemma OffsetMonotone(f: nat, g: nat, nPerFile: nat)
    requires f <= g
    ensures Offset(f, nPerFile) <= Offset(g, nPerFile)
  {
    OffsetIsProduct(f, nPerFile);
    OffsetIsProduct(g, nPerFile);
    Multiply(f, g, nPerFile);
  }

  /** The messages of file `f`. */
  function Slice(msgs: seq<Message>, f: nat, nPerFile: nat): seq<Message>
    requires Offset(f + 1, nPerFile) <= |msgs|
  {
    msgs[Offset(f, nPerFile)..Offset(f + 1, nPerFile)]
  }

  /** The disk after the first `f` files. */
  function StoredFiles(disk: Disk, p: string, msgs: seq<Message>, nPerFile: nat, f: nat): (d: Disk)
    requires Offset(f, nPerFile) <= |msgs|
    ensures d.dirs == disk.dirs
  {
    if f == 0 then disk
    else
      Put(StoredFiles(disk, p, msgs, nPerFile, f - 1), Path(p, FileName(f - 1)), Unlines(Slice(msgs, f - 1, nPerFile)))
  }

  predicate Splits(msgs: seq<Message>, nSplit: int) { nSplit > 0 && |msgs| % nSplit == 0 }

  /** None of the paths Store is about to use is taken by a directory. */
  ghost predicate NoDirsInside(disk: Disk, p: string) {
    forall x :: Join(p, x) !in disk.dirs
  }

  method WriteFile(file: Path, msgs: seq<Message>, start: nat, nPerFile: nat, disk: Disk)
    returns (d: Disk, msgIndex: nat)
    requires CanCreate(disk, file) && start + nPerFile <= |msgs|
    ensures msgIndex == start + nPerFile
    ensures d == Put(disk, file, Unlines(msgs[start..start + nPerFile]))
  {
    d := Create(disk, file).value;
    msgIndex := start;
    for i := 0 to nPerFile
      invariant msgIndex == start + i
      invariant d == Put(disk, file, Unlines(msgs[start..start + i]))
    {
      AppendToPut(disk, file, Unlines(msgs[start..start + i]), msgs[msgIndex] + "\n");
      assert msgs[start..start + i + 1] == msgs[start..start + i] + [msgs[msgIndex]];
      UnlinesAdd(msgs[start..start + i], msgs[msgIndex]);
      d := Append(d, file, msgs[msgIndex] + "\n");
      msgIndex := msgIndex + 1;
    }
  }

  /** The message index runs through the nested loops without leaving the workload and ends at its end. */
  method Store(msgs: seq<Message>, subdir: string, nSplit: int, disk: Disk) returns (r: Result<Disk>)
    requires NoDirsInside(disk, Join(WORKLOAD_DIR, subdir))
    ensures !Splits(msgs, nSplit) || Join(WORKLOAD_DIR, subdir) in disk.dirs ==> r.Err?
    ensures Splits(msgs, nSplit) ==>
      (r.Ok? <==> "workloads" in disk.dirs && Path("workloads", subdir) !in disk.files &&
                  Join("workloads", subdir) !in disk.dirs)
    ensures r.Ok? ==>
      && Offset(nSplit, |msgs| / nSplit) == |msgs|
      && r.value == StoredFiles(Mkdir(disk, WORKLOAD_DIR, subdir).value, Join(WORKLOAD_DIR, subdir),
                                msgs, |msgs| / nSplit, nSplit)
  {
    if nSplit <= 0 {
      return Err("need input > 0");
    }
    if |msgs| % nSplit != 0 {
      return Err("unable to split workload equally");
    }
    var p := Join(WORKLOAD_DIR, subdir);
    if p in disk.dirs {
      return Err("directory already exists");
    }
    var made := Mkdir(disk, WORKLOAD_DIR, subdir);
    if made.Err? {
      return made;
    }
    var nPerFile := |msgs| / nSplit;
    OffsetIsProduct(nSplit, nPerFile);
    assert nSplit * nPerFile == |msgs|;
    var d := made.value;
    var msgIndex := 0;
    for fileIndex := 0 to nSplit
      invariant msgIndex == Offset(fileIndex, nPerFile) <= |msgs|
      invariant d == StoredFiles(made.value, p, msgs, nPerFile, fileIndex)
    {
      OffsetMonotone(fileIndex + 1, nSplit, nPerFile);
      assert d.dirs == made.value.dirs && Join(p, FileName(fileIndex)) != p;
      d, msgIndex := WriteFile(Path(p, FileName(fileIndex)), msgs, msgIndex, nPerFile, d);
    }
    r := Ok(d);
  }

  /** The line lists of the files in file order. */
  function Slices(msgs: seq<Message>, nPerFile: nat, f: nat): seq<Message>
    requires Offset(f, nPerFile) <= |msgs|
  {
    if f == 0 then [] else Slices(msgs, nPerFile, f - 1) + Slice(msgs, f - 1, nPerFile)
  }

  lemma {:induction false} SlicesConcatenate(msgs: seq<Message>, nPerFile: nat, f: nat)
    requires Offset(f, nPerFile) <= |msgs|
    ensures Slices(msgs, nPerFile, f) == msgs[..Offset(f, nPerFile)]
  {
    if f > 0 {
      SlicesConcatenate(msgs, nPerFile, f - 1);
    }
  }

  predicate HasShare(msgs: seq<Message>, f: nat, nPerFile: nat) {
    Offset(f + 1, nPerFile) <= |msgs| && |Slice(msgs, f, nPerFile)| == nPerFile
  }

  /** The files partition the workload: equal shares that concatenate, in file order, to what was stored. */
  lemma StorePartitions(msgs: seq<Message>, nSplit: nat)
    requires Splits(msgs, nSplit)
    ensures var n := |msgs| / nSplit;
      && Offset(nSplit, n) == |msgs|
      && Slices(msgs, n, nSplit) == msgs
      && forall f: nat :: f < nSplit ==> HasShare(msgs, f, n)
  {
    var n := |msgs| / nSplit;
    OffsetIsProduct(nSplit, n);
    SlicesConcatenate(msgs, n, nSplit);
    assert msgs[..|msgs|] == msgs;
    forall f: nat | f < nSplit
      ensures HasShare(msgs, f, n)
    {
      OffsetMonotone(f + 1, nSplit, n);
    }
  }

  // ----- Loading -----

  /** How loading ends: with the workloads, with an error, or with an index out of range. */
  datatype Loading = Loaded(workloads: seq<seq<Message>>) | Failed | Panicked

  function IsWorkloadFile(e: Entry): bool { FindNumber(e.name, FILE_PREFIX).Some? }

  function WorkloadFiles(entries: seq<Entry>): seq<Entry> {
    if entries == [] then []
    else
      var e := entries[|entries| - 1];
      WorkloadFiles(entries[..|entries| - 1]) + if IsWorkloadFile(e) then [e] else []
  }

  /** Every token without its last byte, or None for an empty token, whose slice expression panics. */
  function Trimmed(tokens: seq<string>): Option<seq<Message>> {
    if tokens == [] then Some([])
    else
      var t := tokens[|tokens| - 1];
      match Trimmed(tokens[..|tokens| - 1])
      case None => None
      case Some(ms) => if t == "" then None else Some(ms + [t[..|t| - 1]])
  }

  /** What a workload file gives; a directory of that name opens and gives no tokens. */
  function FileText(disk: Disk, dir: string, e: Entry): string {
    if !e.isDir && Path(dir, e.name) in disk.files then disk.files[Path(dir, e.name)] else ""
  }

  /** One file's contribution: a place and a workload. */
  function PlaceOne(ws: seq<seq<Message>>, disk: Disk, dir: string, e: Entry): Loading
    requires IsWorkloadFile(e)
  {
    match ParseInt(FindNumber(e.name, FILE_PREFIX).value)
    case None => Failed
    case Some(id) =>
      match Trimmed(Scan(FileText(disk, dir, e)))
      case None => Panicked
      case Some(w) => if 0 <= id < |ws| then Loaded(ws[id := w]) else Panicked
  }

  function PlaceAll(n: nat, disk: Disk, dir: string, files: seq<Entry>): Loading
    requires forall e :: e in files ==> IsWorkloadFile(e)
  {
    if files == [] then Loaded(seq(n, _ => []))
    else
      match PlaceAll(n, disk, dir, files[..|files| - 1])
      case Loaded(ws) => PlaceOne(ws, disk, dir, files[|files| - 1])
      case other => other
  }

  lemma WorkloadFilesAre(entries: seq<Entry>)
    ensures forall e :: e in WorkloadFiles(entries) <==> e in entries && IsWorkloadFile(e)
  {
    if entries != [] {
      WorkloadFilesAre(entries[..|entries| - 1]);
      assert entries == entries[..|entries| - 1] + [entries[|entries| - 1]];
    }
  }

  function Load(disk: Disk, dir: string, entries: seq<Entry>): Loading {
    var p := Join(WORKLOAD_DIR, dir);
    if p !in disk.dirs then Failed
    else
      WorkloadFilesAre(entries);
      PlaceAll(|WorkloadFiles(entries)|, disk, p, WorkloadFiles(entries))
  }

  lemma {:induction false} PlaceStops(n: nat, disk: Disk, dir: string, files: seq<Entry>, i: nat)
    requires i <= |files| && forall e :: e in files ==> IsWorkloadFile(e)
    requires !PlaceAll(n, disk, dir, files[..i]).Loaded?
    ensures PlaceAll(n, disk, dir, files) == PlaceAll(n, disk, dir, files[..i])
  {
    if i < |files| {
      var k := |files| - 1;
      assert files[..k][..i] == files[..i];
      PlaceStops(n, disk, dir, files[..k], i);
    } else {
      assert files[..i] == files;
    }
  }

  method ReadWorkload(text: string) returns (r: Option<seq<Message>>)
    ensures r == Trimmed(Scan(text))
  {
    var tokens := Scan(text);
    var workload := [];
    for i := 0 to |tokens|
      invariant Trimmed(tokens[..i]) == Some(workload)
    {
      var msg := tokens[i];
      assert tokens[..i + 1][..i] == tokens[..i];
      if msg == "" {
        TrimStops(tokens, i + 1);
        return None;
      }
      workload := workload + [msg[..|msg| - 1]];
    }
    assert tokens[..|tokens|] == tokens;
    r := Some(workload);
  }

  lemma {:induction false} TrimStops(tokens: seq<string>, i: nat)
    requires i <= |tokens| && Trimmed(tokens[..i]).None?
    ensures Trimmed(tokens).None?
  {
    if i < |tokens| {
      var k := |tokens| - 1;
      assert tokens[..k][..i] == tokens[..i];
      TrimStops(tokens[..k], i);
    } else {
      assert tokens[..i] == tokens;
    }
  }

  /** The part of the loading loop that handles one file. */
  method LoadOne(workloads: seq<seq<Message>>, disk: Disk, dir: string, file: Entry) returns (r: Loading)
    requires IsWorkloadFile(file)
    ensures r == PlaceOne(workloads, disk, dir, file)
    ensures r.Loaded? ==> |r.workloads| == |workloads|
  {
    var workerId := ParseInt(FindNumber(file.name, FILE_PREFIX).value);
    if workerId.None? {
      return Failed;
    }
    var workload := ReadWorkload(FileText(disk, dir, file));
    if workload.None? || !(0 <= workerId.value < |workloads|) {
      return Panicked;
    }
    r := Loaded(workloads[workerId.value := workload.value]);
  }

  method SelectWorkloadFiles(allFiles: seq<Entry>) returns (wlfiles: seq<Entry>)
    ensures wlfiles == WorkloadFiles(allFiles)
    ensures forall e :: e in wlfiles <==> e in allFiles && IsWorkloadFile(e)
  {
    wlfiles := [];
    for i := 0 to |allFiles|
      invariant wlfiles == WorkloadFiles(allFiles[..i])
    {
      assert allFiles[..i + 1][..i] == allFiles[..i];
      if FindNumber(allFiles[i].name, FILE_PREFIX).Some? {
        wlfiles := wlfiles + [allFiles[i]];
      }
    }
    assert allFiles[..|allFiles|] == allFiles;
    WorkloadFilesAre(allFiles);
  }

  /** The loading loop: it stops at the first file that fails or panics. */
  method LoadFiles(wlfiles: seq<Entry>, disk: Disk, dir: string) returns (r: Loading)
    requires forall e :: e in wlfiles ==> IsWorkloadFile(e)
    ensures r == PlaceAll(|wlfiles|, disk, dir, wlfiles)
  {
    var workloads := seq(|wlfiles|, _ => []);
    for i := 0 to |wlfiles|
      invariant |workloads| == |wlfiles|
      invariant PlaceAll(|wlfiles|, disk, dir, wlfiles[..i]) == Loaded(workloads)
    {
      assert wlfiles[i] in wlfiles && wlfiles[..i + 1][..i] == wlfiles[..i];
      var loaded := LoadOne(workloads, disk, dir, wlfiles[i]);
      if !loaded.Loaded? {
        PlaceStops(|wlfiles|, disk, dir, wlfiles, i + 1);
        return loaded;
      }
      workloads := loaded.workloads;
    }
    assert wlfiles[..|wlfiles|] == wlfiles;
    r := Loaded(workloads);
  }

  method LoadWorkloads(dir: string, allFiles: seq<Entry>, disk: Disk) returns (r: Loading)
    ensures r == Load(disk, dir, allFiles)
  {
    var p := Join(WORKLOAD_DIR, dir);
    if p !in disk.dirs {
      return Failed;
    }
    var wlfiles := SelectWorkloadFiles(allFiles);
    r := LoadFiles(wlfiles, disk, p);
  }

  // ----- How loading ends -----

  lemma {:induction false} TrimmedUnlessEmpty(tokens: seq<string>)
    ensures Trimmed(tokens).None? <==> "" in tokens
  {
    if tokens != [] {
      TrimmedUnlessEmpty(tokens[..|tokens| - 1]);
    }
  }

  /** The number in the name of a workload file does not fit an int. */
  predicate BadNumber(e: Entry) {
    match FindNumber(e.name, "workload-worker-")
    case None => false
    case Some(d) => ParseInt(d).None?
  }

  /** A token is empty, or the number in the name is not below `n`, the number of files. */
  predicate Breaks(disk: Disk, p: string, e: Entry, n: nat) {
    match FindNumber(e.name, "workload-worker-")
    case None => false
    case Some(d) =>
      match ParseInt(d)
      case None => false
      case Some(id) => "" in Scan(FileText(disk, p, e)) || !(0 <= id < n)
  }

  predicate Fine(disk: Disk, p: string, e: Entry, n: nat) { !BadNumber(e) && !Breaks(disk, p, e, n) }

  lemma OneEnds(ws: seq<seq<Message>>, disk: Disk, p: string, e: Entry)
    requires IsWorkloadFile(e)
    ensures PlaceOne(ws, disk, p, e).Failed? <==> BadNumber(e)
    ensures PlaceOne(ws, disk, p, e).Panicked? <==> Breaks(disk, p, e, |ws|)
    ensures PlaceOne(ws, disk, p, e).Loaded? ==> |PlaceOne(ws, disk, p, e).workloads| == |ws|
  {
    TrimmedUnlessEmpty(Scan(FileText(disk, p, e)));
  }

  /** The first file that is not fine. */
  ghost predicate FirstNot(files: seq<Entry>, fine: Entry -> bool, i: nat) {
    i < |files| && !fine(files[i]) && forall j :: 0 <= j < i ==> fine(files[j])
  }

  /** It decides how loading ends. */
  ghost predicate EndsAs(files: seq<Entry>, fine: Entry -> bool, bad: Entry -> bool, n: nat, r: Loading) {
    && (r.Loaded? <==> forall i :: 0 <= i < |files| ==> fine(files[i]))
    && (r.Loaded? ==> |r.workloads| == n)
    && forall i: nat :: FirstNot(files, fine, i) ==> if bad(files[i]) then r == Failed else r == Panicked
  }

  lemma EndsNext(files: seq<Entry>, e: Entry, fine: Entry -> bool, bad: Entry -> bool, n: nat,
                 before: Loading, r: Loading)
    requires EndsAs(files, fine, bad, n, before)
    requires if before.Loaded? then
        (r.Loaded? <==> fine(e)) && (r.Loaded? ==> |r.workloads| == n)
        && (!fine(e) ==> if bad(e) then r == Failed else r == Panicked)
      else r == before
    ensures EndsAs(files + [e], fine, bad, n, r)
  {
    var all := files + [e];
    forall i: nat | FirstNot(all, fine, i)
      ensures if bad(all[i]) then r == Failed else r == Panicked
    {
      forall j | 0 <= j < |files| && j < i
        ensures fine(files[j])
      {
        assert all[j] == files[j];
      }
      if i < |files| {
        assert FirstNot(files, fine, i);
      }
    }
    assert forall i :: 0 <= i < |files| ==> all[i] == files[i];
    assert all[|files|] == e;
  }

  ghost function FineIn(disk: Disk, p: string, n: nat): Entry -> bool { (e: Entry) => Fine(disk, p, e, n) }

  lemma {:induction false} PlacingEnds(n: nat, disk: Disk, p: string, files: seq<Entry>)
    requires forall e :: e in files ==> IsWorkloadFile(e)
    ensures EndsAs(files, FineIn(disk, p, n), BadNumber, n, PlaceAll(n, disk, p, files))
  {
    if files != [] {
      var k := |files| - 1;
      var before := PlaceAll(n, disk, p, files[..k]);
      PlacingEnds(n, disk, p, files[..k]);
      assert files[k] in files && files == files[..k] + [files[k]];
      if before.Loaded? {
        OneEnds(before.workloads, disk, p, files[k]);
      }
      EndsNext(files[..k], files[k], FineIn(disk, p, n), BadNumber, n, before, PlaceAll(n, disk, p, files));
    }
  }

  /**
   * Loading fails for a directory that is not there. Otherwise it loads, with a place for each workload file, exactly
   * when all of them are fine; the first that is not makes it fail, for a number that does not fit an int, or panic.
   */
  lemma LoadExactly(disk: Disk, dir: string, entries: seq<Entry>)
    ensures "workloads/" + dir !in disk.dirs ==> Load(disk, dir, entries) == Failed
    ensures "workloads/" + dir in disk.dirs ==>
      var files := WorkloadFiles(entries);
      EndsAs(files, FineIn(disk, "workloads/" + dir, |files|), BadNumber, |files|, Load(disk, dir, entries))
  {
    assert Join(WORKLOAD_DIR, dir) == "workloads/" + dir;
    WorkloadFilesAre(entries);
    PlacingEnds(|WorkloadFiles(entries)|, disk, "workloads/" + dir, WorkloadFiles(entries));
  }

  // ----- What loading gives -----

  /** The number in the file's name. */
  predicate NumberIs(e: Entry, k: int) {
    match FindNumber(e.name, "workload-worker-")
    case None => false
    case Some(d) => ParseInt(d) == Some(k)
  }

  ghost predicate LastWith(files: seq<Entry>, k: int, i: nat) {
    i < |files| && NumberIs(files[i], k) && forall j :: i < j < |files| ==> !NumberIs(files[j], k)
  }

  /** Every token without its last byte. */
  ghost predicate AreTrimmed(ms: seq<Message>, tokens: seq<string>) {
    |ms| == |tokens| && forall i :: 0 <= i < |ms| ==> |tokens[i]| == |ms[i]| + 1 && tokens[i][..|ms[i]|] == ms[i]
  }

  /** Place `k` has the messages of the last file with that number, and none if there is no such file. */
  ghost predicate SlotIs(w: seq<Message>, disk: Disk, p: string, files: seq<Entry>, k: int) {
    && ((forall e :: e in files ==> !NumberIs(e, k)) ==> w == [])
    && forall i: nat :: LastWith(files, k, i) ==> AreTrimmed(w, Scan(FileText(disk, p, files[i])))
  }

  lemma {:induction false} TrimmedAre(tokens: seq<string>)
    ensures Trimmed(tokens).Some? ==> AreTrimmed(Trimmed(tokens).value, tokens)
  {
    if tokens != [] && Trimmed(tokens).Some? {
      var n := |tokens| - 1;
      TrimmedAre(tokens[..n]);
      var before, ms := Trimmed(tokens[..n]).value, Trimmed(tokens).value;
      assert ms == before + [tokens[n][..|tokens[n]| - 1]];
      forall i | 0 <= i < n
        ensures |tokens[i]| == |ms[i]| + 1 && tokens[i][..|ms[i]|] == ms[i]
      {
        assert ms[i] == before[i] && tokens[..n][i] == tokens[i];
      }
    }
  }

  lemma SlotNext(w: seq<Message>, v: seq<Message>, disk: Disk, p: string, files: seq<Entry>, e: Entry, k: int)
    requires SlotIs(w, disk, p, files, k)
    requires if NumberIs(e, k) then AreTrimmed(v, Scan(FileText(disk, p, e))) else v == w
    ensures SlotIs(v, disk, p, files + [e], k)
  {
    var all := files + [e];
    assert all[|files|] == e;
    forall i: nat | LastWith(all, k, i)
      ensures AreTrimmed(v, Scan(FileText(disk, p, all[i])))
    {
      if i < |files| {
        assert !NumberIs(all[|files|], k);
        assert forall j :: 0 <= j < |files| ==> all[j] == files[j];
        assert LastWith(files, k, i);
      }
    }
  }

  lemma PlacedAt(ws: seq<seq<Message>>, disk: Disk, p: string, e: Entry, k: nat)
    requires IsWorkloadFile(e) && PlaceOne(ws, disk, p, e).Loaded? && k < |ws|
    ensures var r := PlaceOne(ws, disk, p, e).workloads;
      && |r| == |ws| && if NumberIs(e, k) then AreTrimmed(r[k], Scan(FileText(disk, p, e))) else r[k] == ws[k]
  {
    TrimmedAre(Scan(FileText(disk, p, e)));
  }

  /** Holds of the places after every further file that loads. */
  ghost predicate Lasts(good: (seq<seq<Message>>, seq<Entry>) -> bool, disk: Disk, p: string) {
    forall ws, files, e :: good(ws, files) && IsWorkloadFile(e) && PlaceOne(ws, disk, p, e).Loaded? ==>
      good(PlaceOne(ws, disk, p, e).workloads, files + [e])
  }

  lemma {:induction false} PlacingKeeps(good: (seq<seq<Message>>, seq<Entry>) -> bool, n: nat, disk: Disk, p: string,
                                       files: seq<Entry>)
    requires (forall e :: e in files ==> IsWorkloadFile(e)) && PlaceAll(n, disk, p, files).Loaded?
    requires Lasts(good, disk, p) && good(seq(n, _ => []), [])
    ensures good(PlaceAll(n, disk, p, files).workloads, files)
  {
    if files == [] {
    } else {
      var last := |files| - 1;
      PlacingKeeps(good, n, disk, p, files[..last]);
      assert files[last] in files && files == files[..last] + [files[last]];
    }
  }

  ghost function Slot(disk: Disk, p: string, n: nat, k: nat): (seq<seq<Message>>, seq<Entry>) -> bool {
    (ws: seq<seq<Message>>, files: seq<Entry>) => k < n == |ws| && SlotIs(ws[k], disk, p, files, k)
  }

  lemma SlotLasts(disk: Disk, p: string, n: nat, k: nat)
    ensures Lasts(Slot(disk, p, n, k), disk, p)
  {
    forall ws, files, e | Slot(disk, p, n, k)(ws, files) && IsWorkloadFile(e) && PlaceOne(ws, disk, p, e).Loaded?
      ensures Slot(disk, p, n, k)(PlaceOne(ws, disk, p, e).workloads, files + [e])
    {
      PlacedAt(ws, disk, p, e, k);
      SlotNext(ws[k], PlaceOne(ws, disk, p, e).workloads[k], disk, p, files, e, k);
    }
  }

  /** What is loaded, in any directory: each place has the messages of its file, each without its last byte. */
  lemma LoadPlaces(disk: Disk, dir: string, entries: seq<Entry>, k: nat)
    requires Load(disk, dir, entries).Loaded? && k < |Load(disk, dir, entries).workloads|
    ensures SlotIs(Load(disk, dir, entries).workloads[k], disk, "workloads/" + dir, entries, k)
  {
    WorkloadFilesAre(entries);
    var files := WorkloadFiles(entries);
    PlacingEnds(|files|, disk, Join(WORKLOAD_DIR, dir), files);
    SlotLasts(disk, Join(WORKLOAD_DIR, dir), |files|, k);
    PlacingKeeps(Slot(disk, Join(WORKLOAD_DIR, dir), |files|, k), |files|, disk, Join(WORKLOAD_DIR, dir), files);
    assert Join(WORKLOAD_DIR, dir) == "workloads/" + dir;
    SlotOfAll(Load(disk, dir, entries).workloads[k], disk, "workloads/" + dir, entries, k);
  }

  /** Files of other names do not matter. */
  lemma {:induction false} SlotOfAll(w: seq<Message>, disk: Disk, p: string, entries: seq<Entry>, k: int)
    requires SlotIs(w, disk, p, WorkloadFiles(entries), k)
    ensures SlotIs(w, disk, p, entries, k)
  {
    var files := WorkloadFiles(entries);
    WorkloadFilesAre(entries);
    forall i: nat | LastWith(entries, k, i)
      ensures AreTrimmed(w, Scan(FileText(disk, p, entries[i])))
    {
      var j := LastStays(entries, k, i);
    }
  }

  lemma {:induction false} LastStays(entries: seq<Entry>, k: int, i: nat) returns (j: nat)
    requires LastWith(entries, k, i)
    ensures LastWith(WorkloadFiles(entries), k, j) && WorkloadFiles(entries)[j] == entries[i]
  {
    var n := |entries| - 1;
    var files := WorkloadFiles(entries[..n]);
    if i == n {
      j := |files|;
    } else {
      assert !NumberIs(entries[n], k) && LastWith(entries[..n], k, i);
      j := LastStays(entries[..n], k, i);
    }
  }
}
