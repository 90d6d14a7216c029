/** What comes back when a stored workload is loaded. */
module WorkloadRoundTrip {
  import opened Prelude
  import opened Decimal
  import opened Text
  import opened FileSystem
  import opened Workloads

  // ----- One file -----

  /** Messages that fit the scanner's buffer and hold nothing but letters. */
  predicate Fits(m: Message) { Lowercase(m) && Short(m) }

  predicate Short(m: Message) { |m| <= MAX_LINE }

  /** What the scanner delivers of a file: it gives up at the first line that does not fit, without an error. */
  function Readable(ms: seq<Message>): seq<Message> { ms[..Leading(ms, Short)] }

  lemma AllReadable(ms: seq<Message>)
    requires forall m :: m in ms ==> Short(m)
    ensures Readable(ms) == ms
  {
    LeadingFrom(ms, Short, |ms|);
  }

  lemma {:induction false} ScanLetters(ms: seq<Message>)
    requires forall m :: m in ms ==> Lowercase(m)
    ensures Scan(Unlines(ms)) == Readable(ms)
  {
    if ms != [] {
      var rest := Unlines(ms[1..]);
      assert ms == [ms[0]] + ms[1..];
      UnlinesAppend([ms[0]], ms[1..]);
      UnlinesOne(ms[0]);
      if Short(ms[0]) {
        FitsIsPlain(ms[0]);
        ScanLine(ms[0], rest);
        ScanLetters(ms[1..]);
      } else {
        assert Lowercase(ms[0]);
        LineEndAt(ms[0] + "\n" + rest, |ms[0]|);
      }
    }
  }

  function Shorten(m: Message): Message
    requires m != ""
  {
    m[..|m| - 1]
  }

  function Shortened(ms: seq<Message>): (r: seq<Message>)
    requires forall i :: 0 <= i < |ms| ==> ms[i] != ""
    ensures |r| == |ms| && forall i :: 0 <= i < |ms| ==> r[i] == Shorten(ms[i])
  {
    seq(|ms|, i requires 0 <= i < |ms| => Shorten(ms[i]))
  }

  lemma {:induction false} TrimmedIs(ms: seq<Message>)
    ensures Trimmed(ms) == if "" in ms then None else Some(Shortened(ms))
  {
    if ms != [] {
      var n := |ms| - 1;
      TrimmedIs(ms[..n]);
      assert ms == ms[..n] + [ms[n]];
      if "" !in ms {
        assert Shortened(ms) == Shortened(ms[..n]) + [Shorten(ms[n])];
      }
    }
  }

  lemma FitsIsPlain(m: Message)
    requires Fits(m)
    ensures Plain(m)
  {
  }

  /** A stored file gives what is readable of it without the last bytes, or a panic when it has an empty message. */
  lemma ReadBack(ms: seq<Message>)
    requires forall m :: m in ms ==> Lowercase(m)
    ensures Trimmed(Scan(Unlines(ms))) == if "" in Readable(ms) then None else Some(Shortened(Readable(ms)))
  {
    ScanLetters(ms);
    TrimmedIs(Readable(ms));
  }

  /** So it comes back in full length if and only if every message fits and none is empty. */
  lemma ReadBackInFull(ms: seq<Message>)
    requires forall m :: m in ms ==> Lowercase(m)
    ensures var r := Trimmed(Scan(Unlines(ms)));
      (r.Some? && |r.value| == |ms|) <==> forall m :: m in ms ==> Short(m) && m != ""
  {
    ReadBack(ms);
    if forall m :: m in ms ==> Short(m) {
      AllReadable(ms);
    } else {
      var m :| m in ms && !Short(m);
      if |Readable(ms)| == |ms| {
        LeadingIsP(ms, Short);
      }
    }
  }

  lemma {:induction false} LeadingIsP(ms: seq<Message>, p: Message -> bool)
    requires Leading(ms, p) == |ms|
    ensures forall m :: m in ms ==> p(m)
  {
    if ms != [] {
      LeadingIsP(ms[1..], p);
      assert ms == [ms[0]] + ms[1..];
    }
  }

  // ----- All files -----

  function FileEntry(k: nat): Entry { Entry(FileName(k), false) }

  lemma FileNumber(k: nat)
    ensures IsWorkloadFile(FileEntry(k))
    ensures FindNumber(FileName(k), FILE_PREFIX) == Some(Dec(k))
    ensures k < TWO_TO_THE_63 ==> ParseInt(Dec(k)) == Some(k)
  {
    FindNumberAtStart(FILE_PREFIX, Dec(k), "");
    assert FILE_PREFIX + Dec(k) + "" == FileName(k);
    if k < TWO_TO_THE_63 {
      ParseFormat(k);
    }
  }

  lemma FileNameInjective(j: nat, k: nat)
    requires FileName(j) == FileName(k)
    ensures j == k
  {
    assert FileName(j)[|FILE_PREFIX|..] == Dec(j) && FileName(k)[|FILE_PREFIX|..] == Dec(k);
    DecInjective(j, k);
  }

  function FileEntries(n: nat): (r: seq<Entry>)
    ensures |r| == n && forall k :: 0 <= k < n ==> r[k] == FileEntry(k)
  {
    if n == 0 then [] else FileEntries(n - 1) + [FileEntry(n - 1)]
  }

  /** The directory holds exactly the files 0 to n-1, and file `k` has text `texts[k]`. */
  ghost predicate Holds(disk: Disk, p: string, texts: seq<string>) {
    && (forall q :: q in disk.files && q.dir == p ==> exists k: nat :: k < |texts| && q.name == FileName(k))
    && (forall k: nat {:trigger FileName(k)} :: k < |texts| ==>
          Path(p, FileName(k)) in disk.files && disk.files[Path(p, FileName(k))] == texts[k])
    && (forall x :: Join(p, x) !in disk.dirs)
  }

  ghost predicate Numbered(e: Entry, n: nat) { exists k: nat :: k < n && e == FileEntry(k) }

  ghost predicate AllNumbered(files: seq<Entry>, n: nat) {
    forall e :: e in files ==> IsWorkloadFile(e) && Numbered(e, n)
  }

  /** Placement goes by the number in the name. */
  lemma PlaceNumbered(ws: seq<seq<Message>>, disk: Disk, p: string, texts: seq<string>, k: nat)
    requires Holds(disk, p, texts) && k < |texts| == |ws| < TWO_TO_THE_63
    ensures IsWorkloadFile(FileEntry(k))
    ensures PlaceOne(ws, disk, p, FileEntry(k)) ==
            match Trimmed(Scan(texts[k])) case None => Panicked case Some(w) => Loaded(ws[k := w])
  {
    FileNumber(k);
    assert FileText(disk, p, FileEntry(k)) == texts[k];
  }

  /** The slots that the files name have those files' contents. */
  ghost predicate Filled(ws: seq<seq<Message>>, texts: seq<string>, files: seq<Entry>) {
    && |ws| == |texts|
    && forall k: nat :: k < |texts| && FileEntry(k) in files ==> SlotIs(ws, texts, k)
  }

  predicate SlotIs(ws: seq<seq<Message>>, texts: seq<string>, k: nat)
    requires k < |ws| == |texts|
  {
    Trimmed(Scan(texts[k])) == Some(ws[k])
  }

  lemma FilledByOne(ws: seq<seq<Message>>, texts: seq<string>, files: seq<Entry>, j: nat, w: seq<Message>)
    requires Filled(ws, texts, files) && j < |texts| && Trimmed(Scan(texts[j])) == Some(w)
    ensures Filled(ws[j := w], texts, files + [FileEntry(j)])
  {
    forall k: nat | k < |texts| && FileEntry(k) in files + [FileEntry(j)]
      ensures SlotIs(ws[j := w], texts, k)
    {
      if k != j {
        if FileEntry(k) == FileEntry(j) {
          FileNameInjective(k, j);
        }
        assert SlotIs(ws, texts, k);
      }
    }
  }

  /** So the order of the listing does not matter. */
  lemma {:induction false} PlacesAll(disk: Disk, p: string, texts: seq<string>, files: seq<Entry>)
    requires Holds(disk, p, texts) && |texts| < TWO_TO_THE_63 && AllNumbered(files, |texts|)
    requires forall k: nat {:trigger texts[k]} :: k < |texts| ==> Trimmed(Scan(texts[k])).Some?
    ensures PlaceAll(|texts|, disk, p, files).Loaded?
    ensures Filled(PlaceAll(|texts|, disk, p, files).workloads, texts, files)
  {
    if files != [] {
      var n := |files| - 1;
      var before := files[..n];
      assert files == before + [files[n]];
      assert files[n] in files && forall e :: e in before ==> e in files;
      PlacesAll(disk, p, texts, before);
      var ws := PlaceAll(|texts|, disk, p, before).workloads;
      var j: nat :| j < |texts| && files[n] == FileEntry(j);
      PlaceNumbered(ws, disk, p, texts, j);
      FilledByOne(ws, texts, before, j, Trimmed(Scan(texts[j])).value);
    }
  }

  /** What is in the directory is what a listing lists. */
  lemma ListedNumbered(disk: Disk, p: string, texts: seq<string>, entries: seq<Entry>)
    requires Holds(disk, p, texts) && IsListing(disk, p, entries)
    ensures AllNumbered(entries, |texts|)
    ensures forall k: nat :: k < |texts| ==> FileEntry(k) in entries
  {
    forall e | e in entries
      ensures IsWorkloadFile(e) && Numbered(e, |texts|)
    {
      assert e == Entry(e.name, e.isDir);
      assert !e.isDir;
      var k: nat :| k < |texts| && e.name == FileName(k);
      FileNumber(k);
      assert e == FileEntry(k);
    }
    forall k: nat | k < |texts|
      ensures FileEntry(k) in entries
    {
      assert Path(p, FileName(k)) in disk.files;
      assert Entry(FileName(k), false) in entries;
    }
  }

  lemma FileEntriesDistinct(n: nat)
    ensures NoDup(FileEntries(n))
  {
    var all := FileEntries(n);
    forall i, j | 0 <= i < j < n
      ensures all[i] != all[j]
    {
      if FileEntry(i) == FileEntry(j) {
        FileNameInjective(i, j);
      }
    }
  }

  /** A listing of the directory has one entry for each file. */
  lemma ListedCount(entries: seq<Entry>, n: nat)
    requires NoDup(entries) && AllNumbered(entries, n)
    requires forall k: nat :: k < n ==> FileEntry(k) in entries
    ensures |entries| == n
  {
    var all := FileEntries(n);
    FileEntriesDistinct(n);
    forall e
      ensures e in entries <==> e in all
    {
      if e in all {
        var k :| 0 <= k < |all| && all[k] == e;
        assert e == FileEntry(k);
      }
      if e in entries {
        var k: nat :| k < n && e == FileEntry(k);
        assert all[k] == e;
      }
    }
    SameElements(entries, all);
  }

  lemma {:induction false} AllAreWorkloadFiles(entries: seq<Entry>)
    requires forall e :: e in entries ==> IsWorkloadFile(e)
    ensures WorkloadFiles(entries) == entries
  {
    if entries != [] {
      AllAreWorkloadFiles(entries[..|entries| - 1]);
      assert entries[|entries| - 1] in entries;
    }
  }

  // ----- What Store leaves -----

  function Texts(msgs: seq<Message>, nPerFile: nat, f: nat): (r: seq<string>)
    requires Offset(f, nPerFile) <= |msgs|
    ensures |r| == f
  {
    if f == 0 then [] else Texts(msgs, nPerFile, f - 1) + [Unlines(Slice(msgs, f - 1, nPerFile))]
  }

  lemma {:induction false} TextsAre(msgs: seq<Message>, nPerFile: nat, f: nat, k: nat)
    requires Offset(f, nPerFile) <= |msgs| && k < f
    ensures Offset(k + 1, nPerFile) <= |msgs|
    ensures Texts(msgs, nPerFile, f)[k] == Unlines(Slice(msgs, k, nPerFile))
  {
    if k < f - 1 {
      TextsAre(msgs, nPerFile, f - 1, k);
    }
  }

  /** A workload directory that is not there yet has nothing in it. */
  ghost predicate Absent(disk: Disk, p: string) {
    && NoDirsInside(disk, p)
    && forall q :: q in disk.files ==> q.dir != p
  }

  lemma HoldsOneMore(disk: Disk, p: string, texts: seq<string>, text: string)
    requires Holds(disk, p, texts)
    ensures Holds(Put(disk, Path(p, FileName(|texts|)), text), p, texts + [text])
  {
    var n := |texts|;
    var d, more := Put(disk, Path(p, FileName(n)), text), texts + [text];
    forall q | q in d.files && q.dir == p
      ensures exists k: nat :: k < |more| && q.name == FileName(k)
    {
      if q == Path(p, FileName(n)) {
        assert q.name == FileName(n);
      } else {
        assert q in disk.files;
      }
    }
    forall k: nat | k < |more|
      ensures Path(p, FileName(k)) in d.files && d.files[Path(p, FileName(k))] == more[k]
    {
      if k < n && FileName(k) == FileName(n) {
        FileNameInjective(k, n);
      }
    }
  }

  lemma {:induction false} StoredHolds(disk: Disk, p: string, msgs: seq<Message>, nPerFile: nat, f: nat)
    requires Offset(f, nPerFile) <= |msgs| && Absent(disk, p)
    ensures Holds(StoredFiles(disk, p, msgs, nPerFile, f), p, Texts(msgs, nPerFile, f))
  {
    if f > 0 {
      StoredHolds(disk, p, msgs, nPerFile, f - 1);
      HoldsOneMore(StoredFiles(disk, p, msgs, nPerFile, f - 1), p, Texts(msgs, nPerFile, f - 1),
                   Unlines(Slice(msgs, f - 1, nPerFile)));
    }
  }

  /** The workload that was stored, in the shape that loading gives, message by message. */
  ghost predicate LosesLastBytes(ws: seq<seq<Message>>, msgs: seq<Message>, nPerFile: nat) {
    forall k: nat :: k < |ws| ==> SlotLoses(ws[k], msgs, nPerFile, k)
  }

  ghost predicate SlotLoses(w: seq<Message>, msgs: seq<Message>, nPerFile: nat, k: nat) {
    |w| == nPerFile && forall i: nat :: i < nPerFile ==> EntryLoses(w, msgs, nPerFile, k, i)
  }

  predicate EntryLoses(w: seq<Message>, msgs: seq<Message>, nPerFile: nat, k: nat, i: nat)
    requires i < |w|
  {
    && k * nPerFile + i < |msgs|
    && var m := msgs[k * nPerFile + i];
       m != "" && w[i] == m[..|m| - 1]
  }

  ghost predicate ComesBack(r: Loading, msgs: seq<Message>, nSplit: nat) {
    nSplit > 0 && r.Loaded? && |r.workloads| == nSplit && LosesLastBytes(r.workloads, msgs, |msgs| / nSplit)
  }

  /** The disk right after a successful Store. */
  function AfterStore(disk: Disk, subdir: string, msgs: seq<Message>, nSplit: nat): (d: Disk)
    requires Splits(msgs, nSplit) && Mkdir(disk, WORKLOAD_DIR, subdir).Ok?
    ensures Join(WORKLOAD_DIR, subdir) in d.dirs
  {
    StorePartitions(msgs, nSplit);
    StoredFiles(Mkdir(disk, WORKLOAD_DIR, subdir).value, Join(WORKLOAD_DIR, subdir), msgs, |msgs| / nSplit, nSplit)
  }

  lemma MadeAbsent(disk: Disk, subdir: string)
    requires Mkdir(disk, WORKLOAD_DIR, subdir).Ok? && Absent(disk, Join(WORKLOAD_DIR, subdir))
    ensures Absent(Mkdir(disk, WORKLOAD_DIR, subdir).value, Join(WORKLOAD_DIR, subdir))
  {
    var made, p := Mkdir(disk, WORKLOAD_DIR, subdir).value, Join(WORKLOAD_DIR, subdir);
    forall x
      ensures Join(p, x) !in made.dirs
    {
      assert |Join(p, x)| > |p|;
    }
  }

  /** Store succeeded in a directory that was not there, and `entries` lists what it left, in some order. */
  ghost predicate StoredAndListed(disk: Disk, subdir: string, msgs: seq<Message>, nSplit: nat, entries: seq<Entry>) {
    && Splits(msgs, nSplit) && nSplit < TWO_TO_THE_63
    && Mkdir(disk, WORKLOAD_DIR, subdir).Ok? && Absent(disk, Join(WORKLOAD_DIR, subdir))
    && IsListing(AfterStore(disk, subdir, msgs, nSplit), Join(WORKLOAD_DIR, subdir), entries)
  }

  /** The texts of the files that Store writes. */
  function StoredTexts(msgs: seq<Message>, nSplit: nat): (r: seq<string>)
    requires Splits(msgs, nSplit)
    ensures |r| == nSplit
  {
    StorePartitions(msgs, nSplit);
    Texts(msgs, |msgs| / nSplit, nSplit)
  }

  lemma AfterStoreHolds(disk: Disk, subdir: string, msgs: seq<Message>, nSplit: nat)
    requires Splits(msgs, nSplit) && Mkdir(disk, WORKLOAD_DIR, subdir).Ok? && Absent(disk, Join(WORKLOAD_DIR, subdir))
    ensures Holds(AfterStore(disk, subdir, msgs, nSplit), Join(WORKLOAD_DIR, subdir), StoredTexts(msgs, nSplit))
  {
    var made, p, n := Mkdir(disk, WORKLOAD_DIR, subdir).value, Join(WORKLOAD_DIR, subdir), |msgs| / nSplit;
    StorePartitions(msgs, nSplit);
    MadeAbsent(disk, subdir);
    assert AfterStore(disk, subdir, msgs, nSplit) == StoredFiles(made, p, msgs, n, nSplit);
    StoredHolds(made, p, msgs, n, nSplit);
  }

  lemma SliceAt(msgs: seq<Message>, n: nat, k: nat)
    requires Offset(k + 1, n) <= |msgs|
    ensures 0 <= k * n <= k * n + n <= |msgs| && Slice(msgs, k, n) == msgs[k * n..k * n + n]
  {
    OffsetIsProduct(k, n);
  }

  lemma Spelled(subdir: string, k: nat)
    ensures Path(Join(WORKLOAD_DIR, subdir), FileName(k)) == Path("workloads/" + subdir, "workload-worker-" + Dec(k))
  {
    assert Join(WORKLOAD_DIR, subdir) == "workloads/" + subdir;
  }

  /** File `k` of a stored workload by its name, and what is in it. */
  lemma StoreLeaves(disk: Disk, subdir: string, msgs: seq<Message>, nSplit: nat, k: nat)
    requires Splits(msgs, nSplit) && Mkdir(disk, WORKLOAD_DIR, subdir).Ok? && Absent(disk, Join(WORKLOAD_DIR, subdir))
    requires k < nSplit
    ensures var d, n := AfterStore(disk, subdir, msgs, nSplit), |msgs| / nSplit;
      var file := Path("workloads/" + subdir, "workload-worker-" + Dec(k));
      && file in d.files && 0 <= k * n <= k * n + n <= |msgs| && d.files[file] == Unlines(msgs[k * n..k * n + n])
  {
    AfterStoreHolds(disk, subdir, msgs, nSplit);
    Spelled(subdir, k);
    StoredTextIs(msgs, nSplit, k);
  }

  lemma StoredTextIs(msgs: seq<Message>, nSplit: nat, k: nat)
    requires Splits(msgs, nSplit) && k < nSplit
    ensures var n := |msgs| / nSplit;
      0 <= k * n <= k * n + n <= |msgs| && StoredTexts(msgs, nSplit)[k] == Unlines(msgs[k * n..k * n + n])
  {
    var n := |msgs| / nSplit;
    StorePartitions(msgs, nSplit);
    TextsAre(msgs, n, nSplit, k);
    SliceAt(msgs, n, k);
  }

  lemma LoadIsPlaceAll(disk: Disk, dir: string, texts: seq<string>, entries: seq<Entry>)
    requires var p := Join(WORKLOAD_DIR, dir);
      p in disk.dirs && Holds(disk, p, texts) && IsListing(disk, p, entries)
    ensures AllNumbered(entries, |texts|)
    ensures forall k: nat :: k < |texts| ==> FileEntry(k) in entries
    ensures Load(disk, dir, entries) == PlaceAll(|texts|, disk, Join(WORKLOAD_DIR, dir), entries)
  {
    ListedNumbered(disk, Join(WORKLOAD_DIR, dir), texts, entries);
    ListedCount(entries, |texts|);
    AllAreWorkloadFiles(entries);
  }

  /** Readable files fill every slot, whatever the order of the listing. */
  lemma LoadsTexts(d: Disk, dir: string, texts: seq<string>, entries: seq<Entry>)
    requires |texts| < TWO_TO_THE_63
    requires forall k: nat {:trigger texts[k]} :: k < |texts| ==> Trimmed(Scan(texts[k])).Some?
    requires var p := Join(WORKLOAD_DIR, dir); p in d.dirs && Holds(d, p, texts) && IsListing(d, p, entries)
    ensures Load(d, dir, entries).Loaded? && |Load(d, dir, entries).workloads| == |texts|
    ensures forall k: nat :: k < |texts| ==> SlotIs(Load(d, dir, entries).workloads, texts, k)
  {
    var p := Join(WORKLOAD_DIR, dir);
    LoadIsPlaceAll(d, dir, texts, entries);
    PlacesAll(d, p, texts, entries);
    forall k: nat | k < |texts|
      ensures SlotIs(PlaceAll(|texts|, d, p, entries).workloads, texts, k)
    {
      assert FileEntry(k) in entries;
    }
  }

  lemma LoadsBack(d: Disk, dir: string, msgs: seq<Message>, nSplit: nat, entries: seq<Entry>)
    requires Splits(msgs, nSplit) && nSplit < TWO_TO_THE_63 && forall m :: m in msgs ==> Fits(m) && m != ""
    requires var p := Join(WORKLOAD_DIR, dir);
      p in d.dirs && Holds(d, p, StoredTexts(msgs, nSplit)) && IsListing(d, p, entries)
    ensures ComesBack(Load(d, dir, entries), msgs, nSplit)
  {
    TextsReadBack(msgs, nSplit);
    LoadsTexts(d, dir, StoredTexts(msgs, nSplit), entries);
    SlotsLoseLastBytes(Load(d, dir, entries).workloads, msgs, nSplit);
  }

  /**
   * Loading what Store wrote, whatever the order of the directory listing, fills every slot, and entry `i` of slot
   * `k` is message `k * (len/nSplit) + i` without its last byte, the scanner having taken the newline already.
   */
  lemma RoundTrip(disk: Disk, subdir: string, msgs: seq<Message>, nSplit: nat, entries: seq<Entry>)
    requires StoredAndListed(disk, subdir, msgs, nSplit, entries)
    requires forall m :: m in msgs ==> Fits(m) && m != ""
    ensures ComesBack(Load(AfterStore(disk, subdir, msgs, nSplit), subdir, entries), msgs, nSplit)
  {
    AfterStoreHolds(disk, subdir, msgs, nSplit);
    LoadsBack(AfterStore(disk, subdir, msgs, nSplit), subdir, msgs, nSplit, entries);
  }

  lemma TextsReadBack(msgs: seq<Message>, nSplit: nat)
    requires Splits(msgs, nSplit) && forall m :: m in msgs ==> Fits(m) && m != ""
    ensures forall k: nat {:trigger StoredTexts(msgs, nSplit)[k]} :: k < nSplit ==>
              Trimmed(Scan(StoredTexts(msgs, nSplit)[k])).Some?
  {
    StorePartitions(msgs, nSplit);
    forall k: nat | k < nSplit
      ensures Trimmed(Scan(StoredTexts(msgs, nSplit)[k])).Some?
    {
      SliceReadBack(msgs, |msgs| / nSplit, nSplit, k);
    }
  }

  lemma SlotsLoseLastBytes(ws: seq<seq<Message>>, msgs: seq<Message>, nSplit: nat)
    requires Splits(msgs, nSplit) && forall m :: m in msgs ==> Fits(m) && m != ""
    requires |ws| == nSplit && forall k: nat :: k < nSplit ==> SlotIs(ws, StoredTexts(msgs, nSplit), k)
    ensures LosesLastBytes(ws, msgs, |msgs| / nSplit)
  {
    StorePartitions(msgs, nSplit);
    var n := |msgs| / nSplit;
    forall k: nat | k < |ws|
      ensures SlotLoses(ws[k], msgs, n, k)
    {
      assert SlotIs(ws, StoredTexts(msgs, nSplit), k);
      assert HasShare(msgs, k, n);
      SliceReadBack(msgs, n, nSplit, k);
      forall i: nat | i < n
        ensures EntryLoses(ws[k], msgs, n, k, i)
      {
        SliceEntry(msgs, n, nSplit, k, i);
      }
    }
  }

  lemma SliceIsIn(msgs: seq<Message>, k: nat, n: nat)
    requires Offset(k + 1, n) <= |msgs|
    ensures forall x :: x in Slice(msgs, k, n) ==> x in msgs
  {
  }

  lemma SliceReadBack(msgs: seq<Message>, n: nat, f: nat, k: nat)
    requires Offset(f, n) <= |msgs| && k < f && forall m :: m in msgs ==> Fits(m) && m != ""
    ensures Offset(k + 1, n) <= |msgs|
    ensures forall i :: 0 <= i < |Slice(msgs, k, n)| ==> Slice(msgs, k, n)[i] != ""
    ensures Trimmed(Scan(Texts(msgs, n, f)[k])) == Some(Shortened(Slice(msgs, k, n)))
  {
    TextsAre(msgs, n, f, k);
    var ms := Slice(msgs, k, n);
    SliceIsIn(msgs, k, n);
    assert "" !in ms;
    AllReadable(ms);
    ReadBack(ms);
  }

  lemma SliceEntry(msgs: seq<Message>, n: nat, f: nat, k: nat, i: nat)
    requires Offset(f, n) <= |msgs| && k < f && i < n
    ensures Offset(k + 1, n) <= |msgs| && |Slice(msgs, k, n)| == n
    ensures k * n + i < |msgs| && Slice(msgs, k, n)[i] == msgs[k * n + i]
  {
    OffsetMonotone(k + 1, f, n);
    OffsetIsProduct(k, n);
  }

  /** With one file that panics, the loading panics. */
  lemma {:induction false} PlacePanics(disk: Disk, p: string, texts: seq<string>, files: seq<Entry>, j: nat)
    requires Holds(disk, p, texts) && |texts| < TWO_TO_THE_63 && AllNumbered(files, |texts|)
    requires j < |texts| && Trimmed(Scan(texts[j])).None?
    ensures match PlaceAll(|texts|, disk, p, files)
      case Loaded(ws) => |ws| == |texts| && FileEntry(j) !in files
      case Panicked => true
      case Failed => false
  {
    if files != [] {
      var n := |files| - 1;
      assert files == files[..n] + [files[n]];
      assert files[n] in files && forall e :: e in files[..n] ==> e in files;
      PlacePanics(disk, p, texts, files[..n], j);
      var before := PlaceAll(|texts|, disk, p, files[..n]);
      if before.Loaded? {
        var k: nat :| k < |texts| && files[n] == FileEntry(k);
        PlaceNumbered(before.workloads, disk, p, texts, k);
        if files[n] == FileEntry(j) {
          FileNameInjective(k, j);
        }
      }
    }
  }

  /** A file with an empty message in it makes the loading of what Store wrote panic. */
  lemma EmptyPanics(disk: Disk, subdir: string, msgs: seq<Message>, nSplit: nat, entries: seq<Entry>)
    requires StoredAndListed(disk, subdir, msgs, nSplit, entries)
    requires "" in msgs && forall m :: m in msgs ==> Fits(m)
    ensures Load(AfterStore(disk, subdir, msgs, nSplit), subdir, entries).Panicked?
  {
    var d, texts := AfterStore(disk, subdir, msgs, nSplit), StoredTexts(msgs, nSplit);
    AfterStoreHolds(disk, subdir, msgs, nSplit);
    LoadIsPlaceAll(d, subdir, texts, entries);
    var j := EmptyText(msgs, nSplit);
    PlacePanics(d, Join(WORKLOAD_DIR, subdir), texts, entries, j);
    assert FileEntry(j) in entries;
  }

  lemma EmptyText(msgs: seq<Message>, nSplit: nat) returns (j: nat)
    requires Splits(msgs, nSplit) && "" in msgs && forall m :: m in msgs ==> Fits(m)
    ensures j < nSplit && Trimmed(Scan(StoredTexts(msgs, nSplit)[j])).None?
  {
    var n := |msgs| / nSplit;
    StorePartitions(msgs, nSplit);
    j := SliceWith(msgs, n, nSplit, "");
    TextsAre(msgs, n, nSplit, j);
    SliceIsIn(msgs, j, n);
    AllReadable(Slice(msgs, j, n));
    ReadBack(Slice(msgs, j, n));
  }

  /**
   * So a stored workload of letters within the scanner's limit loads if and only if no message is empty, and panics
   * otherwise; and every message that it loads is one byte short.
   */
  lemma LoadsUnlessEmpty(disk: Disk, subdir: string, msgs: seq<Message>, nSplit: nat, entries: seq<Entry>)
    requires StoredAndListed(disk, subdir, msgs, nSplit, entries)
    requires forall m :: m in msgs ==> Fits(m)
    ensures Load(AfterStore(disk, subdir, msgs, nSplit), subdir, entries).Panicked? <==> "" in msgs
    ensures Load(AfterStore(disk, subdir, msgs, nSplit), subdir, entries).Loaded? <==> "" !in msgs
  {
    if "" in msgs {
      EmptyPanics(disk, subdir, msgs, nSplit, entries);
    } else {
      RoundTrip(disk, subdir, msgs, nSplit, entries);
    }
  }

  lemma {:induction false} SliceWith(msgs: seq<Message>, n: nat, f: nat, m: Message) returns (j: nat)
    requires Offset(f, n) <= |msgs| && m in Slices(msgs, n, f)
    ensures j < f && Offset(j + 1, n) <= |msgs| && m in Slice(msgs, j, n)
  {
    if m in Slice(msgs, f - 1, n) {
      j := f - 1;
    } else {
      j := SliceWith(msgs, n, f - 1, m);
    }
  }

  /**
   * The exact condition, for all workloads of letters: what was stored comes back, but for the last bytes, if and only
   * if every message fits the scanner's buffer and none is empty.
   */
  lemma ComesBackExactly(disk: Disk, subdir: string, msgs: seq<Message>, nSplit: nat, entries: seq<Entry>)
    requires StoredAndListed(disk, subdir, msgs, nSplit, entries)
    requires forall m :: m in msgs ==> Lowercase(m)
    ensures ComesBack(Load(AfterStore(disk, subdir, msgs, nSplit), subdir, entries), msgs, nSplit) <==>
            forall m :: m in msgs ==> Short(m) && m != ""
  {
    if forall m :: m in msgs ==> Short(m) && m != "" {
      RoundTrip(disk, subdir, msgs, nSplit, entries);
    } else if ComesBack(Load(AfterStore(disk, subdir, msgs, nSplit), subdir, entries), msgs, nSplit) {
      AfterStoreHolds(disk, subdir, msgs, nSplit);
      ComesBackInFull(Load(AfterStore(disk, subdir, msgs, nSplit), subdir, entries), msgs, nSplit);
      FullSlots(AfterStore(disk, subdir, msgs, nSplit), subdir, msgs, nSplit, entries);
      var m :| m in msgs && !(Short(m) && m != "");
      var j := SliceOf(msgs, nSplit, m);
      assert false;
    }
  }

  /** File `k` comes back in full length. */
  predicate SlotInFull(msgs: seq<Message>, nSplit: nat, k: nat)
    requires Splits(msgs, nSplit) && k < nSplit
  {
    TextInFull(StoredTexts(msgs, nSplit)[k], |msgs| / nSplit)
  }

  predicate TextInFull(text: string, n: nat) {
    var r := Trimmed(Scan(text));
    r.Some? && |r.value| == n
  }

  /** Files that load have nothing empty among what is readable of them. */
  lemma LoadedFiles(d: Disk, dir: string, texts: seq<string>, entries: seq<Entry>)
    requires |texts| < TWO_TO_THE_63 && Load(d, dir, entries).Loaded?
    requires var p := Join(WORKLOAD_DIR, dir); p in d.dirs && Holds(d, p, texts) && IsListing(d, p, entries)
    ensures forall k: nat {:trigger texts[k]} :: k < |texts| ==> Trimmed(Scan(texts[k])).Some?
  {
    LoadIsPlaceAll(d, dir, texts, entries);
    forall k: nat | k < |texts|
      ensures Trimmed(Scan(texts[k])).Some?
    {
      if Trimmed(Scan(texts[k])).None? {
        assert FileEntry(k) in entries;
        PlacePanics(d, Join(WORKLOAD_DIR, dir), texts, entries, k);
      }
    }
  }

  /** Slots of full length come from files that are read in full. */
  lemma FullSlots(d: Disk, dir: string, msgs: seq<Message>, nSplit: nat, entries: seq<Entry>)
    requires Splits(msgs, nSplit) && nSplit < TWO_TO_THE_63
    requires var p := Join(WORKLOAD_DIR, dir);
      p in d.dirs && Holds(d, p, StoredTexts(msgs, nSplit)) && IsListing(d, p, entries)
    requires InFull(Load(d, dir, entries), msgs, nSplit)
    ensures forall k: nat :: k < nSplit ==> SlotInFull(msgs, nSplit, k)
  {
    LoadedFiles(d, dir, StoredTexts(msgs, nSplit), entries);
    LoadsTexts(d, dir, StoredTexts(msgs, nSplit), entries);
    FullLengths(Load(d, dir, entries).workloads, msgs, nSplit);
  }

  ghost predicate InFull(r: Loading, msgs: seq<Message>, nSplit: nat) {
    && nSplit > 0 && r.Loaded? && |r.workloads| == nSplit
    && forall k: nat :: k < nSplit ==> |r.workloads[k]| == |msgs| / nSplit
  }

  lemma ComesBackInFull(r: Loading, msgs: seq<Message>, nSplit: nat)
    requires ComesBack(r, msgs, nSplit)
    ensures InFull(r, msgs, nSplit)
  {
    forall k: nat | k < nSplit
      ensures |r.workloads[k]| == |msgs| / nSplit
    {
      assert SlotLoses(r.workloads[k], msgs, |msgs| / nSplit, k);
    }
  }

  lemma FullLengths(ws: seq<seq<Message>>, msgs: seq<Message>, nSplit: nat)
    requires Splits(msgs, nSplit) && InFull(Loaded(ws), msgs, nSplit)
    requires forall k: nat :: k < nSplit ==> SlotIs(ws, StoredTexts(msgs, nSplit), k)
    ensures forall k: nat :: k < nSplit ==> SlotInFull(msgs, nSplit, k)
  {
    forall k: nat | k < nSplit
      ensures SlotInFull(msgs, nSplit, k)
    {
      assert SlotIs(ws, StoredTexts(msgs, nSplit), k);
      assert |ws[k]| == |msgs| / nSplit;
    }
  }

  lemma InFullIsShort(msgs: seq<Message>, n: nat, f: nat, j: nat, m: Message)
    requires Offset(f, n) <= |msgs| && j < f && HasShare(msgs, j, n) && m in Slice(msgs, j, n)
    requires forall x :: x in msgs ==> Lowercase(x)
    ensures TextInFull(Texts(msgs, n, f)[j], n) ==> Short(m) && m != ""
  {
    TextsAre(msgs, n, f, j);
    SliceIsIn(msgs, j, n);
    ReadBackInFull(Slice(msgs, j, n));
  }

  lemma FileOf(msgs: seq<Message>, n: nat, f: nat, m: Message) returns (j: nat)
    requires Offset(f, n) <= |msgs| && m in Slices(msgs, n, f) && forall k: nat :: k < f ==> HasShare(msgs, k, n)
    requires forall x :: x in msgs ==> Lowercase(x)
    ensures j < f && (TextInFull(Texts(msgs, n, f)[j], n) ==> Short(m) && m != "")
  {
    j := SliceWith(msgs, n, f, m);
    assert HasShare(msgs, j, n);
    InFullIsShort(msgs, n, f, j, m);
  }

  /** The file that a message is in, all of whose messages are as they have to be if the file comes back in full. */
  lemma SliceOf(msgs: seq<Message>, nSplit: nat, m: Message) returns (j: nat)
    requires Splits(msgs, nSplit) && m in msgs && forall x :: x in msgs ==> Lowercase(x)
    ensures j < nSplit && (SlotInFull(msgs, nSplit, j) ==> Short(m) && m != "")
  {
    StorePartitions(msgs, nSplit);
    j := FileOf(msgs, |msgs| / nSplit, nSplit, m);
  }

  // ----- As it was -----

  /** Every slot holds its share of the workload, byte for byte. */
  ghost predicate AsItWas(r: Loading, msgs: seq<Message>, nSplit: nat) {
    && nSplit > 0 && r.Loaded? && |r.workloads| == nSplit
    && forall k: nat :: k < nSplit ==> SlotAsItWas(r.workloads[k], msgs, |msgs| / nSplit, k)
  }

  predicate SlotAsItWas(w: seq<Message>, msgs: seq<Message>, nPerFile: nat, k: nat) {
    Offset(k + 1, nPerFile) <= |msgs| && w == Slice(msgs, k, nPerFile)
  }

  lemma AsItWasInFull(r: Loading, msgs: seq<Message>, nSplit: nat)
    requires Splits(msgs, nSplit) && AsItWas(r, msgs, nSplit)
    ensures InFull(r, msgs, nSplit)
  {
    StorePartitions(msgs, nSplit);
    forall k: nat | k < nSplit
      ensures |r.workloads[k]| == |msgs| / nSplit
    {
      assert SlotAsItWas(r.workloads[k], msgs, |msgs| / nSplit, k) && HasShare(msgs, k, |msgs| / nSplit);
    }
  }

  lemma FirstIsShort(r: Loading, msgs: seq<Message>, nSplit: nat)
    requires Splits(msgs, nSplit) && msgs != [] && ComesBack(r, msgs, nSplit)
    ensures r.workloads[0] != [] && |r.workloads[0][0]| < |msgs[0]|
  {
    var n := |msgs| / nSplit;
    assert SlotLoses(r.workloads[0], msgs, n, 0) && EntryLoses(r.workloads[0], msgs, n, 0, 0);
  }

  lemma FirstIsSame(r: Loading, msgs: seq<Message>, nSplit: nat)
    requires Splits(msgs, nSplit) && msgs != [] && AsItWas(r, msgs, nSplit)
    ensures r.workloads[0] != [] && r.workloads[0][0] == msgs[0]
  {
    var n := |msgs| / nSplit;
    assert SlotAsItWas(r.workloads[0], msgs, n, 0);
    assert Offset(0, n) == 0 && Offset(1, n) == n;
  }

  lemma NothingIsAsItWas(r: Loading, msgs: seq<Message>, nSplit: nat)
    requires Splits(msgs, nSplit) && msgs == [] && ComesBack(r, msgs, nSplit)
    ensures AsItWas(r, msgs, nSplit)
  {
    StorePartitions(msgs, nSplit);
    forall k: nat | k < nSplit
      ensures SlotAsItWas(r.workloads[k], msgs, |msgs| / nSplit, k)
    {
      assert SlotLoses(r.workloads[k], msgs, |msgs| / nSplit, k) && HasShare(msgs, k, |msgs| / nSplit);
    }
  }

  /** What was stored is loaded as it was if and only if there was nothing to store. */
  lemma LoadsAsItWas(disk: Disk, subdir: string, msgs: seq<Message>, nSplit: nat, entries: seq<Entry>)
    requires StoredAndListed(disk, subdir, msgs, nSplit, entries)
    requires forall m :: m in msgs ==> Lowercase(m)
    ensures AsItWas(Load(AfterStore(disk, subdir, msgs, nSplit), subdir, entries), msgs, nSplit) <==> msgs == []
  {
    var r := Load(AfterStore(disk, subdir, msgs, nSplit), subdir, entries);
    ComesBackExactly(disk, subdir, msgs, nSplit, entries);
    if msgs == [] {
      NothingIsAsItWas(r, msgs, nSplit);
    } else if AsItWas(r, msgs, nSplit) {
      AsItWasInFull(r, msgs, nSplit);
      AfterStoreHolds(disk, subdir, msgs, nSplit);
      FullSlots(AfterStore(disk, subdir, msgs, nSplit), subdir, msgs, nSplit, entries);
      forall m | m in msgs
        ensures Short(m) && m != ""
      {
        var j := SliceOf(msgs, nSplit, m);
      }
      FirstIsShort(r, msgs, nSplit);
      FirstIsSame(r, msgs, nSplit);
    }
  }
}
