/**
 * How the monitor picks the run number that goes into the names of its output files, and when that keeps it from
 * emptying the files of an earlier run. Reasoning about directories needs of the numbering of names only the two facts
 * in `Sound`.
 */
module MonitorRuns {
  import opened Prelude
  import opened Decimal
  import opened FileSystem
  import opened RunNames

  /** The run number that a name counts for, if any. */
  type Numbering = string -> Option<int64>

  ghost predicate Sound(num: Numbering) {
    && (forall name :: num(name).Some? ==> num(name).value >= 0)
    && forall name, node: int64, run: int64 :: IsOutput(name, node, run) ==>
         num(name) == if node >= 0 && run >= 0 then Some(run) else None
  }

  lemma NumberIsSound()
    ensures Sound(Number)
  {
    forall name ensures Number(name).Some? ==> Number(name).value >= 0 { NumbersAreNatural(name); }
    forall name, node: int64, run: int64 | IsOutput(name, node, run)
      ensures Number(name) == if node >= 0 && run >= 0 then Some(run) else None
    {
      OutputNumber(name, node, run);
    }
  }

  // ----- The next number -----

  predicate Ascending(s: seq<int>) { |s| <= 1 || (s[0] <= s[1] && Ascending(s[1..])) }

  function Insert(x: int, s: seq<int>): (r: seq<int>)
    requires Ascending(s)
    ensures Ascending(r) && r != [] && (r[0] == x || (s != [] && r[0] == s[0]))
    ensures multiset(r) == multiset{x} + multiset(s)
  {
    if s == [] then [x]
    else if x <= s[0] then [x] + s
    else
      assert s == [s[0]] + s[1..];
      [s[0]] + Insert(x, s[1..])
  }

  /** sort.Ints. */
  function SortInts(s: seq<int>): (r: seq<int>)
    ensures Ascending(r) && multiset(r) == multiset(s)
  {
    if s == [] then []
    else
      assert s == [s[0]] + s[1..];
      Insert(s[0], SortInts(s[1..]))
  }

  lemma {:induction false} LastIsLargest(s: seq<int>)
    requires Ascending(s) && s != []
    ensures forall x :: x in s ==> x <= s[|s| - 1]
  {
    if |s| > 1 {
      LastIsLargest(s[1..]);
      assert s == [s[0]] + s[1..] && s[1] in s[1..];
    }
  }

  lemma LastOfSorted(nums: seq<int>)
    requires nums != []
    ensures |SortInts(nums)| == |nums|
    ensures var last := SortInts(nums)[|nums| - 1];
      last in nums && forall n :: n in nums ==> n <= last
  {
    var sorted := SortInts(nums);
    assert |sorted| == |multiset(sorted)| == |multiset(nums)| == |nums|;
    LastIsLargest(sorted);
    assert sorted[|nums| - 1] in multiset(sorted);
    forall n | n in nums
      ensures n in sorted
    {
      assert n in multiset(nums);
    }
  }

  /** `n` is the largest number that a name in the listing counts for. */
  ghost predicate IsTop(num: Numbering, entries: seq<Entry>, n: int64) {
    && (exists e :: e in entries && num(e.name) == Some(n))
    && forall e :: e in entries && num(e.name).Some? ==> num(e.name).value <= n
  }

  /** `r` is one more than the largest number, or 0 if no name counts. */
  ghost predicate IsNext(num: Numbering, entries: seq<Entry>, r: int64) {
    if forall e :: e in entries ==> num(e.name) == None then r == 0
    else exists n: int64 :: IsTop(num, entries, n) && r == Increment(n)
  }

  /** The numbers found are those of the names in the listing. */
  ghost predicate Collected(num: Numbering, nums: seq<int>, files: seq<Entry>) {
    && (forall e :: e in files && num(e.name).Some? ==> num(e.name).value in nums)
    && forall n :: n in nums ==> exists e :: e in files && num(e.name) == Some(n)
  }

  lemma CollectedNext(num: Numbering, nums: seq<int>, files: seq<Entry>, last: int64)
    requires Collected(num, nums, files) && last in nums && forall n :: n in nums ==> n <= last
    ensures IsNext(num, files, Increment(last))
  {
    var e :| e in files && num(e.name) == Some(last);
    assert IsTop(num, files, last);
  }

  method GetNextExpNumber(disk: Disk, dir: string, files: seq<Entry>) returns (r: Result<int64>)
    ensures dir !in disk.dirs ==> r.Err?
    ensures dir in disk.dirs ==> r.Ok? && IsNext(Number, files, r.value)
  {
    if dir !in disk.dirs {
      return Err("cannot read directory");
    }
    var nums: seq<int> := [];
    for i := 0 to |files|
      invariant Collected(Number, nums, files[..i])
    {
      assert files[..i + 1] == files[..i] + [files[i]];
      ghost var before := nums;
      var found := FindRun(files[i].name);
      if found.Some? {
        var num := ParseInt(found.value);
        if num.Some? {
          nums := nums + [num.value];
        }
      }
      CollectOne(Number, before, nums, files[..i], files[i]);
    }
    assert files[..|files|] == files;
    if |nums| == 0 {
      return Ok(0);
    }
    LastOfSorted(nums);
    var last := SortInts(nums)[|nums| - 1];
    CollectedNumber(Number, nums, files, last);
    CollectedNext(Number, nums, files, last);
    r := Ok(Increment(last));
  }

  lemma CollectOne(num: Numbering, before: seq<int>, nums: seq<int>, files: seq<Entry>, e: Entry)
    requires Collected(num, before, files)
    requires nums == before + OptSeq(num(e.name))
    ensures Collected(num, nums, files + [e])
  {
    forall n | n in nums
      ensures exists f :: f in files + [e] && num(f.name) == Some(n)
    {
      if n in before {
        var f :| f in files && num(f.name) == Some(n);
        assert f in files + [e];
      } else {
        assert e in files + [e];
      }
    }
  }

  lemma CollectedNumber(num: Numbering, nums: seq<int>, files: seq<Entry>, n: int)
    requires Collected(num, nums, files) && n in nums
    ensures -TWO_TO_THE_63 <= n < TWO_TO_THE_63
  {
    var e :| e in files && num(e.name) == Some(n);
    var x: int64 := num(e.name).value;
  }

  // ----- Starting the monitor -----

  /** What the three monitors of one run write to their files. */
  datatype Texts = Texts(cpu: string, memory: string, network: string)

  function Output(dir: string, node: int64, run: int64, kind: string): Path {
    Path(dir, Name(node, run, kind))
  }

  function WithOutputs(disk: Disk, dir: string, node: int64, run: int64, t: Texts): Disk {
    Put(Put(Put(disk, Output(dir, node, run, "cpu"), t.cpu), Output(dir, node, run, "memory"), t.memory),
        Output(dir, node, run, "network"), t.network)
  }

  /** The name of an output file, spelled out. */
  function OutputPath(dir: string, node: int64, run: int64, kind: string): Path {
    Path(dir, "broker-" + FormatInt(node) + "-run-" + FormatInt(run) + "-" + kind + ".csv")
  }

  lemma NameSpelled(node: string, run: string, kind: string)
    ensures NameOf(node, run, kind) == "broker-" + node + "-run-" + run + "-" + kind + ".csv"
  {
    assert kind + ".csv" == kind + ".csv";
    assert run + ("-" + (kind + ".csv")) == run + "-" + kind + ".csv";
    assert node + ("-run-" + (run + "-" + kind + ".csv")) == node + "-run-" + run + "-" + kind + ".csv";
  }

  lemma OutputSpelled(dir: string, node: int64, run: int64, kind: string)
    ensures Output(dir, node, run, kind) == OutputPath(dir, node, run, kind)
  {
    NameSpelled(FormatInt(node), FormatInt(run), kind);
  }

  predicate IsKind(kind: string) { kind == "cpu" || kind == "memory" || kind == "network" }

  /** The three files of the run are there and empty, and nothing else has changed but that the directory is there. */
  ghost predicate Opened(disk: Disk, d: Disk, dir: string, node: int64, run: int64) {
    && d.dirs == disk.dirs + {dir}
    && (forall kind :: IsKind(kind) ==>
          OutputPath(dir, node, run, kind) in d.files && d.files[OutputPath(dir, node, run, kind)] == "")
    && forall p :: (forall kind :: IsKind(kind) ==> p != OutputPath(dir, node, run, kind)) ==>
         (p in d.files <==> p in disk.files) && (p in d.files ==> d.files[p] == disk.files[p])
  }

  lemma CreatesAll(disk: Disk, made: Disk, dir: string, node: int64, run: int64)
    requires made.files == disk.files && made.dirs == disk.dirs + {dir}
    ensures Opened(disk, WithOutputs(made, dir, node, run, Texts("", "", "")), dir, node, run)
  {
    assert IsKind("cpu") && IsKind("memory") && IsKind("network");
    OutputSpelled(dir, node, run, "cpu");
    OutputSpelled(dir, node, run, "memory");
    OutputSpelled(dir, node, run, "network");
  }

  lemma MayCreate(disk: Disk, made: Disk, dir: string, node: int64, run: int64, kind: string)
    requires made.dirs == disk.dirs + {dir}
    ensures CanCreate(made, Output(dir, node, run, kind)) <==>
            Join(dir, OutputPath(dir, node, run, kind).name) !in disk.dirs
  {
    OutputSpelled(dir, node, run, kind);
    assert |Join(dir, OutputPath(dir, node, run, kind).name)| > |dir|;
  }

  ghost predicate AllFree(disk: Disk, dir: string, node: int64, run: int64) {
    forall kind :: IsKind(kind) ==> Join(dir, OutputPath(dir, node, run, kind).name) !in disk.dirs
  }

  lemma MayCreateAll(disk: Disk, made: Disk, dir: string, node: int64, run: int64)
    requires made.dirs == disk.dirs + {dir}
    ensures (forall kind :: kind in KINDS ==> CanCreate(made, Output(dir, node, run, kind))) <==>
            AllFree(disk, dir, node, run)
  {
    forall kind
      ensures kind in KINDS <==> IsKind(kind)
      ensures CanCreate(made, Output(dir, node, run, kind)) <==>
              Join(dir, OutputPath(dir, node, run, kind).name) !in disk.dirs
    {
      assert "cpu" in KINDS && "memory" in KINDS && "network" in KINDS;
      MayCreate(disk, made, dir, node, run, kind);
    }
  }

  method CreateOutputs(disk: Disk, dir: string, node: int64, run: int64) returns (r: Result<Disk>)
    ensures r.Ok? <==> forall kind :: kind in KINDS ==> CanCreate(disk, Output(dir, node, run, kind))
    ensures r.Ok? ==> r.value == WithOutputs(disk, dir, node, run, Texts("", "", ""))
  {
    assert "cpu" in KINDS && "memory" in KINDS && "network" in KINDS;
    var cpuFile := Create(disk, Output(dir, node, run, "cpu"));
    if cpuFile.Err? {
      return cpuFile;
    }
    var memFile := Create(cpuFile.value, Output(dir, node, run, "memory"));
    if memFile.Err? {
      return memFile;
    }
    r := Create(memFile.value, Output(dir, node, run, "network"));
  }

  /**
   * os.Mkdir comes first, and its error is ignored: `canMake` tells whether it made the directory. Then the next number
   * is looked up and the three files are created.
   */
  method OpenOutputs(disk: Disk, dir: string, canMake: bool, node: int64, files: seq<Entry>)
    returns (r: Result<Disk>, run: int64)
    ensures !canMake && dir !in disk.dirs ==> r.Err?
    ensures canMake || dir in disk.dirs ==> IsNext(Number, files, run)
    ensures canMake || dir in disk.dirs ==> (r.Ok? <==> AllFree(disk, dir, node, run))
    ensures r.Ok? ==> Opened(disk, r.value, dir, node, run)
  {
    var made := if canMake then disk.(dirs := disk.dirs + {dir}) else disk;
    var runId := GetNextExpNumber(made, dir, files);
    if runId.Err? {
      run := 0;
      return Err("cannot read directory"), run;
    }
    run := runId.value;
    MayCreateAll(disk, made, dir, node, run);
    CreatesAll(disk, made, dir, node, run);
    r := CreateOutputs(made, dir, node, run);
  }

  // ----- Any number of starts -----

  predicate Present(disk: Disk, dir: string, name: string) {
    Path(dir, name) in disk.files || ('/' !in name && Join(dir, name) in disk.dirs)
  }

  lemma ListedIsPresent(disk: Disk, dir: string, entries: seq<Entry>, name: string)
    requires IsListing(disk, dir, entries)
    ensures Present(disk, dir, name) <==> exists e :: e in entries && e.name == name
  {
    if Present(disk, dir, name) {
      var e := if Path(dir, name) in disk.files then Entry(name, false) else Entry(name, true);
      assert e in entries;
    }
    if e :| e in entries && e.name == name {
      assert e == Entry(name, false) || e == Entry(name, true);
    }
  }

  /** No name in the directory counts for a run from `r` on, and one counts for the run before `r`, if there is one. */
  ghost predicate UpTo(num: Numbering, disk: Disk, dir: string, r: nat) {
    && (forall name :: Present(disk, dir, name) && num(name).Some? ==> 0 <= num(name).value < r)
    && (r > 0 ==> exists name :: Present(disk, dir, name) && num(name) == Some(r - 1))
  }

  lemma NextOfUpTo(num: Numbering, disk: Disk, dir: string, entries: seq<Entry>, r: nat, run: int64)
    requires IsListing(disk, dir, entries) && UpTo(num, disk, dir, r) && r <= TWO_TO_THE_63 && IsNext(num, entries, run)
    ensures run == if r < TWO_TO_THE_63 then r else -TWO_TO_THE_63
  {
    forall e | e in entries && num(e.name).Some?
      ensures 0 <= num(e.name).value < r
    {
      ListedIsPresent(disk, dir, entries, e.name);
    }
    if r > 0 {
      var name :| Present(disk, dir, name) && num(name) == Some(r - 1);
      ListedIsPresent(disk, dir, entries, name);
      var e :| e in entries && e.name == name;
      assert num(e.name) == Some(r - 1);
    }
  }

  /** The number that a look at the directory finds: names that count for the largest int make the next number wrap. */
  function Found(run: int64): nat {
    if run < 0 then TWO_TO_THE_63 else run
  }

  lemma FoundIsUpTo(num: Numbering, disk: Disk, dir: string, entries: seq<Entry>, run: int64)
    requires Sound(num) && IsListing(disk, dir, entries) && IsNext(num, entries, run)
    ensures UpTo(num, disk, dir, Found(run))
  {
    forall name | Present(disk, dir, name) && num(name).Some?
      ensures 0 <= num(name).value < Found(run)
    {
      ListedIsPresent(disk, dir, entries, name);
      var e :| e in entries && e.name == name;
      assert num(e.name).Some?;
    }
    if run != 0 {
      var n: int64 :| IsTop(num, entries, n) && run == Increment(n);
      var e := TopEntry(num, entries, n);
      ListedIsPresent(disk, dir, entries, e.name);
    }
  }

  lemma TopEntry(num: Numbering, entries: seq<Entry>, n: int64) returns (e: Entry)
    requires IsTop(num, entries, n)
    ensures e in entries && num(e.name) == Some(n)
  {
    e :| e in entries && num(e.name) == Some(n);
  }

  lemma PresentAfter(disk: Disk, dir: string, node: int64, run: int64, t: Texts, name: string)
    ensures Present(WithOutputs(disk, dir, node, run, t), dir, name) <==>
            Present(disk, dir, name) || IsOutput(name, node, run)
  {
  }

  /** One start: the node, what ReadDir gave, the run number that came of it, and what the monitors wrote. */
  datatype Start = Start(node: int64, entries: seq<Entry>, run: int64, texts: Texts)

  function After(disk: Disk, dir: string, s: Start): Disk { WithOutputs(disk, dir, s.node, s.run, s.texts) }

  function DiskAfter(disk: Disk, dir: string, starts: seq<Start>): Disk {
    if starts == [] then disk else After(DiskAfter(disk, dir, starts[..|starts| - 1]), dir, starts[|starts| - 1])
  }

  /** Start `k` reads the directory that the starts before it left. */
  ghost predicate HappenedAt(num: Numbering, disk: Disk, dir: string, starts: seq<Start>, k: nat)
    requires k < |starts|
  {
    && IsListing(DiskAfter(disk, dir, starts[..k]), dir, starts[k].entries)
    && IsNext(num, starts[k].entries, starts[k].run)
  }

  ghost predicate Happened(num: Numbering, disk: Disk, dir: string, starts: seq<Start>) {
    forall k: nat :: k < |starts| ==> HappenedAt(num, disk, dir, starts, k)
  }

  /** None of the files that the start opens is there already, under any kind of name. */
  ghost predicate Fresh(disk: Disk, dir: string, s: Start) {
    forall name :: IsOutput(name, s.node, s.run) ==> !Present(disk, dir, name)
  }

  ghost predicate FreshAt(disk: Disk, dir: string, starts: seq<Start>, k: nat)
    requires k < |starts|
  {
    Fresh(DiskAfter(disk, dir, starts[..k]), dir, starts[k])
  }

  ghost predicate AllFresh(disk: Disk, dir: string, starts: seq<Start>) {
    forall k: nat :: k < |starts| ==> FreshAt(disk, dir, starts, k)
  }

  predicate Numbered(starts: seq<Start>, r: nat) {
    forall k :: 0 <= k < |starts| ==> starts[k].run == r + k
  }

  predicate NodesNatural(starts: seq<Start>) {
    forall k :: 0 <= k < |starts| ==> Natural(starts[k])
  }

  predicate Natural(s: Start) { s.node >= 0 }

  // ----- The run number of every start -----

  /** The number reached after the given starts when it was `from` at first: one for each node without a minus sign. */
  function Reached(from: nat, starts: seq<Start>): (r: nat)
    ensures from <= TWO_TO_THE_63 ==> from <= r <= TWO_TO_THE_63
  {
    if from + Count(starts, Natural) <= TWO_TO_THE_63 then from + Count(starts, Natural) else TWO_TO_THE_63
  }

  /** A number as the int that is printed: the first one past the largest int is the smallest int. */
  function Wrapped(r: nat): int64
    requires r <= TWO_TO_THE_63
  {
    if r < TWO_TO_THE_63 then r else -TWO_TO_THE_63
  }

  lemma BoundsAfter(num: Numbering, disk: Disk, dir: string, s: Start, r: nat, name: string)
    requires Sound(num) && UpTo(num, disk, dir, r) && r <= TWO_TO_THE_63 && s.run == Wrapped(r)
    requires Present(After(disk, dir, s), dir, name) && num(name).Some?
    ensures 0 <= num(name).value < Reached(r, [s])
  {
    PresentAfter(disk, dir, s.node, s.run, s.texts, name);
    CountOne(s);
  }

  lemma CountOne(s: Start)
    ensures Count([s], Natural) == if Natural(s) then 1 else 0
  {
    assert [s][..0] == [];
    assert Count([s][..0], Natural) == 0;
  }

  lemma TopAfter(num: Numbering, disk: Disk, dir: string, s: Start, r: nat) returns (name: string)
    requires Sound(num) && UpTo(num, disk, dir, r) && r <= TWO_TO_THE_63 && s.run == Wrapped(r) && Reached(r, [s]) > 0
    ensures Present(After(disk, dir, s), dir, name) && num(name) == Some(Reached(r, [s]) - 1)
  {
    CountOne(s);
    if Reached(r, [s]) == r + 1 {
      name := Name(s.node, r, "cpu");
      assert IsOutput(name, s.node, r);
    } else {
      name :| Present(disk, dir, name) && num(name) == Some(r - 1);
    }
    PresentAfter(disk, dir, s.node, s.run, s.texts, name);
  }

  /** One start moves the number on by one, if its node is not negative and the number is an int, and else by none. */
  lemma MovesOn(num: Numbering, disk: Disk, dir: string, s: Start, r: nat)
    requires Sound(num) && UpTo(num, disk, dir, r) && r <= TWO_TO_THE_63
    requires IsListing(disk, dir, s.entries) && IsNext(num, s.entries, s.run)
    ensures s.run == Wrapped(r) && UpTo(num, After(disk, dir, s), dir, Reached(r, [s]))
  {
    NextOfUpTo(num, disk, dir, s.entries, r, s.run);
    forall name | Present(After(disk, dir, s), dir, name) && num(name).Some?
      ensures 0 <= num(name).value < Reached(r, [s])
    {
      BoundsAfter(num, disk, dir, s, r, name);
    }
    if Reached(r, [s]) > 0 {
      var name := TopAfter(num, disk, dir, s, r);
    }
  }

  lemma HappenedBefore(num: Numbering, disk: Disk, dir: string, starts: seq<Start>, n: nat)
    requires n <= |starts| && Happened(num, disk, dir, starts)
    ensures Happened(num, disk, dir, starts[..n])
  {
    var before := starts[..n];
    forall k: nat | k < n
      ensures HappenedAt(num, disk, dir, before, k)
    {
      assert HappenedAt(num, disk, dir, starts, k);
      assert before[..k] == starts[..k] && before[k] == starts[k];
    }
  }

  lemma ReachedOneMore(from: nat, starts: seq<Start>)
    requires starts != [] && from <= TWO_TO_THE_63
    ensures Reached(from, starts) == Reached(Reached(from, starts[..|starts| - 1]), [starts[|starts| - 1]])
  {
    CountOne(starts[|starts| - 1]);
  }

  lemma {:induction false} NumberAfter(num: Numbering, disk: Disk, dir: string, starts: seq<Start>, from: nat)
    requires Sound(num) && UpTo(num, disk, dir, from) && from <= TWO_TO_THE_63 && Happened(num, disk, dir, starts)
    ensures UpTo(num, DiskAfter(disk, dir, starts), dir, Reached(from, starts))
  {
    if starts != [] {
      var n := |starts| - 1;
      HappenedBefore(num, disk, dir, starts, n);
      NumberAfter(num, disk, dir, starts[..n], from);
      assert HappenedAt(num, disk, dir, starts, n);
      MovesOn(num, DiskAfter(disk, dir, starts[..n]), dir, starts[n], Reached(from, starts[..n]));
      ReachedOneMore(from, starts);
    }
  }

  /** The number that start `k` finds, from what the first start found and the nodes of the starts before it. */
  function NumberAt(starts: seq<Start>, k: nat): (r: nat)
    requires k < |starts|
    ensures r <= TWO_TO_THE_63
  {
    Reached(Found(starts[0].run), starts[..k])
  }

  lemma RunAt(num: Numbering, disk: Disk, dir: string, starts: seq<Start>, k: nat)
    requires Sound(num) && Happened(num, disk, dir, starts) && k < |starts|
    ensures UpTo(num, DiskAfter(disk, dir, starts[..k]), dir, NumberAt(starts, k))
    ensures starts[k].run == Wrapped(NumberAt(starts, k))
  {
    assert HappenedAt(num, disk, dir, starts, 0);
    assert starts[..0] == [] && DiskAfter(disk, dir, starts[..0]) == disk;
    FoundIsUpTo(num, disk, dir, starts[0].entries, starts[0].run);
    HappenedBefore(num, disk, dir, starts, k);
    NumberAfter(num, disk, dir, starts[..k], Found(starts[0].run));
    assert HappenedAt(num, disk, dir, starts, k);
    MovesOn(num, DiskAfter(disk, dir, starts[..k]), dir, starts[k], NumberAt(starts, k));
  }

  lemma {:induction false} CountMore(starts: seq<Start>, j: nat, k: nat)
    requires j <= k <= |starts|
    ensures Count(starts[..j], Natural) <= Count(starts[..k], Natural)
    ensures (exists i :: j <= i < k && Natural(starts[i])) <==>
            Count(starts[..j], Natural) < Count(starts[..k], Natural)
    decreases k - j
  {
    if j < k {
      CountMore(starts, j, k - 1);
      assert starts[..k][..k - 1] == starts[..k - 1];
    }
  }

  // ----- Which starts spare what is there -----

  ghost function Writes(name: string): Start -> bool { (s: Start) => IsOutput(name, s.node, s.run) }

  ghost predicate Wrote(starts: seq<Start>, name: string) { Any(starts, Writes(name)) }

  lemma {:induction false} PresentThen(disk: Disk, dir: string, starts: seq<Start>, name: string)
    ensures Present(DiskAfter(disk, dir, starts), dir, name) <==> Present(disk, dir, name) || Wrote(starts, name)
  {
    if starts != [] {
      var n := |starts| - 1;
      var s := starts[n];
      PresentThen(disk, dir, starts[..n], name);
      PresentAfter(DiskAfter(disk, dir, starts[..n]), dir, s.node, s.run, s.texts, name);
      AnyLast(starts, Writes(name));
    }
  }

  predicate SameNames(s: Start, t: Start) { s.node == t.node && s.run == t.run }

  /** A start opens new files if and only if its names were not there at first and no earlier start had the same. */
  lemma FreshIff(disk: Disk, dir: string, starts: seq<Start>, k: nat)
    requires k < |starts|
    ensures FreshAt(disk, dir, starts, k) <==>
            Fresh(disk, dir, starts[k]) && forall j :: 0 <= j < k ==> !SameNames(starts[j], starts[k])
  {
    var s := starts[k];
    forall name | IsOutput(name, s.node, s.run)
      ensures Present(DiskAfter(disk, dir, starts[..k]), dir, name) <==>
              Present(disk, dir, name) || exists j :: 0 <= j < k && SameNames(starts[j], s)
    {
      PresentThen(disk, dir, starts[..k], name);
      WroteIff(starts, k, name);
    }
    assert IsOutput(Name(s.node, s.run, "cpu"), s.node, s.run);
  }

  lemma WroteIff(starts: seq<Start>, k: nat, name: string)
    requires k < |starts| && IsOutput(name, starts[k].node, starts[k].run)
    ensures Wrote(starts[..k], name) <==> exists j :: 0 <= j < k && SameNames(starts[j], starts[k])
  {
    if j :| 0 <= j < k && Writes(name)(starts[..k][j]) {
      OutputIsOf(name, starts[j].node, starts[j].run, starts[k].node, starts[k].run);
      assert SameNames(starts[j], starts[k]);
    }
    if j :| 0 <= j < k && SameNames(starts[j], starts[k]) {
      assert Writes(name)(starts[..k][j]);
    }
  }

  /** A start whose names count, with a number that none of the names there counts for, opens nothing but new files. */
  lemma NumberedIsFresh(num: Numbering, disk: Disk, dir: string, s: Start, r: nat)
    requires Sound(num) && Natural(s) && s.run == r && UpTo(num, disk, dir, r)
    ensures Fresh(disk, dir, s)
  {
  }

  /** The condition on start `k`: it has a number of its own, or nothing had its names and the number has moved on. */
  ghost predicate Spares(disk: Disk, dir: string, starts: seq<Start>, k: nat)
    requires k < |starts|
  {
    || (Natural(starts[k]) && NumberAt(starts, k) < TWO_TO_THE_63)
    || (Fresh(disk, dir, starts[k]) &&
        forall j: nat :: j < k && starts[j].node == starts[k].node ==> NumberAt(starts, j) < NumberAt(starts, k))
  }

  lemma SparesIff(num: Numbering, disk: Disk, dir: string, starts: seq<Start>, k: nat)
    requires Sound(num) && Happened(num, disk, dir, starts) && k < |starts|
    ensures FreshAt(disk, dir, starts, k) <==> Spares(disk, dir, starts, k)
  {
    RunAt(num, disk, dir, starts, k);
    FreshIff(disk, dir, starts, k);
    forall j: nat | j < k
      ensures SameNames(starts[j], starts[k]) <==>
              starts[j].node == starts[k].node && NumberAt(starts, j) >= NumberAt(starts, k)
    {
      RunAt(num, disk, dir, starts, j);
      CountMore(starts, j, k);
    }
    if Natural(starts[k]) && NumberAt(starts, k) < TWO_TO_THE_63 {
      NumberedIsFresh(num, DiskAfter(disk, dir, starts[..k]), dir, starts[k], NumberAt(starts, k));
    }
  }

  // ----- What this means for the names that the monitor uses -----

  /** A start on a node that is not negative came after start `j` and before start `k`. */
  ghost predicate NaturalBetween(starts: seq<Start>, j: nat, k: nat)
    requires k <= |starts|
  {
    exists i :: j < i < k && Natural(starts[i])
  }

  /** Below the limit, it takes a start on a node that is not negative for the number to move on. */
  lemma MovedOn(starts: seq<Start>, j: nat, k: nat)
    requires j < k < |starts| && NumberAt(starts, k) < TWO_TO_THE_63 && !Natural(starts[j])
    ensures NumberAt(starts, j) < NumberAt(starts, k) <==> NaturalBetween(starts, j, k)
  {
    CountMore(starts, j, k);
  }

  /**
   * Over any sequence of starts, whatever else the directory holds: the run number goes up by one after every start on
   * a node that is not negative, until the largest int; and a start spares the files that are there exactly when its
   * node is not negative and the limit is not reached, or else when its names were not there at first and no earlier
   * start on its node found the same number. Below the limit, that is: no earlier start on the same negative node
   * without one on a node that is not negative in between.
   */
  lemma SparedExactly(disk: Disk, dir: string, starts: seq<Start>, k: nat)
    requires Happened(Number, disk, dir, starts) && k < |starts|
    ensures starts[k].run == Wrapped(NumberAt(starts, k))
    ensures FreshAt(disk, dir, starts, k) <==> Spares(disk, dir, starts, k)
    ensures NumberAt(starts, k) < TWO_TO_THE_63 ==>
      (FreshAt(disk, dir, starts, k) <==>
        || Natural(starts[k])
        || (Fresh(disk, dir, starts[k]) &&
            forall j: nat :: j < k && starts[j].node == starts[k].node ==> NaturalBetween(starts, j, k)))
  {
    NumberIsSound();
    RunAt(Number, disk, dir, starts, k);
    SparesIff(Number, disk, dir, starts, k);
    if NumberAt(starts, k) < TWO_TO_THE_63 && !Natural(starts[k]) {
      forall j: nat | j < k && starts[j].node == starts[k].node
        ensures NumberAt(starts, j) < NumberAt(starts, k) <==> NaturalBetween(starts, j, k)
      {
        MovedOn(starts, j, k);
      }
    }
  }

  lemma {:induction false} CountAll(starts: seq<Start>, k: nat)
    requires NodesNatural(starts) && k <= |starts|
    ensures Count(starts[..k], Natural) == k
  {
    if k > 0 {
      CountAll(starts, k - 1);
      assert starts[..k][..k - 1] == starts[..k - 1];
    }
  }

  /**
   * Over any number of starts on nodes with non-negative numbers: run numbers go up by one, below the limit of an int,
   * and every output file is new.
   */
  lemma NeverClobbers(disk: Disk, dir: string, starts: seq<Start>)
    requires Happened(Number, disk, dir, starts) && starts != [] && NodesNatural(starts)
    requires starts[0].run >= 0 && starts[0].run + |starts| <= TWO_TO_THE_63
    ensures Numbered(starts, starts[0].run) && AllFresh(disk, dir, starts)
  {
    forall k: nat | k < |starts|
      ensures starts[k].run == starts[0].run + k && FreshAt(disk, dir, starts, k)
    {
      CountAll(starts, k);
      SparedExactly(disk, dir, starts, k);
    }
  }

  /** Room for one more run: the number is below the limit, or at it with nothing in the place of the next. */
  ghost predicate HasRoom(disk: Disk, dir: string, s: Start) {
    && 0 <= s.run
    && (s.run == TWO_TO_THE_63 - 1 ==> Fresh(disk, dir, s.(run := -TWO_TO_THE_63)))
  }

  /**
   * On one node, a second start spares the files of the first if and only if the node's number is not negative and the
   * run number has room to grow: the regexp does not expect a minus sign, so a name with one does not count and the
   * second start finds the same run number again.
   */
  lemma SecondStart(disk: Disk, dir: string, first: Start, second: Start)
    requires Happened(Number, disk, dir, [first, second]) && first.node == second.node
    ensures Fresh(DiskAfter(disk, dir, [first]), dir, second) <==> first.node >= 0 && HasRoom(disk, dir, first)
    ensures first.node < 0 || first.run < 0 ==> second.run == first.run
  {
    var starts := [first, second];
    assert starts[..1] == [first];
    CountOne(first);
    SparedExactly(disk, dir, starts, 0);
    SparedExactly(disk, dir, starts, 1);
    SecondHasRoom(disk, dir, starts);
  }

  lemma SecondHasRoom(disk: Disk, dir: string, starts: seq<Start>)
    requires |starts| == 2 && starts[0].node == starts[1].node && starts[1].run == Wrapped(NumberAt(starts, 1))
    ensures Spares(disk, dir, starts, 1) <==> starts[0].node >= 0 && HasRoom(disk, dir, starts[0])
  {
    assert starts[..0] == [] && starts[..1] == [starts[0]];
    CountOne(starts[0]);
    assert NumberAt(starts, 0) == Found(starts[0].run);
    if starts[0].node >= 0 && starts[0].run == TWO_TO_THE_63 - 1 {
      SameFresh(disk, dir, starts[0].(run := -TWO_TO_THE_63), starts[1]);
    }
  }

  lemma SameFresh(disk: Disk, dir: string, s: Start, t: Start)
    requires SameNames(s, t)
    ensures Fresh(disk, dir, s) <==> Fresh(disk, dir, t)
  {
  }

  function OutputEntries(node: int64, run: int64): seq<Entry> {
    [Entry(Name(node, run, "cpu"), false), Entry(Name(node, run, "memory"), false),
     Entry(Name(node, run, "network"), false)]
  }

  lemma EmptyListing()
    ensures IsListing(Disk(map[], {"./data"}), "./data", [])
  {
    forall name ensures Join("./data", name) !in {"./data"} {
      assert |Join("./data", name)| > 6;
    }
  }

  lemma OutputListing(node: int64, run: int64, t: Texts)
    ensures IsListing(WithOutputs(Disk(map[], {"./data"}), "./data", node, run, t), "./data", OutputEntries(node, run))
  {
    forall name ensures Join("./data", name) !in {"./data"} {
      assert |Join("./data", name)| > 6;
    }
    assert |Name(node, run, "cpu")| < |Name(node, run, "memory")| < |Name(node, run, "network")|;
  }

  /** Two starts on node -1 in an empty directory: both get run 0, and the second empties the files of the first. */
  lemma NodeMinusOne(t: Texts, u: Texts)
    ensures var disk := Disk(map[], {"./data"});
      var first, second := Start(-1, [], 0, t), Start(-1, OutputEntries(-1, 0), 0, u);
      && Happened(Number, disk, "./data", [first, second])
      && DiskAfter(disk, "./data", [first, second]) == DiskAfter(disk, "./data", [second])
  {
    var disk := Disk(map[], {"./data"});
    var first, second := Start(-1, [], 0, t), Start(-1, OutputEntries(-1, 0), 0, u);
    NumberIsSound();
    NegativeHappened(Number, t, u);
    var starts := [first, second];
    assert starts[..1] == [first] && [first][..0] == [] && [second][..0] == [];
    SameOutputs(disk, "./data", -1, 0, t, u);
  }

  lemma NegativeHappened(num: Numbering, t: Texts, u: Texts)
    requires Sound(num)
    ensures Happened(num, Disk(map[], {"./data"}), "./data",
                     [Start(-1, [], 0, t), Start(-1, OutputEntries(-1, 0), 0, u)])
  {
    var disk := Disk(map[], {"./data"});
    var first, second := Start(-1, [], 0, t), Start(-1, OutputEntries(-1, 0), 0, u);
    EmptyListing();
    OutputListing(-1, 0, t);
    NoneCounts(num, -1, 0);
    var starts := [first, second];
    assert starts[..0] == [] && starts[..1] == [first] && [first][..0] == [];
    assert HappenedAt(num, disk, "./data", starts, 0);
    assert HappenedAt(num, disk, "./data", starts, 1);
  }

  lemma NoneCounts(num: Numbering, node: int64, run: int64)
    requires Sound(num) && node < 0
    ensures IsNext(num, OutputEntries(node, run), 0)
  {
    forall e | e in OutputEntries(node, run)
      ensures num(e.name) == None
    {
      assert IsOutput(e.name, node, run);
    }
  }

  /** The disks hold the same, but for some of the given paths. */
  ghost predicate AgreeBut(d: Disk, e: Disk, ps: set<Path>) {
    d.dirs == e.dirs &&
    forall p :: p !in ps ==> (p in d.files <==> p in e.files) && (p in d.files ==> d.files[p] == e.files[p])
  }

  lemma PutOnOne(d: Disk, e: Disk, ps: set<Path>, p: Path, text: string)
    requires AgreeBut(d, e, ps)
    ensures AgreeBut(Put(d, p, text), e, ps + {p})
  {
  }

  lemma PutOnBoth(d: Disk, e: Disk, ps: set<Path>, p: Path, text: string)
    requires AgreeBut(d, e, ps)
    ensures AgreeBut(Put(d, p, text), Put(e, p, text), ps - {p})
  {
  }

  lemma AgreeAll(d: Disk, e: Disk)
    requires AgreeBut(d, e, {})
    ensures d == e
  {
    assert forall p :: p !in {} ==> (p in d.files <==> p in e.files);
    assert d.files == e.files;
  }

  lemma PutTwice(disk: Disk, p: Path, q: Path, r: Path, t: Texts, u: Texts)
    ensures var once := Put(Put(Put(disk, p, t.cpu), q, t.memory), r, t.network);
      Put(Put(Put(once, p, u.cpu), q, u.memory), r, u.network) ==
      Put(Put(Put(disk, p, u.cpu), q, u.memory), r, u.network)
  {
    var d1 := Put(disk, p, t.cpu);
    var d2 := Put(d1, q, t.memory);
    var once := Put(d2, r, t.network);
    PutOnOne(disk, disk, {}, p, t.cpu);
    PutOnOne(d1, disk, {} + {p}, q, t.memory);
    PutOnOne(d2, disk, {} + {p} + {q}, r, t.network);
    var ps := {} + {p} + {q} + {r};
    PutOnBoth(once, disk, ps, p, u.cpu);
    PutOnBoth(Put(once, p, u.cpu), Put(disk, p, u.cpu), ps - {p}, q, u.memory);
    PutOnBoth(Put(Put(once, p, u.cpu), q, u.memory), Put(Put(disk, p, u.cpu), q, u.memory),
              ps - {p} - {q}, r, u.network);
    assert ps - {p} - {q} - {r} == {};
    AgreeAll(Put(Put(Put(once, p, u.cpu), q, u.memory), r, u.network),
             Put(Put(Put(disk, p, u.cpu), q, u.memory), r, u.network));
  }

  lemma SameOutputs(disk: Disk, dir: string, node: int64, run: int64, t: Texts, u: Texts)
    ensures WithOutputs(WithOutputs(disk, dir, node, run, t), dir, node, run, u) == WithOutputs(disk, dir, node, run, u)
  {
    PutTwice(disk, Output(dir, node, run, "cpu"), Output(dir, node, run, "memory"), Output(dir, node, run, "network"),
             t, u);
  }
}
