/** The part of the file system the benchmark touches, as a value. */
module FileSystem {
  import opened Prelude
  import opened Decimal

  datatype Path = Path(dir: string, name: string)

  /** Contents of the files, and the directories that exist, each by its full path. */
  datatype Disk = Disk(files: map<Path, string>, dirs: set<string>)

  datatype Entry = Entry(name: string, isDir: bool)

  function Join(dir: string, name: string): string { dir + "/" + name }

  /** os.Create: makes an empty file, or empties the one that is there. */
  function Create(disk: Disk, p: Path): (r: Result<Disk>)
    ensures r.Ok? <==> CanCreate(disk, p)
  {
    if CanCreate(disk, p) then Ok(Put(disk, p, "")) else Err("cannot create file")
  }

  predicate CanCreate(disk: Disk, p: Path) {
    p.dir in disk.dirs && Join(p.dir, p.name) !in disk.dirs
  }

  function Append(disk: Disk, p: Path, text: string): Disk
    requires p in disk.files
  {
    disk.(files := disk.files[p := disk.files[p] + text])
  }

  /** A file with the given contents, whatever was there before. */
  function Put(disk: Disk, p: Path, text: string): Disk {
    disk.(files := disk.files[p := text])
  }

  lemma AppendToPut(disk: Disk, p: Path, text: string, more: string)
    ensures p in Put(disk, p, text).files
    ensures Append(Put(disk, p, text), p, more) == Put(disk, p, text + more)
  {
    assert disk.files[p := text][p := text + more] == disk.files[p := text + more];
  }

  /** os.Mkdir: refuses a path that is taken. */
  function Mkdir(disk: Disk, dir: string, name: string): Result<Disk> {
    if dir in disk.dirs && Path(dir, name) !in disk.files && Join(dir, name) !in disk.dirs
    then Ok(disk.(dirs := disk.dirs + {Join(dir, name)}))
    else Err("cannot create directory")
  }

  /** os.Rename of a file: replaces a file at the destination without asking. */
  function Rename(disk: Disk, from: Path, to: Path): Result<Disk> {
    if from in disk.files && CanCreate(disk, to)
    then Ok(disk.(files := (disk.files - {from})[to := disk.files[from]]))
    else Err("cannot rename")
  }

  /** What os.ReadDir may return: every file and subdirectory once, in any order. */
  ghost predicate IsListing(disk: Disk, dir: string, entries: seq<Entry>) {
    && NoDup(entries)
    && (forall name {:trigger Entry(name, false)} :: Entry(name, false) in entries <==> Path(dir, name) in disk.files)
    && (forall name {:trigger Entry(name, true)} ::
          Entry(name, true) in entries <==> '/' !in name && Join(dir, name) in disk.dirs)
  }

  predicate HasPrefix(s: string, prefix: string) {
    |prefix| <= |s| && s[..|prefix|] == prefix
  }

  /** strings.Contains, and what an unanchored literal regexp matches. */
  predicate Contains(s: string, sub: string) {
    HasPrefix(s, sub) || (s != "" && Contains(s[1..], sub))
  }

  predicate IsDotfile(name: string) { name != "" && name[0] == '.' }

  /** filepath.Ext: from the last dot on. */
  function Ext(name: string): string {
    if name == "" then ""
    else if name[|name| - 1] == '.' then "."
    else if Ext(name[..|name| - 1]) == "" then ""
    else Ext(name[..|name| - 1]) + [name[|name| - 1]]
  }

  lemma ExtOfCsv(stem: string)
    ensures Ext(stem + ".csv") == ".csv"
  {
    var s := stem + ".csv";
    var n := |stem|;
    assert s[..n + 3] == stem + ".cs" && s[..n + 3][..n + 2] == stem + ".c" && s[..n + 2][..n + 1] == stem + ".";
    assert Ext(stem + ".") == ".";
    assert (stem + ".c")[..n + 1] == stem + ".";
    assert Ext(stem + ".c") == ".c";
    assert (stem + ".cs")[..n + 2] == stem + ".c";
    assert Ext(stem + ".cs") == ".cs";
  }

  // ----- A number behind a literal prefix: the capture of the regexp `prefix(\d+)` -----

  /** The leftmost match anywhere in the string, with as many digits as there are. */
  function FindNumber(s: string, prefix: string): Option<string> {
    if HasPrefix(s, prefix) && LeadingDigits(s[|prefix|..]) != "" then Some(LeadingDigits(s[|prefix|..]))
    else if s == "" then None
    else FindNumber(s[1..], prefix)
  }

  lemma {:induction false} FoundIsDigits(s: string, prefix: string)
    ensures FindNumber(s, prefix).Some? ==> AllDigits(FindNumber(s, prefix).value) && FindNumber(s, prefix).value != ""
  {
    if s != "" {
      FoundIsDigits(s[1..], prefix);
    }
  }

  lemma FindNumberAtStart(prefix: string, d: string, rest: string)
    requires d != "" && AllDigits(d) && (rest == "" || !IsDigit(rest[0]))
    ensures FindNumber(prefix + d + rest, prefix) == Some(d)
  {
    var s := prefix + d + rest;
    assert s[..|prefix|] == prefix && s[|prefix|..] == d + rest;
    LeadingDigitsOf(d, rest);
  }

  /** The prefix stands at position `k`, and a digit follows it. */
  predicate NumberAt(s: string, prefix: string, k: nat) {
    k + |prefix| < |s| && s[k..k + |prefix|] == prefix && IsDigit(s[k + |prefix|])
  }

  /** The digits from position `k` on, all of them. */
  ghost predicate DigitsFrom(s: string, k: nat, d: string) {
    && k + |d| <= |s| && s[k..k + |d|] == d && d != "" && AllDigits(d)
    && (k + |d| < |s| ==> !IsDigit(s[k + |d|]))
  }

  lemma DigitsHere(s: string, prefix: string)
    ensures HasPrefix(s, prefix) && LeadingDigits(s[|prefix|..]) != "" <==> NumberAt(s, prefix, 0)
    ensures NumberAt(s, prefix, 0) ==> DigitsFrom(s, |prefix|, LeadingDigits(s[|prefix|..]))
  {
    if HasPrefix(s, prefix) {
      var t := s[|prefix|..];
      var d := LeadingDigits(t);
      assert s[0..|prefix|] == s[..|prefix|];
      assert t[..|d|] == s[|prefix|..|prefix| + |d|];
    }
  }

  lemma NumberMoves(s: string, prefix: string, k: nat)
    requires s != "" && k > 0
    ensures NumberAt(s, prefix, k) <==> NumberAt(s[1..], prefix, k - 1)
  {
    if k + |prefix| < |s| {
      var here, moved := s[k..k + |prefix|], s[1..][k - 1..k - 1 + |prefix|];
      assert forall j :: 0 <= j < |here| ==> here[j] == s[k + j] == moved[j];
      assert here == moved;
    }
  }

  lemma DigitsMove(s: string, k: nat, d: string)
    requires s != "" && DigitsFrom(s[1..], k, d)
    ensures DigitsFrom(s, k + 1, d)
  {
    assert s[1..][k..k + |d|] == s[k + 1..k + 1 + |d|];
  }

  /** The leftmost place where a number stands behind the prefix. */
  ghost predicate FirstNumber(s: string, prefix: string, k: nat) {
    NumberAt(s, prefix, k) && forall j: nat :: j < k ==> !NumberAt(s, prefix, j)
  }

  ghost predicate NoNumber(s: string, prefix: string) { forall k: nat :: !NumberAt(s, prefix, k) }

  lemma NoNumberMoves(s: string, prefix: string)
    requires s != "" && !NumberAt(s, prefix, 0)
    ensures NoNumber(s, prefix) <==> NoNumber(s[1..], prefix)
  {
    forall k: nat
      ensures NumberAt(s, prefix, k + 1) <==> NumberAt(s[1..], prefix, k)
    {
      NumberMoves(s, prefix, k + 1);
    }
    if NoNumber(s[1..], prefix) {
      forall k: nat
        ensures !NumberAt(s, prefix, k)
      {
        if k > 0 {
          assert !NumberAt(s[1..], prefix, k - 1);
        }
      }
    }
    if NoNumber(s, prefix) {
      forall k: nat
        ensures !NumberAt(s[1..], prefix, k)
      {
        assert !NumberAt(s, prefix, k + 1);
      }
    }
  }

  lemma FirstMoves(s: string, prefix: string, k: nat)
    requires s != "" && !NumberAt(s, prefix, 0) && FirstNumber(s[1..], prefix, k)
    ensures FirstNumber(s, prefix, k + 1)
  {
    NumberMoves(s, prefix, k + 1);
    forall j: nat | j < k + 1
      ensures !NumberAt(s, prefix, j)
    {
      if j > 0 {
        NumberMoves(s, prefix, j);
      }
    }
  }

  /** The first number of the string, with all its digits. */
  ghost predicate IsNumberOf(s: string, prefix: string, d: string, k: nat) {
    FirstNumber(s, prefix, k) && DigitsFrom(s, k + |prefix|, d)
  }

  lemma NumberOfMoves(s: string, prefix: string, d: string, k: nat)
    requires s != "" && !NumberAt(s, prefix, 0) && IsNumberOf(s[1..], prefix, d, k)
    ensures IsNumberOf(s, prefix, d, k + 1)
  {
    FirstMoves(s, prefix, k);
    DigitsMove(s, k + |prefix|, d);
  }

  /** What an unanchored regexp `prefix(\d+)` captures: all digits behind the leftmost prefix that has any behind it. */
  lemma {:induction false} FindNumberExactly(s: string, prefix: string)
    ensures FindNumber(s, prefix) == None <==> NoNumber(s, prefix)
    ensures FindNumber(s, prefix).Some? ==> exists k: nat :: IsNumberOf(s, prefix, FindNumber(s, prefix).value, k)
  {
    DigitsHere(s, prefix);
    if NumberAt(s, prefix, 0) {
      assert IsNumberOf(s, prefix, FindNumber(s, prefix).value, 0);
    } else if s != "" {
      FindNumberExactly(s[1..], prefix);
      NoNumberMoves(s, prefix);
      if FindNumber(s, prefix).Some? {
        var d := FindNumber(s, prefix).value;
        var k: nat :| IsNumberOf(s[1..], prefix, d, k);
        NumberOfMoves(s, prefix, d, k);
      }
    }
  }

  predicate StandsAt(s: string, sub: string, k: nat) { k + |sub| <= |s| && s[k..k + |sub|] == sub }

  lemma StandsMoves(s: string, sub: string, k: nat)
    requires s != "" && k > 0
    ensures StandsAt(s, sub, k) <==> StandsAt(s[1..], sub, k - 1)
  {
    if k + |sub| <= |s| {
      assert s[k..k + |sub|] == s[1..][k - 1..k - 1 + |sub|];
    }
  }

  /** strings.Contains, by position. */
  lemma {:induction false} ContainsExactly(s: string, sub: string)
    ensures Contains(s, sub) <==> exists k: nat :: StandsAt(s, sub, k)
  {
    assert StandsAt(s, sub, 0) <==> HasPrefix(s, sub);
    if s != "" {
      ContainsExactly(s[1..], sub);
      forall k: nat | k > 0
        ensures StandsAt(s, sub, k) <==> StandsAt(s[1..], sub, k - 1)
      {
        StandsMoves(s, sub, k);
      }
      if k: nat :| StandsAt(s[1..], sub, k) {
        assert StandsAt(s, sub, k + 1);
      }
    }
  }

  /** The name ends with the extension, which starts with its last dot. */
  predicate IsExt(name: string, e: string) {
    |e| <= |name| && name[|name| - |e|..] == e && e != "" && e[0] == '.' && '.' !in e[1..]
  }

  lemma ExtGrows(name: string, e: string, c: char)
    requires IsExt(name, e) && c != '.'
    ensures IsExt(name + [c], e + [c])
  {
    var longer := name + [c];
    assert longer[|longer| - |e| - 1..] == name[|name| - |e|..] + [c];
    assert (e + [c])[1..] == e[1..] + [c];
  }

  /** filepath.Ext: the last dot and what follows it; nothing when there is no dot. */
  lemma {:induction false} ExtExactly(name: string)
    ensures if '.' in name then IsExt(name, Ext(name)) else Ext(name) == ""
  {
    if name != "" {
      var n := |name| - 1;
      assert name == name[..n] + [name[n]];
      ExtExactly(name[..n]);
      if name[n] == '.' {
        assert name[n..] == ".";
      } else if '.' in name[..n] {
        ExtGrows(name[..n], Ext(name[..n]), name[n]);
      }
    }
  }
}
