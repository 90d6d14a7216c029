/**
 * The names of what a session leaves, spelled out: which run and which node a name belongs to, and that the results of
 * different nodes do not meet.
 */
module ResultNames {
  import opened Prelude
  import opened Decimal
  import opened FileSystem
  import opened ExperimentId
  import opened Archiving
  import opened Sessions
  import RunNames

  // ----- The names -----

  /** Run and node, as they stand in every name. */
  function Stem(n: int, node: int): string { "experiment-run-" + FormatInt(n) + "-node-" + FormatInt(node) }

  lemma NamesSpelled(env: Env, n: nat, i: nat)
    ensures OutPath(env, n) == Path(env.outDir, Stem(n, env.node) + ".csv")
    ensures ArchiveDir(env, n) == env.dataDir + "/" + Stem(n, env.node)
    ensures WorkerPath(env, n, i) == Path(env.dataDir, Stem(n, env.node) + "-worker-" + Dec(i) + ".csv")
  {
    assert Sub(env, n) == Stem(n, env.node);
  }

  // ----- Which run and which node -----

  /** No number stands behind the prefix before position `|a|`. */
  lemma {:induction false} FindNumberSkips(a: string, s: string, prefix: string)
    requires forall k :: 0 <= k < |a| ==> !HasPrefix((a + s)[k..], prefix)
    ensures FindNumber(a + s, prefix) == FindNumber(s, prefix)
  {
    if a == "" {
      assert a + s == s;
    } else {
      assert (a + s)[0..] == a + s && (a + s)[1..] == a[1..] + s;
      forall k | 0 <= k < |a[1..]|
        ensures !HasPrefix((a[1..] + s)[k..], prefix)
      {
        assert (a + s)[k + 1..] == (a[1..] + s)[k..];
      }
      FindNumberSkips(a[1..], s, prefix);
    }
  }

  lemma RunStem(n: nat)
    ensures var a := "experiment-run-" + FormatInt(n);
      forall k :: 0 <= k < |a| && a[k] == '-' ==> k == 10 || k == 14
    ensures var a := "experiment-run-" + FormatInt(n); |a| > 15 && a[11] == 'r' && IsDigit(a[15])
  {
    var p := "experiment-run-";
    assert |p| == 15 && p[10] == '-' && p[14] == '-' && p[11] == 'r';
    assert forall k :: 0 <= k < 15 && p[k] == '-' ==> k == 10 || k == 14;
    var a := p + FormatInt(n);
    assert forall k :: 0 <= k < 15 ==> a[k] == p[k];
    assert forall k :: 15 <= k < |a| ==> a[k] == FormatInt(n)[k - 15];
  }

  lemma NodeStarts(t: string)
    ensures HasPrefix(t, "-node-") ==> |t| >= 6 && t[0] == '-' && t[1] == 'n'
  {
    if HasPrefix(t, "-node-") {
      assert t[0] == t[..6][0] && t[1] == t[..6][1];
    }
  }

  lemma NoNodeBefore(n: nat, s: string)
    ensures var a := "experiment-run-" + FormatInt(n);
      forall k :: 0 <= k < |a| ==> !HasPrefix((a + s)[k..], "-node-")
  {
    var a := "experiment-run-" + FormatInt(n);
    RunStem(n);
    forall k | 0 <= k < |a|
      ensures !HasPrefix((a + s)[k..], "-node-")
    {
      NodeStarts((a + s)[k..]);
      assert (a + s)[k] == a[k] && (a[k] == '-' ==> (a + s)[k + 1] == a[k + 1] != 'n');
    }
  }

  lemma {:induction false} NoNumberWithoutN(s: string)
    requires 'n' !in s
    ensures FindNumber(s, "-node-") == None
  {
    NodeStarts(s);
    if s != "" {
      assert 'n' !in s[1..];
      NoNumberWithoutN(s[1..]);
    }
  }

  lemma NegativeNode(node: int, rest: string)
    requires node < 0 && 'n' !in rest
    ensures FindNumber("-node-" + FormatInt(node) + rest, "-node-") == None
  {
    var t := FormatInt(node) + rest;
    var s := "-node-" + t;
    assert "-node-" + FormatInt(node) + rest == s;
    assert t[0] == FormatInt(node)[0] == '-' && LeadingDigits(t) == "";
    assert s[|"-node-"|..] == t;
    SkipsOwn(t);
    NoNumberWithoutN(t);
  }

  /** Behind "-node-" no digit: the search goes on behind it. */
  lemma SkipsOwn(t: string)
    requires t != "" && !IsDigit(t[0]) && 'n' !in t
    ensures FindNumber("-node-" + t, "-node-") == FindNumber(t, "-node-")
  {
    var s := "-node-" + t;
    assert s[|"-node-"|..] == t && LeadingDigits(t) == "";
    assert FindNumber(s, "-node-") == FindNumber(s[1..], "-node-");
    assert s[1..] == "node-" + t;
    forall k | 0 <= k < |"node-"|
      ensures !HasPrefix(("node-" + t)[k..], "-node-")
    {
      NodeStarts(("node-" + t)[k..]);
      assert k < 4 ==> ("node-" + t)[k] != '-';
      assert ("node-" + t)[5] == t[0];
    }
    FindNumberSkips("node-", t, "-node-");
  }

  lemma RunInName(n: nat, tail: string)
    requires tail != "" && !IsDigit(tail[0])
    ensures FindNumber("experiment-run-" + FormatInt(n) + tail, "experiment-run-") == Some(Dec(n))
  {
    FindNumberAtStart("experiment-run-", Dec(n), tail);
  }

  lemma NodeInName(n: nat, node: int, rest: string)
    requires 'n' !in rest && (rest == "" || !IsDigit(rest[0]))
    ensures FindNumber("experiment-run-" + FormatInt(n) + ("-node-" + FormatInt(node) + rest), "-node-") ==
            if node >= 0 then Some(Dec(node)) else None
  {
    var tail := "-node-" + FormatInt(node) + rest;
    NoNodeBefore(n, tail);
    FindNumberSkips("experiment-run-" + FormatInt(n), tail, "-node-");
    if node >= 0 {
      FindNumberAtStart("-node-", Dec(node), rest);
    } else {
      NegativeNode(node, rest);
    }
  }

  lemma StemSplit(d: string, f: string, rest: string)
    ensures "experiment-run-" + d + "-node-" + f + rest == "experiment-run-" + d + ("-node-" + f + rest)
  {
  }

  /**
   * The analysis finds run and node in a name by `experiment-run-(\d+)` and `-node-(\d+)`: it finds the run always, and
   * the node exactly when its number is not negative.
   */
  lemma NumbersInName(n: nat, node: int, rest: string)
    requires 'n' !in rest && (rest == "" || !IsDigit(rest[0]))
    ensures FindNumber(Stem(n, node) + rest, "experiment-run-") == Some(Dec(n))
    ensures FindNumber(Stem(n, node) + rest, "-node-") == if node >= 0 then Some(Dec(node)) else None
  {
    StemSplit(FormatInt(n), FormatInt(node), rest);
    RunInName(n, "-node-" + FormatInt(node) + rest);
    NodeInName(n, node, rest);
  }

  /** So it is with the output file, the subdirectory and the files of the workers. */
  lemma ResultTells(env: Env, n: nat)
    ensures FindNumber(OutPath(env, n).name, "experiment-run-") == FindNumber(Sub(env, n), "experiment-run-") ==
            Some(Dec(n))
    ensures FindNumber(OutPath(env, n).name, "-node-") == FindNumber(Sub(env, n), "-node-") ==
            if env.node >= 0 then Some(Dec(env.node)) else None
  {
    NamesSpelled(env, n, 0);
    NumbersInName(n, env.node, ".csv");
    NumbersInName(n, env.node, "");
    assert Stem(n, env.node) + "" == Stem(n, env.node) == Sub(env, n);
  }

  lemma WorkerFileTells(env: Env, n: nat, i: nat)
    ensures FindNumber(WorkerPath(env, n, i).name, "experiment-run-") == Some(Dec(n))
    ensures FindNumber(WorkerPath(env, n, i).name, "-node-") == if env.node >= 0 then Some(Dec(env.node)) else None
  {
    var rest := "-worker-" + Dec(i) + ".csv";
    NamesSpelled(env, n, i);
    assert 'n' !in "-worker-" && 'n' !in Dec(i) && 'n' !in ".csv";
    NumbersInName(n, env.node, rest);
    WorkerSplit(Stem(n, env.node), Dec(i));
  }

  lemma WorkerSplit(stem: string, i: string)
    ensures stem + "-worker-" + i + ".csv" == stem + ("-worker-" + i + ".csv")
  {
  }

  // ----- A name has one run and one node -----

  lemma PrintedTells(x: int, y: int)
    requires FormatInt(x) == FormatInt(y)
    ensures x == y
  {
    if x < 0 {
      assert FormatInt(x)[1..] == Dec(-x) && FormatInt(x)[0] == '-';
      assert !IsDigit(FormatInt(y)[0]);
      assert FormatInt(y)[1..] == Dec(-y);
      DecInjective(-x, -y);
    } else {
      assert IsDigit(FormatInt(x)[0]);
      DecInjective(x, y);
    }
  }

  predicate AllNumeric(s: string) { forall k :: 0 <= k < |s| ==> RunNames.Numeric(s[k]) }

  lemma StemParts(d: string, f: string, d': string, f': string)
    requires AllNumeric(d) && AllNumeric(d')
    requires "experiment-run-" + d + "-node-" + f == "experiment-run-" + d' + "-node-" + f'
    ensures d == d' && f == f'
  {
    var p, x, y := "experiment-run-", "-node-" + f, "-node-" + f';
    assert (p + d + "-node-" + f)[|p|..] == d + x && (p + d' + "-node-" + f')[|p|..] == d' + y;
    RunNames.NumberEnds(d, d', x, y);
    assert x[6..] == f && y[6..] == f';
  }

  lemma WorkerParts(f: string, w: string, f': string, w': string)
    requires AllNumeric(f) && AllNumeric(f') && f + ("-worker-" + w + ".csv") == f' + ("-worker-" + w' + ".csv")
    ensures f == f' && w == w'
  {
    var x, y := "-worker-" + w + ".csv", "-worker-" + w' + ".csv";
    RunNames.NumberEnds(f, f', x, y);
    CancelSuffix("-worker-" + w, "-worker-" + w', ".csv");
    assert ("-worker-" + w)[8..] == w && ("-worker-" + w')[8..] == w';
  }

  lemma StemTells(n: nat, node: int, n': nat, node': int)
    requires Stem(n, node) == Stem(n', node')
    ensures n == n' && node == node'
  {
    StemParts(FormatInt(n), FormatInt(node), FormatInt(n'), FormatInt(node'));
    PrintedTells(n, n');
    PrintedTells(node, node');
  }

  /** The results of different runs or nodes have different names, whatever the signs of the nodes. */
  lemma ResultIsOf(env: Env, n: nat, env': Env, n': nat)
    requires OutPath(env, n).name == OutPath(env', n').name || Sub(env, n) == Sub(env', n')
    ensures n == n' && env.node == env'.node
  {
    NamesSpelled(env, n, 0);
    NamesSpelled(env', n', 0);
    if OutPath(env, n).name == OutPath(env', n').name {
      CancelSuffix(Stem(n, env.node), Stem(n', env'.node), ".csv");
    }
    assert Sub(env, n) == Stem(n, env.node) && Sub(env', n') == Stem(n', env'.node);
    StemTells(n, env.node, n', env'.node);
  }

  lemma WorkerFileParts(d: string, f: string, w: string, d': string, f': string, w': string)
    requires AllNumeric(d) && AllNumeric(d') && AllNumeric(f) && AllNumeric(f')
    requires "experiment-run-" + d + "-node-" + f + "-worker-" + w + ".csv" ==
             "experiment-run-" + d' + "-node-" + f' + "-worker-" + w' + ".csv"
    ensures d == d' && f == f' && w == w'
  {
    var x, y := f + ("-worker-" + w + ".csv"), f' + ("-worker-" + w' + ".csv");
    assert "experiment-run-" + d + "-node-" + f + "-worker-" + w + ".csv" == "experiment-run-" + d + "-node-" + x;
    assert "experiment-run-" + d' + "-node-" + f' + "-worker-" + w' + ".csv" == "experiment-run-" + d' + "-node-" + y;
    StemParts(d, x, d', y);
    WorkerParts(f, w, f', w');
  }

  /** Nor do two workers share a file, on one node or on two. */
  lemma WorkerFileIsOf(env: Env, n: nat, i: nat, env': Env, n': nat, i': nat)
    requires WorkerPath(env, n, i).name == WorkerPath(env', n', i').name
    ensures n == n' && env.node == env'.node && i == i'
  {
    NamesSpelled(env, n, i);
    NamesSpelled(env', n', i');
    WorkerFileParts(FormatInt(n), FormatInt(env.node), Dec(i), FormatInt(n'), FormatInt(env'.node), Dec(i'));
    PrintedTells(n, n');
    PrintedTells(env.node, env'.node);
    DecInjective(i, i');
  }

  // ----- Many nodes -----

  /** A session on one node spares the results of all others, even in the same directory. */
  lemma NodesApart(disk: Disk, d: Disk, env: Env, n: nat, input: Input, env': Env, m: nat)
    requires RunDone(disk, d, env, n, input) && env'.outDir == env.outDir && env'.node != env.node
    ensures SameAt(disk, d, OutPath(env', m))
  {
    if OutPath(env', m) == OutPath(env, n) {
      ResultIsOf(env', m, env, n);
    }
    OutputsSpared(disk, d, env, n, input, OutPath(env', m));
  }

  /** Everything in a node's output directory is a result of that node. */
  ghost predicate OwnResults(d: Disk, env: Env) {
    forall p: Path :: p.dir == env.outDir && p in d.files ==> exists m: nat :: p.name == OutPath(env, m).name
  }

  /** The output directories of the nodes copied into one, one after the other: by name, what is there in the end. */
  ghost function Gathered(ds: seq<Disk>, envs: seq<Env>, name: string): Option<string>
    requires |ds| == |envs|
  {
    if ds == [] then None
    else
      var k := |ds| - 1;
      var p := Path(envs[k].outDir, name);
      if p in ds[k].files then Some(ds[k].files[p]) else Gathered(ds[..k], envs[..k], name)
  }

  ghost predicate NodesDiffer(envs: seq<Env>) {
    forall j, k :: 0 <= j < k < |envs| ==> envs[j].node != envs[k].node
  }

  /** Nobody's result replaces another's there. */
  lemma {:induction false} GatheredApart(ds: seq<Disk>, envs: seq<Env>, k: nat, n: nat)
    requires |ds| == |envs| && k < |envs| && NodesDiffer(envs)
    requires forall j :: 0 <= j < |envs| ==> OwnResults(ds[j], envs[j])
    requires OutPath(envs[k], n) in ds[k].files
    ensures Gathered(ds, envs, OutPath(envs[k], n).name) == Some(ds[k].files[OutPath(envs[k], n)])
  {
    var last := |ds| - 1;
    var name := OutPath(envs[k], n).name;
    if k < last {
      var p := Path(envs[last].outDir, name);
      if p in ds[last].files {
        var m: nat :| p.name == OutPath(envs[last], m).name;
        ResultIsOf(envs[last], m, envs[k], n);
      }
      GatheredApart(ds[..last], envs[..last], k, n);
    }
  }
}
