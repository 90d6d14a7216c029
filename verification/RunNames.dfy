/** The names of the monitor's output files, and the regexp that finds the run number in them. */
module RunNames {
  import opened Prelude
  import opened Decimal
  import opened FileSystem

  const KINDS: seq<string> := ["cpu", "memory", "network"]

  function Name(node: int64, run: int64, kind: string): string {
    NameOf(FormatInt(node), FormatInt(run), kind)
  }

  function NameOf(node: string, run: string, kind: string): string {
    "broker-" + (node + ("-run-" + (run + ("-" + (kind + ".csv")))))
  }

  // ----- The regexp broker-\d+-run-(\d+)-\D+.csv -----

  predicate NoDigits(s: string) { forall k :: 0 <= k < |s| ==> !IsDigit(s[k]) }

  /** A match of `\D+.csv` at the start: the dot stands for any character but a newline. */
  predicate Tail(s: string) {
    exists n :: 1 <= n <= |s| - 4 && NoDigits(s[..n]) && s[n] != '\n' && s[n + 1..n + 4] == "csv"
  }

  function After(s: string, prefix: string): Option<string> {
    if HasPrefix(s, prefix) then Some(s[|prefix|..]) else None
  }

  /** The digits at the start and what follows them, if there are any and a hyphen follows. */
  function Digits(s: string): Option<(string, string)> {
    var d := LeadingDigits(s);
    if d != "" && |d| < |s| && s[|d|] == '-' then Some((d, s[|d|..])) else None
  }

  /** The capture of a match that starts at the first character. */
  function MatchHere(s: string): Option<string> {
    match After(s, "broker-")
    case None => None
    case Some(r) =>
      match Digits(r)
      case None => None
      case Some((_, t)) =>
        match After(t, "-run-")
        case None => None
        case Some(u) =>
          match Digits(u)
          case None => None
          case Some((run, v)) => if Tail(v[1..]) then Some(run) else None
  }

  /** The capture of the leftmost match anywhere in the name. */
  function FindRun(s: string): Option<string> {
    if MatchHere(s).Some? then MatchHere(s) else if s == "" then None else FindRun(s[1..])
  }

  // ----- The regexp by what it matches -----

  /** A match of the whole regexp at the start of `s`, with the capture `run`. */
  ghost predicate Matches(s: string, node: string, run: string, letters: string, dot: char, rest: string) {
    && s == "broker-" + (node + ("-run-" + (run + ("-" + (letters + ([dot] + ("csv" + rest)))))))
    && node != "" && AllDigits(node) && run != "" && AllDigits(run)
    && letters != "" && NoDigits(letters) && dot != '\n'
  }

  ghost predicate MatchesAs(s: string, run: string) {
    exists node, letters, dot, rest :: Matches(s, node, run, letters, dot, rest)
  }

  lemma AfterMeans(s: string, prefix: string)
    ensures After(s, prefix).Some? ==> s == prefix + After(s, prefix).value
  {
  }

  lemma DigitsMean(s: string)
    ensures Digits(s).Some? ==>
      && s == Digits(s).value.0 + Digits(s).value.1 && Digits(s).value.0 != "" && AllDigits(Digits(s).value.0)
      && Digits(s).value.1 != "" && Digits(s).value.1[0] == '-'
  {
  }

  lemma TailMeans(s: string)
    ensures Tail(s) <==> exists letters, dot, rest ::
              s == letters + ([dot] + ("csv" + rest)) && letters != "" && NoDigits(letters) && dot != '\n'
  {
    if Tail(s) {
      var n :| 1 <= n <= |s| - 4 && NoDigits(s[..n]) && s[n] != '\n' && s[n + 1..n + 4] == "csv";
      assert s == s[..n] + ([s[n]] + ("csv" + s[n + 4..]));
    }
    if letters, dot, rest :|
      s == letters + ([dot] + ("csv" + rest)) && letters != "" && NoDigits(letters) && dot != '\n'
    {
      var n := |letters|;
      assert s[..n] == letters && s[n] == dot && s[n + 1..n + 4] == "csv";
    }
  }

  lemma MatchHereMeans(s: string)
    requires MatchHere(s).Some?
    ensures MatchesAs(s, MatchHere(s).value)
  {
    var r := After(s, "broker-").value;
    AfterMeans(s, "broker-");
    var (node, t) := Digits(r).value;
    DigitsMean(r);
    var u := After(t, "-run-").value;
    AfterMeans(t, "-run-");
    var (run, v) := Digits(u).value;
    DigitsMean(u);
    TailMeans(v[1..]);
    var letters, dot, rest :|
      v[1..] == letters + ([dot] + ("csv" + rest)) && letters != "" && NoDigits(letters) && dot != '\n';
    assert v == "-" + v[1..];
    assert Matches(s, node, run, letters, dot, rest);
  }

  lemma MatchIsFound(s: string, node: string, run: string, letters: string, dot: char, rest: string)
    requires Matches(s, node, run, letters, dot, rest)
    ensures MatchHere(s) == Some(run)
  {
    var w := letters + ([dot] + ("csv" + rest));
    var v := "-" + w;
    var t := "-run-" + (run + v);
    AfterIs("broker-", node + t);
    LeadingDigitsAre(node, t);
    AfterIs("-run-", run + v);
    LeadingDigitsAre(run, v);
    TailMeans(w);
    assert v[1..] == w;
  }

  /** No match starts before position `k`, and one with capture `run` does there. */
  ghost predicate FirstMatch(s: string, k: nat, run: string) {
    k <= |s| && MatchesAs(s[k..], run) && forall j: nat, r :: j < k ==> !MatchesAs(s[j..], r)
  }

  lemma MatchHereExactly(s: string, run: string)
    ensures MatchHere(s) == Some(run) <==> MatchesAs(s, run)
  {
    if MatchHere(s) == Some(run) {
      MatchHereMeans(s);
    }
    if node, letters, dot, rest :| Matches(s, node, run, letters, dot, rest) {
      MatchIsFound(s, node, run, letters, dot, rest);
    }
  }

  /** The capture of `broker-\d+-run-(\d+)-\D+.csv` is that of its leftmost match, wherever that is in the name. */
  lemma {:induction false} FindRunExactly(s: string, run: string)
    ensures FindRun(s) == Some(run) <==> exists k: nat :: FirstMatch(s, k, run)
  {
    forall r
      ensures MatchHere(s) == Some(r) <==> MatchesAs(s, r)
    {
      MatchHereExactly(s, r);
    }
    assert s[0..] == s;
    if MatchHere(s).Some? {
      assert MatchesAs(s, MatchHere(s).value);
      if FindRun(s) == Some(run) {
        assert FirstMatch(s, 0, run);
      }
    } else if s != "" {
      FindRunExactly(s[1..], run);
      assert forall j: nat :: 0 < j <= |s| ==> s[j..] == s[1..][j - 1..];
      if k: nat :| FirstMatch(s[1..], k, run) {
        assert s[1..][k..] == s[k + 1..];
        assert FirstMatch(s, k + 1, run);
      }
      if k: nat :| FirstMatch(s, k, run) {
        assert k > 0 && s[k..] == s[1..][k - 1..];
        forall j: nat, r | j < k - 1
          ensures !MatchesAs(s[1..][j..], r)
        {
          assert s[1..][j..] == s[j + 1..];
        }
        assert FirstMatch(s[1..], k - 1, run);
      }
    }
  }

  /** The run number that a name counts for; one that does not fit an int is passed over. */
  function Number(name: string): Option<int64> {
    match FindRun(name)
    case None => None
    case Some(d) => ParseInt(d)
  }

  lemma PrefixHasB(s: string)
    requires HasPrefix(s, "broker-")
    ensures 'b' in s
  {
    assert s[0] == s[..7][0] == 'b';
  }

  lemma {:induction false} NoMatchWithoutB(s: string)
    requires 'b' !in s
    ensures FindRun(s) == None
  {
    if HasPrefix(s, "broker-") {
      PrefixHasB(s);
    }
    if s != "" {
      assert 'b' !in s[1..];
      NoMatchWithoutB(s[1..]);
    }
  }

  lemma MatchOnlyAtStart(s: string)
    requires s != "" && 'b' !in s[1..]
    ensures FindRun(s) == MatchHere(s)
  {
    NoMatchWithoutB(s[1..]);
  }

  lemma LeadingDigitsAre(d: string, rest: string)
    requires AllDigits(d) && d != "" && rest != "" && rest[0] == '-'
    ensures Digits(d + rest) == Some((d, rest))
  {
    LeadingDigitsOf(d, rest);
    assert (d + rest)[|d|..] == rest;
  }

  lemma AfterIs(prefix: string, rest: string)
    ensures After(prefix + rest, prefix) == Some(rest)
  {
    assert (prefix + rest)[..|prefix|] == prefix;
  }

  lemma TailOf(kind: string)
    requires kind in KINDS
    ensures Tail(kind + ".csv") && 'b' !in kind && NoDigits(kind)
  {
    var s, n := kind + ".csv", |kind|;
    assert s[..n] == kind && s[n] == '.' && s[n + 1..n + 4] == "csv";
  }

  /** Nothing but the first character can start a match. */
  lemma FindRunOfName(node: string, run: string, kind: string)
    requires kind in KINDS && 'b' !in node && 'b' !in run
    ensures FindRun(NameOf(node, run, kind)) == MatchHere(NameOf(node, run, kind))
  {
    TailOf(kind);
    var rest := node + ("-run-" + (run + ("-" + (kind + ".csv"))));
    assert 'b' !in "-run-" && 'b' !in "-" && 'b' !in ".csv" && 'b' !in "roker-";
    assert 'b' !in rest;
    assert ("broker-" + rest)[1..] == "roker-" + rest;
    MatchOnlyAtStart(NameOf(node, run, kind));
  }

  lemma MatchOfName(node: string, run: string, kind: string)
    requires kind in KINDS && node != "" && run != ""
    requires AllDigits(node) || node[0] == '-'
    requires AllDigits(run) || run[0] == '-'
    ensures MatchHere(NameOf(node, run, kind)) == if AllDigits(node) && AllDigits(run) then Some(run) else None
  {
    var v := "-" + (kind + ".csv");
    var t := "-run-" + (run + v);
    TailOf(kind);
    AfterIs("broker-", node + t);
    if AllDigits(node) {
      LeadingDigitsAre(node, t);
      AfterIs("-run-", run + v);
      if AllDigits(run) {
        LeadingDigitsAre(run, v);
        assert v[1..] == kind + ".csv";
      } else {
        assert LeadingDigits(run + v) == "";
      }
    } else {
      assert LeadingDigits(node + t) == "";
    }
  }

  lemma FormatIntShape(x: int64)
    ensures 'b' !in FormatInt(x) && (AllDigits(FormatInt(x)) <==> x >= 0)
    ensures x < 0 ==> FormatInt(x)[0] == '-'
  {
    if x < 0 {
      assert !IsDigit(FormatInt(x)[0]);
    }
  }

  lemma NumberOfName(node: int64, run: int64, kind: string)
    requires kind in KINDS
    ensures Number(Name(node, run, kind)) == if node >= 0 && run >= 0 then Some(run) else None
  {
    FormatIntShape(node);
    FormatIntShape(run);
    FindRunOfName(FormatInt(node), FormatInt(run), kind);
    MatchOfName(FormatInt(node), FormatInt(run), kind);
    ParseFormat(run);
  }

  lemma FindRunIsDigits(s: string)
    ensures FindRun(s).Some? ==> AllDigits(FindRun(s).value)
  {
  }

  lemma NumbersAreNatural(name: string)
    ensures Number(name).Some? ==> Number(name).value >= 0
  {
    FindRunIsDigits(name);
  }

  predicate IsOutput(name: string, node: int64, run: int64) {
    name == Name(node, run, "cpu") || name == Name(node, run, "memory") || name == Name(node, run, "network")
  }

  /** A name the monitor prints counts for its own run, if and only if neither number is printed with a minus sign. */
  lemma OutputNumber(name: string, node: int64, run: int64)
    requires IsOutput(name, node, run)
    ensures Number(name) == if node >= 0 && run >= 0 then Some(run) else None
  {
    assert "cpu" in KINDS && "memory" in KINDS && "network" in KINDS;
    NumberOfName(node, run, "cpu");
    NumberOfName(node, run, "memory");
    NumberOfName(node, run, "network");
  }

  // ----- A name tells the node and the run it was made of -----

  predicate Numeric(c: char) { IsDigit(c) || c == '-' }

  /** Numbers end at the hyphen that a letter follows. */
  lemma NumberEnds(a: string, b: string, x: string, y: string)
    requires a + x == b + y && |x| >= 2 && |y| >= 2
    requires (forall k :: 0 <= k < |a| ==> Numeric(a[k])) && forall k :: 0 <= k < |b| ==> Numeric(b[k])
    requires x[0] == '-' == y[0] && !Numeric(x[1]) && !Numeric(y[1])
    ensures a == b && x == y
  {
    assert (a + x)[..|a|] == a && (b + y)[..|b|] == b && (a + x)[|a|..] == x && (b + y)[|b|..] == y;
  }

  lemma NameParts(node: string, run: string, kind: string, node': string, run': string, kind': string)
    requires kind in KINDS && kind' in KINDS && NameOf(node, run, kind) == NameOf(node', run', kind')
    requires (forall k :: 0 <= k < |node| ==> Numeric(node[k])) && forall k :: 0 <= k < |node'| ==> Numeric(node'[k])
    requires (forall k :: 0 <= k < |run| ==> Numeric(run[k])) && forall k :: 0 <= k < |run'| ==> Numeric(run'[k])
    ensures node == node' && run == run'
  {
    var v, v' := "-" + (kind + ".csv"), "-" + (kind' + ".csv");
    var t, t' := "-run-" + (run + v), "-run-" + (run' + v');
    AfterIs("broker-", node + t);
    AfterIs("broker-", node' + t');
    NumberEnds(node, node', t, t');
    AfterIs("-run-", run + v);
    AfterIs("-run-", run' + v');
    NumberEnds(run, run', v, v');
  }

  lemma NameTells(node: int64, run: int64, kind: string, node': int64, run': int64, kind': string)
    requires kind in KINDS && kind' in KINDS && Name(node, run, kind) == Name(node', run', kind')
    ensures node == node' && run == run'
  {
    NameParts(FormatInt(node), FormatInt(run), kind, FormatInt(node'), FormatInt(run'), kind');
    ParseFormat(node);
    ParseFormat(node');
    ParseFormat(run);
    ParseFormat(run');
  }

  lemma KindOf(name: string, node: int64, run: int64) returns (kind: string)
    requires IsOutput(name, node, run)
    ensures kind in KINDS && name == Name(node, run, kind)
  {
    assert "cpu" in KINDS && "memory" in KINDS && "network" in KINDS;
    kind :=
      if name == Name(node, run, "cpu") then "cpu"
      else if name == Name(node, run, "memory") then "memory"
      else "network";
  }

  lemma OutputIsOf(name: string, node: int64, run: int64, node': int64, run': int64)
    requires IsOutput(name, node, run) && IsOutput(name, node', run')
    ensures node == node' && run == run'
  {
    var kind := KindOf(name, node, run);
    var kind' := KindOf(name, node', run');
    NameTells(node, run, kind, node', run', kind');
  }
}
