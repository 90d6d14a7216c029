/** The run number inside the experiment id. */
module ExperimentId {
  import opened Prelude
  import opened Decimal
  import opened FileSystem

  const PREFIX: string := "experiment-run-"

  /** The capture of the unanchored regexp `experiment-run-(\d+)`. */
  function RunNumber(s: string): Option<string> { FindNumber(s, PREFIX) }

  function RunId(n: int): string { PREFIX + FormatInt(n) }

  /** The id after an increment, or None where IncrementExperimentId reports an error. */
  function NextId(id: string): Option<string> {
    match RunNumber(id)
    case None => None
    case Some(digits) =>
      match ParseInt(digits)
      case None => None
      case Some(n) => Some(RunId(Increment(n)))
  }

  /** The configuration in memory and the one on disk, as far as the experiment id goes. */
  class Config {
    var id: string
    var stored: string

    constructor (id: string)
      ensures this.id == id && stored == id
    {
      this.id := id;
      stored := id;
    }

    /**
     * `created` tells whether the configuration file can be created. The id in memory is changed before that is known,
     * so an error leaves the file as it was, and the id as it was if and only if it has no number to increment.
     */
    method IncrementExperimentId(created: bool) returns (ok: bool)
      modifies this
      ensures ok <==> created && NextId(old(id)).Some?
      ensures ok ==> id == stored == NextId(old(id)).value
      ensures !ok ==> stored == old(stored)
      ensures !ok ==> id == match NextId(old(id)) case None => old(id) case Some(next) => next
      ensures !ok ==> (id == old(id) <==> NextId(old(id)).None?)
    {
      NextIdDiffers(id);
      var match_ := RunNumber(id);
      if match_.None? {
        return false;
      }
      var num := ParseInt(match_.value);
      if num.None? {
        return false;
      }
      id := RunId(Increment(num.value));
      if !created {
        return false;
      }
      stored := id;
      ok := true;
    }
  }

  lemma NextIdDiffers(id: string)
    ensures NextId(id).Some? ==> NextId(id).value != id
  {
    if NextId(id).Some? {
      var n: int := ParseInt(RunNumber(id).value).value;
      var next := Increment(n);
      if next >= 0 {
        RunNumberOfRunId(next);
        ParseDec(next);
      } else {
        NegativeRun(next);
      }
    }
  }

  lemma PrefixHasX(s: string)
    requires HasPrefix(s, PREFIX)
    ensures s[0] == 'e' && s[1] == 'x' && 'x' in s
  {
    assert s[1] == s[..|PREFIX|][1] == 'x' && s[0] == s[..|PREFIX|][0] == 'e';
  }

  lemma {:induction false} NoPrefix(s: string)
    requires 'x' !in s
    ensures RunNumber(s) == None
  {
    if HasPrefix(s, PREFIX) {
      PrefixHasX(s);
    }
    if s != "" {
      assert 'x' !in s[1..];
      NoPrefix(s[1..]);
    }
  }

  lemma NegativeRun(n: int)
    requires n < 0
    ensures RunNumber(RunId(n)) == None
  {
    var t := FormatInt(n);
    var rest := PREFIX[2..] + t;
    assert RunId(n) == "ex" + rest && RunId(n)[1..] == "x" + rest && ("x" + rest)[1..] == rest;
    assert RunId(n)[|PREFIX|..] == t && t[0] == '-' && LeadingDigits(t) == "";
    assert 'x' !in PREFIX[2..] && 'x' !in t;
    NoPrefix(rest);
    assert !HasPrefix("x" + rest, PREFIX) by {
      if HasPrefix("x" + rest, PREFIX) {
        PrefixHasX("x" + rest);
      }
    }
    assert RunNumber("x" + rest) == None;
    assert RunNumber(RunId(n)) == RunNumber(RunId(n)[1..]);
  }

  lemma RunNumberOfRunId(n: nat)
    ensures RunNumber(RunId(n)) == Some(Dec(n))
  {
    FindNumberAtStart(PREFIX, Dec(n), "");
    assert PREFIX + Dec(n) + "" == RunId(n);
  }

  lemma ParseDec(n: nat)
    ensures ParseInt(Dec(n)) == if n < TWO_TO_THE_63 then Some(n) else None
  {
    ValueOfDec(n);
    var d := Dec(n);
    assert IsDigit(d[0]);
  }

  /** For any id: the number in it goes up by one, wrapping at the largest int; the rest of the id is gone. */
  lemma NextIdExactly(id: string)
    ensures match FindNumber(id, "experiment-run-")
      case None => NextId(id) == None
      case Some(d) =>
        && AllDigits(d)
        && NextId(id) ==
             if Value(d) < TWO_TO_THE_63 - 1 then Some("experiment-run-" + Dec(Value(d) + 1))
             else if Value(d) == TWO_TO_THE_63 - 1 then Some("experiment-run-" + FormatInt(-TWO_TO_THE_63))
             else None
  {
    FoundIsDigits(id, "experiment-run-");
    if d :| FindNumber(id, "experiment-run-") == Some(d) {
      ParseSigned(d);
    }
  }

  /** The number goes up by one exactly below the top of the int range. */
  lemma IncrementCounts(n: nat)
    ensures NextId(RunId(n)) == Some(RunId(n + 1)) <==> n < TWO_TO_THE_63 - 1
  {
    RunNumberOfRunId(n);
    ParseDec(n);
    if n == TWO_TO_THE_63 - 1 {
      assert FormatInt(-TWO_TO_THE_63)[0] == '-';
      assert RunId(-TWO_TO_THE_63)[|PREFIX|] == '-';
      assert IsDigit(RunId(n + 1)[|PREFIX|]);
    }
  }

  lemma RunIdInjective(m: nat, n: nat)
    requires RunId(m) == RunId(n)
    ensures m == n
  {
    assert RunId(m)[|PREFIX|..] == Dec(m) && RunId(n)[|PREFIX|..] == Dec(n);
    DecInjective(m, n);
  }
}
