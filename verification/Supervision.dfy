/** The supervisor's polling loop: how long it sleeps, and how late it notices that the queue is empty. */
module Supervision {
  import opened Protocol

  function Pow2(k: nat): nat {
    if k == 0 then 1 else 2 * Pow2(k - 1)
  }

  /** The value of `t` after `k` non-empty polls; the `k`-th sleep lasts that long. */
  function Sleep(k: nat): (t: int) {
    if k == 0 then FIRST_SLEEP else NextSleep(Sleep(k - 1))
  }

  /** The time slept by the first `k` sleeps. */
  function Slept(k: nat): int {
    if k == 0 then 0 else Slept(k - 1) + Sleep(k)
  }

  /** The k-th sleep is min(100*2^k, 6400) milliseconds. */
  lemma {:induction false} SleepIs(k: nat)
    ensures Sleep(k) == if 100 * Pow2(k) < 6400 then 100 * Pow2(k) else 6400
    ensures 100 <= Sleep(k) <= 6400 && (Pow2(k) < 64 <==> k < 6)
  {
    if k == 0 {
    } else {
      SleepIs(k - 1);
      if k <= 6 {
        assert Pow2(0) == 1 && Pow2(1) == 2 && Pow2(2) == 4 && Pow2(3) == 8;
        assert Pow2(4) == 16 && Pow2(5) == 32 && Pow2(6) == 64;
      }
    }
  }

  /** In all: a doubling start, and then a constant pace. */
  lemma {:induction false} SleptIs(k: nat)
    ensures Slept(k) == if k <= 6 then 200 * (Pow2(k) - 1) else 12600 + 6400 * (k - 6)
  {
    if k > 0 {
      SleptIs(k - 1);
      SleepIs(k);
      SleepIs(k - 1);
      assert Pow2(6) == 64;
    }
  }

  /** How the watch over the queue goes: the polls that found messages, the sleeps, and whether it has ended. */
  datatype Watch = Watch(polls: nat, sleeps: seq<int>, ended: bool)

  /**
   * `counts` are the message counts that the passive declares have returned so far. The loop ends at the first zero,
   * which is when it closes `stop`, and goes on as long as there is none; it sleeps once after every other poll.
   */
  method WaitUntilEmpty(counts: seq<nat>) returns (w: Watch)
    ensures w.ended <==> 0 in counts
    ensures w.polls <= |counts| && (forall k :: 0 <= k < w.polls ==> counts[k] > 0)
    ensures if w.ended then w.polls < |counts| && counts[w.polls] == 0 else w.polls == |counts|
    ensures |w.sleeps| == w.polls && forall k :: 0 <= k < w.polls ==> w.sleeps[k] == Sleep(k + 1)
  {
    var t, tmax := 100, 6400;
    var i := 0;
    var sleeps := [];
    while i < |counts|
      invariant i <= |counts| && forall k :: 0 <= k < i ==> counts[k] > 0
      invariant t == Sleep(i)
      invariant |sleeps| == i && forall k :: 0 <= k < i ==> sleeps[k] == Sleep(k + 1)
    {
      var messages := counts[i];
      if messages == 0 {
        return Watch(i, sleeps, true);
      } else {
        if t < tmax {
          t := t * 2;
        }
        sleeps := sleeps + [t];
        i := i + 1;
      }
    }
    w := Watch(i, sleeps, false);
  }

  /** The first poll that finds nothing. */
  ghost predicate FirstEmpty(counts: seq<nat>, p: nat) {
    p < |counts| && counts[p] == 0 && forall k :: 0 <= k < p ==> counts[k] > 0
  }

  /**
   * A queue that is empty from time `e` on (in milliseconds of sleeping, from the first poll) is noticed at the latest
   * 6400 milliseconds after that, and never before the first poll.
   */
  lemma NoticedWithinOneSleep(counts: seq<nat>, p: nat, e: int)
    requires FirstEmpty(counts, p)
    requires forall k :: 0 <= k < |counts| && Slept(k) >= e ==> counts[k] == 0
    ensures Slept(p) <= (if e > 0 then e else 0) + 6400
    ensures p > 0 ==> Slept(p) - e <= Sleep(p)
  {
    if p > 0 {
      assert counts[p - 1] > 0;
      SleepIs(p);
    }
  }

  /** The protocol's supervisor sleeps the same: after `k` non-empty polls and wake-ups, its `t` is the k-th sleep. */
  function Rounds(cfg: Config, x: Consumer, k: nat): (y: Consumer)
    requires x.supervisor.Polling?
    ensures y.supervisor.Polling?
  {
    if k == 0 then x
    else
      var y := ConsumerStep(cfg, Rounds(cfg, x, k - 1), false, false, Poll(0));
      ConsumerStep(cfg, y, false, false, Wake(0))
  }

  lemma {:induction false} RoundsSleep(cfg: Config, x: Consumer, k: nat)
    requires x.supervisor == Polling(FIRST_SLEEP)
    ensures Rounds(cfg, x, k) == x.(supervisor := Polling(Sleep(k)))
  {
    if k > 0 {
      RoundsSleep(cfg, x, k - 1);
    }
  }
}
