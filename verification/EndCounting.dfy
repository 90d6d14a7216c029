/** The consumer's main loop: it counts "end" messages until all producers are done or an interrupt comes. */
module EndCounting {
  import opened Prelude
  import opened Protocol

  /** What the select received: a last message from some producer, or the interrupt. */
  datatype Received = End(p: nat) | Interrupted

  /** How the loop was left, if it was. */
  datatype Outcome = StillCounting | AllDone | Stopped

  /** The "end" messages before the first interrupt. */
  function EndsFirst(got: seq<Received>): (n: nat)
    ensures n <= |got|
  {
    Leading(got, (r: Received) => r.End?)
  }

  predicate Enough(got: seq<Received>, total: int) { 0 < total <= EndsFirst(got) }

  class EndCounter {
    const nProdTotal: int
    var nProducersDone: int
    var doneCloses: nat

    constructor (nProdTotal: int)
      ensures this.nProdTotal == nProdTotal && nProducersDone == 0 && doneCloses == 0
    {
      this.nProdTotal := nProdTotal;
      nProducersDone, doneCloses := 0, 0;
    }

    /**
     * `done` is closed, and just once, if and only if as many producers as configured are heard before any interrupt;
     * nothing is received after that. With no producers configured the loop never closes `done`.
     */
    method CountEnds(got: seq<Received>) returns (outcome: Outcome, used: nat)
      requires nProducersDone == 0 && doneCloses == 0
      modifies this
      ensures outcome == AllDone <==> Enough(got, nProdTotal)
      ensures outcome == Stopped <==> !Enough(got, nProdTotal) && EndsFirst(got) < |got|
      ensures used == match outcome
        case AllDone => nProdTotal
        case Stopped => EndsFirst(got) + 1
        case StillCounting => |got|
      ensures nProducersDone == if outcome == AllDone then nProdTotal else EndsFirst(got)
      ensures doneCloses == if outcome == AllDone then 1 else 0
    {
      used := 0;
      while used < |got|
        invariant used <= |got| && nProducersDone == used && doneCloses == 0
        invariant forall k :: 0 <= k < used ==> got[k].End?
        invariant nProdTotal <= 0 || used < nProdTotal
      {
        LeadingFrom(got, (r: Received) => r.End?, used);
        match got[used] {
          case End(p) =>
            used := used + 1;
            nProducersDone := nProducersDone + 1;
            if nProducersDone == nProdTotal {
              doneCloses := doneCloses + 1;
              return AllDone, used;
            }
          case Interrupted =>
            return Stopped, used + 1;
        }
      }
      LeadingFrom(got, (r: Received) => r.End?, |got|);
      outcome := StillCounting;
    }
  }

  /** The protocol's consumer after hearing `k` of the messages in its inbox. */
  function HeardTimes(cfg: Config, x: Consumer, allStarted: bool, k: nat): (y: Consumer)
    requires k <= |x.inbox|
    ensures |y.inbox| == |x.inbox| - k
  {
    if k == 0 then x else Heard(cfg, HeardTimes(cfg, x, allStarted, k - 1), allStarted)
  }

  /** The consumer as the loop leaves it after `k` messages. */
  function Counted(cfg: Config, x: Consumer, allStarted: bool, k: nat): Consumer
    requires k <= |x.inbox|
  {
    var last := 0 < k == cfg.nProducers;
    x.(nDone := k, heard := x.heard + x.inbox[..k], inbox := x.inbox[k..],
       doneCloses := if last then 1 else 0, main := if last then Waiting(allStarted) else Counting)
  }

  /** It counts and closes as the loop does, up to the message with which the loop ends. */
  lemma {:induction false} HeardCounts(cfg: Config, x: Consumer, allStarted: bool, k: nat)
    requires x.main == Counting && x.nDone == 0 && x.doneCloses == 0 && k <= |x.inbox|
    requires cfg.nProducers == 0 || k <= cfg.nProducers
    ensures HeardTimes(cfg, x, allStarted, k) == Counted(cfg, x, allStarted, k)
  {
    if k == 0 {
      assert x.heard + x.inbox[..0] == x.heard && x.inbox[0..] == x.inbox;
    } else {
      HeardCounts(cfg, x, allStarted, k - 1);
      HeardOneMore(cfg, x, allStarted, k);
    }
  }

  lemma HeardOneMore(cfg: Config, x: Consumer, allStarted: bool, k: nat)
    requires 0 < k <= |x.inbox| && (cfg.nProducers == 0 || k <= cfg.nProducers)
    ensures Counted(cfg, x, allStarted, k - 1).inbox != []
    ensures Heard(cfg, Counted(cfg, x, allStarted, k - 1), allStarted) == Counted(cfg, x, allStarted, k)
  {
    assert x.inbox[k - 1..][0] == x.inbox[k - 1] && x.inbox[k - 1..][1..] == x.inbox[k..];
    assert x.heard + x.inbox[..k - 1] + [x.inbox[k - 1]] == x.heard + x.inbox[..k];
  }
}
