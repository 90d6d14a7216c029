/** The producer's goroutines as the loops that they are: generating, distributing and publishing. */
module ProducerLoops {
  import opened Prelude
  import opened Decimal
  import opened Protocol
  import Workloads

  // ----- The two kinds of generator -----

  /** What a generator's select does: the worker takes the message, or the channel that ends it all is ready. */
  datatype Choice = Taken | Stop

  function TakenFirst(choices: seq<Choice>): (n: nat)
    ensures n <= |choices|
  {
    Leading(choices, (c: Choice) => c == Taken)
  }

  function Min(a: nat, b: nat): nat { if a < b then a else b }

  /** A preloaded workload is handed over in order until it ends or an interrupt comes, whichever is first. */
  method DistributeWorkload(workload: seq<Body>, choices: seq<Choice>) returns (sent: seq<Body>)
    requires |choices| >= |workload|
    ensures sent == workload[..Min(|workload|, TakenFirst(choices))]
  {
    sent := [];
    for i := 0 to |workload|
      invariant sent == workload[..i]
      invariant forall k :: 0 <= k < i ==> choices[k] == Taken
    {
      LeadingFrom(choices, (c: Choice) => c == Taken, i);
      match choices[i] {
        case Taken => sent := sent + [workload[i]];
        case Stop => return;
      }
    }
    LeadingFrom(choices, (c: Choice) => c == Taken, |workload|);
  }

  /** One random message; `draws` are the results of r.Intn(26). */
  method GenerateOne(size: nat, draws: seq<nat>) returns (m: Body)
    requires |draws| == size && forall k :: 0 <= k < size ==> draws[k] < 26
    ensures |m| == size && Workloads.Lowercase(m)
    ensures forall k :: 0 <= k < size ==> m[k] as int == draws[k] + 97
  {
    var msg := new char[size];
    for i := 0 to size
      invariant forall k :: 0 <= k < i ==> msg[k] as int == draws[k] + 97
    {
      msg[i] := (draws[i] + 97) as char;
    }
    m := msg[..];
  }

  predicate Draws(draws: seq<seq<nat>>, size: nat) {
    forall i :: 0 <= i < |draws| ==> |draws[i]| == size && forall k :: 0 <= k < size ==> draws[i][k] < 26
  }

  /**
   * The real-time generator: a message is made before the select, so the last one made is thrown away. The messages
   * handed over, up to the closing of `stop` or as far as the choices go, are the first ones drawn.
   */
  method Generate(size: nat, draws: seq<seq<nat>>, choices: seq<Choice>) returns (sent: seq<Body>, stopped: bool)
    requires |draws| == |choices| && Draws(draws, size)
    ensures stopped <==> TakenFirst(choices) < |choices|
    ensures |sent| == TakenFirst(choices) && Workloads.Generated(sent, size)
    ensures forall i, k :: 0 <= i < |sent| && 0 <= k < size ==> sent[i][k] as int == draws[i][k] + 97
  {
    sent := [];
    var i := 0;
    while i < |choices|
      invariant i == |sent| <= |choices|
      invariant forall k :: 0 <= k < i ==> choices[k] == Taken
      invariant Workloads.Generated(sent, size)
      invariant forall j, k :: 0 <= j < i && 0 <= k < size ==> sent[j][k] as int == draws[j][k] + 97
    {
      LeadingFrom(choices, (c: Choice) => c == Taken, i);
      var m := GenerateOne(size, draws[i]);
      match choices[i] {
        case Taken =>
          sent := sent + [m];
          i := i + 1;
        case Stop => return sent, true;
      }
    }
    LeadingFrom(choices, (c: Choice) => c == Taken, |choices|);
    stopped := false;
  }

  // ----- The worker -----

  /** What pair `i` publishes for the messages taken: each with the clock of its publish as its header. */
  function Deliveries(i: nat, taken: seq<Body>, clocks: seq<int64>): (ds: seq<Delivery>)
    requires |clocks| == |taken|
    ensures |ds| == |taken|
  {
    seq(|taken|, k requires 0 <= k < |taken| => Delivery(MsgId(i, k), taken[k], FormatInt(clocks[k])))
  }

  class ProducerWorker {
    const id: nat
    var published: seq<Delivery>

    constructor (id: nat)
      ensures this.id == id && published == []
    {
      this.id := id;
      published := [];
    }

    /** The worker publishes what it takes, once and in order, until the channel closes. */
    method Start(messages: seq<Body>, clocks: seq<int64>)
      requires published == [] && |clocks| == |messages|
      modifies this
      ensures published == Deliveries(id, messages, clocks)
    {
      for k := 0 to |messages|
        invariant published == Deliveries(id, messages[..k], clocks[..k])
      {
        var tprodstr := FormatInt(clocks[k]);
        published := published + [Delivery(MsgId(id, k), messages[k], tprodstr)];
      }
      assert messages[..|messages|] == messages && clocks[..|clocks|] == clocks;
    }
  }

  /** The protocol's pair when the worker publishes each message that it takes before it takes the next. */
  function HandedOver(i: nat, q: Pair, taken: seq<Body>, clocks: seq<int64>): Pair
    requires |clocks| == |taken|
  {
    if taken == [] then q
    else
      var n := |taken| - 1;
      PairStep(i, PairStep(i, HandedOver(i, q, taken[..n], clocks[..n]), HandOver(i, taken[n])), Publish(i, clocks[n]))
  }

  /** It publishes what the loop publishes. */
  lemma {:induction false} HandedOverIs(i: nat, q: Pair, taken: seq<Body>, clocks: seq<int64>)
    requires q.taken == [] && q.held == None && q.published == [] && q.stamps == [] && |clocks| == |taken|
    ensures HandedOver(i, q, taken, clocks) ==
            q.(taken := taken, published := Deliveries(i, taken, clocks), stamps := clocks)
  {
    if taken != [] {
      var n := |taken| - 1;
      HandedOverIs(i, q, taken[..n], clocks[..n]);
      assert taken == taken[..n] + [taken[n]] && clocks == clocks[..n] + [clocks[n]];
      assert Deliveries(i, taken, clocks) ==
             Deliveries(i, taken[..n], clocks[..n]) + [Delivery(MsgId(i, n), taken[n], FormatInt(clocks[n]))];
    }
  }
}
