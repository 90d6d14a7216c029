/** Stock types, and counts, sums and bags taken over the elements of a sequence. */
module Prelude {

  datatype Option<+T> = None | Some(value: T)

  datatype Result<+T> = Ok(value: T) | Err(reason: string)

  const TWO_TO_THE_63: int := 0x8000_0000_0000_0000
  const TWO_TO_THE_64: int := 0x1_0000_0000_0000_0000

  /** Go's int64, and its int on the 64-bit machines the benchmark runs on. */
  type int64 = x: int | -TWO_TO_THE_63 <= x < TWO_TO_THE_63

  type uint64 = x: int | 0 <= x < TWO_TO_THE_64

  /** Go's int addition of one, wrapping at the top. */
  function Increment(x: int64): (r: int64)
    ensures x < TWO_TO_THE_63 - 1 <==> r > x
    ensures (r - x - 1) % TWO_TO_THE_64 == 0
  {
    if x == TWO_TO_THE_63 - 1 then -TWO_TO_THE_63 else x + 1
  }

  function OptSeq<T>(o: Option<T>): seq<T> {
    match o
    case None => []
    case Some(x) => [x]
  }

  // ----- Sums, counts and bags -----

  function Sum<T>(s: seq<T>, f: T -> nat): nat {
    if s == [] then 0 else Sum(s[..|s| - 1], f) + f(s[|s| - 1])
  }

  function Count<T>(s: seq<T>, p: T -> bool): nat {
    if s == [] then 0 else Count(s[..|s| - 1], p) + if p(s[|s| - 1]) then 1 else 0
  }

  lemma CountNext<T>(s: seq<T>, x: T, p: T -> bool)
    ensures Count(s + [x], p) == Count(s, p) + AsNat(p(x))
  {
    assert (s + [x])[..|s|] == s;
  }

  ghost function Bag<T, M>(s: seq<T>, f: T -> multiset<M>): multiset<M> {
    if s == [] then multiset{} else Bag(s[..|s| - 1], f) + f(s[|s| - 1])
  }

  lemma {:induction false} SumUpdate<T>(s: seq<T>, i: nat, x: T, f: T -> nat)
    requires i < |s|
    ensures Sum(s[i := x], f) + f(s[i]) == Sum(s, f) + f(x)
  {
    var n := |s| - 1;
    if i < n {
      SumUpdate(s[..n], i, x, f);
      assert s[i := x][..n] == s[..n][i := x];
    } else {
      assert s[i := x][..n] == s[..n];
    }
  }

  lemma {:induction false} CountUpdate<T>(s: seq<T>, i: nat, x: T, p: T -> bool)
    requires i < |s|
    ensures Count(s[i := x], p) + (if p(s[i]) then 1 else 0) == Count(s, p) + (if p(x) then 1 else 0)
  {
    var n := |s| - 1;
    if i < n {
      CountUpdate(s[..n], i, x, p);
      assert s[i := x][..n] == s[..n][i := x];
    } else {
      assert s[i := x][..n] == s[..n];
    }
  }

  lemma {:induction false} BagUpdate<T, M>(s: seq<T>, i: nat, x: T, f: T -> multiset<M>)
    requires i < |s|
    ensures Bag(s[i := x], f) + f(s[i]) == Bag(s, f) + f(x)
  {
    var n := |s| - 1;
    if i < n {
      BagUpdate(s[..n], i, x, f);
      assert s[i := x][..n] == s[..n][i := x];
      var old', new' := Bag(s[..n], f), Bag(s[..n][i := x], f);
      calc {
        Bag(s[i := x], f) + f(s[i]);
        (new' + f(s[n])) + f(s[i]);
        (new' + f(s[i])) + f(s[n]);
        (old' + f(x)) + f(s[n]);
        (old' + f(s[n])) + f(x);
      }
    } else {
      assert s[i := x][..n] == s[..n];
    }
  }

  lemma {:induction false} BagSame<T, M>(s: seq<T>, i: nat, x: T, f: T -> multiset<M>)
    requires i < |s| && f(x) == f(s[i])
    ensures Bag(s[i := x], f) == Bag(s, f)
  {
    var n := |s| - 1;
    if i < n {
      BagSame(s[..n], i, x, f);
      assert s[i := x][..n] == s[..n][i := x];
    } else {
      assert s[i := x][..n] == s[..n];
    }
  }

  /** Replacing one element whose bag grows by `more` and shrinks by `less`. */
  lemma BagChange<T, M>(s: seq<T>, i: nat, x: T, f: T -> multiset<M>, more: multiset<M>, less: multiset<M>)
    requires i < |s| && f(x) + less == f(s[i]) + more
    ensures Bag(s[i := x], f) + less == Bag(s, f) + more
  {
    BagUpdate(s, i, x, f);
    Exchange(Bag(s, f), Bag(s[i := x], f), f(s[i]), f(x), more, less);
  }

  lemma Exchange<M>(b: multiset<M>, b': multiset<M>, e: multiset<M>, e': multiset<M>,
                    more: multiset<M>, less: multiset<M>)
    requires b' + e == b + e' && e' + less == e + more
    ensures b' + less == b + more
  {
    forall m
      ensures (b' + less)[m] == (b + more)[m]
    {
      assert (b' + e)[m] == (b + e')[m];
      assert (e' + less)[m] == (e + more)[m];
    }
  }

  lemma {:induction false} CountZero<T>(s: seq<T>, p: T -> bool)
    ensures Count(s, p) == 0 <==> forall i :: 0 <= i < |s| ==> !p(s[i])
  {
    if s != [] {
      CountZero(s[..|s| - 1], p);
      assert forall i :: 0 <= i < |s| - 1 ==> s[i] == s[..|s| - 1][i];
    }
  }

  lemma {:induction false} SumSplit<T>(s: seq<T>, f: T -> nat, g: T -> nat, p: T -> bool)
    requires forall i :: 0 <= i < |s| ==> f(s[i]) == g(s[i]) + if p(s[i]) then 1 else 0
    ensures Sum(s, f) == Sum(s, g) + Count(s, p)
  {
    if s != [] {
      assert forall i :: 0 <= i < |s| - 1 ==> s[..|s| - 1][i] == s[i];
      SumSplit(s[..|s| - 1], f, g, p);
    }
  }

  lemma {:induction false} SumBound<T>(s: seq<T>, f: T -> nat, p: T -> bool)
    requires forall i :: 0 <= i < |s| ==> f(s[i]) <= if p(s[i]) then 1 else 0
    ensures Sum(s, f) <= Count(s, p)
  {
    if s != [] {
      assert forall i :: 0 <= i < |s| - 1 ==> s[..|s| - 1][i] == s[i];
      SumBound(s[..|s| - 1], f, p);
    }
  }

  lemma {:induction false} BagMember<T, M>(s: seq<T>, f: T -> multiset<M>, m: M)
    ensures m in Bag(s, f) <==> exists i :: 0 <= i < |s| && m in f(s[i])
  {
    if s != [] {
      var n := |s| - 1;
      BagMember(s[..n], f, m);
      assert forall i :: 0 <= i < n ==> s[..n][i] == s[i];
      if m in f(s[n]) {
        assert m in Bag(s, f);
      }
    }
  }

  lemma {:induction false} BagElement<T, M>(s: seq<T>, f: T -> multiset<M>, i: nat)
    requires i < |s|
    ensures f(s[i]) <= Bag(s, f)
  {
    var n := |s| - 1;
    if i < n {
      BagElement(s[..n], f, i);
    }
  }

  /** Two elements that both hold `m` count twice in the bag. */
  lemma {:induction false} BagTwice<T, M>(s: seq<T>, f: T -> multiset<M>, m: M, i: nat, j: nat)
    requires i < j < |s| && m in f(s[i]) && m in f(s[j])
    ensures Bag(s, f)[m] >= 2
  {
    var n := |s| - 1;
    if j < n {
      BagTwice(s[..n], f, m, i, j);
    } else {
      BagElement(s[..n], f, i);
      assert f(s[i])[m] <= Bag(s[..n], f)[m];
    }
  }

  lemma {:induction false} BagEmpty<T, M>(s: seq<T>, f: T -> multiset<M>)
    requires forall i :: 0 <= i < |s| ==> f(s[i]) == multiset{}
    ensures Bag(s, f) == multiset{}
  {
    if s != [] {
      assert forall i :: 0 <= i < |s| - 1 ==> s[..|s| - 1][i] == s[i];
      BagEmpty(s[..|s| - 1], f);
    }
  }

  lemma {:induction false} BagMap<T, U, M>(s: seq<T>, f: T -> multiset<M>, t: seq<U>, g: U -> multiset<M>)
    requires |s| == |t| && forall i :: 0 <= i < |s| ==> f(s[i]) == g(t[i])
    ensures Bag(s, f) == Bag(t, g)
  {
    if s != [] {
      var n := |s| - 1;
      forall i | 0 <= i < n
        ensures f(s[..n][i]) == g(t[..n][i])
      {
        assert f(s[i]) == g(t[i]);
      }
      BagMap(s[..n], f, t[..n], g);
    }
  }

  // ----- Sequences without repetition -----

  ghost predicate NoDup<T>(s: seq<T>) {
    forall i, j :: 0 <= i < j < |s| ==> s[i] != s[j]
  }

  /** Dropping one position from a repetition-free sequence drops exactly that element. */
  lemma NoDupDrop<T>(s: seq<T>, q: nat)
    requires NoDup(s) && q < |s|
    ensures NoDup(s[..q] + s[q + 1..])
    ensures forall x :: x in s[..q] + s[q + 1..] <==> x in s && x != s[q]
  {
    var r := s[..q] + s[q + 1..];
    forall x | x in s && x != s[q]
      ensures x in r
    {
      var k :| 0 <= k < |s| && s[k] == x;
      assert x == r[if k < q then k else k - 1];
    }
  }

  lemma {:induction false} BagDrop<T, M>(s: seq<T>, q: nat, f: T -> multiset<M>)
    requires q < |s|
    ensures Bag(s, f) == Bag(s[..q] + s[q + 1..], f) + f(s[q])
  {
    var n := |s| - 1;
    var r := s[..q] + s[q + 1..];
    if q == n {
      assert r == s[..n];
    } else {
      BagDrop(s[..n], q, f);
      assert r[..|r| - 1] == s[..n][..q] + s[..n][q + 1..];
      assert r[|r| - 1] == s[n];
    }
  }

  lemma {:induction false} SameElements<T>(xs: seq<T>, ys: seq<T>)
    requires NoDup(xs) && NoDup(ys) && forall x :: x in xs <==> x in ys
    ensures |xs| == |ys|
  {
    assert ys != [] ==> ys[0] in ys;
    if xs != [] {
      var n := |xs| - 1;
      assert xs[n] in xs;
      var q :| 0 <= q < |ys| && ys[q] == xs[n];
      NoDupDrop(xs, n);
      NoDupDrop(ys, q);
      var xs', ys' := xs[..n] + xs[n + 1..], ys[..q] + ys[q + 1..];
      forall x
        ensures x in xs' <==> x in ys'
      {
        assert x in xs' <==> x in xs && x != xs[n];
        assert x in ys' <==> x in ys && x != ys[q];
        assert x in xs <==> x in ys;
      }
      SameElements(xs', ys');
    }
  }

  /** The bag of a sum only depends on the elements that contribute, not on their order. */
  lemma {:induction false} BagSupport<T, M>(xs: seq<T>, ys: seq<T>, f: T -> multiset<M>)
    requires NoDup(xs) && NoDup(ys)
    requires forall y :: y in ys ==> y in xs
    requires forall x :: x in xs && x !in ys ==> f(x) == multiset{}
    ensures Bag(xs, f) == Bag(ys, f)
  {
    assert ys != [] ==> ys[0] in ys;
    if xs != [] {
      var n := |xs| - 1;
      var x := xs[n];
      NoDupDrop(xs, n);
      assert xs[..n] + xs[n + 1..] == xs[..n];
      if x in ys {
        var q :| 0 <= q < |ys| && ys[q] == x;
        NoDupDrop(ys, q);
        assert forall y :: y in xs && y != x ==> y in xs[..n];
        BagSupport(xs[..n], ys[..q] + ys[q + 1..], f);
        BagDrop(ys, q, f);
      } else {
        assert forall y :: y in xs && y != x ==> y in xs[..n];
        BagSupport(xs[..n], ys, f);
      }
    }
  }

  /** Pigeonhole: there are at most `n` different numbers below `n`, and `n` of them are all of them. */
  lemma {:induction false} Pigeonhole(s: seq<nat>, n: nat)
    requires NoDup(s) && forall x :: x in s ==> x < n
    ensures |s| <= n
    ensures |s| == n ==> forall k: nat :: k < n ==> k in s
  {
    assert s != [] ==> s[0] in s;
    if n > 0 && n - 1 in s {
      var q :| 0 <= q < |s| && s[q] == n - 1;
      NoDupDrop(s, q);
      var r := s[..q] + s[q + 1..];
      forall x | x in r
        ensures x < n - 1
      {
        assert x in s && x != s[q];
      }
      Pigeonhole(r, n - 1);
      assert forall k: nat :: k < n - 1 && k in r ==> k in s;
    } else if n > 0 {
      Pigeonhole(s, n - 1);
    }
  }

  // ----- What comes before the first of a kind -----

  /** The number of elements before the first one that is not `p`. */
  function Leading<T>(s: seq<T>, p: T -> bool): (n: nat)
    ensures n <= |s|
  {
    if s == [] || !p(s[0]) then 0 else 1 + Leading(s[1..], p)
  }

  lemma {:induction false} LeadingFrom<T>(s: seq<T>, p: T -> bool, k: nat)
    requires k <= |s| && forall i :: 0 <= i < k ==> p(s[i])
    ensures Leading(s, p) == k + Leading(s[k..], p)
  {
    if k > 0 {
      LeadingFrom(s[1..], p, k - 1);
      assert s[1..][k - 1..] == s[k..];
    }
  }

  // ----- Blocks -----

  function Flatten<T>(blocks: seq<seq<T>>): seq<T> {
    if blocks == [] then [] else Flatten(blocks[..|blocks| - 1]) + blocks[|blocks| - 1]
  }

  lemma FlattenAdd<T>(blocks: seq<seq<T>>, block: seq<T>)
    ensures Flatten(blocks + [block]) == Flatten(blocks) + block
  {
    assert (blocks + [block])[..|blocks|] == blocks;
  }

  function FlatMap<T, U>(s: seq<T>, f: T -> seq<U>): seq<U> {
    if s == [] then [] else FlatMap(s[..|s| - 1], f) + f(s[|s| - 1])
  }

  lemma FlatMapNext<T, U>(s: seq<T>, x: T, f: T -> seq<U>)
    ensures FlatMap(s + [x], f) == FlatMap(s, f) + f(x)
  {
    assert (s + [x])[..|s|] == s;
  }

  ghost predicate Any<T>(s: seq<T>, p: T -> bool) { exists j :: 0 <= j < |s| && p(s[j]) }

  lemma AnyLast<T>(s: seq<T>, p: T -> bool)
    requires s != []
    ensures Any(s, p) <==> Any(s[..|s| - 1], p) || p(s[|s| - 1])
  {
    var n := |s| - 1;
    assert forall j :: 0 <= j < n ==> s[..n][j] == s[j];
    if Any(s[..n], p) {
      var j :| 0 <= j < n && p(s[..n][j]);
      assert p(s[j]);
    }
  }

  /** Every element is `p` at its position. */
  ghost predicate AllAt<T>(s: seq<T>, p: (nat, T) -> bool) {
    forall k: nat :: k < |s| ==> p(k, s[k])
  }

  lemma AllAtNext<T>(s: seq<T>, x: T, p: (nat, T) -> bool)
    requires AllAt(s, p) && p(|s|, x)
    ensures AllAt(s + [x], p)
  {
  }

  lemma CancelSuffix<T>(a: seq<T>, b: seq<T>, c: seq<T>)
    requires a + c == b + c
    ensures a == b
  {
    assert |a| == |b|;
    assert (a + c)[..|a|] == a && (b + c)[..|b|] == b;
  }

  lemma Associate<T>(a: seq<T>, b: seq<T>, c: seq<T>)
    ensures a + (b + c) == a + b + c
  {
  }

  /** What holds between neighbours and carries over holds from any position to any later one. */
  lemma {:induction false} Chain(p: (nat, nat) -> bool, n: nat, j: nat, k: nat)
    requires j <= k <= n
    requires forall i: nat :: i <= n ==> p(i, i)
    requires forall a: nat, b: nat :: b == a + 1 <= n ==> p(a, b)
    requires forall a: nat, b: nat, c: nat :: p(a, b) && p(b, c) ==> p(a, c)
    ensures p(j, k)
    decreases k - j
  {
    if j < k {
      assert p(j, j + 1);
      Chain(p, n, j + 1, k);
    }
  }

  // ----- Arithmetic -----

  function AsNat(b: bool): nat { if b then 1 else 0 }

  lemma Multiply(x: nat, y: nat, z: nat)
    requires x <= y
    ensures x * z <= y * z && z * x <= z * y
  {
  }
}
