/** The strides of skipping negotiation: how far apart announced commits lie. */
module Ttl {
  import opened Digraph
  import opened History
  import opened Negotiation

  /** The stride that follows `s`. */
  function NextStride(s: nat): nat {
    s * 3 / 2 + 1
  }

  /** Strides 0, 1, 2, 4, 7, 11, ... */
  function Stride(k: nat): nat {
    if k == 0 then 0 else NextStride(Stride(k - 1))
  }

  /** How many commits lie above the first one with stride `k`: each earlier stride `s` takes `s + 1` of them. */
  function Depth(k: nat): nat {
    if k == 0 then 0 else Depth(k - 1) + Stride(k - 1) + 1
  }

  /** The stride as 16 bit arithmetic computes it. */
  function NextStride16(s: U16): U16 {
    s * 3 % 0x1_0000 / 2 + 1
  }

  /** Chains of commits up to this length cannot make the 16 bit computation overflow. */
  const SAFE_COMMITS: nat := 81913

  ghost predicate ShortChains(g: Graph) {
    forall p :: IsPath(g, p) ==> |p| <= SAFE_COMMITS
  }

  datatype Pace = Pace(originalTtl: U16, ttl: U16)

  function PaceOf(data: Marks, x: Oid): Pace {
    if x in data then Pace(data[x].originalTtl, data[x].ttl) else Pace(0, 0)
  }

  /** The pace of a parent that was pushed by a commit with pace `p`. */
  function NextPace(p: Pace): Pace {
    if p.ttl > 0 then Pace(p.originalTtl, p.ttl - 1) else Pace(NextStride16(p.originalTtl), NextStride16(p.originalTtl))
  }

  /** `pace` is a step within stride `k`, and enough commits of the history lie above `x` to get there. */
  ghost predicate Earned(g: Graph, pace: Pace, x: Oid, k: nat, above: seq<Oid>) {
    && pace.originalTtl == Stride(k) && pace.ttl <= pace.originalTtl
    && IsPath(g, above) && above[|above| - 1] == x
    && |above| - 1 >= Depth(k) + Stride(k) - pace.ttl
  }

  ghost predicate PaceSound(g: Graph, pace: Pace, x: Oid) {
    exists k: nat, above: seq<Oid> :: Earned(g, pace, x, k, above)
  }

  lemma {:induction false} StrideGrows(k: nat, n: nat)
    requires k <= n
    ensures Stride(k) <= Stride(n) && Depth(k) <= Depth(n)
    decreases n
  {
    if k < n { StrideGrows(k, n - 1); }
  }

  // The index of the last stride is given as a range, as the solver unfolds functions of a given number all the way.

  lemma StrideTable(last: nat)
    requires 23 < last < 25
    ensures Stride(last - 1) == 18205 && Stride(last) == 27308 && Depth(last) == 54604
  {
    assert Stride(1) == 1 && Depth(1) == 1;
    assert Stride(2) == 2 && Depth(2) == 3;
    assert Stride(3) == 4 && Depth(3) == 6;
    assert Stride(4) == 7 && Depth(4) == 11;
    assert Stride(5) == 11 && Depth(5) == 19;
    assert Stride(6) == 17 && Depth(6) == 31;
    assert Stride(7) == 26 && Depth(7) == 49;
    assert Stride(8) == 40 && Depth(8) == 76;
    assert Stride(9) == 61 && Depth(9) == 117;
    assert Stride(10) == 92 && Depth(10) == 179;
    assert Stride(11) == 139 && Depth(11) == 272;
    assert Stride(12) == 209 && Depth(12) == 412;
    assert Stride(13) == 314 && Depth(13) == 622;
    assert Stride(14) == 472 && Depth(14) == 937;
    assert Stride(15) == 709 && Depth(15) == 1410;
    assert Stride(16) == 1064 && Depth(16) == 2120;
    assert Stride(17) == 1597 && Depth(17) == 3185;
    assert Stride(18) == 2396 && Depth(18) == 4783;
    assert Stride(19) == 3595 && Depth(19) == 7180;
    assert Stride(20) == 5393 && Depth(20) == 10776;
    assert Stride(21) == 8090 && Depth(21) == 16170;
    assert Stride(22) == 12136 && Depth(22) == 24261;
    assert Stride(23) == 18205 && Depth(23) == 36398;
  }

  /** The stride at index 24 is the first one whose successor does not fit into 16 bits. */
  lemma StrideLimit(last: nat)
    requires 23 < last < 25
    ensures Stride(last - 1) * 3 < 0x1_0000 <= Stride(last) * 3
    ensures Depth(last + 1) == SAFE_COMMITS
  {
    StrideTable(last);
  }

  lemma InitialPaceSound(g: Graph, x: Oid)
    requires x in g
    ensures PaceSound(g, Pace(0, 0), x)
  {
    assert Earned(g, Pace(0, 0), x, 0, [x]);
  }

  /** Without a longer chain the pace handed to a parent is earned again, and computing it does not overflow. */
  lemma PaceHandedOn(g: Graph, pace: Pace, x: Oid, parent: Oid)
    requires ShortChains(g) && PaceSound(g, pace, x) && Edge(g, x, parent)
    ensures PaceSound(g, NextPace(pace), parent)
    ensures pace.ttl == 0 ==> pace.originalTtl * 3 < 0x1_0000
    ensures pace.ttl == 0 ==> NextStride16(pace.originalTtl) == NextStride(pace.originalTtl)
  {
    var k: nat, above: seq<Oid> :| Earned(g, pace, x, k, above);
    PathExtend(g, above, parent);
    var longer := above + [parent];
    if pace.ttl > 0 {
      assert Earned(g, NextPace(pace), parent, k, longer);
    } else {
      StrideFits(k);
      NextStrideFits(pace.originalTtl);
      assert Earned(g, NextPace(pace), parent, k + 1, longer);
    }
  }

  lemma NextStrideFits(s: U16)
    requires s * 3 < 0x1_0000
    ensures NextStride16(s) == NextStride(s)
  {}

  lemma StrideFits(k: nat)
    requires Depth(k + 1) < SAFE_COMMITS
    ensures Stride(k) * 3 < 0x1_0000
  {
    BelowLimit(k, 24);
    StrideFitsBelow(k, 24);
  }

  lemma BelowLimit(k: nat, last: nat)
    requires 23 < last < 25 && Depth(k + 1) < SAFE_COMMITS
    ensures k < last
  {
    StrideLimit(last);
    DepthOrders(k + 1, last + 1);
  }

  lemma StrideFitsBelow(k: nat, last: nat)
    requires 23 < last < 25 && k < last
    ensures Stride(k) * 3 < 0x1_0000
  {
    StrideLimit(last);
    StrideOrders(k, last - 1);
  }

  lemma DepthOrders(k: nat, n: nat)
    ensures Depth(k) < Depth(n) ==> k < n
  {
    if n <= k { StrideGrows(n, k); }
  }

  lemma StrideOrders(k: nat, n: nat)
    ensures k <= n ==> Stride(k) <= Stride(n)
  {
  }

  // ----- a chain that is one commit too long

  /** The pace that reaches the commit `n` steps below the start of a chain. */
  function PaceAfter(n: nat): Pace {
    if n == 0 then Pace(0, 0) else NextPace(PaceAfter(n - 1))
  }

  /** Computing stride `k` did not overflow. */
  predicate Fits(k: nat) {
    k == 0 || Stride(k - 1) * 3 < 0x1_0000
  }

  lemma NextPaceFits(k: nat, pace: Pace)
    requires k > 0 && Fits(k) && pace == Pace(Stride(k - 1), 0)
    ensures Stride(k) < 0x1_0000 && NextPace(pace) == Pace(Stride(k), Stride(k)) && Fits(k - 1)
  {
    NextStrideFits(pace.originalTtl);
    if k > 1 { StrideGrows(k - 2, k - 1); }
  }

  /** As long as it fits, the pace counts down each stride before it goes on to the next one. */
  lemma {:induction false} PaceWithin(k: nat, ttl: nat, n: nat)
    requires Fits(k) && ttl <= Stride(k) && n + ttl == Depth(k) + Stride(k)
    ensures Stride(k) < 0x1_0000 && PaceAfter(n) == Pace(Stride(k), ttl)
    decreases n
  {
    if ttl < Stride(k) {
      PaceWithin(k, ttl + 1, n - 1);
    } else if k > 0 {
      NextPaceFits(k, Pace(Stride(k - 1), 0));
      PaceWithin(k - 1, 0, n - 1);
    }
  }

  lemma PaceAtLimit(n: nat, last: nat)
    requires 23 < last < 25 && n == SAFE_COMMITS - 1
    ensures PaceAfter(n) == Pace(27308, 0)
  {
    StrideTable(last);
    PaceWithin(last, 0, n);
  }

  /** The bound is tight: with that many commits above, the next stride does not fit any more and wraps around. */
  lemma PaceOverflows(n: nat)
    requires n == SAFE_COMMITS - 1
    ensures PaceAfter(n).ttl == 0 && PaceAfter(n).originalTtl * 3 >= 0x1_0000
    ensures PaceAfter(n + 1).originalTtl < PaceAfter(n).originalTtl
  {
    PaceAtLimit(n, 24);
    assert PaceAfter(n + 1) == NextPace(PaceAfter(n));
  }
}
