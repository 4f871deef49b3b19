/** Visual selection of the director: the stochastic gate that decides whether a
    completed cycle ends the current visual, and the cumulative-weight scan that
    picks the next visual type from the program's (type, weight) list.
    The C++ code keeps every count here in `uint32_t`, so running totals wrap
    modulo 2^32; the model writes that wrap out. */
module Selection {

  /** 2^32, the modulus of `uint32_t` arithmetic. */
  const U32: nat := 0x1_0000_0000

  type Uint32 = n: int | 0 <= n < 0x1_0000_0000

  datatype Option<T> = None | Some(value: T)

  /** The visual variants a program may list. */
  datatype VisualType =
    | Accelerate
    | SlowFlash
    | SubText
    | FlashText
    | Parallel
    | SuperParallel
    | Animation
    | SuperFast

  /** One entry of the program's ordered visual-type list. */
  datatype WeightedType = WeightedType(kind: VisualType, weight: Uint32)

  /** The value a `uint32_t` holds after being assigned `n`. */
  function Wrap(n: int): Uint32
  {
    n % U32
  }

  lemma WrapAdd(a: int, b: int)
    ensures Wrap(Wrap(a) + b) == Wrap(a + b)
  {
  }

  /** The exact (unbounded) sum of the weights. */
  function Sum(ws: seq<WeightedType>): nat
  {
    if ws == [] then 0 else Sum(ws[..|ws| - 1]) + ws[|ws| - 1].weight
  }

  /** Exact running total of the first `k` weights. */
  function Prefix(ws: seq<WeightedType>, k: nat): nat
    requires k <= |ws|
  {
    Sum(ws[..k])
  }

  lemma PrefixStep(ws: seq<WeightedType>, k: nat)
    requires k < |ws|
    ensures Prefix(ws, k + 1) == Prefix(ws, k) + ws[k].weight
  {
    assert ws[..k + 1][..k] == ws[..k];
  }

  lemma {:induction false} PrefixMonotone(ws: seq<WeightedType>, i: nat, j: nat)
    requires i <= j <= |ws|
    ensures Prefix(ws, i) <= Prefix(ws, j)
    decreases j - i
  {
    if i < j {
      PrefixStep(ws, j - 1);
      PrefixMonotone(ws, i, j - 1);
    }
  }

  lemma PrefixAll(ws: seq<WeightedType>)
    ensures Prefix(ws, |ws|) == Sum(ws)
  {
    assert ws[..|ws|] == ws;
  }

  /** The total the first loop of the selection computes in `uint32_t`. */
  function TotalWeight(ws: seq<WeightedType>): (t: Uint32)
    ensures Sum(ws) < U32 ==> t == Sum(ws)
  {
    Wrap(Sum(ws))
  }

  /** The first index from `k` on whose wrapped running total exceeds `r`. */
  function PickFrom(ws: seq<WeightedType>, r: nat, k: nat): (p: Option<nat>)
    requires k <= |ws|
    ensures p.Some? ==> k <= p.value < |ws|
    decreases |ws| - k
  {
    if k == |ws| then None
    else if r < Wrap(Prefix(ws, k + 1)) then Some(k)
    else PickFrom(ws, r, k + 1)
  }

  /** The index the scan selects for draw `r`, or None when it runs off the end. */
  function Pick(ws: seq<WeightedType>, r: nat): (p: Option<nat>)
    ensures p.Some? ==> p.value < |ws|
  {
    PickFrom(ws, r, 0)
  }

  /** The visual type the scan selects for draw `r`. */
  function PickedType(ws: seq<WeightedType>, r: nat): (t: Option<VisualType>)
    ensures t.Some? ==> exists k :: 0 <= k < |ws| && ws[k].kind == t.value && ws[k].weight > 0
  {
    match Pick(ws, r)
    case Some(k) =>
      ZeroWeightNeverPicked(ws, r, k);
      Some(ws[k].kind)
    case None => None
  }

  /** `random(n)` yields a value below `n`; `random(0)` is taken to yield 0. */
  predicate InRange(draw: nat, n: nat)
  {
    if n == 0 then draw == 0 else draw < n
  }

  /** Upper bound of the gate's draw: `(2 * fps * length) / 2048` in `uint32_t`. */
  function Threshold(fps: Uint32, length: Uint32): (n: Uint32)
    ensures n < 0x20_0000
  {
    Wrap(2 * fps * length) / 2048
  }

  /** A zero length (the initial choice) always proceeds; otherwise a draw of
      120 or more keeps the current visual. */
  predicate Proceeds(length: Uint32, draw: nat)
  {
    !(length != 0 && draw >= 120)
  }

  // ---------------------------------------------------------------------------
  // The two scans, as the source writes them.

  /** First loop: the `uint32_t` sum of all weights. */
  method SumWeights(ws: seq<WeightedType>) returns (total: Uint32)
    ensures total == TotalWeight(ws)
    ensures Sum(ws) < U32 ==> total == Sum(ws)
  {
    total := 0;
    var k := 0;
    while k < |ws|
      invariant 0 <= k <= |ws|
      invariant total == Wrap(Prefix(ws, k))
    {
      PrefixStep(ws, k);
      WrapAdd(Prefix(ws, k), ws[k].weight);
      total := Wrap(total + ws[k].weight);
      k := k + 1;
    }
    assert ws[..k] == ws;
  }

  /** Second loop: the first entry whose running total exceeds the draw. */
  method SelectType(ws: seq<WeightedType>, r: nat) returns (t: Option<VisualType>)
    ensures t == PickedType(ws, r)
    ensures t.Some? ==> exists k :: 0 <= k < |ws| && ws[k].kind == t.value && ws[k].weight > 0
  {
    var total: Uint32 := 0;
    var k := 0;
    t := None;
    while k < |ws|
      invariant 0 <= k <= |ws|
      invariant total == Wrap(Prefix(ws, k))
      invariant Pick(ws, r) == PickFrom(ws, r, k)
    {
      PrefixStep(ws, k);
      WrapAdd(Prefix(ws, k), ws[k].weight);
      total := Wrap(total + ws[k].weight);
      if r < total {
        t := Some(ws[k].kind);
        ZeroWeightNeverPicked(ws, r, k);
        return;
      }
      k := k + 1;
    }
  }

  // ---------------------------------------------------------------------------
  // Properties of the selection.

  lemma {:induction false} PickFromSpec(ws: seq<WeightedType>, r: nat, k: nat)
    requires k <= |ws|
    ensures PickFrom(ws, r, k).Some? ==>
      var p := PickFrom(ws, r, k).value;
      k <= p < |ws| && r < Wrap(Prefix(ws, p + 1)) &&
      forall m :: k < m <= p ==> Wrap(Prefix(ws, m)) <= r
    ensures PickFrom(ws, r, k).None? ==>
      forall m :: k < m <= |ws| ==> Wrap(Prefix(ws, m)) <= r
    decreases |ws| - k
  {
    if k < |ws| && Wrap(Prefix(ws, k + 1)) <= r {
      PickFromSpec(ws, r, k + 1);
    }
  }

  /** The scan picks the FIRST entry whose running total exceeds the draw; when
      it picks nothing, no running total exceeds the draw. */
  lemma PickIsFirstExceeding(ws: seq<WeightedType>, r: nat)
    ensures Pick(ws, r).Some? ==>
      var k := Pick(ws, r).value;
      k < |ws| && r < Wrap(Prefix(ws, k + 1)) &&
      forall m :: 0 < m <= k ==> Wrap(Prefix(ws, m)) <= r
    ensures Pick(ws, r).None? <==>
      forall m :: 0 < m <= |ws| ==> Wrap(Prefix(ws, m)) <= r
  {
    PickFromSpec(ws, r, 0);
    if Pick(ws, r).Some? {
      var k := Pick(ws, r).value;
      assert !(Wrap(Prefix(ws, k + 1)) <= r);
    }
  }

  /** A draw below the wrapped total always selects an entry: the last running
      total the scan compares against is that total itself. */
  lemma PickExists(ws: seq<WeightedType>, r: nat)
    requires r < TotalWeight(ws)
    ensures Pick(ws, r).Some? && Pick(ws, r).value < |ws|
    ensures PickedType(ws, r).Some?
  {
    PickIsFirstExceeding(ws, r);
    PrefixAll(ws);
    assert |ws| > 0;
    assert r < Wrap(Prefix(ws, |ws|));
  }

  /** An entry of weight 0 is never selected (wrap-around or not). */
  lemma ZeroWeightNeverPicked(ws: seq<WeightedType>, r: nat, k: nat)
    requires Pick(ws, r) == Some(k)
    ensures k < |ws| && ws[k].weight > 0
  {
    PickIsFirstExceeding(ws, r);
    PrefixStep(ws, k);
    if k == 0 {
      assert Prefix(ws, 0) == 0;
    } else {
      assert Wrap(Prefix(ws, k)) <= r;
    }
  }

  lemma {:induction false} PickFromReaches(ws: seq<WeightedType>, r: nat, j: nat, k: nat)
    requires Sum(ws) < U32
    requires j <= k < |ws|
    requires Prefix(ws, k) <= r < Prefix(ws, k + 1)
    ensures PickFrom(ws, r, j) == Some(k)
    decreases k - j
  {
    PrefixMonotone(ws, k + 1, |ws|);
    PrefixAll(ws);
    if j < k {
      PrefixMonotone(ws, j + 1, k);
      PickFromReaches(ws, r, j + 1, k);
    }
  }

  /** Without wrap-around, entry `k` is selected exactly for the draws in
      `[Prefix(k), Prefix(k + 1))`. */
  lemma PickInterval(ws: seq<WeightedType>, r: nat, k: nat)
    requires Sum(ws) < U32
    requires k < |ws|
    ensures Pick(ws, r) == Some(k) <==> Prefix(ws, k) <= r < Prefix(ws, k + 1)
  {
    if Prefix(ws, k) <= r < Prefix(ws, k + 1) {
      PickFromReaches(ws, r, 0, k);
    }
    if Pick(ws, r) == Some(k) {
      PickedBetween(ws, r, k);
    }
  }

  lemma PickedBetween(ws: seq<WeightedType>, r: nat, k: nat)
    requires Sum(ws) < U32
    requires Pick(ws, r) == Some(k)
    ensures k < |ws| && Prefix(ws, k) <= r < Prefix(ws, k + 1)
  {
    PickIsFirstExceeding(ws, r);
    assert k < |ws| && r < Wrap(Prefix(ws, k + 1));
    assert k > 0 ==> Wrap(Prefix(ws, k)) <= r;
    NoWrapBelowTotal(ws, k);
    NoWrapBelowTotal(ws, k + 1);
  }

  /** Without wrap-around of the total, no running total wraps either. */
  lemma NoWrapBelowTotal(ws: seq<WeightedType>, k: nat)
    requires Sum(ws) < U32
    requires k <= |ws|
    ensures Wrap(Prefix(ws, k)) == Prefix(ws, k)
    ensures k == 0 ==> Prefix(ws, k) == 0
  {
    PrefixMonotone(ws, k, |ws|);
    PrefixAll(ws);
    assert ws[..0] == [];
  }

  /** How many of the draws below `n` select entry `k`. */
  function Picks(ws: seq<WeightedType>, k: nat, n: nat): nat
  {
    if n == 0 then 0 else Picks(ws, k, n - 1) + (if Pick(ws, n - 1) == Some(k) then 1 else 0)
  }

  lemma {:induction false} PicksBelow(ws: seq<WeightedType>, k: nat, n: nat)
    requires Sum(ws) < U32
    requires k < |ws|
    ensures Prefix(ws, k) <= Prefix(ws, k + 1)
    ensures Picks(ws, k, n) ==
      if n <= Prefix(ws, k) then 0
      else if n <= Prefix(ws, k + 1) then n - Prefix(ws, k)
      else Prefix(ws, k + 1) - Prefix(ws, k)
  {
    PrefixStep(ws, k);
    if n > 0 {
      PicksBelow(ws, k, n - 1);
      PickInterval(ws, n - 1, k);
    }
  }

  /** Selection is exactly proportional: of the `Sum(ws)` equally likely draws,
      precisely `ws[k].weight` select entry `k`. */
  lemma PickShare(ws: seq<WeightedType>, k: nat)
    requires Sum(ws) < U32
    requires k < |ws|
    ensures Picks(ws, k, Sum(ws)) == ws[k].weight
  {
    PrefixStep(ws, k);
    PrefixMonotone(ws, k + 1, |ws|);
    PrefixAll(ws);
    PicksBelow(ws, k, Sum(ws));
  }

  /** How many of the draws below `n` keep the current visual. */
  function Skips(length: Uint32, n: nat): nat
  {
    if n == 0 then 0 else Skips(length, n - 1) + (if Proceeds(length, n - 1) then 0 else 1)
  }

  /** Whenever the draw range is at most 120 wide, a transition always proceeds. */
  lemma GateProceedsBelowLimit(fps: Uint32, length: Uint32, draw: nat)
    requires InRange(draw, Threshold(fps, length))
    requires Threshold(fps, length) <= 120
    ensures Proceeds(length, draw)
  {
  }

  /** For a nonzero length, exactly the draws from 120 up keep the current visual. */
  lemma {:induction false} GateSkipShare(length: Uint32, n: nat)
    requires length != 0
    ensures Skips(length, n) == if n > 120 then n - 120 else 0
  {
    if n > 0 {
      GateSkipShare(length, n - 1);
    }
  }

  /** At 60 fps a cycle of length 2048 yields a draw range of exactly 120, so
      the transition always proceeds; at 120 fps half of the 240 draws keep the
      visual. */
  lemma ReferenceRates()
    ensures Threshold(60, 2048) == 120
    ensures forall d: nat :: InRange(d, Threshold(60, 2048)) ==> Proceeds(2048, d)
    ensures Threshold(120, 2048) == 240
    ensures Skips(2048, Threshold(120, 2048)) == 120
  {
    GateSkipShare(2048, 240);
  }
}
