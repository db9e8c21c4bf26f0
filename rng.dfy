// The seeded randomness of the binmat engine (binmat_api.ts, cyrb128 and
// sfc32). Both work on 32-bit words with wrap-around (Math.imul, `| 0`,
// `>>> 0`), which is exactly arithmetic on bv32; `>>>` is the logical shift
// `>>` of bv32.
module Rng {

  /** A 128-bit generator state: the four words of the seed array. */
  datatype Seed = Seed(a: bv32, b: bv32, c: bv32, d: bv32)

  // ---------------------------------------------------------------- cyrb128

  /** The UTF-16 code units of `s`, which is what charCodeAt reads one by one. */
  function CodeUnits(s: string): (r: seq<bv16>)
    ensures |r| >= |s|
    ensures (forall i :: 0 <= i < |s| ==> (s[i] as int) < 0x1_0000) ==> |r| == |s|
  {
    if |s| == 0 then []
    else
      var v := s[|s| - 1] as int;
      CodeUnits(s[..|s| - 1]) +
        (if v < 0x1_0000 then [v as bv16]
         else [(0xD800 + (v - 0x1_0000) / 0x400) as bv16, (0xDC00 + (v - 0x1_0000) % 0x400) as bv16])
  }

  /** The initial hash words. */
  function InitialHash(): Seed
  {
    Seed(1779033703, 3144134277, 1013904242, 2773480762)
  }

  // Math.imul by the four multipliers.

  function Mul1(x: bv32): bv32 { x * 597399067 }
  function Mul2(x: bv32): bv32 { x * 2869860233 }
  function Mul3(x: bv32): bv32 { x * 951274213 }
  function Mul4(x: bv32): bv32 { x * 2716044179 }

  /** One round of the cyrb128 loop: the hash words after absorbing code unit `k`. */
  function Mix(h: Seed, k: bv16): Seed
  {
    var k := k as bv32;
    var h1 := h.b ^ Mul1(h.a ^ k);
    var h2 := h.c ^ Mul2(h.b ^ k);
    var h3 := h.d ^ Mul3(h.c ^ k);
    var h4 := h1 ^ Mul4(h.d ^ k);
    Seed(h1, h2, h3, h4)
  }

  /** The hash words after the loop has absorbed `units`, first to last. */
  function Absorb(h: Seed, units: seq<bv16>): Seed
  {
    if |units| == 0 then h else Mix(Absorb(h, units[..|units| - 1]), units[|units| - 1])
  }

  /** Hashing a string piece by piece gives the same words as hashing it at once. */
  lemma {:induction false} AbsorbAppend(h: Seed, u: seq<bv16>, v: seq<bv16>)
    ensures Absorb(h, u + v) == Absorb(Absorb(h, u), v)
    decreases |v|
  {
    if |v| == 0 {
      assert u + v == u;
    } else {
      assert (u + v)[..|u + v| - 1] == u + v[..|v| - 1];
      AbsorbAppend(h, u, v[..|v| - 1]);
    }
  }

  /** The mixing that follows the loop, in the source's order (each line uses the words already updated). */
  function Finalize(h: Seed): Seed
  {
    var h1 := Mul1(h.c ^ Shr(h.a, 18));
    var h2 := Mul2(h.d ^ Shr(h.b, 22));
    var h3 := Mul3(h1 ^ Shr(h.c, 17));
    var h4 := Mul4(h2 ^ Shr(h.d, 19));
    var h1' := h1 ^ h2 ^ h3 ^ h4;
    Seed(h1', h2 ^ h1', h3 ^ h1', h4 ^ h1')
  }

  /** `x >>> n` */
  function Shr(x: bv32, n: nat): bv32
    requires n < 32
  {
    x >> n
  }

  /** cyrb128 of a string: the seed words a game derives from its seed setting. */
  function Hash128(s: string): Seed
  {
    Finalize(Absorb(InitialHash(), CodeUnits(s)))
  }

  /** cyrb128, with its loop over the code units. */
  method Cyrb128(str: string) returns (r: Seed)
    ensures r == Hash128(str)
  {
    var units := CodeUnits(str);
    var h := InitialHash();
    var i := 0;
    while i < |units|
      invariant 0 <= i <= |units|
      invariant h == Absorb(InitialHash(), units[..i])
    {
      assert units[..i + 1][..i] == units[..i];
      h := Mix(h, units[i]);
      i := i + 1;
    }
    assert units[..i] == units;
    r := Finalize(h);
  }

  // ---------------------------------------------------------------- sfc32

  // The word operations stay behind functions: the solver then compares the
  // generator's state words term by term instead of bit by bit.

  /** `(x + y) | 0` */
  function Add(x: bv32, y: bv32): bv32 { x + y }

  /** `(x << 21) | (x >>> 11)`: rotate left by 21 bits. */
  function Rotl21(x: bv32): bv32 { (x << 21) | (x >> 11) }

  /** `x ^ (x >>> 9)` */
  function Xorshift9(x: bv32): bv32 { x ^ (x >> 9) }

  /** `x + (x << 3)`, which is 9 * x. */
  function Times9(x: bv32): bv32 { x + (x << 3) }

  /** One call of the sfc32 generator: the new state words and the output word t. */
  function Step(s: Seed): (Seed, bv32)
  {
    var t := Output(s);
    (Seed(Xorshift9(s.b), Times9(s.c), Add(Rotl21(s.c), t), Add(s.d, 1)), t)
  }

  /** The output word of a call, `(s0 + s1 | 0) + s3 | 0`. */
  function Output(s: Seed): bv32
  {
    Add(Add(s.a, s.b), s.d)
  }

  /** The state after `n` calls. */
  function Advance(s: Seed, n: nat): Seed
  {
    if n == 0 then s else Step(Advance(s, n - 1)).0
  }

  /** Advancing n and then m calls is advancing n + m calls. */
  lemma {:induction false} AdvanceAdd(s: Seed, n: nat, m: nat)
    ensures Advance(Advance(s, n), m) == Advance(s, n + m)
  {
    if m > 0 {
      AdvanceAdd(s, n, m - 1);
    }
  }

  lemma AdvanceTwo(s: Seed, n: nat)
    ensures Advance(s, n + 2) == Step(Step(Advance(s, n)).0).0
  {
  }

  /** The output words of the first `n` calls from state `s`, in order. */
  function Outputs(s: Seed, n: nat): (r: seq<bv32>)
    ensures |r| == n
    decreases n
  {
    if n == 0 then [] else [Step(s).1] + Outputs(Step(s).0, n - 1)
  }

  /** Two calls read the first two output words; the rest come from the state two calls on. */
  lemma OutputsAfterTwo(s: Seed, n: nat)
    requires n >= 2
    ensures Outputs(s, n) == [Step(s).1, Step(Step(s).0).1] + Outputs(Step(Step(s).0).0, n - 2)
  {
  }

  /**
   * rInt(max) = floor(r() * (max + 1)) with r() = t / 2^32. For t < 2^32 and
   * max + 1 <= 2^21 the product is exact in a double, so the floor is an
   * integer division.
   */
  function Scale(t: bv32, max: nat): (r: nat)
    ensures r <= max
  {
    ScaleBelow(t as int, max);
    (t as int) * (max + 1) / 0x1_0000_0000
  }

  /**
   * The bound under which Scale is rInt: for max + 1 <= 2^21 the product
   * of a 32-bit output and max + 1 is below 2^53, so the double product is exact. The deal
   * passes at most 77 (cards left) and 5 (open lanes).
   */
  lemma ScaleExact(p: int, max: nat)
    requires 0 <= p < 0x1_0000_0000 && max < 0x20_0000
    ensures 0 <= p * (max + 1) < 0x20_0000_0000_0000
  {
    var d := 0x20_0000 - (max + 1);
    Distribute(p, max + 1, d);
    ProductNonNegative(p, d);
    ProductNonNegative(p, max + 1);
  }

  lemma Distribute(p: int, q: int, d: int)
    ensures p * (q + d) == p * q + p * d
  {
  }

  lemma ProductNonNegative(p: nat, q: nat)
    ensures p * q >= 0
  {
  }

  lemma ScaleBelow(p: int, max: nat)
    requires 0 <= p < 0x1_0000_0000
    ensures 0 <= p * (max + 1) / 0x1_0000_0000 <= max
  {
    assert 0 <= p * (max + 1) <= 0xFFFF_FFFF * (max + 1);
  }

  /** The generator closure sfc32(seed) returns: it rewrites its four state words on every call. */
  class Sfc32 {
    var state: Seed

    constructor(seed: Seed)
      ensures state == seed
    {
      state := seed;
    }

    /** r(): one step, returning the output word (the source divides it by 2^32). */
    method Next() returns (t: bv32)
      modifies this
      ensures state == Step(old(state)).0 && t == Step(old(state)).1
    {
      var s := state;
      t := Output(s);
      var s3 := Add(s.d, 1);
      var s0 := Xorshift9(s.b);
      var s1 := Times9(s.c);
      var s2 := Rotl21(s.c);
      s2 := Add(s2, t);
      state := Seed(s0, s1, s2, s3);
    }

    /** rInt(max): an index in 0..max, from one step of the generator. */
    method NextInt(max: nat) returns (r: nat)
      modifies this
      ensures state == Step(old(state)).0
      ensures r == Scale(Step(old(state)).1, max) && r <= max
    {
      var t := Next();
      r := Scale(t, max);
    }
  }
}
