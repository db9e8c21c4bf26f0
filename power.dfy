// Combat power of a stack (binmat_api.ts, powersOfTwo, calcStackPow and
// applyWild): the numeric cards are summed ('a' counts 10), every wild '*'
// raises the sum to the next entry of the table [2, 4, ..., 16384], and the
// power is the index of the result in that table, or 0 when it is not there.
module Power {
  import opened Cards

  function Pow2(n: nat): (r: nat)
    ensures r >= 1
  {
    if n == 0 then 1 else 2 * Pow2(n - 1)
  }

  lemma {:induction false} Pow2Monotone(i: nat, j: nat)
    requires i <= j
    ensures Pow2(i) <= Pow2(j)
    decreases j - i
  {
    if i < j {
      Pow2Monotone(i, j - 1);
    }
  }

  lemma Pow2Values()
    ensures Pow2(1) == 2 && Pow2(3) == 8 && Pow2(4) == 16 && Pow2(8) == 256 && Pow2(9) == 512 && Pow2(14) == 16384
  {
  }

  /** floor(log2(n)) for n >= 1. */
  function FloorLog2(n: nat): (r: nat)
    requires n >= 1
    ensures Pow2(r) <= n < Pow2(r + 1)
  {
    if n == 1 then 0 else 1 + FloorLog2(n / 2)
  }

  /** A number has at most one exponent. */
  lemma FloorLog2Exact(n: nat, k: nat)
    requires Pow2(k) <= n < Pow2(k + 1)
    ensures FloorLog2(n) == k
  {
    var f := FloorLog2(n);
    if f < k {
      Pow2Monotone(f + 1, k);
    } else if f > k {
      Pow2Monotone(k + 1, f);
    }
  }

  /** powersOfTwo: [2, 4, 8, ..., 16384]. */
  function Table(): (r: seq<nat>)
    ensures |r| == 14
    ensures forall i :: 0 <= i < 14 ==> r[i] == Pow2(i + 1)
  {
    seq(14, i requires 0 <= i < 14 => Pow2(i + 1))
  }

  lemma {:induction false} Pow2StrictlyMonotone(i: nat, j: nat)
    requires i < j
    ensures Pow2(i) < Pow2(j)
  {
    Pow2Monotone(i + 1, j);
  }

  /** A power 2^(k+1) sits at index k of the table, and nowhere else. */
  lemma IndexOfPower(k: nat)
    requires k < 14
    ensures IndexOf(Table(), Pow2(k + 1)) == k
  {
    var r := IndexOf(Table(), Pow2(k + 1));
    assert Table()[k] == Pow2(k + 1);
    if r < k {
      Pow2StrictlyMonotone(r + 1, k + 1);
    }
  }

  /** Array.prototype.indexOf: the first index of `x` in `t`, or -1. */
  function IndexOf(t: seq<nat>, x: int): (r: int)
    ensures -1 <= r < |t|
    ensures r == -1 <==> x !in t
    ensures r >= 0 ==> t[r] == x && forall j :: 0 <= j < r ==> t[j] != x
  {
    if |t| == 0 then -1
    else if t[0] == x then 0
    else var k := IndexOf(t[1..], x); if k == -1 then -1 else k + 1
  }

  /** Array.prototype.find with `el > num`: the first entry of `t` above `num`. */
  function FirstAbove(t: seq<nat>, num: int): Option<nat>
  {
    if |t| == 0 then None
    else if t[0] > num then Some(t[0])
    else FirstAbove(t[1..], num)
  }

  /** find returns nothing exactly when no entry is above `num`, and otherwise the entry at the first index above it. */
  lemma {:induction false} FirstAboveIsFirst(t: seq<nat>, num: int)
    ensures FirstAbove(t, num).None? <==> forall j :: 0 <= j < |t| ==> t[j] <= num
    ensures FirstAbove(t, num).Some? ==>
      exists i :: 0 <= i < |t| && t[i] == FirstAbove(t, num).value && t[i] > num &&
                  forall j :: 0 <= j < i ==> t[j] <= num
  {
    if |t| > 0 && t[0] <= num {
      FirstAboveIsFirst(t[1..], num);
      if FirstAbove(t, num).Some? {
        var i :| 0 <= i < |t[1..]| && t[1..][i] == FirstAbove(t, num).value && t[1..][i] > num &&
                 forall j :: 0 <= j < i ==> t[1..][j] <= num;
        assert t[i + 1] == t[1..][i];
        assert forall j :: 0 <= j < i + 1 ==> t[j] <= num by {
          forall j | 0 <= j < i + 1 ensures t[j] <= num {
            if j > 0 { assert t[j] == t[1..][j - 1]; }
          }
        }
      } else {
        forall j | 0 <= j < |t| ensures t[j] <= num {
          if j > 0 { assert t[j] == t[1..][j - 1]; }
        }
      }
    } else if |t| > 0 {
      assert t[0] == FirstAbove(t, num).value;
    }
  }

  /**
   * applyWild: the first table entry above `num`; None stands for the error
   * the source throws when there is none.
   */
  function ApplyWild(num: nat): Option<nat>
  {
    FirstAbove(Table(), num)
  }

  /** A wild fails exactly at 16384 and above; otherwise it gives the smallest power of two above the number. */
  lemma ApplyWildIsNextPower(num: nat)
    ensures ApplyWild(num).None? <==> num >= 16384
    ensures num == 0 ==> ApplyWild(num) == Some(2)
    ensures 1 <= num < 16384 ==> ApplyWild(num) == Some(Pow2(FloorLog2(num) + 1))
  {
    FirstAboveIsFirst(Table(), num);
    if num == 0 {
      assert Table()[0] > num;
    } else if num < 16384 {
      ApplyWildBelowLimit(num);
    } else {
      Pow2Values();
      forall j | 0 <= j < 14 ensures Table()[j] <= num {
        Pow2Monotone(j + 1, 14);
      }
    }
  }

  lemma ApplyWildBelowLimit(num: nat)
    requires 1 <= num < 16384
    ensures ApplyWild(num) == Some(Pow2(FloorLog2(num) + 1))
  {
    var f := FloorLog2(num);
    assert f < 14 by {
      if f >= 14 {
        Pow2Monotone(14, f);
        Pow2Values();
      }
    }
    assert Table()[f] > num;
    FirstAboveIsFirst(Table(), num);
    var r := ApplyWild(num);
    var i :| 0 <= i < 14 && Table()[i] == r.value && r.value > num && forall j :: 0 <= j < i ==> Table()[j] <= num;
    if i < f {
      Pow2Monotone(i + 1, f);
    }
    assert i == f;
  }

  /** The value a card adds to the numeric sum: 2..9 at face value, 'a' as 10, other cards nothing. */
  function NumValue(v: Value): nat
  {
    match v
    case Num(n) => n
    case Ace => 10
    case _ => 0
  }

  /** The numeric sum of a stack (filter, map, reduce). */
  function NumSum(s: seq<Card>): nat
  {
    if |s| == 0 then 0 else NumSum(s[..|s| - 1]) + NumValue(s[|s| - 1].value)
  }

  /** The number of cards of value `v` in `s` (filter(...).length). */
  function CountValue(s: seq<Card>, v: Value): (r: nat)
    ensures r <= |s|
  {
    if |s| == 0 then 0 else CountValue(s[..|s| - 1], v) + (if s[|s| - 1].value == v then 1 else 0)
  }

  /** The sum after `w` wilds, or None when one of them fails. */
  function Raise(num: nat, w: nat): Option<nat>
  {
    if w == 0 then Some(num)
    else match Raise(num, w - 1)
      case None => None
      case Some(m) => ApplyWild(m)
  }

  /** `ix === -1 ? 0 : ix` for the index of `n` in the table. */
  function TableIndex(n: nat): (r: nat)
    ensures r <= 13
  {
    var ix := IndexOf(Table(), n);
    if ix == -1 then 0 else ix
  }

  /** calcStackPow: the index of the wild-raised sum in the table, 0 when absent; None when a wild fails. */
  function StackPow(s: seq<Card>): (r: Option<nat>)
    ensures r.Some? ==> r.value <= 13
    ensures CountValue(s, Wild) == 0 ==> r.Some?
  {
    match Raise(NumSum(s), CountValue(s, Wild))
    case None => None
    case Some(n) => Some(TableIndex(n))
  }

  /** calcStackPow, with the source's loop over the wilds. */
  method CalcStackPow(stack: seq<Card>) returns (r: Option<nat>)
    ensures r == StackPow(stack)
  {
    var numSum := NumSum(stack);
    var wilds := CountValue(stack, Wild);
    var i := 0;
    while i < wilds
      invariant 0 <= i <= wilds
      invariant Raise(NumSum(stack), i) == Some(numSum)
    {
      var next := ApplyWild(numSum);
      if next.None? {
        RaiseStaysFailed(NumSum(stack), i + 1, wilds);
        return None;
      }
      numSum := next.value;
      i := i + 1;
    }
    r := Some(TableIndex(numSum));
  }

  /** Once a wild fails, every further wild fails too. */
  lemma {:induction false} RaiseStaysFailed(num: nat, i: nat, w: nat)
    requires i <= w && Raise(num, i).None?
    ensures Raise(num, w).None?
    decreases w - i
  {
    if i < w {
      RaiseStaysFailed(num, i + 1, w);
    }
  }

  /**
   * Without wilds the power is k exactly when the sum is 2^(k+1), for k in
   * 1..13, and 0 for every other sum (2 included).
   */
  lemma StackPowWithoutWilds(s: seq<Card>, k: nat)
    requires CountValue(s, Wild) == 0 && 1 <= k <= 13
    ensures StackPow(s).Some?
    ensures StackPow(s) == Some(k) <==> NumSum(s) == Pow2(k + 1)
  {
    assert Raise(NumSum(s), 0) == Some(NumSum(s));
    if NumSum(s) == Pow2(k + 1) {
      IndexOfPower(k);
    }
  }

  /** The examples of the rule: sum 256 gives 7, sum 15 gives 0, sum 2 gives 0. */
  lemma StackPowExamples(s: seq<Card>)
    requires CountValue(s, Wild) == 0
    ensures NumSum(s) == 256 ==> StackPow(s) == Some(7)
    ensures NumSum(s) == 15 ==> StackPow(s) == Some(0)
    ensures NumSum(s) == 2 ==> StackPow(s) == Some(0)
  {
    if NumSum(s) == 256 {
      StackPowWithoutWilds(s, 7);
    } else if NumSum(s) == 15 {
      StackPowOfFifteen(s);
    } else if NumSum(s) == 2 {
      assert Raise(NumSum(s), 0) == Some(2);
      IndexOfPower(0);
    }
  }

  lemma StackPowOfFifteen(s: seq<Card>)
    requires CountValue(s, Wild) == 0 && NumSum(s) == 15
    ensures StackPow(s) == Some(0)
  {
    assert Raise(NumSum(s), 0) == Some(15);
    Pow2Values();
    forall j | 0 <= j < 14 ensures Table()[j] != 15 {
      if j <= 2 {
        Pow2Monotone(j + 1, 3);
      } else {
        Pow2Monotone(4, j + 1);
      }
    }
  }

  /**
   * With w >= 1 wilds and no failure, the raised sum is the power of two
   * 2^(floor(log2(sum)) + w), or 2^w for a sum of 0.
   */
  lemma {:induction false} RaiseIsPower(num: nat, w: nat)
    requires w >= 1 && Raise(num, w).Some?
    ensures num == 0 ==> Raise(num, w) == Some(Pow2(w))
    ensures num >= 1 ==> Raise(num, w) == Some(Pow2(FloorLog2(num) + w))
  {
    var prev := Raise(num, w - 1);
    assert prev.Some? && Raise(num, w) == ApplyWild(prev.value);
    if w == 1 {
      ApplyWildIsNextPower(num);
    } else {
      RaiseIsPower(num, w - 1);
      var e := if num == 0 then w - 1 else FloorLog2(num) + w - 1;
      NextOfPower(e);
    }
  }

  /** A wild on 2^e gives 2^(e+1), below the limit. */
  lemma NextOfPower(e: nat)
    requires e >= 1
    requires ApplyWild(Pow2(e)).Some?
    ensures ApplyWild(Pow2(e)) == Some(Pow2(e + 1))
  {
    ApplyWildIsNextPower(Pow2(e));
    FloorLog2Exact(Pow2(e), e);
  }

  /** A wild on a number below 2^e, for e in 1..14, succeeds and stays at most 2^e. */
  lemma ApplyWildBelow(m: nat, e: nat)
    requires 1 <= e <= 14 && m < Pow2(e)
    ensures ApplyWild(m).Some? && ApplyWild(m).value <= Pow2(e)
  {
    Pow2Monotone(e, 14);
    Pow2Values();
    ApplyWildIsNextPower(m);
    if m == 0 {
      Pow2Monotone(1, e);
    } else {
      var f := FloorLog2(m);
      if f >= e {
        Pow2Monotone(e, f);
      }
      Pow2Monotone(f + 1, e);
    }
  }

  /** A sum below 512 with at most six wilds never makes a wild fail (the game's sums stay below 512). */
  lemma {:induction false} RaiseSmall(num: nat, w: nat)
    requires num < 512 && w <= 6
    ensures Raise(num, w).Some?
    ensures Raise(num, w).value < Pow2(9 + w)
  {
    if w == 0 {
      Pow2Values();
    } else {
      RaiseSmall(num, w - 1);
      var m := Raise(num, w - 1).value;
      ApplyWildBelow(m, 9 + w - 1);
      assert Raise(num, w) == ApplyWild(m);
    }
  }
}
