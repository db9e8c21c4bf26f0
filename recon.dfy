// The stack readout of the recon brain (binmat_recon/binmat_recon.ts,
// getStackValue and getStackPower). A stack arrives as the brain state shows
// it: a list of card ids such as "9^", "9^u" (face-up) or "X" (hidden), and
// the whole stack may be missing. Only the first character of an entry is
// ever read.
module Recon {
  import opened Cards
  import opened Power

  /** An entry as the brain state can show it: it starts with a value character or the hidden marker 'X'. */
  predicate WellFormedEntry(e: string)
  {
    |e| > 0 && e[0] in "23456789a?>@*X"
  }

  predicate WellFormed(entries: seq<string>)
  {
    forall i :: 0 <= i < |entries| ==> WellFormedEntry(entries[i])
  }

  /** What one entry adds: 'a' adds 10, a digit its number, '*', '>', '?', '@' and 'X' nothing. */
  function EntryValue(e: string): nat
    requires WellFormedEntry(e)
  {
    if e[0] in "*>?@X" then 0
    else if e[0] == 'a' then 10
    else (e[0] - '0') as nat
  }

  /** The value of the entries: at most 10 per entry. */
  function EntriesValue(entries: seq<string>): (r: nat)
    requires WellFormed(entries)
    ensures r <= 10 * |entries|
  {
    if |entries| == 0 then 0
    else EntriesValue(entries[..|entries| - 1]) + EntryValue(entries[|entries| - 1])
  }

  /** The number of entries starting with '*'. */
  function Wilds(entries: seq<string>): nat
    requires WellFormed(entries)
  {
    if |entries| == 0 then 0
    else Wilds(entries[..|entries| - 1]) + (if entries[|entries| - 1][0] == '*' then 1 else 0)
  }

  /** getStackValue: 0 for a missing stack. */
  function StackValue(stack: Option<seq<string>>): (r: nat)
    requires stack.Some? ==> WellFormed(stack.value)
    ensures stack.None? ==> r == 0
    ensures stack.Some? ==> r <= 10 * |stack.value|
  {
    match stack
    case None => 0
    case Some(entries) => EntriesValue(entries)
  }

  /**
   * getStackPower: log2 of the value (0 for a value of 0) plus the number of
   * wilds, floored; a fractional log2 with no wild gives 0. For the integers
   * involved, log2(v) is whole exactly when v is a power of two, and its
   * floor is FloorLog2(v).
   */
  function StackPower(stack: Option<seq<string>>): (r: nat)
    requires stack.Some? ==> WellFormed(stack.value)
    ensures stack.None? ==> r == 0
    ensures stack.Some? ==> r >= Wilds(stack.value)
  {
    match stack
    case None => 0
    case Some(entries) => PowerOf(EntriesValue(entries), Wilds(entries))
  }

  /**
   * The power of a stack with value `v` and `w` wilds: never below the
   * wilds, and when it is positive for a positive value, what it exceeds
   * the wilds by is floor(log2(v)).
   */
  function PowerOf(v: nat, w: nat): (r: nat)
    ensures r >= w
    ensures v >= 1 && r > 0 ==> Pow2(r - w) <= v < Pow2(r - w + 1)
  {
    if v == 0 then w
    else if w == 0 && Pow2(FloorLog2(v)) != v then 0
    else FloorLog2(v) + w
  }

  /** Without wilds, the power is k >= 1 exactly when the value is 2^k; every other value gives 0. */
  lemma PowerWithoutWilds(entries: seq<string>, k: nat)
    requires WellFormed(entries) && Wilds(entries) == 0 && k >= 1
    ensures StackPower(Some(entries)) == k <==> EntriesValue(entries) == Pow2(k)
    ensures StackPower(Some(entries)) == 0 <==> forall j: nat :: j >= 1 ==> EntriesValue(entries) != Pow2(j)
  {
    var v := EntriesValue(entries);
    if v == Pow2(k) {
      FloorLog2Exact(v, k);
    }
    if v >= 1 && Pow2(FloorLog2(v)) == v && FloorLog2(v) >= 1 {
      var f := FloorLog2(v);
      assert v == Pow2(f);
    }
    if v >= 1 && Pow2(FloorLog2(v)) != v {
      forall j: nat | j >= 1 ensures v != Pow2(j) {
        if v == Pow2(j) {
          FloorLog2Exact(v, j);
        }
      }
    }
    if v >= 1 && Pow2(FloorLog2(v)) == v && FloorLog2(v) == 0 {
      forall j: nat | j >= 1 ensures v != Pow2(j) {
        Pow2Monotone(1, j);
      }
    }
    if v == 0 {
      forall j: nat | j >= 1 ensures v != Pow2(j) {
      }
    }
  }

  /** With w >= 1 wilds, the power is floor(log2(value)) + w, or w for a value of 0. */
  lemma PowerWithWilds(entries: seq<string>)
    requires WellFormed(entries) && Wilds(entries) >= 1
    ensures EntriesValue(entries) == 0 ==> StackPower(Some(entries)) == Wilds(entries)
    ensures EntriesValue(entries) >= 1 ==> StackPower(Some(entries)) == FloorLog2(EntriesValue(entries)) + Wilds(entries)
    ensures StackPower(Some(entries)) >= Wilds(entries)
  {
  }

  /** Entries with the same first characters have the same value and power: "9^u" reads as "9^". */
  lemma {:induction false} OnlyFirstCharRead(s: seq<string>, t: seq<string>)
    requires WellFormed(s) && WellFormed(t) && |s| == |t|
    requires forall i :: 0 <= i < |s| ==> s[i][0] == t[i][0]
    ensures EntriesValue(s) == EntriesValue(t) && Wilds(s) == Wilds(t)
    ensures StackPower(Some(s)) == StackPower(Some(t))
  {
    if |s| > 0 {
      var n := |s| - 1;
      assert WellFormed(s[..n]) && WellFormed(t[..n]);
      OnlyFirstCharRead(s[..n], t[..n]);
    }
  }

  // ---------------------------------------------------------------- agreement with calcStackPow

  /** The id a card shows in the brain state when it is visible: value, sign, and 'u' when face-up. */
  function CardEntry(c: Card): (e: string)
    ensures WellFormedEntry(e) && e[0] == ValueChar(c.value)
  {
    [ValueChar(c.value), SignChar(c.sign)] + (if c.up then "u" else "")
  }

  function Entries(cs: seq<Card>): (r: seq<string>)
    ensures |r| == |cs| && WellFormed(r)
    ensures forall i :: 0 <= i < |cs| ==> r[i] == CardEntry(cs[i])
  {
    seq(|cs|, i requires 0 <= i < |cs| => CardEntry(cs[i]))
  }

  /** The recon value and wild count of a visible stack are the engine's numeric sum and wild count. */
  lemma {:induction false} EntriesOfCards(cs: seq<Card>)
    ensures EntriesValue(Entries(cs)) == NumSum(cs)
    ensures Wilds(Entries(cs)) == CountValue(cs, Wild)
  {
    if |cs| > 0 {
      var n := |cs| - 1;
      assert Entries(cs)[..n] == Entries(cs[..n]);
      EntriesOfCards(cs[..n]);
      var c := cs[n];
      assert EntryValue(CardEntry(c)) == NumValue(c.value) by {
        match c.value
        case Num(p) =>
          assert ValueChar(c.value) == ['2', '3', '4', '5', '6', '7', '8', '9'][p - 2];
        case _ =>
      }
    }
  }

  /** ApplyWild only ever returns entries of the table. */
  lemma RaiseInTable(num: nat, w: nat)
    requires w >= 1 && Raise(num, w).Some?
    ensures Raise(num, w).value in Table()
  {
    var prev := Raise(num, w - 1);
    assert Raise(num, w) == ApplyWild(prev.value);
    FirstAboveIsFirst(Table(), prev.value);
  }

  /** 2^e is in the table exactly for e in 1..14, at index e - 1. */
  lemma PowerInTable(e: nat)
    requires Pow2(e) in Table()
    ensures 1 <= e <= 14 && IndexOf(Table(), Pow2(e)) == e - 1
  {
    var j :| 0 <= j < 14 && Table()[j] == Pow2(e);
    if j + 1 < e {
      Pow2StrictlyMonotone(j + 1, e);
    } else if e < j + 1 {
      Pow2StrictlyMonotone(e, j + 1);
    }
    IndexOfPower(j);
  }

  /** The agreement below, on the sum and the wild count. */
  lemma PowerOfAgreesWithRaise(num: nat, w: nat)
    requires num < 16384 && Raise(num, w).Some?
    ensures var v := Raise(num, w).value;
      (v in Table() ==> PowerOf(num, w) == IndexOf(Table(), v) + 1) &&
      (v !in Table() ==> PowerOf(num, w) == 0)
  {
    if w >= 1 {
      PowerOfWithWilds(num, w);
    } else {
      assert Raise(num, w).value == num;
      if num in Table() {
        PowerOfTableEntry(num);
      } else {
        PowerOfOutsideTable(num);
      }
    }
  }

  lemma PowerOfWithWilds(num: nat, w: nat)
    requires w >= 1 && Raise(num, w).Some?
    ensures Raise(num, w).value in Table()
    ensures PowerOf(num, w) == IndexOf(Table(), Raise(num, w).value) + 1
  {
    RaiseInTable(num, w);
    RaiseIsPower(num, w);
    var e := if num == 0 then w else FloorLog2(num) + w;
    assert Raise(num, w).value == Pow2(e);
    PowerInTable(e);
  }

  lemma PowerOfTableEntry(num: nat)
    requires num in Table()
    ensures PowerOf(num, 0) == IndexOf(Table(), num) + 1
  {
    var j :| 0 <= j < 14 && Table()[j] == num;
    PowerInTable(j + 1);
    FloorLog2Exact(num, j + 1);
  }

  lemma PowerOfOutsideTable(num: nat)
    requires num < 16384 && num !in Table()
    ensures PowerOf(num, 0) == 0
  {
    if num >= 1 {
      var f := FloorLog2(num);
      assert f < 14 by {
        if f >= 14 {
          Pow2Monotone(14, f);
          Pow2Values();
        }
      }
      if f >= 1 {
        assert Table()[f - 1] == Pow2(f);
      }
    }
  }

  /**
   * The recon power agrees with calcStackPow, shifted by one: when the
   * wild-raised sum is a table entry, the recon power is its index + 1 and
   * calcStackPow gives the index; when it is not, both give 0.
   */
  lemma ReconAgreesWithCalcStackPow(cs: seq<Card>)
    requires NumSum(cs) < 16384
    requires Raise(NumSum(cs), CountValue(cs, Wild)).Some?
    ensures var v := Raise(NumSum(cs), CountValue(cs, Wild)).value;
      (v in Table() ==> StackPower(Some(Entries(cs))) == IndexOf(Table(), v) + 1 && StackPow(cs) == Some(IndexOf(Table(), v))) &&
      (v !in Table() ==> StackPower(Some(Entries(cs))) == 0 && StackPow(cs) == Some(0))
  {
    EntriesOfCards(cs);
    PowerOfAgreesWithRaise(NumSum(cs), CountValue(cs, Wild));
  }
}
