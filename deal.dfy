// The seeded deal of createGameState (binmat_api.ts): the 78 cards are taken
// in a random order and each is pushed onto a random lane deck that still has
// fewer than 13 cards, two generator calls per card. The generator is the
// sfc32 closure over the seed words, so the game's seed afterwards is the
// state 156 calls on.
module Deal {
  import opened Cards
  import opened Rng

  /** The total number of cards in `piles`. */
  function SumLengths(piles: seq<seq<Card>>): nat
  {
    if |piles| == 0 then 0 else SumLengths(piles[..|piles| - 1]) + |piles[|piles| - 1]|
  }

  lemma {:induction false} SumLengthsUpdate(piles: seq<seq<Card>>, i: nat, x: seq<Card>)
    requires i < |piles|
    ensures SumLengths(piles[i := x]) + |piles[i]| == SumLengths(piles) + |x|
    decreases |piles|
  {
    var n := |piles| - 1;
    if i < n {
      assert piles[i := x][..n] == piles[..n][i := x];
      SumLengthsUpdate(piles[..n], i, x);
    } else {
      assert piles[i := x][..n] == piles[..n];
    }
  }

  /** Every pile holds at most 13 cards. */
  predicate Capped(piles: seq<seq<Card>>)
  {
    forall i :: 0 <= i < |piles| ==> |piles[i]| <= 13
  }

  lemma {:induction false} SumLengthsOfCapped(piles: seq<seq<Card>>)
    requires Capped(piles)
    ensures SumLengths(piles) <= 13 * |piles|
    ensures SumLengths(piles) == 13 * |piles| ==> forall i :: 0 <= i < |piles| ==> |piles[i]| == 13
    decreases |piles|
  {
    if |piles| > 0 {
      var n := |piles| - 1;
      SumLengthsOfCapped(piles[..n]);
      if SumLengths(piles) == 13 * |piles| {
        assert |piles[n]| == 13;
        forall i | 0 <= i < |piles| ensures |piles[i]| == 13 {
          if i < n {
            assert piles[..n][i] == piles[i];
          }
        }
      }
    }
  }

  /** The lanes whose deck has fewer than 13 cards, in order: the source's availibleLanes. */
  function OpenLanes(decks: seq<seq<Card>>): seq<nat>
  {
    if |decks| == 0 then []
    else
      var n := |decks| - 1;
      if |decks[n]| < 13 then OpenLanes(decks[..n]) + [n] else OpenLanes(decks[..n])
  }

  /** The open lanes are exactly the lanes with room. */
  lemma {:induction false} OpenLanesHaveRoom(decks: seq<seq<Card>>)
    ensures forall k :: 0 <= k < |OpenLanes(decks)| ==> OpenLanes(decks)[k] < |decks| && |decks[OpenLanes(decks)[k]]| < 13
    ensures forall i :: 0 <= i < |decks| && |decks[i]| < 13 ==> i in OpenLanes(decks)
    decreases |decks|
  {
    if |decks| > 0 {
      var n := |decks| - 1;
      OpenLanesHaveRoom(decks[..n]);
      assert forall i :: 0 <= i < n ==> decks[..n][i] == decks[i];
    }
  }

  /** 78 = 6 * 13: while cards remain to be dealt, some lane has room. */
  lemma RoomWhileCardsRemain(decks: seq<seq<Card>>)
    requires |decks| == 6 && Capped(decks) && SumLengths(decks) < 78
    ensures |OpenLanes(decks)| > 0
  {
    if forall i :: 0 <= i < 6 ==> |decks[i]| == 13 {
      SumLengthsAllFull(decks);
    } else {
      var i :| 0 <= i < 6 && |decks[i]| != 13;
      OpenLanesHaveRoom(decks);
    }
  }

  lemma {:induction false} SumLengthsAllFull(piles: seq<seq<Card>>)
    requires forall i :: 0 <= i < |piles| ==> |piles[i]| == 13
    ensures SumLengths(piles) == 13 * |piles|
    decreases |piles|
  {
    if |piles| > 0 {
      SumLengthsAllFull(piles[..|piles| - 1]);
    }
  }

  function EmptyDecks(): seq<seq<Card>>
  {
    [[], [], [], [], [], []]
  }

  /**
   * The rest of the deal, with `avail` still to be dealt onto `decks` and
   * `outs` the generator's next output words: each card takes two, one to
   * pick the card and one to pick among the lanes with room.
   */
  function DealFrom(outs: seq<bv32>, avail: seq<Card>, decks: seq<seq<Card>>): (r: seq<seq<Card>>)
    requires |outs| == 2 * |avail|
    ensures |r| == |decks|
    decreases |avail|
  {
    if |avail| == 0 then decks
    else
      var k := Scale(outs[0], |avail| - 1);
      var open := OpenLanes(decks);
      if |open| == 0 then decks  // never: see RoomWhileCardsRemain
      else
        var l := open[Scale(outs[1], |open| - 1)];
        if l >= |decks| then decks  // never: see OpenLanesHaveRoom
        else DealFrom(outs[2..], avail[..k] + avail[k + 1..], decks[l := decks[l] + [avail[k]]])
  }

  /** The six lane decks createGameState deals from `seed`. */
  function Dealt(seed: Seed): (r: seq<seq<Card>>)
    ensures |r| == 6
  {
    DealFrom(Outputs(seed, 156), FullDeck(), EmptyDecks())
  }

  lemma {:induction false} EmptyPilesHoldNothing(piles: seq<seq<Card>>)
    requires forall i :: 0 <= i < |piles| ==> piles[i] == []
    ensures SumLengths(piles) == 0 && PilesIds(piles) == multiset{}
    decreases |piles|
  {
    if |piles| > 0 {
      EmptyPilesHoldNothing(piles[..|piles| - 1]);
    }
  }

  predicate AllDown(s: seq<Card>)
  {
    forall j :: 0 <= j < |s| ==> !s[j].up
  }

  predicate DecksDown(decks: seq<seq<Card>>)
  {
    forall i :: 0 <= i < |decks| ==> AllDown(decks[i])
  }

  /** One card moves from `avail` to a deck: the identities are kept. */
  lemma DealStepKeepsCards(decks: seq<seq<Card>>, avail: seq<Card>, k: nat, l: nat)
    requires k < |avail| && l < |decks|
    ensures PilesIds(decks[l := decks[l] + [avail[k]]]) + Ids(avail[..k] + avail[k + 1..]) == PilesIds(decks) + Ids(avail)
  {
    var c := avail[k];
    var d' := decks[l := decks[l] + [c]];
    var rest := avail[..k] + avail[k + 1..];
    PilesIdsUpdate(decks, l, decks[l] + [c]);
    IdsPush(decks[l], c);
    IdsRemoveAt(avail, k);
    var a', a, o, m := PilesIds(d'), PilesIds(decks), Ids(decks[l]), multiset{Id(c)};
    forall e ensures (a' + Ids(rest))[e] == (a + Ids(avail))[e] {
      assert (a' + o)[e] == (a + o + m)[e];
      assert Ids(avail)[e] == (Ids(rest) + m)[e];
    }
  }

  /** What the deal keeps from one card to the next. */
  predicate DealInvariant(decks: seq<seq<Card>>, avail: seq<Card>, total: multiset<CardId>)
  {
    |decks| == 6 && Capped(decks) &&
    SumLengths(decks) + |avail| == 78 &&
    PilesIds(decks) + Ids(avail) == total &&
    AllDown(avail) && DecksDown(decks)
  }

  /** Moving the card at index k onto lane l, which has room, keeps the invariant. */
  lemma DealStep(decks: seq<seq<Card>>, avail: seq<Card>, total: multiset<CardId>, k: nat, l: nat)
    requires DealInvariant(decks, avail, total) && k < |avail| && l < 6 && |decks[l]| < 13
    ensures DealInvariant(decks[l := decks[l] + [avail[k]]], avail[..k] + avail[k + 1..], total)
  {
    DealStepKeepsCards(decks, avail, k, l);
    DealStepSizes(decks, avail, k, l);
    DealStepDown(decks, avail, k, l);
  }

  lemma DealStepSizes(decks: seq<seq<Card>>, avail: seq<Card>, k: nat, l: nat)
    requires Capped(decks) && k < |avail| && l < |decks| && |decks[l]| < 13
    ensures Capped(decks[l := decks[l] + [avail[k]]])
    ensures SumLengths(decks[l := decks[l] + [avail[k]]]) + |avail[..k] + avail[k + 1..]| == SumLengths(decks) + |avail|
  {
    SumLengthsUpdate(decks, l, decks[l] + [avail[k]]);
  }

  lemma DealStepDown(decks: seq<seq<Card>>, avail: seq<Card>, k: nat, l: nat)
    requires AllDown(avail) && DecksDown(decks) && k < |avail| && l < |decks|
    ensures AllDown(avail[..k] + avail[k + 1..])
    ensures DecksDown(decks[l := decks[l] + [avail[k]]])
  {
    var d' := decks[l := decks[l] + [avail[k]]];
    forall i | 0 <= i < |decks| ensures AllDown(d'[i]) {
      if i == l {
        assert d'[i] == decks[l] + [avail[k]];
      }
    }
  }

  /** One round of the deal, on the output words. */
  lemma DealFromRound(outs: seq<bv32>, avail: seq<Card>, decks: seq<seq<Card>>, k: nat, l: nat)
    requires |outs| == 2 * |avail| && |avail| > 0 && |OpenLanes(decks)| > 0
    requires k == Scale(outs[0], |avail| - 1)
    requires l == OpenLanes(decks)[Scale(outs[1], |OpenLanes(decks)| - 1)] && l < |decks|
    ensures DealFrom(outs, avail, decks) == DealFrom(outs[2..], avail[..k] + avail[k + 1..], decks[l := decks[l] + [avail[k]]])
  {
  }

  /**
   * The dealing loop of createGameState. Every one of the 78 cards lands in
   * exactly one deck, face-down, every deck ends with 13 cards, and the
   * generator has made 156 calls.
   */
  method DealDecks(seed: Seed) returns (decks: seq<seq<Card>>, final: Seed)
    ensures decks == Dealt(seed)
    ensures |decks| == 6 && forall i :: 0 <= i < 6 ==> |decks[i]| == 13
    ensures PilesIds(decks) == FullInventory()
    ensures forall i :: 0 <= i < 6 ==> AllDown(decks[i])
    ensures final == Advance(seed, 156)
  {
    var r := new Sfc32(seed);
    var avail := FullDeck();
    decks := EmptyDecks();
    EmptyPilesHoldNothing(decks);
    while |avail| > 0
      invariant DealInvariant(decks, avail, FullInventory())
      invariant r.state == Advance(seed, 2 * (78 - |avail|))
      invariant DealFrom(Outputs(r.state, 2 * |avail|), avail, decks) == Dealt(seed)
    {
      decks, avail := DealCard(r, seed, decks, avail);
    }
    final := r.state;
    DealDone(decks, avail);
  }

  /** Once no card is left to deal, the invariant gives six full decks holding every card, face-down. */
  lemma DealDone(decks: seq<seq<Card>>, avail: seq<Card>)
    requires DealInvariant(decks, avail, FullInventory()) && |avail| == 0
    ensures |decks| == 6 && forall i :: 0 <= i < 6 ==> |decks[i]| == 13
    ensures PilesIds(decks) == FullInventory()
    ensures forall i :: 0 <= i < 6 ==> AllDown(decks[i])
  {
    SumLengthsOfCapped(decks);
    assert Ids(avail) == multiset{};
  }

  /** One round of the loop: pick a card, pick a lane with room, push the card onto that lane's deck. */
  method DealCard(r: Sfc32, ghost seed: Seed, decks: seq<seq<Card>>, avail: seq<Card>)
    returns (decks': seq<seq<Card>>, avail': seq<Card>)
    requires |avail| > 0 && DealInvariant(decks, avail, FullInventory())
    requires r.state == Advance(seed, 2 * (78 - |avail|))
    modifies r
    ensures DealInvariant(decks', avail', FullInventory()) && |avail'| == |avail| - 1
    ensures r.state == Advance(seed, 2 * (78 - |avail'|))
    ensures DealFrom(Outputs(r.state, 2 * |avail'|), avail', decks') == DealFrom(Outputs(old(r.state), 2 * |avail|), avail, decks)
  {
    ghost var s := r.state;
    var k := r.NextInt(|avail| - 1);
    var card := avail[k];
    RoomWhileCardsRemain(decks);
    var open := OpenLanes(decks);
    var j := r.NextInt(|open| - 1);
    var l := open[j];
    OpenLanesHaveRoom(decks);
    DealStep(decks, avail, FullInventory(), k, l);
    decks' := decks[l := decks[l] + [card]];
    avail' := avail[..k] + avail[k + 1..];
    DealRound(s, decks, avail, k, l);
    TwoCallsPerCard(seed, s, |avail|, |avail'|);
  }

  /** Two more calls of the generator for one card fewer left to deal. */
  lemma TwoCallsPerCard(seed: Seed, s: Seed, left: nat, left': nat)
    requires left <= 78 && left' + 1 == left && s == Advance(seed, 2 * (78 - left))
    ensures Step(Step(s).0).0 == Advance(seed, 2 * (78 - left'))
  {
    AdvanceTwo(seed, 2 * (78 - left));
  }

  /** One round of the loop reads two output words, and the rest of the deal follows from the state two calls on. */
  lemma DealRound(s: Seed, decks: seq<seq<Card>>, avail: seq<Card>, k: nat, l: nat)
    requires |avail| > 0 && k == Scale(Step(s).1, |avail| - 1)
    requires |OpenLanes(decks)| > 0 && l == OpenLanes(decks)[Scale(Step(Step(s).0).1, |OpenLanes(decks)| - 1)]
    requires l < |decks|
    ensures var decks', avail' := decks[l := decks[l] + [avail[k]]], avail[..k] + avail[k + 1..];
      DealFrom(Outputs(Step(Step(s).0).0, 2 * |avail'|), avail', decks') == DealFrom(Outputs(s, 2 * |avail|), avail, decks)
  {
    OutputsAfterTwo(s, 2 * |avail|);
    DealFromRound(Outputs(s, 2 * |avail|), avail, decks, k, l);
  }

  /** Dealing the rest of the cards keeps the deal's invariant to the end. */
  lemma {:induction false} DealFromKeeps(outs: seq<bv32>, avail: seq<Card>, decks: seq<seq<Card>>)
    requires |outs| == 2 * |avail| && DealInvariant(decks, avail, FullInventory())
    ensures DealInvariant(DealFrom(outs, avail, decks), [], FullInventory())
    decreases |avail|
  {
    if |avail| > 0 {
      var k := Scale(outs[0], |avail| - 1);
      RoomWhileCardsRemain(decks);
      OpenLanesHaveRoom(decks);
      var open := OpenLanes(decks);
      var l := open[Scale(outs[1], |open| - 1)];
      DealStep(decks, avail, FullInventory(), k, l);
      DealFromKeeps(outs[2..], avail[..k] + avail[k + 1..], decks[l := decks[l] + [avail[k]]]);
    }
  }

  /**
   * Whatever the seed, the deal puts each of the 78 cards in exactly one of
   * the six decks, face-down, and every deck ends with 13 cards.
   */
  lemma DealtDeals(seed: Seed)
    ensures |Dealt(seed)| == 6 && forall i :: 0 <= i < 6 ==> |Dealt(seed)[i]| == 13
    ensures PilesIds(Dealt(seed)) == FullInventory()
    ensures DecksDown(Dealt(seed))
  {
    EmptyPilesHoldNothing(EmptyDecks());
    DealFromKeeps(Outputs(seed, 156), FullDeck(), EmptyDecks());
    SumLengthsOfCapped(Dealt(seed));
  }
}
