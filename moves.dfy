// What the four moves of binmat_api.ts do to the board, as functions:
// spliceCardFromHand, drawCard, discardCard, playCard, bounceCombat and
// combat. Each move maps a board (the card state and the generator seed) to
// an outcome and the board afterwards; the class in game.dfy carries them out
// step by step on its fields.
//
// A move that throws leaves the board as far as it got (the source's objects
// are changed in place up to the throw).
module Rules {
  import opened Cards
  import opened Rng
  import opened Power
  import Ops

  /** The errors the moves throw. */
  datatype Fault =
    | IllegalPlayerId    // splitPid: the id starts with neither 'a' nor 'd'
    | HandNotArray       // the seat's hand does not exist
    | WildOverflow       // applyWild past 16384
    | GameOver(winner: Team)  // endGame, which always throws
    | PlayerNotFound     // runTurn: a seat of nextOrd is not a player
    | StackMissing       // a TypeError: playCard on lane 6, which has no combat stacks

  /** What a move gives back: a return value, or the error it threw. */
  datatype Outcome = Returned(ok: bool) | Threw(fault: Fault)

  /** The card state together with the generator seed, which shuffles advance. */
  datatype Board = Board(state: State, seed: Seed)

  /**
   * shuffleArray(discard, r): Array.prototype.sort with a random comparator.
   * Which order it leaves, and how many times it calls the generator, depends
   * on the sort implementation; a shuffler returns the order, which holds the
   * same cards, and the generator state it leaves.
   */
  type Shuffler = f: (seq<Card>, Seed) -> (seq<Card>, Seed)
    | forall cards, seed :: multiset(f(cards, seed).0) == multiset(cards)
    witness (cards: seq<Card>, seed: Seed) => (cards, seed)

  /** Six lanes, and at most 16 seats a team (hands are a max16Array; a seat id has one hex digit). */
  predicate Sound(s: State)
  {
    |s.lanes| == 6 && |s.attackerHands| <= 16 && |s.defenderHands| <= 16
  }

  // ---------------------------------------------------------------- seats

  /** The hand of seat `pid`: splitPid for the team, the second character read as hex for the index. */
  function Seat(s: State, pid: string): (r: Option<Zone>)
    ensures r.Some? ==> SplitPid(pid).Some? && r.value.Hand? && r.value.team == SplitPid(pid).value
    ensures r.Some? && Sound(s) ==> HasZone(s, r.value)
  {
    match SplitPid(pid)
    case None => None
    case Some(t) =>
      match SeatIndex(pid)
      case None => None
      case Some(i) => if i < |Hands(s, t)| then Some(Hand(t, i)) else None
  }

  function Other(t: Team): Team
  {
    if t == Attacker then Defender else Attacker
  }

  // ---------------------------------------------------------------- hand lookup

  /** Whether `c` answers a lookup for `value` and, when one is given, `sign`. */
  predicate Fits(c: Card, value: Value, sign: Option<Sign>)
  {
    c.value == value && (sign.None? || c.sign == sign.value)
  }

  /** The positions of the cards of value `value`, in hand order: the source's fitsValue. */
  function FitsValue(hand: seq<Card>, value: Value): seq<nat>
  {
    if |hand| == 0 then []
    else
      var n := |hand| - 1;
      FitsValue(hand[..n], value) + (if hand[n].value == value then [n] else [])
  }

  /** fitsValue holds exactly the positions of that value, in increasing order. */
  lemma {:induction false} FitsValueExact(hand: seq<Card>, value: Value)
    ensures forall k :: 0 <= k < |FitsValue(hand, value)| ==>
      FitsValue(hand, value)[k] < |hand| && hand[FitsValue(hand, value)[k]].value == value
    ensures forall j, k :: 0 <= j < k < |FitsValue(hand, value)| ==> FitsValue(hand, value)[j] < FitsValue(hand, value)[k]
    ensures forall i :: 0 <= i < |hand| && hand[i].value == value ==> i in FitsValue(hand, value)
    decreases |hand|
  {
    if |hand| > 0 {
      var n := |hand| - 1;
      FitsValueExact(hand[..n], value);
      assert forall i :: 0 <= i < n ==> hand[..n][i] == hand[i];
    }
  }

  /** The first entry of fitsValue is the first position of that value. */
  lemma FitsValueFirst(hand: seq<Card>, value: Value)
    ensures forall i :: 0 <= i < |hand| && hand[i].value == value ==> |FitsValue(hand, value)| > 0 && FitsValue(hand, value)[0] <= i
  {
    var fits := FitsValue(hand, value);
    FitsValueExact(hand, value);
    forall i | 0 <= i < |hand| && hand[i].value == value ensures |fits| > 0 && fits[0] <= i {
      var k :| 0 <= k < |fits| && fits[k] == i;
      if k > 0 {
        assert fits[0] < fits[k];
      }
    }
  }

  /** The first position among `fits` whose card has sign `sign` (fitsValue.find on the sign). */
  function FirstWithSign(hand: seq<Card>, fits: seq<nat>, sign: Sign): Option<nat>
  {
    if |fits| == 0 then None
    else if fits[0] < |hand| && hand[fits[0]].sign == sign then Some(fits[0])
    else FirstWithSign(hand, fits[1..], sign)
  }

  /**
   * The position spliceCardFromHand takes out of `hand`, in the source's
   * order of tests: several of the value and no sign, none of the value, a
   * sign, exactly one of the value.
   */
  function SpliceIndex(hand: seq<Card>, value: Value, sign: Option<Sign>): Option<nat>
  {
    var fits := FitsValue(hand, value);
    if |fits| > 1 && sign.None? then Some(fits[0])
    else if |fits| == 0 then None
    else if sign.Some? then FirstWithSign(hand, fits, sign.value)
    else Some(fits[0])
  }

  /** The reference reading of the lookup: the first card of the hand that fits. */
  function FirstFit(hand: seq<Card>, value: Value, sign: Option<Sign>): (r: Option<nat>)
    ensures r.Some? ==> r.value < |hand| && Fits(hand[r.value], value, sign)
    ensures r.Some? ==> forall j :: 0 <= j < r.value ==> !Fits(hand[j], value, sign)
    ensures r.None? ==> forall j :: 0 <= j < |hand| ==> !Fits(hand[j], value, sign)
  {
    if |hand| == 0 then None
    else if Fits(hand[0], value, sign) then Some(0)
    else match FirstFit(hand[1..], value, sign)
      case None => None
      case Some(i) => Some(i + 1)
  }

  /** Two positions that are both the first fit are the same. */
  lemma FirstFitUnique(hand: seq<Card>, value: Value, sign: Option<Sign>, i: nat)
    requires i < |hand| && Fits(hand[i], value, sign)
    requires forall j :: 0 <= j < i ==> !Fits(hand[j], value, sign)
    ensures FirstFit(hand, value, sign) == Some(i)
  {
  }

  /** FirstWithSign gives the entry at the first place `k` of `fits` whose card has the sign. */
  lemma {:induction false} FirstWithSignIsFirst(hand: seq<Card>, fits: seq<nat>, sign: Sign) returns (k: nat)
    ensures FirstWithSign(hand, fits, sign).Some? ==>
      k < |fits| && fits[k] == FirstWithSign(hand, fits, sign).value &&
      fits[k] < |hand| && hand[fits[k]].sign == sign
    ensures forall k' :: 0 <= k' < |fits| && fits[k'] < |hand| && hand[fits[k']].sign == sign ==>
      FirstWithSign(hand, fits, sign).Some? && k <= k'
    decreases |fits|
  {
    if |fits| > 0 {
      var k1 := FirstWithSignIsFirst(hand, fits[1..], sign);
      if fits[0] < |hand| && hand[fits[0]].sign == sign {
        k := 0;
      } else {
        k := k1 + 1;
        forall k' | 0 <= k' < |fits| && fits[k'] < |hand| && hand[fits[k']].sign == sign
          ensures FirstWithSign(hand, fits, sign).Some? && k <= k'
        {
          assert fits[k'] == fits[1..][k' - 1];
        }
      }
    } else {
      k := 0;
    }
  }

  /**
   * spliceCardFromHand takes the first card of the hand that fits: with no
   * sign the first of the value, however many there are; with a sign the
   * first of that value and sign; nothing when none fits.
   */
  lemma SpliceIndexIsFirstFit(hand: seq<Card>, value: Value, sign: Option<Sign>)
    ensures SpliceIndex(hand, value, sign) == FirstFit(hand, value, sign)
  {
    var fits := FitsValue(hand, value);
    FitsValueExact(hand, value);
    FitsValueFirst(hand, value);
    if |fits| > 0 && sign.None? {
      FirstFitUnique(hand, value, sign, fits[0]);
    } else if |fits| > 0 {
      var k := FirstWithSignIsFirst(hand, fits, sign.value);
      var r := FirstWithSign(hand, fits, sign.value);
      forall j | 0 <= j < |hand| && Fits(hand[j], value, sign) ensures r.Some? && r.value <= j {
        var k' :| 0 <= k' < |fits| && fits[k'] == j;
        if k < k' {
          assert fits[k] < fits[k'];
        }
      }
      if r.Some? {
        FirstFitUnique(hand, value, sign, r.value);
      }
    }
  }

  // ---------------------------------------------------------------- drawCard

  /** In lanes 3..5 the top card of a deck lies face-up. */
  function TopUp(deck: seq<Card>, lane: nat): (r: seq<Card>)
    ensures |r| == |deck|
  {
    if 3 <= lane <= 5 && |deck| > 0 then deck[|deck| - 1 := deck[|deck| - 1].(up := true)] else deck
  }

  lemma IdsTopUp(deck: seq<Card>, lane: nat)
    ensures Ids(TopUp(deck, lane)) == Ids(deck)
  {
    if 3 <= lane <= 5 && |deck| > 0 {
      IdsSetAt(deck, |deck| - 1, deck[|deck| - 1].(up := true));
    }
  }

  /**
   * An empty deck takes its discard, shuffled and face-down, with the top
   * turned up in lanes 3..5; the discard is emptied and the seed has moved on
   * by the shuffle's calls.
   */
  function Refill(b: Board, lane: nat, shuffle: Shuffler): Board
    requires Sound(b.state) && lane <= 6
  {
    var (order, seed) := shuffle(Get(b.state, Discard(lane)), b.seed);
    var s := Put(b.state, Discard(lane), []);
    Board(Put(s, Deck(lane), TopUp(WithUp(order, false), lane)), seed)
  }

  /** The top card of the deck goes face-down into `hand`; in lanes 3..5 the next card turns up. */
  function TakeTop(s: State, lane: nat, hand: Zone): State
    requires Sound(s) && lane <= 6 && HasZone(s, hand) && hand.Hand? && |Get(s, Deck(lane))| > 0
  {
    var deck := Get(s, Deck(lane));
    var rest := deck[..|deck| - 1];
    var s1 := Put(s, Deck(lane), rest);
    var s2 := Put(s1, hand, Get(s, hand) + [deck[|deck| - 1].(up := false)]);
    Put(s2, Deck(lane), TopUp(rest, lane))
  }

  /** The successful draw of the top card (after a refill when the deck is empty) into `hand`. */
  function Drawn(b: Board, lane: nat, hand: Zone, shuffle: Shuffler): (r: Board)
    requires Sound(b.state) && lane <= 6 && HasZone(b.state, hand) && hand.Hand?
    requires |Get(b.state, Deck(lane))| > 0 || |Get(b.state, Discard(lane))| > 0
    ensures SameShape(r.state, b.state)
  {
    var b1 := if |Get(b.state, Deck(lane))| > 0 then b else Refill(b, lane, shuffle);
    b1.(state := TakeTop(b1.state, lane, hand))
  }

  /**
   * drawCard(pid, lane): refused while the defender stack of the lane holds
   * cards (for an attacker) and from lane 6 (for a defender); an empty deck
   * is refilled from its discard; with both empty, an attacker drawing from
   * lanes 0..5 ends the game and every other draw is refused.
   */
  function DrawCard(b: Board, pid: string, lane: nat, shuffle: Shuffler): (r: (Outcome, Board))
    requires Sound(b.state) && lane <= 6
    ensures SameShape(r.1.state, b.state)
  {
    var s := b.state;
    if SplitPid(pid).None? then (Threw(IllegalPlayerId), b)
    else if Seat(s, pid).None? then (Threw(HandNotArray), b)
    else
      var t := SplitPid(pid).value;
      if t == Attacker && lane < 6 && |Get(s, Stack(Defender, lane))| > 0 then (Returned(false), b)
      else if t == Defender && lane == 6 then (Returned(false), b)
      else if |Get(s, Deck(lane))| == 0 && |Get(s, Discard(lane))| == 0 then
        if lane == 6 || t == Defender then (Returned(false), b) else (Threw(GameOver(Attacker)), b)
      else (Returned(true), Drawn(b, lane, Seat(s, pid).value, shuffle))
  }

  /** Refilling moves every card of the discard into the deck; the discard is left empty. */
  lemma RefillMovesDiscard(b: Board, lane: nat, shuffle: Shuffler)
    requires Sound(b.state) && lane <= 6 && Get(b.state, Deck(lane)) == []
    ensures var r := Refill(b, lane, shuffle).state;
      Sound(r) && SameShape(r, b.state) &&
      Get(r, Discard(lane)) == [] && Ids(Get(r, Deck(lane))) == Ids(Get(b.state, Discard(lane)))
  {
    var discard := Get(b.state, Discard(lane));
    var order := shuffle(discard, b.seed).0;
    IdsTopUp(WithUp(order, false), lane);
    IdsWithUp(order, false);
    IdsOfPermutation(order, discard);
    PutFrame(Put(b.state, Discard(lane), []), Deck(lane), TopUp(WithUp(order, false), lane), Discard(lane));
  }

  /** Refilling creates and loses no card. */
  lemma RefillKeepsCards(b: Board, lane: nat, shuffle: Shuffler)
    requires Sound(b.state) && lane <= 6 && Get(b.state, Deck(lane)) == []
    ensures Inventory(Refill(b, lane, shuffle).state) == Inventory(b.state)
  {
    var s := b.state;
    var discard := Get(s, Discard(lane));
    var order := shuffle(discard, b.seed).0;
    var grown := TopUp(WithUp(order, false), lane);
    IdsTopUp(WithUp(order, false), lane);
    IdsWithUp(order, false);
    IdsOfPermutation(order, discard);
    assert Ids(grown) == Ids(Get(s, Deck(lane))) + Ids(discard);
    InventoryTransfer(s, Discard(lane), [], Deck(lane), grown, Ids(discard));
  }

  /** Refilling changes only the lane's deck and discard. */
  lemma RefillFrame(b: Board, lane: nat, shuffle: Shuffler, y: Zone)
    requires Sound(b.state) && lane <= 6 && HasZone(b.state, y) && y != Deck(lane) && y != Discard(lane)
    ensures Get(Refill(b, lane, shuffle).state, y) == Get(b.state, y)
  {
    var s := Put(b.state, Discard(lane), []);
    PutFrame(b.state, Discard(lane), [], y);
    PutFrame(s, Deck(lane), TopUp(WithUp(shuffle(Get(b.state, Discard(lane)), b.seed).0, false), lane), y);
  }

  /** Taking the top card: the hand gains it face-down and the deck loses it. */
  lemma TakeTopMovesOne(s: State, lane: nat, hand: Zone)
    requires Sound(s) && lane <= 6 && HasZone(s, hand) && hand.Hand? && |Get(s, Deck(lane))| > 0
    ensures var r := TakeTop(s, lane, hand); var deck := Get(s, Deck(lane));
      Sound(r) && SameShape(r, s) &&
      Get(r, hand) == Get(s, hand) + [deck[|deck| - 1].(up := false)] &&
      Get(r, Deck(lane)) == TopUp(deck[..|deck| - 1], lane)
  {
    var deck := Get(s, Deck(lane));
    var rest := deck[..|deck| - 1];
    var s1 := Put(s, Deck(lane), rest);
    var s2 := Put(s1, hand, Get(s, hand) + [deck[|deck| - 1].(up := false)]);
    PutFrame(s2, Deck(lane), TopUp(rest, lane), hand);
  }

  /** Taking the top card creates and loses no card. */
  lemma TakeTopKeepsCards(s: State, lane: nat, hand: Zone)
    requires Sound(s) && lane <= 6 && HasZone(s, hand) && hand.Hand? && |Get(s, Deck(lane))| > 0
    ensures Inventory(TakeTop(s, lane, hand)) == Inventory(s)
  {
    var deck := Get(s, Deck(lane));
    var rest := deck[..|deck| - 1];
    InventoryMoveTop(s, Deck(lane), hand, deck[|deck| - 1].(up := false));
    var s2 := Put(Put(s, Deck(lane), rest), hand, Get(s, hand) + [deck[|deck| - 1].(up := false)]);
    IdsTopUp(rest, lane);
    InventoryKeep(s2, Deck(lane), TopUp(rest, lane));
  }

  /** A draw creates and loses no card. */
  lemma DrawnKeepsCards(b: Board, lane: nat, hand: Zone, shuffle: Shuffler)
    requires Sound(b.state) && lane <= 6 && HasZone(b.state, hand) && hand.Hand?
    requires |Get(b.state, Deck(lane))| > 0 || |Get(b.state, Discard(lane))| > 0
    ensures var r := Drawn(b, lane, hand, shuffle).state;
      Sound(r) && SameShape(r, b.state) && Inventory(r) == Inventory(b.state)
  {
    if |Get(b.state, Deck(lane))| == 0 {
      RefilledKeepsCards(b, lane, hand, shuffle);
    } else {
      TakeTopMovesOne(b.state, lane, hand);
      TakeTopKeepsCards(b.state, lane, hand);
    }
  }

  lemma RefilledKeepsCards(b: Board, lane: nat, hand: Zone, shuffle: Shuffler)
    requires Sound(b.state) && lane <= 6 && HasZone(b.state, hand) && hand.Hand?
    requires |Get(b.state, Deck(lane))| == 0 && |Get(b.state, Discard(lane))| > 0
    ensures var r := TakeTop(Refill(b, lane, shuffle).state, lane, hand);
      Sound(r) && SameShape(r, b.state) && Inventory(r) == Inventory(b.state)
  {
    var s1 := Refill(b, lane, shuffle).state;
    RefillMovesDiscard(b, lane, shuffle);
    RefillKeepsCards(b, lane, shuffle);
    TakeTopMovesOne(s1, lane, hand);
    TakeTopKeepsCards(s1, lane, hand);
  }

  /**
   * Drawing from a deck that holds cards moves its top card, face-down, onto
   * the end of the hand; in lanes 3..5 the deck's new top card is face-up.
   */
  lemma DrawnFromDeck(b: Board, lane: nat, hand: Zone, shuffle: Shuffler)
    requires Sound(b.state) && lane <= 6 && HasZone(b.state, hand) && hand.Hand?
    requires |Get(b.state, Deck(lane))| > 0
    ensures var deck := Get(b.state, Deck(lane)); var r := Drawn(b, lane, hand, shuffle);
      Get(r.state, hand) == Get(b.state, hand) + [deck[|deck| - 1].(up := false)] &&
      Get(r.state, Deck(lane)) == TopUp(deck[..|deck| - 1], lane) &&
      Get(r.state, Discard(lane)) == Get(b.state, Discard(lane)) && r.seed == b.seed
  {
    TakeTopMovesOne(b.state, lane, hand);
    TakeTopFrame(b.state, lane, hand, Discard(lane));
  }

  /**
   * Drawing from an empty deck first shuffles the discard into it: the hand
   * gains one card of the old discard, face-down, the deck holds the rest of
   * the discard and the discard is empty.
   */
  lemma DrawnFromDiscard(b: Board, lane: nat, hand: Zone, shuffle: Shuffler)
    requires Sound(b.state) && lane <= 6 && HasZone(b.state, hand) && hand.Hand?
    requires |Get(b.state, Deck(lane))| == 0 && |Get(b.state, Discard(lane))| > 0
    ensures var r := Drawn(b, lane, hand, shuffle).state; var h := Get(b.state, hand);
      |Get(r, hand)| == |h| + 1 && Get(r, hand)[..|h|] == h && !Get(r, hand)[|h|].up &&
      Ids(Get(r, Deck(lane))) + multiset{Id(Get(r, hand)[|h|])} == Ids(Get(b.state, Discard(lane))) &&
      Get(r, Discard(lane)) == []
  {
    var b1 := Refill(b, lane, shuffle);
    RefillMovesDiscard(b, lane, shuffle);
    RefillFrame(b, lane, shuffle, hand);
    TakeTopMovesOne(b1.state, lane, hand);
    TakeTopFrame(b1.state, lane, hand, Discard(lane));
    var deck := Get(b1.state, Deck(lane));
    IdsTopUp(deck[..|deck| - 1], lane);
    IdsRemoveAt(deck, |deck| - 1);
    assert deck[..|deck| - 1] + deck[|deck| - 1 + 1..] == deck[..|deck| - 1];
  }

  /** In lanes 3..5 a deck's top card is face-up once TopUp has run. */
  lemma TopUpShowsTop(deck: seq<Card>, lane: nat)
    requires 3 <= lane <= 5 && |deck| > 0
    ensures TopUp(deck, lane)[|deck| - 1].up
    ensures forall i :: 0 <= i < |deck| - 1 ==> TopUp(deck, lane)[i] == deck[i]
  {
  }

  /** A draw changes no zone but the lane's deck and discard and the hand. */
  lemma DrawnFrame(b: Board, lane: nat, hand: Zone, shuffle: Shuffler, y: Zone)
    requires Sound(b.state) && lane <= 6 && HasZone(b.state, hand) && hand.Hand?
    requires |Get(b.state, Deck(lane))| > 0 || |Get(b.state, Discard(lane))| > 0
    requires HasZone(b.state, y) && y != Deck(lane) && y != Discard(lane) && y != hand
    ensures Get(Drawn(b, lane, hand, shuffle).state, y) == Get(b.state, y)
  {
    if |Get(b.state, Deck(lane))| == 0 {
      RefilledFrame(b, lane, hand, shuffle, y);
    } else {
      TakeTopFrame(b.state, lane, hand, y);
    }
  }

  lemma RefilledFrame(b: Board, lane: nat, hand: Zone, shuffle: Shuffler, y: Zone)
    requires Sound(b.state) && lane <= 6 && HasZone(b.state, hand) && hand.Hand?
    requires |Get(b.state, Deck(lane))| == 0 && |Get(b.state, Discard(lane))| > 0
    requires HasZone(b.state, y) && y != Deck(lane) && y != Discard(lane) && y != hand
    ensures Get(TakeTop(Refill(b, lane, shuffle).state, lane, hand), y) == Get(b.state, y)
  {
    var s1 := Refill(b, lane, shuffle).state;
    RefillFrame(b, lane, shuffle, y);
    RefillMovesDiscard(b, lane, shuffle);
    TakeTopFrame(s1, lane, hand, y);
  }

  lemma TakeTopFrame(s: State, lane: nat, hand: Zone, y: Zone)
    requires Sound(s) && lane <= 6 && HasZone(s, hand) && hand.Hand? && |Get(s, Deck(lane))| > 0
    requires HasZone(s, y) && y != Deck(lane) && y != hand
    ensures Get(TakeTop(s, lane, hand), y) == Get(s, y)
  {
    var deck := Get(s, Deck(lane));
    var rest := deck[..|deck| - 1];
    var s1 := Put(s, Deck(lane), rest);
    var s2 := Put(s1, hand, Get(s, hand) + [deck[|deck| - 1].(up := false)]);
    PutFrame(s, Deck(lane), rest, y);
    PutFrame(s1, hand, Get(s, hand) + [deck[|deck| - 1].(up := false)], y);
    PutFrame(s2, Deck(lane), TopUp(rest, lane), y);
  }

  /** A draw either succeeds, as Drawn into the drawer's hand, or leaves the board as it was. */
  lemma DrawCardCases(b: Board, pid: string, lane: nat, shuffle: Shuffler)
    requires Sound(b.state) && lane <= 6
    ensures var r := DrawCard(b, pid, lane, shuffle);
      if r.0 == Returned(true) then
        Seat(b.state, pid).Some? &&
        (|Get(b.state, Deck(lane))| > 0 || |Get(b.state, Discard(lane))| > 0) &&
        r.1 == Drawn(b, lane, Seat(b.state, pid).value, shuffle)
      else r.1 == b
  {
  }

  /** drawCard creates and loses no card; a draw that does not succeed changes nothing. */
  lemma DrawKeepsCards(b: Board, pid: string, lane: nat, shuffle: Shuffler)
    requires Sound(b.state) && lane <= 6
    ensures var r := DrawCard(b, pid, lane, shuffle);
      Inventory(r.1.state) == Inventory(b.state) && (r.0 != Returned(true) ==> r.1 == b)
  {
    DrawCardCases(b, pid, lane, shuffle);
    var r := DrawCard(b, pid, lane, shuffle);
    if r.0 == Returned(true) {
      DrawnKeepsCards(b, lane, Seat(b.state, pid).value, shuffle);
    }
  }

  lemma DrawCardKeepsCards(b: Board, pid: string, lane: nat, shuffle: Shuffler)
    requires Sound(b.state) && lane <= 6
    ensures Inventory(DrawCard(b, pid, lane, shuffle).1.state) == Inventory(b.state)
  {
    DrawKeepsCards(b, pid, lane, shuffle);
  }

  // ---------------------------------------------------------------- spliceCardFromHand

  /**
   * spliceCardFromHand on one hand: the card it takes out and the hand left
   * behind, or None (the source's undefined) when no card fits.
   */
  function SpliceCard(hand: seq<Card>, value: Value, sign: Option<Sign>): (r: Option<(Card, seq<Card>)>)
    ensures r.None? <==> FirstFit(hand, value, sign).None?
    ensures r.Some? ==> var i := FirstFit(hand, value, sign).value;
      r.value.0 == hand[i] && r.value.1 == hand[..i] + hand[i + 1..]
  {
    SpliceIndexIsFirstFit(hand, value, sign);
    match SpliceIndex(hand, value, sign)
    case None => None
    case Some(i) => Some((hand[i], hand[..i] + hand[i + 1..]))
  }

  /**
   * A splice that finds a card takes exactly that one card out: it fits,
   * the hand is one shorter, and the other cards keep their identities.
   */
  lemma SpliceCardTakesOne(hand: seq<Card>, value: Value, sign: Option<Sign>)
    requires SpliceCard(hand, value, sign).Some?
    ensures var (c, rest) := SpliceCard(hand, value, sign).value;
      Fits(c, value, sign) && |rest| == |hand| - 1 && Ids(rest) + multiset{Id(c)} == Ids(hand)
  {
    var i := FirstFit(hand, value, sign).value;
    IdsRemoveAt(hand, i);
  }

  // ---------------------------------------------------------------- moving cards between zones

  /**
   * Zone `from` is left holding `rest` and the cards `moved` are pushed, in
   * order, onto zone `to`: every move of the source is one of these.
   */
  function Transfer(s: State, from: Zone, rest: seq<Card>, to: Zone, moved: seq<Card>): (r: State)
    requires HasZone(s, from) && HasZone(s, to) && from != to
    ensures SameShape(r, s)
  {
    Put(Put(s, from, rest), to, Get(s, to) + moved)
  }

  lemma TransferMoves(s: State, from: Zone, rest: seq<Card>, to: Zone, moved: seq<Card>)
    requires HasZone(s, from) && HasZone(s, to) && from != to
    ensures var r := Transfer(s, from, rest, to, moved);
      Get(r, from) == rest && Get(r, to) == Get(s, to) + moved
  {
    PutFrame(Put(s, from, rest), to, Get(s, to) + moved, from);
  }

  /** A transfer changes no other zone. */
  lemma TransferFrame(s: State, from: Zone, rest: seq<Card>, to: Zone, moved: seq<Card>, y: Zone)
    requires HasZone(s, from) && HasZone(s, to) && from != to
    requires HasZone(s, y) && y != from && y != to
    ensures Get(Transfer(s, from, rest, to, moved), y) == Get(s, y)
  {
    PutFrame(s, from, rest, y);
    PutFrame(Put(s, from, rest), to, Get(s, to) + moved, y);
  }

  /** A transfer whose moved cards are exactly those `from` lost creates and loses no card. */
  lemma TransferKeepsCards(s: State, from: Zone, rest: seq<Card>, to: Zone, moved: seq<Card>)
    requires HasZone(s, from) && HasZone(s, to) && from != to
    requires Ids(rest) + Ids(moved) == Ids(Get(s, from))
    ensures Inventory(Transfer(s, from, rest, to, moved)) == Inventory(s)
  {
    IdsAppend(Get(s, to), moved);
    InventoryTransfer(s, from, rest, to, Get(s, to) + moved, Ids(moved));
  }

  /** Two transfers between the same zones are one, moving both batches in order. */
  lemma TransferTwice(s: State, from: Zone, r1: seq<Card>, to: Zone, m1: seq<Card>, r2: seq<Card>, m2: seq<Card>)
    requires HasZone(s, from) && HasZone(s, to) && from != to
    ensures Transfer(Transfer(s, from, r1, to, m1), from, r2, to, m2) == Transfer(s, from, r2, to, m1 + m2)
  {
    var s1 := Put(s, from, r1);
    var t := Get(s, to);
    TransferMoves(s, from, r1, to, m1);
    assert (t + m1) + m2 == t + (m1 + m2);
    PutSwap(s1, to, t + m1, from, r2);
    PutPut(s, from, r1, r2);
    PutPut(Put(s, from, r2), to, t + m1, t + m1 + m2);
  }

  /** Take card `i` out of zone `from` and push it, with `up` set, onto zone `to` (splice or pop, then push). */
  function MoveCard(s: State, from: Zone, i: nat, to: Zone, up: bool): (r: State)
    requires HasZone(s, from) && HasZone(s, to) && from != to && i < |Get(s, from)|
    ensures SameShape(r, s)
  {
    var f := Get(s, from);
    Transfer(s, from, f[..i] + f[i + 1..], to, [f[i].(up := up)])
  }

  /** Moving one card keeps every card. */
  lemma MoveCardKeepsCards(s: State, from: Zone, i: nat, to: Zone, up: bool)
    requires HasZone(s, from) && HasZone(s, to) && from != to && i < |Get(s, from)|
    ensures Inventory(MoveCard(s, from, i, to, up)) == Inventory(s)
  {
    var f := Get(s, from);
    IdsRemoveAt(f, i);
    assert Ids([f[i].(up := up)]) == multiset{Id(f[i])} by {
      assert [f[i].(up := up)][..0] == [];
    }
    TransferKeepsCards(s, from, f[..i] + f[i + 1..], to, [f[i].(up := up)]);
  }

  /** The moved card leaves `from` and lands on top of `to`. */
  lemma MoveCardMoves(s: State, from: Zone, i: nat, to: Zone, up: bool)
    requires HasZone(s, from) && HasZone(s, to) && from != to && i < |Get(s, from)|
    ensures var f := Get(s, from); var r := MoveCard(s, from, i, to, up);
      Get(r, from) == f[..i] + f[i + 1..] && Get(r, to) == Get(s, to) + [f[i].(up := up)]
  {
    var f := Get(s, from);
    TransferMoves(s, from, f[..i] + f[i + 1..], to, [f[i].(up := up)]);
  }

  /** Pop the top card of `from` and push it face-up onto `to`. */
  function PopOnto(s: State, from: Zone, to: Zone): (r: State)
    requires HasZone(s, from) && HasZone(s, to) && from != to && |Get(s, from)| > 0
    ensures SameShape(r, s)
  {
    MoveCard(s, from, |Get(s, from)| - 1, to, true)
  }

  /** Empty zone `from` onto zone `to`, every card turned face-up (splice(0, length), forEach up, push). */
  function Dump(s: State, from: Zone, to: Zone): (r: State)
    requires HasZone(s, from) && HasZone(s, to) && from != to
    ensures SameShape(r, s)
  {
    Transfer(s, from, [], to, WithUp(Get(s, from), true))
  }

  lemma DumpKeepsCards(s: State, from: Zone, to: Zone)
    requires HasZone(s, from) && HasZone(s, to) && from != to
    ensures Inventory(Dump(s, from, to)) == Inventory(s)
  {
    IdsWithUp(Get(s, from), true);
    TransferKeepsCards(s, from, [], to, WithUp(Get(s, from), true));
  }

  /** The cards of `s` whose value is not `v`, in order. */
  function Without(s: seq<Card>, v: Value): (r: seq<Card>)
    ensures forall j :: 0 <= j < |r| ==> r[j].value != v
  {
    if |s| == 0 then [] else Without(s[..|s| - 1], v) + (if s[|s| - 1].value == v then [] else [s[|s| - 1]])
  }

  /** The cards of `s` whose value is `v`, in order: the source's filter. */
  function Only(s: seq<Card>, v: Value): (r: seq<Card>)
    ensures forall j :: 0 <= j < |r| ==> r[j].value == v
  {
    if |s| == 0 then [] else Only(s[..|s| - 1], v) + (if s[|s| - 1].value == v then [s[|s| - 1]] else [])
  }

  /** Splitting a stack by a value loses no card, and the cards of that value number CountValue. */
  lemma {:induction false} SplitByValue(s: seq<Card>, v: Value)
    ensures Ids(Without(s, v)) + Ids(Only(s, v)) == Ids(s)
    decreases |s|
  {
    if |s| > 0 {
      var n := |s| - 1;
      var w, o := Without(s[..n], v), Only(s[..n], v);
      SplitByValue(s[..n], v);
      assert Ids(s) == Ids(s[..n]) + multiset{Id(s[n])};
      if s[n].value == v {
        assert Without(s, v) == w + [] == w;
        IdsPush(o, s[n]);
      } else {
        assert Only(s, v) == o + [] == o;
        IdsPush(w, s[n]);
      }
    }
  }

  lemma {:induction false} OnlyCounts(s: seq<Card>, v: Value)
    ensures |Only(s, v)| == CountValue(s, v)
    decreases |s|
  {
    if |s| > 0 {
      OnlyCounts(s[..|s| - 1], v);
    }
  }

  /** Take every card of value `v` out of `from` and push them face-up, in order, onto `to`. */
  function SendOut(s: State, from: Zone, to: Zone, v: Value): (r: State)
    requires HasZone(s, from) && HasZone(s, to) && from != to
    ensures SameShape(r, s)
  {
    var f := Get(s, from);
    Transfer(s, from, Without(f, v), to, WithUp(Only(f, v), true))
  }

  lemma SendOutKeepsCards(s: State, from: Zone, to: Zone, v: Value)
    requires HasZone(s, from) && HasZone(s, to) && from != to
    ensures Inventory(SendOut(s, from, to, v)) == Inventory(s)
  {
    var f := Get(s, from);
    SplitByValue(f, v);
    IdsWithUp(Only(f, v), true);
    TransferKeepsCards(s, from, Without(f, v), to, WithUp(Only(f, v), true));
  }

  // ---------------------------------------------------------------- combat: traps

  function Min(a: nat, b: nat): nat
  {
    if a < b then a else b
  }

  /** Math.max */
  function Max(a: nat, b: nat): nat
  {
    if a < b then b else a
  }

  /** Where combat sends the cards a team's effects take: discards[team], the attacker discard or the lane discard. */
  function TeamDiscard(t: Team, lane: nat): Zone
  {
    if t == Attacker then Discard(6) else Discard(lane)
  }

  /** The top `n` cards of `f` in the order pops deliver them (top first), face-up. */
  function Popped(f: seq<Card>, n: nat): (r: seq<Card>)
    requires n <= |f|
    ensures |r| == n
    decreases n
  {
    if n == 0 then [] else [f[|f| - 1].(up := true)] + Popped(f[..|f| - 1], n - 1)
  }

  /**
   * The trap loop: up to `k` pops of `from`, each card pushed face-up onto
   * `to`, stopping early once `from` is empty. Min(k, |from|) cards move,
   * top first.
   */
  function Spill(s: State, from: Zone, to: Zone, k: nat): (r: State)
    requires HasZone(s, from) && HasZone(s, to) && from != to
    ensures SameShape(r, s)
  {
    var f := Get(s, from);
    var n := Min(k, |f|);
    Transfer(s, from, f[..|f| - n], to, Popped(f, n))
  }

  /** Once `from` is empty, further pops move nothing. */
  lemma SpillSaturates(s: State, from: Zone, to: Zone, i: nat, k: nat)
    requires HasZone(s, from) && HasZone(s, to) && from != to && i <= k
    requires i == k || |Get(Spill(s, from, to, i), from)| == 0
    ensures Spill(s, from, to, k) == Spill(s, from, to, i)
  {
    SpillLeaves(s, from, to, i);
    assert Min(k, |Get(s, from)|) == Min(i, |Get(s, from)|);
  }

  /** One more pop is one more card moved: the step the trap loop takes. */
  lemma SpillStep(s: State, from: Zone, to: Zone, k: nat)
    requires HasZone(s, from) && HasZone(s, to) && from != to && k < |Get(s, from)|
    ensures Spill(s, from, to, k + 1) == PopOnto(Spill(s, from, to, k), from, to)
  {
    var f := Get(s, from);
    var g := f[..|f| - k];
    TransferMoves(s, from, g, to, Popped(f, k));
    assert g[..|g| - 1] + g[|g|..] == f[..|f| - (k + 1)];
    PoppedStep(f, k);
    TransferTwice(s, from, g, to, Popped(f, k), f[..|f| - (k + 1)], [f[|f| - 1 - k].(up := true)]);
  }

  lemma {:induction false} PoppedStep(f: seq<Card>, k: nat)
    requires k < |f|
    ensures Popped(f, k + 1) == Popped(f, k) + [f[|f| - 1 - k].(up := true)]
    decreases k
  {
    if k > 0 {
      PoppedStep(f[..|f| - 1], k - 1);
      assert f[..|f| - 1][|f| - 1 - 1 - (k - 1)] == f[|f| - 1 - k];
    }
  }

  /** The cards popped are the top n of the stack: no card is created or lost. */
  lemma {:induction false} IdsPopped(f: seq<Card>, n: nat)
    requires n <= |f|
    ensures Ids(f[..|f| - n]) + Ids(Popped(f, n)) == Ids(f)
    decreases n
  {
    if n > 0 {
      var g := f[..|f| - 1];
      var top := f[|f| - 1].(up := true);
      var p := Popped(g, n - 1);
      var rest := f[..|f| - n];
      IdsPopped(g, n - 1);
      assert g[..|g| - (n - 1)] == rest;
      IdsAppend([top], p);
      assert Ids([top]) == multiset{Id(f[|f| - 1])} by {
        assert [top][..0] == [];
      }
      var m := multiset{Id(f[|f| - 1])};
      calc {
        Ids(rest) + Ids(Popped(f, n));
        { assert Popped(f, n) == [top] + p; }
        Ids(rest) + (m + Ids(p));
        (Ids(rest) + Ids(p)) + m;
        Ids(g) + m;
        { assert f[..|f| - 1] == g; }
        Ids(f);
      }
    } else {
      assert f[..|f| - n] == f;
    }
  }

  lemma SpillKeepsCards(s: State, from: Zone, to: Zone, k: nat)
    requires HasZone(s, from) && HasZone(s, to) && from != to
    ensures Inventory(Spill(s, from, to, k)) == Inventory(s)
  {
    var f := Get(s, from);
    var n := Min(k, |f|);
    IdsPopped(f, n);
    TransferKeepsCards(s, from, f[..|f| - n], to, Popped(f, n));
  }

  /**
   * The two trap rounds of combat: each trap in the initiator's stack pops
   * one card of the opponent's stack into the initiator's discard; then each
   * trap left in the opponent's stack pops one card of the initiator's stack
   * into the opponent's discard.
   */
  function Traps(s: State, p: Team, lane: nat): (r: State)
    requires Sound(s) && lane < 6
    ensures SameShape(r, s)
  {
    var o := Other(p);
    var s1 := Spill(s, Stack(o, lane), TeamDiscard(p, lane), CountValue(Get(s, Stack(p, lane)), Trap));
    Spill(s1, Stack(p, lane), TeamDiscard(o, lane), CountValue(Get(s1, Stack(o, lane)), Trap))
  }

  /**
   * The initiator's traps fire first and the opponent's traps are counted in
   * what is left of the opponent's stack afterwards.
   */
  lemma TrapsMove(s: State, p: Team, lane: nat)
    requires Sound(s) && lane < 6
    ensures var o := Other(p); var r := Traps(s, p, lane);
      var ps, os := Get(s, Stack(p, lane)), Get(s, Stack(o, lane));
      var n1 := Min(CountValue(ps, Trap), |os|);
      var n2 := Min(CountValue(os[..|os| - n1], Trap), |ps|);
      Get(r, Stack(o, lane)) == os[..|os| - n1] &&
      Get(r, TeamDiscard(p, lane)) == Get(s, TeamDiscard(p, lane)) + Popped(os, n1) &&
      Get(r, Stack(p, lane)) == ps[..|ps| - n2] &&
      Get(r, TeamDiscard(o, lane)) == Get(s, TeamDiscard(o, lane)) + Popped(ps, n2)
  {
    var o := Other(p);
    var ps, os := Get(s, Stack(p, lane)), Get(s, Stack(o, lane));
    var n1 := Min(CountValue(ps, Trap), |os|);
    var s1 := Spill(s, Stack(o, lane), TeamDiscard(p, lane), CountValue(ps, Trap));
    TransferMoves(s, Stack(o, lane), os[..|os| - n1], TeamDiscard(p, lane), Popped(os, n1));
    TransferFrame(s, Stack(o, lane), os[..|os| - n1], TeamDiscard(p, lane), Popped(os, n1), Stack(p, lane));
    TransferFrame(s, Stack(o, lane), os[..|os| - n1], TeamDiscard(p, lane), Popped(os, n1), TeamDiscard(o, lane));
    var n2 := Min(CountValue(os[..|os| - n1], Trap), |ps|);
    TransferMoves(s1, Stack(p, lane), ps[..|ps| - n2], TeamDiscard(o, lane), Popped(ps, n2));
    TransferFrame(s1, Stack(p, lane), ps[..|ps| - n2], TeamDiscard(o, lane), Popped(ps, n2), Stack(o, lane));
    TransferFrame(s1, Stack(p, lane), ps[..|ps| - n2], TeamDiscard(o, lane), Popped(ps, n2), TeamDiscard(p, lane));
  }

  lemma TrapsKeepCards(s: State, p: Team, lane: nat)
    requires Sound(s) && lane < 6
    ensures Inventory(Traps(s, p, lane)) == Inventory(s)
  {
    var o := Other(p);
    var k1 := CountValue(Get(s, Stack(p, lane)), Trap);
    var s1 := Spill(s, Stack(o, lane), TeamDiscard(p, lane), k1);
    SpillKeepsCards(s, Stack(o, lane), TeamDiscard(p, lane), k1);
    SpillKeepsCards(s1, Stack(p, lane), TeamDiscard(o, lane), CountValue(Get(s1, Stack(o, lane)), Trap));
  }

  // ---------------------------------------------------------------- combat: resolution

  /** How a combat ends, once the traps have fired and both powers are known. */
  datatype Resolution =
    | BounceCards          // a '?' in either stack
    | NoPower              // both powers 0
    | DefenderWins
    | AttackerWins(damage: nat)

  /**
   * The branch combat takes: a '?' bounces, two powers of 0 bounce, the
   * defender wins on a strictly higher power, and otherwise the attacker
   * wins; its damage is max(attacker power, defender stack size) when a '>'
   * is in either stack, else the power difference plus one.
   */
  function Resolve(aStack: seq<Card>, dStack: seq<Card>, powA: nat, powD: nat): (r: Resolution)
    ensures r == DefenderWins ==> powA < powD
    ensures r.AttackerWins? ==> powA >= powD && r.damage >= 1
  {
    if CountValue(aStack, Bounce) > 0 || CountValue(dStack, Bounce) > 0 then BounceCards
    else if powA == 0 && powD == 0 then NoPower
    else if powA < powD then DefenderWins
    else if CountValue(aStack, Break) + CountValue(dStack, Break) > 0 then AttackerWins(Max(powA, |dStack|))
    else AttackerWins(powA - powD + 1)
  }

  /**
   * Without a '?' the defender wins exactly on a strictly higher power, so a
   * tie goes to the attacker, whose damage is then at least 1; with a '>'
   * it is the larger of the attacker power and the defender stack size.
   */
  lemma ResolveWinner(aStack: seq<Card>, dStack: seq<Card>, powA: nat, powD: nat)
    requires CountValue(aStack, Bounce) == 0 && CountValue(dStack, Bounce) == 0
    requires powA > 0 || powD > 0
    ensures Resolve(aStack, dStack, powA, powD) == DefenderWins <==> powA < powD
    ensures Resolve(aStack, dStack, powA, powD).AttackerWins? <==> powA >= powD
    ensures Resolve(aStack, dStack, powA, powD).AttackerWins? ==>
      var d := Resolve(aStack, dStack, powA, powD).damage;
      d >= 1 &&
      (CountValue(aStack, Break) + CountValue(dStack, Break) > 0 ==> d >= |dStack| && d >= powA && (d == |dStack| || d == powA)) &&
      (CountValue(aStack, Break) + CountValue(dStack, Break) == 0 ==> d == powA - powD + 1)
  {
  }

  /** A bounce happens exactly when either stack holds a '?' or both powers are 0. */
  lemma ResolveBounces(aStack: seq<Card>, dStack: seq<Card>, powA: nat, powD: nat)
    ensures Resolve(aStack, dStack, powA, powD) in {BounceCards, NoPower} <==>
      (exists j :: 0 <= j < |aStack| && aStack[j].value == Bounce) ||
      (exists j :: 0 <= j < |dStack| && dStack[j].value == Bounce) ||
      (powA == 0 && powD == 0)
  {
    CountValuePositive(aStack, Bounce);
    CountValuePositive(dStack, Bounce);
  }

  /** filter(...).length > 0 is "some card has that value". */
  lemma {:induction false} CountValuePositive(s: seq<Card>, v: Value)
    ensures CountValue(s, v) > 0 <==> exists j :: 0 <= j < |s| && s[j].value == v
    decreases |s|
  {
    if |s| > 0 {
      var n := |s| - 1;
      CountValuePositive(s[..n], v);
      if CountValue(s[..n], v) > 0 {
        var j :| 0 <= j < n && s[..n][j].value == v;
        assert s[j].value == v;
      }
      if exists j :: 0 <= j < |s| && s[j].value == v {
        var j :| 0 <= j < |s| && s[j].value == v;
        if j < n {
          assert s[..n][j].value == v;
        }
      }
    }
  }

  // ---------------------------------------------------------------- combat: outcomes

  /**
   * bounceCombat: the attacker stack goes face-up onto the attacker discard;
   * the defender stack turns face-up and becomes force_visible.
   */
  function BounceCombat(s: State, lane: nat): (r: State)
    requires Sound(s) && lane < 6
    ensures SameShape(r, s)
  {
    RevealDefender(Dump(s, Stack(Attacker, lane), Discard(6)), lane)
  }

  /** The defender's win: the attacker stack goes face-up onto the lane discard; the defender stack is revealed. */
  function DefenderWin(s: State, lane: nat): (r: State)
    requires Sound(s) && lane < 6
    ensures SameShape(r, s)
  {
    RevealDefender(Dump(s, Stack(Attacker, lane), Discard(lane)), lane)
  }

  /** What bounceCombat leaves: an empty attacker stack, its cards face-up on the attacker discard, the defender stack face-up and force_visible. */
  lemma BounceCombatResult(s: State, lane: nat)
    requires Sound(s) && lane < 6
    ensures var r := BounceCombat(s, lane);
      Inventory(r) == Inventory(s) &&
      Get(r, Stack(Attacker, lane)) == [] &&
      Get(r, Discard(6)) == Get(s, Discard(6)) + WithUp(Get(s, Stack(Attacker, lane)), true) &&
      Get(r, Stack(Defender, lane)) == WithUp(Get(s, Stack(Defender, lane)), true) &&
      r.lanes[lane].defenderStack.forceVisible
  {
    var s1 := Dump(s, Stack(Attacker, lane), Discard(6));
    DumpKeepsCards(s, Stack(Attacker, lane), Discard(6));
    InventoryRevealDefender(s1, lane);
    TransferMoves(s, Stack(Attacker, lane), [], Discard(6), WithUp(Get(s, Stack(Attacker, lane)), true));
    TransferFrame(s, Stack(Attacker, lane), [], Discard(6), WithUp(Get(s, Stack(Attacker, lane)), true), Stack(Defender, lane));
  }

  /** What the defender's win leaves: the attacker stack face-up on the lane discard, the defender stack face-up and force_visible. */
  lemma DefenderWinResult(s: State, lane: nat)
    requires Sound(s) && lane < 6
    ensures var r := DefenderWin(s, lane);
      Inventory(r) == Inventory(s) &&
      Get(r, Stack(Attacker, lane)) == [] &&
      Get(r, Discard(lane)) == Get(s, Discard(lane)) + WithUp(Get(s, Stack(Attacker, lane)), true) &&
      Get(r, Stack(Defender, lane)) == WithUp(Get(s, Stack(Defender, lane)), true) &&
      r.lanes[lane].defenderStack.forceVisible
  {
    var s1 := Dump(s, Stack(Attacker, lane), Discard(lane));
    DumpKeepsCards(s, Stack(Attacker, lane), Discard(lane));
    InventoryRevealDefender(s1, lane);
    TransferMoves(s, Stack(Attacker, lane), [], Discard(lane), WithUp(Get(s, Stack(Attacker, lane)), true));
    TransferFrame(s, Stack(Attacker, lane), [], Discard(lane), WithUp(Get(s, Stack(Attacker, lane)), true), Stack(Defender, lane));
  }

  /** The '?' cards leave both stacks before the bounce: the attacker's to the lane discard, the defender's to the attacker discard. */
  function SendOutBounces(s: State, lane: nat): (r: State)
    requires Sound(s) && lane < 6
    ensures SameShape(r, s)
  {
    var s1 := SendOut(s, Stack(Attacker, lane), Discard(lane), Bounce);
    SendOut(s1, Stack(Defender, lane), Discard(6), Bounce)
  }

  lemma SendOutBouncesKeepsCards(s: State, lane: nat)
    requires Sound(s) && lane < 6
    ensures Inventory(SendOutBounces(s, lane)) == Inventory(s)
  {
    var s1 := SendOut(s, Stack(Attacker, lane), Discard(lane), Bounce);
    SendOutKeepsCards(s, Stack(Attacker, lane), Discard(lane), Bounce);
    SendOutKeepsCards(s1, Stack(Defender, lane), Discard(6), Bounce);
  }

  // ---------------------------------------------------------------- combat: damage

  /**
   * The seat a defender-initiated damage draw goes to, seat i mod n of the
   * attackers written as its hex digit; with no attackers the source builds
   * "aNaN", which names no hand.
   */
  function DamagePid(i: nat, n: nat): (r: string)
    requires n <= 16
  {
    if n == 0 then "aNaN" else ['a', HexChar(i % n)]
  }

  /** The damage seat as the source writes it: seat i mod n in decimal. */
  function DamagePidAsWritten(i: nat, n: nat): string
  {
    if n == 0 then "aNaN" else "a" + DecimalString(i % n)
  }

  /** The corrected damage seat is attacker seat i mod n, read back through splitPid and hexToDec. */
  lemma DamagePidSeat(i: nat, n: nat)
    requires 0 < n <= 16
    ensures SplitPid(DamagePid(i, n)) == Some(Attacker) && SeatIndex(DamagePid(i, n)) == Some(i % n)
  {
  }

  /** Both spellings agree while there are at most ten attackers. */
  lemma DamagePidAsWrittenAgrees(i: nat, n: nat)
    requires 0 < n <= 10
    ensures DamagePidAsWritten(i, n) == DamagePid(i, n)
  {
  }

  /** With eleven attackers, the eleventh damage step (i = 10) names seat "a10", which hexToDec reads as seat 1, not seat 10. */
  lemma DamagePidAsWrittenMisreads()
    ensures DamagePidAsWritten(10, 11) == "a10"
    ensures SeatIndex(DamagePidAsWritten(10, 11)) == Some(1)
    ensures SeatIndex(DamagePid(10, 11)) == Some(10)
  {
    assert DecimalString(10) == "10";
  }

  /**
   * usePid: an attacker takes the cards drawn for its own damage; a
   * defender's break hands them round the attackers, seat i mod n while
   * there are at most ten of them.
   */
  function DamageSeat(pid: string, i: nat, n: nat): (r: string)
    ensures SplitPid(r) == Some(Attacker)
    ensures SplitPid(pid) != Some(Attacker) && 0 < n <= 10 ==> SeatIndex(r) == Some(i % n)
  {
    if |pid| > 0 && pid[0] == 'a' then pid else DamagePidAsWritten(i, n)
  }

  /**
   * The damage loop from step i: while the defender stack holds cards each
   * step pops one face-up onto the attacker discard; after that each step
   * draws from the lane for the damage seat, ignoring whether the draw
   * succeeded (a throw ends the combat).
   */
  function DamageLoop(b: Board, pid: string, lane: nat, i: nat, damage: nat, shuffle: Shuffler): (r: (Outcome, Board))
    requires Sound(b.state) && lane < 6
    ensures SameShape(r.1.state, b.state)
    decreases damage - i
  {
    if i >= damage then (Returned(true), b)
    else if |Get(b.state, Stack(Defender, lane))| > 0 then
      DamageLoop(b.(state := PopOnto(b.state, Stack(Defender, lane), Discard(6))), pid, lane, i + 1, damage, shuffle)
    else
      var (o, b1) := DrawCard(b, DamageSeat(pid, i, |b.state.attackerHands|), lane, shuffle);
      if o.Threw? then (o, b1) else DamageLoop(b1, pid, lane, i + 1, damage, shuffle)
  }

  lemma {:induction false} DamageLoopKeepsCards(b: Board, pid: string, lane: nat, i: nat, damage: nat, shuffle: Shuffler)
    requires Sound(b.state) && lane < 6
    ensures Inventory(DamageLoop(b, pid, lane, i, damage, shuffle).1.state) == Inventory(b.state)
    decreases damage - i
  {
    if i < damage {
      var ds := Get(b.state, Stack(Defender, lane));
      if |ds| > 0 {
        var b1 := b.(state := PopOnto(b.state, Stack(Defender, lane), Discard(6)));
        MoveCardKeepsCards(b.state, Stack(Defender, lane), |ds| - 1, Discard(6), true);
        DamageLoopKeepsCards(b1, pid, lane, i + 1, damage, shuffle);
        assert DamageLoop(b, pid, lane, i, damage, shuffle) == DamageLoop(b1, pid, lane, i + 1, damage, shuffle);
      } else {
        var r := DrawCard(b, DamageSeat(pid, i, |b.state.attackerHands|), lane, shuffle);
        DrawCardKeepsCards(b, DamageSeat(pid, i, |b.state.attackerHands|), lane, shuffle);
        if !r.0.Threw? {
          DamageLoopKeepsCards(r.1, pid, lane, i + 1, damage, shuffle);
        }
      }
    }
  }

  /**
   * While the defender stack holds at least as many cards as the damage
   * left, the damage only pops the defender stack onto the attacker
   * discard, one card a step: from a board j pops into the spill, the
   * loop ends damage - i pops further on.
   */
  lemma {:induction false} DamageSpills(s0: State, j: nat, b: Board, pid: string, lane: nat, i: nat, damage: nat, shuffle: Shuffler)
    requires Sound(s0) && lane < 6 && i <= damage
    requires b.state == Spill(s0, Stack(Defender, lane), Discard(6), j)
    requires |Get(s0, Stack(Defender, lane))| >= j + damage - i
    ensures DamageLoop(b, pid, lane, i, damage, shuffle) ==
      (Returned(true), b.(state := Spill(s0, Stack(Defender, lane), Discard(6), j + damage - i)))
    decreases damage - i
  {
    var from, to := Stack(Defender, lane), Discard(6);
    if i < damage {
      SpillLeaves(s0, from, to, j);
      SpillStep(s0, from, to, j);
      DamageSpills(s0, j + 1, b.(state := Spill(s0, from, to, j + 1)), pid, lane, i + 1, damage, shuffle);
    }
  }

  /** The spill leaves the bottom of `from` in place. */
  lemma SpillLeaves(s: State, from: Zone, to: Zone, k: nat)
    requires HasZone(s, from) && HasZone(s, to) && from != to
    ensures Get(Spill(s, from, to, k), from) == Get(s, from)[..|Get(s, from)| - Min(k, |Get(s, from)|)]
  {
    var f := Get(s, from);
    var n := Min(k, |f|);
    TransferMoves(s, from, f[..|f| - n], to, Popped(f, n));
  }

  /** Damage no larger than the defender stack is paid from the stack alone. */
  lemma DamageFromStack(b: Board, pid: string, lane: nat, damage: nat, shuffle: Shuffler)
    requires Sound(b.state) && lane < 6
    requires |Get(b.state, Stack(Defender, lane))| >= damage
    ensures DamageLoop(b, pid, lane, 0, damage, shuffle) ==
      (Returned(true), b.(state := Spill(b.state, Stack(Defender, lane), Discard(6), damage)))
  {
    SpillNone(b.state, Stack(Defender, lane), Discard(6));
    DamageSpills(b.state, 0, b, pid, lane, 0, damage, shuffle);
  }

  /** Zero pops change nothing. */
  lemma SpillNone(s: State, from: Zone, to: Zone)
    requires HasZone(s, from) && HasZone(s, to) && from != to
    ensures Spill(s, from, to, 0) == s
  {
    var f := Get(s, from);
    assert f[..|f| - 0] == f;
    TransferIdentity(s, from, to);
  }

  /** Moving nothing changes nothing. */
  lemma TransferIdentity(s: State, from: Zone, to: Zone)
    requires HasZone(s, from) && HasZone(s, to) && from != to
    ensures Transfer(s, from, Get(s, from), to, []) == s
  {
    PutSame(s, from);
    assert Get(s, to) + [] == Get(s, to);
    PutSame(s, to);
  }

  /** A damage step pops or draws; the loop never answers false. */
  lemma {:induction false} DamageLoopNeverRefuses(b: Board, pid: string, lane: nat, i: nat, damage: nat, shuffle: Shuffler)
    requires Sound(b.state) && lane < 6
    ensures DamageLoop(b, pid, lane, i, damage, shuffle).0 != Returned(false)
    decreases damage - i
  {
    if i < damage {
      var ds := Get(b.state, Stack(Defender, lane));
      if |ds| > 0 {
        DamageLoopNeverRefuses(b.(state := PopOnto(b.state, Stack(Defender, lane), Discard(6))), pid, lane, i + 1, damage, shuffle);
      } else {
        var r := DrawCard(b, DamageSeat(pid, i, |b.state.attackerHands|), lane, shuffle);
        if !r.0.Threw? {
          DamageLoopNeverRefuses(r.1, pid, lane, i + 1, damage, shuffle);
        }
      }
    }
  }

  /** A draw leaves every combat stack as it was. */
  lemma DrawCardKeepsStacks(b: Board, pid: string, lane: nat, shuffle: Shuffler, t: Team, l: nat)
    requires Sound(b.state) && lane <= 6 && l < 6
    ensures Get(DrawCard(b, pid, lane, shuffle).1.state, Stack(t, l)) == Get(b.state, Stack(t, l))
  {
    DrawCardCases(b, pid, lane, shuffle);
    if DrawCard(b, pid, lane, shuffle).0 == Returned(true) {
      DrawnFrame(b, lane, Seat(b.state, pid).value, shuffle, Stack(t, l));
    }
  }

  /** Damage takes cards from the defender stack only: the attacker stack of the lane is untouched. */
  lemma {:induction false} DamageLoopKeepsAttackerStack(b: Board, pid: string, lane: nat, i: nat, damage: nat, shuffle: Shuffler)
    requires Sound(b.state) && lane < 6
    ensures Get(DamageLoop(b, pid, lane, i, damage, shuffle).1.state, Stack(Attacker, lane)) == Get(b.state, Stack(Attacker, lane))
    decreases damage - i
  {
    if i < damage {
      var ds := Get(b.state, Stack(Defender, lane));
      if |ds| > 0 {
        var b1 := b.(state := PopOnto(b.state, Stack(Defender, lane), Discard(6)));
        TransferFrame(b.state, Stack(Defender, lane), ds[..|ds| - 1] + ds[|ds|..], Discard(6), [ds[|ds| - 1].(up := true)], Stack(Attacker, lane));
        DamageLoopKeepsAttackerStack(b1, pid, lane, i + 1, damage, shuffle);
        assert DamageLoop(b, pid, lane, i, damage, shuffle) == DamageLoop(b1, pid, lane, i + 1, damage, shuffle);
      } else {
        var r := DrawCard(b, DamageSeat(pid, i, |b.state.attackerHands|), lane, shuffle);
        DrawCardKeepsStacks(b, DamageSeat(pid, i, |b.state.attackerHands|), lane, shuffle, Attacker, lane);
        if !r.0.Threw? {
          DamageLoopKeepsAttackerStack(r.1, pid, lane, i + 1, damage, shuffle);
        }
      }
    }
  }

  // ---------------------------------------------------------------- combat

  /**
   * combat(pid, lane, fromBreak): a defender fights only through a break;
   * the traps fire, both powers are taken (a wild past 16384 throws), and
   * the combat ends as Resolve decides.
   */
  function Combat(b: Board, pid: string, lane: nat, fromBreak: bool, shuffle: Shuffler): (r: (Outcome, Board))
    requires Sound(b.state) && lane < 6
    ensures SameShape(r.1.state, b.state)
  {
    match SplitPid(pid)
    case None => (Threw(IllegalPlayerId), b)
    case Some(p) =>
      if p == Defender && !fromBreak then (Returned(false), b)
      else Fight(b.(state := Traps(b.state, p, lane)), pid, lane, shuffle)
  }

  /** The combat once the traps have fired: both powers (a wild past 16384 throws), then the branch Resolve picks. */
  function Fight(b: Board, pid: string, lane: nat, shuffle: Shuffler): (r: (Outcome, Board))
    requires Sound(b.state) && lane < 6
    ensures SameShape(r.1.state, b.state)
  {
    var aStack, dStack := Get(b.state, Stack(Attacker, lane)), Get(b.state, Stack(Defender, lane));
    if StackPow(aStack).None? || StackPow(dStack).None? then (Threw(WildOverflow), b)
    else Resolved(b, pid, lane, Resolve(aStack, dStack, StackPow(aStack).value, StackPow(dStack).value), shuffle)
  }

  /**
   * The end of a combat once its branch is known, from the board the traps
   * left: both bounces run bounceCombat (after the '?' cards leave), the
   * defender's win sends the attacker stack to the lane discard, and the
   * attacker's win sends it to the attacker discard and then pays the damage.
   */
  function Resolved(b: Board, pid: string, lane: nat, res: Resolution, shuffle: Shuffler): (r: (Outcome, Board))
    requires Sound(b.state) && lane < 6
    ensures SameShape(r.1.state, b.state)
  {
    match res
    case BounceCards => (Returned(true), b.(state := BounceCombat(SendOutBounces(b.state, lane), lane)))
    case NoPower => (Returned(true), b.(state := BounceCombat(b.state, lane)))
    case DefenderWins => (Returned(true), b.(state := DefenderWin(b.state, lane)))
    case AttackerWins(d) => DamageLoop(b.(state := Dump(b.state, Stack(Attacker, lane), Discard(6))), pid, lane, 0, d, shuffle)
  }

  lemma ResolvedKeepsCards(b: Board, pid: string, lane: nat, res: Resolution, shuffle: Shuffler)
    requires Sound(b.state) && lane < 6
    ensures Inventory(Resolved(b, pid, lane, res, shuffle).1.state) == Inventory(b.state)
  {
    match res
    case BounceCards =>
      SendOutBouncesKeepsCards(b.state, lane);
      BounceCombatResult(SendOutBounces(b.state, lane), lane);
    case NoPower =>
      BounceCombatResult(b.state, lane);
    case DefenderWins =>
      DefenderWinResult(b.state, lane);
    case AttackerWins(d) =>
      DumpKeepsCards(b.state, Stack(Attacker, lane), Discard(6));
      DamageLoopKeepsCards(b.(state := Dump(b.state, Stack(Attacker, lane), Discard(6))), pid, lane, 0, d, shuffle);
  }

  /** Every way a combat ends leaves the lane's attacker stack empty, and none answers false. */
  lemma ResolvedClearsAttackerStack(b: Board, pid: string, lane: nat, res: Resolution, shuffle: Shuffler)
    requires Sound(b.state) && lane < 6
    ensures var r := Resolved(b, pid, lane, res, shuffle);
      r.0 != Returned(false) && Get(r.1.state, Stack(Attacker, lane)) == []
  {
    match res
    case BounceCards =>
      BounceCombatResult(SendOutBounces(b.state, lane), lane);
    case NoPower =>
      BounceCombatResult(b.state, lane);
    case DefenderWins =>
      DefenderWinResult(b.state, lane);
    case AttackerWins(d) =>
      var b1 := b.(state := Dump(b.state, Stack(Attacker, lane), Discard(6)));
      TransferMoves(b.state, Stack(Attacker, lane), [], Discard(6), WithUp(Get(b.state, Stack(Attacker, lane)), true));
      DamageLoopKeepsAttackerStack(b1, pid, lane, 0, d, shuffle);
      DamageLoopNeverRefuses(b1, pid, lane, 0, d, shuffle);
  }

  /** A combat is refused with nothing changed, or fights from the board the traps leave. */
  lemma CombatCases(b: Board, pid: string, lane: nat, fromBreak: bool, shuffle: Shuffler)
    requires Sound(b.state) && lane < 6
    ensures var r := Combat(b, pid, lane, fromBreak, shuffle);
      if SplitPid(pid).None? || (SplitPid(pid) == Some(Defender) && !fromBreak) then r.1 == b
      else r == Fight(b.(state := Traps(b.state, SplitPid(pid).value, lane)), pid, lane, shuffle)
  {
  }

  lemma FightKeepsCards(b: Board, pid: string, lane: nat, shuffle: Shuffler)
    requires Sound(b.state) && lane < 6
    ensures Inventory(Fight(b, pid, lane, shuffle).1.state) == Inventory(b.state)
  {
    var aStack, dStack := Get(b.state, Stack(Attacker, lane)), Get(b.state, Stack(Defender, lane));
    if StackPow(aStack).Some? && StackPow(dStack).Some? {
      ResolvedKeepsCards(b, pid, lane, Resolve(aStack, dStack, StackPow(aStack).value, StackPow(dStack).value), shuffle);
    }
  }

  /** A combat creates and loses no card, however it ends. */
  lemma CombatKeepsCards(b: Board, pid: string, lane: nat, fromBreak: bool, shuffle: Shuffler)
    requires Sound(b.state) && lane < 6
    ensures Inventory(Combat(b, pid, lane, fromBreak, shuffle).1.state) == Inventory(b.state)
  {
    CombatCases(b, pid, lane, fromBreak, shuffle);
    if SplitPid(pid).Some? {
      var p := SplitPid(pid).value;
      TrapsKeepCards(b.state, p, lane);
      FightKeepsCards(b.(state := Traps(b.state, p, lane)), pid, lane, shuffle);
    }
  }

  /** A fight never answers false, and when it answers true the attacker stack is empty. */
  lemma FightOutcome(b: Board, pid: string, lane: nat, shuffle: Shuffler)
    requires Sound(b.state) && lane < 6
    ensures var r := Fight(b, pid, lane, shuffle);
      r.0 != Returned(false) && (r.0 == Returned(true) ==> Get(r.1.state, Stack(Attacker, lane)) == [])
  {
    var aStack, dStack := Get(b.state, Stack(Attacker, lane)), Get(b.state, Stack(Defender, lane));
    if StackPow(aStack).Some? && StackPow(dStack).Some? {
      ResolvedClearsAttackerStack(b, pid, lane, Resolve(aStack, dStack, StackPow(aStack).value, StackPow(dStack).value), shuffle);
    }
  }

  /**
   * A combat answers false exactly when a defender starts it without a
   * break, and then changes nothing; a combat that answers true has emptied
   * the lane's attacker stack.
   */
  lemma CombatOutcome(b: Board, pid: string, lane: nat, fromBreak: bool, shuffle: Shuffler)
    requires Sound(b.state) && lane < 6
    ensures var r := Combat(b, pid, lane, fromBreak, shuffle);
      (r.0 == Returned(false) <==> SplitPid(pid) == Some(Defender) && !fromBreak) &&
      (r.0 == Returned(false) ==> r.1 == b) &&
      (r.0 == Returned(true) ==> Get(r.1.state, Stack(Attacker, lane)) == [])
  {
    CombatCases(b, pid, lane, fromBreak, shuffle);
    if SplitPid(pid).Some? {
      FightOutcome(b.(state := Traps(b.state, SplitPid(pid).value, lane)), pid, lane, shuffle);
    }
  }

  // ---------------------------------------------------------------- discardCard

  /**
   * discardCard(pid, lane, card): a defender may not discard to the attacker
   * discard; the card spliceCardFromHand finds goes face-up onto the lane's
   * discard, and a discard to the attacker discard is followed by two draws
   * from the attacker deck, whose results are ignored.
   */
  function DiscardCard(b: Board, pid: string, lane: nat, value: Value, sign: Option<Sign>, shuffle: Shuffler): (r: (Outcome, Board))
    requires Sound(b.state) && lane <= 6
    ensures SameShape(r.1.state, b.state)
  {
    var s := b.state;
    match SplitPid(pid)
    case None => (Threw(IllegalPlayerId), b)
    case Some(p) =>
      if p == Defender && lane == 6 then (Returned(false), b)
      else match Seat(s, pid)
        case None => (Threw(HandNotArray), b)
        case Some(hand) =>
          match SpliceCard(Get(s, hand), value, sign)
          case None => (Returned(false), b)
          case Some((c, rest)) =>
            var b1 := b.(state := Transfer(s, hand, rest, Discard(lane), [c.(up := true)]));
            if lane == 6 then (Returned(true), DrawCard(DrawCard(b1, pid, 6, shuffle).1, pid, 6, shuffle).1)
            else (Returned(true), b1)
  }

  /** The board after the card leaves the hand for the discard, before any draw. */
  function Discarded(b: Board, hand: Zone, lane: nat, value: Value, sign: Option<Sign>): (r: Board)
    requires Sound(b.state) && lane <= 6 && HasZone(b.state, hand) && hand.Hand?
    requires SpliceCard(Get(b.state, hand), value, sign).Some?
    ensures SameShape(r.state, b.state)
  {
    b.(state := MoveCard(b.state, hand, FirstFit(Get(b.state, hand), value, sign).value, Discard(lane), true))
  }

  /**
   * A discard succeeds exactly when the seat exists, the team may use the
   * lane and a card of the hand fits; otherwise it changes nothing, and the
   * only errors are a bad seat id and a missing hand.
   */
  lemma DiscardCases(b: Board, pid: string, lane: nat, value: Value, sign: Option<Sign>, shuffle: Shuffler)
    requires Sound(b.state) && lane <= 6
    ensures var r := DiscardCard(b, pid, lane, value, sign, shuffle);
      (r.0 == Returned(true) <==>
        Seat(b.state, pid).Some? && !(SplitPid(pid) == Some(Defender) && lane == 6) &&
        FirstFit(Get(b.state, Seat(b.state, pid).value), value, sign).Some?) &&
      (r.0.Threw? ==> r.0.fault == IllegalPlayerId || r.0.fault == HandNotArray) &&
      (r.0 != Returned(true) ==> r.1 == b) &&
      (r.0 == Returned(true) ==>
        var b1 := Discarded(b, Seat(b.state, pid).value, lane, value, sign);
        r.1 == if lane == 6 then DrawCard(DrawCard(b1, pid, 6, shuffle).1, pid, 6, shuffle).1 else b1)
  {
  }

  lemma DiscardedMovesCard(b: Board, hand: Zone, lane: nat, value: Value, sign: Option<Sign>)
    requires Sound(b.state) && lane <= 6 && HasZone(b.state, hand) && hand.Hand?
    requires SpliceCard(Get(b.state, hand), value, sign).Some?
    ensures var h := Get(b.state, hand); var i := FirstFit(h, value, sign).value;
      var r := Discarded(b, hand, lane, value, sign).state;
      Get(r, hand) == h[..i] + h[i + 1..] &&
      Get(r, Discard(lane)) == Get(b.state, Discard(lane)) + [h[i].(up := true)]
  {
    MoveCardMoves(b.state, hand, FirstFit(Get(b.state, hand), value, sign).value, Discard(lane), true);
  }

  lemma DiscardedKeepsCards(b: Board, hand: Zone, lane: nat, value: Value, sign: Option<Sign>)
    requires Sound(b.state) && lane <= 6 && HasZone(b.state, hand) && hand.Hand?
    requires SpliceCard(Get(b.state, hand), value, sign).Some?
    ensures Inventory(Discarded(b, hand, lane, value, sign).state) == Inventory(b.state)
  {
    MoveCardKeepsCards(b.state, hand, FirstFit(Get(b.state, hand), value, sign).value, Discard(lane), true);
  }

  /** A discard creates and loses no card, the draws after it included. */
  lemma DiscardKeepsCards(b: Board, pid: string, lane: nat, value: Value, sign: Option<Sign>, shuffle: Shuffler)
    requires Sound(b.state) && lane <= 6
    ensures Inventory(DiscardCard(b, pid, lane, value, sign, shuffle).1.state) == Inventory(b.state)
  {
    DiscardCases(b, pid, lane, value, sign, shuffle);
    if DiscardCard(b, pid, lane, value, sign, shuffle).0 == Returned(true) {
      var b1 := Discarded(b, Seat(b.state, pid).value, lane, value, sign);
      DiscardedKeepsCards(b, Seat(b.state, pid).value, lane, value, sign);
      if lane == 6 {
        DrawCardKeepsCards(b1, pid, 6, shuffle);
        DrawCardKeepsCards(DrawCard(b1, pid, 6, shuffle).1, pid, 6, shuffle);
      }
    }
  }

  /** A discard to a lane moves the first fitting card of the hand, face-up, onto that lane's discard. */
  lemma DiscardToLane(b: Board, pid: string, lane: nat, value: Value, sign: Option<Sign>, shuffle: Shuffler)
    requires Sound(b.state) && lane < 6
    requires DiscardCard(b, pid, lane, value, sign, shuffle).0 == Returned(true)
    ensures var r := DiscardCard(b, pid, lane, value, sign, shuffle).1.state;
      var hand := Seat(b.state, pid).value; var h := Get(b.state, hand); var i := FirstFit(h, value, sign).value;
      Get(r, hand) == h[..i] + h[i + 1..] &&
      Get(r, Discard(lane)) == Get(b.state, Discard(lane)) + [h[i].(up := true)]
  {
    DiscardCases(b, pid, lane, value, sign, shuffle);
    DiscardedMovesCard(b, Seat(b.state, pid).value, lane, value, sign);
  }

  /** A draw that succeeds adds one card to the drawer's hand; one that does not leaves it. */
  lemma DrawCardGrowsHand(b: Board, pid: string, lane: nat, shuffle: Shuffler)
    requires Sound(b.state) && lane <= 6 && Seat(b.state, pid).Some?
    ensures var r := DrawCard(b, pid, lane, shuffle); var hand := Seat(b.state, pid).value;
      |Get(r.1.state, hand)| == |Get(b.state, hand)| + (if r.0 == Returned(true) then 1 else 0)
  {
    DrawCardCases(b, pid, lane, shuffle);
    if DrawCard(b, pid, lane, shuffle).0 == Returned(true) {
      var hand := Seat(b.state, pid).value;
      if |Get(b.state, Deck(lane))| > 0 {
        DrawnFromDeck(b, lane, hand, shuffle);
      } else {
        DrawnFromDiscard(b, lane, hand, shuffle);
      }
    }
  }

  /** An attacker always gets a card from the attacker deck while it or the attacker discard holds one. */
  lemma AttackerDrawsFromAttackerDeck(b: Board, pid: string, shuffle: Shuffler)
    requires Sound(b.state) && Seat(b.state, pid).Some? && SplitPid(pid) == Some(Attacker)
    requires |Get(b.state, Deck(6))| > 0 || |Get(b.state, Discard(6))| > 0
    ensures DrawCard(b, pid, 6, shuffle).0 == Returned(true)
  {
  }

  /**
   * A discard to the attacker discard is paid back by draws: the first
   * always succeeds (the discarded card is there to be reshuffled), so the
   * hand ends with as many cards as before, or one more.
   */
  lemma DiscardToAttackerDiscard(b: Board, pid: string, value: Value, sign: Option<Sign>, shuffle: Shuffler)
    requires Sound(b.state)
    requires DiscardCard(b, pid, 6, value, sign, shuffle).0 == Returned(true)
    ensures var r := DiscardCard(b, pid, 6, value, sign, shuffle).1.state;
      var hand := Seat(b.state, pid).value;
      SplitPid(pid) == Some(Attacker) &&
      |Get(b.state, hand)| <= |Get(r, hand)| <= |Get(b.state, hand)| + 1
  {
    DiscardCases(b, pid, 6, value, sign, shuffle);
    var hand := Seat(b.state, pid).value;
    var b1 := Discarded(b, hand, 6, value, sign);
    DiscardedMovesCard(b, hand, 6, value, sign);
    assert |Get(b1.state, Discard(6))| > 0;
    assert Seat(b1.state, pid) == Seat(b.state, pid);
    AttackerDrawsFromAttackerDeck(b1, pid, shuffle);
    DrawCardGrowsHand(b1, pid, 6, shuffle);
    var b2 := DrawCard(b1, pid, 6, shuffle).1;
    assert Seat(b2.state, pid) == Seat(b.state, pid);
    DrawCardGrowsHand(b2, pid, 6, shuffle);
  }

  // ---------------------------------------------------------------- playCard

  /**
   * playCard(pid, lane, card, up): a '>' needs a non-empty own stack, and an
   * attacker's face-up '?' is refused on an empty own stack; the card
   * spliceCardFromHand finds goes onto the player's own stack with `up`, and
   * a face-up '>' or '?' starts a combat as from a break.
   *
   * Lane 6 (the attacker deck, which checkOpSyntax lets through as '6') has
   * no stacks: reading its stack throws a TypeError, before the splice for a
   * '>' or a face-up '?', and otherwise after the card has left the hand.
   */
  function PlayCard(b: Board, pid: string, lane: nat, value: Value, sign: Option<Sign>, up: bool, shuffle: Shuffler): (r: (Outcome, Board))
    requires Sound(b.state) && lane <= 6
    ensures SameShape(r.1.state, b.state)
  {
    var s := b.state;
    match SplitPid(pid)
    case None => (Threw(IllegalPlayerId), b)
    case Some(p) =>
      match Seat(s, pid)
      case None => (Threw(HandNotArray), b)
      case Some(hand) =>
        if lane == 6 then
          if ReadsMissingStack(value, up) then (Threw(StackMissing), b)
          else match SpliceCard(Get(s, hand), value, sign)
            case None => (Returned(false), b)
            case Some((_, rest)) => (Threw(StackMissing), b.(state := Put(s, hand, rest)))
        else if value == Break && |Get(s, Stack(p, lane))| == 0 then (Returned(false), b)
        else if value == Bounce && up && |Get(s, Stack(p, lane))| == 0 && p == Attacker then (Returned(false), b)
        else match SpliceCard(Get(s, hand), value, sign)
          case None => (Returned(false), b)
          case Some((c, rest)) =>
            var b1 := b.(state := Transfer(s, hand, rest, Stack(p, lane), [c.(up := up)]));
            if up && (c.value == Break || c.value == Bounce) then Combat(b1, pid, lane, true, shuffle)
            else (Returned(true), b1)
  }

  /** Whether playCard reads the own stack's length before the splice: for a '>', and for a face-up '?'. */
  predicate ReadsMissingStack(value: Value, up: bool)
  {
    value == Break || (value == Bounce && up)
  }

  /** Whether playCard turns the play down before touching the hand. */
  predicate PlayRefused(s: State, p: Team, lane: nat, value: Value, up: bool)
    requires |s.lanes| == 6 && lane < 6
  {
    (value == Break && |Get(s, Stack(p, lane))| == 0) ||
    (value == Bounce && up && |Get(s, Stack(p, lane))| == 0 && p == Attacker)
  }

  /** The board after spliceCardFromHand has taken the card out of the hand, and before it lands anywhere. */
  function Spliced(b: Board, hand: Zone, value: Value, sign: Option<Sign>): (r: Board)
    requires HasZone(b.state, hand) && SpliceCard(Get(b.state, hand), value, sign).Some?
    ensures SameShape(r.state, b.state)
  {
    b.(state := Put(b.state, hand, SpliceCard(Get(b.state, hand), value, sign).value.1))
  }

  /** The board after the card leaves the hand for the player's own stack. */
  function Played(b: Board, hand: Zone, p: Team, lane: nat, value: Value, sign: Option<Sign>, up: bool): (r: Board)
    requires Sound(b.state) && lane < 6 && HasZone(b.state, hand) && hand.Hand?
    requires SpliceCard(Get(b.state, hand), value, sign).Some?
    ensures SameShape(r.state, b.state)
  {
    b.(state := MoveCard(b.state, hand, FirstFit(Get(b.state, hand), value, sign).value, Stack(p, lane), up))
  }

  lemma PlayCases(b: Board, pid: string, lane: nat, value: Value, sign: Option<Sign>, up: bool, shuffle: Shuffler)
    requires Sound(b.state) && lane <= 6
    ensures var r := PlayCard(b, pid, lane, value, sign, up, shuffle);
      var stopped := lane == 6 && ReadsMissingStack(value, up);
      if Seat(b.state, pid).None? || stopped || (lane < 6 && PlayRefused(b.state, SplitPid(pid).value, lane, value, up)) ||
         SpliceCard(Get(b.state, Seat(b.state, pid).value), value, sign).None?
      then r.1 == b && (r.0.Threw? <==> Seat(b.state, pid).None? || stopped)
      else if lane == 6 then r == (Threw(StackMissing), Spliced(b, Seat(b.state, pid).value, value, sign))
      else
        var b1 := Played(b, Seat(b.state, pid).value, SplitPid(pid).value, lane, value, sign, up);
        r == if up && (value == Break || value == Bounce) then Combat(b1, pid, lane, true, shuffle) else (Returned(true), b1)
  {
    var r := PlayCard(b, pid, lane, value, sign, up, shuffle);
    if Seat(b.state, pid).Some? && lane < 6 {
      var h := Get(b.state, Seat(b.state, pid).value);
      if SpliceCard(h, value, sign).Some? {
        SpliceCardTakesOne(h, value, sign);
      }
    }
  }

  lemma PlayedMovesCard(b: Board, hand: Zone, p: Team, lane: nat, value: Value, sign: Option<Sign>, up: bool)
    requires Sound(b.state) && lane < 6 && HasZone(b.state, hand) && hand.Hand?
    requires SpliceCard(Get(b.state, hand), value, sign).Some?
    ensures var h := Get(b.state, hand); var i := FirstFit(h, value, sign).value;
      var r := Played(b, hand, p, lane, value, sign, up).state;
      Get(r, hand) == h[..i] + h[i + 1..] &&
      Get(r, Stack(p, lane)) == Get(b.state, Stack(p, lane)) + [h[i].(up := up)]
  {
    MoveCardMoves(b.state, hand, FirstFit(Get(b.state, hand), value, sign).value, Stack(p, lane), up);
  }

  lemma PlayedKeepsCards(b: Board, hand: Zone, p: Team, lane: nat, value: Value, sign: Option<Sign>, up: bool)
    requires Sound(b.state) && lane < 6 && HasZone(b.state, hand) && hand.Hand?
    requires SpliceCard(Get(b.state, hand), value, sign).Some?
    ensures Inventory(Played(b, hand, p, lane, value, sign, up).state) == Inventory(b.state)
  {
    MoveCardKeepsCards(b.state, hand, FirstFit(Get(b.state, hand), value, sign).value, Stack(p, lane), up);
  }

  /**
   * A play creates and loses no card, the combat it may start included,
   * unless it is a play to lane 6 that throws.
   */
  lemma PlayKeepsCards(b: Board, pid: string, lane: nat, value: Value, sign: Option<Sign>, up: bool, shuffle: Shuffler)
    requires Sound(b.state) && lane <= 6
    ensures var r := PlayCard(b, pid, lane, value, sign, up, shuffle);
      lane < 6 || r.0 != Threw(StackMissing) ==> Inventory(r.1.state) == Inventory(b.state)
  {
    PlayCases(b, pid, lane, value, sign, up, shuffle);
    if lane < 6 && Seat(b.state, pid).Some? && !PlayRefused(b.state, SplitPid(pid).value, lane, value, up) &&
       SpliceCard(Get(b.state, Seat(b.state, pid).value), value, sign).Some? {
      var b1 := Played(b, Seat(b.state, pid).value, SplitPid(pid).value, lane, value, sign, up);
      PlayedKeepsCards(b, Seat(b.state, pid).value, SplitPid(pid).value, lane, value, sign, up);
      if up && (value == Break || value == Bounce) {
        CombatKeepsCards(b1, pid, lane, true, shuffle);
      }
    }
  }

  /**
   * A play answers false exactly when it is refused or no card of the hand
   * fits, and then changes nothing; on lane 6 a '>' or face-up '?' is not
   * refused but throws, and no play answers true. A face-down play, or a
   * face-up play of any value but '>' and '?', puts the first fitting card
   * on top of the player's own stack; a face-up '>' or '?' that answers true
   * has fought the lane's combat, which empties the attacker stack.
   */
  lemma PlayOutcome(b: Board, pid: string, lane: nat, value: Value, sign: Option<Sign>, up: bool, shuffle: Shuffler)
    requires Sound(b.state) && lane <= 6 && Seat(b.state, pid).Some?
    ensures var r := PlayCard(b, pid, lane, value, sign, up, shuffle);
      var p := SplitPid(pid).value; var hand := Seat(b.state, pid).value; var h := Get(b.state, hand);
      (r.0 == Returned(false) <==>
        (lane < 6 && PlayRefused(b.state, p, lane, value, up)) ||
        (!(lane == 6 && ReadsMissingStack(value, up)) && FirstFit(h, value, sign).None?)) &&
      (r.0 == Returned(false) ==> r.1 == b) &&
      (r.0 == Returned(true) ==> lane < 6) &&
      (r.0 == Returned(true) && !(up && (value == Break || value == Bounce)) ==>
        var i := FirstFit(h, value, sign).value;
        Get(r.1.state, hand) == h[..i] + h[i + 1..] &&
        Get(r.1.state, Stack(p, lane)) == Get(b.state, Stack(p, lane)) + [h[i].(up := up)]) &&
      (r.0 == Returned(true) && up && (value == Break || value == Bounce) ==>
        Get(r.1.state, Stack(Attacker, lane)) == [])
  {
    PlayCases(b, pid, lane, value, sign, up, shuffle);
    var p := SplitPid(pid).value;
    var hand := Seat(b.state, pid).value;
    if lane < 6 && !PlayRefused(b.state, p, lane, value, up) && SpliceCard(Get(b.state, hand), value, sign).Some? {
      var b1 := Played(b, hand, p, lane, value, sign, up);
      PlayedMovesCard(b, hand, p, lane, value, sign, up);
      if up && (value == Break || value == Bounce) {
        CombatOutcome(b1, pid, lane, true, shuffle);
      }
    }
  }

  /**
   * A play to lane 6 never answers true. It answers false, changing
   * nothing, exactly when it is not a '>' or face-up '?' and no card fits;
   * otherwise it throws. A '>' or face-up '?' throws with the board
   * untouched; any other fitting card throws after leaving the hand, and the
   * board it leaves holds that card nowhere.
   */
  lemma PlayOnAttackerLane(b: Board, pid: string, value: Value, sign: Option<Sign>, up: bool, shuffle: Shuffler)
    requires Sound(b.state) && Seat(b.state, pid).Some?
    ensures var r := PlayCard(b, pid, 6, value, sign, up, shuffle);
      var hand := Seat(b.state, pid).value; var h := Get(b.state, hand);
      (r.0 == Returned(false) <==> !ReadsMissingStack(value, up) && FirstFit(h, value, sign).None?) &&
      (r.0 != Returned(false) ==> r.0 == Threw(StackMissing)) &&
      (ReadsMissingStack(value, up) || FirstFit(h, value, sign).None? ==> r.1 == b) &&
      (!ReadsMissingStack(value, up) && FirstFit(h, value, sign).Some? ==>
        var i := FirstFit(h, value, sign).value;
        Get(r.1.state, hand) == h[..i] + h[i + 1..] &&
        Inventory(r.1.state) + multiset{Id(h[i])} == Inventory(b.state))
  {
    PlayCases(b, pid, 6, value, sign, up, shuffle);
    var hand := Seat(b.state, pid).value;
    if !ReadsMissingStack(value, up) && FirstFit(Get(b.state, hand), value, sign).Some? {
      SplicedLosesCard(b, hand, value, sign);
    }
  }

  /** The splice alone takes the fitting card out of the hand and out of the board. */
  lemma SplicedLosesCard(b: Board, hand: Zone, value: Value, sign: Option<Sign>)
    requires Sound(b.state) && HasZone(b.state, hand) && FirstFit(Get(b.state, hand), value, sign).Some?
    ensures var h := Get(b.state, hand); var i := FirstFit(h, value, sign).value;
      var r := Spliced(b, hand, value, sign).state;
      Get(r, hand) == h[..i] + h[i + 1..] && Inventory(r) + multiset{Id(h[i])} == Inventory(b.state)
  {
    var h := Get(b.state, hand);
    var i := FirstFit(h, value, sign).value;
    var rest := h[..i] + h[i + 1..];
    InventoryPut(b.state, hand, rest);
    IdsRemoveAt(h, i);
    Cancel(Inventory(Put(b.state, hand, rest)) + multiset{Id(h[i])}, Inventory(b.state), Ids(rest));
  }

  // ---------------------------------------------------------------- runOp

  /**
   * runOp(as, op): an operation code that fails checkOpSyntax answers false;
   * otherwise its first character picks the move, with 'a' as lane 6 for
   * draws and discards and the lane character read by Number(); a 'c'
   * combat is not from a break.
   */
  function RunOp(b: Board, pid: string, op: string, shuffle: Shuffler): (r: (Outcome, Board))
    requires Sound(b.state)
    ensures SameShape(r.1.state, b.state)
  {
    match Ops.ParseOpAsWritten(op)
    case None => (Returned(false), b)
    case Some(o) =>
      match o
      case Draw(l) => DrawCard(b, pid, l, shuffle)
      case DiscardOp(c) => DiscardCard(b, pid, c.lane, c.value, c.sign, shuffle)
      case CombatOp(l) => Combat(b, pid, l, false, shuffle)
      case Play(c, up) => PlayCard(b, pid, c.lane, c.value, c.sign, up, shuffle)
  }

  /**
   * No operation creates or loses a card, except a play to lane 6 that
   * throws (and the dispatcher then saves nothing).
   */
  lemma RunOpKeepsCards(b: Board, pid: string, op: string, shuffle: Shuffler)
    requires Sound(b.state)
    ensures var r := RunOp(b, pid, op, shuffle);
      r.0 != Threw(StackMissing) ==> Inventory(r.1.state) == Inventory(b.state)
  {
    match Ops.ParseOpAsWritten(op)
    case None =>
    case Some(o) =>
      match o
      case Draw(l) => DrawCardKeepsCards(b, pid, l, shuffle);
      case DiscardOp(c) => DiscardKeepsCards(b, pid, c.lane, c.value, c.sign, shuffle);
      case CombatOp(l) => CombatKeepsCards(b, pid, l, false, shuffle);
      case Play(c, up) => PlayKeepsCards(b, pid, c.lane, c.value, c.sign, up, shuffle);
  }

  /**
   * An operation that fails the syntax check answers false and changes
   * nothing, and so does a defender's 'c': a defender fights only through a
   * face-up '>' or '?'.
   */
  lemma RunOpRefusals(b: Board, pid: string, op: string, shuffle: Shuffler)
    requires Sound(b.state)
    ensures !Ops.CheckOpSyntaxAsWritten(op) ==> RunOp(b, pid, op, shuffle) == (Returned(false), b)
    ensures Ops.CheckOpSyntaxAsWritten(op) && op[0] == 'c' && SplitPid(pid) == Some(Defender) ==>
      RunOp(b, pid, op, shuffle) == (Returned(false), b)
  {
    if Ops.CheckOpSyntaxAsWritten(op) && op[0] == 'c' {
      var l := Ops.NumberOfChar(op[1]).value;
      assert Ops.ParseOpAsWritten(op) == Some(Ops.CombatOp(l));
      CombatOutcome(b, pid, l, false, shuffle);
    }
  }
}
