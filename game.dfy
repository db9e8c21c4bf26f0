// The game object of binmat_api.ts and the functions that change it in
// place: drawCard, discardCard, playCard, bounceCombat, combat,
// spliceCardFromHand, runOp, runTurn, queueOp and createGameState. Each
// method carries out its move step by step on the fields and is proved to
// leave what the matching function of Rules describes.
//
// Hands are independent sequences. createGameState fills the hands with
// Array(n).fill([]), which makes every hand of a team the same array; the
// model gives each seat a hand of its own.
module Engine {
  import opened Cards
  import opened Rng
  import opened Power
  import opened Rules
  import opened Turns
  import Ops
  import Deal

  datatype Status = Lobby | Ongoing | Completed

  // ---------------------------------------------------------------- createGameState

  /** The lanes createGameState builds around the dealt decks: nothing else in them, the top card up in lanes 3..5. */
  function OpeningLanes(decks: seq<seq<Card>>): (r: seq<Lane>)
    requires |decks| == 6
    ensures |r| == 6
  {
    seq(6, i requires 0 <= i < 6 => Lane(CombatStack([], false), CombatStack([], false), TopUp(decks[i], i), []))
  }

  /** The board createGameState sets up from the hashed seed, with empty hands for each team's seats. */
  function Opening(seed: Seed, attackers: nat, defenders: nat): (r: State)
    ensures |r.lanes| == 6 && |r.attackerHands| == attackers && |r.defenderHands| == defenders
  {
    Deal.DealtDeals(seed);
    OpeningTable(Deal.Dealt(seed), attackers, defenders)
  }

  /** The board around six dealt decks. */
  function OpeningTable(decks: seq<seq<Card>>, attackers: nat, defenders: nat): State
    requires |decks| == 6
  {
    State(OpeningLanes(decks), [], [], seq(attackers, _ => []), seq(defenders, _ => []))
  }

  /** The board around the decks holds exactly the decks' cards. */
  lemma OpeningTableKeepsCards(decks: seq<seq<Card>>, attackers: nat, defenders: nat)
    requires |decks| == 6
    ensures Inventory(OpeningTable(decks, attackers, defenders)) == PilesIds(decks)
  {
    var s := OpeningTable(decks, attackers, defenders);
    forall i | 0 <= i < 6 ensures LaneIds(s.lanes[i]) == Ids(decks[i]) {
      IdsTopUp(decks[i], i);
    }
    LanesOfPiles(s.lanes, decks);
    Deal.EmptyPilesHoldNothing(s.attackerHands);
    Deal.EmptyPilesHoldNothing(s.defenderHands);
  }

  /** Lanes whose cards are those of the piles, lane by lane, hold the piles' cards. */
  lemma {:induction false} LanesOfPiles(ls: seq<Lane>, piles: seq<seq<Card>>)
    requires |ls| == |piles| && forall i :: 0 <= i < |ls| ==> LaneIds(ls[i]) == Ids(piles[i])
    ensures LanesIds(ls) == PilesIds(piles)
    decreases |ls|
  {
    if |ls| > 0 {
      var n := |ls| - 1;
      LanesOfPiles(ls[..n], piles[..n]);
    }
  }

  /** The opening board holds each of the 78 cards exactly once. */
  lemma OpeningKeepsCards(seed: Seed, attackers: nat, defenders: nat)
    ensures Inventory(Opening(seed, attackers, defenders)) == FullInventory()
  {
    Deal.DealtDeals(seed);
    OpeningTableKeepsCards(Deal.Dealt(seed), attackers, defenders);
  }

  /**
   * On the opening board each lane deck holds 13 cards, face-down but for
   * the top card of lanes 3..5, and the discards, the combat stacks, the
   * attacker deck and discard and every hand are empty.
   */
  lemma OpeningLayout(seed: Seed, attackers: nat, defenders: nat)
    ensures var s := Opening(seed, attackers, defenders);
      |s.lanes| == 6 && |s.attackerHands| == attackers && |s.defenderHands| == defenders &&
      (forall l :: 0 <= l < 6 ==>
        |Get(s, Deck(l))| == 13 && Get(s, Discard(l)) == [] &&
        Get(s, Stack(Attacker, l)) == [] && Get(s, Stack(Defender, l)) == []) &&
      (forall l, i :: 0 <= l < 6 && 0 <= i < 13 ==> (Get(s, Deck(l))[i].up <==> i == 12 && 3 <= l)) &&
      Get(s, Deck(6)) == [] && Get(s, Discard(6)) == [] &&
      (forall i :: 0 <= i < attackers ==> Get(s, Hand(Attacker, i)) == []) &&
      (forall i :: 0 <= i < defenders ==> Get(s, Hand(Defender, i)) == [])
  {
    Deal.DealtDeals(seed);
    OpeningTableLayout(Deal.Dealt(seed), attackers, defenders);
  }

  lemma OpeningTableLayout(decks: seq<seq<Card>>, attackers: nat, defenders: nat)
    requires |decks| == 6 && Deal.DecksDown(decks) && forall l :: 0 <= l < 6 ==> |decks[l]| == 13
    ensures var s := OpeningTable(decks, attackers, defenders);
      |s.lanes| == 6 && |s.attackerHands| == attackers && |s.defenderHands| == defenders &&
      (forall l :: 0 <= l < 6 ==>
        |Get(s, Deck(l))| == 13 && Get(s, Discard(l)) == [] &&
        Get(s, Stack(Attacker, l)) == [] && Get(s, Stack(Defender, l)) == []) &&
      (forall l, i :: 0 <= l < 6 && 0 <= i < 13 ==> (Get(s, Deck(l))[i].up <==> i == 12 && 3 <= l)) &&
      Get(s, Deck(6)) == [] && Get(s, Discard(6)) == [] &&
      (forall i :: 0 <= i < attackers ==> Get(s, Hand(Attacker, i)) == []) &&
      (forall i :: 0 <= i < defenders ==> Get(s, Hand(Defender, i)) == [])
  {
    var s := OpeningTable(decks, attackers, defenders);
    forall l, i | 0 <= l < 6 && 0 <= i < 13 ensures Get(s, Deck(l))[i].up <==> i == 12 && 3 <= l {
      assert Deal.AllDown(decks[l]);
    }
  }

  /** The game record: its state, its generator seed, the seats, the log and the turn bookkeeping. */
  class Game {
    var state: State
    var seed: Seed
    var players: seq<User>
    var binlog: seq<string>
    var turn: nat
    var queuedOps: map<string, string>
    var status: Status
    var nextOrd: seq<string>
    /** settings.turnLimit */
    const turnLimit: nat
    /** What shuffleArray does with the generator (see Rules.Shuffler). */
    const shuffle: Shuffler

    /** Six lanes, at most 16 seats a team, and every one of the 78 cards in exactly one zone. */
    predicate Valid()
      reads this
    {
      Sound(state) && Inventory(state) == FullInventory()
    }

    /** Everything but the board and the seed: what the moves leave alone. */
    function Meta(): (seq<User>, seq<string>, nat, map<string, string>, Status, seq<string>)
      reads this
    {
      (players, binlog, turn, queuedOps, status, nextOrd)
    }

    /** What a turn reads and writes. */
    function Snap(): Snapshot
      reads this
    {
      Snapshot(Board(state, seed), players, binlog, turn, queuedOps, nextOrd)
    }

    /** The fields createGameState writes, around a board already dealt. */
    constructor Opened(opening: State, final: Seed, players: seq<User>, turnLimit: nat, shuffle: Shuffler)
      requires Sound(opening) && Inventory(opening) == FullInventory()
      ensures Valid()
      ensures state == opening && seed == final
      ensures this.players == players && binlog == [] && turn == 0 && queuedOps == map[]
      ensures status == Ongoing && nextOrd == NextOrd(players)
      ensures this.turnLimit == turnLimit && this.shuffle == shuffle
    {
      state := opening;
      seed := final;
      this.players := players;
      binlog := [];
      turn := 0;
      queuedOps := map[];
      status := Ongoing;
      nextOrd := NextOrd(players);
      this.turnLimit := turnLimit;
      this.shuffle := shuffle;
    }

    /**
     * createGameState(game, seed): the seed string is hashed into the
     * generator's state, the 78 cards are dealt into the six lane decks, each
     * team gets one empty hand per seat, and the game opens at turn 0 with the
     * generator left where the deal stopped.
     */
    static method CreateGameState(seedText: string, players: seq<User>, turnLimit: nat, shuffle: Shuffler)
      returns (g: Game)
      requires TeamCount(players, Attacker) <= 16 && TeamCount(players, Defender) <= 16
      ensures fresh(g) && g.Valid()
      ensures g.state == Opening(Hash128(seedText), TeamCount(players, Attacker), TeamCount(players, Defender))
      ensures g.seed == Advance(Hash128(seedText), 156)
      ensures g.players == players && g.binlog == [] && g.turn == 0 && g.queuedOps == map[]
      ensures g.status == Ongoing && g.nextOrd == NextOrd(players)
      ensures g.turnLimit == turnLimit && g.shuffle == shuffle
    {
      var attackers, defenders := TeamCount(players, Attacker), TeamCount(players, Defender);
      var opening, final := OpenBoard(seedText, attackers, defenders);
      g := new Game.Opened(opening, final, players, turnLimit, shuffle);
    }

    /** The board and generator state createGameState leaves: the hashed seed, the deal, the opening lanes. */
    static method OpenBoard(seedText: string, attackers: nat, defenders: nat) returns (opening: State, final: Seed)
      requires attackers <= 16 && defenders <= 16
      ensures opening == Opening(Hash128(seedText), attackers, defenders)
      ensures Sound(opening) && Inventory(opening) == FullInventory()
      ensures final == Advance(Hash128(seedText), 156)
    {
      var hash := Cyrb128(seedText);
      var decks;
      decks, final := Deal.DealDecks(hash);
      var lanes := BuildLanes(decks);
      opening := State(lanes, [], [], seq(attackers, _ => []), seq(defenders, _ => []));
      assert opening == OpeningTable(decks, attackers, defenders);
      OpeningTableKeepsCards(decks, attackers, defenders);
    }

    /** The lanes around the dealt decks, with the top card of lanes 3..5 turned up. */
    static method BuildLanes(decks: seq<seq<Card>>) returns (lanes: seq<Lane>)
      requires |decks| == 6 && forall i :: 0 <= i < 6 ==> |decks[i]| == 13
      ensures lanes == OpeningLanes(decks)
    {
      lanes := [];
      for i := 0 to 6
        invariant |lanes| == i
        invariant forall j :: 0 <= j < i ==> lanes[j] == Lane(CombatStack([], false), CombatStack([], false), decks[j], [])
      {
        lanes := lanes + [Lane(CombatStack([], false), CombatStack([], false), decks[i], [])];
      }
      // turn the top card of lanes 3..5 up
      for i := 3 to 6
        invariant |lanes| == 6
        invariant forall j :: 0 <= j < 6 ==>
          lanes[j] == Lane(CombatStack([], false), CombatStack([], false), if j < i then TopUp(decks[j], j) else decks[j], [])
      {
        lanes := lanes[i := lanes[i].(deck := decks[i][12 := decks[i][12].(up := true)])];
      }
    }

    // ---------------------------------------------------------------- drawCard

    /** drawCard(pid, lane) */
    method DrawCard(pid: string, lane: nat) returns (o: Outcome)
      requires Sound(state) && lane <= 6
      modifies this
      ensures (o, Board(state, seed)) == Rules.DrawCard(old(Board(state, seed)), pid, lane, shuffle)
      ensures Meta() == old(Meta())
      ensures old(Valid()) ==> Valid()
    {
      DrawCardKeepsCards(Board(state, seed), pid, lane, shuffle);
      var team := SplitPid(pid);
      if team.None? {
        return Threw(IllegalPlayerId);
      }
      var t := team.value;
      var seat := Seat(state, pid);
      if seat.None? {
        return Threw(HandNotArray);
      }
      var hand := seat.value;
      if t == Attacker && lane < 6 && |Get(state, Stack(Defender, lane))| > 0 {
        return Returned(false);
      }
      if t == Defender && lane == 6 {
        return Returned(false);
      }
      ghost var b := Board(state, seed);
      if |Get(state, Deck(lane))| == 0 {
        if |Get(state, Discard(lane))| == 0 {
          if lane == 6 || t == Defender {
            return Returned(false);
          }
          return Threw(GameOver(Attacker));
        }
        Refill(lane);
      }
      TakeTop(lane, hand);
      assert Board(state, seed) == Drawn(b, lane, hand, shuffle);
      o := Returned(true);
    }

    /** The discard of the lane, shuffled and face-down, becomes its deck; the discard is emptied. */
    method Refill(lane: nat)
      requires Sound(state) && lane <= 6
      modifies this
      ensures Board(state, seed) == Rules.Refill(old(Board(state, seed)), lane, shuffle)
      ensures Meta() == old(Meta())
    {
      var (order, seed') := shuffle(Get(state, Discard(lane)), seed);
      seed := seed';
      state := Put(state, Discard(lane), []);
      state := Put(state, Deck(lane), TopUp(WithUp(order, false), lane));
    }

    /** Pop the deck's top card into the hand, face-down; in lanes 3..5 the next card turns up. */
    method TakeTop(lane: nat, hand: Zone)
      requires Sound(state) && lane <= 6 && HasZone(state, hand) && hand.Hand? && |Get(state, Deck(lane))| > 0
      modifies this
      ensures state == Rules.TakeTop(old(state), lane, hand) && seed == old(seed)
      ensures Meta() == old(Meta())
    {
      var deck := Get(state, Deck(lane));
      var held := Get(state, hand);
      var card := deck[|deck| - 1];
      deck := deck[..|deck| - 1];
      state := Put(state, Deck(lane), deck);
      state := Put(state, hand, held + [card.(up := false)]);
      state := Put(state, Deck(lane), TopUp(deck, lane));
    }

    // ---------------------------------------------------------------- combat

    /** One trap loop of combat: up to `k` pops of `from`, each card face-up onto `to`, stopping once `from` is empty. */
    method PopTraps(from: Zone, to: Zone, k: nat)
      requires Sound(state) && HasZone(state, from) && HasZone(state, to) && from != to
      modifies this
      ensures state == Spill(old(state), from, to, k) && seed == old(seed)
      ensures Meta() == old(Meta())
    {
      ghost var s0 := state;
      SpillNone(s0, from, to);
      var i := 0;
      while i < k
        invariant i <= k && i <= |Get(s0, from)|
        invariant state == Spill(s0, from, to, i) && seed == old(seed)
        invariant Meta() == old(Meta())
      {
        SpillLeaves(s0, from, to, i);
        if |Get(state, from)| == 0 {
          break;
        }
        SpillStep(s0, from, to, i);
        state := PopOnto(state, from, to);
        i := i + 1;
      }
      SpillLeaves(s0, from, to, i);
      SpillSaturates(s0, from, to, i, k);
    }

    /** The damage loop of combat: pop the defender stack onto the attacker discard while it holds cards, else draw. */
    method Damage(pid: string, lane: nat, damage: nat) returns (o: Outcome)
      requires Sound(state) && lane < 6
      modifies this
      ensures (o, Board(state, seed)) == DamageLoop(old(Board(state, seed)), pid, lane, 0, damage, shuffle)
      ensures Meta() == old(Meta())
    {
      ghost var r := DamageLoop(Board(state, seed), pid, lane, 0, damage, shuffle);
      var i := 0;
      while i < damage
        invariant Sound(state) && i <= damage
        invariant DamageLoop(Board(state, seed), pid, lane, i, damage, shuffle) == r
        invariant Meta() == old(Meta())
        decreases damage - i
      {
        var usePid := if |pid| > 0 && pid[0] == 'a' then pid else DamagePidAsWritten(i, |state.attackerHands|);
        if |Get(state, Stack(Defender, lane))| > 0 {
          state := PopOnto(state, Stack(Defender, lane), Discard(6));
        } else {
          o := DrawCard(usePid, lane);
          if o.Threw? {
            return;
          }
        }
        i := i + 1;
      }
      o := Returned(true);
    }

    /** bounceCombat(as, ds, ax) */
    method BounceCombat(lane: nat)
      requires Sound(state) && lane < 6
      modifies this
      ensures state == Rules.BounceCombat(old(state), lane) && seed == old(seed)
      ensures Meta() == old(Meta())
    {
      state := Dump(state, Stack(Attacker, lane), Discard(6));
      state := RevealDefender(state, lane);
    }

    /** combat(pid, lane, fromBreak) */
    method Combat(pid: string, lane: nat, fromBreak: bool) returns (o: Outcome)
      requires Sound(state) && lane < 6
      modifies this
      ensures (o, Board(state, seed)) == Rules.Combat(old(Board(state, seed)), pid, lane, fromBreak, shuffle)
      ensures Meta() == old(Meta())
      ensures old(Valid()) ==> Valid()
    {
      ghost var b := Board(state, seed);
      CombatCases(b, pid, lane, fromBreak, shuffle);
      CombatKeepsCards(b, pid, lane, fromBreak, shuffle);
      var team := SplitPid(pid);
      if team.None? {
        return Threw(IllegalPlayerId);
      }
      var p := team.value;
      var opp := Other(p);
      if p == Defender && !fromBreak {
        return Returned(false);
      }
      // the initiator's traps fire first; the opponent's are counted in what is left
      var traps := CountValue(Get(state, Stack(p, lane)), Trap);
      PopTraps(Stack(opp, lane), TeamDiscard(p, lane), traps);
      traps := CountValue(Get(state, Stack(opp, lane)), Trap);
      PopTraps(Stack(p, lane), TeamDiscard(opp, lane), traps);
      assert state == Traps(b.state, p, lane);
      o := Fight(pid, lane);
    }

    /** combat after the traps: the powers, then bounce, defender win or attacker win with damage. */
    method Fight(pid: string, lane: nat) returns (o: Outcome)
      requires Sound(state) && lane < 6
      modifies this
      ensures (o, Board(state, seed)) == Rules.Fight(old(Board(state, seed)), pid, lane, shuffle)
      ensures Meta() == old(Meta())
    {
      ghost var b := Board(state, seed);
      var aStack, dStack := Get(state, Stack(Attacker, lane)), Get(state, Stack(Defender, lane));
      var powA := CalcStackPow(aStack);
      var powD := CalcStackPow(dStack);
      if powA.None? || powD.None? {
        return Threw(WildOverflow);
      }
      var res;
      if CountValue(aStack, Bounce) > 0 || CountValue(dStack, Bounce) > 0 {
        res := BounceCards;
      } else if powA.value == 0 && powD.value == 0 {
        res := NoPower;
      } else if powA.value < powD.value {
        res := DefenderWins;
      } else if CountValue(aStack, Break) + CountValue(dStack, Break) > 0 {
        res := AttackerWins(Max(powA.value, |dStack|));
      } else {
        res := AttackerWins(powA.value - powD.value + 1);
      }
      assert res == Resolve(aStack, dStack, powA.value, powD.value);
      o := Settle(pid, lane, res);
    }

    /** The branch of combat that `res` names, carried out on the stacks. */
    method Settle(pid: string, lane: nat, res: Resolution) returns (o: Outcome)
      requires Sound(state) && lane < 6
      modifies this
      ensures (o, Board(state, seed)) == Resolved(old(Board(state, seed)), pid, lane, res, shuffle)
      ensures Meta() == old(Meta())
    {
      match res
      case BounceCards =>
        // each '?' goes to the other team's discard, then the combat bounces
        state := SendOut(state, Stack(Attacker, lane), Discard(lane), Bounce);
        state := SendOut(state, Stack(Defender, lane), Discard(6), Bounce);
        BounceCombat(lane);
        o := Returned(true);
      case NoPower =>
        BounceCombat(lane);
        o := Returned(true);
      case DefenderWins =>
        state := Dump(state, Stack(Attacker, lane), Discard(lane));
        state := RevealDefender(state, lane);
        o := Returned(true);
      case AttackerWins(damage) =>
        state := Dump(state, Stack(Attacker, lane), Discard(6));
        o := Damage(pid, lane, damage);
    }

    // ---------------------------------------------------------------- spliceCardFromHand

    /**
     * spliceCardFromHand on the seat's hand: fitsValue is built by a filter,
     * the position is chosen in the source's order of tests (with a find on
     * the sign when one is given), and the card is cut out of the hand.
     */
    method SpliceCardFromHand(hand: Zone, value: Value, sign: Option<Sign>) returns (c: Option<Card>)
      requires Sound(state) && HasZone(state, hand) && hand.Hand?
      modifies this
      ensures match SpliceCard(old(Get(state, hand)), value, sign)
        case None => c.None? && state == old(state)
        case Some((card, rest)) => c == Some(card) && state == Put(old(state), hand, rest)
      ensures seed == old(seed) && Meta() == old(Meta())
    {
      var h := Get(state, hand);
      var k := SpliceAt(h, value, sign);
      SpliceIndexIsFirstFit(h, value, sign);
      if k.None? {
        return None;
      }
      c := Some(h[k.value]);
      state := Put(state, hand, h[..k.value] + h[k.value + 1..]);
    }

    /** The position spliceCardFromHand cuts out of `h`, found in the source's order of tests. */
    static method SpliceAt(h: seq<Card>, value: Value, sign: Option<Sign>) returns (k: Option<nat>)
      ensures k == SpliceIndex(h, value, sign)
    {
      var fits := FilterValue(h, value);
      if |fits| > 1 && sign.None? {
        k := Some(fits[0]);
      } else if |fits| == 0 {
        k := None;
      } else if sign.Some? {
        k := FindSign(h, fits, sign.value);
      } else {
        k := Some(fits[0]);
      }
    }

    /** hand.filter(el => el.value === value), as positions in the hand. */
    static method FilterValue(h: seq<Card>, value: Value) returns (fits: seq<nat>)
      ensures fits == FitsValue(h, value)
    {
      fits := [];
      var i := 0;
      while i < |h|
        invariant i <= |h| && fits == FitsValue(h[..i], value)
      {
        assert h[..i + 1][..i] == h[..i];
        if h[i].value == value {
          fits := fits + [i];
        }
        i := i + 1;
      }
      assert h[..i] == h;
    }

    /** fitsValue.find(el => el.sign === sign), giving the card's position in the hand. */
    static method FindSign(h: seq<Card>, fits: seq<nat>, sign: Sign) returns (k: Option<nat>)
      ensures k == FirstWithSign(h, fits, sign)
    {
      var j := 0;
      while j < |fits|
        invariant j <= |fits| && FirstWithSign(h, fits, sign) == FirstWithSign(h, fits[j..], sign)
      {
        if fits[j] < |h| && h[fits[j]].sign == sign {
          return Some(fits[j]);
        }
        assert fits[j..][1..] == fits[j + 1..];
        j := j + 1;
      }
      k := None;
    }

    // ---------------------------------------------------------------- discardCard and playCard

    /** The card spliceCardFromHand finds is pushed onto zone `to` with `up` set; false when no card fits. */
    method MoveFromHand(hand: Zone, to: Zone, value: Value, sign: Option<Sign>, up: bool) returns (moved: bool)
      requires Sound(state) && HasZone(state, hand) && hand.Hand? && HasZone(state, to) && !to.Hand?
      modifies this
      ensures moved <==> FirstFit(old(Get(state, hand)), value, sign).Some?
      ensures moved ==> state == MoveCard(old(state), hand, FirstFit(old(Get(state, hand)), value, sign).value, to, up)
      ensures !moved ==> state == old(state)
      ensures seed == old(seed) && Meta() == old(Meta())
    {
      ghost var s := state;
      var card := SpliceCardFromHand(hand, value, sign);
      if card.None? {
        return false;
      }
      PutFrame(s, hand, Get(state, hand), to);
      state := Put(state, to, Get(state, to) + [card.value.(up := up)]);
      moved := true;
    }

    /** discardCard(pid, lane, card) */
    method DiscardCard(pid: string, lane: nat, value: Value, sign: Option<Sign>) returns (o: Outcome)
      requires Sound(state) && lane <= 6
      modifies this
      ensures (o, Board(state, seed)) == Rules.DiscardCard(old(Board(state, seed)), pid, lane, value, sign, shuffle)
      ensures Meta() == old(Meta())
      ensures old(Valid()) ==> Valid()
    {
      DiscardKeepsCards(Board(state, seed), pid, lane, value, sign, shuffle);
      o := DiscardSteps(pid, lane, value, sign);
    }

    /** The steps of discardCard: the card face-up onto the discard, then on lane 6 two draws. */
    method DiscardSteps(pid: string, lane: nat, value: Value, sign: Option<Sign>) returns (o: Outcome)
      requires Sound(state) && lane <= 6
      modifies this
      ensures (o, Board(state, seed)) == Rules.DiscardCard(old(Board(state, seed)), pid, lane, value, sign, shuffle)
      ensures Meta() == old(Meta())
    {
      ghost var b := Board(state, seed);
      DiscardCases(b, pid, lane, value, sign, shuffle);
      var team := SplitPid(pid);
      if team.None? {
        return Threw(IllegalPlayerId);
      }
      if team.value == Defender && lane == 6 {
        return Returned(false);
      }
      var seat := Seat(state, pid);
      if seat.None? {
        return Threw(HandNotArray);
      }
      var hand := seat.value;
      // the card goes face-up onto the discard
      var moved := MoveFromHand(hand, Discard(lane), value, sign, true);
      if !moved {
        return Returned(false);
      }
      if lane == 6 {
        // the two draws from the attacker deck; their results are ignored
        var first := DrawCard(pid, 6);
        var second := DrawCard(pid, 6);
      }
      o := Returned(true);
    }

    /** playCard(pid, lane, card, up); lane 6 has no stacks, and the play throws on reaching one. */
    method PlayCard(pid: string, lane: nat, value: Value, sign: Option<Sign>, up: bool) returns (o: Outcome)
      requires Sound(state) && lane <= 6
      modifies this
      ensures (o, Board(state, seed)) == Rules.PlayCard(old(Board(state, seed)), pid, lane, value, sign, up, shuffle)
      ensures Meta() == old(Meta())
      ensures old(Valid()) && (lane < 6 || o != Threw(StackMissing)) ==> Valid()
    {
      PlayKeepsCards(Board(state, seed), pid, lane, value, sign, up, shuffle);
      o := PlaySteps(pid, lane, value, sign, up);
    }

    /** The steps of playCard: the refusals, the splice, the push onto the own stack, the combat a face-up '>' or '?' starts. */
    method PlaySteps(pid: string, lane: nat, value: Value, sign: Option<Sign>, up: bool) returns (o: Outcome)
      requires Sound(state) && lane <= 6
      modifies this
      ensures (o, Board(state, seed)) == Rules.PlayCard(old(Board(state, seed)), pid, lane, value, sign, up, shuffle)
      ensures Meta() == old(Meta())
    {
      ghost var b := Board(state, seed);
      PlayCases(b, pid, lane, value, sign, up, shuffle);
      var team := SplitPid(pid);
      if team.None? {
        return Threw(IllegalPlayerId);
      }
      var p := team.value;
      var seat := Seat(state, pid);
      if seat.None? {
        return Threw(HandNotArray);
      }
      var hand := seat.value;
      if lane == 6 {
        // reading the missing stack's cards throws before the splice
        if ReadsMissingStack(value, up) {
          return Threw(StackMissing);
        }
        var card := SpliceCardFromHand(hand, value, sign);
        if card.None? {
          return Returned(false);
        }
        // pushing onto the missing stack throws after the splice
        return Threw(StackMissing);
      }
      var stack := Get(state, Stack(p, lane));
      if value == Break && |stack| == 0 {
        return Returned(false);
      }
      if value == Bounce && up && |stack| == 0 && p == Attacker {
        return Returned(false);
      }
      var moved := MoveFromHand(hand, Stack(p, lane), value, sign, up);
      if !moved {
        return Returned(false);
      }
      // the card played has the value asked for
      if up && (value == Break || value == Bounce) {
        o := Combat(pid, lane, true);
        return;
      }
      o := Returned(true);
    }

    // ---------------------------------------------------------------- runOp, runTurn and queueOp

    /** runOp(as, op): checkOpSyntax and getCardAndLaneFromOp, then the move the first character names. */
    method RunOp(pid: string, op: string) returns (o: Outcome)
      requires Sound(state)
      modifies this
      ensures (o, Board(state, seed)) == Rules.RunOp(old(Board(state, seed)), pid, op, shuffle)
      ensures Meta() == old(Meta())
      ensures old(Valid()) && o != Threw(StackMissing) ==> Valid()
    {
      var parsed := Ops.ParseOpAsWritten(op);
      if parsed.None? {
        return Returned(false);
      }
      ghost var b := Board(state, seed);
      RunOpKeepsCards(b, pid, op, shuffle);
      match parsed.value
      case Draw(l) =>
        o := DrawCard(pid, l);
      case DiscardOp(c) =>
        o := DiscardCard(pid, c.lane, c.value, c.sign);
      case CombatOp(l) =>
        o := Combat(pid, l, false);
      case Play(c, up) =>
        o := PlayCard(pid, c.lane, c.value, c.sign, up);
    }

    /**
     * One pass of runTurn's loop: the seat must be among the players; its
     * queued op, if any, runs; its no-op counter is reset or raised.
     */
    method PlaySeat(pid: string) returns (o: Outcome)
      requires Sound(state)
      modifies this
      ensures (o, Board(state, seed), players) == SeatTurn(old(Board(state, seed)), old(players), pid, queuedOps, shuffle)
      ensures binlog == old(binlog) && turn == old(turn) && queuedOps == old(queuedOps)
      ensures status == old(status) && nextOrd == old(nextOrd)
    {
      var k := FindPlayer(players, pid);
      if k.None? {
        return Threw(PlayerNotFound);
      }
      var valid := false;
      if pid in queuedOps {
        o := RunOp(pid, queuedOps[pid]);
        if o.Threw? {
          return;
        }
        valid := o.ok;
      }
      // kickPlayer is a no-op, so a long run of no-ops changes nothing else
      players := players[k.value := Tally(players[k.value], valid)];
      o := Returned(true);
    }

    /** The loop of runTurn over the seats of `ord`, stopping at the first error. */
    method PlaySeats(ord: seq<string>) returns (o: Outcome)
      requires Sound(state)
      modifies this
      ensures (o, Board(state, seed), players) == PlayOrder(old(Board(state, seed)), old(players), ord, queuedOps, shuffle)
      ensures binlog == old(binlog) && turn == old(turn) && queuedOps == old(queuedOps)
      ensures status == old(status) && nextOrd == old(nextOrd)
    {
      ghost var r := PlayOrder(Board(state, seed), players, ord, queuedOps, shuffle);
      var i := 0;
      while i < |ord|
        invariant i <= |ord| && Sound(state)
        invariant PlayOrder(Board(state, seed), players, ord[i..], queuedOps, shuffle) == r
        invariant binlog == old(binlog) && turn == old(turn) && queuedOps == old(queuedOps)
        invariant status == old(status) && nextOrd == old(nextOrd)
      {
        o := PlaySeat(ord[i]);
        if o.Threw? {
          return;
        }
        assert ord[i..][1..] == ord[i + 1..];
        i := i + 1;
      }
      o := Returned(true);
    }

    /** runTurn(game) */
    method RunTurn() returns (o: Outcome)
      requires Sound(state)
      modifies this
      ensures (o, Snap()) == Turns.RunTurn(old(Snap()), turnLimit, shuffle)
      ensures status == old(status)
      ensures old(Valid()) && o != Threw(StackMissing) ==> Valid()
    {
      RunTurnKeepsCards(Snap(), turnLimit, shuffle);
      if turn == turnLimit {
        // endGame(game, 'd') throws
        o := Threw(GameOver(Defender));
      } else {
        o := PlayTurn();
      }
    }

    /** runTurn below the turn limit: log the turn, run the seats' ops, move to the next turn. */
    method PlayTurn() returns (o: Outcome)
      requires Sound(state) && turn != turnLimit
      modifies this
      ensures (o, Snap()) == Turns.RunTurn(old(Snap()), turnLimit, shuffle)
      ensures status == old(status)
    {
      ghost var g := Snap();
      var ord := OfTeam(nextOrd, TeamChar(TeamOfTurn(turn)));
      binlog := binlog + [TurnHeader(turn)];
      o := PlaySeats(ord);
      if !o.Threw? {
        turn := turn + 1;
        queuedOps := map[];
        o := Returned(true);
      }
      TurnPlayed(g, turnLimit, shuffle, o, Snap());
    }

    /** What runTurn leaves below the turn limit, given the run of the seats' ops and the fields after it. */
    static lemma TurnPlayed(g: Snapshot, turnLimit: nat, shuffle: Shuffler, o: Outcome, after: Snapshot)
      requires Sound(g.board.state) && g.turn != turnLimit
      requires var played := PlayOrder(g.board, g.players, OfTeam(g.nextOrd, TeamChar(TeamOfTurn(g.turn))), g.queuedOps, shuffle);
        after.board == played.1 && after.players == played.2 && after.nextOrd == g.nextOrd &&
        after.binlog == g.binlog + [TurnHeader(g.turn)] &&
        (if played.0.Threw? then o == played.0 && after.turn == g.turn && after.queuedOps == g.queuedOps
         else o == Returned(true) && after.turn == g.turn + 1 && after.queuedOps == map[])
      ensures (o, after) == Turns.RunTurn(g, turnLimit, shuffle)
    {
      var played := PlayOrder(g.board, g.players, OfTeam(g.nextOrd, TeamChar(TeamOfTurn(g.turn))), g.queuedOps, shuffle);
      var logged := g.(binlog := g.binlog + [TurnHeader(g.turn)], board := played.1, players := played.2);
      if played.0.Threw? {
        assert after == logged;
      } else {
        assert after == logged.(turn := g.turn + 1, queuedOps := map[]);
      }
    }

    /** queueOp(op, as) */
    method QueueOp(op: string, pid: string) returns (o: Outcome)
      requires Sound(state)
      modifies this
      ensures (o, Snap()) == Turns.QueueOp(old(Snap()), op, pid, turnLimit, shuffle)
      ensures status == old(status)
      ensures old(Valid()) && o != Threw(StackMissing) ==> Valid()
    {
      var turnOf := TeamOfTurn(turn);
      if |pid| == 0 || pid[0] != TeamChar(turnOf) {
        return Returned(false);
      }
      if pid in queuedOps && queuedOps[pid] != "" {
        return Returned(false);
      }
      if !Ops.CheckOpSyntaxAsWritten(op) {
        return Returned(false);
      }
      queuedOps := queuedOps[pid := op];
      var waiting := Waiting(players, turnOf, queuedOps);
      if |waiting| == 0 {
        o := RunTurn();
      } else {
        o := Returned(true);
      }
    }

    /** The notSubmitted loop of queueOp: the seats of team `t` with no op queued. */
    static method Waiting(players: seq<User>, t: Team, ops: map<string, string>) returns (notSubmitted: seq<string>)
      ensures notSubmitted == NotSubmitted(players, t, ops)
    {
      notSubmitted := [];
      var i := 0;
      while i < |players|
        invariant i <= |players| && notSubmitted == NotSubmitted(players[..i], t, ops)
      {
        assert players[..i + 1][..i] == players[..i];
        var u := players[i];
        if u.Player? && u.team == t && u.id !in ops {
          notSubmitted := notSubmitted + [u.id];
        }
        i := i + 1;
      }
      assert players[..i] == players;
    }
  }
}
