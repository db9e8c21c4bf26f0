// Card and zone model of the binmat engine (binmat_api.ts, type definitions,
// getLane, splitPid and the hex seat numbering).
//
// Every zone that can hold cards (a lane deck or discard, the attacker deck
// and discard standing in as lane 6, a combat stack, a hand) is addressed by a
// `Zone`; `Get` reads it and `Put` writes it, the way the source writes through
// the array references that getLane hands out. `Inventory` is the multiset of
// card identities over all zones: card conservation is the statement that a
// move leaves it unchanged.
module Cards {

  datatype Option<T> = None | Some(value: T)

  // ---------------------------------------------------------------- values

  /** The pips 2..9; 'a' (ten) is a value of its own. */
  type Pip = n: int | 2 <= n <= 9 witness 2

  /** The thirteen card values, in the order of the source's cardValues table. */
  datatype Value = Num(pip: Pip) | Ace | Bounce | Break | Trap | Wild

  /** The six signs ^ + % & ! #, in the order of the source's cardSigns table. */
  datatype Sign = Caret | Plus | Percent | Ampersand | Bang | Hash

  function AllValues(): (r: seq<Value>)
    ensures |r| == 13
  {
    [Num(2), Num(3), Num(4), Num(5), Num(6), Num(7), Num(8), Num(9), Ace, Bounce, Break, Trap, Wild]
  }

  function AllSigns(): (r: seq<Sign>)
    ensures |r| == 6
  {
    [Caret, Plus, Percent, Ampersand, Bang, Hash]
  }

  function ValueChar(v: Value): char
  {
    match v
    case Num(n) => ['2', '3', '4', '5', '6', '7', '8', '9'][n - 2]
    case Ace => 'a'
    case Bounce => '?'
    case Break => '>'
    case Trap => '@'
    case Wild => '*'
  }

  /** The card value written by character `c`, if `c` is one of the thirteen value characters. */
  function ValueOfChar(c: char): (r: Option<Value>)
    ensures r.Some? <==> c in "23456789a?>@*"
  {
    if '2' <= c <= '9' then Some(Num((c - '0') as int))
    else if c == 'a' then Some(Ace)
    else if c == '?' then Some(Bounce)
    else if c == '>' then Some(Break)
    else if c == '@' then Some(Trap)
    else if c == '*' then Some(Wild)
    else None
  }

  function SignChar(s: Sign): char
  {
    match s
    case Caret => '^'
    case Plus => '+'
    case Percent => '%'
    case Ampersand => '&'
    case Bang => '!'
    case Hash => '#'
  }

  /** The sign written by character `c`, if `c` is one of the six sign characters. */
  function SignOfChar(c: char): (r: Option<Sign>)
    ensures r.Some? <==> c in "^+%&!#"
  {
    if c == '^' then Some(Caret)
    else if c == '+' then Some(Plus)
    else if c == '%' then Some(Percent)
    else if c == '&' then Some(Ampersand)
    else if c == '!' then Some(Bang)
    else if c == '#' then Some(Hash)
    else None
  }

  /** Value and sign characters are read back as what they write. */
  lemma CharRoundTrips(v: Value, s: Sign, c: char)
    ensures ValueOfChar(ValueChar(v)) == Some(v)
    ensures SignOfChar(SignChar(s)) == Some(s)
    ensures ValueOfChar(c).Some? ==> ValueChar(ValueOfChar(c).value) == c
    ensures SignOfChar(c).Some? ==> SignChar(SignOfChar(c).value) == c
  {
  }

  // ---------------------------------------------------------------- cards

  /** What identifies a card: exactly one card of each value and sign exists. */
  datatype CardId = CardId(value: Value, sign: Sign)

  /** A card where it lies: its identity and whether it is face-up (`up`). */
  datatype Card = Card(value: Value, sign: Sign, up: bool)

  function Id(c: Card): CardId
  {
    CardId(c.value, c.sign)
  }

  /** The multiset of identities of the cards in `s`. */
  function Ids(s: seq<Card>): multiset<CardId>
  {
    if |s| == 0 then multiset{} else Ids(s[..|s| - 1]) + multiset{Id(s[|s| - 1])}
  }

  /** `s` with every card's `up` flag set to `up` (the source's forEach that flips a stack). */
  function WithUp(s: seq<Card>, up: bool): (r: seq<Card>)
    ensures |r| == |s|
    ensures forall i :: 0 <= i < |s| ==> r[i] == s[i].(up := up)
  {
    if |s| == 0 then [] else WithUp(s[..|s| - 1], up) + [s[|s| - 1].(up := up)]
  }

  lemma {:induction false} IdsAppend(a: seq<Card>, b: seq<Card>)
    ensures Ids(a + b) == Ids(a) + Ids(b)
    decreases |b|
  {
    if |b| == 0 {
      assert a + b == a;
    } else {
      var last := b[|b| - 1];
      assert (a + b)[..|a + b| - 1] == a + b[..|b| - 1];
      IdsAppend(a, b[..|b| - 1]);
    }
  }

  lemma IdsPush(s: seq<Card>, c: Card)
    ensures Ids(s + [c]) == Ids(s) + multiset{Id(c)}
  {
    assert (s + [c])[..|s|] == s;
  }

  lemma IdsRemoveAt(s: seq<Card>, i: nat)
    requires i < |s|
    ensures Ids(s) == Ids(s[..i] + s[i + 1..]) + multiset{Id(s[i])}
  {
    assert s == s[..i] + [s[i]] + s[i + 1..];
    IdsAppend(s[..i] + [s[i]], s[i + 1..]);
    IdsAppend(s[..i], [s[i]]);
    IdsAppend(s[..i], s[i + 1..]);
    assert Ids([s[i]]) == multiset{Id(s[i])} by {
      assert [s[i]][..0] == [];
    }
  }

  /** Changing only the visibility of one card keeps the identities. */
  lemma IdsSetAt(s: seq<Card>, i: nat, c: Card)
    requires i < |s| && Id(c) == Id(s[i])
    ensures Ids(s[i := c]) == Ids(s)
  {
    IdsRemoveAt(s, i);
    IdsRemoveAt(s[i := c], i);
    assert s[i := c][..i] + s[i := c][i + 1..] == s[..i] + s[i + 1..];
  }

  lemma {:induction false} IdsWithUp(s: seq<Card>, up: bool)
    ensures Ids(WithUp(s, up)) == Ids(s)
    decreases |s|
  {
    if |s| > 0 {
      var w := WithUp(s, up);
      assert w[..|w| - 1] == WithUp(s[..|s| - 1], up);
      IdsWithUp(s[..|s| - 1], up);
    }
  }

  /** A reordering of a sequence of cards keeps its identities. */
  lemma {:induction false} IdsOfPermutation(a: seq<Card>, b: seq<Card>)
    requires multiset(a) == multiset(b)
    ensures Ids(a) == Ids(b)
    decreases |a|
  {
    if |a| == 0 {
      assert |b| == |multiset(b)| == 0;
    } else {
      var x := a[|a| - 1];
      assert a == a[..|a| - 1] + [x];
      assert x in multiset(b);
      var i :| 0 <= i < |b| && b[i] == x;
      var rest := b[..i] + b[i + 1..];
      assert b == b[..i] + [x] + b[i + 1..];
      assert multiset(rest) == multiset(b) - multiset{x};
      assert multiset(a[..|a| - 1]) == multiset(a) - multiset{x};
      IdsOfPermutation(a[..|a| - 1], rest);
      IdsRemoveAt(b, i);
    }
  }

  /**
   * The 78 cards in the order createGameState builds them (values outer,
   * signs inner), all face-down.
   */
  function FullDeck(): (r: seq<Card>)
    ensures |r| == 78
  {
    seq(78, i requires 0 <= i < 78 => Card(AllValues()[i / 6], AllSigns()[i % 6], false))
  }

  function ValueIndex(v: Value): (k: nat)
    ensures k < 13 && AllValues()[k] == v
  {
    match v
    case Num(n) => n - 2
    case Ace => 8
    case Bounce => 9
    case Break => 10
    case Trap => 11
    case Wild => 12
  }

  function SignIndex(s: Sign): (k: nat)
    ensures k < 6 && AllSigns()[k] == s
  {
    match s
    case Caret => 0
    case Plus => 1
    case Percent => 2
    case Ampersand => 3
    case Bang => 4
    case Hash => 5
  }

  /** Every value/sign combination is in the full deck, exactly once. */
  lemma FullDeckIsEveryCardOnce()
    ensures forall i, j :: 0 <= i < j < 78 ==> Id(FullDeck()[i]) != Id(FullDeck()[j])
    ensures forall id: CardId :: Card(id.value, id.sign, false) == FullDeck()[ValueIndex(id.value) * 6 + SignIndex(id.sign)]
  {
    var d := FullDeck();
    forall i, j | 0 <= i < j < 78 ensures Id(d[i]) != Id(d[j]) {
      if i / 6 == j / 6 {
        assert i % 6 != j % 6;
        assert AllSigns()[i % 6] != AllSigns()[j % 6];
      } else {
        assert AllValues()[i / 6] != AllValues()[j / 6];
      }
    }
    forall id: CardId ensures Card(id.value, id.sign, false) == d[ValueIndex(id.value) * 6 + SignIndex(id.sign)] {
      var k := ValueIndex(id.value) * 6 + SignIndex(id.sign);
      assert k / 6 == ValueIndex(id.value) && k % 6 == SignIndex(id.sign);
    }
  }

  /** The identities of all 78 cards: the inventory every game state keeps. */
  function FullInventory(): multiset<CardId>
  {
    Ids(FullDeck())
  }

  // ---------------------------------------------------------------- seats

  datatype Team = Attacker | Defender

  function TeamChar(t: Team): char
  {
    if t == Attacker then 'a' else 'd'
  }

  /**
   * splitPid: the team of a seat id such as "a0" or "d3"; None stands for the
   * source's 'illegal player id' error.
   */
  function SplitPid(pid: string): (r: Option<Team>)
    ensures r.Some? <==> |pid| > 0 && (pid[0] == 'a' || pid[0] == 'd')
    ensures r == Some(Attacker) ==> pid[0] == 'a'
    ensures r == Some(Defender) ==> pid[0] == 'd'
  {
    if |pid| > 0 && pid[0] == 'a' then Some(Attacker)
    else if |pid| > 0 && pid[0] == 'd' then Some(Defender)
    else None
  }

  /** parseInt(c, 16) for a single character. */
  function HexDigit(c: char): (r: Option<nat>)
    ensures r.Some? ==> r.value < 16
  {
    if '0' <= c <= '9' then Some((c - '0') as nat)
    else if 'a' <= c <= 'f' then Some((c - 'a') as nat + 10)
    else if 'A' <= c <= 'F' then Some((c - 'A') as nat + 10)
    else None
  }

  /**
   * hexToDec(splitPid(pid).num): the hand index of a seat, read from the
   * second character of its id as a hex digit; only that one character is read.
   */
  function SeatIndex(pid: string): Option<nat>
  {
    if |pid| < 2 then None else HexDigit(pid[1])
  }

  function HexChar(n: nat): (c: char)
    requires n < 16
    ensures HexDigit(c) == Some(n)
  {
    if n < 10 then ('0' as int + n) as char else ('a' as int + n - 10) as char
  }

  /** The decimal digits of n, as JavaScript's string conversion writes them. */
  function DecimalString(n: nat): (r: string)
    ensures |r| >= 1
    ensures forall i :: 0 <= i < |r| ==> '0' <= r[i] <= '9'
    ensures n < 10 <==> |r| == 1
  {
    if n < 10 then [('0' as int + n) as char] else DecimalString(n / 10) + [('0' as int + n % 10) as char]
  }

  // ---------------------------------------------------------------- zones

  /** A combat stack: the cards a team has committed to a lane, and force_visible. */
  datatype CombatStack = CombatStack(cards: seq<Card>, forceVisible: bool)

  /** One of the six lanes: two combat stacks, a deck (top = last) and a discard. */
  datatype Lane = Lane(attackerStack: CombatStack, defenderStack: CombatStack, deck: seq<Card>, discard: seq<Card>)

  /** The board: six lanes, the attacker discard and deck (lane 6), and one hand per seat. */
  datatype State = State(
    lanes: seq<Lane>,
    attackerDiscard: seq<Card>,
    attackerDeck: seq<Card>,
    attackerHands: seq<seq<Card>>,
    defenderHands: seq<seq<Card>>)

  function EmptyLane(): Lane
  {
    Lane(CombatStack([], false), CombatStack([], false), [], [])
  }

  function Hands(s: State, t: Team): seq<seq<Card>>
  {
    if t == Attacker then s.attackerHands else s.defenderHands
  }

  /**
   * A place that holds cards. Lane 6 of Deck and Discard is the attacker deck
   * and discard, as in getLane; combat stacks exist only in lanes 0..5.
   */
  datatype Zone = Deck(lane: nat) | Discard(lane: nat) | Stack(team: Team, lane: nat) | Hand(team: Team, seat: nat)

  predicate HasZone(s: State, z: Zone)
  {
    |s.lanes| == 6 &&
    match z
    case Deck(l) => l <= 6
    case Discard(l) => l <= 6
    case Stack(_, l) => l < 6
    case Hand(t, i) => i < |Hands(s, t)|
  }

  function GetStack(ln: Lane, t: Team): CombatStack
  {
    if t == Attacker then ln.attackerStack else ln.defenderStack
  }

  /** The cards in zone `z` (getLane and the hand lookup, read side). */
  function Get(s: State, z: Zone): seq<Card>
    requires HasZone(s, z)
  {
    match z
    case Deck(l) => if l == 6 then s.attackerDeck else s.lanes[l].deck
    case Discard(l) => if l == 6 then s.attackerDiscard else s.lanes[l].discard
    case Stack(t, l) => GetStack(s.lanes[l], t).cards
    case Hand(t, i) => Hands(s, t)[i]
  }

  /** Whether the defender stack of each lane is force_visible, lane by lane. */
  predicate SameFlags(a: State, b: State)
    requires |a.lanes| == 6 && |b.lanes| == 6
  {
    forall i :: 0 <= i < 6 ==>
      a.lanes[i].attackerStack.forceVisible == b.lanes[i].attackerStack.forceVisible &&
      a.lanes[i].defenderStack.forceVisible == b.lanes[i].defenderStack.forceVisible
  }

  /** Same lanes and the same number of hands per team: every zone of one exists in the other. */
  predicate SameShape(a: State, b: State)
  {
    |a.lanes| == |b.lanes| && |a.attackerHands| == |b.attackerHands| && |a.defenderHands| == |b.defenderHands|
  }

  function PutStack(ln: Lane, t: Team, cards: seq<Card>): Lane
  {
    if t == Attacker then ln.(attackerStack := ln.attackerStack.(cards := cards))
    else ln.(defenderStack := ln.defenderStack.(cards := cards))
  }

  /**
   * The state after zone `z` is made to hold `cards` (getLane and the hand
   * lookup, write side: push, pop and splice on the returned arrays).
   * Exactly that zone changes.
   */
  function Put(s: State, z: Zone, cards: seq<Card>): (r: State)
    requires HasZone(s, z)
    ensures SameShape(r, s) && HasZone(r, z) && SameFlags(r, s)
    ensures Get(r, z) == cards
  {
    match z
    case Deck(l) =>
      if l == 6 then s.(attackerDeck := cards) else s.(lanes := s.lanes[l := s.lanes[l].(deck := cards)])
    case Discard(l) =>
      if l == 6 then s.(attackerDiscard := cards) else s.(lanes := s.lanes[l := s.lanes[l].(discard := cards)])
    case Stack(t, l) => s.(lanes := s.lanes[l := PutStack(s.lanes[l], t, cards)])
    case Hand(t, i) =>
      if t == Attacker then s.(attackerHands := s.attackerHands[i := cards])
      else s.(defenderHands := s.defenderHands[i := cards])
  }

  /** Writing one zone leaves every other zone as it was. */
  lemma PutFrame(s: State, z: Zone, cards: seq<Card>, y: Zone)
    requires HasZone(s, z) && HasZone(s, y) && y != z
    ensures Get(Put(s, z, cards), y) == Get(s, y)
  {
  }

  /** Writing a zone twice keeps the second write. */
  lemma PutPut(s: State, z: Zone, a: seq<Card>, b: seq<Card>)
    requires HasZone(s, z)
    ensures Put(Put(s, z, a), z, b) == Put(s, z, b)
  {
    match z {
      case Deck(l) =>
      case Discard(l) =>
      case Stack(t, l) =>
        assert PutStack(PutStack(s.lanes[l], t, a), t, b) == PutStack(s.lanes[l], t, b);
      case Hand(t, i) =>
    }
  }

  /** Writing a zone with what it holds changes nothing. */
  lemma PutSame(s: State, z: Zone)
    requires HasZone(s, z)
    ensures Put(s, z, Get(s, z)) == s
  {
    match z {
      case Deck(l) =>
      case Discard(l) =>
      case Stack(t, l) =>
        assert PutStack(s.lanes[l], t, Get(s, z)) == s.lanes[l];
      case Hand(t, i) =>
    }
  }

  /** Writes to two different zones can be made in either order. */
  lemma PutSwap(s: State, y: Zone, a: seq<Card>, z: Zone, b: seq<Card>)
    requires HasZone(s, y) && HasZone(s, z) && y != z
    ensures Put(Put(s, y, a), z, b) == Put(Put(s, z, b), y, a)
  {
    if y.Hand? || z.Hand? {
    } else if y.lane == 6 || z.lane == 6 || y.lane != z.lane {
    } else {
      var l := y.lane;
      var ln := s.lanes[l];
      assert Put(Put(s, y, a), z, b).lanes[l] == Put(Put(s, z, b), y, a).lanes[l];
    }
  }

  /** The defender stack of lane `l` after it is turned face-up and marked force_visible. */
  function RevealDefender(s: State, l: nat): (r: State)
    requires |s.lanes| == 6 && l < 6
    ensures SameShape(r, s)
    ensures Get(r, Stack(Defender, l)) == WithUp(Get(s, Stack(Defender, l)), true)
    ensures r.lanes[l].defenderStack.forceVisible
    ensures forall y :: HasZone(s, y) && y != Stack(Defender, l) ==> Get(r, y) == Get(s, y)
    ensures forall i :: 0 <= i < 6 && i != l ==> r.lanes[i] == s.lanes[i]
    ensures r.lanes[l].attackerStack == s.lanes[l].attackerStack
  {
    var ln := s.lanes[l];
    s.(lanes := s.lanes[l := ln.(defenderStack := CombatStack(WithUp(ln.defenderStack.cards, true), true))])
  }

  // ---------------------------------------------------------------- inventory

  function LaneIds(ln: Lane): multiset<CardId>
  {
    Ids(ln.deck) + Ids(ln.discard) + Ids(ln.attackerStack.cards) + Ids(ln.defenderStack.cards)
  }

  function LanesIds(ls: seq<Lane>): multiset<CardId>
  {
    if |ls| == 0 then multiset{} else LanesIds(ls[..|ls| - 1]) + LaneIds(ls[|ls| - 1])
  }

  /** The identities in a list of piles: the hands of a team, or the decks being dealt. */
  function PilesIds(hs: seq<seq<Card>>): multiset<CardId>
  {
    if |hs| == 0 then multiset{} else PilesIds(hs[..|hs| - 1]) + Ids(hs[|hs| - 1])
  }

  /** Every card in the game, by identity: all lanes, the attacker deck and discard, all hands. */
  function Inventory(s: State): multiset<CardId>
  {
    LanesIds(s.lanes) + Ids(s.attackerDeck) + Ids(s.attackerDiscard)
      + PilesIds(s.attackerHands) + PilesIds(s.defenderHands)
  }

  /** Multiset bookkeeping for replacing one summand, stated pointwise so the solver stays linear. */
  lemma Exchange<T>(front': multiset<T>, front: multiset<T>, o: multiset<T>, n: multiset<T>,
                    lastOld: multiset<T>, lastNew: multiset<T>, inner: bool)
    requires inner ==> front' + o == front + n && lastNew == lastOld
    requires !inner ==> front' == front && lastNew == n && lastOld == o
    ensures front' + lastNew + o == front + lastOld + n
  {
    forall e ensures (front' + lastNew + o)[e] == (front + lastOld + n)[e] {
      if inner { assert (front' + o)[e] == (front + n)[e]; }
    }
  }

  lemma {:induction false} LanesIdsUpdate(ls: seq<Lane>, i: nat, x: Lane)
    requires i < |ls|
    ensures LanesIds(ls[i := x]) + LaneIds(ls[i]) == LanesIds(ls) + LaneIds(x)
    decreases |ls|
  {
    var n := |ls| - 1;
    var ls' := ls[i := x];
    var front', front := ls'[..n], ls[..n];
    if i < n {
      assert front' == front[i := x];
      LanesIdsUpdate(front, i, x);
    } else {
      assert front' == front;
    }
    Exchange(LanesIds(front'), LanesIds(front), LaneIds(ls[i]), LaneIds(x), LaneIds(ls[n]), LaneIds(ls'[n]), i < n);
  }

  lemma {:induction false} PilesIdsUpdate(hs: seq<seq<Card>>, i: nat, x: seq<Card>)
    requires i < |hs|
    ensures PilesIds(hs[i := x]) + Ids(hs[i]) == PilesIds(hs) + Ids(x)
    decreases |hs|
  {
    var n := |hs| - 1;
    var hs' := hs[i := x];
    var front', front := hs'[..n], hs[..n];
    assert PilesIds(hs') == PilesIds(front') + Ids(hs'[n]);
    assert PilesIds(hs) == PilesIds(front) + Ids(hs[n]);
    if i < n {
      assert front' == front[i := x];
      PilesIdsUpdate(front, i, x);
    } else {
      assert front' == front;
    }
    Exchange(PilesIds(front'), PilesIds(front), Ids(hs[i]), Ids(x), Ids(hs[n]), Ids(hs'[n]), i < n);
  }

  /** Replacing the summand picked by `k` of a five-term sum, stated pointwise. */
  lemma Replace5<T>(a: multiset<T>, b: multiset<T>, c: multiset<T>, d: multiset<T>, e: multiset<T>,
                    a': multiset<T>, b': multiset<T>, c': multiset<T>, d': multiset<T>, e': multiset<T>,
                    o: multiset<T>, n: multiset<T>, k: nat)
    requires k == 0 ==> a' + o == a + n
    requires k == 1 ==> b' + o == b + n
    requires k == 2 ==> c' + o == c + n
    requires k == 3 ==> d' + o == d + n
    requires k == 4 ==> e' + o == e + n
    requires k < 5
    requires (k != 0 ==> a' == a) && (k != 1 ==> b' == b) && (k != 2 ==> c' == c)
    requires (k != 3 ==> d' == d) && (k != 4 ==> e' == e)
    ensures a' + b' + c' + d' + e' + o == a + b + c + d + e + n
  {
    forall x ensures (a' + b' + c' + d' + e' + o)[x] == (a + b + c + d + e + n)[x] {
      if k == 0 { assert (a' + o)[x] == (a + n)[x]; }
      else if k == 1 { assert (b' + o)[x] == (b + n)[x]; }
      else if k == 2 { assert (c' + o)[x] == (c + n)[x]; }
      else if k == 3 { assert (d' + o)[x] == (d + n)[x]; }
      else { assert (e' + o)[x] == (e + n)[x]; }
    }
  }

  /** Replacing one zone of lane `l` changes the lanes' identities by what left and arrived. */
  lemma LanesIdsPut(ls: seq<Lane>, l: nat, x: Lane, o: multiset<CardId>, n: multiset<CardId>)
    requires l < |ls| && LaneIds(x) + o == LaneIds(ls[l]) + n
    ensures LanesIds(ls[l := x]) + o == LanesIds(ls) + n
  {
    LanesIdsUpdate(ls, l, x);
    var a', a, b, b' := LanesIds(ls[l := x]), LanesIds(ls), LaneIds(ls[l]), LaneIds(x);
    forall e ensures (a' + o)[e] == (a + n)[e] {
      assert (a' + b)[e] == (a + b')[e];
      assert (b' + o)[e] == (b + n)[e];
    }
  }

  /** The five parts of the inventory, replacing part `k`, with `o` leaving and `n` arriving. */
  lemma InventoryReplace(s: State, s': State, o: multiset<CardId>, n: multiset<CardId>, k: nat)
    requires k < 5
    requires k == 0 ==> LanesIds(s'.lanes) + o == LanesIds(s.lanes) + n
    requires k == 1 ==> Ids(s'.attackerDeck) + o == Ids(s.attackerDeck) + n
    requires k == 2 ==> Ids(s'.attackerDiscard) + o == Ids(s.attackerDiscard) + n
    requires k == 3 ==> PilesIds(s'.attackerHands) + o == PilesIds(s.attackerHands) + n
    requires k == 4 ==> PilesIds(s'.defenderHands) + o == PilesIds(s.defenderHands) + n
    requires (k != 0 ==> s'.lanes == s.lanes) && (k != 1 ==> s'.attackerDeck == s.attackerDeck)
    requires (k != 2 ==> s'.attackerDiscard == s.attackerDiscard)
    requires (k != 3 ==> s'.attackerHands == s.attackerHands) && (k != 4 ==> s'.defenderHands == s.defenderHands)
    ensures Inventory(s') + o == Inventory(s) + n
  {
    Replace5(LanesIds(s.lanes), Ids(s.attackerDeck), Ids(s.attackerDiscard), PilesIds(s.attackerHands), PilesIds(s.defenderHands),
             LanesIds(s'.lanes), Ids(s'.attackerDeck), Ids(s'.attackerDiscard), PilesIds(s'.attackerHands), PilesIds(s'.defenderHands),
             o, n, k);
  }

  /** Replacing the summand picked by `k` of a four-term sum, stated pointwise. */
  lemma Replace4<T>(a: multiset<T>, b: multiset<T>, c: multiset<T>, d: multiset<T>,
                    a': multiset<T>, b': multiset<T>, c': multiset<T>, d': multiset<T>,
                    o: multiset<T>, n: multiset<T>, k: nat)
    requires k < 4
    requires k == 0 ==> a' + o == a + n
    requires k == 1 ==> b' + o == b + n
    requires k == 2 ==> c' + o == c + n
    requires k == 3 ==> d' + o == d + n
    requires (k != 0 ==> a' == a) && (k != 1 ==> b' == b) && (k != 2 ==> c' == c) && (k != 3 ==> d' == d)
    ensures a' + b' + c' + d' + o == a + b + c + d + n
  {
    forall x ensures (a' + b' + c' + d' + o)[x] == (a + b + c + d + n)[x] {
      if k == 0 { assert (a' + o)[x] == (a + n)[x]; }
      else if k == 1 { assert (b' + o)[x] == (b + n)[x]; }
      else if k == 2 { assert (c' + o)[x] == (c + n)[x]; }
      else { assert (d' + o)[x] == (d + n)[x]; }
    }
  }

  lemma InventoryPutLane(s: State, z: Zone, cards: seq<Card>)
    requires HasZone(s, z) && !z.Hand? && z.lane < 6
    ensures Inventory(Put(s, z, cards)) + Ids(Get(s, z)) == Inventory(s) + Ids(cards)
  {
    var o := Ids(Get(s, z));
    var n := Ids(cards);
    var l := z.lane;
    var ln := s.lanes[l];
    var x := Put(s, z, cards).lanes[l];
    var k := if z.Deck? then 0 else if z.Discard? then 1 else if z.team == Attacker then 2 else 3;
    Replace4(Ids(ln.deck), Ids(ln.discard), Ids(ln.attackerStack.cards), Ids(ln.defenderStack.cards),
             Ids(x.deck), Ids(x.discard), Ids(x.attackerStack.cards), Ids(x.defenderStack.cards), o, n, k);
    assert Put(s, z, cards).lanes == s.lanes[l := x];
    LanesIdsPut(s.lanes, l, x, o, n);
    InventoryReplace(s, Put(s, z, cards), o, n, 0);
  }

  /** Writing a zone changes the inventory by exactly what left and what arrived. */
  lemma InventoryPut(s: State, z: Zone, cards: seq<Card>)
    requires HasZone(s, z)
    ensures Inventory(Put(s, z, cards)) + Ids(Get(s, z)) == Inventory(s) + Ids(cards)
  {
    var s' := Put(s, z, cards);
    var o := Ids(Get(s, z));
    var n := Ids(cards);
    match z {
      case Deck(l) =>
        if l < 6 { InventoryPutLane(s, z, cards); } else { InventoryReplace(s, s', o, n, 1); }
      case Discard(l) =>
        if l < 6 { InventoryPutLane(s, z, cards); } else { InventoryReplace(s, s', o, n, 2); }
      case Stack(t, l) =>
        InventoryPutLane(s, z, cards);
      case Hand(t, i) =>
        if t == Attacker {
          PilesIdsUpdate(s.attackerHands, i, cards);
          InventoryReplace(s, s', o, n, 3);
        } else {
          PilesIdsUpdate(s.defenderHands, i, cards);
          InventoryReplace(s, s', o, n, 4);
        }
    }
  }

  lemma Cancel<T>(x: multiset<T>, y: multiset<T>, m: multiset<T>)
    requires x + m == y + m
    ensures x == y
  {
    forall e ensures x[e] == y[e] {
      assert (x + m)[e] == (y + m)[e];
    }
  }

  /** The bookkeeping of a move between two zones, stated pointwise. */
  lemma TransferSums<T>(i: multiset<T>, i1: multiset<T>, i2: multiset<T>, f: multiset<T>, r: multiset<T>,
                        g: multiset<T>, gr: multiset<T>, moved: multiset<T>)
    requires i1 + f == i + r && i2 + g == i1 + gr
    requires r + moved == f && gr == g + moved
    ensures i2 == i
  {
    forall e ensures i2[e] == i[e] {
      assert (i1 + f)[e] == (i + r)[e];
      assert (i2 + g)[e] == (i1 + gr)[e];
      assert (r + moved)[e] == f[e];
      assert gr[e] == (g + moved)[e];
    }
  }

  /** Rewriting a zone with the same cards (reordered or turned) keeps the inventory. */
  lemma InventoryKeep(s: State, z: Zone, cards: seq<Card>)
    requires HasZone(s, z) && Ids(cards) == Ids(Get(s, z))
    ensures Inventory(Put(s, z, cards)) == Inventory(s)
  {
    InventoryPut(s, z, cards);
    Cancel(Inventory(Put(s, z, cards)), Inventory(s), Ids(cards));
  }

  /**
   * Taking the cards `moved` out of zone `a` (leaving `rest`) and adding them
   * to zone `b` (giving `grown`) keeps the inventory.
   */
  lemma InventoryTransfer(s: State, a: Zone, rest: seq<Card>, b: Zone, grown: seq<Card>, moved: multiset<CardId>)
    requires HasZone(s, a) && HasZone(s, b) && a != b
    requires Ids(rest) + moved == Ids(Get(s, a))
    requires Ids(grown) == Ids(Get(s, b)) + moved
    ensures Inventory(Put(Put(s, a, rest), b, grown)) == Inventory(s)
  {
    var s1 := Put(s, a, rest);
    InventoryPut(s, a, rest);
    InventoryPut(s1, b, grown);
    PutFrame(s, a, rest, b);
    TransferSums(Inventory(s), Inventory(s1), Inventory(Put(s1, b, grown)), Ids(Get(s, a)), Ids(rest),
                 Ids(Get(s, b)), Ids(grown), moved);
  }

  /** Turning the defender stack up keeps the inventory. */
  lemma InventoryRevealDefender(s: State, l: nat)
    requires |s.lanes| == 6 && l < 6
    ensures Inventory(RevealDefender(s, l)) == Inventory(s)
  {
    var ln := s.lanes[l];
    var x := ln.(defenderStack := CombatStack(WithUp(ln.defenderStack.cards, true), true));
    IdsWithUp(ln.defenderStack.cards, true);
    assert LaneIds(x) == LaneIds(ln);
    LanesIdsUpdate(s.lanes, l, x);
    Cancel(LanesIds(s.lanes[l := x]), LanesIds(s.lanes), LaneIds(ln));
    assert RevealDefender(s, l).lanes == s.lanes[l := x];
  }

  /** Popping the top card of zone `a` and pushing it (possibly turned) onto zone `b` keeps the inventory. */
  lemma InventoryMoveTop(s: State, a: Zone, b: Zone, c: Card)
    requires HasZone(s, a) && HasZone(s, b) && a != b
    requires |Get(s, a)| > 0 && Id(c) == Id(Get(s, a)[|Get(s, a)| - 1])
    ensures
      var from := Get(s, a);
      Inventory(Put(Put(s, a, from[..|from| - 1]), b, Get(s, b) + [c])) == Inventory(s)
  {
    var from := Get(s, a);
    IdsPush(Get(s, b), c);
    InventoryTransfer(s, a, from[..|from| - 1], b, Get(s, b) + [c], multiset{Id(c)});
  }
}
