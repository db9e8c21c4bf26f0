# binmat engine — a Dafny model

This project models the game engine of binmat, a two-team card game.
Attackers and defenders share six lanes of a 78-card deck: 13 values
(`2`–`9`, `a`, `?` bounce, `>` break, `@` trap, `*` wild) times 6 signs
(`^ + % & ! #`). Each lane has a deck and a discard pile, plus an attacker
stack and a defender stack. The attackers also have a deck and a discard
pile of their own, called lane 6 or `a`. Every seat (`a0`…`af`, `d0`…`df`)
holds a hand.

The model covers these parts of `binmat_api.ts`:

- the seeded random source (`cyrb128`, `sfc32`, `rInt`);
- the deal in `createGameState`;
- the card moves `drawCard`, `discardCard` and `playCard`;
- the combat resolver (`combat`, `bounceCombat`, traps, stack power, damage);
- operation parsing (`getCardAndLaneFromOp`, `checkOpSyntax`, `runOp`);
- the turn loop (`setNextOrd`, `runTurn`, `queueOp`).

It also models the power computation of the stack reader in
`binmat_recon/binmat_recon.ts` and proves that it agrees with the engine's
`calcStackPow`.

Modules, one file each:

| file | module | what it holds |
|---|---|---|
| `cards.dfy` | `Cards` | values, signs, cards, seat ids, the board (`State`) and its zones, and card inventories (multisets of card identities) |
| `rng.dfy` | `Rng` | `cyrb128` as a function and as a loop, `sfc32` as a step function and as a class whose state a draw advances |
| `power.dfy` | `Power` | the power-of-two table, `applyWild`, and `calcStackPow` as a function and as a loop |
| `recon.dfy` | `Recon` | `getStackValue` and `getStackPower` of the recon script |
| `ops.dfy` | `Ops` | operation codes: the reading the source performs, a digit-only reading, parse and print |
| `deal.dfy` | `Deal` | the deal loop of `createGameState` |
| `moves.dfy` | `Rules` | every move and the combat resolver, as functions from a board (state + seed) to an outcome and a new board |
| `turns.dfy` | `Turns` | players, seat order, `runTurn` and `queueOp` over a game snapshot |
| `game.dfy` | `Engine` | the opening board, and class `Game`, whose methods update the board in place |

The source mutates one `game` object, and the model keeps that form in two
layers:

- `Engine.Game` has the game's fields. Its methods change them in place.
- Each method is proved to leave exactly the state that the matching
  function in `Rules` or `Turns` computes.
- The properties are proved about those functions. The main one is card
  conservation: no operation creates, loses or duplicates a card, except a
  play to lane 6, which throws after taking the card from the hand.

An operation that throws in the source returns `Threw(fault)` in the
model. The model does not undo the changes made before the throw; the
source's command handler does not save them either.

## Model

| member | source | states |
|---|---|---|
| Cards.AllValues | binmat_api.ts:52 | there are 13 card values |
| Cards.AllSigns | binmat_api.ts:53 | there are 6 card signs |
| Cards.ValueOfChar | binmat_api.ts:52 | a character names a value exactly when it is one of `23456789a?>@*` |
| Cards.SignOfChar | binmat_api.ts:53 | a character names a sign exactly when it is one of `^+%&!#` |
| Cards.CharRoundTrips | binmat_api.ts:52-53 | value and sign characters read back to the value or sign they print, in both directions |
| Cards.FullDeck | binmat_api.ts:333-339 | the full deck has 78 cards |
| Cards.FullDeckIsEveryCardOnce | binmat_api.ts:333-339 | the deck holds every value/sign pair exactly once, at index value×6+sign, face down |
| Cards.SplitPid | binmat_api.ts:467-476 | a seat id has a team exactly when its first character is `a` or `d`, and the team matches that character |
| Cards.HexChar | binmat_api.ts:464-465 | the seat digit printed for n < 16 reads back as n under hexToDec |
| Cards.DecimalString | binmat_api.ts:1375 | the printed turn number is all decimal digits, one digit exactly when n < 10 |
| Cards.Put | binmat_api.ts:499-524 | replacing one zone (deck, discard, stack or hand) keeps the board's shape and flags, and the zone then holds the new cards |
| Cards.PutFrame | binmat_api.ts:499-524 | replacing one zone leaves every other zone unchanged |
| Cards.PutPut | binmat_api.ts:499-524 | the second of two writes to one zone wins |
| Cards.PutSame | binmat_api.ts:499-524 | writing a zone's own cards back changes nothing |
| Cards.PutSwap | binmat_api.ts:499-524 | writes to two different zones commute |
| Cards.RevealDefender | binmat_api.ts:1023-1032 | the defender stack turns face up and force-visible, and nothing else on the board changes |
| Cards.IdsRemoveAt | binmat_api.ts:526-560 | removing one card from a pile removes exactly that card's identity |
| Cards.IdsOfPermutation | binmat_api.ts:460-462 | reordering a pile keeps its identities |
| Cards.InventoryRevealDefender | binmat_api.ts:1027-1031 | revealing the defender stack keeps the inventory |
| Rng.CodeUnits | binmat_api.ts:213-214 | a string has at least as many UTF-16 code units as characters, and exactly as many when every character is in the BMP |
| Rng.AbsorbAppend | binmat_api.ts:213-218 | hashing a + b is hashing b from the state after a, so the hash can be computed one unit at a time |
| Rng.Cyrb128 | binmat_api.ts:211-229 | the loop computes exactly the cyrb128 hash of the string |
| Rng.AdvanceAdd | binmat_api.ts:230-243 | n sfc32 steps followed by m steps are n+m steps |
| Rng.Outputs | binmat_api.ts:230-243 | n draws give n 32-bit outputs |
| Rng.Scale | binmat_api.ts:331 | rInt(max) is never above max |
| Rng.ScaleBelow | binmat_api.ts:331 | floor(t/2^32 × (max+1)) lies in 0..max for every 32-bit t |
| Rng.ScaleExact | binmat_api.ts:331 | for max + 1 <= 2^21 the product of a 32-bit output and max + 1 is below 2^53, so the double product rInt computes is exact |
| Rng.Sfc32.constructor | binmat_api.ts:230 | the generator starts from the given seed |
| Rng.Sfc32.Next | binmat_api.ts:231-243 | one draw advances the state by one sfc32 step and returns that step's output |
| Rng.Sfc32.NextInt | binmat_api.ts:331 | rInt(max) advances one step and returns the scaled output, which is at most max |
| Power.Pow2 | binmat_api.ts:562 | every power of two is at least 1 |
| Power.Pow2StrictlyMonotone | binmat_api.ts:562 | powers of two strictly increase, so the table is sorted |
| Power.FloorLog2 | binmat_api.ts:567-570 | floor(log2 n) is the k with 2^k ≤ n < 2^(k+1) |
| Power.FloorLog2Exact | binmat_api.ts:567-570 | floor(log2 2^k) is k |
| Power.IndexOf | binmat_api.ts:576-580 | indexOf returns the first index holding the number, or -1 exactly when it is absent |
| Power.IndexOfPower | binmat_api.ts:562-577 | indexOf finds 2^(k+1) at table index k, for every k ≤ 13 |
| Power.FirstAboveIsFirst | binmat_api.ts:584 | find returns the first table entry above num, or nothing when every entry is ≤ num |
| Power.ApplyWildIsNextPower | binmat_api.ts:583-588 | applyWild fails exactly when num ≥ 16384; it gives 2 for 0 and 2^(floor(log2 num)+1) otherwise |
| Power.ApplyWildBelowLimit | binmat_api.ts:583-588 | below the limit, applyWild gives the least power of two above num |
| Power.CountValue | binmat_api.ts:572 | a stack has no more wilds than cards |
| Power.TableIndex | binmat_api.ts:576-580 | a power's table position is at most 13 |
| Power.CalcStackPow | binmat_api.ts:564-581 | the loops compute exactly the stack power: the sum (`a` counts 10) raised once per wild, then its table index or 0; it fails when a wild meets a sum of 16384 or more |
| Power.StackPow | binmat_api.ts:564-581 | a stack power, when it exists, is a table index 0..13, and it always exists for a stack without wilds |
| Power.RaiseStaysFailed | binmat_api.ts:583-588 | once applyWild has failed, further wilds keep failing |
| Power.StackPowWithoutWilds | binmat_api.ts:564-581 | without wilds the power always exists, and for 1 ≤ k ≤ 13 it is k exactly when the sum is 2^(k+1) |
| Power.StackPowExamples | binmat_api.ts:564-581 | sums 256, 15 and 2 without wilds have powers 7, 0 and 0 |
| Power.StackPowOfFifteen | binmat_api.ts:564-581 | a sum of 15 without wilds is no table entry, so its power is 0 |
| Power.RaiseIsPower | binmat_api.ts:572-575 | after w ≥ 1 successful wilds the sum is 2^w when it was 0, and 2^(floor(log2 sum)+w) otherwise |
| Power.NextOfPower | binmat_api.ts:583-588 | applyWild on 2^k gives 2^(k+1) |
| Power.RaiseSmall | binmat_api.ts:572-575 | a sum below 512 with at most 6 wilds never overflows the table, and stays below 2^(9+w) |
| Recon.EntriesOfCards | binmat_recon/binmat_recon.ts:28-45 | the recon value of a rendered stack is the engine's number sum (digits at face value, `a` as 10, special cards and hidden `X` as 0), and its wild count is the engine's |
| Recon.EntriesValue | binmat_recon/binmat_recon.ts:28-45 | the entries add at most 10 each |
| Recon.StackValue | binmat_recon/binmat_recon.ts:28-45 | a missing stack has value 0; a shown stack at most 10 per entry |
| Recon.StackPower | binmat_recon/binmat_recon.ts:47-69 | a missing stack has power 0; a shown stack's power is never below its number of wilds |
| Recon.PowerOf | binmat_recon/binmat_recon.ts:47-69 | the power is never below the wilds; when it is positive for a positive value v, it exceeds the wilds by floor(log2 v) |
| Recon.PowerWithoutWilds | binmat_recon/binmat_recon.ts:47-69 | without wilds the power is k ≥ 1 exactly when the value is 2^k, and 0 exactly when the value is no power 2^j with j ≥ 1 |
| Recon.PowerWithWilds | binmat_recon/binmat_recon.ts:47-69 | with w ≥ 1 wilds the power is w for a value of 0 and floor(log2 value) + w otherwise, so never below w |
| Recon.OnlyFirstCharRead | binmat_recon/binmat_recon.ts:28-45 | only an entry's first character counts, so the sign and the rest of the entry are ignored |
| Recon.PowerInTable | binmat_api.ts:562-577 | a power 2^e in the engine's table has 1 ≤ e ≤ 14 and sits at index e − 1 |
| Recon.PowerOfAgreesWithRaise | binmat_recon/binmat_recon.ts:47-69 | for a sum below 16384 that the wilds raise without failing, the recon power is the raised sum's table index plus one, or 0 when it is not in the table |
| Recon.PowerOfOutsideTable | binmat_recon/binmat_recon.ts:47-69 | without wilds, a value below 16384 that is not in the table has recon power 0 |
| Recon.ReconAgreesWithCalcStackPow | binmat_recon/binmat_recon.ts:47-69 | for any rendered stack whose sum is below 16384 and whose wilds do not overflow, the recon power is the engine's calcStackPow plus one when the raised sum is in the table, and both give 0 otherwise |
| Ops.NumberOfChar | binmat_api.ts:1248 | JavaScript's Number() of a one-character string is a number exactly for a digit or white space (white space reads as 0) |
| Ops.CardAndLaneFromOpAsWritten | binmat_api.ts:1225-1253 | the source's reading of a discard or play code, with lanes 0..6 through Number() |
| Ops.CardAndLaneFromOp | binmat_api.ts:1225-1253 | the digit-only reading: a lane is 0..5 or `a`, and `a` only where the attacker lane is allowed |
| Ops.JsLength | binmat_api.ts:1338 | `op.length` counts UTF-16 code units: never fewer than the characters, and as many when all lie in the BMP |
| Ops.CheckOpSyntaxAsWritten | binmat_api.ts:1318-1356 | a code the source's check accepts has at least 2 characters and at most 4 UTF-16 code units, and starts with `d`, `x`, `p`, `u` or `c` |
| Ops.CheckOpSyntax | binmat_api.ts:1318-1356 | the same for the digit-only check |
| Ops.ParseOpAsWritten | binmat_api.ts:1255-1309 | runOp's reading: a code gives an operation exactly when it passes the source's syntax check; draws and discards reach lanes 0..6, combats 0..5, plays 0..6 (lane 6 through the character `6`); the first character picks draw, combat or play (`u` face up) |
| Ops.ParseOp | binmat_api.ts:1255-1309 | the digit-only reading: a code parses exactly when it passes the digit-only check, and names only lanes its operation may use |
| Ops.ParseOpAsWrittenExtends | binmat_api.ts:1255-1356 | on every code the digit-only check accepts, the source's reading gives the same operation |
| Ops.OpText | binmat_api.ts:1318-1356 | every printed operation code has 2 to 4 characters |
| Ops.LaneCharRoundTrip | binmat_api.ts:1248 | a lane character is never a sign and reads back as its lane; `a` is lane 6 |
| Ops.CardTextRoundTrip | binmat_api.ts:1225-1253 | a printed card-and-lane code reads back as the same card and lane |
| Ops.ParseOpText | binmat_api.ts:1255-1356 | printing a valid operation and parsing it gives the operation back |
| Ops.ParsedOpText | binmat_api.ts:1318-1356 | a code that parses is its operation's printed code, with at most one extra ignored character |
| Ops.DrawSyntax | binmat_api.ts:1321-1333 | a draw code is accepted exactly when it is `d` plus a digit 0..5 or `a` |
| Ops.CombatSyntax | binmat_api.ts:1345-1352 | a combat code is accepted exactly when it is `c` plus a digit 0..5 |
| Ops.CardOpShape | binmat_api.ts:1334-1344 | an accepted card code has 3 or 4 characters, and its third character is a sign exactly when it is one of the six sign characters |
| Ops.AttackerLaneOnlyForDrawAndDiscard | binmat_api.ts:1247-1289 | a parsed combat or play never targets lane 6 |
| Ops.FourthCharIgnored | binmat_api.ts:1241-1248 | when the third character is the lane, a fourth character is not read: the code is accepted exactly when its first three are and the fourth lies in the BMP, and then parses as the first three |
| Ops.AstralTailRefused | binmat_api.ts:1338 | `x25` plus a character outside the BMP has four characters but five code units, so it is refused, while `x25z` passes |
| Ops.CheckOpSyntaxNarrowsAsWritten | binmat_api.ts:1318-1356 | every code the digit-only check accepts passes the source's check and is read the same way |
| Ops.AsWrittenExtraCodes | binmat_api.ts:1318-1356 | the codes only the source accepts have a white-space lane or, for a card code, lane `6` |
| Ops.PlayToLaneSixAsWritten | binmat_api.ts:1247-1251 | `p26` passes the source's check, fails the digit-only one, and runOp reads it as a face-down play of a 2 to lane 6 |
| Ops.BlankLaneAsWritten | binmat_api.ts:1318-1356 | `d `, `c ` and `x2 ` pass the source's check, with the blank read as lane 0 |
| Deal.SumLengthsOfCapped | binmat_api.ts:354-360 | six decks of at most 13 cards hold at most 78 cards, and hold 78 only when every deck is full |
| Deal.OpenLanesHaveRoom | binmat_api.ts:356 | the lanes still open to the deal are exactly the decks with fewer than 13 cards |
| Deal.RoomWhileCardsRemain | binmat_api.ts:354-358 | while cards remain to be dealt, some lane is open, so the pick never indexes an empty list |
| Deal.DealStepKeepsCards | binmat_api.ts:355-359 | moving the picked card into a deck keeps the cards in the decks and the cards left to deal |
| Deal.DealDecks | binmat_api.ts:353-360 | the loop deals what the deal function specifies: six face-down decks of 13 holding each of the 78 cards once, and 156 draws used |
| Deal.DealDone | binmat_api.ts:353-360 | when no card is left to deal, the decks are six full face-down decks holding every card once |
| Deal.DealFrom | binmat_api.ts:354-360 | dealing never adds or removes a deck |
| Deal.Dealt | binmat_api.ts:353-360 | the deal gives six decks |
| Deal.DealCard | binmat_api.ts:355-359 | one pass keeps the deal invariant, uses two draws, and leaves the rest of the deal as specified |
| Deal.DealFromKeeps | binmat_api.ts:354-360 | dealing all cards leaves full decks that hold the whole deck |
| Deal.DealtDeals | binmat_api.ts:353-360 | for every seed, the deal gives six face-down decks of 13 holding each card exactly once |
| Engine.OpeningKeepsCards | binmat_api.ts:328-392 | the opening board holds each of the 78 cards exactly once |
| Engine.Opening | binmat_api.ts:361-380 | the opening board has six lanes and one hand per seat of each team |
| Engine.OpeningLayout | binmat_api.ts:361-380 | at the opening every lane deck has 13 cards and every other zone is empty; one hand per seat of each team; only the top card of decks 3–5 is face up |
| Engine.OpeningTableLayout | binmat_api.ts:361-380 | the same layout for any six face-down decks of 13 |
| Engine.Game.CreateGameState | binmat_api.ts:328-392 | a new game whose board is the opening of cyrb128(seed), whose generator is 156 steps past that seed, at turn 0, ongoing, with an empty queue and the seat order of setNextOrd |
| Engine.Game.OpenBoard | binmat_api.ts:329-380 | the opening board is sound, holds the full deck, and the generator has drawn 156 times |
| Engine.Game.BuildLanes | binmat_api.ts:341-364 | the lanes built from the dealt decks are the opening lanes |
| Rules.Seat | binmat_api.ts:864-865 | a seat id names a hand only if it has a team, and that hand exists on a sound board |
| Rules.DrawCard | binmat_api.ts:854-912 | a draw never adds or removes a lane or a hand |
| Rules.FirstFit | binmat_api.ts:526-560 | the reference card lookup: the first card of the hand that matches the value, and the sign when one is given; none when no card matches |
| Rules.FirstFitUnique | binmat_api.ts:526-560 | a matching card with no match before it is the first fit |
| Rules.FitsValueExact | binmat_api.ts:544 | the value filter keeps exactly the indices of the cards with that value, in order |
| Rules.FirstWithSignIsFirst | binmat_api.ts:551 | the sign search finds the first filtered card with that sign |
| Rules.SpliceIndexIsFirstFit | binmat_api.ts:526-560 | spliceCardFromHand's filter-then-find takes the first fitting card of the hand |
| Rules.SpliceCard | binmat_api.ts:526-560 | splicing fails exactly when no card fits; otherwise it returns the first fit and the hand without it |
| Rules.SpliceCardTakesOne | binmat_api.ts:526-560 | the spliced card fits, and the hand loses exactly that card |
| Rules.RefillMovesDiscard | binmat_api.ts:875-891 | refilling an empty deck moves the discard's cards into it and empties the discard |
| Rules.RefillKeepsCards | binmat_api.ts:875-891 | reshuffling the discard into the deck keeps the inventory |
| Rules.TakeTopMovesOne | binmat_api.ts:895-909 | a draw appends the deck's top card to the hand face down and removes it from the deck; an open lane shows its next card |
| Rules.DrawnFromDeck | binmat_api.ts:895-909 | a draw from a non-empty deck takes its top card, keeps the discard, and uses no randomness |
| Rules.DrawnFromDiscard | binmat_api.ts:875-909 | a draw from an empty deck takes one card of the old discard, and the rest of the discard becomes the deck |
| Rules.TopUpShowsTop | binmat_api.ts:891-903 | in lanes 3–5 the deck's top card is face up and no other card changes |
| Rules.DrawnFrame | binmat_api.ts:854-912 | a draw touches only the lane's deck and discard and the drawing hand |
| Rules.DrawCardCases | binmat_api.ts:854-912 | drawCard succeeds only for a valid seat on a lane with cards in its deck or discard, and then gives the drawn board; any other outcome leaves the board unchanged |
| Rules.DrawKeepsCards | binmat_api.ts:854-912 | drawCard keeps the inventory, and leaves the board unchanged unless it succeeds |
| Rules.DrawCardGrowsHand | binmat_api.ts:854-912 | the drawing hand grows by one card exactly when drawCard succeeds |
| Rules.AttackerDrawsFromAttackerDeck | binmat_api.ts:867-875 | an attacker can always draw from lane 6 while its deck or discard has cards |
| Rules.DrawCardKeepsStacks | binmat_api.ts:854-912 | a draw never changes a combat stack |
| Rules.TransferMoves | binmat_api.ts:1128-1156 | a transfer leaves the rest in the source zone and appends the moved cards to the target |
| Rules.TransferFrame | binmat_api.ts:1128-1156 | a transfer touches no third zone |
| Rules.TransferKeepsCards | binmat_api.ts:1128-1156 | a transfer that moves exactly the removed cards keeps the inventory |
| Rules.MoveCardMoves | binmat_api.ts:936-947 | moving card i takes it out of its zone and appends it to the target with the new face |
| Rules.MoveCardKeepsCards | binmat_api.ts:936-947 | moving one card keeps the inventory |
| Rules.DumpKeepsCards | binmat_api.ts:1154-1156 | dumping a whole zone into another keeps the inventory |
| Rules.SplitByValue | binmat_api.ts:1096-1113 | the cards of one value and all the other cards together make up the whole stack |
| Rules.OnlyCounts | binmat_api.ts:1096-1113 | the cards picked out by value are exactly as many as CountValue counts |
| Rules.SendOutKeepsCards | binmat_api.ts:1096-1113 | sending the cards of one value to a discard keeps the inventory |
| Rules.SpillStep | binmat_api.ts:1061-1081 | popping k+1 cards is popping k cards and then one more |
| Rules.SpillSaturates | binmat_api.ts:1061-1081 | once the source is empty, further pops change nothing |
| Rules.SpillLeaves | binmat_api.ts:1061-1081 | popping k cards leaves the source without its top min(k, size) cards |
| Rules.IdsPopped | binmat_api.ts:1061-1081 | the popped cards and those left together make up the original pile |
| Rules.SpillKeepsCards | binmat_api.ts:1061-1081 | popping cards between zones keeps the inventory |
| Rules.TrapsMove | binmat_api.ts:1061-1081 | each trap in the mover's stack pops one opposing card to the mover's discard; then each trap left in the opposing stack pops one of the mover's cards to the other discard |
| Rules.TrapsKeepCards | binmat_api.ts:1061-1081 | trap resolution keeps the inventory |
| Rules.Traps | binmat_api.ts:1061-1081 | trap resolution never adds or removes a lane or a hand |
| Rules.Resolve | binmat_api.ts:1114-1151 | the defender wins only with the higher power; the attacker wins only with at least the defender's power, and then deals at least 1 damage |
| Rules.ResolveWinner | binmat_api.ts:1114-1151 | without bounces and with some power, the defender wins exactly when its power is higher; the attacker's damage is at least 1; with a break it is the larger of the attacker power and the defender stack size; without a break it is powA − powD + 1 |
| Rules.ResolveBounces | binmat_api.ts:1091-1119 | combat bounces or ends powerless exactly when a stack holds a bounce or both powers are 0 |
| Rules.CountValuePositive | binmat_api.ts:1091-1095 | a stack counts a value exactly when it holds a card of that value |
| Rules.BounceCombatResult | binmat_api.ts:1023-1032 | a bounce sends the attacker stack face up to the attacker discard and reveals the defender stack, keeping the inventory |
| Rules.DefenderWinResult | binmat_api.ts:1126-1137 | a defender win sends the attacker stack face up to the lane discard and reveals the defender stack, keeping the inventory |
| Rules.SendOutBouncesKeepsCards | binmat_api.ts:1096-1113 | discarding the bounce cards keeps the inventory |
| Rules.DamagePidSeat | binmat_api.ts:1158-1167 | the corrected damage seat id names attacker seat i mod n for every team size up to 16 |
| Rules.DamagePidAsWrittenAgrees | binmat_api.ts:1165 | the source's seat id agrees with the corrected one while the attacker team has at most 10 seats |
| Rules.DamagePidAsWrittenMisreads | binmat_api.ts:1165 | with 11 attackers, damage meant for seat 10 builds `a10`, which reads as seat 1 |
| Rules.DamageSeat | binmat_api.ts:1158-1167 | the damage draws always go to an attacker seat; for a defender's break with 1 to 10 attackers, the i-th goes to seat i mod n |
| Rules.DamageLoop | binmat_api.ts:1158-1181 | the damage loop never adds or removes a lane or a hand |
| Rules.DamageLoopKeepsCards | binmat_api.ts:1158-1181 | the damage loop keeps the inventory |
| Rules.DamageSpills | binmat_api.ts:1158-1181 | while the defender stack has cards, each point of damage pops one of its cards to the attacker discard |
| Rules.DamageFromStack | binmat_api.ts:1158-1181 | damage the defender stack can absorb only pops its top cards to the attacker discard, and always succeeds |
| Rules.DamageLoopNeverRefuses | binmat_api.ts:1158-1181 | the damage loop never answers false |
| Rules.DamageLoopKeepsAttackerStack | binmat_api.ts:1158-1181 | damage never touches the attacker stack |
| Rules.Resolved | binmat_api.ts:1091-1184 | carrying out a resolution never adds or removes a lane or a hand |
| Rules.ResolvedKeepsCards | binmat_api.ts:1091-1184 | every resolution keeps the inventory |
| Rules.ResolvedClearsAttackerStack | binmat_api.ts:1091-1184 | every resolution answers true or throws, and clears the attacker stack |
| Rules.Combat | binmat_api.ts:1034-1184 | combat never adds or removes a lane or a hand |
| Rules.Fight | binmat_api.ts:1082-1184 | a fight never adds or removes a lane or a hand |
| Rules.CombatKeepsCards | binmat_api.ts:1034-1184 | combat keeps the inventory |
| Rules.FightOutcome | binmat_api.ts:1082-1184 | a fight never answers false, and clears the attacker stack when it succeeds |
| Rules.FightKeepsCards | binmat_api.ts:1082-1184 | a fight keeps the inventory |
| Rules.CombatOutcome | binmat_api.ts:1034-1184 | combat answers false exactly when a defender starts it without a break; a refusal changes nothing, and a success leaves the attacker stack empty |
| Rules.DiscardCard | binmat_api.ts:914-956 | a discard never adds or removes a lane or a hand |
| Rules.DiscardCases | binmat_api.ts:914-956 | discardCard succeeds exactly for a valid seat with a fitting card, unless a defender targets lane 6; it throws only for a bad seat or a missing hand; a discard to lane 6 is followed by two draws |
| Rules.DiscardedMovesCard | binmat_api.ts:936-947 | the first fitting card leaves the hand and lands face up on the discard |
| Rules.DiscardKeepsCards | binmat_api.ts:914-956 | discardCard keeps the inventory |
| Rules.DiscardToLane | binmat_api.ts:914-956 | a successful discard to lanes 0–5 moves the first fitting card face up onto that lane's discard |
| Rules.DiscardToAttackerDiscard | binmat_api.ts:949-954 | only attackers discard to lane 6, and then the hand ends with between its old size and one card more |
| Rules.PlayCard | binmat_api.ts:958-1021 | a play, lane 6 included, never adds or removes a lane or a hand |
| Rules.PlayCases | binmat_api.ts:958-1021 | for lanes 0..6: playCard leaves the board unchanged when the seat is bad, the play is barred, it reads lane 6's missing stack (`>`, face-up `?`) or no card fits, and throws only for a bad seat or that read; on lane 6 a fitting card leaves the hand and the play throws; otherwise the card is played, and a face-up break or bounce starts combat |
| Rules.PlayedMovesCard | binmat_api.ts:1003-1008 | the first fitting card leaves the hand and lands on the player's own stack with the chosen face |
| Rules.PlayKeepsCards | binmat_api.ts:958-1021 | playCard keeps the inventory on lanes 0..5, and on lane 6 unless it throws the stack TypeError |
| Rules.PlayOutcome | binmat_api.ts:958-1021 | for lanes 0..6, playCard answers false exactly when barred on lanes 0..5 (a break on an empty stack, or an attacker's face-up bounce on an empty stack) or no card fits (and on lane 6 the play is no `>` or face-up `?`), and then changes nothing; it answers true only on lanes 0..5, and then the card moves to the own stack, and after a face-up break or bounce the attacker stack is empty |
| Rules.PlayOnAttackerLane | binmat_api.ts:975-1012 | a play to lane 6 never answers true: false, changing nothing, exactly when it is no `>` or face-up `?` and no card fits; otherwise it throws the TypeError, with the board untouched for `>` or face-up `?`, and otherwise with the fitting card gone from the hand and from the board |
| Rules.SplicedLosesCard | binmat_api.ts:1003 | the splice alone removes the first fitting card from the hand and from the board's inventory |
| Rules.RunOp | binmat_api.ts:1255-1309 | running an operation code never adds or removes a lane or a hand |
| Rules.RunOpKeepsCards | binmat_api.ts:1255-1309 | running any operation code keeps the inventory, unless it throws the lane-6 stack TypeError |
| Rules.RunOpRefusals | binmat_api.ts:1255-1309 | a code failing the source's syntax check, or a combat code from a defender, answers false and changes nothing |
| Turns.FindPlayer | binmat_api.ts:1379 | the lookup finds the first player with that id, or none when no player has it |
| Turns.FindPlayerRoster | binmat_api.ts:1379 | changing players' counters never changes whom a lookup finds |
| Turns.TeamCount | binmat_api.ts:371-372 | a team never has more seats than there are players |
| Turns.OfTeam | binmat_api.ts:1368-1371 | the team filter keeps only ids starting with the team's character |
| Turns.Pids | binmat_api.ts:1194-1196 | every seat id of the order starts with `a` or `d` |
| Turns.NextOrd | binmat_api.ts:1193-1199 | setNextOrd's order holds ids starting with `a` or `d`, is a permutation of the players' seat ids, and puts all defenders before all attackers |
| Turns.DefendersFirst | binmat_api.ts:1193-1199 | defender ids followed by attacker ids put no defender after an attacker |
| Turns.OfTeamSplits | binmat_api.ts:1368-1371 | the defender ids and the attacker ids together are all the ids |
| Turns.OfTeamCounts | binmat_api.ts:1368-1371 | the team filter keeps every copy of an id of that team |
| Turns.NotSubmittedEmpty | binmat_api.ts:1429-1437 | no seat is left unsubmitted exactly when every seat of the team to move has an op queued |
| Turns.QueuedRun | binmat_api.ts:1378-1383 | a seat with no queued op answers false and leaves the board unchanged |
| Turns.QueuedRunKeepsCards | binmat_api.ts:1378-1383 | running a seat's queued op keeps the inventory, unless it throws the lane-6 stack TypeError |
| Turns.SeatTurn | binmat_api.ts:1377-1396 | one seat's pass keeps the board sound and the players' identities, and never answers false |
| Turns.PlayOrder | binmat_api.ts:1377-1396 | the whole loop keeps the board sound and the players' identities, and never answers false |
| Turns.SeatTurnKeepsCards | binmat_api.ts:1377-1396 | one seat's pass keeps the inventory, unless it throws the lane-6 stack TypeError |
| Turns.PlayOrderKeepsCards | binmat_api.ts:1377-1396 | the whole loop keeps the inventory, unless it stops at the lane-6 stack TypeError |
| Turns.SeatTurnTally | binmat_api.ts:1377-1396 | a seat's counter becomes 0 or goes up by one, goes up when it queued nothing, and other seats' counters are unchanged |
| Turns.PlayOrderTallies | binmat_api.ts:1377-1396 | an idle seat's counter goes up once for each time it appears in the order |
| Turns.PlayOrderTalliesOnce | binmat_api.ts:1377-1396 | a seat that appears once in the order ends with a counter of 0 or its old count plus one |
| Turns.RunTurnOutcome | binmat_api.ts:1362-1406 | runTurn never answers false; at the turn limit it ends the game for the defenders with nothing changed; otherwise it logs the turn header, keeps nextOrd and the roster, and on success advances the turn and clears the queue |
| Turns.RunTurn | binmat_api.ts:1362-1406 | a turn keeps the board sound and never answers false |
| Turns.RunTurnKeepsCards | binmat_api.ts:1362-1406 | a whole turn keeps the inventory, unless it stops at the lane-6 stack TypeError |
| Turns.RunTurnCountsNoOp | binmat_api.ts:1377-1396 | a seat of the moving team that queued nothing ends a successful turn with its counter one higher |
| Turns.QueueOp | binmat_api.ts:1408-1444 | queueOp keeps the board sound and answers false exactly when it refuses the op |
| Turns.QueueOpOutcome | binmat_api.ts:1408-1444 | queueOp answers false exactly for the wrong team, an op already queued or a code failing the source's syntax check, and then changes nothing; otherwise the op is queued, and the turn runs once the whole team has submitted |
| Turns.QueueOpKeepsCards | binmat_api.ts:1408-1444 | queueing an op keeps the inventory, unless the turn it runs stops at the lane-6 stack TypeError |
| Engine.Game.Opened | binmat_api.ts:382-389 | from a sound board holding the full deck, the game is valid and its fields take the opening board, seed, players, empty log and queue, turn 0, ongoing, and setNextOrd's order |
| Engine.Game.DrawCard | binmat_api.ts:854-912 | drawing in place leaves exactly drawCard's board and seed and nothing else changed, and keeps a valid game valid |
| Engine.Game.Refill | binmat_api.ts:875-891 | the in-place reshuffle leaves exactly the specified board and seed |
| Engine.Game.TakeTop | binmat_api.ts:895-909 | the in-place pop leaves exactly the specified board |
| Engine.Game.PopTraps | binmat_api.ts:1061-1081 | the in-place pops leave exactly the specified board |
| Engine.Game.Damage | binmat_api.ts:1158-1181 | the damage loop in place, with the source's decimal seat id, leaves exactly the specified board and seed |
| Engine.Game.BounceCombat | binmat_api.ts:1023-1032 | the in-place bounce leaves exactly the specified board |
| Engine.Game.Combat | binmat_api.ts:1034-1184 | combat in place gives combat's outcome, board and seed, and keeps a valid game valid |
| Engine.Game.Fight | binmat_api.ts:1082-1184 | the in-place fight gives the specified outcome, board and seed |
| Engine.Game.Settle | binmat_api.ts:1091-1184 | each in-place resolution gives the specified outcome, board and seed |
| Engine.Game.SpliceCardFromHand | binmat_api.ts:526-560 | the in-place splice returns the first fitting card and removes it from the hand, or changes nothing when none fits |
| Engine.Game.SpliceAt | binmat_api.ts:544-558 | the loops find the index the lookup specifies |
| Engine.Game.FilterValue | binmat_api.ts:544 | the loop collects exactly the indices of the cards with that value |
| Engine.Game.FindSign | binmat_api.ts:551 | the loop finds the first filtered card with that sign |
| Engine.Game.MoveFromHand | binmat_api.ts:936-1007 | a card moves exactly when one fits, and then the first fit leaves the hand for the target with the chosen face |
| Engine.Game.DiscardCard | binmat_api.ts:914-956 | discarding in place gives discardCard's outcome, board and seed, and keeps a valid game valid |
| Engine.Game.DiscardSteps | binmat_api.ts:914-956 | the steps of discardCard in place give its outcome, board and seed |
| Engine.Game.PlayCard | binmat_api.ts:958-1021 | playing in place, lane 6 included, gives playCard's outcome, board and seed, and keeps a valid game valid unless a play to lane 6 throws |
| Engine.Game.PlaySteps | binmat_api.ts:958-1021 | the steps of playCard in place give its outcome, board and seed |
| Engine.Game.RunOp | binmat_api.ts:1255-1309 | running an op in place, read as the source reads it, gives runOp's outcome, board and seed, and keeps a valid game valid unless it throws the lane-6 stack TypeError |
| Engine.Game.PlaySeat | binmat_api.ts:1377-1396 | one seat's pass in place updates the board and the players as specified and nothing else |
| Engine.Game.PlaySeats | binmat_api.ts:1377-1396 | the in-place loop over the order updates the board and the players as specified |
| Engine.Game.RunTurn | binmat_api.ts:1362-1406 | runTurn in place gives runTurn's outcome and game snapshot, and keeps a valid game valid unless it stops at the lane-6 stack TypeError |
| Engine.Game.PlayTurn | binmat_api.ts:1367-1406 | a turn below the limit, in place, gives the specified outcome and snapshot |
| Engine.Game.QueueOp | binmat_api.ts:1408-1444 | queueOp in place gives queueOp's outcome and snapshot, and keeps a valid game valid unless the turn stops at the lane-6 stack TypeError |
| Engine.Game.Waiting | binmat_api.ts:1429-1432 | the loop collects exactly the team's seats with no op queued |

## Left out

- Logging, the database, rendering (`displayCards`, `toBrainState`), the lobby (`createLobby`, `setSettings`, `joinGameAs`) and `getSuggestedSeed`: these are I/O or user interface, not game rules.
- `lastTurn` and `Date.now`: the clock is not modelled.
- `shuffleArray` is a parameter: any function that returns a permutation of its cards and a new seed (`Rules.Shuffler`). Its exact order depends on floating-point arithmetic.
- The float output of `sfc32` is not modelled. `rInt` is modelled exactly on the 32-bit output as floor(t × (max+1) / 2^32) (`Rng.Scale`). That is rInt for max + 1 <= 2^21 (`Rng.ScaleExact`); the deal passes at most 77 and 5.
- Turns.NextOrd: only the `playerIndex` setting is modelled, and the order within a team is the players' seat order. The source's comparators compare only the second character, and they are not consistent comparators, so the order within a team depends on the sort's implementation. The `ramdom` setting is left out.
- `Math.log2` on doubles is modelled as the exact integer `Power.FloorLog2`. The two agree for the sums the game can reach.
- `Array(n).fill([])` makes every hand of a team one shared array, but no card enters a hand before the new game is saved, and every command reloads the game from the database, which gives each seat its own array. The model gives each seat its own hand from the start, which is the same behaviour.
- `endGame` is modelled as `Threw(GameOver(winner))`, matching the source's throw. The model does not undo the changes made before the throw. `kickPlayer` is empty in the source and is not modelled.
- The command handler catches every error and then does not save the game (binmat_api.ts:1680-1686), so the state a throw leaves is discarded. The model returns that state as it is. Rules.RunOpKeepsCards, Turns.RunTurnKeepsCards, Turns.QueueOpKeepsCards and the `Valid()` postconditions of Engine.Game.PlayCard, RunOp, RunTurn and QueueOp therefore exclude the `StackMissing` throw: on that path the spliced card is in no zone of the returned state.
- The lane-6 TypeError is one fault, `StackMissing`. The model does not distinguish the read of `stack.cards` from the push onto it.
- The inactivity rule (`markInactiveTurns`, `kickOnInactive`) only calls the empty `kickPlayer`, so only the counter is modelled.
- `createGameState` returning false when the players list is missing is not modelled: the model always takes a list of players.
- A queued op of `null` is modelled as no entry in `queuedOps`. An empty queued op counts as not yet submitted, as the source's truthiness test does.
- Recon entries must start with one of `23456789a?>@*X` (`Recon.WellFormedEntry`). Any other first character makes the source's sum NaN.
- The results of the two draws after a discard to lane 6 are ignored, as in the source.
- playCard: the source's comment says that an attacker may not play `?` face up on a non-empty stack, but the code refuses it on an empty stack. The model follows the code.
- Integer widths: the hash and the generator use `bv32` with explicit wrap-around. Sums of card values are unbounded integers; they stay far below 2^53.

## Findings

| source | as written | input that shows it | evidently intended | confidence | as-written member | corrected member |
|---|---|---|---|---|---|---|
| binmat_api.ts:1247-1251 | the lane check rejects only lanes above 6, so the character `6` passes for every card code, and playCard then reads or pushes onto lane 6's combat stack, which does not exist | `p26` passes the syntax check; playCard splices the 2 from the hand and throws a TypeError at the push (line 1012), or at line 992 before the splice for `p>6`; the handler's catch skips the save; when the last seat of a team submits it, that submission is discarded and the seat may submit again, but when another seat submits it first, queueOp saves it (line 1443), that seat cannot resubmit (line 1418), and while the card is still in its hand every completing submission throws, so the turn never completes | lanes are `0`–`5` for plays, and `a` (for discards only) is the attacker pile, as the comment at 1337 says | medium, not executed | Rules.PlayOnAttackerLane | Ops.ParseOpText |
| binmat_api.ts:1318-1356 | `Number()` of a white-space character is 0, so a blank passes as lane 0 | `d `, `c ` and `x2 ` pass the syntax check as lane 0 | only the digits `0`–`5` (and `a`) name a lane | medium, not executed | Ops.BlankLaneAsWritten | Ops.DrawSyntax |
| binmat_api.ts:1165 | the damage seat id is built with the decimal number `i % n`, but seat ids are read as hexadecimal | with 11 attackers, damage for seat 10 builds `a10`, which reads as seat 1 | the seat digit is written in hexadecimal, as `decToHex` does | medium, not executed | Rules.DamagePidAsWrittenMisreads | Rules.DamagePidSeat |

The engine runs the source's readings: `Ops.ParseOpAsWritten` and
`Ops.CheckOpSyntaxAsWritten` for operation codes, `Rules.DamagePidAsWritten`
for damage seats, and `Rules.PlayCard` throws `StackMissing` on lane 6. The
corrected readings `Ops.ParseOp`, `Ops.CheckOpSyntax` and `Rules.DamagePid`
are defined beside them with their properties proved, and
`Ops.ParseOpAsWrittenExtends` shows that the source's reading agrees with the
digit-only one on every code the latter accepts.
