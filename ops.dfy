// The operation codes a seat submits (binmat_api.ts, checkOpSyntax,
// getCardAndLaneFromOp and the parsing half of runOp):
//   dL      draw from lane L (0..5, or 'a' for the attacker deck)
//   xV[S]L  discard card V (of sign S) to lane L (0..5 or 'a')
//   cL      start combat in lane L (0..5)
//   pV[S]L  play card V face-down onto lane L (0..5)
//   uV[S]L  play it face-up
// The source reads a lane character with JavaScript's Number(), which also
// accepts whitespace (as 0) and '6'. The `AsWritten` members keep that
// reading, and the engine runs it; the digit-only reading the op grammar
// describes is defined beside it, with its round trip proved.
module Ops {
  import opened Cards
  import Rng

  // ---------------------------------------------------------------- lane characters

  /** The characters JavaScript's Number() trims as white space (StrWhiteSpaceChar). */
  predicate IsJsWhiteSpace(c: char)
  {
    ('\U{0009}' <= c <= '\U{000D}') || c == '\U{0020}' || c == '\U{00A0}' || c == '\U{1680}' ||
    ('\U{2000}' <= c <= '\U{200A}') || c == '\U{2028}' || c == '\U{2029}' || c == '\U{202F}' ||
    c == '\U{205F}' || c == '\U{3000}' || c == '\U{FEFF}'
  }

  /** Number(c) for a one-character string: a digit's value, 0 for white space, None for NaN. */
  function NumberOfChar(c: char): (r: Option<nat>)
    ensures r.Some? <==> '0' <= c <= '9' || IsJsWhiteSpace(c)
    ensures r.Some? ==> r.value <= 9
  {
    if '0' <= c <= '9' then Some((c - '0') as nat)
    else if IsJsWhiteSpace(c) then Some(0)
    else None
  }

  /** The value of a decimal digit character. */
  function DigitOf(c: char): (r: Option<nat>)
    ensures r.Some? <==> '0' <= c <= '9'
    ensures r.Some? ==> r.value <= 9
  {
    if '0' <= c <= '9' then Some((c - '0') as nat) else None
  }

  function LaneChar(l: nat): (c: char)
    requires l <= 6
  {
    if l == 6 then 'a' else ('0' as int + l) as char
  }

  // ---------------------------------------------------------------- card operands

  /** What getCardAndLaneFromOp extracts: the lane (6 = attacker deck), the value, and the sign if one was given. */
  datatype CardAndLane = CardAndLane(lane: nat, value: Value, sign: Option<Sign>)

  /**
   * getCardAndLaneFromOp, reading a lane digit with `number` and accepting
   * digit lanes up to `maxLane`: op[1] must be a value; op[2] is a sign when
   * it is one of the six sign characters, and then the lane is op[3], else
   * op[2]; 'a' is lane 6, allowed only with `allowAttackerLane`. A missing
   * lane character reads as NaN.
   */
  function CardAndLaneWith(op: string, allowAttackerLane: bool, number: char -> Option<nat>, maxLane: nat): (r: Option<CardAndLane>)
    ensures r.Some? ==> |op| >= 3 && ValueOfChar(op[1]) == Some(r.value.value)
    ensures r.Some? ==> r.value.lane <= maxLane || (r.value.lane == 6 && allowAttackerLane)
  {
    if |op| < 2 || ValueOfChar(op[1]).None? then None
    else
      var signed := |op| > 2 && SignOfChar(op[2]).Some?;
      var at := if signed then 3 else 2;
      if |op| <= at then None
      else if op[at] == 'a' then
        if allowAttackerLane then Some(CardAndLane(6, ValueOfChar(op[1]).value, if signed then SignOfChar(op[2]) else None))
        else None
      else match number(op[at])
        case None => None
        case Some(n) =>
          if n > maxLane then None
          else Some(CardAndLane(n, ValueOfChar(op[1]).value, if signed then SignOfChar(op[2]) else None))
  }

  /** getCardAndLaneFromOp as written: Number() on the lane character, any result up to 6 accepted. */
  function CardAndLaneFromOpAsWritten(op: string, allowAttackerLane: bool): (r: Option<CardAndLane>)
    ensures r.Some? ==> |op| >= 3 && r.value.lane <= 6 && ValueOfChar(op[1]) == Some(r.value.value)
  {
    CardAndLaneWith(op, allowAttackerLane, NumberOfChar, 6)
  }

  /** getCardAndLaneFromOp as the op grammar means it: the lane is a digit 0..5, or 'a' where allowed. */
  function CardAndLaneFromOp(op: string, allowAttackerLane: bool): (r: Option<CardAndLane>)
    ensures r.Some? ==> r.value.lane <= 6 && (r.value.lane == 6 ==> allowAttackerLane)
  {
    CardAndLaneWith(op, allowAttackerLane, DigitOf, 5)
  }

  // ---------------------------------------------------------------- checkOpSyntax

  /** `op.length` in JavaScript: the number of UTF-16 code units, two for a character outside the BMP. */
  function JsLength(op: string): (n: nat)
    ensures n >= |op|
    ensures (forall i :: 0 <= i < |op| ==> (op[i] as int) < 0x1_0000) ==> n == |op|
  {
    |Rng.CodeUnits(op)|
  }

  /** The last character adds one code unit, or two when it lies outside the BMP. */
  lemma JsLengthLast(s: string)
    requires |s| > 0
    ensures JsLength(s) == JsLength(s[..|s| - 1]) + (if (s[|s| - 1] as int) < 0x1_0000 then 1 else 2)
  {
  }

  /**
   * checkOpSyntax, with the lane reading of `number` and the card-lane bound
   * `maxLane`. The length bounds count code units, as `op.length` does. The
   * source indexes code units too, but every character it reads must be one
   * of the op grammar's (BMP) characters, and those come before the only
   * character it does not read, so indexing characters reads the same ones.
   */
  predicate CheckOpSyntaxWith(op: string, number: char -> Option<nat>, maxLane: nat)
  {
    if |op| == 0 then false
    else if op[0] == 'd' then
      |op| == 2 && JsLength(op) == 2 && (op[1] == 'a' || (number(op[1]).Some? && number(op[1]).value <= 5))
    else if op[0] == 'x' || op[0] == 'p' || op[0] == 'u' then
      2 <= |op| && JsLength(op) <= 4 && ValueOfChar(op[1]).Some? && CardAndLaneWith(op, op[0] == 'x', number, maxLane).Some?
    else if op[0] == 'c' then
      |op| == 2 && JsLength(op) == 2 && number(op[1]).Some? && number(op[1]).value <= 5
    else false
  }

  predicate CheckOpSyntaxAsWritten(op: string)
    ensures CheckOpSyntaxAsWritten(op) ==> 2 <= |op| <= JsLength(op) <= 4 && op[0] in "dxpuc"
  {
    CheckOpSyntaxWith(op, NumberOfChar, 6)
  }

  predicate CheckOpSyntax(op: string)
    ensures CheckOpSyntax(op) ==> 2 <= |op| <= JsLength(op) <= 4 && op[0] in "dxpuc"
  {
    CheckOpSyntaxWith(op, DigitOf, 5)
  }

  // ---------------------------------------------------------------- parsed operations

  /** An operation as runOp dispatches it. Lane 6 is the attacker deck and discard. */
  datatype Op =
    | Draw(lane: nat)
    | DiscardOp(card: CardAndLane)
    | CombatOp(lane: nat)
    | Play(card: CardAndLane, up: bool)

  /** The lanes each kind of operation may name. */
  predicate ValidOp(o: Op)
  {
    match o
    case Draw(l) => l <= 6
    case DiscardOp(c) => c.lane <= 6
    case CombatOp(l) => l <= 5
    case Play(c, _) => c.lane <= 5
  }

  /** The lanes runOp can hand to a move: 0..6 (6 the attacker deck), and 0..5 for a combat. */
  predicate InLaneRange(o: Op)
  {
    match o
    case Draw(l) => l <= 6
    case DiscardOp(c) => c.lane <= 6
    case CombatOp(l) => l <= 5
    case Play(c, _) => c.lane <= 6
  }

  /**
   * The operation runOp carries out, as written: checkOpSyntax first, then
   * the first character picks the move and Number() reads the lane, 'a'
   * being 6 for a draw or a discard.
   */
  function ParseOpAsWritten(op: string): (r: Option<Op>)
    ensures r.Some? <==> CheckOpSyntaxAsWritten(op)
    ensures r.Some? ==> InLaneRange(r.value) && r.value.Draw? == (op[0] == 'd') && r.value.CombatOp? == (op[0] == 'c')
    ensures r.Some? && r.value.Play? ==> r.value.up == (op[0] == 'u') && op[0] in "pu"
  {
    if !CheckOpSyntaxAsWritten(op) then None
    else if op[0] == 'd' then Some(Draw(if op[1] == 'a' then 6 else NumberOfChar(op[1]).value))
    else if op[0] == 'x' then Some(DiscardOp(CardAndLaneFromOpAsWritten(op, true).value))
    else if op[0] == 'c' then Some(CombatOp(NumberOfChar(op[1]).value))
    else Some(Play(CardAndLaneFromOpAsWritten(op, false).value, op[0] == 'u'))
  }

  /** The operation runOp would carry out under the digit-only reading. */
  function ParseOp(op: string): (r: Option<Op>)
    ensures r.Some? <==> CheckOpSyntax(op)
    ensures r.Some? ==> ValidOp(r.value)
  {
    if !CheckOpSyntax(op) then None
    else if op[0] == 'd' then Some(Draw(if op[1] == 'a' then 6 else DigitOf(op[1]).value))
    else if op[0] == 'x' then Some(DiscardOp(CardAndLaneFromOp(op, true).value))
    else if op[0] == 'c' then Some(CombatOp(DigitOf(op[1]).value))
    else Some(Play(CardAndLaneFromOp(op, false).value, op[0] == 'u'))
  }

  function CardText(c: CardAndLane): (s: string)
    requires c.lane <= 6
    ensures forall i :: 0 <= i < |s| ==> (s[i] as int) < 0x80
  {
    [ValueChar(c.value)] + (if c.sign.Some? then [SignChar(c.sign.value)] else []) + [LaneChar(c.lane)]
  }

  /** The shortest code for an operation. */
  function OpText(o: Op): (s: string)
    requires ValidOp(o)
    ensures 2 <= |s| <= 4
    ensures JsLength(s) == |s|
  {
    match o
    case Draw(l) => ['d', LaneChar(l)]
    case DiscardOp(c) => ['x'] + CardText(c)
    case CombatOp(l) => ['c', LaneChar(l)]
    case Play(c, up) => [if up then 'u' else 'p'] + CardText(c)
  }

  /** A lane character reads back as its lane and is never a sign. */
  lemma LaneCharRoundTrip(l: nat)
    requires l <= 6
    ensures SignOfChar(LaneChar(l)).None?
    ensures l <= 5 ==> DigitOf(LaneChar(l)) == Some(l)
    ensures l == 6 <==> LaneChar(l) == 'a'
  {
  }

  lemma CardTextRoundTrip(head: char, c: CardAndLane, allowAttackerLane: bool)
    requires c.lane <= 5 || (c.lane == 6 && allowAttackerLane)
    ensures CardAndLaneFromOp([head] + CardText(c), allowAttackerLane) == Some(c)
  {
    var op := [head] + CardText(c);
    CharRoundTrips(c.value, if c.sign.Some? then c.sign.value else Caret, ' ');
    LaneCharRoundTrip(c.lane);
    assert op[1] == ValueChar(c.value);
    if c.sign.Some? {
      assert op[2] == SignChar(c.sign.value) && op[3] == LaneChar(c.lane);
    } else {
      assert op[2] == LaneChar(c.lane) && |op| == 3;
    }
  }

  /** Every valid operation has a code that parses back to it. */
  lemma ParseOpText(o: Op)
    requires ValidOp(o)
    ensures ParseOp(OpText(o)) == Some(o)
  {
    match o
    case Draw(l) => LaneCharRoundTrip(l);
    case CombatOp(l) => LaneCharRoundTrip(l);
    case DiscardOp(c) => CardTextRoundTrip('x', c, true);
    case Play(c, up) => CardTextRoundTrip(if up then 'u' else 'p', c, false);
  }

  lemma ParsedCardText(op: string, allowAttackerLane: bool)
    requires CardAndLaneFromOp(op, allowAttackerLane).Some?
    ensures var s := [op[0]] + CardText(CardAndLaneFromOp(op, allowAttackerLane).value);
      |s| <= |op| && op[..|s|] == s
  {
    var c := CardAndLaneFromOp(op, allowAttackerLane).value;
    CharRoundTrips(c.value, Caret, op[1]);
    if c.sign.Some? {
      CharRoundTrips(c.value, Caret, op[2]);
    }
  }

  /** A code that parses is its operation's shortest code, possibly followed by one ignored character. */
  lemma ParsedOpText(op: string)
    requires ParseOp(op).Some?
    ensures var s := OpText(ParseOp(op).value);
      |s| <= |op| <= |s| + 1 && op[..|s|] == s
  {
    if op[0] == 'x' {
      ParsedCardText(op, true);
    } else if op[0] == 'p' || op[0] == 'u' {
      ParsedCardText(op, false);
    } else {
      assert op[..2] == op;
    }
  }

  // ---------------------------------------------------------------- what the codes may be

  /** A draw code is 'd' and one lane character: a digit 0..5 or 'a'. */
  lemma DrawSyntax(op: string)
    requires |op| > 0 && op[0] == 'd'
    ensures CheckOpSyntax(op) <==> |op| == 2 && (op[1] == 'a' || '0' <= op[1] <= '5')
  {
  }

  /** A combat code is 'c' and a digit 0..5. */
  lemma CombatSyntax(op: string)
    requires |op| > 0 && op[0] == 'c'
    ensures CheckOpSyntax(op) <==> |op| == 2 && '0' <= op[1] <= '5'
  {
  }

  /**
   * An accepted discard or play code has 3 or 4 characters; its third
   * character is read as a sign exactly when it is one of the six sign
   * characters, and then the code has 4.
   */
  lemma CardOpShape(op: string)
    requires |op| > 0 && op[0] in "xpu" && CheckOpSyntax(op)
    ensures 3 <= |op| <= 4
    ensures var c := ParseOp(op).value.card;
      (c.sign.Some? <==> SignOfChar(op[2]).Some?) && (c.sign.Some? ==> |op| == 4 && c.sign == SignOfChar(op[2]))
    ensures ParseOp(op).value.card.value == ValueOfChar(op[1]).value
  {
  }

  /** Lane 'a' (6) is accepted for draws and discards only. */
  lemma AttackerLaneOnlyForDrawAndDiscard(op: string)
    requires ParseOp(op).Some?
    ensures ParseOp(op).value.CombatOp? ==> ParseOp(op).value.lane <= 5
    ensures ParseOp(op).value.Play? ==> ParseOp(op).value.card.lane <= 5
  {
  }

  /**
   * When the third character is the lane, a fourth character is never read;
   * it only counts towards the length, where a character outside the BMP
   * counts twice and so is refused.
   */
  lemma FourthCharIgnored(op: string)
    requires |op| == 4 && op[0] in "xpu" && SignOfChar(op[2]).None?
    ensures CheckOpSyntax(op) == (CheckOpSyntax(op[..3]) && (op[3] as int) < 0x1_0000)
    ensures CheckOpSyntax(op) ==> ParseOp(op) == ParseOp(op[..3])
  {
    var head := op[..3];
    assert head[0] == op[0] && head[1] == op[1] && head[2] == op[2];
    assert CardAndLaneWith(op, op[0] == 'x', DigitOf, 5) == CardAndLaneWith(head, op[0] == 'x', DigitOf, 5);
    JsLengthLast(op);
    if ValueOfChar(op[1]).Some? && CardAndLaneWith(head, op[0] == 'x', DigitOf, 5).Some? {
      assert forall i :: 0 <= i < 3 ==> (head[i] as int) < 0x80;
    }
  }

  // ---------------------------------------------------------------- Number() on lane characters

  /** The digit-only reading accepts fewer codes, and reads the ones it accepts the same way. */
  lemma CheckOpSyntaxNarrowsAsWritten(op: string)
    requires CheckOpSyntax(op)
    ensures CheckOpSyntaxAsWritten(op)
    ensures op[0] in "xpu" ==> CardAndLaneFromOpAsWritten(op, op[0] == 'x') == CardAndLaneFromOp(op, op[0] == 'x')
    ensures op[0] in "dc" && op[1] != 'a' ==> NumberOfChar(op[1]) == DigitOf(op[1])
  {
  }

  /** On every code the digit-only reading accepts, the source's reading gives the same operation. */
  lemma ParseOpAsWrittenExtends(op: string)
    requires CheckOpSyntax(op)
    ensures ParseOpAsWritten(op) == ParseOp(op)
  {
    CheckOpSyntaxNarrowsAsWritten(op);
  }

  /**
   * The codes only the source's reading accepts are those whose lane
   * character is white space (read as lane 0) or, for a discard or play, '6'.
   */
  lemma AsWrittenExtraCodes(op: string)
    requires CheckOpSyntaxAsWritten(op) && !CheckOpSyntax(op)
    ensures op[0] in "dc" ==> IsJsWhiteSpace(op[1])
    ensures op[0] in "xpu" ==>
      var at := if SignOfChar(op[2]).Some? then 3 else 2;
      IsJsWhiteSpace(op[at]) || op[at] == '6'
  {
  }

  /** "p26" passes the source's check and runs as a play to lane 6, which has no stack to play onto. */
  lemma PlayToLaneSixAsWritten()
    ensures CheckOpSyntaxAsWritten("p26")
    ensures ParseOpAsWritten("p26") == Some(Play(CardAndLane(6, Num(2), None), false))
    ensures !CheckOpSyntax("p26")
  {
    assert "p26"[2] == '6';
  }

  /**
   * "x25" followed by a character outside the BMP has four characters but
   * five code units, so the length check refuses it, while "x25z" passes.
   */
  lemma AstralTailRefused()
    ensures |"x25\U{1F600}"| == 4 && JsLength("x25\U{1F600}") == 5
    ensures CheckOpSyntaxAsWritten("x25z") && !CheckOpSyntaxAsWritten("x25\U{1F600}")
    ensures ParseOpAsWritten("x25\U{1F600}") == None
  {
    JsLengthLast("x25\U{1F600}");
    assert "x25\U{1F600}"[..3] == "x25";
    assert "x25z"[2] == '5';
  }

  /** "d ", "c " and "x2 " pass the source's check, the blank read as lane 0. */
  lemma BlankLaneAsWritten()
    ensures CheckOpSyntaxAsWritten("d ") && CheckOpSyntaxAsWritten("c ") && CheckOpSyntaxAsWritten("x2 ")
    ensures NumberOfChar(' ') == Some(0)
    ensures CardAndLaneFromOpAsWritten("x2 ", true) == Some(CardAndLane(0, Num(2), None))
    ensures !CheckOpSyntax("d ") && !CheckOpSyntax("c ") && !CheckOpSyntax("x2 ")
  {
    assert "x2 "[2] == ' ';
  }
}
