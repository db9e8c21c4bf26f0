// The turn controller of binmat_api.ts as functions on a snapshot of the
// game record: setNextOrd (its playerIndex branch), runTurn and queueOp.
// The class in game.dfy carries them out with loops on its fields.
module Turns {
  import opened Cards
  import opened Rng
  import opened Rules
  import Ops

  /** A seat at the table, or a spectator (who has no id). */
  datatype User =
    | Player(username: string, team: Team, id: string, consecutiveNoOps: nat)
    | Spectator(username: string)

  /** The fields of the game record that a turn reads or writes. */
  datatype Snapshot = Snapshot(
    board: Board,
    players: seq<User>,
    binlog: seq<string>,
    turn: nat,
    queuedOps: map<string, string>,
    nextOrd: seq<string>)

  /** Whether `u` is a seat with id `id`. */
  predicate HasId(u: User, id: string)
  {
    u.Player? && u.id == id
  }

  // ---------------------------------------------------------------- seats and rosters

  /** players.find(el => el.id === id), as a position in the list. */
  function FindPlayer(players: seq<User>, id: string): (r: Option<nat>)
    ensures r.Some? ==> r.value < |players| && HasId(players[r.value], id)
    ensures r.Some? ==> forall j :: 0 <= j < r.value ==> !HasId(players[j], id)
    ensures r.None? ==> forall j :: 0 <= j < |players| ==> !HasId(players[j], id)
  {
    if |players| == 0 then None
    else if HasId(players[0], id) then Some(0)
    else match FindPlayer(players[1..], id)
      case None => None
      case Some(k) => Some(k + 1)
  }

  /** A user with the no-op counter cleared: what a turn may not change about a seat. */
  function Seated(u: User): User
  {
    if u.Player? then u.(consecutiveNoOps := 0) else u
  }

  /** The users with their no-op counters cleared, in order. */
  function Roster(players: seq<User>): (r: seq<User>)
    ensures |r| == |players|
  {
    seq(|players|, i requires 0 <= i < |players| => Seated(players[i]))
  }

  /** Seat lookup reads only the roster, not the counters. */
  lemma FindPlayerRoster(a: seq<User>, b: seq<User>, id: string)
    requires Roster(a) == Roster(b)
    ensures FindPlayer(a, id) == FindPlayer(b, id)
  {
    assert forall j :: 0 <= j < |a| ==> (HasId(a[j], id) <==> HasId(Roster(a)[j], id));
    assert forall j :: 0 <= j < |b| ==> (HasId(b[j], id) <==> HasId(Roster(b)[j], id));
  }

  /** The counter update of runTurn: 0 after an op that ran, one more otherwise. */
  function Tally(u: User, valid: bool): User
    requires u.Player?
  {
    u.(consecutiveNoOps := if valid then 0 else u.consecutiveNoOps + 1)
  }

  /** players.filter(el => el.team === t).length: the hands createGameState gives team `t`. */
  function TeamCount(players: seq<User>, t: Team): (r: nat)
    ensures r <= |players|
  {
    if |players| == 0 then 0
    else (if players[0].Player? && players[0].team == t then 1 else 0) + TeamCount(players[1..], t)
  }

  // ---------------------------------------------------------------- setNextOrd

  /** The ids of `ids` whose first character is `c` (filter(el => el[0] === c)), in order. */
  function OfTeam(ids: seq<string>, c: char): (r: seq<string>)
    ensures forall i :: 0 <= i < |r| ==> |r[i]| > 0 && r[i][0] == c
    ensures |r| <= |ids|
  {
    if |ids| == 0 then []
    else (if |ids[0]| > 0 && ids[0][0] == c then [ids[0]] else []) + OfTeam(ids[1..], c)
  }

  /** The ids of the seats, in seat order, that start with 'a' or 'd'. */
  function Pids(players: seq<User>): (r: seq<string>)
    ensures forall i :: 0 <= i < |r| ==> |r[i]| > 0 && (r[i][0] == 'a' || r[i][0] == 'd')
  {
    if |players| == 0 then []
    else
      var u := players[0];
      (if u.Player? && |u.id| > 0 && (u.id[0] == 'a' || u.id[0] == 'd') then [u.id] else []) + Pids(players[1..])
  }

  /**
   * setNextOrd for the playerIndex order: the defender ids, then the
   * attacker ids. Within a team the source sorts by the second character of
   * the id with a comparator that never answers 0; the model keeps seat order.
   */
  function NextOrd(players: seq<User>): (r: seq<string>)
    ensures forall i :: 0 <= i < |r| ==> |r[i]| > 0 && (r[i][0] == 'a' || r[i][0] == 'd')
    ensures multiset(r) == multiset(Pids(players))
    ensures forall i, j :: 0 <= i < j < |r| && r[i][0] == 'a' ==> r[j][0] == 'a'
  {
    OfTeamSplits(Pids(players));
    DefendersFirst(OfTeam(Pids(players), 'd'), OfTeam(Pids(players), 'a'));
    OfTeam(Pids(players), 'd') + OfTeam(Pids(players), 'a')
  }

  /** Splitting ids that all start with 'a' or 'd' into the two teams loses and adds none. */
  lemma {:induction false} OfTeamSplits(ids: seq<string>)
    requires forall i :: 0 <= i < |ids| ==> |ids[i]| > 0 && (ids[i][0] == 'a' || ids[i][0] == 'd')
    ensures multiset(OfTeam(ids, 'd')) + multiset(OfTeam(ids, 'a')) == multiset(ids)
  {
    if |ids| > 0 {
      OfTeamSplits(ids[1..]);
      assert ids == [ids[0]] + ids[1..];
    }
  }

  /** Defender ids then attacker ids: no defender id comes after an attacker id. */
  lemma DefendersFirst(d: seq<string>, a: seq<string>)
    requires forall i :: 0 <= i < |d| ==> |d[i]| > 0 && d[i][0] == 'd'
    requires forall i :: 0 <= i < |a| ==> |a[i]| > 0 && a[i][0] == 'a'
    ensures forall i, j :: 0 <= i < j < |d + a| && (d + a)[i][0] == 'a' ==> (d + a)[j][0] == 'a'
  {
  }

  // ---------------------------------------------------------------- runTurn

  /** turn % 2 === 0 ? 'd' : 'a' */
  function TeamOfTurn(turn: nat): Team
  {
    if turn % 2 == 0 then Defender else Attacker
  }

  /** The seat's queued op run, or false with the board untouched when it queued none. */
  function QueuedRun(b: Board, pid: string, ops: map<string, string>, shuffle: Shuffler): (r: (Outcome, Board))
    requires Sound(b.state)
    ensures SameShape(r.1.state, b.state)
    ensures Idle(ops, pid) ==> r == (Returned(false), b)
  {
    if pid in ops then
      RunOpRefusals(b, pid, ops[pid], shuffle);
      RunOp(b, pid, ops[pid], shuffle)
    else (Returned(false), b)
  }

  /** Running the queued op, if any, creates and loses no card, unless it is a play to lane 6 that throws. */
  lemma QueuedRunKeepsCards(b: Board, pid: string, ops: map<string, string>, shuffle: Shuffler)
    requires Sound(b.state)
    ensures var r := QueuedRun(b, pid, ops, shuffle);
      r.0 != Threw(StackMissing) ==> Inventory(r.1.state) == Inventory(b.state)
  {
    if pid in ops {
      RunOpKeepsCards(b, pid, ops[pid], shuffle);
    }
  }

  /**
   * One pass of runTurn's loop for seat `pid`: the seat must be a player
   * (else the turn throws), its queued op, if any, is run, and its counter
   * is tallied. An op that throws leaves the board as it got.
   */
  function SeatTurn(b: Board, players: seq<User>, pid: string, ops: map<string, string>, shuffle: Shuffler): (r: (Outcome, Board, seq<User>))
    requires Sound(b.state)
    ensures Sound(r.1.state) && SameShape(r.1.state, b.state)
    ensures Roster(r.2) == Roster(players)
    ensures r.0.Threw? || r.0 == Returned(true)
  {
    match FindPlayer(players, pid)
    case None => (Threw(PlayerNotFound), b, players)
    case Some(k) =>
      var (o, b1) := QueuedRun(b, pid, ops, shuffle);
      if o.Threw? then (o, b1, players)
      else
        var players1 := players[k := Tally(players[k], o.ok)];
        assert Roster(players1) == Roster(players);
        (Returned(true), b1, players1)
  }

  /** The loop of runTurn over the seats of `ord`, which stops at the first error. */
  function PlayOrder(b: Board, players: seq<User>, ord: seq<string>, ops: map<string, string>, shuffle: Shuffler): (r: (Outcome, Board, seq<User>))
    requires Sound(b.state)
    ensures Sound(r.1.state) && SameShape(r.1.state, b.state)
    ensures Roster(r.2) == Roster(players)
    ensures r.0.Threw? || r.0 == Returned(true)
    decreases |ord|
  {
    if |ord| == 0 then (Returned(true), b, players)
    else
      var (o, b1, players1) := SeatTurn(b, players, ord[0], ops, shuffle);
      if o.Threw? then (o, b1, players1)
      else PlayOrder(b1, players1, ord[1..], ops, shuffle)
  }

  /** The line runTurn appends to the log. */
  function TurnHeader(turn: nat): string
  {
    DecimalString(turn) + " ---"
  }

  /**
   * runTurn: at the turn limit the game ends with the defenders' win (an
   * error); otherwise the log gets the turn's header, the seats of the team
   * to move run their ops in nextOrd order, and then the turn advances and
   * the queue is cleared. The new order setNextOrd computes is discarded.
   */
  function RunTurn(g: Snapshot, turnLimit: nat, shuffle: Shuffler): (r: (Outcome, Snapshot))
    requires Sound(g.board.state)
    ensures Sound(r.1.board.state)
    ensures r.0 != Returned(false)
  {
    if g.turn == turnLimit then (Threw(GameOver(Defender)), g)
    else
      var logged := g.(binlog := g.binlog + [TurnHeader(g.turn)]);
      var ord := OfTeam(g.nextOrd, TeamChar(TeamOfTurn(g.turn)));
      var (o, b, players) := PlayOrder(g.board, g.players, ord, g.queuedOps, shuffle);
      if o.Threw? then (o, logged.(board := b, players := players))
      else (Returned(true), logged.(board := b, players := players, turn := g.turn + 1, queuedOps := map[]))
  }

  // ---------------------------------------------------------------- queueOp

  /** The ids of the seats of team `t` with no op queued, in seat order (the notSubmitted list). */
  function NotSubmitted(players: seq<User>, t: Team, ops: map<string, string>): seq<string>
  {
    if |players| == 0 then []
    else
      var u := players[|players| - 1];
      NotSubmitted(players[..|players| - 1], t, ops) + (if u.Player? && u.team == t && u.id !in ops then [u.id] else [])
  }

  /** notSubmitted is empty exactly when every seat of the team has an op queued. */
  lemma {:induction false} NotSubmittedEmpty(players: seq<User>, t: Team, ops: map<string, string>)
    ensures NotSubmitted(players, t, ops) == [] <==>
      forall i :: 0 <= i < |players| && players[i].Player? && players[i].team == t ==> players[i].id in ops
    decreases |players|
  {
    if |players| > 0 {
      var n := |players| - 1;
      NotSubmittedEmpty(players[..n], t, ops);
      assert forall i :: 0 <= i < n ==> players[..n][i] == players[i];
    }
  }

  /** Whether queueOp turns the op down: not this seat's team's turn, an op already queued, or bad syntax. */
  predicate QueueRefused(g: Snapshot, op: string, pid: string)
  {
    |pid| == 0 || pid[0] != TeamChar(TeamOfTurn(g.turn)) ||
    (pid in g.queuedOps && g.queuedOps[pid] != "") ||
    !Ops.CheckOpSyntaxAsWritten(op)
  }

  /**
   * queueOp(op, pid): a refused op answers false; otherwise the op is
   * queued, and once every seat of the team to move has an op the turn runs.
   */
  function QueueOp(g: Snapshot, op: string, pid: string, turnLimit: nat, shuffle: Shuffler): (r: (Outcome, Snapshot))
    requires Sound(g.board.state)
    ensures Sound(r.1.board.state)
    ensures r.0 == Returned(false) <==> QueueRefused(g, op, pid)
  {
    if QueueRefused(g, op, pid) then (Returned(false), g)
    else
      var g1 := g.(queuedOps := g.queuedOps[pid := op]);
      if NotSubmitted(g1.players, TeamOfTurn(g.turn), g1.queuedOps) == [] then RunTurn(g1, turnLimit, shuffle)
      else (Returned(true), g1)
  }

  // ---------------------------------------------------------------- properties of a turn

  /** One pass of the loop creates and loses no card, unless it ends in a play to lane 6 that throws. */
  lemma SeatTurnKeepsCards(b: Board, players: seq<User>, pid: string, ops: map<string, string>, shuffle: Shuffler)
    requires Sound(b.state)
    ensures var r := SeatTurn(b, players, pid, ops, shuffle);
      r.0 != Threw(StackMissing) ==> Inventory(r.1.state) == Inventory(b.state)
  {
    QueuedRunKeepsCards(b, pid, ops, shuffle);
  }

  /** Running the seats' ops creates and loses no card, unless the run stops at a play to lane 6 that throws. */
  lemma {:induction false} PlayOrderKeepsCards(b: Board, players: seq<User>, ord: seq<string>, ops: map<string, string>, shuffle: Shuffler)
    requires Sound(b.state)
    ensures var r := PlayOrder(b, players, ord, ops, shuffle);
      r.0 != Threw(StackMissing) ==> Inventory(r.1.state) == Inventory(b.state)
    decreases |ord|
  {
    if |ord| > 0 {
      SeatTurnKeepsCards(b, players, ord[0], ops, shuffle);
      var (o, b1, players1) := SeatTurn(b, players, ord[0], ops, shuffle);
      if !o.Threw? {
        PlayOrderKeepsCards(b1, players1, ord[1..], ops, shuffle);
      }
    }
  }

  /** Whether seat `pid` has no op that can run: none is queued, or the one queued fails the syntax check. */
  predicate Idle(ops: map<string, string>, pid: string)
  {
    pid !in ops || !Ops.CheckOpSyntaxAsWritten(ops[pid])
  }

  /**
   * One pass for seat `p0` touches only the counter of the seat it finds:
   * seat `k`, found for `pid`, stays where it is, keeps its counter when
   * `p0` is another id, and otherwise ends at 0 or one higher, one higher
   * when it has no op that can run.
   */
  lemma SeatTurnTally(b: Board, players: seq<User>, p0: string, ops: map<string, string>, shuffle: Shuffler, pid: string, k: nat)
    requires Sound(b.state)
    requires FindPlayer(players, pid) == Some(k)
    ensures var r := SeatTurn(b, players, p0, ops, shuffle);
      r.0.Threw? || (FindPlayer(r.2, pid) == Some(k) && r.2[k].Player? &&
        (p0 != pid ==> r.2[k] == players[k]) &&
        (p0 == pid ==> r.2[k].consecutiveNoOps == 0 || r.2[k].consecutiveNoOps == players[k].consecutiveNoOps + 1) &&
        (p0 == pid && Idle(ops, pid) ==> r.2[k].consecutiveNoOps == players[k].consecutiveNoOps + 1))
  {
    var r := SeatTurn(b, players, p0, ops, shuffle);
    FindPlayerRoster(r.2, players, pid);
    match FindPlayer(players, p0)
    case None =>
    case Some(k0) =>
      assert k0 == k <==> p0 == pid;
  }

  /**
   * A seat with no op that can run has its no-op counter raised by one for
   * each time its id comes up in the order, unless the turn throws; a seat
   * whose id does not come up keeps its counter.
   */
  lemma {:induction false} PlayOrderTallies(b: Board, players: seq<User>, ord: seq<string>, ops: map<string, string>, shuffle: Shuffler, pid: string, k: nat)
    requires Sound(b.state)
    requires FindPlayer(players, pid) == Some(k)
    requires Idle(ops, pid) || pid !in ord
    ensures var r := PlayOrder(b, players, ord, ops, shuffle);
      r.0.Threw? || (r.2[k].Player? && r.2[k].consecutiveNoOps == players[k].consecutiveNoOps + multiset(ord)[pid])
    decreases |ord|
  {
    if |ord| > 0 {
      assert ord == [ord[0]] + ord[1..];
      SeatTurnTally(b, players, ord[0], ops, shuffle, pid, k);
      var (o, b1, players1) := SeatTurn(b, players, ord[0], ops, shuffle);
      if !o.Threw? {
        PlayOrderTallies(b1, players1, ord[1..], ops, shuffle, pid, k);
      }
    }
  }

  /**
   * A seat whose id comes up once in the order ends with its no-op counter
   * at 0 (its op ran and answered true) or one higher (it did not), unless
   * the turn throws.
   */
  lemma {:induction false} PlayOrderTalliesOnce(b: Board, players: seq<User>, ord: seq<string>, ops: map<string, string>, shuffle: Shuffler, pid: string, k: nat)
    requires Sound(b.state)
    requires FindPlayer(players, pid) == Some(k)
    requires multiset(ord)[pid] == 1
    ensures var r := PlayOrder(b, players, ord, ops, shuffle);
      r.0.Threw? || (r.2[k].Player? &&
        (r.2[k].consecutiveNoOps == 0 || r.2[k].consecutiveNoOps == players[k].consecutiveNoOps + 1))
    decreases |ord|
  {
    assert ord == [ord[0]] + ord[1..];
    SeatTurnTally(b, players, ord[0], ops, shuffle, pid, k);
    var (o, b1, players1) := SeatTurn(b, players, ord[0], ops, shuffle);
    if !o.Threw? {
      if ord[0] == pid {
        assert pid !in ord[1..];
        PlayOrderTallies(b1, players1, ord[1..], ops, shuffle, pid, k);
      } else {
        PlayOrderTalliesOnce(b1, players1, ord[1..], ops, shuffle, pid, k);
      }
    }
  }

  /**
   * runTurn never answers false. At the turn limit it ends the game with
   * the defenders' win and changes nothing. Otherwise it logs the turn
   * header, keeps every seat's username, team and id, and keeps nextOrd; if
   * it does not throw, the turn advances by exactly one and the queue is
   * empty, and if it throws the turn and the queue are as they were.
   */
  lemma RunTurnOutcome(g: Snapshot, turnLimit: nat, shuffle: Shuffler)
    requires Sound(g.board.state)
    ensures var r := RunTurn(g, turnLimit, shuffle);
      r.0 != Returned(false) &&
      (g.turn == turnLimit ==> r == (Threw(GameOver(Defender)), g)) &&
      (g.turn != turnLimit ==>
        r.1.binlog == g.binlog + [TurnHeader(g.turn)] && r.1.nextOrd == g.nextOrd &&
        Roster(r.1.players) == Roster(g.players) &&
        (r.0 == Returned(true) ==> r.1.turn == g.turn + 1 && r.1.queuedOps == map[]) &&
        (r.0.Threw? ==> r.1.turn == g.turn && r.1.queuedOps == g.queuedOps))
  {
  }

  /**
   * A turn creates and loses no card, unless it stops at a play to lane 6
   * that throws (the state that error leaves is never saved).
   */
  lemma RunTurnKeepsCards(g: Snapshot, turnLimit: nat, shuffle: Shuffler)
    requires Sound(g.board.state)
    ensures var r := RunTurn(g, turnLimit, shuffle);
      r.0 != Threw(StackMissing) ==> Inventory(r.1.board.state) == Inventory(g.board.state)
  {
    if g.turn != turnLimit {
      PlayOrderKeepsCards(g.board, g.players, OfTeam(g.nextOrd, TeamChar(TeamOfTurn(g.turn))), g.queuedOps, shuffle);
    }
  }

  /**
   * In a turn that does not throw, a seat of the team to move that appears
   * once in nextOrd and has no op that can run ends with its no-op counter
   * one higher.
   */
  lemma RunTurnCountsNoOp(g: Snapshot, turnLimit: nat, shuffle: Shuffler, k: nat)
    requires Sound(g.board.state) && g.turn != turnLimit
    requires k < |g.players| && g.players[k].Player?
    requires var pid := g.players[k].id;
      FindPlayer(g.players, pid) == Some(k) && Idle(g.queuedOps, pid) &&
      |pid| > 0 && pid[0] == TeamChar(TeamOfTurn(g.turn)) && multiset(g.nextOrd)[pid] == 1
    ensures var r := RunTurn(g, turnLimit, shuffle);
      r.0 == Returned(true) ==> r.1.players[k].Player? && r.1.players[k].consecutiveNoOps == g.players[k].consecutiveNoOps + 1
  {
    var pid := g.players[k].id;
    var c := TeamChar(TeamOfTurn(g.turn));
    OfTeamCounts(g.nextOrd, c, pid);
    PlayOrderTallies(g.board, g.players, OfTeam(g.nextOrd, c), g.queuedOps, shuffle, pid, k);
  }

  /** Filtering by the first character keeps every copy of an id that starts with it. */
  lemma {:induction false} OfTeamCounts(ids: seq<string>, c: char, x: string)
    requires |x| > 0 && x[0] == c
    ensures multiset(OfTeam(ids, c))[x] == multiset(ids)[x]
  {
    if |ids| > 0 {
      OfTeamCounts(ids[1..], c, x);
      assert ids == [ids[0]] + ids[1..];
    }
  }

  /**
   * queueOp answers false exactly when it refuses the op, and then changes
   * nothing. An accepted op is queued; while a seat of the team to move
   * still has no op, that is all, and once none is missing the turn runs on
   * the queue holding it.
   */
  lemma QueueOpOutcome(g: Snapshot, op: string, pid: string, turnLimit: nat, shuffle: Shuffler)
    requires Sound(g.board.state)
    ensures var r := QueueOp(g, op, pid, turnLimit, shuffle);
      (r.0 == Returned(false) <==> QueueRefused(g, op, pid)) &&
      (QueueRefused(g, op, pid) ==> r.1 == g) &&
      (!QueueRefused(g, op, pid) ==>
        var g1 := g.(queuedOps := g.queuedOps[pid := op]);
        if forall i :: 0 <= i < |g.players| && g.players[i].Player? && g.players[i].team == TeamOfTurn(g.turn) ==> g.players[i].id in g1.queuedOps
        then r == RunTurn(g1, turnLimit, shuffle)
        else r == (Returned(true), g1))
  {
    var g1 := g.(queuedOps := g.queuedOps[pid := op]);
    NotSubmittedEmpty(g.players, TeamOfTurn(g.turn), g1.queuedOps);
    if !QueueRefused(g, op, pid) {
      RunTurnOutcome(g1, turnLimit, shuffle);
    }
  }

  /** Queueing an op, and the turn it may run, creates and loses no card, unless the turn stops at a play to lane 6 that throws. */
  lemma QueueOpKeepsCards(g: Snapshot, op: string, pid: string, turnLimit: nat, shuffle: Shuffler)
    requires Sound(g.board.state)
    ensures var r := QueueOp(g, op, pid, turnLimit, shuffle);
      r.0 != Threw(StackMissing) ==> Inventory(r.1.board.state) == Inventory(g.board.state)
  {
    QueueOpOutcome(g, op, pid, turnLimit, shuffle);
    if !QueueRefused(g, op, pid) {
      RunTurnKeepsCards(g.(queuedOps := g.queuedOps[pid := op]), turnLimit, shuffle);
    }
  }
}
