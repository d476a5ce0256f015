/**
 The state of a game: the board with its occupancy flags and the players with
 their positions. A flag is meant to be set exactly when some player stands on
 the space; resetting the game establishes this and every turn preserves it.
 */
module Occupancy {
  import opened Board
  import opened Movement

  /** A participant: a name, the symbol drawn for its token, and its 0-based position. */
  datatype Player = Player(name: string, symbol: char, position: int)

  datatype GameState = GameState(board: seq<Space>, players: seq<Player>)

  /** The two participants of the game, both at the start. */
  const Roster: seq<Player> := [Player("HUMAN", '$', 0), Player("COMPUTER", '%', 0)]

  /** Some player's token stands on space q (the scan of the players that ends at the first hit). */
  predicate SomePlayerAt(players: seq<Player>, q: int)
  {
    exists j :: 0 <= j < |players| && players[j].position == q
  }

  /** A configured board, at least one player, and every token on the board. */
  predicate WellFormed(st: GameState)
  {
    && ReferenceBoard(st.board)
    && |st.players| >= 1
    && forall j :: 0 <= j < |st.players| ==> 0 <= st.players[j].position <= Last
  }

  /** A space is flagged occupied exactly when some player stands on it. */
  predicate OccupancyConsistent(st: GameState)
  {
    forall q :: 0 <= q < |st.board| ==> (st.board[q].isOccupied <==> SomePlayerAt(st.players, q))
  }

  /** Every token rests on a plain space. */
  predicate OnPlainSpaces(st: GameState)
    requires WellFormed(st)
  {
    forall j :: 0 <= j < |st.players| ==> st.board[st.players[j].position].special == Plain
  }

  /**
   A new game: every space gets its configured effect, only the start space is
   flagged occupied, and every player is put back at the start.
   */
  function ResetGame(players: seq<Player>): (st: GameState)
    ensures ReferenceBoard(st.board)
    ensures forall q :: 0 <= q < |st.board| ==> st.board[q].special == GetSpecial(q)
    ensures forall q :: 0 <= q < |st.board| ==> (st.board[q].isOccupied <==> q == 0)
    ensures |st.players| == |players|
    ensures forall j :: 0 <= j < |players| ==>
      st.players[j].position == 0 && st.players[j].name == players[j].name
      && st.players[j].symbol == players[j].symbol
  {
    BoardSpecials();
    var board := seq(NumBoardSpaces, q => Space(GetSpecial(q), q == 0));
    var placed := seq(|players|, j requires 0 <= j < |players| => players[j].(position := 0));
    GameState(board, placed)
  }

  /**
   After a reset with at least one player the state is well formed, the flags
   agree with the positions, every token is on a plain space and nobody is on
   the terminal space.
   */
  lemma ResetEstablishesInvariants(players: seq<Player>)
    requires |players| >= 1
    ensures var st := ResetGame(players);
      WellFormed(st) && OccupancyConsistent(st) && OnPlainSpaces(st) && !SomePlayerAt(st.players, Last)
  {
    var st := ResetGame(players);
    BoardSpecials();
    assert st.players[0].position == 0;
    forall q | 0 <= q < |st.board|
      ensures st.board[q].isOccupied <==> SomePlayerAt(st.players, q)
    {
      if q == 0 {
        assert SomePlayerAt(st.players, 0);
      }
    }
  }

  /**
   One turn of player `current` with the given roll: the token goes where the
   movement resolver puts it; then its new space is flagged occupied and the
   space it left is cleared when no player, the mover included, is still on it.
   Nothing else changes.
   */
  function UpdatePosition(st: GameState, current: int, roll: int): (r: GameState)
    requires WellFormed(st) && 0 <= current < |st.players| && DiceRoll(roll)
    ensures WellFormed(r) && |r.players| == |st.players|
    ensures r.players[current] == st.players[current].(position := Resolve(st.board, st.players[current].position, roll))
    ensures forall j :: 0 <= j < |st.players| && j != current ==> r.players[j] == st.players[j]
    ensures forall q :: 0 <= q < |st.board| ==> r.board[q].special == st.board[q].special
    ensures r.board[r.players[current].position].isOccupied
    ensures var origin := st.players[current].position;
      origin != r.players[current].position ==>
        (r.board[origin].isOccupied <==> st.board[origin].isOccupied && SomePlayerAt(r.players, origin))
    ensures forall q ::
      (0 <= q < |st.board| && q != st.players[current].position && q != r.players[current].position)
      ==> r.board[q] == st.board[q]
  {
    var origin := st.players[current].position;
    var final := Resolve(st.board, origin, roll);
    var players := st.players[current := st.players[current].(position := final)];
    var marked := st.board[final := st.board[final].(isOccupied := true)];
    var board :=
      if SomePlayerAt(players, origin) then marked
      else marked[origin := marked[origin].(isOccupied := false)];
    assert ReferenceBoard(board) by {
      forall q | 0 <= q < |board| ensures LaidOut(board, q) {
        assert LaidOut(st.board, q);
      }
    }
    GameState(board, players)
  }

  /** A turn keeps every occupancy flag in agreement with the positions. */
  lemma UpdatePreservesOccupancy(st: GameState, current: int, roll: int)
    requires WellFormed(st) && OccupancyConsistent(st) && 0 <= current < |st.players| && DiceRoll(roll)
    ensures OccupancyConsistent(UpdatePosition(st, current, roll))
  {
    var r := UpdatePosition(st, current, roll);
    var origin := st.players[current].position;
    var final := r.players[current].position;
    assert SomePlayerAt(st.players, origin);
    assert SomePlayerAt(r.players, final);
    forall q | 0 <= q < |r.board|
      ensures r.board[q].isOccupied <==> SomePlayerAt(r.players, q)
    {
      if q != origin && q != final {
        if SomePlayerAt(st.players, q) {
          var j :| 0 <= j < |st.players| && st.players[j].position == q;
          assert r.players[j].position == q;
        }
        if SomePlayerAt(r.players, q) {
          var j :| 0 <= j < |r.players| && r.players[j].position == q;
          assert st.players[j].position == q;
        }
      }
    }
  }

  /** A turn that starts with every token on a plain space ends with every token on a plain space. */
  lemma UpdateKeepsPlainSpaces(st: GameState, current: int, roll: int)
    requires WellFormed(st) && OnPlainSpaces(st) && 0 <= current < |st.players| && DiceRoll(roll)
    ensures OnPlainSpaces(UpdatePosition(st, current, roll))
  {
    RestsOnPlain(st.board, st.players[current].position, roll);
  }

  /**
   The terminal space can only be reached by the player who moved: if nobody
   stood on it before a turn and somebody does after, it is the mover.
   */
  lemma OnlyMoverReachesTerminal(st: GameState, current: int, roll: int)
    requires WellFormed(st) && 0 <= current < |st.players| && DiceRoll(roll)
    requires !SomePlayerAt(st.players, Last)
    requires SomePlayerAt(UpdatePosition(st, current, roll).players, Last)
    ensures UpdatePosition(st, current, roll).players[current].position == Last
  {
    var r := UpdatePosition(st, current, roll);
    var j :| 0 <= j < |r.players| && r.players[j].position == Last;
    assert j == current;
  }
}
