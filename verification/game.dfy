/**
 The game loop: reset, decide who starts, then let the players take turns in
 round-robin order until, after some turn, a token stands on the terminal
 space. Rolls come from a finite supply; the game may stop for want of rolls.
 */
module Game {
  import opened Options
  import opened Board
  import opened Movement
  import opened Occupancy
  import opened TurnOrder

  /** The terminal space is flagged occupied and a player's token is on it. */
  predicate IsWinner(st: GameState): (w: bool)
    requires |st.board| == NumBoardSpaces
    ensures w ==> exists j :: 0 <= j < |st.players| && st.players[j].position == Last
  {
    st.board[Last].isOccupied && SomePlayerAt(st.players, Last)
  }

  /**
   The winner check made while the board is drawn: every space is visited, and
   on an occupied space every player standing there is drawn; the answer is set
   when that space is the terminal one.
   */
  method BoardShowsWinner(st: GameState) returns (isWinner: bool)
    requires |st.board| == NumBoardSpaces
    ensures isWinner <==> st.board[Last].isOccupied && exists j :: 0 <= j < |st.players| && st.players[j].position == Last
  {
    isWinner := false;
    var i := 0;
    while i < |st.board|
      invariant 0 <= i <= |st.board|
      invariant isWinner <==> i == |st.board| && st.board[Last].isOccupied && SomePlayerAt(st.players, Last)
    {
      if st.board[i].isOccupied {
        var j := 0;
        var found := false;
        while j < |st.players|
          invariant 0 <= j <= |st.players|
          invariant found <==> i == Last && exists k :: 0 <= k < j && st.players[k].position == i
        {
          if st.players[j].position == i && i == |st.board| - 1 {
            found := true;
          }
          j := j + 1;
        }
        isWinner := isWinner || found;
      }
      i := i + 1;
    }
  }

  /** While the flags agree with the positions, the board shows a winner exactly when a token is on the terminal space. */
  lemma WinnerIffTerminalReached(st: GameState)
    requires |st.board| == NumBoardSpaces && OccupancyConsistent(st)
    ensures IsWinner(st) <==> exists j :: 0 <= j < |st.players| && st.players[j].position == Last
  {
  }

  /** How a game ends. */
  datatype GameResult =
    | Won(winner: int, final: GameState, turns: nat)   // `winner` moved last; `turns` turns were played
    | OutOfRolls(state: GameState, next: int)           // the supply ran out before anyone won
    | NoStarter                                         // the supply ran out while deciding who starts

  /**
   The turn loop from player `current`: each turn uses one roll; the game stops
   after the first turn that leaves a winner on the board, naming the player
   who just moved, which is the player whose turn the last one was.
   */
  function PlayFrom(st: GameState, current: int, dice: seq<Roll>): (r: GameResult)
    requires WellFormed(st) && 0 <= current < |st.players|
    ensures r.Won? ==> 0 <= r.winner < |st.players| && 1 <= r.turns <= |dice| && WellFormed(r.final)
    ensures r.Won? ==> |r.final.players| == |st.players| && IsWinner(r.final)
    ensures r.Won? ==> r.winner == Advance(current, r.turns - 1, |st.players|)
    ensures r.OutOfRolls? ==> WellFormed(r.state) && 0 <= r.next < |st.players|
    ensures !r.NoStarter?
    decreases |dice|
  {
    if |dice| == 0 then OutOfRolls(st, current)
    else
      var after := UpdatePosition(st, current, dice[0]);
      if IsWinner(after) then Won(current, after, 1)
      else
        var next := NextPlayer(current, |st.players|);
        var rest := PlayFrom(after, next, dice[1..]);
        if rest.Won? then
          assert Advance(current, rest.turns, |st.players|) == Advance(next, rest.turns - 1, |st.players|);
          Won(rest.winner, rest.final, rest.turns + 1)
        else rest
  }

  /** The state after the first `m` rolls of `dice` have been played in turn, whether or not someone won on the way. */
  function Replay(st: GameState, current: int, dice: seq<Roll>, m: nat): (r: GameState)
    requires WellFormed(st) && 0 <= current < |st.players| && m <= |dice|
    ensures WellFormed(r) && |r.players| == |st.players|
    decreases m
  {
    if m == 0 then st
    else Replay(UpdatePosition(st, current, dice[0]), NextPlayer(current, |st.players|), dice[1..], m - 1)
  }

  /** Replaying m > 0 rolls is one turn followed by replaying m - 1 of the remaining rolls. */
  lemma ReplayStep(st: GameState, current: int, dice: seq<Roll>, m: nat)
    requires WellFormed(st) && 0 <= current < |st.players| && 1 <= m <= |dice|
    ensures Replay(st, current, dice, m)
      == Replay(UpdatePosition(st, current, dice[0]), NextPlayer(current, |st.players|), dice[1..], m - 1)
  {
  }

  /** However many rolls are replayed, the flags keep agreeing with the positions. */
  lemma {:induction false} ReplayKeepsOccupancy(st: GameState, current: int, dice: seq<Roll>, m: nat)
    requires WellFormed(st) && OccupancyConsistent(st) && 0 <= current < |st.players| && m <= |dice|
    ensures OccupancyConsistent(Replay(st, current, dice, m))
    decreases m
  {
    if m > 0 {
      UpdatePreservesOccupancy(st, current, dice[0]);
      ReplayKeepsOccupancy(UpdatePosition(st, current, dice[0]), NextPlayer(current, |st.players|), dice[1..], m - 1);
    }
  }

  /** A win after k turns is the state reached by replaying the first k rolls. */
  lemma {:induction false} WinIsReplayedPrefix(st: GameState, current: int, dice: seq<Roll>)
    requires WellFormed(st) && 0 <= current < |st.players|
    ensures var r := PlayFrom(st, current, dice);
      r.Won? ==> r.final == Replay(st, current, dice, r.turns)
    decreases |dice|
  {
    var r := PlayFrom(st, current, dice);
    if r.Won? {
      var after := UpdatePosition(st, current, dice[0]);
      var next := NextPlayer(current, |st.players|);
      if IsWinner(after) {
        assert r.turns == 1 && r.final == after;
        ReplayStep(st, current, dice, 1);
      } else {
        var rest := PlayFrom(after, next, dice[1..]);
        assert r.turns == rest.turns + 1 && r.final == rest.final;
        WinIsReplayedPrefix(after, next, dice[1..]);
        ReplayStep(st, current, dice, r.turns);
      }
    }
  }

  /** The loop stops at the first winning turn: no shorter replay of the rolls shows a winner. */
  lemma {:induction false} StopsAtFirstWin(st: GameState, current: int, dice: seq<Roll>)
    requires WellFormed(st) && 0 <= current < |st.players|
    ensures var r := PlayFrom(st, current, dice);
      r.Won? ==> forall m :: 1 <= m < r.turns ==> !IsWinner(Replay(st, current, dice, m))
    decreases |dice|
  {
    var r := PlayFrom(st, current, dice);
    if r.Won? && r.turns > 1 {
      var after := UpdatePosition(st, current, dice[0]);
      var next := NextPlayer(current, |st.players|);
      StopsAtFirstWin(after, next, dice[1..]);
      forall m | 1 <= m < r.turns
        ensures !IsWinner(Replay(st, current, dice, m))
      {
        if m > 1 {
          assert Replay(st, current, dice, m) == Replay(after, next, dice[1..], m - 1);
        }
      }
    }
  }

  /** Running out of rolls means that no replay of some of the rolls shows a winner. */
  lemma {:induction false} OutOfRollsMeansNoWinner(st: GameState, current: int, dice: seq<Roll>)
    requires WellFormed(st) && 0 <= current < |st.players|
    ensures PlayFrom(st, current, dice).OutOfRolls? ==>
      forall m :: 1 <= m <= |dice| ==> !IsWinner(Replay(st, current, dice, m))
    decreases |dice|
  {
    if |dice| > 0 {
      var after := UpdatePosition(st, current, dice[0]);
      var next := NextPlayer(current, |st.players|);
      if !IsWinner(after) {
        OutOfRollsMeansNoWinner(after, next, dice[1..]);
        forall m | 1 <= m <= |dice|
          ensures PlayFrom(st, current, dice).OutOfRolls? ==> !IsWinner(Replay(st, current, dice, m))
        {
          if m > 1 {
            assert Replay(st, current, dice, m) == Replay(after, next, dice[1..], m - 1);
          }
        }
      }
    }
  }

  /**
   If the flags agree with the positions and nobody stands on the terminal
   space, a won game ends with the winner's own token on the terminal space,
   and the flags still agree with the positions.
   */
  lemma {:induction false} WinnerStandsOnTerminal(st: GameState, current: int, dice: seq<Roll>)
    requires WellFormed(st) && OccupancyConsistent(st) && 0 <= current < |st.players|
    requires !SomePlayerAt(st.players, Last)
    ensures var r := PlayFrom(st, current, dice);
      r.Won? ==> r.final.players[r.winner].position == Last && OccupancyConsistent(r.final)
    decreases |dice|
  {
    if |dice| > 0 {
      var after := UpdatePosition(st, current, dice[0]);
      UpdatePreservesOccupancy(st, current, dice[0]);
      if IsWinner(after) {
        OnlyMoverReachesTerminal(st, current, dice[0]);
      } else {
        WinnerStandsOnTerminal(after, NextPlayer(current, |st.players|), dice[1..]);
      }
    }
  }

  /**
   A whole game with the two participants: reset, decide who starts from the
   first rolls, then play turns with the remaining rolls. A game that is won
   ends with the winner on the terminal space.
   */
  function RunGame(dice: seq<Roll>): (r: GameResult)
    ensures r.Won? ==>
      |r.final.players| == |Roster| && 0 <= r.winner < |Roster| && r.final.players[r.winner].position == Last
  {
    var st := ResetGame(Roster);
    ResetEstablishesInvariants(Roster);
    match DetermineFirstPlayer(|Roster|, dice)
    case None => NoStarter
    case Some(d) =>
      WinnerStandsOnTerminal(st, d.first, d.remaining);
      PlayFrom(st, d.first, d.remaining)
  }

  /**
   The game is played from the opening procedure's choice: when it decides, the
   player it chose moves first, with the rolls it left over, and a win names the
   player whose turn came last counting from there; when it does not, no game
   is played.
   */
  lemma RunGameStarts(dice: seq<Roll>)
    ensures DetermineFirstPlayer(|Roster|, dice).None? ==> RunGame(dice).NoStarter?
    ensures var d := DetermineFirstPlayer(|Roster|, dice);
      d.Some? ==>
        && 0 <= d.value.first < |Roster|
        && RunGame(dice) == PlayFrom(ResetGame(Roster), d.value.first, d.value.remaining)
        && !RunGame(dice).NoStarter?
        && (RunGame(dice).Won? ==> RunGame(dice).winner == Advance(d.value.first, RunGame(dice).turns - 1, |Roster|))
  {
    var st := ResetGame(Roster);
    ResetEstablishesInvariants(Roster);
    var decided := DetermineFirstPlayer(|Roster|, dice);
    if decided.Some? {
      var d := decided.value;
      var r := PlayFrom(st, d.first, d.remaining);
      assert RunGame(dice) == r by {
        assert decided == Some(d);
      }
      assert |st.players| == |Roster|;
    }
  }
}
