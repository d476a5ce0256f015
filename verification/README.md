# Game of the Goose — turn-resolution engine in Dafny

A model of the rules engine of a console Game of the Goose written in C
(`Main.c`): the 24-space board built from lists of special spaces, the
movement of a token for one roll of two dice (bounce-back at the end of the
track, goose chains, bridge, maze, skull), the occupancy flags kept on the
board, the round-robin turn order, the opening procedure that decides who
plays first, the winner check made while the board is drawn, and the game
loop that ties them together.

Modules follow the program's parts:

- `Board` (`board.dfy`): constants, the special-space lists, `get_Special`
  as `SpecialAt`/`GetSpecial`, and the layout they produce.
- `Movement` (`movement.dfy`): dice totals, the bounce, the goose chain of
  `update_Position` both as a recursive function (`ResolveFrom`) and as the
  program's do-while loop (`ResolveTurn`).
- `Occupancy` (`occupancy.dfy`): players, game state, `reset_Game` and
  `update_Position` with the occupancy flags.
- `TurnOrder` (`turn_order.dfy`): `next_Player` and `determine_First_Player`.
- `Game` (`game.dfy`): the winner check of `print_Board` and the loop of
  `run_Game`.
- `Options` (`options.dfy`): the `Option` type.

Randomness is a parameter: every roll is taken from a finite sequence of
dice totals (`seq<Roll>`, a `Roll` being an integer from 2 to 12), and
`RollDice` models how two values of the random source become such a total.
Space indices are 0-based as in the program; the players see them plus one.

Some details of the program differ from what a reader might expect; the model
follows the program:

- The lists of special spaces are searched in the order goose, bridge, maze,
  skull, so a number listed twice would take the effect of the earlier list;
  `SpecialAt` states this precedence for any configuration.
- The maze list names space 30, which does not exist on a 24-space board; it
  has no effect (`BoardSpecials`).
- After a tie in the opening procedure one might expect only the tied players
  to roll again. The program keeps the flags of an earlier tie when
  a later player takes the lead, so with more than two players others may
  roll again too (`StaleTieFlagsWithFourPlayers`). With the two players of
  the program this cannot happen, and the procedure is exactly a comparison
  of pairs of rolls (`TwoPlayerFirst`).

## Model

| member | source | states |
|---|---|---|
| Board.Contains | Main.c:445-451 | the search of one list finds the value exactly when it is in the list |
| Board.SpecialAt | Main.c:441-478 | a space is a goose exactly when its number is in the goose list; a bridge when it is in the bridge list and not the goose list; a maze when in the maze list and neither earlier list; a skull when only the skull list among the four holds it; plain when no list holds it |
| Board.GetSpecial | Main.c:441-478 | with the lists the game is configured with, every index gets the effect of the written-out layout |
| Board.BoardSpecials | Main.c:35-45 | on the 24 board indices the geese are exactly 6, 10, 14, the bridge exactly 5, the maze exactly 12 (space 30 is off the board), the skull exactly 22; the start, the bridge target 11 and the terminal space are plain |
| Board.ReferenceBoardSpecials | Main.c:487-489 | every space of a board laid out as reset lays it out carries the effect get_Special returns for its index |
| Movement.RollDice | Main.c:154-163 | the total of two faces is between 2 and 12, and it minus the first face is a face from 1 to 6 |
| Movement.EveryTotalRolls | Main.c:154-163 | every total from 2 to 12 can come out of some pair of values of the random source |
| Movement.Bounce | Main.c:205-211 | a target on the board is kept; a target past the terminal space lands before it by as much as it overshot; a target up to twice the terminal index lands on the board |
| Movement.BounceIsWalk | Main.c:205-211 | counting the pips of a move one space at a time from any space of the board, turning back when the terminal space is reached with pips left, ends where the bounce puts the token |
| Movement.GooseChainAdvances | Main.c:205-221 | for a roll of two dice, landing on a goose means landing on 6, 10 or 14, from a goose at least 4 spaces further on, so the goose chain always ends |
| Movement.ResolveFrom | Main.c:201-246 | the rest of a turn ends on the board, and on a plain space unless the token is back where the turn began |
| Movement.Resolve | Main.c:198-246 | a whole turn ends on the board, and on a plain space unless the token is back where the turn began |
| Movement.LandingEffects | Main.c:213-245 | the first landing space decides the turn: plain keeps it, the bridge sends to index 11, a maze back to the start of the turn, a skull to index 0, a goose continues with the same roll |
| Movement.MazeAfterGooseUndoesTurn | Main.c:231-235 | a maze reached after geese still returns the token to where the whole turn began |
| Movement.RestsOnPlain | Main.c:201-246 | a token that starts its turn on a plain space ends it on a plain space |
| Movement.ResolveTurn | Main.c:198-246 | the program's do-while loop ends where the recursive resolver says, after one to four passes |
| Occupancy.ResetGame | Main.c:483-507 | a reset board has the configured effect on every space, only the start flagged occupied, and every player at the start with name and symbol kept |
| Occupancy.ResetEstablishesInvariants | Main.c:483-507 | after a reset the flags agree with the positions, every token is on a plain space and nobody is on the terminal space |
| Occupancy.UpdatePosition | Main.c:196-268 | only the mover moves, to where the resolver puts it; its new space is flagged; its old space stays flagged exactly when it was and someone is still there; no other flag and no effect changes |
| Occupancy.UpdatePreservesOccupancy | Main.c:248-265 | a turn keeps every flag set exactly when some player stands on the space |
| Occupancy.UpdateKeepsPlainSpaces | Main.c:196-246 | a turn keeps every token on a plain space |
| Occupancy.OnlyMoverReachesTerminal | Main.c:196-246 | if nobody was on the terminal space before a turn and someone is after it, it is the player who moved |
| TurnOrder.NextPlayer | Main.c:168-182 | the next player is one of the players |
| TurnOrder.NextPlayerIsModular | Main.c:168-182 | the next player is the current one plus one, modulo the number of players |
| TurnOrder.AdvanceIsModular | Main.c:520-531 | k turns after player c it is player (c + k) mod n |
| TurnOrder.FullRoundReturns | Main.c:520-531 | after one turn per player the same player is on turn again |
| TurnOrder.StartTally | Main.c:356-369 | before the first round every player is flagged to roll, every roll is 0, player 0 is nominally first and there is no tie |
| TurnOrder.RecordRoll | Main.c:391-409 | the roller's roll is stored and no other; the highest roll becomes the larger of it and the new roll; a higher roll makes the roller the leader, clears the tie and unflags the roller; an equal roll records a tie and flags both the roller and the leader; a lower roll keeps leader and tie and unflags the roller; a roll that does not tie changes no other flag, and no flag but the roller's is ever cleared |
| TurnOrder.RoundFrom | Main.c:378-411 | the rest of a round consumes rolls from the front of the supply: at least one if some later player is flagged, and at least one per remaining player when all of them are flagged |
| TurnOrder.RollKeepsLaterFlags | Main.c:393-409 | while the leader lies below the roller, a roll changes no flag of a later player and leaves the leader below the next player |
| TurnOrder.RoundFromCountsRolls | Main.c:378-391 | with the leader below the current player, the rest of a round completes exactly when the supply holds a roll for every flagged player left, and uses exactly that many rolls |
| TurnOrder.RoundFromRecordsRolls | Main.c:378-391 | with the leader below the current player, the k-th roll the rest of the round takes is recorded as the roll of the k-th flagged player from there on |
| TurnOrder.RoundFromKeepsOtherRolls | Main.c:378-391 | the rest of a round leaves the rolls of earlier players and of players who are not flagged as they were |
| TurnOrder.RecordRollKeepsPartial | Main.c:391-409 | a flagged player's roll keeps the round's bookkeeping: leader is the first to reach the highest roll, tie recorded exactly when another roller equals it, tied rollers flagged |
| TurnOrder.SkipKeepsPartial | Main.c:380 | a player who is not flagged takes no roll and changes nothing |
| TurnOrder.RoundFromKeepsPartial | Main.c:378-411 | the bookkeeping holds at the end of the round |
| TurnOrder.CompletedRound | Main.c:374-411 | a finished round with at least one roller has the outcome RoundOutcome describes |
| TurnOrder.PlayRound | Main.c:374-411 | each flagged player takes the next roll of the supply, in player order, as its recorded roll; the round completes exactly when the supply holds one roll per flagged player and uses exactly that many; players who are not flagged keep their rolls |
| TurnOrder.PlayRoundOutcome | Main.c:374-411 | the leader rolled in the round and rolled its highest, earlier rollers rolled less, a tie is recorded exactly when another roller matched the leader, tied players and (on a tie) the leader are flagged, and nobody who sat out is flagged |
| TurnOrder.DecisiveRound | Main.c:413-429 | a round without a tie leaves a leader that beat every other roller of the round |
| TurnOrder.TiedRoundContinues | Main.c:400-405 | after a tie somebody is flagged, so the next round has a roller |
| TurnOrder.RoundVerdict | Main.c:374-429 | a decisive round yields a strict leader; a tied one can be followed by another round |
| TurnOrder.Rounds | Main.c:374-429 | the chosen player is one of the decision's contenders and beat every other contender; the rolls left over are a tail of the supply; starting with everybody flagged, at least one roll per player is used |
| TurnOrder.TiedRoundsGoOn | Main.c:374-429 | after a tied round the rounds continue from that round's flags with the rolls it left, and nobody who sat that round out is flagged |
| TurnOrder.RoundsDecide | Main.c:374-429 | the decision is reached by a run of tied rounds, each played from the flags the previous one left, that uses up a prefix of the supply, then a round without a tie played from the flags that run left on the rest of the supply; the decision is that round's leader, recorded rolls, flagged players and unused rolls; every player of that round was flagged at the start |
| TurnOrder.ChainedDecisionIsRounds | Main.c:374-429 | conversely, whenever a run of tied rounds followed by a round without a tie reaches a decision, the rounds return exactly that decision, so only one decision can be reached |
| TurnOrder.DetermineFirstPlayer | Main.c:354-436 | the opening round, where everybody rolls, is played to the end before anyone is chosen, and it decides when it has no tie; otherwise the decision is reached from everybody flagged by a run of tied rounds, each from the flags the previous one left, followed by a round without a tie, whose leader, rolls and players the decision reports; the player chosen beat every other roller of that round; the unused rolls are the tail of the supply left for the game |
| TurnOrder.TwoPlayersMatchReference | Main.c:374-429 | with two players every round is a comparison of two rolls, repeated while equal |
| TurnOrder.TwoPlayerFirst | Main.c:354-436 | with two players the first player is the higher roller of the first unequal pair of rolls |
| TurnOrder.TieThenDecisiveRoll | Main.c:391-429 | rolls 9, 9 then 5, 8: the second player goes first and no rolls are left over |
| TurnOrder.ReachesIsRounds | Main.c:374-429 | any decision reachable from given flags by tied rounds followed by a round without a tie is the decision the rounds return |
| TurnOrder.ThreePlayerReRoll | Main.c:374-429 | three players rolling 5, 5, 3 then 9, 4: the first two tie and roll again, the third sits out, and the first player wins the re-roll with no rolls left over |
| TurnOrder.ThreePlayerDecisionIsPinned | Main.c:374-429 | on the rolls 5, 5, 3, 9, 4 any decision reached by tied rounds followed by a round without a tie names the first player with rolls 9, 4, 3, so the loser of the re-roll is never chosen |
| TurnOrder.StaleTieFlagsWithFourPlayers | Main.c:393-409 | with four players rolling 5, 5, 8, 8 all four are flagged to roll again, not only the two tied on 8 |
| Game.IsWinner | Main.c:313-328 | a winner is shown only when some player's token stands on the terminal space |
| Game.BoardShowsWinner | Main.c:296-349 | the drawing loop reports a winner exactly when the terminal space is flagged and some token is on it |
| Game.WinnerIffTerminalReached | Main.c:313-328 | while flags agree with positions, a winner is shown exactly when a token is on the terminal space |
| Game.PlayFrom | Main.c:520-531 | a won game ends after 1 to all of the rolls with a winner shown, the winner being the player whose turn the last one was |
| Game.WinIsReplayedPrefix | Main.c:520-531 | the final state of a won game is the state after replaying its turns' rolls |
| Game.Replay | Main.c:520-531 | replaying any number of the rolls, turn by turn in player order, keeps a well-formed state with the same number of players |
| Game.ReplayKeepsOccupancy | Main.c:248-265 | replaying any number of the rolls keeps every flag set exactly when some player stands on the space |
| Game.StopsAtFirstWin | Main.c:524-528 | no shorter replay of the rolls shows a winner: the loop stops at the first win |
| Game.OutOfRollsMeansNoWinner | Main.c:520-531 | when the rolls run out, no replay of any number of them shows a winner |
| Game.WinnerStandsOnTerminal | Main.c:520-531 | starting from consistent flags with nobody on the terminal space, the winner's own token is on the terminal space and the flags stay consistent |
| Game.RunGame | Main.c:512-532 | a whole two-player game that is won ends with the winner, one of the two players, on the terminal space |
| Game.RunGameStarts | Main.c:512-532 | a game is played exactly when the opening procedure decides: from the reset state, with the decided player moving first and the rolls it left over, so a win names the player whose turn came last counting from the decided player; when it does not decide, no game is played |

## Left out

- Prompts, input reading and all printing (`page_Break`, `prompt_For`,
  `print_Winner`, the drawing in `print_Board`, the messages of
  `update_Position`): console I/O. Only the winner flag computed while the
  board is drawn is modelled.
- `handle_Player`: it prompts, rolls and calls `update_Position`; the model
  applies `UpdatePosition` to the next roll of the supply directly. Its
  choice of prompt by comparing the name pointer with `"COMPUTER"` only
  selects a message.
- `rand` and `srand`: the random source is replaced by the supply of rolls;
  `RollDice` takes the two random values as parameters.
- The loops of `run_Game` and `determine_First_Player` run for ever if the
  rolls never decide; the model plays a finite supply and reports running
  out (`OutOfRolls`, `None`).
- The menu loop (`prompt_For_Play`, `main`) and seeding the random source:
  outside the engine.
- Movement.Bounce: a target beyond twice the terminal index would land
  before the start; the program never produces one (a roll is at most 12),
  so only targets up to 2 * Last are proved to stay on the board.
- Fixed-width integers and the unsigned `_countof` comparisons: every value
  involved stays between 0 and 35, so no overflow or sign conversion occurs.
