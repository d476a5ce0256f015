/**
 The movement resolver: one player's turn for a given roll of two dice. The
 token moves the roll forward, bounces back from the terminal space by the
 excess, and then the effect of the landing space applies; a goose repeats the
 same roll from there, so one turn may chain several moves.
 */
module Movement {
  import opened Board

  /** A total of two six-sided dice. */
  predicate DiceRoll(roll: int)
  {
    2 <= roll <= 12
  }

  /** A total of two six-sided dice, as a type: supplies of rolls are sequences of these. */
  type Roll = roll: int | DiceRoll(roll) witness 2

  /**
   Rolls two dice from two values of the random source (which never returns a
   negative number): each value modulo 6, plus one, is a face.
   */
  function RollDice(raw1: nat, raw2: nat): (total: int)
    ensures DiceRoll(total)
    ensures 1 <= total - (1 + raw1 % 6) <= 6
    ensures total - (1 + raw1 % 6) == 1 + raw2 % 6
  {
    var roll1 := raw1 % 6 + 1;
    var roll2 := raw2 % 6 + 1;
    roll1 + roll2
  }

  /** Every total of two dice comes out of some pair of values of the random source. */
  lemma EveryTotalRolls(total: int)
    requires DiceRoll(total)
    ensures exists raw1: nat, raw2: nat :: RollDice(raw1, raw2) == total
  {
    var raw1: nat := if total <= 7 then total - 2 else 5;
    var raw2: nat := total - 2 - raw1;
    assert RollDice(raw1, raw2) == total;
  }

  /**
   Bounce-back at the end of the track: a target past the terminal space is
   reflected at it, landing as far before it as the target lay beyond it.
   There is no floor: only targets up to 2 * Last are guaranteed to stay on the board.
   */
  function Bounce(target: int): (position: int)
    ensures position <= Last
    ensures target <= Last ==> position == target
    ensures target > Last ==> position < Last && Last - position == target - Last
    ensures 0 <= target <= 2 * Last ==> 0 <= position
  {
    if target > Last then Last - (target - Last) else target
  }

  /**
   The token counted forward one space per pip, turning back when it meets the
   terminal space with pips still to go; `backwards` says it has turned.
   */
  function Walk(position: int, pips: nat, backwards: bool): (final: int)
    decreases pips
  {
    if pips == 0 then position
    else if backwards || position == Last then Walk(position - 1, pips - 1, true)
    else Walk(position + 1, pips - 1, false)
  }

  /** Once turned back, every remaining pip is a step towards the start. */
  lemma {:induction false} WalkBack(position: int, pips: nat)
    ensures Walk(position, pips, true) == position - pips
    decreases pips
  {
    if pips > 0 {
      WalkBack(position - 1, pips - 1);
    }
  }

  /**
   The bounce is the walk: from any space of the board, counting the pips of a
   roll forward and turning back at the terminal space ends where Bounce puts
   the token.
   */
  lemma {:induction false} BounceIsWalk(position: int, pips: nat)
    requires 0 <= position <= Last
    ensures Bounce(position + pips) == Walk(position, pips, false)
    decreases pips
  {
    if pips > 0 {
      if position == Last {
        WalkBack(position - 1, pips - 1);
      } else {
        BounceIsWalk(position + 1, pips - 1);
      }
    }
  }

  /**
   Ranks the position a move starts from: the recursion of the goose chain only
   continues from goose spaces, and on the configured board each goose in a
   chain lies further along than the one before.
   */
  function GooseRank(board: seq<Space>, position: int): (rank: int)
    requires ReferenceBoard(board) && 0 <= position <= Last
  {
    if board[position].special == Goose then Last - position else NumBoardSpaces
  }

  /**
   On the configured board a roll of two dice that lands on a goose from a goose
   moves strictly forward, by at least the distance between two geese.
   */
  lemma GooseChainAdvances(board: seq<Space>, position: int, roll: int)
    requires ReferenceBoard(board) && 0 <= position <= Last && DiceRoll(roll)
    ensures 0 <= Bounce(position + roll) <= Last
    ensures board[Bounce(position + roll)].special == Goose ==>
      Layout(Bounce(position + roll)) == Goose
      && (board[position].special == Goose ==> Bounce(position + roll) >= position + 4)
    ensures board[Bounce(position + roll)].special == Goose ==>
      GooseRank(board, Bounce(position + roll)) < GooseRank(board, position)
  {
    ReferenceBoardSpecials(board, position);
    ReferenceBoardSpecials(board, Bounce(position + roll));
  }

  /**
   The rest of a turn, from the token at `position` with the turn having begun
   at `origin`: move by the roll, bounce, then apply the landing space. A goose
   moves the same roll again; the bridge goes to BridgeTarget; a maze puts the
   token back where the turn began, however many geese came before it; a skull
   sends it to the start. The final space is on the board, and it is a plain
   space unless the token is back where the turn began.
   */
  function ResolveFrom(board: seq<Space>, origin: int, position: int, roll: int): (final: int)
    requires ReferenceBoard(board) && 0 <= origin <= Last && 0 <= position <= Last && DiceRoll(roll)
    ensures 0 <= final <= Last
    ensures final == origin || board[final].special == Plain
    decreases GooseRank(board, position)
  {
    var landed := Bounce(position + roll);
    GooseChainAdvances(board, position, roll);
    ReferenceBoardSpecials(board, BridgeTarget);
    ReferenceBoardSpecials(board, 0);
    match board[landed].special
    case Goose => ResolveFrom(board, origin, landed, roll)
    case Bridge => BridgeTarget
    case Maze => origin
    case Skull => 0
    case Plain => landed
  }

  /** The final position of a whole turn that begins at `origin`. */
  function Resolve(board: seq<Space>, origin: int, roll: int): (final: int)
    requires ReferenceBoard(board) && 0 <= origin <= Last && DiceRoll(roll)
    ensures 0 <= final <= Last
    ensures final == origin || board[final].special == Plain
  {
    ResolveFrom(board, origin, origin, roll)
  }

  /**
   The effect of the space the first move lands on decides the turn: a plain
   space is kept, the bridge leads to BridgeTarget, a maze leaves the token
   where it was, a skull sends it to the start, and a goose continues the turn
   with the same roll from the goose while the turn still counts as begun at
   `origin`.
   */
  lemma LandingEffects(board: seq<Space>, origin: int, roll: int)
    requires ReferenceBoard(board) && 0 <= origin <= Last && DiceRoll(roll)
    ensures var landed := Bounce(origin + roll);
      && 0 <= landed <= Last
      && (board[landed].special == Plain ==> Resolve(board, origin, roll) == landed)
      && (board[landed].special == Bridge ==> Resolve(board, origin, roll) == BridgeTarget)
      && (board[landed].special == Maze ==> Resolve(board, origin, roll) == origin)
      && (board[landed].special == Skull ==> Resolve(board, origin, roll) == 0)
      && (board[landed].special == Goose ==>
            Resolve(board, origin, roll) == ResolveFrom(board, origin, landed, roll))
  {
    GooseChainAdvances(board, origin, roll);
  }

  /**
   A maze met later in a goose chain still undoes the whole turn: from a goose,
   a roll that lands on the maze returns the token to where the turn began.
   */
  lemma MazeAfterGooseUndoesTurn(board: seq<Space>, origin: int, goose: int, roll: int)
    requires ReferenceBoard(board) && 0 <= origin <= Last && 0 <= goose <= Last && DiceRoll(roll)
    requires board[goose].special == Goose
    requires board[Bounce(goose + roll)].special == Maze
    ensures ResolveFrom(board, origin, goose, roll) == origin
  {
  }

  /** A token that starts its turn on a plain space ends it on a plain space. */
  lemma RestsOnPlain(board: seq<Space>, origin: int, roll: int)
    requires ReferenceBoard(board) && 0 <= origin <= Last && DiceRoll(roll)
    requires board[origin].special == Plain
    ensures board[Resolve(board, origin, roll)].special == Plain
  {
    var final := Resolve(board, origin, roll);
    assert final == origin || board[final].special == Plain;
  }

  /**
   The do-while loop of a turn as the program runs it: move, bounce, look at the
   space, and go round again only on a goose. It ends with the position the
   functional resolver gives, after one to four passes.
   */
  method ResolveTurn(board: seq<Space>, origin: int, roll: int) returns (position: int, passes: nat)
    requires ReferenceBoard(board) && 0 <= origin <= Last && DiceRoll(roll)
    ensures position == Resolve(board, origin, roll)
    ensures 1 <= passes <= 4
  {
    position := origin;
    passes := 0;
    var moveAgain := true;
    while moveAgain
      invariant 0 <= position <= Last
      invariant moveAgain ==> ResolveFrom(board, origin, position, roll) == Resolve(board, origin, roll)
      invariant !moveAgain ==> position == Resolve(board, origin, roll)
      invariant passes == 0 ==> moveAgain && position == origin
      invariant passes > 0 && moveAgain ==> Layout(position) == Goose && passes <= (position - 2) / 4
      invariant passes <= 4
      invariant !moveAgain ==> 1 <= passes
      decreases if moveAgain then GooseRank(board, position) + 1 else 0
    {
      GooseChainAdvances(board, position, roll);
      moveAgain := false;
      position := Bounce(position + roll);
      passes := passes + 1;
      match board[position].special
      case Goose => moveAgain := true;
      case Bridge => position := BridgeTarget;
      case Maze => position := origin;
      case Skull => position := 0;
      case Plain =>
    }
  }
}
