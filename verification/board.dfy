/**
 The board of the Game of the Goose: a track of 24 spaces, numbered 1..24 for the
 players and indexed 0..23 by the program. Each space carries the effect that a
 token landing on it triggers, taken from a static configuration of 1-based
 space numbers, and an occupancy flag used when the board is drawn.
 */
module Board {

  /** Number of spaces on the track. */
  const NumBoardSpaces: int := 24

  /** Index of the terminal space; reaching it wins the game. */
  const Last: int := NumBoardSpaces - 1

  /** Index the bridge sends a token to (space 12 for the players). */
  const BridgeTarget: int := 11

  /** What landing on a space does. */
  datatype Effect =
    | Plain   // nothing
    | Goose   // move the same roll again
    | Bridge  // jump to BridgeTarget
    | Maze    // the whole turn is undone
    | Skull   // back to the start

  /** One space of the board: its effect and whether some token stands on it. */
  datatype Space = Space(special: Effect, isOccupied: bool)

  /** The lists of special spaces, as 1-based space numbers. */
  datatype Config = Config(goose: seq<int>, bridge: seq<int>, maze: seq<int>, skull: seq<int>)

  /** The configuration the game is played with. */
  const Configured: Config := Config([7, 11, 15], [6], [13, 30], [23])

  /** Linear search of one configuration list. */
  function Contains(list: seq<int>, value: int): (found: bool)
    ensures found <==> value in list
  {
    if |list| == 0 then false
    else list[0] == value || Contains(list[1..], value)
  }

  /**
   The effect of the space at a 0-based index: the space number is index + 1,
   and the lists are searched in the order goose, bridge, maze, skull, so a
   number listed twice takes the effect of the earlier list.
   */
  function SpecialAt(cfg: Config, position: int): (e: Effect)
    ensures e == Goose <==> position + 1 in cfg.goose
    ensures e == Bridge <==> position + 1 !in cfg.goose && position + 1 in cfg.bridge
    ensures e == Maze <==>
      position + 1 !in cfg.goose && position + 1 !in cfg.bridge && position + 1 in cfg.maze
    ensures e == Skull <==>
      position + 1 !in cfg.goose && position + 1 !in cfg.bridge && position + 1 !in cfg.maze
      && position + 1 in cfg.skull
    ensures e == Plain <==>
      position + 1 !in cfg.goose && position + 1 !in cfg.bridge && position + 1 !in cfg.maze
      && position + 1 !in cfg.skull
  {
    if Contains(cfg.goose, position + 1) then Goose
    else if Contains(cfg.bridge, position + 1) then Bridge
    else if Contains(cfg.maze, position + 1) then Maze
    else if Contains(cfg.skull, position + 1) then Skull
    else Plain
  }

  /** The layout written out index by index; index 29 is the maze number 30, which lies off the board. */
  function Layout(position: int): (e: Effect)
  {
    if position == 6 || position == 10 || position == 14 then Goose
    else if position == 5 then Bridge
    else if position == 12 || position == 29 then Maze
    else if position == 22 then Skull
    else Plain
  }

  /**
   The effect of a space under the configuration the game is played with; the
   configured lists produce exactly the written-out layout, for every index.
   */
  function GetSpecial(position: int): (e: Effect)
    ensures e == Layout(position)
  {
    SpecialAt(Configured, position)
  }

  /**
   On the board itself: geese at 6, 10 and 14, the bridge at 5, the maze only
   at 12 (the listed number 30 names no space), the skull at 22, and the start,
   the bridge target and the terminal space are plain.
   */
  lemma BoardSpecials()
    ensures forall p :: 0 <= p < NumBoardSpaces ==>
      (GetSpecial(p) == Goose <==> p == 6 || p == 10 || p == 14)
    ensures forall p :: 0 <= p < NumBoardSpaces ==> (GetSpecial(p) == Bridge <==> p == 5)
    ensures forall p :: 0 <= p < NumBoardSpaces ==> (GetSpecial(p) == Maze <==> p == 12)
    ensures forall p :: 0 <= p < NumBoardSpaces ==> (GetSpecial(p) == Skull <==> p == 22)
    ensures GetSpecial(0) == Plain && GetSpecial(BridgeTarget) == Plain && GetSpecial(Last) == Plain
  {
  }

  /**
   A board as built from the configuration: 24 spaces whose effects are those
   GetSpecial gives, written out as Layout.
   */
  predicate ReferenceBoard(board: seq<Space>)
  {
    |board| == NumBoardSpaces
    && forall q :: 0 <= q < |board| ==> LaidOut(board, q)
  }

  /** Space `q` of `board` carries the effect the layout gives its index. */
  predicate LaidOut(board: seq<Space>, q: int)
    requires 0 <= q < |board|
  {
    board[q].special == Layout(q)
  }

  /** Every space of a configured board carries the effect GetSpecial gives it. */
  lemma ReferenceBoardSpecials(board: seq<Space>, position: int)
    requires ReferenceBoard(board) && 0 <= position < |board|
    ensures board[position].special == GetSpecial(position)
  {
    assert LaidOut(board, position);
  }
}
