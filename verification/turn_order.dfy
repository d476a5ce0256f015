/**
 Turn order: the round-robin choice of the next player, and the opening
 procedure in which everyone rolls and the highest roll plays first, with
 re-rolls after a tie. The re-roll flags are modelled as the program keeps
 them, for any number of players.
 */
module TurnOrder {
  import opened Options
  import opened Movement

  /** The player after `current`, wrapping from the last back to the first. */
  function NextPlayer(current: int, count: int): (next: int)
    requires 0 <= current < count
    ensures 0 <= next < count
  {
    if current == count - 1 then 0 else current + 1
  }

  /** The next player is the one after `current` modulo the number of players. */
  lemma NextPlayerIsModular(current: int, count: int)
    requires 0 <= current < count
    ensures NextPlayer(current, count) == (current + 1) % count
  {
    if current < count - 1 {
      ModuloUnique(current + 1, count, 0, current + 1);
    } else {
      ModuloUnique(current + 1, count, 1, 0);
    }
  }

  /** The player whose turn comes `turns` turns after `current`'s. */
  function Advance(current: int, turns: nat, count: int): (player: int)
    requires 0 <= current < count
    ensures 0 <= player < count
    decreases turns
  {
    if turns == 0 then current else Advance(NextPlayer(current, count), turns - 1, count)
  }

  /** Turns go round the table: `turns` turns after `current` it is player (current + turns) mod count. */
  lemma {:induction false} AdvanceIsModular(current: int, turns: nat, count: int)
    requires 0 <= current < count
    ensures Advance(current, turns, count) == (current + turns) % count
    decreases turns
  {
    if turns > 0 {
      var next := NextPlayer(current, count);
      NextPlayerIsModular(current, count);
      AdvanceIsModular(next, turns - 1, count);
      if current == count - 1 {
        assert current + turns == (turns - 1) + count;
        ModuloShift(turns - 1, count);
      }
    }
  }

  /** Adding the modulus does not change a remainder. */
  lemma ModuloShift(a: int, count: int)
    requires count > 0
    ensures (a + count) % count == a % count
  {
    var q := a / count;
    assert a + count == count * (q + 1) + a % count;
    ModuloUnique(a + count, count, q + 1, a % count);
  }

  /** A remainder is determined by any quotient-remainder split of the dividend. */
  lemma ModuloUnique(x: int, count: int, q: int, rem: int)
    requires count > 0 && 0 <= rem < count && x == count * q + rem
    ensures x % count == rem
  {
    var q', rem' := x / count, x % count;
    assert count * q + rem == count * q' + rem';
    if q > q' {
      assert count * q == count * (q - q') + count * q';
      MulAtLeast(count, q - q');
    } else if q < q' {
      assert count * q' == count * (q' - q) + count * q;
      MulAtLeast(count, q' - q);
    }
  }

  /** A positive multiple of a positive number is at least that number. */
  lemma {:induction false} MulAtLeast(count: int, d: int)
    requires count > 0 && d >= 1
    ensures count * d >= count
    decreases d
  {
    if d > 1 {
      MulAtLeast(count, d - 1);
      assert count * d == count * (d - 1) + count;
    }
  }

  /** After one turn each, the first player is on turn again. */
  lemma FullRoundReturns(current: int, count: int)
    requires 0 <= current < count
    ensures Advance(current, count, count) == current
  {
    AdvanceIsModular(current, count, count);
    ModuloShift(current, count);
    ModuloUnique(current, count, 0, current);
  }

  /**
   The bookkeeping of the opening procedure: the last roll of each player, the
   flags of who rolls in the next round, the highest roll of the round so far,
   the leader holding it, and whether the leader is tied.
   */
  datatype Tally = Tally(rolls: seq<int>, rollers: seq<bool>, highest: int, first: int, ties: bool)

  predicate Shaped(t: Tally, count: int)
  {
    |t.rolls| == count && |t.rollers| == count && 0 <= t.first < count
  }

  /** Some player is flagged to roll. */
  predicate SomeRoller(t: Tally)
  {
    exists j :: 0 <= j < |t.rollers| && t.rollers[j]
  }

  /** Every player from index `i` on is flagged to roll. */
  predicate AllFlagged(rollers: seq<bool>, i: int)
  {
    forall j :: 0 <= i <= j < |rollers| ==> rollers[j]
  }

  /** Before the first round: no rolls, everybody flagged, player 0 nominally first, no tie. */
  function StartTally(count: int): (t: Tally)
    requires count >= 1
    ensures Shaped(t, count) && SomeRoller(t) && AllFlagged(t.rollers, 0)
    ensures forall j :: 0 <= j < count ==> t.rolls[j] == 0
    ensures t.first == 0 && !t.ties
  {
    var t := Tally(seq(count, _ => 0), seq(count, _ => true), 0, 0, false);
    assert t.rollers[0];
    t
  }

  /**
   A flagged player `i` rolls. A roll above the round's highest makes `i` the
   leader, unflags it and clears the tie; an equal roll flags both the leader
   and `i` and records a tie; a lower roll unflags `i`. Flags set by an earlier
   tie are left as they are when a new leader appears.
   */
  function RecordRoll(t: Tally, i: int, roll: int): (u: Tally)
    requires Shaped(t, |t.rolls|) && 0 <= i < |t.rolls|
    ensures Shaped(u, |t.rolls|) && u.rolls == t.rolls[i := roll]
    ensures u.highest == (if roll > t.highest then roll else t.highest)
    ensures forall j :: 0 <= j < |t.rollers| && j != i && t.rollers[j] ==> u.rollers[j]
    ensures forall j :: 0 <= j < |t.rollers| && j != i && j != t.first ==> u.rollers[j] == t.rollers[j]
    ensures roll > t.highest ==> u.first == i && !u.ties && !u.rollers[i]
    ensures roll == t.highest ==> u.first == t.first && u.ties && u.rollers[i] && u.rollers[t.first]
    ensures roll < t.highest ==> u.first == t.first && u.ties == t.ties && !u.rollers[i]
    ensures roll != t.highest ==> u.rollers == t.rollers[i := false]
  {
    var rolls := t.rolls[i := roll];
    if roll > t.highest then Tally(rolls, t.rollers[i := false], roll, i, false)
    else if roll == t.highest then Tally(rolls, t.rollers[t.first := true][i := true], t.highest, t.first, true)
    else Tally(rolls, t.rollers[i := false], t.highest, t.first, t.ties)
  }

  /** `rest` is what is left of the supply `dice` after some rolls were taken from its front. */
  predicate Leftover(dice: seq<Roll>, rest: seq<Roll>)
  {
    |rest| <= |dice| && rest == dice[|dice| - |rest|..]
  }

  /**
   The rest of a round from player `i` on: each flagged player takes the next
   roll of the supply. The answer is the tally and the unused rolls, or None
   when the supply runs out first.
   */
  function RoundFrom(t: Tally, i: int, dice: seq<Roll>): (r: Option<(Tally, seq<Roll>)>)
    requires Shaped(t, |t.rolls|) && 0 <= i <= |t.rolls|
    ensures r.Some? ==> Shaped(r.value.0, |t.rolls|)
    ensures r.Some? ==> Leftover(dice, r.value.1)
    ensures r.Some? && (exists j :: i <= j < |t.rollers| && t.rollers[j]) ==> |r.value.1| < |dice|
    ensures r.Some? && AllFlagged(t.rollers, i) ==> |r.value.1| <= |dice| - (|t.rolls| - i)
    decreases |t.rolls| - i
  {
    if i == |t.rolls| then Some((t, dice))
    else if !t.rollers[i] then RoundFrom(t, i + 1, dice)
    else if |dice| == 0 then None
    else
      var u := RecordRoll(t, i, dice[0]);
      assert AllFlagged(t.rollers, i) ==> AllFlagged(u.rollers, i + 1);
      RoundFrom(u, i + 1, dice[1..])
  }

  /** The number of players with an index from `i` up to, not including, `j` who are flagged. */
  function Flagged(rollers: seq<bool>, i: int, j: int): (k: nat)
    requires 0 <= i <= j <= |rollers|
    ensures k <= j - i
    decreases j - i
  {
    if i == j then 0 else (if rollers[i] then 1 else 0) + Flagged(rollers, i + 1, j)
  }

  /** Flags that agree on a range count the same there. */
  lemma {:induction false} FlaggedSame(a: seq<bool>, b: seq<bool>, i: int, j: int)
    requires 0 <= i <= j <= |a| == |b|
    requires forall k :: i <= k < j ==> a[k] == b[k]
    ensures Flagged(a, i, j) == Flagged(b, i, j)
    decreases j - i
  {
    if i < j {
      FlaggedSame(a, b, i + 1, j);
    }
  }

  /** The leader so far lies below `i`, or no roll has been made yet in the round. */
  predicate LeaderBehind(t: Tally, i: int)
  {
    t.highest == 0 || t.first < i
  }

  /**
   A flagged player's roll, with the leader behind it, touches no flag above it
   and leaves the leader behind the next player.
   */
  lemma RollKeepsLaterFlags(t: Tally, i: int, roll: int)
    requires Shaped(t, |t.rolls|) && 0 <= i < |t.rolls| && LeaderBehind(t, i) && DiceRoll(roll)
    ensures LeaderBehind(RecordRoll(t, i, roll), i + 1)
    ensures forall k :: i < k < |t.rolls| ==> RecordRoll(t, i, roll).rollers[k] == t.rollers[k]
  {
  }

  /**
   A round from player `i` on, with the leader behind `i`, completes exactly
   when the supply holds a roll for every flagged player, and uses exactly
   that many rolls.
   */
  lemma {:induction false} RoundFromCountsRolls(t: Tally, i: int, dice: seq<Roll>)
    requires Shaped(t, |t.rolls|) && 0 <= i <= |t.rolls| && LeaderBehind(t, i)
    ensures var r := RoundFrom(t, i, dice);
      && (r.Some? <==> Flagged(t.rollers, i, |t.rolls|) <= |dice|)
      && (r.Some? ==> |dice| - |r.value.1| == Flagged(t.rollers, i, |t.rolls|))
    decreases |t.rolls| - i
  {
    var n := |t.rolls|;
    if i < n {
      if !t.rollers[i] {
        RoundFromCountsRolls(t, i + 1, dice);
      } else if |dice| > 0 {
        var u := RecordRoll(t, i, dice[0]);
        RollKeepsLaterFlags(t, i, dice[0]);
        FlaggedSame(u.rollers, t.rollers, i + 1, n);
        RollStep(t, i, dice, u);
        RoundFromCountsRolls(u, i + 1, dice[1..]);
      }
    }
  }

  /** The players below `i`, and those not flagged, hold the same roll in `before` and `after`. */
  predicate KeepsOtherRolls(rollers: seq<bool>, i: int, before: seq<int>, after: seq<int>)
    requires |rollers| == |before| == |after|
  {
    forall j :: 0 <= j < |rollers| ==> KeepsRoll(rollers, i, before, after, j)
  }

  /** Player `j`, if below `i` or not flagged, holds the same roll in `before` and `after`. */
  predicate KeepsRoll(rollers: seq<bool>, i: int, before: seq<int>, after: seq<int>, j: int)
    requires |rollers| == |before| == |after| && 0 <= j < |rollers|
  {
    j < i || !rollers[j] ==> after[j] == before[j]
  }

  /** A round from player `i` on leaves the rolls of players below `i`, and of players not flagged, as they were. */
  lemma {:induction false} RoundFromKeepsOtherRolls(t: Tally, i: int, dice: seq<Roll>)
    requires Shaped(t, |t.rolls|) && 0 <= i <= |t.rolls| && LeaderBehind(t, i)
    ensures var r := RoundFrom(t, i, dice);
      r.Some? ==> KeepsOtherRolls(t.rollers, i, t.rolls, r.value.0.rolls)
    decreases |t.rolls| - i
  {
    var n := |t.rolls|;
    if i < n {
      if !t.rollers[i] {
        RoundFromKeepsOtherRolls(t, i + 1, dice);
        var r := RoundFrom(t, i + 1, dice);
        if r.Some? {
          var next := i + 1;
          forall j | 0 <= j < n
            ensures KeepsRoll(t.rollers, i, t.rolls, r.value.0.rolls, j)
          {
            assert KeepsRoll(t.rollers, next, t.rolls, r.value.0.rolls, j);
          }
        }
      } else if |dice| > 0 {
        var u := RecordRoll(t, i, dice[0]);
        RollKeepsLaterFlags(t, i, dice[0]);
        RollStep(t, i, dice, u);
        RoundFromKeepsOtherRolls(u, i + 1, dice[1..]);
        var r := RoundFrom(u, i + 1, dice[1..]);
        if r.Some? {
          KeepsRollsStep(t, i, dice[0], r.value.0.rolls);
        }
      }
    }
  }

  /** The flagged case of RoundFromKeepsOtherRolls: player `i` rolls, so only its roll is new. */
  lemma KeepsRollsStep(t: Tally, i: int, roll: int, after: seq<int>)
    requires Shaped(t, |t.rolls|) && 0 <= i < |t.rolls| && LeaderBehind(t, i) && t.rollers[i] && DiceRoll(roll)
    requires var u := RecordRoll(t, i, roll);
      |after| == |t.rolls| && KeepsOtherRolls(u.rollers, i + 1, u.rolls, after)
    ensures KeepsOtherRolls(t.rollers, i, t.rolls, after)
  {
    var u := RecordRoll(t, i, roll);
    RollKeepsLaterFlags(t, i, roll);
    var next := i + 1;
    forall j | 0 <= j < |t.rolls|
      ensures KeepsRoll(t.rollers, i, t.rolls, after, j)
    {
      assert KeepsRoll(u.rollers, next, u.rolls, after, j);
    }
  }

  /**
   The rolls the flagged players from `i` on hold are the rolls of the supply
   in player order: the k-th flagged player holds the k-th roll.
   */
  predicate TakesRolls(rollers: seq<bool>, i: int, dice: seq<Roll>, rolls: seq<int>)
    requires 0 <= i <= |rollers| == |rolls|
  {
    forall j :: i <= j < |rollers| ==> HoldsRoll(rollers, i, dice, rolls, j)
  }

  /** Player `j`, if flagged, holds the roll of the supply that its place among the flagged players from `i` on gives it. */
  predicate HoldsRoll(rollers: seq<bool>, i: int, dice: seq<Roll>, rolls: seq<int>, j: int)
    requires 0 <= i <= j < |rollers| == |rolls|
  {
    rollers[j] ==> Flagged(rollers, i, j) < |dice| && rolls[j] == dice[Flagged(rollers, i, j)]
  }

  /** A player who is not flagged takes no roll of the supply. */
  lemma TakesRollsSkip(rollers: seq<bool>, i: int, dice: seq<Roll>, rolls: seq<int>)
    requires 0 <= i < |rollers| == |rolls| && !rollers[i]
    requires TakesRolls(rollers, i + 1, dice, rolls)
    ensures TakesRolls(rollers, i, dice, rolls)
  {
    forall j | i <= j < |rollers|
      ensures HoldsRoll(rollers, i, dice, rolls, j)
    {
      if j > i {
        assert HoldsRoll(rollers, i + 1, dice, rolls, j);
        assert Flagged(rollers, i, j) == Flagged(rollers, i + 1, j);
      }
    }
  }

  /**
   A flagged player takes the first roll of the supply, and the later players
   theirs from the rest, when the flags above the player are as before.
   */
  lemma TakesRollsStep(rollers: seq<bool>, later: seq<bool>, i: int, dice: seq<Roll>, before: seq<int>, rolls: seq<int>)
    requires 0 <= i < |rollers| == |later| == |before| == |rolls| && rollers[i] && |dice| > 0
    requires forall k :: i < k < |rollers| ==> later[k] == rollers[k]
    requires before[i] == dice[0] && KeepsOtherRolls(later, i + 1, before, rolls)
    requires TakesRolls(later, i + 1, dice[1..], rolls)
    ensures TakesRolls(rollers, i, dice, rolls)
  {
    assert KeepsRoll(later, i + 1, before, rolls, i);
    forall j | i <= j < |rollers|
      ensures HoldsRoll(rollers, i, dice, rolls, j)
    {
      if j > i {
        assert HoldsRoll(later, i + 1, dice[1..], rolls, j);
        FlaggedSame(later, rollers, i + 1, j);
        assert Flagged(rollers, i, j) == 1 + Flagged(later, i + 1, j);
      }
    }
  }

  /**
   A flagged player with the leader behind it takes the first roll of the
   supply, when the rest of the round takes the later rolls and keeps this one.
   */
  lemma RollTakesFirst(t: Tally, i: int, dice: seq<Roll>, rolls: seq<int>)
    requires Shaped(t, |t.rolls|) && 0 <= i < |t.rolls| && LeaderBehind(t, i) && t.rollers[i] && |dice| > 0
    requires |rolls| == |t.rolls|
    requires var u := RecordRoll(t, i, dice[0]);
      TakesRolls(u.rollers, i + 1, dice[1..], rolls) && KeepsOtherRolls(u.rollers, i + 1, u.rolls, rolls)
    ensures TakesRolls(t.rollers, i, dice, rolls)
  {
    var u := RecordRoll(t, i, dice[0]);
    RollKeepsLaterFlags(t, i, dice[0]);
    TakesRollsStep(t.rollers, u.rollers, i, dice, u.rolls, rolls);
  }

  /**
   A round from player `i` on, with the leader behind `i`, records the k-th
   roll it takes as the roll of the k-th flagged player from `i` on.
   */
  lemma {:induction false} RoundFromRecordsRolls(t: Tally, i: int, dice: seq<Roll>)
    requires Shaped(t, |t.rolls|) && 0 <= i <= |t.rolls| && LeaderBehind(t, i)
    ensures var r := RoundFrom(t, i, dice);
      r.Some? ==> TakesRolls(t.rollers, i, dice, r.value.0.rolls)
    decreases |t.rolls| - i
  {
    var n := |t.rolls|;
    var r := RoundFrom(t, i, dice);
    if i < n && r.Some? {
      if !t.rollers[i] {
        assert TakesRolls(t.rollers, i, dice, r.value.0.rolls) by {
          RoundFromRecordsRolls(t, i + 1, dice);
          TakesRollsSkip(t.rollers, i, dice, r.value.0.rolls);
        }
      } else {
        assert TakesRolls(t.rollers, i, dice, r.value.0.rolls) by {
          var u := RecordRoll(t, i, dice[0]);
          RollKeepsLaterFlags(t, i, dice[0]);
          RollStep(t, i, dice, u);
          RoundFromRecordsRolls(u, i + 1, dice[1..]);
          RoundFromKeepsOtherRolls(u, i + 1, dice[1..]);
          RollTakesFirst(t, i, dice, r.value.0.rolls);
        }
      }
    }
  }

  /** Some player below index `i` was flagged at the start of the round. */
  predicate ContenderBefore(act: seq<bool>, i: int)
  {
    exists j :: 0 <= j < i && j < |act| && act[j]
  }

  /**
   What the bookkeeping says about player `j` once players below `i` have had
   their chance in a round that started from `t0`: a later player is
   untouched, a player who sat the round out keeps its flag off and its roll,
   only players flagged at the start are flagged now, and a player who rolled
   rolled two dice, no more than the highest roll, less than it if before the
   leader, and is flagged again if tied with the leader.
   */
  predicate Slot(t0: Tally, t: Tally, i: int, j: int)
    requires |t0.rollers| == |t0.rolls| == |t.rolls| == |t.rollers| && 0 <= j < |t0.rolls|
  {
    var act := t0.rollers;
    && (i <= j ==> t.rollers[j] == act[j] && t.rolls[j] == t0.rolls[j])
    && (j < i && !act[j] ==> !t.rollers[j] && t.rolls[j] == t0.rolls[j])
    && (t.rollers[j] ==> act[j])
    && (j < i && act[j] ==> DiceRoll(t.rolls[j]) && t.rolls[j] <= t.highest)
    && (j < i && j < t.first && act[j] ==> t.rolls[j] < t.highest)
    && (j < i && act[j] && j != t.first && t.rolls[j] == t.highest ==> t.rollers[j])
  }

  /** Some player below `i`, flagged at the start of the round, other than the leader, equals the highest roll. */
  predicate TiedBelow(t0: Tally, t: Tally, i: int)
  {
    exists j :: 0 <= j < i && j < |t0.rollers| && j < |t.rolls| && t0.rollers[j] && j != t.first && t.rolls[j] == t.highest
  }

  /**
   What holds part-way through a round that started from `t0`, once players
   below `i` have had their chance: every player is as Slot says; before anyone
   has rolled nothing has changed; afterwards the leader rolled first the
   highest roll so far, and a tie is recorded, and the leader flagged again,
   exactly when another roller equals it.
   */
  predicate Partial(t0: Tally, t: Tally, i: int)
  {
    var n := |t0.rolls|;
    var act := t0.rollers;
    && Shaped(t0, n) && Shaped(t, n) && 0 <= i <= n && t0.highest == 0
    && (forall j :: 0 <= j < n ==> Slot(t0, t, i, j))
    && (!ContenderBefore(act, i) ==> t.highest == 0 && t.first == t0.first && t.ties == t0.ties)
    && (ContenderBefore(act, i) ==>
          && 0 <= t.first < i && act[t.first] && t.highest == t.rolls[t.first]
          && (t.ties <==> TiedBelow(t0, t, i))
          && (t.ties <==> t.rollers[t.first]))
  }

  /** One flagged player's roll keeps the round's bookkeeping true. */
  lemma RecordRollKeepsPartial(t0: Tally, t: Tally, i: int, roll: int)
    requires Partial(t0, t, i) && i < |t.rolls| && t.rollers[i] && DiceRoll(roll)
    ensures Partial(t0, RecordRoll(t, i, roll), i + 1)
  {
    var u := RecordRoll(t, i, roll);
    var act := t0.rollers;
    var n := |t0.rolls|;
    assert act[i] by { assert Slot(t0, t, i, i); }
    assert ContenderBefore(act, i + 1);
    var next := i + 1;
    forall j | 0 <= j < n
      ensures Slot(t0, u, next, j)
    {
      assert Slot(t0, t, i, j);
      if j < i && act[j] {
        assert ContenderBefore(act, i);
      }
    }
    if !ContenderBefore(act, i) {
      assert u.first == i && !u.ties;
      assert !TiedBelow(t0, u, i + 1);
    } else if roll > t.highest {
      assert u.first == i && !u.ties;
      forall k | 0 <= k < i && act[k]
        ensures u.rolls[k] < u.highest
      {
        assert Slot(t0, t, i, k);
      }
      assert !TiedBelow(t0, u, i + 1);
    } else if roll == t.highest {
      assert u.ties && i != t.first && u.rolls[i] == u.highest;
      assert TiedBelow(t0, u, i + 1);
    } else {
      assert u.rolls[i] < u.highest && u.first == t.first && u.first != i;
      if TiedBelow(t0, t, i) {
        var k :| 0 <= k < i && act[k] && k != t.first && t.rolls[k] == t.highest;
        assert u.rolls[k] == u.highest;
      }
      if TiedBelow(t0, u, i + 1) {
        var k :| 0 <= k < i + 1 && act[k] && k != u.first && u.rolls[k] == u.highest;
        assert k != i && t.rolls[k] == t.highest;
      }
    }
  }

  /** A player not flagged leaves the round's bookkeeping as it was. */
  lemma SkipKeepsPartial(t0: Tally, t: Tally, i: int)
    requires Partial(t0, t, i) && i < |t.rolls| && !t.rollers[i]
    ensures Partial(t0, t, i + 1)
  {
    var act := t0.rollers;
    var n := |t0.rolls|;
    assert !act[i] by { assert Slot(t0, t, i, i); }
    assert ContenderBefore(act, i + 1) ==> ContenderBefore(act, i);
    var next := i + 1;
    forall j | 0 <= j < n
      ensures Slot(t0, t, next, j)
    {
      assert Slot(t0, t, i, j);
    }
    if TiedBelow(t0, t, i + 1) {
      var k :| 0 <= k < i + 1 && act[k] && k != t.first && t.rolls[k] == t.highest;
      assert k < i;
    }
  }

  /** Running the rest of a round keeps the bookkeeping true up to the last player. */
  lemma {:induction false} RoundFromKeepsPartial(t0: Tally, t: Tally, i: int, dice: seq<Roll>)
    requires Partial(t0, t, i)
    ensures RoundFrom(t, i, dice).Some? ==> Partial(t0, RoundFrom(t, i, dice).value.0, |t.rolls|)
    decreases |t.rolls| - i
  {
    if i < |t.rolls| {
      if !t.rollers[i] {
        SkipKeepsPartial(t0, t, i);
        RoundFromKeepsPartial(t0, t, i + 1, dice);
      } else if |dice| > 0 {
        RecordRollKeepsPartial(t0, t, i, dice[0]);
        RoundFromKeepsPartial(t0, RecordRoll(t, i, dice[0]), i + 1, dice[1..]);
      }
    }
  }

  /**
   What a completed round from the flags of `t` leaves in `u`: the leader was
   flagged and rolled the round's highest roll, earlier flagged players rolled
   less, and a tie is recorded exactly when another flagged player rolled as
   high; the tied players are flagged again and nobody who sat the round out is.
   */
  predicate RoundOutcome(t: Tally, u: Tally)
  {
    var act := t.rollers;
    var n := |t.rolls|;
    && Shaped(t, n) && Shaped(u, n)
    && act[u.first] && DiceRoll(u.rolls[u.first])
    && (forall j :: 0 <= j < n && act[j] ==> DiceRoll(u.rolls[j]) && u.rolls[j] <= u.rolls[u.first])
    && (forall j :: 0 <= j < u.first && act[j] ==> u.rolls[j] < u.rolls[u.first])
    && (u.ties <==> exists j :: 0 <= j < n && act[j] && j != u.first && u.rolls[j] == u.rolls[u.first])
    && (u.ties ==> u.rollers[u.first])
    && (forall j :: 0 <= j < n && act[j] && j != u.first && u.rolls[j] == u.rolls[u.first] ==> u.rollers[j])
    && (forall j :: 0 <= j < n && u.rollers[j] ==> act[j])
  }

  /** Once every player has had its chance, and someone was flagged, the bookkeeping is a round outcome. */
  lemma CompletedRound(t: Tally, t0: Tally, u: Tally)
    requires t0 == t.(highest := 0) && Partial(t0, u, |t.rolls|) && ContenderBefore(t.rollers, |t.rolls|)
    ensures RoundOutcome(t, u)
  {
    var n := |t.rolls|;
    forall j | 0 <= j < n
      ensures t.rollers[j] ==> DiceRoll(u.rolls[j]) && u.rolls[j] <= u.rolls[u.first]
      ensures j < u.first && t.rollers[j] ==> u.rolls[j] < u.rolls[u.first]
      ensures t.rollers[j] && j != u.first && u.rolls[j] == u.rolls[u.first] ==> u.rollers[j]
      ensures u.rollers[j] ==> t.rollers[j]
    {
      assert Slot(t0, u, n, j);
    }
    assert u.ties <==> TiedBelow(t0, u, n);
  }

  /**
   One whole round (the body of the do-while), beginning from the flags in `t`
   with the highest roll reset to 0, or None when the supply runs out during
   it. Each flagged player takes the next roll of the supply in player order,
   so the round completes exactly when there is a roll for every flagged
   player and uses exactly that many; the other players keep their rolls.
   */
  function PlayRound(t: Tally, dice: seq<Roll>): (r: Option<(Tally, seq<Roll>)>)
    requires Shaped(t, |t.rolls|) && SomeRoller(t)
    ensures r.Some? ==> Shaped(r.value.0, |t.rolls|)
    ensures r.Some? ==> |r.value.1| < |dice| && Leftover(dice, r.value.1)
    ensures r.Some? && AllFlagged(t.rollers, 0) ==> |r.value.1| <= |dice| - |t.rolls|
    ensures r.Some? <==> Flagged(t.rollers, 0, |t.rolls|) <= |dice|
    ensures r.Some? ==> |dice| - |r.value.1| == Flagged(t.rollers, 0, |t.rolls|)
    ensures r.Some? ==> TakesRolls(t.rollers, 0, dice, r.value.0.rolls)
    ensures r.Some? ==> KeepsOtherRolls(t.rollers, 0, t.rolls, r.value.0.rolls)
  {
    var t0 := t.(highest := 0);
    RoundFromCountsRolls(t0, 0, dice);
    RoundFromRecordsRolls(t0, 0, dice);
    RoundFromKeepsOtherRolls(t0, 0, dice);
    RoundFrom(t0, 0, dice)
  }

  /** A round played to the end has the outcome RoundOutcome describes. */
  lemma PlayRoundOutcome(t: Tally, dice: seq<Roll>)
    requires Shaped(t, |t.rolls|) && SomeRoller(t)
    ensures PlayRound(t, dice).Some? ==> RoundOutcome(t, PlayRound(t, dice).value.0)
  {
    var t0 := t.(highest := 0);
    assert Partial(t0, t0, 0);
    RoundFromKeepsPartial(t0, t0, 0, dice);
    assert ContenderBefore(t.rollers, |t.rolls|);
    var r := RoundFrom(t0, 0, dice);
    if r.Some? {
      CompletedRound(t, t0, r.value.0);
    }
  }

  /** A round without a tie singles out a strict leader among those who rolled in it. */
  lemma DecisiveRound(t: Tally, u: Tally)
    requires RoundOutcome(t, u) && !u.ties
    ensures forall j :: 0 <= j < |t.rolls| && t.rollers[j] && j != u.first ==> u.rolls[j] < u.rolls[u.first]
  {
  }

  /** After a tied round the leader is flagged again, so another round can be played. */
  lemma TiedRoundContinues(t: Tally, u: Tally)
    requires RoundOutcome(t, u) && u.ties
    ensures SomeRoller(u)
  {
    assert u.rollers[u.first];
  }

  /**
   The outcome of the opening procedure: the player who goes first, the rolls
   of the deciding round, who rolled in it, and the rolls left over.
   */
  datatype Decision = Decision(first: int, rolls: seq<int>, contenders: seq<bool>, remaining: seq<Roll>)

  /** The chosen player rolled in the deciding round and beat every other roller there. */
  predicate StrictLeader(d: Decision, count: int)
  {
    && 0 <= d.first < count && |d.rolls| == count && |d.contenders| == count
    && d.contenders[d.first]
    && forall j :: 0 <= j < count && d.contenders[j] && j != d.first ==> d.rolls[j] < d.rolls[d.first]
  }

  /** Rounds are played while the last one ended in a tie (the do-while of the procedure). */
  function Rounds(t: Tally, dice: seq<Roll>): (r: Option<Decision>)
    requires Shaped(t, |t.rolls|) && SomeRoller(t)
    ensures r.Some? ==> StrictLeader(r.value, |t.rolls|)
    ensures r.Some? ==> |r.value.remaining| < |dice| && Leftover(dice, r.value.remaining)
    ensures r.Some? && AllFlagged(t.rollers, 0) ==> |r.value.remaining| <= |dice| - |t.rolls|
    decreases |dice|
  {
    var r := PlayRound(t, dice);
    if r.None? then None
    else
      var u := r.value.0;
      var rest := r.value.1;
      RoundVerdict(t, dice);
      if !u.ties then Some(Decision(u.first, u.rolls, t.rollers, rest))
      else
        var d := Rounds(u, rest);
        if d.Some? then SuffixOfSuffix(dice, rest, d.value.remaining); d else d
  }

  /**
   The decision `d` is the outcome of a round without a tie, played from the
   flags of `s` on the supply `supply`: the chosen player is that round's
   leader, the rolls and the contenders are that round's, and the rolls left
   over are those it did not use.
   */
  predicate DecidedBy(s: Tally, supply: seq<Roll>, d: Decision)
    requires Shaped(s, |s.rolls|) && SomeRoller(s)
  {
    var p := PlayRound(s, supply);
    p.Some? && !p.value.0.ties && d == Decision(p.value.0.first, p.value.0.rolls, s.rollers, p.value.1)
  }

  /**
   Starting from the flags of `t`, the first `k` rolls of `dice` are used up by
   a run of tied rounds that leaves the flags of `s`; with `k` zero no round is
   played and `s` is `t`.
   */
  predicate TiedChain(t: Tally, dice: seq<Roll>, s: Tally, k: int)
    requires Shaped(t, |t.rolls|) && SomeRoller(t)
    decreases |dice|
  {
    if k == 0 then s == t
    else
      var p := PlayRound(t, dice);
      && p.Some? && p.value.0.ties
      && |dice| - |p.value.1| <= k
      && (RoundVerdict(t, dice); TiedChain(p.value.0, p.value.1, s, k - (|dice| - |p.value.1|)))
  }

  /**
   The decision `d` is reached from the flags of `t`: a run of tied rounds uses
   up the first `k` rolls of `dice` and leaves the flags of `s`, and the round
   played from those flags on the rest of the supply has no tie and decides `d`.
   */
  ghost predicate Reaches(t: Tally, dice: seq<Roll>, d: Decision)
    requires Shaped(t, |t.rolls|) && SomeRoller(t)
  {
    exists k: int, s: Tally ::
      && 0 <= k <= |dice| && TiedChain(t, dice, s, k)
      && Shaped(s, |t.rolls|) && SomeRoller(s) && DecidedBy(s, dice[k..], d)
  }

  /**
   Whatever the rounds decide is decided by one real round without a tie,
   played with the flags the tied rounds before it left, on what is left of the
   supply after them; its players were all flagged at the start.
   */
  lemma {:induction false} RoundsDecide(t: Tally, dice: seq<Roll>)
    requires Shaped(t, |t.rolls|) && SomeRoller(t)
    ensures var r := Rounds(t, dice);
      r.Some? ==> Reaches(t, dice, r.value)
    ensures var r := Rounds(t, dice);
      r.Some? ==> forall j :: 0 <= j < |t.rolls| && r.value.contenders[j] ==> t.rollers[j]
    decreases |dice|
  {
    var r := Rounds(t, dice);
    if r.Some? {
      var p := PlayRound(t, dice);
      if !p.value.0.ties {
        DecisiveRoundReaches(t, dice);
      } else {
        TiedRoundsGoOn(t, dice);
        RoundsDecide(p.value.0, p.value.1);
        TiedRoundReaches(t, dice, r.value);
      }
    }
  }

  /** A round without a tie is the decision, reached with no tied round before it. */
  lemma DecisiveRoundReaches(t: Tally, dice: seq<Roll>)
    requires Shaped(t, |t.rolls|) && SomeRoller(t)
    requires PlayRound(t, dice).Some? && !PlayRound(t, dice).value.0.ties
    ensures var p := PlayRound(t, dice).value;
      var d := Decision(p.0.first, p.0.rolls, t.rollers, p.1);
      Rounds(t, dice) == Some(d) && Reaches(t, dice, d)
  {
    assert dice[0..] == dice;
    assert TiedChain(t, dice, t, 0);
  }

  /** A tied round in front of a run of rounds that reaches `d` reaches `d` too. */
  lemma TiedRoundReaches(t: Tally, dice: seq<Roll>, d: Decision)
    requires Shaped(t, |t.rolls|) && SomeRoller(t)
    requires PlayRound(t, dice).Some? && PlayRound(t, dice).value.0.ties
    requires SomeRoller(PlayRound(t, dice).value.0)
    requires Reaches(PlayRound(t, dice).value.0, PlayRound(t, dice).value.1, d)
    ensures Reaches(t, dice, d)
  {
    var u := PlayRound(t, dice).value.0;
    var rest := PlayRound(t, dice).value.1;
    var k', s' :| && 0 <= k' <= |rest| && TiedChain(u, rest, s', k')
                   && Shaped(s', |u.rolls|) && SomeRoller(s') && DecidedBy(s', rest[k'..], d);
    var k := |dice| - |rest| + k';
    assert dice[k..] == rest[k'..];
    TiedChainStep(t, dice, s', k');
  }

  /** A tied round in front of a run of tied rounds makes a longer run. */
  lemma TiedChainStep(t: Tally, dice: seq<Roll>, s: Tally, k: int)
    requires Shaped(t, |t.rolls|) && SomeRoller(t)
    requires PlayRound(t, dice).Some? && PlayRound(t, dice).value.0.ties && 0 <= k
    requires SomeRoller(PlayRound(t, dice).value.0)
    requires TiedChain(PlayRound(t, dice).value.0, PlayRound(t, dice).value.1, s, k)
    ensures TiedChain(t, dice, s, |dice| - |PlayRound(t, dice).value.1| + k)
  {
  }

  /**
   The converse of RoundsDecide: tied rounds that use up the first `k` rolls,
   followed by a round without a tie, are exactly what Rounds plays, so the
   decision they reach is the one Rounds returns.
   */
  lemma {:induction false} ChainedDecisionIsRounds(t: Tally, dice: seq<Roll>, s: Tally, k: int, d: Decision)
    requires Shaped(t, |t.rolls|) && SomeRoller(t)
    requires 0 <= k <= |dice| && TiedChain(t, dice, s, k) && Shaped(s, |s.rolls|) && SomeRoller(s)
    requires DecidedBy(s, dice[k..], d)
    ensures Rounds(t, dice) == Some(d)
    decreases |dice|
  {
    if k == 0 {
      assert dice[0..] == dice;
    } else {
      var p := PlayRound(t, dice);
      var rest := p.value.1;
      var used := |dice| - |rest|;
      TiedRoundsGoOn(t, dice);
      assert dice[k..] == rest[k - used..];
      ChainedDecisionIsRounds(p.value.0, rest, s, k - used, d);
    }
  }

  /** A decision reached from the flags of `t` is the one Rounds returns. */
  lemma ReachesIsRounds(t: Tally, dice: seq<Roll>, d: Decision)
    requires Shaped(t, |t.rolls|) && SomeRoller(t) && Reaches(t, dice, d)
    ensures Rounds(t, dice) == Some(d)
  {
    var k, s :| && 0 <= k <= |dice| && TiedChain(t, dice, s, k)
                && Shaped(s, |t.rolls|) && SomeRoller(s) && DecidedBy(s, dice[k..], d);
    ChainedDecisionIsRounds(t, dice, s, k, d);
  }

  /**
   After a tied round the rounds go on from its flags with the rolls it left;
   only players flagged before it can be flagged after it.
   */
  lemma TiedRoundsGoOn(t: Tally, dice: seq<Roll>)
    requires Shaped(t, |t.rolls|) && SomeRoller(t)
    requires PlayRound(t, dice).Some? && PlayRound(t, dice).value.0.ties
    ensures SomeRoller(PlayRound(t, dice).value.0)
    ensures forall j :: 0 <= j < |t.rolls| && PlayRound(t, dice).value.0.rollers[j] ==> t.rollers[j]
    ensures Rounds(t, dice) == Rounds(PlayRound(t, dice).value.0, PlayRound(t, dice).value.1)
  {
    RoundVerdict(t, dice);
    PlayRoundOutcome(t, dice);
  }

  /**
   A decisive round yields a strict leader; a tied one leaves someone flagged
   and only dice rolls in the supply, so the next round can be played.
   */
  lemma RoundVerdict(t: Tally, dice: seq<Roll>)
    requires Shaped(t, |t.rolls|) && SomeRoller(t)
    ensures var r := PlayRound(t, dice);
      r.Some? ==>
        && (!r.value.0.ties ==>
              StrictLeader(Decision(r.value.0.first, r.value.0.rolls, t.rollers, r.value.1), |t.rolls|))
        && (r.value.0.ties ==> SomeRoller(r.value.0))
  {
    var r := PlayRound(t, dice);
    PlayRoundOutcome(t, dice);
    if r.Some? {
      var u := r.value.0;
      if u.ties {
        TiedRoundContinues(t, u);
      } else {
        DecisiveRound(t, u);
      }
    }
  }

  /** What is left over from what was left over is left over from the whole supply. */
  lemma SuffixOfSuffix(dice: seq<Roll>, rest: seq<Roll>, left: seq<Roll>)
    requires Leftover(dice, rest) && Leftover(rest, left)
    ensures Leftover(dice, left)
  {
  }

  /**
   Decides who plays first among `count` players from a supply of rolls, or
   None when the supply runs out before a round without a tie.
   */
  function DetermineFirstPlayer(count: int, dice: seq<Roll>): (r: Option<Decision>)
    requires count >= 1
    ensures r.Some? ==> StrictLeader(r.value, count)
    ensures r.Some? ==> |r.value.remaining| <= |dice| - count && Leftover(dice, r.value.remaining)
    ensures r.Some? ==> Reaches(StartTally(count), dice, r.value)
    ensures r.Some? ==> PlayRound(StartTally(count), dice).Some?
    ensures var p := PlayRound(StartTally(count), dice);
      p.Some? && !p.value.0.ties ==> r == Some(Decision(p.value.0.first, p.value.0.rolls, StartTally(count).rollers, p.value.1))
  {
    RoundsDecide(StartTally(count), dice);
    Rounds(StartTally(count), dice)
  }

  /**
   Two players decide by comparing pairs of rolls in order: the first unequal
   pair names its higher roller; equal pairs are rolled again.
   */
  function TwoPlayerReference(dice: seq<Roll>): (r: Option<(int, seq<Roll>)>)
    decreases |dice|
  {
    if |dice| < 2 then None
    else if dice[0] > dice[1] then Some((0, dice[2..]))
    else if dice[0] < dice[1] then Some((1, dice[2..]))
    else TwoPlayerReference(dice[2..])
  }

  /**
   A two-player round with both players flagged: the higher roll leads (player 0
   on equal rolls), and an equal pair flags both players again.
   */
  lemma TwoPlayerRound(t: Tally, dice: seq<Roll>)
    requires Shaped(t, 2) && t.rollers == [true, true] && SomeRoller(t) && |dice| >= 2
    ensures PlayRound(t, dice).Some?
    ensures var u := PlayRound(t, dice).value.0;
      && PlayRound(t, dice).value.1 == dice[2..]
      && (u.ties <==> dice[0] == dice[1])
      && u.first == (if dice[1] > dice[0] then 1 else 0)
      && (dice[0] == dice[1] ==> u.rollers == [true, true])
  {
    var t0 := t.(highest := 0);
    assert DiceRoll(dice[0]) && DiceRoll(dice[1]);
    var u1 := RecordRoll(t0, 0, dice[0]);
    assert RoundFrom(t0, 0, dice) == RoundFrom(u1, 1, dice[1..]);
    assert u1.rollers[1];
    var u2 := RecordRoll(u1, 1, dice[1]);
    assert dice[1..][1..] == dice[2..];
    assert RoundFrom(u1, 1, dice[1..]) == RoundFrom(u2, 2, dice[2..]) == Some((u2, dice[2..]));
    if dice[0] == dice[1] {
      assert u2.rollers == [true, true];
    }
  }

  /** With two players the procedure is the pairwise comparison. */
  lemma {:induction false} TwoPlayersMatchReference(t: Tally, dice: seq<Roll>)
    requires Shaped(t, 2) && t.rollers == [true, true] && SomeRoller(t)
    ensures var r := Rounds(t, dice);
      match TwoPlayerReference(dice)
      case None => r.None?
      case Some(p) => r.Some? && r.value.first == p.0 && r.value.remaining == p.1
    decreases |dice|
  {
    if |dice| < 2 {
      assert PlayRound(t, dice).None? by {
        var t0 := t.(highest := 0);
        if |dice| == 1 {
          assert RoundFrom(t0, 0, dice) == RoundFrom(RecordRoll(t0, 0, dice[0]), 1, dice[1..]);
          assert RecordRoll(t0, 0, dice[0]).rollers[1];
        }
      }
    } else {
      TwoPlayerRound(t, dice);
      var u := PlayRound(t, dice).value.0;
      if dice[0] == dice[1] {
        assert SomeRoller(u) by { assert u.rollers[0]; }
        TwoPlayersMatchReference(u, dice[2..]);
      }
    }
  }

  /** Two players: the procedure agrees with the pairwise comparison from the start. */
  lemma TwoPlayerFirst(dice: seq<Roll>)
    ensures var r := DetermineFirstPlayer(2, dice);
      match TwoPlayerReference(dice)
      case None => r.None?
      case Some(p) => r.Some? && r.value.first == p.0 && r.value.remaining == p.1
  {
    assert StartTally(2).rollers == [true, true];
    TwoPlayersMatchReference(StartTally(2), dice);
  }

  /** Both roll 9, then 5 against 8: the second player goes first. */
  lemma TieThenDecisiveRoll()
    ensures var r := DetermineFirstPlayer(2, [9, 9, 5, 8]);
      r.Some? && r.value.first == 1 && r.value.remaining == []
  {
    TieThenDecisivePairs();
    TwoPlayerFirst([9, 9, 5, 8]);
  }

  /** The pairs 9, 9 and 5, 8 compared: the second player is the higher roller of the first unequal pair. */
  lemma TieThenDecisivePairs()
    ensures TwoPlayerReference([9, 9, 5, 8]) == Some((1, []))
  {
    var dice: seq<Roll> := [9, 9, 5, 8];
    assert dice[2..] == [5, 8] && dice[2..][2..] == [];
  }

  /**
   With four players the flags of an earlier tie survive a new leader: after
   rolls 5, 5, 8, 8 all four players roll again, not only the two who tied on 8.
   */
  lemma StaleTieFlagsWithFourPlayers()
    ensures var r := PlayRound(StartTally(4), [5, 5, 8, 8]);
      r.Some? && r.value.0.ties && r.value.0.rollers == [true, true, true, true]
  {
    assert StartTally(4).(highest := 0) == Tally([0, 0, 0, 0], [true, true, true, true], 0, 0, false);
    FourPlayerRound();
  }

  /** The round of StaleTieFlagsWithFourPlayers, roll by roll. */
  lemma FourPlayerRound()
    ensures RoundFrom(Tally([0, 0, 0, 0], [true, true, true, true], 0, 0, false), 0, [5, 5, 8, 8])
      == Some((Tally([5, 5, 8, 8], [true, true, true, true], 8, 2, true), []))
  {
    var t0 := Tally([0, 0, 0, 0], [true, true, true, true], 0, 0, false);
    var u1 := Tally([5, 0, 0, 0], [false, true, true, true], 5, 0, false);
    var u2 := Tally([5, 5, 0, 0], [true, true, true, true], 5, 0, true);
    var u3 := Tally([5, 5, 8, 0], [true, true, false, true], 8, 2, false);
    var u4 := Tally([5, 5, 8, 8], [true, true, true, true], 8, 2, true);
    FourPlayerRolls();
    calc {
      RoundFrom(t0, 0, [5, 5, 8, 8]);
      { RollStep(t0, 0, [5, 5, 8, 8], u1); }
      RoundFrom(u1, 1, [5, 8, 8]);
      { RollStep(u1, 1, [5, 8, 8], u2); }
      RoundFrom(u2, 2, [8, 8]);
      { RollStep(u2, 2, [8, 8], u3); }
      RoundFrom(u3, 3, [8]);
      { RollStep(u3, 3, [8], u4); }
      RoundFrom(u4, 4, []);
    }
  }

  /** The four rolls of FourPlayerRound: a lead on 5, a tie, a new lead on 8, a tie. */
  lemma FourPlayerRolls()
    ensures RecordRoll(Tally([0, 0, 0, 0], [true, true, true, true], 0, 0, false), 0, 5)
      == Tally([5, 0, 0, 0], [false, true, true, true], 5, 0, false)
    ensures RecordRoll(Tally([5, 0, 0, 0], [false, true, true, true], 5, 0, false), 1, 5)
      == Tally([5, 5, 0, 0], [true, true, true, true], 5, 0, true)
    ensures RecordRoll(Tally([5, 5, 0, 0], [true, true, true, true], 5, 0, true), 2, 8)
      == Tally([5, 5, 8, 0], [true, true, false, true], 8, 2, false)
    ensures RecordRoll(Tally([5, 5, 8, 0], [true, true, false, true], 8, 2, false), 3, 8)
      == Tally([5, 5, 8, 8], [true, true, true, true], 8, 2, true)
  {
  }

  /**
   With three players rolling 5, 5, 3 the first two tie and roll again, the
   third sits out; rolls 9, 4 then make the first player the winner of the
   re-roll, with no rolls left over.
   */
  lemma ThreePlayerReRoll()
    ensures DetermineFirstPlayer(3, [5, 5, 3, 9, 4]) == Some(Decision(0, [9, 4, 3], [true, true, false], []))
  {
    var t := StartTally(3);
    assert t == Tally([0, 0, 0], [true, true, true], 0, 0, false);
    var u := Tally([5, 5, 3], [true, true, false], 5, 0, true);
    ThreePlayerRounds();
    assert PlayRound(t, [5, 5, 3, 9, 4]) == Some((u, [9, 4]));
    assert u.(highest := 0) == Tally([5, 5, 3], [true, true, false], 0, 0, true);
    assert PlayRound(u, [9, 4]) == Some((Tally([9, 4, 3], [false, false, false], 9, 0, false), []));
  }

  /**
   The decision of ThreePlayerReRoll is the only one a run of tied rounds
   followed by a round without a tie can reach on that supply: the loser of the
   re-roll is never chosen.
   */
  lemma ThreePlayerDecisionIsPinned()
    ensures forall d :: Reaches(StartTally(3), [5, 5, 3, 9, 4], d) ==> d == Decision(0, [9, 4, 3], [true, true, false], [])
  {
    var dice: seq<Roll> := [5, 5, 3, 9, 4];
    ThreePlayerReRoll();
    forall d | Reaches(StartTally(3), dice, d)
      ensures d == Decision(0, [9, 4, 3], [true, true, false], [])
    {
      ReachesIsRounds(StartTally(3), dice, d);
    }
  }

  /** The two rounds of ThreePlayerReRoll, roll by roll. */
  lemma ThreePlayerRounds()
    ensures RoundFrom(Tally([0, 0, 0], [true, true, true], 0, 0, false), 0, [5, 5, 3, 9, 4])
      == Some((Tally([5, 5, 3], [true, true, false], 5, 0, true), [9, 4]))
    ensures RoundFrom(Tally([5, 5, 3], [true, true, false], 0, 0, true), 0, [9, 4])
      == Some((Tally([9, 4, 3], [false, false, false], 9, 0, false), []))
  {
    var t0 := Tally([0, 0, 0], [true, true, true], 0, 0, false);
    var u1 := Tally([5, 0, 0], [false, true, true], 5, 0, false);
    var u2 := Tally([5, 5, 0], [true, true, true], 5, 0, true);
    var u3 := Tally([5, 5, 3], [true, true, false], 5, 0, true);
    var v0 := Tally([5, 5, 3], [true, true, false], 0, 0, true);
    var v1 := Tally([9, 5, 3], [false, true, false], 9, 0, false);
    var v2 := Tally([9, 4, 3], [false, false, false], 9, 0, false);
    ThreePlayerRolls();
    calc {
      RoundFrom(t0, 0, [5, 5, 3, 9, 4]);
      { RollStep(t0, 0, [5, 5, 3, 9, 4], u1); }
      RoundFrom(u1, 1, [5, 3, 9, 4]);
      { RollStep(u1, 1, [5, 3, 9, 4], u2); }
      RoundFrom(u2, 2, [3, 9, 4]);
      { RollStep(u2, 2, [3, 9, 4], u3); }
      RoundFrom(u3, 3, [9, 4]);
    }
    calc {
      RoundFrom(v0, 0, [9, 4]);
      { RollStep(v0, 0, [9, 4], v1); }
      RoundFrom(v1, 1, [4]);
      { RollStep(v1, 1, [4], v2); }
      RoundFrom(v2, 2, []);
    }
  }

  /** The five rolls of ThreePlayerRounds: a lead on 5, a tie, a lower roll; then a lead on 9 and a lower roll. */
  lemma ThreePlayerRolls()
    ensures RecordRoll(Tally([0, 0, 0], [true, true, true], 0, 0, false), 0, 5)
      == Tally([5, 0, 0], [false, true, true], 5, 0, false)
    ensures RecordRoll(Tally([5, 0, 0], [false, true, true], 5, 0, false), 1, 5)
      == Tally([5, 5, 0], [true, true, true], 5, 0, true)
    ensures RecordRoll(Tally([5, 5, 0], [true, true, true], 5, 0, true), 2, 3)
      == Tally([5, 5, 3], [true, true, false], 5, 0, true)
    ensures RecordRoll(Tally([5, 5, 3], [true, true, false], 0, 0, true), 0, 9)
      == Tally([9, 5, 3], [false, true, false], 9, 0, false)
    ensures RecordRoll(Tally([9, 5, 3], [false, true, false], 9, 0, false), 1, 4)
      == Tally([9, 4, 3], [false, false, false], 9, 0, false)
  {
  }

  /** One flagged player's roll, as a step of a round. */
  lemma RollStep(t: Tally, i: int, dice: seq<Roll>, u: Tally)
    requires Shaped(t, |t.rolls|) && 0 <= i < |t.rolls| && t.rollers[i] && |dice| > 0
    requires RecordRoll(t, i, dice[0]) == u
    ensures RoundFrom(t, i, dice) == RoundFrom(u, i + 1, dice[1..])
  {
  }
}
