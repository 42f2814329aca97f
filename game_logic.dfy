/**
 * The Kniffel game engine (`src/game_logic.rs`): players, the five dice and the
 * Roll/Book/Ended state machine with turn rotation.
 *
 * The engine is modelled twice, at two levels. The classes `KniffelPlayer` and `KniffelGame`
 * update their fields in place as the source does. The functions over `GameValue`
 * (`ReRollSpec`, `NextPhaseSpec`, `BookSpec`) say what each operation does to a snapshot of
 * that state. Every mutating method promises that its new snapshot is the function of the
 * old one, and the rules of the game are proved as lemmas about those functions.
 *
 * Randomness is a parameter: `rng` is a supply of die values in 1..6, consumed front to
 * back, one value for each pending die.
 * Turn order is the order of the player sequence; the player after the last is the first.
 */
module GameLogic {
  import opened SliceOps
  import opened Scoring
  import opened Booking

  // =======================================================================================
  // Scoring dispatch

  /** The score the hand earns in category `b` (the dispatch of `get_to_add_score`). */
  function BookingScore(dice: seq<int>, b: BookingType): int
    requires |dice| == 5
  {
    match b
    case Ones => ScoreUpper(dice, 1)
    case Twos => ScoreUpper(dice, 2)
    case Threes => ScoreUpper(dice, 3)
    case Fours => ScoreUpper(dice, 4)
    case Fives => ScoreUpper(dice, 5)
    case Sixes => ScoreUpper(dice, 6)
    case ThreeOfAKind => if HasXOfAKind(dice, 3) then Sum(dice) else 0
    case FourOfAKind => if HasXOfAKind(dice, 4) then Sum(dice) else 0
    case FullHouse => if IsFullHouse(dice) then 25 else 0
    case SmallStraight => if IsSmallStraight(dice) then 30 else 0
    case LargeStraight => if IsLargeStraight(dice) then 40 else 0
    case Kniffel => ScoreKniffel(dice)
    case Chance => ScoreChance(dice)
  }

  /** No category pays less than 0 for dice showing 0..6. */
  lemma BookingScoreNonNegative(dice: seq<int>, b: BookingType)
    requires |dice| == 5 && forall i :: 0 <= i < 5 ==> 0 <= dice[i] <= 6
    ensures BookingScore(dice, b) >= 0
  {
    SumBounds(dice, 0, 6);
  }

  /** For a rolled hand every category pays between 0 and 50. */
  lemma BookingScoreRange(dice: seq<int>, b: BookingType)
    requires IsRolledHand(dice)
    ensures 0 <= BookingScore(dice, b) <= 50
  {
    SumBounds(dice, 1, 6);
  }

  /** Scores depend only on which faces were thrown, not on the order of the dice. */
  lemma BookingScorePermutation(a: seq<int>, c: seq<int>, b: BookingType)
    requires |a| == 5 && multiset(a) == multiset(c)
    ensures |c| == 5 && BookingScore(a, b) == BookingScore(c, b)
  {
    assert |c| == |multiset(c)| == |multiset(a)| == 5;
    SumPermutation(a, c);
    assert Faces(a) == Faces(c) by {
      forall x
        ensures x in Faces(a) <==> x in Faces(c)
      {
        assert x in a <==> x in multiset(a);
        assert x in c <==> x in multiset(c);
      }
    }
  }

  /** Worked example: three of one face and two of another is a full house. */
  lemma FullHouseExample()
    ensures BookingScore([1, 1, 1, 2, 2], FullHouse) == 25
  {
    var fh := [1, 1, 1, 2, 2];
    assert multiset(fh) == multiset{1, 1, 1, 2, 2};
    assert multiset(fh)[1] == 3 && multiset(fh)[2] == 2;
  }

  /** Worked example: four alike with an odd one out is no full house (no face shows three times). */
  lemma FourAlikeIsNoFullHouse()
    ensures BookingScore([1, 1, 1, 1, 2], FullHouse) == 0
  {
    var four := [1, 1, 1, 1, 2];
    assert multiset(four) == multiset{1, 1, 1, 1, 2};
    assert forall f :: 1 <= f <= 6 ==> multiset(four)[f] != 3;
  }

  /** Worked example: five alike is no full house (no face shows exactly three times). */
  lemma FiveAlikeIsNoFullHouse()
    ensures BookingScore([1, 1, 1, 1, 1], FullHouse) == 0
  {
    var five := [1, 1, 1, 1, 1];
    assert multiset(five) == multiset{1, 1, 1, 1, 1};
    assert forall f :: 1 <= f <= 6 ==> multiset(five)[f] != 3;
  }

  /** Worked examples: four in a row is a small straight; a gap spoils a large straight. */
  lemma StraightExamples()
    ensures BookingScore([1, 2, 3, 4, 6], SmallStraight) == 30
    ensures BookingScore([1, 2, 3, 4, 5], LargeStraight) == 40
    ensures BookingScore([1, 1, 3, 4, 5], LargeStraight) == 0
  {
    var small := [1, 2, 3, 4, 6];
    assert 1 in small && 2 in small && 3 in small && 4 in small;
    var large := [1, 2, 3, 4, 5];
    assert Faces(large) == {1, 2, 3, 4, 5};
    var gap := [1, 1, 3, 4, 5];
    assert 2 !in Faces(gap) && 6 !in Faces(gap);
  }

  /** Worked examples: three alike scores the sum of all dice; two pairs score nothing. */
  lemma ThreeOfAKindExamples()
    ensures BookingScore([3, 3, 3, 5, 6], ThreeOfAKind) == 20
    ensures BookingScore([3, 3, 5, 5, 6], ThreeOfAKind) == 0
  {
    var three := [3, 3, 3, 5, 6];
    assert multiset(three) == multiset{3, 3, 3, 5, 6};
    assert multiset(three)[3] == 3;
    var pairs := [3, 3, 5, 5, 6];
    assert multiset(pairs) == multiset{3, 3, 5, 5, 6};
    assert !HasXOfAKind(pairs, 3);
  }

  // =======================================================================================
  // Keeping dice by value (`remove_dice`)

  /**
   * Entry `i` of a keep request is honoured when the hand still holds an unclaimed die of
   * that face: fewer earlier entries ask for the same face than the hand shows.
   */
  predicate Kept(hand: seq<int>, keep: seq<int>, i: nat)
    requires i < |keep|
  {
    multiset(keep[..i])[keep[i]] < multiset(hand)[keep[i]]
  }

  /**
   * `remove_dice` writes an honoured entry at its own index into a five-slot array, so an
   * honoured entry at index 5 or beyond is out of bounds (the source panics).
   */
  predicate KeepFits(hand: seq<int>, keep: seq<int>) {
    forall i :: 5 <= i < |keep| ==> !Kept(hand, keep, i)
  }

  /**
   * The dice `remove_dice` leaves: slot i holds keep[i] when that entry is honoured, and 0
   * (pending) otherwise; the cursor advances on every entry.
   */
  function KeepResult(hand: seq<int>, keep: seq<int>): seq<int> {
    seq(5, i requires 0 <= i < 5 => if i < |keep| && Kept(hand, keep, i) then keep[i] else 0)
  }

  /** Five slots; each is 0 or the requested value at that index; slots past the request are 0. */
  lemma KeepResultShape(hand: seq<int>, keep: seq<int>)
    ensures |KeepResult(hand, keep)| == 5
    ensures forall i :: 0 <= i < 5 ==> (KeepResult(hand, keep)[i] == 0 || (i < |keep| && KeepResult(hand, keep)[i] == keep[i]))
    ensures forall i :: |keep| <= i < 5 ==> KeepResult(hand, keep)[i] == 0
  {
  }

  /** Only faces the hand shows are kept. */
  lemma KeepResultFromHand(hand: seq<int>, keep: seq<int>)
    ensures forall i :: 0 <= i < 5 ==> KeepResult(hand, keep)[i] == 0 || KeepResult(hand, keep)[i] in hand
  {
    forall i | 0 <= i < 5 && KeepResult(hand, keep)[i] != 0
      ensures KeepResult(hand, keep)[i] in hand
    {
      assert KeepResult(hand, keep)[i] in multiset(hand);
    }
  }

  function Min(a: int, b: int): int {
    if a <= b then a else b
  }

  lemma {:induction false} KeptPrefixCount(hand: seq<int>, keep: seq<int>, n: nat, v: int)
    requires n <= 5 && v != 0
    ensures multiset(KeepResult(hand, keep)[..n])[v]
            == Min(multiset(keep[..Min(n, |keep|)])[v], multiset(hand)[v])
  {
    var r := KeepResult(hand, keep);
    if n > 0 {
      KeptPrefixCount(hand, keep, n - 1, v);
      assert r[..n] == r[..n - 1] + [r[n - 1]];
      assert multiset(r[..n])[v] == multiset(r[..n - 1])[v] + (if r[n - 1] == v then 1 else 0);
      if n - 1 < |keep| {
        KeptStep(hand, keep, n - 1);
        assert Min(n, |keep|) == n && Min(n - 1, |keep|) == n - 1;
      } else {
        assert Min(n, |keep|) == Min(n - 1, |keep|) && r[n - 1] == 0;
      }
    }
  }

  lemma {:induction false} KeptTailCount(hand: seq<int>, keep: seq<int>, n: nat, v: int)
    requires KeepFits(hand, keep)
    requires 5 <= n <= |keep|
    ensures Min(multiset(keep[..n])[v], multiset(hand)[v]) == Min(multiset(keep[..5])[v], multiset(hand)[v])
  {
    if n > 5 {
      KeptTailCount(hand, keep, n - 1, v);
      assert keep[..n] == keep[..n - 1] + [keep[n - 1]];
      assert !Kept(hand, keep, n - 1);
    }
  }

  /** How one more entry of the request changes the number of dice claimed per face. */
  lemma KeptStep(hand: seq<int>, keep: seq<int>, i: nat)
    requires i < |keep|
    ensures forall v :: Min(multiset(keep[..i + 1])[v], multiset(hand)[v])
                        == Min(multiset(keep[..i])[v], multiset(hand)[v]) + (if v == keep[i] && Kept(hand, keep, i) then 1 else 0)
  {
    assert keep[..i + 1] == keep[..i] + [keep[i]];
  }

  /**
   * For every face, `remove_dice` keeps as many dice as were both requested and present:
   * the kept dice are the multiset intersection of the request and the hand.
   */
  lemma KeepResultIntersection(hand: seq<int>, keep: seq<int>)
    requires KeepFits(hand, keep)
    ensures forall v :: v != 0 ==> multiset(KeepResult(hand, keep))[v] == (multiset(keep) * multiset(hand))[v]
  {
    var r := KeepResult(hand, keep);
    forall v | v != 0
      ensures multiset(r)[v] == (multiset(keep) * multiset(hand))[v]
    {
      KeptPrefixCount(hand, keep, 5, v);
      assert r[..5] == r;
      if |keep| > 5 {
        KeptTailCount(hand, keep, |keep|, v);
      }
      assert keep[..|keep|] == keep;
    }
  }

  /** Worked example: both requested 2s are in the hand, so both are kept in the first two slots. */
  lemma KeepPairExample()
    ensures KeepResult([2, 2, 3, 4, 5], [2, 2]) == [2, 2, 0, 0, 0]
  {
    var hand := [2, 2, 3, 4, 5];
    assert multiset(hand)[2] == 2;
    var pair := [2, 2];
    assert pair[..0] == [] && pair[..1] == [2];
    assert Kept(hand, pair, 0) && Kept(hand, pair, 1);
  }

  /** Worked example: only two 2s are in the hand, so a third requested 2 is dropped. */
  lemma KeepSurplusExample()
    ensures KeepResult([2, 2, 3, 4, 5], [2, 2, 2]) == [2, 2, 0, 0, 0]
  {
    var hand := [2, 2, 3, 4, 5];
    assert multiset(hand)[2] == 2;
    var keep := [2, 2, 2];
    assert keep[..0] == [] && keep[..1] == [2] && keep[..2] == [2, 2];
    assert Kept(hand, keep, 0) && Kept(hand, keep, 1) && !Kept(hand, keep, 2);
  }

  // =======================================================================================
  // Filling pending dice from the random supply

  /** Number of pending (0) slots. */
  function Zeros(s: seq<int>): (z: nat)
    ensures z <= |s|
  {
    if s == [] then 0 else Zeros(s[..|s| - 1]) + (if s[|s| - 1] == 0 then 1 else 0)
  }

  /** A prefix has no more pending slots than the whole. */
  lemma {:induction false} ZerosPrefix(s: seq<int>, k: nat)
    requires k <= |s|
    ensures Zeros(s[..k]) <= Zeros(s)
    decreases |s|
  {
    if k < |s| {
      assert s[..|s| - 1][..k] == s[..k];
      ZerosPrefix(s[..|s| - 1], k);
    } else {
      assert s[..k] == s;
    }
  }

  /**
   * The fill loop of `re_roll_dice`: every pending slot, left to right, takes the next value
   * from the supply; the other slots keep their value.
   */
  function Fill(kept: seq<int>, rng: seq<int>): (r: seq<int>)
    requires Zeros(kept) <= |rng|
    ensures |r| == |kept|
  {
    if kept == [] then []
    else
      var init := kept[..|kept| - 1];
      var last := kept[|kept| - 1];
      Fill(init, rng) + [if last == 0 then rng[Zeros(init)] else last]
  }

  /** Filling one more slot: the prefix fill grows by that slot's value, a pending slot drawing the next value. */
  lemma FillStep(kept: seq<int>, rng: seq<int>, k: nat)
    requires k < |kept| && Zeros(kept) <= |rng|
    ensures Zeros(kept[..k + 1]) == Zeros(kept[..k]) + (if kept[k] == 0 then 1 else 0)
    ensures Zeros(kept[..k + 1]) <= |rng|
    ensures Fill(kept[..k + 1], rng) ==
      Fill(kept[..k], rng) + [if kept[k] == 0 then rng[Zeros(kept[..k])] else kept[k]]
  {
    var pre := kept[..k + 1];
    assert pre[..k] == kept[..k] && pre[k] == kept[k];
    ZerosPrefix(kept, k + 1);
  }

  /** A supply of die values in 1..6 and dice in 0..6 fill to dice in 1..6. */
  lemma {:induction false} FillInRange(kept: seq<int>, rng: seq<int>)
    requires Zeros(kept) <= |rng|
    requires forall i :: 0 <= i < |kept| ==> 0 <= kept[i] <= 6
    requires forall k :: 0 <= k < |rng| ==> 1 <= rng[k] <= 6
    ensures forall i :: 0 <= i < |kept| ==> 1 <= Fill(kept, rng)[i] <= 6
  {
    if kept != [] {
      FillInRange(kept[..|kept| - 1], rng);
    }
  }

  /** Filling never loses a kept die. */
  lemma {:induction false} FillKeeps(kept: seq<int>, rng: seq<int>, v: int)
    requires Zeros(kept) <= |rng| && v != 0
    ensures multiset(kept)[v] <= multiset(Fill(kept, rng))[v]
  {
    if kept != [] {
      var init := kept[..|kept| - 1];
      FillKeeps(init, rng, v);
      assert kept == init + [kept[|kept| - 1]];
    }
  }

  /** With every slot pending, the dice are the next values of the supply. */
  lemma {:induction false} FillAllPending(kept: seq<int>, rng: seq<int>)
    requires forall i :: 0 <= i < |kept| ==> kept[i] == 0
    requires |kept| <= |rng|
    ensures Zeros(kept) == |kept|
    ensures Fill(kept, rng) == rng[..|kept|]
  {
    if kept != [] {
      FillAllPending(kept[..|kept| - 1], rng);
      assert rng[..|kept|] == rng[..|kept| - 1] + [rng[|kept| - 1]];
    }
  }

  // =======================================================================================
  // Snapshots of the game state

  /** A player as a value: name, cumulative score and the categories already booked. */
  datatype PlayerValue = PlayerValue(name: string, score: int, used: set<BookingType>)

  /** The whole mutable state of a game as a value; `current` indexes `players`. */
  datatype GameValue = GameValue(
    players: seq<PlayerValue>,
    gameId: string,
    rollRound: int,
    current: nat,
    state: GameState,
    dice: seq<int>)

  /** Player names are the identity of players within a game. */
  predicate NamesDistinct(ps: seq<PlayerValue>) {
    forall i, j :: 0 <= i < j < |ps| ==> ps[i].name != ps[j].name
  }

  /** The shape every game has: a non-empty roster, a current player in it and five dice. */
  predicate WellFormed(g: GameValue) {
    && |g.players| > 0
    && g.current < |g.players|
    && |g.dice| == 5
    && NamesDistinct(g.players)
  }

  /** The dice show 0 (pending) or a face. */
  predicate DiceInRange(dice: seq<int>) {
    forall i :: 0 <= i < |dice| ==> 0 <= dice[i] <= 6
  }

  /** The state after any engine operation: five rolled dice, in ascending order. */
  predicate Settled(g: GameValue) {
    WellFormed(g) && IsRolledHand(g.dice) && Sorted(g.dice)
  }

  /**
   * The random supply: die values in 1..6, enough for one roll of five dice, and for a
   * second one when this roll is the third and may start the next player's turn.
   */
  predicate RngSupplies(rng: seq<int>, rollRound: int) {
    && |rng| >= (if rollRound == 2 then 10 else 5)
    && forall k :: 0 <= k < |rng| ==> 1 <= rng[k] <= 6
  }

  /** `find_next_player`: the successor in turn order, wrapping after the last player. */
  function FindNextPlayer(current: nat, count: nat): (next: nat)
    requires current < count
    ensures next < count
    ensures next == if current + 1 < count then current + 1 else 0
  {
    (current + 1) % count
  }

  /** The player whose turn it is after `steps` turn changes. */
  function Advance(current: nat, count: nat, steps: nat): (r: nat)
    requires current < count
    ensures r < count
  {
    if steps == 0 then current else FindNextPlayer(Advance(current, count, steps - 1), count)
  }

  lemma {:induction false} AdvanceCompose(current: nat, count: nat, a: nat, b: nat)
    requires current < count
    ensures Advance(current, count, a + b) == Advance(Advance(current, count, a), count, b)
  {
    if b > 0 {
      AdvanceCompose(current, count, a, b - 1);
    }
  }

  lemma {:induction false} AdvanceUpward(current: nat, count: nat, steps: nat)
    requires current + steps < count
    ensures Advance(current, count, steps) == current + steps
  {
    if steps > 0 {
      AdvanceUpward(current, count, steps - 1);
    }
  }

  /**
   * Turns go round the roster in order: from any player, every player moves within one
   * round of `count` turn changes, and after a full round it is the same player again.
   */
  lemma TurnOrderCycles(current: nat, count: nat)
    requires current < count
    ensures Advance(current, count, count) == current
    ensures forall k :: 0 <= k < count - current ==> Advance(current, count, k) == current + k
    ensures forall k :: count - current <= k < count ==> Advance(current, count, k) == k - (count - current)
  {
    forall k | 0 <= k < count - current
      ensures Advance(current, count, k) == current + k
    {
      AdvanceUpward(current, count, k);
    }
    AdvanceUpward(current, count, count - current - 1);
    assert Advance(current, count, count - current) == 0;
    forall k | count - current <= k < count
      ensures Advance(current, count, k) == k - (count - current)
    {
      AdvanceCompose(current, count, count - current, k - (count - current));
      AdvanceUpward(0, count, k - (count - current));
    }
    AdvanceCompose(current, count, count - current, current);
    AdvanceUpward(0, count, current);
  }

  // =======================================================================================
  // The state machine on snapshots

  /** One roll: keep the honoured dice, roll the pending ones, sort, and count the roll. */
  function RollSpec(g: GameValue, keep: seq<int>, rng: seq<int>): (r: GameValue)
    requires WellFormed(g) && KeepFits(g.dice, keep) && |rng| >= 5
    ensures WellFormed(r)
  {
    g.(dice := SortSeq(Fill(KeepResult(g.dice, keep), rng)), rollRound := g.rollRound + 1)
  }

  /**
   * `next_phase`: Roll becomes Book; any other phase ends the turn: the next player becomes
   * current, and the game ends if that player has booked all thirteen categories, otherwise
   * their turn opens with a roll of all five dice. That opening roll is `re_roll_dice` from
   * roll counter 0, which never reaches the third roll, so it is a single `RollSpec`.
   */
  function NextPhaseSpec(g: GameValue, rng: seq<int>): (r: GameValue)
    requires WellFormed(g) && RngSupplies(rng, 0)
    ensures WellFormed(r) && r.players == g.players && r.gameId == g.gameId
  {
    if g.state == Roll then g.(state := Book)
    else
      var next := FindNextPlayer(g.current, |g.players|);
      if |g.players[next].used| == 13 then g.(state := Ended, current := next)
      else RollSpec(g.(state := Roll, current := next, rollRound := 0), [], rng)
  }

  /**
   * `re_roll_dice`: one roll; the third roll of a turn then advances the phase with the
   * rest of the supply. The phase is not checked first.
   */
  function ReRollSpec(g: GameValue, keep: seq<int>, rng: seq<int>): (r: GameValue)
    requires WellFormed(g) && KeepFits(g.dice, keep) && RngSupplies(rng, g.rollRound)
    ensures WellFormed(r) && r.players == g.players && r.gameId == g.gameId
  {
    var rolled := RollSpec(g, keep, rng);
    var taken := Zeros(KeepResult(g.dice, keep));
    if rolled.rollRound == 3 then
      assert RngSupplies(rng[taken..], 0);
      NextPhaseSpec(rolled, rng[taken..])
    else rolled
  }

  /**
   * `book_dice_roll`: an already booked category is refused (the source panics before any
   * change); otherwise the current player gains the category's score for the hand, the
   * category is marked used, and the phase advances.
   */
  function BookSpec(g: GameValue, b: BookingType, rng: seq<int>): Result<GameValue>
    requires WellFormed(g) && RngSupplies(rng, 0)
  {
    if b in g.players[g.current].used then Err
    else Ok(NextPhaseSpec(Credit(g, b, BookingScore(g.dice, b)), rng))
  }

  /** The current player gains `points` and category `b` is marked used; nothing else changes. */
  function Credit(g: GameValue, b: BookingType, points: int): (r: GameValue)
    requires WellFormed(g)
    ensures WellFormed(r)
  {
    var p := g.players[g.current];
    var players := g.players[g.current := p.(score := p.score + points, used := p.used + {b})];
    assert forall i :: 0 <= i < |players| ==> players[i].name == g.players[i].name;
    g.(players := players)
  }

  /** `KniffelGame::new`: a game in phase Roll whose first player has rolled once. */
  function NewGameSpec(players: seq<PlayerValue>, gameId: string, rng: seq<int>): GameValue
    requires |players| > 0 && NamesDistinct(players) && RngSupplies(rng, 0)
  {
    ReRollSpec(GameValue(players, gameId, 0, 0, Roll, [0, 0, 0, 0, 0]), [], rng)
  }

  // =======================================================================================
  // Rules of the game, proved on the snapshots

  lemma InRangeOfPermutation(a: seq<int>, b: seq<int>)
    requires multiset(a) == multiset(b)
    requires forall i :: 0 <= i < |a| ==> 1 <= a[i] <= 6
    ensures forall i :: 0 <= i < |b| ==> 1 <= b[i] <= 6
  {
    forall i | 0 <= i < |b|
      ensures 1 <= b[i] <= 6
    {
      assert b[i] in multiset(a);
    }
  }

  /** `remove_dice` on dice in 0..6 leaves dice in 0..6. */
  lemma KeepResultInRange(hand: seq<int>, keep: seq<int>)
    requires DiceInRange(hand)
    ensures DiceInRange(KeepResult(hand, keep))
  {
    var kept := KeepResult(hand, keep);
    KeepResultFromHand(hand, keep);
    forall i | 0 <= i < 5
      ensures 0 <= kept[i] <= 6
    {
      if kept[i] != 0 {
        var j :| 0 <= j < |hand| && hand[j] == kept[i];
      }
    }
  }

  /** Filling five dice in 0..6 and sorting them gives five sorted dice in 1..6. */
  lemma FilledHandInRange(kept: seq<int>, rng: seq<int>)
    requires |kept| == 5 && DiceInRange(kept)
    requires |rng| >= 5 && forall k :: 0 <= k < |rng| ==> 1 <= rng[k] <= 6
    ensures IsRolledHand(SortSeq(Fill(kept, rng))) && Sorted(SortSeq(Fill(kept, rng)))
  {
    var filled := Fill(kept, rng);
    FillInRange(kept, rng);
    var sorted := SortSeq(filled);
    SortSeqCorrect(filled);
    InRangeOfPermutation(filled, sorted);
    assert |sorted| == 5;
    assert IsRolledHand(sorted);
  }

  /** One roll from dice in 0..6: five sorted dice in 1..6. */
  lemma RollInRange(hand: seq<int>, keep: seq<int>, rng: seq<int>)
    requires DiceInRange(hand)
    requires |rng| >= 5 && forall k :: 0 <= k < |rng| ==> 1 <= rng[k] <= 6
    ensures IsRolledHand(SortSeq(Fill(KeepResult(hand, keep), rng)))
    ensures Sorted(SortSeq(Fill(KeepResult(hand, keep), rng)))
  {
    KeepResultInRange(hand, keep);
    FilledHandInRange(KeepResult(hand, keep), rng);
  }

  /** Every die that `remove_dice` kept is still in the hand after the roll. */
  lemma RollKeeps(hand: seq<int>, keep: seq<int>, rng: seq<int>)
    requires KeepFits(hand, keep) && |rng| >= 5
    ensures forall v :: v != 0 ==> (multiset(keep) * multiset(hand))[v]
                                    <= multiset(SortSeq(Fill(KeepResult(hand, keep), rng)))[v]
  {
    var kept := KeepResult(hand, keep);
    var filled := Fill(kept, rng);
    SortSeqCorrect(filled);
    KeepResultIntersection(hand, keep);
    forall v | v != 0
      ensures (multiset(keep) * multiset(hand))[v] <= multiset(SortSeq(filled))[v]
    {
      FillKeeps(kept, rng, v);
    }
  }

  /** The three facts of one roll. */
  lemma RollProperties(hand: seq<int>, keep: seq<int>, rng: seq<int>)
    requires DiceInRange(hand) && KeepFits(hand, keep)
    requires |rng| >= 5 && forall k :: 0 <= k < |rng| ==> 1 <= rng[k] <= 6
    ensures IsRolledHand(SortSeq(Fill(KeepResult(hand, keep), rng)))
    ensures Sorted(SortSeq(Fill(KeepResult(hand, keep), rng)))
    ensures forall v :: v != 0 ==> (multiset(keep) * multiset(hand))[v]
                                    <= multiset(SortSeq(Fill(KeepResult(hand, keep), rng)))[v]
  {
    RollInRange(hand, keep, rng);
    RollKeeps(hand, keep, rng);
  }

  /**
   * `re_roll_dice` before the third roll: the hand is re-rolled as `RollProperties` says,
   * the roll counter goes up by exactly one, and nothing else changes.
   */
  lemma ReRollCountsRoll(g: GameValue, keep: seq<int>, rng: seq<int>)
    requires WellFormed(g) && DiceInRange(g.dice) && KeepFits(g.dice, keep) && RngSupplies(rng, g.rollRound)
    requires g.rollRound != 2
    ensures var r := ReRollSpec(g, keep, rng);
      && r == g.(dice := r.dice, rollRound := g.rollRound + 1)
      && Settled(r)
      && forall v :: v != 0 ==> (multiset(keep) * multiset(g.dice))[v] <= multiset(r.dice)[v]
  {
    RollProperties(g.dice, keep, rng);
  }

  /** The third roll of a turn that is in phase Roll ends in phase Book with the rolled hand. */
  lemma ThirdRollBooks(g: GameValue, keep: seq<int>, rng: seq<int>)
    requires WellFormed(g) && DiceInRange(g.dice) && KeepFits(g.dice, keep) && RngSupplies(rng, g.rollRound)
    requires g.state == Roll && g.rollRound == 2
    ensures var r := ReRollSpec(g, keep, rng);
      && r.state == Book && r.rollRound == 3 && r.current == g.current
      && Settled(r)
      && forall v :: v != 0 ==> (multiset(keep) * multiset(g.dice))[v] <= multiset(r.dice)[v]
  {
    RollProperties(g.dice, keep, rng);
  }

  /** `next_phase` from Roll goes to Book and changes nothing else. */
  lemma NextPhaseFromRoll(g: GameValue, rng: seq<int>)
    requires WellFormed(g) && RngSupplies(rng, 0) && g.state == Roll
    ensures NextPhaseSpec(g, rng) == g.(state := Book)
  {
  }

  /**
   * `next_phase` from Book (or Ended) ends the turn: the successor becomes current; the game
   * is Ended, with dice and roll counter untouched, exactly when that player has used all
   * thirteen categories; otherwise it is their first roll of a fresh hand.
   */
  lemma NextPhaseEndsTurn(g: GameValue, rng: seq<int>)
    requires WellFormed(g) && RngSupplies(rng, 0) && g.state != Roll
    ensures var r := NextPhaseSpec(g, rng);
      var next := FindNextPlayer(g.current, |g.players|);
      && r.current == next
      && (r.state == Ended <==> g.players[next].used == AllBookingTypes)
      && (r.state == Ended ==> r.dice == g.dice && r.rollRound == g.rollRound)
      && (r.state != Ended ==> r.state == Roll && r.rollRound == 1 && r.dice == SortSeq(rng[..5]))
      && (r.state != Ended ==> IsRolledHand(r.dice) && Sorted(r.dice))
  {
    var next := FindNextPlayer(g.current, |g.players|);
    UsedAtMostThirteen(g.players[next].used);
    var start := g.(state := Roll, current := next, rollRound := 0);
    var kept := KeepResult(start.dice, []);
    assert kept == [0, 0, 0, 0, 0];
    FillAllPending(kept, rng);
    FilledHandInRange(kept, rng);
    if g.players[next].used != AllBookingTypes {
      assert NextPhaseSpec(g, rng) == RollSpec(start, [], rng);
    }
  }

  lemma ReRollSettles(g: GameValue, keep: seq<int>, rng: seq<int>)
    requires WellFormed(g) && DiceInRange(g.dice) && KeepFits(g.dice, keep) && RngSupplies(rng, g.rollRound)
    ensures Settled(ReRollSpec(g, keep, rng))
  {
    RollProperties(g.dice, keep, rng);
    if g.rollRound == 2 {
      var taken := Zeros(KeepResult(g.dice, keep));
      assert RngSupplies(rng[taken..], 0);
      NextPhaseSettles(RollSpec(g, keep, rng), rng[taken..]);
    }
  }

  lemma NextPhaseSettles(g: GameValue, rng: seq<int>)
    requires Settled(g) && RngSupplies(rng, 0)
    ensures Settled(NextPhaseSpec(g, rng))
  {
    if g.state != Roll {
      NextPhaseEndsTurn(g, rng);
    }
  }

  /** Every engine operation leads from a settled state to a settled state. */
  lemma OperationsSettle(g: GameValue, keep: seq<int>, b: BookingType, rng: seq<int>)
    requires Settled(g) && RngSupplies(rng, 0)
    ensures KeepFits(g.dice, keep) && g.rollRound != 2 ==> Settled(ReRollSpec(g, keep, rng))
    ensures Settled(NextPhaseSpec(g, rng))
    ensures BookSpec(g, b, rng).Ok? ==> Settled(BookSpec(g, b, rng).value)
  {
    if KeepFits(g.dice, keep) && g.rollRound != 2 {
      ReRollSettles(g, keep, rng);
    }
    NextPhaseSettles(g, rng);
    if b !in g.players[g.current].used {
      NextPhaseSettles(Credit(g, b, BookingScore(g.dice, b)), rng);
    }
  }

  /** A new game is in phase Roll, on its first roll, with the first player to move. */
  lemma NewGameStarts(players: seq<PlayerValue>, gameId: string, rng: seq<int>)
    requires |players| > 0 && NamesDistinct(players) && RngSupplies(rng, 0)
    ensures var g := NewGameSpec(players, gameId, rng);
      && g.state == Roll && g.rollRound == 1 && g.current == 0
      && g.players == players && g.gameId == gameId
      && g.dice == SortSeq(rng[..5])
      && Settled(g)
  {
    var g0 := GameValue(players, gameId, 0, 0, Roll, [0, 0, 0, 0, 0]);
    var kept := KeepResult(g0.dice, []);
    assert kept == [0, 0, 0, 0, 0];
    FillAllPending(kept, rng);
    ReRollCountsRoll(g0, [], rng);
  }

  /** One player's record only moves forward: same name, score not lower, used set not smaller. */
  predicate PlayerProgress(p: PlayerValue, q: PlayerValue) {
    p.name == q.name && p.score <= q.score && p.used <= q.used
  }

  /**
   * Booking a category already used is refused; booking an unused one adds exactly its
   * score for the current hand to the current player, marks it used, leaves every other
   * player unchanged, and so never lowers a score or shrinks a used set.
   */
  lemma BookEffect(g: GameValue, b: BookingType, rng: seq<int>)
    requires WellFormed(g) && DiceInRange(g.dice) && RngSupplies(rng, 0)
    ensures BookSpec(g, b, rng).Err? <==> b in g.players[g.current].used
    ensures BookSpec(g, b, rng).Ok? ==>
      var r := BookSpec(g, b, rng).value;
      var p := g.players[g.current];
      && |r.players| == |g.players|
      && r.players[g.current] == p.(score := p.score + BookingScore(g.dice, b), used := p.used + {b})
      && (forall i :: 0 <= i < |g.players| && i != g.current ==> r.players[i] == g.players[i])
      && (forall i :: 0 <= i < |g.players| ==> PlayerProgress(g.players[i], r.players[i]))
  {
    BookingScoreNonNegative(g.dice, b);
  }

  // =======================================================================================
  // Stored games (the rows written by the persistence layer and read by `from_db`)

  /** A stored player: name, score and the comma-joined used-category tokens. */
  datatype PlayerRow = PlayerRow(name: string, score: int, usedBookingTypes: string)

  /** A stored game: id, roll counter, phase name, comma-joined dice and current player's name. */
  datatype GameRow = GameRow(gameId: string, rollRound: int, stage: string, diceRolls: string, currentPlayer: string)

  /** `KniffelPlayer::from`: unknown tokens in the used list are dropped. */
  function PlayerFromRow(row: PlayerRow): PlayerValue {
    PlayerValue(row.name, row.score, ParseUsedBookingTypes(row.usedBookingTypes))
  }

  /** `convert_players`: every stored row becomes a player, in row order. */
  function DecodePlayers(rows: seq<PlayerRow>): seq<PlayerValue> {
    seq(|rows|, i requires 0 <= i < |rows| => PlayerFromRow(rows[i]))
  }

  /** No two stored rows carry the same name: the rows are the entries of a map keyed by name. */
  predicate RowNamesDistinct(rows: seq<PlayerRow>) {
    forall i, j :: 0 <= i < j < |rows| ==> rows[i].name != rows[j].name
  }

  /** The position of the player called `name`, if there is one. */
  function IndexOfName(ps: seq<PlayerValue>, name: string): (r: Result<nat>)
    ensures r.Ok? ==> r.value < |ps| && ps[r.value].name == name
    ensures r.Err? ==> forall i :: 0 <= i < |ps| ==> ps[i].name != name
  {
    if ps == [] then Err
    else if ps[0].name == name then Ok(0)
    else
      match IndexOfName(ps[1..], name)
      case Ok(k) => Ok(k + 1)
      case Err => Err
  }

  /**
   * `KniffelGame::from_db`: malformed dice or phase strings (where the source panics) and a
   * roster the model cannot represent (no players, duplicate names, current player absent)
   * are errors.
   */
  function DecodeGame(row: GameRow, rows: seq<PlayerRow>): (r: Result<GameValue>)
    ensures r.Ok? ==> WellFormed(r.value)
  {
    var players := DecodePlayers(rows);
    match ParseDiceRolls(row.diceRolls)
    case Err => Err
    case Ok(dice) =>
      match GameStateFromStr(row.stage)
      case Err => Err
      case Ok(state) =>
        match IndexOfName(players, row.currentPlayer)
        case Err => Err
        case Ok(current) =>
          if NamesDistinct(players) then Ok(GameValue(players, row.gameId, row.rollRound, current, state, dice))
          else Err
  }

  /** The categories in declaration order. */
  const BookingOrder: seq<BookingType> :=
    [Ones, Twos, Threes, Fours, Fives, Sixes, ThreeOfAKind, FourOfAKind,
     FullHouse, SmallStraight, LargeStraight, Kniffel, Chance]

  /** The members of `used` that occur in `order`, in that order. */
  function EnumerateUsed(order: seq<BookingType>, used: set<BookingType>): (r: seq<BookingType>)
    ensures forall b :: b in r <==> b in order && b in used
  {
    if order == [] then []
    else (if order[0] in used then [order[0]] else []) + EnumerateUsed(order[1..], used)
  }

  /** The row the persistence layer writes for a player. */
  function EncodePlayer(p: PlayerValue): PlayerRow {
    PlayerRow(p.name, p.score, JoinBookingTypes(EnumerateUsed(BookingOrder, p.used)))
  }

  /** The row the persistence layer writes for a game. */
  function EncodeGame(g: GameValue): GameRow
    requires WellFormed(g)
  {
    GameRow(g.gameId, g.rollRound, GameStateToString(g.state), JoinDice(g.dice), g.players[g.current].name)
  }

  lemma PlayerRoundTrip(p: PlayerValue)
    ensures PlayerFromRow(EncodePlayer(p)) == p
  {
    var bs := EnumerateUsed(BookingOrder, p.used);
    UsedBookingTypesRoundTrip(bs);
    forall b: BookingType
      ensures b in BookingOrder
    {
      match b
      case Ones =>
      case Twos =>
      case Threes =>
      case Fours =>
      case Fives =>
      case Sixes =>
      case ThreeOfAKind =>
      case FourOfAKind =>
      case FullHouse =>
      case SmallStraight =>
      case LargeStraight =>
      case Kniffel =>
      case Chance =>
    }
    assert (set b | b in bs) == p.used;
  }

  /** The rows the persistence layer writes for the roster. */
  function EncodePlayers(ps: seq<PlayerValue>): seq<PlayerRow> {
    seq(|ps|, i requires 0 <= i < |ps| => EncodePlayer(ps[i]))
  }

  lemma RosterRoundTrip(ps: seq<PlayerValue>)
    ensures DecodePlayers(EncodePlayers(ps)) == ps
  {
    forall i | 0 <= i < |ps|
      ensures DecodePlayers(EncodePlayers(ps))[i] == ps[i]
    {
      PlayerRoundTrip(ps[i]);
    }
  }

  /** With distinct names, looking up a player's name finds that player. */
  lemma {:induction false} IndexOfOwnName(ps: seq<PlayerValue>, i: nat)
    requires NamesDistinct(ps) && i < |ps|
    ensures IndexOfName(ps, ps[i].name) == Ok(i)
  {
    if i > 0 {
      assert ps[0].name != ps[i].name;
      assert NamesDistinct(ps[1..]) by {
        forall p, q | 0 <= p < q < |ps| - 1
          ensures ps[1..][p].name != ps[1..][q].name
        {
          assert ps[1..][p] == ps[p + 1] && ps[1..][q] == ps[q + 1];
        }
      }
      IndexOfOwnName(ps[1..], i - 1);
    }
  }

  /**
   * The decoded roster behaves as the source's map keyed by name: with distinct row names,
   * looking up a row's name finds exactly that row's player, a name no row carries is not
   * found, and the decoded players keep the names distinct.
   */
  lemma DecodedLookup(rows: seq<PlayerRow>, name: string)
    requires RowNamesDistinct(rows)
    ensures NamesDistinct(DecodePlayers(rows))
    ensures forall i :: 0 <= i < |rows| && rows[i].name == name ==>
      IndexOfName(DecodePlayers(rows), name) == Ok(i) && DecodePlayers(rows)[i] == PlayerFromRow(rows[i])
    ensures (forall i :: 0 <= i < |rows| ==> rows[i].name != name) ==> IndexOfName(DecodePlayers(rows), name).Err?
  {
    var ps := DecodePlayers(rows);
    assert forall i :: 0 <= i < |rows| ==> ps[i].name == rows[i].name;
    forall i | 0 <= i < |rows| && rows[i].name == name
      ensures IndexOfName(ps, name) == Ok(i)
    {
      IndexOfOwnName(ps, i);
    }
  }

  /** Storing a game and loading it back reproduces the same game. */
  lemma StoreLoadRoundTrip(g: GameValue)
    requires WellFormed(g)
    requires forall i :: 0 <= i < 5 ==> I32Min <= g.dice[i] <= I32Max
    ensures DecodeGame(EncodeGame(g), EncodePlayers(g.players)) == Ok(g)
  {
    RosterRoundTrip(g.players);
    DiceRoundTrip(g.dice);
    GameStateParseExact(GameStateToString(g.state), g.state);
    IndexOfOwnName(g.players, g.current);
  }

  // =======================================================================================
  // The engine's objects

  /** `KniffelPlayer`: a player whose score and used categories are updated in place. */
  class KniffelPlayer {
    var name: string
    var score: int
    var usedBookingTypes: set<BookingType>

    function Value(): PlayerValue
      reads this
    {
      PlayerValue(name, score, usedBookingTypes)
    }

    /** `KniffelPlayer::new`: no score yet and no category used. */
    constructor (name: string)
      ensures Value() == PlayerValue(name, 0, {})
    {
      this.name := name;
      score := 0;
      usedBookingTypes := {};
    }

    /** `Clone`: an independent copy. */
    constructor Clone(other: KniffelPlayer)
      ensures Value() == other.Value()
    {
      name := other.name;
      score := other.score;
      usedBookingTypes := other.usedBookingTypes;
    }

    /** `KniffelPlayer::from`: a player loaded from a stored row. */
    constructor FromRow(row: PlayerRow)
      ensures Value() == PlayerFromRow(row)
    {
      name := row.name;
      score := row.score;
      usedBookingTypes := CollectBookingTypes(Split(row.usedBookingTypes, ','));
    }

    /** `add_score`. */
    method AddScore(delta: int)
      modifies this
      ensures Value() == old(Value()).(score := old(score) + delta)
    {
      score := score + delta;
    }

    /** `use_booking_type`: the used set gains `b` and loses nothing. */
    method UseBookingType(b: BookingType)
      modifies this
      ensures Value() == old(Value()).(used := old(usedBookingTypes) + {b})
    {
      usedBookingTypes := usedBookingTypes + {b};
    }

    /** `has_used_booking_type`. */
    predicate HasUsedBookingType(b: BookingType)
      reads this
    {
      b in usedBookingTypes
    }
  }

  /** The values of a sequence of player objects. */
  function Values(ps: seq<KniffelPlayer>): (r: seq<PlayerValue>)
    reads ps
    ensures |r| == |ps|
    ensures forall i :: 0 <= i < |ps| ==> r[i] == ps[i].Value()
  {
    seq(|ps|, i requires 0 <= i < |ps| reads ps => ps[i].Value())
  }

  /** Players with distinct names are distinct objects: no other entry aliases entry k. */
  lemma OthersDistinct(ps: seq<KniffelPlayer>, k: nat)
    requires NamesDistinct(Values(ps)) && k < |ps|
    ensures forall i :: 0 <= i < |ps| && i != k ==> ps[i] != ps[k]
  {
    forall i | 0 <= i < |ps| && i != k
      ensures ps[i] != ps[k]
    {
      if i < k {
        PlayerNamesDiffer(ps, i, k);
      } else {
        PlayerNamesDiffer(ps, k, i);
      }
    }
  }

  lemma PlayerNamesDiffer(ps: seq<KniffelPlayer>, i: nat, j: nat)
    requires NamesDistinct(Values(ps)) && i < j < |ps|
    ensures ps[i].name != ps[j].name
  {
    var vs := Values(ps);
    assert vs[i].name != vs[j].name;
  }

  /** Player objects that did not change have the same values. */
  twostate lemma ValuesUnchanged(ps: seq<KniffelPlayer>)
    requires forall i :: 0 <= i < |ps| ==> unchanged(ps[i])
    ensures Values(ps) == old(Values(ps))
  {
    forall i | 0 <= i < |ps|
      ensures Values(ps)[i] == old(Values(ps))[i]
    {
    }
  }

  /** `KniffelGame`: the players in turn order, the dice, the roll counter and the phase. */
  class KniffelGame {
    var players: seq<KniffelPlayer>
    var gameId: string
    var rollRound: int
    var current: nat
    var state: GameState
    var dice: array<int>

    ghost predicate Valid()
      reads this, players
    {
      && dice.Length == 5
      && |players| > 0
      && current < |players|
      && NamesDistinct(Values(players))
    }

    /** The current state as a value. */
    ghost function Abstract(): (g: GameValue)
      reads this, players, dice
      ensures Valid() ==> WellFormed(g)
    {
      GameValue(Values(players), gameId, rollRound, current, state, dice[..])
    }

    /** `KniffelGame::new`: copies the players, and the first player rolls all five dice. */
    constructor (playerList: seq<KniffelPlayer>, gameId: string, rng: seq<int>)
      requires |playerList| > 0 && NamesDistinct(Values(playerList)) && RngSupplies(rng, 0)
      ensures Valid() && fresh(dice)
      ensures forall i :: 0 <= i < |players| ==> fresh(players[i])
      ensures Abstract() == NewGameSpec(old(Values(playerList)), gameId, rng)
    {
      ghost var listed := Values(playerList);
      dice := new int[5](_ => 0);
      this.gameId := gameId;
      rollRound := 0;
      current := 0;
      state := Roll;
      var copies := ClonePlayers(playerList);
      players := copies;
      new;
      assert dice[..] == [0, 0, 0, 0, 0];
      ghost var start := GameValue(listed, gameId, 0, 0, Roll, [0, 0, 0, 0, 0]);
      assert Abstract() == start;
      ReRollDice([], rng);
      assert Abstract() == ReRollSpec(start, [], rng);
    }

    /** The plain struct construction used by `from_db`. */
    constructor Load(players: seq<KniffelPlayer>, gameId: string, rollRound: int, current: nat,
                     state: GameState, dice: seq<int>)
      requires |dice| == 5
      ensures this.players == players && fresh(this.dice)
      ensures Abstract() == GameValue(Values(players), gameId, rollRound, current, state, dice)
    {
      this.players := players;
      this.gameId := gameId;
      this.rollRound := rollRound;
      this.current := current;
      this.state := state;
      this.dice := new int[5](i requires 0 <= i < 5 => dice[i]);
      new;
      assert this.dice[..] == dice;
    }

    /**
     * `KniffelGame::from_db`: converts the stored players, parses the dice and the phase,
     * and finds the current player.
     */
    static method FromDb(row: GameRow, rows: seq<PlayerRow>) returns (r: Result<KniffelGame>)
      ensures r.Err? <==> DecodeGame(row, rows).Err?
      ensures r.Ok? ==> fresh(r.value) && fresh(r.value.dice) && r.value.Valid()
      ensures r.Ok? ==> forall i :: 0 <= i < |r.value.players| ==> fresh(r.value.players[i])
      ensures r.Ok? ==> r.value.Abstract() == DecodeGame(row, rows).value
    {
      var ps: seq<KniffelPlayer> := [];
      for i := 0 to |rows|
        invariant |ps| == i
        invariant forall k :: 0 <= k < i ==> fresh(ps[k]) && ps[k].Value() == PlayerFromRow(rows[k])
      {
        var p := new KniffelPlayer.FromRow(rows[i]);
        ps := ps + [p];
      }
      var values := seq(|rows|, i requires 0 <= i < |rows| => PlayerFromRow(rows[i]));
      assert Values(ps) == values;
      var dice := ParseDiceRolls(row.diceRolls);
      var state := GameStateFromStr(row.stage);
      var current := IndexOfName(values, row.currentPlayer);
      if dice.Err? || state.Err? || current.Err? || !NamesDistinct(values) {
        return Err;
      }
      var game := new KniffelGame.Load(ps, row.gameId, row.rollRound, current.value, state.value, dice.value);
      return Ok(game);
    }

    /**
     * `remove_dice`: counts the faces of the hand, then walks the request keeping a
     * requested face while copies remain, and copies the result over the dice.
     */
    method RemoveDice(keep: seq<int>)
      requires dice.Length == 5 && KeepFits(dice[..], keep)
      modifies dice
      ensures dice[..] == KeepResult(old(dice[..]), keep)
    {
      var hand := dice[..];
      var freq := CountFrequencies(hand);
      var result := KeepByValue(hand, keep, freq);
      forall k | 0 <= k < 5 {
        dice[k] := result[k];
      }
      assert dice[..] == result[..];
    }

    /** The fill loop of `re_roll_dice`: each pending die takes the next value of the supply. */
    method FillPending(rng: seq<int>) returns (taken: nat)
      requires dice.Length == 5 && Zeros(dice[..]) <= |rng|
      modifies dice
      ensures taken == Zeros(old(dice[..]))
      ensures dice[..] == Fill(old(dice[..]), rng)
    {
      ghost var kept := dice[..];
      taken := 0;
      for k := 0 to 5
        invariant taken == Zeros(kept[..k]) && taken <= Zeros(kept)
        invariant dice[..k] == Fill(kept[..k], rng)
        invariant forall j :: k <= j < 5 ==> dice[j] == kept[j]
      {
        FillStep(kept, rng, k);
        ZerosPrefix(kept, k + 1);
        ghost var prefix := dice[..k];
        if dice[k] == 0 {
          dice[k] := rng[taken];
          taken := taken + 1;
        }
        assert dice[..k + 1] == prefix + [dice[k]];
      }
      assert kept[..5] == kept;
      assert dice[..5] == dice[..];
    }

    /** The dice work of `re_roll_dice`: keep the requested dice, roll the pending ones, sort. */
    method RollDice(keep: seq<int>, rng: seq<int>) returns (taken: nat)
      requires dice.Length == 5 && KeepFits(dice[..], keep) && |rng| >= 5
      modifies dice
      ensures taken == Zeros(KeepResult(old(dice[..]), keep))
      ensures dice[..] == SortSeq(Fill(KeepResult(old(dice[..]), keep), rng))
    {
      RemoveDice(keep);
      ghost var kept := dice[..];
      taken := FillPending(rng);
      ghost var filled := dice[..];
      SortInPlace(dice);
      SortSeqCorrect(filled);
      SortedPermutationUnique(dice[..], SortSeq(filled));
    }

    /**
     * `re_roll_dice`: keep the requested dice, roll the pending ones from `rng`, sort, and
     * count the roll; the third roll advances the phase.
     */
    method ReRollDice(keep: seq<int>, rng: seq<int>)
      requires Valid() && KeepFits(dice[..], keep) && RngSupplies(rng, rollRound)
      modifies this, dice
      decreases if rollRound == 2 then 2 else 0
      ensures Valid() && dice == old(dice) && players == old(players)
      ensures Abstract() == ReRollSpec(old(Abstract()), keep, rng)
    {
      ghost var before := Abstract();
      label start:
      var taken := RollDice(keep, rng);
      rollRound := rollRound + 1;
      ValuesUnchanged@start(players);
      ghost var rolled := RollSpec(before, keep, rng);
      assert Abstract() == rolled;
      if rollRound == 3 {
        assert RngSupplies(rng[taken..], 0);
        NextPhase(rng[taken..]);
        assert Abstract() == NextPhaseSpec(rolled, rng[taken..]);
        assert ReRollSpec(before, keep, rng) == NextPhaseSpec(rolled, rng[taken..]);
      } else {
        assert ReRollSpec(before, keep, rng) == rolled;
      }
    }

    /** `next_phase`. */
    method NextPhase(rng: seq<int>)
      requires Valid() && RngSupplies(rng, 0)
      modifies this, dice
      decreases 1
      ensures Valid() && dice == old(dice) && players == old(players)
      ensures Abstract() == NextPhaseSpec(old(Abstract()), rng)
    {
      ghost var before := Abstract();
      state := if state == Roll then Book else Roll;
      if state == Roll {
        var next := FindNextPlayer(current, |players|);
        current := next;
        assert |players[next].usedBookingTypes| == |before.players[next].used|;
        if |players[next].usedBookingTypes| == 13 {
          state := Ended;
          assert Abstract() == before.(state := Ended, current := next);
        } else {
          rollRound := 0;
          assert Abstract() == before.(state := Roll, current := next, rollRound := 0);
          ReRollDice([], rng);
        }
      } else {
        assert Abstract() == before.(state := Book);
      }
    }

    /** `get_to_add_score`: the score of the current hand in category `b`. */
    method GetToAddScore(b: BookingType) returns (s: int)
      requires Valid()
      ensures s == BookingScore(dice[..], b)
    {
      var hand := dice[..];
      match b {
        case Ones => s := ScoreUpper(hand, 1);
        case Twos => s := ScoreUpper(hand, 2);
        case Threes => s := ScoreUpper(hand, 3);
        case Fours => s := ScoreUpper(hand, 4);
        case Fives => s := ScoreUpper(hand, 5);
        case Sixes => s := ScoreUpper(hand, 6);
        case ThreeOfAKind => s := ScoreXOfAKind(hand, 3);
        case FourOfAKind => s := ScoreXOfAKind(hand, 4);
        case Kniffel => s := ScoreKniffel(hand);
        case FullHouse => s := ScoreFullHouse(hand);
        case SmallStraight => s := ScoreSmallStraight(hand);
        case LargeStraight => s := ScoreLargeStraight(hand);
        case Chance => s := ScoreChance(hand);
      }
    }

    /** The player update of `book_dice_roll`: add the points and mark the category used. */
    method CreditCurrentPlayer(b: BookingType, points: int)
      requires Valid()
      modifies players[current]
      ensures Valid()
      ensures Abstract() == Credit(old(Abstract()), b, points)
    {
      var player := players[current];
      OthersDistinct(players, current);
      player.AddScore(points);
      player.UseBookingType(b);
      assert Values(players) == old(Values(players))[current := player.Value()];
    }

    /**
     * `book_dice_roll`: books the hand into `b` for the current player and advances the
     * phase; a category already used is refused before anything changes.
     */
    method BookDiceRoll(b: BookingType, rng: seq<int>) returns (booked: bool)
      requires Valid() && RngSupplies(rng, 0)
      modifies this, dice, players[current]
      ensures Valid() && dice == old(dice) && players == old(players)
      ensures booked <==> b !in old(players[current].usedBookingTypes)
      ensures BookSpec(old(Abstract()), b, rng) == if booked then Ok(Abstract()) else Err
      ensures !booked ==> Abstract() == old(Abstract())
    {
      ghost var before := Abstract();
      var toAddScore := GetToAddScore(b);
      if players[current].HasUsedBookingType(b) {
        assert b in before.players[before.current].used;
        return false;
      }
      CreditCurrentPlayer(b, toAddScore);
      NextPhase(rng);
      return true;
    }
  }

  /** The copy loop of `KniffelGame::new`: a fresh clone of every listed player, in order. */
  method ClonePlayers(playerList: seq<KniffelPlayer>) returns (copies: seq<KniffelPlayer>)
    ensures |copies| == |playerList|
    ensures forall i :: 0 <= i < |copies| ==> fresh(copies[i])
    ensures Values(copies) == old(Values(playerList))
  {
    copies := [];
    for i := 0 to |playerList|
      invariant |copies| == i
      invariant forall k :: 0 <= k < i ==> fresh(copies[k]) && copies[k].Value() == playerList[k].Value()
    {
      var p := new KniffelPlayer.Clone(playerList[i]);
      copies := copies + [p];
    }
  }

  /** The count of face `v` in a frequency map (0 when absent). */
  function Freq(m: map<int, nat>, v: int): nat {
    if v in m then m[v] else 0
  }

  /** The frequency map of `remove_dice`: how often each face occurs in the hand. */
  method CountFrequencies(hand: seq<int>) returns (freq: map<int, nat>)
    ensures forall v :: Freq(freq, v) == multiset(hand)[v]
  {
    freq := map[];
    for j := 0 to |hand|
      invariant forall v :: Freq(freq, v) == multiset(hand[..j])[v]
    {
      assert hand[..j + 1] == hand[..j] + [hand[j]];
      freq := freq[hand[j] := Freq(freq, hand[j]) + 1];
    }
    assert hand[..|hand|] == hand;
  }

  /**
   * The keep loop of `remove_dice`: the cursor advances on every requested value, and a
   * value is written at the cursor while the frequency map still has a copy of it.
   */
  method KeepByValue(hand: seq<int>, keep: seq<int>, freq0: map<int, nat>) returns (result: array<int>)
    requires KeepFits(hand, keep)
    requires Remaining(hand, keep, 0, freq0)
    ensures fresh(result) && result[..] == KeepResult(hand, keep)
  {
    var freq := freq0;
    result := new int[5](_ => 0);
    for i := 0 to |keep|
      invariant Remaining(hand, keep, i, freq)
      invariant forall k :: 0 <= k < 5 ==> result[k] == (if k < i then KeepResult(hand, keep)[k] else 0)
    {
      var val := keep[i];
      TakeStep(hand, keep, i, freq);
      if val in freq && freq[val] > 0 {
        assert i < 5 && KeepResult(hand, keep)[i] == val;
        result[i] := val;
        freq := freq[val := freq[val] - 1];
      } else {
        assert i < 5 ==> KeepResult(hand, keep)[i] == 0;
      }
    }
    assert result[..] == KeepResult(hand, keep);
  }

  /** The dice of each face still unclaimed after the first `i` requested values are honoured. */
  ghost predicate Remaining(hand: seq<int>, keep: seq<int>, i: nat, freq: map<int, nat>)
    requires i <= |keep|
  {
    forall v :: Freq(freq, v) == multiset(hand)[v] - Min(multiset(keep[..i])[v], multiset(hand)[v])
  }

  /** A requested value is honoured exactly when a die of that face is still unclaimed. */
  lemma TakeStep(hand: seq<int>, keep: seq<int>, i: nat, freq: map<int, nat>)
    requires i < |keep| && Remaining(hand, keep, i, freq)
    ensures (keep[i] in freq && freq[keep[i]] > 0) <==> Kept(hand, keep, i)
    ensures Kept(hand, keep, i) ==> Remaining(hand, keep, i + 1, freq[keep[i] := freq[keep[i]] - 1])
    ensures !Kept(hand, keep, i) ==> Remaining(hand, keep, i + 1, freq)
  {
    var val := keep[i];
    KeptStep(hand, keep, i);
    ghost var claimed := multiset(keep[..i])[val];
    ghost var shown := multiset(hand)[val];
    assert Freq(freq, val) == shown - Min(claimed, shown);
  }
}
