/**
 * The booking categories and game phases of the Kniffel engine with their string forms
 * (`Display` and `FromStr` in `src/game_logic.rs`), and the comma-separated text forms in
 * which a stored game keeps a player's used categories and the five dice.
 */
module Booking {

  /** A parse outcome: `FromStr` and `str::parse` either succeed or fail without detail. */
  datatype Result<T> = Ok(value: T) | Err

  /** The thirteen scoring categories; each one can be booked once per player. */
  datatype BookingType =
    | Ones | Twos | Threes | Fours | Fives | Sixes
    | ThreeOfAKind | FourOfAKind | FullHouse | SmallStraight | LargeStraight
    | Kniffel | Chance

  /** The phases of a game. */
  datatype GameState = Roll | Book | Ended

  const AllBookingTypes: set<BookingType> :=
    {Ones, Twos, Threes, Fours, Fives, Sixes, ThreeOfAKind, FourOfAKind,
     FullHouse, SmallStraight, LargeStraight, Kniffel, Chance}

  /** Every set of categories has at most thirteen members; thirteen means all of them. */
  lemma UsedAtMostThirteen(used: set<BookingType>)
    ensures |used| <= 13
    ensures |used| == 13 <==> used == AllBookingTypes
  {
    assert |AllBookingTypes| == 13;
    forall b: BookingType
      ensures b in AllBookingTypes
    {
      match b
      case Ones =>
      case Twos =>
      case Threes =>
      case Fours =>
      case Fives =>
      case Sixes =>
      case ThreeOfAKind =>
      case FourOfAKind =>
      case FullHouse =>
      case SmallStraight =>
      case LargeStraight =>
      case Kniffel =>
      case Chance =>
    }
    assert used <= AllBookingTypes;
    assert |AllBookingTypes - used| == 13 - |used|;
    if |used| == 13 {
      assert AllBookingTypes - used == {};
    }
  }

  /** `Display for BookingType`: the SCREAMING_SNAKE_CASE token. */
  function BookingTypeToString(b: BookingType): string {
    match b
    case Ones => "ONES"
    case Twos => "TWOS"
    case Threes => "THREES"
    case Fours => "FOURS"
    case Fives => "FIVES"
    case Sixes => "SIXES"
    case ThreeOfAKind => "THREE_OF_A_KIND"
    case FourOfAKind => "FOUR_OF_A_KIND"
    case FullHouse => "FULL_HOUSE"
    case SmallStraight => "SMALL_STRAIGHT"
    case LargeStraight => "LARGE_STRAIGHT"
    case Kniffel => "KNIFFEL"
    case Chance => "CHANCE"
  }

  /** `FromStr for BookingType`: exactly the thirteen tokens parse, anything else is an error. */
  function BookingTypeFromStr(s: string): (r: Result<BookingType>)
    ensures r.Ok? ==> BookingTypeToString(r.value) == s
  {
    match s
    case "ONES" => Ok(Ones)
    case "TWOS" => Ok(Twos)
    case "THREES" => Ok(Threes)
    case "FOURS" => Ok(Fours)
    case "FIVES" => Ok(Fives)
    case "SIXES" => Ok(Sixes)
    case "THREE_OF_A_KIND" => Ok(ThreeOfAKind)
    case "FOUR_OF_A_KIND" => Ok(FourOfAKind)
    case "FULL_HOUSE" => Ok(FullHouse)
    case "SMALL_STRAIGHT" => Ok(SmallStraight)
    case "LARGE_STRAIGHT" => Ok(LargeStraight)
    case "KNIFFEL" => Ok(Kniffel)
    case "CHANCE" => Ok(Chance)
    case _ => Err
  }

  /** A string parses to `b` exactly when it is `b`'s token. */
  lemma BookingTypeParseExact(s: string, b: BookingType)
    ensures BookingTypeFromStr(s) == Ok(b) <==> s == BookingTypeToString(b)
  {
    match b
    case Ones =>
    case Twos =>
    case Threes =>
    case Fours =>
    case Fives =>
    case Sixes =>
    case ThreeOfAKind =>
    case FourOfAKind =>
    case FullHouse =>
    case SmallStraight =>
    case LargeStraight =>
    case Kniffel =>
    case Chance =>
  }

  /** The thirteen tokens are pairwise distinct. */
  lemma BookingTokensDistinct(a: BookingType, b: BookingType)
    requires a != b
    ensures BookingTypeToString(a) != BookingTypeToString(b)
  {
    BookingTypeParseExact(BookingTypeToString(a), a);
    BookingTypeParseExact(BookingTypeToString(a), b);
  }

  /** `Display for GameState`. */
  function GameStateToString(g: GameState): string {
    match g
    case Roll => "Roll"
    case Book => "Book"
    case Ended => "Ended"
  }

  /** `FromStr for GameState`: exactly the three phase names parse. */
  function GameStateFromStr(s: string): (r: Result<GameState>)
    ensures r.Ok? ==> GameStateToString(r.value) == s
  {
    match s
    case "Roll" => Ok(Roll)
    case "Book" => Ok(Book)
    case "Ended" => Ok(Ended)
    case _ => Err
  }

  /** A string parses to phase `g` exactly when it is `g`'s name. */
  lemma GameStateParseExact(s: string, g: GameState)
    ensures GameStateFromStr(s) == Ok(g) <==> s == GameStateToString(g)
  {
    match g
    case Roll =>
    case Book =>
    case Ended =>
  }

  // ---------------------------------------------------------------------------------------
  // Comma-separated lists.

  /** `str::split(sep)`: the pieces between separators; the empty string gives one empty piece. */
  function Split(s: string, sep: char): (r: seq<string>)
    ensures |r| >= 1
    ensures forall k :: 0 <= k < |r| ==> sep !in r[k]
  {
    if s == [] then [""]
    else
      var rest := Split(s[1..], sep);
      if s[0] == sep then [""] + rest
      else [[s[0]] + rest[0]] + rest[1..]
  }

  /** `join(sep)` on a vector of strings; an empty vector gives the empty string. */
  function Join(parts: seq<string>, sep: char): string {
    if |parts| == 0 then ""
    else if |parts| == 1 then parts[0]
    else parts[0] + [sep] + Join(parts[1..], sep)
  }

  /** Joining the pieces of a split gives back the original string. */
  lemma {:induction false} JoinSplit(s: string, sep: char)
    ensures Join(Split(s, sep), sep) == s
  {
    if s != [] {
      JoinSplit(s[1..], sep);
      var rest := Split(s[1..], sep);
      if s[0] == sep {
        assert ([""] + rest)[1..] == rest;
      } else if |rest| > 1 {
        assert ([[s[0]] + rest[0]] + rest[1..])[1..] == rest[1..];
        assert Join(rest, sep) == rest[0] + [sep] + Join(rest[1..], sep);
      }
    }
  }

  lemma {:induction false} SplitNoSeparator(p: string, sep: char)
    requires sep !in p
    ensures Split(p, sep) == [p]
  {
    if p != [] {
      SplitNoSeparator(p[1..], sep);
      assert [p[0]] + p[1..] == p;
    }
  }

  lemma {:induction false} SplitAtSeparator(p: string, sep: char, rest: string)
    requires sep !in p
    ensures Split(p + [sep] + rest, sep) == [p] + Split(rest, sep)
  {
    if p == [] {
      assert p + [sep] + rest == [sep] + rest;
      assert ([sep] + rest)[1..] == rest;
    } else {
      SplitAtSeparator(p[1..], sep, rest);
      assert (p + [sep] + rest)[1..] == p[1..] + [sep] + rest;
      assert [p[0]] + p[1..] == p;
    }
  }

  /** Splitting a join of separator-free pieces gives back the pieces (there is at least one). */
  lemma {:induction false} SplitJoin(parts: seq<string>, sep: char)
    requires |parts| >= 1
    requires forall k :: 0 <= k < |parts| ==> sep !in parts[k]
    ensures Split(Join(parts, sep), sep) == parts
  {
    if |parts| == 1 {
      SplitNoSeparator(parts[0], sep);
    } else {
      SplitJoin(parts[1..], sep);
      SplitAtSeparator(parts[0], sep, Join(parts[1..], sep));
      assert [parts[0]] + parts[1..] == parts;
    }
  }

  // ---------------------------------------------------------------------------------------
  // The used categories of a stored player.

  /** `filter_map(|s| s.parse::<BookingType>().ok())` collected into a set. */
  function CollectBookingTypes(tokens: seq<string>): (r: set<BookingType>)
    ensures forall b :: b in r <==> exists k :: 0 <= k < |tokens| && BookingTypeFromStr(tokens[k]) == Ok(b)
  {
    if tokens == [] then {}
    else
      var rest := CollectBookingTypes(tokens[1..]);
      assert forall b :: (exists k :: 0 <= k < |tokens| - 1 && BookingTypeFromStr(tokens[1..][k]) == Ok(b))
                       <==> (exists k :: 1 <= k < |tokens| && BookingTypeFromStr(tokens[k]) == Ok(b)) by {
        forall b
          ensures (exists k :: 0 <= k < |tokens| - 1 && BookingTypeFromStr(tokens[1..][k]) == Ok(b))
              <==> (exists k :: 1 <= k < |tokens| && BookingTypeFromStr(tokens[k]) == Ok(b))
        {
          if k :| 1 <= k < |tokens| && BookingTypeFromStr(tokens[k]) == Ok(b) {
            assert tokens[1..][k - 1] == tokens[k];
          }
        }
      }
      match BookingTypeFromStr(tokens[0])
      case Ok(b) => {b} + rest
      case Err => rest
  }

  /** `KniffelPlayer::from`: the used categories stored as a comma-joined token list. */
  function ParseUsedBookingTypes(s: string): set<BookingType> {
    CollectBookingTypes(Split(s, ','))
  }

  /** The tokens of a sequence of categories. */
  function BookingTokens(bs: seq<BookingType>): (r: seq<string>)
    ensures |r| == |bs|
  {
    seq(|bs|, i requires 0 <= i < |bs| => BookingTypeToString(bs[i]))
  }

  /** The stored form of a player's used categories, in any enumeration order of the set. */
  function JoinBookingTypes(bs: seq<BookingType>): string {
    Join(BookingTokens(bs), ',')
  }

  lemma NoCommaInToken(b: BookingType)
    ensures ',' !in BookingTypeToString(b)
  {
    match b
    case Ones =>
    case Twos =>
    case Threes =>
    case Fours =>
    case Fives =>
    case Sixes =>
    case ThreeOfAKind =>
    case FourOfAKind =>
    case FullHouse =>
    case SmallStraight =>
    case LargeStraight =>
    case Kniffel =>
    case Chance =>
  }

  /**
   * Reading back a stored used-category list recovers exactly the categories it was written
   * from, whatever order they were written in; the empty list reads back as the empty set.
   */
  lemma UsedBookingTypesRoundTrip(bs: seq<BookingType>)
    ensures ParseUsedBookingTypes(JoinBookingTypes(bs)) == set b | b in bs
  {
    var tokens := BookingTokens(bs);
    if bs == [] {
      assert Split("", ',') == [""];
      assert BookingTypeFromStr("") == Err;
    } else {
      forall k | 0 <= k < |tokens|
        ensures ',' !in tokens[k]
      {
        NoCommaInToken(bs[k]);
      }
      SplitJoin(tokens, ',');
      forall b
        ensures b in ParseUsedBookingTypes(JoinBookingTypes(bs)) <==> b in bs
      {
        if b in bs {
          var k :| 0 <= k < |bs| && bs[k] == b;
          BookingTypeParseExact(tokens[k], b);
        }
        if k :| 0 <= k < |tokens| && BookingTypeFromStr(tokens[k]) == Ok(b) {
          BookingTypeParseExact(tokens[k], b);
          if bs[k] != b {
            BookingTokensDistinct(bs[k], b);
          }
        }
      }
    }
  }

  // ---------------------------------------------------------------------------------------
  // The dice of a stored game: five 32-bit integers, comma-joined.

  const I32Min: int := -0x8000_0000
  const I32Max: int := 0x7FFF_FFFF

  predicate IsDigit(c: char) {
    '0' <= c <= '9'
  }

  predicate AllDigits(s: string) {
    forall i :: 0 <= i < |s| ==> IsDigit(s[i])
  }

  function DigitChar(d: nat): (c: char)
    requires d < 10
    ensures IsDigit(c)
  {
    ('0' as int + d) as char
  }

  /** The value of a decimal digit string, most significant digit first. */
  function DigitsValue(s: string): nat
    requires AllDigits(s)
  {
    if s == [] then 0
    else DigitsValue(s[..|s| - 1]) * 10 + ((s[|s| - 1] as int) - ('0' as int))
  }

  /** `to_string` of a non-negative integer: its decimal digits, without leading zeros. */
  function NatToString(n: nat): (r: string)
    ensures |r| >= 1 && AllDigits(r)
  {
    if n < 10 then [DigitChar(n)]
    else NatToString(n / 10) + [DigitChar(n % 10)]
  }

  lemma {:induction false} DigitsRoundTrip(n: nat)
    ensures DigitsValue(NatToString(n)) == n
  {
    if n >= 10 {
      DigitsRoundTrip(n / 10);
      var s := NatToString(n);
      assert s[..|s| - 1] == NatToString(n / 10);
    }
  }

  /** `to_string` of an integer. */
  function IntToString(n: int): string {
    if n < 0 then "-" + NatToString(-n) else NatToString(n)
  }

  /**
   * `str::parse::<i32>`: an optional sign, then at least one decimal digit, and a value in
   * the 32-bit range; anything else is an error.
   */
  function ParseI32(t: string): (r: Result<int>)
    ensures r.Ok? ==> I32Min <= r.value <= I32Max
  {
    var signed := |t| > 0 && (t[0] == '-' || t[0] == '+');
    var digits := if signed then t[1..] else t;
    if |digits| == 0 || !AllDigits(digits) then Err
    else
      var v: int := if signed && t[0] == '-' then -(DigitsValue(digits) as int) else DigitsValue(digits);
      if I32Min <= v <= I32Max then Ok(v) else Err
  }

  lemma IntRoundTrip(n: int)
    requires I32Min <= n <= I32Max
    ensures ParseI32(IntToString(n)) == Ok(n)
  {
    var m: nat := if n < 0 then -n else n;
    var digits := NatToString(m);
    DigitsRoundTrip(m);
    assert IsDigit(digits[0]);
    if n < 0 {
      var t := "-" + digits;
      assert t == IntToString(n) && t[0] == '-' && t[1..] == digits;
    } else {
      assert digits == IntToString(n) && digits[0] != '-' && digits[0] != '+';
    }
  }

  /** Parses every token as an `i32`; one bad token makes the whole list an error. */
  function ParseInts(tokens: seq<string>): (r: Result<seq<int>>)
    ensures r.Ok? <==> forall k :: 0 <= k < |tokens| ==> ParseI32(tokens[k]).Ok?
    ensures r.Ok? ==> |r.value| == |tokens|
                      && forall k :: 0 <= k < |tokens| ==> ParseI32(tokens[k]) == Ok(r.value[k])
  {
    if tokens == [] then Ok([])
    else
      var rest := ParseInts(tokens[1..]);
      assert forall k :: 1 <= k < |tokens| ==> tokens[k] == tokens[1..][k - 1];
      match ParseI32(tokens[0])
      case Err => Err
      case Ok(v) => if rest.Err? then Err else Ok([v] + rest.value)
  }

  /**
   * The dice string of `KniffelGame::from_db`: every token must parse and there must be
   * exactly five of them (the source panics otherwise; here it is an error).
   */
  function ParseDiceRolls(s: string): (r: Result<seq<int>>)
    ensures r.Ok? ==> |r.value| == 5 && forall i :: 0 <= i < 5 ==> I32Min <= r.value[i] <= I32Max
  {
    var tokens := Split(s, ',');
    match ParseInts(tokens)
    case Err => Err
    case Ok(values) => if |values| == 5 then Ok(values) else Err
  }

  /** The stored form of the dice: the decimal values, comma-joined. */
  function JoinDice(dice: seq<int>): string {
    Join(seq(|dice|, i requires 0 <= i < |dice| => IntToString(dice[i])), ',')
  }

  /** Reading back stored dice recovers them exactly. */
  lemma DiceRoundTrip(dice: seq<int>)
    requires |dice| == 5
    requires forall i :: 0 <= i < 5 ==> I32Min <= dice[i] <= I32Max
    ensures ParseDiceRolls(JoinDice(dice)) == Ok(dice)
  {
    var tokens := seq(|dice|, i requires 0 <= i < |dice| => IntToString(dice[i]));
    forall k | 0 <= k < 5
      ensures ',' !in tokens[k] && ParseI32(tokens[k]) == Ok(dice[k])
    {
      IntRoundTrip(dice[k]);
      assert AllDigits(NatToString(if dice[k] < 0 then -dice[k] else dice[k]));
    }
    SplitJoin(tokens, ',');
    var parsed := ParseInts(tokens);
    assert parsed.Ok?;
    assert parsed.value == dice;
  }
}
