/**
 * Cards of the Truco deck: ten ranks in increasing base strength, four suits,
 * and the closed (face-down) card whose rank and suit are both HIDDEN.
 */
module Cards {
  import opened Wrappers

  /** Ranks in increasing base strength; HIDDEN is the rank of a closed card. */
  datatype Rank = FOUR | FIVE | SIX | SEVEN | QUEEN | JACK | KING | ACE | TWO | THREE | HIDDEN

  /** Suits; HIDDEN is the suit of a closed card. */
  datatype Suit = CLUBS | HEARTS | SPADES | DIAMONDS | HIDDEN

  /** Place of a revealed rank in the base-strength order, 0 for FOUR up to 9 for THREE. */
  function Position(r: Rank): (i: nat)
    requires r != Rank.HIDDEN
    ensures i < 10
  {
    match r
    case FOUR => 0
    case FIVE => 1
    case SIX => 2
    case SEVEN => 3
    case QUEEN => 4
    case JACK => 5
    case KING => 6
    case ACE => 7
    case TWO => 8
    case THREE => 9
  }

  /** Two revealed ranks in the same place are the same rank. */
  lemma PositionInjective(a: Rank, b: Rank)
    requires a != Rank.HIDDEN && b != Rank.HIDDEN
    ensures Position(a) == Position(b) ==> a == b
  {
  }

  /**
   * The successor rank: the rank that becomes manilha when `r` is the rank of the
   * vira. It follows the base-strength order and wraps from THREE back to FOUR;
   * HIDDEN is its own successor.
   */
  function Next(r: Rank): (n: Rank)
    ensures (n == Rank.HIDDEN) <==> (r == Rank.HIDDEN)
    ensures r != Rank.HIDDEN ==> Position(n) == (Position(r) + 1) % 10
  {
    match r
    case FOUR => FIVE
    case FIVE => SIX
    case SIX => SEVEN
    case SEVEN => QUEEN
    case QUEEN => JACK
    case JACK => KING
    case KING => ACE
    case ACE => TWO
    case TWO => THREE
    case THREE => FOUR
    case HIDDEN => Rank.HIDDEN
  }

  /** `Next` applied `k` times. */
  function NextIter(r: Rank, k: nat): Rank
  {
    if k == 0 then r else Next(NextIter(r, k - 1))
  }

  /** After `k` successor steps a revealed rank has moved `k` places around the cycle. */
  lemma {:induction false} NextIterPosition(r: Rank, k: nat)
    requires r != Rank.HIDDEN
    ensures NextIter(r, k) != Rank.HIDDEN
    ensures Position(NextIter(r, k)) == (Position(r) + k) % 10
  {
    if k > 0 {
      NextIterPosition(r, k - 1);
    }
  }

  /** The successor relation is a single cycle through all ten revealed ranks. */
  lemma NextCycle(r: Rank)
    requires r != Rank.HIDDEN
    ensures NextIter(r, 10) == r
    ensures forall k :: 0 < k < 10 ==> NextIter(r, k) != r
  {
    NextIterPosition(r, 10);
    PositionInjective(NextIter(r, 10), r);
    forall k | 0 < k < 10
      ensures NextIter(r, k) != r
    {
      NextIterPosition(r, k);
    }
  }

  /** HIDDEN absorbs the successor: it stays HIDDEN however often `Next` is applied. */
  lemma {:induction false} NextIterHidden(k: nat)
    ensures NextIter(Rank.HIDDEN, k) == Rank.HIDDEN
  {
    if k > 0 {
      NextIterHidden(k - 1);
    }
  }

  /** Successors named by the rank tests. */
  lemma NextExamples()
    ensures Next(Rank.HIDDEN) == Rank.HIDDEN
    ensures Next(THREE) == FOUR
    ensures Next(KING) == ACE
  {
  }

  datatype CardError = IllegalArgument

  /** An immutable (rank, suit) value; equal pairs are the same card. */
  datatype Card = Card(rank: Rank, suit: Suit) {

    /** Both-or-neither: either both parts are HIDDEN (a closed card) or neither is. */
    predicate Valid()
      ensures Valid() <==> this == Card(Rank.HIDDEN, Suit.HIDDEN) || (rank != Rank.HIDDEN && suit != Suit.HIDDEN)
    {
      (rank == Rank.HIDDEN) == (suit == Suit.HIDDEN)
    }

    /** The printed form: rank symbol and suit symbol between square brackets. */
    function ToString(): (s: string)
      ensures |s| == 4 && s[0] == '[' && s[3] == ']'
      ensures s[1] == RankSymbol(rank) && s[2] == SuitSymbol(suit)
    {
      ['[', RankSymbol(rank), SuitSymbol(suit), ']']
    }
  }

  /** The cards that can exist: `Of` and `Closed` build only these. */
  type ValidCard = c: Card | c.Valid() witness Card(FOUR, CLUBS)

  /** The closed card: rank and suit both HIDDEN. */
  function Closed(): (c: ValidCard)
    ensures c.rank == Rank.HIDDEN && c.suit == Suit.HIDDEN
  {
    Card(Rank.HIDDEN, Suit.HIDDEN)
  }

  /** Builds a card, rejecting a pair in which exactly one of rank and suit is HIDDEN. */
  function Of(rank: Rank, suit: Suit): (r: Result<ValidCard, CardError>)
    ensures r.Success? <==> ((rank == Rank.HIDDEN) <==> (suit == Suit.HIDDEN))
    ensures r.Success? ==> r.value.rank == rank && r.value.suit == suit && r.value.Valid()
  {
    if (rank == Rank.HIDDEN) != (suit == Suit.HIDDEN) then Failure(IllegalArgument)
    else Success(Card(rank, suit))
  }

  /** The closed card is fully hidden, keeps the both-or-neither invariant, and is what `Of` builds from two HIDDEN parts. */
  lemma ClosedIsValid()
    ensures Closed().Valid()
    ensures Closed().rank == Rank.HIDDEN && Closed().suit == Suit.HIDDEN
    ensures Of(Rank.HIDDEN, Suit.HIDDEN) == Success(Closed())
  {
  }

  /** Value equality: `Of` gives equal cards exactly for equal (rank, suit) pairs. */
  lemma OfValueEquality(r1: Rank, s1: Suit, r2: Rank, s2: Suit)
    requires Of(r1, s1).Success?
    ensures Of(r1, s1) == Of(r2, s2) <==> (r1 == r2 && s1 == s2)
  {
  }

  /** The valid cards are exactly those that `Of` builds. */
  lemma OfBuildsEveryValidCard(c: Card)
    ensures c.Valid() <==> Of(c.rank, c.suit) == Success(c)
  {
  }

  /** The card construction tests: a valid pair is kept, a half-hidden pair is refused. */
  lemma OfExamples()
    ensures Of(SEVEN, SPADES) == Success(Card(SEVEN, SPADES))
    ensures Of(SEVEN, CLUBS) == Success(Card(SEVEN, CLUBS))
    ensures Of(TWO, DIAMONDS) == Success(Card(TWO, DIAMONDS))
    ensures Of(Rank.HIDDEN, CLUBS).Failure?
    ensures Of(SEVEN, Suit.HIDDEN).Failure?
  {
  }

  function RankSymbol(r: Rank): char
  {
    match r
    case FOUR => '4'
    case FIVE => '5'
    case SIX => '6'
    case SEVEN => '7'
    case QUEEN => 'Q'
    case JACK => 'J'
    case KING => 'K'
    case ACE => 'A'
    case TWO => '2'
    case THREE => '3'
    case HIDDEN => 'X'
  }

  function SuitSymbol(s: Suit): char
  {
    match s
    case CLUBS => '\U{2663}'
    case HEARTS => '\U{2665}'
    case SPADES => '\U{2660}'
    case DIAMONDS => '\U{2666}'
    case HIDDEN => 'x'
  }

  /** Distinct cards print differently, so the printed form identifies the card. */
  lemma ToStringInjective(a: Card, b: Card)
    ensures a.ToString() == b.ToString() <==> a == b
  {
  }

  /** The printing tests for open cards and for the closed card. */
  lemma ToStringExamples()
    ensures Card(SEVEN, DIAMONDS).ToString() == "[7\U{2666}]"
    ensures Card(ACE, HEARTS).ToString() == "[A\U{2665}]"
    ensures Card(QUEEN, CLUBS).ToString() == "[Q\U{2663}]"
    ensures Card(JACK, SPADES).ToString() == "[J\U{2660}]"
    ensures Card(KING, SPADES).ToString() == "[K\U{2660}]"
    ensures Closed().ToString() == "[Xx]"
  {
  }

  /**
   * The card comparison `compareValueTo(other, vira)`: a signed result, positive when
   * the first card is stronger under the given vira. Its definition is not part of
   * this model; only its sign is used.
   */
  type Comparator = (Card, Card, Card) -> int

  /** The comparison test: a closed card is worth less than four of diamonds under the vira four of clubs. */
  predicate ClosedWorthLessThanWorstCard(compare: Comparator)
  {
    compare(Closed(), Card(FOUR, DIAMONDS), Card(FOUR, CLUBS)) == -1
  }

  /** A comparison that agrees with the comparison test, as `Card.compareValueTo` does. */
  type CompareValueTo = compare: Comparator | ClosedWorthLessThanWorstCard(compare)
    witness (a: Card, b: Card, vira: Card) => -1

  /** Swapping the two cards flips the sign of the comparison. */
  ghost predicate SignAntisymmetric(compare: Comparator)
  {
    forall a, b, vira :: (compare(a, b, vira) > 0 <==> compare(b, a, vira) < 0)
  }
}
