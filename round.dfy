/**
 * One round of a hand: each of the two players may first ask to raise the stake,
 * then plays one card; the stronger card under the vira wins the round, equal
 * strength is a draw, and a player who runs from a raise ends the whole hand.
 */
module Rounds {
  import opened Wrappers
  import opened Cards
  import opened Hands

  /** The rule-integrity failure raised when a card appears twice. */
  datatype RuleViolation = CardsMustBeUnique

  /** The steps of live play, in the order they happen. */
  datatype Event =
    | Negotiated(requester: Player, responder: Player, stake: int, cardToBeat: Option<ValidCard>)
    | Played(player: Player, card: ValidCard)
    | Notified(player: Player)

  // ---------------------------------------------------------------------------
  // Raise eligibility

  /** A player may ask to raise unless they are the last player who raised. */
  function MayRaise(lastRaiser: Option<Player>, requester: Player): (r: bool)
    ensures r <==> (lastRaiser.None? || lastRaiser.value != requester)
  {
    lastRaiser != Some(requester)
  }

  /** The last raiser after a negotiation: the one it names, or the previous one when it names none. */
  function RaiserAfter(truco: TrucoResult, lastRaiser: Option<Player>): Option<Player>
  {
    if truco.lastRequester.Some? then truco.lastRequester else lastRaiser
  }

  /** Of two different players at least one may always ask to raise. */
  lemma SomeoneMayRaise(lastRaiser: Option<Player>, a: Player, b: Player)
    requires a != b
    ensures MayRaise(lastRaiser, a) || MayRaise(lastRaiser, b)
  {
  }

  /**
   * After a negotiation whose last accepted raise came from `p`, `p` may not raise
   * again, while every other player may; a negotiation naming no raiser leaves
   * everyone's eligibility as it was.
   */
  lemma EligibilityAfterNegotiation(truco: TrucoResult, lastRaiser: Option<Player>, p: Player)
    ensures truco.lastRequester == Some(p) ==> !MayRaise(RaiserAfter(truco, lastRaiser), p)
    ensures truco.lastRequester.Some? && truco.lastRequester != Some(p) ==> MayRaise(RaiserAfter(truco, lastRaiser), p)
    ensures truco.lastRequester.None? ==> MayRaise(RaiserAfter(truco, lastRaiser), p) == MayRaise(lastRaiser, p)
  {
  }

  // ---------------------------------------------------------------------------
  // Card validation

  /**
   * The uniqueness check on the two played cards and the vira: an open first card
   * may equal neither the last card nor the vira, and an open last card may not
   * equal the vira. Closed cards may repeat.
   */
  function ValidateCards(first: ValidCard, last: ValidCard, vira: ValidCard): (r: Outcome<RuleViolation>)
    ensures r.Fail? ==> r.error == CardsMustBeUnique
    ensures r.Fail? <==>
      || (first != Closed() && first == last)
      || (first != Closed() && first == vira)
      || (last != Closed() && last == vira)
  {
    if first != Closed() && first == last then Fail(CardsMustBeUnique)
    else if first != Closed() && first == vira then Fail(CardsMustBeUnique)
    else if last != Closed() && last == vira then Fail(CardsMustBeUnique)
    else Pass
  }

  /** No open card occurs twice in `cards`; the closed card may. */
  ghost predicate NoRepeatedOpenCard(cards: seq<ValidCard>)
  {
    forall i, j :: 0 <= i < j < |cards| && cards[i] == cards[j] ==> cards[i] == Closed()
  }

  /** The check passes exactly when no open card repeats among the two played cards and the vira. */
  lemma ValidateCardsMeansUnique(first: ValidCard, last: ValidCard, vira: ValidCard)
    ensures ValidateCards(first, last, vira).Pass? <==> NoRepeatedOpenCard([first, last, vira])
  {
    var cards := [first, last, vira];
    if ValidateCards(first, last, vira).Pass? {
      forall i, j | 0 <= i < j < 3 && cards[i] == cards[j]
        ensures cards[i] == Closed()
      {
      }
    } else {
      if first != Closed() && first == last {
        assert cards[0] == cards[1];
      } else if first != Closed() && first == vira {
        assert cards[0] == cards[2];
      } else {
        assert cards[1] == cards[2];
      }
    }
  }

  /** Two closed cards pass under any vira, and an open card played twice never passes. */
  lemma ValidateCardsClosedAndRepeated(vira: ValidCard, c: ValidCard)
    ensures ValidateCards(Closed(), Closed(), vira).Pass?
    ensures c != Closed() ==> ValidateCards(c, c, vira).Fail?
    ensures c != Closed() ==> ValidateCards(c, Closed(), c).Fail? && ValidateCards(Closed(), c, c).Fail?
  {
  }

  /** Two equal cards that pass the check are both closed. */
  lemma ValidatedEqualCardsAreClosed(first: ValidCard, last: ValidCard, vira: ValidCard)
    requires ValidateCards(first, last, vira).Pass?
    ensures first == last ==> first == Closed()
  {
  }

  // ---------------------------------------------------------------------------
  // Round winner

  /** The round's winner by the sign of the comparison: the first player, the last player, or a draw. */
  function Decide(compare: Comparator, first: Player, firstCard: Card, last: Player, lastCard: Card, vira: Card): Option<Player>
  {
    var c := compare(firstCard, lastCard, vira);
    if c == 0 then None else if c > 0 then Some(first) else Some(last)
  }

  /** With a sign-antisymmetric comparison the winner does not depend on who played first. */
  lemma DecideIndependentOfOrder(compare: Comparator, a: Player, x: Card, b: Player, y: Card, vira: Card)
    requires SignAntisymmetric(compare)
    ensures Decide(compare, a, x, b, y, vira) == Decide(compare, b, y, a, x, vira)
  {
  }

  /** Under the comparison test's fact, a closed card played first loses to four of diamonds under the vira four of clubs. */
  lemma ClosedCardLosesRound(compare: Comparator, first: Player, last: Player)
    requires ClosedWorthLessThanWorstCard(compare)
    ensures Decide(compare, first, Closed(), last, Card(FOUR, DIAMONDS), Card(FOUR, CLUBS)) == Some(last)
  {
  }

  // Helpers for the specification of Round.Play: the effect of one player's turn to raise.

  /** Whether the negotiation before `requester`'s card ends the hand by a run. */
  function RunsAway(lastRaiser: Option<Player>, requester: Player, truco: TrucoResult): bool
  {
    MayRaise(lastRaiser, requester) && truco.HasWinner()
  }

  function RaiserAfterTurn(lastRaiser: Option<Player>, requester: Player, truco: TrucoResult): Option<Player>
  {
    if MayRaise(lastRaiser, requester) then RaiserAfter(truco, lastRaiser) else lastRaiser
  }

  function ScoreAfterTurn(score: int, lastRaiser: Option<Player>, requester: Player, truco: TrucoResult): int
  {
    if MayRaise(lastRaiser, requester) then truco.score else score
  }

  function TurnLog(lastRaiser: Option<Player>, requester: Player, responder: Player, score: int, cardToBeat: Option<ValidCard>): seq<Event>
  {
    if MayRaise(lastRaiser, requester) then [Negotiated(requester, responder, score, cardToBeat)] else []
  }

  class Round {
    const firstToPlay: Player
    const lastToPlay: Player
    const vira: ValidCard
    /** The hand this round belongs to; absent for a round rebuilt from a record of its cards. */
    const hand: Hand?
    /** The card comparison, `compare(a, b, vira)` standing for `a.compareValueTo(b, vira)`. */
    const compare: CompareValueTo
    var winner: Option<Player>
    var firstCard: Option<ValidCard>
    var lastCard: Option<ValidCard>
    /** The steps of live play so far, for stating their order. */
    ghost var log: seq<Event>

    /** A live round of `hand`: it takes the hand's vira and clears the hand's card to beat. */
    constructor (firstToPlay: Player, lastToPlay: Player, hand: Hand, compare: CompareValueTo)
      modifies hand
      ensures this.firstToPlay == firstToPlay && this.lastToPlay == lastToPlay
      ensures this.hand == hand && vira == hand.vira && this.compare == compare
      ensures winner.None? && firstCard.None? && lastCard.None? && log == []
      ensures hand.cardToPlayAgainst.None?
      ensures hand.score == old(hand.score) && hand.lastBetRaiser == old(hand.lastBetRaiser)
      ensures hand.openCards == old(hand.openCards) && hand.result == old(hand.result)
    {
      this.firstToPlay := firstToPlay;
      this.lastToPlay := lastToPlay;
      this.hand := hand;
      this.vira := hand.vira;
      this.compare := compare;
      winner := None;
      firstCard := None;
      lastCard := None;
      log := [];
      new;
      hand.cardToPlayAgainst := None;
    }

    /** The field assignments of a round rebuilt from its two cards; `Record` adds the check. */
    constructor FromCards(firstToPlay: Player, firstCard: ValidCard, lastToPlay: Player, lastCard: ValidCard, vira: ValidCard, compare: CompareValueTo)
      ensures this.firstToPlay == firstToPlay && this.lastToPlay == lastToPlay
      ensures this.firstCard == Some(firstCard) && this.lastCard == Some(lastCard)
      ensures this.vira == vira && this.compare == compare && hand == null
      ensures winner.None? && log == []
    {
      this.firstToPlay := firstToPlay;
      this.lastToPlay := lastToPlay;
      this.firstCard := Some(firstCard);
      this.lastCard := Some(lastCard);
      this.vira := vira;
      this.compare := compare;
      hand := null;
      winner := None;
      log := [];
    }

    /** A round rebuilt from its two cards, refused when the cards break uniqueness. */
    static method Record(firstToPlay: Player, firstCard: ValidCard, lastToPlay: Player, lastCard: ValidCard, vira: ValidCard, compare: CompareValueTo)
      returns (r: Result<Round, RuleViolation>)
      ensures r.Success? <==> ValidateCards(firstCard, lastCard, vira).Pass?
      ensures r.Failure? ==> r.error == CardsMustBeUnique
      ensures r.Success? ==> fresh(r.value)
      ensures r.Success? ==> r.value.firstToPlay == firstToPlay && r.value.lastToPlay == lastToPlay
      ensures r.Success? ==> r.value.firstCard == Some(firstCard) && r.value.lastCard == Some(lastCard)
      ensures r.Success? ==> r.value.vira == vira && r.value.compare == compare && r.value.hand == null
      ensures r.Success? ==> r.value.winner.None?
    {
      var round := new Round.FromCards(firstToPlay, firstCard, lastToPlay, lastCard, vira, compare);
      var check := ValidateCards(firstCard, lastCard, vira);
      if check.Fail? {
        return Failure(check.error);
      }
      return Success(round);
    }

    /** The stronger of the two played cards, or none when they are of equal strength. */
    function WinnerCard(): (r: Option<ValidCard>)
      reads this
      requires firstCard.Some? && lastCard.Some?
      ensures r.None? <==> compare(firstCard.value, lastCard.value, vira) == 0
      ensures compare(firstCard.value, lastCard.value, vira) > 0 ==> r == firstCard
      ensures compare(firstCard.value, lastCard.value, vira) < 0 ==> r == lastCard
    {
      if compare(firstCard.value, lastCard.value, vira) == 0 then None
      else if compare(firstCard.value, lastCard.value, vira) > 0 then firstCard
      else lastCard
    }

    /** The same choice as `WinnerCard`, offered under a second name. */
    function GetHighestCard(): (r: Option<ValidCard>)
      reads this
      requires firstCard.Some? && lastCard.Some?
      ensures r == WinnerCard()
    {
      if compare(firstCard.value, lastCard.value, vira) == 0 then None
      else if compare(firstCard.value, lastCard.value, vira) > 0 then firstCard
      else lastCard
    }

    /**
     * Decides the winner of a round whose cards are known. The winning card is
     * mapped to a player by card equality, so when both cards are equal (two closed
     * cards) and yet the comparison is not a tie, the first player is named.
     */
    method Play2()
      requires firstCard.Some? && lastCard.Some?
      modifies this`winner
      ensures firstCard.value != lastCard.value || compare(firstCard.value, lastCard.value, vira) == 0 ==>
        winner == Decide(compare, firstToPlay, firstCard.value, lastToPlay, lastCard.value, vira)
      ensures firstCard.value == lastCard.value && compare(firstCard.value, lastCard.value, vira) != 0 ==>
        winner == Some(firstToPlay)
    {
      var possibleWinnerCard := WinnerCard();
      winner := if possibleWinnerCard.Some? then
        Some(if possibleWinnerCard.value == firstCard.value then firstToPlay else lastToPlay)
      else None;
    }

    /** Whether `requester` may ask to raise the stake before playing. */
    function IsAbleToRequestScoreIncrement(requester: Player): (r: bool)
      reads this, hand
      requires hand != null
      ensures r <==> MayRaise(hand.lastBetRaiser, requester)
    {
      hand.lastBetRaiser.None? || hand.lastBetRaiser.value != requester
    }

    /**
     * Applies the outcome of a raise negotiation started by `requester`: the stake
     * becomes the negotiated one, the last raiser is updated when the negotiation
     * names one, and a run ends the hand with the negotiation's winner.
     */
    method HandleTruco(requester: Player, responder: Player, truco: TrucoResult) returns (handResult: Option<HandResult>)
      requires hand != null
      modifies this`winner, this`log, hand`score, hand`lastBetRaiser, hand`result
      ensures hand.score == truco.score
      ensures hand.lastBetRaiser == RaiserAfter(truco, old(hand.lastBetRaiser))
      ensures handResult.Some? <==> truco.HasWinner()
      ensures truco.HasWinner() ==> winner == truco.winner && handResult == Some(FromTruco(truco)) && hand.result == handResult
      ensures !truco.HasWinner() ==> winner == old(winner) && hand.result == old(hand.result)
      ensures log == old(log) + [Negotiated(requester, responder, old(hand.score), hand.cardToPlayAgainst)]
    {
      log := log + [Negotiated(requester, responder, hand.score, hand.cardToPlayAgainst)];
      handResult := None;
      if truco.HasWinner() {
        winner := truco.winner;
        handResult := Some(FromTruco(truco));
        hand.result := handResult;
      }
      if truco.lastRequester.Some? {
        hand.lastBetRaiser := truco.lastRequester;
      }
      hand.score := truco.score;
    }

    /**
     * The step before each card: when `requester` may ask to raise, the negotiation
     * against `responder` runs and its outcome is applied; `ran` tells whether it
     * ended the hand, in which case the round stops.
     */
    method OfferRaise(requester: Player, responder: Player, truco: TrucoResult) returns (ran: bool)
      requires hand != null
      modifies this`winner, this`log, hand`score, hand`lastBetRaiser, hand`result
      ensures ran == RunsAway(old(hand.lastBetRaiser), requester, truco)
      ensures hand.score == ScoreAfterTurn(old(hand.score), old(hand.lastBetRaiser), requester, truco)
      ensures hand.lastBetRaiser == RaiserAfterTurn(old(hand.lastBetRaiser), requester, truco)
      ensures ran ==> winner == truco.winner && hand.result == Some(FromTruco(truco))
      ensures !ran ==> winner == old(winner) && hand.result == old(hand.result)
      ensures log == old(log) + TurnLog(old(hand.lastBetRaiser), requester, responder, old(hand.score), hand.cardToPlayAgainst)
    {
      ran := false;
      if IsAbleToRequestScoreIncrement(requester) {
        var handResult := HandleTruco(requester, responder, truco);
        ran := handResult.Some?;
      }
    }

    /**
     * Plays one live round. `firstChoice` and `lastChoice` are the cards the two
     * players choose; `firstRaise` and `lastRaise` are what the negotiations before
     * each card return, used only when that player may ask to raise.
     */
    method Play(firstChoice: ValidCard, lastChoice: ValidCard, firstRaise: TrucoResult, lastRaise: TrucoResult)
      returns (outcome: Outcome<RuleViolation>)
      requires hand != null
      modifies this, hand
      // The first player runs the hand out before any card is played.
      ensures RunsAway(old(hand.lastBetRaiser), firstToPlay, firstRaise) ==>
        && outcome.Pass?
        && winner == firstRaise.winner
        && hand.result == Some(FromTruco(firstRaise))
        && hand.score == firstRaise.score
        && hand.lastBetRaiser == RaiserAfter(firstRaise, old(hand.lastBetRaiser))
        && hand.openCards == old(hand.openCards)
        && hand.cardToPlayAgainst == old(hand.cardToPlayAgainst)
        && firstCard == old(firstCard) && lastCard == old(lastCard)
        && log == old(log) + [Negotiated(firstToPlay, lastToPlay, old(hand.score), old(hand.cardToPlayAgainst))]
      // The first card is down; the last player runs the hand out before playing.
      ensures
        var r1 := RaiserAfterTurn(old(hand.lastBetRaiser), firstToPlay, firstRaise);
        var s1 := ScoreAfterTurn(old(hand.score), old(hand.lastBetRaiser), firstToPlay, firstRaise);
        !RunsAway(old(hand.lastBetRaiser), firstToPlay, firstRaise) && RunsAway(r1, lastToPlay, lastRaise) ==>
        && outcome.Pass?
        && winner == lastRaise.winner
        && hand.result == Some(FromTruco(lastRaise))
        && hand.score == lastRaise.score
        && hand.lastBetRaiser == RaiserAfter(lastRaise, r1)
        && hand.openCards == old(hand.openCards) + [firstChoice]
        && hand.cardToPlayAgainst == Some(firstChoice)
        && firstCard == Some(firstChoice) && lastCard == old(lastCard)
        && log == old(log)
           + TurnLog(old(hand.lastBetRaiser), firstToPlay, lastToPlay, old(hand.score), old(hand.cardToPlayAgainst))
           + [Played(firstToPlay, firstChoice), Notified(lastToPlay),
              Negotiated(lastToPlay, firstToPlay, s1, Some(firstChoice))]
      // Both cards are played, checked and compared.
      ensures
        var r1 := RaiserAfterTurn(old(hand.lastBetRaiser), firstToPlay, firstRaise);
        var s1 := ScoreAfterTurn(old(hand.score), old(hand.lastBetRaiser), firstToPlay, firstRaise);
        !RunsAway(old(hand.lastBetRaiser), firstToPlay, firstRaise) && !RunsAway(r1, lastToPlay, lastRaise) ==>
        && outcome == ValidateCards(firstChoice, lastChoice, vira)
        && winner == (if outcome.Fail? then None
                      else if firstChoice == lastChoice && compare(firstChoice, lastChoice, vira) != 0 then Some(firstToPlay)
                      else Decide(compare, firstToPlay, firstChoice, lastToPlay, lastChoice, vira))
        && hand.result == old(hand.result)
        && hand.score == ScoreAfterTurn(s1, r1, lastToPlay, lastRaise)
        && hand.lastBetRaiser == RaiserAfterTurn(r1, lastToPlay, lastRaise)
        && hand.openCards == old(hand.openCards) + [firstChoice, lastChoice]
        && hand.cardToPlayAgainst.None?
        && firstCard == Some(firstChoice) && lastCard == Some(lastChoice)
        && log == old(log)
           + TurnLog(old(hand.lastBetRaiser), firstToPlay, lastToPlay, old(hand.score), old(hand.cardToPlayAgainst))
           + [Played(firstToPlay, firstChoice), Notified(lastToPlay)]
           + TurnLog(r1, lastToPlay, firstToPlay, s1, Some(firstChoice))
           + [Played(lastToPlay, lastChoice), Notified(firstToPlay)]
    {
      winner := None;
      outcome := Pass;

      var ran := OfferRaise(firstToPlay, lastToPlay, firstRaise);
      if ran {
        return;
      }

      firstCard := Some(firstChoice);
      hand.cardToPlayAgainst := Some(firstChoice);
      hand.openCards := hand.openCards + [firstChoice];
      log := log + [Played(firstToPlay, firstChoice), Notified(lastToPlay)];

      ran := OfferRaise(lastToPlay, firstToPlay, lastRaise);
      if ran {
        return;
      }

      lastCard := Some(lastChoice);
      hand.cardToPlayAgainst := None;
      hand.openCards := hand.openCards + [lastChoice];
      log := log + [Played(lastToPlay, lastChoice), Notified(firstToPlay)];

      outcome := ValidateCards(firstChoice, lastChoice, vira);
      if outcome.Fail? {
        return;
      }
      var highestCard := GetHighestCard();
      if highestCard.Some? {
        winner := Some(if highestCard.value == firstChoice then firstToPlay else lastToPlay);
      }
    }

    /** The round's winner; absent for a draw or while undecided. */
    function GetWinner(): (r: Option<Player>)
      reads this
      ensures r.Some? <==> winner.Some?
      ensures r.Some? ==> r.value == winner.value
    {
      winner
    }

    /** Overrides the round's winner; `None` records a draw. */
    method SetWinner(winner: Option<Player>)
      modifies this`winner
      ensures this.winner == winner
    {
      this.winner := winner;
    }
  }

  /**
   * In a validated round the card-equality mapping of `Play` and `Play2` agrees
   * with the sign rule whenever two closed cards tie: the first player wins on a
   * positive comparison, the last on a negative one, and zero is a draw.
   */
  lemma PlayedWinnerFollowsSign(compare: Comparator, first: Player, firstCard: ValidCard, last: Player, lastCard: ValidCard, vira: ValidCard)
    requires compare(Closed(), Closed(), vira) == 0
    requires ValidateCards(firstCard, lastCard, vira).Pass?
    ensures
      var c := compare(firstCard, lastCard, vira);
      var byCard := if c == 0 then None else Some(if (if c > 0 then firstCard else lastCard) == firstCard then first else last);
      byCard == Decide(compare, first, firstCard, last, lastCard, vira)
  {
    ValidatedEqualCardsAreClosed(firstCard, lastCard, vira);
  }
}
