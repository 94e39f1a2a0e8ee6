/**
 * The parts of a hand that a round reads and writes: the vira, the stake, the
 * last player who raised it, the card to beat, the cards shown so far and the
 * hand's result once it is decided.
 */
module Hands {
  import opened Wrappers
  import opened Cards

  /** A player is an identity compared by equality; its decisions enter the model as inputs. */
  datatype Player = Player(id: nat)

  /**
   * What a points-raise negotiation reports: the player who won the hand because
   * the other ran (absent when nobody ran), the player who made the last accepted
   * raise (absent when nobody raised) and the stake after the negotiation.
   */
  datatype TrucoResult = TrucoResult(winner: Option<Player>, lastRequester: Option<Player>, score: int)
  {
    predicate HasWinner() { winner.Some? }
  }

  /** The result of a hand that ended by a run, built from the negotiation that ended it. */
  datatype HandResult = FromTruco(truco: TrucoResult)

  class Hand {
    const vira: ValidCard
    var score: int
    var lastBetRaiser: Option<Player>
    var cardToPlayAgainst: Option<ValidCard>
    var openCards: seq<ValidCard>
    var result: Option<HandResult>

    /** A fresh hand with the given vira and stake: nobody has raised, no card is shown. */
    constructor (vira: ValidCard, score: int)
      ensures this.vira == vira && this.score == score
      ensures lastBetRaiser.None? && cardToPlayAgainst.None? && openCards == [] && result.None?
    {
      this.vira := vira;
      this.score := score;
      lastBetRaiser := None;
      cardToPlayAgainst := None;
      openCards := [];
      result := None;
    }
  }
}
