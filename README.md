# CTruco round engine and card value, in Dafny

This project models two parts of CTruco, a Truco card game engine:

- **`Round`**: one exchange of cards between two players in a hand. Before each card, the player about to play may ask to raise the stake, unless they made the last raise. A negotiation in which a player runs ends the whole hand at once, and its winner becomes the round's winner. Otherwise both cards are played in a fixed order. The card to beat is set and then cleared, and the open cards of the hand grow. The cards are checked: neither open card may repeat the other or the vira. Then the sign of the card comparison decides the winner, or a draw.
- **`Card`**, as its tests describe it: an immutable (rank, suit) value with a closed sentinel whose rank and suit are both HIDDEN. It has a both-or-neither validity rule, value equality, the successor `Rank.next` (HIDDEN is absorbing), the printed form `[Rs]`, and the fact that a closed card compares below four of diamonds when the vira is four of clubs.

Layout:

- `wrappers.dfy`: `Option`, `Outcome` and `Result`. They replace Java's null and exceptions.
- `cards.dfy` (module `Cards`): `Rank`, `Suit`, `Card`, `Of`, `Closed`, `Next`, printing, and predicates on the card comparison.
- `hand.dfy` (module `Hands`): `Player`, `TrucoResult`, `HandResult`, and the `Hand` class with the fields a round reads and writes.
- `round.dfy` (module `Rounds`): the `Round` class, plus the value-level definitions and lemmas its contracts use.

Collaborators enter as inputs:

- A player's chosen card is a parameter of `Play`.
- What a raise negotiation (`Truco.handle`) returns is a `TrucoResult` parameter of `Play` and `HandleTruco`.
- The card comparison `compareValueTo` is a function value, `compare: (Card, Card, Card) -> int`. Each round holds one. Only its sign is used.
- The opponent notifications (`handleOpponentPlay`) do nothing. Only their place in the ghost `log` of a round is recorded.

Points where the code behaves in a way that is easy to miss:

- `play` adds the last card to the open cards and clears the card to beat before `validateCards` throws (Round.java:93-98). A failed check therefore leaves the hand updated, and `Play` returns `Fail` in that state.
- The card-record constructor only validates its cards (Round.java:52-59). The winner is decided later, when `play2` is called.
- `play` and `play2` map the winning card to a player by card equality (Round.java:64, 101), not by the sign itself. If the two cards are equal and the comparison is not zero, the first player is named. The check only lets equal cards through when both are closed.

Every card in a round, in the hand and in the log has the type `ValidCard`: a card that keeps the both-or-neither rule, as every card built by `Of` or `Closed` does. Every round's comparison has the type `CompareValueTo`: a comparison that satisfies the closed-card test.

## Model

| member | source | states |
|---|---|---|
| `Cards.Of` | domain/src/test/java/com/bueno/domain/entities/deck/CardTest.java:38-101 | `Of(r, s)` succeeds exactly when rank and suit are both HIDDEN or both revealed; on success the card keeps that rank and suit and is valid; a half-hidden pair is refused with an illegal-argument error |
| `Cards.ClosedIsValid` | domain/src/test/java/com/bueno/domain/entities/deck/CardTest.java:47-64 | the closed card has rank HIDDEN and suit HIDDEN, is valid, and `Of(HIDDEN, HIDDEN)` gives exactly the closed card |
| `Cards.OfValueEquality` | domain/src/test/java/com/bueno/domain/entities/deck/CardTest.java:67-76 | two cards built by `Of` are equal exactly when their ranks and suits are equal (value equality, both directions) |
| `Cards.OfBuildsEveryValidCard` | domain/src/test/java/com/bueno/domain/entities/deck/CardTest.java:56-101 | a card satisfies the both-or-neither invariant exactly when `Of` builds it from its own rank and suit |
| `Cards.OfExamples` | domain/src/test/java/com/bueno/domain/entities/deck/CardTest.java:38-147 | the construction tests: seven of spades is kept, seven of clubs and two of diamonds are built with exactly that rank and suit, HIDDEN/CLUBS and SEVEN/HIDDEN are refused |
| `Cards.Card.Valid` | domain/src/test/java/com/bueno/domain/entities/deck/CardTest.java:95-101 | a card is valid exactly when it is the closed card or has both rank and suit revealed |
| `Cards.Closed` | domain/src/test/java/com/bueno/domain/entities/deck/CardTest.java:47-54 | the closed card has rank HIDDEN and suit HIDDEN, and it is a valid card |
| `Cards.ClosedWorthLessThanWorstCard` | domain/src/test/java/com/bueno/domain/entities/deck/CardTest.java:136-141 | a comparison passes the closed-card test when the closed card compared with four of diamonds under the vira four of clubs gives -1; the type `CompareValueTo` of every round's comparison requires it |
| `Cards.Next` | domain/src/test/java/com/bueno/domain/entities/deck/CardTest.java:112-127 | the successor is HIDDEN exactly for HIDDEN, and a revealed rank moves one place forward in the base-strength order, wrapping from THREE to FOUR |
| `Cards.NextExamples` | domain/src/test/java/com/bueno/domain/entities/deck/CardTest.java:112-127 | HIDDEN goes to HIDDEN, THREE to FOUR, KING to ACE |
| `Cards.NextIterPosition` | domain/src/test/java/com/bueno/domain/entities/deck/CardTest.java:117-127 | after k successor steps a revealed rank is still revealed and has moved k places around the ten-rank cycle |
| `Cards.NextCycle` | domain/src/test/java/com/bueno/domain/entities/deck/CardTest.java:117-127 | the successor is one cycle through all ten revealed ranks: ten steps return to the start and no fewer do |
| `Cards.NextIterHidden` | domain/src/test/java/com/bueno/domain/entities/deck/CardTest.java:111-115 | HIDDEN stays HIDDEN under any number of successor steps |
| `Cards.Card.ToString` | domain/src/test/java/com/bueno/domain/entities/deck/CardTest.java:104-133 | the printed form is four characters: `[`, the rank symbol, the suit symbol, `]` |
| `Cards.ToStringInjective` | domain/src/test/java/com/bueno/domain/entities/deck/CardTest.java:104-133 | two cards print the same exactly when they are the same card |
| `Cards.ToStringExamples` | domain/src/test/java/com/bueno/domain/entities/deck/CardTest.java:104-133 | the printing tests: `[7♦]`, `[A♥]`, `[Q♣]`, `[J♠]`, `[K♠]` and `[Xx]` for the closed card |
| `Rounds.ClosedCardLosesRound` | domain/src/test/java/com/bueno/domain/entities/deck/CardTest.java:135-141 | for any comparison satisfying the closed-card test (closed against four of diamonds under vira four of clubs gives -1), a closed first card loses that round to the last player |
| `Rounds.MayRaise` | domain/src/main/java/com/bueno/domain/entities/game/Round.java:108-116 | a player may ask to raise exactly when there is no last raiser or the last raiser is another player |
| `Rounds.SomeoneMayRaise` | domain/src/main/java/com/bueno/domain/entities/game/Round.java:108-116 | of two different players, at least one may always ask to raise |
| `Rounds.EligibilityAfterNegotiation` | domain/src/main/java/com/bueno/domain/entities/game/Round.java:108-133 | after a negotiation naming `p` as last requester, `p` may not raise and any other player may; a negotiation naming nobody leaves eligibility unchanged |
| `Rounds.ValidateCards` | domain/src/main/java/com/bueno/domain/entities/game/Round.java:135-142 | the check fails, with the uniqueness violation, exactly when an open first card equals the last card, an open first card equals the vira, or an open last card equals the vira |
| `Rounds.ValidateCardsMeansUnique` | domain/src/main/java/com/bueno/domain/entities/game/Round.java:135-142 | the check passes exactly when no open card occurs twice among first card, last card and vira (independent pairwise definition) |
| `Rounds.ValidateCardsClosedAndRepeated` | domain/src/main/java/com/bueno/domain/entities/game/Round.java:135-142 | two closed cards pass under any vira; an open card played twice, or played by either player when it is the vira, fails |
| `Rounds.ValidatedEqualCardsAreClosed` | domain/src/main/java/com/bueno/domain/entities/game/Round.java:135-142 | equal cards that pass the check are closed |
| `Rounds.DecideIndependentOfOrder` | domain/src/main/java/com/bueno/domain/entities/game/Round.java:61-73 | with a sign-antisymmetric comparison, the sign-based winner is the same whichever player played first |
| `Rounds.PlayedWinnerFollowsSign` | domain/src/main/java/com/bueno/domain/entities/game/Round.java:61-101 | in a validated round where two closed cards tie, mapping the winning card to a player by equality gives the first player on a positive comparison, the last on a negative one, and a draw on zero |
| `Rounds.Round.constructor` | domain/src/main/java/com/bueno/domain/entities/game/Round.java:44-50 | a live round takes its players, its hand and the hand's vira, has no cards and no winner, and clears the hand's card to beat without touching the hand's other fields |
| `Rounds.Round.FromCards` | domain/src/main/java/com/bueno/domain/entities/game/Round.java:52-57 | the field assignments of a rebuilt round: both players, both cards, the vira, no hand and no winner |
| `Rounds.Round.Record` | domain/src/main/java/com/bueno/domain/entities/game/Round.java:52-59 | rebuilding a round from its cards succeeds exactly when `ValidateCards` passes; on failure it gives the uniqueness violation, and on success it gives a fresh round holding the given players and cards |
| `Rounds.Round.WinnerCard` | domain/src/main/java/com/bueno/domain/entities/game/Round.java:70-73 | no card when the comparison is zero, the first card when it is positive, the last card when it is negative |
| `Rounds.Round.GetHighestCard` | domain/src/main/java/com/bueno/domain/entities/game/Round.java:144-147 | always the same choice as `WinnerCard` |
| `Rounds.Round.Play2` | domain/src/main/java/com/bueno/domain/entities/game/Round.java:61-67 | the winner is the first player on a positive comparison, the last on a negative one, a draw on zero; when the two cards are equal and the comparison is not zero the first player is named |
| `Rounds.Round.IsAbleToRequestScoreIncrement` | domain/src/main/java/com/bueno/domain/entities/game/Round.java:108-116 | agrees with `MayRaise` on the hand's current last bet raiser |
| `Rounds.Round.HandleTruco` | domain/src/main/java/com/bueno/domain/entities/game/Round.java:118-133 | the hand's stake becomes the negotiation's score; the last bet raiser changes only when the negotiation names a last requester; the round winner and hand result are set, and a hand result returned, exactly when the negotiation has a winner, and the winner is that player; the negotiation is logged with the stake and card to beat it saw |
| `Rounds.Round.OfferRaise` | domain/src/main/java/com/bueno/domain/entities/game/Round.java:78-81 | the step before each card (also lines 88-91): the negotiation runs only when the player may raise; it reports a run exactly when it ran and has a winner; stake, last raiser, winner, hand result and log follow the negotiation when it ran and stay as they were when it did not |
| `Rounds.Round.Play` | domain/src/main/java/com/bueno/domain/entities/game/Round.java:75-105 | the winner is reset first. A run in the first negotiation stops at once: no card is recorded or shown, and the winner is the negotiation's. A run in the second stops after the first card: open cards grew by that card only, and it is still the card to beat. Otherwise the steps happen in this order: the second negotiation sees the first card as the card to beat; open cards grow by exactly [first, last]; the card to beat is cleared; the check's outcome is returned; the winner follows the same rule as `Play2`, or is absent when the check fails. In every case the stake and last raiser follow the negotiations that ran |
| `Rounds.Round.GetWinner` | domain/src/main/java/com/bueno/domain/entities/game/Round.java:149-151 | present exactly when a winner is recorded, and then that winner |
| `Rounds.Round.SetWinner` | domain/src/main/java/com/bueno/domain/entities/game/Round.java:153-155 | the recorded winner becomes the argument; `None` is a draw |

## Left out

- Logging: the logger calls in `Round` and `Round.toString` are side output with no effect on state.
- Player decisions: `chooseCardToPlay` is an input card. `handleOpponentPlay` does nothing and is recorded only as a `Notified` step in the ghost log.
- The raise/accept/run protocol inside `Truco.handle`: its `TrucoResult` is an input. The model does not relate the stake it reports to the stake it was given.
- Card comparison: `compareValueTo`, manilhas and suit order are outside this model. The comparison each round holds has the type `CompareValueTo`, so it satisfies the closed-card test; nothing else is assumed about it, except the hypotheses that a lemma names: `SignAntisymmetric`, or a tie between two closed cards.
- `Rank.next` beyond the tested values: the tests fix HIDDEN, THREE and KING only. The other successors follow the base-strength order FOUR, FIVE, SIX, SEVEN, QUEEN, JACK, KING, ACE, TWO, THREE, with wrap-around. The rank and suit symbols for 4, 5, 6, 2 and 3 follow the same pattern as the tested ones.
- `Hand`: Hand.java is not part of this model. Only the fields a round uses are modelled, with a simple constructor. Aggregating round results into a hand winner is not modelled, because it lives there.
- `HandResult`: its constructor is not part of this model. It is represented as the negotiation result it is built from.
- Null checks: the `requireNonNull` guards and the null rank and suit tests are vacuous with Dafny's non-null values.
- Rounds.Round.WinnerCard, Rounds.Round.GetHighestCard, Rounds.Round.Play2: they require both cards to be present. The Java code throws a null-pointer exception when they are not, and that path is not modelled.
- Rounds.Round.Play: it requires a hand. A round rebuilt from its cards has none, and calling `play` on it throws a null-pointer exception, which is not modelled.
- bot-impl/src/main/java/com/adivic/octopus/Octopus.java: a stub bot whose decisions are constants. Its manilha counting depends on a predicate of a card type outside this model.
