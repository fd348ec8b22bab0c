/**
  The inputs of one decision: the turn context, the player's own state, the
  action it returns, and the collaborators the policy consults but does not
  implement (action validation, the legal cards, announce validation and the
  inference of the opponent's possible cards).
 */
module Game {
  import opened Options
  import opened Cards

  datatype Announce = NoAnnounce | Twenty | Forty

  /** The action a turn produces. A played card carries no announce here; where a 20 or 40 is attached is not modelled. */
  datatype Action = ChangeTrump | CloseGame | PlayCard(card: Card)

  /**
    What the game loop tells the player for one turn. `firstPlayedCard` is the
    card the opponent led, present whenever this player follows.
   */
  datatype TurnContext = TurnContext(
    trumpCard: Card,
    firstPlayedCard: Option<Card>,
    isFirstPlayerTurn: bool,
    firstPlayerRoundPoints: int,
    shouldObserveRules: bool)

  /**
    The collaborators, with the arguments the policy passes them:
    `isValid(action, context, hand)`, `possibleCardsToPlay(context, hand)`,
    `possibleAnnounce(hand, card, trumpCard)` and
    `opponentCards(hand, playedCards, suit)` (the excluded card is always null
    in this policy, so it is not a parameter).
   */
  datatype Collaborators = Collaborators(
    isValid: (Action, TurnContext, seq<Card>) -> bool,
    possibleCardsToPlay: (TurnContext, seq<Card>) -> seq<Card>,
    possibleAnnounce: (seq<Card>, Card, Card) -> Announce,
    opponentCards: (seq<Card>, seq<Card>, Suit) -> seq<Card>)

  /** The player's own state: its hand, and the cards played so far this round. */
  datatype Player = Player(cards: seq<Card>, playedCards: seq<Card>)
}
