/**
  The player's entry points: the turn decision (trump exchange, closing the
  game, or a card from the strategy that fits the turn) and the end-of-trick
  and end-of-round notifications that maintain the played-cards record.
 */
module SmartPlayer {
  import opened Options
  import opened Cards
  import opened Game
  import opened Ordering
  import opened SureWin
  import opened Strategies

  /** `CloseGame` of `SmartPlayerOld`: closing is valid and the hand holds exactly five cards of the trump suit. */
  predicate ShouldCloseGame(p: Player, env: Collaborators, ctx: TurnContext)
  {
    env.isValid(CloseGame, ctx, p.cards) && CountWhere(p.cards, OfSuit(ctx.trumpCard.suit)) == 5
  }

  /** Neither a trump exchange nor closing the game is taken, so the turn plays a card. */
  predicate ChoosesCard(p: Player, env: Collaborators, ctx: TurnContext)
  {
    !env.isValid(ChangeTrump, ctx, p.cards) && !ShouldCloseGame(p, env, ctx)
  }

  /**
    What choosing a card reads from the turn: at least one legal card, and
    the led card when playing second.
   */
  predicate CanChooseCard(p: Player, env: Collaborators, ctx: TurnContext)
  {
    && |env.possibleCardsToPlay(ctx, p.cards)| > 0
    && (!ctx.isFirstPlayerTurn ==> ctx.firstPlayedCard.Some?)
  }

  /** Dispatch on (rules observed, playing first) to one of the four strategies. */
  function ChooseCard(p: Player, env: Collaborators, ctx: TurnContext): (r: Action)
    requires |env.possibleCardsToPlay(ctx, p.cards)| > 0
    requires !ctx.isFirstPlayerTurn ==> ctx.firstPlayedCard.Some?
    ensures r.PlayCard?
    ensures var legal := env.possibleCardsToPlay(ctx, p.cards);
      r.card in legal ||
      (&& ctx.shouldObserveRules && ctx.isFirstPlayerTurn && r.card in p.cards
       && SureWinForSuit(r.card.suit, p.cards, p.playedCards, env.opponentCards,
                         OpponentHasTrump(p, env, ctx.trumpCard.suit)) == Some(r.card))
  {
    var legal := env.possibleCardsToPlay(ctx, p.cards);
    var card :=
      if ctx.shouldObserveRules then
        if ctx.isFirstPlayerTurn then LeadWhenRulesApply(p, env, ctx, legal)
        else FollowWhenRulesApply(ctx, legal)
      else
        if ctx.isFirstPlayerTurn then LeadWhenRulesDoNotApply(p, env, ctx, legal)
        else FollowWhenRulesDoNotApply(p, ctx, legal);
    PlayCard(card)
  }

  function GetTurn(p: Player, env: Collaborators, ctx: TurnContext): (r: Action)
    requires ChoosesCard(p, env, ctx) ==> CanChooseCard(p, env, ctx)
    ensures env.isValid(ChangeTrump, ctx, p.cards) ==> r == ChangeTrump
    ensures r == ChangeTrump ==> env.isValid(ChangeTrump, ctx, p.cards)
    ensures r == CloseGame <==>
      && !env.isValid(ChangeTrump, ctx, p.cards)
      && env.isValid(CloseGame, ctx, p.cards)
      && CountWhere(p.cards, OfSuit(ctx.trumpCard.suit)) == 5
    ensures ChoosesCard(p, env, ctx) ==> r == ChooseCard(p, env, ctx)
  {
    if env.isValid(ChangeTrump, ctx, p.cards) then ChangeTrump
    else if ShouldCloseGame(p, env, ctx) then CloseGame
    else ChooseCard(p, env, ctx)
  }

  /**
    Whatever the turn, a played card is one of the legal cards, except a
    sure winner led under the rules, which is a card of the hand.
   */
  lemma PlayedCardIsLegalOrSureWin(p: Player, env: Collaborators, ctx: TurnContext)
    requires ChoosesCard(p, env, ctx) ==> CanChooseCard(p, env, ctx)
    ensures var r := GetTurn(p, env, ctx);
      r.PlayCard? ==>
        && (r.card in env.possibleCardsToPlay(ctx, p.cards) || r.card in p.cards)
        && (!(ctx.shouldObserveRules && ctx.isFirstPlayerTurn) ==> r.card in env.possibleCardsToPlay(ctx, p.cards))
  {
  }

  /** `EndTurn`: record the two cards of the finished trick, leader's first. */
  function EndTurn(p: Player, firstPlayedCard: Card, secondPlayedCard: Card): (q: Player)
    ensures q.cards == p.cards
    ensures |q.playedCards| == |p.playedCards| + 2
    ensures q.playedCards[..|p.playedCards|] == p.playedCards
    ensures q.playedCards[|p.playedCards|] == firstPlayedCard
    ensures q.playedCards[|p.playedCards| + 1] == secondPlayedCard
  {
    Player(p.cards, p.playedCards + [firstPlayedCard, secondPlayedCard])
  }

  /** `EndRound`: forget the cards played in the round. */
  function EndRound(p: Player): (q: Player)
    ensures q.cards == p.cards
    ensures |q.playedCards| == 0
  {
    Player(p.cards, [])
  }

  /** The state after the game loop reports `tricks` in order. */
  function EndTurns(p: Player, tricks: seq<(Card, Card)>): Player
    decreases |tricks|
  {
    if |tricks| == 0 then p
    else EndTurns(EndTurn(p, tricks[0].0, tricks[0].1), tricks[1..])
  }

  /** The cards of `tricks`, two per trick, in play order. */
  function TrickCards(tricks: seq<(Card, Card)>): seq<Card>
    decreases |tricks|
  {
    if |tricks| == 0 then []
    else [tricks[0].0, tricks[0].1] + TrickCards(tricks[1..])
  }

  /** Reporting tricks only appends their cards, in order, and leaves the hand alone. */
  lemma {:induction false} EndTurnsAppends(p: Player, tricks: seq<(Card, Card)>)
    ensures EndTurns(p, tricks).playedCards == p.playedCards + TrickCards(tricks)
    ensures EndTurns(p, tricks).cards == p.cards
    decreases |tricks|
  {
    if |tricks| > 0 {
      var q := EndTurn(p, tricks[0].0, tricks[0].1);
      EndTurnsAppends(q, tricks[1..]);
      assert q.playedCards + TrickCards(tricks[1..])
          == p.playedCards + ([tricks[0].0, tricks[0].1] + TrickCards(tricks[1..]));
    }
  }

  /**
    After a round boundary the record holds exactly the cards of the tricks
    reported since, two per trick: nothing survives from the previous round.
   */
  lemma RoundRecordsOnlyItsTricks(p: Player, tricks: seq<(Card, Card)>)
    ensures EndTurns(EndRound(p), tricks).playedCards == TrickCards(tricks)
    ensures |EndTurns(EndRound(p), tricks).playedCards| == 2 * |tricks|
  {
    EndTurnsAppends(EndRound(p), tricks);
    TrickCardsLength(tricks);
  }

  lemma {:induction false} TrickCardsLength(tricks: seq<(Card, Card)>)
    ensures |TrickCards(tricks)| == 2 * |tricks|
    decreases |tricks|
  {
    if |tricks| > 0 {
      TrickCardsLength(tricks[1..]);
    }
  }
}
