/** Concrete turns that exercise one tier of the policy each. */
module Scenarios {
  import opened Options
  import opened Ordering
  import opened Cards
  import opened Game
  import opened Strategies
  import opened SmartPlayer

  /** Collaborators that allow no special action, offer the whole hand, announce nothing and infer no opponent card. */
  function Quiet(): Collaborators
  {
    Collaborators(
      (a: Action, ctx: TurnContext, hand: seq<Card>) => false,
      (ctx: TurnContext, hand: seq<Card>) => hand,
      (hand: seq<Card>, c: Card, trump: Card) => NoAnnounce,
      (hand: seq<Card>, played: seq<Card>, s: Suit) => [])
  }

  /** Leading under the rules with no opponent spade possible, the highest spade (trump) is led. */
  lemma LeadsSureTrump()
    ensures var p := Player([Card(Spade, Nine), Card(Spade, Jack), Card(Club, Ace)], []);
      var ctx := TurnContext(Card(Spade, Ten), None, true, 0, true);
      GetTurn(p, Quiet(), ctx) == PlayCard(Card(Spade, Jack))
  {
  }

  /** Following an Ace without rules, the trump Jack defends the trick. */
  lemma TrumpJackAgainstAce()
    ensures var p := Player([Card(Heart, Nine), Card(Spade, Jack)], []);
      var ctx := TurnContext(Card(Spade, Ten), Some(Card(Club, Ace)), false, 0, false);
      GetTurn(p, Quiet(), ctx) == PlayCard(Card(Spade, Jack))
  {
  }

  /** Leading without rules, a Queen that announces 20 is played before the smallest non-trump. */
  lemma AnnouncesTwenty()
    ensures var p := Player([Card(Club, Nine), Card(Heart, Queen), Card(Heart, King)], []);
      var ctx := TurnContext(Card(Spade, Ten), None, true, 0, false);
      var env := Quiet().(possibleAnnounce :=
        (hand: seq<Card>, c: Card, trump: Card) => if c == Card(Heart, Queen) then Twenty else NoAnnounce);
      GetTurn(p, env, ctx) == PlayCard(Card(Heart, Queen))
  {
  }

  // The positions below are fixed through `requires x == <literal>` parameters rather
  // than `var` bindings in the ensures, which keeps the verifier from unfolding the
  // strategies on literal arguments.

  /** Following without rules, the beating King is kept back for its Queen and the smallest card goes instead. */
  lemma KeepsMarriage(hand: seq<Card>, ctx: TurnContext)
    requires hand == [Card(Heart, Queen), Card(Heart, King), Card(Diamond, Nine)]
    requires ctx == TurnContext(Card(Spade, Ten), Some(Card(Heart, Jack)), false, 0, false)
    ensures FollowWhenRulesDoNotApply(Player(hand, []), ctx, hand) == Card(Diamond, Nine)
  {
    assert IsMax(hand, Beats(Card(Heart, Jack)), Card(Heart, King));
    MarriageSkipPlaysSmallest(Player(hand, []), ctx, hand, Card(Heart, King));
    assert FirstMinAt(hand, AnyCard, 2);
    FirstMinByValueIsFirstMin(hand, AnyCard, FollowWhenRulesDoNotApply(Player(hand, []), ctx, hand));
  }

  /** Under the rules the same King is played: the exception is not applied there. */
  lemma RulesIgnoreMarriage(hand: seq<Card>, ctx: TurnContext)
    requires hand == [Card(Heart, Queen), Card(Heart, King), Card(Diamond, Nine)]
    requires ctx == TurnContext(Card(Spade, Ten), Some(Card(Heart, Jack)), false, 0, true)
    ensures FollowWhenRulesApply(ctx, hand) == Card(Heart, King)
  {
    assert IsMax(hand, Beats(Card(Heart, Jack)), Card(Heart, King));
    FollowWhenRulesApplyTiers(ctx, hand);
  }

  /** Among equally low cards of different suits the first one in sequence order is chosen. */
  lemma TieGoesToFirst(s: seq<Card>)
    requires s == [Card(Heart, Ten), Card(Diamond, Nine), Card(Club, Nine)]
    ensures FirstMinByValue(s, AnyCard) == Some(Card(Diamond, Nine))
  {
    assert FirstMinAt(s, AnyCard, 1);
    FirstMinByValueIsFirstMin(s, AnyCard, Card(Diamond, Nine));
  }
}
