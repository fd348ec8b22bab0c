/**
  The four card-choosing strategies of the player, one per combination of
  "the rules (follow suit, beat if possible) are observed" and "the player
  leads the trick". Each is a fixed chain of first-match tiers that ends in a
  smallest- or largest-by-value fallback over the legal cards.
 */
module Strategies {
  import opened Options
  import opened Cards
  import opened Game
  import opened Ordering
  import opened SureWin
  import opened Announcer

  /** The filter keeping the cards that beat `led` in its own suit. */
  function Beats(led: Card): Card -> bool
  {
    (c: Card) => c.suit == led.suit && Value(c) > Value(led)
  }

  /** Playing `c` would split a Queen and King of its suit that are both in hand. */
  predicate BreaksMarriage(c: Card, hand: seq<Card>)
  {
    || (c.rank == Queen && Card(c.suit, King) in hand)
    || (c.rank == King && Card(c.suit, Queen) in hand)
  }

  predicate IsHighValue(c: Card)
  {
    c.rank == Ace || c.rank == Ten
  }

  /** The opponent may hold a trump, by elimination. */
  predicate OpponentHasTrump(p: Player, env: Collaborators, trumpSuit: Suit)
  {
    |env.opponentCards(p.cards, p.playedCards, trumpSuit)| > 0
  }

  /** The first minimal-value legal card; the legal cards are never empty here. */
  function SmallestCard(legal: seq<Card>): (r: Card)
    requires |legal| > 0
    ensures r in legal && IsFirstMin(legal, AnyCard, r)
  {
    assert AnyCard(legal[0]);
    FirstMinByValue(legal, AnyCard).value
  }

  /** The first maximal-value legal card; the legal cards are never empty here. */
  function BiggestCard(legal: seq<Card>): (r: Card)
    requires |legal| > 0
    ensures r in legal && IsFirstMax(legal, AnyCard, r)
  {
    assert AnyCard(legal[0]);
    FirstMaxByValue(legal, AnyCard).value
  }

  // ---------------------------------------------------------------------
  // Leading, rules do not apply
  // ---------------------------------------------------------------------

  /**
    Leading the highest legal trump `t` takes the round: the player's points
    plus its value reach 66 and no inferable opponent trump is worth as much.
   */
  ghost predicate FinishesRound(legal: seq<Card>, trumpSuit: Suit, points: int, opponentTrumps: seq<Card>, t: Card)
  {
    && IsMax(legal, OfSuit(trumpSuit), t)
    && points >= 66 - Value(t)
    && (forall o :: o in opponentTrumps ==> Value(o) < Value(t))
  }

  function LeadWhenRulesDoNotApply(p: Player, env: Collaborators, ctx: TurnContext, legal: seq<Card>): (r: Card)
    requires |legal| > 0
    ensures r in legal
  {
    var trumpSuit := ctx.trumpCard.suit;
    var announce := TryToAnnounce20Or40(legal, p.cards, ctx.trumpCard, env.possibleAnnounce);
    if announce.Some? then announce.value
    else
      var opponentBiggestTrump := FirstMaxByValue(env.opponentCards(p.cards, p.playedCards, trumpSuit), AnyCard);
      var myBiggestTrump := FirstMaxByValue(legal, OfSuit(trumpSuit));
      if && myBiggestTrump.Some?
         && ctx.firstPlayerRoundPoints >= 66 - Value(myBiggestTrump.value)
         && (opponentBiggestTrump.None? || Value(myBiggestTrump.value) > Value(opponentBiggestTrump.value))
      then myBiggestTrump.value
      else
        var smallestNonTrump := FirstMinByValue(legal, NotOfSuit(trumpSuit));
        if smallestNonTrump.Some? then smallestNonTrump.value
        else BiggestCard(legal)
  }

  /**
    The tiers when leading without rules: an announce first; then the highest
    legal trump exactly when it finishes the round; then the first
    smallest non-trump; then, with only trumps left, the first largest card.
   */
  lemma LeadWhenRulesDoNotApplyTiers(p: Player, env: Collaborators, ctx: TurnContext, legal: seq<Card>)
    requires |legal| > 0
    ensures var r := LeadWhenRulesDoNotApply(p, env, ctx, legal);
      var trumpSuit := ctx.trumpCard.suit;
      var announce := TryToAnnounce20Or40(legal, p.cards, ctx.trumpCard, env.possibleAnnounce);
      var opponentTrumps := env.opponentCards(p.cards, p.playedCards, trumpSuit);
      var finishing := exists t :: FinishesRound(legal, trumpSuit, ctx.firstPlayerRoundPoints, opponentTrumps, t);
      && (announce.Some? ==> r == announce.value)
      && (announce.None? && finishing ==> FinishesRound(legal, trumpSuit, ctx.firstPlayerRoundPoints, opponentTrumps, r))
      && (announce.None? && !finishing && (exists c :: c in legal && c.suit != trumpSuit) ==>
            r.suit != trumpSuit && IsFirstMin(legal, NotOfSuit(trumpSuit), r))
      && (announce.None? && !finishing && (forall c :: c in legal ==> c.suit == trumpSuit) ==>
            IsFirstMax(legal, AnyCard, r))
  {
    var trumpSuit := ctx.trumpCard.suit;
    var points := ctx.firstPlayerRoundPoints;
    var opponentTrumps := env.opponentCards(p.cards, p.playedCards, trumpSuit);
    var announce := TryToAnnounce20Or40(legal, p.cards, ctx.trumpCard, env.possibleAnnounce);
    if announce.None? {
      var myBiggestTrump := FirstMaxByValue(legal, OfSuit(trumpSuit));
      var opponentBiggestTrump := FirstMaxByValue(opponentTrumps, AnyCard);
      FinishingTrumpIsBiggest(legal, trumpSuit, points, opponentTrumps);
      var smallestNonTrump := FirstMinByValue(legal, NotOfSuit(trumpSuit));
      if smallestNonTrump.None? {
        assert forall c :: c in legal ==> c.suit == trumpSuit;
      }
    }
  }

  /**
    The finishing-trump test of `SmartPlayerOld`, on the first maximal legal trump
    and the first maximal opponent trump, holds exactly when some legal trump
    finishes the round, and then that card is the one.
   */
  lemma FinishingTrumpIsBiggest(legal: seq<Card>, trumpSuit: Suit, points: int, opponentTrumps: seq<Card>)
    ensures var mine := FirstMaxByValue(legal, OfSuit(trumpSuit));
      var theirs := FirstMaxByValue(opponentTrumps, AnyCard);
      && ((exists t :: FinishesRound(legal, trumpSuit, points, opponentTrumps, t)) <==>
            (&& mine.Some?
             && points >= 66 - Value(mine.value)
             && (theirs.None? || Value(mine.value) > Value(theirs.value))))
      && (forall t :: FinishesRound(legal, trumpSuit, points, opponentTrumps, t) ==> Some(t) == mine)
  {
    var mine := FirstMaxByValue(legal, OfSuit(trumpSuit));
    var theirs := FirstMaxByValue(opponentTrumps, AnyCard);
    if theirs.Some? {
      FirstExtremaAreExtrema(opponentTrumps, AnyCard, theirs.value);
    } else {
      assert forall o :: o in opponentTrumps ==> !AnyCard(o);
    }
    if mine.Some? {
      FirstExtremaAreExtrema(legal, OfSuit(trumpSuit), mine.value);
      forall t | FinishesRound(legal, trumpSuit, points, opponentTrumps, t)
        ensures t == mine.value
      {
        ValueIdentifiesCardInSuit(t, mine.value);
      }
      if && points >= 66 - Value(mine.value)
         && (theirs.None? || Value(mine.value) > Value(theirs.value)) {
        assert FinishesRound(legal, trumpSuit, points, opponentTrumps, mine.value);
      }
    }
  }

  // ---------------------------------------------------------------------
  // Leading, rules apply
  // ---------------------------------------------------------------------

  function LeadWhenRulesApply(p: Player, env: Collaborators, ctx: TurnContext, legal: seq<Card>): (r: Card)
    requires |legal| > 0
    ensures r in legal ||
      (r in p.cards
       && SureWinForSuit(r.suit, p.cards, p.playedCards, env.opponentCards, OpponentHasTrump(p, env, ctx.trumpCard.suit)) == Some(r))
  {
    var trumpSuit := ctx.trumpCard.suit;
    var opponentHasTrump := OpponentHasTrump(p, env, trumpSuit);
    var trumpWin := SureWinForSuit(trumpSuit, p.cards, p.playedCards, env.opponentCards, opponentHasTrump);
    if trumpWin.Some? then trumpWin.value
    else
      var suitWin := FirstSureWin(AllSuits, p.cards, p.playedCards, env.opponentCards, opponentHasTrump);
      if suitWin.Some? then suitWin.value
      else
        var announce := TryToAnnounce20Or40(legal, p.cards, ctx.trumpCard, env.possibleAnnounce);
        if announce.Some? then announce.value
        else
          var smallestNonTrump := FirstMinByValue(legal, NotOfSuit(trumpSuit));
          if smallestNonTrump.Some? then smallestNonTrump.value
          else SmallestCard(legal)
  }

  /**
    The tiers when leading under the rules: a sure win in trumps; else the
    sure win of the first suit in enumeration order that has one; else an
    announce; else the first smallest non-trump; else the first smallest card.
    Only the sure-win tiers can play a card from outside the legal cards.
   */
  lemma LeadWhenRulesApplyTiers(p: Player, env: Collaborators, ctx: TurnContext, legal: seq<Card>)
    requires |legal| > 0
    ensures var r := LeadWhenRulesApply(p, env, ctx, legal);
      var trumpSuit := ctx.trumpCard.suit;
      var hasTrump := OpponentHasTrump(p, env, trumpSuit);
      var announce := TryToAnnounce20Or40(legal, p.cards, ctx.trumpCard, env.possibleAnnounce);
      var noSureWin := forall s :: SureWinForSuit(s, p.cards, p.playedCards, env.opponentCards, hasTrump).None?;
      && (SureWinForSuit(trumpSuit, p.cards, p.playedCards, env.opponentCards, hasTrump).Some? ==>
            Some(r) == SureWinForSuit(trumpSuit, p.cards, p.playedCards, env.opponentCards, hasTrump))
      && (forall i :: FirstSureWinAt(AllSuits, p.cards, p.playedCards, env.opponentCards, hasTrump, i)
            && SureWinForSuit(trumpSuit, p.cards, p.playedCards, env.opponentCards, hasTrump).None?
            ==> Some(r) == SureWinForSuit(AllSuits[i], p.cards, p.playedCards, env.opponentCards, hasTrump))
      && (noSureWin ==> r in legal)
      && (noSureWin && announce.Some? ==> r == announce.value)
      && (noSureWin && announce.None? && (exists c :: c in legal && c.suit != trumpSuit) ==>
            r.suit != trumpSuit && IsFirstMin(legal, NotOfSuit(trumpSuit), r))
      && (noSureWin && announce.None? && (forall c :: c in legal ==> c.suit == trumpSuit) ==>
            IsFirstMin(legal, AnyCard, r))
  {
    var trumpSuit := ctx.trumpCard.suit;
    var hasTrump := OpponentHasTrump(p, env, trumpSuit);
    var suitWin := FirstSureWin(AllSuits, p.cards, p.playedCards, env.opponentCards, hasTrump);
    if suitWin.Some? {
      var k :| FirstSureWinAt(AllSuits, p.cards, p.playedCards, env.opponentCards, hasTrump, k)
        && SureWinForSuit(AllSuits[k], p.cards, p.playedCards, env.opponentCards, hasTrump) == suitWin;
      assert forall i :: FirstSureWinAt(AllSuits, p.cards, p.playedCards, env.opponentCards, hasTrump, i) ==> i == k;
    }
    if forall s :: SureWinForSuit(s, p.cards, p.playedCards, env.opponentCards, hasTrump).None? {
      assert suitWin.None?;
    }
  }

  // ---------------------------------------------------------------------
  // Following, rules do not apply
  // ---------------------------------------------------------------------

  /**
    The trump-defence tier against a high-value lead: trump Jack; else trump
    Nine when the trump card is the Jack; else trump Queen once the trump
    King is played; else trump King once the trump Queen is played.
   */
  function TrumpDefence(legal: seq<Card>, trumpCard: Card, playedCards: seq<Card>): (r: Option<Card>)
    ensures r.Some? ==> r.value in legal && r.value.suit == trumpCard.suit
  {
    var trumpSuit := trumpCard.suit;
    if Card(trumpSuit, Jack) in legal then Some(Card(trumpSuit, Jack))
    else if Card(trumpSuit, Nine) in legal && trumpCard.rank == Jack then Some(Card(trumpSuit, Nine))
    else if Card(trumpSuit, Queen) in legal && Card(trumpSuit, King) in playedCards then Some(Card(trumpSuit, Queen))
    else if Card(trumpSuit, King) in legal && Card(trumpSuit, Queen) in playedCards then Some(Card(trumpSuit, King))
    else None
  }

  function FollowWhenRulesDoNotApply(p: Player, ctx: TurnContext, legal: seq<Card>): (r: Card)
    requires |legal| > 0
    requires ctx.firstPlayedCard.Some?
    ensures r in legal
  {
    var led := ctx.firstPlayedCard.value;
    var biggerCard := FirstMaxByValue(legal, Beats(led));
    if biggerCard.Some? && !BreaksMarriage(biggerCard.value, p.cards) then biggerCard.value
    else
      var defence := if IsHighValue(led) then TrumpDefence(legal, ctx.trumpCard, p.playedCards) else None;
      if defence.Some? then defence.value
      else SmallestCard(legal)
  }

  /**
    The tiers when following without rules: the highest legal card beating
    the led card in its suit, unless it splits the player's own Queen-King
    pair (then no lower beating card is tried); against a led Ace or Ten, the
    trump-defence cards in their order; otherwise the first smallest card.
   */
  lemma FollowWhenRulesDoNotApplyTiers(p: Player, ctx: TurnContext, legal: seq<Card>)
    requires |legal| > 0
    requires ctx.firstPlayedCard.Some?
    ensures var r := FollowWhenRulesDoNotApply(p, ctx, legal);
      var led := ctx.firstPlayedCard.value;
      var trumpSuit := ctx.trumpCard.suit;
      var skip := forall b :: IsMax(legal, Beats(led), b) ==> BreaksMarriage(b, p.cards);
      var defend := skip && IsHighValue(led);
      && (forall b :: IsMax(legal, Beats(led), b) && !BreaksMarriage(b, p.cards) ==> r == b)
      && (defend && Card(trumpSuit, Jack) in legal ==> r == Card(trumpSuit, Jack))
      && ((defend && Card(trumpSuit, Jack) !in legal
           && Card(trumpSuit, Nine) in legal && ctx.trumpCard.rank == Jack) ==> r == Card(trumpSuit, Nine))
      && ((defend && Card(trumpSuit, Jack) !in legal
           && !(Card(trumpSuit, Nine) in legal && ctx.trumpCard.rank == Jack)
           && Card(trumpSuit, Queen) in legal && Card(trumpSuit, King) in p.playedCards) ==> r == Card(trumpSuit, Queen))
      && ((defend && Card(trumpSuit, Jack) !in legal
           && !(Card(trumpSuit, Nine) in legal && ctx.trumpCard.rank == Jack)
           && !(Card(trumpSuit, Queen) in legal && Card(trumpSuit, King) in p.playedCards)
           && Card(trumpSuit, King) in legal && Card(trumpSuit, Queen) in p.playedCards) ==> r == Card(trumpSuit, King))
      && (skip && TrumpDefence(legal, ctx.trumpCard, p.playedCards).None? ==> IsFirstMin(legal, AnyCard, r))
      && (skip && !IsHighValue(led) ==> IsFirstMin(legal, AnyCard, r))
  {
    var led := ctx.firstPlayedCard.value;
    var biggerCard := FirstMaxByValue(legal, Beats(led));
    if biggerCard.Some? {
      FirstExtremaAreExtrema(legal, Beats(led), biggerCard.value);
      forall b | IsMax(legal, Beats(led), b)
        ensures b == biggerCard.value
      {
        ValueIdentifiesCardInSuit(b, biggerCard.value);
      }
    }
  }

  /**
    The Queen-King exception never leads to a trump defence: a beating Queen
    or King means the led card is below the King, so neither an Ace nor a
    Ten, and the first smallest card is played.
   */
  lemma MarriageSkipPlaysSmallest(p: Player, ctx: TurnContext, legal: seq<Card>, b: Card)
    requires |legal| > 0
    requires ctx.firstPlayedCard.Some?
    requires IsMax(legal, Beats(ctx.firstPlayedCard.value), b) && BreaksMarriage(b, p.cards)
    ensures IsFirstMin(legal, AnyCard, FollowWhenRulesDoNotApply(p, ctx, legal))
  {
    var led := ctx.firstPlayedCard.value;
    assert Value(led) < Value(b) <= 4;
    assert !IsHighValue(led);
    FollowWhenRulesDoNotApplyTiers(p, ctx, legal);
    var biggerCard := FirstMaxByValue(legal, Beats(led));
    FirstExtremaAreExtrema(legal, Beats(led), biggerCard.value);
    ValueIdentifiesCardInSuit(b, biggerCard.value);
  }

  // ---------------------------------------------------------------------
  // Following, rules apply
  // ---------------------------------------------------------------------

  function FollowWhenRulesApply(ctx: TurnContext, legal: seq<Card>): (r: Card)
    requires |legal| > 0
    requires ctx.firstPlayedCard.Some?
    ensures r in legal
  {
    var led := ctx.firstPlayedCard.value;
    var biggerCard := FirstMaxByValue(legal, Beats(led));
    if biggerCard.Some? then biggerCard.value
    else
      var smallestTrump := FirstMinByValue(legal, OfSuit(ctx.trumpCard.suit));
      if smallestTrump.Some? then smallestTrump.value
      else SmallestCard(legal)
  }

  /**
    The tiers when following under the rules: the highest legal card beating
    the led card in its suit, with no Queen-King exception; else the lowest
    legal trump; else the first smallest card.
   */
  lemma FollowWhenRulesApplyTiers(ctx: TurnContext, legal: seq<Card>)
    requires |legal| > 0
    requires ctx.firstPlayedCard.Some?
    ensures var r := FollowWhenRulesApply(ctx, legal);
      var led := ctx.firstPlayedCard.value;
      var trumpSuit := ctx.trumpCard.suit;
      var canBeat := exists c :: c in legal && c.suit == led.suit && Value(c) > Value(led);
      && (canBeat ==> r.suit == led.suit && Value(r) > Value(led) && IsMax(legal, Beats(led), r))
      && (forall b :: IsMax(legal, Beats(led), b) ==> r == b)
      && (!canBeat && (exists c :: c in legal && c.suit == trumpSuit) ==>
            r.suit == trumpSuit && IsMin(legal, OfSuit(trumpSuit), r))
      && (!canBeat && (forall c :: c in legal ==> c.suit != trumpSuit) ==> IsFirstMin(legal, AnyCard, r))
  {
    var led := ctx.firstPlayedCard.value;
    var trumpSuit := ctx.trumpCard.suit;
    var biggerCard := FirstMaxByValue(legal, Beats(led));
    if biggerCard.Some? {
      FirstExtremaAreExtrema(legal, Beats(led), biggerCard.value);
      forall b | IsMax(legal, Beats(led), b)
        ensures b == biggerCard.value
      {
        ValueIdentifiesCardInSuit(b, biggerCard.value);
      }
    } else {
      assert forall c :: c in legal ==> !Beats(led)(c);
      var smallestTrump := FirstMinByValue(legal, OfSuit(trumpSuit));
      if smallestTrump.Some? {
        FirstExtremaAreExtrema(legal, OfSuit(trumpSuit), smallestTrump.value);
      }
    }
  }

  /**
    The two following strategies differ only through the Queen-King
    exception: when the highest beating card splits no pair, both play it.
   */
  lemma FollowStrategiesAgreeWithoutMarriage(p: Player, ctx: TurnContext, legal: seq<Card>, b: Card)
    requires |legal| > 0
    requires ctx.firstPlayedCard.Some?
    requires IsMax(legal, Beats(ctx.firstPlayedCard.value), b) && !BreaksMarriage(b, p.cards)
    ensures FollowWhenRulesDoNotApply(p, ctx, legal) == b == FollowWhenRulesApply(ctx, legal)
  {
    FollowWhenRulesDoNotApplyTiers(p, ctx, legal);
    FollowWhenRulesApplyTiers(ctx, legal);
  }
}
