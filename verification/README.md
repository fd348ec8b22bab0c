# SmartPlayerOld: the card-choosing policy of a Santase AI player, in Dafny

This project models the decision logic of `SmartPlayerOld`, a rule-based player
for Santase (Schnapsen): a two-player trick-taking game with a 24-card deck, a
trump suit shown by a face-up card, a round target of 66 points, 20/40
marriage announcements and the option to close the game.

On each turn the player does three things in order:

- it exchanges the trump card whenever that is a valid action;
- otherwise it closes the game when that is valid and it holds exactly five
  trump cards;
- otherwise it picks a card.

Cards are picked by one of four strategies, chosen by two questions: are the
rules observed (follow suit, beat if possible), and does the player lead the
trick? Each strategy is a fixed chain of first-match tiers that ends with the
smallest or largest legal card by value. Two helpers support the strategies:
a sure-win check, which deduces by elimination that the player's best card of
a suit cannot be beaten, and an announce helper, which prefers a 40 to a 20.
The player also keeps a record of the cards played in the round. Each
finished trick adds its two cards, and the end of the round clears it.

Layout, one module per file:

- `options.dfy` (`Options`): the optional value that stands for "a card or null".
- `cards.dfy` (`Cards`): suits, ranks, cards, point values and the suit order.
- `ordering.dfy` (`Ordering`): the stable value-ordered queries. `Where(p).OrderBy(GetValue).FirstOrDefault()`
  becomes `FirstMinByValue(s, p)`, and the `OrderByDescending` form becomes `FirstMaxByValue(s, p)`.
  Both orderings are stable, so the first minimal or maximal card in sequence order wins.
  `FirstWhere` is the first-match `foreach`.
- `game.dfy` (`Game`): the turn context, the action, the player state and the collaborators.
- `surewin.dfy` (`SureWin`): `GetCardWhichWillSurelyWinTheTrick` and the suit loop that uses it.
- `announcer.dfy` (`Announcer`): `TryToAnnounce20Or40`.
- `strategies.dfy` (`Strategies`): the four `ChooseCardWhen…` strategies.
- `player.dfy` (`SmartPlayer`): `GetTurn`, `CloseGame`, `ChooseCard`, `EndTurn` and `EndRound`.
- `scenarios.dfy` (`Scenarios`): concrete positions that each exercise one tier.

The collaborators the file calls but does not define are fields of a
`Collaborators` value, with the argument lists of the calls in `SmartPlayerOld`. They are:

- `PlayerActionValidator.IsValid`;
- `PlayerActionValidator.GetPossibleCardsToPlay`;
- `AnnounceValidator.GetPossibleAnnounce`;
- `OpponentSuitCardsProvider.GetOpponentCards`.

Nothing about their behaviour is assumed, with one exception: the legal-card
sequence is non-empty whenever the turn plays a card. This is assumed of the
legality provider.

Three things in the model are assumptions, because their source files are not
part of this model:

- Card values are the usual Santase points: 9=0, J=2, Q=3, K=4, 10=10, A=11
  (`Cards.Value`). The proofs rely on these values being injective within a
  suit, and on no Queen or King being worth as much as a Ten.
- The suit enumeration order is Club, Diamond, Heart, Spade (`Cards.AllSuits`).
- Two cards are equal when their suit and rank are equal (`Cards.Card` is a
  datatype). The code relies on this in its `Contains(new Card(...))` lookups
  (SmartPlayerOld.cs:198-229).

Two behaviours of `SmartPlayerOld` are easy to miss; the model follows the code:

- Following without rules, when the highest beating card would split the
  player's own Queen-King pair, the code does not try the next beating card. It
  goes straight to the next tier. `MarriageSkipPlaysSmallest` shows that this
  tier is then always the smallest-card fallback.
- Leading under the rules, the suit loop runs over all four suits, the trump
  suit included, not only the other suits. The trump suit's check has already
  failed by then, so the result is the same.

## Model

| member | source | states |
|---|---|---|
| `SmartPlayer.GetTurn` | Source/AI/Santase.AI.SmartPlayer/SmartPlayerOld.cs:20-54 | Change trump is returned exactly when the validator allows it, whatever else holds. Otherwise close the game is returned exactly when closing is valid and the hand holds exactly five trump-suit cards. Otherwise the result is the card choice. |
| `SmartPlayer.ChooseCard` | Source/AI/Santase.AI.SmartPlayer/SmartPlayerOld.cs:57-67 | Always plays a card. The card is one of the legal cards, or, only when leading under the rules, a card of the hand that the sure-win check returns for its own suit. |
| `SmartPlayer.PlayedCardIsLegalOrSureWin` | Source/AI/Santase.AI.SmartPlayer/SmartPlayerOld.cs:20-67 | Any card a turn plays is legal or in hand. It is always legal except when leading with the rules observed. |
| `SmartPlayer.EndTurn` | Source/AI/Santase.AI.SmartPlayer/SmartPlayerOld.cs:42-46 | The record grows by exactly two: the first-played card, then the second. Earlier entries and the hand are unchanged. |
| `SmartPlayer.EndRound` | Source/AI/Santase.AI.SmartPlayer/SmartPlayerOld.cs:36-40 | The record is empty after the round ends. The model keeps the hand as it is, since `base.EndRound()` is not modelled. |
| `SmartPlayer.EndTurnsAppends` | Source/AI/Santase.AI.SmartPlayer/SmartPlayerOld.cs:42-46 | Reporting any number of tricks appends their cards two per trick, in order, after the cards already recorded. |
| `SmartPlayer.RoundRecordsOnlyItsTricks` | Source/AI/Santase.AI.SmartPlayer/SmartPlayerOld.cs:36-46 | After a round boundary the record holds exactly the cards of the tricks reported since, so its length is twice their number. |
| `SureWin.SureWinCard` | Source/AI/Santase.AI.SmartPlayer/SmartPlayerOld.cs:160-185 | Gives nothing when the hand has no card of the suit. Any card it gives is a highest-value card of that suit in hand. |
| `SureWin.SureWinExactlyWhen` | Source/AI/Santase.AI.SmartPlayer/SmartPlayerOld.cs:160-185 | A card is given exactly when the hand has the suit and either (a) the opponent has no trump and no inferable card of the suit, or (b) some card of the suit in hand is above every inferable opponent card. |
| `SureWin.SureWinNoneWhenOpponentMatches` | Source/AI/Santase.AI.SmartPlayer/SmartPlayerOld.cs:169-184 | Nothing is given when an inferable opponent card is worth at least as much as every card of the suit in hand. |
| `SureWin.SureWinForSuit` | Source/AI/Santase.AI.SmartPlayer/SmartPlayerOld.cs:160-172 | With the opponent's inferable cards asked for the suit, a card it gives is from the hand, not the legal cards, and is of that suit. |
| `SureWin.FirstSureWin` | Source/AI/Santase.AI.SmartPlayer/SmartPlayerOld.cs:129-136 | Scanning the suits in order gives the sure-win card of the first suit that has one, and gives nothing exactly when no suit has one. |
| `Announcer.TryToAnnounce20Or40` | Source/AI/Santase.AI.SmartPlayer/SmartPlayerOld.cs:270-295 | Returns only Queens, and only from the legal cards. |
| `Announcer.TryToAnnounceChoice` | Source/AI/Santase.AI.SmartPlayer/SmartPlayerOld.cs:270-295 | If any legal Queen gives 40, the first such Queen in legal order is returned. Otherwise the first legal Queen giving 20 is returned. Nothing is returned exactly when no legal Queen gives 40 or 20. |
| `Strategies.LeadWhenRulesDoNotApply` | Source/AI/Santase.AI.SmartPlayer/SmartPlayerOld.cs:69-110 | The led card is always one of the legal cards. |
| `Strategies.LeadWhenRulesDoNotApplyTiers` | Source/AI/Santase.AI.SmartPlayer/SmartPlayerOld.cs:69-110 | Tiers in order: (1) an announce; (2) the highest legal trump; this tier fires exactly when the points plus its value reach 66 and no inferable opponent trump is worth as much; (3) the first smallest legal non-trump; (4) with only trumps legal, the first largest card. |
| `Strategies.FinishingTrumpIsBiggest` | Source/AI/Santase.AI.SmartPlayer/SmartPlayerOld.cs:77-96 | The code tests the first maximal legal trump against the first maximal opponent trump. That test holds exactly when some legal trump finishes the round, and that trump is then the one the code found. |
| `Strategies.LeadWhenRulesApply` | Source/AI/Santase.AI.SmartPlayer/SmartPlayerOld.cs:112-158 | The led card is legal, or it is a card of the hand that the sure-win check returns for its own suit. |
| `Strategies.LeadWhenRulesApplyTiers` | Source/AI/Santase.AI.SmartPlayer/SmartPlayerOld.cs:112-158 | Tiers in order: (1) the trump sure-win card; (2) the sure-win card of the first suit in enumeration order that has one; (3) with no sure win, a legal card: an announce, else the first smallest non-trump, else the first smallest card. |
| `Strategies.TrumpDefence` | Source/AI/Santase.AI.SmartPlayer/SmartPlayerOld.cs:208-233 | Any defence card is a legal card of the trump suit. |
| `Strategies.FollowWhenRulesDoNotApply` | Source/AI/Santase.AI.SmartPlayer/SmartPlayerOld.cs:187-238 | The answering card is always one of the legal cards. |
| `Strategies.FollowWhenRulesDoNotApplyTiers` | Source/AI/Santase.AI.SmartPlayer/SmartPlayerOld.cs:187-238 | (1) The highest legal beating card is played unless it splits the hand's Queen-King pair; then no lower beater is tried. (2) Against a led Ace or Ten: trump Jack; else trump Nine if the trump card is a Jack; else trump Queen if trump King was played; else trump King if trump Queen was played. (3) Else the first smallest card. |
| `Strategies.MarriageSkipPlaysSmallest` | Source/AI/Santase.AI.SmartPlayer/SmartPlayerOld.cs:195-237 | When the Queen-King exception skips the highest beating card, the led card cannot be an Ace or a Ten, so the first smallest legal card is played. |
| `Strategies.FollowWhenRulesApply` | Source/AI/Santase.AI.SmartPlayer/SmartPlayerOld.cs:240-268 | The answering card is always one of the legal cards. |
| `Strategies.FollowWhenRulesApplyTiers` | Source/AI/Santase.AI.SmartPlayer/SmartPlayerOld.cs:240-268 | If some legal card beats the led card in its suit, the highest such card is played. Otherwise the lowest legal trump is played if there is one. Otherwise the first smallest card is played. |
| `Strategies.FollowStrategiesAgreeWithoutMarriage` | Source/AI/Santase.AI.SmartPlayer/SmartPlayerOld.cs:187-268 | When the highest beating card splits no Queen-King pair, both following strategies play it. The Queen-King exception is the only difference in their first tier. |
| `Strategies.SmallestCard` | Source/AI/Santase.AI.SmartPlayer/SmartPlayerOld.cs:236-237 | The smallest-card fallback is the first minimal-value legal card. |
| `Strategies.BiggestCard` | Source/AI/Santase.AI.SmartPlayer/SmartPlayerOld.cs:108-109 | The largest-card fallback is the first maximal-value legal card. |
| `Ordering.FirstMinByValue` | Source/AI/Santase.AI.SmartPlayer/SmartPlayerOld.cs:99-102 | `Where(p).OrderBy(GetValue).FirstOrDefault()` gives nothing exactly when no card satisfies `p`. Otherwise it gives the first card of minimal value among those satisfying `p`. |
| `Ordering.FirstMaxByValue` | Source/AI/Santase.AI.SmartPlayer/SmartPlayerOld.cs:81-84 | The `OrderByDescending` form gives nothing exactly when no card satisfies `p`. Otherwise it gives the first card of maximal value among those satisfying `p`. |
| `Ordering.FirstWhere` | Source/AI/Santase.AI.SmartPlayer/SmartPlayerOld.cs:273-281 | A `foreach` with an early return gives nothing exactly when no card matches. Otherwise it gives the first matching card. |
| `Ordering.FirstMinByValueIsFirstMin` | Source/AI/Santase.AI.SmartPlayer/SmartPlayerOld.cs:156 | The stable ascending query gives a card exactly when that card is the first minimal one, so the stable tie-break is fully determined. |
| `Ordering.FirstMaxByValueIsFirstMax` | Source/AI/Santase.AI.SmartPlayer/SmartPlayerOld.cs:108 | The stable descending query gives a card exactly when that card is the first maximal one. |
| `Ordering.FirstWhereIsFirst` | Source/AI/Santase.AI.SmartPlayer/SmartPlayerOld.cs:284-291 | The first-match scan gives a card exactly when that card is the first matching one. |
| `Ordering.FirstExtremaAreExtrema` | Source/AI/Santase.AI.SmartPlayer/SmartPlayerOld.cs:162-163 | The first minimal card is at most every card that passes the filter, and the first maximal card is at least every such card. |
| `Ordering.CountWhere` | Source/AI/Santase.AI.SmartPlayer/SmartPlayerOld.cs:53 | The count of matching cards is at most the hand size. It is zero exactly when no card matches, and equals the hand size exactly when every card matches. |
| `Ordering.CountWhereSingleton` | Source/AI/Santase.AI.SmartPlayer/SmartPlayerOld.cs:53 | A one-card sequence counts one exactly when its card matches, and zero otherwise. |
| `Ordering.CountWhereAppend` | Source/AI/Santase.AI.SmartPlayer/SmartPlayerOld.cs:53 | The count over a concatenation is the sum of the counts. With the one-card case this fixes the count as the number of matching cards, as `Count(pred)` returns. |
| `Scenarios.LeadsSureTrump` | Source/AI/Santase.AI.SmartPlayer/SmartPlayerOld.cs:117-127 | Leading under the rules with no opponent spade inferable, the highest trump spade is led. |
| `Scenarios.TrumpJackAgainstAce` | Source/AI/Santase.AI.SmartPlayer/SmartPlayerOld.cs:209-214 | Following a led Ace without rules, the trump Jack is played. |
| `Scenarios.AnnouncesTwenty` | Source/AI/Santase.AI.SmartPlayer/SmartPlayerOld.cs:71-75 | Leading without rules, a Queen that announces 20 is played before the smallest non-trump. |
| `Scenarios.KeepsMarriage` | Source/AI/Santase.AI.SmartPlayer/SmartPlayerOld.cs:195-237 | Following a led heart Jack without rules while holding the heart Queen and King and a diamond Nine: the beating King is held back because its Queen is in hand, and the diamond Nine is played. |
| `Scenarios.RulesIgnoreMarriage` | Source/AI/Santase.AI.SmartPlayer/SmartPlayerOld.cs:245-253 | In the same position under the rules, the beating heart King is played. |
| `Scenarios.TieGoesToFirst` | Source/AI/Santase.AI.SmartPlayer/SmartPlayerOld.cs:236 | Among a heart Ten, a diamond Nine and a club Nine, the smallest-card query picks the diamond Nine: the first of the two equally small cards. |

## Left out

- `BasePlayer` plumbing is not modelled: `Name`, the changes that `PlayCard` and `ChangeTrump` make to the hand, and whatever `base.EndRound()` (SmartPlayerOld.cs:39) does. The base class is not part of this model, so `EndRound` keeps the hand as it is. `PlayCard` is a `BasePlayer` method: the model's `Action` carries no announce, and where a 20 or 40 is attached is not modelled.
- The collaborators' behaviour is not modelled: `PlayerActionValidator`, `AnnounceValidator` and `OpponentSuitCardsProvider`. Their source files are not part of this model. They are opaque function parameters, so nothing is proved about how the opponent's cards are inferred.
- Game rules are not modelled: trick winners, scoring, drawing and shuffling. The player file does not implement them.
- The unused `trumpCard` parameter of the sure-win check and the excluded-card argument of the opponent-card query are dropped: the policy always passes null for both.
- `EndTurn` takes the trick's two cards directly, not the turn context. The game loop supplies both cards at the end of a trick, so the null card the context could in principle hold is not modelled.
- An empty legal-card sequence and a missing led card when following are preconditions, not error paths; both are assumed of the callers, and `GetTurn` asks for them only on the card-choice path. With an empty legal-card sequence the code would play a null card (for example `FirstOrDefault()` then `PlayCard` at SmartPlayerOld.cs:108-109 and :236-237), unless it leads under the rules and the sure-win check finds a card in hand (SmartPlayerOld.cs:123-135); the model excludes that case as well. With no led card it would throw when reading `context.FirstPlayedCard.Suit` (SmartPlayerOld.cs:192 and :247).
- Round points are unbounded integers. The code compares them with `66 - value` on small numbers, so 32-bit wrap-around cannot occur.
- The sure-win card is not claimed to be a legal card, because the code takes it from the hand, not from the legal cards.
