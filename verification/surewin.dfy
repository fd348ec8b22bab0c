/**
  The sure-win check: the player's best card of a suit surely takes the trick
  when, by elimination, the opponent cannot beat it.
 */
module SureWin {
  import opened Options
  import opened Cards
  import opened Ordering

  /**
    The player's highest card of `suit` when it surely wins, given the
    opponent's inferable cards of that suit and whether the opponent may hold
    a trump; `None` otherwise.
   */
  function SureWinCard(suit: Suit, hand: seq<Card>, opponentCards: seq<Card>, opponentHasTrump: bool): (r: Option<Card>)
    ensures (forall c :: c in hand ==> c.suit != suit) ==> r.None?
    ensures r.Some? ==> IsMax(hand, OfSuit(suit), r.value)
  {
    var mine := FirstMaxByValue(hand, OfSuit(suit));
    if mine.None? then None
    else
      FirstExtremaAreExtrema(hand, OfSuit(suit), mine.value);
      var theirs := FirstMaxByValue(opponentCards, AnyCard);
      if !opponentHasTrump && theirs.None? then mine
      else if theirs.Some? && Value(theirs.value) < Value(mine.value) then mine
      else None
  }

  /**
    Exactly when the check succeeds: the hand holds a card of `suit`, and
    either the opponent has no trump and no inferable card of the suit, or
    some card of the suit in hand is above every inferable opponent card.
   */
  lemma SureWinExactlyWhen(suit: Suit, hand: seq<Card>, opponentCards: seq<Card>, opponentHasTrump: bool)
    ensures SureWinCard(suit, hand, opponentCards, opponentHasTrump).Some? <==>
      && (exists c :: c in hand && c.suit == suit)
      && ((!opponentHasTrump && |opponentCards| == 0)
          || (|opponentCards| > 0
              && exists c :: c in hand && c.suit == suit && forall o :: o in opponentCards ==> Value(o) < Value(c)))
  {
    var mine := FirstMaxByValue(hand, OfSuit(suit));
    var theirs := FirstMaxByValue(opponentCards, AnyCard);
    if mine.Some? {
      FirstExtremaAreExtrema(hand, OfSuit(suit), mine.value);
      if theirs.Some? {
        FirstExtremaAreExtrema(opponentCards, AnyCard, theirs.value);
        assert |opponentCards| > 0;
        if Value(theirs.value) < Value(mine.value) {
          assert forall o :: o in opponentCards ==> Value(o) < Value(mine.value);
        } else {
          forall c | c in hand && c.suit == suit
            ensures exists o :: o in opponentCards && Value(c) <= Value(o)
          {
            assert theirs.value in opponentCards;
          }
        }
      } else {
        assert |opponentCards| == 0 by {
          if |opponentCards| > 0 {
            assert AnyCard(opponentCards[0]);
          }
        }
      }
    }
  }

  /** The check gives nothing once the opponent may hold a card of the suit worth at least as much. */
  lemma SureWinNoneWhenOpponentMatches(suit: Suit, hand: seq<Card>, opponentCards: seq<Card>, opponentHasTrump: bool, o: Card)
    requires o in opponentCards
    requires forall c :: c in hand && c.suit == suit ==> Value(c) <= Value(o)
    ensures SureWinCard(suit, hand, opponentCards, opponentHasTrump).None?
  {
    SureWinExactlyWhen(suit, hand, opponentCards, opponentHasTrump);
  }

  /** `GetCardWhichWillSurelyWinTheTrick` with its collaborator call spelled out. */
  function SureWinForSuit(
    suit: Suit, hand: seq<Card>, playedCards: seq<Card>,
    opponentCards: (seq<Card>, seq<Card>, Suit) -> seq<Card>, opponentHasTrump: bool): (r: Option<Card>)
    ensures r.Some? ==> r.value in hand && r.value.suit == suit
  {
    SureWinCard(suit, hand, opponentCards(hand, playedCards, suit), opponentHasTrump)
  }

  /** `suits[i]` is the first suit of `suits` whose sure-win check succeeds. */
  ghost predicate FirstSureWinAt(
    suits: seq<Suit>, hand: seq<Card>, playedCards: seq<Card>,
    opponentCards: (seq<Card>, seq<Card>, Suit) -> seq<Card>, opponentHasTrump: bool, i: int)
  {
    && 0 <= i < |suits|
    && SureWinForSuit(suits[i], hand, playedCards, opponentCards, opponentHasTrump).Some?
    && forall j :: 0 <= j < i ==> SureWinForSuit(suits[j], hand, playedCards, opponentCards, opponentHasTrump).None?
  }

  /** The first suit of `suits`, in order, whose sure-win check succeeds, and its card. */
  function FirstSureWin(
    suits: seq<Suit>, hand: seq<Card>, playedCards: seq<Card>,
    opponentCards: (seq<Card>, seq<Card>, Suit) -> seq<Card>, opponentHasTrump: bool): (r: Option<Card>)
    ensures r.None? <==>
      forall i :: 0 <= i < |suits| ==> SureWinForSuit(suits[i], hand, playedCards, opponentCards, opponentHasTrump).None?
    ensures r.Some? ==>
      exists i :: FirstSureWinAt(suits, hand, playedCards, opponentCards, opponentHasTrump, i)
        && SureWinForSuit(suits[i], hand, playedCards, opponentCards, opponentHasTrump) == r
    decreases |suits|
  {
    if |suits| == 0 then None
    else
      var here := SureWinForSuit(suits[0], hand, playedCards, opponentCards, opponentHasTrump);
      if here.Some? then
        assert FirstSureWinAt(suits, hand, playedCards, opponentCards, opponentHasTrump, 0);
        here
      else
        var rest := FirstSureWin(suits[1..], hand, playedCards, opponentCards, opponentHasTrump);
        FirstSureWinAtShift(suits, hand, playedCards, opponentCards, opponentHasTrump);
        rest
  }

  /** Past a first suit whose check fails, the first successful suit of the rest is the first overall. */
  lemma FirstSureWinAtShift(
    suits: seq<Suit>, hand: seq<Card>, playedCards: seq<Card>,
    opponentCards: (seq<Card>, seq<Card>, Suit) -> seq<Card>, opponentHasTrump: bool)
    requires |suits| > 0
    requires SureWinForSuit(suits[0], hand, playedCards, opponentCards, opponentHasTrump).None?
    ensures forall k :: FirstSureWinAt(suits[1..], hand, playedCards, opponentCards, opponentHasTrump, k) ==>
      && FirstSureWinAt(suits, hand, playedCards, opponentCards, opponentHasTrump, k + 1)
      && suits[k + 1] == suits[1..][k]
  {
    forall k | FirstSureWinAt(suits[1..], hand, playedCards, opponentCards, opponentHasTrump, k)
      ensures FirstSureWinAt(suits, hand, playedCards, opponentCards, opponentHasTrump, k + 1)
    {
      forall j | 0 <= j < k + 1
        ensures SureWinForSuit(suits[j], hand, playedCards, opponentCards, opponentHasTrump).None?
      {
        if j > 0 {
          assert suits[j] == suits[1..][j - 1];
        }
      }
    }
  }
}
