/**
  The card model the policy reads: four suits, six ranks, and the point value
  of a card. The value table is the usual Santase one; the card type itself is
  not part of this model, so the table is an assumption about `Card.GetValue`.
 */
module Cards {

  datatype Suit = Club | Diamond | Heart | Spade

  datatype Rank = Nine | Jack | Queen | King | Ten | Ace

  datatype Card = Card(suit: Suit, rank: Rank)

  /** The suits in the declaration order of the suit enumeration. */
  const AllSuits: seq<Suit> := [Club, Diamond, Heart, Spade]

  /** Point value of a card: 9=0, J=2, Q=3, K=4, 10=10, A=11. */
  function Value(c: Card): (v: nat)
    ensures v <= 11
  {
    match c.rank
    case Nine => 0
    case Jack => 2
    case Queen => 3
    case King => 4
    case Ten => 10
    case Ace => 11
  }

  /** The filter keeping the cards of `suit`. */
  function OfSuit(suit: Suit): Card -> bool
  {
    (c: Card) => c.suit == suit
  }

  /** The filter keeping the cards not of `suit`. */
  function NotOfSuit(suit: Suit): Card -> bool
  {
    (c: Card) => c.suit != suit
  }

  /** Within one suit, the value identifies the card. */
  lemma ValueIdentifiesCardInSuit(a: Card, b: Card)
    requires a.suit == b.suit && Value(a) == Value(b)
    ensures a == b
  {
  }
}
