/**
  `TryToAnnounce20Or40`: among the legal cards, a Queen whose play the announce
  validator rates as a 40 is preferred to one rated as a 20; within each pass
  the order of the legal cards decides.
 */
module Announcer {
  import opened Options
  import opened Cards
  import opened Game
  import opened Ordering

  /** The filter keeping the Queens that the validator rates as `announce` for this hand and trump card. */
  function QueenGiving(
    possibleAnnounce: (seq<Card>, Card, Card) -> Announce,
    hand: seq<Card>, trumpCard: Card, announce: Announce): Card -> bool
  {
    (c: Card) => c.rank == Queen && possibleAnnounce(hand, c, trumpCard) == announce
  }

  function TryToAnnounce20Or40(
    legal: seq<Card>, hand: seq<Card>, trumpCard: Card,
    possibleAnnounce: (seq<Card>, Card, Card) -> Announce): (r: Option<Card>)
    ensures r.Some? ==> r.value in legal && r.value.rank == Queen
  {
    var forty := FirstWhere(legal, QueenGiving(possibleAnnounce, hand, trumpCard, Forty));
    if forty.Some? then forty
    else FirstWhere(legal, QueenGiving(possibleAnnounce, hand, trumpCard, Twenty))
  }

  /**
    The announce helper's choice, pass by pass: the first legal Queen giving
    40 if there is one; otherwise the first legal Queen giving 20; otherwise
    nothing.
   */
  lemma TryToAnnounceChoice(
    legal: seq<Card>, hand: seq<Card>, trumpCard: Card,
    possibleAnnounce: (seq<Card>, Card, Card) -> Announce)
    ensures var r := TryToAnnounce20Or40(legal, hand, trumpCard, possibleAnnounce);
      && ((exists c :: c in legal && c.rank == Queen && possibleAnnounce(hand, c, trumpCard) == Forty) ==>
            r.Some? && possibleAnnounce(hand, r.value, trumpCard) == Forty
            && IsFirst(legal, QueenGiving(possibleAnnounce, hand, trumpCard, Forty), r.value))
      && ((forall c :: c in legal && c.rank == Queen ==> possibleAnnounce(hand, c, trumpCard) != Forty)
          && (exists c :: c in legal && c.rank == Queen && possibleAnnounce(hand, c, trumpCard) == Twenty) ==>
            r.Some? && possibleAnnounce(hand, r.value, trumpCard) == Twenty
            && IsFirst(legal, QueenGiving(possibleAnnounce, hand, trumpCard, Twenty), r.value))
      && (r.None? <==>
            forall c :: c in legal && c.rank == Queen ==>
              possibleAnnounce(hand, c, trumpCard) != Forty && possibleAnnounce(hand, c, trumpCard) != Twenty)
  {
    var forty := QueenGiving(possibleAnnounce, hand, trumpCard, Forty);
    var twenty := QueenGiving(possibleAnnounce, hand, trumpCard, Twenty);
    assert forall c :: forty(c) <==> c.rank == Queen && possibleAnnounce(hand, c, trumpCard) == Forty;
    assert forall c :: twenty(c) <==> c.rank == Queen && possibleAnnounce(hand, c, trumpCard) == Twenty;
  }
}
