/**
  The value-ordered queries the policy is built from. In `SmartPlayerOld` a
  query is `Where(p).OrderBy(GetValue).FirstOrDefault()` (or `OrderByDescending`);
  both orderings are stable, so among cards of equal value the one that comes
  first in the sequence wins. `FirstMinByValue(s, p)` and `FirstMaxByValue(s, p)`
  reproduce that choice, and `FirstWhere(s, p)` is a plain first-match scan.
 */
module Ordering {
  import opened Options
  import opened Cards

  /** Index `i` holds the first card of minimal value among the cards of `s` satisfying `p`. */
  ghost predicate FirstMinAt(s: seq<Card>, p: Card -> bool, i: int)
  {
    && 0 <= i < |s|
    && p(s[i])
    && (forall j :: 0 <= j < |s| && p(s[j]) ==> Value(s[i]) <= Value(s[j]))
    && (forall j :: 0 <= j < i && p(s[j]) ==> Value(s[i]) < Value(s[j]))
  }

  /** Index `i` holds the first card of maximal value among the cards of `s` satisfying `p`. */
  ghost predicate FirstMaxAt(s: seq<Card>, p: Card -> bool, i: int)
  {
    && 0 <= i < |s|
    && p(s[i])
    && (forall j :: 0 <= j < |s| && p(s[j]) ==> Value(s[j]) <= Value(s[i]))
    && (forall j :: 0 <= j < i && p(s[j]) ==> Value(s[j]) < Value(s[i]))
  }

  /** Index `i` holds the first card of `s` satisfying `p`. */
  ghost predicate FirstAt(s: seq<Card>, p: Card -> bool, i: int)
  {
    && 0 <= i < |s|
    && p(s[i])
    && (forall j :: 0 <= j < i ==> !p(s[j]))
  }

  ghost predicate IsFirstMin(s: seq<Card>, p: Card -> bool, c: Card)
  {
    exists i :: FirstMinAt(s, p, i) && s[i] == c
  }

  ghost predicate IsFirstMax(s: seq<Card>, p: Card -> bool, c: Card)
  {
    exists i :: FirstMaxAt(s, p, i) && s[i] == c
  }

  ghost predicate IsFirst(s: seq<Card>, p: Card -> bool, c: Card)
  {
    exists i :: FirstAt(s, p, i) && s[i] == c
  }

  /** The filter that keeps every card. */
  function AnyCard(c: Card): bool
  {
    true
  }

  function FirstMinIndex(s: seq<Card>, p: Card -> bool): (r: Option<nat>)
    ensures r.None? <==> (forall j :: 0 <= j < |s| ==> !p(s[j]))
    ensures r.Some? ==> FirstMinAt(s, p, r.value)
    decreases |s|
  {
    if |s| == 0 then None
    else
      var rest := FirstMinIndex(s[1..], p);
      if rest.None? then
        if p(s[0]) then Some(0) else None
      else if p(s[0]) && Value(s[0]) <= Value(s[rest.value + 1]) then Some(0)
      else Some(rest.value + 1)
  }

  function FirstMaxIndex(s: seq<Card>, p: Card -> bool): (r: Option<nat>)
    ensures r.None? <==> (forall j :: 0 <= j < |s| ==> !p(s[j]))
    ensures r.Some? ==> FirstMaxAt(s, p, r.value)
    decreases |s|
  {
    if |s| == 0 then None
    else
      var rest := FirstMaxIndex(s[1..], p);
      if rest.None? then
        if p(s[0]) then Some(0) else None
      else if p(s[0]) && Value(s[rest.value + 1]) <= Value(s[0]) then Some(0)
      else Some(rest.value + 1)
  }

  function FirstIndex(s: seq<Card>, p: Card -> bool): (r: Option<nat>)
    ensures r.None? <==> (forall j :: 0 <= j < |s| ==> !p(s[j]))
    ensures r.Some? ==> FirstAt(s, p, r.value)
    decreases |s|
  {
    if |s| == 0 then None
    else if p(s[0]) then Some(0)
    else
      var rest := FirstIndex(s[1..], p);
      if rest.None? then None else Some(rest.value + 1)
  }

  /** `s.Where(p).OrderBy(GetValue).FirstOrDefault()`. */
  function FirstMinByValue(s: seq<Card>, p: Card -> bool): (r: Option<Card>)
    ensures r.None? <==> (forall c :: c in s ==> !p(c))
    ensures r.Some? ==> r.value in s && p(r.value) && IsFirstMin(s, p, r.value)
  {
    var i := FirstMinIndex(s, p);
    if i.None? then None else Some(s[i.value])
  }

  /** `s.Where(p).OrderByDescending(GetValue).FirstOrDefault()`. */
  function FirstMaxByValue(s: seq<Card>, p: Card -> bool): (r: Option<Card>)
    ensures r.None? <==> (forall c :: c in s ==> !p(c))
    ensures r.Some? ==> r.value in s && p(r.value) && IsFirstMax(s, p, r.value)
  {
    var i := FirstMaxIndex(s, p);
    if i.None? then None else Some(s[i.value])
  }

  /** The first card of `s` satisfying `p`, as a `foreach` with an early return finds it. */
  function FirstWhere(s: seq<Card>, p: Card -> bool): (r: Option<Card>)
    ensures r.None? <==> (forall c :: c in s ==> !p(c))
    ensures r.Some? ==> r.value in s && p(r.value) && IsFirst(s, p, r.value)
  {
    var i := FirstIndex(s, p);
    if i.None? then None else Some(s[i.value])
  }

  /** A maximal card of `s` under `p` has no card of `s` under `p` above it. */
  ghost predicate IsMax(s: seq<Card>, p: Card -> bool, c: Card)
  {
    c in s && p(c) && forall d :: d in s && p(d) ==> Value(d) <= Value(c)
  }

  /** A minimal card of `s` under `p` has no card of `s` under `p` below it. */
  ghost predicate IsMin(s: seq<Card>, p: Card -> bool, c: Card)
  {
    c in s && p(c) && forall d :: d in s && p(d) ==> Value(c) <= Value(d)
  }

  /** At most one index is the first minimum, so `IsFirstMin` names exactly one card. */
  lemma FirstMinAtUnique(s: seq<Card>, p: Card -> bool, i: int, k: int)
    requires FirstMinAt(s, p, i) && FirstMinAt(s, p, k)
    ensures i == k
  {
  }

  lemma FirstMaxAtUnique(s: seq<Card>, p: Card -> bool, i: int, k: int)
    requires FirstMaxAt(s, p, i) && FirstMaxAt(s, p, k)
    ensures i == k
  {
  }

  /** The stable ascending query returns exactly the first minimal card. */
  lemma FirstMinByValueIsFirstMin(s: seq<Card>, p: Card -> bool, c: Card)
    ensures FirstMinByValue(s, p) == Some(c) <==> IsFirstMin(s, p, c)
  {
    if IsFirstMin(s, p, c) {
      var i :| FirstMinAt(s, p, i) && s[i] == c;
      var r := FirstMinIndex(s, p);
      assert r.Some?;
      FirstMinAtUnique(s, p, i, r.value);
    }
  }

  /** The stable descending query returns exactly the first maximal card. */
  lemma FirstMaxByValueIsFirstMax(s: seq<Card>, p: Card -> bool, c: Card)
    ensures FirstMaxByValue(s, p) == Some(c) <==> IsFirstMax(s, p, c)
  {
    if IsFirstMax(s, p, c) {
      var i :| FirstMaxAt(s, p, i) && s[i] == c;
      var r := FirstMaxIndex(s, p);
      assert r.Some?;
      FirstMaxAtUnique(s, p, i, r.value);
    }
  }

  /** The first-match scan returns exactly the first matching card. */
  lemma FirstWhereIsFirst(s: seq<Card>, p: Card -> bool, c: Card)
    ensures FirstWhere(s, p) == Some(c) <==> IsFirst(s, p, c)
  {
    if IsFirst(s, p, c) {
      var i :| FirstAt(s, p, i) && s[i] == c;
      var r := FirstIndex(s, p);
      assert r.Some?;
    }
  }

  /** The first minimum is a minimum, and the first maximum a maximum. */
  lemma FirstExtremaAreExtrema(s: seq<Card>, p: Card -> bool, c: Card)
    ensures IsFirstMin(s, p, c) ==> IsMin(s, p, c)
    ensures IsFirstMax(s, p, c) ==> IsMax(s, p, c)
  {
    if IsFirstMin(s, p, c) {
      var i :| FirstMinAt(s, p, i) && s[i] == c;
      forall d | d in s && p(d) ensures Value(c) <= Value(d) {
        var j :| 0 <= j < |s| && s[j] == d;
      }
    }
    if IsFirstMax(s, p, c) {
      var i :| FirstMaxAt(s, p, i) && s[i] == c;
      forall d | d in s && p(d) ensures Value(d) <= Value(c) {
        var j :| 0 <= j < |s| && s[j] == d;
      }
    }
  }

  /** Number of cards of `s` satisfying `p` (`Count(p)` in `SmartPlayerOld`). */
  function CountWhere(s: seq<Card>, p: Card -> bool): (n: nat)
    ensures n <= |s|
    ensures n == 0 <==> (forall c :: c in s ==> !p(c))
    ensures n == |s| <==> (forall c :: c in s ==> p(c))
  {
    if |s| == 0 then 0
    else (if p(s[0]) then 1 else 0) + CountWhere(s[1..], p)
  }

  /** A single card counts one exactly when it satisfies `p`. */
  lemma CountWhereSingleton(c: Card, p: Card -> bool)
    ensures CountWhere([c], p) == if p(c) then 1 else 0
  {
  }

  /**
    Counting is additive over concatenation; with `CountWhereSingleton` this
    fixes the count as the number of positions of `s` whose card satisfies `p`.
   */
  lemma {:induction false} CountWhereAppend(s: seq<Card>, t: seq<Card>, p: Card -> bool)
    ensures CountWhere(s + t, p) == CountWhere(s, p) + CountWhere(t, p)
  {
    if |s| > 0 {
      assert (s + t)[1..] == s[1..] + t;
      CountWhereAppend(s[1..], t, p);
    } else {
      assert s + t == t;
    }
  }
}
