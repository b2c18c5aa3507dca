/** Cards, the two roles and the matching rule of the card-game engine (app.py, class Game). */
module Cards {

  /** A card as the engine unpacks it: (displayed form, base verb, form index).
      Cards are plain values: two cards with equal fields are the same card. */
  datatype Card = Card(form: string, verb: string, index: int)

  /** The two hand keys of the engine, which are also the two values of its turn owner. */
  datatype Role = Player | Bot {
    /** The role that moves after this one. */
    function Other(): (r: Role)
      ensures r != this
    {
      if this == Player then Bot else Player
    }
  }

  /** The matching rule: a card may go onto `top` when it has the same form index
      or the same base verb. */
  predicate Compatible(card: Card, top: Card) {
    card.index == top.index || card.verb == top.verb
  }

  /** Some card of `hand` may go onto `top`. */
  ghost predicate HasMatch(hand: seq<Card>, top: Card) {
    exists i :: 0 <= i < |hand| && Compatible(hand[i], top)
  }

  /** The position the bot's scan stops at: the first card of `hand` compatible with
      `top`, or |hand| when there is none. */
  function FirstMatch(hand: seq<Card>, top: Card): (i: nat)
    ensures i <= |hand|
    ensures i < |hand| ==> Compatible(hand[i], top)
    ensures forall j :: 0 <= j < i ==> !Compatible(hand[j], top)
    ensures i == |hand| <==> !HasMatch(hand, top)
  {
    if hand == [] then 0
    else if Compatible(hand[0], top) then 0
    else 1 + FirstMatch(hand[1..], top)
  }

  /** The scan loop of the bot's move: walks the hand in order and stops at the first
      compatible card. */
  method FirstCompatible(hand: seq<Card>, top: Card) returns (i: nat)
    ensures i == FirstMatch(hand, top)
  {
    i := 0;
    while i < |hand| && !Compatible(hand[i], top)
      invariant i <= |hand|
      invariant forall j :: 0 <= j < i ==> !Compatible(hand[j], top)
    {
      i := i + 1;
    }
  }

  /** Python's `list.remove`: deletes the first element equal to `x`
      (the source calls it only after checking that `x` is present). */
  function RemoveFirst<T(==)>(s: seq<T>, x: T): (r: seq<T>)
    requires x in s
    ensures |r| == |s| - 1
    ensures multiset(r) == multiset(s) - multiset{x}
  {
    if s[0] == x then
      assert s == [s[0]] + s[1..];
      s[1..]
    else
      assert s == [s[0]] + s[1..];
      [s[0]] + RemoveFirst(s[1..], x)
  }

  /** Removing by value deletes exactly the position of the first occurrence. */
  lemma {:induction false} RemoveFirstAt<T>(s: seq<T>, x: T, i: nat)
    requires i < |s| && s[i] == x
    requires forall j :: 0 <= j < i ==> s[j] != x
    ensures RemoveFirst(s, x) == s[..i] + s[i + 1..]
  {
    if i > 0 {
      RemoveFirstAt(s[1..], x, i - 1);
      RemoveFirstSkipsHead(s, x);
      SpliceAfterHead(s, i);
    }
  }

  /** One unfolding of `RemoveFirst` when the head is not the removed value. */
  lemma RemoveFirstSkipsHead<T>(s: seq<T>, x: T)
    requires x in s && s[0] != x
    ensures RemoveFirst(s, x) == [s[0]] + RemoveFirst(s[1..], x)
  {
  }

  /** Cutting out position i keeps the head in front of the tail with position i - 1 cut out. */
  lemma SpliceAfterHead<T>(s: seq<T>, i: nat)
    requires 0 < i < |s|
    ensures s[..i] + s[i + 1..] == [s[0]] + (s[1..][..i - 1] + s[1..][i..])
  {
  }

  /** When the bot removes the first compatible card by value, it removes that very
      position: no earlier card can be equal to it, since an equal card would match too. */
  lemma {:induction false} FirstMatchRemoval(hand: seq<Card>, top: Card)
    requires FirstMatch(hand, top) < |hand|
    ensures var i := FirstMatch(hand, top);
            RemoveFirst(hand, hand[i]) == hand[..i] + hand[i + 1..]
  {
    var i := FirstMatch(hand, top);
    forall j | 0 <= j < i
      ensures hand[j] != hand[i]
    {
      assert !Compatible(hand[j], top);
    }
    RemoveFirstAt(hand, hand[i], i);
  }
}
