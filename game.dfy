/** The game session engine (app.py, class Game): one deck used as a stack, the hands of
    the player and the bot, an append-only discard pile whose last card is the active top
    card, the turn owner and the count of consecutive bot turns without a legal move. */
module Engine {
  import opened Cards
  import opened Deck

  /** What a play attempt reports; `Success` and `Message` give the source's (bool, str) pair. */
  datatype PlayResult = Played | NotYourTurn | CardNotHeld | InvalidMove {
    predicate Success() {
      this == Played
    }

    function Message(): string {
      match this
      case Played => "Card played successfully."
      case NotYourTurn => "Not your turn!"
      case CardNotHeld => "You don't have that card!"
      case InvalidMove => "Invalid move!"
    }
  }

  /** What a bot move reports. */
  datatype BotResult = NotBotsTurn | BotPlayed | BotDrew | TopReplaced {
    predicate Success() {
      this != NotBotsTurn
    }

    function Message(): string {
      match this
      case NotBotsTurn => "Not bot's turn!"
      case BotPlayed => "Bot played a card."
      case BotDrew => "Bot has no valid move. He takes the card and passes the move"
      case TopReplaced => "После трех ходов без возможности сходить, верхняя карточка заменена"
    }
  }

  /** The view the engine hands out: the player's cards in full, the bot's only as a count. */
  datatype View = View(playerCards: seq<Card>, botCardsCount: nat, topCard: Card, currentTurn: Role)

  /** Number of cards dealt to each hand. */
  const HandSize: nat := 10

  /** Number of bot turns in a row without a legal move after which the top card is replaced. */
  const Strikes := 3

  /** The cards the hand served first in each round receives when the deal pops all of
      `t` from its end, two cards a round: it takes the last card, then every second one
      going down. */
  ghost function FirstServed<T>(t: seq<T>): seq<T> {
    if |t| < 2 then [] else FirstServed(t[2..]) + [t[1]]
  }

  /** The cards the hand served second in each round receives from the same deal. */
  ghost function SecondServed<T>(t: seq<T>): seq<T> {
    if |t| < 2 then [] else SecondServed(t[2..]) + [t[0]]
  }

  /** Over `rounds` rounds each hand receives `rounds` cards: the k-th card of the first
      hand comes from position -(1 + 2k) from the end, the k-th card of the second hand
      from position -(2 + 2k). */
  lemma {:induction false} ServedAt<T>(t: seq<T>, rounds: nat)
    requires |t| == 2 * rounds
    ensures |FirstServed(t)| == rounds && |SecondServed(t)| == rounds
    ensures forall k :: 0 <= k < rounds ==> FirstServed(t)[k] == t[|t| - 1 - 2 * k]
    ensures forall k :: 0 <= k < rounds ==> SecondServed(t)[k] == t[|t| - 2 - 2 * k]
  {
    if rounds > 0 {
      ServedAt(t[2..], rounds - 1);
    }
  }

  /** Dealing loses and gains no card: the two hands together receive exactly the cards
      popped from the deck. */
  lemma {:induction false} ServedConserve<T>(t: seq<T>, rounds: nat)
    requires |t| == 2 * rounds
    ensures multiset(FirstServed(t)) + multiset(SecondServed(t)) == multiset(t)
  {
    if rounds > 0 {
      var rest := t[2..];
      ServedConserve(rest, rounds - 1);
      MultisetSnoc(FirstServed(rest), t[1]);
      MultisetSnoc(SecondServed(rest), t[0]);
      MultisetDropTwo(t);
    }
  }

  lemma MultisetSnoc<T>(s: seq<T>, x: T)
    ensures multiset(s + [x]) == multiset(s) + multiset{x}
  {
  }

  lemma MultisetDropTwo<T>(t: seq<T>)
    requires |t| >= 2
    ensures multiset(t) == multiset{t[0], t[1]} + multiset(t[2..])
  {
    assert t == [t[0], t[1]] + t[2..];
  }

  /** The bot's move on its turn, as a relation between the bot's hand, the deck, the
      discard pile and the streak before the move (`hand`, `deck`, `pile`, `streak`) and
      after it (`hand'`, `deck'`, `pile'`, `streak'`). With a card matching the top of
      `pile`, the first such card leaves the hand for the pile and the streak resets.
      Otherwise the bot draws the last deck card and the streak grows; on the third strike
      the next deck card (if any) goes onto the pile and the streak resets. */
  ghost predicate BotAnswer(hand: seq<Card>, deck: seq<Card>, pile: seq<Card>, streak: nat,
                            hand': seq<Card>, deck': seq<Card>, pile': seq<Card>, streak': nat)
    requires |pile| > 0
  {
    var top := pile[|pile| - 1];
    if HasMatch(hand, top) then
      var i := FirstMatch(hand, top);
      hand' == hand[..i] + hand[i + 1..] && pile' == pile + [hand[i]]
      && deck' == deck && streak' == 0
    else
      var n := |deck|;
      n > 0 && hand' == hand + [deck[n - 1]]
      && if streak + 1 < Strikes then
           streak' == streak + 1 && deck' == deck[..n - 1] && pile' == pile
         else
           streak' == 0
           && (n >= 2 ==> deck' == deck[..n - 2] && pile' == pile + [deck[n - 2]])
           && (n == 1 ==> deck' == [] && pile' == pile)
  }

  /** What the bot's move reports on its turn. */
  ghost function BotReport(hand: seq<Card>, top: Card, streak: nat): BotResult {
    if HasMatch(hand, top) then BotPlayed
    else if streak + 1 < Strikes then BotDrew
    else TopReplaced
  }

  /** Right after a play the streak is 0 and the played card is on top, so the bot's answer
      is to play its first card matching `card` or to draw once; it never replaces the top
      card. */
  lemma BotAnswerAfterPlay(hand: seq<Card>, deck: seq<Card>, pile: seq<Card>, card: Card,
                           hand': seq<Card>, deck': seq<Card>, pile': seq<Card>, streak': nat)
    requires BotAnswer(hand, deck, pile + [card], 0, hand', deck', pile', streak')
    ensures BotReport(hand, card, 0) == (if HasMatch(hand, card) then BotPlayed else BotDrew)
    ensures HasMatch(hand, card) ==>
              var i := FirstMatch(hand, card);
              hand' == hand[..i] + hand[i + 1..] && pile' == pile + [card, hand[i]]
              && deck' == deck && streak' == 0
    ensures !HasMatch(hand, card) ==>
              |deck| > 0 && hand' == hand + [deck[|deck| - 1]] && pile' == pile + [card]
              && deck' == deck[..|deck| - 1] && streak' == 1
  {
  }

  class Game {
    var deck: seq<Card>
    var playerHand: seq<Card>
    var botHand: seq<Card>
    var discardPile: seq<Card>
    var currentTurn: Role
    var noValidMovesCount: nat

    /** Once dealt, the discard pile has a top card, and the streak is always reset
        before it reaches the strike limit. */
    ghost predicate Valid()
      reads this
    {
      |discardPile| > 0 && noValidMovesCount < Strikes
    }

    function Hand(r: Role): seq<Card>
      reads this
    {
      if r == Player then playerHand else botHand
    }

    function Top(): Card
      reads this
      requires |discardPile| > 0
    {
      discardPile[|discardPile| - 1]
    }

    /** Every card of the session, wherever it lies. */
    ghost function AllCards(): multiset<Card>
      reads this
    {
      multiset(deck) + multiset(playerHand) + multiset(botHand) + multiset(discardPile)
    }

    /** A new session: build the deck from the catalog, shuffle it, deal. */
    constructor (verbs: seq<VerbRecord>, draws: seq<nat>)
      requires 4 * |verbs| >= 21
      requires |draws| == 4 * |verbs|
      ensures Valid()
      ensures |playerHand| == 10 && |botHand| == 10 && |discardPile| == 1
      ensures |deck| == 4 * |verbs| - 21
      ensures currentTurn == Player && noValidMovesCount == 0
      ensures AllCards() == multiset(Catalog(verbs))
    {
      var built := BuildDeck(verbs);
      CatalogLength(verbs);
      var shuffled := Shuffle(built, draws);
      deck := shuffled;
      playerHand, botHand, discardPile := [], [], [];
      currentTurn := Player;
      noValidMovesCount := 0;
      new;
      DealCards();
    }

    /** `deck.pop()`: takes the last card of the deck. */
    method PopDeck() returns (c: Card)
      requires |deck| > 0
      modifies this`deck
      ensures c == old(deck)[|old(deck)| - 1]
      ensures deck == old(deck)[..|old(deck)| - 1]
      ensures multiset(old(deck)) == multiset(deck) + multiset{c}
    {
      c := deck[|deck| - 1];
      assert deck == deck[..|deck| - 1] + [c];
      deck := deck[..|deck| - 1];
    }

    /** Ten rounds of one card to the player and one to the bot, then one card onto the
        discard pile, all popped from the end of the deck. */
    method DealCards()
      requires |deck| >= 2 * HandSize + 1
      modifies this
      ensures deck == old(deck)[..|old(deck)| - 2 * HandSize - 1]
      ensures playerHand == old(playerHand) + FirstServed(old(deck)[|old(deck)| - 2 * HandSize..])
      ensures botHand == old(botHand) + SecondServed(old(deck)[|old(deck)| - 2 * HandSize..])
      ensures |playerHand| == |old(playerHand)| + HandSize && |botHand| == |old(botHand)| + HandSize
      ensures discardPile == old(discardPile) + [old(deck)[|old(deck)| - 2 * HandSize - 1]]
      ensures currentTurn == old(currentTurn) && noValidMovesCount == old(noValidMovesCount)
      ensures AllCards() == old(AllCards())
    {
      ghost var d0 := deck;
      DealHands();
      ghost var t := d0[|d0| - 2 * HandSize..];
      ServedAt(t, HandSize);
      ServedConserve(t, HandSize);
      assert d0 == deck + t;
      var c := PopDeck();
      discardPile := discardPile + [c];
    }

    /** The ten rounds of the deal. */
    method DealHands()
      requires |deck| >= 2 * HandSize
      modifies this`deck, this`playerHand, this`botHand
      ensures deck == old(deck)[..|old(deck)| - 2 * HandSize]
      ensures playerHand == old(playerHand) + FirstServed(old(deck)[|old(deck)| - 2 * HandSize..])
      ensures botHand == old(botHand) + SecondServed(old(deck)[|old(deck)| - 2 * HandSize..])
    {
      ghost var d0, p0, b0 := deck, playerHand, botHand;
      assert p0 + [] == p0 && b0 + [] == b0 && d0[..|d0|] == d0;
      for round := 0 to HandSize
        invariant deck == d0[..|d0| - 2 * round]
        invariant playerHand == p0 + FirstServed(d0[|d0| - 2 * round..])
        invariant botHand == b0 + SecondServed(d0[|d0| - 2 * round..])
        modifies this`deck, this`playerHand, this`botHand
      {
        ghost var t := d0[|d0| - 2 * round - 2..];
        assert t[2..] == d0[|d0| - 2 * round..];
        DealRound();
      }
    }

    /** One round of the deal: the player takes the last deck card, then the bot the next. */
    method DealRound()
      requires |deck| >= 2
      modifies this`deck, this`playerHand, this`botHand
      ensures deck == old(deck)[..|old(deck)| - 2]
      ensures playerHand == old(playerHand) + [old(deck)[|old(deck)| - 1]]
      ensures botHand == old(botHand) + [old(deck)[|old(deck)| - 2]]
    {
      var c := PopDeck();
      playerHand := playerHand + [c];
      c := PopDeck();
      botHand := botHand + [c];
    }

    /** `play_card`: the turn check, the membership check, then the matching rule against
        the top card; a failed attempt changes nothing. */
    method PlayCard(player: Role, card: Card) returns (r: PlayResult)
      requires Valid()
      modifies this
      ensures Valid()
      ensures r == (if player != old(currentTurn) then NotYourTurn
                    else if card !in old(Hand(player)) then CardNotHeld
                    else if !Compatible(card, old(Top())) then InvalidMove
                    else Played)
      ensures !r.Success() ==> unchanged(this)
      ensures r.Success() ==>
                Hand(player) == RemoveFirst(old(Hand(player)), card)
                && Hand(player.Other()) == old(Hand(player.Other()))
                && discardPile == old(discardPile) + [card] && Top() == card
                && deck == old(deck)
                && currentTurn == player.Other()
                && noValidMovesCount == 0
      ensures AllCards() == old(AllCards())
    {
      if player != currentTurn {
        return NotYourTurn;
      }
      if card !in Hand(player) {
        return CardNotHeld;
      }
      if Compatible(card, Top()) {
        PlayAccepted(player, card);
        return Played;
      }
      return InvalidMove;
    }

    /** The effect of an accepted play: one occurrence of `card` leaves the actor's hand
        and goes onto the discard pile, the turn passes and the streak is reset. */
    method PlayAccepted(player: Role, card: Card)
      requires Valid() && card in Hand(player)
      modifies this
      ensures Valid()
      ensures Hand(player) == RemoveFirst(old(Hand(player)), card)
      ensures Hand(player.Other()) == old(Hand(player.Other()))
      ensures discardPile == old(discardPile) + [card] && Top() == card
      ensures deck == old(deck) && currentTurn == player.Other() && noValidMovesCount == 0
      ensures AllCards() == old(AllCards())
    {
      if player == Player {
        playerHand := RemoveFirst(playerHand, card);
      } else {
        botHand := RemoveFirst(botHand, card);
      }
      discardPile := discardPile + [card];
      currentTurn := player.Other();
      noValidMovesCount := 0;
    }

    /** `bot_move`: on the bot's turn, play the first compatible card in hand order;
        otherwise draw a card and pass, and on the third such turn in a row replace the
        top card and reset the streak. Reports failure only when it is not the bot's turn. */
    method BotMove() returns (r: BotResult)
      requires Valid()
      requires currentTurn == Bot && !HasMatch(botHand, Top()) ==> |deck| > 0
      modifies this
      ensures Valid()
      ensures old(currentTurn) != Bot ==> r == NotBotsTurn && unchanged(this)
      ensures old(currentTurn) == Bot ==>
                currentTurn == Player && playerHand == old(playerHand)
                && r == BotReport(old(botHand), old(Top()), old(noValidMovesCount))
                && BotAnswer(old(botHand), old(deck), old(discardPile), old(noValidMovesCount),
                             botHand, deck, discardPile, noValidMovesCount)
      ensures AllCards() == old(AllCards())
    {
      if currentTurn != Bot {
        return NotBotsTurn;
      }
      var top := Top();
      var i := FirstCompatible(botHand, top);
      if i < |botHand| {
        BotPlays(i);
        return BotPlayed;
      }
      r := NoValidMove();
    }

    /** The bot plays the card at position `i`, the first one that matches the top card:
        it leaves the hand, goes onto the discard pile, the turn passes to the player and
        the streak is reset. */
    method BotPlays(i: nat)
      requires Valid()
      requires i == FirstMatch(botHand, Top()) && i < |botHand|
      modifies this
      ensures Valid()
      ensures botHand == old(botHand)[..i] + old(botHand)[i + 1..]
      ensures discardPile == old(discardPile) + [old(botHand)[i]]
      ensures deck == old(deck) && playerHand == old(playerHand)
      ensures currentTurn == Player && noValidMovesCount == 0
      ensures AllCards() == old(AllCards())
    {
      var card := botHand[i];
      FirstMatchRemoval(botHand, Top());
      botHand := RemoveFirst(botHand, card);
      discardPile := discardPile + [card];
      currentTurn := Player;
      noValidMovesCount := 0;
    }

    /** The bot has no legal move: it draws and passes, the streak grows, and on the
        third strike the top card is replaced and the streak reset. */
    method NoValidMove() returns (r: BotResult)
      requires Valid() && |deck| > 0
      modifies this
      ensures Valid()
      ensures botHand == old(botHand) + [old(deck)[|old(deck)| - 1]]
      ensures playerHand == old(playerHand) && currentTurn == Player
      ensures old(noValidMovesCount) + 1 >= Strikes ==>
                r == TopReplaced && noValidMovesCount == 0
                && (|old(deck)| >= 2 ==> deck == old(deck)[..|old(deck)| - 2]
                                         && discardPile == old(discardPile) + [old(deck)[|old(deck)| - 2]])
                && (|old(deck)| == 1 ==> deck == [] && discardPile == old(discardPile))
      ensures old(noValidMovesCount) + 1 < Strikes ==>
                r == BotDrew && noValidMovesCount == old(noValidMovesCount) + 1
                && deck == old(deck)[..|old(deck)| - 1] && discardPile == old(discardPile)
      ensures AllCards() == old(AllCards())
    {
      ghost var d, n := deck, |deck|;
      PullOneMoreCard(Bot);
      assert botHand == old(botHand) + [d[n - 1]] && deck == d[..n - 1];
      noValidMovesCount := noValidMovesCount + 1;
      if noValidMovesCount >= Strikes {
        assert n >= 2 ==> deck[..n - 2] == d[..n - 2] && deck[n - 2] == d[n - 2];
        ReplaceTopCard();
        noValidMovesCount := 0;
        return TopReplaced;
      }
      return BotDrew;
    }

    /** `pull_one_more_card`: the role takes the last card of the deck and the turn passes
        to the other role. The deck must not be empty. */
    method PullOneMoreCard(role: Role)
      requires |deck| > 0
      modifies this
      ensures Hand(role) == old(Hand(role)) + [old(deck)[|old(deck)| - 1]]
      ensures Hand(role.Other()) == old(Hand(role.Other()))
      ensures deck == old(deck)[..|old(deck)| - 1]
      ensures currentTurn == role.Other()
      ensures discardPile == old(discardPile) && noValidMovesCount == old(noValidMovesCount)
      ensures AllCards() == old(AllCards())
    {
      var c := PopDeck();
      if role == Player {
        playerHand := playerHand + [c];
      } else {
        botHand := botHand + [c];
      }
      currentTurn := role.Other();
    }

    /** `replace_top_card`: moves the last deck card onto the discard pile, or does nothing
        when the deck is empty. Hands, turn and streak are untouched. */
    method ReplaceTopCard()
      modifies this
      ensures |old(deck)| > 0 ==>
                deck == old(deck)[..|old(deck)| - 1]
                && discardPile == old(discardPile) + [old(deck)[|old(deck)| - 1]]
      ensures |old(deck)| == 0 ==> deck == old(deck) && discardPile == old(discardPile)
      ensures playerHand == old(playerHand) && botHand == old(botHand)
      ensures currentTurn == old(currentTurn) && noValidMovesCount == old(noValidMovesCount)
      ensures AllCards() == old(AllCards())
    {
      if |deck| > 0 {
        var c := PopDeck();
        discardPile := discardPile + [c];
      }
    }

    /** `check_if_playable`: whether some card of the player's hand passes the same
        matching test `PlayCard` applies against the top card. */
    method CheckIfPlayable() returns (b: bool)
      requires Valid()
      ensures b <==> HasMatch(playerHand, Top())
    {
      var top := Top();
      for i := 0 to |playerHand|
        invariant forall j :: 0 <= j < i ==> !Compatible(playerHand[j], top)
      {
        if Compatible(playerHand[i], top) {
          return true;
        }
      }
      return false;
    }

    /** `get_state`: the player's hand, the size of the bot's hand, the top card and the turn. */
    function GetState(): View
      reads this
      requires Valid()
    {
      View(playerHand, |botHand|, Top(), currentTurn)
    }
  }

  /** The view depends on the bot's hand only through its size: two sessions that differ
      only in which cards the bot holds look the same. */
  lemma ViewHidesBotCards(g: Game, h: Game)
    requires g.Valid() && h.Valid()
    requires g.playerHand == h.playerHand && g.discardPile == h.discardPile
    requires g.currentTurn == h.currentTurn && |g.botHand| == |h.botHand|
    ensures g.GetState() == h.GetState()
  {
  }
}
