/** The game logic inside the request handlers of app.py: the player-name check of the
    new-game and join routes, and the moves the state and play routes compose. */
module Routes {
  import opened Cards
  import opened Deck
  import opened Engine

  datatype Option<T> = None | Some(value: T)

  /** Outcome of the player-name check. */
  datatype NameCheck = NameAccepted | NameMissing | NameReserved {
    function Message(): string
      requires this != NameAccepted
    {
      match this
      case NameMissing => "Имя игрока обязательно"
      case NameReserved => "Имя 'bot' зарезервировано"
    }
  }

  /** `str.lower` on one character, for the ASCII letters. */
  function LowerChar(c: char): char {
    if 'A' <= c <= 'Z' then (c as int - 'A' as int + 'a' as int) as char else c
  }

  /** `str.lower` on ASCII letters. A string lowercases to "bot" exactly when it is "bot"
      in some mix of upper and lower case. */
  function Lower(s: string): (r: string)
    ensures r == "bot" <==> |s| == 3 && s[0] in "bB" && s[1] in "oO" && s[2] in "tT"
  {
    var r := seq(|s|, i requires 0 <= i < |s| => LowerChar(s[i]));
    assert |r| == |s| && forall i :: 0 <= i < |s| ==> r[i] == LowerChar(s[i]);
    r
  }

  /** The name check of the new-game and join routes: a missing or empty name is refused,
      and so is "bot" in any mix of upper and lower case. */
  function CheckPlayerName(name: Option<string>): (r: NameCheck)
    ensures r == NameMissing <==> name == None || name == Some("")
    ensures r == NameReserved <==>
              name.Some? && |name.value| == 3
              && name.value[0] in "bB" && name.value[1] in "oO" && name.value[2] in "tT"
  {
    if name == None || name.value == "" then NameMissing
    else if Lower(name.value) == "bot" then NameReserved
    else NameAccepted
  }

  /** The new-game route: check the name, then start a session. */
  method NewGame(name: Option<string>, verbs: seq<VerbRecord>, draws: seq<nat>) returns (check: NameCheck, g: Game?)
    requires CheckPlayerName(name) == NameAccepted ==> 4 * |verbs| >= 21 && |draws| == 4 * |verbs|
    ensures check == CheckPlayerName(name)
    ensures g != null <==> check == NameAccepted
    ensures g != null ==>
              fresh(g) && g.Valid() && g.currentTurn == Player && g.noValidMovesCount == 0
              && |g.playerHand| == 10 && |g.botHand| == 10 && |g.discardPile| == 1
              && |g.deck| == 4 * |verbs| - 21
              && g.AllCards() == multiset(Catalog(verbs))
  {
    check := CheckPlayerName(name);
    if check != NameAccepted {
      return check, null;
    }
    g := new Game(verbs, draws);
  }

  /** The state route: when no card of the player matches the top card, the player draws
      (which hands the turn to the bot) and the bot moves at once against the same top
      card; then the view is built. */
  method StateRequest(g: Game) returns (v: View)
    requires g.Valid()
    requires !HasMatch(g.playerHand, g.Top()) ==>
               |g.deck| > 1 || (|g.deck| == 1 && HasMatch(g.botHand, g.Top()))
    modifies g
    ensures g.Valid()
    ensures v == g.GetState()
    ensures HasMatch(old(g.playerHand), old(g.Top())) ==> unchanged(g)
    ensures !HasMatch(old(g.playerHand), old(g.Top())) ==>
              g.playerHand == old(g.playerHand) + [old(g.deck)[|old(g.deck)| - 1]]
              && g.currentTurn == Player
    ensures !HasMatch(old(g.playerHand), old(g.Top())) ==>
              BotAnswer(old(g.botHand), old(g.deck)[..|old(g.deck)| - 1], old(g.discardPile),
                        old(g.noValidMovesCount), g.botHand, g.deck, g.discardPile, g.noValidMovesCount)
    ensures g.AllCards() == old(g.AllCards())
  {
    var playable := g.CheckIfPlayable();
    if !playable {
      g.PullOneMoreCard(Player);
      var _ := g.BotMove();
    }
    v := g.GetState();
  }

  /** The play route: the player plays `card`; after a successful play the bot answers at
      once against the new top card `card`, so the turn is back with the player when the
      request ends. The play has just reset the streak, so the bot's answer is a play or a
      single draw, never the replacement of the top card. */
  method PlayRequest(g: Game, card: Card) returns (r: PlayResult, botResult: Option<BotResult>)
    requires g.Valid()
    requires (g.currentTurn == Player && card in g.playerHand && Compatible(card, g.Top())
              && !HasMatch(g.botHand, card)) ==> |g.deck| > 0
    modifies g
    ensures g.Valid()
    ensures r == (if old(g.currentTurn) != Player then NotYourTurn
                  else if card !in old(g.playerHand) then CardNotHeld
                  else if !Compatible(card, old(g.Top())) then InvalidMove
                  else Played)
    ensures !r.Success() ==> unchanged(g) && botResult == None
    ensures r.Success() ==>
              g.playerHand == RemoveFirst(old(g.playerHand), card) && g.currentTurn == Player
    ensures r.Success() && HasMatch(old(g.botHand), card) ==>
              var i := FirstMatch(old(g.botHand), card);
              botResult == Some(BotPlayed)
              && g.botHand == old(g.botHand)[..i] + old(g.botHand)[i + 1..]
              && g.discardPile == old(g.discardPile) + [card, old(g.botHand)[i]]
              && g.deck == old(g.deck)
              && g.noValidMovesCount == 0
    ensures r.Success() && !HasMatch(old(g.botHand), card) ==>
              botResult == Some(BotDrew)
              && g.botHand == old(g.botHand) + [old(g.deck)[|old(g.deck)| - 1]]
              && g.discardPile == old(g.discardPile) + [card]
              && g.deck == old(g.deck)[..|old(g.deck)| - 1]
              && g.noValidMovesCount == 1
    ensures g.AllCards() == old(g.AllCards())
  {
    ghost var hand, deck, pile := g.botHand, g.deck, g.discardPile;
    r := g.PlayCard(Player, card);
    if !r.Success() {
      return r, None;
    }
    assert g.botHand == hand && g.deck == deck && g.discardPile == pile + [card]
      && g.currentTurn == Bot && g.noValidMovesCount == 0;
    var b := AnswerPlay(g, card, pile);
    botResult := Some(b);
  }

  /** The bot's answer inside the play route: the streak is 0 and the played `card` is on
      top of `pile`, so the bot plays its first card matching `card` or draws once. */
  method AnswerPlay(g: Game, card: Card, ghost pile: seq<Card>) returns (b: BotResult)
    requires g.Valid() && g.currentTurn == Bot && g.noValidMovesCount == 0
    requires g.discardPile == pile + [card]
    requires !HasMatch(g.botHand, card) ==> |g.deck| > 0
    modifies g
    ensures g.Valid() && g.currentTurn == Player && g.playerHand == old(g.playerHand)
    ensures HasMatch(old(g.botHand), card) ==>
              var i := FirstMatch(old(g.botHand), card);
              b == BotPlayed
              && g.botHand == old(g.botHand)[..i] + old(g.botHand)[i + 1..]
              && g.discardPile == pile + [card, old(g.botHand)[i]]
              && g.deck == old(g.deck)
              && g.noValidMovesCount == 0
    ensures !HasMatch(old(g.botHand), card) ==>
              b == BotDrew
              && g.botHand == old(g.botHand) + [old(g.deck)[|old(g.deck)| - 1]]
              && g.discardPile == pile + [card]
              && g.deck == old(g.deck)[..|old(g.deck)| - 1]
              && g.noValidMovesCount == 1
    ensures g.AllCards() == old(g.AllCards())
  {
    ghost var hand, deck := g.botHand, g.deck;
    b := g.BotMove();
    BotAnswerAfterPlay(hand, deck, pile, card, g.botHand, g.deck, g.discardPile, g.noValidMovesCount);
  }
}
