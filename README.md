# Starke-Verben-Duell game engine in Dafny

This project models the engine of a two-hand card-matching game for learning German strong
verbs. The engine is the `Game` class of `app.py`. Each verb of a catalog yields four cards:
the infinitive, the 3rd person present, the preterite and the past participle. Every card
carries its displayed form, its base verb (the infinitive) and its form index 0..3. A card
may be played onto the top of the discard pile when it has the same form index or the same
base verb.

The session state is a mutable object, so it is a Dafny `class Game` whose methods update
its fields in place:
- a deck used as a stack, where `pop()` takes the last card;
- the player's hand and the bot's hand;
- an append-only discard pile whose last card is the top card;
- the turn owner;
- the count of consecutive bot turns without a legal move.

Modules:
- `Cards` (cards.dfy): the card and role types, the matching rule, Python's `list.remove`,
  and the bot's first-match scan.
- `Deck` (deck.dfy): the verb records, the deck-building loop, and the shuffle.
- `Engine` (game.dfy): the `Game` class with its constructor and every operation of the
  engine.
- `Routes` (routes.dfy): the game steps of the request handlers. These are the player-name
  check of the new-game and join routes, the state route (the player draws when no card
  matches, then the bot moves), and the play route (after a successful play the bot answers
  at once).

Every state-changing method states the whole new state in terms of the old one; the
constructor and `NewGame` state the sizes, turn, streak and card multiset of the new session.
The bot's move is specified once, by the relation `BotAnswer` between the state before and
after it, which `BotMove` and both routes use. Each operation of the engine also proves
card conservation: the multiset of deck, both hands and discard pile (`Game.AllCards`) is
unchanged. The deal steps inside `DealCards` are the exception; conservation is proved once
for the whole deal. The object invariant `Game.Valid` says the discard pile has
a top card and that the no-move streak stays below three between operations.

Where the tests and the code disagree, the model follows the code in `app.py`. The tests
expect some behaviour that `app.py` does not implement:
- a draw from an empty deck being a no-op;
- win detection;
- an "opponent" seat;
- four-field cards.

None of these is modelled.

## Model

| member | source | states |
|---|---|---|
| Cards.FirstMatch | app.py:99-100 | the first position of the hand whose card shares form index or base verb with the top card; it equals the hand size exactly when no card matches |
| Cards.FirstCompatible | app.py:99-100 | the bot's scan loop stops exactly at `FirstMatch`: every earlier card fails the matching rule |
| Cards.RemoveFirst | app.py:88 | `list.remove` on a present value leaves one card fewer, and the multiset of the hand loses exactly one occurrence of that value |
| Cards.RemoveFirstAt | app.py:88 | removing a value deletes exactly the position of its first occurrence and keeps the order of the rest |
| Cards.FirstMatchRemoval | app.py:99-101 | when the bot removes its first compatible card by value, it removes that very position, because no earlier card can equal it |
| Deck.CatalogLength | app.py:59-66 | N verb records give exactly 4N cards |
| Deck.CatalogAt | app.py:60-66 | card 4i+k of the unshuffled deck is form k of record i: form index k, base verb the infinitive of record i |
| Deck.CatalogIndexCount | app.py:60-66 | each form index 0..3 occurs exactly N times among the 4N cards |
| Deck.CatalogMember | app.py:60-66 | every card of the unshuffled deck has form index 0..3 and is that form of some catalog record |
| Deck.CountIndexPermutation | app.py:67 | reordering the cards does not change how many carry a given form index |
| Deck.BuildDeck | app.py:59-66 | the build loop yields the concatenation of the records' four-card families in catalog order |
| Deck.Shuffle | app.py:67 | the shuffled deck is a permutation of its input: same length and same multiset |
| Deck.ShuffledCatalog | app.py:59-67 | any deck the build loop and the shuffle can produce, that is any permutation of the catalog's cards, holds 4N cards with N of each form index, and every card is a form of a catalog verb |
| Engine.Game.constructor | app.py:59-72 | a new session builds the catalog deck, shuffles it, deals 10 cards to each hand and 1 to the discard pile, leaves 4N-21 cards in the deck, gives the player the first turn with the streak at 0, and holds exactly the catalog's cards |
| Engine.Game.PopDeck | app.py:76-78 | `deck.pop()` returns the last card and removes it from the deck |
| Engine.ServedAt | app.py:75-77 | when the deal pops 2k cards in k rounds, each hand receives k cards: the first-served hand gets positions -1, -3, ... from the end of the popped stretch, the second-served hand gets positions -2, -4, ... |
| Engine.ServedConserve | app.py:75-77 | the two hands together receive exactly the popped cards, with no card lost or duplicated |
| Engine.Game.DealCards | app.py:74-78 | the player receives the first-served cards of the last 20, the bot the second-served ones, each hand grows by 10, the 21st card from the end becomes the top card, the deck shrinks by 21, and no card is gained or lost |
| Engine.Game.DealHands | app.py:75-77 | the ten deal rounds pop the last 20 cards of the deck, alternating between the player and the bot |
| Engine.Game.DealRound | app.py:75-77 | one deal round gives the last card to the player and the next to the bot |
| Engine.Game.PlayCard | app.py:80-93 | the play fails with nothing changed when it is not the actor's turn, the card is not in the actor's hand, or it matches neither the top card's index nor its verb. Otherwise one occurrence leaves the actor's hand, the card becomes the top card, the turn flips, the streak resets, and the deck is untouched |
| Engine.Game.PlayAccepted | app.py:87-92 | an accepted play removes one occurrence of the card from the actor's hand and puts it on the discard pile, leaves the other hand and the deck alone, passes the turn, resets the streak and conserves the cards |
| Engine.Game.BotMove | app.py:95-114 | the move fails with nothing changed unless it is the bot's turn. Otherwise the turn goes to the player, the player's hand is untouched, the report is `BotReport` (played, drew, or replaced the top), and the bot's hand, deck, discard pile and streak change exactly as `BotAnswer` says: the first compatible card is played, or the last deck card is drawn, and the third pass in a row also moves the next deck card onto the discard pile (nothing when the deck is empty) and resets the streak |
| Engine.BotAnswerAfterPlay | app.py:88-114 | right after a play (streak 0, the played card on top) the bot either plays its first card matching that card, putting it on the pile after the played card, or draws once with the streak going to 1; the report is never the top-card replacement |
| Engine.Game.BotPlays | app.py:98-105 | playing the first compatible card removes that position from the bot's hand, puts the card on top, passes the turn and resets the streak |
| Engine.Game.NoValidMove | app.py:107-114 | with no compatible card the bot draws, the streak grows by one, and on reaching three the top card is replaced (a no-op when the draw emptied the deck) and the streak returns to 0 |
| Engine.Game.PullOneMoreCard | app.py:116-118 | the role takes the last deck card and the turn passes to the other role; the other hand, the discard pile and the streak are unchanged |
| Engine.Game.ReplaceTopCard | app.py:120-122 | the last deck card goes onto the discard pile when the deck is non-empty, otherwise nothing changes; hands, turn and streak are never touched |
| Engine.Game.CheckIfPlayable | app.py:132-137 | true exactly when some card of the player's hand passes the same matching test `PlayCard` applies against the top card |
| Engine.ViewHidesBotCards | app.py:124-130 | two sessions that differ only in which cards the bot holds (same number) give the same view |
| Routes.Lower | app.py:162 | a name lowercases to "bot" exactly when it is "bot" in some mix of upper and lower case |
| Routes.CheckPlayerName | app.py:160-163 | a name is refused as missing exactly when absent or empty, and as reserved exactly when it is "bot" in some mix of upper and lower case; the join route applies the same check (app.py:176-179) |
| Routes.NewGame | app.py:156-169 | a session is created exactly when the name check passes; it is freshly dealt: 10 cards per hand, one on the discard pile, 4N-21 left in the deck, the player to move, the streak at 0, and exactly the catalog's cards |
| Routes.StateRequest | app.py:195-205 | nothing changes when the player has a matching card. Otherwise the player draws the last deck card, then the bot answers against the unchanged top card from the deck without that card, exactly as `BotAnswer` says, and the turn is the player's again; cards are conserved |
| Routes.PlayRequest | app.py:208-219 | the play succeeds or fails as `PlayCard` decides, and a failure changes nothing. After a success the bot answers against the played card: it plays its first compatible card (reported as played, both cards on the discard pile, deck unchanged, streak 0) or draws the last deck card (reported as a draw, streak 1); the top card is never replaced here, and the turn is the player's again |
| Routes.AnswerPlay | app.py:214-215 | the bot's answer in the play route, with the streak at 0 and the played card on top: it plays its first card matching that card (both cards end up on the discard pile, deck unchanged, streak 0) or draws the last deck card (streak 1); the turn returns to the player and cards are conserved |

## Left out

- Flask routing, the JSON request and response shapes, `render_template` and the front end (the JavaScript files): these are I/O and UI. Only the game steps inside the handlers are modelled.
- Persistence is not part of this model: the `GameState` table, `save_state`, rehydrating a session in `Game(game_id)`, and the process-global `games` registry. These are database and process state. A JSON round trip also turns card tuples into lists; that is a serialisation artefact.
- The join route's seat logic (compare with, or store, the persisted player name) works on the database record; only its name check is modelled.
- `load_verbs` reads a file; the verb catalog is a parameter. The game id drawn with `shortuuid` is also left out.
- Deck.Shuffle: the randomness of `random.shuffle` is a parameter. The model performs CPython's Fisher-Yates swaps with the draws supplied by the caller, reducing draw i into 0..i. Uniformity over permutations is not modelled.
- Engine.Game.PullOneMoreCard: requires a non-empty deck, because `pop()` on an empty list raises. Some tests expect a silent no-op instead, which `app.py` does not do. `BotMove`, `StateRequest` and `PlayRequest` inherit the same requirement in the cases where they draw.
- Engine.Game.constructor: requires at least 21 cards, that is at least 6 verb records, because dealing pops 21 times and raises otherwise.
- Routes.CheckPlayerName: `str.lower` is modelled on ASCII letters only. No other character lowercases to "b", "o" or "t", so the outcome of the "bot" comparison is the same.
- Roles are a closed type (`Player`, `Bot`). `play_card` called with any other string is not modelled; it would fail the turn check, since the turn is always "player" or "bot".
- The streak counts only the bot's turns without a legal move, as in `bot_move`. The player's forced draw in the state route does not count.
- Win detection, a "finished" status and a winner exist only in tests. In `app.py` a play that empties a hand still just passes the turn, and that is what `PlayCard` states.
