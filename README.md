# pocket-rocket table core in Dafny

This project models the core of `prp.py`, a poker table whose replicas share one append-only log file.

Every replica tails the log and feeds each line to `Tournament.process`. That call dispatches on the first word of the line: `hands`, `add-player`, `owner`, `new_game`, `move`, `show_cards`, `chat`, or anything else. It updates the replica's player list, its `ready_to_deal` flag and its current `Game`, then recomputes the prompt with `set_prompt`.

The owner's replica holds the deck. When the owner types D, `validate_move` deals two cards to every seat. Each hand is broadcast as a `hands <name> -> <token>` line, whose token wraps the cards in a fixed prefix and suffix (`Player.hash`). Any other move the local player types becomes one canonical `move …` line, but only when it is that player's turn.

Modules, one file each:

- `wrappers.dfy`:
  - `Option`, `Result` and `Outcome`;
  - `Failures.Error`, the Python exceptions the core can raise: `InvalidCommandError`, `IndexError`, `ValueError`, `AttributeError` and `ZeroDivisionError`.
- `text.dfy`: the parts of Python string handling the log protocol relies on.
  - `str.split()` with no separator, using Python's own whitespace set.
  - `" ".join`.
  - `str(int)`.
  - `int(str)`, with its sign and `_` separator rules.
- `concealment.dfy`: `Player.hash` and `Player.unhash`.
- `cards.dfy`:
  - the `Deck` class, whose `wholeDeck` and `dealt` lists are updated in place;
  - `random.sample`, modelled as an arbitrary choice of distinct cards;
  - `list.remove`.
- `table.dfy`:
  - the `Player` record;
  - the `Game` class, which holds the turn cursor, the local cards and the optional deck;
  - the `Tournament` class, with `process` and its handlers and `set_prompt`;
  - the log lines the table writes;
  - the replay loop.
- `commands.dfy`: the command tables, `parse_line` and `validate_move`.

How the Python maps onto the model:

- **Globals.** `PLAYER.name` becomes the `Tournament.localName` field. `TOURNAMENT` becomes the `Tournament` argument of `ValidateMove`.
- **Log writes.** Lines the source hands to `async_write` are returned as sequences. `Process` and `DealHands` return theirs as `emitted`. `Replay` returns `appended`, which starts with the local player's own `add-player` line, written before the first line is read.
- **Exceptions.** An exception the source would raise is returned as an `Err` value. Any state change made before the raise is kept, as in Python.
- **Player objects.** They are records. `Game.__init__` sets `active_in_game` on Player objects that the table's own list also holds. The model updates both copies: the game's seats in the constructor, and the table's list through `MarkSeated`.
- **The cursor.** `Game.moves` is a ghost counter of the `move` lines applied so far. It states the turn order `to_play == dealer + 3 + moves`.
- **`ready_to_deal`.** A `new_game` line does not clear it. Only a `hands` line, or the owner's own DEAL, clears it.
- **DEAL.** `validate_move` changes table state itself in the DEAL branch: it clears `ready_to_deal` and deals.

## Model

| member | source | states |
|---|---|---|
| Text.Split | prp.py:237 | `str.split()`: every word it yields is non-empty and holds no whitespace |
| Text.SplitJoin | prp.py:234-237 | splitting a line that was joined from whitespace-free words with single spaces gives back exactly those words |
| Text.SplitToken | prp.py:137 | a single whitespace-free word splits to itself |
| Text.SplitOfJoinedSplit | prp.py:234 | `" ".join(m[1:])` of a move line keeps its words: splitting the joined text again gives the same words |
| Text.NatToString | prp.py:292 | `str(n)` of a non-negative number is non-empty decimal digits, with a leading `0` only for zero |
| Text.IntToString | prp.py:292-295 | `str(i)` is a single whitespace-free word, so it survives the split of the line it is written into |
| Text.ParseInt | prp.py:249 | `int(s)` succeeds only on input that starts with a digit or a sign; input starting with a digit gives a non-negative value |
| Text.ParseNatRoundTrip | prp.py:141 | `int(str(n)) == n`, and `str(n)` starts with a digit |
| Text.ParseNegativeRoundTrip | prp.py:249 | `int("-" + str(n)) == -n` |
| Text.ParseIntRoundTrip | prp.py:249 | `int(str(i)) == i` for every integer (CPython adds a digit limit, see Left out), so the dealer index of a `new_game` line reads back unchanged |
| Concealment.Hash | prp.py:359-360 | the token is the prefix, then the hand, then the suffix: 15 characters longer than the hand |
| Concealment.Unhash | prp.py:357-358 | `h[7:-8]`: for 15 or more characters, the middle part between the prefix and the suffix; otherwise the empty string |
| Concealment.UnhashHash | prp.py:357-360 | `unhash(hash(s)) == s` for every string |
| Concealment.HashInjective | prp.py:359-360 | two hands share a token exactly when they are equal |
| Concealment.HashUnhash | prp.py:357-360 | `hash(unhash(h)) == h` exactly when `h` has at least 15 characters and carries the prefix and the suffix |
| Concealment.HashKeepsToken | prp.py:331 | the token of a whitespace-free hand is itself whitespace-free |
| Cards.FullDeck | prp.py:338-341 | the fresh deck has 13 × 4 = 52 cards |
| Cards.FullDeckCards | prp.py:338-341 | each card is a rank character followed by a suit character, with no whitespace |
| Cards.FullDeckComplete | prp.py:341 | every rank and suit combination is in the fresh deck |
| Cards.FullDeckDistinct | prp.py:341 | no card occurs twice in the fresh deck |
| Cards.Sample | prp.py:344 | `random.sample(population, n)`: `n` distinct members of the population |
| Cards.IndexOf | prp.py:346 | the position of the first occurrence of the card |
| Cards.RemoveFirst | prp.py:346 | `list.remove(x)` drops exactly one occurrence of `x`, and the length goes down by one |
| Cards.RemoveEach | prp.py:346 | removing each chosen card in turn takes exactly the chosen multiset out of the list |
| Cards.Deck.constructor | prp.py:340-342 | a new deck holds the full deck undealt and nothing dealt |
| Cards.Deck.Disjoint | prp.py:337-347 | under conservation, the undealt and dealt piles are disjoint, neither repeats a card, and together they hold 52 cards |
| Cards.Deck.Deal | prp.py:343-347 | `deal(n)` returns `n` distinct cards taken from the undealt pile, appends them to `dealt` and removes exactly those; conservation is kept; asking for more cards than remain is a `ValueError` that changes nothing |
| Table.NewPlayer | prp.py:349-356 | a new player has the name, key and chips given, is not seated in a game, and is active in the tournament |
| Table.ActivePlayers | prp.py:248 | the comprehension keeps exactly the players active in the tournament, never more players than the table has, and the whole list in order when all are active |
| Table.ActivePlayersSnoc | prp.py:248 | the comprehension keeps the table's order: a player added last is seated last, if active |
| Table.ActivePlayersUnique | prp.py:248 | the seats of a new game have distinct names when the table's players do |
| Table.MarkSeated | prp.py:319-320 | `active_in_game` is set on every player active in the tournament, and nothing else changes: names, keys, chips, the tournament flag, the order and the uniqueness of names are kept, and inactive players are left as they were |
| Table.AddPlayerRequestParses | prp.py:291-292 | `add_player_request`: an `add-player` request splits back into the verb, the name, the key and the chip count |
| Table.StartGameRequestParses | prp.py:294-295 | `start_game_request`: a `new_game d` line splits into two words whose second parses back to `d` |
| Table.HandsLineParses | prp.py:328-331 | `deal_hand_message` over `hash("-".join(cards))`: a `hands` line splits into four words naming the player, and its fourth word decodes to the dealt hand |
| Table.HandsLinesAt | prp.py:328-331 | the `i`-th line of a deal is the `hands` line of the `i`-th seat, with its concealed pair |
| Table.Game.constructor | prp.py:307-320 | the seats are the given players with `active_in_game` set; the cursor starts at `dealer + 3`; `my_cards` is `None`; only the owner gets a fresh full deck |
| Table.Game.NextToPlay | prp.py:322-323 | after `k` moves, the name of seat `(dealer + 3 + k) mod the number of seats`, which is always one of the game's seats |
| Table.Game.AdvancePlayer | prp.py:325-326 | the cursor moves on by exactly one seat |
| Table.Game.DealTo | prp.py:330-331 | one seat's turn of the loop: two cards move from the undealt pile to `dealt`, and the line emitted is that seat's `hands` line with the concealed pair; an exhausted deck is a `ValueError` |
| Table.Game.DealHands | prp.py:328-331 | one `hands` line per seat, in seat order, until the deck runs out; `dealt` grows by exactly the hands that were announced, and the deck shrinks by two cards per announced seat; a replica without a deck fails at the first seat |
| Table.Tournament.constructor | prp.py:201-208 | no players, ready to deal, no game, and the owner's or the observer's waiting prompt |
| Table.Tournament.NextToPlay | prp.py:297-301 | `"dealer"` when there is no game; otherwise the seat the cursor points at, one of the game's seats; a game with no seats is a `ZeroDivisionError` |
| Table.Tournament.PromptAfter | prp.py:263-281 | the owner's deal prompt while dealing is allowed with two or more seats; "waiting for X" mid-hand, with X the player to move; otherwise the previous prompt; it fails exactly when mid-hand with no seats |
| Table.Tournament.SetPrompt | prp.py:263-281 | the prompt becomes the one the rule chooses, and a failure leaves it unchanged |
| Table.Tournament.ProcessHands | prp.py:211-221 | dealing is over; on the named player's own replica the decoded cards become `my_cards`; elsewhere only the raw token is shown; the cursor does not move |
| Table.Tournament.ProcessAddPlayer | prp.py:223-230 | a new name is appended once, with 500 chips whatever the line says, and answered by one `new_game 0` line; a known name changes nothing and emits nothing, so registration is idempotent; names stay unique |
| Table.Tournament.ProcessMove | prp.py:232-234 | whatever the move says, the cursor advances by exactly one and the move's words are shown joined; with no game it is an `AttributeError` |
| Table.Tournament.ProcessNewGame | prp.py:246-249 | only while `ready_to_deal`: a fresh Game over a snapshot of the active players, with the dealer index read from the line; a missing or malformed index raises with nothing changed; otherwise nothing changes |
| Table.Tournament.ProcessAsOwner | prp.py:284-286 | `process_as_owner` shows nothing |
| Table.Tournament.Dispatch | prp.py:236-257 | the dispatch on the first word, verb by verb; an `owner` line changes nothing on any replica; an unknown verb is shown verbatim; an empty line is an `IndexError`; the only line ever emitted is `new_game 0` |
| Table.Tournament.Process | prp.py:236-261 | the handler's effect, then `set_prompt` only if the handler did not raise; the result is the handler's display, or the prompt's error |
| Table.Tournament.DealHands | prp.py:288-289 | with no game it is an `AttributeError`; otherwise the game's deal |
| Table.NonBlank | prp.py:95-99 | the lines `read_forever` yields, never more than the log holds |
| Table.NonBlankSnoc | prp.py:95-99 | reading one more log line adds it to the yielded lines exactly when it is not blank, after the earlier ones |
| Table.NonBlankLines | prp.py:95-99 | every yielded line is a non-blank line of the log |
| Table.RegisteredExtends | prp.py:225-226 | registration only appends: the names known before stay first and in order, and distinct names stay distinct |
| Table.RegisteredKnows | prp.py:225-226 | after a run of lines, the name of every `add-player` line among them is known |
| Table.RegisteredIdempotent | prp.py:225-226 | feeding the same lines again to a table that has seen them registers nobody new |
| Table.AnswersAt | prp.py:225-227 | the `i`-th call writes back `new_game 0` exactly when its line is an `add-player` line with a key whose name the table did not know yet, and nothing otherwise |
| Table.AnswersCount | prp.py:225-227 | a replay writes back one `new_game 0` per name it registers, and nothing else |
| Table.Feed | prp.py:190-191 | one `process` call keeps the table well-formed; it registers the line's name exactly when the line is an `add-player` line with a key and a new name, and then writes back `new_game 0`, otherwise nothing; a line whose handler cannot raise fails only when `set_prompt` does, mid-hand with nobody seated |
| Table.Replay | prp.py:186-197 | the registration line is written first; then every non-blank line, in order, is fed to `process` until the first exception or the end of the log; the table stays well-formed (unique names, cursor, deck conservation); its names end up as the registrations of the fed lines, in order; the lines written are the registration line followed by each call's answer as `AnswersAt` states it; a replay that ends early ends at a line whose handler can raise, or with nobody seated mid-hand |
| Commands.MoveCommandsAreMoves | prp.py:41-59 | a spelling is a `MOVE` command of `LOOKUP_COMMANDS` exactly when it is in `LOOKUP_MOVE_COMMANDS` |
| Commands.ShortcutLetters | prp.py:41-59 | the one-character spellings are `h p $ ? s r c x f d`, none of them whitespace |
| Commands.NoDigitSecond | prp.py:41-59 | no spelling has a digit for its second character |
| Commands.ParseLine | prp.py:136-143 | an empty line is an `IndexError`; a known first word gives its command and all the words; otherwise a known first letter followed by a digit gives a shortcut whose number `int()` reads, or a `ValueError` when `int()` rejects the rest; anything else is rejected with `"nope: " + line`; every case in both directions |
| Commands.ParseKeywordLine | prp.py:138-139 | a line of known words parses to that command over exactly those words |
| Commands.ParseShortcutLine | prp.py:140-141 | a shortcut letter glued to a number parses to that letter and that number |
| Commands.MoveValue | prp.py:157-165 | `move[1]` as `format` renders it: a word move's second word, or the decimal text of a shortcut's number, which reads back to that number; an `IndexError` exactly for a word move with no second word |
| Commands.MoveLine | prp.py:156-165 | the local player's move line; it fails, with `IndexError`, exactly for a raise, call or all-in that lacks a value |
| Commands.MoveLineParses | prp.py:156-165 | every replica reads a move line back as `move`, the player's name, then the words of the action |
| Commands.MoveTextParses | prp.py:156-165 | each format string of `validate_move` splits into `move`, the name and the action's words |
| Commands.TurnMove | prp.py:154-165 | exactly one move line, and only when it is the local player's turn; otherwise "WAIT YOUR TURN", or the error of `next_to_play` |
| Commands.ValidateMove | prp.py:145-167 | DEAL by the owner while ready clears the flag and deals the current game (`AttributeError` with no game); DEAL otherwise is "you cant do this now" and changes nothing; any other move is the turn check and its single line, with nothing changed |

## Left out

- The event loop, `read_forever`, `async_write`, `write_to_file` and `on_std_input`: file I/O and concurrency. The log is a sequence of lines, and appended lines are returned as sequences.
- Replay: `read_forever` strips each line before `process` sees it. The model passes the line as given, so an unknown verb is shown with any surrounding whitespace it carries.
- Replay: the model does not render `process_common_output`'s display or prompt.
- Table.Replay: `shown` holds one entry per call that returned, but the entries are not tied to what each `process` call displayed. The handlers' effects on the game and the prompt, which `Tournament.Process` states, are not carried through the replay loop. The loop keeps the registered names, the lines written back and the well-formedness of the table.
- Table.Feed: passes on only the registration, write-back and failure facts of `Tournament.Process`; its display, prompt and per-handler clauses are not restated, to keep the replay loop's proof small.
- The lower-casing in `on_std_input`: `ParseLine` takes the line as typed. After lower-casing, the two-character chips spelling `Â£` can never be typed, because it becomes `â£`.
- `on_std_input` catches only `InvalidCommandError`, `IndexError` and `ValueError`: the model returns every error as a value.
- `on_std_input` with a DEAL: `validate_move` returns `None`, which `on_std_input` hands to `async_write`. `ValidateMove` returns `Ok(None)` and leaves what the caller does with it out.
- The `invalid?` branch of `validate_move` is left out. It cannot be reached, because every move spelling has one of the six kinds.
- ANSI colours, `escaped`, `prompt`, `clear_up_line`, `print_help` and `log_exception`: terminal rendering only. Colours are a four-valued tag.
- The HUD line of `set_prompt`, and the hard-coded `shared_cards` and HUD numbers. `Prompt.WaitingFor` keeps only the name on the first line.
- `random.sample`'s distribution: the model chooses any `n` distinct undealt cards and makes no probabilistic claim.
- `print_status`, `print_history`, `print_chips` and `Game.process_move`: empty stubs.
- `build_parser`, `check_valid_files` and the main block: CLI and filesystem setup.
- Fields the core never reads: `Tournament.current_players` and `Tournament.dealer`, `Player.cards`, and `Game.deal_cards_message`. The colour that `process` pairs with `""` for `new_game`, `show_cards` and `chat` is kept as `Plain`.
- Text.ParseInt: CPython refuses to convert a decimal string of more than 4300 digits and raises `ValueError`. The model reads a number of any length, so a `new_game` line with such an index starts a game where the source would end the replay.
- Text.IntToString: `str()` of an integer of more than 4300 digits raises `ValueError` in CPython. The model writes it out.
- Text.ParseIntRoundTrip: holds only for integers of at most 4300 digits in CPython, because of that limit; the model states it for every integer. Dealer indices and chip counts in the core are small.
- `Text.ParseInt`: `int()` also accepts surrounding whitespace and non-ASCII digits. Words from `str.split()` carry no whitespace, and only ASCII digits are modelled.
- Betting, pots, chips and showdown: the source does not implement them.
