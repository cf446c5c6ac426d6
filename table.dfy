/**
 * The table state machine. Every replica tails the shared log and feeds each line
 * to `Tournament.Process`, which updates the player list, the `readyToDeal` flag and
 * the current `Game` (its turn cursor and the local player's cards), and returns
 * what to display plus the lines it appends to the log in response.
 */
module Table {
  import opened Wrappers
  import opened Failures
  import opened Text
  import opened Concealment
  import opened Cards

  /** `START_CHIPS`: every registration gets this stack, whatever the line says. */
  const StartChips: int := 500

  /** A seat at the table. `Player.cards` is never assigned by the core and is left out. */
  datatype Player = Player(
    name: string,
    key: string,
    chips: int,
    activeInGame: bool,
    activeInTournament: bool)

  /** `Player(name, pub_key, chips)`: not yet in a game, active in the tournament. */
  function NewPlayer(name: string, key: string, chips: int): (p: Player)
    ensures p.name == name && p.key == key && p.chips == chips
    ensures !p.activeInGame && p.activeInTournament
  {
    Player(name, key, chips, false, true)
  }

  function Names(ps: seq<Player>): seq<string> {
    seq(|ps|, i requires 0 <= i < |ps| => ps[i].name)
  }

  /** The names of a list of players, in order, built one player at a time. */
  function Roster(ps: seq<Player>): seq<string> {
    if ps == [] then [] else Roster(ps[..|ps| - 1]) + [ps[|ps| - 1].name]
  }

  lemma {:induction false} RosterIsNames(ps: seq<Player>)
    ensures Roster(ps) == Names(ps)
    decreases |ps|
  {
    if ps != [] {
      RosterIsNames(ps[..|ps| - 1]);
    }
  }

  ghost predicate UniqueNames(ps: seq<Player>) {
    forall i, j :: 0 <= i < j < |ps| ==> ps[i].name != ps[j].name
  }

  /** `[p for p in players if p.active_in_tournament]`. */
  function ActivePlayers(ps: seq<Player>): (r: seq<Player>)
    ensures forall p :: p in r <==> p in ps && p.activeInTournament
    ensures |r| <= |ps|
    ensures (forall p :: p in ps ==> p.activeInTournament) ==> r == ps
  {
    if ps == [] then []
    else
      var rest := ActivePlayers(ps[1..]);
      assert forall p :: p in ps <==> p == ps[0] || p in ps[1..];
      (if ps[0].activeInTournament then [ps[0]] else []) + rest
  }

  /** The filter keeps the table's order: a player appended to the list comes after
      every seat the list already gave. */
  lemma {:induction false} ActivePlayersSnoc(ps: seq<Player>, p: Player)
    ensures ActivePlayers(ps + [p]) == ActivePlayers(ps) + (if p.activeInTournament then [p] else [])
    decreases |ps|
  {
    var tail := if p.activeInTournament then [p] else [];
    if ps == [] {
      assert [p][1..] == [];
      assert ActivePlayers([p]) == tail + ActivePlayers([]);
    } else {
      var head := if ps[0].activeInTournament then [ps[0]] else [];
      assert (ps + [p])[0] == ps[0];
      assert (ps + [p])[1..] == ps[1..] + [p];
      ActivePlayersSnoc(ps[1..], p);
      assert ActivePlayers(ps + [p]) == head + ActivePlayers(ps[1..] + [p]);
      assert ActivePlayers(ps) == head + ActivePlayers(ps[1..]);
      AppendAssoc(head, ActivePlayers(ps[1..]), tail);
    }
  }

  /** The seats of a new game have distinct names when the table's players do. */
  lemma {:induction false} ActivePlayersUnique(ps: seq<Player>)
    requires UniqueNames(ps)
    ensures UniqueNames(ActivePlayers(ps))
  {
    if ps != [] {
      UniqueTail(ps);
      ActivePlayersUnique(ps[1..]);
      var rest := ActivePlayers(ps[1..]);
      if ps[0].activeInTournament {
        UniqueCons(ps[0], rest);
      } else {
        assert ActivePlayers(ps) == rest;
      }
    }
  }

  lemma UniqueTail(ps: seq<Player>)
    requires UniqueNames(ps) && ps != []
    ensures UniqueNames(ps[1..])
    ensures forall p :: p in ps[1..] ==> p.name != ps[0].name
  {
    var tail := ps[1..];
    forall i, j | 0 <= i < j < |tail| ensures tail[i].name != tail[j].name {
      assert tail[i] == ps[i + 1] && tail[j] == ps[j + 1];
    }
    forall k | 0 <= k < |tail| ensures tail[k].name != ps[0].name {
      assert tail[k] == ps[k + 1];
    }
  }

  lemma UniqueCons(h: Player, rest: seq<Player>)
    requires UniqueNames(rest)
    requires forall p :: p in rest ==> p.name != h.name
    ensures UniqueNames([h] + rest)
  {
    var r := [h] + rest;
    forall i, j | 0 <= i < j < |r| ensures r[i].name != r[j].name {
      assert r[j] == rest[j - 1];
      if i > 0 {
        assert r[i] == rest[i - 1];
      }
    }
  }

  /** The table's own list after `Game.__init__` has set `active_in_game` on the seated
      players: the Player objects are shared between the two lists in the source. */
  function MarkSeated(ps: seq<Player>): (r: seq<Player>)
    ensures |r| == |ps| && Names(r) == Names(ps)
    ensures UniqueNames(ps) ==> UniqueNames(r)
    ensures forall i :: 0 <= i < |ps| ==>
              && r[i].(activeInGame := ps[i].activeInGame) == ps[i]
              && (ps[i].activeInTournament ==> r[i].activeInGame)
              && (!ps[i].activeInTournament ==> r[i] == ps[i])
  {
    seq(|ps|, i requires 0 <= i < |ps| =>
      if ps[i].activeInTournament then ps[i].(activeInGame := true) else ps[i])
  }

  /** A player's two hole cards. */
  type Hand = (string, string)

  /** The hands of a deal, card after card. */
  function Flatten(hands: seq<Hand>): seq<string> {
    if hands == [] then [] else Flatten(hands[..|hands| - 1]) + [hands[|hands| - 1].0, hands[|hands| - 1].1]
  }

  lemma FlattenSnoc(hands: seq<Hand>, hand: Hand)
    ensures Flatten(hands + [hand]) == Flatten(hands) + [hand.0, hand.1]
  {
    assert (hands + [hand])[..|hands|] == hands;
  }

  lemma AppendAssoc<T>(a: seq<T>, b: seq<T>, c: seq<T>)
    ensures (a + b) + c == a + (b + c)
  {
  }

  /** The `hands` lines of a deal, one per seat in seat order. */
  function HandsLines(seats: seq<Player>, hands: seq<Hand>): (r: seq<string>)
    requires |seats| == |hands|
    ensures |r| == |hands|
  {
    if hands == [] then []
    else
      HandsLines(seats[..|seats| - 1], hands[..|hands| - 1])
      + [HandsLine(seats[|seats| - 1].name, Hash(HandText(hands[|hands| - 1])))]
  }

  /** The `i`-th `hands` line announces the `i`-th seat's hand: one line per seat, in
      seat order. */
  lemma {:induction false} HandsLinesAt(seats: seq<Player>, hands: seq<Hand>, i: nat)
    requires |seats| == |hands| && i < |hands|
    ensures HandsLines(seats, hands)[i] == HandsLine(seats[i].name, Hash(HandText(hands[i])))
    decreases |hands|
  {
    var n := |hands| - 1;
    if i < n {
      HandsLinesAt(seats[..n], hands[..n], i);
    }
  }

  lemma HandsLinesSnoc(seats: seq<Player>, i: nat, hands: seq<Hand>, hand: Hand)
    requires i < |seats| && |hands| == i
    ensures HandsLines(seats[..i + 1], hands + [hand])
            == HandsLines(seats[..i], hands) + [HandsLine(seats[i].name, Hash(HandText(hand)))]
  {
    assert seats[..i + 1][..i] == seats[..i];
    assert (hands + [hand])[..i] == hands;
  }

  /** The number of whole pairs left in a deck that ran out after `i` pairs. */
  /** A deal of two cards per seat from a pile of `room` cards, given what it emitted,
      how it ended, the hands it dealt, the `dealt` pile after it and the cards left:
      every seat is served while the pile lasts, and the pile running out is a
      `ValueError`. */
  ghost predicate DealOutcome(seats: seq<Player>, room: int, dealtBefore: seq<string>, emitted: seq<string>,
                              outcome: Outcome<Error>, hands: seq<Hand>, dealtAfter: seq<string>, left: int)
  {
    var k := if 2 * |seats| <= room then |seats| else room / 2;
    && 0 <= k <= |seats|
    && |hands| == k
    && outcome == (if 2 * |seats| <= room then Pass else Fail(ValueError))
    && emitted == HandsLines(seats[..k], hands)
    && dealtAfter == dealtBefore + Flatten(hands)
    && left == room - 2 * k
  }

  /** The deal served every seat. */
  lemma DealFinished(seats: seq<Player>, room: int, dealtBefore: seq<string>, emitted: seq<string>,
                     hands: seq<Hand>, dealtAfter: seq<string>, left: int)
    requires |hands| == |seats| && left == room - 2 * |seats| && left >= 0
    requires emitted == HandsLines(seats[..|seats|], hands) && dealtAfter == dealtBefore + Flatten(hands)
    ensures DealOutcome(seats, room, dealtBefore, emitted, Pass, hands, dealtAfter, left)
  {
  }

  /** The pile ran out at seat `i`. */
  lemma DealStopped(seats: seq<Player>, room: int, dealtBefore: seq<string>, emitted: seq<string>,
                    hands: seq<Hand>, dealtAfter: seq<string>, i: int)
    requires 0 <= i < |seats| && |hands| == i && 0 <= room - 2 * i < 2
    requires emitted == HandsLines(seats[..i], hands) && dealtAfter == dealtBefore + Flatten(hands)
    ensures DealOutcome(seats, room, dealtBefore, emitted, Fail(ValueError), hands, dealtAfter, room - 2 * i)
  {
    assert room / 2 == i;
  }

  // ---------------------------------------------------------------- log lines

  /** `Tournament.add_player_request(p)`. */
  function AddPlayerRequest(p: Player): string {
    "add-player " + p.name + " " + p.key + " " + IntToString(p.chips)
  }

  /** `Tournament.start_game_request(dealer)`. */
  function StartGameRequest(dealer: int): string {
    "new_game " + IntToString(dealer)
  }

  /** `Game.deal_hand_message`: one player's concealed hand. */
  function HandsLine(name: string, token: string): string {
    "hands " + name + " -> " + token
  }

  /** The plain text of a two-card hand, `"-".join(cards)`. */
  function HandText(hand: Hand): string {
    hand.0 + "-" + hand.1
  }

  function JoinedMessage(name: string): string {
    name + " joined table with " + IntToString(StartChips) + " chips."
  }

  function RejoinedMessage(name: string): string {
    name + " rejoined the table."
  }

  /** `hand_string` of `process_hands`. */
  function HandDisplay(name: string, cards: string): string {
    name + " -> " + cards
  }

  /** Each replica's registration line reads back as its name, key and chip count. */
  lemma AddPlayerRequestParses(p: Player)
    requires IsToken(p.name) && IsToken(p.key)
    ensures Split(AddPlayerRequest(p)) == ["add-player", p.name, p.key, IntToString(p.chips)]
  {
    assert AddPlayerRequest(p) == "add-player" + " " + p.name + " " + p.key + " " + IntToString(p.chips);
    WordsParse4("add-player", p.name, p.key, IntToString(p.chips));
  }

  /** A `new_game d` line reads back as a `new_game` verb whose argument parses to `d`. */
  lemma StartGameRequestParses(dealer: int)
    ensures var m := Split(StartGameRequest(dealer));
            |m| == 2 && m[0] == "new_game" && ParseInt(m[1]) == Some(dealer)
  {
    assert StartGameRequest(dealer) == "new_game" + " " + IntToString(dealer);
    WordsParse2("new_game", IntToString(dealer));
    ParseIntRoundTrip(dealer);
  }

  /** A `hands` line reads back as a `hands` verb naming the player, and its fourth word
      decodes to the hand that was concealed in it. */
  lemma HandsLineParses(name: string, cards: string)
    requires IsToken(name) && IsToken(cards)
    ensures var m := Split(HandsLine(name, Hash(cards)));
            |m| == 4 && m[0] == "hands" && m[1] == name && m[3] == Hash(cards)
            && Unhash(m[3]) == cards
  {
    HashKeepsToken(cards);
    assert HandsLine(name, Hash(cards)) == "hands" + " " + name + " " + "->" + " " + Hash(cards);
    WordsParse4("hands", name, "->", Hash(cards));
    UnhashHash(cards);
  }

  // ---------------------------------------------------------------- one deal

  /** One hand of poker: the seats frozen when it was created, the turn cursor and,
      on the owner's replica only, the deck. */
  class Game {
    const players: seq<Player>
    const isOwner: bool
    const deck: Deck?
    const dealer: int
    var myCards: Option<string>
    var toPlay: int
    /** The number of `move` lines applied to this game so far. */
    ghost var moves: nat

    /** The cursor starts three seats after the dealer and moves one seat per move. */
    ghost predicate CursorOk()
      reads this
    {
      toPlay == dealer + 3 + moves
    }

    ghost predicate Valid()
      reads this, deck
    {
      CursorOk() && (deck != null <==> isOwner) && (deck != null ==> deck.Valid())
    }

    /** `Game(players, is_owner, dealer)`: the seats are the given players with
        `active_in_game` set; only the owner gets a fresh deck. */
    constructor (ps: seq<Player>, isOwner: bool, dealer: int)
      ensures Valid()
      ensures |players| == |ps|
      ensures forall i :: 0 <= i < |ps| ==> players[i] == ps[i].(activeInGame := true)
      ensures this.isOwner == isOwner && this.dealer == dealer
      ensures myCards == None && toPlay == dealer + 3 && moves == 0
      ensures isOwner ==> fresh(deck) && deck.wholeDeck == FullDeck() && deck.dealt == []
    {
      var seats := ps;
      for i := 0 to |ps|
        invariant |seats| == |ps|
        invariant forall j :: 0 <= j < i ==> seats[j] == ps[j].(activeInGame := true)
        invariant forall j :: i <= j < |ps| ==> seats[j] == ps[j]
      {
        seats := seats[i := seats[i].(activeInGame := true)];
      }
      players := seats;
      this.isOwner := isOwner;
      if isOwner {
        deck := new Deck();
      } else {
        deck := null;
      }
      myCards := None;
      this.dealer := dealer;
      toPlay := dealer + 3;
      moves := 0;
    }

    /** `next_to_play()`: after k moves, the seat k + 3 after the dealer, wrapping
        around the frozen seat list. (An empty list is a modulo by zero.) */
    function NextToPlay(): (name: string)
      reads this
      requires CursorOk() && |players| > 0
      ensures name == players[(dealer + 3 + moves) % |players|].name
      ensures name in Names(players)
    {
      assert Names(players)[toPlay % |players|] == players[toPlay % |players|].name;
      players[toPlay % |players|].name
    }

    /** `advance_player()`. */
    method AdvancePlayer()
      requires CursorOk()
      modifies this`toPlay, this`moves
      ensures CursorOk()
      ensures toPlay == old(toPlay) + 1 && moves == old(moves) + 1
    {
      toPlay := toPlay + 1;
      moves := moves + 1;
    }

    /** The cursor and the local cards are as they were. */
    twostate predicate Unchanged()
      reads this`toPlay, this`moves, this`myCards
    {
      toPlay == old(toPlay) && moves == old(moves) && myCards == old(myCards)
    }

    /** What `deal_hands()` leaves behind: two fresh cards and one `hands` line per seat,
        in seat order, until the deck runs out (`ValueError`) or, on a replica without a
        deck, at the first seat (`AttributeError`). */
    twostate predicate HandsDealt(new emitted: seq<string>, new outcome: Outcome<Error>, new hands: seq<Hand>)
      reads this, deck
    {
      if deck == null then
        && emitted == [] && hands == []
        && outcome == (if |players| == 0 then Pass else Fail(AttributeError))
      else
        DealOutcome(players, |old(deck.wholeDeck)|, old(deck.dealt), emitted, outcome, hands, deck.dealt, |deck.wholeDeck|)
    }

    /** The body of the loop of `deal_hands()`: two cards for `p` and the `hands` line
        that announces them, concealed. */
    method DealTo(p: Player) returns (line: Result<string, Error>, hand: Hand)
      requires deck != null && deck.Valid()
      modifies deck
      ensures deck.Valid()
      ensures |old(deck.wholeDeck)| < 2 ==> line == Err(ValueError) && deck.dealt == old(deck.dealt) && deck.wholeDeck == old(deck.wholeDeck)
      ensures |old(deck.wholeDeck)| >= 2 ==>
                && line == Ok(HandsLine(p.name, Hash(HandText(hand))))
                && deck.dealt == old(deck.dealt) + [hand.0, hand.1]
                && |deck.wholeDeck| == |old(deck.wholeDeck)| - 2
    {
      var cards := deck.Deal(2);
      if cards.Err? {
        return Err(ValueError), ("", "");
      }
      hand := (cards.value[0], cards.value[1]);
      assert cards.value == [hand.0, hand.1];
      line := Ok(HandsLine(p.name, Hash(HandText(hand))));
    }

    /** `deal_hands()`: deals two cards to every seat and emits its `hands` line. */
    method DealHands() returns (emitted: seq<string>, outcome: Outcome<Error>, ghost hands: seq<Hand>)
      requires Valid()
      modifies deck
      ensures Valid()
      ensures HandsDealt(emitted, outcome, hands)
    {
      emitted, outcome, hands := [], Pass, [];
      if deck == null {
        // the first seat's `self.deck.deal(2)` raises on a replica without a deck
        if |players| > 0 {
          outcome := Fail(AttributeError);
        }
        return;
      }
      ghost var dealt0 := deck.dealt;
      var i := 0;
      while i < |players|
        invariant 0 <= i <= |players|
        invariant deck.Valid()
        invariant |hands| == i
        invariant emitted == HandsLines(players[..i], hands)
        invariant deck.dealt == dealt0 + Flatten(hands)
        invariant |deck.wholeDeck| == |old(deck.wholeDeck)| - 2 * i
      {
        var line, hand := DealTo(players[i]);
        if line.Err? {
          DealStopped(players, |old(deck.wholeDeck)|, dealt0, emitted, hands, deck.dealt, i);
          outcome := Fail(ValueError);
          return;
        }
        FlattenSnoc(hands, hand);
        assert deck.dealt == dealt0 + Flatten(hands + [hand]) by {
          AppendAssoc(dealt0, Flatten(hands), [hand.0, hand.1]);
        }
        HandsLinesSnoc(players, i, hands, hand);
        hands := hands + [hand];
        emitted := emitted + [line.value];
        i := i + 1;
      }
      DealFinished(players, |old(deck.wholeDeck)|, dealt0, emitted, hands, deck.dealt, |deck.wholeDeck|);
    }
  }

  // ---------------------------------------------------------------- the table

  /** The local prompt: which branch of `set_prompt` last applied (the HUD line that goes
      with "waiting for X" is not modelled). */
  datatype Prompt = WaitingForPlayers | WaitingForDealer | DealPrompt | WaitingFor(player: string)

  /** The colours `process` pairs with its text: `WHITE`, `WARNING_COLOUR`,
      `CARD_COLOUR`, `MY_CARD_COLOUR`. */
  datatype Colour = Plain | Warning | CardColour | MyCardColour

  /** What `process` returns for display; `text == None` is Python's `None`. */
  datatype Shown = Shown(text: Option<string>, colour: Colour)

  /** One replica's view of the table. `localName` stands for the global `PLAYER.name`. */
  class Tournament {
    const isOwner: bool
    const localName: string
    var players: seq<Player>
    var readyToDeal: bool
    var currentGame: Game?
    var prompt: Prompt

    ghost function DeckOf(): set<object>
      reads this`currentGame, currentGame
    {
      if currentGame != null && currentGame.deck != null then {currentGame.deck} else {}
    }

    ghost predicate Valid()
      reads this, currentGame, DeckOf()
    {
      && UniqueNames(players)
      && (currentGame != null ==>
            && currentGame.Valid()
            && currentGame.isOwner == isOwner
            && UniqueNames(currentGame.players))
    }

    constructor (isOwner: bool, localName: string)
      ensures Valid()
      ensures this.isOwner == isOwner && this.localName == localName
      ensures players == [] && readyToDeal && currentGame == null
      ensures prompt == if isOwner then WaitingForPlayers else WaitingForDealer
    {
      this.isOwner := isOwner;
      this.localName := localName;
      players := [];
      readyToDeal := true;
      currentGame := null;
      prompt := if isOwner then WaitingForPlayers else WaitingForDealer;
    }

    /** Nothing but the prompt changed. */
    twostate predicate TableUnchanged()
      reads this`players, this`readyToDeal, this`currentGame, currentGame
    {
      && players == old(players) && readyToDeal == old(readyToDeal)
      && currentGame == old(currentGame)
      && (currentGame != null ==> currentGame.Unchanged())
    }

    /** Mid-hand with nobody seated: `set_prompt` raises `ZeroDivisionError`. */
    ghost predicate Stalled()
      reads this`readyToDeal, this`currentGame, currentGame
    {
      !readyToDeal && currentGame != null && |currentGame.players| == 0
    }

    /** `next_to_play()`: the player whose move is awaited, or `"dealer"` when there
        is no game. */
    function NextToPlay(): (r: Result<string, Error>)
      reads this, currentGame
      requires currentGame != null ==> currentGame.CursorOk()
      ensures currentGame == null ==> r == Ok("dealer")
      ensures currentGame != null ==> (r.Ok? <==> |currentGame.players| > 0)
      ensures currentGame != null && r.Ok? ==>
                r.value in Names(currentGame.players) &&
                r.value == currentGame.players[(currentGame.dealer + 3 + currentGame.moves) % |currentGame.players|].name
      ensures r.Err? ==> r.error == ZeroDivisionError
    {
      if currentGame == null then Ok("dealer")
      else if |currentGame.players| == 0 then Err(ZeroDivisionError)
      else Ok(currentGame.NextToPlay())
    }

    /** The rule of `set_prompt`, given the prompt before it runs: the deal prompt for
        the owner while dealing is allowed and at least two are seated, "waiting for X"
        mid-hand, otherwise the previous prompt. */
    function PromptAfter(previous: Prompt): (r: Result<Prompt, Error>)
      reads this, currentGame
      requires currentGame != null ==> currentGame.CursorOk()
      ensures isOwner && readyToDeal && currentGame != null && |currentGame.players| > 1 ==> r == Ok(DealPrompt)
      ensures r.Err? <==> !readyToDeal && currentGame != null && |currentGame.players| == 0
      ensures r.Err? ==> r.error == ZeroDivisionError
      ensures !readyToDeal && currentGame != null && r.Ok? ==> r == Ok(WaitingFor(NextToPlay().value))
      ensures (!(isOwner && readyToDeal && currentGame != null && |currentGame.players| > 1)
               && !(!readyToDeal && currentGame != null)) ==> r == Ok(previous)
      ensures r.Ok? && r.value != previous ==>
                || r.value == DealPrompt
                || (currentGame != null && r.value.WaitingFor? && r.value.player in Names(currentGame.players))
    {
      if isOwner && readyToDeal && currentGame != null && |currentGame.players| > 1 then Ok(DealPrompt)
      else if !readyToDeal && currentGame != null then
        match NextToPlay()
        case Ok(name) => Ok(WaitingFor(name))
        case Err(e) => Err(e)
      else Ok(previous)
    }

    /** `set_prompt()`. */
    method SetPrompt() returns (outcome: Outcome<Error>)
      requires Valid()
      modifies this`prompt
      ensures Valid()
      ensures match PromptAfter(old(prompt))
              case Ok(p) => prompt == p && outcome == Pass
              case Err(e) => prompt == old(prompt) && outcome == Fail(e)
    {
      var next := PromptAfter(prompt);
      match next
      case Ok(p) => prompt := p; outcome := Pass;
      case Err(e) => outcome := Fail(e);
    }

    // ------------------------------------------------------------ handlers

    /** The effect of `process_hands(name, card_hash)`: dealing is over; the named
        player's own replica decodes the token into `my_cards`, every other replica only
        shows it; the cursor does not move. */
    twostate predicate HandsProcessed(name: string, cardHash: string, new r: Result<Shown, Error>)
      reads this`players, this`readyToDeal, this`currentGame, currentGame
    {
      && !readyToDeal && players == old(players) && currentGame == old(currentGame)
      && (currentGame != null ==>
            currentGame.toPlay == old(currentGame.toPlay) && currentGame.moves == old(currentGame.moves))
      && (name == localName && currentGame == null ==> r == Err(AttributeError))
      && (name == localName && currentGame != null ==>
            && currentGame.myCards == Some(Unhash(cardHash))
            && r == Ok(Shown(Some(HandDisplay(name, Unhash(cardHash))), MyCardColour)))
      && (name != localName ==>
            && r == Ok(Shown(Some(HandDisplay(name, cardHash)), CardColour))
            && (currentGame != null ==> currentGame.myCards == old(currentGame.myCards)))
    }

    /** `process_hands(name, card_hash)`. */
    method ProcessHands(name: string, cardHash: string) returns (r: Result<Shown, Error>)
      requires Valid()
      modifies this`readyToDeal, currentGame
      ensures Valid()
      ensures HandsProcessed(name, cardHash, r)
    {
      readyToDeal := false;
      if name == localName {
        if currentGame == null {
          return Err(AttributeError);
        }
        var unhashed := Unhash(cardHash);
        currentGame.myCards := Some(unhashed);
        r := Ok(Shown(Some(HandDisplay(name, unhashed)), MyCardColour));
      } else {
        r := Ok(Shown(Some(HandDisplay(name, cardHash)), CardColour));
      }
    }

    /** The effect of `process_add_player(name, key, START_CHIPS)`: a new name is
        appended with 500 chips and answered with a `new_game 0` line; a known name
        changes nothing. */
    twostate predicate AddPlayerProcessed(name: string, key: string, new shown: Shown, new emitted: seq<string>)
      reads this`players, this`readyToDeal, this`currentGame, currentGame
    {
      && readyToDeal == old(readyToDeal) && currentGame == old(currentGame)
      && (currentGame != null ==> currentGame.Unchanged())
      && (name !in Names(old(players)) ==>
            && players == old(players) + [NewPlayer(name, key, StartChips)]
            && emitted == [StartGameRequest(0)]
            && shown == Shown(Some(JoinedMessage(name)), Warning))
      && (name in Names(old(players)) ==>
            && players == old(players) && emitted == []
            && shown == Shown(Some(RejoinedMessage(name)), Warning))
    }

    /** `process_add_player(name, key, START_CHIPS)`. */
    method ProcessAddPlayer(name: string, key: string) returns (shown: Shown, emitted: seq<string>)
      requires Valid()
      modifies this`players
      ensures Valid()
      ensures AddPlayerProcessed(name, key, shown, emitted)
    {
      var p := NewPlayer(name, key, StartChips);
      if p.name !in Names(players) {
        assert forall i :: 0 <= i < |players| ==> Names(players)[i] == players[i].name;
        players := players + [p];
        emitted := [StartGameRequest(0)];
        shown := Shown(Some(JoinedMessage(p.name)), Warning);
      } else {
        emitted := [];
        shown := Shown(Some(RejoinedMessage(p.name)), Warning);
      }
    }

    /** The effect of `process_move(moves)`: the cursor advances one seat, whatever the
        move says, and the move is shown. */
    twostate predicate MoveProcessed(moves: seq<string>, new r: Result<Shown, Error>)
      reads this`players, this`readyToDeal, this`currentGame, currentGame
    {
      && players == old(players) && readyToDeal == old(readyToDeal)
      && currentGame == old(currentGame)
      && (currentGame == null ==> r == Err(AttributeError))
      && (currentGame != null ==>
            && currentGame.moves == old(currentGame.moves) + 1
            && currentGame.toPlay == old(currentGame.toPlay) + 1
            && currentGame.myCards == old(currentGame.myCards)
            && r == Ok(Shown(Some(Join(moves)), Plain)))
    }

    /** `process_move(moves)`. */
    method ProcessMove(moves: seq<string>) returns (r: Result<Shown, Error>)
      requires Valid()
      modifies currentGame
      ensures Valid()
      ensures MoveProcessed(moves, r)
    {
      if currentGame == null {
        return Err(AttributeError);
      }
      currentGame.AdvancePlayer();
      r := Ok(Shown(Some(Join(moves)), Plain));
    }

    /** The effect of a `new_game` line: only while `readyToDeal`, a new Game over a
        snapshot of the active players, with the dealer index read from the line; before
        that, a missing or malformed index raises with nothing changed. */
    twostate predicate NewGameProcessed(m: seq<string>, new r: Result<Shown, Error>)
      reads this`players, this`readyToDeal, this`currentGame, currentGame, DeckOf()
    {
      && readyToDeal == old(readyToDeal)
      && (!readyToDeal ==> r == Ok(Shown(Some(""), Plain)) && TableUnchanged())
      && (readyToDeal && |m| < 2 ==> r == Err(IndexError) && TableUnchanged())
      && (readyToDeal && |m| >= 2 && ParseInt(m[1]).None? ==> r == Err(ValueError) && TableUnchanged())
      && (readyToDeal && |m| >= 2 && ParseInt(m[1]).Some? ==>
            var seated := ActivePlayers(old(players));
            && r == Ok(Shown(Some(""), Plain))
            && currentGame != null && fresh(currentGame)
            && currentGame.dealer == ParseInt(m[1]).value
            && currentGame.moves == 0 && currentGame.myCards == None
            && |currentGame.players| == |seated|
            && (forall i :: 0 <= i < |seated| ==> currentGame.players[i] == seated[i].(activeInGame := true))
            && (isOwner ==> currentGame.deck != null && fresh(currentGame.deck)
                            && currentGame.deck.wholeDeck == FullDeck() && currentGame.deck.dealt == [])
            && players == MarkSeated(old(players)))
    }

    /** The `new_game` branch of `process`. */
    method ProcessNewGame(m: seq<string>) returns (r: Result<Shown, Error>)
      requires Valid()
      modifies this`players, this`currentGame
      ensures Valid()
      ensures NewGameProcessed(m, r)
    {
      r := Ok(Shown(Some(""), Plain));
      if readyToDeal {
        var activePlayers := ActivePlayers(players);
        if |m| < 2 {
          return Err(IndexError);
        }
        var dealer := ParseInt(m[1]);
        if dealer.None? {
          return Err(ValueError);
        }
        ActivePlayersUnique(players);
        var g := new Game(activePlayers, isOwner, dealer.value);
        assert forall i :: 0 <= i < |g.players| ==> g.players[i].name == activePlayers[i].name;
        currentGame := g;
        players := MarkSeated(players);
      }
    }

    /** `process_as_owner(moves)`: owner instructions are acknowledged and do nothing. */
    function ProcessAsOwner(moves: seq<string>): (r: Shown)
      ensures r.text == None
    {
      Shown(None, Plain)
    }

    /** What the dispatch in `process(line)` does, verb by verb, before `set_prompt`. */
    twostate predicate Handled(line: string, new h: Result<Shown, Error>, new emitted: seq<string>)
      reads this`players, this`readyToDeal, this`currentGame, currentGame, DeckOf()
    {
      var m := Split(line);
      if m == [] then h == Err(IndexError) && emitted == [] && TableUnchanged()
      else if m[0] == "hands" then
        && emitted == []
        && (|m| < 4 ==> h == Err(IndexError) && TableUnchanged())
        && (|m| >= 4 ==> HandsProcessed(m[1], m[3], h))
      else if m[0] == "add-player" then
        && (|m| < 3 ==> h == Err(IndexError) && emitted == [] && TableUnchanged())
        && (|m| >= 3 ==> h.Ok? && AddPlayerProcessed(m[1], m[2], h.value, emitted))
      else if m[0] == "owner" then h == Ok(Shown(None, Plain)) && emitted == [] && TableUnchanged()
      else if m[0] == "new_game" then emitted == [] && NewGameProcessed(m, h)
      else if m[0] == "move" then emitted == [] && MoveProcessed(m[1..], h)
      else if m[0] == "show_cards" || m[0] == "chat" then
        h == Ok(Shown(Some(""), Plain)) && emitted == [] && TableUnchanged()
      else h == Ok(Shown(Some(line), Plain)) && emitted == [] && TableUnchanged()
    }

    /** The dispatch on the first word of `process(line)`. */
    method Dispatch(line: string) returns (h: Result<Shown, Error>, emitted: seq<string>)
      requires Valid()
      modifies this`players, this`readyToDeal, this`currentGame, currentGame
      ensures Valid()
      ensures Handled(line, h, emitted)
      ensures emitted != [] ==> emitted == [StartGameRequest(0)] && Split(line) != [] && Split(line)[0] == "add-player"
      ensures currentGame == old(currentGame) || fresh(currentGame)
    {
      var m := Split(line);
      emitted := [];
      if m == [] {
        return Err(IndexError), [];
      }
      if m[0] == "hands" {
        if |m| < 4 {
          return Err(IndexError), [];
        }
        h := ProcessHands(m[1], m[3]);
      } else if m[0] == "add-player" {
        if |m| < 3 {
          return Err(IndexError), [];
        }
        var shown;
        shown, emitted := ProcessAddPlayer(m[1], m[2]);
        h := Ok(shown);
      } else if m[0] == "owner" {
        h := Ok(if isOwner then ProcessAsOwner(m[1..]) else Shown(None, Plain));
      } else if m[0] == "new_game" {
        h := ProcessNewGame(m);
      } else if m[0] == "move" {
        h := ProcessMove(m[1..]);
      } else if m[0] == "show_cards" || m[0] == "chat" {
        h := Ok(Shown(Some(""), Plain));
      } else {
        h := Ok(Shown(Some(line), Plain));
      }
    }

    /** `process(line)`: dispatch on the first word, then `set_prompt()` unless the
        handler raised. `handled` is what the handler returned. */
    method Process(line: string) returns (r: Result<Shown, Error>, emitted: seq<string>, ghost handled: Result<Shown, Error>)
      requires Valid()
      modifies this`players, this`readyToDeal, this`currentGame, this`prompt, currentGame
      ensures Valid()
      ensures Handled(line, handled, emitted)
      ensures emitted != [] ==> emitted == [StartGameRequest(0)] && Split(line) != [] && Split(line)[0] == "add-player"
      ensures currentGame == old(currentGame) || fresh(currentGame)
      ensures handled.Err? ==> r == handled && prompt == old(prompt)
      ensures handled.Ok? ==>
                match PromptAfter(old(prompt))
                case Ok(p) => prompt == p && r == handled
                case Err(e) => prompt == old(prompt) && r == Err(e)
    {
      var h;
      h, emitted := Dispatch(line);
      handled, r := h, h;
      if h.Ok? {
        var outcome := SetPrompt();
        if outcome.Fail? {
          r := Err(outcome.error);
        }
      }
    }

    /** `deal_hands()` on the table: deals the current game, if there is one. */
    method DealHands() returns (emitted: seq<string>, outcome: Outcome<Error>, ghost hands: seq<Hand>)
      requires Valid()
      modifies DeckOf()
      ensures Valid()
      ensures currentGame == null ==> emitted == [] && outcome == Fail(AttributeError)
      ensures currentGame != null ==> currentGame.HandsDealt(emitted, outcome, hands)
    {
      if currentGame == null {
        return [], Fail(AttributeError), [];
      }
      emitted, outcome, hands := currentGame.DealHands();
    }
  }

  /** The lines of a log that `read_forever` passes on: the non-blank ones, in order. */
  function NonBlank(log: seq<string>): (r: seq<string>)
    ensures |r| <= |log|
  {
    if log == [] then []
    else
      var last := log[|log| - 1];
      NonBlank(log[..|log| - 1]) + (if Split(last) != [] then [last] else [])
  }

  lemma NonBlankSnoc(log: seq<string>, k: nat)
    requires k < |log|
    ensures Split(log[k]) != [] ==> NonBlank(log[..k + 1]) == NonBlank(log[..k]) + [log[k]]
    ensures Split(log[k]) == [] ==> NonBlank(log[..k + 1]) == NonBlank(log[..k])
  {
    assert log[..k + 1][..k] == log[..k];
  }

  /** No line that `read_forever` yields is blank, and each is a line of the log. */
  lemma {:induction false} NonBlankLines(log: seq<string>)
    ensures forall i :: 0 <= i < |NonBlank(log)| ==> Split(NonBlank(log)[i]) != [] && NonBlank(log)[i] in log
    decreases |log|
  {
    if log != [] {
      var init := log[..|log| - 1];
      NonBlankLines(init);
      assert forall l :: l in init ==> l in log;
    }
  }

  /** The lines of several writes, one after the other. */
  function Concat(ss: seq<seq<string>>): seq<string> {
    if ss == [] then [] else Concat(ss[..|ss| - 1]) + ss[|ss| - 1]
  }

  lemma ConcatSnoc(ss: seq<seq<string>>, s: seq<string>)
    ensures Concat(ss + [s]) == Concat(ss) + s
  {
    assert (ss + [s])[..|ss|] == ss;
  }

  /** The names a table knows after the lines `lines`, starting from `names`: an
      `add-player` line with a name and a key registers its name once. */
  function Registered(names: seq<string>, lines: seq<string>): seq<string>
    decreases |lines|
  {
    if lines == [] then names
    else Register(Registered(names, lines[..|lines| - 1]), lines[|lines| - 1])
  }

  /** The names a table knows after one more line. */
  function Register(names: seq<string>, line: string): seq<string> {
    names + (if Answer(names, line) == [] then [] else [Split(line)[1]])
  }

  /** What `process(line)` writes back when the table knows `names`: `new_game 0` for
      the registration of a new name, nothing otherwise. */
  function Answer(names: seq<string>, line: string): seq<string> {
    var m := Split(line);
    if |m| >= 3 && m[0] == "add-player" && m[1] !in names then [StartGameRequest(0)] else []
  }

  /** A line whose handler cannot raise: only `set_prompt` can still fail after it. */
  predicate NeverRaises(line: string) {
    var m := Split(line);
    && m != []
    && m[0] != "hands" && m[0] != "new_game" && m[0] != "move"
    && (m[0] == "add-player" ==> |m| >= 3)
  }

  lemma RegisteredSnoc(names: seq<string>, lines: seq<string>, line: string)
    ensures Registered(names, lines + [line]) == Register(Registered(names, lines), line)
  {
    assert (lines + [line])[..|lines|] == lines;
  }

  /** Registration only ever appends: the names known before stay first, and a table
      whose names are distinct keeps them distinct. */
  lemma {:induction false} RegisteredExtends(names: seq<string>, lines: seq<string>)
    ensures |names| <= |Registered(names, lines)| && Registered(names, lines)[..|names|] == names
    ensures Distinct(names) ==> Distinct(Registered(names, lines))
    decreases |lines|
  {
    if lines != [] {
      var init := lines[..|lines| - 1];
      RegisteredExtends(names, init);
      var before := Registered(names, init);
      assert Registered(names, lines)[..|before|] == before;
    }
  }

  /** After a log is replayed, every name it registers is known. */
  lemma {:induction false} RegisteredKnows(names: seq<string>, lines: seq<string>, i: nat)
    requires i < |lines| && |Split(lines[i])| >= 3 && Split(lines[i])[0] == "add-player"
    ensures Split(lines[i])[1] in Registered(names, lines)
    decreases |lines|
  {
    var init := lines[..|lines| - 1];
    if i < |init| {
      RegisteredKnows(names, init, i);
      assert Registered(names, lines)[..|Registered(names, init)|] == Registered(names, init);
    }
  }

  /** Registration is idempotent: feeding the same lines to a table that already
      knows their names registers nobody and writes nothing back. */
  lemma {:induction false} RegisteredIdempotent(names: seq<string>, lines: seq<string>)
    ensures Registered(Registered(names, lines), lines) == Registered(names, lines)
  {
    var known := Registered(names, lines);
    forall i | 0 <= i < |lines| && |Split(lines[i])| >= 3 && Split(lines[i])[0] == "add-player"
      ensures Split(lines[i])[1] in known
    {
      RegisteredKnows(names, lines, i);
    }
    KnownUnchanged(known, lines);
  }

  lemma {:induction false} KnownUnchanged(known: seq<string>, lines: seq<string>)
    requires forall i :: 0 <= i < |lines| && |Split(lines[i])| >= 3 && Split(lines[i])[0] == "add-player"
               ==> Split(lines[i])[1] in known
    ensures Registered(known, lines) == known
    decreases |lines|
  {
    if lines != [] {
      var init := lines[..|lines| - 1];
      forall i | 0 <= i < |init| && |Split(init[i])| >= 3 && Split(init[i])[0] == "add-player"
        ensures Split(init[i])[1] in known
      {
        assert init[i] == lines[i];
      }
      KnownUnchanged(known, init);
    }
  }

  /** What a replay of `fed` writes back, call by call, on a table that starts out
      knowing `names`. */
  function Answers(names: seq<string>, fed: seq<string>): (r: seq<seq<string>>)
    ensures |r| == |fed|
    decreases |fed|
  {
    if fed == [] then []
    else
      var n := |fed| - 1;
      Answers(names, fed[..n]) + [Answer(Registered(names, fed[..n]), fed[n])]
  }

  lemma AnswersSnoc(names: seq<string>, fed: seq<string>, line: string)
    ensures Answers(names, fed + [line]) == Answers(names, fed) + [Answer(Registered(names, fed), line)]
  {
    assert (fed + [line])[..|fed|] == fed;
  }

  /** Call by call: the `i`-th call writes back what `Answer` says for the names known
      when its line comes. */
  lemma {:induction false} AnswersAt(names: seq<string>, fed: seq<string>, i: nat)
    requires i < |fed|
    ensures Answers(names, fed)[i] == Answer(Registered(names, fed[..i]), fed[i])
    decreases |fed|
  {
    var n := |fed| - 1;
    var init := Answers(names, fed[..n]);
    assert Answers(names, fed) == init + [Answer(Registered(names, fed[..n]), fed[n])];
    if i < n {
      AnswersAt(names, fed[..n], i);
      assert fed[..n][..i] == fed[..i] && fed[..n][i] == fed[i];
      assert Answers(names, fed)[i] == init[i];
    }
  }

  /** A replay writes back one `new_game 0` per name it registers, and nothing else. */
  lemma {:induction false} AnswersCount(names: seq<string>, fed: seq<string>)
    ensures |Registered(names, fed)| == |names| + |Concat(Answers(names, fed))|
    ensures forall i :: 0 <= i < |Concat(Answers(names, fed))| ==> Concat(Answers(names, fed))[i] == StartGameRequest(0)
    decreases |fed|
  {
    if fed != [] {
      var n := |fed| - 1;
      AnswersCount(names, fed[..n]);
      ConcatSnoc(Answers(names, fed[..n]), Answer(Registered(names, fed[..n]), fed[n]));
    }
  }

  /** One line of the replay: `process(line)`, of which the loop needs to know the
      names it registered, what it wrote back, when it can have raised, and which game
      it left current. */
  method Feed(t: Tournament, line: string, ghost known: seq<string>) returns (r: Result<Shown, Error>, emitted: seq<string>)
    requires t.Valid() && Roster(t.players) == known
    modifies t, t.currentGame
    ensures t.Valid()
    ensures Roster(t.players) == Register(known, line)
    ensures emitted == Answer(known, line)
    ensures NeverRaises(line) && r.Err? ==> t.Stalled()
    ensures t.currentGame == old(t.currentGame) || fresh(t.currentGame)
  {
    RosterIsNames(t.players);
    ghost var handled;
    r, emitted, handled := t.Process(line);
    RosterIsNames(t.players);
  }

  /** The ghost account of a replay that has read `consumed` lines of `log`: `fed`
      holds the non-blank ones, `writes` what each `process` call wrote back, and
      `known` the names the table then knows, on a table that started with `names`. */
  ghost predicate Account(names: seq<string>, log: seq<string>, consumed: nat, fed: seq<string>,
                          writes: seq<seq<string>>, known: seq<string>)
  {
    && consumed <= |log| && fed == NonBlank(log[..consumed])
    && writes == Answers(names, fed) && known == Registered(names, fed)
  }

  /** Reading a non-blank line: it is fed, its answer is written, its name registered. */
  lemma AccountFeed(names: seq<string>, log: seq<string>, k: nat, fed: seq<string>,
                    writes: seq<seq<string>>, known: seq<string>)
    requires Account(names, log, k, fed, writes, known) && k < |log| && Split(log[k]) != []
    ensures Account(names, log, k + 1, fed + [log[k]], writes + [Answer(known, log[k])], Register(known, log[k]))
    ensures Concat(writes + [Answer(known, log[k])]) == Concat(writes) + Answer(known, log[k])
  {
    NonBlankSnoc(log, k);
    AnswersSnoc(names, fed, log[k]);
    RegisteredSnoc(names, fed, log[k]);
    ConcatSnoc(writes, Answer(known, log[k]));
  }

  /** Reading a blank line changes nothing but the count. */
  lemma AccountSkip(names: seq<string>, log: seq<string>, k: nat, fed: seq<string>,
                    writes: seq<seq<string>>, known: seq<string>)
    requires Account(names, log, k, fed, writes, known) && k < |log| && Split(log[k]) == []
    ensures Account(names, log, k + 1, fed, writes, known)
  {
    NonBlankSnoc(log, k);
  }

  /** `process_common_output(read_fd, tournament)` on a log: it first writes the local
      player's registration, then feeds every non-blank line, in order, to `process`;
      the first exception ends the replay. `consumed` is how many log lines were read,
      `fed` the lines given to `process` and `writes` what each of those calls wrote
      back; `shown` holds the display of every call that returned. */
  method Replay(t: Tournament, me: Player, log: seq<string>)
      returns (shown: seq<Shown>, appended: seq<string>, failure: Option<Error>, consumed: nat,
               ghost fed: seq<string>, ghost writes: seq<seq<string>>)
    requires t.Valid()
    modifies t, t.currentGame
    ensures t.Valid()
    ensures consumed <= |log| && fed == NonBlank(log[..consumed])
    ensures failure.None? ==> consumed == |log| && |shown| == |fed|
    ensures failure.Some? ==> |fed| > 0 && fed[|fed| - 1] == log[consumed - 1] && |shown| == |fed| - 1
    ensures failure.Some? ==> !NeverRaises(fed[|fed| - 1]) || t.Stalled()
    ensures Names(t.players) == Registered(Names(old(t.players)), fed)
    ensures writes == Answers(Names(old(t.players)), fed)
    ensures appended == [AddPlayerRequest(me)] + Concat(writes)
  {
    RosterIsNames(t.players);
    ghost var names := Roster(t.players);
    shown, appended, failure := [], [AddPlayerRequest(me)], None;
    consumed, fed, writes := 0, [], [];
    while consumed < |log|
      invariant t.Valid()
      invariant Account(names, log, consumed, fed, writes, Roster(t.players))
      invariant failure.None?
      invariant |shown| == |fed|
      invariant appended == [AddPlayerRequest(me)] + Concat(writes)
      invariant t.currentGame == null || t.currentGame == old(t.currentGame) || fresh(t.currentGame)
    {
      var line := log[consumed];
      if Split(line) == [] {
        AccountSkip(names, log, consumed, fed, writes, Roster(t.players));
        consumed := consumed + 1;
      } else {
        ghost var known := Roster(t.players);
        AccountFeed(names, log, consumed, fed, writes, known);
        var r, emitted := Feed(t, line, known);
        AppendAssoc([AddPlayerRequest(me)], Concat(writes), emitted);
        consumed, fed, writes := consumed + 1, fed + [line], writes + [emitted];
        appended := appended + emitted;
        if r.Err? {
          failure := Some(r.error);
          break;
        }
        shown := shown + [r.value];
      }
    }
    if failure.None? {
      assert log[..consumed] == log;
    }
    RosterIsNames(t.players);
  }
}
