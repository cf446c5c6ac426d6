/**
 * The local player's keyboard commands: the command tables, `parse_line`, and
 * `validate_move`, which turns a move into the log line every replica will replay,
 * or deals the hands when the owner types D.
 */
module Commands {
  import opened Wrappers
  import opened Failures
  import opened Text
  import opened Table

  /** The command types of `COMMANDS`. */
  datatype CommandType = Help | History | MoveCommand | Chips | Status

  /** The move types of `MOVE_COMMANDS`. */
  datatype MoveKind = Raise | Call | Check | Fold | AllIn | Deal

  /** `LOOKUP_MOVE_COMMANDS`: every spelling of every move. */
  const LookupMoveCommands: map<string, MoveKind> := map[
    "r" := Raise, "raise" := Raise, "raise_to" := Raise,
    "c" := Call, "call" := Call,
    "x" := Check, "check" := Check,
    "f" := Fold, "fold" := Fold,
    "aaa" := AllIn, "all-in" := AllIn, "allin" := AllIn, "all_in" := AllIn,
    "d" := Deal, "deal" := Deal]

  /** The non-move part of `LOOKUP_COMMANDS`. The first chips spelling is the two
      characters U+00C2 U+00A3, as they appear in the source. */
  const OtherCommands: map<string, CommandType> := map[
    "h" := Help, "help" := Help,
    "p" := History, "past" := History, "history" := History,
    "\U{C2}\U{A3}" := Chips, "$" := Chips, "chips" := Chips, "money" := Chips, "chip" := Chips, "cash" := Chips,
    "?" := Status, "s" := Status, "status" := Status, "stat" := Status]

  /** `LOOKUP_COMMANDS`: every move spelling is a `MOVE` command. */
  const LookupCommands: map<string, CommandType> :=
    OtherCommands + map w | w in LookupMoveCommands :: MoveCommand

  /** The `move` of `parse_line`'s result: the words of the line, or the one-letter
      shortcut and the number glued to it (`r100`). */
  datatype Move = Words(words: seq<string>) | Shortcut(letter: string, amount: nat)

  /** `parse_line`'s result: `{"type": kind, "move": move}`. */
  datatype Instruction = Instruction(kind: CommandType, move: Move)

  /** `move[0]`: the spelling the command was typed with. */
  function Keyword(move: Move): string {
    match move
    case Words(ws) => if ws == [] then "" else ws[0]
    case Shortcut(letter, _) => letter
  }

  /** The move spellings are exactly the `MOVE` commands, so `validate_move`'s lookup
      of a parsed move always succeeds. */
  lemma MoveCommandsAreMoves(w: string)
    ensures w in LookupCommands && LookupCommands[w] == MoveCommand <==> w in LookupMoveCommands
  {
    if w in LookupMoveCommands {
      assert LookupCommands[w] == MoveCommand;
    } else if w in OtherCommands {
      OthersAreNotMoves(w);
      assert LookupCommands[w] == OtherCommands[w];
    }
  }

  lemma OthersAreNotMoves(w: string)
    requires w in OtherCommands
    ensures OtherCommands[w] != MoveCommand
  {
  }

  /** The one-letter spellings. */
  lemma ShortcutLetters(c: char)
    requires [c] in LookupCommands
    ensures c in {'h', 'p', '$', '?', 's', 'r', 'c', 'x', 'f', 'd'}
  {
    if [c] in OtherCommands {
      OtherLetters(c);
    } else {
      assert [c] in LookupMoveCommands;
      MoveLetters(c);
    }
  }

  lemma OtherLetters(c: char)
    requires [c] in OtherCommands
    ensures c in {'h', 'p', '$', '?', 's'}
  {
  }

  lemma MoveLetters(c: char)
    requires [c] in LookupMoveCommands
    ensures c in {'r', 'c', 'x', 'f', 'd'}
  {
  }

  /** No spelling has a digit for its second character, so a shortcut such as `r100`
      is never taken for a spelling. */
  lemma NoDigitSecond(w: string)
    requires w in LookupCommands
    ensures |w| < 2 || !IsDigit(w[1])
  {
    if w in OtherCommands {
      NoDigitSecondOther(w);
    } else {
      assert w in LookupMoveCommands;
      NoDigitSecondMove(w);
    }
  }

  lemma NoDigitSecondOther(w: string)
    requires w in OtherCommands
    ensures |w| < 2 || !IsDigit(w[1])
  {
  }

  lemma NoDigitSecondMove(w: string)
    requires w in LookupMoveCommands
    ensures |w| < 2 || !IsDigit(w[1])
  {
  }

  /** `parse_line(line)`: a known first word is a command with the whole word list; a
      known first letter followed by a digit is a shortcut whose number `int()` reads;
      anything else is rejected. */
  function ParseLine(line: string): (r: Result<Instruction, Error>)
    ensures r == Err(IndexError) <==> Split(line) == []
    ensures r.Ok? ==> Keyword(r.value.move) in LookupCommands
                      && r.value.kind == LookupCommands[Keyword(r.value.move)]
    ensures r.Ok? && r.value.kind == MoveCommand ==> Keyword(r.value.move) in LookupMoveCommands
    ensures r.Ok? && r.value.move.Words? ==> r.value.move.words == Split(line) && Split(line)[0] in LookupCommands
    ensures r.Ok? && r.value.move.Shortcut? ==>
              var w := Split(line)[0];
              && w !in LookupCommands && |w| >= 2 && [w[0]] == r.value.move.letter
              && IsDigit(w[1]) && ParseInt(w[1..]) == Some(r.value.move.amount)
    ensures r.Err? && r.error.InvalidCommand? ==> r.error.message == "nope: " + line
    ensures Split(line) != [] && Split(line)[0] in LookupCommands ==>
              r == Ok(Instruction(LookupCommands[Split(line)[0]], Words(Split(line))))
    ensures Split(line) != [] && Split(line)[0] !in LookupCommands ==>
              var w := Split(line)[0];
              if |w| >= 2 && [w[0]] in LookupCommands && IsDigit(w[1]) then
                (ParseInt(w[1..]).None? ==> r == Err(ValueError))
                && (ParseInt(w[1..]).Some? ==>
                      r == Ok(Instruction(LookupCommands[[w[0]]], Shortcut([w[0]], ParseInt(w[1..]).value))))
              else r == Err(InvalidCommand("nope: " + line))
  {
    var words := Split(line);
    if words == [] then Err(IndexError)
    else if words[0] in LookupCommands then
      MoveCommandsAreMoves(words[0]);
      Ok(Instruction(LookupCommands[words[0]], Words(words)))
    // a one-letter word not in the table fails the letter test too, so `words[0][1]`
    // is only read when the word has a second character
    else if |words[0]| >= 2 && [words[0][0]] in LookupCommands && IsDigit(words[0][1]) then
      MoveCommandsAreMoves([words[0][0]]);
      match ParseInt(words[0][1..])
      case None => Err(ValueError)
      case Some(v) => Ok(Instruction(LookupCommands[[words[0][0]]], Shortcut([words[0][0]], v)))
    else Err(InvalidCommand("nope: " + line))
  }

  /** A line of known words reads back as that command over those words. */
  lemma ParseKeywordLine(ws: seq<string>)
    requires ws != [] && ws[0] in LookupCommands
    requires forall i :: 0 <= i < |ws| ==> IsToken(ws[i])
    ensures ParseLine(Join(ws)) == Ok(Instruction(LookupCommands[ws[0]], Words(ws)))
  {
    SplitJoin(ws);
  }

  /** A shortcut letter glued to a number reads back as that shortcut and number. */
  lemma ParseShortcutLine(c: char, n: nat)
    requires [c] in LookupCommands
    ensures ParseLine([c] + NatToString(n)) == Ok(Instruction(LookupCommands[[c]], Shortcut([c], n)))
  {
    var w := [c] + NatToString(n);
    assert IsToken(w) by {
      ShortcutLetters(c);
    }
    SplitToken(w);
    assert w !in LookupCommands by {
      if w in LookupCommands {
        NoDigitSecond(w);
      }
    }
    assert w[1..] == NatToString(n);
    ParseNatRoundTrip(n);
  }

  /** `move[1]`, as `format` renders it. */
  function MoveValue(move: Move): (r: Result<string, Error>)
    ensures r.Err? <==> move.Words? && |move.words| < 2
    ensures r.Err? ==> r.error == IndexError
    ensures r.Ok? && move.Words? ==> r.value == move.words[1]
    ensures r.Ok? && move.Shortcut? ==> IsToken(r.value) && ParseInt(r.value) == Some(move.amount)
  {
    match move
    case Words(ws) => if |ws| >= 2 then Ok(ws[1]) else Err(IndexError)
    case Shortcut(_, amount) =>
      // the amount typed is the amount every replica reads back
      ParseNatRoundTrip(amount);
      Ok(IntToString(amount))
  }

  /** What the log line says after `move <name>`. */
  function Action(kind: MoveKind, value: string): seq<string>
    requires kind != Deal
  {
    match kind
    case Raise => ["raises", value]
    case Call => ["call", value]
    case Check => ["checks"]
    case Fold => ["folds"]
    case AllIn => ["is", "all", "in", "with", value]
  }

  /** The format strings of `validate_move`, filled with the player's name and the
      move's value. */
  function MoveText(kind: MoveKind, name: string, value: string): string
    requires kind != Deal
  {
    match kind
    case Raise => "move " + name + " raises " + value
    case Call => "move " + name + " call " + value
    case Check => "move " + name + " checks"
    case Fold => "move " + name + " folds"
    case AllIn => "move " + name + " is all in with " + value
  }

  /** The log line `validate_move` writes for a move of the local player; checks and
      folds do not read `move[1]`. */
  function MoveLine(kind: MoveKind, name: string, move: Move): (r: Result<string, Error>)
    requires kind != Deal
    ensures r.Err? <==> kind !in {Check, Fold} && MoveValue(move).Err?
    ensures r.Err? ==> r.error == IndexError
  {
    if kind in {Check, Fold} then Ok(MoveText(kind, name, ""))
    else
      match MoveValue(move)
      case Err(e) => Err(e)
      case Ok(value) => Ok(MoveText(kind, name, value))
  }

  /** Every replica reads a move line back as a `move` by that player, with the words
      of the move after the name. */
  lemma MoveLineParses(kind: MoveKind, name: string, move: Move)
    requires kind != Deal && IsToken(name)
    requires move.Words? ==> forall i :: 0 <= i < |move.words| ==> IsToken(move.words[i])
    requires MoveLine(kind, name, move).Ok?
    ensures var value := if kind in {Check, Fold} then "" else MoveValue(move).value;
            Split(MoveLine(kind, name, move).value) == ["move", name] + Action(kind, value)
  {
    var value := if kind in {Check, Fold} then "" else MoveValue(move).value;
    assert kind !in {Check, Fold} ==> IsToken(value) by {
      if kind !in {Check, Fold} && move.Words? {
        assert value == move.words[1];
      }
    }
    assert MoveLine(kind, name, move).value == MoveText(kind, name, value);
    MoveTextParses(kind, name, value);
  }

  lemma MoveTextParses(kind: MoveKind, name: string, value: string)
    requires kind != Deal && IsToken(name) && (kind !in {Check, Fold} ==> IsToken(value))
    ensures Split(MoveText(kind, name, value)) == ["move", name] + Action(kind, value)
  {
    match kind
    case Raise => RaiseLineParses(name, value);
    case Call => CallLineParses(name, value);
    case Check => CheckLineParses(name);
    case Fold => FoldLineParses(name);
    case AllIn => AllInLineParses(name, value);
  }

  lemma RaiseLineParses(name: string, value: string)
    requires IsToken(name) && IsToken(value)
    ensures Split("move " + name + " raises " + value) == ["move", name, "raises", value]
  {
    assert "move " + name + " raises " + value == "move" + " " + name + " " + "raises" + " " + value;
    WordsParse4("move", name, "raises", value);
  }

  lemma CallLineParses(name: string, value: string)
    requires IsToken(name) && IsToken(value)
    ensures Split("move " + name + " call " + value) == ["move", name, "call", value]
  {
    assert "move " + name + " call " + value == "move" + " " + name + " " + "call" + " " + value;
    WordsParse4("move", name, "call", value);
  }

  lemma CheckLineParses(name: string)
    requires IsToken(name)
    ensures Split("move " + name + " checks") == ["move", name, "checks"]
  {
    assert "move " + name + " checks" == "move" + " " + name + " " + "checks";
    WordsParse3("move", name, "checks");
  }

  lemma FoldLineParses(name: string)
    requires IsToken(name)
    ensures Split("move " + name + " folds") == ["move", name, "folds"]
  {
    assert "move " + name + " folds" == "move" + " " + name + " " + "folds";
    WordsParse3("move", name, "folds");
  }

  lemma AllInLineParses(name: string, value: string)
    requires IsToken(name) && IsToken(value)
    ensures Split("move " + name + " is all in with " + value) == ["move", name, "is", "all", "in", "with", value]
  {
    assert "move " + name + " is all in with " + value
        == "move" + " " + name + " " + "is" + " " + "all" + " " + "in" + " " + "with" + " " + value;
    WordsParse7("move", name, "is", "all", "in", "with", value);
  }

  /** The turn check of `validate_move` for any move but DEAL: only the player whose
      turn it is gets a move line. */
  function TurnMove(next: Result<string, Error>, me: string, kind: MoveKind, move: Move): (r: Result<string, Error>)
    requires kind != Deal
    ensures r.Ok? <==> next == Ok(me) && MoveLine(kind, me, move).Ok?
    ensures r.Ok? ==> r == MoveLine(kind, me, move)
    ensures next.Err? ==> r == Err(next.error)
    ensures next.Ok? && next.value != me ==> r == Err(InvalidCommand("WAIT YOUR TURN"))
  {
    match next
    case Err(e) => Err(e)
    case Ok(name) => if name != me then Err(InvalidCommand("WAIT YOUR TURN")) else MoveLine(kind, me, move)
  }

  /** `validate_move(move)` on the local table `t`. DEAL is the owner's, once per
      table: it clears `readyToDeal` and deals the current game, whose `hands` lines are
      `dealt`; `Ok(None)` is the source's `None`. Any other move becomes its log line
      when it is the local player's turn. */
  method ValidateMove(t: Tournament, move: Move) returns (r: Result<Option<string>, Error>, dealt: seq<string>, ghost hands: seq<Hand>)
    requires t.Valid() && Keyword(move) in LookupMoveCommands
    modifies t`readyToDeal, t.DeckOf()
    ensures t.Valid()
    ensures LookupMoveCommands[Keyword(move)] == Deal && old(t.readyToDeal) && t.isOwner ==>
              && !t.readyToDeal
              && (t.currentGame == null ==> r == Err(AttributeError) && dealt == [])
              && (t.currentGame != null ==>
                    && (r.Ok? ==> r.value == None)
                    && t.currentGame.HandsDealt(dealt, if r.Ok? then Pass else Fail(r.error), hands))
    ensures LookupMoveCommands[Keyword(move)] == Deal && !(old(t.readyToDeal) && t.isOwner) ==>
              && r == Err(InvalidCommand("you cant do this now")) && dealt == []
              && t.readyToDeal == old(t.readyToDeal) && unchanged(t.DeckOf())
    ensures LookupMoveCommands[Keyword(move)] != Deal ==>
              && dealt == [] && t.readyToDeal == old(t.readyToDeal) && unchanged(t.DeckOf())
              && r == match TurnMove(t.NextToPlay(), t.localName, LookupMoveCommands[Keyword(move)], move)
                      case Ok(line) => Ok(Some(line))
                      case Err(e) => Err(e)
  {
    var thisMove := LookupMoveCommands[Keyword(move)];
    dealt, hands := [], [];
    if thisMove == Deal {
      if t.readyToDeal && t.isOwner {
        t.readyToDeal := false;
        var outcome;
        dealt, outcome, hands := t.DealHands();
        r := if outcome.Pass? then Ok(None) else Err(outcome.error);
      } else {
        r := Err(InvalidCommand("you cant do this now"));
      }
    } else {
      var next := t.NextToPlay();
      match TurnMove(next, t.localName, thisMove, move)
      case Ok(line) => r := Ok(Some(line));
      case Err(e) => r := Err(e);
    }
  }
}
