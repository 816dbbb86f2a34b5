/**
 * When the client gives up, and what the GUI is told: exactly the events of the server's logs, with the names of
 * the players the server meant.
 */
module Rendering {
  import opened Bytes
  import opened Messages
  import opened PlayerList
  import opened MessageQueue
  import opened Logs
  import opened Grammar
  import opened Client
  import opened Reassembly

  /** The client knows the board and the players of the game it follows. */
  ghost predicate InformedOf(cli: ClientState, b: Board, log: seq<Event>) {
    && cli.maxx == b.maxx && cli.maxy == b.maxy && cli.names == Numbered(Roster(log))
    && cli.playersInGame == |Roster(log)|
  }

  /** A client without players is one whose game was entered without NEW_GAME. */
  ghost predicate Sighted(cli: ClientState, b: Board, log: seq<Event>) {
    cli.playersInGame == 0 || InformedOf(cli, b, log)
  }

  predicate NeedsPlayers(e: Event) {
    e.data.Pixel? || e.data.PlayerEliminated?
  }

  predicate SomeNeedPlayers(es: seq<Event>) {
    exists i | 0 <= i < |es| :: NeedsPlayers(es[i])
  }

  // ---- Which events are accepted ----

  lemma RosterNumbered(b: Board, log: seq<Event>)
    requires LogOk(b, log)
    ensures |Numbered(Roster(log))| == |Roster(log)| && 2 <= |Roster(log)| <= MAX_PLAYERS
    ensures forall no: nat | no < |Roster(log)| :: NameOf(Numbered(Roster(log)), no) == Roster(log)[no]
  {
    FirstIsNewGame(b, log);
    NumberedInOrder(Roster(log));
  }

  lemma NewGameParses(b: Board, log: seq<Event>)
    requires LogOk(b, log)
    ensures log != [] && log[0].data.NewGame? && log[0].eventNo == 0 && log[0].data.maxx == b.maxx
    ensures log[0].data.maxy == b.maxy
    ensures ParsePlayers(log[0].data.field) == Some(Roster(log))
  {
    FirstIsNewGame(b, log);
    PlayersRoundTrip(Roster(log));
  }

  /** An event of a legal log is accepted by whoever is informed; by the others unless it needs players. */
  lemma LegalIsValid(cli: ClientState, b: Board, log: seq<Event>, i: nat)
    requires LogOk(b, log) && i < |log| && Sighted(cli, b, log)
    ensures ValidEvent(cli, log[i]) <==> cli.playersInGame != 0 || !NeedsPlayers(log[i])
  {
    RosterNumbered(b, log);
    NewGameParses(b, log);
    hide LogOk;
    hide Roster;
    hide Numbered;
    hide ParsePlayers;
    if i > 0 {
      Between(b, log, i);
    }
  }

  lemma KeepSighted(cli: ClientState, e: Event, b: Board, log: seq<Event>)
    ensures Keep(cli, e) == cli.(events := Keep(cli, e).events)
    ensures Sighted(cli, b, log) ==> Sighted(Keep(cli, e), b, log)
  {
  }

  /** Reading in fails exactly when an event needs players and none are known. */
  lemma {:induction false} ReadInAborts(cli: ClientState, b: Board, log: seq<Event>, es: seq<Event>, from: nat)
    requires LogOk(b, log) && Sighted(cli, b, log) && !cli.aborted
    requires from + |es| <= |log| && es == log[from..from + |es|]
    ensures ReadIn(cli, es).aborted <==> cli.playersInGame == 0 && SomeNeedPlayers(es)
    decreases |es|
  {
    hide LogOk;
    hide Sighted;
    hide ValidEvent;
    hide Keep;
    if es != [] {
      assert es[0] == log[from];
      LegalIsValid(cli, b, log, from);
      assert NeedsPlayers(es[0]) ==> SomeNeedPlayers(es);
      if ValidEvent(cli, es[0]) {
        KeepSighted(cli, es[0], b, log);
        assert es[1..] == log[from + 1..from + 1 + |es[1..]|];
        ReadInAborts(Keep(cli, es[0]), b, log, es[1..], from + 1);
        assert SomeNeedPlayers(es) <==> NeedsPlayers(es[0]) || SomeNeedPlayers(es[1..]);
      }
    }
  }

  lemma NewGameInChunk(b: Board, log: GameLog, m: ServerMessage, from: nat)
    requires LogOk(b, log.events) && IsChunk(m, log, from)
    ensures var k := FirstNewGame(m.events); k < |m.events| ==> k == 0 && from == 0 && m.events[0] == log.events[0]
  {
    hide LogOk;
    var k := FirstNewGame(m.events);
    if k < |m.events| {
      assert m.events[k] == log.events[from + k];
      if from + k > 0 {
        Between(b, log.events, from + k);
      }
    }
  }

  lemma ValidNewGame(cli: ClientState, e: Event, names: seq<Text>)
    requires e.data.NewGame? && e.eventNo == 0 && ParsePlayers(e.data.field) == Some(names) && |Numbered(names)| >= 2
    ensures ValidEvent(cli, e)
  {
    hide ParsePlayers;
    hide Numbered;
  }

  lemma InformedBy(cli: ClientState, d: EventData, names: seq<Text>)
    requires d.NewGame? && ParsePlayers(d.field) == Some(names) && |Numbered(names)| < 0x100
    ensures var i := Informed(cli, d);
            && i.maxx == d.maxx && i.maxy == d.maxy && i.names == Numbered(names)
            && i.playersInGame == |Numbered(names)|
            && i.aborted == cli.aborted
  {
    hide ParsePlayers;
    hide Numbered;
    SmallRemainder(|Numbered(names)|);
  }

  lemma SmallRemainder(n: nat)
    requires n < 0x100
    ensures n % 0x100 == n
  {
  }

  /** NEW_GAME is accepted by anybody and tells all about the game. */
  lemma FirstEventInforms(cli: ClientState, b: Board, log: seq<Event>)
    requires LogOk(b, log)
    ensures log != [] && log[0].data.NewGame? && ParsePlayers(log[0].data.field).Some? && ValidEvent(cli, log[0])
    ensures var i := Informed(cli, log[0].data);
            InformedOf(i, b, log) && i.playersInGame != 0 && i.aborted == cli.aborted
  {
    RosterNumbered(b, log);
    assert |Roster(log)| < 0x100;
    hide *;
    NewGameParses(b, log);
    ValidNewGame(cli, log[0], Roster(log));
    InformedBy(cli, log[0].data, Roster(log));
    InformedOfFrom(Informed(cli, log[0].data), b, log);
  }

  lemma InformedOfFrom(cli: ClientState, b: Board, log: seq<Event>)
    requires cli.maxx == b.maxx && cli.maxy == b.maxy && cli.names == Numbered(Roster(log))
    requires cli.playersInGame == |Roster(log)|
    ensures InformedOf(cli, b, log)
  {
  }

  /** Entering a game by a datagram with NEW_GAME. */
  lemma EnteredInformed(cli: ClientState, b: Board, m: ServerMessage, log: GameLog, from: nat)
    requires LogOk(b, log.events) && IsChunk(m, log, from) && FirstNewGame(m.events) < |m.events|
    ensures m.events != [] && m.events[0].data.NewGame? && ParsePlayers(m.events[0].data.field).Some?
    ensures FirstNewGame(m.events) == 0 && ValidEvent(Entered(cli, m), m.events[0])
    ensures var i := Informed(Entered(cli, m), m.events[0].data);
            InformedOf(i, b, log.events) && i.playersInGame != 0 && i.aborted == cli.aborted
  {
    assert Entered(cli, m).aborted == cli.aborted by {
      hide FirstNewGame;
    }
    hide *;
    NewGameInChunk(b, log, m, from);
    FirstEventInforms(Entered(cli, m), b, log.events);
  }

  // ---- What the GUI has been told ----

  function Lines(es: seq<Event>, names: map<nat, Text>): Text {
    if es == [] then [] else Lines(es[..|es| - 1], names) + GuiLine(es[|es| - 1], names)
  }

  function Front<T>(s: seq<T>): seq<T>
    requires s != []
  {
    s[..|s| - 1]
  }

  /** The names the client goes by: those that the last announced game's own first event gives. */
  function Known(blocks: seq<GameLog>, announced: seq<bool>): map<nat, Text>
    requires |blocks| == |announced|
  {
    if blocks == [] then map[]
    else if announced[|announced| - 1] then Numbered(Roster(Last(blocks).events))
    else Known(Front(blocks), Front(announced))
  }

  /** The lines for a list of games: an announced game with its own names, any other with those of an earlier one. */
  function GuiText(blocks: seq<GameLog>, announced: seq<bool>): Text
    requires |blocks| == |announced|
  {
    if blocks == [] then []
    else GuiText(Front(blocks), Front(announced)) + Lines(Last(blocks).events, Known(blocks, announced))
  }

  /** Of a game that was not announced nothing is handed over but NEW_GAME. */
  predicate Short(blocks: seq<GameLog>, announced: seq<bool>) {
    |blocks| == |announced| && forall i | 0 <= i < |blocks| && !announced[i] :: |blocks[i].events| <= 1
  }

  // ---- What is true of a client between two datagrams ----

  predicate Plain(events: map<nat, Event>) {
    forall k | k in events :: !NeedsPlayers(events[k])
  }

  /** The games before the current one are told, and of the current one what has been handed over. */
  ghost predicate Told(cli: ClientState) {
    && cli.blocks != [] && |cli.announced| == |cli.blocks| && Short(Front(cli.blocks), Front(cli.announced))
    && cli.text == GuiText(Front(cli.blocks), Front(cli.announced)) + Lines(Last(cli.blocks).events, cli.names)
  }

  /** Whether the current game was announced is told by the number of players, and only then is everything known. */
  ghost predicate Believes(cli: ClientState, b: Board, log: seq<Event>) {
    && Told(cli) && Sighted(cli, b, log) && (cli.announced[|cli.announced| - 1] <==> cli.playersInGame != 0)
    && (cli.playersInGame != 0 ==> !cli.aborted && 0 in cli.events)
    && (cli.playersInGame == 0 ==> Plain(cli.events) && cli.names == Known(Front(cli.blocks), Front(cli.announced)))
  }

  /** The same with no game entered yet. */
  ghost predicate Faithful(cli: ClientState, b: Board, logs: seq<GameLog>) {
    if cli.gameId == None then
      !cli.aborted && cli.blocks == [] && cli.announced == [] && cli.text == [] && cli.names == map[]
    else
      forall i | 0 <= i < |logs| && cli.gameId == Some(logs[i].id) :: Believes(cli, b, logs[i].events)
  }

  /** Everything handed over has been told, and the names are those known. */
  ghost predicate AllTold(cli: ClientState) {
    && Short(cli.blocks, cli.announced) && cli.text == GuiText(cli.blocks, cli.announced)
    && cli.names == Known(cli.blocks, cli.announced)
  }

  lemma RosterOfPrefix(b: Board, log: seq<Event>, k: nat)
    requires LogOk(b, log) && 1 <= k <= |log|
    ensures Roster(log[..k]) == Roster(log)
  {
    PrefixOk(b, log, k);
  }

  /** The second event of a game always needs players. */
  lemma SecondNeedsPlayers(b: Board, log: seq<Event>)
    requires LogOk(b, log) && |log| >= 2
    ensures NeedsPlayers(log[1])
  {
    PrefixOk(b, log, 1);
    EliminatedBounds(b, log[..1]);
    FirstIsNewGame(b, log[..1]);
    assert log[..1][..0] == [];
    assert Eliminated(log[..1]) == {};
  }

  lemma ShortLast(blocks: seq<GameLog>, announced: seq<bool>)
    requires blocks != [] && |announced| == |blocks| && Short(Front(blocks), Front(announced))
    requires announced[|announced| - 1] || |Last(blocks).events| <= 1
    ensures Short(blocks, announced)
  {
    forall i | 0 <= i < |blocks| && !announced[i] ensures |blocks[i].events| <= 1 {
      if i < |blocks| - 1 {
        assert Front(blocks)[i] == blocks[i] && Front(announced)[i] == announced[i];
      }
    }
  }

  lemma BlindHandsOne(cli: ClientState, b: Board, log: GameLog)
    requires Following(cli, log) && LogOk(b, log.events) && Plain(cli.events)
    ensures cli.nextToSend <= 1
  {
    hide LogOk;
    hide Plain;
    hide NeedsPlayers;
    if cli.nextToSend > 1 {
      HeldIsPlain(cli.events, log.events, 1);
      SecondNeedsPlayers(b, log.events);
    }
  }

  lemma HeldIsPlain(events: map<nat, Event>, log: seq<Event>, k: nat)
    requires Holds(events, log) && Plain(events) && k in events
    ensures k < |log| && !NeedsPlayers(log[k])
  {
  }

  lemma SightedNames(cli: ClientState, b: Board, log: seq<Event>)
    requires Sighted(cli, b, log) && cli.playersInGame != 0
    ensures cli.names == Numbered(Roster(log))
  {
    hide Numbered;
    hide Roster;
  }

  lemma BelievesGives(cli: ClientState, b: Board, log: seq<Event>)
    requires Believes(cli, b, log)
    ensures Told(cli) && Sighted(cli, b, log) && (cli.announced[|cli.announced| - 1] <==> cli.playersInGame != 0)
    ensures cli.playersInGame != 0 ==> !cli.aborted && 0 in cli.events
    ensures cli.playersInGame == 0 ==> Plain(cli.events) && cli.names == Known(Front(cli.blocks), Front(cli.announced))
  {
    hide Told;
    hide Sighted;
    hide Known;
    hide Plain;
  }

  lemma KnownLast(cli: ClientState)
    requires cli.blocks != [] && |cli.announced| == |cli.blocks|
    ensures Known(cli.blocks, cli.announced)
         == if cli.announced[|cli.announced| - 1] then Numbered(Roster(Last(cli.blocks).events))
            else Known(Front(cli.blocks), Front(cli.announced))
    ensures GuiText(cli.blocks, cli.announced)
         == GuiText(Front(cli.blocks), Front(cli.announced))
            + Lines(Last(cli.blocks).events, Known(cli.blocks, cli.announced))
  {
    hide Lines;
    hide Numbered;
    hide Roster;
  }

  lemma ToldGives(cli: ClientState)
    requires Told(cli)
    ensures cli.blocks != [] && |cli.announced| == |cli.blocks| && Short(Front(cli.blocks), Front(cli.announced))
    ensures cli.text == GuiText(Front(cli.blocks), Front(cli.announced)) + Lines(Last(cli.blocks).events, cli.names)
  {
    hide GuiText;
    hide Short;
    hide Lines;
  }

  lemma AllToldFrom(cli: ClientState)
    requires Short(cli.blocks, cli.announced) && cli.names == Known(cli.blocks, cli.announced)
    requires cli.text == GuiText(cli.blocks, cli.announced)
    ensures AllTold(cli)
  {
    hide GuiText;
    hide Known;
  }

  lemma HandedSoFar(cli: ClientState, log: GameLog)
    requires Following(cli, log)
    ensures cli.blocks != [] && cli.nextToSend <= |log.events|
    ensures Last(cli.blocks).events == log.events[..cli.nextToSend]
    ensures UpToDate(cli) && 0 in cli.events ==> 1 <= cli.nextToSend
  {
  }

  /** With everything that has arrived handed over, the current game is told like the others. */
  lemma CurrentTold(cli: ClientState, b: Board, log: GameLog)
    requires Following(cli, log) && LogOk(b, log.events) && Believes(cli, b, log.events)
    requires cli.aborted || UpToDate(cli)
    ensures AllTold(cli)
  {
    hide *;
    BelievesGives(cli, b, log.events);
    ToldGives(cli);
    HandedSoFar(cli, log);
    KnownLast(cli);
    if cli.playersInGame != 0 {
      SightedNames(cli, b, log.events);
      RosterOfPrefix(b, log.events, cli.nextToSend);
    } else {
      BlindHandsOne(cli, b, log);
    }
    ShortLast(cli.blocks, cli.announced);
    AllToldFrom(cli);
  }

  lemma FaithfulGives(cli: ClientState, b: Board, logs: seq<GameLog>, j: nat)
    requires Faithful(cli, b, logs) && j < |logs| && cli.gameId == Some(logs[j].id)
    ensures Believes(cli, b, logs[j].events)
  {
    hide Believes;
  }

  lemma FaithfulFrom(cli: ClientState, b: Board, logs: seq<GameLog>, j: nat)
    requires DistinctIds(logs) && j < |logs| && cli.gameId == Some(logs[j].id) && Believes(cli, b, logs[j].events)
    ensures Faithful(cli, b, logs)
  {
    hide Believes;
    forall i | 0 <= i < |logs| && cli.gameId == Some(logs[i].id) ensures Believes(cli, b, logs[i].events) {
      OneLogPerId(logs, i, j);
    }
  }

  lemma NothingTold(cli: ClientState, b: Board, logs: seq<GameLog>)
    requires Faithful(cli, b, logs) && cli.gameId == None
    ensures AllTold(cli) && !cli.aborted
  {
    hide Believes;
  }

  lemma ClientOkMeans(cli: ClientState, logs: seq<GameLog>)
    requires ClientOk(cli, logs)
    ensures cli.aborted || UpToDate(cli)
    ensures cli.gameId != None ==> FollowsSome(cli, logs)
  {
    hide Registered;
    hide EarlierCopied;
    hide FollowsSome;
    hide UpToDate;
  }

  /**
   * What the GUI has been told: the lines of exactly the events handed over, each game's with its own names if it was
   * announced; and only a client whose current game was not announced has given up.
   */
  lemma FaithfulText(cli: ClientState, b: Board, logs: seq<GameLog>)
    requires ClientOk(cli, logs) && Faithful(cli, b, logs) && AllLogsOk(b, logs)
    ensures AllTold(cli)
    ensures cli.aborted ==> cli.announced != [] && !cli.announced[|cli.announced| - 1]
  {
    hide *;
    ClientOkMeans(cli, logs);
    if cli.gameId == None {
      NothingTold(cli, b, logs);
    } else {
      var j := FollowedLog(cli, logs);
      FollowingId(cli, logs[j]);
      LogOfMany(b, logs, j);
      FaithfulGives(cli, b, logs, j);
      CurrentTold(cli, b, logs[j]);
      BelievesGives(cli, b, logs[j].events);
      ToldGives(cli);
    }
  }

  // ---- Handing over ----

  /** Handing over one event adds its line. */
  lemma HandedTold(cli: ClientState)
    requires Told(cli) && cli.nextToSend in cli.events
    ensures Told(HandOne(cli))
  {
    hide GuiLine;
    hide GuiText;
    hide Short;
    var next, e := HandOne(cli), cli.events[cli.nextToSend];
    assert Front(next.blocks) == Front(cli.blocks);
    LinesStep(Last(cli.blocks).events, e, cli.names);
  }

  lemma LinesStep(es: seq<Event>, e: Event, names: map<nat, Text>)
    ensures Lines(es + [e], names) == Lines(es, names) + GuiLine(e, names)
  {
    hide GuiLine;
    assert (es + [e])[..|es|] == es;
  }

  lemma {:induction false} HandOverTold(cli: ClientState)
    requires Told(cli)
    ensures var h := HandOver(cli);
            Told(h) && Front(h.blocks) == Front(cli.blocks)
            && h == cli.(nextToSend := h.nextToSend, text := h.text, blocks := h.blocks)
    decreases cli.nextWanted - cli.nextToSend
  {
    ToldGives(cli);
    hide Told;
    hide GuiLine;
    if cli.nextToSend < cli.nextWanted && cli.nextToSend in cli.events {
      HandedTold(cli);
      assert Front(HandOne(cli).blocks) == Front(cli.blocks);
      HandOverTold(HandOne(cli));
    }
  }

  /** The client whose count has gone as far as it can. */
  function CaughtUp(cli: ClientState): ClientState {
    cli.(nextWanted := FirstMissing(cli.events, cli.nextWanted))
  }

  lemma CaughtUpTold(cli: ClientState)
    requires Told(cli)
    ensures Told(CaughtUp(cli))
  {
    hide FirstMissing;
    hide GuiText;
    hide Lines;
    hide Short;
  }

  lemma HandOverBelieves(cli: ClientState, b: Board, log: seq<Event>)
    requires Believes(cli, b, log)
    ensures Believes(HandOver(CaughtUp(cli)), b, log)
  {
    CaughtUpTold(cli);
    HandOverTold(CaughtUp(cli));
    hide HandOver;
    hide FirstMissing;
    hide Told;
    hide Known;
    hide Numbered;
    hide Roster;
    hide Plain;
    assert HandOver(CaughtUp(cli)).blocks != [] by {
      ToldGives(HandOver(CaughtUp(cli)));
    }
  }

  // ---- Reading a message in ----

  /** The guard of the branch that gives up. */
  predicate GivesUp(cli: ClientState, m: ServerMessage) {
    cli.gameId == Some(m.gameId) && cli.playersInGame == 0 && SomeNeedPlayers(m.events)
  }

  /** A client without players keeps nothing that needs them. */
  lemma {:induction false} ReadInPlain(cli: ClientState, es: seq<Event>)
    requires cli.playersInGame == 0 && Plain(cli.events)
    ensures Plain(ReadIn(cli, es).events)
    decreases |es|
  {
    hide ParsePlayers;
    hide Numbered;
    if es != [] && ValidEvent(cli, es[0]) {
      ReadInPlain(Keep(cli, es[0]), es[1..]);
    }
  }

  /** Reading in touches only the events and the flag. */
  lemma ReadInTold(cli: ClientState, es: seq<Event>, b: Board, log: seq<Event>)
    ensures Told(cli) ==> Told(ReadIn(cli, es))
    ensures Sighted(cli, b, log) ==> Sighted(ReadIn(cli, es), b, log)
  {
    ReadInChanges(cli, es);
    hide ReadIn;
    hide GuiText;
    hide Lines;
    hide Short;
    hide Numbered;
    hide Roster;
  }

  lemma BelievesFrom(cli: ClientState, b: Board, log: seq<Event>)
    requires Told(cli) && Sighted(cli, b, log) && (cli.announced[|cli.announced| - 1] <==> cli.playersInGame != 0)
    requires cli.playersInGame != 0 ==> !cli.aborted && 0 in cli.events
    requires cli.playersInGame == 0 ==> Plain(cli.events) && cli.names == Known(Front(cli.blocks), Front(cli.announced))
    ensures Believes(cli, b, log)
  {
    hide Told;
    hide Sighted;
    hide Known;
    hide Plain;
  }

  lemma MatchedAs(cli: ClientState, m: ServerMessage, b: Board, log: GameLog, from: nat)
    requires cli.gameId == Some(m.gameId) && !cli.aborted
    requires LogOk(b, log.events) && IsChunk(m, log, from) && Believes(cli, b, log.events)
    ensures ReadIn(cli, m.events).aborted <==> GivesUp(cli, m)
    ensures Believes(ReadIn(cli, m.events), b, log.events)
  {
    var a := ReadIn(cli, m.events);
    ReadInTold(cli, m.events, b, log.events);
    ReadInChanges(cli, m.events);
    BelievesGives(cli, b, log.events);
    ReadInAborts(cli, b, log.events, m.events, from);
    hide ReadIn;
    hide Told;
    hide Sighted;
    hide Plain;
    hide Known;
    hide LogOk;
    hide Believes;
    hide SomeNeedPlayers;
    if cli.playersInGame == 0 {
      ReadInPlain(cli, m.events);
    }
    BelievesFrom(a, b, log.events);
  }

  // ---- Entering a game ----

  lemma EnteredFields(cli: ClientState, m: ServerMessage)
    ensures var e := Entered(cli, m);
            && e.gameId == Some(m.gameId) && e.playersInGame == 0 && e.aborted == cli.aborted && e.text == cli.text
            && e.names == cli.names && e.events == map[] && e.blocks == cli.blocks + [GameLog(m.gameId, [])]
            && e.announced == cli.announced + [FirstNewGame(m.events) < |m.events|]
  {
    hide FirstNewGame;
  }

  lemma InformedFields(cli: ClientState, d: EventData)
    requires d.NewGame? && ParsePlayers(d.field).Some?
    ensures var i := Informed(cli, d);
            && i.text == cli.text && i.blocks == cli.blocks && i.announced == cli.announced && i.aborted == cli.aborted
            && i.gameId == cli.gameId
  {
    hide Numbered;
    hide ParsePlayers;
  }

  /** A game of which nothing has been handed over yet. */
  lemma OpenedTold(cli: ClientState, e: ClientState, id: nat, announced: bool)
    requires AllTold(cli) && e.text == cli.text && e.blocks == cli.blocks + [GameLog(id, [])]
    requires e.announced == cli.announced + [announced]
    ensures Told(e) && Front(e.blocks) == cli.blocks && Front(e.announced) == cli.announced
    ensures cli.names == Known(Front(e.blocks), Front(e.announced))
  {
    assert Front(e.blocks) == cli.blocks && Front(e.announced) == cli.announced;
    assert Last(e.blocks).events == [];
    hide GuiText;
    hide Known;
    hide Short;
  }

  lemma NobodyIsSighted(cli: ClientState, b: Board, log: seq<Event>)
    requires cli.playersInGame == 0
    ensures Sighted(cli, b, log)
  {
    hide InformedOf;
  }

  lemma EmptyIsPlain()
    ensures Plain(map[])
  {
  }

  /** A game entered without NEW_GAME. */
  lemma BlindAs(cli: ClientState, m: ServerMessage, b: Board, log: GameLog)
    requires !cli.aborted && AllTold(cli) && FirstNewGame(m.events) == |m.events|
    ensures Believes(Entered(cli, m), b, log.events) && !Entered(cli, m).aborted
  {
    hide *;
    var e := Entered(cli, m);
    EnteredFields(cli, m);
    OpenedTold(cli, e, m.gameId, false);
    NobodyIsSighted(e, b, log.events);
    EmptyIsPlain();
    BelievesFrom(e, b, log.events);
  }

  lemma ChunkEvents(m: ServerMessage, log: GameLog, from: nat)
    requires IsChunk(m, log, from)
    ensures from + |m.events| <= |log.events| && m.events == log.events[from..from + |m.events|]
  {
  }

  lemma InformedIsSighted(cli: ClientState, b: Board, log: seq<Event>)
    requires InformedOf(cli, b, log)
    ensures Sighted(cli, b, log)
  {
  }

  lemma ReadInKeeps(cli: ClientState, es: seq<Event>)
    ensures var a := ReadIn(cli, es);
            && a.playersInGame == cli.playersInGame && a.announced == cli.announced && a.gameId == cli.gameId
            && a.blocks == cli.blocks && a.names == cli.names
  {
    ReadInChanges(cli, es);
    hide ReadIn;
  }

  lemma NewGameArrives(cli: ClientState, m: ServerMessage, b: Board, log: GameLog, from: nat)
    requires LogOk(b, log.events) && IsChunk(m, log, from) && FirstNewGame(m.events) < |m.events|
    requires !cli.aborted && !ReadIn(cli, m.events).aborted
    ensures 0 in ReadIn(cli, m.events).events
  {
    NewGameInChunk(b, log, m, from);
    ReadInArrives(cli, m.events);
    FirstIsNewGame(b, log.events);
    hide LogOk;
    hide ReadIn;
    hide Roster;
  }

  /** A game not seen before, with or without NEW_GAME. */
  lemma NewAs(cli: ClientState, m: ServerMessage, b: Board, log: GameLog, from: nat)
    requires !cli.aborted && AllTold(cli) && m.gameId !in cli.seen && LogOk(b, log.events) && IsChunk(m, log, from)
    ensures Believes(Mismatched(cli, m), b, log.events) && !Mismatched(cli, m).aborted
  {
    hide *;
    var start, a := Entered(cli, m), Mismatched(cli, m);
    MismatchedSteps(cli, m);
    if FirstNewGame(m.events) == |m.events| {
      BlindAs(cli, m, b, log);
    } else {
      EnteredFields(cli, m);
      EnteredInformed(cli, b, m, log, from);
      var i := Informed(start, m.events[0].data);
      InformedFields(start, m.events[0].data);
      OpenedTold(cli, i, m.gameId, true);
      InformedIsSighted(i, b, log.events);
      ChunkEvents(m, log, from);
      ReadInAborts(i, b, log.events, m.events, from);
      ReadInTold(i, m.events, b, log.events);
      ReadInKeeps(i, m.events);
      NewGameArrives(i, m, b, log, from);
      BelievesFrom(a, b, log.events);
    }
  }

  lemma NoSuchMessage(cli: ClientState, m: ServerMessage)
    requires cli.gameId != Some(m.gameId)
    ensures !GivesUp(cli, m)
  {
    hide SomeNeedPlayers;
  }

  lemma LogOfMany(b: Board, logs: seq<GameLog>, j: nat)
    requires AllLogsOk(b, logs) && j < |logs|
    ensures LogOk(b, logs[j].events) && NumberedLog(logs[j].events)
  {
    AllNumbered(b, logs);
    hide LogOk;
  }

  lemma MismatchedId(cli: ClientState, m: ServerMessage, b: Board, log: GameLog, from: nat)
    requires m.gameId !in cli.seen && LogOk(b, log.events) && IsChunk(m, log, from)
    ensures Mismatched(cli, m).gameId == Some(m.gameId) && m.gameId == log.id
  {
    AllNumbered(b, [log]);
    assert NumberedLog([log][0].events);
    MismatchedFollows(cli, m, log, from);
  }

  lemma ChunkOfSome(m: ServerMessage, logs: seq<GameLog>) returns (i: nat, from: nat)
    requires ChunkOfLogs(m, logs)
    ensures i < |logs| && IsChunk(m, logs[i], from) && m.gameId == logs[i].id
  {
    i, from :| i < |logs| && IsChunk(m, logs[i], from);
  }

  /** Reading a message in or ignoring it: the client follows a log, and fails exactly when it cannot judge. */
  lemma AcceptedOk(cli: ClientState, m: ServerMessage, b: Board, logs: seq<GameLog>) returns (j: nat)
    requires ClientOk(cli, logs) && Faithful(cli, b, logs) && !cli.aborted && DistinctIds(logs)
    requires ChunkOfLogs(m, logs) && AllLogsOk(b, logs)
    ensures j < |logs| && Following(Accepted(cli, m), logs[j])
    ensures Believes(Accepted(cli, m), b, logs[j].events) && (Accepted(cli, m).aborted <==> GivesUp(cli, m))
  {
    hide *;
    AllNumbered(b, logs);
    var i, from := ChunkOfSome(m, logs);
    j := AcceptedFollows(cli, m, logs);
    FollowingId(Accepted(cli, m), logs[j]);
    LogOfMany(b, logs, i);
    AcceptedIs(cli, m);
    if cli.gameId == Some(m.gameId) {
      ReadInKeeps(cli, m.events);
      OneLogPerId(logs, i, j);
      FaithfulGives(cli, b, logs, j);
      MatchedAs(cli, m, b, logs[j], from);
    } else if m.gameId in cli.seen {
      FaithfulGives(cli, b, logs, j);
      NoSuchMessage(cli, m);
    } else {
      MismatchedId(cli, m, b, logs[i], from);
      OneLogPerId(logs, i, j);
      FaithfulText(cli, b, logs);
      NewAs(cli, m, b, logs[i], from);
      NoSuchMessage(cli, m);
    }
  }

  lemma ProcessSteps(cli: ClientState, m: ServerMessage)
    requires !cli.aborted
    ensures Process(cli, m)
         == if Accepted(cli, m).aborted then Accepted(cli, m) else HandOver(CaughtUp(Accepted(cli, m)))
  {
    ProcessIs(cli, m);
    hide Accepted;
    hide HandOver;
    hide Process;
  }

  lemma CaughtUpIs(a: ClientState, log: GameLog)
    requires Following(a, log)
    ensures HandOver(CaughtUp(a)).gameId == a.gameId && HandOver(CaughtUp(a)).aborted == a.aborted
  {
    FinishFollows(a, log);
    hide HandOver;
    hide FirstMissing;
    hide Following;
  }

  /**
   * The client gives up on a datagram of an honest server exactly when it needs the players of a game whose first
   * datagram did not announce them; and whatever it makes of the datagram, what it tells stays as it should be.
   */
  lemma ProcessFaithful(cli: ClientState, m: ServerMessage, b: Board, logs: seq<GameLog>)
    requires ClientOk(cli, logs) && Faithful(cli, b, logs) && !cli.aborted && DistinctIds(logs)
    requires ChunkOfLogs(m, logs) && AllLogsOk(b, logs)
    ensures Process(cli, m).aborted <==> GivesUp(cli, m)
    ensures Faithful(Process(cli, m), b, logs)
  {
    hide *;
    var j := AcceptedOk(cli, m, b, logs);
    var a := Accepted(cli, m);
    ProcessSteps(cli, m);
    FollowingId(a, logs[j]);
    if !a.aborted {
      CaughtUpIs(a, logs[j]);
      HandOverBelieves(a, b, logs[j].events);
    }
    FaithfulFrom(Process(cli, m), b, logs, j);
  }

  /** The current game was entered by a datagram without NEW_GAME. */
  predicate EnteredBlindly(cli: ClientState) {
    cli.announced != [] && !cli.announced[|cli.announced| - 1]
  }

  /** The guard of that branch is that the current game was entered blindly. */
  lemma GivesUpBlindly(cli: ClientState, m: ServerMessage, b: Board, logs: seq<GameLog>)
    requires ClientOk(cli, logs) && Faithful(cli, b, logs)
    ensures GivesUp(cli, m) <==>
            cli.gameId == Some(m.gameId) && EnteredBlindly(cli) && SomeNeedPlayers(m.events)
  {
    ClientOkMeans(cli, logs);
    if cli.gameId != None {
      var j := FollowedLog(cli, logs);
      FollowingId(cli, logs[j]);
      FaithfulGives(cli, b, logs, j);
      BelievesGives(cli, b, logs[j].events);
      ToldGives(cli);
    }
    hide ClientOk;
    hide Faithful;
    hide Believes;
    hide Told;
    hide Sighted;
    hide Following;
    hide SomeNeedPlayers;
  }

  /**
   * A client that entered a game blindly and then gets NEW_GAME in a datagram of its own passes it on, with the
   * names it knows from earlier: the list of players in the event is not looked at again.
   */
  lemma BlindNewGame(cli: ClientState, m: ServerMessage, b: Board, log: GameLog)
    requires Following(cli, log) && LogOk(b, log.events) && Believes(cli, b, log.events)
    requires UpToDate(cli) && !cli.aborted && cli.playersInGame == 0 && cli.nextToSend == 0
    requires m == ServerMessage(log.id, [log.events[0]])
    ensures var h, names := Process(cli, m), Known(Front(cli.blocks), Front(cli.announced));
            !h.aborted && h.names == names && h.text == cli.text + GuiLine(log.events[0], names)
  {
    hide *;
    NewGameParses(b, log.events);
    var e, a := log.events[0], ReadIn(cli, m.events);
    BelievesGives(cli, b, log.events);
    RosterNumbered(b, log.events);
    ValidNewGame(cli, e, Roster(log.events));
    FollowingId(cli, log);
    AcceptedIs(cli, m);
    BlindKeeps(cli, e, b, log);
    ProcessSteps(cli, m);
    BlindHands(a, e);
  }

  lemma BlindKeeps(cli: ClientState, e: Event, b: Board, log: GameLog)
    requires Following(cli, log) && LogOk(b, log.events) && Plain(cli.events) && e == log.events[0] && e.eventNo == 0
    requires UpToDate(cli) && cli.nextToSend == 0 && ValidEvent(cli, e)
    ensures ReadIn(cli, [e]) == cli.(events := cli.events[0 := e]) && 1 !in cli.events && cli.nextWanted == 0
  {
    hide ValidEvent;
    assert [e][1..] == [];
    if 1 in cli.events {
      SecondNeedsPlayers(b, log.events);
    }
    hide LogOk;
  }

  lemma BlindHands(a: ClientState, e: Event)
    requires 0 in a.events && a.events[0] == e && 1 !in a.events && a.nextToSend == a.nextWanted == 0
    ensures var h := HandOver(CaughtUp(a));
            h.text == a.text + GuiLine(e, a.names) && h.names == a.names && h.aborted == a.aborted
  {
    hide GuiLine;
    hide Handed;
    assert FirstMissing(a.events, 0) == 1;
  }

  // ---- The logs grow meanwhile ----

  lemma SightedLater(cli: ClientState, b: Board, log: seq<Event>, later: seq<Event>)
    requires Sighted(cli, b, log) && log <= later && log != [] && LogOk(b, later)
    ensures Sighted(cli, b, later)
  {
    assert later[..|log|] == log;
    RosterOfPrefix(b, later, |log|);
  }

  lemma FaithfulLater(cli: ClientState, b: Board, logs: seq<GameLog>, later: seq<GameLog>)
    requires ClientOk(cli, logs) && Faithful(cli, b, logs) && Grown(logs, later) && DistinctIds(later)
    requires AllLogsOk(b, logs) && AllLogsOk(b, later)
    ensures Faithful(cli, b, later)
  {
    if cli.gameId == None {
      hide Believes;
    } else {
      hide *;
      ClientOkMeans(cli, logs);
      var j := FollowedLog(cli, logs);
      FollowingId(cli, logs[j]);
      GrownAt(logs, later, j);
      LogOfMany(b, logs, j);
      LogOfMany(b, later, j);
      NewGameParses(b, logs[j].events);
      FaithfulGives(cli, b, logs, j);
      BelievesGives(cli, b, logs[j].events);
      SightedLater(cli, b, logs[j].events, later[j].events);
      BelievesFrom(cli, b, later[j].events);
      FaithfulFrom(cli, b, later, j);
    }
  }

  lemma GrownAt(logs: seq<GameLog>, later: seq<GameLog>, j: nat)
    requires Grown(logs, later) && j < |logs|
    ensures j < |later| && later[j].id == logs[j].id && logs[j].events <= later[j].events
  {
  }

  lemma NewClientFaithful(b: Board, logs: seq<GameLog>)
    ensures Faithful(NewClient(), b, logs)
  {
  }
}
