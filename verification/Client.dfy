/** The client: how it puts the log of a game back together and hands it to the GUI. */
module Client {
  import opened Bytes
  import opened Messages
  import opened PlayerList
  import opened Logs

  /**
   * The fields of Client that concern the server. `text` is everything given to the GUI socket. Not in the code:
   * `blocks` is the history of events handed over, game by game in the order the games were entered, and
   * `announced` tells of each of these games whether the datagram by which it was entered held NEW_GAME.
   */
  datatype ClientState = ClientState(
    gameId: Option<nat>,
    seen: set<nat>,
    playersInGame: nat,
    maxx: nat,
    maxy: nat,
    names: map<nat, Text>,
    events: map<nat, Event>,
    nextWanted: nat,
    nextToSend: nat,
    aborted: bool,
    text: Text,
    blocks: seq<GameLog>,
    announced: seq<bool>)

  function NewClient(): ClientState {
    ClientState(None, {}, 0, 0, 0, map[], map[], 0, 0, false, [], [], [])
  }

  /** validateEvent; a false result ends the process. */
  predicate ValidEvent(cli: ClientState, e: Event) {
    match e.data
    case NewGame(_, _, field) =>
      e.eventNo == 0 && ParsePlayers(field).Some? && |Numbered(ParsePlayers(field).value)| >= 2
    case Pixel(no, x, y) => no < cli.playersInGame && x < cli.maxx && y < cli.maxy
    case PlayerEliminated(no) => no < cli.playersInGame
    case GameOver => true
    case UnknownEvent => true
  }

  function Keep(cli: ClientState, e: Event): ClientState {
    if e.eventNo in cli.events then cli else cli.(events := cli.events[e.eventNo := e])
  }

  function ReadIn(cli: ClientState, es: seq<Event>): ClientState
    decreases |es|
  {
    if es == [] then cli
    else if !ValidEvent(cli, es[0]) then cli.(aborted := true)
    else ReadIn(Keep(cli, es[0]), es[1..])
  }

  function FirstNewGame(es: seq<Event>): (k: nat)
    ensures k <= |es| && (k < |es| ==> es[k].data.NewGame?)
    ensures forall i | 0 <= i < k :: !es[i].data.NewGame?
  {
    if es == [] || es[0].data.NewGame? then 0 else 1 + FirstNewGame(es[1..])
  }

  /** A game not seen before begins with an empty log; what is known of players and board is left as it was. */
  function Entered(cli: ClientState, m: ServerMessage): ClientState {
    cli.(gameId := Some(m.gameId), seen := cli.seen + {m.gameId}, playersInGame := 0, nextWanted := 0, nextToSend := 0,
         events := map[], blocks := cli.blocks + [GameLog(m.gameId, [])],
         announced := cli.announced + [FirstNewGame(m.events) < |m.events|])
  }

  function Informed(cli: ClientState, d: EventData): ClientState
    requires d.NewGame? && ParsePlayers(d.field).Some?
  {
    var names := Numbered(ParsePlayers(d.field).value);
    cli.(maxx := d.maxx, maxy := d.maxy, names := names, playersInGame := |names| % 0x100)
  }

  /** Without NEW_GAME the events of the first datagram of a game are ignored. */
  function Mismatched(cli: ClientState, m: ServerMessage): ClientState {
    if m.gameId in cli.seen then cli
    else
      var start, k := Entered(cli, m), FirstNewGame(m.events);
      if k == |m.events| then start
      else if !ValidEvent(start, m.events[k]) then start.(aborted := true)
      else ReadIn(Informed(start, m.events[k].data), m.events)
  }

  // ---- The two loops at the end ----

  function Above(events: map<nat, Event>, n: nat): set<nat> {
    set k | k in events && k >= n
  }

  /** The first number from n on whose event has not arrived. */
  function FirstMissing(events: map<nat, Event>, n: nat): (r: nat)
    ensures r >= n && r !in events && forall k | n <= k < r :: k in events
    decreases |Above(events, n)|
  {
    if n in events then
      assert Above(events, n) == Above(events, n + 1) + {n};
      FirstMissing(events, n + 1)
    else n
  }

  function Handed(blocks: seq<GameLog>, e: Event): seq<GameLog> {
    if blocks == [] then []
    else
      var last := blocks[|blocks| - 1];
      blocks[|blocks| - 1 := GameLog(last.id, last.events + [e])]
  }

  function HandOne(cli: ClientState): ClientState
    requires cli.nextToSend in cli.events
  {
    var e := cli.events[cli.nextToSend];
    cli.(nextToSend := cli.nextToSend + 1, text := cli.text + GuiLine(e, cli.names), blocks := Handed(cli.blocks, e))
  }

  function HandOver(cli: ClientState): ClientState
    decreases cli.nextWanted - cli.nextToSend
  {
    if cli.nextToSend < cli.nextWanted && cli.nextToSend in cli.events then HandOver(HandOne(cli)) else cli
  }

  function Accepted(cli: ClientState, m: ServerMessage): ClientState {
    if cli.gameId != Some(m.gameId) then Mismatched(cli, m) else ReadIn(cli, m.events)
  }

  /** A process that has exited takes nothing more. */
  function Process(cli: ClientState, m: ServerMessage): ClientState {
    if cli.aborted then cli
    else
      var a := Accepted(cli, m);
      if a.aborted then a else HandOver(a.(nextWanted := FirstMissing(a.events, a.nextWanted)))
  }

  /** A datagram that does not decode ends the process; one that is too long is dropped. */
  function Take(cli: ClientState, buffer: seq<byte>, size: nat): ClientState
    requires |buffer| == INBOUND_BUFFER_SIZE
  {
    if size > MAX_UDP_DATA_FIELD_SIZE then cli
    else match DecodeMessage(buffer, size)
      case None => cli.(aborted := true)
      case Some(m) => Process(cli, m)
  }

  /** How a datagram of another game is met, case by case. */
  lemma MismatchedSteps(cli: ClientState, m: ServerMessage)
    ensures var start, k := Entered(cli, m), FirstNewGame(m.events);
            Mismatched(cli, m) == if m.gameId in cli.seen then cli
                                  else if k == |m.events| then start
                                  else if !ValidEvent(start, m.events[k]) then start.(aborted := true)
                                  else ReadIn(Informed(start, m.events[k].data), m.events)
  {
    hide ReadIn;
    hide FirstNewGame;
    hide ValidEvent;
    hide Informed;
    hide Entered;
  }
}
