/** The game: who plays, where the worms are, and what each operation of the game manager does. */
module Game {
  import opened Bytes
  import opened Names
  import opened Messages
  import opened PlayerList
  import opened MessageQueue
  import opened Logs
  import opened Grammar
  import Rng

  /**
   * The displacement of a worm at a position that faces a direction in degrees: cosine and sine in the code, and the
   * rounding of the sums, which depends on the position; arbitrary here.
   */
  type Motion = (real, real, nat) -> (real, real)

  datatype Settings = Settings(board: Board, turningSpeed: nat, motion: Motion)

  /** The ranges accepted by the server's configuration. */
  type Config = c: Settings | c.board.Valid() && 1 <= c.turningSpeed <= 90
    witness Settings(Board(640, 480), 6, (x: real, y: real, d: nat) => (0.0, 0.0))

  datatype Player = Player(
    name: Text,
    fingerprint: Fingerprint,
    sessionId: nat,
    x: real,
    y: real,
    pixel: Coordinates,
    movementDirection: nat,
    turnDirection: TurnDirection,
    takesPart: bool,
    isDisconnected: bool,
    isEliminated: bool,
    isReady: bool)

  /**
   * The fields of GameManager. `players` is the map keyed by name, as the list of its values in key order.
   * Not in the code: `draws` counts the numbers drawn from the generator, and `logs` is the history of all games, the
   * one being played last.
   */
  datatype GameState = GameState(
    gameId: nat,
    started: bool,
    watchers: map<Fingerprint, nat>,
    players: seq<Player>,
    numbers: map<Text, nat>,
    eaten: set<Coordinates>,
    rng: nat,
    draws: nat,
    alive: nat,
    mq: MQ,
    logs: seq<GameLog>)

  function NewServer(seed: nat): GameState {
    GameState(0, false, map[], [], map[], {}, seed, 0, 0, EMPTY_MQ, [])
  }

  // ---- Events ----

  function NumberOf(g: GameState, name: Text): nat {
    if name in g.numbers then g.numbers[name] else 0
  }

  function SaveEvent(g: GameState, d: EventData): GameState {
    g.(mq := Schedule(g.mq, g.gameId, d), logs := AppendEvent(g.logs, d))
  }

  // ---- Elimination and the end of a game ----

  /** The players that stay when the disconnected ones are erased; nobody is ready any more. */
  function Staying(players: seq<Player>): seq<Player> {
    if players == [] then []
    else (if players[0].isDisconnected then [] else [players[0].(isReady := false)]) + Staying(players[1..])
  }

  function Leaving(players: seq<Player>): seq<Fingerprint> {
    if players == [] then []
    else (if players[0].isDisconnected then [players[0].fingerprint] else []) + Leaving(players[1..])
  }

  function DropAll(q: MQ, fs: seq<Fingerprint>): MQ
    decreases |fs|
  {
    if fs == [] then q else DropAll(Drop(q, fs[0]), fs[1..])
  }

  function EraseDisconnected(g: GameState): GameState {
    g.(players := Staying(g.players), mq := DropAll(g.mq, Leaving(g.players)))
  }

  function EndGame(g: GameState): GameState {
    EraseDisconnected(SaveEvent(g, GameOver).(started := false))
  }

  /** The count is kept in eight bits. */
  function Eliminate(g: GameState, j: nat): GameState
    requires j < |g.players|
  {
    var p := g.players[j].(isEliminated := true);
    var h := SaveEvent(g.(players := g.players[j := p], alive := (g.alive + 0xFF) % 0x100),
                       PlayerEliminated(NumberOf(g, p.name)));
    if h.alive < 2 then EndGame(h) else h
  }

  function EatPixel(g: GameState, j: nat, pixel: Coordinates): GameState
    requires j < |g.players|
  {
    var p := g.players[j].(pixel := pixel);
    SaveEvent(g.(players := g.players[j := p], eaten := g.eaten + {pixel}),
              Pixel(NumberOf(g, p.name), pixel.0, pixel.1))
  }

  // ---- A turn ----

  /** Conversion of a coordinate to a pixel; only used on coordinates that are not negative. */
  function Truncated(x: real): nat {
    if x < 0.0 then 0 else x.Floor
  }

  function Turned(c: Config, p: Player): nat {
    match p.turnDirection
    case Right => (p.movementDirection + c.turningSpeed) % 360
    case Left => (p.movementDirection + 360 - c.turningSpeed) % 360
    case Straight => p.movementDirection
  }

  function Moved(c: Config, p: Player): Player {
    var d := Turned(c, p);
    var step := c.motion(p.x, p.y, d);
    p.(movementDirection := d, x := p.x + step.0, y := p.y + step.1)
  }

  function MovePlayer(c: Config, g: GameState, j: nat): GameState
    requires j < |g.players|
  {
    if g.players[j].isEliminated || !g.players[j].takesPart then g
    else
      var p := Moved(c, g.players[j]);
      var h := g.(players := g.players[j := p]);
      var pixel := (Truncated(p.x), Truncated(p.y));
      if p.x < 0.0 || p.y < 0.0 then Eliminate(h, j)
      else if pixel == p.pixel then h
      else if pixel.0 >= c.board.maxx || pixel.1 >= c.board.maxy || pixel in g.eaten then Eliminate(h, j)
      else EatPixel(h, j, pixel)
  }

  /** The loop over the players, left as soon as the game is over. */
  function RunTurnFrom(c: Config, g: GameState, n: nat, i: nat): GameState
    decreases n - i
  {
    if i >= n || !g.started || i >= |g.players| then g else RunTurnFrom(c, MovePlayer(c, g, i), n, i + 1)
  }

  function RunTurn(c: Config, g: GameState): GameState {
    RunTurnFrom(c, g, |g.players|, 0)
  }

  // ---- The start of a game ----

  function PlayerNamesOf(players: seq<Player>): (names: seq<Text>)
    ensures |names| == |players| && forall i | 0 <= i < |players| :: names[i] == players[i].name
  {
    seq(|players|, i requires 0 <= i < |players| => players[i].name)
  }

  function NumberAll(names: seq<Text>): map<Text, nat> {
    if names == [] then map[]
    else
      var m := NumberAll(names[..|names| - 1]);
      var name := names[|names| - 1];
      if name in m then m else m[name := |m| % 0x100]
  }

  /** Everything startGame does before its loop. */
  function OpenGame(c: Config, g: GameState): GameState {
    var names := PlayerNamesOf(g.players);
    var d := NewGame(c.board.maxx, c.board.maxy, PlayersField(names));
    g.(gameId := g.rng, rng := Rng.Next(g.rng), draws := g.draws + 1, started := true,
       alive := |g.players| % 0x100, eaten := {}, numbers := NumberAll(names),
       mq := Schedule(g.mq, g.rng, d), logs := OpenLog(g.logs, g.rng, d))
  }

  /** A player at the start: the three numbers drawn give its place and direction. */
  function Placed(c: Config, p: Player, r1: nat, r2: nat, r3: nat): Player {
    var x, y := (r1 % c.board.maxx) as real + 0.5, (r2 % c.board.maxy) as real + 0.5;
    p.(takesPart := true, isEliminated := false, x := x, y := y, movementDirection := r3 % 360,
       pixel := (Truncated(x), Truncated(y)))
  }

  function PlacePlayer(c: Config, g: GameState, j: nat): GameState
    requires j < |g.players|
  {
    var r1 := g.rng;
    var r2 := Rng.Next(r1);
    var r3 := Rng.Next(r2);
    var p := Placed(c, g.players[j], r1, r2, r3);
    var h := g.(players := g.players[j := p], rng := Rng.Next(r3), draws := g.draws + 3);
    if p.pixel in g.eaten then Eliminate(h, j) else EatPixel(h, j, p.pixel)
  }

  function PlaceFrom(c: Config, g: GameState, n: nat, i: nat): GameState
    decreases n - i
  {
    if i >= n || !g.started || i >= |g.players| then g else PlaceFrom(c, PlacePlayer(c, g, i), n, i + 1)
  }

  function StartGame(c: Config, g: GameState): GameState {
    PlaceFrom(c, OpenGame(c, g), |g.players|, 0)
  }

  function ReadyPlayers(players: seq<Player>): nat {
    if players == [] then 0
    else ReadyPlayers(players[..|players| - 1]) + if players[|players| - 1].isReady then 1 else 0
  }

  predicate CanStart(players: seq<Player>) {
    ReadyPlayers(players) > 1 && ReadyPlayers(players) == |players|
  }

  function MaybeStart(c: Config, g: GameState): GameState {
    if !g.started && CanStart(g.players) then StartGame(c, g) else g
  }

  // ---- Connections ----

  /** The first player with this fingerprint is marked as disconnected. */
  function Marked(players: seq<Player>, f: Fingerprint): seq<Player> {
    if players == [] then []
    else if players[0].fingerprint == f then [players[0].(isDisconnected := true)] + players[1..]
    else [players[0]] + Marked(players[1..], f)
  }

  function DropConnection(g: GameState, f: Fingerprint): GameState {
    var h := g.(mq := Drop(g.mq, f));
    if f in h.watchers then h.(watchers := h.watchers - {f})
    else
      var marked := h.(players := Marked(h.players, f));
      if !g.started then EraseDisconnected(marked) else marked
  }

  // ---- Messages from clients ----

  function FindPlayer(players: seq<Player>, name: Text): (k: nat)
    ensures k <= |players| && (k < |players| ==> players[k].name == name)
    ensures forall i | 0 <= i < k :: players[i].name != name
  {
    if players == [] then 0 else if players[0].name == name then 0 else 1 + FindPlayer(players[1..], name)
  }

  function InsertPlayer(players: seq<Player>, p: Player): seq<Player> {
    if players == [] || Less(p.name, players[0].name) then [p] + players
    else [players[0]] + InsertPlayer(players[1..], p)
  }

  predicate HasFingerprint(players: seq<Player>, f: Fingerprint) {
    exists i | 0 <= i < |players| :: players[i].fingerprint == f
  }

  function HandleWatcher(g: GameState, f: Fingerprint, m: ClientMessage): GameState {
    if f !in g.watchers then
      if HasFingerprint(g.players, f) then g
      else g.(watchers := g.watchers[f := m.sessionId], mq := Add(g.mq, f, m.nextExpectedEventNo))
    else if g.watchers[f] == m.sessionId then g.(mq := Ack(g.mq, f, m.nextExpectedEventNo))
    else if g.watchers[f] < m.sessionId then
      g.(mq := Add(Drop(g.mq, f), f, m.nextExpectedEventNo), watchers := g.watchers[f := m.sessionId])
    else g
  }

  /** The loop that disconnects older sessions of this address, over the names present when it starts. */
  function DropOlder(g: GameState, names: seq<Text>, f: Fingerprint, sessionId: nat): GameState
    decreases |names|
  {
    if names == [] then g
    else
      var k := FindPlayer(g.players, names[0]);
      var h := if k < |g.players| && g.players[k].fingerprint == f && sessionId > g.players[k].sessionId
               then DropConnection(g, f) else g;
      DropOlder(h, names[1..], f, sessionId)
  }

  function NewPlayer(f: Fingerprint, m: ClientMessage, ready: bool): Player {
    Player(m.playerName, f, m.sessionId, 0.0, 0.0, (0, 0), 0, m.turnDirection, false, false, false, ready)
  }

  /** A known player steers, and between games may get ready. */
  function Steered(g: GameState, k: nat, f: Fingerprint, m: ClientMessage): GameState
    requires k < |g.players|
  {
    var p := g.players[k];
    var q := p.(turnDirection := m.turnDirection, isReady := p.isReady || (!g.started && m.turnDirection != Straight));
    g.(players := g.players[k := q], mq := Ack(g.mq, f, m.nextExpectedEventNo))
  }

  /** A new player joins. */
  function Joining(g: GameState, f: Fingerprint, m: ClientMessage, ready: bool): GameState {
    g.(players := InsertPlayer(g.players, NewPlayer(f, m, ready)), mq := Add(g.mq, f, m.nextExpectedEventNo))
  }

  function HandlePlayer(c: Config, g: GameState, f: Fingerprint, m: ClientMessage): GameState {
    var k := FindPlayer(g.players, m.playerName);
    if k < |g.players| then
      if g.players[k].fingerprint != f then g else MaybeStart(c, Steered(g, k, f, m))
    else
      var h := DropOlder(g, PlayerNamesOf(g.players), f, m.sessionId);
      var ready := !g.started && m.turnDirection != Straight;
      if |h.players| == MAX_PLAYERS then h else MaybeStart(c, Joining(h, f, m, ready))
  }

  function HandleMessage(c: Config, g: GameState, f: Fingerprint, m: ClientMessage): GameState {
    if m.playerName == [] then HandleWatcher(g, f, m) else HandlePlayer(c, g, f, m)
  }
}
