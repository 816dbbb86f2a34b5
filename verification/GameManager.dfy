/** The game manager as the code runs it: fields updated in place, loops over the players, a queue and a generator. */
module GameManagers {
  import opened Bytes
  import opened Names
  import opened Messages
  import opened PlayerList
  import opened MessageQueue
  import opened Logs
  import opened Grammar
  import opened Game
  import opened GameInvariant
  import opened GameTurns
  import opened GameStart
  import opened GameMessages
  import opened MQManagers
  import opened Rng

  // ---- Erasing by name, as the code does it ----

  function NotReady(players: seq<Player>): seq<Player> {
    if players == [] then [] else [players[0].(isReady := false)] + NotReady(players[1..])
  }

  datatype Erasure = Erasure(name: Text, fingerprint: Fingerprint)

  function ToErase(players: seq<Player>): seq<Erasure> {
    if players == [] then []
    else
      var first := if players[0].isDisconnected then [Erasure(players[0].name, players[0].fingerprint)] else [];
      first + ToErase(players[1..])
  }

  function Without(players: seq<Player>, name: Text): seq<Player> {
    if players == [] then []
    else if players[0].name == name then players[1..]
    else [players[0]] + Without(players[1..], name)
  }

  function EraseEach(players: seq<Player>, erasures: seq<Erasure>): seq<Player>
    decreases |erasures|
  {
    if erasures == [] then players else EraseEach(Without(players, erasures[0].name), erasures[1..])
  }

  lemma {:induction false} EraseEachKeepsFirst(p: Player, players: seq<Player>, erasures: seq<Erasure>)
    requires forall i | 0 <= i < |erasures| :: erasures[i].name != p.name
    ensures EraseEach([p] + players, erasures) == [p] + EraseEach(players, erasures)
    decreases |erasures|
  {
    if erasures != [] {
      assert ([p] + players)[1..] == players;
      EraseEachKeepsFirst(p, Without(players, erasures[0].name), erasures[1..]);
    }
  }

  lemma {:induction false} ErasuresListed(players: seq<Player>, name: Text)
    requires forall i | 0 <= i < |players| :: players[i].name != name
    ensures forall i | 0 <= i < |ToErase(players)| :: ToErase(players)[i].name != name
  {
    if players != [] {
      ErasuresListed(players[1..], name);
    }
  }

  lemma TailOk(players: seq<Player>)
    requires PlayersOk(players) && players != []
    ensures PlayersOk(players[1..]) && forall i | 0 <= i < |players[1..]| :: players[1..][i].name != players[0].name
  {
    LessIrreflexive(players[0].name);
    hide Less;
    hide PlayerName;
    forall i | 0 <= i < |players[1..]| ensures players[1..][i].name != players[0].name {
      assert Less(players[0].name, players[i + 1].name);
    }
  }

  /** Erasing the collected names one by one leaves exactly the connected players. */
  lemma {:induction false} ErasingLeavesStaying(players: seq<Player>)
    requires PlayersOk(players)
    ensures EraseEach(NotReady(players), ToErase(players)) == Staying(players)
    ensures Leaving(players) == FingerprintsOf(ToErase(players))
  {
    hide PlayersOk;
    if players != [] {
      TailOk(players);
      ErasingLeavesStaying(players[1..]);
      var p, rest := players[0].(isReady := false), NotReady(players[1..]);
      if players[0].isDisconnected {
        var e := Erasure(players[0].name, players[0].fingerprint);
        assert ToErase(players)[1..] == ToErase(players[1..]) && ToErase(players)[0] == e;
        assert ([p] + rest)[1..] == rest;
      } else {
        ErasuresListed(players[1..], p.name);
        EraseEachKeepsFirst(p, rest, ToErase(players[1..]));
        assert ToErase(players) == ToErase(players[1..]);
        assert Leaving(players) == Leaving(players[1..]);
      }
    }
  }

  function FingerprintsOf(erasures: seq<Erasure>): seq<Fingerprint> {
    if erasures == [] then [] else [erasures[0].fingerprint] + FingerprintsOf(erasures[1..])
  }

  lemma {:induction false} NotReadyAppended(players: seq<Player>, p: Player)
    ensures NotReady(players + [p]) == NotReady(players) + [p.(isReady := false)]
    ensures ToErase(players + [p])
         == ToErase(players) + if p.isDisconnected then [Erasure(p.name, p.fingerprint)] else []
  {
    if players == [] {
      assert [p][1..] == [];
      assert [] + [p] == [p];
    } else {
      assert (players + [p])[1..] == players[1..] + [p];
      NotReadyAppended(players[1..], p);
    }
  }

  // ---- The list of players stays a proper map ----

  lemma UpdateKeeps(players: seq<Player>, j: nat, p: Player)
    requires PlayersOk(players) && j < |players| && p.name == players[j].name
    ensures PlayersOk(players[j := p])
  {
    assert SameNames(players, players[j := p]);
    hide PlayersOk;
    SameNamesKeep(players, players[j := p], []);
  }

  lemma InsertKeeps(players: seq<Player>, p: Player)
    requires PlayersOk(players) && PlayerName(p.name) && !Listed(players, p.name) && |players| < MAX_PLAYERS
    ensures PlayersOk(InsertPlayer(players, p))
  {
    hide *;
    var k := InsertPlaces(players, p);
    InsertedFits(players, InsertPlayer(players, p), p, k);
    InsertedBetween(players, p, k);
    InsertedOk(players, InsertPlayer(players, p), p, k);
  }

  /** The names fit in the field of NEW_GAME. */
  lemma NamesFit(players: seq<Player>)
    requires PlayersOk(players)
    ensures |Joined(PlayerNamesOf(players))| <= MAX_PLAYERS_FIELD_SIZE
  {
    JoinedLength(PlayerNamesOf(players));
  }

  lemma MarkedNext(players: seq<Player>, i: nat, f: Fingerprint)
    requires i <= |players|
    ensures i == |players| ==> players[..i] + Marked(players[i..], f) == players
    ensures i == 0 ==> players[..i] + Marked(players[i..], f) == Marked(players, f)
    ensures i < |players| && players[i].fingerprint != f ==>
              players[..i] + Marked(players[i..], f) == players[..i + 1] + Marked(players[i + 1..], f)
    ensures i < |players| && players[i].fingerprint == f ==>
              players[..i] + Marked(players[i..], f) == players[i := players[i].(isDisconnected := true)]
  {
    if i == 0 {
      assert players[0..] == players;
    }
    if i < |players| {
      assert players[i..][1..] == players[i + 1..];
      assert players[..i + 1] == players[..i] + [players[i]];
    }
  }

  lemma HandleMessageIs(c: Config, g: GameState, f: Fingerprint, m: ClientMessage)
    ensures HandleMessage(c, g, f, m) == if m.playerName == [] then HandleWatcher(g, f, m) else HandlePlayer(c, g, f, m)
  {
    hide HandleWatcher;
    hide HandlePlayer;
  }

  lemma OlderStep(g: GameState, names: seq<Text>, i: nat, f: Fingerprint, sessionId: nat)
    requires i < |names|
    ensures var k := FindPlayer(g.players, names[i]);
            var older := k < |g.players| && g.players[k].fingerprint == f && sessionId > g.players[k].sessionId;
            var rest := DropOlder(if older then Game.DropConnection(g, f) else g, names[i + 1..], f, sessionId);
            DropOlder(g, names[i..], f, sessionId) == rest
  {
    hide Game.DropConnection;
    hide Game.FindPlayer;
    assert names[i..][0] == names[i] && names[i..][1..] == names[i + 1..];
  }

  class GameManager {
    const config: Config
    const mqManager: MQManager
    const rng: RNG
    var gameId: nat
    var gameStarted: bool
    var watchers: map<Fingerprint, nat>
    var players: seq<Player>
    var playerNumberInGame: map<Text, nat>
    var eatenPixels: set<Coordinates>
    var alivePlayers: nat

    // The logs of all games, as in `GameState`.
    ghost var logs: seq<GameLog>

    ghost function State(): GameState
      reads this, mqManager, rng
    {
      GameState(gameId, gameStarted, watchers, players, playerNumberInGame, eatenPixels, rng.v, rng.draws, alivePlayers,
                mqManager.State(), logs)
    }

    ghost predicate Valid()
      reads this, rng
    {
      rng.Valid() && PlayersOk(players)
    }

    constructor (config: Config, rngSeed: nat)
      requires rngSeed < U32
      ensures Valid() && State() == NewServer(rngSeed) && this.config == config
      ensures fresh(mqManager) && fresh(rng)
    {
      this.config := config;
      rng := new RNG(rngSeed);
      mqManager := new MQManager();
      gameId, gameStarted, watchers, players := 0, false, map[], [];
      playerNumberInGame, eatenPixels, alivePlayers, logs := map[], {}, 0, [];
    }

    // ---- Events ----

    method SaveLoggedEvent(event: EventData)
      modifies this`logs, mqManager
      ensures State() == SaveEvent(old(State()), event)
    {
      mqManager.ScheduleEvent(gameId, event);
      logs := AppendEvent(logs, event);
    }

    method EmitNewGameEvent()
      requires Valid()
      modifies this`logs, mqManager
      ensures var g := old(State());
              var d := NewGame(config.board.maxx, config.board.maxy, PlayersField(PlayerNamesOf(g.players)));
              State() == g.(mq := Schedule(g.mq, g.gameId, d), logs := OpenLog(g.logs, g.gameId, d))
    {
      NamesFit(players);
      var playerNames: seq<Text> := [];
      var i := 0;
      while i < |players|
        invariant 0 <= i <= |players|
        invariant playerNames == PlayerNamesOf(players)[..i]
        invariant State() == old(State())
      {
        playerNames := playerNames + [players[i].name];
        i := i + 1;
      }
      assert playerNames == PlayerNamesOf(players);
      var event := MakeNewGame(config.board.maxx, config.board.maxy, playerNames);
      mqManager.ScheduleEvent(gameId, event);
      logs := OpenLog(logs, gameId, event);
    }

    method EmitPixelEvent(j: nat)
      requires j < |players|
      modifies this`logs, mqManager
      ensures var g, p := old(State()), players[j];
              State() == SaveEvent(g, Pixel(NumberOf(g, p.name), p.pixel.0, p.pixel.1))
    {
      var playerNo := if players[j].name in playerNumberInGame then playerNumberInGame[players[j].name] else 0;
      SaveLoggedEvent(Pixel(playerNo, players[j].pixel.0, players[j].pixel.1));
    }

    method EmitPlayerEliminatedEvent(j: nat)
      requires j < |players|
      modifies this`logs, mqManager
      ensures var g := old(State()); State() == SaveEvent(g, PlayerEliminated(NumberOf(g, players[j].name)))
    {
      var playerNo := if players[j].name in playerNumberInGame then playerNumberInGame[players[j].name] else 0;
      SaveLoggedEvent(PlayerEliminated(playerNo));
    }

    // ---- Elimination and the end of a game ----

    method EliminatePlayer(j: nat)
      requires Valid() && j < |players|
      modifies this, mqManager
      ensures Valid() && State() == Eliminate(old(State()), j)
    {
      hide PlayersOk;
      hide Schedule;
      hide AppendEvent;
      hide Game.EndGame;
      hide Eliminate;
      EliminateIsStruck(State(), j);
      UpdateKeeps(players, j, players[j].(isEliminated := true));
      players := players[j := players[j].(isEliminated := true)];
      alivePlayers := (alivePlayers + 0xFF) % 0x100;
      EmitPlayerEliminatedEvent(j);
      if alivePlayers < 2 {
        EndGame();
      }
    }

    method EndGame()
      requires Valid()
      modifies this, mqManager
      ensures Valid() && State() == Game.EndGame(old(State()))
    {
      hide PlayersOk;
      hide Schedule;
      hide AppendEvent;
      hide EraseDisconnected;
      SaveLoggedEvent(GameOver);
      gameStarted := false;
      EraseDisconnectedPlayers();
    }

    /** The first loop: nobody is ready any more, and those who left are noted. */
    method UnreadyAll() returns (playersToErase: seq<Erasure>)
      modifies this`players
      ensures players == NotReady(old(players)) && playersToErase == ToErase(old(players))
    {
      playersToErase := [];
      ghost var was := players;
      var i := 0;
      assert was[..0] == [];
      while i < |players|
        invariant 0 <= i <= |players| == |was|
        invariant players[..i] == NotReady(was[..i]) && players[i..] == was[i..]
        invariant playersToErase == ToErase(was[..i])
      {
        assert was[..i + 1] == was[..i] + [was[i]];
        assert players[i] == was[i] by {
          assert players[i..][0] == was[i..][0];
        }
        NotReadyAppended(was[..i], was[i]);
        ghost var now := players;
        players := players[i := players[i].(isReady := false)];
        assert players[..i + 1] == now[..i] + [was[i].(isReady := false)];
        assert players[i + 1..] == now[i..][1..] == was[i + 1..];
        if players[i].isDisconnected {
          playersToErase := playersToErase + [Erasure(players[i].name, players[i].fingerprint)];
        }
        i := i + 1;
      }
      assert was[..i] == was && players[..i] == players;
    }

    method EraseDisconnectedPlayers()
      requires Valid()
      modifies this, mqManager
      ensures Valid() && State() == EraseDisconnected(old(State()))
    {
      ghost var was, q := players, mqManager.State();
      StayingOk(was);
      ErasingLeavesStaying(was);
      var playersToErase := UnreadyAll();
      hide PlayersOk;
      var k := 0;
      while k < |playersToErase|
        invariant 0 <= k <= |playersToErase|
        invariant EraseEach(players, playersToErase[k..]) == Staying(was)
        invariant DropAll(mqManager.State(), FingerprintsOf(playersToErase[k..])) == DropAll(q, Leaving(was))
        invariant State() == old(State()).(players := players, mq := mqManager.State())
      {
        hide Drop;
        assert playersToErase[k..][1..] == playersToErase[k + 1..];
        assert FingerprintsOf(playersToErase[k..])[1..] == FingerprintsOf(playersToErase[k + 1..]);
        players := Without(players, playersToErase[k].name);
        mqManager.DropQueue(playersToErase[k].fingerprint);
        k := k + 1;
      }
    }

    // ---- A turn ----

    method RunTurn()
      requires Valid()
      modifies this, mqManager
      ensures Valid() && State() == Game.RunTurn(config, old(State()))
    {
      hide MovePlayer;
      hide PlayersOk;
      hide RunTurnFrom;
      ghost var start := State();
      var n, i := |players|, 0;
      while i < n && i < |players|
        invariant 0 <= i <= n
        invariant Valid()
        invariant RunTurnFrom(config, State(), n, i) == RunTurnFrom(config, start, n, 0)
      {
        RunTurnStep(config, State(), n, i);
        if !gameStarted {
          break;
        }
        MoveOnePlayer(i);
        i := i + 1;
      }
      RunTurnStep(config, State(), n, i);
    }

    method Advanced(p: Player) returns (player: Player)
      ensures player == Moved(config, p)
    {
      player := p;
      if player.turnDirection == Right {
        player := player.(movementDirection := (player.movementDirection + config.turningSpeed) % 360);
      } else if player.turnDirection == Left {
        player := player.(movementDirection := (player.movementDirection + 360 - config.turningSpeed) % 360);
      }
      var step := config.motion(player.x, player.y, player.movementDirection);
      player := player.(x := player.x + step.0, y := player.y + step.1);
    }

    method MoveOnePlayer(j: nat)
      requires Valid() && j < |players|
      modifies this, mqManager
      ensures Valid() && State() == MovePlayer(config, old(State()), j)
    {
      hide PlayersOk;
      hide Eliminate;
      hide EatPixel;
      if players[j].isEliminated || !players[j].takesPart {
        return;
      }
      var player := Advanced(players[j]);
      MovedKeeps(config, players[j]);
      hide Moved;
      UpdateKeeps(players, j, player);
      players := players[j := player];
      if player.x < 0.0 || player.y < 0.0 {
        EliminatePlayer(j);
        return;
      }
      var pixel := (Truncated(player.x), Truncated(player.y));
      if pixel == player.pixel {
        return;
      }
      if pixel.0 >= config.board.maxx || pixel.1 >= config.board.maxy || pixel in eatenPixels {
        EliminatePlayer(j);
      } else {
        EatOnePixel(j, pixel);
      }
    }

    method EatOnePixel(j: nat, pixel: Coordinates)
      requires Valid() && j < |players|
      modifies this, mqManager
      ensures Valid() && State() == EatPixel(old(State()), j, pixel)
    {
      hide PlayersOk;
      hide SaveEvent;
      UpdateKeeps(players, j, players[j].(pixel := pixel));
      players := players[j := players[j].(pixel := pixel)];
      eatenPixels := eatenPixels + {pixel};
      EmitPixelEvent(j);
    }

    // ---- The start of a game ----

    method CanStartGame() returns (can: bool)
      ensures can == CanStart(players)
    {
      var readyPlayers, i := 0, 0;
      assert players[..0] == [];
      while i < |players|
        invariant 0 <= i <= |players|
        invariant readyPlayers == ReadyPlayers(players[..i])
      {
        assert players[..i + 1][..i] == players[..i];
        if players[i].isReady {
          readyPlayers := readyPlayers + 1;
        }
        i := i + 1;
      }
      assert players[..i] == players;
      can := readyPlayers > 1 && readyPlayers == |players|;
    }

    method NumberPlayers()
      modifies this`playerNumberInGame
      ensures playerNumberInGame == NumberAll(PlayerNamesOf(players))
    {
      playerNumberInGame := map[];
      ghost var names := PlayerNamesOf(players);
      var i := 0;
      while i < |players|
        invariant 0 <= i <= |players|
        invariant playerNumberInGame == NumberAll(names[..i])
      {
        assert names[..i + 1][..i] == names[..i];
        if players[i].name !in playerNumberInGame {
          playerNumberInGame := playerNumberInGame[players[i].name := |playerNumberInGame| % 0x100];
        }
        i := i + 1;
      }
      assert names[..i] == names;
    }

    method OpenTheGame()
      requires Valid()
      modifies this, mqManager, rng
      ensures Valid() && State() == OpenGame(config, old(State()))
    {
      hide PlayersOk;
      hide Next;
      hide NumberAll;
      hide Schedule;
      hide OpenLog;
      hide PlayersField;
      hide PlayerNamesOf;
      gameId := rng.GenerateNext();
      gameStarted := true;
      alivePlayers := |players| % 0x100;
      eatenPixels := {};
      NumberPlayers();
      EmitNewGameEvent();
    }

    method StartGame()
      requires Valid()
      modifies this, mqManager, rng
      ensures Valid() && State() == Game.StartGame(config, old(State()))
    {
      hide PlayersOk;
      hide OpenGame;
      hide PlaceFrom;
      var n := |players|;
      OpenTheGame();
      PlaceEverybody(n);
    }

    /** The loop over the players, left as soon as the game is over. */
    method PlaceEverybody(n: nat)
      requires Valid()
      modifies this, mqManager, rng
      ensures Valid() && State() == PlaceFrom(config, old(State()), n, 0)
    {
      hide PlayersOk;
      hide PlacePlayer;
      hide PlaceFrom;
      ghost var start := State();
      var i := 0;
      while i < n && i < |players| && gameStarted
        invariant 0 <= i <= n
        invariant Valid()
        invariant PlaceFrom(config, State(), n, i) == PlaceFrom(config, start, n, 0)
      {
        PlaceStep(config, State(), n, i);
        PlaceOnePlayer(i);
        i := i + 1;
      }
      PlaceStep(config, State(), n, i);
    }

    method PlaceOnePlayer(j: nat)
      requires Valid() && j < |players|
      modifies this, mqManager, rng
      ensures Valid() && State() == PlacePlayer(config, old(State()), j)
    {
      hide PlayersOk;
      hide Eliminate;
      hide EatPixel;
      var player := players[j].(takesPart := true, isEliminated := false);
      var r1 := rng.GenerateNext();
      player := player.(x := (r1 % config.board.maxx) as real + 0.5);
      var r2 := rng.GenerateNext();
      player := player.(y := (r2 % config.board.maxy) as real + 0.5);
      var r3 := rng.GenerateNext();
      player := player.(movementDirection := r3 % 360);
      player := player.(pixel := (Truncated(player.x), Truncated(player.y)));
      assert player == Placed(config, old(players)[j], r1, r2, r3);
      PlacedKeeps(config, old(players)[j], r1, r2, r3);
      hide Placed;
      hide Next;
      UpdateKeeps(players, j, player);
      players := players[j := player];
      if player.pixel in eatenPixels {
        EliminatePlayer(j);
      } else {
        EatOnePixel(j, player.pixel);
      }
    }

    method StartIfReady()
      requires Valid()
      modifies this, mqManager, rng
      ensures Valid() && State() == MaybeStart(config, old(State()))
    {
      hide PlayersOk;
      hide CanStart;
      hide Game.StartGame;
      if !gameStarted {
        var can := CanStartGame();
        if can {
          StartGame();
        }
      }
    }

    // ---- Connections ----

    method MarkDisconnected(fingerprint: Fingerprint)
      modifies this`players
      ensures players == Marked(old(players), fingerprint)
    {
      hide Marked;
      var i := 0;
      ghost var was := players;
      MarkedNext(was, 0, fingerprint);
      while i < |players|
        invariant 0 <= i <= |players|
        invariant players == was
        invariant Marked(was, fingerprint) == was[..i] + Marked(was[i..], fingerprint)
      {
        MarkedNext(was, i, fingerprint);
        if players[i].fingerprint == fingerprint {
          players := players[i := players[i].(isDisconnected := true)];
          return;
        }
        i := i + 1;
      }
      MarkedNext(was, i, fingerprint);
    }

    method DropConnection(fingerprint: Fingerprint)
      requires Valid()
      modifies this, mqManager
      ensures Valid() && State() == Game.DropConnection(old(State()), fingerprint)
    {
      MarkedSameWorms(players, fingerprint);
      SameWormsNames(players, Marked(players, fingerprint));
      hide PlayersOk;
      hide Marked;
      hide Drop;
      hide EraseDisconnected;
      hide SameWorms;
      mqManager.DropQueue(fingerprint);
      if fingerprint in watchers {
        watchers := watchers - {fingerprint};
        return;
      }
      MarkDisconnected(fingerprint);
      if !gameStarted {
        EraseDisconnectedPlayers();
      }
    }

    // ---- Messages ----

    method HandleMessageFromWatcher(fingerprint: Fingerprint, msg: ClientMessage)
      requires Valid()
      modifies this`watchers, mqManager
      ensures Valid() && State() == HandleWatcher(old(State()), fingerprint, msg)
    {
      hide PlayersOk;
      hide Add;
      hide Drop;
      hide Ack;
      if fingerprint !in watchers {
        var i := 0;
        while i < |players|
          invariant 0 <= i <= |players|
          invariant forall k | 0 <= k < i :: players[k].fingerprint != fingerprint
        {
          if players[i].fingerprint == fingerprint {
            return;
          }
          i := i + 1;
        }
        watchers := watchers[fingerprint := msg.sessionId];
        mqManager.AddQueue(fingerprint, msg.nextExpectedEventNo);
      } else if watchers[fingerprint] == msg.sessionId {
        mqManager.AckEvents(fingerprint, msg.nextExpectedEventNo);
      } else if watchers[fingerprint] < msg.sessionId {
        mqManager.DropQueue(fingerprint);
        mqManager.AddQueue(fingerprint, msg.nextExpectedEventNo);
        watchers := watchers[fingerprint := msg.sessionId];
      }
    }

    /** The loop over the players of older sessions, over the names present when it starts. */
    method DropOlderSessions(fingerprint: Fingerprint, sessionId: nat)
      requires Valid()
      modifies this, mqManager
      ensures Valid() && State() == DropOlder(old(State()), PlayerNamesOf(old(players)), fingerprint, sessionId)
    {
      hide PlayersOk;
      hide Game.DropConnection;
      hide DropOlder;
      hide Game.FindPlayer;
      var names := PlayerNamesOf(players);
      ghost var start := State();
      var i := 0;
      while i < |names|
        invariant 0 <= i <= |names|
        invariant Valid()
        invariant DropOlder(State(), names[i..], fingerprint, sessionId)
               == DropOlder(start, names, fingerprint, sessionId)
      {
        OlderStep(State(), names, i, fingerprint, sessionId);
        var k := FindPlayer(players, names[i]);
        if k < |players| && players[k].fingerprint == fingerprint && sessionId > players[k].sessionId {
          DropConnection(fingerprint);
        }
        i := i + 1;
      }
      assert names[i..] == [];
      NothingOlder(State(), fingerprint, sessionId);
    }

    method HandleMessageFromPlayer(fingerprint: Fingerprint, msg: ClientMessage)
      requires Valid() && PlayerName(msg.playerName)
      modifies this, mqManager, rng
      ensures Valid() && State() == HandlePlayer(config, old(State()), fingerprint, msg)
    {
      ghost var g := State();
      HandlePlayerIs(config, g, fingerprint, msg);
      hide HandlePlayer;
      hide DropOlder;
      hide MaybeStart;
      hide PlayersOk;
      hide Steered;
      hide Joining;
      hide FindPlayer;
      hide PlayerName;
      hide NamesWithin;
      hide Listed;
      var ready := !gameStarted && msg.turnDirection != Straight;
      var k := FindPlayer(players, msg.playerName);
      if k < |players| {
        if players[k].fingerprint != fingerprint {
          return;
        }
        SteerPlayer(k, fingerprint, msg);
      } else {
        DropOlderSessions(fingerprint, msg.sessionId);
        if |players| == MAX_PLAYERS {
          return;
        }
        DropOlderNames(g, PlayerNamesOf(g.players), fingerprint, msg.sessionId);
        NotFound(g.players, players, msg.playerName);
        AddPlayer(fingerprint, msg, ready);
      }
      StartIfReady();
    }

    method SteerPlayer(k: nat, fingerprint: Fingerprint, msg: ClientMessage)
      requires Valid() && k < |players|
      modifies this`players, mqManager
      ensures Valid() && State() == Steered(old(State()), k, fingerprint, msg)
    {
      hide PlayersOk;
      hide Ack;
      var p := players[k].(turnDirection := msg.turnDirection);
      if !gameStarted && msg.turnDirection != Straight {
        p := p.(isReady := true);
      }
      UpdateKeeps(players, k, p);
      players := players[k := p];
      mqManager.AckEvents(fingerprint, msg.nextExpectedEventNo);
    }

    method AddPlayer(fingerprint: Fingerprint, msg: ClientMessage, ready: bool)
      requires Valid() && PlayerName(msg.playerName) && !Listed(players, msg.playerName) && |players| != MAX_PLAYERS
      modifies this`players, mqManager
      ensures Valid() && State() == Joining(old(State()), fingerprint, msg, ready)
    {
      var p := NewPlayer(fingerprint, msg, ready);
      NewPlayerFields(fingerprint, msg, ready);
      FewEnough(players);
      InsertKeeps(players, p);
      hide PlayersOk;
      hide InsertPlayer;
      hide Add;
      players := InsertPlayer(players, p);
      mqManager.AddQueue(fingerprint, msg.nextExpectedEventNo);
    }

    method HandleMessage(fingerprint: Fingerprint, msg: ClientMessage)
      requires Valid() && ValidName(msg.playerName)
      modifies this, mqManager, rng
      ensures Valid() && State() == Game.HandleMessage(config, old(State()), fingerprint, msg)
    {
      NameOrWatcher(msg.playerName);
      hide Game.HandleMessage;
      hide HandleWatcher;
      hide HandlePlayer;
      hide PlayersOk;
      hide PlayerName;
      HandleMessageIs(config, State(), fingerprint, msg);
      if |msg.playerName| == 0 {
        HandleMessageFromWatcher(fingerprint, msg);
      } else {
        HandleMessageFromPlayer(fingerprint, msg);
      }
    }
  }
}
