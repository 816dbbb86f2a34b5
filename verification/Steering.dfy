/** Who steers whom, over whole runs: a player goes where the last datagram of its own address told it to. */
module Steering {
  import opened Bytes
  import opened Names
  import opened Messages
  import opened PlayerList
  import opened MessageQueue
  import opened Grammar
  import opened Game
  import opened GameInvariant
  import opened GameTurns
  import opened GameStart
  import opened GameMessages
  import opened GameQueue
  import opened PlayerQueues
  import opened Server
  import opened Departures
  import opened EndToEnd
  import opened Lobby

  /** A datagram from this address that decodes and has this name. */
  ghost predicate Says(a: Action, f: Fingerprint, name: Text) {
    && a.Datagram? && a.f == f
    && DecodeClientMessage(a.bytes).Some? && DecodeClientMessage(a.bytes).value.playerName == name
  }

  /** The key in the last datagram from this address that decodes and has this name. */
  ghost function LastKey(actions: seq<Action>, f: Fingerprint, name: Text): Option<TurnDirection> {
    if actions == [] then None
    else
      var a := actions[|actions| - 1];
      if Says(a, f, name) then Some(DecodeClientMessage(a.bytes).value.turnDirection)
      else LastKey(actions[..|actions| - 1], f, name)
  }

  // ---- Operations that steer nobody ----

  /** The same person with the same key pressed. */
  predicate SameKey(p: Player, q: Player) {
    && p.name == q.name && p.fingerprint == q.fingerprint
    && p.sessionId == q.sessionId && p.turnDirection == q.turnDirection
  }

  predicate Somebody(players: seq<Player>, q: Player) {
    exists i | 0 <= i < |players| :: SameKey(players[i], q)
  }

  /** Everybody listed was listed before, with the same key pressed. */
  ghost predicate KeysKept(players: seq<Player>, others: seq<Player>) {
    forall k | 0 <= k < |others| :: Somebody(players, others[k])
  }

  lemma KeysKeptTwice(a: seq<Player>, b: seq<Player>, d: seq<Player>)
    requires KeysKept(a, b) && KeysKept(b, d)
    ensures KeysKept(a, d)
  {
    forall k | 0 <= k < |d| ensures Somebody(a, d[k]) {
      assert Somebody(b, d[k]);
      var i :| 0 <= i < |b| && SameKey(b[i], d[k]);
      assert Somebody(a, b[i]);
    }
  }

  lemma KeysKeptItself(players: seq<Player>)
    ensures KeysKept(players, players)
  {
    forall k | 0 <= k < |players| ensures Somebody(players, players[k]) {
      assert SameKey(players[k], players[k]);
    }
  }

  lemma OneKeyKept(players: seq<Player>, j: nat, p: Player)
    requires j < |players| && SameKey(players[j], p)
    ensures KeysKept(players, players[j := p])
  {
    var others := players[j := p];
    forall k | 0 <= k < |others| ensures Somebody(players, others[k]) {
      assert SameKey(players[k], others[k]);
    }
  }

  lemma {:induction false} StayingKeys(players: seq<Player>)
    ensures KeysKept(players, Staying(players))
  {
    if players != [] {
      var p, rest, others := players[0], players[1..], Staying(players[1..]);
      StayingKeys(rest);
      forall k | 0 <= k < |others| ensures Somebody(players, others[k]) {
        assert Somebody(rest, others[k]);
        var i :| 0 <= i < |rest| && SameKey(rest[i], others[k]);
        assert players[i + 1] == rest[i];
      }
      assert SameKey(players[0], p.(isReady := false));
      assert Staying(players) == (if p.isDisconnected then [] else [p.(isReady := false)]) + others;
    }
  }

  lemma MarkedKeys(players: seq<Player>, f: Fingerprint)
    ensures KeysKept(players, Marked(players, f))
  {
    var k := FirstIsMarked(players, f);
    KeysKeptItself(players);
    if k < |players| {
      OneKeyKept(players, k, players[k].(isDisconnected := true));
    }
    hide Marked;
    hide KeysKept;
  }

  lemma EndGameKeys(g: GameState)
    ensures KeysKept(g.players, EndGame(g).players)
  {
    StayingKeys(g.players);
    EndedPlayers(g);
    hide EndGame;
    hide KeysKept;
  }

  lemma EliminateKeys(g: GameState, j: nat)
    requires j < |g.players|
    ensures KeysKept(g.players, Eliminate(g, j).players)
  {
    var s := Struck(g, j);
    EliminateIsStruck(g, j);
    OneKeyKept(g.players, j, g.players[j].(isEliminated := true));
    StruckPlayersAre(g, j);
    EndGameKeys(s);
    hide Eliminate;
    hide EndGame;
    hide Struck;
    hide KeysKept;
    KeysKeptTwice(g.players, s.players, EndGame(s).players);
  }

  lemma StruckPlayersAre(g: GameState, j: nat)
    requires j < |g.players|
    ensures Struck(g, j).players == g.players[j := g.players[j].(isEliminated := true)]
  {
    hide Schedule;
  }

  lemma EatPixelKeys(g: GameState, j: nat, pixel: Coordinates)
    requires j < |g.players|
    ensures KeysKept(g.players, EatPixel(g, j, pixel).players)
  {
    OneKeyKept(g.players, j, g.players[j].(pixel := pixel));
    hide Schedule;
    hide KeysKept;
  }

  lemma MovedKey(c: Config, p: Player)
    ensures SameKey(p, Moved(c, p))
  {
  }

  lemma MovePlayerKeys(c: Config, g: GameState, j: nat)
    requires j < |g.players|
    ensures KeysKept(g.players, MovePlayer(c, g, j).players)
  {
    hide *;
    var h := g.(players := g.players[j := Moved(c, g.players[j])]);
    MovePlayerCases(c, g, j);
    MovedKey(c, g.players[j]);
    OneKeyKept(g.players, j, Moved(c, g.players[j]));
    KeysKeptItself(g.players);
    if MovePlayer(c, g, j) == Eliminate(h, j) {
      EliminateKeys(h, j);
      KeysKeptTwice(g.players, h.players, MovePlayer(c, g, j).players);
    } else if MovePlayer(c, g, j) != g && MovePlayer(c, g, j) != h {
      var pixel :| MovePlayer(c, g, j) == EatPixel(h, j, pixel);
      EatPixelKeys(h, j, pixel);
      KeysKeptTwice(g.players, h.players, MovePlayer(c, g, j).players);
    }
  }

  lemma {:induction false} RunTurnFromKeys(c: Config, g: GameState, n: nat, i: nat)
    ensures KeysKept(g.players, RunTurnFrom(c, g, n, i).players)
    decreases n - i
  {
    hide *;
    RunTurnStep(c, g, n, i);
    KeysKeptItself(g.players);
    if i < n && g.started && i < |g.players| {
      var h := MovePlayer(c, g, i);
      MovePlayerKeys(c, g, i);
      RunTurnFromKeys(c, h, n, i + 1);
      KeysKeptTwice(g.players, h.players, RunTurnFrom(c, h, n, i + 1).players);
    }
  }

  lemma ArrivedKeys(c: Config, g: GameState, j: nat)
    requires j < |g.players|
    ensures KeysKept(g.players, Arrived(c, g, j).players)
  {
    var p := Arrived(c, g, j).players[j];
    assert SameKey(g.players[j], p);
    OneKeyKept(g.players, j, p);
    hide KeysKept;
  }

  lemma PlacePlayerKeys(c: Config, g: GameState, j: nat)
    requires j < |g.players|
    ensures KeysKept(g.players, PlacePlayer(c, g, j).players)
  {
    hide *;
    var h := Arrived(c, g, j);
    PlaceIsArrived(c, g, j);
    ArrivedKeys(c, g, j);
    EliminateKeys(h, j);
    EatPixelKeys(h, j, h.players[j].pixel);
    KeysKeptTwice(g.players, h.players, PlacePlayer(c, g, j).players);
  }

  lemma {:induction false} PlaceFromKeys(c: Config, g: GameState, n: nat, i: nat)
    ensures KeysKept(g.players, PlaceFrom(c, g, n, i).players)
    decreases n - i
  {
    hide *;
    PlaceStep(c, g, n, i);
    KeysKeptItself(g.players);
    if i < n && g.started && i < |g.players| {
      var h := PlacePlayer(c, g, i);
      PlacePlayerKeys(c, g, i);
      PlaceFromKeys(c, h, n, i + 1);
      KeysKeptTwice(g.players, h.players, PlaceFrom(c, h, n, i + 1).players);
    }
  }

  lemma OpenedKeys(c: Config, g: GameState)
    ensures OpenGame(c, g).players == g.players
  {
    hide Schedule;
    hide NumberAll;
    hide PlayersField;
  }

  lemma MaybeStartKeys(c: Config, g: GameState)
    ensures KeysKept(g.players, MaybeStart(c, g).players)
  {
    hide *;
    MaybeStartIs(c, g);
    KeysKeptItself(g.players);
    StartIsPlacing(c, g);
    OpenedKeys(c, g);
    PlaceFromKeys(c, OpenGame(c, g), |g.players|, 0);
  }

  lemma DropKeys(g: GameState, f: Fingerprint)
    ensures KeysKept(g.players, DropConnection(g, f).players)
  {
    DropIsUnlinked(g, f);
    MarkedKeys(g.players, f);
    KeysKeptItself(g.players);
    StayingKeys(Unlinked(g, f).players);
    KeysKeptItself(Unlinked(g, f).players);
    hide KeysKept;
    hide DropConnection;
    hide Marked;
    hide Staying;
    hide Drop;
    hide DropAll;
    KeysKeptTwice(g.players, Unlinked(g, f).players, DropConnection(g, f).players);
  }

  lemma {:induction false} DropOlderKeys(g: GameState, names: seq<Text>, f: Fingerprint, sessionId: nat)
    ensures KeysKept(g.players, DropOlder(g, names, f, sessionId).players)
    decreases |names|
  {
    hide *;
    if names == [] {
      NothingOlder(g, f, sessionId);
      KeysKeptItself(g.players);
    } else {
      var h := DropConnection(g, f);
      DropOlderStep(g, names, f, sessionId);
      DropKeys(g, f);
      DropOlderKeys(g, names[1..], f, sessionId);
      DropOlderKeys(h, names[1..], f, sessionId);
      KeysKeptTwice(g.players, h.players, DropOlder(h, names[1..], f, sessionId).players);
    }
  }

  // ---- Messages ----

  predicate Sender(p: Player, f: Fingerprint, name: Text) {
    p.name == name && p.fingerprint == f
  }

  /** The session in which a player joined: whoever is listed stays in its session. */
  ghost predicate JoinedIn(players: seq<Player>, f: Fingerprint, m: ClientMessage, sessionId: nat) {
    if (exists i | 0 <= i < |players| :: Sender(players[i], f, m.playerName))
    then exists i | 0 <= i < |players| :: Sender(players[i], f, m.playerName) && players[i].sessionId == sessionId
    else sessionId == m.sessionId
  }

  /** Who is listed after a message: its sender with the key it says, and others as they were. */
  ghost predicate KeysAfter(g: GameState, h: GameState, f: Fingerprint, m: ClientMessage) {
    forall k | 0 <= k < |h.players| ::
      if Sender(h.players[k], f, m.playerName)
      then h.players[k].turnDirection == m.turnDirection && JoinedIn(g.players, f, m, h.players[k].sessionId)
      else Somebody(g.players, h.players[k])
  }

  lemma KeysAfterKept(g: GameState, h: GameState, e: GameState, f: Fingerprint, m: ClientMessage)
    requires KeysAfter(g, h, f, m) && KeysKept(h.players, e.players)
    ensures KeysAfter(g, e, f, m)
  {
    hide JoinedIn;
    forall k | 0 <= k < |e.players|
      ensures if Sender(e.players[k], f, m.playerName)
              then e.players[k].turnDirection == m.turnDirection && JoinedIn(g.players, f, m, e.players[k].sessionId)
              else Somebody(g.players, e.players[k])
    {
      assert Somebody(h.players, e.players[k]);
      var i :| 0 <= i < |h.players| && SameKey(h.players[i], e.players[k]);
      if !Sender(e.players[k], f, m.playerName) {
        assert Somebody(g.players, h.players[i]);
        var j :| 0 <= j < |g.players| && SameKey(g.players[j], h.players[i]);
        assert SameKey(g.players[j], e.players[k]);
      }
    }
  }

  /** If nobody listed is the sender, keeping everybody is all there is to show. */
  lemma NoSender(g: GameState, h: GameState, f: Fingerprint, m: ClientMessage)
    requires KeysKept(g.players, h.players) && forall i | 0 <= i < |g.players| :: !Sender(g.players[i], f, m.playerName)
    ensures KeysAfter(g, h, f, m)
  {
    forall k | 0 <= k < |h.players|
      ensures !Sender(h.players[k], f, m.playerName) && Somebody(g.players, h.players[k])
    {
      assert Somebody(g.players, h.players[k]);
      var i :| 0 <= i < |g.players| && SameKey(g.players[i], h.players[k]);
      assert !Sender(g.players[i], f, m.playerName);
    }
  }

  /** Nobody else has this name. */
  lemma OneOfAName(players: seq<Player>, i: nat, j: nat)
    requires PlayersOk(players) && i < |players| && j < |players| && i != j
    ensures players[i].name != players[j].name
  {
    LessIrreflexive(players[i].name);
  }

  lemma SteeredKeys(g: GameState, k: nat, f: Fingerprint, m: ClientMessage)
    requires PlayersOk(g.players) && k < |g.players| && Sender(g.players[k], f, m.playerName)
    ensures KeysAfter(g, Steered(g, k, f, m), f, m)
  {
    var h := Steered(g, k, f, m);
    assert h.players[k].turnDirection == m.turnDirection;
    hide PlayersOk;
    hide Ack;
    forall i | 0 <= i < |h.players|
      ensures if Sender(h.players[i], f, m.playerName)
              then h.players[i].turnDirection == m.turnDirection && JoinedIn(g.players, f, m, h.players[i].sessionId)
              else Somebody(g.players, h.players[i])
    {
      if i != k {
        OneOfAName(g.players, i, k);
        assert SameKey(g.players[i], h.players[i]);
      }
    }
  }

  lemma JoinedKeys(g: GameState, d: GameState, f: Fingerprint, m: ClientMessage, ready: bool)
    requires KeysKept(g.players, d.players) && forall i | 0 <= i < |g.players| :: g.players[i].name != m.playerName
    ensures KeysAfter(g, Joining(d, f, m, ready), f, m)
  {
    var h, p := Joining(d, f, m, ready), NewPlayer(f, m, ready);
    var k := InsertPlaces(d.players, p);
    hide InsertPlayer;
    hide Add;
    forall i | 0 <= i < |h.players|
      ensures if Sender(h.players[i], f, m.playerName)
              then h.players[i].turnDirection == m.turnDirection && JoinedIn(g.players, f, m, h.players[i].sessionId)
              else Somebody(g.players, h.players[i])
    {
      if i != k {
        var j := if i < k then i else i - 1;
        assert h.players[i] == d.players[j] && Somebody(g.players, d.players[j]);
        var n :| 0 <= n < |g.players| && SameKey(g.players[n], d.players[j]);
        assert d.players[j].name != m.playerName;
      }
    }
  }

  lemma WatcherKeys(g: GameState, f: Fingerprint, m: ClientMessage)
    requires PlayersOk(g.players) && m.playerName == []
    ensures KeysAfter(g, HandleWatcher(g, f, m), f, m)
  {
    HandleWatcherSame(g, f, m);
    KeysKeptItself(g.players);
    forall i | 0 <= i < |g.players| ensures !Sender(g.players[i], f, m.playerName) {
      assert PlayerName(g.players[i].name);
    }
    hide HandleWatcher;
    hide PlayersOk;
    hide KeysKept;
    NoSender(g, HandleWatcher(g, f, m), f, m);
  }

  lemma OtherAddress(g: GameState, k: nat, f: Fingerprint, m: ClientMessage)
    requires PlayersOk(g.players) && k < |g.players|
    requires g.players[k].name == m.playerName && g.players[k].fingerprint != f
    ensures KeysAfter(g, g, f, m)
  {
    KeysKeptItself(g.players);
    forall i | 0 <= i < |g.players| ensures !Sender(g.players[i], f, m.playerName) {
      if i != k {
        OneOfAName(g.players, i, k);
      }
    }
    hide KeysKept;
    hide PlayersOk;
    NoSender(g, g, f, m);
  }

  lemma KnownSender(g: GameState, k: nat, f: Fingerprint, m: ClientMessage)
    requires k < |g.players| && g.players[k].name == m.playerName && g.players[k].fingerprint == f
    ensures Sender(g.players[k], f, m.playerName)
  {
  }

  lemma NoSuchName(g: GameState, d: GameState, f: Fingerprint, m: ClientMessage)
    requires KeysKept(g.players, d.players) && forall i | 0 <= i < |g.players| :: g.players[i].name != m.playerName
    ensures KeysAfter(g, d, f, m)
  {
    hide KeysKept;
    forall i | 0 <= i < |g.players| ensures !Sender(g.players[i], f, m.playerName) {
    }
    NoSender(g, d, f, m);
  }

  lemma PlayerKeys(c: Config, g: GameState, f: Fingerprint, m: ClientMessage)
    requires PlayersOk(g.players)
    ensures KeysAfter(g, HandlePlayer(c, g, f, m), f, m)
  {
    hide *;
    HandlePlayerIs(c, g, f, m);
    var k, ready := FindPlayer(g.players, m.playerName), !g.started && m.turnDirection != Straight;
    if k < |g.players| {
      if g.players[k].fingerprint != f {
        OtherAddress(g, k, f, m);
      } else {
        var h := Steered(g, k, f, m);
        KnownSender(g, k, f, m);
        SteeredKeys(g, k, f, m);
        MaybeStartKeys(c, h);
        KeysAfterKept(g, h, MaybeStart(c, h), f, m);
      }
    } else {
      var d := DropOlder(g, PlayerNamesOf(g.players), f, m.sessionId);
      DropOlderKeys(g, PlayerNamesOf(g.players), f, m.sessionId);
      var h := Joining(d, f, m, ready);
      NoSuchName(g, d, f, m);
      JoinedKeys(g, d, f, m, ready);
      MaybeStartKeys(c, h);
      KeysAfterKept(g, h, MaybeStart(c, h), f, m);
    }
  }

  lemma MessageKeys(c: Config, g: GameState, f: Fingerprint, m: ClientMessage)
    requires PlayersOk(g.players)
    ensures KeysAfter(g, HandleMessage(c, g, f, m), f, m)
  {
    PlayerKeys(c, g, f, m);
    hide HandlePlayer;
    hide HandleWatcher;
    hide PlayersOk;
    hide KeysAfter;
    if m.playerName == [] {
      WatcherKeys(g, f, m);
    }
  }

  // ---- Runs ----

  /** Everybody's key is the one last said. */
  ghost predicate AsSaid(actions: seq<Action>, players: seq<Player>) {
    forall k | 0 <= k < |players| ::
      LastKey(actions, players[k].fingerprint, players[k].name) == Some(players[k].turnDirection)
  }

  lemma LastKeyNext(actions: seq<Action>, a: Action, f: Fingerprint, name: Text)
    ensures LastKey(actions + [a], f, name)
         == if Says(a, f, name) then Some(DecodeClientMessage(a.bytes).value.turnDirection)
            else LastKey(actions, f, name)
  {
    assert (actions + [a])[..|actions|] == actions;
    hide DecodeClientMessage;
  }

  lemma KeptAsSaid(actions: seq<Action>, a: Action, players: seq<Player>, others: seq<Player>)
    requires AsSaid(actions, players) && KeysKept(players, others)
    requires !a.Datagram? || DecodeClientMessage(a.bytes).None?
    ensures AsSaid(actions + [a], others)
  {
    hide LastKey;
    hide DecodeClientMessage;
    forall k | 0 <= k < |others|
      ensures LastKey(actions + [a], others[k].fingerprint, others[k].name) == Some(others[k].turnDirection)
    {
      assert Somebody(players, others[k]);
      var i :| 0 <= i < |players| && SameKey(players[i], others[k]);
      LastKeyNext(actions, a, others[k].fingerprint, others[k].name);
    }
  }

  lemma SaidNow(actions: seq<Action>, f: Fingerprint, bytes: seq<byte>, now: nat, g: GameState, h: GameState)
    requires DecodeClientMessage(bytes).Some? && AsSaid(actions, g.players)
    requires KeysAfter(g, h, f, DecodeClientMessage(bytes).value)
    ensures AsSaid(actions + [Datagram(f, bytes, now)], h.players)
  {
    hide LastKey;
    var a, m := Datagram(f, bytes, now), DecodeClientMessage(bytes).value;
    hide DecodeClientMessage;
    forall k | 0 <= k < |h.players|
      ensures LastKey(actions + [a], h.players[k].fingerprint, h.players[k].name) == Some(h.players[k].turnDirection)
    {
      LastKeyNext(actions, a, h.players[k].fingerprint, h.players[k].name);
      if !Sender(h.players[k], f, m.playerName) {
        assert Somebody(g.players, h.players[k]);
        var i :| 0 <= i < |g.players| && SameKey(g.players[i], h.players[k]);
      }
    }
  }

  lemma ReceiveKeys(c: Config, actions: seq<Action>, s: ServerState, f: Fingerprint, bytes: seq<byte>, now: nat)
    requires AsSaid(actions, s.game.players) && PlayersOk(s.game.players)
    ensures AsSaid(actions + [Datagram(f, bytes, now)], Receive(c, s, f, bytes, now).game.players)
  {
    KeysKeptItself(s.game.players);
    hide AsSaid;
    hide PlayersOk;
    hide HandleMessage;
    hide KeysKept;
    hide KeysAfter;
    if DecodeClientMessage(bytes).Some? {
      var m := DecodeClientMessage(bytes).value;
      MessageKeys(c, s.game, f, m);
      SaidNow(actions, f, bytes, now, s.game, HandleMessage(c, s.game, f, m));
    } else {
      KeptAsSaid(actions, Datagram(f, bytes, now), s.game.players, s.game.players);
    }
    hide DecodeClientMessage;
  }

  lemma OthersKeys(c: Config, s: ServerState, f: Fingerprint)
    ensures KeysKept(s.game.players, Expire(s, f).game.players) && KeysKept(s.game.players, Turn(c, s).game.players)
  {
    DropKeys(s.game, f);
    RunTurnFromKeys(c, s.game, |s.game.players|, 0);
    hide DropConnection;
    hide RunTurnFrom;
    hide KeysKept;
  }

  lemma StepKeys(c: Config, actions: seq<Action>, s: Sys, a: Action)
    requires AsSaid(actions, s.server.game.players) && PlayersOk(s.server.game.players)
    ensures AsSaid(actions + [a], Step(c, s, a).server.game.players)
  {
    hide *;
    ServerStepIs(c, s, a);
    var g := s.server.game;
    KeysKeptItself(g.players);
    match a
    case Datagram(f, bytes, now) => ReceiveKeys(c, actions, s.server, f, bytes, now);
    case Expiry(f) =>
      OthersKeys(c, s.server, f);
      KeptAsSaid(actions, a, g.players, Expire(s.server, f).game.players);
    case RoundTurn =>
      OthersKeys(c, s.server, "");
      KeptAsSaid(actions, a, g.players, Turn(c, s.server).game.players);
    case Sending(_) => KeptAsSaid(actions, a, g.players, g.players);
    case Delivery(_, _) => KeptAsSaid(actions, a, g.players, g.players);
  }

  lemma NobodySaid(seed: nat)
    ensures AsSaid([], Start(seed).server.game.players)
  {
  }

  /**
   * In any run every listed player goes where the last datagram with its name from its own address told it to; no
   * other datagram, loss of a connection, turn or start of a game changes that.
   */
  lemma {:induction false} RunSteered(c: Config, seed: nat, actions: seq<Action>)
    requires seed < U32
    ensures AsSaid(actions, Run(c, Start(seed), actions).server.game.players)
    decreases |actions|
  {
    hide *;
    if actions == [] {
      NobodySaid(seed);
      NoActions(c, Start(seed));
    } else {
      var n := |actions| - 1;
      var s := Run(c, Start(seed), actions[..n]);
      RunSteered(c, seed, actions[..n]);
      RunGameOk(c, seed, actions[..n]);
      PlayersOkOf(c, s.server.game);
      StepKeys(c, actions[..n], s, actions[n]);
      RunUnfolds(c, Start(seed), actions);
      assert actions == actions[..n] + [actions[n]];
    }
  }
}
