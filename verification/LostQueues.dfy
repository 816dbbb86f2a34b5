/** Runs that leave a listed player without a queue, one for each way in which the code does it. */
module LostQueues {
  import opened Bytes
  import opened Names
  import opened Messages
  import opened MessageQueue
  import opened Grammar
  import opened Game
  import opened Rules
  import opened GameInvariant
  import opened GameTurns
  import opened GameMessages
  import opened Deaths
  import opened PlayerQueues
  import opened Scenario

  // ---- A lost connection between games ----

  /** Somebody joins a server without a game and does not press a key. */
  lemma QuietJoin(c: Config, g: GameState, f: Fingerprint, name: Text)
    requires !g.started && g.players == [] && name != []
    ensures var h := HandleMessage(c, g, f, ClientMessage(1, Straight, 0, name));
            && h.players == [NewPlayer(f, ClientMessage(1, Straight, 0, name), false)] && !h.started
            && h.watchers == g.watchers && f in h.mq.queues
  {
    assert PlayerNamesOf(g.players) == [];
  }

  lemma QuietSecond(c: Config, g: GameState, f: Fingerprint, p: Player, name: Text)
    requires !g.started && g.players == [p] && p.fingerprint == f && p.sessionId == 1 && !p.isReady
    requires name != [] && Less(p.name, name) && p.name != name && f in g.mq.queues
    ensures var h := HandleMessage(c, g, f, ClientMessage(1, Straight, 0, name));
            && h.players == [p, NewPlayer(f, ClientMessage(1, Straight, 0, name), false)] && !h.started
            && h.watchers == g.watchers && f in h.mq.queues
  {
    var m := ClientMessage(1, Straight, 0, name);
    var q := NewPlayer(f, m, false);
    SecondIsAfter(p, q);
    assert PlayerNamesOf(g.players) == [p.name];
    assert FindPlayer(g.players, name) == 1;
    assert DropOlder(g, [p.name], f, 1) == g;
    assert InsertPlayer(g.players, q) == [p, q];
    NobodyReady(p, q);
  }

  lemma NobodyReady(p: Player, q: Player)
    requires !p.isReady && !q.isReady
    ensures ReadyPlayers([p, q]) == 0
  {
    assert [p, q][..1] == [p] && [p][..0] == [];
    assert ReadyPlayers([p]) == 0;
  }

  lemma TwoShare(p: Player, q: Player, f: Fingerprint)
    requires p.fingerprint == f && q.fingerprint == f
    ensures Sharing([p, q], f) == 2
  {
    assert [p, q][1..] == [q] && [q][1..] == [];
    assert Sharing([q], f) == 1;
  }

  lemma SecondIsAfter(p: Player, q: Player)
    requires Less(p.name, q.name)
    ensures !Less(q.name, p.name)
  {
    if Less(q.name, p.name) {
      LessTransitive(p.name, q.name, p.name);
      LessIrreflexive(p.name);
    }
  }

  /** Two players join from one address and the connection is lost: one is still listed, without a queue. */
  lemma LostWithConnection(c: Config)
    ensures var f, m, n := "host_1", ClientMessage(1, Straight, 0, [65]), ClientMessage(1, Straight, 0, [66]);
            var g := HandleMessage(c, HandleMessage(c, NewServer(1), f, m), f, n);
            PlayersQueued(g) && !PlayersQueued(DropConnection(g, f))
  {
    var f, m, n := "host_1", ClientMessage(1, Straight, 0, [65]), ClientMessage(1, Straight, 0, [66]);
    QuietJoin(c, NewServer(1), f, [65]);
    assert Less([65], [66]);
    var g := HandleMessage(c, NewServer(1), f, m);
    var p := NewPlayer(f, m, false);
    QuietSecond(c, g, f, p, [66]);
    var h := HandleMessage(c, g, f, n);
    hide HandleMessage;
    hide DropConnection;
    TwoShare(p, NewPlayer(f, n, false), f);
    hide Sharing;
    DropLeavesPlayersQueued(h, f);
  }

  // ---- The end of a game ----

  /** The first player has left and come back under another name. */
  function CameBack(c: Config): GameState {
    HandleMessage(c, DropConnection(TwoPlaying(c), FIRST_HOST), FIRST_HOST, Newcomer())
  }

  function Newcomer(): ClientMessage {
    ClientMessage(1, Straight, 0, [66])
  }

  lemma FirstLeft(c: Config)
    requires Small(c)
    ensures var g := DropConnection(TwoPlaying(c), FIRST_HOST);
            && g.players == [FirstPlaced().(isDisconnected := true), SecondPlaced()] && g.started && g.alive == 2
            && g.watchers == map[] && g.mq.queues == map[SECOND_HOST := 0] && g.eaten == {(11, 12), (0, 5)}
  {
    hide *;
    TwoPlayingGoesOn(c);
    MidGameDrop(TwoPlaying(c));
  }

  lemma MidGameDrop(g: GameState)
    requires BothPlaying(g)
    ensures var h := DropConnection(g, FIRST_HOST);
            && h.players == [FirstPlaced().(isDisconnected := true), SecondPlaced()] && h.started && h.alive == 2
            && h.watchers == map[] && h.mq.queues == map[SECOND_HOST := 0] && h.eaten == {(11, 12), (0, 5)}
  {
    FirstMarked();
    hide RemoveFirst;
    hide Marked;
    hide FirstPlaced;
    hide SecondPlaced;
  }

  lemma FirstMarked()
    ensures Marked([FirstPlaced(), SecondPlaced()], FIRST_HOST)
         == [FirstPlaced().(isDisconnected := true), SecondPlaced()]
  {
    assert [FirstPlaced(), SecondPlaced()][1..] == [SecondPlaced()];
  }

  lemma NobodyOlderHere(g: GameState, p: Player, q: Player)
    requires g.players == [p, q] && p.sessionId == q.sessionId == 1 && p.name == FIRST_NAME && q.name == SECOND_NAME
    ensures DropOlder(g, PlayerNamesOf(g.players), FIRST_HOST, 1) == g && FindPlayer(g.players, [66]) == 2
    ensures forall b: Player :: b.name == [66] ==> InsertPlayer(g.players, b) == [p, b, q]
  {
    SameSessions(g.players, PlayerNamesOf(g.players), FIRST_HOST);
    NobodyOlder(g, PlayerNamesOf(g.players), FIRST_HOST, 1);
    assert g.players[1..] == [q] && g.players[1..][1..] == [];
    hide DropOlder;
    hide OlderSessions;
  }

  lemma CameBackIs(c: Config)
    requires Small(c)
    ensures var g := CameBack(c);
            && |g.players| == 3 && g.players[0] == FirstPlaced().(isDisconnected := true)
            && g.players[1] == NewPlayer(FIRST_HOST, Newcomer(), false) && g.players[2] == SecondPlaced()
            && g.started && g.alive == 2 && g.mq.queues == map[SECOND_HOST := 0, FIRST_HOST := 0]
            && g.eaten == {(11, 12), (0, 5)}
  {
    var g := DropConnection(TwoPlaying(c), FIRST_HOST);
    FirstLeft(c);
    HandlePlayerIs(c, g, FIRST_HOST, Newcomer());
    NobodyOlderHere(g, FirstPlaced().(isDisconnected := true), SecondPlaced());
    hide DropConnection;
    hide HandlePlayer;
    hide DropOlder;
    hide InsertPlayer;
    hide FindPlayer;
    hide PlayerNamesOf;
    hide StartGame;
    hide FirstPlaced;
    hide SecondPlaced;
  }

  lemma ShortNames()
    ensures ValidName(FIRST_NAME) && ValidName(SECOND_NAME) && ValidName(Newcomer().playerName)
  {
  }

  lemma CameBackOk(c: Config)
    ensures GameOk(c, CameBack(c))
  {
    ShortNames();
    hide GameOk;
    hide ValidName;
    hide HandleMessage;
    hide DropConnection;
    NewServerOk(c, SEED);
    HandleMessageOk(c, NewServer(SEED), FIRST_HOST, Ready(FIRST_NAME));
    HandleMessageOk(c, OneListed(c), SECOND_HOST, Ready(SECOND_NAME));
    DropConnectionOk(c, TwoPlaying(c), FIRST_HOST);
    HandleMessageOk(c, DropConnection(TwoPlaying(c), FIRST_HOST), FIRST_HOST, Newcomer());
  }

  /**
   * What cosine and sine, however rounded, do in this game: at 149 degrees more than half a pixel to the left, and at
   * 313 degrees at most one pixel in either direction.
   */
  predicate CosineLike(c: Config) {
    && c.board == Board(16, 16) && c.turningSpeed == 6 && c.motion(0.5, 5.5, 149).0 < -0.5
    && -1.0 <= c.motion(11.5, 12.5, 313).0 <= 1.0 && -1.0 <= c.motion(11.5, 12.5, 313).1 <= 1.0
  }

  lemma SecondFalls(c: Config, g: GameState)
    requires CosineLike(c) && |g.players| == 3 && g.players[2] == SecondPlaced() && g.started && g.alive == 2
    ensures TurnEnds(c, g)
  {
    assert Heading(143, Right, 6) == 149;
    assert Goal(c, g.players[2]).0 < 0.0;
    hide Goal;
    LeftOverFalls(c, g.players, g.eaten);
  }

  lemma LeftOverFalls(c: Config, players: seq<Player>, eaten: set<Coordinates>)
    requires |players| == 3 && players[2].takesPart && !players[2].isEliminated && Goal(c, players[2]).0 < 0.0
    ensures Fallen(c, players, eaten) >= 1
  {
    hide Goal;
    hide PixelAt;
    assert forall more :: Fallen(c, players[2..], more) >= 1;
    assert players[1..][1..] == players[2..] && players[1..][0] == players[1];
    assert forall more :: Fallen(c, players[1..], more) >= 1;
  }

  lemma FirstLives(c: Config, g: GameState)
    requires CosineLike(c) && |g.players| == 3 && g.players[0] == FirstPlaced().(isDisconnected := true)
    requires g.started && g.eaten == {(11, 12), (0, 5)}
    ensures MovePlayer(c, g, 0).started
  {
    hide *;
    var q, h := Moved(c, g.players[0]), g.(players := g.players[0 := Moved(c, g.players[0])]);
    FirstMoves(c);
    FirstAlive();
    MovedAlike(c, FirstPlaced());
    MoveUnfolds(c, g, 0, h);
    EatPixelOutcome(h, 0, (Truncated(q.x), Truncated(q.y)));
  }

  lemma FirstAlive()
    ensures FirstPlaced().takesPart && !FirstPlaced().isEliminated
  {
  }

  lemma MovedAlike(c: Config, p: Player)
    ensures var q, r := Moved(c, p), Moved(c, p.(isDisconnected := true));
            r.x == q.x && r.y == q.y && r.pixel == q.pixel
  {
  }

  /** The first player gets nowhere near the border or the other one. */
  lemma FirstMoves(c: Config)
    requires CosineLike(c)
    ensures var q := Moved(c, FirstPlaced());
            var pixel := (Truncated(q.x), Truncated(q.y));
            && q.x >= 0.0 && q.y >= 0.0 && pixel.0 < c.board.maxx && pixel.1 < c.board.maxy
            && (pixel == q.pixel || pixel !in {(11, 12), (0, 5)})
  {
    var q := Moved(c, FirstPlaced());
    assert 10.5 <= q.x <= 12.5 && 11.5 <= q.y <= 13.5 && q.pixel == (11, 12);
    hide Moved;
  }

  /**
   * A player's connection is lost in the middle of a game, the same address joins under another name, and the death
   * of the last player in a turn ends the game: no connection is lost then, but the newcomer is left without a queue.
   */
  lemma LostWithGame(c: Config)
    requires CosineLike(c)
    ensures var g := CameBack(c);
            PlayersQueued(g) && !PlayersQueued(RunTurn(c, g)) && MovePlayer(c, g, 0).started
  {
    hide *;
    var g := CameBack(c);
    CosineIsSmall(c);
    CameBackIs(c);
    CameBackOk(c);
    CameBackQueued(c);
    FirstLives(c, g);
    SecondFalls(c, g);
    EndsExactlyWhen(c, g);
    TurnLeavesPlayersQueued(c, g);
  }

  lemma CosineIsSmall(c: Config)
    requires CosineLike(c)
    ensures Small(c)
  {
  }

  lemma CameBackQueued(c: Config)
    requires Small(c)
    ensures PlayersQueued(CameBack(c)) && !Separate(CameBack(c).players)
  {
    hide *;
    CameBackIs(c);
    Connections();
    SharedAddress(CameBack(c), FIRST_HOST, SECOND_HOST);
  }

  lemma Connections()
    ensures var p, q := FirstPlaced().(isDisconnected := true), NewPlayer(FIRST_HOST, Newcomer(), false);
            var r := SecondPlaced();
            && p.fingerprint == FIRST_HOST && q.fingerprint == FIRST_HOST && r.fingerprint == SECOND_HOST
            && p.isDisconnected && !q.isDisconnected
  {
  }

  lemma SharedAddress(g: GameState, f: Fingerprint, h: Fingerprint)
    requires |g.players| == 3 && g.players[0].isDisconnected && !g.players[1].isDisconnected
    requires g.players[0].fingerprint == g.players[1].fingerprint == f && g.players[2].fingerprint == h
    requires f in g.mq.queues && h in g.mq.queues
    ensures PlayersQueued(g) && !Separate(g.players)
  {
  }

  // ---- A crowded game ----

  function Joiner(n: nat): ClientMessage
    requires n < 100
  {
    ClientMessage(1, Straight, 0, [(70 + n) as byte])
  }

  /** n more players join from the second address. */
  function Crowd(c: Config, n: nat): GameState
    requires n <= 23
  {
    if n == 0 then TwoPlaying(c) else HandleMessage(c, Crowd(c, n - 1), SECOND_HOST, Joiner(n - 1))
  }

  /** The names so far, and whose session is how old. */
  ghost predicate CrowdIs(g: GameState, n: nat) {
    g.started && PlayersQueued(g) && CrowdListed(g.players, n)
  }

  ghost predicate CrowdListed(players: seq<Player>, n: nat) {
    && |players| == 2 + n && Listed(players, FIRST_NAME)
    && forall i | 0 <= i < |players| ::
         && (players[i].name == FIRST_NAME ==> players[i].fingerprint == FIRST_HOST) && players[i].sessionId == 1
         && |players[i].name| == 1 && (players[i].name[0] as nat) < 70 + n
  }

  lemma {:induction false} SameSessions(players: seq<Player>, names: seq<Text>, f: Fingerprint)
    requires forall i | 0 <= i < |players| :: players[i].sessionId == 1
    ensures OlderSessions(players, names, f, 1) == 0
    decreases |names|
  {
    if names != [] {
      SameSessions(players, names[1..], f);
    }
  }

  /** A message of a newcomer from the second address just makes it join. */
  lemma JoinerJoins(c: Config, g: GameState, n: nat)
    requires CrowdIs(g, n) && n < 23
    ensures HandleMessage(c, g, SECOND_HOST, Joiner(n)) == Joining(g, SECOND_HOST, Joiner(n), false)
    ensures Joining(g, SECOND_HOST, Joiner(n), false).started
  {
    var m, f := Joiner(n), SECOND_HOST;
    assert FindPlayer(g.players, m.playerName) == |g.players|;
    SameSessions(g.players, PlayerNamesOf(g.players), f);
    NobodyOlder(g, PlayerNamesOf(g.players), f, 1);
    HandlePlayerIs(c, g, f, m);
    hide DropOlder;
    hide HandlePlayer;
    hide StartGame;
    hide OlderSessions;
    hide PlayerNamesOf;
    hide FindPlayer;
    hide PlayersQueued;
    hide InsertPlayer;
    hide Add;
  }

  lemma JoinedList(players: seq<Player>, n: nat)
    requires CrowdListed(players, n) && n < 23
    ensures CrowdListed(InsertPlayer(players, NewPlayer(SECOND_HOST, Joiner(n), false)), n + 1)
  {
    var p := NewPlayer(SECOND_HOST, Joiner(n), false);
    var k := InsertPlaces(players, p);
    var others := InsertPlayer(players, p);
    hide InsertPlayer;
    assert others == players[..k] + [p] + players[k..];
    var i :| 0 <= i < |players| && players[i].name == FIRST_NAME;
    assert others[if i < k then i else i + 1] == players[i];
  }

  lemma JoinedCrowd(g: GameState, n: nat)
    requires CrowdIs(g, n) && n < 23
    ensures CrowdIs(Joining(g, SECOND_HOST, Joiner(n), false), n + 1)
  {
    JoinedList(g.players, n);
    OthersKeptItself(g, SECOND_HOST);
    JoinedQueued(g, g, SECOND_HOST, Joiner(n), false);
    hide PlayersQueued;
    hide OthersKept;
    hide CrowdListed;
    hide InsertPlayer;
    hide Add;
  }

  lemma OneJoins(c: Config, g: GameState, n: nat)
    requires CrowdIs(g, n) && n < 23
    ensures CrowdIs(HandleMessage(c, g, SECOND_HOST, Joiner(n)), n + 1)
  {
    hide *;
    JoinerJoins(c, g, n);
    JoinedCrowd(g, n);
  }

  lemma {:induction false} CrowdGrows(c: Config, n: nat)
    requires Small(c) && n <= 23
    ensures CrowdIs(Crowd(c, n), n)
  {
    hide HandleMessage;
    if n == 0 {
      TwoPlayingGoesOn(c);
      assert Crowd(c, 0).players[0].name == FIRST_NAME;
    } else {
      CrowdGrows(c, n - 1);
      OneJoins(c, Crowd(c, n - 1), n - 1);
    }
  }

  /** The first address again, with a new name and a newer session. */
  function Intruder(): ClientMessage {
    ClientMessage(2, Straight, 0, [100])
  }

  lemma {:induction false} SomebodyOlder(players: seq<Player>, names: seq<Text>, k: nat)
    requires k < |names| && IsOlder(players, names[k], FIRST_HOST, 2)
    ensures OlderSessions(players, names, FIRST_HOST, 2) > 0
    decreases |names|
  {
    hide IsOlder;
    if k > 0 {
      SomebodyOlder(players, names[1..], k - 1);
    }
  }

  lemma IntruderCrowds(g: GameState)
    requires CrowdIs(g, 23)
    ensures Crowded(g, FIRST_HOST, Intruder()) && Calm(g) && PlayersQueued(g) && |g.players| == MAX_PLAYERS
  {
    var names := PlayerNamesOf(g.players);
    hide PlayersQueued;
    hide OlderSessions;
    var i :| 0 <= i < |g.players| && g.players[i].name == FIRST_NAME;
    FirstIsOlder(g, i);
    hide IsOlder;
    SomebodyOlder(g.players, names, i);
    assert FindPlayer(g.players, Intruder().playerName) == |g.players|;
    hide FindPlayer;
    CalmMeans(g);
  }

  lemma FirstIsOlder(g: GameState, i: nat)
    requires CrowdIs(g, 23) && i < |g.players| && g.players[i].name == FIRST_NAME
    ensures IsOlder(g.players, PlayerNamesOf(g.players)[i], FIRST_HOST, 2)
  {
    hide PlayersQueued;
    assert FindPlayer(g.players, FIRST_NAME) < |g.players|;
  }

  /**
   * Twenty-five players are listed in the middle of a game: a new name from the address of one of them costs it the
   * queue.
   */
  lemma LostInCrowd(c: Config)
    requires Small(c)
    ensures PlayersQueued(Crowd(c, 23)) && !PlayersQueued(HandleMessage(c, Crowd(c, 23), FIRST_HOST, Intruder()))
  {
    hide *;
    CrowdGrows(c, 23);
    IntruderCrowds(Crowd(c, 23));
    MessageLeavesPlayersQueued(c, Crowd(c, 23), FIRST_HOST, Intruder());
  }
}
