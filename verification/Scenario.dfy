/** A game small enough to be followed by hand: two players on the smallest board. */
module Scenario {
  import opened Bytes
  import opened Messages
  import opened PlayerList
  import opened MessageQueue
  import opened Grammar
  import opened Game
  import opened GameStart
  import opened GameMessages
  import Rng

  /** The smallest board, with whatever speed and motion. */
  predicate Small(c: Config) {
    c.board == Board(16, 16)
  }

  const SEED: nat := 169

  const FIRST_HOST: Fingerprint := "host_1"
  const SECOND_HOST: Fingerprint := "host_2"

  const FIRST_NAME: Text := [65]
  const SECOND_NAME: Text := [67]

  /** Somebody presses a key. */
  function Ready(name: Text): ClientMessage {
    ClientMessage(1, Right, 0, name)
  }

  function OneListed(c: Config): GameState {
    HandleMessage(c, NewServer(SEED), FIRST_HOST, Ready(FIRST_NAME))
  }

  function TwoPlaying(c: Config): GameState {
    HandleMessage(c, OneListed(c), SECOND_HOST, Ready(SECOND_NAME))
  }

  lemma FirstDraws()
    ensures Rng.Next(169) == 4270663227 && Rng.Next(4270663227) == 1986288956 && Rng.Next(1986288956) == 3618083827
    ensures Rng.Next(3618083827) == 3998992768 && Rng.Next(3998992768) == 1605412085
    ensures Rng.Next(1605412085) == 3102383303
  {
  }

  function FirstPlayer(): Player {
    NewPlayer(FIRST_HOST, Ready(FIRST_NAME), true)
  }

  function SecondPlayer(): Player {
    NewPlayer(SECOND_HOST, Ready(SECOND_NAME), true)
  }

  lemma OneIsNotReady(p: Player)
    ensures !CanStart([p])
  {
    assert [p][..0] == [];
  }

  lemma OneListedIs(c: Config)
    ensures OneListed(c) == NewServer(SEED).(players := [FirstPlayer()], mq := Add(EMPTY_MQ, FIRST_HOST, 0))
  {
    var g := NewServer(SEED);
    assert PlayerNamesOf(g.players) == [];
    OneIsNotReady(FirstPlayer());
    hide CanStart;
    hide StartGame;
  }

  lemma TwoAreReady(p: Player, q: Player)
    requires p.isReady && q.isReady
    ensures CanStart([p, q])
  {
    assert [p, q][..1] == [p] && [p][..0] == [];
    assert ReadyPlayers([p]) == 1;
  }

  /** The state when the second player has joined and the game starts. */
  function TwoListed(): GameState {
    NewServer(SEED).(players := [FirstPlayer(), SecondPlayer()],
                     mq := Add(Add(EMPTY_MQ, FIRST_HOST, 0), SECOND_HOST, 0))
  }

  lemma JoinSecond(g: GameState)
    requires g.players == [FirstPlayer()]
    ensures FindPlayer(g.players, SECOND_NAME) == 1
    ensures InsertPlayer(g.players, SecondPlayer()) == [FirstPlayer(), SecondPlayer()]
    ensures DropOlder(g, PlayerNamesOf(g.players), SECOND_HOST, 1) == g
  {
    assert PlayerNamesOf(g.players) == [FIRST_NAME];
    assert g.players[1..] == [];
    hide DropConnection;
  }

  lemma TwoPlayingUnfolds(c: Config)
    ensures TwoPlaying(c) == HandlePlayer(c, OneListed(c), SECOND_HOST, Ready(SECOND_NAME))
  {
    hide OneListed;
    hide HandlePlayer;
  }

  lemma SecondJoins(g: GameState)
    requires g == NewServer(SEED).(players := [FirstPlayer()], mq := Add(EMPTY_MQ, FIRST_HOST, 0))
    requires InsertPlayer(g.players, SecondPlayer()) == [FirstPlayer(), SecondPlayer()]
    ensures Joining(g, SECOND_HOST, Ready(SECOND_NAME), true) == TwoListed() && !TwoListed().started
    ensures TwoListed().players == [FirstPlayer(), SecondPlayer()]
  {
    hide InsertPlayer;
    hide Add;
  }

  lemma BothPressed(c: Config)
    ensures FirstPlayer().isReady && SecondPlayer().isReady
    ensures !OneListed(c).started && OneListed(c).players == [FirstPlayer()]
    ensures Ready(SECOND_NAME).turnDirection != Straight
    ensures Ready(SECOND_NAME).playerName == SECOND_NAME && Ready(SECOND_NAME).sessionId == 1 && 1 != MAX_PLAYERS
  {
    OneListedIs(c);
    hide OneListed;
  }

  lemma StartsNow(c: Config, g: GameState)
    requires !g.started && CanStart(g.players)
    ensures MaybeStart(c, g) == StartGame(c, g)
  {
    hide CanStart;
    hide StartGame;
  }

  lemma TwoPlayingIs(c: Config)
    ensures TwoPlaying(c) == StartGame(c, TwoListed())
  {
    hide *;
    var g := OneListed(c);
    OneListedIs(c);
    BothPressed(c);
    TwoPlayingUnfolds(c);
    JoinSecond(g);
    HandlePlayerIs(c, g, SECOND_HOST, Ready(SECOND_NAME));
    SecondJoins(g);
    TwoAreReady(FirstPlayer(), SecondPlayer());
    StartsNow(c, TwoListed());
  }

  // ---- The two placements ----

  /** What a placement on a free pixel changes, apart from the queue and the logs. */
  lemma PlacedFree(c: Config, g: GameState, j: nat)
    requires j < |g.players| && g.started
    ensures var p := Placed(c, g.players[j], g.rng, Rng.Next(g.rng), Rng.Next(Rng.Next(g.rng)));
            var h := PlacePlayer(c, g, j);
            p.pixel !in g.eaten ==>
              && h.players == g.players[j := p] && h.eaten == g.eaten + {p.pixel}
              && h.rng == Rng.Next(Rng.Next(Rng.Next(g.rng))) && h.started && h.alive == g.alive
              && h.watchers == g.watchers
              && SameQueues(g.mq, h.mq) && |h.logs| == |g.logs|
  {
    var p := Placed(c, g.players[j], g.rng, Rng.Next(g.rng), Rng.Next(Rng.Next(g.rng)));
    if p.pixel !in g.eaten {
      ScheduledQueues(g.mq, g.gameId, Pixel(NumberOf(g, p.name), p.pixel.0, p.pixel.1));
    }
    hide Eliminate;
    hide Schedule;
    hide Placed;
    hide Rng.Next;
  }

  /** Scheduling before the first broadcast changes only what waits. */
  ghost predicate SameQueues(q: MQ, r: MQ) {
    q.current == None ==> r.current == None && r.log == q.log && r.queues == q.queues && r.schedule == q.schedule
  }

  lemma ScheduledQueues(q: MQ, id: nat, d: EventData)
    ensures SameQueues(q, Schedule(q, id, d))
  {
  }

  lemma TwoListedQueues()
    ensures var g := TwoListed();
            && g.mq.current == None && g.mq.log == [] && g.mq.schedule == [FIRST_HOST, SECOND_HOST]
            && g.mq.queues == map[FIRST_HOST := 0, SECOND_HOST := 0]
  {
  }

  function FirstPlaced(): Player {
    FirstPlayer().(takesPart := true, x := 11.5, y := 12.5, pixel := (11, 12), movementDirection := 307)
  }

  function SecondPlaced(): Player {
    SecondPlayer().(takesPart := true, x := 0.5, y := 5.5, pixel := (0, 5), movementDirection := 143)
  }

  lemma Places(c: Config)
    requires Small(c)
    ensures Placed(c, FirstPlayer(), 4270663227, 1986288956, 3618083827) == FirstPlaced()
    ensures Placed(c, SecondPlayer(), 3998992768, 1605412085, 3102383303) == SecondPlaced()
  {
    assert 4270663227 % 16 == 11 && 1986288956 % 16 == 12 && 3618083827 % 360 == 307;
    assert 3998992768 % 16 == 0 && 1605412085 % 16 == 5 && 3102383303 % 360 == 143;
  }

  lemma Opened(c: Config)
    requires Small(c)
    ensures var o := OpenGame(c, TwoListed());
            && o.players == [FirstPlayer(), SecondPlayer()] && o.eaten == {} && o.rng == 4270663227
            && o.started && o.alive == 2 && o.watchers == map[] && SameQueues(TwoListed().mq, o.mq) && |o.logs| == 1
  {
    FirstDraws();
    ScheduledQueues(TwoListed().mq, 169, NewGame(16, 16, PlayersField(PlayerNamesOf(TwoListed().players))));
    hide Schedule;
    hide NumberAll;
    hide PlayersField;
    hide Rng.Next;
    hide SameQueues;
    hide Add;
  }

  /** The game is on: both have a pixel, a queue and nobody has been sent anything. */
  ghost predicate BothPlaying(g: GameState) {
    && g.started && g.alive == 2 && g.players == [FirstPlaced(), SecondPlaced()] && g.watchers == map[]
    && g.mq.current == None && g.mq.log == [] && g.mq.schedule == [FIRST_HOST, SECOND_HOST]
    && g.mq.queues == map[FIRST_HOST := 0, SECOND_HOST := 0] && |g.logs| == 1 && g.eaten == {(11, 12), (0, 5)}
  }

  lemma FirstPlacement(c: Config)
    requires Small(c)
    ensures var h := PlacePlayer(c, OpenGame(c, TwoListed()), 0);
            && h.players == [FirstPlaced(), SecondPlayer()] && h.eaten == {(11, 12)} && h.rng == 3998992768
            && h.started && h.alive == 2 && h.watchers == map[] && SameQueues(TwoListed().mq, h.mq) && |h.logs| == 1
  {
    var o := OpenGame(c, TwoListed());
    Opened(c);
    TwoListedQueues();
    FirstDraws();
    Places(c);
    PlacedFree(c, o, 0);
    hide OpenGame;
    hide PlacePlayer;
    hide TwoListed;
    hide Placed;
    hide Rng.Next;
    hide FirstPlayer;
    hide SecondPlayer;
  }

  lemma SecondPlacement(c: Config, h: GameState)
    requires Small(c)
    requires h.players == [FirstPlaced(), SecondPlayer()] && h.eaten == {(11, 12)} && h.rng == 3998992768
    requires h.started && h.alive == 2 && h.watchers == map[] && SameQueues(TwoListed().mq, h.mq) && |h.logs| == 1
    ensures BothPlaying(PlacePlayer(c, h, 1))
  {
    TwoListedQueues();
    FirstDraws();
    Places(c);
    PlacedFree(c, h, 1);
    hide PlacePlayer;
    hide TwoListed;
    hide Placed;
    hide Rng.Next;
    hide FirstPlayer;
    hide SecondPlayer;
  }

  lemma TwoOnTheList()
    ensures |TwoListed().players| == 2
  {
    hide Add;
    hide FirstPlayer;
    hide SecondPlayer;
  }

  lemma BothAreListed(g: GameState)
    requires BothPlaying(g)
    ensures |g.players| == 2 && g.started
  {
    hide FirstPlaced;
    hide SecondPlaced;
  }

  lemma TwoPlayingGoesOn(c: Config)
    requires Small(c)
    ensures BothPlaying(TwoPlaying(c))
  {
    hide *;
    Opened(c);
    FirstPlacement(c);
    var o := OpenGame(c, TwoListed());
    var h := PlacePlayer(c, o, 0);
    SecondPlacement(c, h);
    var k := PlacePlayer(c, h, 1);
    TwoPlayingIs(c);
    TwoOnTheList();
    StartIsPlacing(c, TwoListed());
    BothAreListed(k);
    PlaceStep(c, o, 2, 0);
    PlaceStep(c, h, 2, 1);
    PlaceStep(c, k, 2, 2);
  }
}
