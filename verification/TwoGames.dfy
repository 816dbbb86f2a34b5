/**
 * Runs of honest processes that reach what the other modules describe: a third game with a number already used, and a
 * client that enters a game blindly, once to give up and once to pass on NEW_GAME with the players of an earlier game.
 */
module TwoGames {
  import opened Bytes
  import opened Names
  import opened Messages
  import opened Packing
  import opened PlayerList
  import opened MessageQueue
  import opened Logs
  import opened Grammar
  import opened Game
  import opened GameInvariant
  import opened GameStart
  import opened PlayerQueues
  import opened Draws
  import opened Drain
  import opened Serving
  import opened Server
  import opened Client
  import opened Reassembly
  import opened Rendering
  import opened EndToEnd
  import opened Deliveries
  import opened Lobby
  import Cycle
  import Rng

  // ---- Actions ----

  lemma PressEncodes(i: nat, known: nat)
    requires i < MAX_PLAYERS && known < U32
    ensures WellFormedClientMessage(Press(i, known))
  {
    NameIsValid(i);
    hide Name;
  }

  /** The datagram with which player i presses a key. */
  function Key(i: nat, known: nat): Action
    requires i < MAX_PLAYERS && known < U32
  {
    PressEncodes(i, known);
    Datagram(Host(i), EncodeClientMessage(Press(i, known)), 0)
  }

  lemma KeyIs(c: Config, s: Sys, i: nat, known: nat)
    requires i < MAX_PLAYERS && known < U32
    ensures var t := Step(c, s, Key(i, known));
            && t.server.game == HandleMessage(c, s.server.game, Host(i), Press(i, known))
            && t.client == s.client && t.net == s.net
  {
    ServerActions(c, s);
    PressEncodes(i, known);
    ClientMessageRoundTrip(Press(i, known));
    hide HandleMessage;
    hide DecodeClientMessage;
    hide EncodeClientMessage;
    hide Press;
    hide Host;
    hide Step;
  }

  lemma RunOne(c: Config, s: Sys, a: Action)
    ensures Run(c, s, [a]) == Step(c, s, a)
  {
    hide *;
    RunUnfolds(c, s, [a]);
    NoActions(c, s);
    assert [a][..0] == [];
  }

  lemma {:induction false} RunMore(c: Config, s: Sys, first: seq<Action>, more: seq<Action>)
    ensures Run(c, s, first + more) == Run(c, Run(c, s, first), more)
    decreases |more|
  {
    hide *;
    if more == [] {
      NoActions(c, Run(c, s, first));
      assert first + more == first;
    } else {
      var n, all := |more| - 1, first + more;
      RunUnfolds(c, s, all);
      RunUnfolds(c, Run(c, s, first), more);
      assert all[..|all| - 1] == first + more[..n];
      RunMore(c, s, first, more[..n]);
    }
  }

  lemma {:induction false} StaysOk(c: Config, s: Sys, actions: seq<Action>)
    requires SysOk(c, s)
    ensures SysOk(c, Run(c, s, actions))
    decreases |actions|
  {
    hide *;
    if actions == [] {
      NoActions(c, s);
    } else {
      var n := |actions| - 1;
      RunUnfolds(c, s, actions);
      StaysOk(c, s, actions[..n]);
      StepOk(c, Run(c, s, actions[..n]), actions[n]);
    }
  }

  lemma Room()
    ensures 2 <= MAX_PLAYERS && 4 < U32
  {
  }

  // ---- The first game ----

  /** Two players press a key, which starts a game. */
  function BothKeys(known: nat): seq<Action>
    requires known < U32
  {
    [Key(0, known), Key(1, known)]
  }

  lemma BothRun(c: Config, s: Sys, known: nat)
    requires known < U32
    ensures Run(c, s, BothKeys(known)) == Step(c, Step(c, s, Key(0, known)), Key(1, known))
  {
    hide Step;
    hide Key;
    RunMore(c, s, [Key(0, known)], [Key(1, known)]);
    RunOne(c, s, Key(0, known));
    RunOne(c, Step(c, s, Key(0, known)), Key(1, known));
    assert [Key(0, known)] + [Key(1, known)] == BothKeys(known);
    hide Run;
  }

  lemma StartIs(c: Config, seed: nat)
    ensures var s := Start(seed);
            && s.server.game == NewServer(seed) && s.client == NewClient() && s.net == {}
            && Gathered(s.server.game, 0, {}) && Finished(c.board, s.server.game.logs, 0) && s.server.game.draws == 0
            && s.server.game.logs == [] && s.server.game.mq == EMPTY_MQ
  {
  }

  lemma EmptyLull(c: Config, seed: nat)
    ensures Lull(c, seed, Start(seed).server.game, 0, {})
  {
    StartIs(c, seed);
    NewServerDrawn(seed);
    hide Start;
    hide Gathered;
    hide Drawn;
    hide Finished;
    LullFrom(c, seed, NewServer(seed), 0, {});
  }

  lemma TwoAdded()
    ensures var q := Add(Add(EMPTY_MQ, Host(0), 0), Host(1), 0);
            q.current == None && Host(0) in q.queues && Host(1) in q.queues
  {
    NamesDiffer(0, 1);
  }

  lemma OneMoreGives(c: Config, seed: nat, g: GameState, q: MQ, h: GameState)
    requires OneMoreGame(c, seed, g, q, h)
    ensures Lull(c, seed, h, 2, {}) && OneStarted(seed, g, h) && |h.logs| == |g.logs| + 1
    ensures h.mq.current == q.current && h.mq.queues == q.queues
    ensures |CurrentLog(h)| == 4 && OneEach(CurrentLog(h), 2) && |Roster(CurrentLog(h))| == 2
    ensures forall i | 0 <= i < 2 :: Roster(CurrentLog(h))[i] == Name(i)
  {
    hide Lull;
    hide OneEach;
    hide Roster;
    hide Name;
    hide Rng.Output;
    hide DrawsFor;
  }

  /** After the first two datagrams: one game, over already. */
  ghost predicate Opened(c: Config, seed: nat, s: Sys) {
    var g := s.server.game;
    && Lull(c, seed, g, 2, {}) && |g.logs| == 1 && g.mq.current == None && Host(0) in g.mq.queues
    && |CurrentLog(g)| == 4 && OneEach(CurrentLog(g), 2) && |Roster(CurrentLog(g))| == 2
    && (forall i | 0 <= i < 2 :: Roster(CurrentLog(g))[i] == Name(i))
    && s.client == NewClient() && SysOk(c, s)
  }

  lemma OpenedFrom(c: Config, seed: nat, s: Sys)
    requires var g := s.server.game;
             && Lull(c, seed, g, 2, {}) && |g.logs| == 1 && g.mq.current == None && Host(0) in g.mq.queues
             && |CurrentLog(g)| == 4 && OneEach(CurrentLog(g), 2) && |Roster(CurrentLog(g))| == 2
             && (forall i | 0 <= i < 2 :: Roster(CurrentLog(g))[i] == Name(i))
             && s.client == NewClient() && SysOk(c, s)
    ensures Opened(c, seed, s)
  {
    hide Lull;
    hide OneEach;
    hide Roster;
    hide Name;
    hide Host;
    hide SysOk;
    hide NewClient;
  }

  lemma Opening(c: Config, seed: nat)
    requires seed < U32 && Collide(c, seed, 0)
    ensures Opened(c, seed, Run(c, Start(seed), BothKeys(0)))
  {
    hide *;
    Room();
    var s := Start(seed);
    var g := s.server.game;
    var t := Step(c, s, Key(0, 0));
    StartIs(c, seed);
    EmptyLull(c, seed);
    JoinsLull(c, seed, g, 0, {});
    KeyIs(c, s, 0, 0);
    var h := t.server.game;
    assert {} + {0} == {0};
    JoinsAndStarts(c, seed, h);
    KeyIs(c, t, 1, 0);
    BothRun(c, s, 0);
    var u := Step(c, t, Key(1, 0));
    OneMoreGives(c, seed, h, Add(h.mq, Host(1), 0), u.server.game);
    TwoAdded();
    StartOk(c, seed);
    StaysOk(c, s, BothKeys(0));
    OpenedFrom(c, seed, u);
  }

  // ---- A third game ----

  lemma PlayersAgain(c: Config, seed: nat, s: Sys)
    requires seed % Rng.MODULUS == 0 && Lull(c, seed, s.server.game, 2, {})
    ensures var t := Run(c, s, BothKeys(0));
            Lull(c, seed, t.server.game, 2, {}) && |t.server.game.logs| == |s.server.game.logs| + 1
  {
    hide *;
    Room();
    var g, t := s.server.game, Step(c, s, Key(0, 0));
    PressesLull(c, seed, g, 2, {}, 0, 0) by {
      var nobody: set<nat> := {};
      assert 1 !in nobody;
    }
    KeyIs(c, s, 0, 0);
    var h := t.server.game;
    assert {} + {0} == {0};
    ZerosCollide(c, seed, h.draws);
    PressesAndStarts(c, seed, h, 0);
    KeyIs(c, t, 1, 0);
    BothRun(c, s, 0);
    OneMoreGives(c, seed, h, Ack(h.mq, Host(1), 0), Step(c, t, Key(1, 0)).server.game);
  }

  lemma OpenedGives(c: Config, seed: nat, s: Sys)
    requires Opened(c, seed, s)
    ensures Lull(c, seed, s.server.game, 2, {}) && |s.server.game.logs| == 1
  {
    hide Lull;
    hide OneEach;
    hide Roster;
    hide Name;
    hide Host;
    hide SysOk;
    hide NewClient;
  }

  /** With a seed divisible by the modulus six datagrams are three games, and two of them have the same number. */
  lemma ThreeGames(c: Config, seed: nat)
    requires seed < U32 && seed % Rng.MODULUS == 0
    ensures var s := Run(c, Start(seed), BothKeys(0) + BothKeys(0) + BothKeys(0));
            |s.server.game.logs| == 3 && !NoNumberTwice(s)
  {
    hide *;
    var z, keys := Start(seed), BothKeys(0);
    ZerosCollide(c, seed, 0);
    Opening(c, seed);
    OpenedGives(c, seed, Run(c, z, keys));
    PlayersAgain(c, seed, Run(c, z, keys));
    RunMore(c, z, keys, keys);
    PlayersAgain(c, seed, Run(c, z, keys + keys));
    RunMore(c, z, keys + keys, keys);
    NumbersAreDistinct(c, seed, keys + keys + keys);
  }

  // ---- Sending in a run ----

  function Times(n: nat): seq<Action> {
    if n == 0 then [] else Times(n - 1) + [Sending(true)]
  }

  lemma SendingGame(c: Config, s: Sys)
    requires CanSend(s.server.game.mq)
    ensures var t := Step(c, s, Sending(true));
            t.server.game == s.server.game.(mq := Send(s.server.game.mq)) && t.client == s.client && s.net <= t.net
  {
    SendingIs(c, s, true);
    SentIs(s.server, true);
    hide Step;
    hide Sent;
    hide Send;
    hide CanSend;
    hide WellFormedMessage;
    hide EncodeMessage;
    hide NextMessage;
  }

  lemma TimesMore(n: nat)
    ensures Times(n + 1) == Times(n) + [Sending(true)] && Times(0) == []
  {
  }

  /** What repeated sending does to a system. */
  lemma {:induction false} SendsRun(c: Config, s: Sys, n: nat)
    ensures var t := Run(c, s, Times(n));
            && t.server.game == s.server.game.(mq := Sends(s.server.game.mq, n))
            && t.client == s.client && s.net <= t.net
    decreases n
  {
    hide *;
    TimesMore(0);
    if n == 0 {
      NoActions(c, s);
      NoSends(s.server.game.mq);
    } else {
      var t := Run(c, s, Times(n - 1));
      TimesMore(n - 1);
      SendsRun(c, s, n - 1);
      RunMore(c, s, Times(n - 1), [Sending(true)]);
      RunOne(c, t, Sending(true));
      SendsLast(s.server.game.mq, n - 1);
      ServerActions(c, t);
      if CanSend(t.server.game.mq) {
        SendingGame(c, t);
      }
    }
  }

  /** What is sent is in the network from then on. */
  lemma SentInNet(c: Config, s: Sys, n: nat)
    requires SysOk(c, s) && DistinctIds(s.server.game.logs) && CanSend(Sends(s.server.game.mq, n))
    ensures var m := NextMessage(Sends(s.server.game.mq, n)).msg;
            WellFormedMessage(m) && EncodeMessage(m) in Run(c, s, Times(n + 1)).net
  {
    hide *;
    var t := Run(c, s, Times(n));
    SendsRun(c, s, n);
    StaysOk(c, s, Times(n));
    SysOkMeans(c, t);
    SentIsWellFormed(c, t.server);
    SendingIs(c, t, true);
    TimesMore(n);
    RunMore(c, s, Times(n), [Sending(true)]);
    RunOne(c, t, Sending(true));
  }

  lemma QueueOfSys(c: Config, s: Sys)
    requires SysOk(c, s) && DistinctIds(s.server.game.logs)
    ensures Valid(s.server.game.mq) && EverythingFits(s.server.game.mq) && Refines(s.server.game.mq, s.server.game.logs)
    ensures AllLogsOk(c.board, s.server.game.logs)
  {
    hide *;
    SysOkMeans(c, s);
    ServerOkGives(c, s.server);
    AllLogsAreOk(c, s.server.game);
    BoardOk(c);
    QueueFits(c.board, s.server.game.mq, s.server.game.logs);
  }

  lemma {:induction false} SendsKeepClients(q: MQ, n: nat)
    ensures Sends(q, n).queues.Keys == q.queues.Keys
    decreases n
  {
    hide *;
    if n == 0 || !CanSend(q) {
      CannotSend(q, n);
    } else {
      SendKeepsClients(q, true);
      SendFirst(q, n - 1);
      SendsKeepClients(Send(q), n - 1);
    }
  }

  // ---- The first game is broadcast ----

  /** The only game so far is on the air. */
  ghost predicate Broadcast(g: GameState, log: GameLog) {
    && g.logs == [log] && g.mq.current == Some(log.id) && g.mq.log == log.events && g.mq.nextGames == []
    && Host(0) in g.mq.queues
  }

  lemma OneLogDistinct(logs: seq<GameLog>)
    requires |logs| == 1
    ensures DistinctIds(logs)
  {
  }

  lemma OneWaits(q: MQ, logs: seq<GameLog>)
    requires Refines(q, logs) && q.current == None && |logs| == 1
    ensures |q.nextGames| == 1 && q.nextGames[0].id == logs[0].id
    ensures WithNumbers(q.nextGames[0].events) == logs[0].events
    ensures !HasPending(q)
  {
    hide WithNumbers;
    assert logs[|logs| - |q.nextGames| + 0] == logs[0];
  }

  /** A game of two that is over at once: all of it fits in one datagram. */
  lemma SmallGame(b: Board, log: seq<Event>)
    requires LogOk(b, log) && |log| == 4 && OneEach(log, 2) && |Roster(log)| == 2
    ensures Fitting(log, 4) == 4
  {
    FirstIsNewGame(b, log);
    JoinedLength(Roster(log));
    SmallSizes(b, log);
    FourSizes(log);
    assert log[..4] == log;
    FittingIsLongest(log, 4, 4);
    hide LogOk;
    hide Roster;
    hide Fitting;
    hide TotalSize;
  }

  lemma FourSizes(log: seq<Event>)
    requires |log| == 4
    ensures TotalSize(log) == EncodedSize(log[0]) + EncodedSize(log[1]) + EncodedSize(log[2]) + EncodedSize(log[3])
  {
    hide *;
    SizeOfFirst(log);
    SizeOfFirst(log[1..]);
    SizeOfFirst(log[2..]);
    SizeOfFirst(log[3..]);
    assert log[1..][1..] == log[2..] && log[2..][1..] == log[3..] && log[3..][1..] == [];
    assert log[1..][0] == log[1] && log[2..][0] == log[2] && log[3..][0] == log[3];
    NoSize();
  }

  lemma NoSize()
    ensures TotalSize([]) == 0
  {
  }

  lemma SmallSizes(b: Board, log: seq<Event>)
    requires LogOk(b, log) && |log| == 4
    ensures EncodedSize(log[1]) <= 22 && EncodedSize(log[2]) <= 22 && EncodedSize(log[3]) <= 22
  {
    Between(b, log, 1);
    Between(b, log, 2);
    Between(b, log, 3);
  }

  lemma MqOnly(c: Config, seed: nat, g: GameState, n: nat, ready: set<nat>, q: MQ)
    requires Lull(c, seed, g, n, ready)
    ensures Lull(c, seed, g.(mq := q), n, ready)
  {
    LullIdle(c, seed, g, n, ready);
    hide Idle;
    hide Drawn;
    SameGathered(g, n, ready, q);
    StillLull(c, seed, g, n, ready, g.(mq := q), n, ready);
    hide Lull;
  }

  lemma SameGathered(g: GameState, n: nat, ready: set<nat>, q: MQ)
    requires Gathered(g, n, ready)
    ensures Gathered(g.(mq := q), n, ready)
  {
    hide Seated;
  }

  lemma BroadcastFrom(g: GameState, log: GameLog)
    requires g.logs == [log] && g.mq.current == Some(log.id) && g.mq.log == log.events && g.mq.nextGames == []
    requires Host(0) in g.mq.queues
    ensures Broadcast(g, log)
  {
    hide Host;
  }

  lemma BroadcastGives(g: GameState, log: GameLog)
    requires Broadcast(g, log)
    ensures g.logs == [log] && g.mq.current == Some(log.id) && g.mq.log == log.events && g.mq.nextGames == []
    ensures Host(0) in g.mq.queues
  {
    hide Host;
  }

  lemma OpenedMeans(c: Config, seed: nat, s: Sys)
    requires Opened(c, seed, s)
    ensures var g := s.server.game;
            && Lull(c, seed, g, 2, {}) && |g.logs| == 1 && g.mq.current == None && Host(0) in g.mq.queues
            && |CurrentLog(g)| == 4 && OneEach(CurrentLog(g), 2) && |Roster(CurrentLog(g))| == 2
            && (forall i | 0 <= i < 2 :: Roster(CurrentLog(g))[i] == Name(i))
            && s.client == NewClient() && SysOk(c, s) && CurrentLog(g) == g.logs[0].events
  {
    hide Lull;
    hide OneEach;
    hide Roster;
    hide Name;
    hide Host;
    hide SysOk;
    hide NewClient;
  }

  lemma WholeLog(q: MQ, f: Fingerprint)
    requires Pending(q, f) && q.current.Some? && q.queues[f] == 0 && Fitting(q.log, 4) == |q.log|
    ensures ChunkFor(q, f).msg == ServerMessage(q.current.value, q.log)
  {
    hide Fitting;
    assert q.log[0..] == q.log && q.log[0..|q.log|] == q.log;
  }

  /** The first game is sent, all of it in one datagram. */
  lemma FirstBroadcast(c: Config, seed: nat, s: Sys) returns (n: nat, m: ServerMessage)
    requires Opened(c, seed, s)
    ensures |s.server.game.logs| == 1
    ensures var t, log := Run(c, s, Times(n)), s.server.game.logs[0];
            && SysOk(c, t) && Lull(c, seed, t.server.game, 2, {}) && Broadcast(t.server.game, log)
            && t.client == NewClient() && m == ServerMessage(log.id, log.events)
            && WellFormedMessage(m) && EncodeMessage(m) in t.net
  {
    hide *;
    Room();
    OpenedMeans(c, seed, s);
    var g := s.server.game;
    var q, log := g.mq, g.logs[0];
    OneLogDistinct(g.logs);
    QueueOfSys(c, s);
    OneWaits(q, g.logs);
    GoesOnAir(q, Host(0));
    var k := FirstServed(q, Host(0));
    var a := Advance(q);
    LogOfMany(c.board, g.logs, 0);
    SmallGame(c.board, log.events);
    WholeLog(a, Host(0));
    n := k + 1;
    m := ServerMessage(log.id, log.events);
    SentInNet(c, s, k);
    SendsRun(c, s, n);
    StaysOk(c, s, Times(n));
    BroadcastMeans(a, Sends(q, n));
    DrainingMeans(Sends(q, n));
    MqOnly(c, seed, g, 2, {}, Sends(q, n));
    OnlyLog(g.logs);
    BroadcastFrom(g.(mq := Sends(q, n)), log);
  }

  lemma OnlyLog(logs: seq<GameLog>)
    requires |logs| == 1
    ensures logs == [logs[0]]
  {
  }

  // ---- The other players join ----

  function Others(n: nat): seq<Action>
    requires 2 <= n <= MAX_PLAYERS
  {
    if n == 2 then [] else Others(n - 1) + [Key(n - 1, 0)]
  }

  /** The players from the third to the n-th. */
  function Later(n: nat): set<nat> {
    if n <= 2 then {} else Later(n - 1) + {n - 1}
  }

  lemma {:induction false} LaterIs(n: nat, i: nat)
    ensures i in Later(n) <==> 2 <= i < n
  {
    if n > 2 {
      LaterIs(n - 1, i);
    }
  }

  lemma LaterNext(n: nat)
    ensures if n <= 2 then Later(n) == {} else Later(n) == Later(n - 1) + {n - 1}
  {
  }

  lemma AddedBroadcast(g: GameState, h: GameState, log: GameLog, f: Fingerprint)
    requires Broadcast(g, log) && h == g.(players := h.players, mq := Add(g.mq, f, 0))
    ensures Broadcast(h, log)
  {
    hide Host;
  }

  lemma OthersMore(n: nat)
    requires 2 < n <= MAX_PLAYERS
    ensures Others(n) == Others(n - 1) + [Key(n - 1, 0)]
  {
    hide Key;
  }

  lemma NoOthers()
    requires 2 <= MAX_PLAYERS
    ensures Others(2) == []
  {
  }

  lemma {:induction false} OthersJoin(c: Config, seed: nat, s: Sys, n: nat, log: GameLog)
    requires Lull(c, seed, s.server.game, 2, {}) && Broadcast(s.server.game, log) && 2 <= n <= MAX_PLAYERS
    ensures var t := Run(c, s, Others(n));
            && Lull(c, seed, t.server.game, n, Later(n)) && Broadcast(t.server.game, log)
            && t.client == s.client && t.net == s.net
    decreases n
  {
    hide *;
    Room();
    if n == 2 {
      NoOthers();
      LaterNext(2);
      NoActions(c, s);
    } else {
      var t := Run(c, s, Others(n - 1));
      OthersJoin(c, seed, s, n - 1, log);
      OthersMore(n);
      RunMore(c, s, Others(n - 1), [Key(n - 1, 0)]);
      RunOne(c, t, Key(n - 1, 0));
      KeyIs(c, t, n - 1, 0);
      LaterNext(n);
      JoinsLull(c, seed, t.server.game, n - 1, Later(n - 1)) by {
        LaterIs(n - 1, 0);
      }
      AddedBroadcast(t.server.game, Step(c, t, Key(n - 1, 0)).server.game, log, Host(n - 1));
    }
  }

  // ---- Everybody gets the first game ----

  lemma SomebodyScheduled(q: MQ, f: Fingerprint)
    requires Valid(q) && f in q.queues
    ensures q.schedule != []
  {
  }

  lemma DrainingFrom(q: MQ)
    requires Valid(q) && EverythingFits(q) && q.nextGames == []
    ensures Draining(q)
  {
    hide Valid;
    hide EverythingFits;
  }

  lemma DrainedQueue(q: MQ, log: seq<Event>)
    requires Drained(q, log)
    ensures q.log == log && q.nextGames == [] && !HasPending(q)
  {
  }

  lemma EverybodyServed(c: Config, s: Sys, log: GameLog) returns (n: nat)
    requires SysOk(c, s) && Broadcast(s.server.game, log)
    ensures var t := Run(c, s, Times(n));
            && SysOk(c, t) && t.server.game == s.server.game.(mq := t.server.game.mq) && Broadcast(t.server.game, log)
            && !HasPending(t.server.game.mq) && t.client == s.client && s.net <= t.net
  {
    hide *;
    Room();
    var g := s.server.game;
    var q := g.mq;
    BroadcastGives(g, log);
    OneLogDistinct(g.logs);
    QueueOfSys(c, s);
    DrainingFrom(q);
    SomebodyScheduled(q, Host(0));
    n := DrainsWhenCaughtUp(q);
    SendsRun(c, s, n);
    StaysOk(c, s, Times(n));
    SendsKeepBroadcast(q, n);
    BroadcastMeans(q, Sends(q, n));
    SendsKeepClients(q, n);
    DrainedQueue(Sends(q, n), q.log);
    BroadcastFrom(g.(mq := Sends(q, n)), log);
  }

  // ---- The second game ----

  lemma AckedBroadcast(g: GameState, h: GameState, log: GameLog, f: Fingerprint, n: nat)
    requires Broadcast(g, log) && !HasPending(g.mq) && |log.events| <= n
    requires h == g.(players := h.players, mq := Ack(g.mq, f, n))
    ensures Broadcast(h, log) && !HasPending(h.mq)
  {
    hide Host;
  }

  lemma NotOverInside(b: Board, log: seq<Event>, i: nat)
    requires LogOk(b, log) && i + 1 < |log|
    ensures !log[i].data.GameOver?
  {
    if i == 0 {
      FirstIsNewGame(b, log);
    } else {
      Between(b, log, i);
    }
  }

  /** A game that is over is not continued. */
  lemma FinishedStays(b: Board, log: seq<Event>, later: seq<Event>)
    requires LogOk(b, later) && Over(log) && log <= later
    ensures later == log
  {
    hide LogOk;
    if |log| < |later| {
      NotOverInside(b, later, |log| - 1);
    }
  }

  lemma FewDraws(b: Board, logs: seq<GameLog>)
    requires AllLogsOk(b, logs) && |logs| == 2
    ensures DrawsOf(logs) <= 2 * MAX_DRAWS <= Cycle.CYCLE
  {
    LogOfMany(b, logs, 0);
    LogOfMany(b, logs, 1);
    hide *;
    RosterSize(b, logs[0].events);
    RosterSize(b, logs[1].events);
    TwoDraws(logs);
    DrawsForIs(logs[0], |Roster(logs[0].events)|);
    DrawsForIs(logs[1], |Roster(logs[1].events)|);
    DrawsFit();
  }

  lemma TwoDraws(logs: seq<GameLog>)
    requires |logs| == 2
    ensures DrawsOf(logs) == DrawsFor(logs[0]) + DrawsFor(logs[1])
  {
    hide *;
    LastDraws(logs);
    LastDraws(logs[..1]);
    NoDraws(logs[..1]);
  }

  lemma LastDraws(logs: seq<GameLog>)
    requires logs != []
    ensures DrawsOf(logs) == DrawsOf(logs[..|logs| - 1]) + DrawsFor(logs[|logs| - 1])
  {
    hide DrawsFor;
  }

  lemma DrawsFit()
    ensures MAX_DRAWS == 1 + 3 * MAX_PLAYERS && 2 * MAX_DRAWS <= Cycle.CYCLE
  {
  }

  /** Two games do not have the same number, unless the seed is 0. */
  lemma TwoDistinct(b: Board, seed: nat, g: GameState)
    requires Drawn(seed, g) && |g.logs| == 2 && seed != 0 && AllLogsOk(b, g.logs)
    ensures DistinctIds(g.logs)
  {
    FewDraws(b, g.logs);
    DrawnMeans(seed, g);
    hide Drawn;
    hide AllLogsOk;
    hide DistinctIds;
    if seed % Rng.MODULUS == 0 {
      ZeroDistinctExactlyWhen(seed, g);
    } else {
      DistinctWithinCycle(seed, g);
    }
  }

  /** The second game waits behind the first, which everybody has got. */
  ghost predicate SecondWaits(c: Config, s: Sys, first: GameLog) {
    var g := s.server.game;
    && SysOk(c, s) && DistinctIds(g.logs) && |g.logs| == 2 && g.logs[0] == first
    && |g.mq.nextGames| == 1 && g.mq.nextGames[0].id == g.logs[1].id && !HasPending(g.mq) && Host(0) in g.mq.queues
    && WithNumbers(g.mq.nextGames[0].events) == g.logs[1].events
    && LogOk(c.board, g.logs[1].events) && |g.logs[1].events| > 2 && |Roster(g.logs[1].events)| == MAX_PLAYERS
    && forall i | 0 <= i < MAX_PLAYERS :: Roster(g.logs[1].events)[i] == Name(i)
  }

  lemma SecondWaitsFrom(c: Config, s: Sys, first: GameLog)
    requires var g := s.server.game;
             && SysOk(c, s) && DistinctIds(g.logs) && |g.logs| == 2 && g.logs[0] == first
             && |g.mq.nextGames| == 1 && g.mq.nextGames[0].id == g.logs[1].id && !HasPending(g.mq)
             && Host(0) in g.mq.queues && WithNumbers(g.mq.nextGames[0].events) == g.logs[1].events
             && LogOk(c.board, g.logs[1].events) && |g.logs[1].events| > 2
             && |Roster(g.logs[1].events)| == MAX_PLAYERS
             && forall i | 0 <= i < MAX_PLAYERS :: Roster(g.logs[1].events)[i] == Name(i)
    ensures SecondWaits(c, s, first)
  {
    hide SysOk;
    hide DistinctIds;
    hide Host;
    hide Name;
    hide HasPending;
    hide WithNumbers;
    hide LogOk;
    hide Roster;
  }

  lemma SecondIsNext(q: MQ, logs: seq<GameLog>)
    requires Refines(q, logs) && DistinctIds(logs) && |logs| == 2 && q.current == Some(logs[0].id)
    ensures |q.nextGames| == 1 && q.nextGames[0].id == logs[1].id
    ensures WithNumbers(q.nextGames[0].events) == logs[1].events
    ensures q.log == logs[0].events
  {
    hide WithNumbers;
    var n := |q.nextGames|;
    assert logs[|logs| - n - 1] == GameLog(logs[0].id, q.log);
    assert n == 1;
    assert logs[|logs| - n + 0] == logs[1];
  }

  lemma SameCursors(q: MQ, r: MQ)
    requires r.queues == q.queues && |r.log| == |q.log| && !HasPending(q)
    ensures !HasPending(r)
  {
  }

  lemma LullOver(c: Config, seed: nat, g: GameState, n: nat, ready: set<nat>)
    requires Lull(c, seed, g, n, ready) && |g.logs| == 1
    ensures Over(g.logs[0].events)
  {
    hide Gathered;
    hide Drawn;
    hide LogOk;
    hide Over;
  }

  lemma GrownFirst(logs: seq<GameLog>, later: seq<GameLog>)
    requires Grown(logs, later) && |logs| == 1
    ensures |later| >= 1 && later[0].id == logs[0].id && logs[0].events <= later[0].events
  {
  }

  lemma StartedCount(seed: nat, g: GameState, h: GameState)
    requires OneStarted(seed, g, h)
    ensures |h.logs| == |g.logs| + 1
  {
    hide Rng.Output;
    hide DrawsFor;
  }

  lemma CurrentOfTwo(g: GameState)
    requires |g.logs| == 2
    ensures CurrentLog(g) == g.logs[1].events
  {
  }

  lemma AudienceMeans(q: MQ, r: MQ)
    requires SameAudience(q, r)
    ensures r.queues == q.queues && r.current == q.current
  {
  }

  /** The first two players press a key, which starts a game of all twenty-five. */
  lemma SecondGame(c: Config, seed: nat, s: Sys, log: GameLog)
    requires SysOk(c, s) && Lull(c, seed, s.server.game, MAX_PLAYERS, Later(MAX_PLAYERS))
    requires Broadcast(s.server.game, log)
    requires !HasPending(s.server.game.mq) && |log.events| == 4 && seed != 0 && 4 < U32
    ensures var u := Run(c, s, BothKeys(4)); SecondWaits(c, u, log) && u.client == s.client && u.net == s.net
  {
    Room();
    hide *;
    var n, ready := MAX_PLAYERS, Later(MAX_PLAYERS);
    var t := Step(c, s, Key(0, 4));
    var u := Step(c, t, Key(1, 4));
    var g, h, k := s.server.game, t.server.game, u.server.game;
    LaterIs(n, 1);
    PressesLull(c, seed, g, n, ready, 0, 4);
    KeyIs(c, s, 0, 4);
    AckedBroadcast(g, h, log, Host(0), 4);
    forall i | 0 <= i < n ensures i == 1 || i in ready + {0} {
      LaterIs(n, i);
    }
    PressesAndStartsMany(c, seed, h, n, ready + {0}, 4);
    KeyIs(c, t, 1, 4);
    BothRun(c, s, 4);
    BroadcastGives(h, log);
    var q := Ack(h.mq, Host(1), 4);
    AckedBroadcast(h, h.(mq := q), log, Host(1), 4);
    BroadcastGives(h.(mq := q), log);
    AudienceMeans(q, k.mq);
    StaysOk(c, s, BothKeys(4));
    RunOne(c, s, Key(0, 4));
    StaysOk(c, s, [Key(0, 4)]);
    LogsGrow(c, t, Key(1, 4));
    SysOkMeans(c, u);
    ServerOkGives(c, u.server);
    AllLogsAreOk(c, k);
    StartedCount(seed, h, k);
    TwoDistinct(c.board, seed, k);
    QueueOfSys(c, u);
    LullOver(c, seed, g, n, ready);
    GrownFirst(h.logs, k.logs);
    LogOfMany(c.board, k.logs, 0);
    FinishedStays(c.board, log.events, k.logs[0].events);
    SecondIsNext(k.mq, k.logs);
    SameCursors(q, k.mq);
    CurrentOfTwo(k);
    SecondWaitsFrom(c, u, log);
  }

  // ---- The second game is broadcast ----

  lemma SecondWaitsGives(c: Config, s: Sys, first: GameLog)
    requires SecondWaits(c, s, first)
    ensures var g := s.server.game;
            && SysOk(c, s) && DistinctIds(g.logs) && |g.logs| == 2 && g.logs[0] == first
            && |g.mq.nextGames| == 1 && g.mq.nextGames[0].id == g.logs[1].id && !HasPending(g.mq)
            && 0 < MAX_PLAYERS && Host(0) in g.mq.queues
            && WithNumbers(g.mq.nextGames[0].events) == g.logs[1].events
            && LogOk(c.board, g.logs[1].events) && |g.logs[1].events| > 2
            && |Roster(g.logs[1].events)| == MAX_PLAYERS
            && forall i | 0 <= i < MAX_PLAYERS :: Roster(g.logs[1].events)[i] == Name(i)
  {
    hide SysOk;
    hide DistinctIds;
    hide Host;
    hide Name;
    hide HasPending;
    hide WithNumbers;
    hide LogOk;
    hide Roster;
  }

  /** With twenty-five names of twenty characters NEW_GAME fills a datagram. */
  lemma FullGame(b: Board, log: seq<Event>)
    requires LogOk(b, log) && |Roster(log)| == MAX_PLAYERS
    requires forall i | 0 <= i < MAX_PLAYERS :: Roster(log)[i] == Name(i)
    ensures Crowding(log)
  {
    FirstIsNewGame(b, log);
    forall i | 0 <= i < |Roster(log)| ensures |Roster(log)[i]| == MAX_PLAYER_NAME_LENGTH {
      NameIsValid(i);
    }
    hide LogOk;
    hide Roster;
    hide Name;
    FullNamesLength(Roster(log));
  }

  /** What the client is sent of the second game: NEW_GAME alone, and then the events behind it. */
  ghost predicate InTwo(b: Board, log: GameLog, m: ServerMessage, more: ServerMessage) {
    && log.events != [] && m == ServerMessage(log.id, [log.events[0]]) && WellFormedMessage(m)
    && more.gameId == log.id && FirstNewGame(more.events) == |more.events| && SomeNeedPlayers(more.events)
    && WellFormedMessage(more)
  }

  lemma NextPart(b: Board, q: MQ, f: Fingerprint, log: GameLog)
    requires Pending(q, f) && q.current == Some(log.id) && q.log == log.events && q.queues[f] == 1
    requires b.Valid() && LogOk(b, log.events) && |log.events| >= 2
    ensures var m := ChunkFor(q, f).msg;
            m.gameId == log.id && FirstNewGame(m.events) == |m.events| && SomeNeedPlayers(m.events)
  {
    EventSendable(b, log.events, 1);
    SecondNeedsPlayers(b, log.events);
    PartOfLog(q, f);
    LaterIsNot(b, log.events, 1);
    hide LogOk;
    hide ChunkFor;
    var n := Fitting(log.events[1..], 4);
    assert log.events[1..][0] == log.events[1] && n >= 1;
    var m := ServerMessage(log.id, log.events[1..1 + n]);
    assert m.events[0] == log.events[1];
    assert IsChunk(m, log, 1);
    hide Fitting;
    NewGameInChunk(b, log, m, 1);
    hide NeedsPlayers;
  }

  lemma PendingAfter(q: MQ, f: Fingerprint, log: seq<Event>)
    requires q.log == log && f in q.queues && q.queues[f] < |log|
    ensures Pending(q, f)
  {
  }

  lemma InTwoFrom(b: Board, log: GameLog, m: ServerMessage, more: ServerMessage)
    requires log.events != [] && m == ServerMessage(log.id, [log.events[0]]) && WellFormedMessage(m)
    requires more.gameId == log.id && FirstNewGame(more.events) == |more.events| && SomeNeedPlayers(more.events)
    requires WellFormedMessage(more)
    ensures InTwo(b, log, m, more)
  {
    hide WellFormedMessage;
    hide SomeNeedPlayers;
    hide FirstNewGame;
  }

  lemma SecondBroadcast(c: Config, s: Sys, first: GameLog) returns (n: nat, m: ServerMessage, more: ServerMessage)
    requires SecondWaits(c, s, first)
    ensures |s.server.game.logs| == 2 && InTwo(c.board, s.server.game.logs[1], m, more)
    ensures var t := Run(c, s, Times(n));
            && SysOk(c, t) && t.server.game.logs == s.server.game.logs && t.client == s.client && s.net <= t.net
            && WellFormedMessage(m) && EncodeMessage(m) in t.net
            && WellFormedMessage(more) && EncodeMessage(more) in t.net
  {
    hide *;
    SecondWaitsGives(c, s, first);
    var g, f := s.server.game, Host(0);
    var q, log := g.mq, g.logs[1];
    QueueOfSys(c, s);
    BoardOk(c);
    FullGame(c.board, log.events);
    GoesOnAir(q, f);
    var a := Advance(q);
    var i := FirstServed(q, f);
    AloneExactlyWhen(a, f, c.board);
    m := ChunkFor(a, f).msg;
    SentInNet(c, s, i);
    SendsRun(c, s, i + 1);
    StaysOk(c, s, Times(i + 1));
    var t, r := Run(c, s, Times(i + 1)), Sends(q, i + 1);
    BroadcastMeans(a, r);
    PendingAfter(r, f, log.events);
    var j := ServedInTime(r, f);
    NextPart(c.board, r, f, log);
    more := ChunkFor(r, f).msg;
    SentInNet(c, t, j);
    SendsRun(c, t, j + 1);
    StaysOk(c, t, Times(j + 1));
    InTwoFrom(c.board, log, m, more);
    n := i + 1 + (j + 1);
    TimesSum(i + 1, j + 1);
    RunMore(c, s, Times(i + 1), Times(j + 1));
  }

  lemma {:induction false} TimesSum(m: nat, n: nat)
    ensures Times(m + n) == Times(m) + Times(n)
    decreases n
  {
    if n > 0 {
      TimesSum(m, n - 1);
      assert Times(m + n) == Times(m + (n - 1)) + [Sending(true)];
      assert Times(m) + Times(n - 1) + [Sending(true)] == Times(m) + (Times(n - 1) + [Sending(true)]);
    }
  }

  // ---- The client ----

  function Zeros(m: ServerMessage): seq<byte>
    requires WellFormedMessage(m)
  {
    seq(INBOUND_BUFFER_SIZE - |EncodeMessage(m)|, k requires 0 <= k => 0 as byte)
  }

  /** A datagram is delivered into a buffer of zeros. */
  function Deliver(m: ServerMessage): Action
    requires WellFormedMessage(m)
  {
    Delivery(EncodeMessage(m), Zeros(m))
  }

  lemma DeliverIs(c: Config, s: Sys, m: ServerMessage)
    requires WellFormedMessage(m) && EncodeMessage(m) in s.net
    ensures Step(c, s, Deliver(m)) == s.(client := Process(s.client, m))
  {
    var d := EncodeMessage(m);
    var leftover := Zeros(m);
    hide EncodeMessage;
    hide WellFormedMessage;
    hide Process;
    hide Step;
    hide Take;
    assert |d| + |leftover| == INBOUND_BUFFER_SIZE;
    DeliveryIs(c, s, d, leftover);
    TakenIs(s.client, m, leftover);
  }

  lemma NewClientHeeds()
    ensures Heeds(NewClient(), []) && !NewClient().aborted && NewClient().gameId == None
  {
    NothingHeard();
    hide Heard;
  }

  lemma NothingHeard()
    ensures forall id :: !Heard([], id)
  {
  }

  lemma FirstHeard(m: ServerMessage)
    ensures Latest([m]) == Some(m.gameId) && (Announced([m]) <==> HoldsNewGame(m))
    ensures forall id :: Heard([m], id) <==> m.gameId == id
  {
    NothingHeard();
    NextMessageIs([], m);
    assert [] + [m] == [m];
    forall id ensures Heard([m], id) <==> m.gameId == id {
      HeardNext([], m, id);
    }
    hide Heard;
    hide HoldsNewGame;
  }

  lemma BlindnessMeans(cli: ClientState)
    ensures EnteredBlindly(cli) <==> cli.announced != [] && !cli.announced[|cli.announced| - 1]
  {
  }

  /** The client has got all of the first game. */
  ghost predicate KnowsFirst(cli: ClientState, log: GameLog) {
    && cli.gameId == Some(log.id) && !cli.aborted && cli.names == Numbered(Roster(log.events))
    && forall id :: id in cli.seen <==> id == log.id
  }

  lemma WholeIsChunk(logs: seq<GameLog>, i: nat, m: ServerMessage)
    requires i < |logs| && m == ServerMessage(logs[i].id, logs[i].events)
    ensures ChunkOfLogs(m, logs)
  {
    assert m.events == logs[i].events[0..0 + |m.events|];
    assert IsChunk(m, logs[i], 0);
  }

  lemma WholeHolds(b: Board, m: ServerMessage, log: GameLog)
    requires LogOk(b, log.events) && m.events == log.events
    ensures HoldsNewGame(m)
  {
    FirstIsNewGame(b, log.events);
    assert m.events[0].data.NewGame?;
  }

  lemma KnowsFirstFrom(cli: ClientState, log: GameLog)
    requires cli.gameId == Some(log.id) && !cli.aborted && cli.names == Numbered(Roster(log.events))
    requires forall id :: id in cli.seen <==> id == log.id
    ensures KnowsFirst(cli, log)
  {
    hide Numbered;
    hide Roster;
  }

  /** The first datagram tells the client all about the first game. */
  lemma HearsFirst(c: Config, s: Sys, m: ServerMessage)
    requires SysOk(c, s) && DistinctIds(s.server.game.logs) && |s.server.game.logs| == 2 && s.client == NewClient()
    requires m == ServerMessage(s.server.game.logs[0].id, s.server.game.logs[0].events)
    requires WellFormedMessage(m) && EncodeMessage(m) in s.net
    ensures var t := Step(c, s, Deliver(m));
            && SysOk(c, t) && t.server == s.server && t.net == s.net && KnowsFirst(t.client, s.server.game.logs[0])
  {
    hide *;
    var logs, t := s.server.game.logs, Step(c, s, Deliver(m));
    var cli := t.client;
    DeliverIs(c, s, m);
    StepOk(c, s, Deliver(m));
    QueueOfSys(c, s);
    LogOfMany(c.board, logs, 0);
    WholeIsChunk(logs, 0, m);
    WholeHolds(c.board, m, logs[0]);
    SysOkMeans(c, s);
    PeerOkMeans(c, s);
    SysOkMeans(c, t);
    PeerOkMeans(c, t);
    NewClientHeeds();
    NoSuchMessage(s.client, m);
    ProcessFaithful(s.client, m, c.board, logs);
    ProcessHeeds(s.client, [], m);
    assert [] + [m] == [m];
    HeedsMeans(cli, [m]);
    FirstHeard(m);
    FaithfulGives(cli, c.board, logs, 0);
    BelievesGives(cli, c.board, logs[0].events);
    ToldGives(cli);
    BlindnessMeans(cli);
    SightedNames(cli, c.board, logs[0].events);
    KnowsFirstFrom(cli, logs[0]);
  }

  /** A client that hears of a new game in the middle of it. */
  lemma EntersBlindly(cli: ClientState, m: ServerMessage)
    requires cli.gameId != Some(m.gameId) && m.gameId !in cli.seen && !cli.aborted
    requires FirstNewGame(m.events) == |m.events|
    ensures var h := Process(cli, m);
            && h.gameId == Some(m.gameId) && h.playersInGame == 0 && !h.aborted
            && h.names == cli.names && h.text == cli.text && h.nextToSend == 0 && UpToDate(h)
  {
    hide FirstNewGame;
    ProcessIs(cli, m);
    AcceptedIs(cli, m);
    MismatchedSteps(cli, m);
    hide Process;
    hide Accepted;
    hide Mismatched;
    var e := Entered(cli, m);
    assert FirstMissing(e.events, 0) == 0;
    assert HandOver(e) == e;
  }

  lemma KnowsFirstMeans(cli: ClientState, log: GameLog)
    requires KnowsFirst(cli, log)
    ensures cli.gameId == Some(log.id) && !cli.aborted && cli.names == Numbered(Roster(log.events))
    ensures forall id :: id in cli.seen <==> id == log.id
  {
    hide Numbered;
    hide Roster;
  }

  lemma InTwoGives(b: Board, log: GameLog, m: ServerMessage, more: ServerMessage)
    requires InTwo(b, log, m, more)
    ensures log.events != [] && m == ServerMessage(log.id, [log.events[0]]) && WellFormedMessage(m)
    ensures more.gameId == log.id && FirstNewGame(more.events) == |more.events| && SomeNeedPlayers(more.events)
    ensures WellFormedMessage(more)
  {
    hide WellFormedMessage;
    hide SomeNeedPlayers;
    hide FirstNewGame;
  }

  lemma DifferentIds(logs: seq<GameLog>)
    requires DistinctIds(logs) && |logs| == 2
    ensures logs[0].id != logs[1].id
  {
  }

  /** The two fates of a client that has got the first game and then hears of the second in the middle of it. */
  lemma BlindFates(c: Config, s: Sys, m: ServerMessage, more: ServerMessage)
    requires SysOk(c, s) && DistinctIds(s.server.game.logs) && |s.server.game.logs| == 2
    requires KnowsFirst(s.client, s.server.game.logs[0]) && InTwo(c.board, s.server.game.logs[1], m, more)
    requires WellFormedMessage(m) && EncodeMessage(m) in s.net
    requires WellFormedMessage(more) && EncodeMessage(more) in s.net
    ensures s.server.game.logs[1].events != []
    ensures var logs, t := s.server.game.logs, Step(c, s, Deliver(more));
            var u, v := Step(c, t, Deliver(m)), Step(c, t, Deliver(more));
            && !t.client.aborted && v.client.aborted
            && !u.client.aborted
            && u.client.text == t.client.text + GuiLine(logs[1].events[0], Numbered(Roster(logs[0].events)))
  {
    hide *;
    var logs, t := s.server.game.logs, Step(c, s, Deliver(more));
    var cli := t.client;
    KnowsFirstMeans(s.client, logs[0]);
    InTwoGives(c.board, logs[1], m, more);
    DifferentIds(logs);
    DeliverIs(c, s, more);
    EntersBlindly(s.client, more);
    StepOk(c, s, Deliver(more));
    DeliverIs(c, t, m);
    DeliverIs(c, t, more);
    QueueOfSys(c, t);
    SysOkMeans(c, t);
    PeerOkMeans(c, t);
    FaithfulGives(cli, c.board, logs, 1);
    BelievesGives(cli, c.board, logs[1].events);
    ClientOkMeans(cli, logs);
    var j := FollowedLog(cli, logs);
    FollowingId(cli, logs[j]);
    OneLogPerId(logs, j, 1);
    LogOfMany(c.board, logs, 1);
    BlindNewGame(cli, m, c.board, logs[1]);
    NetGives(t.net, logs, EncodeMessage(more));
    var other := GenuineMessage(EncodeMessage(more), logs);
    SameEncoding(more, other, Zeros(more)) by {
      DeliverSize(more);
    }
    ProcessFaithful(cli, more, c.board, logs);
    GivesUpMeans(cli, more);
  }

  lemma DeliverSize(m: ServerMessage)
    requires WellFormedMessage(m)
    ensures |EncodeMessage(m)| + |Zeros(m)| == INBOUND_BUFFER_SIZE
  {
    hide EncodeMessage;
    hide WellFormedMessage;
  }

  lemma GivesUpMeans(cli: ClientState, m: ServerMessage)
    ensures GivesUp(cli, m) <==> cli.gameId == Some(m.gameId) && cli.playersInGame == 0 && SomeNeedPlayers(m.events)
  {
    hide SomeNeedPlayers;
  }

  // ---- The whole story ----

  lemma Drawn135()
    ensures Rng.Next(135) == 3360648527 && Rng.Next(3360648527) == 36426061 && Rng.Next(36426061) == 1594070916
    ensures Rng.Next(1594070916) == 3728155839 && Rng.Next(3728155839) == 3468034429
  {
  }

  /** There are such seeds: 4294967291 on every board, and on the smallest also 135, which is not degenerate. */
  lemma SomeSeedsCollide(c: Config)
    ensures Collide(c, 4294967291, 0)
    ensures c.board == Board(16, 16) ==> Collide(c, 135, 0)
  {
    ZerosCollide(c, 4294967291, 0);
    Drawn135();
    hide Rng.Next;
    assert Rng.Output(135, 0) == 135;
    assert Rng.Output(135, 1) == 3360648527 && Rng.Output(135, 2) == 36426061;
    assert Rng.Output(135, 3) == 1594070916 && Rng.Output(135, 4) == 3728155839 && Rng.Output(135, 5) == 3468034429;
    assert 3360648527 % 16 == 3728155839 % 16 && 36426061 % 16 == 3468034429 % 16;
  }

  /**
   * Two players start a game that is over at once and is sent i times; the others join and get it as well, by j sends;
   * all press a key, and the second game is sent k times.
   */
  function Story(i: nat, j: nat, k: nat): seq<Action> {
    Room();
    BothKeys(0) + Times(i) + Others(MAX_PLAYERS) + Times(j) + BothKeys(4) + Times(k)
  }

  /**
   * For any seed but 0 with which the first two players start on one pixel. The client gets the first game. Of the
   * second, the datagram with NEW_GAME is delayed: the next one makes the client enter the game blindly. If that one
   * comes twice the client gives up; if NEW_GAME comes after it, the client passes it on with the players of the
   * first game.
   */
  lemma BlindClient(c: Config, seed: nat)
    returns (i: nat, j: nat, k: nat, first: ServerMessage, m: ServerMessage, more: ServerMessage)
    requires 0 < seed < U32 && Collide(c, seed, 0)
    ensures WellFormedMessage(first) && WellFormedMessage(m) && WellFormedMessage(more)
    ensures var s := Run(c, Start(seed), Story(i, j, k));
            && NoNumberTwice(s) && |s.server.game.logs| == 2 && s.server.game.logs[1].events != []
            && EncodeMessage(first) in s.net && EncodeMessage(m) in s.net && EncodeMessage(more) in s.net
            && first == ServerMessage(s.server.game.logs[0].id, s.server.game.logs[0].events)
            && m == ServerMessage(s.server.game.logs[1].id, [s.server.game.logs[1].events[0]])
            && |Roster(s.server.game.logs[0].events)| == 2 && |Roster(s.server.game.logs[1].events)| == MAX_PLAYERS
    ensures var s := Run(c, Start(seed), Story(i, j, k));
            var t := Step(c, Step(c, s, Deliver(first)), Deliver(more));
            var u, v := Step(c, t, Deliver(m)), Step(c, t, Deliver(more));
            && !t.client.aborted && v.client.aborted && !u.client.aborted
            && u.client.text == t.client.text
                              + GuiLine(s.server.game.logs[1].events[0], Numbered(Roster(s.server.game.logs[0].events)))
  {
    hide *;
    Room();
    var z := Start(seed);
    Opening(c, seed);
    var s1 := Run(c, z, BothKeys(0));
    OpenedMeans(c, seed, s1);
    var log := s1.server.game.logs[0];
    i, first := FirstBroadcast(c, seed, s1);
    var s2 := Run(c, s1, Times(i));
    OthersJoin(c, seed, s2, MAX_PLAYERS, log);
    var s3 := Run(c, s2, Others(MAX_PLAYERS));
    StaysOk(c, s2, Others(MAX_PLAYERS));
    j := EverybodyServed(c, s3, log);
    var s4 := Run(c, s3, Times(j));
    MqOnly(c, seed, s3.server.game, MAX_PLAYERS, Later(MAX_PLAYERS), s4.server.game.mq);
    SecondGame(c, seed, s4, log);
    var s5 := Run(c, s4, BothKeys(4));
    SecondWaitsGives(c, s5, log);
    k, m, more := SecondBroadcast(c, s5, log);
    var s := Run(c, s5, Times(k));
    StoryRuns(c, z, i, j, k);
    NoNumberTwiceMeans(s);
    InTwoGives(c.board, s.server.game.logs[1], m, more);
    HearsFirst(c, s, first);
    BlindFates(c, Step(c, s, Deliver(first)), m, more);
  }

  lemma StoryRuns(c: Config, z: Sys, i: nat, j: nat, k: nat)
    requires 2 <= MAX_PLAYERS && 4 < U32
    ensures var s := Run(c, Run(c, z, BothKeys(0)), Times(i));
            var t := Run(c, Run(c, s, Others(MAX_PLAYERS)), Times(j));
            Run(c, z, Story(i, j, k)) == Run(c, Run(c, t, BothKeys(4)), Times(k))
  {
    var a := BothKeys(0);
    var b := a + Times(i);
    var d := b + Others(MAX_PLAYERS);
    var e := d + Times(j);
    var f := e + BothKeys(4);
    assert Story(i, j, k) == f + Times(k);
    hide *;
    RunMore(c, z, a, Times(i));
    RunMore(c, z, b, Others(MAX_PLAYERS));
    RunMore(c, z, d, Times(j));
    RunMore(c, z, e, BothKeys(4));
    RunMore(c, z, f, Times(k));
  }
}
