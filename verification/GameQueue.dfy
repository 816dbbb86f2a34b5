/**
 * The queue under the game manager: whatever happens, it refines the logs of the games, logs only grow, and
 * every watcher has a queue.
 */
module GameQueue {
  import opened Bytes
  import opened Messages
  import opened PlayerList
  import opened MessageQueue
  import opened Logs
  import opened Grammar
  import opened Game
  import opened GameInvariant
  import opened GameStart
  import opened GameMessages
  import Rng

  /** The game being played is the last log, and every game has a 32-bit number. */
  ghost predicate Linked(g: GameState) {
    && (g.started ==> g.logs != [] && g.logs[|g.logs| - 1].id == g.gameId)
    && g.rng < U32 && forall i | 0 <= i < |g.logs| :: g.logs[i].id < U32
  }

  /** The queue is well formed and, as long as no id was drawn twice, holds the logs. */
  ghost predicate Routed(q: MQ, logs: seq<GameLog>) {
    Valid(q) && (DistinctIds(logs) ==> Refines(q, logs))
  }

  /**
   * Only known clients have queues, every watcher has one, and whoever is marked as disconnected is not a watcher.
   */
  ghost predicate WatchersOk(g: GameState, known: set<Fingerprint>) {
    && g.mq.queues.Keys <= known
    && (forall f | f in g.watchers :: f in g.mq.queues)
    && (forall i | 0 <= i < |g.players| && g.players[i].isDisconnected :: g.players[i].fingerprint !in g.watchers)
  }

  ghost predicate QueueOk(g: GameState, known: set<Fingerprint>) {
    Linked(g) && Routed(g.mq, g.logs) && WatchersOk(g, known)
  }

  /** What every operation achieves. */
  ghost predicate Advanced(g: GameState, h: GameState, known: set<Fingerprint>) {
    QueueOk(h, known) && Grown(g.logs, h.logs)
  }

  lemma AdvancedTwice(known: set<Fingerprint>, g: GameState, h: GameState, k: GameState)
    requires Advanced(g, h, known) && Advanced(h, k, known)
    ensures Advanced(g, k, known)
  {
    hide QueueOk;
    hide Grown;
    GrownTransitive(g.logs, h.logs, k.logs);
  }

  lemma AdvancedOk(known: set<Fingerprint>, g: GameState, h: GameState)
    requires Advanced(g, h, known)
    ensures QueueOk(h, known)
  {
    hide QueueOk;
    hide Grown;
  }

  // ---- Changes that are not about connections ----

  ghost predicate SameConnections(players: seq<Player>, others: seq<Player>) {
    |players| == |others| && forall i | 0 <= i < |players| ::
      players[i].fingerprint == others[i].fingerprint && players[i].isDisconnected == others[i].isDisconnected
  }

  /** Only the worms, the counters and the generator may differ. */
  ghost predicate SameTraffic(g: GameState, h: GameState) {
    && h.mq == g.mq && h.logs == g.logs && h.watchers == g.watchers && h.started == g.started && h.gameId == g.gameId
    && h.rng < U32 && SameConnections(g.players, h.players)
  }

  lemma SameTrafficOk(known: set<Fingerprint>, g: GameState, h: GameState)
    requires QueueOk(g, known) && SameTraffic(g, h)
    ensures Advanced(g, h, known)
  {
    hide Routed;
  }

  lemma OneChanged(players: seq<Player>, j: nat, p: Player)
    requires j < |players| && p.fingerprint == players[j].fingerprint && p.isDisconnected == players[j].isDisconnected
    ensures SameConnections(players, players[j := p])
  {
  }

  // ---- Events ----

  lemma ScheduleKeepsQueues(q: MQ, id: nat, d: EventData)
    ensures Schedule(q, id, d).queues == q.queues
  {
  }

  lemma AppendGrows(logs: seq<GameLog>, d: EventData)
    ensures Grown(logs, AppendEvent(logs, d)) && (DistinctIds(AppendEvent(logs, d)) <==> DistinctIds(logs))
    ensures logs != [] ==>
            AppendEvent(logs, d) != [] && AppendEvent(logs, d)[|AppendEvent(logs, d)| - 1].id == logs[|logs| - 1].id
  {
  }

  lemma OpenGrows(logs: seq<GameLog>, id: nat, d: EventData)
    ensures Grown(logs, OpenLog(logs, id, d)) && (DistinctIds(OpenLog(logs, id, d)) ==> DistinctIds(logs))
  {
    var after := OpenLog(logs, id, d);
    if DistinctIds(after) {
      forall i, j | 0 <= i < j < |logs| ensures logs[i].id != logs[j].id {
        assert after[i].id != after[j].id;
      }
    }
  }

  lemma AppendRouted(q: MQ, logs: seq<GameLog>, id: nat, d: EventData)
    requires Routed(q, logs) && logs != [] && id == logs[|logs| - 1].id
    ensures Routed(Schedule(q, id, d), AppendEvent(logs, d))
  {
    ScheduleValid(q, id, d);
    AppendGrows(logs, d);
    hide Schedule;
    hide AppendEvent;
    hide Valid;
    hide Refines;
    hide DistinctIds;
    if DistinctIds(logs) {
      ScheduleRefines(q, logs, d);
    }
  }

  lemma OpenRouted(q: MQ, logs: seq<GameLog>, id: nat, d: EventData)
    requires Routed(q, logs)
    ensures Routed(Schedule(q, id, d), OpenLog(logs, id, d))
  {
    ScheduleValid(q, id, d);
    OpenGrows(logs, id, d);
    hide Schedule;
    hide OpenLog;
    hide Valid;
    hide Refines;
    hide DistinctIds;
    if DistinctIds(OpenLog(logs, id, d)) {
      OpenRefines(q, logs, id, d);
    }
  }

  /** Saving an event while a game is on. */
  lemma SaveAdvances(known: set<Fingerprint>, g: GameState, d: EventData)
    requires QueueOk(g, known) && g.started
    ensures Advanced(g, SaveEvent(g, d), known) && SaveEvent(g, d).started
  {
    ScheduleKeepsQueues(g.mq, g.gameId, d);
    AppendRouted(g.mq, g.logs, g.gameId, d);
    AppendGrows(g.logs, d);
    hide Schedule;
    hide AppendEvent;
    hide Routed;
    hide Grown;
  }

  // ---- Erasing ----

  lemma {:induction false} DropAllValid(q: MQ, fs: seq<Fingerprint>)
    requires Valid(q)
    ensures Valid(DropAll(q, fs))
    decreases |fs|
  {
    hide Valid;
    hide Drop;
    if fs != [] {
      DropValid(q, fs[0]);
      DropAllValid(Drop(q, fs[0]), fs[1..]);
    }
  }

  lemma {:induction false} DropAllRefines(q: MQ, fs: seq<Fingerprint>, logs: seq<GameLog>)
    requires Refines(q, logs)
    ensures Refines(DropAll(q, fs), logs)
    decreases |fs|
  {
    hide Refines;
    hide Drop;
    if fs != [] {
      OthersRefine(q, logs, fs[0], 0);
      DropAllRefines(Drop(q, fs[0]), fs[1..], logs);
    }
  }

  lemma {:induction false} DropAllKeeps(q: MQ, fs: seq<Fingerprint>, f: Fingerprint)
    requires f in q.queues && f !in fs
    ensures f in DropAll(q, fs).queues
    decreases |fs|
  {
    if fs != [] {
      DropAllKeeps(Drop(q, fs[0]), fs[1..], f);
    }
  }

  lemma {:induction false} DropAllShrinks(q: MQ, fs: seq<Fingerprint>)
    ensures DropAll(q, fs).queues.Keys <= q.queues.Keys
    decreases |fs|
  {
    if fs != [] {
      DropAllShrinks(Drop(q, fs[0]), fs[1..]);
    }
  }

  lemma {:induction false} LeavingAreDisconnected(players: seq<Player>, f: Fingerprint)
    requires f in Leaving(players)
    ensures exists i | 0 <= i < |players| :: players[i].isDisconnected && players[i].fingerprint == f
  {
    if players[0].isDisconnected && players[0].fingerprint == f {
    } else {
      LeavingAreDisconnected(players[1..], f);
      var i :| 0 <= i < |players[1..]| && players[1..][i].isDisconnected && players[1..][i].fingerprint == f;
      assert players[i + 1].isDisconnected && players[i + 1].fingerprint == f;
    }
  }

  lemma {:induction false} StayingConnected(players: seq<Player>)
    ensures NoneDisconnected(Staying(players))
  {
    if players != [] {
      StayingConnected(players[1..]);
    }
  }

  lemma DropAllRouted(q: MQ, fs: seq<Fingerprint>, logs: seq<GameLog>)
    requires Routed(q, logs)
    ensures Routed(DropAll(q, fs), logs)
  {
    DropAllValid(q, fs);
    hide Valid;
    hide Refines;
    hide DistinctIds;
    hide DropAll;
    if DistinctIds(logs) {
      DropAllRefines(q, fs, logs);
    }
  }

  lemma ErasedWatchers(known: set<Fingerprint>, g: GameState)
    requires WatchersOk(g, known)
    ensures WatchersOk(EraseDisconnected(g), known)
  {
    StayingConnected(g.players);
    DropAllShrinks(g.mq, Leaving(g.players));
    hide DropAll;
    hide Leaving;
    hide Staying;
    var h := EraseDisconnected(g);
    forall f | f in h.watchers ensures f in h.mq.queues {
      if f in Leaving(g.players) {
        LeavingAreDisconnected(g.players, f);
      }
      DropAllKeeps(g.mq, Leaving(g.players), f);
    }
  }

  lemma GrownItself(logs: seq<GameLog>)
    ensures Grown(logs, logs)
  {
  }

  lemma EraseAdvances(known: set<Fingerprint>, g: GameState)
    requires QueueOk(g, known)
    ensures Advanced(g, EraseDisconnected(g), known)
  {
    ErasedWatchers(known, g);
    DropAllRouted(g.mq, Leaving(g.players), g.logs);
    GrownItself(g.logs);
    hide Routed;
    hide WatchersOk;
    hide DropAll;
    hide Grown;
  }

  // ---- Turns ----

  lemma StopAdvances(known: set<Fingerprint>, g: GameState)
    requires QueueOk(g, known)
    ensures Advanced(g, g.(started := false), known)
  {
    GrownItself(g.logs);
    hide Routed;
    hide Grown;
  }

  lemma EndGameAdvances(known: set<Fingerprint>, g: GameState)
    requires QueueOk(g, known) && g.started
    ensures Advanced(g, EndGame(g), known)
  {
    EndGameSteps(g);
    hide *;
    var s := SaveEvent(g, GameOver);
    SaveAdvances(known, g, GameOver);
    AdvancedOk(known, g, s);
    StopAdvances(known, s);
    AdvancedOk(known, s, s.(started := false));
    EraseAdvances(known, s.(started := false));
    AdvancedTwice(known, g, s, s.(started := false));
    AdvancedTwice(known, g, s.(started := false), EndGame(g));
  }

  lemma EndGameSteps(g: GameState)
    ensures EndGame(g) == EraseDisconnected(SaveEvent(g, GameOver).(started := false))
  {
    hide EraseDisconnected;
    hide SaveEvent;
  }

  /** The state in which the elimination of player j is logged. */
  lemma StruckIsSaved(g: GameState, j: nat) returns (s: GameState)
    requires g.started && g.rng < U32 && j < |g.players|
    ensures SameTraffic(g, s) && s.started && exists d :: Struck(g, j) == SaveEvent(s, d)
  {
    var p := g.players[j].(isEliminated := true);
    s := g.(players := g.players[j := p], alive := (g.alive + 0xFF) % 0x100);
    OneChanged(g.players, j, p);
    hide SaveEvent;
    hide SameConnections;
    assert Struck(g, j) == SaveEvent(s, PlayerEliminated(NumberOf(g, p.name)));
  }

  lemma StrikeAdvances(known: set<Fingerprint>, g: GameState, j: nat)
    requires QueueOk(g, known) && g.started && j < |g.players|
    ensures Advanced(g, Struck(g, j), known) && Struck(g, j).started
  {
    assert g.rng < U32 by {
      hide Routed;
      hide WatchersOk;
    }
    hide *;
    var s := StruckIsSaved(g, j);
    var d :| Struck(g, j) == SaveEvent(s, d);
    SameTrafficOk(known, g, s);
    AdvancedOk(known, g, s);
    SaveAdvances(known, s, d);
    AdvancedTwice(known, g, s, Struck(g, j));
  }

  lemma EliminateAdvances(known: set<Fingerprint>, g: GameState, j: nat)
    requires QueueOk(g, known) && g.started && j < |g.players|
    ensures Advanced(g, Eliminate(g, j), known)
  {
    hide *;
    var s := Struck(g, j);
    EliminateIsStruck(g, j);
    StrikeAdvances(known, g, j);
    AdvancedOk(known, g, s);
    EndGameAdvances(known, s);
    AdvancedTwice(known, g, s, EndGame(s));
  }

  lemma EatPixelAdvances(known: set<Fingerprint>, g: GameState, j: nat, pixel: Coordinates)
    requires QueueOk(g, known) && g.started && j < |g.players|
    ensures Advanced(g, EatPixel(g, j, pixel), known)
  {
    var p := g.players[j].(pixel := pixel);
    var s := g.(players := g.players[j := p], eaten := g.eaten + {pixel});
    OneChanged(g.players, j, p);
    SameTrafficOk(known, g, s);
    hide QueueOk;
    hide SaveEvent;
    hide Grown;
    SaveAdvances(known, s, Pixel(NumberOf(s, p.name), pixel.0, pixel.1));
    AdvancedTwice(known, g, s, EatPixel(g, j, pixel));
  }

  lemma NothingAdvances(known: set<Fingerprint>, g: GameState)
    requires QueueOk(g, known)
    ensures Advanced(g, g, known)
  {
    GrownItself(g.logs);
    hide QueueOk;
    hide Grown;
  }

  lemma MoveKeepsConnection(c: Config, p: Player)
    ensures Moved(c, p).fingerprint == p.fingerprint && Moved(c, p).isDisconnected == p.isDisconnected
  {
  }

  lemma MovePlayerCases(c: Config, g: GameState, j: nat)
    requires j < |g.players|
    ensures var h := g.(players := g.players[j := Moved(c, g.players[j])]);
            && j < |h.players|
            && (MovePlayer(c, g, j) == g || MovePlayer(c, g, j) == h || MovePlayer(c, g, j) == Eliminate(h, j)
                || exists pixel :: MovePlayer(c, g, j) == EatPixel(h, j, pixel))
  {
    hide Eliminate;
    hide EatPixel;
    hide Moved;
  }

  lemma MovePlayerAdvances(known: set<Fingerprint>, c: Config, g: GameState, j: nat)
    requires QueueOk(g, known) && g.started && j < |g.players|
    ensures Advanced(g, MovePlayer(c, g, j), known)
  {
    var h := g.(players := g.players[j := Moved(c, g.players[j])]);
    MovePlayerCases(c, g, j);
    MoveKeepsConnection(c, g.players[j]);
    OneChanged(g.players, j, h.players[j]);
    SameTrafficOk(known, g, h);
    hide *;
    AdvancedOk(known, g, h);
    NothingAdvances(known, g);
    if MovePlayer(c, g, j) == Eliminate(h, j) {
      EliminateAdvances(known, h, j);
      AdvancedTwice(known, g, h, MovePlayer(c, g, j));
    } else if MovePlayer(c, g, j) != g && MovePlayer(c, g, j) != h {
      var pixel :| MovePlayer(c, g, j) == EatPixel(h, j, pixel);
      EatPixelAdvances(known, h, j, pixel);
      AdvancedTwice(known, g, h, MovePlayer(c, g, j));
    }
  }

  lemma {:induction false} RunTurnFromAdvances(known: set<Fingerprint>, c: Config, g: GameState, n: nat, i: nat)
    requires QueueOk(g, known)
    ensures Advanced(g, RunTurnFrom(c, g, n, i), known)
    decreases n - i
  {
    hide QueueOk;
    hide MovePlayer;
    hide Advanced;
    NothingAdvances(known, g);
    if i < n && g.started && i < |g.players| {
      var h := MovePlayer(c, g, i);
      MovePlayerAdvances(known, c, g, i);
      AdvancedOk(known, g, h);
      RunTurnFromAdvances(known, c, h, n, i + 1);
      AdvancedTwice(known, g, h, RunTurnFrom(c, h, n, i + 1));
    }
  }

  // ---- The start of a game ----

  lemma OpenAdvances(known: set<Fingerprint>, c: Config, g: GameState)
    requires QueueOk(g, known)
    ensures Advanced(g, OpenGame(c, g), known) && OpenGame(c, g).players == g.players
  {
    var d := NewGame(c.board.maxx, c.board.maxy, PlayersField(PlayerNamesOf(g.players)));
    ScheduleKeepsQueues(g.mq, g.rng, d);
    OpenRouted(g.mq, g.logs, g.rng, d);
    OpenGrows(g.logs, g.rng, d);
    hide Schedule;
    hide Routed;
    hide Grown;
    hide NumberAll;
    hide PlayersField;
  }

  lemma ArrivedTraffic(c: Config, g: GameState, j: nat)
    requires j < |g.players|
    ensures SameTraffic(g, Arrived(c, g, j))
  {
    hide Placed;
    hide Rng.Next;
    assert SameConnections(g.players, Arrived(c, g, j).players) by {
      PlacedConnection(c, g.players[j], g.rng, Rng.Next(g.rng), Rng.Next(Rng.Next(g.rng)));
    }
    hide SameConnections;
  }

  lemma PlacedConnection(c: Config, p: Player, r1: nat, r2: nat, r3: nat)
    ensures var q := Placed(c, p, r1, r2, r3); q.fingerprint == p.fingerprint && q.isDisconnected == p.isDisconnected
  {
  }

  lemma PlacePlayerCases(c: Config, g: GameState, j: nat)
    requires j < |g.players|
    ensures exists h: GameState :: SameTraffic(g, h) && j < |h.players| &&
              (PlacePlayer(c, g, j) == Eliminate(h, j) || exists pixel :: PlacePlayer(c, g, j) == EatPixel(h, j, pixel))
  {
    hide *;
    ArrivedTraffic(c, g, j);
    PlaceIsArrived(c, g, j);
  }

  lemma SameTrafficStarted(g: GameState, h: GameState)
    requires SameTraffic(g, h)
    ensures h.started == g.started
  {
  }

  lemma PlacePlayerAdvances(known: set<Fingerprint>, c: Config, g: GameState, j: nat)
    requires QueueOk(g, known) && g.started && j < |g.players|
    ensures Advanced(g, PlacePlayer(c, g, j), known)
  {
    hide *;
    PlacePlayerCases(c, g, j);
    var h :| SameTraffic(g, h) && j < |h.players| &&
             (PlacePlayer(c, g, j) == Eliminate(h, j) || exists pixel :: PlacePlayer(c, g, j) == EatPixel(h, j, pixel));
    SameTrafficOk(known, g, h);
    SameTrafficStarted(g, h);
    AdvancedOk(known, g, h);
    if PlacePlayer(c, g, j) == Eliminate(h, j) {
      EliminateAdvances(known, h, j);
    } else {
      var pixel :| PlacePlayer(c, g, j) == EatPixel(h, j, pixel);
      EatPixelAdvances(known, h, j, pixel);
    }
    AdvancedTwice(known, g, h, PlacePlayer(c, g, j));
  }

  lemma {:induction false} PlaceFromAdvances(known: set<Fingerprint>, c: Config, g: GameState, n: nat, i: nat)
    requires QueueOk(g, known)
    ensures Advanced(g, PlaceFrom(c, g, n, i), known)
    decreases n - i
  {
    hide QueueOk;
    hide PlacePlayer;
    hide Advanced;
    NothingAdvances(known, g);
    if i < n && g.started && i < |g.players| {
      var h := PlacePlayer(c, g, i);
      PlacePlayerAdvances(known, c, g, i);
      AdvancedOk(known, g, h);
      PlaceFromAdvances(known, c, h, n, i + 1);
      AdvancedTwice(known, g, h, PlaceFrom(c, h, n, i + 1));
    }
  }

  lemma MaybeStartAdvances(known: set<Fingerprint>, c: Config, g: GameState)
    requires QueueOk(g, known)
    ensures Advanced(g, MaybeStart(c, g), known)
  {
    hide QueueOk;
    hide OpenGame;
    hide PlaceFrom;
    hide Advanced;
    hide CanStart;
    NothingAdvances(known, g);
    var h := OpenGame(c, g);
    OpenAdvances(known, c, g);
    AdvancedOk(known, g, h);
    PlaceFromAdvances(known, c, h, |g.players|, 0);
    AdvancedTwice(known, g, h, PlaceFrom(c, h, |g.players|, 0));
  }

  // ---- Connections and messages ----

  lemma OthersRouted(q: MQ, logs: seq<GameLog>, f: Fingerprint, n: nat)
    requires Routed(q, logs)
    ensures Routed(Ack(q, f, n), logs) && Routed(Drop(q, f), logs) && Routed(Add(q, f, n), logs)
  {
    AckValid(q, f, n);
    DropValid(q, f);
    AddValid(q, f, n);
    hide Valid;
    hide Ack;
    hide Drop;
    hide Add;
    hide DistinctIds;
    hide Refines;
    if DistinctIds(logs) {
      OthersRefine(q, logs, f, n);
    }
  }

  lemma {:induction false} MarkedOnlyItself(players: seq<Player>, f: Fingerprint)
    ensures |Marked(players, f)| == |players|
    ensures forall i | 0 <= i < |players| :: Marked(players, f)[i].fingerprint == players[i].fingerprint
    ensures forall i | 0 <= i < |players| ::
              Marked(players, f)[i].isDisconnected ==> players[i].isDisconnected || players[i].fingerprint == f
  {
    if players != [] {
      MarkedOnlyItself(players[1..], f);
    }
  }

  lemma UnlinkedWatchers(known: set<Fingerprint>, g: GameState, f: Fingerprint)
    requires WatchersOk(g, known)
    ensures WatchersOk(Unlinked(g, f), known)
  {
    MarkedOnlyItself(g.players, f);
    hide Marked;
    hide RemoveFirst;
  }

  lemma UnlinkedAdvances(known: set<Fingerprint>, g: GameState, f: Fingerprint)
    requires QueueOk(g, known)
    ensures Advanced(g, Unlinked(g, f), known)
  {
    UnlinkedWatchers(known, g, f);
    OthersRouted(g.mq, g.logs, f, 0);
    GrownItself(g.logs);
    hide WatchersOk;
    hide Routed;
    hide Drop;
    hide Ack;
    hide Add;
    hide Marked;
    hide Grown;
  }

  /** A lost client has no queue. */
  lemma DropConnectionForgets(g: GameState, f: Fingerprint)
    ensures f !in DropConnection(g, f).mq.queues
  {
    DropAllShrinks(Unlinked(g, f).mq, Leaving(Unlinked(g, f).players));
    hide DropAll;
    hide Marked;
    hide Leaving;
    hide Staying;
    hide RemoveFirst;
  }

  lemma DropConnectionAdvances(known: set<Fingerprint>, g: GameState, f: Fingerprint)
    requires QueueOk(g, known)
    ensures Advanced(g, DropConnection(g, f), known)
  {
    hide *;
    var h := Unlinked(g, f);
    DropIsUnlinked(g, f);
    UnlinkedAdvances(known, g, f);
    AdvancedOk(known, g, h);
    EraseAdvances(known, h);
    AdvancedTwice(known, g, h, EraseDisconnected(h));
  }

  lemma {:induction false} DropOlderAdvances(known: set<Fingerprint>, g: GameState, names: seq<Text>, f: Fingerprint,
      sessionId: nat)
    requires QueueOk(g, known)
    ensures Advanced(g, DropOlder(g, names, f, sessionId), known)
    decreases |names|
  {
    hide *;
    if names == [] {
      NothingOlder(g, f, sessionId);
      NothingAdvances(known, g);
    } else {
      var d := DropConnection(g, f);
      DropOlderStep(g, names, f, sessionId);
      DropConnectionAdvances(known, g, f);
      AdvancedOk(known, g, d);
      DropOlderAdvances(known, g, names[1..], f, sessionId);
      DropOlderAdvances(known, d, names[1..], f, sessionId);
      AdvancedTwice(known, g, d, DropOlder(d, names[1..], f, sessionId));
    }
  }

  lemma WatcherCases(known: set<Fingerprint>, g: GameState, f: Fingerprint, m: ClientMessage)
    requires WatchersOk(g, known) && f in known
    ensures WatchersOk(HandleWatcher(g, f, m), known)
  {
    hide RemoveFirst;
  }

  lemma WatcherTraffic(g: GameState, f: Fingerprint, m: ClientMessage)
    ensures var h, n := HandleWatcher(g, f, m), m.nextExpectedEventNo;
            && h == g.(watchers := h.watchers, mq := h.mq)
            && (h.mq == g.mq || h.mq == Add(g.mq, f, n) || h.mq == Ack(g.mq, f, n) || h.mq == Add(Drop(g.mq, f), f, n))
  {
    hide Drop;
    hide Ack;
    hide Add;
    hide HasFingerprint;
  }

  lemma HandleWatcherAdvances(known: set<Fingerprint>, g: GameState, f: Fingerprint, m: ClientMessage)
    requires QueueOk(g, known) && f in known
    ensures Advanced(g, HandleWatcher(g, f, m), known)
  {
    hide *;
    QueueOkGives(g, known);
    WatcherCases(known, g, f, m);
    WatcherTraffic(g, f, m);
    OthersRouted(g.mq, g.logs, f, m.nextExpectedEventNo);
    OthersRouted(Drop(g.mq, f), g.logs, f, m.nextExpectedEventNo);
    TrafficAdvances(known, g, HandleWatcher(g, f, m));
  }

  lemma QueueOkGives(g: GameState, known: set<Fingerprint>)
    requires QueueOk(g, known)
    ensures Linked(g) && Routed(g.mq, g.logs) && WatchersOk(g, known)
  {
    hide Linked;
    hide Routed;
    hide WatchersOk;
  }

  lemma TrafficAdvances(known: set<Fingerprint>, g: GameState, h: GameState)
    requires QueueOk(g, known) && h == g.(watchers := h.watchers, mq := h.mq)
    requires Routed(h.mq, h.logs) && WatchersOk(h, known)
    ensures Advanced(g, h, known)
  {
    GrownItself(g.logs);
    hide WatchersOk;
    hide Routed;
    hide Grown;
  }

  lemma AckKeepsQueues(q: MQ, f: Fingerprint, n: nat)
    ensures Ack(q, f, n).queues.Keys == q.queues.Keys
    ensures Add(q, f, n).queues.Keys == q.queues.Keys + {f}
  {
  }

  lemma SteeredAdvances(known: set<Fingerprint>, g: GameState, k: nat, f: Fingerprint, m: ClientMessage)
    requires QueueOk(g, known) && k < |g.players|
    ensures Advanced(g, Steered(g, k, f, m), known)
  {
    OthersRouted(g.mq, g.logs, f, m.nextExpectedEventNo);
    AckKeepsQueues(g.mq, f, m.nextExpectedEventNo);
    GrownItself(g.logs);
    hide Routed;
    hide Ack;
    hide Add;
    hide Drop;
    hide Grown;
  }

  lemma JoiningWatchers(known: set<Fingerprint>, g: GameState, f: Fingerprint, m: ClientMessage, ready: bool)
    requires WatchersOk(g, known) && f in known
    ensures WatchersOk(Joining(g, f, m, ready), known)
  {
    var k := InsertPlaces(g.players, NewPlayer(f, m, ready));
    hide InsertPlayer;
    AckKeepsQueues(g.mq, f, m.nextExpectedEventNo);
    hide Add;
  }

  lemma JoiningAdvances(known: set<Fingerprint>, g: GameState, f: Fingerprint, m: ClientMessage, ready: bool)
    requires QueueOk(g, known) && f in known
    ensures Advanced(g, Joining(g, f, m, ready), known)
  {
    OthersRouted(g.mq, g.logs, f, m.nextExpectedEventNo);
    JoiningWatchers(known, g, f, m, ready);
    GrownItself(g.logs);
    hide WatchersOk;
    hide Routed;
    hide Ack;
    hide Add;
    hide Drop;
    hide InsertPlayer;
    hide Grown;
  }

  lemma HandlePlayerAdvances(known: set<Fingerprint>, c: Config, g: GameState, f: Fingerprint, m: ClientMessage)
    requires QueueOk(g, known) && f in known
    ensures Advanced(g, HandlePlayer(c, g, f, m), known)
  {
    hide *;
    HandlePlayerIs(c, g, f, m);
    NothingAdvances(known, g);
    var k := FindPlayer(g.players, m.playerName);
    if k < |g.players| {
      var h := Steered(g, k, f, m);
      SteeredAdvances(known, g, k, f, m);
      AdvancedOk(known, g, h);
      MaybeStartAdvances(known, c, h);
      AdvancedTwice(known, g, h, MaybeStart(c, h));
    } else {
      var h := DropOlder(g, PlayerNamesOf(g.players), f, m.sessionId);
      DropOlderAdvances(known, g, PlayerNamesOf(g.players), f, m.sessionId);
      AdvancedOk(known, g, h);
      var j := Joining(h, f, m, !g.started && m.turnDirection != Straight);
      JoiningAdvances(known, h, f, m, !g.started && m.turnDirection != Straight);
      AdvancedOk(known, h, j);
      AdvancedTwice(known, g, h, j);
      MaybeStartAdvances(known, c, j);
      AdvancedTwice(known, g, j, MaybeStart(c, j));
    }
  }

  lemma HandleMessageAdvances(known: set<Fingerprint>, c: Config, g: GameState, f: Fingerprint, m: ClientMessage)
    requires QueueOk(g, known) && f in known
    ensures Advanced(g, HandleMessage(c, g, f, m), known)
  {
    hide QueueOk;
    hide HandleWatcher;
    hide HandlePlayer;
    hide Advanced;
    if m.playerName == [] {
      HandleWatcherAdvances(known, g, f, m);
    } else {
      HandlePlayerAdvances(known, c, g, f, m);
    }
  }
}
