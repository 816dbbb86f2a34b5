/**
 * Which players have a queue. Acknowledging looks a player's queue up unchecked, and "every listed player has one"
 * is false of the code; here is, operation by operation, exactly when it is kept.
 */
module PlayerQueues {
  import opened Bytes
  import opened Messages
  import opened MessageQueue
  import opened PlayerList
  import opened Grammar
  import opened Game
  import opened GameInvariant
  import opened GameTurns
  import opened GameStart
  import opened GameMessages
  import opened GameQueue

  ghost predicate PlayersQueued(g: GameState) {
    forall i | 0 <= i < |g.players| :: g.players[i].fingerprint in g.mq.queues
  }

  function Sharing(players: seq<Player>, f: Fingerprint): nat {
    if players == [] then 0 else (if players[0].fingerprint == f then 1 else 0) + Sharing(players[1..], f)
  }

  lemma {:induction false} SharingNone(players: seq<Player>, f: Fingerprint)
    ensures Sharing(players, f) == 0 <==> !HasFingerprint(players, f)
  {
    if players != [] {
      SharingNone(players[1..], f);
      assert forall i | 0 < i < |players| :: players[i] == players[1..][i - 1];
    }
  }

  /** Marking and erasing takes one of the players with this address off the list, if there is one. */
  lemma {:induction false} SharingAfter(players: seq<Player>, f: Fingerprint, h: Fingerprint)
    requires NoneDisconnected(players)
    ensures Sharing(Staying(Marked(players, f)), h)
         == Sharing(players, h) - if h == f && Sharing(players, f) > 0 then 1 else 0
  {
    if players != [] {
      assert NoneDisconnected(players[1..]);
      if players[0].fingerprint == f {
        StayingAll(players[1..], h);
        assert Marked(players, f)[1..] == players[1..];
        assert Staying(Marked(players, f)) == Staying(players[1..]);
      } else {
        SharingAfter(players[1..], f, h);
        assert Marked(players, f)[1..] == Marked(players[1..], f);
        SharingStep(players[0].(isReady := false), Staying(Marked(players[1..], f)), h);
      }
    }
  }

  lemma SharingStep(p: Player, rest: seq<Player>, h: Fingerprint)
    ensures Sharing([p] + rest, h) == (if p.fingerprint == h then 1 else 0) + Sharing(rest, h)
  {
  }

  lemma {:induction false} StayingAll(players: seq<Player>, h: Fingerprint)
    requires NoneDisconnected(players)
    ensures Sharing(Staying(players), h) == Sharing(players, h)
  {
    if players != [] {
      StayingAll(players[1..], h);
      SharingStep(players[0].(isReady := false), Staying(players[1..]), h);
    }
  }

  lemma {:induction false} OnlyMarkedLeave(players: seq<Player>, f: Fingerprint)
    requires NoneDisconnected(players)
    ensures forall h | h in Leaving(Marked(players, f)) :: h == f
  {
    if players != [] {
      OnlyMarkedLeave(players[1..], f);
      if players[0].fingerprint == f {
        assert Marked(players, f)[1..] == players[1..];
        NobodyLeaves(players[1..]);
      } else {
        assert Marked(players, f)[1..] == Marked(players[1..], f);
      }
    }
  }

  lemma {:induction false} NobodyLeaves(players: seq<Player>)
    requires NoneDisconnected(players)
    ensures Leaving(players) == []
  {
    if players != [] {
      NobodyLeaves(players[1..]);
    }
  }

  /** Who has a queue when the player dropped is erased at once. */
  lemma ErasedQueues(g: GameState, f: Fingerprint, h: Fingerprint)
    requires NoneDisconnected(g.players) && f !in g.watchers && !g.started
    ensures h in DropConnection(g, f).mq.queues <==> h in g.mq.queues && h != f
    ensures DropConnection(g, f).players == Staying(Marked(g.players, f))
  {
    var u := Unlinked(g, f);
    OnlyMarkedLeave(g.players, f);
    DropConnectionForgets(g, f);
    DropAllShrinks(u.mq, Leaving(u.players));
    hide Staying;
    hide Marked;
    hide Leaving;
    if h in g.mq.queues && h != f {
      DropAllKeeps(u.mq, Leaving(u.players), h);
    }
  }

  lemma QueuedBySharing(g: GameState, h: Fingerprint)
    requires PlayersQueued(g) && Sharing(g.players, h) > 0
    ensures h in g.mq.queues
  {
    SharingNone(g.players, h);
  }

  lemma DropErasing(g: GameState, f: Fingerprint)
    requires PlayersQueued(g) && NoneDisconnected(g.players) && f !in g.watchers && !g.started
    ensures PlayersQueued(DropConnection(g, f)) <==> Sharing(g.players, f) <= 1
  {
    var d := DropConnection(g, f);
    ErasedQueues(g, f, f);
    SharingAfter(g.players, f, f);
    SharingNone(d.players, f);
    hide DropConnection;
    hide Sharing;
    hide Staying;
    hide Marked;
    if Sharing(g.players, f) <= 1 {
      forall i | 0 <= i < |d.players| ensures d.players[i].fingerprint in d.mq.queues {
        var h := d.players[i].fingerprint;
        SharingNone(d.players, h);
        assert HasFingerprint(d.players, h);
        SharingAfter(g.players, f, h);
        QueuedBySharing(g, h);
        ErasedQueues(g, f, h);
      }
    }
  }

  lemma DropMarking(g: GameState, f: Fingerprint)
    requires PlayersQueued(g) && (f in g.watchers || g.started)
    ensures PlayersQueued(DropConnection(g, f)) <==> !HasFingerprint(g.players, f)
  {
    MarkedOnlyItself(g.players, f);
    hide Marked;
    hide RemoveFirst;
    var d := DropConnection(g, f);
    assert d.mq.queues.Keys == g.mq.queues.Keys - {f};
    assert |d.players| == |g.players|;
    assert forall i | 0 <= i < |g.players| :: d.players[i].fingerprint == g.players[i].fingerprint;
  }

  /**
   * Not every player has a queue. Losing a connection takes the queue of every player with that address, but at
   * most one of them off the list, and none while a game is on or if the address belongs to a watcher.
   */
  lemma DropLeavesPlayersQueued(g: GameState, f: Fingerprint)
    requires PlayersQueued(g) && (g.started || NoneDisconnected(g.players))
    ensures PlayersQueued(DropConnection(g, f))
       <==> Sharing(g.players, f) <= (if f in g.watchers || g.started then 0 else 1)
  {
    hide *;
    SharingNone(g.players, f);
    if f in g.watchers || g.started {
      DropMarking(g, f);
    } else {
      DropErasing(g, f);
    }
  }

  // ---- Erasing, and the end of a game ----

  /** Nobody who stays shares an address with somebody who leaves. */
  ghost predicate Separate(players: seq<Player>) {
    forall i, j | 0 <= i < |players| && 0 <= j < |players| && players[i].isDisconnected && !players[j].isDisconnected ::
      players[i].fingerprint != players[j].fingerprint
  }

  predicate HasConnection(players: seq<Player>, f: Fingerprint, disconnected: bool) {
    exists i | 0 <= i < |players| :: players[i].fingerprint == f && players[i].isDisconnected == disconnected
  }

  lemma ConnectionOfCons(p: Player, players: seq<Player>, f: Fingerprint, d: bool)
    ensures HasConnection([p] + players, f, d) <==>
            (p.fingerprint == f && p.isDisconnected == d) || HasConnection(players, f, d)
    ensures HasFingerprint([p] + players, f) <==> p.fingerprint == f || HasFingerprint(players, f)
  {
    var all := [p] + players;
    assert all[0] == p && forall i | 0 <= i < |players| :: all[i + 1] == players[i];
    assert forall i | 0 < i < |all| :: all[i] == players[i - 1];
  }

  lemma {:induction false} WhoLeaves(players: seq<Player>, f: Fingerprint)
    ensures f in Leaving(players) <==> HasConnection(players, f, true)
    ensures HasFingerprint(Staying(players), f) <==> HasConnection(players, f, false)
  {
    if players != [] {
      var p, rest := players[0], players[1..];
      WhoLeaves(rest, f);
      assert players == [p] + rest;
      hide HasConnection;
      hide HasFingerprint;
      ConnectionOfCons(p, rest, f, true);
      ConnectionOfCons(p, rest, f, false);
      if p.isDisconnected {
        assert Staying(players) == Staying(rest);
        assert Leaving(players) == [p.fingerprint] + Leaving(rest);
      } else {
        assert Leaving(players) == Leaving(rest);
        ConnectionOfCons(p.(isReady := false), Staying(rest), f, false);
      }
    }
  }

  lemma {:induction false} WhoKeepsQueue(q: MQ, fs: seq<Fingerprint>, f: Fingerprint)
    ensures f in DropAll(q, fs).queues <==> f in q.queues && f !in fs
    decreases |fs|
  {
    if fs != [] {
      WhoKeepsQueue(Drop(q, fs[0]), fs[1..], f);
    }
  }

  lemma ErasedQueue(g: GameState, f: Fingerprint)
    ensures f in EraseDisconnected(g).mq.queues <==> f in g.mq.queues && !HasConnection(g.players, f, true)
    ensures HasFingerprint(EraseDisconnected(g).players, f) <==> HasConnection(g.players, f, false)
  {
    WhoLeaves(g.players, f);
    WhoKeepsQueue(g.mq, Leaving(g.players), f);
    hide HasConnection;
    hide HasFingerprint;
    hide DropAll;
    hide Leaving;
    hide Staying;
  }

  lemma QueuedMeans(g: GameState)
    ensures PlayersQueued(g) <==> forall f :: HasFingerprint(g.players, f) ==> f in g.mq.queues
  {
    if forall f :: HasFingerprint(g.players, f) ==> f in g.mq.queues {
      forall i | 0 <= i < |g.players| ensures g.players[i].fingerprint in g.mq.queues {
        assert HasFingerprint(g.players, g.players[i].fingerprint);
      }
    }
  }

  lemma SeparateMeans(players: seq<Player>)
    ensures Separate(players) <==> forall f :: !(HasConnection(players, f, true) && HasConnection(players, f, false))
  {
    if !Separate(players) {
      var i, j :| 0 <= i < |players| && 0 <= j < |players| && players[i].isDisconnected && !players[j].isDisconnected
               && players[i].fingerprint == players[j].fingerprint;
      assert HasConnection(players, players[i].fingerprint, true)
             && HasConnection(players, players[i].fingerprint, false);
    }
  }

  lemma SomeConnection(players: seq<Player>, f: Fingerprint)
    ensures HasFingerprint(players, f) <==> HasConnection(players, f, true) || HasConnection(players, f, false)
  {
  }

  /** Erasing takes a queue that is still needed exactly when somebody who stays shares an address with a leaver. */
  lemma EraseLeavesPlayersQueued(g: GameState)
    requires PlayersQueued(g)
    ensures PlayersQueued(EraseDisconnected(g)) <==> Separate(g.players)
  {
    hide *;
    QueuedMeans(g);
    QueuedMeans(EraseDisconnected(g));
    SeparateMeans(g.players);
    forall f
      ensures f in EraseDisconnected(g).mq.queues <==> f in g.mq.queues && !HasConnection(g.players, f, true)
      ensures HasFingerprint(EraseDisconnected(g).players, f) <==> HasConnection(g.players, f, false)
      ensures HasFingerprint(g.players, f) <==> HasConnection(g.players, f, true) || HasConnection(g.players, f, false)
    {
      ErasedQueue(g, f);
      SomeConnection(g.players, f);
    }
  }

  // ---- Turns ----

  /** The same clients have the same queues for the same game on the air, and the same connections are listed. */
  ghost predicate SameClients(g: GameState, h: GameState) {
    SameAudience(g.mq, h.mq) && SameConnections(g.players, h.players)
  }

  ghost predicate SameAudience(q: MQ, r: MQ) {
    r.queues == q.queues && r.schedule == q.schedule && r.current == q.current
  }

  lemma SameClientsQueued(g: GameState, h: GameState)
    requires SameClients(g, h)
    ensures (PlayersQueued(g) <==> PlayersQueued(h)) && (Separate(g.players) <==> Separate(h.players))
  {
  }

  lemma SameClientsTwice(g: GameState, h: GameState, k: GameState)
    requires SameClients(g, h) && SameClients(h, k)
    ensures SameClients(g, k)
  {
  }

  /** Either the game goes on with the same clients, or it ended with them and the disconnected were erased. */
  ghost predicate Outcome(g: GameState, h: GameState) {
    if h.started then SameClients(g, h) else exists e: GameState :: SameClients(g, e) && h == EraseDisconnected(e)
  }

  lemma OutcomeQueued(g: GameState, h: GameState)
    requires Outcome(g, h) && PlayersQueued(g)
    ensures PlayersQueued(h) <==> h.started || Separate(g.players)
  {
    hide PlayersQueued;
    hide Separate;
    hide SameClients;
    hide EraseDisconnected;
    if h.started {
      SameClientsQueued(g, h);
    } else {
      var e :| SameClients(g, e) && h == EraseDisconnected(e);
      SameClientsQueued(g, e);
      EraseLeavesPlayersQueued(e);
    }
  }

  lemma OutcomeAfter(g: GameState, h: GameState, k: GameState)
    requires SameClients(g, h) && Outcome(h, k)
    ensures Outcome(g, k)
  {
    hide SameClients;
    hide EraseDisconnected;
    if k.started {
      SameClientsTwice(g, h, k);
    } else {
      var e :| SameClients(h, e) && k == EraseDisconnected(e);
      SameClientsTwice(g, h, e);
    }
  }

  lemma ScheduleKeepsAudience(q: MQ, id: nat, d: EventData)
    ensures SameAudience(q, Schedule(q, id, d))
  {
  }

  lemma SavedClients(g: GameState, d: EventData)
    ensures var h := SaveEvent(g, d);
            SameAudience(g.mq, h.mq) && h.players == g.players && h.started == g.started
  {
    ScheduleKeepsAudience(g.mq, g.gameId, d);
    hide Schedule;
  }

  lemma StruckClients(g: GameState, j: nat)
    requires j < |g.players|
    ensures SameClients(g, Struck(g, j)) && Struck(g, j).started == g.started
  {
    var p := g.players[j].(isEliminated := true);
    var s := g.(players := g.players[j := p], alive := (g.alive + 0xFF) % 0x100);
    SavedClients(s, PlayerEliminated(NumberOf(s, p.name)));
    hide SaveEvent;
  }

  lemma EndedClients(g: GameState)
    ensures !EndGame(g).started && exists e: GameState :: SameClients(g, e) && EndGame(g) == EraseDisconnected(e)
  {
    var e := SaveEvent(g, GameOver).(started := false);
    SavedClients(g, GameOver);
    hide SaveEvent;
    ErasedStarted(e);
    assert SameClients(g, e);
    hide EraseDisconnected;
  }

  lemma EliminateOutcome(g: GameState, j: nat)
    requires j < |g.players| && g.started
    ensures Outcome(g, Eliminate(g, j))
  {
    var s := Struck(g, j);
    EliminateIsStruck(g, j);
    StruckClients(g, j);
    EndedClients(s);
    hide *;
    OutcomeFrom(s, Eliminate(g, j));
    OutcomeAfter(g, s, Eliminate(g, j));
  }

  lemma SameClientsItself(g: GameState)
    ensures SameClients(g, g)
  {
  }

  lemma OutcomeFrom(g: GameState, h: GameState)
    requires g.started
    requires h == g || (!h.started && exists e: GameState :: SameClients(g, e) && h == EraseDisconnected(e))
    ensures Outcome(g, h)
  {
    SameClientsItself(g);
    hide SameClients;
    hide EraseDisconnected;
  }

  lemma EatPixelOutcome(g: GameState, j: nat, pixel: Coordinates)
    requires j < |g.players| && g.started
    ensures Outcome(g, EatPixel(g, j, pixel)) && EatPixel(g, j, pixel).started
  {
    var p := g.players[j].(pixel := pixel);
    var s := g.(players := g.players[j := p], eaten := g.eaten + {pixel});
    SavedClients(s, Pixel(NumberOf(s, p.name), pixel.0, pixel.1));
    hide SaveEvent;
  }

  lemma MovedClients(c: Config, g: GameState, j: nat)
    requires j < |g.players|
    ensures SameClients(g, g.(players := g.players[j := Moved(c, g.players[j])]))
  {
    MoveKeepsConnection(c, g.players[j]);
    hide Moved;
  }

  lemma MovePlayerOutcome(c: Config, g: GameState, j: nat)
    requires j < |g.players| && g.started
    ensures Outcome(g, MovePlayer(c, g, j))
  {
    hide *;
    var h, k := g.(players := g.players[j := Moved(c, g.players[j])]), MovePlayer(c, g, j);
    MovePlayerCases(c, g, j);
    MovedClients(c, g, j);
    OutcomeFrom(g, g);
    if k != g {
      if k == Eliminate(h, j) {
        EliminateOutcome(h, j);
      } else if k == h {
        OutcomeFrom(h, h);
      } else {
        var pixel :| k == EatPixel(h, j, pixel);
        EatPixelOutcome(h, j, pixel);
      }
      OutcomeAfter(g, h, k);
    }
  }

  lemma OutcomeStarted(g: GameState, h: GameState)
    requires Outcome(g, h) && h.started
    ensures SameClients(g, h)
  {
    hide SameClients;
    hide EraseDisconnected;
  }

  lemma {:induction false} RunTurnFromOutcome(c: Config, g: GameState, n: nat, i: nat)
    requires g.started
    ensures Outcome(g, RunTurnFrom(c, g, n, i))
    decreases n - i
  {
    hide *;
    RunTurnStep(c, g, n, i);
    if i < n && i < |g.players| {
      var h := MovePlayer(c, g, i);
      MovePlayerOutcome(c, g, i);
      if h.started {
        OutcomeStarted(g, h);
        RunTurnFromOutcome(c, h, n, i + 1);
        OutcomeAfter(g, h, RunTurnFrom(c, h, n, i + 1));
      } else {
        RunTurnStep(c, h, n, i + 1);
      }
    } else {
      OutcomeFrom(g, g);
    }
  }

  lemma RunTurnIs(c: Config, g: GameState)
    ensures RunTurn(c, g) == RunTurnFrom(c, g, |g.players|, 0) && (!g.started ==> RunTurn(c, g) == g)
  {
    RunTurnStep(c, g, |g.players|, 0);
    hide RunTurnFrom;
  }

  /** A turn that ends the game takes a queue that is still needed exactly when addresses are shared like that. */
  lemma TurnLeavesPlayersQueued(c: Config, g: GameState)
    requires PlayersQueued(g)
    ensures PlayersQueued(RunTurn(c, g)) <==> (g.started && !RunTurn(c, g).started ==> Separate(g.players))
  {
    hide *;
    RunTurnIs(c, g);
    if g.started {
      RunTurnFromOutcome(c, g, |g.players|, 0);
      OutcomeQueued(g, RunTurn(c, g));
    }
  }

  // ---- The start of a game ----

  lemma PlacePlayerOutcome(c: Config, g: GameState, j: nat)
    requires j < |g.players| && g.started
    ensures Outcome(g, PlacePlayer(c, g, j))
  {
    ArrivedClients(c, g, j);
    hide *;
    var h := Arrived(c, g, j);
    PlaceIsArrived(c, g, j);
    EliminateOutcome(h, j);
    EatPixelOutcome(h, j, h.players[j].pixel);
    OutcomeAfter(g, h, PlacePlayer(c, g, j));
  }

  lemma ArrivedClients(c: Config, g: GameState, j: nat)
    requires j < |g.players|
    ensures SameClients(g, Arrived(c, g, j)) && Arrived(c, g, j).started == g.started
  {
  }

  lemma {:induction false} PlaceFromOutcome(c: Config, g: GameState, n: nat, i: nat)
    requires g.started
    ensures Outcome(g, PlaceFrom(c, g, n, i))
    decreases n - i
  {
    hide *;
    PlaceStep(c, g, n, i);
    if i < n && i < |g.players| {
      var h := PlacePlayer(c, g, i);
      PlacePlayerOutcome(c, g, i);
      if h.started {
        OutcomeStarted(g, h);
        PlaceFromOutcome(c, h, n, i + 1);
        OutcomeAfter(g, h, PlaceFrom(c, h, n, i + 1));
      } else {
        PlaceStep(c, h, n, i + 1);
      }
    } else {
      OutcomeFrom(g, g);
    }
  }

  lemma OpenedClients(c: Config, g: GameState)
    ensures SameClients(g, OpenGame(c, g)) && OpenGame(c, g).started
  {
    ScheduleKeepsAudience(g.mq, g.rng, NewGame(c.board.maxx, c.board.maxy, PlayersField(PlayerNamesOf(g.players))));
    hide Schedule;
    hide NumberAll;
    hide PlayersField;
  }

  lemma ConnectedErased(g: GameState, e: GameState)
    requires SameClients(g, e) && NoneDisconnected(g.players)
    ensures SameAudience(g.mq, EraseDisconnected(e).mq)
  {
    NobodyLeaves(e.players);
    hide Staying;
    hide Leaving;
  }

  /** The start of a game, even of one that ends at once, changes nobody's queue. */
  lemma StartKeepsAudience(c: Config, g: GameState)
    requires NoneDisconnected(g.players)
    ensures SameAudience(g.mq, StartGame(c, g).mq)
  {
    hide *;
    var h := OpenGame(c, g);
    OpenedClients(c, g);
    StartIsPlacing(c, g);
    PlaceFromOutcome(c, h, |g.players|, 0);
    OutcomeAfter(g, h, StartGame(c, g));
    AudienceAfter(g, StartGame(c, g));
  }

  lemma AudienceAfter(g: GameState, h: GameState)
    requires Outcome(g, h) && NoneDisconnected(g.players)
    ensures SameAudience(g.mq, h.mq)
  {
    hide EraseDisconnected;
    hide NoneDisconnected;
    hide SameConnections;
    if !h.started {
      var e :| SameClients(g, e) && h == EraseDisconnected(e);
      ConnectedErased(g, e);
    }
  }

  lemma NobodyToErase(players: seq<Player>)
    requires NoneDisconnected(players)
    ensures Separate(players)
  {
  }

  /** A game starts when nobody is disconnected, so even one that ends at once takes no queue. */
  lemma MaybeStartLeavesPlayersQueued(c: Config, g: GameState)
    requires PlayersQueued(g) && (g.started || NoneDisconnected(g.players))
    ensures PlayersQueued(MaybeStart(c, g))
  {
    MaybeStartIs(c, g);
    hide *;
    if MaybeStart(c, g) != g {
      var h := OpenGame(c, g);
      OpenedClients(c, g);
      StartIsPlacing(c, g);
      PlaceFromOutcome(c, h, |g.players|, 0);
      OutcomeAfter(g, h, StartGame(c, g));
      OutcomeQueued(g, StartGame(c, g));
      NobodyToErase(g.players);
    }
  }

  lemma MaybeStartIs(c: Config, g: GameState)
    ensures MaybeStart(c, g) == g || (!g.started && MaybeStart(c, g) == StartGame(c, g))
  {
    hide StartGame;
    hide CanStart;
  }

  // ---- Older sessions ----

  predicate IsOlder(players: seq<Player>, name: Text, f: Fingerprint, sessionId: nat) {
    var k := FindPlayer(players, name);
    k < |players| && players[k].fingerprint == f && sessionId > players[k].sessionId
  }

  /** How many of the names are those of players with this address and an older session. */
  function OlderSessions(players: seq<Player>, names: seq<Text>, f: Fingerprint, sessionId: nat): nat {
    if names == [] then 0
    else (if IsOlder(players, names[0], f, sessionId) then 1 else 0) + OlderSessions(players, names[1..], f, sessionId)
  }

  lemma DropOlderNext(g: GameState, names: seq<Text>, f: Fingerprint, sessionId: nat)
    requires names != []
    ensures DropOlder(g, names, f, sessionId)
         == DropOlder(if IsOlder(g.players, names[0], f, sessionId) then DropConnection(g, f) else g,
                      names[1..], f, sessionId)
  {
    hide DropConnection;
  }

  lemma {:induction false} NobodyOlder(g: GameState, names: seq<Text>, f: Fingerprint, sessionId: nat)
    requires OlderSessions(g.players, names, f, sessionId) == 0
    ensures DropOlder(g, names, f, sessionId) == g
    decreases |names|
  {
    hide IsOlder;
    hide DropConnection;
    if names == [] {
      NothingOlder(g, f, sessionId);
    } else {
      DropOlderNext(g, names, f, sessionId);
      NobodyOlder(g, names[1..], f, sessionId);
    }
  }

  lemma {:induction false} StaysForgotten(g: GameState, names: seq<Text>, f: Fingerprint, sessionId: nat)
    requires f !in g.mq.queues
    ensures f !in DropOlder(g, names, f, sessionId).mq.queues
    decreases |names|
  {
    hide IsOlder;
    hide DropConnection;
    if names == [] {
      NothingOlder(g, f, sessionId);
    } else {
      DropOlderNext(g, names, f, sessionId);
      DropConnectionForgets(g, f);
      StaysForgotten(g, names[1..], f, sessionId);
      StaysForgotten(DropConnection(g, f), names[1..], f, sessionId);
    }
  }

  /** If there is an older session, its queue is gone. */
  lemma {:induction false} OlderIsForgotten(g: GameState, names: seq<Text>, f: Fingerprint, sessionId: nat)
    requires OlderSessions(g.players, names, f, sessionId) > 0
    ensures f !in DropOlder(g, names, f, sessionId).mq.queues && HasFingerprint(g.players, f)
    decreases |names|
  {
    hide DropConnection;
    DropOlderNext(g, names, f, sessionId);
    if IsOlder(g.players, names[0], f, sessionId) {
      DropConnectionForgets(g, f);
      StaysForgotten(DropConnection(g, f), names[1..], f, sessionId);
    } else {
      OlderIsForgotten(g, names[1..], f, sessionId);
    }
  }

  /** Nobody new, and everybody else keeps a queue. */
  ghost predicate OthersKept(g: GameState, h: GameState, f: Fingerprint) {
    && |h.players| <= |g.players|
    && (forall x | HasFingerprint(h.players, x) :: HasFingerprint(g.players, x))
    && (forall x | x in g.mq.queues && x != f :: x in h.mq.queues)
  }

  lemma OthersKeptTwice(g: GameState, h: GameState, k: GameState, f: Fingerprint)
    requires OthersKept(g, h, f) && OthersKept(h, k, f)
    ensures OthersKept(g, k, f)
  {
    hide HasFingerprint;
  }

  lemma OthersKeptItself(g: GameState, f: Fingerprint)
    ensures OthersKept(g, g, f)
  {
  }

  /** Between games nobody is marked as disconnected. */
  ghost predicate Calm(g: GameState) {
    g.started || NoneDisconnected(g.players)
  }

  lemma MarkedAddresses(players: seq<Player>, f: Fingerprint, x: Fingerprint)
    ensures |Marked(players, f)| == |players| && (HasFingerprint(Marked(players, f), x) <==> HasFingerprint(players, x))
    ensures HasConnection(Marked(players, f), x, true) && NoneDisconnected(players) ==> x == f
  {
    MarkedOnlyItself(players, f);
    hide Marked;
  }

  lemma DropConnectionOthers(g: GameState, f: Fingerprint)
    requires Calm(g)
    ensures OthersKept(g, DropConnection(g, f), f) && Calm(DropConnection(g, f))
    ensures DropConnection(g, f).started == g.started
  {
    var u, d := Unlinked(g, f), DropConnection(g, f);
    DropIsUnlinked(g, f);
    UnlinkedFields(g, f);
    UnlinkedQueues(g, f);
    ErasedPlayers(u);
    ErasedStarted(u);
    StayingConnected(u.players);
    StayingFewer(u.players);
    MarkedAddresses(g.players, f, f);
    hide *;
    forall x ensures HasFingerprint(u.players, x) <==> HasFingerprint(g.players, x)
      ensures HasConnection(u.players, x, true) && f !in g.watchers && NoneDisconnected(g.players) ==> x == f
      ensures x in EraseDisconnected(u).mq.queues <==> x in u.mq.queues && !HasConnection(u.players, x, true)
      ensures HasFingerprint(EraseDisconnected(u).players, x) ==> HasFingerprint(u.players, x)
    {
      MarkedAddresses(g.players, f, x);
      ErasedQueue(u, x);
      SomeConnection(u.players, x);
    }
    CalmMeans(g);
    CalmMeans(d);
    OthersKeptFrom(g, d, f);
  }

  lemma CalmMeans(g: GameState)
    ensures Calm(g) <==> g.started || NoneDisconnected(g.players)
  {
  }

  lemma OthersKeptFrom(g: GameState, h: GameState, f: Fingerprint)
    requires |h.players| <= |g.players|
    requires forall x | HasFingerprint(h.players, x) :: HasFingerprint(g.players, x)
    requires forall x | x in g.mq.queues && x != f :: x in h.mq.queues
    ensures OthersKept(g, h, f)
  {
    hide HasFingerprint;
  }

  lemma UnlinkedQueues(g: GameState, f: Fingerprint)
    ensures Unlinked(g, f).mq.queues == g.mq.queues - {f}
  {
    hide Marked;
    hide RemoveFirst;
  }

  lemma {:induction false} StayingFewer(players: seq<Player>)
    ensures |Staying(players)| <= |players|
  {
    if players != [] {
      StayingFewer(players[1..]);
    }
  }

  lemma {:induction false} DropOlderOthers(g: GameState, names: seq<Text>, f: Fingerprint, sessionId: nat)
    requires Calm(g)
    ensures var d := DropOlder(g, names, f, sessionId); OthersKept(g, d, f) && Calm(d) && d.started == g.started
    decreases |names|
  {
    hide *;
    if names == [] {
      NothingOlder(g, f, sessionId);
      OthersKeptItself(g, f);
    } else {
      var h := DropConnection(g, f);
      DropOlderNext(g, names, f, sessionId);
      DropConnectionOthers(g, f);
      DropOlderOthers(g, names[1..], f, sessionId);
      DropOlderOthers(h, names[1..], f, sessionId);
      OthersKeptTwice(g, h, DropOlder(h, names[1..], f, sessionId), f);
    }
  }

  // ---- How many players are left ----

  ghost predicate SameAddresses(players: seq<Player>, others: seq<Player>) {
    |players| == |others| && forall i | 0 <= i < |players| :: players[i].fingerprint == others[i].fingerprint
  }

  /** In the middle of a game nobody is erased. */
  lemma {:induction false} StartedKeepsAll(g: GameState, names: seq<Text>, f: Fingerprint, sessionId: nat)
    requires g.started
    ensures SameAddresses(g.players, DropOlder(g, names, f, sessionId).players)
    decreases |names|
  {
    if names == [] {
      NothingOlder(g, f, sessionId);
    } else {
      var h := DropConnection(g, f);
      DropOlderNext(g, names, f, sessionId);
      DropIsUnlinked(g, f);
      UnlinkedFields(g, f);
      MarkedOnlyItself(g.players, f);
      hide DropConnection;
      hide IsOlder;
      hide Marked;
      hide Unlinked;
      hide EraseDisconnected;
      hide DropOlder;
      StartedKeepsAll(g, names[1..], f, sessionId);
      StartedKeepsAll(h, names[1..], f, sessionId);
    }
  }

  lemma {:induction false} OneFewer(players: seq<Player>, f: Fingerprint)
    requires NoneDisconnected(players) && HasFingerprint(players, f)
    ensures |Staying(Marked(players, f))| < |players|
  {
    var p, rest := players[0], players[1..];
    if p.fingerprint == f {
      assert Marked(players, f)[1..] == rest;
      assert Staying(Marked(players, f)) == Staying(rest);
      StayingFewer(rest);
    } else {
      var i :| 0 <= i < |players| && players[i].fingerprint == f;
      assert rest[i - 1].fingerprint == f;
      OneFewer(rest, f);
      assert Marked(players, f)[1..] == Marked(rest, f);
    }
  }

  lemma IdleDropShrinks(g: GameState, f: Fingerprint)
    requires !g.started && NoneDisconnected(g.players) && HasFingerprint(g.players, f) && f !in g.watchers
    ensures |DropConnection(g, f).players| < |g.players|
  {
    OneFewer(g.players, f);
    DropIsUnlinked(g, f);
    UnlinkedFields(g, f);
    ErasedPlayers(Unlinked(g, f));
    hide Staying;
    hide Marked;
    hide DropConnection;
    hide EraseDisconnected;
    hide Unlinked;
  }

  lemma OlderIsListed(players: seq<Player>, name: Text, f: Fingerprint, sessionId: nat)
    requires IsOlder(players, name, f, sessionId)
    ensures HasFingerprint(players, f)
  {
  }

  /** Between games an older session of an address that is no watcher's is erased. */
  lemma {:induction false} IdleErases(g: GameState, names: seq<Text>, f: Fingerprint, sessionId: nat)
    requires !g.started && NoneDisconnected(g.players) && f !in g.watchers
    requires OlderSessions(g.players, names, f, sessionId) > 0
    ensures |DropOlder(g, names, f, sessionId).players| < |g.players|
    decreases |names|
  {
    hide DropConnection;
    hide NoneDisconnected;
    hide IsOlder;
    hide HasFingerprint;
    hide DropOlder;
    DropOlderNext(g, names, f, sessionId);
    if IsOlder(g.players, names[0], f, sessionId) {
      var h := DropConnection(g, f);
      OlderIsListed(g.players, names[0], f, sessionId);
      IdleDropShrinks(g, f);
      DropConnectionOthers(g, f);
      DropOlderOthers(h, names[1..], f, sessionId);
    } else {
      IdleErases(g, names[1..], f, sessionId);
    }
  }

  lemma WatcherDropped(g: GameState, f: Fingerprint)
    requires f in g.watchers
    ensures var h := DropConnection(g, f); h.players == g.players && f !in h.watchers && h.started == g.started
  {
    hide Drop;
  }

  /** If the address is also a watcher's, the first older session only costs the watcher. */
  lemma {:induction false} WatcherGoesFirst(g: GameState, names: seq<Text>, f: Fingerprint, sessionId: nat)
    requires !g.started && NoneDisconnected(g.players) && f in g.watchers
    ensures var d, n := DropOlder(g, names, f, sessionId), OlderSessions(g.players, names, f, sessionId);
            if n <= 1 then d.players == g.players else |d.players| < |g.players|
    decreases |names|
  {
    hide DropConnection;
    hide NoneDisconnected;
    hide IsOlder;
    hide DropOlder;
    if names == [] {
      NothingOlder(g, f, sessionId);
    } else {
      DropOlderNext(g, names, f, sessionId);
      if IsOlder(g.players, names[0], f, sessionId) {
        var h := DropConnection(g, f);
        WatcherDropped(g, f);
        if OlderSessions(g.players, names[1..], f, sessionId) == 0 {
          NobodyOlder(h, names[1..], f, sessionId);
        } else {
          IdleErases(h, names[1..], f, sessionId);
        }
      } else {
        WatcherGoesFirst(g, names[1..], f, sessionId);
      }
    }
  }

  // ---- Messages ----

  function Older(g: GameState, f: Fingerprint, sessionId: nat): nat {
    OlderSessions(g.players, PlayerNamesOf(g.players), f, sessionId)
  }

  /**
   * A new name finds the game full, after costing an older session of its address the queue but not the place:
   * in the middle of a game, or because the address was also a watcher's.
   */
  predicate Crowded(g: GameState, f: Fingerprint, m: ClientMessage) {
    && m.playerName != [] && FindPlayer(g.players, m.playerName) == |g.players| && |g.players| == MAX_PLAYERS
    && Older(g, f, m.sessionId) > 0 && (g.started || (f in g.watchers && Older(g, f, m.sessionId) == 1))
  }

  /** Whether the list is still full, and the address still listed, once older sessions are dropped. */
  lemma StillFull(g: GameState, f: Fingerprint, sessionId: nat)
    requires Calm(g) && Older(g, f, sessionId) > 0
    ensures var d := DropOlder(g, PlayerNamesOf(g.players), f, sessionId);
            var kept := g.started || (f in g.watchers && Older(g, f, sessionId) == 1);
            && |d.players| == (if kept then |g.players| else |d.players|) && (!kept ==> |d.players| < |g.players|)
            && (kept ==> HasFingerprint(d.players, f))
  {
    var names := PlayerNamesOf(g.players);
    OlderIsForgotten(g, names, f, sessionId);
    hide OlderSessions;
    hide DropOlder;
    hide PlayerNamesOf;
    if g.started {
      StartedKeepsAll(g, names, f, sessionId);
    } else if f in g.watchers {
      WatcherGoesFirst(g, names, f, sessionId);
    } else {
      IdleErases(g, names, f, sessionId);
    }
  }

  lemma DroppedQueued(g: GameState, d: GameState, f: Fingerprint)
    requires PlayersQueued(g) && OthersKept(g, d, f) && f !in d.mq.queues
    ensures PlayersQueued(d) <==> !HasFingerprint(d.players, f)
  {
    QueuedMeans(g);
    QueuedMeans(d);
    hide PlayersQueued;
    hide HasFingerprint;
  }

  lemma JoinedQueued(g: GameState, d: GameState, f: Fingerprint, m: ClientMessage, ready: bool)
    requires PlayersQueued(g) && OthersKept(g, d, f)
    ensures PlayersQueued(Joining(d, f, m, ready))
  {
    var j := Joining(d, f, m, ready);
    var k := InsertPlaces(d.players, NewPlayer(f, m, ready));
    AckKeepsQueues(d.mq, f, m.nextExpectedEventNo);
    QueuedMeans(g);
    hide InsertPlayer;
    hide Add;
    forall i | 0 <= i < |j.players| ensures j.players[i].fingerprint in j.mq.queues {
      var x := j.players[i].fingerprint;
      if x != f {
        assert d.players[if i < k then i else i - 1].fingerprint == x;
        assert HasFingerprint(d.players, x);
      }
    }
  }

  lemma JoinedCalm(d: GameState, f: Fingerprint, m: ClientMessage, ready: bool)
    requires Calm(d)
    ensures Calm(Joining(d, f, m, ready))
  {
    var p := NewPlayer(f, m, ready);
    var k := InsertPlaces(d.players, p);
    if !d.started {
      InsertedConnected(d.players, InsertPlayer(d.players, p), p, k);
    }
    hide InsertPlayer;
    hide Add;
    hide NoneDisconnected;
  }

  lemma NewcomerQueued(c: Config, g: GameState, f: Fingerprint, m: ClientMessage)
    requires PlayersQueued(g) && Calm(g) && |g.players| <= MAX_PLAYERS
    requires m.playerName != [] && FindPlayer(g.players, m.playerName) == |g.players|
    ensures PlayersQueued(HandlePlayer(c, g, f, m)) <==> !Crowded(g, f, m)
  {
    var names, n := PlayerNamesOf(g.players), Older(g, f, m.sessionId);
    var d, ready := DropOlder(g, names, f, m.sessionId), !g.started && m.turnDirection != Straight;
    HandlePlayerIs(c, g, f, m);
    CrowdedMeans(g, f, m);
    OlderIs(g, f, m.sessionId);
    if n > 0 {
      StillFull(g, f, m.sessionId);
    }
    hide *;
    DropOlderOthers(g, names, f, m.sessionId);
    OthersFewer(g, d, f);
    if n > 0 {
      OlderIsForgotten(g, names, f, m.sessionId);
      DroppedQueued(g, d, f);
    } else {
      NobodyOlder(g, names, f, m.sessionId);
    }
    JoinedQueued(g, d, f, m, ready);
    JoinedCalm(d, f, m, ready);
    CalmMeans(Joining(d, f, m, ready));
    MaybeStartLeavesPlayersQueued(c, Joining(d, f, m, ready));
  }

  lemma OthersFewer(g: GameState, h: GameState, f: Fingerprint)
    requires OthersKept(g, h, f)
    ensures |h.players| <= |g.players|
  {
  }

  lemma OlderIs(g: GameState, f: Fingerprint, sessionId: nat)
    ensures Older(g, f, sessionId) == OlderSessions(g.players, PlayerNamesOf(g.players), f, sessionId)
  {
  }

  lemma CrowdedMeans(g: GameState, f: Fingerprint, m: ClientMessage)
    ensures Crowded(g, f, m) <==>
            && m.playerName != [] && FindPlayer(g.players, m.playerName) == |g.players| && |g.players| == MAX_PLAYERS
            && Older(g, f, m.sessionId) > 0 && (g.started || (f in g.watchers && Older(g, f, m.sessionId) == 1))
  {
    hide Older;
  }

  lemma SteeredQueued(c: Config, g: GameState, k: nat, f: Fingerprint, m: ClientMessage)
    requires PlayersQueued(g) && Calm(g) && k < |g.players|
    ensures PlayersQueued(MaybeStart(c, Steered(g, k, f, m)))
  {
    var h := Steered(g, k, f, m);
    AckKeepsQueues(g.mq, f, m.nextExpectedEventNo);
    SteeredFields(g, k, f, m);
    if !g.started {
      UpdatedConnected(g.players, k, h.players[k]);
    }
    hide Ack;
    hide Add;
    hide MaybeStart;
    hide NoneDisconnected;
    MaybeStartLeavesPlayersQueued(c, h);
  }

  lemma WatcherQueued(g: GameState, f: Fingerprint, m: ClientMessage)
    requires PlayersQueued(g)
    ensures PlayersQueued(HandleWatcher(g, f, m))
  {
    hide RemoveFirst;
  }

  /** A message leaves every player a queue exactly unless it finds the game crowded. */
  lemma MessageLeavesPlayersQueued(c: Config, g: GameState, f: Fingerprint, m: ClientMessage)
    requires PlayersQueued(g) && Calm(g) && |g.players| <= MAX_PLAYERS
    ensures PlayersQueued(HandleMessage(c, g, f, m)) <==> !Crowded(g, f, m)
  {
    CrowdedMeans(g, f, m);
    HandlePlayerIs(c, g, f, m);
    hide PlayersQueued;
    hide Crowded;
    hide Calm;
    hide HandlePlayer;
    hide HandleWatcher;
    hide MaybeStart;
    hide Steered;
    hide DropOlder;
    hide Joining;
    hide FindPlayer;
    var k := FindPlayer(g.players, m.playerName);
    if m.playerName == [] {
      WatcherQueued(g, f, m);
    } else if k == |g.players| {
      NewcomerQueued(c, g, f, m);
    } else if g.players[k].fingerprint == f {
      SteeredQueued(c, g, k, f, m);
    }
  }
}
