/** Where everybody stands in the log: what a datagram does to the cursors, and what is sent from there on. */
module Cursors {
  import opened Bytes
  import opened Messages
  import opened Packing
  import opened MessageQueue
  import opened Logs
  import opened Game
  import opened GameInvariant
  import opened GameMessages
  import opened GameQueue
  import opened PlayerQueues
  import opened Drain
  import opened Serving
  import opened Server

  ghost predicate SameCursor(q: MQ, r: MQ, x: Fingerprint) {
    (x in r.queues <==> x in q.queues) && (x in r.queues ==> r.queues[x] == q.queues[x])
  }

  /** The same log on the air, the same games waiting. */
  ghost predicate SameLogs(q: MQ, r: MQ) {
    r.current == q.current && r.log == q.log && r.nextGames == q.nextGames
  }

  lemma {:induction false} DroppedCursors(q: MQ, fs: seq<Fingerprint>, x: Fingerprint)
    ensures SameLogs(q, DropAll(q, fs)) && (x !in fs ==> SameCursor(q, DropAll(q, fs), x))
    decreases |fs|
  {
    hide RemoveFirst;
    if fs != [] {
      DroppedCursors(Drop(q, fs[0]), fs[1..], x);
    }
  }

  lemma DropCursors(g: GameState, f: Fingerprint, x: Fingerprint)
    requires g.started || NoneDisconnected(g.players)
    ensures var h := DropConnection(g, f);
            SameLogs(g.mq, h.mq) && f !in h.mq.queues && (x != f ==> SameCursor(g.mq, h.mq, x))
  {
    var u := Unlinked(g, f);
    DropIsUnlinked(g, f);
    DropConnectionForgets(g, f);
    DroppedCursors(u.mq, Leaving(u.players), x);
    if !g.started {
      OnlyMarkedLeave(g.players, f);
    }
    hide DropConnection;
    hide DropAll;
    hide Leaving;
    hide Marked;
    hide Staying;
    hide RemoveFirst;
    hide NoneDisconnected;
  }

  lemma DropCalm(g: GameState, f: Fingerprint)
    requires g.started || NoneDisconnected(g.players)
    ensures DropConnection(g, f).started == g.started
    ensures g.started || NoneDisconnected(DropConnection(g, f).players)
  {
    DropIsUnlinked(g, f);
    StayingConnected(Unlinked(g, f).players);
    hide DropConnection;
    hide Marked;
    hide Staying;
    hide Drop;
    hide DropAll;
    hide Leaving;
    hide NoneDisconnected;
  }

  lemma {:induction false} DropOlderCursors(g: GameState, names: seq<Text>, f: Fingerprint, sessionId: nat,
                                            x: Fingerprint)
    requires g.started || NoneDisconnected(g.players)
    ensures var h := DropOlder(g, names, f, sessionId);
            && SameLogs(g.mq, h.mq) && (x != f ==> SameCursor(g.mq, h.mq, x))
            && (f in h.mq.queues ==> f in g.mq.queues) && h.started == g.started
            && (g.started || NoneDisconnected(h.players))
    decreases |names|
  {
    hide *;
    if names == [] {
      NothingOlder(g, f, sessionId);
      CursorItself(g.mq, x);
    } else {
      var d := DropConnection(g, f);
      DropOlderStep(g, names, f, sessionId);
      DropCursors(g, f, x);
      DropCalm(g, f);
      DropOlderCursors(g, names[1..], f, sessionId, x);
      DropOlderCursors(d, names[1..], f, sessionId, x);
      CursorTwice(g.mq, d.mq, DropOlder(d, names[1..], f, sessionId).mq, x);
    }
  }

  lemma CursorItself(q: MQ, x: Fingerprint)
    ensures SameCursor(q, q, x) && SameLogs(q, q)
  {
  }

  lemma CursorTwice(q: MQ, r: MQ, s: MQ, x: Fingerprint)
    ensures SameCursor(q, r, x) && SameCursor(r, s, x) ==> SameCursor(q, s, x)
    ensures SameLogs(q, r) && SameLogs(r, s) ==> SameLogs(q, s)
  {
  }

  lemma StartCursors(c: Config, g: GameState, x: Fingerprint)
    requires g.started || NoneDisconnected(g.players)
    ensures SameCursor(g.mq, MaybeStart(c, g).mq, x)
  {
    MaybeStartIs(c, g);
    CursorItself(g.mq, x);
    hide MaybeStart;
    hide StartGame;
    hide NoneDisconnected;
    if MaybeStart(c, g) != g {
      StartKeepsAudience(c, g);
    }
  }

  lemma AddCursors(q: MQ, f: Fingerprint, n: nat, x: Fingerprint)
    ensures var r := Add(q, f, n);
            && (x != f ==> SameCursor(q, r, x)) && f in r.queues
            && r.queues[f] == if f in q.queues then q.queues[f] else Min(|q.log|, n)
  {
  }

  lemma AckCursors(q: MQ, f: Fingerprint, n: nat, x: Fingerprint)
    ensures var r := Ack(q, f, n);
            && (x != f ==> SameCursor(q, r, x)) && (f in r.queues <==> f in q.queues)
            && (f in q.queues ==> r.queues[f] == if q.nextGames == [] then Min(|q.log|, n) else q.queues[f])
  {
  }

  // ---- One datagram ----

  /** The sender is known to the server in the session it names. */
  predicate Known(g: GameState, f: Fingerprint, m: ClientMessage) {
    if m.playerName == [] then f in g.watchers && g.watchers[f] == m.sessionId
    else
      var k := FindPlayer(g.players, m.playerName);
      k < |g.players| && g.players[k].fingerprint == f
  }

  /** A watcher comes back in a newer session. */
  predicate Renewed(g: GameState, f: Fingerprint, m: ClientMessage) {
    m.playerName == [] && f in g.watchers && g.watchers[f] < m.sessionId
  }

  /** A watcher not listed as a player, or a player with a new name while there is room. */
  predicate Newcomer(g: GameState, f: Fingerprint, m: ClientMessage) {
    if m.playerName == [] then f !in g.watchers && !HasFingerprint(g.players, f)
    else FindPlayer(g.players, m.playerName) == |g.players| && |g.players| < MAX_PLAYERS
  }

  /** A player comes with a new name, and is listed under another one in an older session. */
  predicate Superseded(g: GameState, f: Fingerprint, m: ClientMessage) {
    m.playerName != [] && FindPlayer(g.players, m.playerName) == |g.players| && Older(g, f, m.sessionId) > 0
  }

  /** What a datagram of client f with number n does to the cursors. */
  ghost predicate CursorsAfter(g: GameState, q: MQ, f: Fingerprint, m: ClientMessage) {
    var p, n := g.mq, Min(|g.mq.log|, m.nextExpectedEventNo);
    && (forall x | x != f :: SameCursor(p, q, x))
    && (f !in p.queues && f in q.queues ==> q.queues[f] == n)
    && (f !in p.queues && Newcomer(g, f, m) ==> f in q.queues)
    && (f in p.queues && Known(g, f, m) ==>
          f in q.queues && q.queues[f] == if p.nextGames == [] then n else p.queues[f])
    && (Renewed(g, f, m) ==> f in q.queues && q.queues[f] == n)
    && (Superseded(g, f, m) ==> (f in q.queues ==> q.queues[f] == n) && (Newcomer(g, f, m) ==> f in q.queues))
    && (!Superseded(g, f, m) && !Known(g, f, m) && !Renewed(g, f, m) ==>
          if f in p.queues then SameCursor(p, q, f) else f in q.queues <==> Newcomer(g, f, m))
  }

  /** What losing the older sessions does to them. */
  ghost predicate CursorsBetween(g: GameState, d: GameState, f: Fingerprint, m: ClientMessage) {
    && SameLogs(g.mq, d.mq) && (forall x | x != f :: SameCursor(g.mq, d.mq, x))
    && if Superseded(g, f, m) then f !in d.mq.queues else d == g
  }

  lemma WatcherQueue(g: GameState, f: Fingerprint, m: ClientMessage)
    ensures HandleWatcher(g, f, m).mq
         == if f !in g.watchers then if HasFingerprint(g.players, f) then g.mq else Add(g.mq, f, m.nextExpectedEventNo)
            else if g.watchers[f] == m.sessionId then Ack(g.mq, f, m.nextExpectedEventNo)
            else if g.watchers[f] < m.sessionId then Add(Drop(g.mq, f), f, m.nextExpectedEventNo)
            else g.mq
  {
    hide Add;
    hide Ack;
    hide Drop;
    hide HasFingerprint;
  }

  lemma QueueDropped(q: MQ, f: Fingerprint, x: Fingerprint)
    ensures SameLogs(q, Drop(q, f)) && f !in Drop(q, f).queues && (x != f ==> SameCursor(q, Drop(q, f), x))
  {
    hide RemoveFirst;
  }

  lemma WatcherCursors(g: GameState, f: Fingerprint, m: ClientMessage)
    requires m.playerName == []
    ensures CursorsAfter(g, HandleWatcher(g, f, m).mq, f, m)
  {
    var p, r, n := g.mq, HandleWatcher(g, f, m).mq, m.nextExpectedEventNo;
    WatcherQueue(g, f, m);
    hide HandleWatcher;
    QueueDropped(p, f, f);
    forall x ensures x != f ==> SameCursor(p, r, x) {
      AckCursors(p, f, n, x);
      AddCursors(p, f, n, x);
      QueueDropped(p, f, x);
      AddCursors(Drop(p, f), f, n, x);
    }
    AckCursors(p, f, n, f);
    AddCursors(p, f, n, f);
    AddCursors(Drop(p, f), f, n, f);
    hide Ack;
    hide Add;
    hide Drop;
    hide HasFingerprint;
  }

  lemma StartKeepsCursors(c: Config, g: GameState, h: GameState, f: Fingerprint, m: ClientMessage)
    requires CursorsAfter(g, h.mq, f, m) && (h.started || NoneDisconnected(h.players))
    ensures CursorsAfter(g, MaybeStart(c, h).mq, f, m)
  {
    var r := MaybeStart(c, h).mq;
    StartCursors(c, h, f);
    forall x | x != f ensures SameCursor(g.mq, r, x) {
      StartCursors(c, h, x);
      CursorTwice(g.mq, h.mq, r, x);
    }
    CursorsFrom(g, h.mq, r, f, m);
    hide *;
  }

  lemma CursorsFrom(g: GameState, q: MQ, r: MQ, f: Fingerprint, m: ClientMessage)
    requires CursorsAfter(g, q, f, m) && SameCursor(q, r, f)
    requires forall x | x != f :: SameCursor(g.mq, r, x)
    ensures CursorsAfter(g, r, f, m)
  {
    hide Newcomer;
    hide Known;
    hide Renewed;
    hide Superseded;
  }

  lemma SteeredCursors(g: GameState, k: nat, f: Fingerprint, m: ClientMessage)
    requires k < |g.players| && k == FindPlayer(g.players, m.playerName) && g.players[k].fingerprint == f
    requires m.playerName != []
    ensures CursorsAfter(g, Steered(g, k, f, m).mq, f, m)
  {
    forall x ensures x != f ==> SameCursor(g.mq, Steered(g, k, f, m).mq, x) {
      AckCursors(g.mq, f, m.nextExpectedEventNo, x);
    }
    AckCursors(g.mq, f, m.nextExpectedEventNo, f);
    hide Ack;
    hide FindPlayer;
  }

  lemma JoinedCursors(g: GameState, d: GameState, f: Fingerprint, m: ClientMessage, ready: bool)
    requires m.playerName != [] && FindPlayer(g.players, m.playerName) == |g.players|
    requires CursorsBetween(g, d, f, m) && |d.players| < MAX_PLAYERS
    ensures CursorsAfter(g, Joining(d, f, m, ready).mq, f, m)
  {
    var r := Joining(d, f, m, ready).mq;
    forall x | x != f ensures SameCursor(g.mq, r, x) {
      AddCursors(d.mq, f, m.nextExpectedEventNo, x);
      CursorTwice(g.mq, d.mq, r, x);
    }
    AddCursors(d.mq, f, m.nextExpectedEventNo, f);
    hide Add;
    hide Superseded;
    hide InsertPlayer;
    hide FindPlayer;
  }

  lemma CrowdedCursors(g: GameState, d: GameState, f: Fingerprint, m: ClientMessage)
    requires m.playerName != [] && FindPlayer(g.players, m.playerName) == |g.players|
    requires CursorsBetween(g, d, f, m) && |g.players| >= MAX_PLAYERS
    ensures CursorsAfter(g, d.mq, f, m)
  {
    hide FindPlayer;
    hide Superseded;
  }

  lemma OlderCursors(g: GameState, f: Fingerprint, m: ClientMessage)
    requires (g.started || NoneDisconnected(g.players)) && PlayersOk(g.players)
    requires m.playerName != [] && FindPlayer(g.players, m.playerName) == |g.players|
    ensures CursorsBetween(g, DropOlder(g, PlayerNamesOf(g.players), f, m.sessionId), f, m)
  {
    var names := PlayerNamesOf(g.players);
    var d := DropOlder(g, names, f, m.sessionId);
    DropOlderCursors(g, names, f, m.sessionId, f);
    forall x | x != f ensures SameCursor(g.mq, d.mq, x) {
      DropOlderCursors(g, names, f, m.sessionId, x);
    }
    if Superseded(g, f, m) {
      OlderIsForgotten(g, names, f, m.sessionId);
    } else {
      NobodyOlder(g, names, f, m.sessionId);
    }
    hide DropOlder;
    hide OlderSessions;
    hide FindPlayer;
    hide PlayersOk;
    hide NoneDisconnected;
    hide SameCursor;
    hide SameLogs;
  }

  lemma OtherCursors(g: GameState, f: Fingerprint, m: ClientMessage)
    requires var k := FindPlayer(g.players, m.playerName); k < |g.players| && g.players[k].fingerprint != f
    requires m.playerName != []
    ensures CursorsAfter(g, g.mq, f, m)
  {
    hide FindPlayer;
  }

  lemma SteeredCalm(g: GameState, k: nat, f: Fingerprint, m: ClientMessage)
    requires (g.started || NoneDisconnected(g.players)) && k < |g.players|
    ensures var h := Steered(g, k, f, m); h.started || NoneDisconnected(h.players)
  {
    SteeredFields(g, k, f, m);
    if !g.started {
      ConnectedAt(g.players, k);
      UpdatedConnected(g.players, k, Steered(g, k, f, m).players[k]);
    }
    hide Ack;
    hide NoneDisconnected;
  }

  lemma JoiningCalm(d: GameState, f: Fingerprint, m: ClientMessage, ready: bool)
    requires d.started || NoneDisconnected(d.players)
    ensures var h := Joining(d, f, m, ready); h.started || NoneDisconnected(h.players)
  {
    CalmMeans(d);
    JoinedCalm(d, f, m, ready);
    CalmMeans(Joining(d, f, m, ready));
    hide NoneDisconnected;
    hide Calm;
    hide InsertPlayer;
    hide Add;
  }

  lemma PlayerCursors(c: Config, g: GameState, f: Fingerprint, m: ClientMessage)
    requires (g.started || NoneDisconnected(g.players)) && PlayersOk(g.players) && m.playerName != []
    ensures CursorsAfter(g, HandlePlayer(c, g, f, m).mq, f, m)
  {
    hide *;
    HandlePlayerIs(c, g, f, m);
    var k, ready := FindPlayer(g.players, m.playerName), !g.started && m.turnDirection != Straight;
    if k < |g.players| {
      if g.players[k].fingerprint != f {
        OtherCursors(g, f, m);
      } else {
        SteeredCursors(g, k, f, m);
        SteeredCalm(g, k, f, m);
        StartKeepsCursors(c, g, Steered(g, k, f, m), f, m);
      }
    } else {
      var names := PlayerNamesOf(g.players);
      var d := DropOlder(g, names, f, m.sessionId);
      OlderCursors(g, f, m);
      DropOlderCursors(g, names, f, m.sessionId, f);
      CalmMeans(g);
      DropOlderOthers(g, names, f, m.sessionId);
      RoomAfter(g, d, f);
      if |d.players| == MAX_PLAYERS {
        CrowdedCursors(g, d, f, m);
      } else {
        JoinedCursors(g, d, f, m, ready);
        JoiningCalm(d, f, m, ready);
        StartKeepsCursors(c, g, Joining(d, f, m, ready), f, m);
      }
    }
  }

  lemma RoomAfter(g: GameState, d: GameState, f: Fingerprint)
    requires PlayersOk(g.players) && OthersKept(g, d, f)
    ensures |d.players| <= |g.players| <= MAX_PLAYERS
  {
  }

  /** A datagram moves nobody's cursor but its sender's; where that goes depends only on its number and the log. */
  lemma MessageCursors(c: Config, g: GameState, f: Fingerprint, m: ClientMessage)
    requires (g.started || NoneDisconnected(g.players)) && PlayersOk(g.players)
    ensures CursorsAfter(g, HandleMessage(c, g, f, m).mq, f, m)
  {
    hide HandlePlayer;
    hide HandleWatcher;
    hide CursorsAfter;
    hide NoneDisconnected;
    hide PlayersOk;
    if m.playerName == [] {
      WatcherCursors(g, f, m);
    } else {
      PlayerCursors(c, g, f, m);
    }
  }

  /** The same of whatever a running server receives; what does not decode changes nothing in the game or the queue. */
  lemma ReceiveCursors(c: Config, s: ServerState, f: Fingerprint, bytes: seq<byte>, now: nat)
    requires ServerOk(c, s)
    ensures match DecodeClientMessage(bytes)
            case None => Receive(c, s, f, bytes, now).game == s.game
            case Some(m) => CursorsAfter(s.game, Receive(c, s, f, bytes, now).game.mq, f, m)
  {
    hide *;
    var g := s.game;
    ServerOkGives(c, s);
    GameOkCases(c, g);
    IdleMeans(c, g);
    PlayersOkOf(c, g);
    ReceiveIs(c, s, f, bytes, now);
    if DecodeClientMessage(bytes).Some? {
      MessageCursors(c, g, f, DecodeClientMessage(bytes).value);
    }
  }

  lemma ReceiveIs(c: Config, s: ServerState, f: Fingerprint, bytes: seq<byte>, now: nat)
    ensures Receive(c, s, f, bytes, now).game
         == match DecodeClientMessage(bytes) case None => s.game case Some(m) => HandleMessage(c, s.game, f, m)
  {
    hide HandleMessage;
    hide DecodeClientMessage;
  }

  // ---- What is sent from there ----

  /** The events sent to client f by the first m sends. */
  ghost function SentTo(q: MQ, f: Fingerprint, m: nat): seq<Event>
    decreases m
  {
    if m == 0 || !CanSend(q) then []
    else (if NextMessage(q).fingerprint == f then NextMessage(q).msg.events else []) + SentTo(Send(q), f, m - 1)
  }

  lemma SentFirst(q: MQ, f: Fingerprint, m: nat)
    ensures m == 0 || !CanSend(q) ==> SentTo(q, f, m) == []
    ensures m > 0 && CanSend(q) ==>
              SentTo(q, f, m)
              == (if NextMessage(q).fingerprint == f then NextMessage(q).msg.events else []) + SentTo(Send(q), f, m - 1)
  {
    hide CanSend;
    hide NextMessage;
    hide Send;
  }

  lemma CursorsFit(q: MQ, f: Fingerprint)
    requires Draining(q) && f in q.queues
    ensures q.queues[f] <= |q.log| && (q.queues[f] < |q.log| ==> Pending(q, f) && q.current.Some?)
  {
    hide AllFit;
  }

  lemma NobodyElse(q: MQ, f: Fingerprint)
    requires Draining(q) && CanSend(q) && f in q.queues && !Pending(q, f)
    ensures NextMessage(q).fingerprint != f && f in Send(q).queues && Send(q).queues[f] == q.queues[f]
  {
    hide *;
    var k := FirstPending(q, q.schedule);
    NothingToSwitchTo(q);
    SomeonePending(q);
    NextIs(q, k);
    ServedIs(q, k);
    ChunkGoesTo(q, q.schedule[k]);
    SendIs(q);
    AckedOthers(Served(q), NextMessage(q).fingerprint, NextMessage(q).ackNumber, f);
  }

  lemma ToPending(q: MQ)
    requires Draining(q) && CanSend(q)
    ensures var f := NextMessage(q).fingerprint; Pending(q, f) && q.current.Some?
  {
    hide *;
    var k := FirstPending(q, q.schedule);
    NothingToSwitchTo(q);
    SomeonePending(q);
    NextIs(q, k);
    ChunkGoesTo(q, q.schedule[k]);
  }

  lemma ServedCursors(q: MQ)
    requires Draining(q)
    ensures Served(q).queues == q.queues && Served(q).log == q.log
  {
    NothingToSwitchTo(q);
    hide FirstPending;
    hide Advance;
  }

  lemma ChunkSize(q: MQ, f: Fingerprint)
    requires Pending(q, f) && q.current.Some?
    ensures ChunkFor(q, f).ackNumber == q.queues[f] + |ChunkFor(q, f).msg.events|
  {
    hide Fitting;
  }

  lemma SentIs(s: ServerState, taken: bool)
    requires CanSend(s.game.mq)
    ensures Sent(s, taken).game.mq == if taken then Send(s.game.mq) else Served(s.game.mq)
  {
    hide CanSend;
    hide Send;
    hide Served;
  }

  /** A datagram that is sent moves its client on by its events; one that the system did not take moves nobody. */
  lemma SendingMoves(s: ServerState, taken: bool, f: Fingerprint)
    requires Draining(s.game.mq) && CanSend(s.game.mq) && f in s.game.mq.queues
    ensures var q, r, out := s.game.mq, Sent(s, taken).game.mq, NextMessage(s.game.mq);
            && r.log == q.log && f in r.queues
            && r.queues[f] == q.queues[f] + if taken && f == out.fingerprint then |out.msg.events| else 0
  {
    hide *;
    var q := s.game.mq;
    SentIs(s, taken);
    ServedCursors(q);
    ToPending(q);
    if Pending(q, f) {
      PendingMeans(q, f);
      SendLeaves(q, f);
      ChunkSize(q, f);
    } else {
      NobodyElse(q, f);
      SendLeaves(q, NextMessage(q).fingerprint);
    }
  }

  lemma {:induction false} SentSoFar(q: MQ, f: Fingerprint, m: nat)
    requires Draining(q) && f in q.queues
    ensures var r := Sends(q, m);
            && f in r.queues && q.queues[f] <= r.queues[f] <= |q.log|
            && SentTo(q, f, m) == q.log[q.queues[f]..r.queues[f]]
    decreases m
  {
    hide *;
    CursorsFit(q, f);
    SentFirst(q, f, m);
    if m == 0 || !CanSend(q) {
      CannotSend(q, m);
    } else {
      var s := Send(q);
      SendWhenCaughtUp(q);
      SendFirst(q, m - 1);
      if Pending(q, f) {
        PendingMeans(q, f);
        SendLeaves(q, f);
        PartOfLog(q, f);
      } else {
        NobodyElse(q, f);
      }
      SentSoFar(s, f, m - 1);
      var a, b, d := q.queues[f], s.queues[f], Sends(q, m).queues[f];
      assert q.log[a..b] + q.log[b..d] == q.log[a..d];
    }
  }

  /** With no game waiting, repeated sending serves a client exactly the events from its cursor on, in order. */
  lemma GetsTheRest(q: MQ, f: Fingerprint) returns (m: nat)
    requires Draining(q) && f in q.queues
    ensures q.queues[f] <= |q.log| && SentTo(q, f, m) == q.log[q.queues[f]..]
  {
    hide *;
    CursorsFit(q, f);
    SomebodyScheduled(q, f);
    m := DrainsWhenCaughtUp(q);
    SentSoFar(q, f, m);
    DrainedAt(Sends(q, m), q.log, f);
    assert q.log[q.queues[f]..|q.log|] == q.log[q.queues[f]..];
  }

  lemma SomebodyScheduled(q: MQ, f: Fingerprint)
    requires Draining(q) && f in q.queues
    ensures q.schedule != []
  {
    hide AllFit;
    assert f in q.schedule;
  }

  lemma DrainedAt(q: MQ, log: seq<Event>, f: Fingerprint)
    requires Drained(q, log) && f in q.queues
    ensures q.queues[f] == |log|
  {
  }

  /**
   * Whoever joins by asking for the events from number n on, while no other game waits, is sent exactly those events
   * of the log on the air, in order.
   */
  lemma NewcomerGetsTheRest(c: Config, s: ServerState, f: Fingerprint, bytes: seq<byte>, now: nat) returns (m: nat)
    requires ServerOk(c, s) && DecodeClientMessage(bytes).Some? && f !in s.game.mq.queues
    requires Newcomer(s.game, f, DecodeClientMessage(bytes).value)
    requires var t := Receive(c, s, f, bytes, now).game; t.mq.nextGames == [] && DistinctIds(t.logs)
    ensures var t := Receive(c, s, f, bytes, now).game.mq;
            var n := Min(|s.game.mq.log|, DecodeClientMessage(bytes).value.nextExpectedEventNo);
            n <= |t.log| && SentTo(t, f, m) == t.log[n..]
  {
    hide *;
    var t := Receive(c, s, f, bytes, now);
    ReceiveCursors(c, s, f, bytes, now);
    NewcomerCursor(s.game, t.game.mq, f, DecodeClientMessage(bytes).value);
    ReceiveOk(c, s, f, bytes, now);
    ProgressServer(c, s, t);
    ServerOkGives(c, t);
    AllLogsAreOk(c, t.game);
    BoardOk(c);
    QueueFits(c.board, t.game.mq, t.game.logs);
    DrainsFrom(t.game.mq);
    m := GetsTheRest(t.game.mq, f);
  }

  lemma NewcomerCursor(g: GameState, q: MQ, f: Fingerprint, m: ClientMessage)
    requires CursorsAfter(g, q, f, m) && f !in g.mq.queues && Newcomer(g, f, m)
    ensures f in q.queues && q.queues[f] == Min(|g.mq.log|, m.nextExpectedEventNo)
  {
    hide Newcomer;
    hide Known;
    hide Superseded;
  }

  lemma ProgressServer(c: Config, s: ServerState, t: ServerState)
    requires Progress(c, s, t)
    ensures ServerOk(c, t)
  {
    hide ServerOk;
  }

  lemma DrainsFrom(q: MQ)
    requires Valid(q) && EverythingFits(q) && q.nextGames == []
    ensures Draining(q)
  {
    hide Valid;
    hide EverythingFits;
  }
}
