/** The server around the game manager: addresses of clients, datagrams in and out, connections that expire. */
module Server {
  import opened Bytes
  import opened Names
  import opened Messages
  import opened Packing
  import opened MessageQueue
  import opened Logs
  import opened Grammar
  import opened Game
  import opened GameInvariant
  import opened GameTurns
  import opened GameMessages
  import opened GameQueue
  import opened Drain
  import Reassembly

  const CONNECTION_EXPIRATION_TIME_US: nat := 2_000_000

  /** Addresses are not modelled: a client is known or not. */
  datatype ServerState = ServerState(
    game: GameState,
    clientAddrs: set<Fingerprint>,
    lastCommunication: map<Fingerprint, nat>)

  function Started(seed: nat): ServerState {
    ServerState(NewServer(seed), {}, map[])
  }

  /** readMessageFromClient: anybody may send anything; what does not decode is ignored. */
  function Receive(c: Config, s: ServerState, f: Fingerprint, bytes: seq<byte>, now: nat): ServerState {
    var t := s.(lastCommunication := s.lastCommunication[f := now], clientAddrs := s.clientAddrs + {f});
    match DecodeClientMessage(bytes)
    case None => t
    case Some(m) => t.(game := HandleMessage(c, s.game, f, m))
  }

  /** One turn of the clean-up loop. */
  function Expire(s: ServerState, f: Fingerprint): ServerState {
    ServerState(DropConnection(s.game, f), s.clientAddrs - {f}, s.lastCommunication - {f})
  }

  function DropEach(g: GameState, fs: seq<Fingerprint>): GameState
    decreases |fs|
  {
    if fs == [] then g else DropConnection(DropEach(g, fs[..|fs| - 1]), fs[|fs| - 1])
  }

  /** The clean-up loop over the expired connections, in the order it meets them. */
  function ExpireAll(s: ServerState, fs: seq<Fingerprint>): ServerState {
    var gone := set f | f in fs;
    ServerState(DropEach(s.game, fs), s.clientAddrs - gone, s.lastCommunication - gone)
  }

  function Turn(c: Config, s: ServerState): ServerState {
    s.(game := RunTurn(c, s.game))
  }

  /** sendMessageToClient: the acknowledgement follows only if the system took the datagram. */
  function Sent(s: ServerState, taken: bool): ServerState
    requires CanSend(s.game.mq)
  {
    s.(game := s.game.(mq := if taken then Send(s.game.mq) else Served(s.game.mq)))
  }

  // ---- The invariant ----

  ghost predicate ServerOk(c: Config, s: ServerState) {
    && GameOk(c, s.game) && QueueOk(s.game, s.clientAddrs)
    && s.clientAddrs == s.lastCommunication.Keys
  }

  ghost predicate Progress(c: Config, s: ServerState, t: ServerState) {
    ServerOk(c, t) && Grown(s.game.logs, t.game.logs)
  }

  lemma StartedOk(c: Config, seed: nat)
    requires seed < U32
    ensures ServerOk(c, Started(seed))
  {
    NewServerOk(c, seed);
    hide GameOk;
  }

  lemma MoreKnown(g: GameState, known: set<Fingerprint>, f: Fingerprint)
    requires QueueOk(g, known)
    ensures QueueOk(g, known + {f})
  {
    hide Linked;
    hide Routed;
  }

  lemma AdvancedGives(g: GameState, h: GameState, known: set<Fingerprint>)
    requires Advanced(g, h, known)
    ensures QueueOk(h, known) && Grown(g.logs, h.logs)
  {
    hide QueueOk;
    hide Grown;
  }

  lemma ReceiveOk(c: Config, s: ServerState, f: Fingerprint, bytes: seq<byte>, now: nat)
    requires ServerOk(c, s)
    ensures Progress(c, s, Receive(c, s, f, bytes, now))
  {
    var known := s.clientAddrs + {f};
    MoreKnown(s.game, s.clientAddrs, f);
    GrownItself(s.game.logs);
    if DecodeClientMessage(bytes).Some? {
      var m := DecodeClientMessage(bytes).value;
      ClientMessageOnlyEncodings(bytes);
      assert ValidName(m.playerName) by {
        hide *;
        NameOfMessage(m);
      }
      hide GameOk;
      hide HandleMessage;
      hide DecodeClientMessage;
      hide QueueOk;
      hide Grown;
      HandleMessageOk(c, s.game, f, m);
      HandleMessageAdvances(known, c, s.game, f, m);
      AdvancedGives(s.game, HandleMessage(c, s.game, f, m), known);
    } else {
      hide GameOk;
      hide QueueOk;
      hide Grown;
      hide HandleMessage;
    }
  }

  lemma NameOfMessage(m: ClientMessage)
    requires WellFormedClientMessage(m)
    ensures ValidName(m.playerName)
  {
  }

  lemma Forgotten(g: GameState, known: set<Fingerprint>, f: Fingerprint)
    requires QueueOk(g, known) && f !in g.mq.queues
    ensures QueueOk(g, known - {f})
  {
    hide Linked;
    hide Routed;
  }

  lemma ExpireOk(c: Config, s: ServerState, f: Fingerprint)
    requires ServerOk(c, s)
    ensures Progress(c, s, Expire(s, f))
  {
    var h := DropConnection(s.game, f);
    DropConnectionOk(c, s.game, f);
    hide GameOk;
    hide DropConnection;
    hide QueueOk;
    hide Grown;
    DropConnectionAdvances(s.clientAddrs, s.game, f);
    DropConnectionForgets(s.game, f);
    AdvancedGives(s.game, h, s.clientAddrs);
    Forgotten(h, s.clientAddrs, f);
  }

  lemma ExpireOneMore(s: ServerState, fs: seq<Fingerprint>, f: Fingerprint)
    ensures ExpireAll(s, fs + [f]) == Expire(ExpireAll(s, fs), f)
    ensures ExpireAll(s, []) == s
  {
    hide DropConnection;
    assert (fs + [f])[..|fs|] == fs;
    var gone, more := set g | g in fs, set g | g in fs + [f];
    assert more == gone + {f};
    assert s.lastCommunication - more == (s.lastCommunication - gone) - {f};
    assert s.clientAddrs - more == (s.clientAddrs - gone) - {f};
  }

  /** A clean-up of any number of connections. */
  lemma {:induction false} ExpireAllOk(c: Config, s: ServerState, fs: seq<Fingerprint>)
    requires ServerOk(c, s)
    ensures Progress(c, s, ExpireAll(s, fs))
    decreases |fs|
  {
    hide *;
    if fs == [] {
      ExpireOneMore(s, fs, "");
      NoProgress(c, s);
    } else {
      var front, f := fs[..|fs| - 1], fs[|fs| - 1];
      assert fs == front + [f];
      ExpireAllOk(c, s, front);
      ExpireOneMore(s, front, f);
      ProgressOk(c, s, ExpireAll(s, front));
      ExpireOk(c, ExpireAll(s, front), f);
      ProgressTwice(c, s, ExpireAll(s, front), ExpireAll(s, fs));
    }
  }

  lemma NoProgress(c: Config, s: ServerState)
    requires ServerOk(c, s)
    ensures Progress(c, s, s)
  {
    hide ServerOk;
    GrownItself(s.game.logs);
  }

  lemma ProgressOk(c: Config, s: ServerState, t: ServerState)
    requires Progress(c, s, t)
    ensures ServerOk(c, t)
  {
    hide ServerOk;
    hide Grown;
  }

  lemma ProgressTwice(c: Config, s: ServerState, t: ServerState, u: ServerState)
    requires Progress(c, s, t) && Progress(c, t, u)
    ensures Progress(c, s, u)
  {
    hide ServerOk;
    hide Grown;
    GrownTransitive(s.game.logs, t.game.logs, u.game.logs);
  }

  lemma TurnOk(c: Config, s: ServerState)
    requires ServerOk(c, s)
    ensures Progress(c, s, Turn(c, s))
  {
    var h := RunTurn(c, s.game);
    RunTurnOk(c, s.game);
    RunTurnFromAdvances(s.clientAddrs, c, s.game, |s.game.players|, 0);
    assert h == RunTurnFrom(c, s.game, |s.game.players|, 0) by {
      hide RunTurnFrom;
    }
    hide GameOk;
    hide RunTurn;
    hide QueueOk;
    hide Grown;
    AdvancedGives(s.game, h, s.clientAddrs);
  }

  /** Sending changes nothing but cursors and the schedule. */
  lemma SendRouted(q: MQ, logs: seq<GameLog>, taken: bool)
    requires CanSend(q) && Routed(q, logs)
    ensures Routed(if taken then Send(q) else Served(q), logs)
  {
    ServedValid(q);
    SendValid(q);
    SendIsAck(q);
    hide Valid;
    hide Send;
    hide Served;
    hide Refines;
    hide DistinctIds;
    hide CanSend;
    if DistinctIds(logs) {
      ServedRefines(q, logs);
      OthersRefine(Served(q), logs, NextMessage(q).fingerprint, NextMessage(q).ackNumber);
    }
  }

  lemma SendIsAck(q: MQ)
    requires CanSend(q)
    ensures Send(q) == Ack(Served(q), NextMessage(q).fingerprint, NextMessage(q).ackNumber)
  {
    hide Ack;
    hide Served;
    hide NextMessage;
    hide CanSend;
  }

  lemma SendKeepsClients(q: MQ, taken: bool)
    requires CanSend(q)
    ensures (if taken then Send(q) else Served(q)).queues.Keys == q.queues.Keys
  {
    SendIsAck(q);
    ServedClients(q);
    hide Send;
    hide Served;
    hide NextMessage;
    hide CanSend;
    AckKeepsQueues(Served(q), NextMessage(q).fingerprint, NextMessage(q).ackNumber);
    hide Ack;
  }

  lemma ServedClients(q: MQ)
    ensures Served(q).queues.Keys == q.queues.Keys
  {
  }

  lemma SameClientsOk(g: GameState, h: GameState, known: set<Fingerprint>)
    requires QueueOk(g, known) && h == g.(mq := h.mq) && h.mq.queues.Keys == g.mq.queues.Keys && Routed(h.mq, h.logs)
    ensures QueueOk(h, known)
  {
    hide Routed;
  }

  lemma QueueOkRouted(g: GameState, known: set<Fingerprint>)
    requires QueueOk(g, known)
    ensures Routed(g.mq, g.logs)
  {
    hide Routed;
    hide Linked;
    hide WatchersOk;
  }

  lemma SentOk(c: Config, s: ServerState, taken: bool)
    requires ServerOk(c, s) && CanSend(s.game.mq)
    ensures Progress(c, s, Sent(s, taken))
  {
    var q := if taken then Send(s.game.mq) else Served(s.game.mq);
    var h := s.game.(mq := q);
    assert SameGame(s.game, h);
    SentIs(s, taken);
    QueueOkRouted(s.game, s.clientAddrs);
    SendRouted(s.game.mq, s.game.logs, taken);
    SendKeepsClients(s.game.mq, taken);
    hide GameOk;
    hide QueueOk;
    hide Send;
    hide Served;
    hide Sent;
    hide CanSend;
    hide Grown;
    SameGameOk(c, s.game, h);
    SameClientsOk(s.game, h, s.clientAddrs);
    GrownItself(s.game.logs);
  }

  lemma SentIs(s: ServerState, taken: bool)
    requires CanSend(s.game.mq)
    ensures Sent(s, taken) == s.(game := s.game.(mq := if taken then Send(s.game.mq) else Served(s.game.mq)))
  {
    hide Send;
    hide Served;
    hide CanSend;
  }

  // ---- What is sent ----

  /** All games are legal, and all but the one being played are over. */
  lemma AllLogsAreOk(c: Config, g: GameState)
    requires GameOk(c, g)
    ensures Reassembly.AllLogsOk(c.board, g.logs)
    ensures Finished(c.board, g.logs, if g.started then |g.logs| - 1 else |g.logs|)
  {
    hide *;
    GameOkCases(c, g);
    if g.started {
      PlayingGives(c, g, |g.players|);
      CurrentIsOk(c.board, g);
      LogsOkFrom(c.board, g.logs);
    } else {
      IdleMeans(c, g);
      FinishedOk(c.board, g.logs);
    }
  }

  lemma CurrentIsOk(b: Board, g: GameState)
    requires InGame(b, g)
    ensures g.logs != [] && LogOk(b, g.logs[|g.logs| - 1].events)
  {
    hide LogOk;
  }

  lemma LogsOkFrom(b: Board, logs: seq<GameLog>)
    requires logs != [] && Finished(b, logs, |logs| - 1) && LogOk(b, logs[|logs| - 1].events)
    ensures Reassembly.AllLogsOk(b, logs)
  {
    hide LogOk;
    hide Over;
  }

  lemma FinishedOk(b: Board, logs: seq<GameLog>)
    requires Finished(b, logs, |logs|)
    ensures Reassembly.AllLogsOk(b, logs)
  {
    hide LogOk;
    hide Over;
  }

  lemma ChunkWellFormed(b: Board, m: ServerMessage, log: GameLog, from: nat)
    requires b.Valid() && LogOk(b, log.events) && IsChunk(m, log, from) && log.id < U32
    requires 4 + TotalSize(m.events) <= MAX_UDP_DATA_FIELD_SIZE
    ensures WellFormedMessage(m)
  {
    hide LogOk;
    hide TotalSize;
    forall i | 0 <= i < |m.events| ensures WellFormed(m.events[i]) {
      assert m.events[i] == log.events[from + i];
      EventSendable(b, log.events, from + i);
    }
  }

  /** What the server sends is well formed, fits in a datagram, and is a part of one log. */
  lemma SentIsWellFormed(c: Config, s: ServerState)
    requires ServerOk(c, s) && CanSend(s.game.mq) && DistinctIds(s.game.logs)
    ensures WellFormedMessage(NextMessage(s.game.mq).msg) && ChunkOfLogs(NextMessage(s.game.mq).msg, s.game.logs)
  {
    var logs, m := s.game.logs, NextMessage(s.game.mq).msg;
    ServerOkGives(c, s);
    hide *;
    AllLogsAreOk(c, s.game);
    MessageIsChunk(s.game.mq, logs);
    var i, from := ChunkPlace(m, logs);
    LogOkAt(c.board, logs, i);
    BoardOk(c);
    ChunkWellFormed(c.board, m, logs[i], from);
  }

  lemma BoardOk(c: Config)
    ensures c.board.Valid()
  {
  }

  lemma ChunkPlace(m: ServerMessage, logs: seq<GameLog>) returns (i: nat, from: nat)
    requires ChunkOfLogs(m, logs)
    ensures i < |logs| && IsChunk(m, logs[i], from)
  {
    hide IsChunk;
    i, from :| i < |logs| && IsChunk(m, logs[i], from);
  }

  lemma LogOkAt(b: Board, logs: seq<GameLog>, i: nat)
    requires Reassembly.AllLogsOk(b, logs) && i < |logs|
    ensures LogOk(b, logs[i].events)
  {
    hide LogOk;
  }

  lemma ServerOkGives(c: Config, s: ServerState)
    requires ServerOk(c, s)
    ensures GameOk(c, s.game) && (DistinctIds(s.game.logs) ==> Refines(s.game.mq, s.game.logs))
    ensures forall i | 0 <= i < |s.game.logs| :: s.game.logs[i].id < U32
    ensures QueueOk(s.game, s.clientAddrs) && Valid(s.game.mq)
  {
    hide GameOk;
    hide WatchersOk;
    hide Refines;
    hide DistinctIds;
    hide Valid;
  }

  /** The address of the recipient is always known. */
  lemma RecipientIsKnown(c: Config, s: ServerState)
    requires ServerOk(c, s) && CanSend(s.game.mq)
    ensures NextMessage(s.game.mq).fingerprint in s.clientAddrs
  {
    SomeonePending(s.game.mq);
    hide GameOk;
    hide Fitting;
  }

  lemma LogFits(b: Board, log: seq<Event>)
    requires b.Valid() && LogOk(b, log)
    ensures AllFit(log)
  {
    hide LogOk;
    hide Fits;
    forall i | 0 <= i < |log| ensures Fits(log[i]) {
      EventSendable(b, log, i);
    }
  }

  lemma EmptyFits()
    ensures AllFit([])
  {
  }

  /** Whatever the games logged fits in datagrams. */
  lemma QueueFits(b: Board, q: MQ, logs: seq<GameLog>)
    requires b.Valid() && Refines(q, logs) && Reassembly.AllLogsOk(b, logs)
    ensures EverythingFits(q)
  {
    hide LogOk;
    hide AllFit;
    forall i | 0 <= i < |logs| ensures AllFit(logs[i].events) {
      LogFits(b, logs[i].events);
    }
    var n := |q.nextGames|;
    forall k | 0 <= k < n ensures AllFit(WithNumbers(q.nextGames[k].events)) {
      assert logs[|logs| - n + k].events == WithNumbers(q.nextGames[k].events);
    }
    if q.current == None {
      EmptyFits();
    } else {
      assert logs[|logs| - n - 1].events == q.log;
    }
  }

  /** For the queue of a running server: sending empties it exactly when at most one game waits and nobody lags. */
  lemma ServerDrains(c: Config, s: ServerState)
    requires ServerOk(c, s) && DistinctIds(s.game.logs) && s.game.mq.schedule != []
    ensures EverythingFits(s.game.mq)
    ensures Drainable(s.game.mq) <==> exists n: nat :: IsEmpty(Sends(s.game.mq, n))
  {
    hide *;
    ServerOkGives(c, s);
    AllLogsAreOk(c, s.game);
    BoardOk(c);
    QueueFits(c.board, s.game.mq, s.game.logs);
    DrainsExactlyWhenDrainable(s.game.mq);
  }
}
