/**
 * The server, the network and a client together. The network is the set of all datagrams ever sent: any of them
 * may reach the client at any time, in any order, any number of times, or never.
 */
module EndToEnd {
  import opened Bytes
  import opened Messages
  import opened MessageQueue
  import opened Logs
  import opened Grammar
  import opened Game
  import opened Drain
  import opened Cycle
  import opened Draws
  import opened Server
  import opened Client
  import opened Reassembly
  import opened Rendering
  import opened GameInvariant
  import Rng

  datatype Sys = Sys(server: ServerState, net: set<seq<byte>>, client: ClientState)

  datatype Action =
    | Datagram(f: Fingerprint, bytes: seq<byte>, now: nat)
    | Expiry(f: Fingerprint)
    | RoundTurn
    | Sending(taken: bool)
    | Delivery(datagram: seq<byte>, leftover: seq<byte>)

  ghost function Start(seed: nat): Sys {
    Sys(Server.Started(seed), {}, NewClient())
  }

  /** One step; an action that cannot happen changes nothing. */
  ghost function Step(c: Config, s: Sys, a: Action): Sys {
    match a
    case Datagram(f, bytes, now) => s.(server := Receive(c, s.server, f, bytes, now))
    case Expiry(f) => s.(server := Expire(s.server, f))
    case RoundTurn => s.(server := Turn(c, s.server))
    case Sending(taken) =>
      if !CanSend(s.server.game.mq) then s
      else
        var m := NextMessage(s.server.game.mq).msg;
        s.(server := Sent(s.server, taken),
           net := if taken && WellFormedMessage(m) then s.net + {EncodeMessage(m)} else s.net)
    case Delivery(d, leftover) =>
      if d !in s.net || |d| + |leftover| != INBOUND_BUFFER_SIZE then s
      else s.(client := Take(s.client, d + leftover, |d|))
  }

  ghost function Run(c: Config, s: Sys, actions: seq<Action>): Sys {
    if actions == [] then s else Step(c, Run(c, s, actions[..|actions| - 1]), actions[|actions| - 1])
  }

  lemma NoActions(c: Config, s: Sys)
    ensures Run(c, s, []) == s
  {
    hide Step;
  }

  lemma RunUnfolds(c: Config, s: Sys, actions: seq<Action>)
    requires actions != []
    ensures Run(c, s, actions) == Step(c, Run(c, s, actions[..|actions| - 1]), actions[|actions| - 1])
  {
    hide Step;
  }

  // ---- The invariant of the whole ----

  /** A datagram is the encoding of a part of a log. */
  ghost predicate Genuine(d: seq<byte>, logs: seq<GameLog>) {
    exists m: ServerMessage :: WellFormedMessage(m) && ChunkOfLogs(m, logs) && d == EncodeMessage(m)
  }

  ghost predicate NetOk(net: set<seq<byte>>, logs: seq<GameLog>) {
    forall d | d in net :: Genuine(d, logs)
  }

  ghost predicate PeerOk(c: Config, s: Sys) {
    var logs := s.server.game.logs;
    NetOk(s.net, logs) && ClientOk(s.client, logs) && Faithful(s.client, c.board, logs)
  }

  ghost predicate SysOk(c: Config, s: Sys) {
    ServerOk(c, s.server) && (DistinctIds(s.server.game.logs) ==> PeerOk(c, s))
  }

  lemma GenuineLater(d: seq<byte>, logs: seq<GameLog>, later: seq<GameLog>)
    requires Genuine(d, logs) && Grown(logs, later)
    ensures Genuine(d, later)
  {
    hide ChunkOfLogs;
    hide Grown;
    hide WellFormedMessage;
    hide EncodeMessage;
    var m: ServerMessage :| WellFormedMessage(m) && ChunkOfLogs(m, logs) && d == EncodeMessage(m);
    ChunkStaysChunk(m, logs, later);
  }

  lemma NetLater(net: set<seq<byte>>, logs: seq<GameLog>, later: seq<GameLog>)
    requires NetOk(net, logs) && Grown(logs, later)
    ensures NetOk(net, later)
  {
    hide Genuine;
    hide Grown;
    forall d | d in net ensures Genuine(d, later) {
      GenuineLater(d, logs, later);
    }
  }

  lemma DistinctBefore(logs: seq<GameLog>, later: seq<GameLog>)
    requires Grown(logs, later) && DistinctIds(later)
    ensures DistinctIds(logs)
  {
    forall i, j | 0 <= i < j < |logs| ensures logs[i].id != logs[j].id {
      assert logs[i].id == later[i].id && logs[j].id == later[j].id;
    }
  }

  lemma ProgressGives(c: Config, s: ServerState, t: ServerState)
    requires Progress(c, s, t)
    ensures ServerOk(c, t) && Grown(s.game.logs, t.game.logs)
  {
    hide ServerOk;
    hide Grown;
  }

  /** A step of the server leaves the network and the client as they should be. */
  lemma ServerStep(c: Config, s: Sys, t: ServerState)
    requires SysOk(c, s) && Progress(c, s.server, t)
    ensures SysOk(c, s.(server := t))
  {
    hide *;
    SysOkMeans(c, s);
    ServerOkGives(c, s.server);
    ProgressGives(c, s.server, t);
    var logs, later := s.server.game.logs, t.game.logs;
    if DistinctIds(later) {
      DistinctBefore(logs, later);
      PeerOkMeans(c, s);
      AllLogsAreOk(c, s.server.game);
      ServerOkGives(c, t);
      AllLogsAreOk(c, t.game);
      NetLater(s.net, logs, later);
      ClientOkLater(s.client, logs, later);
      FaithfulLater(s.client, c.board, logs, later);
      PeerOkMeans(c, s.(server := t));
    }
    SysOkMeans(c, s.(server := t));
  }

  lemma SysOkMeans(c: Config, s: Sys)
    ensures SysOk(c, s) <==> ServerOk(c, s.server) && (DistinctIds(s.server.game.logs) ==> PeerOk(c, s))
  {
    hide ServerOk;
    hide PeerOk;
  }

  lemma PeerOkMeans(c: Config, s: Sys)
    ensures var logs := s.server.game.logs;
            PeerOk(c, s) <==> NetOk(s.net, logs) && ClientOk(s.client, logs) && Faithful(s.client, c.board, logs)
  {
    hide NetOk;
    hide ClientOk;
    hide Faithful;
  }

  // ---- Sending ----

  lemma NetGrows(net: set<seq<byte>>, m: ServerMessage, logs: seq<GameLog>)
    requires NetOk(net, logs) && WellFormedMessage(m) && ChunkOfLogs(m, logs)
    ensures NetOk(net + {EncodeMessage(m)}, logs)
  {
    hide ChunkOfLogs;
    hide WellFormedMessage;
    hide EncodeMessage;
    assert Genuine(EncodeMessage(m), logs);
    hide Genuine;
  }

  lemma SentLogs(s: ServerState, taken: bool)
    requires CanSend(s.game.mq)
    ensures Sent(s, taken).game.logs == s.game.logs
  {
    hide Send;
    hide Served;
    hide CanSend;
  }

  lemma SendingStep(c: Config, s: Sys, taken: bool)
    requires SysOk(c, s) && CanSend(s.server.game.mq)
    ensures SysOk(c, Step(c, s, Sending(taken)))
  {
    SendingIs(c, s, taken);
    SysOkMeans(c, s);
    hide *;
    var t := Step(c, s, Sending(taken));
    SentOk(c, s.server, taken);
    SentLogs(s.server, taken);
    ProgressGives(c, s.server, Sent(s.server, taken));
    if DistinctIds(s.server.game.logs) {
      SentIsWellFormed(c, s.server);
      PeerOkMeans(c, s);
      NetGrows(s.net, NextMessage(s.server.game.mq).msg, s.server.game.logs);
      PeerOkMeans(c, t);
    }
    SysOkMeans(c, t);
  }

  lemma SendingIs(c: Config, s: Sys, taken: bool)
    requires CanSend(s.server.game.mq)
    ensures var t, m := Step(c, s, Sending(taken)), NextMessage(s.server.game.mq).msg;
            && t.server == Sent(s.server, taken) && t.client == s.client
            && t.net == if taken && WellFormedMessage(m) then s.net + {EncodeMessage(m)} else s.net
  {
    hide CanSend;
    hide Sent;
    hide WellFormedMessage;
    hide EncodeMessage;
    hide NextMessage;
  }

  // ---- Delivering ----

  /** Whatever the buffer held before, the client sees the message that was sent. */
  lemma TakenIs(cli: ClientState, m: ServerMessage, leftover: seq<byte>)
    requires WellFormedMessage(m) && |EncodeMessage(m)| + |leftover| == INBOUND_BUFFER_SIZE
    ensures Take(cli, EncodeMessage(m) + leftover, |EncodeMessage(m)|) == Process(cli, m)
  {
    var d := EncodeMessage(m);
    hide Process;
    hide EncodeMessage;
    assert (d + leftover)[..|d|] == d;
    hide WellFormedMessage;
    MessageRoundTrip(d + leftover, m);
    hide DecodeMessage;
  }

  lemma DeliveryIs(c: Config, s: Sys, d: seq<byte>, leftover: seq<byte>)
    requires d in s.net && |d| + |leftover| == INBOUND_BUFFER_SIZE
    ensures Step(c, s, Delivery(d, leftover)) == s.(client := Take(s.client, d + leftover, |d|))
  {
    hide Take;
  }

  lemma GenuineMessage(d: seq<byte>, logs: seq<GameLog>) returns (m: ServerMessage)
    requires Genuine(d, logs)
    ensures WellFormedMessage(m) && ChunkOfLogs(m, logs) && d == EncodeMessage(m)
  {
    hide ChunkOfLogs;
    hide WellFormedMessage;
    hide EncodeMessage;
    m :| WellFormedMessage(m) && ChunkOfLogs(m, logs) && d == EncodeMessage(m);
  }

  lemma NetGives(net: set<seq<byte>>, logs: seq<GameLog>, d: seq<byte>)
    requires NetOk(net, logs) && d in net
    ensures Genuine(d, logs)
  {
    hide Genuine;
  }

  lemma ProcessAborted(cli: ClientState, m: ServerMessage)
    requires cli.aborted
    ensures Process(cli, m) == cli
  {
  }

  /** The client after any datagram of the network. */
  lemma DeliveredOk(c: Config, s: Sys, d: seq<byte>, leftover: seq<byte>)
    requires SysOk(c, s) && DistinctIds(s.server.game.logs) && d in s.net && |d| + |leftover| == INBOUND_BUFFER_SIZE
    ensures var h := Take(s.client, d + leftover, |d|);
            ClientOk(h, s.server.game.logs) && Faithful(h, c.board, s.server.game.logs)
  {
    SysOkMeans(c, s);
    hide *;
    var logs := s.server.game.logs;
    PeerOkMeans(c, s);
    NetGives(s.net, logs, d);
    var m := GenuineMessage(d, logs);
    TakenIs(s.client, m, leftover);
    ServerOkGives(c, s.server);
    AllLogsAreOk(c, s.server.game);
    AllNumbered(c.board, logs);
    ProcessOk(s.client, m, logs);
    if s.client.aborted {
      ProcessAborted(s.client, m);
    } else {
      ProcessFaithful(s.client, m, c.board, logs);
    }
  }

  lemma DeliveryStep(c: Config, s: Sys, d: seq<byte>, leftover: seq<byte>)
    requires SysOk(c, s)
    ensures SysOk(c, Step(c, s, Delivery(d, leftover)))
  {
    hide *;
    var t := Step(c, s, Delivery(d, leftover));
    SysOkMeans(c, s);
    if d in s.net && |d| + |leftover| == INBOUND_BUFFER_SIZE {
      DeliveryIs(c, s, d, leftover);
      if DistinctIds(s.server.game.logs) {
        DeliveredOk(c, s, d, leftover);
        PeerOkMeans(c, s);
        PeerOkMeans(c, t);
      }
      SysOkMeans(c, t);
    } else {
      NotDelivered(c, s, d, leftover);
    }
  }

  lemma NotDelivered(c: Config, s: Sys, d: seq<byte>, leftover: seq<byte>)
    requires d !in s.net || |d| + |leftover| != INBOUND_BUFFER_SIZE
    ensures Step(c, s, Delivery(d, leftover)) == s
  {
    hide Take;
  }

  // ---- Every step, every run ----

  lemma ServerActions(c: Config, s: Sys)
    ensures forall f, bytes, now ::
            Step(c, s, Datagram(f, bytes, now)) == s.(server := Receive(c, s.server, f, bytes, now))
    ensures forall f :: Step(c, s, Expiry(f)) == s.(server := Expire(s.server, f))
    ensures Step(c, s, RoundTurn) == s.(server := Turn(c, s.server))
    ensures forall taken :: !CanSend(s.server.game.mq) ==> Step(c, s, Sending(taken)) == s
  {
    hide Receive;
    hide Expire;
    hide Turn;
    hide CanSend;
    hide NextMessage;
    hide Sent;
  }

  lemma SentGame(s: ServerState, taken: bool)
    requires CanSend(s.game.mq)
    ensures var g, h := s.game, Sent(s, taken).game;
            && h.players == g.players && h.watchers == g.watchers && h.started == g.started && h.logs == g.logs
            && Sent(s, taken).lastCommunication == s.lastCommunication
  {
    hide Send;
    hide Served;
    hide CanSend;
  }

  /** What an action makes of the server, but for the queue. */
  lemma ServerStepIs(c: Config, s: Sys, a: Action)
    ensures var t := Step(c, s, a).server;
            match a
            case Datagram(f, bytes, now) => t == Receive(c, s.server, f, bytes, now)
            case Expiry(f) => t == Expire(s.server, f)
            case RoundTurn => t == Turn(c, s.server)
            case Sending(_) =>
              && t.game.players == s.server.game.players && t.game.watchers == s.server.game.watchers
              && t.game.started == s.server.game.started && t.game.logs == s.server.game.logs
              && t.lastCommunication == s.server.lastCommunication
            case Delivery(_, _) => t == s.server
  {
    hide *;
    ServerActions(c, s);
    match a
    case Datagram(f, bytes, now) =>
    case Expiry(f) =>
    case RoundTurn =>
    case Sending(taken) =>
      if CanSend(s.server.game.mq) {
        SendingIs(c, s, taken);
        SentGame(s.server, taken);
      }
    case Delivery(d, leftover) =>
      if d in s.net && |d| + |leftover| == INBOUND_BUFFER_SIZE {
        DeliveryIs(c, s, d, leftover);
      } else {
        NotDelivered(c, s, d, leftover);
      }
  }

  lemma StepOk(c: Config, s: Sys, a: Action)
    requires SysOk(c, s)
    ensures SysOk(c, Step(c, s, a))
  {
    hide *;
    SysOkMeans(c, s);
    ServerActions(c, s);
    match a
    case Datagram(f, bytes, now) =>
      ReceiveOk(c, s.server, f, bytes, now);
      ServerStep(c, s, Receive(c, s.server, f, bytes, now));
    case Expiry(f) =>
      ExpireOk(c, s.server, f);
      ServerStep(c, s, Expire(s.server, f));
    case RoundTurn =>
      TurnOk(c, s.server);
      ServerStep(c, s, Turn(c, s.server));
    case Sending(taken) =>
      if CanSend(s.server.game.mq) {
        SendingStep(c, s, taken);
      }
    case Delivery(d, leftover) =>
      DeliveryStep(c, s, d, leftover);
  }

  lemma StartOk(c: Config, seed: nat)
    requires seed < U32
    ensures SysOk(c, Start(seed))
  {
    Server.StartedOk(c, seed);
    NewClientOk([]);
    NewClientFaithful(c.board, []);
    hide ServerOk;
    hide ClientOk;
    hide Faithful;
  }

  /** Every reachable state, however the server, the network and the clients behave. */
  lemma {:induction false} RunOk(c: Config, seed: nat, actions: seq<Action>)
    requires seed < U32
    ensures SysOk(c, Run(c, Start(seed), actions))
    decreases |actions|
  {
    hide SysOk;
    hide Step;
    hide Start;
    if actions == [] {
      StartOk(c, seed);
    } else {
      var n := |actions| - 1;
      RunOk(c, seed, actions[..n]);
      StepOk(c, Run(c, Start(seed), actions[..n]), actions[n]);
    }
  }

  // ---- Game numbers ----

  /** Drawn game numbers that are pairwise distinct. */
  ghost predicate NoNumberTwice(s: Sys) {
    DistinctIds(s.server.game.logs)
  }

  lemma ReceiveDraws(c: Config, seed: nat, s: ServerState, f: Fingerprint, bytes: seq<byte>, now: nat)
    requires Drawn(seed, s.game) && GameOk(c, s.game)
    ensures AtMostOneStarted(seed, s.game, Receive(c, s, f, bytes, now).game)
  {
    QuietItself(s.game);
    QuietStarts(seed, s.game, s.game);
    hide HandleMessage;
    hide Drawn;
    hide OneStarted;
    hide GameOk;
    if DecodeClientMessage(bytes).Some? {
      ClientMessageOnlyEncodings(bytes);
      NameOfMessage(DecodeClientMessage(bytes).value);
      HandleMessageDraws(c, seed, s.game, f, DecodeClientMessage(bytes).value);
    }
    hide DecodeClientMessage;
  }

  lemma SentQuiet(s: ServerState, taken: bool)
    requires CanSend(s.game.mq)
    ensures Quiet(s.game, Sent(s, taken).game)
  {
    hide Send;
    hide Served;
    hide CanSend;
  }

  lemma OthersQuiet(c: Config, s: ServerState, f: Fingerprint)
    ensures Quiet(s.game, Expire(s, f).game) && Quiet(s.game, Turn(c, s).game)
  {
    DropConnectionQuiet(s.game, f);
    RunTurnFromQuiet(c, s.game, |s.game.players|, 0);
    hide DropConnection;
    hide RunTurnFrom;
    hide Quiet;
  }

  /** Every action draws nothing, or starts a game with the next number and draws what that takes. */
  lemma StepDraws(c: Config, seed: nat, s: Sys, a: Action)
    requires Drawn(seed, s.server.game) && GameOk(c, s.server.game)
    ensures AtMostOneStarted(seed, s.server.game, Step(c, s, a).server.game)
  {
    hide *;
    ServerActions(c, s);
    QuietItself(s.server.game);
    QuietStarts(seed, s.server.game, s.server.game);
    match a
    case Datagram(f, bytes, now) =>
      ReceiveDraws(c, seed, s.server, f, bytes, now);
    case Expiry(f) =>
      OthersQuiet(c, s.server, f);
      QuietStarts(seed, s.server.game, Expire(s.server, f).game);
    case RoundTurn =>
      OthersQuiet(c, s.server, "");
      QuietStarts(seed, s.server.game, Turn(c, s.server).game);
    case Sending(taken) =>
      if CanSend(s.server.game.mq) {
        SendingIs(c, s, taken);
        SentQuiet(s.server, taken);
        QuietStarts(seed, s.server.game, Sent(s.server, taken).game);
      }
    case Delivery(d, leftover) =>
      if d in s.net && |d| + |leftover| == INBOUND_BUFFER_SIZE {
        DeliveryIs(c, s, d, leftover);
      } else {
        NotDelivered(c, s, d, leftover);
      }
  }

  lemma StartDrawn(seed: nat)
    ensures Drawn(seed, Start(seed).server.game) && Start(seed).server.game.draws == 0
  {
    NewServerDrawn(seed);
    hide Drawn;
  }

  lemma StartedGives(seed: nat, g: GameState, h: GameState)
    requires AtMostOneStarted(seed, g, h)
    ensures Drawn(seed, h) && h.draws <= g.draws + MAX_DRAWS
  {
    hide Drawn;
    hide Rng.Output;
    hide DrawsFor;
  }

  /**
   * In any run the draws are exactly one for each game and three for each of its players, and each game has the number
   * drawn after those of the games before it.
   */
  lemma {:induction false} RunDraws(c: Config, seed: nat, actions: seq<Action>)
    requires seed < U32
    ensures var g := Run(c, Start(seed), actions).server.game;
            Drawn(seed, g) && g.draws <= MAX_DRAWS * |actions|
    decreases |actions|
  {
    hide *;
    if actions == [] {
      StartDrawn(seed);
      NoActions(c, Start(seed));
    } else {
      var n := |actions| - 1;
      var s := Run(c, Start(seed), actions[..n]);
      RunUnfolds(c, Start(seed), actions);
      RunDraws(c, seed, actions[..n]);
      RunGameOk(c, seed, actions[..n]);
      StepDraws(c, seed, s, actions[n]);
      StartedGives(seed, s.server.game, Step(c, s, actions[n]).server.game);
      OneTimeMore(MAX_DRAWS, n);
    }
  }

  lemma OneTimeMore(m: nat, n: nat)
    ensures m * (n + 1) == m * n + m
  {
  }

  lemma RunGameOk(c: Config, seed: nat, actions: seq<Action>)
    requires seed < U32
    ensures GameOk(c, Run(c, Start(seed), actions).server.game)
  {
    hide *;
    RunOk(c, seed, actions);
    SysOkMeans(c, Run(c, Start(seed), actions));
    ServerOkGives(c, Run(c, Start(seed), actions).server);
  }

  /** No two of these games come a whole number of cycles apart. */
  ghost predicate NeverWholeCycles(seed: nat, logs: seq<GameLog>) {
    forall i, j | 0 <= i < j < |logs| :: !WholeCyclesApart(seed, logs, i, j)
  }

  lemma DistinctExactlyWhen(seed: nat, g: GameState)
    requires Drawn(seed, g) && seed % Rng.MODULUS != 0
    ensures DistinctIds(g.logs) <==> NeverWholeCycles(seed, g.logs)
  {
    hide Drawn;
    hide WholeCyclesApart;
    forall i, j | 0 <= i < j < |g.logs|
      ensures g.logs[i].id == g.logs[j].id <==> WholeCyclesApart(seed, g.logs, i, j)
    {
      SameNumberExactlyWhen(seed, g, i, j);
    }
  }

  lemma ZeroDistinctExactlyWhen(seed: nat, g: GameState)
    requires Drawn(seed, g) && seed % Rng.MODULUS == 0
    ensures DistinctIds(g.logs) <==> |g.logs| <= if seed == 0 then 1 else 2
  {
    hide Drawn;
    forall i, j | 0 <= i < j < |g.logs| ensures g.logs[i].id == g.logs[j].id <==> 0 < i || seed == 0 {
      ZeroSeedRepeats(seed, g, i, j);
    }
    if |g.logs| > 2 {
      assert g.logs[1].id == g.logs[2].id;
    } else if |g.logs| == 2 && seed == 0 {
      assert g.logs[0].id == g.logs[1].id;
    }
  }

  /**
   * When a game number is drawn twice: exactly when two games come a whole number of cycles of the generator apart,
   * hence not in a run of at most CYCLE draws, nor in one of at most CYCLE / 76 actions. If the seed is divisible by
   * the modulus, exactly when there are three games, or two for seed 0.
   */
  lemma NumbersAreDistinct(c: Config, seed: nat, actions: seq<Action>)
    requires seed < U32
    ensures var s := Run(c, Start(seed), actions);
            var logs := s.server.game.logs;
            && s.server.game.draws == DrawsOf(logs) <= MAX_DRAWS * |actions|
            && (seed % Rng.MODULUS != 0 ==> (NoNumberTwice(s) <==> NeverWholeCycles(seed, logs)))
            && (seed % Rng.MODULUS != 0 && DrawsOf(logs) <= CYCLE ==> NoNumberTwice(s))
            && (seed % Rng.MODULUS == 0 ==> (NoNumberTwice(s) <==> |logs| <= if seed == 0 then 1 else 2))
  {
    RunDraws(c, seed, actions);
    var s := Run(c, Start(seed), actions);
    var g := s.server.game;
    assert NoNumberTwice(s) <==> DistinctIds(g.logs);
    DrawnMeans(seed, g);
    hide *;
    if seed % Rng.MODULUS == 0 {
      ZeroDistinctExactlyWhen(seed, g);
    } else {
      DistinctExactlyWhen(seed, g);
      if g.draws <= CYCLE {
        DistinctWithinCycle(seed, g);
      }
    }
  }

  /**
   * Prefix agreement: over a network that loses, duplicates, delays and reorders, what the client hands to the GUI
   * is, game by game, a prefix of the server's log of that game; each game is one block that is never resumed.
   */
  lemma PrefixAgreement(c: Config, seed: nat, actions: seq<Action>)
    requires seed < U32 && NoNumberTwice(Run(c, Start(seed), actions))
    ensures var s := Run(c, Start(seed), actions);
            && (forall i | 0 <= i < |s.client.blocks| :: Copied(s.client.blocks[i], s.server.game.logs))
            && DistinctIds(s.client.blocks)
  {
    RunOk(c, seed, actions);
    var s := Run(c, Start(seed), actions);
    hide Run;
    hide Start;
    hide ServerOk;
    hide NetOk;
    hide Faithful;
    hide Copied;
    hide ClientOk;
    hide DistinctIds;
    BlocksArePrefixes(s.client, s.server.game.logs);
  }

  /** The same with nothing assumed of the numbers: for any seed but a multiple of the modulus, in one cycle. */
  lemma PrefixAgreementWithinCycle(c: Config, seed: nat, actions: seq<Action>)
    requires seed < U32 && seed % Rng.MODULUS != 0 && MAX_DRAWS * |actions| <= CYCLE
    ensures var s := Run(c, Start(seed), actions);
            && (forall i | 0 <= i < |s.client.blocks| :: Copied(s.client.blocks[i], s.server.game.logs))
            && DistinctIds(s.client.blocks)
  {
    NumbersAreDistinct(c, seed, actions);
    hide *;
    PrefixAgreement(c, seed, actions);
  }

  /**
   * What the GUI has been told is, in every run, exactly the lines of the events handed over: each announced game's
   * with the names announced for it, and of a game entered without NEW_GAME at most its first line. Only in a game
   * of the latter kind does an honest server make the client give up.
   */
  lemma HonestServerIsBelieved(c: Config, seed: nat, actions: seq<Action>)
    requires seed < U32 && NoNumberTwice(Run(c, Start(seed), actions))
    ensures var cli := Run(c, Start(seed), actions).client;
            && Short(cli.blocks, cli.announced) && cli.text == GuiText(cli.blocks, cli.announced)
            && (cli.aborted ==> cli.announced != [] && !cli.announced[|cli.announced| - 1])
  {
    var s := Run(c, Start(seed), actions);
    assert DistinctIds(s.server.game.logs);
    hide *;
    RunOk(c, seed, actions);
    SysOkMeans(c, s);
    PeerOkMeans(c, s);
    ServerOkGives(c, s.server);
    AllLogsAreOk(c, s.server.game);
    FaithfulText(s.client, c.board, s.server.game.logs);
    AllToldMeans(s.client);
  }

  lemma AllToldMeans(cli: ClientState)
    requires AllTold(cli)
    ensures Short(cli.blocks, cli.announced) && cli.text == GuiText(cli.blocks, cli.announced)
  {
    hide GuiText;
    hide Short;
    hide Known;
  }

  /**
   * The client gives up exactly when a datagram of its current game needs players, and it entered that game by one
   * without NEW_GAME.
   */
  lemma GivesUpExactlyWhen(c: Config, seed: nat, actions: seq<Action>, m: ServerMessage, leftover: seq<byte>)
    requires seed < U32 && NoNumberTwice(Run(c, Start(seed), actions))
    requires WellFormedMessage(m) && EncodeMessage(m) in Run(c, Start(seed), actions).net
    requires |EncodeMessage(m)| + |leftover| == INBOUND_BUFFER_SIZE && !Run(c, Start(seed), actions).client.aborted
    ensures var s := Run(c, Start(seed), actions);
            Step(c, s, Delivery(EncodeMessage(m), leftover)).client.aborted
            <==> s.client.gameId == Some(m.gameId) && EnteredBlindly(s.client) && SomeNeedPlayers(m.events)
  {
    var s := Run(c, Start(seed), actions);
    assert DistinctIds(s.server.game.logs);
    hide *;
    RunOk(c, seed, actions);
    SysOkMeans(c, s);
    PeerOkMeans(c, s);
    var d, logs := EncodeMessage(m), s.server.game.logs;
    NetGives(s.net, logs, d);
    var m' := GenuineMessage(d, logs);
    SameEncoding(m, m', leftover);
    DeliveryIs(c, s, d, leftover);
    TakenIs(s.client, m, leftover);
    ServerOkGives(c, s.server);
    AllLogsAreOk(c, s.server.game);
    ProcessFaithful(s.client, m, c.board, logs);
    GivesUpBlindly(s.client, m, c.board, logs);
  }

  lemma SameEncoding(m: ServerMessage, m': ServerMessage, leftover: seq<byte>)
    requires WellFormedMessage(m) && WellFormedMessage(m') && EncodeMessage(m) == EncodeMessage(m')
    requires |EncodeMessage(m)| + |leftover| == INBOUND_BUFFER_SIZE
    ensures m == m'
  {
    var d := EncodeMessage(m);
    hide EncodeMessage;
    hide WellFormedMessage;
    hide DecodeMessage;
    assert (d + leftover)[..|d|] == d;
    MessageRoundTrip(d + leftover, m);
    MessageRoundTrip(d + leftover, m');
  }

  /**
   * Nothing is held back: after any run a client that has not given up has handed over the events of its game
   * up to the first that has not arrived (and `Reassembly.MessageArrives` says what arrives).
   */
  lemma HandsOverWhatArrived(c: Config, seed: nat, actions: seq<Action>)
    requires seed < U32 && NoNumberTwice(Run(c, Start(seed), actions))
    ensures var s := Run(c, Start(seed), actions);
            var logs, n := s.server.game.logs, FirstMissing(s.client.events, 0);
            s.client.gameId != None && !s.client.aborted ==>
              exists j | 0 <= j < |logs| ::
                && s.client.gameId == Some(logs[j].id) && s.client.blocks != [] && n <= |logs[j].events|
                && Last(s.client.blocks) == GameLog(logs[j].id, logs[j].events[..n])
  {
    RunOk(c, seed, actions);
    var s := Run(c, Start(seed), actions);
    hide Run;
    hide Start;
    hide ServerOk;
    hide NetOk;
    hide Faithful;
    hide ClientOk;
    hide DistinctIds;
    hide FirstMissing;
    if s.client.gameId != None && !s.client.aborted {
      NothingHeldBack(s.client, s.server.game.logs);
    }
  }

  /** The log of every game of every run is legal, and every game but the one being played is over. */
  lemma EveryGameIsLegal(c: Config, seed: nat, actions: seq<Action>, i: nat)
    requires seed < U32 && i < |Run(c, Start(seed), actions).server.game.logs|
    ensures var g := Run(c, Start(seed), actions).server.game;
            && LogOk(c.board, g.logs[i].events)
            && (!Over(g.logs[i].events) ==> i == |g.logs| - 1 && g.started)
  {
    var s := Run(c, Start(seed), actions);
    hide *;
    RunOk(c, seed, actions);
    SysOkMeans(c, s);
    ServerOkGives(c, s.server);
    AllLogsAreOk(c, s.server.game);
    LogOkAt(c.board, s.server.game.logs, i);
    var logs := s.server.game.logs;
    OverUnlessLast(c.board, logs, if s.server.game.started then |logs| - 1 else |logs|, i);
  }

  lemma OverUnlessLast(b: Board, logs: seq<GameLog>, n: nat, i: nat)
    requires Finished(b, logs, n) && i < |logs|
    ensures !Over(logs[i].events) ==> n <= i
  {
    hide LogOk;
    hide Over;
  }
}
