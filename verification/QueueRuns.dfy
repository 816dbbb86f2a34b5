/** Over whole runs: until when every listed player has a queue. */
module QueueRuns {
  import opened Bytes
  import opened Messages
  import opened MessageQueue
  import opened Game
  import opened GameInvariant
  import opened GameMessages
  import opened Deaths
  import opened PlayerQueues
  import opened Server
  import opened EndToEnd

  /** What an action must not do if every listed player is to keep a queue. */
  ghost predicate Harmless(c: Config, g: GameState, a: Action) {
    match a
    case Datagram(f, bytes, _) =>
      DecodeClientMessage(bytes).Some? ==> !Crowded(g, f, DecodeClientMessage(bytes).value)
    case Expiry(f) => Sharing(g.players, f) <= (if f in g.watchers || g.started then 0 else 1)
    case RoundTurn => TurnEnds(c, g) ==> Separate(g.players)
    case Sending(_) => true
    case Delivery(_, _) => true
  }

  lemma CalmBetween(c: Config, g: GameState)
    requires GameOk(c, g)
    ensures Calm(g) && |g.players| <= MAX_PLAYERS
  {
    hide *;
    GameOkCases(c, g);
    IdleMeans(c, g);
    CalmMeans(g);
    PlayersOkOf(c, g);
    AtMost(g.players);
  }

  lemma AtMost(players: seq<Player>)
    requires PlayersOk(players)
    ensures |players| <= MAX_PLAYERS
  {
  }

  lemma ReceiveQueued(c: Config, s: ServerState, f: Fingerprint, bytes: seq<byte>, now: nat)
    requires GameOk(c, s.game) && PlayersQueued(s.game)
    ensures PlayersQueued(Receive(c, s, f, bytes, now).game) <==> Harmless(c, s.game, Datagram(f, bytes, now))
  {
    CalmBetween(c, s.game);
    hide GameOk;
    hide PlayersQueued;
    hide Calm;
    hide HandleMessage;
    hide Crowded;
    if DecodeClientMessage(bytes).Some? {
      MessageLeavesPlayersQueued(c, s.game, f, DecodeClientMessage(bytes).value);
    }
    hide DecodeClientMessage;
  }

  lemma ExpireQueued(c: Config, s: ServerState, f: Fingerprint)
    requires GameOk(c, s.game) && PlayersQueued(s.game)
    ensures PlayersQueued(Expire(s, f).game) <==> Harmless(c, s.game, Expiry(f))
  {
    CalmBetween(c, s.game);
    CalmMeans(s.game);
    hide GameOk;
    hide PlayersQueued;
    hide Calm;
    hide DropConnection;
    hide Sharing;
    hide NoneDisconnected;
    DropLeavesPlayersQueued(s.game, f);
  }

  lemma TurnQueued(c: Config, s: ServerState)
    requires GameOk(c, s.game) && PlayersQueued(s.game)
    ensures PlayersQueued(Turn(c, s).game) <==> Harmless(c, s.game, RoundTurn)
  {
    hide PlayersQueued;
    hide GameOk;
    hide RunTurn;
    hide Separate;
    hide Fallen;
    TurnLeavesPlayersQueued(c, s.game);
    if s.game.started {
      EndsExactlyWhen(c, s.game);
    }
  }

  lemma SentQueued(s: ServerState, taken: bool)
    requires PlayersQueued(s.game) && CanSend(s.game.mq)
    ensures PlayersQueued(Sent(s, taken).game)
  {
    SendKeepsClients(s.game.mq, taken);
    SentIs(s, taken);
    hide CanSend;
    hide Sent;
    hide Served;
    hide Drain.Send;
  }

  lemma HarmlessOthers(c: Config, g: GameState)
    ensures forall taken :: Harmless(c, g, Sending(taken))
    ensures forall d, leftover :: Harmless(c, g, Delivery(d, leftover))
  {
  }

  /** One action: every listed player keeps a queue exactly if the action is harmless. */
  lemma StepQueued(c: Config, s: Sys, a: Action)
    requires GameOk(c, s.server.game) && PlayersQueued(s.server.game)
    ensures PlayersQueued(Step(c, s, a).server.game) <==> Harmless(c, s.server.game, a)
  {
    hide *;
    ServerActions(c, s);
    HarmlessOthers(c, s.server.game);
    match a
    case Datagram(f, bytes, now) => ReceiveQueued(c, s.server, f, bytes, now);
    case Expiry(f) => ExpireQueued(c, s.server, f);
    case RoundTurn => TurnQueued(c, s.server);
    case Sending(taken) =>
      if CanSend(s.server.game.mq) {
        SendingIs(c, s, taken);
        SentQueued(s.server, taken);
      }
    case Delivery(d, leftover) =>
      if d in s.net && |d| + |leftover| == INBOUND_BUFFER_SIZE {
        DeliveryIs(c, s, d, leftover);
      } else {
        NotDelivered(c, s, d, leftover);
      }
  }

  ghost function GameAfter(c: Config, seed: nat, actions: seq<Action>, k: nat): GameState
    requires k <= |actions|
  {
    Run(c, Start(seed), actions[..k]).server.game
  }

  lemma GameAfterStep(c: Config, seed: nat, actions: seq<Action>, k: nat)
    requires k < |actions|
    ensures GameAfter(c, seed, actions, k) == Run(c, Start(seed), actions[..k]).server.game
    ensures GameAfter(c, seed, actions, k + 1) == Step(c, Run(c, Start(seed), actions[..k]), actions[k]).server.game
  {
    assert actions[..k + 1][..k] == actions[..k] && actions[..k + 1][k] == actions[k];
    hide Step;
    hide Start;
  }

  lemma QueuedAtStart(c: Config, seed: nat, actions: seq<Action>)
    ensures PlayersQueued(GameAfter(c, seed, actions, 0))
  {
  }

  /** As long as all actions before the k-th are harmless, every listed player has a queue. */
  lemma {:induction false} QueuedUntil(c: Config, seed: nat, actions: seq<Action>, k: nat)
    requires seed < U32 && k <= |actions|
    requires forall i | 0 <= i < k :: Harmless(c, GameAfter(c, seed, actions, i), actions[i])
    ensures PlayersQueued(GameAfter(c, seed, actions, k))
  {
    hide *;
    if k == 0 {
      QueuedAtStart(c, seed, actions);
    } else {
      QueuedUntil(c, seed, actions, k - 1);
      GameAfterStep(c, seed, actions, k - 1);
      RunGameOk(c, seed, actions[..k - 1]);
      StepQueued(c, Run(c, Start(seed), actions[..k - 1]), actions[k - 1]);
    }
  }

  /** In a run every listed player always has a queue if and only if every action is harmless. */
  lemma QueuedExactlyWhen(c: Config, seed: nat, actions: seq<Action>)
    requires seed < U32
    ensures (forall k | 0 <= k <= |actions| :: PlayersQueued(GameAfter(c, seed, actions, k)))
       <==> (forall k | 0 <= k < |actions| :: Harmless(c, GameAfter(c, seed, actions, k), actions[k]))
  {
    hide *;
    if forall k | 0 <= k < |actions| :: Harmless(c, GameAfter(c, seed, actions, k), actions[k]) {
      forall k | 0 <= k <= |actions| ensures PlayersQueued(GameAfter(c, seed, actions, k)) {
        QueuedUntil(c, seed, actions, k);
      }
    }
    if forall k | 0 <= k <= |actions| :: PlayersQueued(GameAfter(c, seed, actions, k)) {
      forall k | 0 <= k < |actions| ensures Harmless(c, GameAfter(c, seed, actions, k), actions[k]) {
        assert PlayersQueued(GameAfter(c, seed, actions, k)) && PlayersQueued(GameAfter(c, seed, actions, k + 1));
        GameAfterStep(c, seed, actions, k);
        RunGameOk(c, seed, actions[..k]);
        StepQueued(c, Run(c, Start(seed), actions[..k]), actions[k]);
      }
    }
  }

  /** What this is for: the two acknowledgements of a message find the queue that the code looks up unchecked. */
  lemma AcknowledgedIsQueued(c: Config, s: ServerState, f: Fingerprint, m: ClientMessage)
    requires ServerOk(c, s) && PlayersQueued(s.game)
    ensures var k := FindPlayer(s.game.players, m.playerName);
            m.playerName != [] && k < |s.game.players| && s.game.players[k].fingerprint == f ==> f in s.game.mq.queues
    ensures m.playerName == [] && f in s.game.watchers && s.game.watchers[f] == m.sessionId ==> f in s.game.mq.queues
  {
    hide GameOk;
  }
}
