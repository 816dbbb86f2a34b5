/**
 * The client as seen from outside: what it has handed over, and whether it has given up, told by nothing but the
 * datagrams that were delivered to it and their order.
 */
module Deliveries {
  import opened Bytes
  import opened Messages
  import opened PlayerList
  import opened MessageQueue
  import opened Logs
  import opened Grammar
  import opened Game
  import opened Client
  import opened Reassembly
  import opened Rendering
  import opened GameQueue
  import opened Server
  import opened EndToEnd

  // ---- What a list of messages amounts to ----

  predicate Heard(ms: seq<ServerMessage>, id: nat) {
    exists i | 0 <= i < |ms| :: ms[i].gameId == id
  }

  function Most(ms: seq<ServerMessage>): seq<ServerMessage>
    requires ms != []
  {
    ms[..|ms| - 1]
  }

  function Final(ms: seq<ServerMessage>): ServerMessage
    requires ms != []
  {
    ms[|ms| - 1]
  }

  /** The game heard of last. */
  function Latest(ms: seq<ServerMessage>): Option<nat> {
    if ms == [] then None
    else if Heard(Most(ms), Final(ms).gameId) then Latest(Most(ms))
    else Some(Final(ms).gameId)
  }

  predicate HoldsNewGame(m: ServerMessage) {
    exists i | 0 <= i < |m.events| :: m.events[i].data.NewGame?
  }

  /** Whether the first message of the latest game holds NEW_GAME. */
  predicate Announced(ms: seq<ServerMessage>) {
    ms != [] &&
    if Heard(Most(ms), Final(ms).gameId) then Announced(Most(ms)) else HoldsNewGame(Final(ms))
  }

  function NumbersIn(m: ServerMessage): set<nat> {
    set i | 0 <= i < |m.events| :: m.events[i].eventNo
  }

  /** The events of the latest game that have come; those of its first message count only if it holds NEW_GAME. */
  function Come(ms: seq<ServerMessage>): set<nat> {
    if ms == [] then {}
    else if !Heard(Most(ms), Final(ms).gameId) then (if HoldsNewGame(Final(ms)) then NumbersIn(Final(ms)) else {})
    else if Latest(Most(ms)) == Some(Final(ms).gameId) then Come(Most(ms)) + NumbersIn(Final(ms))
    else Come(Most(ms))
  }

  /** At some point an event that needs players came for a latest game that was not announced. */
  predicate Doomed(ms: seq<ServerMessage>) {
    ms != [] &&
    (Doomed(Most(ms))
     || (Latest(Most(ms)) == Some(Final(ms).gameId) && !Announced(Most(ms)) && SomeNeedPlayers(Final(ms).events)))
  }

  lemma {:induction false} LatestIsHeard(ms: seq<ServerMessage>)
    ensures Latest(ms).Some? ==> Heard(ms, Latest(ms).value)
  {
    if ms != [] {
      LatestIsHeard(Most(ms));
      if Heard(Most(ms), Final(ms).gameId) && Latest(ms).Some? {
        var i :| 0 <= i < |Most(ms)| && Most(ms)[i].gameId == Latest(ms).value;
        assert ms[i].gameId == Latest(ms).value;
      } else {
        assert ms[|ms| - 1].gameId == Final(ms).gameId;
      }
    }
  }

  lemma HeardNext(ms: seq<ServerMessage>, m: ServerMessage, id: nat)
    ensures Heard(ms + [m], id) <==> Heard(ms, id) || m.gameId == id
  {
    var next := ms + [m];
    assert next[|ms|] == m && forall i | 0 <= i < |ms| :: next[i] == ms[i];
  }

  /** One message more. */
  lemma NextMessageIs(ms: seq<ServerMessage>, m: ServerMessage)
    ensures var next := ms + [m];
            && Latest(next) == (if Heard(ms, m.gameId) then Latest(ms) else Some(m.gameId))
            && Announced(next) == (if Heard(ms, m.gameId) then Announced(ms) else HoldsNewGame(m))
            && Come(next) == (if !Heard(ms, m.gameId) then (if HoldsNewGame(m) then NumbersIn(m) else {})
                              else if Latest(ms) == Some(m.gameId) then Come(ms) + NumbersIn(m)
                              else Come(ms))
            && Doomed(next) == (Doomed(ms)
                                || (Latest(ms) == Some(m.gameId) && !Announced(ms) && SomeNeedPlayers(m.events)))
  {
    var next := ms + [m];
    assert Most(next) == ms && Final(next) == m;
    hide Heard;
    hide NumbersIn;
    hide HoldsNewGame;
    hide SomeNeedPlayers;
  }

  // ---- The client keeps exactly that ----

  ghost predicate Heeds(cli: ClientState, ms: seq<ServerMessage>) {
    && cli.gameId == Latest(ms) && (forall id :: id in cli.seen <==> Heard(ms, id))
    && cli.events.Keys == Come(ms) && |cli.announced| == |cli.blocks|
    && (EnteredBlindly(cli) <==> Latest(ms) != None && !Announced(ms))
  }

  lemma NewGameFound(es: seq<Event>)
    ensures FirstNewGame(es) < |es| <==> exists i | 0 <= i < |es| :: es[i].data.NewGame?
  {
    if FirstNewGame(es) < |es| {
      assert es[FirstNewGame(es)].data.NewGame?;
    }
  }

  lemma {:induction false} ReadInKeys(cli: ClientState, es: seq<Event>)
    requires !cli.aborted && !ReadIn(cli, es).aborted
    ensures ReadIn(cli, es).events.Keys == cli.events.Keys + set i | 0 <= i < |es| :: es[i].eventNo
    decreases |es|
  {
    hide ValidEvent;
    if es != [] {
      var rest := es[1..];
      ReadInKeys(Keep(cli, es[0]), rest);
      var all := set i | 0 <= i < |es| :: es[i].eventNo;
      var more := set i | 0 <= i < |rest| :: rest[i].eventNo;
      forall k ensures k in all <==> k == es[0].eventNo || k in more {
        if k in all {
          var i :| 0 <= i < |es| && es[i].eventNo == k;
          assert i > 0 ==> rest[i - 1].eventNo == k;
        }
        if k in more {
          var i :| 0 <= i < |rest| && rest[i].eventNo == k;
          assert es[i + 1].eventNo == k;
        }
        assert es[0].eventNo in all;
      }
    }
  }

  lemma NumbersAre(m: ServerMessage)
    ensures NumbersIn(m) == set i | 0 <= i < |m.events| :: m.events[i].eventNo
  {
  }

  lemma ReadInOutside(cli: ClientState, m: ServerMessage)
    requires !cli.aborted && !ReadIn(cli, m.events).aborted
    ensures var a := ReadIn(cli, m.events);
            && a.gameId == cli.gameId && a.seen == cli.seen && a.announced == cli.announced && a.blocks == cli.blocks
            && a.events.Keys == cli.events.Keys + NumbersIn(m)
  {
    ReadInChanges(cli, m.events);
    ReadInKeys(cli, m.events);
    NumbersAre(m);
    hide ReadIn;
  }

  lemma EnteredOutside(cli: ClientState, m: ServerMessage)
    ensures var e := Entered(cli, m);
            && e.gameId == Some(m.gameId) && e.seen == cli.seen + {m.gameId} && e.aborted == cli.aborted
            && e.events == map[]
            && e.announced == cli.announced + [HoldsNewGame(m)] && |e.blocks| == |cli.blocks| + 1
  {
    NewGameFound(m.events);
    hide FirstNewGame;
  }

  lemma InformedOutside(cli: ClientState, d: EventData)
    requires d.NewGame? && ParsePlayers(d.field).Some?
    ensures var i := Informed(cli, d);
            && i.gameId == cli.gameId && i.seen == cli.seen && i.aborted == cli.aborted && i.events == cli.events
            && i.announced == cli.announced && i.blocks == cli.blocks
  {
    hide ParsePlayers;
    hide Numbered;
  }

  lemma ValidParses(cli: ClientState, e: Event)
    requires ValidEvent(cli, e) && e.data.NewGame?
    ensures ParsePlayers(e.data.field).Some?
  {
    hide ParsePlayers;
    hide Numbered;
  }

  /** The state in which a message leaves the client, before events are handed over. */
  lemma MismatchedOutside(cli: ClientState, m: ServerMessage)
    requires !cli.aborted && m.gameId !in cli.seen && !Mismatched(cli, m).aborted
    ensures var a := Mismatched(cli, m);
            && a.gameId == Some(m.gameId) && a.seen == cli.seen + {m.gameId} && |a.blocks| == |cli.blocks| + 1
            && a.announced == cli.announced + [HoldsNewGame(m)]
            && a.events.Keys == if HoldsNewGame(m) then NumbersIn(m) else {}
  {
    MismatchedSteps(cli, m);
    EnteredOutside(cli, m);
    NewGameFound(m.events);
    hide Mismatched;
    hide Entered;
    hide Informed;
    hide ReadIn;
    hide FirstNewGame;
    hide NumbersIn;
    if HoldsNewGame(m) {
      var start, d := Entered(cli, m), m.events[FirstNewGame(m.events)].data;
      ValidParses(start, m.events[FirstNewGame(m.events)]);
      InformedOutside(start, d);
      ReadInOutside(Informed(start, d), m);
    }
  }

  lemma AcceptedOutside(cli: ClientState, ms: seq<ServerMessage>, m: ServerMessage)
    requires Heeds(cli, ms) && !cli.aborted && !Accepted(cli, m).aborted
    ensures Heeds(Accepted(cli, m), ms + [m])
  {
    HeedsMeans(cli, ms);
    HeedsMeans(Accepted(cli, m), ms + [m]);
    hide *;
    var a := Accepted(cli, m);
    AcceptedIs(cli, m);
    LatestIsHeard(ms);
    NextMessageIs(ms, m);
    forall id ensures Heard(ms + [m], id) <==> Heard(ms, id) || m.gameId == id {
      HeardNext(ms, m, id);
    }
    if cli.gameId == Some(m.gameId) {
      ReadInOutside(cli, m);
      SameBlindness(cli, a);
    } else if m.gameId !in cli.seen {
      MismatchedOutside(cli, m);
      BlindNow(a, cli.announced, HoldsNewGame(m));
    }
  }

  lemma SameBlindness(cli: ClientState, a: ClientState)
    requires a.announced == cli.announced
    ensures EnteredBlindly(a) <==> EnteredBlindly(cli)
  {
  }

  lemma BlindNow(a: ClientState, before: seq<bool>, announced: bool)
    requires a.announced == before + [announced]
    ensures EnteredBlindly(a) <==> !announced
  {
  }

  lemma HeedsMeans(cli: ClientState, ms: seq<ServerMessage>)
    ensures Heeds(cli, ms) <==>
            && cli.gameId == Latest(ms) && (forall id :: id in cli.seen <==> Heard(ms, id))
            && cli.events.Keys == Come(ms) && |cli.announced| == |cli.blocks|
            && (EnteredBlindly(cli) <==> Latest(ms) != None && !Announced(ms))
  {
    hide Heard;
    hide Latest;
    hide Come;
    hide Announced;
    hide EnteredBlindly;
  }

  lemma {:induction false} HandOverOutside(cli: ClientState)
    ensures var h := HandOver(cli);
            h == cli.(nextToSend := h.nextToSend, text := h.text, blocks := h.blocks) && |h.blocks| == |cli.blocks|
    decreases cli.nextWanted - cli.nextToSend
  {
    hide GuiLine;
    if cli.nextToSend < cli.nextWanted && cli.nextToSend in cli.events {
      HandOverOutside(HandOne(cli));
    }
  }

  lemma CaughtUpHeeds(cli: ClientState, ms: seq<ServerMessage>)
    requires Heeds(cli, ms)
    ensures Heeds(HandOver(CaughtUp(cli)), ms)
  {
    HandOverOutside(CaughtUp(cli));
    hide HandOver;
    hide FirstMissing;
    hide Heard;
    hide Latest;
    hide Come;
    hide Announced;
  }

  /** A client that does not give up keeps what a message brings, and nothing else. */
  lemma ProcessHeeds(cli: ClientState, ms: seq<ServerMessage>, m: ServerMessage)
    requires Heeds(cli, ms) && !cli.aborted && !Process(cli, m).aborted
    ensures Heeds(Process(cli, m), ms + [m])
  {
    ProcessSteps(cli, m);
    HandOverOutside(CaughtUp(Accepted(cli, m)));
    CaughtUpUntouched(Accepted(cli, m));
    hide *;
    AcceptedOutside(cli, ms, m);
    CaughtUpHeeds(Accepted(cli, m), ms + [m]);
  }

  lemma CaughtUpUntouched(cli: ClientState)
    ensures CaughtUp(cli).aborted == cli.aborted
  {
    hide FirstMissing;
  }

  // ---- Over whole runs ----

  /** What an action brings the client: a datagram that was sent, or nothing. */
  ghost function Brings(s: Sys, a: Action): seq<ServerMessage> {
    if a.Delivery? && a.datagram in s.net && |a.datagram| + |a.leftover| == INBOUND_BUFFER_SIZE then
      match DecodeMessage(a.datagram + a.leftover, |a.datagram|)
      case None => []
      case Some(m) => [m]
    else []
  }

  /** The messages delivered to the client in a run, in order. */
  ghost function Delivered(c: Config, s: Sys, actions: seq<Action>): seq<ServerMessage> {
    if actions == [] then []
    else
      var front := actions[..|actions| - 1];
      Delivered(c, s, front) + Brings(Run(c, s, front), actions[|actions| - 1])
  }

  lemma DeliveredUnfolds(c: Config, s: Sys, actions: seq<Action>)
    requires actions != []
    ensures var front := actions[..|actions| - 1];
            Delivered(c, s, actions) == Delivered(c, s, front) + Brings(Run(c, s, front), actions[|actions| - 1])
  {
    hide Brings;
    hide Run;
  }

  lemma NothingDelivered(c: Config, s: Sys)
    ensures Delivered(c, s, []) == []
  {
  }

  lemma NothingBrought(s: Sys, a: Action)
    requires !a.Delivery? || a.datagram !in s.net || |a.datagram| + |a.leftover| != INBOUND_BUFFER_SIZE
    ensures Brings(s, a) == []
  {
    hide DecodeMessage;
  }

  lemma Brought(s: Sys, m: ServerMessage, leftover: seq<byte>)
    requires WellFormedMessage(m) && EncodeMessage(m) in s.net
    requires |EncodeMessage(m)| + |leftover| == INBOUND_BUFFER_SIZE
    ensures Brings(s, Delivery(EncodeMessage(m), leftover)) == [m]
  {
    var d := EncodeMessage(m);
    hide EncodeMessage;
    assert (d + leftover)[..|d|] == d;
    MessageRoundTrip(d + leftover, m);
    hide DecodeMessage;
    hide WellFormedMessage;
  }

  /** What is true of the client after these messages have been delivered. */
  ghost predicate Outside(cli: ClientState, ms: seq<ServerMessage>) {
    (cli.aborted <==> Doomed(ms)) && (!cli.aborted ==> Heeds(cli, ms))
  }

  lemma OutsideMeans(cli: ClientState, ms: seq<ServerMessage>)
    ensures Outside(cli, ms) <==> (cli.aborted <==> Doomed(ms)) && (!cli.aborted ==> Heeds(cli, ms))
  {
    hide Doomed;
    hide Heeds;
  }

  /** One datagram of the network more. */
  lemma DeliveryOutside(c: Config, s: Sys, ms: seq<ServerMessage>, m: ServerMessage)
    requires SysOk(c, s) && DistinctIds(s.server.game.logs) && WellFormedMessage(m) && EncodeMessage(m) in s.net
    requires ChunkOfLogs(m, s.server.game.logs) && Outside(s.client, ms)
    ensures Outside(Process(s.client, m), ms + [m])
  {
    hide *;
    var cli, logs := s.client, s.server.game.logs;
    OutsideMeans(cli, ms);
    OutsideMeans(Process(cli, m), ms + [m]);
    NextMessageIs(ms, m);
    if cli.aborted {
      ProcessAborted(cli, m);
    } else {
      SysOkMeans(c, s);
      PeerOkMeans(c, s);
      ServerOkGives(c, s.server);
      AllLogsAreOk(c, s.server.game);
      ProcessFaithful(cli, m, c.board, logs);
      GivesUpBlindly(cli, m, c.board, logs);
      HeedsMeans(cli, ms);
      if !Process(cli, m).aborted {
        ProcessHeeds(cli, ms, m);
      }
    }
  }

  lemma StepOutside(c: Config, s: Sys, ms: seq<ServerMessage>, a: Action)
    requires SysOk(c, s) && DistinctIds(s.server.game.logs) && Outside(s.client, ms)
    ensures Outside(Step(c, s, a).client, ms + Brings(s, a))
  {
    hide *;
    ServerActions(c, s);
    assert ms + [] == ms;
    if a.Delivery? && a.datagram in s.net && |a.datagram| + |a.leftover| == INBOUND_BUFFER_SIZE {
      SysOkMeans(c, s);
      PeerOkMeans(c, s);
      NetGives(s.net, s.server.game.logs, a.datagram);
      var m := GenuineMessage(a.datagram, s.server.game.logs);
      Brought(s, m, a.leftover);
      DeliveryIs(c, s, a.datagram, a.leftover);
      TakenIs(s.client, m, a.leftover);
      DeliveryOutside(c, s, ms, m);
    } else {
      NothingBrought(s, a);
      match a
      case Datagram(_, _, _) =>
      case Expiry(_) =>
      case RoundTurn =>
      case Sending(taken) =>
        if CanSend(s.server.game.mq) {
          SendingIs(c, s, taken);
        }
      case Delivery(d, leftover) => NotDelivered(c, s, d, leftover);
    }
  }

  lemma StartOutside(seed: nat)
    ensures Outside(Start(seed).client, [])
  {
  }

  lemma LogsGrow(c: Config, s: Sys, a: Action)
    requires SysOk(c, s)
    ensures Grown(s.server.game.logs, Step(c, s, a).server.game.logs)
  {
    hide *;
    SysOkMeans(c, s);
    ServerActions(c, s);
    GrownItself(s.server.game.logs);
    match a
    case Datagram(f, bytes, now) =>
      ReceiveOk(c, s.server, f, bytes, now);
      ProgressGives(c, s.server, Receive(c, s.server, f, bytes, now));
    case Expiry(f) =>
      ExpireOk(c, s.server, f);
      ProgressGives(c, s.server, Expire(s.server, f));
    case RoundTurn =>
      TurnOk(c, s.server);
      ProgressGives(c, s.server, Turn(c, s.server));
    case Sending(taken) =>
      if CanSend(s.server.game.mq) {
        SendingIs(c, s, taken);
        SentLogs(s.server, taken);
      }
    case Delivery(d, leftover) =>
      if d in s.net && |d| + |leftover| == INBOUND_BUFFER_SIZE {
        DeliveryIs(c, s, d, leftover);
      } else {
        NotDelivered(c, s, d, leftover);
      }
  }

  lemma NoNumberTwiceMeans(s: Sys)
    ensures NoNumberTwice(s) <==> DistinctIds(s.server.game.logs)
  {
    hide DistinctIds;
  }

  lemma {:induction false} RunOutside(c: Config, seed: nat, actions: seq<Action>)
    requires seed < U32 && NoNumberTwice(Run(c, Start(seed), actions))
    ensures Outside(Run(c, Start(seed), actions).client, Delivered(c, Start(seed), actions))
    decreases |actions|
  {
    hide *;
    var z := Start(seed);
    if actions == [] {
      NoActions(c, z);
      NothingDelivered(c, z);
      StartOutside(seed);
    } else {
      var n := |actions| - 1;
      var s := Run(c, z, actions[..n]);
      RunUnfolds(c, z, actions);
      DeliveredUnfolds(c, z, actions);
      RunOk(c, seed, actions[..n]);
      LogsGrow(c, s, actions[n]);
      NoNumberTwiceMeans(s);
      NoNumberTwiceMeans(Run(c, z, actions));
      DistinctBefore(s.server.game.logs, Run(c, z, actions).server.game.logs);
      RunOutside(c, seed, actions[..n]);
      StepOutside(c, s, Delivered(c, z, actions[..n]), actions[n]);
    }
  }

  /** In any run the client has given up exactly if the datagrams delivered to it doomed it. */
  lemma GaveUpExactlyWhen(c: Config, seed: nat, actions: seq<Action>)
    requires seed < U32 && NoNumberTwice(Run(c, Start(seed), actions))
    ensures Run(c, Start(seed), actions).client.aborted <==> Doomed(Delivered(c, Start(seed), actions))
  {
    hide *;
    RunOutside(c, seed, actions);
    OutsideMeans(Run(c, Start(seed), actions).client, Delivered(c, Start(seed), actions));
  }

  /** The events before the n-th have come, and the n-th has not. */
  predicate UpTo(numbers: set<nat>, n: nat) {
    n !in numbers && forall k | 0 <= k < n :: k in numbers
  }

  /**
   * Nothing is held back: after any run, a client that the datagrams delivered to it have not doomed has handed over
   * the log of the game it heard of last exactly up to the first event that no datagram has brought.
   */
  lemma HandsOverWhatWasDelivered(c: Config, seed: nat, actions: seq<Action>)
    requires seed < U32 && NoNumberTwice(Run(c, Start(seed), actions))
    requires !Doomed(Delivered(c, Start(seed), actions)) && Latest(Delivered(c, Start(seed), actions)) != None
    ensures var s, ms := Run(c, Start(seed), actions), Delivered(c, Start(seed), actions);
            var logs := s.server.game.logs;
            exists j, n: nat | 0 <= j < |logs| && n <= |logs[j].events| ::
              && Latest(ms) == Some(logs[j].id) && UpTo(Come(ms), n)
              && s.client.blocks != [] && Last(s.client.blocks) == GameLog(logs[j].id, logs[j].events[..n])
  {
    hide *;
    var s, ms := Run(c, Start(seed), actions), Delivered(c, Start(seed), actions);
    var logs := s.server.game.logs;
    RunOutside(c, seed, actions);
    OutsideMeans(s.client, ms);
    HeedsMeans(s.client, ms);
    HandsOverWhatArrived(c, seed, actions);
    var j :| 0 <= j < |logs| && s.client.gameId == Some(logs[j].id) && s.client.blocks != []
          && FirstMissing(s.client.events, 0) <= |logs[j].events|
          && Last(s.client.blocks) == GameLog(logs[j].id, logs[j].events[..FirstMissing(s.client.events, 0)]);
    MissingIsUpTo(s.client.events, Come(ms));
  }

  lemma MissingIsUpTo(events: map<nat, Event>, numbers: set<nat>)
    requires events.Keys == numbers
    ensures UpTo(numbers, FirstMissing(events, 0))
  {
  }
}
