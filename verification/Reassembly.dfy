/**
 * What the client makes of datagrams cut from the server's logs, in whatever order, however often and however
 * late they come: what it hands to the GUI is, game by game, a prefix of the server's log.
 */
module Reassembly {
  import opened Bytes
  import opened Messages
  import opened PlayerList
  import opened MessageQueue
  import opened Logs
  import opened Grammar
  import opened Client

  ghost predicate AllLogsOk(b: Board, logs: seq<GameLog>) {
    forall i | 0 <= i < |logs| :: LogOk(b, logs[i].events)
  }

  /** Every event kept is the one of that number in the log. */
  ghost predicate Holds(events: map<nat, Event>, log: seq<Event>) {
    forall k | k in events :: k < |log| && events[k] == log[k]
  }

  /** What has been handed over is a prefix of a log of the server. */
  ghost predicate Copied(block: GameLog, logs: seq<GameLog>) {
    exists i | 0 <= i < |logs| :: block.id == logs[i].id && block.events <= logs[i].events
  }

  function Last(blocks: seq<GameLog>): GameLog
    requires blocks != []
  {
    blocks[|blocks| - 1]
  }

  /** The client is collecting `log` and has handed over its first nextToSend events, as the last block. */
  ghost predicate Following(cli: ClientState, log: GameLog) {
    && cli.gameId == Some(log.id) && cli.blocks != []
    && cli.nextToSend <= cli.nextWanted && (forall k | 0 <= k < cli.nextWanted :: k in cli.events)
    && cli.nextToSend <= |log.events| && Last(cli.blocks) == GameLog(log.id, log.events[..cli.nextToSend])
    && Holds(cli.events, log.events)
  }

  ghost predicate FollowsSome(cli: ClientState, logs: seq<GameLog>) {
    exists i | 0 <= i < |logs| :: Following(cli, logs[i])
  }

  predicate HasBlock(blocks: seq<GameLog>, id: nat) {
    exists i | 0 <= i < |blocks| :: blocks[i].id == id
  }

  /** Each game has one block: once left, it is never resumed. */
  ghost predicate Registered(cli: ClientState) {
    && DistinctIds(cli.blocks)
    && (forall id :: id in cli.seen <==> HasBlock(cli.blocks, id))
  }

  /** The earlier blocks are prefixes of logs. */
  ghost predicate EarlierCopied(blocks: seq<GameLog>, logs: seq<GameLog>) {
    forall i | 0 <= i < |blocks| - 1 :: Copied(blocks[i], logs)
  }

  /** Everything that can be handed over has been. */
  predicate UpToDate(cli: ClientState) {
    cli.nextToSend == cli.nextWanted && cli.nextWanted !in cli.events
  }

  ghost predicate ClientOk(cli: ClientState, logs: seq<GameLog>) {
    && Registered(cli) && EarlierCopied(cli.blocks, logs) && (cli.aborted || UpToDate(cli))
    && if cli.gameId == None then cli.blocks == [] && cli.events == map[] && cli.nextWanted == cli.nextToSend == 0
       else FollowsSome(cli, logs)
  }

  /** Prefix agreement, as a reader of the GUI's input sees it. */
  lemma BlocksArePrefixes(cli: ClientState, logs: seq<GameLog>)
    requires ClientOk(cli, logs)
    ensures forall i | 0 <= i < |cli.blocks| :: Copied(cli.blocks[i], logs)
    ensures DistinctIds(cli.blocks)
  {
    if cli.gameId != None {
      var j :| 0 <= j < |logs| && Following(cli, logs[j]);
      assert Copied(Last(cli.blocks), logs);
    }
  }

  // ---- The logs grow meanwhile ----

  lemma CopiedLater(block: GameLog, logs: seq<GameLog>, later: seq<GameLog>)
    requires Copied(block, logs) && Grown(logs, later)
    ensures Copied(block, later)
  {
    var i :| 0 <= i < |logs| && block.id == logs[i].id && block.events <= logs[i].events;
    assert later[i].events[..|logs[i].events|] == logs[i].events;
    assert block.events <= later[i].events;
  }

  lemma FollowingLater(cli: ClientState, log: GameLog, later: GameLog)
    requires Following(cli, log) && later.id == log.id && log.events <= later.events
    ensures Following(cli, later)
  {
    assert later.events[..|log.events|] == log.events;
    assert later.events[..cli.nextToSend] == log.events[..cli.nextToSend];
  }

  lemma ClientOkLater(cli: ClientState, logs: seq<GameLog>, later: seq<GameLog>)
    requires ClientOk(cli, logs) && Grown(logs, later)
    ensures ClientOk(cli, later)
  {
    hide Copied;
    hide Following;
    hide Registered;
    forall i | 0 <= i < |cli.blocks| - 1 ensures Copied(cli.blocks[i], later) {
      CopiedLater(cli.blocks[i], logs, later);
    }
    if cli.gameId != None {
      var j :| 0 <= j < |logs| && Following(cli, logs[j]);
      FollowingLater(cli, logs[j], later[j]);
    }
  }

  // ---- Reading in ----

  /** Reading in touches nothing but the events and the flag. */
  lemma {:induction false} ReadInChanges(cli: ClientState, es: seq<Event>)
    ensures ReadIn(cli, es) == cli.(events := ReadIn(cli, es).events, aborted := ReadIn(cli, es).aborted)
    ensures forall k | k in cli.events :: k in ReadIn(cli, es).events && ReadIn(cli, es).events[k] == cli.events[k]
    decreases |es|
  {
    hide ValidEvent;
    if es != [] && ValidEvent(cli, es[0]) {
      ReadInChanges(Keep(cli, es[0]), es[1..]);
    }
  }

  lemma KeepHolds(cli: ClientState, e: Event, log: seq<Event>, at: nat)
    requires Holds(cli.events, log) && at < |log| && log[at] == e && e.eventNo == at
    ensures Holds(Keep(cli, e).events, log)
  {
  }

  lemma {:induction false} ReadInHolds(cli: ClientState, es: seq<Event>, log: seq<Event>, from: nat)
    requires Holds(cli.events, log) && NumberedLog(log)
    requires from + |es| <= |log| && es == log[from..from + |es|]
    ensures Holds(ReadIn(cli, es).events, log)
    decreases |es|
  {
    hide ValidEvent;
    hide Holds;
    hide Keep;
    if es != [] && ValidEvent(cli, es[0]) {
      assert es[0] == log[from] && log[from].eventNo == from;
      KeepHolds(cli, es[0], log, from);
      assert es[1..] == log[from + 1..from + 1 + |es[1..]|];
      ReadInHolds(Keep(cli, es[0]), es[1..], log, from + 1);
    }
  }

  lemma ReadInFollows(cli: ClientState, m: ServerMessage, log: GameLog, from: nat)
    requires Following(cli, log) && NumberedLog(log.events) && IsChunk(m, log, from)
    ensures Following(ReadIn(cli, m.events), log)
  {
    ReadInChanges(cli, m.events);
    ReadInHolds(cli, m.events, log.events, from);
    hide ReadIn;
    hide Holds;
  }

  // ---- Handing over ----

  lemma HandedStep(cli: ClientState, log: GameLog)
    requires Following(cli, log) && cli.nextToSend < cli.nextWanted
    ensures cli.nextToSend in cli.events && cli.nextToSend < |log.events|
    ensures cli.events[cli.nextToSend] == log.events[cli.nextToSend]
    ensures Following(HandOne(cli), log)
  {
    hide GuiLine;
    assert cli.nextToSend in cli.events;
    assert log.events[..cli.nextToSend + 1] == log.events[..cli.nextToSend] + [log.events[cli.nextToSend]];
  }

  /** All but the last block stay as they are, and the last keeps its id. */
  ghost predicate SameButLast(a: seq<GameLog>, b: seq<GameLog>) {
    && |a| == |b| && (forall i | 0 <= i < |a| - 1 :: a[i] == b[i])
    && (a != [] ==> Last(a).id == Last(b).id)
  }

  lemma HandedSame(a: seq<GameLog>, b: seq<GameLog>, e: Event)
    requires SameButLast(a, b)
    ensures SameButLast(a, Handed(b, e))
  {
  }

  lemma {:induction false} HandOverFollows(cli: ClientState, log: GameLog)
    requires Following(cli, log)
    ensures var h := HandOver(cli);
            && Following(h, log) && h.nextToSend == h.nextWanted && SameButLast(cli.blocks, h.blocks)
            && h == cli.(nextToSend := h.nextToSend, text := h.text, blocks := h.blocks)
    decreases cli.nextWanted - cli.nextToSend
  {
    hide GuiLine;
    hide Handed;
    assert SameButLast(cli.blocks, cli.blocks);
    if cli.nextToSend < cli.nextWanted {
      HandedStep(cli, log);
      hide Following;
      var next := HandOne(cli);
      HandedSame(cli.blocks, cli.blocks, cli.events[cli.nextToSend]);
      HandOverFollows(next, log);
      SameTransitive(cli.blocks, next.blocks, HandOver(next).blocks);
    }
  }

  lemma SameTransitive(a: seq<GameLog>, b: seq<GameLog>, d: seq<GameLog>)
    requires SameButLast(a, b) && SameButLast(b, d)
    ensures SameButLast(a, d)
  {
  }

  lemma SameRegistered(cli: ClientState, h: ClientState, logs: seq<GameLog>)
    requires Registered(cli) && EarlierCopied(cli.blocks, logs) && SameButLast(cli.blocks, h.blocks)
    requires h.seen == cli.seen
    ensures Registered(h) && EarlierCopied(h.blocks, logs)
  {
    hide Copied;
    assert forall i | 0 <= i < |h.blocks| :: h.blocks[i].id == cli.blocks[i].id;
    forall id ensures id in h.seen <==> HasBlock(h.blocks, id) {
      if HasBlock(h.blocks, id) {
        var i :| 0 <= i < |h.blocks| && h.blocks[i].id == id;
        assert cli.blocks[i].id == id;
      }
      if HasBlock(cli.blocks, id) {
        var i :| 0 <= i < |cli.blocks| && cli.blocks[i].id == id;
        assert h.blocks[i].id == id;
      }
    }
  }

  // ---- One message ----

  /** The state in which a message leaves the client before it counts how far it can go. */
  lemma WantedFollows(cli: ClientState, log: GameLog)
    requires Following(cli, log)
    ensures Following(cli.(nextWanted := FirstMissing(cli.events, cli.nextWanted)), log)
  {
    hide Holds;
  }

  lemma FinishFollows(cli: ClientState, log: GameLog)
    requires Following(cli, log)
    ensures var h := HandOver(cli.(nextWanted := FirstMissing(cli.events, cli.nextWanted)));
            && Following(h, log) && SameButLast(cli.blocks, h.blocks) && h.seen == cli.seen
            && h.gameId == cli.gameId && h.aborted == cli.aborted && h.names == cli.names && h.maxx == cli.maxx
            && h.maxy == cli.maxy
            && h.playersInGame == cli.playersInGame && h.announced == cli.announced && h.events == cli.events
            && UpToDate(h)
  {
    WantedFollows(cli, log);
    hide Following;
    hide HandOver;
    HandOverFollows(cli.(nextWanted := FirstMissing(cli.events, cli.nextWanted)), log);
  }

  lemma EnteredFollows(cli: ClientState, m: ServerMessage, log: GameLog)
    requires m.gameId == log.id
    ensures Following(Entered(cli, m), log)
  {
    hide FirstNewGame;
    assert log.events[..0] == [];
  }

  lemma MismatchedFollows(cli: ClientState, m: ServerMessage, log: GameLog, from: nat)
    requires m.gameId !in cli.seen && NumberedLog(log.events) && IsChunk(m, log, from)
    ensures var a := Mismatched(cli, m);
            && Following(a, log) && a.blocks == Entered(cli, m).blocks && a.seen == Entered(cli, m).seen
            && a.gameId == Some(m.gameId)
  {
    var start, k := Entered(cli, m), FirstNewGame(m.events);
    EnteredFollows(cli, m, log);
    EnteredId(cli, m);
    hide ReadIn;
    hide Entered;
    hide IsChunk;
    hide NumberedLog;
    if k < |m.events| && ValidEvent(start, m.events[k]) {
      var i := Informed(start, m.events[k].data);
      assert Following(i, log);
      ReadInFollows(i, m, log, from);
      ReadInChanges(i, m.events);
    }
  }

  lemma EnteredId(cli: ClientState, m: ServerMessage)
    ensures Entered(cli, m).gameId == Some(m.gameId)
  {
  }

  lemma EnteredRegistered(cli: ClientState, m: ServerMessage, logs: seq<GameLog>)
    requires ClientOk(cli, logs) && m.gameId !in cli.seen
    ensures Registered(Entered(cli, m)) && EarlierCopied(Entered(cli, m).blocks, logs)
  {
    BlocksArePrefixes(cli, logs);
    hide Copied;
    hide FollowsSome;
    hide FirstNewGame;
    var e := Entered(cli, m);
    forall id ensures id in e.seen <==> HasBlock(e.blocks, id) {
      if HasBlock(cli.blocks, id) {
        var i :| 0 <= i < |cli.blocks| && cli.blocks[i].id == id;
        assert e.blocks[i].id == id;
      }
      if id == m.gameId {
        assert e.blocks[|cli.blocks|].id == id;
      }
    }
    assert !HasBlock(cli.blocks, m.gameId);
  }

  lemma SameBlocksOk(cli: ClientState, h: ClientState, logs: seq<GameLog>)
    requires Registered(cli) && EarlierCopied(cli.blocks, logs) && h.blocks == cli.blocks && h.seen == cli.seen
    ensures Registered(h) && EarlierCopied(h.blocks, logs)
  {
    hide Copied;
    hide HasBlock;
  }

  lemma OneLogPerId(logs: seq<GameLog>, i: nat, j: nat)
    requires DistinctIds(logs) && i < |logs| && j < |logs| && logs[i].id == logs[j].id
    ensures i == j
  {
  }

  lemma FollowingId(cli: ClientState, log: GameLog)
    requires Following(cli, log)
    ensures cli.gameId == Some(log.id)
  {
  }

  lemma ClientOkFrom(cli: ClientState, logs: seq<GameLog>, j: nat)
    requires cli.aborted || UpToDate(cli)
    requires Registered(cli) && EarlierCopied(cli.blocks, logs) && j < |logs| && Following(cli, logs[j])
    ensures ClientOk(cli, logs)
  {
    hide Registered;
    hide EarlierCopied;
  }

  lemma NothingSeenYet(cli: ClientState, logs: seq<GameLog>, id: nat)
    requires ClientOk(cli, logs) && cli.gameId == None
    ensures id !in cli.seen
  {
  }

  lemma ClientOkGives(cli: ClientState, logs: seq<GameLog>)
    requires ClientOk(cli, logs)
    ensures Registered(cli) && EarlierCopied(cli.blocks, logs) && (cli.gameId != None ==> FollowsSome(cli, logs))
  {
    hide Registered;
    hide EarlierCopied;
    hide FollowsSome;
  }

  lemma AllNumbered(b: Board, logs: seq<GameLog>)
    requires AllLogsOk(b, logs)
    ensures forall i | 0 <= i < |logs| :: NumberedLog(logs[i].events)
  {
    forall i | 0 <= i < |logs| ensures NumberedLog(logs[i].events) {
      var log := logs[i].events;
      assert LogOk(b, log);
      hide LogOk;
      forall k | 0 <= k < |log| ensures log[k].eventNo == k {
        if k == 0 {
          FirstIsNewGame(b, log);
        } else {
          Between(b, log, k);
        }
      }
    }
  }

  /** The state after the first step of processing: the message has been read in, or ignored. */
  lemma AcceptedFollows(cli: ClientState, m: ServerMessage, logs: seq<GameLog>) returns (j: nat)
    requires ClientOk(cli, logs) && DistinctIds(logs) && ChunkOfLogs(m, logs)
    requires forall i | 0 <= i < |logs| :: NumberedLog(logs[i].events)
    ensures j < |logs| && Following(Accepted(cli, m), logs[j])
    ensures Registered(Accepted(cli, m)) && EarlierCopied(Accepted(cli, m).blocks, logs)
  {
    var i: nat, from: nat :| i < |logs| && IsChunk(m, logs[i], from);
    assert m.gameId == logs[i].id;
    hide *;
    ClientOkGives(cli, logs);
    AcceptedIs(cli, m);
    j := i;
    if cli.gameId == Some(m.gameId) {
      j := FollowedLog(cli, logs);
      FollowingId(cli, logs[j]);
      OneLogPerId(logs, i, j);
      ReadInFollows(cli, m, logs[j], from);
      ReadInChanges(cli, m.events);
      SameBlocksOk(cli, ReadIn(cli, m.events), logs);
    } else if m.gameId in cli.seen {
      if cli.gameId == None {
        NothingSeenYet(cli, logs, m.gameId);
      }
      j := FollowedLog(cli, logs);
    } else {
      MismatchedFollows(cli, m, logs[i], from);
      EnteredRegistered(cli, m, logs);
      SameBlocksOk(Entered(cli, m), Mismatched(cli, m), logs);
    }
  }

  lemma FollowedLog(cli: ClientState, logs: seq<GameLog>) returns (j: nat)
    requires FollowsSome(cli, logs)
    ensures j < |logs| && Following(cli, logs[j])
  {
    hide Following;
    j :| j < |logs| && Following(cli, logs[j]);
  }

  lemma AcceptedIs(cli: ClientState, m: ServerMessage)
    ensures cli.gameId == Some(m.gameId) ==> Accepted(cli, m) == ReadIn(cli, m.events)
    ensures cli.gameId != Some(m.gameId) ==> Accepted(cli, m) == Mismatched(cli, m)
    ensures cli.gameId != Some(m.gameId) && m.gameId in cli.seen ==> Accepted(cli, m) == cli
  {
    hide ReadIn;
  }

  lemma ProcessIs(cli: ClientState, m: ServerMessage)
    ensures var a := Accepted(cli, m);
            Process(cli, m) == if cli.aborted then cli
                               else if a.aborted then a
                               else HandOver(a.(nextWanted := FirstMissing(a.events, a.nextWanted)))
  {
    hide Accepted;
    hide HandOver;
  }

  /** One datagram more, whichever it is: the client's output is still made of prefixes of the logs. */
  lemma ProcessOk(cli: ClientState, m: ServerMessage, logs: seq<GameLog>)
    requires ClientOk(cli, logs) && DistinctIds(logs) && ChunkOfLogs(m, logs)
    requires forall i | 0 <= i < |logs| :: NumberedLog(logs[i].events)
    ensures ClientOk(Process(cli, m), logs)
  {
    hide *;
    ProcessIs(cli, m);
    if !cli.aborted {
      var j := AcceptedFollows(cli, m, logs);
      var a := Accepted(cli, m);
      if !a.aborted {
        FinishFollows(a, logs[j]);
        SameRegistered(a, Process(cli, m), logs);
      }
      ClientOkFrom(Process(cli, m), logs, j);
    }
  }

  // ---- Nothing is held back ----

  lemma MissingIsUnique(events: map<nat, Event>, n: nat)
    requires n !in events && forall k | 0 <= k < n :: k in events
    ensures FirstMissing(events, 0) == n
  {
  }

  /** The client has handed over the events of the current game up to the first that has not arrived. */
  lemma NothingHeldBack(cli: ClientState, logs: seq<GameLog>)
    requires ClientOk(cli, logs) && cli.gameId != None && !cli.aborted
    ensures exists j | 0 <= j < |logs| ::
              && cli.gameId == Some(logs[j].id) && cli.blocks != [] && FirstMissing(cli.events, 0) <= |logs[j].events|
              && Last(cli.blocks) == GameLog(logs[j].id, logs[j].events[..FirstMissing(cli.events, 0)])
  {
    var j :| 0 <= j < |logs| && Following(cli, logs[j]);
    MissingIsUnique(cli.events, cli.nextWanted);
  }

  lemma {:induction false} ReadInArrives(cli: ClientState, es: seq<Event>)
    requires !ReadIn(cli, es).aborted && !cli.aborted
    ensures forall i | 0 <= i < |es| :: es[i].eventNo in ReadIn(cli, es).events
    decreases |es|
  {
    hide ValidEvent;
    if es != [] {
      var next := Keep(cli, es[0]);
      ReadInArrives(next, es[1..]);
      ReadInChanges(next, es[1..]);
      assert es[0].eventNo in next.events;
      forall i | 0 <= i < |es| ensures es[i].eventNo in ReadIn(cli, es).events {
        if i > 0 {
          assert es[i] == es[1..][i - 1];
        }
      }
    }
  }

  lemma HandOverKeepsEvents(cli: ClientState)
    ensures HandOver(cli).events == cli.events && HandOver(cli).aborted == cli.aborted
    decreases cli.nextWanted - cli.nextToSend
  {
    hide GuiLine;
    hide Handed;
  }

  /** A message of the current game that is not refused has arrived: its events are there, and none has been lost. */
  lemma MessageArrives(cli: ClientState, m: ServerMessage)
    requires !cli.aborted && cli.gameId == Some(m.gameId) && !Process(cli, m).aborted
    ensures forall i | 0 <= i < |m.events| :: m.events[i].eventNo in Process(cli, m).events
    ensures forall k | k in cli.events :: k in Process(cli, m).events && Process(cli, m).events[k] == cli.events[k]
  {
    ProcessIs(cli, m);
    AcceptedIs(cli, m);
    hide Process;
    hide ReadIn;
    hide HandOver;
    hide FirstMissing;
    hide Accepted;
    var a := ReadIn(cli, m.events);
    HandOverKeepsEvents(a.(nextWanted := FirstMissing(a.events, a.nextWanted)));
    ReadInArrives(cli, m.events);
    ReadInChanges(cli, m.events);
  }

  lemma NewClientOk(logs: seq<GameLog>)
    ensures ClientOk(NewClient(), logs)
  {
  }
}
