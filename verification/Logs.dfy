/** The simple view of the broadcast queue: one append-only log per game, oldest game first. */
module Logs {
  import opened Bytes
  import opened Messages
  import opened Packing
  import opened MessageQueue

  datatype GameLog = GameLog(id: nat, events: seq<Event>)

  ghost predicate DistinctIds(logs: seq<GameLog>) {
    forall i, j | 0 <= i < j < |logs| :: logs[i].id != logs[j].id
  }

  /** Appends an event to the log of the game being played, numbered by its place. */
  function AppendEvent(logs: seq<GameLog>, d: EventData): seq<GameLog> {
    if logs == [] then logs
    else
      var last := logs[|logs| - 1];
      logs[|logs| - 1 := GameLog(last.id, last.events + [Event(|last.events|, d)])]
  }

  function OpenLog(logs: seq<GameLog>, id: nat, d: EventData): seq<GameLog> {
    logs + [GameLog(id, [Event(0, d)])]
  }

  /**
   * The queue holds a tail of the logs: the one on the air, then those that wait.
   * Logs before them have been broadcast and are gone.
   */
  ghost predicate Refines(q: MQ, logs: seq<GameLog>) {
    var n := |q.nextGames|;
    && n <= |logs|
    && (forall k | 0 <= k < n :: logs[|logs| - n + k] == GameLog(q.nextGames[k].id, WithNumbers(q.nextGames[k].events)))
    && match q.current
       case None => n == |logs| && q.log == []
       case Some(id) => n < |logs| && logs[|logs| - n - 1] == GameLog(id, q.log)
  }

  lemma NumbersAppended(events: seq<EventData>, d: EventData)
    ensures WithNumbers(events + [d]) == WithNumbers(events) + [Event(|events|, d)]
  {
  }

  /** With distinct numbers the game being played is the last of those that wait. */
  lemma LastWaits(q: MQ, logs: seq<GameLog>)
    requires Refines(q, logs) && DistinctIds(logs) && q.nextGames != []
    ensures logs != [] && FindGame(q.nextGames, logs[|logs| - 1].id) == |q.nextGames| - 1
    ensures q.current != Some(logs[|logs| - 1].id)
  {
    hide WithNumbers;
    var id, n := logs[|logs| - 1].id, |q.nextGames|;
    var k := FindGame(q.nextGames, id);
    assert q.nextGames[n - 1].id == id by {
      assert logs[|logs| - n + (n - 1)].id == q.nextGames[n - 1].id;
    }
    assert logs[|logs| - n + k].id == q.nextGames[k].id;
  }

  /** An event scheduled for the game being played lands in its log, at its end, and nowhere else. */
  lemma ScheduleRefines(q: MQ, logs: seq<GameLog>, d: EventData)
    requires Refines(q, logs) && DistinctIds(logs) && logs != []
    ensures Refines(Schedule(q, logs[|logs| - 1].id, d), AppendEvent(logs, d))
  {
    if |q.nextGames| > 0 {
      ScheduleWaiting(q, logs, d);
    } else {
      ScheduleOnAir(q, logs, d);
    }
  }

  lemma ScheduleWaiting(q: MQ, logs: seq<GameLog>, d: EventData)
    requires Refines(q, logs) && DistinctIds(logs) && logs != [] && q.nextGames != []
    ensures Refines(Schedule(q, logs[|logs| - 1].id, d), AppendEvent(logs, d))
  {
    var n := |q.nextGames|;
    LastWaits(q, logs);
    hide FindGame;
    hide DistinctIds;
    NumbersAppended(q.nextGames[n - 1].events, d);
    assert logs[|logs| - n + (n - 1)] == GameLog(q.nextGames[n - 1].id, WithNumbers(q.nextGames[n - 1].events));
    hide WithNumbers;
  }

  lemma ScheduleOnAir(q: MQ, logs: seq<GameLog>, d: EventData)
    requires Refines(q, logs) && logs != [] && q.nextGames == []
    ensures Refines(Schedule(q, logs[|logs| - 1].id, d), AppendEvent(logs, d))
  {
    hide FindGame;
  }

  /** The first event of a game with a new id opens a log behind all others. */
  lemma OpenRefines(q: MQ, logs: seq<GameLog>, id: nat, d: EventData)
    requires Refines(q, logs) && DistinctIds(OpenLog(logs, id, d))
    ensures Refines(Schedule(q, id, d), OpenLog(logs, id, d))
  {
    var n, after := |q.nextGames|, OpenLog(logs, id, d);
    forall k | 0 <= k < n ensures q.nextGames[k].id != id {
      assert after[|logs| - n + k].id != after[|logs|].id;
    }
    if q.current.Some? {
      assert after[|logs| - n - 1].id != after[|logs|].id;
    }
    assert WithNumbers([d]) == [Event(0, d)];
  }

  /** Going on the air moves a log unchanged. */
  lemma AdvanceRefines(q: MQ, logs: seq<GameLog>)
    requires Refines(q, logs)
    ensures Refines(Advance(q), logs)
  {
    var n := |q.nextGames|;
    if !HasPending(q) && n > 0 {
      assert logs[|logs| - n + 0].id == q.nextGames[0].id;
    }
  }

  lemma ServedRefines(q: MQ, logs: seq<GameLog>)
    requires Refines(q, logs)
    ensures Refines(Served(q), logs)
  {
    AdvanceRefines(q, logs);
  }

  lemma OthersRefine(q: MQ, logs: seq<GameLog>, f: Fingerprint, n: nat)
    requires Refines(q, logs)
    ensures Refines(Ack(q, f, n), logs) && Refines(Drop(q, f), logs) && Refines(Add(q, f, n), logs)
  {
  }

  /** A message is a run of consecutive events of one log. */
  ghost predicate IsChunk(m: ServerMessage, log: GameLog, from: nat) {
    && m.gameId == log.id
    && from + |m.events| <= |log.events|
    && m.events == log.events[from..from + |m.events|]
  }

  ghost predicate ChunkOfLogs(m: ServerMessage, logs: seq<GameLog>) {
    exists i: nat, from: nat | i < |logs| :: IsChunk(m, logs[i], from)
  }

  /** What is sent is a chunk of a log that fits in a datagram, and its end is what is acknowledged. */
  lemma MessageIsChunk(q: MQ, logs: seq<GameLog>)
    requires CanSend(q) && Refines(q, logs)
    ensures ChunkOfLogs(NextMessage(q).msg, logs)
    ensures 4 + TotalSize(NextMessage(q).msg.events) <= MAX_UDP_DATA_FIELD_SIZE
  {
    hide *;
    var a := Advance(q);
    AdvanceRefines(q, logs);
    SomeonePending(q);
    NextIs(q, FirstPending(a, a.schedule));
    ClientsChunk(a, logs, a.schedule[FirstPending(a, a.schedule)]);
  }

  lemma ClientsChunk(q: MQ, logs: seq<GameLog>, f: Fingerprint)
    requires Refines(q, logs) && Pending(q, f) && q.current.Some?
    ensures ChunkOfLogs(ChunkFor(q, f).msg, logs) && 4 + TotalSize(ChunkFor(q, f).msg.events) <= MAX_UDP_DATA_FIELD_SIZE
  {
    var out, from := ChunkFor(q, f), q.queues[f];
    FittingIsMaximal(q.log[from..], 4);
    hide Fitting;
    hide TotalSize;
    assert q.log[from..][..Fitting(q.log[from..], 4)] == out.msg.events;
    assert IsChunk(out.msg, logs[|logs| - |q.nextGames| - 1], from);
  }

  /** Logs only grow: old logs are kept, and each is a prefix of what it becomes. */
  ghost predicate Grown(logs: seq<GameLog>, later: seq<GameLog>) {
    && |logs| <= |later|
    && forall i | 0 <= i < |logs| :: logs[i].id == later[i].id && logs[i].events <= later[i].events
  }

  lemma GrownTransitive(a: seq<GameLog>, b: seq<GameLog>, c: seq<GameLog>)
    requires Grown(a, b) && Grown(b, c)
    ensures Grown(a, c)
  {
    forall i | 0 <= i < |a| ensures a[i].events <= c[i].events {
      assert b[i].events <= c[i].events;
    }
  }

  lemma ChunkStaysChunk(m: ServerMessage, logs: seq<GameLog>, later: seq<GameLog>)
    requires ChunkOfLogs(m, logs) && Grown(logs, later)
    ensures ChunkOfLogs(m, later)
  {
    var i: nat, from: nat :| i < |logs| && IsChunk(m, logs[i], from);
    assert logs[i].events == later[i].events[..|logs[i].events|];
    assert IsChunk(m, later[i], from);
  }
}
