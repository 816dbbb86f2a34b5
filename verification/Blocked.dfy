/** How a client that lags behind keeps the next game off the air, whatever else happens to the queue. */
module Blocked {
  import opened Bytes
  import opened Messages
  import opened MessageQueue
  import opened Fairness
  import Drain

  /** A game waits, and this client has not acknowledged everything on the air. */
  ghost predicate Blocks(q: MQ, f: Fingerprint) {
    Valid(q) && Pending(q, f) && q.nextGames != []
  }

  lemma StuckMeans(q: MQ)
    requires Valid(q)
    ensures Drain.Stuck(q) <==> exists f :: Blocks(q, f)
  {
    if Drain.Stuck(q) {
      var f :| f in q.queues && q.queues[f] < |q.log|;
      assert Blocks(q, f);
    }
    if f :| Blocks(q, f) {
      assert f in q.schedule;
    }
  }

  /** When a new game makes the queue stuck. */
  lemma NewGameBlocks(q: MQ, id: nat, d: EventData)
    requires Valid(q) && q.schedule != [] && q.current != Some(id)
    ensures Drain.Stuck(Schedule(q, id, d)) <==> HasPending(q)
  {
    ScheduleValid(q, id, d);
  }

  /** The same game on the air, with at most more events, and nobody nearer to the next one. */
  ghost predicate SameGame(q: MQ, r: MQ, f: Fingerprint) {
    && r.current == q.current && q.log <= r.log
    && f in q.queues && f in r.queues && r.queues[f] == q.queues[f]
    && |q.nextGames| <= |r.nextGames|
  }

  /** Only losing the client ends the blockade; nothing else moves its cursor or the game on the air. */
  lemma BlockedStep(q: MQ, op: Op, f: Fingerprint)
    requires Blocks(q, f)
    ensures Blocks(Step(q, op), f) <==> op != OpDrop(f)
    ensures op != OpDrop(f) ==> SameGame(q, Step(q, op), f)
  {
    hide *;
    BlocksMeans(q, f);
    BlocksMeans(Step(q, op), f);
    StepValid(q, op);
    if op == OpDrop(f) {
      DroppedIsGone(q, f);
    } else {
      StepSameGame(q, op, f);
      StillBlocks(q, Step(q, op), f);
    }
  }

  lemma BlocksMeans(q: MQ, f: Fingerprint)
    ensures Blocks(q, f) <==> Valid(q) && Pending(q, f) && q.nextGames != []
  {
    hide Valid;
    hide Pending;
  }

  lemma DroppedIsGone(q: MQ, f: Fingerprint)
    ensures !Pending(Step(q, OpDrop(f)), f)
  {
    hide RemoveFirst;
  }

  lemma StillBlocks(q: MQ, r: MQ, f: Fingerprint)
    requires Pending(q, f) && q.nextGames != [] && SameGame(q, r, f)
    ensures Pending(r, f) && r.nextGames != []
  {
  }

  lemma StepSameGame(q: MQ, op: Op, f: Fingerprint)
    requires Pending(q, f) && q.nextGames != [] && op != OpDrop(f)
    ensures SameGame(q, Step(q, op), f)
  {
    hide Valid;
    hide RemoveFirst;
    match op
    case OpSchedule(_, _) =>
    case OpSend => BlockedSend(q);
    case OpAck(_, _) =>
    case OpDrop(_) =>
    case OpAdd(_, _) =>
  }

  /** With somebody lagging, a send only rotates the schedule. */
  lemma BlockedSend(q: MQ)
    requires HasPending(q)
    ensures Served(q) == q.(schedule := Served(q).schedule)
  {
    hide FirstPending;
  }

  ghost function StepAll(q: MQ, ops: seq<Op>): MQ {
    if ops == [] then q else Step(StepAll(q, ops[..|ops| - 1]), ops[|ops| - 1])
  }

  lemma SameGameTwice(q: MQ, r: MQ, s: MQ, f: Fingerprint)
    requires SameGame(q, r, f) && SameGame(r, s, f)
    ensures SameGame(q, s, f)
  {
  }

  /** Over any run of operations, acknowledgements by any client included. */
  lemma {:induction false} BlockedForever(q: MQ, ops: seq<Op>, f: Fingerprint)
    requires Blocks(q, f) && OpDrop(f) !in ops
    ensures Blocks(StepAll(q, ops), f) && SameGame(q, StepAll(q, ops), f)
    decreases |ops|
  {
    hide Step;
    hide Blocks;
    if ops == [] {
      SameGameItself(q, f);
    } else {
      var n := |ops| - 1;
      BlockedForever(q, ops[..n], f);
      BlockedStep(StepAll(q, ops[..n]), ops[n], f);
      SameGameTwice(q, StepAll(q, ops[..n]), StepAll(q, ops), f);
    }
  }

  lemma SameGameItself(q: MQ, f: Fingerprint)
    requires Blocks(q, f)
    ensures SameGame(q, q, f)
  {
  }

  lemma StepAllLast(q: MQ, ops: seq<Op>, k: nat)
    requires k < |ops|
    ensures StepAll(q, ops[..k + 1]) == Step(StepAll(q, ops[..k]), ops[k])
  {
    assert ops[..k + 1][..k] == ops[..k];
    hide Step;
  }

  /** A client blocks the next game all along a run exactly if the run does not drop it. */
  lemma BlockedUntilDropped(q: MQ, ops: seq<Op>, f: Fingerprint)
    requires Blocks(q, f)
    ensures (forall k | 0 <= k <= |ops| :: Blocks(StepAll(q, ops[..k]), f)) <==> OpDrop(f) !in ops
  {
    hide *;
    if OpDrop(f) !in ops {
      forall k | 0 <= k <= |ops| ensures Blocks(StepAll(q, ops[..k]), f) {
        BlockedForever(q, ops[..k], f);
      }
    } else {
      var k :| 0 <= k < |ops| && ops[k] == OpDrop(f);
      StepAllLast(q, ops, k);
      if Blocks(StepAll(q, ops[..k]), f) {
        BlockedStep(StepAll(q, ops[..k]), ops[k], f);
      }
    }
  }

  // ---- It happens ----

  const BOTH: seq<Fingerprint> := ["host_1", "host_2"]

  /** Two clients, and a game with one event. */
  const EARLY: MQ := MQ(None, [], [Waiting(1, [GameOver])], map["host_1" := 0, "host_2" := 0], BOTH)

  /** The event has reached one of the clients when the next game starts. */
  const LATE: MQ :=
    MQ(Some(1), [Event(0, GameOver)], [Waiting(2, [GameOver])], map["host_1" := 1, "host_2" := 0], ["host_2", "host_1"])

  const UNTIL_LATE: seq<Op> := [OpSend, OpAck("host_1", 1), OpSchedule(2, GameOver)]

  lemma EarlyIs()
    ensures EARLY == Schedule(Add(Add(EMPTY_MQ, "host_1", 0), "host_2", 0), 1, GameOver)
  {
  }

  lemma EarlyCanSend()
    ensures CanSend(EARLY)
  {
    AddValid(EMPTY_MQ, "host_1", 0);
    AddValid(Add(EMPTY_MQ, "host_1", 0), "host_2", 0);
    ScheduleValid(Add(Add(EMPTY_MQ, "host_1", 0), "host_2", 0), 1, GameOver);
    EarlyIs();
    hide Valid;
    hide Add;
    hide Schedule;
  }

  lemma EarlyAdvances()
    ensures Advance(EARLY) == EARLY.(current := Some(1), log := [Event(0, GameOver)], nextGames := [])
  {
    assert WithNumbers([GameOver]) == [Event(0, GameOver)];
  }

  lemma EarlySends()
    ensures Step(EARLY, OpSend) ==
            MQ(Some(1), [Event(0, GameOver)], [], map["host_1" := 0, "host_2" := 0], ["host_2", "host_1"])
  {
    EarlyCanSend();
    EarlyAdvances();
    hide Advance;
    hide CanSend;
    assert FirstPending(Advance(EARLY), BOTH) == 0;
    assert BOTH[1..] + BOTH[..1] == ["host_2", "host_1"];
  }

  lemma LateSteps()
    ensures StepAll(EARLY, UNTIL_LATE) == Step(Step(Step(EARLY, OpSend), OpAck("host_1", 1)), OpSchedule(2, GameOver))
  {
    hide Step;
    hide EARLY;
    StepAllLast(EARLY, UNTIL_LATE, 0);
    StepAllLast(EARLY, UNTIL_LATE, 1);
    StepAllLast(EARLY, UNTIL_LATE, 2);
    assert StepAll(EARLY, UNTIL_LATE[..0]) == EARLY;
    assert UNTIL_LATE[..3] == UNTIL_LATE;
  }

  lemma LateIs()
    ensures StepAll(EARLY, UNTIL_LATE) == LATE
  {
    EarlySends();
    LateSteps();
    hide StepAll;
    hide Served;
    hide CanSend;
    hide EARLY;
    var q := Step(EARLY, OpSend);
    assert Step(q, OpAck("host_1", 1)) == q.(queues := LATE.queues);
  }

  /** The blockade is real: two clients join, a game starts, one of them is sent its event, and the next game starts. */
  lemma StuckHappens()
    ensures EARLY == Schedule(Add(Add(EMPTY_MQ, "host_1", 0), "host_2", 0), 1, GameOver)
    ensures Blocks(StepAll(EARLY, UNTIL_LATE), "host_2") && Drain.Stuck(StepAll(EARLY, UNTIL_LATE))
  {
    EarlyIs();
    LateIs();
    StuckMeans(LATE);
    assert Blocks(LATE, "host_2");
  }
}
