/** Bounded overtaking: how long a client with something to receive waits for its turn. */
module Fairness {
  import opened Messages
  import opened MessageQueue

  /** Every operation the game manager and the driver perform on the queue. */
  datatype Op =
    | OpSchedule(id: nat, data: EventData)
    | OpSend
    | OpAck(f: Fingerprint, n: nat)
    | OpDrop(f: Fingerprint)
    | OpAdd(f: Fingerprint, n: nat)

  ghost function Step(q: MQ, op: Op): MQ {
    match op
    case OpSchedule(id, d) => Schedule(q, id, d)
    case OpSend => if CanSend(q) then Served(q) else q
    case OpAck(f, n) => Ack(q, f, n)
    case OpDrop(f) => Drop(q, f)
    case OpAdd(f, n) => Add(q, f, n)
  }

  lemma StepValid(q: MQ, op: Op)
    requires Valid(q)
    ensures Valid(Step(q, op))
  {
    match op
    case OpSchedule(id, d) => ScheduleValid(q, id, d);
    case OpSend => ServedValid(q);
    case OpAck(f, n) => AckValid(q, f, n);
    case OpDrop(f) => DropValid(q, f);
    case OpAdd(f, n) => AddValid(q, f, n);
  }

  ghost predicate At(q: MQ, f: Fingerprint, p: nat) {
    p < |q.schedule| && q.schedule[p] == f
  }

  /**
   * Where a send takes every client: the served one to the back, those it overtook just before it, the rest forward.
   */
  lemma SendMoves(q: MQ, f: Fingerprint, p: nat)
    requires CanSend(q) && At(q, f, p)
    ensures var a := Advance(q);
            var k := FirstPending(a, a.schedule);
            && k < |q.schedule| && NextMessage(q).fingerprint == q.schedule[k]
            && (p > k ==> At(Served(q), f, p - k - 1))
            && (p <= k ==> At(Served(q), f, |q.schedule| - 1 - (k - p)))
            && (Pending(a, f) ==> k <= p)
            && (k == p <==> NextMessage(q).fingerprint == f)
  {
    hide *;
    var a := Advance(q);
    var k := FirstPending(a, a.schedule);
    SomeonePending(q);
    NextIs(q, k);
    ServedIs(q, k);
    ChunkGoesTo(a, a.schedule[k]);
    AtMeans(q, f, p);
    ScheduledOnce(a, k, p);
    RotatedAt(q.schedule, k + 1, p);
    AtMeans(Served(q), f, if p > k then p - k - 1 else |q.schedule| - 1 - (k - p));
    assert Pending(a, f) ==> k <= p;
  }

  lemma AtMeans(q: MQ, f: Fingerprint, p: nat)
    ensures At(q, f, p) <==> p < |q.schedule| && q.schedule[p] == f
  {
  }

  lemma ScheduledOnce(q: MQ, i: nat, j: nat)
    requires Valid(q) && i < |q.schedule| && j < |q.schedule|
    ensures i == j <==> q.schedule[i] == q.schedule[j]
  {
    hide NumberedLog;
  }

  lemma RotatedAt(s: seq<Fingerprint>, n: nat, p: nat)
    requires n <= |s| && p < |s|
    ensures var t := s[n..] + s[..n];
            |t| == |s| && if p >= n then t[p - n] == s[p] else t[|s| - n + p] == s[p]
  {
  }

  /** A client with something to receive is served or moves strictly forward. */
  lemma PendingMovesForward(q: MQ, f: Fingerprint, p: nat)
    requires CanSend(q) && At(q, f, p) && Pending(Advance(q), f) && NextMessage(q).fingerprint != f
    ensures 0 < p && exists p': nat | p' < p :: At(Served(q), f, p')
  {
    hide *;
    SendMoves(q, f, p);
    var a := Advance(q);
    assert At(Served(q), f, p - FirstPending(a, a.schedule) - 1);
  }

  lemma {:induction false} RemoveFirstShifts(s: seq<Fingerprint>, f: Fingerprint, g: Fingerprint, p: nat)
    requires p < |s| && s[p] == f && f != g
    ensures exists p': nat | p' <= p :: p' < |RemoveFirst(s, g)| && RemoveFirst(s, g)[p'] == f
  {
    if s[0] == g {
      assert RemoveFirst(s, g)[p - 1] == f;
    } else if p == 0 {
      assert RemoveFirst(s, g)[0] == f;
    } else {
      RemoveFirstShifts(s[1..], f, g, p - 1);
      var p': nat :| p' <= p - 1 && p' < |RemoveFirst(s[1..], g)| && RemoveFirst(s[1..], g)[p'] == f;
      assert RemoveFirst(s, g)[p' + 1] == f;
    }
  }

  /** No operation but a send that passes over it, or its own removal, moves a client back. */
  lemma OthersMoveForward(q: MQ, op: Op, f: Fingerprint, p: nat)
    requires Valid(q) && At(q, f, p) && !op.OpSend? && op != OpDrop(f)
    ensures exists p': nat | p' <= p :: At(Step(q, op), f, p')
  {
    match op
    case OpDrop(g) =>
      RemoveFirstShifts(q.schedule, f, g, p);
      var p': nat :| p' <= p && p' < |RemoveFirst(q.schedule, g)| && RemoveFirst(q.schedule, g)[p'] == f;
      assert At(Step(q, op), f, p');
    case OpSchedule(_, _) => assert At(Step(q, op), f, p);
    case OpAck(_, _) => assert At(Step(q, op), f, p);
    case OpAdd(_, _) => assert At(Step(q, op), f, p);
  }

  /** Along the run, whenever something is sent `f` has something to receive but another client is served. */
  ghost predicate KeepsWaiting(q: MQ, ops: seq<Op>, f: Fingerprint)
    decreases |ops|
  {
    ops == [] ||
    (&& ops[0] != OpDrop(f)
     && (ops[0] == OpSend && CanSend(q) ==> Pending(Advance(q), f) && NextMessage(q).fingerprint != f)
     && KeepsWaiting(Step(q, ops[0]), ops[1..], f))
  }

  ghost function Sends(q: MQ, ops: seq<Op>): nat
    decreases |ops|
  {
    if ops == [] then 0
    else (if ops[0] == OpSend && CanSend(q) then 1 else 0) + Sends(Step(q, ops[0]), ops[1..])
  }

  /**
   * Bounded overtaking: over any run of queue operations a client at position p that always has something to
   * receive sees at most p datagrams go to others before its own.
   */
  lemma {:induction false} BoundedOvertaking(q: MQ, ops: seq<Op>, f: Fingerprint, p: nat)
    requires Valid(q) && At(q, f, p) && KeepsWaiting(q, ops, f)
    ensures Sends(q, ops) <= p < |q.schedule|
    decreases |ops|
  {
    if ops != [] {
      hide Advance;
      hide FirstPending;
      hide Served;
      var op := ops[0];
      StepValid(q, op);
      if op == OpSend && CanSend(q) {
        PendingMovesForward(q, f, p);
        var p': nat :| p' < p && At(Served(q), f, p');
        BoundedOvertaking(Step(q, op), ops[1..], f, p');
      } else if op == OpSend {
        BoundedOvertaking(q, ops[1..], f, p);
      } else {
        OthersMoveForward(q, op, f, p);
        var p': nat :| p' <= p && At(Step(q, op), f, p');
        BoundedOvertaking(Step(q, op), ops[1..], f, p');
      }
    }
  }
}
