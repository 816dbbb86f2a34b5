/** The server's broadcast queue: one log on the air, games waiting behind it, and a cursor per client. */
module MessageQueue {
  import opened Bytes
  import opened Messages
  import opened Packing

  type Fingerprint = string

  datatype Waiting = Waiting(id: nat, events: seq<EventData>)

  /** The fields of MQManager; `current` is None until the first game is broadcast. */
  datatype MQ = MQ(
    current: Option<nat>,
    log: seq<Event>,
    nextGames: seq<Waiting>,
    queues: map<Fingerprint, nat>,
    schedule: seq<Fingerprint>)

  const EMPTY_MQ := MQ(None, [], [], map[], [])

  function WithNumbers(events: seq<EventData>): (es: seq<Event>)
    ensures |es| == |events| && forall i | 0 <= i < |es| :: es[i] == Event(i, events[i])
  {
    seq(|events|, i requires 0 <= i < |events| => Event(i, events[i]))
  }

  // ---- Operations ----

  function FindGame(games: seq<Waiting>, id: nat): (k: nat)
    ensures k <= |games| && (k < |games| ==> games[k].id == id)
    ensures forall i | 0 <= i < k :: games[i].id != id
  {
    if games == [] then 0 else if games[0].id == id then 0 else 1 + FindGame(games[1..], id)
  }

  function Schedule(q: MQ, id: nat, d: EventData): MQ {
    if q.current == Some(id) then q.(log := q.log + [Event(|q.log|, d)])
    else
      var k := FindGame(q.nextGames, id);
      if k < |q.nextGames| then q.(nextGames := q.nextGames[k := Waiting(id, q.nextGames[k].events + [d])])
      else q.(nextGames := q.nextGames + [Waiting(id, [d])])
  }

  predicate HasPending(q: MQ) {
    exists f | f in q.queues :: q.queues[f] < |q.log|
  }

  predicate IsEmpty(q: MQ) {
    !HasPending(q) && q.nextGames == []
  }

  /** Once nobody waits for the current log, the next game goes on the air and every cursor restarts. */
  function Advance(q: MQ): MQ {
    if !HasPending(q) && q.nextGames != [] then
      MQ(Some(q.nextGames[0].id), WithNumbers(q.nextGames[0].events), q.nextGames[1..],
         map f | f in q.queues :: 0, q.schedule)
    else q
  }

  predicate Pending(q: MQ, f: Fingerprint) {
    f in q.queues && q.queues[f] < |q.log|
  }

  /** The index of the first scheduled client with a pending message. */
  function FirstPending(q: MQ, schedule: seq<Fingerprint>): (k: nat)
    ensures k <= |schedule| && (k < |schedule| ==> Pending(q, schedule[k]))
    ensures forall i | 0 <= i < k :: !Pending(q, schedule[i])
  {
    if schedule == [] || Pending(q, schedule[0]) then 0 else 1 + FirstPending(q, schedule[1..])
  }

  datatype Outgoing = Outgoing(fingerprint: Fingerprint, ackNumber: nat, msg: ServerMessage)

  /** The round-robin: everyone up to and including the first pending client goes to the back. */
  function Served(q: MQ): MQ {
    var a := Advance(q);
    var k := FirstPending(a, a.schedule);
    if k < |a.schedule| then a.(schedule := a.schedule[k + 1..] + a.schedule[..k + 1]) else a
  }

  function ChunkFor(q: MQ, f: Fingerprint): Outgoing
    requires Pending(q, f) && q.current.Some?
  {
    var n := Fitting(q.log[q.queues[f]..], 4);
    Outgoing(f, q.queues[f] + n, ServerMessage(q.current.value, q.log[q.queues[f]..q.queues[f] + n]))
  }

  function NextMessage(q: MQ): Outgoing
    requires CanSend(q)
  {
    SomeonePending(q);
    var a := Advance(q);
    ChunkFor(a, a.schedule[FirstPending(a, a.schedule)])
  }

  function Min(a: nat, b: nat): nat {
    if a < b then a else b
  }

  /** Ignored while another game waits; a client without a queue is ignored too. */
  function Ack(q: MQ, f: Fingerprint, n: nat): MQ {
    if q.nextGames == [] && f in q.queues then q.(queues := q.queues[f := Min(|q.log|, n)]) else q
  }

  function RemoveFirst(s: seq<Fingerprint>, f: Fingerprint): seq<Fingerprint> {
    if s == [] then [] else if s[0] == f then s[1..] else [s[0]] + RemoveFirst(s[1..], f)
  }

  function Drop(q: MQ, f: Fingerprint): MQ {
    q.(queues := q.queues - {f}, schedule := RemoveFirst(q.schedule, f))
  }

  function Add(q: MQ, f: Fingerprint, n: nat): MQ {
    if f in q.queues then q else q.(queues := q.queues[f := Min(|q.log|, n)], schedule := q.schedule + [f])
  }

  // ---- The invariant ----

  predicate NoDuplicates(s: seq<Fingerprint>) {
    forall i, j | 0 <= i < j < |s| :: s[i] != s[j]
  }

  predicate NumberedLog(log: seq<Event>) {
    forall i | 0 <= i < |log| :: log[i].eventNo == i
  }

  ghost predicate Valid(q: MQ) {
    && NoDuplicates(q.schedule)
    && (forall f :: f in q.schedule <==> f in q.queues)
    && (forall f | f in q.queues :: q.queues[f] <= |q.log|)
    && NumberedLog(q.log)
    && (q.current == None ==> q.log == [])
    && (forall i | 0 <= i < |q.nextGames| :: q.nextGames[i].events != [])
  }

  /** What the driver checks before sending, and that somebody is connected. */
  ghost predicate CanSend(q: MQ) {
    Valid(q) && !IsEmpty(q) && q.schedule != []
  }

  lemma ScheduleValid(q: MQ, id: nat, d: EventData)
    requires Valid(q)
    ensures Valid(Schedule(q, id, d))
  {
  }

  lemma AdvanceValid(q: MQ)
    requires Valid(q)
    ensures Valid(Advance(q))
  {
    var a := Advance(q);
    assert a.queues.Keys == q.queues.Keys;
  }

  /** The rotation loop ends: somebody is pending. */
  lemma SomeonePending(q: MQ)
    requires CanSend(q)
    ensures var a := Advance(q);
            Valid(a) && a.current.Some? && a.schedule == q.schedule
            && FirstPending(a, a.schedule) < |a.schedule|
  {
    var a := Advance(q);
    AdvanceValid(q);
    if HasPending(q) {
      var f :| f in q.queues && q.queues[f] < |q.log|;
      assert Pending(a, f) && f in a.schedule;
    } else {
      assert Pending(a, a.schedule[0]);
    }
  }

  lemma ChunkGoesTo(q: MQ, f: Fingerprint)
    requires Pending(q, f) && q.current.Some?
    ensures ChunkFor(q, f).fingerprint == f
  {
  }

  lemma ServedIs(q: MQ, k: nat)
    requires k == FirstPending(Advance(q), Advance(q).schedule) < |Advance(q).schedule|
    ensures var a := Advance(q); Served(q) == a.(schedule := a.schedule[k + 1..] + a.schedule[..k + 1])
  {
    hide Advance;
    hide FirstPending;
  }

  lemma NextIs(q: MQ, k: nat)
    requires CanSend(q) && k == FirstPending(Advance(q), Advance(q).schedule)
    ensures k < |Advance(q).schedule| && Advance(q).current.Some? && Pending(Advance(q), Advance(q).schedule[k])
    ensures NextMessage(q) == ChunkFor(Advance(q), Advance(q).schedule[k])
  {
    SomeonePending(q);
    hide Advance;
    hide FirstPending;
    hide CanSend;
    hide ChunkFor;
  }

  lemma RotationKeeps(s: seq<Fingerprint>, k: nat)
    requires k <= |s| && NoDuplicates(s)
    ensures var t := s[k..] + s[..k]; NoDuplicates(t) && forall f :: f in t <==> f in s
  {
    var t := s[k..] + s[..k];
    forall i, j | 0 <= i < j < |t| ensures t[i] != t[j] {
      assert t[i] == s[if i < |s| - k then i + k else i - (|s| - k)];
      assert t[j] == s[if j < |s| - k then j + k else j - (|s| - k)];
    }
    assert s == s[..k] + s[k..];
  }

  lemma ServedValid(q: MQ)
    requires Valid(q)
    ensures Valid(Served(q))
  {
    hide Valid;
    hide Advance;
    hide Pending;
    var a := Advance(q);
    AdvanceValid(q);
    var k := FirstPending(a, a.schedule);
    if k < |a.schedule| {
      RotatedValid(a, k + 1);
    }
  }

  lemma RotatedValid(q: MQ, k: nat)
    requires Valid(q) && k <= |q.schedule|
    ensures Valid(q.(schedule := q.schedule[k..] + q.schedule[..k]))
  {
    RotationKeeps(q.schedule, k);
    hide NoDuplicates;
    hide NumberedLog;
  }

  lemma AckValid(q: MQ, f: Fingerprint, n: nat)
    requires Valid(q)
    ensures Valid(Ack(q, f, n))
  {
  }

  lemma {:induction false} RemoveFirstRemoves(s: seq<Fingerprint>, f: Fingerprint)
    requires NoDuplicates(s)
    ensures NoDuplicates(RemoveFirst(s, f)) && forall g :: g in RemoveFirst(s, f) <==> g in s && g != f
  {
    if s != [] {
      RemoveFirstRemoves(s[1..], f);
      assert forall g :: g in s <==> g == s[0] || g in s[1..];
      assert s[0] !in s[1..];
    }
  }

  lemma DropValid(q: MQ, f: Fingerprint)
    requires Valid(q)
    ensures Valid(Drop(q, f))
  {
    RemoveFirstRemoves(q.schedule, f);
  }

  lemma AddValid(q: MQ, f: Fingerprint, n: nat)
    requires Valid(q)
    ensures Valid(Add(q, f, n))
  {
  }
}
