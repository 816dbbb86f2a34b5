/** When repeated sending empties the queue, and when it never does. */
module Drain {
  import opened Messages
  import opened Packing
  import opened MessageQueue

  /** sendMessageToClient with a successful sendto: take the next datagram and acknowledge it for the client. */
  function Send(q: MQ): MQ
    requires CanSend(q)
  {
    var out := NextMessage(q);
    Ack(Served(q), out.fingerprint, out.ackNumber)
  }

  lemma SendValid(q: MQ)
    requires CanSend(q)
    ensures Valid(Send(q)) && |Send(q).schedule| == |q.schedule|
  {
    hide IsEmpty;
    hide Served;
    hide Ack;
    hide NextMessage;
    ServedValid(q);
    AckValid(Served(q), NextMessage(q).fingerprint, NextMessage(q).ackNumber);
    SendSchedule(q);
  }

  lemma SendSchedule(q: MQ)
    requires CanSend(q)
    ensures |Send(q).schedule| == |q.schedule|
  {
    SomeonePending(q);
  }

  /** Every event, on the air or waiting, fits in a datagram. */
  predicate EverythingFits(q: MQ) {
    AllFit(q.log) && forall i | 0 <= i < |q.nextGames| :: AllFit(WithNumbers(q.nextGames[i].events))
  }

  // ---- The measure: how much of the log the clients have not got yet ----

  function Deficit(schedule: seq<Fingerprint>, queues: map<Fingerprint, nat>, length: nat): nat {
    if schedule == [] then 0
    else
      var f := schedule[0];
      (if f in queues && queues[f] < length then length - queues[f] else 0) + Deficit(schedule[1..], queues, length)
  }

  lemma {:induction false} DeficitOfConcat(s: seq<Fingerprint>, t: seq<Fingerprint>, queues: map<Fingerprint, nat>,
      length: nat)
    ensures Deficit(s + t, queues, length) == Deficit(s, queues, length) + Deficit(t, queues, length)
  {
    if s == [] {
      assert s + t == t;
    } else {
      assert (s + t)[1..] == s[1..] + t;
      DeficitOfConcat(s[1..], t, queues, length);
    }
  }

  lemma DeficitOfRotation(s: seq<Fingerprint>, k: nat, queues: map<Fingerprint, nat>, length: nat)
    requires k <= |s|
    ensures Deficit(s[k..] + s[..k], queues, length) == Deficit(s, queues, length)
  {
    DeficitOfConcat(s[k..], s[..k], queues, length);
    DeficitOfConcat(s[..k], s[k..], queues, length);
    assert s == s[..k] + s[k..];
  }

  lemma {:induction false} DeficitOfUpdate(s: seq<Fingerprint>, queues: map<Fingerprint, nat>, length: nat,
      f: Fingerprint, n: nat)
    requires NoDuplicates(s) && f in queues && queues[f] <= n <= length
    ensures var d, d' := Deficit(s, queues, length), Deficit(s, queues[f := n], length);
            if f in s then d == d' + n - queues[f] else d == d'
  {
    if s != [] {
      DeficitOfUpdate(s[1..], queues, length, f, n);
      assert s[0] !in s[1..];
      assert f in s <==> f == s[0] || f in s[1..];
    }
  }

  function Measure(q: MQ): nat {
    Deficit(q.schedule, q.queues, |q.log|)
  }

  // ---- With nothing waiting, every send is progress ----

  ghost predicate Draining(q: MQ) {
    Valid(q) && q.nextGames == [] && EverythingFits(q)
  }

  /** The next datagram of a client is not empty. */
  lemma ChunkNotEmpty(q: MQ, f: Fingerprint)
    requires Valid(q) && Pending(q, f) && AllFit(q.log)
    ensures 0 < Fitting(q.log[q.queues[f]..], 4) <= |q.log| - q.queues[f]
  {
    assert Fits(q.log[q.queues[f]]);
  }

  /** What a send does: one client's cursor advances, and the schedule rotates past it. */
  lemma SendShape(q: MQ) returns (k: nat, n: nat)
    requires Draining(q) && CanSend(q)
    ensures k < |q.schedule| && q.schedule[k] in q.queues && q.queues[q.schedule[k]] < n <= |q.log|
    ensures Send(q) == q.(schedule := q.schedule[k + 1..] + q.schedule[..k + 1], queues := q.queues[q.schedule[k] := n])
  {
    hide *;
    SomeonePending(q);
    NothingToSwitchTo(q);
    k := FirstPending(q, q.schedule);
    PendingMeans(q, q.schedule[k]);
    ChunkNotEmpty(q, q.schedule[k]);
    n := q.queues[q.schedule[k]] + Fitting(q.log[q.queues[q.schedule[k]]..], 4);
    SendUnfolds(q, k, n);
  }

  lemma NothingToSwitchTo(q: MQ)
    requires Draining(q)
    ensures Advance(q) == q && Valid(q) && AllFit(q.log) && q.nextGames == []
  {
    hide HasPending;
    hide Valid;
    hide AllFit;
  }

  lemma PendingMeans(q: MQ, f: Fingerprint)
    requires Pending(q, f)
    ensures f in q.queues && q.queues[f] < |q.log|
  {
  }

  lemma SendUnfolds(q: MQ, k: nat, n: nat)
    requires CanSend(q) && Advance(q) == q && q.nextGames == [] && k == FirstPending(q, q.schedule) < |q.schedule|
    requires q.schedule[k] in q.queues
    requires n == q.queues[q.schedule[k]] + Fitting(q.log[q.queues[q.schedule[k]]..], 4) <= |q.log|
    ensures Send(q) == q.(schedule := q.schedule[k + 1..] + q.schedule[..k + 1], queues := q.queues[q.schedule[k] := n])
  {
    hide Advance;
    hide FirstPending;
    hide CanSend;
    hide Fitting;
  }

  lemma SendWhenCaughtUp(q: MQ)
    requires Draining(q) && CanSend(q)
    ensures Draining(Send(q)) && Send(q).log == q.log && Send(q).current == q.current
    ensures Measure(Send(q)) < Measure(q)
  {
    hide Send;
    hide CanSend;
    hide HasPending;
    hide Deficit;
    SendValid(q);
    var k, n := SendShape(q);
    var f, s := q.schedule[k], q.schedule[k + 1..] + q.schedule[..k + 1];
    RotationKeeps(q.schedule, k + 1);
    assert f in s;
    DeficitOfRotation(q.schedule, k + 1, q.queues, |q.log|);
    DeficitOfUpdate(s, q.queues, |q.log|, f, n);
  }

  // ---- Repeated sending ----

  /** The driver's loop: n times, send if there is anything to send. */
  ghost function Sends(q: MQ, n: nat): MQ
    decreases n
  {
    if n == 0 || !CanSend(q) then q else Sends(Send(q), n - 1)
  }

  /** Ends with every cursor at the end of an unchanged log. */
  ghost predicate Drained(q: MQ, log: seq<Event>) {
    q.log == log && q.nextGames == [] && forall f | f in q.queues :: q.queues[f] == |log|
  }

  lemma NothingToSend(q: MQ)
    requires Draining(q) && IsEmpty(q)
    ensures Drained(q, q.log)
  {
  }

  lemma SendFirst(q: MQ, m: nat)
    requires CanSend(q)
    ensures Sends(q, m + 1) == Sends(Send(q), m)
  {
    hide Send;
    hide CanSend;
  }

  lemma CanSendUnlessEmpty(q: MQ)
    requires Draining(q) && q.schedule != [] && !IsEmpty(q)
    ensures CanSend(q)
  {
  }

  /** Each send lowers the measure, so at most that many empty the queue. */
  lemma {:induction false} DrainsWhenCaughtUp(q: MQ) returns (n: nat)
    requires Draining(q) && q.schedule != []
    ensures n <= Measure(q) && IsEmpty(Sends(q, n)) && Drained(Sends(q, n), q.log)
    decreases Measure(q)
  {
    hide *;
    if IsEmpty(q) {
      n := 0;
      NothingToSend(q);
      NoSends(q);
    } else {
      CanSendUnlessEmpty(q);
      SendWhenCaughtUp(q);
      SendValid(q);
      var m := DrainsWhenCaughtUp(Send(q));
      n := m + 1;
      SendFirst(q, m);
    }
  }

  lemma NoSends(q: MQ)
    ensures Sends(q, 0) == q
  {
  }

  /** With something pending and a game waiting, acknowledgements are ignored: nobody ever advances. */
  ghost predicate Stuck(q: MQ) {
    Valid(q) && HasPending(q) && q.nextGames != [] && q.schedule != []
  }

  lemma StuckStays(q: MQ)
    requires Stuck(q)
    ensures CanSend(q) && Stuck(Send(q)) && Send(q).queues == q.queues && Send(q).log == q.log
  {
    SomeonePending(q);
    SendValid(q);
  }

  lemma {:induction false} StuckForever(q: MQ, n: nat)
    requires Stuck(q)
    ensures Stuck(Sends(q, n)) && Sends(q, n).queues == q.queues
    decreases n
  {
    hide *;
    if n == 0 {
      NoSends(q);
    } else {
      StuckStays(q);
      SendFirst(q, n - 1);
      StuckForever(Send(q), n - 1);
    }
  }

  lemma StuckIsNotEmpty(q: MQ)
    requires Stuck(q)
    ensures !IsEmpty(q)
  {
  }

  /** The guard under which sending alone gets everything delivered. */
  predicate Drainable(q: MQ) {
    q.nextGames == [] || (|q.nextGames| == 1 && !HasPending(q))
  }

  lemma FirstSendSwitches(q: MQ)
    requires Valid(q) && EverythingFits(q) && q.schedule != [] && !HasPending(q) && q.nextGames != []
    ensures CanSend(q) && Send(q).schedule != []
    ensures |q.nextGames| == 1 ==> Draining(Send(q)) && Send(q).log == WithNumbers(q.nextGames[0].events)
    ensures |q.nextGames| > 1 ==> Stuck(Send(q))
  {
    SomeonePending(q);
    SendValid(q);
    var a := Advance(q);
    var k := FirstPending(a, a.schedule);
    if |q.nextGames| > 1 {
      assert a.schedule[k] in Send(q).queues && Send(q).queues[a.schedule[k]] < |Send(q).log|;
    } else {
      assert Send(q).log == a.log == WithNumbers(q.nextGames[0].events);
    }
  }

  /** Sending alone empties the queue exactly when no game waits, or one does and everybody is up to date. */
  lemma DrainsExactlyWhenDrainable(q: MQ)
    requires Valid(q) && EverythingFits(q) && q.schedule != []
    ensures Drainable(q) <==> exists n: nat :: IsEmpty(Sends(q, n))
  {
    if q.nextGames == [] {
      var n := DrainsWhenCaughtUp(q);
    } else if HasPending(q) {
      NeverDrains(q);
    } else {
      FirstSendSwitches(q);
      hide Send;
      if |q.nextGames| == 1 {
        var m := DrainsWhenCaughtUp(Send(q));
        SendFirst(q, m);
        assert IsEmpty(Sends(q, m + 1));
      } else {
        NeverDrains(Send(q));
        forall n: nat ensures !IsEmpty(Sends(q, n)) {
          if n > 0 {
            SendFirst(q, n - 1);
          }
        }
      }
    }
  }

  lemma NeverDrains(q: MQ)
    requires Stuck(q)
    ensures forall n: nat :: !IsEmpty(Sends(q, n))
  {
    hide *;
    forall n: nat ensures !IsEmpty(Sends(q, n)) {
      StuckForever(q, n);
      StuckIsNotEmpty(Sends(q, n));
    }
  }
}
