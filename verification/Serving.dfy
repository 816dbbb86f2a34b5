/** What a client is served when the server just keeps sending, and when NEW_GAME travels alone. */
module Serving {
  import opened Bytes
  import opened Messages
  import opened Packing
  import opened MessageQueue
  import opened Grammar
  import opened Drain
  import opened Rendering

  // ---- Everybody's turn comes ----

  lemma SendIs(q: MQ)
    requires CanSend(q)
    ensures Send(q) == Ack(Served(q), NextMessage(q).fingerprint, NextMessage(q).ackNumber)
  {
    hide Ack;
    hide Served;
    hide CanSend;
    hide NextMessage;
  }

  lemma AckedOthers(q: MQ, g: Fingerprint, n: nat, f: Fingerprint)
    requires f in q.queues && q.nextGames == []
    ensures var r := Ack(q, g, n);
            f in r.queues && r.queues[f] == (if f == g then Min(|q.log|, n) else q.queues[f]) && r.log == q.log
  {
  }

  /** Where a send with nothing waiting leaves a client: further, if it was the one served, or where it was. */
  lemma SendLeaves(q: MQ, f: Fingerprint)
    requires Draining(q) && CanSend(q) && Pending(q, f) && q.current.Some?
    ensures NextMessage(q).fingerprint == f ==> NextMessage(q) == ChunkFor(q, f)
    ensures f in Send(q).queues && Send(q).log == q.log
    ensures Send(q).queues[f] == if NextMessage(q).fingerprint == f then ChunkFor(q, f).ackNumber else q.queues[f]
  {
    PendingMeans(q, f);
    hide *;
    var k := FirstPending(q, q.schedule);
    NothingToSwitchTo(q);
    SomeonePending(q);
    NextIs(q, k);
    ServedIs(q, k);
    ChunkGoesTo(q, q.schedule[k]);
    SendIs(q);
    AckedOthers(Served(q), NextMessage(q).fingerprint, NextMessage(q).ackNumber, f);
    ChunkBounds(q, f);
    NothingBigger(|q.log|, ChunkFor(q, f).ackNumber);
  }

  lemma NothingBigger(m: nat, n: nat)
    requires n <= m
    ensures Min(m, n) == n
  {
  }

  lemma ChunkBounds(q: MQ, f: Fingerprint)
    requires Pending(q, f) && q.current.Some?
    ensures ChunkFor(q, f).ackNumber <= |q.log|
  {
    hide Fitting;
  }

  lemma SameChunk(q: MQ, r: MQ, f: Fingerprint)
    requires Pending(q, f) && q.current.Some? && r.log == q.log && r.current == q.current
    requires f in r.queues && r.queues[f] == q.queues[f]
    ensures Pending(r, f) && ChunkFor(r, f) == ChunkFor(q, f)
  {
    hide Fitting;
  }

  lemma PendingCanSend(q: MQ, f: Fingerprint)
    requires Draining(q) && Pending(q, f)
    ensures CanSend(q) && q.current.Some?
  {
    assert f in q.schedule;
    hide AllFit;
  }

  /** The same game on the air with the same log, and nothing behind it. */
  ghost predicate SameBroadcast(q: MQ, r: MQ) {
    Draining(r) && r.log == q.log && r.current == q.current
  }

  lemma BroadcastGoesOn(q: MQ, r: MQ, s: MQ)
    requires SameBroadcast(q, r) && SameBroadcast(r, s)
    ensures SameBroadcast(q, s)
  {
    hide Draining;
  }

  lemma BroadcastMeans(q: MQ, r: MQ)
    ensures SameBroadcast(q, r) <==> Draining(r) && r.log == q.log && r.current == q.current
  {
    hide Draining;
  }

  /** A client that lags is served its next part before long: no send before that touches its cursor. */
  lemma {:induction false} ServedInTime(q: MQ, f: Fingerprint) returns (n: nat)
    requires Draining(q) && Pending(q, f) && q.current.Some?
    ensures var r := Sends(q, n);
            SameBroadcast(q, r) && CanSend(r) && NextMessage(r) == ChunkFor(q, f)
    ensures var r := Sends(q, n + 1);
            SameBroadcast(q, r) && f in r.queues && r.queues[f] == ChunkFor(q, f).ackNumber
    decreases Measure(q)
  {
    hide *;
    PendingCanSend(q, f);
    var r := Send(q);
    SendLeaves(q, f);
    SendWhenCaughtUp(q);
    BroadcastMeans(q, q);
    BroadcastMeans(q, r);
    if NextMessage(q).fingerprint == f {
      n := 0;
      NoSends(q);
      NoSends(r);
      SendFirst(q, 0);
    } else {
      PendingMeans(q, f);
      SameChunk(q, r, f);
      var m := ServedInTime(r, f);
      n := m + 1;
      SendFirst(q, m);
      SendFirst(q, m + 1);
      BroadcastGoesOn(q, r, Sends(r, m));
      BroadcastGoesOn(q, r, Sends(r, m + 1));
    }
  }

  lemma {:induction false} SendsLast(q: MQ, n: nat)
    ensures Sends(q, n + 1) == if CanSend(Sends(q, n)) then Send(Sends(q, n)) else Sends(q, n)
    decreases n
  {
    NoSends(q);
    hide *;
    if !CanSend(q) {
      CannotSend(q, n);
      CannotSend(q, n + 1);
    } else {
      SendFirst(q, n);
      if n > 0 {
        SendFirst(q, n - 1);
        SendsLast(Send(q), n - 1);
      } else {
        NoSends(Send(q));
      }
    }
  }

  lemma CannotSend(q: MQ, n: nat)
    requires !CanSend(q) || n == 0
    ensures Sends(q, n) == q
  {
    hide CanSend;
  }

  /** A game that goes on the air, once everybody has all of the one before. */
  lemma GoesOnAir(q: MQ, f: Fingerprint)
    requires Valid(q) && EverythingFits(q) && !HasPending(q) && |q.nextGames| == 1 && f in q.queues
    ensures var a := Advance(q);
            && a.current == Some(q.nextGames[0].id) && a.log == WithNumbers(q.nextGames[0].events)
            && Draining(a) && Pending(a, f) && a.queues[f] == 0 && a.schedule == q.schedule
    ensures CanSend(q)
  {
    AdvanceValid(q);
    assert f in q.schedule;
    hide WithNumbers;
  }

  lemma AdvancedSame(q: MQ)
    requires CanSend(q) && CanSend(Advance(q)) && Advance(q).nextGames == []
    ensures NextMessage(q) == NextMessage(Advance(q)) && Send(q) == Send(Advance(q))
  {
    var a := Advance(q);
    assert Advance(a) == a;
    hide Advance;
    hide CanSend;
    hide Ack;
    hide FirstPending;
    hide ChunkFor;
  }

  lemma DrainingMeans(q: MQ)
    ensures Draining(q) ==> q.nextGames == [] && Valid(q)
  {
    hide Valid;
    hide EverythingFits;
  }

  /** Everybody is served the new game from its first event on. */
  lemma FirstServed(q: MQ, f: Fingerprint) returns (n: nat)
    requires Valid(q) && EverythingFits(q) && !HasPending(q) && |q.nextGames| == 1 && f in q.queues
    ensures var a := Advance(q);
            && Pending(a, f) && a.current.Some?
            && CanSend(Sends(q, n)) && NextMessage(Sends(q, n)) == ChunkFor(a, f)
    ensures var a, r := Advance(q), Sends(q, n + 1);
            SameBroadcast(a, r) && f in r.queues && r.queues[f] == ChunkFor(a, f).ackNumber
  {
    hide *;
    var a := Advance(q);
    GoesOnAir(q, f);
    PendingCanSend(a, f);
    DrainingMeans(a);
    AdvancedSame(q);
    n := ServedInTime(a, f);
    SendFirst(q, n);
    SendFirst(a, n);
    NoSends(q);
    NoSends(a);
    if n > 0 {
      SendFirst(q, n - 1);
      SendFirst(a, n - 1);
    }
  }

  lemma {:induction false} SendsKeepBroadcast(q: MQ, n: nat)
    requires Draining(q)
    ensures SameBroadcast(q, Sends(q, n))
    decreases n
  {
    hide *;
    BroadcastMeans(q, q);
    if n == 0 || !CanSend(q) {
      CannotSend(q, n);
    } else {
      SendWhenCaughtUp(q);
      BroadcastMeans(q, Send(q));
      SendFirst(q, n - 1);
      SendsKeepBroadcast(Send(q), n - 1);
      BroadcastGoesOn(q, Send(q), Sends(q, n));
    }
  }

  // ---- NEW_GAME ----

  /** The size of the second event of a legal log, which is a PIXEL or a PLAYER_ELIMINATED. */
  lemma SecondSize(b: Board, log: seq<Event>)
    requires LogOk(b, log) && |log| >= 2
    ensures EncodedSize(log[1]) == if log[1].data.Pixel? then 22 else 14
  {
    SecondNeedsPlayers(b, log);
  }

  lemma FirstOnly(log: seq<Event>)
    requires log != [] && Fits(log[0])
    ensures Fitting(log, 4) >= 1
    ensures Fitting(log, 4) == 1 <==>
            |log| == 1 || 4 + EncodedSize(log[0]) + EncodedSize(log[1]) > MAX_UDP_DATA_FIELD_SIZE
  {
    hide EncodedSize;
    if |log| >= 2 {
      assert log[1..][0] == log[1];
    }
  }

  /** NEW_GAME and nothing else. */
  predicate OnlyNewGame(m: ServerMessage) {
    |m.events| == 1 && m.events[0].data.NewGame?
  }

  /** The list of players leaves no room for the event behind it. */
  predicate Crowding(log: seq<Event>) {
    log != [] && log[0].data.NewGame? &&
    (|log| == 1 || |log[0].data.field| > if log[1].data.Pixel? then 503 else 511)
  }

  lemma CrowdingMeans(b: Board, log: seq<Event>)
    requires LogOk(b, log)
    ensures log != [] && log[0].data.NewGame? && log[0].eventNo == 0
    ensures Crowding(log) <==> |log| == 1 || 4 + EncodedSize(log[0]) + EncodedSize(log[1]) > MAX_UDP_DATA_FIELD_SIZE
  {
    FirstIsNewGame(b, log);
    hide LogOk;
    hide Roster;
    if |log| >= 2 {
      SecondSize(b, log);
    }
  }

  lemma PartOfLog(q: MQ, f: Fingerprint)
    requires Pending(q, f) && q.current.Some?
    ensures var from, n := q.queues[f], Fitting(q.log[q.queues[f]..], 4);
            && from + n <= |q.log| && ChunkFor(q, f).msg == ServerMessage(q.current.value, q.log[from..from + n])
            && ChunkFor(q, f).ackNumber == from + n
  {
    hide Fitting;
  }

  lemma LaterIsNot(b: Board, log: seq<Event>, k: nat)
    requires LogOk(b, log) && 0 < k < |log|
    ensures !log[k].data.NewGame?
  {
    Between(b, log, k);
  }

  /** A client is sent NEW_GAME alone exactly if it has acknowledged nothing and the list of players is that long. */
  lemma AloneExactlyWhen(q: MQ, f: Fingerprint, b: Board)
    requires Pending(q, f) && q.current.Some? && b.Valid() && LogOk(b, q.log)
    ensures OnlyNewGame(ChunkFor(q, f).msg) <==> q.queues[f] == 0 && Crowding(q.log)
    ensures OnlyNewGame(ChunkFor(q, f).msg) ==>
              ChunkFor(q, f).msg == ServerMessage(q.current.value, [q.log[0]]) && ChunkFor(q, f).ackNumber == 1
  {
    hide *;
    PendingMeans(q, f);
    PartOfLog(q, f);
    CrowdingMeans(b, q.log);
    EventSendable(b, q.log, 0);
    FirstOnly(q.log);
    var from, n := q.queues[f], Fitting(q.log[q.queues[f]..], 4);
    OnlyMeans(ChunkFor(q, f).msg);
    if from == 0 {
      assert q.log[0..] == q.log && q.log[0..n][0] == q.log[0];
    } else {
      LaterIsNot(b, q.log, from);
      assert n > 0 ==> q.log[from..from + n][0] == q.log[from];
    }
  }

  lemma OnlyMeans(m: ServerMessage)
    ensures OnlyNewGame(m) <==> |m.events| == 1 && m.events[0].data.NewGame?
  {
  }

  /** Of any datagram the server sends next. */
  lemma SentAloneExactlyWhen(q: MQ, b: Board)
    requires CanSend(q) && b.Valid() && LogOk(b, Advance(q).log)
    ensures var f := NextMessage(q).fingerprint;
            && f in Advance(q).queues
            && (OnlyNewGame(NextMessage(q).msg) <==> Advance(q).queues[f] == 0 && Crowding(Advance(q).log))
  {
    hide *;
    var a := Advance(q);
    SomeonePending(q);
    NextIs(q, FirstPending(a, a.schedule));
    var f := a.schedule[FirstPending(a, a.schedule)];
    ChunkGoesTo(a, f);
    PendingMeans(a, f);
    AloneExactlyWhen(a, f, b);
  }
}
