/** The broadcast queue as the code runs it: fields updated in place, loops over the clients. */
module MQManagers {
  import opened Bytes
  import opened Messages
  import opened Packing
  import opened MessageQueue

  lemma RotatedOnce(s: seq<Fingerprint>, i: nat)
    requires i < |s|
    ensures (s[i..] + s[..i])[0] == s[i] && (s[i..] + s[..i])[1..] + [s[i]] == s[i + 1..] + s[..i + 1]
  {
  }

  lemma ScheduledHaveQueues(q: MQ)
    requires Valid(q)
    ensures forall i | 0 <= i < |q.schedule| :: q.schedule[i] in q.queues
  {
  }

  lemma ServedSchedule(q: MQ)
    requires CanSend(q)
    ensures var a := Advance(q);
            var k := FirstPending(a, a.schedule);
            && k < |a.schedule| && Pending(a, a.schedule[k]) && a.current.Some?
            && Served(q) == a.(schedule := a.schedule[k + 1..] + a.schedule[..k + 1])
            && NextMessage(q) == ChunkFor(a, a.schedule[k])
            && (forall i | 0 <= i < |a.schedule| :: a.schedule[i] in a.queues)
  {
    hide *;
    SomeonePending(q);
    var k := FirstPending(Advance(q), Advance(q).schedule);
    NextIs(q, k);
    ServedIs(q, k);
    ScheduledHaveQueues(Advance(q));
  }

  lemma NobodyEarlier(q: MQ, k: nat)
    requires k == FirstPending(q, q.schedule)
    ensures forall i | 0 <= i < k :: !Pending(q, q.schedule[i])
  {
  }

  lemma {:induction false} FirstRemoved(s: seq<Fingerprint>, f: Fingerprint, k: nat)
    requires k < |s| && s[k] == f && forall i | 0 <= i < k :: s[i] != f
    ensures RemoveFirst(s, f) == s[..k] + s[k + 1..]
  {
    if k > 0 {
      FirstRemoved(s[1..], f, k - 1);
    }
  }

  lemma {:induction false} NothingRemoved(s: seq<Fingerprint>, f: Fingerprint)
    requires forall i | 0 <= i < |s| :: s[i] != f
    ensures RemoveFirst(s, f) == s
  {
    if s != [] {
      NothingRemoved(s[1..], f);
    }
  }

  class MQManager {
    var nextGames: seq<Waiting>
    var queues: map<Fingerprint, nat>
    var clientsToServeSchedule: seq<Fingerprint>
    var currentGameEvents: seq<Event>
    var currentlyBroadcastedGameId: Option<nat>

    function State(): MQ
      reads this
    {
      MQ(currentlyBroadcastedGameId, currentGameEvents, nextGames, queues, clientsToServeSchedule)
    }

    constructor ()
      ensures State() == EMPTY_MQ
    {
      nextGames, queues, clientsToServeSchedule := [], map[], [];
      currentGameEvents, currentlyBroadcastedGameId := [], None;
    }

    method ScheduleEvent(gameId: nat, event: EventData)
      modifies this
      ensures State() == Schedule(old(State()), gameId, event)
    {
      if Some(gameId) == currentlyBroadcastedGameId {
        var eventNo := |currentGameEvents|;
        currentGameEvents := currentGameEvents + [Event(eventNo, event)];
      } else {
        var i := 0;
        while i < |nextGames|
          invariant 0 <= i <= |nextGames|
          invariant FindGame(nextGames, gameId) == i + FindGame(nextGames[i..], gameId)
          invariant State() == old(State())
        {
          assert nextGames[i..][1..] == nextGames[i + 1..];
          if nextGames[i].id == gameId {
            nextGames := nextGames[i := Waiting(gameId, nextGames[i].events + [event])];
            return;
          }
          i := i + 1;
        }
        nextGames := nextGames + [Waiting(gameId, [event])];
      }
    }

    method HasPendingMessagesForCurrentGame() returns (pending: bool)
      ensures pending <==> HasPending(State())
    {
      var rest := queues.Keys;
      while rest != {}
        invariant rest <= queues.Keys
        invariant forall f | f in queues && f !in rest :: queues[f] >= |currentGameEvents|
        decreases rest
      {
        var f :| f in rest;
        if queues[f] < |currentGameEvents| {
          return true;
        }
        rest := rest - {f};
      }
      pending := false;
    }

    method Empty() returns (empty: bool)
      ensures empty <==> IsEmpty(State())
    {
      var pending := HasPendingMessagesForCurrentGame();
      empty := !pending && nextGames == [];
    }

    method RestartCursors()
      modifies this`queues
      ensures queues == map f | f in old(queues) :: 0
    {
      var rest := queues.Keys;
      while rest != {}
        invariant rest <= queues.Keys == old(queues.Keys)
        invariant forall f | f in queues :: queues[f] == if f in rest then old(queues[f]) else 0
        decreases rest
      {
        var f :| f in rest;
        queues := queues[f := 0];
        rest := rest - {f};
      }
    }

    method CopyEvents(events: seq<EventData>)
      modifies this`currentGameEvents
      ensures currentGameEvents == WithNumbers(events)
    {
      currentGameEvents := [];
      var i := 0;
      while i < |events|
        invariant 0 <= i <= |events|
        invariant currentGameEvents == WithNumbers(events)[..i]
      {
        var eventNo := |currentGameEvents|;
        currentGameEvents := currentGameEvents + [Event(eventNo, events[i])];
        i := i + 1;
      }
    }

    /** The switch to the next game. */
    method BroadcastNextGame()
      requires nextGames != []
      modifies this
      ensures !HasPending(old(State())) ==> State() == Advance(old(State()))
    {
      RestartCursors();
      currentlyBroadcastedGameId := Some(nextGames[0].id);
      CopyEvents(nextGames[0].events);
      nextGames := nextGames[1..];
    }

    method SwitchGames()
      modifies this
      ensures State() == Advance(old(State()))
    {
      var pending := HasPendingMessagesForCurrentGame();
      if !pending && nextGames != [] {
        BroadcastNextGame();
      }
    }

    /** The code looks at the front of the schedule unchecked, so somebody must be connected. */
    method GetNextMessage() returns (out: Outgoing)
      requires CanSend(State())
      modifies this
      ensures out == NextMessage(old(State())) && State() == Served(old(State()))
    {
      hide *;
      ghost var q := State();
      ServedSchedule(q);
      SwitchGames();
      ghost var a := State();
      ghost var k := FirstPending(a, a.schedule);
      NobodyEarlier(a, k);
      out := Rotate(k);
    }

    /** The rotation loop: everybody up to the first pending client goes to the back. */
    method Rotate(ghost k: nat) returns (out: Outgoing)
      requires k < |State().schedule| && Pending(State(), State().schedule[k])
      requires forall i | 0 <= i < k :: !Pending(State(), State().schedule[i])
      requires forall i | 0 <= i < |State().schedule| :: State().schedule[i] in State().queues
      requires State().current.Some?
      modifies this`clientsToServeSchedule
      ensures State() == old(State()).(schedule := old(State()).schedule[k + 1..] + old(State()).schedule[..k + 1])
      ensures out == ChunkFor(old(State()), old(State()).schedule[k])
    {
      hide Fitting;
      ghost var s, q := clientsToServeSchedule, State();
      ghost var i := 0;
      assert s == s[0..] + s[..0];
      while true
        invariant 0 <= i <= k
        invariant clientsToServeSchedule == s[i..] + s[..i]
        decreases k - i
      {
        RotatedOnce(s, i);
        var fprint := clientsToServeSchedule[0];
        clientsToServeSchedule := clientsToServeSchedule[1..];
        clientsToServeSchedule := clientsToServeSchedule + [fprint];
        var clientNextWanted := queues[fprint];
        if clientNextWanted < |currentGameEvents| {
          assert Pending(q, s[i]);
          var itemsRead, msg := FromEvents(currentlyBroadcastedGameId.value, currentGameEvents, clientNextWanted);
          return Outgoing(fprint, clientNextWanted + itemsRead, msg);
        }
        i := i + 1;
      }
    }

    method AckEvents(fingerprint: Fingerprint, nextExpectedEventNo: nat)
      modifies this
      ensures State() == Ack(old(State()), fingerprint, nextExpectedEventNo)
    {
      if nextGames == [] {
        var newValue := Min(|currentGameEvents|, nextExpectedEventNo);
        if fingerprint in queues {
          queues := queues[fingerprint := newValue];
        }
      }
    }

    method DropQueue(fingerprint: Fingerprint)
      modifies this
      ensures State() == Drop(old(State()), fingerprint)
    {
      queues := queues - {fingerprint};
      EraseFromSchedule(fingerprint);
    }

    method EraseFromSchedule(fingerprint: Fingerprint)
      modifies this`clientsToServeSchedule
      ensures clientsToServeSchedule == RemoveFirst(old(clientsToServeSchedule), fingerprint)
    {
      var s, it := clientsToServeSchedule, 0;
      while it < |s|
        invariant 0 <= it <= |s|
        invariant forall k | 0 <= k < it :: s[k] != fingerprint
        invariant clientsToServeSchedule == s
      {
        if s[it] == fingerprint {
          FirstRemoved(s, fingerprint, it);
          clientsToServeSchedule := s[..it] + s[it + 1..];
          return;
        }
        it := it + 1;
      }
      NothingRemoved(s, fingerprint);
    }

    method AddQueue(fingerprint: Fingerprint, nextExpectedEventNo: nat)
      modifies this
      ensures State() == Add(old(State()), fingerprint, nextExpectedEventNo)
    {
      if fingerprint in queues {
        return;
      }
      var nextExpected := Min(|currentGameEvents|, nextExpectedEventNo);
      queues := queues[fingerprint := nextExpected];
      clientsToServeSchedule := clientsToServeSchedule + [fingerprint];
    }
  }
}
