/** Who watches, and in which session. */
module Watching {
  import opened Bytes
  import opened Messages
  import opened MessageQueue
  import opened Game
  import opened GameMessages
  import opened PlayerQueues
  import opened Cursors
  import opened Readiness

  /** A watcher is remembered with its newest session; named datagrams only cost an address its watcher. */
  ghost predicate WatchersAfter(g: GameState, h: GameState, f: Fingerprint, m: ClientMessage) {
    var was, now := g.watchers, h.watchers;
    && (forall x | x != f :: (x in now <==> x in was) && (x in now ==> now[x] == was[x]))
    && if m.playerName == [] then
         && (f in now <==> f in was || !HasFingerprint(g.players, f))
         && (f in now ==> now[f] == if f in was && was[f] > m.sessionId then was[f] else m.sessionId)
       else (f in now <==> f in was && !Superseded(g, f, m)) && (f in now ==> now[f] == was[f])
  }

  lemma {:induction false} DropOlderWatchers(g: GameState, names: seq<Text>, f: Fingerprint, sessionId: nat)
    ensures var d := DropOlder(g, names, f, sessionId);
            d.watchers == if OlderSessions(g.players, names, f, sessionId) == 0 then g.watchers else g.watchers - {f}
    ensures forall x | x != f :: x in DropOlder(g, names, f, sessionId).watchers <==> x in g.watchers
    decreases |names|
  {
    hide *;
    var d, n := DropOlder(g, names, f, sessionId), OlderSessions(g.players, names, f, sessionId);
    OlderFirst(g.players, names, f, sessionId);
    if n == 0 {
      NobodyOlder(g, names, f, sessionId);
    } else {
      DropOlderNext(g, names, f, sessionId);
      if IsOlder(g.players, names[0], f, sessionId) {
        DropWatchers(g, f);
        DropOlderWatchers(DropConnection(g, f), names[1..], f, sessionId);
        assert g.watchers - {f} - {f} == g.watchers - {f};
      } else {
        DropOlderWatchers(g, names[1..], f, sessionId);
      }
    }
  }

  lemma SameWatchers(g: GameState, h: GameState, f: Fingerprint, m: ClientMessage)
    requires m.playerName != []
    requires h.watchers == if Superseded(g, f, m) then g.watchers - {f} else g.watchers
    ensures WatchersAfter(g, h, f, m)
  {
    hide Superseded;
  }

  lemma MessageWatchers(c: Config, g: GameState, f: Fingerprint, m: ClientMessage)
    ensures WatchersAfter(g, HandleMessage(c, g, f, m), f, m)
  {
    var k, ready := FindPlayer(g.players, m.playerName), !g.started && m.turnDirection != Straight;
    hide *;
    MessageIs(c, g, f, m);
    if m.playerName == [] {
      WatcherWatches(g, f, m);
    } else {
      HandlePlayerIs(c, g, f, m);
      SupersededMeans(g, f, m);
      var d := DropOlder(g, PlayerNamesOf(g.players), f, m.sessionId);
      SameWatchersOf(c, g, d, k, f, m, ready);
      SameWatchers(g, HandlePlayer(c, g, f, m), f, m);
    }
  }

  lemma SameWatchersOf(c: Config, g: GameState, d: GameState, k: nat, f: Fingerprint, m: ClientMessage, ready: bool)
    requires d == DropOlder(g, PlayerNamesOf(g.players), f, m.sessionId)
    ensures d.watchers == if Older(g, f, m.sessionId) == 0 then g.watchers else g.watchers - {f}
    ensures MaybeStart(c, Joining(d, f, m, ready)).watchers == d.watchers
    ensures k < |g.players| ==> MaybeStart(c, Steered(g, k, f, m)).watchers == g.watchers
  {
    hide *;
    OlderIs(g, f, m.sessionId);
    DropOlderWatchers(g, PlayerNamesOf(g.players), f, m.sessionId);
    StartWatchers(c, Joining(d, f, m, ready));
    if k < |g.players| {
      StartWatchers(c, Steered(g, k, f, m));
    }
    WatchersOnly(g, d, k, f, m, ready);
  }

  lemma WatchersOnly(g: GameState, d: GameState, k: nat, f: Fingerprint, m: ClientMessage, ready: bool)
    ensures Joining(d, f, m, ready).watchers == d.watchers
    ensures k < |g.players| ==> Steered(g, k, f, m).watchers == g.watchers
  {
    hide InsertPlayer;
    hide Add;
    hide Ack;
  }

  lemma OlderIs(g: GameState, f: Fingerprint, sessionId: nat)
    ensures Older(g, f, sessionId) == OlderSessions(g.players, PlayerNamesOf(g.players), f, sessionId)
  {
    hide OlderSessions;
  }

  lemma SupersededMeans(g: GameState, f: Fingerprint, m: ClientMessage)
    ensures Superseded(g, f, m) <==>
            m.playerName != [] && FindPlayer(g.players, m.playerName) == |g.players| && Older(g, f, m.sessionId) > 0
  {
    hide FindPlayer;
    hide Older;
  }

  lemma WatcherWatches(g: GameState, f: Fingerprint, m: ClientMessage)
    requires m.playerName == []
    ensures WatchersAfter(g, HandleWatcher(g, f, m), f, m)
  {
    hide Add;
    hide Ack;
    hide Drop;
    hide HasFingerprint;
    hide Superseded;
  }

  lemma StartWatchers(c: Config, g: GameState)
    ensures MaybeStart(c, g).watchers == g.watchers
  {
    MaybeStartMoods(c, g);
    hide MaybeStart;
    hide EverybodyReady;
    hide SameMoods;
    hide NobodyReady;
  }
}
