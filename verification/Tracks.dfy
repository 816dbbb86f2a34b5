/** Where a worm is can be read off the log: the last pixel announced under its number is the one it is on. */
module Tracks {
  import opened Bytes
  import opened Names
  import opened Messages
  import opened MessageQueue
  import opened Logs
  import opened Grammar
  import opened Game
  import opened GameInvariant
  import opened GameTurns
  import opened GameStart
  import opened GameMessages
  import opened Server
  import opened EndToEnd
  import Drain

  /** Where the log says that player number `no` is. */
  function LastPixel(log: seq<Event>, no: nat): Option<Coordinates> {
    if log == [] then None
    else
      var d := log[|log| - 1].data;
      if d.Pixel? && d.playerNumber == no then Some((d.x, d.y)) else LastPixel(log[..|log| - 1], no)
  }

  predicate Lives(p: Player) {
    p.takesPart && !p.isEliminated
  }

  /** All living players before the i-th are where the log says, player j perhaps excepted. */
  ghost predicate Tracked(g: GameState, i: nat, j: int) {
    forall k | 0 <= k < i && k < |g.players| && k != j && Lives(g.players[k]) ::
      LastPixel(CurrentLog(g), NumberOf(g, g.players[k].name)) == Some(g.players[k].pixel)
  }

  ghost predicate OnTrack(g: GameState) {
    g.started ==> Tracked(g, |g.players|, -1)
  }

  lemma LastPixelNext(log: seq<Event>, e: Event, no: nat)
    ensures LastPixel(log + [e], no)
         == if e.data.Pixel? && e.data.playerNumber == no then Some((e.data.x, e.data.y)) else LastPixel(log, no)
  {
    assert (log + [e])[..|log|] == log;
  }

  predicate PixelOf(e: Event, no: nat) {
    e.data.Pixel? && e.data.playerNumber == no
  }

  lemma {:induction false} LastPixelMeans(log: seq<Event>, no: nat, p: Coordinates)
    ensures LastPixel(log, no) == Some(p) <==>
            exists i | 0 <= i < |log| ::
              && PixelOf(log[i], no) && (log[i].data.x, log[i].data.y) == p
              && forall j | i < j < |log| :: !PixelOf(log[j], no)
  {
    if log != [] {
      var front := log[..|log| - 1];
      LastPixelMeans(front, no, p);
      assert forall i | 0 <= i < |front| :: front[i] == log[i];
    }
  }

  // ---- Moves and placements ----

  lemma StruckTracked(g: GameState, h: GameState, i: nat, j: nat, e: Event)
    requires StruckFields(g, h, j) && Tracked(g, i, j) && CurrentLog(h) == CurrentLog(g) + [e]
    requires e.data.PlayerEliminated?
    ensures Tracked(h, i, -1)
  {
    hide LastPixel;
    forall k | 0 <= k < i && k < |h.players| && Lives(h.players[k])
      ensures LastPixel(CurrentLog(h), NumberOf(h, h.players[k].name)) == Some(h.players[k].pixel)
    {
      assert k != j && Lives(g.players[k]);
      LastPixelNext(CurrentLog(g), e, NumberOf(g, g.players[k].name));
    }
  }

  lemma LivingNumbered(c: Config, g: GameState, i: nat, j: nat, k: nat)
    requires InMotion(c, g, i, j) && k < i && k < |g.players| && k != j && Lives(g.players[k])
    ensures j < |g.players| && NumberOf(g, g.players[k].name) != NumberOf(g, g.players[j].name)
  {
    InMotionGives(c, g, i, j);
    InMotionPlayer(c, g, i, j);
    EnrolledGives(g);
    OtherOk(c, g, i, j, k);
    hide InMotion;
    hide Enrolled;
    hide InGame;
    hide Tallied;
    hide OthersOk;
    hide PlayersOk;
    hide Roster;
    hide Eliminated;
    hide OnBoard;
    hide NumbersOk;
    NumbersDistinct(g.players, g.numbers, Roster(CurrentLog(g)), j, k);
  }

  lemma AteTracked(c: Config, g: GameState, h: GameState, i: nat, j: nat, pixel: Coordinates, e: Event)
    requires InMotion(c, g, i, j) && AteFields(g, h, j, pixel) && Tracked(g, i, j)
    requires CurrentLog(h) == CurrentLog(g) + [e]
    requires e.data == Pixel(NumberOf(g, g.players[j].name), pixel.0, pixel.1)
    ensures Tracked(h, i, -1)
  {
    hide LastPixel;
    hide InMotion;
    forall k | 0 <= k < i && k < |h.players| && Lives(h.players[k])
      ensures LastPixel(CurrentLog(h), NumberOf(h, h.players[k].name)) == Some(h.players[k].pixel)
    {
      LastPixelNext(CurrentLog(g), e, NumberOf(g, g.players[k].name));
      if k != j {
        LivingNumbered(c, g, i, j, k);
      }
    }
  }

  lemma EliminateTracked(c: Config, g: GameState, i: nat, j: nat)
    requires InMotion(c, g, i, j) && Tracked(g, i, j)
    ensures j < |g.players| && (Eliminate(g, j).started ==> Tracked(Eliminate(g, j), i, -1))
  {
    hide *;
    InMotionGives(c, g, i, j);
    StruckLog(c, g, i, j);
    EliminateIsStruck(g, j);
    var s, d := Struck(g, j), PlayerEliminated(NumberOf(g, g.players[j].name));
    ExtendedLog(c.board, g, s, d);
    StruckTracked(g, s, i, j, Event(|CurrentLog(g)|, d));
    EndedStopped(s);
  }

  lemma EndedStopped(g: GameState)
    ensures !EndGame(g).started
  {
    hide DropAll;
    hide Staying;
    hide Leaving;
    hide Schedule;
    hide AppendEvent;
  }

  lemma EatTracked(c: Config, g: GameState, i: nat, j: nat, pixel: Coordinates)
    requires InMotion(c, g, i, j) && Reached(c.board, g, j, pixel) && Tracked(g, i, j)
    ensures Tracked(EatPixel(g, j, pixel), i, -1)
  {
    ReachedPlayer(c.board, g, j, pixel);
    hide *;
    AteLog(c, g, i, j, pixel);
    var h, d := EatPixel(g, j, pixel), Pixel(NumberOf(g, g.players[j].name), pixel.0, pixel.1);
    ExtendedLog(c.board, g, h, d);
    AteTracked(c, g, h, i, j, pixel, Event(|CurrentLog(g)|, d));
  }

  lemma ReachedPlayer(b: Board, g: GameState, j: nat, pixel: Coordinates)
    requires Reached(b, g, j, pixel)
    ensures j < |g.players|
  {
  }

  // ---- Turns ----

  lemma MovedTracked(g: GameState, h: GameState, n: nat, j: nat, p: Player)
    requires Tracked(g, n, -1) && j < |g.players| && h == g.(players := g.players[j := p])
    ensures Tracked(h, n, j)
  {
    hide LastPixel;
  }

  lemma StayTracked(g: GameState, h: GameState, n: nat, j: nat, p: Player)
    requires Tracked(g, n, -1) && j < |g.players| && h == g.(players := g.players[j := p])
    requires p.pixel == g.players[j].pixel && p.name == g.players[j].name && Lives(p) == Lives(g.players[j])
    ensures Tracked(h, n, -1)
  {
    hide LastPixel;
  }

  lemma LivesMeans(p: Player)
    ensures Lives(p) <==> p.takesPart && !p.isEliminated
  {
  }

  lemma MoveTracked(c: Config, g: GameState, j: nat)
    requires Underway(c, g, |g.players|) && j < |g.players| && Tracked(g, |g.players|, -1)
    ensures MovePlayer(c, g, j).started ==> Tracked(MovePlayer(c, g, j), |g.players|, -1)
  {
    hide *;
    var n := |g.players|;
    UnderwayMeans(c, g, n);
    if g.players[j].isEliminated || !g.players[j].takesPart {
      NoMove(c, g, j);
    } else {
      var p := Moved(c, g.players[j]);
      var h := g.(players := g.players[j := p]);
      MoveStarts(c, g, j, p, h);
      MoveEnds(c, g, j, h);
      MovedTracked(g, h, n, j, p);
      MovedKeeps(c, g.players[j]);
      LivesMeans(p);
      LivesMeans(g.players[j]);
      StayTracked(g, h, n, j, p);
      if MovePlayer(c, g, j) == Eliminate(h, j) {
        EliminateTracked(c, h, n, j);
      } else if MovePlayer(c, g, j) != h {
        var pixel :| MovePlayer(c, g, j) == EatPixel(h, j, pixel) && Reached(c.board, h, j, pixel);
        EatTracked(c, h, n, j, pixel);
      }
    }
  }

  lemma OnTrackMeans(g: GameState)
    ensures OnTrack(g) <==> g.started ==> Tracked(g, |g.players|, -1)
  {
    hide Tracked;
  }

  lemma {:induction false} RunTurnFromTracked(c: Config, g: GameState, n: nat, i: nat)
    requires GameOk(c, g) && (g.started ==> n == |g.players|) && OnTrack(g)
    ensures OnTrack(RunTurnFrom(c, g, n, i))
    decreases n - i
  {
    hide *;
    RunTurnStep(c, g, n, i);
    if i < n && g.started && i < |g.players| {
      var h := MovePlayer(c, g, i);
      GameOkCases(c, g);
      UnderwayMeans(c, g, n);
      MovePlayerOk(c, g, i);
      OnTrackMeans(g);
      MoveTracked(c, g, i);
      OnTrackMeans(h);
      if h.started {
        UnderwayMeans(c, h, n);
      } else {
        IdleStopped(c, h);
      }
      GameOkCases(c, h);
      RunTurnFromTracked(c, h, n, i + 1);
    }
  }

  // ---- The start of a game ----

  lemma ArrivedTracked(c: Config, g: GameState, i: nat)
    requires i < |g.players| && Tracked(g, i, -1)
    ensures Tracked(Arrived(c, g, i), i + 1, i)
  {
    hide LastPixel;
    hide Placed;
    hide Rng.Next;
  }

  lemma PlaceTracked(c: Config, g: GameState, i: nat)
    requires Starting(c, g, i) && i < |g.players| && Tracked(g, i, -1)
    ensures PlacePlayer(c, g, i).started ==> Tracked(PlacePlayer(c, g, i), i + 1, -1)
  {
    hide *;
    var h := Arrived(c, g, i);
    ArrivesAsNext(c, g, i);
    PlaceIsArrived(c, g, i);
    ArrivedTracked(c, g, i);
    if Taken(c, g, i) {
      EliminateTracked(c, h, i + 1, i);
    } else {
      EatTracked(c, h, i + 1, i, h.players[i].pixel);
    }
  }

  lemma {:induction false} PlaceFromTracked(c: Config, g: GameState, n: nat, i: nat)
    requires Starting(c, g, i) && n == |g.players| && i <= n && Tracked(g, i, -1)
    ensures OnTrack(PlaceFrom(c, g, n, i))
    decreases n - i
  {
    hide *;
    PlaceStep(c, g, n, i);
    OnTrackMeans(g);
    if i < n {
      var e := PlacePlayer(c, g, i);
      StartedUnderway(c, g, i);
      PlaceTracked(c, g, i);
      if Taken(c, g, i) {
        PlacedDead(c, g, i);
      } else {
        PlacedAlive(c, g, i);
      }
      PlaceStep(c, e, n, i + 1);
      OnTrackMeans(e);
      if e.started {
        if !Taken(c, g, i) {
          StartedUnderway(c, e, i + 1);
        }
        SameCount(g.players, e.players);
        PlaceFromTracked(c, e, n, i + 1);
      }
    }
  }

  lemma NobodyTracked(g: GameState)
    ensures Tracked(g, 0, -1)
  {
  }

  lemma StartTracked(c: Config, g: GameState)
    requires Idle(c, g) && CanStart(g.players)
    ensures OnTrack(StartGame(c, g))
  {
    hide *;
    ManyReady(g.players);
    OpenedStarting(c, g);
    StartIsPlacing(c, g);
    NobodyTracked(OpenGame(c, g));
    PlaceFromTracked(c, OpenGame(c, g), |g.players|, 0);
  }

  lemma MaybeStartTracked(c: Config, g: GameState)
    requires GameOk(c, g) && OnTrack(g)
    ensures OnTrack(MaybeStart(c, g))
  {
    GameOkCases(c, g);
    hide GameOk;
    hide OnTrack;
    hide StartGame;
    hide CanStart;
    hide Idle;
    hide Underway;
    if !g.started && CanStart(g.players) {
      StartTracked(c, g);
    }
  }

  // ---- Connections and messages ----

  /** Every living worm was there before, in the same game. */
  ghost predicate WormsFrom(g: GameState, h: GameState) {
    && h.logs == g.logs && h.numbers == g.numbers && h.started == g.started
    && forall k | 0 <= k < |h.players| && Lives(h.players[k]) :: SomeWorm(g.players, h.players[k])
  }

  predicate SomeWorm(players: seq<Player>, p: Player) {
    exists i | 0 <= i < |players| :: players[i].name == p.name && players[i].pixel == p.pixel && Lives(players[i])
  }

  lemma WormsTracked(g: GameState, h: GameState)
    requires OnTrack(g) && WormsFrom(g, h)
    ensures OnTrack(h)
  {
    hide LastPixel;
    if h.started {
      forall k | 0 <= k < |h.players| && Lives(h.players[k])
        ensures LastPixel(CurrentLog(h), NumberOf(h, h.players[k].name)) == Some(h.players[k].pixel)
      {
        assert SomeWorm(g.players, h.players[k]);
        var i :| 0 <= i < |g.players| && g.players[i].name == h.players[k].name
                 && g.players[i].pixel == h.players[k].pixel
                 && Lives(g.players[i]);
      }
    }
  }

  lemma SameWormsFrom(g: GameState, h: GameState)
    requires SameWorms(g.players, h.players) && h.logs == g.logs && h.numbers == g.numbers && h.started == g.started
    ensures WormsFrom(g, h)
  {
    forall k | 0 <= k < |h.players| && Lives(h.players[k]) ensures SomeWorm(g.players, h.players[k]) {
      assert SameWorm(g.players[k], h.players[k]);
    }
  }

  lemma ItselfSame(players: seq<Player>)
    ensures SameWorms(players, players)
  {
  }

  lemma DropTracked(g: GameState, f: Fingerprint)
    requires OnTrack(g)
    ensures OnTrack(DropConnection(g, f))
  {
    hide OnTrack;
    DropIsUnlinked(g, f);
    MarkedSameWorms(g.players, f);
    ItselfSame(g.players);
    OnTrackMeans(DropConnection(g, f));
    hide SameWorms;
    hide Marked;
    hide Drop;
    hide Staying;
    hide DropAll;
    hide Leaving;
    hide DropConnection;
    if g.started || f in g.watchers {
      SameWormsFrom(g, Unlinked(g, f));
      WormsTracked(g, Unlinked(g, f));
    }
  }

  lemma {:induction false} DropOlderTracked(g: GameState, names: seq<Text>, f: Fingerprint, sessionId: nat)
    requires OnTrack(g)
    ensures OnTrack(DropOlder(g, names, f, sessionId))
    decreases |names|
  {
    hide *;
    if names == [] {
      NothingOlder(g, f, sessionId);
    } else {
      DropOlderStep(g, names, f, sessionId);
      DropTracked(g, f);
      DropOlderTracked(g, names[1..], f, sessionId);
      DropOlderTracked(DropConnection(g, f), names[1..], f, sessionId);
    }
  }

  lemma SteeredTracked(g: GameState, k: nat, f: Fingerprint, m: ClientMessage)
    requires OnTrack(g) && k < |g.players|
    ensures OnTrack(Steered(g, k, f, m))
  {
    var h := Steered(g, k, f, m);
    SteeredFields(g, k, f, m);
    UpdatedSameWorms(g.players, k, h.players[k]);
    hide SameWorms;
    hide OnTrack;
    hide Steered;
    SameWormsFrom(g, h);
    WormsTracked(g, h);
  }

  lemma JoiningTracked(g: GameState, f: Fingerprint, m: ClientMessage, ready: bool)
    requires OnTrack(g)
    ensures OnTrack(Joining(g, f, m, ready))
  {
    var h, p := Joining(g, f, m, ready), NewPlayer(f, m, ready);
    var k := InsertPlaces(g.players, p);
    hide OnTrack;
    hide InsertPlayer;
    hide Add;
    forall i | 0 <= i < |h.players| && Lives(h.players[i]) ensures SomeWorm(g.players, h.players[i]) {
      var j := if i < k then i else i - 1;
      assert i != k && h.players[i] == g.players[j];
    }
    WormsTracked(g, h);
  }

  lemma WatcherTracked(g: GameState, f: Fingerprint, m: ClientMessage)
    requires OnTrack(g)
    ensures OnTrack(HandleWatcher(g, f, m))
  {
    HandleWatcherSame(g, f, m);
    ItselfSame(g.players);
    hide OnTrack;
    hide HandleWatcher;
    hide SameWorms;
    SameWormsFrom(g, HandleWatcher(g, f, m));
    WormsTracked(g, HandleWatcher(g, f, m));
  }

  lemma PlayerTracked(c: Config, g: GameState, f: Fingerprint, m: ClientMessage)
    requires GameOk(c, g) && OnTrack(g) && PlayerName(m.playerName)
    ensures OnTrack(HandlePlayer(c, g, f, m))
  {
    hide *;
    HandlePlayerIs(c, g, f, m);
    var k := FindPlayer(g.players, m.playerName);
    var h := DropOlder(g, PlayerNamesOf(g.players), f, m.sessionId);
    if k < |g.players| {
      SteeredOk(c, g, k, f, m);
      SteeredTracked(g, k, f, m);
      MaybeStartTracked(c, Steered(g, k, f, m));
    } else {
      DropOlderOk(c, g, PlayerNamesOf(g.players), f, m.sessionId);
      DropOlderTracked(g, PlayerNamesOf(g.players), f, m.sessionId);
      DropOlderNames(g, PlayerNamesOf(g.players), f, m.sessionId);
      NotFound(g.players, h.players, m.playerName);
      PlayersOkOf(c, h);
      if |h.players| != MAX_PLAYERS {
        FewEnough(h.players);
        var ready := !g.started && m.turnDirection != Straight;
        JoiningOk(c, h, f, m, ready);
        JoiningTracked(h, f, m, ready);
        MaybeStartTracked(c, Joining(h, f, m, ready));
      }
    }
  }

  lemma MessageTracked(c: Config, g: GameState, f: Fingerprint, m: ClientMessage)
    requires GameOk(c, g) && OnTrack(g) && ValidName(m.playerName)
    ensures OnTrack(HandleMessage(c, g, f, m))
  {
    NameOrWatcher(m.playerName);
    WatcherTracked(g, f, m);
    hide GameOk;
    hide OnTrack;
    hide HandleWatcher;
    hide HandlePlayer;
    hide ValidName;
    if m.playerName != [] {
      PlayerTracked(c, g, f, m);
    }
  }

  // ---- Runs ----

  lemma ReceiveTracked(c: Config, s: ServerState, f: Fingerprint, bytes: seq<byte>, now: nat)
    requires GameOk(c, s.game) && OnTrack(s.game)
    ensures OnTrack(Receive(c, s, f, bytes, now).game)
  {
    hide GameOk;
    hide OnTrack;
    hide HandleMessage;
    if DecodeClientMessage(bytes).Some? {
      var m := DecodeClientMessage(bytes).value;
      ClientMessageOnlyEncodings(bytes);
      NameOfMessage(m);
      hide DecodeClientMessage;
      MessageTracked(c, s.game, f, m);
    }
  }

  lemma TurnTracked(c: Config, s: ServerState)
    requires GameOk(c, s.game) && OnTrack(s.game)
    ensures OnTrack(Turn(c, s).game)
  {
    hide GameOk;
    hide OnTrack;
    hide RunTurnFrom;
    RunTurnFromTracked(c, s.game, |s.game.players|, 0);
  }

  lemma ExpireTracked(s: ServerState, f: Fingerprint)
    requires OnTrack(s.game)
    ensures OnTrack(Expire(s, f).game)
  {
    hide OnTrack;
    hide DropConnection;
    DropTracked(s.game, f);
  }

  lemma SentTracked(s: ServerState, taken: bool)
    requires OnTrack(s.game) && CanSend(s.game.mq)
    ensures OnTrack(Sent(s, taken).game)
  {
    SentIs(s, taken);
    ItselfSame(s.game.players);
    hide OnTrack;
    hide CanSend;
    hide Sent;
    hide Served;
    hide Drain.Send;
    hide SameWorms;
    SameWormsFrom(s.game, Sent(s, taken).game);
    WormsTracked(s.game, Sent(s, taken).game);
  }

  lemma StepTracked(c: Config, s: Sys, a: Action)
    requires GameOk(c, s.server.game) && OnTrack(s.server.game)
    ensures OnTrack(Step(c, s, a).server.game)
  {
    hide *;
    ServerActions(c, s);
    match a
    case Datagram(f, bytes, now) => ReceiveTracked(c, s.server, f, bytes, now);
    case Expiry(f) => ExpireTracked(s.server, f);
    case RoundTurn => TurnTracked(c, s.server);
    case Sending(taken) =>
      if CanSend(s.server.game.mq) {
        SendingIs(c, s, taken);
        SentTracked(s.server, taken);
      }
    case Delivery(d, leftover) =>
      if d in s.net && |d| + |leftover| == INBOUND_BUFFER_SIZE {
        DeliveryIs(c, s, d, leftover);
      } else {
        NotDelivered(c, s, d, leftover);
      }
  }

  lemma StartOnTrack(seed: nat)
    ensures OnTrack(Start(seed).server.game)
  {
  }

  /** In every reachable state every living participant is where the last pixel under its own number says. */
  lemma {:induction false} RunTracked(c: Config, seed: nat, actions: seq<Action>)
    requires seed < U32
    ensures OnTrack(Run(c, Start(seed), actions).server.game)
    decreases |actions|
  {
    hide *;
    if actions == [] {
      StartOnTrack(seed);
      NoActions(c, Start(seed));
    } else {
      var n := |actions| - 1;
      var s := Run(c, Start(seed), actions[..n]);
      RunTracked(c, seed, actions[..n]);
      RunGameOk(c, seed, actions[..n]);
      StepTracked(c, s, actions[n]);
      RunUnfolds(c, Start(seed), actions);
    }
  }
}
