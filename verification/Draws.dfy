/** Which output of the generator each game has as its number: one is drawn for the game and three for each player. */
module Draws {
  import opened Bytes
  import opened Names
  import opened Messages
  import opened PlayerList
  import opened MessageQueue
  import opened Logs
  import opened Grammar
  import opened Game
  import opened GameInvariant
  import opened GameStart
  import opened GameMessages
  import opened GameQueue
  import opened Rng
  import opened Cycle

  /** The draws of a game. */
  function DrawsFor(log: GameLog): nat {
    1 + 3 * |Roster(log.events)|
  }

  /** The draws of all these games. */
  function DrawsOf(logs: seq<GameLog>): nat {
    if logs == [] then 0 else DrawsOf(logs[..|logs| - 1]) + DrawsFor(logs[|logs| - 1])
  }

  ghost predicate Begun(logs: seq<GameLog>) {
    forall i | 0 <= i < |logs| :: logs[i].events != []
  }

  /** Each game has the number drawn right after the draws of the games before it. */
  ghost predicate NumbersDrawn(seed: nat, logs: seq<GameLog>) {
    Begun(logs) && forall i | 0 <= i < |logs| :: logs[i].id == Output(seed, DrawsOf(logs[..i]))
  }

  /** The generator has made exactly the draws counted, and those are the draws of the games. */
  ghost predicate Drawn(seed: nat, g: GameState) {
    g.rng == Output(seed, g.draws) && g.draws == DrawsOf(g.logs) && NumbersDrawn(seed, g.logs)
  }

  lemma {:induction false} DrawsGrow(logs: seq<GameLog>, i: nat, j: nat)
    requires i < j <= |logs|
    ensures DrawsOf(logs[..i]) < DrawsOf(logs[..j])
    decreases j
  {
    assert logs[..j][..j - 1] == logs[..j - 1];
    if i < j - 1 {
      DrawsGrow(logs, i, j - 1);
    }
  }

  lemma DrawsBefore(seed: nat, g: GameState, i: nat, j: nat)
    requires Drawn(seed, g) && i < j < |g.logs|
    ensures DrawsOf(g.logs[..i]) < DrawsOf(g.logs[..j]) < g.draws
    ensures 0 < i ==> 0 < DrawsOf(g.logs[..i])
    ensures g.logs[i].id == Output(seed, DrawsOf(g.logs[..i])) && g.logs[j].id == Output(seed, DrawsOf(g.logs[..j]))
  {
    hide Output;
    DrawsGrow(g.logs, i, j);
    DrawsGrow(g.logs, j, |g.logs|);
    assert g.logs[..|g.logs|] == g.logs;
    if 0 < i {
      DrawsGrow(g.logs, 0, i);
    }
    hide DrawsOf;
  }

  /** Within one cycle of the generator no game number is drawn twice. */
  lemma DistinctWithinCycle(seed: nat, g: GameState)
    requires Drawn(seed, g) && seed % MODULUS != 0 && g.draws <= CYCLE
    ensures DistinctIds(g.logs)
  {
    hide *;
    forall i, j | 0 <= i < j < |g.logs| ensures g.logs[i].id != g.logs[j].id {
      DrawsBefore(seed, g, i, j);
      OutputsDistinct(seed, DrawsOf(g.logs[..i]), DrawsOf(g.logs[..j]));
    }
    AllDistinct(g.logs);
  }

  lemma AllDistinct(logs: seq<GameLog>)
    requires forall i, j | 0 <= i < j < |logs| :: logs[i].id != logs[j].id
    ensures DistinctIds(logs)
  {
  }

  /**
   * Whether two games come a whole number of cycles apart. The seed itself is the number of the first game; one that
   * is no less than the modulus never comes again.
   */
  predicate WholeCyclesApart(seed: nat, logs: seq<GameLog>, i: nat, j: nat)
    requires i < j <= |logs|
  {
    (DrawsOf(logs[..j]) - DrawsOf(logs[..i])) % CYCLE == 0 && (0 < i || seed < MODULUS)
  }

  /** Two games have the same number exactly if they come a whole number of cycles apart. */
  lemma SameNumberExactlyWhen(seed: nat, g: GameState, i: nat, j: nat)
    requires Drawn(seed, g) && seed % MODULUS != 0 && i < j < |g.logs|
    ensures g.logs[i].id == g.logs[j].id <==> WholeCyclesApart(seed, g.logs, i, j)
  {
    hide *;
    var m, n := DrawsOf(g.logs[..i]), DrawsOf(g.logs[..j]);
    DrawsBefore(seed, g, i, j);
    ApartMeans(seed, g.logs, i, j);
    if 0 < i {
      OutputsAgree(seed, m, n);
    } else {
      NoDraws(g.logs);
      SeedAgrees(seed, n);
    }
  }

  lemma ApartMeans(seed: nat, logs: seq<GameLog>, i: nat, j: nat)
    requires i < j <= |logs|
    ensures WholeCyclesApart(seed, logs, i, j) <==>
            (DrawsOf(logs[..j]) - DrawsOf(logs[..i])) % CYCLE == 0 && (0 < i || seed < MODULUS)
  {
  }

  lemma NoDraws(logs: seq<GameLog>)
    ensures DrawsOf(logs[..0]) == 0
  {
  }

  /** For a seed divisible by the modulus every game after the first has number 0. */
  lemma ZeroSeedRepeats(seed: nat, g: GameState, i: nat, j: nat)
    requires Drawn(seed, g) && seed % MODULUS == 0 && i < j < |g.logs|
    ensures g.logs[i].id == g.logs[j].id <==> 0 < i || seed == 0
  {
    hide *;
    DrawsBefore(seed, g, i, j);
    ZeroExactlyWhen(seed, DrawsOf(g.logs[..j]));
    if 0 < i {
      ZeroExactlyWhen(seed, DrawsOf(g.logs[..i]));
    } else {
      NoDraws(g.logs);
      SeedIsFirst(seed);
    }
  }

  lemma SeedIsFirst(seed: nat)
    ensures Output(seed, 0) == seed
  {
  }

  // ---- Operations that draw nothing ----

  /** The same games, possibly with more events. */
  ghost predicate SameHeads(logs: seq<GameLog>, later: seq<GameLog>) {
    |logs| == |later| && forall i | 0 <= i < |logs| ::
      && logs[i].id == later[i].id
      && (logs[i].events != [] ==> later[i].events != [] && later[i].events[0] == logs[i].events[0])
  }

  lemma SameHeadsTwice(a: seq<GameLog>, b: seq<GameLog>, d: seq<GameLog>)
    requires SameHeads(a, b) && SameHeads(b, d)
    ensures SameHeads(a, d)
  {
  }

  lemma RosterOfHead(log: seq<Event>, later: seq<Event>)
    requires log != [] && later != [] && log[0] == later[0]
    ensures Roster(log) == Roster(later)
  {
    hide ParsePlayers;
  }

  lemma {:induction false} SameHeadsDraws(logs: seq<GameLog>, later: seq<GameLog>)
    requires SameHeads(logs, later) && Begun(logs)
    ensures DrawsOf(logs) == DrawsOf(later)
  {
    hide Roster;
    if logs != [] {
      var n := |logs| - 1;
      SameHeadsDraws(logs[..n], later[..n]);
      RosterOfHead(logs[n].events, later[n].events);
    }
  }

  lemma SameHeadsNumbered(seed: nat, logs: seq<GameLog>, later: seq<GameLog>)
    requires SameHeads(logs, later) && NumbersDrawn(seed, logs)
    ensures NumbersDrawn(seed, later)
  {
    hide DrawsOf;
    hide Output;
    forall i | 0 <= i < |later| ensures later[i].id == Output(seed, DrawsOf(later[..i])) {
      SameHeadsDraws(logs[..i], later[..i]);
    }
  }

  ghost predicate Quiet(g: GameState, h: GameState) {
    h.rng == g.rng && h.draws == g.draws && SameHeads(g.logs, h.logs)
  }

  lemma SaveQuiet(g: GameState, d: EventData)
    ensures Quiet(g, SaveEvent(g, d))
  {
    hide Schedule;
  }

  lemma EraseQuiet(g: GameState)
    ensures Quiet(g, EraseDisconnected(g))
  {
    hide DropAll;
    hide Staying;
  }

  lemma EliminateQuiet(g: GameState, j: nat)
    requires j < |g.players|
    ensures Quiet(g, Eliminate(g, j))
  {
    var p := g.players[j].(isEliminated := true);
    var s := g.(players := g.players[j := p], alive := (g.alive + 0xFF) % 0x100);
    EliminateIsStruck(g, j);
    SaveQuiet(s, PlayerEliminated(NumberOf(s, p.name)));
    SaveQuiet(Struck(g, j), GameOver);
    hide SaveEvent;
    hide EraseDisconnected;
    EraseQuiet(SaveEvent(Struck(g, j), GameOver).(started := false));
  }

  lemma EatPixelQuiet(g: GameState, j: nat, pixel: Coordinates)
    requires j < |g.players|
    ensures Quiet(g, EatPixel(g, j, pixel))
  {
    var p := g.players[j].(pixel := pixel);
    var s := g.(players := g.players[j := p], eaten := g.eaten + {pixel});
    SaveQuiet(s, Pixel(NumberOf(s, p.name), pixel.0, pixel.1));
    hide SaveEvent;
  }

  lemma MovePlayerQuiet(c: Config, g: GameState, j: nat)
    requires j < |g.players|
    ensures Quiet(g, MovePlayer(c, g, j))
  {
    MovePlayerCases(c, g, j);
    var h := g.(players := g.players[j := Moved(c, g.players[j])]);
    hide MovePlayer;
    hide Moved;
    hide Eliminate;
    hide EatPixel;
    EliminateQuiet(h, j);
    forall pixel ensures Quiet(h, EatPixel(h, j, pixel)) {
      EatPixelQuiet(h, j, pixel);
    }
  }

  lemma {:induction false} RunTurnFromQuiet(c: Config, g: GameState, n: nat, i: nat)
    ensures Quiet(g, RunTurnFrom(c, g, n, i))
    decreases n - i
  {
    hide MovePlayer;
    if i < n && g.started && i < |g.players| {
      MovePlayerQuiet(c, g, i);
      RunTurnFromQuiet(c, MovePlayer(c, g, i), n, i + 1);
    }
  }

  lemma DropConnectionQuiet(g: GameState, f: Fingerprint)
    ensures Quiet(g, DropConnection(g, f))
  {
    DropIsUnlinked(g, f);
    hide DropConnection;
    hide Marked;
    hide Drop;
    hide EraseDisconnected;
    EraseQuiet(Unlinked(g, f));
  }

  lemma {:induction false} DropOlderQuiet(g: GameState, names: seq<Text>, f: Fingerprint, sessionId: nat)
    ensures Quiet(g, DropOlder(g, names, f, sessionId))
    decreases |names|
  {
    hide DropConnection;
    if names != [] {
      DropOlderStep(g, names, f, sessionId);
      DropConnectionQuiet(g, f);
      DropOlderQuiet(g, names[1..], f, sessionId);
      DropOlderQuiet(DropConnection(g, f), names[1..], f, sessionId);
    }
  }

  lemma JoiningQuiet(g: GameState, k: nat, f: Fingerprint, m: ClientMessage, ready: bool)
    ensures Quiet(g, Joining(g, f, m, ready)) && (k < |g.players| ==> Quiet(g, Steered(g, k, f, m)))
    ensures Quiet(g, HandleWatcher(g, f, m))
  {
    WatcherTraffic(g, f, m);
    hide HandleWatcher;
    hide InsertPlayer;
    hide Add;
    hide Ack;
    hide Drop;
  }

  lemma DrawnQuiet(seed: nat, g: GameState, h: GameState)
    requires Drawn(seed, g) && Quiet(g, h)
    ensures Drawn(seed, h)
  {
    SameHeadsDraws(g.logs, h.logs);
    SameHeadsNumbered(seed, g.logs, h.logs);
    hide SameHeads;
    hide DrawsOf;
    hide Output;
    hide Begun;
  }

  // ---- The start of a game ----

  lemma ThreeMore(seed: nat, n: nat)
    ensures Output(seed, n + 3) == Next(Next(Next(Output(seed, n))))
  {
    hide Next;
    assert Output(seed, n + 1) == Next(Output(seed, n));
    assert Output(seed, n + 2) == Next(Output(seed, n + 1));
    assert Output(seed, n + 3) == Next(Output(seed, n + 2));
  }

  lemma ArrivedDraws(c: Config, g: GameState, j: nat)
    requires j < |g.players|
    ensures var h := Arrived(c, g, j);
            h.rng == Next(Next(Next(g.rng))) && h.draws == g.draws + 3 && h.logs == g.logs
  {
    hide Next;
    hide Placed;
  }

  lemma QuietGives(g: GameState, h: GameState)
    requires Quiet(g, h)
    ensures h.rng == g.rng && h.draws == g.draws && SameHeads(g.logs, h.logs) && |h.logs| == |g.logs|
  {
  }

  /** One player more: three draws. */
  lemma PlacePlayerDraws(c: Config, seed: nat, g: GameState, j: nat)
    requires g.rng == Output(seed, g.draws) && j < |g.players|
    ensures var h := PlacePlayer(c, g, j);
            h.rng == Output(seed, h.draws) && h.draws == g.draws + 3 && SameHeads(g.logs, h.logs)
  {
    hide *;
    var h := Arrived(c, g, j);
    ArrivedDraws(c, g, j);
    ThreeMore(seed, g.draws);
    PlaceIsArrived(c, g, j);
    EliminateQuiet(h, j);
    EatPixelQuiet(h, j, h.players[j].pixel);
    QuietGives(h, PlacePlayer(c, g, j));
  }

  /** The game can only be over when all players have been placed. */
  lemma OverWhenAllPlaced(c: Config, g: GameState, i: nat)
    requires Starting(c, g, i) && i < |g.players| && !PlacePlayer(c, g, i).started
    ensures i + 1 == |g.players|
  {
    hide *;
    var h := Arrived(c, g, i);
    PlaceIsArrived(c, g, i);
    if Taken(c, g, i) {
      EliminateIsStruck(h, i);
      StruckAtStart(c, g, i);
      InGameAlive(c.board, Struck(h, i));
      EndsAtStart(c, g, i);
    } else {
      PlacedAlive(c, g, i);
      StartedUnderway(c, PlacePlayer(c, g, i), i + 1);
    }
  }

  lemma SameHeadsItself(logs: seq<GameLog>)
    ensures SameHeads(logs, logs)
  {
  }

  lemma {:induction false} PlaceFromDraws(c: Config, seed: nat, g: GameState, n: nat, i: nat)
    requires Starting(c, g, i) && n == |g.players| && i <= n && g.rng == Output(seed, g.draws)
    ensures var h := PlaceFrom(c, g, n, i);
            h.rng == Output(seed, h.draws) && h.draws == g.draws + 3 * (n - i) && SameHeads(g.logs, h.logs)
    decreases n - i
  {
    hide *;
    PlaceStep(c, g, n, i);
    if i == n {
      SameHeadsItself(g.logs);
    } else {
      var e := PlacePlayer(c, g, i);
      StartedUnderway(c, g, i);
      PlacePlayerDraws(c, seed, g, i);
      PlaceStep(c, e, n, i + 1);
      if !e.started {
        OverWhenAllPlaced(c, g, i);
      } else {
        if Taken(c, g, i) {
          PlacedDead(c, g, i);
        } else {
          PlacedAlive(c, g, i);
        }
        SameCount(g.players, e.players);
        PlaceFromDraws(c, seed, e, n, i + 1);
        SameHeadsTwice(g.logs, e.logs, PlaceFrom(c, e, n, i + 1).logs);
      }
    }
  }

  lemma OpenedDraws(c: Config, g: GameState)
    ensures var h := OpenGame(c, g);
            && h.rng == Next(g.rng) && h.draws == g.draws + 1
            && |h.logs| == |g.logs| + 1 && h.logs[|g.logs|].id == g.rng && h.logs[|g.logs|].events != []
            && h.logs[..|g.logs|] == g.logs && CurrentLog(h) == h.logs[|g.logs|].events
  {
    hide Next;
    hide Schedule;
    hide NumberAll;
    hide PlayersField;
  }

  lemma OneMore(seed: nat, n: nat)
    ensures Output(seed, n + 1) == Next(Output(seed, n))
  {
    hide Next;
  }

  lemma NumberedNext(seed: nat, logs: seq<GameLog>, log: GameLog)
    requires NumbersDrawn(seed, logs) && log.events != [] && log.id == Output(seed, DrawsOf(logs))
    ensures NumbersDrawn(seed, logs + [log]) && DrawsOf(logs + [log]) == DrawsOf(logs) + DrawsFor(log)
  {
    hide Output;
    hide DrawsFor;
    var later := logs + [log];
    assert later[..|logs|] == logs;
    forall i | 0 <= i < |later| ensures later[i].id == Output(seed, DrawsOf(later[..i])) {
      if i < |logs| {
        assert later[..i] == logs[..i];
      }
    }
  }

  lemma DrawnMeans(seed: nat, g: GameState)
    ensures Drawn(seed, g) <==>
            g.rng == Output(seed, g.draws) && g.draws == DrawsOf(g.logs) && NumbersDrawn(seed, g.logs)
  {
    hide Output;
    hide DrawsOf;
    hide NumbersDrawn;
  }

  lemma NumberedBegun(seed: nat, logs: seq<GameLog>)
    requires NumbersDrawn(seed, logs)
    ensures Begun(logs)
  {
    hide Begun;
  }

  lemma SameHeadsAt(logs: seq<GameLog>, later: seq<GameLog>, i: nat)
    requires SameHeads(logs, later) && i < |logs| && Begun(logs)
    ensures later[i].id == logs[i].id && later[i].events != [] && later[i].events[0] == logs[i].events[0]
    ensures logs[i].events != [] && |later| == |logs|
  {
  }

  lemma DrawsForIs(log: GameLog, n: nat)
    requires |Roster(log.events)| == n
    ensures DrawsFor(log) == 1 + 3 * n
  {
    hide Roster;
  }

  lemma DrawsForHead(log: GameLog, later: GameLog)
    requires log.events != [] && later.events != [] && log.events[0] == later.events[0]
    ensures DrawsFor(log) == DrawsFor(later)
  {
    RosterOfHead(log.events, later.events);
    hide Roster;
  }

  lemma NamesCount(players: seq<Player>)
    ensures |PlayerNamesOf(players)| == |players|
  {
  }

  /** A game was started between g and h: it has the next number, and its own draws have been made. */
  ghost predicate OneStarted(seed: nat, g: GameState, h: GameState) {
    && |h.logs| == |g.logs| + 1 && h.logs[|g.logs|].id == Output(seed, g.draws)
    && h.draws == g.draws + DrawsFor(h.logs[|g.logs|]) && 7 <= DrawsFor(h.logs[|g.logs|]) <= MAX_DRAWS
  }

  /** The start of a game draws its number, and then three numbers for each player, even if it ends the game. */
  lemma StartDraws(c: Config, seed: nat, g: GameState)
    requires Drawn(seed, g) && Idle(c, g) && CanStart(g.players)
    ensures Drawn(seed, StartGame(c, g)) && OneStarted(seed, g, StartGame(c, g))
  {
    hide *;
    var o, h, n := OpenGame(c, g), StartGame(c, g), |g.players|;
    ManyReady(g.players);
    IdlePlayers(c, g);
    AtMostMax(g.players);
    OpenedStarting(c, g);
    OpenedInGame(c, g);
    NamesCount(g.players);
    StartIsPlacing(c, g);
    OpenedDraws(c, g);
    OneMore(seed, g.draws);
    DrawnMeans(seed, g);
    PlaceFromDraws(c, seed, o, n, 0);
    var log := o.logs[|g.logs|];
    assert o.logs == g.logs + [log];
    NumberedNext(seed, g.logs, log);
    NumberedBegun(seed, o.logs);
    SameHeadsNumbered(seed, o.logs, h.logs);
    SameHeadsDraws(o.logs, h.logs);
    SameHeadsAt(o.logs, h.logs, |g.logs|);
    DrawsForIs(log, n);
    DrawsForHead(log, h.logs[|g.logs|]);
    DrawnMeans(seed, h);
    OneStartedFrom(seed, g, h, n);
  }

  lemma OneStartedFrom(seed: nat, g: GameState, h: GameState, n: nat)
    requires |h.logs| == |g.logs| + 1 && h.logs[|g.logs|].id == Output(seed, g.draws)
    requires h.draws == g.draws + DrawsFor(h.logs[|g.logs|]) && DrawsFor(h.logs[|g.logs|]) == 1 + 3 * n
    requires 2 <= n <= MAX_PLAYERS
    ensures OneStarted(seed, g, h)
  {
    hide Output;
    hide DrawsFor;
  }

  lemma AtMostMax(players: seq<Player>)
    requires PlayersOk(players)
    ensures |players| <= MAX_PLAYERS
  {
  }

  // ---- Messages ----

  /** No message makes the server draw more than this. */
  const MAX_DRAWS: nat := 1 + 3 * MAX_PLAYERS

  /** On the way from g to h at most one game has been started, and nothing else has been drawn. */
  ghost predicate AtMostOneStarted(seed: nat, g: GameState, h: GameState) {
    Drawn(seed, h) && (OneStarted(seed, g, h) || (|h.logs| == |g.logs| && h.draws == g.draws))
  }

  lemma QuietStarts(seed: nat, g: GameState, h: GameState)
    requires Drawn(seed, g) && Quiet(g, h)
    ensures Drawn(seed, h) && AtMostOneStarted(seed, g, h)
  {
    DrawnQuiet(seed, g, h);
    QuietGives(g, h);
    hide Drawn;
    hide OneStarted;
    hide Quiet;
  }

  lemma StartsAfterQuiet(seed: nat, g: GameState, h: GameState, k: GameState)
    requires Quiet(g, h) && AtMostOneStarted(seed, h, k)
    ensures AtMostOneStarted(seed, g, k)
  {
    QuietGives(g, h);
    hide Drawn;
    hide Quiet;
    hide Output;
    hide DrawsFor;
  }

  lemma MaybeStartDraws(c: Config, seed: nat, g: GameState)
    requires Drawn(seed, g) && GameOk(c, g)
    ensures AtMostOneStarted(seed, g, MaybeStart(c, g))
  {
    GameOkCases(c, g);
    hide GameOk;
    hide Drawn;
    hide OneStarted;
    hide StartGame;
    hide CanStart;
    hide Idle;
    if !g.started && CanStart(g.players) {
      StartDraws(c, seed, g);
    }
  }

  /** A player that joins or steers, and may start a game. */
  lemma StartsAfter(c: Config, seed: nat, g: GameState, h: GameState)
    requires Drawn(seed, g) && Quiet(g, h) && GameOk(c, h)
    ensures AtMostOneStarted(seed, g, MaybeStart(c, h))
  {
    hide *;
    DrawnQuiet(seed, g, h);
    MaybeStartDraws(c, seed, h);
    StartsAfterQuiet(seed, g, h, MaybeStart(c, h));
  }

  lemma QuietTwice(g: GameState, h: GameState, k: GameState)
    requires Quiet(g, h) && Quiet(h, k)
    ensures Quiet(g, k)
  {
    SameHeadsTwice(g.logs, h.logs, k.logs);
    hide SameHeads;
  }

  lemma QuietItself(g: GameState)
    ensures Quiet(g, g)
  {
  }

  lemma HandlePlayerDraws(c: Config, seed: nat, g: GameState, f: Fingerprint, m: ClientMessage)
    requires Drawn(seed, g) && GameOk(c, g) && PlayerName(m.playerName)
    ensures AtMostOneStarted(seed, g, HandlePlayer(c, g, f, m))
  {
    hide *;
    HandlePlayerIs(c, g, f, m);
    QuietItself(g);
    QuietStarts(seed, g, g);
    var k, ready := FindPlayer(g.players, m.playerName), !g.started && m.turnDirection != Straight;
    var h := DropOlder(g, PlayerNamesOf(g.players), f, m.sessionId);
    if k < |g.players| {
      JoiningQuiet(g, k, f, m, ready);
      SteeredOk(c, g, k, f, m);
      StartsAfter(c, seed, g, Steered(g, k, f, m));
    } else {
      DropOlderQuiet(g, PlayerNamesOf(g.players), f, m.sessionId);
      QuietStarts(seed, g, h);
      DropOlderOk(c, g, PlayerNamesOf(g.players), f, m.sessionId);
      DropOlderNames(g, PlayerNamesOf(g.players), f, m.sessionId);
      NotFound(g.players, h.players, m.playerName);
      PlayersOkOf(c, h);
      if |h.players| != MAX_PLAYERS {
        FewEnough(h.players);
        JoiningOk(c, h, f, m, ready);
        JoiningQuiet(h, 0, f, m, ready);
        QuietTwice(g, h, Joining(h, f, m, ready));
        StartsAfter(c, seed, g, Joining(h, f, m, ready));
      }
    }
  }

  /** A message draws nothing, or starts a game with the next number and draws what that takes. */
  lemma HandleMessageDraws(c: Config, seed: nat, g: GameState, f: Fingerprint, m: ClientMessage)
    requires Drawn(seed, g) && GameOk(c, g) && ValidName(m.playerName)
    ensures AtMostOneStarted(seed, g, HandleMessage(c, g, f, m))
  {
    NameOrWatcher(m.playerName);
    JoiningQuiet(g, 0, f, m, false);
    QuietStarts(seed, g, HandleWatcher(g, f, m));
    hide HandlePlayer;
    hide HandleWatcher;
    hide Drawn;
    hide OneStarted;
    hide GameOk;
    hide ValidName;
    if m.playerName != [] {
      HandlePlayerDraws(c, seed, g, f, m);
    }
  }

  lemma NewServerDrawn(seed: nat)
    ensures Drawn(seed, NewServer(seed))
  {
  }
}
