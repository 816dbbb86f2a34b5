/** A turn keeps the invariant, move by move. */
module GameTurns {
  import opened Bytes
  import opened Names
  import opened Messages
  import opened MessageQueue
  import opened Grammar
  import opened Game
  import opened GameInvariant

  /** The last log is unfinished, all others are finished. */
  ghost predicate Underway(c: Config, g: GameState, i: nat) {
    g.logs != [] && Playing(c, g, i) && Finished(c.board, g.logs, |g.logs| - 1)
  }

  // ---- Erasing players ----

  lemma {:induction false} StayingAbove(players: seq<Player>, name: Text)
    requires forall i | 0 <= i < |players| :: Less(name, players[i].name)
    ensures forall i | 0 <= i < |Staying(players)| :: Less(name, Staying(players)[i].name)
  {
    hide Less;
    if players != [] {
      StayingAbove(players[1..], name);
    }
  }

  lemma {:induction false} StayingOk(players: seq<Player>)
    requires PlayersOk(players)
    ensures PlayersOk(Staying(players)) && NoneDisconnected(Staying(players)) && |Staying(players)| <= |players|
  {
    hide Less;
    hide PlayerName;
    if players != [] {
      StayingOk(players[1..]);
      StayingAbove(players[1..], players[0].name);
    }
  }

  // ---- The end of a game ----

  lemma MayEnd(b: Board, g: GameState)
    requires InGame(b, g) && g.alive == 1
    ensures MayFollow(b, CurrentLog(g), GameOver)
  {
    hide LogOk;
    hide Roster;
    hide Eliminated;
  }

  lemma EndGameOk(c: Config, g: GameState)
    requires InGame(c.board, g) && g.alive == 1 && PlayersOk(g.players) && Finished(c.board, g.logs, |g.logs| - 1)
    ensures Idle(c, EndGame(g))
  {
    hide PlayersOk;
    hide NoneDisconnected;
    hide Staying;
    MayEnd(c.board, g);
    hide MayFollow;
    hide Eliminated;
    hide Pixels;
    hide LogOk;
    hide Roster;
    hide Over;
    SavedEvent(c.board, g, GameOver);
    FinishedKept(c.board, g, SaveEvent(g, GameOver), GameOver);
    StayingOk(g.players);
  }

  // ---- A player dies ----

  lemma EliminateOk(c: Config, g: GameState, i: nat, j: nat)
    requires InMotion(c, g, i, j) && Finished(c.board, g.logs, |g.logs| - 1)
    ensures var h := Eliminate(g, j); if h.started then Underway(c, h, i) && |h.players| == |g.players| else Idle(c, h)
  {
    StruckLog(c, g, i, j);
    StruckCounted(c, g, i, j);
    StruckPlayers(c, g, i, j);
    EliminateIsStruck(g, j);
    var h := Struck(g, j);
    FinishedKept(c.board, g, h, PlayerEliminated(NumberOf(g, g.players[j].name)));
    hide Eliminate;
    hide Struck;
    hide OthersOk;
    hide Tallied;
    hide Finished;
    hide Extended;
    if h.alive < 2 {
      EndGameOk(c, h);
    }
  }

  // ---- A player eats a pixel ----

  ghost predicate AteFields(g: GameState, h: GameState, j: nat, pixel: Coordinates) {
    && j < |g.players| && h.started == g.started && h.gameId == g.gameId
    && h.alive == g.alive && h.numbers == g.numbers && h.eaten == g.eaten + {pixel}
    && h.players == g.players[j := g.players[j].(pixel := pixel)]
  }

  /** The pixel is on the board, free, and where the worm is. */
  ghost predicate Reached(b: Board, g: GameState, j: nat, pixel: Coordinates) {
    && j < |g.players| && pixel.0 < b.maxx && pixel.1 < b.maxy && pixel !in g.eaten
    && g.players[j].x >= 0.0 && g.players[j].y >= 0.0
    && g.players[j].x.Floor == pixel.0 && g.players[j].y.Floor == pixel.1
  }

  lemma MayEat(c: Config, g: GameState, i: nat, j: nat, pixel: Coordinates)
    requires InMotion(c, g, i, j) && Reached(c.board, g, j, pixel)
    ensures MayFollow(c.board, CurrentLog(g), Pixel(NumberOf(g, g.players[j].name), pixel.0, pixel.1))
  {
    hide LogOk;
    hide OthersOk;
    hide PlayersOk;
    hide AllPresent;
    hide Survivors;
    hide Over;
    hide Eliminated;
    hide Pixels;
    hide Roster;
  }

  lemma AteLog(c: Config, g: GameState, i: nat, j: nat, pixel: Coordinates)
    requires InMotion(c, g, i, j) && Reached(c.board, g, j, pixel)
    ensures AteFields(g, EatPixel(g, j, pixel), j, pixel)
    ensures Extended(c.board, g, EatPixel(g, j, pixel), Pixel(NumberOf(g, g.players[j].name), pixel.0, pixel.1))
  {
    hide LogOk;
    hide OthersOk;
    hide Enrolled;
    hide Survivors;
    hide Over;
    hide Eliminated;
    hide Pixels;
    hide Roster;
    hide Schedule;
    MayEat(c, g, i, j, pixel);
    hide MayFollow;
    var p := g.players[j].(pixel := pixel);
    SavedEvent(c.board, g.(players := g.players[j := p], eaten := g.eaten + {pixel}),
               Pixel(NumberOf(g, p.name), pixel.0, pixel.1));
  }

  lemma AteInGame(b: Board, g: GameState, h: GameState, j: nat, pixel: Coordinates)
    requires InGame(b, g) && AteFields(g, h, j, pixel)
    requires Extended(b, g, h, Pixel(NumberOf(g, g.players[j].name), pixel.0, pixel.1))
    ensures InGame(b, h)
  {
    hide LogOk;
    hide Roster;
    hide Over;
    hide Eliminated;
    hide Pixels;
  }

  lemma AteSurvivors(g: GameState, h: GameState, i: nat, j: nat, pixel: Coordinates)
    requires AteFields(g, h, j, pixel) && j < i <= |g.players|
    ensures Survivors(h.players[..i]) == Survivors(g.players[..i])
  {
    SurvivorsOfUpdate(g.players[..i], j, h.players[j]);
    assert h.players[..i] == g.players[..i][j := h.players[j]];
  }

  lemma StillOk(b: Board, numbers: map<Text, nat>, eaten: set<Coordinates>, out: set<nat>, p: Player, done: bool,
                pixel: Coordinates)
    requires PlayerOk(b, numbers, eaten, out, p, done)
    ensures PlayerOk(b, numbers, eaten + {pixel}, out, p, done)
  {
  }

  lemma EaterOk(b: Board, g: GameState, h: GameState, j: nat, pixel: Coordinates, out: set<nat>)
    requires AteFields(g, h, j, pixel) && Reached(b, g, j, pixel)
    requires g.players[j].takesPart && !g.players[j].isEliminated
    requires g.players[j].name in g.numbers && g.numbers[g.players[j].name] !in out
    ensures PlayerOk(b, h.numbers, h.eaten, out, h.players[j], true)
  {
  }

  lemma SameEliminated(b: Board, g: GameState, h: GameState, d: EventData)
    requires Extended(b, g, h, d) && d.Pixel?
    ensures Eliminated(CurrentLog(h)) == Eliminated(CurrentLog(g))
  {
    hide LogOk;
    hide Roster;
    hide Eliminated;
    hide Pixels;
  }

  lemma AtePlayers(c: Config, g: GameState, i: nat, j: nat, pixel: Coordinates)
    requires InMotion(c, g, i, j) && Reached(c.board, g, j, pixel)
    ensures OthersOk(c, EatPixel(g, j, pixel), i, -1)
  {
    var h, out := EatPixel(g, j, pixel), Eliminated(CurrentLog(g));
    AteLog(c, g, i, j, pixel);
    InMotionGives(c, g, i, j);
    InMotionPlayer(c, g, i, j);
    SameEliminated(c.board, g, h, Pixel(NumberOf(g, g.players[j].name), pixel.0, pixel.1));
    EaterOk(c.board, g, h, j, pixel, out);
    hide EatPixel;
    hide Eliminated;
    hide InMotion;
    hide Extended;
    hide PlayerOk;
    hide Reached;
    hide CurrentLog;
    hide InGame;
    hide Enrolled;
    hide Tallied;
    forall k | 0 <= k < |h.players| && k != j ensures PlayerOk(c.board, h.numbers, h.eaten, out, h.players[k], k < i) {
      assert PlayerOk(c.board, g.numbers, g.eaten, out, g.players[k], k < i);
      StillOk(c.board, g.numbers, g.eaten, out, g.players[k], k < i, pixel);
    }
  }

  lemma AteTallied(g: GameState, h: GameState, i: nat, j: nat, pixel: Coordinates)
    requires AteFields(g, h, j, pixel) && j < i && Tallied(g, i)
    ensures Tallied(h, i)
  {
    AteSurvivors(g, h, i, j, pixel);
  }

  lemma AteNames(g: GameState, h: GameState, j: nat, pixel: Coordinates)
    requires AteFields(g, h, j, pixel)
    ensures SameNames(g.players, h.players) && h.numbers == g.numbers && h.alive == g.alive
    ensures |h.players| == |g.players|
  {
  }

  lemma EatPixelOk(c: Config, g: GameState, i: nat, j: nat, pixel: Coordinates)
    requires InMotion(c, g, i, j) && Reached(c.board, g, j, pixel) && Finished(c.board, g.logs, |g.logs| - 1)
    ensures Underway(c, EatPixel(g, j, pixel), i) && |EatPixel(g, j, pixel).players| == |g.players|
  {
    InMotionGives(c, g, i, j);
    var h := EatPixel(g, j, pixel);
    AtePlayers(c, g, i, j, pixel);
    AteLog(c, g, i, j, pixel);
    var d := Pixel(NumberOf(g, g.players[j].name), pixel.0, pixel.1);
    hide *;
    AteInGame(c.board, g, h, j, pixel);
    AteTallied(g, h, i, j, pixel);
    AteNames(g, h, j, pixel);
    ExtendedRoster(c.board, g, h, d);
    StaysEnrolled(g, h);
    FinishedKept(c.board, g, h, d);
    PlayingFrom(c, h, i);
    UnderwayMeans(c, h, i);
  }

  lemma UnderwayMeans(c: Config, g: GameState, i: nat)
    ensures Underway(c, g, i) <==> g.logs != [] && Playing(c, g, i) && Finished(c.board, g.logs, |g.logs| - 1)
    ensures Underway(c, g, i) ==> g.started
  {
    if Playing(c, g, i) {
      PlayingGives(c, g, i);
    }
    hide Playing;
    hide Finished;
  }

  // ---- A move ----

  /** Replacing the record of one player by another of the same name. */
  ghost predicate Replaced(g: GameState, h: GameState, j: nat, p: Player) {
    && j < |g.players| && p.name == g.players[j].name
    && h == g.(players := g.players[j := p], rng := h.rng, draws := h.draws)
  }

  lemma ReplacedCounted(c: Config, g: GameState, h: GameState, i: nat, i': nat, j: nat, p: Player)
    requires Counted(c, g, i) && Replaced(g, h, j, p)
    requires (i' == i && j < i && Survives(p) == Survives(g.players[j])) || (i' == i + 1 && j == i && Survives(p) == 1)
    ensures Counted(c, h, i')
  {
    hide LogOk;
    hide Over;
    hide Eliminated;
    hide Pixels;
    hide Roster;
    StaysEnrolled(g, h);
    hide Enrolled;
    assert InGame(c.board, h);
    hide InGame;
    if j < i {
      SurvivorsOfUpdate(g.players[..i], j, p);
      assert h.players[..i] == g.players[..i][j := p];
    } else {
      assert h.players[..i'][..i] == g.players[..i];
    }
  }

  lemma ReplacedOthers(c: Config, g: GameState, h: GameState, i: nat, i': nat, j: nat, p: Player)
    requires OthersOk(c, g, i, -1) && Replaced(g, h, j, p)
    requires i' == i || (i' == i + 1 && j == i)
    ensures OthersOk(c, h, i', j)
  {
    hide Eliminated;
    hide PlayerOk;
    forall k | 0 <= k < |h.players| && k != j
      ensures PlayerOk(c.board, h.numbers, h.eaten, Eliminated(CurrentLog(h)), h.players[k], k < i')
    {
      assert PlayerOk(c.board, g.numbers, g.eaten, Eliminated(CurrentLog(g)), g.players[k], k < i);
    }
  }

  lemma PlayerAlive(c: Config, g: GameState, i: nat, j: nat)
    requires Playing(c, g, i) && j < |g.players|
    ensures PlayerOk(c.board, g.numbers, g.eaten, Eliminated(CurrentLog(g)), g.players[j], j < i)
  {
    hide PlayerOk;
  }

  lemma InMotionFrom(c: Config, g: GameState, i: nat, j: nat)
    requires Counted(c, g, i) && g.alive >= 2 && OthersOk(c, g, i, j) && j < i <= |g.players|
    requires g.players[j].takesPart && !g.players[j].isEliminated && g.players[j].name in g.numbers
    requires g.numbers[g.players[j].name] !in Eliminated(CurrentLog(g))
    ensures InMotion(c, g, i, j)
  {
    hide Counted;
    hide OthersOk;
    hide Eliminated;
  }

  /** A player that is alive and playing, as the invariant describes it. */
  lemma AliveInvariant(c: Config, g: GameState, j: nat)
    requires Playing(c, g, |g.players|) && j < |g.players| && g.players[j].takesPart && !g.players[j].isEliminated
    ensures g.players[j].name in g.numbers && g.numbers[g.players[j].name] !in Eliminated(CurrentLog(g))
    ensures OnBoard(c.board, g.eaten, g.players[j])
  {
    PlayerAlive(c, g, |g.players|, j);
    hide Playing;
    hide Eliminated;
    hide OnBoard;
  }

  lemma MoveStarts(c: Config, g: GameState, j: nat, p: Player, h: GameState)
    requires Playing(c, g, |g.players|) && j < |g.players| && g.players[j].takesPart && !g.players[j].isEliminated
    requires p == Moved(c, g.players[j]) && h == g.(players := g.players[j := p])
    ensures InMotion(c, h, |h.players|, j) && |h.players| == |g.players| && h.players[j] == p
  {
    hide *;
    var n := |g.players|;
    PlayingGives(c, g, n);
    AliveInvariant(c, g, j);
    MovedReplaces(c, g, j, p, h);
    CountedFrom(c, g, n);
    ReplacedCounted(c, g, h, n, n, j, p);
    ReplacedOthers(c, g, h, n, n, j, p);
    InMotionFrom(c, h, n, j);
  }

  lemma MovedReplaces(c: Config, g: GameState, j: nat, p: Player, h: GameState)
    requires j < |g.players| && p == Moved(c, g.players[j]) && h == g.(players := g.players[j := p])
    ensures Replaced(g, h, j, p) && Survives(p) == Survives(g.players[j]) && CurrentLog(h) == CurrentLog(g)
    ensures p.name == g.players[j].name && p.takesPart == g.players[j].takesPart
    ensures p.isEliminated == g.players[j].isEliminated
  {
    MovedKeeps(c, g.players[j]);
    hide Moved;
  }

  lemma MovedKeeps(c: Config, p: Player)
    ensures var q := Moved(c, p);
            q.name == p.name && q.takesPart == p.takesPart && q.isEliminated == p.isEliminated && q.pixel == p.pixel
  {
  }

  lemma StayOk(c: Config, g: GameState, i: nat, j: nat)
    requires InMotion(c, g, i, j) && OnBoard(c.board, g.eaten, g.players[j])
    ensures Playing(c, g, i)
  {
    hide InGame;
    hide Enrolled;
    hide Tallied;
    hide Eliminated;
  }

  lemma MoveUnfolds(c: Config, g: GameState, j: nat, h: GameState)
    requires j < |g.players| && g.players[j].takesPart && !g.players[j].isEliminated
    requires h == g.(players := g.players[j := Moved(c, g.players[j])])
    ensures var p := h.players[j];
            var pixel := (Truncated(p.x), Truncated(p.y));
            MovePlayer(c, g, j) == if p.x < 0.0 || p.y < 0.0 then Eliminate(h, j)
                                   else if pixel == p.pixel then h
                                   else if pixel.0 >= c.board.maxx || pixel.1 >= c.board.maxy then Eliminate(h, j)
                                   else if pixel in g.eaten then Eliminate(h, j)
                                   else EatPixel(h, j, pixel)
  {
    hide Moved;
    hide Eliminate;
    hide EatPixel;
    hide Truncated;
  }

  lemma SamePixel(b: Board, eaten: set<Coordinates>, p: Player, q: Player)
    requires OnBoard(b, eaten, p) && q.pixel == p.pixel && q.x >= 0.0 && q.y >= 0.0
    requires (Truncated(q.x), Truncated(q.y)) == q.pixel
    ensures OnBoard(b, eaten, q)
  {
  }

  lemma NewPixel(b: Board, g: GameState, j: nat, pixel: Coordinates)
    requires j < |g.players| && g.players[j].x >= 0.0 && g.players[j].y >= 0.0
    requires pixel == (Truncated(g.players[j].x), Truncated(g.players[j].y))
    requires pixel.0 < b.maxx && pixel.1 < b.maxy && pixel !in g.eaten
    ensures Reached(b, g, j, pixel)
  {
  }

  /** Where the worm goes: off the board to the left or top, nowhere, into something, or on to a free pixel. */
  lemma MoveEnds(c: Config, g: GameState, j: nat, h: GameState)
    requires Playing(c, g, |g.players|) && j < |g.players| && g.players[j].takesPart && !g.players[j].isEliminated
    requires h == g.(players := g.players[j := Moved(c, g.players[j])])
    ensures MovePlayer(c, g, j) == Eliminate(h, j)
         || (MovePlayer(c, g, j) == h && OnBoard(c.board, h.eaten, h.players[j]))
         || exists pixel :: MovePlayer(c, g, j) == EatPixel(h, j, pixel) && Reached(c.board, h, j, pixel)
  {
    hide *;
    AliveInvariant(c, g, j);
    MovedKeeps(c, g.players[j]);
    MoveUnfolds(c, g, j, h);
    var p := h.players[j];
    var pixel := (Truncated(p.x), Truncated(p.y));
    if p.x < 0.0 || p.y < 0.0 {
    } else if pixel == p.pixel {
      SamePixel(c.board, g.eaten, g.players[j], p);
    } else if pixel.0 >= c.board.maxx || pixel.1 >= c.board.maxy || pixel in g.eaten {
    } else {
      NewPixel(c.board, h, j, pixel);
    }
  }

  lemma MovePlayerOk(c: Config, g: GameState, j: nat)
    requires Underway(c, g, |g.players|) && j < |g.players|
    ensures var h := MovePlayer(c, g, j);
            if h.started then Underway(c, h, |g.players|) && |h.players| == |g.players| else Idle(c, h)
  {
    hide *;
    var n := |g.players|;
    UnderwayMeans(c, g, n);
    if g.players[j].isEliminated || !g.players[j].takesPart {
      NoMove(c, g, j);
    } else {
      var p := Moved(c, g.players[j]);
      var h := g.(players := g.players[j := p]);
      MoveStarts(c, g, j, p, h);
      MoveEnds(c, g, j, h);
      if MovePlayer(c, g, j) == Eliminate(h, j) {
        EliminateOk(c, h, n, j);
      } else if MovePlayer(c, g, j) == h && OnBoard(c.board, h.eaten, h.players[j]) {
        StayOk(c, h, n, j);
        UnderwayMeans(c, h, n);
      } else {
        var pixel :| MovePlayer(c, g, j) == EatPixel(h, j, pixel) && Reached(c.board, h, j, pixel);
        EatPixelOk(c, h, n, j, pixel);
        UnderwayMeans(c, EatPixel(h, j, pixel), n);
      }
    }
  }

  lemma NoMove(c: Config, g: GameState, j: nat)
    requires j < |g.players| && (g.players[j].isEliminated || !g.players[j].takesPart)
    ensures MovePlayer(c, g, j) == g
  {
  }

  lemma RunTurnStep(c: Config, g: GameState, n: nat, i: nat)
    ensures RunTurnFrom(c, g, n, i)
         == if i >= n || !g.started || i >= |g.players| then g else RunTurnFrom(c, MovePlayer(c, g, i), n, i + 1)
  {
    hide MovePlayer;
  }

  lemma {:induction false} RunTurnFromOk(c: Config, g: GameState, n: nat, i: nat)
    requires GameOk(c, g) && (g.started ==> n == |g.players|)
    ensures GameOk(c, RunTurnFrom(c, g, n, i))
    decreases n - i
  {
    hide *;
    RunTurnStep(c, g, n, i);
    if i < n && g.started && i < |g.players| {
      var h := MovePlayer(c, g, i);
      GameOkCases(c, g);
      UnderwayMeans(c, g, n);
      MovePlayerOk(c, g, i);
      if h.started {
        UnderwayMeans(c, h, n);
      } else {
        IdleStopped(c, h);
      }
      GameOkCases(c, h);
      RunTurnFromOk(c, h, n, i + 1);
    }
  }

  lemma IdleStopped(c: Config, g: GameState)
    requires Idle(c, g)
    ensures !g.started
  {
  }

  /** A turn keeps the invariant, however long it lasts and whoever dies in it. */
  lemma RunTurnOk(c: Config, g: GameState)
    requires GameOk(c, g)
    ensures GameOk(c, RunTurn(c, g))
  {
    hide GameOk;
    hide RunTurnFrom;
    RunTurnFromOk(c, g, |g.players|, 0);
  }
}
