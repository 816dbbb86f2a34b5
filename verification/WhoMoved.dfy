/** What a move logs, and whom the GUI line of that event names. */
module WhoMoved {
  import opened Bytes
  import opened Messages
  import opened PlayerList
  import opened Grammar
  import opened Game
  import opened Rules
  import opened GameInvariant
  import opened GameTurns
  import opened GameStart
  import opened GameMessages
  import opened Rendering

  /** The death of a player; when one of two dies the game is over. */
  function DeathEvents(at: nat, no: nat, alive: nat): seq<Event> {
    [Event(at, PlayerEliminated(no))] + if alive == 2 then [Event(at + 1, GameOver)] else []
  }

  /** What the rules say of a worm that moves from its pixel to a point. */
  function MoveEvents(b: Board, eaten: set<Coordinates>, from: Coordinates, to: (real, real), at: nat, no: nat,
                      alive: nat): seq<Event> {
    if Deadly(b, eaten, from, to) then DeathEvents(at, no, alive)
    else if PixelAt(to) == from then []
    else [Event(at, Pixel(no, PixelAt(to).0, PixelAt(to).1))]
  }

  /** A number in the log stands for the name at that place of the announced list. */
  lemma NumberNames(c: Config, g: GameState, i: nat, j: nat)
    requires Counted(c, g, i) && j < |g.players| && g.players[j].name in g.numbers
    ensures var no, names := NumberOf(g, g.players[j].name), Roster(CurrentLog(g));
            no < |names| && names[no] == g.players[j].name
  {
    hide InGame;
    hide Tallied;
    hide PlayersOk;
    hide AllPresent;
    hide Roster;
  }

  lemma StruckLogged(c: Config, g: GameState, i: nat, j: nat)
    requires InMotion(c, g, i, j)
    ensures j < |g.players| && g.alive >= 2
    ensures var s, log := Struck(g, j), CurrentLog(g);
            && CurrentLog(s) == log + [Event(|log|, PlayerEliminated(NumberOf(g, g.players[j].name)))]
            && s.alive == g.alive - 1 && InGame(c.board, s)
  {
    hide *;
    InMotionGives(c, g, i, j);
    StruckLog(c, g, i, j);
    StruckCounted(c, g, i, j);
    CountedGives(c, Struck(g, j), i);
    ExtendedLog(c.board, g, Struck(g, j), PlayerEliminated(NumberOf(g, g.players[j].name)));
    StruckAlive(g, Struck(g, j), j);
  }

  lemma EndLogged(b: Board, g: GameState)
    requires InGame(b, g) && g.alive == 1
    ensures CurrentLog(EndGame(g)) == CurrentLog(g) + [Event(|CurrentLog(g)|, GameOver)]
  {
    hide *;
    EndGameLog(b, g);
    ExtendedLog(b, g, EndGame(g), GameOver);
  }

  lemma DeathLogged(c: Config, g: GameState, i: nat, j: nat)
    requires InMotion(c, g, i, j)
    ensures j < |g.players|
    ensures var log, no := CurrentLog(g), NumberOf(g, g.players[j].name);
            CurrentLog(Eliminate(g, j)) == log + DeathEvents(|log|, no, g.alive)
  {
    hide *;
    StruckLogged(c, g, i, j);
    var s, log, no := Struck(g, j), CurrentLog(g), NumberOf(g, g.players[j].name);
    EliminateIsStruck(g, j);
    DeathEventsAre(|log|, no, g.alive);
    if s.alive < 2 {
      EndLogged(c.board, s);
      Both(log, Event(|log|, PlayerEliminated(no)), Event(|log| + 1, GameOver));
    }
  }

  lemma Both(log: seq<Event>, e: Event, f: Event)
    ensures log + [e] + [f] == log + ([e] + [f]) && |log + [e]| == |log| + 1
  {
  }

  lemma DeathEventsAre(at: nat, no: nat, alive: nat)
    ensures DeathEvents(at, no, alive)
         == if alive == 2 then [Event(at, PlayerEliminated(no))] + [Event(at + 1, GameOver)]
            else [Event(at, PlayerEliminated(no))]
  {
  }

  lemma StruckAlive(g: GameState, h: GameState, j: nat)
    requires StruckFields(g, h, j)
    ensures h.alive == g.alive - 1
  {
  }

  /** A move is a death, nothing, or a pixel, as the rules say. */
  lemma MoveByRules(c: Config, g: GameState, j: nat, h: GameState)
    requires j < |g.players| && g.players[j].takesPart && !g.players[j].isEliminated
    requires h == g.(players := g.players[j := Moved(c, g.players[j])])
    requires g.players[j].pixel.0 < c.board.maxx && g.players[j].pixel.1 < c.board.maxy
    ensures var p, to, after := g.players[j], Goal(c, g.players[j]), MovePlayer(c, g, j);
            if Deadly(c.board, g.eaten, p.pixel, to) then after == Eliminate(h, j)
            else if PixelAt(to) == p.pixel then after == h
            else after == EatPixel(h, j, PixelAt(to)) && Reached(c.board, h, j, PixelAt(to))
  {
    MovedToGoal(c, g.players[j]);
    hide Moved;
    hide Goal;
    hide Heading;
    hide Eliminate;
    hide EatPixel;
  }

  /** A move logs what the rules say, under the number of the player who moved, and nothing else. */
  lemma MoveIsLogged(c: Config, g: GameState, j: nat)
    requires Underway(c, g, |g.players|) && j < |g.players| && g.players[j].takesPart && !g.players[j].isEliminated
    ensures var log, names, no := CurrentLog(g), Roster(CurrentLog(g)), NumberOf(g, g.players[j].name);
            && no < |names| && names[no] == g.players[j].name
            && CurrentLog(MovePlayer(c, g, j))
               == log + MoveEvents(c.board, g.eaten, g.players[j].pixel, Goal(c, g.players[j]), |log|, no, g.alive)
  {
    hide *;
    var n, log, no := |g.players|, CurrentLog(g), NumberOf(g, g.players[j].name);
    var h := g.(players := g.players[j := Moved(c, g.players[j])]);
    UnderwayMeans(c, g, n);
    PlayingGives(c, g, n);
    AliveInvariant(c, g, j);
    CountedFrom(c, g, n);
    NumberNames(c, g, n, j);
    MoveStarts(c, g, j, h.players[j], h);
    MovedNumber(c, g, j, h);
    OnTheBoard(c.board, g.eaten, g.players[j]);
    MoveByRules(c, g, j, h);
    EventsOfMove(c.board, g.eaten, g.players[j].pixel, Goal(c, g.players[j]), |log|, no, g.alive);
    if Deadly(c.board, g.eaten, g.players[j].pixel, Goal(c, g.players[j])) {
      DeathLogged(c, h, n, j);
    } else if PixelAt(Goal(c, g.players[j])) == g.players[j].pixel {
      assert log + [] == log;
    } else {
      var pixel := PixelAt(Goal(c, g.players[j]));
      AteLog(c, h, n, j, pixel);
      ExtendedLog(c.board, h, EatPixel(h, j, pixel), Pixel(no, pixel.0, pixel.1));
    }
  }

  lemma EventsOfMove(b: Board, eaten: set<Coordinates>, from: Coordinates, to: (real, real), at: nat, no: nat,
                     alive: nat)
    ensures MoveEvents(b, eaten, from, to, at, no, alive)
         == if Deadly(b, eaten, from, to) then DeathEvents(at, no, alive)
            else if PixelAt(to) == from then []
            else [Event(at, Pixel(no, PixelAt(to).0, PixelAt(to).1))]
    ensures !Deadly(b, eaten, from, to) ==> to.0 >= 0.0 && to.1 >= 0.0
  {
    hide DeathEvents;
    hide PixelAt;
  }

  lemma OnTheBoard(b: Board, eaten: set<Coordinates>, p: Player)
    requires OnBoard(b, eaten, p)
    ensures p.pixel.0 < b.maxx && p.pixel.1 < b.maxy
  {
  }

  lemma MovedNumber(c: Config, g: GameState, j: nat, h: GameState)
    requires j < |g.players| && h == g.(players := g.players[j := Moved(c, g.players[j])])
    ensures CurrentLog(h) == CurrentLog(g) && NumberOf(h, h.players[j].name) == NumberOf(g, g.players[j].name)
  {
    MovedKeeps(c, g.players[j]);
    hide Moved;
  }

  /** The line the GUI protocol asks for when this happens to the player called `name`. */
  function Line(d: EventData, name: Text): Text {
    match d
    case Pixel(_, x, y) => Ascii("PIXEL ") + Decimal(x) + [SPACE] + Decimal(y) + [SPACE] + name + Ascii("\n")
    case PlayerEliminated(_) => Ascii("PLAYER_ELIMINATED ") + name + Ascii("\n")
    case NewGame(_, _, _) => []
    case GameOver => []
    case UnknownEvent => []
  }

  /** The line for an event of a legal log names the player with its number. */
  lemma LineNamesNumber(b: Board, log: seq<Event>, i: nat)
    requires LogOk(b, log) && i < |log|
    ensures var d, names := log[i].data, Roster(log);
            (d.Pixel? || d.PlayerEliminated? ==>
                d.playerNumber < |names| && GuiLine(log[i], Numbered(names)) == Line(d, names[d.playerNumber]))
  {
    hide *;
    NumberInRoster(b, log, i);
    RosterNumbered(b, log);
    if log[i].data.Pixel? || log[i].data.PlayerEliminated? {
      LineOf(log[i], Numbered(Roster(log)), Roster(log)[log[i].data.playerNumber]);
    }
  }

  lemma NumberInRoster(b: Board, log: seq<Event>, i: nat)
    requires LogOk(b, log) && i < |log|
    ensures log[i].data.Pixel? || log[i].data.PlayerEliminated? ==> log[i].data.playerNumber < |Roster(log)|
  {
    if i == 0 {
      FirstIsNewGame(b, log);
    } else {
      Between(b, log, i);
    }
    hide LogOk;
    hide Roster;
  }

  lemma LineOf(e: Event, names: map<nat, Text>, name: Text)
    requires (e.data.Pixel? || e.data.PlayerEliminated?) && NameOf(names, e.data.playerNumber) == name
    ensures GuiLine(e, names) == Line(e.data, name)
  {
    hide NameOf;
    hide Ascii;
    hide Decimal;
  }

  /** The events a move appended. */
  lemma AppendedAt(log: seq<Event>, more: seq<Event>, i: nat)
    requires |log| <= i < |log| + |more|
    ensures (log + more)[i] == more[i - |log|]
  {
  }

  lemma MoveEventsNumber(b: Board, eaten: set<Coordinates>, from: Coordinates, to: (real, real), at: nat, no: nat,
                         alive: nat, k: nat)
    requires k < |MoveEvents(b, eaten, from, to, at, no, alive)|
    ensures var d := MoveEvents(b, eaten, from, to, at, no, alive)[k].data;
            d == GameOver || ((d.Pixel? || d.PlayerEliminated?) && d.playerNumber == no)
  {
  }

  /** The log after a move is still legal, and has the same roster. */
  lemma LogAfterMove(c: Config, g: GameState, j: nat)
    requires Underway(c, g, |g.players|) && j < |g.players| && CurrentLog(g) <= CurrentLog(MovePlayer(c, g, j))
    ensures var log := CurrentLog(MovePlayer(c, g, j)); LogOk(c.board, log) && Roster(log) == Roster(CurrentLog(g))
  {
    hide *;
    var h, n := MovePlayer(c, g, j), |g.players|;
    MovePlayerOk(c, g, j);
    UnderwayLog(c, g, n);
    if h.started {
      UnderwayLog(c, h, n);
    } else {
      IdleMeans(c, h);
      LastFinished(c.board, h);
    }
    PrefixOk(c.board, CurrentLog(h), |CurrentLog(g)|);
    assert CurrentLog(h)[..|CurrentLog(g)|] == CurrentLog(g);
  }

  lemma UnderwayLog(c: Config, g: GameState, i: nat)
    requires Underway(c, g, i)
    ensures LogOk(c.board, CurrentLog(g)) && CurrentLog(g) != []
  {
    UnderwayMeans(c, g, i);
    PlayingGives(c, g, i);
    hide Playing;
    hide Underway;
  }

  lemma LastFinished(b: Board, g: GameState)
    requires Finished(b, g.logs, |g.logs|) && CurrentLog(g) != []
    ensures LogOk(b, CurrentLog(g))
  {
    hide LogOk;
    hide Over;
  }

  /** What the GUI is told about a move names the player that moved. */
  lemma LinesNameTheMover(c: Config, g: GameState, j: nat, i: nat)
    requires Underway(c, g, |g.players|) && j < |g.players| && g.players[j].takesPart && !g.players[j].isEliminated
    requires |CurrentLog(g)| <= i < |CurrentLog(MovePlayer(c, g, j))|
    ensures var log := CurrentLog(MovePlayer(c, g, j));
            var d := log[i].data;
            if d.Pixel? || d.PlayerEliminated? then GuiLine(log[i], Numbered(Roster(log))) == Line(d, g.players[j].name)
            else d == GameOver
  {
    hide *;
    var log, no := CurrentLog(g), NumberOf(g, g.players[j].name);
    var more := MoveEvents(c.board, g.eaten, g.players[j].pixel, Goal(c, g.players[j]), |log|, no, g.alive);
    MoveIsLogged(c, g, j);
    LogAfterMove(c, g, j);
    AppendedAt(log, more, i);
    MoveEventsNumber(c.board, g.eaten, g.players[j].pixel, Goal(c, g.players[j]), |log|, no, g.alive, i - |log|);
    LineNamesNumber(c.board, CurrentLog(MovePlayer(c, g, j)), i);
  }

  // ---- The start of a game ----

  lemma InitialAt(log: seq<Event>, n: nat, k: nat)
    requires OneEach(log, n) && 1 <= k <= n
    ensures k < |log| && InitialEvent(log[k].data, k - 1)
  {
  }

  lemma InitialMeans(d: EventData, no: nat)
    requires InitialEvent(d, no)
    ensures (d.Pixel? || d.PlayerEliminated?) && d.playerNumber == no
  {
  }

  lemma StartedLog(c: Config, g: GameState, players: seq<Player>)
    requires Started(c, g, players)
    ensures LogOk(c.board, CurrentLog(g)) && OneEach(CurrentLog(g), |players|)
    ensures Roster(CurrentLog(g)) == PlayerNamesOf(players)
  {
    if g.started {
      UnderwayLog(c, g, |players|);
    } else {
      IdleMeans(c, g);
      hide LogOk;
      hide Over;
      hide Roster;
      hide PlayersOk;
      LastFinished(c.board, g);
    }
  }

  /** The k-th event of a game is the placement of the k-th player, and its line names that player. */
  lemma LinesNameThePlaced(c: Config, g: GameState, k: nat)
    requires Idle(c, g) && CanStart(g.players) && 1 <= k <= |g.players|
    ensures var log := CurrentLog(StartGame(c, g));
            && k < |log| && (log[k].data.Pixel? || log[k].data.PlayerEliminated?)
            && GuiLine(log[k], Numbered(Roster(log))) == Line(log[k].data, g.players[k - 1].name)
  {
    hide *;
    var h := StartGame(c, g);
    var log := CurrentLog(h);
    StartGameOk(c, g);
    StartedLog(c, h, g.players);
    InitialAt(log, |g.players|, k);
    InitialMeans(log[k].data, k - 1);
    LineNamesNumber(c.board, log, k);
  }
}
