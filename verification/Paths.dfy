/** Whole turns, and where a worm is after many of them: told by the rules alone. */
module Paths {
  import opened Bytes
  import opened Messages
  import opened Grammar
  import opened Game
  import opened Rules
  import opened GameInvariant
  import opened GameTurns
  import opened GameStart
  import opened WhoMoved
  import opened Deaths
  import opened Tracks

  // ---- One turn, player by player ----

  /** A worm that has moved: it has turned and is at its goal, where it lives on that pixel or has died. */
  predicate Stepped(c: Config, p: Player, q: Player) {
    var to := Goal(c, p);
    var d := Heading(p.movementDirection, p.turnDirection, c.turningSpeed);
    var r := p.(x := to.0, y := to.1, movementDirection := d);
    q == r.(isEliminated := true) || (to.0 >= 0.0 && to.1 >= 0.0 && q == r.(pixel := PixelAt(to)))
  }

  /** What a turn makes of a player. */
  predicate TurnedInto(c: Config, p: Player, q: Player) {
    if Lives(p) then Stepped(c, p, q) else q == p
  }

  ghost predicate OnlyChanged(g: GameState, h: GameState, j: nat) {
    && |h.players| == |g.players| && h.numbers == g.numbers
    && forall k | 0 <= k < |g.players| && k != j :: h.players[k] == g.players[k]
  }

  lemma StruckOnly(c: Config, g: GameState, h: GameState, s: GameState, j: nat)
    requires j < |g.players| && h == g.(players := g.players[j := Moved(c, g.players[j])]) && StruckFields(h, s, j)
    ensures OnlyChanged(g, s, j) && Stepped(c, g.players[j], s.players[j]) && s.eaten == g.eaten
  {
    MovedToGoal(c, g.players[j]);
    hide Goal;
    hide Moved;
    hide Heading;
  }

  lemma StayedOnly(c: Config, g: GameState, h: GameState, j: nat)
    requires j < |g.players| && h == g.(players := g.players[j := Moved(c, g.players[j])])
    requires Goal(c, g.players[j]).0 >= 0.0 && Goal(c, g.players[j]).1 >= 0.0
    requires PixelAt(Goal(c, g.players[j])) == g.players[j].pixel
    ensures OnlyChanged(g, h, j) && Stepped(c, g.players[j], h.players[j])
  {
    MovedToGoal(c, g.players[j]);
    hide Goal;
    hide Moved;
    hide Heading;
  }

  lemma AteOnly(c: Config, g: GameState, h: GameState, s: GameState, j: nat)
    requires j < |g.players| && h == g.(players := g.players[j := Moved(c, g.players[j])])
    requires Goal(c, g.players[j]).0 >= 0.0 && Goal(c, g.players[j]).1 >= 0.0
    requires AteFields(h, s, j, PixelAt(Goal(c, g.players[j])))
    ensures OnlyChanged(g, s, j) && Stepped(c, g.players[j], s.players[j])
  {
    MovedToGoal(c, g.players[j]);
    hide Goal;
    hide Moved;
    hide Heading;
    hide PixelAt;
  }

  lemma MoveChanges(c: Config, g: GameState, j: nat)
    requires Underway(c, g, |g.players|) && j < |g.players| && MovePlayer(c, g, j).started
    ensures OnlyChanged(g, MovePlayer(c, g, j), j)
    ensures TurnedInto(c, g.players[j], MovePlayer(c, g, j).players[j])
  {
    hide *;
    var n, p, to := |g.players|, g.players[j], Goal(c, g.players[j]);
    UnderwayMeans(c, g, n);
    LivesMeans(p);
    if !Lives(p) {
      NoMove(c, g, j);
      NothingChanged(c, g, j);
    } else {
      var h := g.(players := g.players[j := Moved(c, p)]);
      PlayingGives(c, g, n);
      AliveInvariant(c, g, j);
      OnTheBoard(c.board, g.eaten, p);
      MoveStarts(c, g, j, Moved(c, p), h);
      MoveByRules(c, g, j, h);
      SafeIsInside(c.board, g.eaten, p.pixel, to);
      if Deadly(c.board, g.eaten, p.pixel, to) {
        EliminateIsStruck(h, j);
        EndsStopped(Struck(h, j));
        StruckLog(c, h, n, j);
        StruckOnly(c, g, h, Struck(h, j), j);
      } else if PixelAt(to) == p.pixel {
        StayedOnly(c, g, h, j);
      } else {
        AteLog(c, h, n, j, PixelAt(to));
        AteOnly(c, g, h, EatPixel(h, j, PixelAt(to)), j);
      }
      OnlyRest(g, MovePlayer(c, g, j), j);
      TurnedIntoLiving(c, p, MovePlayer(c, g, j).players[j]);
    }
  }

  lemma NothingChanged(c: Config, g: GameState, j: nat)
    requires j < |g.players| && !Lives(g.players[j])
    ensures OnlyChanged(g, g, j) && TurnedInto(c, g.players[j], g.players[j])
  {
    hide Stepped;
  }

  lemma TurnedIntoLiving(c: Config, p: Player, q: Player)
    requires Lives(p) && Stepped(c, p, q)
    ensures TurnedInto(c, p, q)
  {
    hide Stepped;
  }

  /** From player i on everybody has been turned into what the rules say; the others are as they were. */
  ghost predicate TurnedFrom(c: Config, g: GameState, h: GameState, i: nat) {
    && |h.players| == |g.players| && h.numbers == g.numbers
    && forall k | 0 <= k < |g.players| ::
         if k < i then h.players[k] == g.players[k] else TurnedInto(c, g.players[k], h.players[k])
  }

  lemma TurnedNext(c: Config, g: GameState, h: GameState, e: GameState, i: nat)
    requires i < |g.players| && OnlyChanged(g, h, i) && TurnedInto(c, g.players[i], h.players[i])
    requires TurnedFrom(c, h, e, i + 1)
    ensures TurnedFrom(c, g, e, i)
  {
    hide TurnedInto;
  }

  lemma NobodyTurned(c: Config, g: GameState)
    ensures TurnedFrom(c, g, g, |g.players|)
  {
  }

  lemma {:induction false} TurnFromMoves(c: Config, g: GameState, n: nat, i: nat)
    requires Underway(c, g, |g.players|) && n == |g.players| && i <= n && RunTurnFrom(c, g, n, i).started
    ensures TurnedFrom(c, g, RunTurnFrom(c, g, n, i), i)
    decreases n - i
  {
    hide *;
    RunTurnStep(c, g, n, i);
    EnoughAlive(c, g);
    if i == n {
      NobodyTurned(c, g);
    } else {
      var h := MovePlayer(c, g, i);
      MovePlayerOk(c, g, i);
      RunTurnStep(c, h, n, i + 1);
      MoveChanges(c, g, i);
      TurnFromMoves(c, h, n, i + 1);
      TurnedNext(c, g, h, RunTurnFrom(c, h, n, i + 1), i);
    }
  }

  /** A turn that does not end the game moves every living worm by one step, and nobody else. */
  lemma TurnMovesAll(c: Config, g: GameState)
    requires GameOk(c, g) && g.started && RunTurn(c, g).started
    ensures TurnedFrom(c, g, RunTurn(c, g), 0)
  {
    GameOkCases(c, g);
    hide *;
    UnderwayMeans(c, g, |g.players|);
    TurnIs(c, g);
    TurnFromMoves(c, g, |g.players|, 0);
  }

  // ---- What a turn logs ----

  /** The events of these players' moves, one after the other, until fewer than two are alive. */
  function TurnEvents(c: Config, numbers: map<Text, nat>, players: seq<Player>, eaten: set<Coordinates>, at: nat,
                      alive: nat): seq<Event>
    decreases |players|
  {
    if players == [] || alive < 2 then []
    else if !Lives(players[0]) then TurnEvents(c, numbers, players[1..], eaten, at, alive)
    else
      var p, to := players[0], Goal(c, players[0]);
      var no := if p.name in numbers then numbers[p.name] else 0;
      var events := MoveEvents(c.board, eaten, p.pixel, to, at, no, alive);
      if Deadly(c.board, eaten, p.pixel, to) then
        events + TurnEvents(c, numbers, players[1..], eaten, at + |events|, alive - 1)
      else events + TurnEvents(c, numbers, players[1..], eaten + {PixelAt(to)}, at + |events|, alive)
  }

  lemma TurnEventsFirst(c: Config, numbers: map<Text, nat>, p: Player, rest: seq<Player>, eaten: set<Coordinates>,
                        at: nat, alive: nat)
    requires alive >= 2
    ensures var no, to := if p.name in numbers then numbers[p.name] else 0, Goal(c, p);
            var events := MoveEvents(c.board, eaten, p.pixel, to, at, no, alive);
            var all := TurnEvents(c, numbers, [p] + rest, eaten, at, alive);
            if !Lives(p) then all == TurnEvents(c, numbers, rest, eaten, at, alive)
            else if Deadly(c.board, eaten, p.pixel, to) then
              all == events + TurnEvents(c, numbers, rest, eaten, at + |events|, alive - 1)
            else all == events + TurnEvents(c, numbers, rest, eaten + {PixelAt(to)}, at + |events|, alive)
  {
    var all := [p] + rest;
    assert all[0] == p && all[1..] == rest;
    hide Goal;
    hide Deadly;
    hide MoveEvents;
    hide PixelAt;
    hide Lives;
  }

  lemma NoTurnEvents(c: Config, numbers: map<Text, nat>, players: seq<Player>, eaten: set<Coordinates>, at: nat,
                     alive: nat)
    requires players == [] || alive < 2
    ensures TurnEvents(c, numbers, players, eaten, at, alive) == []
  {
  }

  /** What a move leaves to the players behind. */
  ghost predicate Handed(c: Config, g: GameState, h: GameState, j: nat) {
    j < |g.players| &&
    var p, to := g.players[j], Goal(c, g.players[j]);
    if Deadly(c.board, g.eaten, p.pixel, to) then
      && (h.started <==> g.alive > 2) && (h.started ==> h.alive == g.alive - 1 && h.eaten == g.eaten)
    else h.started && h.alive == g.alive && h.eaten == g.eaten + {PixelAt(to)}
  }

  lemma DeathHanded(c: Config, g: GameState, h: GameState, i: nat, j: nat)
    requires InMotion(c, h, i, j) && j < |g.players| && h == g.(players := h.players) && |h.players| == |g.players|
    requires Deadly(c.board, g.eaten, g.players[j].pixel, Goal(c, g.players[j]))
    ensures Handed(c, g, Eliminate(h, j), j)
  {
    var s := Struck(h, j);
    StruckLog(c, h, i, j);
    EliminateIsStruck(h, j);
    EndsStopped(s);
    StruckLogged(c, h, i, j);
    InGameAlive(c.board, s);
    hide InMotion;
    hide Eliminate;
    hide EndGame;
    hide Struck;
    hide Goal;
    hide Deadly;
    hide InGame;
    hide Extended;
  }

  lemma StayHanded(c: Config, g: GameState, h: GameState, j: nat)
    requires j < |g.players| && h == g.(players := h.players) && g.started
    requires !Deadly(c.board, g.eaten, g.players[j].pixel, Goal(c, g.players[j]))
    requires Goal(c, g.players[j]).0 >= 0.0 && Goal(c, g.players[j]).1 >= 0.0
    requires PixelAt(Goal(c, g.players[j])) == g.players[j].pixel && g.players[j].pixel in g.eaten
    ensures Handed(c, g, h, j)
  {
    assert g.eaten + {g.players[j].pixel} == g.eaten;
    hide Goal;
    hide Deadly;
    hide PixelAt;
  }

  lemma AteHanded(c: Config, g: GameState, h: GameState, s: GameState, j: nat)
    requires j < |g.players| && h == g.(players := h.players) && g.started
    requires !Deadly(c.board, g.eaten, g.players[j].pixel, Goal(c, g.players[j]))
    requires Goal(c, g.players[j]).0 >= 0.0 && Goal(c, g.players[j]).1 >= 0.0
    requires AteFields(h, s, j, PixelAt(Goal(c, g.players[j])))
    ensures Handed(c, g, s, j)
  {
    hide Goal;
    hide Deadly;
    hide PixelAt;
  }

  lemma MoveHands(c: Config, g: GameState, j: nat)
    requires Underway(c, g, |g.players|) && j < |g.players| && Lives(g.players[j])
    ensures Handed(c, g, MovePlayer(c, g, j), j)
  {
    hide *;
    var n, p, to := |g.players|, g.players[j], Goal(c, g.players[j]);
    var h := g.(players := g.players[j := Moved(c, p)]);
    UnderwayMeans(c, g, n);
    LivesMeans(p);
    PlayingGives(c, g, n);
    AliveInvariant(c, g, j);
    OnTheBoard(c.board, g.eaten, p);
    MoveStarts(c, g, j, Moved(c, p), h);
    MoveByRules(c, g, j, h);
    SafeIsInside(c.board, g.eaten, p.pixel, to);
    if Deadly(c.board, g.eaten, p.pixel, to) {
      DeathHanded(c, g, h, n, j);
    } else if PixelAt(to) == p.pixel {
      OwnPixel(c.board, g.eaten, p);
      StayHanded(c, g, h, j);
    } else {
      AteLog(c, h, n, j, PixelAt(to));
      AteHanded(c, g, h, EatPixel(h, j, PixelAt(to)), j);
    }
  }

  lemma HandedMeans(c: Config, g: GameState, h: GameState, j: nat)
    requires Handed(c, g, h, j)
    ensures j < |g.players|
    ensures var p, to := g.players[j], Goal(c, g.players[j]);
            if Deadly(c.board, g.eaten, p.pixel, to) then
              (h.started <==> g.alive > 2) && (h.started ==> h.alive == g.alive - 1 && h.eaten == g.eaten)
            else
              to.0 >= 0.0 && to.1 >= 0.0 && h.started && h.alive == g.alive && h.eaten == g.eaten + {PixelAt(to)}
  {
    hide Goal;
    hide PixelAt;
  }

  lemma OnlyRest(g: GameState, h: GameState, j: nat)
    requires OnlyChanged(g, h, j) && j < |g.players|
    ensures |h.players| == |g.players| && h.numbers == g.numbers && h.players[j + 1..] == g.players[j + 1..]
  {
  }

  lemma NumberOfIs(g: GameState, name: Text)
    ensures NumberOf(g, name) == if name in g.numbers then g.numbers[name] else 0
  {
  }

  lemma JoinedLogs(a: seq<Event>, b: seq<Event>, d: seq<Event>)
    ensures a + b + d == a + (b + d) && |a + b| == |a| + |b| && a + [] == a
  {
  }

  lemma {:induction false} TurnFromLogged(c: Config, g: GameState, n: nat, i: nat)
    requires Underway(c, g, |g.players|) && n == |g.players| && i <= n
    ensures CurrentLog(RunTurnFrom(c, g, n, i))
         == CurrentLog(g) + TurnEvents(c, g.numbers, g.players[i..], g.eaten, |CurrentLog(g)|, g.alive)
    decreases n - i
  {
    hide *;
    var log := CurrentLog(g);
    RunTurnStep(c, g, n, i);
    EnoughAlive(c, g);
    JoinedLogs(log, [], []);
    if i == n {
      assert g.players[n..] == [];
      NoTurnEvents(c, g.numbers, [], g.eaten, |log|, g.alive);
    } else {
      var p, h := g.players[i], MovePlayer(c, g, i);
      var to, no := Goal(c, p), NumberOf(g, p.name);
      assert g.players[i..] == [p] + g.players[i + 1..];
      TurnEventsFirst(c, g.numbers, p, g.players[i + 1..], g.eaten, |log|, g.alive);
      NumberOfIs(g, p.name);
      LivesMeans(p);
      MovePlayerOk(c, g, i);
      RunTurnStep(c, h, n, i + 1);
      if h.started {
        MoveChanges(c, g, i);
        OnlyRest(g, h, i);
        TurnFromLogged(c, h, n, i + 1);
      }
      if !Lives(p) {
        NoMove(c, g, i);
      } else {
        var events := MoveEvents(c.board, g.eaten, p.pixel, to, |log|, no, g.alive);
        MoveIsLogged(c, g, i);
        MoveHands(c, g, i);
        HandedMeans(c, g, h, i);
        if !h.started {
          NoTurnEvents(c, g.numbers, g.players[i + 1..], g.eaten, |log| + |events|, g.alive - 1);
          JoinedLogs(log, events, []);
          JoinedLogs(events, [], []);
        } else {
          JoinedLogs(log, events, TurnEvents(c, h.numbers, h.players[i + 1..], h.eaten, |CurrentLog(h)|, h.alive));
        }
      }
    }
  }

  /** A turn logs exactly the moves of the living worms, in order, until the game is over. */
  lemma TurnIsLogged(c: Config, g: GameState)
    requires GameOk(c, g) && g.started
    ensures CurrentLog(RunTurn(c, g))
         == CurrentLog(g) + TurnEvents(c, g.numbers, g.players, g.eaten, |CurrentLog(g)|, g.alive)
  {
    GameOkCases(c, g);
    hide *;
    UnderwayMeans(c, g, |g.players|);
    TurnIs(c, g);
    TurnFromLogged(c, g, |g.players|, 0);
    assert g.players[0..] == g.players;
  }

  // ---- Many turns ----

  function Turns(c: Config, g: GameState, k: nat): GameState {
    if k == 0 then g else RunTurn(c, Turns(c, g, k - 1))
  }

  /** The displacements along the way of player j in the first k turns, added up. */
  ghost function Way(c: Config, g: GameState, j: nat, k: nat): (real, real) {
    if k == 0 then (0.0, 0.0)
    else
      var h, sum := Turns(c, g, k - 1), Way(c, g, j, k - 1);
      if j >= |h.players| then sum
      else
        var p := h.players[j];
        var step := c.motion(p.x, p.y, Heading(p.movementDirection, p.turnDirection, c.turningSpeed));
        (sum.0 + step.0, sum.1 + step.1)
  }

  /** The direction after k turns with the same key pressed. */
  function HeadingAfter(direction: nat, turn: TurnDirection, speed: nat, k: nat): nat {
    if k == 0 then direction
    else
      match turn
      case Right => (direction + k * speed) % 360
      case Left => (direction - k * speed) % 360
      case Straight => direction
  }

  lemma HeadingMore(direction: nat, turn: TurnDirection, speed: nat, k: nat)
    ensures HeadingAfter(direction, turn, speed, 0) == direction
    ensures Heading(HeadingAfter(direction, turn, speed, k), turn, speed) == HeadingAfter(direction, turn, speed, k + 1)
  {
    assert (k + 1) * speed == k * speed + speed;
    RemainderOfSum(direction + k * speed, speed);
    RemainderOfSum(direction - k * speed, -(speed as int));
  }

  lemma RemainderOfSum(a: int, b: int)
    ensures (a % 360 + b) % 360 == (a + b) % 360
  {
  }

  lemma GoalIs(c: Config, p: Player)
    ensures var step := c.motion(p.x, p.y, Heading(p.movementDirection, p.turnDirection, c.turningSpeed));
            Goal(c, p) == (p.x + step.0, p.y + step.1)
  {
  }

  lemma SurvivorStepped(c: Config, p: Player, q: Player)
    requires TurnedInto(c, p, q) && Lives(q)
    ensures Lives(p) && q.x == Goal(c, p).0 && q.y == Goal(c, p).1 && q.turnDirection == p.turnDirection
    ensures q.movementDirection == Heading(p.movementDirection, p.turnDirection, c.turningSpeed) && q.name == p.name
  {
    hide Goal;
    hide Heading;
    hide PixelAt;
  }

  lemma TurnsStep(c: Config, g: GameState, k: nat)
    ensures Turns(c, g, 0) == g && Turns(c, g, k + 1) == RunTurn(c, Turns(c, g, k))
  {
    hide RunTurn;
  }

  lemma {:induction false} TurnsOk(c: Config, g: GameState, k: nat)
    requires GameOk(c, g)
    ensures GameOk(c, Turns(c, g, k))
  {
    hide *;
    TurnsStep(c, g, if k == 0 then 0 else k - 1);
    if k > 0 {
      TurnsOk(c, g, k - 1);
      RunTurnOk(c, Turns(c, g, k - 1));
    }
  }

  lemma StoppedStays(c: Config, g: GameState)
    requires RunTurn(c, g).started
    ensures g.started
  {
    TurnIs(c, g);
    RunTurnStep(c, g, |g.players|, 0);
    hide RunTurnFrom;
    hide RunTurn;
  }

  lemma TurnedAt(c: Config, g: GameState, h: GameState, j: nat)
    requires TurnedFrom(c, g, h, 0) && j < |h.players|
    ensures |g.players| == |h.players| && TurnedInto(c, g.players[j], h.players[j])
  {
    hide TurnedInto;
  }

  /**
   * After k turns a worm that lives is where the displacements have taken it, each coordinate by its own component,
   * and it has turned k times.
   */
  lemma {:induction false} PathOfSurvivor(c: Config, g: GameState, j: nat, k: nat)
    requires GameOk(c, g) && Turns(c, g, k).started
    requires j < |Turns(c, g, k).players| && Lives(Turns(c, g, k).players[j])
    requires j < |g.players|
    ensures var p, q, way := g.players[j], Turns(c, g, k).players[j], Way(c, g, j, k);
            && q.x == p.x + way.0 && q.y == p.y + way.1 && q.turnDirection == p.turnDirection && q.name == p.name
            && q.movementDirection == HeadingAfter(p.movementDirection, p.turnDirection, c.turningSpeed, k)
  {
    hide *;
    HeadingMore(g.players[j].movementDirection, g.players[j].turnDirection, c.turningSpeed,
                if k == 0 then 0 else k - 1);
    TurnsStep(c, g, if k == 0 then 0 else k - 1);
    WayStep(c, g, j, k);
    if k > 0 {
      var h := Turns(c, g, k - 1);
      var q := Turns(c, g, k).players[j];
      TurnsOk(c, g, k - 1);
      StoppedStays(c, h);
      TurnMovesAll(c, h);
      TurnedAt(c, h, Turns(c, g, k), j);
      SurvivorStepped(c, h.players[j], q);
      PathOfSurvivor(c, g, j, k - 1);
      GoalIs(c, h.players[j]);
    }
  }

  lemma WayStep(c: Config, g: GameState, j: nat, k: nat)
    ensures k == 0 ==> Way(c, g, j, k) == (0.0, 0.0)
    ensures k > 0 && j < |Turns(c, g, k - 1).players| ==>
              var p, sum := Turns(c, g, k - 1).players[j], Way(c, g, j, k - 1);
              var step := c.motion(p.x, p.y, Heading(p.movementDirection, p.turnDirection, c.turningSpeed));
              Way(c, g, j, k) == (sum.0 + step.0, sum.1 + step.1)
  {
    hide Turns;
    hide Heading;
  }
}
