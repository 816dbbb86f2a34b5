/** Who dies in a turn, told from the worms before it: whether the turn ends the game can be seen beforehand. */
module Deaths {
  import opened Messages
  import opened MessageQueue
  import opened Grammar
  import opened Game
  import opened Rules
  import opened GameInvariant
  import opened GameTurns
  import opened GameStart
  import opened WhoMoved

  /** How many of these players die if all of them move, one after the other. */
  function Fallen(c: Config, players: seq<Player>, eaten: set<Coordinates>): nat {
    if players == [] then 0
    else if players[0].isEliminated || !players[0].takesPart then Fallen(c, players[1..], eaten)
    else
      var to := Goal(c, players[0]);
      if Deadly(c.board, eaten, players[0].pixel, to) then 1 + Fallen(c, players[1..], eaten)
      else Fallen(c, players[1..], eaten + {PixelAt(to)})
  }

  /** A turn ends the game if it leaves fewer than two. */
  predicate TurnEnds(c: Config, g: GameState) {
    g.started && g.alive < 2 + Fallen(c, g.players, g.eaten)
  }

  /** From player i on. */
  function Left(c: Config, g: GameState, i: nat): nat
    requires i <= |g.players|
  {
    Fallen(c, g.players[i..], g.eaten)
  }

  lemma LeftOne(c: Config, g: GameState, i: nat)
    requires i < |g.players|
    ensures g.players[i..][0] == g.players[i] && g.players[i..][1..] == g.players[i + 1..]
    ensures Left(c, g, i) == Fallen(c, [g.players[i]] + g.players[i + 1..], g.eaten)
  {
    assert g.players[i..] == [g.players[i]] + g.players[i + 1..];
    hide Fallen;
  }

  lemma FallenFirst(c: Config, p: Player, rest: seq<Player>, eaten: set<Coordinates>)
    ensures p.isEliminated || !p.takesPart ==> Fallen(c, [p] + rest, eaten) == Fallen(c, rest, eaten)
    ensures !p.isEliminated && p.takesPart ==>
              Fallen(c, [p] + rest, eaten)
              == if Deadly(c.board, eaten, p.pixel, Goal(c, p)) then 1 + Fallen(c, rest, eaten)
                                              else Fallen(c, rest, eaten + {PixelAt(Goal(c, p))})
  {
    var all := [p] + rest;
    assert all[0] == p && all[1..] == rest;
    hide Goal;
    hide Deadly;
    hide PixelAt;
  }

  lemma LeftAfter(c: Config, g: GameState, h: GameState, j: nat, p: Player, eaten: set<Coordinates>)
    requires j < |g.players| && h.players == g.players[j := p] && h.eaten == eaten
    ensures |h.players| == |g.players| && Left(c, h, j + 1) == Fallen(c, g.players[j + 1..], eaten)
  {
    assert h.players[j + 1..] == g.players[j + 1..];
    hide Fallen;
  }

  /** What a move does to the count, and to the players still to move. */
  ghost predicate Counts(c: Config, g: GameState, h: GameState, j: nat) {
    && j < |g.players|
    && if h.started then |h.players| == |g.players| && h.alive + Left(c, g, j) == g.alive + Left(c, h, j + 1)
       else g.alive < 2 + Left(c, g, j)
  }

  lemma DeathCounts(c: Config, g: GameState, h: GameState, i: nat, j: nat)
    requires InMotion(c, h, i, j) && j < |g.players| && h == g.(players := h.players) && |h.players| == |g.players|
    requires Left(c, g, j) == 1 + Fallen(c, g.players[j + 1..], g.eaten)
    requires h.players == g.players[j := h.players[j]]
    ensures Counts(c, g, Eliminate(h, j), j)
  {
    hide *;
    var s := Struck(h, j);
    StruckLog(c, h, i, j);
    InMotionGives(c, h, i, j);
    StruckLogged(c, h, i, j);
    EliminateIsStruck(h, j);
    StruckCounts(c, g, h, s, j);
    EndsStopped(s);
    CountsMeans(c, g, Eliminate(h, j), j);
    InGameAlive(c.board, s);
  }

  lemma StruckCounts(c: Config, g: GameState, h: GameState, s: GameState, j: nat)
    requires StruckFields(h, s, j) && j < |g.players| && h == g.(players := h.players) && |h.players| == |g.players|
    requires h.players == g.players[j := h.players[j]]
    ensures |s.players| == |g.players| && Left(c, s, j + 1) == Fallen(c, g.players[j + 1..], g.eaten)
    ensures s.alive == g.alive - 1
  {
    hide Fallen;
    LeftAfter(c, g, s, j, s.players[j], g.eaten);
  }

  lemma EndsStopped(g: GameState)
    ensures !EndGame(g).started
  {
    hide DropAll;
    hide Staying;
    hide Leaving;
    hide Schedule;
  }

  lemma CountsMeans(c: Config, g: GameState, h: GameState, j: nat)
    ensures Counts(c, g, h, j) <==>
            && j < |g.players|
            && if h.started then |h.players| == |g.players| && h.alive + Left(c, g, j) == g.alive + Left(c, h, j + 1)
               else g.alive < 2 + Left(c, g, j)
  {
    hide Left;
  }

  lemma AteCounts(c: Config, g: GameState, h: GameState, s: GameState, j: nat, pixel: Coordinates)
    requires AteFields(h, s, j, pixel) && j < |g.players| && h == g.(players := h.players) && |h.players| == |g.players|
    requires h.players == g.players[j := h.players[j]] && g.started
    requires Left(c, g, j) == Fallen(c, g.players[j + 1..], g.eaten + {pixel})
    ensures Counts(c, g, s, j)
  {
    hide Fallen;
    LeftAfter(c, g, s, j, s.players[j], g.eaten + {pixel});
  }

  lemma StayCounts(c: Config, g: GameState, h: GameState, j: nat)
    requires j < |g.players| && h == g.(players := h.players) && |h.players| == |g.players| && g.started
    requires h.players == g.players[j := h.players[j]]
    requires Left(c, g, j) == Fallen(c, g.players[j + 1..], g.eaten)
    ensures Counts(c, g, h, j)
  {
    hide Fallen;
    LeftAfter(c, g, h, j, h.players[j], g.eaten);
  }

  lemma MoveCounts(c: Config, g: GameState, j: nat)
    requires Underway(c, g, |g.players|) && j < |g.players|
    ensures Counts(c, g, MovePlayer(c, g, j), j)
  {
    hide *;
    var n, mover := |g.players|, g.players[j];
    UnderwayMeans(c, g, n);
    LeftOne(c, g, j);
    FallenFirst(c, mover, g.players[j + 1..], g.eaten);
    if mover.isEliminated || !mover.takesPart {
      NoMove(c, g, j);
      assert g.players == g.players[j := g.players[j]];
      StayCounts(c, g, g, j);
    } else {
      var p, to := Moved(c, mover), Goal(c, mover);
      var h := g.(players := g.players[j := p]);
      PlayingGives(c, g, n);
      AliveInvariant(c, g, j);
      OnTheBoard(c.board, g.eaten, mover);
      MoveStarts(c, g, j, p, h);
      MoveByRules(c, g, j, h);
      SafeIsInside(c.board, g.eaten, mover.pixel, to);
      if Deadly(c.board, g.eaten, mover.pixel, to) {
        DeathCounts(c, g, h, n, j);
      } else if PixelAt(to) == mover.pixel {
        OwnPixel(c.board, g.eaten, mover);
        assert g.eaten + {mover.pixel} == g.eaten;
        StayCounts(c, g, h, j);
      } else {
        AteLog(c, h, n, j, PixelAt(to));
        AteCounts(c, g, h, EatPixel(h, j, PixelAt(to)), j, PixelAt(to));
      }
    }
  }

  lemma SafeIsInside(b: Board, eaten: set<Coordinates>, from: Coordinates, to: (real, real))
    ensures !Deadly(b, eaten, from, to) ==> to.0 >= 0.0 && to.1 >= 0.0
  {
    hide PixelAt;
  }

  lemma OwnPixel(b: Board, eaten: set<Coordinates>, p: Player)
    requires OnBoard(b, eaten, p)
    ensures p.pixel in eaten
  {
  }

  lemma NobodyLeft(c: Config, g: GameState)
    ensures Left(c, g, |g.players|) == 0
  {
    assert g.players[|g.players|..] == [];
  }

  lemma EnoughAlive(c: Config, g: GameState)
    requires Underway(c, g, |g.players|)
    ensures g.alive >= 2 && g.started
  {
    UnderwayMeans(c, g, |g.players|);
    PlayingGives(c, g, |g.players|);
    hide Playing;
  }

  lemma {:induction false} TurnFromEnds(c: Config, g: GameState, n: nat, i: nat)
    requires Underway(c, g, |g.players|) && n == |g.players| && i <= n
    ensures RunTurnFrom(c, g, n, i).started <==> 2 + Left(c, g, i) <= g.alive
    decreases n - i
  {
    hide *;
    RunTurnStep(c, g, n, i);
    EnoughAlive(c, g);
    if i == n {
      NobodyLeft(c, g);
    } else {
      var h := MovePlayer(c, g, i);
      MoveCounts(c, g, i);
      CountsMeans(c, g, h, i);
      MovePlayerOk(c, g, i);
      if h.started {
        TurnFromEnds(c, h, n, i + 1);
      } else {
        RunTurnStep(c, h, n, i + 1);
      }
    }
  }

  lemma EverybodyLeft(c: Config, g: GameState)
    ensures TurnEnds(c, g) <==> g.started && g.alive < 2 + Left(c, g, 0)
  {
    assert g.players[0..] == g.players;
    hide Fallen;
  }

  /** A turn ends the game exactly if the worms that die in it leave fewer than two. */
  lemma EndsExactlyWhen(c: Config, g: GameState)
    requires GameOk(c, g) && g.started
    ensures RunTurn(c, g).started <==> !TurnEnds(c, g)
  {
    GameOkCases(c, g);
    hide *;
    UnderwayMeans(c, g, |g.players|);
    EverybodyLeft(c, g);
    TurnFromEnds(c, g, |g.players|, 0);
    TurnIs(c, g);
  }

  lemma TurnIs(c: Config, g: GameState)
    ensures RunTurn(c, g) == RunTurnFrom(c, g, |g.players|, 0)
  {
    hide RunTurnFrom;
  }
}
