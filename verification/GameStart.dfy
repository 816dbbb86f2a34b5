/** The start of a game: everybody is placed, each with exactly one event, and only the last placement can end it. */
module GameStart {
  import opened Bytes
  import opened Names
  import opened Messages
  import opened PlayerList
  import opened MessageQueue
  import opened Grammar
  import opened Game
  import opened GameInvariant
  import opened GameTurns
  import Rng

  // ---- Numbering ----

  lemma NumbersExtended(m: map<Text, nat>, names: seq<Text>, n: nat)
    requires |names| == n + 1 && NumbersOk(m, names[..n]) && names[n] !in m
    ensures NumbersOk(m[names[n] := n], names)
  {
    var next := m[names[n] := n];
    forall name | name in next ensures next[name] < |names| && names[next[name]] == name {
      if name != names[n] {
        assert names[..n][m[name]] == name;
      }
    }
    forall k | 0 <= k < |names| ensures names[k] in next && next[names[k]] == k {
      if k < n {
        assert names[..n][k] == names[k];
      }
    }
  }

  lemma NumberAllStep(names: seq<Text>)
    requires names != [] && |names| <= MAX_PLAYERS && |NumberAll(names[..|names| - 1])| == |names| - 1
    ensures var n := |names| - 1;
            var m := NumberAll(names[..n]);
            NumberAll(names) == if names[n] in m then m else m[names[n] := n]
  {
    var n := |names| - 1;
    FewPlayers(n);
    hide MAX_PLAYERS;
  }

  lemma FewPlayers(n: nat)
    requires n <= MAX_PLAYERS
    ensures n % 0x100 == n
  {
  }

  lemma NewToAll(m: map<Text, nat>, names: seq<Text>, n: nat)
    requires Increasing(names) && |names| == n + 1 && NumbersOk(m, names[..n])
    ensures names[n] !in m
  {
    hide Less;
    if names[n] in m {
      assert names[..n][m[names[n]]] == names[n];
      IncreasingDistinct(names, m[names[n]], n);
    }
  }

  lemma FrontIncreases(names: seq<Text>)
    requires Increasing(names) && names != []
    ensures Increasing(names[..|names| - 1])
  {
    hide Less;
  }

  lemma NobodyNumbered()
    ensures NumbersOk(map[], []) && NumberAll([]) == map[]
  {
  }

  lemma {:induction false} NumberAllOk(names: seq<Text>)
    requires Increasing(names) && |names| <= MAX_PLAYERS
    ensures NumbersOk(NumberAll(names), names) && |NumberAll(names)| == |names|
  {
    hide *;
    if names == [] {
      NobodyNumbered();
    } else {
      var n := |names| - 1;
      FrontIncreases(names);
      assert n <= MAX_PLAYERS;
      NumberAllOk(names[..n]);
      NumberAllStep(names);
      NewToAll(NumberAll(names[..n]), names, n);
      NumbersExtended(NumberAll(names[..n]), names, n);
    }
  }

  lemma NamesOk(players: seq<Player>)
    requires PlayersOk(players) && 2 <= |players|
    ensures RosterOk(PlayerNamesOf(players)) && AllPresent(players, PlayerNamesOf(players))
  {
    var names := PlayerNamesOf(players);
    forall k | 0 <= k < |names| ensures Listed(players, names[k]) {
      assert players[k].name == names[k];
    }
  }

  // ---- Opening ----

  lemma OpenedInGame(c: Config, g: GameState)
    requires PlayersOk(g.players) && 2 <= |g.players|
    ensures var h := OpenGame(c, g);
            && h.players == g.players && h.eaten == {}
            && |CurrentLog(h)| == 1
            && InGame(c.board, h) && Enrolled(h) && Eliminated(CurrentLog(h)) == {}
            && Roster(CurrentLog(h)) == PlayerNamesOf(g.players)
  {
    var names := PlayerNamesOf(g.players);
    NamesOk(g.players);
    FirstEvent(c.board, names);
    NumberAllOk(names);
    OpenedFields(c, g);
    hide *;
    InGameFrom(c.board, OpenGame(c, g), names);
    EnrolledFrom(OpenGame(c, g), names);
  }

  lemma OpenedFields(c: Config, g: GameState)
    requires |g.players| <= MAX_PLAYERS
    ensures var h, names := OpenGame(c, g), PlayerNamesOf(g.players);
            && h.started && h.logs != [] && h.logs[|h.logs| - 1].id == h.gameId && h.players == g.players
            && CurrentLog(h) == [Event(0, NewGame(c.board.maxx, c.board.maxy, PlayersField(names)))]
            && h.eaten == {} && h.alive == |names| && h.numbers == NumberAll(names)
  {
    hide Schedule;
    hide NumberAll;
    hide PlayersField;
  }

  lemma InGameFrom(b: Board, g: GameState, names: seq<Text>)
    requires g.started && g.logs != [] && g.logs[|g.logs| - 1].id == g.gameId && g.alive == |names| >= 1
    requires LogOk(b, CurrentLog(g)) && !Over(CurrentLog(g)) && Roster(CurrentLog(g)) == names
    requires Pixels(CurrentLog(g)) == {} && Eliminated(CurrentLog(g)) == {} && g.eaten == {}
    ensures InGame(b, g)
  {
    hide LogOk;
    hide Over;
    hide Roster;
    hide Pixels;
    hide Eliminated;
  }

  lemma EnrolledFrom(g: GameState, names: seq<Text>)
    requires Roster(CurrentLog(g)) == names
    requires PlayersOk(g.players) && NumbersOk(g.numbers, names) && AllPresent(g.players, names)
    ensures Enrolled(g)
  {
    hide Roster;
    hide PlayersOk;
    hide NumbersOk;
    hide AllPresent;
  }

  lemma UnplacedOk(b: Board, numbers: map<Text, nat>, eaten: set<Coordinates>, p: Player)
    requires p.name in numbers
    ensures PlayerOk(b, numbers, eaten, {}, p, false)
  {
  }

  lemma OpenedOthers(c: Config, g: GameState)
    requires PlayersOk(g.players) && 2 <= |g.players|
    ensures OthersOk(c, OpenGame(c, g), 0, -1) && Tallied(OpenGame(c, g), 0)
  {
    var names, h := PlayerNamesOf(g.players), OpenGame(c, g);
    OpenedInGame(c, g);
    OpenedNumbers(c, g);
    hide OpenGame;
    hide InGame;
    hide Enrolled;
    hide Eliminated;
    hide Roster;
    hide PlayersOk;
    hide PlayerOk;
    forall k | 0 <= k < |h.players|
      ensures PlayerOk(c.board, h.numbers, h.eaten, {}, h.players[k], k < 0)
    {
      UnplacedOk(c.board, h.numbers, h.eaten, h.players[k]);
    }
    assert h.players[..0] == [];
  }

  lemma OpenedNumbers(c: Config, g: GameState)
    requires PlayersOk(g.players) && 2 <= |g.players|
    ensures var h := OpenGame(c, g);
            && h.players == g.players && h.alive == |g.players|
            && forall k | 0 <= k < |g.players| :: g.players[k].name in h.numbers
  {
    var names := PlayerNamesOf(g.players);
    NamesOk(g.players);
    NumberAllOk(names);
    OpenedFields(c, g);
    hide OpenGame;
    hide NumberAll;
    hide PlayersOk;
    forall k | 0 <= k < |g.players| ensures g.players[k].name in NumberAll(names) {
      assert names[k] in NumberAll(names);
    }
  }

  lemma OpenedFinished(c: Config, g: GameState)
    requires Finished(c.board, g.logs, |g.logs|)
    ensures Finished(c.board, OpenGame(c, g).logs, |OpenGame(c, g).logs| - 1) && |OpenGame(c, g).logs| == |g.logs| + 1
  {
    hide LogOk;
    hide Over;
  }

  lemma OpenedPlaying(c: Config, g: GameState)
    requires Idle(c, g) && 2 <= |g.players|
    ensures Underway(c, OpenGame(c, g), 0) && OpenGame(c, g).players == g.players
  {
    var h := OpenGame(c, g);
    OpenedInGame(c, g);
    OpenedOthers(c, g);
    OpenedFinished(c, g);
    hide InGame;
    hide Enrolled;
    hide Tallied;
    hide OthersOk;
    hide PlayersOk;
    hide Finished;
    PlayingFrom(c, h, 0);
    UnderwayMeans(c, h, 0);
  }

  // ---- Placing one player ----

  lemma PlacedKeeps(c: Config, p: Player, r1: nat, r2: nat, r3: nat)
    ensures var q := Placed(c, p, r1, r2, r3);
            && q.name == p.name && Survives(q) == 1 && q.takesPart && !q.isEliminated
            && q.x >= 0.0 && q.y >= 0.0 && q.x.Floor == q.pixel.0 && q.y.Floor == q.pixel.1
            && q.pixel.0 == r1 % c.board.maxx < c.board.maxx && q.pixel.1 == r2 % c.board.maxy < c.board.maxy
  {
  }

  /** Player j as it stands before it is judged: on its pixel, which may be taken. */
  function Arrived(c: Config, g: GameState, j: nat): (h: GameState)
    requires j < |g.players|
    ensures |h.players| == |g.players|
  {
    var r1 := g.rng;
    var r2 := Rng.Next(r1);
    var r3 := Rng.Next(r2);
    g.(players := g.players[j := Placed(c, g.players[j], r1, r2, r3)], rng := Rng.Next(r3), draws := g.draws + 3)
  }

  /** Somebody has already been placed where player j is to start. */
  predicate Taken(c: Config, g: GameState, j: nat)
    requires j < |g.players|
  {
    Arrived(c, g, j).players[j].pixel in g.eaten
  }

  lemma PlaceIsArrived(c: Config, g: GameState, j: nat)
    requires j < |g.players|
    ensures var h := Arrived(c, g, j);
            PlacePlayer(c, g, j) == if Taken(c, g, j) then Eliminate(h, j) else EatPixel(h, j, h.players[j].pixel)
  {
    hide Eliminate;
    hide EatPixel;
    hide Placed;
  }

  lemma ArrivedPlayer(c: Config, g: GameState, j: nat)
    requires j < |g.players|
    ensures var h := Arrived(c, g, j);
            && Replaced(g, h, j, h.players[j]) && Survives(h.players[j]) == 1
            && h.players[j].takesPart && !h.players[j].isEliminated && |h.players| == |g.players|
            && h.logs == g.logs && h.alive == g.alive && h.numbers == g.numbers && h.eaten == g.eaten
            && (h.players[j].pixel !in g.eaten ==> Reached(c.board, h, j, h.players[j].pixel))
  {
    var r1 := g.rng;
    var r2 := Rng.Next(r1);
    var r3 := Rng.Next(r2);
    PlacedKeeps(c, g.players[j], r1, r2, r3);
    hide Placed;
  }

  /** Everybody on the list is in the game. */
  ghost predicate Everyone(g: GameState) {
    Roster(CurrentLog(g)) == PlayerNamesOf(g.players)
  }

  lemma EveryoneNumbered(g: GameState, j: nat)
    requires Everyone(g) && Enrolled(g) && j < |g.players|
    ensures g.players[j].name in g.numbers && g.numbers[g.players[j].name] == j
  {
    hide Roster;
    hide PlayersOk;
    hide AllPresent;
  }

  lemma UnplacedPlayer(c: Config, g: GameState, j: nat)
    requires Playing(c, g, j) && Everyone(g) && j < |g.players|
    ensures g.players[j].name in g.numbers && g.numbers[g.players[j].name] == j && j !in Eliminated(CurrentLog(g))
  {
    PlayingGives(c, g, j);
    EveryoneNumbered(g, j);
    PlayerAlive(c, g, j, j);
    hide Playing;
    hide Eliminated;
    hide Everyone;
  }

  lemma Arrives(c: Config, g: GameState, j: nat)
    requires Playing(c, g, j) && Everyone(g) && j < |g.players|
    ensures InMotion(c, Arrived(c, g, j), j + 1, j) && CurrentLog(Arrived(c, g, j)) == CurrentLog(g)
  {
    hide *;
    var h := Arrived(c, g, j);
    PlayingGives(c, g, j);
    UnplacedPlayer(c, g, j);
    ArrivedPlayer(c, g, j);
    ReplacedName(g, h, j, h.players[j]);
    SameLog(g, h);
    CountedFrom(c, g, j);
    ReplacedCounted(c, g, h, j, j + 1, j, h.players[j]);
    ReplacedOthers(c, g, h, j, j + 1, j, h.players[j]);
    InMotionFrom(c, h, j + 1, j);
  }

  lemma ReplacedName(g: GameState, h: GameState, j: nat, p: Player)
    requires Replaced(g, h, j, p)
    ensures p.name == g.players[j].name
  {
  }

  // ---- One event each ----

  predicate InitialEvent(d: EventData, no: nat) {
    (d.Pixel? && d.playerNumber == no) || d == PlayerEliminated(no)
  }

  /** After NEW_GAME, one event for each of the first i players, in order. */
  ghost predicate OneEach(log: seq<Event>, i: nat) {
    |log| >= 1 + i && forall k | 1 <= k <= i :: InitialEvent(log[k].data, k - 1)
  }

  /** The state of the start of a game when i players have been placed. */
  ghost predicate Starting(c: Config, g: GameState, i: nat) {
    && Underway(c, g, i) && Everyone(g)
    && |CurrentLog(g)| == 1 + i && OneEach(CurrentLog(g), i)
    && (forall no | no in Eliminated(CurrentLog(g)) :: 1 <= no < i)
    && (i == 0 ==> g.eaten == {})
  }

  /** The outcome of the start of a game with the given players. */
  ghost predicate Started(c: Config, g: GameState, players: seq<Player>) {
    var n, log := |players|, CurrentLog(g);
    && OneEach(log, n) && Roster(log) == PlayerNamesOf(players)
    && if g.started then Underway(c, g, n) && |g.players| == n && |log| == 1 + n
       else Idle(c, g) && |log| == 2 + n && Over(log)
  }

  lemma OneEachExtended(log: seq<Event>, i: nat, d: EventData)
    requires OneEach(log, i) && |log| == 1 + i && InitialEvent(d, i)
    ensures OneEach(log + [Event(|log|, d)], i + 1)
  {
    var next := log + [Event(|log|, d)];
    forall k | 1 <= k <= i + 1 ensures InitialEvent(next[k].data, k - 1) {
      if k <= i {
        assert next[k] == log[k];
      }
    }
  }

  lemma EndGameLog(b: Board, g: GameState)
    requires InGame(b, g) && g.alive == 1
    ensures Extended(b, g, EndGame(g), GameOver) && !EndGame(g).started
  {
    MayEnd(b, g);
    hide MayFollow;
    hide Eliminated;
    hide Pixels;
    hide LogOk;
    hide Roster;
    hide Over;
    hide Schedule;
    SavedEvent(b, g, GameOver);
  }

  lemma ExtendedLog(b: Board, g: GameState, h: GameState, d: EventData)
    requires Extended(b, g, h, d)
    ensures CurrentLog(h) == CurrentLog(g) + [Event(|CurrentLog(g)|, d)]
    ensures Over(CurrentLog(h)) <==> d.GameOver?
    ensures Eliminated(CurrentLog(h))
            == Eliminated(CurrentLog(g)) + (if d.PlayerEliminated? then {d.playerNumber} else {})
  {
    hide LogOk;
    hide Roster;
    hide Pixels;
    hide Eliminated;
    hide Over;
  }

  /** Only the last placement can leave a single survivor. */
  lemma EndsOnlyAtLast(b: Board, g: GameState, i: nat)
    requires InGame(b, g) && g.alive == 1 && |Roster(CurrentLog(g))| == |g.players|
    requires forall no | no in Eliminated(CurrentLog(g)) :: 1 <= no < i
    requires 1 <= i <= |g.players|
    ensures i == |g.players|
  {
    hide LogOk;
    hide Roster;
    hide Over;
    hide Pixels;
    var out := Eliminated(CurrentLog(g));
    hide Eliminated;
    SmallNumbers(out, i);
  }

  lemma {:induction false} SmallNumbers(s: set<nat>, n: nat)
    requires 1 <= n && forall k | k in s :: 1 <= k < n
    ensures |s| <= n - 1
    decreases n
  {
    if n > 1 {
      SmallNumbers(s - {n - 1}, n - 1);
    } else {
      assert s == {};
    }
  }

  lemma NamesUnchanged(players: seq<Player>, others: seq<Player>)
    requires SameNames(players, others)
    ensures PlayerNamesOf(players) == PlayerNamesOf(others)
  {
  }

  // ---- One placement ----

  /** What is known of player i when it arrives on its pixel. */
  lemma ArrivesAsNext(c: Config, g: GameState, i: nat)
    requires Starting(c, g, i) && i < |g.players|
    ensures var h := Arrived(c, g, i);
            && InMotion(c, h, i + 1, i) && |h.players| == |g.players| && h.logs == g.logs && h.eaten == g.eaten
            && CurrentLog(h) == CurrentLog(g) && NumberOf(h, h.players[i].name) == i
            && (!Taken(c, g, i) ==> Reached(c.board, h, i, h.players[i].pixel))
            && (Taken(c, g, i) ==> 1 <= i)
  {
    hide *;
    var h := Arrived(c, g, i);
    TakenMeans(c, g, i);
    StartingGives(c, g, i);
    UnplacedPlayer(c, g, i);
    Arrives(c, g, i);
    ArrivedPlayer(c, g, i);
    NumberAfter(g, h, i);
  }

  lemma TakenMeans(c: Config, g: GameState, j: nat)
    requires j < |g.players|
    ensures Taken(c, g, j) <==> Arrived(c, g, j).players[j].pixel in g.eaten
  {
  }

  lemma NumberAfter(g: GameState, h: GameState, i: nat)
    requires i < |g.players| && i < |h.players| && Replaced(g, h, i, h.players[i])
    requires g.players[i].name in g.numbers
    ensures NumberOf(h, h.players[i].name) == g.numbers[g.players[i].name]
  {
  }

  lemma OneEachNext(log: seq<Event>, i: nat, d: EventData)
    requires OneEach(log, i) && |log| == 1 + i && (d.Pixel? || d.PlayerEliminated?) && d.playerNumber == i
    ensures OneEach(log + [Event(|log|, d)], i + 1)
  {
    OneEachExtended(log, i, d);
  }

  lemma SameLog(g: GameState, h: GameState)
    requires g.logs == h.logs
    ensures CurrentLog(g) == CurrentLog(h)
  {
  }

  /** Logging an event of player i takes the start of a game one player further. */
  lemma StartingNext(c: Config, g: GameState, h: GameState, e: GameState, d: EventData, i: nat)
    requires Starting(c, g, i) && Underway(c, e, i + 1) && h.logs == g.logs && Extended(c.board, h, e, d)
    requires PlayerNamesOf(e.players) == PlayerNamesOf(g.players)
    requires (d.Pixel? || d.PlayerEliminated?) && d.playerNumber == i && (d.PlayerEliminated? ==> 1 <= i)
    ensures Starting(c, e, i + 1)
  {
    hide *;
    StartingGives(c, g, i);
    SameLog(g, h);
    ExtendedRoster(c.board, h, e, d);
    ExtendedLog(c.board, h, e, d);
    OneEachNext(CurrentLog(g), i, d);
    StartingFrom(c, e, i + 1);
  }

  lemma PlacedAlive(c: Config, g: GameState, i: nat)
    requires Starting(c, g, i) && i < |g.players| && !Taken(c, g, i)
    ensures Starting(c, PlacePlayer(c, g, i), i + 1)
    ensures PlayerNamesOf(PlacePlayer(c, g, i).players) == PlayerNamesOf(g.players)
  {
    hide *;
    var h, pixel := Arrived(c, g, i), Arrived(c, g, i).players[i].pixel;
    var e, d := EatPixel(h, i, pixel), Pixel(i, pixel.0, pixel.1);
    ArrivesAsNext(c, g, i);
    PlaceIsArrived(c, g, i);
    StartingFinished(c, g, i);
    EatPixelOk(c, h, i + 1, i, pixel);
    AteLog(c, h, i + 1, i, pixel);
    AteNames(h, e, i, pixel);
    ArrivedNames(c, g, i);
    NamesUnchanged(h.players, e.players);
    StartingNext(c, g, h, e, d, i);
  }

  lemma StartingFinished(c: Config, g: GameState, i: nat)
    requires Starting(c, g, i)
    ensures Finished(c.board, g.logs, |g.logs| - 1)
  {
    hide *;
    StartingGives(c, g, i);
  }

  lemma ArrivedNames(c: Config, g: GameState, j: nat)
    requires j < |g.players|
    ensures SameNames(g.players, Arrived(c, g, j).players)
    ensures PlayerNamesOf(Arrived(c, g, j).players) == PlayerNamesOf(g.players)
  {
  }

  lemma StartingGives(c: Config, g: GameState, i: nat)
    requires Starting(c, g, i)
    ensures g.logs != [] && Playing(c, g, i) && Finished(c.board, g.logs, |g.logs| - 1) && Everyone(g)
    ensures Roster(CurrentLog(g)) == PlayerNamesOf(g.players)
    ensures |CurrentLog(g)| == 1 + i && OneEach(CurrentLog(g), i)
    ensures forall no | no in Eliminated(CurrentLog(g)) :: 1 <= no < i
    ensures i == 0 ==> g.eaten == {}
  {
    hide Playing;
    hide Finished;
    hide OneEach;
    hide Eliminated;
    hide Roster;
  }

  lemma StartingFrom(c: Config, g: GameState, i: nat)
    requires Underway(c, g, i) && Roster(CurrentLog(g)) == PlayerNamesOf(g.players)
    requires |CurrentLog(g)| == 1 + i && OneEach(CurrentLog(g), i)
    requires forall no | no in Eliminated(CurrentLog(g)) :: 1 <= no < i
    requires i == 0 ==> g.eaten == {}
    ensures Starting(c, g, i)
  {
    hide Underway;
    hide OneEach;
    hide Eliminated;
    hide Roster;
  }

  /** The state right after player i was struck, before it is known whether the game is over. */
  lemma StruckAtStart(c: Config, g: GameState, i: nat)
    requires Starting(c, g, i) && i < |g.players| && Taken(c, g, i)
    ensures var h := Arrived(c, g, i);
            var s := Struck(h, i);
            && 1 <= i && h.logs == g.logs && InGame(c.board, s)
            && Extended(c.board, h, s, PlayerEliminated(i))
            && PlayerNamesOf(s.players) == PlayerNamesOf(g.players)
  {
    hide *;
    var h := Arrived(c, g, i);
    var s := Struck(h, i);
    StartingGives(c, g, i);
    ArrivesAsNext(c, g, i);
    StruckLog(c, h, i + 1, i);
    StruckCounted(c, h, i + 1, i);
    CountedGives(c, s, i + 1);
    StruckNames(h, s, i);
    ArrivedNames(c, g, i);
    NamesUnchanged(h.players, s.players);
  }

  lemma CountedGives(c: Config, g: GameState, i: nat)
    requires Counted(c, g, i)
    ensures InGame(c.board, g) && Enrolled(g) && g.alive >= 1
  {
    hide Enrolled;
    hide LogOk;
  }

  lemma StruckNames(g: GameState, h: GameState, j: nat)
    requires StruckFields(g, h, j)
    ensures SameNames(g.players, h.players)
  {
  }

  lemma EndedLog(log: seq<Event>, n: nat)
    requires OneEach(log, n)
    ensures OneEach(log + [Event(|log|, GameOver)], n)
  {
  }

  /** The log when the game ends during its start, after the placement of player i. */
  lemma EndsAtStart(c: Config, g: GameState, i: nat)
    requires Starting(c, g, i) && i < |g.players| && Taken(c, g, i)
    requires Struck(Arrived(c, g, i), i).alive == 1
    ensures var log := CurrentLog(EndGame(Struck(Arrived(c, g, i), i)));
            && i + 1 == |g.players| && OneEach(log, i + 1) && |log| == 3 + i && Over(log)
            && Roster(log) == PlayerNamesOf(g.players)
    ensures !EndGame(Struck(Arrived(c, g, i), i)).started
  {
    hide *;
    var h := Arrived(c, g, i);
    var s := Struck(h, i);
    var e := EndGame(s);
    StartingGives(c, g, i);
    StruckAtStart(c, g, i);
    SameLog(g, h);
    ExtendedRoster(c.board, h, s, PlayerEliminated(i));
    ExtendedLog(c.board, h, s, PlayerEliminated(i));
    OneEachNext(CurrentLog(g), i, PlayerEliminated(i));
    EndGameLog(c.board, s);
    ExtendedRoster(c.board, s, e, GameOver);
    ExtendedLog(c.board, s, e, GameOver);
    EndedLog(CurrentLog(s), i + 1);
    EndsOnlyAtLast(c.board, s, i + 1);
  }

  lemma EndedAtStart(c: Config, e: GameState, players: seq<Player>)
    requires Idle(c, e) && OneEach(CurrentLog(e), |players|) && |CurrentLog(e)| == 2 + |players|
    requires Over(CurrentLog(e)) && Roster(CurrentLog(e)) == PlayerNamesOf(players)
    ensures Started(c, e, players)
  {
    IdleStopped(c, e);
    hide Idle;
    hide OneEach;
    hide Roster;
    hide Over;
  }

  lemma PlacedDead(c: Config, g: GameState, i: nat)
    requires Starting(c, g, i) && i < |g.players| && Taken(c, g, i)
    ensures var e := PlacePlayer(c, g, i);
            if e.started then Starting(c, e, i + 1) && PlayerNamesOf(e.players) == PlayerNamesOf(g.players)
            else Started(c, e, g.players)
  {
    hide *;
    var h := Arrived(c, g, i);
    var s := Struck(h, i);
    ArrivesAsNext(c, g, i);
    PlaceIsArrived(c, g, i);
    StartingFinished(c, g, i);
    EliminateOk(c, h, i + 1, i);
    EliminateIsStruck(h, i);
    StruckAtStart(c, g, i);
    InGameAlive(c.board, s);
    if s.alive < 2 {
      EndsAtStart(c, g, i);
      EndedAtStart(c, EndGame(s), g.players);
    } else {
      assert s.started;
      StartingNext(c, g, h, s, PlayerEliminated(i), i);
    }
  }

  lemma InGameAlive(b: Board, g: GameState)
    requires InGame(b, g)
    ensures g.alive >= 1 && g.started
  {
    hide LogOk;
  }

  // ---- The whole start ----

  lemma PlaceStep(c: Config, g: GameState, n: nat, i: nat)
    ensures PlaceFrom(c, g, n, i)
         == if i >= n || !g.started || i >= |g.players| then g else PlaceFrom(c, PlacePlayer(c, g, i), n, i + 1)
  {
    hide PlacePlayer;
  }

  lemma AllPlaced(c: Config, g: GameState, players: seq<Player>)
    requires Starting(c, g, |players|) && PlayerNamesOf(g.players) == PlayerNamesOf(players)
    ensures Started(c, g, players)
  {
    UnderwayMeans(c, g, |players|);
    hide Underway;
    hide OneEach;
    hide Roster;
    hide Eliminated;
  }

  lemma SameCount(players: seq<Player>, others: seq<Player>)
    requires PlayerNamesOf(players) == PlayerNamesOf(others)
    ensures |players| == |others|
  {
  }

  lemma StartedUnderway(c: Config, g: GameState, i: nat)
    requires Starting(c, g, i)
    ensures g.started
  {
    UnderwayMeans(c, g, i);
  }

  lemma StartedBy(c: Config, g: GameState, players: seq<Player>, others: seq<Player>)
    requires Started(c, g, players) && PlayerNamesOf(players) == PlayerNamesOf(others)
    ensures Started(c, g, others)
  {
    SameCount(players, others);
    hide Underway;
    hide Idle;
    hide OneEach;
    hide Roster;
    hide Over;
  }

  lemma {:induction false} PlaceFromOk(c: Config, g: GameState, n: nat, i: nat)
    requires Starting(c, g, i) && n == |g.players| && i <= n
    ensures Started(c, PlaceFrom(c, g, n, i), g.players)
    decreases n - i
  {
    hide *;
    PlaceStep(c, g, n, i);
    StartedUnderway(c, g, i);
    if i == n {
      AllPlaced(c, g, g.players);
    } else {
      var e := PlacePlayer(c, g, i);
      if Taken(c, g, i) {
        PlacedDead(c, g, i);
      } else {
        PlacedAlive(c, g, i);
        StartedUnderway(c, e, i + 1);
      }
      PlaceStep(c, e, n, i + 1);
      if e.started {
        SameCount(g.players, e.players);
        PlaceFromOk(c, e, n, i + 1);
        StartedBy(c, PlaceFrom(c, e, n, i + 1), e.players, g.players);
      }
    }
  }

  lemma StartIsPlacing(c: Config, g: GameState)
    ensures StartGame(c, g) == PlaceFrom(c, OpenGame(c, g), |g.players|, 0)
  {
    hide OpenGame;
    hide PlaceFrom;
  }

  lemma OpenedStarting(c: Config, g: GameState)
    requires Idle(c, g) && 2 <= |g.players|
    ensures Starting(c, OpenGame(c, g), 0) && OpenGame(c, g).players == g.players
  {
    hide *;
    var h := OpenGame(c, g);
    IdlePlayers(c, g);
    OpenedPlaying(c, g);
    OpenedInGame(c, g);
    NoEventsYet(CurrentLog(h));
    StartingFrom(c, h, 0);
  }

  lemma IdlePlayers(c: Config, g: GameState)
    requires Idle(c, g)
    ensures PlayersOk(g.players)
  {
  }

  lemma NoEventsYet(log: seq<Event>)
    requires |log| == 1
    ensures OneEach(log, 0)
  {
  }

  /**
   * The start of a game: NEW_GAME, then exactly one PIXEL or PLAYER_ELIMINATED for every participant, in order;
   * if this leaves a single survivor it does so at the last of them, and GAME_OVER follows.
   */
  lemma StartGameOk(c: Config, g: GameState)
    requires Idle(c, g) && CanStart(g.players)
    ensures Started(c, StartGame(c, g), g.players) && GameOk(c, StartGame(c, g))
  {
    hide *;
    ManyReady(g.players);
    OpenedStarting(c, g);
    StartIsPlacing(c, g);
    PlaceFromOk(c, OpenGame(c, g), |g.players|, 0);
    StartedOk(c, StartGame(c, g), g.players);
  }

  lemma ManyReady(players: seq<Player>)
    requires CanStart(players)
    ensures 2 <= |players|
  {
  }

  lemma StartedOk(c: Config, g: GameState, players: seq<Player>)
    requires Started(c, g, players)
    ensures GameOk(c, g)
  {
    GameOkCases(c, g);
    hide GameOk;
    hide Playing;
    hide Idle;
    hide Finished;
    hide OneEach;
    hide Roster;
  }
}
