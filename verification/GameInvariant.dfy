/** What holds of the game between any two operations, and why every operation keeps it. */
module GameInvariant {
  import opened Bytes
  import opened Names
  import opened Messages
  import opened MessageQueue
  import opened Logs
  import opened Grammar
  import opened Game

  // ---- The list of players ----

  ghost predicate PlayersOk(players: seq<Player>) {
    && |players| <= MAX_PLAYERS
    && (forall i | 0 <= i < |players| :: PlayerName(players[i].name))
    && forall i, j | 0 <= i < j < |players| :: Less(players[i].name, players[j].name)
  }

  function Survives(p: Player): nat {
    if p.takesPart && !p.isEliminated then 1 else 0
  }

  /** How many of the players are in the game and not eliminated. */
  function Survivors(players: seq<Player>): nat {
    if players == [] then 0 else Survivors(players[..|players| - 1]) + Survives(players[|players| - 1])
  }

  lemma {:induction false} SurvivorsOfUpdate(players: seq<Player>, j: nat, p: Player)
    requires j < |players|
    ensures Survivors(players[j := p]) + Survives(players[j]) == Survivors(players) + Survives(p)
  {
    var n := |players| - 1;
    if j == n {
      assert players[j := p][..n] == players[..n];
    } else {
      assert players[j := p][..n] == players[..n][j := p];
      SurvivorsOfUpdate(players[..n], j, p);
    }
  }

  // ---- The game being played ----

  /** The worm is on the board, on a pixel it has eaten, and the pixel is where it is. */
  ghost predicate OnBoard(b: Board, eaten: set<Coordinates>, p: Player) {
    && p.pixel.0 < b.maxx && p.pixel.1 < b.maxy && p.pixel in eaten
    && p.x >= 0.0 && p.y >= 0.0 && p.x.Floor == p.pixel.0 && p.y.Floor == p.pixel.1
  }

  function CurrentLog(g: GameState): seq<Event> {
    if g.logs == [] then [] else g.logs[|g.logs| - 1].events
  }

  /** The numbers in use are the places in the announced list. */
  ghost predicate NumbersOk(numbers: map<Text, nat>, names: seq<Text>) {
    && (forall k | 0 <= k < |names| :: names[k] in numbers && numbers[names[k]] == k)
    && (forall name | name in numbers :: numbers[name] < |names| && names[numbers[name]] == name)
  }

  /** Nobody announced has left. */
  ghost predicate AllPresent(players: seq<Player>, names: seq<Text>) {
    forall k | 0 <= k < |names| :: Listed(players, names[k])
  }

  predicate Listed(players: seq<Player>, name: Text) {
    exists j | 0 <= j < |players| :: players[j].name == name
  }

  /** Player j agrees with the log; `done` tells whether the start of the game has reached it. */
  ghost predicate PlayerOk(b: Board, numbers: map<Text, nat>, eaten: set<Coordinates>, out: set<nat>, p: Player,
                           done: bool) {
    if p.name !in numbers then !p.takesPart
    else if done then
      p.takesPart && (p.isEliminated <==> numbers[p.name] in out) && (p.isEliminated || OnBoard(b, eaten, p))
    else numbers[p.name] !in out
  }

  /** The log of the current game is a legal, unfinished one, and the counters agree with it. */
  ghost predicate InGame(b: Board, g: GameState) {
    var log := CurrentLog(g);
    && g.started && g.logs != [] && g.logs[|g.logs| - 1].id == g.gameId
    && LogOk(b, log) && !Over(log)
    && g.eaten == Pixels(log)
    && g.alive >= 1 && g.alive + |Eliminated(log)| == |Roster(log)|
  }

  /** The players announced are listed and numbered. */
  ghost predicate Enrolled(g: GameState) {
    var names := Roster(CurrentLog(g));
    PlayersOk(g.players) && NumbersOk(g.numbers, names) && AllPresent(g.players, names)
  }

  /** The count of the living, when the players before i have been initialised. */
  ghost predicate Tallied(g: GameState, i: nat) {
    i <= |g.players| && Survivors(g.players[..i]) + (|g.players| - i) == g.alive
  }

  ghost predicate Counted(c: Config, g: GameState, i: nat) {
    InGame(c.board, g) && Enrolled(g) && Tallied(g, i)
  }

  ghost predicate OthersOk(c: Config, g: GameState, i: nat, j: int) {
    forall k | 0 <= k < |g.players| && k != j ::
      PlayerOk(c.board, g.numbers, g.eaten, Eliminated(CurrentLog(g)), g.players[k], k < i)
  }

  /** A game in which the players before i have been initialised; between operations that is all of them. */
  ghost predicate Playing(c: Config, g: GameState, i: nat) {
    Counted(c, g, i) && g.alive >= 2 && OthersOk(c, g, i, -1)
  }

  /** As `Playing`, but player j, who is alive, is on its way to a new pixel. */
  ghost predicate InMotion(c: Config, g: GameState, i: nat, j: nat) {
    && Counted(c, g, i) && g.alive >= 2 && OthersOk(c, g, i, j) && j < i
    && var p := g.players[j];
       p.takesPart && !p.isEliminated && p.name in g.numbers && g.numbers[p.name] !in Eliminated(CurrentLog(g))
  }

  ghost predicate Finished(b: Board, logs: seq<GameLog>, n: nat) {
    n <= |logs| && forall i | 0 <= i < n :: LogOk(b, logs[i].events) && Over(logs[i].events)
  }

  predicate NoneDisconnected(players: seq<Player>) {
    forall i | 0 <= i < |players| :: !players[i].isDisconnected
  }

  /** Between games every log is finished and nobody who left is still listed. */
  ghost predicate Idle(c: Config, g: GameState) {
    !g.started && PlayersOk(g.players) && NoneDisconnected(g.players) && Finished(c.board, g.logs, |g.logs|)
  }

  /** The invariant of the game manager. */
  ghost predicate GameOk(c: Config, g: GameState) {
    if g.started then g.logs != [] && Playing(c, g, |g.players|) && Finished(c.board, g.logs, |g.logs| - 1)
    else Idle(c, g)
  }

  // ---- Putting the predicates together and taking them apart ----

  lemma PlayingFrom(c: Config, g: GameState, i: nat)
    requires InGame(c.board, g) && Enrolled(g) && Tallied(g, i) && g.alive >= 2 && OthersOk(c, g, i, -1)
    ensures Playing(c, g, i)
  {
    hide InGame;
    hide Enrolled;
    hide Tallied;
    hide OthersOk;
  }

  lemma PlayingGives(c: Config, g: GameState, i: nat)
    requires Playing(c, g, i)
    ensures InGame(c.board, g) && Enrolled(g) && Tallied(g, i) && g.alive >= 2 && OthersOk(c, g, i, -1)
    ensures g.started && g.logs != [] && i <= |g.players| && PlayersOk(g.players)
  {
    hide OthersOk;
    hide PlayersOk;
    hide LogOk;
  }

  lemma InMotionGives(c: Config, g: GameState, i: nat, j: nat)
    requires InMotion(c, g, i, j)
    ensures InGame(c.board, g) && Enrolled(g) && Tallied(g, i) && g.alive >= 2 && OthersOk(c, g, i, j)
    ensures j < i <= |g.players| && g.players[j].takesPart && !g.players[j].isEliminated
    ensures g.started && g.logs != []
  {
    hide OthersOk;
    hide PlayersOk;
    hide LogOk;
    hide Enrolled;
  }

  lemma InMotionPlayer(c: Config, g: GameState, i: nat, j: nat)
    requires InMotion(c, g, i, j)
    ensures j < |g.players| && g.players[j].name in g.numbers
    ensures g.numbers[g.players[j].name] !in Eliminated(CurrentLog(g))
  {
    InMotionGives(c, g, i, j);
    hide OthersOk;
    hide Counted;
    hide Eliminated;
  }

  lemma CountedFrom(c: Config, g: GameState, i: nat)
    requires InGame(c.board, g) && Enrolled(g) && Tallied(g, i)
    ensures Counted(c, g, i)
  {
    hide InGame;
    hide Enrolled;
    hide Tallied;
  }

  lemma GameOkCases(c: Config, g: GameState)
    ensures GameOk(c, g) && g.started <==>
            g.logs != [] && Playing(c, g, |g.players|) && Finished(c.board, g.logs, |g.logs| - 1)
    ensures GameOk(c, g) && !g.started <==> Idle(c, g)
  {
    if Playing(c, g, |g.players|) {
      PlayingGives(c, g, |g.players|);
    }
    hide Playing;
    hide Finished;
    hide PlayersOk;
    hide NoneDisconnected;
  }

  // ---- Saving an event ----

  /** The last log has grown by `d`, legally, and nothing else has changed. */
  ghost predicate Extended(b: Board, g: GameState, h: GameState, d: EventData) {
    var log, next := CurrentLog(g), CurrentLog(h);
    && g.logs != [] && |h.logs| == |g.logs| && h.logs[|h.logs| - 1].id == g.logs[|g.logs| - 1].id
    && (forall i | 0 <= i < |g.logs| - 1 :: h.logs[i] == g.logs[i])
    && next == log + [Event(|log|, d)]
    && LogOk(b, next) && Roster(next) == Roster(log) && (Over(next) <==> d.GameOver?)
    && Eliminated(next) == Eliminated(log) + (if d.PlayerEliminated? then {d.playerNumber} else {})
    && Pixels(next) == Pixels(log) + (if d.Pixel? then {(d.x, d.y)} else {})
  }

  lemma SavedEvent(b: Board, g: GameState, d: EventData)
    requires g.logs != [] && LogOk(b, CurrentLog(g)) && MayFollow(b, CurrentLog(g), d)
    ensures Extended(b, g, SaveEvent(g, d), d)
  {
    hide LogOk;
    hide MayFollow;
    hide Eliminated;
    hide Pixels;
    hide Roster;
    hide Over;
    hide Schedule;
    NextEvent(b, CurrentLog(g), d);
  }

  lemma ExtendedRoster(b: Board, g: GameState, h: GameState, d: EventData)
    requires Extended(b, g, h, d)
    ensures Roster(CurrentLog(h)) == Roster(CurrentLog(g)) && h.logs != []
  {
    hide LogOk;
    hide Roster;
    hide Eliminated;
    hide Pixels;
  }

  lemma FinishedKept(b: Board, g: GameState, h: GameState, d: EventData)
    requires Extended(b, g, h, d) && Finished(b, g.logs, |g.logs| - 1)
    ensures Finished(b, h.logs, |h.logs| - 1)
    ensures d.GameOver? ==> Finished(b, h.logs, |h.logs|)
  {
    hide LogOk;
    hide Over;
    hide Roster;
    hide Eliminated;
    hide Pixels;
  }

  // ---- Renaming nobody ----

  /** The same players in the same places: only their state differs. */
  ghost predicate SameNames(players: seq<Player>, others: seq<Player>) {
    |players| == |others| && forall i | 0 <= i < |players| :: players[i].name == others[i].name
  }

  lemma SameNamesKeep(players: seq<Player>, others: seq<Player>, names: seq<Text>)
    requires SameNames(players, others)
    ensures PlayersOk(players) ==> PlayersOk(others)
    ensures AllPresent(players, names) ==> AllPresent(others, names)
  {
    if AllPresent(players, names) {
      forall k | 0 <= k < |names| ensures Listed(others, names[k]) {
        assert Listed(players, names[k]);
        var j :| 0 <= j < |players| && players[j].name == names[k];
        assert others[j].name == names[k];
      }
    }
  }

  lemma RosterSize(b: Board, log: seq<Event>)
    requires LogOk(b, log)
    ensures RosterOk(Roster(log)) && |Roster(log)| <= MAX_PLAYERS
  {
    FirstIsNewGame(b, log);
  }

  // ---- Elimination ----

  /** The state after an elimination has been logged, before it is known whether the game is over. */
  function Struck(g: GameState, j: nat): (h: GameState)
    requires j < |g.players|
    ensures |h.players| == |g.players|
  {
    var p := g.players[j].(isEliminated := true);
    SaveEvent(g.(players := g.players[j := p], alive := (g.alive + 0xFF) % 0x100),
              PlayerEliminated(NumberOf(g, p.name)))
  }

  lemma EliminateIsStruck(g: GameState, j: nat)
    requires j < |g.players|
    ensures Eliminate(g, j) == if Struck(g, j).alive < 2 then EndGame(Struck(g, j)) else Struck(g, j)
  {
  }

  /** Everything but the log and the queue after an elimination. */
  ghost predicate StruckFields(g: GameState, h: GameState, j: nat) {
    && j < |g.players| && h.started == g.started && h.gameId == g.gameId
    && h.alive == g.alive - 1 && h.numbers == g.numbers && h.eaten == g.eaten
    && h.players == g.players[j := g.players[j].(isEliminated := true)]
  }

  lemma AliveBounds(c: Config, g: GameState, i: nat)
    requires Counted(c, g, i)
    ensures g.alive <= |Roster(CurrentLog(g))| <= MAX_PLAYERS
  {
    hide Roster;
    RosterSize(c.board, CurrentLog(g));
  }

  lemma MayStrike(c: Config, g: GameState, i: nat, j: nat)
    requires InMotion(c, g, i, j)
    ensures MayFollow(c.board, CurrentLog(g), PlayerEliminated(NumberOf(g, g.players[j].name)))
  {
    hide LogOk;
    hide OthersOk;
    hide PlayersOk;
    hide AllPresent;
    hide Survivors;
    hide Over;
    hide Eliminated;
    hide Pixels;
    hide Roster;
  }

  lemma StruckChanges(g: GameState, j: nat)
    requires j < |g.players| && 1 <= g.alive <= MAX_PLAYERS
    ensures StruckFields(g, Struck(g, j), j)
  {
    hide Schedule;
    hide AppendEvent;
  }

  lemma StruckExtends(b: Board, g: GameState, j: nat)
    requires g.logs != [] && j < |g.players| && LogOk(b, CurrentLog(g))
    requires MayFollow(b, CurrentLog(g), PlayerEliminated(NumberOf(g, g.players[j].name)))
    ensures Extended(b, g, Struck(g, j), PlayerEliminated(NumberOf(g, g.players[j].name)))
  {
    hide LogOk;
    hide MayFollow;
    hide Extended;
    hide SaveEvent;
    var p := g.players[j].(isEliminated := true);
    var s := g.(players := g.players[j := p], alive := (g.alive + 0xFF) % 0x100);
    SavedEvent(b, s, PlayerEliminated(NumberOf(g, p.name)));
    ExtendedFrom(b, s, g, Struck(g, j), PlayerEliminated(NumberOf(g, p.name)));
  }

  lemma ExtendedFrom(b: Board, s: GameState, g: GameState, h: GameState, d: EventData)
    requires Extended(b, s, h, d) && s.logs == g.logs
    ensures Extended(b, g, h, d)
  {
    hide LogOk;
    hide Roster;
    hide Over;
    hide Eliminated;
    hide Pixels;
  }

  lemma StruckLog(c: Config, g: GameState, i: nat, j: nat)
    requires InMotion(c, g, i, j)
    ensures StruckFields(g, Struck(g, j), j)
    ensures Extended(c.board, g, Struck(g, j), PlayerEliminated(NumberOf(g, g.players[j].name)))
  {
    hide *;
    InMotionGives(c, g, i, j);
    CountedFrom(c, g, i);
    AliveBounds(c, g, i);
    InGameLog(c.board, g);
    MayStrike(c, g, i, j);
    StruckChanges(g, j);
    StruckExtends(c.board, g, j);
  }

  lemma InGameLog(b: Board, g: GameState)
    requires InGame(b, g)
    ensures LogOk(b, CurrentLog(g))
  {
    hide LogOk;
    hide Eliminated;
    hide Roster;
    hide Pixels;
    hide Over;
  }

  /** A number belongs to one player only. */
  lemma NumbersDistinct(players: seq<Player>, numbers: map<Text, nat>, names: seq<Text>, j: nat, k: nat)
    requires PlayersOk(players) && NumbersOk(numbers, names) && j < |players| && k < |players| && j != k
    requires players[j].name in numbers && players[k].name in numbers
    ensures numbers[players[j].name] != numbers[players[k].name]
  {
    LessIrreflexive(players[j].name);
  }

  lemma StruckSurvivors(g: GameState, h: GameState, i: nat, j: nat)
    requires StruckFields(g, h, j) && j < i <= |g.players| && g.players[j].takesPart && !g.players[j].isEliminated
    ensures Survivors(h.players[..i]) == Survivors(g.players[..i]) - 1
  {
    SurvivorsOfUpdate(g.players[..i], j, h.players[j]);
    assert h.players[..i] == g.players[..i][j := h.players[j]];
  }

  lemma StruckInGame(b: Board, g: GameState, h: GameState, j: nat)
    requires InGame(b, g) && g.alive >= 2 && StruckFields(g, h, j)
    requires Extended(b, g, h, PlayerEliminated(NumberOf(g, g.players[j].name)))
    requires NumberOf(g, g.players[j].name) !in Eliminated(CurrentLog(g))
    ensures InGame(b, h)
  {
    hide LogOk;
    hide Roster;
    hide Over;
    hide Eliminated;
    hide Pixels;
  }

  /** Enrolment only looks at names. */
  lemma StaysEnrolled(g: GameState, h: GameState)
    requires Enrolled(g) && SameNames(g.players, h.players) && h.numbers == g.numbers
    requires Roster(CurrentLog(h)) == Roster(CurrentLog(g))
    ensures Enrolled(h)
  {
    hide SameNames;
    hide PlayersOk;
    hide AllPresent;
    hide Roster;
    SameNamesKeep(g.players, h.players, Roster(CurrentLog(g)));
  }

  lemma StruckTallied(g: GameState, h: GameState, i: nat, j: nat)
    requires StruckFields(g, h, j) && j < i && Tallied(g, i) && g.players[j].takesPart && !g.players[j].isEliminated
    requires g.alive >= 2
    ensures Tallied(h, i) && SameNames(g.players, h.players) && h.numbers == g.numbers
  {
    hide Survivors;
    StruckSurvivors(g, h, i, j);
  }

  lemma StruckCounted(c: Config, g: GameState, i: nat, j: nat)
    requires InMotion(c, g, i, j)
    ensures Counted(c, Struck(g, j), i)
  {
    InMotionGives(c, g, i, j);
    InMotionPlayer(c, g, i, j);
    assert NumberOf(g, g.players[j].name) == g.numbers[g.players[j].name];
    hide *;
    var h := Struck(g, j);
    StruckLog(c, g, i, j);
    StruckInGame(c.board, g, h, j);
    StruckTallied(g, h, i, j);
    ExtendedRoster(c.board, g, h, PlayerEliminated(NumberOf(g, g.players[j].name)));
    StaysEnrolled(g, h);
    CountedFrom(c, h, i);
  }

  /** Nobody else is affected. */
  lemma OtherStays(b: Board, g: GameState, h: GameState, j: nat, k: nat, out: set<nat>, done: bool)
    requires StruckFields(g, h, j) && k < |g.players| && k != j
    requires PlayerOk(b, g.numbers, g.eaten, out, g.players[k], done)
    requires g.players[j].name in g.numbers
    requires g.players[k].name in g.numbers ==> g.numbers[g.players[k].name] != g.numbers[g.players[j].name]
    ensures PlayerOk(b, h.numbers, h.eaten, out + {g.numbers[g.players[j].name]}, h.players[k], done)
  {
    hide OnBoard;
  }

  lemma StruckOk(b: Board, g: GameState, h: GameState, j: nat, out: set<nat>)
    requires StruckFields(g, h, j) && g.players[j].name in g.numbers && g.players[j].takesPart
    ensures PlayerOk(b, h.numbers, h.eaten, out + {g.numbers[g.players[j].name]}, h.players[j], true)
  {
  }

  lemma StruckEliminated(b: Board, g: GameState, h: GameState, no: nat)
    requires Extended(b, g, h, PlayerEliminated(no))
    ensures Eliminated(CurrentLog(h)) == Eliminated(CurrentLog(g)) + {no}
  {
    hide LogOk;
    hide Eliminated;
    hide Pixels;
    hide Roster;
  }

  lemma EnrolledGives(g: GameState)
    requires Enrolled(g)
    ensures PlayersOk(g.players) && NumbersOk(g.numbers, Roster(CurrentLog(g)))
  {
    hide PlayersOk;
    hide NumbersOk;
    hide Roster;
  }

  lemma OtherOk(c: Config, g: GameState, i: nat, j: int, k: nat)
    requires OthersOk(c, g, i, j) && k < |g.players| && k != j
    ensures PlayerOk(c.board, g.numbers, g.eaten, Eliminated(CurrentLog(g)), g.players[k], k < i)
  {
    hide PlayerOk;
    hide Eliminated;
  }

  lemma OthersOkFrom(c: Config, g: GameState, i: nat, out: set<nat>)
    requires out == Eliminated(CurrentLog(g))
    requires forall k | 0 <= k < |g.players| :: PlayerOk(c.board, g.numbers, g.eaten, out, g.players[k], k < i)
    ensures OthersOk(c, g, i, -1)
  {
    hide PlayerOk;
    hide Eliminated;
  }

  lemma StruckPlayers(c: Config, g: GameState, i: nat, j: nat)
    requires InMotion(c, g, i, j)
    ensures OthersOk(c, Struck(g, j), i, -1)
  {
    hide *;
    InMotionGives(c, g, i, j);
    InMotionPlayer(c, g, i, j);
    EnrolledGives(g);
    StruckLog(c, g, i, j);
    NumberOfKnown(g, j);
    var h, no := Struck(g, j), g.numbers[g.players[j].name];
    var out := Eliminated(CurrentLog(g));
    StruckEliminated(c.board, g, h, no);
    forall k | 0 <= k < |h.players|
      ensures PlayerOk(c.board, h.numbers, h.eaten, out + {no}, h.players[k], k < i)
    {
      if k == j {
        StruckOk(c.board, g, h, j, out);
      } else {
        OtherOk(c, g, i, j, k);
        if g.players[k].name in g.numbers {
          NumbersDistinct(g.players, g.numbers, Roster(CurrentLog(g)), j, k);
        }
        OtherStays(c.board, g, h, j, k, out, k < i);
      }
    }
    OthersOkFrom(c, h, i, out + {no});
  }

  lemma NumberOfKnown(g: GameState, j: nat)
    requires j < |g.players| && g.players[j].name in g.numbers
    ensures NumberOf(g, g.players[j].name) == g.numbers[g.players[j].name]
  {
  }
}
