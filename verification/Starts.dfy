/** The start of a game, told by the generator alone: where everybody is placed, facing where, and who dies at once. */
module Starts {
  import opened Messages
  import opened Logs
  import opened Grammar
  import opened MessageQueue
  import opened Game
  import opened GameInvariant
  import opened GameTurns
  import opened GameStart
  import opened Rng
  import opened Draws
  import opened WhoMoved
  import opened Lobby

  /** The pixel on which player k starts, if the draws for the players begin with output `at`. */
  function StartPixel(c: Config, seed: nat, at: nat, k: nat): Coordinates {
    (Output(seed, at + 3 * k) % c.board.maxx, Output(seed, at + 3 * k + 1) % c.board.maxy)
  }

  /** Somebody before player k starts on the same pixel. */
  predicate Repeated(c: Config, seed: nat, at: nat, k: nat) {
    exists i | 0 <= i < k :: StartPixel(c, seed, at, i) == StartPixel(c, seed, at, k)
  }

  function StartEvent(c: Config, seed: nat, at: nat, k: nat): EventData {
    if Repeated(c, seed, at, k) then PlayerEliminated(k)
    else Pixel(k, StartPixel(c, seed, at, k).0, StartPixel(c, seed, at, k).1)
  }

  /** In the middle of its pixel, in the direction of the third draw. */
  predicate StartsAt(c: Config, seed: nat, at: nat, k: nat, p: Player, q: Player) {
    var pixel := StartPixel(c, seed, at, k);
    q == p.(takesPart := true, isEliminated := Repeated(c, seed, at, k), pixel := pixel,
            x := pixel.0 as real + 0.5, y := pixel.1 as real + 0.5,
            movementDirection := Output(seed, at + 3 * k + 2) % 360)
  }

  ghost predicate Taking(c: Config, seed: nat, at: nat, eaten: set<Coordinates>, i: nat) {
    forall x: Coordinates :: x in eaten <==> exists k | 0 <= k < i :: StartPixel(c, seed, at, k) == x
  }

  /** The first i players have been placed. */
  ghost predicate PlacedSoFar(c: Config, seed: nat, at: nat, players: seq<Player>, g: GameState, i: nat) {
    && g.draws == at + 3 * i && g.rng == Output(seed, g.draws) && |g.players| == |players|
    && Taking(c, seed, at, g.eaten, i) && |CurrentLog(g)| == 1 + i
    && (forall k | 0 <= k < i :: CurrentLog(g)[k + 1].data == StartEvent(c, seed, at, k))
    && forall k | 0 <= k < |players| ::
         if k < i then StartsAt(c, seed, at, k, players[k], g.players[k]) else g.players[k] == players[k]
  }

  lemma ArrivedIs(c: Config, seed: nat, g: GameState, j: nat)
    requires j < |g.players| && g.rng == Output(seed, g.draws)
    ensures var h := Arrived(c, g, j);
            && h.players == g.players[j := h.players[j]] && h.eaten == g.eaten && h.logs == g.logs
            && h.draws == g.draws + 3 && h.rng == Output(seed, h.draws) && h.numbers == g.numbers
    ensures var x, y := Output(seed, g.draws) % c.board.maxx, Output(seed, g.draws + 1) % c.board.maxy;
            Arrived(c, g, j).players[j]
            == g.players[j].(takesPart := true, isEliminated := false, pixel := (x, y), x := x as real + 0.5,
                             y := y as real + 0.5, movementDirection := Output(seed, g.draws + 2) % 360)
  {
    OneMore(seed, g.draws);
    OneMore(seed, g.draws + 1);
    ThreeMore(seed, g.draws);
    hide Output;
    hide Next;
    PlacedIs(c, g.players[j], g.rng, Next(g.rng), Next(Next(g.rng)));
    hide Placed;
  }

  lemma PlacedIs(c: Config, p: Player, r1: nat, r2: nat, r3: nat)
    ensures var x, y, q := r1 % c.board.maxx, r2 % c.board.maxy, Placed(c, p, r1, r2, r3);
            q == p.(takesPart := true, isEliminated := false, pixel := (x, y), x := x as real + 0.5,
                    y := y as real + 0.5, movementDirection := r3 % 360)
  {
  }

  lemma TakingMore(c: Config, seed: nat, at: nat, eaten: set<Coordinates>, i: nat)
    requires Taking(c, seed, at, eaten, i)
    ensures Taking(c, seed, at, eaten + {StartPixel(c, seed, at, i)}, i + 1)
    ensures StartPixel(c, seed, at, i) in eaten <==> Repeated(c, seed, at, i)
  {
    hide StartPixel;
    var more := eaten + {StartPixel(c, seed, at, i)};
    forall x: Coordinates ensures x in more <==> exists k | 0 <= k < i + 1 :: StartPixel(c, seed, at, k) == x {
      if x in eaten {
        var k :| 0 <= k < i && StartPixel(c, seed, at, k) == x;
        assert k < i + 1;
      }
    }
  }

  lemma OnlyArrived(c: Config, seed: nat, at: nat, players: seq<Player>, g: GameState, i: nat)
    requires PlacedSoFar(c, seed, at, players, g, i) && i < |players|
    ensures |g.players| == |players| && g.rng == Output(seed, g.draws) && g.draws == at + 3 * i
    ensures Taking(c, seed, at, g.eaten, i) && g.players[i] == players[i] && |CurrentLog(g)| == 1 + i
  {
    hide StartsAt;
    hide StartEvent;
    hide Output;
    hide Taking;
  }

  /** One player more, who lives or not. */
  lemma PlacedNext(c: Config, seed: nat, at: nat, players: seq<Player>, g: GameState, e: GameState, i: nat)
    requires PlacedSoFar(c, seed, at, players, g, i) && i < |players|
    requires e.draws == g.draws + 3 && e.rng == Output(seed, e.draws)
    requires |e.players| == |g.players| && forall k | 0 <= k < |g.players| && k != i :: e.players[k] == g.players[k]
    requires StartsAt(c, seed, at, i, players[i], e.players[i]) && Taking(c, seed, at, e.eaten, i + 1)
    requires CurrentLog(e) == CurrentLog(g) + [Event(|CurrentLog(g)|, StartEvent(c, seed, at, i))]
    ensures PlacedSoFar(c, seed, at, players, e, i + 1)
  {
    hide StartsAt;
    hide StartEvent;
    hide Output;
    hide Taking;
  }

  lemma StartsAtFrom(c: Config, seed: nat, at: nat, i: nat, p: Player, q: Player)
    requires var x, y := Output(seed, at + 3 * i) % c.board.maxx, Output(seed, at + 3 * i + 1) % c.board.maxy;
             q == p.(takesPart := true, isEliminated := Repeated(c, seed, at, i), pixel := (x, y), x := x as real + 0.5,
                     y := y as real + 0.5, movementDirection := Output(seed, at + 3 * i + 2) % 360)
    ensures StartsAt(c, seed, at, i, p, q)
  {
    hide Output;
    hide Repeated;
  }

  lemma AteChanges(g: GameState, h: GameState, j: nat, pixel: Coordinates)
    requires AteFields(g, h, j, pixel)
    ensures h.players == g.players[j := g.players[j].(pixel := pixel)] && h.eaten == g.eaten + {pixel}
  {
  }

  lemma StruckChanged(g: GameState, h: GameState, j: nat)
    requires StruckFields(g, h, j)
    ensures h.players == g.players[j := g.players[j].(isEliminated := true)] && h.eaten == g.eaten
  {
  }

  lemma StartEventIs(c: Config, seed: nat, at: nat, k: nat)
    ensures StartEvent(c, seed, at, k)
         == if Repeated(c, seed, at, k) then PlayerEliminated(k)
            else Pixel(k, StartPixel(c, seed, at, k).0, StartPixel(c, seed, at, k).1)
  {
    hide Repeated;
    hide StartPixel;
  }

  lemma StartPixelIs(c: Config, seed: nat, at: nat, k: nat)
    ensures StartPixel(c, seed, at, k)
         == (Output(seed, at + 3 * k) % c.board.maxx, Output(seed, at + 3 * k + 1) % c.board.maxy)
  {
    hide Output;
  }

  lemma PlacesLiving(c: Config, seed: nat, at: nat, players: seq<Player>, g: GameState, i: nat)
    requires Starting(c, g, i) && PlacedSoFar(c, seed, at, players, g, i) && i < |players|
    requires i < |g.players| && !Taken(c, g, i)
    ensures PlacedSoFar(c, seed, at, players, PlacePlayer(c, g, i), i + 1)
  {
    hide *;
    var h := Arrived(c, g, i);
    var pixel := h.players[i].pixel;
    var e := EatPixel(h, i, pixel);
    OnlyArrived(c, seed, at, players, g, i);
    ArrivedIs(c, seed, g, i);
    ArrivesAsNext(c, g, i);
    PlaceIsArrived(c, g, i);
    TakenMeans(c, g, i);
    AteLog(c, h, i + 1, i, pixel);
    AteChanges(h, e, i, pixel);
    ExtendedLog(c.board, h, e, Pixel(i, pixel.0, pixel.1));
    StartPixelIs(c, seed, at, i);
    TakingMore(c, seed, at, g.eaten, i);
    StartEventIs(c, seed, at, i);
    StartsAtFrom(c, seed, at, i, players[i], e.players[i]);
    PlacePlayerDraws(c, seed, g, i);
    PlacedNext(c, seed, at, players, g, e, i);
  }

  /** The state after a player dies on its first pixel, before it is known whether the game is over. */
  lemma PlacesDead(c: Config, seed: nat, at: nat, players: seq<Player>, g: GameState, i: nat) returns (s: GameState)
    requires Starting(c, g, i) && PlacedSoFar(c, seed, at, players, g, i) && i < |players|
    requires i < |g.players| && Taken(c, g, i)
    ensures s == Struck(Arrived(c, g, i), i) && PlacedSoFar(c, seed, at, players, s, i + 1)
  {
    hide *;
    var h := Arrived(c, g, i);
    s := Struck(h, i);
    OnlyArrived(c, seed, at, players, g, i);
    ArrivedIs(c, seed, g, i);
    ArrivesAsNext(c, g, i);
    TakenMeans(c, g, i);
    StruckLog(c, h, i + 1, i);
    StruckChanged(h, s, i);
    ExtendedLog(c.board, h, s, PlayerEliminated(i));
    StartPixelIs(c, seed, at, i);
    TakingMore(c, seed, at, g.eaten, i);
    assert g.eaten + {StartPixel(c, seed, at, i)} == g.eaten;
    StartEventIs(c, seed, at, i);
    StartsAtFrom(c, seed, at, i, players[i], s.players[i]);
    StruckDraws(h, i);
    PlacedNext(c, seed, at, players, g, s, i);
  }

  lemma StruckDraws(g: GameState, j: nat)
    requires j < |g.players|
    ensures Struck(g, j).draws == g.draws && Struck(g, j).rng == g.rng
  {
    hide Schedule;
    hide AppendEvent;
  }

  /** What is known of the log of a game whose n players have been placed. */
  ghost predicate PlacedLog(c: Config, seed: nat, at: nat, log: seq<Event>, n: nat) {
    |log| > n && forall k | 0 <= k < n :: log[k + 1].data == StartEvent(c, seed, at, k)
  }

  /** The outcome: if the game goes on, everybody is where it was placed. */
  ghost predicate AllInPlace(c: Config, seed: nat, at: nat, players: seq<Player>, g: GameState) {
    && PlacedLog(c, seed, at, CurrentLog(g), |players|)
    && (g.started ==> |g.players| == |players|
                      && forall k | 0 <= k < |players| :: StartsAt(c, seed, at, k, players[k], g.players[k]))
  }

  lemma AllInPlaceFrom(c: Config, seed: nat, at: nat, players: seq<Player>, g: GameState)
    requires PlacedSoFar(c, seed, at, players, g, |players|)
    ensures AllInPlace(c, seed, at, players, g)
  {
    hide StartsAt;
    hide StartEvent;
    hide Output;
    hide Taking;
  }

  lemma OverInPlace(c: Config, seed: nat, at: nat, players: seq<Player>, s: GameState, h: GameState, e: Event)
    requires PlacedSoFar(c, seed, at, players, s, |players|) && CurrentLog(h) == CurrentLog(s) + [e] && !h.started
    ensures AllInPlace(c, seed, at, players, h)
  {
    hide StartsAt;
    hide StartEvent;
    hide Output;
    hide Taking;
  }

  lemma PlacedCount(c: Config, seed: nat, at: nat, players: seq<Player>, g: GameState, i: nat)
    requires PlacedSoFar(c, seed, at, players, g, i)
    ensures |g.players| == |players|
  {
    hide StartsAt;
    hide StartEvent;
    hide Output;
    hide Taking;
  }

  lemma {:induction false} PlacesAll(c: Config, seed: nat, at: nat, players: seq<Player>, g: GameState, i: nat)
    requires Starting(c, g, i) && PlacedSoFar(c, seed, at, players, g, i) && i <= |players|
    ensures AllInPlace(c, seed, at, players, PlaceFrom(c, g, |players|, i))
    decreases |players| - i
  {
    hide *;
    var n := |players|;
    PlacedCount(c, seed, at, players, g, i);
    PlaceStep(c, g, n, i);
    if i == n {
      AllInPlaceFrom(c, seed, at, players, g);
    } else {
      var e := PlacePlayer(c, g, i);
      StartedUnderway(c, g, i);
      PlaceIsArrived(c, g, i);
      PlaceStep(c, e, n, i + 1);
      if !Taken(c, g, i) {
        PlacesLiving(c, seed, at, players, g, i);
        PlacedAlive(c, g, i);
        PlacesAll(c, seed, at, players, e, i + 1);
        StartedUnderway(c, e, i + 1);
      } else {
        var s := PlacesDead(c, seed, at, players, g, i);
        PlacedDead(c, g, i);
        EliminateIsStruck(Arrived(c, g, i), i);
        StruckAtStart(c, g, i);
        InGameAlive(c.board, s);
        if s.alive < 2 {
          EndsAtStart(c, g, i);
          EndLogged(c.board, s);
          OverInPlace(c, seed, at, players, s, e, Event(|CurrentLog(s)|, GameOver));
        } else {
          PlacesAll(c, seed, at, players, e, i + 1);
        }
      }
    }
  }

  lemma NobodyPlaced(c: Config, seed: nat, o: GameState)
    requires o.rng == Output(seed, o.draws) && o.eaten == {} && |CurrentLog(o)| == 1
    ensures PlacedSoFar(c, seed, o.draws, o.players, o, 0)
  {
    hide Output;
  }

  /**
   * The start of a game: the k-th event of the log is the pixel that the generator gives the k-th player, or its
   * death if somebody before it got the same; and each player who plays on is in the middle of that pixel.
   */
  lemma StartIsDrawn(c: Config, seed: nat, g: GameState)
    requires Idle(c, g) && CanStart(g.players) && Drawn(seed, g)
    ensures AllInPlace(c, seed, g.draws + 1, g.players, StartGame(c, g))
  {
    hide *;
    var o := OpenGame(c, g);
    ManyReady(g.players);
    IdlePlayers(c, g);
    DrawnMeans(seed, g);
    OpenedStarting(c, g);
    OpenedInGame(c, g);
    OpenedPlayers(c, seed, g);
    NobodyPlaced(c, seed, o);
    PlacesAll(c, seed, o.draws, g.players, o, 0);
    StartIsPlacing(c, g);
  }
}
