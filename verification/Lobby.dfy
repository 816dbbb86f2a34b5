/** Players that gather in a lobby, one address each, and when their messages start a game. */
module Lobby {
  import opened Bytes
  import opened Names
  import opened Messages
  import opened PlayerList
  import opened MessageQueue
  import opened Grammar
  import opened Game
  import opened GameInvariant
  import opened GameTurns
  import opened GameStart
  import opened GameMessages
  import opened PlayerQueues
  import opened Draws
  import opened WhoMoved
  import opened Rng

  /** Twenty characters, the most a name can have; the names are ordered by their number. */
  function Name(i: nat): Text
    requires i < MAX_PLAYERS
  {
    [(65 + i) as byte] + seq(19, k requires 0 <= k < 19 => 65 as byte)
  }

  function Host(i: nat): Fingerprint
    requires i < MAX_PLAYERS
  {
    [(97 + i) as char]
  }

  /** Player i presses a key; it has got the first `known` events of the game it knows. */
  function Press(i: nat, known: nat): ClientMessage
    requires i < MAX_PLAYERS
  {
    ClientMessage(1, Right, known, Name(i))
  }

  lemma NamesDiffer(i: nat, j: nat)
    requires i < MAX_PLAYERS && j < MAX_PLAYERS
    ensures i == j <==> Name(i) == Name(j)
    ensures Less(Name(i), Name(j)) <==> i < j
    ensures i == j <==> Host(i) == Host(j)
  {
    assert Name(i)[0] as nat == 65 + i && Name(j)[0] as nat == 65 + j;
    assert Host(i)[0] == (97 + i) as char && Host(j)[0] == (97 + j) as char;
    if i == j {
      LessIrreflexive(Name(i));
    }
  }

  lemma NameIsValid(i: nat)
    requires i < MAX_PLAYERS
    ensures PlayerName(Name(i)) && ValidName(Name(i)) && |Name(i)| == MAX_PLAYER_NAME_LENGTH
  {
  }

  /** Player i as it is listed between games. */
  predicate Seated(p: Player, i: nat, ready: bool)
    requires i < MAX_PLAYERS
  {
    p.name == Name(i) && p.fingerprint == Host(i) && p.sessionId == 1 && !p.isDisconnected && p.isReady == ready
  }

  /** No game is on, and the first n players are listed; these are ready. */
  ghost predicate Gathered(g: GameState, n: nat, ready: set<nat>) {
    && !g.started && |g.players| == n <= MAX_PLAYERS
    && forall i | 0 <= i < n :: Seated(g.players[i], i, i in ready)
  }

  // ---- When a game starts ----

  lemma {:induction false} ReadyCount(players: seq<Player>)
    ensures ReadyPlayers(players) <= |players|
    ensures ReadyPlayers(players) == |players| <==> forall i | 0 <= i < |players| :: players[i].isReady
  {
    if players != [] {
      ReadyCount(players[..|players| - 1]);
      assert forall i | 0 <= i < |players| - 1 :: players[..|players| - 1][i] == players[i];
    }
  }

  lemma StartsExactlyWhen(c: Config, g: GameState, n: nat, ready: set<nat>)
    requires Gathered(g, n, ready)
    ensures CanStart(g.players) <==> n > 1 && forall i | 0 <= i < n :: i in ready
    ensures MaybeStart(c, g) == if n > 1 && forall i | 0 <= i < n :: i in ready then StartGame(c, g) else g
  {
    ReadyCount(g.players);
    hide StartGame;
    hide ReadyPlayers;
    forall i | 0 <= i < n ensures g.players[i].isReady == (i in ready) {
      assert Seated(g.players[i], i, i in ready);
    }
  }

  // ---- Joining and pressing ----

  lemma {:induction false} FirstSessions(players: seq<Player>, names: seq<Text>, f: Fingerprint)
    requires forall i | 0 <= i < |players| :: players[i].sessionId == 1
    ensures OlderSessions(players, names, f, 1) == 0
    decreases |names|
  {
    if names != [] {
      FirstSessions(players, names[1..], f);
    }
  }

  lemma GatheredGives(g: GameState, n: nat, ready: set<nat>)
    requires Gathered(g, n, ready)
    ensures !g.started && |g.players| == n <= MAX_PLAYERS && NoneDisconnected(g.players)
    ensures forall i | 0 <= i < n :: g.players[i].name == Name(i)
    ensures forall i | 0 <= i < n :: g.players[i].fingerprint == Host(i)
    ensures forall i | 0 <= i < n :: g.players[i].sessionId == 1
  {
    hide Name;
    hide Host;
    forall i | 0 <= i < n
      ensures g.players[i].name == Name(i) && g.players[i].fingerprint == Host(i) && g.players[i].sessionId == 1
      ensures !g.players[i].isDisconnected
    {
      assert Seated(g.players[i], i, i in ready);
    }
  }

  lemma NewIsNotFound(g: GameState, n: nat, ready: set<nat>)
    requires Gathered(g, n, ready) && n < MAX_PLAYERS
    ensures FindPlayer(g.players, Name(n)) == n
    ensures DropOlder(g, PlayerNamesOf(g.players), Host(n), 1) == g
  {
    hide *;
    GatheredGives(g, n, ready);
    var k := FindPlayer(g.players, Name(n));
    if k < n {
      NamesDiffer(k, n);
    }
    FirstSessions(g.players, PlayerNamesOf(g.players), Host(n));
    NobodyOlder(g, PlayerNamesOf(g.players), Host(n), 1);
  }

  lemma JoinsAtTheEnd(g: GameState, n: nat, ready: set<nat>, p: Player)
    requires Gathered(g, n, ready) && n < MAX_PLAYERS && p.name == Name(n)
    ensures InsertPlayer(g.players, p) == g.players + [p]
  {
    GatheredGives(g, n, ready);
    var k := InsertPlaces(g.players, p);
    hide *;
    if k < n {
      NamesDiffer(k, n);
      NamesDiffer(n, k);
    }
    InsertedLast(g.players, InsertPlayer(g.players, p), p);
  }

  lemma InsertedLast(players: seq<Player>, others: seq<Player>, p: Player)
    requires Inserted(players, others, p, |players|)
    ensures others == players + [p]
  {
  }

  lemma NewSeat(n: nat)
    requires n < MAX_PLAYERS
    ensures Seated(NewPlayer(Host(n), Press(n, 0), true), n, true)
  {
    hide Name;
    hide Host;
  }

  /** The list with one more player, who is ready. */
  lemma GatheredNext(g: GameState, h: GameState, n: nat, ready: set<nat>, p: Player)
    requires Gathered(g, n, ready) && n < MAX_PLAYERS && Seated(p, n, true)
    requires h.players == g.players + [p] && h.started == g.started
    ensures Gathered(h, n + 1, ready + {n})
  {
    hide Seated;
    forall i | 0 <= i < n + 1 ensures Seated(h.players[i], i, i in ready + {n}) {
      if i < n {
        assert h.players[i] == g.players[i] && Seated(g.players[i], i, i in ready);
      }
    }
  }

  lemma JoiningFields(g: GameState, n: nat)
    requires n < MAX_PLAYERS && InsertPlayer(g.players, NewPlayer(Host(n), Press(n, 0), true))
                             == g.players + [NewPlayer(Host(n), Press(n, 0), true)]
    ensures var h := Joining(g, Host(n), Press(n, 0), true);
            h == g.(players := g.players + [NewPlayer(Host(n), Press(n, 0), true)], mq := Add(g.mq, Host(n), 0))
  {
    hide InsertPlayer;
    hide Add;
    hide Name;
    hide Host;
  }

  lemma PressFields(i: nat, known: nat)
    requires i < MAX_PLAYERS
    ensures var m := Press(i, known);
            && m.playerName == Name(i) && m.sessionId == 1 && m.nextExpectedEventNo == known && m.turnDirection == Right
            && Name(i) != []
  {
  }

  lemma MessageOfPlayer(c: Config, g: GameState, f: Fingerprint, m: ClientMessage)
    requires m.playerName != []
    ensures HandleMessage(c, g, f, m) == HandlePlayer(c, g, f, m)
  {
    hide HandlePlayer;
  }

  lemma NamesAt(i: nat)
    requires i < MAX_PLAYERS
    ensures NewPlayer(Host(i), Press(i, 0), true).name == Name(i)
  {
    hide Name;
    hide Host;
  }

  /** The next player joins, ready to play. */
  lemma Joins(c: Config, g: GameState, n: nat, ready: set<nat>)
    requires Gathered(g, n, ready) && n < MAX_PLAYERS
    ensures var h := Joining(g, Host(n), Press(n, 0), true);
            && HandleMessage(c, g, Host(n), Press(n, 0)) == MaybeStart(c, h) && Gathered(h, n + 1, ready + {n})
            && h == g.(players := h.players, mq := Add(g.mq, Host(n), 0))
  {
    hide *;
    var p := NewPlayer(Host(n), Press(n, 0), true);
    GatheredGives(g, n, ready);
    PressFields(n, 0);
    NamesAt(n);
    NewIsNotFound(g, n, ready);
    JoinsAtTheEnd(g, n, ready, p);
    MessageOfPlayer(c, g, Host(n), Press(n, 0));
    HandlePlayerIs(c, g, Host(n), Press(n, 0));
    JoiningFields(g, n);
    NewSeat(n);
    GatheredNext(g, Joining(g, Host(n), Press(n, 0), true), n, ready, p);
  }

  lemma KnownIsFound(g: GameState, n: nat, ready: set<nat>, i: nat)
    requires Gathered(g, n, ready) && i < n
    ensures FindPlayer(g.players, Name(i)) == i
  {
    hide *;
    GatheredGives(g, n, ready);
    var k := FindPlayer(g.players, Name(i));
    if k < i {
      NamesDiffer(k, i);
    }
  }

  lemma SteeredReady(g: GameState, n: nat, ready: set<nat>, i: nat, known: nat)
    requires Gathered(g, n, ready) && i < n
    ensures var h := Steered(g, i, Host(i), Press(i, known));
            Gathered(h, n, ready + {i}) && h == g.(players := h.players, mq := Ack(g.mq, Host(i), known))
  {
    hide Name;
    hide Host;
    hide Ack;
    var h := Steered(g, i, Host(i), Press(i, known));
    forall k | 0 <= k < n ensures Seated(h.players[k], k, k in ready + {i}) {
      assert Seated(g.players[k], k, k in ready);
    }
  }

  /** A player who is listed presses a key. */
  lemma Presses(c: Config, g: GameState, n: nat, ready: set<nat>, i: nat, known: nat)
    requires Gathered(g, n, ready) && i < n
    ensures var h := Steered(g, i, Host(i), Press(i, known));
            && HandleMessage(c, g, Host(i), Press(i, known)) == MaybeStart(c, h) && Gathered(h, n, ready + {i})
            && h == g.(players := h.players, mq := Ack(g.mq, Host(i), known))
  {
    hide *;
    GatheredGives(g, n, ready);
    PressFields(i, known);
    KnownIsFound(g, n, ready, i);
    MessageOfPlayer(c, g, Host(i), Press(i, known));
    HandlePlayerIs(c, g, Host(i), Press(i, known));
    SteeredReady(g, n, ready, i, known);
  }

  // ---- A game that is over at its start ----

  /** After this many draws, a game of two places both on one pixel. */
  predicate Collide(c: Config, seed: nat, draws: nat) {
    && Output(seed, draws + 1) % c.board.maxx == Output(seed, draws + 4) % c.board.maxx
    && Output(seed, draws + 2) % c.board.maxy == Output(seed, draws + 5) % c.board.maxy
  }

  /** A seed divisible by the modulus draws nothing but zeros. */
  lemma ZerosCollide(c: Config, seed: nat, draws: nat)
    requires seed % MODULUS == 0
    ensures Collide(c, seed, draws)
  {
    ZeroExactlyWhen(seed, draws + 1);
    ZeroExactlyWhen(seed, draws + 2);
    ZeroExactlyWhen(seed, draws + 4);
    ZeroExactlyWhen(seed, draws + 5);
    hide Output;
  }

  /** The same person: only the worm and the readiness may differ. */
  predicate Alike(p: Player, q: Player) {
    && q.name == p.name && q.fingerprint == p.fingerprint
    && q.sessionId == p.sessionId && q.isDisconnected == p.isDisconnected
  }

  ghost predicate AllAlike(players: seq<Player>, others: seq<Player>) {
    |players| == |others| && forall i | 0 <= i < |players| :: Alike(players[i], others[i])
  }

  lemma AlikeTwice(a: seq<Player>, b: seq<Player>, d: seq<Player>)
    requires AllAlike(a, b) && AllAlike(b, d)
    ensures AllAlike(a, d)
  {
  }

  lemma AlikeCount(players: seq<Player>, others: seq<Player>)
    requires AllAlike(players, others)
    ensures |players| == |others|
  {
  }

  lemma {:induction false} StayingAlike(players: seq<Player>)
    requires NoneDisconnected(players)
    ensures AllAlike(players, Staying(players)) && forall i | 0 <= i < |players| :: !Staying(players)[i].isReady
  {
    if players != [] {
      StayingAlike(players[1..]);
      assert Staying(players) == [players[0].(isReady := false)] + Staying(players[1..]);
      assert forall i | 0 < i < |players| :: players[i] == players[1..][i - 1];
    }
  }

  lemma ArrivedAlike(c: Config, g: GameState, j: nat)
    requires j < |g.players|
    ensures AllAlike(g.players, Arrived(c, g, j).players)
  {
    PlacedAlike(c, g.players[j], g.rng, Next(g.rng), Next(Next(g.rng)));
    hide Placed;
    hide Next;
  }

  lemma PlacedAlike(c: Config, p: Player, r1: nat, r2: nat, r3: nat)
    ensures Alike(p, Placed(c, p, r1, r2, r3))
  {
  }

  lemma EatenAlike(g: GameState, h: GameState, j: nat, pixel: Coordinates)
    requires AteFields(g, h, j, pixel)
    ensures AllAlike(g.players, h.players)
  {
  }

  lemma StruckAlike(g: GameState, h: GameState, j: nat)
    requires StruckFields(g, h, j)
    ensures AllAlike(g.players, h.players)
  {
  }

  lemma AlikeConnected(players: seq<Player>, others: seq<Player>)
    requires AllAlike(players, others) && NoneDisconnected(players)
    ensures NoneDisconnected(others)
  {
    forall i | 0 <= i < |others| ensures !others[i].isDisconnected {
      assert Alike(players[i], others[i]);
    }
  }

  lemma EndedPlayers(g: GameState)
    ensures EndGame(g).players == Staying(g.players) && !EndGame(g).started
  {
    hide Staying;
    hide Leaving;
    hide DropAll;
    hide Schedule;
  }

  /** The first placement: nobody is in the way. */
  lemma FirstIsPlaced(c: Config, seed: nat, o: GameState)
    requires Starting(c, o, 0) && |o.players| == 2 && o.rng == Output(seed, o.draws)
    ensures var e := PlacePlayer(c, o, 0);
            && Starting(c, e, 1) && AllAlike(o.players, e.players)
            && e.draws == o.draws + 3 && e.rng == Output(seed, e.draws)
            && e.eaten == {(Output(seed, o.draws) % c.board.maxx, Output(seed, o.draws + 1) % c.board.maxy)}
  {
    hide *;
    var h := Arrived(c, o, 0);
    var pixel := h.players[0].pixel;
    StartingGives(c, o, 0);
    ArrivesAsNext(c, o, 0);
    ArrivedAlike(c, o, 0);
    ArrivedPixel(c, seed, o, 0);
    PlaceIsArrived(c, o, 0);
    PlacedAlive(c, o, 0);
    AteLog(c, h, 1, 0, pixel);
    EatenAlike(h, EatPixel(h, 0, pixel), 0, pixel);
    AlikeTwice(o.players, h.players, EatPixel(h, 0, pixel).players);
    AteEaten(h, EatPixel(h, 0, pixel), 0, pixel);
    PlacePlayerDraws(c, seed, o, 0);
  }

  lemma AteEaten(g: GameState, h: GameState, j: nat, pixel: Coordinates)
    requires AteFields(g, h, j, pixel)
    ensures h.eaten == g.eaten + {pixel}
  {
  }

  lemma ArrivedPixel(c: Config, seed: nat, g: GameState, j: nat)
    requires j < |g.players| && g.rng == Output(seed, g.draws)
    ensures Arrived(c, g, j).players[j].pixel
         == (Output(seed, g.draws) % c.board.maxx, Output(seed, g.draws + 1) % c.board.maxy)
  {
    OneMore(seed, g.draws);
    PlacedKeeps(c, g.players[j], g.rng, Next(g.rng), Next(Next(g.rng)));
    hide Placed;
    hide Next;
  }

  /** The second placement: on the pixel of the first. */
  lemma SecondFalls(c: Config, seed: nat, e: GameState)
    requires Starting(c, e, 1) && |e.players| == 2 && e.rng == Output(seed, e.draws) && NoneDisconnected(e.players)
    requires e.eaten == {(Output(seed, e.draws) % c.board.maxx, Output(seed, e.draws + 1) % c.board.maxy)}
    ensures var h := PlacePlayer(c, e, 1);
            && !h.started && AllAlike(e.players, h.players) && forall i | 0 <= i < 2 :: !h.players[i].isReady
  {
    hide *;
    var h := Arrived(c, e, 1);
    var s := Struck(h, 1);
    StartingGives(c, e, 1);
    ArrivedPixel(c, seed, e, 1);
    TakenMeans(c, e, 1);
    ArrivesAsNext(c, e, 1);
    ArrivedAlike(c, e, 1);
    PlaceIsArrived(c, e, 1);
    EliminateIsStruck(h, 1);
    StruckLog(c, h, 2, 1);
    StruckAlike(h, s, 1);
    AlikeTwice(e.players, h.players, s.players);
    AlikeConnected(e.players, s.players);
    StayingAlike(s.players);
    EndedPlayers(s);
    AlikeTwice(e.players, s.players, Staying(s.players));
    OneRemains(c, e, s);
  }

  lemma OneRemains(c: Config, e: GameState, s: GameState)
    requires Starting(c, e, 1) && |e.players| == 2 && StruckFields(Arrived(c, e, 1), s, 1)
    ensures s.alive < 2
  {
    ArrivedPlayer(c, e, 1);
    StartingGives(c, e, 1);
    PlayingGives(c, e, 1);
    NamesCount(e.players);
    hide *;
    NobodyOut(Eliminated(CurrentLog(e)));
    AliveIs(c.board, e);
    StruckOneLess(Arrived(c, e, 1), s, 1);
  }

  lemma NobodyOut(out: set<nat>)
    requires forall no | no in out :: 1 <= no < 1
    ensures out == {}
  {
  }

  lemma AliveIs(b: Board, g: GameState)
    requires InGame(b, g)
    ensures g.alive + |Eliminated(CurrentLog(g))| == |Roster(CurrentLog(g))|
  {
    hide LogOk;
    hide Eliminated;
    hide Roster;
    hide Pixels;
    hide Over;
  }

  lemma StruckOneLess(g: GameState, h: GameState, j: nat)
    requires StruckFields(g, h, j)
    ensures h.alive == g.alive - 1
  {
  }

  lemma SeatsKept(g: GameState, h: GameState, n: nat, ready: set<nat>)
    requires Gathered(g, n, ready) && AllAlike(g.players, h.players) && !h.started
    requires forall i | 0 <= i < n :: !h.players[i].isReady
    ensures Gathered(h, n, {})
  {
    hide Name;
    hide Host;
    forall i | 0 <= i < n ensures Seated(h.players[i], i, i in {}) {
      assert Seated(g.players[i], i, i in ready) && Alike(g.players[i], h.players[i]);
    }
  }

  lemma OpenedPlayers(c: Config, seed: nat, g: GameState)
    requires g.rng == Output(seed, g.draws)
    ensures var o := OpenGame(c, g); o.players == g.players && o.draws == g.draws + 1 && o.rng == Output(seed, o.draws)
  {
    OneMore(seed, g.draws);
    OpenedDraws(c, g);
    hide Output;
    hide Next;
    hide Schedule;
    hide NumberAll;
    hide PlayersField;
  }

  lemma CollideMeans(c: Config, seed: nat, draws: nat)
    requires Collide(c, seed, draws)
    ensures Output(seed, draws + 1) % c.board.maxx == Output(seed, draws + 4) % c.board.maxx
    ensures Output(seed, draws + 2) % c.board.maxy == Output(seed, draws + 5) % c.board.maxy
  {
  }

  lemma BothReady(g: GameState)
    requires Gathered(g, 2, {0, 1})
    ensures CanStart(g.players)
  {
    ReadyCount(g.players);
    hide ReadyPlayers;
    assert Seated(g.players[0], 0, true) && Seated(g.players[1], 1, true);
  }

  /** A game of two that start on one pixel is over at once, and the two wait again. */
  lemma CollidingStart(c: Config, seed: nat, g: GameState)
    requires Gathered(g, 2, {0, 1}) && Idle(c, g) && Drawn(seed, g) && Collide(c, seed, g.draws)
    ensures var h := StartGame(c, g);
            && Gathered(h, 2, {}) && SameAudience(g.mq, h.mq) && Drawn(seed, h) && OneStarted(seed, g, h)
            && |CurrentLog(h)| == 4 && OneEach(CurrentLog(h), 2) && Roster(CurrentLog(h)) == PlayerNamesOf(g.players)
  {
    hide *;
    var o := OpenGame(c, g);
    GatheredGives(g, 2, {0, 1});
    DrawnMeans(seed, g);
    BothReady(g);
    OpenedStarting(c, g);
    OpenedPlayers(c, seed, g);
    var e := PlacePlayer(c, o, 0);
    FirstIsPlaced(c, seed, o);
    AlikeConnected(o.players, e.players);
    AlikeCount(o.players, e.players);
    CollideMeans(c, seed, g.draws);
    SecondFalls(c, seed, e);
    AlikeTwice(o.players, e.players, PlacePlayer(c, e, 1).players);
    StartIsPlacing(c, g);
    StartedUnderway(c, o, 0);
    StartedUnderway(c, e, 1);
    PlaceStep(c, o, 2, 0);
    PlaceStep(c, e, 2, 1);
    PlaceStep(c, PlacePlayer(c, e, 1), 2, 2);
    SeatsKept(g, StartGame(c, g), 2, {0, 1});
    StartKeepsAudience(c, g);
    StartDraws(c, seed, g);
    StartGameOk(c, g);
    OverAtOnce(c, StartGame(c, g), g.players);
  }

  lemma OverAtOnce(c: Config, h: GameState, players: seq<Player>)
    requires Started(c, h, players) && !h.started
    ensures OneEach(CurrentLog(h), |players|) && Roster(CurrentLog(h)) == PlayerNamesOf(players)
    ensures |CurrentLog(h)| == 2 + |players| && Idle(c, h)
  {
    hide Idle;
    hide OneEach;
    hide Roster;
    hide Over;
  }

  // ---- Between games ----

  /** Between games: who waits, which numbers have been drawn, and all games so far are over. */
  ghost predicate Lull(c: Config, seed: nat, g: GameState, n: nat, ready: set<nat>) {
    Gathered(g, n, ready) && Drawn(seed, g) && Finished(c.board, g.logs, |g.logs|)
  }

  lemma {:induction false} NamesIncrease(g: GameState, n: nat, ready: set<nat>)
    requires Gathered(g, n, ready)
    ensures PlayersOk(g.players)
  {
    hide *;
    GatheredGives(g, n, ready);
    forall i | 0 <= i < n ensures PlayerName(g.players[i].name) {
      NameIsValid(i);
    }
    forall i, j | 0 <= i < j < n ensures Less(g.players[i].name, g.players[j].name) {
      NamesDiffer(i, j);
    }
    PlayersOkFrom(g.players);
  }

  lemma PlayersOkFrom(players: seq<Player>)
    requires |players| <= MAX_PLAYERS && (forall i | 0 <= i < |players| :: PlayerName(players[i].name))
    requires forall i, j | 0 <= i < j < |players| :: Less(players[i].name, players[j].name)
    ensures PlayersOk(players)
  {
    hide Less;
    hide PlayerName;
  }

  lemma LullIdle(c: Config, seed: nat, g: GameState, n: nat, ready: set<nat>)
    requires Lull(c, seed, g, n, ready)
    ensures Idle(c, g) && Gathered(g, n, ready) && Drawn(seed, g) && |g.players| == n <= MAX_PLAYERS
  {
    NamesIncrease(g, n, ready);
    GatheredGives(g, n, ready);
    hide Gathered;
    hide Drawn;
    hide PlayersOk;
    hide NoneDisconnected;
    hide Finished;
  }

  lemma StillLull(c: Config, seed: nat, g: GameState, n: nat, ready: set<nat>, h: GameState, m: nat, more: set<nat>)
    requires Lull(c, seed, g, n, ready) && h == g.(players := h.players, mq := h.mq) && Gathered(h, m, more)
    ensures Lull(c, seed, h, m, more)
  {
    hide Gathered;
    hide Finished;
    hide DrawsOf;
    hide Output;
    hide NumbersDrawn;
  }

  /** A player joins, and somebody is still not ready. */
  lemma JoinsLull(c: Config, seed: nat, g: GameState, n: nat, ready: set<nat>)
    requires Lull(c, seed, g, n, ready) && n < MAX_PLAYERS && (n == 0 || exists i | 0 <= i < n :: i !in ready)
    ensures var h := HandleMessage(c, g, Host(n), Press(n, 0));
            Lull(c, seed, h, n + 1, ready + {n}) && h == g.(players := h.players, mq := Add(g.mq, Host(n), 0))
  {
    hide *;
    LullIdle(c, seed, g, n, ready);
    Joins(c, g, n, ready);
    var h := Joining(g, Host(n), Press(n, 0), true);
    StillLull(c, seed, g, n, ready, h, n + 1, ready + {n});
    StartsExactlyWhen(c, h, n + 1, ready + {n});
    if n > 0 {
      var i :| 0 <= i < n && i !in ready;
      assert i !in ready + {n};
    }
  }

  lemma PressesLull(c: Config, seed: nat, g: GameState, n: nat, ready: set<nat>, i: nat, known: nat)
    requires Lull(c, seed, g, n, ready) && i < n && exists k | 0 <= k < n :: k != i && k !in ready
    ensures i < MAX_PLAYERS
    ensures var h := HandleMessage(c, g, Host(i), Press(i, known));
            Lull(c, seed, h, n, ready + {i}) && h == g.(players := h.players, mq := Ack(g.mq, Host(i), known))
  {
    hide *;
    LullIdle(c, seed, g, n, ready);
    Presses(c, g, n, ready, i, known);
    var h := Steered(g, i, Host(i), Press(i, known));
    StillLull(c, seed, g, n, ready, h, n, ready + {i});
    StartsExactlyWhen(c, h, n, ready + {i});
    var k :| 0 <= k < n && k != i && k !in ready;
    assert k !in ready + {i};
  }

  /** What the start of a game that is over at once leaves behind. */
  ghost predicate OneMoreGame(c: Config, seed: nat, g: GameState, q: MQ, h: GameState) {
    && Lull(c, seed, h, 2, {}) && SameAudience(q, h.mq) && OneStarted(seed, g, h)
    && |CurrentLog(h)| == 4 && OneEach(CurrentLog(h), 2) && |Roster(CurrentLog(h))| == 2
    && (forall i | 0 <= i < 2 :: Roster(CurrentLog(h))[i] == Name(i))
  }

  lemma SameDraws(seed: nat, g: GameState, k: GameState, h: GameState)
    requires k == g.(players := k.players, mq := k.mq) && OneStarted(seed, k, h)
    ensures OneStarted(seed, g, h) && k.draws == g.draws
  {
    hide Output;
    hide DrawsFor;
  }

  lemma CollidedGame(c: Config, seed: nat, g: GameState, k: GameState)
    requires Lull(c, seed, k, 2, {0, 1}) && k == g.(players := k.players, mq := k.mq) && Collide(c, seed, k.draws)
    ensures OneMoreGame(c, seed, g, k.mq, StartGame(c, k))
  {
    hide *;
    var h := StartGame(c, k);
    LullIdle(c, seed, k, 2, {0, 1});
    CollidingStart(c, seed, k);
    SameDraws(seed, g, k, h);
    GatheredGives(k, 2, {0, 1});
    BothReady(k);
    StartGameOk(c, k);
    GatheredGives(h, 2, {});
    GameOkCases(c, h);
    IdleMeans(c, h);
    LullFrom(c, seed, h, 2, {});
    NamesGiven(k.players, 2);
    OneMoreGameFrom(c, seed, g, k.mq, h);
  }

  lemma NamesGiven(players: seq<Player>, n: nat)
    requires |players| == n <= MAX_PLAYERS && forall i | 0 <= i < n :: players[i].name == Name(i)
    ensures |PlayerNamesOf(players)| == n && forall i | 0 <= i < n :: PlayerNamesOf(players)[i] == Name(i)
  {
    hide Name;
  }

  lemma LullFrom(c: Config, seed: nat, g: GameState, n: nat, ready: set<nat>)
    requires Gathered(g, n, ready) && Drawn(seed, g) && Finished(c.board, g.logs, |g.logs|)
    ensures Lull(c, seed, g, n, ready)
  {
    hide Gathered;
    hide Drawn;
    hide Finished;
  }

  lemma OneMoreGameFrom(c: Config, seed: nat, g: GameState, q: MQ, h: GameState)
    requires Lull(c, seed, h, 2, {}) && SameAudience(q, h.mq) && OneStarted(seed, g, h)
    requires |CurrentLog(h)| == 4 && OneEach(CurrentLog(h), 2) && |Roster(CurrentLog(h))| == 2
    requires forall i | 0 <= i < 2 :: Roster(CurrentLog(h))[i] == Name(i)
    ensures OneMoreGame(c, seed, g, q, h)
  {
    hide Lull;
    hide OneStarted;
    hide OneEach;
    hide Roster;
    hide Name;
    hide SameAudience;
  }

  /** The second player joins and the game starts. */
  lemma JoinsAndStarts(c: Config, seed: nat, g: GameState)
    requires Lull(c, seed, g, 1, {0}) && Collide(c, seed, g.draws)
    ensures OneMoreGame(c, seed, g, Add(g.mq, Host(1), 0), HandleMessage(c, g, Host(1), Press(1, 0)))
  {
    hide *;
    LullIdle(c, seed, g, 1, {0});
    SomeRoom();
    Joins(c, g, 1, {0});
    var k := Joining(g, Host(1), Press(1, 0), true);
    assert {0} + {1} == {0, 1};
    StillLull(c, seed, g, 1, {0}, k, 2, {0, 1});
    StartsExactlyWhen(c, k, 2, {0, 1});
    CollidedGame(c, seed, g, k);
  }

  lemma SomeRoom()
    ensures 2 <= MAX_PLAYERS
  {
  }

  /** The last of two players presses a key and the game starts. */
  lemma PressesAndStarts(c: Config, seed: nat, g: GameState, known: nat)
    requires Lull(c, seed, g, 2, {0}) && Collide(c, seed, g.draws)
    ensures OneMoreGame(c, seed, g, Ack(g.mq, Host(1), known), HandleMessage(c, g, Host(1), Press(1, known)))
  {
    hide *;
    LullIdle(c, seed, g, 2, {0});
    Presses(c, g, 2, {0}, 1, known);
    var k := Steered(g, 1, Host(1), Press(1, known));
    assert {0} + {1} == {0, 1};
    StillLull(c, seed, g, 2, {0}, k, 2, {0, 1});
    StartsExactlyWhen(c, k, 2, {0, 1});
    CollidedGame(c, seed, g, k);
  }

  /** The last of n players presses a key and a game of n starts, whatever becomes of it. */
  lemma PressesAndStartsMany(c: Config, seed: nat, g: GameState, n: nat, ready: set<nat>, known: nat)
    requires Lull(c, seed, g, n, ready) && n >= 2 && forall i | 0 <= i < n :: i == 1 || i in ready
    ensures n <= MAX_PLAYERS
    ensures var h := HandleMessage(c, g, Host(1), Press(1, known));
            && Drawn(seed, h) && OneStarted(seed, g, h) && SameAudience(Ack(g.mq, Host(1), known), h.mq)
            && LogOk(c.board, CurrentLog(h)) && |CurrentLog(h)| > n && |Roster(CurrentLog(h))| == n
            && (forall i | 0 <= i < n :: Roster(CurrentLog(h))[i] == Name(i))
  {
    hide *;
    var all := ready + {1};
    LullIdle(c, seed, g, n, ready);
    Presses(c, g, n, ready, 1, known);
    var k := Steered(g, 1, Host(1), Press(1, known));
    var h := StartGame(c, k);
    StillLull(c, seed, g, n, ready, k, n, all);
    LullIdle(c, seed, k, n, all);
    StartsExactlyWhen(c, k, n, all);
    GatheredGives(k, n, all);
    StartKeepsAudience(c, k);
    StartDraws(c, seed, k);
    SameDraws(seed, g, k, h);
    StartGameOk(c, k);
    StartedLog(c, h, k.players);
    NamesGiven(k.players, n);
    InitialAt(CurrentLog(h), n, n);
  }
}
