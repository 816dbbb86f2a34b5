/** Messages from clients and lost connections keep the invariant of the game. */
module GameMessages {
  import opened Bytes
  import opened Names
  import opened Messages
  import opened MessageQueue
  import opened Grammar
  import opened Game
  import opened GameInvariant
  import opened GameTurns
  import opened GameStart

  // ---- What the invariant does not look at ----

  /** The same game: only clients, the queue and the generator may differ. */
  ghost predicate SameGame(g: GameState, h: GameState) {
    h == g.(watchers := h.watchers, mq := h.mq, rng := h.rng, draws := h.draws)
  }

  lemma SameGameOk(c: Config, g: GameState, h: GameState)
    requires GameOk(c, g) && SameGame(g, h)
    ensures GameOk(c, h)
  {
    hide PlayerOk;
    hide LogOk;
    hide Eliminated;
    hide Pixels;
    hide Roster;
    hide Over;
    hide PlayersOk;
    hide NumbersOk;
    hide AllPresent;
    hide Finished;
    hide Survivors;
    if g.started {
      forall k | 0 <= k < |h.players|
        ensures PlayerOk(c.board, h.numbers, h.eaten, Eliminated(CurrentLog(h)), h.players[k], k < |h.players|)
      {
        assert PlayerOk(c.board, g.numbers, g.eaten, Eliminated(CurrentLog(g)), g.players[k], k < |g.players|);
      }
    }
  }

  // ---- Players that steer, get ready or leave ----

  /** What a connection can change about a player. */
  ghost predicate SameWorm(p: Player, q: Player) {
    q == p.(turnDirection := q.turnDirection, isReady := q.isReady, isDisconnected := q.isDisconnected)
  }

  ghost predicate SameWorms(players: seq<Player>, others: seq<Player>) {
    |players| == |others| && forall i | 0 <= i < |players| :: SameWorm(players[i], others[i])
  }

  lemma SameWormsNames(players: seq<Player>, others: seq<Player>)
    requires SameWorms(players, others)
    ensures SameNames(players, others)
    ensures PlayersOk(players) ==> PlayersOk(others)
  {
    assert SameNames(players, others) by {
      forall i | 0 <= i < |players| ensures players[i].name == others[i].name {
        assert SameWorm(players[i], others[i]);
      }
    }
    hide *;
    SameNamesKeep(players, others, []);
  }

  lemma {:induction false} SameWormsSurvive(players: seq<Player>, others: seq<Player>)
    requires SameWorms(players, others)
    ensures Survivors(players) == Survivors(others)
  {
    if players != [] {
      var n := |players| - 1;
      assert SameWorm(players[n], others[n]);
      assert SameWorms(players[..n], others[..n]) by {
        hide SameWorm;
      }
      SameWormsSurvive(players[..n], others[..n]);
    }
  }

  lemma SameWormsTallied(g: GameState, h: GameState)
    requires SameWorms(g.players, h.players) && h.alive == g.alive && Tallied(g, |g.players|)
    ensures Tallied(h, |h.players|)
  {
    hide SameWorms;
    hide Survivors;
    assert |g.players| == |h.players| by {
      SameWormsNames(g.players, h.players);
    }
    assert g.players[..|g.players|] == g.players && h.players[..|h.players|] == h.players;
    SameWormsSurvive(g.players, h.players);
  }

  lemma SameWormsOthers(c: Config, g: GameState, h: GameState)
    requires SameWorms(g.players, h.players) && h == g.(players := h.players) && OthersOk(c, g, |g.players|, -1)
    ensures OthersOk(c, h, |h.players|, -1)
  {
    hide Eliminated;
    hide OnBoard;
    forall k | 0 <= k < |h.players|
      ensures PlayerOk(c.board, h.numbers, h.eaten, Eliminated(CurrentLog(h)), h.players[k], k < |h.players|)
    {
      assert PlayerOk(c.board, g.numbers, g.eaten, Eliminated(CurrentLog(g)), g.players[k], k < |g.players|);
      assert SameWorm(g.players[k], h.players[k]);
      SameWormOnBoard(c.board, g.eaten, g.players[k], h.players[k]);
    }
  }

  lemma SameWormOnBoard(b: Board, eaten: set<Coordinates>, p: Player, q: Player)
    requires SameWorm(p, q)
    ensures OnBoard(b, eaten, p) ==> OnBoard(b, eaten, q)
  {
  }

  lemma SameInGame(b: Board, g: GameState, h: GameState)
    requires InGame(b, g) && h == g.(players := h.players)
    ensures InGame(b, h) && CurrentLog(h) == CurrentLog(g)
  {
    hide LogOk;
    hide Over;
    hide Eliminated;
    hide Pixels;
    hide Roster;
  }

  lemma SameWormsPlaying(c: Config, g: GameState, h: GameState)
    requires Playing(c, g, |g.players|) && SameWorms(g.players, h.players) && h == g.(players := h.players)
    ensures Playing(c, h, |h.players|)
  {
    hide *;
    PlayingGives(c, g, |g.players|);
    SameWormsNames(g.players, h.players);
    SameInGame(c.board, g, h);
    StaysEnrolled(g, h);
    SameWormsTallied(g, h);
    SameWormsOthers(c, g, h);
    PlayingFrom(c, h, |h.players|);
  }

  lemma SameWormsOk(c: Config, g: GameState, h: GameState)
    requires GameOk(c, g) && SameWorms(g.players, h.players) && h == g.(players := h.players)
    requires g.started || NoneDisconnected(h.players)
    ensures GameOk(c, h)
  {
    hide *;
    GameOkCases(c, g);
    GameOkCases(c, h);
    if g.started {
      SameWormsPlaying(c, g, h);
    } else {
      IdleMeans(c, g);
      SameWormsNames(g.players, h.players);
      IdleMeans(c, h);
    }
  }

  lemma IdleMeans(c: Config, g: GameState)
    ensures Idle(c, g) <==>
            !g.started && PlayersOk(g.players) && NoneDisconnected(g.players) && Finished(c.board, g.logs, |g.logs|)
  {
  }

  // ---- A lost connection ----

  lemma {:induction false} MarkedSameWorms(players: seq<Player>, f: Fingerprint)
    ensures SameWorms(players, Marked(players, f))
  {
    hide SameWorm;
    if players != [] {
      assert SameWorm(players[0], players[0].(isDisconnected := true)) by {
        SameWormWithItself(players[0]);
      }
      SameWormWithItself(players[0]);
      forall i | 0 <= i < |players| ensures SameWorm(players[i], players[i]) {
        SameWormWithItself(players[i]);
      }
      MarkedSameWorms(players[1..], f);
    }
  }

  lemma SameWormWithItself(p: Player)
    ensures SameWorm(p, p) && SameWorm(p, p.(isDisconnected := true))
  {
  }

  lemma EraseIdle(c: Config, g: GameState)
    requires !g.started && PlayersOk(g.players) && Finished(c.board, g.logs, |g.logs|)
    ensures Idle(c, EraseDisconnected(g)) && EraseDisconnected(g).logs == g.logs && !EraseDisconnected(g).started
  {
    StayingOk(g.players);
    hide PlayersOk;
    hide NoneDisconnected;
    hide Staying;
    hide Finished;
    hide DropAll;
  }

  /** The state before the dropped player is erased, if it is. */
  function Unlinked(g: GameState, f: Fingerprint): GameState {
    if f in g.watchers then g.(mq := Drop(g.mq, f), watchers := g.watchers - {f})
    else g.(mq := Drop(g.mq, f), players := Marked(g.players, f))
  }

  lemma DropIsUnlinked(g: GameState, f: Fingerprint)
    ensures DropConnection(g, f)
         == if f !in g.watchers && !g.started then EraseDisconnected(Unlinked(g, f)) else Unlinked(g, f)
  {
    hide EraseDisconnected;
    hide Marked;
    hide Drop;
  }

  /** Players can only disappear. */
  ghost predicate NamesWithin(players: seq<Player>, others: seq<Player>) {
    forall i | 0 <= i < |others| :: Listed(players, others[i].name)
  }

  lemma {:induction false} StayingWithin(players: seq<Player>)
    ensures NamesWithin(players, Staying(players))
  {
    if players != [] {
      StayingWithin(players[1..]);
      forall i | 0 <= i < |Staying(players)| ensures Listed(players, Staying(players)[i].name) {
        var rest := Staying(players[1..]);
        var k := i - (|Staying(players)| - |rest|);
        if k >= 0 {
          assert Listed(players[1..], rest[k].name);
          var j :| 0 <= j < |players[1..]| && players[1..][j].name == rest[k].name;
          assert players[j + 1].name == Staying(players)[i].name;
        } else {
          assert players[0].name == Staying(players)[i].name;
        }
      }
    }
  }

  lemma SameNamesWithin(players: seq<Player>, others: seq<Player>)
    requires SameNames(players, others)
    ensures NamesWithin(players, others)
  {
    forall i | 0 <= i < |others| ensures Listed(players, others[i].name) {
      assert players[i].name == others[i].name;
    }
  }

  lemma WithinTransitive(a: seq<Player>, b: seq<Player>, d: seq<Player>)
    requires NamesWithin(a, b) && NamesWithin(b, d)
    ensures NamesWithin(a, d)
  {
    forall i | 0 <= i < |d| ensures Listed(a, d[i].name) {
      assert Listed(b, d[i].name);
      var j :| 0 <= j < |b| && b[j].name == d[i].name;
      assert Listed(a, b[j].name);
    }
  }

  lemma ErasedPlayers(g: GameState)
    ensures EraseDisconnected(g).players == Staying(g.players)
  {
  }

  lemma UnlinkedFields(g: GameState, f: Fingerprint)
    ensures var h := Unlinked(g, f);
            && h.started == g.started && h.logs == g.logs
            && h.players == (if f in g.watchers then g.players else Marked(g.players, f))
            && SameGame(g.(players := h.players), h)
  {
    hide Marked;
    hide Drop;
  }

  lemma SameWormsWithin(players: seq<Player>, others: seq<Player>)
    requires SameWorms(players, others)
    ensures NamesWithin(players, others)
  {
    SameWormsNames(players, others);
    hide *;
    SameNamesWithin(players, others);
  }

  lemma SameWormsWithItself(players: seq<Player>)
    ensures SameWorms(players, players)
  {
  }

  lemma UnlinkedSameWorms(g: GameState, f: Fingerprint)
    ensures SameWorms(g.players, Unlinked(g, f).players)
  {
    hide *;
    UnlinkedFields(g, f);
    MarkedSameWorms(g.players, f);
    SameWormsWithItself(g.players);
  }

  lemma DropNames(g: GameState, f: Fingerprint)
    ensures NamesWithin(g.players, DropConnection(g, f).players) && DropConnection(g, f).started == g.started
  {
    hide *;
    var h := Unlinked(g, f);
    DropIsUnlinked(g, f);
    UnlinkedFields(g, f);
    UnlinkedSameWorms(g, f);
    SameWormsWithin(g.players, h.players);
    ErasedPlayers(h);
    ErasedStarted(h);
    StayingWithin(h.players);
    WithinTransitive(g.players, h.players, Staying(h.players));
  }

  lemma ErasedStarted(g: GameState)
    ensures EraseDisconnected(g).started == g.started
  {
  }

  lemma DropConnectionOk(c: Config, g: GameState, f: Fingerprint)
    requires GameOk(c, g)
    ensures GameOk(c, DropConnection(g, f))
  {
    hide *;
    var h := Unlinked(g, f);
    DropIsUnlinked(g, f);
    UnlinkedFields(g, f);
    UnlinkedSameWorms(g, f);
    GameOkCases(c, g);
    if g.started || f in g.watchers {
      if !g.started {
        IdleMeans(c, g);
      }
      SameWormsOk(c, g, g.(players := h.players));
      SameGameOk(c, g.(players := h.players), h);
    } else {
      IdleMeans(c, g);
      SameWormsNames(g.players, h.players);
      EraseIdle(c, h);
      GameOkCases(c, EraseDisconnected(h));
    }
  }

  // ---- Older sessions ----

  lemma DropOlderStep(g: GameState, names: seq<Text>, f: Fingerprint, sessionId: nat)
    requires names != []
    ensures DropOlder(g, names, f, sessionId) == DropOlder(g, names[1..], f, sessionId)
         || DropOlder(g, names, f, sessionId) == DropOlder(DropConnection(g, f), names[1..], f, sessionId)
  {
    hide DropConnection;
  }

  lemma NothingOlder(g: GameState, f: Fingerprint, sessionId: nat)
    ensures DropOlder(g, [], f, sessionId) == g
  {
  }

  lemma {:induction false} DropOlderOk(c: Config, g: GameState, names: seq<Text>, f: Fingerprint, sessionId: nat)
    requires GameOk(c, g)
    ensures GameOk(c, DropOlder(g, names, f, sessionId))
    decreases |names|
  {
    hide *;
    if names == [] {
      NothingOlder(g, f, sessionId);
    } else {
      DropOlderStep(g, names, f, sessionId);
      DropOlderOk(c, g, names[1..], f, sessionId);
      DropConnectionOk(c, g, f);
      DropOlderOk(c, DropConnection(g, f), names[1..], f, sessionId);
    }
  }

  lemma {:induction false} DropOlderNames(g: GameState, names: seq<Text>, f: Fingerprint, sessionId: nat)
    ensures var h := DropOlder(g, names, f, sessionId);
            h.started == g.started && NamesWithin(g.players, h.players)
    decreases |names|
  {
    hide *;
    if names == [] {
      NothingOlder(g, f, sessionId);
      SameWormsWithItself(g.players);
      SameWormsWithin(g.players, g.players);
    } else {
      var d := DropConnection(g, f);
      DropOlderStep(g, names, f, sessionId);
      DropOlderNames(g, names[1..], f, sessionId);
      DropNames(g, f);
      DropOlderNames(d, names[1..], f, sessionId);
      WithinTransitive(g.players, d.players, DropOlder(d, names[1..], f, sessionId).players);
    }
  }

  // ---- A new player ----

  /** `others` is `players` with p put in. */
  ghost predicate Inserted(players: seq<Player>, others: seq<Player>, p: Player, k: nat) {
    k <= |players| && others == players[..k] + [p] + players[k..]
  }

  lemma {:induction false} InsertPlaces(players: seq<Player>, p: Player) returns (k: nat)
    ensures Inserted(players, InsertPlayer(players, p), p, k)
    ensures forall i | 0 <= i < k :: !Less(p.name, players[i].name)
    ensures k < |players| ==> Less(p.name, players[k].name)
  {
    hide Less;
    if players == [] || Less(p.name, players[0].name) {
      k := 0;
      assert [] + [p] + players == [p] + players;
    } else {
      k := InsertPlaces(players[1..], p);
      assert players[..k + 1] == [players[0]] + players[1..][..k] && players[k + 1..] == players[1..][k..];
      k := k + 1;
    }
  }

  /** A new name goes strictly between the smaller and the larger ones. */
  lemma InsertedBetween(players: seq<Player>, p: Player, k: nat)
    requires PlayersOk(players) && !Listed(players, p.name) && k <= |players|
    requires forall i | 0 <= i < k :: !Less(p.name, players[i].name)
    requires k < |players| ==> Less(p.name, players[k].name)
    ensures forall i | 0 <= i < k :: Less(players[i].name, p.name)
    ensures forall i | k <= i < |players| :: Less(p.name, players[i].name)
  {
    hide Less;
    hide PlayerName;
    forall i | 0 <= i < k ensures Less(players[i].name, p.name) {
      LessTotal(players[i].name, p.name);
    }
    forall i | k <= i < |players| ensures Less(p.name, players[i].name) {
      if i > k {
        LessTransitive(p.name, players[k].name, players[i].name);
      }
    }
  }

  lemma InsertedOk(players: seq<Player>, others: seq<Player>, p: Player, k: nat)
    requires Inserted(players, others, p, k) && PlayersOk(players) && PlayerName(p.name) && |players| < MAX_PLAYERS
    requires forall i | 0 <= i < k :: Less(players[i].name, p.name)
    requires forall i | k <= i < |players| :: Less(p.name, players[i].name)
    ensures PlayersOk(others)
  {
    hide Less;
    hide PlayerName;
    forall i, j | 0 <= i < j < |others| ensures Less(others[i].name, others[j].name) {
      assert others[i] == if i < k then players[i] else if i == k then p else players[i - 1];
      assert others[j] == if j < k then players[j] else if j == k then p else players[j - 1];
    }
  }

  lemma {:induction false} SurvivorsOfConcat(a: seq<Player>, b: seq<Player>)
    ensures Survivors(a + b) == Survivors(a) + Survivors(b)
    decreases |b|
  {
    if b == [] {
      assert a + b == a;
    } else {
      var n := |b| - 1;
      assert (a + b)[..|a + b| - 1] == a + b[..n];
      SurvivorsOfConcat(a, b[..n]);
    }
  }

  lemma InsertedSurvivors(players: seq<Player>, others: seq<Player>, p: Player, k: nat)
    requires Inserted(players, others, p, k) && !p.takesPart
    ensures Survivors(others) == Survivors(players)
  {
    SurvivorsOfConcat(players[..k] + [p], players[k..]);
    SurvivorsOfConcat(players[..k], [p]);
    SurvivorsOfConcat(players[..k], players[k..]);
    assert players == players[..k] + players[k..];
    assert [p][..0] == [];
  }

  lemma InsertedTallied(g: GameState, h: GameState, p: Player, k: nat)
    requires Inserted(g.players, h.players, p, k) && !p.takesPart && h.alive == g.alive && Tallied(g, |g.players|)
    ensures Tallied(h, |h.players|)
  {
    InsertedSurvivors(g.players, h.players, p, k);
    hide Survivors;
    assert g.players[..|g.players|] == g.players && h.players[..|h.players|] == h.players;
  }

  lemma InsertedEnrolled(g: GameState, h: GameState, p: Player, k: nat)
    requires Inserted(g.players, h.players, p, k) && Enrolled(g) && PlayersOk(h.players)
    requires h == g.(players := h.players)
    ensures Enrolled(h)
  {
    hide Roster;
    hide PlayersOk;
    hide NumbersOk;
    var names := Roster(CurrentLog(g));
    forall i | 0 <= i < |names| ensures Listed(h.players, names[i]) {
      assert Listed(g.players, names[i]);
      var j :| 0 <= j < |g.players| && g.players[j].name == names[i];
      assert h.players[if j < k then j else j + 1] == g.players[j];
    }
  }

  /** A new name is not one of those announced, since nobody announced has left. */
  lemma NewcomerUnnumbered(g: GameState, name: Text)
    requires Enrolled(g) && !Listed(g.players, name)
    ensures name !in g.numbers
  {
    hide Roster;
    hide PlayersOk;
    var names := Roster(CurrentLog(g));
    forall other | other in g.numbers ensures Listed(g.players, other) {
      assert names[g.numbers[other]] == other;
    }
  }

  lemma InsertedOthers(c: Config, g: GameState, h: GameState, p: Player, k: nat)
    requires Inserted(g.players, h.players, p, k) && OthersOk(c, g, |g.players|, -1)
    requires h == g.(players := h.players) && p.name !in g.numbers && !p.takesPart
    ensures OthersOk(c, h, |h.players|, -1)
  {
    hide Eliminated;
    hide OnBoard;
    forall i | 0 <= i < |h.players|
      ensures PlayerOk(c.board, h.numbers, h.eaten, Eliminated(CurrentLog(h)), h.players[i], i < |h.players|)
    {
      if i != k {
        var j := if i < k then i else i - 1;
        assert h.players[i] == g.players[j];
        assert PlayerOk(c.board, g.numbers, g.eaten, Eliminated(CurrentLog(g)), g.players[j], j < |g.players|);
      }
    }
  }

  lemma InsertedPlaying(c: Config, g: GameState, h: GameState, p: Player, k: nat)
    requires Playing(c, g, |g.players|) && Inserted(g.players, h.players, p, k) && PlayersOk(h.players)
    requires h == g.(players := h.players) && !Listed(g.players, p.name) && !p.takesPart
    ensures Playing(c, h, |h.players|)
  {
    hide *;
    PlayingGives(c, g, |g.players|);
    SameInGame(c.board, g, h);
    InsertedEnrolled(g, h, p, k);
    NewcomerUnnumbered(g, p.name);
    InsertedTallied(g, h, p, k);
    InsertedOthers(c, g, h, p, k);
    PlayingFrom(c, h, |h.players|);
  }

  lemma InsertedConnected(players: seq<Player>, others: seq<Player>, p: Player, k: nat)
    requires Inserted(players, others, p, k) && NoneDisconnected(players) && !p.isDisconnected
    ensures NoneDisconnected(others)
  {
  }

  lemma PlayersOkOf(c: Config, g: GameState)
    requires GameOk(c, g)
    ensures PlayersOk(g.players)
  {
    hide *;
    GameOkCases(c, g);
    if g.started {
      PlayingGives(c, g, |g.players|);
    } else {
      IdleMeans(c, g);
    }
  }

  lemma InsertPlayerOk(c: Config, g: GameState, p: Player)
    requires GameOk(c, g) && PlayerName(p.name) && !Listed(g.players, p.name) && |g.players| < MAX_PLAYERS
    requires !p.takesPart && !p.isDisconnected
    ensures GameOk(c, g.(players := InsertPlayer(g.players, p)))
  {
    hide *;
    var h := g.(players := InsertPlayer(g.players, p));
    var k := InsertPlaces(g.players, p);
    PlayersOkOf(c, g);
    InsertedFits(g.players, h.players, p, k);
    InsertedBetween(g.players, p, k);
    InsertedOk(g.players, h.players, p, k);
    GameOkCases(c, g);
    GameOkCases(c, h);
    if g.started {
      InsertedPlaying(c, g, h, p, k);
    } else {
      IdleMeans(c, g);
      InsertedConnected(g.players, h.players, p, k);
      IdleMeans(c, h);
    }
  }

  lemma InsertedFits(players: seq<Player>, others: seq<Player>, p: Player, k: nat)
    requires Inserted(players, others, p, k)
    ensures k <= |players|
  {
  }

  // ---- Messages ----

  lemma MaybeStartOk(c: Config, g: GameState)
    requires GameOk(c, g)
    ensures GameOk(c, MaybeStart(c, g))
  {
    GameOkCases(c, g);
    hide GameOk;
    hide CanStart;
    hide StartGame;
    hide Playing;
    hide Idle;
    if !g.started && CanStart(g.players) {
      StartGameOk(c, g);
    }
  }

  lemma HandlePlayerIs(c: Config, g: GameState, f: Fingerprint, m: ClientMessage)
    ensures var k := FindPlayer(g.players, m.playerName);
            var h := DropOlder(g, PlayerNamesOf(g.players), f, m.sessionId);
            var ready := !g.started && m.turnDirection != Straight;
            var after := if k < |g.players| then
                (if g.players[k].fingerprint != f then g else MaybeStart(c, Steered(g, k, f, m)))
                         else if |h.players| == MAX_PLAYERS then h
                         else MaybeStart(c, Joining(h, f, m, ready));
            HandlePlayer(c, g, f, m) == after
  {
    hide MaybeStart;
    hide DropOlder;
    hide Steered;
    hide Joining;
    hide FindPlayer;
    hide PlayerNamesOf;
  }

  lemma UpdatedSameWorms(players: seq<Player>, k: nat, q: Player)
    requires k < |players| && SameWorm(players[k], q)
    ensures SameWorms(players, players[k := q])
  {
  }

  lemma UpdatedConnected(players: seq<Player>, k: nat, q: Player)
    requires k < |players| && NoneDisconnected(players) && !q.isDisconnected
    ensures NoneDisconnected(players[k := q])
  {
  }

  lemma SteeredFields(g: GameState, k: nat, f: Fingerprint, m: ClientMessage)
    requires k < |g.players|
    ensures var h := Steered(g, k, f, m);
            && |h.players| == |g.players| && SameWorm(g.players[k], h.players[k])
            && h.players == g.players[k := h.players[k]]
            && h.players[k].isDisconnected == g.players[k].isDisconnected
            && h.started == g.started && SameGame(g.(players := h.players), h)
  {
    hide Ack;
  }

  lemma SteeredOk(c: Config, g: GameState, k: nat, f: Fingerprint, m: ClientMessage)
    requires GameOk(c, g) && k < |g.players|
    ensures GameOk(c, Steered(g, k, f, m))
  {
    hide *;
    var h := Steered(g, k, f, m);
    SteeredFields(g, k, f, m);
    UpdatedSameWorms(g.players, k, h.players[k]);
    GameOkCases(c, g);
    if !g.started {
      IdleMeans(c, g);
      ConnectedAt(g.players, k);
      UpdatedConnected(g.players, k, h.players[k]);
    }
    SameWormsOk(c, g, g.(players := h.players));
    SameGameOk(c, g.(players := h.players), h);
  }

  lemma ConnectedAt(players: seq<Player>, k: nat)
    requires NoneDisconnected(players) && k < |players|
    ensures !players[k].isDisconnected
  {
  }

  lemma JoiningOk(c: Config, g: GameState, f: Fingerprint, m: ClientMessage, ready: bool)
    requires GameOk(c, g) && PlayerName(m.playerName) && !Listed(g.players, m.playerName) && |g.players| < MAX_PLAYERS
    ensures GameOk(c, Joining(g, f, m, ready))
  {
    hide *;
    var p := NewPlayer(f, m, ready);
    NewPlayerFields(f, m, ready);
    InsertPlayerOk(c, g, p);
    JoiningSame(g, f, m, ready);
    SameGameOk(c, g.(players := InsertPlayer(g.players, p)), Joining(g, f, m, ready));
  }

  lemma NewPlayerFields(f: Fingerprint, m: ClientMessage, ready: bool)
    ensures var p := NewPlayer(f, m, ready); p.name == m.playerName && !p.takesPart && !p.isDisconnected
  {
  }

  lemma JoiningSame(g: GameState, f: Fingerprint, m: ClientMessage, ready: bool)
    ensures SameGame(g.(players := InsertPlayer(g.players, NewPlayer(f, m, ready))), Joining(g, f, m, ready))
  {
    hide InsertPlayer;
    hide Add;
  }

  lemma NotFound(players: seq<Player>, others: seq<Player>, name: Text)
    requires FindPlayer(players, name) == |players| && NamesWithin(players, others)
    ensures !Listed(others, name)
  {
    forall i | 0 <= i < |others| ensures others[i].name != name {
      assert Listed(players, others[i].name);
    }
  }

  lemma FewEnough(players: seq<Player>)
    requires PlayersOk(players) && |players| != MAX_PLAYERS
    ensures |players| < MAX_PLAYERS
  {
  }

  lemma HandlePlayerOk(c: Config, g: GameState, f: Fingerprint, m: ClientMessage)
    requires GameOk(c, g) && PlayerName(m.playerName)
    ensures GameOk(c, HandlePlayer(c, g, f, m))
  {
    hide *;
    HandlePlayerIs(c, g, f, m);
    var k := FindPlayer(g.players, m.playerName);
    var h := DropOlder(g, PlayerNamesOf(g.players), f, m.sessionId);
    if k < |g.players| {
      SteeredOk(c, g, k, f, m);
      MaybeStartOk(c, Steered(g, k, f, m));
    } else {
      DropOlderOk(c, g, PlayerNamesOf(g.players), f, m.sessionId);
      DropOlderNames(g, PlayerNamesOf(g.players), f, m.sessionId);
      NotFound(g.players, h.players, m.playerName);
      PlayersOkOf(c, h);
      if |h.players| != MAX_PLAYERS {
        FewEnough(h.players);
        var ready := !g.started && m.turnDirection != Straight;
        JoiningOk(c, h, f, m, ready);
        MaybeStartOk(c, Joining(h, f, m, ready));
      }
    }
  }

  lemma HandleWatcherSame(g: GameState, f: Fingerprint, m: ClientMessage)
    ensures SameGame(g, HandleWatcher(g, f, m))
  {
    hide Add;
    hide Drop;
    hide Ack;
  }

  /** Whatever a client sends, the invariant is kept. */
  lemma HandleMessageOk(c: Config, g: GameState, f: Fingerprint, m: ClientMessage)
    requires GameOk(c, g) && ValidName(m.playerName)
    ensures GameOk(c, HandleMessage(c, g, f, m))
  {
    NameOrWatcher(m.playerName);
    hide GameOk;
    hide HandleWatcher;
    hide HandlePlayer;
    hide ValidName;
    if m.playerName == [] {
      HandleWatcherSame(g, f, m);
      SameGameOk(c, g, HandleWatcher(g, f, m));
    } else {
      HandlePlayerOk(c, g, f, m);
    }
  }

  lemma NameOrWatcher(name: Text)
    requires ValidName(name)
    ensures name == [] || PlayerName(name)
  {
  }

  /** A new server has no game and nobody connected. */
  lemma NewServerOk(c: Config, seed: nat)
    ensures GameOk(c, NewServer(seed))
  {
  }
}
