/** Who is ready, and when a game starts: over whole runs, told by what the players said. */
module Readiness {
  import opened Bytes
  import opened Names
  import opened Messages
  import opened PlayerList
  import opened MessageQueue
  import opened Grammar
  import opened Game
  import opened GameInvariant
  import opened GameTurns
  import opened GameStart
  import opened GameMessages
  import opened GameQueue
  import opened PlayerQueues
  import opened Server
  import opened EndToEnd
  import opened Lobby
  import opened Steering
  import opened Cursors

  // ---- Within a game ----

  /** The same persons in the same places, as ready as before. */
  ghost predicate SameMoods(players: seq<Player>, others: seq<Player>) {
    && |players| == |others|
    && forall k | 0 <= k < |players| :: SameMood(players[k], others[k])
  }

  predicate SameMood(p: Player, q: Player) {
    p.name == q.name && p.fingerprint == q.fingerprint && p.isReady == q.isReady
  }

  ghost predicate NobodyReady(players: seq<Player>) {
    forall k | 0 <= k < |players| :: !players[k].isReady
  }

  /** As long as the game goes on everybody stays; nobody is ready after its end. */
  ghost predicate Played(g: GameState, h: GameState) {
    && |h.logs| == |g.logs| && h.watchers == g.watchers
    && if h.started then SameMoods(g.players, h.players) else NobodyReady(h.players)
  }

  lemma PlayedTwice(g: GameState, h: GameState, e: GameState)
    requires Played(g, h) && (if h.started then Played(h, e) else e == h)
    ensures Played(g, e)
  {
    hide SameMood;
    if h.started && e.started {
      MoodsTwice(g.players, h.players, e.players);
    }
  }

  lemma MoodsTwice(a: seq<Player>, b: seq<Player>, d: seq<Player>)
    requires SameMoods(a, b) && SameMoods(b, d)
    ensures SameMoods(a, d)
  {
  }

  lemma PlayedItself(g: GameState)
    ensures g.started ==> Played(g, g)
  {
  }

  lemma OneMoodKept(g: GameState, h: GameState, j: nat, p: Player)
    requires j < |g.players| && SameMood(g.players[j], p) && h.players == g.players[j := p]
    requires h.started && |h.logs| == |g.logs| && h.watchers == g.watchers
    ensures Played(g, h)
  {
  }

  lemma {:induction false} StayingUnready(players: seq<Player>)
    ensures NobodyReady(Staying(players))
  {
    if players != [] {
      StayingUnready(players[1..]);
    }
  }

  lemma EndGameMoods(g: GameState)
    ensures var h := EndGame(g);
            |h.logs| == |g.logs| && !h.started && h.watchers == g.watchers && NobodyReady(h.players)
  {
    StayingUnready(g.players);
    hide Staying;
    hide DropAll;
    hide Leaving;
    hide Schedule;
    hide NobodyReady;
  }

  lemma StruckKeeps(g: GameState, j: nat)
    requires j < |g.players|
    ensures var h := Struck(g, j);
            h.started == g.started && |h.logs| == |g.logs| && h.watchers == g.watchers
            && SameMood(g.players[j], h.players[j]) && h.players == g.players[j := h.players[j]]
  {
    hide Schedule;
  }

  lemma EliminateMoods(g: GameState, j: nat)
    requires g.started && j < |g.players|
    ensures Played(g, Eliminate(g, j))
  {
    hide *;
    var s := Struck(g, j);
    EliminateIsStruck(g, j);
    StruckKeeps(g, j);
    OneMoodKept(g, s, j, s.players[j]);
    EndGameMoods(s);
    EndedIsPlayed(g, EndGame(s));
  }

  lemma EndedIsPlayed(g: GameState, h: GameState)
    requires |h.logs| == |g.logs| && !h.started && h.watchers == g.watchers && NobodyReady(h.players)
    ensures Played(g, h)
  {
    hide NobodyReady;
  }

  lemma EatPixelMoods(g: GameState, j: nat, pixel: Coordinates)
    requires g.started && j < |g.players|
    ensures Played(g, EatPixel(g, j, pixel))
  {
    OneMoodKept(g, EatPixel(g, j, pixel), j, g.players[j].(pixel := pixel));
    hide Schedule;
    hide Played;
  }

  lemma MovedMood(c: Config, p: Player)
    ensures SameMood(p, Moved(c, p))
  {
  }

  lemma MovePlayerMoods(c: Config, g: GameState, j: nat)
    requires g.started && j < |g.players|
    ensures Played(g, MovePlayer(c, g, j))
  {
    hide *;
    var p := Moved(c, g.players[j]);
    var h := g.(players := g.players[j := p]);
    MovePlayerCases(c, g, j);
    MovedMood(c, g.players[j]);
    OneMoodKept(g, h, j, p);
    PlayedItself(g);
    if MovePlayer(c, g, j) == Eliminate(h, j) {
      EliminateMoods(h, j);
      PlayedTwice(g, h, MovePlayer(c, g, j));
    } else if MovePlayer(c, g, j) != g && MovePlayer(c, g, j) != h {
      var pixel :| MovePlayer(c, g, j) == EatPixel(h, j, pixel);
      EatPixelMoods(h, j, pixel);
      PlayedTwice(g, h, MovePlayer(c, g, j));
    }
  }

  lemma {:induction false} RunTurnFromMoods(c: Config, g: GameState, n: nat, i: nat)
    requires g.started
    ensures Played(g, RunTurnFrom(c, g, n, i))
    decreases n - i
  {
    hide *;
    RunTurnStep(c, g, n, i);
    PlayedItself(g);
    if i < n && i < |g.players| {
      var h := MovePlayer(c, g, i);
      MovePlayerMoods(c, g, i);
      RunTurnStep(c, h, n, i + 1);
      if h.started {
        RunTurnFromMoods(c, h, n, i + 1);
      }
      PlayedTwice(g, h, RunTurnFrom(c, h, n, i + 1));
    }
  }

  lemma ArrivedMoods(c: Config, g: GameState, j: nat)
    requires g.started && j < |g.players|
    ensures Played(g, Arrived(c, g, j)) && Arrived(c, g, j).started
  {
    OneMoodKept(g, Arrived(c, g, j), j, Arrived(c, g, j).players[j]);
    hide Played;
  }

  lemma PlacePlayerMoods(c: Config, g: GameState, j: nat)
    requires g.started && j < |g.players|
    ensures Played(g, PlacePlayer(c, g, j))
  {
    hide *;
    var h := Arrived(c, g, j);
    PlaceIsArrived(c, g, j);
    ArrivedMoods(c, g, j);
    EliminateMoods(h, j);
    EatPixelMoods(h, j, h.players[j].pixel);
    PlayedTwice(g, h, PlacePlayer(c, g, j));
  }

  lemma {:induction false} PlaceFromMoods(c: Config, g: GameState, n: nat, i: nat)
    requires g.started
    ensures Played(g, PlaceFrom(c, g, n, i))
    decreases n - i
  {
    hide *;
    PlaceStep(c, g, n, i);
    PlayedItself(g);
    if i < n && i < |g.players| {
      var h := PlacePlayer(c, g, i);
      PlacePlayerMoods(c, g, i);
      PlaceStep(c, h, n, i + 1);
      if h.started {
        PlaceFromMoods(c, h, n, i + 1);
      }
      PlayedTwice(g, h, PlaceFrom(c, h, n, i + 1));
    }
  }

  // ---- The start of a game ----

  ghost predicate EverybodyReady(players: seq<Player>) {
    |players| >= 2 && forall k | 0 <= k < |players| :: players[k].isReady
  }

  /** A new game is announced; it may already be over when everybody is placed. */
  ghost predicate Began(g: GameState, h: GameState) {
    && |h.logs| == |g.logs| + 1 && h.watchers == g.watchers
    && if h.started then SameMoods(g.players, h.players) else NobodyReady(h.players)
  }

  lemma OpenedMoods(c: Config, g: GameState)
    ensures var h := OpenGame(c, g);
            h.started && |h.logs| == |g.logs| + 1 && h.players == g.players && h.watchers == g.watchers
  {
    hide Schedule;
    hide NumberAll;
    hide PlayersField;
  }

  lemma StartMoods(c: Config, g: GameState)
    ensures Began(g, StartGame(c, g))
  {
    StartIsPlacing(c, g);
    OpenedMoods(c, g);
    PlaceFromMoods(c, OpenGame(c, g), |g.players|, 0);
    hide PlaceFrom;
    hide OpenGame;
    hide StartGame;
    hide SameMoods;
    hide NobodyReady;
  }

  lemma MaybeStartMoods(c: Config, g: GameState)
    ensures var h := MaybeStart(c, g);
            if !g.started && EverybodyReady(g.players) then Began(g, h) else h == g
  {
    StartMoods(c, g);
    ReadyCount(g.players);
    hide StartGame;
    hide ReadyPlayers;
    hide Began;
  }

  // ---- Lost connections ----

  lemma {:induction false} MarkedMoods(players: seq<Player>, f: Fingerprint)
    ensures SameMoods(players, Marked(players, f))
  {
    if players != [] && players[0].fingerprint != f {
      MarkedMoods(players[1..], f);
    }
  }

  /** Between games the loss of anybody but a watcher makes everybody start over. */
  ghost predicate Lost(g: GameState, h: GameState, harmless: bool) {
    && |h.logs| == |g.logs| && h.started == g.started
    && if g.started then SameMoods(g.players, h.players)
       else if harmless then h.players == g.players else NobodyReady(h.players)
  }

  lemma DropMoods(g: GameState, f: Fingerprint)
    ensures Lost(g, DropConnection(g, f), f in g.watchers)
  {
    var u := Unlinked(g, f);
    DropIsUnlinked(g, f);
    MarkedMoods(g.players, f);
    StayingUnready(u.players);
    MoodsItself(g.players);
    hide Marked;
    hide Staying;
    hide DropConnection;
    hide Drop;
    hide DropAll;
    hide Leaving;
    hide SameMoods;
    hide NobodyReady;
  }

  lemma DropWatchers(g: GameState, f: Fingerprint)
    ensures DropConnection(g, f).watchers == g.watchers - {f}
  {
    DropIsUnlinked(g, f);
    hide DropConnection;
    hide Drop;
    hide DropAll;
    hide Leaving;
    hide Marked;
    hide Staying;
  }

  lemma MoodsItself(players: seq<Player>)
    ensures SameMoods(players, players)
  {
  }

  lemma LostTwice(g: GameState, h: GameState, e: GameState, harmless: bool, also: bool)
    requires Lost(g, h, harmless) && Lost(h, e, also)
    ensures (harmless ==> Lost(g, e, also)) && (also ==> Lost(g, e, harmless))
    ensures !harmless && !g.started && e.players == h.players ==> Lost(g, e, false)
    ensures !harmless && !also ==> Lost(g, e, false)
  {
    hide SameMood;
    if g.started {
      MoodsTwice(g.players, h.players, e.players);
    }
  }

  lemma LostItself(g: GameState)
    ensures Lost(g, g, true)
  {
    MoodsItself(g.players);
    hide SameMoods;
  }

  /** Once somebody who is no watcher is lost, losing more changes nothing. */
  lemma {:induction false} DropMore(g: GameState, h: GameState, names: seq<Text>, f: Fingerprint, sessionId: nat)
    requires Lost(g, h, false)
    ensures Lost(g, DropOlder(h, names, f, sessionId), false)
    decreases |names|
  {
    hide *;
    if names == [] {
      NothingOlder(h, f, sessionId);
    } else {
      DropOlderStep(h, names, f, sessionId);
      DropMoods(h, f);
      LostTwice(g, h, DropConnection(h, f), false, f in h.watchers);
      DropMore(g, h, names[1..], f, sessionId);
      DropMore(g, DropConnection(h, f), names[1..], f, sessionId);
    }
  }

  lemma {:induction false} DropOlderMoods(g: GameState, names: seq<Text>, f: Fingerprint, sessionId: nat)
    ensures var n := OlderSessions(g.players, names, f, sessionId);
            Lost(g, DropOlder(g, names, f, sessionId), n == 0 || (n == 1 && f in g.watchers))
    decreases |names|
  {
    hide *;
    var n := OlderSessions(g.players, names, f, sessionId);
    OlderFirst(g.players, names, f, sessionId);
    if n == 0 {
      NobodyOlder(g, names, f, sessionId);
      LostItself(g);
    } else {
      DropOlderNext(g, names, f, sessionId);
      if !IsOlder(g.players, names[0], f, sessionId) {
        DropOlderMoods(g, names[1..], f, sessionId);
      } else {
        var h := DropConnection(g, f);
        DropMoods(g, f);
        if f !in g.watchers {
          DropMore(g, h, names[1..], f, sessionId);
        } else if g.started {
          DropMoreStarted(g, h, names[1..], f, sessionId);
        } else {
          LostGives(g, h);
          DropWatchers(g, f);
          DropOlderMoods(h, names[1..], f, sessionId);
          var rest := OlderSessions(g.players, names[1..], f, sessionId);
          LostTwice(g, h, DropOlder(h, names[1..], f, sessionId), true, rest == 0);
        }
      }
    }
  }

  lemma LostGives(g: GameState, h: GameState)
    requires Lost(g, h, true) && !g.started
    ensures h.players == g.players
  {
  }

  lemma DropMoreStarted(g: GameState, h: GameState, names: seq<Text>, f: Fingerprint, sessionId: nat)
    requires g.started && Lost(g, h, true)
    ensures Lost(g, DropOlder(h, names, f, sessionId), true) && Lost(g, DropOlder(h, names, f, sessionId), false)
  {
    LostStarted(g, h);
    hide *;
    DropMore(g, h, names, f, sessionId);
    LostStarted(g, DropOlder(h, names, f, sessionId));
  }

  lemma LostStarted(g: GameState, h: GameState)
    requires g.started
    ensures Lost(g, h, true) <==> Lost(g, h, false)
  {
    hide SameMoods;
  }

  lemma OlderFirst(players: seq<Player>, names: seq<Text>, f: Fingerprint, sessionId: nat)
    ensures var n := OlderSessions(players, names, f, sessionId);
            if names == [] then n == 0
            else n == OlderSessions(players, names[1..], f, sessionId)
                      + if IsOlder(players, names[0], f, sessionId) then 1 else 0
  {
    hide IsOlder;
  }

  // ---- Who is ready ----

  /** Whether the player with this address and name is ready; None if there is no such player. */
  function Mood(players: seq<Player>, f: Fingerprint, name: Text): Option<bool> {
    var k := FindPlayer(players, name);
    if k < |players| && players[k].fingerprint == f then Some(players[k].isReady) else None
  }

  predicate HasName(players: seq<Player>, name: Text) {
    FindPlayer(players, name) < |players|
  }

  /** Nobody new of this name can join. */
  predicate Refused(players: seq<Player>, name: Text) {
    HasName(players, name) || |players| == MAX_PLAYERS
  }

  lemma RefusedMeans(players: seq<Player>, name: Text)
    ensures Refused(players, name) <==> HasName(players, name) || |players| == MAX_PLAYERS
  {
    hide HasName;
  }

  lemma SameMoodsFirst(players: seq<Player>, others: seq<Player>)
    requires SameMoods(players, others)
    ensures |players| == |others|
    ensures players != [] ==> SameMoods(players[1..], others[1..])
    ensures players != [] ==> players[0].name == others[0].name && players[0].fingerprint == others[0].fingerprint
    ensures players != [] ==> players[0].isReady == others[0].isReady
  {
    if players != [] {
      assert SameMood(players[0], others[0]);
      assert forall k | 0 <= k < |players| - 1 :: SameMood(players[1..][k], others[1..][k]);
    }
  }

  lemma {:induction false} MoodSame(players: seq<Player>, others: seq<Player>, f: Fingerprint, name: Text)
    requires SameMoods(players, others)
    ensures Mood(players, f, name) == Mood(others, f, name) && HasName(players, name) == HasName(others, name)
    ensures Refused(players, name) == Refused(others, name)
  {
    hide *;
    SameMoodsFirst(players, others);
    RefusedMeans(players, name);
    RefusedMeans(others, name);
    if players != [] {
      assert players == [players[0]] + players[1..] && others == [others[0]] + others[1..];
      MoodFirst(players[0], players[1..], f, name);
      MoodFirst(others[0], others[1..], f, name);
      MoodSame(players[1..], others[1..], f, name);
    } else {
      assert others == players;
    }
  }

  lemma NobodyInTheMood(players: seq<Player>, f: Fingerprint, name: Text)
    requires NobodyReady(players)
    ensures Mood(players, f, name) != Some(true)
  {
  }

  /** How the first player counts. */
  lemma MoodFirst(p: Player, rest: seq<Player>, f: Fingerprint, name: Text)
    ensures var players := [p] + rest;
            && Mood(players, f, name) == (if p.name != name then Mood(rest, f, name)
                                          else if p.fingerprint == f then Some(p.isReady) else None)
            && (HasName(players, name) <==> p.name == name || HasName(rest, name))
  {
    assert ([p] + rest)[1..] == rest;
  }

  lemma InsertedFirst(players: seq<Player>, p: Player)
    ensures InsertPlayer(players, p) == if players == [] || Less(p.name, players[0].name) then [p] + players
                                        else [players[0]] + InsertPlayer(players[1..], p)
  {
    hide Less;
  }

  lemma {:induction false} MoodInserted(players: seq<Player>, p: Player, f: Fingerprint, name: Text)
    requires !HasName(players, p.name)
    ensures var others := InsertPlayer(players, p);
            && Mood(others, f, name) == (if name != p.name then Mood(players, f, name)
                                         else if f == p.fingerprint then Some(p.isReady) else None)
            && (HasName(others, name) <==> name == p.name || HasName(players, name)) && |others| == |players| + 1
  {
    hide *;
    InsertedFirst(players, p);
    MoodFirst(p, players, f, name);
    if players != [] && !Less(p.name, players[0].name) {
      assert players == [players[0]] + players[1..];
      MoodFirst(players[0], players[1..], f, name);
      MoodFirst(players[0], players[1..], f, p.name);
      MoodInserted(players[1..], p, f, name);
      MoodFirst(players[0], InsertPlayer(players[1..], p), f, name);
    }
  }

  /** The datagram presses left or right between games. */
  predicate Pressed(g: GameState, m: ClientMessage) {
    !g.started && m.turnDirection != Straight
  }

  /** The older sessions of a newcomer cost everybody the readiness. */
  predicate Costly(g: GameState, f: Fingerprint, m: ClientMessage) {
    !g.started && Superseded(g, f, m) && !(f in g.watchers && Older(g, f, m.sessionId) == 1)
  }

  ghost predicate GameOver(g: GameState, h: GameState) {
    !h.started && (g.started || |h.logs| > |g.logs|)
  }

  /** What a message of client f makes of the readiness of the player with address x and this name. */
  ghost predicate MoodAfter(g: GameState, h: GameState, f: Fingerprint, m: ClientMessage, x: Fingerprint, name: Text) {
    var was, now := Mood(g.players, x, name), Mood(h.players, x, name);
    var sender := x == f && name == m.playerName;
    if GameOver(g, h) then now != Some(true)
    else if sender && Pressed(g, m) then now != Some(false) && (now == None ==> Refused(h.players, name))
    else if Costly(g, f, m) then now != Some(true)
    else
      && (now == was || (sender && was == None && !Refused(g.players, name) && now == Some(false)))
      && (Refused(g.players, name) ==> Refused(h.players, name))
  }

  lemma SteeredMood(g: GameState, k: nat, f: Fingerprint, m: ClientMessage, x: Fingerprint, name: Text)
    requires k == FindPlayer(g.players, m.playerName) < |g.players| && g.players[k].fingerprint == f
    ensures var h := Steered(g, k, f, m);
            h.started == g.started && h.logs == g.logs && MoodAfter(g, h, f, m, x, name)
  {
    var h := Steered(g, k, f, m);
    SteeredFields(g, k, f, m);
    SteeredReady(g, k, f, m);
    MoodUpdated(g.players, k, h.players[k], x, name);
    hide Steered;
    hide Superseded;
    hide Mood;
    hide Refused;
  }

  lemma SteeredReady(g: GameState, k: nat, f: Fingerprint, m: ClientMessage)
    requires k < |g.players|
    ensures var h := Steered(g, k, f, m);
            && h.players == g.players[k := h.players[k]] && h.logs == g.logs
            && h.players[k].name == g.players[k].name && h.players[k].fingerprint == g.players[k].fingerprint
            && h.players[k].isReady == (g.players[k].isReady || Pressed(g, m))
  {
    hide Ack;
  }

  lemma MoodUpdated(players: seq<Player>, k: nat, p: Player, x: Fingerprint, name: Text)
    requires k == FindPlayer(players, p.name) < |players| && p.fingerprint == players[k].fingerprint
    ensures var others, was := players[k := p], Mood(players, x, name);
            && Refused(others, name) == Refused(players, name)
            && Mood(others, x, name)
               == if x == p.fingerprint && name == p.name then Some(p.isReady) else Mood(players, x, name)
    ensures name == p.name ==> Refused(players, name)
  {
    FindUpdated(players, k, p, name);
    hide FindPlayer;
  }

  lemma {:induction false} FindUpdated(players: seq<Player>, k: nat, p: Player, name: Text)
    requires k < |players| && p.name == players[k].name
    ensures FindPlayer(players[k := p], name) == FindPlayer(players, name)
  {
    if k > 0 {
      assert players[k := p][1..] == players[1..][k - 1 := p];
      FindUpdated(players[1..], k - 1, p, name);
    } else {
      assert players[k := p][1..] == players[1..];
    }
  }

  /** A game that starts keeps everybody's readiness; one that is over at once leaves nobody ready. */
  lemma MoodStarted(c: Config, g: GameState, h: GameState, f: Fingerprint, m: ClientMessage, x: Fingerprint, name: Text)
    requires MoodAfter(g, h, f, m, x, name) && h.started == g.started && |h.logs| == |g.logs|
    ensures MoodAfter(g, MaybeStart(c, h), f, m, x, name)
  {
    var e := MaybeStart(c, h);
    MaybeStartMoods(c, h);
    hide MaybeStart;
    hide EverybodyReady;
    if e != h {
      if e.started {
        MoodSame(h.players, e.players, x, name);
      } else {
        NobodyInTheMood(e.players, x, name);
      }
    }
    hide Mood;
    hide Refused;
    hide Pressed;
    hide Costly;
    hide SameMoods;
    hide NobodyReady;
  }

  lemma OtherMood(g: GameState, f: Fingerprint, m: ClientMessage, x: Fingerprint, name: Text)
    requires var k := FindPlayer(g.players, m.playerName); k < |g.players| && g.players[k].fingerprint != f
    ensures MoodAfter(g, g, f, m, x, name)
  {
    hide FindPlayer;
    hide Older;
  }

  /** What is left of the list when the older sessions of a newcomer are gone. */
  ghost predicate Cleared(g: GameState, d: GameState, f: Fingerprint, m: ClientMessage) {
    && d.started == g.started && |d.logs| == |g.logs| && !HasName(d.players, m.playerName)
    && if Costly(g, f, m) then NobodyReady(d.players) && |d.players| < MAX_PLAYERS
       else SameMoods(g.players, d.players)
  }

  lemma JoinedMood(g: GameState, d: GameState, f: Fingerprint, m: ClientMessage, x: Fingerprint, name: Text)
    requires !HasName(g.players, m.playerName) && Cleared(g, d, f, m) && |d.players| != MAX_PLAYERS
    ensures MoodAfter(g, Joining(d, f, m, Pressed(g, m)), f, m, x, name)
  {
    var p := NewPlayer(f, m, Pressed(g, m));
    MoodInserted(d.players, p, x, name);
    if Costly(g, f, m) {
      NobodyInTheMood(d.players, x, name);
    } else {
      MoodSame(g.players, d.players, x, name);
      MoodSame(g.players, d.players, f, m.playerName);
    }
    hide Costly;
    hide SameMoods;
    hide NobodyReady;
    hide InsertPlayer;
    hide FindPlayer;
    hide Add;
  }

  lemma CrowdedMood(g: GameState, d: GameState, f: Fingerprint, m: ClientMessage, x: Fingerprint, name: Text)
    requires !HasName(g.players, m.playerName) && Cleared(g, d, f, m) && |d.players| == MAX_PLAYERS
    ensures MoodAfter(g, d, f, m, x, name)
  {
    MoodSame(g.players, d.players, x, name);
    hide Costly;
    hide SameMoods;
    hide NobodyReady;
    hide FindPlayer;
  }

  lemma NameKept(players: seq<Player>, others: seq<Player>, name: Text)
    requires KeysKept(players, others) && !HasName(players, name)
    ensures !HasName(others, name)
  {
    forall k | 0 <= k < |others| ensures others[k].name != name {
      assert Somebody(players, others[k]);
      var i :| 0 <= i < |players| && SameKey(players[i], others[k]);
    }
  }

  lemma ClearedIs(g: GameState, f: Fingerprint, m: ClientMessage)
    requires Calm(g) && PlayersOk(g.players) && m.playerName != [] && !HasName(g.players, m.playerName)
    ensures Cleared(g, DropOlder(g, PlayerNamesOf(g.players), f, m.sessionId), f, m)
  {
    var names, n := PlayerNamesOf(g.players), Older(g, f, m.sessionId);
    var d := DropOlder(g, names, f, m.sessionId);
    DropOlderMoods(g, names, f, m.sessionId);
    DropOlderKeys(g, names, f, m.sessionId);
    NameKept(g.players, d.players, m.playerName);
    MoodsItself(g.players);
    if n > 0 {
      StillFull(g, f, m.sessionId);
    }
    hide DropOlder;
    hide OlderSessions;
    hide KeysKept;
    hide SameMoods;
    hide NobodyReady;
    hide FindPlayer;
    hide HasFingerprint;
    hide Calm;
  }

  lemma PlayerMoods(c: Config, g: GameState, f: Fingerprint, m: ClientMessage, x: Fingerprint, name: Text)
    requires Calm(g) && PlayersOk(g.players) && m.playerName != []
    ensures MoodAfter(g, HandlePlayer(c, g, f, m), f, m, x, name)
  {
    hide *;
    HandlePlayerIs(c, g, f, m);
    PressedMeans(g, m);
    var k := FindPlayer(g.players, m.playerName);
    if k < |g.players| {
      if g.players[k].fingerprint != f {
        OtherMood(g, f, m, x, name);
      } else {
        SteeredMood(g, k, f, m, x, name);
        MoodStarted(c, g, Steered(g, k, f, m), f, m, x, name);
      }
    } else {
      var d := DropOlder(g, PlayerNamesOf(g.players), f, m.sessionId);
      NoName(g.players, m.playerName);
      ClearedIs(g, f, m);
      if |d.players| == MAX_PLAYERS {
        CrowdedMood(g, d, f, m, x, name);
      } else {
        var h := Joining(d, f, m, Pressed(g, m));
        JoinedMood(g, d, f, m, x, name);
        JoiningGame(g, d, f, m);
        MoodStarted(c, g, h, f, m, x, name);
      }
    }
  }

  lemma NoName(players: seq<Player>, name: Text)
    ensures HasName(players, name) <==> FindPlayer(players, name) < |players|
  {
  }

  lemma PressedMeans(g: GameState, m: ClientMessage)
    ensures Pressed(g, m) <==> !g.started && m.turnDirection != Straight
  {
  }

  lemma JoiningGame(g: GameState, d: GameState, f: Fingerprint, m: ClientMessage)
    requires Cleared(g, d, f, m)
    ensures var h := Joining(d, f, m, Pressed(g, m)); h.started == g.started && |h.logs| == |g.logs|
  {
    hide InsertPlayer;
    hide Add;
    hide Costly;
    hide SameMoods;
    hide NobodyReady;
    hide HasName;
  }

  lemma WatcherMoods(g: GameState, f: Fingerprint, m: ClientMessage, x: Fingerprint, name: Text)
    requires m.playerName == [] && name != []
    ensures MoodAfter(g, HandleWatcher(g, f, m), f, m, x, name)
  {
    HandleWatcherSame(g, f, m);
    hide HandleWatcher;
    hide FindPlayer;
  }

  /** What any message makes of anybody's readiness. */
  lemma MessageMoods(c: Config, g: GameState, f: Fingerprint, m: ClientMessage, x: Fingerprint, name: Text)
    requires Calm(g) && PlayersOk(g.players) && name != []
    ensures MoodAfter(g, HandleMessage(c, g, f, m), f, m, x, name)
  {
    hide HandlePlayer;
    hide HandleWatcher;
    hide MoodAfter;
    hide PlayersOk;
    hide Calm;
    if m.playerName == [] {
      WatcherMoods(g, f, m, x, name);
    } else {
      PlayerMoods(c, g, f, m, x, name);
    }
  }

  // ---- Runs ----

  /** Between games, everybody has to press anew. */
  predicate StartsOver(g: GameState, a: Action) {
    match a
    case Datagram(f, bytes, _) =>
      DecodeClientMessage(bytes).Some? && Costly(g, f, DecodeClientMessage(bytes).value)
    case Expiry(f) => !g.started && f !in g.watchers
    case RoundTurn => false
    case Sending(_) => false
    case Delivery(_, _) => false
  }

  ghost predicate Presses(g: GameState, a: Action, f: Fingerprint, name: Text) {
    Says(a, f, name) && Pressed(g, DecodeClientMessage(a.bytes).value)
  }

  /**
   * Whether this address has, under this name, pressed left or right between games, since the last game was over
   * and everybody last had to start over.
   */
  ghost function SaidReady(c: Config, seed: nat, actions: seq<Action>, f: Fingerprint, name: Text): bool {
    if actions == [] then false
    else
      var before, a := actions[..|actions| - 1], actions[|actions| - 1];
      var g, h := Run(c, Start(seed), before).server.game, Run(c, Start(seed), actions).server.game;
      !GameOver(g, h) && (Presses(g, a, f, name) || (!StartsOver(g, a) && SaidReady(c, seed, before, f, name)))
  }

  /** Whoever is listed is ready exactly if it said so; whoever said so in vain still cannot join. */
  ghost predicate MoodAsSaid(players: seq<Player>, f: Fingerprint, name: Text, said: bool) {
    var now := Mood(players, f, name);
    if now.Some? then now.value == said else said ==> Refused(players, name)
  }

  /** One action, with what was said before it and after it. */
  lemma StepMood(c: Config, s: ServerState, t: ServerState, a: Action, f: Fingerprint, name: Text, said: bool)
    requires Calm(s.game) && PlayersOk(s.game.players) && name != [] && MoodAsSaid(s.game.players, f, name, said)
    requires t == match a
                  case Datagram(x, bytes, now) => Receive(c, s, x, bytes, now)
                  case Expiry(x) => Expire(s, x)
                  case RoundTurn => Turn(c, s)
                  case Sending(_) => t
                  case Delivery(_, _) => t
    requires (a.Sending? || a.Delivery?) ==>
               t.game.players == s.game.players && t.game.started == s.game.started && t.game.logs == s.game.logs
    ensures var g, h := s.game, t.game;
            MoodAsSaid(h.players, f, name,
                       !GameOver(g, h) && (Presses(g, a, f, name) || (!StartsOver(g, a) && said)))
  {
    hide *;
    var g, h := s.game, t.game;
    StartsOverMeans(g, a);
    PressesMeans(g, a, f, name);
    match a
    case Datagram(x, bytes, now) =>
      ReceiveIs(c, s, x, bytes, now);
      if DecodeClientMessage(bytes).Some? {
        var m := DecodeClientMessage(bytes).value;
        MessageMoods(c, g, x, m, f, name);
        MoodAfterSaid(g, h, x, m, f, name, said);
      } else {
        QuietSaid(g, h, f, name, said);
      }
    case Expiry(x) =>
      ExpireIs(s, x);
      DropMoods(g, x);
      LostSaid(g, h, x in g.watchers, f, name, said);
    case RoundTurn =>
      TurnIs(c, s);
      if g.started {
        RunTurnFromMoods(c, g, |g.players|, 0);
        PlayedSaid(g, h, f, name, said);
      } else {
        QuietSaid(g, h, f, name, said);
      }
    case Sending(_) => QuietSaid(g, h, f, name, said);
    case Delivery(_, _) => QuietSaid(g, h, f, name, said);
  }

  lemma StartsOverMeans(g: GameState, a: Action)
    ensures StartsOver(g, a)
            <==> match a
                 case Datagram(f, bytes, _) =>
                   DecodeClientMessage(bytes).Some? && Costly(g, f, DecodeClientMessage(bytes).value)
                 case Expiry(f) => !g.started && f !in g.watchers
                 case RoundTurn => false
                 case Sending(_) => false
                 case Delivery(_, _) => false
  {
    hide Costly;
    hide DecodeClientMessage;
  }

  lemma PressesMeans(g: GameState, a: Action, f: Fingerprint, name: Text)
    ensures Presses(g, a, f, name)
            <==> a.Datagram? && a.f == f && DecodeClientMessage(a.bytes).Some?
                 && DecodeClientMessage(a.bytes).value.playerName == name
                 && Pressed(g, DecodeClientMessage(a.bytes).value)
  {
    hide Pressed;
    hide DecodeClientMessage;
  }

  lemma ExpireIs(s: ServerState, f: Fingerprint)
    ensures Expire(s, f).game == DropConnection(s.game, f)
  {
    hide DropConnection;
  }

  lemma TurnIs(c: Config, s: ServerState)
    ensures Turn(c, s).game == RunTurnFrom(c, s.game, |s.game.players|, 0)
    ensures !s.game.started ==> Turn(c, s).game == s.game
  {
    RunTurnStep(c, s.game, |s.game.players|, 0);
    hide RunTurnFrom;
  }

  lemma QuietSaid(g: GameState, h: GameState, f: Fingerprint, name: Text, said: bool)
    requires h.players == g.players && h.started == g.started && h.logs == g.logs
    requires MoodAsSaid(g.players, f, name, said)
    ensures MoodAsSaid(h.players, f, name, said) && !GameOver(g, h)
  {
    hide Mood;
    hide Refused;
  }

  lemma LostSaid(g: GameState, h: GameState, harmless: bool, f: Fingerprint, name: Text, said: bool)
    requires Lost(g, h, harmless) && MoodAsSaid(g.players, f, name, said)
    ensures MoodAsSaid(h.players, f, name, !GameOver(g, h) && said && (g.started || harmless))
  {
    if g.started {
      MoodSame(g.players, h.players, f, name);
    } else if !harmless {
      NobodyInTheMood(h.players, f, name);
    }
    hide Mood;
    hide Refused;
    hide SameMoods;
    hide NobodyReady;
  }

  lemma PlayedSaid(g: GameState, h: GameState, f: Fingerprint, name: Text, said: bool)
    requires g.started && Played(g, h) && MoodAsSaid(g.players, f, name, said)
    ensures MoodAsSaid(h.players, f, name, !GameOver(g, h) && said)
  {
    if h.started {
      MoodSame(g.players, h.players, f, name);
    } else {
      NobodyInTheMood(h.players, f, name);
    }
    hide Mood;
    hide Refused;
    hide SameMoods;
    hide NobodyReady;
  }

  lemma MoodAfterSaid(g: GameState, h: GameState, x: Fingerprint, m: ClientMessage, f: Fingerprint, name: Text,
                      said: bool)
    requires MoodAfter(g, h, x, m, f, name) && MoodAsSaid(g.players, f, name, said)
    ensures var pressed := x == f && name == m.playerName && Pressed(g, m);
            MoodAsSaid(h.players, f, name, !GameOver(g, h) && (pressed || (!Costly(g, x, m) && said)))
  {
    hide Mood;
    hide Refused;
    hide Pressed;
    hide Costly;
    hide GameOver;
  }

  lemma SaidReadyNext(c: Config, seed: nat, actions: seq<Action>, f: Fingerprint, name: Text)
    requires actions != []
    ensures var before, a := actions[..|actions| - 1], actions[|actions| - 1];
            var g, h := Run(c, Start(seed), before).server.game, Run(c, Start(seed), actions).server.game;
            SaidReady(c, seed, actions, f, name)
            <==> !GameOver(g, h)
                 && (Presses(g, a, f, name) || (!StartsOver(g, a) && SaidReady(c, seed, before, f, name)))
  {
    hide Run;
    hide GameOver;
    hide Presses;
    hide StartsOver;
  }

  lemma NobodySaidReady(c: Config, seed: nat, f: Fingerprint, name: Text)
    ensures !SaidReady(c, seed, [], f, name) && Mood(Start(seed).server.game.players, f, name) == None
  {
  }

  lemma RunCalm(c: Config, seed: nat, actions: seq<Action>)
    requires seed < U32
    ensures var g := Run(c, Start(seed), actions).server.game; Calm(g) && PlayersOk(g.players)
  {
    hide *;
    var g := Run(c, Start(seed), actions).server.game;
    RunGameOk(c, seed, actions);
    PlayersOkOf(c, g);
    GameOkCases(c, g);
    IdleMeans(c, g);
    CalmMeans(g);
  }

  lemma {:induction false} RunMood(c: Config, seed: nat, actions: seq<Action>, f: Fingerprint, name: Text)
    requires seed < U32 && name != []
    ensures MoodAsSaid(Run(c, Start(seed), actions).server.game.players, f, name,
                       SaidReady(c, seed, actions, f, name))
    decreases |actions|
  {
    hide *;
    if actions == [] {
      NobodySaidReady(c, seed, f, name);
      NoActions(c, Start(seed));
      NoMood(Start(seed).server.game.players, f, name);
    } else {
      var n := |actions| - 1;
      var s := Run(c, Start(seed), actions[..n]);
      RunMood(c, seed, actions[..n], f, name);
      RunCalm(c, seed, actions[..n]);
      RunUnfolds(c, Start(seed), actions);
      ServerStepIs(c, s, actions[n]);
      StepMood(c, s.server, Step(c, s, actions[n]).server, actions[n], f, name,
               SaidReady(c, seed, actions[..n], f, name));
      SaidReadyNext(c, seed, actions, f, name);
    }
  }

  lemma NoMood(players: seq<Player>, f: Fingerprint, name: Text)
    requires Mood(players, f, name) == None
    ensures MoodAsSaid(players, f, name, false)
  {
    hide Mood;
    hide Refused;
  }

  lemma MoodOf(players: seq<Player>, k: nat)
    requires PlayersOk(players) && k < |players|
    ensures Mood(players, players[k].fingerprint, players[k].name) == Some(players[k].isReady)
    ensures players[k].name != []
  {
    var j := FindPlayer(players, players[k].name);
    if j < |players| && j != k {
      OneOfAName(players, j, k);
    }
    assert PlayerName(players[k].name);
    hide FindPlayer;
  }

  /** In any run a listed player is ready exactly if it said so. */
  lemma RunReady(c: Config, seed: nat, actions: seq<Action>)
    requires seed < U32
    ensures var players := Run(c, Start(seed), actions).server.game.players;
            forall k | 0 <= k < |players| ::
              players[k].isReady <==> SaidReady(c, seed, actions, players[k].fingerprint, players[k].name)
  {
    hide *;
    var players := Run(c, Start(seed), actions).server.game.players;
    RunCalm(c, seed, actions);
    forall k | 0 <= k < |players|
      ensures players[k].isReady <==> SaidReady(c, seed, actions, players[k].fingerprint, players[k].name)
    {
      MoodOf(players, k);
      RunMood(c, seed, actions, players[k].fingerprint, players[k].name);
      MoodAsSaidMeans(players, players[k].fingerprint, players[k].name,
                      SaidReady(c, seed, actions, players[k].fingerprint, players[k].name));
    }
  }

  lemma MoodAsSaidMeans(players: seq<Player>, f: Fingerprint, name: Text, said: bool)
    ensures MoodAsSaid(players, f, name, said) && Mood(players, f, name).Some?
            ==> Mood(players, f, name).value == said
  {
    hide Mood;
  }

  // ---- When a game starts ----

  /** Between games somebody is always missing. */
  ghost predicate Waiting(g: GameState) {
    g.started || !EverybodyReady(g.players)
  }

  /** Nothing but everybody's readiness starts a game. */
  ghost predicate Kickoff(g: GameState, h: GameState) {
    Waiting(h) && (!g.started && h.started ==> EverybodyReady(h.players))
  }

  lemma UnreadyWaits(players: seq<Player>)
    requires NobodyReady(players)
    ensures !EverybodyReady(players)
  {
    assert |players| > 0 ==> !players[0].isReady;
  }

  lemma AsReady(players: seq<Player>, others: seq<Player>)
    requires SameMoods(players, others)
    ensures EverybodyReady(players) <==> EverybodyReady(others)
  {
    assert forall k | 0 <= k < |players| :: SameMood(players[k], others[k]);
  }

  lemma MaybeStartKickoff(c: Config, g: GameState, h: GameState)
    requires h.started == g.started
    ensures Kickoff(g, MaybeStart(c, h))
  {
    var e := MaybeStart(c, h);
    MaybeStartMoods(c, h);
    hide MaybeStart;
    hide EverybodyReady;
    hide SameMoods;
    hide NobodyReady;
    if e != h {
      if e.started {
        AsReady(h.players, e.players);
      } else {
        UnreadyWaits(e.players);
      }
    }
  }

  lemma LostKickoff(g: GameState, h: GameState, harmless: bool)
    requires Waiting(g) && Lost(g, h, harmless)
    ensures Kickoff(g, h)
  {
    if !g.started && !harmless {
      UnreadyWaits(h.players);
    }
    hide EverybodyReady;
    hide SameMoods;
    hide NobodyReady;
  }

  lemma PlayedKickoff(g: GameState, h: GameState)
    requires g.started && Played(g, h)
    ensures Kickoff(g, h)
  {
    if !h.started {
      UnreadyWaits(h.players);
    }
    hide EverybodyReady;
    hide SameMoods;
    hide NobodyReady;
  }

  lemma QuietKickoff(g: GameState, h: GameState)
    requires Waiting(g) && h.players == g.players && h.started == g.started
    ensures Kickoff(g, h)
  {
    hide EverybodyReady;
  }

  lemma MessageKickoff(c: Config, g: GameState, f: Fingerprint, m: ClientMessage)
    requires Waiting(g)
    ensures Kickoff(g, HandleMessage(c, g, f, m))
  {
    hide *;
    MessageIs(c, g, f, m);
    HandlePlayerIs(c, g, f, m);
    HandleWatcherSame(g, f, m);
    SameGameMeans(g, HandleWatcher(g, f, m));
    QuietKickoff(g, g);
    var k, names := FindPlayer(g.players, m.playerName), PlayerNamesOf(g.players);
    if m.playerName == [] {
      QuietKickoff(g, HandleWatcher(g, f, m));
    } else if k < |g.players| {
      SteeredFields(g, k, f, m);
      MaybeStartKickoff(c, g, Steered(g, k, f, m));
    } else {
      var d, n := DropOlder(g, names, f, m.sessionId), OlderSessions(g.players, names, f, m.sessionId);
      var ready := !g.started && m.turnDirection != Straight;
      DropOlderMoods(g, names, f, m.sessionId);
      LostKickoff(g, d, n == 0 || (n == 1 && f in g.watchers));
      LostStart(g, d, n == 0 || (n == 1 && f in g.watchers));
      JoiningStart(d, f, m, ready);
      MaybeStartKickoff(c, g, Joining(d, f, m, ready));
    }
  }

  lemma LostStart(g: GameState, h: GameState, harmless: bool)
    requires Lost(g, h, harmless)
    ensures h.started == g.started
  {
    hide SameMoods;
    hide NobodyReady;
  }

  lemma JoiningStart(d: GameState, f: Fingerprint, m: ClientMessage, ready: bool)
    ensures Joining(d, f, m, ready).started == d.started
  {
    hide InsertPlayer;
    hide Add;
  }

  lemma SameGameMeans(g: GameState, h: GameState)
    requires SameGame(g, h)
    ensures h.players == g.players && h.started == g.started && h.logs == g.logs
  {
  }

  lemma MessageIs(c: Config, g: GameState, f: Fingerprint, m: ClientMessage)
    ensures HandleMessage(c, g, f, m) == if m.playerName == [] then HandleWatcher(g, f, m) else HandlePlayer(c, g, f, m)
  {
    hide HandleWatcher;
    hide HandlePlayer;
  }

  lemma StepKickoff(c: Config, s: Sys, a: Action)
    requires Waiting(s.server.game)
    ensures Kickoff(s.server.game, Step(c, s, a).server.game)
  {
    hide *;
    var g, h := s.server.game, Step(c, s, a).server.game;
    ServerStepIs(c, s, a);
    QuietKickoff(g, g);
    match a
    case Datagram(f, bytes, now) =>
      ReceiveIs(c, s.server, f, bytes, now);
      if DecodeClientMessage(bytes).Some? {
        MessageKickoff(c, g, f, DecodeClientMessage(bytes).value);
      }
    case Expiry(f) =>
      ExpireIs(s.server, f);
      DropMoods(g, f);
      LostKickoff(g, h, f in g.watchers);
    case RoundTurn =>
      TurnIs(c, s.server);
      if g.started {
        RunTurnFromMoods(c, g, |g.players|, 0);
        PlayedKickoff(g, h);
      }
    case Sending(_) => QuietKickoff(g, h);
    case Delivery(_, _) =>
  }

  lemma NobodyYet(seed: nat)
    ensures Waiting(Start(seed).server.game)
  {
  }

  lemma KickoffMeans(g: GameState, h: GameState)
    requires Kickoff(g, h)
    ensures Waiting(h) && (!g.started && h.started ==> EverybodyReady(h.players))
  {
    hide EverybodyReady;
  }

  lemma {:induction false} RunWaits(c: Config, seed: nat, actions: seq<Action>)
    ensures Waiting(Run(c, Start(seed), actions).server.game)
    decreases |actions|
  {
    hide *;
    if actions == [] {
      NobodyYet(seed);
      NoActions(c, Start(seed));
    } else {
      var n := |actions| - 1;
      var s := Run(c, Start(seed), actions[..n]);
      RunWaits(c, seed, actions[..n]);
      RunUnfolds(c, Start(seed), actions);
      StepKickoff(c, s, actions[n]);
      KickoffMeans(s.server.game, Step(c, s, actions[n]).server.game);
    }
  }

  /** At least two players are listed, and all of them said that they are ready. */
  ghost predicate AllSaidReady(c: Config, seed: nat, actions: seq<Action>) {
    var players := Run(c, Start(seed), actions).server.game.players;
    && |players| >= 2
    && forall k | 0 <= k < |players| :: SaidReady(c, seed, actions, players[k].fingerprint, players[k].name)
  }

  lemma ReadyAsSaid(c: Config, seed: nat, actions: seq<Action>)
    requires seed < U32
    ensures EverybodyReady(Run(c, Start(seed), actions).server.game.players) <==> AllSaidReady(c, seed, actions)
  {
    RunReady(c, seed, actions);
    hide Run;
    hide SaidReady;
  }

  /**
   * A game starts as soon as at least two players are listed and all of them have said that they are ready, and never
   * without that.
   */
  lemma StartsWhenAllSaidReady(c: Config, seed: nat, actions: seq<Action>, a: Action)
    requires seed < U32
    ensures var g := Run(c, Start(seed), actions).server.game;
            var h := Run(c, Start(seed), actions + [a]).server.game;
            && (!h.started ==> !AllSaidReady(c, seed, actions + [a]))
            && (!g.started && h.started ==> AllSaidReady(c, seed, actions + [a]))
  {
    hide *;
    var all := actions + [a];
    var s := Run(c, Start(seed), actions);
    assert all[..|all| - 1] == actions && all[|all| - 1] == a;
    ReadyAsSaid(c, seed, all);
    RunWaits(c, seed, actions);
    RunUnfolds(c, Start(seed), all);
    StepKickoff(c, s, a);
    KickoffMeans(s.server.game, Step(c, s, a).server.game);
    WaitingMeans(Step(c, s, a).server.game);
  }

  lemma WaitingMeans(g: GameState)
    requires Waiting(g)
    ensures !g.started ==> !EverybodyReady(g.players)
  {
    hide EverybodyReady;
  }
}
