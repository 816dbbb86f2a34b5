/** Which logs a game may produce. */
module Grammar {
  import opened Bytes
  import opened Names
  import opened Messages
  import opened PlayerList
  import opened Packing

  type Coordinates = (nat, nat)

  /** The board; the bounds are those of the server's configuration. */
  datatype Board = Board(maxx: nat, maxy: nat) {
    predicate Valid() {
      16 <= maxx <= 4096 && 16 <= maxy <= 4096
    }
  }

  /** The names announced by the first event; player number k is the k-th of them. */
  function Roster(log: seq<Event>): seq<Text> {
    if log != [] && log[0].data.NewGame? && ParsePlayers(log[0].data.field).Some? then
      ParsePlayers(log[0].data.field).value
    else []
  }

  predicate RosterOk(names: seq<Text>) {
    2 <= |names| <= MAX_PLAYERS && PlayerNames(names) && Increasing(names)
  }

  function Eliminated(log: seq<Event>): set<nat> {
    if log == [] then {}
    else
      var e := log[|log| - 1].data;
      Eliminated(log[..|log| - 1]) + if e.PlayerEliminated? then {e.playerNumber} else {}
  }

  function Pixels(log: seq<Event>): set<Coordinates> {
    if log == [] then {}
    else
      var e := log[|log| - 1].data;
      Pixels(log[..|log| - 1]) + if e.Pixel? then {(e.x, e.y)} else {}
  }

  predicate Over(log: seq<Event>) {
    log != [] && log[|log| - 1].data.GameOver?
  }

  /** May `d` be the next event after `log`? */
  predicate MayFollow(b: Board, log: seq<Event>, d: EventData) {
    var n, out := |Roster(log)|, Eliminated(log);
    && !Over(log)
    && match d
       case Pixel(no, x, y) =>
         |out| + 1 < n && no < n && no !in out && x < b.maxx && y < b.maxy && (x, y) !in Pixels(log)
       case PlayerEliminated(no) => |out| + 1 < n && no < n && no !in out
       case GameOver => |out| + 1 == n
       case NewGame(_, _, _) => false
       case UnknownEvent => false
  }

  /** A log that a game may have produced so far. */
  ghost predicate LogOk(b: Board, log: seq<Event>)
    decreases |log|
  {
    if |log| <= 1 then
      && |log| == 1 && RosterOk(Roster(log))
      && log[0] == Event(0, NewGame(b.maxx, b.maxy, PlayersField(Roster(log))))
    else
      var front, last := log[..|log| - 1], log[|log| - 1];
      LogOk(b, front) && last.eventNo == |front| && MayFollow(b, front, last.data)
  }

  // ---- Growing a log ----

  lemma FirstEvent(b: Board, names: seq<Text>)
    requires RosterOk(names)
    ensures var log := [Event(0, NewGame(b.maxx, b.maxy, PlayersField(names)))];
            LogOk(b, log) && Roster(log) == names && Eliminated(log) == {} && Pixels(log) == {} && !Over(log)
  {
    PlayersRoundTrip(names);
    var log := [Event(0, NewGame(b.maxx, b.maxy, PlayersField(names)))];
    assert log[..0] == [];
  }

  lemma NextEvent(b: Board, log: seq<Event>, d: EventData)
    requires LogOk(b, log) && MayFollow(b, log, d)
    ensures var next := log + [Event(|log|, d)];
            && LogOk(b, next) && Roster(next) == Roster(log)
            && Eliminated(next) == Eliminated(log) + (if d.PlayerEliminated? then {d.playerNumber} else {})
            && Pixels(next) == Pixels(log) + (if d.Pixel? then {(d.x, d.y)} else {})
            && (Over(next) <==> d.GameOver?)
  {
    hide *;
    var e := Event(|log|, d);
    LogNotEmpty(b, log);
    RosterNext(log, e);
    EliminatedNext(log, e);
    PixelsNext(log, e);
    OverNext(log, e);
    LogOkNext(b, log, d);
  }

  lemma LogNotEmpty(b: Board, log: seq<Event>)
    requires LogOk(b, log)
    ensures log != []
  {
  }

  lemma RosterNext(log: seq<Event>, e: Event)
    requires log != []
    ensures Roster(log + [e]) == Roster(log)
  {
    hide ParsePlayers;
  }

  lemma EliminatedNext(log: seq<Event>, e: Event)
    ensures Eliminated(log + [e]) == Eliminated(log) + if e.data.PlayerEliminated? then {e.data.playerNumber} else {}
  {
    assert (log + [e])[..|log|] == log;
  }

  lemma PixelsNext(log: seq<Event>, e: Event)
    ensures Pixels(log + [e]) == Pixels(log) + if e.data.Pixel? then {(e.data.x, e.data.y)} else {}
  {
    assert (log + [e])[..|log|] == log;
  }

  lemma OverNext(log: seq<Event>, e: Event)
    ensures Over(log + [e]) <==> e.data.GameOver?
  {
  }

  lemma LogOkNext(b: Board, log: seq<Event>, d: EventData)
    requires LogOk(b, log) && MayFollow(b, log, d)
    ensures LogOk(b, log + [Event(|log|, d)])
  {
    hide MayFollow;
    hide Roster;
    var next := log + [Event(|log|, d)];
    LogNotEmpty(b, log);
    assert next[..|log|] == log;
  }

  // ---- What the grammar says, event by event ----

  lemma {:induction false} PrefixOk(b: Board, log: seq<Event>, k: nat)
    requires LogOk(b, log) && 1 <= k <= |log|
    ensures LogOk(b, log[..k]) && Roster(log[..k]) == Roster(log)
    ensures k < |log| ==> log[k].eventNo == k && MayFollow(b, log[..k], log[k].data)
    decreases |log|
  {
    hide Roster;
    hide MayFollow;
    if k == |log| {
      assert log[..k] == log;
    } else {
      var front := log[..|log| - 1];
      assert log == front + [log[|log| - 1]];
      RosterNext(front, log[|log| - 1]);
      PrefixOk(b, front, k);
      assert front[..k] == log[..k];
    }
  }

  lemma {:induction false} EliminatedMeans(log: seq<Event>, no: nat)
    ensures no in Eliminated(log) <==> exists i | 0 <= i < |log| :: log[i].data == PlayerEliminated(no)
  {
    if log != [] {
      var front := log[..|log| - 1];
      EliminatedMeans(front, no);
      assert forall i | 0 <= i < |front| :: front[i] == log[i];
    }
  }

  lemma {:induction false} PixelsMean(log: seq<Event>, x: nat, y: nat)
    ensures (x, y) in Pixels(log) <==>
            exists i | 0 <= i < |log| :: log[i].data.Pixel? && log[i].data.x == x && log[i].data.y == y
  {
    if log != [] {
      var front := log[..|log| - 1];
      PixelsMean(front, x, y);
      assert forall i | 0 <= i < |front| :: front[i] == log[i];
    }
  }

  lemma {:induction false} EliminatedBounds(b: Board, log: seq<Event>)
    requires LogOk(b, log)
    ensures forall no | no in Eliminated(log) :: no < |Roster(log)|
    ensures |Eliminated(log)| + 1 <= |Roster(log)|
    ensures Over(log) ==> |Eliminated(log)| + 1 == |Roster(log)|
    decreases |log|
  {
    var front := log[..|log| - 1];
    if |log| == 1 {
      assert front == [];
    } else {
      assert Roster(front) == Roster(log);
      EliminatedBounds(b, front);
    }
  }

  /** Only the first event announces a game, only the last ends it, and in between everything is on the board. */
  lemma Between(b: Board, log: seq<Event>, i: nat)
    requires LogOk(b, log) && 0 < i < |log|
    ensures log[i].eventNo == i && !log[i].data.NewGame? && !log[i].data.UnknownEvent?
    ensures log[i].data.GameOver? ==> i == |log| - 1
    ensures log[i].data.Pixel? ==>
              log[i].data.playerNumber < |Roster(log)| && log[i].data.x < b.maxx && log[i].data.y < b.maxy
    ensures log[i].data.PlayerEliminated? ==> log[i].data.playerNumber < |Roster(log)|
  {
    PrefixOk(b, log, i);
    if i < |log| - 1 {
      PrefixOk(b, log, i + 1);
      assert log[..i + 1][i] == log[i];
    }
  }

  /** No player is eliminated twice, none moves after its elimination, and no pixel is eaten twice. */
  lemma NoRepetition(b: Board, log: seq<Event>, i: nat, j: nat)
    requires LogOk(b, log) && i < j < |log|
    ensures log[i].data.PlayerEliminated? ==>
              (log[j].data.PlayerEliminated? || log[j].data.Pixel? ==>
                 log[j].data.playerNumber != log[i].data.playerNumber)
    ensures log[i].data.Pixel? && log[j].data.Pixel? ==>
            (log[i].data.x, log[i].data.y) != (log[j].data.x, log[j].data.y)
  {
    PrefixOk(b, log, j);
    var front := log[..j];
    assert front[i] == log[i];
    if log[i].data.PlayerEliminated? {
      EliminatedMeans(front, log[i].data.playerNumber);
    }
    if log[i].data.Pixel? {
      PixelsMean(front, log[i].data.x, log[i].data.y);
    }
  }

  /**
   * A finished game: NEW_GAME, then pixels and eliminations, then GAME_OVER; of n players exactly n - 1 are
   * eliminated, so exactly one is not.
   */
  lemma FinishedLog(b: Board, log: seq<Event>)
    requires LogOk(b, log) && Over(log)
    ensures log[0].data.NewGame? && log[|log| - 1].data.GameOver? && 2 <= |log|
    ensures forall i | 0 < i < |log| - 1 :: log[i].data.Pixel? || log[i].data.PlayerEliminated?
    ensures |Eliminated(log)| == |Roster(log)| - 1
    ensures exists survivor: nat :: survivor < |Roster(log)| && survivor !in Eliminated(log)
              && forall no: nat | no < |Roster(log)| && no !in Eliminated(log) :: no == survivor
  {
    forall i | 0 < i < |log| - 1 ensures log[i].data.Pixel? || log[i].data.PlayerEliminated? {
      Between(b, log, i);
    }
    EliminatedBounds(b, log);
    var survivor := OneMissing(Eliminated(log), |Roster(log)|);
    FirstIsNewGame(b, log);
  }

  lemma {:induction false} FirstIsNewGame(b: Board, log: seq<Event>)
    requires LogOk(b, log)
    ensures RosterOk(Roster(log)) && log[0] == Event(0, NewGame(b.maxx, b.maxy, PlayersField(Roster(log))))
  {
    PrefixOk(b, log, 1);
    assert log[..1][0] == log[0];
  }

  lemma {:induction false} OneMissing(s: set<nat>, n: nat) returns (missing: nat)
    requires 0 < n && (forall k | k in s :: k < n) && |s| == n - 1
    ensures missing < n && missing !in s && forall k: nat | k < n && k !in s :: k == missing
    decreases n
  {
    if n - 1 in s {
      missing := OneMissing(s - {n - 1}, n - 1);
      assert forall k: nat | k < n && k !in s :: k !in s - {n - 1};
    } else {
      missing := n - 1;
      Full(s, n - 1);
    }
  }

  lemma {:induction false} Full(s: set<nat>, n: nat)
    requires (forall k | k in s :: k < n) && |s| == n
    ensures forall k: nat | k < n :: k in s
    decreases n
  {
    if n > 0 {
      if n - 1 !in s {
        Bounded(s, n - 1);
      }
      Full(s - {n - 1}, n - 1);
      forall k: nat | k < n ensures k in s {
        assert k == n - 1 || k in s - {n - 1};
      }
    }
  }

  lemma {:induction false} Bounded(s: set<nat>, n: nat)
    requires forall k | k in s :: k < n
    ensures |s| <= n
    decreases n
  {
    if n > 0 {
      Bounded(s - {n - 1}, n - 1);
    }
  }

  // ---- A game is short: the board bounds its log ----

  lemma {:induction false} OneColumn(x: nat, h: nat) returns (s: set<Coordinates>)
    ensures |s| == h && forall p: Coordinates :: p in s <==> p.0 == x && p.1 < h
    decreases h
  {
    if h == 0 {
      s := {};
    } else {
      var t := OneColumn(x, h - 1);
      s := t + {(x, h - 1)};
    }
  }

  /** A board of w columns and h rows has w * h pixels. */
  lemma {:induction false} BoardPixels(w: nat, h: nat) returns (s: set<Coordinates>)
    ensures |s| == w * h && forall p: Coordinates :: p in s <==> p.0 < w && p.1 < h
    decreases w
  {
    if w == 0 {
      s := {};
    } else {
      var t := BoardPixels(w - 1, h);
      var u := OneColumn(w - 1, h);
      assert t !! u;
      s := t + u;
      assert w * h == (w - 1) * h + h;
    }
  }

  lemma SubsetIsSmaller(s: set<Coordinates>, t: set<Coordinates>)
    requires s <= t
    ensures |s| <= |t|
  {
    assert t == s + (t - s);
  }

  lemma {:induction false} LogCount(b: Board, log: seq<Event>)
    requires LogOk(b, log)
    ensures |log| == 1 + |Pixels(log)| + |Eliminated(log)| + if Over(log) then 1 else 0
    ensures forall p | p in Pixels(log) :: p.0 < b.maxx && p.1 < b.maxy
    decreases |log|
  {
    var front := log[..|log| - 1];
    if |log| == 1 {
      assert front == [];
    } else {
      LogCount(b, front);
    }
  }

  /** Far fewer than 2^32 events: no event number wraps around. */
  lemma LogBounded(b: Board, log: seq<Event>)
    requires b.Valid() && LogOk(b, log)
    ensures |log| <= 4096 * 4096 + MAX_PLAYERS + 1 < U32
  {
    LogCount(b, log);
    EliminatedBounds(b, log);
    FirstIsNewGame(b, log);
    var all := BoardPixels(b.maxx, b.maxy);
    SubsetIsSmaller(Pixels(log), all);
    ProductBound(b.maxx, b.maxy);
  }

  lemma {:induction false} ProductGrows(a: nat, b: nat, n: nat)
    requires a <= b
    ensures a * n <= b * n
    decreases n
  {
    if n > 0 {
      ProductGrows(a, b, n - 1);
      assert a * n == a * (n - 1) + a && b * n == b * (n - 1) + b;
    }
  }

  lemma ProductBound(x: nat, y: nat)
    requires x <= 4096 && y <= 4096
    ensures x * y <= 4096 * 4096
  {
    ProductGrows(x, 4096, y);
  }

  // ---- Everything a game logs can be sent ----

  /** The largest event, NEW_GAME with twenty-five names of twenty characters, fills a datagram exactly. */
  lemma NewGameSize(b: Board, names: seq<Text>)
    requires RosterOk(names)
    ensures EncodedSize(Event(0, NewGame(b.maxx, b.maxy, PlayersField(names)))) <= 546
    ensures (forall i | 0 <= i < |names| :: |names[i]| == MAX_PLAYER_NAME_LENGTH) && |names| == MAX_PLAYERS ==>
              4 + EncodedSize(Event(0, NewGame(b.maxx, b.maxy, PlayersField(names)))) == MAX_UDP_DATA_FIELD_SIZE
  {
    JoinedLength(names);
    if forall i | 0 <= i < |names| :: |names[i]| == MAX_PLAYER_NAME_LENGTH {
      FullNamesLength(names);
    }
  }

  lemma {:induction false} FullNamesLength(names: seq<Text>)
    requires forall i | 0 <= i < |names| :: |names[i]| == MAX_PLAYER_NAME_LENGTH
    ensures |Joined(names)| == |names| * (MAX_PLAYER_NAME_LENGTH + 1)
  {
    if names != [] {
      FullNamesLength(names[1..]);
    }
  }

  /** Every event of a game is well formed, is numbered by its place, and fits in a datagram of its own. */
  lemma EventSendable(b: Board, log: seq<Event>, i: nat)
    requires b.Valid() && LogOk(b, log) && i < |log|
    ensures log[i].eventNo == i && WellFormed(log[i]) && Fits(log[i])
  {
    LogBounded(b, log);
    FirstIsNewGame(b, log);
    if i == 0 {
      NewGameSize(b, Roster(log));
      JoinedLength(Roster(log));
      JoinedCharacters(Roster(log));
    } else {
      Between(b, log, i);
    }
  }
}
