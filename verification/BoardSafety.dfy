/** What the invariant says to a reader: how many are alive, where the worms are, and that no conversion overflows. */
module BoardSafety {
  import opened Messages
  import opened Grammar
  import opened Game
  import opened GameInvariant
  import opened GameTurns

  lemma Unpacked(c: Config, g: GameState)
    requires GameOk(c, g) && g.started
    ensures Playing(c, g, |g.players|) && InGame(c.board, g) && Tallied(g, |g.players|) && g.alive >= 2
  {
    hide *;
    GameOkCases(c, g);
    PlayingGives(c, g, |g.players|);
  }

  /**
   * While a game is on, the eight-bit count is the number of participants not eliminated and is at least two, so
   * the next elimination neither wraps it around nor finds it wrong.
   */
  lemma AliveCount(c: Config, g: GameState)
    requires GameOk(c, g) && g.started
    ensures g.alive == Survivors(g.players) && 2 <= g.alive <= MAX_PLAYERS
    ensures g.alive + |Eliminated(CurrentLog(g))| == |Roster(CurrentLog(g))|
  {
    hide *;
    Unpacked(c, g);
    CountsAgree(c.board, g);
    RosterSize(c.board, CurrentLog(g));
  }

  lemma CountsAgree(b: Board, g: GameState)
    requires InGame(b, g) && Tallied(g, |g.players|)
    ensures g.alive == Survivors(g.players) && g.alive + |Eliminated(CurrentLog(g))| == |Roster(CurrentLog(g))|
    ensures LogOk(b, CurrentLog(g))
  {
    assert g.players[..|g.players|] == g.players;
    hide LogOk;
    hide Eliminated;
    hide Survivors;
    hide Roster;
  }

  /** The pixels that kill are exactly those announced in the log, and they are all on the board. */
  lemma EatenIsAnnounced(c: Config, g: GameState, x: nat, y: nat)
    requires GameOk(c, g) && g.started
    ensures (x, y) in g.eaten <==>
            exists i | 0 <= i < |CurrentLog(g)| ::
              CurrentLog(g)[i].data.Pixel? && CurrentLog(g)[i].data.x == x && CurrentLog(g)[i].data.y == y
    ensures (x, y) in g.eaten ==> x < c.board.maxx && y < c.board.maxy
  {
    hide *;
    Unpacked(c, g);
    EatenIsPixels(c.board, g);
    PixelsMean(CurrentLog(g), x, y);
    LogCount(c.board, CurrentLog(g));
  }

  lemma EatenIsPixels(b: Board, g: GameState)
    requires InGame(b, g)
    ensures g.eaten == Pixels(CurrentLog(g)) && LogOk(b, CurrentLog(g))
  {
    hide LogOk;
    hide Pixels;
    hide Eliminated;
    hide Roster;
  }

  /** A worm that lives is on the board, where its pixel says, and that pixel has been announced as eaten. */
  lemma WormOnBoard(c: Config, g: GameState, j: nat)
    requires GameOk(c, g) && g.started && j < |g.players| && g.players[j].takesPart && !g.players[j].isEliminated
    ensures var p := g.players[j];
            && OnBoard(c.board, Pixels(CurrentLog(g)), p)
            && exists i | 0 <= i < |CurrentLog(g)| ::
                 && CurrentLog(g)[i].data.Pixel?
                 && CurrentLog(g)[i].data.x == p.pixel.0 && CurrentLog(g)[i].data.y == p.pixel.1
  {
    Unpacked(c, g);
    AliveInvariant(c, g, j);
    hide GameOk;
    hide Playing;
    hide LogOk;
    hide Eliminated;
    hide Roster;
    assert g.eaten == Pixels(CurrentLog(g));
    PixelsMean(CurrentLog(g), g.players[j].pixel.0, g.players[j].pixel.1);
  }

  ghost predicate AtMostOnePixel(motion: Motion) {
    forall x: real, y: real, d: nat :: -1.0 <= motion(x, y, d).0 <= 1.0 && -1.0 <= motion(x, y, d).1 <= 1.0
  }

  /** A move of at most one pixel never leaves what sixteen bits can hold. */
  lemma MoveFitsSixteenBits(c: Config, g: GameState, j: nat)
    requires GameOk(c, g) && g.started && j < |g.players| && g.players[j].takesPart && !g.players[j].isEliminated
    requires AtMostOnePixel(c.motion)
    ensures var p := Moved(c, g.players[j]); Truncated(p.x) <= 4097 < 0x1_0000 && Truncated(p.y) <= 4097 < 0x1_0000
  {
    WormOnBoard(c, g, j);
    var eaten := Pixels(CurrentLog(g));
    hide GameOk;
    hide Pixels;
    OneStep(c, eaten, g.players[j]);
  }

  lemma OneStep(c: Config, eaten: set<Coordinates>, p: Player)
    requires OnBoard(c.board, eaten, p) && AtMostOnePixel(c.motion)
    ensures var q := Moved(c, p); Truncated(q.x) <= 4097 && Truncated(q.y) <= 4097
  {
    hide Turned;
    assert p.x < 4097.0 && p.y < 4097.0;
  }
}
