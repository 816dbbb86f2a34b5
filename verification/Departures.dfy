/** What the loss of a connection does to the list of players. */
module Departures {
  import opened MessageQueue
  import opened Game
  import opened GameInvariant
  import opened GameMessages
  import opened PlayerQueues

  /** Only the first player of an address is marked as disconnected. */
  lemma {:induction false} FirstIsMarked(players: seq<Player>, f: Fingerprint) returns (k: nat)
    ensures k <= |players| && (forall i | 0 <= i < k :: players[i].fingerprint != f)
    ensures if k < |players|
            then players[k].fingerprint == f && Marked(players, f) == players[k := players[k].(isDisconnected := true)]
            else Marked(players, f) == players
  {
    if players == [] {
      k := 0;
    } else if players[0].fingerprint == f {
      k := 0;
      assert Marked(players, f) == players[0 := players[0].(isDisconnected := true)];
    } else {
      var p, rest := players[0], players[1..];
      k := FirstIsMarked(rest, f);
      assert Marked(players, f) == [p] + Marked(rest, f) && players == [p] + rest;
      if k < |rest| {
        var q := rest[k].(isDisconnected := true);
        assert [p] + rest[k := q] == players[k + 1 := q];
      }
      k := k + 1;
    }
  }

  /** The list without player k, and nobody ready. */
  ghost predicate Without(players: seq<Player>, others: seq<Player>, k: nat) {
    && k < |players| && |others| == |players| - 1
    && forall i | 0 <= i < |others| :: others[i] == players[if i < k then i else i + 1].(isReady := false)
  }

  ghost predicate Unready(players: seq<Player>, others: seq<Player>) {
    |others| == |players| && forall i | 0 <= i < |players| :: others[i] == players[i].(isReady := false)
  }

  lemma {:induction false} AllStay(players: seq<Player>)
    requires NoneDisconnected(players)
    ensures Unready(players, Staying(players))
  {
    if players != [] {
      AllStay(players[1..]);
    }
  }

  lemma {:induction false} OneLeaves(players: seq<Player>, k: nat)
    requires k < |players| && NoneDisconnected(players)
    ensures Without(players, Staying(players[k := players[k].(isDisconnected := true)]), k)
  {
    var p := players[k].(isDisconnected := true);
    var marked := players[k := p];
    if k == 0 {
      assert marked[1..] == players[1..];
      AllStay(players[1..]);
    } else {
      assert marked[1..] == players[1..][k - 1 := p] && marked[0] == players[0];
      OneLeaves(players[1..], k - 1);
      var rest := Staying(marked[1..]);
      assert Staying(marked) == [players[0].(isReady := false)] + rest;
    }
  }

  /**
   * The loss of a watcher leaves the players alone. Otherwise the first player with that address is marked during a
   * game, and leaves the list between games, when nobody stays ready.
   */
  lemma WhoIsLost(g: GameState, f: Fingerprint) returns (k: nat)
    requires Calm(g)
    ensures k <= |g.players| && (forall i | 0 <= i < k :: g.players[i].fingerprint != f)
    ensures k < |g.players| ==> g.players[k].fingerprint == f
    ensures var players := DropConnection(g, f).players;
            if f in g.watchers then players == g.players
            else if g.started then
              players == if k < |g.players| then g.players[k := g.players[k].(isDisconnected := true)] else g.players
            else if k < |g.players| then Without(g.players, players, k)
            else Unready(g.players, players)
  {
    k := FirstIsMarked(g.players, f);
    DropIsUnlinked(g, f);
    UnlinkedFields(g, f);
    ErasedPlayers(Unlinked(g, f));
    CalmMeans(g);
    if !g.started {
      AllStay(g.players);
      if k < |g.players| {
        OneLeaves(g.players, k);
      }
    }
    hide Marked;
    hide Staying;
    hide DropConnection;
    hide Unlinked;
    hide EraseDisconnected;
    hide NoneDisconnected;
    hide Without;
    hide Unready;
  }
}
