/** When the server takes a client for gone. */
module Silence {
  import opened Bytes
  import opened Messages
  import opened MessageQueue
  import opened Game
  import opened Server
  import opened EndToEnd
  import opened ServerProcess

  /** When this address was last heard of, unless it was given up since. */
  ghost function LastHeard(actions: seq<Action>, f: Fingerprint): Option<nat> {
    if actions == [] then None
    else
      var a := actions[|actions| - 1];
      if a.Datagram? && a.f == f then Some(a.now)
      else if a.Expiry? && a.f == f then None
      else LastHeard(actions[..|actions| - 1], f)
  }

  ghost predicate AsHeard(actions: seq<Action>, times: map<Fingerprint, nat>) {
    forall f: Fingerprint :: LastHeard(actions, f) == if f in times then Some(times[f]) else None
  }

  lemma LastHeardNext(actions: seq<Action>, a: Action, f: Fingerprint)
    ensures LastHeard(actions + [a], f)
         == if a.Datagram? && a.f == f then Some(a.now) else if a.Expiry? && a.f == f then None
            else LastHeard(actions, f)
  {
    assert (actions + [a])[..|actions|] == actions;
  }

  lemma HeardNow(actions: seq<Action>, times: map<Fingerprint, nat>, f: Fingerprint, bytes: seq<byte>, now: nat)
    requires AsHeard(actions, times)
    ensures AsHeard(actions + [Datagram(f, bytes, now)], times[f := now])
    ensures AsHeard(actions + [Expiry(f)], times - {f})
  {
    hide LastHeard;
    var a, b := Datagram(f, bytes, now), Expiry(f);
    forall g: Fingerprint
      ensures LastHeard(actions + [a], g) == if g == f then Some(now) else LastHeard(actions, g)
      ensures LastHeard(actions + [b], g) == if g == f then None else LastHeard(actions, g)
    {
      LastHeardNext(actions, a, g);
      LastHeardNext(actions, b, g);
    }
  }

  lemma NothingHeard(actions: seq<Action>, a: Action, times: map<Fingerprint, nat>)
    requires AsHeard(actions, times) && !a.Datagram? && !a.Expiry?
    ensures AsHeard(actions + [a], times)
  {
    hide LastHeard;
    forall f: Fingerprint ensures LastHeard(actions + [a], f) == LastHeard(actions, f) {
      LastHeardNext(actions, a, f);
    }
  }

  lemma ServerTimes(c: Config, s: ServerState, f: Fingerprint, bytes: seq<byte>, now: nat)
    ensures Receive(c, s, f, bytes, now).lastCommunication == s.lastCommunication[f := now]
    ensures Expire(s, f).lastCommunication == s.lastCommunication - {f}
    ensures Turn(c, s).lastCommunication == s.lastCommunication
  {
    hide HandleMessage;
    hide DecodeClientMessage;
    hide DropConnection;
    hide RunTurn;
  }

  lemma StepTimes(c: Config, actions: seq<Action>, s: Sys, a: Action)
    requires AsHeard(actions, s.server.lastCommunication)
    ensures AsHeard(actions + [a], Step(c, s, a).server.lastCommunication)
  {
    hide *;
    ServerStepIs(c, s, a);
    var times := s.server.lastCommunication;
    match a
    case Datagram(f, bytes, now) =>
      HeardNow(actions, times, f, bytes, now);
      ServerTimes(c, s.server, f, bytes, now);
    case Expiry(f) =>
      HeardNow(actions, times, f, [], 0);
      ServerTimes(c, s.server, f, [], 0);
    case RoundTurn =>
      NothingHeard(actions, a, times);
      ServerTimes(c, s.server, "", [], 0);
    case Sending(_) => NothingHeard(actions, a, times);
    case Delivery(_, _) => NothingHeard(actions, a, times);
  }

  lemma NobodyHeard(seed: nat)
    ensures AsHeard([], Start(seed).server.lastCommunication)
  {
  }

  lemma {:induction false} RunHeard(c: Config, seed: nat, actions: seq<Action>)
    ensures AsHeard(actions, Run(c, Start(seed), actions).server.lastCommunication)
    decreases |actions|
  {
    hide *;
    if actions == [] {
      NobodyHeard(seed);
      NoActions(c, Start(seed));
    } else {
      var n := |actions| - 1;
      RunHeard(c, seed, actions[..n]);
      StepTimes(c, actions[..n], Run(c, Start(seed), actions[..n]), actions[n]);
      RunUnfolds(c, Start(seed), actions);
      assert actions == actions[..n] + [actions[n]];
    }
  }

  /** In any run a client is taken for gone exactly when its last datagram is more than two seconds old. */
  lemma ExpiredExactlyWhen(c: Config, seed: nat, actions: seq<Action>, now: nat, f: Fingerprint)
    ensures Expired(Run(c, Start(seed), actions).server.lastCommunication, now, f)
            <==> LastHeard(actions, f).Some? && now > LastHeard(actions, f).value + 2_000_000
  {
    RunHeard(c, seed, actions);
    hide Run;
    hide LastHeard;
  }
}
