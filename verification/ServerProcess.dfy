/** The server process: what it does with a datagram, when it may send one, and with connections that went quiet. */
module ServerProcess {
  import opened Bytes
  import opened Crc32
  import opened Messages
  import opened MessageQueue
  import opened Game
  import opened GameManagers
  import opened Server
  import Codec
  import Drain

  predicate Expired(lastCommunication: map<Fingerprint, nat>, now: nat, f: Fingerprint) {
    f in lastCommunication && now as int - lastCommunication[f] as int > CONNECTION_EXPIRATION_TIME_US
  }

  class Process {
    const gameManager: GameManager
    const dataBuffer: array<byte>
    const table: seq<bv32>
    var clientAddrs: set<Fingerprint>
    var lastCommunicationTs: map<Fingerprint, nat>

    ghost function State(): ServerState
      reads this, gameManager, gameManager.mqManager, gameManager.rng
    {
      ServerState(gameManager.State(), clientAddrs, lastCommunicationTs)
    }

    ghost predicate Valid()
      reads this, gameManager, gameManager.rng
    {
      gameManager.Valid() && dataBuffer.Length == MAX_UDP_DATA_FIELD_SIZE && IsTable(table)
    }

    constructor (config: Config, rngSeed: nat)
      requires rngSeed < U32
      ensures Valid() && State() == Started(rngSeed) && gameManager.config == config
      ensures fresh(gameManager) && fresh(gameManager.mqManager) && fresh(gameManager.rng) && fresh(dataBuffer)
    {
      var manager := new GameManager(config, rngSeed);
      gameManager := manager;
      dataBuffer := new byte[MAX_UDP_DATA_FIELD_SIZE];
      var crcTable := GenerateTable();
      table := crcTable[..];
      clientAddrs, lastCommunicationTs := {}, map[];
    }

    /** `bytes` is what recvfrom delivered from the address `fingerprint`. */
    method ReadMessageFromClient(fingerprint: Fingerprint, bytes: seq<byte>, now: nat)
      requires Valid()
      modifies this, gameManager, gameManager.mqManager, gameManager.rng
      ensures Valid() && State() == Receive(gameManager.config, old(State()), fingerprint, bytes, now)
    {
      lastCommunicationTs := lastCommunicationTs[fingerprint := now];
      if fingerprint !in clientAddrs {
        clientAddrs := clientAddrs + {fingerprint};
      }
      var m := DecodeClientMessage(bytes);
      if m.Some? {
        ClientMessageOnlyEncodings(bytes);
        NameOfMessage(m.value);
        hide HandleMessage;
        hide DecodeClientMessage;
        gameManager.HandleMessage(fingerprint, m.value);
      }
    }

    /** `taken` is whether sendto succeeded. The returned datagram is what it was given. */
    method SendMessageToClient(taken: bool) returns (to: Fingerprint, datagram: seq<byte>)
      requires Valid() && CanSend(State().game.mq) && WellFormedMessage(NextMessage(State().game.mq).msg)
      modifies gameManager.mqManager, dataBuffer
      ensures Valid() && State() == Sent(old(State()), taken)
      ensures to == NextMessage(old(State().game.mq)).fingerprint
      ensures datagram == EncodeMessage(NextMessage(old(State().game.mq)).msg) && |datagram| <= MAX_UDP_DATA_FIELD_SIZE
    {
      ghost var q := gameManager.mqManager.State();
      SendIsAck(q);
      hide CanSend;
      hide NextMessage;
      hide Served;
      hide Drain.Send;
      hide Ack;
      hide WellFormedMessage;
      hide EncodeMessage;
      hide IsTable;
      var out := gameManager.mqManager.GetNextMessage();
      var payloadSize := Codec.EncodeServerMessage(table, out.msg, dataBuffer);
      to, datagram := out.fingerprint, dataBuffer[..payloadSize];
      if !taken {
        return;
      }
      gameManager.mqManager.AckEvents(out.fingerprint, out.ackNumber);
    }

    /**
     * The order in which an unordered map is walked is not known; the connections dropped are returned in that
     * order.
     */
    method CleanupObsoleteConnections(now: nat) returns (connsToDrop: seq<Fingerprint>)
      requires Valid()
      modifies this, gameManager, gameManager.mqManager
      ensures Valid() && State() == ExpireAll(old(State()), connsToDrop)
      ensures forall f :: f in connsToDrop <==> Expired(old(lastCommunicationTs), now, f)
      ensures NoDuplicates(connsToDrop)
    {
      connsToDrop := [];
      ghost var s := State();
      ExpireOneMore(s, [], "");
      hide DropConnection;
      hide DropEach;
      var rest := lastCommunicationTs.Keys;
      while rest != {}
        invariant rest <= lastCommunicationTs.Keys
        invariant lastCommunicationTs == s.lastCommunication
        invariant Valid()
        invariant State() == ExpireAll(s, connsToDrop).(lastCommunication := lastCommunicationTs)
        invariant forall f :: f in connsToDrop <==> f !in rest && Expired(lastCommunicationTs, now, f)
        invariant NoDuplicates(connsToDrop)
        decreases rest
      {
        var lastConn :| lastConn in rest;
        if Expired(lastCommunicationTs, now, lastConn) {
          ExpireOneMore(s, connsToDrop, lastConn);
          gameManager.DropConnection(lastConn);
          clientAddrs := clientAddrs - {lastConn};
          connsToDrop := connsToDrop + [lastConn];
        }
        rest := rest - {lastConn};
      }
      ForgetTimes(connsToDrop);
    }

    method ForgetTimes(conns: seq<Fingerprint>)
      modifies this`lastCommunicationTs
      ensures lastCommunicationTs == old(lastCommunicationTs) - set f | f in conns
    {
      var i := 0;
      while i < |conns|
        invariant 0 <= i <= |conns|
        invariant lastCommunicationTs == old(lastCommunicationTs) - set f | f in conns[..i]
      {
        assert conns[..i + 1] == conns[..i] + [conns[i]];
        lastCommunicationTs := lastCommunicationTs - {conns[i]};
        i := i + 1;
      }
      assert conns[..i] == conns;
    }

    /** What the timer makes the server do. */
    method TakeTurn(now: nat) returns (dropped: seq<Fingerprint>)
      requires Valid()
      modifies this, gameManager, gameManager.mqManager
      ensures Valid() && State() == Turn(gameManager.config, ExpireAll(old(State()), dropped))
    {
      hide RunTurn;
      hide ExpireAll;
      dropped := CleanupObsoleteConnections(now);
      gameManager.RunTurn();
    }
  }
}
