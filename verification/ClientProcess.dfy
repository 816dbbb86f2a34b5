/** The client process: the fields and loops of Client that turn datagrams into lines for the GUI. */
module ClientProcess {
  import opened Bytes
  import opened Crc32
  import opened Messages
  import opened PlayerList
  import opened Logs
  import opened Client
  import opened Names
  import opened TcpBuffer
  import Codec

  class Process {
    const guiSock: TcpSocket
    const table: seq<bv32>
    var events: map<nat, Event>
    var nextWantedEventNo: nat
    var nextEventToSendNo: nat
    var seenGameIds: set<nat>
    var gameId: Option<nat>
    var playersInGame: nat
    var maxx: nat
    var maxy: nat
    var playerNames: map<nat, Text>
    var exited: bool

    // The history of `ClientState`.
    ghost var blocks: seq<GameLog>
    ghost var announced: seq<bool>

    ghost function State(): ClientState
      reads this, guiSock
    {
      ClientState(gameId, seenGameIds, playersInGame, maxx, maxy, playerNames, events,
                  nextWantedEventNo, nextEventToSendNo, exited, guiSock.given, blocks, announced)
    }

    ghost predicate Valid()
      reads this, guiSock
    {
      guiSock.Valid() && IsTable(table)
    }

    constructor ()
      ensures Valid() && State() == NewClient() && fresh(guiSock)
    {
      guiSock := new TcpSocket();
      var crcTable := GenerateTable();
      table := crcTable[..];
      events, nextWantedEventNo, nextEventToSendNo := map[], 0, 0;
      seenGameIds, gameId, playersInGame, maxx, maxy, playerNames := {}, None, 0, 0, 0, map[];
      exited, blocks, announced := false, [], [];
    }

    method ValidateEvent(event: Event) returns (valid: bool)
      ensures valid == ValidEvent(State(), event)
    {
      match event.data
      case NewGame(_, _, field) =>
        hide Numbered;
        hide ParsePlayers;
        var parsed := ParsedPlayers(field);
        valid := event.eventNo == 0 && parsed.Some? && |parsed.value| >= 2;
      case Pixel(playerNumber, x, y) => valid := playerNumber < playersInGame && x < maxx && y < maxy;
      case PlayerEliminated(playerNumber) => valid := playerNumber < playersInGame;
      case GameOver => valid := true;
      case UnknownEvent => valid := true;
    }

    method ReadInEvents(msg: ServerMessage)
      modifies this`events, this`exited
      ensures State() == ReadIn(old(State()), msg.events)
    {
      hide ValidEvent;
      ghost var start := State();
      var i := 0;
      assert msg.events[0..] == msg.events;
      while i < |msg.events|
        invariant 0 <= i <= |msg.events|
        invariant ReadIn(State(), msg.events[i..]) == ReadIn(start, msg.events)
      {
        var event := msg.events[i];
        assert msg.events[i..][0] == event && msg.events[i..][1..] == msg.events[i + 1..];
        var valid := ValidateEvent(event);
        if !valid {
          exited := true;
          return;
        }
        if event.eventNo !in events {
          events := events[event.eventNo := event];
        }
        i := i + 1;
      }
    }

    method ForgetEvents()
      modifies this`playersInGame, this`nextWantedEventNo, this`nextEventToSendNo, this`events
      ensures playersInGame == nextWantedEventNo == nextEventToSendNo == 0 && events == map[]
    {
      playersInGame := 0;
      nextWantedEventNo := 0;
      nextEventToSendNo := 0;
      events := map[];
    }

    method EnterGame(msg: ServerMessage)
      modifies this
      ensures State() == Entered(old(State()), msg)
    {
      hide FirstNewGame;
      gameId := Some(msg.gameId);
      seenGameIds := seenGameIds + {msg.gameId};
      ForgetEvents();
      blocks := blocks + [GameLog(msg.gameId, [])];
      announced := announced + [FirstNewGame(msg.events) < |msg.events|];
    }

    /** What NEW_GAME says of the game; it has been validated, so the list of players parses. */
    method LearnGame(d: EventData)
      requires d.NewGame? && ParsePlayers(d.field).Some?
      modifies this`maxx, this`maxy, this`playerNames, this`playersInGame
      ensures State() == Informed(old(State()), d)
    {
      hide Numbered;
      hide ParsePlayers;
      hide Increasing;
      var parsed := ParsedPlayers(d.field);
      maxx := d.maxx;
      maxy := d.maxy;
      playerNames := parsed.value;
      playersInGame := |playerNames| % 0x100;
    }

    method ProcessMismatched(msg: ServerMessage)
      requires gameId != Some(msg.gameId)
      modifies this
      ensures State() == Mismatched(old(State()), msg)
    {
      MismatchedSteps(State(), msg);
      hide Mismatched;
      hide Entered;
      hide ReadIn;
      hide Informed;
      hide ParsePlayers;
      hide Numbered;
      if msg.gameId in seenGameIds {
        return;
      }
      EnterGame(msg);
      var i := 0;
      while i < |msg.events|
        invariant 0 <= i <= |msg.events|
        invariant forall k | 0 <= k < i :: !msg.events[k].data.NewGame?
        invariant State() == Entered(old(State()), msg)
      {
        if msg.events[i].data.NewGame? {
          assert FirstNewGame(msg.events) == i;
          var valid := ValidateEvent(msg.events[i]);
          if !valid {
            exited := true;
            return;
          }
          LearnGame(msg.events[i].data);
          ReadInEvents(msg);
          return;
        }
        i := i + 1;
      }
      assert FirstNewGame(msg.events) == |msg.events|;
    }

    method ProcessMessage(msg: ServerMessage)
      requires Valid() && !exited
      modifies this, guiSock
      ensures Valid() && State() == Client.Process(old(State()), msg)
    {
      hide Mismatched;
      hide ReadIn;
      hide HandOver;
      hide IsTable;
      if gameId != Some(msg.gameId) {
        ProcessMismatched(msg);
      } else {
        ReadInEvents(msg);
      }
      if exited {
        return;
      }
      CountArrived();
      SendToGui();
    }

    method CountArrived()
      modifies this`nextWantedEventNo
      ensures nextWantedEventNo == FirstMissing(events, old(nextWantedEventNo))
    {
      while nextWantedEventNo in events
        invariant FirstMissing(events, nextWantedEventNo) == FirstMissing(events, old(nextWantedEventNo))
        decreases |Above(events, nextWantedEventNo)|
      {
        assert Above(events, nextWantedEventNo) == Above(events, nextWantedEventNo + 1) + {nextWantedEventNo};
        nextWantedEventNo := nextWantedEventNo + 1;
      }
    }

    method SendOne()
      requires Valid() && nextEventToSendNo in events
      modifies this`nextEventToSendNo, this`blocks, guiSock
      ensures Valid() && State() == HandOne(old(State())) && nextEventToSendNo == old(nextEventToSendNo) + 1
    {
      hide IsTable;
      hide GuiLine;
      hide Handed;
      var event := events[nextEventToSendNo];
      var line := EventToMessageForGui(event, playerNames);
      guiSock.WriteData(line);
      blocks := Handed(blocks, event);
      nextEventToSendNo := nextEventToSendNo + 1;
    }

    /** The code looks every number up without checking; a number without an event is never reached. */
    method SendToGui()
      requires Valid()
      modifies this`nextEventToSendNo, this`blocks, guiSock
      ensures Valid() && State() == HandOver(old(State()))
    {
      hide IsTable;
      hide HandOne;
      ghost var start := State();
      while nextEventToSendNo < nextWantedEventNo && nextEventToSendNo in events
        invariant Valid()
        invariant HandOver(State()) == HandOver(start)
        decreases nextWantedEventNo - nextEventToSendNo
      {
        SendOne();
      }
    }

    /** `buffer` holds what recv delivered in its first bytes, and whatever it held before in the others. */
    method ReadMessageFromServer(buffer: array<byte>, bytesRead: nat)
      requires Valid() && !exited && buffer.Length == INBOUND_BUFFER_SIZE
      modifies this, guiSock
      ensures Valid() && State() == Take(old(State()), old(buffer[..]), bytesRead)
    {
      hide IsTable;
      hide Client.Process;
      hide DecodeMessage;
      if bytesRead > MAX_UDP_DATA_FIELD_SIZE {
        return;
      }
      var m := Codec.DecodeServerMessage(table, buffer, bytesRead);
      match m
      case None => exited := true;
      case Some(msg) => ProcessMessage(msg);
    }
  }
}
