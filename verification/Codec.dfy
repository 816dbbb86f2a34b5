/** The encoders and decoders as the code runs them: over buffers, with loops. */
module Codec {
  import opened Bytes
  import opened Crc32
  import opened Messages
  import Burst

  /** `s` with `data` written over it from `at` on. */
  function Spliced(s: seq<byte>, at: nat, data: seq<byte>): (t: seq<byte>)
    requires at + |data| <= |s|
    ensures |t| == |s|
  {
    s[..at] + data + s[at + |data|..]
  }

  lemma SplicedTwice(s: seq<byte>, at: nat, a: seq<byte>, b: seq<byte>)
    requires at + |a| + |b| <= |s|
    ensures Spliced(Spliced(s, at, a), at + |a|, b) == Spliced(s, at, a + b)
  {
  }

  method WriteBytes(buffer: array<byte>, at: nat, data: seq<byte>)
    requires at + |data| <= buffer.Length
    modifies buffer
    ensures buffer[..] == Spliced(old(buffer[..]), at, data)
  {
    var i := 0;
    while i < |data|
      invariant 0 <= i <= |data|
      invariant buffer[at..at + i] == data[..i]
      invariant buffer[..at] == old(buffer[..at]) && buffer[at + i..] == old(buffer[at + i..])
    {
      buffer[at + i] := data[i];
      i := i + 1;
    }
    assert buffer[..] == buffer[..at] + buffer[at..at + i] + buffer[at + i..];
  }

  method EncodeEventData(d: EventData, buffer: array<byte>, at: nat) returns (written: nat)
    requires WellFormedData(d) && at + DataSize(d) <= buffer.Length
    modifies buffer
    ensures written == DataSize(d) && buffer[..] == Spliced(old(buffer[..]), at, EncodeData(d))
  {
    ghost var was := buffer[..];
    match d
    case NewGame(maxx, maxy, field) =>
      WriteBytes(buffer, at, Be32(maxx));
      WriteBytes(buffer, at + 4, Be32(maxy));
      SplicedTwice(was, at, Be32(maxx), Be32(maxy));
      WriteBytes(buffer, at + 8, field);
      SplicedTwice(was, at, Be32(maxx) + Be32(maxy), field);
      written := 8 + |field|;
    case Pixel(no, x, y) =>
      WriteBytes(buffer, at, [no as byte]);
      WriteBytes(buffer, at + 1, Be32(x));
      SplicedTwice(was, at, [no as byte], Be32(x));
      WriteBytes(buffer, at + 5, Be32(y));
      SplicedTwice(was, at, [no as byte] + Be32(x), Be32(y));
      written := 9;
    case PlayerEliminated(no) =>
      WriteBytes(buffer, at, [no as byte]);
      written := 1;
    case GameOver =>
      assert Spliced(was, at, []) == was;
      written := 0;
  }

  lemma SplicedPart(s: seq<byte>, at: nat, data: seq<byte>)
    requires at + |data| <= |s|
    ensures Spliced(s, at, data)[at..at + |data|] == data
  {
  }

  /** Everything before event_data. */
  function Header(len: nat, eventNo: nat, eventType: byte): (s: seq<byte>)
    requires len < U32 && eventNo < U32
    ensures |s| == 9
  {
    Be32(len) + Be32(eventNo) + [eventType]
  }

  lemma BodyParts(e: Event)
    requires WellFormed(e)
    ensures DataSize(e.data) + 5 < U32 && e.eventNo < U32
    ensures Body(e) == Header(DataSize(e.data) + 5, e.eventNo, TypeCode(e.data)) + EncodeData(e.data)
    ensures EncodeEvent(e) == Body(e) + Be32(Checksum(Body(e)))
    ensures WellFormedData(e.data) && EncodedSize(e) == DataSize(e.data) + 13
  {
    hide Be32;
    hide Checksum;
    hide EncodeData;
    hide TypeCode;
  }

  method EncodeHeader(len: nat, eventNo: nat, eventType: byte, buffer: array<byte>, at: nat)
    requires len < U32 && eventNo < U32 && at + 9 <= buffer.Length
    modifies buffer
    ensures buffer[..] == Spliced(old(buffer[..]), at, Header(len, eventNo, eventType))
  {
    hide Be32;
    hide Spliced;
    ghost var was := buffer[..];
    WriteBytes(buffer, at, Be32(len));
    WriteBytes(buffer, at + 4, Be32(eventNo));
    SplicedTwice(was, at, Be32(len), Be32(eventNo));
    WriteBytes(buffer, at + 8, [eventType]);
    SplicedTwice(was, at, Be32(len) + Be32(eventNo), [eventType]);
  }

  method EncodeEventTo(table: seq<bv32>, e: Event, buffer: array<byte>, at: nat) returns (encodedSize: nat)
    requires IsTable(table) && WellFormed(e) && at + EncodedSize(e) <= buffer.Length
    modifies buffer
    ensures encodedSize == EncodedSize(e) && buffer[..] == Spliced(old(buffer[..]), at, EncodeEvent(e))
  {
    hide *;
    BodyParts(e);
    ghost var was := buffer[..];
    encodedSize := EncodedSize(e);
    var len := encodedSize - 8;
    EncodeHeader(len, e.eventNo, TypeCode(e.data), buffer, at);
    var written := EncodeEventData(e.data, buffer, at + 9);
    SplicedTwice(was, at, Header(len, e.eventNo, TypeCode(e.data)), EncodeData(e.data));
    SplicedPart(was, at, Body(e));
    var crc := ChecksumOf(table, buffer[at..at + len + 4]);
    WriteBytes(buffer, at + 9 + written, Be32(crc));
    SplicedTwice(was, at, Body(e), Be32(crc));
  }

  method ChecksumOf(table: seq<bv32>, data: seq<byte>) returns (n: nat)
    requires IsTable(table)
    ensures n == Checksum(data) < U32
  {
    hide Crc;
    var crc := Crc32.Crc32(table, data);
    n := crc as nat;
  }

  /** The state of the encoder when the first i events have been written. */
  ghost predicate EncodedSoFar(was: seq<byte>, bytes: seq<byte>, m: ServerMessage, i: nat, written: nat) {
    && WellFormedMessage(m) && i <= |m.events| && |was| == MAX_UDP_DATA_FIELD_SIZE
    && written == 4 + TotalSize(m.events[..i]) <= |was|
    && WellFormedEvents(m.events[..i])
    && bytes == Spliced(was, 0, Be32(m.gameId) + EncodeEvents(m.events[..i]))
  }

  lemma NothingEncoded(was: seq<byte>, m: ServerMessage)
    requires WellFormedMessage(m) && |was| == MAX_UDP_DATA_FIELD_SIZE
    ensures EncodedSoFar(was, Spliced(was, 0, Be32(m.gameId)), m, 0, 4)
  {
    hide Be32;
    hide EncodeEvent;
    assert m.events[..0] == [];
    assert Be32(m.gameId) + [] == Be32(m.gameId);
  }

  lemma RoomForNext(was: seq<byte>, bytes: seq<byte>, m: ServerMessage, i: nat, written: nat)
    requires EncodedSoFar(was, bytes, m, i, written) && i < |m.events|
    ensures WellFormed(m.events[i]) && written + EncodedSize(m.events[i]) <= |was| == |bytes|
  {
    NextRecordSize(m.events, i);
    hide EncodedSize;
    hide EncodeEvents;
    hide WellFormed;
    hide TotalSize;
    hide Be32;
  }

  lemma SoFarMeans(was: seq<byte>, bytes: seq<byte>, m: ServerMessage, i: nat, written: nat)
    requires i <= |m.events| && m.gameId < U32 && WellFormedEvents(m.events[..i])
    ensures |Be32(m.gameId) + EncodeEvents(m.events[..i])| == 4 + TotalSize(m.events[..i])
    ensures EncodedSoFar(was, bytes, m, i, written) <==>
            && WellFormedMessage(m) && |was| == MAX_UDP_DATA_FIELD_SIZE
            && written == 4 + TotalSize(m.events[..i]) <= |was|
            && bytes == Spliced(was, 0, Be32(m.gameId) + EncodeEvents(m.events[..i]))
  {
    hide EncodeEvents;
    hide WellFormed;
    hide TotalSize;
    hide Be32;
    hide Spliced;
  }

  lemma SoFarIn(was: seq<byte>, bytes: seq<byte>, m: ServerMessage, i: nat, written: nat)
    requires EncodedSoFar(was, bytes, m, i, written)
    ensures i <= |m.events| && m.gameId < U32 && WellFormedEvents(m.events[..i]) && WellFormedEvents(m.events)
  {
    hide EncodeEvents;
    hide WellFormed;
    hide TotalSize;
    hide Be32;
    hide Spliced;
  }

  lemma OneMoreEncoded(was: seq<byte>, bytes: seq<byte>, m: ServerMessage, i: nat, written: nat)
    requires EncodedSoFar(was, bytes, m, i, written) && i < |m.events|
    requires WellFormed(m.events[i]) && written + EncodedSize(m.events[i]) <= |was| == |bytes|
    ensures EncodedSoFar(was, Spliced(bytes, written, EncodeEvent(m.events[i])), m,
                         i + 1, written + EncodedSize(m.events[i]))
  {
    hide *;
    SoFarIn(was, bytes, m, i, written);
    SoFarMeans(was, bytes, m, i, written);
    NextRecord(m.events, i);
    NextRecordSize(m.events, i);
    var id, front, next := Be32(m.gameId), EncodeEvents(m.events[..i]), EncodeEvent(m.events[i]);
    Associative(id, front, next);
    SplicedTwice(was, 0, id + front, next);
    SoFarMeans(was, Spliced(bytes, written, next), m, i + 1, written + EncodedSize(m.events[i]));
  }

  lemma AllEncoded(was: seq<byte>, bytes: seq<byte>, m: ServerMessage, written: nat)
    requires EncodedSoFar(was, bytes, m, |m.events|, written)
    ensures written == |EncodeMessage(m)| <= |bytes| && bytes[..written] == EncodeMessage(m)
  {
    hide EncodeEvents;
    hide WellFormed;
    hide TotalSize;
    hide Be32;
    assert m.events[..|m.events|] == m.events;
  }

  lemma MessageIdFits(m: ServerMessage)
    requires WellFormedMessage(m)
    ensures m.gameId < U32
  {
  }

  /** The datagram never exceeds the 550 bytes of the buffer it is written to. */
  method EncodeServerMessage(table: seq<bv32>, m: ServerMessage, buffer: array<byte>) returns (written: nat)
    requires IsTable(table) && WellFormedMessage(m) && buffer.Length == MAX_UDP_DATA_FIELD_SIZE
    modifies buffer
    ensures written == |EncodeMessage(m)| <= buffer.Length && buffer[..written] == EncodeMessage(m)
  {
    MessageIdFits(m);
    hide *;
    ghost var was := buffer[..];
    NothingEncoded(was, m);
    WriteBytes(buffer, 0, Be32(m.gameId));
    written := 4;
    var i := 0;
    while i < |m.events|
      invariant 0 <= i <= |m.events|
      invariant EncodedSoFar(was, buffer[..], m, i, written)
    {
      RoomForNext(was, buffer[..], m, i, written);
      OneMoreEncoded(was, buffer[..], m, i, written);
      var n := EncodeEventTo(table, m.events[i], buffer, written);
      written := written + n;
      i := i + 1;
    }
    AllEncoded(was, buffer[..], m, written);
    assert buffer[..written] == buffer[..][..written];
  }

  lemma NextRecordSize(es: seq<Event>, i: nat)
    requires i < |es|
    ensures TotalSize(es[..i + 1]) == TotalSize(es[..i]) + EncodedSize(es[i]) <= TotalSize(es)
  {
    hide EncodedSize;
    assert es[..i + 1] == es[..i] + [es[i]] && es == es[..i + 1] + es[i + 1..];
    Burst.TotalSizeOfConcat(es[..i], [es[i]]);
    Burst.TotalSizeOfConcat(es[..i + 1], es[i + 1..]);
  }

  lemma OneRecord(e: Event)
    requires WellFormed(e)
    ensures WellFormedEvents([e]) && EncodeEvents([e]) == EncodeEvent(e)
  {
    hide EncodeEvent;
    hide WellFormed;
    assert [e][1..] == [];
    assert EncodeEvent(e) + [] == EncodeEvent(e);
  }

  lemma NextRecord(es: seq<Event>, i: nat)
    requires WellFormedEvents(es) && i < |es|
    ensures WellFormedEvents(es[..i]) && WellFormedEvents(es[..i + 1]) && WellFormed(es[i])
    ensures EncodeEvents(es[..i + 1]) == EncodeEvents(es[..i]) + EncodeEvent(es[i])
  {
    hide EncodeEvent;
    hide EncodeEvents;
    hide WellFormed;
    assert es[..i + 1] == es[..i] + [es[i]];
    OneRecord(es[i]);
    Burst.EncodeConcat(es[..i], [es[i]]);
  }

  method DecodeEventFrom(table: seq<bv32>, buffer: array<byte>, at: nat, size: nat) returns (r: DecodedEvent)
    requires IsTable(table) && at < size && size + 9 <= buffer.Length
    ensures r == DecodeEvent(buffer[..], at, size)
  {
    hide Checksum;
    hide DecodeData;
    var bytes := buffer[..];
    var len := ReadBe32(bytes, at);
    if len < 5 {
      return Malformed;
    }
    var eventNo := ReadBe32(bytes, at + 4);
    var eventDataSize := len - 5;
    if 9 + eventDataSize + 4 > size - at {
      return Malformed;
    }
    var crcGot := ReadBe32(bytes, at + 9 + eventDataSize);
    var crcExpected := ChecksumOf(table, bytes[at..at + len + 4]);
    if crcGot != crcExpected {
      return ChecksumMismatch;
    }
    var data := DecodeData(bytes[at + 8], bytes[at + 9..at + 9 + eventDataSize]);
    r := match data case None => Malformed case Some(d) => Decoded(Event(eventNo, d), len + 8);
  }

  /** The state of the decoder when the records before `at` have been decoded. */
  ghost predicate DecodedSoFar(bytes: seq<byte>, size: nat, events: seq<Event>, at: nat) {
    && 4 <= at <= size && size + 9 <= |bytes|
    && DecodeEvents(bytes, 4, size) == Prepend(events, DecodeEvents(bytes, at, size))
  }

  lemma NothingDecoded(bytes: seq<byte>, size: nat)
    requires 4 <= size && size + 9 <= |bytes|
    ensures DecodedSoFar(bytes, size, [], 4)
  {
    hide DecodeEvents;
    PrependNothing(DecodeEvents(bytes, 4, size));
  }

  /** What one more record does to what has been decoded so far. */
  lemma DecodeNext(bytes: seq<byte>, size: nat, events: seq<Event>, at: nat)
    requires DecodedSoFar(bytes, size, events, at) && at < size
    ensures size + 9 <= |bytes|
    ensures match DecodeEvent(bytes, at, size)
            case Malformed => DecodeEvents(bytes, 4, size) == None
            case ChecksumMismatch => DecodeEvents(bytes, 4, size) == Some(events)
            case Decoded(e, used) => DecodedSoFar(bytes, size, events + [e], at + used)
  {
    hide DecodeEvent;
    match DecodeEvent(bytes, at, size)
    case Malformed =>
    case ChecksumMismatch => PrependToNothing(events);
    case Decoded(e, used) =>
      DecodeStep(bytes, at, size, e, used);
      PrependAppended(events, e, DecodeEvents(bytes, at + used, size));
  }

  lemma AllDecoded(bytes: seq<byte>, size: nat, events: seq<Event>)
    requires DecodedSoFar(bytes, size, events, size)
    ensures size + 9 <= |bytes| && 4 <= size && DecodeEvents(bytes, 4, size) == Some(events)
  {
    DecodeAtEnd(bytes, size);
    hide DecodeEvents;
    PrependToNothing(events);
  }

  lemma ResultIs(bytes: seq<byte>, size: nat)
    requires |bytes| == INBOUND_BUFFER_SIZE && 4 <= size <= MAX_UDP_DATA_FIELD_SIZE
    ensures size + 9 <= |bytes|
    ensures DecodeMessage(bytes, size)
         == match DecodeEvents(bytes, 4, size)
            case None => None
            case Some(es) => Some(ServerMessage(ReadBe32(bytes, 0), es))
  {
    hide DecodeEvents;
    hide ReadBe32;
  }

  lemma NotADatagram(bytes: seq<byte>, size: nat)
    requires |bytes| == INBOUND_BUFFER_SIZE && (size < 4 || size > MAX_UDP_DATA_FIELD_SIZE)
    ensures DecodeMessage(bytes, size) == None
  {
  }

  /** The loop of the datagram decoder; every accepted record takes at least 13 bytes, so it ends. */
  method DecodeServerMessage(table: seq<bv32>, buffer: array<byte>, size: nat) returns (r: Option<ServerMessage>)
    requires IsTable(table) && buffer.Length == INBOUND_BUFFER_SIZE
    ensures r == DecodeMessage(buffer[..], size)
  {
    hide *;
    ghost var bytes := buffer[..];
    if size < 4 || size > MAX_UDP_DATA_FIELD_SIZE {
      NotADatagram(bytes, size);
      return None;
    }
    ResultIs(bytes, size);
    var gameId := ReadBe32(buffer[..], 0);
    var events, bytesRead := [], 4;
    NothingDecoded(bytes, size);
    while size > bytesRead
      invariant 4 <= bytesRead <= size
      invariant DecodedSoFar(bytes, size, events, bytesRead)
      decreases size - bytesRead
    {
      DecodeNext(bytes, size, events, bytesRead);
      var e := DecodeEventFrom(table, buffer, bytesRead, size);
      match e
      case Malformed => return None;
      case ChecksumMismatch => return Some(ServerMessage(gameId, events));
      case Decoded(event, used) =>
        events := events + [event];
        bytesRead := bytesRead + used;
    }
    AllDecoded(bytes, size, events);
    r := Some(ServerMessage(gameId, events));
  }

  lemma PrependAppended(es: seq<Event>, e: Event, rest: Option<seq<Event>>)
    ensures Prepend(es, Prepend([e], rest)) == Prepend(es + [e], rest)
  {
    match rest
    case None =>
    case Some(more) => assert es + ([e] + more) == es + [e] + more;
  }

  method EncodeClientMessageTo(m: ClientMessage, buffer: array<byte>) returns (written: nat)
    requires WellFormedClientMessage(m) && 50 <= buffer.Length
    modifies buffer
    ensures written == |EncodeClientMessage(m)| <= buffer.Length && buffer[..written] == EncodeClientMessage(m)
  {
    hide Be32;
    hide Be64;
    ghost var was := buffer[..];
    WriteBytes(buffer, 0, Be64(m.sessionId));
    WriteBytes(buffer, 8, [TurnCode(m.turnDirection)]);
    SplicedTwice(was, 0, Be64(m.sessionId), [TurnCode(m.turnDirection)]);
    WriteBytes(buffer, 9, Be32(m.nextExpectedEventNo));
    SplicedTwice(was, 0, Be64(m.sessionId) + [TurnCode(m.turnDirection)], Be32(m.nextExpectedEventNo));
    WriteBytes(buffer, 13, m.playerName);
    SplicedTwice(was, 0, Be64(m.sessionId) + [TurnCode(m.turnDirection)] + Be32(m.nextExpectedEventNo), m.playerName);
    written := 13 + |m.playerName|;
  }
}
