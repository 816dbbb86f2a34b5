/** The messages of the protocol and their encoding as datagrams. */
module Messages {
  import opened Bytes
  import opened Names
  import opened Crc32

  const MAX_UDP_DATA_FIELD_SIZE: nat := 550
  const MAX_PLAYERS: nat := 25
  const MAX_PLAYERS_FIELD_SIZE: nat := MAX_PLAYERS * (MAX_PLAYER_NAME_LENGTH + 1)

  /** The client receives into a buffer ten bytes longer than any datagram it accepts. */
  const INBOUND_BUFFER_SIZE: nat := MAX_UDP_DATA_FIELD_SIZE + 10

  datatype TurnDirection = Straight | Right | Left

  datatype EventData =
    | NewGame(maxx: nat, maxy: nat, field: seq<byte>)
    | Pixel(playerNumber: nat, x: nat, y: nat)
    | PlayerEliminated(playerNumber: nat)
    | GameOver
    | UnknownEvent

  datatype Event = Event(eventNo: nat, data: EventData)

  datatype ServerMessage = ServerMessage(gameId: nat, events: seq<Event>)

  datatype ClientMessage = ClientMessage(
    sessionId: nat,
    turnDirection: TurnDirection,
    nextExpectedEventNo: nat,
    playerName: Text)

  // ---- Sizes ----

  function DataSize(d: EventData): nat {
    match d
    case NewGame(_, _, field) => 8 + |field|
    case Pixel(_, _, _) => 9
    case PlayerEliminated(_) => 1
    case GameOver => 0
    case UnknownEvent => 0
  }

  function EncodedSize(e: Event): nat {
    DataSize(e.data) + 13
  }

  function TotalSize(es: seq<Event>): nat {
    if es == [] then 0 else EncodedSize(es[0]) + TotalSize(es[1..])
  }

  // ---- What can be encoded, and what a decoder takes ----

  predicate WellFormedData(d: EventData) {
    match d
    case NewGame(maxx, maxy, field) =>
      maxx < U32 && maxy < U32 && 2 <= |field| <= MAX_PLAYERS_FIELD_SIZE && field[|field| - 1] == 0
    case Pixel(no, x, y) => no < 0x100 && x < U32 && y < U32
    case PlayerEliminated(no) => no < 0x100
    case GameOver => true
    case UnknownEvent => false
  }

  predicate WellFormed(e: Event) {
    e.eventNo < U32 && WellFormedData(e.data)
  }

  predicate WellFormedEvents(es: seq<Event>) {
    forall i | 0 <= i < |es| :: WellFormed(es[i])
  }

  predicate WellFormedMessage(m: ServerMessage) {
    m.gameId < U32 && WellFormedEvents(m.events) && 4 + TotalSize(m.events) <= MAX_UDP_DATA_FIELD_SIZE
  }

  // ---- Encoding ----

  function TypeCode(d: EventData): byte {
    match d
    case NewGame(_, _, _) => 0
    case Pixel(_, _, _) => 1
    case PlayerEliminated(_) => 2
    case GameOver => 3
    case UnknownEvent => 4
  }

  function EncodeData(d: EventData): (s: seq<byte>)
    requires WellFormedData(d)
    ensures |s| == DataSize(d)
  {
    match d
    case NewGame(maxx, maxy, field) => Be32(maxx) + Be32(maxy) + field
    case Pixel(no, x, y) => [no as byte] + Be32(x) + Be32(y)
    case PlayerEliminated(no) => [no as byte]
    case GameOver => []
  }

  /** Everything the checksum covers: from `len` to the end of `event_data`. */
  function Body(e: Event): (s: seq<byte>)
    requires WellFormed(e)
    ensures |s| == DataSize(e.data) + 9
  {
    Be32(DataSize(e.data) + 5) + Be32(e.eventNo) + [TypeCode(e.data)] + EncodeData(e.data)
  }

  function EncodeEvent(e: Event): (s: seq<byte>)
    requires WellFormed(e)
    ensures |s| == EncodedSize(e)
  {
    Body(e) + Be32(Checksum(Body(e)))
  }

  function EncodeEvents(es: seq<Event>): (s: seq<byte>)
    requires WellFormedEvents(es)
    ensures |s| == TotalSize(es)
  {
    if es == [] then [] else EncodeEvent(es[0]) + EncodeEvents(es[1..])
  }

  function EncodeMessage(m: ServerMessage): (s: seq<byte>)
    requires WellFormedMessage(m)
    ensures |s| == 4 + TotalSize(m.events) <= MAX_UDP_DATA_FIELD_SIZE
  {
    Be32(m.gameId) + EncodeEvents(m.events)
  }

  // ---- Decoding ----

  datatype DecodedEvent = Decoded(event: Event, used: nat) | ChecksumMismatch | Malformed

  function DecodeData(t: byte, d: seq<byte>): Option<EventData> {
    if t == 0 then
      if |d| < 10 || d[|d| - 1] != 0 then None else Some(NewGame(ReadBe32(d, 0), ReadBe32(d, 4), d[8..]))
    else if t == 1 then
      if |d| < 9 then None else Some(Pixel(d[0] as nat, ReadBe32(d, 1), ReadBe32(d, 5)))
    else if t == 2 then
      if |d| < 1 then None else Some(PlayerEliminated(d[0] as nat))
    else if t == 3 then Some(GameOver)
    else Some(UnknownEvent)
  }

  /** The record at `at` of a datagram of `size` bytes; the buffer goes on past the datagram. */
  function DecodeEvent(buffer: seq<byte>, at: nat, size: nat): (r: DecodedEvent)
    requires at < size && size + 9 <= |buffer|
    ensures r.Decoded? ==> 13 <= r.used <= size - at
  {
    var len := ReadBe32(buffer, at);
    if len < 5 || len + 8 > size - at then Malformed
    else if ReadBe32(buffer, at + len + 4) != Checksum(buffer[at..at + len + 4]) then ChecksumMismatch
    else match DecodeData(buffer[at + 8], buffer[at + 9..at + len + 4])
      case None => Malformed
      case Some(d) => Decoded(Event(ReadBe32(buffer, at + 4), d), len + 8)
  }

  /** None stands for the decoding error; a checksum mismatch keeps the records before it. */
  function DecodeEvents(buffer: seq<byte>, at: nat, size: nat): Option<seq<Event>>
    requires at <= size && size + 9 <= |buffer|
    decreases size - at
  {
    if at == size then Some([])
    else match DecodeEvent(buffer, at, size)
      case Malformed => None
      case ChecksumMismatch => Some([])
      case Decoded(e, used) =>
        match DecodeEvents(buffer, at + used, size)
        case None => None
        case Some(es) => Some([e] + es)
  }

  function DecodeMessage(buffer: seq<byte>, size: nat): Option<ServerMessage>
    requires |buffer| == INBOUND_BUFFER_SIZE
  {
    if size < 4 || size > MAX_UDP_DATA_FIELD_SIZE then None
    else match DecodeEvents(buffer, 4, size)
      case None => None
      case Some(es) => Some(ServerMessage(ReadBe32(buffer, 0), es))
  }

  // ---- Round trip of the server's messages ----

  lemma DecodeEncodedData(d: EventData)
    requires WellFormedData(d)
    ensures DecodeData(TypeCode(d), EncodeData(d)) == Some(d)
  {
    var s := EncodeData(d);
    match d
    case NewGame(maxx, maxy, field) =>
      assert s[0..4] == Be32(maxx) && s[4..8] == Be32(maxy) && s[8..] == field;
      ReadAfterWrite32(s, 0, maxx);
      ReadAfterWrite32(s, 4, maxy);
    case Pixel(no, x, y) =>
      assert s[1..5] == Be32(x) && s[5..9] == Be32(y);
      ReadAfterWrite32(s, 1, x);
      ReadAfterWrite32(s, 5, y);
    case PlayerEliminated(no) =>
    case GameOver =>
  }

  /** Where the fields of a record lie when its body stands at `at`. */
  lemma BodyFields(buffer: seq<byte>, at: nat, e: Event)
    requires WellFormed(e) && at + |Body(e)| <= |buffer| && buffer[at..at + |Body(e)|] == Body(e)
    ensures ReadBe32(buffer, at) == DataSize(e.data) + 5 && ReadBe32(buffer, at + 4) == e.eventNo
    ensures buffer[at + 8] == TypeCode(e.data) && buffer[at + 9..at + 9 + DataSize(e.data)] == EncodeData(e.data)
  {
    hide Checksum;
    hide Be32;
    hide ReadBe32;
    hide EncodeData;
    var b, n := Body(e), DataSize(e.data);
    SliceOfSlice(buffer, at, at + |b|, 0, 4);
    SliceOfSlice(buffer, at, at + |b|, 4, 8);
    SliceOfSlice(buffer, at, at + |b|, 9, 9 + n);
    SliceOfSlice(buffer, at, at + |b|, 8, 9);
    FourPieces(b, Be32(n + 5), Be32(e.eventNo), [TypeCode(e.data)], EncodeData(e.data));
    assert buffer[at + 8] == buffer[at + 8..at + 9][0];
    ReadAfterWrite32(buffer, at, n + 5);
    ReadAfterWrite32(buffer, at + 4, e.eventNo);
  }

  lemma BodySize(e: Event)
    requires WellFormed(e)
    ensures |Body(e)| == DataSize(e.data) + 9 && EncodedSize(e) == DataSize(e.data) + 13
  {
  }

  lemma BodyAndChecksum(buffer: seq<byte>, at: nat, e: Event)
    requires WellFormed(e) && at + EncodedSize(e) <= |buffer|
    requires buffer[at..at + EncodedSize(e)] == EncodeEvent(e)
    ensures buffer[at..at + |Body(e)|] == Body(e)
    ensures buffer[at + |Body(e)|..at + |Body(e)| + 4] == Be32(Checksum(Body(e)))
  {
    hide Checksum;
    hide Be32;
    var b, n, m := Body(e), |Body(e)|, EncodedSize(e);
    hide Body;
    SliceOfSlice(buffer, at, at + m, 0, n);
    SliceOfSlice(buffer, at, at + m, n, m);
    assert EncodeEvent(e)[0..n] == b && EncodeEvent(e)[n..m] == Be32(Checksum(b));
  }

  lemma DecodeEncodedEvent(buffer: seq<byte>, at: nat, size: nat, e: Event)
    requires WellFormed(e) && at + EncodedSize(e) <= size && size + 9 <= |buffer|
    requires buffer[at..at + EncodedSize(e)] == EncodeEvent(e)
    ensures DecodeEvent(buffer, at, size) == Decoded(e, EncodedSize(e))
  {
    hide Checksum;
    hide Be32;
    hide ReadBe32;
    hide EncodeEvent;
    hide EncodeData;
    hide DecodeData;
    hide Body;
    hide WellFormedData;
    BodyAndChecksum(buffer, at, e);
    ReadAfterWrite32(buffer, at + |Body(e)|, Checksum(Body(e)));
    BodyFields(buffer, at, e);
    DecodeEncodedData(e.data);
  }

  /** The records `es` lie intact from `at` on, within the datagram. */
  ghost predicate Intact(buffer: seq<byte>, at: nat, size: nat, es: seq<Event>) {
    && WellFormedEvents(es)
    && at + TotalSize(es) <= size && size + 9 <= |buffer|
    && buffer[at..at + TotalSize(es)] == EncodeEvents(es)
  }

  lemma FirstRecord(buffer: seq<byte>, at: nat, size: nat, es: seq<Event>)
    requires Intact(buffer, at, size, es) && es != []
    ensures at < size && size + 9 <= |buffer| && at + EncodedSize(es[0]) <= size
    ensures TotalSize(es) == EncodedSize(es[0]) + TotalSize(es[1..])
    ensures DecodeEvent(buffer, at, size) == Decoded(es[0], EncodedSize(es[0]))
    ensures Intact(buffer, at + EncodedSize(es[0]), size, es[1..])
  {
    SizeOfFirst(es);
    FirstBytes(buffer, at, size, es);
    hide *;
    DecodeEncodedEvent(buffer, at, size, es[0]);
  }

  lemma SizeOfFirst(es: seq<Event>)
    requires es != []
    ensures TotalSize(es) == EncodedSize(es[0]) + TotalSize(es[1..]) && EncodedSize(es[0]) >= 13
  {
  }

  /** The first record, and what comes after it. */
  lemma FirstBytes(buffer: seq<byte>, at: nat, size: nat, es: seq<Event>)
    requires Intact(buffer, at, size, es) && es != []
    ensures WellFormed(es[0]) && at + EncodedSize(es[0]) <= size && size + 9 <= |buffer|
    ensures buffer[at..at + EncodedSize(es[0])] == EncodeEvent(es[0])
    ensures Intact(buffer, at + EncodedSize(es[0]), size, es[1..])
  {
    SizeOfFirst(es);
    hide EncodeEvent;
    hide EncodedSize;
    hide WellFormed;
    var n, m, s, t := EncodedSize(es[0]), TotalSize(es), EncodeEvent(es[0]), EncodeEvents(es[1..]);
    SliceOfSlice(buffer, at, at + m, 0, n);
    SliceOfSlice(buffer, at, at + m, n, m);
    assert (s + t)[0..n] == s && (s + t)[n..m] == t;
  }

  function Prepend(es: seq<Event>, rest: Option<seq<Event>>): Option<seq<Event>> {
    match rest
    case None => None
    case Some(more) => Some(es + more)
  }

  lemma DecodeStep(buffer: seq<byte>, at: nat, size: nat, e: Event, used: nat)
    requires at < size && size + 9 <= |buffer| && at + used <= size
    requires DecodeEvent(buffer, at, size) == Decoded(e, used)
    ensures DecodeEvents(buffer, at, size) == Prepend([e], DecodeEvents(buffer, at + used, size))
  {
    hide DecodeEvent;
  }

  lemma PrependTwice(e: Event, es: seq<Event>, rest: Option<seq<Event>>)
    ensures Prepend([e], Prepend(es, rest)) == Prepend([e] + es, rest)
  {
    match rest
    case None =>
    case Some(more) => assert [e] + (es + more) == [e] + es + more;
  }

  lemma PrependNothing(rest: Option<seq<Event>>)
    ensures Prepend([], rest) == rest
  {
    match rest
    case None =>
    case Some(more) => assert [] + more == more;
  }

  lemma IntactBounds(buffer: seq<byte>, at: nat, size: nat, es: seq<Event>)
    requires Intact(buffer, at, size, es)
    ensures at + TotalSize(es) <= size && size + 9 <= |buffer|
    ensures es == [] ==> TotalSize(es) == 0
  {
  }

  /** Intact records are decoded one by one, whatever follows them. */
  lemma {:induction false} DecodeIntact(buffer: seq<byte>, at: nat, size: nat, es: seq<Event>)
    requires Intact(buffer, at, size, es)
    ensures at + TotalSize(es) <= size && size + 9 <= |buffer|
    ensures DecodeEvents(buffer, at, size) == Prepend(es, DecodeEvents(buffer, at + TotalSize(es), size))
    decreases |es|
  {
    hide *;
    IntactBounds(buffer, at, size, es);
    if es == [] {
      PrependNothing(DecodeEvents(buffer, at, size));
    } else {
      var n := EncodedSize(es[0]);
      FirstRecord(buffer, at, size, es);
      DecodeIntact(buffer, at + n, size, es[1..]);
      DecodeStep(buffer, at, size, es[0], n);
      PrependTwice(es[0], es[1..], DecodeEvents(buffer, at + TotalSize(es), size));
      assert es == [es[0]] + es[1..];
    }
  }

  /** A receive buffer whose first bytes are the datagram; the rest is left over from earlier ones. */
  ghost predicate Received(buffer: seq<byte>, datagram: seq<byte>) {
    |buffer| == INBOUND_BUFFER_SIZE && |datagram| <= |buffer| && buffer[..|datagram|] == datagram
  }

  lemma HeaderAndRecords(buffer: seq<byte>, m: ServerMessage)
    requires WellFormedMessage(m) && Received(buffer, EncodeMessage(m))
    ensures |buffer| == INBOUND_BUFFER_SIZE
    ensures ReadBe32(buffer, 0) == m.gameId && Intact(buffer, 4, |EncodeMessage(m)|, m.events)
  {
    hide EncodeEvents;
    hide Be32;
    hide ReadBe32;
    hide WellFormed;
    var d := EncodeMessage(m);
    SliceOfSlice(buffer, 0, |d|, 0, 4);
    SliceOfSlice(buffer, 0, |d|, 4, |d|);
    assert buffer[0..|d|] == d && d[0..4] == Be32(m.gameId) && d[4..|d|] == EncodeEvents(m.events);
    ReadAfterWrite32(buffer, 0, m.gameId);
  }

  /** decode(encode(m)) == m, whatever the buffer held before. */
  lemma MessageRoundTrip(buffer: seq<byte>, m: ServerMessage)
    requires WellFormedMessage(m) && Received(buffer, EncodeMessage(m))
    ensures DecodeMessage(buffer, |EncodeMessage(m)|) == Some(m)
  {
    hide *;
    var d := EncodeMessage(m);
    HeaderAndRecords(buffer, m);
    DecodeIntact(buffer, 4, |d|, m.events);
    DecodeAtEnd(buffer, |d|);
    assert m.events + [] == m.events;
    PrependToNothing(m.events);
    DecodeMessageIs(buffer, |d|);
  }

  lemma DecodeAtEnd(buffer: seq<byte>, size: nat)
    requires size + 9 <= |buffer|
    ensures DecodeEvents(buffer, size, size) == Some([])
  {
  }

  lemma PrependToNothing(es: seq<Event>)
    ensures Prepend(es, Some([])) == Some(es)
  {
    assert es + [] == es;
  }

  lemma DecodeMessageIs(buffer: seq<byte>, size: nat)
    requires |buffer| == INBOUND_BUFFER_SIZE && 4 <= size <= MAX_UDP_DATA_FIELD_SIZE
    ensures size + 9 <= |buffer|
    ensures DecodeEvents(buffer, 4, size).Some? ==>
              DecodeMessage(buffer, size)
                  == Some(ServerMessage(ReadBe32(buffer, 0), DecodeEvents(buffer, 4, size).value))
  {
    hide DecodeEvents;
    hide ReadBe32;
  }

  /** A decoded NEW_GAME never overflows the fixed array its names are copied to. */
  lemma DecodedFieldFits(buffer: seq<byte>, at: nat, size: nat)
    requires 4 <= at < size <= MAX_UDP_DATA_FIELD_SIZE && |buffer| == INBOUND_BUFFER_SIZE
    ensures var r := DecodeEvent(buffer, at, size);
            r.Decoded? && r.event.data.NewGame? ==> 2 <= |r.event.data.field| <= MAX_PLAYERS_FIELD_SIZE
  {
  }

  // ---- The client's messages ----

  predicate WellFormedClientMessage(m: ClientMessage) {
    m.sessionId < U64 && m.nextExpectedEventNo < U32 && ValidName(m.playerName)
  }

  function TurnCode(t: TurnDirection): byte {
    match t
    case Straight => 0
    case Right => 1
    case Left => 2
  }

  function EncodeClientMessage(m: ClientMessage): (s: seq<byte>)
    requires WellFormedClientMessage(m)
    ensures 13 <= |s| <= 33
  {
    Be64(m.sessionId) + [TurnCode(m.turnDirection)] + Be32(m.nextExpectedEventNo) + m.playerName
  }

  function DecodeClientMessage(s: seq<byte>): Option<ClientMessage> {
    if |s| < 13 || |s| > 33 || s[8] > 2 || !ValidName(s[13..]) then None
    else
      var turn := if s[8] == 0 then Straight else if s[8] == 1 then Right else Left;
      Some(ClientMessage(ReadBe64(s, 0), turn, ReadBe32(s, 9), s[13..]))
  }

  lemma ClientMessageRoundTrip(m: ClientMessage)
    requires WellFormedClientMessage(m)
    ensures DecodeClientMessage(EncodeClientMessage(m)) == Some(m)
  {
    var s := EncodeClientMessage(m);
    assert s[0..8] == Be64(m.sessionId);
    assert s[9..13] == Be32(m.nextExpectedEventNo);
    assert s[13..] == m.playerName;
    ReadAfterWrite64(s, 0, m.sessionId);
    ReadAfterWrite32(s, 9, m.nextExpectedEventNo);
  }

  /** Nothing else decodes: an accepted byte string is the encoding of what it decodes to. */
  lemma ClientMessageOnlyEncodings(s: seq<byte>)
    requires DecodeClientMessage(s).Some?
    ensures WellFormedClientMessage(DecodeClientMessage(s).value)
    ensures EncodeClientMessage(DecodeClientMessage(s).value) == s
  {
    WriteAfterRead64(s, 0);
    WriteAfterRead32(s, 9);
    assert s == s[0..8] + [s[8]] + s[9..13] + s[13..];
  }
}
