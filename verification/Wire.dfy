/** The format of the datagrams, byte by byte, apart from the code that writes and reads them. */
module Wire {
  import opened Bytes
  import opened Crc32
  import opened Messages

  /** The number in `n` bytes from `at` on, most significant byte first. */
  ghost function NumberAt(s: seq<byte>, at: nat, n: nat): nat
    requires at + n <= |s|
  {
    if n == 0 then 0 else 0x100 * NumberAt(s, at, n - 1) + s[at + n - 1] as nat
  }

  lemma FourBytes(s: seq<byte>, at: nat)
    requires at + 4 <= |s|
    ensures ReadBe32(s, at) == NumberAt(s, at, 4)
  {
    assert NumberAt(s, at, 1) == s[at] as nat;
    assert NumberAt(s, at, 2) == 0x100 * NumberAt(s, at, 1) + s[at + 1] as nat;
    assert NumberAt(s, at, 3) == 0x100 * NumberAt(s, at, 2) + s[at + 2] as nat;
  }

  lemma EightBytes(s: seq<byte>, at: nat)
    requires at + 8 <= |s|
    ensures ReadBe64(s, at) == NumberAt(s, at, 8)
  {
    FourBytes(s, at);
    assert NumberAt(s, at, 5) == 0x100 * NumberAt(s, at, 4) + s[at + 4] as nat;
    assert NumberAt(s, at, 6) == 0x100 * NumberAt(s, at, 5) + s[at + 5] as nat;
    assert NumberAt(s, at, 7) == 0x100 * NumberAt(s, at, 6) + s[at + 6] as nat;
    assert NumberAt(s, at, 8) == 0x100 * NumberAt(s, at, 7) + s[at + 7] as nat;
  }

  lemma {:induction false} NumberInSlice(s: seq<byte>, a: nat, b: nat, at: nat, n: nat)
    requires a <= b <= |s| && at + n <= b - a
    ensures NumberAt(s[a..b], at, n) == NumberAt(s, a + at, n)
  {
    if n > 0 {
      NumberInSlice(s, a, b, at, n - 1);
    }
  }

  // ---- Records ----

  /** The length field counts the bytes between itself and the checksum. */
  ghost predicate Framed(s: seq<byte>) {
    13 <= |s| && NumberAt(s, 0, 4) == |s| - 8
  }

  /** The last four bytes are the checksum of all those before. */
  ghost predicate Sound(s: seq<byte>) {
    Framed(s) && NumberAt(s, |s| - 4, 4) == Checksum(s[..|s| - 4])
  }

  /** The type at byte 8, the data from byte 9 on; data beyond what the type needs are ignored. */
  ghost predicate Holds(s: seq<byte>, d: EventData)
    requires |s| >= 13
  {
    match d
    case NewGame(maxx, maxy, field) =>
      && s[8] == 0 && |s| >= 23
      && NumberAt(s, 9, 4) == maxx && NumberAt(s, 13, 4) == maxy && s[17..|s| - 4] == field && s[|s| - 5] == 0
    case Pixel(no, x, y) =>
      s[8] == 1 && |s| >= 22 && s[9] as nat == no && NumberAt(s, 10, 4) == x && NumberAt(s, 14, 4) == y
    case PlayerEliminated(no) => s[8] == 2 && |s| >= 14 && s[9] as nat == no
    case GameOver => s[8] == 3
    case UnknownEvent => s[8] > 3
  }

  ghost predicate RecordOf(s: seq<byte>, e: Event) {
    Sound(s) && NumberAt(s, 4, 4) == e.eventNo && Holds(s, e.data)
  }

  /** No byte more than the type needs. */
  ghost predicate Tight(s: seq<byte>, d: EventData) {
    match d
    case NewGame(_, _, _) => true
    case Pixel(_, _, _) => |s| == 22
    case PlayerEliminated(_) => |s| == 14
    case GameOver => |s| == 13
    case UnknownEvent => false
  }

  /** A whole record whose checksum is wrong. */
  ghost predicate Damaged(s: seq<byte>) {
    exists n | 13 <= n <= |s| :: Framed(s[..n]) && !Sound(s[..n])
  }

  /** Records one after the other, to the end or up to a damaged one. */
  ghost predicate Records(s: seq<byte>, es: seq<Event>)
    decreases |es|
  {
    if es == [] then s == [] || Damaged(s)
    else exists n | 13 <= n <= |s| :: RecordOf(s[..n], es[0]) && Records(s[n..], es[1..])
  }

  ghost predicate MessageOf(d: seq<byte>, m: ServerMessage) {
    4 <= |d| <= 550 && NumberAt(d, 0, 4) == m.gameId && Records(d[4..], m.events)
  }

  // ---- Reading a record ----

  lemma DataHeld(s: seq<byte>, d: EventData)
    requires |s| >= 13
    ensures DecodeData(s[8], s[9..|s| - 4]) == Some(d) <==> Holds(s, d)
  {
    var t := s[9..|s| - 4];
    if |t| >= 8 {
      FourBytes(t, 0);
      FourBytes(t, 4);
      NumberInSlice(s, 9, |s| - 4, 0, 4);
      NumberInSlice(s, 9, |s| - 4, 4, 4);
      SliceOfSlice(s, 9, |s| - 4, 8, |t|);
    }
    if |t| >= 9 {
      FourBytes(t, 1);
      FourBytes(t, 5);
      NumberInSlice(s, 9, |s| - 4, 1, 4);
      NumberInSlice(s, 9, |s| - 4, 5, 4);
    }
    hide NumberAt;
    hide ReadBe32;
  }

  lemma NumberSeen(buffer: seq<byte>, at: nat, n: nat, k: nat)
    requires k + 4 <= n && at + n <= |buffer|
    ensures ReadBe32(buffer, at + k) == NumberAt(buffer[at..at + n], k, 4)
  {
    hide *;
    FourBytes(buffer, at + k);
    NumberInSlice(buffer, at, at + n, k, 4);
  }

  lemma PiecesSeen(buffer: seq<byte>, at: nat, n: nat)
    requires 13 <= n && at + n <= |buffer|
    ensures var s := buffer[at..at + n];
            && buffer[at..at + n - 4] == s[..n - 4] && buffer[at + 8] == s[8]
            && buffer[at + 9..at + n - 4] == s[9..n - 4]
  {
    SliceOfSlice(buffer, at, at + n, 0, n - 4);
    SliceOfSlice(buffer, at, at + n, 9, n - 4);
  }

  /** What the decoder looks at, seen as the bytes of the record alone. */
  lemma RecordSeen(buffer: seq<byte>, at: nat, size: nat, n: nat)
    requires 13 <= n && at + n <= size && size + 9 <= |buffer|
    ensures var s := buffer[at..at + n];
            && ReadBe32(buffer, at) == NumberAt(s, 0, 4) && ReadBe32(buffer, at + 4) == NumberAt(s, 4, 4)
            && ReadBe32(buffer, at + n - 4) == NumberAt(s, n - 4, 4) && buffer[at..at + n - 4] == s[..n - 4]
            && buffer[at + 8] == s[8] && buffer[at + 9..at + n - 4] == s[9..n - 4]
  {
    hide *;
    NumberSeen(buffer, at, n, 0);
    NumberSeen(buffer, at, n, 4);
    NumberSeen(buffer, at, n, n - 4);
    PiecesSeen(buffer, at, n);
  }

  /** With n the length the record claims, the decoder's verdict on the n bytes from `at` on. */
  lemma VerdictOn(buffer: seq<byte>, at: nat, size: nat, e: Event, used: nat)
    requires at < size && size + 9 <= |buffer|
    ensures var n := ReadBe32(buffer, at) + 8;
            var r := DecodeEvent(buffer, at, size);
            if n < 13 || n > size - at then r.Malformed?
            else
              var s := buffer[at..at + n];
              && Framed(s) && (r.ChecksumMismatch? <==> !Sound(s))
              && (r == Decoded(e, used) <==> used == n && RecordOf(s, e))
  {
    hide *;
    var n := ReadBe32(buffer, at) + 8;
    DecodeEventIs(buffer, at, size);
    if 13 <= n <= size - at {
      var s := buffer[at..at + n];
      RecordSeen(buffer, at, size, n);
      DataHeld(s, e.data);
      SoundMeans(s, e);
    }
  }

  lemma DecodeEventIs(buffer: seq<byte>, at: nat, size: nat)
    requires at < size && size + 9 <= |buffer|
    ensures var len, r := ReadBe32(buffer, at), DecodeEvent(buffer, at, size);
            if len < 5 || len + 8 > size - at then r.Malformed?
            else if ReadBe32(buffer, at + len + 4) != Checksum(buffer[at..at + len + 4]) then r.ChecksumMismatch?
            else
              var d := DecodeData(buffer[at + 8], buffer[at + 9..at + len + 4]);
              r == if d.None? then Malformed else Decoded(Event(ReadBe32(buffer, at + 4), d.value), len + 8)
  {
    hide ReadBe32;
    hide Checksum;
    hide DecodeData;
  }

  lemma SoundMeans(s: seq<byte>, e: Event)
    requires |s| >= 13
    ensures Framed(s) <==> NumberAt(s, 0, 4) == |s| - 8
    ensures Sound(s) <==> Framed(s) && NumberAt(s, |s| - 4, 4) == Checksum(s[..|s| - 4])
    ensures RecordOf(s, e) <==> Sound(s) && NumberAt(s, 4, 4) == e.eventNo && Holds(s, e.data)
  {
    hide NumberAt;
    hide Checksum;
    hide Holds;
  }

  lemma FramedAt(buffer: seq<byte>, at: nat, size: nat, n: nat)
    requires at < size && size + 9 <= |buffer| && 13 <= n <= size - at
    ensures Framed(buffer[at..at + n]) <==> n == ReadBe32(buffer, at) + 8
  {
    RecordSeen(buffer, at, size, n);
    hide ReadBe32;
    hide NumberAt;
  }

  lemma RecordIsFramed(s: seq<byte>, e: Event)
    requires RecordOf(s, e)
    ensures Framed(s) && Sound(s)
  {
  }

  lemma RecordRead(buffer: seq<byte>, at: nat, size: nat, e: Event, n: nat)
    requires at < size && size + 9 <= |buffer|
    ensures DecodeEvent(buffer, at, size) == Decoded(e, n)
            <==> 13 <= n <= size - at && RecordOf(buffer[at..size][..n], e)
  {
    hide *;
    VerdictOn(buffer, at, size, e, n);
    if 13 <= n <= size - at {
      SliceOfSlice(buffer, at, size, 0, n);
      assert buffer[at..size][0..n] == buffer[at..size][..n];
      FramedAt(buffer, at, size, n);
      if RecordOf(buffer[at..at + n], e) {
        RecordIsFramed(buffer[at..at + n], e);
      }
    }
  }

  lemma DamageSeen(buffer: seq<byte>, at: nat, size: nat)
    requires at < size && size + 9 <= |buffer|
    ensures DecodeEvent(buffer, at, size).ChecksumMismatch? <==> Damaged(buffer[at..size])
  {
    hide *;
    var s, k := buffer[at..size], ReadBe32(buffer, at) + 8;
    VerdictOn(buffer, at, size, Event(0, GameOver), 0);
    DamagedMeans(s);
    forall n | 13 <= n <= |s| ensures s[..n] == buffer[at..at + n] && (Framed(s[..n]) <==> n == k) {
      SliceOfSlice(buffer, at, size, 0, n);
      assert s[0..n] == s[..n];
      FramedAt(buffer, at, size, n);
    }
    if 13 <= k <= |s| {
      assert s[..k] == buffer[at..at + k];
    }
  }

  lemma DamagedMeans(s: seq<byte>)
    ensures Damaged(s) <==> exists n | 13 <= n <= |s| :: Framed(s[..n]) && !Sound(s[..n])
  {
    hide Framed;
    hide Sound;
  }

  // ---- Reading a datagram ----

  lemma EventsStep(buffer: seq<byte>, at: nat, size: nat)
    requires at < size && size + 9 <= |buffer|
    ensures var r := DecodeEvent(buffer, at, size);
            DecodeEvents(buffer, at, size)
            == if r.Malformed? then None else if r.ChecksumMismatch? then Some([])
               else Prepend([r.event], DecodeEvents(buffer, at + r.used, size))
  {
    hide DecodeEvent;
  }

  lemma RecordsFirst(s: seq<byte>, es: seq<Event>)
    ensures es == [] ==> (Records(s, es) <==> s == [] || Damaged(s))
    ensures es != [] ==>
              (Records(s, es) <==> exists n | 13 <= n <= |s| :: RecordOf(s[..n], es[0]) && Records(s[n..], es[1..]))
  {
    hide RecordOf;
    hide Damaged;
  }

  lemma {:induction false} RecordsRead(buffer: seq<byte>, at: nat, size: nat, es: seq<Event>)
    requires at <= size && size + 9 <= |buffer|
    ensures DecodeEvents(buffer, at, size) == Some(es) <==> Records(buffer[at..size], es)
    decreases |es|
  {
    hide *;
    var s := buffer[at..size];
    RecordsFirst(s, es);
    if at == size {
      DecodeAtEnd(buffer, size);
    } else {
      var r := DecodeEvent(buffer, at, size);
      EventsStep(buffer, at, size);
      DamageSeen(buffer, at, size);
      if es != [] {
        forall n | 13 <= n <= |s|
          ensures DecodeEvent(buffer, at, size) == Decoded(es[0], n) <==> RecordOf(s[..n], es[0])
          ensures DecodeEvents(buffer, at + n, size) == Some(es[1..]) <==> Records(s[n..], es[1..])
        {
          RecordRead(buffer, at, size, es[0], n);
          RecordsRead(buffer, at + n, size, es[1..]);
          SliceOfSlice(buffer, at, size, n, size - at);
          assert s[n..] == s[n..size - at];
        }
      }
      if r.Decoded? {
        PrependedIs(r.event, DecodeEvents(buffer, at + r.used, size), es);
        RecordRead(buffer, at, size, r.event, r.used);
      }
    }
  }

  lemma PrependedIs(e: Event, rest: Option<seq<Event>>, es: seq<Event>)
    ensures Prepend([e], rest) == Some(es) <==> es != [] && es[0] == e && rest == Some(es[1..])
  {
    if es != [] {
      assert es == [es[0]] + es[1..];
    }
    if rest.Some? {
      assert ([e] + rest.value)[1..] == rest.value;
    }
  }

  /**
   * A datagram decodes to a message exactly when it has the format of that message, whatever the receive buffer
   * held before. A record of a type not known is an event like any other; a damaged record ends the message.
   */
  lemma DecodedExactlyWhen(buffer: seq<byte>, d: seq<byte>, m: ServerMessage)
    requires Received(buffer, d)
    ensures |buffer| == INBOUND_BUFFER_SIZE && (DecodeMessage(buffer, |d|) == Some(m) <==> MessageOf(d, m))
  {
    hide *;
    var n := |d|;
    ReceivedBytes(buffer, d);
    DecodeMessageMeans(buffer, n);
    MessageOfMeans(d, m);
    if 4 <= n <= 550 {
      FourBytes(buffer, 0);
      NumberInSlice(buffer, 0, n, 0, 4);
      RecordsRead(buffer, 4, n, m.events);
    }
  }

  lemma ReceivedBytes(buffer: seq<byte>, d: seq<byte>)
    requires Received(buffer, d)
    ensures |buffer| == INBOUND_BUFFER_SIZE == 560 && |d| <= |buffer| && buffer[0..|d|] == d
    ensures |d| >= 4 ==> buffer[4..|d|] == d[4..]
  {
  }

  lemma DecodeMessageMeans(buffer: seq<byte>, size: nat)
    requires |buffer| == INBOUND_BUFFER_SIZE == 560
    ensures size < 4 || size > 550 ==> DecodeMessage(buffer, size) == None
    ensures 4 <= size <= 550 ==>
              DecodeMessage(buffer, size) == match DecodeEvents(buffer, 4, size)
                                             case None => None
                                             case Some(es) => Some(ServerMessage(ReadBe32(buffer, 0), es))
  {
    hide DecodeEvents;
    hide ReadBe32;
  }

  lemma MessageOfMeans(d: seq<byte>, m: ServerMessage)
    ensures MessageOf(d, m) <==> 4 <= |d| <= 550 && NumberAt(d, 0, 4) == m.gameId && Records(d[4..], m.events)
  {
    hide NumberAt;
    hide Records;
  }

  // ---- Writing ----

  lemma EncodedIsTight(e: Event)
    requires WellFormed(e)
    ensures Tight(EncodeEvent(e), e.data)
  {
    hide Body;
    hide Be32;
    hide Checksum;
  }

  lemma EncodedIsRecord(e: Event)
    requires WellFormed(e)
    ensures RecordOf(EncodeEvent(e), e)
  {
    hide *;
    var s := EncodeEvent(e);
    RecordParts(e);
    var buffer := s + s;
    assert buffer[0..|s|] == s && buffer[0..|s|][..|s|] == s;
    DecodeEncodedEvent(buffer, 0, |s|, e);
    RecordRead(buffer, 0, |s|, e, |s|);
  }

  lemma RecordParts(e: Event)
    requires WellFormed(e)
    ensures |EncodeEvent(e)| == EncodedSize(e) >= 13
  {
    hide EncodeEvent;
  }

  lemma {:induction false} SameNumber(s: seq<byte>, t: seq<byte>, at: nat, n: nat)
    requires at + n <= |s| && at + n <= |t| && NumberAt(s, at, n) == NumberAt(t, at, n)
    ensures s[at..at + n] == t[at..at + n]
  {
    if n > 0 {
      SameNumber(s, t, at, n - 1);
      assert s[at..at + n] == s[at..at + n - 1] + [s[at + n - 1]];
      assert t[at..at + n] == t[at..at + n - 1] + [t[at + n - 1]];
    }
  }

  lemma SameData(s: seq<byte>, t: seq<byte>, d: EventData)
    requires |s| == |t| >= 13 && Holds(s, d) && Holds(t, d) && Tight(s, d)
    ensures s[8..|s| - 4] == t[8..|t| - 4]
  {
    var n := |s| - 4;
    match d
    case NewGame(_, _, _) =>
      SameNumber(s, t, 9, 4);
      SameNumber(s, t, 13, 4);
      assert s[8..n] == [s[8]] + s[9..13] + s[13..17] + s[17..n];
      assert t[8..n] == [t[8]] + t[9..13] + t[13..17] + t[17..n];
    case Pixel(_, _, _) =>
      SameNumber(s, t, 10, 4);
      SameNumber(s, t, 14, 4);
      assert s[8..n] == [s[8]] + [s[9]] + s[10..14] + s[14..18];
      assert t[8..n] == [t[8]] + [t[9]] + t[10..14] + t[14..18];
    case PlayerEliminated(_) =>
      assert s[8..n] == [s[8]] + [s[9]] && t[8..n] == [t[8]] + [t[9]];
    case GameOver =>
      assert s[8..n] == [s[8]] && t[8..n] == [t[8]];
    hide NumberAt;
  }

  lemma SameSize(s: seq<byte>, t: seq<byte>, e: Event)
    requires RecordOf(s, e) && RecordOf(t, e) && Tight(s, e.data) && Tight(t, e.data)
    ensures |s| == |t| >= 13
  {
    hide NumberAt;
    hide Checksum;
    if e.data.NewGame? {
      assert |s[17..|s| - 4]| == |t[17..|t| - 4]|;
    }
  }

  lemma RecordMeans(s: seq<byte>, e: Event)
    requires RecordOf(s, e)
    ensures |s| >= 13 && NumberAt(s, 0, 4) == |s| - 8 && NumberAt(s, 4, 4) == e.eventNo && Holds(s, e.data)
    ensures NumberAt(s, |s| - 4, 4) == Checksum(s[..|s| - 4])
  {
    hide NumberAt;
    hide Checksum;
    hide Holds;
  }

  /** The format leaves no choice. */
  lemma OneRecord(s: seq<byte>, t: seq<byte>, e: Event)
    requires RecordOf(s, e) && RecordOf(t, e) && Tight(s, e.data) && Tight(t, e.data)
    ensures s == t
  {
    hide *;
    SameSize(s, t, e);
    RecordMeans(s, e);
    RecordMeans(t, e);
    var n := |s| - 4;
    SameData(s, t, e.data);
    SameNumber(s, t, 0, 4);
    SameNumber(s, t, 4, 4);
    Pieces(s);
    Pieces(t);
    assert s[..n] == t[..n];
    SameNumber(s, t, n, 4);
  }

  lemma Pieces(s: seq<byte>)
    requires |s| >= 13
    ensures var n := |s| - 4; s[..n] == s[0..4] + s[4..8] + s[8..n] && s == s[..n] + s[n..n + 4]
  {
  }

  /** The encoding of an event is the one string of bytes that has its format and no byte too many. */
  lemma EncodedExactlyWhen(s: seq<byte>, e: Event)
    requires WellFormed(e)
    ensures s == EncodeEvent(e) <==> RecordOf(s, e) && Tight(s, e.data)
  {
    hide *;
    EncodedIsTight(e);
    EncodedIsRecord(e);
    if RecordOf(s, e) && Tight(s, e.data) {
      OneRecord(s, EncodeEvent(e), e);
    }
  }

  /** What the server sends has the format of its message. */
  lemma EncodedMessageOf(m: ServerMessage)
    requires WellFormedMessage(m)
    ensures MessageOf(EncodeMessage(m), m)
  {
    var d := EncodeMessage(m);
    hide *;
    EncodedFits(m);
    var buffer := d + seq(INBOUND_BUFFER_SIZE - |d|, i => 0);
    ReceivedWith(buffer, d);
    MessageRoundTrip(buffer, m);
    DecodedExactlyWhen(buffer, d, m);
  }

  lemma EncodedFits(m: ServerMessage)
    requires WellFormedMessage(m)
    ensures |EncodeMessage(m)| <= INBOUND_BUFFER_SIZE
  {
    hide EncodeMessage;
  }

  lemma ReceivedWith(buffer: seq<byte>, d: seq<byte>)
    requires |buffer| == INBOUND_BUFFER_SIZE && |d| <= |buffer| && buffer[..|d|] == d
    ensures Received(buffer, d)
  {
  }

  // ---- The client's datagrams ----

  /** Session, direction, number of the next event expected, name. */
  ghost predicate ClientMessageOf(s: seq<byte>, m: ClientMessage) {
    && 13 <= |s|
    && NumberAt(s, 0, 8) == m.sessionId
    && (match m.turnDirection case Straight => s[8] == 0 case Right => s[8] == 1 case Left => s[8] == 2)
    && NumberAt(s, 9, 4) == m.nextExpectedEventNo
    && s[13..] == m.playerName
  }

  /** At most twenty printable characters, and no space. */
  ghost predicate Printable(name: Text) {
    |name| <= 20 && forall i | 0 <= i < |name| :: 33 <= name[i] <= 126
  }

  lemma ClientDecodedExactlyWhen(s: seq<byte>, m: ClientMessage)
    ensures DecodeClientMessage(s) == Some(m) <==> ClientMessageOf(s, m) && Printable(m.playerName)
  {
    if |s| >= 13 {
      EightBytes(s, 0);
      FourBytes(s, 9);
    }
    hide NumberAt;
    hide ReadBe32;
    hide ReadBe64;
  }

  lemma ClientEncodedExactlyWhen(s: seq<byte>, m: ClientMessage)
    requires WellFormedClientMessage(m)
    ensures s == EncodeClientMessage(m) <==> ClientMessageOf(s, m)
  {
    ClientMessageRoundTrip(m);
    ClientDecodedExactlyWhen(EncodeClientMessage(m), m);
    ClientDecodedExactlyWhen(s, m);
    hide EncodeClientMessage;
    hide DecodeClientMessage;
    hide ClientMessageOf;
    if ClientMessageOf(s, m) {
      ClientMessageOnlyEncodings(s);
    }
  }
}
