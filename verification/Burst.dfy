/** What the checksum buys: damage to one record costs that record and the ones after it, never a wrong event. */
module Burst {
  import opened Bytes
  import opened Crc32
  import opened Messages

  lemma {:induction false} TotalSizeOfConcat(a: seq<Event>, b: seq<Event>)
    ensures TotalSize(a + b) == TotalSize(a) + TotalSize(b)
  {
    if a == [] {
      assert a + b == b;
    } else {
      assert (a + b)[1..] == a[1..] + b;
      TotalSizeOfConcat(a[1..], b);
    }
  }

  lemma {:induction false} EncodeConcat(a: seq<Event>, b: seq<Event>)
    requires WellFormedEvents(a) && WellFormedEvents(b)
    ensures EncodeEvents(a + b) == EncodeEvents(a) + EncodeEvents(b)
  {
    hide EncodeEvent;
    hide WellFormed;
    if a == [] {
      assert a + b == b;
    } else {
      assert (a + b)[1..] == a[1..] + b;
      EncodeConcat(a[1..], b);
      assert EncodeEvent(a[0]) + (EncodeEvents(a[1..]) + EncodeEvents(b)) == EncodeEvents(a) + EncodeEvents(b);
    }
  }

  /** Where record k starts in the encoding of m. */
  function RecordStart(m: ServerMessage, k: nat): nat
    requires k <= |m.events|
  {
    4 + TotalSize(m.events[..k])
  }

  ghost predicate AgreeOutside(s: seq<byte>, t: seq<byte>, p: nat, q: nat) {
    |s| == |t| && forall i | 0 <= i < |s| && !(p <= i < q) :: s[i] == t[i]
  }

  /** `t` is `s` with at most four consecutive bytes changed, all of them in [lo, hi). */
  ghost predicate BurstWithin(s: seq<byte>, t: seq<byte>, lo: nat, hi: nat) {
    && s != t && |s| == |t| && hi <= |s|
    && exists p: nat, q: nat | lo <= p <= q <= p + 4 && q <= hi :: AgreeOutside(s, t, p, q)
  }

  /** A burst lies in a window of exactly four bytes, so the checksum notices it. */
  lemma BurstNoticed(s: seq<byte>, t: seq<byte>, lo: nat)
    requires BurstWithin(s, t, lo, |s|) && 4 <= |s|
    ensures Checksum(s) != Checksum(t)
  {
    hide Checksum;
    var p: nat, q: nat :| lo <= p <= q <= p + 4 && q <= |s| && AgreeOutside(s, t, p, q);
    var w := if p + 4 <= |s| then p else |s| - 4;
    assert s[..w] == t[..w];
    assert s[w + 4..] == t[w + 4..];
    BurstChangesChecksum(s, t, w);
  }

  /** How the encoding of m is laid out around record k. */
  lemma Layout(m: ServerMessage, k: nat)
    requires WellFormedMessage(m) && k < |m.events|
    ensures var d, at, e := EncodeMessage(m), RecordStart(m, k), m.events[k];
            && at + EncodedSize(e) <= |d|
            && WellFormedEvents(m.events[..k])
            && d[..4] == Be32(m.gameId) && d[4..at] == EncodeEvents(m.events[..k])
            && d[at..at + |Body(e)|] == Body(e)
            && d[at + |Body(e)|..at + |Body(e)| + 4] == Be32(Checksum(Body(e)))
  {
    hide *;
    var pre, e, post := m.events[..k], m.events[k], m.events[k + 1..];
    MessageParts(m);
    SplitAt(m.events, k);
    RecordParts(e);
    RecordStartIs(m, k);
    FivePieces(Be32(m.gameId), EncodeEvents(pre), Body(e), Be32(Checksum(Body(e))), EncodeEvents(post),
               EncodeMessage(m));
  }

  lemma MessageParts(m: ServerMessage)
    requires WellFormedMessage(m)
    ensures WellFormedEvents(m.events) && m.gameId < U32 && EncodeMessage(m) == Be32(m.gameId) + EncodeEvents(m.events)
  {
  }

  lemma RecordParts(e: Event)
    requires WellFormed(e)
    ensures EncodeEvent(e) == Body(e) + Be32(Checksum(Body(e))) && |Body(e)| + 4 == EncodedSize(e)
  {
    hide Checksum;
  }

  lemma RecordStartIs(m: ServerMessage, k: nat)
    requires k <= |m.events| && WellFormedEvents(m.events[..k])
    ensures RecordStart(m, k) == 4 + |EncodeEvents(m.events[..k])|
  {
  }

  lemma EncodeCons(e: Event, post: seq<Event>)
    requires WellFormed(e) && WellFormedEvents(post)
    ensures WellFormedEvents([e] + post) && EncodeEvents([e] + post) == EncodeEvent(e) + EncodeEvents(post)
  {
    hide WellFormed;
    hide EncodeEvent;
    assert ([e] + post)[1..] == post;
  }

  lemma PartsWellFormed(es: seq<Event>, k: nat)
    requires WellFormedEvents(es) && k < |es|
    ensures WellFormedEvents(es[..k]) && WellFormed(es[k]) && WellFormedEvents(es[k + 1..])
  {
    hide WellFormed;
  }

  lemma SplitAt(es: seq<Event>, k: nat)
    requires WellFormedEvents(es) && k < |es|
    ensures WellFormedEvents(es[..k]) && WellFormed(es[k]) && WellFormedEvents(es[k + 1..])
    ensures EncodeEvents(es) == EncodeEvents(es[..k]) + (EncodeEvent(es[k]) + EncodeEvents(es[k + 1..]))
  {
    hide *;
    PartsWellFormed(es, k);
    assert es == es[..k] + ([es[k]] + es[k + 1..]);
    EncodeCons(es[k], es[k + 1..]);
    EncodeConcat(es[..k], [es[k]] + es[k + 1..]);
  }

  lemma FivePieces(h: seq<byte>, a: seq<byte>, b: seq<byte>, c: seq<byte>, t: seq<byte>, s: seq<byte>)
    requires s == h + (a + ((b + c) + t))
    ensures |s| == |h| + |a| + |b| + |c| + |t|
    ensures s[..|h|] == h && s[|h|..|h| + |a|] == a
    ensures s[|h| + |a|..|h| + |a| + |b|] == b && s[|h| + |a| + |b|..|h| + |a| + |b| + |c|] == c
  {
    assert s == h + a + b + c + t;
  }

  lemma UndamagedSlice(s: seq<byte>, t: seq<byte>, lo: nat, hi: nat, a: nat, b: nat)
    requires BurstWithin(s, t, lo, hi) && a <= b <= |s| && (b <= lo || hi <= a)
    ensures |s| == |t| && s[a..b] == t[a..b]
  {
    var p: nat, q: nat :| lo <= p <= q <= p + 4 && q <= hi && AgreeOutside(s, t, p, q);
    assert forall i | 0 <= i < b - a :: s[a..b][i] == t[a..b][i];
  }

  /** The burst seen from inside the slice that contains it. */
  lemma BurstInSlice(s: seq<byte>, t: seq<byte>, lo: nat, hi: nat, a: nat)
    requires BurstWithin(s, t, lo, hi) && a <= lo
    ensures BurstWithin(s[a..hi], t[a..hi], lo - a, hi - a)
  {
    var p: nat, q: nat :| lo <= p <= q <= p + 4 && q <= hi && AgreeOutside(s, t, p, q);
    var u, v := s[a..hi], t[a..hi];
    assert AgreeOutside(u, v, p - a, q - a);
    var i :| 0 <= i < |s| && s[i] != t[i];
    assert u[i - a] != v[i - a];
  }

  lemma UnchangedHeader(buffer: seq<byte>, at: nat, e: Event, body: seq<byte>)
    requires WellFormed(e) && at + |body| <= |buffer|
    requires BurstWithin(Body(e), body, 4, |Body(e)|) && buffer[at..at + |body|] == body
    ensures ReadBe32(buffer, at) == DataSize(e.data) + 5
  {
    hide Checksum;
    hide Be32;
    hide ReadBe32;
    UndamagedSlice(Body(e), body, 4, |body|, 0, 4);
    SliceOfSlice(buffer, at, at + |body|, 0, 4);
    assert Body(e)[0..4] == Be32(DataSize(e.data) + 5);
    ReadAfterWrite32(buffer, at, DataSize(e.data) + 5);
  }

  lemma Mismatch(buffer: seq<byte>, at: nat, size: nat, len: nat, checksum: nat)
    requires at < size && size + 9 <= |buffer| && 5 <= len && at + len + 8 <= size
    requires ReadBe32(buffer, at) == len && ReadBe32(buffer, at + len + 4) == checksum
    requires Checksum(buffer[at..at + len + 4]) != checksum
    ensures DecodeEvent(buffer, at, size) == ChecksumMismatch
  {
    hide Checksum;
  }

  lemma DamagedRecord(buffer: seq<byte>, at: nat, size: nat, e: Event, body: seq<byte>)
    requires WellFormed(e) && at + EncodedSize(e) <= size && size + 9 <= |buffer|
    requires |body| == |Body(e)| && BurstWithin(Body(e), body, 4, |Body(e)|) && buffer[at..at + |body|] == body
    requires buffer[at + |body|..at + |body| + 4] == Be32(Checksum(Body(e)))
    ensures DecodeEvent(buffer, at, size) == ChecksumMismatch
  {
    hide *;
    BodySize(e);
    BurstNoticed(Body(e), body, 4);
    UnchangedHeader(buffer, at, e, body);
    ReadAfterWrite32(buffer, at + |body|, Checksum(Body(e)));
    Mismatch(buffer, at, size, DataSize(e.data) + 5, Checksum(Body(e)));
  }

  lemma DamagedRecords(buffer: seq<byte>, damaged: seq<byte>, m: ServerMessage, k: nat)
    requires WellFormedMessage(m) && k < |m.events| && Received(buffer, damaged)
    requires BurstWithin(EncodeMessage(m), damaged,
                         RecordStart(m, k) + 4, RecordStart(m, k) + 9 + DataSize(m.events[k].data))
    ensures var at, size := RecordStart(m, k), |damaged|;
            && 4 <= at < size <= MAX_UDP_DATA_FIELD_SIZE
            && ReadBe32(buffer, 0) == m.gameId
            && Intact(buffer, 4, size, m.events[..k])
            && DecodeEvent(buffer, at, size) == ChecksumMismatch
  {
    hide Checksum;
    hide Be32;
    hide ReadBe32;
    hide DecodeEvent;
    hide Body;
    hide WellFormed;
    hide EncodeEvents;
    hide BurstWithin;
    var d, at, e := EncodeMessage(m), RecordStart(m, k), m.events[k];
    var lo, hi := at + 4, at + 9 + DataSize(e.data);
    Layout(m, k);
    hide EncodeMessage;
    assert |Body(e)| == DataSize(e.data) + 9 && EncodedSize(e) == DataSize(e.data) + 13;
    hide EncodedSize;
    UndamagedSlice(d, damaged, lo, hi, 0, 4);
    UndamagedSlice(d, damaged, lo, hi, 4, at);
    UndamagedSlice(d, damaged, lo, hi, hi, hi + 4);
    BurstInSlice(d, damaged, lo, hi, at);
    var size := |damaged|;
    assert buffer[0..size] == damaged;
    SliceOfSlice(buffer, 0, size, 0, 4);
    SliceOfSlice(buffer, 0, size, 4, at);
    SliceOfSlice(buffer, 0, size, at, hi);
    SliceOfSlice(buffer, 0, size, hi, hi + 4);
    assert d[0..4] == d[..4];
    ReadAfterWrite32(buffer, 0, m.gameId);
    DamagedRecord(buffer, at, size, e, damaged[at..hi]);
  }

  /**
   * In an encoded datagram, change any run of at most four consecutive bytes between event_no and the end of
   * event_data of record k: the client decodes exactly the k records before it.
   */
  lemma BurstCostsOnlyTheTail(buffer: seq<byte>, damaged: seq<byte>, m: ServerMessage, k: nat)
    requires WellFormedMessage(m) && k < |m.events| && Received(buffer, damaged)
    requires BurstWithin(EncodeMessage(m), damaged,
                         RecordStart(m, k) + 4, RecordStart(m, k) + 9 + DataSize(m.events[k].data))
    ensures DecodeMessage(buffer, |damaged|) == Some(ServerMessage(m.gameId, m.events[..k]))
  {
    hide DecodeEvent;
    hide EncodeMessage;
    hide WellFormedMessage;
    hide BurstWithin;
    hide Intact;
    DamagedRecords(buffer, damaged, m, k);
    DecodeIntact(buffer, 4, |damaged|, m.events[..k]);
    assert m.events[..k] + [] == m.events[..k];
  }
}
