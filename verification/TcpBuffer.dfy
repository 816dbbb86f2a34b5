/** The client's line-oriented TCP socket: its two buffers, without the system calls. */
module TcpBuffer {
  import opened Bytes

  const NEWLINE: byte := 10
  const TCP_BUFF_SIZE: nat := 1000

  function Newlines(s: seq<byte>): (n: nat) {
    if s == [] then 0 else Newlines(s[..|s| - 1]) + if s[|s| - 1] == NEWLINE then 1 else 0
  }

  lemma {:induction false} NewlinesOfConcat(a: seq<byte>, b: seq<byte>)
    ensures Newlines(a + b) == Newlines(a) + Newlines(b)
  {
    if b == [] {
      assert a + b == a;
    } else {
      assert (a + b)[..|a + b| - 1] == a + b[..|b| - 1];
      NewlinesOfConcat(a, b[..|b| - 1]);
    }
  }

  lemma OneMoreByte(s: seq<byte>, b: byte)
    ensures Newlines(s + [b]) == Newlines(s) + if b == NEWLINE then 1 else 0
  {
    assert (s + [b])[..|s|] == s;
  }

  lemma {:induction false} NoNewlines(s: seq<byte>)
    ensures Newlines(s) == 0 <==> NEWLINE !in s
  {
    if s != [] {
      var front, last := s[..|s| - 1], s[|s| - 1];
      assert s == front + [last];
      NoNewlines(front);
    }
  }

  /** The bytes of a list of lines as they were on the wire, each with its newline. */
  function Wire(lines: seq<seq<byte>>): seq<byte> {
    if lines == [] then [] else Wire(lines[..|lines| - 1]) + lines[|lines| - 1] + [NEWLINE]
  }

  ghost predicate AreLines(lines: seq<seq<byte>>) {
    forall i | 0 <= i < |lines| :: NEWLINE !in lines[i]
  }

  class TcpSocket {
    var outBuffer: seq<byte>
    var inBuffer: seq<byte>
    var unreadNewlines: nat

    // What passed through the socket since it was opened.
    ghost var given: seq<byte>
    ghost var sent: seq<byte>
    ghost var received: seq<byte>
    ghost var lines: seq<seq<byte>>

    ghost predicate Valid()
      reads this
    {
      && sent + outBuffer == given
      && Wire(lines) + inBuffer == received
      && AreLines(lines)
      && unreadNewlines == Newlines(inBuffer)
    }

    constructor ()
      ensures Valid() && given == [] && received == [] && lines == []
    {
      outBuffer, inBuffer, unreadNewlines := [], [], 0;
      given, sent, received, lines := [], [], [], [];
    }

    method WriteData(data: seq<byte>)
      requires Valid()
      modifies this`outBuffer, this`given
      ensures Valid() && given == old(given) + data && outBuffer == old(outBuffer) + data
    {
      var i := 0;
      while i < |data|
        invariant 0 <= i <= |data|
        invariant outBuffer == old(outBuffer) + data[..i]
        invariant unchanged(this`given)
      {
        outBuffer := outBuffer + [data[i]];
        i := i + 1;
      }
      given := given + data;
      assert sent + (old(outBuffer) + data) == sent + old(outBuffer) + data;
    }

    /** What is left moves to the front, byte by byte. */
    method ShiftLeft(offset: nat)
      requires offset <= |outBuffer|
      modifies this`outBuffer
      ensures outBuffer == old(outBuffer)[offset..]
    {
      var leftInBuffer := |outBuffer| - offset;
      var i := 0;
      while i < leftInBuffer
        invariant 0 <= i <= leftInBuffer && |outBuffer| == |old(outBuffer)|
        invariant forall k | 0 <= k < i :: outBuffer[k] == old(outBuffer)[offset + k]
        invariant forall k | i <= k < |outBuffer| :: outBuffer[k] == old(outBuffer)[k]
      {
        outBuffer := outBuffer[i := outBuffer[offset + i]];
        i := i + 1;
      }
      outBuffer := outBuffer[..leftInBuffer];
      assert outBuffer == old(outBuffer)[offset..];
    }

    /** `written` is what `write` returned: negative on an error, otherwise how many bytes the system took. */
    method FlushOutgoing(written: int)
      requires Valid() && written <= |outBuffer|
      modifies this`outBuffer, this`sent
      ensures Valid()
      ensures sent == old(sent) + old(outBuffer)[..if written < 0 then 0 else written]
    {
      hide Wire;
      hide Newlines;
      if outBuffer == [] || written < 0 {
        return;
      }
      var offset := written;
      if offset == |outBuffer| {
        outBuffer := [];
      } else {
        ShiftLeft(offset);
      }
      sent := sent + old(outBuffer)[..offset];
      assert old(outBuffer) == old(outBuffer)[..offset] + outBuffer;
      assert sent + outBuffer == old(sent) + old(outBuffer);
    }

    method HasAvailableLine() returns (available: bool)
      requires Valid()
      ensures available <==> NEWLINE in inBuffer
    {
      NoNewlines(inBuffer);
      available := unreadNewlines > 0;
    }

    method FindNewline() returns (i: nat)
      requires NEWLINE in inBuffer
      ensures i < |inBuffer| && inBuffer[i] == NEWLINE && NEWLINE !in inBuffer[..i]
    {
      i := 0;
      while inBuffer[i] != NEWLINE
        invariant 0 <= i < |inBuffer|
        invariant NEWLINE !in inBuffer[..i]
        invariant NEWLINE in inBuffer[i..]
        decreases |inBuffer| - i
      {
        assert inBuffer[..i + 1] == inBuffer[..i] + [inBuffer[i]];
        assert inBuffer[i..] == [inBuffer[i]] + inBuffer[i + 1..];
        i := i + 1;
      }
    }

    /** Cuts the first line off the input buffer. */
    method TakeLine() returns (line: seq<byte>)
      requires Valid() && NEWLINE in inBuffer
      modifies this`inBuffer, this`unreadNewlines, this`lines
      ensures Valid() && lines == old(lines) + [line]
    {
      hide Wire;
      hide Newlines;
      var i := FindNewline();
      line := inBuffer[..i];
      LineTaken(lines, inBuffer, i);
      inBuffer := inBuffer[i + 1..];
      unreadNewlines := unreadNewlines - 1;
      lines := lines + [line];
    }

    /** Appends what `read` delivered. */
    method TakeChunk(chunk: seq<byte>)
      requires Valid()
      modifies this`inBuffer, this`unreadNewlines, this`received
      ensures Valid() && received == old(received) + chunk
    {
      hide Wire;
      hide Newlines;
      var i := 0;
      while i < |chunk|
        invariant 0 <= i <= |chunk|
        invariant inBuffer == old(inBuffer) + chunk[..i]
        invariant unreadNewlines == Newlines(inBuffer)
        invariant unchanged(this`received)
      {
        if chunk[i] == NEWLINE {
          unreadNewlines := unreadNewlines + 1;
        }
        OneMoreByte(inBuffer, chunk[i]);
        inBuffer := inBuffer + [chunk[i]];
        i := i + 1;
      }
      received := received + chunk;
      assert Wire(lines) + (old(inBuffer) + chunk) == Wire(lines) + old(inBuffer) + chunk;
    }

    /**
     * `chunk` is what `read` would deliver if it is called: nothing on an error, otherwise at most 1000 bytes.
     * A line that is already buffered is returned without reading.
     */
    method Readline(chunk: seq<byte>) returns (success: bool, line: seq<byte>)
      requires Valid() && |chunk| <= TCP_BUFF_SIZE
      modifies this`inBuffer, this`unreadNewlines, this`received, this`lines
      ensures Valid()
      ensures success <==> NEWLINE in old(inBuffer)
      ensures success ==> received == old(received) && lines == old(lines) + [line]
      ensures !success ==> received == old(received) + chunk && lines == old(lines) && line == []
    {
      success := HasAvailableLine();
      line := [];
      if success {
        line := TakeLine();
      } else {
        TakeChunk(chunk);
      }
    }
  }

  lemma LineTaken(lines: seq<seq<byte>>, buffer: seq<byte>, i: nat)
    requires i < |buffer| && buffer[i] == NEWLINE && NEWLINE !in buffer[..i]
    ensures Newlines(buffer) == 1 + Newlines(buffer[i + 1..])
    ensures Wire(lines + [buffer[..i]]) + buffer[i + 1..] == Wire(lines) + buffer
  {
    var line, rest := buffer[..i], buffer[i + 1..];
    assert buffer == line + [NEWLINE] + rest;
    NewlinesOfConcat(line + [NEWLINE], rest);
    NewlinesOfConcat(line, [NEWLINE]);
    NoNewlines(line);
    assert [NEWLINE][..0] == [];
    assert (lines + [line])[..|lines|] == lines;
    assert Wire(lines + [line]) + rest == Wire(lines) + (line + [NEWLINE] + rest);
  }

  /**
   * Lines do not depend on the chunking: whatever two sockets did, if they received the same bytes
   * then one's lines are a prefix of the other's.
   */
  lemma {:induction false} LinesAreDetermined(a: seq<seq<byte>>, b: seq<seq<byte>>, restA: seq<byte>, restB: seq<byte>)
    requires AreLines(a) && AreLines(b)
    requires Wire(a) + restA == Wire(b) + restB
    requires |a| <= |b|
    ensures a == b[..|a|]
  {
    if a != [] {
      WireFront(a);
      WireFront(b);
      var wa, wb := Wire(a[1..]) + restA, Wire(b[1..]) + restB;
      assert Wire(a) + restA == a[0] + [NEWLINE] + wa;
      assert Wire(b) + restB == b[0] + [NEWLINE] + wb;
      FirstLine(a[0], b[0], wa, wb);
      LinesAreDetermined(a[1..], b[1..], restA, restB);
      assert a == [a[0]] + a[1..] && b[..|a|] == [b[0]] + b[1..][..|a| - 1];
    }
  }

  lemma {:induction false} WireFront(a: seq<seq<byte>>)
    requires a != []
    ensures Wire(a) == a[0] + [NEWLINE] + Wire(a[1..])
  {
    var front, last := a[..|a| - 1], a[|a| - 1];
    WireBack(a);
    if |a| == 1 {
      assert front == [] && a[1..] == [];
    } else {
      WireFront(front);
      WireBack(a[1..]);
      assert a[1..][..|a| - 2] == front[1..];
      hide Wire;
      Regrouped(front[0] + [NEWLINE], Wire(front[1..]), last + [NEWLINE]);
    }
  }

  lemma WireBack(a: seq<seq<byte>>)
    requires a != []
    ensures Wire(a) == Wire(a[..|a| - 1]) + (a[|a| - 1] + [NEWLINE])
  {
    Regrouped(Wire(a[..|a| - 1]), a[|a| - 1], [NEWLINE]);
  }

  lemma Regrouped(a: seq<byte>, b: seq<byte>, d: seq<byte>)
    ensures a + b + d == a + (b + d)
  {
  }

  lemma FirstLine(a: seq<byte>, b: seq<byte>, restA: seq<byte>, restB: seq<byte>)
    requires NEWLINE !in a && NEWLINE !in b
    requires a + [NEWLINE] + restA == b + [NEWLINE] + restB
    ensures a == b && restA == restB
  {
    NotLonger(a, b, restA, restB);
    NotLonger(b, a, restB, restA);
    var s, t := a + [NEWLINE] + restA, b + [NEWLINE] + restB;
    assert a == s[..|a|] == t[..|b|] == b;
    assert restA == s[|a| + 1..] == t[|b| + 1..] == restB;
  }

  lemma NotLonger(a: seq<byte>, b: seq<byte>, restA: seq<byte>, restB: seq<byte>)
    requires NEWLINE !in a
    requires a + [NEWLINE] + restA == b + [NEWLINE] + restB
    ensures |a| <= |b|
  {
    var s := a + [NEWLINE] + restA;
    assert s[|b|] == NEWLINE by {
      assert s == b + [NEWLINE] + restB;
    }
    assert forall k | 0 <= k < |a| :: s[k] == a[k];
  }
}
