/** Cutting a log into datagrams: the greedy packing of fromEvents and its optimality. */
module Packing {
  import opened Bytes
  import opened Messages
  import opened Burst

  /** How many of the events fit in a datagram in which `reserved` bytes are taken. */
  function Fitting(es: seq<Event>, reserved: nat): (k: nat)
    ensures k <= |es|
  {
    if es == [] || reserved + EncodedSize(es[0]) > MAX_UDP_DATA_FIELD_SIZE then 0
    else 1 + Fitting(es[1..], reserved + EncodedSize(es[0]))
  }

  /** An event that fits in a datagram of its own. */
  predicate Fits(e: Event) {
    4 + EncodedSize(e) <= MAX_UDP_DATA_FIELD_SIZE
  }

  predicate AllFit(es: seq<Event>) {
    forall i | 0 <= i < |es| :: Fits(es[i])
  }

  predicate FitTogether(es: seq<Event>) {
    4 + TotalSize(es) <= MAX_UDP_DATA_FIELD_SIZE
  }

  /** The loop of fromEvents. */
  method FromEvents(gameId: nat, log: seq<Event>, from: nat) returns (itemsRead: nat, msg: ServerMessage)
    requires from <= |log|
    ensures itemsRead == Fitting(log[from..], 4)
    ensures msg == ServerMessage(gameId, log[from..from + itemsRead])
  {
    var pickedEvents, reservedSize, it := [], 4, from;
    while it != |log|
      invariant from <= it <= |log| && reservedSize >= 4
      invariant pickedEvents == log[from..it]
      invariant Fitting(log[from..], 4) == it - from + Fitting(log[it..], reservedSize)
      decreases |log| - it
    {
      var eventSize := EncodedSize(log[it]);
      assert log[it..][1..] == log[it + 1..];
      if reservedSize + eventSize > MAX_UDP_DATA_FIELD_SIZE {
        break;
      }
      reservedSize := reservedSize + eventSize;
      pickedEvents := pickedEvents + [log[it]];
      it := it + 1;
    }
    itemsRead, msg := |pickedEvents|, ServerMessage(gameId, pickedEvents);
  }

  /** A datagram holds as many events as fit, and not one more would. */
  lemma {:induction false} FittingIsMaximal(es: seq<Event>, reserved: nat)
    requires reserved <= MAX_UDP_DATA_FIELD_SIZE
    ensures var k := Fitting(es, reserved);
            && reserved + TotalSize(es[..k]) <= MAX_UDP_DATA_FIELD_SIZE
            && (k < |es| ==> reserved + TotalSize(es[..k + 1]) > MAX_UDP_DATA_FIELD_SIZE)
  {
    var k := Fitting(es, reserved);
    if es != [] {
      if k == 0 {
        assert es[..1][1..] == [];
      } else {
        FittingIsMaximal(es[1..], reserved + EncodedSize(es[0]));
        assert es[..k][1..] == es[1..][..k - 1];
        if k < |es| {
          assert es[..k + 1][1..] == es[1..][..k];
        }
      }
    }
  }

  /** Any prefix that fits is no longer than the greedy one. */
  lemma {:induction false} FittingIsLongest(es: seq<Event>, reserved: nat, n: nat)
    requires n <= |es| && reserved + TotalSize(es[..n]) <= MAX_UDP_DATA_FIELD_SIZE
    ensures n <= Fitting(es, reserved)
  {
    if n > 0 {
      assert es[..n][1..] == es[1..][..n - 1];
      FittingIsLongest(es[1..], reserved + EncodedSize(es[0]), n - 1);
    }
  }

  // ---- The whole log, cut by repeated fromEvents ----

  function Cut(es: seq<Event>): (chunks: seq<seq<Event>>)
    requires AllFit(es)
    decreases |es|
  {
    if es == [] then []
    else
      var k := Fitting(es, 4);
      [es[..k]] + Cut(es[k..])
  }

  function Flatten(chunks: seq<seq<Event>>): seq<Event> {
    if chunks == [] then [] else chunks[0] + Flatten(chunks[1..])
  }

  lemma CutUnfolds(es: seq<Event>)
    requires AllFit(es) && es != []
    ensures var k := Fitting(es, 4);
            0 < k && AllFit(es[k..]) && Cut(es) == [es[..k]] + Cut(es[k..])
  {
    assert Fits(es[0]);
  }

  lemma NothingToCut()
    ensures Cut([]) == [] && Flatten([]) == []
  {
  }

  lemma FlattenFirst(first: seq<Event>, rest: seq<seq<Event>>)
    ensures Flatten([first] + rest) == first + Flatten(rest)
  {
    assert ([first] + rest)[1..] == rest;
  }

  lemma FirstOfFlattened(chunks: seq<seq<Event>>)
    requires chunks != [] && chunks[0] != []
    ensures Flatten(chunks) != [] && Flatten(chunks)[0] == chunks[0][0]
  {
  }

  lemma GreedyIsMaximal(es: seq<Event>)
    ensures var k := Fitting(es, 4); FitTogether(es[..k]) && (k < |es| ==> !FitTogether(es[..k + 1]))
  {
    FittingIsMaximal(es, 4);
    hide Fitting;
    hide TotalSize;
  }

  /** The datagrams cover the log exactly once, in order; each fits and, but for the last, is full. */
  lemma {:induction false} CutCovers(es: seq<Event>)
    requires AllFit(es)
    ensures Flatten(Cut(es)) == es
    ensures forall i | 0 <= i < |Cut(es)| :: FitTogether(Cut(es)[i]) && Cut(es)[i] != []
    ensures forall i | 0 <= i < |Cut(es)| - 1 :: !FitTogether(Cut(es)[i] + [Cut(es)[i + 1][0]])
    decreases |es|
  {
    hide *;
    if es == [] {
      NothingToCut();
    } else {
      var k := Fitting(es, 4);
      CutUnfolds(es);
      GreedyIsMaximal(es);
      var rest := Cut(es[k..]);
      CutCovers(es[k..]);
      FlattenFirst(es[..k], rest);
      assert es == es[..k] + es[k..];
      if rest != [] {
        FirstOfFlattened(rest);
        assert es[..k] + [es[k]] == es[..k + 1];
      } else {
        NothingToCut();
      }
    }
  }

  lemma GreedyReach(es: seq<Event>, n: nat)
    requires n <= Fitting(es, 4)
    ensures Fitting(es, 4) <= n + Fitting(es[n..], 4)
  {
    var k, rest := Fitting(es, 4), es[n..];
    FittingIsMaximal(es, 4);
    assert es[..k] == es[..n] + es[n..k] && rest[..k - n] == es[n..k];
    TotalSizeOfConcat(es[..n], es[n..k]);
    hide Fitting;
    FittingIsLongest(rest, 4, k - n);
  }

  lemma DroppedFit(es: seq<Event>, n: nat)
    requires AllFit(es) && n <= |es|
    ensures AllFit(es[n..])
  {
    hide Fits;
  }

  lemma {:induction false} ShorterLogFewerChunks(es: seq<Event>, n: nat)
    requires AllFit(es) && n <= |es|
    ensures AllFit(es[n..]) && |Cut(es[n..])| <= |Cut(es)|
    decreases |es|
  {
    hide *;
    DroppedFit(es, n);
    if n == |es| {
      assert es[n..] == [];
      NothingToCut();
    } else {
      var k := Fitting(es, 4);
      CutUnfolds(es);
      if n < k {
        GreedyReach(es, n);
        CutUnfolds(es[n..]);
        var j := Fitting(es[n..], 4);
        DropDrop(es, n, j);
        DropDrop(es, k, n + j - k);
        ShorterLogFewerChunks(es[k..], n + j - k);
      } else {
        DropDrop(es, k, n - k);
        ShorterLogFewerChunks(es[k..], n - k);
      }
    }
  }

  lemma GreedyAtLeast(es: seq<Event>, n: nat)
    requires n <= |es| && FitTogether(es[..n])
    ensures n <= Fitting(es, 4)
  {
    FittingIsLongest(es, 4, n);
    hide Fitting;
    hide TotalSize;
  }

  lemma FlattenSplit(chunks: seq<seq<Event>>)
    requires chunks != []
    ensures Flatten(chunks) == chunks[0] + Flatten(chunks[1..])
  {
  }

  /** No way of splitting the log into datagrams uses fewer of them. */
  lemma {:induction false} CutIsOptimal(es: seq<Event>, chunks: seq<seq<Event>>)
    requires AllFit(es) && Flatten(chunks) == es
    requires forall i | 0 <= i < |chunks| :: FitTogether(chunks[i])
    ensures |Cut(es)| <= |chunks|
    decreases |chunks|
  {
    hide *;
    NothingToCut();
    if es != [] {
      FlattenSplit(chunks);
      var n, k := |chunks[0]|, Fitting(es, 4);
      assert es[..n] == chunks[0] && es[n..] == Flatten(chunks[1..]);
      CutUnfolds(es);
      GreedyAtLeast(es, n);
      DroppedFit(es, n);
      CutIsOptimal(es[n..], chunks[1..]);
      DropDrop(es, n, k - n);
      ShorterLogFewerChunks(es[n..], k - n);
    }
  }
}
