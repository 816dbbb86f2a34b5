/** Which datagrams make a client give up, for everything that may be sent to it. */
module Verdicts {
  import opened Bytes
  import opened Names
  import opened Messages
  import opened PlayerList
  import opened Client
  import opened Reassembly
  import opened Rendering
  import opened Wire

  // ---- What a players field lists ----

  /** A zero byte, a tab, a line feed, a vertical tab, a form feed, a carriage return. */
  ghost predicate Gap(b: byte) {
    b == 0 || 9 <= b <= 13
  }

  /** A name stands at `k`, the first byte that is no gap, and ends at a gap or with the field. */
  ghost predicate NameAt(field: seq<byte>, k: nat, name: Text) {
    && k + |name| <= |field| && (forall i | 0 <= i < k :: Gap(field[i]))
    && field[k..k + |name|] == name && (k + |name| < |field| ==> Gap(field[k + |name|]))
  }

  /** The names one after the other, with gaps between, before and after. */
  ghost predicate Lists(field: seq<byte>, names: seq<Text>)
    decreases |names|
  {
    if names == [] then forall i | 0 <= i < |field| :: Gap(field[i])
    else exists k: nat | k + |names[0]| <= |field| ::
      NameAt(field, k, names[0]) && Lists(field[k + |names[0]|..], names[1..])
  }

  /** Printable names in strictly increasing order. */
  ghost predicate Announces(field: seq<byte>, names: seq<Text>) {
    Lists(field, names) && Increasing(names) && forall i | 0 <= i < |names| :: names[i] != [] && Printable(names[i])
  }

  /** A word holds no gap and no space. */
  ghost predicate Solid(name: Text) {
    name != [] && forall i | 0 <= i < |name| :: !Gap(name[i]) && name[i] != 32
  }

  ghost predicate AllSolid(names: seq<Text>) {
    forall i | 0 <= i < |names| :: Solid(names[i])
  }

  lemma WordsFirst(s: seq<byte>)
    ensures s == [] ==> Words(s) == []
    ensures s != [] && IsSpace(s[0]) ==> Words(s) == Words(s[1..])
    ensures s != [] && !IsSpace(s[0]) ==> Words(s) == [s[..WordLength(s)]] + Words(s[WordLength(s)..])
  {
  }

  lemma {:induction false} WordEnds(s: seq<byte>)
    ensures var k := WordLength(s);
            (forall i | 0 <= i < k :: !IsSpace(s[i])) && (k < |s| ==> IsSpace(s[k]))
  {
    if s != [] && !IsSpace(s[0]) {
      WordEnds(s[1..]);
    }
  }

  lemma ReplacedSlice(field: seq<byte>, k: nat)
    requires k <= |field|
    ensures Replace(field, 0, SPACE)[k..] == Replace(field[k..], 0, SPACE)
  {
  }

  lemma ListsFirst(field: seq<byte>, names: seq<Text>)
    ensures names == [] ==> (Lists(field, names) <==> forall i | 0 <= i < |field| :: Gap(field[i]))
    ensures names != [] ==>
              (Lists(field, names)
               <==> exists k: nat | k + |names[0]| <= |field| ::
                      NameAt(field, k, names[0]) && Lists(field[k + |names[0]|..], names[1..]))
  {
    hide NameAt;
  }

  lemma NameLater(field: seq<byte>, k: nat, name: Text)
    requires field != [] && Gap(field[0]) && Solid(name)
    ensures NameAt(field[1..], k, name) <==> NameAt(field, k + 1, name)
    ensures !NameAt(field, 0, name)
    ensures k + |name| < |field| ==> field[1..][k + |name|..] == field[k + 1 + |name|..]
  {
    var rest := field[1..];
    if k + |name| <= |rest| {
      assert rest[k..k + |name|] == field[k + 1..k + 1 + |name|];
      assert forall i | 0 <= i < k + 1 :: i > 0 ==> rest[i - 1] == field[i];
      assert forall i | 0 <= i < k :: rest[i] == field[i + 1];
    }
    if |name| <= |field| {
      assert field[0..|name|][0] == field[0];
    }
  }

  /** A gap at the front changes nothing. */
  lemma ListsLater(field: seq<byte>, names: seq<Text>)
    requires field != [] && Gap(field[0]) && AllSolid(names)
    ensures Lists(field, names) <==> Lists(field[1..], names)
  {
    hide *;
    var rest := field[1..];
    ListsFirst(field, names);
    ListsFirst(rest, names);
    if names == [] {
      assert forall i | 0 <= i < |rest| :: rest[i] == field[i + 1];
      assert forall i | 0 < i < |field| :: field[i] == rest[i - 1];
    } else {
      FirstSolid(names);
      if Lists(field, names) {
        var k: nat :| k + |names[0]| <= |field|
                    && NameAt(field, k, names[0]) && Lists(field[k + |names[0]|..], names[1..]);
        NameLater(field, 0, names[0]);
        NameLater(field, k - 1, names[0]);
      }
      if Lists(rest, names) {
        var k: nat :| k + |names[0]| <= |rest|
                    && NameAt(rest, k, names[0]) && Lists(rest[k + |names[0]|..], names[1..]);
        NameLater(field, k, names[0]);
      }
    }
  }

  lemma FirstSolid(names: seq<Text>)
    requires AllSolid(names) && names != []
    ensures Solid(names[0]) && AllSolid(names[1..])
  {
    hide Solid;
  }

  /** A name at the front is as long as it can be. */
  lemma NameHere(field: seq<byte>, k: nat, name: Text, n: nat)
    requires field != [] && !Gap(field[0]) && Solid(name) && n <= |field| && n > 0
    requires (forall i | 0 <= i < n :: !Gap(field[i])) && (n < |field| ==> Gap(field[n]))
    ensures NameAt(field, k, name) <==> k == 0 && name == field[..n]
  {
    if NameAt(field, k, name) {
      assert k == 0;
      assert forall i | 0 <= i < |name| :: name[i] == field[0..|name|][i] == field[i];
      assert |name| == n;
      assert field[0..n] == field[..n];
    }
    assert field[0..n] == field[..n];
  }

  /** Words are read exactly as listed. */
  lemma {:induction false} WordsExactlyWhen(field: seq<byte>, names: seq<Text>)
    requires 32 !in field && AllSolid(names)
    ensures Words(Replace(field, 0, SPACE)) == names <==> Lists(field, names)
    decreases |field|
  {
    hide *;
    var s := Replace(field, 0, SPACE);
    SpacesAre(field);
    WordsFirst(s);
    ListsFirst(field, names);
    if field == [] {
      if Lists(field, names) && names != [] {
        FirstSolid(names);
        var k: nat :| k + |names[0]| <= |field|
                    && NameAt(field, k, names[0]) && Lists(field[k + |names[0]|..], names[1..]);
        SolidIsLong(names[0]);
      }
    } else if Gap(field[0]) {
      ReplacedSlice(field, 1);
      ListsLater(field, names);
      WordsExactlyWhen(field[1..], names);
    } else {
      var n := WordLength(s);
      WordEnds(s);
      WordIsLong(s);
      ReplacedSlice(field, n);
      ReplacedWord(field, n);
      if names != [] {
        FirstSolid(names);
        WordsExactlyWhen(field[n..], names[1..]);
        forall k: nat ensures NameAt(field, k, names[0]) <==> k == 0 && names[0] == field[..n] {
          NameHere(field, k, names[0], n);
        }
        if names[0] == field[..n] {
          assert NameAt(field, 0, names[0]);
          assert field[0 + n..] == field[n..];
        }
        assert ([s[..n]] + Words(s[n..]))[1..] == Words(s[n..]);
        assert names == [names[0]] + names[1..];
      }
    }
  }

  lemma SolidIsLong(name: Text)
    requires Solid(name)
    ensures |name| > 0
  {
    hide Gap;
  }

  lemma WordIsLong(s: seq<byte>)
    requires s != [] && !IsSpace(s[0])
    ensures WordLength(s) > 0
  {
    hide IsSpace;
  }

  lemma SpacesAre(field: seq<byte>)
    requires 32 !in field
    ensures var s := Replace(field, 0, SPACE);
            |s| == |field| && forall i | 0 <= i < |field| :: IsSpace(s[i]) <==> Gap(field[i])
  {
  }

  lemma ReplacedWord(field: seq<byte>, n: nat)
    requires n <= |field| && forall i | 0 <= i < n :: !IsSpace(Replace(field, 0, SPACE)[i])
    ensures Replace(field, 0, SPACE)[..n] == field[..n]
  {
  }

  lemma {:induction false} NoSpaceListed(field: seq<byte>, names: seq<Text>)
    requires Lists(field, names) && AllSolid(names)
    ensures 32 !in field
    decreases |names|
  {
    hide *;
    ListsFirst(field, names);
    if names == [] {
      NoSpaceInGap(field);
    } else {
      var k: nat :| k + |names[0]| <= |field|
                    && NameAt(field, k, names[0]) && Lists(field[k + |names[0]|..], names[1..]);
      FirstSolid(names);
      NoSpaceListed(field[k + |names[0]|..], names[1..]);
      NoSpaceInName(field, k, names[0]);
    }
  }

  lemma NoSpaceInGap(field: seq<byte>)
    requires forall i | 0 <= i < |field| :: Gap(field[i])
    ensures 32 !in field
  {
  }

  lemma NoSpaceInName(field: seq<byte>, k: nat, name: Text)
    requires NameAt(field, k, name) && Solid(name) && 32 !in field[k + |name|..]
    ensures 32 !in field
  {
    SolidHasNoSpace(name);
    NoSpaceInGap(field[..k]);
    assert field == field[..k] + field[k..k + |name|] + field[k + |name|..];
  }

  lemma SolidHasNoSpace(name: Text)
    requires Solid(name)
    ensures 32 !in name
  {
  }

  lemma PrintableIsSolid(names: seq<Text>)
    requires forall i | 0 <= i < |names| :: names[i] != [] && Printable(names[i])
    ensures AllSolid(names)
  {
  }

  lemma NamesArePrintable(names: seq<Text>)
    ensures PlayerNames(names) <==> forall i | 0 <= i < |names| :: names[i] != [] && Printable(names[i])
    ensures PlayerNames(names) ==> AllValid(names)
  {
  }

  /** The client's names are those the field announces. */
  lemma ParsedExactlyWhen(field: seq<byte>, names: seq<Text>)
    ensures ParsePlayers(field) == Some(names) <==> Announces(field, names)
  {
    NamesArePrintable(names);
    if ParsePlayers(field) == Some(names) {
      ParsedAreNames(field);
      PrintableIsSolid(names);
      WordsExactlyWhen(field, names);
    }
    if Announces(field, names) {
      PrintableIsSolid(names);
      NoSpaceListed(field, names);
      WordsExactlyWhen(field, names);
    }
    hide Lists;
    hide Increasing;
    hide Words;
    hide AllSolid;
    hide PlayerNames;
    hide AllValid;
  }

  // ---- How many players there are ----

  lemma NumberedStays(names: seq<Text>)
    requires |names| > 0x100 && InOrder(Numbered(names[..|names| - 1]), names[..0x100])
    ensures Numbered(names) == Numbered(names[..|names| - 1])
  {
    NumberedStep(names, |names| - 1);
    NumberAgain(Numbered(names[..|names| - 1]), names[|names| - 1], names[..0x100]);
    hide Numbered;
    hide Number;
    hide InOrder;
  }

  lemma NumberAgain(m: map<nat, Text>, name: Text, first: seq<Text>)
    requires |first| == 0x100 && InOrder(m, first)
    ensures Number(m, name) == m
  {
    assert 0 in m;
  }

  lemma InOrderSize(m: map<nat, Text>, names: seq<Text>)
    requires InOrder(m, names)
    ensures |m| == |names|
  {
  }

  /** Numbers have eight bits: of a longer list only the first 256 names are numbered. */
  lemma {:induction false} LongList(names: seq<Text>)
    requires |names| >= 0x100
    ensures InOrder(Numbered(names), names[..0x100])
  {
    hide *;
    var n := |names| - 1;
    if n == 0xFF {
      NumberedInOrder(names);
      assert names[..0x100] == names;
    } else {
      LongList(names[..n]);
      assert names[..n][..0x100] == names[..0x100];
      NumberedStays(names);
    }
  }

  /** How many players a list makes: the counter has eight bits. */
  ghost function Players(names: seq<Text>): nat {
    if |names| < 256 then |names| else 0
  }

  lemma PlayersCounted(names: seq<Text>)
    ensures |Numbered(names)| % 0x100 == Players(names) && (|Numbered(names)| >= 2 <==> |names| >= 2)
  {
    hide Numbered;
    hide InOrder;
    if |names| < 0x100 {
      NumberedInOrder(names);
      InOrderSize(Numbered(names), names);
    } else {
      LongList(names);
      InOrderSize(Numbered(names), names[..0x100]);
    }
  }

  // ---- What a client does not take ----

  /** NEW_GAME that is not the first event or names fewer than two players; a player or a pixel that cannot be. */
  ghost predicate Offends(players: nat, maxx: nat, maxy: nat, e: Event) {
    match e.data
    case NewGame(_, _, field) => e.eventNo != 0 || !exists names :: Announces(field, names) && |names| >= 2
    case Pixel(no, x, y) => no >= players || x >= maxx || y >= maxy
    case PlayerEliminated(no) => no >= players
    case GameOver => false
    case UnknownEvent => false
  }

  ghost predicate SomeOffends(players: nat, maxx: nat, maxy: nat, es: seq<Event>) {
    exists i | 0 <= i < |es| :: Offends(players, maxx, maxy, es[i])
  }

  lemma InvalidOffends(cli: ClientState, e: Event)
    ensures !ValidEvent(cli, e) <==> Offends(cli.playersInGame, cli.maxx, cli.maxy, e)
  {
    hide ParsePlayers;
    hide Numbered;
    hide Announces;
    if e.data.NewGame? {
      var parsed := ParsePlayers(e.data.field);
      if parsed.Some? {
        ParsedExactlyWhen(e.data.field, parsed.value);
        PlayersCounted(parsed.value);
      }
      forall names | Announces(e.data.field, names) ensures parsed == Some(names) {
        ParsedExactlyWhen(e.data.field, names);
      }
    }
  }

  lemma KeepOnly(cli: ClientState, e: Event)
    ensures var k := Keep(cli, e);
            && k.playersInGame == cli.playersInGame && k.maxx == cli.maxx && k.maxy == cli.maxy
            && k.aborted == cli.aborted
  {
  }

  lemma ReadInFirst(cli: ClientState, es: seq<Event>)
    ensures ReadIn(cli, es) == if es == [] then cli
                               else if !ValidEvent(cli, es[0]) then cli.(aborted := true)
                               else ReadIn(Keep(cli, es[0]), es[1..])
  {
    hide ValidEvent;
    hide Keep;
  }

  lemma SomeOffendsFirst(players: nat, maxx: nat, maxy: nat, es: seq<Event>)
    ensures SomeOffends(players, maxx, maxy, es)
         <==> es != [] && (Offends(players, maxx, maxy, es[0]) || SomeOffends(players, maxx, maxy, es[1..]))
  {
    hide Offends;
    forall i | 0 < i < |es| ensures es[i] == es[1..][i - 1] {
    }
    if es != [] {
      var rest := es[1..];
      forall i | 0 <= i < |rest| ensures rest[i] == es[i + 1] {
      }
    }
  }

  lemma {:induction false} ReadInVerdict(cli: ClientState, es: seq<Event>)
    requires !cli.aborted
    ensures ReadIn(cli, es).aborted <==> SomeOffends(cli.playersInGame, cli.maxx, cli.maxy, es)
    decreases |es|
  {
    hide *;
    ReadInFirst(cli, es);
    SomeOffendsFirst(cli.playersInGame, cli.maxx, cli.maxy, es);
    if es != [] {
      InvalidOffends(cli, es[0]);
      KeepOnly(cli, es[0]);
      ReadInVerdict(Keep(cli, es[0]), es[1..]);
    }
  }

  /** The first NEW_GAME of a message is event `k`. */
  ghost predicate FirstAnnouncement(es: seq<Event>, k: nat) {
    k < |es| && es[k].data.NewGame? && forall i | 0 <= i < k :: !es[i].data.NewGame?
  }

  /** A message by which a game is entered: the board and the players are those of its first NEW_GAME. */
  ghost predicate OffendsOnEntry(es: seq<Event>) {
    exists k | 0 <= k < |es| :: FirstAnnouncement(es, k) && OffendsAs(es, k)
  }

  ghost predicate OffendsAs(es: seq<Event>, k: nat)
    requires k < |es| && es[k].data.NewGame?
  {
    var d := es[k].data;
    || !(exists names :: Announces(d.field, names))
    || exists names :: Announces(d.field, names) && SomeOffends(Players(names), d.maxx, d.maxy, es)
  }

  /** What the client does not take in a message of game `m.gameId`. */
  ghost predicate NotTaken(cli: ClientState, m: ServerMessage) {
    if cli.gameId == Some(m.gameId) then SomeOffends(cli.playersInGame, cli.maxx, cli.maxy, m.events)
    else m.gameId !in cli.seen && OffendsOnEntry(m.events)
  }

  lemma OneAnnouncement(es: seq<Event>)
    ensures var k := FirstNewGame(es);
            && (k < |es| ==> FirstAnnouncement(es, k))
            && forall n | 0 <= n < |es| :: FirstAnnouncement(es, n) ==> n == k
  {
    hide FirstNewGame;
  }

  lemma EntryVerdict(cli: ClientState, m: ServerMessage)
    requires !cli.aborted && m.gameId !in cli.seen
    ensures Mismatched(cli, m).aborted <==> OffendsOnEntry(m.events)
  {
    hide *;
    var es, start, k := m.events, Entered(cli, m), FirstNewGame(m.events);
    EnteredFields(cli, m);
    MismatchedSteps(cli, m);
    OneAnnouncement(es);
    EntryMeans(es, k);
    if k < |es| {
      if !ValidEvent(start, es[k]) {
        InvalidAnnouncement(start, es, k);
      } else {
        var d := es[k].data;
        ValidParses(start, es[k]);
        var names := ParsePlayers(d.field).value;
        InformedTells(start, d);
        PlayersCounted(names);
        ReadInVerdict(Informed(start, d), es);
        OnlyNames(d.field, names);
        OffendsAsMeans(es, k, names);
      }
    }
  }

  lemma EntryMeans(es: seq<Event>, k: nat)
    requires forall n | 0 <= n < |es| :: FirstAnnouncement(es, n) ==> n == k
    requires k < |es| ==> FirstAnnouncement(es, k)
    ensures k < |es| ==> es[k].data.NewGame?
    ensures OffendsOnEntry(es) <==> k < |es| && OffendsAs(es, k)
  {
    hide OffendsAs;
  }

  lemma ValidParses(cli: ClientState, e: Event)
    requires ValidEvent(cli, e) && e.data.NewGame?
    ensures ParsePlayers(e.data.field).Some?
  {
    hide ParsePlayers;
    hide Numbered;
  }

  lemma InformedTells(cli: ClientState, d: EventData)
    requires d.NewGame? && ParsePlayers(d.field).Some?
    ensures var i := Informed(cli, d);
            && i.maxx == d.maxx && i.maxy == d.maxy && i.aborted == cli.aborted
            && i.playersInGame == |Numbered(ParsePlayers(d.field).value)| % 0x100
  {
    hide ParsePlayers;
    hide Numbered;
  }

  lemma OnlyNames(field: seq<byte>, names: seq<Text>)
    requires ParsePlayers(field) == Some(names)
    ensures forall others :: Announces(field, others) <==> others == names
  {
    hide *;
    forall others ensures Announces(field, others) <==> others == names {
      ParsedExactlyWhen(field, others);
    }
  }

  lemma OffendsAsMeans(es: seq<Event>, k: nat, names: seq<Text>)
    requires k < |es| && es[k].data.NewGame?
    requires forall others :: Announces(es[k].data.field, others) <==> others == names
    ensures OffendsAs(es, k) <==> SomeOffends(Players(names), es[k].data.maxx, es[k].data.maxy, es)
  {
    hide Announces;
    hide SomeOffends;
    hide Players;
    assert Announces(es[k].data.field, names);
  }

  /** An announcement that is not accepted offends in every game. */
  lemma InvalidAnnouncement(cli: ClientState, es: seq<Event>, k: nat)
    requires k < |es| && es[k].data.NewGame? && !ValidEvent(cli, es[k])
    ensures OffendsAs(es, k)
  {
    InvalidOffends(cli, es[k]);
    hide Announces;
    hide ValidEvent;
    hide Players;
    var d := es[k].data;
    if names :| Announces(d.field, names) {
      assert Offends(Players(names), d.maxx, d.maxy, es[k]);
      assert SomeOffends(Players(names), d.maxx, d.maxy, es);
    }
  }

  /** Any message makes the client give up exactly when there is something in it that it does not take. */
  lemma GivesUpExactlyWhen(cli: ClientState, m: ServerMessage)
    requires !cli.aborted
    ensures Process(cli, m).aborted <==> NotTaken(cli, m)
  {
    hide *;
    ProcessSteps(cli, m);
    AcceptedIs(cli, m);
    NotTakenMeans(cli, m);
    if cli.gameId == Some(m.gameId) {
      ReadInVerdict(cli, m.events);
    } else if m.gameId !in cli.seen {
      EntryVerdict(cli, m);
    } else {
      MismatchedSteps(cli, m);
    }
    CaughtUpRuns(Accepted(cli, m));
    HandOverKeepsEvents(CaughtUp(Accepted(cli, m)));
  }

  lemma NotTakenMeans(cli: ClientState, m: ServerMessage)
    ensures NotTaken(cli, m) <==> if cli.gameId == Some(m.gameId)
                                  then SomeOffends(cli.playersInGame, cli.maxx, cli.maxy, m.events)
                                  else m.gameId !in cli.seen && OffendsOnEntry(m.events)
  {
    hide SomeOffends;
    hide OffendsOnEntry;
  }

  lemma CaughtUpRuns(cli: ClientState)
    ensures CaughtUp(cli).aborted == cli.aborted
  {
    hide FirstMissing;
  }

  /**
   * A datagram makes the client give up exactly when it is no message, or a message with something in it that the
   * client does not take; but one of more than 550 bytes is dropped.
   */
  lemma TakeExactlyWhen(cli: ClientState, buffer: seq<byte>, d: seq<byte>)
    requires !cli.aborted && Received(buffer, d)
    ensures |buffer| == INBOUND_BUFFER_SIZE && (|d| > 550 ==> Take(cli, buffer, |d|) == cli)
    ensures Take(cli, buffer, |d|).aborted
            <==> |d| <= 550 && forall m :: MessageOf(d, m) ==> NotTaken(cli, m)
  {
    ReceivedSize(buffer, d);
    forall m ensures DecodeMessage(buffer, |d|) == Some(m) <==> MessageOf(d, m) {
      DecodedExactlyWhen(buffer, d, m);
    }
    if DecodeMessage(buffer, |d|).Some? {
      GivesUpExactlyWhen(cli, DecodeMessage(buffer, |d|).value);
    }
    hide DecodeMessage;
    hide Process;
    hide MessageOf;
    hide NotTaken;
    hide Received;
  }

  lemma ReceivedSize(buffer: seq<byte>, d: seq<byte>)
    requires Received(buffer, d)
    ensures |buffer| == INBOUND_BUFFER_SIZE
  {
  }

  // ---- What a client keeps ----

  /** The first event of a number stays; of an accepted message every event arrives. */
  ghost predicate FirstCopies(was: map<nat, Event>, es: seq<Event>, all: map<nat, Event>) {
    && (forall n | n in was :: n in all && all[n] == was[n])
    && (forall i | 0 <= i < |es| :: es[i].eventNo in all)
    && (forall n | n in all && n !in was :: exists i | 0 <= i < |es| :: FirstOf(es, i, n) && all[n] == es[i])
  }

  ghost predicate FirstOf(es: seq<Event>, i: nat, n: nat)
    requires i < |es|
  {
    es[i].eventNo == n && forall k | 0 <= k < i :: es[k].eventNo != n
  }

  lemma KeptOne(cli: ClientState, e: Event)
    ensures Keep(cli, e).events
         == if e.eventNo in cli.events then cli.events else cli.events[e.eventNo := e]
  {
  }

  lemma OneMoreCopy(was: map<nat, Event>, now: map<nat, Event>, es: seq<Event>, all: map<nat, Event>)
    requires es != [] && FirstCopies(now, es[1..], all)
    requires now == if es[0].eventNo in was then was else was[es[0].eventNo := es[0]]
    ensures FirstCopies(was, es, all)
  {
    var rest := es[1..];
    assert es[0].eventNo in all;
    forall i | 0 <= i < |es| ensures es[i].eventNo in all {
      if i > 0 {
        assert es[i] == rest[i - 1];
      }
    }
    forall n | n in all && n !in was ensures exists i | 0 <= i < |es| :: FirstOf(es, i, n) && all[n] == es[i] {
      if n == es[0].eventNo {
        assert FirstOf(es, 0, n);
      } else {
        var i :| 0 <= i < |rest| && FirstOf(rest, i, n) && all[n] == rest[i];
        assert forall k | 0 < k < i + 1 :: es[k] == rest[k - 1];
        assert FirstOf(es, i + 1, n) && es[i + 1] == rest[i];
      }
    }
  }

  lemma {:induction false} ReadInKeepsFirst(cli: ClientState, es: seq<Event>)
    requires !cli.aborted && !ReadIn(cli, es).aborted
    ensures FirstCopies(cli.events, es, ReadIn(cli, es).events)
    decreases |es|
  {
    hide *;
    ReadInFirst(cli, es);
    if es == [] {
      NothingKept(cli.events);
    } else {
      KeptOne(cli, es[0]);
      KeepOnly(cli, es[0]);
      ReadInKeepsFirst(Keep(cli, es[0]), es[1..]);
      OneMoreCopy(cli.events, Keep(cli, es[0]).events, es, ReadIn(cli, es).events);
    }
  }

  lemma NothingKept(events: map<nat, Event>)
    ensures FirstCopies(events, [], events)
  {
  }

  /** What any message that is taken leaves of events. */
  lemma ProcessKeeps(cli: ClientState, m: ServerMessage)
    requires !cli.aborted && !NotTaken(cli, m)
    ensures var now, k := Process(cli, m).events, FirstNewGame(m.events);
            if cli.gameId == Some(m.gameId) then FirstCopies(cli.events, m.events, now)
            else if m.gameId in cli.seen then now == cli.events
            else if k < |m.events| then FirstCopies(map[], m.events, now)
            else now == map[]
  {
    hide *;
    var a, k := Accepted(cli, m), FirstNewGame(m.events);
    ProcessSteps(cli, m);
    GivesUpExactlyWhen(cli, m);
    AcceptedIs(cli, m);
    MismatchedSteps(cli, m);
    EnteredFields(cli, m);
    CaughtUpKeeps(a);
    HandOverKeepsEvents(CaughtUp(a));
    if cli.gameId == Some(m.gameId) {
      ReadInKeepsFirst(cli, m.events);
    } else if m.gameId !in cli.seen && k < |m.events| {
      var start := Entered(cli, m);
      ValidParses(start, m.events[k]);
      InformedTells(start, m.events[k].data);
      InformedKeeps(start, m.events[k].data);
      ReadInKeepsFirst(Informed(start, m.events[k].data), m.events);
    }
  }

  lemma CaughtUpKeeps(cli: ClientState)
    ensures CaughtUp(cli).events == cli.events && CaughtUp(cli).aborted == cli.aborted
  {
    hide FirstMissing;
  }

  lemma InformedKeeps(cli: ClientState, d: EventData)
    requires d.NewGame? && ParsePlayers(d.field).Some?
    ensures Informed(cli, d).events == cli.events
  {
    hide ParsePlayers;
    hide Numbered;
  }
}
