/** What the GUI reads: a reader of its lines, stated apart from the writer, gets back what happened in the game. */
module Screen {
  import opened Bytes
  import opened Names
  import opened Messages
  import opened PlayerList
  import opened Logs
  import opened Grammar
  import opened Client
  import opened Reassembly
  import opened Rendering
  import opened EndToEnd
  import opened Game

  // ---- Numbers ----

  predicate IsDigit(c: byte) {
    48 <= c <= 57
  }

  predicate IsNumber(s: Text) {
    s != [] && forall i | 0 <= i < |s| :: IsDigit(s[i])
  }

  /** Digits are read from left to right. */
  function Value(s: Text): nat
    requires forall i | 0 <= i < |s| :: IsDigit(s[i])
  {
    if s == [] then 0
    else
      assert IsDigit(s[|s| - 1]);
      10 * Value(s[..|s| - 1]) + (s[|s| - 1] as nat - 48)
  }

  /** A number is shown in decimal, without leading zeros. */
  lemma {:induction false} DecimalReads(n: nat)
    ensures IsNumber(Decimal(n)) && Value(Decimal(n)) == n
    ensures Decimal(n)[0] == 48 ==> n == 0 && |Decimal(n)| == 1
  {
    if n >= 10 {
      DecimalReads(n / 10);
      var front, last := Decimal(n / 10), (48 + n % 10) as byte;
      assert (front + [last])[..|front|] == front;
    }
  }

  // ---- Words ----

  predicate Lacks(s: Text, c: byte) {
    forall i | 0 <= i < |s| :: s[i] != c
  }

  /** The pieces of a text between its separators. */
  function Split(s: Text, c: byte): (pieces: seq<Text>)
    ensures pieces != []
  {
    if s == [] then [[]]
    else
      var rest := Split(s[1..], c);
      if s[0] == c then [[]] + rest else [[s[0]] + rest[0]] + rest[1..]
  }

  lemma SplitHead(s: Text, c: byte)
    requires s != []
    ensures var rest := Split(s[1..], c);
            Split(s, c) == if s[0] == c then [[]] + rest else [[s[0]] + rest[0]] + rest[1..]
  {
  }

  lemma {:induction false} SplitPiece(s: Text, c: byte)
    requires Lacks(s, c)
    ensures Split(s, c) == [s]
  {
    if s != [] {
      SplitPiece(s[1..], c);
      assert [s[0]] + s[1..] == s;
    }
  }

  lemma {:induction false} SplitFirst(a: Text, b: Text, c: byte)
    requires Lacks(a, c)
    ensures Split(a + [c] + b, c) == [a] + Split(b, c)
  {
    var s := a + [c] + b;
    if a == [] {
      assert s[0] == c && s[1..] == b;
    } else {
      SplitFirst(a[1..], b, c);
      assert s[0] == a[0] && s[1..] == a[1..] + [c] + b;
      assert [a[0]] + a[1..] == a;
    }
  }

  lemma LacksSum(a: Text, b: Text, c: byte)
    ensures Lacks(a + b, c) <==> Lacks(a, c) && Lacks(b, c)
  {
    if Lacks(a + b, c) {
      assert forall i | 0 <= i < |a| :: a[i] == (a + b)[i];
      assert forall i | 0 <= i < |b| :: b[i] == (a + b)[|a| + i];
    }
  }

  lemma LacksOne(d: byte, c: byte)
    requires c != d
    ensures Lacks([d], c)
  {
  }

  // ---- Lines ----

  const GAP: byte := 32
  const BREAK: byte := 10

  const WORD_GAME: Text := [78, 69, 87, 95, 71, 65, 77, 69]
  const WORD_PIXEL: Text := [80, 73, 88, 69, 76]
  const WORD_DEATH: Text := [80, 76, 65, 89, 69, 82, 95, 69, 76, 73, 77, 73, 78, 65, 84, 69, 68]

  datatype Shown =
    | ShownGame(maxx: nat, maxy: nat, names: seq<Text>)
    | ShownPixel(x: nat, y: nat, name: Text)
    | ShownDeath(name: Text)

  /** The reader of the GUI's protocol: NEW_GAME maxx maxy name ..., PIXEL x y name, PLAYER_ELIMINATED name. */
  function ReadLine(line: Text): Option<Shown> {
    var words := Split(line, GAP);
    if words[0] == WORD_GAME && |words| >= 3 && IsNumber(words[1]) && IsNumber(words[2]) then
      Some(ShownGame(Value(words[1]), Value(words[2]), words[3..]))
    else if words[0] == WORD_PIXEL && |words| == 4 && IsNumber(words[1]) && IsNumber(words[2]) then
      Some(ShownPixel(Value(words[1]), Value(words[2]), words[3]))
    else if words[0] == WORD_DEATH && |words| == 2 then Some(ShownDeath(words[1]))
    else None
  }

  /** The names by number. */
  function NameList(names: map<nat, Text>, n: nat): seq<Text> {
    seq(n, i requires 0 <= i < n => NameOf(names, i))
  }

  /** What the reader is to learn of an event, if anything. */
  function ShownOf(e: Event, names: map<nat, Text>): seq<Shown> {
    match e.data
    case NewGame(maxx, maxy, _) => [ShownGame(maxx, maxy, NameList(names, |names| % 0x100))]
    case Pixel(no, x, y) => [ShownPixel(x, y, NameOf(names, no))]
    case PlayerEliminated(no) => [ShownDeath(NameOf(names, no))]
    case GameOver => []
    case UnknownEvent => []
  }

  /** Names that can stand in a line. */
  predicate Plainly(names: map<nat, Text>) {
    forall k | k in names :: Lacks(names[k], GAP) && Lacks(names[k], BREAK)
  }

  lemma Letters()
    ensures Ascii("NEW_GAME ") == WORD_GAME + [GAP] && Ascii("PIXEL ") == WORD_PIXEL + [GAP]
    ensures Ascii("PLAYER_ELIMINATED ") == WORD_DEATH + [GAP] && Ascii("\n") == [BREAK] && SPACE == GAP
    ensures Lacks(WORD_GAME, GAP) && Lacks(WORD_PIXEL, GAP) && Lacks(WORD_DEATH, GAP)
    ensures Lacks(WORD_GAME, BREAK) && Lacks(WORD_PIXEL, BREAK) && Lacks(WORD_DEATH, BREAK)
    ensures WORD_GAME != WORD_PIXEL && WORD_GAME != WORD_DEATH && WORD_PIXEL != WORD_DEATH
  {
    assert |WORD_GAME| == 8 && |WORD_PIXEL| == 5 && |WORD_DEATH| == 17;
  }

  lemma NameLacks(names: map<nat, Text>, no: nat)
    requires Plainly(names)
    ensures Lacks(NameOf(names, no), GAP) && Lacks(NameOf(names, no), BREAK)
  {
  }

  lemma NumberLacks(n: nat)
    ensures Lacks(Decimal(n), GAP) && Lacks(Decimal(n), BREAK)
  {
    DecimalReads(n);
    hide Decimal;
  }

  lemma {:induction false} SplitLast(a: Text, b: Text, c: byte)
    requires Lacks(b, c)
    ensures Split(a + [c] + b, c) == Split(a, c) + [b]
  {
    var s := a + [c] + b;
    if a == [] {
      assert s[0] == c && s[1..] == b;
      SplitPiece(b, c);
    } else {
      SplitLast(a[1..], b, c);
      assert s[0] == a[0] && s[1..] == a[1..] + [c] + b;
    }
  }

  lemma {:induction false} SpacedSplit(front: Text, names: map<nat, Text>, n: nat)
    requires Plainly(names)
    ensures Split(front + SpacedNames(names, n), GAP) == Split(front, GAP) + NameList(names, n)
    ensures Lacks(SpacedNames(names, n), BREAK)
  {
    hide *;
    NothingSpaced(front, names);
    if n > 0 {
      var name := NameOf(names, n - 1);
      SpacedSplit(front, names, n - 1);
      NameLacks(names, n - 1);
      SplitLast(front + SpacedNames(names, n - 1), name, GAP);
      SpacedMore(front, names, n);
      Breaks();
      LacksOne(GAP, BREAK);
      LacksSum(SpacedNames(names, n - 1), [GAP], BREAK);
      LacksSum(SpacedNames(names, n - 1) + [GAP], name, BREAK);
      Associative(Split(front, GAP), NameList(names, n - 1), [name]);
    }
  }

  lemma Breaks()
    ensures GAP != BREAK
  {
  }

  lemma NothingSpaced(front: Text, names: map<nat, Text>)
    ensures front + SpacedNames(names, 0) == front && NameList(names, 0) == [] && Lacks(SpacedNames(names, 0), BREAK)
    ensures Split(front, GAP) + [] == Split(front, GAP)
  {
  }

  lemma SpacedMore(front: Text, names: map<nat, Text>, n: nat)
    requires n > 0
    ensures SpacedNames(names, n) == SpacedNames(names, n - 1) + [GAP] + NameOf(names, n - 1)
    ensures front + SpacedNames(names, n) == front + SpacedNames(names, n - 1) + [GAP] + NameOf(names, n - 1)
    ensures NameList(names, n) == NameList(names, n - 1) + [NameOf(names, n - 1)]
  {
    hide NameOf;
  }

  /** The words of a line that begins with a word, two numbers and possibly more. */
  lemma NumbersSplit(word: Text, x: nat, y: nat)
    requires Lacks(word, GAP)
    ensures Split(word + [GAP] + Decimal(x) + [GAP] + Decimal(y), GAP) == [word, Decimal(x), Decimal(y)]
  {
    NumberLacks(x);
    NumberLacks(y);
    hide Decimal;
    SplitPiece(word, GAP);
    SplitLast(word, Decimal(x), GAP);
    SplitLast(word + [GAP] + Decimal(x), Decimal(y), GAP);
    hide Split;
  }

  lemma BodyLacks(word: Text, x: nat, y: nat)
    requires Lacks(word, BREAK)
    ensures Lacks(word + [GAP] + Decimal(x) + [GAP] + Decimal(y), BREAK)
  {
    hide *;
    Breaks();
    NumberLacks(x);
    NumberLacks(y);
    LacksOne(GAP, BREAK);
    LacksSum(word, [GAP], BREAK);
    LacksSum(word + [GAP], Decimal(x), BREAK);
    LacksSum(word + [GAP] + Decimal(x), [GAP], BREAK);
    LacksSum(word + [GAP] + Decimal(x) + [GAP], Decimal(y), BREAK);
  }

  /** The line without its end. */
  lemma ReadGame(maxx: nat, maxy: nat, names: map<nat, Text>, n: nat)
    requires Plainly(names)
    ensures var body := WORD_GAME + [GAP] + Decimal(maxx) + [GAP] + Decimal(maxy) + SpacedNames(names, n);
            ReadLine(body) == Some(ShownGame(maxx, maxy, NameList(names, n))) && Lacks(body, BREAK)
  {
    Letters();
    NumbersSplit(WORD_GAME, maxx, maxy);
    SpacedSplit(WORD_GAME + [GAP] + Decimal(maxx) + [GAP] + Decimal(maxy), names, n);
    DecimalReads(maxx);
    DecimalReads(maxy);
    NumberLacks(maxx);
    NumberLacks(maxy);
    BodyLacks(WORD_GAME, maxx, maxy);
    LacksSum(WORD_GAME + [GAP] + Decimal(maxx) + [GAP] + Decimal(maxy), SpacedNames(names, n), BREAK);
    hide Lacks;
    hide Split;
    hide Decimal;
    hide SpacedNames;
    hide NameList;
    hide Value;
    hide IsNumber;
    hide WORD_GAME;
    hide WORD_PIXEL;
    hide WORD_DEATH;
  }

  lemma ReadPixel(x: nat, y: nat, name: Text)
    requires Lacks(name, GAP) && Lacks(name, BREAK)
    ensures var body := WORD_PIXEL + [GAP] + Decimal(x) + [GAP] + Decimal(y) + [GAP] + name;
            ReadLine(body) == Some(ShownPixel(x, y, name)) && Lacks(body, BREAK)
  {
    Letters();
    NumbersSplit(WORD_PIXEL, x, y);
    SplitLast(WORD_PIXEL + [GAP] + Decimal(x) + [GAP] + Decimal(y), name, GAP);
    DecimalReads(x);
    DecimalReads(y);
    NumberLacks(x);
    NumberLacks(y);
    BodyLacks(WORD_PIXEL, x, y);
    LacksOne(GAP, BREAK);
    LacksSum(WORD_PIXEL + [GAP] + Decimal(x) + [GAP] + Decimal(y), [GAP], BREAK);
    LacksSum(WORD_PIXEL + [GAP] + Decimal(x) + [GAP] + Decimal(y) + [GAP], name, BREAK);
    hide Lacks;
    hide Split;
    hide Decimal;
    hide Value;
    hide IsNumber;
    hide WORD_GAME;
    hide WORD_PIXEL;
    hide WORD_DEATH;
  }

  lemma ReadDeath(name: Text)
    requires Lacks(name, GAP) && Lacks(name, BREAK)
    ensures var body := WORD_DEATH + [GAP] + name;
            ReadLine(body) == Some(ShownDeath(name)) && Lacks(body, BREAK)
  {
    hide *;
    Letters();
    Breaks();
    SplitPiece(WORD_DEATH, GAP);
    SplitLast(WORD_DEATH, name, GAP);
    DeathWords(WORD_DEATH + [GAP] + name, name);
    LacksOne(GAP, BREAK);
    LacksSum(WORD_DEATH, [GAP], BREAK);
    LacksSum(WORD_DEATH + [GAP], name, BREAK);
  }

  lemma DeathWords(line: Text, name: Text)
    requires Split(line, GAP) == [WORD_DEATH] + [name]
    ensures ReadLine(line) == Some(ShownDeath(name))
  {
    Letters();
    hide Split;
    hide IsNumber;
    hide Value;
    hide Lacks;
    hide Ascii;
    hide WORD_GAME;
    hide WORD_PIXEL;
    hide WORD_DEATH;
  }

  // ---- The whole text ----

  /** All lines of a text; the piece behind the last line end is empty. */
  function ReadLines(lines: seq<Text>): Option<seq<Shown>> {
    if lines == [] then Some([])
    else
      match (ReadLines(lines[..|lines| - 1]), ReadLine(lines[|lines| - 1]))
      case (Some(front), Some(last)) => Some(front + [last])
      case _ => None
  }

  function ReadText(text: Text): Option<seq<Shown>> {
    var lines := Split(text, BREAK);
    if lines[|lines| - 1] == [] then ReadLines(lines[..|lines| - 1]) else None
  }

  /** One line more. */
  lemma ReadNext(text: Text, body: Text, front: seq<Shown>, last: Shown)
    requires ReadText(text) == Some(front) && ReadLine(body) == Some(last) && Lacks(body, BREAK)
    ensures ReadText(text + (body + [BREAK])) == Some(front + [last])
  {
    var lines := Split(text, BREAK);
    var all := Split(text + (body + [BREAK]), BREAK);
    TwoMore(text, body);
    hide ReadLine;
    hide Split;
    assert all[..|all| - 1] == lines[..|lines| - 1] + [body];
    assert (lines[..|lines| - 1] + [body])[..|lines| - 1] == lines[..|lines| - 1];
  }

  lemma EmptyPieceFirst(rest: seq<Text>, all: seq<Text>, end: seq<Text>)
    requires rest != [] && all == rest[..|rest| - 1] + end
    ensures [[]] + all == ([[]] + rest)[..|rest|] + end
  {
  }

  lemma LongerPieceFirst(rest: seq<Text>, all: seq<Text>, end: seq<Text>, b: byte)
    requires |rest| >= 2 && all == rest[..|rest| - 1] + end
    ensures [[b] + all[0]] + all[1..] == ([[b] + rest[0]] + rest[1..])[..|rest| - 1] + end
  {
  }

  lemma OneLine(body: Text)
    requires Lacks(body, BREAK)
    ensures Split([] + (body + [BREAK]), BREAK) == Split([], BREAK)[..|Split([], BREAK)| - 1] + [body, []]
  {
    SplitFirst(body, [], BREAK);
    assert Split([], BREAK) == [[]];
    assert [] + (body + [BREAK]) == body + [BREAK] + [];
    assert [body] + [[]] == [] + [body, []];
  }

  lemma TailOfSum(a: Text, b: Text)
    requires a != []
    ensures a + b != [] && (a + b)[0] == a[0] && (a + b)[1..] == a[1..] + b
  {
  }

  /** A text that ends in a line end, and a line more. */
  lemma {:induction false} TwoMore(text: Text, body: Text)
    requires Lacks(body, BREAK) && Split(text, BREAK)[|Split(text, BREAK)| - 1] == []
    ensures Split(text + (body + [BREAK]), BREAK)
         == Split(text, BREAK)[..|Split(text, BREAK)| - 1] + [body, []]
  {
    hide *;
    var line := body + [BREAK];
    if text == [] {
      OneLine(body);
    } else {
      var rest, all := Split(text[1..], BREAK), Split(text[1..] + line, BREAK);
      SplitHead(text, BREAK);
      TailOfSum(text, line);
      SplitHead(text + line, BREAK);
      LastOfLonger(rest, text[0], BREAK);
      TwoMore(text[1..], body);
      if text[0] == BREAK {
        EmptyPieceFirst(rest, all, [body, []]);
      } else {
        LongerPieceFirst(rest, all, [body, []], text[0]);
      }
    }
  }

  lemma LastOfLonger(rest: seq<Text>, b: byte, c: byte)
    requires rest != []
    ensures var pieces := if b == c then [[]] + rest else [[b] + rest[0]] + rest[1..];
            pieces[|pieces| - 1] == [] ==> rest[|rest| - 1] == [] && (b != c ==> |rest| >= 2)
  {
  }

  /** An event that is shown adds its line, and the reader gets it back. */
  lemma ReadEvent(text: Text, front: seq<Shown>, e: Event, names: map<nat, Text>)
    requires ReadText(text) == Some(front) && Plainly(names)
    ensures ReadText(text + GuiLine(e, names)) == Some(front + ShownOf(e, names))
  {
    Letters();
    hide ReadText;
    hide Decimal;
    hide ReadLine;
    hide SpacedNames;
    hide NameOf;
    hide Ascii;
    hide Lacks;
    hide WORD_GAME;
    hide WORD_PIXEL;
    hide WORD_DEATH;
    match e.data
    case NewGame(maxx, maxy, _) =>
      var n := |names| % 0x100;
      var body := WORD_GAME + [GAP] + Decimal(maxx) + [GAP] + Decimal(maxy) + SpacedNames(names, n);
      ReadGame(maxx, maxy, names, n);
      ReadNext(text, body, front, ShownGame(maxx, maxy, NameList(names, n)));
    case Pixel(no, x, y) =>
      var body := WORD_PIXEL + [GAP] + Decimal(x) + [GAP] + Decimal(y) + [GAP] + NameOf(names, no);
      NameLacks(names, no);
      ReadPixel(x, y, NameOf(names, no));
      ReadNext(text, body, front, ShownPixel(x, y, NameOf(names, no)));
    case PlayerEliminated(no) =>
      var body := WORD_DEATH + [GAP] + NameOf(names, no);
      NameLacks(names, no);
      ReadDeath(NameOf(names, no));
      ReadNext(text, body, front, ShownDeath(NameOf(names, no)));
    case GameOver =>
      assert text + [] == text && front + [] == front;
    case UnknownEvent =>
      assert text + [] == text && front + [] == front;
  }

  function ShownAll(es: seq<Event>, names: map<nat, Text>): seq<Shown> {
    if es == [] then [] else ShownAll(es[..|es| - 1], names) + ShownOf(es[|es| - 1], names)
  }

  lemma {:induction false} ReadEvents(text: Text, front: seq<Shown>, es: seq<Event>, names: map<nat, Text>)
    requires ReadText(text) == Some(front) && Plainly(names)
    ensures ReadText(text + Lines(es, names)) == Some(front + ShownAll(es, names))
  {
    hide ReadText;
    hide GuiLine;
    hide ShownOf;
    hide Plainly;
    if es == [] {
      assert text + [] == text && front + [] == front;
    } else {
      var n := |es| - 1;
      ReadEvents(text, front, es[..n], names);
      ReadEvent(text + Lines(es[..n], names), front + ShownAll(es[..n], names), es[n], names);
      assert text + Lines(es, names) == text + Lines(es[..n], names) + GuiLine(es[n], names);
      assert front + ShownAll(es, names) == front + ShownAll(es[..n], names) + ShownOf(es[n], names);
    }
  }

  lemma ValidLacks(name: Text)
    requires ValidName(name)
    ensures Lacks(name, GAP) && Lacks(name, BREAK)
  {
  }

  lemma RosterPlain(log: seq<Event>)
    ensures Plainly(Numbered(Roster(log)))
  {
    NamesOfRoster(log);
    hide Roster;
    hide Lacks;
    hide PlayerName;
    NumberedPlain(Roster(log));
  }

  lemma NamesOfRoster(log: seq<Event>)
    ensures forall i | 0 <= i < |Roster(log)| :: PlayerName(Roster(log)[i])
  {
    if Roster(log) != [] {
      ParsedAreNames(log[0].data.field);
    }
    hide ParsePlayers;
  }

  lemma {:induction false} NumberedPlain(names: seq<Text>)
    requires forall i | 0 <= i < |names| :: PlayerName(names[i])
    ensures Plainly(Numbered(names))
  {
    if names != [] {
      var n := |names| - 1;
      NumberedPlain(names[..n]);
      ValidLacks(names[n]);
      hide Lacks;
    }
  }

  lemma {:induction false} KnownPlain(blocks: seq<GameLog>, announced: seq<bool>)
    requires |blocks| == |announced|
    ensures Plainly(Known(blocks, announced))
  {
    hide Numbered;
    hide Roster;
    if blocks != [] {
      if announced[|announced| - 1] {
        RosterPlain(Last(blocks).events);
      } else {
        KnownPlain(Front(blocks), Front(announced));
      }
    }
  }

  /** What the reader is to learn of a list of games. */
  function ShownGames(blocks: seq<GameLog>, announced: seq<bool>): seq<Shown>
    requires |blocks| == |announced|
  {
    if blocks == [] then []
    else ShownGames(Front(blocks), Front(announced)) + ShownAll(Last(blocks).events, Known(blocks, announced))
  }

  lemma {:induction false} ReadGames(blocks: seq<GameLog>, announced: seq<bool>)
    requires |blocks| == |announced|
    ensures ReadText(GuiText(blocks, announced)) == Some(ShownGames(blocks, announced))
  {
    if blocks == [] {
      assert Split([], BREAK) == [[]];
    } else {
      hide ReadText;
      hide Lines;
      hide ShownAll;
      hide Known;
      ReadGames(Front(blocks), Front(announced));
      KnownPlain(blocks, announced);
      ReadEvents(GuiText(Front(blocks), Front(announced)), ShownGames(Front(blocks), Front(announced)),
                 Last(blocks).events, Known(blocks, announced));
    }
  }

  /** In any run, the GUI reads exactly the events handed over, with their numbers and names. */
  lemma GuiReadsTheGames(c: Config, seed: nat, actions: seq<Action>)
    requires seed < U32 && NoNumberTwice(Run(c, Start(seed), actions))
    ensures var cli := Run(c, Start(seed), actions).client;
            |cli.blocks| == |cli.announced| && ReadText(cli.text) == Some(ShownGames(cli.blocks, cli.announced))
  {
    var cli := Run(c, Start(seed), actions).client;
    HonestServerIsBelieved(c, seed, actions);
    ShortCount(cli);
    hide *;
    ReadGames(cli.blocks, cli.announced);
  }

  lemma ShortCount(cli: ClientState)
    requires Short(cli.blocks, cli.announced)
    ensures |cli.blocks| == |cli.announced|
  {
  }

  /** An announced game is shown with its own players, in order. */
  lemma RosterShown(b: Board, log: seq<Event>)
    requires LogOk(b, log)
    ensures ShownOf(log[0], Numbered(Roster(log))) == [ShownGame(b.maxx, b.maxy, Roster(log))]
  {
    hide *;
    NewGameParses(b, log);
    RosterNumbered(b, log);
    NumberedShown(log[0], Numbered(Roster(log)), Roster(log));
  }

  lemma NumberedShown(e: Event, names: map<nat, Text>, list: seq<Text>)
    requires e.data.NewGame? && |names| == |list| <= MAX_PLAYERS
    requires forall no: nat | no < |list| :: NameOf(names, no) == list[no]
    ensures ShownOf(e, names) == [ShownGame(e.data.maxx, e.data.maxy, list)]
  {
    assert NameList(names, |names| % 0x100) == list;
    hide NameOf;
  }
}
