/** The list of players in NEW_GAME: how the server writes it, how the client reads it, and the lines for the GUI. */
module PlayerList {
  import opened Bytes
  import opened Names
  import opened Messages

  const SPACE: byte := 32

  // ---- Writing the list ----

  /** Every name followed by a space. */
  function Joined(names: seq<Text>): seq<byte> {
    if names == [] then [] else names[0] + [SPACE] + Joined(names[1..])
  }

  function Replace(s: seq<byte>, from: byte, to: byte): (t: seq<byte>)
    ensures |t| == |s|
    ensures forall i | 0 <= i < |s| :: t[i] == if s[i] == from then to else s[i]
  {
    seq(|s|, i requires 0 <= i < |s| => if s[i] == from then to else s[i])
  }

  /** The players field of a NEW_GAME event: every name followed by a zero byte. */
  function PlayersField(names: seq<Text>): seq<byte> {
    Replace(Joined(names), SPACE, 0)
  }

  lemma {:induction false} JoinedAppended(names: seq<Text>, name: Text)
    ensures Joined(names + [name]) == Joined(names) + name + [SPACE]
  {
    if names == [] {
      assert [name][1..] == [];
      assert [] + [name] == [name];
      assert name + [SPACE] + [] == [] + name + [SPACE];
    } else {
      assert (names + [name])[1..] == names[1..] + [name];
      JoinedAppended(names[1..], name);
      assert names[0] + [SPACE] + (Joined(names[1..]) + name + [SPACE])
             == names[0] + [SPACE] + Joined(names[1..]) + name + [SPACE];
    }
  }

  /** Twenty-five names of twenty characters exactly fill the field. */
  lemma {:induction false} JoinedLength(names: seq<Text>)
    requires PlayerNames(names)
    ensures 2 * |names| <= |Joined(names)| <= |names| * (MAX_PLAYER_NAME_LENGTH + 1)
  {
    if names != [] {
      assert PlayerName(names[0]);
      JoinedLength(names[1..]);
    }
  }

  lemma {:induction false} JoinedCharacters(names: seq<Text>)
    requires PlayerNames(names)
    ensures forall i | 0 <= i < |Joined(names)| :: Joined(names)[i] >= SPACE
    ensures names != [] ==> Joined(names)[|Joined(names)| - 1] == SPACE
  {
    if names != [] {
      assert PlayerName(names[0]);
      JoinedCharacters(names[1..]);
    }
  }

  method MakeNewGame(maxx: nat, maxy: nat, playerNames: seq<Text>) returns (d: EventData)
    requires |Joined(playerNames)| <= MAX_PLAYERS_FIELD_SIZE
    ensures d == NewGame(maxx, maxy, PlayersField(playerNames))
  {
    var text: seq<byte> := [];
    var i := 0;
    while i < |playerNames|
      invariant 0 <= i <= |playerNames|
      invariant text == Joined(playerNames[..i])
    {
      assert playerNames[..i + 1] == playerNames[..i] + [playerNames[i]];
      JoinedAppended(playerNames[..i], playerNames[i]);
      text := text + playerNames[i] + [SPACE];
      i := i + 1;
    }
    assert playerNames[..i] == playerNames;
    var players := text;
    i := 0;
    while i < |players|
      invariant 0 <= i <= |players| == |text|
      invariant forall k | 0 <= k < i :: players[k] == if text[k] == SPACE then 0 else text[k]
      invariant forall k | i <= k < |text| :: players[k] == text[k]
    {
      if players[i] == SPACE {
        players := players[i := 0];
      }
      i := i + 1;
    }
    assert players == PlayersField(playerNames);
    d := NewGame(maxx, maxy, players);
  }

  // ---- Reading the list ----

  /** What `>>` into a string skips and stops at. */
  predicate IsSpace(b: byte) {
    b == SPACE || 9 <= b <= 13
  }

  function WordLength(s: seq<byte>): (k: nat)
    ensures k <= |s|
  {
    if s == [] || IsSpace(s[0]) then 0 else 1 + WordLength(s[1..])
  }

  /** The words that repeated `>>` extracts. */
  function Words(s: seq<byte>): seq<Text> {
    if s == [] then []
    else if IsSpace(s[0]) then Words(s[1..])
    else
      var k := WordLength(s);
      [s[..k]] + Words(s[k..])
  }

  predicate AllValid(names: seq<Text>) {
    forall i | 0 <= i < |names| :: ValidName(names[i])
  }

  /** The accepted list of names; None stands for the decoding error. */
  function ParsePlayers(field: seq<byte>): Option<seq<Text>> {
    var names := Words(Replace(field, 0, SPACE));
    if SPACE in field || !AllValid(names) || !Increasing(names) then None else Some(names)
  }

  /** One insertion into the client's map: keys have eight bits, and a key that is taken is not overwritten. */
  function Number(m: map<nat, Text>, name: Text): map<nat, Text> {
    var k := |m| % 0x100;
    if k in m then m else m[k := name]
  }

  /** The client's map from player numbers to names. */
  function Numbered(names: seq<Text>): (m: map<nat, Text>)
  {
    if names == [] then map[]
    else
      Number(Numbered(names[..|names| - 1]), names[|names| - 1])
  }

  lemma NumberNext(m: map<nat, Text>, name: Text, n: nat)
    requires |m| == n < 0x100 && n !in m
    ensures Number(m, name) == m[n := name] && |m[n := name]| == n + 1
  {
  }

  lemma NumberedStep(names: seq<Text>, n: nat)
    requires |names| == n + 1
    ensures Numbered(names) == Number(Numbered(names[..n]), names[n])
  {
    hide Number;
  }

  /** The first n names have the numbers below n. */
  ghost predicate InOrder(m: map<nat, Text>, names: seq<Text>) {
    && |m| == |names| && (forall i: nat :: i in m <==> i < |names|)
    && forall i: nat | i < |names| :: m[i] == names[i]
  }

  lemma {:induction false} NumberedInOrder(names: seq<Text>)
    requires |names| <= 0x100
    ensures InOrder(Numbered(names), names)
  {
    if names != [] {
      hide Numbered;
      hide Number;
      var n := |names| - 1;
      NumberedInOrder(names[..n]);
      NumberNext(Numbered(names[..n]), names[n], n);
      NumberedStep(names, n);
    }
  }

  lemma WordLengthOfWord(w: Text, rest: seq<byte>)
    requires PlayerName(w) && (rest == [] || IsSpace(rest[0]))
    ensures WordLength(w + rest) == |w|
  {
    WordLengthPrefix(w, rest);
  }

  lemma {:induction false} WordLengthPrefix(w: Text, rest: seq<byte>)
    requires ValidName(w) && (rest == [] || IsSpace(rest[0]))
    ensures WordLength(w + rest) == |w|
  {
    if w == [] {
      assert w + rest == rest;
    } else {
      assert (w + rest)[1..] == w[1..] + rest;
      WordLengthPrefix(w[1..], rest);
    }
  }

  lemma {:induction false} WordsOfJoined(names: seq<Text>)
    requires PlayerNames(names)
    ensures Words(Joined(names)) == names
  {
    if names != [] {
      assert PlayerName(names[0]);
      var w, rest := names[0], Joined(names[1..]);
      var s := Joined(names);
      assert s == w + ([SPACE] + rest);
      WordLengthOfWord(w, [SPACE] + rest);
      assert s[..|w|] == w && s[|w|..] == [SPACE] + rest;
      assert ([SPACE] + rest)[1..] == rest;
      WordsOfJoined(names[1..]);
      assert names == [names[0]] + names[1..];
    }
  }

  /** The client reads back exactly the list the server wrote. */
  lemma PlayersRoundTrip(names: seq<Text>)
    requires PlayerNames(names) && Increasing(names)
    ensures ParsePlayers(PlayersField(names)) == Some(names)
  {
    JoinedCharacters(names);
    var f := PlayersField(names);
    assert Replace(f, 0, SPACE) == Joined(names);
    WordsOfJoined(names);
  }

  lemma {:induction false} WordsAreWords(s: seq<byte>)
    ensures forall i | 0 <= i < |Words(s)| :: Words(s)[i] != []
    decreases |s|
  {
    if s != [] {
      if IsSpace(s[0]) {
        WordsAreWords(s[1..]);
      } else {
        WordsAreWords(s[WordLength(s)..]);
      }
    }
  }

  /** A list that is accepted holds valid, non-empty names in strictly increasing order. */
  lemma ParsedAreNames(field: seq<byte>)
    requires ParsePlayers(field).Some?
    ensures PlayerNames(ParsePlayers(field).value) && Increasing(ParsePlayers(field).value)
  {
    WordsAreWords(Replace(field, 0, SPACE));
    hide Words;
    hide Increasing;
  }

  method SkipSpaces(s: seq<byte>, from: nat) returns (at: nat)
    requires from <= |s|
    ensures from <= at <= |s| && (at < |s| ==> !IsSpace(s[at]))
    ensures Words(s[from..]) == Words(s[at..])
  {
    at := from;
    while at < |s| && IsSpace(s[at])
      invariant from <= at <= |s|
      invariant Words(s[from..]) == Words(s[at..])
    {
      assert s[at..][1..] == s[at + 1..];
      at := at + 1;
    }
  }

  method TakeWord(s: seq<byte>, from: nat) returns (at: nat)
    requires from < |s| && !IsSpace(s[from])
    ensures from < at <= |s| && Words(s[from..]) == [s[from..at]] + Words(s[at..])
  {
    at := from;
    while at < |s| && !IsSpace(s[at])
      invariant from <= at <= |s|
      invariant WordLength(s[from..]) == at - from + WordLength(s[at..])
      invariant at == from ==> !IsSpace(s[at])
      decreases |s| - at
    {
      assert s[at..][1..] == s[at + 1..];
      at := at + 1;
    }
    assert s[from..][..at - from] == s[from..at] && s[from..][at - from..] == s[at..];
  }

  /** The first loop of parsedPlayers. */
  method ZerosToSpaces(players: seq<byte>) returns (r: Option<seq<byte>>)
    ensures r == if SPACE in players then None else Some(Replace(players, 0, SPACE))
  {
    var buff := players;
    var i := 0;
    while i < |buff|
      invariant 0 <= i <= |buff| == |players|
      invariant SPACE !in players[..i]
      invariant forall k | 0 <= k < i :: buff[k] == if players[k] == 0 then SPACE else players[k]
      invariant forall k | i <= k < |buff| :: buff[k] == players[k]
    {
      if buff[i] == SPACE {
        return None;
      }
      if buff[i] == 0 {
        buff := buff[i := SPACE];
      }
      assert players[..i + 1] == players[..i] + [players[i]];
      i := i + 1;
    }
    assert players[..i] == players;
    assert buff == Replace(players, 0, SPACE);
    r := Some(buff);
  }

  lemma ValidAppended(names: seq<Text>, name: Text, rest: seq<Text>)
    ensures AllValid(names) && ValidName(name) ==> AllValid(names + [name])
    ensures !ValidName(name) ==> !AllValid(names + [name] + rest)
  {
    hide ValidName;
    assert (names + [name] + rest)[|names|] == name;
  }

  lemma NumberedAppended(names: seq<Text>, name: Text)
    ensures Numbered(names + [name]) == Number(Numbered(names), name)
  {
    assert (names + [name])[..|names|] == names;
  }

  lemma NothingRead()
    ensures Words([]) == [] && AllValid([]) && Numbered([]) == map[]
  {
  }

  /** The reading loop of parsedPlayers. */
  method ReadNames(buff: seq<byte>) returns (ok: bool, listOfNames: seq<Text>, playerNames: map<nat, Text>)
    ensures ok <==> AllValid(Words(buff))
    ensures ok ==> listOfNames == Words(buff) && playerNames == Numbered(listOfNames)
  {
    hide *;
    NothingRead();
    listOfNames, playerNames := [], map[];
    var at := SkipSpaces(buff, 0);
    assert buff[0..] == buff;
    while at < |buff|
      invariant at <= |buff| && (at < |buff| ==> !IsSpace(buff[at]))
      invariant Words(buff) == listOfNames + Words(buff[at..])
      invariant AllValid(listOfNames) && playerNames == Numbered(listOfNames)
      decreases |buff| - at
    {
      var end := TakeWord(buff, at);
      var playerName := buff[at..end];
      assert Words(buff) == listOfNames + [playerName] + Words(buff[end..]);
      ValidAppended(listOfNames, playerName, Words(buff[end..]));
      var valid := IsValidPlayerName(playerName);
      if !valid {
        return false, [], map[];
      }
      NumberedAppended(listOfNames, playerName);
      playerNames := Number(playerNames, playerName);
      listOfNames := listOfNames + [playerName];
      at := SkipSpaces(buff, end);
    }
    NothingRead();
    assert buff[at..] == [] && listOfNames + [] == listOfNames;
    ok := true;
  }

  /** The sort, unique and compare of parsedPlayers. */
  method IsSortedList(listOfNames: seq<Text>) returns (sorted: bool)
    ensures sorted <==> Increasing(listOfNames)
  {
    var sortedListOfNames := Unique(Sort(listOfNames));
    SortedCheck(listOfNames);
    hide *;
    if |sortedListOfNames| != |listOfNames| {
      return false;
    }
    var i := 0;
    while i < |sortedListOfNames|
      invariant 0 <= i <= |sortedListOfNames|
      invariant forall k | 0 <= k < i :: sortedListOfNames[k] == listOfNames[k]
    {
      if sortedListOfNames[i] != listOfNames[i] {
        return false;
      }
      i := i + 1;
    }
    sorted := true;
  }

  /** parsedPlayers: None stands for the decoding error. */
  method ParsedPlayers(players: seq<byte>) returns (r: Option<map<nat, Text>>)
    ensures r == match ParsePlayers(players) case None => None case Some(names) => Some(Numbered(names))
  {
    var buff := ZerosToSpaces(players);
    if buff == None {
      return None;
    }
    hide Words;
    hide AllValid;
    hide Increasing;
    hide Numbered;
    var ok, listOfNames, playerNames := ReadNames(buff.value);
    if !ok {
      return None;
    }
    var sorted := IsSortedList(listOfNames);
    r := if sorted then Some(playerNames) else None;
  }

  // ---- Lines for the GUI ----

  function Ascii(s: string): Text
    requires forall i | 0 <= i < |s| :: s[i] as int < 0x80
  {
    seq(|s|, i requires 0 <= i < |s| => s[i] as int as byte)
  }

  function Decimal(n: nat): Text {
    if n < 10 then [(48 + n) as byte] else Decimal(n / 10) + [(48 + n % 10) as byte]
  }

  /** A number nobody has stands for undefined behaviour in the code; here it names nobody. */
  function NameOf(names: map<nat, Text>, number: nat): Text {
    if number in names then names[number] else []
  }

  function SpacedNames(names: map<nat, Text>, n: nat): Text {
    if n == 0 then [] else SpacedNames(names, n - 1) + [SPACE] + NameOf(names, n - 1)
  }

  function GuiLine(e: Event, names: map<nat, Text>): Text {
    match e.data
    case NewGame(maxx, maxy, _) =>
      Ascii("NEW_GAME ") + Decimal(maxx) + [SPACE] + Decimal(maxy) + SpacedNames(names, |names| % 0x100) + Ascii("\n")
    case Pixel(no, x, y) =>
      Ascii("PIXEL ") + Decimal(x) + [SPACE] + Decimal(y) + [SPACE] + NameOf(names, no) + Ascii("\n")
    case PlayerEliminated(no) =>
      Ascii("PLAYER_ELIMINATED ") + NameOf(names, no) + Ascii("\n")
    case GameOver => []
    case UnknownEvent => []
  }

  method EventToMessageForGui(e: Event, playerNames: map<nat, Text>) returns (line: Text)
    ensures line == GuiLine(e, playerNames)
  {
    hide Ascii;
    hide Decimal;
    hide NameOf;
    match e.data
    case NewGame(maxx, maxy, _) =>
      line := Ascii("NEW_GAME ") + Decimal(maxx) + [SPACE] + Decimal(maxy);
      ghost var start := line;
      var totalPlayers := |playerNames| % 0x100;
      var i := 0;
      while i < totalPlayers
        invariant 0 <= i <= totalPlayers
        invariant line == start + SpacedNames(playerNames, i)
      {
        line := line + [SPACE] + NameOf(playerNames, i);
        i := i + 1;
      }
      line := line + Ascii("\n");
    case Pixel(no, x, y) =>
      line := Ascii("PIXEL ") + Decimal(x) + [SPACE] + Decimal(y) + [SPACE] + NameOf(playerNames, no) + Ascii("\n");
    case PlayerEliminated(no) =>
      line := Ascii("PLAYER_ELIMINATED ") + NameOf(playerNames, no) + Ascii("\n");
    case GameOver => line := [];
    case UnknownEvent => line := [];
  }
}
