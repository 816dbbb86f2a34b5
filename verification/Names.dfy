/** Player names: validity, alphabetical order, and the check that a list of names is sorted. */
module Names {
  import opened Bytes

  const MAX_PLAYER_NAME_LENGTH: nat := 20
  const MIN_PLAYER_NAME_CHAR: byte := 33
  const MAX_PLAYER_NAME_CHAR: byte := 126

  predicate ValidName(s: Text) {
    |s| <= MAX_PLAYER_NAME_LENGTH && forall i | 0 <= i < |s| :: MIN_PLAYER_NAME_CHAR <= s[i] <= MAX_PLAYER_NAME_CHAR
  }

  /** What a player, as opposed to a watcher, may be called. */
  predicate PlayerName(s: Text) {
    ValidName(s) && s != []
  }

  predicate PlayerNames(names: seq<Text>) {
    forall i | 0 <= i < |names| :: PlayerName(names[i])
  }

  method IsValidPlayerName(s: Text) returns (valid: bool)
    ensures valid <==> ValidName(s)
  {
    if |s| > MAX_PLAYER_NAME_LENGTH {
      return false;
    }
    var i := 0;
    while i < |s|
      invariant 0 <= i <= |s|
      invariant forall k | 0 <= k < i :: MIN_PLAYER_NAME_CHAR <= s[k] <= MAX_PLAYER_NAME_CHAR
    {
      if s[i] < MIN_PLAYER_NAME_CHAR || s[i] > MAX_PLAYER_NAME_CHAR {
        return false;
      }
      i := i + 1;
    }
    valid := true;
  }

  // ---- The order of std::string ----

  predicate Less(a: Text, b: Text) {
    b != [] && (a == [] || a[0] < b[0] || (a[0] == b[0] && Less(a[1..], b[1..])))
  }

  lemma {:induction false} LessIrreflexive(a: Text)
    ensures !Less(a, a)
  {
    if a != [] {
      LessIrreflexive(a[1..]);
    }
  }

  lemma {:induction false} LessTransitive(a: Text, b: Text, c: Text)
    requires Less(a, b) && Less(b, c)
    ensures Less(a, c)
  {
    if a != [] && a[0] == b[0] == c[0] {
      LessTransitive(a[1..], b[1..], c[1..]);
    }
  }

  lemma {:induction false} LessTotal(a: Text, b: Text)
    ensures a == b || Less(a, b) || Less(b, a)
  {
    if a != [] && b != [] && a[0] == b[0] {
      LessTotal(a[1..], b[1..]);
      assert a == [a[0]] + a[1..] && b == [b[0]] + b[1..];
    }
  }

  /** Alphabetical order without repetition. */
  predicate Increasing(names: seq<Text>) {
    forall i, j | 0 <= i < j < |names| :: Less(names[i], names[j])
  }

  predicate Ascending(names: seq<Text>) {
    forall i | 0 <= i < |names| - 1 :: names[i] == names[i + 1] || Less(names[i], names[i + 1])
  }

  lemma {:induction false} NeighboursSuffice(names: seq<Text>)
    requires forall i | 0 <= i < |names| - 1 :: Less(names[i], names[i + 1])
    ensures Increasing(names)
  {
    if |names| > 1 {
      var front := names[..|names| - 1];
      NeighboursSuffice(front);
      forall i | 0 <= i < |front| ensures Less(names[i], names[|front|]) {
        if i < |front| - 1 {
          assert Less(front[i], front[|front| - 1]);
          LessTransitive(names[i], names[|front| - 1], names[|front|]);
        }
      }
    }
  }

  lemma IncreasingDistinct(names: seq<Text>, i: nat, j: nat)
    requires Increasing(names) && i < |names| && j < |names| && names[i] == names[j]
    ensures i == j
  {
    LessIrreflexive(names[i]);
  }

  // ---- The library calls of the check: std::sort and std::unique ----

  function Insert(x: Text, s: seq<Text>): seq<Text> {
    if s == [] || !Less(s[0], x) then [x] + s else [s[0]] + Insert(x, s[1..])
  }

  function Sort(s: seq<Text>): seq<Text> {
    if s == [] then [] else Insert(s[0], Sort(s[1..]))
  }

  function Unique(s: seq<Text>): seq<Text> {
    if |s| < 2 then s
    else if s[0] == s[1] then Unique(s[1..])
    else [s[0]] + Unique(s[1..])
  }

  lemma {:induction false} InsertAscends(x: Text, s: seq<Text>)
    requires Ascending(s)
    ensures Ascending(Insert(x, s))
    ensures Insert(x, s)[0] == x || (s != [] && Insert(x, s)[0] == s[0])
  {
    if s != [] {
      if !Less(s[0], x) {
        LessTotal(s[0], x);
      } else {
        InsertAscends(x, s[1..]);
      }
    }
  }

  lemma {:induction false} InsertPermutes(x: Text, s: seq<Text>)
    ensures multiset(Insert(x, s)) == multiset(s) + multiset{x}
  {
    if s != [] && Less(s[0], x) {
      assert s == [s[0]] + s[1..];
      InsertPermutes(x, s[1..]);
    }
  }

  /** `Sort` meets the contract of std::sort. */
  lemma {:induction false} SortSorts(s: seq<Text>)
    ensures Ascending(Sort(s)) && multiset(Sort(s)) == multiset(s)
  {
    if s != [] {
      SortSorts(s[1..]);
      InsertAscends(s[0], Sort(s[1..]));
      InsertPermutes(s[0], Sort(s[1..]));
      assert s == [s[0]] + s[1..];
    }
  }

  lemma {:induction false} UniqueIncreases(s: seq<Text>)
    requires Ascending(s)
    ensures forall i | 0 <= i < |Unique(s)| - 1 :: Less(Unique(s)[i], Unique(s)[i + 1])
    ensures s != [] ==> Unique(s) != [] && Unique(s)[0] == s[0]
    ensures |Unique(s)| <= |s|
    decreases |s|
  {
    if |s| >= 2 {
      UniqueIncreases(s[1..]);
    }
  }

  lemma {:induction false} SortKeepsIncreasing(s: seq<Text>)
    requires Increasing(s)
    ensures Sort(s) == s
  {
    if s != [] {
      SortKeepsIncreasing(s[1..]);
      if |s| > 1 && Less(s[1], s[0]) {
        LessTransitive(s[0], s[1], s[0]);
        LessIrreflexive(s[0]);
      }
      assert s == [s[0]] + s[1..];
    }
  }

  lemma {:induction false} UniqueKeepsIncreasing(s: seq<Text>)
    requires Increasing(s)
    ensures Unique(s) == s
  {
    if |s| >= 2 {
      LessIrreflexive(s[0]);
      assert Less(s[0], s[1]);
      UniqueKeepsIncreasing(s[1..]);
      assert s == [s[0]] + s[1..];
    }
  }

  /** Sorting, removing repetitions and comparing accepts exactly the strictly increasing lists. */
  lemma SortedCheck(names: seq<Text>)
    ensures Unique(Sort(names)) == names <==> Increasing(names)
  {
    if Increasing(names) {
      SortKeepsIncreasing(names);
      UniqueKeepsIncreasing(names);
    }
    if Unique(Sort(names)) == names {
      SortSorts(names);
      UniqueIncreases(Sort(names));
      NeighboursSuffice(names);
    }
  }
}
