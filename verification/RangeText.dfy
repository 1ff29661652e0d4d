/** Tag sets as text: runs of tags are printed as "a", "a,b" or "a-b", and read back. */
module RangeText {
  const MAX_VLAN_NUM: nat := 4096

  datatype Token = One(tag: nat) | Range(low: nat, high: nat)

  // ---------------------------------------------------------------- printing

  const DIGITS := "0123456789"

  /** A number in decimal. */
  function Decimal(n: nat): (s: string)
    ensures s != [] && forall i :: 0 <= i < |s| ==> IsDigit(s[i])
  {
    if n < 10 then [DIGITS[n]] else Decimal(n / 10) + [DIGITS[n % 10]]
  }

  function Text(t: Token): string {
    match t
    case One(a) => Decimal(a)
    case Range(a, b) => Decimal(a) + "-" + Decimal(b)
  }

  /** The tokens, each after a comma. */
  function Joined(ts: seq<Token>): string {
    if ts == [] then "" else "," + Text(ts[0]) + Joined(ts[1..])
  }

  lemma {:induction false} JoinedConcat(a: seq<Token>, b: seq<Token>)
    ensures Joined(a + b) == Joined(a) + Joined(b)
  {
    if a == [] {
      assert a + b == b;
    } else {
      assert (a + b)[1..] == a[1..] + b;
      JoinedConcat(a[1..], b);
    }
  }

  // The last tag of the run that starts with `i`, none being above `m`.
  function RunEnd(s: set<nat>, i: nat, m: nat): (e: nat)
    requires i <= m
    ensures i <= e <= m && (forall t :: i < t <= e ==> t in s) && (e < m ==> e + 1 !in s)
    decreases m - i
  {
    if i < m && i + 1 in s then RunEnd(s, i + 1, m) else i
  }

  /** How a run is printed; one that is never closed shows only where it starts. */
  function RunTokens(a: nat, b: nat, closed: bool): seq<Token>
    requires a <= b
  {
    if b - a >= 2 && closed then [Range(a, b)] else if b - a == 1 && closed then [One(a), One(b)] else [One(a)]
  }

  /** The tags from `i` to `m`, run by run; a run that reaches `m` is closed only if `closing`. */
  function TokensFrom(s: set<nat>, i: nat, m: nat, closing: bool): seq<Token>
    decreases m + 1 - i
  {
    if i > m then []
    else if i !in s then TokensFrom(s, i + 1, m, closing)
    else
      var e := RunEnd(s, i, m);
      RunTokens(i, e, e < m || closing) + TokensFrom(s, e + 1, m, closing)
  }

  /** The text of a set of tags out of 1 to `n`. For VLANs the highest tag stands for untagged and is
      printed as 0, and the run before it is not closed. */
  function Tokens(s: set<nat>, n: nat): seq<Token> {
    if n == MAX_VLAN_NUM then (if n in s then [One(0)] else []) + TokensFrom(s, 1, n - 1, false)
    else TokensFrom(s, 1, n, true)
  }

  function RangeString(s: set<nat>, n: nat): string {
    var buf := Joined(Tokens(s, n));
    if buf == "" then "" else buf[1..]
  }

  lemma {:induction false} NoTokens(s: set<nat>, i: nat, m: nat, closing: bool)
    requires forall t :: i <= t <= m ==> t !in s
    ensures TokensFrom(s, i, m, closing) == []
    decreases m + 1 - i
  {
    if i <= m {
      NoTokens(s, i + 1, m, closing);
    }
  }

  // One run, and what comes behind it.
  lemma RunFirst(s: set<nat>, i: nat, e: nat, m: nat)
    requires i <= e < m && e + 1 !in s && forall t :: i <= t <= e ==> t in s
    ensures TokensFrom(s, i, m, false) == RunTokens(i, e, true) + TokensFrom(s, e + 1, m, false)
  {
    hide TokensFrom;
    assert RunEnd(s, i, m) == e;
    TokensFromRun(s, i, m, false);
  }

  lemma TokensFromRun(s: set<nat>, i: nat, m: nat, closing: bool)
    requires i <= m && i in s
    ensures var e := RunEnd(s, i, m);
      TokensFrom(s, i, m, closing) == RunTokens(i, e, e < m || closing) + TokensFrom(s, e + 1, m, closing)
  {
    hide RunEnd, RunTokens;
  }

  lemma TokensFromGap(s: set<nat>, i: nat, m: nat, closing: bool)
    requires i <= m && i !in s
    ensures TokensFrom(s, i, m, closing) == TokensFrom(s, i + 1, m, closing)
  {
  }

  lemma TokensOf(s: set<nat>)
    requires s == {1, 2, 3, 5, 6, 9, 4096}
    ensures Tokens(s, 4096) == [One(0), Range(1, 3), One(5), One(6), One(9)]
  {
    hide TokensFrom;
    NoTokens(s, 10, 4095, false);
    RunFirst(s, 9, 9, 4095);
    TokensFromGap(s, 8, 4095, false);
    TokensFromGap(s, 7, 4095, false);
    RunFirst(s, 5, 6, 4095);
    TokensFromGap(s, 4, 4095, false);
    RunFirst(s, 1, 3, 4095);
  }

  lemma JoinedFirst(t: Token, ts: seq<Token>, all: seq<Token>)
    requires all == [t] + ts
    ensures Joined(all) == "," + Text(t) + Joined(ts)
  {
    assert all[1..] == ts;
  }

  /** A text with every way a run may be printed. */
  lemma RangeTextOf()
    ensures RangeString({1, 2, 3, 5, 6, 9, 4096}, 4096) == "0,1-3,5,6,9"
  {
    TokensOf({1, 2, 3, 5, 6, 9, 4096});
    JoinedOf();
    hide Tokens, Joined;
    assert ",0,1-3,5,6,9"[1..] == "0,1-3,5,6,9";
  }

  lemma JoinedOf()
    ensures Joined([One(0), Range(1, 3), One(5), One(6), One(9)]) == ",0,1-3,5,6,9"
  {
    assert Text(One(9)) == "9" && Text(One(6)) == "6" && Text(One(5)) == "5" && Text(One(0)) == "0";
    assert Text(Range(1, 3)) == "1-3";
    hide Text;
    assert Joined([]) == "";
    hide Joined;
    JoinedFirst(One(9), [], [One(9)]);
    JoinedFirst(One(6), [One(9)], [One(6), One(9)]);
    assert Joined([One(6), One(9)]) == ",6,9";
    JoinedFirst(One(5), [One(6), One(9)], [One(5), One(6), One(9)]);
    assert Joined([One(5), One(6), One(9)]) == ",5,6,9";
    JoinedFirst(Range(1, 3), [One(5), One(6), One(9)], [Range(1, 3), One(5), One(6), One(9)]);
    JoinedFirst(One(0), [Range(1, 3), One(5), One(6), One(9)], [One(0), Range(1, 3), One(5), One(6), One(9)]);
  }

  // ---------------------------------------------------------------- reading

  predicate IsDigit(c: char) {
    '0' <= c <= '9'
  }

  predicate IsDelimiter(c: char) {
    c == ',' || c == ' ' || c == '\t' || c == '\n'
  }

  predicate IsSpace(c: char) {
    c == ' ' || c == '\t' || c == '\n' || c == '\r' || c == '\U{000B}' || c == '\U{000C}'
  }

  function SkipDelimiters(s: string): (r: string)
    ensures |r| <= |s| && (r != [] ==> !IsDelimiter(r[0]))
  {
    if s != [] && IsDelimiter(s[0]) then SkipDelimiters(s[1..]) else s
  }

  function TokenLength(s: string): (n: nat)
    ensures n <= |s| && (s != [] && !IsDelimiter(s[0]) ==> n > 0)
    ensures forall i :: 0 <= i < n ==> !IsDelimiter(s[i])
    ensures n < |s| ==> IsDelimiter(s[n])
  {
    if s == [] || IsDelimiter(s[0]) then 0 else 1 + TokenLength(s[1..])
  }

  /** The pieces between delimiters. */
  function Split(s: string): seq<string>
    decreases |s|
  {
    var s1 := SkipDelimiters(s);
    if s1 == [] then [] else [s1[..TokenLength(s1)]] + Split(s1[TokenLength(s1)..])
  }

  function DigitValue(c: char): nat
    requires IsDigit(c)
  {
    c as int - '0' as int
  }

  function ReadDigits(s: string, acc: nat): (nat, string)
    decreases |s|
  {
    if s != [] && IsDigit(s[0]) then ReadDigits(s[1..], acc * 10 + DigitValue(s[0])) else (acc, s)
  }

  function SkipSpaces(s: string): string {
    if s != [] && IsSpace(s[0]) then SkipSpaces(s[1..]) else s
  }

  datatype ReadResult = NoNumber | Read(value: int, rest: string)

  /** A number as `%d` reads it: spaces, a sign, digits. */
  function ReadInt(s: string): ReadResult {
    var s1 := SkipSpaces(s);
    var signed := s1 != [] && (s1[0] == '-' || s1[0] == '+');
    var s2 := if signed then s1[1..] else s1;
    if s2 == [] || !IsDigit(s2[0]) then NoNumber
    else
      var (n: int, rest) := ReadDigits(s2, 0);
      Read(if signed && s1[0] == '-' then -n else n, rest)
  }

  datatype Scanned = Neither | Low(low: int) | Both(low: int, high: int)

  /** What `%d-%d` finds. */
  function Scan(s: string): Scanned {
    match ReadInt(s)
    case NoNumber => Neither
    case Read(low, rest) =>
      if rest == [] || rest[0] != '-' then Low(low)
      else match ReadInt(rest[1..])
        case NoNumber => Low(low)
        case Read(high, _) => Both(low, high)
  }

  function Interval(low: int, high: int): (s: set<int>)
    ensures forall t :: t in s <==> low <= t <= high
    decreases high - low
  {
    if low > high then {} else {low} + Interval(low + 1, high)
  }

  /** The tags a piece of text adds to a set of `n`. */
  function Added(piece: string, n: nat): set<int> {
    match Scan(piece)
    case Neither => {}
    case Low(low) => {if low <= 0 && n == MAX_VLAN_NUM then n else low}
    case Both(low, high) => Interval(low, high)
  }

  function AddedAll(pieces: seq<string>, n: nat): set<int> {
    if pieces == [] then {} else Added(pieces[0], n) + AddedAll(pieces[1..], n)
  }

  /** What pieces of text add: a range may be empty or lack its end, zero stands for untagged among VLANs, and
      what is not a number adds nothing. */
  lemma PiecesAdd()
    ensures Added("12", 4096) == {12} && Added("12-", 4096) == {12} && Added("x7", 4096) == {}
    ensures Added("7-9", 4096) == {7, 8, 9} && Added("9-7", 4096) == {}
    ensures Added("0", 4096) == {4096} && Added("0", 100) == {0}
  {
    NumbersRead();
    hide ReadInt;
    assert "-9"[1..] == "9" && "-7"[1..] == "7" && "-"[1..] == "";
  }

  lemma NumbersRead()
    ensures ReadInt("12") == Read(12, "") && ReadInt("") == NoNumber && ReadInt("x7") == NoNumber
    ensures ReadInt("12-") == Read(12, "-") && ReadInt("7-9") == Read(7, "-9") && ReadInt("9-7") == Read(9, "-7")
    ensures ReadInt("9") == Read(9, "") && ReadInt("7") == Read(7, "") && ReadInt("0") == Read(0, "")
  {
    assert "12-"[1..] == "2-" && "2-"[1..] == "-" && "7-9"[1..] == "-9" && "9-7"[1..] == "-7";
  }

  /** Commas and blanks, any number of them, are between the pieces. */
  lemma PiecesOf()
    ensures Split(",5 ,\t7-9,") == ["5", "7-9"]
  {
    assert ",5 ,\t7-9,"[1..] == "5 ,\t7-9,";
    assert SkipDelimiters(",5 ,\t7-9,") == "5 ,\t7-9,";
    assert "5 ,\t7-9,"[1..] == " ,\t7-9,";
    assert TokenLength("5 ,\t7-9,") == 1 && "5 ,\t7-9,"[..1] == "5";
    assert " ,\t7-9,"[1..] == ",\t7-9," && ",\t7-9,"[1..] == "\t7-9," && "\t7-9,"[1..] == "7-9,";
    assert SkipDelimiters(" ,\t7-9,") == "7-9,";
    assert "7-9,"[1..] == "-9," && "-9,"[1..] == "9," && "9,"[1..] == "," && ","[1..] == "";
    assert TokenLength("7-9,") == 3 && "7-9,"[..3] == "7-9" && "7-9,"[3..] == ",";
    assert Split(",") == [];
    assert Split(" ,\t7-9,") == ["7-9"];
  }

  // ---------------------------------------------------------------- reading what was printed

  // Digits, most significant first, after `acc`.
  function Value(s: string, acc: nat): nat
    requires forall i :: 0 <= i < |s| ==> IsDigit(s[i])
    decreases |s|
  {
    if s == [] then acc else Value(s[1..], acc * 10 + DigitValue(s[0]))
  }

  lemma {:induction false} ValueAppend(s: string, c: char, acc: nat)
    requires (forall i :: 0 <= i < |s| ==> IsDigit(s[i])) && IsDigit(c)
    ensures Value(s + [c], acc) == Value(s, acc) * 10 + DigitValue(c)
    decreases |s|
  {
    if s == [] {
      assert Value([c][1..], acc * 10 + DigitValue(c)) == acc * 10 + DigitValue(c);
    } else {
      assert (s + [c])[1..] == s[1..] + [c];
      ValueAppend(s[1..], c, acc * 10 + DigitValue(s[0]));
    }
  }

  lemma {:induction false} ValueDecimal(n: nat)
    ensures Value(Decimal(n), 0) == n
  {
    DigitIs(n % 10);
    if n < 10 {
      assert Decimal(n)[1..] == [];
      assert Value(Decimal(n)[1..], 0 * 10 + DigitValue(DIGITS[n])) == DigitValue(DIGITS[n]);
    } else {
      ValueDecimal(n / 10);
      ValueAppend(Decimal(n / 10), DIGITS[n % 10], 0);
    }
  }

  lemma DigitIs(d: nat)
    requires d < 10
    ensures IsDigit(DIGITS[d]) && DigitValue(DIGITS[d]) == d
  {
  }

  lemma {:induction false} ReadDigitsOf(s: string, rest: string, acc: nat)
    requires forall i :: 0 <= i < |s| ==> IsDigit(s[i])
    requires rest == [] || !IsDigit(rest[0])
    ensures ReadDigits(s + rest, acc) == (Value(s, acc), rest)
    decreases |s|
  {
    if s == [] {
      assert s + rest == rest;
    } else {
      assert (s + rest)[1..] == s[1..] + rest;
      ReadDigitsOf(s[1..], rest, acc * 10 + DigitValue(s[0]));
    }
  }

  lemma ReadDecimal(n: nat, rest: string)
    requires rest == [] || !IsDigit(rest[0])
    ensures ReadInt(Decimal(n) + rest) == Read(n, rest)
  {
    hide Decimal, ReadDigits, Value;
    var s := Decimal(n) + rest;
    assert IsDigit(s[0]);
    assert SkipSpaces(s) == s;
    ReadDigitsOf(Decimal(n), rest, 0);
    ValueDecimal(n);
  }

  /** A token is found again in its text. */
  lemma ScanText(t: Token)
    ensures Scan(Text(t)) == match t { case One(a) => Low(a) case Range(a, b) => Both(a, b) }
  {
    hide Decimal, ReadInt;
    match t {
      case One(a) =>
        ReadDecimal(a, "");
        assert Decimal(a) + "" == Decimal(a);
      case Range(a, b) =>
        ReadDecimal(a, "-" + Decimal(b));
        ReadDecimal(b, "");
        assert Decimal(b) + "" == Decimal(b);
        assert Text(t) == Decimal(a) + ("-" + Decimal(b));
        assert ("-" + Decimal(b))[1..] == Decimal(b);
    }
  }

  function Texts(ts: seq<Token>): seq<string> {
    if ts == [] then [] else [Text(ts[0])] + Texts(ts[1..])
  }

  lemma TextUnbroken(t: Token)
    ensures Text(t) != [] && forall i :: 0 <= i < |Text(t)| ==> !IsDelimiter(Text(t)[i])
  {
    hide Decimal;
  }

  lemma {:induction false} TokenLengthIs(s: string, rest: string)
    requires (forall i :: 0 <= i < |s| ==> !IsDelimiter(s[i])) && (rest == [] || IsDelimiter(rest[0]))
    ensures TokenLength(s + rest) == |s|
  {
    if s == [] {
      assert s + rest == rest;
    } else {
      assert (s + rest)[1..] == s[1..] + rest;
      TokenLengthIs(s[1..], rest);
    }
  }

  lemma SplitPiece(s: string, rest: string)
    requires s != [] && (forall i :: 0 <= i < |s| ==> !IsDelimiter(s[i])) && (rest == [] || IsDelimiter(rest[0]))
    ensures Split(s + rest) == [s] + Split(rest)
  {
    hide TokenLength;
    TokenLengthIs(s, rest);
    var all := s + rest;
    assert all[0] == s[0];
    assert SkipDelimiters(all) == all;
    assert all[..|s|] == s && all[|s|..] == rest;
  }

  lemma SplitComma(s: string)
    ensures Split("," + s) == Split(s)
  {
    assert ("," + s)[1..] == s;
    assert SkipDelimiters("," + s) == SkipDelimiters(s);
  }

  lemma {:induction false} SplitJoin(ts: seq<Token>)
    ensures Split(Joined(ts)) == Texts(ts)
    ensures Joined(ts) != "" ==> Joined(ts)[0] == ',' && Split(Joined(ts)[1..]) == Texts(ts)
  {
    if ts != [] {
      SplitJoin(ts[1..]);
      SplitJoinFirst(ts[0], Joined(ts[1..]));
    }
  }

  lemma SplitJoinFirst(t: Token, rest: string)
    requires rest == "" || rest[0] == ','
    ensures var all := "," + Text(t) + rest;
      all[0] == ',' && Split(all) == [Text(t)] + Split(rest) && Split(all[1..]) == [Text(t)] + Split(rest)
  {
    hide Text, Split;
    TextUnbroken(t);
    SplitPiece(Text(t), rest);
    SplitComma(Text(t) + rest);
    assert "," + Text(t) + rest == "," + (Text(t) + rest);
  }

  // ---------------------------------------------------------------- what is read back

  /** The tags a token stands for in a set of `n`. */
  function Meant(t: Token, n: nat): set<int> {
    match t
    case One(a) => {if a == 0 && n == MAX_VLAN_NUM then n else a}
    case Range(a, b) => Interval(a, b)
  }

  function MeantAll(ts: seq<Token>, n: nat): set<int> {
    if ts == [] then {} else Meant(ts[0], n) + MeantAll(ts[1..], n)
  }

  lemma {:induction false} AddedTexts(ts: seq<Token>, n: nat)
    ensures AddedAll(Texts(ts), n) == MeantAll(ts, n)
  {
    hide Text, Scan;
    if ts != [] {
      ScanText(ts[0]);
      AddedTexts(ts[1..], n);
    }
  }

  lemma {:induction false} MeantConcat(a: seq<Token>, b: seq<Token>, n: nat)
    ensures MeantAll(a + b, n) == MeantAll(a, n) + MeantAll(b, n)
  {
    if a == [] {
      assert a + b == b;
    } else {
      assert (a + b)[1..] == a[1..] + b;
      MeantConcat(a[1..], b, n);
    }
  }

  lemma MeantRun(a: nat, b: nat, closed: bool, n: nat)
    requires 1 <= a <= b
    ensures MeantAll(RunTokens(a, b, closed), n) == if closed then Interval(a, b) else {a as int}
  {
    var ts := RunTokens(a, b, closed);
    if |ts| == 2 {
      assert ts[1..] == [One(b)] && ts[1..][1..] == [];
      assert MeantAll(ts[1..], n) == {b as int};
      assert Interval(a, b) == {a as int, b as int};
    } else {
      assert ts[1..] == [];
    }
  }

  /** A tag of the last, unclosed run that is not its first. */
  ghost predicate Lost(s: set<nat>, i: nat, m: nat, t: nat) {
    i < t <= m && forall u: nat :: t <= u + 1 && u <= m ==> u in s
  }

  lemma {:induction false} MeantFrom(s: set<nat>, i: nat, m: nat, closing: bool, n: nat)
    requires i >= 1
    ensures forall t: int :: t in MeantAll(TokensFrom(s, i, m, closing), n) <==>
      i <= t <= m && t in s && (closing || !Lost(s, i, m, t))
    decreases m + 1 - i
  {
    if i <= m {
      if i !in s {
        MeantFrom(s, i + 1, m, closing, n);
      } else {
        var e := RunEnd(s, i, m);
        var closed := e < m || closing;
        MeantRun(i, e, closed, n);
        MeantFrom(s, e + 1, m, closing, n);
        MeantConcat(RunTokens(i, e, closed), TokensFrom(s, e + 1, m, closing), n);
        MeantFromRun(s, i, m, e, closing);
      }
    }
  }

  // Which tags are lost does not depend on where the runs before them start.
  lemma MeantFromRun(s: set<nat>, i: nat, m: nat, e: nat, closing: bool)
    requires 1 <= i <= e <= m && i in s && (forall t :: i < t <= e ==> t in s) && (e < m ==> e + 1 !in s)
    ensures forall t: nat :: i <= t <= e ==> (Lost(s, i, m, t) <==> e == m && t > i)
    ensures forall t: nat :: e < t <= m && t in s ==> (Lost(s, i, m, t) <==> Lost(s, e + 1, m, t))
  {
  }

  /** Reading a printed set gives back its tags, but for those that are lost at the end of the VLANs. */
  lemma ReadBack(s: set<nat>, n: nat)
    requires forall t :: t in s ==> 1 <= t <= n
    ensures forall t: int :: t in AddedAll(Split(RangeString(s, n)), n) <==>
      t in s && !(n == MAX_VLAN_NUM && t < n && Lost(s, 1, n - 1, t))
  {
    hide Joined, Split, Texts, TokensFrom, MeantAll;
    var ts := Tokens(s, n);
    SplitJoin(ts);
    assert Split(RangeString(s, n)) == Texts(ts);
    AddedTexts(ts, n);
    if n == MAX_VLAN_NUM {
      MeantFrom(s, 1, n - 1, false, n);
      MeantConcat(if n in s then [One(0)] else [], TokensFrom(s, 1, n - 1, false), n);
      MeantNone(n);
    } else {
      MeantFrom(s, 1, n, true, n);
    }
  }

  lemma MeantNone(n: nat)
    ensures MeantAll([], n) == {} && MeantAll([One(0)], n) == Meant(One(0), n)
  {
    assert [One(0)][1..] == [];
  }

  ghost predicate Restores(s: set<nat>, n: nat) {
    forall t: int :: t in AddedAll(Split(RangeString(s, n)), n) <==> t in s
  }

  /** Printing and reading restores every set except one of VLANs with both 4094 and 4095. */
  lemma RestoresExactlyWhen(s: set<nat>, n: nat)
    requires forall t :: t in s ==> 1 <= t <= n
    ensures Restores(s, n) <==> !(n == MAX_VLAN_NUM && 4094 in s && 4095 in s)
  {
    hide Split, RangeString, AddedAll;
    ReadBack(s, n);
    if n == MAX_VLAN_NUM && 4094 in s && 4095 in s {
      assert Lost(s, 1, n - 1, 4095);
    } else if n == MAX_VLAN_NUM {
      forall t: nat | t in s && t < n ensures !Lost(s, 1, n - 1, t) {
      }
    }
  }
}
