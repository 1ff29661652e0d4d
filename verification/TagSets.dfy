/** Sets of VLAN tags and the like, kept as bitmaps. */
module TagSets {
  import opened RangeText

  const ANY_TAG: nat := 0xFFFF

  // ---------------------------------------------------------------- bits

  // 0x80 >> k
  function Mask(k: nat): bv8
    requires k < 8
  {
    if k == 0 then 0x80 else if k == 1 then 0x40 else if k == 2 then 0x20 else if k == 3 then 0x10
    else if k == 4 then 0x08 else if k == 5 then 0x04 else if k == 6 then 0x02 else 0x01
  }

  predicate Bit(b: bv8, k: nat)
    requires k < 8
  {
    b & Mask(k) != 0
  }

  lemma BitSet(b: bv8, k: nat, j: nat)
    requires k < 8 && j < 8
    ensures Bit(b | Mask(k), j) <==> Bit(b, j) || j == k
  {
  }

  lemma BitCleared(b: bv8, k: nat, j: nat)
    requires k < 8 && j < 8
    ensures Bit(b & !Mask(k), j) <==> Bit(b, j) && j != k
  {
  }

  lemma BitAnd(a: bv8, b: bv8, j: nat)
    requires j < 8
    ensures Bit(a & b, j) <==> Bit(a, j) && Bit(b, j)
  {
  }

  lemma BitOr(a: bv8, b: bv8, j: nat)
    requires j < 8
    ensures Bit(a | b, j) <==> Bit(a, j) || Bit(b, j)
  {
  }

  lemma NoBits(b: bv8)
    ensures b == 0 <==> forall j :: 0 <= j < 8 ==> !Bit(b, j)
  {
    if b != 0 {
      assert b & 0x80 != 0 || b & 0x40 != 0 || b & 0x20 != 0 || b & 0x10 != 0
        || b & 0x08 != 0 || b & 0x04 != 0 || b & 0x02 != 0 || b & 0x01 != 0;
      assert exists j :: 0 <= j < 8 && Bit(b, j) by {
        assert Bit(b, 0) || Bit(b, 1) || Bit(b, 2) || Bit(b, 3) || Bit(b, 4) || Bit(b, 5) || Bit(b, 6) || Bit(b, 7);
      }
    }
  }

  /** Tag `t` is bit number `t - 1`, counted from the high end of the first byte. */
  predicate On(bytes: seq<bv8>, t: nat) {
    1 <= t <= 8 * |bytes| && Bit(bytes[(t - 1) / 8], (t - 1) % 8)
  }

  function TagsOf(bytes: seq<bv8>, n: nat): set<nat> {
    set t: nat | 1 <= t <= n && On(bytes, t)
  }

  lemma TagAdded(bytes: seq<bv8>, t: nat, u: nat)
    requires 1 <= t <= 8 * |bytes|
    ensures var j, k := (t - 1) / 8, (t - 1) % 8;
      On(bytes[j := bytes[j] | Mask(k)], u) <==> On(bytes, u) || u == t
  {
    hide Bit, Mask;
    if 1 <= u <= 8 * |bytes| {
      BitSet(bytes[(t - 1) / 8], (t - 1) % 8, (u - 1) % 8);
    }
  }

  lemma TagDeleted(bytes: seq<bv8>, t: nat, u: nat)
    requires 1 <= t <= 8 * |bytes|
    ensures var j, k := (t - 1) / 8, (t - 1) % 8;
      On(bytes[j := bytes[j] & !Mask(k)], u) <==> On(bytes, u) && u != t
  {
    hide Bit, Mask;
    if 1 <= u <= 8 * |bytes| {
      BitCleared(bytes[(t - 1) / 8], (t - 1) % 8, (u - 1) % 8);
    }
  }

  lemma TagsBoth(a: seq<bv8>, b: seq<bv8>, both: seq<bv8>, u: nat)
    requires |a| == |b| == |both| && forall i :: 0 <= i < |a| ==> both[i] == a[i] & b[i]
    ensures On(both, u) <==> On(a, u) && On(b, u)
  {
    hide Bit;
    if 1 <= u <= 8 * |a| {
      BitAnd(a[(u - 1) / 8], b[(u - 1) / 8], (u - 1) % 8);
    }
  }

  lemma TagsEither(a: seq<bv8>, b: seq<bv8>, either: seq<bv8>, u: nat)
    requires |a| == |b| == |either| && forall i :: 0 <= i < |a| ==> either[i] == a[i] | b[i]
    ensures On(either, u) <==> On(a, u) || On(b, u)
  {
    hide Bit;
    if 1 <= u <= 8 * |a| {
      BitOr(a[(u - 1) / 8], b[(u - 1) / 8], (u - 1) % 8);
    }
  }

  lemma NoTags(bytes: seq<bv8>)
    ensures (forall i :: 0 <= i < |bytes| ==> bytes[i] == 0) <==> forall u :: !On(bytes, u)
  {
    hide Bit;
    if forall u :: !On(bytes, u) {
      forall i | 0 <= i < |bytes| ensures bytes[i] == 0 {
        forall j | 0 <= j < 8 ensures !Bit(bytes[i], j) {
          assert !On(bytes, 8 * i + j + 1);
        }
        NoBits(bytes[i]);
      }
    } else {
      var u :| On(bytes, u);
      NoBits(bytes[(u - 1) / 8]);
    }
  }

  // What memset is told to fill when it is told 0xff.
  const FILL: nat := 0xFF

  /** The tags of `n` after the first bytes have been filled. */
  function Filled(s: set<nat>, n: nat, value: bv8): set<nat> {
    set t: nat | 1 <= t <= n && if t <= 8 * FILL then Bit(value, (t - 1) % 8) else t in s
  }

  lemma TagFilled(a: seq<bv8>, filled: seq<bv8>, value: bv8, t: nat)
    requires |a| == |filled| >= FILL
    requires forall i :: 0 <= i < |a| ==> filled[i] == if i < FILL then value else a[i]
    ensures On(filled, t) <==> 1 <= t && if t <= 8 * FILL then Bit(value, (t - 1) % 8) else On(a, t)
  {
    hide Bit;
  }

  /** Joining any tag takes the tags up to 2040 out of a set of VLANs, where all were to be added. */
  lemma AnyVlanLoses(s: set<nat>, t: nat)
    requires forall u :: u in s ==> 1 <= u <= 4096
    ensures t in Filled(s, 4096, (512 % 0x100) as bv8) <==> t in s && t > 2040
  {
    assert (512 % 0x100) as bv8 == 0;
    NoBits(0);
    hide Bit;
  }

  // ---------------------------------------------------------------- counting

  function Ones(b: bv8, k: nat): nat
    requires k <= 8
  {
    if k == 0 then 0 else Ones(b, k - 1) + if Bit(b, k - 1) then 1 else 0
  }

  lemma {:induction false} OnesCounted(bytes: seq<bv8>, i: nat, k: nat)
    requires i < |bytes| && k <= 8
    ensures |TagsOf(bytes, 8 * i + k)| == |TagsOf(bytes, 8 * i)| + Ones(bytes[i], k)
  {
    hide Bit;
    if k > 0 {
      OnesCounted(bytes, i, k - 1);
      var t := 8 * i + k;
      assert On(bytes, t) <==> Bit(bytes[i], k - 1);
      assert TagsOf(bytes, t) == TagsOf(bytes, t - 1) + if On(bytes, t) then {t} else {};
    }
  }

  // ---------------------------------------------------------------- the class

  class ConstraintTagSet {
    const numBits: nat
    const byteArray: array<bv8>
    var hasAnyTag: bool

    constructor (n: nat)
      requires 1 <= n < ANY_TAG
      ensures Valid() && fresh(byteArray) && numBits == n && !hasAnyTag && Tags() == {}
    {
      numBits := n;
      byteArray := new bv8[(n - 1) / 8 + 1](i => 0);
      hasAnyTag := false;
      new;
      NoTags(byteArray[..]);
    }

    ghost predicate Valid()
      reads this, byteArray
    {
      && 1 <= numBits < ANY_TAG && byteArray.Length == (numBits - 1) / 8 + 1
      && forall t: nat :: On(byteArray[..], t) ==> t <= numBits
    }

    /** The tags in the set one by one; apart from them the set may hold any tag. */
    ghost function Tags(): set<nat>
      reads this, byteArray
    {
      TagsOf(byteArray[..], numBits)
    }

    method AddTag(tag: nat)
      requires Valid() && (tag == ANY_TAG || 1 <= tag <= numBits)
      modifies this, byteArray
      ensures Valid() && hasAnyTag == (old(hasAnyTag) || tag == ANY_TAG)
      ensures Tags() == old(Tags()) + if tag == ANY_TAG then {} else {tag}
    {
      hide Bit, Mask, On;
      if tag == ANY_TAG {
        hasAnyTag := true;
      } else {
        ghost var bytes := byteArray[..];
        var j, k := (tag - 1) / 8, (tag - 1) % 8;
        byteArray[j] := byteArray[j] | Mask(k);
        assert byteArray[..] == bytes[j := bytes[j] | Mask(k)];
        forall u ensures On(byteArray[..], u) <==> On(bytes, u) || u == tag {
          TagAdded(bytes, tag, u);
        }
      }
    }

    method DeleteTag(tag: nat)
      requires Valid() && (tag == ANY_TAG || 1 <= tag <= numBits)
      modifies this, byteArray
      ensures Valid() && hasAnyTag == (old(hasAnyTag) && tag != ANY_TAG)
      ensures Tags() == old(Tags()) - if tag == ANY_TAG then {} else {tag}
    {
      hide Bit, Mask, On;
      if tag == ANY_TAG {
        hasAnyTag := false;
      } else {
        ghost var bytes := byteArray[..];
        var j, k := (tag - 1) / 8, (tag - 1) % 8;
        byteArray[j] := byteArray[j] & !Mask(k);
        assert byteArray[..] == bytes[j := bytes[j] & !Mask(k)];
        forall u ensures On(byteArray[..], u) <==> On(bytes, u) && u != tag {
          TagDeleted(bytes, tag, u);
        }
      }
    }

    method IsEmpty() returns (empty: bool)
      requires Valid()
      ensures empty <==> !hasAnyTag && Tags() == {}
    {
      hide Bit, Mask, On;
      if hasAnyTag {
        return false;
      }
      NoTags(byteArray[..]);
      for i := 0 to byteArray.Length
        invariant forall j :: 0 <= j < i ==> byteArray[j] == 0
      {
        if byteArray[i] != 0 {
          assert byteArray[..][i] != 0;
          ghost var u :| On(byteArray[..], u);
          OnRange(byteArray[..], u);
          assert u in Tags();
          return false;
        }
      }
      assert Tags() == {};
      return true;
    }

    method HasTag(tag: nat) returns (has: bool)
      requires Valid()
      ensures has <==> if tag == ANY_TAG then hasAnyTag || Tags() != {} else tag in Tags()
    {
      if tag == ANY_TAG {
        var empty := IsEmpty();
        return !empty;
      }
      if tag == 0 || tag - 1 >= numBits {
        return false;
      }
      return Bit(byteArray[(tag - 1) / 8], (tag - 1) % 8);
    }

    method Intersect(tagset: ConstraintTagSet)
      requires Valid() && tagset.Valid() && numBits == tagset.numBits
      requires tagset == this || tagset.byteArray != byteArray
      modifies this, byteArray
      ensures Valid() && hasAnyTag == (old(hasAnyTag) && old(tagset.hasAnyTag))
      ensures Tags() == if old(tagset.hasAnyTag) then old(Tags()) else if old(hasAnyTag) then old(tagset.Tags())
                        else old(Tags()) * old(tagset.Tags())
    {
      hide Bit, Mask, On;
      if tagset.hasAnyTag {
        return;
      }
      if hasAnyTag {
        CopyBytes(tagset);
      } else {
        IntersectBytes(tagset);
      }
    }

    // Neither stands for all tags.
    method IntersectBytes(tagset: ConstraintTagSet)
      requires Valid() && tagset.Valid() && numBits == tagset.numBits
      requires tagset == this || tagset.byteArray != byteArray
      requires !hasAnyTag && !tagset.hasAnyTag
      modifies this`hasAnyTag, byteArray
      ensures Valid() && !hasAnyTag && Tags() == old(Tags()) * old(tagset.Tags())
    {
      hide Bit, Mask, On;
      ghost var a, b := byteArray[..], tagset.byteArray[..];
      for i := 0 to byteArray.Length
        invariant forall j :: 0 <= j < i ==> byteArray[j] == a[j] & b[j]
        invariant forall j :: i <= j < byteArray.Length ==> byteArray[j] == a[j] && tagset.byteArray[j] == b[j]
        invariant !hasAnyTag
      {
        byteArray[i] := byteArray[i] & tagset.byteArray[i];
      }
      hasAnyTag := false;
      forall u ensures On(byteArray[..], u) <==> On(a, u) && On(b, u) {
        TagsBoth(a, b, byteArray[..], u);
      }
    }

    method CopyBytes(tagset: ConstraintTagSet)
      requires Valid() && tagset.Valid() && numBits == tagset.numBits
      modifies this`hasAnyTag, byteArray
      ensures Valid() && !hasAnyTag && Tags() == old(tagset.Tags())
    {
      hide Bit, Mask, On;
      ghost var b := tagset.byteArray[..];
      forall i | 0 <= i < byteArray.Length {
        byteArray[i] := tagset.byteArray[i];
      }
      hasAnyTag := false;
      assert byteArray[..] == b;
    }

    /** Joining any tag fills the first 255 bytes with the number of bytes. */
    method Join(tagset: ConstraintTagSet)
      requires Valid() && tagset.Valid() && numBits == tagset.numBits
      requires tagset.hasAnyTag && !hasAnyTag ==> numBits > 8 * FILL
      requires tagset == this || tagset.byteArray != byteArray
      modifies this, byteArray
      ensures Valid() && hasAnyTag == (old(hasAnyTag) || old(tagset.hasAnyTag))
      ensures Tags() == if old(hasAnyTag) then old(Tags())
                        else if old(tagset.hasAnyTag) then
                          Filled(old(Tags()), numBits, (byteArray.Length % 0x100) as bv8)
                        else old(Tags()) + old(tagset.Tags())
    {
      hide Bit, Mask, On, Filled;
      ghost var a, b := byteArray[..], tagset.byteArray[..];
      if hasAnyTag {
        return;
      }
      if tagset.hasAnyTag {
        Fill((byteArray.Length % 0x100) as bv8);
        hasAnyTag := true;
        return;
      }
      for i := 0 to byteArray.Length
        invariant forall j :: 0 <= j < i ==> byteArray[j] == a[j] | b[j]
        invariant forall j :: i <= j < byteArray.Length ==> byteArray[j] == a[j] && tagset.byteArray[j] == b[j]
        invariant !hasAnyTag
      {
        byteArray[i] := byteArray[i] | tagset.byteArray[i];
      }
      forall u ensures On(byteArray[..], u) <==> On(a, u) || On(b, u) {
        TagsEither(a, b, byteArray[..], u);
      }
    }

    method Fill(value: bv8)
      requires Valid() && numBits > 8 * FILL
      modifies byteArray
      ensures Valid() && Tags() == Filled(old(Tags()), numBits, value)
    {
      hide Bit, Mask;
      ghost var a := byteArray[..];
      forall i | 0 <= i < FILL {
        byteArray[i] := value;
      }
      forall t: nat
        ensures On(byteArray[..], t) <==> 1 <= t && if t <= 8 * FILL then Bit(value, (t - 1) % 8) else On(a, t)
      {
        TagFilled(a, byteArray[..], value, t);
      }
      hide On;
    }

    /** How many tags there are one by one. */
    method Size() returns (num: nat)
      requires Valid()
      ensures num == |Tags()|
    {
      hide Bit, Mask, On;
      num := 0;
      var i := byteArray.Length;
      AllCounted(byteArray[..], numBits);
      while i > 0
        invariant 0 <= i <= byteArray.Length
        invariant num + |TagsOf(byteArray[..], 8 * i)| == |Tags()|
      {
        i := i - 1;
        OnesCounted(byteArray[..], i, 8);
        var ones := CountBits(byteArray[i]);
        num := num + ones;
      }
      assert TagsOf(byteArray[..], 0) == {};
    }

    /** Add the tags a text names: any, untagged, or tags and ranges of tags. */
    method LoadRangeString(rangeStr: string)
      requires Valid() && |rangeStr| < 256
      requires !NamesAny(rangeStr) ==> forall t :: t in NamedTags(rangeStr, numBits) ==> 1 <= t <= numBits
      modifies this, byteArray
      ensures Valid() && hasAnyTag == (old(hasAnyTag) || NamesAny(rangeStr))
      ensures forall t: nat :: t in Tags() <==>
        t in old(Tags()) || (!NamesAny(rangeStr) && t in NamedTags(rangeStr, numBits))
    {
      hide On, Split, AddedAll, Added, NamesAny, NamesUntagged;
      if NamesAny(rangeStr) {
        AddTag(ANY_TAG);
        return;
      }
      if NamesUntagged(rangeStr) {
        assert MAX_VLAN_NUM in NamedTags(rangeStr, numBits);
        AddTag(MAX_VLAN_NUM);
        return;
      }
      var buf := SkipDelimiters(rangeStr);
      ghost var added: set<int> := {};
      SplitSkips(rangeStr);
      while buf != []
        invariant Valid() && hasAnyTag == old(hasAnyTag) && (buf != [] ==> !IsDelimiter(buf[0]))
        invariant added + AddedAll(Split(buf), numBits) == AddedAll(Split(rangeStr), numBits)
        invariant forall t: nat :: t in Tags() <==> t in old(Tags()) || t in added
        decreases |buf|
      {
        var n := TokenLength(buf);
        var ptr := buf[..n];
        SplitFirst(buf, numBits);
        assert forall t :: t in Added(ptr, numBits) ==> t in NamedTags(rangeStr, numBits);
        LoadPiece(ptr);
        added := added + Added(ptr, numBits);
        SplitSkips(buf[n..]);
        buf := SkipDelimiters(buf[n..]);
      }
      SplitNone(numBits);
    }

    // One piece between delimiters.
    method LoadPiece(ptr: string)
      requires Valid() && forall t :: t in Added(ptr, numBits) ==> 1 <= t <= numBits
      modifies this, byteArray
      ensures Valid() && hasAnyTag == old(hasAnyTag)
      ensures forall t: nat :: t in Tags() <==> t in old(Tags()) || t in Added(ptr, numBits)
    {
      hide On, Scan;
      match Scan(ptr) {
        case Neither =>
        case Low(low) =>
          assert (if low <= 0 && numBits == MAX_VLAN_NUM then numBits else low) in Added(ptr, numBits);
          if low <= 0 && numBits == MAX_VLAN_NUM {
            AddTag(MAX_VLAN_NUM);
          } else {
            AddTag(low);
          }
        case Both(low, high) =>
          assert Added(ptr, numBits) == Interval(low, high);
          var t := low;
          while t <= high
            invariant Valid() && hasAnyTag == old(hasAnyTag) && low <= t <= (if low <= high then high + 1 else low)
            invariant forall u: nat :: u in Tags() <==> u in old(Tags()) || low <= u < t
          {
            assert t in Added(ptr, numBits);
            AddTag(t);
            t := t + 1;
          }
      }
    }

    /** The set as text. */
    method GetRangeString() returns (rangeStr: string)
      requires Valid()
      ensures rangeStr == if hasAnyTag then "any" else RangeString(Tags(), numBits)
    {
      hide On, TokensFrom, Joined, Decimal;
      if hasAnyTag {
        return "any";
      }
      ghost var s := Tags();
      var untagged := false;
      if numBits == MAX_VLAN_NUM {
        untagged := HasTag(MAX_VLAN_NUM);
      }
      var printed := PrintRuns();
      var buf := (if untagged then "0" else "") + printed;
      UntaggedFirst(s, numBits, untagged, printed);
      rangeStr := if |buf| > 0 && buf[0] == ',' then buf[1..] else buf;
    }

    // The runs of tags, each piece after a comma.
    method PrintRuns() returns (buf: string)
      requires Valid()
      ensures buf == Joined(Runs(Tags(), numBits))
    {
      hide On, TokensFrom, Joined, Decimal, RunEnd;
      ghost var s, closing := Tags(), numBits != MAX_VLAN_NUM;
      ghost var m := if closing then numBits else numBits - 1;
      ghost var all := Joined(Runs(s, numBits));
      var start: nat, end: nat := 1, 0;
      ghost var before := "";
      buf := "";
      assert buf + Joined(TokensFrom(s, 1, m, closing)) == all;
      var i := 1;
      while i <= numBits
        invariant 1 <= i <= m + 1 && start >= 1
        invariant Printing(buf, before, s, i, m, closing, start, end, all)
        decreases numBits - i
      {
        if numBits == MAX_VLAN_NUM && i == numBits {
          break;
        }
        var has := HasTag(i);
        if has {
          if end < start {
            PrintStart(buf, s, i, m, closing, all);
            before := buf;
            buf := buf + ("," + Decimal(i));
            start := i;
          } else {
            PrintOn(buf, before, s, i, m, closing, start, all);
          }
          if i == numBits {
            if i - start >= 2 {
              buf := buf + ("-" + Decimal(i));
            } else if i - start == 1 {
              buf := buf + ("," + Decimal(i));
            }
          }
          end := i;
        } else {
          PrintOff(buf, before, s, i, m, closing, start, end, all);
          if end - start >= 2 {
            buf := buf + ("-" + Decimal(end));
          } else if end - start == 1 {
            buf := buf + ("," + Decimal(end));
          }
          end := 0;
        }
        i := i + 1;
      }
    }
  }

  method CountBits(b: bv8) returns (num: nat)
    ensures num == Ones(b, 8)
  {
    num := 0;
    OnesAre(b);
    if b & 0x01 != 0 { num := num + 1; }
    if b & 0x02 != 0 { num := num + 1; }
    if b & 0x04 != 0 { num := num + 1; }
    if b & 0x08 != 0 { num := num + 1; }
    if b & 0x10 != 0 { num := num + 1; }
    if b & 0x20 != 0 { num := num + 1; }
    if b & 0x40 != 0 { num := num + 1; }
    if b & 0x80 != 0 { num := num + 1; }
  }

  function OneIf(c: bool): nat {
    if c then 1 else 0
  }

  lemma OnesAre(b: bv8)
    ensures Ones(b, 8) == OneIf(b & 0x80 != 0) + OneIf(b & 0x40 != 0) + OneIf(b & 0x20 != 0) + OneIf(b & 0x10 != 0)
      + OneIf(b & 0x08 != 0) + OneIf(b & 0x04 != 0) + OneIf(b & 0x02 != 0) + OneIf(b & 0x01 != 0)
  {
    OnesBits(b);
    hide Ones;
  }

  lemma OnesBits(b: bv8)
    ensures Ones(b, 8) == OneIf(Bit(b, 0)) + OneIf(Bit(b, 1)) + OneIf(Bit(b, 2)) + OneIf(Bit(b, 3))
      + OneIf(Bit(b, 4)) + OneIf(Bit(b, 5)) + OneIf(Bit(b, 6)) + OneIf(Bit(b, 7))
  {
    hide Bit;
    assert Ones(b, 1) == OneIf(Bit(b, 0));
    assert Ones(b, 2) == Ones(b, 1) + OneIf(Bit(b, 1));
    assert Ones(b, 4) == Ones(b, 2) + OneIf(Bit(b, 2)) + OneIf(Bit(b, 3));
    assert Ones(b, 6) == Ones(b, 4) + OneIf(Bit(b, 4)) + OneIf(Bit(b, 5));
    assert Ones(b, 8) == Ones(b, 6) + OneIf(Bit(b, 6)) + OneIf(Bit(b, 7));
  }

  lemma OnRange(bytes: seq<bv8>, u: nat)
    requires On(bytes, u)
    ensures 1 <= u <= 8 * |bytes|
  {
  }

  lemma AllCounted(bytes: seq<bv8>, n: nat)
    requires n <= 8 * |bytes| && forall t: nat :: On(bytes, t) ==> t <= n
    ensures TagsOf(bytes, 8 * |bytes|) == TagsOf(bytes, n)
  {
  }

  // ---------------------------------------------------------------- loading

  function Lower(c: char): char {
    if 'A' <= c <= 'Z' then (c as int - 'A' as int + 'a' as int) as char else c
  }

  predicate StartsWith(s: string, word: string) {
    |s| >= |word| && forall i :: 0 <= i < |word| ==> Lower(s[i]) == word[i]
  }

  predicate NamesAny(s: string) {
    StartsWith(s, "any")
  }

  // Five letters are enough.
  predicate NamesUntagged(s: string) {
    StartsWith(s, "untag")
  }

  function NamedTags(s: string, n: nat): set<int> {
    if NamesUntagged(s) then {MAX_VLAN_NUM as int} else AddedAll(Split(s), n)
  }

  lemma SplitSkips(s: string)
    ensures Split(SkipDelimiters(s)) == Split(s)
  {
    var s1 := SkipDelimiters(s);
    assert SkipDelimiters(s1) == s1;
  }

  lemma SplitFirst(s: string, n: nat)
    requires s != [] && !IsDelimiter(s[0])
    ensures var k := TokenLength(s);
      AddedAll(Split(s), n) == Added(s[..k], n) + AddedAll(Split(s[k..]), n)
  {
    hide Added;
    assert SkipDelimiters(s) == s;
    assert Split(s)[1..] == Split(s[TokenLength(s)..]);
  }

  lemma SplitNone(n: nat)
    ensures AddedAll(Split([]), n) == {}
  {
  }

  // ---------------------------------------------------------------- printing

  ghost function Runs(s: set<nat>, n: nat): seq<Token> {
    if n == MAX_VLAN_NUM then TokensFrom(s, 1, n - 1, false) else TokensFrom(s, 1, n, true)
  }

  lemma UntaggedFirst(s: set<nat>, n: nat, untagged: bool, printed: string)
    requires untagged == (n == MAX_VLAN_NUM && n in s) && printed == Joined(Runs(s, n))
    ensures var buf := (if untagged then "0" else "") + printed;
      RangeString(s, n) == if |buf| > 0 && buf[0] == ',' then buf[1..] else buf
  {
    hide TokensFrom;
    var runs := Runs(s, n);
    if untagged {
      assert ([One(0)] + runs)[1..] == runs;
      ZeroFirst(runs);
    } else {
      assert Tokens(s, n) == runs;
      assert "" + printed == printed;
    }
  }

  lemma ZeroFirst(runs: seq<Token>)
    ensures var all := Joined([One(0)] + runs); all != "" && all[1..] == "0" + Joined(runs)
  {
    assert ([One(0)] + runs)[1..] == runs;
    assert Text(One(0)) == "0";
  }

  /** Before tag `i` is looked at: what is printed and what is to come make up the whole. In a run, only
      its first tag has been printed, after `before`. */
  ghost predicate Printing(buf: string, before: string, s: set<nat>, i: nat, m: nat, closing: bool,
                           start: nat, end: nat, all: string)
  {
    if i > m then buf == all
    else if end < start then buf + Joined(TokensFrom(s, i, m, closing)) == all
    else end + 1 == i && OpenRun(buf, before, s, i, m, closing, start, all)
  }

  ghost predicate OpenRun(buf: string, before: string, s: set<nat>, i: nat, m: nat, closing: bool,
                          start: nat, all: string)
  {
    && (forall t :: start <= t < i ==> t in s) && buf == before + ("," + Decimal(start))
    && before + Joined(TokensFrom(s, start, m, closing)) == all
  }

  lemma RunEndIs(s: set<nat>, a: nat, e: nat, m: nat)
    requires a <= e <= m && (forall t :: a < t <= e ==> t in s) && (e < m ==> e + 1 !in s)
    ensures RunEnd(s, a, m) == e
  {
    hide RunEnd;
    var r := RunEnd(s, a, m);
    assert r < e ==> r + 1 in s;
  }

  lemma TokensRun(s: set<nat>, a: nat, e: nat, m: nat, closing: bool)
    requires a <= e <= m && (forall t :: a <= t <= e ==> t in s) && (e < m ==> e + 1 !in s)
    ensures Joined(TokensFrom(s, a, m, closing)) ==
      Joined(RunTokens(a, e, e < m || closing)) + Joined(TokensFrom(s, e + 1, m, closing))
  {
    hide *;
    RunEndIs(s, a, e, m);
    assert a in s;
    TokensFromRun(s, a, m, closing);
    JoinedConcat(RunTokens(a, e, e < m || closing), TokensFrom(s, e + 1, m, closing));
  }

  lemma JoinRun(a: nat, e: nat, closed: bool)
    requires a <= e
    ensures Joined(RunTokens(a, e, closed)) == ("," + Decimal(a)) + if closed then Ending(a, e) else ""
  {
    hide Decimal;
    var ts := RunTokens(a, e, closed);
    if |ts| == 2 {
      assert ts[1..] == [One(e)] && ts[1..][1..] == [];
      assert Joined(ts[1..]) == "," + Decimal(e) + "";
    } else {
      assert ts[1..] == [];
    }
  }

  // The first tag of a run.
  lemma PrintStart(buf: string, s: set<nat>, i: nat, m: nat, closing: bool, all: string)
    requires i <= m && i in s && buf + Joined(TokensFrom(s, i, m, closing)) == all
    ensures if i == m then buf + ("," + Decimal(i)) == all
            else OpenRun(buf + ("," + Decimal(i)), buf, s, i + 1, m, closing, i, all)
  {
    hide Decimal, TokensFrom;
    if i == m {
      TokensRun(s, i, i, m, closing);
      JoinRun(i, i, closing);
      NothingFrom(s, m, closing);
    }
  }

  lemma NothingFrom(s: set<nat>, m: nat, closing: bool)
    ensures Joined(TokensFrom(s, m + 1, m, closing)) == ""
  {
  }

  // The run goes on.
  lemma PrintOn(buf: string, before: string, s: set<nat>, i: nat, m: nat, closing: bool, start: nat, all: string)
    requires start < i <= m && i in s && OpenRun(buf, before, s, i, m, closing, start, all)
    ensures if i == m then
              buf + (if closing then Ending(start, i) else "") == all
            else OpenRun(buf, before, s, i + 1, m, closing, start, all)
  {
    hide Decimal, TokensFrom, Joined, Ending;
    if i == m {
      TokensRun(s, start, i, m, closing);
      JoinRun(start, i, closing);
      NothingFrom(s, m, closing);
      var ending := if closing then Ending(start, i) else "";
      Regroup(before, "," + Decimal(start), ending, "");
      NothingAfter(before + ("," + Decimal(start)) + ending);
    }
  }

  lemma NothingAfter(s: string)
    ensures s + "" == s
  {
  }

  // A tag that is not there ends a run, if there is one.
  lemma PrintOff(buf: string, before: string, s: set<nat>, i: nat, m: nat, closing: bool, start: nat, end: nat,
      all: string)
    requires i <= m && i !in s && Printing(buf, before, s, i, m, closing, start, end, all)
    ensures var buf' := buf + Ending(start, end);
      if i == m then buf' == all else buf' + Joined(TokensFrom(s, i + 1, m, closing)) == all
  {
    hide Decimal, Joined;
    assert TokensFrom(s, i, m, closing) == TokensFrom(s, i + 1, m, closing);
    NothingFrom(s, m, closing);
    hide TokensFrom;
    if end >= start {
      TokensRun(s, start, end, m, closing);
      JoinRun(start, end, true);
      Regroup(before, "," + Decimal(start), Ending(start, end), Joined(TokensFrom(s, i, m, closing)));
    }
  }

  // What is printed at the end of a run.
  function Ending(start: nat, end: nat): string {
    if end >= start + 2 then "-" + Decimal(end) else if end == start + 1 then "," + Decimal(end) else ""
  }

  lemma Regroup(a: string, b: string, c: string, d: string)
    ensures a + ((b + c) + d) == ((a + b) + c) + d
  {
  }

  // ---------------------------------------------------------------- round trip

  lemma PrintedIsNotNamed(s: set<nat>, n: nat)
    ensures !NamesAny(RangeString(s, n)) && !NamesUntagged(RangeString(s, n))
  {
    hide TokensFrom, Decimal;
    var ts := Tokens(s, n);
    if ts != [] {
      assert IsDigit(Decimal(if ts[0].One? then ts[0].tag else ts[0].low)[0]);
      assert IsDigit(Text(ts[0])[0]);
      assert Joined(ts)[1..] == Text(ts[0]) + Joined(ts[1..]);
      assert IsDigit(RangeString(s, n)[0]);
    }
  }

  /** A set without "any" is restored from its text by an empty set of the same size, unless it is a set
      of VLANs with both 4094 and 4095. */
  lemma TextRestoresExactlyWhen(s: set<nat>, n: nat)
    requires forall t :: t in s ==> 1 <= t <= n
    ensures !NamesAny(RangeString(s, n))
    ensures (forall t: int :: t in NamedTags(RangeString(s, n), n) <==> t in s)
      <==> !(n == MAX_VLAN_NUM && 4094 in s && 4095 in s)
  {
    hide RangeString, NamesAny, NamesUntagged, Split, AddedAll;
    PrintedIsNotNamed(s, n);
    RestoresExactlyWhen(s, n);
  }

  /** The set of the last two VLANs is not restored. */
  lemma LastVlansLost()
    ensures var s := {4094, 4095}; !(forall t: int :: t in NamedTags(RangeString(s, 4096), 4096) <==> t in s)
  {
    hide RangeString, NamedTags;
    TextRestoresExactlyWhen({4094, 4095}, 4096);
  }
}
