/** Reading a request back: the user constraint is restored from its fields, whatever their order. */
module Receiving {
  import opened Octets
  import opened Codec
  import opened Lists
  import opened Requests

  predicate IsNumber(tag: Octet) {
    || tag == PCE_STARTTIME || tag == PCE_ENDTIME || tag == PCE_SRCIPPORT || tag == PCE_DESTIPPORT
    || tag == PCE_MPLS_BURSTLIMIT
  }

  predicate IsText(tag: Octet) {
    || tag == PCE_GRI || tag == PCE_LAYER || tag == PCE_SOURCE || tag == PCE_DESTINATION
    || tag == PCE_PATHSETUPMODEL || tag == PCE_PATHTYPE || tag == PCE_SRCVLAN || tag == PCE_DESTVLAN
    || tag == PCE_L3_PROTOCOL || tag == PCE_L3_DSCP || tag == PCE_MPLS_LSPCLASS
  }

  /** A field of a user constraint; numbers have at least one octet. */
  predicate Known(f: Field) {
    |f.content| < 0x100_0000 && (IsText(f.tag) || ((IsNumber(f.tag) || f.tag == PCE_BANDWIDTH) && f.content != []))
  }

  predicate AllKnown(fs: seq<Field>) {
    forall i :: 0 <= i < |fs| ==> Known(fs[i])
  }

  function IntOf(s: seq<Octet>): u32 {
    WordOfNumber(Extend(s, 4));
    Powers();
    Number(Extend(s, 4))
  }

  function LongOf(s: seq<Octet>): u64 {
    WordOfNumber(Extend(s, 8));
    Powers();
    Number(Extend(s, 8))
  }

  function SetNumber(c: UserConstraint, tag: Octet, n: u32): UserConstraint {
    if tag == PCE_STARTTIME then c.(startTime := n)
    else if tag == PCE_ENDTIME then c.(endTime := n)
    else if tag == PCE_SRCIPPORT then c.(srcIpPort := n)
    else if tag == PCE_DESTIPPORT then c.(destIpPort := n)
    else c.(burstLimit := n)
  }

  function SetText(c: UserConstraint, tag: Octet, t: Text): UserConstraint {
    if tag == PCE_GRI then c.(gri := t)
    else if tag == PCE_LAYER then c.(layer := t)
    else if tag == PCE_SOURCE then c.(srcEndPoint := t)
    else if tag == PCE_DESTINATION then c.(destEndPoint := t)
    else if tag == PCE_PATHSETUPMODEL then c.(pathSetupModel := t)
    else if tag == PCE_PATHTYPE then c.(pathType := t)
    else if tag == PCE_SRCVLAN then c.(srcVlanTag := t)
    else if tag == PCE_DESTVLAN then c.(destVlanTag := t)
    else if tag == PCE_L3_PROTOCOL then c.(protocol := t)
    else if tag == PCE_L3_DSCP then c.(dscp := t)
    else c.(lspClass := t)
  }

  function Apply(c: UserConstraint, f: Field): UserConstraint {
    if IsNumber(f.tag) then SetNumber(c, f.tag, IntOf(f.content))
    else if f.tag == PCE_BANDWIDTH then c.(bandwidth := LongOf(f.content))
    else SetText(c, f.tag, f.content)
  }

  function ApplyAll(c: UserConstraint, fs: seq<Field>): UserConstraint
    decreases |fs|
  {
    if fs == [] then c else ApplyAll(Apply(c, fs[0]), fs[1..])
  }

  /** Only what belongs to the layer is kept. */
  function OfLayer(c: UserConstraint): UserConstraint {
    var c1 := if c.layer == LAYER2 then c else c.(srcVlanTag := [], destVlanTag := []);
    if c.layer == LAYER3 then c1
    else c1.(srcIpPort := 0, destIpPort := 0, protocol := [], dscp := [], burstLimit := 0, lspClass := [])
  }

  function Received(fs: seq<Field>): UserConstraint {
    OfLayer(ApplyAll(BLANK, fs))
  }

  // ---------------------------------------------------------------- which field tells what

  /** The content of the last field with this tag. */
  function Last(fs: seq<Field>, tag: Octet): Option<seq<Octet>> {
    if fs == [] then None
    else if fs[|fs| - 1].tag == tag then Some(fs[|fs| - 1].content)
    else Last(fs[..|fs| - 1], tag)
  }

  function LastText(fs: seq<Field>, tag: Octet): Text {
    if Last(fs, tag).Some? then Last(fs, tag).value else []
  }

  function LastNumber(fs: seq<Field>, tag: Octet): u32 {
    if Last(fs, tag).Some? then IntOf(Last(fs, tag).value) else 0
  }

  lemma {:induction false} ApplyLast(c: UserConstraint, fs: seq<Field>)
    requires fs != []
    ensures ApplyAll(c, fs) == Apply(ApplyAll(c, fs[..|fs| - 1]), fs[|fs| - 1])
    decreases |fs|
  {
    hide Apply;
    if |fs| > 1 {
      ApplyLast(Apply(c, fs[0]), fs[1..]);
      assert fs[1..][..|fs| - 2] == fs[..|fs| - 1][1..];
    } else {
      assert fs[1..] == [] && fs[..0] == [];
    }
  }

  // What the common fields tell.
  ghost predicate CommonTold(c: UserConstraint, fs: seq<Field>) {
    TextsTold(c, fs) && NumbersTold(c, fs)
  }

  ghost predicate TextsTold(c: UserConstraint, fs: seq<Field>) {
    && c.gri == LastText(fs, 0x81) && c.layer == LastText(fs, 0x83)
    && c.srcEndPoint == LastText(fs, 0x84) && c.destEndPoint == LastText(fs, 0x85)
    && c.pathSetupModel == LastText(fs, 0x8A) && c.pathType == LastText(fs, 0x8B)
  }

  ghost predicate NumbersTold(c: UserConstraint, fs: seq<Field>) {
    && c.bandwidth == (if Last(fs, 0x86).Some? then LongOf(Last(fs, 0x86).value) else 0)
    && c.startTime == LastNumber(fs, 0x88) && c.endTime == LastNumber(fs, 0x89)
  }

  ghost predicate LayersTold(c: UserConstraint, fs: seq<Field>) {
    TagsTold(c, fs) && PortsTold(c, fs)
  }

  ghost predicate TagsTold(c: UserConstraint, fs: seq<Field>) {
    && c.srcVlanTag == LastText(fs, 0x8C) && c.destVlanTag == LastText(fs, 0x8D)
    && c.protocol == LastText(fs, 0x91) && c.dscp == LastText(fs, 0x92) && c.lspClass == LastText(fs, 0x94)
  }

  ghost predicate PortsTold(c: UserConstraint, fs: seq<Field>) {
    && c.srcIpPort == LastNumber(fs, 0x8F) && c.destIpPort == LastNumber(fs, 0x90)
    && c.burstLimit == LastNumber(fs, 0x93)
  }

  lemma {:induction false} AllTold(fs: seq<Field>)
    requires AllKnown(fs)
    ensures CommonTold(ApplyAll(BLANK, fs), fs) && LayersTold(ApplyAll(BLANK, fs), fs)
    decreases |fs|
  {
    if fs != [] {
      ApplyLast(BLANK, fs);
      var front, f := fs[..|fs| - 1], fs[|fs| - 1];
      assert Known(f);
      AllTold(front);
      hide ApplyAll, IntOf, LongOf;
      OneTold(ApplyAll(BLANK, front), front, f, fs);
    }
  }

  lemma LastIs(front: seq<Field>, f: Field, fs: seq<Field>, tag: Octet)
    requires fs != [] && front == fs[..|fs| - 1] && f == fs[|fs| - 1]
    ensures LastText(fs, tag) == if f.tag == tag then f.content else LastText(front, tag)
    ensures LastNumber(fs, tag) == if f.tag == tag then IntOf(f.content) else LastNumber(front, tag)
    ensures Last(fs, tag) == if f.tag == tag then Some(f.content) else Last(front, tag)
  {
    hide IntOf;
  }

  lemma LastAre(front: seq<Field>, f: Field, fs: seq<Field>)
    requires fs != [] && front == fs[..|fs| - 1] && f == fs[|fs| - 1]
    ensures forall tag: Octet :: LastText(fs, tag) == if f.tag == tag then f.content else LastText(front, tag)
    ensures forall tag: Octet ::
      LastNumber(fs, tag) == if f.tag == tag then IntOf(f.content) else LastNumber(front, tag)
    ensures forall tag: Octet :: Last(fs, tag) == if f.tag == tag then Some(f.content) else Last(front, tag)
  {
    hide *;
    forall tag: Octet
      ensures LastText(fs, tag) == if f.tag == tag then f.content else LastText(front, tag)
      ensures LastNumber(fs, tag) == if f.tag == tag then IntOf(f.content) else LastNumber(front, tag)
      ensures Last(fs, tag) == if f.tag == tag then Some(f.content) else Last(front, tag)
    {
      LastIs(front, f, fs, tag);
    }
  }

  lemma OneTold(c: UserConstraint, front: seq<Field>, f: Field, fs: seq<Field>)
    requires fs != [] && front == fs[..|fs| - 1] && f == fs[|fs| - 1] && Known(f)
    requires CommonTold(c, front) && LayersTold(c, front)
    ensures CommonTold(Apply(c, f), fs) && LayersTold(Apply(c, f), fs)
  {
    hide TextsTold, NumbersTold, TagsTold, PortsTold, Apply;
    OneText(c, front, f, fs);
    OneNumber(c, front, f, fs);
    OneTag(c, front, f, fs);
    OnePort(c, front, f, fs);
  }

  lemma OneText(c: UserConstraint, front: seq<Field>, f: Field, fs: seq<Field>)
    requires fs != [] && front == fs[..|fs| - 1] && f == fs[|fs| - 1] && Known(f)
    requires TextsTold(c, front)
    ensures TextsTold(Apply(c, f), fs)
  {
    LastAre(front, f, fs);
    hide Last, LastText, LastNumber, IntOf, LongOf;
    if IsNumber(f.tag) {
      assert Apply(c, f) == SetNumber(c, f.tag, IntOf(f.content));
      hide Apply, SetText, IsText;
    } else if f.tag == 0x86 {
      assert Apply(c, f) == c.(bandwidth := LongOf(f.content));
      hide Apply, SetText, SetNumber, IsText;
    } else {
      assert Apply(c, f) == SetText(c, f.tag, f.content);
      hide Apply, SetNumber, IsNumber;
    }
  }

  lemma OneNumber(c: UserConstraint, front: seq<Field>, f: Field, fs: seq<Field>)
    requires fs != [] && front == fs[..|fs| - 1] && f == fs[|fs| - 1] && Known(f)
    requires NumbersTold(c, front)
    ensures NumbersTold(Apply(c, f), fs)
  {
    LastAre(front, f, fs);
    hide Last, LastText, LastNumber, IntOf, LongOf;
    if IsNumber(f.tag) {
      assert Apply(c, f) == SetNumber(c, f.tag, IntOf(f.content));
      hide Apply, SetText, IsText;
    } else if f.tag == 0x86 {
      assert Apply(c, f) == c.(bandwidth := LongOf(f.content));
      hide Apply, SetText, SetNumber, IsText;
    } else {
      assert Apply(c, f) == SetText(c, f.tag, f.content);
      hide Apply, SetNumber, IsNumber;
    }
  }

  lemma OneTag(c: UserConstraint, front: seq<Field>, f: Field, fs: seq<Field>)
    requires fs != [] && front == fs[..|fs| - 1] && f == fs[|fs| - 1] && Known(f)
    requires TagsTold(c, front)
    ensures TagsTold(Apply(c, f), fs)
  {
    LastAre(front, f, fs);
    hide Last, LastText, LastNumber, IntOf, LongOf;
    if IsNumber(f.tag) {
      assert Apply(c, f) == SetNumber(c, f.tag, IntOf(f.content));
      hide Apply, SetText, IsText;
    } else if f.tag == 0x86 {
      assert Apply(c, f) == c.(bandwidth := LongOf(f.content));
      hide Apply, SetText, SetNumber, IsText;
    } else {
      assert Apply(c, f) == SetText(c, f.tag, f.content);
      hide Apply, SetNumber, IsNumber;
    }
  }

  lemma OnePort(c: UserConstraint, front: seq<Field>, f: Field, fs: seq<Field>)
    requires fs != [] && front == fs[..|fs| - 1] && f == fs[|fs| - 1] && Known(f)
    requires PortsTold(c, front)
    ensures PortsTold(Apply(c, f), fs)
  {
    LastAre(front, f, fs);
    hide Last, LastText, LastNumber, IntOf, LongOf;
    if IsNumber(f.tag) {
      assert Apply(c, f) == SetNumber(c, f.tag, IntOf(f.content));
      hide Apply, SetText, IsText;
    } else if f.tag == 0x86 {
      assert Apply(c, f) == c.(bandwidth := LongOf(f.content));
      hide Apply, SetText, SetNumber, IsText;
    } else {
      assert Apply(c, f) == SetText(c, f.tag, f.content);
      hide Apply, SetNumber, IsNumber;
    }
  }

  /** What is received is what the last fields of the tags tell; VLANs are dropped unless the layer is 2, and
      ports and classes unless it is 3. */
  lemma ReceivedTells(fs: seq<Field>)
    requires AllKnown(fs)
    ensures var c := Received(fs);
      && CommonTold(c, fs)
      && (c.layer == [0x32] ==> c.srcVlanTag == LastText(fs, 0x8C) && c.destVlanTag == LastText(fs, 0x8D))
      && (c.layer != [0x32] ==> c.srcVlanTag == c.destVlanTag == [])
      && (c.layer == [0x33] ==>
            && c.srcIpPort == LastNumber(fs, 0x8F) && c.destIpPort == LastNumber(fs, 0x90)
            && c.protocol == LastText(fs, 0x91) && c.dscp == LastText(fs, 0x92)
            && c.burstLimit == LastNumber(fs, 0x93) && c.lspClass == LastText(fs, 0x94))
      && (c.layer != [0x33] ==>
            && c.srcIpPort == c.destIpPort == c.burstLimit == 0 && c.protocol == c.dscp == c.lspClass == [])
  {
    AllTold(fs);
    hide ApplyAll, Last, IntOf, LongOf;
  }

  // ---------------------------------------------------------------- reading

  // Where the parts of a field are.
  lemma FieldAt(body: seq<Octet>, pos: nat, end: nat, f: Field, more: seq<Octet>)
    requires pos <= end <= |body| && body[pos..end] == FieldOctets(f.tag, f.content) + more && |f.content| < 0x100_0000
    ensures var n := |LenOctets(|f.content|)|; var at := pos + 1 + n;
      && 1 <= n <= 4 && at + |f.content| <= end && body[pos] == f.tag && LenSize(body[pos + 1]) == n
      && LenNumber(body[pos + 1..at]) == |f.content| && body[at..at + |f.content|] == f.content
      && body[at + |f.content|..end] == more
  {
    hide LenOctets, LenNumber;
    var len := LenOctets(|f.content|);
    LenRoundTrip(|f.content|);
    var n, at := |len|, pos + 1 + |len|;
    var all := [f.tag] + len + f.content + more;
    assert body[pos..end] == all;
    assert all[0] == f.tag && all[1] == len[0] && all[1..1 + n] == len;
    assert all[1 + n..1 + n + |f.content|] == f.content && all[1 + n + |f.content|..] == more;
    Slices(body, pos, end, 1, 1 + n);
    Slices(body, pos, end, 1 + n, 1 + n + |f.content|);
    Slices(body, pos, end, 1 + n + |f.content|, end - pos);
    assert all[1 + n + |f.content|..end - pos] == more;
  }

  lemma Slices(body: seq<Octet>, pos: nat, end: nat, a: nat, b: nat)
    requires pos <= end <= |body| && a <= b <= end - pos
    ensures body[pos..end][a..b] == body[pos + a..pos + b]
  {
    var all := body[pos..end];
    forall i | 0 <= i < b - a ensures all[a..b][i] == body[pos + a..pos + b][i] {
      assert all[a + i] == body[pos + a + i];
    }
  }

  /** One field: every case of the switch reads the length, then the content. */
  method DecodeField(body: seq<Octet>, pos: nat, c: UserConstraint, ghost end: nat, ghost f: Field,
      ghost more: seq<Octet>)
      returns (c': UserConstraint, length: nat, lenTagLen: nat, next: nat)
    requires pos <= end <= |body| && body[pos..end] == FieldOctets(f.tag, f.content) + more && Known(f)
    ensures c' == Apply(c, f) && next == pos + 1 + lenTagLen + length <= end && body[next..end] == more
  {
    hide FieldOctets, LenOctets, Extend, Number, LenNumber;
    FieldAt(body, pos, end, f, more);
    var tag := body[pos];
    var len;
    len, lenTagLen, next := GetLen(body, pos + 1);
    length := len;
    if IsNumber(tag) {
      var n;
      n, next := DecodeInt(body, next, length);
      c' := SetNumber(c, tag, n);
    } else if tag == PCE_BANDWIDTH {
      var n;
      n, next := DecodeLong(body, next, length);
      c' := c.(bandwidth := n);
    } else {
      var t;
      t, next := DecodeStr(body, next, length);
      c' := SetText(c, tag, t);
    }
  }

  /** A section of known fields. */
  method DecodeUserCons(body: seq<Octet>, pos: nat, totalLen: nat, ghost fs: seq<Field>)
      returns (c: UserConstraint, next: nat)
    requires pos + totalLen <= |body| && body[pos..pos + totalLen] == FieldsOctets(fs) && AllKnown(fs)
    ensures c == Received(fs) && next == pos + totalLen
  {
    hide FieldOctets, Apply, Known;
    c, next := BLANK, pos;
    var lengthOffset := 0;
    ghost var rest := fs;
    while lengthOffset < totalLen
      invariant next == pos + lengthOffset <= pos + totalLen && AllKnown(rest)
      invariant body[next..pos + totalLen] == FieldsOctets(rest) && ApplyAll(c, rest) == ApplyAll(BLANK, fs)
    {
      var length, lenTagLen;
      c, length, lenTagLen, next := DecodeField(body, next, c, pos + totalLen, rest[0], FieldsOctets(rest[1..]));
      rest := rest[1..];
      lengthOffset := lengthOffset + length + lenTagLen + 1;
    }
    NoFieldsLeft(rest);
    c := OfLayer(c);
  }

  lemma NoFieldsLeft(fs: seq<Field>)
    requires FieldsOctets(fs) == []
    ensures fs == []
  {
  }

  /** The body of a message that is one user constraint section, of which the header says how long it is;
      other messages give nothing. Unless `stopped`, the decoder goes on to look for another section, in
      octets that are not of the message. */
  method DecodeMsg(body: seq<Octet>, msgLength: nat, ghost fs: seq<Field>)
      returns (c: Option<UserConstraint>, next: nat, stopped: bool)
    requires body != []
    requires body[0] == PCE_USERCONSTRAINT ==>
      body == Section(FieldsOctets(fs)) && |FieldsOctets(fs)| < 0x100_0000 && AllKnown(fs)
    ensures body[0] != PCE_USERCONSTRAINT ==> c == None && stopped
    ensures body[0] == PCE_USERCONSTRAINT ==>
      c == Some(Received(fs)) && next == |body| && (stopped <==> |body| == msgLength)
  {
    hide FieldsOctets, Received, LenNumber;
    c, next, stopped := None, 1, true;
    if body[0] == PCE_USERCONSTRAINT {
      assert body[0..|body|] == body == FieldOctets(PCE_USERCONSTRAINT, FieldsOctets(fs)) + [];
      FieldAt(body, 0, |body|, Field(PCE_USERCONSTRAINT, FieldsOctets(fs)), []);
      var length, lenTagLen;
      length, lenTagLen, next := GetLen(body, 1);
      var cons;
      cons, next := DecodeUserCons(body, next, length, fs);
      c := Some(cons);
      stopped := 1 + lenTagLen + length == msgLength;
    }
  }

  // ---------------------------------------------------------------- round trips

  function SignExtended(n: u32): u64 {
    if n < 0x8000_0000 then n else n + 0xFFFF_FFFF_0000_0000
  }

  /** What the receiver makes of a user constraint: the fields of the other layer are gone, and the
      bandwidth is what its low 32 bits stand for as a signed number. */
  function Restored(c: UserConstraint): UserConstraint {
    OfLayer(c).(bandwidth := SignExtended(Truncated(c.bandwidth)))
  }

  lemma IntRoundTrip(n: u32)
    ensures IntOf(IntOctets(Word(n, 4))) == n
    ensures IntOctets(Word(n, 4)) != [] && |IntOctets(Word(n, 4))| <= 4
  {
    Powers();
    NumberOfWord(n, 4);
    ExtendIntOctets(Word(n, 4), 4);
    IntOctetsStandFor(Word(n, 4));
  }

  /** A number of 64 bits is read back. */
  lemma LongRoundTrip(n: u64)
    ensures LongOf(IntOctets(Word(n, 8))) == n
    ensures IntOctets(Word(n, 8)) != [] && |IntOctets(Word(n, 8))| <= 8
  {
    Powers();
    NumberOfWord(n, 8);
    ExtendIntOctets(Word(n, 8), 8);
    IntOctetsStandFor(Word(n, 8));
  }

  // A number sent as 32 bits and read as 64 is taken to be signed.
  lemma IntReadAsLong(n: u32)
    ensures LongOf(IntOctets(Word(n, 4))) == SignExtended(n)
  {
    hide Word, IntOctets;
    var x := Word(n, 4);
    NumberOfWord(n, 4) by { Powers(); }
    ExtendIntOctets(x, 8);
    NumberFirst(x[0], x[1..]);
    WordOfNumber(x[1..]);
    assert x == [x[0]] + x[1..];
    Powers();
    assert Sign(x) == if n < 0x8000_0000 then 0 else 255;
    NumberExtended(x);
  }

  lemma NumberExtended(x: seq<Octet>)
    requires |x| == 4
    ensures Number(Extend(x, 8)) == Number(x) + if Sign(x) == 255 then 0xFFFF_FFFF_0000_0000 else 0
  {
    hide Number, Power;
    var b := Sign(x);
    Powers();
    MorePowers();
    NumberFirst(b, x);
    NumberFirst(b, [b] + x);
    NumberFirst(b, [b] + ([b] + x));
    NumberFirst(b, [b] + ([b] + ([b] + x)));
    assert Extend(x, 8) == [b] + ([b] + ([b] + ([b] + x)));
  }

  lemma MorePowers()
    ensures Power(5) == 0x100_0000_0000 && Power(6) == 0x1_0000_0000_0000 && Power(7) == 0x100_0000_0000_0000
  {
    Powers();
    assert Power(5) == 256 * Power(4);
    assert Power(6) == 256 * Power(5);
  }

  lemma {:induction false} ApplyAllConcat(c: UserConstraint, a: seq<Field>, b: seq<Field>)
    ensures ApplyAll(c, a + b) == ApplyAll(ApplyAll(c, a), b)
    decreases |a|
  {
    hide Apply;
    if a == [] {
      assert a + b == b;
    } else {
      assert (a + b)[1..] == a[1..] + b;
      ApplyAllConcat(Apply(c, a[0]), a[1..], b);
    }
  }

  lemma ApplyText(c: UserConstraint, fs: seq<Field>, tag: Octet, t: Text)
    requires IsText(tag)
    ensures var c1 := ApplyAll(c, fs);
      ApplyAll(c, fs + TextField(tag, t)) == if t == [] then c1 else SetText(c1, tag, t)
  {
    hide SetText;
    ApplyAllConcat(c, fs, TextField(tag, t));
    ApplyOne(ApplyAll(c, fs), Field(tag, t));
  }

  lemma ApplyNumber(c: UserConstraint, fs: seq<Field>, tag: Octet, n: u32)
    requires IsNumber(tag)
    ensures var c1 := ApplyAll(c, fs);
      ApplyAll(c, fs + NumberField(tag, n)) == if n == 0 then c1 else SetNumber(c1, tag, n)
  {
    hide SetNumber, IntOf, IntOctets, Word;
    ApplyAllConcat(c, fs, NumberField(tag, n));
    IntRoundTrip(n);
    ApplyOne(ApplyAll(c, fs), Field(tag, IntOctets(Word(n, 4))));
  }

  lemma ApplyOne(c: UserConstraint, f: Field)
    ensures ApplyAll(c, [f]) == Apply(c, f) && ApplyAll(c, []) == c
  {
    hide Apply;
    assert [f][1..] == [];
  }

  lemma ApplyBandwidth(c: UserConstraint, fs: seq<Field>, n: u32)
    requires ApplyAll(c, fs).bandwidth == 0
    ensures ApplyAll(c, fs + NumberField(PCE_BANDWIDTH, n)) == ApplyAll(c, fs).(bandwidth := SignExtended(n))
  {
    hide LongOf, IntOctets, Word;
    ApplyAllConcat(c, fs, NumberField(PCE_BANDWIDTH, n));
    IntReadAsLong(n);
    ApplyOne(ApplyAll(c, fs), Field(PCE_BANDWIDTH, IntOctets(Word(n, 4))));
  }

  lemma CommonRestored(c: UserConstraint)
    ensures ApplyAll(BLANK, CommonFields(c)) ==
      UserConstraint(c.gri, c.startTime, c.endTime, SignExtended(Truncated(c.bandwidth)), c.layer, c.pathSetupModel,
                     c.pathType, c.srcEndPoint, c.destEndPoint, [], [], 0, 0, [], [], 0, [])
  {
    hide ApplyAll, TextField, NumberField, SignExtended, Truncated;
    ApplyNothing(BLANK);
    ApplyText(BLANK, [], PCE_GRI, c.gri);
    var f1 := [] + TextField(PCE_GRI, c.gri);
    ApplyNumber(BLANK, f1, PCE_STARTTIME, c.startTime);
    var f2 := f1 + NumberField(PCE_STARTTIME, c.startTime);
    ApplyNumber(BLANK, f2, PCE_ENDTIME, c.endTime);
    var f3 := f2 + NumberField(PCE_ENDTIME, c.endTime);
    ApplyBandwidth(BLANK, f3, Truncated(c.bandwidth));
    var f4 := f3 + NumberField(PCE_BANDWIDTH, Truncated(c.bandwidth));
    ApplyText(BLANK, f4, PCE_SOURCE, c.srcEndPoint);
    var f5 := f4 + TextField(PCE_SOURCE, c.srcEndPoint);
    ApplyText(BLANK, f5, PCE_DESTINATION, c.destEndPoint);
    var f6 := f5 + TextField(PCE_DESTINATION, c.destEndPoint);
    ApplyText(BLANK, f6, PCE_PATHSETUPMODEL, c.pathSetupModel);
    var f7 := f6 + TextField(PCE_PATHSETUPMODEL, c.pathSetupModel);
    ApplyText(BLANK, f7, PCE_PATHTYPE, c.pathType);
    var f8 := f7 + TextField(PCE_PATHTYPE, c.pathType);
    ApplyText(BLANK, f8, PCE_LAYER, c.layer);
    assert f1 == TextField(PCE_GRI, c.gri);
  }

  lemma ApplyNothing(c: UserConstraint)
    ensures ApplyAll(c, []) == c
  {
  }

  lemma Layer2Restored(c: UserConstraint, fs: seq<Field>)
    requires ApplyAll(BLANK, fs).srcVlanTag == [] && ApplyAll(BLANK, fs).destVlanTag == []
    ensures ApplyAll(BLANK, fs + Layer2Fields(c)) ==
      ApplyAll(BLANK, fs).(srcVlanTag := c.srcVlanTag, destVlanTag := c.destVlanTag)
  {
    hide ApplyAll, TextField;
    ApplyText(BLANK, fs, PCE_SRCVLAN, c.srcVlanTag);
    var f1 := fs + TextField(PCE_SRCVLAN, c.srcVlanTag);
    ApplyText(BLANK, f1, PCE_DESTVLAN, c.destVlanTag);
    assert fs + Layer2Fields(c) == f1 + TextField(PCE_DESTVLAN, c.destVlanTag);
  }

  lemma Layer3Restored(c: UserConstraint, fs: seq<Field>)
    requires var c0 := ApplyAll(BLANK, fs);
      c0.srcIpPort == 0 && c0.destIpPort == 0 && c0.protocol == [] && c0.dscp == [] && c0.burstLimit == 0
        && c0.lspClass == []
    ensures ApplyAll(BLANK, fs + Layer3Fields(c)) ==
      ApplyAll(BLANK, fs).(srcIpPort := c.srcIpPort, destIpPort := c.destIpPort, protocol := c.protocol, dscp := c.dscp,
                           burstLimit := c.burstLimit, lspClass := c.lspClass)
  {
    hide ApplyAll, TextField, NumberField;
    ApplyNumber(BLANK, fs, PCE_SRCIPPORT, c.srcIpPort);
    var f1 := fs + NumberField(PCE_SRCIPPORT, c.srcIpPort);
    ApplyNumber(BLANK, f1, PCE_DESTIPPORT, c.destIpPort);
    var f2 := f1 + NumberField(PCE_DESTIPPORT, c.destIpPort);
    ApplyText(BLANK, f2, PCE_L3_PROTOCOL, c.protocol);
    var f3 := f2 + TextField(PCE_L3_PROTOCOL, c.protocol);
    ApplyText(BLANK, f3, PCE_L3_DSCP, c.dscp);
    var f4 := f3 + TextField(PCE_L3_DSCP, c.dscp);
    ApplyNumber(BLANK, f4, PCE_MPLS_BURSTLIMIT, c.burstLimit);
    var f5 := f4 + NumberField(PCE_MPLS_BURSTLIMIT, c.burstLimit);
    ApplyText(BLANK, f5, PCE_MPLS_LSPCLASS, c.lspClass);
    assert fs + Layer3Fields(c) == f5 + TextField(PCE_MPLS_LSPCLASS, c.lspClass);
  }

  /** What is sent for layer 2 or 3 is read back. */
  lemma RequestRoundTrip(c: UserConstraint)
    requires c.layer == LAYER2 || c.layer == LAYER3
    ensures Received(FieldsOf(c)) == Restored(c)
  {
    hide CommonFields, Layer2Fields, Layer3Fields, SignExtended, Truncated, ApplyAll;
    CommonRestored(c);
    if c.layer == LAYER2 {
      Layer2Restored(c, CommonFields(c));
    } else {
      Layer3Restored(c, CommonFields(c));
    }
  }

  /** A request goes through the encoder and the decoder: the decoder stops if and only if the body has
      fewer than 2^16 octets, and then what is sent for layer 2 or 3 is restored. Nothing is sent for
      another layer. */
  method SendAndReceive(c: UserConstraint) returns (got: Option<UserConstraint>, stopped: bool)
    requires |FieldsOctets(FieldsOf(c))| < 0x100_0000
    ensures var sent := c.layer == LAYER2 || c.layer == LAYER3;
      && (stopped <==> sent ==> |Section(FieldsOctets(FieldsOf(c)))| < 0x1_0000)
      && (stopped ==> got == if sent then Some(Restored(c)) else None)
  {
    hide FieldsOf, FieldsOctets, Restored, Received, AllKnown, LenOctets;
    var sender := new RequestEncoder();
    var body, length := sender.EncodeMsg(c);
    got, stopped := None, true;
    if body != null {
      ghost var fs := FieldsOf(c);
      assert [] + FieldsOctets(fs) == FieldsOctets(fs);
      SentIsKnown(c);
      RequestRoundTrip(c);
      var next;
      got, next, stopped := DecodeMsg(body[..], length, fs);
      assert next == body.Length;
    }
  }

  // Where the decoder takes the section at the head of a body to end, if it gets that far.
  function SectionEnd(body: seq<Octet>): Option<nat> {
    if |body| < 2 || |body| < 1 + LenSize(body[1]) then None
    else Some(1 + LenSize(body[1]) + LenNumber(body[1..1 + LenSize(body[1])]))
  }

  // The encoder and the decoder agree where the section ends, if its length can be written.
  lemma SectionEndIs(fields: seq<Octet>)
    requires |fields| < 0x100_0000
    ensures SectionEnd(Section(fields)) == Some(|Section(fields)|)
  {
    hide LenOctets, LenNumber;
    var body := Section(fields);
    LenRoundTrip(|fields|);
    assert body[0..|body|] == body == FieldOctets(PCE_USERCONSTRAINT, fields) + [];
    FieldAt(body, 0, |body|, Field(PCE_USERCONSTRAINT, fields), []);
  }

  /** Of whatever size the fields of a request are: the decoder is done at the end of the body if and only
      if the body has fewer than 2^16 octets. */
  lemma StopsExactlyWhen(fields: seq<Octet>)
    ensures var body := Section(fields);
      SectionEnd(body) == Some(|body|) && |body| == HeaderLength(body) <==> |body| < 0x1_0000
  {
    hide SectionEnd, LenOctets;
    if |fields| < 0x100_0000 {
      SectionEndIs(fields);
    }
  }

  /** A request of which only the GRI and the layer are given. */
  lemma GriOnly(gri: Text)
    requires gri != []
    ensures FieldsOf(BLANK.(gri := gri, layer := LAYER2)) == [Field(PCE_GRI, gri), Field(PCE_LAYER, LAYER2)]
  {
  }

  /** A GRI of 65525 octets makes a body of 2^16 octets, to which the header gives the length 0: the decoder
      does not stop at its end. */
  lemma LongRequestRunsOn(gri: Text)
    requires |gri| == 65525
    ensures var body := Section(FieldsOctets(FieldsOf(BLANK.(gri := gri, layer := LAYER2))));
      |body| == 0x1_0000 && HeaderLength(body) == 0 && SectionEnd(body) == Some(0x1_0000)
  {
    GriOnly(gri);
    hide FieldsOf, Word, SectionEnd;
    var fs := [Field(PCE_GRI, gri), Field(PCE_LAYER, LAYER2)];
    assert fs[1..] == [Field(PCE_LAYER, LAYER2)] && fs[1..][1..] == [];
    assert FieldsOctets(fs) == FieldOctets(PCE_GRI, gri) + FieldsOctets(fs[1..]);
    assert FieldsOctets(fs[1..]) == FieldOctets(PCE_LAYER, LAYER2) + FieldsOctets([]);
    assert |LenOctets(65525)| == 3 && |LenOctets(1)| == 1 && |FieldsOctets(fs)| == 65532;
    SectionEndIs(FieldsOctets(fs));
    assert |LenOctets(65532)| == 3;
  }

  /** The bandwidth survives exactly when it is below 2^31, or within 2^31 of 2^64. */
  lemma BandwidthRestoredExactlyWhen(c: UserConstraint)
    ensures Restored(c).bandwidth == c.bandwidth <==> c.bandwidth < 0x8000_0000 || c.bandwidth >= 0xFFFF_FFFF_8000_0000
  {
  }

  /** A bandwidth of 2^31 comes back as a number close to 2^64. */
  lemma BandwidthLost(c: UserConstraint)
    requires c.bandwidth == 0x8000_0000 && (c.layer == LAYER2 || c.layer == LAYER3)
    ensures Received(FieldsOf(c)).bandwidth == 0xFFFF_FFFF_8000_0000
  {
    hide Received, FieldsOf;
    RequestRoundTrip(c);
  }

  /** Everything sent can be read: the fields are known, if the whole section has a length to write. */
  lemma SentIsKnown(c: UserConstraint)
    requires |FieldsOctets(FieldsOf(c))| < 0x100_0000
    ensures AllKnown(FieldsOf(c))
  {
    FieldsSendable(c);
    hide FieldsOf, FieldsOctets;
    forall i | 0 <= i < |FieldsOf(c)| ensures Known(FieldsOf(c)[i]) {
      ContentFits(FieldsOf(c), i);
      assert Sendable(FieldsOf(c)[i]);
    }
  }

  lemma {:induction false} ContentFits(fs: seq<Field>, i: nat)
    requires i < |fs|
    ensures |fs[i].content| < |FieldsOctets(fs)|
    decreases i
  {
    if i > 0 {
      ContentFits(fs[1..], i - 1);
    }
  }

  predicate Sendable(f: Field) {
    IsText(f.tag) || ((IsNumber(f.tag) || f.tag == PCE_BANDWIDTH) && f.content != [])
  }

  predicate AllSendable(fs: seq<Field>) {
    forall i :: 0 <= i < |fs| ==> Sendable(fs[i])
  }

  lemma SendableConcat(a: seq<Field>, b: seq<Field>)
    requires AllSendable(a) && AllSendable(b)
    ensures AllSendable(a + b)
  {
    hide Sendable;
  }

  lemma TextSendable(tag: Octet, t: Text)
    requires IsText(tag)
    ensures AllSendable(TextField(tag, t))
  {
  }

  lemma NumberSendable(tag: Octet, n: u32)
    requires IsNumber(tag) || tag == PCE_BANDWIDTH
    ensures AllSendable(NumberField(tag, n))
  {
    IntRoundTrip(n);
    hide IntOctets, Word;
  }

  lemma FieldsSendable(c: UserConstraint)
    ensures AllSendable(FieldsOf(c))
  {
    CommonSendable(c);
    LayersSendable(c);
    hide AllSendable, CommonFields, Layer2Fields, Layer3Fields;
    SendableConcat(CommonFields(c), Layer2Fields(c));
    SendableConcat(CommonFields(c), Layer3Fields(c));
    NoneSendable();
    SendableConcat(CommonFields(c), []);
  }

  lemma NoneSendable()
    ensures AllSendable([])
  {
  }

  lemma CommonSendable(c: UserConstraint)
    ensures AllSendable(CommonFields(c))
  {
    TextSendable(PCE_GRI, c.gri);
    NumberSendable(PCE_STARTTIME, c.startTime);
    NumberSendable(PCE_ENDTIME, c.endTime);
    NumberSendable(PCE_BANDWIDTH, Truncated(c.bandwidth));
    TextSendable(PCE_SOURCE, c.srcEndPoint);
    TextSendable(PCE_DESTINATION, c.destEndPoint);
    TextSendable(PCE_PATHSETUPMODEL, c.pathSetupModel);
    TextSendable(PCE_PATHTYPE, c.pathType);
    TextSendable(PCE_LAYER, c.layer);
    hide AllSendable, TextField, NumberField, Truncated;
    var f1 := TextField(PCE_GRI, c.gri) + NumberField(PCE_STARTTIME, c.startTime);
    SendableConcat(TextField(PCE_GRI, c.gri), NumberField(PCE_STARTTIME, c.startTime));
    var f2 := f1 + NumberField(PCE_ENDTIME, c.endTime);
    SendableConcat(f1, NumberField(PCE_ENDTIME, c.endTime));
    var f3 := f2 + NumberField(PCE_BANDWIDTH, Truncated(c.bandwidth));
    SendableConcat(f2, NumberField(PCE_BANDWIDTH, Truncated(c.bandwidth)));
    var f4 := f3 + TextField(PCE_SOURCE, c.srcEndPoint);
    SendableConcat(f3, TextField(PCE_SOURCE, c.srcEndPoint));
    var f5 := f4 + TextField(PCE_DESTINATION, c.destEndPoint);
    SendableConcat(f4, TextField(PCE_DESTINATION, c.destEndPoint));
    var f6 := f5 + TextField(PCE_PATHSETUPMODEL, c.pathSetupModel);
    SendableConcat(f5, TextField(PCE_PATHSETUPMODEL, c.pathSetupModel));
    var f7 := f6 + TextField(PCE_PATHTYPE, c.pathType);
    SendableConcat(f6, TextField(PCE_PATHTYPE, c.pathType));
    SendableConcat(f7, TextField(PCE_LAYER, c.layer));
  }

  lemma LayersSendable(c: UserConstraint)
    ensures AllSendable(Layer2Fields(c)) && AllSendable(Layer3Fields(c))
  {
    TextSendable(PCE_SRCVLAN, c.srcVlanTag);
    TextSendable(PCE_DESTVLAN, c.destVlanTag);
    NumberSendable(PCE_SRCIPPORT, c.srcIpPort);
    NumberSendable(PCE_DESTIPPORT, c.destIpPort);
    TextSendable(PCE_L3_PROTOCOL, c.protocol);
    TextSendable(PCE_L3_DSCP, c.dscp);
    NumberSendable(PCE_MPLS_BURSTLIMIT, c.burstLimit);
    TextSendable(PCE_MPLS_LSPCLASS, c.lspClass);
    hide AllSendable, TextField, NumberField;
    SendableConcat(TextField(PCE_SRCVLAN, c.srcVlanTag), TextField(PCE_DESTVLAN, c.destVlanTag));
    var f1 := NumberField(PCE_SRCIPPORT, c.srcIpPort) + NumberField(PCE_DESTIPPORT, c.destIpPort);
    SendableConcat(NumberField(PCE_SRCIPPORT, c.srcIpPort), NumberField(PCE_DESTIPPORT, c.destIpPort));
    var f2 := f1 + TextField(PCE_L3_PROTOCOL, c.protocol);
    SendableConcat(f1, TextField(PCE_L3_PROTOCOL, c.protocol));
    var f3 := f2 + TextField(PCE_L3_DSCP, c.dscp);
    SendableConcat(f2, TextField(PCE_L3_DSCP, c.dscp));
    var f4 := f3 + NumberField(PCE_MPLS_BURSTLIMIT, c.burstLimit);
    SendableConcat(f3, NumberField(PCE_MPLS_BURSTLIMIT, c.burstLimit));
    SendableConcat(f4, TextField(PCE_MPLS_LSPCLASS, c.lspClass));
  }
}
