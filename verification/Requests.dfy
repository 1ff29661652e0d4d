/** The user constraint of a path computation request, as a record and as the fields it is sent as. */
module Requests {
  import opened Octets
  import opened Codec

  type Text = seq<Octet>
  type u32 = x: nat | x < 0x1_0000_0000
  type u64 = x: nat | x < 0x1_0000_0000_0000_0000

  const PCE_USERCONSTRAINT: Octet := 0xF1
  const PCE_GRI: Octet := 0x81
  const PCE_LAYER: Octet := 0x83
  const PCE_SOURCE: Octet := 0x84
  const PCE_DESTINATION: Octet := 0x85
  const PCE_BANDWIDTH: Octet := 0x86
  const PCE_STARTTIME: Octet := 0x88
  const PCE_ENDTIME: Octet := 0x89
  const PCE_PATHSETUPMODEL: Octet := 0x8A
  const PCE_PATHTYPE: Octet := 0x8B
  const PCE_SRCVLAN: Octet := 0x8C
  const PCE_DESTVLAN: Octet := 0x8D
  const PCE_SRCIPPORT: Octet := 0x8F
  const PCE_DESTIPPORT: Octet := 0x90
  const PCE_L3_PROTOCOL: Octet := 0x91
  const PCE_L3_DSCP: Octet := 0x92
  const PCE_MPLS_BURSTLIMIT: Octet := 0x93
  const PCE_MPLS_LSPCLASS: Octet := 0x94

  const LAYER2: Text := [0x32]
  const LAYER3: Text := [0x33]

  datatype UserConstraint = UserConstraint(
    gri: Text, startTime: u32, endTime: u32, bandwidth: u64, layer: Text, pathSetupModel: Text, pathType: Text,
    srcEndPoint: Text, destEndPoint: Text, srcVlanTag: Text, destVlanTag: Text,
    srcIpPort: u32, destIpPort: u32, protocol: Text, dscp: Text, burstLimit: u32, lspClass: Text)

  const BLANK: UserConstraint :=
    UserConstraint([], 0, 0, 0, [], [], [], [], [], [], [], 0, 0, [], [], 0, [])

  datatype Field = Field(tag: Octet, content: seq<Octet>)

  function FieldsOctets(fs: seq<Field>): seq<Octet> {
    if fs == [] then [] else FieldOctets(fs[0].tag, fs[0].content) + FieldsOctets(fs[1..])
  }

  lemma {:induction false} FieldsOctetsConcat(a: seq<Field>, b: seq<Field>)
    ensures FieldsOctets(a + b) == FieldsOctets(a) + FieldsOctets(b)
  {
    if a == [] {
      assert a + b == b;
    } else {
      assert (a + b)[1..] == a[1..] + b;
      FieldsOctetsConcat(a[1..], b);
    }
  }

  // ---------------------------------------------------------------- sending

  // Empty texts and zeros are left out.
  function TextField(tag: Octet, t: Text): seq<Field> {
    if t == [] then [] else [Field(tag, t)]
  }

  function NumberField(tag: Octet, n: u32): seq<Field> {
    if n == 0 then [] else [Field(tag, IntOctets(Word(n, 4)))]
  }

  /** The bandwidth is cut down to 32 bits before it is sent. */
  function Truncated(n: u64): u32 {
    n % 0x1_0000_0000
  }

  function CommonFields(c: UserConstraint): seq<Field> {
    TextField(PCE_GRI, c.gri) + NumberField(PCE_STARTTIME, c.startTime) + NumberField(PCE_ENDTIME, c.endTime)
    + NumberField(PCE_BANDWIDTH, Truncated(c.bandwidth))
    + TextField(PCE_SOURCE, c.srcEndPoint) + TextField(PCE_DESTINATION, c.destEndPoint)
    + TextField(PCE_PATHSETUPMODEL, c.pathSetupModel) + TextField(PCE_PATHTYPE, c.pathType)
    + TextField(PCE_LAYER, c.layer)
  }

  function Layer2Fields(c: UserConstraint): seq<Field> {
    TextField(PCE_SRCVLAN, c.srcVlanTag) + TextField(PCE_DESTVLAN, c.destVlanTag)
  }

  function Layer3Fields(c: UserConstraint): seq<Field> {
    NumberField(PCE_SRCIPPORT, c.srcIpPort) + NumberField(PCE_DESTIPPORT, c.destIpPort)
    + TextField(PCE_L3_PROTOCOL, c.protocol) + TextField(PCE_L3_DSCP, c.dscp)
    + NumberField(PCE_MPLS_BURSTLIMIT, c.burstLimit) + TextField(PCE_MPLS_LSPCLASS, c.lspClass)
  }

  function FieldsOf(c: UserConstraint): seq<Field> {
    CommonFields(c) + if c.layer == LAYER2 then Layer2Fields(c) else if c.layer == LAYER3 then Layer3Fields(c) else []
  }

  /** The section a request starts with. */
  function Section(fields: seq<Octet>): seq<Octet> {
    FieldOctets(PCE_USERCONSTRAINT, fields)
  }

  /** The length of a body as it is written into the message header. */
  function HeaderLength(body: seq<Octet>): nat {
    |body| % 0x1_0000
  }

  // ---------------------------------------------------------------- what is on the wire, octet by octet

  function Flat(parts: seq<seq<Octet>>): seq<Octet> {
    if parts == [] then [] else parts[0] + Flat(parts[1..])
  }

  lemma {:induction false} FlatFields(fs: seq<Field>, parts: seq<seq<Octet>>)
    requires |parts| == |fs|
    requires forall i :: 0 <= i < |fs| ==> FieldOctets(fs[i].tag, fs[i].content) == parts[i]
    ensures FieldsOctets(fs) == Flat(parts)
  {
    if fs != [] {
      FlatFields(fs[1..], parts[1..]);
    }
  }

  lemma ShortWord(n: u32)
    requires n < 0x1_0000
    ensures Word(n, 4) == [0, 0, n / 0x100, n % 0x100]
  {
    var m := n / 0x100;
    assert Word(0, 0) == [] && Word(0, 1) == [0] && Word(0, 2) == [0, 0];
    assert Word(m, 3) == Word(0, 2) + [m];
    assert Word(n, 4) == Word(m, 3) + [n % 0x100];
  }

  /** Small numbers take one octet, and one more where the first bit would be a sign. */
  lemma NumberOctets(n: u32)
    ensures n < 0x80 ==> IntOctets(Word(n, 4)) == [n]
    ensures 0x80 <= n < 0x8000 ==> IntOctets(Word(n, 4)) == [n / 0x100, n % 0x100]
  {
    if n < 0x8000 {
      ShortWord(n);
      var a, b := n / 0x100, n % 0x100;
      hide Word;
      DroppedFirst([0, a, b]);
      DroppedFirst([a, b]);
      if n < 0x80 {
        DroppedFirst([b]);
      }
    }
  }

  lemma DroppedFirst(x: seq<Octet>)
    requires x != [] && x[0] < 0x80
    ensures IntOctets([0] + x) == IntOctets(x)
  {
    assert ([0] + x)[1..] == x;
  }

  lemma NumberFields(tag: Octet, n: u32)
    requires 0 < n < 0x8000
    ensures NumberField(tag, n) == [Field(tag, if n < 0x80 then [n] else [n / 0x100, n % 0x100])]
  {
    NumberOctets(n);
    hide IntOctets, Word;
  }

  /** A field is its tag, the length and the content; from 128 octets on the length takes more than one. */
  lemma TextOctets(tag: Octet, t: Text)
    ensures |t| < 0x80 ==> FieldOctets(tag, t) == [tag, |t|] + t
    ensures 0x80 <= |t| < 0x100 ==> FieldOctets(tag, t) == [tag, 0x81, |t|] + t
    ensures 0x100 <= |t| < 0x1_0000 ==> FieldOctets(tag, t) == [tag, 0x82, |t| / 0x100, |t| % 0x100] + t
  {
    if 0x80 <= |t| < 0x1_0000 {
      assert Word(|t| / 0x100, 1) == [(|t| / 0x100) % 0x100];
      assert Word(|t| / 0x100, 0) == [];
    }
  }

  /** A request on layer 2 in which every field is given. */
  const LAYER2_REQUEST: UserConstraint :=
    BLANK.(gri := [0x67], startTime := 0x0102, endTime := 3, bandwidth := 0x1_0000_0080, srcEndPoint := [0x61],
           destEndPoint := [0x62], pathSetupModel := [0x73], pathType := [0x74], layer := [0x32], srcVlanTag := [0x31],
           destVlanTag := [0x35])

  lemma Layer2Given()
    ensures CommonFields(LAYER2_REQUEST) ==
            [Field(0x81, [0x67]), Field(0x88, [0x01, 0x02]), Field(0x89, [3]), Field(0x86, [0x00, 0x80]),
             Field(0x84, [0x61]), Field(0x85, [0x62]), Field(0x8A, [0x73]), Field(0x8B, [0x74]), Field(0x83, [0x32])]
    ensures Layer2Fields(LAYER2_REQUEST) == [Field(0x8C, [0x31]), Field(0x8D, [0x35])]
  {
    NumberFields(PCE_STARTTIME, 0x0102);
    NumberFields(PCE_ENDTIME, 3);
    NumberFields(PCE_BANDWIDTH, 0x80);
    hide NumberField;
  }

  /** Its fields, octet by octet. */
  lemma Layer2Octets()
    ensures FieldsOctets(FieldsOf(LAYER2_REQUEST)) ==
      Flat([[0x81, 1, 0x67], [0x88, 2, 0x01, 0x02], [0x89, 1, 3], [0x86, 2, 0x00, 0x80], [0x84, 1, 0x61],
            [0x85, 1, 0x62], [0x8A, 1, 0x73], [0x8B, 1, 0x74], [0x83, 1, 0x32], [0x8C, 1, 0x31], [0x8D, 1, 0x35]])
  {
    Layer2Given();
    hide CommonFields, Layer2Fields, Layer3Fields, IntOctets, Word, FieldsOctets, Flat, FieldOctets;
    var parts: seq<seq<Octet>> :=
      [[0x81, 1, 0x67], [0x88, 2, 0x01, 0x02], [0x89, 1, 3], [0x86, 2, 0x00, 0x80], [0x84, 1, 0x61],
       [0x85, 1, 0x62], [0x8A, 1, 0x73], [0x8B, 1, 0x74], [0x83, 1, 0x32], [0x8C, 1, 0x31], [0x8D, 1, 0x35]];
    var fs := FieldsOf(LAYER2_REQUEST);
    forall i | 0 <= i < |fs| ensures FieldOctets(fs[i].tag, fs[i].content) == parts[i] {
      TextOctets(fs[i].tag, fs[i].content);
    }
    FlatFields(fs, parts);
  }

  /** The fields that a request on layer 3 may have beside the common ones. */
  const LAYER3_REQUEST: UserConstraint :=
    BLANK.(layer := [0x33], srcIpPort := 1, destIpPort := 2, protocol := [0x70], dscp := [0x64], burstLimit := 4,
           lspClass := [0x6C])

  lemma Layer3Common()
    ensures CommonFields(LAYER3_REQUEST) == [Field(0x83, [0x33])]
  {
  }

  lemma Layer3Given()
    ensures Layer3Fields(LAYER3_REQUEST) ==
            [Field(0x8F, [1]), Field(0x90, [2]), Field(0x91, [0x70]), Field(0x92, [0x64]), Field(0x93, [4]),
             Field(0x94, [0x6C])]
  {
    NumberFields(PCE_SRCIPPORT, 1);
    NumberFields(PCE_DESTIPPORT, 2);
    NumberFields(PCE_MPLS_BURSTLIMIT, 4);
    hide NumberField;
  }

  lemma Layer3Octets()
    ensures FieldsOctets(FieldsOf(LAYER3_REQUEST)) ==
      Flat([[0x83, 1, 0x33], [0x8F, 1, 1], [0x90, 1, 2], [0x91, 1, 0x70], [0x92, 1, 0x64], [0x93, 1, 4],
            [0x94, 1, 0x6C]])
  {
    Layer3Common();
    Layer3Given();
    hide CommonFields, Layer2Fields, Layer3Fields, IntOctets, Word, FieldsOctets, Flat, FieldOctets;
    var parts: seq<seq<Octet>> :=
      [[0x83, 1, 0x33], [0x8F, 1, 1], [0x90, 1, 2], [0x91, 1, 0x70], [0x92, 1, 0x64], [0x93, 1, 4], [0x94, 1, 0x6C]];
    var fs := FieldsOf(LAYER3_REQUEST);
    forall i | 0 <= i < |fs| ensures FieldOctets(fs[i].tag, fs[i].content) == parts[i] {
      TextOctets(fs[i].tag, fs[i].content);
    }
    FlatFields(fs, parts);
  }

  /** A whole body: the section, and how many octets it has. */
  lemma BodyOctets()
    ensures Section([0x81, 1, 0x67, 0x83, 1, 0x33]) == [0xF1, 6, 0x81, 1, 0x67, 0x83, 1, 0x33]
  {
    TextOctets(0xF1, [0x81, 1, 0x67, 0x83, 1, 0x33]);
  }

  class RequestEncoder {
    const encoder: Encoder

    constructor ()
      ensures fresh(encoder) && fresh(encoder.buff) && encoder.Valid() && encoder.Contents() == []
    {
      encoder := new Encoder();
    }

    // What has been put into the buffer since it held `start`.
    ghost predicate Holds(start: seq<Octet>, fs: seq<Field>)
      reads encoder, encoder.buff
    {
      encoder.Valid() && encoder.Contents() == start + FieldsOctets(fs)
    }

    method PutText(tag: Octet, t: Text, ghost start: seq<Octet>, ghost fs: seq<Field>)
      requires Holds(start, fs)
      modifies encoder, encoder.buff
      ensures Holds(start, fs + TextField(tag, t)) && (encoder.buff == old(encoder.buff) || fresh(encoder.buff))
    {
      hide FieldsOctets, FieldOctets;
      if |t| > 0 {
        FieldAdded(start, fs, tag, t);
        encoder.EncodeString(tag, t);
      } else {
        assert fs + TextField(tag, t) == fs;
      }
    }

    method PutNumber(tag: Octet, n: u32, ghost start: seq<Octet>, ghost fs: seq<Field>)
      requires Holds(start, fs)
      modifies encoder, encoder.buff
      ensures Holds(start, fs + NumberField(tag, n)) && (encoder.buff == old(encoder.buff) || fresh(encoder.buff))
    {
      hide FieldsOctets, FieldOctets, IntOctets, Word;
      if n != 0 {
        FieldAdded(start, fs, tag, IntOctets(Word(n, 4)));
        encoder.EncodeInteger(tag, n);
      } else {
        assert fs + NumberField(tag, n) == fs;
      }
    }

    method PutCommon(c: UserConstraint, ghost start: seq<Octet>)
      requires Holds(start, [])
      modifies encoder, encoder.buff
      ensures Holds(start, CommonFields(c)) && (encoder.buff == old(encoder.buff) || fresh(encoder.buff))
    {
      hide Holds, TextField, NumberField;
      ghost var f1 := TextField(PCE_GRI, c.gri);
      assert [] + f1 == f1;
      PutText(PCE_GRI, c.gri, start, []);
      ghost var f2 := f1 + NumberField(PCE_STARTTIME, c.startTime);
      PutNumber(PCE_STARTTIME, c.startTime, start, f1);
      ghost var f3 := f2 + NumberField(PCE_ENDTIME, c.endTime);
      PutNumber(PCE_ENDTIME, c.endTime, start, f2);
      ghost var f4 := f3 + NumberField(PCE_BANDWIDTH, Truncated(c.bandwidth));
      PutNumber(PCE_BANDWIDTH, Truncated(c.bandwidth), start, f3);
      ghost var f5 := f4 + TextField(PCE_SOURCE, c.srcEndPoint);
      PutText(PCE_SOURCE, c.srcEndPoint, start, f4);
      ghost var f6 := f5 + TextField(PCE_DESTINATION, c.destEndPoint);
      PutText(PCE_DESTINATION, c.destEndPoint, start, f5);
      ghost var f7 := f6 + TextField(PCE_PATHSETUPMODEL, c.pathSetupModel);
      PutText(PCE_PATHSETUPMODEL, c.pathSetupModel, start, f6);
      ghost var f8 := f7 + TextField(PCE_PATHTYPE, c.pathType);
      PutText(PCE_PATHTYPE, c.pathType, start, f7);
      PutText(PCE_LAYER, c.layer, start, f8);
    }

    method PutLayer2(c: UserConstraint, ghost start: seq<Octet>, ghost fs: seq<Field>)
      requires Holds(start, fs)
      modifies encoder, encoder.buff
      ensures Holds(start, fs + Layer2Fields(c)) && (encoder.buff == old(encoder.buff) || fresh(encoder.buff))
    {
      hide Holds, TextField;
      ghost var f1 := fs + TextField(PCE_SRCVLAN, c.srcVlanTag);
      PutText(PCE_SRCVLAN, c.srcVlanTag, start, fs);
      PutText(PCE_DESTVLAN, c.destVlanTag, start, f1);
      assert fs + Layer2Fields(c) == f1 + TextField(PCE_DESTVLAN, c.destVlanTag);
    }

    method PutLayer3(c: UserConstraint, ghost start: seq<Octet>, ghost fs: seq<Field>)
      requires Holds(start, fs)
      modifies encoder, encoder.buff
      ensures Holds(start, fs + Layer3Fields(c)) && (encoder.buff == old(encoder.buff) || fresh(encoder.buff))
    {
      hide Holds, TextField, NumberField;
      ghost var f1 := fs + NumberField(PCE_SRCIPPORT, c.srcIpPort);
      PutNumber(PCE_SRCIPPORT, c.srcIpPort, start, fs);
      ghost var f2 := f1 + NumberField(PCE_DESTIPPORT, c.destIpPort);
      PutNumber(PCE_DESTIPPORT, c.destIpPort, start, f1);
      ghost var f3 := f2 + TextField(PCE_L3_PROTOCOL, c.protocol);
      PutText(PCE_L3_PROTOCOL, c.protocol, start, f2);
      ghost var f4 := f3 + TextField(PCE_L3_DSCP, c.dscp);
      PutText(PCE_L3_DSCP, c.dscp, start, f3);
      ghost var f5 := f4 + NumberField(PCE_MPLS_BURSTLIMIT, c.burstLimit);
      PutNumber(PCE_MPLS_BURSTLIMIT, c.burstLimit, start, f4);
      PutText(PCE_MPLS_LSPCLASS, c.lspClass, start, f5);
      assert fs + Layer3Fields(c) == f5 + TextField(PCE_MPLS_LSPCLASS, c.lspClass);
    }

    /** The body of a request message with the user constraint, and the length the header gives it in 16
        bits; none for a layer other than 2 or 3. */
    method EncodeMsg(c: UserConstraint) returns (body: array?<Octet>, length: nat)
      requires encoder.Valid()
      modifies encoder, encoder.buff
      ensures body == null <==> c.layer != LAYER2 && c.layer != LAYER3
      ensures body != null ==> body[..] == Section(old(encoder.Contents()) + FieldsOctets(FieldsOf(c)))
      ensures body != null ==> length == HeaderLength(body[..])
    {
      hide Holds, CommonFields, Layer2Fields, Layer3Fields;
      ghost var start := encoder.Contents();
      StartHolds(start);
      PutCommon(c, start);
      if c.layer == LAYER2 {
        PutLayer2(c, start, CommonFields(c));
      } else if c.layer == LAYER3 {
        PutLayer3(c, start, CommonFields(c));
      } else {
        return null, 0;
      }
      HeldContents(start, FieldsOf(c));
      var sub := encoder.GetBuff();
      var head := EncodeMsgSubStart(PCE_USERCONSTRAINT, sub.Length);
      body := EncodeMergeBuff(head, sub);
      length := (head.Length + sub.Length) % 0x1_0000;
    }

    lemma StartHolds(start: seq<Octet>)
      requires encoder.Valid() && start == encoder.Contents()
      ensures Holds(start, [])
    {
    }

    lemma HeldContents(start: seq<Octet>, fs: seq<Field>)
      requires Holds(start, fs)
      ensures encoder.Valid() && encoder.Contents() == start + FieldsOctets(fs)
    {
    }
  }

  lemma FieldAdded(start: seq<Octet>, fs: seq<Field>, tag: Octet, content: seq<Octet>)
    ensures start + FieldsOctets(fs + [Field(tag, content)]) == (start + FieldsOctets(fs)) + FieldOctets(tag, content)
  {
    FieldsOctetsConcat(fs, [Field(tag, content)]);
    assert FieldsOctets([Field(tag, content)][1..]) == [];
    assert FieldsOctets([Field(tag, content)]) == FieldOctets(tag, content);
  }

  // The tag and the length of the section.
  method EncodeMsgSubStart(tag: Octet, length: nat) returns (header: array<Octet>)
    ensures fresh(header) && header[..] == [tag] + LenOctets(length)
  {
    WordOctets(length);
    hide Word;
    var size := if length < 0x80 then 2 else if length <= 0xFF then 3 else if length <= 0xFFFF then 4
                else if length <= 0xFF_FFFF then 5 else 1;
    header := new Octet[size](i => 0);
    header[0] := tag;
    if length < 0x80 {
      header[1] := length % 0x100;
    } else if length <= 0xFF {
      header[1], header[2] := 0x81, length % 0x100;
    } else if length <= 0xFFFF {
      header[1], header[2], header[3] := 0x82, (length / 0x100) % 0x100, length % 0x100;
    } else if length <= 0xFF_FFFF {
      header[1], header[2] := 0x83, (length / 0x1_0000) % 0x100;
      header[3], header[4] := (length / 0x100) % 0x100, length % 0x100;
    }
    assert header[1..] == LenOctets(length);
  }

  method EncodeMergeBuff(buff1: array<Octet>, buff2: array<Octet>) returns (merged: array<Octet>)
    ensures fresh(merged) && merged[..] == buff1[..] + buff2[..]
  {
    merged := new Octet[buff1.Length + buff2.Length](i => 0);
    forall i | 0 <= i < buff1.Length {
      merged[i] := buff1[i];
    }
    forall i | 0 <= i < buff2.Length {
      merged[buff1.Length + i] := buff2[i];
    }
  }
}
