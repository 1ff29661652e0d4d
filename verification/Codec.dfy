/** The primitive encoder over its growing buffer, and the primitive decoder. */
module Codec {
  import opened Octets

  /** A field as it is sent: a tag, the length of the content, the content. */
  function FieldOctets(tag: Octet, content: seq<Octet>): seq<Octet> {
    [tag] + LenOctets(|content|) + content
  }

  const INIT_BUFF_SIZE: nat := 32

  class Encoder {
    var buff: array<Octet>
    var offset: nat

    constructor ()
      ensures Valid() && fresh(buff) && Contents() == []
    {
      buff := new Octet[INIT_BUFF_SIZE](i => 0);
      offset := 0;
    }

    ghost predicate Valid()
      reads this
    {
      offset <= buff.Length
    }

    ghost function Contents(): seq<Octet>
      requires Valid()
      reads this, buff
    {
      buff[..offset]
    }

    /** Make room for what is asked for and eight octets more. */
    method BuffRemCheck(reqSize: nat)
      requires Valid()
      modifies this`buff
      ensures Valid() && Contents() == old(Contents()) && buff.Length - offset >= reqSize + 8
      ensures buff == old(buff) || fresh(buff)
    {
      var remainSize := buff.Length - offset;
      if remainSize <= reqSize + 8 {
        ExpandBuff(reqSize + 8 - remainSize);
      }
    }

    method ExpandBuff(additionSize: nat)
      requires Valid()
      modifies this`buff
      ensures Valid() && Contents() == old(Contents()) && fresh(buff) && buff.Length >= old(buff).Length + additionSize
    {
      var size := if additionSize < buff.Length then buff.Length * 2 else buff.Length + additionSize;
      var buffTmp := new Octet[size](i => 0);
      forall i | 0 <= i < offset {
        buffTmp[i] := buff[i];
      }
      buff := buffTmp;
    }

    /** The buffer, cut down to what has been written. */
    method GetBuff() returns (b: array<Octet>)
      requires Valid()
      modifies this`buff
      ensures Valid() && Contents() == old(Contents()) && b == buff && fresh(b) && b[..] == Contents()
    {
      var buffTmp := new Octet[offset](i => 0);
      forall i | 0 <= i < offset {
        buffTmp[i] := buff[i];
      }
      buff := buffTmp;
      b := buff;
    }

    method Put(b: Octet)
      requires Valid() && offset < buff.Length
      modifies this`offset, buff
      ensures Valid() && Contents() == old(Contents()) + [b] && offset == old(offset) + 1
    {
      buff[offset] := b;
      offset := offset + 1;
    }

    method EncodeHeader(tag: Octet, length: nat)
      requires Valid() && offset + 5 <= buff.Length
      modifies this`offset, buff
      ensures Valid() && Contents() == old(Contents()) + ([tag] + LenOctets(length)) && offset <= old(offset) + 5
    {
      hide LenOctets;
      ghost var start := Contents();
      Put(tag);
      PutLength(length);
      assert (start + [tag]) + LenOctets(length) == start + ([tag] + LenOctets(length));
    }

    method PutLength(length: nat)
      requires Valid() && offset + 4 <= buff.Length
      modifies this`offset, buff
      ensures Valid() && Contents() == old(Contents()) + LenOctets(length) && offset <= old(offset) + 4
    {
      ghost var start := Contents();
      LenOctetsAre(length);
      hide LenOctets;
      if length < 0x80 {
        Put(length % 0x100);
      } else if length <= 0xFF {
        Put(0x81);
        Put(length % 0x100);
        Appended(start, [0x81, length % 0x100]);
      } else if length <= 0xFFFF {
        Put(0x82);
        Put((length / 0x100) % 0x100);
        Put(length % 0x100);
        Appended(start, [0x82, (length / 0x100) % 0x100, length % 0x100]);
      } else if length <= 0xFF_FFFF {
        Put(0x83);
        Put((length / 0x1_0000) % 0x100);
        Put((length / 0x100) % 0x100);
        Put(length % 0x100);
        Appended(start, [0x83, (length / 0x1_0000) % 0x100, (length / 0x100) % 0x100, length % 0x100]);
      }
    }

    /** A 32-bit integer. */
    method EncodeInteger(tag: Octet, value: nat)
      requires Valid() && value < 0x1_0000_0000
      modifies this, buff
      ensures Valid() && Contents() == old(Contents()) + FieldOctets(tag, IntOctets(Word(value, 4)))
      ensures buff == old(buff) || fresh(buff)
    {
      EncodeWord(tag, Word(value, 4));
    }

    /** A 64-bit integer. */
    method EncodeLong(tag: Octet, value: nat)
      requires Valid() && value < 0x1_0000_0000_0000_0000
      modifies this, buff
      ensures Valid() && Contents() == old(Contents()) + FieldOctets(tag, IntOctets(Word(value, 8)))
      ensures buff == old(buff) || fresh(buff)
    {
      EncodeWord(tag, Word(value, 8));
    }

    // Shift out the octets that repeat the sign, then send the others from the top.
    method EncodeWord(tag: Octet, value: seq<Octet>)
      requires Valid() && 1 <= |value| <= 8
      modifies this, buff
      ensures Valid() && Contents() == old(Contents()) + FieldOctets(tag, IntOctets(value))
      ensures buff == old(buff) || fresh(buff)
    {
      var x, size := Trim(value);
      BuffRemCheck(size + 6);
      EncodeHeader(tag, size);
      PutTop(x, size);
    }

    method PutTop(word: seq<Octet>, size: nat)
      requires Valid() && size <= |word| && offset + size <= buff.Length
      modifies this`offset, buff
      ensures Valid() && Contents() == old(Contents()) + word[..size]
    {
      var x, left: nat := word, size;
      ghost var all := Contents() + word[..size];
      while left > 0
        invariant Valid() && left <= size && offset + left <= buff.Length
        invariant |x| == |word| && Contents() + x[..left] == all
      {
        TopFirst(x, left);
        Put(x[0]);
        x := x[1..] + [0];
        left := left - 1;
      }
    }

    method EncodeString(tag: Octet, value: seq<Octet>)
      requires Valid()
      modifies this, buff
      ensures Valid() && Contents() == old(Contents()) + FieldOctets(tag, value)
      ensures buff == old(buff) || fresh(buff)
    {
      BuffRemCheck(|value| + 6);
      EncodeHeader(tag, |value|);
      ghost var start := Contents();
      for i := 0 to |value|
        invariant Valid() && offset + |value| - i <= buff.Length
        invariant buff == old(buff) || fresh(buff)
        invariant Contents() == start + value[..i]
      {
        Put(value[i]);
      }
    }
  }

  lemma TopFirst(x: seq<Octet>, left: nat)
    requires 0 < left <= |x|
    ensures x[..left] == [x[0]] + (x[1..] + [0])[..left - 1]
  {
  }

  // The content octets move to the top of the word.
  method Trim(value: seq<Octet>) returns (x: seq<Octet>, size: nat)
    requires value != []
    ensures 1 <= size <= |x| == |value| && x[..size] == IntOctets(value)
  {
    x, size := value, |value|;
    while size > 1 && SignRepeats(x)
      invariant 1 <= size <= |value|
      invariant x == value[|value| - size..] + Fill(0, |value| - size)
      invariant IntOctets(value) == IntOctets(value[|value| - size..])
    {
      Shifted(value, size);
      size := size - 1;
      x := x[1..] + [0];
    }
  }

  lemma LenOctetsAre(n: nat)
    ensures LenOctets(n) ==
      if n < 0x80 then [n % 0x100]
      else if n <= 0xFF then [0x81, n % 0x100]
      else if n <= 0xFFFF then [0x82, (n / 0x100) % 0x100, n % 0x100]
      else if n <= 0xFF_FFFF then [0x83, (n / 0x1_0000) % 0x100, (n / 0x100) % 0x100, n % 0x100]
      else []
  {
    WordOctets(n);
    hide Word;
  }

  // Octets put one after another.
  lemma Appended(start: seq<Octet>, s: seq<Octet>)
    ensures |s| == 2 ==> start + [s[0]] + [s[1]] == start + s
    ensures |s| == 3 ==> start + [s[0]] + [s[1]] + [s[2]] == start + s
    ensures |s| == 4 ==> start + [s[0]] + [s[1]] + [s[2]] + [s[3]] == start + s
  {
  }

  lemma WordOctets(n: nat)
    ensures Word(n, 1) == [n % 0x100]
    ensures Word(n, 2) == [(n / 0x100) % 0x100, n % 0x100]
    ensures Word(n, 3) == [(n / 0x1_0000) % 0x100, (n / 0x100) % 0x100, n % 0x100]
  {
    hide Word;
    WordStep(n, 1);
    WordTwo(n);
    WordThree(n);
  }

  lemma WordThree(n: nat)
    ensures Word(n, 3) == [(n / 0x1_0000) % 0x100, (n / 0x100) % 0x100, n % 0x100]
  {
    hide Word;
    WordStep(n, 3);
    WordTwo(n / 0x100);
    DivideTwice(n);
  }

  lemma DivideTwice(n: nat)
    ensures n / 0x100 / 0x100 == n / 0x1_0000
  {
  }

  lemma WordTwo(n: nat)
    ensures Word(n, 2) == [(n / 0x100) % 0x100, n % 0x100]
  {
    hide Word;
    WordStep(n, 2);
    WordStep(n / 0x100, 1);
  }

  lemma WordStep(n: nat, w: nat)
    requires w > 0
    ensures Word(n, w) == Word(n / 0x100, w - 1) + [n % 0x100]
    ensures w == 1 ==> Word(n, w) == [n % 0x100]
  {
  }

  lemma Shifted(value: seq<Octet>, size: nat)
    requires 1 < size <= |value|
    ensures var n := |value| - size;
      (value[n..] + Fill(0, n))[1..] + [0] == value[n + 1..] + Fill(0, n + 1) && value[n..][1..] == value[n + 1..]
  {
  }

  // ---------------------------------------------------------------- the decoder

  lemma NumberBelow(s: seq<Octet>)
    requires |s| <= 3
    ensures Number(s) < 0x100_0000
  {
    WordOfNumber(s);
    Powers();
    assert Power(0) == 1;
  }

  // An integer of 32 bits, from its bits.
  function Int32(bits: nat): int {
    if bits % 0x1_0000_0000 < 0x8000_0000 then bits % 0x1_0000_0000 else bits % 0x1_0000_0000 - 0x1_0000_0000
  }

  lemma ShiftedInMod(number: nat, octet: Octet)
    ensures ((number % 0x1_0000_0000) * 256 + octet) % 0x1_0000_0000 == (number * 256 + octet) % 0x1_0000_0000
  {
    var q, x := number / 0x1_0000_0000, (number % 0x1_0000_0000) * 256 + octet;
    assert number * 256 + octet == x + 0x1_0000_0000 * (q * 256);
    assert x + 0x1_0000_0000 * (q * 256) == 0x1_0000_0000 * (x / 0x1_0000_0000 + q * 256) + x % 0x1_0000_0000;
  }

  /** The length at `pos`, in 32 bits; it is the length that was written if that takes at most three octets
      behind the first. */
  method GetLen(body: seq<Octet>, pos: nat) returns (length: int, lenTagLen: nat, next: nat)
    requires pos < |body| && pos + LenSize(body[pos]) <= |body|
    ensures lenTagLen == LenSize(body[pos]) && next == pos + lenTagLen
    ensures length == Int32(LenNumber(body[pos..next]))
    ensures lenTagLen <= 4 ==> length == LenNumber(body[pos..next]) < 0x100_0000
  {
    var lengthFieldVal := body[pos];
    next := pos + 1;
    if lengthFieldVal >= 0x80 {
      var lengthFieldLen := lengthFieldVal - 0x80;
      lenTagLen := lengthFieldLen + 1;
      var bits: nat := 0;
      while lengthFieldLen > 0
        invariant next + lengthFieldLen == pos + lenTagLen
        invariant bits == Number(body[pos + 1..next]) % 0x1_0000_0000
      {
        assert body[pos + 1..next + 1][..next - pos - 1] == body[pos + 1..next];
        ShiftedInMod(Number(body[pos + 1..next]), body[next]);
        bits := (bits * 256 + body[next]) % 0x1_0000_0000;
        next := next + 1;
        lengthFieldLen := lengthFieldLen - 1;
      }
      assert body[pos..next][1..] == body[pos + 1..next];
      length := Int32(bits);
      if lenTagLen <= 4 {
        NumberBelow(body[pos + 1..next]);
      }
    } else {
      lenTagLen := 1;
      length := lengthFieldVal;
    }
  }

  method DecodeInt(body: seq<Octet>, pos: nat, length: nat) returns (value: nat, next: nat)
    requires pos < |body| && pos + length <= |body|
    ensures next == pos + if length == 0 then 1 else length
    ensures length > 0 ==> value == Number(Extend(body[pos..next], 4)) < 0x1_0000_0000
  {
    var x;
    x, next := DecodeWord(body, pos, length, 4);
    value := Number(x);
    WordOfNumber(x);
    Powers();
  }

  method DecodeLong(body: seq<Octet>, pos: nat, length: nat) returns (value: nat, next: nat)
    requires pos < |body| && pos + length <= |body|
    ensures next == pos + if length == 0 then 1 else length
    ensures length > 0 ==> value == Number(Extend(body[pos..next], 8)) < 0x1_0000_0000_0000_0000
  {
    var x;
    x, next := DecodeWord(body, pos, length, 8);
    value := Number(x);
    WordOfNumber(x);
    Powers();
  }

  // Octets are shifted into a word that starts with all bits the sign.
  method DecodeWord(body: seq<Octet>, pos: nat, length: nat, w: nat) returns (result: seq<Octet>, next: nat)
    requires pos < |body| && pos + length <= |body| && w > 0
    ensures next == (pos + if length == 0 then 1 else length) && |result| == w
    ensures length > 0 ==> result == Extend(body[pos..next], w)
  {
    hide Extend;
    var octet := body[pos];
    next := pos + 1;
    var sign: Octet := if octet >= 0x80 then 255 else 0;
    result := Fill(sign, w);
    var left: nat := length;
    while left > 0
      invariant left <= length && |result| == w
      invariant left > 0 ==> next == pos + length - left + 1 && octet == body[next - 1]
      invariant left == 0 ==> next == pos + if length == 0 then 1 else length
      invariant ShiftedIn(result, body, pos, length - left, sign)
    {
      result := result[1..] + [octet];
      left := left - 1;
      if left > 0 {
        octet := body[next];
        next := next + 1;
      }
    }
    if length > 0 {
      ShiftedInAll(result, body, pos, length);
    }
  }

  // `n` octets from `pos` on have been shifted into a word of signs.
  ghost predicate ShiftedIn(x: seq<Octet>, body: seq<Octet>, pos: nat, n: nat, sign: Octet)
    requires pos + n <= |body|
  {
    forall i :: 0 <= i < |x| ==> x[i] == if i + n < |x| then sign else body[pos + (i + n - |x|)]
  }

  lemma ShiftedInAll(x: seq<Octet>, body: seq<Octet>, pos: nat, n: nat)
    requires 0 < n && pos + n <= |body| && ShiftedIn(x, body, pos, n, if body[pos] >= 0x80 then 255 else 0)
    ensures x == Extend(body[pos..pos + n], |x|)
  {
    var s, w := body[pos..pos + n], |x|;
    assert s[0] == body[pos];
    forall i | 0 <= i < w ensures x[i] == Extend(s, w)[i] {
      if i + n >= w {
        assert s[i + n - w] == body[pos + (i + n - w)];
      }
    }
  }

  method DecodeStr(body: seq<Octet>, pos: nat, length: nat) returns (value: seq<Octet>, next: nat)
    requires pos + length <= |body|
    ensures next == pos + length && value == body[pos..next]
  {
    value, next := [], pos;
    while next < pos + length
      invariant pos <= next <= pos + length && value == body[pos..next]
    {
      value := value + [body[next]];
      next := next + 1;
    }
  }
}
