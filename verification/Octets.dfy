/** Numbers as octets, most significant first, and the octets that integers and lengths are sent as. */
module Octets {
  type Octet = x: nat | x < 256

  function Power(n: nat): (p: nat)
    ensures p >= 1
  {
    if n == 0 then 1 else 256 * Power(n - 1)
  }

  lemma Powers()
    ensures Power(1) == 0x100 && Power(2) == 0x1_0000 && Power(3) == 0x100_0000
    ensures Power(4) == 0x1_0000_0000 && Power(8) == 0x1_0000_0000_0000_0000
  {
    assert Power(1) == 0x100 && Power(2) == 0x1_0000;
    assert Power(3) == 0x100_0000 && Power(4) == 0x1_0000_0000;
    assert Power(5) == 0x100_0000_0000 && Power(6) == 0x1_0000_0000_0000;
    assert Power(7) == 0x100_0000_0000_0000;
  }

  function Number(s: seq<Octet>): nat {
    if s == [] then 0 else Number(s[..|s| - 1]) * 256 + s[|s| - 1]
  }

  /** The machine word of `w` octets that holds `v`. */
  function Word(v: nat, w: nat): (s: seq<Octet>)
    ensures |s| == w
  {
    if w == 0 then [] else Word(v / 256, w - 1) + [v % 256]
  }

  lemma {:induction false} NumberOfWord(v: nat, w: nat)
    requires v < Power(w)
    ensures Number(Word(v, w)) == v
  {
    if w > 0 {
      NumberOfWord(v / 256, w - 1);
      assert Word(v, w)[..w - 1] == Word(v / 256, w - 1);
    }
  }

  lemma {:induction false} WordOfNumber(s: seq<Octet>)
    ensures Number(s) < Power(|s|) && Word(Number(s), |s|) == s
  {
    if s != [] {
      WordOfNumber(s[..|s| - 1]);
      assert Number(s) / 256 == Number(s[..|s| - 1]) && Number(s) % 256 == s[|s| - 1];
    }
  }

  lemma {:induction false} NumberFirst(a: Octet, s: seq<Octet>)
    ensures Number([a] + s) == a * Power(|s|) + Number(s)
  {
    if s == [] {
      assert [a] + s == [a];
      assert Number([a][..0]) == 0;
    } else {
      var front, n := s[..|s| - 1], |s| - 1;
      NumberFirst(a, front);
      assert ([a] + s)[..|s|] == [a] + front;
      assert a * Power(|s|) == 256 * (a * Power(n));
    }
  }

  // ---------------------------------------------------------------- integers

  /** The first nine bits of a word are all equal, so that its first octet says nothing. */
  predicate SignRepeats(x: seq<Octet>) {
    |x| > 1 && ((x[0] == 0 && x[1] < 128) || (x[0] == 255 && x[1] >= 128))
  }

  /** The content octets of an integer. */
  function IntOctets(x: seq<Octet>): seq<Octet> {
    if SignRepeats(x) then IntOctets(x[1..]) else x
  }

  function Sign(s: seq<Octet>): Octet {
    if s != [] && s[0] >= 128 then 255 else 0
  }

  function Fill(b: Octet, n: nat): (s: seq<Octet>)
    ensures |s| == n && forall i :: 0 <= i < n ==> s[i] == b
  {
    seq(n, i => b)
  }

  /** Content octets read into a word of `w` octets. */
  function Extend(s: seq<Octet>, w: nat): (x: seq<Octet>)
    ensures |x| == w
  {
    if |s| <= w then Fill(Sign(s), w - |s|) + s else s[|s| - w..]
  }

  /** The integer that octets stand for in two's complement. */
  function Signed(s: seq<Octet>): int {
    Number(s) - if s != [] && s[0] >= 128 then Power(|s|) else 0
  }

  /** An integer is sent in the fewest octets (section 8.3.2 of ITU-T X.690), and they stand for it. */
  lemma {:induction false} IntOctetsStandFor(x: seq<Octet>)
    requires x != []
    ensures var s := IntOctets(x); s != [] && |s| <= |x| && !SignRepeats(s) && Signed(s) == Signed(x)
  {
    if SignRepeats(x) {
      IntOctetsStandFor(x[1..]);
      NumberFirst(x[0], x[1..]);
      assert [x[0]] + x[1..] == x;
    }
  }

  /** Reading the content octets of a word restores it. */
  lemma {:induction false} ExtendIntOctets(x: seq<Octet>, w: nat)
    requires x != [] && |x| <= w
    ensures Extend(IntOctets(x), w) == Extend(x, w) && Extend(x, |x|) == x
  {
    hide Extend;
    if SignRepeats(x) {
      ExtendIntOctets(x[1..], w);
      ExtendDropped(x, w);
    }
    ExtendWhole(x);
  }

  lemma ExtendWhole(x: seq<Octet>)
    ensures Extend(x, |x|) == x
  {
  }

  lemma ExtendDropped(x: seq<Octet>, w: nat)
    requires SignRepeats(x) && |x| <= w
    ensures Extend(x[1..], w) == Extend(x, w)
  {
    assert Sign(x[1..]) == Sign(x) == x[0];
    forall i | 0 <= i < w ensures Extend(x[1..], w)[i] == Extend(x, w)[i] {
    }
  }

  /** There is no other shortest form. */
  lemma {:induction false} IntOctetsOnly(s: seq<Octet>, w: nat)
    requires s != [] && |s| <= w && !SignRepeats(s)
    ensures IntOctets(Extend(s, w)) == s
    decreases w
  {
    if |s| < w {
      IntOctetsOnly(s, w - 1);
      assert Extend(s, w)[1..] == Extend(s, w - 1);
      assert Extend(s, w)[1] == Extend(s, w - 1)[0];
    } else {
      assert Extend(s, w) == s;
    }
  }

  // ---------------------------------------------------------------- lengths

  /** The definite form of a length (section 8.1.3 of ITU-T X.690); longer ones are not written at all. */
  function LenOctets(n: nat): seq<Octet> {
    if n < 0x80 then [n]
    else if n <= 0xFF then [0x81] + Word(n, 1)
    else if n <= 0xFFFF then [0x82] + Word(n, 2)
    else if n <= 0xFF_FFFF then [0x83] + Word(n, 3)
    else []
  }

  // How many octets a length takes, judging from the first.
  function LenSize(first: Octet): (n: nat)
    ensures n >= 1
  {
    if first >= 0x80 then 1 + (first - 0x80) else 1
  }

  function LenNumber(s: seq<Octet>): nat
    requires s != []
  {
    if s[0] >= 0x80 then Number(s[1..]) else s[0]
  }

  lemma LenRoundTrip(n: nat)
    requires n < 0x100_0000
    ensures var s := LenOctets(n); s != [] && LenSize(s[0]) == |s| <= 4 && LenNumber(s) == n
  {
    Powers();
    var k := if n <= 0xFF then 1 else if n <= 0xFFFF then 2 else 3;
    NumberOfWord(n, k);
    assert n >= 0x80 ==> LenOctets(n)[1..] == Word(n, k);
  }
}
