/** Which corruptions a trailing big-endian CRC-32 detects.

    A string changed inside a window of four bytes always changes its checksum.  When the
    window straddles the end of the string and the stored checksum, one bit pattern, and
    only that one, slips through: the checksum is stored most significant byte first, which
    is not the order in which the reflected register consumes bytes. */
module Crc32Detection {
  import opened XorSpace
  import opened Crc32
  import opened Crc32Steps

  // ---------------------------------------------------------------------------
  // Windows inside one string

  lemma RegisterInjective()
    ensures InjectiveInStart(Register)
  {
    ShiftByteInjective();
    XorCancels();
    forall s: bv32, t: bv32, q: seq<bv8> | Register(s, q) == Register(t, q)
      ensures s == t
    {
      RegisterIsAbsorb(s, q);
      RegisterIsAbsorb(t, q);
      AbsorbInjective(Xor, ShiftByte, s, t, Words(q));
    }
  }

  lemma RegisterComposes()
    ensures Composes(Register)
  {
    forall s: bv32, a: seq<bv8>, b: seq<bv8>
      ensures Register(s, a + b) == Register(Register(s, a), b)
    {
      RegisterConcat(s, a, b);
    }
  }

  /** The register with four bytes folded in. */
  function Folded(s: bv32, v: seq<bv8>): bv32
    requires |v| == 4
  {
    Xor(Xor(Xor(Xor(s, Widen(v[0])), Iter(Up8, 1, Widen(v[1]))), Iter(Up8, 2, Widen(v[2]))), Iter(Up8, 3, Widen(v[3])))
  }

  lemma AbsorbOfFour(shift: bv32 -> bv32, s: bv32, v: seq<bv8>)
    requires |v| == 4 && Sliceable(shift)
    ensures Absorb(Xor, shift, s, Words(v)) == Iter(shift, 4, Folded(s, v))
  {
    FourRaised(shift, v[0], v[1], v[2], v[3]);
    assert Words(v) == [Widen(v[0]), Widen(v[1]), Widen(v[2]), Widen(v[3])];
    AbsorbFour(Xor, shift, Up8, s, Widen(v[0]), Widen(v[1]), Widen(v[2]), Widen(v[3]));
  }

  lemma FoldedIsWord(s: bv32, v: seq<bv8>)
    requires |v| == 4
    ensures Folded(s, v) == s ^ FromLeBytes(v[0], v[1], v[2], v[3])
  {
    GatheredWord(s, v[0], v[1], v[2], v[3]);
  }

  lemma LeBytesInjective(s: bv32, folded: bv32, v: seq<bv8>, w: seq<bv8>)
    requires |v| == |w| == 4
    requires folded == s ^ FromLeBytes(v[0], v[1], v[2], v[3])
    requires folded == s ^ FromLeBytes(w[0], w[1], w[2], w[3])
    ensures v[0] == w[0] && v[1] == w[1] && v[2] == w[2] && v[3] == w[3]
  {}

  lemma FoldedInjective(s: bv32, folded: bv32, v: seq<bv8>, w: seq<bv8>)
    requires |v| == |w| == 4 && folded == Folded(s, v) && folded == Folded(s, w)
    ensures v == w
  {
    FoldedIsWord(s, v);
    FoldedIsWord(s, w);
    LeBytesInjective(s, folded, v, w);
  }

  lemma FourBytesSeparated(s: bv32, v: seq<bv8>, w: seq<bv8>)
    requires |v| == |w| == 4 && Register(s, v) == Register(s, w)
    ensures Folded(s, v) == Folded(s, w)
  {
    RegisterIsAbsorb(s, v);
    RegisterIsAbsorb(s, w);
    ShiftByteSliceable();
    ShiftByteInjective();
    AbsorbOfFour(ShiftByte, s, v);
    AbsorbOfFour(ShiftByte, s, w);
    IterInjective(ShiftByte, 4, Folded(s, v), Folded(s, w));
  }

  lemma RegisterSeparatesFour()
    ensures SeparatesExactly(Register, 4)
  {
    forall s: bv32, v: seq<bv8>, w: seq<bv8> | |v| == |w| == 4 && Register(s, v) == Register(s, w)
      ensures v == w
    {
      FourBytesSeparated(s, v, w);
      FoldedInjective(s, Folded(s, v), v, w);
    }
  }

  lemma ComplementInjective()
    ensures Injective(Complement)
  {
    forall x: bv32, y: bv32 | Complement(x) == Complement(y)
      ensures x == y
    {
    }
  }

  lemma BurstChangesRegister(start: bv32, p: seq<bv8>, v: seq<bv8>, w: seq<bv8>, q: seq<bv8>)
    requires |v| == |w| <= 4 && Complement(Register(start, p + v + q)) == Complement(Register(start, p + w + q))
    ensures v == w
  {
    RegisterComposes();
    RegisterInjective();
    RegisterSeparatesFour();
    ComplementInjective();
    BurstSeparated(Register, 4, 0, start, p, v, w, q);
  }

  /** Changing at most four consecutive bytes always changes the checksum. */
  lemma BurstChangesChecksum(p: seq<bv8>, v: seq<bv8>, w: seq<bv8>, q: seq<bv8>)
    requires |v| == |w| <= 4 && v != w
    ensures Checksum(p + v + q) != Checksum(p + w + q)
  {
    if Checksum(p + v + q) == Checksum(p + w + q) {
      BurstChangesRegister(INITIAL, p, v, w, q);
    }
  }

  // ---------------------------------------------------------------------------
  // Windows across the end of the string

  function XorBytes(v: seq<bv8>, w: seq<bv8>): (d: seq<bv8>)
    requires |v| == |w|
    ensures |d| == |v|
  {
    seq(|v|, i requires 0 <= i < |v| => v[i] ^ w[i])
  }

  lemma XorMedial()
    ensures Medial(Xor)
  {
    forall a: bv32, b: bv32
      ensures Xor(a, b) == Xor(b, a)
    {
      XorAbelian(a, b, 0);
    }
    forall a: bv32, b: bv32, c: bv32
      ensures Xor(Xor(a, b), c) == Xor(a, Xor(b, c))
    {
      XorAbelian(a, b, c);
    }
    AbelianIsMedial(Xor);
  }

  lemma WidenXor(a: bv8, b: bv8)
    ensures Widen(a ^ b) == Xor(Widen(a), Widen(b))
  {}

  lemma WordsOfXor(v: seq<bv8>, w: seq<bv8>)
    requires |v| == |w|
    ensures Words(XorBytes(v, w)) == Combine(Xor, Words(v), Words(w))
  {
    forall i | 0 <= i < |v|
      ensures Words(XorBytes(v, w))[i] == Combine(Xor, Words(v), Words(w))[i]
    {
      WidenXor(v[i], w[i]);
    }
  }

  /** The difference of two registers depends only on the difference of the strings. */
  lemma RegisterDifference(s: bv32, v: seq<bv8>, w: seq<bv8>)
    requires |v| == |w|
    ensures Xor(Register(s, v), Register(s, w)) == Register(Xor(s, s), XorBytes(v, w))
  {
    RegisterIsAbsorb(s, v);
    RegisterIsAbsorb(s, w);
    RegisterIsAbsorb(Xor(s, s), XorBytes(v, w));
    ShiftByteLinear();
    XorMedial();
    WordsOfXor(v, w);
    AbsorbCombines(Xor, ShiftByte, s, s, Words(v), Words(w));
  }

  lemma XorSelf(s: bv32)
    ensures Xor(s, s) == 0
  {}

  function Unstep2(c: bv32): bv32 { Unstep(Unstep(c)) }
  function Unstep4(c: bv32): bv32 { Unstep2(Unstep2(c)) }
  function Unsteps8(c: bv32): bv32 { Unstep4(Unstep4(c)) }

  lemma UnstepUndoes(c: bv32)
    ensures Unstep(ShiftBit(c)) == c
  {}

  lemma UnstepsUndo()
    ensures LeftInverse(Unsteps8, ShiftByte)
  {
    forall c: bv32
      ensures Unstep(ShiftBit(c)) == c
    {
      UnstepUndoes(c);
    }
    LeftInverseTwice(Unstep, ShiftBit, Unstep2, ShiftBits2);
    LeftInverseTwice(Unstep2, ShiftBits2, Unstep4, ShiftBits4);
    LeftInverseTwice(Unstep4, ShiftBits4, Unsteps8, ShiftByte);
  }

  lemma FlatUnsteps(c: bv32)
    ensures Back8(c) == Unsteps8(c)
  {}

  lemma ComplementXor(x: bv32, y: bv32)
    ensures Xor(Complement(x), Complement(y)) == Xor(x, y)
  {}

  /** How the checksums of two strings with the same beginning differ. */
  lemma ChecksumDifference(start: bv32, p: seq<bv8>, v: seq<bv8>, w: seq<bv8>)
    requires |v| == |w|
    ensures Xor(Complement(Register(start, p + v)), Complement(Register(start, p + w))) == Register(0, XorBytes(v, w))
  {
    var r := Register(start, p);
    RegisterConcat(start, p, v);
    RegisterConcat(start, p, w);
    ComplementXor(Register(r, v), Register(r, w));
    XorSelf(r);
    RegisterDifference(r, v, w);
  }

  lemma XorZero(s: bv32)
    ensures Xor(0, s) == s && Xor(s, 0) == s
  {}

  lemma RegisterOfOne(s: bv32, d: bv8)
    ensures Register(s, [d]) == FeedByte(s, d)
  {
    FeedIsRegister(s, [d]);
    assert Feed(FeedByte, s, [d]) == Feed(FeedByte, FeedByte(s, d), []);
  }

  lemma RegisterOfTwo(s: bv32, d: bv8, e: bv8)
    ensures Register(s, [d, e]) == FeedByte(FeedByte(s, d), e)
  {
    RegisterConcat(s, [d], [e]);
    RegisterOfOne(s, d);
    RegisterOfOne(FeedByte(s, d), e);
    assert [d, e] == [d] + [e];
  }

  lemma OneByteDifference(d: bv8)
    requires Register(0, [d]) & 0xFF == 0
    ensures d == 0
  {
    RegisterOfOne(0, d);
    XorZero(Widen(d));
    OneByteLowBits(d);
  }

  lemma TwoByteDifference(d: bv8, e: bv8)
    requires Register(0, [d, e]) & 0xFFFF == 0
    ensures (d == 0 && e == 0) || (d == 0x61 && e == 0xD8)
  {
    TwoByteRegister(d, e);
    TwoBytesLowBits(d, e);
  }

  lemma TwoByteRegister(d: bv8, e: bv8)
    ensures Register(0, [d, e]) == ShiftByte(ShiftByte(d as bv32) ^ (e as bv32))
  {
    RegisterOfTwo(0, d, e);
    XorZero(Widen(d));
  }

  /** Three bytes are the register of a small word shifted three bytes. */
  lemma ThreeByteWord(d: bv8, e: bv8, f: bv8)
    ensures Register(0, [d, e, f]) == Iter(ShiftByte, 3, Folded(0, [d, e, f, 0]))
  {
    var three := Register(0, [d, e, f]);
    var word := Folded(0, [d, e, f, 0]);
    assert [d, e, f, 0] == [d, e, f] + [0];
    RegisterConcat(0, [d, e, f], [0]);
    RegisterOfOne(three, 0);
    XorZero(three);
    ShiftByteSliceable();
    AbsorbOfFour(ShiftByte, 0, [d, e, f, 0]);
    RegisterIsAbsorb(0, [d, e, f, 0]);
    IterSucc(ShiftByte, 3, word);
    ShiftByteInjective();
    InjectiveAt(ShiftByte, three, Iter(ShiftByte, 3, word));
  }

  lemma SmallWord(d: bv8, e: bv8, f: bv8)
    ensures Folded(0, [d, e, f, 0]) < 0x100_0000
  {
    FoldedIsWord(0, [d, e, f, 0]);
    SmallLeWord(d, e, f);
  }

  lemma SmallLeWord(d: bv8, e: bv8, f: bv8)
    ensures 0 ^ FromLeBytes(d, e, f, 0) < 0x100_0000
  {}

  lemma TopByteOnly(x: bv32)
    requires x & 0xFF_FFFF == 0
    ensures x == (((x >> 24) & 0xFF) as bv8 as bv32) << 24
  {}

  lemma ThreeByteDifference(d: bv8, e: bv8, f: bv8)
    requires Register(0, [d, e, f]) & 0xFF_FFFF == 0
    ensures Register(0, [d, e, f]) == 0
  {
    var x := Register(0, [d, e, f]);
    var t := ((x >> 24) & 0xFF) as bv8;
    TopByteOnly(x);
    ThreeByteWord(d, e, f);
    SmallWord(d, e, f);
    UnstepsUndo();
    LeftInverseIter(Unsteps8, ShiftByte, 3, Folded(0, [d, e, f, 0]));
    BackThree(x);
    ThreeBytesBack(t);
  }

  lemma BackThree(x: bv32)
    ensures Iter(Unsteps8, 3, x) == Back8(Back8(Back8(x)))
  {
    IterSucc(Unsteps8, 0, x);
    IterSucc(Unsteps8, 1, x);
    IterSucc(Unsteps8, 2, x);
    FlatUnsteps(x);
    FlatUnsteps(Back8(x));
    FlatUnsteps(Back8(Back8(x)));
  }

  // ---------------------------------------------------------------------------
  // A string followed by its stored checksum

  /** The checksum bits a window covering the last `k` string bytes leaves untouched. */
  function UntouchedBits(k: nat): bv32
    requires 1 <= k <= 3
  {
    if k == 1 then 0xFF else if k == 2 then 0xFFFF else 0xFF_FFFF
  }

  /** The one change in a four-byte straddling window that the checksum cannot see. */
  ghost predicate Blind(v: seq<bv8>, w: seq<bv8>, stored: bv32, changed: bv32) {
    && |v| == |w| == 2
    && v[0] ^ w[0] == 0x61
    && v[1] ^ w[1] == 0xD8
    && stored ^ changed == 0xF4EE_0000
  }

  lemma DifferenceShows(v: seq<bv8>, w: seq<bv8>)
    requires 1 <= |v| == |w| <= 3
    requires Register(0, XorBytes(v, w)) & UntouchedBits(|v|) == 0
    ensures Register(0, XorBytes(v, w)) == 0 || (|v| == 2 && v[0] ^ w[0] == 0x61 && v[1] ^ w[1] == 0xD8)
  {
    var d := XorBytes(v, w);
    if |v| == 1 {
      assert d == [d[0]];
      OneByteDifference(d[0]);
      RegisterOfOne(0, d[0]);
      ZeroFeed();
    } else if |v| == 2 {
      assert d == [d[0], d[1]];
      TwoByteDifference(d[0], d[1]);
      RegisterOfTwo(0, d[0], d[1]);
      ZeroFeed();
    } else {
      assert d == [d[0], d[1], d[2]];
      ThreeByteDifference(d[0], d[1], d[2]);
    }
  }

  lemma ZeroFeed()
    ensures FeedByte(0, 0) == 0
  {}

  lemma XorIsZero(x: bv32, y: bv32)
    requires x ^ y == 0
    ensures x == y
  {}

  lemma ChecksumsDiffer(p: seq<bv8>, v: seq<bv8>, w: seq<bv8>)
    requires |v| == |w|
    ensures Checksum(p + v) ^ Checksum(p + w) == Register(0, XorBytes(v, w))
  {
    hide Register, XorBytes, Complement;
    ChecksumDifference(INITIAL, p, v, w);
  }

  lemma NoDifference(p: seq<bv8>, v: seq<bv8>, w: seq<bv8>)
    requires |v| == |w| <= 4 && Register(0, XorBytes(v, w)) == 0
    ensures v == w
  {
    hide Checksum, Register, XorBytes;
    ChecksumsDiffer(p, v, w);
    XorIsZero(Checksum(p + v), Checksum(p + w));
    if v != w {
      assert p + v + [] == p + v && p + w + [] == p + w;
      BurstChangesChecksum(p, v, w, []);
    }
  }

  lemma BlindOnly(p: seq<bv8>, v: seq<bv8>, w: seq<bv8>)
    requires |v| == |w| == 2 && v[0] ^ w[0] == 0x61 && v[1] ^ w[1] == 0xD8
    ensures Blind(v, w, Checksum(p + v), Checksum(p + w))
  {
    hide Checksum;
    BlindDifference(p, v, w);
  }

  lemma UntouchedDifference(p: seq<bv8>, v: seq<bv8>, w: seq<bv8>)
    requires 1 <= |v| == |w| <= 3
    requires (Checksum(p + v) ^ Checksum(p + w)) & UntouchedBits(|v|) == 0
    ensures Register(0, XorBytes(v, w)) & UntouchedBits(|v|) == 0
  {
    hide Checksum, Register, XorBytes, UntouchedBits;
    ChecksumsDiffer(p, v, w);
  }

  /** A window over the last bytes of the string and the first bytes of its stored checksum:
      the changed string and checksum agree only if nothing changed, or in the blind pattern. */
  lemma StraddleShows(p: seq<bv8>, v: seq<bv8>, w: seq<bv8>)
    requires 1 <= |v| == |w| <= 3
    requires (Checksum(p + v) ^ Checksum(p + w)) & UntouchedBits(|v|) == 0
    ensures v == w || Blind(v, w, Checksum(p + v), Checksum(p + w))
  {
    hide Checksum, Register, XorBytes, UntouchedBits, Blind;
    UntouchedDifference(p, v, w);
    DifferenceShows(v, w);
    if Register(0, XorBytes(v, w)) == 0 {
      NoDifference(p, v, w);
    } else {
      BlindOnly(p, v, w);
    }
  }

  /** The blind pattern really is blind, after every string beginning. */
  lemma BlindDifference(p: seq<bv8>, v: seq<bv8>, w: seq<bv8>)
    requires |v| == |w| == 2 && v[0] ^ w[0] == 0x61 && v[1] ^ w[1] == 0xD8
    ensures Checksum(p + v) ^ Checksum(p + w) == 0xF4EE_0000
  {
    hide Checksum, Register, ShiftByte;
    ChecksumsDiffer(p, v, w);
    assert XorBytes(v, w) == [0x61, 0xD8];
    TwoByteRegister(0x61, 0xD8);
    BlindPattern();
  }
}
