/** Slicing-by-eight CRC-32 (crates/rafter-crc32/src/checksum.rs).

    The reference is the bit-serial shift register of IEEE 802.3 section 3.2.9 in its
    reflected form: one message bit at a time, least significant bit of each byte first.
    The program's table loops and block loop are proved equal to it. */
module Crc32 {
  import opened XorSpace
  import opened Crc32Steps

  const INITIAL: bv32 := 0xFFFF_FFFF

  // ---------------------------------------------------------------------------
  // Reference: one message bit per step

  function CrcBits(register: bv32, bits: seq<bool>): bv32
    decreases |bits|
  {
    if bits == [] then register else CrcBits(BitStep(register, bits[0]), bits[1..])
  }

  /** The low `n` bits of a word, least significant first. */
  function BitsOf(y: bv32, n: nat): seq<bool> {
    if n == 0 then [] else [y & 1 == 1] + BitsOf(y >> 1, n - 1)
  }

  function BitsOfByte(b: bv8): seq<bool> { BitsOf(b as bv32, 8) }

  function MessageBits(bytes: seq<bv8>): seq<bool> {
    if bytes == [] then [] else BitsOfByte(bytes[0]) + MessageBits(bytes[1..])
  }

  /** The register after a whole byte string. */
  function Register(start: bv32, bytes: seq<bv8>): bv32 {
    CrcBits(start, MessageBits(bytes))
  }

  /** The checksum of a byte string. */
  function Checksum(bytes: seq<bv8>): bv32 {
    Complement(Register(INITIAL, bytes))
  }

  function Complement(x: bv32): bv32 { !x }

  // ---------------------------------------------------------------------------
  // The register as a linear shift: one bit, one byte

  function Up8(x: bv32): bv32 { x << 8 }

  lemma XorShift(c: bv32, d: bv32)
    ensures (c ^ d) >> 1 == (c >> 1) ^ (d >> 1)
    ensures (c ^ d) & 1 == (c & 1) ^ (d & 1)
    ensures c & 1 == 0 || c & 1 == 1
  {}

  lemma XorLaws(c: bv32, d: bv32, p: bv32)
    ensures (c ^ d) ^ p == (c ^ p) ^ d
    ensures c ^ d == (c ^ p) ^ (d ^ p)
    ensures (c ^ d) ^ p == c ^ (d ^ p)
  {}

  lemma ShiftBitOfXor(c: bv32, d: bv32)
    ensures ShiftBit(c ^ d) == ShiftBit(c) ^ ShiftBit(d)
  {
    XorShift(c, d);
    XorShift(d, c);
    XorLaws(c >> 1, d >> 1, POLYNOMIAL);
  }

  lemma ShiftBitLinear()
    ensures Linear(Xor, ShiftBit)
  {
    forall c: bv32, d: bv32
      ensures ShiftBit(Xor(c, d)) == Xor(ShiftBit(c), ShiftBit(d))
    {
      ShiftBitOfXor(c, d);
    }
  }

  lemma ShiftByteLinear()
    ensures Linear(Xor, ShiftByte)
  {
    ShiftBitLinear();
    LinearTwice(Xor, ShiftBit, ShiftBits2);
    LinearTwice(Xor, ShiftBits2, ShiftBits4);
    LinearTwice(Xor, ShiftBits4, ShiftByte);
  }

  lemma ShiftBitCancels(c: bv32, d: bv32)
    requires ShiftBit(c) == ShiftBit(d)
    ensures c == d
  {}

  lemma ShiftByteInjective()
    ensures Injective(ShiftByte)
  {
    forall c: bv32, d: bv32 | ShiftBit(c) == ShiftBit(d)
      ensures c == d
    {
      ShiftBitCancels(c, d);
    }
    InjectiveTwice(ShiftBit, ShiftBits2);
    InjectiveTwice(ShiftBits2, ShiftBits4);
    InjectiveTwice(ShiftBits4, ShiftByte);
  }

  lemma XorTwice(x: bv32, w: bv32)
    ensures (x ^ w) ^ w == x
  {}

  lemma XorCancels()
    ensures Cancels(Xor)
  {
    forall x: bv32, y: bv32, w: bv32 | Xor(x, w) == Xor(y, w)
      ensures x == y
    {
      XorTwice(x, w);
      XorTwice(y, w);
    }
  }

  lemma ShiftByteIsEightBits(c: bv32)
    ensures Iter(ShiftBit, 8, c) == ShiftByte(c)
  {
    IterAdd(ShiftBit, 4, 4, c);
    IterFourBits(c);
    IterFourBits(ShiftBits4(c));
  }

  lemma IterFourBits(c: bv32)
    ensures Iter(ShiftBit, 4, c) == ShiftBits4(c)
  {
    IterAdd(ShiftBit, 2, 2, c);
    assert Iter(ShiftBit, 2, c) == Iter(ShiftBit, 1, ShiftBit(c)) == ShiftBits2(c);
    var d := ShiftBits2(c);
    assert Iter(ShiftBit, 2, d) == Iter(ShiftBit, 1, ShiftBit(d)) == ShiftBits2(d);
  }

  // ---------------------------------------------------------------------------
  // A byte at a time

  function Widen(b: bv8): bv32 { b as bv32 }

  function Words(bytes: seq<bv8>): (words: seq<bv32>)
    ensures |words| == |bytes|
  {
    seq(|bytes|, i requires 0 <= i < |bytes| => Widen(bytes[i]))
  }

  function BitWords(bits: seq<bool>): (words: seq<bv32>)
    ensures |words| == |bits|
  {
    seq(|bits|, i requires 0 <= i < |bits| => BitWord(bits[i]))
  }

  lemma {:induction false} CrcBitsIsAbsorb(c: bv32, bits: seq<bool>)
    ensures CrcBits(c, bits) == Absorb(Xor, ShiftBit, c, BitWords(bits))
    decreases |bits|
  {
    if bits != [] {
      BitStepIsShift(c, bits[0]);
      assert BitWords(bits)[1..] == BitWords(bits[1..]);
      CrcBitsIsAbsorb(BitStep(c, bits[0]), bits[1..]);
    }
  }

  lemma {:induction false} CrcBitsConcat(c: bv32, a: seq<bool>, b: seq<bool>)
    ensures CrcBits(c, a + b) == CrcBits(CrcBits(c, a), b)
  {
    CrcBitsIsAbsorb(c, a + b);
    CrcBitsIsAbsorb(c, a);
    CrcBitsIsAbsorb(CrcBits(c, a), b);
    assert BitWords(a + b) == BitWords(a) + BitWords(b);
    AbsorbConcat(Xor, ShiftBit, c, BitWords(a), BitWords(b));
  }

  function LowBit(y: bv32): bv32 { BitWord(y & 1 == 1) }
  function Half(y: bv32): bv32 { y >> 1 }

  lemma {:induction false} BitWordsAreDigits(y: bv32, n: nat)
    ensures BitWords(BitsOf(y, n)) == Digits(LowBit, Half, n, y)
  {
    if n > 0 {
      BitWordsAreDigits(y >> 1, n - 1);
      var bits := BitsOf(y, n);
      assert bits[1..] == BitsOf(y >> 1, n - 1);
      assert BitWords(bits) == [BitWord(bits[0])] + BitWords(bits[1..]);
    }
  }

  function Even(y: bv32): bv32 { (y >> 1) << 1 }

  lemma XorSplitLowBit(r: bv32, y: bv32)
    ensures Xor(r, y) == Xor(Xor(r, LowBit(y)), Even(y))
  {}

  lemma ShiftOfEven(y: bv32)
    ensures ShiftBit(Even(y)) == Half(y)
  {}

  lemma FoldLowBit(r: bv32, y: bv32)
    ensures ShiftBit(Xor(r, y)) == Xor(ShiftBit(Xor(r, LowBit(y))), Half(y))
  {
    ShiftBitLinear();
    XorSplitLowBit(r, y);
    ShiftOfEven(y);
    FoldDigit(Xor, ShiftBit, r, y, LowBit(y), Even(y), Half(y));
  }

  lemma EightHalves(b: bv8)
    ensures Iter(Half, 8, Widen(b)) == 0
  {
    var y := Widen(b);
    IterAdd(Half, 4, 4, y);
    IterAdd(Half, 2, 2, y);
    var y2 := y >> 2;
    var y4 := y >> 4;
    assert Iter(Half, 2, y) == Iter(Half, 1, Half(y)) == y2;
    assert Iter(Half, 2, y2) == Iter(Half, 1, Half(y2)) == y4;
    IterAdd(Half, 2, 2, y4);
    var y6 := y >> 6;
    assert Iter(Half, 2, y4) == Iter(Half, 1, Half(y4)) == y6;
    assert Iter(Half, 2, y6) == Iter(Half, 1, Half(y6)) == 0;
  }

  /** One whole byte: exclusive-or it into the low end and shift eight times. */
  lemma ByteStep(c: bv32, b: bv8)
    ensures CrcBits(c, BitsOfByte(b)) == ShiftByte(Xor(c, Widen(b)))
  {
    forall r: bv32, y: bv32
      ensures ShiftBit(Xor(r, y)) == Xor(ShiftBit(Xor(r, LowBit(y))), Half(y))
    {
      FoldLowBit(r, y);
    }
    AbsorbDigits(Xor, ShiftBit, LowBit, Half, 8, c, Widen(b));
    BitWordsAreDigits(Widen(b), 8);
    CrcBitsIsAbsorb(c, BitsOfByte(b));
    EightHalves(b);
    ShiftByteIsEightBits(Xor(c, Widen(b)));
  }

  /** The bit-serial register, byte by byte. */
  lemma {:induction false} RegisterIsAbsorb(c: bv32, bytes: seq<bv8>)
    ensures Register(c, bytes) == Absorb(Xor, ShiftByte, c, Words(bytes))
    decreases |bytes|
  {
    if bytes != [] {
      CrcBitsConcat(c, BitsOfByte(bytes[0]), MessageBits(bytes[1..]));
      ByteStep(c, bytes[0]);
      assert Words(bytes)[1..] == Words(bytes[1..]);
      RegisterIsAbsorb(ShiftByte(Xor(c, Widen(bytes[0]))), bytes[1..]);
    }
  }

  lemma RegisterConcat(c: bv32, a: seq<bv8>, b: seq<bv8>)
    ensures Register(c, a + b) == Register(Register(c, a), b)
  {
    hide Register, Xor, ShiftByte, Widen;
    RegisterIsAbsorb(c, a + b);
    RegisterIsAbsorb(c, a);
    RegisterIsAbsorb(Register(c, a), b);
    assert Words(a + b) == Words(a) + Words(b);
    AbsorbConcat(Xor, ShiftByte, c, Words(a), Words(b));
  }

  // ---------------------------------------------------------------------------
  // Tables

  /** Entry `b` of table `k`: byte `b` advanced past `k` trailing zero bytes. */
  function TableEntry(k: nat, b: bv8): bv32 { Iter(ShiftByte, k + 1, Widen(b)) }

  function LowByte(c: bv32): bv8 { (c & 0xFF) as bv8 }

  lemma SplitLowByte(c: bv32)
    ensures Xor(c, 0) == Xor(Xor(Up8(c >> 8), Widen(LowByte(c))), 0)
    ensures c >> 8 < 0x100_0000
    ensures c == Xor(Up8(c >> 8), Widen(LowByte(c)))
  {}

  lemma ShiftOfByteRaised(y: bv32)
    requires y < 0x100_0000
    ensures ShiftByte(Up8(y)) == y
  {}

  lemma FirstTable(b: bv8)
    ensures TableEntry(0, b) == ShiftByte(Widen(b)) == Iter(ShiftBit, 8, Widen(b))
  {
    IterSucc(ShiftByte, 0, Widen(b));
    ShiftByteIsEightBits(Widen(b));
  }

  /** The look-up step: shift the register a byte and correct with the table entry. */
  lemma LookUpStep(c: bv32)
    ensures ShiftByte(c) == Xor(c >> 8, TableEntry(0, LowByte(c)))
  {
    SplitLowByte(c);
    ShiftByteLinear();
    ShiftOfByteRaised(c >> 8);
    LinearAt(Xor, ShiftByte, Up8(c >> 8), Widen(LowByte(c)));
    FirstTable(LowByte(c));
  }

  /** The word of the byte at table position `i`. */
  function WordAt(i: int): bv32
    requires 0 <= i < 256
  {
    Widen(i as bv8)
  }

  lemma WordAtByte(b: bv8)
    ensures 0 <= b as int < 256 && WordAt(b as int) == Widen(b)
  {
    assert (b as int) as bv8 == b;
  }

  type Table = seq<bv32>

  /** The first `upTo` entries of a table are bytes advanced `power` times by `shift`. */
  ghost predicate RowBuilt(row: Table, shift: bv32 -> bv32, power: nat, upTo: int) {
    && |row| == 256
    && upTo <= 256
    && forall i :: 0 <= i < upTo ==> row[i] == Iter(shift, power, WordAt(i))
  }

  /** Shifting a register by a byte is one look-up in the first table. */
  ghost predicate LooksUp(first: Table, shift: bv32 -> bv32) {
    && |first| == 256
    && forall c: bv32 {:trigger shift(c)} :: shift(c) == (c >> 8) ^ first[LowByte(c) as int]
  }

  ghost predicate RowsBuilt(tables: seq<Table>, shift: bv32 -> bv32, rows: nat) {
    && |tables| == 8
    && rows <= 8
    && (forall k :: 0 <= k < 8 ==> |tables[k]| == 256)
    && forall k :: 0 <= k < rows ==> RowBuilt(tables[k], shift, k + 1, 256)
  }

  ghost predicate TablesBuilt(tables: seq<Table>) {
    RowsBuilt(tables, ShiftByte, 8)
  }

  lemma FirstRowLooksUp(first: Table)
    requires RowBuilt(first, ShiftByte, 1, 256)
    ensures LooksUp(first, ShiftByte)
  {
    forall c: bv32
      ensures ShiftByte(c) == (c >> 8) ^ first[LowByte(c) as int]
    {
      LookUpStep(c);
      WordAtByte(LowByte(c));
    }
  }

  method BuildFirstEntry(i: nat) returns (crc: bv32)
    requires i < 256
    ensures crc == Iter(ShiftByte, 1, WordAt(i))
  {
    crc := (i as bv8) as bv32;
    var j := 0;
    while j < 8
      invariant 0 <= j <= 8
      invariant crc == Iter(ShiftBit, j, WordAt(i))
    {
      IterSucc(ShiftBit, j, WordAt(i));
      if crc & 1 == 1 {
        crc := (crc >> 1) ^ POLYNOMIAL;
      } else {
        crc := crc >> 1;
      }
      j := j + 1;
    }
    FirstTable(i as bv8);
  }

  method BuildFirstTable() returns (first: Table)
    ensures RowBuilt(first, ShiftByte, 1, 256)
  {
    first := seq(256, i => 0);
    ghost var shift: bv32 -> bv32 := ShiftByte;
    var i := 0;
    while i < 256
      invariant 0 <= i <= 256
      invariant RowBuilt(first, shift, 1, i)
    {
      var crc := BuildFirstEntry(i);
      first := first[i := crc];
      i := i + 1;
    }
  }

  method BuildNextTable(first: Table, previous: Table, ghost shift: bv32 -> bv32, ghost power: nat)
    returns (next: Table)
    requires LooksUp(first, shift) && RowBuilt(previous, shift, power, 256)
    ensures RowBuilt(next, shift, power + 1, 256)
  {
    next := seq(256, i => 0);
    var byte := 0;
    while byte < 256
      invariant 0 <= byte <= 256
      invariant RowBuilt(next, shift, power + 1, byte)
    {
      var entry := previous[byte];
      IterSucc(shift, power, WordAt(byte));
      var advanced := (entry >> 8) ^ first[LowByte(entry) as int];
      assert advanced == shift(entry);
      next := next[byte := advanced];
      byte := byte + 1;
    }
  }

  method BuildSlices(first: Table, ghost shift: bv32 -> bv32) returns (tables: seq<Table>)
    requires LooksUp(first, shift) && RowBuilt(first, shift, 1, 256)
    ensures RowsBuilt(tables, shift, 8)
  {
    tables := [first, first, first, first, first, first, first, first];
    var slice := 1;
    while slice < 8
      invariant 1 <= slice <= 8
      invariant RowsBuilt(tables, shift, slice)
    {
      var next := BuildNextTable(first, tables[slice - 1], shift, slice);
      tables := tables[slice := next];
      slice := slice + 1;
    }
  }

  /** The eight look-up tables. */
  method BuildTables() returns (tables: seq<Table>)
    ensures TablesBuilt(tables)
  {
    var first := BuildFirstTable();
    FirstRowLooksUp(first);
    tables := BuildSlices(first, ShiftByte);
  }

  // ---------------------------------------------------------------------------
  // The streaming accumulator

  function Byte0(x: bv32): bv8 { (x & 0xFF) as bv8 }
  function Byte1(x: bv32): bv8 { ((x >> 8) & 0xFF) as bv8 }
  function Byte2(x: bv32): bv8 { ((x >> 16) & 0xFF) as bv8 }
  function Byte3(x: bv32): bv8 { ((x >> 24) & 0xFF) as bv8 }

  function FromLeBytes(a: bv8, b: bv8, c: bv8, d: bv8): bv32 {
    (a as bv32) | ((b as bv32) << 8) | ((c as bv32) << 16) | ((d as bv32) << 24)
  }

  lemma IterUp8Once(w: bv32)
    ensures Iter(Up8, 1, w) == w << 8
  {
    IterSucc(Up8, 0, w);
  }

  lemma IterUp8Twice(w: bv32)
    ensures Iter(Up8, 2, w) == w << 16
  {
    IterUp8Once(w);
    IterSucc(Up8, 1, w);
  }

  lemma IterUp8Thrice(w: bv32)
    ensures Iter(Up8, 3, w) == w << 24
  {
    IterUp8Twice(w);
    IterSucc(Up8, 2, w);
  }

  lemma WordIsXor(a: bv8, b: bv8, c: bv8, d: bv8)
    ensures FromLeBytes(a, b, c, d) == Xor(Xor(Xor(Widen(a), Widen(b) << 8), Widen(c) << 16), Widen(d) << 24)
  {}

  /** Folding a little-endian word into the register, byte by byte. */
  lemma FoldWord(s: bv32, a: bv8, b: bv8, c: bv8, d: bv8)
    ensures Xor(s, FromLeBytes(a, b, c, d))
         == Xor(Xor(Xor(Xor(s, Widen(a)), Widen(b) << 8), Widen(c) << 16), Widen(d) << 24)
  {
    hide Xor, Widen, FromLeBytes;
    WordIsXor(a, b, c, d);
    forall x: bv32, y: bv32, z: bv32
      ensures Xor(Xor(x, y), z) == Xor(x, Xor(y, z))
    {
      XorAbelian(x, y, z);
    }
    FoldIntoFirst(Xor, s, Widen(a), Widen(b) << 8, Widen(c) << 16, Widen(d) << 24);
  }

  lemma SplitWord(x: bv32)
    ensures x == Xor(Xor(Xor(Widen(Byte0(x)), Widen(Byte1(x)) << 8), Widen(Byte2(x)) << 16), Widen(Byte3(x)) << 24)
  {}

  lemma ByteRaisedOnce(b: bv8, j: nat)
    requires j <= 2
    ensures ShiftByte(Up8(Iter(Up8, j, Widen(b)))) == Iter(Up8, j, Widen(b))
  {
    var w := Widen(b);
    RaisedBound(b, j);
    ShiftOfByteRaised(Iter(Up8, j, w));
  }

  lemma RaisedBound(b: bv8, j: nat)
    requires j <= 2
    ensures Iter(Up8, j, Widen(b)) < 0x100_0000
  {
    if j == 1 {
      IterUp8Once(Widen(b));
    } else if j == 2 {
      IterUp8Twice(Widen(b));
    }
  }

  lemma ByteRaised(k: nat, b: bv8)
    requires k <= 3
    ensures Iter(ShiftByte, k, Iter(Up8, k, Widen(b))) == Widen(b)
  {
    forall j: nat | j < k
      ensures ShiftByte(Up8(Iter(Up8, j, Widen(b)))) == Iter(Up8, j, Widen(b))
    {
      ByteRaisedOnce(b, j);
    }
    UndoRaises(ShiftByte, Up8, k, Widen(b));
  }

  /** A register shift the tables can slice: linear, and moving raised bytes straight down. */
  ghost predicate Sliceable(shift: bv32 -> bv32) {
    && Linear(Xor, shift)
    && forall b: bv8, k: nat {:trigger Iter(Up8, k, Widen(b))} ::
         k <= 3 ==> Iter(shift, k, Iter(Up8, k, Widen(b))) == Widen(b)
  }

  lemma ShiftByteSliceable()
    ensures Sliceable(ShiftByte)
  {
    ShiftByteLinear();
    forall b: bv8, k: nat | k <= 3
      ensures Iter(ShiftByte, k, Iter(Up8, k, Widen(b))) == Widen(b)
    {
      ByteRaised(k, b);
    }
  }

  lemma FourRaised(shift: bv32 -> bv32, a: bv8, b: bv8, c: bv8, d: bv8)
    requires Sliceable(shift)
    ensures Raised(shift, Up8, [Widen(a), Widen(b), Widen(c), Widen(d)], 0)
  {
    assert Iter(shift, 0, Iter(Up8, 0, Widen(a))) == Widen(a);
    assert Iter(shift, 1, Iter(Up8, 1, Widen(b))) == Widen(b);
    assert Iter(shift, 2, Iter(Up8, 2, Widen(c))) == Widen(c);
    assert Iter(shift, 3, Iter(Up8, 3, Widen(d))) == Widen(d);
  }

  lemma GatheredWord(s: bv32, a: bv8, b: bv8, c: bv8, d: bv8)
    ensures Xor(Xor(Xor(Xor(s, Widen(a)), Iter(Up8, 1, Widen(b))), Iter(Up8, 2, Widen(c))), Iter(Up8, 3, Widen(d)))
         == Xor(s, FromLeBytes(a, b, c, d))
  {
    hide Xor, Widen, FromLeBytes, Up8;
    IterUp8Once(Widen(b));
    IterUp8Twice(Widen(c));
    IterUp8Thrice(Widen(d));
    FoldWord(s, a, b, c, d);
  }

  lemma GatheredBytes(x: bv32)
    ensures Xor(Xor(Xor(Widen(Byte0(x)), Iter(Up8, 1, Widen(Byte1(x)))), Iter(Up8, 2, Widen(Byte2(x)))),
                Iter(Up8, 3, Widen(Byte3(x)))) == x
  {
    hide Xor, Widen, Byte0, Byte1, Byte2, Byte3, Up8;
    IterUp8Once(Widen(Byte1(x)));
    IterUp8Twice(Widen(Byte2(x)));
    IterUp8Thrice(Widen(Byte3(x)));
    SplitWord(x);
  }

  /** The register with a word folded in, seen as its own four bytes. */
  lemma FoldedBytes(s: bv32, a: bv8, b: bv8, c: bv8, d: bv8)
    ensures
      var x := Xor(s, FromLeBytes(a, b, c, d));
      Xor(Xor(Xor(Xor(s, Widen(a)), Iter(Up8, 1, Widen(b))), Iter(Up8, 2, Widen(c))), Iter(Up8, 3, Widen(d)))
      == Xor(Xor(Xor(Widen(Byte0(x)), Iter(Up8, 1, Widen(Byte1(x)))), Iter(Up8, 2, Widen(Byte2(x)))),
             Iter(Up8, 3, Widen(Byte3(x))))
  {
    hide Xor, Widen, FromLeBytes, Up8, Byte0, Byte1, Byte2, Byte3;
    GatheredWord(s, a, b, c, d);
    GatheredBytes(Xor(s, FromLeBytes(a, b, c, d)));
  }

  /** The block step: eight look-ups equal eight byte steps of the register. */
  lemma BlockStep(shift: bv32 -> bv32, s: bv32, block: seq<bv8>)
    requires |block| == 8 && Sliceable(shift)
    ensures
      var x := Xor(s, FromLeBytes(block[0], block[1], block[2], block[3]));
      Absorb(Xor, shift, s, Words(block))
      == Sliced(Xor, shift, (Widen(Byte0(x)), Widen(Byte1(x)), Widen(Byte2(x)), Widen(Byte3(x))), Words(block)[4..])
  {
    hide Xor, Widen, FromLeBytes, Up8, Byte0, Byte1, Byte2, Byte3;
    var x := Xor(s, FromLeBytes(block[0], block[1], block[2], block[3]));
    FourRaised(shift, block[0], block[1], block[2], block[3]);
    FourRaised(shift, block[4], block[5], block[6], block[7]);
    FourRaised(shift, Byte0(x), Byte1(x), Byte2(x), Byte3(x));
    FoldedBytes(s, block[0], block[1], block[2], block[3]);
    SlicedBlock(Xor, shift, Up8, s, Words(block), (Widen(Byte0(x)), Widen(Byte1(x)), Widen(Byte2(x)), Widen(Byte3(x))));
  }

  lemma LookUp(table: Table, shift: bv32 -> bv32, power: nat, b: bv8)
    requires RowBuilt(table, shift, power, 256)
    ensures table[b as int] == Iter(shift, power, Widen(b))
  {
    WordAtByte(b);
  }

  /** One byte step of the register. */
  function FeedByte(s: bv32, b: bv8): bv32 { ShiftByte(Xor(s, Widen(b))) }

  /** The register after a byte string, for any byte step. */
  function Feed(step: (bv32, bv8) -> bv32, s: bv32, bytes: seq<bv8>): bv32
    decreases |bytes|
  {
    if bytes == [] then s else Feed(step, step(s, bytes[0]), bytes[1..])
  }

  lemma {:induction false} FeedConcat(step: (bv32, bv8) -> bv32, s: bv32, a: seq<bv8>, b: seq<bv8>)
    ensures Feed(step, s, a + b) == Feed(step, Feed(step, s, a), b)
    decreases |a|
  {
    if a == [] {
      assert a + b == b;
    } else {
      assert (a + b)[1..] == a[1..] + b;
      FeedConcat(step, step(s, a[0]), a[1..], b);
    }
  }

  lemma {:induction false} FeedIsAbsorb(s: bv32, bytes: seq<bv8>)
    ensures Feed(FeedByte, s, bytes) == Absorb(Xor, ShiftByte, s, Words(bytes))
    decreases |bytes|
  {
    if bytes != [] {
      assert Words(bytes)[1..] == Words(bytes[1..]);
      FeedIsAbsorb(FeedByte(s, bytes[0]), bytes[1..]);
    }
  }

  /** What one round of the block loop computes. */
  function BlockLookUp(tables: seq<Table>, state: bv32, block: seq<bv8>): bv32
    requires |tables| == 8 && (forall k :: 0 <= k < 8 ==> |tables[k]| == 256)
    requires |block| == 8
  {
    var x := state ^ FromLeBytes(block[0], block[1], block[2], block[3]);
    Xor(Xor(Xor(Xor(Xor(Xor(Xor(
      tables[7][Byte0(x) as int], tables[6][Byte1(x) as int]), tables[5][Byte2(x) as int]), tables[4][Byte3(x) as int]),
      tables[3][block[4] as int]), tables[2][block[5] as int]),
      tables[1][block[6] as int]), tables[0][block[7] as int])
  }

  /** What one round of the tail loop computes. */
  function TailLookUp(first: Table, state: bv32, b: bv8): bv32
    requires |first| == 256
  {
    (state >> 8) ^ first[LowByte(state ^ Widen(b)) as int]
  }

  lemma BlockLookUpIsSliced(tables: seq<Table>, shift: bv32 -> bv32, state: bv32, block: seq<bv8>)
    requires |block| == 8 && RowsBuilt(tables, shift, 8)
    ensures
      var x := state ^ FromLeBytes(block[0], block[1], block[2], block[3]);
      BlockLookUp(tables, state, block)
      == Sliced(Xor, shift, (Widen(Byte0(x)), Widen(Byte1(x)), Widen(Byte2(x)), Widen(Byte3(x))), Words(block)[4..])
  {
    var x := state ^ FromLeBytes(block[0], block[1], block[2], block[3]);
    LookUp(tables[7], shift, 8, Byte0(x));
    LookUp(tables[6], shift, 7, Byte1(x));
    LookUp(tables[5], shift, 6, Byte2(x));
    LookUp(tables[4], shift, 5, Byte3(x));
    LookUp(tables[3], shift, 4, block[4]);
    LookUp(tables[2], shift, 3, block[5]);
    LookUp(tables[1], shift, 2, block[6]);
    LookUp(tables[0], shift, 1, block[7]);
  }

  lemma BlockLookUpFeeds(tables: seq<Table>, shift: bv32 -> bv32, state: bv32, block: seq<bv8>)
    requires |block| == 8 && RowsBuilt(tables, shift, 8) && Sliceable(shift)
    ensures BlockLookUp(tables, state, block) == Absorb(Xor, shift, state, Words(block))
  {
    BlockLookUpIsSliced(tables, shift, state, block);
    BlockStep(shift, state, block);
  }

  lemma TailLookUpFeeds(first: Table, shift: bv32 -> bv32, state: bv32, b: bv8)
    requires LooksUp(first, shift)
    ensures TailLookUp(first, state, b) == shift(Xor(state, Widen(b)))
  {
    assert (state ^ Widen(b)) >> 8 == state >> 8;
  }

  /** The tables realise the byte step `step`, eight bytes or one byte at a time. */
  ghost predicate Realise(tables: seq<Table>, step: (bv32, bv8) -> bv32) {
    && |tables| == 8
    && (forall k :: 0 <= k < 8 ==> |tables[k]| == 256)
    && (forall s: bv32, block: seq<bv8> {:trigger BlockLookUp(tables, s, block)} ::
          |block| == 8 ==> BlockLookUp(tables, s, block) == Feed(step, s, block))
    && (forall s: bv32, b: bv8 {:trigger TailLookUp(tables[0], s, b)} ::
          TailLookUp(tables[0], s, b) == step(s, b))
  }

  lemma BuiltTablesRealise(tables: seq<Table>)
    requires TablesBuilt(tables)
    ensures Realise(tables, FeedByte)
  {
    ShiftByteSliceable();
    FirstRowLooksUp(tables[0]);
    forall s: bv32, block: seq<bv8> | |block| == 8
      ensures BlockLookUp(tables, s, block) == Feed(FeedByte, s, block)
    {
      BlockLookUpFeeds(tables, ShiftByte, s, block);
      FeedIsAbsorb(s, block);
    }
    forall s: bv32, b: bv8
      ensures TailLookUp(tables[0], s, b) == FeedByte(s, b)
    {
      TailLookUpFeeds(tables[0], ShiftByte, s, b);
    }
  }

  method FeedBlocks(tables: seq<Table>, start: bv32, bytes: seq<bv8>, ghost step: (bv32, bv8) -> bv32)
    returns (state: bv32)
    requires Realise(tables, step)
    ensures state == Feed(step, start, bytes[..|bytes| / 8 * 8])
  {
    state := start;
    for k := 0 to |bytes| / 8
      invariant state == Feed(step, start, bytes[..8 * k])
    {
      var block := bytes[8 * k..8 * k + 8];
      FeedConcat(step, start, bytes[..8 * k], block);
      assert bytes[..8 * (k + 1)] == bytes[..8 * k] + block;
      state := BlockLookUp(tables, state, block);
    }
  }

  method FeedTail(tables: seq<Table>, start: bv32, tail: seq<bv8>, ghost step: (bv32, bv8) -> bv32)
    returns (state: bv32)
    requires Realise(tables, step)
    ensures state == Feed(step, start, tail)
  {
    state := start;
    for k := 0 to |tail|
      invariant state == Feed(step, start, tail[..k])
    {
      FeedConcat(step, start, tail[..k], [tail[k]]);
      assert tail[..k + 1] == tail[..k] + [tail[k]];
      assert Feed(step, state, [tail[k]]) == step(state, tail[k]);
      state := TailLookUp(tables[0], state, tail[k]);
    }
    assert tail[..|tail|] == tail;
  }

  lemma FeedIsRegister(s: bv32, bytes: seq<bv8>)
    ensures Feed(FeedByte, s, bytes) == Register(s, bytes)
  {
    FeedIsAbsorb(s, bytes);
    RegisterIsAbsorb(s, bytes);
  }

  class RunningCrc32 {
    var state: bv32

    constructor ()
      ensures state == INITIAL
    {
      state := INITIAL;
    }

    /** Extends the checksum; block boundaries are relative to each call's own slice. */
    method Update(tables: seq<Table>, bytes: seq<bv8>)
      requires TablesBuilt(tables)
      modifies this
      ensures state == Register(old(state), bytes)
    {
      hide Register, Feed, Realise, TablesBuilt;
      var split := |bytes| / 8 * 8;
      BuiltTablesRealise(tables);
      FeedConcat(FeedByte, state, bytes[..split], bytes[split..]);
      FeedIsRegister(state, bytes);
      assert bytes == bytes[..split] + bytes[split..];
      state := FeedBlocks(tables, state, bytes, FeedByte);
      state := FeedTail(tables, state, bytes[split..], FeedByte);
    }

    method Value() returns (value: bv32)
      ensures value == !state
    {
      value := !state;
    }
  }

  /** The checksum of one slice. */
  method ComputeCrc32(tables: seq<Table>, bytes: seq<bv8>) returns (value: bv32)
    requires TablesBuilt(tables)
    ensures value == Checksum(bytes)
  {
    var crc := new RunningCrc32();
    crc.Update(tables, bytes);
    value := crc.Value();
  }

  function Concat(pieces: seq<seq<bv8>>): seq<bv8> {
    if pieces == [] then [] else pieces[0] + Concat(pieces[1..])
  }

  /** Any split of a message, fed piece by piece, checksums like the whole. */
  method ComputeInPieces(tables: seq<Table>, pieces: seq<seq<bv8>>) returns (value: bv32)
    requires TablesBuilt(tables)
    ensures value == Checksum(Concat(pieces))
  {
    var crc := new RunningCrc32();
    var k := 0;
    while k < |pieces|
      invariant 0 <= k <= |pieces|
      invariant Register(crc.state, Concat(pieces[k..])) == Register(INITIAL, Concat(pieces))
    {
      ghost var before := crc.state;
      crc.Update(tables, pieces[k]);
      assert pieces[k..][1..] == pieces[k + 1..];
      RegisterConcat(before, pieces[k], Concat(pieces[k + 1..]));
      k := k + 1;
    }
    assert pieces[k..] == [];
    value := crc.Value();
  }

  // ---------------------------------------------------------------------------
  // Known values

  lemma AfterByte(c: bv32, b: bv8, d: bv32, rest: seq<bv8>)
    requires ShiftByte(Xor(c, Widen(b))) == d
    ensures Register(c, [b] + rest) == Register(d, rest)
  {
    hide ShiftByte, Xor, Widen, BitsOfByte;
    ByteStep(c, b);
    RegisterConcat(c, [b], rest);
    assert [b][1..] == [] && MessageBits([b]) == BitsOfByte(b);
  }

  /** The checksum of nothing. */
  lemma EmptyChecksum()
    ensures Checksum([]) == 0
  {}

  const CHECK_INPUT: seq<bv8> := [0x31, 0x32, 0x33, 0x34, 0x35, 0x36, 0x37, 0x38, 0x39]

  lemma FirstFour(rest: seq<bv8>)
    ensures Register(0xFFFF_FFFF, [0x31] + ([0x32] + ([0x33] + ([0x34] + rest)))) == Register(0x641C_1F5C, rest)
  {
    hide Register;
    AfterByte(0xFFFF_FFFF, 0x31, 0x7C23_1048, [0x32] + ([0x33] + ([0x34] + rest)));
    AfterByte(0x7C23_1048, 0x32, 0xB0AC_BB32, [0x33] + ([0x34] + rest));
    AfterByte(0xB0AC_BB32, 0x33, 0x77B7_9C2D, [0x34] + rest);
    AfterByte(0x77B7_9C2D, 0x34, 0x641C_1F5C, rest);
  }

  lemma NextFour(rest: seq<bv8>)
    ensures Register(0x641C_1F5C, [0x35] + ([0x36] + ([0x37] + ([0x38] + rest)))) == Register(0x651F_2550, rest)
  {
    hide Register;
    AfterByte(0x641C_1F5C, 0x35, 0x340A_C5E3, [0x36] + ([0x37] + ([0x38] + rest)));
    AfterByte(0x340A_C5E3, 0x36, 0xF68D_2C9E, [0x37] + ([0x38] + rest));
    AfterByte(0xF68D_2C9E, 0x37, 0xAFFC_9660, [0x38] + rest);
    AfterByte(0xAFFC_9660, 0x38, 0x651F_2550, rest);
  }

  /** The check value that is published for this checksum: that of the nine digits. */
  lemma CheckValue()
    ensures Checksum(CHECK_INPUT) == 0xCBF4_3926
  {
    hide Register;
    var last: seq<bv8> := [0x39] + [];
    FirstFour([0x35] + ([0x36] + ([0x37] + ([0x38] + last))));
    NextFour(last);
    AfterByte(0x651F_2550, 0x39, 0x340B_C6D9, []);
    assert Register(0x340B_C6D9, []) == 0x340B_C6D9 by { NothingRegistered(0x340B_C6D9); }
    assert CHECK_INPUT ==
      [0x31] + ([0x32] + ([0x33] + ([0x34] + ([0x35] + ([0x36] + ([0x37] + ([0x38] + last)))))));
  }

  lemma NothingRegistered(c: bv32)
    ensures Register(c, []) == c
  {}
}
