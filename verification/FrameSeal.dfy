/** The four checksum bytes that close a frame, and what they detect.

    Frames are bytes as integers; the checksum works on bit vectors.  This module crosses
    between the two once, so that everything about frames can be stated on byte strings. */
module FrameSeal {
  import opened Prelude
  import opened Wire
  import opened ByteBits
  import opened Crc32
  import opened Crc32Detection

  function ToBits(x: u8): bv8 { x as bv8 }

  function FromBits(b: bv8): u8 { b as int }

  lemma ByteBack(x: u8)
    ensures FromBits(ToBits(x)) == x
  {
    IntegerBack(x);
  }

  lemma BitsBack(b: bv8)
    ensures ToBits(FromBits(b)) == b
  {}

  function Narrow(bytes: seq<u8>): (b: seq<bv8>)
    ensures |b| == |bytes|
    ensures forall i :: 0 <= i < |b| ==> b[i] == ToBits(bytes[i])
  {
    seq(|bytes|, i requires 0 <= i < |bytes| => ToBits(bytes[i]))
  }

  lemma NarrowInjective(a: seq<u8>, b: seq<u8>)
    requires |a| == |b| && Narrow(a) == Narrow(b)
    ensures a == b
  {
    forall i | 0 <= i < |a|
      ensures a[i] == b[i]
    {
      assert Narrow(a)[i] == Narrow(b)[i];
      ByteBack(a[i]);
      ByteBack(b[i]);
    }
  }

  lemma NarrowConcat(a: seq<u8>, b: seq<u8>)
    ensures Narrow(a + b) == Narrow(a) + Narrow(b)
  {}

  /** `u32::to_be_bytes`. */
  function SumBytes(c: bv32): (s: seq<u8>)
    ensures |s| == 4
  {
    [FromBits(Byte3(c)), FromBits(Byte2(c)), FromBits(Byte1(c)), FromBits(Byte0(c))]
  }

  lemma SumBytesBack(c: bv32)
    ensures ToBits(SumBytes(c)[0]) == Byte3(c) && ToBits(SumBytes(c)[1]) == Byte2(c)
    ensures ToBits(SumBytes(c)[2]) == Byte1(c) && ToBits(SumBytes(c)[3]) == Byte0(c)
  {
    BitsBack(Byte0(c));
    BitsBack(Byte1(c));
    BitsBack(Byte2(c));
    BitsBack(Byte3(c));
  }

  lemma FourBytesDetermine(c: bv32, d: bv32)
    requires Byte0(c) == Byte0(d) && Byte1(c) == Byte1(d) && Byte2(c) == Byte2(d) && Byte3(c) == Byte3(d)
    ensures c == d
  {}

  lemma SumBytesInjective(c: bv32, d: bv32)
    requires SumBytes(c) == SumBytes(d)
    ensures c == d
  {
    SumBytesBack(c);
    SumBytesBack(d);
    FourBytesDetermine(c, d);
  }

  lemma LowByteEqual(c: bv32, d: bv32)
    requires Byte0(c) == Byte0(d)
    ensures (c ^ d) & 0xFF == 0
  {}

  lemma LowTwoEqual(c: bv32, d: bv32)
    requires Byte0(c) == Byte0(d) && Byte1(c) == Byte1(d)
    ensures (c ^ d) & 0xFFFF == 0
  {}

  lemma LowThreeEqual(c: bv32, d: bv32)
    requires Byte0(c) == Byte0(d) && Byte1(c) == Byte1(d) && Byte2(c) == Byte2(d)
    ensures (c ^ d) & 0xFF_FFFF == 0
  {}

  /** The last `k` bytes of two checksum fields agree exactly on the low `8 k` bits. */
  lemma TailsAgree(c: bv32, d: bv32, k: nat)
    requires 1 <= k <= 3
    requires forall i :: 4 - k <= i < 4 ==> SumBytes(c)[i] == SumBytes(d)[i]
    ensures (c ^ d) & UntouchedBits(k) == 0
  {
    SumBytesBack(c);
    SumBytesBack(d);
    assert SumBytes(c)[3] == SumBytes(d)[3];
    if k == 1 {
      LowByteEqual(c, d);
    } else if k == 2 {
      assert SumBytes(c)[2] == SumBytes(d)[2];
      LowTwoEqual(c, d);
    } else {
      assert SumBytes(c)[2] == SumBytes(d)[2] && SumBytes(c)[1] == SumBytes(d)[1];
      LowThreeEqual(c, d);
    }
  }

  lemma BlindBytes(c: bv32, d: bv32)
    requires c ^ d == 0xF4EE_0000
    ensures Byte3(c) ^ Byte3(d) == 0xF4 && Byte2(c) ^ Byte2(d) == 0xEE
    ensures Byte1(c) == Byte1(d) && Byte0(c) == Byte0(d)
  {}

  // ---------------------------------------------------------------------------
  // Sealed byte strings

  function Seal(body: seq<u8>): (s: seq<u8>)
    ensures |s| == 4
  {
    SumBytes(Checksum(Narrow(body)))
  }

  /** The four bytes are the checksum, most significant byte first: those of the nine digits. */
  lemma CheckSeal()
    ensures Seal([0x31, 0x32, 0x33, 0x34, 0x35, 0x36, 0x37, 0x38, 0x39]) == [0xCB, 0xF4, 0x39, 0x26]
  {
    hide Checksum;
    CheckValue();
    assert Narrow([0x31, 0x32, 0x33, 0x34, 0x35, 0x36, 0x37, 0x38, 0x39]) == CHECK_INPUT;
    assert Byte3(0xCBF4_3926) == 0xCB && Byte2(0xCBF4_3926) == 0xF4;
    assert Byte1(0xCBF4_3926) == 0x39 && Byte0(0xCBF4_3926) == 0x26;
  }


  /** The string ends with the checksum of everything before it. */
  predicate Sealed(f: seq<u8>) {
    |f| >= 4 && f[|f| - 4..] == Seal(f[..|f| - 4])
  }

  /** `f` and `g` agree outside `len` consecutive bytes starting at `from`. */
  ghost predicate WithinWindow(f: seq<u8>, g: seq<u8>, from: nat, len: nat) {
    |f| == |g| && forall i :: 0 <= i < |f| && !(from <= i < from + len) ==> f[i] == g[i]
  }

  predicate Flips(x: u8, y: u8, mask: bv8) { ToBits(x) ^ ToBits(y) == mask }

  /** The one change across the end of the body that the checksum misses: the last two body
      bytes and the first two checksum bytes change by one fixed pattern. */
  ghost predicate BlindPair(f: seq<u8>, g: seq<u8>) {
    && |f| == |g| >= 6
    && WithinWindow(f, g, |f| - 6, 4)
    && Flips(f[|f| - 6], g[|f| - 6], 0x61)
    && Flips(f[|f| - 5], g[|f| - 5], 0xD8)
    && Flips(f[|f| - 4], g[|f| - 4], 0xF4)
    && Flips(f[|f| - 3], g[|f| - 3], 0xEE)
  }

  function Flip(x: u8, mask: bv8): u8 { FromBits(ToBits(x) ^ mask) }

  lemma FlipBits(x: u8, mask: bv8)
    ensures ToBits(Flip(x, mask)) == ToBits(x) ^ mask
  {
    hide ToBits, FromBits;
    BitsBack(ToBits(x) ^ mask);
  }

  lemma FlipFlips(x: u8, mask: bv8)
    ensures Flips(x, Flip(x, mask), mask)
  {
    hide ToBits, Flip;
    FlipBits(x, mask);
    XorBack(ToBits(x), ToBits(Flip(x, mask)), mask);
  }

  lemma XorBack(x: bv8, y: bv8, mask: bv8)
    requires y == x ^ mask
    ensures x ^ y == mask
  {}

  /** The byte string that differs from `f` by the blind pattern. */
  function BlindTwin(f: seq<u8>): seq<u8>
    requires |f| >= 6
  {
    var n := |f|;
    f[n - 6 := Flip(f[n - 6], 0x61)][n - 5 := Flip(f[n - 5], 0xD8)][n - 4 := Flip(f[n - 4], 0xF4)]
    [n - 3 := Flip(f[n - 3], 0xEE)]
  }

  lemma BlindTwinIsPair(f: seq<u8>)
    requires |f| >= 6
    ensures BlindPair(f, BlindTwin(f))
  {
    hide Flip, Flips;
    FlipFlips(f[|f| - 6], 0x61);
    FlipFlips(f[|f| - 5], 0xD8);
    FlipFlips(f[|f| - 4], 0xF4);
    FlipFlips(f[|f| - 3], 0xEE);
  }

  lemma FlipsUnique(x: u8, y: u8, z: u8, mask: bv8)
    requires Flips(x, y, mask) && Flips(x, z, mask)
    ensures y == z
  {
    XorDetermines(ToBits(x), ToBits(y), ToBits(z), mask);
    ByteBack(y);
    ByteBack(z);
  }

  lemma XorDetermines(x: bv8, y: bv8, z: bv8, mask: bv8)
    requires x ^ y == mask && x ^ z == mask
    ensures y == z
  {}

  lemma XorDiffers(x: bv8, y: bv8, mask: bv8)
    requires x ^ y == mask && mask != 0
    ensures x != y
  {}

  lemma FlipsDiffer(x: u8, y: u8, mask: bv8)
    requires Flips(x, y, mask) && mask != 0
    ensures x != y
  {
    XorDiffers(ToBits(x), ToBits(y), mask);
  }

  lemma BlindPairDiffers(f: seq<u8>, g: seq<u8>)
    requires BlindPair(f, g)
    ensures f[|f| - 6] != g[|f| - 6] && f[|f| - 4] != g[|f| - 4]
  {
    FlipsDiffer(f[|f| - 6], g[|f| - 6], 0x61);
    FlipsDiffer(f[|f| - 4], g[|f| - 4], 0xF4);
  }

  /** A change of at most four consecutive body bytes changes the checksum. */
  lemma BurstChangesSeal(p: seq<u8>, v: seq<u8>, w: seq<u8>, q: seq<u8>)
    requires |v| == |w| <= 4 && v != w
    ensures Seal(p + v + q) != Seal(p + w + q)
  {
    if Narrow(v) == Narrow(w) { NarrowInjective(v, w); }
    NarrowConcat(p + v, q);
    NarrowConcat(p, v);
    NarrowConcat(p + w, q);
    NarrowConcat(p, w);
    BurstChangesChecksum(Narrow(p), Narrow(v), Narrow(w), Narrow(q));
    if Seal(p + v + q) == Seal(p + w + q) {
      SumBytesInjective(Checksum(Narrow(p + v + q)), Checksum(Narrow(p + w + q)));
    }
  }

  lemma StraddleSum(p: seq<bv8>, v: seq<bv8>, w: seq<bv8>, c: bv32, d: bv32)
    requires 1 <= |v| == |w| <= 3 && v != w
    requires c == Checksum(p + v) && d == Checksum(p + w)
    requires forall i :: 4 - |v| <= i < 4 ==> SumBytes(c)[i] == SumBytes(d)[i]
    ensures |v| == 2 && v[0] ^ w[0] == 0x61 && v[1] ^ w[1] == 0xD8
  {
    TailsAgree(c, d, |v|);
    StraddleShows(p, v, w);
  }

  /** A change of the last `k` body bytes that leaves the last `k` checksum bytes alone is
      the blind pattern. */
  lemma StraddleSeal(p: seq<u8>, v: seq<u8>, w: seq<u8>)
    requires 1 <= |v| == |w| <= 3 && v != w
    requires forall i :: 4 - |v| <= i < 4 ==> Seal(p + v)[i] == Seal(p + w)[i]
    ensures |v| == 2 && Flips(v[0], w[0], 0x61) && Flips(v[1], w[1], 0xD8)
  {
    NarrowConcat(p, v);
    NarrowConcat(p, w);
    if Narrow(v) == Narrow(w) { NarrowInjective(v, w); }
    var c, d := Checksum(Narrow(p + v)), Checksum(Narrow(p + w));
    assert Seal(p + v) == SumBytes(c) && Seal(p + w) == SumBytes(d);
    StraddleSum(Narrow(p), Narrow(v), Narrow(w), c, d);
  }

  lemma SumOfBlind(c: bv32, d: bv32)
    requires c ^ d == 0xF4EE_0000
    ensures Flips(SumBytes(c)[0], SumBytes(d)[0], 0xF4) && Flips(SumBytes(c)[1], SumBytes(d)[1], 0xEE)
    ensures SumBytes(c)[2] == SumBytes(d)[2] && SumBytes(c)[3] == SumBytes(d)[3]
  {
    BlindBytes(c, d);
    SumBytesBack(c);
    SumBytesBack(d);
  }

  /** The blind pattern in the body moves the checksum by the blind pattern. */
  lemma BlindSeal(p: seq<u8>, v: seq<u8>, w: seq<u8>)
    requires |v| == |w| == 2 && Flips(v[0], w[0], 0x61) && Flips(v[1], w[1], 0xD8)
    ensures Flips(Seal(p + v)[0], Seal(p + w)[0], 0xF4) && Flips(Seal(p + v)[1], Seal(p + w)[1], 0xEE)
    ensures Seal(p + v)[2] == Seal(p + w)[2] && Seal(p + v)[3] == Seal(p + w)[3]
  {
    NarrowConcat(p, v);
    NarrowConcat(p, w);
    BlindDifference(Narrow(p), Narrow(v), Narrow(w));
    SumOfBlind(Checksum(Narrow(p + v)), Checksum(Narrow(p + w)));
  }

  lemma WindowInBody(f: seq<u8>, g: seq<u8>, from: nat, len: nat)
    requires Sealed(f) && WithinWindow(f, g, from, len) && len <= 4 && from + len <= |f| - 4 && f != g
    ensures !Sealed(g)
  {
    hide Seal;
    var n, end := |f| - 4, from + len;
    var p, q := f[..from], f[end..n];
    var v, w := f[from..end], g[from..end];
    assert f[..n] == p + v + q;
    assert g[..n] == p + w + q;
    assert f[n..] == g[n..];
    if v == w {
      forall i | 0 <= i < |f| ensures f[i] == g[i] {
        if from <= i < end { assert f[i] == v[i - from] && g[i] == w[i - from]; }
      }
    }
    BurstChangesSeal(p, v, w, q);
  }

  /** The last bytes of a sealed string are its checksum, byte by byte. */
  lemma SealedBytes(f: seq<u8>, body: seq<u8>, n: nat)
    requires Sealed(f) && n == |f| - 4 && body == f[..n]
    ensures forall i :: 0 <= i < 4 ==> f[n + i] == Seal(body)[i]
  {
    forall i | 0 <= i < 4 ensures f[n + i] == Seal(body)[i] {
      assert f[n..][i] == f[n + i];
    }
  }

  lemma StraddlePattern(f: seq<u8>, g: seq<u8>, from: nat, n: nat)
    requires Sealed(f) && Sealed(g) && |f| == |g| == n + 4 && from < n <= from + 3
    requires f[..from] == g[..from] && f[from..n] != g[from..n]
    requires forall i :: from + 4 <= i < n + 4 ==> f[i] == g[i]
    ensures from == n - 2 && Flips(f[from], g[from], 0x61) && Flips(f[from + 1], g[from + 1], 0xD8)
    ensures Flips(f[n], g[n], 0xF4) && Flips(f[n + 1], g[n + 1], 0xEE)
  {
    var p, v, w := f[..from], f[from..n], g[from..n];
    assert f[..n] == p + v && g[..n] == p + w;
    SealedBytes(f, p + v, n);
    SealedBytes(g, p + w, n);
    StraddleSeal(p, v, w);
    BlindSeal(p, v, w);
    assert f[n + 0] == Seal(p + v)[0] && g[n + 0] == Seal(p + w)[0];
    assert f[n + 1] == Seal(p + v)[1] && g[n + 1] == Seal(p + w)[1];
  }

  lemma WindowAcross(f: seq<u8>, g: seq<u8>, from: nat, len: nat)
    requires Sealed(f) && Sealed(g) && WithinWindow(f, g, from, len) && len <= 4
    requires from < |f| - 4 < from + len && f[..|f| - 4] != g[..|f| - 4]
    ensures BlindPair(f, g)
  {
    var n := |f| - 4;
    assert f[..n] == f[..from] + f[from..n] && g[..n] == g[..from] + g[from..n];
    assert f[..from] == g[..from];
    StraddlePattern(f, g, from, n);
  }

  lemma BlindPairSealed(f: seq<u8>, g: seq<u8>)
    requires Sealed(f) && BlindPair(f, g)
    ensures Sealed(g)
  {
    var n := |f| - 4;
    var p, v, w := f[..n - 2], f[n - 2..n], g[n - 2..n];
    assert f[..n] == p + v;
    assert g[..n] == p + w;
    BlindSeal(p, v, w);
    assert f[n] == f[n..][0] && f[n + 1] == f[n..][1] && f[n + 2] == f[n..][2] && f[n + 3] == f[n..][3];
    FlipsUnique(f[n], g[n], Seal(p + w)[0], 0xF4);
    FlipsUnique(f[n + 1], g[n + 1], Seal(p + w)[1], 0xEE);
    assert g[n..] == Seal(p + w);
  }

  /** Exactly what a change confined to four consecutive bytes can do to a sealed string: it
      stays sealed if and only if nothing changed or the change is the blind pattern. */
  lemma WindowDetected(f: seq<u8>, g: seq<u8>, from: nat, len: nat)
    requires Sealed(f) && WithinWindow(f, g, from, len) && len <= 4
    ensures Sealed(g) <==> f == g || BlindPair(f, g)
  {
    var n := |f| - 4;
    if BlindPair(f, g) {
      BlindPairSealed(f, g);
    } else if f != g {
      if f[..n] == g[..n] {
        assert f == f[..n] + f[n..] && g == g[..n] + g[n..];
      } else if from + len <= n {
        WindowInBody(f, g, from, len);
      } else {
        if Sealed(g) { WindowAcross(f, g, from, len); }
      }
    }
  }

  /** Inside the body, or inside the checksum field, the blind pattern cannot fit. */
  lemma OneSidedWindowDetected(f: seq<u8>, g: seq<u8>, from: nat, len: nat)
    requires Sealed(f) && WithinWindow(f, g, from, len) && len <= 4
    requires from + len <= |f| - 4 || |f| - 4 <= from
    ensures Sealed(g) <==> f == g
  {
    WindowDetected(f, g, from, len);
    if BlindPair(f, g) {
      BlindPairDiffers(f, g);
    }
  }
}
