/** Big-endian wire primitives (crates/rafter-codec/src/wire.rs).

    A writer appends typed fields to a sink that either stores bytes or only counts them; a
    reader takes them back with bounds checks.  Both are specified by functions on byte
    strings, and the functions are proved to be inverse to each other. */
module Wire {

  import opened Prelude

  type usize = x: nat | x <= USIZE_MAX
  type u8 = x: nat | x < 0x100
  type u16 = x: nat | x < 0x1_0000
  type u32 = x: nat | x < 0x1_0000_0000
  type u64 = x: nat | x < 0x1_0000_0000_0000_0000

  datatype EncodeError = FieldTooLarge(len: nat, max: nat) | UnsupportedMessage

  datatype DecodeError =
    | UnexpectedEof(needed: nat, remaining: nat)
    | InvalidBoolean(value: u8)
    | InvalidUtf8
    | InvalidMagic(magic: seq<u8>)
    | UnsupportedVersion(version: u8)
    | InvalidPayload
    | FrameChecksumMismatch(expected: nat, actual: nat)
    | TrailingBytes(remaining: nat)

  // ---------------------------------------------------------------------------
  // Big-endian integers

  function Bound(width: nat): (b: nat)
    ensures b > 0
  {
    if width == 0 then 1 else 256 * Bound(width - 1)
  }

  function BigEndian(width: nat, v: nat): (bytes: seq<u8>)
    ensures |bytes| == width
  {
    if width == 0 then [] else BigEndian(width - 1, v / 256) + [v % 256]
  }

  /** The value of the first `n` bytes. */
  function FromBigEndian(bytes: seq<u8>, n: nat): (v: nat)
    requires n <= |bytes|
    ensures v < Bound(n)
  {
    if n == 0 then 0 else FromBigEndian(bytes, n - 1) * 256 + bytes[n - 1]
  }

  lemma {:induction false} FromBigEndianPrefix(a: seq<u8>, b: seq<u8>, n: nat)
    requires n <= |a| && n <= |b| && forall i :: 0 <= i < n ==> a[i] == b[i]
    ensures FromBigEndian(a, n) == FromBigEndian(b, n)
  {
    if n > 0 {
      FromBigEndianPrefix(a, b, n - 1);
    }
  }

  lemma {:induction false} BigEndianReads(width: nat, v: nat)
    requires v < Bound(width)
    ensures FromBigEndian(BigEndian(width, v), width) == v
  {
    if width > 0 {
      BigEndianReads(width - 1, v / 256);
      FromBigEndianPrefix(BigEndian(width, v), BigEndian(width - 1, v / 256), width - 1);
    }
  }

  lemma LowDigit(high: nat, low: u8)
    ensures (high * 256 + low) / 256 == high && (high * 256 + low) % 256 == low
  {}

  lemma {:induction false} BigEndianRestores(bytes: seq<u8>, n: nat)
    requires n <= |bytes|
    ensures BigEndian(n, FromBigEndian(bytes, n)) == bytes[..n]
  {
    if n > 0 {
      BigEndianRestores(bytes, n - 1);
      LowDigit(FromBigEndian(bytes, n - 1), bytes[n - 1]);
      assert bytes[..n] == bytes[..n - 1] + [bytes[n - 1]];
    }
  }

  /** What is left of `v` above its `n` lowest bytes. */
  function Above(v: nat, n: nat): nat { if n == 0 then v else Above(v / 256, n - 1) }

  /** Byte `i` of `width` is the lowest of what is left above the bytes that follow it: the most
      significant comes first. */
  lemma {:induction false} BigEndianDigits(width: nat, v: nat, i: nat)
    requires i < width
    ensures BigEndian(width, v)[i] == Above(v, width - 1 - i) % 256
    decreases width
  {
    if i < width - 1 {
      BigEndianDigits(width - 1, v / 256, i);
    }
  }

  lemma Widths()
    ensures Bound(1) == 0x100
    ensures Bound(2) == 0x1_0000
    ensures Bound(4) == 0x1_0000_0000
    ensures Bound(8) == 0x1_0000_0000_0000_0000
  {
    assert Bound(1) == 256 * Bound(0);
    assert Bound(2) == 256 * Bound(1);
    assert Bound(3) == 256 * Bound(2);
    assert Bound(4) == 256 * Bound(3);
    assert Bound(5) == 256 * Bound(4);
    assert Bound(6) == 256 * Bound(5);
    assert Bound(7) == 256 * Bound(6);
    assert Bound(8) == 256 * Bound(7);
  }

  // ---------------------------------------------------------------------------
  // Typed fields and their encoding

  /** One value handed to a writer.  `Count16` and `Count32` are element counts, which, like
      string and blob lengths, are checked against the width of their prefix. */
  datatype Field =
    | Byte(value: u8)
    | Flag(flag: bool)
    | Short(short: u16)
    | Word(word: u32)
    | Long(long: u64)
    | Count16(count: nat)
    | Count32(count: nat)
    | Text(text: seq<u8>)
    | Blob(blob: seq<u8>)

  datatype Kind = KByte | KFlag | KShort | KWord | KLong | KCount16 | KCount32 | KText | KBlob

  function KindOf(f: Field): Kind {
    match f
    case Byte(_) => KByte
    case Flag(_) => KFlag
    case Short(_) => KShort
    case Word(_) => KWord
    case Long(_) => KLong
    case Count16(_) => KCount16
    case Count32(_) => KCount32
    case Text(_) => KText
    case Blob(_) => KBlob
  }

  function KindsOf(fields: seq<Field>): (kinds: seq<Kind>)
    ensures |kinds| == |fields|
    ensures forall i :: 0 <= i < |fields| ==> kinds[i] == KindOf(fields[i])
  {
    seq(|fields|, i requires 0 <= i < |fields| => KindOf(fields[i]))
  }

  /** A length prefix of `width` bytes. */
  function EncodeLength(width: nat, len: nat): Result<seq<u8>, EncodeError>
  {
    var max := Bound(width) - 1;
    if len <= max then Ok(BigEndian(width, len)) else Err(FieldTooLarge(len, max))
  }

  function EncodePrefixed(width: nat, bytes: seq<u8>): Result<seq<u8>, EncodeError>
  {
    match EncodeLength(width, |bytes|)
    case Ok(prefix) => Ok(prefix + bytes)
    case Err(e) => Err(e)
  }

  function EncodeField(f: Field): Result<seq<u8>, EncodeError> {
    match f
    case Byte(v) => Ok(BigEndian(1, v))
    case Flag(b) => Ok(BigEndian(1, if b then 1 else 0))
    case Short(v) => Ok(BigEndian(2, v))
    case Word(v) => Ok(BigEndian(4, v))
    case Long(v) => Ok(BigEndian(8, v))
    case Count16(n) => EncodeLength(2, n)
    case Count32(n) => EncodeLength(4, n)
    case Text(bytes) => EncodePrefixed(2, bytes)
    case Blob(bytes) => EncodePrefixed(4, bytes)
  }

  function EncodeFields(fields: seq<Field>): Result<seq<u8>, EncodeError> {
    if fields == [] then Ok([])
    else
      match EncodeField(fields[0])
      case Err(e) => Err(e)
      case Ok(first) =>
        match EncodeFields(fields[1..])
        case Err(e) => Err(e)
        case Ok(rest) => Ok(first + rest)
  }

  /** The layout of every field: its width, what a length prefix counts, and when it is too long
      for one. */
  lemma FieldLayout(f: Field)
    ensures
      match f
      case Byte(v) => EncodeField(f) == Ok([v])
      case Flag(b) => EncodeField(f) == Ok([if b then 1 else 0])
      case Short(v) => EncodeField(f) == Ok(BigEndian(2, v))
      case Word(v) => EncodeField(f) == Ok(BigEndian(4, v))
      case Long(v) => EncodeField(f) == Ok(BigEndian(8, v))
      case Count16(n) => EncodeField(f) == if n <= 0xFFFF then Ok(BigEndian(2, n)) else Err(FieldTooLarge(n, 0xFFFF))
      case Count32(n) =>
        EncodeField(f) == if n <= 0xFFFF_FFFF then Ok(BigEndian(4, n)) else Err(FieldTooLarge(n, 0xFFFF_FFFF))
      case Text(t) =>
        EncodeField(f) == if |t| <= 0xFFFF then Ok(BigEndian(2, |t|) + t) else Err(FieldTooLarge(|t|, 0xFFFF))
      case Blob(b) =>
        EncodeField(f) ==
        if |b| <= 0xFFFF_FFFF then Ok(BigEndian(4, |b|) + b) else Err(FieldTooLarge(|b|, 0xFFFF_FFFF))
  {
    Widths();
    assert forall v: u8 :: BigEndian(1, v) == BigEndian(0, v / 256) + [v % 256] == [v];
  }

  // ---------------------------------------------------------------------------
  // Decoding: what a read returns and what it leaves unread

  datatype Parsed<+T> = Parsed(item: T, rest: seq<u8>)

  /** The bounds check every read goes through. */
  function Take(s: seq<u8>, len: nat): (r: Result<Parsed<seq<u8>>, DecodeError>)
    ensures r.Ok? <==> len <= |s|
    ensures r.Ok? ==> r.value.item + r.value.rest == s && |r.value.item| == len
    ensures r.Err? ==> r.error == UnexpectedEof(len, |s|)
  {
    if |s| < len then Err(UnexpectedEof(len, |s|)) else Ok(Parsed(s[..len], s[len..]))
  }

  lemma ReadIntegerBytes(width: nat, s: seq<u8>)
    ensures width <= |s| ==> BigEndian(width, FromBigEndian(s, width)) + s[width..] == s
  {
    if width <= |s| {
      BigEndianRestores(s, width);
    }
  }

  /** The next `width` bytes, as a big-endian integer. */
  function ReadInteger(width: nat, s: seq<u8>): (r: Result<Parsed<nat>, DecodeError>)
    ensures r.Ok? <==> width <= |s|
    ensures r.Ok? ==> r.value.item < Bound(width) && BigEndian(width, r.value.item) + r.value.rest == s
    ensures r.Ok? ==> r.value.rest == s[width..]
    ensures r.Err? ==> r.error == UnexpectedEof(width, |s|)
  {
    ReadIntegerBytes(width, s);
    if |s| < width then Err(UnexpectedEof(width, |s|)) else Ok(Parsed(FromBigEndian(s, width), s[width..]))
  }

  function ReadPrefixed(width: nat, s: seq<u8>): (r: Result<Parsed<seq<u8>>, DecodeError>)
    ensures r.Ok? ==>
      && |r.value.item| < Bound(width) && BigEndian(width, |r.value.item|) + r.value.item + r.value.rest == s
      && s[width..] == r.value.item + r.value.rest
    ensures r.Err? ==>
      || (|s| < width && r.error == UnexpectedEof(width, |s|))
      || (width <= |s| && |s| - width < FromBigEndian(s, width)
          && r.error == UnexpectedEof(FromBigEndian(s, width), |s| - width))
  {
    var length :- ReadInteger(width, s);
    Take(length.rest, length.item)
  }

  function ReadField(kind: Kind, s: seq<u8>, utf8: seq<u8> -> bool): (r: Result<Parsed<Field>, DecodeError>)
    ensures r.Ok? ==> KindOf(r.value.item) == kind
  {
    Widths();
    match kind
    case KByte => var p :- ReadInteger(1, s); Ok(Parsed(Byte(p.item), p.rest))
    case KFlag =>
      var p :- ReadInteger(1, s);
      if p.item <= 1 then Ok(Parsed(Flag(p.item == 1), p.rest)) else Err(InvalidBoolean(p.item))
    case KShort => var p :- ReadInteger(2, s); Ok(Parsed(Short(p.item), p.rest))
    case KWord => var p :- ReadInteger(4, s); Ok(Parsed(Word(p.item), p.rest))
    case KLong => var p :- ReadInteger(8, s); Ok(Parsed(Long(p.item), p.rest))
    case KCount16 => var p :- ReadInteger(2, s); Ok(Parsed(Count16(p.item), p.rest))
    case KCount32 => var p :- ReadInteger(4, s); Ok(Parsed(Count32(p.item), p.rest))
    case KText =>
      var p :- ReadPrefixed(2, s);
      if utf8(p.item) then Ok(Parsed(Text(p.item), p.rest)) else Err(InvalidUtf8)
    case KBlob => var p :- ReadPrefixed(4, s); Ok(Parsed(Blob(p.item), p.rest))
  }

  /** Bytes of a field's integer, or of its length prefix. */
  function WidthOf(kind: Kind): nat {
    match kind
    case KByte => 1
    case KFlag => 1
    case KShort => 2
    case KCount16 => 2
    case KText => 2
    case KWord => 4
    case KCount32 => 4
    case KBlob => 4
    case KLong => 8
  }

  function ReadFields(kinds: seq<Kind>, s: seq<u8>, utf8: seq<u8> -> bool): (r: Result<Parsed<seq<Field>>, DecodeError>)
    decreases |kinds|
  {
    if kinds == [] then Ok(Parsed([], s))
    else
      var first :- ReadField(kinds[0], s, utf8);
      var others :- ReadFields(kinds[1..], first.rest, utf8);
      Ok(Parsed([first.item] + others.item, others.rest))
  }

  /** Why a read is refused, exactly: too few bytes for the integer or the prefix, too few for
      what the prefix announces, a flag above one, text that is not UTF-8. */
  lemma ReadRefusals(kind: Kind, s: seq<u8>, utf8: seq<u8> -> bool)
    ensures
      var w, r := WidthOf(kind), ReadField(kind, s, utf8);
      if |s| < w then r == Err(UnexpectedEof(w, |s|))
      else
        var n := FromBigEndian(s, w);
        match kind
        case KFlag => r == if n <= 1 then Ok(Parsed(Flag(n == 1), s[1..])) else Err(InvalidBoolean(n))
        case KText =>
          r == if |s| - w < n then Err(UnexpectedEof(n, |s| - w))
               else if utf8(s[w..][..n]) then Ok(Parsed(Text(s[w..][..n]), s[w..][n..])) else Err(InvalidUtf8)
        case KBlob =>
          r == if |s| - w < n then Err(UnexpectedEof(n, |s| - w)) else Ok(Parsed(Blob(s[w..][..n]), s[w..][n..]))
        case _ => r.Ok? && r.value.rest == s[w..]
  {
    hide FromBigEndian, ReadInteger, ReadPrefixed, BigEndian, Bound;
    Widths();
    IntegerExactly(WidthOf(kind), s);
    PrefixedExactly(WidthOf(kind), s);
  }

  lemma IntegerExactly(width: nat, s: seq<u8>)
    ensures ReadInteger(width, s) ==
      if |s| < width then Err(UnexpectedEof(width, |s|)) else Ok(Parsed(FromBigEndian(s, width), s[width..]))
  {
    hide FromBigEndian, BigEndian;
  }

  lemma PrefixedExactly(width: nat, s: seq<u8>)
    ensures ReadPrefixed(width, s) ==
      if |s| < width then Err(UnexpectedEof(width, |s|))
      else
        var n := FromBigEndian(s, width);
        if |s| - width < n then Err(UnexpectedEof(n, |s| - width)) else Ok(Parsed(s[width..][..n], s[width..][n..]))
  {
    hide FromBigEndian, BigEndian;
  }

  /** A list is refused for its first field that cannot be encoded. */
  lemma {:induction false} FirstUnencodable(fields: seq<Field>, i: nat)
    requires i < |fields| && EncodeField(fields[i]).Err? && forall j :: 0 <= j < i ==> EncodeField(fields[j]).Ok?
    ensures EncodeFields(fields) == Err(EncodeField(fields[i]).error)
    decreases i
  {
    hide EncodeField;
    if i > 0 {
      FirstUnencodable(fields[1..], i - 1);
    }
  }

  /** And for its first field that cannot be read. */
  lemma {:induction false} FirstUnreadable(kinds: seq<Kind>, s: seq<u8>, utf8: seq<u8> -> bool, i: nat)
    requires i < |kinds| && ReadFields(kinds[..i], s, utf8).Ok?
    requires ReadField(kinds[i], ReadFields(kinds[..i], s, utf8).value.rest, utf8).Err?
    ensures ReadFields(kinds, s, utf8) ==
      Err(ReadField(kinds[i], ReadFields(kinds[..i], s, utf8).value.rest, utf8).error)
    decreases i
  {
    hide ReadField;
    if i > 0 {
      assert kinds[..i][1..] == kinds[1..][..i - 1] && kinds[..i][0] == kinds[0];
      FirstUnreadable(kinds[1..], ReadField(kinds[0], s, utf8).value.rest, utf8, i - 1);
    }
  }

  // ---------------------------------------------------------------------------
  // Writing and then reading

  lemma ReadBackInteger(width: nat, v: nat, after: seq<u8>)
    requires v < Bound(width)
    ensures ReadInteger(width, BigEndian(width, v) + after) == Ok(Parsed(v, after))
  {
    var encoded := BigEndian(width, v);
    BigEndianReads(width, v);
    FromBigEndianPrefix(encoded + after, encoded, width);
    assert (encoded + after)[width..] == after;
  }

  lemma ReadBackPrefixed(width: nat, bytes: seq<u8>, after: seq<u8>)
    requires |bytes| < Bound(width)
    ensures ReadPrefixed(width, BigEndian(width, |bytes|) + bytes + after) == Ok(Parsed(bytes, after))
  {
    assert BigEndian(width, |bytes|) + bytes + after == BigEndian(width, |bytes|) + (bytes + after);
    ReadBackInteger(width, |bytes|, bytes + after);
    assert (bytes + after)[..|bytes|] == bytes && (bytes + after)[|bytes|..] == after;
  }

  /** Reading a written field gives it back and consumes exactly its bytes. */
  lemma ReadBackField(f: Field, encoded: seq<u8>, after: seq<u8>, utf8: seq<u8> -> bool)
    requires EncodeField(f) == Ok(encoded)
    requires f.Text? ==> utf8(f.text)
    ensures ReadField(KindOf(f), encoded + after, utf8) == Ok(Parsed(f, after))
  {
    hide BigEndian, FromBigEndian, ReadInteger, ReadPrefixed, Bound;
    Widths();
    match f
    case Byte(v) => ReadBackInteger(1, v, after);
    case Flag(b) => ReadBackInteger(1, if b then 1 else 0, after);
    case Short(v) => ReadBackInteger(2, v, after);
    case Word(v) => ReadBackInteger(4, v, after);
    case Long(v) => ReadBackInteger(8, v, after);
    case Count16(n) => ReadBackInteger(2, n, after);
    case Count32(n) => ReadBackInteger(4, n, after);
    case Text(bytes) => ReadBackPrefixed(2, bytes, after);
    case Blob(bytes) => ReadBackPrefixed(4, bytes, after);
  }

  ghost predicate TextsValid(fields: seq<Field>, utf8: seq<u8> -> bool) {
    forall i :: 0 <= i < |fields| ==> (fields[i].Text? ==> utf8(fields[i].text))
  }

  /** Writing any list of fields and reading it back is the identity. */
  lemma {:induction false} ReadBackFields(fields: seq<Field>, encoded: seq<u8>, after: seq<u8>, utf8: seq<u8> -> bool)
    requires EncodeFields(fields) == Ok(encoded) && TextsValid(fields, utf8)
    ensures ReadFields(KindsOf(fields), encoded + after, utf8) == Ok(Parsed(fields, after))
  {
    hide ReadField, EncodeField;
    if fields == [] {
      assert encoded + after == after;
    } else {
      var first, rest := EncodeField(fields[0]).value, EncodeFields(fields[1..]).value;
      assert encoded + after == first + (rest + after);
      ReadBackField(fields[0], first, rest + after, utf8);
      ReadBackFields(fields[1..], rest, after, utf8);
      assert KindsOf(fields)[1..] == KindsOf(fields[1..]);
      assert fields == [fields[0]] + fields[1..];
    }
  }

  // ---------------------------------------------------------------------------
  // Reading and then writing

  lemma WriteBackPrefixed(width: nat, s: seq<u8>)
    requires ReadPrefixed(width, s).Ok?
    ensures
      var p := ReadPrefixed(width, s).value;
      EncodePrefixed(width, p.item).Ok? && EncodePrefixed(width, p.item).value + p.rest == s
  {
    hide BigEndian, FromBigEndian, Bound, ReadPrefixed;
  }

  lemma WriteBackBytes(kind: Kind, s: seq<u8>, utf8: seq<u8> -> bool)
    requires ReadField(kind, s, utf8).Ok? && (kind == KText || kind == KBlob)
    ensures
      var p := ReadField(kind, s, utf8).value;
      EncodeField(p.item).Ok? && EncodeField(p.item).value + p.rest == s
  {
    hide EncodePrefixed, ReadPrefixed;
    WriteBackPrefixed(WidthOf(kind), s);
  }

  /** Every accepted field re-encodes to exactly the bytes it was read from. */
  lemma WriteBackField(kind: Kind, s: seq<u8>, utf8: seq<u8> -> bool)
    requires ReadField(kind, s, utf8).Ok?
    ensures
      var p := ReadField(kind, s, utf8).value;
      EncodeField(p.item).Ok? && EncodeField(p.item).value + p.rest == s
  {
    hide BigEndian, FromBigEndian, Bound;
    if kind == KText || kind == KBlob {
      WriteBackBytes(kind, s, utf8);
    } else {
      Widths();
      ReadIntegerBytes(WidthOf(kind), s);
    }
  }

  lemma OneMoreField(first: Field, rest: seq<Field>)
    requires EncodeField(first).Ok? && EncodeFields(rest).Ok?
    ensures EncodeFields([first] + rest) == Ok(EncodeField(first).value + EncodeFields(rest).value)
  {
    hide EncodeField;
    assert ([first] + rest)[1..] == rest;
  }

  lemma Regrouped(a: seq<u8>, b: seq<u8>, c: seq<u8>)
    ensures (a + b) + c == a + (b + c)
  {}

  /** The codec is canonical: an accepted byte string is the encoding of what it decodes to. */
  lemma {:induction false} WriteBackFields(kinds: seq<Kind>, s: seq<u8>, utf8: seq<u8> -> bool)
    requires ReadFields(kinds, s, utf8).Ok?
    ensures
      var p := ReadFields(kinds, s, utf8).value;
      EncodeFields(p.item).Ok? && EncodeFields(p.item).value + p.rest == s
    decreases |kinds|
  {
    hide ReadField, EncodeField;
    if kinds != [] {
      var first := ReadField(kinds[0], s, utf8).value;
      var rest := ReadFields(kinds[1..], first.rest, utf8).value;
      WriteBackField(kinds[0], s, utf8);
      WriteBackFields(kinds[1..], first.rest, utf8);
      OneMoreField(first.item, rest.item);
      Regrouped(EncodeField(first.item).value, EncodeFields(rest.item).value, rest.rest);
    }
  }
}
