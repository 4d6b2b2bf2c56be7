/** The peer-message frame: magic, version, payload, checksum
    (crates/rafter-codec/src/frame.rs).

    The version 1 payload grammar is a parameter: an encoder that turns a message into a list
    of typed fields, and a decoder that consumes some prefix of a byte string. */
module Frame {
  import opened Prelude
  import opened Wire
  import opened WireIo
  import opened FrameSeal
  import Crc32

  const MAGIC: seq<u8> := [0x52, 0x46, 0x50, 0x4D]
  const VERSION: u8 := 1

  datatype Grammar<!M> = Grammar(
    fields: M -> Result<seq<Field>, EncodeError>,
    parse: seq<u8> -> Result<Parsed<M>, DecodeError>)

  ghost predicate IsSuffix(rest: seq<u8>, s: seq<u8>) {
    |rest| <= |s| && rest == s[|s| - |rest|..]
  }

  /** A reader only moves forward: what a payload decoder leaves is a suffix of its input. */
  ghost predicate MovesForward<M>(g: Grammar<M>) {
    forall s :: g.parse(s).Ok? ==> IsSuffix(g.parse(s).value.rest, s)
  }

  function EncodePayload<M>(g: Grammar<M>, m: M): Result<seq<u8>, EncodeError> {
    var fields :- g.fields(m);
    EncodeFields(fields)
  }

  /** Decoding a payload followed by anything gives it back, and leaves that untouched. */
  ghost predicate ReadsBack<M(!new)>(g: Grammar<M>) {
    forall m, after :: EncodePayload(g, m).Ok? ==>
      g.parse(EncodePayload(g, m).value + after) == Ok(Parsed(m, after))
  }

  /** Every accepted payload is the encoding of what it decodes to. */
  ghost predicate Canonical<M>(g: Grammar<M>) {
    forall s :: g.parse(s).Ok? ==>
      && EncodePayload(g, g.parse(s).value.item).Ok?
      && EncodePayload(g, g.parse(s).value.item).value + g.parse(s).value.rest == s
  }

  function EncodeFrame<M>(g: Grammar<M>, m: M): Result<seq<u8>, EncodeError> {
    var payload :- EncodePayload(g, m);
    var body := MAGIC + [VERSION] + payload;
    Ok(body + Seal(body))
  }

  /** Magic and version: what follows them, or which of them was wrong. */
  function ReadHeader(f: seq<u8>): (r: Result<seq<u8>, DecodeError>)
    ensures r.Ok? ==> |f| >= 5 && f[..5] == MAGIC + [VERSION] && r.value == f[5..]
  {
    var magic :- Take(f, 4);
    if magic.item != MAGIC then Err(InvalidMagic(magic.item)) else
    var version :- ReadField(KByte, magic.rest, _ => true);
    FirstByte(magic.rest);
    if version.item.value != VERSION then Err(UnsupportedVersion(version.item.value)) else
    Ok(version.rest)
  }

  lemma FirstByte(s: seq<u8>)
    requires |s| >= 1
    ensures FromBigEndian(s, 1) == s[0]
  {
    assert FromBigEndian(s, 0) == 0;
  }

  /** The checksum of `body`, then the end of the frame. */
  function ReadSeal(body: seq<u8>, rest: seq<u8>): Result<(), DecodeError> {
    var expected :- ReadInteger(4, rest);
    var actual := FromBigEndian(Seal(body), 4);
    if expected.item != actual then Err(FrameChecksumMismatch(expected.item, actual)) else
    if expected.rest != [] then Err(TrailingBytes(|expected.rest|)) else
    Ok(())
  }

  /** Payload, checksum and end of a frame, of which `rest` is still unread. */
  function DecodeRest<M>(g: Grammar<M>, f: seq<u8>, rest: seq<u8>): Result<M, DecodeError>
    requires MovesForward(g) && |rest| <= |f|
  {
    var message :- g.parse(rest);
    var _ :- ReadSeal(f[..|f| - |message.rest|], message.rest);
    Ok(message.item)
  }

  function DecodeFrame<M>(g: Grammar<M>, f: seq<u8>): Result<M, DecodeError>
    requires MovesForward(g)
  {
    var payload :- ReadHeader(f);
    DecodeRest(g, f, payload)
  }

  // ---------------------------------------------------------------------------
  // The two operations

  /** A caller-owned vector: its contents, and the capacity last reserved for it. */
  class Buffer {
    var bytes: seq<u8>
    var reserved: nat

    constructor ()
      ensures bytes == [] && reserved == 0
    {
      bytes, reserved := [], 0;
    }
  }

  /** Writes magic, version and payload into any sink. */
  method EncodeBody<M>(g: Grammar<M>, writer: Writer, m: M) returns (r: Result<(), EncodeError>)
    modifies writer
    ensures r.Ok? <==> EncodePayload(g, m).Ok?
    ensures r.Err? ==> r.error == EncodePayload(g, m).error
    ensures r.Ok? ==> writer.sink == old(writer.sink).Write(MAGIC + [VERSION] + EncodePayload(g, m).value)
  {
    ghost var start := writer.sink;
    writer.Bytes(MAGIC);
    writer.Bytes([VERSION]);
    WriteTwice(start, MAGIC, [VERSION]);
    if g.fields(m).Err? { return Err(g.fields(m).error); }
    r := writer.Fields(g.fields(m).value);
    if r.Ok? {
      EmittedIsEncoding(g.fields(m).value);
      WriteTwice(start, MAGIC + [VERSION], EncodePayload(g, m).value);
    }
  }

  /** On success the buffer holds exactly the frame, and the counting pass reserved exactly
      its length; on error the buffer is empty. */
  method EncodeMessageInto<M>(g: Grammar<M>, output: Buffer, m: M) returns (r: Result<(), EncodeError>)
    modifies output
    ensures r.Ok? <==> EncodeFrame(g, m).Ok?
    ensures r.Ok? ==> output.bytes == EncodeFrame(g, m).value
    ensures r.Ok? && |output.bytes| <= USIZE_MAX ==> output.reserved == |output.bytes|
    ensures r.Err? ==> r.error == EncodeFrame(g, m).error && output.bytes == []
  {
    output.bytes := [];
    var counter := new Writer(Counting(0));
    r := EncodeBody(g, counter, m);
    if r.Err? { return; }
    output.reserved := counter.sink.Position() + 4;
    var writer := new Writer(Stored([]));
    r := EncodeBody(g, writer, m);
    if r.Err? { return; }
    ghost var body := MAGIC + [VERSION] + EncodePayload(g, m).value;
    assert [] + body == body;
    output.bytes := writer.sink.bytes;
    var tables := Crc32.BuildTables();
    var checksum := Crc32.ComputeCrc32(tables, Narrow(output.bytes));
    output.bytes := output.bytes + SumBytes(checksum);
  }

  method DecodeHeader(reader: Reader) returns (r: Result<(), DecodeError>)
    requires reader.position == 0
    modifies reader
    ensures reader.Valid()
    ensures
      match ReadHeader(reader.payload)
      case Ok(rest) => r == Ok(()) && reader.Rest() == rest
      case Err(e) => r == Err(e)
  {
    assert reader.payload[0..] == reader.payload;
    var magic := reader.TakeBytes(4);
    if magic.Err? { return Err(magic.error); }
    if magic.value != MAGIC { return Err(InvalidMagic(magic.value)); }
    var version := reader.Field(KByte);
    if version.Err? { return Err(version.error); }
    if version.value.value != VERSION { return Err(UnsupportedVersion(version.value.value)); }
    return Ok(());
  }

  method DecodeSeal(reader: Reader) returns (r: Result<(), DecodeError>)
    requires reader.Valid()
    modifies reader
    ensures r == ReadSeal(reader.payload[..old(reader.position)], old(reader.Rest()))
  {
    var start := reader.position;
    var expected := reader.Integer(4);
    if expected.Err? { return Err(expected.error); }
    var tables := Crc32.BuildTables();
    var checksum := Crc32.ComputeCrc32(tables, Narrow(reader.payload[..start]));
    var actual := FromBigEndian(SumBytes(checksum), 4);
    if expected.value != actual { return Err(FrameChecksumMismatch(expected.value, actual)); }
    r := reader.Finish();
  }

  method DecodePayload<M>(g: Grammar<M>, reader: Reader) returns (r: Result<M, DecodeError>)
    requires MovesForward(g) && reader.Valid()
    modifies reader
    ensures reader.Valid()
    ensures
      match g.parse(old(reader.Rest()))
      case Ok(p) => r == Ok(p.item) && reader.Rest() == p.rest && reader.position == |reader.payload| - |p.rest|
      case Err(e) => r == Err(e)
  {
    var message := g.parse(reader.payload[reader.position..]);
    if message.Err? { return Err(message.error); }
    reader.position := |reader.payload| - |message.value.rest|;
    return Ok(message.value.item);
  }

  method DecodeAfterHeader<M>(g: Grammar<M>, reader: Reader) returns (r: Result<M, DecodeError>)
    requires MovesForward(g) && reader.Valid()
    modifies reader
    ensures r == DecodeRest(g, reader.payload, old(reader.Rest()))
  {
    r := DecodePayload(g, reader);
    if r.Ok? {
      var sealed := DecodeSeal(reader);
      if sealed.Err? { return Err(sealed.error); }
    }
  }

  method DecodeMessage<M>(g: Grammar<M>, f: seq<u8>) returns (r: Result<M, DecodeError>)
    requires MovesForward(g)
    ensures r == DecodeFrame(g, f)
  {
    var reader := new Reader(f, _ => true);
    var header := DecodeHeader(reader);
    if header.Err? { return Err(header.error); }
    r := DecodeAfterHeader(g, reader);
  }

  // ---------------------------------------------------------------------------
  // Round trips

  lemma HeaderReadsBack(rest: seq<u8>)
    ensures ReadHeader(MAGIC + [VERSION] + rest) == Ok(rest)
  {
    var f := MAGIC + [VERSION] + rest;
    assert f[..4] == MAGIC && f[4..] == [VERSION] + rest && f[4..][1..] == rest;
    FirstByte(f[4..]);
    Widths();
  }

  lemma SealReadsBack(body: seq<u8>)
    ensures ReadSeal(body, Seal(body)) == Ok(())
  {}

  lemma SealRead(body: seq<u8>, rest: seq<u8>)
    requires ReadSeal(body, rest).Ok?
    ensures rest == Seal(body)
  {
    BigEndianRestores(rest, 4);
    BigEndianRestores(Seal(body), 4);
    assert rest[..4] == rest && Seal(body)[..4] == Seal(body);
  }

  /** A frame decodes to the message it was made from. */
  lemma DecodeOfEncode<M(!new)>(g: Grammar<M>, m: M)
    requires MovesForward(g) && ReadsBack(g) && EncodeFrame(g, m).Ok?
    ensures DecodeFrame(g, EncodeFrame(g, m).value) == Ok(m)
  {
    var payload := EncodePayload(g, m).value;
    var body := MAGIC + [VERSION] + payload;
    var f := body + Seal(body);
    HeaderReadsBack(payload + Seal(body));
    assert f == MAGIC + [VERSION] + (payload + Seal(body));
    assert f[..|f| - 4] == body;
    SealReadsBack(body);
  }

  /** The answer to every byte string, check by check in the decoder's order: the magic RFPM,
      version 1, the payload, the checksum of everything before it, the end. */
  lemma DecodeExactly<M>(g: Grammar<M>, f: seq<u8>)
    requires MovesForward(g)
    ensures
      DecodeFrame(g, f) ==
      if |f| < 4 then Err(UnexpectedEof(4, |f|))
      else if f[..4] != [0x52, 0x46, 0x50, 0x4D] then Err(InvalidMagic(f[..4]))
      else if |f| == 4 then Err(UnexpectedEof(1, 0))
      else if f[4] != 1 then Err(UnsupportedVersion(f[4]))
      else
        match g.parse(f[5..])
        case Err(e) => Err(e)
        case Ok(message) =>
          var n := |message.rest|;
          if n < 4 then Err(UnexpectedEof(4, n))
          else
            var found, sum := message.rest[..4], SumBytes(Crc32.Checksum(Narrow(f[..|f| - n])));
            if found != sum then Err(FrameChecksumMismatch(FromBigEndian(found, 4), FromBigEndian(sum, 4)))
            else if n > 4 then Err(TrailingBytes(n - 4))
            else Ok(message.item)
  {
    hide Crc32.Checksum, ReadHeader, ReadSeal, SumBytes, Narrow, FromBigEndian;
    HeaderExactly(f);
    if ReadHeader(f).Ok? && g.parse(f[5..]).Ok? {
      var rest := g.parse(f[5..]).value.rest;
      SealExactly(f[..|f| - |rest|], rest);
    }
  }

  lemma HeaderExactly(f: seq<u8>)
    ensures
      ReadHeader(f) ==
      if |f| < 4 then Err(UnexpectedEof(4, |f|))
      else if f[..4] != [0x52, 0x46, 0x50, 0x4D] then Err(InvalidMagic(f[..4]))
      else if |f| == 4 then Err(UnexpectedEof(1, 0))
      else if f[4] != 1 then Err(UnsupportedVersion(f[4]))
      else Ok(f[5..])
  {
    Widths();
    if |f| > 4 {
      FirstByte(f[4..]);
      assert f[4..][1..] == f[5..];
    }
  }

  lemma SealExactly(body: seq<u8>, rest: seq<u8>)
    ensures
      ReadSeal(body, rest) ==
      if |rest| < 4 then Err(UnexpectedEof(4, |rest|))
      else if rest[..4] != Seal(body) then
        Err(FrameChecksumMismatch(FromBigEndian(rest[..4], 4), FromBigEndian(Seal(body), 4)))
      else if |rest| > 4 then Err(TrailingBytes(|rest| - 4))
      else Ok(())
  {
    hide Seal;
    if |rest| >= 4 {
      BigEndianRestores(rest, 4);
      BigEndianRestores(Seal(body), 4);
      FromBigEndianPrefix(rest, rest[..4], 4);
      assert Seal(body)[..4] == Seal(body);
    }
  }

  /** What an accepted frame looks like: the payload ends four bytes before the end, and
      those four bytes are the checksum of everything before them. */
  lemma AcceptedShape<M>(g: Grammar<M>, f: seq<u8>)
    requires MovesForward(g)
    ensures DecodeFrame(g, f).Ok? <==>
      && |f| >= 9 && f[..5] == MAGIC + [VERSION] && Sealed(f)
      && g.parse(f[5..]).Ok? && g.parse(f[5..]).value.rest == f[|f| - 4..]
    ensures DecodeFrame(g, f).Ok? ==> g.parse(f[5..]).value.item == DecodeFrame(g, f).value
  {
    hide ReadSeal, ReadHeader, Seal, Sealed;
    if |f| >= 5 && f[..5] == MAGIC + [VERSION] {
      assert f == MAGIC + [VERSION] + f[5..];
      HeaderReadsBack(f[5..]);
      if g.parse(f[5..]).Ok? {
        ShapeSealed(f, g.parse(f[5..]).value.rest);
      }
    }
  }

  lemma ShapeSealed(f: seq<u8>, rest: seq<u8>)
    requires |f| >= 5 && IsSuffix(rest, f[5..])
    ensures ReadSeal(f[..|f| - |rest|], rest).Ok? <==> |f| >= 9 && rest == f[|f| - 4..] && Sealed(f)
  {
    hide ReadSeal, Crc32.Checksum, Narrow;
    if ReadSeal(f[..|f| - |rest|], rest).Ok? {
      SealRead(f[..|f| - |rest|], rest);
    }
    if |f| >= 9 && rest == f[|f| - 4..] && Sealed(f) {
      SealReadsBack(f[..|f| - 4]);
    }
  }

  /** Every accepted frame is exactly the encoding of the message it decodes to. */
  lemma EncodeOfDecode<M>(g: Grammar<M>, f: seq<u8>)
    requires MovesForward(g) && Canonical(g) && DecodeFrame(g, f).Ok?
    ensures EncodeFrame(g, DecodeFrame(g, f).value) == Ok(f)
  {
    AcceptedShape(g, f);
    var m, rest := DecodeFrame(g, f).value, f[|f| - 4..];
    var payload := EncodePayload(g, m).value;
    assert f == f[..5] + f[5..];
    assert f == MAGIC + [VERSION] + payload + rest;
    assert f[..|f| - 4] == MAGIC + [VERSION] + payload;
  }

  // ---------------------------------------------------------------------------
  // Corruption

  /** Changing at most four consecutive bytes of an accepted frame, all before the checksum
      field or all inside it, makes every grammar reject it. */
  lemma CorruptionRejected<M>(g: Grammar<M>, f: seq<u8>, corrupted: seq<u8>, from: nat, len: nat)
    requires MovesForward(g) && DecodeFrame(g, f).Ok?
    requires WithinWindow(f, corrupted, from, len) && len <= 4 && f != corrupted
    requires from + len <= |f| - 4 || |f| - 4 <= from
    ensures DecodeFrame(g, corrupted).Err?
  {
    AcceptedShape(g, f);
    OneSidedWindowDetected(f, corrupted, from, len);
    if DecodeFrame(g, corrupted).Ok? {
      AcceptedShape(g, corrupted);
    }
  }

  /** With the window anywhere, one change per frame can pass. */
  lemma AnyWindowRejected<M>(g: Grammar<M>, f: seq<u8>, corrupted: seq<u8>, from: nat, len: nat)
    requires MovesForward(g) && DecodeFrame(g, f).Ok?
    requires WithinWindow(f, corrupted, from, len) && len <= 4 && f != corrupted
    ensures DecodeFrame(g, corrupted).Ok? ==> BlindPair(f, corrupted)
  {
    AcceptedShape(g, f);
    WindowDetected(f, corrupted, from, len);
    if DecodeFrame(g, corrupted).Ok? {
      AcceptedShape(g, corrupted);
    }
  }

  /** A grammar whose payload is any byte string. */
  const RAW: Grammar<seq<u8>> := Grammar(
    bytes => Ok([Blob(bytes)]),
    s => if |s| < 4 then Err(UnexpectedEof(4, |s|)) else Ok(Parsed(s[..|s| - 4], s[|s| - 4..])))

  lemma RawMovesForward()
    ensures MovesForward(RAW)
  {}

  lemma RawAccepts(g: seq<u8>)
    requires |g| >= 9 && g[..5] == MAGIC + [VERSION] && Sealed(g)
    ensures DecodeFrame(RAW, g).Ok?
  {
    hide ReadHeader, ReadSeal, Seal;
    var rest, body := g[5..], g[..|g| - 4];
    assert g == MAGIC + [VERSION] + rest;
    HeaderReadsBack(rest);
    assert rest[|rest| - 4..] == g[|g| - 4..];
    SealReadsBack(body);
  }

  /** The exception is real: under a grammar that takes any payload, every frame with a
      payload of two or more bytes has a different frame, four bytes away, that is accepted. */
  lemma BlindPairAccepted(f: seq<u8>) returns (g: seq<u8>)
    requires DecodeFrame(RAW, f).Ok? && |f| >= 11
    ensures g != f && BlindPair(f, g) && DecodeFrame(RAW, g).Ok?
  {
    hide DecodeFrame, Sealed, BlindTwin;
    RawMovesForward();
    AcceptedShape(RAW, f);
    g := BlindTwin(f);
    BlindTwinIsPair(f);
    BlindPairDiffers(f, g);
    BlindPairSealed(f, g);
    assert g[..5] == f[..5];
    RawAccepts(g);
  }
}
