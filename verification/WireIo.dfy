/** The writer and reader objects of crates/rafter-codec/src/wire.rs, proved against the
    functions of `Wire`. */
module WireIo {
  import opened Prelude
  import opened Wire

  /** Where a writer sends its bytes: a counter that saturates at the largest `usize`, or a
      growing vector. */
  datatype Sink = Counting(count: usize) | Stored(bytes: seq<u8>) {

    function Position(): nat {
      match this
      case Counting(n) => n
      case Stored(b) => |b|
    }

    function Write(more: seq<u8>): Sink {
      match this
      case Counting(n) => Counting(if n + |more| <= USIZE_MAX then n + |more| else USIZE_MAX)
      case Stored(b) => Stored(b + more)
    }
  }

  /** What reaches the sink: the encodings of the fields before the first refused one. */
  function Emitted(fields: seq<Field>): seq<u8> {
    if fields == [] || EncodeField(fields[0]).Err? then []
    else EncodeField(fields[0]).value + Emitted(fields[1..])
  }

  lemma {:induction false} EmittedIsEncoding(fields: seq<Field>)
    requires EncodeFields(fields).Ok?
    ensures Emitted(fields) == EncodeFields(fields).value
  {
    if fields != [] {
      EmittedIsEncoding(fields[1..]);
    }
  }

  /** A write reported what the specification says, and a refused one wrote nothing. */
  ghost predicate Writes(spec: Result<seq<u8>, EncodeError>, r: Result<(), EncodeError>, before: Sink, after: Sink) {
    match spec
    case Ok(bytes) => r == Ok(()) && after == before.Write(bytes)
    case Err(e) => r == Err(e) && after == before
  }

  /** Writing fields one after another until one is refused. */
  function WriteAll(sink: Sink, fields: seq<Field>): (Sink, Result<(), EncodeError>)
    decreases |fields|
  {
    if fields == [] then (sink, Ok(()))
    else
      match EncodeField(fields[0])
      case Ok(piece) => WriteAll(sink.Write(piece), fields[1..])
      case Err(e) => (sink, Err(e))
  }

  lemma {:induction false} WriteAllEmits(sink: Sink, fields: seq<Field>)
    ensures WriteAll(sink, fields).0 == sink.Write(Emitted(fields))
    ensures
      match EncodeFields(fields)
      case Ok(_) => WriteAll(sink, fields).1 == Ok(())
      case Err(e) => WriteAll(sink, fields).1 == Err(e)
    decreases |fields|
  {
    if fields == [] || EncodeField(fields[0]).Err? {
      WriteNothing(sink);
    } else {
      var piece := EncodeField(fields[0]).value;
      WriteAllEmits(sink.Write(piece), fields[1..]);
      WriteTwice(sink, piece, Emitted(fields[1..]));
    }
  }

  class Writer {
    var sink: Sink

    constructor (s: Sink)
      ensures sink == s
    {
      sink := s;
    }

    method Bytes(bytes: seq<u8>)
      modifies this
      ensures sink == old(sink).Write(bytes)
    {
      sink := sink.Write(bytes);
    }

    /** `length_u16` and `length_u32`. */
    method Length(width: nat, len: nat) returns (r: Result<(), EncodeError>)
      modifies this
      ensures Writes(EncodeLength(width, len), r, old(sink), sink)
    {
      if len >= Bound(width) {
        return Err(FieldTooLarge(len, Bound(width) - 1));
      }
      Bytes(BigEndian(width, len));
      return Ok(());
    }

    /** `string` and `blob`: the length goes first, so a refused value writes nothing. */
    method Prefixed(width: nat, bytes: seq<u8>) returns (r: Result<(), EncodeError>)
      modifies this
      ensures Writes(EncodePrefixed(width, bytes), r, old(sink), sink)
    {
      r := Length(width, |bytes|);
      if r.Ok? {
        ghost var prefix := EncodeLength(width, |bytes|).value;
        WriteTwice(old(sink), prefix, bytes);
        Bytes(bytes);
      }
    }

    method Field(f: Field) returns (r: Result<(), EncodeError>)
      modifies this
      ensures Writes(EncodeField(f), r, old(sink), sink)
    {
      r := Ok(());
      match f
      case Byte(v) => Bytes(BigEndian(1, v));
      case Flag(b) => Bytes(BigEndian(1, if b then 1 else 0));
      case Short(v) => Bytes(BigEndian(2, v));
      case Word(v) => Bytes(BigEndian(4, v));
      case Long(v) => Bytes(BigEndian(8, v));
      case Count16(n) => r := Length(2, n);
      case Count32(n) => r := Length(4, n);
      case Text(bytes) => r := Prefixed(2, bytes);
      case Blob(bytes) => r := Prefixed(4, bytes);
    }

    /** Writes fields until one is refused. */
    method Fields(fields: seq<Field>) returns (r: Result<(), EncodeError>)
      modifies this
      ensures r.Ok? <==> EncodeFields(fields).Ok?
      ensures r.Err? ==> r.error == EncodeFields(fields).error
      ensures sink == old(sink).Write(Emitted(fields))
    {
      WriteAllEmits(sink, fields);
      var i := 0;
      while i < |fields|
        invariant 0 <= i <= |fields|
        invariant WriteAll(sink, fields[i..]) == WriteAll(old(sink), fields)
      {
        assert fields[i..][1..] == fields[i + 1..];
        r := Field(fields[i]);
        if r.Err? {
          return;
        }
        i := i + 1;
      }
      return Ok(());
    }
  }

  lemma WriteNothing(s: Sink)
    ensures s.Write([]) == s
  {}

  lemma WriteTwice(s: Sink, a: seq<u8>, b: seq<u8>)
    ensures s.Write(a).Write(b) == s.Write(a + b)
  {
    if s.Stored? {
      assert s.bytes + a + b == s.bytes + (a + b);
    }
  }

  /** A counting pass and a storing pass over the same fields agree on success, on the error,
      and (as long as the vector is one a machine can hold) on the length. */
  method CountThenStore(fields: seq<Field>)
    returns (counted: Result<nat, EncodeError>, stored: Result<seq<u8>, EncodeError>)
    ensures counted.Ok? <==> stored.Ok?
    ensures counted.Err? ==> counted.error == stored.error
    ensures stored == EncodeFields(fields)
    ensures stored.Ok? && |stored.value| <= USIZE_MAX ==> counted.value == |stored.value|
  {
    var counter := new Writer(Counting(0));
    var first := counter.Fields(fields);
    var writer := new Writer(Stored([]));
    var second := writer.Fields(fields);
    if first.Ok? {
      EmittedIsEncoding(fields);
      assert [] + Emitted(fields) == Emitted(fields);
      counted, stored := Ok(counter.sink.Position()), Ok(writer.sink.bytes);
    } else {
      counted, stored := Err(first.error), Err(second.error);
    }
  }

  // ---------------------------------------------------------------------------
  // Reader

  class Reader {
    const payload: seq<u8>
    const utf8: seq<u8> -> bool
    var position: nat

    ghost predicate Valid()
      reads this
    {
      position <= |payload|
    }

    /** The bytes not yet consumed. */
    ghost function Rest(): seq<u8>
      requires Valid()
      reads this
    {
      payload[position..]
    }

    constructor (bytes: seq<u8>, valid: seq<u8> -> bool)
      ensures Valid() && payload == bytes && utf8 == valid && position == 0
    {
      payload, utf8, position := bytes, valid, 0;
    }

    method Finish() returns (r: Result<(), DecodeError>)
      requires Valid()
      ensures r == if Rest() == [] then Ok(()) else Err(TrailingBytes(|Rest()|))
    {
      var remaining := |payload| - position;
      if remaining == 0 { return Ok(()); }
      return Err(TrailingBytes(remaining));
    }

    method TakeBytes(len: nat) returns (r: Result<seq<u8>, DecodeError>)
      requires Valid()
      modifies this
      ensures Valid()
      ensures Reads(Take(old(Rest()), len), r, Rest())
      ensures r.Err? ==> position == old(position)
    {
      var remaining := |payload| - position;
      if remaining < len {
        return Err(UnexpectedEof(len, remaining));
      }
      var start := position;
      position := position + len;
      assert payload[start..position] == old(Rest())[..len] && Rest() == old(Rest())[len..];
      return Ok(payload[start..position]);
    }

    method Integer(width: nat) returns (r: Result<nat, DecodeError>)
      requires Valid()
      modifies this
      ensures Valid()
      ensures Reads(ReadInteger(width, old(Rest())), r, Rest())
      ensures r.Err? ==> position == old(position)
    {
      var bytes := TakeBytes(width);
      if bytes.Err? { return Err(bytes.error); }
      FromBigEndianPrefix(bytes.value, old(Rest()), width);
      return Ok(FromBigEndian(bytes.value, width));
    }

    method Prefixed(width: nat) returns (r: Result<seq<u8>, DecodeError>)
      requires Valid()
      modifies this
      ensures Valid()
      ensures Reads(ReadPrefixed(width, old(Rest())), r, Rest())
    {
      var len := Integer(width);
      if len.Err? { return Err(len.error); }
      r := TakeBytes(len.value);
    }

    method Field(kind: Kind) returns (r: Result<Field, DecodeError>)
      requires Valid()
      modifies this
      ensures Valid()
      ensures Reads(ReadField(kind, old(Rest()), utf8), r, Rest())
    {
      Widths();
      if kind == KText || kind == KBlob {
        var bytes := Prefixed(WidthOf(kind));
        if bytes.Err? { return Err(bytes.error); }
        if kind == KBlob { return Ok(Blob(bytes.value)); }
        return if utf8(bytes.value) then Ok(Text(bytes.value)) else Err(InvalidUtf8);
      }
      var v := Integer(WidthOf(kind));
      if v.Err? { return Err(v.error); }
      match kind
      case KByte => return Ok(Byte(v.value));
      case KFlag => return if v.value <= 1 then Ok(Flag(v.value == 1)) else Err(InvalidBoolean(v.value));
      case KShort => return Ok(Short(v.value));
      case KWord => return Ok(Word(v.value));
      case KLong => return Ok(Long(v.value));
      case KCount16 => return Ok(Count16(v.value));
      case KCount32 => return Ok(Count32(v.value));
    }

    /** Reads one field after another until one is refused. */
    method Fields(kinds: seq<Kind>) returns (r: Result<seq<Field>, DecodeError>)
      requires Valid()
      modifies this
      ensures Valid()
      ensures Reads(ReadFields(kinds, old(Rest()), utf8), r, Rest())
    {
      var items: seq<Field> := [];
      var i := 0;
      ghost var whole := ReadFields(kinds, Rest(), utf8);
      PrependNothing(whole);
      assert kinds[0..] == kinds;
      while i < |kinds|
        invariant Valid() && 0 <= i <= |kinds|
        invariant whole == Prepend(items, ReadFields(kinds[i..], Rest(), utf8))
      {
        ReadFieldsFrom(kinds, i, Rest(), utf8);
        var f := Field(kinds[i]);
        if f.Err? { return Err(f.error); }
        PrependTwice(items, f.value, ReadFields(kinds[i + 1..], Rest(), utf8));
        items := items + [f.value];
        i := i + 1;
      }
      assert items + [] == items;
      return Ok(items);
    }
  }

  function Prepend(items: seq<Field>, r: Result<Parsed<seq<Field>>, DecodeError>):
    Result<Parsed<seq<Field>>, DecodeError>
  {
    match r
    case Ok(p) => Ok(Parsed(items + p.item, p.rest))
    case Err(e) => Err(e)
  }

  lemma PrependNothing(r: Result<Parsed<seq<Field>>, DecodeError>)
    ensures Prepend([], r) == r
  {
    if r.Ok? {
      assert [] + r.value.item == r.value.item;
    }
  }

  lemma ReadFieldsFrom(kinds: seq<Kind>, i: nat, s: seq<u8>, utf8: seq<u8> -> bool)
    requires i < |kinds|
    ensures
      ReadFields(kinds[i..], s, utf8) ==
      match ReadField(kinds[i], s, utf8)
      case Ok(f) => Prepend([f.item], ReadFields(kinds[i + 1..], f.rest, utf8))
      case Err(e) => Err(e)
  {
    assert kinds[i..][1..] == kinds[i + 1..];
  }

  lemma PrependTwice(items: seq<Field>, f: Field, r: Result<Parsed<seq<Field>>, DecodeError>)
    ensures Prepend(items, Prepend([f], r)) == Prepend(items + [f], r)
  {
    if r.Ok? {
      assert items + ([f] + r.value.item) == items + [f] + r.value.item;
    }
  }

  /** A read returned what the specification says and left what it says. */
  ghost predicate Reads<T>(spec: Result<Parsed<T>, DecodeError>, r: Result<T, DecodeError>, after: seq<u8>) {
    match spec
    case Ok(p) => r == Ok(p.item) && after == p.rest
    case Err(e) => r == Err(e)
  }
}
