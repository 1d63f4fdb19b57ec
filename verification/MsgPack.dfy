/** The action encoding of the HyperEVM big-block toggle: MessagePack, nonce and vault marker. */
module MsgPack {
  import opened Collections

  type Byte = b: int | 0 <= b < 256

  /** A string as its UTF-8 bytes. */
  type Utf8 = seq<Byte>

  datatype Value = Text(text: Utf8) | Flag(flag: bool)
  datatype Field = Field(key: Utf8, value: Value)

  datatype Encoded = Bytes(bytes: seq<Byte>) | TooManyEntries | TooLong(length: nat)

  /** Appending to what is encoded so far; an error stays. */
  function Append(a: Encoded, b: Encoded): Encoded {
    if !a.Bytes? then a else if !b.Bytes? then b else Bytes(a.bytes + b.bytes)
  }

  // ---- Encoding ----

  function StringBytes(s: Utf8): Encoded {
    if |s| <= 31 then Bytes([0xa0 + |s|] + s)
    else if |s| <= 255 then Bytes([0xd9, |s|] + s)
    else TooLong(|s|)
  }

  function ValueBytes(v: Value): Encoded {
    match v
    case Flag(b) => Bytes([if b then 0xc3 else 0xc2])
    case Text(s) => StringBytes(s)
  }

  function FieldBytes(f: Field): Encoded {
    Append(StringBytes(f.key), ValueBytes(f.value))
  }

  function FieldsBytes(fields: seq<Field>): Encoded {
    if |fields| == 0 then Bytes([]) else Append(FieldBytes(fields[0]), FieldsBytes(fields[1..]))
  }

  function MapBytes(fields: seq<Field>): Encoded {
    if |fields| > 15 then TooManyEntries else Append(Bytes([0x80 + |fields|]), FieldsBytes(fields))
  }

  method EncodeString(parts: seq<Byte>, s: Utf8) returns (more: Encoded)
    ensures more == Append(Bytes(parts), StringBytes(s))
  {
    var header: seq<Byte>;
    if |s| <= 31 {
      header := [0xa0 + |s|];
    } else if |s| <= 255 {
      header := [0xd9, |s|];
    } else {
      return TooLong(|s|);
    }
    assert parts + header + s == parts + (header + s);
    return Bytes(parts + header + s);
  }

  method MsgpackEncode(fields: seq<Field>) returns (r: Encoded)
    ensures r == MapBytes(fields)
  {
    if |fields| > 15 {
      return TooManyEntries;
    }
    var parts: seq<Byte> := [0x80 + |fields|];
    for i := 0 to |fields|
      invariant MapBytes(fields) == Append(Bytes(parts), FieldsBytes(fields[i..]))
    {
      var f := fields[i];
      assert fields[i..][1..] == fields[i + 1..];
      AppendThree(Bytes(parts), StringBytes(f.key), ValueBytes(f.value), FieldsBytes(fields[i + 1..]));
      r := EncodeString(parts, f.key);
      if !r.Bytes? {
        return;
      }
      var keyed := r.bytes;
      match f.value {
        case Flag(b) => r := Bytes(keyed + [if b then 0xc3 else 0xc2]);
        case Text(s) => r := EncodeString(keyed, s);
      }
      if !r.Bytes? {
        return;
      }
      parts := r.bytes;
    }
    assert parts + [] == parts;
    return Bytes(parts);
  }

  lemma AppendThree(a: Encoded, b: Encoded, c: Encoded, d: Encoded)
    ensures Append(a, Append(Append(b, c), d)) == Append(Append(Append(a, b), c), d)
  {
    if a.Bytes? && b.Bytes? && c.Bytes? && d.Bytes? {
      assert a.bytes + (b.bytes + c.bytes + d.bytes) == a.bytes + b.bytes + c.bytes + d.bytes;
    }
  }

  /** Exactly the maps of at most 15 entries with strings of at most 255 bytes are encoded. */
  predicate Encodable(fields: seq<Field>) {
    |fields| <= 15 && forall f | f in fields :: |f.key| <= 255 && (f.value.Text? ==> |f.value.text| <= 255)
  }

  lemma {:induction false} EncodableIff(fields: seq<Field>)
    ensures FieldsBytes(fields).Bytes? <==>
            forall f | f in fields :: |f.key| <= 255 && (f.value.Text? ==> |f.value.text| <= 255)
    ensures MapBytes(fields).Bytes? <==> Encodable(fields)
  {
    if |fields| > 0 {
      EncodableIff(fields[1..]);
      assert fields == [fields[0]] + fields[1..];
    }
  }

  /** The toggle's own action on the wire: two entries, a four- and a 14-byte key, a 13-byte text and the flag. */
  lemma ToggleBytes(typ: Utf8, text: Utf8, using: Utf8, enable: bool)
    requires |typ| == |"type"| && |text| == |"evmUserModify"| && |using| == |"usingBigBlocks"|
    ensures MapBytes([Field(typ, Text(text)), Field(using, Flag(enable))]) ==
            Bytes([0x82, 0xa4] + typ + [0xad] + text + [0xae] + using + [if enable then 0xc3 else 0xc2])
  {
    var first, second := Field(typ, Text(text)), Field(using, Flag(enable));
    assert [first, second][1..] == [second] && [second][1..] == [];
    assert FieldBytes(first) == Bytes([0xa4] + typ + ([0xad] + text));
    assert FieldBytes(second) == Bytes([0xae] + using + [if enable then 0xc3 else 0xc2]);
    assert FieldsBytes([second]) == FieldBytes(second);
    assert FieldsBytes([first, second]) == Append(FieldBytes(first), FieldBytes(second));
  }

  // ---- Decoding, by the MessagePack specification's "Formats" section ----

  datatype Decoded<T> = Read(value: T, rest: seq<Byte>) | Malformed

  function Take(n: nat, bytes: seq<Byte>): Decoded<seq<Byte>> {
    if |bytes| < n then Malformed else Read(bytes[..n], bytes[n..])
  }

  /** fixstr and str 8. */
  function DecodeString(bytes: seq<Byte>): Decoded<Utf8> {
    if |bytes| == 0 then Malformed
    else if 0xa0 <= bytes[0] <= 0xbf then Take(bytes[0] - 0xa0, bytes[1..])
    else if bytes[0] == 0xd9 && |bytes| > 1 then Take(bytes[1], bytes[2..])
    else Malformed
  }

  /** false, true, and strings. */
  function DecodeValue(bytes: seq<Byte>): Decoded<Value> {
    if |bytes| == 0 then Malformed
    else if bytes[0] == 0xc2 then Read(Flag(false), bytes[1..])
    else if bytes[0] == 0xc3 then Read(Flag(true), bytes[1..])
    else
      match DecodeString(bytes)
      case Malformed => Malformed
      case Read(s, rest) => Read(Text(s), rest)
  }

  function DecodeField(bytes: seq<Byte>): Decoded<Field> {
    match DecodeString(bytes)
    case Malformed => Malformed
    case Read(key, rest) =>
      match DecodeValue(rest)
      case Malformed => Malformed
      case Read(value, rest') => Read(Field(key, value), rest')
  }

  function DecodeFields(n: nat, bytes: seq<Byte>): Decoded<seq<Field>> {
    if n == 0 then Read([], bytes)
    else
      match DecodeField(bytes)
      case Malformed => Malformed
      case Read(f, rest) =>
        match DecodeFields(n - 1, rest)
        case Malformed => Malformed
        case Read(fields, rest') => Read([f] + fields, rest')
  }

  /** fixmap. */
  function DecodeMap(bytes: seq<Byte>): Decoded<seq<Field>> {
    if |bytes| > 0 && 0x80 <= bytes[0] <= 0x8f then DecodeFields(bytes[0] - 0x80, bytes[1..]) else Malformed
  }

  lemma StringRoundTrip(s: Utf8, rest: seq<Byte>)
    requires StringBytes(s).Bytes?
    ensures DecodeString(StringBytes(s).bytes + rest) == Read(s, rest)
  {
    var bytes := StringBytes(s).bytes + rest;
    if |s| <= 31 {
      assert bytes[1..] == s + rest;
    } else {
      assert bytes[2..] == s + rest;
    }
    assert (s + rest)[..|s|] == s && (s + rest)[|s|..] == rest;
  }

  lemma ValueRoundTrip(v: Value, rest: seq<Byte>)
    requires ValueBytes(v).Bytes?
    ensures DecodeValue(ValueBytes(v).bytes + rest) == Read(v, rest)
  {
    if v.Text? {
      StringRoundTrip(v.text, rest);
    } else {
      assert (ValueBytes(v).bytes + rest)[1..] == rest;
    }
  }

  lemma FieldRoundTrip(f: Field, rest: seq<Byte>)
    requires FieldBytes(f).Bytes?
    ensures DecodeField(FieldBytes(f).bytes + rest) == Read(f, rest)
  {
    var key, value := StringBytes(f.key).bytes, ValueBytes(f.value).bytes;
    assert FieldBytes(f).bytes + rest == key + (value + rest);
    StringRoundTrip(f.key, value + rest);
    ValueRoundTrip(f.value, rest);
  }

  lemma {:induction false} FieldsRoundTrip(fields: seq<Field>, rest: seq<Byte>)
    requires FieldsBytes(fields).Bytes?
    ensures DecodeFields(|fields|, FieldsBytes(fields).bytes + rest) == Read(fields, rest)
    decreases |fields|
  {
    if |fields| == 0 {
      assert [] + rest == rest;
    } else {
      var first, others := FieldBytes(fields[0]).bytes, FieldsBytes(fields[1..]).bytes;
      assert FieldsBytes(fields).bytes + rest == first + (others + rest);
      FieldRoundTrip(fields[0], others + rest);
      FieldsRoundTrip(fields[1..], rest);
      assert fields == [fields[0]] + fields[1..];
    }
  }

  /** Whatever follows them, the encoded bytes decode to the same entries in the same order, and no further. */
  lemma RoundTrip(fields: seq<Field>, rest: seq<Byte>)
    requires MapBytes(fields).Bytes?
    ensures DecodeMap(MapBytes(fields).bytes + rest) == Read(fields, rest)
  {
    var body := FieldsBytes(fields).bytes;
    assert (MapBytes(fields).bytes + rest)[1..] == body + rest;
    FieldsRoundTrip(fields, rest);
  }

  /** No encoding is the beginning of another. */
  lemma PrefixFree(a: seq<Field>, b: seq<Field>, x: seq<Byte>, y: seq<Byte>)
    requires MapBytes(a).Bytes? && MapBytes(b).Bytes?
    requires MapBytes(a).bytes + x == MapBytes(b).bytes + y
    ensures a == b && x == y
  {
    RoundTrip(a, x);
    RoundTrip(b, y);
  }

  // ---- The connection id's preimage ----

  const TWO_TO_THE_64 := 0x1_0000_0000_0000_0000

  function BigEndian(n: nat, width: nat): (r: seq<Byte>)
    ensures |r| == width
  {
    if width == 0 then [] else BigEndian(n / 256, width - 1) + [n % 256]
  }

  /** A 64-bit write keeps the low 64 bits, whatever the sign. */
  function NonceBytes(nonce: int): (r: seq<Byte>)
    ensures |r| == 8
  {
    BigEndian(nonce % TWO_TO_THE_64, 8)
  }

  const NO_VAULT: seq<Byte> := [0x00]

  function Preimage(action: seq<Field>, nonce: int): seq<Byte>
    requires MapBytes(action).Bytes?
  {
    MapBytes(action).bytes + (NonceBytes(nonce) + NO_VAULT)
  }

  function Width(width: nat): nat {
    if width == 0 then 1 else 256 * Width(width - 1)
  }

  lemma {:induction false} SameBytesSameNumber(m: nat, n: nat, width: nat)
    requires BigEndian(m, width) == BigEndian(n, width) && m < Width(width) && n < Width(width)
    ensures m == n
  {
    if width > 0 {
      assert BigEndian(m, width)[..width - 1] == BigEndian(m / 256, width - 1);
      assert BigEndian(n, width)[..width - 1] == BigEndian(n / 256, width - 1);
      assert BigEndian(m, width)[width - 1] == m % 256 && BigEndian(n, width)[width - 1] == n % 256;
      SameBytesSameNumber(m / 256, n / 256, width - 1);
    }
  }

  lemma EightBytes()
    ensures Width(8) == TWO_TO_THE_64
  {
    assert Width(2) == 0x1_0000;
    assert Width(4) == 0x1_0000_0000;
    assert Width(6) == 0x1_0000_0000_0000;
  }

  /** Two requests share a preimage exactly when they have the same entries and nonces equal modulo 2^64. */
  lemma PreimageInjective(a: seq<Field>, b: seq<Field>, m: int, n: int)
    requires MapBytes(a).Bytes? && MapBytes(b).Bytes?
    ensures Preimage(a, m) == Preimage(b, n) <==> a == b && m % TWO_TO_THE_64 == n % TWO_TO_THE_64
  {
    if Preimage(a, m) == Preimage(b, n) {
      PrefixFree(a, b, NonceBytes(m) + NO_VAULT, NonceBytes(n) + NO_VAULT);
      assert NonceBytes(m) == (NonceBytes(m) + NO_VAULT)[..8];
      assert NonceBytes(n) == (NonceBytes(n) + NO_VAULT)[..8];
      EightBytes();
      SameBytesSameNumber(m % TWO_TO_THE_64, n % TWO_TO_THE_64, 8);
    }
  }

  /** The number that bytes stand for, the most significant first. */
  function NumberOf(bytes: seq<Byte>): nat {
    if |bytes| == 0 then 0 else NumberOf(bytes[..|bytes| - 1]) * 256 + bytes[|bytes| - 1]
  }

  lemma {:induction false} BigEndianNumber(n: nat, width: nat)
    requires n < Width(width)
    ensures NumberOf(BigEndian(n, width)) == n
  {
    if width > 0 {
      BigEndianNumber(n / 256, width - 1);
      assert BigEndian(n, width)[..width - 1] == BigEndian(n / 256, width - 1);
    }
  }

  /** A reader of the preimage finds the action, then eight bytes for the nonce modulo 2^64, then a zero byte. */
  lemma PreimageReads(action: seq<Field>, nonce: int)
    requires MapBytes(action).Bytes?
    ensures DecodeMap(Preimage(action, nonce)).Read? && DecodeMap(Preimage(action, nonce)).value == action
    ensures var tail := DecodeMap(Preimage(action, nonce)).rest;
            |tail| == 9 && tail[8] == 0 && NumberOf(tail[..8]) == nonce % TWO_TO_THE_64
  {
    var tail := NonceBytes(nonce) + NO_VAULT;
    RoundTrip(action, tail);
    EightBytes();
    BigEndianNumber(nonce % TWO_TO_THE_64, 8);
    assert tail[..8] == NonceBytes(nonce);
  }

  /** Fills a buffer of the final size: the action, the nonce from its last byte up, the vault marker. */
  method ConstructPreimage(action: seq<Field>, nonce: int) returns (r: Encoded, combined: array<Byte>)
    ensures fresh(combined)
    ensures r == MapBytes(action)
    ensures r.Bytes? ==> combined[..] == Preimage(action, nonce)
  {
    r := MsgpackEncode(action);
    combined := new Byte[0];
    if !r.Bytes? {
      return;
    }
    var encoded := r.bytes;
    var length := |encoded|;
    combined := new Byte[length + 9](_ => 0);
    for i := 0 to length
      invariant combined[..i] == encoded[..i]
      invariant forall k :: i <= k < combined.Length ==> combined[k] == 0
    {
      combined[i] := encoded[i];
    }
    WriteBigUint64(combined, length, nonce % TWO_TO_THE_64);
    combined[length + 8] := 0x00;
    assert combined[..] == combined[..length] + (combined[length..length + 8] + combined[length + 8..]);
  }

  method WriteBigUint64(buffer: array<Byte>, offset: nat, value: nat)
    requires offset + 8 <= buffer.Length
    modifies buffer
    ensures buffer[..offset] == old(buffer[..offset]) && buffer[offset + 8..] == old(buffer[offset + 8..])
    ensures buffer[offset..offset + 8] == BigEndian(value, 8)
  {
    var rest := value;
    var i := 8;
    while i > 0
      invariant 0 <= i <= 8
      invariant buffer[..offset] == old(buffer[..offset]) && buffer[offset + 8..] == old(buffer[offset + 8..])
      invariant BigEndian(value, 8) == BigEndian(rest, i) + buffer[offset + i..offset + 8]
    {
      i := i - 1;
      ghost var later := buffer[offset + i + 1..offset + 8];
      buffer[offset + i] := rest % 256;
      assert buffer[offset + i..offset + 8] == [rest % 256] + later;
      rest := rest / 256;
    }
  }
}
