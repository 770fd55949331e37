/** The Protocol Buffers wire format, as far as the exchange messages use it: base-128 varints and
    length-delimited records, with fixed-width fields skipped. */
module Wire {
  import opened Wrappers

  const TWO_32 := 0x1_0000_0000
  const TWO_64 := 0x1_0000_0000_0000_0000

  // ------------------------------------------------------------------ varints

  function EncodeVarint(n: nat): (s: seq<byte>)
    ensures s != []
  {
    if n < 128 then [n] else [n % 128 + 128] + EncodeVarint(n / 128)
  }

  // Seven bits a byte, least significant first, in at most `limit` bytes; the value and the rest.
  function ReadVarint(s: seq<byte>, limit: nat): Option<(nat, seq<byte>)> {
    if s == [] || limit == 0 then None
    else if s[0] < 128 then Some((s[0], s[1..]))
    else
      var r := ReadVarint(s[1..], limit - 1);
      if r.None? then None else Some((s[0] - 128 + 128 * r.value.0, r.value.1))
  }

  const MAX_VARINT_BYTES: nat := 10

  // Ten bytes at most; bits beyond the 64th are lost.
  function DecodeVarint(s: seq<byte>): Option<(nat, seq<byte>)> {
    var r := ReadVarint(s, MAX_VARINT_BYTES);
    if r.None? then None else Some((r.value.0 % TWO_64, r.value.1))
  }

  function SizeVarint(n: nat): nat {
    if n < 0x80 then 1
    else if n < 0x4000 then 2
    else if n < 0x20_0000 then 3
    else if n < 0x1000_0000 then 4
    else if n < 0x8_0000_0000 then 5
    else if n < 0x400_0000_0000 then 6
    else if n < 0x2_0000_0000_0000 then 7
    else if n < 0x100_0000_0000_0000 then 8
    else if n < 0x8000_0000_0000_0000 then 9
    else 10
  }

  /** The size table agrees with the encoder on every 64-bit value. */
  lemma {:induction false} SizeOfVarint(n: nat)
    requires n < TWO_64
    ensures |EncodeVarint(n)| == SizeVarint(n)
  {
    if n >= 128 {
      SizeOfVarint(n / 128);
    }
  }

  lemma {:induction false} ReadVarintBack(n: nat, rest: seq<byte>, limit: nat)
    requires |EncodeVarint(n)| <= limit
    ensures ReadVarint(EncodeVarint(n) + rest, limit) == Some((n, rest))
  {
    var s := EncodeVarint(n) + rest;
    if n < 128 {
      assert s[1..] == rest;
    } else {
      assert s[1..] == EncodeVarint(n / 128) + rest;
      ReadVarintBack(n / 128, rest, limit - 1);
    }
  }

  lemma SizeIsBounded(n: nat)
    requires n < TWO_64
    ensures |EncodeVarint(n)| <= MAX_VARINT_BYTES
  {
    SizeOfVarint(n);
  }

  lemma DecodesTo(s: seq<byte>, n: nat, rest: seq<byte>)
    requires n < TWO_64 && ReadVarint(s, MAX_VARINT_BYTES) == Some((n, rest))
    ensures DecodeVarint(s) == Some((n, rest))
  {
    assert n % TWO_64 == n;
  }

  lemma VarintRoundTrip(n: nat, rest: seq<byte>)
    requires n < TWO_64
    ensures DecodeVarint(EncodeVarint(n) + rest) == Some((n, rest))
  {
    SizeIsBounded(n);
    ReadVarintBack(n, rest, MAX_VARINT_BYTES);
    DecodesTo(EncodeVarint(n) + rest, n, rest);
  }

  lemma {:induction false} ReadVarintIff(s: seq<byte>, limit: nat)
    ensures ReadVarint(s, limit).Some? <==> exists i :: 0 <= i < limit && i < |s| && s[i] < 128
  {
    if s != [] && limit > 0 && s[0] >= 128 {
      ReadVarintIff(s[1..], limit - 1);
      assert forall i :: 1 <= i < |s| ==> s[i] == s[1..][i - 1];
    }
  }

  /** A varint is read exactly when one of its first ten bytes is the last one, having no continuation bit. */
  lemma DecodeVarintIff(s: seq<byte>)
    ensures DecodeVarint(s).Some? <==> exists i :: 0 <= i < 10 && i < |s| && s[i] < 128
  {
    ReadVarintIff(s, MAX_VARINT_BYTES);
  }

  /** A value too large for 64 bits, in at most ten bytes, loses its upper bits. */
  lemma VarintWraps(n: nat, rest: seq<byte>)
    requires |EncodeVarint(n)| <= 10
    ensures DecodeVarint(EncodeVarint(n) + rest) == Some((n % 0x1_0000_0000_0000_0000, rest))
  {
    ReadVarintBack(n, rest, MAX_VARINT_BYTES);
  }

  // ------------------------------------------------------------------ fields

  datatype Value = Varint(n: nat) | Bytes(b: seq<byte>) | Fixed(b: seq<byte>)

  datatype Field = Field(num: nat, value: Value)

  function WireType(v: Value): nat {
    match v
    case Varint(_) => 0
    case Bytes(_) => 2
    case Fixed(b) => if |b| == 8 then 1 else 5
  }

  predicate Encodable(f: Field) {
    && 0 < f.num < 0x2000_0000
    && match f.value
       case Varint(n) => n < TWO_64
       case Bytes(b) => |b| < TWO_64
       case Fixed(b) => |b| == 8 || |b| == 4
  }

  function EncodeValue(v: Value): seq<byte> {
    match v
    case Varint(n) => EncodeVarint(n)
    case Bytes(b) => EncodeVarint(|b|) + b
    case Fixed(b) => b
  }

  function EncodeField(f: Field): seq<byte> {
    EncodeVarint(8 * f.num + WireType(f.value)) + EncodeValue(f.value)
  }

  function EncodeFields(fs: seq<Field>): seq<byte> {
    if fs == [] then [] else EncodeField(fs[0]) + EncodeFields(fs[1..])
  }

  function TakeBytes(s: seq<byte>, n: nat): Option<(seq<byte>, seq<byte>)> {
    if n <= |s| then Some((s[..n], s[n..])) else None
  }

  function DecodeValue(wire: nat, s: seq<byte>): Option<(Value, seq<byte>)> {
    match wire
    case 0 =>
      var r := DecodeVarint(s);
      if r.None? then None else Some((Varint(r.value.0), r.value.1))
    case 2 =>
      var r := DecodeVarint(s);
      if r.None? then None
      else
        var t := TakeBytes(r.value.1, r.value.0);
        if t.None? then None else Some((Bytes(t.value.0), t.value.1))
    case 1 => var t := TakeBytes(s, 8); if t.None? then None else Some((Fixed(t.value.0), t.value.1))
    case 5 => var t := TakeBytes(s, 4); if t.None? then None else Some((Fixed(t.value.0), t.value.1))
    case _ => None
  }

  lemma ReadVarintShrinks(s: seq<byte>, limit: nat)
    ensures ReadVarint(s, limit).Some? ==> |ReadVarint(s, limit).value.1| < |s|
  {
  }

  // One field and the rest; tag zero is illegal.
  function DecodeField(s: seq<byte>): (r: Option<(Field, seq<byte>)>)
    ensures r.Some? ==> |r.value.1| < |s|
  {
    ReadVarintShrinks(s, MAX_VARINT_BYTES);
    var key := DecodeVarint(s);
    if key.None? || key.value.0 / 8 == 0 then None
    else
      ReadVarintShrinks(key.value.1, MAX_VARINT_BYTES);
      var v := DecodeValue(key.value.0 % 8, key.value.1);
      if v.None? then None else Some((Field(key.value.0 / 8, v.value.0), v.value.1))
  }

  // The fields up to the end or the first error, and whether the end was reached.
  function Parse(s: seq<byte>): (seq<Field>, bool)
    decreases |s|
  {
    if s == [] then ([], true)
    else
      var r := DecodeField(s);
      if r.None? then ([], false)
      else
        var (fs, ok) := Parse(r.value.1);
        ([r.value.0] + fs, ok)
  }

  lemma ValueRoundTrip(v: Value, rest: seq<byte>)
    requires Encodable(Field(1, v))
    ensures DecodeValue(WireType(v), EncodeValue(v) + rest) == Some((v, rest))
  {
    match v
    case Varint(n) => VarintRoundTrip(n, rest);
    case Bytes(b) =>
      VarintRoundTrip(|b|, b + rest);
      assert EncodeValue(v) + rest == EncodeVarint(|b|) + (b + rest);
      assert (b + rest)[..|b|] == b && (b + rest)[|b|..] == rest;
    case Fixed(b) =>
      assert (b + rest)[..|b|] == b && (b + rest)[|b|..] == rest;
  }

  lemma FieldRoundTrip(f: Field, rest: seq<byte>)
    requires Encodable(f)
    ensures DecodeField(EncodeField(f) + rest) == Some((f, rest))
  {
    var key, tail := 8 * f.num + WireType(f.value), EncodeValue(f.value) + rest;
    assert EncodeField(f) + rest == EncodeVarint(key) + tail;
    VarintRoundTrip(key, tail);
    assert key / 8 == f.num && key % 8 == WireType(f.value);
    ValueRoundTrip(f.value, rest);
  }

  lemma ParseOne(s: seq<byte>, f: Field, rest: seq<byte>)
    requires DecodeField(s) == Some((f, rest))
    ensures Parse(s) == ([f] + Parse(rest).0, Parse(rest).1)
  {
  }

  lemma EncodeFirst(fs: seq<Field>, tail: seq<byte>)
    requires fs != []
    ensures EncodeFields(fs) + tail == EncodeField(fs[0]) + (EncodeFields(fs[1..]) + tail)
  {
  }

  lemma Regroup<T>(s: seq<T>, t: seq<T>)
    requires s != []
    ensures [s[0]] + (s[1..] + t) == s + t
  {
  }

  ghost predicate AllEncodable(fs: seq<Field>) {
    forall i :: 0 <= i < |fs| ==> Encodable(fs[i])
  }

  /** Parsing gives back the fields written, and goes on with whatever follows them. */
  lemma {:induction false} ParseRoundTrip(fs: seq<Field>, tail: seq<byte>)
    requires AllEncodable(fs)
    ensures Parse(EncodeFields(fs) + tail) == (fs + Parse(tail).0, Parse(tail).1)
  {
    if fs == [] {
      assert EncodeFields(fs) + tail == tail;
      assert fs + Parse(tail).0 == Parse(tail).0;
    } else {
      var rest := EncodeFields(fs[1..]) + tail;
      EncodeFirst(fs, tail);
      FieldRoundTrip(fs[0], rest);
      ParseOne(EncodeField(fs[0]) + rest, fs[0], rest);
      ParseRoundTrip(fs[1..], tail);
      Regroup(fs, Parse(tail).0);
    }
  }

  lemma ParseBack(fs: seq<Field>)
    requires AllEncodable(fs)
    ensures Parse(EncodeFields(fs)) == (fs, true)
  {
    ParseRoundTrip(fs, []);
    assert EncodeFields(fs) + [] == EncodeFields(fs) && fs + [] == fs;
  }

  predicate AllZero(s: seq<byte>) { forall i :: 0 <= i < |s| ==> s[i] == 0 }

  lemma ZerosParseToNothing(s: seq<byte>)
    requires AllZero(s)
    ensures Parse(s) == ([], s == [])
  {
    if s != [] {
      assert DecodeVarint(s).value.0 == 0;
    }
  }

  // ------------------------------------------------------------------ reading fields by number

  // The last field of that number and wire type wins.
  function LastBytes(fs: seq<Field>, num: nat): Option<seq<byte>> {
    if fs == [] then None
    else
      var later := LastBytes(fs[1..], num);
      if later.Some? then later else if fs[0].num == num && fs[0].value.Bytes? then Some(fs[0].value.b) else None
  }

  function LastVarint(fs: seq<Field>, num: nat): Option<nat> {
    if fs == [] then None
    else
      var later := LastVarint(fs[1..], num);
      if later.Some? then later else if fs[0].num == num && fs[0].value.Varint? then Some(fs[0].value.n) else None
  }

  function BytesField(num: nat, b: Option<seq<byte>>): seq<Field> {
    if b.None? then [] else [Field(num, Bytes(b.value))]
  }

  function VarintField(num: nat, n: Option<nat>): seq<Field> {
    if n.None? then [] else [Field(num, Varint(n.value))]
  }

  lemma {:induction false} LastInConcat(fs: seq<Field>, gs: seq<Field>, num: nat)
    ensures LastBytes(fs + gs, num) == if LastBytes(gs, num).Some? then LastBytes(gs, num) else LastBytes(fs, num)
    ensures LastVarint(fs + gs, num) == if LastVarint(gs, num).Some? then LastVarint(gs, num) else LastVarint(fs, num)
  {
    if fs == [] {
      assert fs + gs == gs;
    } else {
      assert (fs + gs)[1..] == fs[1..] + gs;
      LastInConcat(fs[1..], gs, num);
    }
  }

  lemma {:induction false} LastIsThere(fs: seq<Field>, num: nat)
    ensures LastBytes(fs, num).Some? <==> exists i :: 0 <= i < |fs| && fs[i].num == num && fs[i].value.Bytes?
    ensures LastVarint(fs, num).Some? <==> exists i :: 0 <= i < |fs| && fs[i].num == num && fs[i].value.Varint?
  {
    if fs != [] {
      LastIsThere(fs[1..], num);
      assert forall i :: 1 <= i < |fs| ==> fs[i] == fs[1..][i - 1];
    }
  }

  // ------------------------------------------------------------------ sizes

  function SizeField(f: Field): nat {
    SizeVarint(8 * f.num + WireType(f.value)) +
    match f.value
    case Varint(n) => SizeVarint(n)
    case Bytes(b) => SizeVarint(|b|) + |b|
    case Fixed(b) => |b|
  }

  function SizeFields(fs: seq<Field>): nat {
    if fs == [] then 0 else SizeField(fs[0]) + SizeFields(fs[1..])
  }

  /** The sizes computed beforehand are the lengths emitted. */
  lemma {:induction false} SizesAgree(fs: seq<Field>)
    requires AllEncodable(fs)
    ensures SizeFields(fs) == |EncodeFields(fs)|
  {
    if fs != [] {
      var f := fs[0];
      SizeOfVarint(8 * f.num + WireType(f.value));
      if f.value.Varint? { SizeOfVarint(f.value.n); }
      if f.value.Bytes? { SizeOfVarint(|f.value.b|); }
      SizesAgree(fs[1..]);
    }
  }
}
