/**
 The exchange messages in their binary form: the frame with its oneof body, and the two payloads that
 travel sealed inside it.
 */
module ExchangeCodec {
  import opened Wrappers
  import opened Wire

  // ------------------------------------------------------------------ the frame

  // A body as a decoder leaves it: a field that did not arrive is absent.
  datatype Body =
    | ChallengeRequest
    | Challenge(token: Option<seq<byte>>, payload: Option<seq<byte>>)
    | ChallengeResponse(token: Option<seq<byte>>, nonce: Option<seq<byte>>, payload: Option<seq<byte>>)
    | Confirm(token: Option<seq<byte>>, nonce: Option<seq<byte>>, payload: Option<seq<byte>>)

  function BodyNumber(b: Body): nat {
    match b
    case ChallengeRequest => 1
    case Challenge(_, _) => 2
    case ChallengeResponse(_, _, _) => 3
    case Confirm(_, _, _) => 4
  }

  function BodyFields(b: Body): seq<Field> {
    match b
    case ChallengeRequest => []
    case Challenge(t, p) => BytesField(1, t) + BytesField(2, p)
    case ChallengeResponse(t, n, p) => BytesField(1, t) + (BytesField(2, n) + BytesField(3, p))
    case Confirm(t, n, p) => BytesField(1, t) + (BytesField(2, n) + BytesField(3, p))
  }

  predicate RequiredSet(b: Body) {
    match b
    case ChallengeRequest => true
    case Challenge(t, p) => t.Some? && p.Some?
    case ChallengeResponse(t, n, p) => t.Some? && n.Some? && p.Some?
    case Confirm(t, n, p) => t.Some? && n.Some? && p.Some?
  }

  function BodyFrom(num: nat, fs: seq<Field>): Body
    requires 1 <= num <= 4
  {
    match num
    case 1 => ChallengeRequest
    case 2 => Challenge(LastBytes(fs, 1), LastBytes(fs, 2))
    case 3 => ChallengeResponse(LastBytes(fs, 1), LastBytes(fs, 2), LastBytes(fs, 3))
    case _ => Confirm(LastBytes(fs, 1), LastBytes(fs, 2), LastBytes(fs, 3))
  }

  // No body encodes to nothing.
  function FrameFields(x: Option<Body>): seq<Field> {
    if x.None? then [] else [Field(BodyNumber(x.value), Bytes(EncodeFields(BodyFields(x.value))))]
  }

  function EncodeFrame(x: Option<Body>): seq<byte> { EncodeFields(FrameFields(x)) }

  // Lengths that a 64-bit length prefix can hold.
  ghost predicate Fits(x: Option<Body>) {
    && AllEncodable(FrameFields(x))
    && (x.Some? ==> AllEncodable(BodyFields(x.value)))
  }

  datatype FieldError = NoError | BadWireType | BadMessage | RequiredNotSet

  // One field of the frame: the body after it, and the error it meets. A body field replaces the body, even
  // by one that does not parse; other fields are none of the frame's.
  function OnField(body: Option<Body>, f: Field): (Option<Body>, FieldError) {
    if !(1 <= f.num <= 4) then (body, NoError)
    else if !f.value.Bytes? then (body, BadWireType)
    else
      var (inner, parsed) := Parse(f.value.b);
      var b := BodyFrom(f.num, inner);
      (Some(b), if !parsed then BadMessage else if RequiredSet(b) then NoError else RequiredNotSet)
  }

  // The fields in order; an error ends the decoding with the body so far, but a missing required field is
  // only remembered.
  function Absorb(body: Option<Body>, fs: seq<Field>): (Option<Body>, bool)
    decreases |fs|
  {
    if fs == [] then (body, true)
    else
      var (b, err) := OnField(body, fs[0]);
      if err.BadWireType? || err.BadMessage? then (b, false)
      else
        var (last, ok) := Absorb(b, fs[1..]);
        (last, ok && err.NoError?)
  }

  // What the decoder leaves in the frame, and whether it reported no error.
  function DecodeFrame(s: seq<byte>): (Option<Body>, bool) {
    var (fs, parsed) := Parse(s);
    var (body, ok) := Absorb(None, fs);
    (body, parsed && ok)
  }

  lemma BodyRoundTrip(b: Body)
    requires AllEncodable(BodyFields(b))
    ensures Parse(EncodeFields(BodyFields(b))).1
    ensures BodyFrom(BodyNumber(b), Parse(EncodeFields(BodyFields(b))).0) == b
  {
    var fs := BodyFields(b);
    ParseBack(fs);
    match b
    case ChallengeRequest =>
    case Challenge(t, p) => TwoFields(t, p);
    case ChallengeResponse(t, n, p) => ThreeFields(t, n, p);
    case Confirm(t, n, p) => ThreeFields(t, n, p);
  }

  lemma TwoFields(a: Option<seq<byte>>, b: Option<seq<byte>>)
    ensures var fs := BytesField(1, a) + BytesField(2, b);
            LastBytes(fs, 1) == a && LastBytes(fs, 2) == b
  {
    LastInConcat(BytesField(1, a), BytesField(2, b), 1);
    LastInConcat(BytesField(1, a), BytesField(2, b), 2);
  }

  lemma ThreeFields(a: Option<seq<byte>>, b: Option<seq<byte>>, c: Option<seq<byte>>)
    ensures var fs := BytesField(1, a) + (BytesField(2, b) + BytesField(3, c));
            LastBytes(fs, 1) == a && LastBytes(fs, 2) == b && LastBytes(fs, 3) == c
  {
    forall num | 1 <= num <= 3
      ensures LastBytes(BytesField(1, a) + (BytesField(2, b) + BytesField(3, c)), num) == [a, b, c][num - 1]
    {
      LastInConcat(BytesField(1, a), BytesField(2, b) + BytesField(3, c), num);
      LastInConcat(BytesField(2, b), BytesField(3, c), num);
    }
  }

  lemma FrameBack(x: Option<Body>, tail: seq<byte>)
    requires Fits(x) && AllZero(tail)
    ensures DecodeFrame(EncodeFrame(x) + tail) == (x, tail == [] && (x.Some? ==> RequiredSet(x.value)))
  {
    var fs := FrameFields(x);
    ParseRoundTrip(fs, tail);
    ZerosParseToNothing(tail);
    assert fs + [] == fs;
    if x.Some? {
      BodyRoundTrip(x.value);
      assert fs[1..] == [];
    }
  }

  /** Decoding undoes encoding for every frame, complete or not; an error is reported exactly when a
      field of its body is missing. Zeros after the frame leave the body alone, but are reported. */
  lemma FrameRoundTrip(x: Option<Body>, tail: seq<byte>)
    requires Fits(x) && AllZero(tail)
    ensures var complete := x.None? || match x.value
                            case ChallengeRequest => true
                            case Challenge(t, p) => t != None && p != None
                            case ChallengeResponse(t, n, p) => t != None && n != None && p != None
                            case Confirm(t, n, p) => t != None && n != None && p != None;
            DecodeFrame(EncodeFrame(x) + tail) == (x, tail == [] && complete)
  {
    hide DecodeFrame, EncodeFrame, Fits, AllZero;
    FrameBack(x, tail);
  }

  // A field that a frame can hold without error: of another number, or a body that parses and is complete.
  predicate GoodField(f: Field) {
    1 <= f.num <= 4 ==>
      && f.value.Bytes? && Parse(f.value.b).1
      && var inner := Parse(f.value.b).0;
         && (f.num >= 2 ==> LastBytes(inner, 1).Some? && LastBytes(inner, 2).Some?)
         && (f.num >= 3 ==> LastBytes(inner, 3).Some?)
  }

  lemma OnGoodField(body: Option<Body>, f: Field)
    ensures OnField(body, f).1.NoError? <==> GoodField(f)
    ensures !(1 <= f.num <= 4) ==> OnField(body, f).0 == body
    ensures 1 <= f.num <= 4 && f.value.Bytes? ==> OnField(body, f).0 == Some(BodyFrom(f.num, Parse(f.value.b).0))
    ensures 1 <= f.num <= 4 && !f.value.Bytes? ==> OnField(body, f) == (body, BadWireType)
  {
    hide Parse, LastBytes;
  }

  lemma {:induction false} AbsorbOkIff(body: Option<Body>, fs: seq<Field>)
    ensures Absorb(body, fs).1 <==> forall i :: 0 <= i < |fs| ==> GoodField(fs[i])
    decreases |fs|
  {
    hide OnField, GoodField;
    if fs != [] {
      OnGoodField(body, fs[0]);
      AbsorbOkIff(OnField(body, fs[0]).0, fs[1..]);
      assert forall i :: 1 <= i < |fs| ==> fs[i] == fs[1..][i - 1];
    }
  }

  lemma {:induction false} AbsorbGoesOn(body: Option<Body>, fs: seq<Field>, gs: seq<Field>)
    requires forall i :: 0 <= i < |fs| ==> GoodField(fs[i])
    ensures Absorb(body, fs + gs) == Absorb(Absorb(body, fs).0, gs)
    decreases |fs|
  {
    hide OnField, GoodField;
    if fs == [] {
      assert fs + gs == gs;
    } else {
      assert (fs + gs)[0] == fs[0] && (fs + gs)[1..] == fs[1..] + gs;
      OnGoodField(body, fs[0]);
      AbsorbGoesOn(OnField(body, fs[0]).0, fs[1..], gs);
    }
  }

  lemma {:induction false} AbsorbUnknown(body: Option<Body>, fs: seq<Field>)
    requires forall f :: f in fs ==> !(1 <= f.num <= 4)
    ensures Absorb(body, fs) == (body, true)
    decreases |fs|
  {
    if fs != [] {
      AbsorbUnknown(body, fs[1..]);
    }
  }

  lemma DecodeIsAbsorb(fs: seq<Field>)
    requires AllEncodable(fs)
    ensures DecodeFrame(EncodeFields(fs)) == Absorb(None, fs)
  {
    ParseBack(fs);
  }

  /** A frame of any fields decodes without error exactly when each of its body fields is length-delimited,
      parses, and is complete. */
  lemma FrameOkIff(fs: seq<Field>)
    requires AllEncodable(fs)
    ensures DecodeFrame(EncodeFields(fs)).1 <==> forall i :: 0 <= i < |fs| ==> GoodField(fs[i])
  {
    DecodeIsAbsorb(fs);
    AbsorbOkIff(None, fs);
  }

  /** The last body field wins, and fields of other numbers do not matter. A body field of another wire type is
      an error that leaves the body as it was before it. */
  lemma LastBodyWins(fs: seq<Field>, f: Field, gs: seq<Field>)
    requires AllEncodable(fs + ([f] + gs)) && AllEncodable(fs) && 1 <= f.num <= 4
    requires forall i :: 0 <= i < |fs| ==> GoodField(fs[i])
    requires forall g :: g in gs ==> !(1 <= g.num <= 4)
    ensures var r := DecodeFrame(EncodeFields(fs + ([f] + gs)));
            if f.value.Bytes? then r == (Some(BodyFrom(f.num, Parse(f.value.b).0)), GoodField(f))
            else r == (DecodeFrame(EncodeFields(fs)).0, false)
  {
    hide OnField, GoodField, Parse, BodyFrom, AllEncodable, EncodeFields, DecodeFrame;
    DecodeIsAbsorb(fs + ([f] + gs));
    DecodeIsAbsorb(fs);
    AbsorbGoesOn(None, fs, [f] + gs);
    var body := Absorb(None, fs).0;
    OnGoodField(body, f);
    assert ([f] + gs)[0] == f && ([f] + gs)[1..] == gs;
    AbsorbUnknown(OnField(body, f).0, gs);
    OnErrors(body, f);
  }

  // A body that parses badly ends the decoding with itself, as does one that is only incomplete.
  lemma OnErrors(body: Option<Body>, f: Field)
    ensures OnField(body, f).1.BadWireType? <==> 1 <= f.num <= 4 && !f.value.Bytes?
  {
    hide Parse;
  }

  // ------------------------------------------------------------------ the response payload

  datatype Intention =
    | PipeOut
    | PortForwardTo(destIP: seq<byte>, destPort: uint32)
    | PortForwardFrom(bindIP: seq<byte>, bindPort: uint32)

  datatype Request = Request(pairKey: seq<byte>, forceRelay: Option<bool>, intention: Option<Intention>)

  function BoolVarint(b: Option<bool>): Option<nat> {
    if b.None? then None else Some(if b.value then 1 else 0)
  }

  function VarintBool(n: Option<nat>): Option<bool> {
    if n.None? then None else Some(n.value != 0)
  }

  function IntentionFields(i: Intention): seq<Field> {
    match i
    case PipeOut => []
    case PortForwardTo(ip, port) => BytesField(1, Some(ip)) + VarintField(2, Some(port))
    case PortForwardFrom(ip, port) => BytesField(1, Some(ip)) + VarintField(2, Some(port))
  }

  function IntentionNumber(i: Intention): nat {
    match i case PipeOut => 3 case PortForwardTo(_, _) => 4 case PortForwardFrom(_, _) => 5
  }

  function IntentionField(i: Option<Intention>): seq<Field> {
    if i.None? then [] else [Field(IntentionNumber(i.value), Bytes(EncodeFields(IntentionFields(i.value))))]
  }

  function RequestFields(r: Request): seq<Field> {
    BytesField(1, Some(r.pairKey)) + (VarintField(2, BoolVarint(r.forceRelay)) + IntentionField(r.intention))
  }

  // None stands for any error; the callers drop the payload then.
  function IntentionFrom(num: nat, fs: seq<Field>): Option<Intention>
    requires 3 <= num <= 5
  {
    var ip, port := LastBytes(fs, 1), LastVarint(fs, 2);
    if num == 3 then Some(PipeOut)
    else if ip.None? || port.None? then None
    else if num == 4 then Some(PortForwardTo(ip.value, port.value % TWO_32))
    else Some(PortForwardFrom(ip.value, port.value % TWO_32))
  }

  // The intention after one field of the payload; None for a bad one.
  function OnIntentionField(last: Option<Intention>, f: Field): Option<Option<Intention>> {
    if !(3 <= f.num <= 5) then Some(last)
    else if !f.value.Bytes? then None
    else
      var (inner, parsed) := Parse(f.value.b);
      var i := IntentionFrom(f.num, inner);
      if !parsed || i.None? then None else Some(i)
  }

  // The last intention among the fields, or None when any of them is bad.
  function AbsorbIntention(last: Option<Intention>, fs: seq<Field>): Option<Option<Intention>>
    decreases |fs|
  {
    if fs == [] then Some(last)
    else
      var i := OnIntentionField(last, fs[0]);
      if i.None? then None else AbsorbIntention(i.value, fs[1..])
  }

  function DecodeRequest(s: seq<byte>): Option<Request> {
    var (fs, parsed) := Parse(s);
    var i := AbsorbIntention(None, fs);
    if !parsed || i.None? || LastBytes(fs, 1).None? then None
    else Some(Request(LastBytes(fs, 1).value, VarintBool(LastVarint(fs, 2)), i.value))
  }

  ghost predicate RequestFits(r: Request) {
    && AllEncodable(RequestFields(r))
    && (r.intention.Some? ==> AllEncodable(IntentionFields(r.intention.value)))
  }

  lemma AddressFields(ip: seq<byte>, port: uint32)
    ensures var fs := BytesField(1, Some(ip)) + VarintField(2, Some(port));
            LastBytes(fs, 1) == Some(ip) && LastVarint(fs, 2) == Some(port) && port % TWO_32 == port
  {
    LastInConcat(BytesField(1, Some(ip)), VarintField(2, Some(port)), 1);
    LastInConcat(BytesField(1, Some(ip)), VarintField(2, Some(port)), 2);
  }

  lemma IntentionRoundTrip(i: Intention)
    requires AllEncodable(IntentionFields(i))
    ensures Parse(EncodeFields(IntentionFields(i))).1
    ensures IntentionFrom(IntentionNumber(i), Parse(EncodeFields(IntentionFields(i))).0) == Some(i)
  {
    var fs := IntentionFields(i);
    ParseBack(fs);
    match i
    case PipeOut =>
    case PortForwardTo(ip, port) => AddressFields(ip, port);
    case PortForwardFrom(ip, port) => AddressFields(ip, port);
  }

  lemma {:induction false} AbsorbSkips(fs: seq<Field>, gs: seq<Field>)
    requires forall f :: f in fs ==> f.num < 3
    ensures AbsorbIntention(None, fs + gs) == AbsorbIntention(None, gs)
  {
    if fs == [] {
      assert fs + gs == gs;
    } else {
      assert (fs + gs)[1..] == fs[1..] + gs;
      AbsorbSkips(fs[1..], gs);
    }
  }

  lemma RequestFieldsBack(r: Request)
    requires RequestFits(r)
    ensures var fs := RequestFields(r);
            LastBytes(fs, 1) == Some(r.pairKey) && LastVarint(fs, 2) == BoolVarint(r.forceRelay)
            && AbsorbIntention(None, fs) == Some(r.intention)
  {
    var a, b, c := BytesField(1, Some(r.pairKey)), VarintField(2, BoolVarint(r.forceRelay)), IntentionField(r.intention);
    LastInConcat(a, b + c, 1);
    LastInConcat(b, c, 1);
    LastInConcat(a, b + c, 2);
    LastInConcat(b, c, 2);
    AbsorbSkips(a, b + c);
    AbsorbSkips(b, c);
    if r.intention.Some? {
      IntentionRoundTrip(r.intention.value);
      assert c[1..] == [];
    }
  }

  lemma RequestHasNoVarintOne(r: Request)
    ensures LastVarint(RequestFields(r), 1).None?
  {
    var a, b, c := BytesField(1, Some(r.pairKey)), VarintField(2, BoolVarint(r.forceRelay)), IntentionField(r.intention);
    LastInConcat(a, b + c, 1);
    LastInConcat(b, c, 1);
  }

  /** Decoding a request payload undoes encoding, for every intention. */
  lemma RequestRoundTrip(r: Request)
    requires RequestFits(r)
    ensures DecodeRequest(EncodeFields(RequestFields(r))) == Some(r)
  {
    var fs := RequestFields(r);
    ParseBack(fs);
    RequestFieldsBack(r);
  }

  // A field that a request can hold: of another number, or an intention that parses and has its address.
  predicate GoodIntention(f: Field) {
    3 <= f.num <= 5 ==>
      && f.value.Bytes? && Parse(f.value.b).1
      && (f.num >= 4 ==> LastBytes(Parse(f.value.b).0, 1).Some? && LastVarint(Parse(f.value.b).0, 2).Some?)
  }

  lemma OnGoodIntention(last: Option<Intention>, f: Field)
    ensures OnIntentionField(last, f).Some? <==> GoodIntention(f)
  {
    hide Parse, LastBytes, LastVarint;
  }

  lemma {:induction false} AbsorbIntentionIff(last: Option<Intention>, fs: seq<Field>)
    ensures AbsorbIntention(last, fs).Some? <==> forall i :: 0 <= i < |fs| ==> GoodIntention(fs[i])
    decreases |fs|
  {
    hide OnIntentionField, GoodIntention;
    if fs != [] {
      OnGoodIntention(last, fs[0]);
      assert forall i :: 1 <= i < |fs| ==> fs[i] == fs[1..][i - 1];
      if OnIntentionField(last, fs[0]).Some? {
        AbsorbIntentionIff(OnIntentionField(last, fs[0]).value, fs[1..]);
      }
    }
  }

  /** A request of any fields decodes exactly when it has a pair key and each of its intention fields is
      length-delimited, parses, and, for a forward, has host and port; unknown fields do not matter. */
  lemma RequestOkIff(fs: seq<Field>)
    requires AllEncodable(fs)
    ensures DecodeRequest(EncodeFields(fs)).Some? <==>
              && (exists i :: 0 <= i < |fs| && fs[i].num == 1 && fs[i].value.Bytes?)
              && (forall i :: 0 <= i < |fs| ==> GoodIntention(fs[i]))
  {
    hide Parse, EncodeFields, AbsorbIntention, GoodIntention, LastBytes, LastVarint;
    ParseBack(fs);
    AbsorbIntentionIff(None, fs);
    LastIsThere(fs, 1);
  }

  // ------------------------------------------------------------------ the confirmation payload

  datatype Result = Result(
    ok: bool, message: Option<seq<byte>>, signature: Option<seq<byte>>, relay: Option<seq<byte>>, pairID: Option<seq<byte>>)

  function ResultFields(r: Result): seq<Field> {
    VarintField(1, BoolVarint(Some(r.ok))) + (BytesField(2, r.message) +
      (BytesField(3, r.signature) + (BytesField(4, r.relay) + BytesField(5, r.pairID))))
  }

  function DecodeResult(s: seq<byte>): Option<Result> {
    var (fs, parsed) := Parse(s);
    var ok := VarintBool(LastVarint(fs, 1));
    if !parsed || ok.None? then None
    else Some(Result(ok.value, LastBytes(fs, 2), LastBytes(fs, 3), LastBytes(fs, 4), LastBytes(fs, 5)))
  }

  lemma ResultFieldsBack(r: Result, num: nat)
    requires 1 <= num <= 5
    ensures LastBytes(ResultFields(r), num) == [None, r.message, r.signature, r.relay, r.pairID][num - 1]
    ensures num == 1 ==> LastVarint(ResultFields(r), num) == BoolVarint(Some(r.ok))
  {
    var a, b, c, d, e := VarintField(1, BoolVarint(Some(r.ok))), BytesField(2, r.message), BytesField(3, r.signature),
                         BytesField(4, r.relay), BytesField(5, r.pairID);
    LastInConcat(a, b + (c + (d + e)), num);
    LastInConcat(b, c + (d + e), num);
    LastInConcat(c, d + e, num);
    LastInConcat(d, e, num);
  }

  /** Decoding a confirmation payload undoes encoding. */
  lemma ResultRoundTrip(r: Result)
    requires AllEncodable(ResultFields(r))
    ensures DecodeResult(EncodeFields(ResultFields(r))) == Some(r)
  {
    var fs := ResultFields(r);
    ParseBack(fs);
    ResultFieldsBack(r, 1);
    ResultFieldsBack(r, 2);
    ResultFieldsBack(r, 3);
    ResultFieldsBack(r, 4);
    ResultFieldsBack(r, 5);
  }

  /** A confirmation of any fields decodes exactly when it has a result. */
  lemma ResultOkIff(fs: seq<Field>)
    requires AllEncodable(fs)
    ensures DecodeResult(EncodeFields(fs)).Some? <==> exists i :: 0 <= i < |fs| && fs[i].num == 1 && fs[i].value.Varint?
  {
    hide Parse, EncodeFields, LastBytes, LastVarint;
    ParseBack(fs);
    LastIsThere(fs, 1);
  }

  // ------------------------------------------------------------------ the generated code

  // The buffer that the generated marshalers append to.
  class Buffer {
    var bytes: seq<byte>

    constructor ()
      ensures bytes == []
    {
      bytes := [];
    }

    method EncodeVarint(n: nat)
      modifies this
      ensures bytes == old(bytes) + Wire.EncodeVarint(n)
    {
      var left := n;
      while left >= 128
        invariant bytes + Wire.EncodeVarint(left) == old(bytes) + Wire.EncodeVarint(n)
      {
        bytes := bytes + [left % 128 + 128];
        left := left / 128;
      }
      bytes := bytes + [left];
    }

    method EncodeMessage(fs: seq<Field>)
      modifies this
      ensures bytes == old(bytes) + (Wire.EncodeVarint(|EncodeFields(fs)|) + EncodeFields(fs))
    {
      hide Wire.EncodeVarint, EncodeFields;
      ghost var before, size, text := bytes, Wire.EncodeVarint(|EncodeFields(fs)|), EncodeFields(fs);
      assert (before + size) + text == before + (size + text);
      EncodeVarint(|EncodeFields(fs)|);
      bytes := bytes + EncodeFields(fs);
    }
  }

  // A tag of wire type 2, and the message behind its length.
  method AppendRecord(b: Buffer, num: nat, inner: seq<Field>)
    modifies b
    ensures b.bytes == old(b.bytes) + EncodeFields([Field(num, Bytes(EncodeFields(inner)))])
  {
    ghost var fs := [Field(num, Bytes(EncodeFields(inner)))];
    b.EncodeVarint(8 * num + 2);
    b.EncodeMessage(inner);
    assert fs[1..] == [];
    assert EncodeField(fs[0]) + [] == EncodeField(fs[0]);
  }

  method OneofMarshaler(x: Option<Body>, b: Buffer)
    modifies b
    ensures b.bytes == old(b.bytes) + EncodeFrame(x)
  {
    match x {
      case Some(body) =>
        var tag;
        match body {
          case ChallengeRequest => tag := 1;
          case Challenge(_, _) => tag := 2;
          case ChallengeResponse(_, _, _) => tag := 3;
          case Confirm(_, _, _) => tag := 4;
        }
        AppendRecord(b, tag, BodyFields(body));
      case None =>
    }
  }

  // One byte for the tag, then the length prefix and the message.
  method OneofSizer(x: Option<Body>) returns (n: nat)
    requires Fits(x)
    ensures n == |EncodeFrame(x)|
  {
    n := 0;
    if x.Some? {
      var s := SizeFields(BodyFields(x.value));
      n := n + 1;
      n := n + SizeVarint(s);
      n := n + s;
      SizesAgree(BodyFields(x.value));
      SizesAgree(FrameFields(x));
      assert FrameFields(x)[1..] == [];
    }
  }

  // The record that the generated unmarshaler fills in.
  class ExchangeFrame {
    var body: Option<Body>

    constructor ()
      ensures body == None
    {
      body := None;
    }

    // Whether the field is one of the oneof, and the error it meets.
    method OneofUnmarshaler(f: Field) returns (handled: bool, err: FieldError)
      modifies this
      ensures (body, err) == OnField(old(body), f) && (handled <==> 1 <= f.num <= 4)
    {
      if f.num < 1 || f.num > 4 {
        return false, NoError;
      }
      if !f.value.Bytes? {
        return true, BadWireType;
      }
      var (inner, parsed) := Parse(f.value.b);
      match f.num {
        case 1 => body := Some(ChallengeRequest);
        case 2 => body := Some(Challenge(LastBytes(inner, 1), LastBytes(inner, 2)));
        case 3 => body := Some(ChallengeResponse(LastBytes(inner, 1), LastBytes(inner, 2), LastBytes(inner, 3)));
        case _ => body := Some(Confirm(LastBytes(inner, 1), LastBytes(inner, 2), LastBytes(inner, 3)));
      }
      handled, err := true, if !parsed then BadMessage else if RequiredSet(body.value) then NoError else RequiredNotSet;
    }

    // Decoding starts from an empty record and gives every field to the unmarshaler.
    method Unmarshal(s: seq<byte>) returns (ok: bool)
      modifies this
      ensures (body, ok) == DecodeFrame(s)
    {
      body := None;
      var (fs, parsed) := Parse(s);
      ok := true;
      var i := 0;
      while i < |fs|
        invariant 0 <= i <= |fs|
        invariant var (last, rest) := Absorb(body, fs[i..]); Absorb(None, fs) == (last, ok && rest)
      {
        assert fs[i..][1..] == fs[i + 1..];
        var handled, err := OneofUnmarshaler(fs[i]);
        ok := ok && err.NoError?;
        if err.BadWireType? || err.BadMessage? {
          return false;
        }
        i := i + 1;
      }
      ok := ok && parsed;
    }
  }

  method IntentionMarshaler(i: Option<Intention>, b: Buffer)
    modifies b
    ensures b.bytes == old(b.bytes) + EncodeFields(IntentionField(i))
  {
    match i {
      case Some(intention) =>
        var tag;
        match intention {
          case PipeOut => tag := 3;
          case PortForwardTo(_, _) => tag := 4;
          case PortForwardFrom(_, _) => tag := 5;
        }
        AppendRecord(b, tag, IntentionFields(intention));
      case None =>
    }
  }

  method IntentionSizer(i: Option<Intention>) returns (n: nat)
    requires AllEncodable(IntentionField(i))
    requires i.Some? ==> AllEncodable(IntentionFields(i.value))
    ensures n == |EncodeFields(IntentionField(i))|
  {
    n := 0;
    if i.Some? {
      var s := SizeFields(IntentionFields(i.value));
      n := n + 1;
      n := n + SizeVarint(s);
      n := n + s;
      SizesAgree(IntentionFields(i.value));
      SizesAgree(IntentionField(i));
      assert IntentionField(i)[1..] == [];
    }
  }
}
