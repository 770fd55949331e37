/**
 The 65-byte transfer header around every exchange message, and the client's receive buffer: two
 datagrams are read into the same 1500 bytes, and each time the whole buffer is decoded.
 */
module TransferFrame {
  import opened Wrappers
  import opened Wire
  import opened ExchangeCodec

  const VERSION: byte := 1
  const CODE_SIZE := 32
  const HEADER_SIZE := 65
  const DATAGRAM_SIZE := 1500

  datatype Header = Header(version: byte, source: seq<byte>, destination: seq<byte>)

  // A field of the header: the code cut or padded with zeros to 32 bytes.
  function CodeField(code: seq<byte>): (r: seq<byte>)
    ensures |r| == CODE_SIZE && (|code| == CODE_SIZE ==> r == code)
  {
    var n := Min(|code|, CODE_SIZE);
    code[..n] + seq(CODE_SIZE - n, _ => 0)
  }

  function Pack(source: seq<byte>, dest: seq<byte>, payload: seq<byte>): seq<byte> {
    [VERSION] + CodeField(source) + CodeField(dest) + payload
  }

  function Unpack(s: seq<byte>): Header
    requires |s| >= HEADER_SIZE
  {
    Header(s[0], s[1..33], s[33..65])
  }

  // Copies as much of src as fits into frame[lo..hi].
  method Copy(frame: array<byte>, lo: nat, hi: nat, src: seq<byte>)
    requires lo <= hi <= frame.Length
    modifies frame
    ensures var n := Min(|src|, hi - lo);
            frame[..] == old(frame[..lo]) + src[..n] + old(frame[lo + n..])
  {
    var n := Min(|src|, hi - lo);
    forall i | 0 <= i < n {
      frame[lo + i] := src[i];
    }
  }

  lemma FieldCopied(before: seq<byte>, code: seq<byte>, zeros: seq<byte>)
    requires |zeros| >= CODE_SIZE && AllZero(zeros)
    ensures var n := Min(|code|, CODE_SIZE);
            before + code[..n] + zeros[n..] == before + CodeField(code) + zeros[CODE_SIZE..]
  {
    var n := Min(|code|, CODE_SIZE);
    assert zeros[n..] == seq(CODE_SIZE - n, _ => 0) + zeros[CODE_SIZE..];
  }

  method ConstructTransferPacker(source: seq<byte>, dest: seq<byte>, payload: seq<byte>) returns (frame: array<byte>)
    ensures fresh(frame) && frame[..] == Pack(source, dest, payload)
  {
    frame := new byte[HEADER_SIZE + |payload|](_ => 0);
    frame[0] := VERSION;
    ghost var head, zeros := frame[..1], frame[1..];
    Copy(frame, 1, 33, source);
    assert frame[..] == head + source[..Min(|source|, CODE_SIZE)] + zeros[Min(|source|, CODE_SIZE)..];
    FieldCopied(head, source, zeros);
    head, zeros := frame[..33], frame[33..];
    assert head == [VERSION] + CodeField(source);
    Copy(frame, 33, 65, dest);
    assert frame[..] == head + dest[..Min(|dest|, CODE_SIZE)] + zeros[Min(|dest|, CODE_SIZE)..];
    FieldCopied(head, dest, zeros);
    head := frame[..65];
    assert head == [VERSION] + CodeField(source) + CodeField(dest);
    Copy(frame, 65, frame.Length, payload);
    assert frame[..] == head + payload;
  }

  lemma UnpackUndoesPack(source: seq<byte>, dest: seq<byte>, payload: seq<byte>)
    ensures var s := Pack(source, dest, payload);
            |s| == HEADER_SIZE + |payload| && Unpack(s) == Header(VERSION, CodeField(source), CodeField(dest))
            && s[HEADER_SIZE..] == payload
  {
    var s := Pack(source, dest, payload);
    assert s[1..33] == CodeField(source) && s[33..65] == CodeField(dest) && s[65..] == payload;
  }

  // ------------------------------------------------------------------ reading into a buffer

  // Reading a datagram overwrites the front of the buffer and leaves the rest.
  function Overlay(buf: seq<byte>, datagram: seq<byte>): seq<byte> {
    var n := Min(|buf|, |datagram|);
    datagram[..n] + buf[n..]
  }

  method ReadDatagram(buf: array<byte>, datagram: seq<byte>) returns (n: nat)
    modifies buf
    ensures n == Min(buf.Length, |datagram|) && buf[..] == Overlay(old(buf[..]), datagram)
  {
    n := Min(buf.Length, |datagram|);
    forall i | 0 <= i < n {
      buf[i] := datagram[i];
    }
  }

  // ------------------------------------------------------------------ the daemon's side

  datatype Verdict = Panic | VersionMismatch | TooSmall | NotMine | Malformed | Accepted(source: seq<byte>, body: Option<Body>)

  // The checks on a datagram, in the order made; an empty one is indexed before its length is looked at.
  function Receive(mine: seq<byte>, s: seq<byte>): Verdict {
    if s == [] then Panic
    else if s[0] != VERSION then VersionMismatch
    else if |s| < HEADER_SIZE then TooSmall
    else if Unpack(s).destination != mine then NotMine
    else
      var (body, ok) := DecodeFrame(s[HEADER_SIZE..]);
      if ok then Accepted(Unpack(s).source, body) else Malformed
  }

  /** What a client packs for a daemon, that daemon and no other accepts, and recovers exactly. */
  lemma DaemonReceivesWhatWasPacked(source: seq<byte>, dest: seq<byte>, mine: seq<byte>, x: Option<Body>)
    requires |source| == |dest| == |mine| == CODE_SIZE && Fits(x) && (x.Some? ==> RequiredSet(x.value))
    ensures Receive(mine, Pack(source, dest, EncodeFrame(x))) == if dest == mine then Accepted(source, x) else NotMine
  {
    UnpackUndoesPack(source, dest, EncodeFrame(x));
    FrameRoundTrip(x, []);
    assert EncodeFrame(x) + [] == EncodeFrame(x);
  }

  /** Whatever arrives: the version is looked at first, then the length, then the destination, bytes 33 to 64,
      and only then the frame. */
  lemma ReceiveSorts(mine: seq<byte>, s: seq<byte>)
    requires |mine| == CODE_SIZE
    ensures var v := Receive(mine, s);
            && (v.VersionMismatch? <==> s != [] && s[0] != 1)
            && (v.TooSmall? <==> s != [] && s[0] == 1 && |s| < 65)
            && (v.NotMine? <==> |s| >= 65 && s[0] == 1 && exists i :: 0 <= i < 32 && s[33 + i] != mine[i])
            && (v.Accepted? ==> v.source == s[1..33] && v.body == DecodeFrame(s[65..]).0)
            && (v.Accepted? <==> |s| >= 65 && s[0] == 1 && (forall i :: 0 <= i < 32 ==> s[33 + i] == mine[i]) && DecodeFrame(s[65..]).1)
  {
    hide DecodeFrame;
    if |s| >= 65 {
      assert s[33..65] == mine <==> forall i :: 0 <= i < 32 ==> s[33..65][i] == mine[i];
      assert forall i :: 0 <= i < 32 ==> s[33..65][i] == s[33 + i];
    }
  }

  // What one read of the daemon's socket brings: a datagram, an error that is passed over, or one that
  // ends the loop.
  datatype Arrival = Arrived(datagram: seq<byte>) | ConnectionRefused | Broken

  // A datagram longer than the buffer is cut.
  function VerdictOn(mine: seq<byte>, a: Arrival): seq<Verdict> {
    if a.Arrived? then [Receive(mine, a.datagram[..Min(|a.datagram|, DATAGRAM_SIZE)])] else []
  }

  // What comes of the datagrams up to the error that ends the loop; nothing of an earlier one plays a part.
  function Verdicts(mine: seq<byte>, arrivals: seq<Arrival>): seq<Verdict> {
    if arrivals == [] || arrivals[0].Broken? then [] else VerdictOn(mine, arrivals[0]) + Verdicts(mine, arrivals[1..])
  }

  /** Each arrival by itself, whatever came before and comes after: a datagram is judged on its first 1500
      bytes, a refused connection is passed over, and any other error is the end. */
  lemma {:induction false} EachArrivalByItself(mine: seq<byte>, before: seq<Arrival>, a: Arrival, after: seq<Arrival>)
    requires forall x :: x in before ==> !x.Broken?
    ensures Verdicts(mine, before + [a] + after) == Verdicts(mine, before) +
            match a
            case Arrived(d) => [Receive(mine, if |d| <= 1500 then d else d[..1500])] + Verdicts(mine, after)
            case ConnectionRefused => Verdicts(mine, after)
            case Broken => []
    decreases |before|
  {
    hide Receive;
    var all := before + [a] + after;
    if before == [] {
      assert all[1..] == after;
      assert a.Arrived? && |a.datagram| <= 1500 ==> a.datagram[..|a.datagram|] == a.datagram;
    } else {
      assert all[1..] == before[1..] + [a] + after;
      EachArrivalByItself(mine, before[1..], a, after);
    }
  }

  /** A datagram crashes its handling exactly when it is empty; the crash is recovered, and whatever arrives
      before and after is judged as if the empty one had not come. */
  lemma OnlyEmptyDatagramsCrash(mine: seq<byte>, s: seq<byte>, before: seq<Arrival>, after: seq<Arrival>)
    requires forall a :: a in before ==> !a.Broken?
    ensures Receive(mine, s).Panic? <==> s == []
    ensures Verdicts(mine, before + [Arrived([])] + after) == Verdicts(mine, before) + [Panic] + Verdicts(mine, after)
  {
    hide DecodeFrame, Verdicts;
    EachArrivalByItself(mine, before, Arrived([]), after);
  }

  method HandleArrival(mine: seq<byte>, receiveBuf: array<byte>, a: Arrival) returns (v: seq<Verdict>)
    requires receiveBuf.Length == DATAGRAM_SIZE
    modifies receiveBuf
    ensures v == VerdictOn(mine, a)
  {
    if !a.Arrived? {
      return [];
    }
    var n := ReadDatagram(receiveBuf, a.datagram);
    assert receiveBuf[..n] == receiveBuf[..][..n] == a.datagram[..n];
    v := [Receive(mine, receiveBuf[..n])];
  }

  /** The daemon's loop: one buffer, never cleared, is read into again and again. */
  method DaemonLoop(mine: seq<byte>, arrivals: seq<Arrival>) returns (verdicts: seq<Verdict>)
    ensures verdicts == Verdicts(mine, arrivals)
  {
    hide VerdictOn;
    var receiveBuf := new byte[DATAGRAM_SIZE](_ => 0);
    verdicts := [];
    var i := 0;
    while i < |arrivals| && !arrivals[i].Broken?
      invariant 0 <= i <= |arrivals|
      invariant Verdicts(mine, arrivals) == verdicts + Verdicts(mine, arrivals[i..])
    {
      assert arrivals[i..][1..] == arrivals[i + 1..];
      var v := HandleArrival(mine, receiveBuf, arrivals[i]);
      verdicts := verdicts + v;
      i := i + 1;
    }
  }

  // ------------------------------------------------------------------ the client's buffer

  // The second datagram followed by nothing but zeros.
  predicate Clean(buf: seq<byte>, datagram: seq<byte>) {
    datagram <= buf && AllZero(buf[|datagram|..])
  }

  /** After two datagrams the buffer holds the second one cleanly exactly when what the first left behind
      it is all zeros; that is so whenever the second is at least as long. */
  lemma SecondReadIsCleanIff(first: seq<byte>, second: seq<byte>)
    requires |first| <= DATAGRAM_SIZE && |second| <= DATAGRAM_SIZE
    ensures var buf := Overlay(Overlay(seq(DATAGRAM_SIZE, _ => 0), first), second);
            && (Clean(buf, second) <==> |first| <= |second| || AllZero(first[|second|..]))
  {
    var once := Overlay(seq(DATAGRAM_SIZE, _ => 0), first);
    var buf := Overlay(once, second);
    assert buf[..|second|] == second;
    assert forall i :: |second| <= i < DATAGRAM_SIZE ==> buf[i] == if i < |first| then first[i] else 0;
    assert buf[|second|..] == once[|second|..];
    if |first| > |second| {
      assert forall i :: 0 <= i < |first| - |second| ==> first[|second|..][i] == buf[|second|..][i];
    }
  }

  // What an honest daemon sends: a challenge with a 32-byte token and an empty payload, then a
  // confirmation with the token, a 12-byte nonce and a sealed result (16 bytes longer than the result).
  const TOKEN_SIZE := 32
  const NONCE_SIZE := 12
  const SEAL_OVERHEAD := 16

  predicate HonestChallenge(b: Body) {
    b.Challenge? && b.token.Some? && |b.token.value| == TOKEN_SIZE && b.payload == Some([])
  }

  predicate HonestConfirm(b: Body) {
    && b.Confirm? && b.token.Some? && b.nonce.Some? && b.payload.Some?
    && |b.token.value| == TOKEN_SIZE && |b.nonce.value| == NONCE_SIZE
    && 43 <= |b.payload.value| < DATAGRAM_SIZE
  }

  // The shortest results: a refusal with its message, or an acceptance with a pair ID of 64 characters.
  predicate HonestResult(r: Result) {
    if r.ok then r.pairID.Some? && |r.pairID.value| == 64
    else r.message.Some? && |r.message.value| == |"failed permission check"|
  }

  lemma SizeOfConcat(fs: seq<Field>, gs: seq<Field>)
    ensures SizeFields(fs + gs) == SizeFields(fs) + SizeFields(gs)
  {
    if fs == [] {
      assert fs + gs == gs;
    } else {
      assert (fs + gs)[1..] == fs[1..] + gs;
      SizeOfConcat(fs[1..], gs);
    }
  }

  lemma SizeOfBytes(num: nat, b: seq<byte>)
    requires num < 16
    ensures SizeFields(BytesField(num, Some(b))) == 1 + SizeVarint(|b|) + |b|
  {
    assert BytesField(num, Some(b))[1..] == [];
  }

  /** A sealed honest result is at least 43 bytes long. */
  lemma SealedResultSize(r: Result)
    requires HonestResult(r) && AllEncodable(ResultFields(r))
    ensures |EncodeFields(ResultFields(r))| + SEAL_OVERHEAD >= 43
  {
    var a, b, c, d, e := VarintField(1, BoolVarint(Some(r.ok))), BytesField(2, r.message), BytesField(3, r.signature),
                         BytesField(4, r.relay), BytesField(5, r.pairID);
    SizesAgree(ResultFields(r));
    SizeOfConcat(a, b + (c + (d + e)));
    SizeOfConcat(b, c + (d + e));
    SizeOfConcat(c, d + e);
    SizeOfConcat(d, e);
    assert a[1..] == [];
    if r.ok { SizeOfBytes(5, r.pairID.value); } else { SizeOfBytes(2, r.message.value); }
  }

  lemma FrameSize(b: Body)
    requires Fits(Some(b))
    ensures var n := SizeFields(BodyFields(b)); |EncodeFrame(Some(b))| == 1 + SizeVarint(n) + n
  {
    SizesAgree(FrameFields(Some(b)));
    SizesAgree(BodyFields(b));
    SizeOfBytes(BodyNumber(b), EncodeFields(BodyFields(b)));
  }

  /** An honest challenge is always 38 bytes, an honest confirmation at least 95. */
  lemma HonestSizes(b: Body)
    requires Fits(Some(b))
    ensures HonestChallenge(b) ==> |EncodeFrame(Some(b))| == 38
    ensures HonestConfirm(b) ==> |EncodeFrame(Some(b))| >= 95
  {
    FrameSize(b);
    if HonestChallenge(b) {
      SizeOfConcat(BytesField(1, b.token), BytesField(2, b.payload));
      SizeOfBytes(1, b.token.value);
      SizeOfBytes(2, []);
    } else if HonestConfirm(b) {
      SizeOfConcat(BytesField(1, b.token), BytesField(2, b.nonce) + BytesField(3, b.payload));
      SizeOfConcat(BytesField(2, b.nonce), BytesField(3, b.payload));
      SizeOfBytes(1, b.token.value);
      SizeOfBytes(2, b.nonce.value);
      SizeOfBytes(3, b.payload.value);
    }
  }

  lemma DecodeClean(buf: seq<byte>, source: seq<byte>, dest: seq<byte>, b: Body)
    requires Fits(Some(b)) && Clean(buf, Pack(source, dest, EncodeFrame(Some(b))))
    ensures |buf| >= HEADER_SIZE && DecodeFrame(buf[HEADER_SIZE..]).0 == Some(b)
  {
    var s := Pack(source, dest, EncodeFrame(Some(b)));
    UnpackUndoesPack(source, dest, EncodeFrame(Some(b)));
    var tail := buf[|s|..];
    assert buf == s + tail;
    assert buf[HEADER_SIZE..] == EncodeFrame(Some(b)) + tail;
    FrameRoundTrip(Some(b), tail);
  }

  /** The two reads of the client: without ever clearing the buffer it recovers exactly the challenge and
      then exactly the confirmation. */
  method ReceiveTwice(from: seq<byte>, me: seq<byte>, challenge: Body, confirm: Body)
    returns (first: Option<Body>, second: Option<Body>)
    requires HonestChallenge(challenge) && HonestConfirm(confirm) && Fits(Some(challenge)) && Fits(Some(confirm))
    requires |Pack(from, me, EncodeFrame(Some(confirm)))| <= DATAGRAM_SIZE
    ensures first == Some(challenge) && second == Some(confirm)
  {
    HonestSizes(challenge);
    HonestSizes(confirm);
    var p1 := ConstructTransferPacker(from, me, EncodeFrame(Some(challenge)));
    var p2 := ConstructTransferPacker(from, me, EncodeFrame(Some(confirm)));
    var receiveBuf := new byte[DATAGRAM_SIZE](_ => 0);
    ghost var zeros := receiveBuf[..];
    assert zeros == seq(DATAGRAM_SIZE, _ => 0);
    var n := ReadDatagram(receiveBuf, p1[..]);
    assert Clean(receiveBuf[..], p1[..]);
    DecodeClean(receiveBuf[..], from, me, challenge);
    first := DecodeFrame(receiveBuf[HEADER_SIZE..]).0;
    assert receiveBuf[HEADER_SIZE..] == receiveBuf[..][HEADER_SIZE..];
    n := ReadDatagram(receiveBuf, p2[..]);
    SecondReadIsCleanIff(p1[..], p2[..]);
    DecodeClean(receiveBuf[..], from, me, confirm);
    second := DecodeFrame(receiveBuf[HEADER_SIZE..]).0;
    assert receiveBuf[HEADER_SIZE..] == receiveBuf[..][HEADER_SIZE..];
  }
}
