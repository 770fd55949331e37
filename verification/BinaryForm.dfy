/**
 The symbolic messages of the signalling exchange, written out as datagrams. What a participant makes of
 the bytes is what the symbolic model says it makes of the message.
 */
module BinaryForm {
  import opened Wrappers
  import opened Wire
  import D = Daemon
  import E = ExchangeCodec
  import TransferFrame

  // How the values of the symbolic model look in bytes, and how they are read back; sealing under the key
  // of a username, and the nonce made of a token and a sender's nonce.
  datatype Rendering = Rendering(
    bytes: nat -> seq<byte>, number: seq<byte> -> nat,
    text: string -> seq<byte>, unText: seq<byte> -> string,
    url: D.Url -> seq<byte>, unUrl: seq<byte> -> D.Url,
    code: D.Address -> seq<byte>,
    seal: (string, seq<byte>, seq<byte>, seq<byte>) -> seq<byte>,
    open: (string, seq<byte>, seq<byte>, seq<byte>) -> Option<seq<byte>>)

  // Reading back undoes writing; transfer codes have 32 bytes; a sealed text opens under its own username,
  // token and nonce only.
  ghost predicate Faithful(r: Rendering) {
    && (forall n :: r.number(r.bytes(n)) == n)
    && (forall s :: r.unText(r.text(s)) == s)
    && (forall u :: r.unUrl(r.url(u)) == u)
    && (forall a :: |r.code(a)| == TransferFrame.CODE_SIZE)
    && (forall u, t, n, u', t', n', p ::
          r.open(u, t, n, r.seal(u', t', n', p)) == if u == u' && t == t' && n == n' then Some(p) else None)
  }

  // The codes of these two do not collide.
  predicate Apart(r: Rendering, a: D.Address, b: D.Address) { r.code(a) == r.code(b) ==> a == b }

  function Map<A, B>(f: A -> B, x: Option<A>): Option<B> {
    if x.None? then None else Some(f(x.value))
  }

  // ------------------------------------------------------------------ writing

  function IntentionToWire(r: Rendering, i: D.Intention): E.Intention {
    match i
    case PipeOut => E.PipeOut
    case PortForwardTo(h, p) => E.PortForwardTo(r.text(h), p)
    case PortForwardFrom(h, p) => E.PortForwardFrom(r.text(h), p)
  }

  function RequestToWire(r: Rendering, pairKey: nat, i: Option<D.Intention>): E.Request {
    E.Request(r.bytes(pairKey), None, if i.None? then None else Some(IntentionToWire(r, i.value)))
  }

  function ResultToWire(r: Rendering, p: D.Plain): E.Result
    requires p.Result?
  {
    E.Result(p.ok, Map(r.text, p.message), Map(r.text, p.signature), Map(r.url, p.relay), Map(r.bytes, p.pairID))
  }

  function PlainFields(r: Rendering, p: D.Plain): seq<Field> {
    match p
    case Request(pairKey, i) => E.RequestFields(RequestToWire(r, pairKey, i))
    case Result(_, _, _, _, _) => E.ResultFields(ResultToWire(r, p))
  }

  function SealedBytes(r: Rendering, c: D.Sealed): seq<byte> {
    r.seal(c.username, r.bytes(c.token), r.bytes(c.nonce), EncodeFields(PlainFields(r, c.plain)))
  }

  function BodyToWire(r: Rendering, b: D.Body): E.Body {
    match b
    case ChallengeRequest => E.ChallengeRequest
    case Challenge(t) => E.Challenge(Some(r.bytes(t)), Some([]))
    case ChallengeResponse(t, n, c) => E.ChallengeResponse(Some(r.bytes(t)), Some(r.bytes(n)), Some(SealedBytes(r, c)))
    case Confirm(t, n, c) => E.Confirm(Some(r.bytes(t)), Some(r.bytes(n)), Some(SealedBytes(r, c)))
  }

  function Datagram(r: Rendering, p: D.Packet): seq<byte> {
    TransferFrame.Pack(r.code(p.source), r.code(p.destination), E.EncodeFrame(Some(BodyToWire(r, p.body))))
  }

  // All lengths fit a length prefix of 64 bits.
  ghost predicate Sized(r: Rendering, b: D.Body) {
    && E.Fits(Some(BodyToWire(r, b)))
    && (b.ChallengeResponse? || b.Confirm? ==> PlainSized(r, b.payload.plain))
  }

  ghost predicate PlainSized(r: Rendering, p: D.Plain) {
    match p
    case Request(pairKey, i) => E.RequestFits(RequestToWire(r, pairKey, i))
    case Result(_, _, _, _, _) => AllEncodable(E.ResultFields(ResultToWire(r, p)))
  }

  // ------------------------------------------------------------------ reading

  // What becomes of a sealed payload: it does not open, it does not parse, or it says this.
  datatype Opened = Shut | Unparsed | Says(plain: D.Plain)

  function IntentionFromWire(r: Rendering, i: E.Intention): D.Intention {
    match i
    case PipeOut => D.PipeOut
    case PortForwardTo(ip, p) => D.PortForwardTo(r.unText(ip), p)
    case PortForwardFrom(ip, p) => D.PortForwardFrom(r.unText(ip), p)
  }

  function RequestFromWire(r: Rendering, q: E.Request): D.Plain {
    D.Request(r.number(q.pairKey), if q.intention.None? then None else Some(IntentionFromWire(r, q.intention.value)))
  }

  function ResultFromWire(r: Rendering, q: E.Result): D.Plain {
    D.Result(q.ok, Map(r.unText, q.message), Map(r.unText, q.signature), Map(r.unUrl, q.relay), Map(r.number, q.pairID))
  }

  function OpenRequest(r: Rendering, username: string, token: seq<byte>, nonce: seq<byte>, payload: seq<byte>): Opened {
    var plain := r.open(username, token, nonce, payload);
    if plain.None? then Shut
    else
      var q := E.DecodeRequest(plain.value);
      if q.None? then Unparsed else Says(RequestFromWire(r, q.value))
  }

  function OpenResult(r: Rendering, username: string, token: seq<byte>, nonce: seq<byte>, payload: seq<byte>): Opened {
    var plain := r.open(username, token, nonce, payload);
    if plain.None? then Shut
    else
      var q := E.DecodeResult(plain.value);
      if q.None? then Unparsed else Says(ResultFromWire(r, q.value))
  }

  // What a participant makes of a message: who sent it, and what it is about.
  datatype View =
    | NotMine
    | Rejected
    | Asked(source: seq<byte>)
    | Challenged(source: seq<byte>, token: nat)
    | Responded(source: seq<byte>, token: nat, said: Opened)
    | Confirmed(source: seq<byte>, token: nat, said: Opened)

  // Read off the bytes of a datagram, by one who has this username and listens to this transfer code.
  function ViewOfDatagram(r: Rendering, username: string, mine: seq<byte>, s: seq<byte>): View {
    match TransferFrame.Receive(mine, s)
    case NotMine => NotMine
    case Accepted(source, body) =>
      if body.None? || !E.RequiredSet(body.value) then Rejected
      else (match body.value
            case ChallengeRequest => Asked(source)
            case Challenge(t, _) => Challenged(source, r.number(t.value))
            case ChallengeResponse(t, n, p) =>
              Responded(source, r.number(t.value), OpenRequest(r, username, t.value, n.value, p.value))
            case Confirm(t, n, p) =>
              Confirmed(source, r.number(t.value), OpenResult(r, username, t.value, n.value, p.value)))
    case _ => Rejected
  }

  // The same in the symbolic model, where the daemon expects a request and the client a result.
  function OpenedIn(username: string, token: nat, nonce: nat, c: D.Sealed, request: bool): Opened {
    var plain := D.Unseal(username, token, nonce, c);
    if plain.None? then Shut else if plain.value.Request? != request then Unparsed else Says(plain.value)
  }

  function ViewOfPacket(r: Rendering, username: string, me: D.Address, p: D.Packet): View {
    if p.destination != me then NotMine
    else match p.body
      case ChallengeRequest => Asked(r.code(p.source))
      case Challenge(t) => Challenged(r.code(p.source), t)
      case ChallengeResponse(t, n, c) => Responded(r.code(p.source), t, OpenedIn(username, t, n, c, true))
      case Confirm(t, n, c) => Confirmed(r.code(p.source), t, OpenedIn(username, t, n, c, false))
  }

  // ------------------------------------------------------------------ both agree

  // A result does not parse as a request, nor a request as a result: they differ in the type of field 1.
  lemma KindsDoNotMix(q: E.Request, a: E.Result)
    ensures E.RequestFits(q) ==> E.DecodeResult(EncodeFields(E.RequestFields(q))).None?
    ensures AllEncodable(E.ResultFields(a)) ==> E.DecodeRequest(EncodeFields(E.ResultFields(a))).None?
  {
    if E.RequestFits(q) {
      ParseBack(E.RequestFields(q));
      E.RequestHasNoVarintOne(q);
    }
    if AllEncodable(E.ResultFields(a)) {
      ParseBack(E.ResultFields(a));
      E.ResultFieldsBack(a, 1);
    }
  }

  lemma ReadsBack(r: Rendering, p: D.Plain)
    requires Faithful(r) && PlainSized(r, p)
    ensures var s := EncodeFields(PlainFields(r, p));
            && (p.Request? ==> E.DecodeRequest(s) == Some(RequestToWire(r, p.pairKey, p.intention)) && E.DecodeResult(s).None?)
            && (p.Result? ==> E.DecodeResult(s) == Some(ResultToWire(r, p)) && E.DecodeRequest(s).None?)
  {
    match p
    case Request(pairKey, i) =>
      E.RequestRoundTrip(RequestToWire(r, pairKey, i));
      KindsDoNotMix(RequestToWire(r, pairKey, i), E.Result(true, None, None, None, None));
    case Result(_, _, _, _, _) =>
      E.ResultRoundTrip(ResultToWire(r, p));
      KindsDoNotMix(E.Request([], None, None), ResultToWire(r, p));
  }

  lemma WireGivesBack(r: Rendering, p: D.Plain)
    requires Faithful(r)
    ensures p.Request? ==> RequestFromWire(r, RequestToWire(r, p.pairKey, p.intention)) == p
    ensures p.Result? ==> ResultFromWire(r, ResultToWire(r, p)) == p
  {
  }

  lemma SealOpens(r: Rendering, username: string, token: nat, nonce: nat, c: D.Sealed)
    requires Faithful(r)
    ensures r.open(username, r.bytes(token), r.bytes(nonce), SealedBytes(r, c))
            == if D.Unseal(username, token, nonce, c).Some? then Some(EncodeFields(PlainFields(r, c.plain))) else None
  {
    hide PlainFields;
    assert r.bytes(token) == r.bytes(c.token) ==> token == c.token by { assert r.number(r.bytes(token)) == token; }
    assert r.bytes(nonce) == r.bytes(c.nonce) ==> nonce == c.nonce by { assert r.number(r.bytes(nonce)) == nonce; }
  }

  lemma OpensAsRequest(r: Rendering, username: string, token: nat, nonce: nat, c: D.Sealed)
    requires Faithful(r) && PlainSized(r, c.plain)
    ensures OpenRequest(r, username, r.bytes(token), r.bytes(nonce), SealedBytes(r, c)) == OpenedIn(username, token, nonce, c, true)
  {
    SealOpens(r, username, token, nonce, c);
    ReadsBack(r, c.plain);
    WireGivesBack(r, c.plain);
    hide PlainSized, PlainFields, SealedBytes, E.DecodeRequest, E.DecodeResult, EncodeFields;
    hide Faithful, RequestFromWire, RequestToWire, ResultFromWire, ResultToWire;
  }

  lemma OpensAsResult(r: Rendering, username: string, token: nat, nonce: nat, c: D.Sealed)
    requires Faithful(r) && PlainSized(r, c.plain)
    ensures OpenResult(r, username, r.bytes(token), r.bytes(nonce), SealedBytes(r, c)) == OpenedIn(username, token, nonce, c, false)
  {
    SealOpens(r, username, token, nonce, c);
    ReadsBack(r, c.plain);
    WireGivesBack(r, c.plain);
    hide PlainSized, PlainFields, SealedBytes, E.DecodeRequest, E.DecodeResult, EncodeFields;
    hide Faithful, RequestFromWire, RequestToWire, ResultFromWire, ResultToWire;
  }

  /** Written out as a datagram and read back, every packet is to its receiver, and to everyone else, what the
      symbolic model says: destination, source, kind, token, and what its sealed payload opens to. */
  lemma DatagramMeansPacket(r: Rendering, username: string, me: D.Address, p: D.Packet)
    requires Faithful(r) && Sized(r, p.body) && Apart(r, me, p.destination)
    ensures ViewOfDatagram(r, username, r.code(me), Datagram(r, p)) == ViewOfPacket(r, username, me, p)
  {
    TransferFrame.DaemonReceivesWhatWasPacked(r.code(p.source), r.code(p.destination), r.code(me), Some(BodyToWire(r, p.body)));
    hide OpenRequest, OpenResult, OpenedIn, E.EncodeFrame, TransferFrame.Receive, PlainSized, SealedBytes;
    match p.body
    case ChallengeRequest =>
    case Challenge(_) =>
    case ChallengeResponse(t, n, c) => OpensAsRequest(r, username, t, n, c);
    case Confirm(t, n, c) => OpensAsResult(r, username, t, n, c);
  }

  /** The daemon's reaction depends on a packet only through this view: two packets that it reads alike, from
      the same sender, make it do the same. */
  lemma DaemonGoesByTheView(r: Rendering, cfg: D.Config, tokens: map<nat, nat>, p: D.Packet, q: D.Packet, d: D.Draw)
    requires Apart(r, p.source, q.source)
    requires ViewOfPacket(r, cfg.username, D.Username(cfg.username), p) == ViewOfPacket(r, cfg.username, D.Username(cfg.username), q)
    ensures D.Handle(cfg, tokens, p, d) == D.Handle(cfg, tokens, q, d)
  {
  }
}
