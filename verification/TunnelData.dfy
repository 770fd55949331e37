/**
 The bytes of a port-forward session. Each open pairing runs two pumps: one moves bytes from its TCP
 connection to its stream, the other from its stream to its TCP connection. A pump reads at most 2048
 bytes into its buffer and writes the buffer out in one or more pieces. Pumps, control steps and the
 applications on both sides interleave freely; a pump may stop at any point with bytes in its buffer.
 */
module TunnelData {
  import opened Wrappers
  import opened Tunnel
  import opened CommandStream
  import Pumps
  import TunnelTheorems

  datatype Endpoint = ClientSide(c: nat) | DestSide(d: nat)

  // One TCP connection: what its application sent and received, and the two pumps' positions.
  datatype Port = Port(
    sent: seq<byte>, taken: nat, outBuf: seq<byte>,
    got: seq<byte>, drained: nat, inBuf: seq<byte>)

  // The bytes ever written to a stream in one direction.
  datatype Wire = Wire(stream: nat, towardsServer: bool)

  datatype Session = Session(ctl: State, ports: map<Endpoint, Port>, wires: map<Wire, seq<byte>>)

  const NewPort := Port([], 0, [], [], 0, [])
  const Start := Session(Init, map[], map[])

  function PortAt(s: Session, e: Endpoint): Port {
    if e in s.ports then s.ports[e] else NewPort
  }

  function WireAt(s: Session, w: Wire): seq<byte> {
    if w in s.wires then s.wires[w] else []
  }

  function PairingAt(m: Mux, e: Endpoint): Option<Pairing> {
    match e
    case ClientSide(c) => if c in m.cPairs then Some(m.cPairs[c]) else None
    case DestSide(d) => if d in m.sPairs then Some(m.sPairs[d]) else None
  }

  function StreamAt(m: Mux, e: Endpoint): Option<nat> {
    var p := PairingAt(m, e);
    if p.Some? then p.value.stream else None
  }

  // The direction an endpoint writes to on its stream, and the one it reads from.
  function OutWire(k: nat, e: Endpoint): Wire { Wire(k, e.ClientSide?) }

  function InWire(k: nat, e: Endpoint): Wire { Wire(k, e.DestSide?) }

  datatype Act =
    | Control(step: Step)
    | AppSends(e: Endpoint, bytes: seq<byte>)
    | PumpReads(e: Endpoint, n: nat)   // TCP connection to buffer
    | PumpWrites(e: Endpoint, n: nat)  // buffer to stream
    | DrainReads(e: Endpoint, n: nat)  // stream to buffer
    | DrainWrites(e: Endpoint, n: nat) // buffer to TCP connection

  // The pairing is open and has its stream, so both pumps may run.
  predicate Pumping(s: Session, e: Endpoint) {
    var p := PairingAt(s.ctl.mux, e);
    p.Some? && p.value.open && p.value.stream.Some?
  }

  function Incoming(s: Session, e: Endpoint): seq<byte> {
    var k := StreamAt(s.ctl.mux, e);
    if k.None? then [] else WireAt(s, InWire(k.value, e))
  }

  function Outgoing(s: Session, e: Endpoint): seq<byte> {
    var k := StreamAt(s.ctl.mux, e);
    if k.None? then [] else WireAt(s, OutWire(k.value, e))
  }

  // A move that leaves the streams alone: it changes one port only.
  predicate Local(a: Act) { !a.Control? && !a.PumpWrites? }

  predicate LocalPossible(p: Port, a: Act, incoming: seq<byte>) {
    match a
    case PumpReads(_, n) => p.outBuf == [] && n <= Pumps.BUFFER_SIZE && p.taken + n <= |p.sent|
    case DrainReads(_, n) => p.inBuf == [] && n <= Pumps.BUFFER_SIZE && p.drained + n <= |incoming|
    case DrainWrites(_, n) => 0 < n <= |p.inBuf|
    case _ => true
  }

  function LocalMove(p: Port, a: Act, incoming: seq<byte>): Port
    requires LocalPossible(p, a, incoming)
  {
    match a
    case AppSends(_, bytes) => p.(sent := p.sent + bytes)
    case PumpReads(_, n) => p.(taken := p.taken + n, outBuf := p.sent[p.taken..p.taken + n])
    case DrainReads(_, n) => p.(drained := p.drained + n, inBuf := incoming[p.drained..p.drained + n])
    case DrainWrites(_, n) => p.(got := p.got + p.inBuf[..n], inBuf := p.inBuf[n..])
    case _ => p
  }

  predicate Possible(s: Session, a: Act) {
    match a
    case Control(step) => Can(s.ctl, step)
    case PumpWrites(e, n) => Pumping(s, e) && 0 < n <= |PortAt(s, e).outBuf|
    case AppSends(_, _) => true
    case PumpReads(e, _) => Pumping(s, e) && LocalPossible(PortAt(s, e), a, Incoming(s, e))
    case DrainReads(e, _) => Pumping(s, e) && LocalPossible(PortAt(s, e), a, Incoming(s, e))
    case DrainWrites(e, _) => Pumping(s, e) && LocalPossible(PortAt(s, e), a, Incoming(s, e))
  }

  function Do(s: Session, a: Act): Session
    requires Possible(s, a)
  {
    match a
    case Control(step) => s.(ctl := Apply(s.ctl, step))
    case PumpWrites(e, n) =>
      var w, bytes := OutWire(StreamAt(s.ctl.mux, e).value, e), PortAt(s, e).outBuf;
      s.(ports := s.ports[e := PortAt(s, e).(outBuf := bytes[n..])], wires := s.wires[w := WireAt(s, w) + bytes[..n]])
    case _ => s.(ports := s.ports[a.e := LocalMove(PortAt(s, a.e), a, Incoming(s, a.e))])
  }

  predicate IsHistory(s: Session, acts: seq<Act>)
    decreases |acts|
  {
    acts == [] || (Possible(s, acts[0]) && IsHistory(Do(s, acts[0]), acts[1..]))
  }

  function Play(s: Session, acts: seq<Act>): Session
    requires IsHistory(s, acts)
    decreases |acts|
  {
    if acts == [] then s else Play(Do(s, acts[0]), acts[1..])
  }

  // ------------------------------------------------------------------ invariant

  // What the pumps of one endpoint have moved so far, given its stream's two directions.
  predicate Moved(p: Port, paired: bool, outgoing: seq<byte>, incoming: seq<byte>) {
    && p.taken <= |p.sent|
    && (if paired then
          && p.sent[..p.taken] == outgoing + p.outBuf
          && p.drained <= |incoming|
          && incoming[..p.drained] == p.got + p.inBuf
        else
          p.taken == 0 && p.outBuf == [] && p.got == [] && p.drained == 0 && p.inBuf == [])
  }

  predicate PortInv(s: Session, e: Endpoint) {
    Moved(PortAt(s, e), StreamAt(s.ctl.mux, e).Some?, Outgoing(s, e), Incoming(s, e))
  }

  // Nothing is on a stream before its opener, or its acceptor, writes to it.
  ghost predicate FreshWires(s: Session) {
    && (forall k: nat :: k >= |s.ctl.mux.streams| ==> WireAt(s, Wire(k, true)) == [])
    && (forall k: nat :: k !in s.ctl.mux.takers ==> WireAt(s, Wire(k, false)) == [])
  }

  ghost predicate DataInv(s: Session) {
    FreshWires(s) && forall e :: PortInv(s, e)
  }

  // No other endpoint writes to the stream this one writes to in the same direction.
  ghost predicate OwnWire(m: Mux, e: Endpoint) {
    StreamAt(m, e).Some? ==>
      var w := OutWire(StreamAt(m, e).value, e);
      && (if w.towardsServer then w.stream < |m.streams| else w.stream in m.takers)
      && (forall f :: f != e && StreamAt(m, f).Some? ==> OutWire(StreamAt(m, f).value, f) != w)
  }

  lemma WritersDiffer(server: ServerEnd, phase: Phase, m: Mux, e: Endpoint)
    requires OpenerInv(phase, m) && AcceptorInv(server, m)
    ensures OwnWire(m, e)
  {
  }

  // A control step changes at most one endpoint's stream, from none to a fresh one.
  ghost predicate FreshStream(m: Mux, m': Mux, e: Endpoint) {
    var k, k' := StreamAt(m, e), StreamAt(m', e);
    || k' == k
    || (k.None? && e.ClientSide? && k' == Some(|m.streams|))
    || (k.None? && e.DestSide? && k'.Some? && k'.value !in m.takers)
  }

  lemma ClientKeepsStreams(s: State, step: ClientStep, e: Endpoint)
    requires WireInv(s.client, s.server) && OwnerInv(s) && ClientCan(s.client, step, s.server.log)
    ensures FreshStream(s.mux, Apply(s, ClientMoves(step)).mux, e)
  {
    MoveShape(s, step);
    if MoveOf(s, step).Hand? {
      PendingIsUnpaired(s, MoveOf(s, step).conn);
    }
  }

  lemma ServerKeepsStreams(s: State, step: ServerStep, k: nat, e: Endpoint)
    requires AcceptorInv(s.server, s.mux) && Can(s, ServerMoves(step, k))
    ensures FreshStream(s.mux, Apply(s, ServerMoves(step, k)).mux, e)
  {
    if step.Act? {
      assert s.server.todo[0] in s.server.todo;
    }
  }

  lemma ControlKeepsStreams(s: State, step: Step, e: Endpoint)
    requires Inv(s) && Can(s, step)
    ensures FreshStream(s.mux, Apply(s, step).mux, e)
  {
    hide WireInv, OwnerInv, OpenerInv, AcceptorInv, CountInv, ClientDoes, ServerDoes;
    match step
    case ClientMoves(c) => ClientKeepsStreams(s, c, e);
    case ServerMoves(v, k) => ServerKeepsStreams(s, v, k, e);
    case _ =>
  }

  lemma ControlGrowsMux(s: State, step: Step)
    requires Can(s, step)
    ensures |s.mux.streams| <= |Apply(s, step).mux.streams|
    ensures s.mux.takers.Keys <= Apply(s, step).mux.takers.Keys
  {
  }

  lemma PortAfterControl(s: Session, ctl: State, e: Endpoint)
    requires FreshWires(s) && PortInv(s, e) && FreshStream(s.ctl.mux, ctl.mux, e)
    ensures PortInv(s.(ctl := ctl), e)
  {
  }

  lemma ControlKeepsData(s: Session, step: Step)
    requires Inv(s.ctl) && DataInv(s) && Can(s.ctl, step)
    ensures DataInv(Do(s, Control(step)))
  {
    ControlGrowsMux(s.ctl, step);
    forall e
      ensures PortInv(Do(s, Control(step)), e)
    {
      ControlKeepsStreams(s.ctl, step, e);
      PortAfterControl(s, Apply(s.ctl, step), e);
    }
  }

  // Every move of one port keeps account of its bytes.
  lemma MovedAfterLocal(p: Port, a: Act, paired: bool, outgoing: seq<byte>, incoming: seq<byte>)
    requires Moved(p, paired, outgoing, incoming) && Local(a) && LocalPossible(p, a, incoming)
    requires paired || a.AppSends?
    ensures Moved(LocalMove(p, a, incoming), paired, outgoing, incoming)
  {
    match a
    case AppSends(_, bytes) =>
      assert (p.sent + bytes)[..p.taken] == p.sent[..p.taken];
    case PumpReads(_, n) =>
      assert p.sent[..p.taken + n] == p.sent[..p.taken] + p.sent[p.taken..p.taken + n];
      assert outgoing + [] == outgoing;
    case DrainReads(_, n) =>
      assert incoming[..p.drained + n] == incoming[..p.drained] + incoming[p.drained..p.drained + n];
      assert p.got + [] == p.got;
    case DrainWrites(_, n) =>
      assert p.got + p.inBuf == (p.got + p.inBuf[..n]) + p.inBuf[n..];
  }

  lemma MovedAfterPumpWrite(p: Port, outgoing: seq<byte>, incoming: seq<byte>, n: nat)
    requires Moved(p, true, outgoing, incoming) && n <= |p.outBuf|
    ensures Moved(p.(outBuf := p.outBuf[n..]), true, outgoing + p.outBuf[..n], incoming)
  {
    assert outgoing + p.outBuf == (outgoing + p.outBuf[..n]) + p.outBuf[n..];
  }

  // A peer that writes more does not disturb what was already read.
  lemma MovedAfterPeerWrite(p: Port, outgoing: seq<byte>, incoming: seq<byte>, more: seq<byte>)
    requires Moved(p, true, outgoing, incoming)
    ensures Moved(p, true, outgoing, incoming + more)
  {
    assert (incoming + more)[..p.drained] == incoming[..p.drained];
  }

  // A local move changes one port, and no stream.
  lemma LocalShape(s: Session, a: Act, f: Endpoint)
    requires Possible(s, a) && Local(a)
    ensures LocalPossible(PortAt(s, a.e), a, Incoming(s, a.e)) && (a.AppSends? || StreamAt(s.ctl.mux, a.e).Some?)
    ensures var s' := Do(s, a);
            && s'.ctl == s.ctl && Incoming(s', f) == Incoming(s, f) && Outgoing(s', f) == Outgoing(s, f)
            && PortAt(s', f) == if f == a.e then LocalMove(PortAt(s, f), a, Incoming(s, f)) else PortAt(s, f)
  {
    hide LocalMove;
  }

  lemma LocalKeepsPort(s: Session, a: Act, f: Endpoint)
    requires PortInv(s, f) && Possible(s, a) && Local(a)
    ensures PortInv(Do(s, a), f)
  {
    hide Moved, Possible, Do, LocalMove, LocalPossible, PortAt, Incoming, Outgoing;
    LocalShape(s, a, f);
    if f == a.e {
      MovedAfterLocal(PortAt(s, f), a, StreamAt(s.ctl.mux, f).Some?, Outgoing(s, f), Incoming(s, f));
    }
  }

  lemma LocalKeepsData(s: Session, a: Act)
    requires DataInv(s) && Possible(s, a) && Local(a)
    ensures DataInv(Do(s, a))
  {
    hide PortInv, LocalMove, LocalPossible;
    forall f
      ensures PortInv(Do(s, a), f)
    {
      LocalKeepsPort(s, a, f);
    }
  }

  lemma PumpWriteKeepsData(s: Session, e: Endpoint, n: nat)
    requires DataInv(s) && Possible(s, PumpWrites(e, n))
    requires OwnWire(s.ctl.mux, e)
    ensures DataInv(Do(s, PumpWrites(e, n)))
  {
    var s', p := Do(s, PumpWrites(e, n)), PortAt(s, e);
    assert PortInv(s, e);
    MovedAfterPumpWrite(p, Outgoing(s, e), Incoming(s, e), n);
    assert PortInv(s', e);
    forall f | f != e
      ensures PortInv(s', f)
    {
      assert PortInv(s, f);
      if StreamAt(s.ctl.mux, f).Some? {
        MovedAfterPeerWrite(PortAt(s, f), Outgoing(s, f), Incoming(s, f), p.outBuf[..n]);
      }
    }
  }

  lemma ActKeepsData(s: Session, a: Act)
    requires Inv(s.ctl) && DataInv(s) && Possible(s, a)
    ensures DataInv(Do(s, a))
  {
    match a
    case Control(step) => ControlKeepsData(s, step);
    case PumpWrites(e, n) =>
      WritersDiffer(s.ctl.server, s.ctl.client.phase, s.ctl.mux, e);
      PumpWriteKeepsData(s, e, n);
    case _ => LocalKeepsData(s, a);
  }

  lemma {:induction false} HistoryKeepsData(s: Session, acts: seq<Act>)
    requires Inv(s.ctl) && DataInv(s) && IsHistory(s, acts)
    ensures Inv(Play(s, acts).ctl) && DataInv(Play(s, acts))
    decreases |acts|
  {
    if acts != [] {
      ActKeepsData(s, acts[0]);
      if acts[0].Control? { StepKeepsInv(s.ctl, acts[0].step); }
      HistoryKeepsData(Do(s, acts[0]), acts[1..]);
    }
  }

  ghost predicate Reachable(s: Session) {
    exists acts :: IsHistory(Start, acts) && Play(Start, acts) == s
  }

  lemma ReachableData(s: Session)
    requires Reachable(s)
    ensures Inv(s.ctl) && DataInv(s)
  {
    var acts :| IsHistory(Start, acts) && Play(Start, acts) == s;
    InitInv();
    HistoryKeepsData(Start, acts);
  }

  // ------------------------------------------------------------------ theorems

  // Where the bytes taken from one end of a matched pair are: delivered, or in one of the two pump
  // buffers, or on the stream between them.
  predicate Conserved(from: Port, to: Port, wire: seq<byte>) {
    && from.taken <= |from.sent| && to.drained <= |wire|
    && from.sent[..from.taken] == to.got + to.inBuf + wire[to.drained..] + from.outBuf
  }

  lemma OneDirection(p: Port, q: Port, w: seq<byte>, back: seq<byte>)
    requires Moved(p, true, w, back) && Moved(q, true, back, w)
    ensures Conserved(p, q, w) && q.got <= p.sent
  {
    assert w == w[..q.drained] + w[q.drained..];
    assert p.sent[..p.taken] == q.got + (q.inBuf + w[q.drained..] + p.outBuf);
    assert p.sent == p.sent[..p.taken] + p.sent[p.taken..];
  }

  /** For a matched pair, in each direction, every byte taken from one end is accounted for, in order:
      what the other end received is a prefix of what was sent, and the rest is in flight. */
  lemma BytesAreConserved(s: Session, c: nat, d: nat)
    requires Reachable(s) && TunnelTheorems.Matched(s.ctl.mux, c, d)
    ensures var m, p, q := s.ctl.mux, PortAt(s, ClientSide(c)), PortAt(s, DestSide(d));
            && q.got <= p.sent && p.got <= q.sent
            && (exists k :: StreamAt(m, ClientSide(c)) == Some(k) == StreamAt(m, DestSide(d))
                  && Conserved(p, q, WireAt(s, Wire(k, true))) && Conserved(q, p, WireAt(s, Wire(k, false))))
  {
    hide WireInv, OwnerInv, CountInv, Conserved;
    ReachableData(s);
    var m := s.ctl.mux;
    var k: nat :| k < |m.streams| && m.streams[k] == ForConnection(c) && k in m.takers && m.takers[k] == ByConnection(d);
    var p, q, up, down := PortAt(s, ClientSide(c)), PortAt(s, DestSide(d)), WireAt(s, Wire(k, true)), WireAt(s, Wire(k, false));
    assert PortInv(s, ClientSide(c)) && PortInv(s, DestSide(d));
    OneDirection(p, q, up, down);
    OneDirection(q, p, down, up);
    assert StreamAt(m, ClientSide(c)) == Some(k) == StreamAt(m, DestSide(d));
  }

  /** No byte crosses between pairs: whatever a destination received was sent by the one client
      connection it is matched with, and whatever a client connection received was sent by the one
      destination it is matched with. */
  lemma NoByteCrosses(s: Session)
    requires Reachable(s)
    ensures forall d :: PortAt(s, DestSide(d)).got != [] ==>
              exists c :: TunnelTheorems.Matched(s.ctl.mux, c, d) && PortAt(s, DestSide(d)).got <= PortAt(s, ClientSide(c)).sent
    ensures forall c :: PortAt(s, ClientSide(c)).got != [] ==>
              exists d :: TunnelTheorems.Matched(s.ctl.mux, c, d) && PortAt(s, ClientSide(c)).got <= PortAt(s, DestSide(d)).sent
  {
    ReachableData(s);
    var m := s.ctl.mux;
    forall d | PortAt(s, DestSide(d)).got != []
      ensures exists c :: TunnelTheorems.Matched(m, c, d) && PortAt(s, DestSide(d)).got <= PortAt(s, ClientSide(c)).sent
    {
      assert PortInv(s, DestSide(d));
      var k := StreamAt(m, DestSide(d)).value;
      assert m.takers[k] == ByConnection(d) && m.streams[k].ForConnection?;
      BytesAreConserved(s, m.streams[k].conn, d);
    }
    forall c | PortAt(s, ClientSide(c)).got != []
      ensures exists d :: TunnelTheorems.Matched(m, c, d) && PortAt(s, ClientSide(c)).got <= PortAt(s, DestSide(d)).sent
    {
      assert PortInv(s, ClientSide(c));
      var k := StreamAt(m, ClientSide(c)).value;
      assert k in m.takers && m.streams[k] == ForConnection(c);
      BytesAreConserved(s, c, m.takers[k].conn);
    }
  }
}
