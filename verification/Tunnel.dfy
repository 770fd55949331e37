/**
 The whole port-forward session: both ends of the command stream, the streams of the mux session, and
 the pairings on both sides. Accept may return any opened stream that it has not returned before, so
 nothing here depends on the order in which streams arrive.
 */
module Tunnel {
  import opened Wrappers
  import opened ForwardSignals
  import opened CommandStream

  // Who opened a stream, and which Accept returned it.
  datatype Opener = ForCommands | ForConnection(conn: nat)
  datatype Acceptor = ByCommands | ByConnection(conn: nat)

  // A pairing owns its TCP connection until it ends; the stream is set by its Open or Accept.
  datatype Pairing = Pairing(stream: Option<nat>, open: bool)

  datatype Mux = Mux(
    streams: seq<Opener>, takers: map<nat, Acceptor>,
    cPairs: map<nat, Pairing>, sPairs: map<nat, Pairing>, closed: set<nat>)

  datatype State = State(client: ClientEnd, server: ServerEnd, mux: Mux)

  const Init := State(ClientInit, ServerInit, Mux([], map[], map[], map[], {}))

  datatype Step =
    | ClientMoves(c: ClientStep)
    | ServerMoves(v: ServerStep, k: nat)  // k is the stream an Accept returns
    | OpenStream(conn: nat)
    | AcceptStream(dest: nat, k: nat)
    | EndClientPairing(conn: nat)
    | EndServerPairing(dest: nat)

  predicate Acceptable(m: Mux, k: nat) { k < |m.streams| && k !in m.takers }

  predicate Waiting(pairs: map<nat, Pairing>, c: nat) {
    c in pairs && pairs[c].open && pairs[c].stream.None?
  }

  predicate Can(s: State, step: Step) {
    match step
    case ClientMoves(c) => ClientCan(s.client, c, s.server.log)
    case ServerMoves(v, k) => ServerCan(s.server, v, s.client.log) && (v.Accept? ==> Acceptable(s.mux, k))
    case OpenStream(c) => Waiting(s.mux.cPairs, c)
    case AcceptStream(d, k) => Waiting(s.mux.sPairs, d) && Acceptable(s.mux, k)
    case EndClientPairing(c) => c in s.mux.cPairs && s.mux.cPairs[c].open
    case EndServerPairing(d) => d in s.mux.sPairs && s.mux.sPairs[d].open
  }

  function ClientEffect(m: Mux, step: ClientStep, fs: seq<Effect>): Mux {
    if step.Open? then m.(streams := m.streams + [ForCommands])
    else if fs == [] then m
    else match fs[0]
      case Send(_) => m
      case Pair(c) => m.(cPairs := m.cPairs[c := Pairing(None, true)])
      case Close(c) => m.(closed := m.closed + {c})
  }

  function ServerEffect(m: Mux, step: ServerStep, k: nat, fs: seq<Effect>): Mux {
    if step.Accept? then m.(takers := m.takers[k := ByCommands])
    else if fs != [] && fs[0].Pair? then m.(sPairs := m.sPairs[fs[0].conn := Pairing(None, true)])
    else m
  }

  function PairingMoves(m: Mux, step: Step): Mux {
    match step
    case OpenStream(c) =>
      m.(streams := m.streams + [ForConnection(c)], cPairs := m.cPairs[c := Pairing(Some(|m.streams|), true)])
    case AcceptStream(d, k) =>
      m.(takers := m.takers[k := ByConnection(d)], sPairs := m.sPairs[d := Pairing(Some(k), true)])
    case EndClientPairing(c) =>
      if c !in m.cPairs then m
      else m.(cPairs := m.cPairs[c := m.cPairs[c].(open := false)], closed := m.closed + {c})
    case EndServerPairing(d) =>
      if d !in m.sPairs then m else m.(sPairs := m.sPairs[d := m.sPairs[d].(open := false)])
    case _ => m
  }

  function Apply(s: State, step: Step): State
    requires Can(s, step)
  {
    match step
    case ClientMoves(c) =>
      var (end, fs) := ClientDoes(s.client, c, s.server.log);
      s.(client := end, mux := ClientEffect(s.mux, c, fs))
    case ServerMoves(v, k) =>
      var (end, fs) := ServerDoes(s.server, v, s.client.log);
      s.(server := end, mux := ServerEffect(s.mux, v, k, fs))
    case _ => s.(mux := PairingMoves(s.mux, step))
  }

  // A run is a sequence of steps, each possible where it is taken.
  predicate IsRun(s: State, run: seq<Step>)
    decreases |run|
  {
    run == [] || (Can(s, run[0]) && IsRun(Apply(s, run[0]), run[1..]))
  }

  function Exec(s: State, run: seq<Step>): State
    requires IsRun(s, run)
    decreases |run|
  {
    if run == [] then s else Exec(Apply(s, run[0]), run[1..])
  }

  // ------------------------------------------------------------------ counting answers

  function Agrees(log: seq<Item>): nat {
    if log == [] then 0 else Agrees(log[..|log| - 1]) + (if IsAgree(log[|log| - 1]) then 1 else 0)
  }

  function Refusals(log: seq<Item>): nat {
    if log == [] then 0 else Refusals(log[..|log| - 1]) + (if IsRefusal(log[|log| - 1]) then 1 else 0)
  }

  // An agreement is written, and its pairing is not started yet.
  function Due(v: ServerEnd): nat { if |v.todo| == 1 && v.todo[0].Pair? then 1 else 0 }

  // ------------------------------------------------------------------ ownership

  function B(b: bool): nat { if b then 1 else 0 }

  // In how many hands is TCP connection c of the client?
  function Owners(s: State, c: nat): nat {
    B(s.client.acceptor == Some(c)) + B(s.client.loop.pending == Some(c))
    + B(c in s.mux.cPairs && s.mux.cPairs[c].open) + B(c in s.mux.closed)
  }

  ghost predicate OwnerInv(s: State) {
    && (forall c: nat :: Owners(s, c) == B(c < s.client.accepted))
    && (forall c :: c in s.mux.cPairs && !s.mux.cPairs[c].open ==> c in s.mux.closed)
  }

  // ------------------------------------------------------------------ streams

  ghost predicate OpenerInv(phase: Phase, m: Mux) {
    && (|m.streams| == 0 <==> phase.Joining?)
    && (|m.streams| > 0 ==> m.streams[0] == ForCommands)
    && (forall k :: 1 <= k < |m.streams| ==>
          m.streams[k].ForConnection? && m.streams[k].conn in m.cPairs && m.cPairs[m.streams[k].conn].stream == Some(k))
    && (forall c :: c in m.cPairs && m.cPairs[c].stream.Some? ==>
          m.cPairs[c].stream.value < |m.streams| && m.streams[m.cPairs[c].stream.value] == ForConnection(c))
    && (m.cPairs != map[] ==> phase.Looping?)
  }

  ghost predicate AcceptorInv(server: ServerEnd, m: Mux) {
    && (forall k :: k in m.takers ==> k < |m.streams|)
    && (forall k :: k in m.takers && m.takers[k].ByCommands? ==> k == 0)
    && (forall k :: k in m.takers && m.takers[k].ByConnection? ==>
          m.takers[k].conn in m.sPairs && m.sPairs[m.takers[k].conn].stream == Some(k))
    && (forall d :: d in m.sPairs && m.sPairs[d].stream.Some? ==>
          m.sPairs[d].stream.value in m.takers && m.takers[m.sPairs[d].stream.value] == ByConnection(d))
    && (server.phase.Joining? ==> m.takers == map[])
    && (!server.phase.Joining? ==> 0 in m.takers && m.takers[0] == ByCommands)
    && (m.sPairs != map[] ==> server.phase.Looping?)
    && (forall d :: d in m.sPairs ==> d < server.dialed && Pair(d) !in server.todo)
  }

  function WithStream(pairs: map<nat, Pairing>): set<nat> {
    set c | c in pairs && pairs[c].stream.Some?
  }

  ghost predicate CountInv(s: State) {
    && s.client.read <= |s.server.log|
    && |s.mux.cPairs| == Agrees(s.server.log[..s.client.read])
    && |s.mux.sPairs| + Due(s.server) == Agrees(s.server.log)
    && |s.mux.streams| <= 1 + |WithStream(s.mux.cPairs)|
  }

  ghost predicate Inv(s: State) {
    && WireInv(s.client, s.server)
    && OwnerInv(s)
    && OpenerInv(s.client.phase, s.mux)
    && AcceptorInv(s.server, s.mux)
    && CountInv(s)
  }

  // ------------------------------------------------------------------ what one client step moves

  // The TCP connection a client step moves: from the listener to the acceptor, on to the pending slot,
  // and from there to a pairing or to its close.
  datatype Move = Keep | Arrive(conn: nat) | Ask(conn: nat) | Hand(conn: nat) | Drop(conn: nat)

  function MoveOf(s: State, step: ClientStep): Move
    requires ClientCan(s.client, step, s.server.log)
  {
    var (c', fs) := ClientDoes(s.client, step, s.server.log);
    if step.ListenerAccept? then Arrive(s.client.accepted)
    else if step.TakeConnection? then Ask(s.client.acceptor.value)
    else if fs == [] then Keep
    else match fs[0]
      case Pair(x) => Hand(x)
      case Close(x) => Drop(x)
      case Send(_) => Keep
  }

  predicate SameHands(c: ClientEnd, c': ClientEnd) {
    c'.acceptor == c.acceptor && c'.loop.pending == c.loop.pending && c'.accepted == c.accepted
  }

  lemma MoveShape(s: State, step: ClientStep)
    requires WireInv(s.client, s.server) && ClientCan(s.client, step, s.server.log)
    ensures var (c, c', fs) := (s.client, ClientDoes(s.client, step, s.server.log).0, ClientDoes(s.client, step, s.server.log).1);
            match MoveOf(s, step)
            case Keep => SameHands(c, c') && fs == []
            case Arrive(x) => c.acceptor.None? && SameHands(c.(acceptor := Some(x), accepted := x + 1), c') && x == c.accepted && fs == []
            case Ask(x) =>
              c.acceptor == Some(x) && c.loop.pending.None? && c'.acceptor.None? && c'.loop.pending == Some(x)
              && c'.accepted == c.accepted && fs == [Send(Connect)]
            case Hand(x) =>
              c.loop.pending == Some(x) && SameHands(c.(loop := c.loop.(pending := None)), c') && fs == [Pair(x)] && c.phase.Looping?
            case Drop(x) =>
              c.loop.pending == Some(x) && SameHands(c.(loop := c.loop.(pending := None)), c') && fs == [Close(x)]
  {
  }

  lemma MovePhases(s: State, step: ClientStep)
    requires WireInv(s.client, s.server) && ClientCan(s.client, step, s.server.log)
    ensures var c' := ClientDoes(s.client, step, s.server.log).0;
            && (c'.phase.Joining? <==> s.client.phase.Joining? && !step.Open?)
            && (s.client.phase.Looping? ==> c'.phase.Looping?)
            && (step.Open? ==> s.client.phase.Joining? && MoveOf(s, step).Keep?)
  {
  }

  lemma OwnersKept(s: State, step: Step)
    requires WireInv(s.client, s.server) && OwnerInv(s) && Can(s, step)
    ensures OwnerInv(Apply(s, step))
  {
    hide ClientInv, ServerInv;
    var s' := Apply(s, step);
    if step.ClientMoves? {
      MoveShape(s, step.c);
      var mv := MoveOf(s, step.c);
      if !mv.Keep? {
        assert Owners(s, mv.conn) == B(mv.conn < s.client.accepted);
      }
    }
    forall c: nat
      ensures Owners(s', c) == B(c < s'.client.accepted)
    {
      assert Owners(s, c) == B(c < s.client.accepted);
    }
  }

  // A connection about to be paired or opened has not been paired before.
  lemma PendingIsUnpaired(s: State, c: nat)
    requires OwnerInv(s) && s.client.loop.pending == Some(c)
    ensures c !in s.mux.cPairs
  {
    assert Owners(s, c) == B(c < s.client.accepted);
  }

  lemma OpenersAfterClient(s: State, step: ClientStep)
    requires WireInv(s.client, s.server) && OwnerInv(s) && OpenerInv(s.client.phase, s.mux) && ClientCan(s.client, step, s.server.log)
    ensures var s' := Apply(s, ClientMoves(step)); OpenerInv(s'.client.phase, s'.mux)
  {
    MovePhases(s, step);
    MoveShape(s, step);
    var mv := MoveOf(s, step);
    if mv.Hand? {
      PendingIsUnpaired(s, mv.conn);
    }
  }

  lemma OpenersAfterPairing(phase: Phase, m: Mux, step: Step)
    requires OpenerInv(phase, m)
    requires !step.ClientMoves? && !step.ServerMoves?
    requires step.OpenStream? ==> Waiting(m.cPairs, step.conn)
    ensures OpenerInv(phase, PairingMoves(m, step))
  {
  }

  lemma OpenersKept(s: State, step: Step)
    requires Inv(s) && Can(s, step)
    ensures OpenerInv(Apply(s, step).client.phase, Apply(s, step).mux)
  {
    match step
    case ClientMoves(c) => OpenersAfterClient(s, c);
    case ServerMoves(_, _) =>
    case _ => OpenersAfterPairing(s.client.phase, s.mux, step);
  }

  lemma ServerHasGreeted(s: State)
    requires WireInv(s.client, s.server) && OpenerInv(s.client.phase, s.mux)
    ensures s.server.phase.Joining? ==> |s.mux.streams| <= 1
  {
    if |s.mux.streams| > 1 {
      assert s.mux.streams[1].conn in s.mux.cPairs;
    }
  }

  lemma AcceptorsAfterServer(s: State, step: ServerStep, k: nat)
    requires WireInv(s.client, s.server) && OpenerInv(s.client.phase, s.mux) && AcceptorInv(s.server, s.mux)
    requires Can(s, ServerMoves(step, k))
    ensures var s' := Apply(s, ServerMoves(step, k)); AcceptorInv(s'.server, s'.mux)
  {
    hide ClientInv;
    ServerHasGreeted(s);
  }

  lemma AcceptorsAfterPairing(server: ServerEnd, m: Mux, step: Step)
    requires AcceptorInv(server, m)
    requires !step.ClientMoves? && !step.ServerMoves?
    requires step.AcceptStream? ==> Waiting(m.sPairs, step.dest) && Acceptable(m, step.k)
    ensures AcceptorInv(server, PairingMoves(m, step))
  {
  }

  lemma AcceptorsAfterClient(server: ServerEnd, m: Mux, step: ClientStep, fs: seq<Effect>)
    requires AcceptorInv(server, m)
    ensures AcceptorInv(server, ClientEffect(m, step, fs))
  {
  }

  lemma AcceptorsKept(s: State, step: Step)
    requires Inv(s) && Can(s, step)
    ensures AcceptorInv(Apply(s, step).server, Apply(s, step).mux)
  {
    hide AcceptorInv, WireInv, OwnerInv, OpenerInv, CountInv;
    match step
    case ClientMoves(c) => AcceptorsAfterClient(s.server, s.mux, c, ClientDoes(s.client, c, s.server.log).1);
    case ServerMoves(v, k) => AcceptorsAfterServer(s, v, k);
    case _ => AcceptorsAfterPairing(s.server, s.mux, step);
  }

  lemma AgreesAfterClient(s: State, step: ClientStep)
    requires WireInv(s.client, s.server) && ClientCan(s.client, step, s.server.log)
    ensures var c', log := ClientDoes(s.client, step, s.server.log).0, s.server.log;
            && s.client.read <= c'.read <= |log|
            && Agrees(log[..c'.read]) == Agrees(log[..s.client.read]) + B(MoveOf(s, step).Hand?)
  {
    var log, n := s.server.log, s.client.read;
    if n < |log| {
      assert log[..n + 1][..n] == log[..n];
    }
    if step.ReadCommand? {
      ReadableAnswer(s.client, s.server);
    }
  }

  lemma CountsAfterClient(s: State, step: ClientStep)
    requires WireInv(s.client, s.server) && OwnerInv(s) && OpenerInv(s.client.phase, s.mux) && CountInv(s)
    requires ClientCan(s.client, step, s.server.log)
    ensures CountInv(Apply(s, ClientMoves(step)))
  {
    AgreesAfterClient(s, step);
    MoveShape(s, step);
    MovePhases(s, step);
    var mv := MoveOf(s, step);
    if mv.Hand? {
      PendingIsUnpaired(s, mv.conn);
    }
    assert WithStream(Apply(s, ClientMoves(step)).mux.cPairs) == WithStream(s.mux.cPairs);
  }

  lemma AgreesAfterServer(s: State, step: ServerStep)
    requires WireInv(s.client, s.server) && ServerCan(s.server, step, s.client.log)
    ensures var (v', fs) := ServerDoes(s.server, step, s.client.log);
            && s.server.log <= v'.log
            && Agrees(v'.log) == Agrees(s.server.log) + Due(v') - Due(s.server) + (if fs != [] && fs[0].Pair? then 1 else 0)
  {
    var v', n := ServerDoes(s.server, step, s.client.log).0, |s.server.log|;
    if |v'.log| == n + 1 {
      assert v'.log[..n] == s.server.log;
    }
  }

  lemma CountsAfterServer(s: State, step: ServerStep, k: nat)
    requires WireInv(s.client, s.server) && AcceptorInv(s.server, s.mux) && CountInv(s) && Can(s, ServerMoves(step, k))
    ensures CountInv(Apply(s, ServerMoves(step, k)))
  {
    hide Agrees, ClientInv, TodoShape;
    AgreesAfterServer(s, step);
    var s' := Apply(s, ServerMoves(step, k));
    assert s'.server.log[..s.client.read] == s.server.log[..s.client.read];
    if step.Act? {
      assert s.server.todo[0] in s.server.todo;
    }
  }

  lemma CountsAfterPairing(s: State, step: Step)
    requires CountInv(s) && Can(s, step) && !step.ClientMoves? && !step.ServerMoves?
    ensures CountInv(Apply(s, step))
  {
    var s' := Apply(s, step);
    if step.OpenStream? {
      assert WithStream(s'.mux.cPairs) == WithStream(s.mux.cPairs) + {step.conn};
    } else {
      assert WithStream(s'.mux.cPairs) == WithStream(s.mux.cPairs);
    }
  }

  lemma CountsKept(s: State, step: Step)
    requires Inv(s) && Can(s, step)
    ensures CountInv(Apply(s, step))
  {
    match step
    case ClientMoves(c) => CountsAfterClient(s, c);
    case ServerMoves(v, k) => CountsAfterServer(s, v, k);
    case _ => CountsAfterPairing(s, step);
  }

  lemma InitInv()
    ensures Inv(Init)
  {
    assert WithStream(map[]) == {};
  }

  lemma StepKeepsInv(s: State, step: Step)
    requires Inv(s) && Can(s, step)
    ensures Inv(Apply(s, step))
  {
    OwnersKept(s, step);
    OpenersKept(s, step);
    AcceptorsKept(s, step);
    CountsKept(s, step);
    match step
    case ClientMoves(c) =>
      if LoopStep(c) { ClientLoopKeeps(s.client, s.server, c); } else { ClientSetupKeeps(s.client, s.server, c); }
    case ServerMoves(v, _) => ServerStepKeeps(s.client, s.server, v);
    case _ =>
  }

  /** Every run from the initial state keeps the invariant. */
  lemma {:induction false} RunKeepsInv(s: State, run: seq<Step>)
    requires Inv(s) && IsRun(s, run)
    ensures Inv(Exec(s, run))
    decreases |run|
  {
    if run != [] {
      StepKeepsInv(s, run[0]);
      RunKeepsInv(Apply(s, run[0]), run[1..]);
    }
  }

  ghost predicate Reachable(s: State) {
    exists run :: IsRun(Init, run) && Exec(Init, run) == s
  }

  lemma ReachableInv(s: State)
    requires Reachable(s)
    ensures Inv(s)
  {
    var run :| IsRun(Init, run) && Exec(Init, run) == s;
    InitInv();
    RunKeepsInv(Init, run);
  }
}
