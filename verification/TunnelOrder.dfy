/**
 Whether pairings are matched in the order of the requests. Nothing in a stream says which request it
 belongs to, so Accept may give a destination the stream of another connection.
 */
module TunnelOrder {
  import opened Wrappers
  import opened ForwardSignals
  import opened CommandStream
  import opened Tunnel
  import opened TunnelTheorems
  import Client = ForwardClient

  // The request of client connection c was agreed to with destination connection d: the answer to request
  // number c is an agreement, and d agreements went before it.
  predicate Partner(log: seq<Item>, c: nat, d: nat) {
    2 + c < |log| && IsAgree(log[2 + c]) && Agrees(log[..2 + c]) == d
  }

  // ------------------------------------------------------------------ requests and answers by number

  predicate AgreementDue(v: ServerEnd) { v.todo != [] && v.todo[0] == Send(Agree) }

  // Connection numbers are request numbers at the client, and agreement numbers at the server.
  ghost predicate ClientNumbers(c: ClientEnd) {
    && (c.phase.Looping? ==> |c.log| >= 2 && c.accepted == |c.log| - 2 + B(c.acceptor.Some?))
    && (!c.phase.Looping? ==> c.accepted == 0 && c.acceptor.None?)
    && (c.acceptor.Some? ==> c.acceptor.value + 1 == c.accepted)
    && (c.loop.pending.Some? ==> c.phase.Looping? && c.loop.pending.value + 3 == |c.log|)
  }

  ghost predicate ServerNumbers(v: ServerEnd) {
    && v.dialed == Agrees(v.log) + B(AgreementDue(v))
    && (forall e :: e in v.todo && e.Pair? ==> e.conn + 1 == v.dialed)
  }

  ghost predicate PairNumbers(s: State) {
    && s.client.read <= |s.server.log|
    && (forall c: nat :: c in s.mux.cPairs <==> 2 + c < s.client.read && IsAgree(s.server.log[2 + c]))
    && (forall d: nat :: d in s.mux.sPairs <==> d < Agrees(s.server.log) - Due(s.server))
  }

  ghost predicate Numbered(s: State) {
    ClientNumbers(s.client) && ServerNumbers(s.server) && PairNumbers(s)
  }

  lemma ClientNumbersKept(c: ClientEnd, v: ServerEnd, step: ClientStep)
    requires WireInv(c, v) && ClientNumbers(c) && ClientCan(c, step, v.log)
    ensures ClientNumbers(ClientDoes(c, step, v.log).0)
  {
  }

  lemma AgreesOfNext(log: seq<Item>, i: Item)
    ensures Agrees(log + [i]) == Agrees(log) + B(IsAgree(i))
  {
    assert (log + [i])[..|log|] == log;
  }

  lemma ServerNumbersKept(c: ClientEnd, v: ServerEnd, step: ServerStep)
    requires WireInv(c, v) && ServerNumbers(v) && ServerCan(v, step, c.log)
    ensures ServerNumbers(ServerDoes(v, step, c.log).0)
  {
    hide ClientInv, Agrees;
    forall i: Item
      ensures Agrees(v.log + [i]) == Agrees(v.log) + B(IsAgree(i))
    {
      AgreesOfNext(v.log, i);
    }
  }

  // What one step of the client does to its pairings.
  lemma ClientPairNumbers(s: State, step: ClientStep)
    requires WireInv(s.client, s.server) && ClientNumbers(s.client) && PairNumbers(s) && ClientCan(s.client, step, s.server.log)
    ensures PairNumbers(Apply(s, ClientMoves(step)))
  {
    if step.ReadCommand? {
      ReadableAnswer(s.client, s.server);
    }
  }

  lemma ServerPairNumbers(s: State, step: ServerStep, k: nat)
    requires WireInv(s.client, s.server) && ServerNumbers(s.server) && PairNumbers(s) && Can(s, ServerMoves(step, k))
    ensures PairNumbers(Apply(s, ServerMoves(step, k)))
  {
    hide ClientInv, Agrees;
    AgreesAfterServer(s, step);
  }

  lemma PairingKeepsNumbers(s: State, step: Step)
    requires Numbered(s) && Can(s, step) && !step.ClientMoves? && !step.ServerMoves?
    ensures Numbered(Apply(s, step))
  {
  }

  lemma StepKeepsNumbers(s: State, step: Step)
    requires Inv(s) && Numbered(s) && Can(s, step)
    ensures Numbered(Apply(s, step))
  {
    match step
    case ClientMoves(c) =>
      ClientNumbersKept(s.client, s.server, c);
      ClientPairNumbers(s, c);
    case ServerMoves(v, k) =>
      ServerNumbersKept(s.client, s.server, v);
      ServerPairNumbers(s, v, k);
    case _ => PairingKeepsNumbers(s, step);
  }

  lemma {:induction false} RunKeepsNumbers(s: State, run: seq<Step>)
    requires Inv(s) && Numbered(s) && IsRun(s, run)
    ensures Inv(Exec(s, run)) && Numbered(Exec(s, run))
    decreases |run|
  {
    if run != [] {
      StepKeepsInv(s, run[0]);
      StepKeepsNumbers(s, run[0]);
      RunKeepsNumbers(Apply(s, run[0]), run[1..]);
    }
  }

  lemma InitNumbers()
    ensures Inv(Init) && Numbered(Init)
  {
    InitInv();
  }

  lemma InitSerial()
    ensures SerialInv(Init)
  {
  }

  /** In every reachable state: connection c has a client pairing exactly when the answer to request c has
      been read and is an agreement, and destination d has a server pairing exactly when more than d
      agreements have been written and its own start is not still due. */
  lemma RequestsAreNumbered(s: State)
    requires Reachable(s)
    ensures Inv(s) && Numbered(s)
    ensures s.client.read <= |s.server.log|
    ensures forall c: nat :: c in s.mux.cPairs <==> 2 + c < s.client.read && IsAgree(s.server.log[2 + c])
    ensures forall d: nat :: d in s.mux.sPairs <==> d < Agrees(s.server.log) - Due(s.server)
  {
    hide Inv, ClientNumbers, ServerNumbers, Can, Apply;
    var run :| IsRun(Init, run) && Exec(Init, run) == s;
    InitNumbers();
    RunKeepsNumbers(Init, run);
  }

  // ------------------------------------------------------------------ one request at a time

  // Every pairing has its stream, and every stream has been accepted.
  predicate Settled(s: State) {
    && Due(s.server) == 0
    && (forall c :: c in s.mux.cPairs ==> !Waiting(s.mux.cPairs, c))
    && (forall d :: d in s.mux.sPairs ==> !Waiting(s.mux.sPairs, d))
    && (forall k :: 0 <= k < |s.mux.streams| ==> k in s.mux.takers)
  }

  // The client asks only when everything is settled, and no pairing ends before it has its stream.
  predicate SerialStep(s: State, step: Step) {
    && (step.ClientMoves? && step.c.TakeConnection? ==> Settled(s))
    && (step.EndClientPairing? && step.conn in s.mux.cPairs ==> s.mux.cPairs[step.conn].stream.Some?)
    && (step.EndServerPairing? && step.dest in s.mux.sPairs ==> s.mux.sPairs[step.dest].stream.Some?)
  }

  predicate Serial(s: State, run: seq<Step>)
    requires IsRun(s, run)
    decreases |run|
  {
    run == [] || (SerialStep(s, run[0]) && Serial(Apply(s, run[0]), run[1..]))
  }

  ghost predicate FollowsRequests(log: seq<Item>, m: Mux) {
    forall k :: k in m.takers && k < |m.streams| && m.streams[k].ForConnection? && m.takers[k].ByConnection? ==>
      Partner(log, m.streams[k].conn, m.takers[k].conn)
  }

  // Whatever is not settled belongs to the last request: number last, agreed to by number next.
  ghost predicate OnlyTheLast(m: Mux, last: int, next: int) {
    && (forall c :: c in m.cPairs && m.cPairs[c].stream.None? ==> m.cPairs[c].open && c == last)
    && (forall d :: d in m.sPairs && m.sPairs[d].stream.None? ==> m.sPairs[d].open && d == next)
    && (forall k :: 1 <= k < |m.streams| && k !in m.takers ==> m.streams[k].ForConnection? && m.streams[k].conn == last)
  }

  function LastRequest(s: State): int { |s.client.log| - 3 }

  // How many agreements went before the answer to the last request.
  function NextAgreement(s: State): int {
    if 1 <= |s.client.log| <= |s.server.log| + 1 then Agrees(s.server.log[..|s.client.log| - 1]) else 0
  }

  ghost predicate SerialInv(s: State) {
    && OnlyTheLast(s.mux, LastRequest(s), NextAgreement(s))
    && FollowsRequests(s.server.log, s.mux)
    && (Due(s.server) == 1 ==> |s.server.log| == |s.client.log|)
  }

  lemma StreamsNeedPairs(phase: Phase, m: Mux)
    requires OpenerInv(phase, m)
    ensures |m.streams| > 1 ==> m.cPairs != map[]
  {
    if |m.streams| > 1 {
      assert m.streams[1].conn in m.cPairs;
    }
  }

  // Before the client loops there is nothing to match.
  lemma NothingBeforeLooping(s: State)
    requires Inv(s) && Numbered(s) && !s.client.phase.Looping?
    ensures s.mux.cPairs == map[] && s.mux.sPairs == map[] && |s.mux.streams| <= 1 && Due(s.server) == 0
  {
    hide OwnerInv, AcceptorInv, CountInv;
    var log := s.server.log;
    assert |log| <= 2;
    AgreesNeedReplies(log, |log|);
    StreamsNeedPairs(s.client.phase, s.mux);
    forall d: nat
      ensures d !in s.mux.sPairs
    {
      assert Agrees(log) == 0;
    }
  }

  // The server has answered all requests, or all but the last.
  lemma AnswersKeepUp(s: State)
    requires WireInv(s.client, s.server) && s.client.phase.Looping?
    ensures 3 <= |s.client.log| + 1 && |s.client.log| - 1 <= |s.server.log| <= |s.client.log|
    ensures |s.server.log| + Answering(s.server) <= |s.client.log|
  {
  }

  lemma SerialAfterRequest(s: State)
    requires Inv(s) && SerialInv(s) && Settled(s) && ClientCan(s.client, TakeConnection, s.server.log)
    ensures SerialInv(Apply(s, ClientMoves(TakeConnection)))
  {
    hide WireInv, OwnerInv, CountInv, Agrees;
    assert forall k :: 0 <= k < |s.mux.streams| ==> k in s.mux.takers;
  }

  // While the client loops, a step other than a new request writes nothing, and starts a pairing for the
  // last request only.
  lemma ClientShape(s: State, step: ClientStep)
    requires WireInv(s.client, s.server) && ClientNumbers(s.client) && ClientCan(s.client, step, s.server.log)
    requires s.client.phase.Looping? && !step.TakeConnection?
    ensures var s' := Apply(s, ClientMoves(step));
            && s'.server == s.server && s'.client.log == s.client.log && |s.client.log| >= 2
            && (s'.mux == s.mux.(closed := s'.mux.closed)
                || (|s.client.log| >= 3 && s'.mux == s.mux.(cPairs := s.mux.cPairs[|s.client.log| - 3 := Pairing(None, true)])))
  {
    MoveShape(s, step);
    if step.ReadCommand? {
      ReadableAnswer(s.client, s.server);
    }
  }

  lemma OneMoreForTheLast(log: seq<Item>, m: Mux, m': Mux, last: nat, next: int)
    requires OnlyTheLast(m, last, next) && FollowsRequests(log, m)
    requires m' == m.(cPairs := m.cPairs[last := Pairing(None, true)])
    ensures OnlyTheLast(m', last, next) && FollowsRequests(log, m')
  {
    hide Partner;
  }

  lemma OnlyClosed(log: seq<Item>, m: Mux, m': Mux, last: int, next: int)
    requires OnlyTheLast(m, last, next) && FollowsRequests(log, m)
    requires m' == m.(closed := m'.closed)
    ensures OnlyTheLast(m', last, next) && FollowsRequests(log, m')
  {
    hide Partner;
  }

  lemma SerialWhileLooping(s: State, step: ClientStep)
    requires Inv(s) && Numbered(s) && SerialInv(s) && ClientCan(s.client, step, s.server.log)
    requires s.client.phase.Looping? && !step.TakeConnection?
    ensures SerialInv(Apply(s, ClientMoves(step)))
  {
    ClientShape(s, step);
    SerialParts(s);
    var s', last, next := Apply(s, ClientMoves(step)), LastRequest(s), NextAgreement(s);
    hide Inv, Numbered, Apply, ClientCan, OnlyTheLast, FollowsRequests, NextAgreement, SerialInv;
    if s'.mux == s.mux.(closed := s'.mux.closed) {
      OnlyClosed(s.server.log, s.mux, s'.mux, last, next);
    } else {
      OneMoreForTheLast(s.server.log, s.mux, s'.mux, last, next);
    }
    SerialByParts(s, s');
  }

  lemma SerialParts(s: State)
    requires SerialInv(s)
    ensures OnlyTheLast(s.mux, LastRequest(s), NextAgreement(s)) && FollowsRequests(s.server.log, s.mux)
  {
  }

  lemma SerialByParts(s: State, s': State)
    requires SerialInv(s) && s'.server == s.server && s'.client.log == s.client.log
    requires OnlyTheLast(s'.mux, LastRequest(s), NextAgreement(s)) && FollowsRequests(s.server.log, s'.mux)
    ensures SerialInv(s')
  {
  }

  lemma SetupShape(s: State, step: ClientStep)
    requires OpenerInv(s.client.phase, s.mux) && ClientCan(s.client, step, s.server.log)
    requires !s.client.phase.Looping? && Client.Consistent(s.client.loop) && s.client.loop.pending.None?
    ensures var s' := Apply(s, ClientMoves(step));
            && s'.server == s.server && s'.mux.cPairs == s.mux.cPairs && s'.mux.sPairs == s.mux.sPairs
            && s'.mux.streams == s.mux.streams + (if step.Open? then [ForCommands] else [])
  {
  }

  lemma SerialBeforeLooping(s: State, step: ClientStep)
    requires Inv(s) && Numbered(s) && ClientCan(s.client, step, s.server.log)
    requires !s.client.phase.Looping? && !step.TakeConnection?
    ensures SerialInv(Apply(s, ClientMoves(step)))
  {
    NothingBeforeLooping(s);
    SetupShape(s, step);
    assert step.Open? ==> s.mux.streams == [];
    assert s.mux.streams != [] ==> s.mux.streams[0] == ForCommands;
    hide Inv, Numbered, Agrees, Partner, Apply, ClientCan, NextAgreement;
  }

  lemma SerialAfterClient(s: State, step: ClientStep)
    requires Inv(s) && Numbered(s) && SerialInv(s) && ClientCan(s.client, step, s.server.log)
    requires step.TakeConnection? ==> Settled(s)
    ensures SerialInv(Apply(s, ClientMoves(step)))
  {
    hide Inv, Numbered, SerialInv, Apply;
    if step.TakeConnection? {
      SerialAfterRequest(s);
    } else if s.client.phase.Looping? {
      SerialWhileLooping(s, step);
    } else {
      SerialBeforeLooping(s, step);
    }
  }

  lemma PartnersStay(log: seq<Item>, log': seq<Item>, m: Mux)
    requires log <= log' && FollowsRequests(log, m)
    ensures FollowsRequests(log', m)
  {
    forall k | k in m.takers && k < |m.streams| && m.streams[k].ForConnection? && m.takers[k].ByConnection?
      ensures Partner(log', m.streams[k].conn, m.takers[k].conn)
    {
      var c := m.streams[k].conn;
      assert Partner(log, c, m.takers[k].conn);
      assert log'[..2 + c] == log[..2 + c];
    }
  }

  lemma NextAgreementStays(s: State, step: ServerStep, k: nat)
    requires WireInv(s.client, s.server) && s.client.phase.Looping? && Can(s, ServerMoves(step, k))
    ensures NextAgreement(Apply(s, ServerMoves(step, k))) == NextAgreement(s)
  {
    AnswersKeepUp(s);
    var log, log', n := s.server.log, Apply(s, ServerMoves(step, k)).server.log, |s.client.log| - 1;
    assert log'[..n] == log[..n];
  }

  // A pairing that is due belongs to the last request.
  lemma DuePairing(s: State)
    requires Inv(s) && Numbered(s) && s.client.phase.Looping? && Due(s.server) == 1 && |s.server.log| == |s.client.log|
    ensures s.server.todo[0].conn == NextAgreement(s)
  {
    hide OwnerInv, OpenerInv, AcceptorInv, CountInv, ClientNumbers, PairNumbers;
    var log := s.server.log;
    assert s.server.todo[0] in s.server.todo;
    assert IsAgree(log[|log| - 1]);
  }

  lemma SerialAfterServer(s: State, step: ServerStep, k: nat)
    requires Inv(s) && Numbered(s) && SerialInv(s) && Can(s, ServerMoves(step, k))
    ensures SerialInv(Apply(s, ServerMoves(step, k)))
  {
    hide OwnerInv, CountInv, Agrees, Numbered;
    var s' := Apply(s, ServerMoves(step, k));
    AgreesAfterServer(s, step);
    PartnersStay(s.server.log, s'.server.log, s.mux);
    if s.client.phase.Looping? {
      AnswersKeepUp(s);
      NextAgreementStays(s, step, k);
      if Due(s.server) == 1 {
        DuePairing(s);
      }
    } else {
      NothingBeforeLooping(s);
    }
  }

  lemma SerialAfterAccept(s: State, d: nat, k: nat)
    requires Inv(s) && Numbered(s) && SerialInv(s) && Can(s, AcceptStream(d, k))
    ensures SerialInv(Apply(s, AcceptStream(d, k)))
  {
    hide OwnerInv, CountInv, Agrees, WireInv, ClientNumbers, ServerNumbers;
    assert d in s.mux.sPairs && k != 0;
    var c := s.mux.streams[k].conn;
    assert c == LastRequest(s) && d == NextAgreement(s) && c in s.mux.cPairs;
    assert Partner(s.server.log, c, d);
  }

  // An Open or an end of a pairing leaves it to the last request what is not settled.
  lemma SerialMux(log: seq<Item>, m: Mux, step: Step, last: int, next: int)
    requires OnlyTheLast(m, last, next) && FollowsRequests(log, m) && forall k :: k in m.takers ==> k < |m.streams|
    requires step.OpenStream? ==> Waiting(m.cPairs, step.conn)
    requires step.EndClientPairing? ==> step.conn in m.cPairs && m.cPairs[step.conn].stream.Some?
    requires step.EndServerPairing? ==> step.dest in m.sPairs && m.sPairs[step.dest].stream.Some?
    requires !step.AcceptStream?
    ensures OnlyTheLast(PairingMoves(m, step), last, next) && FollowsRequests(log, PairingMoves(m, step))
  {
    hide Partner;
  }

  lemma SerialAfterOther(s: State, step: Step)
    requires AcceptorInv(s.server, s.mux) && SerialInv(s) && Can(s, step) && SerialStep(s, step)
    requires !step.ClientMoves? && !step.ServerMoves? && !step.AcceptStream?
    ensures SerialInv(Apply(s, step))
  {
    SerialMux(s.server.log, s.mux, step, LastRequest(s), NextAgreement(s));
    hide AcceptorInv, OnlyTheLast, FollowsRequests, PairingMoves, Agrees;
  }

  lemma SerialAfterPairing(s: State, step: Step)
    requires Inv(s) && Numbered(s) && SerialInv(s) && Can(s, step) && SerialStep(s, step)
    requires !step.ClientMoves? && !step.ServerMoves?
    ensures SerialInv(Apply(s, step))
  {
    hide WireInv, OwnerInv, OpenerInv, AcceptorInv, CountInv, Numbered, SerialInv, Apply;
    if step.AcceptStream? {
      SerialAfterAccept(s, step.dest, step.k);
    } else {
      SerialAfterOther(s, step);
    }
  }

  lemma {:induction false} SerialRunKeeps(s: State, run: seq<Step>)
    requires Inv(s) && Numbered(s) && SerialInv(s) && IsRun(s, run) && Serial(s, run)
    ensures SerialInv(Exec(s, run))
    decreases |run|
  {
    if run != [] {
      var step := run[0];
      match step {
        case ClientMoves(c) => SerialAfterClient(s, c);
        case ServerMoves(v, k) => SerialAfterServer(s, v, k);
        case _ => SerialAfterPairing(s, step);
      }
      StepKeepsInv(s, step);
      StepKeepsNumbers(s, step);
      hide Inv, Numbered, SerialInv;
      SerialRunKeeps(Apply(s, step), run[1..]);
    }
  }

  /** When matching follows the requests: in every run in which the client asks only after everything is
      settled, and no pairing ends before it has its stream, each matched pair is the one that was agreed to. */
  lemma SerialRequestsAreMatchedInOrder(run: seq<Step>, c: nat, d: nat)
    requires IsRun(Init, run) && Serial(Init, run)
    requires Matched(Exec(Init, run).mux, c, d)
    ensures Partner(Exec(Init, run).server.log, c, d)
  {
    hide Inv, Numbered, IsRun, Serial, Exec, OnlyTheLast, Partner;
    InitNumbers();
    InitSerial();
    SerialRunKeeps(Init, run);
  }

  // ------------------------------------------------------------------ when matching can go wrong

  // Connection c waits for its stream, or has opened one that is not accepted yet.
  ghost predicate Unsettled(m: Mux, c: nat) {
    Waiting(m.cPairs, c) || exists k: nat :: Acceptable(m, k) && m.streams[k] == ForConnection(c)
  }

  // An unsettled connection and a waiting destination that do not belong to the same request.
  ghost predicate Danger(s: State) {
    exists c: nat, d: nat :: Unsettled(s.mux, c) && Waiting(s.mux.sPairs, d) && !Partner(s.server.log, c, d)
  }

  predicate PairingsOnly(run: seq<Step>) {
    forall i :: 0 <= i < |run| ==> !run[i].ClientMoves? && !run[i].ServerMoves?
  }

  lemma OneStep(s: State, step: Step)
    requires Can(s, step)
    ensures IsRun(s, [step]) && Exec(s, [step]) == Apply(s, step)
  {
    assert [step][1..] == [];
  }

  lemma AcceptMatches(s: State, c: nat, d: nat, k: nat)
    requires Waiting(s.mux.sPairs, d) && Acceptable(s.mux, k) && s.mux.streams[k] == ForConnection(c)
    ensures var s' := Apply(s, AcceptStream(d, k)); s'.server == s.server && Matched(s'.mux, c, d)
  {
    var m := Apply(s, AcceptStream(d, k)).mux;
    assert m.streams[k] == ForConnection(c) && k in m.takers && m.takers[k] == ByConnection(d);
  }

  /** Any unsettled connection may be matched with any waiting destination, by pairing steps alone. */
  lemma AnyMayBeMatched(s: State, c: nat, d: nat) returns (run: seq<Step>)
    requires Unsettled(s.mux, c) && Waiting(s.mux.sPairs, d) && (forall k :: k in s.mux.takers ==> k < |s.mux.streams|)
    ensures PairingsOnly(run) && IsRun(s, run)
    ensures Exec(s, run).server == s.server && Matched(Exec(s, run).mux, c, d)
  {
    if Waiting(s.mux.cPairs, c) {
      var k := |s.mux.streams|;
      var s1 := Apply(s, OpenStream(c));
      OneStep(s, OpenStream(c));
      assert Acceptable(s1.mux, k) && s1.mux.streams[k] == ForConnection(c) && Waiting(s1.mux.sPairs, d);
      run := [OpenStream(c)] + [AcceptStream(d, k)];
      RunExtends(s, [OpenStream(c)], AcceptStream(d, k));
      AcceptMatches(s1, c, d, k);
    } else {
      var k: nat :| Acceptable(s.mux, k) && s.mux.streams[k] == ForConnection(c);
      run := [AcceptStream(d, k)];
      OneStep(s, AcceptStream(d, k));
      AcceptMatches(s, c, d, k);
    }
  }

  // Without danger a pairing step neither brings danger nor a wrong match.
  lemma SafeStep(s: State, step: Step)
    requires Inv(s) && Can(s, step) && !step.ClientMoves? && !step.ServerMoves?
    requires FollowsRequests(s.server.log, s.mux) && !Danger(s)
    ensures FollowsRequests(s.server.log, Apply(s, step).mux) && !Danger(Apply(s, step)) && Apply(s, step).server == s.server
  {
    hide WireInv, OwnerInv, CountInv, Partner;
    var s' := Apply(s, step);
    forall c: nat | Unsettled(s'.mux, c)
      ensures Unsettled(s.mux, c)
    {
      if !Waiting(s'.mux.cPairs, c) {
        var k: nat :| Acceptable(s'.mux, k) && s'.mux.streams[k] == ForConnection(c);
        assert k < |s.mux.streams| ==> Acceptable(s.mux, k);
      }
    }
    if step.AcceptStream? {
      assert step.dest in s.mux.sPairs && step.k != 0;
      assert Unsettled(s.mux, s.mux.streams[step.k].conn);
    }
  }

  lemma {:induction false} SafeRun(s: State, run: seq<Step>)
    requires Inv(s) && IsRun(s, run) && PairingsOnly(run)
    requires FollowsRequests(s.server.log, s.mux) && !Danger(s)
    ensures FollowsRequests(s.server.log, Exec(s, run).mux) && Exec(s, run).server == s.server
    decreases |run|
  {
    if run != [] {
      assert !run[0].ClientMoves? && !run[0].ServerMoves? && PairingsOnly(run[1..]);
      hide WireInv, OwnerInv, OpenerInv, AcceptorInv, CountInv, Can, Apply, FollowsRequests, Danger, PairingsOnly;
      SafeStep(s, run[0]);
      StepKeepsInv(s, run[0]);
      SafeRun(Apply(s, run[0]), run[1..]);
    }
  }

  /** The exact condition: in a reachable state in which all matches so far follow the requests, the pairings
      under way can be matched against the requests if and only if an unsettled connection and a waiting
      destination belong to different requests. */
  lemma CrossesIff(s: State)
    requires Reachable(s) && FollowsRequests(s.server.log, s.mux)
    ensures (exists run :: IsRun(s, run) && PairingsOnly(run) && !FollowsRequests(s.server.log, Exec(s, run).mux)) <==> Danger(s)
  {
    ReachableInv(s);
    assert AcceptorInv(s.server, s.mux);
    if Danger(s) {
      var c: nat, d: nat :| Unsettled(s.mux, c) && Waiting(s.mux.sPairs, d) && !Partner(s.server.log, c, d);
      var run := AnyMayBeMatched(s, c, d);
      WrongMatch(s.server.log, Exec(s, run).mux, c, d);
      assert IsRun(s, run) && PairingsOnly(run) && !FollowsRequests(s.server.log, Exec(s, run).mux);
    } else {
      forall run | IsRun(s, run) && PairingsOnly(run)
        ensures FollowsRequests(s.server.log, Exec(s, run).mux)
      {
        SafeRun(s, run);
      }
    }
  }

  lemma WrongMatch(log: seq<Item>, m: Mux, c: nat, d: nat)
    requires Matched(m, c, d) && !Partner(log, c, d)
    ensures !FollowsRequests(log, m)
  {
  }

  lemma {:induction false} AgreesGrow(log: seq<Item>, i: nat, j: nat)
    requires i <= j <= |log|
    ensures Agrees(log[..i]) <= Agrees(log[..j])
    ensures i < j && IsAgree(log[i]) ==> Agrees(log[..i]) < Agrees(log[..j])
    decreases j
  {
    if i < j {
      assert log[..j][..j - 1] == log[..j - 1];
      AgreesGrow(log, i, j - 1);
    }
  }

  // A request has one destination, and a destination one request.
  lemma PartnersAreUnique(log: seq<Item>, c: nat, d: nat, c': nat, d': nat)
    requires Partner(log, c, d) && Partner(log, c', d')
    ensures c == c' <==> d == d'
  {
    if c < c' {
      AgreesGrow(log, 2 + c, 2 + c');
    } else if c' < c {
      AgreesGrow(log, 2 + c', 2 + c);
    }
  }

  /** As soon as two pairings wait on either side and one on the other, there is danger. */
  lemma TwoWaitingAreInDanger(s: State, c: nat, c': nat, d: nat, d': nat)
    requires Unsettled(s.mux, c) && Unsettled(s.mux, c') && Waiting(s.mux.sPairs, d) && Waiting(s.mux.sPairs, d')
    requires c != c' || d != d'
    ensures Danger(s)
  {
    var log := s.server.log;
    if Partner(log, c, d) && Partner(log, c', d') && Partner(log, c, d') {
      PartnersAreUnique(log, c, d, c', d');
      PartnersAreUnique(log, c, d, c, d');
    }
  }

  /** A client pairing that ends before its Open leaves its destination waiting, and there is danger as soon
      as any other connection is unsettled: the destination can take that connection's stream. */
  lemma EarlyEndShifts(s: State, c: nat, d: nat, next: nat) returns (run: seq<Step>)
    requires Reachable(s) && Partner(s.server.log, c, d)
    requires c in s.mux.cPairs && !s.mux.cPairs[c].open && s.mux.cPairs[c].stream.None?
    requires Waiting(s.mux.sPairs, d) && Unsettled(s.mux, next)
    ensures Danger(s) && next != c
    ensures PairingsOnly(run) && IsRun(s, run)
    ensures Matched(Exec(s, run).mux, next, d) && !Partner(Exec(s, run).server.log, next, d)
  {
    ReachableInv(s);
    assert AcceptorInv(s.server, s.mux) && OpenerInv(s.client.phase, s.mux);
    assert next != c;
    if Partner(s.server.log, next, d) {
      PartnersAreUnique(s.server.log, c, d, next, d);
    }
    run := AnyMayBeMatched(s, next, d);
  }

  /** Such a run: the client asks a second time only when its first pairing has ended and the server's first
      pairing waits; then the second connection reaches the first destination. */
  lemma EarlyEndCrossesOver() returns (s: State)
    ensures Reachable(s) && Matched(s.mux, 1, 0) && !Partner(s.server.log, 1, 0)
  {
    s := SetUp();
    s := OneMorePairing(s);
    s := Take(s, EndClientPairing(0));
    s := OneMorePairing(s);
    s := Take(s, OpenStream(1));
    s := Take(s, AcceptStream(0, 1));
    assert s.mux.streams == [ForCommands, ForConnection(1)];
    assert s.mux.takers[1] == ByConnection(0);
    RequestsAreNumbered(s);
    assert 0 in s.mux.cPairs && 1 in s.mux.cPairs;
    AgreesGrow(s.server.log, 2, 3);
  }
}
