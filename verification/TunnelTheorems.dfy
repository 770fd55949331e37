/** What every run of a port-forward session guarantees. */
module TunnelTheorems {
  import opened Wrappers
  import opened ForwardSignals
  import opened CommandStream
  import opened Modes
  import opened Tunnel
  import Client = ForwardClient

  /** Never more than one request is under way: a client in Conn1 has exactly one Connect unread, or one
      answer being prepared, or one answer unread, and in Wait there is none of these. */
  lemma SingleOutstandingRequest(s: State)
    requires Reachable(s)
    ensures s.client.phase.Looping? ==>
              && s.server.phase.Looping?
              && s.server.read <= |s.client.log| && s.client.read <= |s.server.log|
              && (|s.client.log| - s.server.read) + Answering(s.server) + (|s.server.log| - s.client.read)
                 == Outstanding(s.client)
              && (forall i :: s.server.read <= i < |s.client.log| ==> IsConnect(s.client.log[i]))
              && (forall i :: s.client.read <= i < |s.server.log| ==> IsAgree(s.server.log[i]) || IsRefusal(s.server.log[i]))
  {
    ReachableInv(s);
  }

  // A check made by either end: of the mode string, of the handshake, or of a command in the loop.
  predicate Checks(step: Step) {
    || (step.ClientMoves? && (step.c.CheckMode? || step.c.CheckHello? || step.c.ReadCommand?))
    || (step.ServerMoves? && (step.v.CheckMode? || step.v.CheckHello? || step.v.ReadCommand?))
  }

  // The mode check is the only one that a short read can fail.
  predicate CutShort(step: Step) {
    || (step.ClientMoves? && step.c.CheckMode? && !step.c.whole)
    || (step.ServerMoves? && step.v.CheckMode? && !step.v.whole)
  }

  /** No end ever leaves because of a message it did not expect: every handshake check and every command
      read by a loop is passed, and a mode check is passed exactly when its one read brings the whole string. */
  lemma NoAbnormalMessage(s: State, step: Step)
    requires Reachable(s) && Can(s, step) && Checks(step)
    ensures var s' := Apply(s, step);
            (if step.ClientMoves? then s'.client.alive else s'.server.alive) <==> !CutShort(step)
  {
    ReachableInv(s);
    if step.ClientMoves? && step.c.ReadCommand? {
      ReadableAnswer(s.client, s.server);
    }
  }

  lemma {:induction false} AnswersAreCounted(log: seq<Item>)
    requires |log| >= 2 && log[0].Identity? && log[1] == Command(Hello)
    requires forall i :: 2 <= i < |log| ==> IsAgree(log[i]) || IsRefusal(log[i])
    ensures Agrees(log) + Refusals(log) == |log| - 2
  {
    if |log| == 2 {
      assert log[..1][..0] == [];
      assert log[..1][0] == log[0];
    } else {
      AnswersAreCounted(log[..|log| - 1]);
    }
  }

  /** Conservation: each Connect was agreed to, refused, or is the outstanding one; the server has started
      (or is about to start) as many pairings as the client, or one more; and no more data streams are
      opened than pairings were started. The client is ahead of the server exactly when it has read an
      agreement whose pairing the server has yet to start. */
  lemma PairingsAreConserved(s: State)
    requires Reachable(s)
    ensures && s.client.read <= |s.server.log|
            && (s.client.phase.Looping? ==>
                  |s.client.log| - 2 == |s.mux.cPairs| + Refusals(s.server.log[..s.client.read]) + Outstanding(s.client))
            && |s.mux.cPairs| <= |s.mux.sPairs| + Due(s.server) <= |s.mux.cPairs| + 1
            && (|s.mux.cPairs| <= |s.mux.sPairs| <==> Due(s.server) == 0 || s.client.read < |s.server.log|)
            && |s.mux.streams| - 1 <= |s.mux.cPairs|
  {
    hide OwnerInv, OpenerInv, AcceptorInv;
    ReachableInv(s);
    var log, n := s.server.log, s.client.read;
    if s.client.phase.Looping? {
      AnswersAreCounted(log[..n]);
      assert n == |log| ==> log[..n] == log;
    } else {
      AgreesNeedReplies(log, n);
    }
    SubsetSize(WithStream(s.mux.cPairs), s.mux.cPairs.Keys);
  }

  // Before the client loops, the server has answered nothing.
  lemma AgreesNeedReplies(log: seq<Item>, n: nat)
    requires n <= |log| <= 2
    requires |log| > 0 ==> log[0].Identity?
    requires |log| > 1 ==> log[1] == Command(Hello)
    ensures Agrees(log) == 0 == Agrees(log[..n])
  {
    forall m: nat | m <= |log|
      ensures Agrees(log[..m]) == 0
    {
      assert log[..0] == [];
      assert m > 0 ==> log[..m][..m - 1] == log[..m - 1] && !IsAgree(log[..m][m - 1]);
      assert m > 1 ==> log[..m - 1][..m - 2] == [];
    }
    assert log[..|log|] == log;
  }

  lemma {:induction false} SubsetSize<T>(a: set<T>, b: set<T>)
    requires a <= b
    ensures |a| <= |b|
  {
    if a != {} {
      var x :| x in a;
      SubsetSize(a - {x}, b - {x});
    }
  }

  /** The server's first Accept returns the command stream, and no pairing's Accept ever does. */
  lemma AcceptsNeverMixStreams(s: State, step: Step)
    requires Reachable(s) && Can(s, step)
    ensures var m := s.mux;
            && (step.ServerMoves? && step.v.Accept? ==> m.streams == [ForCommands] && step.k == 0)
            && (step.AcceptStream? ==> m.streams[step.k].ForConnection?)
  {
    ReachableInv(s);
    ServerHasGreeted(s);
    if step.AcceptStream? {
      assert step.dest in s.mux.sPairs;
    }
  }

  /** Each TCP connection the listener ever accepted is in exactly one hand: the acceptor's, the pending
      slot, an open pairing, or closed. The pending slot is filled exactly in Conn1. */
  lemma EveryConnectionHasOneOwner(s: State, c: nat)
    requires Reachable(s)
    ensures && Owners(s, c) == (if c < s.client.accepted then 1 else 0)
            && (s.client.loop.running ==> (s.client.loop.pending.Some? <==> s.client.loop.state.Conn1?))
            && (!s.client.loop.running ==> s.client.loop.pending.None?)
  {
    ReachableInv(s);
    assert Owners(s, c) == B(c < s.client.accepted);
  }

  // Client connection c and destination connection d are the two ends of one stream.
  ghost predicate Matched(m: Mux, c: nat, d: nat) {
    exists k: nat :: k < |m.streams| && m.streams[k] == ForConnection(c) && k in m.takers && m.takers[k] == ByConnection(d)
  }

  /** The matching is injective in both directions, and every stream a pairing accepted matches it with
      the connection that opened the stream. */
  lemma MatchingIsInjective(s: State)
    requires Reachable(s)
    ensures var m := s.mux;
            && (forall c, d, d' :: Matched(m, c, d) && Matched(m, c, d') ==> d == d')
            && (forall c, c', d :: Matched(m, c, d) && Matched(m, c', d) ==> c == c')
            && (forall d :: d in m.sPairs && m.sPairs[d].stream.Some? ==>
                  var k := m.sPairs[d].stream.value;
                  k < |m.streams| && m.streams[k].ForConnection? && Matched(m, m.streams[k].conn, d))
  {
    ReachableInv(s);
    var m := s.mux;
    forall d | d in m.sPairs && m.sPairs[d].stream.Some?
      ensures var k := m.sPairs[d].stream.value;
              k < |m.streams| && m.streams[k].ForConnection? && Matched(m, m.streams[k].conn, d)
    {
      var k := m.sPairs[d].stream.value;
      assert m.takers[k] == ByConnection(d);
      assert k != 0;
    }
  }

  // ------------------------------------------------------------------ runs

  lemma {:induction false} RunExtends(s: State, run: seq<Step>, step: Step)
    requires IsRun(s, run) && Can(Exec(s, run), step)
    ensures IsRun(s, run + [step]) && Exec(s, run + [step]) == Apply(Exec(s, run), step)
    decreases |run|
  {
    if run == [] {
      assert [] + [step] == [step];
    } else {
      RunExtends(Apply(s, run[0]), run[1..], step);
      assert (run + [step])[1..] == run[1..] + [step];
    }
  }

  lemma Take(s: State, step: Step) returns (s': State)
    requires Reachable(s) && Can(s, step)
    ensures s' == Apply(s, step) && Reachable(s')
  {
    var run :| IsRun(Init, run) && Exec(Init, run) == s;
    RunExtends(Init, run, step);
    s' := Apply(s, step);
  }

  // Both loops run, and nothing is under way between them.
  predicate Quiet(s: State) {
    && InClientLoop(s.client) && s.client.loop.state.Wait? && s.client.acceptor.None?
    && InServerLoop(s.server) && Idle(s.server)
    && s.client.read == |s.server.log| && s.server.read == |s.client.log|
  }

  lemma Introduce() returns (s: State)
    ensures Reachable(s)
    ensures s.client == ClientEnd(Greeting, true, Client.Start, None, 0, [Identity(MODE_PORT_FORWARD_CLIENT)], 1)
    ensures s.server == ServerEnd(AwaitGreeting, true, false, [], 0, [Identity(MODE_PORT_FORWARD_SERVER)], 1)
    ensures s.mux == Mux([ForCommands], map[0 := ByCommands], map[], map[], {})
  {
    assert IsRun(Init, []) && Exec(Init, []) == Init;
    s := Take(Init, ClientMoves(Open));
    s := Take(s, ServerMoves(Accept, 0));
    s := Take(s, ClientMoves(ClientStep.SendMode));
    s := Take(s, ServerMoves(ServerStep.SendMode, 0));
    s := Take(s, ClientMoves(ClientStep.CheckMode(true)));
    s := Take(s, ServerMoves(ServerStep.CheckMode(true), 0));
  }

  lemma SetUp() returns (s: State)
    ensures Reachable(s) && Quiet(s) && s.client.accepted == 0 == s.server.dialed
    ensures s.mux == Mux([ForCommands], map[0 := ByCommands], map[], map[], {})
  {
    s := Introduce();
    s := Take(s, ClientMoves(SendHello));
    s := Take(s, ServerMoves(ServerStep.CheckHello, 0));
    s := Take(s, ServerMoves(ReplyHello, 0));
    s := Take(s, ClientMoves(ClientStep.CheckHello));
  }

  // The client has asked for one more connection, and the server has dialed it.
  lemma Ask(s: State) returns (t: State)
    requires Reachable(s) && Quiet(s)
    ensures Reachable(t) && t.mux == s.mux
    ensures t.client == s.client.(loop := Client.Loop(true, Client.Conn1, Some(s.client.accepted)),
                                  accepted := s.client.accepted + 1, log := s.client.log + [Command(Connect)])
    ensures t.server == s.server.(todo := [Send(Agree), Pair(s.server.dialed)], dialed := s.server.dialed + 1,
                                  read := s.server.read + 1)
  {
    t := Take(s, ClientMoves(ListenerAccept));
    t := Take(t, ClientMoves(TakeConnection));
    t := Take(t, ServerMoves(ServerStep.ReadCommand, 0));
    t := Take(t, ServerMoves(DialReturns(true, false), 0));
  }

  lemma OneMorePairing(s: State) returns (t: State)
    requires Reachable(s) && Quiet(s)
    ensures Reachable(t) && Quiet(t)
    ensures t.client.accepted == s.client.accepted + 1 && t.server.dialed == s.server.dialed + 1
    ensures t.mux == s.mux.(cPairs := s.mux.cPairs[s.client.accepted := Pairing(None, true)],
                            sPairs := s.mux.sPairs[s.server.dialed := Pairing(None, true)])
  {
    t := Ask(s);
    t := Take(t, ServerMoves(Act, 0));
    t := Take(t, ServerMoves(Act, 0));
    t := Take(t, ClientMoves(ClientStep.ReadCommand));
  }

  /** A run in which the client has started a pairing and the server has not: the agreement overtakes the
      start of its own pairing. */
  lemma ClientMayPairFirst() returns (s: State)
    ensures Reachable(s) && |s.mux.cPairs| == 1 && |s.mux.sPairs| == 0
  {
    s := SetUp();
    s := Ask(s);
    s := Take(s, ServerMoves(Act, 0));
    s := Take(s, ClientMoves(ClientStep.ReadCommand));
  }

  /** The matching need not follow the order of the requests: a run matches the second connection
      with the first one dialed. */
  lemma MatchingMayCrossOver() returns (s: State)
    ensures Reachable(s) && Matched(s.mux, 1, 0) && !Matched(s.mux, 0, 0)
  {
    s := SetUp();
    s := OneMorePairing(s);
    s := OneMorePairing(s);
    s := Take(s, OpenStream(1));
    s := Take(s, AcceptStream(0, 1));
    assert s.mux.streams == [ForCommands, ForConnection(1)];
    assert s.mux.takers[1] == ByConnection(0);
  }
}
