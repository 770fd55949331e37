/** Signals of the port-forward command stream, and the constants the two loops branch on. */
module ForwardSignals {
  datatype Signal = Signal(version: int, kind: int, code: int)

  const PROTOCOL_VERSION := 1

  const SIGNAL_HANDSHAKE := 0
  const SIGNAL_CONNECT := 1
  const SIGNAL_CONNECT_REFUSE := 2
  const SIGNAL_CONNECT_AGREE := 3
  const SIGNAL_BYE := 4

  const CODE_FORBIDDEN := 0
  const CODE_PORT_REFUSED := 1
  const CODE_PORT_TIMEOUT := 2

  const Hello := Signal(PROTOCOL_VERSION, SIGNAL_HANDSHAKE, CODE_FORBIDDEN)
  const Connect := Signal(PROTOCOL_VERSION, SIGNAL_CONNECT, CODE_FORBIDDEN)
  const Agree := Signal(PROTOCOL_VERSION, SIGNAL_CONNECT_AGREE, CODE_FORBIDDEN)

  // What a loop does to the world: write a command, start a pairing, or close a connection.
  datatype Effect = Send(sig: Signal) | Pair(conn: nat) | Close(conn: nat)
}

/**
 The client loop. `React` is one iteration of it on values; the class below is the loop itself,
 with its two variables, proved against `React`.
 */
module ForwardClient {
  import opened Wrappers
  import opened ForwardSignals

  datatype ClientState = Wait | Conn1

  // What one `select` can pick: a dying tomb, the command reader, or the listener.
  datatype Event =
    | Dying
    | CommandClosed
    | Command(sig: Signal)
    | ListenerClosed
    | Incoming(conn: nat)

  datatype Loop = Loop(running: bool, state: ClientState, pending: Option<nat>)

  const Start := Loop(true, Wait, None)

  // The pending slot is filled exactly in Conn1, and is given up when the loop is left.
  predicate Consistent(l: Loop) {
    if l.running then l.pending.Some? <==> l.state.Conn1? else l.pending.None?
  }

  // In Conn1 the loop does not listen to the listener.
  predicate Selectable(l: Loop, e: Event) {
    l.running && (l.state.Conn1? ==> !e.ListenerClosed? && !e.Incoming?)
  }

  // Returning from the loop runs the deferred close of the pending connection.
  function Leave(l: Loop): (Loop, seq<Effect>) {
    (l.(running := false, pending := None), if l.pending.Some? then [Close(l.pending.value)] else [])
  }

  function React(l: Loop, e: Event): (r: (Loop, seq<Effect>))
    requires Consistent(l) && Selectable(l, e)
    ensures Consistent(r.0)
  {
    match (l.state, e)
    case (Wait, Incoming(c)) => (Loop(true, Conn1, Some(c)), [Send(Connect)])
    case (Conn1, Command(s)) =>
      if s.kind == SIGNAL_CONNECT_AGREE then (Loop(true, Wait, None), [Pair(l.pending.value)])
      else if s.kind == SIGNAL_CONNECT_REFUSE then (Loop(true, Wait, None), [Close(l.pending.value)])
      else Leave(l)
    case _ => Leave(l)
  }

  // A schedule of picks that the loop can really make.
  predicate Schedule(l: Loop, es: seq<Event>)
    requires Consistent(l)
    decreases |es|
  {
    es == [] || (Selectable(l, es[0]) && Schedule(React(l, es[0]).0, es[1..]))
  }

  function RunLoop(l: Loop, es: seq<Event>): (Loop, seq<Effect>)
    requires Consistent(l) && Schedule(l, es)
    decreases |es|
  {
    if es == [] then (l, [])
    else
      var (l1, f1) := React(l, es[0]);
      var (l2, f2) := RunLoop(l1, es[1..]);
      (l2, f1 + f2)
  }

  // How often the listener handed over connection c.
  function Taken(es: seq<Event>, c: nat): nat {
    if es == [] then 0 else (if es[0] == Incoming(c) then 1 else 0) + Taken(es[1..], c)
  }

  // How often connection c was given up again, to a pairing or closed.
  function Released(fs: seq<Effect>, c: nat): nat {
    if fs == [] then 0 else (if fs[0] == Pair(c) || fs[0] == Close(c) then 1 else 0) + Released(fs[1..], c)
  }

  function Held(l: Loop, c: nat): nat {
    if l.pending == Some(c) then 1 else 0
  }

  function Arrivals(es: seq<Event>): nat {
    if es == [] then 0 else (if es[0].Incoming? then 1 else 0) + Arrivals(es[1..])
  }

  function Requests(fs: seq<Effect>): nat {
    if fs == [] then 0 else (if fs[0] == Send(Connect) then 1 else 0) + Requests(fs[1..])
  }

  lemma {:induction false} EffectsConcat(f1: seq<Effect>, f2: seq<Effect>, c: nat)
    ensures Released(f1 + f2, c) == Released(f1, c) + Released(f2, c)
    ensures Requests(f1 + f2) == Requests(f1) + Requests(f2)
  {
    if f1 == [] {
      assert f1 + f2 == f2;
    } else {
      assert (f1 + f2)[1..] == f1[1..] + f2;
      EffectsConcat(f1[1..], f2, c);
    }
  }

  /** Against any peer and any schedule, the loop neither drops nor duplicates a connection: each one
      taken from the listener is in the pending slot or was handed over exactly once, each one cost
      exactly one Connect, and none is held once the loop is left. */
  lemma {:induction false} EveryConnectionIsReleasedOnce(l: Loop, es: seq<Event>, c: nat)
    requires Consistent(l) && Schedule(l, es)
    ensures var (l', fs) := RunLoop(l, es);
            && Held(l, c) + Taken(es, c) == Released(fs, c) + Held(l', c)
            && Requests(fs) == Arrivals(es)
            && (!l'.running ==> Held(l', c) == 0)
    decreases |es|
  {
    if es != [] {
      var (l1, f1) := React(l, es[0]);
      assert Held(l, c) + (if es[0] == Incoming(c) then 1 else 0) == Released(f1, c) + Held(l1, c);
      EveryConnectionIsReleasedOnce(l1, es[1..], c);
      EffectsConcat(f1, RunLoop(l1, es[1..]).1, c);
    }
  }

  predicate IsAgree(e: Event) { e.Command? && e.sig.kind == SIGNAL_CONNECT_AGREE }

  predicate IsRefuse(e: Event) { e.Command? && e.sig.kind == SIGNAL_CONNECT_REFUSE }

  // The conversation as it is meant, two events at a time and without a state: each connection is asked
  // for, and paired or closed as the answer says. Anything out of turn ends it, and gives up a connection
  // that was asked for.
  function Dialogue(es: seq<Event>): (bool, seq<Effect>)
    decreases |es|
  {
    if es == [] then (true, [])
    else if !es[0].Incoming? then (false, [])
    else
      var c := es[0].conn;
      if |es| == 1 then (true, [Send(Connect)])
      else if IsAgree(es[1]) || IsRefuse(es[1]) then
        var (on, fs) := Dialogue(es[2..]);
        (on, [Send(Connect), if IsAgree(es[1]) then Pair(c) else Close(c)] + fs)
      else (false, [Send(Connect), Close(c)])
  }

  lemma TwoEvents(l: Loop, es: seq<Event>)
    requires Consistent(l) && Schedule(l, es) && |es| >= 2 && Selectable(React(l, es[0]).0, es[1])
    ensures var (l1, f1) := React(l, es[0]);
            var (l2, f2) := React(l1, es[1]);
            && Schedule(l2, es[2..])
            && RunLoop(l, es) == (RunLoop(l2, es[2..]).0, f1 + (f2 + RunLoop(l2, es[2..]).1))
  {
    assert es[1..][1..] == es[2..];
  }

  /** The loop with its two states holds exactly this conversation, over every schedule. */
  lemma {:induction false} LoopIsADialogue(es: seq<Event>)
    requires Schedule(Start, es)
    ensures RunLoop(Start, es).0.running == Dialogue(es).0
    ensures RunLoop(Start, es).1 == Dialogue(es).1
    decreases |es|
  {
    if es == [] {
    } else if |es| == 1 {
      assert es[1..] == [];
      var (l1, f1) := React(Start, es[0]);
      assert RunLoop(l1, []) == (l1, []) && f1 + [] == f1;
    } else {
      var (l1, f1) := React(Start, es[0]);
      assert Schedule(l1, es[1..]) && es[1..][0] == es[1];
      var (l2, f2) := React(l1, es[1]);
      TwoEvents(Start, es);
      if l2 == Start {
        LoopIsADialogue(es[2..]);
        assert f1 + (f2 + Dialogue(es[2..]).1) == (f1 + f2) + Dialogue(es[2..]).1;
      } else {
        assert es[2..] == [];
        assert f1 + (f2 + []) == f1 + f2;
      }
    }
  }

  class PortForwardClientLoop {
    var running: bool
    var state: ClientState
    var pendingConn: Option<nat>
    var effects: seq<Effect>

    function View(): Loop
      reads this
    {
      Loop(running, state, pendingConn)
    }

    constructor ()
      ensures View() == Start && effects == []
    {
      running, state, pendingConn, effects := true, Wait, None, [];
    }

    method Return()
      modifies this
      ensures View() == Leave(old(View())).0
      ensures effects == old(effects) + Leave(old(View())).1
    {
      running := false;
      if pendingConn.Some? {
        effects := effects + [Close(pendingConn.value)];
        pendingConn := None;
      }
    }

    method Iterate(e: Event)
      requires Consistent(View()) && Selectable(View(), e)
      modifies this
      ensures View() == React(old(View()), e).0
      ensures effects == old(effects) + React(old(View()), e).1
    {
      match state {
        case Wait =>
          if e.Incoming? {
            effects := effects + [Send(Connect)];
            pendingConn := Some(e.conn);
            state := Conn1;
          } else {
            Return();
          }
        case Conn1 =>
          if e.Command? && e.sig.kind == SIGNAL_CONNECT_AGREE {
            effects := effects + [Pair(pendingConn.value)];
            state := Wait;
            pendingConn := None;
          } else if e.Command? && e.sig.kind == SIGNAL_CONNECT_REFUSE {
            state := Wait;
            effects := effects + [Close(pendingConn.value)];
            pendingConn := None;
          } else {
            Return();
          }
      }
    }

    method Run(picks: seq<Event>)
      requires Consistent(View()) && Schedule(View(), picks)
      modifies this
      ensures View() == RunLoop(old(View()), picks).0
      ensures effects == old(effects) + RunLoop(old(View()), picks).1
    {
      var i := 0;
      while i < |picks|
        invariant 0 <= i <= |picks|
        invariant Consistent(View()) && Schedule(View(), picks[i..])
        invariant RunLoop(old(View()), picks).0 == RunLoop(View(), picks[i..]).0
        invariant old(effects) + RunLoop(old(View()), picks).1 == effects + RunLoop(View(), picks[i..]).1
      {
        assert picks[i..][1..] == picks[i + 1..];
        Iterate(picks[i]);
        i := i + 1;
      }
    }
  }
}

/** The server loop: it keeps no state of its own, so one iteration is a function of the command and of
    what the dial returned. */
module ForwardServer {
  import opened ForwardSignals

  datatype DialOutcome = Connected(conn: nat) | TimedOut | Failed

  datatype Event = Dying | CommandClosed | Command(sig: Signal)

  function Refusal(code: int): Signal {
    Signal(PROTOCOL_VERSION, SIGNAL_CONNECT_REFUSE, code)
  }

  // The answer to a Connect; an agreement goes out before the pairing is started.
  function Answer(dial: DialOutcome): seq<Effect> {
    match dial
    case Connected(c) => [Send(Agree), Pair(c)]
    case TimedOut => [Send(Refusal(CODE_PORT_TIMEOUT))]
    case Failed => [Send(Refusal(CODE_PORT_REFUSED))]
  }

  // Whether the loop goes on, and what it did.
  function React(e: Event, dial: DialOutcome): (bool, seq<Effect>) {
    match e
    case Command(s) =>
      if s.kind == SIGNAL_CONNECT then (true, Answer(dial))
      else (s.kind != SIGNAL_BYE, [])
    case _ => (false, [])
  }

  // The loop over a schedule of commands and dial outcomes; it stops at the first event that ends it.
  function RunLoop(es: seq<(Event, DialOutcome)>): (bool, seq<Effect>) {
    if es == [] then (true, [])
    else
      var (on, f) := React(es[0].0, es[0].1);
      if !on then (false, f)
      else
        var (on2, f2) := RunLoop(es[1..]);
        (on2, f + f2)
  }

  // What became of a dial, as the server knows it and as the client can tell from the answer.
  datatype Report = Opened | LateDial | RefusedDial | Unclear

  function ReportOf(sig: Signal): Report {
    if sig == Agree then Opened
    else if sig.kind != SIGNAL_CONNECT_REFUSE then Unclear
    else if sig.code == CODE_PORT_TIMEOUT then LateDial
    else if sig.code == CODE_PORT_REFUSED then RefusedDial
    else Unclear
  }

  // What ends the loop: a dying tomb, the end of the commands, or a Bye. Other commands are passed over.
  predicate Ends(e: Event) { !e.Command? || e.sig.kind == SIGNAL_BYE }

  // The outcomes of the dials that the Connects caused before the loop ends.
  function Outcomes(es: seq<(Event, DialOutcome)>): seq<Report> {
    if es == [] || Ends(es[0].0) then []
    else
      var report := match es[0].1 case Connected(_) => Opened case TimedOut => LateDial case Failed => RefusedDial;
      (if es[0].0.Command? && es[0].0.sig.kind == SIGNAL_CONNECT then [report] else []) + Outcomes(es[1..])
  }

  // The connections dialed before the loop ends, in order.
  function Dialed(es: seq<(Event, DialOutcome)>): seq<nat> {
    if es == [] || Ends(es[0].0) then []
    else
      (if es[0].0.Command? && es[0].0.sig.kind == SIGNAL_CONNECT && es[0].1.Connected? then [es[0].1.conn] else [])
      + Dialed(es[1..])
  }

  // What the client is told, answer by answer.
  function Reports(fs: seq<Effect>): seq<Report> {
    if fs == [] then [] else (if fs[0].Send? then [ReportOf(fs[0].sig)] else []) + Reports(fs[1..])
  }

  // Every pairing follows the agreement that announced it, and every agreement is followed by its pairing.
  predicate AgreedPairings(fs: seq<Effect>, conns: seq<nat>) {
    if fs == [] then conns == []
    else if fs[0] == Send(Agree) then
      |fs| >= 2 && conns != [] && fs[1] == Pair(conns[0]) && AgreedPairings(fs[2..], conns[1..])
    else fs[0].Send? && AgreedPairings(fs[1..], conns)
  }

  lemma AnswerTells(dial: DialOutcome, rest: seq<Effect>)
    ensures Reports(Answer(dial) + rest)
            == [match dial case Connected(_) => Opened case TimedOut => LateDial case Failed => RefusedDial] + Reports(rest)
    ensures forall conns :: AgreedPairings(rest, conns) ==>
              AgreedPairings(Answer(dial) + rest, if dial.Connected? then [dial.conn] + conns else conns)
  {
    var fs := Answer(dial) + rest;
    if dial.Connected? {
      assert fs[1..][1..] == rest == fs[2..];
      forall conns | AgreedPairings(rest, conns)
        ensures AgreedPairings(fs, [dial.conn] + conns)
      {
        assert ([dial.conn] + conns)[1..] == conns;
      }
    } else {
      assert fs[1..] == rest;
    }
  }

  /** Whatever the client sends: one answer for each Connect, in order, and each tells what became of its
      dial; the pairings started are exactly the dialed connections in dial order, each right after its
      own agreement; and it goes on exactly as long as nothing ends it. */
  lemma {:induction false} EveryRequestIsAnsweredOnce(es: seq<(Event, DialOutcome)>)
    ensures Reports(RunLoop(es).1) == Outcomes(es)
    ensures AgreedPairings(RunLoop(es).1, Dialed(es))
    ensures RunLoop(es).0 <==> forall i :: 0 <= i < |es| ==> !Ends(es[i].0)
  {
    assert es != [] ==> React(es[0].0, es[0].1).0 == !Ends(es[0].0);
    if es != [] && !Ends(es[0].0) {
      assert forall i :: 1 <= i < |es| ==> es[i] == es[1..][i - 1];
      hide AgreedPairings, Reports;
      EveryRequestIsAnsweredOnce(es[1..]);
      var f, rest := React(es[0].0, es[0].1).1, RunLoop(es[1..]).1;
      if f == [] {
        assert f + rest == rest;
        assert [] + Dialed(es[1..]) == Dialed(es[1..]) && [] + Outcomes(es[1..]) == Outcomes(es[1..]);
      } else {
        AnswerTells(es[0].1, rest);
        assert [] + Dialed(es[1..]) == Dialed(es[1..]);
      }
    }
  }

  class PortForwardServerLoop {
    var running: bool
    var effects: seq<Effect>

    constructor ()
      ensures running && effects == []
    {
      running, effects := true, [];
    }

    method Iterate(e: Event, dial: DialOutcome)
      requires running
      modifies this
      ensures running == React(e, dial).0
      ensures effects == old(effects) + React(e, dial).1
    {
      if !e.Command? {
        running := false;
      } else if e.sig.kind == SIGNAL_CONNECT {
        if dial.Connected? {
          effects := effects + [Send(Agree)];
          effects := effects + [Pair(dial.conn)];
        } else {
          var code := if dial.TimedOut? then CODE_PORT_TIMEOUT else CODE_PORT_REFUSED;
          effects := effects + [Send(Signal(PROTOCOL_VERSION, SIGNAL_CONNECT_REFUSE, code))];
        }
      } else if e.sig.kind == SIGNAL_BYE {
        running := false;
      }
    }

    method Run(picks: seq<(Event, DialOutcome)>)
      requires running
      modifies this
      ensures running == RunLoop(picks).0
      ensures effects == old(effects) + RunLoop(picks).1
    {
      var i := 0;
      while i < |picks| && running
        invariant 0 <= i <= |picks|
        invariant running ==> RunLoop(picks).0 == RunLoop(picks[i..]).0
        invariant running ==> old(effects) + RunLoop(picks).1 == effects + RunLoop(picks[i..]).1
        invariant !running ==> !RunLoop(picks).0 && effects == old(effects) + RunLoop(picks).1
      {
        assert picks[i..][1..] == picks[i + 1..];
        Iterate(picks[i].0, picks[i].1);
        i := i + 1;
      }
    }
  }
}
