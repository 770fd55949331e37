/**
 The two ends of the command stream: identity check, handshake and main loop of each, with the FIFO
 between them. What an end writes is its log; what it has read is a prefix of the other end's log.
 Both ends may stop at any time. The pairings they start are in module Tunnel.
 */
module CommandStream {
  import opened Wrappers
  import opened ForwardSignals
  import opened Modes
  import Client = ForwardClient
  import Server = ForwardServer

  datatype Item = Identity(mode: string) | Command(sig: Signal)

  // What the end does next, up to its main loop. The client greets first, the server replies.
  datatype Phase = Joining | Introducing | AwaitIdentity | Greeting | AwaitGreeting | Looping

  // The acceptor is the goroutine that holds one accepted TCP connection until the loop takes it.
  datatype ClientEnd = ClientEnd(
    phase: Phase, alive: bool, loop: Client.Loop, acceptor: Option<nat>, accepted: nat, log: seq<Item>, read: nat)

  // todo is what the current iteration of the server loop still has to do.
  datatype ServerEnd = ServerEnd(
    phase: Phase, alive: bool, dialing: bool, todo: seq<Effect>, dialed: nat, log: seq<Item>, read: nat)

  const ClientInit := ClientEnd(Joining, true, Client.Start, None, 0, [], 0)
  const ServerInit := ServerEnd(Joining, true, false, [], 0, [], 0)

  predicate IsHello(i: Item) {
    i.Command? && i.sig.version == PROTOCOL_VERSION && i.sig.kind == SIGNAL_HANDSHAKE
  }

  // An identity record is no signal of any kind the loops know.
  function SignalOf(i: Item): Signal {
    if i.Command? then i.sig else Signal(0, -1, 0)
  }

  // ------------------------------------------------------------------ client end

  // whole: the one read that the mode check makes brings the whole string.
  datatype ClientStep =
    | Open | SendMode | CheckMode(whole: bool) | SendHello | CheckHello
    | ListenerAccept | TakeConnection | ReadCommand | Stop

  predicate InClientLoop(c: ClientEnd) {
    c.alive && c.phase.Looping? && c.loop.running && Client.Consistent(c.loop)
  }

  predicate ClientCan(c: ClientEnd, step: ClientStep, inbox: seq<Item>) {
    match step
    case Open => c.alive && c.phase.Joining?
    case SendMode => c.alive && c.phase.Introducing?
    case CheckMode(_) => c.alive && c.phase.AwaitIdentity? && c.read < |inbox|
    case SendHello => c.alive && c.phase.Greeting?
    case CheckHello => c.alive && c.phase.AwaitGreeting? && c.read < |inbox|
    case ListenerAccept => c.alive && c.phase.Looping? && c.acceptor.None?
    case TakeConnection => InClientLoop(c) && c.loop.state.Wait? && c.acceptor.Some?
    case ReadCommand => InClientLoop(c) && c.read < |inbox|
    case Stop => c.alive
  }

  // One iteration of the loop: its new variables, and its effect on the log.
  function Iterate(c: ClientEnd, e: Client.Event): (ClientEnd, seq<Effect>)
    requires InClientLoop(c) && Client.Selectable(c.loop, e)
  {
    var (l, fs) := Client.React(c.loop, e);
    (c.(loop := l, alive := l.running,
        log := if fs != [] && fs[0].Send? then c.log + [Command(fs[0].sig)] else c.log), fs)
  }

  // The new end, and what the loop did besides writing commands.
  function ClientDoes(c: ClientEnd, step: ClientStep, inbox: seq<Item>): (ClientEnd, seq<Effect>)
    requires ClientCan(c, step, inbox)
  {
    match step
    case Open => (c.(phase := Introducing), [])
    case SendMode => (c.(phase := AwaitIdentity, log := c.log + [Identity(MODE_PORT_FORWARD_CLIENT)]), [])
    case CheckMode(whole) =>
      (c.(phase := Greeting, read := c.read + 1, alive := whole && inbox[c.read] == Identity(MODE_PORT_FORWARD_SERVER)), [])
    case SendHello => (c.(phase := AwaitGreeting, log := c.log + [Command(Hello)]), [])
    case CheckHello => (c.(phase := Looping, read := c.read + 1, alive := IsHello(inbox[c.read])), [])
    case ListenerAccept => (c.(acceptor := Some(c.accepted), accepted := c.accepted + 1), [])
    case TakeConnection => Iterate(c.(acceptor := None), Client.Incoming(c.acceptor.value))
    case ReadCommand => Iterate(c.(read := c.read + 1), Client.Command(SignalOf(inbox[c.read])))
    case Stop => if InClientLoop(c) then Iterate(c, Client.Dying) else (c.(alive := false), [])
  }

  // ------------------------------------------------------------------ server end

  datatype ServerStep =
    | Accept | SendMode | CheckMode(whole: bool) | CheckHello | ReplyHello
    | ReadCommand | DialReturns(ok: bool, timeout: bool) | Act | Stop

  predicate InServerLoop(v: ServerEnd) { v.alive && v.phase.Looping? }

  predicate Idle(v: ServerEnd) { !v.dialing && v.todo == [] }

  predicate ServerCan(v: ServerEnd, step: ServerStep, inbox: seq<Item>) {
    match step
    case Accept => v.alive && v.phase.Joining?
    case SendMode => v.alive && v.phase.Introducing?
    case CheckMode(_) => v.alive && v.phase.AwaitIdentity? && v.read < |inbox|
    case CheckHello => v.alive && v.phase.AwaitGreeting? && v.read < |inbox|
    case ReplyHello => v.alive && v.phase.Greeting?
    case ReadCommand => InServerLoop(v) && Idle(v) && v.read < |inbox|
    case DialReturns(_, _) => InServerLoop(v) && v.dialing
    case Act => InServerLoop(v) && v.todo != []
    case Stop => v.alive && Idle(v)
  }

  function DialOutcome(v: ServerEnd, ok: bool, timeout: bool): Server.DialOutcome {
    if ok then Server.Connected(v.dialed) else if timeout then Server.TimedOut else Server.Failed
  }

  function ServerDoes(v: ServerEnd, step: ServerStep, inbox: seq<Item>): (ServerEnd, seq<Effect>)
    requires ServerCan(v, step, inbox)
  {
    match step
    case Accept => (v.(phase := Introducing), [])
    case SendMode => (v.(phase := AwaitIdentity, log := v.log + [Identity(MODE_PORT_FORWARD_SERVER)]), [])
    case CheckMode(whole) =>
      (v.(phase := AwaitGreeting, read := v.read + 1, alive := whole && inbox[v.read] == Identity(MODE_PORT_FORWARD_CLIENT)), [])
    case CheckHello => (v.(phase := Greeting, read := v.read + 1, alive := IsHello(inbox[v.read])), [])
    case ReplyHello => (v.(phase := Looping, log := v.log + [Command(Hello)]), [])
    case ReadCommand =>
      var sig := SignalOf(inbox[v.read]);
      var v' := v.(read := v.read + 1);
      if sig.kind == SIGNAL_CONNECT then (v'.(dialing := true), [])
      else (v'.(alive := Server.React(Server.Command(sig), Server.Failed).0), [])
    case DialReturns(ok, timeout) =>
      (v.(dialing := false, dialed := if ok then v.dialed + 1 else v.dialed,
          todo := Server.React(Server.Command(Connect), DialOutcome(v, ok, timeout)).1), [])
    case Act =>
      var v' := v.(todo := v.todo[1..]);
      (if v.todo[0].Send? then v'.(log := v.log + [Command(v.todo[0].sig)]) else v', [v.todo[0]])
    case Stop => (v.(alive := false), [])
  }

  // ------------------------------------------------------------------ what each check accepts

  /** Against any peer: an end goes on after its mode check exactly when the one read brings the whole string
      that belongs to the other role, and after its handshake check exactly on a record of version 1 and
      type 0, whatever its code. */
  lemma ChecksDecide(c: ClientEnd, v: ServerEnd, inbox: seq<Item>, whole: bool)
    ensures ClientCan(c, ClientStep.CheckMode(whole), inbox) ==>
              (ClientDoes(c, ClientStep.CheckMode(whole), inbox).0.alive <==> whole && inbox[c.read] == Identity("MODE_PORT_SERV"))
    ensures ServerCan(v, ServerStep.CheckMode(whole), inbox) ==>
              (ServerDoes(v, ServerStep.CheckMode(whole), inbox).0.alive <==> whole && inbox[v.read] == Identity("MODE_PORT_CLIE"))
    ensures ClientCan(c, ClientStep.CheckHello, inbox) ==>
              (ClientDoes(c, ClientStep.CheckHello, inbox).0.alive <==>
                 inbox[c.read].Command? && inbox[c.read].sig.version == 1 && inbox[c.read].sig.kind == 0)
    ensures ServerCan(v, ServerStep.CheckHello, inbox) ==>
              (ServerDoes(v, ServerStep.CheckHello, inbox).0.alive <==>
                 inbox[v.read].Command? && inbox[v.read].sig.version == 1 && inbox[v.read].sig.kind == 0)
  {
  }

  /** Against any client: a Connect is dialed, a Bye ends the server, and every other command is passed over;
      the dial's outcome decides the answer: agree and pair, or refuse with the code for a timeout or for
      any other failure. */
  lemma ServerDecides(v: ServerEnd, inbox: seq<Item>, ok: bool, timeout: bool)
    ensures ServerCan(v, ServerStep.ReadCommand, inbox) && inbox[v.read].Command? ==>
              var v', kind := ServerDoes(v, ServerStep.ReadCommand, inbox).0, inbox[v.read].sig.kind;
              (v'.dialing <==> kind == 1) && (v'.alive <==> kind != 4) && v'.todo == []
    ensures ServerCan(v, DialReturns(ok, timeout), inbox) ==>
              var v' := ServerDoes(v, DialReturns(ok, timeout), inbox).0;
              && v'.dialed == v.dialed + (if ok then 1 else 0) && v'.alive && !v'.dialing
              && v'.todo == if ok then [Send(Signal(1, 3, 0)), Pair(v.dialed)] else [Send(Signal(1, 2, if timeout then 2 else 1))]
  {
  }

  /** An end that stops does nothing any more, and the client has given up its pending connection. */
  lemma StopIsFinal(c: ClientEnd, v: ServerEnd, inbox: seq<Item>)
    ensures c.alive ==>
              var c' := ClientDoes(c, ClientStep.Stop, inbox).0;
              && (forall step, later :: !ClientCan(c', step, later))
              && (InClientLoop(c) ==> c'.loop.pending.None?)
    ensures v.alive && Idle(v) ==>
              var v' := ServerDoes(v, ServerStep.Stop, inbox).0;
              forall step, later :: !ServerCan(v', step, later)
  {
  }

  // ------------------------------------------------------------------ invariant

  predicate IsConnect(i: Item) { i == Command(Connect) }

  predicate IsAgree(i: Item) { i == Command(Agree) }

  predicate IsRefusal(i: Item) { i.Command? && i.sig.kind == SIGNAL_CONNECT_REFUSE }

  // The client waits for an answer.
  function Outstanding(c: ClientEnd): nat { if c.loop.state.Conn1? then 1 else 0 }

  // The server has read a Connect and not yet written the answer.
  function Answering(v: ServerEnd): nat {
    if v.dialing || (v.todo != [] && v.todo[0].Send?) then 1 else 0
  }

  ghost predicate ClientInv(c: ClientEnd) {
    && |c.log| == (match c.phase
                   case Joining => 0 case Introducing => 0 case AwaitIdentity => 1 case Greeting => 1
                   case AwaitGreeting => 2 case Looping => c.read + Outstanding(c))
    && (match c.phase
        case Greeting => c.read == 1 case AwaitGreeting => c.read == 1
        case Looping => c.read >= 2 case _ => c.read == 0)
    && (|c.log| > 0 ==> c.log[0] == Identity(MODE_PORT_FORWARD_CLIENT))
    && (|c.log| > 1 ==> c.log[1] == Command(Hello))
    && (forall i :: 2 <= i < |c.log| ==> IsConnect(c.log[i]))
    && Client.Consistent(c.loop)
    && (c.alive ==> c.loop.running)
    && (!c.phase.Looping? ==> c.loop.state.Wait? && c.loop.pending.None?)
  }

  // An agreement and its pairing, the pairing alone, or a refusal.
  ghost predicate TodoShape(v: ServerEnd) {
    match |v.todo|
    case 0 => true
    case 1 => (v.todo[0].Pair? && v.todo[0].conn < v.dialed) || (v.todo[0].Send? && IsRefusal(Command(v.todo[0].sig)))
    case 2 => v.todo[0] == Send(Agree) && v.todo[1].Pair? && v.todo[1].conn < v.dialed
    case _ => false
  }

  ghost predicate ServerInv(v: ServerEnd) {
    && |v.log| + Answering(v) == (match v.phase
                   case Joining => 0 case Introducing => 0 case AwaitIdentity => 1
                   case AwaitGreeting => 1 case Greeting => 1 case Looping => v.read)
    && (match v.phase
        case AwaitGreeting => v.read == 1 case Greeting => v.read == 2
        case Looping => |v.log| >= 2 case _ => v.read == 0)
    && (|v.log| > 0 ==> v.log[0] == Identity(MODE_PORT_FORWARD_SERVER))
    && (|v.log| > 1 ==> v.log[1] == Command(Hello))
    && (forall i :: 2 <= i < |v.log| ==> IsAgree(v.log[i]) || IsRefusal(v.log[i]))
    && (!v.phase.Looping? ==> Idle(v))
    && (v.dialing ==> v.todo == [])
    && TodoShape(v)
    && (|v.todo| == 1 && v.todo[0].Pair? ==> |v.log| > 0 && IsAgree(v.log[|v.log| - 1]))
  }

  ghost predicate WireInv(c: ClientEnd, v: ServerEnd) {
    ClientInv(c) && ServerInv(v) && c.read <= |v.log| && v.read <= |c.log|
  }

  predicate LoopStep(step: ClientStep) { step.TakeConnection? || step.ReadCommand? || step.Stop? }

  lemma ClientSetupKeeps(c: ClientEnd, v: ServerEnd, step: ClientStep)
    requires WireInv(c, v) && ClientCan(c, step, v.log) && !LoopStep(step)
    ensures WireInv(ClientDoes(c, step, v.log).0, v)
  {
  }

  /** While the loop runs, an answer is readable only in Conn1, and it is an agreement or a refusal. */
  lemma ReadableAnswer(c: ClientEnd, v: ServerEnd)
    requires WireInv(c, v) && InClientLoop(c) && c.read < |v.log|
    ensures c.loop.state.Conn1? && (IsAgree(v.log[c.read]) || IsRefusal(v.log[c.read]))
    ensures |v.log| == c.read + 1 && v.read == |c.log| && Answering(v) == 0
  {
  }

  lemma ClientLoopKeeps(c: ClientEnd, v: ServerEnd, step: ClientStep)
    requires WireInv(c, v) && ClientCan(c, step, v.log) && LoopStep(step)
    ensures WireInv(ClientDoes(c, step, v.log).0, v)
  {
    if step.ReadCommand? {
      ReadableAnswer(c, v);
    }
  }

  lemma ServerStepKeeps(c: ClientEnd, v: ServerEnd, step: ServerStep)
    requires WireInv(c, v) && ServerCan(v, step, c.log)
    ensures WireInv(c, ServerDoes(v, step, c.log).0)
  {
  }
}
