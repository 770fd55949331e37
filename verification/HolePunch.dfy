/**
 Two paired peers, each in one traversal round: the reading loop, and any number of senders beside it,
 whose load of the state and later writes are separate steps. The network may lose, duplicate, delay and
 reorder what the peers send to each other, and may show any source address. Records from the server
 reach each peer any number of times.
 */
module HolePunch {
  import opened Wrappers
  import opened Traversal

  datatype Status = Reading | Left(addr: Addr) | GaveUp

  // heard: a ping or pong of the other peer was taken in, past state 0.
  datatype Peer = Peer(vars: Vars, status: Status, senders: seq<Sender>, heard: bool)

  const NewPeer := Peer(Fresh, Reading, [], false)

  // What one peer has ever sent to the other.
  datatype Net = Net(pings: bool, pongs: bool)

  // The two peers, told apart by a boolean.
  datatype System = System(left: Peer, right: Peer, fromLeft: Net, fromRight: Net)

  const Start := System(NewPeer, NewPeer, Net(false, false), Net(false, false))

  function At(s: System, p: bool): Peer { if p then s.left else s.right }

  function SentBy(s: System, p: bool): Net { if p then s.fromLeft else s.fromRight }

  function Put(s: System, p: bool, peer: Peer, net: Net): System {
    if p then s.(left := peer, fromLeft := net) else s.(right := peer, fromRight := net)
  }

  datatype Step =
    | ServerSays(p: bool, d: Datagram, from: Addr, resolves: Addr -> bool) // any record without fromPeer, or garbage
    | PeerSays(p: bool, ping: bool, from: Addr)          // a datagram the other peer sent
    | ReadFails(p: bool)                                 // timeout, cancellation, socket error
    | SenderLoads(p: bool, i: nat)
    | SenderWrites(p: bool, i: nat)

  predicate FromServer(d: Datagram) { d.Garbage? || d.fromPeer.None? }

  predicate Can(s: System, step: Step) {
    match step
    case ServerSays(p, d, _, _) => At(s, p).status.Reading? && FromServer(d)
    case PeerSays(p, ping, _) =>
      At(s, p).status.Reading? && (if ping then SentBy(s, !p).pings else SentBy(s, !p).pongs)
    case ReadFails(p) => At(s, p).status.Reading?
    case SenderLoads(p, i) => i < |At(s, p).senders| && At(s, p).senders[i].pc.Loading?
    case SenderWrites(p, i) => i < |At(s, p).senders| && (At(s, p).senders[i].pc.First? || At(s, p).senders[i].pc.Second?)
  }

  // The peer after one datagram, and what it sends at once.
  function Read(peer: Peer, d: Datagram, from: Addr, resolves: Addr -> bool): Peer {
    var (v, r) := OnDatagram(peer.vars, d, from, resolves);
    var peer' := peer.(vars := v, heard := peer.heard || (!FromServer(d) && peer.vars.state >= 1));
    match r
    case GoOn(spawn) => if spawn then peer'.(senders := peer.senders + [NewSender]) else peer'
    case Done(addr, _) => peer'.(status := Left(addr))
    case Failed(_, _) => peer'.(status := GaveUp)
    case Panics => peer'.(status := GaveUp)
  }

  function Sent(net: Net, out: Sends): Net
    decreases |out|
  {
    if out == [] then net
    else Sent(if out[0].0 == Ping then net.(pings := true) else net.(pongs := true), out[1..])
  }

  function Apply(s: System, step: Step): System
    requires Can(s, step)
  {
    match step
    case ServerSays(p, d, from, resolves) => Put(s, p, Read(At(s, p), d, from, resolves), SentBy(s, p))
    case PeerSays(p, ping, from) =>
      var peer := Read(At(s, p), if ping then Ping else Pong, from, _ => true);
      // leaving on a pong sends one last pong
      Put(s, p, peer, if peer.status.Left? then SentBy(s, p).(pongs := true) else SentBy(s, p))
    case ReadFails(p) => Put(s, p, At(s, p).(status := GaveUp), SentBy(s, p))
    case SenderLoads(p, i) =>
      var peer := At(s, p);
      Put(s, p, peer.(senders := peer.senders[i := Load(peer.senders[i], peer.vars.state)]), SentBy(s, p))
    case SenderWrites(p, i) =>
      var peer := At(s, p);
      var (sender, out) := Write(peer.senders[i], peer.vars);
      Put(s, p, peer.(senders := peer.senders[i := sender]), Sent(SentBy(s, p), out))
  }

  predicate IsRun(s: System, run: seq<Step>)
    decreases |run|
  {
    run == [] || (Can(s, run[0]) && IsRun(Apply(s, run[0]), run[1..]))
  }

  function Exec(s: System, run: seq<Step>): System
    requires IsRun(s, run)
    decreases |run|
  {
    if run == [] then s else Exec(Apply(s, run[0]), run[1..])
  }

  // ------------------------------------------------------------------ invariant

  predicate SenderInv(s: Sender, peer: Peer) {
    peer.vars.info.Some? && Bounded(s) && (s.pc == First(false) ==> peer.heard)
  }

  predicate PeerInv(peer: Peer, mine: Net, theirs: Net) {
    // the loop's variables
    && (peer.status.Reading? ==> LoopHead(peer.vars))
    && (peer.vars.state >= 1 ==> peer.vars.info.Some?)
    && (peer.status.Left? ==> peer.vars.state == 3 && peer.vars.lastAddr == Some(peer.status.addr) && theirs.pongs)
    // a state past 1 means that the other peer was heard
    && (peer.vars.state >= 2 ==> peer.heard)
    && (peer.heard ==> peer.vars.info.Some? && (theirs.pings || theirs.pongs))
    // a sender exists only with pair info, and holds a pong only after hearing
    && (forall i :: 0 <= i < |peer.senders| ==> SenderInv(peer.senders[i], peer))
    // what is on the network
    && (mine.pings || mine.pongs ==> peer.vars.info.Some?)
    && (mine.pongs ==> peer.heard)
  }

  predicate Inv(s: System) {
    PeerInv(s.left, s.fromLeft, s.fromRight) && PeerInv(s.right, s.fromRight, s.fromLeft)
  }

  lemma ReadKeeps(peer: Peer, mine: Net, theirs: Net, d: Datagram, from: Addr, resolves: Addr -> bool)
    requires PeerInv(peer, mine, theirs) && peer.status.Reading?
    requires FromServer(d) || (d == Ping && theirs.pings) || (d == Pong && theirs.pongs)
    ensures var peer' := Read(peer, d, from, resolves);
            PeerInv(peer', if peer'.status.Left? then mine.(pongs := true) else mine, theirs)
  {
  }

  lemma LoadKeeps(peer: Peer, mine: Net, theirs: Net, i: nat)
    requires PeerInv(peer, mine, theirs) && i < |peer.senders| && peer.senders[i].pc.Loading?
    ensures PeerInv(peer.(senders := peer.senders[i := Load(peer.senders[i], peer.vars.state)]), mine, theirs)
  {
  }

  lemma SentOne(net: Net, out: Sends)
    requires |out| == 1
    ensures Sent(net, out) == if out[0].0 == Ping then net.(pings := true) else net.(pongs := true)
  {
    assert out[1..] == [];
  }

  // One sender's step leaves the others as they were.
  lemma OneSenderMoves(peer: Peer, i: nat, x: Sender)
    requires i < |peer.senders| && SenderInv(x, peer)
    requires forall j :: 0 <= j < |peer.senders| ==> SenderInv(peer.senders[j], peer)
    ensures var peer' := peer.(senders := peer.senders[i := x]);
            forall j :: 0 <= j < |peer'.senders| ==> SenderInv(peer'.senders[j], peer')
  {
    var peer' := peer.(senders := peer.senders[i := x]);
    forall j | 0 <= j < |peer'.senders|
      ensures SenderInv(peer'.senders[j], peer')
    {
      assert SenderInv(peer'.senders[j], peer);
    }
  }

  lemma WriteKeeps(peer: Peer, mine: Net, theirs: Net, i: nat)
    requires PeerInv(peer, mine, theirs) && i < |peer.senders|
    ensures var (sender, out) := Write(peer.senders[i], peer.vars);
            && PeerInv(peer.(senders := peer.senders[i := sender]), Sent(mine, out), theirs)
            && (mine.pings ==> Sent(mine, out).pings) && (mine.pongs ==> Sent(mine, out).pongs)
  {
    var (sender, out) := Write(peer.senders[i], peer.vars);
    assert SenderInv(peer.senders[i], peer);
    SenderStaysBounded(peer.senders[i], 0, peer.vars);
    OneSenderMoves(peer, i, sender);
    if out != [] {
      assert out[0].0 != Ping ==> peer.heard;
      SentOne(mine, out);
    }
  }

  lemma MoreSentIsFine(peer: Peer, mine: Net, theirs: Net, theirs': Net)
    requires PeerInv(peer, mine, theirs) && (theirs.pings ==> theirs'.pings) && (theirs.pongs ==> theirs'.pongs)
    ensures PeerInv(peer, mine, theirs')
  {
  }

  lemma StepKeepsInv(s: System, step: Step)
    requires Inv(s) && Can(s, step)
    ensures Inv(Apply(s, step))
  {
    var p := step.p;
    var peer, mine, theirs := At(s, p), SentBy(s, p), SentBy(s, !p);
    match step {
      case ServerSays(_, d, from, resolves) => ReadKeeps(peer, mine, theirs, d, from, resolves);
      case PeerSays(_, ping, from) => ReadKeeps(peer, mine, theirs, if ping then Ping else Pong, from, _ => true);
      case ReadFails(_) =>
      case SenderLoads(_, i) => LoadKeeps(peer, mine, theirs, i);
      case SenderWrites(_, i) => WriteKeeps(peer, mine, theirs, i);
    }
    MoreSentIsFine(At(s, !p), theirs, mine, SentBy(Apply(s, step), p));
  }

  lemma {:induction false} RunKeepsInv(s: System, run: seq<Step>)
    requires Inv(s) && IsRun(s, run)
    ensures Inv(Exec(s, run))
    decreases |run|
  {
    if run != [] {
      StepKeepsInv(s, run[0]);
      RunKeepsInv(Apply(s, run[0]), run[1..]);
    }
  }

  // ------------------------------------------------------------------ theorems

  /** Hole-punch knowledge, in every run: a peer that left the loop on a pong returns the address that pong
      came from, has heard the other peer, and the other peer has its pair info and has heard it. So the
      path works both ways. */
  lemma LeavingMeansBothHeard(run: seq<Step>, p: bool)
    requires IsRun(Start, run)
    ensures var s := Exec(Start, run);
            At(s, p).status.Left? ==>
              && At(s, p).vars.lastAddr == Some(At(s, p).status.addr)
              && At(s, p).vars.info.Some? && At(s, !p).vars.info.Some?
              && At(s, p).heard && At(s, !p).heard
              && (SentBy(s, p).pings || SentBy(s, p).pongs) && SentBy(s, !p).pongs
  {
    RunKeepsInv(Start, run);
  }

  /** In every run: a loop that still reads is past state 0 exactly with pair info, and then has an address
      to send to; no sender ever makes more than 8 rounds or 16 sends. */
  lemma TraversalStateInvariant(run: seq<Step>, p: bool)
    requires IsRun(Start, run)
    ensures var peer := At(Exec(Start, run), p);
            && (peer.status.Reading? ==> LoopHead(peer.vars))
            && (forall x :: x in peer.senders ==> peer.vars.info.Some? && x.round <= ROUNDS && x.sends <= 2 * ROUNDS)
  {
    RunKeepsInv(Start, run);
    var peer := At(Exec(Start, run), p);
    forall x | x in peer.senders
      ensures peer.vars.info.Some? && x.round <= ROUNDS && x.sends <= 2 * ROUNDS
    {
      var i :| 0 <= i < |peer.senders| && peer.senders[i] == x;
      assert SenderInv(peer.senders[i], peer);
    }
  }

  /** A sender that loads state 2 puts a pong on the network with its next write, and one that loads state 1 a
      ping, whatever the loop has done in between. */
  lemma LoadedStateIsSent(s: System, p: bool, i: nat, later: System)
    requires Can(s, SenderLoads(p, i)) && Can(later, SenderWrites(p, i))
    requires At(later, p).senders[i] == At(Apply(s, SenderLoads(p, i)), p).senders[i]
    ensures var state, net := At(s, p).vars.state, SentBy(Apply(later, SenderWrites(p, i)), p);
            && (state == 1 || state == 2)
            && net == (if state == 2 then SentBy(later, p).(pongs := true) else SentBy(later, p).(pings := true))
  {
    var out := Write(At(later, p).senders[i], At(later, p).vars).1;
    SentOne(SentBy(later, p), out);
  }

  lemma {:induction false} RunExtends(s: System, run: seq<Step>, step: Step)
    requires IsRun(s, run) && Can(Exec(s, run), step)
    ensures IsRun(s, run + [step]) && Exec(s, run + [step]) == Apply(Exec(s, run), step)
    decreases |run|
  {
    if run == [] {
      assert run + [step] == [step];
    } else {
      RunExtends(Apply(s, run[0]), run[1..], step);
      assert (run + [step])[1..] == run[1..] + [step];
    }
  }

  ghost predicate Reachable(s: System) { exists run :: IsRun(Start, run) && Exec(Start, run) == s }

  lemma Take(s: System, step: Step) returns (s': System)
    requires Reachable(s) && Can(s, step)
    ensures s' == Apply(s, step) && Reachable(s')
  {
    var run :| IsRun(Start, run) && Exec(Start, run) == s;
    RunExtends(Start, run, step);
    s' := Apply(s, step);
  }

  // Both peers have their pair info, and each has a sender about to start.
  lemma BothArePaired(left: PairInfo, right: PairInfo, server: Addr) returns (s: System)
    ensures Reachable(s) && s.fromLeft == Net(false, false) == s.fromRight
    ensures forall p :: At(s, p).status.Reading? && At(s, p).senders == [NewSender]
    ensures forall p :: At(s, p).vars.state == 1 && At(s, p).vars.info == Some(if p then left else right)
  {
    assert IsRun(Start, []) && Exec(Start, []) == Start;
    s := Take(Start, ServerSays(true, Record(Some(true), None, Some(left)), server, _ => true));
    s := Take(s, ServerSays(false, Record(Some(true), None, Some(right)), server, _ => true));
    assert s.left.senders == [] + [NewSender] && s.right.senders == [] + [NewSender];
  }

  // A ping of the left peer gets through.
  lemma PingGetsThrough(left: PairInfo, right: PairInfo, server: Addr, a: Addr) returns (s: System)
    ensures Reachable(s) && s.left.status.Reading? && s.right.status.Reading?
    ensures s.left.vars.state == 1 && s.left.vars.info.Some?
    ensures s.right.vars.state == 2 && s.right.vars.info.Some? && s.right.senders == [NewSender]
    ensures s.fromRight == Net(false, false)
  {
    var s0 := BothArePaired(left, right, server);
    assert At(s0, true).status.Reading? && At(s0, false).status.Reading?;
    assert At(s0, true).senders == [NewSender] && At(s0, true).vars.state == 1;
    assert At(s0, false).senders == [NewSender] && At(s0, false).vars.state == 1;
    var s1 := Take(s0, SenderLoads(true, 0));
    LoadedStateIsSent(s0, true, 0, s1);
    s := Take(s1, SenderWrites(true, 0));
    assert s.fromLeft.pings && s.right == s0.right;
    s := Take(s, PeerSays(false, true, a));
  }

  /** The round can succeed at both ends: a run in which a ping gets through, the pong that answers it, and the
      last pong that answers that one; both peers leave, each with the address that the other was seen at. */
  lemma BothMayLeave(left: PairInfo, right: PairInfo, server: Addr, a: Addr, b: Addr) returns (s: System)
    ensures Reachable(s) && s.left.status == Left(b) && s.right.status == Left(a)
  {
    var s0 := PingGetsThrough(left, right, server, a);
    var s1 := Take(s0, SenderLoads(false, 0));
    LoadedStateIsSent(s0, false, 0, s1);
    s := Take(s1, SenderWrites(false, 0));
    assert s.fromRight.pongs && s.left == s0.left && s.right.status.Reading? && s.right.vars == s0.right.vars;
    s := Take(s, PeerSays(true, false, b));
    s := Take(s, PeerSays(false, false, a));
  }
}
