/**
 One daemon and any number of clients, on a network that may lose, duplicate, delay and reorder: a
 packet once sent may be delivered any number of times, to the daemon or to the client it is addressed
 to. All participants follow the protocol. Every random value is a new number.
 */
module Signalling {
  import opened Wrappers
  import opened Permission
  import opened Daemon
  import Client = SignalClient

  // What the daemon knows about a pair ID it confirmed.
  datatype Entry = Entry(token: nat, source: Address, pairKey: nat, intention: Intention)

  datatype Peer = Peer(cfg: Client.Config, state: Client.State)

  datatype System = System(
    cfg: Config, tokens: map<nat, nat>, sessions: seq<Session>,
    peers: map<nat, Peer>, net: set<Packet>, counter: nat,
    issued: map<nat, Address>,  // every token ever drawn, and whom it was sent to
    log: map<nat, Entry>,       // every pair ID ever confirmed
    confirmed: seq<nat>,        // the tokens of all confirmations sent, in order
    stopping: bool,             // a pipe ended well, so the socket is about to be closed
    closed: bool)               // until it is closed, the daemon goes on reading

  function Start(cfg: Config): System {
    System(cfg, map[], [], map[], {}, 0, map[], map[], [], false, false)
  }

  datatype Step =
    | Join(i: nat, cfg: Client.Config)
    | AskForChallenge(i: nat)
    | ClientReads(i: nat, p: Packet)
    | DaemonReads(p: Packet, now: nat, pipeSucceeds: bool, tombAlive: bool)
    | DaemonCloses

  predicate Can(s: System, step: Step) {
    match step
    case Join(i, _) => i !in s.peers
    case AskForChallenge(i) => i in s.peers && s.peers[i].state == Client.Begin
    case ClientReads(i, p) =>
      i in s.peers && (s.peers[i].state.phase.AwaitChallenge? || s.peers[i].state.phase.AwaitConfirm?)
      && p in s.net && p.destination == Ephemeral(i)
    case DaemonReads(p, _, _, _) => p in s.net && !s.closed
    case DaemonCloses => s.stopping && !s.closed
  }

  function DrawFor(s: System, step: Step): Draw
    requires step.DaemonReads?
  {
    Draw(s.counter, s.counter + 1, s.counter + 2, step.now, step.pipeSucceeds, step.tombAlive)
  }

  function ToSet(ps: seq<Packet>): set<Packet> { set p | p in ps }

  // The daemon opens this packet as a request it permits.
  predicate Grants(s: System, p: Packet) {
    var q := RequestIn(s.cfg, s.tokens, p);
    q.Some? && q.value.intention.Some? && Permitted(s.cfg.checker, q.value.intention.value)
  }

  function EntryFor(s: System, p: Packet): Entry
    requires Grants(s, p)
  {
    var q := RequestIn(s.cfg, s.tokens, p).value;
    Entry(p.body.token, p.source, q.pairKey, q.intention.value)
  }

  predicate AsksDaemon(s: System, p: Packet) {
    p.destination == Username(s.cfg.username) && p.body.ChallengeRequest?
  }

  function AfterDaemon(s: System, step: Step): System
    requires step.DaemonReads?
  {
    var d, p := DrawFor(s, step), step.p;
    var r := Handle(s.cfg, s.tokens, p, d);
    s.(tokens := r.tokens, sessions := s.sessions + r.sessions, net := s.net + ToSet(r.out), counter := s.counter + 3,
       stopping := s.stopping || r.stop,
       issued := if AsksDaemon(s, p) then s.issued[d.token := p.source] else s.issued,
       log := if Grants(s, p) then s.log[d.pairID := EntryFor(s, p)] else s.log,
       confirmed := if p.body.ChallengeResponse? && r.out != [] then s.confirmed + [p.body.token] else s.confirmed)
  }

  function Apply(s: System, step: Step): System
    requires Can(s, step)
  {
    match step
    case Join(i, cfg) => s.(peers := s.peers[i := Peer(cfg, Client.Begin)])
    case AskForChallenge(i) =>
      var peer := s.peers[i];
      s.(peers := s.peers[i := peer.(state := peer.state.(phase := Client.AwaitChallenge))],
         net := s.net + {Client.RequestPacket(peer.cfg, Ephemeral(i))})
    case ClientReads(i, p) =>
      var peer := s.peers[i];
      var (state, out) := Client.Receive(peer.cfg, Ephemeral(i), peer.state, p.body, s.counter, s.counter + 1);
      s.(peers := s.peers[i := peer.(state := state)], net := s.net + ToSet(out), counter := s.counter + 2)
    case DaemonReads(_, _, _, _) => AfterDaemon(s, step)
    case DaemonCloses => s.(closed := true)
  }

  predicate IsRun(s: System, run: seq<Step>)
    decreases |run|
  {
    run == [] || (Can(s, run[0]) && IsRun(Apply(s, run[0]), run[1..]))
  }

  function Exec(s: System, run: seq<Step>): System
    requires IsRun(s, run)
    decreases |run|
  {
    if run == [] then s else Exec(Apply(s, run[0]), run[1..])
  }

  // ------------------------------------------------------------------ invariant

  // Client i has answered the challenge with this token, and what it said there.
  predicate Answered(s: System, a: Address, token: nat, pairKey: nat, intention: Intention) {
    && a.Ephemeral? && a.id in s.peers
    && s.peers[a.id].state.sent.Some?
    && s.peers[a.id].state.sent.value.token == token
    && s.peers[a.id].state.sent.value.pairKey == pairKey
    && s.peers[a.id].cfg.intention == intention
  }

  predicate GoodPacket(s: System, p: Packet) {
    match p.body
    case ChallengeRequest => p.source.Ephemeral? && p.source.id in s.peers
    case Challenge(t) => t in s.issued && s.issued[t] == p.destination
    case ChallengeResponse(t, n, c) =>
      && p.source.Ephemeral? && p.source.id in s.peers
      && s.peers[p.source.id].state.sent.Some?
      && p == Client.ResponsePacket(s.peers[p.source.id].cfg, p.source, s.peers[p.source.id].state.sent.value)
    case Confirm(t, n, c) =>
      && p.source == Username(s.cfg.username)
      && c.username == s.cfg.username && c.token == t && c.nonce == n
      && (c.plain == REFUSED ||
          (c.plain.Result? && c.plain.pairID.Some? && c.plain == Accepted(s.cfg, c.plain.pairID.value)
           && c.plain.pairID.value in s.log
           && s.log[c.plain.pairID.value].token == t && s.log[c.plain.pairID.value].source == p.destination))
  }

  predicate GoodEntry(s: System, pid: nat, e: Entry) {
    && pid < s.counter
    && Answered(s, e.source, e.token, e.pairKey, e.intention)
    && Permitted(s.cfg.checker, e.intention)
    && s.peers[e.source.id].cfg.username == s.cfg.username
  }

  predicate GoodPeer(s: System, i: nat, peer: Peer) {
    && (peer.state.sent.Some? ==>
          peer.state.sent.value.token in s.issued && s.issued[peer.state.sent.value.token] == Ephemeral(i))
    && (peer.state.phase.Starting? || peer.state.phase.AwaitChallenge? ==> peer.state.sent.None?)
    && (peer.state.phase.AwaitConfirm? || peer.state.phase.Complete? ==> peer.state.sent.Some?)
    && (peer.state.phase.Complete? ==>
          var pairing := peer.state.phase.pairing;
          && pairing.pairID in s.log && s.log[pairing.pairID].source == Ephemeral(i)
          && pairing.key == HashOf(peer.state.sent.value.pairKey, peer.cfg.accessKey)
          && pairing.relay == s.cfg.relay && pairing.signature == Some(s.cfg.signature))
  }

  predicate GoodSession(s: System, x: Session) {
    && x.pairID in s.log
    && x == Session(x.pairID, HashOf(s.log[x.pairID].pairKey, s.cfg.accessKey), s.cfg.relay, WorkFor(s.log[x.pairID].intention))
  }

  ghost predicate Inv(s: System) {
    && (forall p :: p in s.net ==> GoodPacket(s, p))
    && (forall pid :: pid in s.log ==> GoodEntry(s, pid, s.log[pid]))
    && (forall i :: i in s.peers ==> GoodPeer(s, i, s.peers[i]))
    && (forall k :: 0 <= k < |s.sessions| ==> GoodSession(s, s.sessions[k]))
    && (forall t :: t in s.issued ==> t < s.counter)
    && s.tokens.Keys <= s.issued.Keys
  }

  lemma StartInv(cfg: Config)
    ensures Inv(Start(cfg))
  {
  }

  // Everything on record in s is still on record in s'.
  ghost predicate Extends(s: System, s': System) {
    && s'.cfg == s.cfg && s.counter <= s'.counter
    && (forall i :: i in s.peers ==> i in s'.peers && s'.peers[i].cfg == s.peers[i].cfg)
    && (forall i :: i in s.peers && s.peers[i].state.sent.Some? ==> s'.peers[i].state.sent == s.peers[i].state.sent)
    && (forall t :: t in s.issued ==> t in s'.issued && s'.issued[t] == s.issued[t])
    && (forall pid :: pid in s.log ==> pid in s'.log && s'.log[pid] == s.log[pid])
  }

  lemma RecordsStayGood(s: System, s': System)
    requires Inv(s) && Extends(s, s')
    ensures forall p :: p in s.net ==> GoodPacket(s', p)
    ensures forall pid :: pid in s.log ==> GoodEntry(s', pid, s.log[pid])
    ensures forall k :: 0 <= k < |s.sessions| ==> GoodSession(s', s.sessions[k])
  {
    forall p | p in s.net ensures GoodPacket(s', p) { assert GoodPacket(s, p); }
    forall pid | pid in s.log ensures GoodEntry(s', pid, s.log[pid]) { assert GoodEntry(s, pid, s.log[pid]); }
    forall k | 0 <= k < |s.sessions| ensures GoodSession(s', s.sessions[k]) { assert GoodSession(s, s.sessions[k]); }
  }

  lemma PeersStayGood(s: System, s': System)
    requires Inv(s) && Extends(s, s')
    ensures forall i :: i in s.peers && s'.peers[i].state == s.peers[i].state ==> GoodPeer(s', i, s'.peers[i])
  {
    forall i | i in s.peers && s'.peers[i].state == s.peers[i].state
      ensures GoodPeer(s', i, s'.peers[i])
    {
      assert GoodPeer(s, i, s.peers[i]);
    }
  }

  lemma JoinKeepsInv(s: System, i: nat, cfg: Client.Config)
    requires Inv(s) && Can(s, Join(i, cfg))
    ensures Inv(Apply(s, Join(i, cfg)))
  {
    var s' := Apply(s, Join(i, cfg));
    RecordsStayGood(s, s');
    PeersStayGood(s, s');
  }

  lemma AskKeepsInv(s: System, i: nat)
    requires Inv(s) && Can(s, AskForChallenge(i))
    ensures Inv(Apply(s, AskForChallenge(i)))
  {
    var s' := Apply(s, AskForChallenge(i));
    RecordsStayGood(s, s');
    PeersStayGood(s, s');
  }

  lemma CloseKeepsInv(s: System)
    requires Inv(s) && Can(s, DaemonCloses)
    ensures Inv(Apply(s, DaemonCloses))
  {
    RecordsStayGood(s, Apply(s, DaemonCloses));
    PeersStayGood(s, Apply(s, DaemonCloses));
  }

  // What a client becomes and sends after one datagram.
  lemma ClientReacts(s: System, i: nat, p: Packet)
    requires Inv(s) && Can(s, ClientReads(i, p))
    ensures var s' := Apply(s, ClientReads(i, p));
            && Extends(s, s') && GoodPeer(s', i, s'.peers[i])
            && (forall q :: q in s'.net && q !in s.net ==> GoodPacket(s', q))
  {
    assert GoodPacket(s, p) && GoodPeer(s, i, s.peers[i]);
  }

  lemma ClientReadsKeepsInv(s: System, i: nat, p: Packet)
    requires Inv(s) && Can(s, ClientReads(i, p))
    ensures Inv(Apply(s, ClientReads(i, p)))
  {
    var s' := Apply(s, ClientReads(i, p));
    ClientReacts(s, i, p);
    RecordsStayGood(s, s');
    PeersStayGood(s, s');
  }

  // What the daemon records for one packet.
  lemma DaemonRecords(s: System, step: Step)
    requires Inv(s) && Can(s, step) && step.DaemonReads?
    ensures Extends(s, Apply(s, step)) && Apply(s, step).tokens.Keys <= Apply(s, step).issued.Keys
  {
    hide GoodPeer, GoodSession, GoodPacket;
    forall pid | pid in s.log ensures pid < s.counter { assert GoodEntry(s, pid, s.log[pid]); }
  }

  lemma DaemonLogs(s: System, step: Step)
    requires Inv(s) && Can(s, step) && step.DaemonReads? && Grants(s, step.p)
    ensures GoodEntry(Apply(s, step), s.counter + 1, EntryFor(s, step.p))
  {
    hide GoodPeer, GoodSession, Handle;
    assert GoodPacket(s, step.p);
  }

  // What the daemon sends and starts for one packet.
  lemma DaemonReacts(s: System, step: Step)
    requires Inv(s) && Can(s, step) && step.DaemonReads?
    ensures var s', r := Apply(s, step), Handle(s.cfg, s.tokens, step.p, DrawFor(s, step));
            && (forall q :: q in r.out ==> GoodPacket(s', q))
            && (forall x :: x in r.sessions ==> GoodSession(s', x))
  {
    hide GoodPeer, GoodEntry, WorkFor;
    assert GoodPacket(s, step.p);
  }

  lemma DaemonReadsKeepsInv(s: System, step: Step)
    requires Inv(s) && Can(s, step) && step.DaemonReads?
    ensures Inv(Apply(s, step))
  {
    DaemonRecords(s, step);
    if Grants(s, step.p) { DaemonLogs(s, step); }
    DaemonReacts(s, step);
    RecordsStayGood(s, Apply(s, step));
    PeersStayGood(s, Apply(s, step));
  }

  lemma StepKeepsInv(s: System, step: Step)
    requires Inv(s) && Can(s, step)
    ensures Inv(Apply(s, step))
  {
    match step
    case Join(i, cfg) => JoinKeepsInv(s, i, cfg);
    case AskForChallenge(i) => AskKeepsInv(s, i);
    case ClientReads(i, p) => ClientReadsKeepsInv(s, i, p);
    case DaemonReads(_, _, _, _) => DaemonReadsKeepsInv(s, step);
    case DaemonCloses => CloseKeepsInv(s);
  }

  lemma {:induction false} RunKeepsInv(s: System, run: seq<Step>)
    requires Inv(s) && IsRun(s, run)
    ensures Inv(Exec(s, run))
    decreases |run|
  {
    if run != [] {
      StepKeepsInv(s, run[0]);
      RunKeepsInv(Apply(s, run[0]), run[1..]);
    }
  }

  ghost predicate Reachable(s: System) {
    exists cfg, run :: IsRun(Start(cfg), run) && Exec(Start(cfg), run) == s
  }

  lemma ReachableInv(s: System)
    requires Reachable(s)
    ensures Inv(s)
  {
    var cfg, run :| IsRun(Start(cfg), run) && Exec(Start(cfg), run) == s;
    StartInv(cfg);
    RunKeepsInv(Start(cfg), run);
  }
}
