/**
 Building a connection for an agreed pair: the builder, the choice between the direct path and the relay,
 the TLS and mux roles, and which end opens the first stream with which mode string.
 */
module PairConnection {
  import opened Wrappers
  import opened Daemon
  import opened Modes
  import Client = SignalClient
  import IdentityCheck
  import Signalling
  import SignallingTheorems
  import Traversal

  const RENDEZVOUS_SERVER := "pipie.mingc.net:7890"

  datatype Settings = Settings(
    pairID: Option<nat>, key: Option<ConnKey>, server: string,
    relayPool: Option<Url>, forceRelay: bool, peerDeviceID: Option<string>, cert: Option<seq<byte>>)

  // polarity: whether this end is the permanent (listening) side of a relay.
  datatype PairConfig = PairConfig(settings: Settings, polarity: bool)

  const Defaults := Settings(None, None, RENDEZVOUS_SERVER, None, false, None, None)

  datatype Setter =
    | PairIDAndKey(pairID: nat, key: ConnKey)
    | RendezvousServer(server: string)
    | TLS(cert: Option<seq<byte>>)
    | RelayPerm(pool: Url)
    | RelayTemp(pool: Url, device: string)
    | ForceRelay

  function Set(c: Settings, x: Setter): Settings {
    match x
    case PairIDAndKey(pairID, key) => c.(pairID := Some(pairID), key := Some(key))
    case RendezvousServer(server) => c.(server := server)
    case TLS(cert) => c.(cert := cert)
    case RelayPerm(pool) => c.(relayPool := Some(pool))
    case RelayTemp(pool, device) => c.(relayPool := Some(pool), peerDeviceID := Some(device))
    case ForceRelay => c.(forceRelay := true)
  }

  function SetAll(c: Settings, xs: seq<Setter>): Settings
    decreases |xs|
  {
    if xs == [] then c else SetAll(Set(c, xs[0]), xs[1..])
  }

  /** Whatever setters are called in whatever order: an end is the permanent side of a relay if and only if a
      temporary relay was never set, even when a permanent one is set afterwards; and it has a relay if and
      only if either was set. */
  lemma {:induction false} SettersDecide(c: Settings, xs: seq<Setter>)
    ensures var d := SetAll(c, xs);
            && (d.peerDeviceID.None? <==> c.peerDeviceID.None? && forall i :: 0 <= i < |xs| ==> !xs[i].RelayTemp?)
            && (d.relayPool.None? <==> c.relayPool.None? && forall i :: 0 <= i < |xs| ==> !xs[i].RelayPerm? && !xs[i].RelayTemp?)
            && (d.forceRelay <==> c.forceRelay || exists i :: 0 <= i < |xs| && xs[i].ForceRelay?)
    decreases |xs|
  {
    if xs != [] {
      assert forall i :: 1 <= i < |xs| ==> xs[i] == xs[1..][i - 1];
      SettersDecide(Set(c, xs[0]), xs[1..]);
    }
  }

  class PairConnBuilder {
    var settings: Settings

    constructor ()
      ensures settings == Defaults
    {
      settings := Defaults;
    }

    method SetPairIDAndKey(pairID: nat, key: ConnKey)
      modifies this
      ensures settings == Set(old(settings), PairIDAndKey(pairID, key))
    {
      settings := settings.(pairID := Some(pairID));
      settings := settings.(key := Some(key));
    }

    method SetRendezvousServer(server: string)
      modifies this
      ensures settings == Set(old(settings), RendezvousServer(server))
    {
      settings := settings.(server := server);
    }

    method SetTLS(cert: Option<seq<byte>>)
      modifies this
      ensures settings == Set(old(settings), TLS(cert))
    {
      settings := settings.(cert := cert);
    }

    method SetRelayPerm(pool: Url)
      modifies this
      ensures settings == Set(old(settings), RelayPerm(pool))
    {
      settings := settings.(relayPool := Some(pool));
    }

    method SetRelayTemp(pool: Url, peerDeviceID: string)
      modifies this
      ensures settings == Set(old(settings), RelayTemp(pool, peerDeviceID))
    {
      settings := settings.(relayPool := Some(pool));
      settings := settings.(peerDeviceID := Some(peerDeviceID));
    }

    method SetForceRelay()
      modifies this
      ensures settings == Set(old(settings), ForceRelay)
    {
      settings := settings.(forceRelay := true);
    }

    method Build() returns (c: Option<PairConfig>)
      ensures c == if settings.cert.None? then None else Some(PairConfig(settings, settings.peerDeviceID.None?))
    {
      var polarity := settings.peerDeviceID == None;
      if settings.cert.None? {
        return None;
      }
      c := Some(PairConfig(settings, polarity));
    }
  }

  // The configuration a client builds from a completed exchange, and a daemon from an accepted one.
  function ClientConfig(p: Client.Paired, cert: seq<byte>, force: bool, device: string): PairConfig {
    PairConfig(Settings(Some(p.pairID), Some(p.key), RENDEZVOUS_SERVER, Some(p.relay), force, Some(device), Some(cert)), false)
  }

  function DaemonConfig(x: Session, cert: seq<byte>, force: bool): PairConfig {
    PairConfig(Settings(Some(x.pairID), Some(x.key), RENDEZVOUS_SERVER, Some(x.relay), force, None, Some(cert)), true)
  }

  method BuildForClient(p: Client.Paired, cert: seq<byte>, force: bool, device: string) returns (c: Option<PairConfig>)
    ensures c == Some(ClientConfig(p, cert, force, device))
  {
    var builder := new PairConnBuilder();
    builder.SetPairIDAndKey(p.pairID, p.key);
    builder.SetRendezvousServer(RENDEZVOUS_SERVER);
    builder.SetTLS(Some(cert));
    if force {
      builder.SetForceRelay();
    }
    builder.SetRelayTemp(p.relay, device);
    c := builder.Build();
  }

  method BuildForDaemon(x: Session, cert: seq<byte>, force: bool) returns (c: Option<PairConfig>)
    ensures c == Some(DaemonConfig(x, cert, force))
  {
    var builder := new PairConnBuilder();
    builder.SetPairIDAndKey(x.pairID, x.key);
    builder.SetRendezvousServer(RENDEZVOUS_SERVER);
    builder.SetTLS(Some(cert));
    if force {
      builder.SetForceRelay();
    }
    builder.SetRelayPerm(x.relay);
    c := builder.Build();
  }

  // ------------------------------------------------------------------ connecting

  // What the world does: how each traversal round ends and when it is cancelled, and whether the later
  // stages work, up to a TLS connection on which the identity check runs.
  datatype World = World(
    attempt: nat -> Traversal.Attempt, cancelled: nat -> bool, stabilizes: bool, relayJoins: bool, handshakes: bool)

  datatype Path = Direct | RelayPermanent | RelayTemporary

  // meta is the polarity that the rendezvous server gave for a direct path.
  datatype Link = Link(path: Path, meta: Option<bool>, tlsServer: bool)

  datatype Outcome = Up(link: Link) | Down(why: string) | Crashed

  const RELAY_MISSING := "relay not configured"

  ghost predicate Traverses(w: World) { exists k :: Traversal.Succeeds(w.attempt, w.cancelled, k) }

  ghost predicate TraversalCrashes(w: World) {
    exists k :: Traversal.Decisive(w.attempt, w.cancelled, k) && w.attempt(k).Crash?
  }

  // Every stage before the identity check works, on the path that is taken.
  ghost predicate StagesWork(config: PairConfig, w: World) {
    && w.handshakes
    && (if !config.settings.forceRelay && Traverses(w) then w.stabilizes
        else (config.settings.forceRelay || !TraversalCrashes(w)) && config.settings.relayPool.Some? && w.relayJoins)
  }

  // The metadata is there exactly on the direct path, and decides the TLS role there; the polarity decides
  // the TLS role, and which side of the relay to be, otherwise.
  predicate LinkOf(c: PairConfig, l: Link) {
    && (l.path.Direct? <==> l.meta.Some?)
    && (l.path.Direct? ==> l.tlsServer == l.meta.value)
    && (!l.path.Direct? ==> l.tlsServer == c.polarity && (l.path.RelayPermanent? <==> c.polarity))
  }

  /** The connection and its metadata, stage by stage, with the identity check at the end. */
  method ConnectTo(config: PairConfig, w: World, hash: seq<byte> -> seq<byte>, key: seq<byte>, peerCert: seq<byte>, conn: IdentityCheck.Conn)
    returns (a: Outcome)
    requires config.settings.cert.Some?
    requires |hash(config.settings.cert.value + key)| == |hash(peerCert + key)| == IdentityCheck.IDENTITY_SIZE
    modifies conn
    ensures a.Up? ==> LinkOf(config, a.link) && (a.link.path.Direct? <==> !config.settings.forceRelay && Traverses(w))
    ensures a.Up? && a.link.path.Direct? ==>
              exists k :: Traversal.Succeeds(w.attempt, w.cancelled, k) && a.link.meta == Some(w.attempt(k).meta)
    ensures a.Up? ==> StagesWork(config, w) && IdentityCheck.Proof(hash, peerCert, key) <= old(conn.incoming)
                      && conn.incoming == old(conn.incoming)[|IdentityCheck.MAGIC| + IdentityCheck.IDENTITY_SIZE..]
    // when no write fails and enough reads come, nothing else stands in the way
    ensures old(conn.faults) == [] && IdentityCheck.Suffices(old(conn.plans), |old(conn.incoming)|) && StagesWork(config, w) ==>
              && (a.Up? <==> IdentityCheck.Proof(hash, peerCert, key) <= old(conn.incoming))
              && conn.outgoing == old(conn.outgoing) + IdentityCheck.Proof(hash, config.settings.cert.value, key)
    // what each path needs; and a failed traversal is no obstacle when there is a relay
    ensures a.Up? ==> w.handshakes && (if a.link.path.Direct? then w.stabilizes else w.relayJoins && config.settings.relayPool.Some?)
    ensures old(conn.faults) == [] && IdentityCheck.Suffices(old(conn.plans), |old(conn.incoming)|)
              && IdentityCheck.Proof(hash, peerCert, key) <= old(conn.incoming) && w.handshakes ==>
              && (config.settings.relayPool.Some? && w.relayJoins && (config.settings.forceRelay || (!Traverses(w) && !TraversalCrashes(w))) ==> a.Up?)
              && (!config.settings.forceRelay && Traverses(w) && w.stabilizes ==> a.Up?)
    // before the identity check nothing is said or read
    ensures !StagesWork(config, w) ==> !a.Up? && conn.incoming == old(conn.incoming) && conn.outgoing == old(conn.outgoing)
    ensures a.Crashed? <==> !config.settings.forceRelay && TraversalCrashes(w)
    ensures a == Down(RELAY_MISSING) <==> config.settings.forceRelay && config.settings.relayPool.None?
  {
    var path: Option<Path> := None;
    var meta: Option<bool> := None;
    if !config.settings.forceRelay {
      var udp, made := Traversal.BuildConnectionUDP(w.attempt, w.cancelled);
      match udp {
        case Crashed =>
          return Crashed;
        case NotConnected(_) =>
          if config.settings.relayPool.None? {
            return Down("unable to build udp connection to peer");
          }
        case Connected(c) =>
          assert Traversal.Succeeds(w.attempt, w.cancelled, made - 1);
          meta := Some(c.meta);
          if !w.stabilizes {
            NoCrashAfterSuccess(w);
            return Down("unable to build reliable udp connection to peer");
          }
          path := Some(Direct);
      }
      NoCrashAfterSuccess(w);
    }
    if path.None? {
      if config.settings.relayPool.None? {
        return Down(RELAY_MISSING);
      }
      if !w.relayJoins {
        return Down("relay error");
      }
      path := if config.polarity then Some(RelayPermanent) else Some(RelayTemporary);
    }
    var asServer := (meta.Some? && meta.value) || (meta.None? && config.polarity);
    if !w.handshakes {
      return Down("tls handshake failed");
    }
    var v := IdentityCheck.TlsIdentityCheck(hash, config.settings.cert.value, peerCert, key, conn);
    if !v.Passed? {
      return Down("identity check failed");
    }
    a := Up(Link(path.value, meta, asServer));
  }

  // One attempt at most ends the retrying.
  lemma NoCrashAfterSuccess(w: World)
    ensures Traverses(w) ==> !TraversalCrashes(w)
  {
    forall k: nat, l: nat | Traversal.Decisive(w.attempt, w.cancelled, k) && Traversal.Decisive(w.attempt, w.cancelled, l)
      ensures k == l
    {
      assert !(k < l) && !(l < k);
    }
  }

  // The mux role: the polar end is the client of the mux session.
  function MuxClient(c: PairConfig): bool { c.polarity }

  // When the TLS roles of two linked ends are opposite: always when both are on the relay; when both are
  // direct, exactly if the rendezvous polarities differ; when only one is direct, exactly if its polarity
  // differs from the other end's relay polarity.
  predicate RolesFit(client: Link, daemon: Link) {
    match (client.meta, daemon.meta)
    case (None, None) => true
    case (Some(p), Some(q)) => p != q
    case (Some(p), None) => !p
    case (None, Some(q)) => q
  }

  // ------------------------------------------------------------------ modes

  // How an end starts: it opens or accepts the first stream, says its own mode and expects the other's.
  datatype Opening = Opening(opens: bool, says: string, expects: string)

  function ClientOpening(i: Intention): Opening {
    match i
    case PipeOut => Opening(true, MODE_PIPE_INLET, MODE_PIPE_OUTLET)
    case PortForwardTo(_, _) => Opening(true, MODE_PORT_FORWARD_CLIENT, MODE_PORT_FORWARD_SERVER)
    case PortForwardFrom(_, _) => Opening(false, MODE_PORT_FORWARD_SERVER, MODE_PORT_FORWARD_CLIENT)
  }

  function DaemonOpening(w: Work): Opening {
    match w
    case PipeOutlet => Opening(false, MODE_PIPE_OUTLET, MODE_PIPE_INLET)
    case DialOut(_, _) => Opening(false, MODE_PORT_FORWARD_SERVER, MODE_PORT_FORWARD_CLIENT)
    case ListenOn(_, _) => Opening(true, MODE_PORT_FORWARD_CLIENT, MODE_PORT_FORWARD_SERVER)
  }

  predicate Complementary(a: Opening, b: Opening) {
    a.opens != b.opens && a.says == b.expects && b.says == a.expects && IsMode(a.says) && IsMode(b.says)
  }

  /** In every run of the signalling: a client and a daemon session that share a pair ID build configurations
      with the same pair ID and relay, keys that are equal exactly when the access keys are, and opposite mux
      roles; one of them opens the first stream and the other accepts it, and each expects the mode string
      that the other says. */
  lemma PairedEndsFit(s: Signalling.System, i: nat, k: nat, cert1: seq<byte>, cert2: seq<byte>, f1: bool, f2: bool, device: string)
    requires Shares(s, i, k)
    ensures var c := ClientConfig(SignallingTheorems.PairingOf(s, i), cert1, f1, device);
            var d := DaemonConfig(s.sessions[k], cert2, f2);
            && c.settings.pairID == d.settings.pairID && c.settings.relayPool == d.settings.relayPool && c.settings.relayPool.Some?
            && (c.settings.key == d.settings.key <==> s.peers[i].cfg.accessKey == s.cfg.accessKey)
            && !MuxClient(c) && MuxClient(d)
    ensures Complementary(ClientOpening(s.peers[i].cfg.intention), DaemonOpening(s.sessions[k].work))
    // the inlet of a pipe and the end that listens open the stream; a client that forwards to the daemon listens
    ensures var a, b := ClientOpening(s.peers[i].cfg.intention), DaemonOpening(s.sessions[k].work);
            && (a.opens <==> a.says == MODE_PIPE_INLET || a.says == MODE_PORT_FORWARD_CLIENT)
            && (b.opens <==> b.says == MODE_PIPE_INLET || b.says == MODE_PORT_FORWARD_CLIENT)
            && (a.says == MODE_PIPE_INLET <==> s.peers[i].cfg.intention.PipeOut?)
            && (a.says == MODE_PORT_FORWARD_CLIENT <==> s.peers[i].cfg.intention.PortForwardTo?)
            && (b.says == MODE_PORT_FORWARD_CLIENT <==> s.peers[i].cfg.intention.PortForwardFrom?)
  {
    SignallingTheorems.SessionMatchesClient(s, i, k);
  }

  // The bytes of a connection key, for random values rendered as bytes.
  function KeyBytes(sha256: seq<byte> -> seq<byte>, render: nat -> seq<byte>, key: ConnKey): seq<byte> {
    IdentityCheck.PairConnKey(sha256, render(key.pairKey), key.accessKey)
  }

  // From the signalling to the identity check: each end, with the key it holds from the exchange, finds the
  // proof it expects at the front of what the other end sent if and only if the access keys are equal.
  lemma SharedPairAuthenticatesIff(s: Signalling.System, i: nat, k: nat, render: nat -> seq<byte>,
                                   sha256: seq<byte> -> seq<byte>, sha512: seq<byte> -> seq<byte>,
                                   cert1: seq<byte>, cert2: seq<byte>, more1: seq<byte>, more2: seq<byte>)
    requires Shares(s, i, k) && HashesFit(s, i, render, sha256, sha512, cert1, cert2)
    ensures var mine := KeyBytes(sha256, render, SignallingTheorems.PairingOf(s, i).key);
            var its := KeyBytes(sha256, render, s.sessions[k].key);
            && (IdentityCheck.Proof(sha512, cert2, mine) <= IdentityCheck.Proof(sha512, cert2, its) + more2
                <==> s.peers[i].cfg.accessKey == s.cfg.accessKey)
            && (IdentityCheck.Proof(sha512, cert1, its) <= IdentityCheck.Proof(sha512, cert1, mine) + more1
                <==> s.peers[i].cfg.accessKey == s.cfg.accessKey)
  {
    SignallingTheorems.SessionMatchesClient(s, i, k);
    IdentityCheck.BothEndsPassIff(sha256, sha512, render(SignallingTheorems.PairingOf(s, i).key.pairKey),
                                  s.peers[i].cfg.accessKey, s.cfg.accessKey, cert1, cert2, more1, more2);
  }

  // In a reachable state, client i is complete and session k has its pair ID.
  ghost predicate Shares(s: Signalling.System, i: nat, k: nat) {
    && Signalling.Reachable(s) && SignallingTheorems.IsComplete(s, i)
    && SignallingTheorems.IsSessionOf(s, k, SignallingTheorems.PairingOf(s, i).pairID)
  }

  // The hashes have their sizes and do not collide on what the two ends feed them.
  ghost predicate HashesFit(s: Signalling.System, i: nat, render: nat -> seq<byte>, sha256: seq<byte> -> seq<byte>,
                            sha512: seq<byte> -> seq<byte>, cert1: seq<byte>, cert2: seq<byte>)
    requires SignallingTheorems.IsComplete(s, i)
  {
    && IdentityCheck.NoCollisions(sha256, sha512, render(SignallingTheorems.PairingOf(s, i).key.pairKey),
                                  s.peers[i].cfg.accessKey, s.cfg.accessKey, cert1, cert2)
    && forall text :: |sha512(text)| == IdentityCheck.IDENTITY_SIZE
  }

  lemma RolesAreOpposite(client: PairConfig, daemon: PairConfig, l1: Link, l2: Link)
    requires LinkOf(client, l1) && LinkOf(daemon, l2) && !client.polarity && daemon.polarity
    ensures l1.tlsServer != l2.tlsServer <==> RolesFit(l1, l2)
  {
  }

  /** Both ends of a pair, from the exchange to a checked connection. In every signalling run, a client and a
      session with its pair ID build their configurations and connect, each end reading what the identity
      check of the other one writes. Then the relay is never missing; the mux roles are opposite; the TLS
      roles are opposite exactly when the polarities in use fit; and, when no write fails and enough reads
      come, an end is up if and only if its stages work and the access keys are equal. */
  method ConnectBoth(ghost s: Signalling.System, ghost i: nat, ghost k: nat, p: Client.Paired, x: Session, device: string,
                     f1: bool, f2: bool, w1: World, w2: World, ghost render: nat -> seq<byte>,
                     ghost sha256: seq<byte> -> seq<byte>, sha512: seq<byte> -> seq<byte>,
                     key1: seq<byte>, key2: seq<byte>, cert1: seq<byte>, cert2: seq<byte>,
                     conn1: IdentityCheck.Conn, conn2: IdentityCheck.Conn, ghost more1: seq<byte>, ghost more2: seq<byte>)
    returns (c1: PairConfig, c2: PairConfig, a1: Outcome, a2: Outcome)
    requires Shares(s, i, k) && p == SignallingTheorems.PairingOf(s, i) && x == s.sessions[k]
    requires HashesFit(s, i, render, sha256, sha512, cert1, cert2)
    requires conn1 != conn2
    requires key1 == KeyBytes(sha256, render, p.key) && key2 == KeyBytes(sha256, render, x.key)
    requires conn1.incoming == IdentityCheck.Proof(sha512, cert2, key2) + more2
    requires conn2.incoming == IdentityCheck.Proof(sha512, cert1, key1) + more1
    modifies conn1, conn2
    ensures c1 == ClientConfig(p, cert1, f1, device) && c2 == DaemonConfig(x, cert2, f2)
    ensures a1 != Down(RELAY_MISSING) && a2 != Down(RELAY_MISSING)
    ensures !MuxClient(c1) && MuxClient(c2)
    ensures a1.Up? && a2.Up? ==> (a1.link.tlsServer != a2.link.tlsServer <==> RolesFit(a1.link, a2.link))
    ensures a1.Up? || a2.Up? ==> s.peers[i].cfg.accessKey == s.cfg.accessKey
    ensures old(conn1.faults) == [] && IdentityCheck.Suffices(old(conn1.plans), |old(conn1.incoming)|) ==>
              && (a1.Up? <==> StagesWork(c1, w1) && s.peers[i].cfg.accessKey == s.cfg.accessKey)
              && (StagesWork(c1, w1) ==> conn1.outgoing + more1 == old(conn1.outgoing) + old(conn2.incoming))
    ensures old(conn2.faults) == [] && IdentityCheck.Suffices(old(conn2.plans), |old(conn2.incoming)|) ==>
              && (a2.Up? <==> StagesWork(c2, w2) && s.peers[i].cfg.accessKey == s.cfg.accessKey)
              && (StagesWork(c2, w2) ==> conn2.outgoing + more2 == old(conn2.outgoing) + old(conn1.incoming))
  {
    SharedPairAuthenticatesIff(s, i, k, render, sha256, sha512, cert1, cert2, more1, more2);
    assert forall text :: |sha512(text)| == IdentityCheck.IDENTITY_SIZE;
    var b1 := BuildForClient(p, cert1, f1, device);
    var b2 := BuildForDaemon(x, cert2, f2);
    c1, c2 := b1.value, b2.value;
    ghost var out1, out2, in1, in2 := conn1.outgoing, conn2.outgoing, conn1.incoming, conn2.incoming;
    ghost var proof1, proof2 := IdentityCheck.Proof(sha512, cert1, key1), IdentityCheck.Proof(sha512, cert2, key2);
    assert (out1 + proof1) + more1 == out1 + in2 && (out2 + proof2) + more2 == out2 + in1;
    assert c1.settings.cert == Some(cert1) && c2.settings.cert == Some(cert2);
    assert c1.settings.relayPool.Some? && c2.settings.relayPool.Some? && !c1.polarity && c2.polarity;
    hide HashesFit, Shares, KeyBytes, StagesWork, Traverses, TraversalCrashes, LinkOf, RolesFit;
    hide IdentityCheck.Suffices, IdentityCheck.Proof;
    a1 := ConnectTo(c1, w1, sha512, key1, cert2, conn1);
    a2 := ConnectTo(c2, w2, sha512, key2, cert1, conn2);
    if a1.Up? && a2.Up? { RolesAreOpposite(c1, c2, a1.link, a2.link); }
  }
}
