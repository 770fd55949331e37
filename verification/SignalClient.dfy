/** The client's side of one exchange: request, challenge, response, confirmation. */
module SignalClient {
  import opened Wrappers
  import opened Daemon

  datatype Config = Config(username: string, accessKey: seq<byte>, intention: Intention)

  // What the one response of a run carried.
  datatype Sent = Sent(token: nat, nonce: nat, pairKey: nat)

  datatype Paired = Paired(pairID: nat, key: ConnKey, relay: Url, signature: Option<string>)

  datatype Phase = Starting | AwaitChallenge | AwaitConfirm | Complete(pairing: Paired) | Failed(why: string)

  datatype State = State(phase: Phase, sent: Option<Sent>)

  const Begin := State(Starting, None)

  function RequestPacket(cfg: Config, me: Address): Packet {
    Packet(me, Username(cfg.username), ChallengeRequest)
  }

  function ResponsePacket(cfg: Config, me: Address, sent: Sent): Packet {
    Packet(me, Username(cfg.username),
           ChallengeResponse(sent.token, sent.nonce,
                             Sealed(cfg.username, sent.token, sent.nonce, Request(sent.pairKey, Some(cfg.intention)))))
  }

  // What the client makes of the second datagram it reads.
  function CheckConfirm(cfg: Config, sent: Sent, body: Body): Phase {
    if !body.Confirm? then Failed("receive unexpected response from peer")
    else if body.token != sent.token then Failed("receive unexpected token from peer")
    else
      var plain := Unseal(cfg.username, body.token, body.nonce, body.payload);
      if plain.None? then Failed("cannot decrypt and authenticate confirmation")
      else if !plain.value.Result? then Failed("cannot parse payload")
      else if !plain.value.ok then Failed("receive failing result")
      else if plain.value.pairID.None? || plain.value.relay.None? || !plain.value.relay.value.parses then
        Failed("receive incomplete confirmation")
      else
        Complete(Paired(plain.value.pairID.value, HashOf(sent.pairKey, cfg.accessKey), plain.value.relay.value, plain.value.signature))
  }

  // The next state and what is sent, for the datagram read in a waiting phase.
  function Receive(cfg: Config, me: Address, s: State, body: Body, nonce: nat, pairKey: nat): (State, seq<Packet>) {
    match s.phase
    case AwaitChallenge =>
      if body.Challenge? then
        var sent := Sent(body.token, nonce, pairKey);
        (State(AwaitConfirm, Some(sent)), [ResponsePacket(cfg, me, sent)])
      else (State(Failed("receive unexpected response from peer"), None), [])
    case AwaitConfirm =>
      if s.sent.None? then (s, []) else (s.(phase := CheckConfirm(cfg, s.sent.value, body)), [])
    case _ => (s, [])
  }

  class PipieClient {
    const cfg: Config
    const me: Address
    var phase: Phase
    var sent: Option<Sent>
    var outbox: seq<Packet>

    function View(): State
      reads this
    {
      State(phase, sent)
    }

    constructor (cfg: Config, me: Address)
      ensures this.cfg == cfg && this.me == me && View() == Begin && outbox == []
    {
      this.cfg, this.me := cfg, me;
      phase, sent, outbox := Starting, None, [];
    }

    method SendRequest()
      requires phase.Starting?
      modifies this
      ensures View() == State(AwaitChallenge, old(sent)) && outbox == old(outbox) + [RequestPacket(cfg, me)]
    {
      outbox := outbox + [Packet(me, Username(cfg.username), ChallengeRequest)];
      phase := AwaitChallenge;
    }

    method ReadDatagram(body: Body, nonce: nat, pairKey: nat)
      requires phase.AwaitChallenge? || (phase.AwaitConfirm? && sent.Some?)
      modifies this
      ensures View() == Receive(cfg, me, old(View()), body, nonce, pairKey).0
      ensures outbox == old(outbox) + Receive(cfg, me, old(View()), body, nonce, pairKey).1
    {
      if phase.AwaitChallenge? {
        if !body.Challenge? {
          phase, sent := Failed("receive unexpected response from peer"), None;
          return;
        }
        sent := Some(Sent(body.token, nonce, pairKey));
        var payload := Sealed(cfg.username, body.token, nonce, Request(pairKey, Some(cfg.intention)));
        outbox := outbox + [Packet(me, Username(cfg.username), ChallengeResponse(body.token, nonce, payload))];
        phase := AwaitConfirm;
        return;
      }
      var token := sent.value.token;
      if !body.Confirm? {
        phase := Failed("receive unexpected response from peer");
      } else if body.token != token {
        phase := Failed("receive unexpected token from peer");
      } else {
        var plain := Unseal(cfg.username, body.token, body.nonce, body.payload);
        if plain.None? {
          phase := Failed("cannot decrypt and authenticate confirmation");
        } else if !plain.value.Result? {
          phase := Failed("cannot parse payload");
        } else if !plain.value.ok {
          phase := Failed("receive failing result");
        } else {
          var relay := if plain.value.relay.Some? && plain.value.relay.value.parses then plain.value.relay else None;
          if plain.value.pairID.None? || relay.None? {
            phase := Failed("receive incomplete confirmation");
          } else {
            var key := HashOf(sent.value.pairKey, cfg.accessKey);
            phase := Complete(Paired(plain.value.pairID.value, key, relay.value, plain.value.signature));
          }
        }
      }
    }
  }
}
