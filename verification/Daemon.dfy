/**
 The signalling messages and the daemon that answers them. Cryptography is symbolic: a sealed payload
 opens only under the key and the nonce it was sealed with, and the nonce is the hash of the token and
 the sender's nonce. Random draws are parameters; Signalling makes them fresh.
 */
module Daemon {
  import opened Wrappers
  import opened Permission

  // A transfer code is the hash of a username, or 32 random bytes.
  datatype Address = Username(name: string) | Ephemeral(id: nat)

  datatype Intention =
    | PipeOut
    | PortForwardTo(host: string, port: uint32)
    | PortForwardFrom(host: string, port: uint32)

  datatype Url = Url(text: string, parses: bool)

  datatype Plain =
    | Request(pairKey: nat, intention: Option<Intention>)
    | Result(ok: bool, message: Option<string>, signature: Option<string>, relay: Option<Url>, pairID: Option<nat>)

  datatype Sealed = Sealed(username: string, token: nat, nonce: nat, plain: Plain)

  function Unseal(username: string, token: nat, nonce: nat, c: Sealed): Option<Plain> {
    if c.username == username && c.token == token && c.nonce == nonce then Some(c.plain) else None
  }

  datatype Body =
    | ChallengeRequest
    | Challenge(token: nat)
    | ChallengeResponse(token: nat, nonce: nat, payload: Sealed)
    | Confirm(token: nat, nonce: nat, payload: Sealed)

  datatype Packet = Packet(source: Address, destination: Address, body: Body)

  datatype Config = Config(username: string, accessKey: seq<byte>, checker: Checker, relay: Url, signature: string)

  // What a started session does on the daemon's side.
  datatype Work = PipeOutlet | DialOut(host: string, port: int) | ListenOn(host: string, port: int)

  // The key both ends prove to each other: the hash of the pair key and the access key.
  datatype ConnKey = HashOf(pairKey: nat, accessKey: seq<byte>)

  datatype Session = Session(pairID: nat, key: ConnKey, relay: Url, work: Work)

  // The random values one call may draw, the clock, and what the world does to it: whether a pipe
  // session ends without an error, and whether the tomb still takes goroutines.
  datatype Draw = Draw(token: nat, pairID: nat, nonce: nat, now: nat, pipeSucceeds: bool, tombAlive: bool)

  datatype Outcome = Done | Ignored | Error(what: string) | Panic

  datatype Reaction = Reaction(tokens: map<nat, nat>, out: seq<Packet>, sessions: seq<Session>, stop: bool, outcome: Outcome)

  predicate Permitted(c: Checker, i: Intention) {
    match i
    case PipeOut => c.CheckPipeOut()
    case PortForwardTo(h, p) => c.CheckPortForwardIn(h, p)
    case PortForwardFrom(h, p) => c.CheckPortForwardOut(h, p)
  }

  // The port is cut down to 16 bits only after the check.
  function WorkFor(i: Intention): Work {
    match i
    case PipeOut => PipeOutlet
    case PortForwardTo(h, p) => DialOut(h, p % 0x1_0000)
    case PortForwardFrom(h, p) => ListenOn(h, p % 0x1_0000)
  }

  function ConfirmPacket(cfg: Config, token: nat, dest: Address, nonce: nat, result: Plain): Packet {
    Packet(Username(cfg.username), dest, Confirm(token, nonce, Sealed(cfg.username, token, nonce, result)))
  }

  const REFUSED := Result(false, Some("failed permission check"), None, None, None)

  function Accepted(cfg: Config, pairID: nat): Plain {
    Result(true, None, Some(cfg.signature), Some(cfg.relay), Some(pairID))
  }

  // The request inside a response to a live token, when it can be opened and parsed.
  function RequestIn(cfg: Config, tokens: map<nat, nat>, p: Packet): Option<Plain> {
    if p.destination != Username(cfg.username) || !p.body.ChallengeResponse? || p.body.token !in tokens then None
    else
      var plain := Unseal(cfg.username, p.body.token, p.body.nonce, p.body.payload);
      if plain.Some? && plain.value.Request? then plain else None
  }

  // A permitted intention: the confirmation goes out first, then the session is started. An accepted
  // pipe returns without forgetting the token; so does a forward whose goroutine cannot be started.
  function Accept(cfg: Config, tokens: map<nat, nat>, p: Packet, request: Plain, d: Draw): Reaction
    requires p.body.ChallengeResponse? && request.Request? && request.intention.Some?
  {
    var confirm := ConfirmPacket(cfg, p.body.token, p.source, d.nonce, Accepted(cfg, d.pairID));
    var session := Session(d.pairID, HashOf(request.pairKey, cfg.accessKey), cfg.relay, WorkFor(request.intention.value));
    if request.intention.value.PipeOut? then
      Reaction(tokens, [confirm], [session], d.pipeSucceeds, if d.pipeSucceeds then Done else Error("pipe session"))
    else if d.tombAlive then Reaction(tokens - {p.body.token}, [confirm], [session], false, Done)
    else Reaction(tokens, [confirm], [], false, Panic)
  }

  function HandleResponse(cfg: Config, tokens: map<nat, nat>, p: Packet, d: Draw): Reaction
    requires p.body.ChallengeResponse?
  {
    var fail := (what: string) => Reaction(tokens, [], [], false, Error(what));
    if p.body.token !in tokens then fail("token not found")
    else
      var plain := Unseal(cfg.username, p.body.token, p.body.nonce, p.body.payload);
      if plain.None? then fail("cannot decrypt and authenticate challenge")
      else if !plain.value.Request? then fail("cannot parse payload")
      else if plain.value.intention.None? then fail("intention type unknown")
      else if !Permitted(cfg.checker, plain.value.intention.value) then
        Reaction(tokens - {p.body.token}, [ConfirmPacket(cfg, p.body.token, p.source, d.nonce, REFUSED)], [], false, Done)
      else Accept(cfg, tokens, p, plain.value, d)
  }

  function Handle(cfg: Config, tokens: map<nat, nat>, p: Packet, d: Draw): Reaction {
    if p.destination != Username(cfg.username) then Reaction(tokens, [], [], false, Ignored)
    else match p.body
      case ChallengeRequest =>
        Reaction(tokens[d.token := d.now], [Packet(Username(cfg.username), p.source, Challenge(d.token))], [], false, Done)
      case ChallengeResponse(_, _, _) => HandleResponse(cfg, tokens, p, d)
      case Challenge(_) => Reaction(tokens, [], [], false, Error("exchange type error"))
      case Confirm(_, _, _) => Reaction(tokens, [], [], false, Error("exchange type error"))
  }

  /** What the daemon does with a response, read off the rules alone. It is asked exactly when the packet is
      addressed to it, the token is live, and the payload opens to a request with an intention; otherwise
      nothing happens. Asked, it confirms to the sender: an acceptance exactly when the rules allow the
      intention, which starts the one session asked for (a forward only with a live tomb), and else a
      refusal. The token is forgotten then, except after an accepted pipe or a dead tomb. */
  lemma HandledResponses(cfg: Config, tokens: map<nat, nat>, p: Packet, d: Draw)
    requires p.body.ChallengeResponse?
    ensures var r, token, c, rules := Handle(cfg, tokens, p, d), p.body.token, p.body.payload, cfg.checker.rules;
            var asked := p.destination == Username(cfg.username) && token in tokens
                         && c.username == cfg.username && c.token == token && c.nonce == p.body.nonce
                         && c.plain.Request? && c.plain.intention.Some?;
            if !asked then r.out == [] && r.sessions == [] && r.tokens == tokens && !r.stop
            else
              var granted :=
                match c.plain.intention.value
                case PipeOut => rules.pipeOut
                case PortForwardTo(h, port) =>
                  rules.forward == FORWARD_IN && ((rules.host == "" && rules.port == 0) || (h == rules.host && port == rules.port))
                case PortForwardFrom(h, port) =>
                  rules.forward == FORWARD_OUT && ((rules.host == "" && rules.port == 0) || (h == rules.host && port == rules.port));
              var answer :=
                if granted then Result(true, None, Some(cfg.signature), Some(cfg.relay), Some(d.pairID))
                else Result(false, Some("failed permission check"), None, None, None);
              var pipe := c.plain.intention.value.PipeOut?;
              && r.out == [Packet(Username(cfg.username), p.source, Confirm(token, d.nonce, Sealed(cfg.username, token, d.nonce, answer)))]
              && (r.sessions == [] <==> !granted || (!pipe && !d.tombAlive))
              && (r.sessions != [] ==>
                    var work := match c.plain.intention.value
                                case PipeOut => PipeOutlet
                                case PortForwardTo(h, port) => DialOut(h, port % 0x1_0000)
                                case PortForwardFrom(h, port) => ListenOn(h, port % 0x1_0000);
                    r.sessions == [Session(d.pairID, HashOf(c.plain.pairKey, cfg.accessKey), cfg.relay, work)])
              && r.tokens == (if granted && (pipe || !d.tombAlive) then tokens else tokens - {token})
              && (r.stop <==> granted && pipe && d.pipeSucceeds)
  {
  }

  /** A request for a challenge adds the new token to the live ones, keeps all others, and sends the token to
      the one who asked. */
  lemma HandledRequests(cfg: Config, tokens: map<nat, nat>, p: Packet, d: Draw)
    requires p.body.ChallengeRequest? && p.destination == Username(cfg.username)
    ensures var r := Handle(cfg, tokens, p, d);
            && r.tokens.Keys == tokens.Keys + {d.token} && r.tokens[d.token] == d.now
            && (forall t :: t in tokens && t != d.token ==> r.tokens[t] == tokens[t])
            && r.out == [Packet(Username(cfg.username), p.source, Challenge(d.token))]
            && r.sessions == [] && !r.stop
  {
  }

  /** A duplicated response, when the daemon reads it, is confirmed twice exactly when its token survives the
      first handling: the intention is permitted, and it is a pipe or the tomb is dead. Only a pipe that ended
      well has asked the daemon to stop in between. */
  lemma ConfirmedTwiceIff(cfg: Config, tokens: map<nat, nat>, p: Packet, d1: Draw, d2: Draw)
    requires RequestIn(cfg, tokens, p).Some? && RequestIn(cfg, tokens, p).value.intention.Some?
    ensures var i := RequestIn(cfg, tokens, p).value.intention.value;
            var r1 := Handle(cfg, tokens, p, d1);
            var r2 := Handle(cfg, r1.tokens, p, d2);
            && r1.out != []
            && (r1.stop <==> Permitted(cfg.checker, i) && i.PipeOut? && d1.pipeSucceeds)
            && (r2.out != [] <==> Permitted(cfg.checker, i) && (i.PipeOut? || !d1.tombAlive))
            && (r2.out != [] ==> r1.out[0].body.payload.plain == Accepted(cfg, d1.pairID)
                                 && r2.out[0].body.payload.plain == Accepted(cfg, d2.pairID))
  {
  }

  class PipieDaemon {
    const cfg: Config
    var tokenMap: map<nat, nat>
    var stopped: bool
    var outbox: seq<Packet>
    var sessions: seq<Session>

    constructor (cfg: Config)
      ensures this.cfg == cfg && tokenMap == map[] && !stopped && outbox == [] && sessions == []
    {
      this.cfg := cfg;
      tokenMap, stopped, outbox, sessions := map[], false, [], [];
    }

    method ChallengeConfirm(token: nat, dest: Address, nonce: nat, result: Plain)
      modifies this`outbox
      ensures outbox == old(outbox) + [ConfirmPacket(cfg, token, dest, nonce, result)]
    {
      var payload := Sealed(cfg.username, token, nonce, result);
      outbox := outbox + [Packet(Username(cfg.username), dest, Confirm(token, nonce, payload))];
    }

    method HandleExchange(p: Packet, d: Draw) returns (outcome: Outcome)
      modifies this
      ensures var r := Handle(cfg, old(tokenMap), p, d);
              && tokenMap == r.tokens && outbox == old(outbox) + r.out && sessions == old(sessions) + r.sessions
              && stopped == (old(stopped) || r.stop) && outcome == r.outcome
    {
      if p.destination != Username(cfg.username) {
        return Ignored;
      }
      match p.body {
        case ChallengeRequest =>
          tokenMap := tokenMap[d.token := d.now];
          outbox := outbox + [Packet(Username(cfg.username), p.source, Challenge(d.token))];
        case ChallengeResponse(token, nonce, payload) =>
          if token !in tokenMap {
            return Error("token not found");
          }
          var plain := Unseal(cfg.username, token, nonce, payload);
          if plain.None? {
            return Error("cannot decrypt and authenticate challenge");
          }
          if !plain.value.Request? {
            return Error("cannot parse payload");
          }
          if plain.value.intention.None? {
            return Error("intention type unknown");
          }
          var pairKey, intention := plain.value.pairKey, plain.value.intention.value;
          if !Permitted(cfg.checker, intention) {
            ChallengeConfirm(token, p.source, d.nonce, REFUSED);
          } else {
            ChallengeConfirm(token, p.source, d.nonce, Accepted(cfg, d.pairID));
            if intention.PipeOut? {
              sessions := sessions + [Session(d.pairID, HashOf(pairKey, cfg.accessKey), cfg.relay, PipeOutlet)];
              if !d.pipeSucceeds {
                return Error("pipe session");
              }
              stopped := true;
              return Done;
            }
            if !d.tombAlive {
              return Panic;
            }
            var work := if intention.PortForwardTo? then DialOut(intention.host, intention.port % 0x1_0000)
                        else ListenOn(intention.host, intention.port % 0x1_0000);
            sessions := sessions + [Session(d.pairID, HashOf(pairKey, cfg.accessKey), cfg.relay, work)];
          }
          tokenMap := tokenMap - {token};
        case Challenge(_) =>
          return Error("exchange type error");
        case Confirm(_, _, _) =>
          return Error("exchange type error");
      }
      outcome := Done;
    }
  }
}
