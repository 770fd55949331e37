/**
 One round of UDP hole punching at one peer: the reading loop with its variables, the goroutine that
 sends pings and pongs beside it, and the loop that retries rounds.
 */
module Traversal {
  import opened Wrappers

  datatype Addr = Addr(ip: string, port: string)

  // What the rendezvous server tells: this peer's polarity and the other peer's two addresses.
  datatype PairInfo = PairInfo(polarity: bool, peerPublic: Addr, peerInterface: Addr)

  // A datagram as the loop takes it apart. A record without fromPeer is taken for the server's.
  datatype Word = Text(text: string) | NotText
  datatype Datagram = Garbage | Record(status: Option<bool>, fromPeer: Option<Word>, info: Option<PairInfo>)

  const Ping := Record(None, Some(Text("ping")), None)
  const Pong := Record(None, Some(Text("pong")), None)

  // 0: waiting for the pair info. 1: sending pings. 2: a ping came, sending pongs. 3: a pong came.
  datatype Vars = Vars(state: nat, info: Option<PairInfo>, lastAddr: Option<Addr>, lastAddr2: Option<Addr>)

  const Fresh := Vars(0, None, None, None)

  datatype Verdict =
    | GoOn(spawn: bool)                        // spawn: another sender is started
    | Done(addr: Addr, meta: bool)             // left on a pong, after one last pong to its source
    | Failed(why: string, seen: Option<bool>)
    | Panics

  function OnPeerWord(v: Vars, w: Word, from: Addr): (Vars, Verdict) {
    if v.state == 0 then (v, GoOn(false))
    else if w.NotText? then (v, Panics)
    else if w.text == "ping" then (v.(state := 2, lastAddr := Some(from)), GoOn(false))
    else if w.text == "pong" then
      var v' := v.(state := 3, lastAddr := Some(from));
      (v', if v.info.Some? then Done(from, v.info.value.polarity) else Panics)
    else (v, GoOn(false))
  }

  // The addresses of a good record that are resolved: the interface address only when it differs.
  predicate Usable(info: PairInfo, resolves: Addr -> bool) {
    resolves(info.peerPublic) && (info.peerInterface != info.peerPublic ==> resolves(info.peerInterface))
  }

  function OnServerRecord(v: Vars, status: Option<bool>, info: Option<PairInfo>, resolves: Addr -> bool): (Vars, Verdict) {
    if info.None? then (v, Failed("read invalid message", None))
    else if status != Some(true) then (v.(info := info), Failed("traversal server status false", Some(info.value.polarity)))
    else if !resolves(info.value.peerPublic) then (v.(info := info, lastAddr := None), Panics)
    else
      var v' := v.(info := info, lastAddr := Some(info.value.peerPublic));
      if info.value.peerPublic == info.value.peerInterface then (v'.(state := 1, lastAddr2 := None), GoOn(true))
      else if !resolves(info.value.peerInterface) then (v'.(lastAddr2 := None), Panics)
      else (v'.(state := 1, lastAddr2 := Some(info.value.peerInterface)), GoOn(true))
  }

  function OnDatagram(v: Vars, d: Datagram, from: Addr, resolves: Addr -> bool): (Vars, Verdict) {
    if d.Garbage? then (v, Failed("read invalid message", None))
    else if d.status == Some(false) then (v, Failed("server returns false status", None))
    else if d.fromPeer.Some? then OnPeerWord(v, d.fromPeer.value, from)
    else OnServerRecord(v, d.status, d.info, resolves)
  }

  predicate IsPairing(d: Datagram) {
    d.Record? && d.status == Some(true) && d.fromPeer.None? && d.info.Some?
  }

  // What brings the loop down: a fromPeer that is no text, once there is pair info, or a good record of the
  // server with an address that does not resolve.
  predicate Fatal(v: Vars, d: Datagram, resolves: Addr -> bool) {
    || (d.Record? && d.status != Some(false) && d.fromPeer == Some(NotText) && v.state >= 1)
    || (IsPairing(d) && !Usable(d.info.value, resolves))
  }

  // At every loop head: the state is past 0 exactly when the pair info is there, and then so is an address.
  predicate LoopHead(v: Vars) {
    v.state <= 2 && (v.state >= 1 <==> v.info.Some?) && (v.info.Some? ==> v.lastAddr.Some?)
  }

  // A pong of the peer, in a record that does not report a failure.
  predicate IsPong(d: Datagram) {
    d.Record? && d.status != Some(false) && d.fromPeer == Some(Text("pong"))
  }

  predicate IsPing(d: Datagram) {
    d.Record? && d.status != Some(false) && d.fromPeer == Some(Text("ping"))
  }

  /** One datagram at a loop head, in every case. Past state 0 a pong ends the loop with its source and the
      polarity of the pair info, and a ping sets state 2 and the address to its source. A usable record of
      the server sets state 1 and both addresses, and starts a sender. Garbage, a false status, and a server
      record without pair info or a true status fail, and a fatal datagram crashes. All else changes nothing.
      What goes on is a loop head again. */
  lemma LoopHeadKept(v: Vars, d: Datagram, from: Addr, resolves: Addr -> bool)
    requires LoopHead(v)
    ensures var (v', r) := OnDatagram(v, d, from, resolves);
            && (r.GoOn? ==> LoopHead(v'))
            && (r.Done? <==> IsPong(d) && v.state >= 1)
            && (r.Done? ==> v.info.Some? && r == Done(from, v.info.value.polarity)
                            && v' == Vars(3, v.info, Some(from), v.lastAddr2))
            && (r.Panics? <==> Fatal(v, d, resolves))
            && (r.Failed? <==>
                  || d.Garbage? || d.status == Some(false)
                  || (d.fromPeer.None? && (d.info.None? || d.status != Some(true))))
            && (r == GoOn(true) <==> IsPairing(d) && Usable(d.info.value, resolves))
            && (r == GoOn(true) ==>
                  var info := d.info.value;
                  v' == Vars(1, d.info, Some(info.peerPublic),
                             if info.peerInterface == info.peerPublic then None else Some(info.peerInterface)))
            && (r == GoOn(false) ==>
                  v' == if IsPing(d) && v.state >= 1 then Vars(2, v.info, Some(from), v.lastAddr2) else v)
  {
  }

  class PeerLoop {
    var state: nat
    var pairInfo: Option<PairInfo>
    var lastAddr: Option<Addr>
    var lastAddr2: Option<Addr>
    var senders: nat
    var sent: seq<(Datagram, Addr)>

    function View(): Vars
      reads this
    {
      Vars(state, pairInfo, lastAddr, lastAddr2)
    }

    constructor ()
      ensures View() == Fresh && senders == 0 && sent == []
    {
      state, pairInfo, lastAddr, lastAddr2, senders, sent := 0, None, None, None, 0, [];
    }

    method ReadOne(d: Datagram, from: Addr, resolves: Addr -> bool) returns (r: Verdict)
      requires LoopHead(View())
      modifies this
      ensures (View(), r) == OnDatagram(old(View()), d, from, resolves)
      ensures senders == old(senders) + (if r.GoOn? && r.spawn then 1 else 0)
      ensures sent == old(sent) + (if r.Done? then [(Pong, r.addr)] else [])
    {
      if d.Garbage? {
        return Failed("read invalid message", None);
      }
      if d.status == Some(false) {
        return Failed("server returns false status", None);
      }
      if d.fromPeer.Some? {
        if state == 0 {
          return GoOn(false);
        }
        if d.fromPeer.value.NotText? {
          return Panics;
        }
        var val := d.fromPeer.value.text;
        if val == "ping" {
          state := 2;
          lastAddr := Some(from);
        } else if val == "pong" {
          state := 3;
          lastAddr := Some(from);
          sent := sent + [(Pong, lastAddr.value)];
          return Done(lastAddr.value, pairInfo.value.polarity);
        }
        return GoOn(false);
      }
      if d.info.None? {
        return Failed("read invalid message", None);
      }
      pairInfo := d.info;
      if d.status != Some(true) {
        return Failed("traversal server status false", Some(pairInfo.value.polarity));
      }
      if !resolves(pairInfo.value.peerPublic) {
        lastAddr := None;
        return Panics;
      }
      lastAddr := Some(pairInfo.value.peerPublic);
      if pairInfo.value.peerPublic != pairInfo.value.peerInterface {
        if !resolves(pairInfo.value.peerInterface) {
          lastAddr2 := None;
          return Panics;
        }
        lastAddr2 := Some(pairInfo.value.peerInterface);
      } else {
        lastAddr2 := None;
      }
      state := 1;
      senders := senders + 1;
      r := GoOn(true);
    }

    // The reading loop over the datagrams that arrive, until it ends or the arrivals do.
    method Run(arrivals: seq<(Datagram, Addr)>, resolves: Addr -> bool) returns (r: Verdict)
      requires LoopHead(View())
      modifies this
      ensures (View(), r) == ReadAll(old(View()), arrivals, resolves)
      ensures sent == old(sent) + (if r.Done? then [(Pong, r.addr)] else [])
    {
      r := GoOn(false);
      var i := 0;
      while i < |arrivals|
        invariant 0 <= i <= |arrivals| && LoopHead(View()) && r == GoOn(false) && sent == old(sent)
        invariant ReadAll(old(View()), arrivals, resolves) == ReadAll(View(), arrivals[i..], resolves)
      {
        LoopHeadKept(View(), arrivals[i].0, arrivals[i].1, resolves);
        assert arrivals[i..][1..] == arrivals[i + 1..];
        r := ReadOne(arrivals[i].0, arrivals[i].1, resolves);
        if !r.GoOn? {
          return;
        }
        r := GoOn(false);
        i := i + 1;
      }
      assert arrivals[i..] == [];
    }
  }

  function ReadAll(v: Vars, arrivals: seq<(Datagram, Addr)>, resolves: Addr -> bool): (Vars, Verdict)
    decreases |arrivals|
  {
    if arrivals == [] then (v, GoOn(false))
    else
      var (v', r) := OnDatagram(v, arrivals[0].0, arrivals[0].1, resolves);
      if r.GoOn? then ReadAll(v', arrivals[1..], resolves) else (v', r)
  }

  predicate IsPongFrom(d: (Datagram, Addr), a: Addr) {
    d.0.Record? && d.0.fromPeer == Some(Text("pong")) && d.1 == a
  }

  /** Whatever arrives in whatever order: the loop never dereferences a missing pair info, it succeeds only
      with the source of a pong, and only after a good record from the server. */
  lemma {:induction false} SuccessNeedsPairingAndPong(v: Vars, arrivals: seq<(Datagram, Addr)>, resolves: Addr -> bool)
    requires LoopHead(v)
    ensures var (v', r) := ReadAll(v, arrivals, resolves);
            && (r.GoOn? ==> LoopHead(v'))
            && (r.Done? ==> v'.info.Some? && v'.lastAddr == Some(r.addr) && v'.state == 3)
            && (r.Done? ==> exists i :: 0 <= i < |arrivals| && IsPongFrom(arrivals[i], r.addr))
            && (r.Done? ==> v.info.Some? || exists i :: 0 <= i < |arrivals| && IsPairing(arrivals[i].0))
    decreases |arrivals|
  {
    if arrivals != [] {
      var (v', r) := OnDatagram(v, arrivals[0].0, arrivals[0].1, resolves);
      LoopHeadKept(v, arrivals[0].0, arrivals[0].1, resolves);
      if r.GoOn? {
        var rest := arrivals[1..];
        SuccessNeedsPairingAndPong(v', rest, resolves);
        var r' := ReadAll(v', rest, resolves).1;
        if r'.Done? {
          var i :| 0 <= i < |rest| && IsPongFrom(rest[i], r'.addr);
          assert IsPongFrom(arrivals[i + 1], r'.addr);
          if v.info.None? {
            if v'.info.Some? {
              assert IsPairing(arrivals[0].0);
            } else {
              var j :| 0 <= j < |rest| && IsPairing(rest[j].0);
              assert IsPairing(arrivals[j + 1].0);
            }
          }
        }
      } else if r.Done? {
        assert IsPongFrom(arrivals[0], r.addr);
      }
    }
  }

  // The loop gets as far as this datagram, and it is fatal there.
  predicate FatalAt(v: Vars, arrivals: seq<(Datagram, Addr)>, i: nat, resolves: Addr -> bool)
    requires i < |arrivals|
  {
    var (v', r) := ReadAll(v, arrivals[..i], resolves);
    r.GoOn? && Fatal(v', arrivals[i].0, resolves)
  }

  lemma FatalLater(v: Vars, arrivals: seq<(Datagram, Addr)>, i: nat, resolves: Addr -> bool)
    requires 0 < i < |arrivals|
    ensures var (v', r) := OnDatagram(v, arrivals[0].0, arrivals[0].1, resolves);
            FatalAt(v, arrivals, i, resolves) <==> r.GoOn? && FatalAt(v', arrivals[1..], i - 1, resolves)
  {
    assert arrivals[..i][1..] == arrivals[1..][..i - 1];
  }

  /** The loop crashes exactly when it reads as far as a fatal datagram, whatever came before. */
  lemma {:induction false} CrashesIff(v: Vars, arrivals: seq<(Datagram, Addr)>, resolves: Addr -> bool)
    requires LoopHead(v)
    ensures ReadAll(v, arrivals, resolves).1.Panics? <==> exists i: nat :: i < |arrivals| && FatalAt(v, arrivals, i, resolves)
    decreases |arrivals|
  {
    if arrivals != [] {
      var (v', r) := OnDatagram(v, arrivals[0].0, arrivals[0].1, resolves);
      LoopHeadKept(v, arrivals[0].0, arrivals[0].1, resolves);
      assert arrivals[..0] == [];
      assert FatalAt(v, arrivals, 0, resolves) <==> r.Panics?;
      forall i: nat | 0 < i < |arrivals|
        ensures FatalAt(v, arrivals, i, resolves) <==> r.GoOn? && FatalAt(v', arrivals[1..], i - 1, resolves)
      {
        FatalLater(v, arrivals, i, resolves);
      }
      if r.GoOn? {
        CrashesIff(v', arrivals[1..], resolves);
        if i: nat :| i < |arrivals[1..]| && FatalAt(v', arrivals[1..], i, resolves) {
          assert FatalAt(v, arrivals, i + 1, resolves);
        }
      }
    }
  }

  // The pair info of the last good record of the server, if there was one.
  function LastPairing(info: Option<PairInfo>, arrivals: seq<(Datagram, Addr)>): Option<PairInfo>
    decreases |arrivals|
  {
    if arrivals == [] then info
    else LastPairing(if IsPairing(arrivals[0].0) then arrivals[0].0.info else info, arrivals[1..])
  }

  // What ends the loop, for the pair info there is: read off the datagram alone.
  predicate Ends(info: Option<PairInfo>, d: Datagram, resolves: Addr -> bool) {
    || d.Garbage? || d.status == Some(false)
    || (d.fromPeer.Some? && info.Some? && (d.fromPeer.value.NotText? || d.fromPeer == Some(Text("pong"))))
    || (d.fromPeer.None? && (!IsPairing(d) || !Usable(d.info.value, resolves)))
  }

  predicate EndsAt(info: Option<PairInfo>, arrivals: seq<(Datagram, Addr)>, i: nat, resolves: Addr -> bool)
    requires i < |arrivals|
  {
    Ends(LastPairing(info, arrivals[..i]), arrivals[i].0, resolves)
  }

  // The datagram at which the loop ends.
  predicate FirstEnd(info: Option<PairInfo>, arrivals: seq<(Datagram, Addr)>, i: nat, resolves: Addr -> bool) {
    i < |arrivals| && EndsAt(info, arrivals, i, resolves) && forall j: nat :: j < i ==> !EndsAt(info, arrivals, j, resolves)
  }

  // How the loop ends on this datagram.
  function EndOf(info: Option<PairInfo>, d: (Datagram, Addr)): Option<Verdict> {
    if IsPong(d.0) && info.Some? then Some(Done(d.1, info.value.polarity))
    else if IsPairing(d.0) || (d.0.Record? && d.0.status != Some(false) && d.0.fromPeer == Some(NotText)) then Some(Panics)
    else None
  }

  lemma EndsLater(info: Option<PairInfo>, arrivals: seq<(Datagram, Addr)>, i: nat, resolves: Addr -> bool)
    requires i + 1 < |arrivals|
    ensures var next := if IsPairing(arrivals[0].0) then arrivals[0].0.info else info;
            && EndsAt(info, arrivals, i + 1, resolves) == EndsAt(next, arrivals[1..], i, resolves)
            && LastPairing(info, arrivals[..i + 1]) == LastPairing(next, arrivals[1..][..i])
  {
    assert arrivals[..i + 1][1..] == arrivals[1..][..i];
  }

  lemma HeadEnds(v: Vars, d: (Datagram, Addr), resolves: Addr -> bool)
    requires LoopHead(v)
    ensures var (v', r) := OnDatagram(v, d.0, d.1, resolves);
            && (r.GoOn? <==> !Ends(v.info, d.0, resolves))
            && (r.GoOn? ==> v'.info == if IsPairing(d.0) then d.0.info else v.info)
            && (!r.GoOn? ==> if r.Failed? then EndOf(v.info, d).None? else EndOf(v.info, d) == Some(r))
  {
    LoopHeadKept(v, d.0, d.1, resolves);
  }

  /** The whole loop, read off the arrivals alone: it goes on as long as nothing ends it; otherwise it ends on
      the first datagram that does: successfully exactly on a pong, with its source and the polarity of the
      last good record before it. */
  lemma {:induction false} LoopEndsAt(v: Vars, arrivals: seq<(Datagram, Addr)>, resolves: Addr -> bool)
    requires LoopHead(v)
    ensures ReadAll(v, arrivals, resolves).1.GoOn? <==> forall i: nat :: i < |arrivals| ==> !EndsAt(v.info, arrivals, i, resolves)
    ensures forall i: nat :: FirstEnd(v.info, arrivals, i, resolves) ==>
              var r, end := ReadAll(v, arrivals, resolves).1, EndOf(LastPairing(v.info, arrivals[..i]), arrivals[i]);
              if end.Some? then r == end.value else r.Failed?
    decreases |arrivals|
  {
    if arrivals != [] {
      var (v', r) := OnDatagram(v, arrivals[0].0, arrivals[0].1, resolves);
      LoopHeadKept(v, arrivals[0].0, arrivals[0].1, resolves);
      HeadEnds(v, arrivals[0], resolves);
      hide OnDatagram, Ends, EndOf;
      assert arrivals[..0] == [];
      assert EndsAt(v.info, arrivals, 0, resolves) <==> !r.GoOn?;
      if r.GoOn? {
        var rest := arrivals[1..];
        LoopEndsAt(v', rest, resolves);
        forall i: nat | i < |rest|
          ensures EndsAt(v.info, arrivals, i + 1, resolves) == EndsAt(v'.info, rest, i, resolves)
          ensures LastPairing(v.info, arrivals[..i + 1]) == LastPairing(v'.info, rest[..i])
        {
          EndsLater(v.info, arrivals, i, resolves);
        }
        forall i: nat | FirstEnd(v.info, arrivals, i, resolves)
          ensures i > 0 && FirstEnd(v'.info, rest, i - 1, resolves) && rest[i - 1] == arrivals[i]
        {
          assert i != 0;
          forall j: nat | j < i - 1
            ensures !EndsAt(v'.info, rest, j, resolves)
          {
            assert !EndsAt(v.info, arrivals, j + 1, resolves);
          }
        }
        if forall i: nat :: i < |rest| ==> !EndsAt(v'.info, rest, i, resolves) {
          forall i: nat | i < |arrivals|
            ensures !EndsAt(v.info, arrivals, i, resolves)
          {
            assert i > 0 ==> EndsAt(v.info, arrivals, (i - 1) + 1, resolves) == EndsAt(v'.info, rest, i - 1, resolves);
          }
        }
      }
    }
  }

  lemma FindFirstEnd(info: Option<PairInfo>, arrivals: seq<(Datagram, Addr)>, n: nat, resolves: Addr -> bool) returns (i: nat)
    requires n < |arrivals| && EndsAt(info, arrivals, n, resolves)
    ensures FirstEnd(info, arrivals, i, resolves)
  {
    i := 0;
    while !EndsAt(info, arrivals, i, resolves)
      invariant i <= n && forall j: nat :: j < i ==> !EndsAt(info, arrivals, j, resolves)
      decreases n - i
    {
      i := i + 1;
    }
  }

  // The loop ends at this datagram, and leaves on it: a pong, after a good record of the server.
  predicate LeavesAt(arrivals: seq<(Datagram, Addr)>, i: nat, resolves: Addr -> bool) {
    FirstEnd(None, arrivals, i, resolves) && IsPong(arrivals[i].0) && LastPairing(None, arrivals[..i]).Some?
  }

  /** A fresh loop leaves exactly when the first datagram that ends it is a pong after a good record. */
  lemma LeavesIff(arrivals: seq<(Datagram, Addr)>, resolves: Addr -> bool)
    ensures ReadAll(Fresh, arrivals, resolves).1.Done? <==> exists i: nat :: LeavesAt(arrivals, i, resolves)
    ensures forall i: nat :: LeavesAt(arrivals, i, resolves) ==>
              ReadAll(Fresh, arrivals, resolves).1 == Done(arrivals[i].1, LastPairing(None, arrivals[..i]).value.polarity)
  {
    var r := ReadAll(Fresh, arrivals, resolves).1;
    LoopEndsAt(Fresh, arrivals, resolves);
    if r.Done? {
      var n: nat :| n < |arrivals| && EndsAt(None, arrivals, n, resolves);
      var i := FindFirstEnd(None, arrivals, n, resolves);
      assert EndOf(LastPairing(None, arrivals[..i]), arrivals[i]) == Some(r);
      assert LeavesAt(arrivals, i, resolves);
    }
  }

  /** A good record whose public port is no number brings the loop down at once, and so does a bare IPv6
      address if such an address does not resolve; the peer's datagrams before it make no difference. */
  lemma UnresolvableRecordCrashes(early: seq<(Datagram, Addr)>, public: Addr, from: Addr, polarity: bool, resolves: Addr -> bool)
    requires !resolves(public)
    requires forall x :: x in early ==> x.0 == Ping || x.0 == Pong
    ensures var record := Record(Some(true), None, Some(PairInfo(polarity, public, public)));
            ReadAll(Fresh, early + [(record, from)], resolves).1 == Panics
    decreases |early|
  {
    var record := Record(Some(true), None, Some(PairInfo(polarity, public, public)));
    if early == [] {
      assert [] + [(record, from)] == [(record, from)];
    } else {
      assert (early + [(record, from)])[1..] == early[1..] + [(record, from)];
      UnresolvableRecordCrashes(early[1..], public, from, polarity, resolves);
    }
  }

  // ------------------------------------------------------------------ the sender

  const ROUNDS := 8

  // Where a sender is: about to load the state, to send to the first or the second address, or finished.
  datatype Pc = Loading | First(ping: bool) | Second | Finished

  datatype Sender = Sender(pc: Pc, round: nat, sends: nat)

  const NewSender := Sender(Loading, 0, 0)

  function NextRound(s: Sender): Sender {
    s.(round := s.round + 1, pc := if s.round + 1 < ROUNDS then Loading else Finished)
  }

  function Load(s: Sender, state: nat): Sender {
    s.(pc := if state == 1 then First(true) else if state == 2 then First(false) else Finished)
  }

  // The write after a load; the addresses are read when it is made.
  function Write(s: Sender, v: Vars): (Sender, seq<(Datagram, Option<Addr>)>) {
    match s.pc
    case First(true) => (s.(pc := Second, sends := s.sends + 1), [(Ping, v.lastAddr)])
    case First(false) => (NextRound(s.(sends := s.sends + 1)), [(Pong, v.lastAddr)])
    case Second =>
      if v.lastAddr2.Some? then (NextRound(s.(sends := s.sends + 1)), [(Ping, v.lastAddr2)]) else (NextRound(s), [])
    case _ => (s, [])
  }

  predicate Bounded(s: Sender) {
    && s.round <= ROUNDS
    && (s.pc.Finished? || s.round < ROUNDS)
    && s.sends <= 2 * s.round + (if s.pc.Second? then 1 else 0)
  }

  lemma SenderStaysBounded(s: Sender, state: nat, v: Vars)
    requires Bounded(s)
    ensures s.pc.Loading? ==> Bounded(Load(s, state))
    ensures Bounded(Write(s, v).0)
  {
  }

  type Sends = seq<(Datagram, Option<Addr>)>

  // What one round sends, for the state it loads and the addresses it finds.
  function RoundSends(state: nat, v: Vars): Sends {
    if state == 1 then [(Ping, v.lastAddr)] + (if v.lastAddr2.Some? then [(Ping, v.lastAddr2)] else [])
    else if state == 2 then [(Pong, v.lastAddr)]
    else []
  }

  // What the rounds load and find, one after the other; a state other than 1 and 2 ends the goroutine.
  function AllSends(rounds: seq<(nat, Vars)>): Sends {
    if rounds == [] || (rounds[0].0 != 1 && rounds[0].0 != 2) then []
    else RoundSends(rounds[0].0, rounds[0].1) + AllSends(rounds[1..])
  }

  /** The separate steps of the machine, taken without interference, make up exactly one round, and
      after the eighth the sender is finished. */
  lemma StepsMakeARound(s: Sender, state: nat, v: Vars)
    requires s.pc.Loading? && (state == 1 || state == 2)
    ensures var s1 := Load(s, state);
            var (s2, out) := Write(s1, v);
            var (s3, out2) := Write(s2, v);
            && (state == 1 ==> out + out2 == RoundSends(state, v) && s3 == NextRound(s.(sends := s.sends + |out + out2|)))
            && (state == 2 ==> out == RoundSends(state, v) && s2 == NextRound(s.(sends := s.sends + |out|)))
            && NextRound(s).round == s.round + 1 && NextRound(s).pc == if s.round < 7 then Loading else Finished
  {
  }

  /** A load of any other state ends the sender without a send; one of state 1 makes the next write a ping, and
      one of state 2 a pong, to the address found then. */
  lemma LoadDecides(s: Sender, state: nat, v: Vars)
    requires s.pc.Loading?
    ensures var (s2, out) := Write(Load(s, state), v);
            out == if state == 1 then [(Ping, v.lastAddr)] else if state == 2 then [(Pong, v.lastAddr)] else []
    ensures state != 1 && state != 2 ==> Load(s, state).pc.Finished?
  {
  }

  /** A good record from the server, with addresses that resolve, starts a sender whose first round, made undisturbed, pings exactly the
      two addresses the record gives, and each of them once. */
  lemma FirstRoundCoversBothAddresses(v: Vars, d: Datagram, from: Addr, resolves: Addr -> bool)
    requires IsPairing(d) && Usable(d.info.value, resolves)
    ensures var (v', r) := OnDatagram(v, d, from, resolves);
            var both, out := {d.info.value.peerPublic, d.info.value.peerInterface}, RoundSends(v'.state, v');
            && r == GoOn(true) && v'.info == d.info
            && |out| == |both| && (forall a :: a in both <==> (Ping, Some(a)) in out)
  {
    var info := d.info.value;
    var out := RoundSends(1, OnDatagram(v, d, from, resolves).0);
    if info.peerPublic == info.peerInterface {
      assert {info.peerPublic, info.peerInterface} == {info.peerPublic};
      assert out == [(Ping, Some(info.peerPublic))];
    } else {
      assert out == [(Ping, Some(info.peerPublic)), (Ping, Some(info.peerInterface))];
    }
  }

  lemma {:induction false} SendsAreBounded(rounds: seq<(nat, Vars)>)
    ensures |AllSends(rounds)| <= 2 * |rounds|
    ensures (forall r :: r in rounds ==> r.0 != 2) ==> forall x :: x in AllSends(rounds) ==> x.0 == Ping
  {
    if rounds != [] {
      SendsAreBounded(rounds[1..]);
    }
  }

  // The goroutine gets as far as round i: every round up to it loads 1 or 2.
  predicate Reaches(rounds: seq<(nat, Vars)>, i: nat) {
    i < |rounds| && forall j: nat :: j <= i ==> rounds[j].0 == 1 || rounds[j].0 == 2
  }

  // The addresses that datagrams of this kind went to, in order.
  function Targets(kind: Datagram, sent: Sends): seq<Option<Addr>> {
    if sent == [] then [] else (if sent[0].0 == kind then [sent[0].1] else []) + Targets(kind, sent[1..])
  }

  // The addresses found by the rounds that loaded 2, before one that ends the goroutine.
  function PongTargets(rounds: seq<(nat, Vars)>): seq<Option<Addr>> {
    if rounds == [] || (rounds[0].0 != 1 && rounds[0].0 != 2) then []
    else (if rounds[0].0 == 2 then [rounds[0].1.lastAddr] else []) + PongTargets(rounds[1..])
  }

  // The same for the rounds that loaded 1: the first address, and the second one if there is one.
  function PingTargets(rounds: seq<(nat, Vars)>): seq<Option<Addr>> {
    if rounds == [] || (rounds[0].0 != 1 && rounds[0].0 != 2) then []
    else
      var v := rounds[0].1;
      (if rounds[0].0 == 2 then [] else if v.lastAddr2.Some? then [v.lastAddr, v.lastAddr2] else [v.lastAddr])
      + PingTargets(rounds[1..])
  }

  lemma {:induction false} TargetsOfConcat(kind: Datagram, a: Sends, b: Sends)
    ensures Targets(kind, a + b) == Targets(kind, a) + Targets(kind, b)
  {
    if a == [] {
      assert a + b == b;
    } else {
      assert (a + b)[0] == a[0] && (a + b)[1..] == a[1..] + b;
      TargetsOfConcat(kind, a[1..], b);
      var x, rest, last := if a[0].0 == kind then [a[0].1] else [], Targets(kind, a[1..]), Targets(kind, b);
      assert Targets(kind, a + b) == x + Targets(kind, a[1..] + b);
      hide Targets;
      assert x + (rest + last) == (x + rest) + last;
    }
  }

  lemma RoundTargets(state: nat, v: Vars)
    requires state == 1 || state == 2
    ensures var out := RoundSends(state, v);
            && Targets(Pong, out) == (if state == 2 then [v.lastAddr] else [])
            && Targets(Ping, out) == (if state == 2 then [] else if v.lastAddr2.Some? then [v.lastAddr, v.lastAddr2] else [v.lastAddr])
            && forall x :: x in out ==> x.0 == Ping || x.0 == Pong
  {
    var out := RoundSends(state, v);
    if |out| == 1 {
      assert out[1..] == [];
    } else {
      var a, b := [(Ping, v.lastAddr)], [(Ping, v.lastAddr2)];
      TargetsOfConcat(Ping, a, b);
      TargetsOfConcat(Pong, a, b);
      assert a[1..] == [] && b[1..] == [];
    }
  }

  /** What is sent, round by round: each round that loads 2, before one that ends the goroutine, sends one pong
      to the address found; each that loads 1 sends one ping to each address found; and nothing else is sent. */
  lemma {:induction false} RoundsSend(rounds: seq<(nat, Vars)>)
    ensures Targets(Pong, AllSends(rounds)) == PongTargets(rounds)
    ensures Targets(Ping, AllSends(rounds)) == PingTargets(rounds)
    ensures forall x :: x in AllSends(rounds) ==> x.0 == Ping || x.0 == Pong
  {
    if rounds != [] && (rounds[0].0 == 1 || rounds[0].0 == 2) {
      var first, rest := RoundSends(rounds[0].0, rounds[0].1), AllSends(rounds[1..]);
      RoundsSend(rounds[1..]);
      RoundTargets(rounds[0].0, rounds[0].1);
      hide RoundSends;
      TargetsOfConcat(Pong, first, rest);
      TargetsOfConcat(Ping, first, rest);
    }
  }

  lemma {:induction false} PongsSent(rounds: seq<(nat, Vars)>)
    ensures PongTargets(rounds) != [] <==> exists i: nat :: Reaches(rounds, i) && rounds[i].0 == 2
  {
    if rounds != [] && (rounds[0].0 == 1 || rounds[0].0 == 2) {
      var rest := rounds[1..];
      PongsSent(rest);
      if rounds[0].0 == 2 {
        assert Reaches(rounds, 0);
      } else {
        forall i: nat
          ensures Reaches(rest, i) <==> Reaches(rounds, i + 1)
        {
          assert Reaches(rounds, i + 1) && i < |rest| ==> forall j: nat :: j <= i ==> rest[j] == rounds[j + 1];
          if Reaches(rest, i) {
            forall j: nat | j <= i + 1
              ensures rounds[j].0 == 1 || rounds[j].0 == 2
            {
              assert j > 0 ==> rounds[j] == rest[j - 1];
            }
          }
        }
        if i: nat :| Reaches(rest, i) && rest[i].0 == 2 {
          assert Reaches(rounds, i + 1) && rounds[i + 1].0 == 2;
        }
        if i: nat :| Reaches(rounds, i) && rounds[i].0 == 2 {
          assert Reaches(rest, i - 1) && rest[i - 1].0 == 2;
        }
      }
    }
  }

  lemma {:induction false} TargetsMeanSends(kind: Datagram, sent: Sends)
    ensures Targets(kind, sent) != [] <==> exists x :: x in sent && x.0 == kind
  {
    if sent != [] {
      TargetsMeanSends(kind, sent[1..]);
      assert sent == [sent[0]] + sent[1..];
    }
  }

  method SendRound(state: nat, v: Vars, sent: Sends) returns (out: Sends, more: bool)
    ensures out == sent + RoundSends(state, v)
    ensures more <==> state == 1 || state == 2
  {
    out, more := sent, true;
    if state == 1 {
      out := out + [(Ping, v.lastAddr)];
      if v.lastAddr2.Some? {
        out := out + [(Ping, v.lastAddr2)];
      }
    } else if state == 2 {
      out := out + [(Pong, v.lastAddr)];
    } else {
      more := false;
    }
  }

  lemma RoundBegins(rounds: seq<(nat, Vars)>, i: nat, sent: Sends)
    requires i < |rounds|
    ensures var (state, v) := rounds[i];
            sent + AllSends(rounds[i..]) ==
            if state == 1 || state == 2 then sent + RoundSends(state, v) + AllSends(rounds[i + 1..]) else sent
  {
    assert rounds[i..][1..] == rounds[i + 1..];
  }

  method SendRounds(rounds: seq<(nat, Vars)>) returns (out: Sends)
    ensures out == AllSends(rounds)
  {
    out := [];
    var i, more := 0, true;
    assert rounds[i..] == rounds;
    while i < |rounds| && more
      invariant 0 <= i <= |rounds|
      invariant AllSends(rounds) == if more then out + AllSends(rounds[i..]) else out
      decreases |rounds| - i, more
    {
      RoundBegins(rounds, i, out);
      out, more := SendRound(rounds[i].0, rounds[i].1, out);
      if more {
        i := i + 1;
      }
    }
  }

  /** The goroutine, whatever its eight rounds load and find while others write these variables: at most 16
      sends; one pong for each round it reaches that loads 2, to the address found there, and so some pong if
      and only if there is such a round; and pings to the addresses found by those that load 1. */
  method SendPingPong(rounds: seq<(nat, Vars)>) returns (out: Sends)
    requires |rounds| == 8
    ensures out == AllSends(rounds)
    ensures |out| <= 16
    ensures Targets(Pong, out) == PongTargets(rounds) && Targets(Ping, out) == PingTargets(rounds)
    ensures (exists x :: x in out && x.0 == Pong) <==> (exists i: nat :: Reaches(rounds, i) && rounds[i].0 == 2)
  {
    out := SendRounds(rounds);
    SendsAreBounded(rounds);
    RoundsSend(rounds);
    PongsSent(rounds);
    TargetsMeanSends(Pong, out);
  }

  // ------------------------------------------------------------------ retrying

  const RETRIES := 4

  // A crash is a failed assertion of the program; it passes through all callers.
  datatype Attempt = Success(conn: nat, addr: Addr, meta: bool) | Failure(err: string, seen: Option<bool>) | Crash

  // What a round meets besides the datagrams: does the server's address resolve, can the socket be dialed
  // and opened, does the announcement go out, can the port be opened again at the end.
  datatype World = World(serverResolves: bool, dials: bool, listens: bool, announces: bool, relistens: bool, socket: nat)

  /** One whole round: it succeeds exactly when everything before the loop works, the first datagram that ends
      the loop is a pong after a good record, and the port can be opened again, and then with the pong's source
      and the polarity of that record. It crashes exactly when an asserted step fails that it gets to. */
  method UdpTraverse(w: World, arrivals: seq<(Datagram, Addr)>, resolves: Addr -> bool) returns (a: Attempt)
    ensures var started := w.serverResolves && w.dials && w.listens && w.announces;
            && (a.Success? <==> started && w.relistens && exists i: nat :: LeavesAt(arrivals, i, resolves))
            && (forall i: nat :: a.Success? && LeavesAt(arrivals, i, resolves) ==>
                  a == Attempt.Success(w.socket, arrivals[i].1, LastPairing(None, arrivals[..i]).value.polarity))
            && (a.Crash? <==>
                  || !w.serverResolves
                  || (w.dials && w.listens && !w.announces)
                  || (started && (exists i: nat :: i < |arrivals| && FatalAt(Fresh, arrivals, i, resolves)))
                  || (started && !w.relistens && exists i: nat :: LeavesAt(arrivals, i, resolves)))
  {
    CrashesIff(Fresh, arrivals, resolves);
    LeavesIff(arrivals, resolves);
    if !w.serverResolves {
      return Crash;
    }
    if !w.dials || !w.listens {
      return Failure("failed to connect to traversal server", None);
    }
    if !w.announces {
      return Crash;
    }
    var loop := new PeerLoop();
    var r := loop.Run(arrivals, resolves);
    match r {
      case GoOn(_) =>
        var seen := if loop.pairInfo.Some? then Some(loop.pairInfo.value.polarity) else None;
        a := Failure("failed to read from UDP socket", seen);
      case Failed(why, seen) =>
        a := Failure(why, seen);
      case Panics =>
        a := Crash;
      case Done(addr, meta) =>
        a := if w.relistens then Attempt.Success(w.socket, addr, meta) else Crash;
    }
  }

  datatype Connection = Connection(conn: nat, addr: Addr, meta: bool)

  // The attempt that ends the retrying, of at most four made before a cancellation: all before it failed.
  predicate Decisive(attempt: nat -> Attempt, cancelled: nat -> bool, k: nat) {
    && k < RETRIES && !attempt(k).Failure? && !cancelled(k)
    && forall i :: 0 <= i < k ==> attempt(i).Failure? && !cancelled(i)
  }

  predicate Succeeds(attempt: nat -> Attempt, cancelled: nat -> bool, k: nat) {
    Decisive(attempt, cancelled, k) && attempt(k).Success?
  }

  datatype Built = Connected(c: Connection) | NotConnected(err: string) | Crashed

  /** At most four attempts; a connection with its metadata, or an error, or a crash: the connection exactly
      when some attempt succeeds after failures only and before any cancellation, and likewise the crash. */
  method BuildConnectionUDP(attempt: nat -> Attempt, cancelled: nat -> bool) returns (b: Built, made: nat)
    ensures made <= 4
    ensures b.Connected? <==> made >= 1 && Succeeds(attempt, cancelled, made - 1)
    ensures b.Connected? ==> b.c == Connection(attempt(made - 1).conn, attempt(made - 1).addr, attempt(made - 1).meta)
    ensures b.Connected? <==> exists k :: Succeeds(attempt, cancelled, k)
    ensures b.Crashed? <==> exists k :: Decisive(attempt, cancelled, k) && attempt(k).Crash?
  {
    var err: Option<string> := None;
    made := 0;
    while made < RETRIES
      invariant made <= RETRIES
      invariant made > 0 ==> err.Some?
      invariant forall i :: 0 <= i < made ==> attempt(i).Failure? && !cancelled(i)
    {
      if cancelled(made) {
        return NotConnected(if err.None? then "cancelled or timeout" else err.value), made;
      }
      var a := attempt(made);
      made := made + 1;
      match a {
        case Failure(e, _) =>
          err := Some(e);
        case Success(conn, addr, meta) =>
          assert Succeeds(attempt, cancelled, made - 1);
          return Connected(Connection(conn, addr, meta)), made;
        case Crash =>
          assert Decisive(attempt, cancelled, made - 1);
          return Crashed, made;
      }
    }
    b := NotConnected(err.value);
  }
}
