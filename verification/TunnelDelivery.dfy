/** The pumps can always finish: what a run has left in flight is never stuck, and never lost. */
module TunnelDelivery {
  import opened Wrappers
  import opened CommandStream
  import opened Tunnel
  import opened TunnelData
  import Pumps
  import TunnelTheorems

  // Moves of pumps only: no control step, and no application sends anything.
  predicate OnlyPumps(acts: seq<Act>) {
    forall i :: 0 <= i < |acts| ==> !acts[i].Control? && !acts[i].AppSends?
  }

  ghost predicate OnePortMoved(s: Session, s': Session, e: Endpoint, p: Port) {
    s'.ctl == s.ctl && forall f :: PortAt(s', f) == if f == e then p else PortAt(s, f)
  }

  lemma First(s: Session, a: Act, acts: seq<Act>)
    requires Possible(s, a) && IsHistory(Do(s, a), acts)
    ensures IsHistory(s, [a] + acts) && Play(s, [a] + acts) == Play(Do(s, a), acts)
  {
    assert ([a] + acts)[1..] == acts;
  }

  lemma {:induction false} Then(s: Session, first: seq<Act>, second: seq<Act>)
    requires IsHistory(s, first) && IsHistory(Play(s, first), second)
    ensures IsHistory(s, first + second) && Play(s, first + second) == Play(Play(s, first), second)
    decreases |first|
  {
    if first == [] {
      assert first + second == second;
    } else {
      Then(Do(s, first[0]), first[1..], second);
      assert (first + second)[1..] == first[1..] + second;
    }
  }

  lemma MovesCompose(s: Session, s1: Session, s2: Session, e: Endpoint, p1: Port, p2: Port)
    requires OnePortMoved(s, s1, e, p1) && OnePortMoved(s1, s2, e, p2)
    ensures OnePortMoved(s, s2, e, p2)
  {
  }

  // The port of an end that has written everything its connection sent.
  function Flushed(p: Port): Port { p.(taken := |p.sent|, outBuf := []) }

  // A pump with something to write can take a step towards it.
  lemma FlushStep(s: Session, e: Endpoint) returns (a: Act)
    requires Pumping(s, e) && PortAt(s, e).taken <= |PortAt(s, e).sent| && PortAt(s, e) != Flushed(PortAt(s, e))
    ensures !a.Control? && !a.AppSends? && Possible(s, a)
    ensures var s1, p := Do(s, a), PortAt(s, e);
            var p1 := PortAt(s1, e);
            && OnePortMoved(s, s1, e, p1) && p1.taken <= |p1.sent| && Flushed(p1) == Flushed(p)
            && (p.taken < p1.taken || (p.taken == p1.taken && |p1.outBuf| < |p.outBuf|))
  {
    var p := PortAt(s, e);
    a := if p.outBuf == [] then PumpReads(e, Min(Pumps.BUFFER_SIZE, |p.sent| - p.taken)) else PumpWrites(e, |p.outBuf|);
  }

  // One pump reads and writes until nothing of its connection is left to move.
  lemma {:induction false} Flush(s: Session, e: Endpoint) returns (acts: seq<Act>)
    requires Pumping(s, e) && PortAt(s, e).taken <= |PortAt(s, e).sent|
    ensures OnlyPumps(acts) && IsHistory(s, acts)
    ensures OnePortMoved(s, Play(s, acts), e, Flushed(PortAt(s, e)))
    decreases |PortAt(s, e).sent| - PortAt(s, e).taken, |PortAt(s, e).outBuf|
  {
    var p := PortAt(s, e);
    if p == Flushed(p) {
      acts := [];
    } else {
      var a := FlushStep(s, e);
      var s1 := Do(s, a);
      hide Do, Possible, PortAt;
      assert Pumping(s1, e);
      var rest := Flush(s1, e);
      acts := [a] + rest;
      First(s, a, rest);
      MovesCompose(s, s1, Play(s1, rest), e, PortAt(s1, e), Flushed(p));
    }
  }

  // The port of an end that has delivered everything that came in.
  function Drained(p: Port, incoming: seq<byte>): Port
    requires p.drained <= |incoming|
  {
    p.(drained := |incoming|, inBuf := [], got := p.got + (p.inBuf + incoming[p.drained..]))
  }

  lemma DrainStep(s: Session, e: Endpoint) returns (a: Act)
    requires Pumping(s, e) && PortAt(s, e).drained <= |Incoming(s, e)|
    requires PortAt(s, e) != Drained(PortAt(s, e), Incoming(s, e))
    ensures !a.Control? && !a.AppSends? && Possible(s, a)
    ensures var s1, p, all := Do(s, a), PortAt(s, e), Incoming(s, e);
            var p1 := PortAt(s1, e);
            && s1.wires == s.wires && OnePortMoved(s, s1, e, p1)
            && p1.drained <= |all| && Drained(p1, all) == Drained(p, all)
            && (p.drained < p1.drained || (p.drained == p1.drained && |p1.inBuf| < |p.inBuf|))
  {
    var p, all := PortAt(s, e), Incoming(s, e);
    if p.inBuf == [] {
      assert all[|all|..] == [] && p.got + (p.inBuf + []) == p.got;
      var n := Min(Pumps.BUFFER_SIZE, |all| - p.drained);
      a := DrainReads(e, n);
      assert all[p.drained..] == all[p.drained..p.drained + n] + all[p.drained + n..];
    } else {
      a := DrainWrites(e, |p.inBuf|);
      assert p.got + (p.inBuf + all[p.drained..]) == (p.got + p.inBuf[..|p.inBuf|]) + (p.inBuf[|p.inBuf|..] + all[p.drained..]);
    }
  }

  // The pump on the other side reads and writes until it has delivered all that is on the stream.
  lemma {:induction false} Drain(s: Session, e: Endpoint) returns (acts: seq<Act>)
    requires Pumping(s, e) && PortAt(s, e).drained <= |Incoming(s, e)|
    ensures OnlyPumps(acts) && IsHistory(s, acts) && Play(s, acts).wires == s.wires
    ensures OnePortMoved(s, Play(s, acts), e, Drained(PortAt(s, e), Incoming(s, e)))
    decreases |Incoming(s, e)| - PortAt(s, e).drained, |PortAt(s, e).inBuf|
  {
    var p := PortAt(s, e);
    if p == Drained(p, Incoming(s, e)) {
      acts := [];
    } else {
      var a := DrainStep(s, e);
      var s1 := Do(s, a);
      hide Do, Possible, PortAt, Drained;
      assert Pumping(s1, e) && Incoming(s1, e) == Incoming(s, e);
      var rest := Drain(s1, e);
      acts := [a] + rest;
      First(s, a, rest);
      MovesCompose(s, s1, Play(s1, rest), e, PortAt(s1, e), Drained(p, Incoming(s, e)));
    }
  }

  // Both ends of one stream, from e to f.
  ghost predicate Joined(m: Mux, e: Endpoint, f: Endpoint) {
    e.ClientSide? != f.ClientSide? && StreamAt(m, e).Some? && StreamAt(m, f) == StreamAt(m, e)
  }

  lemma AllMoved(p: Port, q: Port, w: seq<byte>, back: seq<byte>)
    requires Moved(p, true, w, back) && Moved(q, true, back, w)
    requires p.taken == |p.sent| && p.outBuf == [] && q.drained == |w| && q.inBuf == []
    ensures q.got == p.sent
  {
    assert p.sent == p.sent[..p.taken] == w + [] == w;
    assert w == w[..q.drained] == q.got + [] == q.got;
  }

  lemma WithinBounds(s: Session, e: Endpoint)
    requires DataInv(s) && StreamAt(s.ctl.mux, e).Some?
    ensures PortAt(s, e).taken <= |PortAt(s, e).sent| && PortAt(s, e).drained <= |Incoming(s, e)|
  {
    assert PortInv(s, e);
  }

  // The two ends of a stream use it in opposite directions.
  lemma JoinedWires(s: Session, e: Endpoint, f: Endpoint)
    requires Joined(s.ctl.mux, e, f)
    ensures Outgoing(s, e) == Incoming(s, f) && Outgoing(s, f) == Incoming(s, e)
  {
  }

  lemma DeliverOneWay(s: Session, e: Endpoint, f: Endpoint) returns (acts: seq<Act>)
    requires Inv(s.ctl) && DataInv(s) && Joined(s.ctl.mux, e, f) && Pumping(s, e) && Pumping(s, f)
    ensures OnlyPumps(acts) && IsHistory(s, acts)
    ensures var s' := Play(s, acts);
            && s'.ctl == s.ctl
            && PortAt(s', f).got == PortAt(s, e).sent && PortAt(s', e).got == PortAt(s, e).got
            && PortAt(s', e).sent == PortAt(s, e).sent && PortAt(s', f).sent == PortAt(s, f).sent
  {
    hide Inv, Moved;
    WithinBounds(s, e);
    var flush := Flush(s, e);
    var s1 := Play(s, flush);
    HistoryKeepsData(s, flush);
    WithinBounds(s1, f);
    var drain := Drain(s1, f);
    var s2 := Play(s1, drain);
    HistoryKeepsData(s1, drain);
    assert PortInv(s2, e) && PortInv(s2, f);
    JoinedWires(s2, e, f);
    assert Incoming(s2, f) == Incoming(s1, f);
    AllMoved(PortAt(s2, e), PortAt(s2, f), Outgoing(s2, e), Incoming(s2, e));
    acts := flush + drain;
    Then(s, flush, drain);
  }

  /** Nothing in flight is ever stuck: from every reachable state in which both ends of a matched pair are
      open, the pumps alone can go on until each end has received exactly what the other one sent. */
  lemma EverythingCanBeDelivered(s: Session, c: nat, d: nat) returns (acts: seq<Act>)
    requires TunnelData.Reachable(s) && TunnelTheorems.Matched(s.ctl.mux, c, d)
    requires Pumping(s, ClientSide(c)) && Pumping(s, DestSide(d))
    ensures OnlyPumps(acts) && IsHistory(s, acts)
    ensures PortAt(Play(s, acts), DestSide(d)).got == PortAt(s, ClientSide(c)).sent
    ensures PortAt(Play(s, acts), ClientSide(c)).got == PortAt(s, DestSide(d)).sent
  {
    hide Inv, DataInv, Conserved, TunnelTheorems.Matched;
    var e, f := ClientSide(c), DestSide(d);
    ReachableData(s);
    BytesAreConserved(s, c, d);
    var there := DeliverOneWay(s, e, f);
    var s1 := Play(s, there);
    HistoryKeepsData(s, there);
    var back := DeliverOneWay(s1, f, e);
    acts := there + back;
    Then(s, there, back);
  }

  // ------------------------------------------------------------------ the pump methods and these moves

  // A pump that reads these chunks, from this place of its source, and has written out so far, may so come
  // to have written after.
  predicate FeedOk(source: seq<byte>, pos: nat, out: seq<byte>, rs: seq<Pumps.ReadResult>, after: seq<byte>) {
    && pos <= |source| && (forall x :: x in rs ==> |x.data| <= Pumps.BUFFER_SIZE)
    && Pumps.Clean(rs) <= source[pos..] && out <= after <= out + Pumps.Clean(rs)
  }

  lemma FirstChunk(feed: seq<byte>, out: seq<byte>, data: seq<byte>, rest: seq<byte>, after: seq<byte>)
    requires data + rest <= feed && data != [] && out <= after <= out + (data + rest) && after != out
    ensures var n, m := |data|, Min(|data|, |after| - |out|);
            && 0 < m <= n <= |feed|
            && (m < n ==> after == out + feed[..m])
            && (m == n ==> out + feed[..m] <= after <= (out + feed[..m]) + rest && rest <= feed[n..])
  {
    var n, m := |data|, Min(|data|, |after| - |out|);
    var all := out + (data + rest);
    assert feed[..n] == (data + rest)[..n] == data && feed[n..][..|rest|] == (data + rest)[n..] == rest;
    assert after == all[..|after|];
    assert all[..|out| + m] == out + data[..m];
    assert all == (out + data) + rest;
  }

  // The first chunk is written out whole and the pump goes on, or a part of it is all that gets out.
  lemma FeedStep(source: seq<byte>, pos: nat, out: seq<byte>, rs: seq<Pumps.ReadResult>, after: seq<byte>) returns (n: nat, m: nat)
    requires FeedOk(source, pos, out, rs, after) && after != out
    ensures rs != [] && n == |rs[0].data| <= Pumps.BUFFER_SIZE && m <= n && pos + n <= |source|
    ensures n > 0 ==> m > 0
    ensures var out1 := out + source[pos..pos + m];
            if m < n then out1 == after else FeedOk(source, pos + n, out1, rs[1..], after)
  {
    var data, rest, feed := rs[0].data, Pumps.Clean(rs[1..]), source[pos..];
    assert Pumps.Clean(rs) == data + rest;
    n, m := |data|, Min(|data|, |after| - |out|);
    if data == [] {
      assert rest == data + rest && out + source[pos..pos] == out;
    } else {
      FirstChunk(feed, out, data, rest, after);
      assert source[pos..pos + m] == feed[..m] && source[pos + n..] == feed[n..];
    }
  }

  lemma ReadMove(s: Session, e: Endpoint, n: nat)
    requires Pumping(s, e) && PortAt(s, e).outBuf == [] && n <= Pumps.BUFFER_SIZE && PortAt(s, e).taken + n <= |PortAt(s, e).sent|
    ensures Possible(s, PumpReads(e, n))
    ensures var s1, p := Do(s, PumpReads(e, n)), PortAt(s, e);
            && Pumping(s1, e) && Outgoing(s1, e) == Outgoing(s, e)
            && PortAt(s1, e) == p.(taken := p.taken + n, outBuf := p.sent[p.taken..p.taken + n])
  {
  }

  lemma WriteMove(s: Session, e: Endpoint, m: nat)
    requires Pumping(s, e) && 0 < m <= |PortAt(s, e).outBuf|
    ensures Possible(s, PumpWrites(e, m))
    ensures var s1, p := Do(s, PumpWrites(e, m)), PortAt(s, e);
            && Pumping(s1, e) && Outgoing(s1, e) == Outgoing(s, e) + p.outBuf[..m]
            && PortAt(s1, e) == p.(outBuf := p.outBuf[m..])
  {
  }

  lemma NoMove(s: Session)
    ensures IsHistory(s, []) && Play(s, []) == s
  {
  }

  lemma TwoMoves(s: Session, a: Act, b: Act)
    requires Possible(s, a) && Possible(Do(s, a), b)
    ensures IsHistory(s, [a, b]) && Play(s, [a, b]) == Do(Do(s, a), b)
  {
    First(Do(s, a), b, []);
    First(s, a, [b]);
    assert [a] + [b] == [a, b] && [b] + [] == [b];
  }

  // One read of the pump and one write of a part of it.
  lemma OutRound(s: Session, e: Endpoint, n: nat, m: nat)
    requires Pumping(s, e) && PortAt(s, e).outBuf == [] && 0 < m <= n <= Pumps.BUFFER_SIZE
    requires PortAt(s, e).taken + n <= |PortAt(s, e).sent|
    ensures var acts, p := [PumpReads(e, n), PumpWrites(e, m)], PortAt(s, e);
            && IsHistory(s, acts)
            && var s' := Play(s, acts);
               && Outgoing(s', e) == Outgoing(s, e) + p.sent[p.taken..p.taken + m]
               && PortAt(s', e) == p.(taken := p.taken + n, outBuf := p.sent[p.taken + m..p.taken + n])
               && Pumping(s', e)
  {
    hide Do, Possible, PortAt, Outgoing, Pumping, IsHistory, Play;
    var p := PortAt(s, e);
    ReadMove(s, e, n);
    WriteMove(Do(s, PumpReads(e, n)), e, m);
    TwoMoves(s, PumpReads(e, n), PumpWrites(e, m));
    assert p.sent[p.taken..p.taken + n][..m] == p.sent[p.taken..p.taken + m];
    assert p.sent[p.taken..p.taken + n][m..] == p.sent[p.taken + m..p.taken + n];
  }

  // The pump is ready to read these chunks of its connection, and may so come to have written this.
  ghost predicate OutFeed(s: Session, e: Endpoint, rs: seq<Pumps.ReadResult>, after: seq<byte>) {
    var p := PortAt(s, e);
    Pumping(s, e) && p.outBuf == [] && FeedOk(p.sent, p.taken, Outgoing(s, e), rs, after)
  }

  lemma OutOneChunk(s: Session, e: Endpoint, rs: seq<Pumps.ReadResult>, after: seq<byte>) returns (round: seq<Act>)
    requires OutFeed(s, e, rs, after) && after != Outgoing(s, e)
    ensures rs != [] && OnlyPumps(round) && IsHistory(s, round)
    ensures Outgoing(Play(s, round), e) == after || OutFeed(Play(s, round), e, rs[1..], after)
  {
    hide IsHistory, Play, Pumping, Outgoing, PortAt, FeedOk;
    var p, out := PortAt(s, e), Outgoing(s, e);
    var n, m := FeedStep(p.sent, p.taken, out, rs, after);
    if n == 0 {
      round := [];
      NoMove(s);
      assert out + p.sent[p.taken..p.taken] == out;
    } else {
      OutRound(s, e, n, m);
      round := [PumpReads(e, n), PumpWrites(e, m)];
      assert m == n ==> p.sent[p.taken + m..p.taken + n] == [];
    }
  }

  /** Whatever a pump may have written to its stream by its contract, for any chunks read from the connection,
      is reached by these moves. */
  lemma {:induction false} OutPumpIsHistory(s: Session, e: Endpoint, rs: seq<Pumps.ReadResult>, after: seq<byte>) returns (acts: seq<Act>)
    requires OutFeed(s, e, rs, after)
    ensures OnlyPumps(acts) && IsHistory(s, acts) && Outgoing(Play(s, acts), e) == after
    decreases |rs|
  {
    hide OutFeed, Outgoing, IsHistory, Play;
    if after == Outgoing(s, e) {
      acts := [];
      NoMove(s);
    } else {
      acts := OutOneChunk(s, e, rs, after);
      if Outgoing(Play(s, acts), e) != after {
        var more := OutPumpIsHistory(Play(s, acts), e, rs[1..], after);
        Then(s, acts, more);
        acts := acts + more;
      }
    }
  }

  /** The pump that runs on a connection's bytes: it ends as its contract says, and what it did to its stream
      is a history of the machine. */
  method PumpOut(reader: Pumps.Reader, stream: Pumps.Writer, ghost s: Session, ghost e: Endpoint)
    returns (exit: Pumps.Exit, ghost acts: seq<Act>)
    requires reader.Valid()
    requires Pumping(s, e) && PortAt(s, e).outBuf == [] && PortAt(s, e).taken <= |PortAt(s, e).sent|
    requires Pumps.Clean(reader.script[reader.pos..]) <= PortAt(s, e).sent[PortAt(s, e).taken..]
    requires stream.output == Outgoing(s, e)
    modifies reader, stream
    ensures OnlyPumps(acts) && IsHistory(s, acts) && Outgoing(Play(s, acts), e) == stream.output
    ensures old(stream.Willing()) ==> stream.output == old(stream.output) + Pumps.Clean(reader.script[old(reader.pos)..])
  {
    ghost var rs := reader.script[reader.pos..];
    exit := Pumps.ReaderToWriter(reader, stream);
    acts := OutPumpIsHistory(s, e, rs, stream.output);
  }

  lemma DrainMove(s: Session, e: Endpoint, a: Act)
    requires Pumping(s, e) && (a.DrainReads? || a.DrainWrites?) && a.e == e && LocalPossible(PortAt(s, e), a, Incoming(s, e))
    ensures Possible(s, a)
    ensures var s1 := Do(s, a);
            && Pumping(s1, e) && Incoming(s1, e) == Incoming(s, e)
            && PortAt(s1, e) == LocalMove(PortAt(s, e), a, Incoming(s, e))
  {
  }

  lemma InRound(s: Session, e: Endpoint, n: nat, m: nat)
    requires Pumping(s, e) && PortAt(s, e).inBuf == [] && 0 < m <= n <= Pumps.BUFFER_SIZE
    requires PortAt(s, e).drained + n <= |Incoming(s, e)|
    ensures var acts, p, all := [DrainReads(e, n), DrainWrites(e, m)], PortAt(s, e), Incoming(s, e);
            && IsHistory(s, acts)
            && var s' := Play(s, acts);
               && Incoming(s', e) == all && Pumping(s', e)
               && PortAt(s', e) == p.(drained := p.drained + n, inBuf := all[p.drained + m..p.drained + n],
                                      got := p.got + all[p.drained..p.drained + m])
  {
    hide Do, Possible, PortAt, Incoming, Pumping, IsHistory, Play;
    var p, all := PortAt(s, e), Incoming(s, e);
    DrainMove(s, e, DrainReads(e, n));
    DrainMove(Do(s, DrainReads(e, n)), e, DrainWrites(e, m));
    TwoMoves(s, DrainReads(e, n), DrainWrites(e, m));
    assert all[p.drained..p.drained + n][..m] == all[p.drained..p.drained + m];
    assert all[p.drained..p.drained + n][m..] == all[p.drained + m..p.drained + n];
  }

  ghost predicate InFeed(s: Session, e: Endpoint, rs: seq<Pumps.ReadResult>, after: seq<byte>) {
    var p := PortAt(s, e);
    Pumping(s, e) && p.inBuf == [] && FeedOk(Incoming(s, e), p.drained, p.got, rs, after)
  }

  lemma InOneChunk(s: Session, e: Endpoint, rs: seq<Pumps.ReadResult>, after: seq<byte>) returns (round: seq<Act>)
    requires InFeed(s, e, rs, after) && after != PortAt(s, e).got
    ensures rs != [] && OnlyPumps(round) && IsHistory(s, round)
    ensures PortAt(Play(s, round), e).got == after || InFeed(Play(s, round), e, rs[1..], after)
  {
    hide IsHistory, Play, Pumping, Incoming, PortAt, FeedOk;
    var p, all := PortAt(s, e), Incoming(s, e);
    var n, m := FeedStep(all, p.drained, p.got, rs, after);
    if n == 0 {
      round := [];
      NoMove(s);
      assert p.got + all[p.drained..p.drained] == p.got;
    } else {
      InRound(s, e, n, m);
      round := [DrainReads(e, n), DrainWrites(e, m)];
      assert m == n ==> all[p.drained + m..p.drained + n] == [];
    }
  }

  /** The same for the pump from the stream to the connection. */
  lemma {:induction false} InPumpIsHistory(s: Session, e: Endpoint, rs: seq<Pumps.ReadResult>, after: seq<byte>) returns (acts: seq<Act>)
    requires InFeed(s, e, rs, after)
    ensures OnlyPumps(acts) && IsHistory(s, acts) && PortAt(Play(s, acts), e).got == after
    decreases |rs|
  {
    hide InFeed, PortAt, IsHistory, Play;
    if after == PortAt(s, e).got {
      acts := [];
      NoMove(s);
    } else {
      acts := InOneChunk(s, e, rs, after);
      if PortAt(Play(s, acts), e).got != after {
        var more := InPumpIsHistory(Play(s, acts), e, rs[1..], after);
        Then(s, acts, more);
        acts := acts + more;
      }
    }
  }

  method PumpIn(reader: Pumps.Reader, conn: Pumps.Writer, ghost s: Session, ghost e: Endpoint)
    returns (exit: Pumps.Exit, ghost acts: seq<Act>)
    requires reader.Valid()
    requires Pumping(s, e) && PortAt(s, e).inBuf == [] && PortAt(s, e).drained <= |Incoming(s, e)|
    requires Pumps.Clean(reader.script[reader.pos..]) <= Incoming(s, e)[PortAt(s, e).drained..]
    requires conn.output == PortAt(s, e).got
    modifies reader, conn
    ensures OnlyPumps(acts) && IsHistory(s, acts) && PortAt(Play(s, acts), e).got == conn.output
    ensures old(conn.Willing()) ==> conn.output == old(conn.output) + Pumps.Clean(reader.script[old(reader.pos)..])
  {
    ghost var rs := reader.script[reader.pos..];
    exit := Pumps.ReaderToWriter(reader, conn);
    acts := InPumpIsHistory(s, e, rs, conn.output);
  }

  // ------------------------------------------------------------------ beginnings and ends

  function Controls(run: seq<Step>): seq<Act> {
    if run == [] then [] else [Control(run[0])] + Controls(run[1..])
  }

  lemma {:induction false} ControlRun(s: Session, run: seq<Step>)
    requires IsRun(s.ctl, run)
    ensures IsHistory(s, Controls(run)) && Play(s, Controls(run)) == s.(ctl := Exec(s.ctl, run))
    decreases |run|
  {
    if run != [] {
      var s1 := Do(s, Control(run[0]));
      ControlRun(s1, run[1..]);
      First(s, Control(run[0]), Controls(run[1..]));
    }
  }

  // The session of a reachable machine in which no byte has moved.
  lemma UntouchedSession(ctl: State) returns (s: Session)
    requires Tunnel.Reachable(ctl)
    ensures TunnelData.Reachable(s) && s.ctl == ctl && s.ports == map[] && s.wires == map[]
  {
    var run :| IsRun(Init, run) && Exec(Init, run) == ctl;
    s := TunnelData.Start.(ctl := ctl);
    ControlRun(TunnelData.Start, run);
  }

  lemma Goes(s: Session, acts: seq<Act>) returns (s': Session)
    requires TunnelData.Reachable(s) && IsHistory(s, acts)
    ensures s' == Play(s, acts) && TunnelData.Reachable(s')
  {
    var before :| IsHistory(TunnelData.Start, before) && Play(TunnelData.Start, before) == s;
    Then(TunnelData.Start, before, acts);
    s' := Play(s, acts);
  }

  // A forwarded connection with both streams' ends in place.
  lemma OnePairIsForwarded() returns (ctl: State)
    ensures Tunnel.Reachable(ctl) && TunnelTheorems.Matched(ctl.mux, 0, 0)
    ensures ctl.mux.cPairs == map[0 := Pairing(Some(1), true)] && ctl.mux.sPairs == map[0 := Pairing(Some(1), true)]
  {
    ctl := TunnelTheorems.SetUp();
    ctl := TunnelTheorems.OneMorePairing(ctl);
    ctl := TunnelTheorems.Take(ctl, OpenStream(0));
    ctl := TunnelTheorems.Take(ctl, AcceptStream(0, 1));
    assert ctl.mux.streams == [ForCommands, ForConnection(0)] && ctl.mux.takers[1] == ByConnection(0);
  }

  lemma Speaks(s: Session, e: Endpoint, x: seq<byte>) returns (s': Session)
    requires TunnelData.Reachable(s)
    ensures TunnelData.Reachable(s') && s'.ctl == s.ctl
    ensures forall f :: PortAt(s', f).sent == if f == e then PortAt(s, e).sent + x else PortAt(s, f).sent
  {
    NoMove(Do(s, AppSends(e, x)));
    First(s, AppSends(e, x), []);
    s' := Goes(s, [AppSends(e, x)] + []);
  }

  /** The tunnel carries bytes: for any two byte strings there is a run after which the destination has
      received the one, and the client connection the other. */
  lemma TunnelCarries(x: seq<byte>, y: seq<byte>) returns (s: Session)
    ensures TunnelData.Reachable(s) && TunnelTheorems.Matched(s.ctl.mux, 0, 0)
    ensures PortAt(s, DestSide(0)).got == x && PortAt(s, ClientSide(0)).got == y
  {
    var ctl := OnePairIsForwarded();
    s := UntouchedSession(ctl);
    s := Speaks(s, ClientSide(0), x);
    s := Speaks(s, DestSide(0), y);
    assert [] + x == x && [] + y == y;
    var acts := EverythingCanBeDelivered(s, 0, 0);
    var s1 := Goes(s, acts);
    PumpsKeepControl(s, acts);
    s := s1;
  }

  lemma {:induction false} PumpsKeepControl(s: Session, acts: seq<Act>)
    requires IsHistory(s, acts) && OnlyPumps(acts)
    ensures Play(s, acts).ctl == s.ctl
    decreases |acts|
  {
    if acts != [] {
      assert OnlyPumps(acts[1..]);
      PumpsKeepControl(Do(s, acts[0]), acts[1..]);
    }
  }

  // The pairing at this end was started and has ended.
  predicate Ended(m: Mux, e: Endpoint) {
    var p := PairingAt(m, e);
    p.Some? && !p.value.open
  }

  function EndOf(e: Endpoint): Step {
    match e case ClientSide(c) => EndClientPairing(c) case DestSide(d) => EndServerPairing(d)
  }

  lemma ClientKeepsEnded(s: State, step: ClientStep, e: Endpoint)
    requires WireInv(s.client, s.server) && OwnerInv(s) && ClientCan(s.client, step, s.server.log) && Ended(s.mux, e)
    ensures Ended(Apply(s, ClientMoves(step)).mux, e)
  {
    MoveShape(s, step);
    if MoveOf(s, step).Hand? {
      PendingIsUnpaired(s, MoveOf(s, step).conn);
    }
  }

  lemma ServerKeepsEnded(s: State, step: ServerStep, k: nat, e: Endpoint)
    requires AcceptorInv(s.server, s.mux) && Can(s, ServerMoves(step, k)) && Ended(s.mux, e)
    ensures Ended(Apply(s, ServerMoves(step, k)).mux, e)
  {
    if step.Act? {
      assert s.server.todo[0] in s.server.todo;
    }
  }

  lemma ControlKeepsEnded(s: State, step: Step, e: Endpoint)
    requires Inv(s) && Can(s, step) && Ended(s.mux, e)
    ensures Ended(Apply(s, step).mux, e)
  {
    hide WireInv, OwnerInv, OpenerInv, AcceptorInv, CountInv, ClientDoes, ServerDoes;
    match step
    case ClientMoves(c) => ClientKeepsEnded(s, c, e);
    case ServerMoves(v, k) => ServerKeepsEnded(s, v, k, e);
    case _ =>
  }

  lemma EndedMovesNothing(s: Session, a: Act, e: Endpoint)
    requires Possible(s, a) && Ended(s.ctl.mux, e)
    ensures PortAt(Do(s, a), e) == PortAt(s, e).(sent := PortAt(Do(s, a), e).sent)
    ensures !a.Control? ==> Do(s, a).ctl == s.ctl
  {
  }

  lemma {:induction false} EndedStays(s: Session, acts: seq<Act>, e: Endpoint)
    requires Inv(s.ctl) && IsHistory(s, acts) && Ended(s.ctl.mux, e)
    ensures Ended(Play(s, acts).ctl.mux, e)
    ensures PortAt(Play(s, acts), e) == PortAt(s, e).(sent := PortAt(Play(s, acts), e).sent)
    decreases |acts|
  {
    if acts != [] {
      EndedMovesNothing(s, acts[0], e);
      if acts[0].Control? {
        ControlKeepsEnded(s.ctl, acts[0].step, e);
        StepKeepsInv(s.ctl, acts[0].step);
      }
      hide Inv, Can, Ended, PortAt, Apply;
      EndedStays(Do(s, acts[0]), acts[1..], e);
    }
  }

  /** A pairing that ends moves no byte any more, whatever happens afterwards: what its connection received,
      what was taken from it and what its pumps hold stay as they were, though its application may go on
      sending. At the client, the connection is closed. */
  lemma EndingStopsTheBytes(s: Session, e: Endpoint, acts: seq<Act>)
    requires TunnelData.Reachable(s) && Can(s.ctl, EndOf(e)) && IsHistory(Do(s, Control(EndOf(e))), acts)
    ensures var s' := Play(Do(s, Control(EndOf(e))), acts);
            && Ended(s'.ctl.mux, e)
            && PortAt(s', e) == PortAt(s, e).(sent := PortAt(s', e).sent)
    ensures e.ClientSide? ==> e.c in Apply(s.ctl, EndOf(e)).mux.closed
  {
    hide Inv, DataInv, IsHistory, Play;
    ReachableData(s);
    StepKeepsInv(s.ctl, EndOf(e));
    assert Ended(Do(s, Control(EndOf(e))).ctl.mux, e);
    EndedStays(Do(s, Control(EndOf(e))), acts, e);
  }
}
