/**
 The two copy pumps. A reader and a writer are given by what their successive calls will do: any chunk
 sizes, empty reads, short writes, and errors at any point.
 */
module Pumps {
  import opened Wrappers

  const BUFFER_SIZE := 2048

  datatype ReadError = Eof | UseOfClosed | BrokenPipe | FileClosed | Unexpected

  // A read may return bytes and an error at once.
  datatype ReadResult = ReadResult(data: seq<byte>, err: Option<ReadError>)

  // A write takes at most limit bytes, and may report an error besides.
  datatype WriteResult = WriteResult(limit: nat, fails: bool)

  datatype Exit = ReadEnded(err: ReadError) | PeerClosed | WriteFailed | WroteNothing

  class Reader {
    const script: seq<ReadResult>
    var pos: nat

    predicate Valid()
      reads this
    {
      pos <= |script| && forall r :: r in script ==> |r.data| <= BUFFER_SIZE
    }

    // After the script, the reader is at its end.
    function Next(): ReadResult
      reads this
      requires Valid()
    {
      if pos == |script| then ReadResult([], Some(Eof)) else script[pos]
    }

    constructor (script: seq<ReadResult>)
      requires forall r :: r in script ==> |r.data| <= BUFFER_SIZE
      ensures Valid() && this.script == script && pos == 0
    {
      this.script := script;
      pos := 0;
    }

    method Read(buf: array<byte>) returns (n: nat, err: Option<ReadError>)
      requires Valid() && buf.Length == BUFFER_SIZE
      modifies this, buf
      ensures Valid() && n <= BUFFER_SIZE
      ensures buf[..n] == old(Next()).data && err == old(Next()).err
      ensures pos == Min(old(pos) + 1, |script|)
    {
      var r := Next();
      n, err := |r.data|, r.err;
      forall i | 0 <= i < n {
        buf[i] := r.data[i];
      }
      pos := Min(pos + 1, |script|);
    }
  }

  // A writer, or the writing side of a connection; probes say what the reads that test for a close find.
  class Writer {
    const script: seq<WriteResult>
    const probes: seq<bool>
    var pos: nat
    var probed: nat
    var output: seq<byte>

    constructor (script: seq<WriteResult>, probes: seq<bool>)
      ensures this.script == script && this.probes == probes && pos == probed == 0 && output == []
    {
      this.script, this.probes := script, probes;
      pos, probed, output := 0, 0, [];
    }

    // From here on every write takes something and none fails.
    predicate Willing()
      reads this
    {
      forall i :: pos <= i < |script| ==> script[i].limit > 0 && !script[i].fails
    }

    // From here on no probe finds the connection closed.
    predicate StaysOpen()
      reads this
    {
      forall i :: probed <= i < |probes| ==> !probes[i]
    }

    // The i-th write fails, or takes nothing and does not fail; the i-th probe finds the connection closed.
    predicate FailsAt(i: nat) { i < |script| && script[i].fails }

    predicate TakesNothingAt(i: nat) { i < |script| && !script[i].fails && script[i].limit == 0 }

    predicate ClosedAt(i: nat) { i < |probes| && probes[i] }

    method Write(data: seq<byte>) returns (n: nat, failed: bool)
      modifies this`pos, this`output
      ensures n <= |data| && output == old(output) + data[..n]
      ensures n == if old(pos) < |script| then Min(script[old(pos)].limit, |data|) else |data|
      ensures failed == FailsAt(old(pos))
      ensures pos == old(pos) + 1
      ensures old(Willing()) ==> !failed && (data != [] ==> n > 0)
    {
      var r := if pos < |script| then script[pos] else WriteResult(|data|, false);
      pos := pos + 1;
      n, failed := Min(r.limit, |data|), r.fails;
      output := output + data[..n];
    }

    method Probe() returns (closed: bool)
      modifies this`probed
      ensures probed == old(probed) + 1
      ensures closed == ClosedAt(old(probed))
    {
      closed := probed < |probes| && probes[probed];
      probed := probed + 1;
    }
  }

  // The bytes of all reads before the first that reports an error.
  function Clean(rs: seq<ReadResult>): seq<byte> {
    if rs == [] || rs[0].err.Some? then [] else rs[0].data + Clean(rs[1..])
  }

  // The bytes of all reads up to and including that one.
  function Offered(rs: seq<ReadResult>): seq<byte> {
    if rs == [] then [] else if rs[0].err.Some? then rs[0].data else rs[0].data + Offered(rs[1..])
  }

  // The error that ends the reading; after the script the reader is at its end.
  function EndError(rs: seq<ReadResult>): ReadError {
    if rs == [] then Eof else if rs[0].err.Some? then rs[0].err.value else EndError(rs[1..])
  }

  // The read that ends the pump brings no bytes of its own.
  predicate EndsEmpty(rs: seq<ReadResult>) {
    rs == [] || (if rs[0].err.Some? then rs[0].data == [] else EndsEmpty(rs[1..]))
  }

  // What one pump does to its writer: the new bytes are a prefix of the clean input, and all of it
  // when the reader, and not a write, ended the pump.
  ghost predicate Pumped(rs: seq<ReadResult>, before: seq<byte>, after: seq<byte>, exit: Exit) {
    before <= after <= before + Clean(rs) && (exit.ReadEnded? ==> after == before + Clean(rs))
  }

  // The last of the writes since the from-th is the first that fails, or the first that takes nothing.
  ghost predicate WritesSay(writer: Writer, from: nat, exit: Option<Exit>)
    reads writer
  {
    && from <= writer.pos
    && (exit == Some(WriteFailed) <==> from < writer.pos && writer.FailsAt(writer.pos - 1))
    && (exit == Some(WroteNothing) <==> from < writer.pos && writer.TakesNothingAt(writer.pos - 1))
    && (forall i: nat :: from <= i < writer.pos - 1 ==> !writer.FailsAt(i) && !writer.TakesNothingAt(i))
  }

  // The last of the probes since the from-th is the first that finds the connection closed.
  ghost predicate ProbesSay(writer: Writer, from: nat, exit: Option<Exit>)
    reads writer
  {
    && from <= writer.probed
    && (exit == Some(PeerClosed) <==> from < writer.probed && writer.ClosedAt(writer.probed - 1))
    && (forall i: nat :: from <= i < writer.probed - 1 ==> !writer.ClosedAt(i))
  }

  /** Writes out buf[..read], in pieces; it stops before the end exactly at the first write that fails or takes
      nothing, with what was taken until then. */
  method WriteOut(writer: Writer, buf: array<byte>, read: nat) returns (stuck: Option<Exit>)
    requires read <= buf.Length
    modifies writer`pos, writer`output
    ensures old(writer.output) <= writer.output <= old(writer.output) + buf[..read]
    ensures stuck.None? ==> writer.output == old(writer.output) + buf[..read]
    ensures stuck.Some? ==> stuck.value.WriteFailed? || stuck.value.WroteNothing?
    ensures WritesSay(writer, old(writer.pos), stuck)
    ensures old(writer.Willing()) ==> stuck.None? && writer.Willing()
  {
    var written := 0;
    stuck := None;
    while written != read
      invariant 0 <= written <= read
      invariant writer.output == old(writer.output) + buf[..written]
      invariant WritesSay(writer, old(writer.pos), None)
      invariant old(writer.Willing()) ==> writer.Willing()
      decreases read - written
    {
      var n, failed := writer.Write(buf[written..read]);
      assert buf[..written] + buf[written..read][..n] == buf[..written + n];
      assert buf[..read] == buf[..written + n] + buf[written + n..read];
      if failed {
        return Some(WriteFailed);
      }
      if n == 0 {
        return Some(WroteNothing);
      }
      written := written + n;
    }
  }

  /** Without probes: how the pump ends, and what it has written then. */
  method ReaderToWriter(reader: Reader, writer: Writer) returns (exit: Exit)
    requires reader.Valid()
    modifies reader, writer
    ensures Pumped(reader.script[old(reader.pos)..], old(writer.output), writer.output, exit)
    ensures !exit.PeerClosed? && WritesSay(writer, old(writer.pos), Some(exit))
    ensures exit.ReadEnded? ==> exit.err == EndError(reader.script[old(reader.pos)..])
    ensures old(writer.Willing()) ==> exit.ReadEnded?
  {
    exit := Pump(reader, writer, false);
  }

  /** With a probe before each chunk is written, if asked for: the pump ends with the peer closed exactly when a
      probe it makes finds that, and then only the chunks before that probe are written. */
  method ReaderToConn(reader: Reader, conn: Writer, checkWrite: bool) returns (exit: Exit)
    requires reader.Valid()
    modifies reader, conn
    ensures Pumped(reader.script[old(reader.pos)..], old(conn.output), conn.output, exit)
    ensures WritesSay(conn, old(conn.pos), Some(exit))
    ensures ProbesSay(conn, old(conn.probed), Some(exit)) && (!checkWrite ==> conn.probed == old(conn.probed))
    ensures exit.PeerClosed? ==> ProbeStops(reader.script[old(reader.pos)..], conn.probed - old(conn.probed), old(conn.output), conn.output)
    ensures exit.ReadEnded? ==> exit.err == EndError(reader.script[old(reader.pos)..])
    ensures checkWrite && exit.ReadEnded? ==> conn.probed == old(conn.probed) + CleanReads(reader.script[old(reader.pos)..])
    ensures old(conn.Willing()) && (checkWrite ==> old(conn.StaysOpen())) ==> exit.ReadEnded?
  {
    exit := Pump(reader, conn, checkWrite);
  }

  // How many reads come before the one that reports an error.
  function CleanReads(rs: seq<ReadResult>): nat {
    if rs == [] || rs[0].err.Some? then 0 else 1 + CleanReads(rs[1..])
  }

  // After the n-th probe only the chunks before it have been written.
  ghost predicate ProbeStops(rs: seq<ReadResult>, n: int, before: seq<byte>, after: seq<byte>) {
    1 <= n <= CleanReads(rs) <= |rs| && after == before + Clean(rs[..n - 1])
  }

  // k rounds are done: the first k reads were clean, and all they brought is written.
  ghost predicate Rounds(rs: seq<ReadResult>, k: nat, before: seq<byte>, after: seq<byte>) {
    && k <= CleanReads(rs) <= |rs| && after == before + Clean(rs[..k])
    && before + Clean(rs) == after + Clean(rs[k..])
    && EndError(rs) == EndError(rs[k..]) && CleanReads(rs) == k + CleanReads(rs[k..])
  }

  lemma {:induction false} CleanOfTake(rs: seq<ReadResult>, k: nat)
    requires k < CleanReads(rs) && CleanReads(rs) <= |rs|
    ensures rs[k].err.None? && Clean(rs[..k + 1]) == Clean(rs[..k]) + rs[k].data
    decreases k
  {
    if k == 0 {
      assert rs[..1][1..] == [] && rs[..0] == [];
      assert [] + rs[0].data == rs[0].data == rs[0].data + [];
    } else {
      CleanOfTake(rs[1..], k - 1);
      assert rs[..k + 1][1..] == rs[1..][..k] && rs[..k][1..] == rs[1..][..k - 1];
      assert rs[0].data + (Clean(rs[1..][..k - 1]) + rs[k].data) == (rs[0].data + Clean(rs[1..][..k - 1])) + rs[k].data;
    }
  }

  lemma {:induction false} CleanReadsBound(rs: seq<ReadResult>)
    ensures CleanReads(rs) <= |rs|
  {
    if rs != [] {
      CleanReadsBound(rs[1..]);
    }
  }

  lemma ChunkFirst(rs: seq<ReadResult>, k: nat)
    requires k < |rs| && rs[k].err.None?
    ensures Clean(rs[k..]) == rs[k].data + Clean(rs[k + 1..])
    ensures CleanReads(rs[k..]) == 1 + CleanReads(rs[k + 1..]) && EndError(rs[k..]) == EndError(rs[k + 1..])
  {
    assert rs[k..][1..] == rs[k + 1..];
  }

  // The next read is clean, and what it brings is written.
  lemma OneMoreRound(rs: seq<ReadResult>, k: nat, before: seq<byte>, now: seq<byte>)
    requires Rounds(rs, k, before, now) && k < |rs| && rs[k].err.None?
    ensures k < CleanReads(rs) && Rounds(rs, k + 1, before, now + rs[k].data)
  {
    hide Clean, CleanReads, EndError;
    ChunkFirst(rs, k);
    CleanOfTake(rs, k);
    var done, data, rest := Clean(rs[..k]), rs[k].data, Clean(rs[k + 1..]);
    assert (before + done) + data == before + (done + data);
    assert now + (data + rest) == (now + data) + rest;
  }

  // Whatever of the next chunk is written, the output is a prefix of the clean input.
  lemma WithinInput(rs: seq<ReadResult>, k: nat, before: seq<byte>, now: seq<byte>, after: seq<byte>)
    requires Rounds(rs, k, before, now) && k < |rs| && rs[k].err.None? && now <= after <= now + rs[k].data
    ensures before <= after <= before + Clean(rs)
  {
    hide Clean, CleanReads, EndError;
    ChunkFirst(rs, k);
    var data, rest := rs[k].data, Clean(rs[k + 1..]);
    assert now + (data + rest) == (now + data) + rest;
    assert after == (now + data)[..|after|] == ((now + data) + rest)[..|after|];
  }

  // The loop both pumps share; the probe is made between the read and the writes.
  method Pump(reader: Reader, writer: Writer, checkWrite: bool) returns (exit: Exit)
    requires reader.Valid()
    modifies reader, writer
    ensures Pumped(reader.script[old(reader.pos)..], old(writer.output), writer.output, exit)
    ensures WritesSay(writer, old(writer.pos), Some(exit))
    ensures ProbesSay(writer, old(writer.probed), Some(exit)) && (!checkWrite ==> writer.probed == old(writer.probed))
    ensures exit.PeerClosed? ==> ProbeStops(reader.script[old(reader.pos)..], writer.probed - old(writer.probed), old(writer.output), writer.output)
    ensures exit.ReadEnded? ==> exit.err == EndError(reader.script[old(reader.pos)..])
    ensures checkWrite && exit.ReadEnded? ==> writer.probed == old(writer.probed) + CleanReads(reader.script[old(reader.pos)..])
    ensures old(writer.Willing()) && (checkWrite ==> old(writer.StaysOpen())) ==> exit.ReadEnded?
  {
    hide Clean, CleanReads, EndError, Rounds;
    var buf := new byte[BUFFER_SIZE](_ => 0);
    ghost var rs, k, out := reader.script[reader.pos..], 0, writer.output;
    NoRounds(rs, out);
    while true
      invariant reader.Valid() && fresh(buf) && buf.Length == BUFFER_SIZE
      invariant k <= |rs| && reader.pos == old(reader.pos) + k && Rounds(rs, k, out, writer.output)
      invariant WritesSay(writer, old(writer.pos), None) && ProbesSay(writer, old(writer.probed), None)
      invariant writer.probed == old(writer.probed) + (if checkWrite then k else 0)
      invariant old(writer.Willing()) ==> writer.Willing()
      decreases |reader.script| - reader.pos
    {
      ghost var now := writer.output;
      var read, err := reader.Read(buf);
      if err.Some? {
        ReadingEnds(rs, k, out, now);
        return ReadEnded(err.value);
      }
      OneMoreRound(rs, k, out, now);
      if checkWrite {
        var closed := writer.Probe();
        if closed {
          ProbeEnds(rs, k, out, now);
          return PeerClosed;
        }
      }
      var stuck := WriteOut(writer, buf, read);
      WithinInput(rs, k, out, now, writer.output);
      if stuck.Some? {
        return stuck.value;
      }
      k := k + 1;
    }
  }

  lemma ProbeEnds(rs: seq<ReadResult>, k: nat, before: seq<byte>, now: seq<byte>)
    requires Rounds(rs, k, before, now) && k < CleanReads(rs)
    ensures ProbeStops(rs, k + 1, before, now) && before <= now <= before + Clean(rs)
  {
    hide Clean, CleanReads, EndError;
  }

  lemma NoRounds(rs: seq<ReadResult>, out: seq<byte>)
    ensures Rounds(rs, 0, out, out)
  {
    CleanReadsBound(rs);
    assert rs[..0] == [] && rs[0..] == rs && out + [] == out;
  }

  lemma ReadingEnds(rs: seq<ReadResult>, k: nat, before: seq<byte>, now: seq<byte>)
    requires Rounds(rs, k, before, now) && (k < |rs| ==> rs[k].err.Some?)
    ensures now == before + Clean(rs) && CleanReads(rs) == k
    ensures EndError(rs) == if k < |rs| then rs[k].err.value else Eof
  {
    assert now + [] == now;
  }

  /** The pump that ends at a read error has copied everything it was offered exactly when that last read
      brought no bytes: bytes returned together with an error are dropped. */
  lemma {:induction false} CopiesEverythingIff(rs: seq<ReadResult>)
    ensures Clean(rs) <= Offered(rs)
    ensures Clean(rs) == Offered(rs) <==> EndsEmpty(rs)
  {
    if rs != [] && rs[0].err.None? {
      CopiesEverythingIff(rs[1..]);
      assert Clean(rs)[|rs[0].data|..] == Clean(rs[1..]);
      assert Offered(rs)[|rs[0].data|..] == Offered(rs[1..]);
    }
  }
}
