/**
 The checks made on a fresh stream: the magic and identity keys after the TLS handshake, and the mode
 strings at the start of a session. The peer's bytes arrive in reads of any size.
 */
module IdentityCheck {
  import opened Wrappers
  import opened Modes

  const MAGIC: seq<byte> := [109, 97, 103, 105, 99, 95, 112, 105, 112, 105, 101] // "magic_pipie"
  const IDENTITY_SIZE := 64

  // One read: how much it returns at most (possibly nothing), and whether it reports an error besides.
  datatype Plan = Plan(limit: nat, fails: bool)

  // One end of a connection. When the plans are used up, reads fail. Each entry of faults says whether a
  // write fails.
  class Conn {
    var incoming: seq<byte>
    var plans: seq<Plan>
    var outgoing: seq<byte>
    var faults: seq<bool>

    constructor (incoming: seq<byte>, plans: seq<Plan>, faults: seq<bool>)
      ensures this.incoming == incoming && this.plans == plans && this.faults == faults && outgoing == []
    {
      this.incoming, this.plans, this.faults := incoming, plans, faults;
      outgoing := [];
    }

    method Read(buf: array<byte>, start: nat) returns (n: nat, failed: bool)
      requires start <= buf.Length
      modifies this`incoming, this`plans, buf
      ensures old(plans) == [] ==> failed && n == 0 && plans == []
      ensures old(plans) != [] ==>
                plans == old(plans)[1..] && failed == old(plans)[0].fails
                && n == Min(old(plans)[0].limit, Min(|old(incoming)|, buf.Length - start))
      ensures n <= |old(incoming)| && n <= buf.Length - start && incoming == old(incoming)[n..]
      ensures buf[..] == old(buf[..start]) + old(incoming)[..n] + old(buf[start + n..])
    {
      if plans == [] {
        n, failed := 0, true;
      } else {
        n, failed := Min(plans[0].limit, Min(|incoming|, buf.Length - start)), plans[0].fails;
        plans := plans[1..];
        forall i | 0 <= i < n {
          buf[start + i] := incoming[i];
        }
        incoming := incoming[n..];
      }
    }

    method Write(data: seq<byte>) returns (failed: bool)
      modifies this`outgoing, this`faults
      ensures failed == (old(faults) != [] && old(faults)[0])
      ensures faults == if old(faults) == [] then [] else old(faults)[1..]
      ensures outgoing == if failed then old(outgoing) else old(outgoing) + data
    {
      failed := faults != [] && faults[0];
      if faults != [] {
        faults := faults[1..];
      }
      if !failed {
        outgoing := outgoing + data;
      }
    }
  }

  // What a read-full loop gets: whether enough bytes arrive before a read fails, and the plans left then.
  // Bytes that come with an error do not count.
  function ReadsFor(plans: seq<Plan>, available: nat, want: nat): Option<seq<Plan>>
    decreases |plans|
  {
    if plans == [] || plans[0].fails then None
    else
      var n := Min(plans[0].limit, Min(available, want));
      if n == want then Some(plans[1..]) else ReadsFor(plans[1..], available - n, want - n)
  }

  // Reads on until the buffer is full.
  method ReadFull(conn: Conn, buf: array<byte>) returns (failed: bool)
    modifies conn`incoming, conn`plans, buf
    ensures var r := ReadsFor(old(conn.plans), |old(conn.incoming)|, buf.Length);
            && failed == r.None?
            && (r.Some? ==> conn.plans == r.value)
    ensures !failed ==> buf.Length <= |old(conn.incoming)|
    ensures !failed ==> buf[..] == old(conn.incoming)[..buf.Length] && conn.incoming == old(conn.incoming)[buf.Length..]
  {
    var bufC := 0;
    ghost var all := conn.incoming;
    ghost var answer := ReadsFor(conn.plans, |all|, buf.Length);
    while true
      invariant bufC <= buf.Length && bufC <= |all| && conn.incoming == all[bufC..] && buf[..bufC] == all[..bufC]
      invariant ReadsFor(conn.plans, |conn.incoming|, buf.Length - bufC) == answer
      decreases |conn.plans|
    {
      var n, err := conn.Read(buf, bufC);
      if err {
        return true;
      }
      assert all[..bufC + n] == all[..bufC] + all[bufC..][..n];
      bufC := bufC + n;
      if bufC == buf.Length {
        return false;
      }
    }
  }

  // ------------------------------------------------------------------ the identity check

  datatype Verdict = Passed | WriteFailed | ReadFailed | MagicMismatch | IdentityMismatch

  // What the check expects to read, and what it sends, for a hash of 64 bytes.
  function Proof(hash: seq<byte> -> seq<byte>, cert: seq<byte>, key: seq<byte>): seq<byte> {
    MAGIC + hash(cert + key)
  }

  // The verdict on what is read: the magic first, then the peer's key.
  function ReadVerdict(all: seq<byte>, plans: seq<Plan>, peerKey: seq<byte>): Verdict {
    var first := ReadsFor(plans, |all|, |MAGIC|);
    if first.None? then ReadFailed
    else if !(MAGIC <= all) then MagicMismatch
    else if ReadsFor(first.value, |all| - |MAGIC|, IDENTITY_SIZE).None? then ReadFailed
    else if !(MAGIC + peerKey <= all) then IdentityMismatch
    else Passed
  }

  // Both writes; the second overwrites the error of the first.
  method SendProof(conn: Conn, identityKey: seq<byte>) returns (err: bool)
    modifies conn`outgoing, conn`faults
    ensures err <==> |old(conn.faults)| > 1 && old(conn.faults)[1]
    ensures conn.outgoing == old(conn.outgoing)
              + ((if old(conn.faults) != [] && old(conn.faults)[0] then [] else MAGIC) + (if err then [] else identityKey))
  {
    ghost var was, first := conn.outgoing, if conn.faults != [] && conn.faults[0] then [] else MAGIC;
    err := conn.Write(MAGIC);
    assert conn.outgoing == was + first;
    err := conn.Write(identityKey); // the first error is overwritten
    ghost var second := if err then [] else identityKey;
    assert conn.outgoing == (was + first) + second == was + (first + second);
  }

  method ReadProof(conn: Conn, peerKey: seq<byte>) returns (v: Verdict)
    requires |peerKey| == IDENTITY_SIZE
    modifies conn`incoming, conn`plans
    ensures v == ReadVerdict(old(conn.incoming), old(conn.plans), peerKey)
    ensures v.Passed? ==> conn.incoming == old(conn.incoming)[|MAGIC| + IDENTITY_SIZE..]
  {
    hide ReadsFor;
    ghost var all := conn.incoming;
    var buf := new byte[|MAGIC|](_ => 0);
    var failed := ReadFull(conn, buf);
    if failed {
      return ReadFailed;
    }
    PrefixParts(all, MAGIC, peerKey);
    if buf[..] != MAGIC {
      return MagicMismatch;
    }
    var buf2 := new byte[IDENTITY_SIZE](_ => 0);
    failed := ReadFull(conn, buf2);
    if failed {
      return ReadFailed;
    }
    assert all[|MAGIC|..][IDENTITY_SIZE..] == all[|MAGIC| + IDENTITY_SIZE..];
    if buf2[..] != peerKey {
      return IdentityMismatch;
    }
    v := Passed;
  }

  /** The whole check. A failure of the second write is reported, one of the first goes unnoticed; what is read
      decides otherwise, case by case. */
  method TlsIdentityCheck(hash: seq<byte> -> seq<byte>, myCert: seq<byte>, peerCert: seq<byte>, key: seq<byte>, conn: Conn)
    returns (v: Verdict)
    requires |hash(myCert + key)| == IDENTITY_SIZE && |hash(peerCert + key)| == IDENTITY_SIZE
    modifies conn
    ensures v.WriteFailed? <==> |old(conn.faults)| > 1 && old(conn.faults)[1]
    ensures conn.outgoing == old(conn.outgoing)
              + ((if old(conn.faults) != [] && old(conn.faults)[0] then [] else MAGIC)
                 + (if v.WriteFailed? then [] else hash(myCert + key)))
    // the first read loop fails, or brings another magic, or the second one fails, or brings another key
    ensures !v.WriteFailed? ==>
              var all, first := old(conn.incoming), ReadsFor(old(conn.plans), |old(conn.incoming)|, |MAGIC|);
              && (v.MagicMismatch? <==> first.Some? && !(MAGIC <= all))
              && (v.ReadFailed? <==> first.None? || (MAGIC <= all && ReadsFor(first.value, |all| - |MAGIC|, IDENTITY_SIZE).None?))
              && (v.Passed? ==> Proof(hash, peerCert, key) <= all && conn.incoming == all[|MAGIC| + IDENTITY_SIZE..])
              && (v.IdentityMismatch? ==> MAGIC <= all && !(Proof(hash, peerCert, key) <= all))
    // when no write fails and enough reads come, the check passes exactly when the expected bytes arrive first
    ensures old(conn.faults) == [] && Suffices(old(conn.plans), |old(conn.incoming)|) ==>
              conn.outgoing == old(conn.outgoing) + Proof(hash, myCert, key)
              && (v.Passed? <==> Proof(hash, peerCert, key) <= old(conn.incoming))
  {
    hide ReadsFor;
    var myIdentityKey, peerIdentityKey := hash(myCert + key), hash(peerCert + key);
    ProofStarts(hash, peerCert, key, conn.incoming);
    var err := SendProof(conn, myIdentityKey);
    if err {
      return WriteFailed;
    }
    v := ReadProof(conn, peerIdentityKey);
  }

  lemma ProofStarts(hash: seq<byte> -> seq<byte>, cert: seq<byte>, key: seq<byte>, all: seq<byte>)
    ensures Proof(hash, cert, key) <= all ==> MAGIC <= all
  {
    if Proof(hash, cert, key) <= all {
      assert MAGIC == Proof(hash, cert, key)[..|MAGIC|] == all[..|MAGIC|];
    }
  }

  lemma PrefixParts(all: seq<byte>, a: seq<byte>, b: seq<byte>)
    requires |a| <= |all|
    ensures a + b <= all <==> a == all[..|a|] && |a| + |b| <= |all| && b == all[|a|..][..|b|]
    ensures a + b <= all ==> a <= all
  {
    if a == all[..|a|] && |a| + |b| <= |all| && b == all[|a|..][..|b|] {
      assert all[..|a| + |b|] == a + b;
    }
    if a + b <= all {
      assert all[..|a| + |b|] == a + b;
      assert all[..|a|] == (a + b)[..|a|];
      assert all[|a|..][..|b|] == (a + b)[|a|..];
    }
  }

  // Both read-full loops get their bytes before a read fails.
  predicate Suffices(plans: seq<Plan>, available: nat) {
    available >= |MAGIC| + IDENTITY_SIZE &&
    var first := ReadsFor(plans, available, |MAGIC|);
    first.Some? && ReadsFor(first.value, available - |MAGIC|, IDENTITY_SIZE).Some?
  }

  predicate Progress(plans: seq<Plan>) {
    forall i :: 0 <= i < |plans| ==> plans[i].limit > 0 && !plans[i].fails
  }

  // Reads that each make progress reach any size in at most that many reads.
  lemma {:induction false} ProgressReaches(plans: seq<Plan>, available: nat, want: nat)
    requires 0 < want <= available && want <= |plans| && Progress(plans)
    ensures var r := ReadsFor(plans, available, want);
            r.Some? && |r.value| >= |plans| - want && Progress(r.value)
    decreases |plans|
  {
    var n := Min(plans[0].limit, Min(available, want));
    if n < want {
      ProgressReaches(plans[1..], available - n, want - n);
    }
  }

  /** Any 75 reads that each make progress are enough, however short the reads are. */
  lemma ProgressSuffices(plans: seq<Plan>, available: nat)
    requires Progress(plans)
    requires |MAGIC| + IDENTITY_SIZE <= |plans| && |MAGIC| + IDENTITY_SIZE <= available
    ensures Suffices(plans, available)
  {
    ProgressReaches(plans, available, |MAGIC|);
    ProgressReaches(ReadsFor(plans, available, |MAGIC|).value, available - |MAGIC|, IDENTITY_SIZE);
  }

  // ------------------------------------------------------------------ the mode strings

  /** The mode check makes one read only. It passes exactly when that read brings the whole expected string,
      and then it has consumed just these 14 bytes: a short read leaves a zero where none is expected. */
  method ConfirmMode(conn: Conn, mine: string, expected: string) returns (ok: bool)
    requires IsMode(mine) && IsMode(expected)
    modifies conn
    ensures ok <==> !(old(conn.faults) != [] && old(conn.faults)[0])
                    && old(conn.plans) != [] && !old(conn.plans)[0].fails && old(conn.plans)[0].limit >= MODE_SIZE
                    && Bytes(expected) <= old(conn.incoming)
    ensures !(old(conn.faults) != [] && old(conn.faults)[0]) && old(conn.plans) != [] ==>
              conn.incoming == old(conn.incoming)[Min(old(conn.plans)[0].limit, Min(|old(conn.incoming)|, MODE_SIZE))..]
    ensures ok ==> conn.incoming == old(conn.incoming)[MODE_SIZE..] && conn.outgoing == old(conn.outgoing) + Bytes(mine)
  {
    ghost var all := conn.incoming;
    ModesAreFull(expected);
    var failed := conn.Write(Bytes(mine));
    if failed {
      return false;
    }
    var buf := new byte[MODE_SIZE](_ => 0);
    ghost var zeros := buf[..];
    var n, err := conn.Read(buf, 0);
    assert buf[..] == all[..n] + zeros[n..];
    assert n < MODE_SIZE ==> buf[..][n] == 0 && buf[..][n] in buf[..];
    assert n == MODE_SIZE ==> buf[..] == all[..MODE_SIZE];
    assert Bytes(expected) <= all ==> all[..MODE_SIZE] == Bytes(expected);
    if err || buf[..] != Bytes(expected) {
      return false;
    }
    ok := true;
  }

  /** A short read fails the check although the whole string is on its way and every read makes progress. */
  method ShortReadFailsTheCheck(mine: string, expected: string, short: nat, rest: seq<Plan>) returns (ok: bool, left: seq<byte>)
    requires IsMode(mine) && IsMode(expected) && short < MODE_SIZE && Progress(rest)
    ensures !ok && left == Bytes(expected)[short..] && left != []
  {
    ModesAreFull(expected);
    var conn := new Conn(Bytes(expected), [Plan(short, false)] + rest, []);
    ok := ConfirmMode(conn, mine, expected);
    left := conn.incoming;
  }

  // ------------------------------------------------------------------ both ends

  // The connection key of an end: the hash of the pair key followed by the access key.
  function PairConnKey(sha256: seq<byte> -> seq<byte>, pairKey: seq<byte>, accessKey: seq<byte>): seq<byte> {
    sha256(pairKey + accessKey)
  }

  // The two hash functions do not collide on the inputs that the two ends feed them.
  predicate NoCollisions(sha256: seq<byte> -> seq<byte>, sha512: seq<byte> -> seq<byte>,
                         pairKey: seq<byte>, ak1: seq<byte>, ak2: seq<byte>, cert1: seq<byte>, cert2: seq<byte>)
  {
    var k1, k2 := PairConnKey(sha256, pairKey, ak1), PairConnKey(sha256, pairKey, ak2);
    && (k1 == k2 ==> pairKey + ak1 == pairKey + ak2)
    && (sha512(cert1 + k1) == sha512(cert1 + k2) ==> cert1 + k1 == cert1 + k2)
    && (sha512(cert2 + k1) == sha512(cert2 + k2) ==> cert2 + k1 == cert2 + k2)
  }

  lemma SamePrefixCancels<T>(p: seq<T>, a: seq<T>, b: seq<T>)
    requires p + a == p + b
    ensures a == b
  {
    assert a == (p + a)[|p|..] && b == (p + b)[|p|..];
  }

  /** With the agreed pair key and hashes that do not collide, each end finds the proof it expects at the
      front of what the other sent if and only if the access keys are equal, whatever follows the proof. */
  lemma BothEndsPassIff(sha256: seq<byte> -> seq<byte>, sha512: seq<byte> -> seq<byte>, pairKey: seq<byte>,
                        ak1: seq<byte>, ak2: seq<byte>, cert1: seq<byte>, cert2: seq<byte>, more1: seq<byte>, more2: seq<byte>)
    requires NoCollisions(sha256, sha512, pairKey, ak1, ak2, cert1, cert2)
    requires var k1, k2 := PairConnKey(sha256, pairKey, ak1), PairConnKey(sha256, pairKey, ak2);
             && |sha512(cert1 + k1)| == |sha512(cert1 + k2)| == IDENTITY_SIZE
             && |sha512(cert2 + k1)| == |sha512(cert2 + k2)| == IDENTITY_SIZE
    ensures var k1, k2 := PairConnKey(sha256, pairKey, ak1), PairConnKey(sha256, pairKey, ak2);
            // end 1 reads what end 2 sent, and the other way round
            && (Proof(sha512, cert2, k1) <= Proof(sha512, cert2, k2) + more2 <==> ak1 == ak2)
            && (Proof(sha512, cert1, k2) <= Proof(sha512, cert1, k1) + more1 <==> ak1 == ak2)
  {
    var k1, k2 := PairConnKey(sha256, pairKey, ak1), PairConnKey(sha256, pairKey, ak2);
    ProofsEqual(sha512, cert2, k1, k2, more2);
    ProofsEqual(sha512, cert1, k2, k1, more1);
    if sha512(cert1 + k1) == sha512(cert1 + k2) {
      SamePrefixCancels(cert1, k1, k2);
      SamePrefixCancels(pairKey, ak1, ak2);
    }
    if sha512(cert2 + k1) == sha512(cert2 + k2) {
      SamePrefixCancels(cert2, k1, k2);
      SamePrefixCancels(pairKey, ak1, ak2);
    }
  }

  lemma ProofsEqual(hash: seq<byte> -> seq<byte>, cert: seq<byte>, k: seq<byte>, k': seq<byte>, more: seq<byte>)
    requires |hash(cert + k)| == |hash(cert + k')|
    ensures Proof(hash, cert, k) <= Proof(hash, cert, k') + more <==> hash(cert + k) == hash(cert + k')
  {
    var a, b := Proof(hash, cert, k), Proof(hash, cert, k');
    assert (b + more)[..|a|] == b;
    assert a[|MAGIC|..] == hash(cert + k) && b[|MAGIC|..] == hash(cert + k');
  }
}
