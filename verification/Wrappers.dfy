// Small types shared by all modules.
module Wrappers {
  datatype Option<+T> = None | Some(value: T)

  // One octet of a stream, a datagram or a hash.
  type byte = x: int | 0 <= x < 256

  type uint32 = x: int | 0 <= x < 0x1_0000_0000

  function Min(a: nat, b: nat): nat { if a < b then a else b }
}

// The strings by which the two ends of a session name what they are.
module Modes {
  import opened Wrappers

  const MODE_SIZE := 14
  const MODE_PORT_FORWARD_SERVER := "MODE_PORT_SERV"
  const MODE_PORT_FORWARD_CLIENT := "MODE_PORT_CLIE"
  const MODE_PIPE_INLET := "MODE_PIPE_INLE"
  const MODE_PIPE_OUTLET := "MODE_PIPE_OUTL"

  predicate IsMode(m: string) {
    m in [MODE_PORT_FORWARD_SERVER, MODE_PORT_FORWARD_CLIENT, MODE_PIPE_INLET, MODE_PIPE_OUTLET]
  }

  function Bytes(m: string): seq<byte> {
    seq(|m|, i requires 0 <= i < |m| => m[i] as int % 256)
  }

  lemma ModesAreFull(m: string)
    requires IsMode(m)
    ensures |Bytes(m)| == MODE_SIZE && 0 !in Bytes(m)
  {
    assert forall i :: 0 <= i < |m| ==> 'A' <= m[i] <= '_';
  }
}
