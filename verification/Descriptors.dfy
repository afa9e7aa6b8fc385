/** File and socket descriptors as the programs of hw5_os use them. */
module Descriptors {
  import opened PrintableCount

  /** Reading on: a stream read up to `k` and then `r` bytes further. */
  lemma ReadOn(whole: seq<Byte>, k: nat, r: nat)
    requires k + r <= |whole|
    ensures whole[..k] + whole[k..][..r] == whole[..k + r]
    ensures whole[k..][r..] == whole[k + r..]
  {
  }

  /** How an operation over a descriptor ends: it is done, it gives up, or it waits for ever. */
  datatype Status = Done | Failed | Stuck

  /** `incoming` is what remains to be read and `sent` what has been written. After its last byte the peer either
      closes its end or keeps it open. Every read and write may be short; on a descriptor that is not steady each may
      also fail. */
  class Descriptor {
    var incoming: seq<Byte>
    var sent: seq<Byte>
    const steady: bool
    const open: bool

    constructor (incoming: seq<Byte>, steady: bool, open: bool)
      ensures this.incoming == incoming && sent == [] && this.steady == steady && this.open == open
    {
      this.incoming, sent, this.steady, this.open := incoming, [], steady, open;
    }

    /** Reads at most `n` bytes to `buf[at..]`: negative on failure, zero exactly at the end of the stream. Where the
        peer keeps its end open but sends nothing more, the call never returns, and `waits` says so. */
    method Read(buf: array<Byte>, at: nat, n: nat) returns (r: int, waits: bool)
      requires 0 < n && at + n <= buf.Length
      modifies this`incoming, buf
      ensures r <= n && r <= |old(incoming)| && (steady ==> r >= 0)
      ensures r == 0 ==> incoming == [] && waits == open
      ensures waits ==> r == 0
      ensures r <= 0 ==> incoming == old(incoming) && buf[..] == old(buf[..])
      ensures r > 0 ==> incoming == old(incoming)[r..]
      ensures r > 0 ==> buf[..at + r] == old(buf[..at]) + old(incoming)[..r]
      ensures r > 0 && at == 0 ==> buf[..r] == old(incoming)[..r]
    {
      waits := false;
      var fails: bool := *;
      if fails && !steady { return -1, false; }
      if incoming == [] { return 0, open; }
      r := *;
      if r < 1 || r > n || r > |incoming| { r := if n < |incoming| then n else |incoming|; }
      for i := 0 to r
        invariant incoming == old(incoming)
        invariant buf[..at + i] == old(buf[..at]) + incoming[..i]
      {
        buf[at + i] := incoming[i];
      }
      assert at == 0 ==> buf[..r] == incoming[..r];
      incoming := incoming[r..];
    }

    /** Writes a non-empty prefix of the data, or fails. */
    method Write(data: seq<Byte>) returns (r: int)
      requires data != []
      modifies this`sent
      ensures r <= |data| && r != 0 && (steady ==> r > 0)
      ensures sent == if r > 0 then old(sent) + data[..r] else old(sent)
    {
      var fails: bool := *;
      if fails && !steady { return -1; }
      r := *;
      if r < 1 || r > |data| { r := |data|; }
      sent := sent + data[..r];
    }
  }
}
