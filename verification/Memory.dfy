/** Bytes of foreign memory. */
module Memory {
  type Byte = b: int | 0 <= b < 256

  /** `m` with `bytes` stored at `at`. */
  function Put(m: seq<Byte>, at: nat, bytes: seq<Byte>): (r: seq<Byte>)
    requires at + |bytes| <= |m|
    ensures |r| == |m|
    ensures forall k :: 0 <= k < |m| ==> r[k] == if at <= k < at + |bytes| then bytes[k - at] else m[k]
    ensures r[at..at + |bytes|] == bytes
  {
    m[..at] + bytes + m[at + |bytes|..]
  }

  function Zeros(n: nat): (r: seq<Byte>)
    ensures |r| == n && forall k :: 0 <= k < n ==> r[k] == 0
  {
    seq(n, _ => 0)
  }

  /** A range apart from the one that is stored keeps its bytes. */
  lemma PutApart(m: seq<Byte>, at: nat, bytes: seq<Byte>, from: nat, to: nat)
    requires at + |bytes| <= |m| && from <= to <= |m|
    requires to <= at || at + |bytes| <= from
    ensures Put(m, at, bytes)[from..to] == m[from..to]
  {
  }

  /** An assignment through a pointer, memset or memcpy. */
  method Store(mem: array<Byte>, at: nat, bytes: seq<Byte>)
    requires at + |bytes| <= mem.Length
    modifies mem
    ensures mem[..] == Put(old(mem[..]), at, bytes)
  {
    forall i | 0 <= i < |bytes| {
      mem[at + i] := bytes[i];
    }
  }
}
