/** Bytes, little-endian words and in-place copies, as the compiler writes them on its targets. */
module Bytes {

  type Byte = x: int | 0 <= x < 256
  type Word = x: int | 0 <= x < 0x1_0000
  type DWord = x: int | 0 <= x < 0x1_0000_0000

  const WORD_LIMIT := 0x1_0000
  const HIGH_BIT := 0x8000_0000
  const DWORD_LIMIT := 0x1_0000_0000

  function Le16(v: int): (b: seq<Byte>)
    requires 0 <= v < WORD_LIMIT
    ensures |b| == 2 && Get16(b, 0) == v
  {
    [v % 256, v / 256]
  }

  function Le32(v: int): (b: seq<Byte>)
    requires 0 <= v < DWORD_LIMIT
    ensures |b| == 4 && Get32(b, 0) == v
  {
    Le16(v % 0x1_0000) + Le16(v / 0x1_0000)
  }

  function Get16(s: seq<Byte>, at: nat): (v: int)
    requires at + 2 <= |s|
    ensures 0 <= v < WORD_LIMIT
  {
    var lo: int, hi: int := s[at], s[at + 1];
    lo + 256 * hi
  }

  function Get32(s: seq<Byte>, at: nat): (v: int)
    requires at + 4 <= |s|
    ensures 0 <= v < DWORD_LIMIT
  {
    Get16(s, at) + 0x1_0000 * Get16(s, at + 2)
  }

  function Zeros(n: nat): seq<Byte> {
    seq(n, _ => 0)
  }

  /** `s` with `bytes` copied over the part that starts at `at`. */
  function Patch(s: seq<Byte>, at: nat, bytes: seq<Byte>): (r: seq<Byte>)
    requires at + |bytes| <= |s|
    ensures |r| == |s| && r[at..at + |bytes|] == bytes
    ensures forall i :: 0 <= i < |s| && !(at <= i < at + |bytes|) ==> r[i] == s[i]
  {
    s[..at] + bytes + s[at + |bytes|..]
  }

  /** Little-endian: the byte at the lower place counts least. */
  lemma ByteOrder(s: seq<Byte>, at: nat)
    requires at + 4 <= |s|
    ensures var a: int, b: int, c: int, d: int := s[at], s[at + 1], s[at + 2], s[at + 3];
            Get16(s, at) == a + 0x100 * b && Get32(s, at) == a + 0x100 * b + 0x1_0000 * c + 0x100_0000 * d
  {
  }
}
