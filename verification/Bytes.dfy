/** Bytes and the big-endian integer fields every wire format here is made of. */
module Bytes {

  type byte = b: int | 0 <= b < 256
  type bytes = seq<byte>

  datatype Option<+T> = None | Some(value: T)

  /** Buffer.readUInt16BE inside the buffer. */
  function U16(s: bytes, at: nat): (n: nat)
    requires at + 2 <= |s|
    ensures n < 0x1_0000
  {
    s[at] as int * 256 + s[at + 1]
  }

  /** Buffer.readUIntBE(at, 3) inside the buffer. */
  function U24(s: bytes, at: nat): (n: nat)
    requires at + 3 <= |s|
    ensures n < 0x100_0000
  {
    s[at] as int * 0x1_0000 + s[at + 1] as int * 256 + s[at + 2]
  }

  function Min(a: int, b: int): int {
    if a <= b then a else b
  }

  lemma Assoc(a: bytes, b: bytes, c: bytes)
    ensures (a + b) + c == a + (b + c)
  {
  }

  lemma FieldOfU16(s: bytes, at: nat)
    requires at + 2 <= |s|
    ensures [U16(s, at) / 256, U16(s, at) % 256] == s[at..at + 2]
  {
  }

  lemma SliceOfSlice(s: bytes, a: nat, b: nat, c: nat, d: nat)
    requires a <= b <= |s| && c <= d <= b - a
    ensures s[a..b][c..d] == s[a + c..a + d]
  {
    assert forall i :: 0 <= i < d - c ==> s[a..b][c..d][i] == s[a..b][c + i] == s[a + c + i];
  }

  /** Concatenation of a list of buffers (Buffer.concat). */
  function Concat(parts: seq<bytes>): (s: bytes) {
    if parts == [] then [] else Concat(parts[..|parts| - 1]) + parts[|parts| - 1]
  }

  lemma ConcatOneMore(parts: seq<bytes>, part: bytes)
    ensures Concat(parts + [part]) == Concat(parts) + part
  {
    assert (parts + [part])[..|parts|] == parts;
  }
}
