/** Bytes, fixed-width unsigned integers and the little helpers every component shares. */
module Bytes {

  type Byte = x: int | 0 <= x < 256
  type U32 = x: int | 0 <= x < 0x1_0000_0000
  type U64 = x: int | 0 <= x < 0x1_0000_0000_0000_0000

  /** A file size as the operating system reports it: a non-negative 64-bit signed offset. */
  type FileSize = x: int | 0 <= x < 0x8000_0000_0000_0000

  const U32_MAX := 0xffff_ffff
  const U64_MAX := 0xffff_ffff_ffff_ffff

  /** Unsigned 32-bit wrap-around. */
  function Wrap32(x: int): U32 {
    x % 0x1_0000_0000
  }

  /** Unsigned 64-bit wrap-around. */
  function Wrap64(x: int): U64 {
    x % 0x1_0000_0000_0000_0000
  }

  lemma NoWrap(x: int)
    ensures 0 <= x < 0x1_0000_0000 ==> Wrap32(x) == x
    ensures 0 <= x < 0x1_0000_0000_0000_0000 ==> Wrap64(x) == x
  {
  }

  function Min(a: int, b: int): int {
    if a < b then a else b
  }

  function Max(a: int, b: int): int {
    if a < b then b else a
  }

  function Zeros(n: nat): (z: seq<Byte>)
    ensures |z| == n
    ensures forall i :: 0 <= i < n ==> z[i] == 0
  {
    seq(n, _ => 0)
  }

  /** A SHA-256 digest. */
  type Digest = d: seq<Byte> | |d| == 32 witness Zeros(32)

  /** The bytes of an ASCII literal. */
  function Ascii(s: string): (b: seq<Byte>)
    ensures |b| == |s|
    ensures forall i :: 0 <= i < |s| ==> b[i] == s[i] as int % 256
  {
    seq(|s|, i requires 0 <= i < |s| => s[i] as int % 256)
  }

  /** `base` with `data` laid over it from `offset` on; bytes past the end extend it, holes read as zero. */
  function Overlay(base: seq<Byte>, offset: nat, data: seq<Byte>): (r: seq<Byte>)
    ensures |r| == if |data| == 0 then |base| else Max(|base|, offset + |data|)
    ensures forall i :: 0 <= i < |r| ==>
      r[i] == if offset <= i < offset + |data| then data[i - offset] else if i < |base| then base[i] else 0
  {
    seq(if |data| == 0 then |base| else Max(|base|, offset + |data|),
        i requires i >= 0 =>
          if offset <= i < offset + |data| then data[i - offset] else if i < |base| then base[i] else 0)
  }

  /** At most `length` bytes of `content` from `offset` on, as many as there are. */
  function Window(content: seq<Byte>, offset: nat, length: nat): (r: seq<Byte>)
    ensures |r| == Min(length, Max(0, |content| - offset))
    ensures forall i :: 0 <= i < |r| ==> r[i] == content[offset + i]
  {
    content[Min(offset, |content|)..Min(offset + length, |content|)]
  }

  /** `base` cut or zero-extended to `size` bytes. */
  function Resized(base: seq<Byte>, size: nat): (r: seq<Byte>)
    ensures |r| == size
    ensures forall i :: 0 <= i < size ==> r[i] == if i < |base| then base[i] else 0
  {
    seq(size, i requires 0 <= i < size => if i < |base| then base[i] else 0)
  }

  /** Concatenation of a list of fragments. */
  function Flatten(parts: seq<seq<Byte>>): seq<Byte> {
    if parts == [] then [] else Flatten(parts[..|parts| - 1]) + parts[|parts| - 1]
  }
}
