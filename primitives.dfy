/** Fixed-width machine integers, byte strings and the two conversions the chain spec relies on:
    Rust's truncating `as u8` cast and ASCII byte-string literals padded with spaces. */
module Primitives {

  newtype byte = x: int | 0 <= x < 0x100
  newtype i32 = x: int | -0x8000_0000 <= x < 0x8000_0000
  newtype u32 = x: int | 0 <= x < 0x1_0000_0000
  newtype u64 = x: int | 0 <= x < 0x1_0000_0000_0000_0000
  newtype u128 = x: int | 0 <= x < 0x1_0000_0000_0000_0000_0000_0000_0000_0000

  type Bytes = seq<byte>

  /** A `[u8; 32]`: seeds and ed25519 public keys. */
  type Bytes32 = s: Bytes | |s| == 32 witness seq(32, _ => 0)

  /** `[0u8; n]`. */
  function Zeros(n: nat): (z: Bytes)
    ensures |z| == n
    ensures forall i :: 0 <= i < n ==> z[i] == 0
  {
    seq(n, _ => 0)
  }

  /** Reading a byte back as a signed 8-bit value (`b as i8 as i32`). */
  function SignExtend(b: byte): (x: i32)
    ensures -128 <= x < 128
    ensures x as int % 256 == b as int
  {
    if b < 128 then b as i32 else b as i32 - 256
  }

  /** Rust's `e as u8` for an `i32` e: the low eight bits of the two's-complement representation.
      The result is the unique byte congruent to `x` modulo 256, and reading it back as a signed
      byte recovers every `x` that already fits in eight signed bits. */
  function AsU8(x: i32): (b: byte)
    ensures (x as int - b as int) % 256 == 0
    ensures -128 <= x < 128 ==> SignExtend(b) == x
  {
    (x as int % 256) as byte
  }

  /** The 32-bit two's-complement word that holds an `i32` (`x as u32`). */
  function TwosComplement(x: i32): (w: u32)
    ensures x >= 0 ==> w as int == x as int
    ensures x < 0 ==> w as int == x as int + 0x1_0000_0000
  {
    if x >= 0 then x as int as u32 else (x as int + 0x1_0000_0000) as u32
  }

  /** The same cast read on the machine word: the byte is the word's lowest byte. */
  lemma AsU8IsLowByte(x: i32)
    ensures AsU8(x) as int == TwosComplement(x) as int % 256
  {
  }

  /** `u8` values decoded from an ASCII string. */
  predicate IsAscii(s: string) {
    forall i :: 0 <= i < |s| ==> s[i] as int < 128
  }

  /** The bytes of an ASCII byte-string literal `b"..."`. */
  function AsciiBytes(s: string): (r: Bytes)
    requires IsAscii(s)
    ensures |r| == |s|
    ensures forall i :: 0 <= i < |s| ==> r[i] as int == s[i] as int
  {
    seq(|s|, i requires 0 <= i < |s| => s[i] as int as byte)
  }

  const Space: byte := 0x20

  /** A name written out to `width` bytes: its ASCII bytes followed by spaces. */
  function SpacePadded(name: string, width: nat): (r: Bytes)
    requires IsAscii(name) && |name| <= width
    ensures |r| == width
    ensures r[..|name|] == AsciiBytes(name)
    ensures forall i :: |name| <= i < width ==> r[i] == Space
  {
    AsciiBytes(name) + seq(width - |name|, _ => Space)
  }
}
