/**
 * Fixed-width integers and the little-endian byte layout that the `byteorder`
 * crate writes and reads (`write_i32::<LittleEndian>`, `read_u64::<LittleEndian>`, ...).
 * Integers are unbounded in Dafny; the widths of the Rust types are subset types here,
 * and the two's-complement reinterpretation of `i32` is written out.
 */
module LittleEndian {

  type byte = x: int | 0 <= x < 0x100
  type u32 = x: int | 0 <= x < 0x1_0000_0000
  type int32 = x: int | -0x8000_0000 <= x < 0x8000_0000
  type u64 = x: int | 0 <= x < 0x1_0000_0000_0000_0000

  const I32_MAX: int32 := 0x7FFF_FFFF

  function Pow256(n: nat): (r: nat)
    ensures r > 0
  {
    if n == 0 then 1 else 256 * Pow256(n - 1)
  }

  lemma Pow256Widths()
    ensures Pow256(4) == 0x1_0000_0000
    ensures Pow256(8) == 0x1_0000_0000_0000_0000
  {
    assert Pow256(2) == 0x1_0000;
    assert Pow256(4) == 0x1_0000_0000 by { assert Pow256(3) == 0x100_0000; }
    assert Pow256(6) == 0x1_0000_0000_0000 by { assert Pow256(5) == 0x100_0000_0000; }
    assert Pow256(8) == 0x1_0000_0000_0000_0000 by { assert Pow256(7) == 0x100_0000_0000_0000; }
  }

  /** The `n` low-order bytes of `u`, least significant first (higher bytes are dropped). */
  function ToLe(u: nat, n: nat): (s: seq<byte>)
    ensures |s| == n
  {
    if n == 0 then [] else [u % 256] + ToLe(u / 256, n - 1)
  }

  /** The unsigned value of a little-endian byte string. */
  function FromLe(s: seq<byte>): (u: nat)
    ensures u < Pow256(|s|)
  {
    if s == [] then 0 else s[0] + 256 * FromLe(s[1..])
  }

  /** Reading back what was written gives the value, as long as it fits in `n` bytes. */
  lemma {:induction false} FromLeToLe(u: nat, n: nat)
    requires u < Pow256(n)
    ensures FromLe(ToLe(u, n)) == u
  {
    if n > 0 {
      assert u / 256 < Pow256(n - 1);
      FromLeToLe(u / 256, n - 1);
      assert ToLe(u, n)[1..] == ToLe(u / 256, n - 1);
    }
  }

  /** Writing back what was read gives the bytes. */
  lemma {:induction false} ToLeFromLe(s: seq<byte>)
    ensures ToLe(FromLe(s), |s|) == s
  {
    if s != [] {
      var v := FromLe(s);
      assert v % 256 == s[0] && v / 256 == FromLe(s[1..]);
      ToLeFromLe(s[1..]);
    }
  }

  /** Two byte strings of one width are equal exactly when their values are. */
  lemma FromLeInjective(s: seq<byte>, t: seq<byte>)
    requires |s| == |t|
    ensures FromLe(s) == FromLe(t) <==> s == t
  {
    if FromLe(s) == FromLe(t) {
      ToLeFromLe(s);
      ToLeFromLe(t);
    }
  }

  /** `x as u32` for an `i32`: the same 32 bits read as unsigned. */
  function I32AsU32(v: int32): (u: u32)
    ensures u % 0x1_0000_0000 == v % 0x1_0000_0000
  {
    if v < 0 then v + 0x1_0000_0000 else v
  }

  /** `x as i32` for a `u32`: the same 32 bits read as two's complement. */
  function U32AsI32(u: u32): (v: int32)
    ensures v % 0x1_0000_0000 == u % 0x1_0000_0000
    ensures u <= I32_MAX as int ==> v == u
  {
    if u < 0x8000_0000 then u else u - 0x1_0000_0000
  }

  /** Casting a `u32` to `i32` loses nothing: casting the result back gives the same number. */
  lemma CastRoundTrip(u: u32)
    ensures I32AsU32(U32AsI32(u)) == u
  {
  }

  /** `write_i32::<LittleEndian>`: the four bytes of the value's two's-complement bits, low byte first. */
  function EncodeI32(v: int32): (s: seq<byte>)
    ensures |s| == 4
  {
    ToLe(I32AsU32(v), 4)
  }

  /** `read_i32::<LittleEndian>` on four available bytes: the unsigned reading, less 2^32 when the top bit is set. */
  function DecodeI32(s: seq<byte>): int32
    requires |s| == 4
  {
    var u := FromLe(s);
    Pow256Widths();
    if u < 0x8000_0000 then u else u - 0x1_0000_0000
  }

  lemma DecodeEncodeI32(v: int32)
    ensures DecodeI32(EncodeI32(v)) == v
  {
    Pow256Widths();
    FromLeToLe(I32AsU32(v), 4);
  }

  /** `write_u64::<LittleEndian>` */
  function EncodeU64(u: u64): (s: seq<byte>)
    ensures |s| == 8
  {
    ToLe(u, 8)
  }

  /** `read_u64::<LittleEndian>` on eight available bytes. */
  function DecodeU64(s: seq<byte>): u64
    requires |s| == 8
  {
    Pow256Widths();
    FromLe(s)
  }

  /** Decoding inverts encoding, and `EncodeU64` is injective. */
  lemma DecodeEncodeU64(u: u64)
    ensures DecodeU64(EncodeU64(u)) == u
  {
    Pow256Widths();
    FromLeToLe(u, 8);
  }

  lemma EncodeDecodeU64(s: seq<byte>)
    requires |s| == 8
    ensures EncodeU64(DecodeU64(s)) == s
  {
    ToLeFromLe(s);
  }

  function Zeros(n: nat): (s: seq<byte>)
    ensures |s| == n && forall i :: 0 <= i < n ==> s[i] == 0
  {
    seq(n, _ => 0)
  }

  /** One more zero byte at the end. */
  lemma ZerosSnoc(n: nat)
    ensures Zeros(n) + [0] == Zeros(n + 1)
  {
    assert forall i :: 0 <= i < n + 1 ==> (Zeros(n) + [0])[i] == 0;
  }
}
