/**
 * The flag bits handed to a C-style resource manager (the flags
 * of the X/Open XA specification), as a 32-bit set.
 */
module XaFlags {

  type Flags = bv32

  const RESUME: Flags := 0x0800_0000
  const JOIN: Flags := 0x0020_0000
  const START_RECOVERY_SCAN: Flags := 0x0100_0000
  const END_RECOVERY_SCAN: Flags := 0x0080_0000
  const ONE_PHASE: Flags := 0x4000_0000
  const FAIL: Flags := 0x2000_0000
  const SUCCESS: Flags := 0x0400_0000
  const SUSPEND: Flags := 0x0200_0000

  /** `Flags::default()`: no flag set. */
  const NO_FLAGS: Flags := 0

  /** The named flags, in declaration order. */
  const AllFlags: seq<Flags> :=
    [RESUME, JOIN, START_RECOVERY_SCAN, END_RECOVERY_SCAN, ONE_PHASE, FAIL, SUCCESS, SUSPEND]

  /** Exactly one bit of `f` is set. */
  predicate IsSingleBit(f: Flags) {
    f != 0 && f & (f - 1) == 0
  }

  /** Every named flag is a single bit, and no two share it. */
  lemma FlagsAreDistinctBits()
    ensures forall i :: 0 <= i < |AllFlags| ==> IsSingleBit(AllFlags[i])
    ensures forall i, j :: 0 <= i < j < |AllFlags| ==> AllFlags[i] & AllFlags[j] == 0
  {
  }

  /**
   * `Flags::contains_only`: `self` has no bit outside `other`. The `!` of bitflags keeps only named
   * flags and the `!` of `bv32` keeps all 32 bits; the two agree on every value built from named
   * flags, which is all that safe Rust can build.
   */
  function ContainsOnly(self: Flags, other: Flags): (r: bool)
    ensures r <==> self & other == self
  {
    self & !other == 0
  }

  /** `contains_only` is reflexive, and the empty set contains only anything. */
  lemma ContainsOnlyReflexive(a: Flags)
    ensures ContainsOnly(a, a)
    ensures ContainsOnly(NO_FLAGS, a)
  {
  }

  /** `contains_only` is transitive and antisymmetric: the subset order on bit sets. */
  lemma ContainsOnlyTransitive(a: Flags, b: Flags, c: Flags)
    ensures ContainsOnly(a, b) && ContainsOnly(b, c) ==> ContainsOnly(a, c)
  {
  }

  lemma ContainsOnlyAntisymmetric(a: Flags, b: Flags)
    ensures ContainsOnly(a, b) && ContainsOnly(b, a) ==> a == b
  {
  }

  /** A union contains only a pattern exactly when both parts do. */
  lemma ContainsOnlyUnion(a: Flags, b: Flags, c: Flags)
    ensures ContainsOnly(a, c) && ContainsOnly(b, c) <==> ContainsOnly(a | b, c)
  {
    assert (a | b) & !c == (a & !c) | (b & !c);
  }

  /** The assertions of the crate's own flag test. */
  lemma FlagTestVectors()
    ensures RESUME | JOIN == 0x0820_0000
    ensures NO_FLAGS == 0
    ensures ContainsOnly(FAIL | SUCCESS, FAIL | SUCCESS | SUSPEND)
    ensures ContainsOnly(SUCCESS, FAIL | SUCCESS | SUSPEND)
    ensures ContainsOnly(NO_FLAGS, FAIL | SUCCESS | SUSPEND)
    ensures !ContainsOnly(RESUME, FAIL | SUCCESS | SUSPEND)
  {
  }
}
