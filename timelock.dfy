/**
 * OP_CHECKSEQUENCEVERIFY, as BIP-112 defines it on top of BIP-68's relative
 * lock-time encoding of an input's sequence number. The vault's hot branch
 * relies on it; it is not part of the system itself, and is here so that
 * what the hot branch demands of its spending transaction can be stated.
 */
module Timelock {
  import opened Bytes

  /** Bit 31: the sequence carries no relative lock-time. */
  const DisableFlag: nat := 0x8000_0000
  /** Bit 22: the lock-time counts 512-second units rather than blocks. */
  const TypeFlag: nat := 0x40_0000
  /** The low 16 bits hold the lock-time value. */
  const ValueMask: nat := 0x1_0000

  /** Whether `x` has the bit of value `bit` (a power of two) set. */
  predicate HasBit(x: nat, bit: nat)
    requires bit > 0
  {
    (x / bit) % 2 == 1
  }

  /** `x & (TypeFlag | 0xffff)`. */
  function Masked(x: nat): nat
  {
    (if HasBit(x, TypeFlag) then TypeFlag else 0) + x % ValueMask
  }

  /** The transaction version as the unsigned 32-bit number BIP-112 compares with 2. */
  function VersionAsU32(version: I32): nat
  {
    if version < 0 then version + 0x1_0000_0000 else version
  }

  /** The checks CSV makes when its operand is not disabled. */
  predicate SequenceSatisfies(version: I32, txSequence: U32, operand: nat)
  {
    && VersionAsU32(version) >= 2
    && !HasBit(txSequence, DisableFlag)
    && HasBit(operand, TypeFlag) == HasBit(txSequence, TypeFlag)
    && Masked(operand) <= Masked(txSequence)
  }

  /**
   * Whether OP_CHECKSEQUENCEVERIFY, with `operand` on top of the stack,
   * lets a spend through when the input it checks has sequence `txSequence`
   * in a transaction of version `version`. An operand with the disable flag
   * makes the opcode a no-op.
   */
  predicate CsvAccepts(version: I32, txSequence: U32, operand: int)
  {
    && operand >= 0
    && (HasBit(operand, DisableFlag) || SequenceSatisfies(version, txSequence, operand))
  }

  /** A version-1 transaction fails every CSV check that is not a no-op. */
  lemma CsvRejectsVersionOne(txSequence: U32, operand: int)
    requires 0 <= operand < DisableFlag
    ensures !CsvAccepts(1, txSequence, operand)
  {
    assert operand / DisableFlag == 0;
  }

  /**
   * For a block-height lock (a 16-bit operand, a sequence with no flags)
   * in a transaction of version 2 or more, CSV passes exactly when the
   * sequence is at least the operand.
   */
  lemma CsvHeightLock(version: I32, txSequence: U32, operand: int)
    requires VersionAsU32(version) >= 2
    requires 0 <= operand < ValueMask && txSequence < ValueMask
    ensures CsvAccepts(version, txSequence, operand) <==> operand <= txSequence
  {
    assert operand / DisableFlag == 0 && operand / TypeFlag == 0;
    assert txSequence / DisableFlag == 0 && txSequence / TypeFlag == 0;
    assert Masked(operand) == operand && Masked(txSequence) == txSequence;
  }
}
