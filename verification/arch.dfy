/**
 The x86_64 architecture description: the register offsets (into the kernel's
 pt_regs structure) of the six argument registers, the return value, the
 program counter and the stack pointer.
 */
module Arch {

  /** Offsets of di, si, dx, cx, r8 and r9, in argument order. */
  const ArgOffsets: seq<int> := [14, 13, 12, 11, 9, 8]

  /** Highest valid argument index: one less than the table's length. */
  function MaxArg(): (n: int)
    ensures n == |ArgOffsets| - 1
    ensures n == 5
  {
    |ArgOffsets| - 1
  }

  /** `arg_offset`; outside the table `std::array::at` throws, so the index is required to be in range. */
  function ArgOffset(i: int): (off: int)
    requires 0 <= i <= MaxArg()
    ensures off in ArgOffsets
  {
    ArgOffsets[i]
  }

  function RetOffset(): int { 10 }  // ax

  function PcOffset(): int { 16 }   // ip

  function SpOffset(): int { 19 }   // sp

  function Name(): string { "x86_64" }

  /** Different argument indices read different registers. */
  lemma ArgOffsetsDistinct(i: int, j: int)
    requires 0 <= i <= MaxArg() && 0 <= j <= MaxArg()
    ensures ArgOffset(i) == ArgOffset(j) <==> i == j
  {
  }

  /** The return, pc and sp registers are pairwise distinct and are no argument register. */
  lemma SpecialOffsetsDisjoint(i: int)
    requires 0 <= i <= MaxArg()
    ensures ArgOffset(i) != RetOffset()
    ensures ArgOffset(i) != PcOffset()
    ensures ArgOffset(i) != SpOffset()
    ensures RetOffset() != PcOffset() && PcOffset() != SpOffset() && RetOffset() != SpOffset()
  {
  }
}
