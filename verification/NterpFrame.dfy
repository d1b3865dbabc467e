/** The stack frame of the nterp interpreter: where its parts are, and that the size formula, which leaves
    out the padding of the out arguments, still has room for all of them. */
module NterpFrame {

  const VREG_SIZE := 4
  const STACK_ALIGNMENT := 16

  datatype Isa = X86 | X86_64 | Arm | Arm64 | Riscv64

  function PointerSize(isa: Isa): (p: nat)
    ensures p == 4 || p == 8
  {
    if isa.X86? || isa.Arm? then 4 else 8
  }

  type U16 = n: nat | n < 0x1_0000

  /** `saved`: number of callee saves of the platform, the return address and, on x86, the argument
      registers included. */
  datatype Method = Method(registers: U16, outs: U16, saved: nat)

  function NumberOfOutRegs(m: Method, isa: Isa): U16 {
    if isa.X86? && m.outs < 3 then 3 else m.outs
  }

  /** The two pointer sizes and the stack alignment. */
  type Alignment = n: nat | n == 4 || n == 8 || n == 16 witness 4

  function RoundUp(x: nat, n: Alignment): nat {
    if n == 4 then (x + 3) / 4 * 4 else if n == 8 then (x + 7) / 8 * 8 else (x + 15) / 16 * 16
  }

  predicate Aligned(x: nat, n: Alignment) { if n == 4 then x % 4 == 0 else if n == 8 then x % 8 == 0 else x % 16 == 0 }

  function EntrySize(m: Method, isa: Isa): nat { m.saved * PointerSize(isa) }

  function FrameSizeWithoutPadding(m: Method, isa: Isa): nat {
    EntrySize(m, isa) + (m.registers * VREG_SIZE) * 2 + PointerSize(isa) + PointerSize(isa)
    + NumberOfOutRegs(m, isa) * VREG_SIZE + PointerSize(isa)
  }

  function FrameSize(m: Method, isa: Isa): nat { RoundUp(FrameSizeWithoutPadding(m, isa), STACK_ALIGNMENT) }

  // Offsets from the frame, which points at the method slot.

  function DexPcSlot(m: Method, isa: Isa): nat {
    PointerSize(isa) + RoundUp(NumberOfOutRegs(m, isa) * VREG_SIZE, PointerSize(isa))
  }

  function ReferenceArray(m: Method, isa: Isa): nat {
    PointerSize(isa) + RoundUp(NumberOfOutRegs(m, isa) * VREG_SIZE, PointerSize(isa))
    + PointerSize(isa) + PointerSize(isa)
  }

  function RegistersArray(m: Method, isa: Isa): nat { ReferenceArray(m, isa) + m.registers * VREG_SIZE }

  // ---------------------------------------------------------------- the layout

  /** A part of the frame: `from ..< end`. */
  datatype Part = Part(from: nat, end: nat)

  /** Method, out arguments with their padding, dex pc, caller's frame pointer, references, registers, callee saves. */
  function Parts(m: Method, isa: Isa): seq<Part> {
    var p := PointerSize(isa);
    var pc := DexPcSlot(m, isa);
    var refs := ReferenceArray(m, isa);
    var regs := RegistersArray(m, isa);
    var size := FrameSize(m, isa);
    [Part(0, p),
     Part(p, pc),
     Part(pc, pc + p),
     Part(pc + p, pc + 2 * p),
     Part(refs, refs + m.registers * VREG_SIZE),
     Part(regs, regs + m.registers * VREG_SIZE),
     Part(if size >= EntrySize(m, isa) then size - EntrySize(m, isa) else 0, size)]
  }

  lemma RoundUpBounds(x: nat, n: Alignment)
    ensures x <= RoundUp(x, n) < x + n && Aligned(RoundUp(x, n), n)
  {}

  /** The least multiple of `n` from `x` on is at most every other one. */
  lemma RoundUpLeast(x: nat, n: Alignment, y: nat)
    requires Aligned(y, n)
    ensures x <= y <==> RoundUp(x, n) <= y
  {
    RoundUpBounds(x, n);
    if x <= y { NextMultiple(RoundUp(x, n), y, n); }
  }

  lemma NextMultiple(a: nat, b: nat, n: Alignment)
    requires Aligned(a, n) && Aligned(b, n) && a < b + n
    ensures a <= b
  {}

  lemma AlignedSum(a: nat, b: nat, n: Alignment)
    requires Aligned(a, n) && Aligned(b, n)
    ensures Aligned(a + b, n)
  {
    hide Aligned;
    var i := Quotient(a, n);
    var j := Quotient(b, n);
    AlignedTimes(i + j, n);
    assert a + b == (i + j) * n;
  }

  lemma Quotient(a: nat, n: Alignment) returns (k: nat)
    requires Aligned(a, n)
    ensures if n == 4 then a == 4 * k else if n == 8 then a == 8 * k else a == 16 * k
  {
    k := if n == 4 then a / 4 else if n == 8 then a / 8 else a / 16;
  }

  lemma AlignedTimes(k: nat, n: Alignment)
    ensures Aligned(k * n, n)
  {
    if n == 4 { assert k * n == 4 * k; } else if n == 8 { assert k * n == 8 * k; } else { assert k * n == 16 * k; }
  }

  /** Everything below the callee saves fits under them, although only the sum is rounded: the parts
      themselves already add up to a multiple of the pointer size. */
  lemma RegistersFit(m: Method, isa: Isa)
    ensures var used := RegistersArray(m, isa) + m.registers * VREG_SIZE + EntrySize(m, isa);
            used <= FrameSize(m, isa) < used + 16
  {
    var p := PointerSize(isa);
    var outs := NumberOfOutRegs(m, isa) * VREG_SIZE;
    var total := FrameSizeWithoutPadding(m, isa);
    var used := RegistersArray(m, isa) + m.registers * VREG_SIZE + EntrySize(m, isa);
    RoundUpBounds(outs, p);
    RoundUpBounds(total, STACK_ALIGNMENT);
    UsedAligned(m, isa);
    hide RoundUp, Aligned;
    StackAligned(FrameSize(m, isa), p);
    NextMultiple(used, FrameSize(m, isa), p);
  }

  lemma StackAligned(x: nat, n: Alignment)
    requires Aligned(x, STACK_ALIGNMENT)
    ensures Aligned(x, n)
  {
    var k := Quotient(x, STACK_ALIGNMENT);
    if n == 4 { assert x == 4 * (4 * k); } else if n == 8 { assert x == 8 * (2 * k); }
  }

  lemma WordAligned(x: nat, n: Alignment)
    requires Aligned(x, n)
    ensures Aligned(x, VREG_SIZE)
  {}

  lemma UsedAligned(m: Method, isa: Isa)
    ensures Aligned(RegistersArray(m, isa) + m.registers * VREG_SIZE + EntrySize(m, isa), PointerSize(isa))
  {
    var p := PointerSize(isa);
    SlotsAligned(m, isa);
    hide RoundUp, Aligned;
    if p == 8 { AlignedTimes(m.registers, 8); } else { AlignedTimes(m.registers * 2, 4); }
    AlignedTimes(m.saved, p);
    AlignedSum(ReferenceArray(m, isa), m.registers * 8, p);
    AlignedSum(ReferenceArray(m, isa) + m.registers * 8, EntrySize(m, isa), p);
  }

  /** For every register and out count and both pointer sizes: the parts are in order, do not overlap,
      and end at the end of the frame. */
  lemma PartsDisjoint(m: Method, isa: Isa, i: nat, j: nat)
    requires i < j < 7
    ensures var parts := Parts(m, isa);
            parts[i].from <= parts[i].end <= parts[j].from <= parts[j].end <= FrameSize(m, isa)
    ensures Parts(m, isa)[6].end == FrameSize(m, isa) == Parts(m, isa)[6].from + EntrySize(m, isa)
  {
    RegistersFit(m, isa);
    RoundUpBounds(NumberOfOutRegs(m, isa) * VREG_SIZE, PointerSize(isa));
  }

  /** What each part has room for: a pointer, the out arguments (three at least on x86) with less than a
      pointer of padding, two pointers, a word for every register in each of the arrays, and the saves. */
  lemma PartSizes(m: Method, isa: Isa)
    ensures var size := (i: nat) requires i < 7 => Parts(m, isa)[i].end - Parts(m, isa)[i].from;
            var (p, outs) := (if isa in {X86, Arm} then 4 else 8, if isa == X86 && m.outs < 3 then 3 else m.outs);
            && size(0) == p && outs * 4 <= size(1) < outs * 4 + p && size(2) == p && size(3) == p
            && size(4) == m.registers * 4 && size(5) == m.registers * 4 && size(6) == m.saved * p
  {
    RegistersFit(m, isa);
    RoundUpBounds(NumberOfOutRegs(m, isa) * VREG_SIZE, PointerSize(isa));
  }

  lemma SlotsAligned(m: Method, isa: Isa)
    ensures var p := PointerSize(isa);
            && Aligned(DexPcSlot(m, isa), p) && Aligned(DexPcSlot(m, isa) + p, p) && Aligned(ReferenceArray(m, isa), p)
            && Aligned(RegistersArray(m, isa), VREG_SIZE) && Aligned(FrameSize(m, isa), STACK_ALIGNMENT)
  {
    var p := PointerSize(isa);
    RoundUpBounds(NumberOfOutRegs(m, isa) * VREG_SIZE, p);
    RoundUpBounds(FrameSizeWithoutPadding(m, isa), STACK_ALIGNMENT);
    hide RoundUp, FrameSizeWithoutPadding, Aligned;
    var outs := RoundUp(NumberOfOutRegs(m, isa) * VREG_SIZE, p);
    AlignedTimes(1, p);
    AlignedSum(p, outs, p);
    AlignedSum(p + outs, p, p);
    AlignedSum(p + outs + p, p, p);
    WordAligned(ReferenceArray(m, isa), p);
    AlignedTimes(m.registers, VREG_SIZE);
    AlignedSum(ReferenceArray(m, isa), m.registers * VREG_SIZE, VREG_SIZE);
  }

  /** Two dex registers, or a register and a reference, never share a byte. */
  lemma RegistersApart(m: Method, isa: Isa, v: U16, w: U16)
    requires v < m.registers && w < m.registers
    ensures var reg := (r: U16) => RegistersArray(m, isa) + r * VREG_SIZE;
            var reference := (r: U16) => ReferenceArray(m, isa) + r * VREG_SIZE;
            && (v != w ==> reg(v) + VREG_SIZE <= reg(w) || reg(w) + VREG_SIZE <= reg(v))
            && reference(v) + VREG_SIZE <= reg(w)
            && reg(v) + VREG_SIZE <= FrameSize(m, isa) - EntrySize(m, isa)
  {
    RegistersFit(m, isa);
  }

  /** The limit test of CanMethodUseNterp on the unpadded size is the test on the real size. */
  lemma LimitTestExact(m: Method, isa: Isa, maxFrame: nat)
    requires Aligned(maxFrame, STACK_ALIGNMENT)
    ensures FrameSizeWithoutPadding(m, isa) <= maxFrame <==> FrameSize(m, isa) <= maxFrame
  {
    RoundUpLeast(FrameSizeWithoutPadding(m, isa), STACK_ALIGNMENT, maxFrame);
  }
}
