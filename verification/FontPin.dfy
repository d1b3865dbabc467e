/** Interposed mmap and munmap that keep font files mapped: a table of pinned ranges, a byte-wise overlap
    test in 64-bit arithmetic, and a kernel that maps whole pages. */
module FontPin {

  datatype Option<+T> = None | Some(value: T)

  const PAGE := 4096
  const MAX_PINNED := 512
  const SPACE: nat := 0x1_0000_0000_0000_0000

  type Word = n: nat | n < SPACE

  datatype Range = Range(addr: Word, len: Word)

  // ---------------------------------------------------------------- the kernel

  /** The page after the last one of a byte range. */
  function EndPage(addr: Word, len: Word): nat { (addr + len + PAGE - 1) / PAGE }

  predicate OnPage(addr: Word, len: Word, page: nat) { addr / PAGE <= page < EndPage(addr, len) }

  predicate Fits(addr: Word, len: Word) { addr % PAGE == 0 && 0 < len && addr + len <= SPACE - PAGE }

  function Pages(addr: Word, len: Word): set<nat> {
    set page | addr / PAGE <= page < EndPage(addr, len) && OnPage(addr, len, page)
  }

  /** munmap proper: unaligned, empty and wrapping ranges are errors. */
  function KernelUnmap(mapped: set<nat>, addr: Word, len: Word): (set<nat>, int) {
    if Fits(addr, len) then (mapped - Pages(addr, len), 0) else (mapped, -1)
  }

  // ---------------------------------------------------------------- the shim

  /** The test: pointer sums wrap. */
  predicate Touches(r: Range, addr: Word, len: Word) {
    addr < (r.addr + r.len) % SPACE && r.addr < (addr + len) % SPACE
  }

  ghost predicate TouchesAny(pinned: seq<Range>, addr: Word, len: Word) {
    exists i | 0 <= i < |pinned| :: Touches(pinned[i], addr, len)
  }

  ghost function Unmapped(pinned: seq<Range>, mapped: set<nat>, addr: Word, len: Word): (set<nat>, int) {
    if TouchesAny(pinned, addr, len) then (mapped, 0) else KernelUnmap(mapped, addr, len)
  }

  /** `fonts`: every font mapping ever made, in order. The table has the first 512. */
  datatype State = State(pinned: seq<Range>, mapped: set<nat>, fonts: seq<Range>)

  const START := State([], {}, [])

  datatype Op =
    | Mmap(result: Option<Word>, len: Word, font: bool)
    | Munmap(addr: Word, len: Word)

  /** A mapping that succeeds is at an aligned place where nothing is mapped: no fixed-address remaps. */
  predicate Enabled(s: State, op: Op) {
    op.Mmap? && op.result.Some? ==> Fits(op.result.value, op.len) && Pages(op.result.value, op.len) !! s.mapped
  }

  function Pinned(s: State, r: Range): State {
    s.(pinned := if |s.pinned| < MAX_PINNED then s.pinned + [r] else s.pinned, fonts := s.fonts + [r])
  }

  ghost function Apply(s: State, op: Op): State {
    match op
    case Mmap(None, _, _) => s
    case Mmap(Some(a), len, font) =>
      var s1 := s.(mapped := s.mapped + Pages(a, len));
      if font then Pinned(s1, Range(a, len)) else s1
    case Munmap(addr, len) => s.(mapped := Unmapped(s.pinned, s.mapped, addr, len).0)
  }

  ghost predicate Run(states: seq<State>, ops: seq<Op>) {
    && |states| == |ops| + 1 && states[0] == START
    && forall i {:trigger ops[i]} | 0 <= i < |ops| ::
         Enabled(states[i], ops[i]) && states[i + 1] == Apply(states[i], ops[i])
  }

  // ---------------------------------------------------------------- bytes against pages

  lemma PageBounds(addr: Word, len: Word)
    requires Fits(addr, len)
    ensures addr == addr / PAGE * PAGE && addr + len <= EndPage(addr, len) * PAGE < addr + len + PAGE
    ensures addr / PAGE < EndPage(addr, len)
  {
    var n := addr + len + PAGE - 1;
    assert n == n / PAGE * PAGE + n % PAGE;
  }

  /** The pages of a range are those that its bytes are on. */
  lemma PagesOfBytes(addr: Word, len: Word, page: nat)
    requires Fits(addr, len)
    ensures page in Pages(addr, len) <==> exists i: nat | addr <= i < addr + len :: i / 4096 == page
  {
    PageBounds(addr, len);
    var last: nat := addr + len - 1;
    if page in Pages(addr, len) {
      var i := if page * PAGE <= addr then addr else page * PAGE;
      assert addr <= i < addr + len && i / PAGE == page;
    }
    if i: nat :| addr <= i < addr + len && i / PAGE == page {
      assert i == i / PAGE * PAGE + i % PAGE;
    }
  }

  /** The byte-wise test is page-wise overlap, for ranges that the kernel accepts. */
  lemma OverlapIsPageOverlap(r: Range, addr: Word, len: Word)
    requires Fits(r.addr, r.len) && Fits(addr, len)
    ensures Touches(r, addr, len) <==> Pages(r.addr, r.len) * Pages(addr, len) != {}
  {
    PageBounds(r.addr, r.len);
    PageBounds(addr, len);
    var a, b := r.addr / PAGE, addr / PAGE;
    var ae, be := EndPage(r.addr, r.len), EndPage(addr, len);
    hide EndPage;
    assert (r.addr + r.len) % SPACE == r.addr + r.len && (addr + len) % SPACE == addr + len;
    assert addr < r.addr + r.len <==> b < ae;
    assert r.addr < addr + len <==> a < be;
    var common := Pages(r.addr, r.len) * Pages(addr, len);
    if b < ae && a < be {
      assert (if a < b then b else a) in common;
    } else {
      assert forall page :: page !in common;
    }
  }

  // ---------------------------------------------------------------- the results

  ghost predicate RangeMapped(s: State, r: Range) { Fits(r.addr, r.len) && Pages(r.addr, r.len) <= s.mapped }

  ghost predicate Inv(s: State) {
    && |s.pinned| == (if |s.fonts| < MAX_PINNED then |s.fonts| else MAX_PINNED)
    && s.pinned == s.fonts[..|s.pinned|]
    && forall i | 0 <= i < |s.pinned| :: RangeMapped(s, s.pinned[i])
  }

  /** An unmap leaves every pinned page alone, whatever its arguments: it is refused, or the kernel
      rejects it, or it misses them. */
  lemma UnmapKeepsPinned(s: State, addr: Word, len: Word, i: nat)
    requires i < |s.pinned| && RangeMapped(s, s.pinned[i])
    ensures RangeMapped(Apply(s, Munmap(addr, len)), s.pinned[i])
  {
    if !TouchesAny(s.pinned, addr, len) && Fits(addr, len) {
      assert !Touches(s.pinned[i], addr, len);
      OverlapIsPageOverlap(s.pinned[i], addr, len);
      hide Pages;
      var kept, gone := Pages(s.pinned[i].addr, s.pinned[i].len), Pages(addr, len);
      forall page | page in kept ensures page !in gone { assert page in gone ==> page in kept * gone; }
    }
  }

  lemma InvStep(s: State, op: Op)
    requires Inv(s) && Enabled(s, op)
    ensures Inv(Apply(s, op))
  {
    hide Pages, TouchesAny;
    var s' := Apply(s, op);
    if op.Munmap? {
      forall i | 0 <= i < |s'.pinned| ensures RangeMapped(s', s'.pinned[i]) { UnmapKeepsPinned(s, op.addr, op.len, i); }
    } else if op.result.Some? {
      forall i | 0 <= i < |s'.pinned| ensures RangeMapped(s', s'.pinned[i]) {
        if i < |s.pinned| { assert RangeMapped(s, s.pinned[i]); }
      }
    }
  }

  lemma {:induction false} RunInv(states: seq<State>, ops: seq<Op>, n: nat)
    requires Run(states, ops) && n < |states|
    ensures Inv(states[n])
  {
    if n == 0 {
    } else {
      RunInv(states, ops, n - 1);
      hide Inv, Enabled, Apply;
      var op := ops[n - 1];
      assert states[n] == Apply(states[n - 1], op);
      InvStep(states[n - 1], op);
    }
  }

  /** The font files that have been mapped, by the calls alone. */
  function Fonts(ops: seq<Op>): seq<Range> {
    if ops == [] then []
    else
      match ops[|ops| - 1]
      case Mmap(Some(a), len, true) => Fonts(ops[..|ops| - 1]) + [Range(a, len)]
      case _ => Fonts(ops[..|ops| - 1])
  }

  lemma {:induction false} FontsRecorded(states: seq<State>, ops: seq<Op>, n: nat)
    requires Run(states, ops) && n < |states|
    ensures states[n].fonts == Fonts(ops[..n])
  {
    if n == 0 {
    } else {
      FontsRecorded(states, ops, n - 1);
      assert ops[..n][..n - 1] == ops[..n - 1] && states[n] == Apply(states[n - 1], ops[n - 1]);
      hide Unmapped, Pages;
    }
  }

  lemma {:induction false} FontsGrow(ops: seq<Op>, k: nat, n: nat)
    requires k <= n <= |ops|
    ensures Fonts(ops[..k]) <= Fonts(ops[..n])
    decreases n
  {
    if k == n {
    } else {
      FontsGrow(ops, k, n - 1);
      assert ops[..n][..n - 1] == ops[..n - 1];
    }
  }

  /** Over every run, all pages of the first 512 font files that were mapped stay mapped for ever. */
  lemma FontsStayMapped(states: seq<State>, ops: seq<Op>, k: nat, n: nat)
    requires Run(states, ops) && k < n < |states| && |Fonts(ops[..k])| < 512
    requires ops[k].Mmap? && ops[k].result.Some? && ops[k].font
    ensures Pages(ops[k].result.value, ops[k].len) <= states[n].mapped
  {
    RunInv(states, ops, n);
    FontsRecorded(states, ops, n);
    FontsGrow(ops, k + 1, n);
    assert ops[..k + 1][..k] == ops[..k];
    var i := |Fonts(ops[..k])|;
    assert Fonts(ops[..n])[i] == Range(ops[k].result.value, ops[k].len);
    assert RangeMapped(states[n], states[n].pinned[i]);
  }

  /** An unmap of a proper range is swallowed, as a success, exactly if it shares a page with a pinned
      mapping; otherwise it is the kernel's unmap, result and all. */
  lemma UnrelatedUnmapsPass(states: seq<State>, ops: seq<Op>, n: nat, addr: Word, len: Word)
    requires Run(states, ops) && n < |states| && Fits(addr, len)
    ensures var s := states[n];
            var shared := exists i :: 0 <= i < |s.pinned|
                                      && Pages(s.pinned[i].addr, s.pinned[i].len) * Pages(addr, len) != {};
            Unmapped(s.pinned, s.mapped, addr, len) ==
            if shared then (s.mapped, 0) else (s.mapped - Pages(addr, len), 0)
  {
    RunInv(states, ops, n);
    var s := states[n];
    forall i | 0 <= i < |s.pinned|
      ensures Touches(s.pinned[i], addr, len) <==> Pages(s.pinned[i].addr, s.pinned[i].len) * Pages(addr, len) != {}
    {
      assert RangeMapped(s, s.pinned[i]);
      OverlapIsPageOverlap(s.pinned[i], addr, len);
    }
    hide Pages, Touches, Inv;
  }

  /** The bound is real: with a full table, a further font mapping is unmapped like any other. */
  lemma LaterFontsUnpinned(s: State, r: Range)
    requires Inv(s) && |s.pinned| == 512 && Enabled(s, Mmap(Some(r.addr), r.len, true))
    ensures var s' := Apply(Apply(s, Mmap(Some(r.addr), r.len, true)), Munmap(r.addr, r.len));
            s'.mapped == s.mapped && s'.fonts == s.fonts + [r]
  {
    var s1 := Apply(s, Mmap(Some(r.addr), r.len, true));
    assert Fits(r.addr, r.len);
    forall i | 0 <= i < |s.pinned| ensures !Touches(s.pinned[i], r.addr, r.len) {
      assert RangeMapped(s, s.pinned[i]);
      OverlapIsPageOverlap(s.pinned[i], r.addr, r.len);
    }
    hide Touches, Pages;
    assert !TouchesAny(s1.pinned, r.addr, r.len);
  }

  // ---------------------------------------------------------------- the code

  class PinTable {
    const slots: array<Range>
    var count: nat
    var mapped: set<nat>

    ghost predicate Valid() reads this { slots.Length == MAX_PINNED && count <= MAX_PINNED }

    ghost function Table(): seq<Range> reads this, slots requires Valid() { slots[..count] }

    constructor ()
      ensures Valid() && Table() == [] && mapped == {}
    {
      slots := new Range[MAX_PINNED](_ => Range(0, 0));
      count := 0;
      mapped := {};
    }

    /** `result` is what the real mmap returned. */
    method MapPages(result: Option<Word>, len: Word, font: bool)
      requires Valid()
      modifies this, slots
      ensures Valid()
      ensures forall fonts ::
                var s := Apply(State(old(Table()), old(mapped), fonts), Mmap(result, len, font));
                Table() == s.pinned && mapped == s.mapped
    {
      if result.None? { return; }
      mapped := mapped + Pages(result.value, len);
      if font && count < MAX_PINNED {
        slots[count] := Range(result.value, len);
        count := count + 1;
        assert slots[..count] == old(slots[..count]) + [Range(result.value, len)];
      }
    }

    method UnmapPages(addr: Word, len: Word) returns (rc: int)
      requires Valid()
      modifies this`mapped
      ensures Valid() && Table() == old(Table())
      ensures (mapped, rc) == Unmapped(old(Table()), old(mapped), addr, len)
    {
      for i := 0 to count
        invariant mapped == old(mapped)
        invariant forall k | 0 <= k < i :: !Touches(slots[k], addr, len)
      {
        if Touches(slots[i], addr, len) {
          assert Touches(Table()[i], addr, len);
          return 0;
        }
      }
      if Fits(addr, len) {
        mapped := mapped - Pages(addr, len);
        rc := 0;
      } else {
        rc := -1;
      }
    }
  }
}
