/** Memory of ART's registry of generated-code ranges: list nodes addressed by pointer, the head of
    the live list and the head of the free list, with the individual writes that the fault manager
    performs on them. Both the sequential registry and the concurrent walk are built on these. */
module CodeRangeMemory {

  /** Size of the machine's address space: `uintptr_t` and `size_t` arithmetic is modulo this. */
  const ADDRESS_SPACE: nat := 0x1_0000_0000_0000_0000

  type Word = n: nat | n < ADDRESS_SPACE

  type Ref = nat

  datatype Link = Null | At(ref: Ref)

  datatype Range = Range(start: Word, size: Word)

  datatype Node = Node(next: Link, start: Word, size: Word) {
    function AsRange(): Range { Range(start, size) }
  }

  /** The array of `count` nodes embedded in the manager, at addresses `base ..< base + count`. */
  datatype Pool = Pool(base: Ref, count: nat) {
    predicate Owns(r: Ref) { base <= r < base + count }
  }

  datatype Memory = Memory(nodes: map<Ref, Node>, head: Link, free: Link) {
    function WithNext(n: Ref, next: Link): Memory
      requires n in nodes
    {
      this.(nodes := nodes[n := nodes[n].(next := next)])
    }
  }

  // ---------------------------------------------------------------- membership of a program counter

  /** The comparison the walk performs: one unsigned subtraction and one unsigned comparison. */
  predicate WrapTest(pc: Word, r: Range) {
    (pc - r.start) % ADDRESS_SPACE < r.size
  }

  /** The intended meaning: `pc` lies in the half-open interval of the range. */
  predicate Holds(r: Range, pc: Word) {
    r.start <= pc < r.start + r.size
  }

  predicate NonWrapping(r: Range) {
    r.start + r.size <= ADDRESS_SPACE
  }

  /** The single comparison answers interval membership for every pc exactly when the range does
      not wrap around the end of the address space. */
  lemma WrapTestIsMembership(r: Range)
    ensures NonWrapping(r) <==> forall pc: Word :: WrapTest(pc, r) == Holds(r, pc)
  {
    if NonWrapping(r) {
      forall pc: Word
        ensures WrapTest(pc, r) == Holds(r, pc)
      {
        assert pc < r.start ==> (pc - r.start) % ADDRESS_SPACE == pc - r.start + ADDRESS_SPACE;
      }
    } else {
      var origin: Word := 0;
      assert (origin - r.start) % ADDRESS_SPACE == ADDRESS_SPACE - r.start;
      assert WrapTest(origin, r) && !Holds(r, origin);
    }
  }

  // ---------------------------------------------------------------- list shape

  function LinkAt(refs: seq<Ref>, i: nat): Link {
    if i < |refs| then At(refs[i]) else Null
  }

  ghost predicate NoDup(refs: seq<Ref>) {
    forall i, j | 0 <= i < j < |refs| :: refs[i] != refs[j]
  }

  /** Following `next` from `first` yields exactly `refs`. */
  ghost predicate Chain(nodes: map<Ref, Node>, first: Link, refs: seq<Ref>) {
    && first == LinkAt(refs, 0)
    && (forall i | 0 <= i < |refs| :: refs[i] in nodes)
    && forall i {:trigger nodes[refs[i]]} | 0 <= i < |refs| :: nodes[refs[i]].next == LinkAt(refs, i + 1)
  }

  function Without(refs: seq<Ref>, i: nat): seq<Ref>
    requires i < |refs|
  {
    refs[..i] + refs[i + 1..]
  }

  ghost function Elems(refs: seq<Ref>): set<Ref> { set r | r in refs }

  lemma WithoutElems(refs: seq<Ref>, i: nat)
    requires i < |refs| && NoDup(refs)
    ensures NoDup(Without(refs, i))
    ensures Elems(Without(refs, i)) == Elems(refs) - {refs[i]}
  {
    var w := Without(refs, i);
    forall r
      ensures r in w <==> r in refs && r != refs[i]
    {
      if r in refs && r != refs[i] {
        var k :| 0 <= k < |refs| && refs[k] == r;
        assert w[if k < i then k else k - 1] == r;
      }
    }
  }

  /** The node a removal finds: the first one, hence the most recently added, with this start. */
  function FirstWithStart(nodes: map<Ref, Node>, refs: seq<Ref>, start: Word): (i: nat)
    ensures i <= |refs|
    ensures forall k | 0 <= k < i :: !(refs[k] in nodes && nodes[refs[k]].start == start)
    ensures i < |refs| ==> refs[i] in nodes && nodes[refs[i]].start == start
  {
    if refs == [] then 0
    else if refs[0] in nodes && nodes[refs[0]].start == start then 0
    else
      var i := FirstWithStart(nodes, refs[1..], start);
      assert forall k | 0 < k < i + 1 :: refs[k] == refs[1..][k - 1];
      i + 1
  }

  // ---------------------------------------------------------------- the individual writes

  /** CreateGeneratedCodeRange: take the first free pool node, or else a new heap node at `heapRef`. */
  function CreatedRef(m: Memory, heapRef: Ref): Ref {
    if m.free.At? then m.free.ref else heapRef
  }

  function Created(m: Memory, r: Range, heapRef: Ref): Memory
    requires m.free.At? ==> m.free.ref in m.nodes
  {
    var n := CreatedRef(m, heapRef);
    m.(nodes := m.nodes[n := Node(Null, r.start, r.size)],
       free := if m.free.At? then m.nodes[m.free.ref].next else Null)
  }

  function LinkedToHead(m: Memory, n: Ref): Memory
    requires n in m.nodes
  {
    m.WithNext(n, m.head)
  }

  function Published(m: Memory, n: Ref): Memory { m.(head := At(n)) }

  /** The single store of a removal: the link before `n` is set to the link after it. The removed
      node keeps its own `next`. `before` is `Null` when `n` is first. */
  function Unlinked(m: Memory, before: Link, n: Ref): Memory
    requires n in m.nodes && (before.At? ==> before.ref in m.nodes)
  {
    if before.Null? then m.(head := m.nodes[n].next)
    else m.WithNext(before.ref, m.nodes[n].next)
  }

  function Cleared(m: Memory, n: Ref): Memory
    requires n in m.nodes
  {
    m.(nodes := m.nodes[n := m.nodes[n].(start := 0, size := 0)])
  }

  function LinkedToFree(m: Memory, n: Ref): Memory
    requires n in m.nodes
  {
    m.WithNext(n, m.free)
  }

  function PushedFree(m: Memory, n: Ref): Memory { m.(free := At(n)) }

  function Deleted(m: Memory, n: Ref): Memory { m.(nodes := m.nodes - {n}) }

  // ---------------------------------------------------------------- effect of the writes on chains

  lemma ChainFrame(nodes: map<Ref, Node>, nodes': map<Ref, Node>, first: Link, refs: seq<Ref>)
    requires Chain(nodes, first, refs)
    requires forall r | r in refs :: r in nodes' && nodes'[r].next == nodes[r].next
    ensures Chain(nodes', first, refs)
  {}

  lemma PrependChain(nodes: map<Ref, Node>, first: Link, refs: seq<Ref>, n: Ref)
    requires Chain(nodes, first, refs) && n in nodes && nodes[n].next == first
    ensures Chain(nodes, At(n), [n] + refs)
  {
    var all := [n] + refs;
    forall i | 0 <= i < |all|
      ensures all[i] in nodes && nodes[all[i]].next == LinkAt(all, i + 1)
    {
      if i > 0 { assert all[i] == refs[i - 1]; }
    }
  }

  lemma TailChain(nodes: map<Ref, Node>, first: Link, refs: seq<Ref>)
    requires Chain(nodes, first, refs) && refs != []
    ensures Chain(nodes, nodes[refs[0]].next, refs[1..])
  {}

  lemma UnlinkChain(m: Memory, refs: seq<Ref>, i: nat)
    requires Chain(m.nodes, m.head, refs) && NoDup(refs) && i < |refs|
    ensures var before := if i == 0 then Null else At(refs[i - 1]);
            var m' := Unlinked(m, before, refs[i]);
            Chain(m'.nodes, m'.head, Without(refs, i))
  {
    var before := if i == 0 then Null else At(refs[i - 1]);
    var m' := Unlinked(m, before, refs[i]);
    var w := Without(refs, i);
    forall k | 0 <= k < |w|
      ensures w[k] in m'.nodes && m'.nodes[w[k]].next == LinkAt(w, k + 1)
    {
      var k0 := if k < i then k else k + 1;
      assert w[k] == refs[k0];
      assert m.nodes[refs[k0]].next == LinkAt(refs, k0 + 1) && m.nodes[refs[i]].next == LinkAt(refs, i + 1);
      if k + 1 < |w| { assert w[k + 1] == refs[if k + 1 < i then k + 1 else k + 2]; }
    }
  }
}
