/** The registry as a single thread uses it: FaultManager's pool setup, add, remove, lookup and
    shutdown, each proved against a multiset of registered ranges. */
module CodeRangeRegistry {
  import opened CodeRangeMemory

  /** How RemoveGeneratedCodeRange ends; the last two are failed CHECKs, which abort the process. */
  datatype RemoveOutcome = Removed | NoSuchRange | WrongSize

  // ---------------------------------------------------------------- shape and contents

  /** Between two calls: two disjoint chains hold all nodes, only pool nodes are free. */
  ghost predicate Shape(pool: Pool, m: Memory, live: seq<Ref>, freeList: seq<Ref>) {
    && Chain(m.nodes, m.head, live) && NoDup(live)
    && Chain(m.nodes, m.free, freeList) && NoDup(freeList)
    && (forall r | r in freeList :: pool.Owns(r))
    && Elems(live) !! Elems(freeList)
    && m.nodes.Keys == Elems(live) + Elems(freeList)
    && (forall r | pool.Owns(r) :: r in m.nodes)
  }

  ghost function RangesOf(nodes: map<Ref, Node>, refs: seq<Ref>): (rs: seq<Range>)
    requires forall r | r in refs :: r in nodes
    ensures |rs| == |refs|
  {
    seq(|refs|, i requires 0 <= i < |refs| => nodes[refs[i]].AsRange())
  }

  /** The ranges registered now, with multiplicity. */
  ghost function ContentsOf(nodes: map<Ref, Node>, refs: seq<Ref>): multiset<Range>
    requires forall r | r in refs :: r in nodes
  {
    multiset(RangesOf(nodes, refs))
  }

  lemma InContents(nodes: map<Ref, Node>, refs: seq<Ref>, q: Range)
    requires forall r | r in refs :: r in nodes
    ensures q in ContentsOf(nodes, refs) <==> exists k :: 0 <= k < |refs| && nodes[refs[k]].AsRange() == q
  {
    var rs := RangesOf(nodes, refs);
    if k :| 0 <= k < |refs| && nodes[refs[k]].AsRange() == q {
      assert rs[k] == q;
    }
  }

  lemma NoneInContents(nodes: map<Ref, Node>, refs: seq<Ref>, start: Word)
    requires forall r | r in refs :: r in nodes
    requires forall k | 0 <= k < |refs| :: nodes[refs[k]].start != start
    ensures forall q | q in ContentsOf(nodes, refs) :: q.start != start
  {
    forall q | q in ContentsOf(nodes, refs)
      ensures q.start != start
    {
      InContents(nodes, refs, q);
    }
  }

  function Dropped(rs: seq<Range>, i: nat): seq<Range>
    requires i < |rs|
  {
    rs[..i] + rs[i + 1..]
  }

  lemma ContentsFrame(nodes: map<Ref, Node>, nodes': map<Ref, Node>, refs: seq<Ref>)
    requires forall r | r in refs :: r in nodes && r in nodes' && nodes'[r].AsRange() == nodes[r].AsRange()
    ensures RangesOf(nodes', refs) == RangesOf(nodes, refs) && ContentsOf(nodes', refs) == ContentsOf(nodes, refs)
  {
    assert RangesOf(nodes', refs) == RangesOf(nodes, refs);
  }

  lemma ContentsPrepend(nodes: map<Ref, Node>, refs: seq<Ref>, n: Ref)
    requires n in nodes && forall r | r in refs :: r in nodes
    ensures forall r | r in [n] + refs :: r in nodes
    ensures RangesOf(nodes, [n] + refs) == [nodes[n].AsRange()] + RangesOf(nodes, refs)
    ensures ContentsOf(nodes, [n] + refs) == ContentsOf(nodes, refs) + multiset{nodes[n].AsRange()}
  {
    assert RangesOf(nodes, [n] + refs) == [nodes[n].AsRange()] + RangesOf(nodes, refs);
  }

  lemma ContentsWithout(nodes: map<Ref, Node>, refs: seq<Ref>, i: nat)
    requires i < |refs| && forall r | r in refs :: r in nodes
    ensures forall r | r in Without(refs, i) :: r in nodes
    ensures RangesOf(nodes, Without(refs, i)) == Dropped(RangesOf(nodes, refs), i)
    ensures ContentsOf(nodes, Without(refs, i)) == ContentsOf(nodes, refs) - multiset{nodes[refs[i]].AsRange()}
  {
    var all := RangesOf(nodes, refs);
    assert forall r | r in Without(refs, i) :: r in refs;
    assert RangesOf(nodes, Without(refs, i)) == Dropped(all, i);
    DroppedOne(all, i);
  }

  lemma DroppedOne(rs: seq<Range>, i: nat)
    requires i < |rs|
    ensures multiset(Dropped(rs, i)) == multiset(rs) - multiset{rs[i]}
  {
    assert rs == rs[..i] + [rs[i]] + rs[i + 1..];
  }

  // ---------------------------------------------------------------- the operations as memory functions

  function Added(m: Memory, r: Range, heapRef: Ref): Memory
    requires m.free.At? ==> m.free.ref in m.nodes
  {
    var n := CreatedRef(m, heapRef);
    Published(LinkedToHead(Created(m, r, heapRef), n), n)
  }

  function RestOf(refs: seq<Ref>): seq<Ref> { if refs == [] then [] else refs[1..] }

  function Recycled(pool: Pool, m: Memory, n: Ref): Memory
    requires n in m.nodes
  {
    if pool.Owns(n) then PushedFree(LinkedToFree(Cleared(m, n), n), n) else Deleted(m, n)
  }

  lemma ShapeHeads(pool: Pool, m: Memory, live: seq<Ref>, freeList: seq<Ref>)
    requires Shape(pool, m, live, freeList)
    ensures forall r | r in live || r in freeList :: r in m.nodes
    ensures forall r | r in live :: r !in freeList
    ensures m.free == LinkAt(freeList, 0) && (m.free.At? ==> m.free.ref in m.nodes)
  {
    assert forall r | r in live :: r in Elems(live);
    assert forall r | r in freeList :: r in Elems(freeList);
  }

  lemma FreeAdded(pool: Pool, m: Memory, live: seq<Ref>, freeList: seq<Ref>, r: Range, heapRef: Ref)
    requires Shape(pool, m, live, freeList) && heapRef !in m.nodes
    ensures m.free.At? ==> m.free.ref in m.nodes
    ensures var m' := Added(m, r, heapRef); var rest := RestOf(freeList); var n := CreatedRef(m, heapRef);
            && Chain(m'.nodes, m'.free, rest) && NoDup(rest) && n !in live && n !in rest
            && Elems(freeList) == Elems(rest) + (if freeList == [] then {} else {n})
  {
    ShapeHeads(pool, m, live, freeList);
    if freeList != [] {
      TailChain(m.nodes, m.free, freeList);
      ChainFrame(m.nodes, Added(m, r, heapRef).nodes, m.nodes[freeList[0]].next, freeList[1..]);
      assert Elems(freeList) == {freeList[0]} + Elems(freeList[1..]);
    }
  }

  lemma ShapeAdded(pool: Pool, m: Memory, live: seq<Ref>, freeList: seq<Ref>, r: Range, heapRef: Ref)
    requires Shape(pool, m, live, freeList) && heapRef !in m.nodes
    ensures m.free.At? ==> m.free.ref in m.nodes
    ensures Shape(pool, Added(m, r, heapRef), [CreatedRef(m, heapRef)] + live, RestOf(freeList))
  {
    ShapeHeads(pool, m, live, freeList);
    FreeAdded(pool, m, live, freeList, r, heapRef);
    var n := CreatedRef(m, heapRef);
    var m' := Added(m, r, heapRef);
    ChainFrame(m.nodes, m'.nodes, m.head, live);
    PrependChain(m'.nodes, m.head, live, n);
    assert Elems([n] + live) == {n} + Elems(live);
    assert m'.nodes.Keys == m.nodes.Keys + {n};
  }

  lemma ContentsAdded(pool: Pool, m: Memory, live: seq<Ref>, freeList: seq<Ref>, r: Range, heapRef: Ref)
    requires Shape(pool, m, live, freeList) && heapRef !in m.nodes
    ensures m.free.At? ==> m.free.ref in m.nodes
    ensures var refs := [CreatedRef(m, heapRef)] + live; var nodes' := Added(m, r, heapRef).nodes;
            && (forall x | x in refs :: x in nodes') && (forall x | x in live :: x in m.nodes)
            && RangesOf(nodes', refs) == [r] + RangesOf(m.nodes, live)
            && ContentsOf(nodes', refs) == ContentsOf(m.nodes, live) + multiset{r}
  {
    ShapeHeads(pool, m, live, freeList);
    var n := CreatedRef(m, heapRef);
    var m' := Added(m, r, heapRef);
    ContentsFrame(m.nodes, m'.nodes, live);
    ContentsPrepend(m'.nodes, live, n);
  }

  function Before(live: seq<Ref>, i: nat): Link
    requires i < |live|
  {
    if i == 0 then Null else At(live[i - 1])
  }

  lemma ShapeUnlinked(pool: Pool, m: Memory, live: seq<Ref>, freeList: seq<Ref>, i: nat)
    requires Shape(pool, m, live, freeList) && i < |live|
    ensures var m' := Unlinked(m, Before(live, i), live[i]);
            && Chain(m'.nodes, m'.head, Without(live, i)) && NoDup(Without(live, i))
            && Elems(Without(live, i)) == Elems(live) - {live[i]}
            && Chain(m'.nodes, m'.free, freeList) && m'.nodes.Keys == m.nodes.Keys
            && forall q | q in m.nodes :: m'.nodes[q].AsRange() == m.nodes[q].AsRange()
  {
    ShapeHeads(pool, m, live, freeList);
    UnlinkChain(m, live, i);
    WithoutElems(live, i);
    ChainFrame(m.nodes, Unlinked(m, Before(live, i), live[i]).nodes, m.free, freeList);
  }

  /** Two chains that do not hold `n` survive writes that leave the links of all other nodes alone. */
  lemma ChainsKept(m: Memory, nodes': map<Ref, Node>, live: seq<Ref>, freeList: seq<Ref>, n: Ref)
    requires Chain(m.nodes, m.head, live) && Chain(m.nodes, m.free, freeList) && n !in live && n !in freeList
    requires forall r | r in m.nodes && r != n :: r in nodes' && nodes'[r].next == m.nodes[r].next
    ensures Chain(nodes', m.head, live) && Chain(nodes', m.free, freeList)
  {
    ChainFrame(m.nodes, nodes', m.head, live);
    ChainFrame(m.nodes, nodes', m.free, freeList);
  }

  lemma ShapeRecycled(pool: Pool, m: Memory, live: seq<Ref>, freeList: seq<Ref>, n: Ref)
    requires Chain(m.nodes, m.head, live) && NoDup(live) && Chain(m.nodes, m.free, freeList) && NoDup(freeList)
    requires (forall r | r in freeList :: pool.Owns(r)) && (forall r | pool.Owns(r) :: r in m.nodes)
    requires Elems(live) !! Elems(freeList) && n !in live && n !in freeList
    requires m.nodes.Keys == Elems(live) + Elems(freeList) + {n}
    ensures Shape(pool, Recycled(pool, m, n), live, if pool.Owns(n) then [n] + freeList else freeList)
  {
    hide Chain, Recycled, NoDup;
    var m' := Recycled(pool, m, n);
    RecycledNodes(pool, m, n);
    ChainsKept(m, m'.nodes, live, freeList, n);
    assert n !in Elems(live) && n !in Elems(freeList);
    hide Elems;
    if pool.Owns(n) {
      PrependChain(m'.nodes, m.free, freeList, n);
      PrependElems(n, freeList);
    }
  }

  lemma RecycledNodes(pool: Pool, m: Memory, n: Ref)
    requires n in m.nodes
    ensures var m' := Recycled(pool, m, n);
            && m'.head == m.head
            && (forall r | r in m.nodes && r != n :: r in m'.nodes && m'.nodes[r].next == m.nodes[r].next)
            && if pool.Owns(n) then m'.nodes.Keys == m.nodes.Keys && m'.free == At(n) && m'.nodes[n].next == m.free
               else m'.nodes.Keys == m.nodes.Keys - {n} && m'.free == m.free
  {}

  lemma PrependElems(n: Ref, refs: seq<Ref>)
    requires NoDup(refs) && n !in refs
    ensures Elems([n] + refs) == {n} + Elems(refs) && NoDup([n] + refs)
  {}

  /** Unlinking a node and recycling it restores the shape without it. */
  lemma ShapeRemoved(pool: Pool, m: Memory, live: seq<Ref>, freeList: seq<Ref>, i: nat)
    requires Shape(pool, m, live, freeList) && i < |live|
    ensures var n := live[i]; var m' := Unlinked(m, Before(live, i), n);
            && n in m'.nodes
            && Shape(pool, Recycled(pool, m', n), Without(live, i), if pool.Owns(n) then [n] + freeList else freeList)
  {
    var n, rest := live[i], Without(live, i);
    ShapeHeads(pool, m, live, freeList);
    ShapeUnlinked(pool, m, live, freeList, i);
    assert n in Elems(live) && n !in Elems(rest) && n !in Elems(freeList);
    assert n !in rest && n !in freeList;
    ShapeRecycled(pool, Unlinked(m, Before(live, i), n), rest, freeList, n);
  }

  lemma ContentsRemoved(pool: Pool, m: Memory, live: seq<Ref>, freeList: seq<Ref>, i: nat)
    requires Shape(pool, m, live, freeList) && i < |live|
    ensures var n := live[i]; var m' := Unlinked(m, Before(live, i), n);
            && n in m'.nodes
            && var m'' := Recycled(pool, m', n);
            && (forall r | r in Without(live, i) :: r in m''.nodes) && (forall r | r in live :: r in m.nodes)
            && RangesOf(m''.nodes, Without(live, i)) == Dropped(RangesOf(m.nodes, live), i)
            && ContentsOf(m''.nodes, Without(live, i)) == ContentsOf(m.nodes, live) - multiset{m.nodes[n].AsRange()}
  {
    ShapeHeads(pool, m, live, freeList);
    ShapeUnlinked(pool, m, live, freeList, i);
    WithoutElems(live, i);
    assert forall r | r in Without(live, i) :: r in Elems(Without(live, i));
    ContentsWithout(m.nodes, live, i);
    ContentsFrame(m.nodes, Recycled(pool, Unlinked(m, Before(live, i), live[i]), live[i]).nodes, Without(live, i));
  }

  function PoolNext(pool: Pool, k: nat): Link { if k + 1 != pool.count then At(pool.base + k + 1) else Null }

  lemma PoolShape(pool: Pool, nodes: map<Ref, Node>, refs: seq<Ref>)
    requires |refs| == pool.count && forall k | 0 <= k < pool.count :: refs[k] == pool.base + k
    requires forall r: Ref :: r in nodes <==> pool.Owns(r)
    requires forall k | 0 <= k < pool.count ::
               refs[k] in nodes && nodes[refs[k]] == Node(PoolNext(pool, k), 0, 0)
    ensures Shape(pool, Memory(nodes, Null, if pool.count == 0 then Null else At(pool.base)), [], refs)
    ensures ContentsOf(nodes, []) == multiset{}
  {
    assert forall r: Ref | pool.Owns(r) :: refs[r - pool.base] == r;
    assert nodes.Keys == Elems(refs);
  }

  // ---------------------------------------------------------------- the simple form: a list of ranges

  /** Index of the most recently added range with this start, or the length if there is none. */
  function FirstStart(rs: seq<Range>, start: Word): (i: nat)
    ensures i <= |rs|
  {
    if rs == [] || rs[0].start == start then 0 else FirstStart(rs[1..], start) + 1
  }

  lemma {:induction false} FirstStartIs(rs: seq<Range>, start: Word, i: nat)
    requires i <= |rs| && (forall k | 0 <= k < i :: rs[k].start != start) && (i < |rs| ==> rs[i].start == start)
    ensures FirstStart(rs, start) == i
  {
    if i == 0 {
    } else {
      FirstStartIs(rs[1..], start, i - 1);
    }
  }

  function RemovalOf(rs: seq<Range>, r: Range): RemoveOutcome {
    var i := FirstStart(rs, r.start);
    if i == |rs| then NoSuchRange else if rs[i].size == r.size then Removed else WrongSize
  }

  /** What a search that ended at `i` means for a removal. */
  lemma RemovalFound(nodes: map<Ref, Node>, refs: seq<Ref>, r: Range, i: nat)
    requires (forall n | n in refs :: n in nodes) && i <= |refs|
    requires forall k | 0 <= k < i :: nodes[refs[k]].start != r.start
    requires i < |refs| ==> nodes[refs[i]].start == r.start
    ensures FirstStart(RangesOf(nodes, refs), r.start) == i
    ensures RemovalOf(RangesOf(nodes, refs), r) ==
            if i == |refs| then NoSuchRange else if nodes[refs[i]].size == r.size then Removed else WrongSize
    ensures i == |refs| <==> forall q | q in ContentsOf(nodes, refs) :: q.start != r.start
    ensures i < |refs| ==> nodes[refs[i]].AsRange() in ContentsOf(nodes, refs)
  {
    FirstStartIs(RangesOf(nodes, refs), r.start, i);
    if i == |refs| {
      NoneInContents(nodes, refs, r.start);
    } else {
      InContents(nodes, refs, nodes[refs[i]].AsRange());
    }
  }

  datatype Op = AddRange(r: Range) | RemoveRange(r: Range)

  datatype Registered = Aborted | Holding(ranges: seq<Range>)

  /** One call; a removal without a match ends the process. */
  function Applied(rs: seq<Range>, op: Op): Registered {
    if op.AddRange? then Holding([op.r] + rs)
    else if RemovalOf(rs, op.r).Removed? then Holding(Dropped(rs, FirstStart(rs, op.r.start)))
    else Aborted
  }

  /** What is registered after a sequence of calls. */
  function After(ops: seq<Op>): Registered {
    if ops == [] then Holding([])
    else
      var before := After(ops[..|ops| - 1]);
      if before.Aborted? then Aborted else Applied(before.ranges, ops[|ops| - 1])
  }

  lemma {:induction false} AbortedStays(ops: seq<Op>, n: nat)
    requires n <= |ops| && After(ops[..n]).Aborted?
    ensures After(ops).Aborted?
  {
    if n < |ops| {
      assert ops[..|ops| - 1][..n] == ops[..n];
      AbortedStays(ops[..|ops| - 1], n);
    } else {
      assert ops[..n] == ops;
    }
  }

  // ---------------------------------------------------------------- the object

  class FaultManager {
    const pool: Pool
    var nodes: map<Ref, Node>
    var head: Link
    var free: Link

    ghost var live: seq<Ref>
    ghost var freeList: seq<Ref>

    ghost function Mem(): Memory
      reads this
    {
      Memory(nodes, head, free)
    }

    ghost predicate Valid()
      reads this
    {
      Shape(pool, Mem(), live, freeList)
    }

    ghost function Contents(): multiset<Range>
      requires Valid()
      reads this
    {
      ShapeHeads(pool, Mem(), live, freeList);
      ContentsOf(nodes, live)
    }

    /** The ranges registered now, the most recently added first. */
    ghost function Ranges(): seq<Range>
      requires Valid()
      reads this
    {
      ShapeHeads(pool, Mem(), live, freeList);
      RangesOf(nodes, live)
    }

    /** FaultManager::Init: chain the whole pool into the free list, in address order. */
    constructor (pool: Pool)
      ensures Valid() && this.pool == pool && Contents() == multiset{}
      ensures |freeList| == pool.count && forall i | 0 <= i < pool.count :: freeList[i] == pool.base + i
    {
      var m, refs := ChainPool(pool);
      this.pool := pool;
      head, live := Null, [];
      free := if pool.count == 0 then Null else At(pool.base);
      nodes, freeList := m, refs;
      new;
      hide Shape, ContentsOf;
      PoolShape(pool, nodes, freeList);
    }

    static method ChainPool(pool: Pool) returns (m: map<Ref, Node>, ghost refs: seq<Ref>)
      ensures |refs| == pool.count && forall k | 0 <= k < pool.count :: refs[k] == pool.base + k
      ensures forall r: Ref :: r in m <==> pool.Owns(r)
      ensures forall k | 0 <= k < pool.count ::
                refs[k] in m && m[refs[k]] == Node(PoolNext(pool, k), 0, 0)
    {
      m, refs := map[], [];
      var i := 0;
      while i < pool.count
        invariant i <= pool.count && |refs| == i
        invariant forall r: Ref :: r in m <==> pool.base <= r < pool.base + i
        invariant forall k | 0 <= k < i :: refs[k] == pool.base + k
        invariant forall k | 0 <= k < i ::
                    refs[k] in m && m[refs[k]] == Node(PoolNext(pool, k), 0, 0)
      {
        m := m[pool.base + i := Node(if i + 1 != pool.count then At(pool.base + i + 1) else Null, 0, 0)];
        refs := refs + [pool.base + i];
        i := i + 1;
      }
    }

    /** AddGeneratedCodeRange. `heapRef` is the address the allocator would return. */
    method Add(r: Range, heapRef: Ref)
      requires Valid() && heapRef !in nodes
      modifies this
      ensures Valid() && Contents() == old(Contents()) + multiset{r} && Ranges() == [r] + old(Ranges())
      ensures live == [CreatedRef(old(Mem()), heapRef)] + old(live) && freeList == RestOf(old(freeList))
      ensures old(free).At? ==> old(free).ref in old(nodes)
      ensures Mem() == Added(old(Mem()), r, heapRef)
    {
      ShapeAdded(pool, Mem(), live, freeList, r, heapRef);
      ContentsAdded(pool, Mem(), live, freeList, r, heapRef);
      var n;
      if free.At? {
        n := free.ref;
        var next := nodes[n].next;
        nodes := nodes[n := Node(Null, r.start, r.size)];
        free := next;
      } else {
        n := heapRef;
        nodes := nodes[n := Node(Null, r.start, r.size)];
      }
      nodes := nodes[n := nodes[n].(next := head)];
      head := At(n);
      live, freeList := [n] + live, RestOf(freeList);
      assert Mem() == old(Added(Mem(), r, heapRef));
    }

    /** RemoveGeneratedCodeRange followed by the recycling of the node. The process aborts when no
        range has this start, or when the most recently added one with it has another size. */
    method Remove(r: Range) returns (outcome: RemoveOutcome)
      requires Valid()
      modifies this
      ensures outcome == (var i := FirstWithStart(old(nodes), old(live), r.start);
                          if i == |old(live)| then NoSuchRange
                          else if old(nodes)[old(live)[i]].size == r.size then Removed else WrongSize)
      ensures outcome.NoSuchRange? <==> forall q | q in old(Contents()) :: q.start != r.start
      ensures outcome.Removed? ==> Valid() && r in old(Contents()) && Contents() == old(Contents()) - multiset{r}
      ensures outcome == RemovalOf(old(Ranges()), r)
      ensures outcome.Removed? ==> Ranges() == Dropped(old(Ranges()), FirstStart(old(Ranges()), r.start))
      ensures outcome.WrongSize? ==> exists q :: q in old(Contents()) && q.start == r.start && q.size != r.size
    {
      hide ContentsOf, RangesOf, Dropped, FirstStart, RemovalOf;
      ShapeHeads(pool, Mem(), live, freeList);
      var before, range;
      ghost var i;
      before, range, i := Find(r.start);
      assert i == FirstWithStart(nodes, live, r.start);
      RemovalFound(nodes, live, r, i);
      if range.Null? {
        return NoSuchRange;
      }
      var n := range.ref;
      if nodes[n].size != r.size {
        return WrongSize;
      }
      Drop(before, n, i);
      return Removed;
    }

    /** Unlink the node found, wait for the checkpoint, and recycle it. */
    method Drop(before: Link, n: Ref, ghost i: nat)
      requires Valid() && i < |live| && n == live[i] && before == Before(live, i)
      modifies this
      ensures n in old(nodes)
      ensures Valid() && Contents() == old(Contents()) - multiset{old(nodes)[n].AsRange()}
      ensures Ranges() == Dropped(old(Ranges()), i)
    {
      hide Shape, Recycled, Unlinked, ContentsOf, RangesOf;
      ShapeHeads(pool, Mem(), live, freeList);
      ShapeRemoved(pool, Mem(), live, freeList, i);
      ContentsRemoved(pool, Mem(), live, freeList, i);
      Unlink(before, n);
      Recycle(n);
      live, freeList := Without(live, i), if pool.Owns(n) then [n] + freeList else freeList;
    }

    /** The search loop of a removal: the first node with this start, and the link before it. */
    method Find(start: Word) returns (before: Link, range: Link, ghost i: nat)
      requires Chain(nodes, head, live)
      ensures i <= |live| && range == LinkAt(live, i)
      ensures before == if i == 0 then Null else At(live[i - 1])
      ensures forall k | 0 <= k < i :: nodes[live[k]].start != start
      ensures i < |live| ==> nodes[live[i]].start == start
      ensures range == LinkAt(live, FirstWithStart(nodes, live, start))
    {
      i, before, range := 0, Null, head;
      while range.At? && nodes[range.ref].start != start
        invariant i <= |live| && range == LinkAt(live, i)
        invariant before == if i == 0 then Null else At(live[i - 1])
        invariant forall k | 0 <= k < i :: nodes[live[k]].start != start
        decreases |live| - i
      {
        before := range;
        assert nodes[live[i]].next == LinkAt(live, i + 1);
        range := nodes[range.ref].next;
        i := i + 1;
      }
    }

    /** The one store that takes the node out of the live list. */
    method Unlink(before: Link, n: Ref)
      requires n in nodes && (before.At? ==> before.ref in nodes)
      modifies this`nodes, this`head
      ensures Mem() == Unlinked(old(Mem()), before, n)
    {
      var next := nodes[n].next;
      if before.Null? {
        head := next;
      } else {
        nodes := nodes[before.ref := nodes[before.ref].(next := next)];
      }
    }

    /** FreeGeneratedCodeRange: a pool node goes back to the free list, a heap node is deleted. */
    method Recycle(n: Ref)
      requires n in nodes
      modifies this`nodes, this`free
      ensures Mem() == Recycled(pool, old(Mem()), n)
    {
      if pool.base <= n && n < pool.base + pool.count {
        nodes := nodes[n := nodes[n].(start := 0, size := 0)];
        nodes := nodes[n := nodes[n].(next := free)];
        free := At(n);
      } else {
        nodes := nodes - {n};
      }
    }

    /** The walk of IsInGeneratedCode, when no other thread interferes: it answers membership of pc
        in the set of registered ranges, provided none of them wraps around. */
    method IsInGeneratedCode(pc: Word) returns (found: bool)
      requires Valid()
      ensures found <==> exists r :: r in Contents() && WrapTest(pc, r)
      ensures (forall r | r in Contents() :: NonWrapping(r)) ==>
                (found <==> exists r :: r in Contents() && Holds(r, pc))
    {
      ShapeHeads(pool, Mem(), live, freeList);
      ghost var i;
      found, i := Walk(pc);
      WalkMeaning(nodes, live, pc, i, found);
    }

    method Walk(pc: Word) returns (found: bool, ghost i: nat)
      requires Chain(nodes, head, live)
      ensures found ==> i < |live| && WrapTest(pc, nodes[live[i]].AsRange())
      ensures !found ==> forall k | 0 <= k < |live| :: !WrapTest(pc, nodes[live[k]].AsRange())
    {
      i := 0;
      var range := head;
      while range.At?
        invariant i <= |live| && range == LinkAt(live, i)
        invariant forall k | 0 <= k < i :: !WrapTest(pc, nodes[live[k]].AsRange())
        decreases |live| - i
      {
        if (pc - nodes[range.ref].start) % ADDRESS_SPACE < nodes[range.ref].size {
          return true, i;
        }
        assert nodes[live[i]].next == LinkAt(live, i + 1);
        range := nodes[range.ref].next;
        i := i + 1;
      }
      return false, i;
    }

    /** Shutdown: the live list is emptied and its heap nodes deleted; pool nodes are abandoned where
        they are and do not return to the free list. */
    method Shutdown()
      requires Valid()
      modifies this`nodes, this`head
      ensures head == Null
      ensures forall r :: r in nodes <==> r in old(nodes) && (r in live ==> pool.Owns(r))
      ensures Chain(nodes, free, freeList)
    {
      ShapeHeads(pool, Mem(), live, freeList);
      var range := head;
      head := Null;
      DeleteFrom(range);
      ChainFrame(old(nodes), nodes, free, freeList);
    }

    method DeleteFrom(first: Link)
      requires Chain(nodes, first, live) && NoDup(live)
      modifies this`nodes
      ensures forall r | r in nodes :: r in old(nodes) && nodes[r] == old(nodes)[r]
      ensures forall r :: r in nodes <==> r in old(nodes) && (r in live ==> pool.Owns(r))
    {
      hide Chain, NoDup;
      var range := first;
      ghost var i := 0;
      assert range == LinkAt(live, 0) by { ChainLink(nodes, first, live, 0); }
      while range.At?
        invariant i <= |live| && range == LinkAt(live, i)
        invariant forall r | r in nodes :: r in old(nodes) && nodes[r] == old(nodes)[r]
        invariant forall r :: r in nodes <==> r in old(nodes) && (r in live[..i] ==> pool.Owns(r))
        decreases |live| - i
      {
        ChainLink(old(nodes), first, live, i);
        NotBefore(live, i);
        assert live[..i + 1] == live[..i] + [live[i]];
        var next := nodes[range.ref].next;
        if !(pool.base <= range.ref && range.ref < pool.base + pool.count) {
          nodes := nodes - {range.ref};
        }
        range := next;
        i := i + 1;
      }
      assert live[..i] == live;
    }
  }

  /** `alloc` is the heap: an address that is not in use. */
  method Perform(m: FaultManager, op: Op, alloc: set<Ref> -> Ref) returns (ok: bool)
    requires m.Valid() && forall used :: alloc(used) !in used
    modifies m
    ensures ok <==> Applied(old(m.Ranges()), op).Holding?
    ensures ok ==> m.Valid() && Applied(old(m.Ranges()), op) == Holding(m.Ranges())
  {
    hide Shape, RangesOf, ContentsOf, FirstWithStart, Added, CreatedRef;
    match op
    case AddRange(r) =>
      m.Add(r, alloc(m.nodes.Keys));
      ok := true;
    case RemoveRange(r) =>
      var outcome := m.Remove(r);
      ok := outcome.Removed?;
  }

  method Lookup(m: FaultManager, pc: Word) returns (found: bool)
    requires m.Valid()
    ensures var rs := m.Ranges();
            (forall k | 0 <= k < |rs| :: NonWrapping(rs[k])) ==>
              (found <==> exists k :: 0 <= k < |rs| && Holds(rs[k], pc))
  {
    hide Shape, RangesOf, ContentsOf, NonWrapping, Holds, WrapTest;
    found := m.IsInGeneratedCode(pc);
    ContentsAreRanges(m, pc);
  }

  /** Any sequence of adds and removals, then a lookup: the registry aborts exactly where the simple list
      of ranges has no match, and otherwise the walk answers whether some registered interval contains
      pc, if none wraps around. */
  method Replay(pool: Pool, ops: seq<Op>, alloc: set<Ref> -> Ref, pc: Word) returns (aborted: bool, found: bool)
    requires forall used :: alloc(used) !in used
    ensures aborted <==> After(ops).Aborted?
    ensures !aborted && (forall k | 0 <= k < |After(ops).ranges| :: NonWrapping(After(ops).ranges[k])) ==>
              (found <==> exists k :: 0 <= k < |After(ops).ranges| && Holds(After(ops).ranges[k], pc))
  {
    hide Shape, RangesOf, ContentsOf, Applied, NonWrapping, Holds;
    var m := new FaultManager(pool);
    ContentsAreRanges(m, pc);
    for i := 0 to |ops|
      invariant m.Valid() && After(ops[..i]) == Holding(m.Ranges())
    {
      assert ops[..i + 1][..i] == ops[..i];
      var ok := Perform(m, ops[i], alloc);
      if !ok {
        AbortedStays(ops, i + 1);
        return true, false;
      }
    }
    assert ops[..|ops|] == ops;
    found := Lookup(m, pc);
    aborted := false;
  }

  lemma ContentsAreRanges(m: FaultManager, pc: Word)
    requires m.Valid()
    ensures m.Contents() == multiset(m.Ranges())
    ensures var rs := m.Ranges();
            (forall r | r in m.Contents() :: NonWrapping(r)) <==> forall k | 0 <= k < |rs| :: NonWrapping(rs[k])
    ensures var rs := m.Ranges();
            (exists r :: r in m.Contents() && Holds(r, pc)) <==> exists k :: 0 <= k < |rs| && Holds(rs[k], pc)
  {
    assert m.Contents() == multiset(m.Ranges());
    hide *;
    InMultiset(m.Ranges(), pc);
  }

  lemma InMultiset(rs: seq<Range>, pc: Word)
    ensures (forall r | r in multiset(rs) :: NonWrapping(r)) <==> forall k | 0 <= k < |rs| :: NonWrapping(rs[k])
    ensures (exists r :: r in multiset(rs) && Holds(r, pc)) <==> exists k :: 0 <= k < |rs| && Holds(rs[k], pc)
  {
    hide NonWrapping, Holds;
    assert forall k | 0 <= k < |rs| :: rs[k] in multiset(rs);
    assert forall r | r in multiset(rs) :: r in rs;
  }

  lemma ChainLink(nodes: map<Ref, Node>, first: Link, refs: seq<Ref>, i: nat)
    requires Chain(nodes, first, refs)
    ensures first == LinkAt(refs, 0)
    ensures i < |refs| ==> refs[i] in nodes && nodes[refs[i]].next == LinkAt(refs, i + 1)
  {}

  lemma NotBefore(refs: seq<Ref>, i: nat)
    requires NoDup(refs) && i < |refs|
    ensures refs[i] !in refs[..i]
  {}

  lemma WalkMeaning(nodes: map<Ref, Node>, refs: seq<Ref>, pc: Word, i: nat, found: bool)
    requires forall r | r in refs :: r in nodes
    requires found ==> i < |refs| && WrapTest(pc, nodes[refs[i]].AsRange())
    requires !found ==> forall k | 0 <= k < |refs| :: !WrapTest(pc, nodes[refs[k]].AsRange())
    ensures found <==> exists r :: r in ContentsOf(nodes, refs) && WrapTest(pc, r)
    ensures (forall r | r in ContentsOf(nodes, refs) :: NonWrapping(r)) ==>
              (found <==> exists r :: r in ContentsOf(nodes, refs) && Holds(r, pc))
  {
    forall r | r in ContentsOf(nodes, refs)
      ensures !found ==> !WrapTest(pc, r)
      ensures NonWrapping(r) ==> WrapTest(pc, r) == Holds(r, pc)
    {
      InContents(nodes, refs, r);
      WrapTestIsMembership(r);
    }
    if found {
      InContents(nodes, refs, nodes[refs[i]].AsRange());
    }
  }
}
