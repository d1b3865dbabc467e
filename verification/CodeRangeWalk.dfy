/** Signal handlers walk the range list without a lock while other threads add and remove ranges.
    Every load of a link in a walk, and every store to a link or a list head, is a separate step of a
    sequentially consistent machine; start and size of a node are read, and written, together. Only the
    registry lock and the empty checkpoint order the writers. */
module CodeRangeWalk {
  import opened CodeRangeMemory

  /** What the holder of the registry lock has done so far. */
  datatype Lock =
    | Unlocked
    | Filled(n: Ref)        // AddGeneratedCodeRange: node taken and filled in
    | Linked(n: Ref)        // AddGeneratedCodeRange: its `next` stored, not yet published
    | Wiped(n: Ref)         // FreeGeneratedCodeRange: start and size cleared
    | Chained(n: Ref)       // FreeGeneratedCodeRange: its `next` stored, not yet the free head

  datatype Phase = AtNode | Tested | Done(found: bool)

  /** One execution of IsInGeneratedCode. `began`, `snapshot` (the nodes live when it began) and
      `visited` are history: no step reads them except the checkpoint, which reads `began`. */
  datatype Walk = Walk(pc: Word, at: Link, phase: Phase,
                       began: nat, snapshot: set<Ref>, visited: seq<Ref>)

  /** `live` with its set `registered`, `freeList`, `stamp` and `clock` are history; a removal, which walks
      the chain from the head under the lock, searches `live` instead (the invariant says that they are
      the same). `retired` holds unlinked nodes whose removal has not passed its checkpoint, with the time
      of the unlink; `quiesced` those that have. */
  datatype State = State(pool: Pool, mem: Memory, lock: Lock, walks: map<nat, Walk>,
                         retired: map<Ref, nat>, quiesced: set<Ref>,
                         live: seq<Ref>, registered: set<Ref>, freeList: seq<Ref>,
                         stamp: map<Ref, nat>, clock: nat)

  datatype Step =
    | AddCreate(r: Range, heapRef: Ref) | AddLink | AddPublish
    | RemoveUnlink(r: Range) | Checkpoint(n: Ref)
    | FreeWipe(n: Ref) | FreeLink | FreePush | FreeDelete(n: Ref)
    | WalkStart(id: nat, pc: Word) | WalkTest(id: nat) | WalkAdvance(id: nat)

  // ---------------------------------------------------------------- the machine

  predicate Walking(s: State, id: nat) { id in s.walks && !s.walks[id].phase.Done? }

  /** The contract of RunEmptyCheckpoint (and of the cases that skip it because no other thread is
      runnable): no walk that began before the unlink is still running. */
  ghost predicate CheckpointPassed(s: State, n: Ref) {
    n in s.retired && forall id | Walking(s, id) :: s.walks[id].began > s.retired[n]
  }

  ghost predicate Enabled(s: State, step: Step) {
    match step
    case AddCreate(_, heapRef) =>
      s.lock.Unlocked? && heapRef !in s.mem.nodes && (s.mem.free.At? ==> s.mem.free.ref in s.mem.nodes)
    case AddLink => s.lock.Filled? && s.lock.n in s.mem.nodes
    case AddPublish => s.lock.Linked?
    case RemoveUnlink(r) =>
      // A missing range, or one of another size, fails a CHECK: the process ends and takes no step.
      && s.lock.Unlocked?
      && var i := FirstWithStart(s.mem.nodes, s.live, r.start);
      && i < |s.live| && s.mem.nodes[s.live[i]].size == r.size
      && (i > 0 ==> s.live[i - 1] in s.mem.nodes)
    case Checkpoint(n) => CheckpointPassed(s, n)
    case FreeWipe(n) => s.lock.Unlocked? && n in s.quiesced && s.pool.Owns(n) && n in s.mem.nodes
    case FreeLink => s.lock.Wiped? && s.lock.n in s.mem.nodes
    case FreePush => s.lock.Chained?
    case FreeDelete(n) => n in s.quiesced && !s.pool.Owns(n)
    case WalkStart(id, _) => id !in s.walks
    case WalkTest(id) =>
      Walking(s, id) && s.walks[id].phase.AtNode? && (s.walks[id].at.At? ==> s.walks[id].at.ref in s.mem.nodes)
    case WalkAdvance(id) =>
      Walking(s, id) && s.walks[id].phase.Tested? && s.walks[id].at.At? && s.walks[id].at.ref in s.mem.nodes
  }

  ghost function Apply(s: State, step: Step): State
    requires Enabled(s, step)
  {
    match step
    case AddCreate(r, heapRef) =>
      s.(mem := Created(s.mem, r, heapRef), lock := Filled(CreatedRef(s.mem, heapRef)),
         freeList := if s.freeList == [] then [] else s.freeList[1..])
    case AddLink => s.(mem := LinkedToHead(s.mem, s.lock.n), lock := Linked(s.lock.n))
    case AddPublish =>
      s.(mem := Published(s.mem, s.lock.n), lock := Unlocked,
         live := [s.lock.n] + s.live, registered := s.registered + {s.lock.n},
         stamp := s.stamp[s.lock.n := s.clock], clock := s.clock + 1)
    case RemoveUnlink(r) =>
      var i := FirstWithStart(s.mem.nodes, s.live, r.start);
      var before := if i == 0 then Null else At(s.live[i - 1]);
      s.(mem := Unlinked(s.mem, before, s.live[i]), live := Without(s.live, i),
         registered := s.registered - {s.live[i]}, retired := s.retired[s.live[i] := s.clock], clock := s.clock + 1)
    case Checkpoint(n) => s.(retired := s.retired - {n}, quiesced := s.quiesced + {n})
    case FreeWipe(n) => s.(mem := Cleared(s.mem, n), lock := Wiped(n), quiesced := s.quiesced - {n})
    case FreeLink => s.(mem := LinkedToFree(s.mem, s.lock.n), lock := Chained(s.lock.n))
    case FreePush =>
      s.(mem := PushedFree(s.mem, s.lock.n), lock := Unlocked, freeList := [s.lock.n] + s.freeList)
    case FreeDelete(n) => s.(mem := Deleted(s.mem, n), quiesced := s.quiesced - {n})
    case WalkStart(id, pc) =>
      s.(walks := s.walks[id := Walk(pc, s.mem.head, AtNode, s.clock, s.registered, [])], clock := s.clock + 1)
    case WalkTest(id) =>
      var w := s.walks[id];
      var w' := if w.at.Null? then w.(phase := Done(false))
                else if WrapTest(w.pc, s.mem.nodes[w.at.ref].AsRange())
                then w.(phase := Done(true), visited := w.visited + [w.at.ref])
                else w.(phase := Tested, visited := w.visited + [w.at.ref]);
      s.(walks := s.walks[id := w'])
    case WalkAdvance(id) =>
      var w := s.walks[id];
      s.(walks := s.walks[id := w.(at := s.mem.nodes[w.at.ref].next, phase := AtNode)])
  }

  /** The state FaultManager::Init leaves behind: every pool node free, in address order. */
  ghost predicate Initial(s: State) {
    && s.lock.Unlocked? && s.walks == map[] && s.retired == map[] && s.quiesced == {}
    && s.live == [] && s.registered == {} && s.mem.head == Null && s.stamp == map[] && s.clock == 0
    && |s.freeList| == s.pool.count
    && (forall i | 0 <= i < s.pool.count :: s.freeList[i] == s.pool.base + i)
    && (forall r :: r in s.mem.nodes <==> s.pool.Owns(r))
    && Chain(s.mem.nodes, s.mem.free, s.freeList)
  }

  ghost predicate Next(s: State, step: Step, s': State) {
    Enabled(s, step) && s' == Apply(s, step)
  }

  ghost predicate Run(ss: seq<State>, steps: seq<Step>) {
    && |ss| == |steps| + 1 && Initial(ss[0])
    && forall i {:trigger steps[i]} | 0 <= i < |steps| :: Next(ss[i], steps[i], ss[i + 1])
  }

  // ---------------------------------------------------------------- the invariant

  ghost function InHand(s: State): set<Ref> { if s.lock.Unlocked? then {} else {s.lock.n} }

  /** Every allocated node is in exactly one of five places, and every pool node is allocated. */
  ghost predicate Partitioned(s: State) {
    && s.registered !! Elems(s.freeList)
    && s.retired.Keys !! (s.registered + Elems(s.freeList))
    && s.quiesced !! (s.registered + Elems(s.freeList) + s.retired.Keys)
    && InHand(s) !! (s.registered + Elems(s.freeList) + s.retired.Keys + s.quiesced)
    && s.mem.nodes.Keys == s.registered + Elems(s.freeList) + s.retired.Keys + s.quiesced + InHand(s)
    && (forall r | s.pool.Owns(r) :: r in s.mem.nodes)
  }

  /** The two lists are duplicate-free chains, and only pool nodes are free. */
  ghost predicate Placed(s: State) {
    && Partitioned(s)
    && Chain(s.mem.nodes, s.mem.head, s.live) && NoDup(s.live) && s.registered == Elems(s.live)
    && Chain(s.mem.nodes, s.mem.free, s.freeList) && NoDup(s.freeList)
    && (forall r | r in s.freeList :: s.pool.Owns(r))
    && (s.lock.Linked? ==> s.mem.nodes[s.lock.n].next == s.mem.head)
    && (s.lock.Chained? ==> s.mem.nodes[s.lock.n].next == s.mem.free)
    && (s.lock.Wiped? || s.lock.Chained? ==> s.pool.Owns(s.lock.n))
  }

  ghost predicate Stamped(s: State) {
    && (forall r | r in s.registered || r in s.retired :: r in s.stamp)
    && (forall r | r in s.stamp :: s.stamp[r] < s.clock)
    && (forall r, q | r in s.stamp && q in s.stamp && s.stamp[r] == s.stamp[q] :: r == q)
    && (forall r | r in s.retired :: s.retired[r] < s.clock)
  }

  /** Newer ranges come first in the live list. */
  ghost predicate Ordered(stamp: map<Ref, nat>, live: seq<Ref>) {
    && (forall i | 0 <= i < |live| :: live[i] in stamp)
    && forall i, j | 0 <= i < j < |live| :: stamp[live[i]] > stamp[live[j]]
  }

  /** The nodes live when the walk began are still allocated: live, or unlinked after it began. */
  ghost predicate Protected(s: State, w: Walk) {
    && w.began < s.clock
    && (forall r | r in w.snapshot :: r in s.mem.nodes && r in s.stamp)
    && (forall r | r in w.snapshot && r !in s.registered :: r in s.retired && s.retired[r] > w.began)
  }

  /** From a protected node, `next` leads to an older protected node, jumping over no live one. */
  ghost predicate LeadsOn(nodes: map<Ref, Node>, stamp: map<Ref, nat>, live: set<Ref>, r: Ref, within: set<Ref>) {
    && r in nodes && r in stamp
    && match nodes[r].next
       case Null => forall m | m in within * live :: m in stamp ==> stamp[m] >= stamp[r]
       case At(q) =>
         && q in within && q in stamp && stamp[q] < stamp[r]
         && forall m | m in within * live :: m in stamp ==> stamp[m] >= stamp[r] || stamp[m] <= stamp[q]
  }

  ghost predicate Descends(s: State, w: Walk) {
    forall r {:trigger LeadsOn(s.mem.nodes, s.stamp, s.registered, r, w.snapshot)} | r in w.snapshot ::
      LeadsOn(s.mem.nodes, s.stamp, s.registered, r, w.snapshot)
  }

  /** Where the walk stands: what it has visited did not contain pc, and what it has not visited
      is at or after its cursor. */
  ghost predicate Covers(s: State, w: Walk)
    requires Protected(s, w)
  {
    && (w.at.At? ==> w.at.ref in w.snapshot)
    && (w.phase.Tested? ==> w.at.At? && w.at.ref in w.visited)
    && (forall r | r in w.visited :: r in w.snapshot && !WrapTest(w.pc, s.mem.nodes[r].AsRange()))
    && (forall r | r in w.visited ::
          w.at.At? ==> s.stamp[r] > s.stamp[w.at.ref] || (w.phase.Tested? && r == w.at.ref))
    && NoDup(w.visited)
    && (forall r | r in w.snapshot && r in s.registered ::
          r in w.visited || (w.at.At? && s.stamp[r] <= s.stamp[w.at.ref]))
  }

  ghost predicate Sound(s: State, w: Walk) {
    Protected(s, w) && Descends(s, w) && Covers(s, w)
  }

  ghost predicate Inv(s: State) {
    Placed(s) && Stamped(s) && Ordered(s.stamp, s.live) && forall id | Walking(s, id) :: Sound(s, s.walks[id])
  }

  // ---------------------------------------------------------------- preservation

  lemma InitialInv(s: State)
    requires Initial(s)
    ensures Inv(s)
  {
    forall r: Ref | s.pool.Owns(r)
      ensures r in s.freeList
    {
      assert s.freeList[r - s.pool.base] == r;
    }
    assert s.mem.nodes.Keys == Elems(s.freeList);
  }

  /** Stores to nodes outside both lists leave both lists alone. */
  lemma ListsFrame(s: State, nodes': map<Ref, Node>)
    requires Placed(s)
    requires forall r | r in s.live || r in s.freeList :: r in nodes' && nodes'[r].next == s.mem.nodes[r].next
    ensures Chain(nodes', s.mem.head, s.live) && Chain(nodes', s.mem.free, s.freeList)
  {
    ChainFrame(s.mem.nodes, nodes', s.mem.head, s.live);
    ChainFrame(s.mem.nodes, nodes', s.mem.free, s.freeList);
  }

  lemma ListsCreate(s: State, r: Range, heapRef: Ref)
    requires Placed(s) && heapRef !in s.mem.nodes
    ensures s.mem.free.At? ==> s.mem.free.ref in s.mem.nodes
    ensures var m' := Created(s.mem, r, heapRef);
            var rest := if s.freeList == [] then [] else s.freeList[1..];
            && Chain(m'.nodes, m'.head, s.live) && Chain(m'.nodes, m'.free, rest) && NoDup(rest)
            && m'.nodes.Keys == s.mem.nodes.Keys + {CreatedRef(s.mem, heapRef)}
            && Elems(rest) == Elems(s.freeList) - {CreatedRef(s.mem, heapRef)}
  {
    var m' := Created(s.mem, r, heapRef);
    ChainFrame(s.mem.nodes, m'.nodes, s.mem.head, s.live) by {
      assert s.freeList != [] ==> s.freeList[0] in Elems(s.freeList);
    }
    if s.freeList != [] {
      TailChain(s.mem.nodes, s.mem.free, s.freeList);
      assert Elems(s.freeList) == {s.freeList[0]} + Elems(s.freeList[1..]);
      ChainFrame(s.mem.nodes, m'.nodes, m'.free, s.freeList[1..]);
    }
  }

  lemma PlacedAddCreate(s: State, r: Range, heapRef: Ref)
    requires Placed(s) && Enabled(s, AddCreate(r, heapRef))
    ensures Placed(Apply(s, AddCreate(r, heapRef)))
  {
    ListsCreate(s, r, heapRef);
    var s' := Apply(s, AddCreate(r, heapRef));
    var n := CreatedRef(s.mem, heapRef);
    assert InHand(s') == {n} && InHand(s) == {};
    assert n in Elems(s.freeList) || n !in s.mem.nodes.Keys;
  }

  lemma PlacedAdd(s: State, step: Step)
    requires Placed(s) && Enabled(s, step) && (step.AddLink? || step.AddPublish?)
    ensures Placed(Apply(s, step))
  {
    var s' := Apply(s, step);
    if step.AddLink? {
      ListsFrame(s, s'.mem.nodes);
    } else {
      PrependChain(s.mem.nodes, s.mem.head, s.live, s.lock.n);
      assert Elems(s'.live) == {s.lock.n} + Elems(s.live);
    }
  }

  lemma ListsUnlink(s: State, i: nat)
    requires Placed(s) && i < |s.live|
    ensures var m' := Unlinked(s.mem, if i == 0 then Null else At(s.live[i - 1]), s.live[i]);
            && Chain(m'.nodes, m'.head, Without(s.live, i)) && NoDup(Without(s.live, i))
            && s.registered - {s.live[i]} == Elems(Without(s.live, i))
            && Chain(m'.nodes, m'.free, s.freeList) && m'.nodes.Keys == s.mem.nodes.Keys
  {
    var m' := Unlinked(s.mem, if i == 0 then Null else At(s.live[i - 1]), s.live[i]);
    UnlinkChain(s.mem, s.live, i);
    WithoutElems(s.live, i);
    assert i > 0 ==> s.live[i - 1] in s.registered;
    ChainFrame(s.mem.nodes, m'.nodes, s.mem.free, s.freeList);
  }

  lemma PartitionedUnlink(s: State, s': State, n: Ref)
    requires Partitioned(s) && n in s.registered && s.lock.Unlocked? && s'.lock.Unlocked?
    requires s'.registered == s.registered - {n} && s'.retired.Keys == s.retired.Keys + {n}
    requires s'.freeList == s.freeList && s'.quiesced == s.quiesced && s'.pool == s.pool
    requires s'.mem.nodes.Keys == s.mem.nodes.Keys
    ensures Partitioned(s')
  {}

  lemma PlacedSkip(s: State, i: nat, s': State)
    requires Placed(s) && i < |s.live| && s.lock.Unlocked?
    requires s' == s.(mem := Unlinked(s.mem, if i == 0 then Null else At(s.live[i - 1]), s.live[i]),
                      live := Without(s.live, i), registered := s.registered - {s.live[i]},
                      retired := s.retired[s.live[i] := s.clock], clock := s.clock + 1)
    ensures Placed(s')
  {
    ListsUnlink(s, i);
    assert s.live[i] in s.registered;
    PartitionedUnlink(s, s', s.live[i]);
  }

  lemma PlacedUnlink(s: State, r: Range)
    requires Placed(s) && Enabled(s, RemoveUnlink(r))
    ensures Placed(Apply(s, RemoveUnlink(r)))
  {
    PlacedSkip(s, FirstWithStart(s.mem.nodes, s.live, r.start), Apply(s, RemoveUnlink(r)));
  }

  lemma PlacedFree(s: State, step: Step)
    requires Placed(s) && Enabled(s, step)
    requires step.FreeWipe? || step.FreeLink? || step.FreeDelete?
    ensures Placed(Apply(s, step))
  {
    ListsFrame(s, Apply(s, step).mem.nodes);
  }

  lemma PlacedPush(s: State)
    requires Placed(s) && Enabled(s, FreePush)
    ensures Placed(Apply(s, FreePush))
  {
    PrependChain(s.mem.nodes, s.mem.free, s.freeList, s.lock.n);
    assert Elems([s.lock.n] + s.freeList) == {s.lock.n} + Elems(s.freeList);
  }

  lemma PlacedStep(s: State, step: Step)
    requires Placed(s) && Enabled(s, step)
    ensures Placed(Apply(s, step))
  {
    match step {
      case AddCreate(r, heapRef) => PlacedAddCreate(s, r, heapRef);
      case AddLink => PlacedAdd(s, step);
      case AddPublish => PlacedAdd(s, step);
      case RemoveUnlink(r) => PlacedUnlink(s, r);
      case FreeWipe(_) => PlacedFree(s, step);
      case FreeLink => PlacedFree(s, step);
      case FreePush => PlacedPush(s);
      case FreeDelete(_) => PlacedFree(s, step);
      case Checkpoint(_) =>
      case WalkStart(_, _) =>
      case WalkTest(_) =>
      case WalkAdvance(_) =>
    }
  }

  /** What unlinking the live node at index `i` changes, and what it leaves. */
  ghost predicate SkipsNode(s: State, s': State, i: nat) {
    && i < |s.live|
    && var n := s.live[i];
    && s'.registered == s.registered - {n}
    && s'.stamp == s.stamp && s'.clock == s.clock + 1 && s'.retired == s.retired[n := s.clock]
    && n in s.registered && n in s.mem.nodes && n !in s.retired
    && (i > 0 ==> s.live[i - 1] in s.mem.nodes && s.mem.nodes[s.live[i - 1]].next == At(n))
    && (forall q | q in s.mem.nodes :: q in s'.mem.nodes && s'.mem.nodes[q].AsRange() == s.mem.nodes[q].AsRange())
    && (forall q {:trigger s'.mem.nodes[q]} | q in s.mem.nodes && q in s'.mem.nodes ::
          s'.mem.nodes[q].next == s.mem.nodes[if i > 0 && q == s.live[i - 1] then n else q].next)
  }

  lemma UnlinkSkips(s: State, r: Range)
    requires Placed(s) && Enabled(s, RemoveUnlink(r))
    ensures SkipsNode(s, Apply(s, RemoveUnlink(r)), FirstWithStart(s.mem.nodes, s.live, r.start))
  {
    var i := FirstWithStart(s.mem.nodes, s.live, r.start);
    assert s.live[i] in s.registered;
  }

  lemma StampedStep(s: State, step: Step)
    requires Placed(s) && Stamped(s) && Enabled(s, step)
    ensures Stamped(Apply(s, step))
  {
    if step.RemoveUnlink? {
      UnlinkSkips(s, step.r);
    }
  }

  lemma OrderedWithout(stamp: map<Ref, nat>, live: seq<Ref>, i: nat)
    requires Ordered(stamp, live) && i < |live|
    ensures Ordered(stamp, Without(live, i))
  {
    var w := Without(live, i);
    assert forall k | 0 <= k < |w| :: w[k] == live[if k < i then k else k + 1];
  }

  lemma OrderedPrepend(stamp: map<Ref, nat>, live: seq<Ref>, n: Ref, time: nat)
    requires Ordered(stamp, live) && n !in live && forall k | 0 <= k < |live| :: stamp[live[k]] < time
    ensures Ordered(stamp[n := time], [n] + live)
  {
    var w := [n] + live;
    assert forall k | 0 < k < |w| :: w[k] == live[k - 1];
  }

  lemma OrderedStep(s: State, step: Step)
    requires Placed(s) && Stamped(s) && Ordered(s.stamp, s.live) && Enabled(s, step)
    ensures Ordered(Apply(s, step).stamp, Apply(s, step).live)
  {
    if step.RemoveUnlink? {
      OrderedWithout(s.stamp, s.live, FirstWithStart(s.mem.nodes, s.live, step.r.start));
    } else if step.AddPublish? {
      assert s.lock.n !in s.registered;
      OrderedPrepend(s.stamp, s.live, s.lock.n, s.clock);
    }
  }

  /** A step that keeps every protected node in place, with its contents and its stamp, and makes no
      protected node live again, keeps every walk it does not move sound. */
  lemma SoundFrame(s: State, s': State, w: Walk)
    requires Sound(s, w) && s.clock <= s'.clock
    requires forall r | r in w.snapshot ::
               && r in s'.mem.nodes && s'.mem.nodes[r] == s.mem.nodes[r]
               && r in s'.stamp && s'.stamp[r] == s.stamp[r]
               && (r in s'.registered <==> r in s.registered)
               && (r in s.retired && s.retired[r] > w.began ==> r in s'.retired && s'.retired[r] == s.retired[r])
    ensures Sound(s', w)
  {
    forall r | r in w.snapshot
      ensures LeadsOn(s'.mem.nodes, s'.stamp, s'.registered, r, w.snapshot)
    {
      assert LeadsOn(s.mem.nodes, s.stamp, s.registered, r, w.snapshot);
    }
  }

  /** Nodes outside the live list and the not-yet-quiescent removals are protected by no walk. */
  lemma SoundOther(s: State, step: Step, w: Walk)
    requires Placed(s) && Stamped(s) && Sound(s, w) && Enabled(s, step)
    requires !step.RemoveUnlink?
    requires step.Checkpoint? ==> w.began > s.retired[step.n]
    ensures Sound(Apply(s, step), w)
  {
    var s' := Apply(s, step);
    forall r | r in w.snapshot
      ensures r in s'.mem.nodes && s'.mem.nodes[r] == s.mem.nodes[r]
      ensures r in s'.stamp && s'.stamp[r] == s.stamp[r]
      ensures r in s'.registered <==> r in s.registered
    {
      assert r in s.registered + s.retired.Keys;
      assert s.mem.free.At? ==> s.mem.free.ref in Elems(s.freeList);
      assert r !in s.quiesced && r !in InHand(s) && r !in Elems(s.freeList);
    }
    SoundFrame(s, s', w);
  }

  /** The removed node keeps its `next`, and the link that skips it now jumps exactly over it. */
  lemma DescendsSkip(s: State, s': State, i: nat, w: Walk)
    requires Stamped(s) && Protected(s, w) && Descends(s, w) && SkipsNode(s, s', i)
    ensures Protected(s', w) && Descends(s', w)
  {
    var n := s.live[i];
    forall q | q in w.snapshot
      ensures LeadsOn(s'.mem.nodes, s'.stamp, s'.registered, q, w.snapshot)
    {
      assert LeadsOn(s.mem.nodes, s.stamp, s.registered, q, w.snapshot);
      if i > 0 && q == s.live[i - 1] {
        assert LeadsOn(s.mem.nodes, s.stamp, s.registered, n, w.snapshot);
        assert forall m | m in w.snapshot * s'.registered :: m in w.snapshot * s.registered && s.stamp[m] != s.stamp[n];
      }
    }
  }

  lemma SoundUnlink(s: State, r: Range, w: Walk)
    requires Placed(s) && Stamped(s) && Sound(s, w) && Enabled(s, RemoveUnlink(r))
    ensures Sound(Apply(s, RemoveUnlink(r)), w)
  {
    UnlinkSkips(s, r);
    DescendsSkip(s, Apply(s, RemoveUnlink(r)), FirstWithStart(s.mem.nodes, s.live, r.start), w);
  }

  // ---------------------------------------------------------------- the walk's own steps

  lemma SoundStart(s: State, id: nat, pc: Word)
    requires Placed(s) && Stamped(s) && Ordered(s.stamp, s.live) && Enabled(s, WalkStart(id, pc))
    ensures var s' := Apply(s, WalkStart(id, pc)); Sound(s', s'.walks[id])
  {
    forall r | r in s.registered
      ensures LeadsOn(s.mem.nodes, s.stamp, s.registered, r, s.registered)
    {
      var i :| 0 <= i < |s.live| && s.live[i] == r;
      assert s.mem.nodes[s.live[i]].next == LinkAt(s.live, i + 1);
      forall m | m in s.registered * s.registered
        ensures s.stamp[m] >= s.stamp[r] || (i + 1 < |s.live| && s.stamp[m] <= s.stamp[s.live[i + 1]])
      {
        var k :| 0 <= k < |s.live| && s.live[k] == m;
      }
    }
  }

  lemma SoundTest(s: State, id: nat)
    requires Stamped(s) && Enabled(s, WalkTest(id)) && Sound(s, s.walks[id])
    requires !Apply(s, WalkTest(id)).walks[id].phase.Done?
    ensures var s' := Apply(s, WalkTest(id)); Sound(s', s'.walks[id])
  {
    var s' := Apply(s, WalkTest(id));
    var w, w' := s.walks[id], s'.walks[id];
    assert w'.visited == w.visited + [w.at.ref];
    assert forall r :: r in w'.visited <==> r in w.visited || r == w.at.ref;
  }

  lemma SoundAdvance(s: State, id: nat)
    requires Stamped(s) && Enabled(s, WalkAdvance(id)) && Sound(s, s.walks[id])
    ensures var s' := Apply(s, WalkAdvance(id)); Sound(s', s'.walks[id])
  {
    var s' := Apply(s, WalkAdvance(id));
    var w, w' := s.walks[id], s'.walks[id];
    assert LeadsOn(s.mem.nodes, s.stamp, s.registered, w.at.ref, w.snapshot);
    forall r | r in w.snapshot && r in s.registered && r !in w.visited
      ensures w'.at.At? && s.stamp[r] <= s.stamp[w'.at.ref]
    {
      assert s.stamp[r] != s.stamp[w.at.ref];
      assert r in w.snapshot * s.registered;
    }
  }

  lemma InvStep(s: State, step: Step)
    requires Inv(s) && Enabled(s, step)
    ensures Inv(Apply(s, step))
  {
    var s' := Apply(s, step);
    PlacedStep(s, step);
    StampedStep(s, step);
    OrderedStep(s, step);
    forall id | Walking(s', id)
      ensures Sound(s', s'.walks[id])
    {
      if step.WalkStart? && id == step.id {
        SoundStart(s, id, step.pc);
      } else if step.WalkTest? && id == step.id {
        SoundTest(s, id);
      } else if step.WalkAdvance? && id == step.id {
        SoundAdvance(s, id);
      } else {
        assert Walking(s, id) && s'.walks[id] == s.walks[id];
        if step.RemoveUnlink? {
          SoundUnlink(s, step.r, s.walks[id]);
        } else {
          SoundOther(s, step, s.walks[id]);
        }
      }
    }
  }

  lemma InvNext(s: State, step: Step, s': State)
    requires Inv(s) && Next(s, step, s')
    ensures Inv(s')
  {
    InvStep(s, step);
  }

  lemma {:induction false} RunInv(ss: seq<State>, steps: seq<Step>, i: nat)
    requires Run(ss, steps) && i < |ss|
    ensures Inv(ss[i])
  {
    hide Inv, Next, Initial;
    if i == 0 {
      InitialInv(ss[0]);
    } else {
      RunInv(ss, steps, i - 1);
      InvNext(ss[i - 1], steps[i - 1], ss[i]);
    }
  }

  lemma InvParts(s: State)
    requires Inv(s)
    ensures forall r :: r in s.registered <==> r in s.live
    ensures NoDup(s.live) && s.registered == Elems(s.live)
    ensures forall id | Walking(s, id) :: Sound(s, s.walks[id])
  {}

  // ---------------------------------------------------------------- what every run guarantees

  /** No walk ever stands on a node that is free, being freed or being filled, or that has been
      deleted: its cursor is a live node or a removed one whose checkpoint must still wait for it. */
  lemma NoWalkOnRecycledNode(ss: seq<State>, steps: seq<Step>, i: nat, id: nat)
    requires Run(ss, steps) && i < |ss| && Walking(ss[i], id) && ss[i].walks[id].at.At?
    ensures var s := ss[i]; var n := s.walks[id].at.ref;
            && n in s.mem.nodes && n !in s.freeList && n !in s.quiesced && n !in InHand(s)
            && (n in s.live || (n in s.retired && !CheckpointPassed(s, n)))
  {
    RunInv(ss, steps, i);
    var s := ss[i];
    var n := s.walks[id].at.ref;
    assert Sound(s, s.walks[id]);
    assert n in s.registered + s.retired.Keys;
    assert n in s.freeList ==> n in Elems(s.freeList);
  }

  lemma CursorAllocated(s: State, id: nat)
    requires Walking(s, id) && Protected(s, s.walks[id]) && Covers(s, s.walks[id])
    ensures Enabled(s, WalkTest(id)) || Enabled(s, WalkAdvance(id))
  {}

  /** Memory safety: in every reachable state the load a running walk is about to make is of an
      allocated node, so a walk is never stuck. */
  lemma WalkLoadsAllocated(ss: seq<State>, steps: seq<Step>, i: nat, id: nat)
    requires Run(ss, steps) && i < |ss| && Walking(ss[i], id)
    ensures Enabled(ss[i], WalkTest(id)) || Enabled(ss[i], WalkAdvance(id))
  {
    RunInv(ss, steps, i);
    CursorAllocated(ss[i], id);
  }

  /** The same for the writers: what the lock holder, an add or a removal dereferences is allocated. */
  lemma WritesAllocated(ss: seq<State>, steps: seq<Step>, i: nat)
    requires Run(ss, steps) && i < |ss|
    ensures ss[i].lock.Unlocked? || ss[i].lock.n in ss[i].mem.nodes
    ensures ss[i].mem.free.At? ==> ss[i].mem.free.ref in ss[i].mem.nodes
    ensures forall r | r in ss[i].live || r in ss[i].quiesced :: r in ss[i].mem.nodes
  {
    RunInv(ss, steps, i);
    assert ss[i].lock.Unlocked? || ss[i].lock.n in InHand(ss[i]);
  }

  /** So no writer is ever stuck: the lock holder can go on, and with the lock free any add can begin, and
      every unlinked node past its checkpoint can be recycled or deleted. */
  lemma WritersGoOn(ss: seq<State>, steps: seq<Step>, i: nat, r: Range, heapRef: Ref, n: Ref)
    requires Run(ss, steps) && i < |ss|
    ensures var s := ss[i];
            match s.lock
            case Filled(_) => Enabled(s, AddLink)
            case Linked(_) => Enabled(s, AddPublish)
            case Wiped(_) => Enabled(s, FreeLink)
            case Chained(_) => Enabled(s, FreePush)
            case Unlocked =>
              && (heapRef !in s.mem.nodes ==> Enabled(s, AddCreate(r, heapRef)))
              && (n in s.quiesced ==> Enabled(s, if s.pool.Owns(n) then FreeWipe(n) else FreeDelete(n)))
  {
    WritesAllocated(ss, steps, i);
  }

  /** Every pool node is in exactly one of live, free, in-flight removal (retired, quiesced or in
      hand); live and free lists are acyclic and disjoint; a heap node is never on the free list. */
  lemma NodesPartitioned(ss: seq<State>, steps: seq<Step>, i: nat)
    requires Run(ss, steps) && i < |ss|
    ensures var s := ss[i];
            && Chain(s.mem.nodes, s.mem.head, s.live) && NoDup(s.live)
            && Chain(s.mem.nodes, s.mem.free, s.freeList) && NoDup(s.freeList)
            && (forall r | r in s.freeList :: s.pool.Owns(r))
            && (forall r | r in s.mem.nodes ::
                 var places := multiset{r in s.live, r in s.freeList, r in s.retired, r in s.quiesced, r in InHand(s)};
                 places[true] == 1)
            && (forall r | s.pool.Owns(r) :: r in s.mem.nodes)
  {
    RunInv(ss, steps, i);
    var s := ss[i];
    forall r | r in s.mem.nodes
      ensures multiset{r in s.live, r in s.freeList, r in s.retired, r in s.quiesced, r in InHand(s)}[true] == 1
    {
      assert r in s.live <==> r in s.registered;
      assert r in s.freeList <==> r in Elems(s.freeList);
    }
  }

  /** How one step moves a walk: a test visits the node under the cursor, a load visits nothing,
      and every other step leaves the walk alone. */
  lemma OneMove(s: State, step: Step, s': State, id: nat)
    requires Next(s, step, s') && id in s.walks
    ensures id in s'.walks
    ensures s'.walks[id].pc == s.walks[id].pc && s'.walks[id].snapshot == s.walks[id].snapshot
    ensures s.walks[id].phase.Done? ==> s'.walks[id].phase.Done?
    ensures var w, w' := s.walks[id], s'.walks[id];
            if step == WalkTest(id) then
              && w.phase.AtNode? && !w'.phase.AtNode? && (w'.phase.Tested? ==> w.at.At?)
              && w'.visited == if w.at.At? then w.visited + [w.at.ref] else w.visited
            else if step == WalkAdvance(id) then
              w.phase.Tested? && w'.phase.AtNode? && w'.visited == w.visited
            else w' == w
  {}

  /** A walk once started stays, with the pc and the snapshot it started with; a walk that is still
      running has been running ever since. */
  lemma {:induction false} WalkKeepsSnapshot(ss: seq<State>, steps: seq<Step>, i: nat, j: nat, id: nat)
    requires Run(ss, steps) && i < j < |ss| && steps[i].WalkStart? && steps[i].id == id
    ensures id in ss[j].walks
    ensures ss[j].walks[id].pc == steps[i].pc && ss[j].walks[id].snapshot == ss[i].registered
    ensures Walking(ss[j], id) && j > i + 1 ==> Walking(ss[j - 1], id)
    decreases j
  {
    assert Next(ss[j - 1], steps[j - 1], ss[j]);
    if j == i + 1 {
    } else {
      WalkKeepsSnapshot(ss, steps, i, j - 1, id);
      OneMove(ss[j - 1], steps[j - 1], ss[j], id);
    }
  }

  lemma LastTest(s: State, id: nat, s': State)
    requires Walking(s, id) && Sound(s, s.walks[id]) && Next(s, WalkTest(id), s') && s'.walks[id].phase.Done?
    ensures var w := s.walks[id];
            if s'.walks[id].phase.found then
              && w.at.At? && w.at.ref in w.snapshot && w.at.ref in s.mem.nodes
              && WrapTest(w.pc, s.mem.nodes[w.at.ref].AsRange())
            else
              forall n | n in w.snapshot && n in s.registered ::
                n in w.visited && n in s.mem.nodes && !WrapTest(w.pc, s.mem.nodes[n].AsRange())
  {}

  /** No step changes the range of a node that is live or unlinked and not past its checkpoint. */
  lemma RangeStays(s: State, step: Step, s': State, n: Ref)
    requires Placed(s) && Next(s, step, s') && (n in s.registered || n in s.retired)
    ensures n in s.mem.nodes && n in s'.mem.nodes && s'.mem.nodes[n].AsRange() == s.mem.nodes[n].AsRange()
  {
    assert s.mem.free == LinkAt(s.freeList, 0);
    assert Partitioned(s) && n in s.mem.nodes;
    assert s.freeList != [] ==> s.freeList[0] in Elems(s.freeList);
    hide Chain, NoDup, Elems, FirstWithStart, Without, CheckpointPassed;
  }

  lemma PlacedAt(ss: seq<State>, steps: seq<Step>, i: nat)
    requires Run(ss, steps) && i < |ss|
    ensures Placed(ss[i])
  {
    RunInv(ss, steps, i);
  }

  /** So the ranges that a running walk may meet are those that were registered when it began. */
  lemma {:induction false} SnapshotRanges(ss: seq<State>, steps: seq<Step>, i: nat, j: nat, id: nat, n: Ref)
    requires Run(ss, steps) && i < j < |ss| && steps[i].WalkStart? && steps[i].id == id
    requires Walking(ss[j], id) && n in ss[i].registered
    ensures n in ss[i].mem.nodes && n in ss[j].mem.nodes
    ensures ss[j].mem.nodes[n].AsRange() == ss[i].mem.nodes[n].AsRange()
    decreases j
  {
    hide Placed, Sound, Apply, Enabled, Inv;
    var before := ss[j - 1];
    assert Next(before, steps[j - 1], ss[j]);
    PlacedAt(ss, steps, j - 1);
    WalkKeepsSnapshot(ss, steps, i, j, id);
    if j == i + 1 {
      RangeStays(before, steps[j - 1], ss[j], n);
    } else {
      SnapshotRanges(ss, steps, i, j - 1, id, n);
      WalkKeepsSnapshot(ss, steps, i, j - 1, id);
      assert n in before.registered || n in before.retired by { SnapshotKept(ss, steps, j - 1, id, n); }
      RangeStays(before, steps[j - 1], ss[j], n);
    }
  }

  lemma SnapshotKept(ss: seq<State>, steps: seq<Step>, j: nat, id: nat, n: Ref)
    requires Run(ss, steps) && j < |ss| && Walking(ss[j], id) && n in ss[j].walks[id].snapshot
    ensures n in ss[j].registered || n in ss[j].retired
  {
    RunInv(ss, steps, j);
    assert Sound(ss[j], ss[j].walks[id]);
  }

  /** The answer of a walk that starts at step `i` and ends at step `j`, in any interleaving:
      "not generated code" means that no range registered throughout the walk contains pc, and
      "generated code" that some range registered when the walk began does. */
  lemma WalkAnswer(ss: seq<State>, steps: seq<Step>, i: nat, j: nat, id: nat)
    requires Run(ss, steps) && i < j < |steps|
    requires steps[i].WalkStart? && steps[i].id == id
    requires steps[j] == WalkTest(id) && id in ss[j + 1].walks && ss[j + 1].walks[id].phase.Done?
    ensures !ss[j + 1].walks[id].phase.found ==>
              forall n | n in ss[i].mem.nodes && (forall k | i <= k <= j :: n in ss[k].live) ::
                && id in ss[j].walks && n in ss[j].walks[id].visited
                && !WrapTest(steps[i].pc, ss[i].mem.nodes[n].AsRange())
    ensures ss[j + 1].walks[id].phase.found ==>
              exists n :: n in ss[i].live && n in ss[i].mem.nodes && WrapTest(steps[i].pc, ss[i].mem.nodes[n].AsRange())
  {
    hide Inv, Sound, Apply;
    assert Next(ss[j], steps[j], ss[j + 1]);
    RunInv(ss, steps, i);
    RunInv(ss, steps, j);
    InvParts(ss[i]);
    InvParts(ss[j]);
    WalkKeepsSnapshot(ss, steps, i, j, id);
    LastTest(ss[j], id, ss[j + 1]);
    forall n | forall k | i <= k <= j :: n in ss[k].live
      ensures n in ss[i].registered && n in ss[j].registered
    {
      assert n in ss[i].live && n in ss[j].live;
    }
    forall n | n in ss[i].registered
      ensures n in ss[i].mem.nodes && n in ss[j].mem.nodes
      ensures ss[j].mem.nodes[n].AsRange() == ss[i].mem.nodes[n].AsRange()
    {
      SnapshotRanges(ss, steps, i, j, id, n);
    }
  }

  // ---------------------------------------------------------------- termination of every walk

  /** How many of the steps `lo ..< hi` are moves of the walk. */
  ghost function Moves(steps: seq<Step>, lo: nat, hi: nat, id: nat): nat
    requires lo <= hi <= |steps|
  {
    if lo == hi then 0
    else
      var last := steps[hi - 1];
      Moves(steps, lo, hi - 1, id) + if last == WalkTest(id) || last == WalkAdvance(id) then 1 else 0
  }

  lemma {:induction false} DistinctWithin(refs: seq<Ref>, all: set<Ref>)
    requires NoDup(refs) && forall r | r in refs :: r in all
    ensures |refs| <= |all|
  {
    if refs == [] {
    } else {
      var last := refs[|refs| - 1];
      DistinctWithin(refs[..|refs| - 1], all - {last});
    }
  }

  /** A running walk has made two moves for every node visited, less one before it loads `next`. */
  lemma {:induction false} MovesCounted(ss: seq<State>, steps: seq<Step>, i: nat, j: nat, id: nat)
    requires Run(ss, steps) && i < j < |ss| && steps[i].WalkStart? && steps[i].id == id
    ensures id in ss[j].walks
    ensures Moves(steps, i, j, id) <= 2 * |ss[j].walks[id].visited| + 1
    ensures var w := ss[j].walks[id];
            !w.phase.Done? ==> Moves(steps, i, j, id) == 2 * |w.visited| - (if w.phase.Tested? then 1 else 0)
    decreases j
  {
    if j > i + 1 {
      MovesCounted(ss, steps, i, j - 1, id);
      OneMove(ss[j - 1], steps[j - 1], ss[j], id);
    } else {
      assert Next(ss[i], steps[i], ss[j]);
    }
  }

  /** Every walk ends, whatever the other threads do: it makes at most twice as many moves as there
      were live ranges when it began, plus one. */
  lemma {:induction false} WalkTerminates(ss: seq<State>, steps: seq<Step>, i: nat, j: nat, id: nat)
    requires Run(ss, steps) && i < j < |ss| && steps[i].WalkStart? && steps[i].id == id
    ensures Moves(steps, i, j, id) <= 2 * |ss[i].live| + 1
  {
    MovesCounted(ss, steps, i, j, id);
    WalkVisitsSnapshot(ss, steps, i, j, id);
    RunInv(ss, steps, i);
    LiveCount(ss[i].live);
  }

  lemma {:induction false} LiveCount(refs: seq<Ref>)
    requires NoDup(refs)
    ensures |Elems(refs)| == |refs|
  {
    if refs == [] {
      assert Elems(refs) == {};
    } else {
      var rest := refs[1..];
      LiveCount(rest);
      assert Elems(refs) == {refs[0]} + Elems(rest);
      assert refs[0] !in rest;
    }
  }

  lemma VisitWithinSnapshot(s: State, id: nat)
    requires Walking(s, id) && s.walks[id].phase.AtNode? && s.walks[id].at.At?
    requires Protected(s, s.walks[id]) && Covers(s, s.walks[id])
    ensures |s.walks[id].visited| + 1 <= |s.walks[id].snapshot|
  {
    var w := s.walks[id];
    DistinctWithin(w.visited + [w.at.ref], w.snapshot);
  }

  lemma {:induction false} WalkVisitsSnapshot(ss: seq<State>, steps: seq<Step>, i: nat, j: nat, id: nat)
    requires Run(ss, steps) && i < j < |ss| && steps[i].WalkStart? && steps[i].id == id
    ensures id in ss[j].walks && |ss[j].walks[id].visited| <= |ss[i].registered|
    decreases j
  {
    if j > i + 1 {
      WalkVisitsSnapshot(ss, steps, i, j - 1, id);
      OneMove(ss[j - 1], steps[j - 1], ss[j], id);
      if steps[j - 1] == WalkTest(id) && ss[j - 1].walks[id].at.At? {
        RunInv(ss, steps, j - 1);
        WalkKeepsSnapshot(ss, steps, i, j - 1, id);
        InvParts(ss[j - 1]);
        assert Next(ss[j - 1], steps[j - 1], ss[j]);
        VisitWithinSnapshot(ss[j - 1], id);
      }
    } else {
      assert Next(ss[i], steps[i], ss[j]);
    }
  }
}
