/** The ranges that adds and removals ask for, from the steps of a run alone, and that the nodes which the
    walks read hold exactly those: every interleaving is the plain list of ranges that the registry is to a
    single thread, changed where an add publishes and a removal unlinks. */
module CodeRangeCalls {
  import opened CodeRangeMemory
  import opened CodeRangeWalk
  import Registry = CodeRangeRegistry

  datatype Option<+T> = None | Some(value: T)

  // ---------------------------------------------------------------- the calls of a run

  /** The range that the add under way was asked to register. */
  function Asked(steps: seq<Step>): Option<Range> {
    if steps == [] then None
    else
      match steps[|steps| - 1]
      case AddCreate(r, _) => Some(r)
      case AddPublish => None
      case _ => Asked(steps[..|steps| - 1])
  }

  /** The adds and removals that have taken effect, in order. */
  function Calls(steps: seq<Step>): seq<Registry.Op> {
    if steps == [] then []
    else
      var before := steps[..|steps| - 1];
      match steps[|steps| - 1]
      case AddPublish =>
        Calls(before) + if Asked(before).Some? then [Registry.AddRange(Asked(before).value)] else []
      case RemoveUnlink(r) => Calls(before) + [Registry.RemoveRange(r)]
      case _ => Calls(before)
  }

  /** What is registered then, most recent first. */
  function Registered(steps: seq<Step>): seq<Range> {
    match Registry.After(Calls(steps))
    case Aborted => []
    case Holding(ranges) => ranges
  }

  // ---------------------------------------------------------------- every run keeps to its calls

  ghost predicate Allocated(s: State) { forall n | n in s.live :: n in s.mem.nodes }

  ghost predicate InAdd(s: State) { s.lock.Filled? || s.lock.Linked? }

  /** The live nodes hold what the calls have registered, and the node in hand what is asked for. */
  ghost predicate Filed(s: State, steps: seq<Step>) {
    && Allocated(s)
    && Registry.After(Calls(steps)) == Registry.Holding(Registry.RangesOf(s.mem.nodes, s.live))
    && (InAdd(s) <==> Asked(steps).Some?)
    && (InAdd(s) ==> s.lock.n in s.mem.nodes && s.mem.nodes[s.lock.n].AsRange() == Asked(steps).value)
  }

  lemma LiveAllocated(s: State)
    requires Placed(s)
    ensures Allocated(s) && forall n | n in s.live :: n in s.registered
  {}

  /** Steps that leave the live list alone leave its ranges alone. */
  lemma RangesKept(s: State, step: Step, s': State)
    requires Placed(s) && Next(s, step, s')
    ensures forall n | n in s.live :: n in s'.mem.nodes
    ensures Registry.RangesOf(s'.mem.nodes, s.live) == Registry.RangesOf(s.mem.nodes, s.live)
  {
    LiveAllocated(s);
    hide Placed, Next;
    forall n | n in s.live
      ensures n in s'.mem.nodes && s'.mem.nodes[n].AsRange() == s.mem.nodes[n].AsRange()
    {
      RangeStays(s, step, s', n);
    }
  }

  lemma AfterOneMore(calls: seq<Registry.Op>, call: Registry.Op)
    ensures Registry.After(calls + [call]) ==
            var before := Registry.After(calls);
            if before.Aborted? then Registry.Aborted else Registry.Applied(before.ranges, call)
  {
    assert (calls + [call])[..|calls|] == calls;
  }

  /** How one more step changes the calls. */
  lemma CallsNext(steps: seq<Step>, step: Step)
    ensures Asked(steps + [step]) ==
            if step.AddCreate? then Some(step.r) else if step.AddPublish? then None else Asked(steps)
    ensures Calls(steps + [step]) ==
            if step.AddPublish? && Asked(steps).Some? then Calls(steps) + [Registry.AddRange(Asked(steps).value)]
            else if step.RemoveUnlink? then Calls(steps) + [Registry.RemoveRange(step.r)]
            else Calls(steps)
  {
    assert (steps + [step])[..|steps|] == steps;
  }

  lemma PublishEffect(s: State, s': State)
    requires Next(s, AddPublish, s')
    ensures s.lock.Linked? && s'.lock.Unlocked? && s'.mem.nodes == s.mem.nodes && s'.live == [s.lock.n] + s.live
  {}

  lemma PublishFiled(s: State, steps: seq<Step>, s': State)
    requires Filed(s, steps) && Next(s, AddPublish, s')
    ensures Filed(s', steps + [AddPublish])
  {
    PublishEffect(s, s');
    CallsNext(steps, AddPublish);
    AfterOneMore(Calls(steps), Registry.AddRange(Asked(steps).value));
    hide Next, Registry.After, Calls, Asked;
    assert Registry.RangesOf(s'.mem.nodes, s'.live) ==
           [Asked(steps).value] + Registry.RangesOf(s.mem.nodes, s.live);
  }

  lemma UnlinkEffect(s: State, r: Range, s': State)
    requires Next(s, RemoveUnlink(r), s')
    ensures s.lock.Unlocked? && s'.lock.Unlocked?
    ensures var i := FirstWithStart(s.mem.nodes, s.live, r.start);
            i < |s.live| && s.mem.nodes[s.live[i]].size == r.size && s'.live == Without(s.live, i)
  {}

  lemma UnlinkFiled(s: State, steps: seq<Step>, r: Range, s': State)
    requires Placed(s) && Filed(s, steps) && Next(s, RemoveUnlink(r), s')
    ensures Filed(s', steps + [RemoveUnlink(r)])
  {
    hide Next, Placed, Registry.After, Calls, Asked, Registry.ContentsOf, FirstWithStart, Registry.FirstStart;
    var i := FirstWithStart(s.mem.nodes, s.live, r.start);
    RangesKept(s, RemoveUnlink(r), s');
    UnlinkEffect(s, r, s');
    CallsNext(steps, RemoveUnlink(r));
    AfterOneMore(Calls(steps), Registry.RemoveRange(r));
    Registry.RemovalFound(s.mem.nodes, s.live, r, i);
    WithoutDropped(s'.mem.nodes, s.live, i);
  }

  lemma WithoutDropped(nodes: map<Ref, Node>, refs: seq<Ref>, i: nat)
    requires (forall n | n in refs :: n in nodes) && i < |refs|
    ensures forall n | n in Without(refs, i) :: n in nodes
    ensures Registry.RangesOf(nodes, Without(refs, i)) == Registry.Dropped(Registry.RangesOf(nodes, refs), i)
  {}

  lemma OtherEffect(s: State, step: Step, s': State)
    requires Next(s, step, s') && !step.AddPublish? && !step.RemoveUnlink?
    ensures s'.live == s.live && (InAdd(s') <==> InAdd(s) || step.AddCreate?)
    ensures step.AddCreate? ==> !InAdd(s) && s'.lock.n in s'.mem.nodes && s'.mem.nodes[s'.lock.n].AsRange() == step.r
  {
    hide CheckpointPassed, FirstWithStart;
  }

  /** Nobody writes to the range of the node in hand but the add that fills it in. */
  lemma InHandStays(s: State, step: Step, s': State)
    requires Placed(s) && Next(s, step, s') && InAdd(s) && InAdd(s') && s.lock.n in s.mem.nodes
    ensures s'.lock.n == s.lock.n && s.lock.n in s'.mem.nodes
    ensures s'.mem.nodes[s.lock.n].AsRange() == s.mem.nodes[s.lock.n].AsRange()
  {
    assert Partitioned(s) && s.lock.n in InHand(s);
    hide Chain, NoDup, CheckpointPassed, FirstWithStart;
  }

  /** The other steps. */
  lemma OtherFiled(s: State, steps: seq<Step>, step: Step, s': State)
    requires Placed(s) && Filed(s, steps) && Next(s, step, s') && !step.AddPublish? && !step.RemoveUnlink?
    ensures Filed(s', steps + [step])
  {
    hide Next, Placed, Registry.After, Calls, Asked, Registry.RangesOf;
    CallsNext(steps, step);
    RangesKept(s, step, s');
    OtherEffect(s, step, s');
    if InAdd(s) { InHandStays(s, step, s'); }
  }

  lemma {:induction false} RunFiled(ss: seq<State>, steps: seq<Step>, i: nat)
    requires Run(ss, steps) && i < |ss|
    ensures Filed(ss[i], steps[..i])
  {
    hide Next, Placed, Filed;
    if i == 0 {
      StartFiled(ss[0]);
      assert steps[..0] == [];
    } else {
      RunFiled(ss, steps, i - 1);
      PlacedAt(ss, steps, i - 1);
      var step := steps[i - 1];
      assert steps[..i] == steps[..i - 1] + [step];
      match step {
        case AddPublish => PublishFiled(ss[i - 1], steps[..i - 1], ss[i]);
        case RemoveUnlink(r) => UnlinkFiled(ss[i - 1], steps[..i - 1], r, ss[i]);
        case _ => OtherFiled(ss[i - 1], steps[..i - 1], step, ss[i]);
      }
    }
  }

  lemma StartFiled(s: State)
    requires Initial(s)
    ensures Filed(s, [])
  {
    assert Registry.RangesOf(s.mem.nodes, s.live) == [];
  }

  /** In every run the live nodes hold, in order, the ranges that a plain list holds after the same calls:
      an add takes effect where it publishes its node, with the range it was asked for, and a removal where
      it unlinks one. No removal that goes on lacks its match. */
  lemma LiveRanges(ss: seq<State>, steps: seq<Step>, i: nat)
    requires Run(ss, steps) && i < |ss|
    ensures !Registry.After(Calls(steps[..i])).Aborted?
    ensures |ss[i].live| == |Registered(steps[..i])|
    ensures forall k | 0 <= k < |ss[i].live| ::
              && ss[i].live[k] in ss[i].mem.nodes
              && ss[i].mem.nodes[ss[i].live[k]].start == Registered(steps[..i])[k].start
              && ss[i].mem.nodes[ss[i].live[k]].size == Registered(steps[..i])[k].size
  {
    RunFiled(ss, steps, i);
  }

  /** With the lock free a removal goes on exactly if the most recent range with its start has its size. */
  lemma RemovalGoesOnIff(ss: seq<State>, steps: seq<Step>, i: nat, r: Range)
    requires Run(ss, steps) && i < |ss| && ss[i].lock.Unlocked?
    ensures Enabled(ss[i], RemoveUnlink(r)) <==>
            !Registry.After(Calls(steps[..i]) + [Registry.RemoveRange(r)]).Aborted?
  {
    RunFiled(ss, steps, i);
    var s := ss[i];
    AfterOneMore(Calls(steps[..i]), Registry.RemoveRange(r));
    Registry.RemovalFound(s.mem.nodes, s.live, r, FirstWithStart(s.mem.nodes, s.live, r.start));
    hide Registry.After, Calls, Registry.ContentsOf, Registry.RangesOf;
  }

  // ---------------------------------------------------------------- a range that stays has a node that stays

  /** The node is live in all these states. */
  ghost predicate LiveThrough(ss: seq<State>, i: nat, j: nat, n: Ref)
    requires j < |ss|
  {
    forall k | i <= k <= j :: n in ss[k].live
  }

  ghost predicate HoldsRange(s: State, n: Ref, r: Range) { n in s.mem.nodes && s.mem.nodes[n].AsRange() == r }

  lemma NodeFor(ss: seq<State>, steps: seq<Step>, i: nat, r: Range) returns (n: Ref)
    requires Run(ss, steps) && i < |ss| && r in Registered(steps[..i])
    ensures n in ss[i].live && HoldsRange(ss[i], n, r)
  {
    RunFiled(ss, steps, i);
    var k :| 0 <= k < |Registered(steps[..i])| && Registered(steps[..i])[k] == r;
    n := ss[i].live[k];
  }

  lemma {:induction false} RangeThrough(ss: seq<State>, steps: seq<Step>, i: nat, j: nat, n: Ref, r: Range)
    requires Run(ss, steps) && i <= j < |ss| && LiveThrough(ss, i, j, n) && HoldsRange(ss[j], n, r)
    ensures forall k | i <= k <= j :: HoldsRange(ss[k], n, r)
    decreases j
  {
    if i == j {
    } else {
      hide HoldsRange, Next;
      assert n in ss[j - 1].live;
      HeldBefore(ss, steps, j - 1, n, r);
      RangeThrough(ss, steps, i, j - 1, n, r);
    }
  }

  lemma HeldBefore(ss: seq<State>, steps: seq<Step>, i: nat, n: Ref, r: Range)
    requires Run(ss, steps) && i < |steps| && n in ss[i].live
    ensures HoldsRange(ss[i], n, r) <==> HoldsRange(ss[i + 1], n, r)
  {
    hide Placed, Next;
    assert Next(ss[i], steps[i], ss[i + 1]);
    PlacedAt(ss, steps, i);
    LiveAllocated(ss[i]);
    RangeStays(ss[i], steps[i], ss[i + 1], n);
  }

  ghost predicate Older(s: State, m: Ref, n: Ref) { m in s.stamp && n in s.stamp && s.stamp[m] < s.stamp[n] }

  /** A node older than one that was live already was live then, too. */
  lemma OlderBefore(s: State, step: Step, s': State, m: Ref, n: Ref)
    requires Stamped(s) && Placed(s) && Next(s, step, s')
    requires n in s.live && n in s'.live && m in s'.live && Older(s', m, n)
    ensures m in s.live && Older(s, m, n)
  {
    assert n in s.registered;
    if step.RemoveUnlink? {
      var i := FirstWithStart(s.mem.nodes, s.live, step.r.start);
      assert m in Without(s.live, i) && m in s.live && m in s.registered;
    } else if step.AddPublish? {
      assert s.stamp[n] < s.clock;
    } else {
      assert m in s.registered;
    }
  }

  lemma OlderAt(ss: seq<State>, steps: seq<Step>, i: nat, m: Ref, n: Ref)
    requires Run(ss, steps) && i < |steps| && n in ss[i].live && n in ss[i + 1].live
    requires m in ss[i + 1].live && Older(ss[i + 1], m, n)
    ensures m in ss[i].live && Older(ss[i], m, n)
  {
    hide Next, Placed, Stamped, Older;
    RunInv(ss, steps, i);
    assert Next(ss[i], steps[i], ss[i + 1]);
    OlderBefore(ss[i], steps[i], ss[i + 1], m, n);
  }

  lemma {:induction false} OlderThrough(ss: seq<State>, steps: seq<Step>, i: nat, j: nat, m: Ref, n: Ref)
    requires Run(ss, steps) && i <= j < |ss| && LiveThrough(ss, i, j, n) && m in ss[j].live && Older(ss[j], m, n)
    ensures LiveThrough(ss, i, j, m)
    decreases j
  {
    if i == j {
    } else {
      hide Next, Older;
      assert n in ss[j - 1].live && n in ss[j].live;
      OlderAt(ss, steps, j - 1, m, n);
      OlderThrough(ss, steps, i, j - 1, m, n);
    }
  }

  lemma TakenNode(refs: seq<Ref>, i: nat, n: Ref)
    requires i < |refs| && n in refs
    ensures n == refs[i] || n in Without(refs, i)
  {
    var k :| 0 <= k < |refs| && refs[k] == n;
    if k != i { assert Without(refs, i)[if k < i then k else k - 1] == n; }
  }

  lemma UnlinkedBy(s: State, step: Step, s': State, n: Ref)
    requires Next(s, step, s') && n in s.live && n !in s'.live
    ensures step.RemoveUnlink?
  {
    hide FirstWithStart, CheckpointPassed;
  }

  lemma InvOrdered(s: State)
    requires Inv(s)
    ensures Placed(s) && Ordered(s.stamp, s.live) && forall n | n in s.live :: n in s.registered
  {}

  /** When a removal takes the node, another one with the same range is older. */
  lemma OlderTwin(s: State, step: Step, s': State, n: Ref, m: Ref, r: Range)
    requires Inv(s) && Next(s, step, s') && n in s.live && n !in s'.live && HoldsRange(s, n, r)
    requires m in s'.live && HoldsRange(s', m, r)
    ensures m in s.live && Older(s, m, n)
  {
    hide Inv, Next, Placed, Ordered, FirstWithStart, Without;
    UnlinkedBy(s, step, s', n);
    InvOrdered(s);
    UnlinkEffect(s, step.r, s');
    var i := FirstWithStart(s.mem.nodes, s.live, step.r.start);
    TakenNode(s.live, i, n);
    StillThere(s.live, i, m);
    RangeStays(s, step, s', m);
    var p := TwinAfter(s.mem.nodes, s.live, i, step.r.start, m);
    OrderedPair(s.stamp, s.live, i, p);
  }

  lemma StillThere(refs: seq<Ref>, i: nat, m: Ref)
    requires i < |refs| && m in Without(refs, i)
    ensures m in refs
  {}

  /** Of the nodes that stay, those with the same start come after the first one. */
  lemma TwinAfter(nodes: map<Ref, Node>, refs: seq<Ref>, i: nat, start: Word, m: Ref) returns (p: nat)
    requires i == FirstWithStart(nodes, refs, start) < |refs| && m in Without(refs, i)
    requires m in nodes && nodes[m].start == start
    ensures i < p < |refs| && refs[p] == m
  {
    var k :| 0 <= k < |Without(refs, i)| && Without(refs, i)[k] == m;
    assert forall j | 0 <= j < i :: Without(refs, i)[j] == refs[j];
    assert i <= k;
    p := k + 1;
  }

  lemma OrderedPair(stamp: map<Ref, nat>, live: seq<Ref>, i: nat, p: nat)
    requires Ordered(stamp, live) && i < p < |live|
    ensures live[i] in stamp && live[p] in stamp && stamp[live[p]] < stamp[live[i]]
  {}

  /** A range that is registered all the time has a node that is live all the time: removals take the
      most recent one of those with the same start. */
  lemma {:induction false} NodeThrough(ss: seq<State>, steps: seq<Step>, i: nat, j: nat, r: Range) returns (n: Ref)
    requires Run(ss, steps) && i <= j < |ss| && forall k | i <= k <= j :: r in Registered(steps[..k])
    ensures LiveThrough(ss, i, j, n) && forall k | i <= k <= j :: HoldsRange(ss[k], n, r)
    decreases j
  {
    hide Registered, Next, Inv, HoldsRange, Older;
    if i == j {
      n := NodeFor(ss, steps, j, r);
    } else {
      n := NodeThrough(ss, steps, i, j - 1, r);
      assert HoldsRange(ss[j - 1], n, r) && n in ss[j - 1].live;
      assert Next(ss[j - 1], steps[j - 1], ss[j]);
      if n in ss[j].live {
        HeldBefore(ss, steps, j - 1, n, r);
      } else {
        var m := NodeFor(ss, steps, j, r);
        RunInv(ss, steps, j - 1);
        OlderTwin(ss[j - 1], steps[j - 1], ss[j], n, m, r);
        OlderThrough(ss, steps, i, j - 1, m, n);
        RangeThrough(ss, steps, i, j, m, r);
        n := m;
      }
    }
  }

  // ---------------------------------------------------------------- what a walk says about the calls

  /** The answer of a walk from step `i` to step `j`, in any interleaving, by the calls alone: a range that
      is registered all the time and contains pc makes it positive, and a positive one means that a range
      which contains pc was registered when the walk began. */
  lemma WalkAnswersCalls(ss: seq<State>, steps: seq<Step>, i: nat, j: nat, id: nat)
    requires Run(ss, steps) && i < j < |steps| && steps[i].WalkStart? && steps[i].id == id
    requires steps[j] == WalkTest(id) && id in ss[j + 1].walks && ss[j + 1].walks[id].phase.Done?
    ensures (exists r :: (forall k | i <= k <= j :: r in Registered(steps[..k])) && WrapTest(steps[i].pc, r)) ==>
              ss[j + 1].walks[id].phase.found
    ensures ss[j + 1].walks[id].phase.found ==>
              exists r :: r in Registered(steps[..i]) && WrapTest(steps[i].pc, r)
  {
    WalkAnswer(ss, steps, i, j, id);
    var pc := steps[i].pc;
    hide Registered, Next, WrapTest;
    if r :| (forall k | i <= k <= j :: r in Registered(steps[..k])) && WrapTest(pc, r) {
      var n := NodeThrough(ss, steps, i, j, r);
      assert HoldsRange(ss[i], n, r);
      assert forall k | i <= k <= j :: n in ss[k].live;
    }
    if ss[j + 1].walks[id].phase.found {
      var n :| n in ss[i].live && n in ss[i].mem.nodes && WrapTest(pc, ss[i].mem.nodes[n].AsRange());
      LiveRegistered(ss, steps, i, n);
    }
  }

  lemma LiveRegistered(ss: seq<State>, steps: seq<Step>, i: nat, n: Ref)
    requires Run(ss, steps) && i < |ss| && n in ss[i].live
    ensures n in ss[i].mem.nodes && ss[i].mem.nodes[n].AsRange() in Registered(steps[..i])
  {
    LiveRanges(ss, steps, i);
    var k :| 0 <= k < |ss[i].live| && ss[i].live[k] == n;
    assert ss[i].mem.nodes[n].AsRange() == Registered(steps[..i])[k];
  }

  // ---------------------------------------------------------------- an added range is found

  lemma {:induction false} AskedUntilPublish(ss: seq<State>, steps: seq<Step>, a: nat, p: nat)
    requires Run(ss, steps) && a < p <= |steps| && steps[a].AddCreate?
    requires forall k | a < k < p :: !steps[k].AddPublish?
    ensures Asked(steps[..p]) == Some(steps[a].r)
    decreases p
  {
    hide Next, Calls, Asked, Registry.After, Registry.RangesOf;
    assert steps[..p] == steps[..p - 1] + [steps[p - 1]];
    CallsNext(steps[..p - 1], steps[p - 1]);
    if p == a + 1 {
    } else {
      AskedUntilPublish(ss, steps, a, p - 1);
      RunFiled(ss, steps, p - 1);
      CreateWhenFree(ss[p - 1], steps[p - 1], ss[p]);
    }
  }

  lemma CreateWhenFree(s: State, step: Step, s': State)
    requires Next(s, step, s')
    ensures step.AddCreate? ==> !InAdd(s)
  {
    hide FirstWithStart, CheckpointPassed;
  }

  /** A removal takes a range that is the one it asks for, so that all others stay. */
  lemma {:induction false} StaysUnlessRemoved(ss: seq<State>, steps: seq<Step>, i: nat, j: nat, r: Range)
    requires Run(ss, steps) && i <= j <= |steps| && r in Registered(steps[..i])
    requires forall k | i <= k < j :: steps[k] != RemoveUnlink(r)
    ensures r in Registered(steps[..j])
    decreases j
  {
    hide *;
    if i == j {
    } else {
      StaysUnlessRemoved(ss, steps, i, j - 1, r);
      NeverAborted(ss, steps, j - 1);
      NeverAborted(ss, steps, j);
      assert steps[..j] == steps[..j - 1] + [steps[j - 1]];
      OthersStay(steps[..j - 1], steps[j - 1], r);
    }
  }

  lemma NeverAborted(ss: seq<State>, steps: seq<Step>, i: nat)
    requires Run(ss, steps) && i <= |steps|
    ensures !Registry.After(Calls(steps[..i])).Aborted?
  {
    RunFiled(ss, steps, i);
  }

  lemma OthersStay(steps: seq<Step>, step: Step, r: Range)
    requires !Registry.After(Calls(steps)).Aborted? && !Registry.After(Calls(steps + [step])).Aborted?
    requires r in Registered(steps) && step != RemoveUnlink(r)
    ensures r in Registered(steps + [step])
  {
    hide Calls, Registry.After, Asked, Registry.FirstStart;
    CallsNext(steps, step);
    var rs := Registered(steps);
    if step.AddPublish? && Asked(steps).Some? {
      AfterOneMore(Calls(steps), Registry.AddRange(Asked(steps).value));
    } else if step.RemoveUnlink? {
      AfterOneMore(Calls(steps), Registry.RemoveRange(step.r));
      FirstStartHas(rs, step.r.start);
      OtherKept(rs, Registry.FirstStart(rs, step.r.start), r);
    }
  }

  lemma OtherKept(rs: seq<Range>, i: nat, r: Range)
    requires i < |rs| && r in rs && rs[i] != r
    ensures r in Registry.Dropped(rs, i)
  {
    var k :| 0 <= k < |rs| && rs[k] == r;
    assert Registry.Dropped(rs, i)[if k < i then k else k - 1] == r;
  }

  lemma {:induction false} FirstStartHas(rs: seq<Range>, start: Word)
    ensures var i := Registry.FirstStart(rs, start); i < |rs| ==> rs[i].start == start
  {
    if rs == [] || rs[0].start == start {
    } else {
      FirstStartHas(rs[1..], start);
    }
  }

  lemma PublishedAt(ss: seq<State>, steps: seq<Step>, a: nat, p: nat)
    requires Run(ss, steps) && a < p < |steps|
    requires steps[a].AddCreate? && steps[p].AddPublish? && forall k | a < k < p :: !steps[k].AddPublish?
    ensures steps[a].r in Registered(steps[..p + 1])
  {
    hide Next, Registry.After, Calls, Asked;
    AskedUntilPublish(ss, steps, a, p);
    LiveRanges(ss, steps, p);
    assert steps[..p + 1] == steps[..p] + [steps[p]];
    CallsNext(steps[..p], steps[p]);
    AfterOneMore(Calls(steps[..p]), Registry.AddRange(steps[a].r));
  }

  /** A non-wrapping range whose add was published before a walk began, and which no removal has asked to
      take until the walk ended, is found by it, for every pc in its interval. */
  lemma AddedIsFound(ss: seq<State>, steps: seq<Step>, a: nat, p: nat, i: nat, j: nat, id: nat)
    requires Run(ss, steps) && a < p < i < j < |steps|
    requires steps[a].AddCreate? && steps[p].AddPublish? && forall k | a < k < p :: !steps[k].AddPublish?
    requires forall k | p < k < j :: steps[k] != RemoveUnlink(steps[a].r)
    requires steps[i].WalkStart? && steps[i].id == id
    requires steps[j] == WalkTest(id) && id in ss[j + 1].walks && ss[j + 1].walks[id].phase.Done?
    requires var r := steps[a].r; r.start <= steps[i].pc < r.start + r.size <= 0x1_0000_0000_0000_0000
    ensures ss[j + 1].walks[id].phase.found
  {
    hide Registered, Next;
    var r := steps[a].r;
    assert r in Registered(steps[..p + 1]) by { PublishedAt(ss, steps, a, p); }
    forall k | i <= k <= j ensures r in Registered(steps[..k]) {
      StaysUnlessRemoved(ss, steps, p + 1, k, r);
    }
    WrapTestIsMembership(r);
    assert WrapTest(steps[i].pc, r) == Holds(r, steps[i].pc);
    WalkAnswersCalls(ss, steps, i, j, id);
  }
}
