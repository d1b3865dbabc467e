/** When can a connection still be called after it was disconnected? Exactly while something that can
    deliver to it is under way: a bind or delivery of it in some thread, or an entry left in the queue. */
module InprocUnbind {
  import opened InprocService
  import Queue = InprocQueue
  import Binding = InprocBinding

  // ---------------------------------------------------------------- what is under way

  predicate Binds(f: Frame) { f.BindLookup? || f.BindAdopt? || f.BindCreate? || f.BindEnqueue? }

  /** The frame works for this connection. */
  predicate OfConn(f: Frame, n: int) { (f.Delivers() || Binds(f)) && f.connId == n }

  /** A bind about to fail: the service runs, but under no token that could be found. */
  predicate Hopeless(g: Globals, f: Frame) {
    f.BindCreate? && g.RecOf(f.cls).token.None? && f.cls in g.services && g.services[f.cls].token.None?
  }

  predicate LiveFrame(g: Globals, f: Frame, n: int) { OfConn(f, n) && !Hopeless(g, f) }

  /** The frame is a claim of a bind that has timed out. */
  predicate TimesOut(f: Frame, connId: int, c: ClassName) {
    f.WorkerClaim? && !f.have && f.i < |f.batch| && f.batch[f.i].connId == connId && f.batch[f.i].cls == c
  }

  /** The worker has already given this entry up and is about to drop it. */
  predicate Doomed(s: State, p: Pending) {
    && s.g.workers.thread.Some?
    && var stack := Stack(s, s.g.workers.thread.value);
    && stack != [] && TimesOut(stack[0], p.connId, p.cls)
  }

  ghost predicate NoLiveFrame(s: State, n: int) {
    forall t: Thread, i: nat {:trigger Stack(s, t)[i]} | i < |Stack(s, t)| :: !LiveFrame(s.g, Stack(s, t)[i], n)
  }

  ghost predicate OnlyDoomed(s: State, n: int) { forall p | p in s.g.queue.pending && p.connId == n :: Doomed(s, p) }

  /** Nothing under way can deliver to this connection. */
  ghost predicate Quiet(s: State, n: int) { NoLiveFrame(s, n) && OnlyDoomed(s, n) }

  // ---------------------------------------------------------------- quiet stays quiet

  predicate Rebinds(step: Step, n: int) { step.CallBind? && step.connId == n }

  lemma TokenStaysAway(g: Globals, t: Thread, f: Frame, choice: Choice, c: ClassName)
    requires g.RecOf(c).token.None? && c in g.services && g.services[c].token.None?
    ensures var g' := RunFrame(g, t, f, choice).g;
            g'.RecOf(c).token.None? && g'.services == g.services
  {}

  /** New frames of the connection come only from a live frame, or from the claim of a queued entry. */
  lemma LiveOrigin(g: Globals, t: Thread, f: Frame, choice: Choice, k: nat, n: int)
    requires var o := RunFrame(g, t, f, choice); k < |o.frames| && LiveFrame(o.g, o.frames[k], n)
    ensures || LiveFrame(g, f, n)
            || (&& f.WorkerClaim? && f.have && f.i < |f.batch| && f.batch[f.i].connId == n
                && IndexOf(g.queue.pending, n, f.batch[f.i].cls) < |g.queue.pending|)
  {}

  lemma QuietFrames(s: State, t: Thread, choice: Choice, n: int)
    requires Queue.WorkerInv(s) && Quiet(s, n) && Enabled(s, Exec(t, choice))
    ensures NoLiveFrame(Apply(s, Exec(t, choice)), n)
  {
    var s' := Apply(s, Exec(t, choice));
    var f := Top(s, t);
    var o := RunFrame(s.g, t, f, choice);
    assert f == Stack(s, t)[|Stack(s, t)| - 1];
    forall u: Thread, i: nat | i < |Stack(s', u)| ensures !LiveFrame(s'.g, Stack(s', u)[i], n) {
      FrameOrigin(s, Exec(t, choice), u, i);
      var x := Stack(s', u)[i];
      if LiveFrame(s'.g, x, n) {
        if Kept(s, u, i, x) {
          assert Stack(s, u)[i] == x;
          TokenStaysAway(s.g, t, f, choice, x.cls);
        } else {
          LiveOrigin(s.g, t, f, choice, i - (|Stack(s, t)| - 1), n);
          ClaimNotDoomed(s, t, n);
        }
        assert false;
      }
    }
  }

  /** A claim that will deliver does not meet an entry that the worker has given up. */
  lemma ClaimNotDoomed(s: State, t: Thread, n: int)
    requires Queue.WorkerInv(s) && OnlyDoomed(s, n) && Stack(s, t) != []
    ensures var f := Top(s, t);
            f.WorkerClaim? && f.have && f.i < |f.batch| && f.batch[f.i].connId == n ==>
              IndexOf(s.g.queue.pending, n, f.batch[f.i].cls) == |s.g.queue.pending|
  {
    var f := Top(s, t);
    assert f == Stack(s, t)[|Stack(s, t)| - 1];
  }

  /** The worker drops the entry it has given up, and that was the only one of its connection and class. */
  lemma DoomedDropped(q: InprocService.Queue, f: Frame, p: Pending)
    requires Queue.QueueInv(q) && TimesOut(f, p.connId, p.cls) && p in q.pending
    ensures var k := IndexOf(q.pending, p.connId, p.cls); k < |q.pending| && p !in Erase(q.pending, k)
  {
    var k := IndexOf(q.pending, p.connId, p.cls);
    var i :| 0 <= i < |q.pending| && q.pending[i] == p;
    var left := Erase(q.pending, k);
    hide IndexOf, Queue.QueueInv;
    assert Unlike(q.pending) by { UnlikeEntries(q); }
    forall a | 0 <= a < |left| ensures left[a] != p {
      var b := if a < k then a else a + 1;
      assert left[a] == q.pending[b];
      assert !Same(q.pending[b], q.pending[k]);
    }
  }

  predicate Same(p: Pending, r: Pending) { p.connId == r.connId && p.cls == r.cls }

  /** No two entries are for the same connection and class. */
  ghost predicate Unlike(q: seq<Pending>) { forall i, j | 0 <= i < |q| && 0 <= j < |q| && i != j :: !Same(q[i], q[j]) }

  lemma UnlikeEntries(q: InprocService.Queue)
    requires Queue.QueueInv(q)
    ensures Unlike(q.pending)
  {
    forall i, j | 0 <= i < |q.pending| && 0 <= j < |q.pending| && i != j ensures !Same(q.pending[i], q.pending[j]) {
      if i < j {
        assert Queue.Apart(q.pending[i], q.pending[j]);
      } else {
        assert Queue.Apart(q.pending[j], q.pending[i]);
      }
    }
  }

  lemma QuietQueue(s: State, t: Thread, choice: Choice, n: int)
    requires Queue.WorkerInv(s) && Queue.TicketInv(s) && Quiet(s, n) && Enabled(s, Exec(t, choice))
    ensures OnlyDoomed(Apply(s, Exec(t, choice)), n)
  {
    var s' := Apply(s, Exec(t, choice));
    var f := Top(s, t);
    assert f == Stack(s, t)[|Stack(s, t)| - 1];
    Queue.PendingOrigin(s.g, t, f, choice);
    Queue.FrameEffect(s.g, t, f, choice);
    forall p | p in s'.g.queue.pending && p.connId == n ensures Doomed(s', p) {
      assert p in s.g.queue.pending && Doomed(s, p);
      var w := s.g.workers.thread.value;
      if t == w && |Stack(s, w)| == 1 {
        DoomedDropped(s.g.queue, f, p);
        assert false;
      }
      hide RunFrame, Queue.QueueInv, Queue.TicketInv;
      assert Stack(s', w)[0] == Stack(s, w)[0];
    }
  }

  /** The step that leads from `s` to `s'` calls the connection. */
  predicate DeliversTo(s: State, s': State, n: int) {
    var k := |s.g.log.deliveries|;
    |s'.g.log.deliveries| == k + 1 && s'.g.log.deliveries[k].connId == n
  }

  /** A quiet connection stays quiet until it binds again, and no step delivers to it. */
  lemma QuietStep(s: State, step: Step, n: int)
    requires Queue.WorkerInv(s) && Queue.TicketInv(s) && Quiet(s, n) && Enabled(s, step) && !Rebinds(step, n)
    ensures Quiet(Apply(s, step), n) && !DeliversTo(s, Apply(s, step), n)
  {
    var s' := Apply(s, step);
    if step.Exec? {
      QuietFrames(s, step.t, step.choice, n);
      QuietQueue(s, step.t, step.choice, n);
      var f := Top(s, step.t);
      assert f == Stack(s, step.t)[|Stack(s, step.t)| - 1];
      Binding.FrameDeliveries(s.g, step.t, f, step.choice);
      hide RunFrame;
    } else {
      forall u: Thread, i: nat | i < |Stack(s', u)| ensures !LiveFrame(s'.g, Stack(s', u)[i], n) {
        FrameOrigin(s, step, u, i);
        if Kept(s, u, i, Stack(s', u)[i]) { assert !LiveFrame(s.g, Stack(s, u)[i], n); }
      }
      QuietQueueCalls(s, step, n);
    }
  }

  lemma QuietQueueCalls(s: State, step: Step, n: int)
    requires Quiet(s, n) && Enabled(s, step) && !step.Exec? && !Rebinds(step, n)
    ensures OnlyDoomed(Apply(s, step), n)
  {
    var s' := Apply(s, step);
    forall p | p in s'.g.queue.pending && p.connId == n ensures Doomed(s', p) {
      assert p in s.g.queue.pending && Doomed(s, p);
      var w := s.g.workers.thread.value;
      assert Stack(s', w) != [] && Stack(s', w)[0] == Stack(s, w)[0];
    }
  }

  // ---------------------------------------------------------------- what delivers has an instance

  /** Deliveries are begun, and claims made, only for classes with a running instance. */
  predicate FrameInst(g: Globals, f: Frame) {
    && (f.Delivers() ==> g.RecOf(f.cls).instance.Some?)
    && (f.WorkerClaim? && f.have && f.i < |f.batch| ==> g.RecOf(f.batch[f.i].cls).instance.Some?)
  }

  ghost predicate InstInv(s: State) {
    forall t: Thread, i: nat {:trigger Stack(s, t)[i]} | i < |Stack(s, t)| :: FrameInst(s.g, Stack(s, t)[i])
  }

  lemma InstFrames(g: Globals, t: Thread, f: Frame, choice: Choice)
    requires FrameInst(g, f)
    ensures var o := RunFrame(g, t, f, choice); forall k | 0 <= k < |o.frames| :: FrameInst(o.g, o.frames[k])
  {}

  lemma InstStays(g: Globals, g': Globals, f: Frame)
    requires FrameInst(g, f) && Binding.CreateEffect(g, g')
    ensures FrameInst(g', f)
  {
    if f.Delivers() {
      assert Binding.Extends(g.RecOf(f.cls), g'.RecOf(f.cls));
    } else if f.WorkerClaim? && f.i < |f.batch| {
      var c := f.batch[f.i].cls;
      assert Binding.Extends(g.RecOf(c), g'.RecOf(c));
    }
  }

  lemma InstStep(s: State, step: Step)
    requires InstInv(s) && Enabled(s, step)
    ensures InstInv(Apply(s, step))
  {
    var s' := Apply(s, step);
    if step.Exec? {
      assert Top(s, step.t) == Stack(s, step.t)[|Stack(s, step.t)| - 1];
      InstFrames(s.g, step.t, Top(s, step.t), step.choice);
      Binding.FrameCreates(s.g, step.t, Top(s, step.t), step.choice);
      hide RunFrame, Binding.CreateEffect;
    } else {
      Binding.SameRecords(s.g, s'.g);
      hide Binding.CreateEffect;
    }
    forall t: Thread, i: nat | i < |Stack(s', t)| ensures FrameInst(s'.g, Stack(s', t)[i]) {
      FrameOrigin(s, step, t, i);
      if Kept(s, t, i, Stack(s', t)[i]) { InstStays(s.g, s'.g, Stack(s, t)[i]); }
    }
  }

  /** Deliveries from the queue run on top of a scan. */
  ghost predicate ScanBelow(s: State) {
    forall t: Thread {:trigger Stack(s, t)} | |Stack(s, t)| > 1 && Stack(s, t)[0].InWorker() ::
      Stack(s, t)[0].WorkerScan?
  }

  lemma TwoFramesScan(g: Globals, t: Thread, f: Frame, choice: Choice)
    ensures var o := RunFrame(g, t, f, choice);
            |o.frames| > 1 ==> f.InWorker() && o.frames[0].WorkerScan?
  {}

  lemma ScanBelowStep(s: State, step: Step)
    requires Queue.WorkerInv(s) && ScanBelow(s) && Enabled(s, step)
    ensures ScanBelow(Apply(s, step))
  {
    var s' := Apply(s, step);
    if step.Exec? {
      var f := Top(s, step.t);
      assert f == Stack(s, step.t)[|Stack(s, step.t)| - 1];
      TwoFramesScan(s.g, step.t, f, step.choice);
      Queue.FrameEffect(s.g, step.t, f, step.choice);
      hide RunFrame;
    }
    forall t: Thread | |Stack(s', t)| > 1 && Stack(s', t)[0].InWorker() ensures Stack(s', t)[0].WorkerScan? {
      FrameOrigin(s, step, t, 0);
    }
  }

  // ---------------------------------------------------------------- reachable states

  ghost predicate Reach(s: State) {
    Queue.WorkerInv(s) && Queue.TicketInv(s) && Binding.LockInv(s) && InstInv(s) && ScanBelow(s)
  }

  lemma ReachStep(s: State, step: Step)
    requires Reach(s) && Enabled(s, step)
    ensures Reach(Apply(s, step))
  {
    hide Queue.WorkerInv, Queue.TicketInv, Binding.LockInv, InstInv, ScanBelow, Apply, Enabled;
    Queue.WorkerStep(s, step);
    Queue.TicketStep(s, step);
    Binding.LockStep(s, step);
    InstStep(s, step);
    ScanBelowStep(s, step);
  }

  lemma ReachStart()
    ensures Reach(START)
  {
    assert forall t: Thread :: Stack(START, t) == [];
    assert Binding.Held([]) == 0;
  }

  lemma {:induction false} ReachRun(ss: seq<State>, steps: seq<Step>, i: nat)
    requires Run(ss, steps) && i < |ss|
    ensures Reach(ss[i])
  {
    hide Reach, Apply, Enabled;
    if i == 0 {
      ReachStart();
    } else {
      ReachRun(ss, steps, i - 1);
      assert Next(ss[i - 1], steps[i - 1], ss[i]);
      ReachStep(ss[i - 1], steps[i - 1]);
    }
  }

  // ---------------------------------------------------------------- delivering continuations

  /** Within `k` steps, none of them a bind of this connection, the connection can be called. */
  ghost predicate CanDeliver(s: State, n: int, k: nat)
    decreases k
  {
    k > 0 && exists step ::
      && Enabled(s, step) && !Rebinds(step, n)
      && (DeliversTo(s, Apply(s, step), n) || CanDeliver(Apply(s, step), n, k - 1))
  }

  ghost predicate MayDeliver(s: State, n: int) { exists k: nat :: CanDeliver(s, n, k) }

  lemma Onward(s: State, step: Step, n: int)
    requires Enabled(s, step) && !Rebinds(step, n)
    requires DeliversTo(s, Apply(s, step), n) || MayDeliver(Apply(s, step), n)
    ensures MayDeliver(s, n)
  {
    hide Enabled, Apply;
    if DeliversTo(s, Apply(s, step), n) {
      assert CanDeliver(s, n, 1);
    } else {
      var k: nat :| CanDeliver(Apply(s, step), n, k);
      assert CanDeliver(s, n, k + 1);
    }
  }

  lemma {:induction false} QuietNeverDelivers(s: State, n: int, k: nat)
    requires Reach(s) && Quiet(s, n)
    ensures !CanDeliver(s, n, k)
    decreases k
  {
    hide Quiet, Enabled, Apply;
    if CanDeliver(s, n, k) {
      var step :| Enabled(s, step) && !Rebinds(step, n)
        && (DeliversTo(s, Apply(s, step), n) || CanDeliver(Apply(s, step), n, k - 1));
      QuietStep(s, step, n);
      ReachStep(s, step);
      QuietNeverDelivers(Apply(s, step), n, k - 1);
      assert false;
    }
  }

  // ---------------------------------------------------------------- work left on a thread

  /** How many regions a frame and what follows it may take, the worker's loop aside. */
  function Rank(f: Frame): nat {
    if f.Snapshot? then 7
    else if f.AwaitBindLock? then 6
    else if f.Recheck? then 5
    else if f.InOnBind? then 4
    else if f.StoreBinder? then 3
    else if f.ReadBinder? then 2
    else if f.HandOver? || f.StartCreate? then 1
    else if f.BindLookup? then 11
    else if f.BindAdopt? then 10
    else if f.BindCreate? then 9
    else if f.BindEnqueue? then 8
    else 0
  }

  function Work(fs: seq<Frame>): nat { if fs == [] then 0 else Work(fs[..|fs| - 1]) + Rank(fs[|fs| - 1]) }

  lemma {:induction false} WorkAppend(a: seq<Frame>, b: seq<Frame>)
    ensures Work(a + b) == Work(a) + Work(b)
  {
    if b == [] {
      assert a + b == a;
    } else {
      WorkAppend(a, b[..|b| - 1]);
      assert (a + b)[..|a + b| - 1] == a + b[..|b| - 1];
    }
  }

  lemma {:induction false} WorkAtLeast(fs: seq<Frame>, i: nat)
    requires i < |fs|
    ensures Work(fs) >= Rank(fs[i])
  {
    if i == |fs| - 1 {
    } else {
      WorkAtLeast(fs[..|fs| - 1], i);
    }
  }

  lemma RankFalls(g: Globals, t: Thread, f: Frame, choice: Choice)
    requires !f.InWorker()
    ensures var o := RunFrame(g, t, f, choice); |o.frames| <= 1 && Work(o.frames) < Rank(f)
  {
    var o := RunFrame(g, t, f, choice);
    if o.frames != [] {
      assert o.frames[..0] == [];
      assert Work(o.frames) == Rank(o.frames[0]);
    }
  }

  /** One region of `t`: its work falls, and no other stack changes. */
  lemma ExecFalls(s: State, t: Thread, choice: Choice)
    requires Enabled(s, Exec(t, choice)) && !Top(s, t).InWorker()
    ensures var s' := Apply(s, Exec(t, choice));
            var o := RunFrame(s.g, t, Top(s, t), choice);
            && s'.g == o.g && Stack(s', t) == Stack(s, t)[..|Stack(s, t)| - 1] + o.frames
            && Work(Stack(s', t)) < Work(Stack(s, t))
            && forall u: Thread | u != t && Stack(s, u) != [] :: Stack(s', u) == Stack(s, u)
  {
    var stack := Stack(s, t);
    RankFalls(s.g, t, Top(s, t), choice);
    WorkAppend(stack[..|stack| - 1], RunFrame(s.g, t, Top(s, t), choice).frames);
    hide RunFrame, Rank;
  }

  // ---------------------------------------------------------------- who can run

  lemma Unused(used: set<nat>) returns (x: nat)
    ensures x !in used
  {
    x := Above(used);
  }

  lemma {:induction false} Above(used: set<nat>) returns (x: nat)
    ensures forall y | y in used :: y < x
    decreases used
  {
    if used == {} {
      x := 0;
    } else {
      assert exists z :: z in used by { Inhabited(used); }
      var z :| z in used;
      x := Above(used - {z});
      x := if z < x then x else z + 1;
      assert forall y | y in used :: y == z || y in used - {z};
    }
  }

  lemma Inhabited(used: set<nat>)
    ensures used == {} || exists z :: z in used
  {
    if !exists z :: z in used { assert used == {}; }
  }

  /** Everything outside goes well and nothing is late; a spawned thread would be `newThread`. */
  function Luck(newThread: Thread): Choice { Choice(true, false, None, 0, newThread) }

  lemma IdleThread(s: State) returns (t: Thread)
    ensures Stack(s, t) == []
  {
    t := Unused(s.threads.Keys);
  }

  /** Work that must be done elsewhere before `t` can have the bind lock. */
  function Waits(s: State, t: Thread): nat {
    if s.g.lock.owner.Some? && s.g.lock.owner.value != t then Work(Stack(s, s.g.lock.owner.value)) else 0
  }

  /** The thread itself, or the one it waits for, can run its top frame. */
  lemma Runner(s: State, t: Thread) returns (u: Thread, choice: Choice)
    requires Reach(s) && Stack(s, t) != [] && !Top(s, t).InWorker()
    ensures Stack(s, u) != [] && Enabled(s, Exec(u, choice)) && !Top(s, u).InWorker()
    ensures u == t || (Top(s, t).AwaitBindLock? && s.g.lock.owner == Some(u))
    ensures exists x: Thread :: choice == Luck(x)
  {
    var x := IdleThread(s);
    choice := Luck(x);
    u := t;
    if Top(s, t).AwaitBindLock? && s.g.lock.owner.Some? && s.g.lock.owner.value != t {
      u := s.g.lock.owner.value;
      OwnerBusy(s, u);
    }
  }

  /** The owner of the bind lock is in the region it guards, above any worker frame. */
  lemma OwnerBusy(s: State, u: Thread)
    requires Queue.WorkerInv(s) && Binding.LockInv(s) && s.g.lock.owner == Some(u)
    ensures Stack(s, u) != [] && !Top(s, u).InWorker() && Work(Stack(s, u)) > 0
  {
    var stack := Stack(s, u);
    assert Binding.Held(stack) > 0;
    var i := HoldsSome(stack);
    WorkAtLeast(stack, i);
    assert Top(s, u) == stack[|stack| - 1];
    assert stack[i].HoldsBindLock() && !stack[i].InWorker();
  }

  lemma {:induction false} HoldsSome(fs: seq<Frame>) returns (i: nat)
    requires Binding.Held(fs) > 0
    ensures i < |fs| && fs[i].HoldsBindLock()
  {
    i := |fs| - 1;
    if !fs[i].HoldsBindLock() {
      i := HoldsSome(fs[..i]);
    }
  }

  /** Running the one that is waited for brings the lock nearer. */
  lemma WaitsFalls(s: State, t: Thread, u: Thread, choice: Choice)
    requires Reach(s) && Stack(s, t) != [] && u != t && s.g.lock.owner == Some(u)
    requires Enabled(s, Exec(u, choice)) && !Top(s, u).InWorker()
    ensures var s' := Apply(s, Exec(u, choice));
            Stack(s', t) == Stack(s, t) && Waits(s', t) < Waits(s, t)
  {
    var s' := Apply(s, Exec(u, choice));
    ExecFalls(s, u, choice);
    OwnerBusy(s, u);
    ReachStep(s, Exec(u, choice));
    OwnerStays(s.g, u, Top(s, u), choice);
    hide RunFrame, Apply, Reach;
  }

  lemma OwnerStays(g: Globals, u: Thread, f: Frame, choice: Choice)
    requires g.lock.owner == Some(u)
    ensures var owner := RunFrame(g, u, f, choice).g.lock.owner; owner.None? || owner == Some(u)
  {}

  // ---------------------------------------------------------------- a delivery under way arrives

  /** Where a class has its instance, a delivering region is followed by the next one, up to the call. */
  lemma NextRegion(g: Globals, t: Thread, f: Frame, x: Thread)
    requires f.Delivers() && g.RecOf(f.cls).instance.Some?
    ensures var o := RunFrame(g, t, f, Luck(x));
            if f.HandOver? then o.g.log.deliveries == g.log.deliveries + [Delivery(f.cls, f.connId, f.src, f.binder)]
            else |o.frames| == 1 && o.frames[0].Delivers() && o.frames[0].connId == f.connId
  {}

  lemma {:induction false} DeliveryArrives(s: State, n: int, t: Thread, p: nat)
    requires Reach(s) && p < |Stack(s, t)| && Stack(s, t)[p].Delivers() && Stack(s, t)[p].connId == n
    ensures MayDeliver(s, n)
    decreases Work(Stack(s, t)), Waits(s, t)
  {
    hide MayDeliver, Work, Waits, Reach, Apply, Enabled;
    var step := DeliveryGoesOn(s, n, t, p);
    if !DeliversTo(s, Apply(s, step), n) {
      DeliveryArrives(Apply(s, step), n, t, p);
    }
    Onward(s, step, n);
  }

  /** The delivery, or what it waits for, goes on by one region. */
  lemma DeliveryGoesOn(s: State, n: int, t: Thread, p: nat) returns (step: Step)
    requires Reach(s) && p < |Stack(s, t)| && Stack(s, t)[p].Delivers() && Stack(s, t)[p].connId == n
    ensures step.Exec? && Enabled(s, step)
    ensures var s' := Apply(s, step);
            || DeliversTo(s, s', n)
            || (&& Reach(s') && p < |Stack(s', t)| && Stack(s', t)[p].Delivers() && Stack(s', t)[p].connId == n
                && Shrinks(s, s', t))
  {
    AboveWorker(s, t, p);
    var u, choice := Runner(s, t);
    step := Exec(u, choice);
    assert FrameInst(s.g, Stack(s, t)[p]);
    hide Reach, Apply, Enabled, Work, Waits, RunFrame, Luck;
    ReachStep(s, step);
    if u != t {
      WaitsFalls(s, t, u, choice);
    } else {
      var x: Thread :| choice == Luck(x);
      DeliveryRuns(s, n, t, p, x);
    }
  }

  /** The thread of the delivery runs its top frame. */
  lemma DeliveryRuns(s: State, n: int, t: Thread, p: nat, x: Thread)
    requires p < |Stack(s, t)| && Stack(s, t)[p].Delivers() && Stack(s, t)[p].connId == n
    requires s.g.RecOf(Stack(s, t)[p].cls).instance.Some?
    requires Enabled(s, Exec(t, Luck(x))) && !Top(s, t).InWorker()
    ensures var s' := Apply(s, Exec(t, Luck(x)));
            || DeliversTo(s, s', n)
            || (&& p < |Stack(s', t)| && Stack(s', t)[p].Delivers() && Stack(s', t)[p].connId == n
                && Work(Stack(s', t)) < Work(Stack(s, t)))
  {
    hide Apply, Enabled, Work, RunFrame, Luck;
    ExecFalls(s, t, Luck(x));
    if p == |Stack(s, t)| - 1 {
      NextRegion(s.g, t, Stack(s, t)[p], x);
    }
  }

  /** Less work on the thread, or the same and less to wait for. */
  predicate Shrinks(s: State, s': State, t: Thread) {
    || Work(Stack(s', t)) < Work(Stack(s, t))
    || (Stack(s', t) == Stack(s, t) && Waits(s', t) < Waits(s, t))
  }

  lemma AboveWorker(s: State, t: Thread, p: nat)
    requires Queue.WorkerInv(s) && p < |Stack(s, t)| && !Stack(s, t)[p].InWorker()
    ensures !Top(s, t).InWorker()
  {
    assert Top(s, t) == Stack(s, t)[|Stack(s, t)| - 1];
  }

  // ---------------------------------------------------------------- a queued bind arrives

  predicate Scans(f: Frame) { f.WorkerScan? || f.WorkerAdopt? || f.WorkerClaim? }

  /** The worker is yet to come to this entry in its present batch. */
  predicate Ahead(f: Frame, p: Pending) { Scans(f) && exists j :: f.i <= j < |f.batch| && Same(f.batch[j], p) }

  function Phase(f: Frame, p: Pending): nat { if f.WorkerBoot? then 2 else if Ahead(f, p) then 0 else 1 }

  /** Regions until the present batch is through. */
  function Slots(f: Frame): nat {
    if !Scans(f) then 0
    else
      var left := if f.i < |f.batch| then |f.batch| - f.i else 0;
      3 * left + if f.WorkerScan? then 3 else if f.WorkerAdopt? then 2 else 1
  }

  predicate Before(f': Frame, f: Frame, p: Pending) {
    Phase(f', p) < Phase(f, p) || (Phase(f', p) == Phase(f, p) && Slots(f') < Slots(f))
  }

  /** One region of the worker, for an entry whose service runs: the entry is claimed for delivery, or it
      stays and the worker is nearer to it. */
  lemma WorkerNearer(g: Globals, f: Frame, p: Pending, x: Thread)
    requires f.InWorker() && p in g.queue.pending && p.cls in g.services && !TimesOut(f, p.connId, p.cls)
    ensures var o := RunWorker(g, f, Luck(x));
            && o.frames != [] && o.frames[0].InWorker() && !o.spawned
            && if f.WorkerClaim? && f.i < |f.batch| && Same(f.batch[f.i], p)
               then |o.frames| == 2 && o.frames[1].Delivers() && o.frames[1].connId == p.connId
               else p in o.g.queue.pending && Before(o.frames[0], f, p) && !TimesOut(o.frames[0], p.connId, p.cls)
    ensures RunWorker(g, f, Luck(x)).g.services == g.services
  {
    var o := RunWorker(g, f, Luck(x));
    match f {
      case WorkerBoot =>
      case WorkerLoop =>
        var j :| 0 <= j < |g.queue.pending| && g.queue.pending[j] == p;
        assert Same(o.frames[0].batch[j], p);
      case WorkerScan(batch, i) => Nearer(f, o.frames[0], p);
      case WorkerAdopt(batch, i) => Nearer(f, o.frames[0], p);
      case WorkerClaim(batch, i, have) =>
        if i < |batch| {
          if Same(batch[i], p) {
            FoundIn(g.queue.pending, p);
          } else {
            var k := IndexOf(g.queue.pending, batch[i].connId, batch[i].cls);
            if k < |g.queue.pending| { OtherErased(g.queue.pending, k, p); }
            Nearer(f, o.frames[0], p);
          }
        }
    }
  }

  lemma FoundIn(q: seq<Pending>, p: Pending)
    requires p in q
    ensures IndexOf(q, p.connId, p.cls) < |q|
  {}

  lemma OtherErased(q: seq<Pending>, k: nat, p: Pending)
    requires k < |q| && p in q && q[k] != p
    ensures p in Erase(q, k)
  {
    var j :| 0 <= j < |q| && q[j] == p;
    assert Erase(q, k)[if j < k then j else j - 1] == p;
  }

  /** Going on in a batch, past an entry that is not this one. */
  lemma Nearer(f: Frame, f': Frame, p: Pending)
    requires Scans(f) && (f'.WorkerLoop? ==> f.i >= |f.batch|)
    requires f'.WorkerLoop? || (Scans(f') && f'.batch == f.batch && f.i <= f'.i && Slots(f') < Slots(f))
    requires Scans(f') && f'.i != f.i ==> f'.i == f.i + 1 && f.i < |f.batch| && !Same(f.batch[f.i], p)
    ensures Before(f', f, p)
  {
    if Ahead(f, p) && Scans(f') {
      var j :| f.i <= j < |f.batch| && Same(f.batch[j], p);
      assert f'.i <= j < |f'.batch| && Same(f'.batch[j], p);
    }
  }

  /** What other regions do to the queue while a worker runs: entries stay. */
  lemma EntryStays(g: Globals, t: Thread, f: Frame, choice: Choice, p: Pending)
    requires !f.InWorker() && g.workers.running && p in g.queue.pending
    ensures var o := RunFrame(g, t, f, choice);
            p in o.g.queue.pending && o.g.workers == g.workers && o.g.services == g.services
  {}

  function Worker(s: State): seq<Frame> {
    if s.g.workers.thread.Some? then Stack(s, s.g.workers.thread.value) else []
  }

  /** The entry is in the queue, its service runs, and the worker has not given it up. */
  ghost predicate Expected(s: State, p: Pending) {
    && Reach(s) && p in s.g.queue.pending && p.cls in s.g.services && Worker(s) != []
    && !TimesOut(Worker(s)[0], p.connId, p.cls)
  }

  /** While the worker delivers something, that delivery (or what it waits for) can go on. */
  lemma WorkerUnwinds(s: State, p: Pending) returns (step: Step)
    requires Expected(s, p) && |Worker(s)| > 1
    ensures step.Exec? && Enabled(s, step) && Expected(Apply(s, step), p)
    ensures var s' := Apply(s, step);
            && s'.g.workers == s.g.workers && Worker(s')[0] == Worker(s)[0]
            && Shrinks(s, s', s.g.workers.thread.value)
  {
    hide Work, Waits, Reach, Apply, Enabled, RunFrame, TimesOut;
    DeliveringWorker(s);
    var w := s.g.workers.thread.value;
    var u, choice := Runner(s, w);
    step := Exec(u, choice);
    ReachStep(s, step);
    ExecFalls(s, u, choice);
    EntryStays(s.g, u, Top(s, u), choice, p);
    if u != w { WaitsFalls(s, w, u, choice); }
  }

  lemma DeliveringWorker(s: State)
    requires Reach(s) && |Worker(s)| > 1
    ensures s.g.workers.running && !Top(s, s.g.workers.thread.value).InWorker()
  {
    var w := s.g.workers.thread.value;
    assert !Stack(s, w)[1].InWorker();
    AboveWorker(s, w, 1);
  }

  /** Between deliveries the worker claims the entry, or comes nearer to it. */
  lemma WorkerGoesOn(s: State, p: Pending) returns (step: Step)
    requires Expected(s, p) && |Worker(s)| == 1
    ensures step.Exec? && Enabled(s, step)
    ensures var s' := Apply(s, step);
            && Reach(s') && s'.g.workers == s.g.workers && Worker(s') != []
            && ((|Worker(s')| == 2 && Worker(s')[1].Delivers() && Worker(s')[1].connId == p.connId)
                || (Expected(s', p) && Before(Worker(s')[0], Worker(s)[0], p)))
  {
    hide Before, Reach, TimesOut, RunWorker, Apply, Enabled, Luck;
    WorkerTop(s);
    var w := s.g.workers.thread.value;
    var f := Stack(s, w)[0];
    var x := IdleThread(s);
    step := Exec(w, Luck(x));
    LuckIs(x);
    Queue.RunsTop(s, w, f, Luck(x));
    assert RunFrame(s.g, w, f, Luck(x)) == RunWorker(s.g, f, Luck(x));
    WorkerNearer(s.g, f, p, x);
    Queue.FrameEffect(s.g, w, f, Luck(x));
    ReachStep(s, step);
    hide RunFrame;
    assert Stack(s, w)[..0] == [];
  }

  lemma LuckIs(x: Thread)
    ensures Luck(x).newThread == x
  {}

  lemma WorkerTop(s: State)
    requires Reach(s) && Worker(s) != []
    ensures Worker(s)[0].InWorker()
  {}

  lemma {:induction false} EntryArrives(s: State, n: int, p: Pending)
    requires Expected(s, p) && p.connId == n
    ensures MayDeliver(s, n)
    decreases Phase(Worker(s)[0], p), Slots(Worker(s)[0]), Work(Worker(s)), Waits(s, s.g.workers.thread.value)
  {
    hide MayDeliver, Work, Phase, Slots, Expected, Reach, Apply, Enabled;
    assert Worker(s) != [] by { ExpectedWorker(s, p); }
    if |Worker(s)| > 1 {
      var step := WorkerUnwinds(s, p);
      ExpectedWorker(Apply(s, step), p);
      EntryArrives(Apply(s, step), n, p);
      Onward(s, step, n);
    } else {
      var step := WorkerGoesOn(s, p);
      var s' := Apply(s, step);
      if Expected(s', p) && Before(Worker(s')[0], Worker(s)[0], p) {
        NearerMeasure(Worker(s')[0], Worker(s)[0], p);
        EntryArrives(s', n, p);
      } else {
        DeliveryArrives(s', n, s.g.workers.thread.value, 1);
      }
      Onward(s, step, n);
    }
  }

  lemma ExpectedWorker(s: State, p: Pending)
    requires Expected(s, p)
    ensures Worker(s) != []
  {}

  lemma NearerMeasure(f': Frame, f: Frame, p: Pending)
    requires Before(f', f, p)
    ensures Phase(f', p) < Phase(f, p) || (Phase(f', p) == Phase(f, p) && Slots(f') < Slots(f))
  {}

  /** A bind of a class that nobody knows goes on to start a worker. */
  lemma {:induction false} WorkerComes(s: State, n: int, p: Pending, t: Thread)
    requires Reach(s) && p in s.g.queue.pending && p.connId == n && p.cls in s.g.services
    requires s.g.workers.thread.None? && |Stack(s, t)| == 1 && Binds(Stack(s, t)[0])
    requires var c := Stack(s, t)[0].cls; s.g.RecOf(c).instance.None? && c !in s.g.services
    ensures MayDeliver(s, n)
    decreases Rank(Stack(s, t)[0])
  {
    hide MayDeliver;
    var f := Stack(s, t)[0];
    var x := IdleThread(s);
    var step := Exec(t, Luck(x));
    var s' := Apply(s, step);
    ReachStep(s, step);
    hide Reach;
    if f.BindEnqueue? {
      assert Stack(s', x) == [WorkerBoot] && Worker(s') == [WorkerBoot];
      EntryArrives(s', n, p);
    } else {
      Queue.RunsTop(s, t, f, Luck(x));
      NextStart(s.g, t, f, x);
      hide RunFrame, Apply;
      assert Stack(s, t)[..0] == [];
      WorkerComes(s', n, p, t);
    }
    Onward(s, step, n);
  }

  lemma NextStart(g: Globals, t: Thread, f: Frame, x: Thread)
    requires Binds(f) && !f.BindEnqueue? && g.RecOf(f.cls).instance.None? && f.cls !in g.services
    ensures var o := RunFrame(g, t, f, Luck(x));
            && |o.frames| == 1 && Binds(o.frames[0]) && o.frames[0].cls == f.cls && Rank(o.frames[0]) < Rank(f)
            && o.g.RecOf(f.cls).instance.None? && o.g.services == g.services
            && o.g.queue == g.queue && o.g.workers == g.workers
  {}

  lemma QueuedArrives(s: State, n: int, p: Pending)
    requires Reach(s) && p in s.g.queue.pending && p.connId == n && !Doomed(s, p)
    ensures MayDeliver(s, n)
  {
    if p.cls !in s.g.services {
      var step := ServiceAppears(p.cls, Service(None, 0));
      ReachStep(s, step);
      var s' := Apply(s, step);
      assert forall t: Thread :: Stack(s', t) == Stack(s, t);
      assert Queue.WorkerInv(s');
      ServedArrives(s', n, p);
      Onward(s, step, n);
    } else {
      ServedArrives(s, n, p);
    }
  }

  lemma ServedArrives(s: State, n: int, p: Pending)
    requires Reach(s) && p in s.g.queue.pending && p.connId == n && !Doomed(s, p) && p.cls in s.g.services
    ensures MayDeliver(s, n)
  {
    hide MayDeliver;
    assert Queue.WorkerInv(s);
    if s.g.workers.thread.Some? {
      EntryArrives(s, n, p);
    } else {
      var step := StrangerBinds(s, n + 1);
      hide Reach, Apply, Enabled;
      WorkerComes(Apply(s, step), n, p, step.t);
      Onward(s, step, n);
    }
  }

  /** An idle thread binds a class that nobody knows. */
  lemma StrangerBinds(s: State, m: int) returns (step: Step)
    requires Reach(s)
    ensures step.CallBind? && step.connId == m && Enabled(s, step)
    ensures var s' := Apply(s, step);
            && Reach(s') && Stack(s', step.t) == [BindLookup(step.cls, m)]
            && s'.g.queue == s.g.queue && s'.g.services == s.g.services && s'.g.workers == s.g.workers
            && s'.g.RecOf(step.cls).instance.None? && step.cls !in s'.g.services
  {
    var t := IdleThread(s);
    var c := Unused(s.g.svc.Keys + s.g.services.Keys);
    step := CallBind(t, c, m);
    ReachStep(s, step);
    hide Reach;
  }

  // ---------------------------------------------------------------- a bind under way arrives

  lemma StaysHopeful(g: Globals, t: Thread, f: Frame, choice: Choice, x: Frame)
    requires !Hopeless(g, x)
    ensures !Hopeless(RunFrame(g, t, f, choice).g, x)
  {
    Binding.FrameCreates(g, t, f, choice);
    if x.BindCreate? { assert Binding.Extends(g.RecOf(x.cls), RunFrame(g, t, f, choice).g.RecOf(x.cls)); }
    ServicesStay(g, t, f, choice);
    hide RunFrame;
  }

  lemma ServicesStay(g: Globals, t: Thread, f: Frame, choice: Choice)
    ensures RunFrame(g, t, f, choice).g.services == g.services
  {}

  /** With luck, a bind's region is followed by its next one or by a delivery. */
  lemma NextBind(g: Globals, t: Thread, f: Frame, x: Thread)
    requires Binds(f) && !Hopeless(g, f) && !f.BindEnqueue?
    ensures var o := RunFrame(g, t, f, Luck(x)); |o.frames| == 1 && LiveFrame(o.g, o.frames[0], f.connId)
  {}

  /** ... or, at last, by an entry in the queue. */
  lemma EnqueuedHas(q: InprocService.Queue, c: ClassName, n: int) returns (p: Pending)
    ensures p in Enqueued(q, c, n).pending && p.connId == n && p.cls == c
  {
    var q' := Enqueued(q, c, n);
    var k := IndexOf(q.pending, n, c);
    p := if k < |q.pending| then q.pending[k] else q'.pending[|q.pending|];
  }

  lemma EnqueueArrives(s: State, n: int, t: Thread, c: ClassName)
    requires Reach(s) && Stack(s, t) != [] && Top(s, t) == BindEnqueue(c, n)
    requires Worker(s) != [] ==> !TimesOut(Worker(s)[0], n, c)
    ensures MayDeliver(s, n)
  {
    hide MayDeliver, Reach, Apply, Enabled, Enqueued, TimesOut;
    var step := EnqueueStep(s, n, t, c);
    var p := EnqueuedHas(s.g.queue, c, n);
    QueuedArrives(Apply(s, step), n, p);
    Onward(s, step, n);
  }

  lemma EnqueueStep(s: State, n: int, t: Thread, c: ClassName) returns (step: Step)
    requires Reach(s) && Stack(s, t) != [] && Top(s, t) == BindEnqueue(c, n)
    requires Worker(s) != [] ==> !TimesOut(Worker(s)[0], n, c)
    ensures step.Exec? && Enabled(s, step)
    ensures var s' := Apply(s, step);
            && Reach(s') && s'.g.queue == Enqueued(s.g.queue, c, n)
            && (Worker(s') != [] ==> !TimesOut(Worker(s')[0], n, c))
  {
    var x := IdleThread(s);
    step := Exec(t, Luck(x));
    ReachStep(s, step);
    if s.g.workers.running {
      WorkerFrameStays(s, t, Luck(x));
    } else {
      assert Worker(Apply(s, step)) == [WorkerBoot];
    }
    hide Reach, Enqueued;
  }

  lemma WorkerFrameStays(s: State, t: Thread, choice: Choice)
    requires Queue.WorkerInv(s) && s.g.workers.running && Enabled(s, Exec(t, choice)) && !Top(s, t).InWorker()
    ensures var s' := Apply(s, Exec(t, choice));
            s'.g.workers == s.g.workers && Worker(s) != [] && Worker(s') != [] && Worker(s')[0] == Worker(s)[0]
  {
    var w := s.g.workers.thread.value;
    assert Worker(s)[0].InWorker();
    assert Top(s, t) == Stack(s, t)[|Stack(s, t)| - 1];
    Queue.FrameEffect(s.g, t, Top(s, t), choice);
    hide RunFrame;
  }

  lemma EntryDropped(s: State, t: Thread, n: int, c: ClassName) returns (step: Step)
    requires Reach(s) && Worker(s) != [] && TimesOut(Worker(s)[0], n, c) && Stack(s, t) != [] && !Top(s, t).InWorker()
    ensures step.Exec? && Enabled(s, step)
    ensures var s' := Apply(s, step);
            && Reach(s') && Stack(s', t) == Stack(s, t)
            && (Worker(s') != [] ==> !TimesOut(Worker(s')[0], n, c))
  {
    var w := s.g.workers.thread.value;
    var f := Stack(s, w)[0];
    assert |Stack(s, w)| == 1 && t != w;
    var x := IdleThread(s);
    step := Exec(w, Luck(x));
    LuckIs(x);
    hide Reach, Apply, Enabled, Luck, RunFrame, TimesOut;
    TimeoutRegion(s.g, w, f, n, c, Luck(x));
    Queue.RunsTop(s, w, f, Luck(x));
    ReachStep(s, step);
    assert Stack(s, w)[..0] == [];
  }

  lemma TimeoutRegion(g: Globals, w: Thread, f: Frame, n: int, c: ClassName, choice: Choice)
    requires TimesOut(f, n, c)
    ensures var o := RunFrame(g, w, f, choice);
            |o.frames| == 1 && !TimesOut(o.frames[0], n, c) && o.g.workers == g.workers
    ensures f.WorkerClaim?
  {}

  /** An entry that the worker has given up is first dropped, so that the bind is queued anew. */
  lemma EnqueueAfterTimeout(s: State, n: int, t: Thread, c: ClassName)
    requires Reach(s) && Stack(s, t) != [] && Top(s, t) == BindEnqueue(c, n)
    ensures MayDeliver(s, n)
  {
    hide MayDeliver;
    if Worker(s) != [] && TimesOut(Worker(s)[0], n, c) {
      var step := EntryDropped(s, t, n, c);
      hide Reach, Apply, Enabled, Worker;
      EnqueueArrives(Apply(s, step), n, t, c);
      Onward(s, step, n);
    } else {
      EnqueueArrives(s, n, t, c);
    }
  }

  lemma {:induction false} BindArrives(s: State, n: int, t: Thread, p: nat)
    requires Reach(s) && p < |Stack(s, t)| && LiveFrame(s.g, Stack(s, t)[p], n)
    ensures MayDeliver(s, n)
    decreases Work(Stack(s, t)), Waits(s, t)
  {
    hide MayDeliver, Work;
    var stack := Stack(s, t);
    if stack[p].Delivers() {
      DeliveryArrives(s, n, t, p);
    } else if p == |stack| - 1 && stack[p].BindEnqueue? {
      EnqueueAfterTimeout(s, n, t, stack[p].cls);
    } else {
      assert !Top(s, t).InWorker() by { AboveWorker(s, t, p); }
      var u, choice := Runner(s, t);
      var step := Exec(u, choice);
      ReachStep(s, step);
      BindGoesOn(s, n, t, p, u, choice);
      hide Reach, RunFrame, Apply, Enabled;
      BindArrives(Apply(s, step), n, t, p);
      Onward(s, step, n);
    }
  }

  lemma BindGoesOn(s: State, n: int, t: Thread, p: nat, u: Thread, choice: Choice)
    requires Reach(s) && p < |Stack(s, t)| && LiveFrame(s.g, Stack(s, t)[p], n) && Binds(Stack(s, t)[p])
    requires p == |Stack(s, t)| - 1 ==> !Stack(s, t)[p].BindEnqueue?
    requires Stack(s, u) != [] && Enabled(s, Exec(u, choice)) && !Top(s, u).InWorker()
    requires u == t || s.g.lock.owner == Some(u)
    requires exists x: Thread :: choice == Luck(x)
    ensures var s' := Apply(s, Exec(u, choice));
            && p < |Stack(s', t)| && LiveFrame(s'.g, Stack(s', t)[p], n)
            && (Work(Stack(s', t)) < Work(Stack(s, t))
                || (Stack(s', t) == Stack(s, t) && Waits(s', t) < Waits(s, t)))
  {
    hide Work;
    var stack := Stack(s, t);
    ExecFalls(s, u, choice);
    StaysHopeful(s.g, u, Top(s, u), choice, stack[p]);
    if u != t {
      WaitsFalls(s, t, u, choice);
    } else if p == |stack| - 1 {
      var x: Thread :| choice == Luck(x);
      NextBind(s.g, t, stack[p], x);
    }
    hide Reach, RunFrame, Apply;
  }

  // ---------------------------------------------------------------- the exact condition

  /** In every reachable state: the connection can still be called, without binding again, if and only if
      something under way can deliver to it. */
  lemma CallableIffUnderWay(ss: seq<State>, steps: seq<Step>, i: nat, n: int)
    requires Run(ss, steps) && i < |ss|
    ensures MayDeliver(ss[i], n) <==> !Quiet(ss[i], n)
  {
    ReachRun(ss, steps, i);
    var s := ss[i];
    hide Reach;
    if Quiet(s, n) {
      forall k: nat ensures !CanDeliver(s, n, k) { QuietNeverDelivers(s, n, k); }
    } else if !NoLiveFrame(s, n) {
      var t: Thread, p: nat :| p < |Stack(s, t)| && LiveFrame(s.g, Stack(s, t)[p], n);
      BindArrives(s, n, t, p);
    } else {
      var p :| p in s.g.queue.pending && p.connId == n && !Doomed(s, p);
      QueuedArrives(s, n, p);
    }
  }

  /** At most one bind of the connection is queued, or all but one are given up. */
  ghost predicate AtMostOneQueued(s: State, n: int) {
    var q := s.g.queue.pending;
    forall i | 0 <= i < |q| && q[i].connId == n && i != IndexOfConn(q, n) :: Doomed(s, q[i])
  }

  /** The exact condition for "nothing is delivered after an unbind": at the disconnect no bind or delivery
      of the connection is under way in any thread, other than a create that must fail, and no second entry
      of it is queued, other than one the worker has given up. */
  lemma NothingAfterDisconnectIff(ss: seq<State>, steps: seq<Step>, i: nat, n: int)
    requires Run(ss, steps) && i < |steps| && steps[i].CallDisconnect? && steps[i].connId == n
    ensures !MayDeliver(ss[i + 1], n) <==> NoLiveFrame(ss[i], n) && AtMostOneQueued(ss[i], n)
  {
    CallableIffUnderWay(ss, steps, i + 1, n);
    assert Next(ss[i], steps[i], ss[i + 1]);
    hide MayDeliver;
    QuietAfterDisconnect(ss[i], steps[i].t, n);
  }

  /** Where every connection is used for one class only, that leaves the threads: nothing is delivered after
      the disconnect if and only if no bind or delivery of the connection is under way in any of them. */
  lemma NothingAfterDisconnectOneClass(
      ss: seq<State>, steps: seq<Step>, classOf: int -> ClassName, i: nat, n: int)
    requires Run(ss, steps) && i < |steps| && steps[i].CallDisconnect? && steps[i].connId == n
    requires Queue.OneClassPerConn(steps, classOf)
    ensures !MayDeliver(ss[i + 1], n) <==> NoLiveFrame(ss[i], n)
  {
    hide MayDeliver, NoLiveFrame;
    NothingAfterDisconnectIff(ss, steps, i, n);
    ReachRun(ss, steps, i);
    Queue.ClassRun(ss, steps, classOf, i);
    OneClassOneEntry(ss[i], classOf, n);
  }

  lemma OneClassOneEntry(s: State, classOf: int -> ClassName, n: int)
    requires Queue.QueueInv(s.g.queue) && Queue.QueueClassOk(s.g.queue, classOf)
    ensures AtMostOneQueued(s, n)
  {
    UnlikeEntries(s.g.queue);
    var q := s.g.queue.pending;
    var k := IndexOfConn(q, n);
    hide Queue.QueueInv, IndexOfConn;
    forall i | 0 <= i < |q| && q[i].connId == n ensures i == k {
      assert q[i] in q && q[k] in q;
      assert i != k ==> !Same(q[i], q[k]);
    }
  }

  lemma QuietAfterDisconnect(s: State, t: Thread, n: int)
    requires Enabled(s, CallDisconnect(t, n))
    ensures Quiet(Apply(s, CallDisconnect(t, n)), n) <==> NoLiveFrame(s, n) && AtMostOneQueued(s, n)
  {
    var s' := Apply(s, CallDisconnect(t, n));
    assert forall u: Thread :: Stack(s', u) == Stack(s, u);
    assert NoLiveFrame(s', n) <==> NoLiveFrame(s, n);
    assert forall p :: Doomed(s', p) <==> Doomed(s, p);
    var q := s.g.queue.pending;
    FirstErased(q, n);
    assert s'.g.queue.pending == WithoutFirst(q, n);
    hide Apply, Enabled, Doomed, WithoutFirst, NoLiveFrame, IndexOfConn;
    if AtMostOneQueued(s, n) {
      forall p | p in s'.g.queue.pending && p.connId == n ensures Doomed(s', p) {
        var i :| 0 <= i < |q| && i != IndexOfConn(q, n) && q[i] == p;
      }
    } else {
      var i :| 0 <= i < |q| && q[i].connId == n && i != IndexOfConn(q, n) && !Doomed(s, q[i]);
      assert q[i] in s'.g.queue.pending;
    }
  }

  function WithoutFirst(q: seq<Pending>, n: int): seq<Pending> {
    var k := IndexOfConn(q, n);
    if k < |q| then Erase(q, k) else q
  }

  lemma FirstErased(q: seq<Pending>, n: int)
    ensures forall p | p in WithoutFirst(q, n) :: exists i :: 0 <= i < |q| && i != IndexOfConn(q, n) && q[i] == p
    ensures forall i | 0 <= i < |q| && i != IndexOfConn(q, n) :: q[i] in WithoutFirst(q, n)
  {
    var k, q' := IndexOfConn(q, n), WithoutFirst(q, n);
    hide IndexOfConn;
    forall a | 0 <= a < |q'| ensures exists i :: 0 <= i < |q| && i != k && q[i] == q'[a] {
      assert q'[a] == q[if a < k then a else a + 1];
    }
    forall i | 0 <= i < |q| && i != k ensures q[i] in q' {
      assert q'[if i < k then i else i - 1] == q[i];
    }
  }

  /** Over every run: from a disconnect at which that holds, until the connection binds again, it is not
      called, from the queue or directly. */
  lemma {:induction false} NotCalledUntilRebound(ss: seq<State>, steps: seq<Step>, i: nat, j: nat, n: int)
    requires Run(ss, steps) && i <= j < |ss| && Quiet(ss[i], n)
    requires forall k | i <= k < j :: !Rebinds(steps[k], n)
    ensures Quiet(ss[j], n) && NoneTo(ss[i], ss[j], n)
    decreases j
  {
    hide Quiet, Reach, Next, NoneTo;
    if i == j {
      NoneToItself(ss[i], n);
    } else {
      NotCalledUntilRebound(ss, steps, i, j - 1, n);
      ReachRun(ss, steps, j - 1);
      assert Next(ss[j - 1], steps[j - 1], ss[j]);
      QuietNext(ss[i], ss[j - 1], steps[j - 1], ss[j], n);
    }
  }

  /** No delivery between the two states is to this connection. */
  predicate NoneTo(s: State, s': State, n: int) {
    && |s.g.log.deliveries| <= |s'.g.log.deliveries|
    && forall d | |s.g.log.deliveries| <= d < |s'.g.log.deliveries| :: s'.g.log.deliveries[d].connId != n
  }

  lemma NoneToItself(s: State, n: int)
    ensures NoneTo(s, s, n)
  {}

  lemma QuietNext(s0: State, s: State, step: Step, s': State, n: int)
    requires Reach(s) && Quiet(s, n) && Next(s, step, s') && !Rebinds(step, n) && NoneTo(s0, s, n)
    ensures Quiet(s', n) && NoneTo(s0, s', n)
  {
    hide Quiet, Apply, Enabled;
    QuietStep(s, step, n);
    LogGrows(s, step);
  }

  lemma LogGrows(s: State, step: Step)
    requires Enabled(s, step)
    ensures var a, b := s.g.log.deliveries, Apply(s, step).g.log.deliveries;
            b == a || (|b| == |a| + 1 && b[..|a|] == a)
  {
    if step.Exec? { Binding.FrameDeliveries(s.g, step.t, Top(s, step.t), step.choice); }
    hide RunFrame;
  }
}
