/** Which binder a client is called with: in every run the one that the class's onBind returned, by way of
    the store that came last before the record was read; and without re-entry the only one it ever
    returned. */
module InprocBinder {
  import opened InprocService
  import opened InprocBinding

  // ---------------------------------------------------------------- the steps of a run

  /** Step `k` runs the top frame of a thread. */
  predicate Runs(ss: seq<State>, steps: seq<Step>, k: nat) {
    k < |steps| && k < |ss| && steps[k].Exec? && Stack(ss[k], steps[k].t) != []
  }

  /** That frame. */
  function Ran(ss: seq<State>, steps: seq<Step>, k: nat): Frame
    requires Runs(ss, steps, k)
  {
    Top(ss[k], steps[k].t)
  }

  /** onBind of the class returns at step `k`, with the binder that the step brings. */
  predicate Returns(ss: seq<State>, steps: seq<Step>, k: nat, c: ClassName) {
    Runs(ss, steps, k) && Ran(ss, steps, k).InOnBind? && Ran(ss, steps, k).cls == c
  }

  /** A result is recorded for the class at step `k`. */
  predicate Stores(ss: seq<State>, steps: seq<Step>, k: nat, c: ClassName) {
    Runs(ss, steps, k) && Ran(ss, steps, k).StoreBinder? && Ran(ss, steps, k).cls == c
  }

  /** The class's record is read at step `k`, for a delivery. */
  predicate Reads(ss: seq<State>, steps: seq<Step>, k: nat, c: ClassName) {
    Runs(ss, steps, k) && (Ran(ss, steps, k).ReadBinder? || Ran(ss, steps, k).Snapshot?) && Ran(ss, steps, k).cls == c
  }

  predicate OfThread(step: Step, t: Thread) { step.Exec? && step.t == t }

  /** Step `j` is the last one of the thread before step `k`. */
  predicate RanLast(steps: seq<Step>, t: Thread, j: nat, k: nat) {
    j < k <= |steps| && OfThread(steps[j], t) && forall m | j < m < k :: !OfThread(steps[m], t)
  }

  /** Step `k` is the last store for the class before step `r`. */
  predicate StoredLast(ss: seq<State>, steps: seq<Step>, c: ClassName, k: nat, r: nat) {
    k < r <= |steps| && Stores(ss, steps, k, c) && forall m | k < m < r :: !Stores(ss, steps, m, c)
  }

  // ---------------------------------------------------------------- frames that wait

  /** Below the top a thread waits in an onBind, or in the worker's scan. */
  ghost predicate Waiting(s: State) {
    forall t: Thread, i: nat {:trigger Stack(s, t)[i]} | i < |Stack(s, t)| - 1 ::
      Stack(s, t)[i].InOnBind? || Stack(s, t)[i].WorkerScan?
  }

  lemma FramesLeft(g: Globals, t: Thread, f: Frame, choice: Choice)
    ensures var o := RunFrame(g, t, f, choice);
            |o.frames| <= 2 && (|o.frames| == 2 ==> o.frames[0].WorkerScan?) && (o.spawned ==> o.frames == [])
  {}

  lemma WaitingStep(s: State, step: Step)
    requires Waiting(s) && Enabled(s, step)
    ensures Waiting(Apply(s, step))
  {
    var s' := Apply(s, step);
    if step.Exec? {
      FramesLeft(s.g, step.t, Top(s, step.t), step.choice);
      hide RunFrame;
    }
    forall t: Thread, i: nat | i < |Stack(s', t)| - 1
      ensures Stack(s', t)[i].InOnBind? || Stack(s', t)[i].WorkerScan?
    {
      FrameOrigin(s, step, t, i);
    }
  }

  lemma {:induction false} WaitingRun(ss: seq<State>, steps: seq<Step>, i: nat)
    requires Run(ss, steps) && i < |ss|
    ensures Waiting(ss[i])
  {
    if i == 0 {
      assert forall t: Thread :: Stack(ss[0], t) == [];
    } else {
      WaitingRun(ss, steps, i - 1);
      assert Next(ss[i - 1], steps[i - 1], ss[i]);
      hide Waiting, Apply, Enabled;
      WaitingStep(ss[i - 1], steps[i - 1]);
    }
  }

  // ---------------------------------------------------------------- where results and binders come from

  predicate Carries(f: Frame) { f.StoreBinder? || f.HandOver? }

  /** What a frame that carries a binder was made of. */
  predicate MadeFrom(g: Globals, f: Frame, choice: Choice, made: Frame)
    requires Carries(made)
  {
    if made.StoreBinder? then f.InOnBind? && f.cls == made.cls && made.result == choice.binder
    else (f.ReadBinder? || (f.Snapshot? && g.RecOf(f.cls).bindCalled)) && f.cls == made.cls
         && made.binder == g.RecOf(f.cls).binder
  }

  lemma FrameMade(g: Globals, t: Thread, f: Frame, choice: Choice)
    ensures var o := RunFrame(g, t, f, choice);
            forall k | 0 <= k < |o.frames| && Carries(o.frames[k]) :: MadeFrom(g, f, choice, o.frames[k])
  {}

  /** A frame on top that carries a binder was made by this step of its thread, or the thread did nothing. */
  lemma TopMade(s: State, step: Step, t: Thread)
    requires Waiting(s) && Enabled(s, step)
    requires Stack(Apply(s, step), t) != [] && Carries(Top(Apply(s, step), t))
    ensures var f := Top(Apply(s, step), t);
            if OfThread(step, t) then MadeFrom(s.g, Top(s, t), step.choice, f)
            else Stack(s, t) == Stack(Apply(s, step), t)
  {
    var s' := Apply(s, step);
    var i := |Stack(s', t)| - 1;
    if step.Exec? {
      FramesLeft(s.g, step.t, Top(s, step.t), step.choice);
      FrameMade(s.g, step.t, Top(s, step.t), step.choice);
      hide RunFrame, MadeFrom;
    }
    FrameOrigin(s, step, t, i);
  }

  lemma {:induction false} CarriedFrom(ss: seq<State>, steps: seq<Step>, i: nat, t: Thread) returns (j: nat)
    requires Run(ss, steps) && i < |ss| && Stack(ss[i], t) != [] && Carries(Top(ss[i], t))
    ensures RanLast(steps, t, j, i) && Runs(ss, steps, j)
    ensures MadeFrom(ss[j].g, Ran(ss, steps, j), steps[j].choice, Top(ss[i], t))
  {
    if i == 0 {
      assert false;
    } else {
      var s, step := ss[i - 1], steps[i - 1];
      assert Next(s, step, ss[i]);
      assert OfThread(step, t) ==> Stack(s, t) != [];
      WaitingRun(ss, steps, i - 1);
      hide Apply, Enabled, Waiting, MadeFrom, Carries;
      TopMade(s, step, t);
      if OfThread(step, t) {
        j := i - 1;
      } else {
        j := CarriedFrom(ss, steps, i - 1, t);
      }
    }
  }

  // ---------------------------------------------------------------- the record holds the last result stored

  lemma RecordStep(s: State, step: Step, c: ClassName)
    requires Enabled(s, step)
    ensures var r, r' := s.g.RecOf(c), Apply(s, step).g.RecOf(c);
            if step.Exec? && Top(s, step.t).StoreBinder? && Top(s, step.t).cls == c
            then r'.bindCalled && r'.binder == Top(s, step.t).result
            else r'.bindCalled == r.bindCalled && r'.binder == r.binder
  {
    if step.Exec? {
      FrameBindEffect(s.g, step.t, Top(s, step.t), step.choice);
      hide RunFrame;
      var f := Top(s, step.t);
      if StartsOnBind(s.g, f) && f.cls == c {
        StartKeepsRecord(s.g, step.t, f, step.choice);
      } else if !(f.StoreBinder? && f.cls == c) {
        assert Unbound(s.g, Apply(s, step).g, c);
      }
    }
  }

  lemma StartKeepsRecord(g: Globals, t: Thread, f: Frame, choice: Choice)
    requires StartsOnBind(g, f)
    ensures RunFrame(g, t, f, choice).g.svc == g.svc
  {}

  lemma {:induction false} RecordedFrom(ss: seq<State>, steps: seq<Step>, i: nat, c: ClassName) returns (k: nat)
    requires Run(ss, steps) && i < |ss| && ss[i].g.RecOf(c).bindCalled
    ensures StoredLast(ss, steps, c, k, i) && Ran(ss, steps, k).result == ss[i].g.RecOf(c).binder
  {
    if i == 0 {
      assert false;
    } else {
      var s, step := ss[i - 1], steps[i - 1];
      assert Next(s, step, ss[i]);
      assert step.Exec? ==> Runs(ss, steps, i - 1);
      hide Apply, Enabled;
      RecordStep(s, step, c);
      if Stores(ss, steps, i - 1, c) {
        k := i - 1;
      } else {
        k := RecordedFrom(ss, steps, i - 1, c);
      }
    }
  }

  /** A thread reads a binder only once there is a record of one. */
  ghost predicate ReadsRecorded(s: State) {
    forall t: Thread, i: nat {:trigger Stack(s, t)[i]} |
      i < |Stack(s, t)| && Stack(s, t)[i].ReadBinder? :: s.g.RecOf(Stack(s, t)[i].cls).bindCalled
  }

  lemma ReadsStep(s: State, step: Step)
    requires ReadsRecorded(s) && Enabled(s, step)
    ensures ReadsRecorded(Apply(s, step))
  {
    var s' := Apply(s, step);
    forall c: ClassName | s.g.RecOf(c).bindCalled ensures s'.g.RecOf(c).bindCalled { RecordStep(s, step, c); }
    if step.Exec? {
      FrameBindFrames(s.g, step.t, Top(s, step.t), step.choice);
      if Top(s, step.t).StoreBinder? { RecordStep(s, step, Top(s, step.t).cls); }
      hide RunFrame;
    }
    forall t: Thread, i: nat | i < |Stack(s', t)| && Stack(s', t)[i].ReadBinder?
      ensures s'.g.RecOf(Stack(s', t)[i].cls).bindCalled
    {
      FrameOrigin(s, step, t, i);
    }
  }

  lemma {:induction false} ReadsRun(ss: seq<State>, steps: seq<Step>, i: nat)
    requires Run(ss, steps) && i < |ss|
    ensures ReadsRecorded(ss[i])
  {
    if i == 0 {
      assert forall t: Thread :: Stack(ss[0], t) == [];
    } else {
      ReadsRun(ss, steps, i - 1);
      assert Next(ss[i - 1], steps[i - 1], ss[i]);
      hide ReadsRecorded, Apply, Enabled;
      ReadsStep(ss[i - 1], steps[i - 1]);
    }
  }

  // ---------------------------------------------------------------- every run

  predicate Delivers(s: State, s': State) { |s'.g.log.deliveries| > |s.g.log.deliveries| }

  /** A step that delivers runs a frame that carries what is delivered. */
  lemma HandedOver(s: State, step: Step)
    requires Enabled(s, step)
    ensures var log, log' := s.g.log.deliveries, Apply(s, step).g.log.deliveries;
            || log' == log
            || (&& step.Exec? && Top(s, step.t).HandOver?
                && var f := Top(s, step.t); log' == log + [Delivery(f.cls, f.connId, f.src, f.binder)])
  {
    if step.Exec? {
      FrameDeliveries(s.g, step.t, Top(s, step.t), step.choice);
      hide RunFrame;
    }
  }

  /** In every run: the binder of a delivery made at step `m` was returned by onBind of that class at step
      `j`, recorded at step `k` by the thread that ran it, and read at step `r` by the thread that delivers,
      with no store for the class between `k` and `r`. */
  lemma DeliveredBinder(ss: seq<State>, steps: seq<Step>, m: nat) returns (j: nat, k: nat, r: nat)
    requires Run(ss, steps) && m < |steps| && Delivers(ss[m], ss[m + 1])
    ensures var log := ss[m + 1].g.log.deliveries;
            var d := log[|log| - 1];
            && log == ss[m].g.log.deliveries + [d] && steps[m].Exec?
            && j < k < r < m
            && RanLast(steps, steps[m].t, r, m) && Reads(ss, steps, r, d.cls)
            && StoredLast(ss, steps, d.cls, k, r)
            && RanLast(steps, steps[k].t, j, k) && Returns(ss, steps, j, d.cls)
            && d.binder == steps[j].choice.binder
  {
    assert Next(ss[m], steps[m], ss[m + 1]);
    HandedOver(ss[m], steps[m]);
    var t := steps[m].t;
    hide Apply, Enabled;
    r := CarriedFrom(ss, steps, m, t);
    assert Next(ss[r], steps[r], ss[r + 1]);
    assert Ran(ss, steps, r).ReadBinder? ==> ss[r].g.RecOf(Ran(ss, steps, r).cls).bindCalled by {
      ReadsRun(ss, steps, r);
      assert Top(ss[r], t) == Stack(ss[r], t)[|Stack(ss[r], t)| - 1];
    }
    k := RecordedFrom(ss, steps, r, Ran(ss, steps, r).cls);
    j := CarriedFrom(ss, steps, k, steps[k].t);
  }

  // ---------------------------------------------------------------- runs without re-entry

  /** What onBind returned is still to be recorded, by the thread it returned to, or is recorded. */
  predicate Kept(s: State, t: Thread, c: ClassName, b: Option<Object>) {
    || (Stack(s, t) != [] && Top(s, t).StoreBinder? && Top(s, t).cls == c && Top(s, t).result == b)
    || (s.g.RecOf(c).bindCalled && s.g.RecOf(c).binder == b)
  }

  /** A thread that is about to record a result does nothing else. */
  lemma StoreStays(s: State, step: Step, t: Thread)
    requires Enabled(s, step) && !OfThread(step, t) && Stack(s, t) != [] && Top(s, t).StoreBinder?
    ensures Stack(Apply(s, step), t) == Stack(s, t)
  {
    if step.Exec? { hide RunFrame; }
  }

  lemma KeptStep(s: State, step: Step, t: Thread, c: ClassName, b: Option<Object>)
    requires BindInv(s) && Enabled(s, step) && Kept(s, t, c, b)
    ensures Kept(Apply(s, step), t, c, b)
  {
    RecordStep(s, step, c);
    if s.g.RecOf(c).bindCalled {
      if step.Exec? {
        var f := Top(s, step.t);
        assert f == Stack(s, step.t)[|Stack(s, step.t)| - 1];
        assert FrameBind(s.g, f);
      }
      hide Apply, Enabled, BindInv;
    } else {
      if !OfThread(step, t) { StoreStays(s, step, t); }
      hide Apply, Enabled, BindInv;
    }
  }

  lemma ReturnKept(s: State, step: Step)
    requires Enabled(s, step) && step.Exec? && Top(s, step.t).InOnBind?
    ensures Kept(Apply(s, step), step.t, Top(s, step.t).cls, step.choice.binder)
  {
    var below := Stack(s, step.t)[..|Stack(s, step.t)| - 1];
    var f := Top(s, step.t);
    assert Stack(Apply(s, step), step.t) == below + [StoreBinder(f.cls, f.connId, f.src, step.choice.binder)];
  }

  lemma {:induction false} ResultKept(ss: seq<State>, steps: seq<Step>, k: nat, i: nat, c: ClassName)
    requires Run(ss, steps) && k < i < |ss| && Returns(ss, steps, k, c)
    requires forall m | 0 <= m < i :: !Reenters(ss[m], steps[m])
    ensures Kept(ss[i], steps[k].t, c, steps[k].choice.binder)
    decreases i
  {
    hide Apply, Enabled, BindInv, LockInv, Reenters, Kept;
    assert Next(ss[i - 1], steps[i - 1], ss[i]);
    if i == k + 1 {
      ReturnKept(ss[k], steps[k]);
    } else {
      hide Returns;
      ResultKept(ss, steps, k, i - 1, c);
      BindRun(ss, steps, i - 1);
      KeptStep(ss[i - 1], steps[i - 1], steps[k].t, c, steps[k].choice.binder);
    }
  }

  /** The step that made a delivery. */
  lemma {:induction false} DeliveredAt(ss: seq<State>, steps: seq<Step>, i: nat, e: nat) returns (m: nat)
    requires Run(ss, steps) && i < |ss| && e < |ss[i].g.log.deliveries|
    ensures m < i && Delivers(ss[m], ss[m + 1]) && |ss[m].g.log.deliveries| == e
    ensures e < |ss[m + 1].g.log.deliveries| && ss[m + 1].g.log.deliveries[e] == ss[i].g.log.deliveries[e]
  {
    if i == 0 {
      assert false;
    } else {
      assert Next(ss[i - 1], steps[i - 1], ss[i]);
      HandedOver(ss[i - 1], steps[i - 1]);
      hide Apply, Enabled;
      if e < |ss[i - 1].g.log.deliveries| {
        m := DeliveredAt(ss, steps, i - 1, e);
      } else {
        m := i - 1;
      }
    }
  }

  /** Without re-entry every delivery for a class carries the binder that its onBind returned, and onBind
      never returned another one. */
  lemma DeliversResult(ss: seq<State>, steps: seq<Step>, i: nat, e: nat)
    requires Run(ss, steps) && i < |ss| && e < |ss[i].g.log.deliveries|
    requires forall m | 0 <= m < i :: !Reenters(ss[m], steps[m])
    ensures var d := ss[i].g.log.deliveries[e];
            && (exists k: nat | k < i :: Returns(ss, steps, k, d.cls) && d.binder == steps[k].choice.binder)
            && (forall k: nat | k < i && Returns(ss, steps, k, d.cls) :: d.binder == steps[k].choice.binder)
  {
    var d := ss[i].g.log.deliveries[e];
    hide Apply, Enabled, LockInv, Reenters, Returns;
    var m := DeliveredAt(ss, steps, i, e);
    var j, k, r := DeliveredBinder(ss, steps, m);
    BindRun(ss, steps, i);
    forall k: nat | k < i && Returns(ss, steps, k, d.cls) ensures d.binder == steps[k].choice.binder {
      ResultKept(ss, steps, k, i, d.cls);
      RecordedNotPending(ss[i], e, steps[k].t, steps[k].choice.binder);
    }
  }

  lemma RecordedNotPending(s: State, e: nat, t: Thread, b: Option<Object>)
    requires BindInv(s) && e < |s.g.log.deliveries| && Kept(s, t, s.g.log.deliveries[e].cls, b)
    ensures s.g.log.deliveries[e].binder == b
  {
    assert SameBinder(s.g);
    if Stack(s, t) != [] {
      assert Top(s, t) == Stack(s, t)[|Stack(s, t)| - 1];
      assert FrameBind(s.g, Top(s, t));
    }
  }

  // ---------------------------------------------------------------- what the records hold besides

  /** A record's instance is the framework's, and so is its token unless it was created here. */
  predicate Named(g: Globals, c: ClassName) {
    var r := g.RecOf(c);
    && (r.instance.Some? ==> c in g.services && r.instance == Some(g.services[c].instance))
    && (r.token.Some? ==> g.log.Creates(c) > 0 || (c in g.services && r.token == g.services[c].token))
  }

  lemma AdoptedNamed(g: Globals, a: ClassName, c: ClassName)
    requires Named(g, c) && a in g.services
    ensures Named(Adopted(g, a), c)
  {}

  lemma EnsuredNamed(g: Globals, a: ClassName, choice: Choice, c: ClassName)
    requires Named(g, c)
    ensures Named(EnsureCreated(g, a, choice).0, c)
  {
    if a in g.services { AdoptedNamed(g, a, c); }
  }

  lemma SameNamed(g: Globals, g': Globals, c: ClassName)
    requires Named(g, c) && g'.log.creates == g.log.creates
    requires c in g.services ==> c in g'.services && g'.services[c] == g.services[c]
    requires g'.RecOf(c).instance == g.RecOf(c).instance && g'.RecOf(c).token == g.RecOf(c).token
    ensures Named(g', c)
  {}

  lemma FrameNamed(g: Globals, t: Thread, f: Frame, choice: Choice, c: ClassName)
    requires Named(g, c)
    ensures Named(RunFrame(g, t, f, choice).g, c)
  {
    hide Named, EnsureCreated, Adopted;
    if f.BindCreate? || f.StartCreate? {
      EnsuredNamed(g, f.cls, choice, c);
    } else if f.BindAdopt? && f.cls in g.services {
      AdoptedNamed(g, f.cls, c);
    } else if f.WorkerAdopt? && f.i < |f.batch| && f.batch[f.i].cls in g.services {
      AdoptedNamed(g, f.batch[f.i].cls, c);
    } else {
      SameNamed(g, RunFrame(g, t, f, choice).g, c);
    }
  }

  lemma NamedStep(s: State, step: Step, c: ClassName)
    requires Named(s.g, c) && Enabled(s, step)
    ensures Named(Apply(s, step).g, c)
  {
    hide Named, RunFrame;
    if step.Exec? {
      FrameNamed(s.g, step.t, Top(s, step.t), step.choice, c);
    } else {
      SameNamed(s.g, Apply(s, step).g, c);
    }
  }

  /** In every run a record names the framework's own service: onBind is called on that instance. */
  lemma {:induction false} RecordsFramework(ss: seq<State>, steps: seq<Step>, i: nat, c: ClassName)
    requires Run(ss, steps) && i < |ss|
    ensures var g := ss[i].g;
            && (g.RecOf(c).instance.Some? ==>
                  c in g.services && g.RecOf(c).instance == Some(g.services[c].instance))
            && (g.RecOf(c).token.Some? ==>
                  g.log.Creates(c) > 0 || (c in g.services && g.RecOf(c).token == g.services[c].token))
  {
    if i == 0 {
    } else {
      RecordsFramework(ss, steps, i - 1, c);
      assert Next(ss[i - 1], steps[i - 1], ss[i]);
      hide Apply, Enabled;
      NamedStep(ss[i - 1], steps[i - 1], c);
    }
  }

  lemma CreateTakes(g: Globals, t: Thread, f: Frame, choice: Choice, c: ClassName)
    requires RunFrame(g, t, f, choice).g.log.Creates(c) > g.log.Creates(c)
    ensures RunFrame(g, t, f, choice).g.RecOf(c).token == Some(choice.newToken)
  {
    assert f.BindCreate? || f.StartCreate?;
    assert f.cls == c;
  }

  /** A class that was created here keeps the token it was created with. */
  lemma CreatedToken(ss: seq<State>, steps: seq<Step>, k: nat, i: nat, c: ClassName)
    requires Run(ss, steps) && k < i < |ss| && ss[k + 1].g.log.Creates(c) > ss[k].g.log.Creates(c)
    ensures steps[k].Exec? && ss[i].g.RecOf(c).token == Some(steps[k].choice.newToken)
  {
    assert Next(ss[k], steps[k], ss[k + 1]);
    if steps[k].Exec? { CreateTakes(ss[k].g, steps[k].t, Top(ss[k], steps[k].t), steps[k].choice, c); }
    hide RunFrame, Enabled;
    assert steps[k].Exec? && ss[k + 1].g.RecOf(c).token == Some(steps[k].choice.newToken);
    hide Apply;
    CreatedOnce(ss, steps, k + 1, i, c);
  }

  // ---------------------------------------------------------------- who is called

  type Asks = set<(ClassName, int)>

  /** The classes and connections of the binds asked for so far. */
  function Asked(steps: seq<Step>): Asks {
    set k | 0 <= k < |steps| && steps[k].CallBind? :: (steps[k].cls, steps[k].connId)
  }

  predicate EntriesAsked(asked: Asks, q: seq<Pending>) { forall k | 0 <= k < |q| :: (q[k].cls, q[k].connId) in asked }

  predicate FrameAsked(asked: Asks, f: Frame) {
    && (f.Delivers() || f.BindLookup? || f.BindAdopt? || f.BindCreate? || f.BindEnqueue? ==>
          (f.cls, f.connId) in asked)
    && (f.WorkerScan? || f.WorkerAdopt? || f.WorkerClaim? ==> EntriesAsked(asked, f.batch))
  }

  ghost predicate GlobalsAsked(asked: Asks, g: Globals) {
    EntriesAsked(asked, g.queue.pending) && forall d | d in g.log.deliveries :: (d.cls, d.connId) in asked
  }

  ghost predicate AllAsked(asked: Asks, s: State) {
    && GlobalsAsked(asked, s.g)
    && forall t: Thread, i: nat {:trigger Stack(s, t)[i]} | i < |Stack(s, t)| :: FrameAsked(asked, Stack(s, t)[i])
  }

  /** What a region leaves behind is asked for. */
  ghost predicate OutcomeAsked(asked: Asks, o: Outcome) {
    GlobalsAsked(asked, o.g) && forall k | 0 <= k < |o.frames| :: FrameAsked(asked, o.frames[k])
  }

  lemma LeaveAsked(asked: Asks, q: Queue, i: nat, fate: Fate)
    requires EntriesAsked(asked, q.pending)
    ensures EntriesAsked(asked, LeaveIfPresent(q, i, fate).pending)
  {}

  lemma EnqueuedAsked(asked: Asks, q: Queue, c: ClassName, n: int)
    requires EntriesAsked(asked, q.pending) && (c, n) in asked
    ensures EntriesAsked(asked, Enqueued(q, c, n).pending)
  {}

  lemma EnsureKeeps(g: Globals, c: ClassName, choice: Choice)
    ensures var g' := EnsureCreated(g, c, choice).0;
            g'.queue == g.queue && g'.log.deliveries == g.log.deliveries
  {}

  lemma DeliverAsked(asked: Asks, g: Globals, t: Thread, f: Frame, choice: Choice)
    requires GlobalsAsked(asked, g) && FrameAsked(asked, f) && f.Delivers()
    ensures OutcomeAsked(asked, RunDeliver(g, t, f, choice))
  {}

  lemma BindAsked(asked: Asks, g: Globals, f: Frame, choice: Choice)
    requires GlobalsAsked(asked, g) && FrameAsked(asked, f) && !f.Delivers() && !f.InWorker()
    ensures OutcomeAsked(asked, RunBind(g, f, choice))
  {
    EnsureKeeps(g, f.cls, choice);
    if f.BindEnqueue? {
      EnqueuedAsked(asked, g.queue, f.cls, f.connId);
      var q := Enqueued(g.queue, f.cls, f.connId);
      LeaveAsked(asked, q, IndexOf(q.pending, f.connId, f.cls), RolledBack);
    }
    hide EnsureCreated, Enqueued, LeaveIfPresent, EntriesAsked;
  }

  lemma WorkerAsked(asked: Asks, g: Globals, f: Frame, choice: Choice)
    requires GlobalsAsked(asked, g) && FrameAsked(asked, f) && f.InWorker()
    ensures OutcomeAsked(asked, RunWorker(g, f, choice))
  {
    if f.WorkerClaim? && f.i < |f.batch| {
      var k := IndexOf(g.queue.pending, f.batch[f.i].connId, f.batch[f.i].cls);
      LeaveAsked(asked, g.queue, k, Claimed);
      LeaveAsked(asked, g.queue, k, TimedOut);
      assert (f.batch[f.i].cls, f.batch[f.i].connId) in asked;
    }
    hide Leave, EntriesAsked;
  }

  lemma RunAsked(asked: Asks, g: Globals, t: Thread, f: Frame, choice: Choice)
    requires GlobalsAsked(asked, g) && FrameAsked(asked, f)
    ensures OutcomeAsked(asked, RunFrame(g, t, f, choice))
  {
    hide RunDeliver, RunBind, RunWorker, OutcomeAsked, GlobalsAsked, FrameAsked;
    if f.Delivers() {
      DeliverAsked(asked, g, t, f, choice);
    } else if f.InWorker() {
      WorkerAsked(asked, g, f, choice);
    } else {
      BindAsked(asked, g, f, choice);
    }
  }

  lemma AskedStep(asked: Asks, s: State, step: Step)
    requires AllAsked(asked, s) && Enabled(s, step)
    ensures AllAsked(asked + Asked([step]), Apply(s, step))
  {
    var s', more := Apply(s, step), asked + Asked([step]);
    if step.Exec? {
      assert Top(s, step.t) == Stack(s, step.t)[|Stack(s, step.t)| - 1];
      RunAsked(asked, s.g, step.t, Top(s, step.t), step.choice);
      hide RunFrame;
    } else if step.CallBind? {
      assert [step][0].CallBind? && (step.cls, step.connId) in more;
    }
    assert GlobalsAsked(asked, s'.g) && GlobalsAsked(more, s'.g);
    hide GlobalsAsked;
    forall t: Thread, i: nat | i < |Stack(s', t)| ensures FrameAsked(more, Stack(s', t)[i]) {
      FrameOrigin(s, step, t, i);
    }
  }

  lemma {:induction false} AskedRun(ss: seq<State>, steps: seq<Step>, i: nat)
    requires Run(ss, steps) && i < |ss|
    ensures AllAsked(Asked(steps[..i]), ss[i])
  {
    if i == 0 {
      assert forall t: Thread :: Stack(ss[0], t) == [];
    } else {
      AskedRun(ss, steps, i - 1);
      assert Next(ss[i - 1], steps[i - 1], ss[i]);
      hide Apply, Enabled, AllAsked;
      AskedStep(Asked(steps[..i - 1]), ss[i - 1], steps[i - 1]);
      AskedSnoc(steps[..i - 1], steps[i - 1]);
      assert steps[..i] == steps[..i - 1] + [steps[i - 1]];
    }
  }

  lemma AskedSnoc(steps: seq<Step>, step: Step)
    ensures Asked(steps + [step]) == Asked(steps) + Asked([step])
  {
    var all := steps + [step];
    assert forall k | 0 <= k < |steps| :: all[k] == steps[k];
    assert all[|steps|] == step && [step][0] == step;
  }

  /** Every delivery, from the queue or directly, goes to a connection that has asked for that class. */
  lemma DeliversAsked(ss: seq<State>, steps: seq<Step>, i: nat, e: nat)
    requires Run(ss, steps) && i < |ss| && e < |ss[i].g.log.deliveries|
    ensures var d := ss[i].g.log.deliveries[e];
            exists k | 0 <= k < i :: steps[k].CallBind? && steps[k].cls == d.cls && steps[k].connId == d.connId
  {
    AskedRun(ss, steps, i);
    var d := ss[i].g.log.deliveries[e];
    assert (d.cls, d.connId) in Asked(steps[..i]);
    var k :| 0 <= k < i && steps[..i][k].CallBind? && (steps[..i][k].cls, steps[..i][k].connId) == (d.cls, d.connId);
    assert steps[k].CallBind?;
  }

  // ---------------------------------------------------------------- what is waited for

  predicate HasToken(g: Globals, c: ClassName) { g.RecOf(c).token.Some? }

  predicate FrameToken(g: Globals, f: Frame) { f.BindEnqueue? ==> HasToken(g, f.cls) }

  ghost predicate EntriesToken(g: Globals) { forall p | p in g.queue.pending :: HasToken(g, p.cls) }

  ghost predicate TokenInv(s: State) {
    && EntriesToken(s.g)
    && forall t: Thread, i: nat {:trigger Stack(s, t)[i]} | i < |Stack(s, t)| :: FrameToken(s.g, Stack(s, t)[i])
  }

  /** Queues only shrink, but for a bind whose class has its token. */
  lemma RunEntries(g: Globals, t: Thread, f: Frame, choice: Choice)
    requires FrameToken(g, f)
    ensures forall p | p in RunFrame(g, t, f, choice).g.queue.pending :: p in g.queue.pending || HasToken(g, p.cls)
  {
    EntriesFrom(g.queue, f, choice);
    if f.BindCreate? || f.StartCreate? { EnsureKeeps(g, f.cls, choice); }
    hide EnsureCreated, Enqueued, Leave, LeaveIfPresent, Finish;
    FinishKeeps(g.queue);
  }

  lemma FinishKeeps(q: Queue)
    ensures forall src: Source, fate: Fate :: Finish(q, src, fate).pending == q.pending
  {}

  lemma EntriesFrom(q: Queue, f: Frame, choice: Choice)
    ensures f.BindEnqueue? ==>
              var q' := Enqueued(q, f.cls, f.connId);
              && (forall p | p in q'.pending :: p in q.pending || p.cls == f.cls)
              && forall i: nat, fate: Fate, p | p in LeaveIfPresent(q', i, fate).pending ::
                   p in q.pending || p.cls == f.cls
    ensures forall i: nat, fate: Fate, p | i < |q.pending| && p in Leave(q, i, fate).pending :: p in q.pending
  {}

  lemma RunTokens(g: Globals, t: Thread, f: Frame, choice: Choice)
    ensures var o := RunFrame(g, t, f, choice); forall k | 0 <= k < |o.frames| :: FrameToken(o.g, o.frames[k])
  {}

  lemma TokenStep(s: State, step: Step)
    requires TokenInv(s) && Enabled(s, step)
    ensures TokenInv(Apply(s, step))
  {
    var s' := Apply(s, step);
    if step.Exec? {
      assert Top(s, step.t) == Stack(s, step.t)[|Stack(s, step.t)| - 1];
      RunEntries(s.g, step.t, Top(s, step.t), step.choice);
      RunTokens(s.g, step.t, Top(s, step.t), step.choice);
      FrameCreates(s.g, step.t, Top(s, step.t), step.choice);
      hide RunFrame;
    }
    forall c: ClassName | HasToken(s.g, c) ensures HasToken(s'.g, c) {
      if step.Exec? { assert Extends(s.g.RecOf(c), s'.g.RecOf(c)); }
    }
    hide HasToken, CreateEffect;
    forall t: Thread, i: nat | i < |Stack(s', t)| ensures FrameToken(s'.g, Stack(s', t)[i]) {
      FrameOrigin(s, step, t, i);
    }
  }

  /** In every run a bind waits in the queue only for a class that has its token: the service was running, or
      its creation was scheduled. A bind whose create failed is not queued. */
  lemma {:induction false} QueuedHaveTokens(ss: seq<State>, steps: seq<Step>, i: nat)
    requires Run(ss, steps) && i < |ss|
    ensures TokenInv(ss[i]) && forall p | p in ss[i].g.queue.pending :: ss[i].g.RecOf(p.cls).token.Some?
  {
    if i == 0 {
      assert forall t: Thread :: Stack(ss[0], t) == [];
    } else {
      QueuedHaveTokens(ss, steps, i - 1);
      assert Next(ss[i - 1], steps[i - 1], ss[i]);
      hide Apply, Enabled;
      TokenStep(ss[i - 1], steps[i - 1]);
    }
  }

  // ---------------------------------------------------------------- which connections are known

  lemma ConnStep(s: State, step: Step, n: int)
    requires Enabled(s, step)
    ensures n in Apply(s, step).g.connIds <==>
            if step.CallBind? && step.connId == n then true
            else if step.CallDisconnect? && step.connId == n then false
            else n in s.g.connIds
  {
    if step.Exec? {
      ConnFrame(s.g, step.t, Top(s, step.t), step.choice);
      hide RunFrame;
    }
  }

  lemma ConnFrame(g: Globals, t: Thread, f: Frame, choice: Choice)
    ensures RunFrame(g, t, f, choice).g.connIds == g.connIds
  {}

  /** In every run a connection is known exactly if it has asked for a bind and not disconnected since: that
      is what a disconnect answers by. */
  lemma {:induction false} KnownIff(ss: seq<State>, steps: seq<Step>, i: nat, n: int)
    requires Run(ss, steps) && i < |ss|
    ensures n in ss[i].g.connIds <==>
            exists k | 0 <= k < i ::
              && steps[k].CallBind? && steps[k].connId == n
              && forall m | k < m < i :: !(steps[m].CallDisconnect? && steps[m].connId == n)
  {
    if i == 0 {
    } else {
      KnownIff(ss, steps, i - 1, n);
      assert Next(ss[i - 1], steps[i - 1], ss[i]);
      hide Apply, Enabled;
      ConnStep(ss[i - 1], steps[i - 1], n);
      var step := steps[i - 1];
      if step.CallBind? && step.connId == n {
      } else if step.CallDisconnect? && step.connId == n {
      } else if n in ss[i - 1].g.connIds {
        var k :| 0 <= k < i - 1 && steps[k].CallBind? && steps[k].connId == n
                 && forall m | k < m < i - 1 :: !(steps[m].CallDisconnect? && steps[m].connId == n);
        assert forall m | k < m < i :: !(steps[m].CallDisconnect? && steps[m].connId == n);
      }
    }
  }
}
