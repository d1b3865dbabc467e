/** What every interleaving guarantees about service records: a class is created once at most, its
    token and instance never change, and onBind runs once for it, so that every delivery carries the
    same binder, exactly when no onBind re-enters a bind of its own class. */
module InprocBinding {
  import opened InprocService

  // ---------------------------------------------------------------- creation

  /** Token and instance are write-once. */
  predicate Extends(r: Rec, r': Rec) {
    && (r.token.Some? ==> r'.token == r.token)
    && (r.instance.Some? ==> r'.instance == r.instance)
  }

  ghost predicate CreateInv(g: Globals) {
    forall c: ClassName {:trigger g.log.Creates(c)} ::
      g.log.Creates(c) <= 1 && (g.log.Creates(c) == 1 ==> g.RecOf(c).token.Some?)
  }

  ghost predicate CreateEffect(g: Globals, g': Globals) {
    && (forall c: ClassName :: Extends(g.RecOf(c), g'.RecOf(c)))
    && (forall c: ClassName {:trigger g'.log.Creates(c)} ::
          || g'.log.Creates(c) == g.log.Creates(c)
          || (g'.log.Creates(c) == g.log.Creates(c) + 1 && g.RecOf(c).token.None? && g'.RecOf(c).token.Some?))
  }

  lemma AdoptedEffect(g: Globals, c: ClassName)
    requires c in g.services
    ensures CreateEffect(g, Adopted(g, c))
  {}

  lemma EnsureEffect(g: Globals, c: ClassName, choice: Choice)
    ensures CreateEffect(g, EnsureCreated(g, c, choice).0)
  {
    if c in g.services { AdoptedEffect(g, c); }
  }

  lemma StoreEffect(g: Globals, c: ClassName, b: Option<Object>)
    ensures CreateEffect(g, g.WithRec(c, g.RecOf(c).(bindCalled := true, binder := b)))
  {}

  lemma SameRecords(g: Globals, g': Globals)
    requires g'.svc == g.svc && g'.log.creates == g.log.creates
    ensures CreateEffect(g, g')
  {}

  lemma FrameCreates(g: Globals, t: Thread, f: Frame, choice: Choice)
    ensures CreateEffect(g, RunFrame(g, t, f, choice).g)
  {
    var g' := RunFrame(g, t, f, choice).g;
    hide CreateEffect;
    if f.StoreBinder? {
      StoreEffect(g, f.cls, f.result);
    } else if f.BindCreate? || f.StartCreate? {
      EnsureEffect(g, f.cls, choice);
    } else if f.BindAdopt? && f.cls in g.services {
      AdoptedEffect(g, f.cls);
    } else if f.WorkerAdopt? && f.i < |f.batch| && f.batch[f.i].cls in g.services {
      AdoptedEffect(g, f.batch[f.i].cls);
    } else {
      SameRecords(g, g');
    }
  }

  lemma CreateStep(s: State, step: Step)
    requires CreateInv(s.g) && Enabled(s, step)
    ensures CreateInv(Apply(s, step).g) && CreateEffect(s.g, Apply(s, step).g)
  {
    if step.Exec? {
      FrameCreates(s.g, step.t, Top(s, step.t), step.choice);
      hide RunFrame;
    } else {
      SameRecords(s.g, Apply(s, step).g);
    }
  }

  /** Over every run: per class at most one framework create is ever successfully scheduled, and once
      a record has a token or an instance it keeps it. */
  lemma {:induction false} CreatedOnce(ss: seq<State>, steps: seq<Step>, i: nat, j: nat, c: ClassName)
    requires Run(ss, steps) && i <= j < |ss|
    ensures CreateInv(ss[j].g) && ss[j].g.log.Creates(c) <= 1
    ensures Extends(ss[i].g.RecOf(c), ss[j].g.RecOf(c))
    decreases j
  {
    if j == 0 {
    } else {
      assert Next(ss[j - 1], steps[j - 1], ss[j]);
      hide Apply, Enabled;
      CreatedOnce(ss, steps, if i < j then i else j - 1, j - 1, c);
      CreateStep(ss[j - 1], steps[j - 1]);
    }
  }

  // ---------------------------------------------------------------- the bind lock

  function Holds(f: Frame): nat { if f.HoldsBindLock() then 1 else 0 }

  /** How many times the frames of a stack hold the bind lock. */
  function Held(fs: seq<Frame>): nat { if fs == [] then 0 else Held(fs[..|fs| - 1]) + Holds(fs[|fs| - 1]) }

  lemma {:induction false} HeldAppend(a: seq<Frame>, b: seq<Frame>)
    ensures Held(a + b) == Held(a) + Held(b)
  {
    if b == [] {
      assert a + b == a;
    } else {
      HeldAppend(a, b[..|b| - 1]);
      assert (a + b)[..|a + b| - 1] == a + b[..|b| - 1];
    }
  }

  lemma {:induction false} HeldHas(fs: seq<Frame>, i: nat)
    requires i < |fs| && fs[i].HoldsBindLock()
    ensures Held(fs) > 0
  {
    if i == |fs| - 1 {
    } else {
      HeldHas(fs[..|fs| - 1], i);
    }
  }

  /** The lock's depth counts the frames that hold it, all of them on its owner's stack. */
  ghost predicate LockInv(s: State) {
    && (s.g.lock.owner.None? <==> s.g.lock.depth == 0)
    && forall t: Thread :: Held(Stack(s, t)) == if s.g.lock.owner == Some(t) then s.g.lock.depth else 0
  }

  lemma HeldNone(fs: seq<Frame>)
    requires |fs| <= 2 && forall k | 0 <= k < |fs| :: !fs[k].HoldsBindLock()
    ensures Held(fs) == 0
  {
    if |fs| == 2 { assert fs[..1][..0] == []; }
  }

  /** Outside deliverConnected the bind lock is not touched. */
  lemma LockUntouched(g: Globals, t: Thread, f: Frame, choice: Choice)
    requires !f.Delivers()
    ensures var o := RunFrame(g, t, f, choice);
            o.g.lock == g.lock && |o.frames| <= 2 && forall k | 0 <= k < |o.frames| :: !o.frames[k].HoldsBindLock()
  {}

  lemma LockEffect(g: Globals, t: Thread, f: Frame, choice: Choice)
    requires f.HoldsBindLock() ==> g.lock.owner == Some(t) && g.lock.depth > 0
    requires f.AwaitBindLock? ==> g.lock.owner.None? || g.lock.owner == Some(t)
    requires g.lock.owner.None? <==> g.lock.depth == 0
    ensures var o := RunFrame(g, t, f, choice);
            && o.g.lock.depth == g.lock.depth + Held(o.frames) - Holds(f)
            && (o.g.lock.owner.None? <==> o.g.lock.depth == 0)
            && (o.g.lock == g.lock || (g.lock.owner != None ==> g.lock.owner == Some(t)))
            && (o.g.lock == g.lock || (o.g.lock.owner != None ==> o.g.lock.owner == Some(t)))
  {
    if !f.Delivers() {
      LockUntouched(g, t, f, choice);
      HeldNone(RunFrame(g, t, f, choice).frames);
      hide RunFrame;
    }
  }

  lemma LockExec(s: State, t: Thread, choice: Choice)
    requires LockInv(s) && Enabled(s, Exec(t, choice))
    ensures LockInv(Apply(s, Exec(t, choice)))
  {
    var s' := Apply(s, Exec(t, choice));
    var stack := Stack(s, t);
    var below, f := stack[..|stack| - 1], Top(s, t);
    var o := RunFrame(s.g, t, f, choice);
    if f.HoldsBindLock() { HeldHas(stack, |stack| - 1); }
    LockEffect(s.g, t, f, choice);
    HeldAppend(below, o.frames);
    assert Held(stack) == Held(below) + Holds(f);
    hide RunFrame;
    forall u: Thread
      ensures Held(Stack(s', u)) == if s'.g.lock.owner == Some(u) then s'.g.lock.depth else 0
    {
      assert Held(Stack(s, u)) == if s.g.lock.owner == Some(u) then s.g.lock.depth else 0;
      if o.spawned && u == choice.newThread {
        assert Stack(s', u) == [WorkerBoot];
        assert Held([WorkerBoot]) == Held([WorkerBoot][..0]) == 0;
      } else if u == t {
        assert Stack(s', t) == below + o.frames;
      }
    }
  }

  lemma HeldSnoc(fs: seq<Frame>, f: Frame)
    ensures Held(fs + [f]) == Held(fs) + Holds(f)
  {
    assert (fs + [f])[..|fs|] == fs;
  }

  lemma LockPush(s: State, t: Thread, f: Frame)
    requires LockInv(s) && !f.HoldsBindLock()
    ensures LockInv(Push(s, t, f))
  {
    hide Held;
    HeldSnoc(Stack(s, t), f);
    forall u: Thread
      ensures Held(Stack(Push(s, t, f), u)) == Held(Stack(s, u))
    {
      if u != t { assert Stack(Push(s, t, f), u) == Stack(s, u); }
    }
  }

  lemma LockStep(s: State, step: Step)
    requires LockInv(s) && Enabled(s, step)
    ensures LockInv(Apply(s, step))
  {
    hide Held;
    match step {
      case Exec(t, choice) => LockExec(s, t, choice);
      case CallBind(t, c, n) =>
        LockPush(s.(g := s.g.(connIds := s.g.connIds + {n})), t, BindLookup(c, n)) by {
          assert forall u: Thread :: Stack(s.(g := s.g.(connIds := s.g.connIds + {n})), u) == Stack(s, u);
        }
      case CallStart(t, c) => LockPush(s, t, StartCreate(c));
      case CallDisconnect(_, _) =>
        assert forall u: Thread :: Stack(Apply(s, step), u) == Stack(s, u);
      case ServiceAppears(_, _) =>
        assert forall u: Thread :: Stack(Apply(s, step), u) == Stack(s, u);
    }
  }

  // ---------------------------------------------------------------- onBind once per class

  predicate BindsClass(f: Frame, c: ClassName) { f.Binding() && f.cls == c }

  /** The class's onBind has begun on this stack and its result is not yet recorded. */
  ghost predicate Within(fs: seq<Frame>, c: ClassName) { exists i :: 0 <= i < |fs| && BindsClass(fs[i], c) }

  /** The step starts onBind of a class from inside an onBind of that class, on the same thread. */
  ghost predicate Reenters(s: State, step: Step) {
    && step.Exec? && Stack(s, step.t) != [] && Top(s, step.t).Recheck?
    && var c := Top(s, step.t).cls;
    && s.g.RecOf(c).instance.Some? && !s.g.RecOf(c).bindCalled && Within(Stack(s, step.t), c)
  }

  ghost predicate FrameBind(g: Globals, f: Frame) {
    && (f.Binding() ==> !g.RecOf(f.cls).bindCalled && g.log.BindRuns(f.cls) == 1)
    && (f.ReadBinder? ==> g.RecOf(f.cls).bindCalled)
    && (f.HandOver? ==> g.RecOf(f.cls).bindCalled && g.RecOf(f.cls).binder == f.binder)
  }

  ghost predicate FramesBind(s: State) {
    forall t: Thread, i: nat {:trigger Stack(s, t)[i]} | i < |Stack(s, t)| :: FrameBind(s.g, Stack(s, t)[i])
  }

  ghost predicate OneBinding(s: State) {
    forall t: Thread, i: nat, u: Thread, j: nat {:trigger Stack(s, t)[i], Stack(s, u)[j]} |
      i < |Stack(s, t)| && j < |Stack(s, u)| && Stack(s, t)[i].Binding()
      && BindsClass(Stack(s, u)[j], Stack(s, t)[i].cls)
      :: t == u && i == j
  }

  ghost predicate BeingBound(s: State, c: ClassName) { exists t: Thread :: Within(Stack(s, t), c) }

  ghost predicate Counted(s: State) {
    forall c: ClassName {:trigger s.g.log.BindRuns(c)} ::
      && s.g.log.BindRuns(c) <= 1
      && (s.g.RecOf(c).bindCalled ==> s.g.log.BindRuns(c) == 1)
      && (s.g.log.BindRuns(c) == 1 && !s.g.RecOf(c).bindCalled ==> BeingBound(s, c))
  }

  /** Every delivery carried the binder that is cached for its class. */
  ghost predicate SameBinder(g: Globals) {
    forall d | 0 <= d < |g.log.deliveries| ::
      var r := g.RecOf(g.log.deliveries[d].cls); r.bindCalled && g.log.deliveries[d].binder == r.binder
  }

  ghost predicate BindInv(s: State) {
    FramesBind(s) && OneBinding(s) && Counted(s) && SameBinder(s.g)
  }

  /** Nothing about binding changes for the class. */
  predicate Unbound(g: Globals, g': Globals, c: ClassName) {
    && g'.RecOf(c).bindCalled == g.RecOf(c).bindCalled && g'.RecOf(c).binder == g.RecOf(c).binder
    && g'.log.BindRuns(c) == g.log.BindRuns(c)
  }

  predicate StartsOnBind(g: Globals, f: Frame) {
    f.Recheck? && g.RecOf(f.cls).instance.Some? && !g.RecOf(f.cls).bindCalled
  }

  /** How one region touches binding state: only the start of onBind and the recording of its result
      do, for their own class. */
  ghost predicate BindEffect(g: Globals, f: Frame, o: Outcome) {
    if f.StoreBinder? then
      && (forall c: ClassName | c != f.cls :: Unbound(g, o.g, c))
      && o.g.RecOf(f.cls).bindCalled && o.g.RecOf(f.cls).binder == f.result
      && o.g.log.BindRuns(f.cls) == g.log.BindRuns(f.cls)
    else if StartsOnBind(g, f) then
      && (forall c: ClassName | c != f.cls :: Unbound(g, o.g, c))
      && !o.g.RecOf(f.cls).bindCalled && o.g.log.BindRuns(f.cls) == g.log.BindRuns(f.cls) + 1
    else
      forall c: ClassName :: Unbound(g, o.g, c)
  }

  /** The frames a region leaves: onBind's frame stays in place until its result is recorded. */
  ghost predicate BindFrames(g: Globals, f: Frame, o: Outcome) {
    && (if f.InOnBind? || StartsOnBind(g, f) then |o.frames| == 1 && BindsClass(o.frames[0], f.cls)
        else forall k | 0 <= k < |o.frames| :: !o.frames[k].Binding())
    && (forall k | 0 <= k < |o.frames| && o.frames[k].ReadBinder? ::
          && (f.StoreBinder? || (f.Recheck? && g.RecOf(f.cls).bindCalled)) && o.frames[k].cls == f.cls)
    && (forall k | 0 <= k < |o.frames| && o.frames[k].HandOver? ::
          && (f.ReadBinder? || (f.Snapshot? && g.RecOf(f.cls).bindCalled))
          && o.frames[k].cls == f.cls && o.frames[k].binder == g.RecOf(f.cls).binder)
  }

  lemma RecordsUnbound(g: Globals, g': Globals)
    requires g'.svc == g.svc && g'.log.bindRuns == g.log.bindRuns
    ensures forall c: ClassName :: Unbound(g, g', c)
  {}

  lemma AdoptedUnbound(g: Globals, c: ClassName)
    requires c in g.services
    ensures forall b: ClassName :: Unbound(g, Adopted(g, c), b)
  {}

  lemma EnsureUnbound(g: Globals, c: ClassName, choice: Choice)
    ensures forall b: ClassName :: Unbound(g, EnsureCreated(g, c, choice).0, b)
  {
    if c in g.services { AdoptedUnbound(g, c); }
  }

  lemma FrameBindEffect(g: Globals, t: Thread, f: Frame, choice: Choice)
    ensures BindEffect(g, f, RunFrame(g, t, f, choice))
  {
    var g' := RunFrame(g, t, f, choice).g;
    if f.StoreBinder? {
      assert g' == g.WithRec(f.cls, g.RecOf(f.cls).(bindCalled := true, binder := f.result));
    } else if StartsOnBind(g, f) {
      assert g'.log == g.log.BindRan(f.cls) && g'.svc == g.svc;
    } else {
      hide Unbound, EnsureCreated, Adopted;
      if f.BindCreate? || f.StartCreate? {
        EnsureUnbound(g, f.cls, choice);
      } else if f.BindAdopt? && f.cls in g.services {
        AdoptedUnbound(g, f.cls);
      } else if f.WorkerAdopt? && f.i < |f.batch| && f.batch[f.i].cls in g.services {
        AdoptedUnbound(g, f.batch[f.i].cls);
      } else {
        RecordsUnbound(g, g');
      }
    }
  }

  lemma FrameBindFrames(g: Globals, t: Thread, f: Frame, choice: Choice)
    ensures BindFrames(g, f, RunFrame(g, t, f, choice))
  {}

  lemma FrameDeliveries(g: Globals, t: Thread, f: Frame, choice: Choice)
    ensures var g' := RunFrame(g, t, f, choice).g;
            || g'.log.deliveries == g.log.deliveries
            || (f.HandOver? && g'.log.deliveries == g.log.deliveries + [Delivery(f.cls, f.connId, f.src, f.binder)])
  {}

  /** At the start of an onBind that does not re-enter, the class has never been bound. */
  lemma FirstBind(s: State, t: Thread)
    requires LockInv(s) && BindInv(s) && Stack(s, t) != [] && StartsOnBind(s.g, Top(s, t))
    requires !Within(Stack(s, t), Top(s, t).cls)
    ensures s.g.log.BindRuns(Top(s, t).cls) == 0
  {
    var c := Top(s, t).cls;
    HeldHas(Stack(s, t), |Stack(s, t)| - 1);
    if s.g.log.BindRuns(c) == 1 {
      assert BeingBound(s, c);
      var u: Thread :| Within(Stack(s, u), c);
      var i :| 0 <= i < |Stack(s, u)| && BindsClass(Stack(s, u)[i], c);
      HeldHas(Stack(s, u), i);
    }
  }

  /** What a region changes about its own class contradicts no frame of another. */
  lemma FrameBindKept(g: Globals, top: Frame, o: Outcome, f: Frame)
    requires FrameBind(g, f) && FrameBind(g, top) && BindEffect(g, top, o)
    requires f.Binding() && top.Binding() ==> f.cls != top.cls
    requires StartsOnBind(g, top) ==> g.log.BindRuns(top.cls) == 0
    ensures FrameBind(o.g, f)
    ensures f.Binding() && StartsOnBind(g, top) ==> f.cls != top.cls
  {
    if f.Binding() || f.ReadBinder? || f.HandOver? {
      assert !((top.StoreBinder? || StartsOnBind(g, top)) && f.cls == top.cls) ==> Unbound(g, o.g, f.cls);
    }
  }

  /** No frame binds the class of a first bind, and the frame that records a result is the only one
      that binds its class. */
  lemma OtherFrames(s: State, t: Thread, choice: Choice, u: Thread, i: nat)
    requires LockInv(s) && BindInv(s) && Enabled(s, Exec(t, choice)) && !Reenters(s, Exec(t, choice))
    requires i < |Stack(s, u)| && (u == t ==> i < |Stack(s, t)| - 1)
    ensures FrameBind(RunFrame(s.g, t, Top(s, t), choice).g, Stack(s, u)[i])
    ensures Stack(s, u)[i].Binding() && (Top(s, t).Binding() || StartsOnBind(s.g, Top(s, t))) ==>
              Stack(s, u)[i].cls != Top(s, t).cls
  {
    var f, top := Stack(s, u)[i], Top(s, t);
    assert top == Stack(s, t)[|Stack(s, t)| - 1];
    FrameBindEffect(s.g, t, top, choice);
    if StartsOnBind(s.g, top) { FirstBind(s, t); }
    assert FrameBind(s.g, f) && FrameBind(s.g, top);
    hide RunFrame, LockInv, FramesBind, Counted, SameBinder, Within, Enabled, FrameBind, BindEffect;
    FrameBindKept(s.g, top, RunFrame(s.g, t, top, choice), f);
  }

  lemma FramesBindExec(s: State, t: Thread, choice: Choice)
    requires LockInv(s) && BindInv(s) && Enabled(s, Exec(t, choice)) && !Reenters(s, Exec(t, choice))
    ensures FramesBind(Apply(s, Exec(t, choice)))
  {
    var s' := Apply(s, Exec(t, choice));
    var top, o := Top(s, t), RunFrame(s.g, t, Top(s, t), choice);
    assert top == Stack(s, t)[|Stack(s, t)| - 1] && FrameBind(s.g, top);
    NewFramesBind(s, t, choice);
    hide RunFrame, LockInv, BindInv, FrameBind, Reenters;
    forall u: Thread, i: nat | i < |Stack(s', u)|
      ensures FrameBind(s'.g, Stack(s', u)[i])
    {
      FrameOrigin(s, Exec(t, choice), u, i);
      if Kept(s, u, i, Stack(s', u)[i]) && (u == t ==> i < |Stack(s, t)| - 1) {
        OtherFrames(s, t, choice, u, i);
      }
    }
  }

  lemma NewFramesBind(s: State, t: Thread, choice: Choice)
    requires LockInv(s) && BindInv(s) && Enabled(s, Exec(t, choice)) && !Reenters(s, Exec(t, choice))
    ensures var o := RunFrame(s.g, t, Top(s, t), choice);
            (forall k | 0 <= k < |o.frames| :: FrameBind(o.g, o.frames[k])) && FrameBind(o.g, WorkerBoot)
  {
    var top := Top(s, t);
    assert top == Stack(s, t)[|Stack(s, t)| - 1] && FrameBind(s.g, top);
    FrameBindEffect(s.g, t, top, choice);
    FrameBindFrames(s.g, t, top, choice);
    if StartsOnBind(s.g, top) { FirstBind(s, t); }
    hide RunFrame, LockInv, BindInv;
  }

  lemma OneBindingExec(s: State, t: Thread, choice: Choice)
    requires LockInv(s) && BindInv(s) && Enabled(s, Exec(t, choice)) && !Reenters(s, Exec(t, choice))
    ensures OneBinding(Apply(s, Exec(t, choice)))
  {
    var s' := Apply(s, Exec(t, choice));
    var base := |Stack(s, t)| - 1;
    FrameBindFrames(s.g, t, Top(s, t), choice);
    forall u: Thread, i: nat, v: Thread, j: nat |
      i < |Stack(s', u)| && j < |Stack(s', v)| && Stack(s', u)[i].Binding()
      && BindsClass(Stack(s', v)[j], Stack(s', u)[i].cls)
      ensures u == v && i == j
    {
      BindingOrigin(s, t, choice, u, i);
      BindingOrigin(s, t, choice, v, j);
      hide RunFrame, LockInv, FramesBind, Counted, SameBinder, Reenters, Enabled;
      if (u, i) != (t, base) && (v, j) != (t, base) {
        assert Stack(s, u)[i].Binding() && Stack(s, v)[j].Binding();
      }
    }
  }

  /** A binding frame after the step was there before, or is the one that replaced the top, and then
      no other frame binds its class. */
  lemma BindingOrigin(s: State, t: Thread, choice: Choice, u: Thread, i: nat)
    requires LockInv(s) && BindInv(s) && Enabled(s, Exec(t, choice)) && !Reenters(s, Exec(t, choice))
    requires i < |Stack(Apply(s, Exec(t, choice)), u)| && Stack(Apply(s, Exec(t, choice)), u)[i].Binding()
    ensures var base := |Stack(s, t)| - 1; var f := Stack(Apply(s, Exec(t, choice)), u)[i];
            if u == t && i >= base then
              && i == base && f.cls == Top(s, t).cls && (Top(s, t).Binding() || StartsOnBind(s.g, Top(s, t)))
            else
              && Kept(s, u, i, f)
              && (Top(s, t).Binding() || StartsOnBind(s.g, Top(s, t)) ==> f.cls != Top(s, t).cls)
  {
    FrameOrigin(s, Exec(t, choice), u, i);
    FrameBindFrames(s.g, t, Top(s, t), choice);
    var f := Stack(Apply(s, Exec(t, choice)), u)[i];
    if Kept(s, u, i, f) && (u == t ==> i < |Stack(s, t)| - 1) {
      OtherFrames(s, t, choice, u, i);
    }
    hide RunFrame, LockInv, BindInv, Reenters, Enabled, Within, FrameBind;
  }

  lemma CountKept(g: Globals, top: Frame, o: Outcome, c: ClassName)
    requires FrameBind(g, top) && BindEffect(g, top, o)
    requires StartsOnBind(g, top) ==> g.log.BindRuns(top.cls) == 0
    requires g.log.BindRuns(c) <= 1 && (g.RecOf(c).bindCalled ==> g.log.BindRuns(c) == 1)
    ensures o.g.log.BindRuns(c) <= 1 && (o.g.RecOf(c).bindCalled ==> o.g.log.BindRuns(c) == 1)
    ensures o.g.log.BindRuns(c) == 1 && !o.g.RecOf(c).bindCalled ==>
              || (StartsOnBind(g, top) && top.cls == c)
              || (g.log.BindRuns(c) == 1 && !g.RecOf(c).bindCalled && !(top.StoreBinder? && top.cls == c))
  {
    assert !((top.StoreBinder? || StartsOnBind(g, top)) && c == top.cls) ==> Unbound(g, o.g, c);
  }

  lemma CountedExec(s: State, t: Thread, choice: Choice)
    requires LockInv(s) && BindInv(s) && Enabled(s, Exec(t, choice)) && !Reenters(s, Exec(t, choice))
    ensures Counted(Apply(s, Exec(t, choice)))
  {
    var s' := Apply(s, Exec(t, choice));
    var top := Top(s, t);
    assert top == Stack(s, t)[|Stack(s, t)| - 1] && FrameBind(s.g, top);
    FrameBindEffect(s.g, t, top, choice);
    if StartsOnBind(s.g, top) { FirstBind(s, t); }
    hide RunFrame, LockInv, FramesBind, OneBinding, SameBinder, Reenters, Enabled, BindEffect, BeingBound, FrameBind;
    forall c: ClassName
      ensures s'.g.log.BindRuns(c) <= 1 && (s'.g.RecOf(c).bindCalled ==> s'.g.log.BindRuns(c) == 1)
      ensures s'.g.log.BindRuns(c) == 1 && !s'.g.RecOf(c).bindCalled ==> BeingBound(s', c)
    {
      assert s.g.log.BindRuns(c) <= 1;
      CountKept(s.g, top, RunFrame(s.g, t, top, choice), c);
      BoundStays(s, t, choice, c);
    }
  }

  /** A class being bound stays so until its result is recorded; one whose onBind starts becomes so. */
  lemma BoundStays(s: State, t: Thread, choice: Choice, c: ClassName)
    requires Enabled(s, Exec(t, choice))
    ensures StartsOnBind(s.g, Top(s, t)) && Top(s, t).cls == c ==> BeingBound(Apply(s, Exec(t, choice)), c)
    ensures BeingBound(s, c) && !(Top(s, t).StoreBinder? && Top(s, t).cls == c) ==>
              BeingBound(Apply(s, Exec(t, choice)), c)
  {
    var s' := Apply(s, Exec(t, choice));
    var top, base, o := Top(s, t), |Stack(s, t)| - 1, RunFrame(s.g, t, Top(s, t), choice);
    FrameBindFrames(s.g, t, top, choice);
    hide RunFrame;
    assert Stack(s', t) == Stack(s, t)[..base] + o.frames;
    if (StartsOnBind(s.g, top) || top.InOnBind?) && top.cls == c {
      assert BindsClass(Stack(s', t)[base], c);
      assert Within(Stack(s', t), c);
    } else if BeingBound(s, c) && !(top.StoreBinder? && top.cls == c) {
      var u: Thread :| Within(Stack(s, u), c);
      var i :| 0 <= i < |Stack(s, u)| && BindsClass(Stack(s, u)[i], c);
      assert BindsClass(Stack(s', u)[i], c);
      assert Within(Stack(s', u), c);
    }
  }

  lemma SameBinderExec(s: State, t: Thread, choice: Choice)
    requires LockInv(s) && BindInv(s) && Enabled(s, Exec(t, choice)) && !Reenters(s, Exec(t, choice))
    ensures SameBinder(Apply(s, Exec(t, choice)).g)
  {
    var g, g', top := s.g, RunFrame(s.g, t, Top(s, t), choice).g, Top(s, t);
    assert top == Stack(s, t)[|Stack(s, t)| - 1] && FrameBind(g, top);
    FrameBindEffect(g, t, top, choice);
    FrameDeliveries(g, t, top, choice);
    hide RunFrame, LockInv, FramesBind, OneBinding, Counted, Reenters, Enabled;
    forall d | 0 <= d < |g'.log.deliveries|
      ensures g'.RecOf(g'.log.deliveries[d].cls).bindCalled
      ensures g'.log.deliveries[d].binder == g'.RecOf(g'.log.deliveries[d].cls).binder
    {
      var c := g'.log.deliveries[d].cls;
      assert g.RecOf(c).bindCalled && g'.log.deliveries[d].binder == g.RecOf(c).binder;
      assert Unbound(g, g', c);
    }
  }

  lemma BindStep(s: State, step: Step)
    requires LockInv(s) && BindInv(s) && Enabled(s, step) && !Reenters(s, step)
    ensures BindInv(Apply(s, step))
  {
    var s' := Apply(s, step);
    if step.Exec? {
      hide BindInv, LockInv, Reenters, FramesBind, OneBinding, Counted, SameBinder, Apply, Enabled;
      FramesBindExec(s, step.t, step.choice);
      OneBindingExec(s, step.t, step.choice);
      CountedExec(s, step.t, step.choice);
      SameBinderExec(s, step.t, step.choice);
      BindParts(s');
    } else {
      BindOther(s, step);
    }
  }

  lemma BindParts(s: State)
    requires FramesBind(s) && OneBinding(s) && Counted(s) && SameBinder(s.g)
    ensures BindInv(s)
  {}

  /** Calls push frames that bind nothing, and change no record. */
  lemma BindOther(s: State, step: Step)
    requires BindInv(s) && Enabled(s, step) && !step.Exec?
    ensures BindInv(Apply(s, step))
  {
    var s' := Apply(s, step);
    RecordsUnbound(s.g, s'.g);
    forall t: Thread, i: nat | i < |Stack(s', t)|
      ensures FrameBind(s'.g, Stack(s', t)[i])
      ensures Stack(s', t)[i].Binding() ==> Kept(s, t, i, Stack(s', t)[i])
    {
      FrameOrigin(s, step, t, i);
    }
    forall c: ClassName | BeingBound(s, c)
      ensures BeingBound(s', c)
    {
      var t: Thread :| Within(Stack(s, t), c);
      var i :| 0 <= i < |Stack(s, t)| && BindsClass(Stack(s, t)[i], c);
      assert Stack(s', t)[i] == Stack(s, t)[i];
      assert Within(Stack(s', t), c);
    }
  }

  // ---------------------------------------------------------------- over whole runs

  lemma {:induction false} LockRun(ss: seq<State>, steps: seq<Step>, i: nat)
    requires Run(ss, steps) && i < |ss|
    ensures LockInv(ss[i])
  {
    if i == 0 {
      assert forall t: Thread :: Stack(ss[0], t) == [];
      assert Held([]) == 0;
    } else {
      LockRun(ss, steps, i - 1);
      assert Next(ss[i - 1], steps[i - 1], ss[i]);
      hide LockInv, Apply;
      LockStep(ss[i - 1], steps[i - 1]);
    }
  }

  lemma {:induction false} BindRun(ss: seq<State>, steps: seq<Step>, i: nat)
    requires Run(ss, steps) && i < |ss| && forall k | 0 <= k < i :: !Reenters(ss[k], steps[k])
    ensures BindInv(ss[i]) && LockInv(ss[i])
  {
    LockRun(ss, steps, i);
    if i == 0 {
      assert forall t: Thread :: Stack(ss[0], t) == [];
    } else {
      BindRun(ss, steps, i - 1);
      assert Next(ss[i - 1], steps[i - 1], ss[i]);
      hide BindInv, LockInv, Apply, Enabled;
      BindStep(ss[i - 1], steps[i - 1]);
    }
  }

  /** Across all threads onBind runs at most once per class, exactly in the runs where no onBind
      re-enters a bind of its own class on its own thread. */
  lemma OnBindOnce(ss: seq<State>, steps: seq<Step>)
    requires Run(ss, steps)
    ensures (forall c: ClassName :: ss[|steps|].g.log.BindRuns(c) <= 1) <==>
            forall k | 0 <= k < |steps| :: !Reenters(ss[k], steps[k])
  {
    hide Reenters, Apply, LockInv, BindInv, Next;
    if forall k | 0 <= k < |steps| :: !Reenters(ss[k], steps[k]) {
      BindRun(ss, steps, |steps|);
      BindCounts(ss[|steps|]);
    } else {
      var k := FirstReentry(ss, steps, 0);
      var c := ReentryShows(ss, steps, k);
    }
  }

  lemma BindCounts(s: State)
    requires BindInv(s)
    ensures forall c: ClassName :: s.g.log.BindRuns(c) <= 1
  {}

  lemma ReentryShows(ss: seq<State>, steps: seq<Step>, k: nat) returns (c: ClassName)
    requires Run(ss, steps) && k < |steps| && Reenters(ss[k], steps[k])
    requires forall i | 0 <= i < k :: !Reenters(ss[i], steps[i])
    ensures ss[|steps|].g.log.BindRuns(c) >= 2
  {
    assert Next(ss[k], steps[k], ss[k + 1]);
    c := Top(ss[k], steps[k].t).cls;
    hide BindInv, LockInv, Apply, Enabled, Reenters, Log.BindRuns;
    BindRun(ss, steps, k);
    ReentryCounts(ss[k], steps[k]);
    BindRunsGrow(ss, steps, k + 1, |steps|, c);
  }

  lemma {:induction false} FirstReentry(ss: seq<State>, steps: seq<Step>, from: nat) returns (k: nat)
    requires |ss| == |steps| + 1 && from <= |steps|
    requires forall i | 0 <= i < from :: !Reenters(ss[i], steps[i])
    requires !forall i | 0 <= i < |steps| :: !Reenters(ss[i], steps[i])
    ensures k < |steps| && Reenters(ss[k], steps[k]) && forall i | 0 <= i < k :: !Reenters(ss[i], steps[i])
    decreases |steps| - from
  {
    if Reenters(ss[from], steps[from]) { k := from; } else { k := FirstReentry(ss, steps, from + 1); }
  }

  /** Re-entry starts onBind of a class whose onBind is already running. */
  lemma ReentryCounts(s: State, step: Step)
    requires BindInv(s) && Enabled(s, step) && Reenters(s, step)
    ensures Apply(s, step).g.log.BindRuns(Top(s, step.t).cls) == 2
  {
    var c := Top(s, step.t).cls;
    var i :| 0 <= i < |Stack(s, step.t)| && BindsClass(Stack(s, step.t)[i], c);
    assert FrameBind(s.g, Stack(s, step.t)[i]);
    FrameBindEffect(s.g, step.t, Top(s, step.t), step.choice);
  }

  lemma {:induction false} BindRunsGrow(ss: seq<State>, steps: seq<Step>, i: nat, j: nat, c: ClassName)
    requires Run(ss, steps) && i <= j < |ss|
    ensures ss[i].g.log.BindRuns(c) <= ss[j].g.log.BindRuns(c)
    decreases j
  {
    if i == j {
    } else {
      BindRunsGrow(ss, steps, i, j - 1, c);
      assert Next(ss[j - 1], steps[j - 1], ss[j]);
      var s, step := ss[j - 1], steps[j - 1];
      if step.Exec? {
        FrameBindEffect(s.g, step.t, Top(s, step.t), step.choice);
        assert !((Top(s, step.t).StoreBinder? || StartsOnBind(s.g, Top(s, step.t))) && c == Top(s, step.t).cls) ==>
                 Unbound(s.g, ss[j].g, c);
        hide RunFrame;
      }
    }
  }

  /** In those runs every delivery for a class carries the same binder. */
  lemma DeliveriesAgree(ss: seq<State>, steps: seq<Step>, i: nat)
    requires Run(ss, steps) && i < |ss| && forall k | 0 <= k < i :: !Reenters(ss[k], steps[k])
    ensures SameBinder(ss[i].g)
    ensures forall d, e | 0 <= d < |ss[i].g.log.deliveries| && 0 <= e < |ss[i].g.log.deliveries| &&
                          ss[i].g.log.deliveries[d].cls == ss[i].g.log.deliveries[e].cls ::
              ss[i].g.log.deliveries[d].binder == ss[i].g.log.deliveries[e].binder
  {
    BindRun(ss, steps, i);
  }

  /** The bind lock excludes: two threads are never both in the region it guards. */
  lemma BindLockExcludes(ss: seq<State>, steps: seq<Step>, i: nat, t: Thread, u: Thread, m: nat, n: nat)
    requires Run(ss, steps) && i < |ss| && m < |Stack(ss[i], t)| && n < |Stack(ss[i], u)|
    requires Stack(ss[i], t)[m].HoldsBindLock() && Stack(ss[i], u)[n].HoldsBindLock()
    ensures t == u
  {
    LockRun(ss, steps, i);
    HeldHas(Stack(ss[i], t), m);
    HeldHas(Stack(ss[i], u), n);
  }
}
