/** Runs from the start that reach the cases which the bind protocol does not cover: a call after an
    unbind, a queued bind without a worker, and a second onBind. */
module InprocRuns {
  import opened InprocService
  import Unbind = InprocUnbind

  /** Two threads: what they share, and the stack of each. */
  ghost predicate At(s: State, g: Globals, main: seq<Frame>, worker: seq<Frame>) {
    s.g == g && Stack(s, 0) == main && Stack(s, 1) == worker && OthersIdle(s)
  }

  ghost predicate OthersIdle(s: State) { forall t: Thread {:trigger Stack(s, t)} | t > 1 :: Stack(s, t) == [] }

  lemma StillIdle(s: State, s': State)
    requires OthersIdle(s)
    requires forall t: Thread | t > 1 && t in s'.threads :: t in s.threads && s'.threads[t] == s.threads[t]
    ensures OthersIdle(s')
  {
    forall t: Thread | t > 1 ensures Stack(s', t) == [] {
      assert Stack(s, t) == [];
    }
  }

  /** A run that ends in such a state. */
  ghost predicate Ends(ss: seq<State>, steps: seq<Step>, g: Globals, main: seq<Frame>, worker: seq<Frame>) {
    Run(ss, steps) && At(ss[|steps|], g, main, worker)
  }

  lemma Grow(ss: seq<State>, steps: seq<Step>, step: Step) returns (ss': seq<State>, steps': seq<Step>)
    requires Run(ss, steps) && Enabled(ss[|steps|], step)
    ensures Run(ss', steps') && steps' == steps + [step]
    ensures ss' == ss + [Apply(ss[|steps|], step)]
  {
    hide Enabled, Apply;
    ss', steps' := ss + [Apply(ss[|steps|], step)], steps + [step];
    forall i {:trigger steps'[i]} | 0 <= i < |steps'| ensures Next(ss'[i], steps'[i], ss'[i + 1]) {
      if i < |steps| {
        assert Next(ss[i], steps[i], ss[i + 1]);
      }
    }
  }

  /** One region of thread 0 (or of thread 1), whose top frame `f` over `below` becomes `frames`. */
  lemma Main(ss: seq<State>, steps: seq<Step>, g: Globals, below: seq<Frame>, f: Frame, worker: seq<Frame>,
             g': Globals, frames: seq<Frame>)
    returns (ss': seq<State>, steps': seq<Step>)
    requires Ends(ss, steps, g, below + [f], worker) && RunFrame(g, 0, f, LUCKY) == Then(g', frames)
    requires f.AwaitBindLock? ==> g.lock.owner.None? || g.lock.owner == Some(0)
    ensures Ends(ss', steps', g', below + frames, worker)
  {
    var s := ss[|steps|];
    assert Top(s, 0) == f && Stack(s, 0)[..|Stack(s, 0)| - 1] == below;
    ss', steps' := Grow(ss, steps, Exec(0, LUCKY));
    StillIdle(s, ss'[|steps'|]);
    hide RunFrame;
  }

  lemma Worker(ss: seq<State>, steps: seq<Step>, g: Globals, f: Frame, choice: Choice,
               g': Globals, frames: seq<Frame>)
    returns (ss': seq<State>, steps': seq<Step>)
    requires Ends(ss, steps, g, [], [f]) && f.InWorker() && choice.newThread == 2
    requires RunFrame(g, 1, f, choice) == Then(g', frames)
    ensures Ends(ss', steps', g', [], frames)
  {
    var s := ss[|steps|];
    assert Top(s, 1) == f && Stack(s, 1)[..|Stack(s, 1)| - 1] == [];
    ss', steps' := Grow(ss, steps, Exec(1, choice));
    assert [] + frames == frames;
    StillIdle(s, ss'[|steps'|]);
    hide RunFrame;
  }

  const LUCKY := Choice(true, false, Some(9), 5, 2)

  const UNRECORDED := Log(map[], map[], [])

  // ---------------------------------------------------------------- a bind is queued

  const QUEUE := Queue([Pending(0, 1, 0)], [Ticket(0, 1, Queued)])

  const SCHEDULED :=
    START.g.(connIds := {1}, svc := map[0 := Rec(Some(5), None, None, false)], log := UNRECORDED.CreateScheduled(0))

  const QUEUED := SCHEDULED.(queue := QUEUE, workers := Workers(true, Some(1), false))

  lemma StartEnds() returns (ss: seq<State>, steps: seq<Step>)
    ensures steps == [] && Ends(ss, steps, START.g, [], [])
  {
    ss, steps := [START], [];
  }

  /** Thread 0 has bound class 0 for connection 1; the create is scheduled and a worker thread exists. */
  lemma ReachQueued() returns (ss: seq<State>, steps: seq<Step>)
    ensures Ends(ss, steps, QUEUED, [], [WorkerBoot])
  {
    var g := START.g.(connIds := {1});
    ss, steps := StartEnds();
    ss, steps := Grow(ss, steps, CallBind(0, 0, 1));
    assert ss[|steps|].g.connIds == {1};
    StillIdle(START, ss[|steps|]);
    assert Ends(ss, steps, g, [BindLookup(0, 1)], []);
    hide Ends, Run, Apply, Enabled;
    assert forall f: Frame :: [] + [f] == [f];
    ss, steps := Main(ss, steps, g, [], BindLookup(0, 1), [], g, [BindAdopt(0, 1)]);
    ss, steps := Main(ss, steps, g, [], BindAdopt(0, 1), [], g, [BindCreate(0, 1)]);
    ss, steps := Main(ss, steps, g, [], BindCreate(0, 1), [], SCHEDULED, [BindEnqueue(0, 1)]);
    ss, steps := Spawn(ss, steps);
  }

  lemma Spawn(ss: seq<State>, steps: seq<Step>) returns (ss': seq<State>, steps': seq<Step>)
    requires Ends(ss, steps, SCHEDULED, [BindEnqueue(0, 1)], [])
    ensures Ends(ss', steps', QUEUED, [], [WorkerBoot])
  {
    ss', steps' := Grow(ss, steps, Exec(0, LUCKY.(newThread := 1)));
    assert Enqueued(SCHEDULED.queue, 0, 1) == QUEUE;
    StillIdle(ss[|steps|], ss'[|steps'|]);
  }

  /** A run that ends with an accepted bind in the queue, no worker, and no thread in any of this code. */
  lemma QueueWithoutWorker() returns (ss: seq<State>, steps: seq<Step>)
    ensures Run(ss, steps)
    ensures ss[|steps|].g.queue == QUEUE && !ss[|steps|].g.workers.running
    ensures forall t: Thread :: Stack(ss[|steps|], t) == []
  {
    ss, steps := ReachQueued();
    var stranded := QUEUED.(workers := Workers(false, None, true));
    ss, steps := Worker(ss, steps, QUEUED, WorkerBoot, LUCKY.(ok := false), stranded, []);
    forall t: Thread ensures Stack(ss[|steps|], t) == [] {
      if t > 1 {
        assert OthersIdle(ss[|steps|]);
      }
    }
  }

  // ---------------------------------------------------------------- a call after the unbind

  const BATCH := [Pending(0, 1, 0)]

  const SERVED := QUEUED.(services := map[0 := Service(Some(5), 7)])

  const ADOPTED := SERVED.(svc := map[0 := Rec(Some(5), Some(7), None, false)])

  const CLAIMED := ADOPTED.(queue := Queue([], [Ticket(0, 1, Claimed)]))

  const DELIVERING := [WorkerScan(BATCH, 1), Snapshot(0, 1, FromQueue(0))]

  /** The worker has claimed the bind and is about to deliver it, for the first time for this class. */
  lemma ReachClaimed() returns (ss: seq<State>, steps: seq<Step>)
    ensures Ends(ss, steps, CLAIMED, [], DELIVERING)
  {
    ss, steps := ReachQueued();
    var s := ss[|steps|];
    ss, steps := Grow(ss, steps, ServiceAppears(0, Service(Some(5), 7)));
    assert ss[|steps|].g.services == SERVED.services;
    StillIdle(s, ss[|steps|]);
    assert Ends(ss, steps, SERVED, [], [WorkerBoot]);
    hide Ends, Run, Apply, Enabled;
    ss, steps := Worker(ss, steps, SERVED, WorkerBoot, LUCKY, SERVED, [WorkerLoop]);
    ss, steps := Worker(ss, steps, SERVED, WorkerLoop, LUCKY, SERVED, [WorkerScan(BATCH, 0)]);
    ss, steps := Worker(ss, steps, SERVED, WorkerScan(BATCH, 0), LUCKY, SERVED, [WorkerAdopt(BATCH, 0)]);
    AdoptRegion();
    ss, steps := Worker(ss, steps, SERVED, WorkerAdopt(BATCH, 0), LUCKY, ADOPTED, [WorkerClaim(BATCH, 0, true)]);
    ClaimRegion();
    ss, steps := Worker(ss, steps, ADOPTED, WorkerClaim(BATCH, 0, true), LUCKY, CLAIMED, DELIVERING);
  }

  lemma AdoptRegion()
    ensures RunFrame(SERVED, 1, WorkerAdopt(BATCH, 0), LUCKY) == Then(ADOPTED, [WorkerClaim(BATCH, 0, true)])
  {
    assert Adopted(SERVED, 0).svc == ADOPTED.svc;
  }

  lemma ClaimRegion()
    ensures RunFrame(ADOPTED, 1, WorkerClaim(BATCH, 0, true), LUCKY) == Then(CLAIMED, DELIVERING)
  {
    assert IndexOf(BATCH, 1, 0) == 0 && Leave(QUEUE, 0, Claimed) == Queue([], [Ticket(0, 1, Claimed)]);
  }

  /** A run in which a bind is claimed, its connection is disconnected, and the connection is called. */
  lemma CalledAfterUnbind() returns (ss: seq<State>, steps: seq<Step>, i: nat, j: nat)
    ensures Run(ss, steps) && i < j < |steps|
    ensures ss[i].g == CLAIMED && steps[i].CallDisconnect? && steps[i].connId == 1
    ensures Unbind.DeliversTo(ss[j], ss[j + 1], 1) && forall k | i < k <= j :: !Unbind.Rebinds(steps[k], 1)
  {
    var first, before := ReachClaimed();
    i := |before|;
    var ss1, steps1 := Grow(first, before, CallDisconnect(0, 1));
    assert Stack(ss1[|steps1|], 1) == DELIVERING;
    ss, steps := LateCall(ss1, steps1);
    j := |steps| - 1;
    assert ss[i] == ss[..|ss1|][i] && steps[i] == steps[..|steps1|][i];
  }

  lemma LateCall(ss: seq<State>, steps: seq<Step>) returns (ss': seq<State>, steps': seq<Step>)
    requires Run(ss, steps) && Stack(ss[|steps|], 1) == DELIVERING
    ensures Run(ss', steps') && |steps| < |steps'| && steps'[..|steps|] == steps && ss'[..|ss|] == ss
    ensures Unbind.DeliversTo(ss'[|steps'| - 1], ss'[|steps'|], 1)
    ensures forall i | |steps| <= i < |steps'| :: !Unbind.Rebinds(steps'[i], 1)
  {
    var s := ss[|steps|];
    assert Stack(s, 1)[1] == Snapshot(0, 1, FromQueue(0));
    hide Unbind.Reach, Unbind.CanDeliver;
    Unbind.ReachRun(ss, steps, |steps|);
    Unbind.DeliveryArrives(s, 1, 1, 1);
    var k: nat :| Unbind.CanDeliver(s, 1, k);
    ss', steps' := Continue(ss, steps, 1, k);
  }

  /** A delivering continuation is a run. */
  lemma {:induction false} Continue(ss: seq<State>, steps: seq<Step>, n: int, k: nat)
    returns (ss': seq<State>, steps': seq<Step>)
    requires Run(ss, steps) && Unbind.CanDeliver(ss[|steps|], n, k)
    ensures Run(ss', steps') && |steps| < |steps'| && steps'[..|steps|] == steps && ss'[..|ss|] == ss
    ensures Unbind.DeliversTo(ss'[|steps'| - 1], ss'[|steps'|], n)
    ensures forall i | |steps| <= i < |steps'| :: !Unbind.Rebinds(steps'[i], n)
    decreases k
  {
    hide Enabled, Apply;
    var s := ss[|steps|];
    var step :| Enabled(s, step) && !Unbind.Rebinds(step, n)
      && (Unbind.DeliversTo(s, Apply(s, step), n) || Unbind.CanDeliver(Apply(s, step), n, k - 1));
    ss', steps' := Grow(ss, steps, step);
    if !Unbind.DeliversTo(s, Apply(s, step), n) {
      ghost var more := steps';
      ss', steps' := Continue(ss', steps', n, k - 1);
      assert steps'[|steps|] == more[|steps|];
    }
  }

  // ---------------------------------------------------------------- onBind twice

  const RUNNING := START.g.(services := map[0 := Service(Some(5), 7)], connIds := {1})

  const KNOWN := RUNNING.(svc := map[0 := Rec(Some(5), Some(7), None, false)])

  /** A run in which an onBind binds its own class, and onBind runs for it a second time. */
  lemma OnBindRunsTwice() returns (ss: seq<State>, steps: seq<Step>)
    ensures Run(ss, steps) && ss[|steps|].g.log.BindRuns(0) == 2
  {
    ss, steps := StartEnds();
    ss, steps := Grow(ss, steps, ServiceAppears(0, Service(Some(5), 7)));
    ss, steps := Grow(ss, steps, CallBind(0, 0, 1));
    assert ss[|steps|].g.services == RUNNING.services && ss[|steps|].g.connIds == {1};
    StillIdle(START, ss[|steps|]);
    assert Ends(ss, steps, RUNNING, [BindLookup(0, 1)], []);
    ss, steps := OnBindOnce(ss, steps);
    ss, steps := OnBindAgain(ss, steps);
  }

  lemma OnBindOnce(ss: seq<State>, steps: seq<Step>) returns (ss': seq<State>, steps': seq<Step>)
    requires Ends(ss, steps, RUNNING, [BindLookup(0, 1)], [])
    ensures Ends(ss', steps', InFirst(), [InOnBind(0, 1, Direct)], [])
  {
    hide Ends, Run;
    assert forall f: Frame :: [] + [f] == [f];
    ss', steps' := Main(ss, steps, RUNNING, [], BindLookup(0, 1), [], RUNNING, [BindAdopt(0, 1)]);
    assert RunFrame(RUNNING, 0, BindAdopt(0, 1), LUCKY) == Then(KNOWN, [Snapshot(0, 1, Direct)]) by {
      assert Adopted(RUNNING, 0).svc == KNOWN.svc;
    }
    ss', steps' := Main(ss', steps', RUNNING, [], BindAdopt(0, 1), [], KNOWN, [Snapshot(0, 1, Direct)]);
    ss', steps' := IntoOnBind(ss', steps', KNOWN, [], 1);
  }

  function InFirst(): Globals { KNOWN.(lock := BindLock(Some(0), 1), log := UNRECORDED.BindRan(0)) }

  lemma OnBindAgain(ss: seq<State>, steps: seq<Step>) returns (ss': seq<State>, steps': seq<Step>)
    requires Ends(ss, steps, InFirst(), [InOnBind(0, 1, Direct)], [])
    ensures Run(ss', steps') && ss'[|steps'|].g.log.BindRuns(0) == 2
  {
    var outer := InOnBind(0, 1, Direct);
    var g := InFirst().(connIds := {1, 2});
    ss', steps' := Grow(ss, steps, CallBind(0, 0, 2));
    assert ss'[|steps'|].g.connIds == {1, 2};
    StillIdle(ss[|steps|], ss'[|steps'|]);
    assert [outer] + [BindLookup(0, 2)] == [outer, BindLookup(0, 2)];
    assert Ends(ss', steps', g, [outer] + [BindLookup(0, 2)], []);
    ss', steps' := Main(ss', steps', g, [outer], BindLookup(0, 2), [], g, [Snapshot(0, 2, Direct)]);
    ss', steps' := IntoOnBind(ss', steps', g, [outer], 2);
  }

  /** From the start of a delivery, with onBind not yet recorded and the lock free or its own, into onBind. */
  lemma IntoOnBind(ss: seq<State>, steps: seq<Step>, g: Globals, below: seq<Frame>, n: int)
    returns (ss': seq<State>, steps': seq<Step>)
    requires Ends(ss, steps, g, below + [Snapshot(0, n, Direct)], [])
    requires g.RecOf(0).instance.Some? && !g.RecOf(0).bindCalled
    requires g.lock.owner.None? || g.lock.owner == Some(0)
    ensures Ends(ss', steps', g.(lock := g.lock.Acquired(0), log := g.log.BindRan(0)),
                 below + [InOnBind(0, n, Direct)], [])
  {
    hide Ends, Run;
    var f1, f2, f3 := Snapshot(0, n, Direct), AwaitBindLock(0, n, Direct), Recheck(0, n, Direct);
    var g2 := g.(lock := g.lock.Acquired(0));
    ss', steps' := Main(ss, steps, g, below, f1, [], g, [f2]);
    ss', steps' := Main(ss', steps', g, below, f2, [], g2, [f3]);
    ss', steps' := Main(ss', steps', g2, below, f3, [], g2.(log := g.log.BindRan(0)), [InOnBind(0, n, Direct)]);
  }
}
