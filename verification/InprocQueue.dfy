/** What every interleaving of binds, disconnects and worker steps guarantees about the queue: one
    worker at most, no accepted bind stranded, and every queued bind leaving the queue once. */
module InprocQueue {
  import opened InprocService

  // ---------------------------------------------------------------- one worker

  ghost predicate WorkerFrames(s: State) {
    forall t: Thread, i: nat {:trigger Stack(s, t)[i]} | i < |Stack(s, t)| ::
      Stack(s, t)[i].InWorker() <==> (i == 0 && s.g.workers.thread == Some(t))
  }

  predicate WorkerWhereNeeded(g: Globals) {
    && (g.workers.running ==> !g.workers.attachFailed)
    && (g.queue.pending != [] && !g.workers.attachFailed ==> g.workers.running)
  }

  ghost predicate WorkerInv(s: State) {
    && WorkerFrames(s)
    && (s.g.workers.thread.Some? ==> Stack(s, s.g.workers.thread.value) != [])
    && (s.g.workers.running <==> s.g.workers.thread.Some?)
    && WorkerWhereNeeded(s.g)
  }

  /** How a step touches the worker bookkeeping. */
  ghost predicate WorkerEffect(w: Workers, f: Frame, choice: Choice, o: Outcome) {
    if f.InWorker() then
      && !o.spawned
      && (forall k | 0 <= k < |o.frames| :: o.frames[k].InWorker() <==> k == 0)
      && (if o.frames == [] then !o.g.workers.running && o.g.workers.thread.None? else o.g.workers == w)
    else
      && (forall k | 0 <= k < |o.frames| :: !o.frames[k].InWorker())
      && (if o.spawned then !w.running && o.g.workers == Workers(true, Some(choice.newThread), false)
          else o.g.workers == w)
  }

  lemma DeliverEffect(g: Globals, t: Thread, f: Frame, choice: Choice)
    requires f.Delivers()
    ensures WorkerEffect(g.workers, f, choice, RunDeliver(g, t, f, choice))
    ensures RunDeliver(g, t, f, choice).g.queue.pending == g.queue.pending
  {}

  lemma BindEffect(g: Globals, f: Frame, choice: Choice)
    requires !f.Delivers() && !f.InWorker()
    ensures WorkerEffect(g.workers, f, choice, RunBind(g, f, choice))
    ensures !f.BindEnqueue? ==> RunBind(g, f, choice).g.queue == g.queue
  {}

  lemma LoopEffect(g: Globals, f: Frame, choice: Choice)
    requires f.InWorker()
    ensures WorkerEffect(g.workers, f, choice, RunWorker(g, f, choice))
    ensures var o := RunWorker(g, f, choice);
            && (o.g.queue.pending == [] || g.queue.pending != [])
            && (g.workers.attachFailed ==> o.g.workers.attachFailed)
            && (o.g.workers.attachFailed && !g.workers.attachFailed ==> !o.g.workers.running)
            && (o.frames == [] ==> o.g.queue.pending == [] || o.g.workers.attachFailed)
  {}

  lemma FrameEffect(g: Globals, t: Thread, f: Frame, choice: Choice)
    ensures WorkerEffect(g.workers, f, choice, RunFrame(g, t, f, choice))
  {
    if f.Delivers() {
      DeliverEffect(g, t, f, choice);
    } else if f.InWorker() {
      LoopEffect(g, f, choice);
    } else {
      BindEffect(g, f, choice);
    }
  }

  /** A bind that finds no worker and cannot start one takes its own entry back. */
  lemma RollbackEmpties(q: Queue, c: ClassName, n: int)
    requires q.pending == []
    ensures var q' := Enqueued(q, c, n); LeaveIfPresent(q', IndexOf(q'.pending, n, c), RolledBack).pending == []
  {
    var q' := Enqueued(q, c, n);
    assert q'.pending == [Pending(c, n, |q.tickets|)];
    assert IndexOf(q'.pending, n, c) == 0;
  }

  /** The queue never becomes non-empty without a worker, unless the last one failed to attach. */
  lemma QueueNeedsWorker(g: Globals, t: Thread, f: Frame, choice: Choice)
    requires WorkerWhereNeeded(g)
    ensures WorkerWhereNeeded(RunFrame(g, t, f, choice).g)
  {
    if f.Delivers() {
      DeliverEffect(g, t, f, choice);
    } else if f.InWorker() {
      LoopEffect(g, f, choice);
    } else {
      BindEffect(g, f, choice);
      if f.BindEnqueue? && g.queue.pending == [] {
        RollbackEmpties(g.queue, f.cls, f.connId);
      }
    }
  }

  lemma WorkerStep(s: State, step: Step)
    requires WorkerInv(s) && Enabled(s, step)
    ensures WorkerInv(Apply(s, step))
  {
    var s' := Apply(s, step);
    if step.Exec? {
      FrameEffect(s.g, step.t, Top(s, step.t), step.choice);
      QueueNeedsWorker(s.g, step.t, Top(s, step.t), step.choice);
      WorkerFramesExec(s, step.t, step.choice);
    } else {
      forall t: Thread, i: nat | i < |Stack(s', t)|
        ensures Stack(s', t)[i].InWorker() <==> (i == 0 && s'.g.workers.thread == Some(t))
      {
        FrameOrigin(s, step, t, i);
        if !Kept(s, t, i, Stack(s', t)[i]) && i == 0 {
          assert Stack(s, t) == [];
        }
      }
    }
  }

  lemma WorkerFramesExec(s: State, t: Thread, choice: Choice)
    requires WorkerInv(s) && Enabled(s, Exec(t, choice))
    ensures var s' := Apply(s, Exec(t, choice));
            WorkerFrames(s') && (s'.g.workers.thread.Some? ==> Stack(s', s'.g.workers.thread.value) != [])
  {
    var s' := Apply(s, Exec(t, choice));
    var o := RunFrame(s.g, t, Top(s, t), choice);
    var base := |Stack(s, t)| - 1;
    FrameEffect(s.g, t, Top(s, t), choice);
    assert Top(s, t) == Stack(s, t)[base];
    hide RunFrame;
    forall u: Thread, i: nat | i < |Stack(s', u)|
      ensures Stack(s', u)[i].InWorker() <==> (i == 0 && s'.g.workers.thread == Some(u))
    {
      FrameOrigin(s, Exec(t, choice), u, i);
      if Kept(s, u, i, Stack(s', u)[i]) && (u == t ==> i < base) {
        assert Stack(s, u)[i] == Stack(s', u)[i];
      }
    }
  }

  lemma {:induction false} WorkerRun(ss: seq<State>, steps: seq<Step>, i: nat)
    requires Run(ss, steps) && i < |ss|
    ensures WorkerInv(ss[i])
  {
    if i == 0 {
    } else {
      WorkerRun(ss, steps, i - 1);
      assert Next(ss[i - 1], steps[i - 1], ss[i]);
      WorkerStep(ss[i - 1], steps[i - 1]);
    }
  }

  // ---------------------------------------------------------------- every queued bind leaves once

  /** The queue holds exactly the binds whose fate is still open, each once, and never two for the
      same connection and class. */
  ghost predicate QueueInv(q: Queue) {
    && (forall i | 0 <= i < |q.pending| ::
          && q.pending[i].ticket < |q.tickets|
          && q.tickets[q.pending[i].ticket] == Ticket(q.pending[i].cls, q.pending[i].connId, Queued))
    && (forall i, j {:trigger Apart(q.pending[i], q.pending[j])} | 0 <= i < j < |q.pending| ::
          Apart(q.pending[i], q.pending[j]))
    && (forall k | 0 <= k < |q.tickets| && q.tickets[k].fate.Queued? :: InQueue(q.pending, k))
  }

  predicate Apart(p: Pending, r: Pending) {
    p.ticket != r.ticket && (p.connId != r.connId || p.cls != r.cls)
  }

  ghost predicate InQueue(pending: seq<Pending>, ticket: nat) {
    exists i :: 0 <= i < |pending| && pending[i].ticket == ticket
  }

  /** A bind's fate is decided once, on leaving the queue, and a claimed one is then settled once. */
  predicate FateMoves(a: Fate, b: Fate) {
    || a == b
    || (a.Queued? && (b.Disconnected? || b.RolledBack? || b.TimedOut? || b.Claimed?))
    || (a.Claimed? && (b.Delivered? || b.Dropped?))
  }

  ghost predicate TicketsMove(q: Queue, q': Queue) {
    && |q.tickets| <= |q'.tickets| <= |q.tickets| + 1
    && (forall k | 0 <= k < |q.tickets| ::
          && q'.tickets[k].cls == q.tickets[k].cls && q'.tickets[k].connId == q.tickets[k].connId
          && FateMoves(q.tickets[k].fate, q'.tickets[k].fate))
    && (|q'.tickets| > |q.tickets| ==>
          q'.tickets[|q.tickets|].fate.Queued? || q'.tickets[|q.tickets|].fate.RolledBack?)
  }

  /** The bind of this ticket has been claimed and not yet settled. */
  predicate InHand(q: Queue, ticket: nat) { ticket < |q.tickets| && q.tickets[ticket].fate.Claimed? }

  lemma EnqueuedInv(q: Queue, c: ClassName, n: int)
    requires QueueInv(q)
    ensures QueueInv(Enqueued(q, c, n)) && TicketsMove(q, Enqueued(q, c, n))
    ensures forall k | InHand(q, k) :: InHand(Enqueued(q, c, n), k)
  {
    var q' := Enqueued(q, c, n);
    if q' != q {
      forall a, b | 0 <= a < b < |q'.pending|
        ensures Apart(q'.pending[a], q'.pending[b])
      {
        if b < |q.pending| { assert Apart(q.pending[a], q.pending[b]); }
      }
      forall k | 0 <= k < |q'.tickets| && q'.tickets[k].fate.Queued?
        ensures InQueue(q'.pending, k)
      {
        if k < |q.tickets| {
          assert InQueue(q.pending, k);
          var i :| 0 <= i < |q.pending| && q.pending[i].ticket == k;
          assert q'.pending[i].ticket == k;
        } else {
          assert q'.pending[|q.pending|].ticket == k;
        }
      }
    }
  }

  lemma LeaveTickets(q: Queue, i: nat, fate: Fate)
    requires QueueInv(q) && i < |q.pending| && !fate.Queued? && FateMoves(Queued, fate)
    ensures var q' := Leave(q, i, fate); var k := q.pending[i].ticket;
            && q'.tickets == q.tickets[k := q.tickets[k].(fate := fate)] && TicketsMove(q, q')
            && (fate.Claimed? ==> InHand(q', k))
    ensures forall k | InHand(q, k) :: InHand(Leave(q, i, fate), k)
  {}

  lemma LeaveInv(q: Queue, i: nat, fate: Fate)
    requires QueueInv(q) && i < |q.pending| && !fate.Queued? && FateMoves(Queued, fate)
    ensures QueueInv(Leave(q, i, fate))
  {
    LeaveTickets(q, i, fate);
    var q' := Leave(q, i, fate);
    hide Apart, FateMoves, TicketsMove, InHand;
    forall a | 0 <= a < |q'.pending|
      ensures q'.pending[a].ticket < |q'.tickets|
      ensures q'.tickets[q'.pending[a].ticket] == Ticket(q'.pending[a].cls, q'.pending[a].connId, Queued)
    {
      ErasedAt(q, i, a);
    }
    forall a, b | 0 <= a < b < |q'.pending|
      ensures Apart(q'.pending[a], q'.pending[b])
    {
      assert Apart(q.pending[if a < i then a else a + 1], q.pending[if b < i then b else b + 1]);
    }
    forall k | 0 <= k < |q'.tickets| && q'.tickets[k].fate.Queued?
      ensures InQueue(q'.pending, k)
    {
      assert InQueue(q.pending, k);
      var j :| 0 <= j < |q.pending| && q.pending[j].ticket == k;
      assert q'.pending[if j < i then j else j - 1].ticket == k;
    }
  }

  /** An entry that stays was there before, and its ticket is not the one that left. */
  lemma ErasedAt(q: Queue, i: nat, a: nat)
    requires QueueInv(q) && i < |q.pending| && a < |q.pending| - 1
    ensures var a0 := if a < i then a else a + 1;
            Erase(q.pending, i)[a] == q.pending[a0] && q.pending[a0].ticket != q.pending[i].ticket
  {
    assert a < i ==> Apart(q.pending[a], q.pending[i]);
    assert a >= i ==> Apart(q.pending[i], q.pending[a + 1]);
  }

  lemma FinishInv(q: Queue, src: Source, fate: Fate)
    requires QueueInv(q) && (src.FromQueue? ==> InHand(q, src.ticket)) && (fate.Delivered? || fate.Dropped?)
    ensures QueueInv(Finish(q, src, fate)) && TicketsMove(q, Finish(q, src, fate))
    ensures forall k | InHand(q, k) && src != FromQueue(k) :: InHand(Finish(q, src, fate), k)
    ensures src.FromQueue? ==> Finish(q, src, fate).tickets[src.ticket].fate == fate
  {}

  /** The deliveries on their way: only the worker has any from the queue, one at a time, and each is
      of the bind it claimed. */
  ghost predicate TicketFrames(s: State) {
    forall t: Thread, i: nat {:trigger Stack(s, t)[i]} | i < |Stack(s, t)| && Stack(s, t)[i].Delivers() ::
      Carries(s.g, t, i, Stack(s, t)[i])
  }

  ghost predicate Carries(g: Globals, t: Thread, i: nat, f: Frame)
    requires f.Delivers()
  {
    f.src.FromQueue? ==>
      && g.workers.thread == Some(t) && i == 1
      && InHand(g.queue, f.src.ticket)
      && g.queue.tickets[f.src.ticket].cls == f.cls && g.queue.tickets[f.src.ticket].connId == f.connId
  }

  /** Every delivery out of the queue is of a bind whose fate is `Delivered`, for the class and
      connection it was queued for, and no bind is delivered twice. */
  ghost predicate DeliveriesInv(q: Queue, log: Log) {
    && (forall d | 0 <= d < |log.deliveries| && log.deliveries[d].src.FromQueue? ::
          var k := log.deliveries[d].src.ticket;
          k < |q.tickets| && q.tickets[k] == Ticket(log.deliveries[d].cls, log.deliveries[d].connId, Delivered))
    && (forall d, e | 0 <= d < e < |log.deliveries| && log.deliveries[d].src.FromQueue? ::
          log.deliveries[e].src != log.deliveries[d].src)
  }

  ghost predicate TicketInv(s: State) {
    QueueInv(s.g.queue) && TicketFrames(s) && DeliveriesInv(s.g.queue, s.g.log)
  }

  /** How one region moves the queue: the tickets move legally, every claim but the one the frame
      itself settles stays in hand, and the frames that follow carry what was claimed. */
  ghost predicate QueueEffect(g: Globals, t: Thread, i: nat, f: Frame, o: Outcome) {
    && QueueInv(o.g.queue) && TicketsMove(g.queue, o.g.queue) && DeliveriesInv(o.g.queue, o.g.log)
    && (forall k | InHand(g.queue, k) && !(f.Delivers() && f.src == FromQueue(k)) :: InHand(o.g.queue, k))
    && (o.spawned ==> g.workers.thread.None?)
    && (forall k | 0 <= k < |o.frames| && o.frames[k].Delivers() :: Carries(o.g, t, i + k, o.frames[k]))
  }

  /** Settling a claimed bind touches no earlier delivery, and its own is the first of its ticket. */
  lemma FinishDeliveries(q: Queue, log: Log, f: Frame, choice: Choice)
    requires f.Delivers() && DeliveriesInv(q, log) && (f.src.FromQueue? ==> InHand(q, f.src.ticket))
    requires f.src.FromQueue? ==> q.tickets[f.src.ticket].cls == f.cls && q.tickets[f.src.ticket].connId == f.connId
    ensures DeliveriesInv(Finish(q, f.src, Dropped), log)
    ensures f.HandOver? ==>
              DeliveriesInv(Finish(q, f.src, Delivered), log.Handed(Delivery(f.cls, f.connId, f.src, f.binder)))
  {}

  /** Leaving the queue settles no claimed bind. */
  lemma MovesKeepDeliveries(q: Queue, q': Queue, log: Log)
    requires DeliveriesInv(q, log) && TicketsMove(q, q')
    ensures DeliveriesInv(q', log)
  {}

  lemma DeliverQueue(g: Globals, t: Thread, i: nat, f: Frame, choice: Choice)
    requires f.Delivers() && QueueInv(g.queue) && DeliveriesInv(g.queue, g.log) && Carries(g, t, i, f)
    ensures QueueEffect(g, t, i, f, RunDeliver(g, t, f, choice))
  {
    FinishInv(g.queue, f.src, Dropped);
    FinishInv(g.queue, f.src, Delivered);
    FinishDeliveries(g.queue, g.log, f, choice);
    hide QueueInv, DeliveriesInv, TicketsMove, Finish;
    match f {
      case Snapshot(_, _, _) =>
      case AwaitBindLock(_, _, _) =>
      case Recheck(_, _, _) =>
      case InOnBind(_, _, _) =>
      case StoreBinder(_, _, _, _) =>
      case ReadBinder(_, _, _) =>
      case HandOver(_, _, _, _) =>
    }
  }

  lemma BindQueue(g: Globals, t: Thread, i: nat, f: Frame, choice: Choice)
    requires !f.Delivers() && !f.InWorker() && QueueInv(g.queue) && DeliveriesInv(g.queue, g.log)
    requires g.workers.running <==> g.workers.thread.Some?
    ensures QueueEffect(g, t, i, f, RunBind(g, f, choice))
  {
    var o := RunBind(g, f, choice);
    if f.BindEnqueue? {
      EnqueuedInv(g.queue, f.cls, f.connId);
      var q := Enqueued(g.queue, f.cls, f.connId);
      var k := IndexOf(q.pending, f.connId, f.cls);
      RollbackInv(g.queue, f.cls, f.connId);
      assert o.g.queue == q || o.g.queue == LeaveIfPresent(q, k, RolledBack);
      MovesKeepDeliveries(g.queue, o.g.queue, g.log);
      hide QueueInv, TicketsMove, DeliveriesInv, Enqueued, LeaveIfPresent;
    }
  }

  lemma RollbackMoves(q: Queue, q0: Queue, q': Queue, k: nat)
    requires TicketsMove(q, q0) && k < |q0.tickets| && q0.tickets[k].fate.Queued?
    requires q'.tickets == q0.tickets[k := q0.tickets[k].(fate := RolledBack)]
    requires forall j | InHand(q, j) :: InHand(q0, j)
    ensures TicketsMove(q, q') && forall j | InHand(q, j) :: InHand(q', j)
  {}

  lemma RollbackInv(q: Queue, c: ClassName, n: int)
    requires QueueInv(q)
    ensures var q0 := Enqueued(q, c, n); var q' := LeaveIfPresent(q0, IndexOf(q0.pending, n, c), RolledBack);
            QueueInv(q') && TicketsMove(q, q') && forall k | InHand(q, k) :: InHand(q', k)
  {
    EnqueuedInv(q, c, n);
    var q0 := Enqueued(q, c, n);
    var i := IndexOf(q0.pending, n, c);
    if i < |q0.pending| {
      LeaveInv(q0, i, RolledBack);
      LeaveTickets(q0, i, RolledBack);
      assert q0.tickets[q0.pending[i].ticket].fate.Queued?;
      hide QueueInv, Enqueued, Leave, TicketsMove, InHand;
      RollbackMoves(q, q0, Leave(q0, i, RolledBack), q0.pending[i].ticket);
    }
  }

  lemma LoopQueue(g: Globals, t: Thread, f: Frame, choice: Choice)
    requires f.InWorker() && QueueInv(g.queue) && DeliveriesInv(g.queue, g.log) && g.workers.thread == Some(t)
    ensures QueueEffect(g, t, 0, f, RunWorker(g, f, choice))
  {
    if f.WorkerClaim? && f.i < |f.batch| {
      var k := IndexOf(g.queue.pending, f.batch[f.i].connId, f.batch[f.i].cls);
      if k < |g.queue.pending| {
        var fate := if f.have then Claimed else TimedOut;
        LeaveInv(g.queue, k, fate);
        LeaveTickets(g.queue, k, fate);
        MovesKeepDeliveries(g.queue, Leave(g.queue, k, fate), g.log);
      }
    }
    hide DeliveriesInv, TicketsMove;
  }

  lemma ExecQueue(s: State, t: Thread, choice: Choice)
    requires WorkerInv(s) && TicketInv(s) && Enabled(s, Exec(t, choice))
    ensures QueueEffect(s.g, t, |Stack(s, t)| - 1, Top(s, t), RunFrame(s.g, t, Top(s, t), choice))
  {
    var f, i := Top(s, t), |Stack(s, t)| - 1;
    assert f == Stack(s, t)[i];
    if f.Delivers() {
      DeliverQueue(s.g, t, i, f, choice);
    } else if f.InWorker() {
      LoopQueue(s.g, t, f, choice);
    } else {
      BindQueue(s.g, t, i, f, choice);
    }
  }

  /** A frame left alone by the step still carries its claim. */
  lemma CarriesOn(s: State, t: Thread, choice: Choice, u: Thread, i: nat)
    requires WorkerInv(s) && TicketInv(s) && Enabled(s, Exec(t, choice))
    requires i < |Stack(s, u)| && (u == t ==> i < |Stack(s, t)| - 1) && Stack(s, u)[i].Delivers()
    ensures Carries(RunFrame(s.g, t, Top(s, t), choice).g, u, i, Stack(s, u)[i])
  {
    var f := Stack(s, u)[i];
    var top := Stack(s, t)[|Stack(s, t)| - 1];
    ExecQueue(s, t, choice);
    FrameEffect(s.g, t, Top(s, t), choice);
    hide RunFrame, QueueInv, DeliveriesInv;
    assert Carries(s.g, u, i, f);
    assert top.Delivers() ==> Carries(s.g, t, |Stack(s, t)| - 1, top);
  }

  lemma TicketExec(s: State, t: Thread, choice: Choice)
    requires WorkerInv(s) && TicketInv(s) && Enabled(s, Exec(t, choice))
    ensures TicketInv(Apply(s, Exec(t, choice))) && TicketsMove(s.g.queue, Apply(s, Exec(t, choice)).g.queue)
  {
    var s' := Apply(s, Exec(t, choice));
    ExecQueue(s, t, choice);
    hide RunFrame, QueueInv, DeliveriesInv, Carries, InHand, WorkerInv, TicketsMove;
    forall u: Thread, i: nat | i < |Stack(s', u)| && Stack(s', u)[i].Delivers()
      ensures Carries(s'.g, u, i, Stack(s', u)[i])
    {
      FrameOrigin(s, Exec(t, choice), u, i);
      if i < |Stack(s, u)| && (u == t ==> i < |Stack(s, t)| - 1) && Stack(s, u)[i] == Stack(s', u)[i] {
        CarriesOn(s, t, choice, u, i);
      }
    }
  }

  lemma TicketStep(s: State, step: Step)
    requires WorkerInv(s) && TicketInv(s) && Enabled(s, step)
    ensures TicketInv(Apply(s, step)) && TicketsMove(s.g.queue, Apply(s, step).g.queue)
  {
    var s' := Apply(s, step);
    if step.Exec? {
      TicketExec(s, step.t, step.choice);
    } else {
      if step.CallDisconnect? {
        var k := IndexOfConn(s.g.queue.pending, step.connId);
        if k < |s.g.queue.pending| {
          LeaveInv(s.g.queue, k, Disconnected);
          LeaveTickets(s.g.queue, k, Disconnected);
          MovesKeepDeliveries(s.g.queue, s'.g.queue, s.g.log);
        }
      }
      hide QueueInv, DeliveriesInv;
      forall t: Thread, i: nat | i < |Stack(s', t)| && Stack(s', t)[i].Delivers()
        ensures Carries(s'.g, t, i, Stack(s', t)[i])
      {
        FrameOrigin(s, step, t, i);
        assert Carries(s.g, t, i, Stack(s, t)[i]);
      }
    }
  }

  lemma {:induction false} TicketRun(ss: seq<State>, steps: seq<Step>, i: nat)
    requires Run(ss, steps) && i < |ss|
    ensures TicketInv(ss[i]) && WorkerInv(ss[i])
    ensures i > 0 ==> TicketsMove(ss[i - 1].g.queue, ss[i].g.queue)
  {
    WorkerRun(ss, steps, i);
    if i == 0 {
    } else {
      TicketRun(ss, steps, i - 1);
      assert Next(ss[i - 1], steps[i - 1], ss[i]);
      hide TicketInv, WorkerInv;
      TicketStep(ss[i - 1], steps[i - 1]);
    }
  }

  // ---------------------------------------------------------------- what every run guarantees

  predicate IsWorker(s: State, t: Thread) { Stack(s, t) != [] && Stack(s, t)[0].InWorker() }

  /** Whenever the state lock is free: at most one thread is in the worker loop, and while anything is
      queued there is one, exactly if the worker spawned last did not fail to attach to the VM. */
  lemma NoBindStranded(ss: seq<State>, steps: seq<Step>, i: nat)
    requires Run(ss, steps) && i < |ss|
    ensures forall t, u: Thread | IsWorker(ss[i], t) && IsWorker(ss[i], u) :: t == u
    ensures ss[i].g.workers.running <==> exists t: Thread :: IsWorker(ss[i], t)
    ensures ss[i].g.queue.pending != [] ==> (ss[i].g.workers.running <==> !ss[i].g.workers.attachFailed)
  {
    WorkerRun(ss, steps, i);
    var w := ss[i].g.workers.thread;
    if w.Some? {
      assert Stack(ss[i], w.value)[0].InWorker();
      assert IsWorker(ss[i], w.value);
    }
  }

  /** Transitive closure of FateMoves. */
  predicate FateReaches(a: Fate, b: Fate) { FateMoves(a, b) || a.Queued? }

  /** A queued bind leaves the queue exactly once: it is in the queue just while its fate is open, and
      once decided its fate only ever goes from claimed to settled. */
  lemma {:induction false} BindLeavesOnce(ss: seq<State>, steps: seq<Step>, i: nat, j: nat, k: nat)
    requires Run(ss, steps) && i <= j < |ss| && k < |ss[i].g.queue.tickets|
    ensures k < |ss[j].g.queue.tickets|
    ensures FateReaches(ss[i].g.queue.tickets[k].fate, ss[j].g.queue.tickets[k].fate)
    ensures ss[j].g.queue.tickets[k].fate.Queued? <==> InQueue(ss[j].g.queue.pending, k)
    decreases j
  {
    TicketRun(ss, steps, j);
    assert QueueInv(ss[j].g.queue);
    if i == j {
    } else {
      BindLeavesOnce(ss, steps, i, j - 1, k);
    }
  }

  /** Which step takes a bind out of the queue, by what became of it. */
  ghost predicate TakenBy(s: State, step: Step, ticket: Ticket, fate: Fate) {
    match fate
    case Disconnected => step.CallDisconnect? && step.connId == ticket.connId
    case RolledBack =>
      step.Exec? && Stack(s, step.t) != [] && Top(s, step.t) == BindEnqueue(ticket.cls, ticket.connId) &&
      !s.g.workers.running && !step.choice.ok
    case _ =>
      step.Exec? && s.g.workers.thread == Some(step.t) && Stack(s, step.t) != [] && Top(s, step.t).WorkerClaim?
  }

  lemma DeliverTakesNone(g: Globals, t: Thread, i: nat, f: Frame, choice: Choice, k: nat)
    requires f.Delivers() && Carries(g, t, i, f) && k < |g.queue.tickets| && g.queue.tickets[k].fate.Queued?
    ensures RunDeliver(g, t, f, choice).g.queue.tickets[k] == g.queue.tickets[k]
  {}

  lemma BindTakes(g: Globals, f: Frame, choice: Choice, k: nat)
    requires !f.Delivers() && !f.InWorker() && QueueInv(g.queue)
    requires k < |g.queue.tickets| && g.queue.tickets[k].fate.Queued?
    ensures var g' := RunBind(g, f, choice).g;
            && k < |g'.queue.tickets|
            && (g'.queue.tickets[k].fate.Queued?
                || (&& g'.queue.tickets[k].fate.RolledBack? && !g.workers.running && !choice.ok
                    && f == BindEnqueue(g.queue.tickets[k].cls, g.queue.tickets[k].connId)))
  {
    if f.BindEnqueue? {
      EnqueuedInv(g.queue, f.cls, f.connId);
      var q := Enqueued(g.queue, f.cls, f.connId);
      var i := IndexOf(q.pending, f.connId, f.cls);
      if i < |q.pending| { LeaveTickets(q, i, RolledBack); }
      hide Leave, Enqueued;
    }
  }

  lemma LoopTakes(g: Globals, f: Frame, choice: Choice, k: nat)
    requires f.InWorker() && QueueInv(g.queue) && k < |g.queue.tickets| && g.queue.tickets[k].fate.Queued?
    ensures var g' := RunWorker(g, f, choice).g;
            && k < |g'.queue.tickets|
            && (g'.queue.tickets[k].fate.Queued?
                || (f.WorkerClaim? && (g'.queue.tickets[k].fate.Claimed? || g'.queue.tickets[k].fate.TimedOut?)))
  {}

  lemma LeavesBy(s: State, step: Step, k: nat)
    requires WorkerInv(s) && TicketInv(s) && Enabled(s, step) && k < |s.g.queue.tickets|
    requires s.g.queue.tickets[k].fate.Queued? && k < |Apply(s, step).g.queue.tickets|
    requires !Apply(s, step).g.queue.tickets[k].fate.Queued?
    ensures TakenBy(s, step, s.g.queue.tickets[k], Apply(s, step).g.queue.tickets[k].fate)
  {
    if step.Exec? {
      var f, i := Top(s, step.t), |Stack(s, step.t)| - 1;
      assert f == Stack(s, step.t)[i];
      if f.Delivers() {
        DeliverTakesNone(s.g, step.t, i, f, step.choice, k);
      } else if f.InWorker() {
        LoopTakes(s.g, f, step.choice, k);
      } else {
        BindTakes(s.g, f, step.choice, k);
      }
      hide RunDeliver, RunBind, RunWorker;
    } else if step.CallDisconnect? {
      var i := IndexOfConn(s.g.queue.pending, step.connId);
      if i < |s.g.queue.pending| { LeaveTickets(s.g.queue, i, Disconnected); }
    }
  }

  /** In every run, a bind leaves the queue by a disconnect of its own connection, by the rollback of a
      failed worker spawn for its class and connection (a repeated bind takes back an entry that was
      stranded), or by a claim of the one worker. */
  lemma QueueExits(ss: seq<State>, steps: seq<Step>, i: nat, k: nat)
    requires Run(ss, steps) && i < |steps| && k < |ss[i].g.queue.tickets|
    ensures k < |ss[i + 1].g.queue.tickets|
    ensures ss[i].g.queue.tickets[k].fate.Queued? && !ss[i + 1].g.queue.tickets[k].fate.Queued? ==>
              TakenBy(ss[i], steps[i], ss[i].g.queue.tickets[k], ss[i + 1].g.queue.tickets[k].fate)
  {
    TicketRun(ss, steps, i);
    TicketRun(ss, steps, i + 1);
    assert Next(ss[i], steps[i], ss[i + 1]);
    hide Apply, TicketInv, WorkerInv;
    if ss[i].g.queue.tickets[k].fate.Queued? && !ss[i + 1].g.queue.tickets[k].fate.Queued? {
      LeavesBy(ss[i], steps[i], k);
    }
  }

  /** The worker delivers only what it claimed, to the connection that asked, and once: every delivery
      out of the queue is of a bind whose fate is `Delivered`. So a bind that a disconnect, a rollback
      or a timeout took out of the queue is never delivered from it. */
  lemma DeliversOnlyClaims(ss: seq<State>, steps: seq<Step>, i: nat)
    requires Run(ss, steps) && i < |ss|
    ensures DeliveriesInv(ss[i].g.queue, ss[i].g.log)
    ensures forall k | 0 <= k < |ss[i].g.queue.tickets| && !ss[i].g.queue.tickets[k].fate.Delivered? ::
              forall d | 0 <= d < |ss[i].g.log.deliveries| :: ss[i].g.log.deliveries[d].src != FromQueue(k)
  {
    TicketRun(ss, steps, i);
  }

  // ---------------------------------------------------------------- nothing claimed after a disconnect

  ghost predicate NoneQueued(q: Queue, n: int) {
    forall p | p in q.pending :: p.connId != n
  }

  /** A disconnect removes one entry only: it clears the connection from the queue exactly when at
      most one bind was queued for it. */
  lemma DisconnectClears(q: Queue, n: int)
    ensures NoneQueued(LeaveIfPresent(q, IndexOfConn(q.pending, n), Disconnected), n) <==>
            forall i, j | 0 <= i < |q.pending| && 0 <= j < |q.pending| &&
                          q.pending[i].connId == n && q.pending[j].connId == n :: i == j
  {
    var i := IndexOfConn(q.pending, n);
    var q' := LeaveIfPresent(q, i, Disconnected);
    if i < |q.pending| {
      assert forall a | 0 <= a < |q'.pending| :: q'.pending[a] == q.pending[if a < i then a else a + 1];
      assert q.pending[i].connId == n;
      if j :| i < j < |q.pending| && q.pending[j].connId == n {
        assert q'.pending[j - 1].connId == n;
      }
    }
  }

  /** Each connection id is used for one class only. */
  ghost predicate OneClassPerConn(steps: seq<Step>, classOf: int -> ClassName) {
    forall i | 0 <= i < |steps| && steps[i].CallBind? :: steps[i].cls == classOf(steps[i].connId)
  }

  predicate FrameClassOk(f: Frame, classOf: int -> ClassName) {
    f.BindLookup? || f.BindAdopt? || f.BindCreate? || f.BindEnqueue? ==> f.cls == classOf(f.connId)
  }

  ghost predicate ClassInv(s: State, classOf: int -> ClassName) {
    && (forall t: Thread, i: nat {:trigger Stack(s, t)[i]} | i < |Stack(s, t)| :: FrameClassOk(Stack(s, t)[i], classOf))
    && QueueClassOk(s.g.queue, classOf)
  }

  ghost predicate QueueClassOk(q: Queue, classOf: int -> ClassName) {
    forall p | p in q.pending :: p.cls == classOf(p.connId)
  }

  /** Only the queueing region of a bind adds to the queue, and only its own entry. */
  lemma PendingOrigin(g: Globals, t: Thread, f: Frame, choice: Choice)
    ensures forall p | p in RunFrame(g, t, f, choice).g.queue.pending ::
              p in g.queue.pending || (f.BindEnqueue? && p.cls == f.cls && p.connId == f.connId)
  {
    if f.Delivers() {
      DeliverEffect(g, t, f, choice);
      hide RunDeliver;
    } else if f.InWorker() {
      LoopPending(g, f, choice);
      hide RunWorker;
    } else {
      BindPending(g, f, choice);
      hide RunBind;
    }
  }

  lemma ErasedFrom(q: seq<Pending>, k: nat)
    requires k < |q|
    ensures forall p | p in Erase(q, k) :: p in q
  {}

  lemma LoopPending(g: Globals, f: Frame, choice: Choice)
    requires f.InWorker()
    ensures forall p | p in RunWorker(g, f, choice).g.queue.pending :: p in g.queue.pending
  {
    if f.WorkerClaim? && f.i < |f.batch| {
      var k := IndexOf(g.queue.pending, f.batch[f.i].connId, f.batch[f.i].cls);
      if k < |g.queue.pending| {
        ErasedFrom(g.queue.pending, k);
      }
    }
  }

  lemma BindPending(g: Globals, f: Frame, choice: Choice)
    requires !f.Delivers() && !f.InWorker()
    ensures forall p | p in RunBind(g, f, choice).g.queue.pending ::
              p in g.queue.pending || (f.BindEnqueue? && p.cls == f.cls && p.connId == f.connId)
  {
    BindEffect(g, f, choice);
    if f.BindEnqueue? {
      var q := Enqueued(g.queue, f.cls, f.connId);
      var k := IndexOf(q.pending, f.connId, f.cls);
      if k < |q.pending| {
        ErasedFrom(q.pending, k);
      }
    }
  }

  /** A bind keeps its class and connection from region to region. */
  lemma BindFramesKeep(g: Globals, t: Thread, f: Frame, choice: Choice, classOf: int -> ClassName)
    requires FrameClassOk(f, classOf)
    ensures var o := RunFrame(g, t, f, choice); forall k | 0 <= k < |o.frames| :: FrameClassOk(o.frames[k], classOf)
  {}

  lemma ClassStep(s: State, step: Step, classOf: int -> ClassName)
    requires ClassInv(s, classOf) && Enabled(s, step)
    requires step.CallBind? ==> step.cls == classOf(step.connId)
    ensures ClassInv(Apply(s, step), classOf)
  {
    var s' := Apply(s, step);
    if step.Exec? {
      assert Top(s, step.t) == Stack(s, step.t)[|Stack(s, step.t)| - 1];
      PendingOrigin(s.g, step.t, Top(s, step.t), step.choice);
      BindFramesKeep(s.g, step.t, Top(s, step.t), step.choice, classOf);
      hide RunFrame;
      assert QueueClassOk(s'.g.queue, classOf);
    }
    hide RunFrame, QueueClassOk;
    forall t: Thread, i: nat | i < |Stack(s', t)|
      ensures FrameClassOk(Stack(s', t)[i], classOf)
    {
      FrameOrigin(s, step, t, i);
    }
  }

  lemma {:induction false} ClassRun(ss: seq<State>, steps: seq<Step>, classOf: int -> ClassName, i: nat)
    requires Run(ss, steps) && OneClassPerConn(steps, classOf) && i < |ss|
    ensures ClassInv(ss[i], classOf)
  {
    if i == 0 {
    } else {
      ClassRun(ss, steps, classOf, i - 1);
      assert Next(ss[i - 1], steps[i - 1], ss[i]);
      ClassStep(ss[i - 1], steps[i - 1], classOf);
    }
  }

  /** The step is the queueing region of a bind for this connection. */
  predicate Queues(s: State, step: Step, n: int) {
    step.Exec? && Stack(s, step.t) != [] && Top(s, step.t).BindEnqueue? && Top(s, step.t).connId == n
  }

  lemma NoneQueuedStep(s: State, step: Step, n: int)
    requires Enabled(s, step) && NoneQueued(s.g.queue, n) && !Queues(s, step, n)
    ensures NoneQueued(Apply(s, step).g.queue, n)
  {
    if step.Exec? {
      PendingOrigin(s.g, step.t, Top(s, step.t), step.choice);
      hide RunFrame;
    }
  }

  lemma NoneQueuedAfter(s: State, classOf: int -> ClassName, t: Thread, n: int)
    requires TicketInv(s) && ClassInv(s, classOf) && Enabled(s, CallDisconnect(t, n))
    ensures NoneQueued(Apply(s, CallDisconnect(t, n)).g.queue, n)
  {
    var q := s.g.queue;
    DisconnectClears(q, n);
    forall i, j | 0 <= i < |q.pending| && 0 <= j < |q.pending| && q.pending[i].connId == n && q.pending[j].connId == n
      ensures i == j
    {
      assert q.pending[i] in q.pending && q.pending[j] in q.pending;
      assert i < j ==> Apart(q.pending[i], q.pending[j]);
      assert j < i ==> Apart(q.pending[j], q.pending[i]);
    }
  }

  predicate ClaimedOrDelivered(q: Queue, k: nat) {
    k < |q.tickets| && (q.tickets[k].fate.Claimed? || q.tickets[k].fate.Delivered?)
  }

  lemma DisconnectClaimsNone(s: State, t: Thread, n: int)
    requires TicketInv(s) && Enabled(s, CallDisconnect(t, n))
    ensures forall k | ClaimedOrDelivered(Apply(s, CallDisconnect(t, n)).g.queue, k) :: ClaimedOrDelivered(s.g.queue, k)
  {
    var i := IndexOfConn(s.g.queue.pending, n);
    if i < |s.g.queue.pending| { LeaveTickets(s.g.queue, i, Disconnected); }
  }

  lemma NoNewClaim(q: Queue, q': Queue, n: int)
    requires QueueInv(q) && TicketsMove(q, q') && NoneQueued(q, n)
    ensures forall k | 0 <= k < |q'.tickets| && q'.tickets[k].connId == n ::
              ClaimedOrDelivered(q', k) ==> ClaimedOrDelivered(q, k)
  {
    forall k | 0 <= k < |q'.tickets| && q'.tickets[k].connId == n && ClaimedOrDelivered(q', k)
      ensures ClaimedOrDelivered(q, k)
    {
      assert k < |q.tickets| && q.tickets[k].fate.Queued? ==> InQueue(q.pending, k);
    }
  }

  /** What is claimed or delivered for this connection in `q` was so in `q0`. */
  ghost predicate ClaimedBefore(q0: Queue, q: Queue, n: int) {
    forall k | 0 <= k < |q.tickets| && q.tickets[k].connId == n ::
      ClaimedOrDelivered(q, k) ==> ClaimedOrDelivered(q0, k)
  }

  lemma ClaimedBeforeStep(q0: Queue, q: Queue, q': Queue, n: int)
    requires QueueInv(q) && TicketsMove(q, q') && NoneQueued(q, n) && ClaimedBefore(q0, q, n)
    ensures ClaimedBefore(q0, q', n)
  {
    NoNewClaim(q, q', n);
    KeptConn(q, q', n);
    hide QueueInv, TicketsMove, NoneQueued, ClaimedOrDelivered;
  }

  lemma NothingQueuedNext(s: State, step: Step, s': State, q0: Queue, n: int)
    requires TicketInv(s) && Next(s, step, s') && !Queues(s, step, n) && TicketsMove(s.g.queue, s'.g.queue)
    requires NoneQueued(s.g.queue, n) && ClaimedBefore(q0, s.g.queue, n)
    ensures NoneQueued(s'.g.queue, n) && ClaimedBefore(q0, s'.g.queue, n)
  {
    hide Apply, QueueInv, TicketFrames, DeliveriesInv, WorkerInv, TicketsMove, ClaimedBefore, NoneQueued, Enabled;
    NoneQueuedStep(s, step, n);
    ClaimedBeforeStep(q0, s.g.queue, s'.g.queue, n);
  }

  lemma ClearedNext(s: State, step: Step, s': State, classOf: int -> ClassName)
    requires TicketInv(s) && ClassInv(s, classOf) && Next(s, step, s') && step.CallDisconnect?
    ensures NoneQueued(s'.g.queue, step.connId) && ClaimedBefore(s.g.queue, s'.g.queue, step.connId)
  {
    hide Apply, QueueInv, TicketFrames, DeliveriesInv, WorkerInv, ClaimedOrDelivered, ClassInv, NoneQueued;
    NoneQueuedAfter(s, classOf, step.t, step.connId);
    DisconnectClaimsNone(s, step.t, step.connId);
  }

  /** From a disconnect until a bind of the connection is queued again, nothing is claimed for it, and
      nothing is delivered to it from the queue but what was claimed before the disconnect: a bind that the
      disconnect took out of the queue is never delivered. */
  lemma NoClaimAfterDisconnect(
      ss: seq<State>, steps: seq<Step>, classOf: int -> ClassName, i: nat, j: nat, n: int)
    requires Run(ss, steps) && OneClassPerConn(steps, classOf) && i < j < |ss|
    requires steps[i].CallDisconnect? && steps[i].connId == n
    requires forall m | i < m < j :: !Queues(ss[m], steps[m], n)
    ensures NoneQueued(ss[j].g.queue, n) && ClaimedBefore(ss[i].g.queue, ss[j].g.queue, n)
    ensures DeliveredFrom(ss[j].g.log, ss[i].g.queue, n)
  {
    assert DeliveriesInv(ss[j].g.queue, ss[j].g.log) by { TicketRun(ss, steps, j); }
    ClaimedAfterDisconnect(ss, steps, classOf, i, j, n);
    hide Run, NoneQueued;
    DeliveredBefore(ss[i].g.queue, ss[j].g.queue, ss[j].g.log, n);
  }

  /** Every delivery to this connection out of the queue is of a bind claimed, or delivered, in `q`. */
  ghost predicate DeliveredFrom(log: Log, q: Queue, n: int) {
    forall d | 0 <= d < |log.deliveries| && log.deliveries[d].connId == n && log.deliveries[d].src.FromQueue? ::
      ClaimedOrDelivered(q, log.deliveries[d].src.ticket)
  }

  lemma DeliveredBefore(q0: Queue, q: Queue, log: Log, n: int)
    requires DeliveriesInv(q, log) && ClaimedBefore(q0, q, n)
    ensures DeliveredFrom(log, q0, n)
  {}

  lemma {:induction false} ClaimedAfterDisconnect(
      ss: seq<State>, steps: seq<Step>, classOf: int -> ClassName, i: nat, j: nat, n: int)
    requires Run(ss, steps) && OneClassPerConn(steps, classOf) && i < j < |ss|
    requires steps[i].CallDisconnect? && steps[i].connId == n
    requires forall m | i < m < j :: !Queues(ss[m], steps[m], n)
    ensures NoneQueued(ss[j].g.queue, n) && ClaimedBefore(ss[i].g.queue, ss[j].g.queue, n)
    decreases j
  {
    hide Next, TicketInv, ClassInv, TicketsMove, NoneQueued, ClaimedBefore, OneClassPerConn;
    TicketRun(ss, steps, j - 1);
    TicketRun(ss, steps, j);
    assert Next(ss[j - 1], steps[j - 1], ss[j]);
    if j == i + 1 {
      ClassRun(ss, steps, classOf, i);
      ClearedNext(ss[i], steps[i], ss[j], classOf);
    } else {
      ClaimedAfterDisconnect(ss, steps, classOf, i, j - 1, n);
      assert !Queues(ss[j - 1], steps[j - 1], n);
      NothingQueuedNext(ss[j - 1], steps[j - 1], ss[j], ss[i].g.queue, n);
    }
  }

  lemma KeptConn(q: Queue, q': Queue, n: int)
    requires TicketsMove(q, q')
    ensures forall k | 0 <= k < |q'.tickets| && q'.tickets[k].connId == n && ClaimedOrDelivered(q, k) ::
              k < |q.tickets| && q.tickets[k].connId == n
  {}

  // ---------------------------------------------------------------- one region by itself

  /** Running the top frame when it neither waits nor spawns. */
  lemma RunsTop(s: State, t: Thread, f: Frame, choice: Choice)
    requires Stack(s, t) != [] && Top(s, t) == f && !f.AwaitBindLock? && !f.BindEnqueue?
    requires Stack(s, choice.newThread) == []
    ensures Enabled(s, Exec(t, choice))
    ensures var o := RunFrame(s.g, t, f, choice); var s' := Apply(s, Exec(t, choice));
            s'.g == o.g && Stack(s', t) == Stack(s, t)[..|Stack(s, t)| - 1] + o.frames &&
            forall u: Thread | u != t :: Stack(s', u) == Stack(s, u)
  {
    FrameEffect(s.g, t, f, choice);
  }
}
