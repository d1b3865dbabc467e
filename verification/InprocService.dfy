/** In-process Android services: threads bind, start and disconnect, and a delivery worker hands out
    binders once a service has been created. One step is one region under the state lock, one
    acquisition of the bind lock, or one application callback. */
module InprocService {

  datatype Option<+T> = None | Some(value: T)

  /** Class names, binders, tokens and instances are only ever compared for equality. */
  type ClassName = nat
  type Object = nat
  type Thread = nat

  /** g_svc's record. */
  datatype Rec = Rec(token: Option<Object>, instance: Option<Object>, binder: Option<Object>, bindCalled: bool)

  const NO_RECORD := Rec(None, None, None, false)

  /** A queued bind. `ticket` is history: the position of this bind among all binds ever queued. */
  datatype Pending = Pending(cls: ClassName, connId: int, ticket: nat)

  /** An instance the framework's service table holds, with the key it is held under. */
  datatype Service = Service(token: Option<Object>, instance: Object)

  /** What became of a queued bind. */
  datatype Fate = Queued | Disconnected | RolledBack | TimedOut | Claimed | Delivered | Dropped

  /** History of one queued bind: what it asked for and what became of it. */
  datatype Ticket = Ticket(cls: ClassName, connId: int, fate: Fate)

  datatype Source = Direct | FromQueue(ticket: nat)

  datatype Delivery = Delivery(cls: ClassName, connId: int, src: Source, binder: Option<Object>)

  /** Where a thread stands in deliverConnected, inproc_bindService2, inproc_startService or
      pendingWorker. */
  datatype Frame =
    | Snapshot(cls: ClassName, connId: int, src: Source)
    | AwaitBindLock(cls: ClassName, connId: int, src: Source)
    | Recheck(cls: ClassName, connId: int, src: Source)
    | InOnBind(cls: ClassName, connId: int, src: Source)
    | StoreBinder(cls: ClassName, connId: int, src: Source, result: Option<Object>)
    | ReadBinder(cls: ClassName, connId: int, src: Source)
    | HandOver(cls: ClassName, connId: int, src: Source, binder: Option<Object>)
    | BindLookup(cls: ClassName, connId: int)
    | BindAdopt(cls: ClassName, connId: int)
    | BindCreate(cls: ClassName, connId: int)
    | BindEnqueue(cls: ClassName, connId: int)
    | StartCreate(cls: ClassName)
    | WorkerBoot
    | WorkerLoop
    | WorkerScan(batch: seq<Pending>, i: nat)
    | WorkerAdopt(batch: seq<Pending>, i: nat)
    | WorkerClaim(batch: seq<Pending>, i: nat, have: bool)
  {
    predicate InWorker() { WorkerBoot? || WorkerLoop? || WorkerScan? || WorkerAdopt? || WorkerClaim? }

    predicate Delivers() {
      Snapshot? || AwaitBindLock? || Recheck? || InOnBind? || StoreBinder? || ReadBinder? || HandOver?
    }

    /** The frames that hold the bind lock. */
    predicate HoldsBindLock() { Recheck? || InOnBind? || StoreBinder? || ReadBinder? }

    /** onBind of the class has begun and its result is not yet recorded. */
    predicate Binding() { InOnBind? || StoreBinder? }
  }

  /** g_pending, with the history of all binds ever queued. */
  datatype Queue = Queue(pending: seq<Pending>, tickets: seq<Ticket>)

  /** g_workerRunning, with the thread that runs pendingWorker; `attachFailed`: the worker spawned last
      could not attach to the VM. */
  datatype Workers = Workers(running: bool, thread: Option<Thread>, attachFailed: bool)

  /** g_bindOpMu, a recursive mutex. */
  datatype BindLock = BindLock(owner: Option<Thread>, depth: nat) {
    function Acquired(t: Thread): BindLock { BindLock(Some(t), depth + 1) }

    function Released(): BindLock { if depth <= 1 then BindLock(None, 0) else this.(depth := depth - 1) }
  }

  /** History: how often onBind ran and a create was scheduled, per class, and what was delivered. */
  datatype Log = Log(bindRuns: map<ClassName, nat>, creates: map<ClassName, nat>, deliveries: seq<Delivery>) {
    function BindRuns(c: ClassName): nat { if c in bindRuns then bindRuns[c] else 0 }

    function Creates(c: ClassName): nat { if c in creates then creates[c] else 0 }

    function BindRan(c: ClassName): Log { this.(bindRuns := bindRuns[c := BindRuns(c) + 1]) }

    function CreateScheduled(c: ClassName): Log { this.(creates := creates[c := Creates(c) + 1]) }

    function Handed(d: Delivery): Log { this.(deliveries := deliveries + [d]) }
  }

  /** g_svc and g_inappConnIds beside the records above; `services` is the framework's own table. */
  datatype Globals = Globals(svc: map<ClassName, Rec>, connIds: set<int>, queue: Queue, workers: Workers,
                             lock: BindLock, services: map<ClassName, Service>, log: Log)
  {
    function RecOf(c: ClassName): Rec { if c in svc then svc[c] else NO_RECORD }

    function WithRec(c: ClassName, r: Rec): Globals { this.(svc := svc[c := r]) }
  }

  datatype State = State(g: Globals, threads: map<Thread, seq<Frame>>)

  /** What the environment decides during a step. */
  datatype Choice = Choice(ok: bool, late: bool, binder: Option<Object>, newToken: Object, newThread: Thread)

  datatype Step =
    | CallBind(t: Thread, cls: ClassName, connId: int)
    | CallStart(t: Thread, cls: ClassName)
    | CallDisconnect(t: Thread, connId: int)
    | Exec(t: Thread, choice: Choice)
    | ServiceAppears(cls: ClassName, service: Service)

  // ---------------------------------------------------------------- the queue

  /** Index of the first entry for this connection and class, or the length if there is none. */
  function IndexOf(q: seq<Pending>, connId: int, c: ClassName): (i: nat)
    ensures i <= |q|
    ensures i < |q| ==> q[i].connId == connId && q[i].cls == c
    ensures forall k | 0 <= k < i :: !(q[k].connId == connId && q[k].cls == c)
  {
    if q == [] || (q[0].connId == connId && q[0].cls == c) then 0
    else
      var i := IndexOf(q[1..], connId, c);
      assert forall k | 0 < k < i + 1 :: q[k] == q[1..][k - 1];
      i + 1
  }

  /** Index of the first entry for this connection, whatever its class. */
  function IndexOfConn(q: seq<Pending>, connId: int): (i: nat)
    ensures i <= |q|
    ensures i < |q| ==> q[i].connId == connId
    ensures forall k | 0 <= k < i :: q[k].connId != connId
  {
    if q == [] || q[0].connId == connId then 0
    else
      var i := IndexOfConn(q[1..], connId);
      assert forall k | 0 < k < i + 1 :: q[k] == q[1..][k - 1];
      i + 1
  }

  function Erase(q: seq<Pending>, i: nat): seq<Pending>
    requires i < |q|
  {
    q[..i] + q[i + 1..]
  }

  /** Take the entry at `i` out of the queue; its bind meets `fate`. */
  function Leave(q: Queue, i: nat, fate: Fate): Queue
    requires i < |q.pending|
  {
    SetFate(q.(pending := Erase(q.pending, i)), q.pending[i].ticket, fate)
  }

  function SetFate(q: Queue, ticket: nat, fate: Fate): Queue {
    if ticket < |q.tickets| then q.(tickets := q.tickets[ticket := q.tickets[ticket].(fate := fate)]) else q
  }

  function LeaveIfPresent(q: Queue, i: nat, fate: Fate): Queue {
    if i < |q.pending| then Leave(q, i, fate) else q
  }

  function Enqueued(q: Queue, c: ClassName, connId: int): Queue {
    if IndexOf(q.pending, connId, c) < |q.pending| then q
    else Queue(q.pending + [Pending(c, connId, |q.tickets|)], q.tickets + [Ticket(c, connId, Queued)])
  }

  /** The end of a delivery: a bind that came from the queue meets its fate. */
  function Finish(q: Queue, src: Source, fate: Fate): Queue {
    if src.FromQueue? then SetFate(q, src.ticket, fate) else q
  }

  // ---------------------------------------------------------------- service records

  /** adoptExistingService found the class in the framework's table: fill in what is missing. */
  function Adopted(g: Globals, c: ClassName): Globals
    requires c in g.services
  {
    var r := g.RecOf(c);
    g.WithRec(c, r.(instance := if r.instance.None? then Some(g.services[c].instance) else r.instance,
                    token := if r.token.None? then g.services[c].token else r.token))
  }

  /** ensureCreated: the record's token, else the running service's, else a newly scheduled create
      (which the framework may refuse). */
  function EnsureCreated(g: Globals, c: ClassName, choice: Choice): (Globals, bool) {
    if g.RecOf(c).token.Some? then (g, true)
    else if c in g.services then (Adopted(g, c), Adopted(g, c).RecOf(c).token.Some?)
    else if choice.ok then
      (g.WithRec(c, g.RecOf(c).(token := Some(choice.newToken))).(log := g.log.CreateScheduled(c)), true)
    else (g, false)
  }

  // ---------------------------------------------------------------- one region of one thread

  /** The frames that replace the top frame, and whether a worker thread was spawned. */
  datatype Outcome = Outcome(g: Globals, frames: seq<Frame>, spawned: bool)

  function Then(g: Globals, frames: seq<Frame>): Outcome { Outcome(g, frames, false) }

  function RunDeliver(g: Globals, t: Thread, f: Frame, choice: Choice): Outcome
    requires f.Delivers()
  {
    match f
    case Snapshot(c, n, src) =>
      var r := g.RecOf(c);
      if r.instance.None? then Then(g.(queue := Finish(g.queue, src, Dropped)), [])
      else if !r.bindCalled then Then(g, [AwaitBindLock(c, n, src)])
      else Then(g, [HandOver(c, n, src, r.binder)])
    case AwaitBindLock(c, n, src) => Then(g.(lock := g.lock.Acquired(t)), [Recheck(c, n, src)])
    case Recheck(c, n, src) =>
      var r := g.RecOf(c);
      if r.instance.None? then Then(g.(queue := Finish(g.queue, src, Dropped), lock := g.lock.Released()), [])
      else if !r.bindCalled then Then(g.(log := g.log.BindRan(c)), [InOnBind(c, n, src)])
      else Then(g, [ReadBinder(c, n, src)])
    case InOnBind(c, n, src) => Then(g, [StoreBinder(c, n, src, choice.binder)])
    case StoreBinder(c, n, src, b) =>
      Then(g.WithRec(c, g.RecOf(c).(bindCalled := true, binder := b)), [ReadBinder(c, n, src)])
    case ReadBinder(c, n, src) =>
      Then(g.(lock := g.lock.Released()), [HandOver(c, n, src, g.RecOf(c).binder)])
    case HandOver(c, n, src, b) =>
      if choice.ok
      then Then(g.(queue := Finish(g.queue, src, Delivered), log := g.log.Handed(Delivery(c, n, src, b))), [])
      else Then(g.(queue := Finish(g.queue, src, Dropped)), [])
  }

  function RunBind(g: Globals, f: Frame, choice: Choice): Outcome
    requires !f.Delivers() && !f.InWorker()
  {
    match f
    case BindLookup(c, n) =>
      Then(g, [if g.RecOf(c).instance.Some? then Snapshot(c, n, Direct) else BindAdopt(c, n)])
    case BindAdopt(c, n) =>
      if c in g.services then Then(Adopted(g, c), [Snapshot(c, n, Direct)]) else Then(g, [BindCreate(c, n)])
    case BindCreate(c, n) =>
      var (g', ok) := EnsureCreated(g, c, choice);
      Then(g', if ok then [BindEnqueue(c, n)] else [])
    case BindEnqueue(c, n) =>
      var q := Enqueued(g.queue, c, n);
      if g.workers.running then Then(g.(queue := q), [])
      else if choice.ok then
        Outcome(g.(queue := q, workers := Workers(true, Some(choice.newThread), false)), [], true)
      else Then(g.(queue := LeaveIfPresent(q, IndexOf(q.pending, n, c), RolledBack)), [])
    case StartCreate(c) => Then(EnsureCreated(g, c, choice).0, [])
  }

  function RunWorker(g: Globals, f: Frame, choice: Choice): Outcome
    requires f.InWorker()
  {
    match f
    case WorkerBoot =>
      if choice.ok then Then(g, [WorkerLoop])
      else Then(g.(workers := Workers(false, None, true)), [])
    case WorkerLoop =>
      if g.queue.pending == [] then Then(g.(workers := g.workers.(running := false, thread := None)), [])
      else Then(g, [WorkerScan(g.queue.pending, 0)])
    case WorkerScan(batch, i) =>
      if i >= |batch| then Then(g, [WorkerLoop])
      else if g.RecOf(batch[i].cls).instance.Some? then Then(g, [WorkerClaim(batch, i, true)])
      else Then(g, [WorkerAdopt(batch, i)])
    case WorkerAdopt(batch, i) =>
      if i >= |batch| then Then(g, [WorkerLoop])
      else if batch[i].cls in g.services then Then(Adopted(g, batch[i].cls), [WorkerClaim(batch, i, true)])
      else if choice.late then Then(g, [WorkerClaim(batch, i, false)])
      else Then(g, [WorkerScan(batch, i + 1)])
    case WorkerClaim(batch, i, have) =>
      if i >= |batch| then Then(g, [WorkerLoop])
      else
        var k := IndexOf(g.queue.pending, batch[i].connId, batch[i].cls);
        if k >= |g.queue.pending| then Then(g, [WorkerScan(batch, i + 1)])
        else if have then
          Then(g.(queue := Leave(g.queue, k, Claimed)),
               [WorkerScan(batch, i + 1),
                Snapshot(batch[i].cls, batch[i].connId, FromQueue(g.queue.pending[k].ticket))])
        else Then(g.(queue := Leave(g.queue, k, TimedOut)), [WorkerScan(batch, i + 1)])
  }

  function RunFrame(g: Globals, t: Thread, f: Frame, choice: Choice): Outcome {
    if f.Delivers() then RunDeliver(g, t, f, choice)
    else if f.InWorker() then RunWorker(g, f, choice)
    else RunBind(g, f, choice)
  }

  // ---------------------------------------------------------------- the transition system

  function Stack(s: State, t: Thread): seq<Frame> { if t in s.threads then s.threads[t] else [] }

  function Top(s: State, t: Thread): Frame
    requires Stack(s, t) != []
  {
    Stack(s, t)[|Stack(s, t)| - 1]
  }

  /** Application code runs on a thread that is in none of these functions, or inside onBind. */
  predicate InAppCode(s: State, t: Thread) { Stack(s, t) == [] || Top(s, t).InOnBind? }

  predicate Enabled(s: State, step: Step) {
    match step
    case CallBind(t, _, _) => InAppCode(s, t)
    case CallStart(t, _) => InAppCode(s, t)
    case CallDisconnect(t, _) => InAppCode(s, t)
    case Exec(t, choice) =>
      && Stack(s, t) != []
      && Stack(s, choice.newThread) == []
      && (Top(s, t).AwaitBindLock? ==> s.g.lock.owner.None? || s.g.lock.owner == Some(t))
    case ServiceAppears(c, _) => c !in s.g.services
  }

  function Push(s: State, t: Thread, f: Frame): State { s.(threads := s.threads[t := Stack(s, t) + [f]]) }

  /** The stack of every thread after the top frame of `t` has run. */
  function Stacks(s: State, t: Thread, o: Outcome, newThread: Thread): map<Thread, seq<Frame>>
    requires Stack(s, t) != []
  {
    var below := Stack(s, t)[..|Stack(s, t)| - 1];
    var moved := s.threads[t := below + o.frames];
    if o.spawned then moved[newThread := [WorkerBoot]] else moved
  }

  function Apply(s: State, step: Step): State
    requires Enabled(s, step)
  {
    match step
    case CallBind(t, c, n) => Push(s.(g := s.g.(connIds := s.g.connIds + {n})), t, BindLookup(c, n))
    case CallStart(t, c) => Push(s, t, StartCreate(c))
    case CallDisconnect(t, n) =>
      s.(g := s.g.(queue := LeaveIfPresent(s.g.queue, IndexOfConn(s.g.queue.pending, n), Disconnected),
                   connIds := s.g.connIds - {n}))
    case Exec(t, choice) =>
      var o := RunFrame(s.g, t, Top(s, t), choice);
      State(o.g, Stacks(s, t, o, choice.newThread))
    case ServiceAppears(c, service) => s.(g := s.g.(services := s.g.services[c := service]))
  }

  ghost predicate Next(s: State, step: Step, s': State) { Enabled(s, step) && s' == Apply(s, step) }

  const START := State(Globals(map[], {}, Queue([], []), Workers(false, None, false), BindLock(None, 0),
                               map[], Log(map[], map[], [])), map[])

  ghost predicate Run(ss: seq<State>, steps: seq<Step>) {
    && |ss| == |steps| + 1 && ss[0] == START
    && forall i {:trigger steps[i]} | 0 <= i < |steps| :: Next(ss[i], steps[i], ss[i + 1])
  }

  // ---------------------------------------------------------------- frames before and after a step

  /** A frame that was there before the step, at the same place. */
  predicate Kept(s: State, t: Thread, i: nat, f: Frame) { i < |Stack(s, t)| && Stack(s, t)[i] == f }

  /** Where the frames of the next state come from. */
  lemma FrameOrigin(s: State, step: Step, t: Thread, i: nat)
    requires Enabled(s, step) && i < |Stack(Apply(s, step), t)|
    ensures var f := Stack(Apply(s, step), t)[i];
            match step
            case CallBind(u, c, n) => Kept(s, t, i, f) || (t == u && i == |Stack(s, u)| && f == BindLookup(c, n))
            case CallStart(u, c) => Kept(s, t, i, f) || (t == u && i == |Stack(s, u)| && f == StartCreate(c))
            case CallDisconnect(_, _) => Kept(s, t, i, f)
            case ServiceAppears(_, _) => Kept(s, t, i, f)
            case Exec(u, choice) =>
              var o := RunFrame(s.g, u, Top(s, u), choice);
              var base := |Stack(s, u)| - 1;
              || (Kept(s, t, i, f) && (t == u ==> i < base))
              || (t == u && base <= i < base + |o.frames| && f == o.frames[i - base])
              || (o.spawned && t == choice.newThread && i == 0 && f == WorkerBoot)
  {}
}
