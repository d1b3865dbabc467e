/** The lock operations of the in-process service entry points, what they guard, and why the two recursive
    mutexes cannot deadlock each other: the bind lock is never acquired while the state lock is held. */
module InprocLocks {

  datatype Mutex = StateLock | BindLock

  /** Besides the locks: access to the shared tables, the call of onBind, and that of the client. */
  datatype Op = Acquire(m: Mutex) | Release(m: Mutex) | Access | OnBind | HandOver

  /** One call of an entry point with the branches it takes. onBind may call the entry points again
      on its own thread, any number of times. */
  datatype Call =
    | Disconnect
    | Start(found: bool)                                // inproc_startService
    | Deliver(needBind: bool, gone: bool, doBind: bool, fromOnBind: Calls)
    | Bind(found: bool, deliver: bool, delivery: Call, foundLate: bool, created: bool)
    | WorkerPass(entries: Calls)                        // one round of pendingWorker
    | WorkerEntry(found: bool, ready: bool, claimed: bool, delivery: Call)

  datatype Calls = Nil | Cons(head: Call, tail: Calls)

  const REGION := [Acquire(StateLock), Access, Release(StateLock)]

  function If(b: bool, ops: seq<Op>): seq<Op> { if b then ops else [] }

  /** ensureCreated holds the state lock throughout and adopts under it. */
  function EnsureCreatedOps(found: bool): seq<Op> {
    [Acquire(StateLock)] + ([Access] + If(found, REGION)) + [Release(StateLock)]
  }

  /** deliverConnected under the bind lock; `inner` is what onBind does on this thread. */
  function FirstBindOps(gone: bool, doBind: bool, inner: seq<Op>): seq<Op> {
    [Acquire(BindLock)] + (REGION + If(!gone, If(doBind, [OnBind] + inner + REGION) + REGION)) + [Release(BindLock)]
  }

  function Ops(c: Call): seq<Op>
    decreases c
  {
    match c
    case Disconnect => REGION
    case Start(found) => EnsureCreatedOps(found)
    case Deliver(needBind, gone, doBind, fromOnBind) =>
      REGION + If(needBind, FirstBindOps(gone, doBind, AllOps(fromOnBind))) + If(!gone, [HandOver])
    case Bind(found, deliver, delivery, foundLate, created) =>
      REGION + REGION + If(found, REGION) +
      if deliver then Ops(delivery) else EnsureCreatedOps(foundLate) + If(created, REGION)
    case WorkerPass(entries) => REGION + AllOps(entries)
    case WorkerEntry(found, ready, claimed, delivery) =>
      REGION + If(found, REGION) + If(ready, REGION + if claimed then Ops(delivery) else [])
  }

  function AllOps(cs: Calls): seq<Op>
    decreases cs
  {
    match cs
    case Nil => []
    case Cons(c, rest) => Ops(c) + AllOps(rest)
  }

  /** How often a thread holds each lock. */
  datatype Holding = Holding(state: nat, bind: nat)

  /** The bind lock is taken without the state lock. The tables are touched with the state lock; onBind runs
      with the bind lock; and no application code runs with the state lock held. */
  predicate Allowed(h: Holding, op: Op) {
    match op
    case Access => h.state > 0
    case OnBind => h.state == 0 && h.bind > 0
    case HandOver => h.state == 0
    case Acquire(StateLock) => true
    case Acquire(BindLock) => h.state == 0
    case Release(StateLock) => h.state > 0
    case Release(BindLock) => h.bind > 0
  }

  function After(h: Holding, op: Op): Holding
    requires Allowed(h, op)
  {
    match op
    case Acquire(StateLock) => h.(state := h.state + 1)
    case Acquire(BindLock) => h.(bind := h.bind + 1)
    case Release(StateLock) => h.(state := h.state - 1)
    case Release(BindLock) => h.(bind := h.bind - 1)
    case _ => h
  }

  /** Every operation is allowed in turn, and the last leaves the thread holding `end`. */
  predicate Disciplined(ops: seq<Op>, h: Holding, end: Holding) {
    if ops == [] then h == end else Allowed(h, ops[0]) && Disciplined(ops[1..], After(h, ops[0]), end)
  }

  lemma {:induction false} Compose(a: seq<Op>, b: seq<Op>, h: Holding, mid: Holding, end: Holding)
    requires Disciplined(a, h, mid) && Disciplined(b, mid, end)
    ensures Disciplined(a + b, h, end)
  {
    if a == [] {
      assert a + b == b;
    } else {
      Compose(a[1..], b, After(h, a[0]), mid, end);
      assert (a + b)[1..] == a[1..] + b;
    }
  }

  lemma RegionDisciplined(h: Holding)
    ensures Disciplined(REGION, h, h)
  {
    var inner := h.(state := h.state + 1);
    OneOp(Acquire(StateLock), h);
    OneOp(Access, inner);
    OneOp(Release(StateLock), inner);
    hide Disciplined;
    Compose([Acquire(StateLock)], [Access], h, inner, inner);
    Compose([Acquire(StateLock)] + [Access], [Release(StateLock)], h, inner, h);
    assert REGION == [Acquire(StateLock)] + [Access] + [Release(StateLock)];
  }

  lemma OneOp(op: Op, h: Holding)
    requires Allowed(h, op)
    ensures Disciplined([op], h, After(h, op))
  {}

  lemma EnsureCreatedDisciplined(found: bool, h: Holding)
    ensures Disciplined(EnsureCreatedOps(found), h, h)
  {
    hide Disciplined;
    var inner := After(h, Acquire(StateLock));
    OneOp(Acquire(StateLock), h);
    OneOp(Access, inner);
    RegionDisciplined(inner);
    NothingToDo(inner);
    Both([Access], If(found, REGION), inner);
    var body := [Access] + If(found, REGION);
    Compose([Acquire(StateLock)], body, h, inner, inner);
    OneOp(Release(StateLock), inner);
    Compose([Acquire(StateLock)] + body, [Release(StateLock)], h, inner, h);
  }

  /** Two disciplined parts that give back what they took. */
  lemma Both(a: seq<Op>, b: seq<Op>, h: Holding)
    requires Disciplined(a, h, h) && Disciplined(b, h, h)
    ensures Disciplined(a + b, h, h)
  {
    Compose(a, b, h, h, h);
  }

  lemma Guarded(body: seq<Op>, h: Holding)
    requires h.state == 0 && Disciplined(body, h.(bind := h.bind + 1), h.(bind := h.bind + 1))
    ensures Disciplined([Acquire(BindLock)] + body + [Release(BindLock)], h, h)
  {
    hide Disciplined;
    var inner := h.(bind := h.bind + 1);
    OneOp(Acquire(BindLock), h);
    Compose([Acquire(BindLock)], body, h, inner, inner);
    OneOp(Release(BindLock), inner);
    Compose([Acquire(BindLock)] + body, [Release(BindLock)], h, inner, h);
  }

  lemma FirstBindDisciplined(gone: bool, doBind: bool, nested: seq<Op>, h: Holding)
    requires h.state == 0 && Disciplined(nested, h.(bind := h.bind + 1), h.(bind := h.bind + 1))
    ensures Disciplined(FirstBindOps(gone, doBind, nested), h, h)
  {
    hide Disciplined;
    var inner := h.(bind := h.bind + 1);
    RegionDisciplined(inner);
    NothingToDo(inner);
    OneOp(OnBind, inner);
    Both([OnBind], nested, inner);
    Both([OnBind] + nested, REGION, inner);
    Both(If(doBind, [OnBind] + nested + REGION), REGION, inner);
    var rest := If(!gone, If(doBind, [OnBind] + nested + REGION) + REGION);
    Both(REGION, rest, inner);
    Guarded(REGION + rest, h);
  }

  /** Every entry point, however deeply onBind re-enters, never acquires the bind lock while it holds the
      state lock, and gives back both locks; it touches the tables only under the state lock, runs onBind
      under the bind lock, and calls no application code under the state lock. */
  lemma {:induction false} CallDisciplined(c: Call, h: Holding)
    requires h.state == 0
    ensures Disciplined(Ops(c), h, h)
    decreases c
  {
    RegionDisciplined(h);
    hide Disciplined;
    assert Disciplined([], h, h) by { NothingToDo(h); }
    match c {
      case Disconnect =>
      case Start(found) => EnsureCreatedDisciplined(found, h);
      case Deliver(needBind, gone, doBind, fromOnBind) =>
        AllDisciplined(fromOnBind, h.(bind := h.bind + 1));
        FirstBindDisciplined(gone, doBind, AllOps(fromOnBind), h);
        var first := If(needBind, FirstBindOps(gone, doBind, AllOps(fromOnBind)));
        Both(REGION, first, h);
        OneOp(HandOver, h);
        Both(REGION + first, If(!gone, [HandOver]), h);
      case Bind(found, deliver, delivery, foundLate, created) =>
        var tail := if deliver then Ops(delivery) else EnsureCreatedOps(foundLate) + If(created, REGION);
        if deliver {
          CallDisciplined(delivery, h);
        } else {
          EnsureCreatedDisciplined(foundLate, h);
          Both(EnsureCreatedOps(foundLate), If(created, REGION), h);
        }
        Both(REGION, REGION, h);
        Both(REGION + REGION, If(found, REGION), h);
        Both(REGION + REGION + If(found, REGION), tail, h);
      case WorkerPass(entries) =>
        AllDisciplined(entries, h);
        Both(REGION, AllOps(entries), h);
      case WorkerEntry(found, ready, claimed, delivery) =>
        CallDisciplined(delivery, h);
        var last := if claimed then Ops(delivery) else [];
        Both(REGION, last, h);
        Both(REGION, If(found, REGION), h);
        Both(REGION + If(found, REGION), If(ready, REGION + last), h);
    }
  }

  lemma NothingToDo(h: Holding)
    ensures Disciplined([], h, h)
  {}

  lemma {:induction false} AllDisciplined(cs: Calls, h: Holding)
    requires h.state == 0
    ensures Disciplined(AllOps(cs), h, h)
    decreases cs
  {
    match cs {
      case Nil =>
      case Cons(c, rest) =>
        CallDisciplined(c, h);
        AllDisciplined(rest, h);
        Both(Ops(c), AllOps(rest), h);
    }
  }

  // ---------------------------------------------------------------- threads contending for the locks

  const IDLE := Holding(0, 0)

  /** A thread: the operations it has still to perform, and what it holds. */
  datatype Thread = Thread(rest: seq<Op>, held: Holding)

  function Depth(t: Thread, m: Mutex): nat { if m.StateLock? then t.held.state else t.held.bind }

  /** A mutex is free for thread `i` when no other thread holds it. */
  ghost predicate FreeFor(ts: seq<Thread>, i: nat, m: Mutex) {
    forall j | 0 <= j < |ts| && j != i :: Depth(ts[j], m) == 0
  }

  ghost predicate CanMove(ts: seq<Thread>, i: nat) {
    && i < |ts| && ts[i].rest != [] && Allowed(ts[i].held, ts[i].rest[0])
    && (ts[i].rest[0].Acquire? ==> FreeFor(ts, i, ts[i].rest[0].m))
  }

  function Moved(t: Thread): Thread
    requires t.rest != [] && Allowed(t.held, t.rest[0])
  {
    Thread(t.rest[1..], After(t.held, t.rest[0]))
  }

  ghost predicate Contention(ts: seq<Thread>) {
    && (forall i | 0 <= i < |ts| :: Disciplined(ts[i].rest, ts[i].held, IDLE))
    && (forall i, j, m: Mutex | 0 <= i < |ts| && 0 <= j < |ts| && Depth(ts[i], m) > 0 && Depth(ts[j], m) > 0 :: i == j)
  }

  /** Any number of threads, each about to make any calls, start in contention-free order. */
  lemma StartContention(work: seq<Calls>)
    ensures Contention(seq(|work|, i requires 0 <= i < |work| => Thread(AllOps(work[i]), IDLE)))
  {
    forall i | 0 <= i < |work|
      ensures Disciplined(AllOps(work[i]), IDLE, IDLE)
    {
      AllDisciplined(work[i], IDLE);
    }
  }

  lemma MoveContention(ts: seq<Thread>, i: nat)
    requires Contention(ts) && CanMove(ts, i)
    ensures Contention(ts[i := Moved(ts[i])])
  {}

  /** In every state such threads can reach, as long as one of them has work left, some thread can
      move: the two locks cannot deadlock. */
  lemma NoDeadlock(ts: seq<Thread>, i: nat)
    requires Contention(ts) && i < |ts| && ts[i].rest != []
    ensures exists k: nat :: CanMove(ts, k)
  {
    if j :| 0 <= j < |ts| && ts[j].held.state > 0 {
      assert Depth(ts[j], StateLock) > 0;
      assert CanMove(ts, j);
    } else if j :| 0 <= j < |ts| && ts[j].held.bind > 0 {
      assert Depth(ts[j], BindLock) > 0;
      assert CanMove(ts, j);
    } else {
      assert CanMove(ts, i);
    }
  }

  /** The threads after the given schedule of moves, each of which must be possible. */
  ghost predicate Schedule(ts: seq<Thread>, moves: seq<nat>, ts': seq<Thread>)
    decreases |moves|
  {
    if moves == [] then ts' == ts
    else CanMove(ts, moves[0]) && Schedule(ts[moves[0] := Moved(ts[moves[0]])], moves[1..], ts')
  }

  lemma {:induction false} ScheduleContention(ts: seq<Thread>, moves: seq<nat>, ts': seq<Thread>)
    requires Contention(ts) && Schedule(ts, moves, ts')
    ensures Contention(ts')
    decreases |moves|
  {
    if moves == [] {
    } else {
      MoveContention(ts, moves[0]);
      ScheduleContention(ts[moves[0] := Moved(ts[moves[0]])], moves[1..], ts');
    }
  }

  /** Any threads, any calls, any schedule: while one of them has work left, one of them can move. */
  lemma NeverDeadlocked(work: seq<Calls>, moves: seq<nat>, ts: seq<Thread>, i: nat)
    requires Schedule(seq(|work|, k requires 0 <= k < |work| => Thread(AllOps(work[k]), IDLE)), moves, ts)
    requires i < |ts| && ts[i].rest != []
    ensures exists k: nat :: CanMove(ts, k)
  {
    StartContention(work);
    ScheduleContention(seq(|work|, k requires 0 <= k < |work| => Thread(AllOps(work[k]), IDLE)), moves, ts);
    NoDeadlock(ts, i);
  }
}
