/** PatchProxy, PatchPI and PatchLog: what each inserts, and what the patched method then does. */
module DexPatches {
  import opened DexMachine
  import opened DexInsert

  const MAX_NIBBLE := 15

  /** The code of a valid method does not end with an instruction that goes on to the next one. */
  predicate Closed(b: Body) {
    b.code != [] ==> var i := b.code[|b.code| - 1]; i.Throw? || i.Return? || i.Branch? || i.Plain?
  }

  function CallOn(kind: Kind, reg: nat, m: MethodRef): Instr { Invoke35c(kind, 1, reg, 0, 0, 0, 0, m) }

  lemma ExecCallOn(w: World, kind: Kind, reg: nat, m: MethodRef, d: Data)
    ensures Exec(w, CallOn(kind, reg, m), d) ==
            AfterCall(d, w.call(kind, m, [d.Reg(reg)], d.heap), m.ret == "V")
  {
    assert Args(d, ArgRegs(CallOn(kind, reg, m))) == [d.Reg(reg)];
  }

  // ---------------------------------------------------------------- null results become proxies

  const BINDER := "Landroid/os/Binder;"
  const BINDER_INIT := MethodRef(BINDER, "<init>", [], "V")

  /** Which register to guard, and whose `asInterface` makes the proxy. */
  datatype Guard = Guard(reg: nat, stub: string, iface: string) {
    function AsInterface(): MethodRef { MethodRef(stub, "asInterface", ["Landroid/os/IBinder;"], iface) }
  }

  const BLOCK := 5

  function Block(p: Guard, skip: int): (r: seq<Instr>)
    ensures |r| == BLOCK
  {
    [IfNez(p.reg, skip),
     NewInstance(p.reg, BINDER),
     CallOn(Direct, p.reg, BINDER_INIT),
     CallOn(Static, p.reg, p.AsInterface()),
     MoveResultObject(p.reg)]
  }

  /** The block stands before the old instruction at `at`, whose labels moved with it. */
  ghost predicate Proxied(a: Body, b: Body, at: int, p: Guard) {
    && 0 < at < |a.code|
    && Expanded(a, b, Shift(at, BLOCK)) && |b.code| == |a.code| + BLOCK
    && b.code[at..at + BLOCK] == Block(p, at + BLOCK)
  }

  /** What a null result becomes: a proxy around a new Binder; or the exception that making it raises. */
  function ProxyFor(w: World, p: Guard, d: Data): (Data, Flow) {
    if d.Reg(p.reg) != 0 then (d.(result := None), Fall)
    else match w.alloc(BINDER, d.heap)
      case Threw(e, h) => (d.(heap := h, result := None), Raise(e))
      case Returned(v, h) =>
        var made := d.With(p.reg, v);
        match w.call(Direct, BINDER_INIT, [v], h)
        case Threw(e, h) => (made.(heap := h), Raise(e))
        case Returned(_, h) =>
          match w.call(Static, p.AsInterface(), [v], h)
          case Threw(e, h) => (made.(heap := h), Raise(e))
          case Returned(proxy, h) => (d.With(p.reg, if p.iface == "V" then 0 else proxy).(heap := h), Fall)
  }

  /** The old method with `ProxyFor` applied where the instruction at `last` falls through. */
  function Substitute(w: World, p: Guard, last: int): Extra {
    (pc: int, d: Data) => if pc == last then ProxyFor(w, p, d) else (d, Fall)
  }

  // The five instructions, one at a time. `a` is the old body, `b` the new one.

  lemma BlockStep(w: World, a: Body, b: Body, at: int, p: Guard, j: int, d: Data)
    requires Proxied(a, b, at, p) && 0 <= j < BLOCK
    ensures var r := Exec(w, Block(p, at + BLOCK)[j], d);
            Step(w, b, Running(at + j, d)) ==
            match r.1
            case Fall => Running(at + j + 1, r.0)
            case Jump(to) => Running(to, r.0)
            case _ => RelabelState(Land(w, a.tries, at - 1, r), Shift(at, BLOCK))
  {
    hide Exec, Block, RelabelTries, Relabel;
    var r := Exec(w, Block(p, at + BLOCK)[j], d);
    var f := Shift(at, BLOCK);
    assert f(at - 1) == at - 1 && f(at) == at + BLOCK;
    assert b.code[at + j] == b.code[at..at + BLOCK][j];
    if r.1.Raise? { TryRelabelled(w, a.tries, at - 1, at + j, r.1.exc, r.0.heap, f); }
  }

  function Done(w: World, a: Body, at: int, p: Guard, d: Data): State {
    RelabelState(Land(w, a.tries, at - 1, ProxyFor(w, p, d)), Shift(at, BLOCK))
  }

  lemma RunFirst(w: World, b: Body, s: State, n: nat)
    ensures Run(w, b, s, n + 1) == Run(w, b, Step(w, b, s), n)
  {
    RunJoin(w, b, s, 1, n);
    assert Run(w, b, s, 1) == Step(w, b, Run(w, b, s, 0));
  }

  /** From `asInterface` on, with the new Binder in the register. */
  lemma BlockTail(w: World, a: Body, b: Body, at: int, p: Guard, d: Data) returns (k: nat)
    requires Proxied(a, b, at, p)
    ensures k <= 2
    ensures var v := d.Reg(p.reg);
            Run(w, b, Running(at + 3, d), k) == RelabelState(Land(w, a.tries, at - 1,
              match w.call(Static, p.AsInterface(), [v], d.heap)
              case Threw(e, h) => (d.(heap := h, result := None), Raise(e))
              case Returned(proxy, h) => (d.With(p.reg, if p.iface == "V" then 0 else proxy).(heap := h), Fall)),
              Shift(at, BLOCK))
  {
    hide Proxied, Step;
    BlockStep(w, a, b, at, p, 3, d);
    ExecCallOn(w, Static, p.reg, p.AsInterface(), d);
    RunFirst(w, b, Running(at + 3, d), 0);
    match w.call(Static, p.AsInterface(), [d.Reg(p.reg)], d.heap)
    case Threw(_, _) => k := 1;
    case Returned(proxy, h) =>
      var d2 := d.(heap := h, result := if p.iface == "V" then None else Some(proxy));
      BlockStep(w, a, b, at, p, 4, d2);
      RunFirst(w, b, Running(at + 3, d), 1);
      RunFirst(w, b, Running(at + 4, d2), 0);
      k := 2;
  }

  lemma BlockRun(w: World, a: Body, b: Body, at: int, p: Guard, d: Data) returns (k: nat)
    requires Proxied(a, b, at, p)
    ensures k <= BLOCK && Run(w, b, Running(at, d), k) == Done(w, a, at, p, d)
  {
    hide Proxied, Step, Run;
    var d0 := d.(result := None);
    BlockStep(w, a, b, at, p, 0, d);
    RunFirst(w, b, Running(at, d), 0);
    ZeroSteps(w, b, Step(w, b, Running(at, d)));
    if d.Reg(p.reg) != 0 { return 1; }
    BlockStep(w, a, b, at, p, 1, d0);
    RunFirst(w, b, Running(at, d), 1);
    RunFirst(w, b, Running(at + 1, d0), 0);
    ZeroSteps(w, b, Step(w, b, Running(at + 1, d0)));
    match w.alloc(BINDER, d.heap)
    case Threw(_, _) => k := 2;
    case Returned(v, h) =>
      var d1 := d0.With(p.reg, v).(heap := h);
      k := BlockAfterAlloc(w, a, b, at, p, d1);
      RunFirst(w, b, Running(at, d), k + 1);
      RunFirst(w, b, Running(at + 1, d0), k);
      FoldProxy(w, p, d, v, h);
      k := k + 2;
  }

  lemma ZeroSteps(w: World, b: Body, s: State)
    ensures Run(w, b, s, 0) == s
  {}

  /** From the constructor call on, with the uninitialised Binder in the register. */
  function AfterAlloc(w: World, p: Guard, d: Data): (Data, Flow) {
    var v := d.Reg(p.reg);
    match w.call(Direct, BINDER_INIT, [v], d.heap)
    case Threw(e, h) => (d.(heap := h, result := None), Raise(e))
    case Returned(_, h) =>
      match w.call(Static, p.AsInterface(), [v], h)
      case Threw(e, h) => (d.(heap := h, result := None), Raise(e))
      case Returned(proxy, h) => (d.With(p.reg, if p.iface == "V" then 0 else proxy).(heap := h), Fall)
  }

  lemma FoldProxy(w: World, p: Guard, d: Data, v: Value, h: Heap)
    requires d.Reg(p.reg) == 0 && w.alloc(BINDER, d.heap) == Returned(v, h)
    ensures ProxyFor(w, p, d) == AfterAlloc(w, p, d.With(p.reg, v).(heap := h))
  {
    var d1 := d.With(p.reg, v).(heap := h);
    assert forall x: Value {:trigger d.With(p.reg, x)} :: d1.With(p.reg, x).regs == d.With(p.reg, x).regs;
  }

  lemma BlockAfterAlloc(w: World, a: Body, b: Body, at: int, p: Guard, d: Data) returns (k: nat)
    requires Proxied(a, b, at, p)
    ensures k <= 3
    ensures Run(w, b, Running(at + 2, d), k) ==
            RelabelState(Land(w, a.tries, at - 1, AfterAlloc(w, p, d)), Shift(at, BLOCK))
  {
    hide Proxied, Step, Run;
    BlockStep(w, a, b, at, p, 2, d);
    ExecCallOn(w, Direct, p.reg, BINDER_INIT, d);
    match w.call(Direct, BINDER_INIT, [d.Reg(p.reg)], d.heap)
    case Threw(_, _) =>
      RunFirst(w, b, Running(at + 2, d), 0);
      ZeroSteps(w, b, Step(w, b, Running(at + 2, d)));
      k := 1;
    case Returned(_, h) =>
      var d2 := d.(heap := h, result := None);
      k := BlockTail(w, a, b, at, p, d2);
      RunFirst(w, b, Running(at + 2, d), k);
      k := k + 1;
  }

  lemma ProxyGaps(w: World, a: Body, b: Body, at: int, p: Guard)
    requires Proxied(a, b, at, p)
    ensures GapsDo(w, a, b, Shift(at, BLOCK), Substitute(w, p, at - 1))
  {
    hide Run, Land, ProxyFor;
    var f, extra := Shift(at, BLOCK), Substitute(w, p, at - 1);
    forall pc, d | 0 <= pc < |a.code| ensures GapDoes(w, a, b, f, extra, pc, d)
    {
      if pc == at - 1 {
        var k := BlockRun(w, a, b, at, p, d);
        assert GapRun(w, a, b, f, extra, pc, d, k);
      } else {
        ZeroSteps(w, b, Running(f(pc) + 1, d));
        LandFall(w, a.tries, pc, d);
        assert GapRun(w, a, b, f, extra, pc, d, 0);
      }
    }
  }

  lemma LandFall(w: World, tries: seq<Try>, pc: int, d: Data)
    ensures Land(w, tries, pc, (d, Fall)) == Running(pc + 1, d)
  {}

  /** The patched method is, run for run, the old one with null results replaced after the call. */
  lemma ProxiedRuns(w: World, a: Body, b: Body, at: int, p: Guard, s: State, n: nat) returns (m: nat)
    requires Proxied(a, b, at, p)
    ensures n <= m <= n * (1 + BLOCK)
    ensures var f := Shift(at, BLOCK);
            Run(w, b, RelabelState(s, f), m) ==
            RelabelState(RefRun(w, a, Substitute(w, p, at - 1), s, n), f)
  {
    ProxyGaps(w, a, b, at, p);
    m := RefRunExpanded(w, a, b, Shift(at, BLOCK), Substitute(w, p, at - 1), s, n);
  }

  /** Nothing else happens: every state of the patched method is at most five steps past one of those. */
  lemma ProxiedOnly(w: World, a: Body, b: Body, at: int, p: Guard, s: State, m: nat) returns (n: nat, k: nat)
    requires Proxied(a, b, at, p)
    ensures n <= m && k <= BLOCK
    ensures var f := Shift(at, BLOCK);
            Run(w, b, RelabelState(s, f), m) ==
            Run(w, b, RelabelState(RefRun(w, a, Substitute(w, p, at - 1), s, n), f), k)
  {
    ProxyGaps(w, a, b, at, p);
    n, k := ExpansionTracksRef(w, a, b, Shift(at, BLOCK), Substitute(w, p, at - 1), s, m);
  }

  /** In the old run, the guarded call never hands over null. */
  ghost predicate NeverNull(w: World, a: Body, last: int, reg: nat, s: State, n: nat) {
    forall k | 0 <= k < n && Run(w, a, s, k).Running? && Run(w, a, s, k).pc == last ::
      Run(w, a, s, k + 1).Running? && Run(w, a, s, k + 1).data.Reg(reg) != 0
  }

  lemma {:induction false} NonNullRef(w: World, a: Body, at: int, p: Guard, s: State, n: nat)
    requires 0 < at < |a.code| && a.code[at - 1] == MoveResultObject(p.reg)
    requires NeverNull(w, a, at - 1, p.reg, s, n)
    ensures RefRun(w, a, Substitute(w, p, at - 1), s, n) == Run(w, a, s, n)
  {
    if n == 0 {
    } else {
      NonNullRef(w, a, at, p, s, n - 1);
      var t := Run(w, a, s, n - 1);
      assert Run(w, a, s, n - 1 + 1) == Step(w, a, t);
      SubstituteStep(w, a, at, p, t);
    }
  }

  lemma SubstituteStep(w: World, a: Body, at: int, p: Guard, t: State)
    requires 0 < at < |a.code| && a.code[at - 1] == MoveResultObject(p.reg)
    requires t.Running? && t.pc == at - 1 ==>
             Step(w, a, t).Running? && Step(w, a, t).data.Reg(p.reg) != 0
    ensures RefStep(w, a, Substitute(w, p, at - 1), t) == Step(w, a, t)
  {
    hide FindTry, FindHandler;
  }

  /** A run in which the call never returns null is a run of the patched method, only later: same
      registers, heap, exceptions and results at the same instructions. */
  lemma NonNullUnchanged(w: World, a: Body, b: Body, at: int, p: Guard, s: State, n: nat) returns (m: nat)
    requires Proxied(a, b, at, p) && a.code[at - 1] == MoveResultObject(p.reg)
    requires NeverNull(w, a, at - 1, p.reg, s, n)
    ensures n <= m && Run(w, b, RelabelState(s, Shift(at, BLOCK)), m) == RelabelState(Run(w, a, s, n), Shift(at, BLOCK))
  {
    NonNullRef(w, a, at, p, s, n);
    m := ProxiedRuns(w, a, b, at, p, s, n);
  }

  /** Binders can be made, and `asInterface` of one is an object. */
  ghost predicate BinderWorks(w: World, p: Guard) {
    && p.iface != "V"
    && (forall h :: w.alloc(BINDER, h).Returned? && w.alloc(BINDER, h).value != 0)
    && (forall v, h :: w.call(Direct, BINDER_INIT, [v], h).Returned?)
    && (forall v, h | v != 0 ::
          var r := w.call(Static, p.AsInterface(), [v], h); r.Returned? && r.value != 0)
  }

  /** Whatever data the guarded call hands over: no register but the guarded one changes, data with a
      non-null reference does not change at all, and when Binders can be made control reaches the old
      next instruction with a non-null reference. */
  lemma NullReplaced(w: World, a: Body, b: Body, at: int, p: Guard, d: Data) returns (k: nat, after: State)
    requires Proxied(a, b, at, p)
    ensures k <= BLOCK && after == Run(w, b, Running(at, d), k)
    ensures after.Running? ==> forall r | r != p.reg :: after.data.Reg(r) == d.Reg(r)
    ensures d.Reg(p.reg) != 0 ==> after == Running(at + BLOCK, d.(result := None))
    ensures BinderWorks(w, p) ==> after.Running? && after.pc == at + BLOCK && after.data.Reg(p.reg) != 0
  {
    k := BlockRun(w, a, b, at, p, d);
    after := Done(w, a, at, p, d);
    hide FindTry, FindHandler, Proxied, Run;
  }

  /** Where an instruction may jump. */
  function Targets(i: Instr): seq<int> { if i.IfNez? then [i.to] else if i.Branch? then i.targets else [] }

  /** Some jump, handler or try boundary of the body names this position. */
  ghost predicate Named(b: Body, pos: int) {
    || (exists j :: 0 <= j < |b.code| && pos in Targets(b.code[j]))
    || (exists k :: 0 <= k < |b.tries| && TryNames(b.tries[k], pos))
  }

  ghost predicate TryNames(t: Try, pos: int) {
    t.from == pos || t.to == pos || exists h :: 0 <= h < |t.handlers| && t.handlers[h].at == pos
  }

  lemma {:induction false} HandlerNames(hs: seq<Handler>, f: int -> int, pos: int)
    requires forall mark :: f(mark) != pos
    ensures forall h | 0 <= h < |RelabelHandlers(hs, f)| :: RelabelHandlers(hs, f)[h].at != pos
  {
    if hs == [] {
    } else {
      HandlerNames(hs[1..], f, pos);
    }
  }

  lemma {:induction false} TriesName(ts: seq<Try>, f: int -> int, pos: int)
    requires forall mark :: f(mark) != pos
    ensures forall k | 0 <= k < |RelabelTries(ts, f)| :: !TryNames(RelabelTries(ts, f)[k], pos)
  {
    if ts == [] {
    } else {
      TriesName(ts[1..], f, pos);
      HandlerNames(ts[0].handlers, f, pos);
    }
  }

  lemma RelabelNames(i: Instr, f: int -> int, pos: int)
    requires forall mark :: f(mark) != pos
    ensures pos !in Targets(Relabel(i, f))
  {
    if i.Branch? {
      forall k | 0 <= k < |i.targets| ensures Relabel(i, f).targets[k] != pos {
        var mark := i.targets[k];
        assert f(mark) != pos;
      }
    }
  }

  /** No jump, handler or try boundary of the patched method names a position in the block: control enters
      it only by falling through from the call's move-result. */
  lemma BlockEnteredByFallThrough(a: Body, b: Body, at: int, p: Guard, pos: int)
    requires Proxied(a, b, at, p) && at <= pos < at + BLOCK
    ensures !Named(b, pos)
  {
    var f := Shift(at, BLOCK);
    LabelsMissGaps(a, b, f, at - 1, pos);
    TriesName(a.tries, f, pos);
    forall j | 0 <= j < |b.code| ensures pos !in Targets(b.code[j]) {
      if at <= j < at + BLOCK {
        assert b.code[j] == b.code[at..at + BLOCK][j - at] == Block(p, at + BLOCK)[j - at];
      } else {
        var i := if j < at then j else j - BLOCK;
        assert f(i) == j;
        RelabelNames(a.code[i], f, pos);
      }
    }
    hide RelabelTries, Relabel;
  }

  // ---------------------------------------------------------------- the two tools that guard a call

  /** The first `n` instructions of the block are in. */
  ghost predicate Partial(a: Body, b: Body, at: int, p: Guard, n: nat) {
    && 0 < at < |a.code| && n <= BLOCK
    && Expanded(a, b, Shift(at, n)) && |b.code| == |a.code| + n
    && b.code[at..at + n] == Block(p, at + n)[..n]
  }

  lemma InsertedNext(a: Body, b: Body, at: int, p: Guard, n: nat)
    requires n < BLOCK && Partial(a, b, at, p, n)
    ensures Partial(a, Inserted(b, at + n, Block(p, at + n + 1)[n]), at, p, n + 1)
  {
    hide Expanded, Composed, Shift, Inserted;
    var ins := Block(p, at + n + 1)[n];
    var c := Inserted(b, at + n, ins);
    InsertedExpands(b, at + n, ins);
    ShiftsComposed(at, n);
    ExpandedTwice(a, b, c, Shift(at, n), Shift(at + n, 1), Shift(at, n + 1));
    BlockGrows(a, b, at, p, n);
  }

  lemma ShiftsComposed(at: int, n: nat)
    ensures Composed(Shift(at, n), Shift(at + n, 1), Shift(at, n + 1))
  {}

  lemma BlockGrows(a: Body, b: Body, at: int, p: Guard, n: nat)
    requires n < BLOCK && Partial(a, b, at, p, n)
    ensures Inserted(b, at + n, Block(p, at + n + 1)[n]).code[at..at + n + 1] == Block(p, at + n + 1)[..n + 1]
  {
    hide Expanded;
    var c := Inserted(b, at + n, Block(p, at + n + 1)[n]);
    var grown, block := c.code[at..at + n + 1], Block(p, at + n + 1);
    forall j | 0 <= j < n ensures grown[j] == block[j] {
      assert b.code[at + j] == b.code[at..at + n][j] == Block(p, at + n)[j];
    }
  }

  /** The five insertions. The label to skip to is on the instruction at `at`, so that it is one further
      on after each. */
  method InsertProxy(b: Body, at: nat, p: Guard) returns (out: Body)
    requires 0 < at < |b.code|
    ensures Proxied(b, out, at, p)
  {
    hide Expanded, Inserted;
    ghost var block := Block(p, at + BLOCK);
    ExpandsItself(b, Shift(at, 0));
    assert Partial(b, b, at, p, 0);
    InsertedNext(b, b, at, p, 0);
    out := Inserted(b, at, IfNez(p.reg, at + 1));
    InsertedNext(b, out, at, p, 1);
    out := Inserted(out, at + 1, NewInstance(p.reg, BINDER));
    InsertedNext(b, out, at, p, 2);
    out := Inserted(out, at + 2, CallOn(Direct, p.reg, BINDER_INIT));
    InsertedNext(b, out, at, p, 3);
    out := Inserted(out, at + 3, CallOn(Static, p.reg, p.AsInterface()));
    InsertedNext(b, out, at, p, 4);
    out := Inserted(out, at + 4, MoveResultObject(p.reg));
  }

  /** The block in place: registers, labels and names. */
  lemma GuardBlock(a: Body, b: Body, at: int, p: Guard)
    requires Proxied(a, b, at, p)
    ensures at + 5 < |b.code| && b.code[at] == IfNez(p.reg, at + 5)
    ensures b.code[at + 1] == NewInstance(p.reg, "Landroid/os/Binder;")
    ensures b.code[at + 2] ==
            Invoke35c(Direct, 1, p.reg, 0, 0, 0, 0, MethodRef("Landroid/os/Binder;", "<init>", [], "V"))
    ensures b.code[at + 3] ==
            Invoke35c(Static, 1, p.reg, 0, 0, 0, 0,
                      MethodRef(p.stub, "asInterface", ["Landroid/os/IBinder;"], p.iface))
    ensures b.code[at + 4] == MoveResultObject(p.reg)
  {
    hide Expanded;
    var block := b.code[at..at + BLOCK];
    assert b.code[at] == block[0] && b.code[at + 1] == block[1] && b.code[at + 2] == block[2];
    assert b.code[at + 3] == block[3] && b.code[at + 4] == block[4];
  }

  predicate CallsByName(i: Instr, cls: Option<string>, names: set<string>) {
    (i.Invoke35c? || i.Invoke3rc?) && i.target.name in names && (cls.Some? ==> i.target.cls == cls.value)
  }

  predicate IsCall(i: Instr) { i.Invoke35c? || i.Invoke3rc? }

  /** The first call of one of `names` (in `cls`, if given) is at `i`. */
  ghost predicate FirstCall(code: seq<Instr>, cls: Option<string>, names: set<string>, i: int) {
    && 0 <= i < |code| && IsCall(code[i]) && code[i].target.name in names
    && (cls.Some? ==> code[i].target.cls == cls.value)
    && forall j | 0 <= j < i && IsCall(code[j]) && code[j].target.name in names ::
         cls.Some? && code[j].target.cls != cls.value
  }

  /** ... and its result goes to register `reg`. */
  ghost predicate ResultOf(code: seq<Instr>, cls: Option<string>, names: set<string>, i: int, reg: nat) {
    FirstCall(code, cls, names, i) && i + 1 < |code| && code[i + 1] == MoveResultObject(reg)
  }

  method FindCall(code: seq<Instr>, cls: Option<string>, names: set<string>) returns (i: int)
    ensures i >= 0 ==> FirstCall(code, cls, names, i)
    ensures i < 0 ==> forall j :: !FirstCall(code, cls, names, j)
  {
    i := 0;
    while i < |code|
      invariant 0 <= i <= |code|
      invariant forall j | 0 <= j < i :: !CallsByName(code[j], cls, names)
    {
      if CallsByName(code[i], cls, names) { return; }
      i := i + 1;
    }
    i := -1;
  }

  /** A patched body, no change, or the builder's refusal of a register that does not fit format 35c. */
  datatype Outcome = Patched(body: Body) | Skipped | Refused

  const AS_INTERFACE := {"asInterface"}

  /** PatchProxy: guards the first `asInterface` call of the stub, if its result register fits. */
  method PatchProxy(b: Body, stub: string, iface: string) returns (out: Outcome, ghost i: int, ghost reg: nat)
    requires Closed(b)
    ensures !out.Refused?
    ensures out.Patched? ==>
              && 0 <= i < |b.code| - 1 && IsCall(b.code[i])
              && b.code[i].target.cls == stub && b.code[i].target.name == "asInterface"
              && b.code[i + 1] == MoveResultObject(reg) && reg <= 15
              && forall j | 0 <= j < i && IsCall(b.code[j]) ::
                   b.code[j].target.cls != stub || b.code[j].target.name != "asInterface"
    ensures out.Patched? ==> Proxied(b, out.body, i + 2, Guard(reg, stub, iface))
    ensures out.Patched? ==>
              var c := b.code[i].target;
              && i + 5 < |out.body.code| && IsCall(out.body.code[i + 5]) && out.body.code[i + 5].kind.Static?
              && ArgRegs(out.body.code[i + 5]) == [reg]
              && out.body.code[i + 5].target == MethodRef(c.cls, c.name, ["Landroid/os/IBinder;"], iface)
    ensures out.Skipped? ==> forall j, r: nat | ResultOf(b.code, Some(stub), {"asInterface"}, j, r) :: r > 15
  {
    hide Proxied;
    var ai := FindCall(b.code, Some(stub), AS_INTERFACE);
    i, reg := ai, 0;
    if ai < 0 || ai + 1 >= |b.code| { return Skipped, i, reg; }
    var mr := b.code[ai + 1];
    if !mr.MoveResultObject? { return Skipped, i, reg; }
    reg := mr.reg;
    if mr.reg > MAX_NIBBLE { return Skipped, i, reg; }
    var body := InsertProxy(b, ai + 2, Guard(mr.reg, stub, iface));
    GuardBlock(b, body, ai + 2, Guard(mr.reg, stub, iface));
    out := Patched(body);
  }

  const GET_INTENT_SENDER := {"getIntentSenderWithFeature", "getIntentSender"}

  function IntentSenderGuard(reg: nat): Guard {
    Guard(reg, "Landroid/content/IIntentSender$Stub;", "Landroid/content/IIntentSender;")
  }

  /** PatchPI: guards the first `getIntentSender` call, whatever its class. It does not look at the
      register, so that one which does not fit ends in the builder's refusal. */
  method PatchPendingIntent(b: Body) returns (out: Outcome, ghost i: int, ghost reg: nat)
    requires Closed(b)
    ensures !out.Skipped? ==> ResultOf(b.code, None, {"getIntentSenderWithFeature", "getIntentSender"}, i, reg)
    ensures !out.Skipped? ==> (out.Refused? <==> reg > 15)
    ensures out.Patched? ==>
              Proxied(b, out.body, i + 2,
                      Guard(reg, "Landroid/content/IIntentSender$Stub;", "Landroid/content/IIntentSender;"))
    ensures out.Skipped? ==>
              forall j, r: nat :: !ResultOf(b.code, None, {"getIntentSenderWithFeature", "getIntentSender"}, j, r)
  {
    hide Proxied;
    var gi := FindCall(b.code, None, GET_INTENT_SENDER);
    i, reg := gi, 0;
    if gi < 0 || gi + 1 >= |b.code| { return Skipped, i, reg; }
    var mr := b.code[gi + 1];
    if !mr.MoveResultObject? { return Skipped, i, reg; }
    reg := mr.reg;
    if mr.reg > MAX_NIBBLE { return Refused, i, reg; }
    var body := InsertProxy(b, gi + 2, IntentSenderGuard(mr.reg));
    out := Patched(body);
  }

  // ---------------------------------------------------------------- PatchLog

  const LOG := MethodRef("Ladapter/compat/WlProbe;", "logThrowable", ["Ljava/lang/Throwable;"], "V")

  predicate LogSite(code: seq<Instr>, i: int) {
    0 <= i < |code| && code[i].MoveException? && code[i].reg <= MAX_NIBBLE
  }

  /** Number of sites in `from ..< to`. */
  function SitesIn(code: seq<Instr>, from: int, to: int): nat
    decreases (to - from)
  {
    if to <= from then 0 else SitesIn(code, from, to - 1) + if LogSite(code, to - 1) then 1 else 0
  }

  /** Where labels go when the sites from `from` on have their calls. */
  function Layout(code: seq<Instr>, from: int): int -> int { (i: int) => i + SitesIn(code, from, i) }

  lemma {:induction false} SitesInFirst(code: seq<Instr>, from: int, to: int)
    requires from < to
    ensures SitesIn(code, from, to) == SitesIn(code, from + 1, to) + (if LogSite(code, from) then 1 else 0)
    decreases (to - from)
  {
    if to == from + 1 {
    } else {
      SitesInFirst(code, from, to - 1);
    }
  }

  lemma {:induction false} NoSitesPast(code: seq<Instr>, end: int)
    ensures SitesIn(code, |code|, end) == 0
    decreases end - |code|
  {
    if end <= |code| {
    } else {
      NoSitesPast(code, end - 1);
    }
  }

  /** The sites before a position are the move-exceptions there whose register fits format 35c. */
  lemma {:induction false} SitesCounted(code: seq<Instr>, end: nat)
    requires end <= |code|
    ensures SitesIn(code, 0, end) == |set i | 0 <= i < end && code[i].MoveException? && code[i].reg <= 15|
  {
    var sites := set i | 0 <= i < end && code[i].MoveException? && code[i].reg <= 15;
    if end == 0 {
      assert sites == {};
    } else {
      SitesCounted(code, end - 1);
      var before := set i | 0 <= i < end - 1 && code[i].MoveException? && code[i].reg <= 15;
      assert sites == if LogSite(code, end - 1) then before + {end - 1} else before;
    }
  }

  /** Every site from `from` on is followed by its call, and nothing else is new. */
  ghost predicate Logged(a: Body, b: Body, from: int) {
    && 0 <= from <= |a.code|
    && Expanded(a, b, Layout(a.code, from))
    && forall i | from <= i && LogSite(a.code, i) :: CallAfter(a, b, from, i)
  }

  ghost predicate CallAfter(a: Body, b: Body, from: int, i: int)
    requires LogSite(a.code, i)
  {
    var j := Layout(a.code, from)(i) + 1;
    0 <= j < |b.code| && b.code[j] == CallOn(Static, a.code[i].reg, LOG)
  }

  lemma LayoutSkips(code: seq<Instr>, from: int)
    requires !LogSite(code, from)
    ensures Composed(Layout(code, from + 1), Shift(0, 0), Layout(code, from))
  {
    forall x ensures Layout(code, from)(x) == Shift(0, 0)(Layout(code, from + 1)(x)) {
      if from < x { SitesInFirst(code, from, x); }
    }
  }

  lemma LayoutInserts(code: seq<Instr>, from: int)
    requires LogSite(code, from)
    ensures Composed(Layout(code, from + 1), Shift(from + 1, 1), Layout(code, from))
  {
    forall x ensures Layout(code, from)(x) == Shift(from + 1, 1)(Layout(code, from + 1)(x)) {
      if from < x { SitesInFirst(code, from, x); }
    }
  }

  lemma LoggedSkip(a: Body, b: Body, from: int)
    requires 0 <= from && Logged(a, b, from + 1) && !LogSite(a.code, from)
    ensures Logged(a, b, from)
  {
    hide Expanded, LogSite, Layout, Composed, CallAfter;
    ExpandsItself(b, Shift(0, 0));
    LayoutSkips(a.code, from);
    ExpandedTwice(a, b, b, Layout(a.code, from + 1), Shift(0, 0), Layout(a.code, from));
    forall i | from <= i && LogSite(a.code, i) ensures CallAfter(a, b, from, i) { CallStays(a, b, from, i); }
  }

  lemma CallStays(a: Body, b: Body, from: int, i: int)
    requires from < i && !LogSite(a.code, from)
    requires LogSite(a.code, i) && CallAfter(a, b, from + 1, i)
    ensures CallAfter(a, b, from, i)
  {
    SitesInFirst(a.code, from, i);
  }

  lemma LoggedInsert(a: Body, b: Body, from: int)
    requires 0 <= from && Logged(a, b, from + 1) && LogSite(a.code, from) && from + 1 < |a.code|
    ensures from + 1 < |b.code|
    ensures Logged(a, Inserted(b, from + 1, CallOn(Static, a.code[from].reg, LOG)), from)
  {
    LoggedAt(a, b, from);
    hide Expanded, Layout, Composed, Inserted, CallAfter;
    var ins := CallOn(Static, a.code[from].reg, LOG);
    var c := Inserted(b, from + 1, ins);
    LayoutInserts(a.code, from);
    InsertedExpands(b, from + 1, ins);
    ExpandedTwice(a, b, c, Layout(a.code, from + 1), Shift(from + 1, 1), Layout(a.code, from));
    forall i | from <= i && LogSite(a.code, i) ensures CallAfter(a, c, from, i) {
      if i > from { CallMoves(a, b, from, ins, i); } else { CallInserted(a, b, from, ins); }
    }
  }

  lemma CallInserted(a: Body, b: Body, from: int, ins: Instr)
    requires 0 <= from && LogSite(a.code, from) && from + 1 < |b.code|
    requires ins == CallOn(Static, a.code[from].reg, LOG)
    ensures CallAfter(a, Inserted(b, from + 1, ins), from, from)
  {}

  lemma CallMoves(a: Body, b: Body, from: int, ins: Instr, i: int)
    requires 0 <= from < i && from + 1 < |b.code| && LogSite(a.code, from)
    requires LogSite(a.code, i) && CallAfter(a, b, from + 1, i)
    ensures CallAfter(a, Inserted(b, from + 1, ins), from, i)
  {
    SitesInFirst(a.code, from, i);
    var was := Layout(a.code, from + 1)(i) + 1;
    assert Layout(a.code, from)(i) == was && was > from + 1;
    assert Inserted(b, from + 1, ins).code[was + 1] == Relabel(b.code[was], Shift(from + 1, 1));
  }

  /** The backward loop. */
  method InsertLogCalls(b: Body) returns (out: Body, injected: nat)
    requires Closed(b)
    ensures Logged(b, out, 0)
    ensures injected == |set i | 0 <= i < |b.code| && b.code[i].MoveException? && b.code[i].reg <= 15|
    ensures |out.code| == |b.code| + injected
  {
    hide Logged, Inserted, SitesIn;
    out, injected := b, 0;
    LoggedNothing(b);
    var i := |b.code| - 1;
    while i >= 0
      invariant -1 <= i < |b.code|
      invariant Logged(b, out, i + 1) && injected == SitesIn(b.code, i + 1, |b.code|)
    {
      LoggedAt(b, out, i);
      SitesInFirst(b.code, i, |b.code|);
      if out.code[i].MoveException? && out.code[i].reg <= MAX_NIBBLE {
        LoggedInsert(b, out, i);
        out := Inserted(out, i + 1, CallOn(Static, out.code[i].reg, LOG));
        injected := injected + 1;
      } else {
        LoggedSkip(b, out, i);
      }
      i := i - 1;
    }
    LoggedLength(b, out);
    SitesCounted(b.code, |b.code|);
  }

  lemma LoggedLength(a: Body, b: Body)
    requires Logged(a, b, 0)
    ensures |b.code| == |a.code| + SitesIn(a.code, 0, |a.code|)
  {
    assert Layout(a.code, 0)(|a.code|) == |b.code|;
  }

  lemma LoggedNothing(b: Body)
    ensures Logged(b, b, |b.code|) && SitesIn(b.code, |b.code|, |b.code|) == 0
  {
    forall x ensures Layout(b.code, |b.code|)(x) == x { NoSitesPast(b.code, x); }
    ExpandsItself(b, Layout(b.code, |b.code|));
  }

  /** The loop looks at the original instruction: earlier indices are still valid. */
  lemma LoggedAt(a: Body, b: Body, i: int)
    requires 0 <= i < |a.code| && Logged(a, b, i + 1)
    ensures i < |b.code| && (i + 1 < |a.code| ==> i + 1 < |b.code|)
    ensures a.code[i].MoveException? <==> b.code[i].MoveException?
    ensures a.code[i].MoveException? ==> b.code[i] == a.code[i]
  {
    var f := Layout(a.code, i + 1);
    assert f(i) == i && f(i + 1) == i + 1;
  }

  /** The call in place: every move-exception whose register fits is followed by the static call that is
      given the exception. */
  lemma LogCall(a: Body, b: Body, i: nat)
    requires Logged(a, b, 0) && i < |a.code| && a.code[i].MoveException? && a.code[i].reg <= 15
    ensures var at := i + |set k | 0 <= k < i && a.code[k].MoveException? && a.code[k].reg <= 15|;
            && at + 1 < |b.code| && b.code[at] == a.code[i]
            && b.code[at + 1] ==
               Invoke35c(Static, 1, a.code[i].reg, 0, 0, 0, 0,
                         MethodRef("Ladapter/compat/WlProbe;", "logThrowable", ["Ljava/lang/Throwable;"], "V"))
  {
    hide Expanded, Logged, SitesIn, Layout;
    SitesCounted(a.code, i);
    LayoutAt(a.code, i);
    LoggedSite(a, b, i);
  }

  lemma LayoutAt(code: seq<Instr>, i: int)
    ensures Layout(code, 0)(i) == i + SitesIn(code, 0, i)
  {}

  lemma LoggedSite(a: Body, b: Body, i: int)
    requires Logged(a, b, 0) && LogSite(a.code, i)
    ensures CallAfter(a, b, 0, i) && b.code[Layout(a.code, 0)(i)] == a.code[i]
  {}

  /** The old method with each caught exception reported. */
  function Report(w: World, code: seq<Instr>): Extra {
    (pc: int, d: Data) =>
      if LogSite(code, pc) then AfterCall(d, w.call(Static, LOG, [d.Reg(code[pc].reg)], d.heap), true) else (d, Fall)
  }

  lemma LoggedFacts(a: Body, b: Body, pc: int)
    requires Logged(a, b, 0) && LogSite(a.code, pc)
    ensures var f := Layout(a.code, 0);
            CallAfter(a, b, 0, pc) && b.tries == RelabelTries(a.tries, f) && Increasing(f) && f(pc + 1) == f(pc) + 2
  {}

  lemma ReportGap(w: World, a: Body, b: Body, pc: int, d: Data)
    requires Logged(a, b, 0) && LogSite(a.code, pc)
    ensures GapRun(w, a, b, Layout(a.code, 0), Report(w, a.code), pc, d, 1)
  {
    LoggedFacts(a, b, pc);
    ReportRun(w, a, b, Layout(a.code, 0), pc, d);
  }

  lemma ReportRun(w: World, a: Body, b: Body, f: int -> int, pc: int, d: Data)
    requires LogSite(a.code, pc) && b.tries == RelabelTries(a.tries, f) && Increasing(f) && f(pc + 1) == f(pc) + 2
    requires 0 <= f(pc) + 1 < |b.code| && b.code[f(pc) + 1] == CallOn(Static, a.code[pc].reg, LOG)
    ensures GapRun(w, a, b, f, Report(w, a.code), pc, d, 1)
  {
    hide Land, RelabelTries, Exec, Run, Increasing, AfterCall, RelabelState;
    var reg := a.code[pc].reg;
    RunCall(w, b, f(pc) + 1, reg, LOG, d);
    var r := AfterCall(d, w.call(Static, LOG, [d.Reg(reg)], d.heap), true);
    CallFlows(d, w.call(Static, LOG, [d.Reg(reg)], d.heap));
    LandInGap(w, a, b, f, pc, f(pc) + 1, r);
  }

  lemma RunCall(w: World, b: Body, at: int, reg: nat, m: MethodRef, d: Data)
    requires 0 <= at < |b.code| && b.code[at] == CallOn(Static, reg, m)
    ensures Run(w, b, Running(at, d), 1) ==
            Land(w, b.tries, at, AfterCall(d, w.call(Static, m, [d.Reg(reg)], d.heap), m.ret == "V"))
  {
    hide Land, Exec, AfterCall;
    ExecCallOn(w, Static, reg, m, d);
    ZeroSteps(w, b, Running(at, d));
    assert Run(w, b, Running(at, d), 1) == Step(w, b, Running(at, d));
  }

  lemma CallFlows(d: Data, r: CallResult)
    ensures var flow := AfterCall(d, r, true).1; flow.Fall? || flow.Raise?
  {}

  /** At the end of a gap: falling through is at the next old instruction, raising as before the gap. */
  lemma LandInGap(w: World, a: Body, b: Body, f: int -> int, pc: int, at: int, r: (Data, Flow))
    requires b.tries == RelabelTries(a.tries, f) && Increasing(f) && f(pc) <= at && f(pc + 1) == at + 1
    requires r.1.Fall? || r.1.Raise?
    ensures Land(w, b.tries, at, r) == RelabelState(Land(w, a.tries, pc, r), f)
  {
    hide FindTry, RelabelTries, Increasing;
    if r.1.Raise? { TryRelabelled(w, a.tries, pc, at, r.1.exc, r.0.heap, f); }
  }

  lemma ReportGaps(w: World, a: Body, b: Body)
    requires Logged(a, b, 0)
    ensures GapsDo(w, a, b, Layout(a.code, 0), Report(w, a.code))
  {
    hide Run, Land, Logged;
    var f, extra := Layout(a.code, 0), Report(w, a.code);
    forall pc, d | 0 <= pc < |a.code| ensures GapDoes(w, a, b, f, extra, pc, d) {
      if LogSite(a.code, pc) {
        ReportGap(w, a, b, pc, d);
      } else {
        ZeroSteps(w, b, Running(f(pc) + 1, d));
        LandFall(w, a.tries, pc, d);
        assert GapRun(w, a, b, f, extra, pc, d, 0);
      }
    }
  }

  /** The patched method is the old one that also reports every exception it catches. */
  lemma LoggedRuns(w: World, a: Body, b: Body, s: State, n: nat) returns (m: nat)
    requires Logged(a, b, 0)
    ensures n <= m
    ensures var f := Layout(a.code, 0);
            Run(w, b, RelabelState(s, f), m) == RelabelState(RefRun(w, a, Report(w, a.code), s, n), f)
  {
    ReportGaps(w, a, b);
    m := RefRunExpanded(w, a, b, Layout(a.code, 0), Report(w, a.code), s, n);
  }

  /** Reporting does nothing that the method could notice. */
  ghost predicate LogHarmless(w: World) {
    forall v, h :: var r := w.call(Static, LOG, [v], h); r.Returned? && r.heap == h
  }

  lemma {:induction false} HarmlessRef(w: World, a: Body, s: State, n: nat)
    requires LogHarmless(w)
    ensures RefRun(w, a, Report(w, a.code), s, n) == Run(w, a, s, n)
  {
    if n == 0 {
    } else {
      HarmlessRef(w, a, s, n - 1);
      var t := Run(w, a, s, n - 1);
      hide FindTry, FindHandler;
      if t.Running? && LogSite(a.code, t.pc) {
        var d := Exec(w, a.code[t.pc], t.data).0;
        var r := w.call(Static, LOG, [d.Reg(a.code[t.pc].reg)], d.heap);
        assert r.Returned? && r.heap == d.heap;
      }
    }
  }

  /** Then every run of the old method is a run of the patched one. */
  lemma LogUnnoticed(w: World, a: Body, b: Body, s: State, n: nat) returns (m: nat)
    requires Logged(a, b, 0) && LogHarmless(w)
    ensures n <= m
    ensures var f := Layout(a.code, 0); Run(w, b, RelabelState(s, f), m) == RelabelState(Run(w, a, s, n), f)
  {
    HarmlessRef(w, a, s, n);
    m := LoggedRuns(w, a, b, s, n);
  }
}
