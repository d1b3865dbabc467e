/** A register machine for Dalvik method bodies, as far as the dex patching tools can tell two bodies
    apart: registers, one heap, the result of the last call, branches, exceptions and handlers. What
    library and framework code does is an arbitrary `World`. */
module DexMachine {

  datatype Option<+T> = None | Some(value: T)

  /** Object references and numbers; 0 is null. */
  type Value = nat

  /** A state of everything outside the method's own registers. */
  type Heap = nat

  datatype MethodRef = MethodRef(cls: string, name: string, params: seq<string>, ret: string)

  datatype Kind = Interface | Static | Direct | Virtual | Super

  /** Instructions in the formats the tools inspect or emit, and two families for the rest: `Plain`
      computes and falls through (or throws), `Branch` goes on or jumps to one of its targets. A
      target is a code-unit offset in a stored body and an instruction index in an edited one. */
  datatype Instr =
    | Invoke35c(kind: Kind, count: nat, c: nat, d: nat, e: nat, f: nat, g: nat, target: MethodRef)
    | Invoke3rc(kind: Kind, start: nat, count: nat, target: MethodRef)
    | MoveResultObject(reg: nat)
    | MoveException(reg: nat)
    | IfNez(reg: nat, to: int)
    | NewInstance(reg: nat, cls: string)
    | Throw(reg: nat)
    | Return(reg: nat)
    | Plain(op: nat, units: nat)
    | Branch(op: nat, units: nat, targets: seq<int>)

  /** Size in 16-bit code units, from the instruction formats (35c, 3rc: three; 21t, 21c: two; 11x: one). */
  function Units(i: Instr): nat {
    match i
    case Invoke35c(_, _, _, _, _, _, _, _) => 3
    case Invoke3rc(_, _, _, _) => 3
    case MoveResultObject(_) => 1
    case MoveException(_) => 1
    case IfNez(_, _) => 2
    case NewInstance(_, _) => 2
    case Throw(_) => 1
    case Return(_) => 1
    case Plain(_, u) => u
    case Branch(_, u, _) => u
  }

  /** The argument registers of a call: the first `count` of C, D, E, F, G, or `count` from `start`. */
  function ArgRegs(i: Instr): seq<nat>
    requires i.Invoke35c? || i.Invoke3rc?
  {
    match i
    case Invoke35c(_, n, c, d, e, f, g, _) => [c, d, e, f, g][..if n < 5 then n else 5]
    case Invoke3rc(_, s, n, _) => seq(n, k requires 0 <= k < n => s + k)
  }

  datatype CallResult = Returned(value: Value, heap: Heap) | Threw(exc: Value, heap: Heap)

  datatype PlainResult = Computed(regs: map<nat, Value>, heap: Heap) | Failed(exc: Value, heap: Heap)

  datatype World = World(
    call: (Kind, MethodRef, seq<Value>, Heap) -> CallResult,
    alloc: (string, Heap) -> CallResult,
    plain: (nat, map<nat, Value>, Heap) -> PlainResult,
    choose: (nat, map<nat, Value>, Heap) -> nat,
    catches: (string, Value, Heap) -> bool)

  /** `result` is there only between a call that returns a value and the next instruction. */
  datatype Data = Data(regs: map<nat, Value>, heap: Heap, result: Option<Value>, exc: Value) {
    function Reg(r: nat): Value { if r in regs then regs[r] else 0 }

    function With(r: nat, v: Value): Data { this.(regs := regs[r := v], result := None) }
  }

  datatype Flow = Fall | Jump(to: int) | Raise(exc: Value) | Leave(value: Value)

  function Args(d: Data, regs: seq<nat>): seq<Value> {
    seq(|regs|, i requires 0 <= i < |regs| => d.Reg(regs[i]))
  }

  function AfterCall(d: Data, r: CallResult, void: bool): (Data, Flow) {
    match r
    case Returned(v, h) => (d.(heap := h, result := if void then None else Some(v)), Fall)
    case Threw(e, h) => (d.(heap := h, result := None), Raise(e))
  }

  /** What one instruction does, wherever it stands. */
  function Exec(w: World, i: Instr, d: Data): (Data, Flow) {
    match i
    case Invoke35c(k, _, _, _, _, _, _, m) => AfterCall(d, w.call(k, m, Args(d, ArgRegs(i)), d.heap), m.ret == "V")
    case Invoke3rc(k, _, _, m) => AfterCall(d, w.call(k, m, Args(d, ArgRegs(i)), d.heap), m.ret == "V")
    case MoveResultObject(r) => (d.With(r, if d.result.Some? then d.result.value else 0), Fall)
    case MoveException(r) => (d.With(r, d.exc), Fall)
    case IfNez(r, to) => (d.(result := None), if d.Reg(r) != 0 then Jump(to) else Fall)
    case NewInstance(r, c) =>
      (match w.alloc(c, d.heap)
       case Returned(v, h) => (d.With(r, v).(heap := h), Fall)
       case Threw(e, h) => (d.(heap := h, result := None), Raise(e)))
    case Throw(r) => (d.(result := None), Raise(d.Reg(r)))
    case Return(r) => (d.(result := None), Leave(d.Reg(r)))
    case Plain(op, _) =>
      (match w.plain(op, d.regs, d.heap)
       case Computed(regs, h) => (d.(regs := regs, heap := h, result := None), Fall)
       case Failed(e, h) => (d.(heap := h, result := None), Raise(e)))
    case Branch(op, _, targets) =>
      var n := w.choose(op, d.regs, d.heap);
      (d.(result := None), if n < |targets| then Jump(targets[n]) else Fall)
  }

  /** An exception handler: a type (or none, which catches everything) and where it starts. */
  datatype Handler = Handler(cls: Option<string>, at: int)

  /** A try range `from ..< to` with its handlers in order. */
  datatype Try = Try(from: int, to: int, handlers: seq<Handler>)

  predicate Catches(w: World, handler: Handler, exc: Value, h: Heap) {
    handler.cls.Some? ==> w.catches(handler.cls.value, exc, h)
  }

  /** The first handler that catches the exception. */
  function FindHandler(w: World, hs: seq<Handler>, exc: Value, h: Heap): Option<int> {
    if hs == [] then None
    else if hs[0].cls.None? || w.catches(hs[0].cls.value, exc, h) then Some(hs[0].at)
    else FindHandler(w, hs[1..], exc, h)
  }

  lemma {:induction false} HandlerChosen(w: World, hs: seq<Handler>, exc: Value, h: Heap)
    ensures match FindHandler(w, hs, exc, h)
            case None => forall k | 0 <= k < |hs| :: !Catches(w, hs[k], exc, h)
            case Some(at) =>
              exists k | 0 <= k < |hs| ::
                hs[k].at == at && Catches(w, hs[k], exc, h) && forall j | 0 <= j < k :: !Catches(w, hs[j], exc, h)
  {
    if hs == [] || Catches(w, hs[0], exc, h) {
    } else {
      HandlerChosen(w, hs[1..], exc, h);
      if FindHandler(w, hs[1..], exc, h).Some? {
        var k :| 0 <= k < |hs[1..]| && hs[1..][k].at == FindHandler(w, hs, exc, h).value
                 && Catches(w, hs[1..][k], exc, h) && forall j | 0 <= j < k :: !Catches(w, hs[1..][j], exc, h);
        assert forall j | 0 < j < k + 1 :: hs[j] == hs[1..][j - 1];
        assert hs[k + 1] == hs[1..][k];
      }
    }
  }

  /** The first range that covers the position decides. */
  function FindTry(w: World, ts: seq<Try>, pos: int, exc: Value, h: Heap): Option<int> {
    if ts == [] then None
    else if ts[0].from <= pos < ts[0].to then FindHandler(w, ts[0].handlers, exc, h)
    else FindTry(w, ts[1..], pos, exc, h)
  }

  lemma {:induction false} TryChosen(w: World, ts: seq<Try>, pos: int, exc: Value, h: Heap)
    ensures var r := FindTry(w, ts, pos, exc, h);
            || (r.None? && forall k | 0 <= k < |ts| :: !(ts[k].from <= pos < ts[k].to))
            || exists k | 0 <= k < |ts| ::
                 && r == FindHandler(w, ts[k].handlers, exc, h) && ts[k].from <= pos < ts[k].to
                 && forall j | 0 <= j < k :: !(ts[j].from <= pos < ts[j].to)
  {
    if ts == [] || ts[0].from <= pos < ts[0].to {
    } else {
      hide FindHandler;
      TryChosen(w, ts[1..], pos, exc, h);
      if k :| && 0 <= k < |ts[1..]| && FindTry(w, ts, pos, exc, h) == FindHandler(w, ts[1..][k].handlers, exc, h)
              && ts[1..][k].from <= pos < ts[1..][k].to
              && forall j | 0 <= j < k :: !(ts[1..][j].from <= pos < ts[1..][j].to) {
        assert forall j | 0 < j < k + 1 :: ts[j] == ts[1..][j - 1];
        assert ts[k + 1] == ts[1..][k];
      }
    }
  }

  datatype State =
    | Running(pc: int, data: Data)
    | Finished(value: Value, heap: Heap)
    | Escaped(exc: Value, heap: Heap)
    | Stuck

  /** Where control goes after an instruction at `pc`, given where the next one is and how its jump
      operand is read. */
  function Goes(w: World, tries: seq<Try>, pc: int, next: int, jump: int -> int, d: Data, flow: Flow): State {
    match flow
    case Fall => Running(next, d)
    case Jump(to) => Running(jump(to), d)
    case Leave(v) => Finished(v, d.heap)
    case Raise(e) =>
      var h := FindTry(w, tries, pc, e, d.heap);
      if h.Some? then Running(h.value, d.(exc := e)) else Escaped(e, d.heap)
  }

  /** A handler finds the exception that was raised, with all else as it was; without one it leaves the
      method, as a returned value does. */
  lemma Leaves(w: World, tries: seq<Try>, pc: int, next: int, jump: int -> int, d: Data, e: Value, r: nat)
    ensures match Goes(w, tries, pc, next, jump, d, Raise(e))
            case Running(at, d') =>
              && FindTry(w, tries, pc, e, d.heap) == Some(at) && d'.regs == d.regs && d'.heap == d.heap
              && Exec(w, MoveException(r), d').0.Reg(r) == e
            case s => s == Escaped(e, d.heap) && FindTry(w, tries, pc, e, d.heap).None?
    ensures var (d', flow) := Exec(w, Return(r), d);
            Goes(w, tries, pc, next, jump, d', flow) == Finished(d.Reg(r), d.heap)
  {}
}
