/** The tools that insert instructions into a method body: PatchProxy and PatchPI (replace a null
    service reference by a proxy) and PatchLog (report every caught exception).

    An edited body names positions by labels, which stay with the instruction they were attached to, so
    here jump targets, try ranges and handlers are instruction indices. A tool's output is an
    *expansion* of its input: the old instructions in order, relabelled, with new code in the gaps. What
    an expansion does is what the old body does plus, on falling into a gap, what the gap does. */
module DexInsert {
  import opened DexMachine

  datatype Body = Body(registers: nat, code: seq<Instr>, tries: seq<Try>)

  function Land(w: World, tries: seq<Try>, pc: int, r: (Data, Flow)): State {
    Goes(w, tries, pc, pc + 1, (to: int) => to, r.0, r.1)
  }

  function Step(w: World, b: Body, s: State): State {
    if !s.Running? then s
    else if !(0 <= s.pc < |b.code|) then Stuck
    else Land(w, b.tries, s.pc, Exec(w, b.code[s.pc], s.data))
  }

  function Run(w: World, b: Body, s: State, n: nat): State {
    if n == 0 then s else Step(w, b, Run(w, b, s, n - 1))
  }

  lemma {:induction false} RunJoin(w: World, b: Body, s: State, m: nat, n: nat)
    ensures Run(w, b, s, m + n) == Run(w, b, Run(w, b, s, m), n)
  {
    hide Step;
    if n == 0 {
    } else {
      RunJoin(w, b, s, m, n - 1);
    }
  }

  // ---------------------------------------------------------------- moving labels

  function Relabel(i: Instr, f: int -> int): Instr {
    match i
    case IfNez(r, to) => IfNez(r, f(to))
    case Branch(op, u, ts) => Branch(op, u, seq(|ts|, k requires 0 <= k < |ts| => f(ts[k])))
    case _ => i
  }

  function RelabelHandlers(hs: seq<Handler>, f: int -> int): seq<Handler> {
    if hs == [] then [] else [hs[0].(at := f(hs[0].at))] + RelabelHandlers(hs[1..], f)
  }

  function RelabelTries(ts: seq<Try>, f: int -> int): seq<Try> {
    if ts == [] then []
    else [Try(f(ts[0].from), f(ts[0].to), RelabelHandlers(ts[0].handlers, f))] + RelabelTries(ts[1..], f)
  }

  function RelabelState(s: State, f: int -> int): State {
    if s.Running? then s.(pc := f(s.pc)) else s
  }

  function Shift(at: int, n: nat): int -> int { (i: int) => if i < at then i else i + n }

  /** Insertion before the instruction at `at`: labels on that instruction and later ones move with
      their instructions. A label in `ins` is already in terms of the new body. */
  function Inserted(b: Body, at: nat, ins: Instr): Body
    requires at < |b.code|
  {
    var f := Shift(at, 1);
    Body(b.registers,
      seq(|b.code| + 1, k requires 0 <= k <= |b.code| =>
        if k < at then Relabel(b.code[k], f) else if k == at then ins else Relabel(b.code[k - 1], f)),
      RelabelTries(b.tries, f))
  }

  // ---------------------------------------------------------------- expansions

  ghost predicate Increasing(f: int -> int) { forall i, j | i < j :: f(i) < f(j) }

  ghost predicate Expanded(a: Body, b: Body, f: int -> int) {
    && Increasing(f) && f(|a.code|) == |b.code| && f(-1) == -1
    && b.registers == a.registers
    && b.tries == RelabelTries(a.tries, f)
    && forall j | 0 <= j < |a.code| :: 0 <= f(j) < |b.code| && b.code[f(j)] == Relabel(a.code[j], f)
  }

  /** Relabelling by `f` and then by `g` is relabelling by `h`. */
  ghost predicate Composed(f: int -> int, g: int -> int, h: int -> int) { forall x :: h(x) == g(f(x)) }

  lemma RelabelTwice(i: Instr, f: int -> int, g: int -> int, h: int -> int)
    requires Composed(f, g, h)
    ensures Relabel(Relabel(i, f), g) == Relabel(i, h)
  {
    if i.Branch? {
      var ts := Relabel(Relabel(i, f), g).targets;
      forall k | 0 <= k < |i.targets| ensures ts[k] == Relabel(i, h).targets[k] {
        var x := i.targets[k];
        assert h(x) == g(f(x));
      }
    }
  }

  lemma {:induction false} HandlersTwice(hs: seq<Handler>, f: int -> int, g: int -> int, h: int -> int)
    requires Composed(f, g, h)
    ensures RelabelHandlers(RelabelHandlers(hs, f), g) == RelabelHandlers(hs, h)
  {
    if hs == [] {
    } else {
      HandlersTwice(hs[1..], f, g, h);
    }
  }

  lemma {:induction false} TriesTwice(ts: seq<Try>, f: int -> int, g: int -> int, h: int -> int)
    requires Composed(f, g, h)
    ensures RelabelTries(RelabelTries(ts, f), g) == RelabelTries(ts, h)
  {
    if ts == [] {
    } else {
      HandlersTwice(ts[0].handlers, f, g, h);
      TriesTwice(ts[1..], f, g, h);
    }
  }

  /** Editing an edited body is one edit. */
  lemma ExpandedTwice(a: Body, b: Body, c: Body, f: int -> int, g: int -> int, h: int -> int)
    requires Expanded(a, b, f) && Expanded(b, c, g)
    requires Composed(f, g, h)
    ensures Expanded(a, c, h)
  {
    TriesTwice(a.tries, f, g, h);
    assert f(-1) == -1 && h(-1) == g(f(-1));
    assert h(|a.code|) == g(f(|a.code|));
    forall j | 0 <= j < |a.code|
      ensures 0 <= h(j) < |c.code| && c.code[h(j)] == Relabel(a.code[j], h)
    {
      RelabelTwice(a.code[j], f, g, h);
      assert h(j) == g(f(j));
    }
  }

  lemma InsertedExpands(b: Body, at: nat, ins: Instr)
    requires at < |b.code|
    ensures Expanded(b, Inserted(b, at, ins), Shift(at, 1))
    ensures |Inserted(b, at, ins).code| == |b.code| + 1
  {
    hide Relabel, RelabelTries, RelabelHandlers;
    var c := Inserted(b, at, ins);
    var f := Shift(at, 1);
    forall j | 0 <= j < |b.code| ensures 0 <= f(j) < |c.code| && c.code[f(j)] == Relabel(b.code[j], f) {
      if j < at { assert f(j) == j; } else { assert f(j) == j + 1; }
    }
  }

  lemma {:induction false} IdentityHandlers(hs: seq<Handler>, f: int -> int)
    requires forall x :: f(x) == x
    ensures RelabelHandlers(hs, f) == hs
  {
    if hs == [] {
    } else {
      IdentityHandlers(hs[1..], f);
    }
  }

  lemma {:induction false} IdentityTries(ts: seq<Try>, f: int -> int)
    requires forall x :: f(x) == x
    ensures RelabelTries(ts, f) == ts
  {
    if ts == [] {
    } else {
      IdentityHandlers(ts[0].handlers, f);
      IdentityTries(ts[1..], f);
    }
  }

  lemma ExpandsItself(b: Body, f: int -> int)
    requires forall x :: f(x) == x
    ensures Expanded(b, b, f)
  {
    IdentityTries(b.tries, f);
    forall j | 0 <= j < |b.code| ensures b.code[f(j)] == Relabel(b.code[j], f) {
      if b.code[j].Branch? { assert Relabel(b.code[j], f).targets == b.code[j].targets; }
    }
  }

  /** Labels, old handlers and old jumps never point into a gap. */
  lemma LabelsMissGaps(a: Body, b: Body, f: int -> int, j: int, at: int)
    requires Expanded(a, b, f) && f(j) < at < f(j + 1)
    ensures forall mark :: f(mark) != at
  {
    forall mark ensures f(mark) != at {
      if mark < j { assert f(mark) < f(j); } else if mark > j + 1 { assert f(j + 1) < f(mark); }
    }
  }

  // ---------------------------------------------------------------- running an expansion

  function RelabelFlow(flow: Flow, f: int -> int): Flow {
    if flow.Jump? then Jump(f(flow.to)) else flow
  }

  lemma ExecRelabelled(w: World, i: Instr, d: Data, f: int -> int)
    ensures Exec(w, Relabel(i, f), d) == (Exec(w, i, d).0, RelabelFlow(Exec(w, i, d).1, f))
  {}

  lemma {:induction false} HandlerRelabelled(w: World, hs: seq<Handler>, exc: Value, h: Heap, f: int -> int)
    ensures FindHandler(w, RelabelHandlers(hs, f), exc, h) ==
            (match FindHandler(w, hs, exc, h) case None => None case Some(at) => Some(f(at)))
  {
    if hs == [] {
    } else {
      HandlerRelabelled(w, hs[1..], exc, h, f);
    }
  }

  /** A gap belongs to the try ranges of the instruction before it. */
  lemma {:induction false} TryRelabelled(w: World, ts: seq<Try>, pc: int, at: int, exc: Value, h: Heap, f: int -> int)
    requires Increasing(f) && f(pc) <= at < f(pc + 1)
    ensures FindTry(w, RelabelTries(ts, f), at, exc, h) ==
            (match FindTry(w, ts, pc, exc, h) case None => None case Some(t) => Some(f(t)))
  {
    if ts == [] {
    } else {
      HandlerRelabelled(w, ts[0].handlers, exc, h, f);
      TryRelabelled(w, ts[1..], pc, at, exc, h, f);
      Covers(f, ts[0].from, pc, at);
      Covers(f, ts[0].to, pc, at);
    }
  }

  lemma Covers(f: int -> int, mark: int, pc: int, at: int)
    requires Increasing(f) && f(pc) <= at < f(pc + 1)
    ensures f(mark) <= at <==> mark <= pc
  {
    if mark < pc { assert f(mark) < f(pc); } else if mark > pc + 1 { assert f(pc + 1) < f(mark); }
  }

  /** One old instruction, in place: it does what it did, except that falling through leads to the gap. */
  lemma StepExpanded(w: World, a: Body, b: Body, f: int -> int, s: State)
    requires Expanded(a, b, f)
    requires s.Running? && 0 <= s.pc < |a.code|
    ensures var (d, flow) := Exec(w, a.code[s.pc], s.data);
            Step(w, b, RelabelState(s, f)) ==
            if flow.Fall? then Running(f(s.pc) + 1, d) else RelabelState(Step(w, a, s), f)
  {
    var (d, flow) := Exec(w, a.code[s.pc], s.data);
    ExecRelabelled(w, a.code[s.pc], s.data, f);
    if flow.Raise? {
      assert f(s.pc) < f(s.pc + 1);
      TryRelabelled(w, a.tries, s.pc, f(s.pc), flow.exc, d.heap, f);
    }
  }

  /** What the gap after an instruction does, on data that falls into it. */
  type Extra = (int, Data) -> (Data, Flow)

  const GAP_STEPS := 5

  ghost predicate GapRun(w: World, a: Body, b: Body, f: int -> int, extra: Extra, pc: int, d: Data, k: nat) {
    Run(w, b, Running(f(pc) + 1, d), k) == RelabelState(Land(w, a.tries, pc, extra(pc, d)), f)
  }

  ghost predicate GapDoes(w: World, a: Body, b: Body, f: int -> int, extra: Extra, pc: int, d: Data) {
    exists k: nat | k <= GAP_STEPS :: GapRun(w, a, b, f, extra, pc, d, k)
  }

  /** Every gap, run from its start, does `extra` with the handlers of the instruction before it, and
      then is at the next old instruction. */
  ghost predicate GapsDo(w: World, a: Body, b: Body, f: int -> int, extra: Extra) {
    forall pc, d | 0 <= pc < |a.code| :: GapDoes(w, a, b, f, extra, pc, d)
  }

  /** The old body with `extra` done after every instruction that falls through. */
  function RefStep(w: World, a: Body, extra: Extra, s: State): State {
    if !s.Running? then s
    else if !(0 <= s.pc < |a.code|) then Stuck
    else
      var r := Exec(w, a.code[s.pc], s.data);
      Land(w, a.tries, s.pc, if r.1.Fall? then extra(s.pc, r.0) else r)
  }

  function RefRun(w: World, a: Body, extra: Extra, s: State, n: nat): State {
    if n == 0 then s else RefStep(w, a, extra, RefRun(w, a, extra, s, n - 1))
  }

  lemma RefStepExpanded(w: World, a: Body, b: Body, f: int -> int, extra: Extra, s: State) returns (k: nat)
    requires Expanded(a, b, f) && GapsDo(w, a, b, f, extra)
    ensures 1 <= k <= 1 + GAP_STEPS
    ensures Run(w, b, RelabelState(s, f), k) == RelabelState(RefStep(w, a, extra, s), f)
  {
    hide Expanded, Exec;
    var s' := RelabelState(s, f);
    assert Run(w, b, s', 1) == Step(w, b, Run(w, b, s', 0));
    if s.Running? && 0 <= s.pc < |a.code| {
      var (d, flow) := Exec(w, a.code[s.pc], s.data);
      StepExpanded(w, a, b, f, s);
      if flow.Fall? {
        assert GapDoes(w, a, b, f, extra, s.pc, d);
        var g: nat :| g <= GAP_STEPS && GapRun(w, a, b, f, extra, s.pc, d, g);
        RunJoin(w, b, s', 1, g);
        k := 1 + g;
      } else {
        k := 1;
      }
    } else {
      k := 1;
      if s.Running? { OutsideStaysOutside(a, b, f, s.pc); }
    }
  }

  lemma OutsideStaysOutside(a: Body, b: Body, f: int -> int, pc: int)
    requires Expanded(a, b, f) && !(0 <= pc < |a.code|)
    ensures !(0 <= f(pc) < |b.code|)
  {
    if pc < -1 { assert f(pc) < f(-1); } else if pc > |a.code| { assert f(|a.code|) < f(pc); }
  }

  /** Every run of the old body with the extras is a run of the expansion. */
  lemma {:induction false} RefRunExpanded(w: World, a: Body, b: Body, f: int -> int, extra: Extra, s: State, n: nat)
    returns (m: nat)
    requires Expanded(a, b, f) && GapsDo(w, a, b, f, extra)
    ensures n <= m <= n * (1 + GAP_STEPS)
    ensures Run(w, b, RelabelState(s, f), m) == RelabelState(RefRun(w, a, extra, s, n), f)
  {
    hide Expanded, GapsDo, Step, RefStep, Land, Exec, RelabelState;
    m := 0;
    if n == 0 {
    } else {
      m := RefRunExpanded(w, a, b, f, extra, s, n - 1);
      var k := RefStepExpanded(w, a, b, f, extra, RefRun(w, a, extra, s, n - 1));
      RunJoin(w, b, RelabelState(s, f), m, k);
      m := m + k;
    }
  }

  /** Every state of the expansion is at most `GAP_STEPS` steps past a state of the old body with the
      extras: the expansion can do nothing else. */
  lemma {:induction false} ExpansionTracksRef(w: World, a: Body, b: Body, f: int -> int, extra: Extra, s: State, m: nat)
    returns (n: nat, k: nat)
    requires Expanded(a, b, f) && GapsDo(w, a, b, f, extra)
    ensures n <= m && k <= GAP_STEPS
    ensures Run(w, b, RelabelState(s, f), m) == Run(w, b, RelabelState(RefRun(w, a, extra, s, n), f), k)
  {
    hide Expanded, GapsDo, Step, RefStep, Land, Exec, RelabelState;
    if m == 0 {
      n, k := 0, 0;
    } else {
      n, k := ExpansionTracksRef(w, a, b, f, extra, s, m - 1);
      var r := RefRun(w, a, extra, s, n);
      var l := RefStepExpanded(w, a, b, f, extra, r);
      if l <= k + 1 {
        RunJoin(w, b, RelabelState(r, f), l, k + 1 - l);
        assert RefRun(w, a, extra, s, n + 1) == RefStep(w, a, extra, r);
        n, k := n + 1, k + 1 - l;
      } else {
        k := k + 1;
      }
    }
  }
}
