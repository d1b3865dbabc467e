/** The two forms of a method body: stored, with code-unit addresses and offsets, as the rewriting tools
    see it, and labelled, with instruction indices, as the inserting tools do. Run side by side they are in
    the same state at the same instruction. */
module DexForms {
  import opened DexMachine
  import Stored = DexRewrite
  import Labelled = DexInsert

  /** Every instruction takes room. */
  predicate Sized(code: seq<Instr>) { forall i | 0 <= i < |code| :: Units(code[i]) > 0 }

  /** Index `i` is the position of the address. */
  predicate Names(code: seq<Instr>, i: int, addr: int) { 0 <= i <= |code| && Stored.Address(code, i) == addr }

  /** The same instruction: a jump's target is the one that its offset leads to from index `i`. */
  predicate SameInstr(code: seq<Instr>, i: nat, stored: Instr, labelled: Instr)
    requires i < |code|
  {
    var here := Stored.Address(code, i);
    match stored
    case IfNez(reg, off) => labelled.IfNez? && labelled.reg == reg && Names(code, labelled.to, here + off)
    case Branch(op, units, offs) =>
      && labelled.Branch? && labelled.op == op && |labelled.targets| == |offs|
      && forall k | 0 <= k < |offs| :: Names(code, labelled.targets[k], here + offs[k])
    case _ => labelled == stored
  }

  predicate SameHandlers(code: seq<Instr>, stored: seq<Handler>, labelled: seq<Handler>) {
    && |stored| == |labelled|
    && forall k | 0 <= k < |stored| ::
         stored[k].cls == labelled[k].cls && Names(code, labelled[k].at, stored[k].at)
  }

  predicate SameTries(code: seq<Instr>, stored: seq<Try>, labelled: seq<Try>) {
    && |stored| == |labelled|
    && forall k | 0 <= k < |stored| ::
         && Names(code, labelled[k].from, stored[k].from) && Names(code, labelled[k].to, stored[k].to)
         && SameHandlers(code, stored[k].handlers, labelled[k].handlers)
  }

  predicate SameBody(b: Stored.Body, a: Labelled.Body) {
    && Sized(b.code) && |a.code| == |b.code| && SameTries(b.code, b.tries, a.tries)
    && forall i | 0 <= i < |b.code| :: SameInstr(b.code, i, b.code[i], a.code[i])
  }

  predicate SameState(code: seq<Instr>, stored: State, labelled: State) {
    if labelled.Running? then stored.Running? && stored.data == labelled.data && Names(code, labelled.pc, stored.pc)
    else stored == labelled
  }

  // ---------------------------------------------------------------- addresses

  lemma {:induction false} AddressesGrow(code: seq<Instr>, i: nat, j: nat)
    requires Sized(code) && i < j <= |code|
    ensures Stored.Address(code, i) < Stored.Address(code, j)
  {
    if i + 1 == j {
    } else {
      AddressesGrow(code, i, j - 1);
    }
  }

  /** Positions are ordered as their addresses are. */
  lemma SameOrder(code: seq<Instr>, i: nat, j: nat)
    requires Sized(code) && i <= |code| && j <= |code|
    ensures i <= j <==> Stored.Address(code, i) <= Stored.Address(code, j)
  {
    if i < j {
      AddressesGrow(code, i, j);
    } else if j < i {
      AddressesGrow(code, j, i);
    }
  }

  lemma {:induction false} NothingAtEnd(code: seq<Instr>)
    requires Sized(code)
    ensures Stored.Fetch(code, Stored.Address(code, |code|)).None?
  {
    if code == [] {
    } else {
      NothingAtEnd(code[1..]);
      Stored.AddressShift(code, |code|);
      AddressesGrow(code, 0, |code|);
    }
  }

  // ---------------------------------------------------------------- handlers

  lemma {:induction false} HandlerFound(
      w: World, code: seq<Instr>, stored: seq<Handler>, labelled: seq<Handler>, exc: Value, h: Heap)
    requires SameHandlers(code, stored, labelled)
    ensures var (x, y) := (FindHandler(w, stored, exc, h), FindHandler(w, labelled, exc, h));
            if y.Some? then x.Some? && Names(code, y.value, x.value) else x.None?
  {
    hide Names;
    if stored == [] {
    } else {
      HandlerFound(w, code, stored[1..], labelled[1..], exc, h);
    }
  }

  lemma {:induction false} TryFound(
      w: World, code: seq<Instr>, stored: seq<Try>, labelled: seq<Try>, i: nat, exc: Value, h: Heap)
    requires Sized(code) && SameTries(code, stored, labelled) && i <= |code|
    ensures var (x, y) := (FindTry(w, stored, Stored.Address(code, i), exc, h), FindTry(w, labelled, i, exc, h));
            if y.Some? then x.Some? && Names(code, y.value, x.value) else x.None?
  {
    if stored == [] {
    } else {
      hide FindHandler, SameHandlers, Stored.Address;
      TryFound(w, code, stored[1..], labelled[1..], i, exc, h);
      HandlerFound(w, code, stored[0].handlers, labelled[0].handlers, exc, h);
      SameOrder(code, labelled[0].from, i);
      SameOrder(code, labelled[0].to, i);
    }
  }

  // ---------------------------------------------------------------- steps

  /** One instruction does the same in both forms, and jumps to the same place. */
  lemma SameExec(w: World, code: seq<Instr>, i: nat, stored: Instr, labelled: Instr, d: Data)
    requires i < |code| && SameInstr(code, i, stored, labelled)
    ensures var (x, y) := (Exec(w, stored, d), Exec(w, labelled, d));
            && x.0 == y.0
            && if y.1.Jump? then x.1.Jump? && Names(code, y.1.to, Stored.Address(code, i) + x.1.to) else x.1 == y.1
  {
    hide Names, Stored.Address;
    if stored.Branch? {
      var k := w.choose(stored.op, d.regs, d.heap);
      if k < |stored.targets| {
        assert Names(code, labelled.targets[k], Stored.Address(code, i) + stored.targets[k]);
      }
    }
  }

  lemma SameStep(w: World, b: Stored.Body, a: Labelled.Body, s: State, t: State)
    requires SameBody(b, a) && SameState(b.code, s, t)
    ensures SameState(b.code, Stored.Step(w, b, s), Labelled.Step(w, a, t))
  {
    hide Exec, FindTry, SameInstr, SameTries, Stored.Fetch;
    if t.Running? {
      var i := t.pc;
      if i == |b.code| {
        NothingAtEnd(b.code);
      } else {
        var (d, flow) := Exec(w, a.code[i], t.data);
        Stored.FetchAddress(b.code, i);
        SameExec(w, b.code, i, b.code[i], a.code[i], t.data);
        if flow.Raise? { TryFound(w, b.code, b.tries, a.tries, i, flow.exc, d.heap); }
      }
    }
  }

  /** Run side by side, the two forms of a body are in the same state after any number of steps, at the
      same instruction. */
  lemma {:induction false} SameRun(w: World, b: Stored.Body, a: Labelled.Body, s: State, t: State, n: nat)
    requires SameBody(b, a) && SameState(b.code, s, t)
    ensures SameState(b.code, Stored.Run(w, b, s, n), Labelled.Run(w, a, t, n))
  {
    if n == 0 {
    } else {
      SameRun(w, b, a, s, t, n - 1);
      hide SameBody, SameState, Stored.Step, Labelled.Step;
      SameStep(w, b, a, Stored.Run(w, b, s, n - 1), Labelled.Run(w, a, t, n - 1));
    }
  }
}
