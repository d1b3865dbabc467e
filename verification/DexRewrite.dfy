/** The two tools that replace interface calls by static helper calls, DexRewrite (format 35c) and
    FwRewrite (format 3rc): every address and register stays, so the rewritten method runs in lock step
    with the original whenever the helpers do what the interface methods did. */
module DexRewrite {
  import opened DexMachine

  datatype Tool = AppTool | FrameworkTool

  const WL_PROXY := "Lwestlake/WlProxy;"
  const OBJECT := "Ljava/lang/Object;"
  const ACTIVITY_MANAGER := "Landroid/app/IActivityManager;"
  const AMS_BRIDGE := "Landroid/app/WlAmsBridge;"

  const EXPECTED_FRAMEWORK_SITES := 6

  // ---------------------------------------------------------------- which calls are replaced by which

  function AppHelperName(m: MethodRef): Option<string> {
    if m.cls == "Lq6/b;" && m.name == "b" then Some("svcB")
    else if m.cls == "Lq6/b;" && m.name == "a" then Some("svcA")
    else if m.cls == "Lg9/f;" && m.name == "value" then Some("annValue")
    else None
  }

  function AppHelperRef(name: string): MethodRef {
    if name == "annValue" then MethodRef(WL_PROXY, name, [OBJECT], "Ljava/lang/String;")
    else MethodRef(WL_PROXY, name, [OBJECT, OBJECT], OBJECT)
  }

  /** The static helper that stands in for an interface method, if the tool replaces it. A framework
      helper takes the receiver as an extra first parameter. */
  function HelperFor(tool: Tool, m: MethodRef): Option<MethodRef> {
    if tool.AppTool? then
      var name := AppHelperName(m);
      if name.None? then None else Some(AppHelperRef(name.value))
    else if m.cls == ACTIVITY_MANAGER &&
            (m.name == "registerReceiverWithFeature" || m.name == "getIntentSenderWithFeature")
    then Some(MethodRef(AMS_BRIDGE, m.name, [ACTIVITY_MANAGER] + m.params, m.ret))
    else None
  }

  predicate IsSite(tool: Tool, i: Instr) {
    && (if tool.AppTool? then i.Invoke35c? else i.Invoke3rc?)
    && i.kind.Interface? && HelperFor(tool, i.target).Some?
  }

  function Rewritten(tool: Tool, i: Instr): (r: Instr)
    ensures Units(r) == Units(i)
    ensures IsSite(tool, i) ==> (r.Invoke35c? || r.Invoke3rc?) && ArgRegs(r) == ArgRegs(i)
    ensures !IsSite(tool, r)
  {
    if !IsSite(tool, i) then i
    else i.(kind := Static, target := HelperFor(tool, i.target).value)
  }

  /** What each argument register of a call holds, as the method named in it declares: the receiver of a
      call that has one, then the parameters. */
  function Declared(i: Instr): seq<string>
    requires i.Invoke35c? || i.Invoke3rc?
  {
    if i.kind.Static? then i.target.params else [i.target.cls] + i.target.params
  }

  /** A range call of one of two methods of the activity manager's interface. */
  predicate ManagerCall(i: Instr) {
    && i.Invoke3rc? && i.kind.Interface? && i.target.cls == "Landroid/app/IActivityManager;"
    && i.target.name in {"registerReceiverWithFeature", "getIntentSenderWithFeature"}
  }

  /** What the framework tool makes of an instruction: such a call becomes the static call of the bridge's
      method of that name, with the same registers, which takes the manager first; all else stays. */
  predicate Bridged(i: Instr, r: Instr) {
    if ManagerCall(i) then
      && r.Invoke3rc? && r.kind.Static? && r.start == i.start && r.count == i.count
      && r.target.cls == "Landroid/app/WlAmsBridge;" && r.target.name == i.target.name && r.target.ret == i.target.ret
      && Declared(r) == Declared(i)
    else r == i
  }

  lemma FrameworkCalls(i: Instr)
    ensures IsSite(FrameworkTool, i) <==> ManagerCall(i)
    ensures Bridged(i, Rewritten(FrameworkTool, i))
  {}

  /** A call of one of two methods of one interface, or of one method of another. */
  predicate ServiceCall(i: Instr) {
    && i.Invoke35c? && i.kind.Interface?
    && (if i.target.cls == "Lq6/b;" then i.target.name in {"a", "b"}
        else i.target.cls == "Lg9/f;" && i.target.name == "value")
  }

  /** What the app tool makes of an instruction: such a call becomes the static call of that method's own
      helper, with the same registers; all else stays. The helper takes as many arguments as are passed
      exactly if the method takes the number expected of it. */
  predicate Helped(i: Instr, r: Instr) {
    if ServiceCall(i) then
      && r.Invoke35c? && r == Invoke35c(Static, i.count, i.c, i.d, i.e, i.f, i.g, r.target)
      && r.target.cls == "Lwestlake/WlProxy;"
      && r.target.name == (if i.target.name == "b" then "svcB" else if i.target.name == "a" then "svcA" else "annValue")
      && r.target.ret == (if i.target.name == "value" then "Ljava/lang/String;" else "Ljava/lang/Object;")
      && (forall k | 0 <= k < |r.target.params| :: r.target.params[k] == "Ljava/lang/Object;")
      && (|Declared(r)| == |Declared(i)| <==> |i.target.params| == if i.target.name == "value" then 0 else 1)
    else r == i
  }

  lemma AppCalls(i: Instr)
    ensures IsSite(AppTool, i) <==> ServiceCall(i)
    ensures Helped(i, Rewritten(AppTool, i))
  {}

  /** The values that a call passes: those of consecutive registers, or of up to five in order. */
  lemma CallArgs(d: Data, i: Instr, k: nat)
    requires (i.Invoke3rc? || (i.Invoke35c? && i.count <= 5)) && k < i.count
    ensures |Args(d, ArgRegs(i))| == i.count
    ensures Args(d, ArgRegs(i))[k] ==
            d.Reg(if i.Invoke3rc? then i.start + k
                  else if k == 0 then i.c else if k == 1 then i.d else if k == 2 then i.e
                  else if k == 3 then i.f else i.g)
  {}

  function AllRewritten(tool: Tool, code: seq<Instr>): (r: seq<Instr>)
    ensures |r| == |code| && forall k | 0 <= k < |code| :: r[k] == Rewritten(tool, code[k])
  {
    if code == [] then [] else AllRewritten(tool, code[..|code| - 1]) + [Rewritten(tool, code[|code| - 1])]
  }

  function Sites(tool: Tool, code: seq<Instr>): nat {
    if code == [] then 0
    else Sites(tool, code[..|code| - 1]) + if IsSite(tool, code[|code| - 1]) then 1 else 0
  }

  // ---------------------------------------------------------------- stored bodies, run by address

  /** A debug item: an address and what it says about it. */
  datatype DebugItem = DebugItem(addr: nat, what: nat)

  datatype Body = Body(registers: nat, code: seq<Instr>, tries: seq<Try>, debug: seq<DebugItem>)

  /** Code-unit address of an instruction. */
  function Address(code: seq<Instr>, i: nat): nat
    requires i <= |code|
  {
    if i == 0 then 0 else Address(code, i - 1) + Units(code[i - 1])
  }

  /** The instruction that starts at a code-unit address. */
  function Fetch(code: seq<Instr>, addr: int): Option<Instr> {
    if code == [] || addr < 0 then None
    else if addr == 0 then Some(code[0])
    else Fetch(code[1..], addr - Units(code[0]))
  }

  /** At the address of an instruction there is that instruction; none has size 0. */
  lemma {:induction false} FetchAddress(code: seq<Instr>, i: nat)
    requires i < |code| && forall k | 0 <= k < |code| :: Units(code[k]) > 0
    ensures Fetch(code, Address(code, i)) == Some(code[i])
  {
    if i == 0 {
    } else {
      AddressShift(code, i);
      FetchAddress(code[1..], i - 1);
    }
  }

  lemma {:induction false} AddressShift(code: seq<Instr>, i: nat)
    requires 0 < i <= |code|
    ensures Address(code, i) == Units(code[0]) + Address(code[1..], i - 1)
  {
    if i == 1 {
    } else {
      AddressShift(code, i - 1);
    }
  }

  function Step(w: World, b: Body, s: State): State {
    if !s.Running? then s
    else
      var i := Fetch(b.code, s.pc);
      if i.None? then Stuck
      else
        var (d, flow) := Exec(w, i.value, s.data);
        Goes(w, b.tries, s.pc, s.pc + Units(i.value), (off: int) => s.pc + off, d, flow)
  }

  function Run(w: World, b: Body, s: State, n: nat): State {
    if n == 0 then s else Step(w, b, Run(w, b, s, n - 1))
  }

  function RewrittenBody(tool: Tool, b: Body): Body { b.(code := AllRewritten(tool, b.code)) }

  // ---------------------------------------------------------------- what the rewrite preserves

  /** Every instruction keeps its address, so that branch offsets, try ranges and debug items keep
      naming the same instructions. */
  lemma {:induction false} AddressesKept(tool: Tool, code: seq<Instr>, i: nat)
    requires i <= |code|
    ensures Address(AllRewritten(tool, code), i) == Address(code, i)
  {
    if i == 0 {
    } else {
      AddressesKept(tool, code, i - 1);
    }
  }

  lemma {:induction false} FetchRewritten(tool: Tool, code: seq<Instr>, addr: int)
    ensures Fetch(AllRewritten(tool, code), addr) ==
            (match Fetch(code, addr) case None => None case Some(i) => Some(Rewritten(tool, i)))
    decreases |code|
  {
    if code == [] || addr <= 0 {
    } else {
      FetchRewritten(tool, code[1..], addr - Units(code[0]));
      assert AllRewritten(tool, code)[1..] == AllRewritten(tool, code[1..]);
    }
  }

  /** The helpers do what the interface calls they replace did, on the same arguments, receiver first:
      same effect, same value, same exceptions (the one for a null receiver included). */
  ghost predicate HelpersFaithful(w: World, tool: Tool) {
    forall m: MethodRef, args: seq<Value>, h: Heap | HelperFor(tool, m).Some? ::
      w.call(Static, HelperFor(tool, m).value, args, h) == w.call(Interface, m, args, h)
  }

  /** No helper returns a value where the method it replaces returns none, or the other way round. */
  predicate SameVoidness(tool: Tool, m: MethodRef) {
    HelperFor(tool, m).Some? ==> (HelperFor(tool, m).value.ret == "V" <==> m.ret == "V")
  }

  lemma ExecRewritten(w: World, tool: Tool, i: Instr, d: Data)
    requires HelpersFaithful(w, tool)
    requires IsSite(tool, i) ==> SameVoidness(tool, i.target)
    ensures Exec(w, Rewritten(tool, i), d) == Exec(w, i, d)
  {}

  /** The condition is needed: a call that returns leaves a result behind exactly if the method named in
      it is not void, so that a replaced call runs as before exactly if the helper is as void. */
  lemma ExecRewrittenIff(w: World, tool: Tool, i: Instr, d: Data)
    requires HelpersFaithful(w, tool) && IsSite(tool, i)
    requires w.call(Interface, i.target, Args(d, ArgRegs(i)), d.heap).Returned?
    ensures Exec(w, Rewritten(tool, i), d) == Exec(w, i, d) <==> SameVoidness(tool, i.target)
  {
    var r := Rewritten(tool, i);
    assert Args(d, ArgRegs(r)) == Args(d, ArgRegs(i));
    assert r.target == HelperFor(tool, i.target).value;
    var v := w.call(Interface, i.target, Args(d, ArgRegs(i)), d.heap);
    assert w.call(Static, r.target, Args(d, ArgRegs(r)), d.heap) == v;
    assert Exec(w, r, d) == AfterCall(d, v, r.target.ret == "V");
    assert Exec(w, i, d) == AfterCall(d, v, i.target.ret == "V");
  }

  ghost predicate VoidnessKept(tool: Tool, b: Body) {
    forall k | 0 <= k < |b.code| && IsSite(tool, b.code[k]) :: SameVoidness(tool, b.code[k].target)
  }

  lemma {:induction false} FetchIn(code: seq<Instr>, addr: int) returns (k: nat)
    requires Fetch(code, addr).Some?
    ensures k < |code| && code[k] == Fetch(code, addr).value
    decreases |code|
  {
    if addr == 0 {
      k := 0;
    } else {
      k := FetchIn(code[1..], addr - Units(code[0]));
      k := k + 1;
    }
  }

  lemma StepRewritten(w: World, tool: Tool, b: Body, s: State)
    requires HelpersFaithful(w, tool) && VoidnessKept(tool, b)
    ensures Step(w, RewrittenBody(tool, b), s) == Step(w, b, s)
  {
    if s.Running? {
      FetchRewritten(tool, b.code, s.pc);
      var i := Fetch(b.code, s.pc);
      if i.Some? {
        var k := FetchIn(b.code, s.pc);
        ExecRewritten(w, tool, i.value, s.data);
      }
    }
  }

  /** For every method body, state and number of steps, the rewritten method is in the same state as
      the original: a lock-step simulation, through branches, calls, exceptions and returns. */
  lemma {:induction false} LockStep(w: World, tool: Tool, b: Body, s: State, n: nat)
    requires HelpersFaithful(w, tool) && VoidnessKept(tool, b)
    ensures Run(w, RewrittenBody(tool, b), s, n) == Run(w, b, s, n)
  {
    if n == 0 {
    } else {
      LockStep(w, tool, b, s, n - 1);
      StepRewritten(w, tool, b, Run(w, b, s, n - 1));
    }
  }

  /** The framework tool keeps every return type, so it needs no condition on the bodies. */
  lemma FrameworkKeepsVoidness(b: Body)
    ensures VoidnessKept(FrameworkTool, b)
  {}

  // ---------------------------------------------------------------- the loops

  method RewriteBody(tool: Tool, b: Body) returns (out: Body, patched: nat)
    ensures out == RewrittenBody(tool, b) && patched == Sites(tool, b.code)
    ensures patched == 0 ==> out == b
  {
    var code: seq<Instr> := [];
    patched := 0;
    for k := 0 to |b.code|
      invariant code == AllRewritten(tool, b.code[..k]) && patched == Sites(tool, b.code[..k])
    {
      var i := b.code[k];
      assert b.code[..k + 1][..k] == b.code[..k];
      if IsSite(tool, i) {
        code := code + [i.(kind := Static, target := HelperFor(tool, i.target).value)];
        patched := patched + 1;
      } else {
        code := code + [i];
      }
    }
    assert b.code[..|b.code|] == b.code;
    NoSiteNoChange(tool, b.code);
    out := if patched == 0 then b else b.(code := code);
  }

  lemma {:induction false} NoSiteNoChange(tool: Tool, code: seq<Instr>)
    ensures Sites(tool, code) == 0 ==> AllRewritten(tool, code) == code
  {
    if code == [] {
    } else {
      NoSiteNoChange(tool, code[..|code| - 1]);
    }
  }

  lemma {:induction false} NoSitesLeft(tool: Tool, code: seq<Instr>)
    ensures Sites(tool, AllRewritten(tool, code)) == 0
  {
    if code == [] {
    } else {
      NoSitesLeft(tool, code[..|code| - 1]);
      assert AllRewritten(tool, code)[..|code| - 1] == AllRewritten(tool, code[..|code| - 1]);
    }
  }

  /** A dex file as the tools see it: the bodies of its methods, abstract methods having none. */
  type File = seq<Option<Body>>

  function FileSites(tool: Tool, file: File): nat {
    if file == [] then 0
    else
      var last := file[|file| - 1];
      FileSites(tool, file[..|file| - 1]) + if last.Some? then Sites(tool, last.value.code) else 0
  }

  function RewrittenFile(tool: Tool, file: File): (r: File)
    ensures |r| == |file|
    ensures forall k | 0 <= k < |file| ::
              r[k] == if file[k].Some? then Some(RewrittenBody(tool, file[k].value)) else None
  {
    seq(|file|, k requires 0 <= k < |file| =>
      if file[k].Some? then Some(RewrittenBody(tool, file[k].value)) else None)
  }

  /** Registers, try ranges and debug items stay, and every instruction is bridged. */
  ghost predicate FileBridged(m: Option<Body>, r: Option<Body>) {
    if m.None? then r.None?
    else
      && r.Some? && r.value.registers == m.value.registers && r.value.tries == m.value.tries
      && r.value.debug == m.value.debug && |r.value.code| == |m.value.code|
      && forall k | 0 <= k < |m.value.code| :: Bridged(m.value.code[k], r.value.code[k])
  }

  lemma BodyBridged(m: Option<Body>)
    ensures FileBridged(m, if m.Some? then Some(RewrittenBody(FrameworkTool, m.value)) else None)
  {
    if m.Some? {
      hide Bridged;
      forall k | 0 <= k < |m.value.code|
        ensures Bridged(m.value.code[k], RewrittenBody(FrameworkTool, m.value).code[k])
      {
        FrameworkCalls(m.value.code[k]);
      }
    }
  }

  /** The framework tool's main loop: it writes a file only if it found exactly the expected sites, and
      then adds the helper's methods to it as they are. */
  method RewriteFramework(file: File, helper: File) returns (written: Option<File>)
    ensures written.Some? <==> FileSites(FrameworkTool, file) == 6
    ensures written.Some? ==> written.value == RewrittenFile(FrameworkTool, file) + helper
    ensures written.Some? ==> forall k | 0 <= k < |file| :: FileBridged(file[k], written.value[k])
  {
    var out: File := [];
    var patched := 0;
    for k := 0 to |file|
      invariant out == RewrittenFile(FrameworkTool, file[..k]) && patched == FileSites(FrameworkTool, file[..k])
    {
      assert file[..k + 1][..k] == file[..k];
      if file[k].Some? {
        var b, n := RewriteBody(FrameworkTool, file[k].value);
        out := out + [Some(b)];
        patched := patched + n;
      } else {
        out := out + [None];
      }
    }
    assert file[..|file|] == file;
    forall k | 0 <= k < |file| ensures FileBridged(file[k], out[k]) { BodyBridged(file[k]); }
    out := out + helper;
    written := if patched == EXPECTED_FRAMEWORK_SITES then Some(out) else None;
  }

  lemma {:induction false} FileSitesLeft(tool: Tool, file: File)
    ensures FileSites(tool, RewrittenFile(tool, file)) == 0
  {
    if file == [] {
    } else {
      var last := file[|file| - 1];
      FileSitesLeft(tool, file[..|file| - 1]);
      assert RewrittenFile(tool, file)[..|file| - 1] == RewrittenFile(tool, file[..|file| - 1]);
      if last.Some? { NoSitesLeft(tool, last.value.code); }
    }
  }

  lemma {:induction false} FileSitesAdd(tool: Tool, file: File, more: File)
    ensures FileSites(tool, file + more) == FileSites(tool, file) + FileSites(tool, more)
  {
    if more == [] {
      assert file + more == file;
    } else {
      FileSitesAdd(tool, file, more[..|more| - 1]);
      assert (file + more)[..|file + more| - 1] == file + more[..|more| - 1];
    }
  }

  /** Running the framework tool on its own output: none of the sites is left in what it rewrote, so that
      the run succeeds only if the helper itself holds the expected number. */
  method RewriteTwice(file: File, helper: File) returns (once: Option<File>, again: Option<File>)
    ensures once.Some? <==> FileSites(FrameworkTool, file) == 6
    ensures again.Some? <==> once.Some? && FileSites(FrameworkTool, helper) == 6
  {
    once := RewriteFramework(file, helper);
    if once.None? {
      return once, None;
    }
    FileSitesLeft(FrameworkTool, file);
    FileSitesAdd(FrameworkTool, RewrittenFile(FrameworkTool, file), helper);
    again := RewriteFramework(once.value, helper);
  }
}
