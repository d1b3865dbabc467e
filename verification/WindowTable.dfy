/** The table of window sessions: which window a new one is parented to, which main window is in front,
    and a cache of what the window service shows, over a service whose replies are arbitrary. */
module WindowTable {

  datatype OhType = AppMain | Dialog | Toast | Float | InputMethodFloat

  function MapAndroidWindowType(t: int): OhType {
    match t
    case 2003 => Dialog
    case 2008 => Dialog
    case 2038 => Dialog
    case 2005 => Toast
    case 2006 => Float
    case 2011 => InputMethodFloat
    case 2012 => InputMethodFloat
    case _ => AppMain
  }

  /** `parent` is the parent's window id, 0 for none. */
  datatype Entry = Entry(windowId: nat, wmsShown: bool, isMain: bool, parent: nat)

  type Sessions = map<int, Entry>

  /** Calls of the window service that change what it shows. */
  datatype Ipc = AddWindow(windowId: nat) | RemoveWindow(windowId: nat)

  /** `shown` and `used` are the service's: the windows on screen, and all ids it ever gave out. */
  datatype State = State(sessions: Sessions, fg: int, nextId: nat, connected: bool,
                         shown: set<nat>, used: set<nat>, ipc: seq<Ipc>)

  const START := State(map[], -1, 1, false, {}, {}, [])

  const INT_LIMIT := 0x8000_0000
  const UINT_LIMIT := 0x1_0000_0000

  datatype Reply = NoInterface | Rc(code: int)

  /** What connecting finds: no ability manager, no window service, or the service. */
  datatype Lookup = NoManager | NoService | Service

  /** The client can be used with its flag set and a service at hand; a lookup that finds none loses the
      one it had. */
  function ConnectedAfter(connected: bool, found: Lookup): bool {
    match found
    case NoManager => connected
    case NoService => false
    case Service => true
  }

  predicate Ok(r: Reply) { r == Rc(0) }

  // ---------------------------------------------------------------- show and hide

  const NOT_FOUND := -1

  function Added(s: State, w: nat, ok: bool): State {
    s.(ipc := s.ipc + [AddWindow(w)], shown := if ok then s.shown + {w} else s.shown)
  }

  function Removed(s: State, w: nat, ok: bool): State {
    s.(ipc := s.ipc + [RemoveWindow(w)], shown := if ok then s.shown - {w} else s.shown)
  }

  function Show(s: State, sid: int, reply: Reply): (State, int) {
    if sid !in s.sessions then (s, NOT_FOUND)
    else
      var e := s.sessions[sid];
      if e.wmsShown then (s, 0)
      else if !s.connected then (s, -3)
      else if reply.NoInterface? then (s, -4)
      else
        var s1 := Added(s, e.windowId, Ok(reply));
        if !Ok(reply) then (s1, reply.code)
        else
          (s1.(sessions := s.sessions[sid := e.(wmsShown := true)], fg := if e.isMain then sid else s.fg), 0)
  }

  /** Some sub-window of this window is up. */
  ghost predicate ChildUp(sessions: Sessions, w: nat) {
    exists k :: k in sessions && sessions[k].parent == w && sessions[k].wmsShown
  }

  ghost function Hide(s: State, sid: int, reply: Reply): (State, int) {
    if sid !in s.sessions then (s, NOT_FOUND)
    else
      var e := s.sessions[sid];
      if !e.wmsShown then (s, 0)
      else if e.isMain && ChildUp(s.sessions, e.windowId) then (s, 0)
      else if !s.connected then (s, -2)
      else if reply.NoInterface? then (s, -3)
      else
        var s1 := Removed(s, e.windowId, Ok(reply));
        if !Ok(reply) then (s1, reply.code)
        else (s1.(sessions := s.sessions[sid := e.(wmsShown := false)]), 0)
  }

  // ---------------------------------------------------------------- create and destroy

  predicate Eligible(sessions: Sessions, sid: int) {
    sid in sessions && sessions[sid].isMain && sessions[sid].windowId != 0
  }

  /** `p` is the session a new application window is parented to: the front one if it is still a main
      window, else the main window with the highest session id; -1 if there is none. */
  ghost predicate IsParentFor(sessions: Sessions, fg: int, p: int) {
    if fg >= 0 && Eligible(sessions, fg) then p == fg
    else if exists k :: Eligible(sessions, k) && k > -1
    then Eligible(sessions, p) && p > -1 && forall k | Eligible(sessions, k) :: k <= p
    else p == -1
  }

  lemma {:induction false} ParentExists(sessions: Sessions, fg: int, keys: set<int>) returns (p: int)
    requires keys <= sessions.Keys && forall k | Eligible(sessions, k) && k > -1 :: k in keys
    ensures IsParentFor(sessions, fg, p)
    decreases keys
  {
    if fg >= 0 && Eligible(sessions, fg) {
      p := fg;
    } else if !(exists k :: Eligible(sessions, k) && k > -1) {
      p := -1;
    } else {
      p := Highest(sessions, keys);
    }
  }

  lemma {:induction false} Highest(sessions: Sessions, keys: set<int>) returns (p: int)
    requires exists k :: k in keys && Eligible(sessions, k) && k > -1
    ensures Eligible(sessions, p) && p > -1 && forall k | k in keys && Eligible(sessions, k) :: k <= p
    decreases keys
  {
    p :| p in keys && Eligible(sessions, p) && p > -1;
    var rest := keys - {p};
    if exists k :: k in rest && Eligible(sessions, k) && k > -1 {
      var q := Highest(sessions, rest);
      if q > p { p := q; }
    }
  }

  ghost function ParentFor(sessions: Sessions, fg: int): (p: int)
    ensures IsParentFor(sessions, fg, p)
  {
    assert exists q :: IsParentFor(sessions, fg, q) by { var q := ParentExists(sessions, fg, sessions.Keys); }
    var q :| IsParentFor(sessions, fg, q);
    q
  }

  /** What the outside world does during a creation: whether a surface node and the interface could be
      had, the replies of CreateWindow (with the new id) and AddWindow, and the reply for the parent. */
  datatype Creation = Creation(nodeOk: bool, created: Reply, newId: nat, added: Reply, parentShown: Reply)

  /** The session id for a new window: the window's own, where it is a positive 32-bit number, else the
      client's next. */
  function SessionFor(s: State, w: nat): int { if 0 < w < INT_LIMIT then w else s.nextId }

  ghost function ParentSession(s: State, androidType: int): int {
    if MapAndroidWindowType(androidType).AppMain? then ParentFor(s.sessions, s.fg) else -1
  }

  /** The state after an attempt, and whether it made a session. */
  ghost function Create(s: State, androidType: int, o: Creation): (State, bool) {
    if !s.connected then (s, false)
    else
      var p := ParentSession(s, androidType);
      var parent := if p in s.sessions then s.sessions[p].windowId else 0;
      if !o.nodeOk || !Ok(o.created) then (s, false)
      else
        var w := o.newId;
        var s1 := Added(s.(used := s.used + {w}), w, Ok(o.added));
        if !Ok(o.added) then (Removed(s1, w, true), false)
        else
          var s2 := Filed(s1, w, parent);
          (if parent != 0 then Show(s2, p, o.parentShown).0 else s2, true)
  }

  /** The new window enters the table; a main window is then in front. */
  function Filed(s: State, w: nat, parent: nat): State {
    var sid := SessionFor(s, w);
    s.(sessions := s.sessions[sid := Entry(w, true, parent == 0, parent)],
       nextId := if 0 < w < INT_LIMIT then s.nextId else s.nextId + 1,
       fg := if parent != 0 then s.fg else sid)
  }

  /** The service is told about the session id, read as an unsigned number. */
  function Destroy(s: State, sid: int, removed: bool): State {
    var s1 := s.(sessions := s.sessions - {sid});
    if s.connected then Removed(s1, sid % UINT_LIMIT, removed) else s1
  }

  // ---------------------------------------------------------------- runs

  datatype Step =
    | SConnect(found: Lookup)
    | SDisconnect
    | SCreate(androidType: int, o: Creation)
    | SShow(sid: int, reply: Reply)
    | SHide(sid: int, reply: Reply)
    | SDestroy(sid: int, removed: bool)

  /** The service gives out unsigned 32-bit window ids that are not 0 and are new. What is destroyed is a
      session, or at least no other session's shown window under another name. */
  predicate Enabled(s: State, step: Step) {
    match step
    case SCreate(_, o) => 0 < o.newId < UINT_LIMIT && o.newId !in s.used
    case SDestroy(sid, _) => -INT_LIMIT <= sid < INT_LIMIT && !Stray(s, sid)
    case _ => true
  }

  /** Read as unsigned, the number is the shown window of a session that is filed elsewhere. */
  predicate Stray(s: State, sid: int) {
    exists k | k in s.sessions :: k != sid && s.sessions[k].wmsShown && s.sessions[k].windowId == sid % UINT_LIMIT
  }

  ghost function Apply(s: State, step: Step): State {
    match step
    case SConnect(found) => s.(connected := ConnectedAfter(s.connected, found))
    case SDisconnect => s.(sessions := map[], connected := false)
    case SCreate(t, o) => Create(s, t, o).0
    case SShow(sid, r) => Show(s, sid, r).0
    case SHide(sid, r) => Hide(s, sid, r).0
    case SDestroy(sid, removed) => Destroy(s, sid, removed)
  }

  ghost predicate Next(s: State, step: Step, s': State) { Enabled(s, step) && s' == Apply(s, step) }

  ghost predicate Run(states: seq<State>, steps: seq<Step>) {
    && |states| == |steps| + 1 && states[0] == START
    && forall i {:trigger steps[i]} | 0 <= i < |steps| :: Next(states[i], steps[i], states[i + 1])
  }

  // ---------------------------------------------------------------- the invariant

  /** One row: filed under its window id where that is possible; a sub-window exactly if it has a parent;
      and the cache agrees with the service. */
  predicate RowOk(s: State, sid: int) {
    sid in s.sessions ==>
      var e := s.sessions[sid];
      && 0 < sid && 0 < e.windowId < UINT_LIMIT && e.windowId in s.used
      && (e.windowId < INT_LIMIT ==> sid == e.windowId)
      && (e.isMain <==> e.parent == 0)
      && (e.parent != 0 ==> e.parent in s.used)
      && (e.wmsShown <==> e.windowId in s.shown)
  }

  /** Two rows: different windows, and a parent is a main window. */
  predicate PairOk(s: State, k: int, l: int) {
    k in s.sessions && l in s.sessions ==>
      && (k != l ==> s.sessions[k].windowId != s.sessions[l].windowId)
      && (s.sessions[k].parent == s.sessions[l].windowId ==> s.sessions[l].isMain)
  }

  ghost predicate Inv(s: State) {
    && s.shown <= s.used && s.nextId > 0
    && (forall sid :: RowOk(s, sid))
    && (forall k, l :: PairOk(s, k, l))
  }

  /** A step that changes at most the visibility of one row. */
  lemma SameTable(s: State, s': State, sid: int)
    requires Inv(s) && s'.shown <= s'.used && s'.used == s.used && s'.nextId == s.nextId
    requires s'.sessions.Keys == s.sessions.Keys
    requires forall k | k in s.sessions :: s'.sessions[k] == s.sessions[k].(wmsShown := s'.sessions[k].wmsShown)
    requires forall k | k in s.sessions && k != sid ::
               && s'.sessions[k] == s.sessions[k]
               && (s.sessions[k].windowId in s'.shown <==> s.sessions[k].windowId in s.shown)
    requires sid in s.sessions ==> (s'.sessions[sid].wmsShown <==> s.sessions[sid].windowId in s'.shown)
    ensures Inv(s')
  {
    forall k ensures RowOk(s', k) {
      assert RowOk(s, k);
    }
    forall k, l ensures PairOk(s', k, l) {
      assert PairOk(s, k, l);
    }
  }

  lemma ShowInv(s: State, sid: int, r: Reply)
    requires Inv(s)
    ensures Inv(Show(s, sid, r).0)
  {
    assert RowOk(s, sid);
    forall k | k in s.sessions && k != sid && sid in s.sessions
      ensures s.sessions[k].windowId != s.sessions[sid].windowId
    {
      assert PairOk(s, k, sid);
    }
    SameTable(s, Show(s, sid, r).0, sid);
  }

  lemma HideInv(s: State, sid: int, r: Reply)
    requires Inv(s)
    ensures Inv(Hide(s, sid, r).0)
  {
    hide ChildUp;
    assert RowOk(s, sid);
    forall k | k in s.sessions && k != sid && sid in s.sessions
      ensures s.sessions[k].windowId != s.sessions[sid].windowId
    {
      assert PairOk(s, k, sid);
    }
    SameTable(s, Hide(s, sid, r).0, sid);
  }

  /** A new window, shown, whose parent (if any) is a main window of the table. */
  lemma FiledInv(s: State, w: nat, parent: nat)
    requires Inv(s) && 0 < w < UINT_LIMIT && w !in s.used && w !in s.shown
    requires parent != 0 ==> exists p :: p in s.sessions && s.sessions[p].isMain && s.sessions[p].windowId == parent
    ensures Inv(Filed(s.(used := s.used + {w}, shown := s.shown + {w}), w, parent))
  {
    var s' := Filed(s.(used := s.used + {w}, shown := s.shown + {w}), w, parent);
    forall k ensures RowOk(s', k) {
      assert RowOk(s, k);
      if parent != 0 {
        var p :| p in s.sessions && s.sessions[p].isMain && s.sessions[p].windowId == parent;
        assert RowOk(s, p);
      }
    }
    forall k, l ensures PairOk(s', k, l) {
      assert PairOk(s, k, l) && RowOk(s, k) && RowOk(s, l);
      if parent != 0 {
        var p :| p in s.sessions && s.sessions[p].isMain && s.sessions[p].windowId == parent;
        assert RowOk(s, p) && PairOk(s, l, p);
      }
    }
  }

  lemma UsedInv(s: State, w: nat, ipc: seq<Ipc>)
    requires Inv(s) && w !in s.used
    ensures Inv(s.(used := s.used + {w}, shown := s.shown - {w}, ipc := ipc))
  {
    var s' := s.(used := s.used + {w}, shown := s.shown - {w}, ipc := ipc);
    forall k ensures RowOk(s', k) {
      assert RowOk(s, k);
    }
    forall k, l ensures PairOk(s', k, l) {
      assert PairOk(s, k, l);
    }
  }

  lemma CreateInv(s: State, t: int, o: Creation)
    requires Inv(s) && 0 < o.newId < UINT_LIMIT && o.newId !in s.used
    ensures Inv(Create(s, t, o).0)
  {
    assert RowOk(s, -1);
    hide IsParentFor, RowOk, PairOk;
    var p, w := ParentSession(s, t), o.newId;
    if s.connected && o.nodeOk && Ok(o.created) {
      ParentIsMain(s, t);
      if !Ok(o.added) {
        UsedInv(s, w, s.ipc + [AddWindow(w), RemoveWindow(w)]);
        assert Create(s, t, o).0 ==
               s.(used := s.used + {w}, shown := s.shown - {w}, ipc := s.ipc + [AddWindow(w), RemoveWindow(w)]);
      } else {
        var parent := if p in s.sessions then s.sessions[p].windowId else 0;
        var s0 := s.(ipc := s.ipc + [AddWindow(w)]);
        assert Inv(s0) by { LogInv(s, s0.ipc); }
        FiledInv(s0, w, parent);
        ShowInv(Filed(s0.(used := s.used + {w}, shown := s.shown + {w}), w, parent), p, o.parentShown);
      }
    }
  }

  lemma LogInv(s: State, ipc: seq<Ipc>)
    requires Inv(s)
    ensures Inv(s.(ipc := ipc))
  {
    forall k ensures RowOk(s.(ipc := ipc), k) {
      assert RowOk(s, k);
    }
    forall k, l ensures PairOk(s.(ipc := ipc), k, l) {
      assert PairOk(s, k, l);
    }
  }

  lemma ParentIsMain(s: State, t: int)
    ensures var p := ParentSession(s, t); p == -1 || Eligible(s.sessions, p)
  {}

  lemma DestroyInv(s: State, sid: int, removed: bool)
    requires Inv(s) && -INT_LIMIT <= sid < INT_LIMIT && !Stray(s, sid)
    ensures Inv(Destroy(s, sid, removed))
  {
    var s' := Destroy(s, sid, removed);
    forall k ensures RowOk(s', k) {
      assert RowOk(s, k);
    }
    forall k, l ensures PairOk(s', k, l) {
      assert PairOk(s, k, l);
    }
  }

  /** The condition on what is destroyed is exact, and no session id that was ever handed out violates it:
      only a negative number can be, read as unsigned, the window of another session. */
  lemma DestroyKeepsCacheIff(s: State, sid: int)
    requires Inv(s) && s.connected && -INT_LIMIT <= sid < INT_LIMIT
    ensures Stray(s, sid) <==>
            sid < 0 && exists k | k in s.sessions ::
              s.sessions[k].windowId == sid + 0x1_0000_0000 && s.sessions[k].windowId in s.shown
    ensures Inv(Destroy(s, sid, true)) <==> !Stray(s, sid)
  {
    forall k | k in s.sessions && (s.sessions[k].windowId == sid % UINT_LIMIT || sid < 0) ensures RowOk(s, k) {}
    if Stray(s, sid) {
      var k :| k in s.sessions && k != sid && s.sessions[k].wmsShown && s.sessions[k].windowId == sid % UINT_LIMIT;
      assert RowOk(s, k);
      assert !RowOk(Destroy(s, sid, true), k);
    } else {
      DestroyInv(s, sid, true);
    }
  }

  lemma InvStep(s: State, step: Step)
    requires Inv(s) && Enabled(s, step)
    ensures Inv(Apply(s, step))
  {
    hide Create, Show, Hide, Destroy, Stray;
    match step
    case SConnect(_) => ConnectInv(s, Apply(s, step));
    case SDisconnect => ConnectInv(s, Apply(s, step));
    case SCreate(t, o) => CreateInv(s, t, o);
    case SShow(sid, r) => ShowInv(s, sid, r);
    case SHide(sid, r) => HideInv(s, sid, r);
    case SDestroy(sid, removed) => DestroyInv(s, sid, removed);
  }

  lemma ConnectInv(s: State, s': State)
    requires Inv(s) && (s'.sessions == s.sessions || s'.sessions == map[])
    requires s'.used == s.used && s'.shown == s.shown && s'.nextId == s.nextId
    ensures Inv(s')
  {
    forall k ensures RowOk(s', k) {
      assert RowOk(s, k);
    }
    forall k, l ensures PairOk(s', k, l) {
      assert PairOk(s, k, l);
    }
  }

  lemma {:induction false} RunInv(states: seq<State>, steps: seq<Step>, n: nat)
    requires Run(states, steps) && n < |states|
    ensures Inv(states[n])
  {
    if n == 0 {
      assert states[0] == START;
    } else {
      RunInv(states, steps, n - 1);
      hide Inv, Enabled, Apply;
      var step := steps[n - 1];
      assert Next(states[n - 1], step, states[n]);
      InvStep(states[n - 1], step);
    }
  }

  // ---------------------------------------------------------------- the results

  /** Parent links are a forest of depth one: a window has a parent exactly if it is not a main window,
      and a parent in the table is a main window, so that no child has children. */
  lemma ForestOfDepthOne(states: seq<State>, steps: seq<Step>, n: nat, child: int, other: int)
    requires Run(states, steps) && n < |states| && child in states[n].sessions && other in states[n].sessions
    ensures var t := states[n].sessions;
            && (t[child].isMain <==> t[child].parent == 0)
            && (t[child].parent == t[other].windowId ==> t[other].isMain && other != child)
            && (t[child].parent != 0 ==> t[other].parent != t[child].windowId)
  {
    RunInv(states, steps, n);
    var s := states[n];
    assert RowOk(s, child) && PairOk(s, child, other) && PairOk(s, other, child);
  }

  /** The cache is the service's state. */
  lemma CacheIsService(states: seq<State>, steps: seq<Step>, n: nat, sid: int)
    requires Run(states, steps) && n < |states| && sid in states[n].sessions
    ensures states[n].sessions[sid].wmsShown <==> states[n].sessions[sid].windowId in states[n].shown
  {
    RunInv(states, steps, n);
    assert RowOk(states[n], sid);
  }

  predicate AppTyped(step: Step) { step.SCreate? ==> MapAndroidWindowType(step.androidType).AppMain? }

  ghost predicate OneMain(sessions: Sessions) {
    forall a, b | Eligible(sessions, a) && Eligible(sessions, b) :: a == b
  }

  lemma OneMainStep(s: State, step: Step)
    requires Inv(s) && Enabled(s, step) && OneMain(s.sessions) && AppTyped(step)
    ensures OneMain(Apply(s, step).sessions)
  {
    var s' := Apply(s, step);
    match step
    case SCreate(t, o) => OneMainCreate(s, t, o);
    case SShow(sid, r) => assert forall k :: Eligible(s'.sessions, k) ==> Eligible(s.sessions, k);
    case SHide(sid, r) => hide ChildUp; assert forall k :: Eligible(s'.sessions, k) ==> Eligible(s.sessions, k);
    case SDestroy(sid, removed) => assert forall k :: Eligible(s'.sessions, k) ==> Eligible(s.sessions, k);
    case _ =>
  }

  lemma OneMainCreate(s: State, t: int, o: Creation)
    requires Inv(s) && OneMain(s.sessions) && MapAndroidWindowType(t).AppMain?
    ensures OneMain(Create(s, t, o).0.sessions)
  {
    var p, sid := ParentSession(s, t), SessionFor(s, o.newId);
    var s' := Create(s, t, o).0;
    assert RowOk(s, p);
    if Eligible(s.sessions, p) {
      forall k | Eligible(s'.sessions, k) ensures Eligible(s.sessions, k) {}
    } else {
      forall k | Eligible(s'.sessions, k) ensures k == sid {
        assert RowOk(s, k);
        assert k != sid ==> Eligible(s.sessions, k) && k > -1;
      }
    }
  }

  /** While only application windows are created, there is at most one main window at a time: every
      later one is parented to it. */
  lemma {:induction false} AtMostOneMain(states: seq<State>, steps: seq<Step>, n: nat)
    requires Run(states, steps) && n < |states|
    requires forall i | 0 <= i < |steps| :: AppTyped(steps[i])
    ensures OneMain(states[n].sessions)
  {
    if n == 0 {
    } else {
      AtMostOneMain(states, steps, n - 1);
      RunInv(states, steps, n - 1);
      hide Inv, Enabled, Apply, OneMain;
      var step := steps[n - 1];
      assert Next(states[n - 1], step, states[n]);
      OneMainStep(states[n - 1], step);
    }
  }

  // ---------------------------------------------------------------- which window is in front

  /** The step puts this main window on the screen. */
  predicate Rises(s: State, s': State, sid: int) {
    && sid in s'.sessions && s'.sessions[sid].isMain
    && s'.sessions[sid].windowId in s'.shown && s'.sessions[sid].windowId !in s.shown
  }

  ghost predicate OneRises(s: State, s': State) { exists sid :: Rises(s, s', sid) }

  /** `fg` is the main window that was put on the screen last, -1 if none ever was. */
  ghost predicate RoseLast(states: seq<State>, n: nat, fg: int)
    requires n < |states|
  {
    if n == 0 then fg == -1
    else if OneRises(states[n - 1], states[n]) then Rises(states[n - 1], states[n], fg)
    else RoseLast(states, n - 1, fg)
  }

  /** One step: what rises is in front, and nothing else comes there. */
  ghost predicate FrontKept(s: State, s': State) {
    (forall sid | Rises(s, s', sid) :: s'.fg == sid) && (s'.fg != s.fg ==> Rises(s, s', s'.fg))
  }

  lemma ShowFront(s: State, sid: int, r: Reply)
    requires Inv(s)
    ensures FrontKept(s, Show(s, sid, r).0)
  {
    var s' := Show(s, sid, r).0;
    assert RowOk(s, sid);
    forall k | Rises(s, s', k) ensures k == sid {
      assert RowOk(s, k) && PairOk(s, k, sid);
    }
  }

  /** A creation makes a main window, which rises, or else may raise the parent. */
  lemma CreateFront(s: State, t: int, o: Creation)
    requires Inv(s) && 0 < o.newId < UINT_LIMIT && o.newId !in s.used
    ensures FrontKept(s, Create(s, t, o).0)
  {
    var s', p, w := Create(s, t, o).0, ParentSession(s, t), o.newId;
    hide IsParentFor, MapAndroidWindowType;
    ParentIsMain(s, t);
    assert RowOk(s, p);
    forall k | Rises(s, s', k) ensures s'.fg == k {
      assert RowOk(s, k) && PairOk(s, k, p);
    }
  }

  lemma HideFront(s: State, sid: int, r: Reply)
    ensures FrontKept(s, Hide(s, sid, r).0)
  {
    hide ChildUp;
  }

  lemma FrontStep(s: State, step: Step)
    requires Inv(s) && Enabled(s, step)
    ensures FrontKept(s, Apply(s, step))
  {
    match step
    case SCreate(t, o) => CreateFront(s, t, o); hide FrontKept;
    case SShow(sid, r) => ShowFront(s, sid, r); hide FrontKept;
    case SHide(sid, r) => HideFront(s, sid, r); hide FrontKept;
    case _ =>
  }

  /** In every run the client takes for the front window the main window that was put on the screen last,
      be it by its creation, by a show, or as the parent of a new window. */
  lemma {:induction false} FrontRoseLast(states: seq<State>, steps: seq<Step>, n: nat)
    requires Run(states, steps) && n < |states|
    ensures RoseLast(states, n, states[n].fg)
  {
    if n == 0 {
    } else {
      FrontRoseLast(states, steps, n - 1);
      RunInv(states, steps, n - 1);
      hide Inv, Enabled, Apply, Rises;
      var step := steps[n - 1];
      assert Next(states[n - 1], step, states[n]);
      FrontStep(states[n - 1], step);
    }
  }

  /** What a new window's row says, by the Android type and the table alone. */
  lemma NewWindow(s: State, t: int, o: Creation)
    requires Inv(s) && Create(s, t, o).1 && 0 < o.newId < UINT_LIMIT && o.newId !in s.used
    ensures var sid := if o.newId < 0x8000_0000 then o.newId else s.nextId;
            var t' := Create(s, t, o).0.sessions;
            && sid in t' && t'[sid].windowId == o.newId && t'[sid].wmsShown
            && if t in {2003, 2005, 2006, 2008, 2011, 2012, 2038} then t'[sid].isMain && t'[sid].parent == 0
               else if s.fg in s.sessions && s.sessions[s.fg].isMain then
                 !t'[sid].isMain && t'[sid].parent == s.sessions[s.fg].windowId
               else
                 && (t'[sid].isMain <==> forall k | k in s.sessions :: !s.sessions[k].isMain)
                 && forall k | k in s.sessions && s.sessions[k].isMain ::
                      exists p :: && p in s.sessions && s.sessions[p].isMain && k <= p
                                  && t'[sid].parent == s.sessions[p].windowId
  {
    var p := ParentSession(s, t);
    assert RowOk(s, p) && RowOk(s, s.fg);
    forall k | k in s.sessions && s.sessions[k].isMain ensures Eligible(s.sessions, k) && k > -1 {
      assert RowOk(s, k);
    }
  }

  /** The classes of Android's system windows. */
  lemma WindowTypes(t: int)
    ensures MapAndroidWindowType(t).Dialog? <==> t in {2003, 2008, 2038}
    ensures MapAndroidWindowType(t).Toast? <==> t == 2005
    ensures MapAndroidWindowType(t).Float? <==> t == 2006
    ensures MapAndroidWindowType(t).InputMethodFloat? <==> t in {2011, 2012}
  {}

  /** A request calls the service exactly if it asks for a change that the client may make, and then
      once, for that window; so that a repeated request costs nothing. */
  lemma IpcOnlyOnChange(states: seq<State>, steps: seq<Step>, n: nat, sid: int, r: Reply)
    requires Run(states, steps) && n < |states| && sid in states[n].sessions && states[n].connected && r.Rc?
    ensures var s := states[n];
            var e := s.sessions[sid];
            var up := e.windowId in s.shown;
            && Show(s, sid, r).0.ipc == s.ipc + (if up then [] else [AddWindow(e.windowId)])
            && (Ok(r) ==> e.windowId in Show(s, sid, r).0.shown)
            && (Ok(r) ==> Show(Show(s, sid, r).0, sid, r) == (Show(s, sid, r).0, 0))
            && Hide(s, sid, r).0.ipc ==
               s.ipc + (if up && !(e.isMain && ChildUp(s.sessions, e.windowId)) then [RemoveWindow(e.windowId)] else [])
  {
    RunInv(states, steps, n);
    assert RowOk(states[n], sid);
  }

  /** No hide takes a main window off the screen while one of its sub-windows is on it. */
  lemma HideKeepsParentUp(states: seq<State>, steps: seq<Step>, n: nat, child: int, parent: int)
    requires Run(states, steps) && n < |steps| && steps[n].SHide?
    requires child in states[n].sessions && parent in states[n].sessions
    requires states[n].sessions[child].parent == states[n].sessions[parent].windowId
    requires states[n].sessions[child].windowId in states[n].shown
    ensures var w := states[n].sessions[parent].windowId; w in states[n].shown ==> w in states[n + 1].shown
  {
    RunInv(states, steps, n);
    var s := states[n];
    var sid := steps[n].sid;
    assert RowOk(s, child) && RowOk(s, parent) && PairOk(s, child, parent);
    assert Next(s, steps[n], states[n + 1]);
    assert ChildUp(s.sessions, s.sessions[parent].windowId);
    if sid in s.sessions && sid != parent {
      assert PairOk(s, sid, parent);
    }
  }

  // "A shown sub-window has a shown parent" is not kept by every step; here is which steps keep it.

  predicate CoveredPair(s: State, child: int, parent: int) {
    && child in s.sessions && parent in s.sessions
    && s.sessions[child].parent == s.sessions[parent].windowId && s.sessions[child].windowId in s.shown
    ==> s.sessions[parent].windowId in s.shown
  }

  ghost predicate Covered(s: State) { forall k, l :: CoveredPair(s, k, l) }

  /** The session has a parent in the table, and it is hidden. */
  ghost predicate OverHidden(s: State, sid: int) {
    sid in s.sessions && exists l ::
      l in s.sessions && s.sessions[l].windowId == s.sessions[sid].parent && s.sessions[l].windowId !in s.shown
  }

  /** Showing a sub-window whose parent is hidden, or creating one whose parent cannot be shown again. */
  ghost predicate Uncovers(s: State, step: Step) {
    match step
    case SShow(sid, r) =>
      sid in s.sessions && s.sessions[sid].windowId !in s.shown && s.connected && Ok(r) && OverHidden(s, sid)
    case SCreate(t, o) =>
      var p := ParentSession(s, t);
      && s.connected && o.nodeOk && Ok(o.created) && Ok(o.added) && !Ok(o.parentShown)
      && p in s.sessions && p != SessionFor(s, o.newId) && s.sessions[p].windowId !in s.shown
    case _ => false
  }

  lemma CoveredShow(s: State, sid: int, r: Reply)
    requires Inv(s) && Covered(s)
    ensures Covered(Show(s, sid, r).0) <==> !Uncovers(s, SShow(sid, r))
  {
    var s' := Show(s, sid, r).0;
    assert RowOk(s, sid);
    if Uncovers(s, SShow(sid, r)) {
      var l :| l in s.sessions && s.sessions[l].windowId == s.sessions[sid].parent
               && s.sessions[l].windowId !in s.shown;
      assert RowOk(s, l) && PairOk(s, sid, l);
      assert !CoveredPair(s', sid, l);
    } else {
      forall k, l ensures CoveredPair(s', k, l) {
        assert CoveredPair(s, k, l) && RowOk(s, k) && RowOk(s, l) && PairOk(s, k, sid) && PairOk(s, l, sid);
      }
    }
  }

  lemma CoveredHide(s: State, sid: int, r: Reply)
    requires Inv(s) && Covered(s)
    ensures Covered(Hide(s, sid, r).0)
  {
    var s' := Hide(s, sid, r).0;
    assert RowOk(s, sid);
    forall k, l ensures CoveredPair(s', k, l) {
      assert CoveredPair(s, k, l) && RowOk(s, k) && RowOk(s, l);
      assert PairOk(s, k, l) && PairOk(s, k, sid) && PairOk(s, l, sid);
    }
  }

  lemma CoveredDestroy(s: State, sid: int, removed: bool)
    requires Inv(s) && Covered(s) && -INT_LIMIT <= sid < INT_LIMIT && !Stray(s, sid)
    ensures Covered(Destroy(s, sid, removed))
  {
    var s' := Destroy(s, sid, removed);
    forall k, l ensures CoveredPair(s', k, l) {
      assert CoveredPair(s, k, l) && RowOk(s, l);
    }
  }

  lemma CoveredCreate(s: State, t: int, o: Creation)
    requires Inv(s) && Covered(s) && 0 < o.newId < UINT_LIMIT && o.newId !in s.used
    ensures Covered(Create(s, t, o).0) <==> !Uncovers(s, SCreate(t, o))
  {
    hide IsParentFor;
    var p, sid := ParentSession(s, t), SessionFor(s, o.newId);
    var s' := Create(s, t, o).0;
    assert RowOk(s, p) && RowOk(s, sid) && RowOk(s, -1);
    ParentIsMain(s, t);
    if Uncovers(s, SCreate(t, o)) {
      assert !CoveredPair(s', sid, p);
    } else {
      forall k, l ensures CoveredPair(s', k, l) {
        assert CoveredPair(s, k, l) && RowOk(s, k) && RowOk(s, l) && PairOk(s, l, p) && PairOk(s, k, p);
      }
    }
  }

  /** A step keeps every shown sub-window over a shown parent exactly if it is none of those two. */
  lemma CoverKeptIff(s: State, step: Step)
    requires Inv(s) && Covered(s) && Enabled(s, step)
    ensures Covered(Apply(s, step)) <==> !Uncovers(s, step)
  {
    hide Inv, Show, Hide, Create, Destroy, Covered, Uncovers;
    match step
    case SConnect(_) => ConnectCovered(s, step);
    case SDisconnect => ConnectCovered(s, step);
    case SCreate(t, o) => CoveredCreate(s, t, o);
    case SShow(sid, r) => CoveredShow(s, sid, r);
    case SHide(sid, r) => CoveredHide(s, sid, r); NeverUncovers(s, step);
    case SDestroy(sid, removed) => CoveredDestroy(s, sid, removed); NeverUncovers(s, step);
  }

  lemma ConnectCovered(s: State, step: Step)
    requires Covered(s) && (step.SConnect? || step.SDisconnect?)
    ensures Covered(Apply(s, step)) && !Uncovers(s, step)
  {
    forall k, l ensures CoveredPair(Apply(s, step), k, l) {
      assert CoveredPair(s, k, l);
    }
  }

  lemma NeverUncovers(s: State, step: Step)
    requires step.SHide? || step.SDestroy?
    ensures !Uncovers(s, step)
  {}

  /** Hide the dialog, hide the window behind it, show the dialog again. */
  lemma DialogOverHiddenWindow() returns (states: seq<State>, steps: seq<Step>)
    ensures Run(states, steps) && !Covered(states[|steps|])
  {
    hide IsParentFor, ChildUp;
    var all := Creation(true, Rc(0), 1, Rc(0), Rc(0));
    var main, child := Entry(1, true, true, 0), Entry(2, true, false, 1);
    var s1 := START.(connected := true);
    NoParentYet(s1);
    var s2 := State(map[1 := main], 1, 1, true, {1}, {1}, [AddWindow(1)]);
    assert Apply(s1, SCreate(2, all)) == s2;
    FrontIsParent(s2, 1);
    var s3 := State(map[1 := main, 2 := child], 1, 1, true, {1, 2}, {1, 2}, s2.ipc + [AddWindow(2)]);
    assert Apply(s2, SCreate(2, all.(newId := 2))) == s3;
    var s4 := s3.(sessions := map[1 := main, 2 := child.(wmsShown := false)], shown := {1},
                  ipc := s3.ipc + [RemoveWindow(2)]);
    assert Apply(s3, SHide(2, Rc(0))) == s4;
    var s5 := s4.(sessions := s4.sessions[1 := main.(wmsShown := false)], shown := {},
                  ipc := s4.ipc + [RemoveWindow(1)]);
    NoChildUp(s4.sessions);
    assert Apply(s4, SHide(1, Rc(0))) == s5;
    var s6 := s5.(sessions := s5.sessions[2 := child], shown := {2}, ipc := s5.ipc + [AddWindow(2)]);
    assert Apply(s5, SShow(2, Rc(0))) == s6;
    states := [START, s1, s2, s3, s4, s5, s6];
    steps := [SConnect(Service), SCreate(2, all), SCreate(2, all.(newId := 2)), SHide(2, Rc(0)), SHide(1, Rc(0)),
              SShow(2, Rc(0))];
    assert !CoveredPair(s6, 2, 1);
  }

  lemma NoParentYet(s: State)
    requires s.sessions == map[]
    ensures ParentFor(s.sessions, s.fg) == -1
  {}

  lemma FrontIsParent(s: State, sid: int)
    requires s.fg == sid && sid >= 0 && Eligible(s.sessions, sid)
    ensures ParentFor(s.sessions, s.fg) == sid
  {}

  lemma NoChildUp(sessions: Sessions)
    requires sessions == map[1 := Entry(1, true, true, 0), 2 := Entry(2, false, false, 1)]
    ensures !ChildUp(sessions, 1)
  {}

  // ---------------------------------------------------------------- the object

  method AnyOf(s: set<int>) returns (k: int)
    requires s != {}
    ensures k in s
  {
    EmptyOrNot(s);
    k :| k in s;
  }

  lemma EmptyOrNot(s: set<int>)
    ensures s == {} || exists x :: x in s
  {
    if !exists x :: x in s { assert s == {}; }
  }

  /** The client and, in `shown`, `used` and `ipc`, the service that its calls act on. */
  class WindowClient {
    var sessions: Sessions
    var fg: int
    var nextId: nat
    var connected: bool
    var shown: set<nat>
    var used: set<nat>
    var ipc: seq<Ipc>

    ghost function View(): State reads this { State(sessions, fg, nextId, connected, shown, used, ipc) }

    constructor ()
      ensures View() == START
    {
      sessions, fg, nextId, connected, shown, used, ipc := map[], -1, 1, false, {}, {}, [];
    }

    method Connect(found: Lookup)
      modifies this`connected
      ensures connected == ConnectedAfter(old(connected), found)
    {
      match found
      case NoManager =>
      case NoService => connected := false;
      case Service => connected := true;
    }

    method Disconnect()
      modifies this`connected, this`sessions
      ensures !connected && sessions == map[]
    {
      sessions, connected := map[], false;
    }

    method CallAdd(w: nat, ok: bool)
      modifies this
      ensures View() == Added(old(View()), w, ok)
    {
      ipc := ipc + [AddWindow(w)];
      if ok { shown := shown + {w}; }
    }

    method CallRemove(w: nat, ok: bool)
      modifies this
      ensures View() == Removed(old(View()), w, ok)
    {
      ipc := ipc + [RemoveWindow(w)];
      if ok { shown := shown - {w}; }
    }

    method ShowWindow(sid: int, reply: Reply) returns (rc: int)
      modifies this
      ensures (View(), rc) == Show(old(View()), sid, reply)
      ensures sid !in old(sessions) ==> rc == -1
    {
      if sid !in sessions { return NOT_FOUND; }
      if sessions[sid].wmsShown { return 0; }
      if !connected { return -3; }
      if reply.NoInterface? { return -4; }
      CallAdd(sessions[sid].windowId, Ok(reply));
      if Ok(reply) {
        sessions := sessions[sid := sessions[sid].(wmsShown := true)];
        if sessions[sid].isMain { fg := sid; }
      }
      rc := reply.code;
    }

    /** The guard's scan of the table. */
    method HasChildUp(w: nat) returns (up: bool)
      ensures up == ChildUp(sessions, w)
    {
      var todo: set<int> := sessions.Keys;
      while todo != {}
        invariant todo <= sessions.Keys
        invariant forall k | k in sessions && k !in todo :: !(sessions[k].parent == w && sessions[k].wmsShown)
        decreases todo
      {
        var k := AnyOf(todo);
        if sessions[k].parent == w && sessions[k].wmsShown { return true; }
        todo := todo - {k};
      }
      up := false;
    }

    method HideWindow(sid: int, reply: Reply) returns (rc: int)
      modifies this
      ensures (View(), rc) == Hide(old(View()), sid, reply)
      ensures sid !in old(sessions) ==> rc == -1
    {
      if sid !in sessions { return NOT_FOUND; }
      if !sessions[sid].wmsShown { return 0; }
      if sessions[sid].isMain {
        var up := HasChildUp(sessions[sid].windowId);
        if up { return 0; }
      }
      if !connected { return -2; }
      if reply.NoInterface? { return -3; }
      CallRemove(sessions[sid].windowId, Ok(reply));
      if Ok(reply) { sessions := sessions[sid := sessions[sid].(wmsShown := false)]; }
      rc := reply.code;
    }

    method ChooseParent() returns (p: int)
      ensures p == ParentFor(sessions, fg)
    {
      p := fg;
      if !(fg >= 0 && Eligible(sessions, fg)) {
        p := -1;
        var todo: set<int> := sessions.Keys;
        while todo != {}
          invariant todo <= sessions.Keys
          invariant p == -1 || (p > -1 && Eligible(sessions, p))
          invariant forall k | Eligible(sessions, k) && k !in todo && k > -1 :: k <= p
          decreases todo
        {
          var k := AnyOf(todo);
          if Eligible(sessions, k) && k > p { p := k; }
          todo := todo - {k};
        }
      }
      assert IsParentFor(sessions, fg, p);
      ParentUnique(sessions, fg, p, ParentFor(sessions, fg));
    }

    method CreateSession(androidType: int, o: Creation) returns (valid: bool)
      modifies this
      ensures (View(), valid) == Create(old(View()), androidType, o)
    {
      hide IsParentFor;
      if !connected { return false; }
      var p, parent := -1, 0;
      if MapAndroidWindowType(androidType).AppMain? {
        p := ChooseParent();
      }
      assert p == ParentSession(old(View()), androidType);
      if p in sessions { parent := sessions[p].windowId; }
      if !o.nodeOk || !Ok(o.created) { return false; }
      var w := o.newId;
      used := used + {w};
      CallAdd(w, Ok(o.added));
      if !Ok(o.added) {
        CallRemove(w, true);
        return false;
      }
      var sid := w;
      if !(0 < w < INT_LIMIT) {
        sid := nextId;
        nextId := nextId + 1;
      }
      sessions := sessions[sid := Entry(w, true, parent == 0, parent)];
      if parent == 0 {
        fg := sid;
      } else {
        var _ := ShowWindow(p, o.parentShown);
      }
      valid := true;
    }

    method DestroySession(sid: int, removed: bool)
      modifies this
      ensures View() == Destroy(old(View()), sid, removed)
    {
      sessions := sessions - {sid};
      if connected { CallRemove(sid % UINT_LIMIT, removed); }
    }
  }

  /** The object, driven through any run: it goes through the run's states, so that everything above is
      true of it; in particular the cache it ends with is what the service shows. */
  method Drive(ghost states: seq<State>, steps: seq<Step>) returns (c: WindowClient)
    requires Run(states, steps)
    ensures fresh(c) && c.View() == states[|steps|]
    ensures forall sid | sid in c.sessions :: c.sessions[sid].wmsShown <==> c.sessions[sid].windowId in c.shown
    ensures (forall i | 0 <= i < |steps| :: AppTyped(steps[i])) ==> OneMain(c.sessions)
  {
    c := new WindowClient();
    for i := 0 to |steps|
      invariant fresh(c) && c.View() == states[i]
    {
      hide Enabled, Show, Hide, Create, Destroy;
      assert Next(states[i], steps[i], states[i + 1]);
      match steps[i]
      case SConnect(found) => c.Connect(found);
      case SDisconnect => c.Disconnect();
      case SCreate(t, o) => var _ := c.CreateSession(t, o);
      case SShow(sid, r) => var _ := c.ShowWindow(sid, r);
      case SHide(sid, r) => var _ := c.HideWindow(sid, r);
      case SDestroy(sid, removed) => c.DestroySession(sid, removed);
    }
    forall sid | sid in c.sessions ensures c.sessions[sid].wmsShown <==> c.sessions[sid].windowId in c.shown {
      CacheIsService(states, steps, |steps|, sid);
    }
    if forall i | 0 <= i < |steps| :: AppTyped(steps[i]) {
      AtMostOneMain(states, steps, |steps|);
    }
  }

  lemma ParentUnique(sessions: Sessions, fg: int, p: int, q: int)
    requires IsParentFor(sessions, fg, p) && IsParentFor(sessions, fg, q)
    ensures p == q
  {}
}
