/** Per-packet traffic accounting: four bounded hash maps, updated by any number of packets at once. Each
    packet goes through the maps in order with look up / insert if absent / look up again / add, and
    every such operation is one atomic step of an arbitrary schedule. */
module TrafficStats {

  const WORD: nat := 0x1_0000_0000_0000_0000

  datatype Direction = Ingress | Egress

  /** `ignored`: there is no packet, or it is a loopback packet. */
  datatype Packet = Packet(dir: Direction, ignored: bool, uid: nat, ifIndex: nat, cookie: nat, len: nat) {
    function Amount(c: Counter): nat {
      match c
      case RxPackets => if dir.Ingress? then 1 else 0
      case RxBytes => if dir.Ingress? then len else 0
      case TxPackets => if dir.Egress? then 1 else 0
      case TxBytes => if dir.Egress? then len else 0
    }
  }

  datatype Counter = RxPackets | RxBytes | TxPackets | TxBytes

  datatype Row = Row(rxPackets: nat, rxBytes: nat, txPackets: nat, txBytes: nat) {
    function Get(c: Counter): nat {
      match c
      case RxPackets => rxPackets
      case RxBytes => rxBytes
      case TxPackets => txPackets
      case TxBytes => txBytes
    }

    /** The atomic adds on 64-bit counters. */
    function AddPacket(dir: Direction): Row {
      if dir.Ingress? then this.(rxPackets := (rxPackets + 1) % WORD) else this.(txPackets := (txPackets + 1) % WORD)
    }

    function AddBytes(dir: Direction, n: nat): Row {
      if dir.Ingress? then this.(rxBytes := (rxBytes + n) % WORD) else this.(txBytes := (txBytes + n) % WORD)
    }
  }

  const ZERO := Row(0, 0, 0, 0)

  datatype Key = Uid(uid: nat) | UidIf(uid: nat, ifIndex: nat) | Iface(ifIndex: nat) | Cookie(cookie: nat)

  type Table = t: nat | t < 4
  const UID: Table := 0
  const UID_IF: Table := 1
  const IFACE: Table := 2
  const COOKIE: Table := 3

  function KeyOf(p: Packet, t: Table): Key {
    if t == UID then Uid(p.uid)
    else if t == UID_IF then UidIf(p.uid, p.ifIndex)
    else if t == IFACE then Iface(p.ifIndex)
    else Cookie(p.cookie)
  }

  /** The packets that a row is about, by their own fields. */
  predicate Concerns(k: Key, p: Packet) {
    match k
    case Uid(uid) => p.uid == uid
    case UidIf(uid, ifIndex) => p.uid == uid && p.ifIndex == ifIndex
    case Iface(ifIndex) => p.ifIndex == ifIndex
    case Cookie(cookie) => p.cookie == cookie
  }

  function TableOf(k: Key): Table {
    match k
    case Uid(_) => UID
    case UidIf(_, _) => UID_IF
    case Iface(_) => IFACE
    case Cookie(_) => COOKIE
  }

  /** A packet is counted under exactly the keys that are about it, one in each table. */
  lemma KeyConcerns(p: Packet, t: Table, k: Key)
    ensures KeyOf(p, t) == k <==> TableOf(k) == t && Concerns(k, p)
  {}

  /** Two packets share a row exactly if they agree on what the table is by. */
  lemma RowShared(p: Packet, q: Packet)
    ensures KeyOf(p, UID) == KeyOf(q, UID) <==> p.uid == q.uid
    ensures KeyOf(p, UID_IF) == KeyOf(q, UID_IF) <==> p.uid == q.uid && p.ifIndex == q.ifIndex
    ensures KeyOf(p, IFACE) == KeyOf(q, IFACE) <==> p.ifIndex == q.ifIndex
    ensures KeyOf(p, COOKIE) == KeyOf(q, COOKIE) <==> p.cookie == q.cookie
  {}

  type Rows = map<Key, Row>

  // ---------------------------------------------------------------- one packet, one step

  datatype Stage = Look | Insert | LookAgain | CountPacket | CountBytes

  datatype Pc = At(table: Table, stage: Stage) | Done

  function NextTable(t: Table): Pc { if t == COOKIE then Done else At(t + 1, Look) }

  function Start(p: Packet): Pc { if p.ignored then Done else At(UID, Look) }

  function Full(rows: Rows, capacity: nat): bool { |rows| >= capacity }

  function Inserted(rows: Rows, capacity: nat, k: Key): Rows {
    if k in rows || Full(rows, capacity) then rows else rows[k := ZERO]
  }

  /** The map after one stage at it, and where the packet is then. A row that was found stays where it
      is, since nothing is ever deleted. */
  function StageEffect(rows: Rows, capacity: nat, p: Packet, t: Table, stage: Stage): (Rows, Pc) {
    var k := KeyOf(p, t);
    match stage
    case Look => (rows, if k in rows then At(t, CountPacket) else At(t, Insert))
    case Insert => (Inserted(rows, capacity, k), At(t, LookAgain))
    case LookAgain => (rows, if k in rows then At(t, CountPacket) else NextTable(t))
    case CountPacket => (if k in rows then rows[k := rows[k].AddPacket(p.dir)] else rows, At(t, CountBytes))
    case CountBytes => (if k in rows then rows[k := rows[k].AddBytes(p.dir, p.len)] else rows, NextTable(t))
  }

  // ---------------------------------------------------------------- all packets, any schedule

  datatype Config = Config(packets: seq<Packet>, capacity: Table -> nat)

  datatype State = State(maps: seq<Rows>, pcs: seq<Pc>)

  ghost predicate Typed(cfg: Config, s: State) { |s.maps| == 4 && |s.pcs| == |cfg.packets| }

  function Initial(cfg: Config): State {
    State([map[], map[], map[], map[]], seq(|cfg.packets|, i requires 0 <= i < |cfg.packets| => Start(cfg.packets[i])))
  }

  function Step(cfg: Config, s: State, i: nat): (r: State)
    requires Typed(cfg, s)
    ensures Typed(cfg, r)
  {
    if i >= |s.pcs| || s.pcs[i].Done? then s
    else
      var t := s.pcs[i].table;
      var (rows, pc) := StageEffect(s.maps[t], cfg.capacity(t), cfg.packets[i], t, s.pcs[i].stage);
      State(s.maps[t := rows], s.pcs[i := pc])
  }

  /** The state after the packets numbered in `schedule` took a step each, in that order. */
  function After(cfg: Config, schedule: seq<nat>): (s: State)
    ensures Typed(cfg, s)
  {
    if schedule == [] then Initial(cfg)
    else Step(cfg, After(cfg, schedule[..|schedule| - 1]), schedule[|schedule| - 1])
  }

  // ---------------------------------------------------------------- what has been counted so far

  predicate PastTable(pc: Pc, t: Table) { pc.Done? || pc.table > t }

  predicate Added(pc: Pc, t: Table, c: Counter) {
    PastTable(pc, t) || (pc == At(t, CountBytes) && (c.RxPackets? || c.TxPackets?))
  }

  function Share(p: Packet, pc: Pc, t: Table, k: Key, c: Counter): nat {
    if !p.ignored && KeyOf(p, t) == k && Added(pc, t, c) then p.Amount(c) else 0
  }

  function Counted(packets: seq<Packet>, pcs: seq<Pc>, t: Table, k: Key, c: Counter): nat
    requires |packets| == |pcs|
  {
    if packets == [] then 0
    else
      var n := |packets| - 1;
      Counted(packets[..n], pcs[..n], t, k, c) + Share(packets[n], pcs[n], t, k, c)
  }

  lemma {:induction false} CountedUpdate(
      packets: seq<Packet>, pcs: seq<Pc>, i: nat, pc: Pc, t: Table, k: Key, c: Counter)
    requires i < |packets| == |pcs|
    ensures Counted(packets, pcs[i := pc], t, k, c) + Share(packets[i], pcs[i], t, k, c) ==
            Counted(packets, pcs, t, k, c) + Share(packets[i], pc, t, k, c)
  {
    hide Share;
    var n := |packets| - 1;
    if i < n {
      assert pcs[i := pc][..n] == pcs[..n][i := pc];
      CountedUpdate(packets[..n], pcs[..n], i, pc, t, k, c);
    } else {
      assert pcs[i := pc][..n] == pcs[..n];
    }
  }

  lemma {:induction false} CountedNothing(packets: seq<Packet>, pcs: seq<Pc>, t: Table, k: Key, c: Counter)
    requires |packets| == |pcs|
    requires forall i | 0 <= i < |packets| :: Share(packets[i], pcs[i], t, k, c) == 0
    ensures Counted(packets, pcs, t, k, c) == 0
  {
    hide Share;
    if packets == [] {
    } else {
      CountedNothing(packets[..|packets| - 1], pcs[..|packets| - 1], t, k, c);
    }
  }

  // ---------------------------------------------------------------- the invariant

  /** Where a packet is at or past a table, its row is there or the table is full. */
  predicate Settled(rows: Rows, capacity: nat, p: Packet, pc: Pc, t: Table) {
    var k := KeyOf(p, t);
    && ((PastTable(pc, t) && !p.ignored) || pc == At(t, LookAgain) ==> k in rows || Full(rows, capacity))
    && (pc == At(t, CountPacket) || pc == At(t, CountBytes) ==> k in rows)
    && (p.ignored ==> pc.Done?)
  }

  /** A row holds exactly what the packets have added to it. */
  ghost predicate Exact(cfg: Config, s: State, t: Table, k: Key)
    requires Typed(cfg, s)
  {
    k in s.maps[t] ==>
      forall c: Counter :: s.maps[t][k].Get(c) == Counted(cfg.packets, s.pcs, t, k, c) % WORD
  }

  /** There is a row only if a packet came that it is about. */
  ghost predicate Grounded(cfg: Config, s: State, t: Table, k: Key)
    requires Typed(cfg, s)
  {
    k in s.maps[t] ==> exists i | 0 <= i < |cfg.packets| :: !cfg.packets[i].ignored && KeyOf(cfg.packets[i], t) == k
  }

  ghost predicate Inv(cfg: Config, s: State) {
    && Typed(cfg, s)
    && (forall t: Table, i: nat | i < |s.pcs| :: Settled(s.maps[t], cfg.capacity(t), cfg.packets[i], s.pcs[i], t))
    && (forall t: Table, k: Key :: Exact(cfg, s, t, k))
    && (forall t: Table, k: Key :: Grounded(cfg, s, t, k))
    && (forall t: Table :: |s.maps[t]| <= cfg.capacity(t))
  }

  lemma SettledStep(cfg: Config, s: State, i: nat, t: Table, j: nat)
    requires Inv(cfg, s) && i < |s.pcs| && !s.pcs[i].Done? && j < |s.pcs|
    ensures var s' := Step(cfg, s, i); Settled(s'.maps[t], cfg.capacity(t), cfg.packets[j], s'.pcs[j], t)
  {
    hide Exact;
    assert Settled(s.maps[t], cfg.capacity(t), cfg.packets[j], s.pcs[j], t);
    StageKeeps(s.maps[s.pcs[i].table], cfg.capacity(s.pcs[i].table), cfg.packets[i], s.pcs[i].table, s.pcs[i].stage);
  }

  /** No stage removes a key, or a row from a full table. */
  lemma StageKeeps(rows: Rows, capacity: nat, p: Packet, t: Table, stage: Stage)
    ensures var rows' := StageEffect(rows, capacity, p, t, stage).0;
            rows.Keys <= rows'.Keys && (Full(rows, capacity) ==> rows'.Keys == rows.Keys && Full(rows', capacity))
  {
    var rows' := StageEffect(rows, capacity, p, t, stage).0;
    if Full(rows, capacity) {
      assert rows'.Keys == rows.Keys;
      assert |rows'.Keys| == |rows'| && |rows.Keys| == |rows|;
    }
  }

  lemma GroundedStep(cfg: Config, s: State, i: nat, t: Table, k: Key)
    requires Inv(cfg, s) && i < |s.pcs| && !s.pcs[i].Done?
    ensures Grounded(cfg, Step(cfg, s, i), t, k)
  {
    hide Exact;
    assert Grounded(cfg, s, t, k) && Settled(s.maps[t], cfg.capacity(t), cfg.packets[i], s.pcs[i], t);
  }

  lemma WithinStep(cfg: Config, s: State, i: nat, t: Table)
    requires Inv(cfg, s) && i < |s.pcs| && !s.pcs[i].Done?
    ensures |Step(cfg, s, i).maps[t]| <= cfg.capacity(t)
  {
    hide Exact, Grounded, Settled;
    var rows, rows' := s.maps[t], Step(cfg, s, i).maps[t];
    assert |rows| <= cfg.capacity(t);
    var k := KeyOf(cfg.packets[i], s.pcs[i].table);
    if k in rows {
      assert rows'.Keys == rows.Keys;
    } else {
      assert rows'.Keys == rows.Keys || rows'.Keys == rows.Keys + {k};
    }
    assert |rows'| == |rows'.Keys| && |rows| == |rows.Keys|;
  }

  lemma ExactStep(cfg: Config, s: State, i: nat, t: Table, k: Key)
    requires Inv(cfg, s) && i < |s.pcs| && !s.pcs[i].Done?
    ensures Exact(cfg, Step(cfg, s, i), t, k)
  {
    var s' := Step(cfg, s, i);
    if k in s'.maps[t] {
      forall c: Counter ensures s'.maps[t][k].Get(c) == Counted(cfg.packets, s'.pcs, t, k, c) % WORD {
        CountedUpdate(cfg.packets, s.pcs, i, s'.pcs[i], t, k, c);
        if k in s.maps[t] {
          assert Exact(cfg, s, t, k);
          RowStep(cfg, s, i, t, k, c);
        } else {
          NewRow(cfg, s, i, t, k, c);
        }
      }
    }
  }

  /** An existing row grows by what the packet's share grows by. */
  lemma RowStep(cfg: Config, s: State, i: nat, t: Table, k: Key, c: Counter)
    requires Inv(cfg, s) && i < |s.pcs| && !s.pcs[i].Done? && k in s.maps[t]
    ensures var s' := Step(cfg, s, i);
            var n := Counted(cfg.packets, s.pcs, t, k, c);
            var p := cfg.packets[i];
            && k in s'.maps[t]
            && s'.maps[t][k].Get(c) == (n + Share(p, s'.pcs[i], t, k, c) - Share(p, s.pcs[i], t, k, c)) % WORD
  {
    hide Counted, StageEffect, Share;
    assert Exact(cfg, s, t, k);
    var at, p := s.pcs[i], cfg.packets[i];
    assert Settled(s.maps[t], cfg.capacity(t), p, at, t);
    var n := Counted(cfg.packets, s.pcs, t, k, c);
    if at.table == t {
      StageShare(s.maps[t], cfg.capacity(t), p, t, at.stage, k, c, n);
    } else {
      ShareElsewhere(s.maps[at.table], cfg.capacity(at.table), p, at, t, k, c);
    }
  }

  lemma StageShare(rows: Rows, capacity: nat, p: Packet, t: Table, stage: Stage, k: Key, c: Counter, n: nat)
    requires !p.ignored && Settled(rows, capacity, p, At(t, stage), t)
    requires k in rows && rows[k].Get(c) == n % WORD
    ensures var (rows', pc) := StageEffect(rows, capacity, p, t, stage);
            && k in rows'
            && rows'[k].Get(c) == (n + Share(p, pc, t, k, c) - Share(p, At(t, stage), t, k, c)) % WORD
  {
    AddMod(n, 1);
    AddMod(n, p.len);
  }

  lemma ShareElsewhere(rows: Rows, capacity: nat, p: Packet, at: Pc, t: Table, k: Key, c: Counter)
    requires !at.Done? && at.table != t
    ensures Share(p, StageEffect(rows, capacity, p, at.table, at.stage).1, t, k, c) == Share(p, at, t, k, c)
  {}

  lemma AddMod(n: nat, m: nat)
    ensures (n % WORD + m) % WORD == (n + m) % WORD
  {}

  /** A row can be inserted only if nothing was to be counted in it before. */
  lemma NewRow(cfg: Config, s: State, i: nat, t: Table, k: Key, c: Counter)
    requires Inv(cfg, s) && i < |s.pcs| && !s.pcs[i].Done?
    requires k !in s.maps[t] && k in Step(cfg, s, i).maps[t]
    ensures Step(cfg, s, i).maps[t][k] == ZERO
    ensures Counted(cfg.packets, s.pcs, t, k, c) == 0
    ensures Share(cfg.packets[i], Step(cfg, s, i).pcs[i], t, k, c) == 0
  {
    hide Exact;
    forall j: nat | j < |s.pcs| ensures Share(cfg.packets[j], s.pcs[j], t, k, c) == 0 {
      assert Settled(s.maps[t], cfg.capacity(t), cfg.packets[j], s.pcs[j], t);
    }
    CountedNothing(cfg.packets, s.pcs, t, k, c);
  }

  lemma InvInitial(cfg: Config)
    ensures Inv(cfg, Initial(cfg))
  {}

  lemma InvStep(cfg: Config, s: State, i: nat)
    requires Inv(cfg, s)
    ensures Inv(cfg, Step(cfg, s, i))
  {
    hide Settled, Exact, Grounded;
    var s' := Step(cfg, s, i);
    if i < |s.pcs| && !s.pcs[i].Done? {
      forall t: Table, j: nat | j < |s'.pcs|
        ensures Settled(s'.maps[t], cfg.capacity(t), cfg.packets[j], s'.pcs[j], t)
      {
        SettledStep(cfg, s, i, t, j);
      }
      forall t: Table, k: Key ensures Exact(cfg, s', t, k) { ExactStep(cfg, s, i, t, k); }
      forall t: Table, k: Key ensures Grounded(cfg, s', t, k) { GroundedStep(cfg, s, i, t, k); }
      forall t: Table ensures |s'.maps[t]| <= cfg.capacity(t) { WithinStep(cfg, s, i, t); }
    }
  }

  lemma {:induction false} InvAfter(cfg: Config, schedule: seq<nat>)
    ensures Inv(cfg, After(cfg, schedule))
  {
    hide Inv, Step;
    if schedule == [] {
      InvInitial(cfg);
    } else {
      InvAfter(cfg, schedule[..|schedule| - 1]);
      InvStep(cfg, After(cfg, schedule[..|schedule| - 1]), schedule[|schedule| - 1]);
    }
  }

  // ---------------------------------------------------------------- the results

  predicate Quiescent(s: State) { forall i | 0 <= i < |s.pcs| :: s.pcs[i].Done? }

  /** What should be counted under a key: all packets that it is about, loopback packets aside. */
  function Traffic(packets: seq<Packet>, k: Key, c: Counter): nat {
    if packets == [] then 0
    else
      var p := packets[|packets| - 1];
      Traffic(packets[..|packets| - 1], k, c) + if !p.ignored && Concerns(k, p) then p.Amount(c) else 0
  }

  lemma {:induction false} CountedAll(packets: seq<Packet>, pcs: seq<Pc>, k: Key, c: Counter)
    requires |packets| == |pcs| && forall i | 0 <= i < |pcs| :: pcs[i].Done?
    ensures Counted(packets, pcs, TableOf(k), k, c) == Traffic(packets, k, c)
  {
    if packets == [] {
    } else {
      CountedAll(packets[..|packets| - 1], pcs[..|pcs| - 1], k, c);
      KeyConcerns(packets[|packets| - 1], TableOf(k), k);
      hide KeyOf, Concerns, TableOf;
    }
  }

  /** All or nothing: once all packets are through, every row is about some packet that came, is in the
      table of its kind, and counts exactly its packets and bytes, both ways, modulo 2^64. */
  lemma AllOrNothing(cfg: Config, schedule: seq<nat>, t: Table, k: Key, c: Counter)
    requires Quiescent(After(cfg, schedule)) && k in After(cfg, schedule).maps[t]
    ensures After(cfg, schedule).maps[t][k].Get(c) == Traffic(cfg.packets, k, c) % 0x1_0000_0000_0000_0000
    ensures TableOf(k) == t
    ensures exists i | 0 <= i < |cfg.packets| :: !cfg.packets[i].ignored && Concerns(k, cfg.packets[i])
  {
    InvAfter(cfg, schedule);
    var s := After(cfg, schedule);
    assert Exact(cfg, s, t, k) && Grounded(cfg, s, t, k);
    hide After, Inv, Traffic;
    var i :| 0 <= i < |cfg.packets| && !cfg.packets[i].ignored && KeyOf(cfg.packets[i], t) == k;
    KeyConcerns(cfg.packets[i], t, k);
    CountedAll(cfg.packets, s.pcs, k, c);
  }

  /** A key that is about a packet has no row only where its table is full. */
  lemma MissedOnlyWhenFull(cfg: Config, schedule: seq<nat>, k: Key, i: nat)
    requires Quiescent(After(cfg, schedule))
    requires i < |cfg.packets| && !cfg.packets[i].ignored && Concerns(k, cfg.packets[i])
    ensures var rows := After(cfg, schedule).maps[TableOf(k)];
            k in rows || |rows| == cfg.capacity(TableOf(k))
  {
    InvAfter(cfg, schedule);
    var s, t := After(cfg, schedule), TableOf(k);
    KeyConcerns(cfg.packets[i], t, k);
    assert Settled(s.maps[t], cfg.capacity(t), cfg.packets[i], s.pcs[i], t);
  }

  /** What a reader of the maps sees under a key: no row reads as zero. */
  function Reading(rows: Rows, k: Key, c: Counter): nat { if k in rows then rows[k].Get(c) else 0 }

  lemma {:induction false} NoTraffic(packets: seq<Packet>, k: Key, c: Counter)
    requires forall i | 0 <= i < |packets| :: packets[i].ignored || !Concerns(k, packets[i])
    ensures Traffic(packets, k, c) == 0
  {
    hide Concerns;
    if packets == [] {
    } else {
      NoTraffic(packets[..|packets| - 1], k, c);
    }
  }

  lemma ReadingIsTraffic(cfg: Config, schedule: seq<nat>, k: Key, c: Counter)
    requires Quiescent(After(cfg, schedule))
    requires !Full(After(cfg, schedule).maps[TableOf(k)], cfg.capacity(TableOf(k)))
    ensures Reading(After(cfg, schedule).maps[TableOf(k)], k, c) == Traffic(cfg.packets, k, c) % WORD
  {
    hide Concerns, TableOf, Quiescent, After;
    if k in After(cfg, schedule).maps[TableOf(k)] {
      AllOrNothing(cfg, schedule, TableOf(k), k, c);
    } else {
      forall i: nat | i < |cfg.packets| ensures cfg.packets[i].ignored || !Concerns(k, cfg.packets[i]) {
        if !cfg.packets[i].ignored && Concerns(k, cfg.packets[i]) { MissedOnlyWhenFull(cfg, schedule, k, i); }
      }
      NoTraffic(cfg.packets, k, c);
    }
  }

  // Rows of one map against rows of another.

  predicate NoDuplicates(s: seq<nat>) { forall i, j | 0 <= i < j < |s| :: s[i] != s[j] }

  /** A uid/interface row, seen from the uid (`byUid`) or from the interface. */
  function Cross(fixed: nat, other: nat, byUid: bool): Key {
    if byUid then UidIf(fixed, other) else UidIf(other, fixed)
  }

  function Whole(fixed: nat, byUid: bool): Key { if byUid then Uid(fixed) else Iface(fixed) }

  function Other(p: Packet, byUid: bool): nat { if byUid then p.ifIndex else p.uid }

  function TrafficSum(packets: seq<Packet>, fixed: nat, others: seq<nat>, byUid: bool, c: Counter): nat {
    if others == [] then 0
    else
      TrafficSum(packets, fixed, others[..|others| - 1], byUid, c) +
      Traffic(packets, Cross(fixed, others[|others| - 1], byUid), c)
  }

  function ReadingSum(rows: Rows, fixed: nat, others: seq<nat>, byUid: bool, c: Counter): nat {
    if others == [] then 0
    else
      ReadingSum(rows, fixed, others[..|others| - 1], byUid, c) +
      Reading(rows, Cross(fixed, others[|others| - 1], byUid), c)
  }

  lemma CrossOneMore(packets: seq<Packet>, p: Packet, fixed: nat, other: nat, byUid: bool, c: Counter)
    ensures var k := Cross(fixed, other, byUid);
            Traffic(packets + [p], k, c) == Traffic(packets, k, c) +
            if !p.ignored && Concerns(Whole(fixed, byUid), p) && Other(p, byUid) == other
            then p.Amount(c) else 0
  {
    assert (packets + [p])[..|packets|] == packets;
  }

  /** One more packet adds to exactly one of the cross rows. */
  lemma {:induction false} SumOneMore(
      packets: seq<Packet>, p: Packet, fixed: nat, others: seq<nat>, byUid: bool, c: Counter)
    requires NoDuplicates(others)
    ensures TrafficSum(packets + [p], fixed, others, byUid, c) ==
            TrafficSum(packets, fixed, others, byUid, c) +
            if !p.ignored && Concerns(Whole(fixed, byUid), p) && Other(p, byUid) in others
            then p.Amount(c) else 0
  {
    if others == [] {
    } else {
      var n := |others| - 1;
      SumOneMore(packets, p, fixed, others[..n], byUid, c);
      CrossOneMore(packets, p, fixed, others[n], byUid, c);
      hide Traffic, Concerns, Whole, Other;
      assert forall x :: x in others <==> x in others[..n] || x == others[n];
    }
  }

  lemma {:induction false} SumOfNone(fixed: nat, others: seq<nat>, byUid: bool, c: Counter)
    ensures TrafficSum([], fixed, others, byUid, c) == 0
  {
    if others == [] {
    } else {
      SumOfNone(fixed, others[..|others| - 1], byUid, c);
    }
  }

  lemma {:induction false} WholeIsSum(packets: seq<Packet>, fixed: nat, others: seq<nat>, byUid: bool, c: Counter)
    requires NoDuplicates(others)
    requires forall i | 0 <= i < |packets| :: Other(packets[i], byUid) in others
    ensures Traffic(packets, Whole(fixed, byUid), c) == TrafficSum(packets, fixed, others, byUid, c)
  {
    if packets == [] {
      SumOfNone(fixed, others, byUid, c);
    } else {
      var n := |packets| - 1;
      WholeIsSum(packets[..n], fixed, others, byUid, c);
      SumOneMore(packets[..n], packets[n], fixed, others, byUid, c);
      assert packets == packets[..n] + [packets[n]];
    }
  }

  lemma {:induction false} ReadingsAddUp(
      cfg: Config, schedule: seq<nat>, fixed: nat, others: seq<nat>, byUid: bool, c: Counter)
    requires Quiescent(After(cfg, schedule))
    requires !Full(After(cfg, schedule).maps[UID_IF], cfg.capacity(UID_IF))
    ensures ReadingSum(After(cfg, schedule).maps[UID_IF], fixed, others, byUid, c) % WORD ==
            TrafficSum(cfg.packets, fixed, others, byUid, c) % WORD
  {
    hide After, Quiescent, Traffic, Reading;
    if others == [] {
    } else {
      var n := |others| - 1;
      ReadingsAddUp(cfg, schedule, fixed, others[..n], byUid, c);
      var k := Cross(fixed, others[n], byUid);
      ReadingIsTraffic(cfg, schedule, k, c);
      var rows := After(cfg, schedule).maps[UID_IF];
      var a, b := ReadingSum(rows, fixed, others[..n], byUid, c), TrafficSum(cfg.packets, fixed, others[..n], byUid, c);
      SumMod(a, b, Reading(rows, k, c), Traffic(cfg.packets, k, c));
    }
  }

  lemma SumMod(a: nat, b: nat, x: nat, y: nat)
    requires a % WORD == b % WORD && x == y % WORD
    ensures (a + x) % WORD == (b + y) % WORD
  {
    AddMod(a, x);
    AddMod(b, x);
    AddMod(y, b);
  }

  /** As long as the tables have room, a uid's row is the sum of its rows per interface, and an
      interface's row the sum over uids: the maps never disagree once traffic is through. `others` lists
      the interfaces (or uids) that occur, each once. */
  lemma RowsAgree(cfg: Config, schedule: seq<nat>, fixed: nat, others: seq<nat>, byUid: bool, c: Counter)
    requires Quiescent(After(cfg, schedule))
    requires forall t: Table :: !Full(After(cfg, schedule).maps[t], cfg.capacity(t))
    requires NoDuplicates(others) && forall i | 0 <= i < |cfg.packets| :: Other(cfg.packets[i], byUid) in others
    ensures var maps := After(cfg, schedule).maps;
            Reading(maps[if byUid then UID else IFACE], Whole(fixed, byUid), c) ==
            ReadingSum(maps[UID_IF], fixed, others, byUid, c) % WORD
  {
    hide After, Quiescent, Traffic, Reading, ReadingSum, TrafficSum, Full;
    var maps := After(cfg, schedule).maps;
    var t := TableOf(Whole(fixed, byUid));
    assert !Full(maps[UID_IF], cfg.capacity(UID_IF)) && !Full(maps[t], cfg.capacity(t));
    ReadingIsTraffic(cfg, schedule, Whole(fixed, byUid), c);
    ReadingsAddUp(cfg, schedule, fixed, others, byUid, c);
    WholeIsSum(cfg.packets, fixed, others, byUid, c);
  }

  // ---------------------------------------------------------------- progress

  function StepsLeft(pc: Pc): nat {
    if pc.Done? then 0
    else
      5 * (3 - pc.table) +
      match pc.stage case Look => 5 case Insert => 4 case LookAgain => 3 case CountPacket => 2 case CountBytes => 1
  }

  function Turns(schedule: seq<nat>, i: nat): nat {
    if schedule == [] then 0
    else Turns(schedule[..|schedule| - 1], i) + if schedule[|schedule| - 1] == i then 1 else 0
  }

  /** No packet waits for another: one that has had twenty steps is through all four maps, whatever the
      others did in between. */
  lemma {:induction false} TwentyStepsSuffice(cfg: Config, schedule: seq<nat>, i: nat)
    requires i < |cfg.packets|
    ensures StepsLeft(After(cfg, schedule).pcs[i]) <= if Turns(schedule, i) < 20 then 20 - Turns(schedule, i) else 0
  {
    if schedule == [] {
    } else {
      var n := |schedule| - 1;
      TwentyStepsSuffice(cfg, schedule[..n], i);
      StepTaken(cfg, After(cfg, schedule[..n]), schedule[n], i);
      hide After, Step;
      assert After(cfg, schedule) == Step(cfg, After(cfg, schedule[..n]), schedule[n]);
    }
  }

  lemma StepTaken(cfg: Config, s: State, j: nat, i: nat)
    requires Typed(cfg, s) && i < |s.pcs|
    ensures var s' := Step(cfg, s, j);
            if i == j && !s.pcs[i].Done? then StepsLeft(s'.pcs[i]) < StepsLeft(s.pcs[i]) else s'.pcs[i] == s.pcs[i]
  {}

  // ---------------------------------------------------------------- a handler on its own

  /** What a packet that nothing interrupts does to one map. */
  function Accounted(rows: Rows, capacity: nat, p: Packet, t: Table): Rows {
    var k := KeyOf(p, t);
    var rows := Inserted(rows, capacity, k);
    if k in rows then rows[k := rows[k].AddPacket(p.dir).AddBytes(p.dir, p.len)] else rows
  }

  /** By the packet's own fields: the row of each key that is about it grows by what the packet amounts to,
      and no other row changes. */
  lemma AccountedRow(rows: Rows, capacity: nat, p: Packet, t: Table, k: Key, c: Counter)
    requires k in Accounted(rows, capacity, p, t)
    ensures var row := Accounted(rows, capacity, p, t)[k];
            if TableOf(k) == t && Concerns(k, p) then row.Get(c) % WORD == (Reading(rows, k, c) + p.Amount(c)) % WORD
            else k in rows && row == rows[k]
  {
    KeyConcerns(p, t, k);
    hide Concerns, TableOf;
  }

  function Repeat(cfg: Config, s: State, i: nat, n: nat): (r: State)
    requires Typed(cfg, s)
    ensures Typed(cfg, r)
    decreases n
  {
    if n == 0 then s else Repeat(cfg, Step(cfg, s, i), i, n - 1)
  }

  /** The atomic steps of one packet at one map, taken without interruption, are `Accounted`. */
  lemma UninterruptedStages(cfg: Config, s: State, i: nat, t: Table) returns (n: nat)
    requires Typed(cfg, s) && i < |s.pcs| && s.pcs[i] == At(t, Look)
    ensures n <= 5
    ensures Repeat(cfg, s, i, n) ==
            State(s.maps[t := Accounted(s.maps[t], cfg.capacity(t), cfg.packets[i], t)], s.pcs[i := NextTable(t)])
  {
    hide KeyOf, Inserted;
    var p := cfg.packets[i];
    var k := KeyOf(p, t);
    var s1 := Step(cfg, s, i);
    var rest := s1;
    n := 1;
    if k !in s.maps[t] {
      var s2 := Step(cfg, s1, i);
      rest := Step(cfg, s2, i);
      n := 3;
      assert Repeat(cfg, s, i, 3) == Repeat(cfg, s1, i, 2) == Repeat(cfg, s2, i, 1) == Repeat(cfg, rest, i, 0);
      assert rest.pcs == s.pcs[i := rest.pcs[i]];
    } else {
      assert Repeat(cfg, s, i, 1) == Repeat(cfg, s1, i, 0);
      InsertedPresent(s.maps[t], cfg.capacity(t), k);
    }
    assert rest.maps == s.maps[t := Inserted(s.maps[t], cfg.capacity(t), k)];
    if rest.pcs[i] == At(t, CountPacket) {
      RepeatMore(cfg, s, i, n, rest);
      CountStages(cfg, rest, i, t);
      n := n + 2;
    }
  }

  lemma InsertedPresent(rows: Rows, capacity: nat, k: Key)
    requires k in rows
    ensures Inserted(rows, capacity, k) == rows
  {}

  lemma {:induction false} RepeatMore(cfg: Config, s: State, i: nat, n: nat, r: State)
    requires Typed(cfg, s) && r == Repeat(cfg, s, i, n)
    ensures Repeat(cfg, s, i, n + 2) == Step(cfg, Step(cfg, r, i), i)
    decreases n
  {
    hide Step;
    if n == 0 {
      var s1 := Step(cfg, s, i);
      assert Repeat(cfg, s, i, 2) == Repeat(cfg, s1, i, 1) == Repeat(cfg, Step(cfg, s1, i), i, 0);
    } else {
      RepeatMore(cfg, Step(cfg, s, i), i, n - 1, r);
    }
  }

  lemma CountStages(cfg: Config, s: State, i: nat, t: Table)
    requires Typed(cfg, s) && i < |s.pcs| && s.pcs[i] == At(t, CountPacket)
    requires KeyOf(cfg.packets[i], t) in s.maps[t]
    ensures var p, rows := cfg.packets[i], s.maps[t];
            var k := KeyOf(p, t);
            Step(cfg, Step(cfg, s, i), i) ==
            State(s.maps[t := rows[k := rows[k].AddPacket(p.dir).AddBytes(p.dir, p.len)]], s.pcs[i := NextTable(t)])
  {
    hide KeyOf;
    var p, rows := cfg.packets[i], s.maps[t];
    var k := KeyOf(p, t);
    var s1 := Step(cfg, s, i);
    var s2 := Step(cfg, s1, i);
    assert rows[k := rows[k].AddPacket(p.dir)][k := rows[k].AddPacket(p.dir).AddBytes(p.dir, p.len)] ==
           rows[k := rows[k].AddPacket(p.dir).AddBytes(p.dir, p.len)];
    assert s2.pcs == s.pcs[i := NextTable(t)];
    assert s2.maps == s.maps[t := s2.maps[t]];
  }

  /** The ingress and the egress program over the shared maps. */
  class TrafficMaps {
    var maps: seq<Rows>
    const capacity: Table -> nat

    ghost predicate Valid() reads this { |maps| == 4 }

    constructor (capacity: Table -> nat)
      ensures Valid() && this.capacity == capacity && maps == [map[], map[], map[], map[]]
    {
      this.capacity := capacity;
      maps := [map[], map[], map[], map[]];
    }

    method Count(t: Table, p: Packet)
      requires Valid()
      modifies this
      ensures maps == old(maps)[t := Accounted(old(maps[t]), capacity(t), p, t)] && Valid()
    {
      var k := KeyOf(p, t);
      var found := k in maps[t];
      if !found {
        maps := maps[t := Inserted(maps[t], capacity(t), k)];
        found := k in maps[t];
      }
      if found {
        ghost var rows := maps[t];
        assert rows[k := rows[k].AddPacket(p.dir)][k := rows[k].AddPacket(p.dir).AddBytes(p.dir, p.len)] ==
               rows[k := rows[k].AddPacket(p.dir).AddBytes(p.dir, p.len)];
        maps := maps[t := maps[t][k := maps[t][k].AddPacket(p.dir)]];
        maps := maps[t := maps[t][k := maps[t][k].AddBytes(p.dir, p.len)]];
      }
    }

    /** Always lets the packet through. */
    method Handle(p: Packet) returns (verdict: nat)
      requires Valid()
      modifies this
      ensures Valid() && verdict == 1
      ensures p.ignored ==> maps == old(maps)
      ensures !p.ignored ==>
                forall t: Table :: maps[t] == Accounted(old(maps[t]), capacity(t), p, t)
      ensures !p.ignored ==>
                forall t: Table, k: Key, c: Counter | k in maps[t] && TableOf(k) == t && Concerns(k, p) ::
                  maps[t][k].Get(c) % WORD == (Reading(old(maps[t]), k, c) + p.Amount(c)) % WORD
    {
      hide Accounted, Reading, Concerns, TableOf;
      if p.ignored { return 1; }
      Count(UID, p);
      Count(UID_IF, p);
      Count(IFACE, p);
      Count(COOKIE, p);
      forall t: Table, k: Key, c: Counter | k in maps[t] && TableOf(k) == t && Concerns(k, p)
        ensures maps[t][k].Get(c) % WORD == (Reading(old(maps[t]), k, c) + p.Amount(c)) % WORD
      {
        AccountedRow(old(maps[t]), capacity(t), p, t, k, c);
      }
      return 1;
    }
  }
}
