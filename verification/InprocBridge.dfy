/** The lock-protected regions that work on the pending queue, as the code writes them: loops over
    the vector, erasing in place. Each is proved equal to the queue function the interleavings use. */
module InprocBridge {
  import opened InprocService

  /** What a round does with a bind: hand it over if its service is there, else drop it if it is past its
      deadline, else leave it. */
  datatype Turn = HandsOver | Drops | Leaves

  function TurnOf(p: Pending, ready: ClassName -> bool, late: Pending -> bool): Turn {
    if ready(p.cls) then HandsOver else if late(p) then Drops else Leaves
  }

  /** The binds of a batch with this turn, in order. */
  function Those(batch: seq<Pending>, ready: ClassName -> bool, late: Pending -> bool, want: Turn): seq<Pending> {
    if batch == [] then []
    else
      var last := batch[|batch| - 1];
      Those(batch[..|batch| - 1], ready, late, want) + if TurnOf(last, ready, late) == want then [last] else []
  }

  lemma {:induction false} ThoseWhich(
      batch: seq<Pending>, ready: ClassName -> bool, late: Pending -> bool, want: Turn, p: Pending)
    ensures p in Those(batch, ready, late, want) <==> p in batch && TurnOf(p, ready, late) == want
  {
    if batch == [] {
    } else {
      hide TurnOf;
      ThoseWhich(batch[..|batch| - 1], ready, late, want, p);
      assert p in batch <==> p in batch[..|batch| - 1] || p == batch[|batch| - 1];
    }
  }

  lemma TurnTaken(batch: seq<Pending>, ready: ClassName -> bool, late: Pending -> bool, p: Pending)
    requires p in batch
    ensures p in Those(batch, ready, late, HandsOver) <==> ready(p.cls)
    ensures p in Those(batch, ready, late, Drops) <==> !ready(p.cls) && late(p)
    ensures p in Those(batch, ready, late, Leaves) <==> !ready(p.cls) && !late(p)
  {
    ThoseWhich(batch, ready, late, HandsOver, p);
    ThoseWhich(batch, ready, late, Drops, p);
    ThoseWhich(batch, ready, late, Leaves, p);
    hide Those;
  }

  ghost predicate NoDuplicates(q: seq<Pending>) {
    forall i, j | 0 <= i < j < |q| :: q[i].connId != q[j].connId || q[i].cls != q[j].cls
  }

  lemma ThoseNext(batch: seq<Pending>, i: nat, ready: ClassName -> bool, late: Pending -> bool, want: Turn)
    requires i < |batch|
    ensures Those(batch[..i + 1], ready, late, want) ==
            Those(batch[..i], ready, late, want) + if TurnOf(batch[i], ready, late) == want then [batch[i]] else []
  {
    assert batch[..i + 1][..i] == batch[..i];
  }

  /** The first entry of a duplicate-free queue for the head of its tail part is that head. */
  lemma FindsHead(kept: seq<Pending>, p: Pending, rest: seq<Pending>)
    requires NoDuplicates(kept + [p] + rest)
    ensures IndexOf(kept + [p] + rest, p.connId, p.cls) == |kept|
    ensures Erase(kept + [p] + rest, |kept|) == kept + rest
  {
    assert (kept + [p] + rest)[|kept|] == p;
  }

  lemma ShorterNoDuplicates(a: seq<Pending>, p: Pending, b: seq<Pending>)
    requires NoDuplicates(a + [p] + b)
    ensures NoDuplicates(a + b)
  {
    var long, short := a + [p] + b, a + b;
    forall i, j | 0 <= i < j < |short|
      ensures short[i].connId != short[j].connId || short[i].cls != short[j].cls
    {
      var i0, j0 := if i < |a| then i else i + 1, if j < |a| then j else j + 1;
      assert short[i] == long[i0] && short[j] == long[j0];
    }
  }

  class BindQueue {
    var pending: seq<Pending>
    var connIds: set<int>
    var workerRunning: bool
    var tickets: seq<Ticket>  // history: every bind ever queued

    function Q(): Queue
      reads this
    {
      Queue(pending, tickets)
    }

    /** The loop that looks for an entry of this connection and class. */
    method Find(connId: int, cls: ClassName) returns (i: nat)
      ensures i == IndexOf(pending, connId, cls)
    {
      i := 0;
      while i < |pending| && !(pending[i].connId == connId && pending[i].cls == cls)
        invariant i <= |pending|
        invariant forall k | 0 <= k < i :: !(pending[k].connId == connId && pending[k].cls == cls)
      {
        i := i + 1;
      }
    }

    method EraseAt(i: nat, fate: Fate)
      requires i < |pending|
      modifies this`pending, this`tickets
      ensures Q() == Leave(old(Q()), i, fate)
    {
      tickets := Leave(Q(), i, fate).tickets;
      pending := pending[..i] + pending[i + 1..];
    }

    /** The worker's claim. */
    method Claim(connId: int, cls: ClassName, fate: Fate) returns (claimed: bool)
      modifies this`pending, this`tickets
      ensures claimed <==> IndexOf(old(pending), connId, cls) < |old(pending)|
      ensures Q() == LeaveIfPresent(old(Q()), IndexOf(old(pending), connId, cls), fate)
      ensures claimed ==> pending == Erase(old(pending), IndexOf(old(pending), connId, cls))
    {
      var i := Find(connId, cls);
      claimed := i < |pending|;
      if claimed { EraseAt(i, fate); }
    }

    /** The queueing region of inproc_bindService2; `spawnOk` is what pthread_create returns. The bind
        is accepted exactly when a worker is running afterwards. */
    method Enqueue(cls: ClassName, connId: int, spawnOk: bool) returns (accepted: bool)
      modifies this
      ensures connIds == old(connIds)
      ensures accepted <==> old(workerRunning) || spawnOk
      ensures workerRunning == accepted
      ensures var q := Enqueued(old(Q()), cls, connId);
              Q() == if accepted then q else LeaveIfPresent(q, IndexOf(q.pending, connId, cls), RolledBack)
    {
      var dup := Find(connId, cls);
      if dup == |pending| {
        pending := pending + [Pending(cls, connId, |tickets|)];
        tickets := tickets + [Ticket(cls, connId, Queued)];
      }
      accepted := true;
      if !workerRunning {
        if spawnOk {
          workerRunning := true;
        } else {
          var i := Find(connId, cls);
          if i < |pending| { EraseAt(i, RolledBack); }
          accepted := false;
        }
      }
    }

    /** inproc_disconnect: 0 when the connection was owned here, -1 to route it elsewhere. */
    method Disconnect(connId: int) returns (rc: int)
      modifies this`pending, this`tickets, this`connIds
      ensures Q() == LeaveIfPresent(old(Q()), IndexOfConn(old(pending), connId), Disconnected)
      ensures connIds == old(connIds) - {connId}
      ensures rc == if connId in old(connIds) then 0 else -1
    {
      var i := 0;
      while i < |pending| && pending[i].connId != connId
        invariant i <= |pending|
        invariant forall k | 0 <= k < i :: pending[k].connId != connId
      {
        i := i + 1;
      }
      if i < |pending| { EraseAt(i, Disconnected); }
      rc := if connId in connIds then 0 else -1;
      connIds := connIds - {connId};
    }

    /** One entry of a round: claim it unless it is left. */
    method Offer(p: Pending, turn: Turn, ghost kept: seq<Pending>, ghost rest: seq<Pending>)
      requires pending == kept + [p] + rest && NoDuplicates(pending)
      modifies this`pending, this`tickets
      ensures pending == (if turn.Leaves? then kept + [p] else kept) + rest && NoDuplicates(pending)
    {
      if !turn.Leaves? {
        FindsHead(kept, p, rest);
        ShorterNoDuplicates(kept, p, rest);
        hide NoDuplicates, IndexOf, Erase;
        var claimed := Claim(p.connId, p.cls, if turn.HandsOver? then Claimed else TimedOut);
      }
    }

    /** One round of the worker when no other thread interferes: it hands out exactly the binds whose
        service is ready, drops exactly those that are late besides, and leaves exactly the others queued,
        each in the order they were queued. */
    method WorkerRound(ready: ClassName -> bool, late: Pending -> bool)
      returns (delivered: seq<Pending>, dropped: seq<Pending>)
      requires NoDuplicates(pending)
      modifies this`pending, this`tickets
      ensures delivered == Those(old(pending), ready, late, HandsOver)
      ensures dropped == Those(old(pending), ready, late, Drops)
      ensures pending == Those(old(pending), ready, late, Leaves)
      ensures forall p | p in old(pending) ::
                && (p in delivered <==> ready(p.cls)) && (p in dropped <==> !ready(p.cls) && late(p))
                && (p in pending <==> !ready(p.cls) && !late(p))
    {
      var batch := pending;
      ghost var kept := [];
      delivered, dropped := [], [];
      ThoseNone(ready, late);
      hide Those, NoDuplicates, TurnOf;
      var i := 0;
      assert batch[..0] == [];
      while i < |batch|
        invariant i <= |batch| && batch == old(pending)
        invariant delivered == Those(batch[..i], ready, late, HandsOver)
        invariant dropped == Those(batch[..i], ready, late, Drops)
        invariant kept == Those(batch[..i], ready, late, Leaves)
        invariant pending == kept + batch[i..] && NoDuplicates(pending)
      {
        ThoseNext(batch, i, ready, late, HandsOver);
        ThoseNext(batch, i, ready, late, Drops);
        ThoseNext(batch, i, ready, late, Leaves);
        assert kept + batch[i..] == kept + [batch[i]] + batch[i + 1..];
        var turn := TurnOf(batch[i], ready, late);
        Offer(batch[i], turn, kept, batch[i + 1..]);
        match turn {
          case HandsOver => delivered := delivered + [batch[i]];
          case Drops => dropped := dropped + [batch[i]];
          case Leaves => kept := kept + [batch[i]];
        }
        i := i + 1;
      }
      assert batch[..i] == batch && kept + batch[i..] == kept;
      forall p | p in batch
        ensures (p in delivered <==> ready(p.cls)) && (p in dropped <==> !ready(p.cls) && late(p))
        ensures p in pending <==> !ready(p.cls) && !late(p)
      {
        TurnTaken(batch, ready, late, p);
      }
    }
  }

  lemma ThoseNone(ready: ClassName -> bool, late: Pending -> bool)
    ensures forall want: Turn :: Those([], ready, late, want) == []
  {}
}
