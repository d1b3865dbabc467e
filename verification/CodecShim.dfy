/** Serving a synchronous MediaCodec client from a codec that works by callbacks: the callbacks fill two
    queues, the client's dequeue calls drain them. Synchronous mode: no callback object is set. */
module CodecShim {

  datatype Option<+T> = None | Some(value: T)

  const TRY_AGAIN := -1
  const FORMAT_CHANGED := -2
  const ANDROID_EOS := 4
  const OH_EOS := 1

  /** Buffer indices are unsigned 32-bit numbers; the client gets them as signed ones, so only those
      below 2^31 can be told from the negative codes. */
  type Index = i: nat | i < 0x8000_0000

  type Buffer = nat

  datatype Attr = Attr(pts: int, size: int, offset: int, flags: nat)

  datatype Out = Out(idx: Index, attr: Attr)

  /** What the client reads about an output buffer, and says about an input buffer. */
  datatype Info = Info(offset: int, size: int, pts: int, flags: nat)

  function InfoOf(a: Attr): Info {
    Info(a.offset, a.size, a.pts, if a.flags % 2 == OH_EOS then ANDROID_EOS else 0)
  }

  /** What the codec is told about an input buffer. */
  function InputAttr(i: Info): Attr {
    Attr(i.pts, i.size, i.offset, if i.flags / ANDROID_EOS % 2 == 1 then OH_EOS else 0)
  }

  // ---------------------------------------------------------------- the shim's own state

  datatype Shim = Shim(inIdx: seq<Index>, outQ: seq<Out>, inBufs: map<Index, Buffer>, outBufs: map<Index, Buffer>,
                       formatSent: bool, err: bool)

  const FRESH := Shim([], [], map[], map[], false, false)

  function NeedsInput(s: Shim, idx: Index, b: Buffer): Shim {
    s.(inIdx := s.inIdx + [idx], inBufs := s.inBufs[idx := b])
  }

  function NewOutput(s: Shim, idx: Index, a: Attr, b: Buffer): Shim {
    s.(outQ := s.outQ + [Out(idx, a)], outBufs := s.outBufs[idx := b])
  }

  function DequeuedInput(s: Shim): (Shim, int) {
    if s.inIdx == [] then (s, TRY_AGAIN) else (s.(inIdx := s.inIdx[1..]), s.inIdx[0])
  }

  function QueuedInput(s: Shim, idx: Index): (Shim, Option<Buffer>) {
    (s.(inBufs := s.inBufs - {idx}), if idx in s.inBufs then Some(s.inBufs[idx]) else None)
  }

  function Written(b: Option<Buffer>, a: Attr): Option<(Buffer, Attr)> {
    if b.Some? then Some((b.value, a)) else None
  }

  function DequeuedOutput(s: Shim): (Shim, int, Option<Info>) {
    if !s.formatSent then (s.(formatSent := true), FORMAT_CHANGED, None)
    else if s.outQ == [] then (s, TRY_AGAIN, None)
    else (s.(outQ := s.outQ[1..]), s.outQ[0].idx, Some(InfoOf(s.outQ[0].attr)))
  }

  function ReleasedOutput(s: Shim, idx: Index): Shim { s.(outBufs := s.outBufs - {idx}) }

  /** The queues are emptied; the retained buffers stay. */
  function Flushed(s: Shim): Shim { s.(inIdx := [], outQ := []) }

  // ---------------------------------------------------------------- shim, codec and client together

  /** Who holds the indices of one direction outside the shim's queue, and which buffer the codec last
      handed out for each. `cleared`: taken out of the queue by a flush that has yet to reach the codec. */
  datatype Holders = Holders(codec: set<Index>, client: set<Index>, cleared: set<Index>, handed: map<Index, Buffer>)

  /** What the client saw, in order. */
  datatype Event = FormatChanged | Delivered(idx: Index, info: Info)

  /** An input going to the codec: its index, and what was written to which buffer, if one was found. */
  datatype Push = Push(idx: Index, written: Option<(Buffer, Attr)>)

  /** `lost[i]`: the i-th output was in the queue when a flush emptied it. */
  datatype History = History(produced: seq<Out>, lost: seq<bool>, events: seq<Event>, pushes: seq<Push>)

  /** `flushing`: the client is in flush, between its two halves. */
  datatype State = State(shim: Shim, inputs: Holders, outputs: Holders, flushing: bool, history: History)

  datatype Step =
    | CodecNeedsInput(idx: Index, b: Buffer)
    | CodecOutputs(idx: Index, attr: Attr, b: Buffer)
    | CodecFails
    | DequeueInput(timeout: int)
    | QueueInput(idx: Index, info: Info)
    | DequeueOutput(timeout: int)
    | ReleaseOutput(idx: Index)
    | ClearQueues
    | FlushCodec

  function Initial(inputs: set<Index>, outputs: set<Index>): State {
    State(FRESH, Holders(inputs, {}, {}, map[]), Holders(outputs, {}, {}, map[]), false, History([], [], [], []))
  }

  /** The codec hands out only what it holds. The client returns only what it dequeued, makes one call at
      a time, and a dequeue with a negative timeout waits for a buffer or an error. */
  predicate Enabled(s: State, step: Step) {
    match step
    case CodecNeedsInput(idx, _) => idx in s.inputs.codec
    case CodecOutputs(idx, _, _) => idx in s.outputs.codec
    case CodecFails => true
    case DequeueInput(t) => !s.flushing && (t < 0 && s.shim.inIdx == [] ==> s.shim.err)
    case QueueInput(idx, _) => !s.flushing && idx in s.inputs.client
    case DequeueOutput(t) => !s.flushing && (t < 0 && s.shim.outQ == [] && s.shim.formatSent ==> s.shim.err)
    case ReleaseOutput(idx) => !s.flushing && idx in s.outputs.client
    case ClearQueues => !s.flushing
    case FlushCodec => s.flushing
  }

  function Handed(h: Holders, idx: Index, b: Buffer): Holders {
    h.(codec := h.codec - {idx}, handed := h.handed[idx := b])
  }

  function Taken(h: Holders, idx: Index): Holders { h.(client := h.client + {idx}) }

  function Returned(h: Holders, idx: Index): Holders { h.(codec := h.codec + {idx}, client := h.client - {idx}) }

  function Indices(outs: seq<Out>): seq<Index> { seq(|outs|, i requires 0 <= i < |outs| => outs[i].idx) }

  function Elems(queue: seq<Index>): set<Index> { set i | i in queue }

  function Cleared(h: Holders, queue: seq<Index>): Holders { h.(cleared := h.cleared + Elems(queue)) }

  /** The codec takes back everything it ever handed out, what is still queued included. */
  function Recalled(h: Holders, queue: seq<Index>): Holders {
    h.(codec := h.codec + h.client + h.cleared + Elems(queue), client := {}, cleared := {})
  }

  /** The newest `n` outputs are lost. */
  function MarkLost(h: History, n: nat): History {
    if n > |h.lost| then h else h.(lost := h.lost[..|h.lost| - n] + seq(n, _ => true))
  }

  function Apply(s: State, step: Step): State {
    match step
    case CodecNeedsInput(idx, b) => s.(shim := NeedsInput(s.shim, idx, b), inputs := Handed(s.inputs, idx, b))
    case CodecOutputs(idx, a, b) =>
      s.(shim := NewOutput(s.shim, idx, a, b), outputs := Handed(s.outputs, idx, b),
         history := s.history.(produced := s.history.produced + [Out(idx, a)], lost := s.history.lost + [false]))
    case CodecFails => s.(shim := s.shim.(err := true))
    case DequeueInput(_) =>
      var (shim, r) := DequeuedInput(s.shim);
      s.(shim := shim, inputs := if r >= 0 then Taken(s.inputs, r) else s.inputs)
    case QueueInput(idx, info) =>
      var (shim, b) := QueuedInput(s.shim, idx);
      s.(shim := shim, inputs := Returned(s.inputs, idx),
         history := s.history.(pushes := s.history.pushes + [Push(idx, Written(b, InputAttr(info)))]))
    case DequeueOutput(_) =>
      var (shim, r, info) := DequeuedOutput(s.shim);
      if r == FORMAT_CHANGED then s.(shim := shim, history := s.history.(events := s.history.events + [FormatChanged]))
      else if info.None? then s.(shim := shim)
      else
        s.(shim := shim, outputs := Taken(s.outputs, r),
           history := s.history.(events := s.history.events + [Delivered(r, info.value)]))
    case ReleaseOutput(idx) => s.(shim := ReleasedOutput(s.shim, idx), outputs := Returned(s.outputs, idx))
    case ClearQueues =>
      State(Flushed(s.shim), Cleared(s.inputs, s.shim.inIdx), Cleared(s.outputs, Indices(s.shim.outQ)), true,
            MarkLost(s.history, |s.shim.outQ|))
    case FlushCodec =>
      s.(inputs := Recalled(s.inputs, s.shim.inIdx), outputs := Recalled(s.outputs, Indices(s.shim.outQ)),
         flushing := false)
  }

  predicate Next(s: State, step: Step, s': State) { Enabled(s, step) && s' == Apply(s, step) }

  predicate Run(all: set<Index>, outs: set<Index>, states: seq<State>, steps: seq<Step>) {
    && |states| == |steps| + 1 && states[0] == Initial(all, outs)
    && forall i {:trigger steps[i]} | 0 <= i < |steps| :: Next(states[i], steps[i], states[i + 1])
  }

  // ---------------------------------------------------------------- ownership

  predicate NoDuplicates(s: seq<Index>) { forall i, j | 0 <= i < j < |s| :: s[i] != s[j] }

  /** Every index of one direction has exactly one owner (codec, queue or client, or a flush under way), and
      the shim retains the buffer that the codec last handed out with it where queue or client own it. */
  ghost predicate Owned(all: set<Index>, h: Holders, queue: seq<Index>, bufs: map<Index, Buffer>) {
    && NoDuplicates(queue)
    && (forall i :: i in all <==> i in h.codec || i in queue || i in h.client || i in h.cleared)
    && (forall i | i in h.codec :: i !in queue && i !in h.client && i !in h.cleared)
    && (forall i | i in queue :: i !in h.client && i !in h.cleared)
    && (forall i | i in h.client :: i !in h.cleared)
    && (forall i | i in queue || i in h.client :: i in bufs && i in h.handed && bufs[i] == h.handed[i])
  }

  lemma OwnedHanded(all: set<Index>, h: Holders, queue: seq<Index>, bufs: map<Index, Buffer>, idx: Index, b: Buffer)
    requires Owned(all, h, queue, bufs) && idx in h.codec
    ensures Owned(all, Handed(h, idx, b), queue + [idx], bufs[idx := b])
  {
    assert forall i :: i in queue + [idx] <==> i in queue || i == idx;
  }

  lemma OwnedTaken(all: set<Index>, h: Holders, queue: seq<Index>, bufs: map<Index, Buffer>)
    requires Owned(all, h, queue, bufs) && queue != []
    ensures Owned(all, Taken(h, queue[0]), queue[1..], bufs)
  {
    assert forall i :: i in queue <==> i in queue[1..] || i == queue[0];
    assert queue[0] !in queue[1..];
  }

  lemma OwnedReturned(all: set<Index>, h: Holders, queue: seq<Index>, bufs: map<Index, Buffer>, idx: Index)
    requires Owned(all, h, queue, bufs) && idx in h.client
    ensures Owned(all, Returned(h, idx), queue, bufs - {idx})
  {}

  lemma OwnedCleared(all: set<Index>, h: Holders, queue: seq<Index>, bufs: map<Index, Buffer>)
    requires Owned(all, h, queue, bufs)
    ensures Owned(all, Cleared(h, queue), [], bufs)
  {}

  /** What the codec takes back while it is queued has two owners from then on. */
  lemma OwnedRecalled(all: set<Index>, h: Holders, queue: seq<Index>, bufs: map<Index, Buffer>)
    requires Owned(all, h, queue, bufs)
    ensures Owned(all, Recalled(h, queue), queue, bufs) <==> queue == []
  {
    if queue != [] {
      var i := queue[0];
      assert i in queue && i in Recalled(h, queue).codec;
    }
  }

  // ---------------------------------------------------------------- order of delivery

  /** The outputs that no flush caught. */
  function Kept(outs: seq<Out>, lost: seq<bool>): seq<Out>
    requires |outs| == |lost|
  {
    if outs == [] then []
    else
      var n := |outs| - 1;
      Kept(outs[..n], lost[..n]) + if lost[n] then [] else [outs[n]]
  }

  function AsEvents(outs: seq<Out>): seq<Event> {
    seq(|outs|, i requires 0 <= i < |outs| => Delivered(outs[i].idx, InfoOf(outs[i].attr)))
  }

  /** The queue holds the newest outputs, none lost; the client saw the format and then the older ones. */
  ghost predicate Ordered(h: History, queue: seq<Out>, formatSent: bool) {
    && |h.lost| == |h.produced| && |queue| <= |h.produced|
    && var n := |h.produced| - |queue|;
    && h.produced[n..] == queue
    && (forall i | n <= i < |h.lost| :: !h.lost[i])
    && h.events == (if formatSent then [FormatChanged] else []) + AsEvents(Kept(h.produced[..n], h.lost[..n]))
    && (!formatSent ==> Kept(h.produced[..n], h.lost[..n]) == [])
  }

  lemma OrderedProduced(h: History, queue: seq<Out>, sent: bool, o: Out)
    requires Ordered(h, queue, sent)
    ensures Ordered(h.(produced := h.produced + [o], lost := h.lost + [false]), queue + [o], sent)
  {
    hide Kept, AsEvents;
    var n := |h.produced| - |queue|;
    assert (h.produced + [o])[..n] == h.produced[..n] && (h.lost + [false])[..n] == h.lost[..n];
  }

  lemma OrderedFormat(h: History, queue: seq<Out>)
    requires Ordered(h, queue, false)
    ensures Ordered(h.(events := h.events + [FormatChanged]), queue, true)
  {}

  lemma OrderedDelivered(h: History, queue: seq<Out>)
    requires Ordered(h, queue, true) && queue != []
    ensures Ordered(h.(events := h.events + [Delivered(queue[0].idx, InfoOf(queue[0].attr))]), queue[1..], true)
  {
    var n := |h.produced| - |queue|;
    assert queue[0] == h.produced[n];
    assert h.produced[..n + 1][..n] == h.produced[..n] && h.lost[..n + 1][..n] == h.lost[..n];
    assert Kept(h.produced[..n + 1], h.lost[..n + 1]) == Kept(h.produced[..n], h.lost[..n]) + [queue[0]];
  }

  lemma OrderedFlushed(h: History, queue: seq<Out>, sent: bool)
    requires Ordered(h, queue, sent)
    ensures Ordered(MarkLost(h, |queue|), [], sent)
  {
    hide Kept, AsEvents;
    var n := |h.produced| - |queue|;
    var lost := MarkLost(h, |queue|).lost;
    KeptLost(h.produced, lost, n);
    assert lost[..n] == h.lost[..n];
    assert h.produced[..|h.produced|] == h.produced && lost[..|lost|] == lost;
  }

  lemma {:induction false} KeptLost(outs: seq<Out>, lost: seq<bool>, n: nat)
    requires n <= |outs| == |lost| && forall i | n <= i < |lost| :: lost[i]
    ensures Kept(outs, lost) == Kept(outs[..n], lost[..n])
  {
    var m := |outs| - 1;
    if n <= m {
      KeptLost(outs[..m], lost[..m], n);
      assert outs[..m][..n] == outs[..n] && lost[..m][..n] == lost[..n];
    } else {
      assert outs[..n] == outs && lost[..n] == lost;
    }
  }

  lemma {:induction false} KeptTail(outs: seq<Out>, lost: seq<bool>, n: nat)
    requires n <= |outs| == |lost| && forall i | n <= i < |lost| :: !lost[i]
    ensures Kept(outs, lost) == Kept(outs[..n], lost[..n]) + outs[n..]
  {
    var m := |outs| - 1;
    if n <= m {
      KeptTail(outs[..m], lost[..m], n);
      assert outs[..m][..n] == outs[..n] && lost[..m][..n] == lost[..n];
      assert outs[n..] == outs[..m][n..] + [outs[m]];
    } else {
      assert outs[..n] == outs && lost[..n] == lost;
    }
  }

  // ---------------------------------------------------------------- every run: order

  lemma OrderedStep(s: State, step: Step)
    requires Ordered(s.history, s.shim.outQ, s.shim.formatSent)
    ensures var s' := Apply(s, step); Ordered(s'.history, s'.shim.outQ, s'.shim.formatSent)
  {
    hide Ordered;
    var q := s.shim.outQ;
    match step {
      case CodecOutputs(idx, a, b) => OrderedProduced(s.history, q, s.shim.formatSent, Out(idx, a));
      case QueueInput(idx, a) => OrderedPushed(s.history, Apply(s, step).history, q, s.shim.formatSent);
      case DequeueOutput(_) =>
        if !s.shim.formatSent {
          OrderedFormat(s.history, q);
        } else if q != [] {
          OrderedDelivered(s.history, q);
        }
      case ClearQueues => OrderedFlushed(s.history, q, s.shim.formatSent);
      case _ =>
    }
  }

  lemma OrderedPushed(h: History, h': History, queue: seq<Out>, sent: bool)
    requires Ordered(h, queue, sent) && h'.produced == h.produced && h'.lost == h.lost && h'.events == h.events
    ensures Ordered(h', queue, sent)
  {}

  lemma {:induction false} RunOrdered(ins: set<Index>, outs: set<Index>, states: seq<State>, steps: seq<Step>, n: nat)
    requires Run(ins, outs, states, steps) && n < |states|
    ensures Ordered(states[n].history, states[n].shim.outQ, states[n].shim.formatSent)
  {
    if n == 0 {
      assert states[0] == Initial(ins, outs);
    } else {
      RunOrdered(ins, outs, states, steps, n - 1);
      hide Ordered, Enabled, Apply;
      var step := steps[n - 1];
      assert Next(states[n - 1], step, states[n]);
      OrderedStep(states[n - 1], step);
    }
  }

  /** What the client is told of an output is what the codec said of it: place, size and time as they are,
      and of the flags the end of the stream, which is 1 to the codec and 4 to the client. */
  predicate Describes(e: Event, o: Out) {
    && e.Delivered? && e.idx == o.idx
    && e.info.offset == o.attr.offset && e.info.size == o.attr.size && e.info.pts == o.attr.pts
    && e.info.flags == if o.attr.flags % 2 == 1 then 4 else 0
  }

  /** In every run, whatever comes between the two halves of a flush, the client sees the format change
      exactly once, first, and then the codec's outputs in order: those seen and those still queued are
      together all that were not in the queue when a flush emptied it. */
  lemma OutputsInOrder(ins: set<Index>, outs: set<Index>, states: seq<State>, steps: seq<Step>, n: nat)
    requires Run(ins, outs, states, steps) && n < |states|
    ensures var h, q := states[n].history, states[n].shim.outQ;
            && |h.lost| == |h.produced|
            && (h.events == [] <==> !states[n].shim.formatSent)
            && (h.events == [] ==> Kept(h.produced, h.lost) == q)
            && (h.events != [] ==> h.events + AsEvents(q) == [FormatChanged] + AsEvents(Kept(h.produced, h.lost)))
    ensures var (h, kept) := (states[n].history, Kept(states[n].history.produced, states[n].history.lost));
            forall k | 0 <= k < |h.events| - 1 :: k < |kept| && Describes(h.events[k + 1], kept[k])
  {
    RunOrdered(ins, outs, states, steps, n);
    var h, q := states[n].history, states[n].shim.outQ;
    var k := |h.produced| - |q|;
    KeptTail(h.produced, h.lost, k);
    var seen := Kept(h.produced[..k], h.lost[..k]);
    assert AsEvents(seen + q) == AsEvents(seen) + AsEvents(q);
    forall j | 0 <= j < |h.events| - 1
      ensures j < |Kept(h.produced, h.lost)| && Describes(h.events[j + 1], Kept(h.produced, h.lost)[j])
    {
      assert h.events[j + 1] == (h.events + AsEvents(q))[j + 1];
    }
  }

  // ---------------------------------------------------------------- every run: ownership

  ghost predicate OneOwner(ins: set<Index>, outs: set<Index>, s: State) {
    && Owned(ins, s.inputs, s.shim.inIdx, s.shim.inBufs)
    && Owned(outs, s.outputs, Indices(s.shim.outQ), s.shim.outBufs)
  }

  /** No callback came between the halves of the flush, or what it queued is gone again. */
  predicate CleanFlush(s: State, step: Step) { step.FlushCodec? ==> s.shim.inIdx == [] && s.shim.outQ == [] }

  lemma OwnerStep(ins: set<Index>, outs: set<Index>, s: State, step: Step)
    requires OneOwner(ins, outs, s) && Enabled(s, step)
    ensures OneOwner(ins, outs, Apply(s, step)) <==> CleanFlush(s, step)
  {
    hide Owned;
    var q := s.shim.outQ;
    match step {
      case CodecNeedsInput(idx, b) => OwnedHanded(ins, s.inputs, s.shim.inIdx, s.shim.inBufs, idx, b);
      case CodecOutputs(idx, a, b) =>
        OwnedHanded(outs, s.outputs, Indices(q), s.shim.outBufs, idx, b);
        assert Indices(q + [Out(idx, a)]) == Indices(q) + [idx];
      case CodecFails =>
      case DequeueInput(_) =>
        if s.shim.inIdx != [] {
          OwnedTaken(ins, s.inputs, s.shim.inIdx, s.shim.inBufs);
        }
      case QueueInput(idx, _) => OwnedReturned(ins, s.inputs, s.shim.inIdx, s.shim.inBufs, idx);
      case DequeueOutput(_) =>
        if s.shim.formatSent && q != [] {
          OwnedTaken(outs, s.outputs, Indices(q), s.shim.outBufs);
          assert Indices(q[1..]) == Indices(q)[1..];
        }
      case ReleaseOutput(idx) => OwnedReturned(outs, s.outputs, Indices(q), s.shim.outBufs, idx);
      case ClearQueues =>
        OwnedCleared(ins, s.inputs, s.shim.inIdx, s.shim.inBufs);
        OwnedCleared(outs, s.outputs, Indices(q), s.shim.outBufs);
        assert Indices([]) == [];
      case FlushCodec =>
        OwnedRecalled(ins, s.inputs, s.shim.inIdx, s.shim.inBufs);
        OwnedRecalled(outs, s.outputs, Indices(q), s.shim.outBufs);
    }
  }

  lemma {:induction false} OwnedWhileClean(
      ins: set<Index>, outs: set<Index>, states: seq<State>, steps: seq<Step>, n: nat)
    requires Run(ins, outs, states, steps) && n < |states|
    requires forall k | 0 <= k < n :: CleanFlush(states[k], steps[k])
    ensures OneOwner(ins, outs, states[n])
  {
    if n == 0 {
      assert states[0] == Initial(ins, outs);
    } else {
      OwnedWhileClean(ins, outs, states, steps, n - 1);
      hide OneOwner, Enabled, Apply;
      var step := steps[n - 1];
      assert Next(states[n - 1], step, states[n]);
      OwnerStep(ins, outs, states[n - 1], step);
    }
  }

  /** Each input and each output index has one owner in all states of a run, and its buffer retained while
      it is queued or with the client, if and only if both queues are empty whenever a flush reaches the
      codec: that is, if what callbacks queue between the halves of a flush is nothing. */
  lemma OneOwnerIffCleanFlushes(ins: set<Index>, outs: set<Index>, states: seq<State>, steps: seq<Step>)
    requires Run(ins, outs, states, steps)
    ensures (forall n | 0 <= n < |states| :: OneOwner(ins, outs, states[n])) <==>
            (forall k | 0 <= k < |steps| :: CleanFlush(states[k], steps[k]))
  {
    hide OneOwner, CleanFlush;
    if forall k | 0 <= k < |steps| :: CleanFlush(states[k], steps[k]) {
      forall n | 0 <= n < |states| ensures OneOwner(ins, outs, states[n]) {
        OwnedWhileClean(ins, outs, states, steps, n);
      }
    } else if forall n | 0 <= n < |states| :: OneOwner(ins, outs, states[n]) {
      var k :| 0 <= k < |steps| && !CleanFlush(states[k], steps[k]);
      assert Next(states[k], steps[k], states[k + 1]);
      assert OneOwner(ins, outs, states[k]) && OneOwner(ins, outs, states[k + 1]);
      hide Enabled, Apply;
      OwnerStep(ins, outs, states[k], steps[k]);
    }
  }

  /** In such runs an input that the client queues finds its buffer, the one the codec handed out, and is
      written there. */
  lemma QueueFindsBuffer(ins: set<Index>, outs: set<Index>, states: seq<State>, steps: seq<Step>, n: nat)
    requires Run(ins, outs, states, steps) && n < |steps| && steps[n].QueueInput?
    requires forall k | 0 <= k < n :: CleanFlush(states[k], steps[k])
    ensures var (idx, s, s') := (steps[n].idx, states[n], states[n + 1]);
            && idx in s.inputs.handed
            && |s'.history.pushes| == |s.history.pushes| + 1
            && var push := s'.history.pushes[|s.history.pushes|];
            && push.idx == idx && push.written.Some? && push.written.value.0 == s.inputs.handed[idx]
            && var (attr, info) := (push.written.value.1, steps[n].info);
            && attr.offset == info.offset && attr.size == info.size && attr.pts == info.pts
            && attr.flags == if info.flags / 4 % 2 == 1 then 1 else 0
  {
    OwnedWhileClean(ins, outs, states, steps, n);
    assert Next(states[n], steps[n], states[n + 1]);
  }

  /** An output that comes between the halves of a flush is neither lost nor withdrawn: it is still queued
      when the flush is over, although its index is the codec's again, and so it is delivered next. */
  lemma OutputInFlushStays(ins: set<Index>, outs: set<Index>, states: seq<State>, steps: seq<Step>, n: nat)
    requires Run(ins, outs, states, steps) && n < |steps| && steps[n].FlushCodec?
    ensures var (s, s') := (states[n], states[n + 1]);
            && s'.shim.outQ == s.shim.outQ && s'.history == s.history
            && (forall o | o in s'.shim.outQ :: o.idx in s'.outputs.codec)
            && (s'.shim.outQ != [] && s'.shim.formatSent ==>
                  Apply(s', DequeueOutput(0)).history.events ==
                  s'.history.events + AsEvents([s'.shim.outQ[0]]))
  {
    RunOrdered(ins, outs, states, steps, n);
    assert Next(states[n], steps[n], states[n + 1]);
    var s, s' := states[n], states[n + 1];
    forall o | o in s'.shim.outQ ensures o.idx in s'.outputs.codec {
      var k :| 0 <= k < |s.shim.outQ| && s.shim.outQ[k] == o;
      assert Indices(s.shim.outQ)[k] == o.idx;
    }
  }

  /** A run that ends with both queues holding an index twice: one callback of each kind between the halves
      of a flush, and the same again after it. */
  lemma QueuedTwice(i: Index, o: Index, b: Buffer, a: Attr) returns (states: seq<State>, steps: seq<Step>)
    ensures Run({i}, {o}, states, steps)
    ensures var s := states[|steps|]; s.shim.inIdx == [i, i] && s.shim.outQ == [Out(o, a), Out(o, a)]
    ensures !OneOwner({i}, {o}, states[|steps|])
  {
    var s0 := Initial({i}, {o});
    var s1 := Apply(s0, ClearQueues);
    var s2 := Apply(s1, CodecNeedsInput(i, b));
    var s3 := Apply(s2, CodecOutputs(o, a, b));
    var s4 := Apply(s3, FlushCodec);
    assert s3.shim.inIdx == [i] && s3.shim.outQ == [Out(o, a)] && s3.flushing;
    FlushedBack(s3, i, o);
    hide Recalled, Cleared, Elems, Indices, MarkLost;
    var s5 := Apply(s4, CodecNeedsInput(i, b));
    var s6 := Apply(s5, CodecOutputs(o, a, b));
    states := [s0, s1, s2, s3, s4, s5, s6];
    steps := [ClearQueues, CodecNeedsInput(i, b), CodecOutputs(o, a, b), FlushCodec, CodecNeedsInput(i, b),
              CodecOutputs(o, a, b)];
    assert Next(s0, steps[0], s1) && Next(s1, steps[1], s2) && Next(s2, steps[2], s3);
    assert Next(s3, steps[3], s4) && Next(s4, steps[4], s5) && Next(s5, steps[5], s6);
    hide Apply, Enabled;
    assert s6.shim.inIdx[0] == s6.shim.inIdx[1];
  }

  lemma FlushedBack(s: State, i: Index, o: Index)
    requires i in s.shim.inIdx && s.shim.outQ != [] && s.shim.outQ[0].idx == o
    ensures var s' := Apply(s, FlushCodec); i in s'.inputs.codec && o in s'.outputs.codec && s'.shim == s.shim
  {
    assert Indices(s.shim.outQ)[0] == o;
  }

  predicate Callback(step: Step) { step.CodecNeedsInput? || step.CodecOutputs? }

  /** In terms of callbacks: between its halves a flush stays clean exactly while none comes. */
  lemma {:induction false} CleanIffNoCallback(
      ins: set<Index>, outs: set<Index>, states: seq<State>, steps: seq<Step>, c: nat, n: nat)
    requires Run(ins, outs, states, steps) && c < n < |states| && steps[c].ClearQueues?
    requires forall k | c < k < n :: !steps[k].FlushCodec?
    ensures states[n].flushing
    ensures states[n].shim.inIdx == [] && states[n].shim.outQ == [] <==>
            forall k | c < k < n :: !Callback(steps[k])
    decreases n
  {
    assert Next(states[n - 1], steps[n - 1], states[n]);
    if n == c + 1 {
      assert states[n].flushing;
    } else {
      CleanIffNoCallback(ins, outs, states, steps, c, n - 1);
    }
  }

  /** The client is in a flush exactly from its first half to its second. */
  lemma {:induction false} FlushingIff(ins: set<Index>, outs: set<Index>, states: seq<State>, steps: seq<Step>, n: nat)
    requires Run(ins, outs, states, steps) && n < |states|
    ensures states[n].flushing <==>
            exists c | 0 <= c < n :: steps[c].ClearQueues? && forall k | c < k < n :: !steps[k].FlushCodec?
  {
    if n == 0 {
    } else {
      FlushingIff(ins, outs, states, steps, n - 1);
      assert Next(states[n - 1], steps[n - 1], states[n]);
      hide NeedsInput, NewOutput, DequeuedInput, QueuedInput, DequeuedOutput, ReleasedOutput, MarkLost;
      if c :| 0 <= c < n && steps[c].ClearQueues? && forall k | c < k < n :: !steps[k].FlushCodec? {
        assert c < n - 1 ==> states[n - 1].flushing;
      }
    }
  }

  /** Outside a flush a dequeue that does not wait for ever always returns, and one that does returns
      exactly if there is something to return or the codec has failed; which it may at any time. */
  lemma DequeueReturns(s: State, t: int)
    requires !s.flushing
    ensures Enabled(s, DequeueInput(t)) <==> t >= 0 || s.shim.inIdx != [] || s.shim.err
    ensures Enabled(s, DequeueOutput(t)) <==> t >= 0 || s.shim.outQ != [] || s.shim.err || !s.shim.formatSent
    ensures Enabled(s, CodecFails)
    ensures var failed := Apply(s, CodecFails); Enabled(failed, DequeueInput(t)) && Enabled(failed, DequeueOutput(t))
  {}

  // ---------------------------------------------------------------- the object

  class Codec {
    var inIdx: seq<Index>
    var outQ: seq<Out>
    var inBufs: map<Index, Buffer>
    var outBufs: map<Index, Buffer>
    var formatSent: bool
    var err: bool

    ghost function View(): Shim reads this { Shim(inIdx, outQ, inBufs, outBufs, formatSent, err) }

    constructor ()
      ensures View() == FRESH
    {
      inIdx, outQ, inBufs, outBufs, formatSent, err := [], [], map[], map[], false, false;
    }

    method OnInput(idx: Index, b: Buffer)
      modifies this
      ensures View() == NeedsInput(old(View()), idx, b)
    {
      inIdx := inIdx + [idx];
      inBufs := inBufs[idx := b];
    }

    method OnOutput(idx: Index, a: Attr, b: Buffer)
      modifies this
      ensures View() == NewOutput(old(View()), idx, a, b)
    {
      outQ := outQ + [Out(idx, a)];
      outBufs := outBufs[idx := b];
    }

    method OnError()
      modifies this`err
      ensures err
    {
      err := true;
    }

    /** At the moment the lock is held for the last time: after any wait. */
    method DequeueInput() returns (r: int)
      modifies this
      ensures (View(), r) == DequeuedInput(old(View()))
      ensures if old(inIdx) == [] then r == -1 else old(inIdx) == [r] + inIdx
    {
      if inIdx == [] {
        return TRY_AGAIN;
      }
      r := inIdx[0];
      inIdx := inIdx[1..];
    }

    method QueueInput(idx: Index, info: Info) returns (p: Push)
      modifies this
      ensures View() == QueuedInput(old(View()), idx).0
      ensures p == Push(idx, Written(QueuedInput(old(View()), idx).1, InputAttr(info)))
    {
      p := Push(idx, if idx in inBufs then Some((inBufs[idx], InputAttr(info))) else None);
      inBufs := inBufs - {idx};
    }

    method DequeueOutput() returns (r: int, info: Option<Info>)
      modifies this
      ensures (View(), r, info) == DequeuedOutput(old(View()))
      ensures if !old(formatSent) then r == -2 else if old(outQ) == [] then r == -1 else r == old(outQ[0].idx)
    {
      if !formatSent {
        formatSent := true;
        return FORMAT_CHANGED, None;
      }
      if outQ == [] {
        return TRY_AGAIN, None;
      }
      var o := outQ[0];
      outQ := outQ[1..];
      return o.idx, Some(InfoOf(o.attr));
    }

    method ReleaseOutput(idx: Index)
      modifies this
      ensures View() == ReleasedOutput(old(View()), idx)
    {
      outBufs := outBufs - {idx};
    }

    method ClearQueues()
      modifies this
      ensures View() == Flushed(old(View()))
    {
      inIdx, outQ := [], [];
    }
  }

  /** What a client makes of the results of its calls. */
  method Call(c: Codec, step: Step) returns (events: seq<Event>, pushes: seq<Push>)
    modifies c
    ensures forall s: State | s.shim == old(c.View()) ::
              var s' := Apply(s, step);
              && c.View() == s'.shim
              && s'.history.events == s.history.events + events && s'.history.pushes == s.history.pushes + pushes
  {
    events, pushes := [], [];
    match step
    case CodecNeedsInput(idx, b) => c.OnInput(idx, b);
    case CodecOutputs(idx, a, b) => c.OnOutput(idx, a, b);
    case CodecFails => c.OnError();
    case DequeueInput(_) => var _ := c.DequeueInput();
    case QueueInput(idx, info) =>
      var p := c.QueueInput(idx, info);
      pushes := [p];
    case DequeueOutput(_) =>
      var r, info := c.DequeueOutput();
      if r == FORMAT_CHANGED {
        events := [FormatChanged];
      } else if info.Some? {
        events := [Delivered(r, info.value)];
      }
    case ReleaseOutput(idx) => c.ReleaseOutput(idx);
    case ClearQueues => c.ClearQueues();
    case FlushCodec =>
  }

  /** The object, driven through any run: what its calls returned is the format change once and first, and
      then, with what is still queued, every output that no flush found in the queue, in order. */
  method Drive(ghost ins: set<Index>, ghost outs: set<Index>, ghost states: seq<State>, steps: seq<Step>)
    returns (events: seq<Event>, pushes: seq<Push>, queue: seq<Out>)
    requires Run(ins, outs, states, steps)
    ensures var h := states[|steps|].history;
            && events == h.events && pushes == h.pushes && queue == states[|steps|].shim.outQ
            && |h.lost| == |h.produced|
            && (events != [] ==> events + AsEvents(queue) == [FormatChanged] + AsEvents(Kept(h.produced, h.lost)))
            && (events == [] ==> queue == Kept(h.produced, h.lost))
  {
    var c := new Codec();
    events, pushes := [], [];
    for k := 0 to |steps|
      invariant c.View() == states[k].shim
      invariant events == states[k].history.events && pushes == states[k].history.pushes
    {
      hide Apply, Enabled;
      assert Next(states[k], steps[k], states[k + 1]);
      var e, p := Call(c, steps[k]);
      events, pushes := events + e, pushes + p;
    }
    queue := c.outQ;
    OutputsInOrder(ins, outs, states, steps, |steps|);
  }
}
