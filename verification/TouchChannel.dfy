/** The touch side channel: touchfwd turns touchscreen events into one-line commands, the input bridge
    polls the file, scans the numbers and dispatches. What is dispatched is where the finger ended, and
    where it was last known to be when it went down, which need not be where this touch began. */
module TouchChannel {

  datatype Option<+T> = None | Some(value: T)

  const DRAG_THRESHOLD := 48
  const BUFFER := 64

  type Int32 = i: int | -0x8000_0000 <= i < 0x8000_0000

  // ---------------------------------------------------------------- printing

  function Digit(d: nat): char
    requires d < 10
  {
    '0' + d as char
  }

  function Decimal(n: nat): (s: string)
    ensures |s| > 0
  {
    if n < 10 then [Digit(n)] else Decimal(n / 10) + [Digit(n % 10)]
  }

  /** The `%d` conversion. */
  function Print(i: int): string { if i < 0 then "-" + Decimal(-i) else Decimal(i) }

  datatype Gesture = Tap(x: Int32, y: Int32) | Drag(x1: Int32, y1: Int32, x2: Int32, y2: Int32)

  function Line(g: Gesture): string {
    match g
    case Tap(x, y) => Print(x) + " " + Print(y) + "\n"
    case Drag(x1, y1, x2, y2) => Print(x1) + " " + Print(y1) + " " + Print(x2) + " " + Print(y2) + "\n"
  }

  /** snprintf into a buffer of 64: at most 63 characters arrive. */
  function Text(g: Gesture): string { Line(g)[..if |Line(g)| < BUFFER then |Line(g)| else BUFFER - 1] }

  // ---------------------------------------------------------------- scanning

  predicate IsDigit(c: char) { '0' <= c <= '9' }

  predicate IsSpace(c: char) { c == ' ' || '\t' <= c <= '\r' }

  function SkipSpace(s: string): string { if s != [] && IsSpace(s[0]) then SkipSpace(s[1..]) else s }

  /** Digits up to the first other character, after `acc`. */
  function ScanDigits(s: string, acc: nat): (nat, string) {
    if s != [] && IsDigit(s[0]) then ScanDigits(s[1..], 10 * acc + (s[0] - '0') as nat) else (acc, s)
  }

  /** One `%d`: spaces, a sign, at least one digit. */
  function ScanInt(s: string): Option<(int, string)> {
    var t := SkipSpace(s);
    var signed := t != [] && (t[0] == '-' || t[0] == '+');
    var u := if signed then t[1..] else t;
    if u == [] || !IsDigit(u[0]) then None
    else
      var (n, rest) := ScanDigits(u, 0);
      var value: int := n;
      Some((if signed && t[0] == '-' then -value else value, rest))
  }

  /** Up to `n` conversions; the length of the result is the count that sscanf returns (if not EOF). */
  function Scan(s: string, n: nat): (r: seq<int>)
    ensures |r| <= n
    decreases n
  {
    if n == 0 then []
    else
      var v := ScanInt(s);
      if v.None? then [] else [v.value.0] + Scan(v.value.1, n - 1)
  }

  /** What the bridge dispatches. */
  datatype Action = Touch(x: int, y: int) | DragAlong(x1: int, y1: int, x2: int, y2: int) | Nothing

  const TAB_X: seq<int> := [72, 216, 360, 504, 648]
  const TAB_Y := 1218

  function Interpret(v: seq<int>): Action {
    if |v| == 4 then DragAlong(v[0], v[1], v[2], v[3])
    else if |v| == 1 && 1 <= v[0] <= 5 then Touch(TAB_X[v[0] - 1], TAB_Y)
    else if |v| == 2 && v[0] >= 0 then Touch(v[0], v[1])
    else Nothing
  }

  /** A digit from 1 to 5 is a tap on that tab; the tabs are 144 apart. */
  lemma TabCommand(n: int)
    ensures Interpret([n]) == if 1 <= n <= 5 then Touch(144 * n - 72, 1218) else Nothing
  {}

  /** One poll of the control file: what is dispatched, and the file's content afterwards. */
  function Poll(content: string): (Action, string) {
    if content == [] then (Nothing, content)
    else (Interpret(Scan(content[..if |content| < BUFFER then |content| else BUFFER - 1], 4)), [])
  }

  // ---------------------------------------------------------------- scanning undoes printing

  lemma {:induction false} ScanDecimal(n: nat, rest: string)
    ensures ScanDigits(Decimal(n) + rest, 0) == ScanDigits(rest, n)
    ensures IsDigit(Decimal(n)[0])
  {
    var d := n % 10;
    assert ([Digit(d)] + rest)[0] == Digit(d) && ([Digit(d)] + rest)[1..] == rest;
    if n < 10 {
    } else {
      ScanDecimal(n / 10, [Digit(d)] + rest);
      assert Decimal(n) + rest == Decimal(n / 10) + ([Digit(d)] + rest);
    }
  }

  /** Any number, followed by anything but a digit, is scanned back as it was printed. */
  lemma ScanPrinted(i: int, rest: string)
    requires rest != [] ==> !IsDigit(rest[0])
    ensures ScanInt(Print(i) + rest) == Some((i, rest)) && (Print(i)[0] == '-' <==> i < 0)
  {
    var n := if i < 0 then -i else i;
    ScanDecimal(n, rest);
    var s := Print(i) + rest;
    assert s[0] == Print(i)[0];
    assert SkipSpace(s) == s;
    if i < 0 { assert s[1..] == Decimal(n) + rest; }
    assert ScanDigits(rest, n) == (n, rest);
  }

  lemma SpaceSkipped(s: string)
    ensures ScanInt(" " + s) == ScanInt(s)
  {
    assert (" " + s)[1..] == s;
    assert SkipSpace(" " + s) == SkipSpace(s);
  }

  lemma ScanNext(i: int, rest: string, n: nat)
    requires n > 0 && (rest != [] ==> !IsDigit(rest[0]))
    ensures Scan(Print(i) + rest, n) == [i] + Scan(rest, n - 1)
    ensures Scan(" " + (Print(i) + rest), n) == [i] + Scan(rest, n - 1)
  {
    ScanPrinted(i, rest);
    SpaceSkipped(Print(i) + rest);
  }

  lemma ScanEnd(n: nat)
    ensures Scan("\n", n) == []
  {
    assert SkipSpace("\n") == SkipSpace([]);
  }

  /** Every tap and every drag, whatever its coordinates, comes back as the same command. */
  lemma LineScans(g: Gesture)
    ensures Scan(Line(g), 4) == match g case Tap(x, y) => [x, y] case Drag(a, b, c, d) => [a, b, c, d]
  {
    hide Scan, Print;
    match g
    case Tap(x, y) =>
      var s2 := " " + (Print(y) + "\n");
      assert Line(g) == Print(x) + s2;
      ScanNext(x, s2, 4);
      ScanNext(y, "\n", 3);
      ScanEnd(2);
    case Drag(a, b, c, d) =>
      var s4 := " " + (Print(d) + "\n");
      var s3 := " " + (Print(c) + s4);
      var s2 := " " + (Print(b) + s3);
      assert Line(g) == Print(a) + s2;
      ScanNext(a, s2, 4);
      ScanNext(b, s3, 3);
      ScanNext(c, s4, 2);
      ScanNext(d, "\n", 1);
      ScanEnd(0);
  }

  lemma {:induction false} DecimalLength(n: nat, k: nat, bound: nat)
    requires k > 0 && n < bound && bound == Power10(k)
    ensures |Decimal(n)| <= k
  {
    if n < 10 {
    } else {
      DecimalLength(n / 10, k - 1, bound / 10);
    }
  }

  function Power10(k: nat): nat { if k == 0 then 1 else 10 * Power10(k - 1) }

  lemma PrintLength(i: Int32)
    ensures |Print(i)| <= 11
  {
    assert Power10(10) == 10 * Power10(9) == 100 * Power10(8) == 1000 * Power10(7) == 10000 * Power10(6);
    assert Power10(6) == 10 * Power10(5) == 100 * Power10(4) == 1000 * Power10(3) == 10000 * Power10(2) == 1000000;
    var v: int := i;
    DecimalLength(if v < 0 then -v else v, 10, 10000000000);
  }

  /** Every command fits the 64-byte buffers on both sides with room to spare, so nothing is cut off. */
  lemma LineFits(g: Gesture)
    ensures |Line(g)| <= 48 < BUFFER && Text(g) == Line(g)
  {
    match g
    case Tap(x, y) => PrintLength(x); PrintLength(y);
    case Drag(a, b, c, d) => PrintLength(a); PrintLength(b); PrintLength(c); PrintLength(d);
  }

  function Meant(g: Gesture): Action {
    match g
    case Tap(x, y) => if x >= 0 then Touch(x, y) else Nothing
    case Drag(a, b, c, d) => DragAlong(a, b, c, d)
  }

  /** A poll after a gesture dispatches that gesture, and the next one nothing: it fires exactly once. */
  lemma PollDispatches(g: Gesture)
    ensures Poll(Text(g)) == (Meant(g), []) && Poll(Poll(Text(g)).1) == (Nothing, [])
  {
    LineFits(g);
    LineScans(g);
    hide Scan, Line;
    var s := Text(g);
    assert s[..|s|] == s;
    TextNotEmpty(g);
  }

  lemma TextNotEmpty(g: Gesture)
    ensures Line(g) != []
  {}

  // ---------------------------------------------------------------- the file between them

  /** A command replaces the file's content; a poll consumes it. */
  datatype Access = Write(g: Gesture) | Read

  function Content(accesses: seq<Access>): string {
    if accesses == [] then []
    else
      var last := accesses[|accesses| - 1];
      if last.Write? then Text(last.g) else Poll(Content(accesses[..|accesses| - 1])).1
  }

  function Dispatched(accesses: seq<Access>): seq<Action> {
    if accesses == [] then []
    else
      var before := accesses[..|accesses| - 1];
      var rest := Dispatched(before);
      if accesses[|accesses| - 1].Write? then rest
      else
        var a := Poll(Content(before)).0;
        if a.Nothing? then rest else rest + [a]
  }

  /** The commands that a poll follows before the next command. */
  function Consumed(accesses: seq<Access>): seq<Gesture> {
    if |accesses| < 2 then []
    else
      var n := |accesses| - 1;
      Consumed(accesses[..n]) +
      if accesses[n].Read? && accesses[n - 1].Write? && !Meant(accesses[n - 1].g).Nothing?
      then [accesses[n - 1].g] else []
  }

  lemma {:induction false} ContentIsLastWrite(accesses: seq<Access>)
    ensures Content(accesses) ==
            if accesses != [] && accesses[|accesses| - 1].Write? then Text(accesses[|accesses| - 1].g) else []
  {
    hide Text;
    if accesses == [] {
    } else {
      ContentIsLastWrite(accesses[..|accesses| - 1]);
    }
  }

  /** Whatever the timing, the bridge dispatches exactly the commands that were polled before they were
      overwritten, in order and once each. */
  lemma {:induction false} EachPolledCommandOnce(accesses: seq<Access>)
    ensures |Dispatched(accesses)| == |Consumed(accesses)|
    ensures forall i | 0 <= i < |Dispatched(accesses)| :: Dispatched(accesses)[i] == Meant(Consumed(accesses)[i])
  {
    hide Text, Poll, Meant;
    if accesses == [] {
    } else {
      var n := |accesses| - 1;
      EachPolledCommandOnce(accesses[..n]);
      ContentIsLastWrite(accesses[..n]);
      if n > 0 && accesses[n - 1].Write? { PollDispatches(accesses[n - 1].g); }
      EmptyPoll();
    }
  }

  lemma EmptyPoll()
    ensures Poll([]) == (Nothing, [])
  {}

  /** A command can be lost: of two with no poll between them only the second is dispatched. */
  lemma OverwrittenUnread(g: Gesture, h: Gesture)
    ensures Dispatched([Write(g), Write(h), Read]) == if Meant(h).Nothing? then [] else [Meant(h)]
  {
    hide Text, Poll, Meant;
    var a := [Write(g), Write(h), Read];
    assert a[..2] == [Write(g), Write(h)] && a[..2][..1] == [Write(g)] && a[..2][..1][..0] == [];
    assert Consumed(a[..2]) == [];
    EachPolledCommandOnce(a);
    if !Meant(h).Nothing? {
      assert Consumed(a) == [h];
      assert Dispatched(a) == [Dispatched(a)[0]];
    }
  }

  // ---------------------------------------------------------------- the gesture state machine

  datatype Event = AbsX(v: Int32) | AbsY(v: Int32) | TrackingId(v: Int32) | TouchKey(v: Int32) | Report | Other

  datatype Finger = Finger(x: Int32, y: Int32, downX: Int32, downY: Int32, touching: bool, sawDown: bool)

  const IDLE := Finger(-1, -1, -1, -1, false, false)

  predicate GoesDown(f: Finger, e: Event) {
    (e.TrackingId? && e.v != -1 && !f.touching) || (e.TouchKey? && e.v != 0)
  }

  function Abs(i: int): nat { if i < 0 then -i else i }

  predicate Moved(f: Finger) {
    f.downX >= 0 && (Abs(f.x - f.downX) > DRAG_THRESHOLD || Abs(f.y - f.downY) > DRAG_THRESHOLD)
  }

  /** A report ends a gesture: the finger is up, went down before, and its position is known. */
  predicate Ends(f: Finger, e: Event) { e.Report? && !f.touching && f.sawDown && f.x >= 0 && f.y >= 0 }

  function Recognised(f: Finger): Gesture { if Moved(f) then Drag(f.downX, f.downY, f.x, f.y) else Tap(f.x, f.y) }

  function Next(f: Finger, e: Event): Finger {
    if GoesDown(f, e) then f.(touching := true, sawDown := true, downX := f.x, downY := f.y)
    else if Ends(f, e) then f.(sawDown := false, downX := -1, downY := -1)
    else
      match e
      case AbsX(v) => f.(x := v)
      case AbsY(v) => f.(y := v)
      case TrackingId(v) => if v == -1 then f.(touching := false) else f
      case TouchKey(_) => f.(touching := false)
      case Report => if f.touching && f.sawDown && f.downX < 0 then f.(downX := f.x, downY := f.y) else f
      case Other => f
  }

  function FingerAfter(es: seq<Event>): Finger {
    if es == [] then IDLE else Next(FingerAfter(es[..|es| - 1]), es[|es| - 1])
  }

  function Gestures(es: seq<Event>): seq<Gesture> {
    if es == [] then []
    else
      var before := es[..|es| - 1];
      Gestures(before) + if Ends(FingerAfter(before), es[|es| - 1]) then [Recognised(FingerAfter(before))] else []
  }

  function Downs(es: seq<Event>): nat {
    if es == [] then 0
    else Downs(es[..|es| - 1]) + if DownAt(es, |es| - 1) then 1 else 0
  }

  /** At most one command per touch: over every event sequence, each gesture uses up a touch-down. */
  lemma {:induction false} OneGesturePerDown(es: seq<Event>)
    ensures |Gestures(es)| + (if FingerAfter(es).sawDown then 1 else 0) <= Downs(es)
  {
    if es == [] {
    } else {
      OneGesturePerDown(es[..|es| - 1]);
      FingerTracks(es[..|es| - 1]);
      hide LastDown, LastEnd, StartOf;
    }
  }

  // ---------------------------------------------------------------- gestures from the events alone

  /** The position reported last. */
  function LastX(es: seq<Event>): Int32 {
    if es == [] then -1
    else
      var e := es[|es| - 1];
      if e.AbsX? then e.v else LastX(es[..|es| - 1])
  }

  function LastY(es: seq<Event>): Int32 {
    if es == [] then -1
    else
      var e := es[|es| - 1];
      if e.AbsY? then e.v else LastY(es[..|es| - 1])
  }

  /** The finger is down: of the tracking ids and the touch keys the last one says so. */
  predicate Touching(es: seq<Event>) {
    if es == [] then false
    else
      match es[|es| - 1]
      case TrackingId(v) => v != -1
      case TouchKey(v) => v != 0
      case _ => Touching(es[..|es| - 1])
  }

  /** Event `k` is a touch-down: a key press, or a tracking id while the finger is up. */
  predicate DownAt(es: seq<Event>, k: nat)
    requires k < |es|
  {
    || (es[k].TouchKey? && es[k].v != 0)
    || (es[k].TrackingId? && es[k].v != -1 && !Touching(es[..k]))
  }

  /** The last touch-down, and the report that ended the last gesture; -1 for none. A report ends a gesture
      if the finger is up and its position known, and there was a touch-down since the last end. */
  function LastDown(es: seq<Event>): (d: int)
    ensures -1 <= d < |es|
  {
    if es == [] then -1 else if DownAt(es, |es| - 1) then |es| - 1 else LastDown(es[..|es| - 1])
  }

  function LastEnd(es: seq<Event>): (e: int)
    ensures -1 <= e < |es|
  {
    if es == [] then -1
    else
      var (n, before) := (|es| - 1, es[..|es| - 1]);
      if && es[n].Report? && !Touching(before) && LastDown(before) > LastEnd(before)
         && LastX(before) >= 0 && LastY(before) >= 0
      then n
      else LastEnd(before)
  }

  /** A report with the finger down and its x known. */
  predicate Fixes(es: seq<Event>, r: int) {
    0 <= r < |es| && es[r].Report? && Touching(es[..r]) && LastX(es[..r]) >= 0
  }

  /** The first such report after event `d`. */
  function FirstFix(es: seq<Event>, d: nat): (r: Option<nat>)
    ensures r.Some? ==> d < r.value && Fixes(es, r.value) && forall j | d < j < r.value :: !Fixes(es, j)
    ensures r.None? ==> forall j | d < j < |es| :: !Fixes(es, j)
  {
    if |es| <= d + 1 then None
    else
      var n := |es| - 1;
      var before := FirstFix(es[..n], d);
      assert forall j | 0 <= j < n :: Fixes(es[..n], j) <==> Fixes(es, j) by {
        assert forall j | 0 <= j < n :: es[..n][..j] == es[..j];
      }
      if before.Some? then before else if Fixes(es, n) then Some(n) else None
  }

  /** The event at which the start of the present gesture is noted: its last touch-down, or, if x was not
      known then, the first report after it with x known. */
  function StartOf(es: seq<Event>): (s: Option<nat>)
    ensures s.Some? ==> 0 <= LastDown(es) <= s.value < |es| && LastX(es[..s.value]) >= 0
    ensures s.Some? && LastX(es[..LastDown(es)]) >= 0 ==> s.value == LastDown(es)
  {
    var d := LastDown(es);
    if d < 0 then None else if LastX(es[..d]) >= 0 then Some(d) else FirstFix(es, d)
  }

  /** The position at `s` is further than the threshold from the last one, along an axis. */
  predicate Far(es: seq<Event>, s: nat)
    requires s <= |es|
  {
    var dx, dy := LastX(es) - LastX(es[..s]), LastY(es) - LastY(es[..s]);
    !(-48 <= dx <= 48 && -48 <= dy <= 48)
  }

  /** The gesture that these events make when they end one. */
  function Made(es: seq<Event>): Gesture {
    var s := StartOf(es);
    if s.Some? && Far(es, s.value) then Drag(LastX(es[..s.value]), LastY(es[..s.value]), LastX(es), LastY(es))
    else Tap(LastX(es), LastY(es))
  }

  /** The finger's state, from the events. */
  ghost predicate Tracks(es: seq<Event>) {
    var f, s := FingerAfter(es), StartOf(es);
    && f.x == LastX(es) && f.y == LastY(es)
    && (f.touching <==> Touching(es)) && (f.sawDown <==> LastDown(es) > LastEnd(es))
    && (f.sawDown && s.Some? ==> f.downX == LastX(es[..s.value]) && f.downY == LastY(es[..s.value]))
    && (f.sawDown && s.None? ==> f.downX < 0)
  }

  lemma {:induction false} FingerTracks(es: seq<Event>)
    ensures Tracks(es)
  {
    if es == [] {
    } else {
      var n := |es| - 1;
      FingerTracks(es[..n]);
      TracksNext(es);
    }
  }

  lemma TracksNext(es: seq<Event>)
    requires es != [] && Tracks(es[..|es| - 1])
    ensures Tracks(es)
  {
    var n := |es| - 1;
    var before, e := es[..n], es[n];
    var f := FingerAfter(before);
    assert GoesDown(f, e) <==> DownAt(es, n);
    if GoesDown(f, e) {
      assert LastDown(es) == n && es[..n] == before;
    } else if f.sawDown && !Ends(f, e) {
      StartNext(es);
    }
  }

  /** How the start is noted, event by event. */
  lemma StartNext(es: seq<Event>)
    requires es != [] && !DownAt(es, |es| - 1)
    ensures var before := es[..|es| - 1];
            var s := StartOf(before);
            && LastDown(es) == LastDown(before)
            && (s.Some? ==> StartOf(es) == s && before[..s.value] == es[..s.value])
            && (s.None? && LastDown(es) >= 0 ==>
                  StartOf(es) == if Fixes(es, |es| - 1) then Some(|es| - 1) else None)
  {
    var n := |es| - 1;
    var before := es[..n];
    var d := LastDown(before);
    assert d >= 0 ==> before[..d] == es[..d];
    var s := StartOf(before);
    if s.Some? { assert before[..s.value] == es[..s.value]; }
  }

  /** Where the gestures end. */
  function EndsOf(es: seq<Event>): (ks: seq<nat>)
    ensures forall i | 0 <= i < |ks| :: ks[i] < |es|
  {
    if es == [] then []
    else EndsOf(es[..|es| - 1]) + if LastEnd(es) == |es| - 1 then [|es| - 1] else []
  }

  lemma EndsWhere(es: seq<Event>)
    requires es != []
    ensures LastEnd(es) == |es| - 1 <==> Ends(FingerAfter(es[..|es| - 1]), es[|es| - 1])
  {
    FingerTracks(es[..|es| - 1]);
  }

  lemma {:induction false} EndsCounted(es: seq<Event>)
    ensures |EndsOf(es)| == |Gestures(es)|
  {
    if es == [] {
    } else {
      hide LastEnd, FingerAfter, Ends, Recognised;
      EndsCounted(es[..|es| - 1]);
      EndsWhere(es);
    }
  }

  lemma {:induction false} GestureAt(es: seq<Event>, i: nat)
    requires i < |EndsOf(es)| == |Gestures(es)|
    ensures var k := EndsOf(es)[i];
            Gestures(es)[i] == Recognised(FingerAfter(es[..k])) && Ends(FingerAfter(es[..k]), es[k])
  {
    hide LastEnd, FingerAfter, Ends, Recognised;
    var n := |es| - 1;
    EndsWhere(es);
    EndsCounted(es[..n]);
    if i < |Gestures(es[..n])| {
      GestureAt(es[..n], i);
      assert es[..n][..EndsOf(es)[i]] == es[..EndsOf(es)[i]];
    }
  }

  /** Every gesture that is sent is what the events up to its end make of it: a drag exactly if a start was
      noted and it lies further than the threshold from the end, along an axis, and then from that start
      to that end; else a tap at the end. It is dispatched as such. */
  lemma DispatchedAsMade(es: seq<Event>, i: nat)
    requires i < |Gestures(es)|
    ensures |EndsOf(es)| == |Gestures(es)|
    ensures var k := EndsOf(es)[i];
            && Gestures(es)[i] == Made(es[..k])
            && Poll(Text(Gestures(es)[i])).0 == (match Made(es[..k])
                                                 case Tap(x, y) => Touch(x, y)
                                                 case Drag(a, b, c, d) => DragAlong(a, b, c, d))
  {
    hide Poll, Text;
    EndsCounted(es);
    var k := EndsOf(es)[i];
    GestureAt(es, i);
    FingerTracks(es[..k]);
    hide StartOf, LastX, LastY, LastDown, LastEnd, Gestures, EndsOf;
    PollDispatches(Gestures(es)[i]);
  }

  // ---------------------------------------------------------------- is the start one of this touch?

  predicate HasX(es: seq<Event>, lo: nat, hi: nat) { exists j :: lo <= j < hi && j < |es| && es[j].AbsX? }

  predicate HasY(es: seq<Event>, lo: nat, hi: nat) { exists j :: lo <= j < hi && j < |es| && es[j].AbsY? }

  lemma {:induction false} XStays(es: seq<Event>, lo: nat, hi: nat)
    requires lo <= hi <= |es| && !HasX(es, lo, hi)
    ensures LastX(es[..hi]) == LastX(es[..lo])
    decreases hi
  {
    if lo == hi {
    } else {
      XStays(es, lo, hi - 1);
      assert es[..hi][..hi - 1] == es[..hi - 1];
    }
  }

  lemma {:induction false} YStays(es: seq<Event>, lo: nat, hi: nat)
    requires lo <= hi <= |es| && !HasY(es, lo, hi)
    ensures LastY(es[..hi]) == LastY(es[..lo])
    decreases hi
  {
    if lo == hi {
    } else {
      YStays(es, lo, hi - 1);
      assert es[..hi][..hi - 1] == es[..hi - 1];
    }
  }

  /** The start is a position of this touch if both coordinates were reported since the last gesture ended
      and before the start is noted. That is so if and only if they came before the touch-down (positions
      ahead of the tracking id, or a key press after them), or else x was unknown at the touch-down and y
      came before the first report with x known. A coordinate that was not is where the last gesture ended. */
  lemma StartInTouchIff(es: seq<Event>)
    requires FingerAfter(es).sawDown && StartOf(es).Some?
    ensures var (lo, d, s) := (LastEnd(es) + 1, LastDown(es), StartOf(es).value);
            && lo <= d <= s < |es|
            && (HasX(es, lo, s) && HasY(es, lo, s) <==>
                  if LastX(es[..d]) >= 0 then HasX(es, lo, d) && HasY(es, lo, d) else HasY(es, lo, s))
            && (!HasX(es, lo, s) ==> LastX(es[..s]) == LastX(es[..lo]))
            && (!HasY(es, lo, s) ==> LastY(es[..s]) == LastY(es[..lo]))
  {
    hide *;
    StartWithin(es);
    ReportedIff(es, LastEnd(es) + 1, LastDown(es), StartOf(es).value);
  }

  lemma StartWithin(es: seq<Event>)
    requires FingerAfter(es).sawDown && StartOf(es).Some?
    ensures 0 <= LastEnd(es) + 1 <= LastDown(es) <= StartOf(es).value < |es|
  {
    FingerTracks(es);
    hide StartOf, FingerAfter;
  }

  /** For a start noted at `s`, after a touch-down at `d`, in a gesture that begins at `lo`. */
  lemma ReportedIff(es: seq<Event>, lo: nat, d: nat, s: nat)
    requires lo <= d <= s < |es| && LastX(es[..s]) >= 0 && (LastX(es[..d]) >= 0 ==> s == d)
    ensures HasX(es, lo, s) && HasY(es, lo, s) <==>
            if LastX(es[..d]) >= 0 then HasX(es, lo, d) && HasY(es, lo, d) else HasY(es, lo, s)
    ensures !HasX(es, lo, s) ==> LastX(es[..s]) == LastX(es[..lo])
    ensures !HasY(es, lo, s) ==> LastY(es[..s]) == LastY(es[..lo])
  {
    NarrowX(es, lo, d, s);
    hide *;
    if !HasX(es, lo, s) {
      XStays(es, lo, s);
      XStays(es, d, s);
    }
    if !HasY(es, lo, s) { YStays(es, lo, s); }
  }

  lemma NarrowX(es: seq<Event>, lo: nat, d: nat, hi: nat)
    requires lo <= d
    ensures HasX(es, d, hi) ==> HasX(es, lo, hi)
  {}

  /** A tap at (100, 100), and then one at (500, 100) whose tracking id comes ahead of its position: it is
      sent as a drag that starts where the first tap was. */
  lemma StaleStart() returns (es: seq<Event>)
    ensures Gestures(es) == [Tap(100, 100), Drag(100, 100, 500, 100)]
  {
    hide FingerAfter, Gestures;
    es := [];
    NoEvents();
    es := Then(es, TrackingId(1));
    es := Then(es, AbsX(100));
    es := Then(es, AbsY(100));
    es := Then(es, TrackingId(-1));
    es := Then(es, Report);
    es := Then(es, TrackingId(2));
    es := Then(es, AbsX(500));
    es := Then(es, TrackingId(-1));
    es := Then(es, Report);
  }

  /** A finger that goes down at an unknown x and lifts far away before the next report is sent as a tap. */
  lemma FarMoveAsTap() returns (es: seq<Event>)
    ensures Gestures(es) == [Tap(900, 0)] && |es| == 6 && es[2] == TouchKey(1) && es[3] == AbsX(900)
  {
    hide FingerAfter, Gestures;
    es := [];
    NoEvents();
    es := Then(es, AbsX(-5));
    es := Then(es, AbsY(0));
    es := Then(es, TouchKey(1));
    es := Then(es, AbsX(900));
    es := Then(es, TouchKey(0));
    es := Then(es, Report);
  }

  lemma NoEvents()
    ensures FingerAfter([]) == IDLE && Gestures([]) == []
  {}

  lemma Then(es: seq<Event>, e: Event) returns (r: seq<Event>)
    ensures r == es + [e] && FingerAfter(r) == Next(FingerAfter(es), e)
    ensures Gestures(r) == Gestures(es) + if Ends(FingerAfter(es), e) then [Recognised(FingerAfter(es))] else []
  {
    r := es + [e];
    assert r[..|es|] == es;
  }

  /** touchfwd's loop: `sent` is what is written to the channel, one text per gesture. */
  method Forward(es: seq<Event>) returns (sent: seq<string>)
    ensures |sent| == |Gestures(es)| && forall i | 0 <= i < |sent| :: sent[i] == Text(Gestures(es)[i])
  {
    hide Text, Line, Print;
    sent := [];
    var x: Int32, y: Int32, downX: Int32, downY: Int32, touching, sawDown := -1, -1, -1, -1, false, false;
    for k := 0 to |es|
      invariant Finger(x, y, downX, downY, touching, sawDown) == FingerAfter(es[..k])
      invariant |sent| == |Gestures(es[..k])|
      invariant forall i | 0 <= i < |sent| :: sent[i] == Text(Gestures(es[..k])[i])
    {
      assert es[..k + 1][..k] == es[..k];
      ghost var f := FingerAfter(es[..k]);
      assert Gestures(es[..k + 1]) == Gestures(es[..k]) + if Ends(f, es[k]) then [Recognised(f)] else [];
      match es[k]
      case AbsX(v) => x := v;
      case AbsY(v) => y := v;
      case TrackingId(v) =>
        if v == -1 {
          touching := false;
        } else if !touching {
          touching, sawDown, downX, downY := true, true, x, y;
        }
      case TouchKey(v) =>
        if v != 0 {
          touching, sawDown, downX, downY := true, true, x, y;
        } else {
          touching := false;
        }
      case Report =>
        if touching && sawDown && downX < 0 {
          downX, downY := x, y;
        }
        if !touching && sawDown && x >= 0 && y >= 0 {
          var dx, dy := x - downX, y - downY;
          if dx < 0 { dx := -dx; }
          if dy < 0 { dy := -dy; }
          if downX >= 0 && (dx > DRAG_THRESHOLD || dy > DRAG_THRESHOLD) {
            sent := sent + [Text(Drag(downX, downY, x, y))];
          } else {
            sent := sent + [Text(Tap(x, y))];
          }
          sawDown, downX, downY := false, -1, -1;
        }
      case Other =>
    }
    assert es[..|es|] == es;
  }
}
