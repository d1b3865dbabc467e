/** The two recipes that null call sites of a binary: every listed `bl` becomes `mov x0, xzr`. Recipe 589
    skips the sites of four needles, recipe 591 takes them all; both refuse a site that holds anything
    else, before the output file is written. */
module NeedlePatch {

  datatype Option<+T> = None | Some(value: T)

  type Byte = b: nat | b < 256

  const MOV_X0_XZR := 0xaa1f03e0
  const TEXT_VA := 0x6df000
  const TEXT_OFF := 0x6de000
  const KEEP := {"SurfaceControl", "com/google/gson", "androidx/lifecycle", "java/lang/reflect"}

  /** The table: needles in file order, each with the addresses of its calls. */
  type Table = seq<(string, seq<int>)>

  // ---------------------------------------------------------------- words of a binary

  function Word(b: seq<Byte>, off: nat): nat
    requires off + 4 <= |b|
  {
    var b0: int, b1: int, b2: int, b3: int := b[off], b[off + 1], b[off + 2], b[off + 3];
    b0 + 0x100 * b1 + 0x1_0000 * b2 + 0x100_0000 * b3
  }

  /** `mov x0, xzr`, least significant byte first. */
  const MOV: seq<Byte> := [0xe0, 0x03, 0x1f, 0xaa]

  function Put(b: seq<Byte>, off: nat): (r: seq<Byte>)
    requires off + 4 <= |b|
    ensures |r| == |b|
  {
    b[..off] + MOV + b[off + 4..]
  }

  /** The top six bits of a `bl` are 100101. */
  predicate IsBl(w: nat) { w / 0x400_0000 == 37 }

  /** Where an address is in the file; a negative offset counts from the end, as it does in Python. */
  function Offset(size: nat, va: int): Option<nat> {
    var off := TEXT_OFF + (va - TEXT_VA);
    var at := if off < 0 then off + size else off;
    if (off < 0 && off + 4 > 0) || at < 0 || at + 4 > size then None else Some(at)
  }

  // ---------------------------------------------------------------- the recipes as functions

  datatype Result = Done(bytes: seq<Byte>, patched: nat) | Refused | OutOfRange

  /** One site: already nulled, a call to null, or the end. */
  function NullSite(b: seq<Byte>, va: int): (r: Result)
    ensures r.Done? ==> |r.bytes| == |b|
  {
    var off := Offset(|b|, va);
    if off.None? then OutOfRange
    else
      var w := Word(b, off.value);
      if w == MOV_X0_XZR then Done(b, 0)
      else if !IsBl(w) then Refused
      else Done(Put(b, off.value), 1)
  }

  function NullSites(b: seq<Byte>, sites: seq<int>): (r: Result)
    ensures r.Done? ==> |r.bytes| == |b|
  {
    if sites == [] then Done(b, 0)
    else
      var before := NullSites(b, sites[..|sites| - 1]);
      if !before.Done? then before
      else
        var r := NullSite(before.bytes, sites[|sites| - 1]);
        if r.Done? then Done(r.bytes, before.patched + r.patched) else r
  }

  /** The sites a recipe goes through, in order. */
  function Sites(t: Table, keep: set<string>): seq<int> {
    if t == [] then []
    else
      var last := t[|t| - 1];
      Sites(t[..|t| - 1], keep) + if last.0 in keep then [] else last.1
  }

  function Patch589(b: seq<Byte>, t: Table): Result { NullSites(b, Sites(t, KEEP)) }

  function Patch591(b: seq<Byte>, t: Table): Result { NullSites(b, Sites(t, {})) }

  // ---------------------------------------------------------------- sites of a binary of size n

  predicate InFile(n: nat, va: int) { Offset(n, va).Some? }

  function At(n: nat, va: int): (off: nat)
    requires InFile(n, va)
    ensures off + 4 <= n
  {
    Offset(n, va).value
  }

  /** The text is loaded 0x1000 further on than it lies in the file. An address before the file's start
      counts from its end, as long as its word does not reach the start. */
  lemma PlaceOf(n: nat, va: int)
    ensures va >= 0x1000 ==> (InFile(n, va) <==> va - 0x1000 + 4 <= n)
    ensures va < 0x1000 ==> (InFile(n, va) <==> va + 4 <= 0x1000 && 0x1000 - va <= n)
    ensures InFile(n, va) ==> At(n, va) == if va >= 0x1000 then va - 0x1000 else n - (0x1000 - va)
  {}

  /** Recipe 589 leaves out the sites of four needles, recipe 591 none. */
  lemma {:induction false} SiteOf(t: Table, va: int)
    ensures va in Sites(t, KEEP) <==>
            exists k | 0 <= k < |t| :: va in t[k].1 &&
              t[k].0 !in {"SurfaceControl", "com/google/gson", "androidx/lifecycle", "java/lang/reflect"}
    ensures va in Sites(t, {}) <==> exists k | 0 <= k < |t| :: va in t[k].1
  {
    if t == [] {
    } else {
      var n := |t| - 1;
      SiteOf(t[..n], va);
      assert forall k | 0 <= k < n :: t[..n][k] == t[k];
    }
  }

  predicate Covers(n: nat, va: int, i: int) { InFile(n, va) && At(n, va) <= i < At(n, va) + 4 }

  predicate Listed(n: nat, sites: seq<int>, i: int) { exists va | va in sites :: Covers(n, va, i) }

  /** No two listed words share some bytes but not all. Words may be listed twice. */
  predicate Apart(n: nat, sites: seq<int>) {
    forall va, other | va in sites && other in sites :: WordsApart(n, va, other)
  }

  predicate WordsApart(n: nat, va: int, other: int) {
    InFile(n, va) && InFile(n, other) ==>
      var a, b := At(n, va), At(n, other);
      a == b || a + 4 <= b || b + 4 <= a
  }

  /** Word-aligned addresses, none before the start of the file or else the file ends on a word (addresses
      before the start count from the end). */
  predicate AllAligned(n: nat, sites: seq<int>) {
    && (forall va | va in sites :: va % 4 == 0)
    && (n % 4 == 0 || forall va | va in sites :: va >= TEXT_VA - TEXT_OFF)
  }

  /** Such words are apart. */
  lemma AlignedApart(n: nat, sites: seq<int>)
    requires AllAligned(n, sites)
    ensures Apart(n, sites)
  {
    forall va, other | va in sites && other in sites ensures WordsApart(n, va, other) {
      if InFile(n, va) && InFile(n, other) {
        OffsetAligned(n, va);
        OffsetAligned(n, other);
        hide Offset;
        MultiplesApart(At(n, va), At(n, other));
      }
    }
  }

  lemma OffsetAligned(n: nat, va: int)
    requires InFile(n, va) && va % 4 == 0 && (n % 4 == 0 || va >= TEXT_VA - TEXT_OFF)
    ensures At(n, va) % 4 == 0
  {
    var q: int := va / 4;
    var k: int := if va < 0x1000 then q - 0x400 + n / 4 else q - 0x400;
    assert va == 4 * q;
    assert va < 0x1000 ==> n == 4 * (n / 4);
    assert At(n, va) == 4 * k;
    Fours(k);
  }

  lemma Fours(k: int)
    ensures (4 * k) % 4 == 0
  {}

  lemma MultiplesApart(a: nat, b: nat)
    requires a % 4 == 0 && b % 4 == 0
    ensures a == b || a + 4 <= b || b + 4 <= a
  {
    assert a == 4 * (a / 4) && b == 4 * (b / 4);
  }

  function MovAt(i: int): Byte { if i == 0 then 0xe0 else if i == 1 then 0x03 else if i == 2 then 0x1f else 0xaa }

  predicate IsMov(b: seq<Byte>, off: nat)
    requires off + 4 <= |b|
  {
    b[off] == MovAt(0) && b[off + 1] == MovAt(1) && b[off + 2] == MovAt(2) && b[off + 3] == MovAt(3)
  }

  lemma MovWord(b: seq<Byte>, off: nat)
    requires off + 4 <= |b|
    ensures Word(b, off) == MOV_X0_XZR <==> IsMov(b, off)
  {}

  lemma PutBytes(b: seq<Byte>, off: nat)
    requires off + 4 <= |b|
    ensures IsMov(Put(b, off), off)
    ensures forall i | 0 <= i < |b| && !(off <= i < off + 4) :: Put(b, off)[i] == b[i]
    ensures forall i | off <= i < off + 4 :: Put(b, off)[i] == MovAt(i - off)
  {}

  /** One site that is in the file. */
  lemma SiteCases(b: seq<Byte>, va: int)
    requires InFile(|b|, va)
    ensures var off := At(|b|, va);
            NullSite(b, va) ==
            if IsMov(b, off) then Done(b, 0) else if IsBl(Word(b, off)) then Done(Put(b, off), 1) else Refused
  {
    MovWord(b, At(|b|, va));
  }

  lemma SitesNext(b: seq<Byte>, sites: seq<int>)
    requires sites != [] && NullSites(b, sites).Done?
    ensures var n := |sites| - 1;
            && NullSites(b, sites[..n]).Done? && InFile(|b|, sites[n])
            && NullSites(b, sites).bytes == NullSite(NullSites(b, sites[..n]).bytes, sites[n]).bytes
            && NullSite(NullSites(b, sites[..n]).bytes, sites[n]).Done?
  {}

  /** What one listed site must hold. */
  predicate Patchable(b: seq<Byte>, va: int) {
    InFile(|b|, va) && (Word(b, At(|b|, va)) == MOV_X0_XZR || IsBl(Word(b, At(|b|, va))))
  }

  /** `r` is `b` with every listed word nulled and every other byte kept. */
  predicate NulledTo(b: seq<Byte>, sites: seq<int>, r: seq<Byte>) {
    && |r| == |b|
    && (forall i | 0 <= i < |b| && !Listed(|b|, sites, i) :: r[i] == b[i])
    && (forall va | va in sites :: InFile(|b|, va) ==> IsMov(r, At(|b|, va)))
  }

  lemma MovByteAt(b: seq<Byte>, off: nat, i: nat)
    requires off + 4 <= |b| && IsMov(b, off) && off <= i < off + 4
    ensures b[i] == MovAt(i - off)
  {}

  // ---------------------------------------------------------------- for every table

  lemma ListedSnoc(n: nat, sites: seq<int>, i: int)
    requires sites != []
    ensures Listed(n, sites, i) <==> Listed(n, sites[..|sites| - 1], i) || Covers(n, sites[|sites| - 1], i)
  {
    var last := sites[|sites| - 1];
    assert forall va :: va in sites <==> va in sites[..|sites| - 1] || va == last;
  }

  /** Whatever the table: a byte of no listed word never changes. */
  lemma {:induction false} OthersUnchanged(b: seq<Byte>, sites: seq<int>, i: nat)
    requires NullSites(b, sites).Done? && i < |b| && !Listed(|b|, sites, i)
    ensures NullSites(b, sites).bytes[i] == b[i]
  {
    if sites == [] {
    } else {
      var n := |sites| - 1;
      ListedSnoc(|b|, sites, i);
      OthersUnchanged(b, sites[..n], i);
      var before := NullSites(b, sites[..n]).bytes;
      if InFile(|b|, sites[n]) { PutBytes(before, At(|b|, sites[n])); }
      hide Put, Word;
    }
  }

  predicate MovByte(x: Byte) { x == MovAt(0) || x == MovAt(1) || x == MovAt(2) || x == MovAt(3) }

  /** Every listed word is in the file, and its top byte is one of those that the recipe writes. */
  predicate TopWritten(b: seq<Byte>, sites: seq<int>) {
    forall va | va in sites :: InFile(|b|, va) && MovByte(b[At(|b|, va) + 3])
  }

  lemma NotACall(b: seq<Byte>, off: nat)
    requires off + 4 <= |b| && MovByte(b[off + 3])
    ensures !IsBl(Word(b, off))
  {
    var x: int := b[off] + 0x100 * (b[off + 1] as int) + 0x1_0000 * (b[off + 2] as int);
    var t: int := b[off + 3];
    assert Word(b, off) == x + 0x100_0000 * t && 0 <= x < 0x100_0000;
    TopBits(x, t);
  }

  lemma TopBits(x: int, t: int)
    requires 0 <= x < 0x100_0000 && 0 <= t < 256
    ensures (x + 0x100_0000 * t) / 0x400_0000 == t / 4
  {
    var q, r := t / 4, t % 4;
    assert t == 4 * q + r;
    assert x + 0x100_0000 * t == 0x400_0000 * q + (x + 0x100_0000 * r);
    assert 0 <= x + 0x100_0000 * r < 0x400_0000;
  }

  lemma {:induction false} TopsWritten(b: seq<Byte>, sites: seq<int>)
    requires NullSites(b, sites).Done?
    ensures TopWritten(NullSites(b, sites).bytes, sites)
  {
    if sites == [] {
    } else {
      var n := |sites| - 1;
      SitesNext(b, sites);
      TopsWritten(b, sites[..n]);
      var before, last := NullSites(b, sites[..n]).bytes, sites[n];
      SiteCases(before, last);
      PutBytes(before, At(|b|, last));
      hide NullSites, NullSite, Put, Word, IsBl, Offset;
      TopsKept(before, NullSites(b, sites).bytes, sites);
    }
  }

  lemma TopsKept(b: seq<Byte>, r: seq<Byte>, sites: seq<int>)
    requires sites != [] && TopWritten(b, sites[..|sites| - 1]) && |r| == |b| && InFile(|b|, sites[|sites| - 1])
    requires forall i | 0 <= i < |b| :: r[i] == b[i] || MovByte(r[i])
    requires IsMov(r, At(|b|, sites[|sites| - 1]))
    ensures TopWritten(r, sites)
  {
    hide Offset, MovByte;
    forall va | va in sites ensures InFile(|b|, va) && MovByte(r[At(|b|, va) + 3]) {
      if va != sites[|sites| - 1] {
        assert va in sites[..|sites| - 1];
      } else {
        assert MovByte(r[At(|b|, va) + 3]) by { MovTop(r, At(|b|, va)); }
      }
    }
  }

  lemma MovTop(b: seq<Byte>, off: nat)
    requires off + 4 <= |b| && IsMov(b, off)
    ensures MovByte(b[off + 3])
  {}

  predicate AllMov(b: seq<Byte>, sites: seq<int>) {
    forall va | va in sites :: InFile(|b|, va) && IsMov(b, At(|b|, va))
  }

  /** A run on what a run has left: it only looks. */
  lemma {:induction false} SecondRun(b: seq<Byte>, sites: seq<int>)
    requires TopWritten(b, sites)
    ensures NullSites(b, sites) == if AllMov(b, sites) then Done(b, 0) else Refused
  {
    if sites == [] {
    } else {
      var n := |sites| - 1;
      var last := sites[n];
      SecondRun(b, sites[..n]);
      var off := At(|b|, last);
      MovWord(b, off);
      NotACall(b, off);
      hide Word, IsBl, Put, Offset, IsMov;
      assert forall va :: va in sites <==> va in sites[..n] || va == last;
    }
  }

  /** Two words that share some bytes cannot both be the nulled one: its bytes are all different. */
  lemma MovsApart(b: seq<Byte>, sites: seq<int>)
    requires AllMov(b, sites)
    ensures Apart(|b|, sites)
  {
    forall va, other | va in sites && other in sites ensures WordsApart(|b|, va, other) {
      var x, y := At(|b|, va), At(|b|, other);
      assert IsMov(b, x) && IsMov(b, y);
    }
  }

  // ---------------------------------------------------------------- for tables of words that are apart

  /** What the original binary says about a list of sites: the first bad one decides. */
  datatype Verdict = Fine | BadWord | NoWord

  function Judge(b: seq<Byte>, sites: seq<int>): Verdict {
    if sites == [] then Fine
    else
      var v := Judge(b, sites[..|sites| - 1]);
      var last := sites[|sites| - 1];
      if !v.Fine? then v else if !InFile(|b|, last) then NoWord else if Patchable(b, last) then Fine else BadWord
  }

  lemma {:induction false} JudgeFine(b: seq<Byte>, sites: seq<int>)
    ensures Judge(b, sites).Fine? <==> forall va | va in sites :: Patchable(b, va)
  {
    hide Patchable;
    if sites == [] {
    } else {
      var n := |sites| - 1;
      JudgeFine(b, sites[..n]);
      PatchableInFile(b, sites[n]);
      assert forall va :: va in sites <==> va in sites[..n] || va == sites[n];
    }
  }

  lemma PatchableInFile(b: seq<Byte>, va: int)
    ensures Patchable(b, va) ==> InFile(|b|, va)
  {}

  /** The places of the listed words that held a call. */
  function Calls(b: seq<Byte>, sites: seq<int>): set<nat> {
    set va | va in sites && CallAt(b, va) :: At(|b|, va)
  }

  predicate CallAt(b: seq<Byte>, va: int) { InFile(|b|, va) && IsBl(Word(b, At(|b|, va))) }

  /** At a word that is apart from all listed ones, or one of them. */
  lemma NulledWord(b: seq<Byte>, sites: seq<int>, r: seq<Byte>, va: int)
    requires NulledTo(b, sites, r) && InFile(|b|, va)
    requires forall other | other in sites :: WordsApart(|b|, va, other)
    ensures Word(r, At(|b|, va)) ==
            if exists other | other in sites :: InFile(|b|, other) && At(|b|, other) == At(|b|, va) then MOV_X0_XZR
            else Word(b, At(|b|, va))
  {
    var a := At(|b|, va);
    if other :| other in sites && InFile(|b|, other) && At(|b|, other) == a {
      assert IsMov(r, a);
      MovWord(r, a);
    } else {
      assert forall i | a <= i < a + 4 :: !Listed(|b|, sites, i);
    }
  }

  /** Nulling one more word that is apart from those nulled already. */
  lemma NulledMore(b: seq<Byte>, sites: seq<int>, r: seq<Byte>, q: seq<Byte>)
    requires sites != [] && Apart(|b|, sites) && InFile(|b|, sites[|sites| - 1])
    requires NulledTo(b, sites[..|sites| - 1], r) && |q| == |b|
    requires IsMov(q, At(|b|, sites[|sites| - 1]))
    requires forall i | 0 <= i < |b| && !Covers(|b|, sites[|sites| - 1], i) :: q[i] == r[i]
    ensures NulledTo(b, sites, q)
  {
    var last := sites[|sites| - 1];
    forall i | 0 <= i < |b| && !Listed(|b|, sites, i) ensures q[i] == b[i] {
      ListedSnoc(|b|, sites, i);
    }
    forall va | va in sites && InFile(|b|, va) ensures IsMov(q, At(|b|, va)) {
      assert WordsApart(|b|, va, last);
      if At(|b|, va) != At(|b|, last) {
        assert va in sites[..|sites| - 1];
        assert IsMov(r, At(|b|, va));
      }
    }
  }

  /** The whole recipe from the original binary alone: it stops at the first site that is not in the file
      or holds something else, and otherwise nulls exactly the listed words, counting the calls. */
  lemma {:induction false} NullSitesExact(b: seq<Byte>, sites: seq<int>)
    requires Apart(|b|, sites)
    ensures var r := NullSites(b, sites);
            match Judge(b, sites)
            case Fine => r.Done? && NulledTo(b, sites, r.bytes) && r.patched == |Calls(b, sites)|
            case BadWord => r == Refused
            case NoWord => r == OutOfRange
  {
    if sites == [] {
      assert Calls(b, sites) == {};
    } else {
      var n := |sites| - 1;
      assert Apart(|b|, sites[..n]);
      NullSitesExact(b, sites[..n]);
      if Judge(b, sites[..n]).Fine? && InFile(|b|, sites[n]) {
        LastSite(b, sites, NullSites(b, sites[..n]).bytes);
      }
    }
  }

  /** One more site, on a binary nulled so far. */
  lemma LastSite(b: seq<Byte>, sites: seq<int>, r: seq<Byte>)
    requires sites != [] && Apart(|b|, sites) && InFile(|b|, sites[|sites| - 1])
    requires Judge(b, sites[..|sites| - 1]).Fine? && NulledTo(b, sites[..|sites| - 1], r)
    ensures var (n, last) := (|sites| - 1, sites[|sites| - 1]);
            var q := NullSite(r, last);
            if !Patchable(b, last) then q == Refused
            else q.Done? && NulledTo(b, sites, q.bytes) && |Calls(b, sites)| == |Calls(b, sites[..n])| + q.patched
  {
    hide NullSite, Word, IsBl, Put, Offset, Judge, Calls, IsMov, NulledTo;
    var n := |sites| - 1;
    var last := sites[n];
    var off := At(|b|, last);
    assert |r| == |b| by { NulledSize(b, sites[..n], r); }
    NulledWord(b, sites[..n], r, last);
    SiteCases(r, last);
    MovWord(r, off);
    PutBytes(r, off);
    JudgeFine(b, sites[..n]);
    MovIsNoCall();
    CallsSnoc(b, sites);
    var again := exists va | va in sites[..n] :: InFile(|b|, va) && At(|b|, va) == off;
    if again {
      var va :| va in sites[..n] && InFile(|b|, va) && At(|b|, va) == off;
      assert Patchable(b, va);
    }
    var q := NullSite(r, last);
    if q.Done? { NulledMore(b, sites, r, q.bytes); }
  }

  lemma NulledSize(b: seq<Byte>, sites: seq<int>, r: seq<Byte>)
    requires NulledTo(b, sites, r)
    ensures |r| == |b|
  {}

  lemma MovIsNoCall()
    ensures !IsBl(MOV_X0_XZR)
  {}

  lemma CallsSnoc(b: seq<Byte>, sites: seq<int>)
    requires sites != [] && InFile(|b|, sites[|sites| - 1])
    ensures var n := |sites| - 1;
            var off := At(|b|, sites[n]);
            var more := IsBl(Word(b, off)) && !(exists va | va in sites[..n] :: InFile(|b|, va) && At(|b|, va) == off);
            |Calls(b, sites)| == |Calls(b, sites[..n])| + if more then 1 else 0
  {
    hide Word, IsBl, Offset;
    var n := |sites| - 1;
    var last := sites[n];
    var off := At(|b|, last);
    assert forall va :: va in sites <==> va in sites[..n] || va == last;
    var before, all := Calls(b, sites[..n]), Calls(b, sites);
    if IsBl(Word(b, off)) {
      assert all == before + {off};
      assert off in before <==> exists va | va in sites[..n] :: InFile(|b|, va) && At(|b|, va) == off;
    } else {
      assert all == before;
    }
  }

  // ---------------------------------------------------------------- the results

  /** Success means: listed words nulled, every other byte as it was; and there is success exactly if every
      listed word was a call or nulled already. */
  lemma ChangesOnlyListedWords(b: seq<Byte>, sites: seq<int>)
    requires Apart(|b|, sites)
    ensures var r := NullSites(b, sites);
            && (r.Done? <==> forall va | va in sites :: Patchable(b, va))
            && (r.Done? ==> NulledTo(b, sites, r.bytes) && AllMov(r.bytes, sites))
  {
    NullSitesExact(b, sites);
    JudgeFine(b, sites);
    hide Judge, IsMov, Offset, Word;
    if NullSites(b, sites).Done? {
      forall va | va in sites ensures InFile(|b|, va) {
        assert Patchable(b, va);
      }
    }
  }

  /** For every binary and every table: a recipe that has succeeded finds nothing to do in its own output if
      and only if no two listed words share some bytes but not all. Otherwise it refuses that output. */
  lemma IdempotentIff(b: seq<Byte>, sites: seq<int>)
    requires NullSites(b, sites).Done?
    ensures var r := NullSites(b, sites).bytes;
            NullSites(r, sites) == if Apart(|b|, sites) then Done(r, 0) else Refused
  {
    var r := NullSites(b, sites).bytes;
    TopsWritten(b, sites);
    SecondRun(r, sites);
    hide NullSites, TopWritten;
    if Apart(|b|, sites) {
      ChangesOnlyListedWords(b, sites);
    } else if AllMov(r, sites) {
      MovsApart(r, sites);
    }
  }

  /** A binary of calls only. */
  function Calling(n: nat): seq<Byte> { seq(n, _ => 0x94) }

  /** The same for what a recipe is for: every binary that holds calls at the listed places comes out with
      all of them nulled, if and only if no two of them share some bytes but not all. */
  lemma NullsAllIff(n: nat, sites: seq<int>)
    requires forall va | va in sites :: InFile(n, va)
    ensures Apart(n, sites) <==>
            forall b: seq<Byte> | |b| == n && (forall va | va in sites :: Patchable(b, va)) ::
              NullSites(b, sites).Done? && AllMov(NullSites(b, sites).bytes, sites)
  {
    if Apart(n, sites) {
      forall b: seq<Byte> | |b| == n && (forall va | va in sites :: Patchable(b, va))
        ensures NullSites(b, sites).Done? && AllMov(NullSites(b, sites).bytes, sites)
      {
        ChangesOnlyListedWords(b, sites);
      }
    } else {
      var b := Calling(n);
      forall va | va in sites ensures Patchable(b, va) {
        assert Word(b, At(n, va)) == 0x9494_9494;
      }
      hide Patchable, NullSites;
      if NullSites(b, sites).Done? && AllMov(NullSites(b, sites).bytes, sites) {
        MovsApart(NullSites(b, sites).bytes, sites);
      }
    }
  }

  predicate Within(first: seq<int>, sites: seq<int>) { forall va | va in first :: va in sites }

  /** After a first run the recipe gives what it gives alone, and no call is counted twice. */
  predicate SameAfter(b: seq<Byte>, first: Result, sites: seq<int>)
    requires first.Done?
  {
    var alone, again := NullSites(b, sites), NullSites(first.bytes, sites);
    if alone.Done? then again.Done? && again.bytes == alone.bytes && first.patched + again.patched == alone.patched
    else again == alone
  }

  // Running a list after a list within it. The runs are compared site by site: `A` is the binary of the
  // run alone, `B` that of the run on the output of the first list, whose words are at the places `first`.

  function Places(n: nat, sites: seq<int>): set<nat> { set va | va in sites && InFile(n, va) :: At(n, va) }

  /** A word at `c` does no harm to the word at `a`, of the first list, if it does not overlap it in part, or
      if it is not of the first list and starts after it. */
  predicate Harmless(first: set<nat>, a: nat, c: nat) {
    a == c || a + 4 <= c || c + 4 <= a || (a < c && c !in first)
  }

  ghost predicate AllHarmless(n: nat, first: seq<int>, sites: seq<int>) {
    forall a, c | a in Places(n, first) && c in Places(n, sites) :: Harmless(Places(n, first), a, c)
  }

  /** The word at `f` is still to come in the run alone: its first `j` bytes are the original ones there and
      nulled in the other run; a later word may have overwritten the rest in both. */
  predicate Pending(b: seq<Byte>, A: seq<Byte>, B: seq<Byte>, f: nat, j: nat) {
    && f + 4 <= |b| == |A| == |B| && 1 <= j <= 4
    && (forall i | f <= i < f + j :: A[i] == b[i] && B[i] == MovAt(i - f))
    && (forall i | f + j <= i < f + 4 :: A[i] == B[i])
    && (j < 4 ==> A[f + j] == MovAt(0) && MovByte(A[f + 3]))
  }

  predicate InWord(f: nat, i: int) { f <= i < f + 4 }

  /** The two runs agree on all bytes but those of words of the first list that are still to come. */
  ghost predicate Alike(b: seq<Byte>, A: seq<Byte>, B: seq<Byte>, todo: set<nat>) {
    && |A| == |B| == |b|
    && (forall i | 0 <= i < |b| && A[i] != B[i] :: exists f :: f in todo && InWord(f, i))
    && (forall f | f in todo :: exists j :: Pending(b, A, B, f, j))
  }

  predicate Holds(b: seq<Byte>, off: nat) { off + 4 <= |b| && (IsMov(b, off) || IsBl(Word(b, off))) }

  lemma BlByTop(b: seq<Byte>, off: nat)
    requires off + 4 <= |b|
    ensures IsBl(Word(b, off)) <==> b[off + 3] / 4 == 37
  {
    var x: int := b[off] + 0x100 * (b[off + 1] as int) + 0x1_0000 * (b[off + 2] as int);
    var t: int := b[off + 3];
    assert Word(b, off) == x + 0x100_0000 * t && 0 <= x < 0x100_0000;
    TopBits(x, t);
  }

  /** The same word in both: the same thing happens. */
  lemma SameWordStep(b: seq<Byte>, A: seq<Byte>, B: seq<Byte>, todo: set<nat>, va: int)
    requires Alike(b, A, B, todo) && InFile(|b|, va)
    requires var o := At(|b|, va); A[o..o + 4] == B[o..o + 4]
    requires var o := At(|b|, va); forall f | f in todo :: f + 4 <= o || o + 4 <= f || f < o
    ensures SameStep(b, A, B, todo, va)
  {
    var o := At(|b|, va);
    SiteCases(A, va);
    SiteCases(B, va);
    SameWord(A, B, o);
    hide Word, IsBl, IsMov, Offset, NullSite, Put, Alike;
    PutAlike(b, A, B, todo, o);
  }

  lemma SameWord(A: seq<Byte>, B: seq<Byte>, o: nat)
    requires o + 4 <= |A| == |B| && A[o..o + 4] == B[o..o + 4]
    ensures (IsMov(A, o) <==> IsMov(B, o)) && Word(A, o) == Word(B, o)
  {
    assert forall i | o <= i < o + 4 :: A[i] == A[o..o + 4][i - o] == B[o..o + 4][i - o] == B[i];
  }

  /** Both runs fail at the site, or both go on, alike, having counted the same. */
  ghost predicate SameStep(b: seq<Byte>, A: seq<Byte>, B: seq<Byte>, todo: set<nat>, va: int) {
    var qa, qb := NullSite(A, va), NullSite(B, va);
    || (qa == Refused && qb == Refused)
    || (qa.Done? && qb.Done? && Alike(b, qa.bytes, qb.bytes, todo) && qa.patched == qb.patched)
  }

  /** A word written in both runs, after the start of every word still to come that it overlaps. */
  lemma PutAlike(b: seq<Byte>, A: seq<Byte>, B: seq<Byte>, todo: set<nat>, o: nat)
    requires Alike(b, A, B, todo) && o + 4 <= |b|
    requires forall f | f in todo :: f + 4 <= o || o + 4 <= f || f < o
    ensures Alike(b, Put(A, o), Put(B, o), todo)
  {
    PutBytes(A, o);
    PutBytes(B, o);
    hide Put, Word, IsBl, Offset;
    var A', B' := Put(A, o), Put(B, o);
    forall f | f in todo ensures exists j :: Pending(b, A', B', f, j) {
      var j :| Pending(b, A, B, f, j);
      var j' := if f < o < f + 4 && o - f < j then o - f else j;
      assert Pending(b, A', B', f, j');
    }
  }

  /** A site of the first list that is still to come: the other run passes over it, and this one nulls it,
      unless a later word has overwritten its end, and then both refuse. */
  lemma PendingStep(b: seq<Byte>, A: seq<Byte>, B: seq<Byte>, todo: set<nat>, va: int)
    requires Alike(b, A, B, todo) && InFile(|b|, va) && At(|b|, va) in todo && Holds(b, At(|b|, va))
    requires forall f | f in todo :: f == At(|b|, va) || f + 4 <= At(|b|, va) || At(|b|, va) + 4 <= f
    ensures var o := At(|b|, va);
            var qa, qb := NullSite(A, va), NullSite(B, va);
            || (qa == Refused && qb == Refused)
            || (&& qa.Done? && qb.Done? && Alike(b, qa.bytes, qb.bytes, todo - {o})
                && qa.patched == qb.patched + if IsBl(Word(b, o)) then 1 else 0)
  {
    var o := At(|b|, va);
    var j :| Pending(b, A, B, o, j);
    SiteCases(A, va);
    SiteCases(B, va);
    PendingWord(b, A, B, o, j);
    hide Word, IsBl, Offset, NullSite, IsMov, Alike, Holds;
    if j == 4 {
      PutBytes(A, o);
      var A' := if IsMov(A, o) then A else Put(A, o);
      hide Put;
      ComeAndGone(b, A, A', B, todo, o);
    }
  }

  lemma PendingWord(b: seq<Byte>, A: seq<Byte>, B: seq<Byte>, o: nat, j: nat)
    requires Pending(b, A, B, o, j) && Holds(b, o)
    ensures if j == 4 then IsMov(B, o) && (if IsBl(Word(b, o)) then IsBl(Word(A, o)) && !IsMov(A, o) else IsMov(A, o))
            else !IsMov(A, o) && !IsBl(Word(A, o)) && !IsMov(B, o) && !IsBl(Word(B, o))
  {
    BlByTop(A, o);
    BlByTop(B, o);
    BlByTop(b, o);
    hide Word, IsBl;
  }

  /** The word at `o` has come, and is nulled in both. */
  lemma ComeAndGone(b: seq<Byte>, A: seq<Byte>, A': seq<Byte>, B: seq<Byte>, todo: set<nat>, o: nat)
    requires Alike(b, A, B, todo) && o in todo && Pending(b, A, B, o, 4) && |A'| == |b| && IsMov(A', o)
    requires forall i | 0 <= i < |b| && !InWord(o, i) :: A'[i] == A[i]
    requires forall f | f in todo :: f == o || f + 4 <= o || o + 4 <= f
    ensures Alike(b, A', B, todo - {o})
  {
    forall f | f in todo - {o} ensures exists k :: Pending(b, A', B, f, k) {
      var k :| Pending(b, A, B, f, k);
      assert Pending(b, A', B, f, k);
    }
    forall i | 0 <= i < |b| && A'[i] != B[i] ensures exists f :: f in todo - {o} && InWord(f, i) {
      assert !InWord(o, i) by {
        if InWord(o, i) {
          MovByteAt(A', o, i);
        }
      }
      var f :| f in todo && InWord(f, i);
      assert f in todo - {o};
    }
  }

  /** A word of no list that starts inside a word still to come. */
  lemma OverlapStep(b: seq<Byte>, A: seq<Byte>, B: seq<Byte>, todo: set<nat>, va: int, f: nat)
    requires Alike(b, A, B, todo) && InFile(|b|, va) && f in todo && Holds(b, f)
    requires f < At(|b|, va) < f + 4
    requires forall g | g in todo :: g == f || g + 4 <= At(|b|, va) || At(|b|, va) + 4 <= g
    ensures SameStep(b, A, B, todo, va)
  {
    var o := At(|b|, va);
    var j :| Pending(b, A, B, f, j);
    SiteCases(A, va);
    SiteCases(B, va);
    BlByTop(A, o);
    BlByTop(B, o);
    BlByTop(b, f);
    assert A[o + 3] == B[o + 3];
    hide Word, IsBl, Offset, NullSite;
    assert f + j <= o ==> forall i | o <= i < o + 4 :: A[i] == B[i];
    if o < f + j {
      NotYetNulled(b, A, B, f, j, o);
    }
    PutAlike(b, A, B, todo, o);
  }

  lemma NotYetNulled(b: seq<Byte>, A: seq<Byte>, B: seq<Byte>, f: nat, j: nat, o: nat)
    requires Pending(b, A, B, f, j) && f < o < f + j && o + 4 <= |b|
    requires IsMov(b, f) || b[f + 3] / 4 == 37
    ensures !IsMov(A, o) && !IsMov(B, o)
  {
    assert B[o] == MovAt(o - f);
    assert A[o] == b[o];
    if j == 4 { assert A[f + 3] == b[f + 3]; }
  }

  /** One site in both runs. */
  lemma SiteStep(b: seq<Byte>, A: seq<Byte>, B: seq<Byte>, first: set<nat>, todo: set<nat>, va: int)
    requires Alike(b, A, B, todo) && todo <= first && InFile(|b|, va)
    requires forall f | f in first :: Holds(b, f)
    requires forall f, g | f in first && g in first :: f == g || f + 4 <= g || g + 4 <= f
    requires forall f | f in first :: Harmless(first, f, At(|b|, va))
    ensures var o := At(|b|, va);
            var qa, qb := NullSite(A, va), NullSite(B, va);
            || (qa == Refused && qb == Refused)
            || (&& qa.Done? && qb.Done? && Alike(b, qa.bytes, qb.bytes, todo - {o})
                && qa.patched == qb.patched + if o in todo && IsBl(Word(b, o)) then 1 else 0)
  {
    hide Word, IsBl, Offset, NullSite, Alike, Holds;
    var o := At(|b|, va);
    if o in todo {
      PendingStep(b, A, B, todo, va);
    } else {
      assert todo - {o} == todo;
      if f :| f in todo && f < o < f + 4 {
        OverlapStep(b, A, B, todo, va, f);
      } else {
        assert A[o..o + 4] == B[o..o + 4] by { ApartBytes(b, A, B, todo, o); }
        SameWordStep(b, A, B, todo, va);
      }
    }
  }

  lemma ApartBytes(b: seq<Byte>, A: seq<Byte>, B: seq<Byte>, todo: set<nat>, o: nat)
    requires Alike(b, A, B, todo) && o + 4 <= |b| && forall f | f in todo :: f + 4 <= o || o + 4 <= f
    ensures |A| == |B| == |b| && A[o..o + 4] == B[o..o + 4]
  {}

  /** The words of the first list that have come, and held a call. */
  function Hits(b: seq<Byte>, first: set<nat>, come: set<nat>): set<nat> {
    set o | o in first && o in come && o + 4 <= |b| && IsBl(Word(b, o))
  }

  /** The runs so far fail alike, or are alike. */
  ghost predicate RunsAlike(b: seq<Byte>, r: seq<Byte>, first: set<nat>, sites: seq<int>) {
    var alone, again, come := NullSites(b, sites), NullSites(r, sites), Places(|b|, sites);
    if alone.Done? then
      && again.Done? && Alike(b, alone.bytes, again.bytes, first - come)
      && alone.patched == again.patched + |Hits(b, first, come)|
    else again == alone
  }

  lemma {:induction false} BothRuns(b: seq<Byte>, r: seq<Byte>, first: set<nat>, sites: seq<int>)
    requires Alike(b, b, r, first)
    requires forall f | f in first :: Holds(b, f)
    requires forall f, g | f in first && g in first :: f == g || f + 4 <= g || g + 4 <= f
    requires forall a, c | a in first && c in Places(|b|, sites) :: Harmless(first, a, c)
    ensures RunsAlike(b, r, first, sites)
  {
    if sites == [] {
      assert first - Places(|b|, sites) == first && Hits(b, first, Places(|b|, sites)) == {};
    } else {
      var n := |sites| - 1;
      PlacesNext(|b|, sites);
      BothRuns(b, r, first, sites[..n]);
      if NullSites(b, sites[..n]).Done? {
        BothNext(b, r, first, sites);
      }
    }
  }

  lemma PlacesNext(n: nat, sites: seq<int>)
    requires sites != []
    ensures var (before, last) := (Places(n, sites[..|sites| - 1]), sites[|sites| - 1]);
            Places(n, sites) == if InFile(n, last) then before + {At(n, last)} else before
  {
    assert forall va :: va in sites <==> va in sites[..|sites| - 1] || va == sites[|sites| - 1];
  }

  lemma BothNext(b: seq<Byte>, r: seq<Byte>, first: set<nat>, sites: seq<int>)
    requires sites != [] && NullSites(b, sites[..|sites| - 1]).Done? && |r| == |b|
    requires RunsAlike(b, r, first, sites[..|sites| - 1])
    requires forall f | f in first :: Holds(b, f)
    requires forall f, g | f in first && g in first :: f == g || f + 4 <= g || g + 4 <= f
    requires forall a, c | a in first && c in Places(|b|, sites) :: Harmless(first, a, c)
    ensures RunsAlike(b, r, first, sites)
  {
    hide Word, IsBl, Alike, Holds, Harmless;
    var n := |sites| - 1;
    var last, come := sites[n], Places(|b|, sites[..n]);
    PlacesNext(|b|, sites);
    var A, B := NullSites(b, sites[..n]).bytes, NullSites(r, sites[..n]).bytes;
    if InFile(|b|, last) {
      var o := At(|b|, last);
      assert o in Places(|b|, sites);
      SiteStep(b, A, B, first, first - come, last);
      HitsNext(b, first, come, o);
      assert first - come - {o} == first - (come + {o});
      hide NullSite, Hits;
    }
  }

  lemma HitsNext(b: seq<Byte>, first: set<nat>, come: set<nat>, o: nat)
    requires o + 4 <= |b|
    ensures |Hits(b, first, come + {o})| ==
            |Hits(b, first, come)| + if o in first - come && IsBl(Word(b, o)) then 1 else 0
  {
    hide Word, IsBl;
    var before, after := Hits(b, first, come), Hits(b, first, come + {o});
    if o in first - come && IsBl(Word(b, o)) {
      assert after == before + {o};
    } else {
      assert after == before;
    }
  }

  /** Running a list after a list within it has succeeded: the same outcome as running it alone, and the
      two runs together null as many calls as the one. */
  lemma AfterWithin(b: seq<Byte>, first: seq<int>, sites: seq<int>)
    requires AllHarmless(|b|, first, sites) && Within(first, sites) && NullSites(b, first).Done?
    ensures SameAfter(b, NullSites(b, first), sites)
  {
    var places, all := Places(|b|, first), Places(|b|, sites);
    var r := NullSites(b, first).bytes;
    FirstRun(b, first, sites);
    hide NullSites, Alike, Holds, Harmless;
    BothRuns(b, r, places, sites);
    assert places <= all;
    if NullSites(b, sites).Done? {
      assert places - all == {};
      NothingToDo(b, NullSites(b, sites).bytes, NullSites(r, sites).bytes);
      assert Hits(b, places, all) == Calls(b, first) by { AllHit(b, first, all); }
    }
  }

  lemma NothingToDo(b: seq<Byte>, A: seq<Byte>, B: seq<Byte>)
    requires Alike(b, A, B, {})
    ensures A == B
  {}

  lemma AllHit(b: seq<Byte>, first: seq<int>, all: set<nat>)
    requires Places(|b|, first) <= all
    ensures Hits(b, Places(|b|, first), all) == Calls(b, first)
  {
    hide Word, IsBl, Offset;
    forall o ensures o in Hits(b, Places(|b|, first), all) <==> o in Calls(b, first) {
      if o in Hits(b, Places(|b|, first), all) {
        var va :| va in first && InFile(|b|, va) && At(|b|, va) == o;
        assert CallAt(b, va);
      }
    }
  }

  /** What the first list has done, as the comparison needs it. */
  lemma FirstRun(b: seq<Byte>, first: seq<int>, sites: seq<int>)
    requires AllHarmless(|b|, first, sites) && Within(first, sites) && NullSites(b, first).Done?
    ensures var (places, r) := (Places(|b|, first), NullSites(b, first));
            && Alike(b, b, r.bytes, places) && r.patched == |Calls(b, first)|
            && (forall f | f in places :: Holds(b, f))
            && (forall f, g | f in places && g in places :: f == g || f + 4 <= g || g + 4 <= f)
            && (forall a, c | a in places && c in Places(|b|, sites) :: Harmless(places, a, c))
  {
    FirstApart(|b|, first, sites);
    NullSitesExact(b, first);
    ChangesOnlyListedWords(b, first);
    hide NullSites, Calls, Harmless, Alike, Holds, Judge;
    FirstAlike(b, first, NullSites(b, first).bytes);
    PlacesApart(|b|, first);
  }

  lemma FirstApart(n: nat, first: seq<int>, sites: seq<int>)
    requires AllHarmless(n, first, sites) && Within(first, sites)
    ensures Apart(n, first)
  {
    hide Offset;
    var places := Places(n, first);
    assert forall f | f in places :: f in Places(n, sites);
    forall va, other | va in first && other in first ensures WordsApart(n, va, other) {
      if InFile(n, va) && InFile(n, other) {
        assert Harmless(places, At(n, va), At(n, other)) && Harmless(places, At(n, other), At(n, va));
      }
    }
  }

  lemma PlacesApart(n: nat, first: seq<int>)
    requires Apart(n, first)
    ensures forall f, g | f in Places(n, first) && g in Places(n, first) :: f == g || f + 4 <= g || g + 4 <= f
  {
    hide Offset;
    forall f, g | f in Places(n, first) && g in Places(n, first) ensures f == g || f + 4 <= g || g + 4 <= f {
      var va :| va in first && InFile(n, va) && At(n, va) == f;
      var other :| other in first && InFile(n, other) && At(n, other) == g;
      assert WordsApart(n, va, other);
    }
  }

  lemma FirstAlike(b: seq<Byte>, first: seq<int>, r: seq<Byte>)
    requires NulledTo(b, first, r) && forall va | va in first :: Patchable(b, va)
    ensures Alike(b, b, r, Places(|b|, first)) && forall f | f in Places(|b|, first) :: Holds(b, f)
  {
    hide Offset, Patchable, Holds, Pending, IsMov;
    var places := Places(|b|, first);
    forall f | f in places ensures Holds(b, f) && Pending(b, b, r, f, 4) {
      var va :| va in first && InFile(|b|, va) && At(|b|, va) == f;
      FirstWord(b, r, va);
    }
    forall i | 0 <= i < |b| && b[i] != r[i] ensures exists f :: f in places && InWord(f, i) {
      var va :| va in first && Covers(|b|, va, i);
      assert At(|b|, va) in places && InWord(At(|b|, va), i);
    }
  }

  lemma FirstWord(b: seq<Byte>, r: seq<Byte>, va: int)
    requires |r| == |b| && Patchable(b, va) && IsMov(r, At(|b|, va))
    ensures Holds(b, At(|b|, va)) && Pending(b, b, r, At(|b|, va), 4)
  {
    MovWord(b, At(|b|, va));
  }

  lemma {:induction false} KeptSitesWithin(t: Table, keep: set<string>)
    ensures Within(Sites(t, keep), Sites(t, {}))
  {
    if t == [] {
    } else {
      KeptSitesWithin(t[..|t| - 1], keep);
    }
  }

  /** The word at `va` starts inside the one at `other`. */
  predicate Inside(n: nat, va: int, other: int) {
    InFile(n, va) && InFile(n, other) && At(n, other) < At(n, va) < At(n, other) + 4
  }

  /** No word of the first list starts inside a listed word. */
  predicate Clear(n: nat, first: seq<int>, sites: seq<int>) {
    forall va, other | va in first && other in sites :: !Inside(n, va, other)
  }

  /** Whenever recipe 589 succeeds, recipe 591 on its output gives what recipe 591 gives alone: the same
      binary or the same refusal; and no call is counted twice. Words that 589 keeps may overlap in any way,
      and may start inside a word of 589. */
  lemma Patch591After589(b: seq<Byte>, t: Table)
    requires Clear(|b|, Sites(t, KEEP), Sites(t, {})) && Patch589(b, t).Done?
    ensures SameAfter(b, Patch589(b, t), Sites(t, {}))
  {
    KeptSitesWithin(t, KEEP);
    ClearHarmless(|b|, Sites(t, KEEP), Sites(t, {}));
    AfterWithin(b, Sites(t, KEEP), Sites(t, {}));
  }

  lemma ClearHarmless(n: nat, first: seq<int>, sites: seq<int>)
    requires Clear(n, first, sites) && Within(first, sites)
    ensures AllHarmless(n, first, sites)
  {
    hide Offset;
    forall a, c | a in Places(n, first) && c in Places(n, sites) ensures Harmless(Places(n, first), a, c) {
      var va :| va in first && InFile(n, va) && At(n, va) == a;
      var other :| other in sites && InFile(n, other) && At(n, other) == c;
      assert !Inside(n, va, other);
      if c in Places(n, first) {
        var again :| again in first && InFile(n, again) && At(n, again) == c;
        assert !Inside(n, again, va);
      }
    }
  }

  /** So it is for word-aligned sites. */
  lemma AlignedClear(n: nat, t: Table)
    requires AllAligned(n, Sites(t, {}))
    ensures Clear(n, Sites(t, KEEP), Sites(t, {}))
  {
    hide Offset, Sites, AllAligned;
    var sites := Sites(t, {});
    KeptSitesWithin(t, KEEP);
    AlignedApart(n, sites);
    forall va, other | va in Sites(t, KEEP) && other in sites ensures !Inside(n, va, other) {
      assert WordsApart(n, va, other);
    }
  }

  // ---------------------------------------------------------------- exactly which tables

  /** A listed word starts inside one that is listed after it. */
  predicate UpperFirst(n: nat, sites: seq<int>) {
    exists i, j | 0 <= i < j < |sites| :: Inside(n, sites[i], sites[j])
  }

  predicate AllInFile(n: nat, sites: seq<int>) { forall va | va in sites :: InFile(n, va) }

  /** The word at `off` is neither a call nor nulled, by its top byte. */
  predicate Spoilt(b: seq<Byte>, off: nat)
    requires off + 4 <= |b|
  {
    b[off + 3] != MovAt(3) && b[off + 3] / 4 != 37
  }

  /** A run that nulls a word cannot null one that it starts inside. */
  lemma SpoiltStep(b: seq<Byte>, va: int, y: int)
    requires InFile(|b|, y) && NullSite(b, va).Done? && (Spoilt(b, At(|b|, y)) || Inside(|b|, va, y))
    ensures Spoilt(NullSite(b, va).bytes, At(|b|, y))
    ensures Spoilt(b, At(|b|, y)) ==> At(|b|, va) != At(|b|, y)
  {
    var o := At(|b|, va);
    SiteCases(b, va);
    PutBytes(b, o);
    BlByTop(b, o);
    hide Put, Word, IsBl, Offset, NullSite;
  }

  lemma {:induction false} SpoiltStays(b: seq<Byte>, sites: seq<int>, y: int)
    requires InFile(|b|, y) && Spoilt(b, At(|b|, y)) && NullSites(b, sites).Done?
    ensures Spoilt(NullSites(b, sites).bytes, At(|b|, y)) && y !in sites
  {
    if sites == [] {
    } else {
      var n := |sites| - 1;
      SitesNext(b, sites);
      SpoiltStays(b, sites[..n], y);
      SpoiltStep(NullSites(b, sites[..n]).bytes, sites[n], y);
      hide NullSites, NullSite, Spoilt;
      assert forall va :: va in sites <==> va in sites[..n] || va == sites[n];
    }
  }

  lemma {:induction false} Spoils(b: seq<Byte>, sites: seq<int>, i: nat, y: int)
    requires i < |sites| && Inside(|b|, sites[i], y) && NullSites(b, sites).Done?
    ensures Spoilt(NullSites(b, sites).bytes, At(|b|, y))
  {
    var n := |sites| - 1;
    SitesNext(b, sites);
    if i < n { Spoils(b, sites[..n], i, y); }
    hide NullSites, NullSite, Spoilt, Inside;
    SpoiltStep(NullSites(b, sites[..n]).bytes, sites[n], y);
  }

  lemma {:induction false} NeverOutOfRange(b: seq<Byte>, sites: seq<int>)
    requires AllInFile(|b|, sites)
    ensures NullSites(b, sites) != OutOfRange
  {
    if sites == [] {
    } else {
      hide Put, Word, IsBl;
      NeverOutOfRange(b, sites[..|sites| - 1]);
      assert InFile(|b|, sites[|sites| - 1]);
    }
  }

  /** Such a table is refused, whatever the binary. */
  lemma UpperFirstRefused(b: seq<Byte>, sites: seq<int>)
    requires AllInFile(|b|, sites) && UpperFirst(|b|, sites)
    ensures NullSites(b, sites) == Refused
  {
    var i, j :| 0 <= i < j < |sites| && Inside(|b|, sites[i], sites[j]);
    hide NullSites, UpperFirst, Inside;
    NeverOutOfRange(b, sites);
    PairFails(b, sites, i, j);
  }

  lemma {:induction false} PairFails(b: seq<Byte>, sites: seq<int>, i: nat, j: nat)
    requires i < j < |sites| && Inside(|b|, sites[i], sites[j])
    ensures !NullSites(b, sites).Done?
  {
    hide Inside, NullSite;
    if j == |sites| - 1 { LastRefused(b, sites, i); } else { PairFails(b, sites[..|sites| - 1], i, j); }
  }

  lemma LastRefused(b: seq<Byte>, sites: seq<int>, i: nat)
    requires i < |sites| - 1 && Inside(|b|, sites[i], sites[|sites| - 1])
    ensures !NullSites(b, sites).Done?
  {
    var n := |sites| - 1;
    if NullSites(b, sites).Done? {
      SitesNext(b, sites);
      hide NullSites, NullSite, Spoilt;
      Spoils(b, sites[..n], i, sites[n]);
      SpoiltStep(NullSites(b, sites[..n]).bytes, sites[n], sites[n]);
    }
  }

  /** Any other table is done on a binary of calls only. A word in which no listed word starts is then
      nulled, and stays so. */
  lemma {:induction false} CallingDone(n: nat, sites: seq<int>)
    requires AllInFile(n, sites) && !UpperFirst(n, sites)
    ensures var r := NullSites(Calling(n), sites);
            && r.Done?
            && forall va | va in sites && (forall x | x in sites :: !Inside(n, x, va)) :: IsMov(r.bytes, At(n, va))
  {
    if sites == [] {
    } else {
      var k := |sites| - 1;
      var before, last := sites[..k], sites[k];
      assert forall i | 0 <= i < k :: before[i] == sites[i];
      hide NullSite, IsMov, Inside, Offset;
      CallingDone(n, before);
      var r := NullSites(Calling(n), before).bytes;
      NoneInsideLast(n, sites);
      CallOrNulled(n, before, last);
      CallingNext(n, sites, r, NullSite(r, last).bytes);
    }
  }

  lemma NoneInsideLast(n: nat, sites: seq<int>)
    requires sites != [] && AllInFile(n, sites) && !UpperFirst(n, sites)
    ensures var (before, last) := (sites[..|sites| - 1], sites[|sites| - 1]);
            forall x, y | x in before && y in sites && At(n, y) == At(n, last) :: !Inside(n, x, y)
  {
    var before, last := sites[..|sites| - 1], sites[|sites| - 1];
    hide Offset;
    forall x, y | x in before && y in sites && At(n, y) == At(n, last) ensures !Inside(n, x, y) {
      var i :| 0 <= i < |before| && before[i] == x;
      assert !Inside(n, sites[i], sites[|sites| - 1]);
    }
  }

  lemma CallOrNulled(n: nat, before: seq<int>, last: int)
    requires AllInFile(n, before) && InFile(n, last) && forall x | x in before :: !Inside(n, x, last)
    requires var r := NullSites(Calling(n), before);
             r.Done? && forall x | x in before && At(n, x) == At(n, last) :: IsMov(r.bytes, At(n, x))
    ensures var r := NullSites(Calling(n), before).bytes;
            var q := NullSite(r, last);
            && q.Done? && IsMov(q.bytes, At(n, last))
            && forall i | 0 <= i < n && !Covers(n, last, i) :: q.bytes[i] == r[i]
  {
    var r := NullSites(Calling(n), before).bytes;
    var o := At(n, last);
    SiteCases(r, last);
    PutBytes(r, o);
    BlByTop(r, o);
    hide Put, Word, IsBl, Offset, NullSite, NullSites, IsMov;
    if !IsMov(r, o) {
      assert !Listed(n, before, o + 3);
      OthersUnchanged(Calling(n), before, o + 3);
    }
  }

  lemma CallingNext(n: nat, sites: seq<int>, r: seq<Byte>, q: seq<Byte>)
    requires sites != [] && AllInFile(n, sites) && !UpperFirst(n, sites) && |r| == |q| == n
    requires var before := sites[..|sites| - 1];
             forall va | va in before && (forall x | x in before :: !Inside(n, x, va)) :: IsMov(r, At(n, va))
    requires var last := sites[|sites| - 1];
             IsMov(q, At(n, last)) && forall i | 0 <= i < n && !Covers(n, last, i) :: q[i] == r[i]
    ensures forall va | va in sites && (forall x | x in sites :: !Inside(n, x, va)) :: IsMov(q, At(n, va))
  {
    hide Offset, MovAt;
    var k := |sites| - 1;
    var before, last := sites[..k], sites[k];
    forall va | va in sites && (forall x | x in sites :: !Inside(n, x, va)) ensures IsMov(q, At(n, va)) {
      if At(n, va) != At(n, last) {
        var i :| 0 <= i < |sites| && sites[i] == va;
        assert before[i] == va && !Inside(n, sites[i], sites[k]) && !Inside(n, last, va);
        assert IsMov(r, At(n, va));
      }
    }
  }

  lemma {:induction false} UpperFirstKept(n: nat, t: Table, keep: set<string>)
    requires UpperFirst(n, Sites(t, keep))
    ensures UpperFirst(n, Sites(t, {}))
  {
    hide Inside;
    var k := |t| - 1;
    var first, sites, last := Sites(t[..k], keep), Sites(t[..k], {}), t[k].1;
    var i, j :| 0 <= i < j < |Sites(t, keep)| && Inside(n, Sites(t, keep)[i], Sites(t, keep)[j]);
    if j < |first| {
      assert Inside(n, first[i], first[j]);
      UpperFirstKept(n, t[..k], keep);
      var x, y :| 0 <= x < y < |sites| && Inside(n, sites[x], sites[y]);
      assert Inside(n, Sites(t, {})[x], Sites(t, {})[y]);
    } else {
      KeptSitesWithin(t[..k], keep);
      var x: nat;
      if i < |first| {
        assert first[i] in sites;
        x :| 0 <= x < |sites| && sites[x] == first[i];
      } else {
        x := |sites| + i - |first|;
      }
      assert Inside(n, Sites(t, {})[x], Sites(t, {})[|sites| + j - |first|]);
    }
  }

  /** For a table whose sites are all in the file: the two recipes in a row give what the second gives alone,
      for every binary that the first accepts, if and only if recipe 591 can never succeed with this table,
      or else no word of 589 starts inside a listed word. */
  lemma Patch591After589Iff(n: nat, t: Table)
    requires AllInFile(n, Sites(t, {}))
    ensures (forall b: seq<Byte> | |b| == n && Patch589(b, t).Done? :: SameAfter(b, Patch589(b, t), Sites(t, {}))) <==>
            UpperFirst(n, Sites(t, {})) || Clear(n, Sites(t, KEEP), Sites(t, {}))
  {
    hide NullSites, UpperFirst, Inside, Sites;
    var sites := Sites(t, {});
    if UpperFirst(n, sites) || Clear(n, Sites(t, KEEP), sites) {
      forall b: seq<Byte> | |b| == n && Patch589(b, t).Done? ensures SameAfter(b, Patch589(b, t), sites) {
        if UpperFirst(n, sites) {
          UpperFirstRefused(b, sites);
          UpperFirstRefused(Patch589(b, t).bytes, sites);
        } else {
          Patch591After589(b, t);
        }
      }
    } else {
      UnclearFails(n, t);
    }
  }

  /** Otherwise a binary of calls only is taken by each of the recipes, and refused by 591 after 589. */
  lemma UnclearFails(n: nat, t: Table)
    requires AllInFile(n, Sites(t, {})) && !UpperFirst(n, Sites(t, {})) && !Clear(n, Sites(t, KEEP), Sites(t, {}))
    ensures var b := Calling(n);
            && |b| == n && Patch589(b, t).Done? && Patch591(b, t).Done?
            && Patch591(Patch589(b, t).bytes, t) == Refused
  {
    hide NullSites, UpperFirst, Inside, Sites, Spoilt;
    var first, sites := Sites(t, KEEP), Sites(t, {});
    KeptSitesWithin(t, KEEP);
    if UpperFirst(n, first) { UpperFirstKept(n, t, KEEP); }
    CallingDone(n, first);
    CallingDone(n, sites);
    var va, other :| va in first && other in sites && Inside(n, va, other);
    var i :| 0 <= i < |first| && first[i] == va;
    var r := NullSites(Calling(n), first).bytes;
    Spoils(Calling(n), first, i, other);
    NeverOutOfRange(r, sites);
    if NullSites(r, sites).Done? { SpoiltStays(r, sites, other); }
  }

  // ---------------------------------------------------------------- the loops

  lemma {:induction false} FailureStays(b: seq<Byte>, sites: seq<int>, more: seq<int>)
    requires !NullSites(b, sites).Done?
    ensures NullSites(b, sites + more) == NullSites(b, sites)
  {
    if more == [] {
      assert sites + more == sites;
    } else {
      FailureStays(b, sites, more[..|more| - 1]);
      assert (sites + more)[..|sites + more| - 1] == sites + more[..|more| - 1];
    }
  }

  lemma {:induction false} SitesExtend(t: Table, keep: set<string>, i: nat)
    requires i <= |t|
    ensures exists more :: Sites(t, keep) == Sites(t[..i], keep) + more
  {
    if i == |t| {
      assert t[..i] == t;
      assert Sites(t, keep) == Sites(t[..i], keep) + [];
    } else {
      SitesExtend(t[..|t| - 1], keep, i);
      assert t[..|t| - 1][..i] == t[..i];
      var more :| Sites(t[..|t| - 1], keep) == Sites(t[..i], keep) + more;
      var last := if t[|t| - 1].0 in keep then [] else t[|t| - 1].1;
      assert Sites(t, keep) == Sites(t[..i], keep) + (more + last);
    }
  }

  /** One site of the binary held in `b`. */
  method NullInPlace(b: array<Byte>, va: int) returns (r: Result)
    modifies b
    ensures r == NullSite(old(b[..]), va)
    ensures b[..] == if r.Done? then r.bytes else old(b[..])
  {
    var off := Offset(b.Length, va);
    if off.None? { return OutOfRange; }
    var k := off.value;
    ghost var was := b[..];
    var w := Word(b[..], k);
    if w == MOV_X0_XZR { return Done(b[..], 0); }
    if !IsBl(w) { return Refused; }
    b[k], b[k + 1], b[k + 2], b[k + 3] := MOV[0], MOV[1], MOV[2], MOV[3];
    assert b[..] == Put(was, k);
    return Done(b[..], 1);
  }

  method NullAllInPlace(b: array<Byte>, sites: seq<int>) returns (r: Result)
    modifies b
    ensures r == NullSites(old(b[..]), sites)
    ensures r.Done? ==> b[..] == r.bytes
  {
    hide NullSite;
    ghost var src := b[..];
    var patched: nat := 0;
    for j := 0 to |sites|
      invariant NullSites(src, sites[..j]) == Done(b[..], patched)
    {
      assert sites[..j + 1][..j] == sites[..j];
      var one := NullInPlace(b, sites[j]);
      if !one.Done? {
        FailureStays(src, sites[..j + 1], sites[j + 1..]);
        assert sites == sites[..j + 1] + sites[j + 1..];
        return one;
      }
      patched := patched + one.patched;
    }
    assert sites[..|sites|] == sites;
    return Done(b[..], patched);
  }

  lemma {:induction false} NullSitesJoin(b: seq<Byte>, first: seq<int>, sites: seq<int>)
    requires NullSites(b, first).Done?
    ensures var (r1, all) := (NullSites(b, first), NullSites(b, first + sites));
            match NullSites(r1.bytes, sites)
            case Done(bytes, n) => all == Done(bytes, r1.patched + n)
            case failure => all == failure
  {
    if sites == [] {
      assert first + sites == first;
    } else {
      NullSitesJoin(b, first, sites[..|sites| - 1]);
      assert (first + sites)[..|first + sites| - 1] == first + sites[..|sites| - 1];
    }
  }

  /** A recipe: the output is written only at the end, so that a refusal writes nothing. */
  method Recipe(src: seq<Byte>, t: Table, keep: set<string>) returns (dst: Option<seq<Byte>>, patched: nat)
    ensures match NullSites(src, Sites(t, keep))
            case Done(bytes, n) => dst == Some(bytes) && patched == n
            case _ => dst.None?
  {
    hide NullSites;
    var b := new Byte[|src|](i requires 0 <= i < |src| => src[i]);
    patched := 0;
    assert b[..] == src;
    NoSites(src);
    for i := 0 to |t|
      invariant NullSites(src, Sites(t[..i], keep)) == Done(b[..], patched)
    {
      var (needle, sites) := t[i];
      assert t[..i + 1][..i] == t[..i];
      ghost var before := Sites(t[..i], keep);
      if needle in keep {
        assert Sites(t[..i + 1], keep) == before + [] == before;
        continue;
      }
      NullSitesJoin(src, before, sites);
      var r := NullAllInPlace(b, sites);
      if !r.Done? {
        SitesExtend(t, keep, i + 1);
        ghost var more :| Sites(t, keep) == Sites(t[..i + 1], keep) + more;
        FailureStays(src, before + sites, more);
        return None, patched;
      }
      patched := patched + r.patched;
    }
    assert t[..|t|] == t;
    dst := Some(b[..]);
  }

  lemma NoSites(b: seq<Byte>)
    ensures NullSites(b, []) == Done(b, 0)
  {}
}
