/** Literal pools: pending PC-relative loads, deduplicated words, displacement patching. */
module Pools {
  import opened Words
  import opened Sh4

  // Code is a sequence of halfwords; `org` is half the address of its first one.
  type Half = x: int | 0 <= x < 0x1_0000
  datatype Ref = Ref(site: nat, value: Word)

  const NOP_OP: Half := 0x0009

  function MovL(rn: nat, disp: nat): Half
    requires rn < 16 && disp < 256
  { 0xD000 + 256 * rn + disp }

  /** A word as the two halfwords of its big-endian form. */
  function HiHalf(v: Word): Half { v / 0x1_0000 }
  function LoHalf(v: Word): Half { v % 0x1_0000 }
  function WordAt(code: seq<Half>, i: int): Option<Word> {
    if 0 <= i && i + 2 <= |code| then
      var hi: int := code[i];
      Some(hi * 0x1_0000 + code[i + 1])
    else None
  }

  /** Index MOV.L @(disp,PC) at `site` loads from: the PC is rounded down to a word, plus 4. */
  function LoadIndex(org: nat, site: nat, disp: int): int { (org + site) - (org + site) % 2 + 2 + 2 * disp - org }
  /** The displacement that reaches `entry`, in or out of range. */
  function DispTo(org: nat, site: nat, entry: nat): int { (org + entry - ((org + site) - (org + site) % 2) - 2) / 2 }
  predicate Reaches(org: nat, site: nat, entry: nat) { 0 <= DispTo(org, site, entry) <= 255 }
  function Loaded(org: nat, code: seq<Half>, site: nat): Option<Word>
    requires site < |code|
  { WordAt(code, LoadIndex(org, site, code[site] % 256)) }

  lemma DispExact(org: nat, site: nat, entry: nat)
    requires (org + entry) % 2 == 0
    ensures LoadIndex(org, site, DispTo(org, site, entry)) == entry
  {}

  predicate Sited(refs: seq<Ref>, n: nat) {
    (forall k :: 0 <= k < |refs| ==> refs[k].site < n)
    && forall j, k :: 0 <= j < k < |refs| ==> refs[j].site < refs[k].site
  }

  // ---- the pool as a function of the code before it -----------------------------

  function SetLow(h: Half, disp: nat): (r: Half)
    requires disp < 256
    ensures r / 256 == h / 256 && r % 256 == disp
  { h - h % 256 + disp }
  function PatchOne(org: nat, code: seq<Half>, r: Ref, v: Word, entry: nat): (c: seq<Half>)
    ensures |c| == |code|
  {
    if r.value == v && r.site < |code| && Reaches(org, r.site, entry)
    then code[r.site := SetLow(code[r.site], DispTo(org, r.site, entry))] else code
  }
  /** Every load of v in refs pointed at `entry`; out of reach ones stay as they are. */
  function PatchRun(org: nat, code: seq<Half>, refs: seq<Ref>, v: Word, entry: nat): (c: seq<Half>)
    ensures |c| == |code|
    decreases |refs|
  { if refs == [] then code else PatchRun(org, PatchOne(org, code, refs[0], v, entry), refs[1..], v, entry) }

  predicate Seen(refs: seq<Ref>, i: nat)
    requires i < |refs|
  { exists j :: 0 <= j < i && refs[j].value == refs[i].value }

  /** One word per distinct value, in order of first use, its loads patched as it is laid down. */
  function PoolFrom(org: nat, code: seq<Half>, refs: seq<Ref>, i: nat): seq<Half>
    requires i <= |refs|
    decreases |refs| - i
  {
    if i == |refs| then code
    else if Seen(refs, i) then PoolFrom(org, code, refs, i + 1)
    else PoolFrom(org, PatchRun(org, code + [HiHalf(refs[i].value), LoHalf(refs[i].value)], refs[i..], refs[i].value,
        |code|), refs, i + 1)
  }
  /** Whether some load ended up out of reach of its word. */
  predicate Missed(org: nat, at: nat, refs: seq<Ref>, i: nat)
    requires i <= |refs|
    decreases |refs| - i
  {
    i < |refs|
    && if Seen(refs, i) then Missed(org, at, refs, i + 1)
       else AnyMiss(org, refs[i..], refs[i].value, at) || Missed(org, at + 2, refs, i + 1)
  }
  predicate AnyMiss(org: nat, refs: seq<Ref>, v: Word, entry: nat) {
    exists k :: 0 <= k < |refs| && refs[k].value == v && !Reaches(org, refs[k].site, entry)
  }

  // ---- soundness ---------------------------------------------------------------

  lemma {:induction false} PatchMiss(org: nat, code: seq<Half>, refs: seq<Ref>, v: Word, entry: nat, x: nat)
    requires x < |code| && forall k :: 0 <= k < |refs| && refs[k].value == v ==> refs[k].site != x
    ensures PatchRun(org, code, refs, v, entry)[x] == code[x]
    decreases |refs|
  { if refs != [] { PatchMiss(org, PatchOne(org, code, refs[0], v, entry), refs[1..], v, entry, x); } }

  lemma {:induction false} PatchHit(org: nat, code: seq<Half>, refs: seq<Ref>, v: Word, entry: nat, k: nat)
    requires k < |refs| && refs[k].value == v && Sited(refs, |code|) && Reaches(org, refs[k].site, entry)
    ensures PatchRun(org, code, refs, v, entry)[refs[k].site]
      == SetLow(code[refs[k].site], DispTo(org, refs[k].site, entry))
    decreases |refs|
  {
    var c1 := PatchOne(org, code, refs[0], v, entry);
    if k == 0 { PatchMiss(org, c1, refs[1..], v, entry, refs[0].site); }
    else { PatchHit(org, c1, refs[1..], v, entry, k - 1); }
  }
  lemma {:induction false} PatchHigh(org: nat, code: seq<Half>, refs: seq<Ref>, v: Word, entry: nat, x: nat)
    requires x < |code|
    ensures PatchRun(org, code, refs, v, entry)[x] / 256 == code[x] / 256
    decreases |refs|
  {
    if refs != [] {
      PatchHigh(org, PatchOne(org, code, refs[0], v, entry), refs[1..], v, entry, x);
    }
    hide Reaches, DispTo;
  }

  /** Index of the first reference with the same value. */
  function FirstUse(refs: seq<Ref>, k: nat): (f: nat)
    requires k < |refs|
    ensures f <= k && refs[f].value == refs[k].value && !Seen(refs, f)
  { if Seen(refs, k) then var j :| 0 <= j < k && refs[j].value == refs[k].value; FirstUse(refs, j) else k }

  function Rank(refs: seq<Ref>, i: nat): nat
    requires i <= |refs|
  { if i == 0 then 0 else Rank(refs, i - 1) + if Seen(refs, i - 1) then 0 else 1 }
  lemma {:induction false} RankBound(refs: seq<Ref>, i: nat, j: nat)
    requires i <= j <= |refs|
    ensures Rank(refs, i) <= Rank(refs, j) <= Rank(refs, i) + (j - i)
  { if i < j { RankBound(refs, i, j - 1); } }

  /** Where the word of reference k goes in a pool that starts at `first`. */
  function EntryOf(refs: seq<Ref>, first: nat, k: nat): nat
    requires k < |refs|
  { RankBound(refs, 0, FirstUse(refs, k)); first + 2 * Rank(refs, FirstUse(refs, k)) }

  predicate Served(org: nat, code: seq<Half>, refs: seq<Ref>, first: nat, k: nat)
    requires k < |refs|
  {
    var e, site := EntryOf(refs, first, k), refs[k].site;
    WordAt(code, e) == Some(refs[k].value)
    && (site < |code| && Reaches(org, site, e) ==> code[site] % 256 == DispTo(org, site, e))
  }
  lemma FirstUnique(refs: seq<Ref>, i: nat, k: nat)
    requires i < |refs| && k < |refs| && refs[i].value == refs[k].value && !Seen(refs, i)
    ensures FirstUse(refs, k) == i
  {}

  lemma NewWord(code: seq<Half>, v: Word)
    ensures WordAt(code + [HiHalf(v), LoHalf(v)], |code|) == Some(v)
  {}

  /** One fresh word: its users are served, and those served before stay so. */
  lemma ServeStep(org: nat, code: seq<Half>, refs: seq<Ref>, first: nat, i: nat, k: nat)
    requires i < |refs| && k < |refs| && !Seen(refs, i) && Sited(refs, first) && |code| == first + 2 * Rank(refs, i)
    requires FirstUse(refs, k) < i ==> Served(org, code, refs, first, k)
    requires FirstUse(refs, k) <= i
    ensures var v := refs[i].value;
      Served(org, PatchRun(org, code + [HiHalf(v), LoHalf(v)], refs[i..], v, |code|), refs, first, k)
  {
    hide Reaches, Seen, Served, PatchRun, Rank;
    if refs[k].value == refs[i].value { FirstUnique(refs, i, k); ServeNew(org, code, refs, first, i, k); }
    else { ServeOld(org, code, refs, first, i, k); }
  }
  lemma ServeNew(org: nat, code: seq<Half>, refs: seq<Ref>, first: nat, i: nat, k: nat)
    requires i < |refs| && k < |refs| && Sited(refs, first) && |code| == first + 2 * Rank(refs, i)
    requires FirstUse(refs, k) == i && refs[k].value == refs[i].value
    ensures var v := refs[i].value;
      Served(org, PatchRun(org, code + [HiHalf(v), LoHalf(v)], refs[i..], v, |code|), refs, first, k)
  {
    hide PatchRun, Reaches, DispTo, HiHalf, LoHalf, Seen, Rank, FirstUse, WordAt, EntryOf;
    var v := refs[i].value;
    var c0 := code + [HiHalf(v), LoHalf(v)];
    EntryIs(refs, first, k);
    NewWord(code, v);
    assert refs[i..][k - i] == refs[k];
    WordKept(org, c0, refs[i..], v, |code|, first, |code|);
    if Reaches(org, refs[k].site, |code|) { PatchHit(org, c0, refs[i..], v, |code|, k - i); }
  }
  lemma EntryIs(refs: seq<Ref>, first: nat, k: nat)
    requires k < |refs|
    ensures EntryOf(refs, first, k) == first + 2 * Rank(refs, FirstUse(refs, k))
  { hide FirstUse, Rank; }
  lemma ServeOld(org: nat, code: seq<Half>, refs: seq<Ref>, first: nat, i: nat, k: nat)
    requires i < |refs| && k < |refs| && Sited(refs, first) && |code| == first + 2 * Rank(refs, i)
    requires FirstUse(refs, k) < i && refs[k].value != refs[i].value && Served(org, code, refs, first, k)
    ensures var v := refs[i].value;
      Served(org, PatchRun(org, code + [HiHalf(v), LoHalf(v)], refs[i..], v, |code|), refs, first, k)
  {
    hide PatchRun, Reaches, DispTo, HiHalf, LoHalf, Seen, Rank;
    var v := refs[i].value;
    var c0 := code + [HiHalf(v), LoHalf(v)];
    RankStep(refs, FirstUse(refs, k), i);
    WordKept(org, c0, refs[i..], v, |code|, first, EntryOf(refs, first, k));
    SiteKept(org, c0, refs, v, |code|, i, k);
  }
  lemma RankStep(refs: seq<Ref>, f: nat, i: nat)
    requires f < i <= |refs| && !Seen(refs, f)
    ensures Rank(refs, f) + 1 <= Rank(refs, i)
  { RankBound(refs, f + 1, i); }
  lemma WordKept(org: nat, code: seq<Half>, refs: seq<Ref>, v: Word, entry: nat, first: nat, e: nat)
    requires Sited(refs, first) && first <= e
    ensures WordAt(PatchRun(org, code, refs, v, entry), e) == WordAt(code, e)
  {
    if e + 2 <= |code| {
      PatchMiss(org, code, refs, v, entry, e); PatchMiss(org, code, refs, v, entry, e + 1);
    }
  }
  lemma SiteKept(org: nat, code: seq<Half>, refs: seq<Ref>, v: Word, entry: nat, i: nat, k: nat)
    requires i <= |refs| && k < |refs| && Sited(refs, |code|) && refs[k].value != v
    ensures PatchRun(org, code, refs[i..], v, entry)[refs[k].site] == code[refs[k].site]
  { PatchMiss(org, code, refs[i..], v, entry, refs[k].site); }

  lemma {:induction false} ServeFrom(org: nat, code: seq<Half>, refs: seq<Ref>, first: nat, i: nat)
    requires i <= |refs| && Sited(refs, first) && |code| == first + 2 * Rank(refs, i)
    requires forall k :: 0 <= k < |refs| && FirstUse(refs, k) < i ==> Served(org, code, refs, first, k)
    ensures var c := PoolFrom(org, code, refs, i);
      |c| == first + 2 * Rank(refs, |refs|) && forall k :: 0 <= k < |refs| ==> Served(org, c, refs, first, k)
    decreases |refs| - i
  {
    hide Served, PatchRun, Seen, Rank;
    if i < |refs| {
      RankNext(refs, i);
      if Seen(refs, i) { ServeFrom(org, code, refs, first, i + 1); }
      else {
        var v := refs[i].value;
        var c1 := PatchRun(org, code + [HiHalf(v), LoHalf(v)], refs[i..], v, |code|);
        forall k | 0 <= k < |refs| && FirstUse(refs, k) < i + 1 ensures Served(org, c1, refs, first, k) {
          ServeStep(org, code, refs, first, i, k);
        }
        ServeFrom(org, c1, refs, first, i + 1);
      }
    }
  }
  lemma RankNext(refs: seq<Ref>, i: nat)
    requires i < |refs|
    ensures Rank(refs, i + 1) == Rank(refs, i) + if Seen(refs, i) then 0 else 1
  {}

  /** Before the pool only displacement bytes of recorded loads change. */
  lemma {:induction false} OnlyDisps(org: nat, code: seq<Half>, refs: seq<Ref>, i: nat, x: nat)
    requires i <= |refs| && x < |code|
    ensures var c := PoolFrom(org, code, refs, i);
      x < |c| && c[x] / 256 == code[x] / 256
      && ((forall k :: 0 <= k < |refs| ==> refs[k].site != x) ==> c[x] == code[x])
    decreases |refs| - i
  {
    hide PatchRun, Seen;
    if i < |refs| {
      if Seen(refs, i) { OnlyDisps(org, code, refs, i + 1, x); }
      else {
        var v := refs[i].value;
        var c0 := code + [HiHalf(v), LoHalf(v)];
        PatchHigh(org, c0, refs[i..], v, |code|, x);
        if forall k :: 0 <= k < |refs| ==> refs[k].site != x { PatchMiss(org, c0, refs[i..], v, |code|, x); }
        OnlyDisps(org, PatchRun(org, c0, refs[i..], v, |code|), refs, i + 1, x);
      }
    }
  }

  lemma {:induction false} MissedIff(org: nat, refs: seq<Ref>, first: nat, i: nat)
    requires i <= |refs|
    ensures Missed(org, first + 2 * Rank(refs, i), refs, i)
      <==> exists k :: 0 <= k < |refs| && FirstUse(refs, k) >= i && !Reaches(org, refs[k].site, EntryOf(refs, first, k))
    decreases |refs| - i
  {
    hide Reaches, Seen, Rank;
    if i < |refs| {
      RankNext(refs, i);
      MissedIff(org, refs, first, i + 1);
      if Seen(refs, i) {
        forall k | 0 <= k < |refs| && FirstUse(refs, k) == i ensures false {}
      } else {
        MissHere(org, refs, first, i);
      }
    }
  }
  lemma MissHere(org: nat, refs: seq<Ref>, first: nat, i: nat)
    requires i < |refs| && !Seen(refs, i)
    ensures AnyMiss(org, refs[i..], refs[i].value, first + 2 * Rank(refs, i))
      <==> exists k :: 0 <= k < |refs| && FirstUse(refs, k) == i && !Reaches(org, refs[k].site, EntryOf(refs, first, k))
  {
    hide Reaches, Seen, Rank, FirstUse, EntryOf;
    if AnyMiss(org, refs[i..], refs[i].value, first + 2 * Rank(refs, i)) { var k := MissAfter(org, refs, first, i); }
    if k :| 0 <= k < |refs| && FirstUse(refs, k) == i && !Reaches(org, refs[k].site, EntryOf(refs, first, k)) {
      MissBefore(org, refs, first, i, k);
    }
  }
  lemma MissAfter(org: nat, refs: seq<Ref>, first: nat, i: nat) returns (k: nat)
    requires i < |refs| && !Seen(refs, i) && AnyMiss(org, refs[i..], refs[i].value, first + 2 * Rank(refs, i))
    ensures k < |refs| && FirstUse(refs, k) == i && !Reaches(org, refs[k].site, EntryOf(refs, first, k))
  {
    hide Reaches, Seen, Rank;
    var t := refs[i..];
    var j :| 0 <= j < |t| && t[j].value == refs[i].value && !Reaches(org, t[j].site, first + 2 * Rank(refs, i));
    k := i + j;
    FirstUnique(refs, i, k);
  }
  lemma MissBefore(org: nat, refs: seq<Ref>, first: nat, i: nat, k: nat)
    requires i < |refs| && k < |refs| && FirstUse(refs, k) == i && !Reaches(org, refs[k].site, EntryOf(refs, first, k))
    ensures AnyMiss(org, refs[i..], refs[i].value, first + 2 * Rank(refs, i))
  {
    hide Reaches, Seen, Rank;
    assert refs[i..][k - i] == refs[k];
  }

  // ---- the two flushes --------------------------------------------------------------

  function Padded(code: seq<Half>, odd: bool): seq<Half> { if odd then code + [NOP_OP] else code }

  /** sh4_emit_flush_pool: positions count from the block start. */
  function Flushed(code: seq<Half>, refs: seq<Ref>): seq<Half> {
    if refs == [] then code else PoolFrom(0, Padded(code, |code| % 2 == 1), refs, 0)
  }
  predicate FlushError(code: seq<Half>, refs: seq<Ref>) { Missed(0, |Padded(code, |code| % 2 == 1)|, refs, 0) }

  lemma LoadsOwn(org: nat, code: seq<Half>, refs: seq<Ref>, first: nat, k: nat)
    requires k < |refs| && Sited(refs, first) && first <= |code| && Served(org, code, refs, first, k)
    requires (org + first) % 2 == 0
    requires Reaches(org, refs[k].site, EntryOf(refs, first, k))
    ensures Loaded(org, code, refs[k].site) == Some(refs[k].value)
  {
    var e := EntryOf(refs, first, k);
    assert (org + e) % 2 == 0;
    DispExact(org, refs[k].site, e);
    hide Rank, FirstUse, WordAt;
  }
  lemma SameAlignment(org: nat, code: seq<Half>, site: nat)
    requires org % 2 == 0 && site < |code|
    ensures Loaded(org, code, site) == Loaded(0, code, site)
  { assert (org + site) % 2 == site % 2; hide WordAt; }

  ghost predicate LoadsAll(org: nat, c: seq<Half>, refs: seq<Ref>, n: nat)
    requires Sited(refs, n) && n <= |c|
  { forall k :: 0 <= k < |refs| ==> Loaded(org, c, refs[k].site) == Some(refs[k].value) }
  /** Only displacement bytes of recorded loads differ from `code`. */
  ghost predicate SameButDisps(code: seq<Half>, c: seq<Half>, refs: seq<Ref>) {
    |code| <= |c| && forall x :: 0 <= x < |code| ==>
      c[x] / 256 == code[x] / 256 && ((forall k :: 0 <= k < |refs| ==> refs[k].site != x) ==> c[x] == code[x])
  }
  lemma SameThrough(org: nat, code: seq<Half>, p: seq<Half>, refs: seq<Ref>)
    requires code <= p
    ensures SameButDisps(code, PoolFrom(org, p, refs, 0), refs)
  {
    hide PoolFrom;
    LongEnough(org, p, refs, 0);
    var c := PoolFrom(org, p, refs, 0);
    forall x | 0 <= x < |code|
      ensures c[x] / 256 == code[x] / 256 && ((forall k :: 0 <= k < |refs| ==> refs[k].site != x) ==> c[x] == code[x])
    { OnlyDisps(org, p, refs, 0, x); }
  }
  lemma {:induction false} LongEnough(org: nat, code: seq<Half>, refs: seq<Ref>, i: nat)
    requires i <= |refs|
    ensures |PoolFrom(org, code, refs, i)| >= |code|
    decreases |refs| - i
  {
    hide PatchRun, Seen;
    if i < |refs| {
      if Seen(refs, i) { LongEnough(org, code, refs, i + 1); }
      else {
        LongEnough(org, PatchRun(org, code + [HiHalf(refs[i].value), LoHalf(refs[i].value)], refs[i..], refs[i].value,
            |code|), refs, i + 1);
      }
    }
  }

  /** Deferred pool: after a flush without error every recorded load, in a block that starts on
      a word boundary, gets its own constant; nothing before the pool changes but displacements. */
  lemma DeferredSound(org: nat, code: seq<Half>, refs: seq<Ref>)
    requires org % 2 == 0 && Sited(refs, |code|) && !FlushError(code, refs)
    ensures SameButDisps(code, Flushed(code, refs), refs) && LoadsAll(org, Flushed(code, refs), refs, |code|)
  {
    var p := Padded(code, |code| % 2 == 1);
    SameThrough(0, code, p, refs);
    if refs != [] {
      forall k | 0 <= k < |refs| ensures Loaded(org, Flushed(code, refs), refs[k].site) == Some(refs[k].value) {
        DeferredLoad(org, code, refs, k);
      }
    }
    hide PoolFrom, Missed, Loaded;
  }
  lemma DeferredLoad(org: nat, code: seq<Half>, refs: seq<Ref>, k: nat)
    requires org % 2 == 0 && Sited(refs, |code|) && !FlushError(code, refs) && k < |refs|
    ensures refs[k].site < |Flushed(code, refs)|
    ensures Loaded(org, Flushed(code, refs), refs[k].site) == Some(refs[k].value)
  {
    hide Served, Reaches, FirstUse, PoolFrom, Missed, Loaded, Seen, EntryOf, Rank, Padded;
    var p := Padded(code, |code| % 2 == 1);
    PaddedIs(code);
    FromZero(0, p, refs);
    InReach(refs, |p|, k);
    LoadsOwn(0, Flushed(code, refs), refs, |p|, k); SameAlignment(org, Flushed(code, refs), refs[k].site);
  }
  lemma InReach(refs: seq<Ref>, first: nat, k: nat)
    requires !Missed(0, first, refs, 0) && k < |refs|
    ensures Reaches(0, refs[k].site, EntryOf(refs, first, k))
  {
    hide Missed, Reaches, FirstUse, EntryOf, Rank;
    RankZero(refs);
    MissedIff(0, refs, first, 0);
  }
  /** And an error is reported exactly when some load cannot reach its word. */
  lemma ErrorIff(code: seq<Half>, refs: seq<Ref>)
    ensures FlushError(code, refs) <==>
      exists k :: 0 <= k < |refs| && !Reaches(0, refs[k].site, EntryOf(refs, |Padded(code, |code| % 2 == 1)|, k))
  {
    hide Missed, Reaches, FirstUse, EntryOf, Rank, Padded;
    RankZero(refs);
    MissedIff(0, refs, |Padded(code, |code| % 2 == 1)|, 0);
  }
  lemma PaddedIs(code: seq<Half>)
    ensures var p := Padded(code, |code| % 2 == 1); |code| <= |p| <= |code| + 1 && code <= p && |p| % 2 == 0
  {}
  lemma FromZero(org: nat, p: seq<Half>, refs: seq<Ref>)
    requires Sited(refs, |p|)
    ensures var c := PoolFrom(org, p, refs, 0);
      |c| == |p| + 2 * Rank(refs, |refs|) && forall k :: 0 <= k < |refs| ==> Served(org, c, refs, |p|, k)
  { ServeFrom(org, p, refs, |p|, 0); hide Served, PoolFrom; }

  // ---- segments -------------------------------------------------------------------

  function BraOp(at: nat, to: nat): Half { 0xA000 + (to - at - 2) % 0x1000 }
  function BraTarget(h: Half, at: nat): int {
    var d := h % 0x1000;
    at + 2 + if d >= 0x800 then d - 0x1000 else d
  }
  /** Code with the skip branch and alignment in front of the pool. */
  function Opened(org: nat, code: seq<Half>): seq<Half> {
    Padded(code + [0xA000, NOP_OP], (org + |code| + 2) % 2 == 1)
  }
  /** sh4g_litseg_flush. */
  function SegFlushed(org: nat, code: seq<Half>, refs: seq<Ref>): seq<Half> {
    if refs == [] then code
    else
      var c := PoolFrom(org, Opened(org, code), refs, 0);
      if |code| < |c| then c[|code| := BraOp(|code|, |c|)] else c
  }
  const MAX_REFS: nat := 48
  /** 924 bytes. */
  const REACH: nat := 462

  lemma {:induction false} SitesRise(refs: seq<Ref>, n: nat, k: nat)
    requires Sited(refs, n) && k < |refs|
    ensures refs[k].site >= refs[0].site + k
  { if k > 0 { SitesRise(refs, n, k - 1); } }
  /** A segment whose first load is at most 924 bytes back reaches every one of its words. */
  lemma AllReach(org: nat, code: seq<Half>, refs: seq<Ref>, k: nat)
    requires k < |refs| <= MAX_REFS && Sited(refs, |code|) && |code| - refs[0].site <= REACH
    ensures Reaches(org, refs[k].site, EntryOf(refs, |Opened(org, code)|, k))
  {
    RankBound(refs, 0, FirstUse(refs, k));
    SitesRise(refs, |code|, k);
    assert Rank(refs, FirstUse(refs, k)) <= k <= 47;
    hide Rank, FirstUse;
  }

  /** 48 different constants loaded by the first 48 halfwords of 926 bytes of code. */
  function LongRefs(): seq<Ref> { seq(48, k requires 0 <= k < 48 => Ref(k, k)) }
  function LongOp(x: nat): Half { if x < 48 then MovL(0, 0) else NOP_OP }
  function LongCode(): seq<Half> { seq(463, x requires 0 <= x < 463 => LongOp(x)) }

  lemma {:induction false} LongRank(i: nat)
    requires i <= 48
    ensures Rank(LongRefs(), i) == i
  { if i > 0 { LongRank(i - 1); } }
  lemma LongEntry()
    ensures Sited(LongRefs(), 463) && EntryOf(LongRefs(), |Opened(0, LongCode())|, 47) == 560
    ensures !Reaches(0, 47, 560)
  {
    LongRank(47);
    LongOpened(LongCode());
    assert FirstUse(LongRefs(), 47) == 47;
    hide Rank;
  }
  lemma LongOpened(code: seq<Half>) requires |code| == 463 ensures |Opened(0, code)| == 466 {}
  lemma LoadedNops(c: seq<Half>)
    requires |c| > 50 && c[47] == MovL(0, 0) && c[48] == NOP_OP && c[49] == NOP_OP
    ensures Loaded(0, c, 47) == Some(0x0009_0009)
  {}
  /** One halfword past that bound the last load is left as it was emitted and loads two NOPs. */
  lemma OnePastMisses()
    ensures var refs, code := LongRefs(), LongCode(); var c := SegFlushed(0, code, refs);
      Sited(refs, |code|) && |refs| == MAX_REFS && |code| - refs[0].site == REACH + 1
      && 47 < |c| && c[47] == code[47] && Loaded(0, c, 47) == Some(0x0009_0009) && refs[47].value == 47
  {
    var refs, code := LongRefs(), LongCode();
    LongEntry();
    hide SegFlushed, Opened, EntryOf, Reaches, Loaded, LongCode, LongRefs;
    LongFacts();
    SegmentPatched(0, code, refs, 47);
    SegmentSound(0, code, refs);
    LoadedNops(SegFlushed(0, code, refs));
  }
  lemma LongFacts()
    ensures var refs, code := LongRefs(), LongCode();
      |refs| == 48 && |code| == 463 && refs[0].site == 0 && refs[47] == Ref(47, 47)
      && code[47] == MovL(0, 0) && code[48] == NOP_OP && code[49] == NOP_OP
    ensures forall k :: 0 <= k < 48 ==> LongRefs()[k].site < 48
  {}

  /** Segmented pool: the skip branch lands just past it, nothing else before it changes but
      displacements, a load that reaches its word gets its own constant, and within 924 bytes of
      the first load all do. */
  lemma SegmentSound(org: nat, code: seq<Half>, refs: seq<Ref>)
    requires refs != [] && |refs| <= MAX_REFS && Sited(refs, |code|)
    ensures var c := SegFlushed(org, code, refs);
      |code| + 2 <= |c| <= |code| + 99 && BraTarget(c[|code|], |code|) == |c| && c[|code| + 1] == NOP_OP
    ensures SameButDisps(code, SegFlushed(org, code, refs), refs)
    ensures forall k :: 0 <= k < |refs| && Reaches(org, refs[k].site, EntryOf(refs, |Opened(org, code)|, k)) ==>
      refs[k].site < |SegFlushed(org, code, refs)|
      && Loaded(org, SegFlushed(org, code, refs), refs[k].site) == Some(refs[k].value)
    ensures |code| - refs[0].site <= REACH ==> LoadsAll(org, SegFlushed(org, code, refs), refs, |code|)
  {
    hide PoolFrom, Loaded, Opened, BraOp, Reaches, EntryOf;
    OpenedIs(org, code);
    var p := Opened(org, code);
    var c0 := PoolFrom(org, p, refs, 0);
    FromZero(org, p, refs);
    RankBound(refs, 0, |refs|); RankZero(refs);
    BraExact(|code|, |c0|);
    SameThrough(org, code, p, refs);
    OnlyDisps(org, p, refs, 0, |code| + 1);
    forall k | 0 <= k < |refs| && Reaches(org, refs[k].site, EntryOf(refs, |Opened(org, code)|, k))
      ensures refs[k].site < |SegFlushed(org, code, refs)|
      ensures Loaded(org, SegFlushed(org, code, refs), refs[k].site) == Some(refs[k].value)
    { SegmentLoad(org, code, refs, k); }
    if |code| - refs[0].site <= REACH {
      forall k | 0 <= k < |refs| ensures Reaches(org, refs[k].site, EntryOf(refs, |Opened(org, code)|, k))
      { AllReach(org, code, refs, k); }
    }
  }
  lemma OpenedIs(org: nat, code: seq<Half>)
    ensures var p := Opened(org, code);
      |code| + 2 <= |p| <= |code| + 3 && code <= p && p[|code| + 1] == NOP_OP && (org + |p|) % 2 == 0
  {}
  lemma SegmentLoad(org: nat, code: seq<Half>, refs: seq<Ref>, k: nat)
    requires k < |refs| && Sited(refs, |code|) && Reaches(org, refs[k].site, EntryOf(refs, |Opened(org, code)|, k))
    ensures refs[k].site < |SegFlushed(org, code, refs)|
    ensures Loaded(org, SegFlushed(org, code, refs), refs[k].site) == Some(refs[k].value)
  {
    hide Served, Reaches, FirstUse, PoolFrom, Loaded, Seen, Rank, Opened, BraOp, EntryOf;
    OpenedIs(org, code);
    var p := Opened(org, code);
    var c0 := PoolFrom(org, p, refs, 0);
    FromZero(org, p, refs);
    LoadsOwn(org, c0, refs, |p|, k);
    BraApart(org, c0, refs, |p|, k, |code|, BraOp(|code|, |c0|));
  }
  /** What becomes of each load of a segment: pointed at its word, if it reaches it, and untouched
      otherwise. */
  lemma SegmentPatched(org: nat, code: seq<Half>, refs: seq<Ref>, k: nat)
    requires k < |refs| && Sited(refs, |code|)
    ensures var c := SegFlushed(org, code, refs);
      var site, e := refs[k].site, EntryOf(refs, |Opened(org, code)|, k);
      site < |c| && c[site] == if Reaches(org, site, e) then SetLow(code[site], DispTo(org, site, e)) else code[site]
  {
    hide PoolFrom, Opened, BraOp, Reaches, DispTo, EntryOf, FirstUse;
    OpenedIs(org, code); LongEnough(org, Opened(org, code), refs, 0);
    RankZero(refs);
    SiteFinal(org, Opened(org, code), refs, |Opened(org, code)|, 0, k);
  }
  lemma {:induction false} SiteFinal(org: nat, code: seq<Half>, refs: seq<Ref>, first: nat, i: nat, k: nat)
    requires i <= |refs| && k < |refs| && Sited(refs, first) && |code| == first + 2 * Rank(refs, i)
    ensures var c := PoolFrom(org, code, refs, i);
      var site, e := refs[k].site, EntryOf(refs, first, k);
      site < |c| && c[site] == if FirstUse(refs, k) >= i && Reaches(org, site, e) then SetLow(code[site],
          DispTo(org, site, e)) else code[site]
    decreases |refs| - i
  {
    hide PatchRun, Reaches, DispTo, Seen, Rank, HiHalf, LoHalf;
    if i < |refs| {
      RankNext(refs, i);
      if Seen(refs, i) { SiteFinal(org, code, refs, first, i + 1, k); }
      else {
        var v := refs[i].value;
        var c0 := code + [HiHalf(v), LoHalf(v)];
        SiteFinal(org, PatchRun(org, c0, refs[i..], v, |code|), refs, first, i + 1, k);
        SiteStep(org, c0, refs, first, i, k);
      }
    }
  }
  /** Laying down word i patches its own users, those that reach it, and no other load. */
  lemma SiteStep(org: nat, code: seq<Half>, refs: seq<Ref>, first: nat, i: nat, k: nat)
    requires i < |refs| && k < |refs| && !Seen(refs, i) && Sited(refs, first) && |code| == first + 2 * Rank(refs, i) + 2
    ensures var site, e := refs[k].site, EntryOf(refs, first, k);
      PatchRun(org, code, refs[i..], refs[i].value, |code| - 2)[site]
        == if FirstUse(refs, k) == i && Reaches(org, site, e) then SetLow(code[site],
            DispTo(org, site, e)) else code[site]
  {
    hide PatchRun, Reaches, DispTo, Seen, Rank, FirstUse;
    if refs[k].value == refs[i].value {
      FirstUnique(refs, i, k);
      if Reaches(org, refs[k].site, |code| - 2) { PatchHit(org, code, refs[i..], refs[i].value, |code| - 2, k - i); }
      else { PatchFar(org, code, refs[i..], refs[i].value, |code| - 2, k - i); }
    } else { SiteKept(org, code, refs, refs[i].value, |code| - 2, i, k); }
  }
  lemma {:induction false} PatchFar(org: nat, code: seq<Half>, refs: seq<Ref>, v: Word, entry: nat, k: nat)
    requires k < |refs| && refs[k].value == v && Sited(refs, |code|) && !Reaches(org, refs[k].site, entry)
    ensures PatchRun(org, code, refs, v, entry)[refs[k].site] == code[refs[k].site]
    decreases |refs|
  {
    hide Reaches;
    var c1 := PatchOne(org, code, refs[0], v, entry);
    if k == 0 { PatchMiss(org, c1, refs[1..], v, entry, refs[0].site); }
    else { PatchFar(org, c1, refs[1..], v, entry, k - 1); }
  }
  lemma RankZero(refs: seq<Ref>) ensures Rank(refs, 0) == 0 {}
  lemma BraExact(at: nat, to: nat)
    requires at + 2 <= to <= at + 1000
    ensures BraTarget(BraOp(at, to), at) == to
  {}
  /** Patching the branch in front of the pool disturbs no load. */
  lemma BraApart(org: nat, c: seq<Half>, refs: seq<Ref>, first: nat, k: nat, at: nat, h: Half)
    requires k < |refs| && Sited(refs, at) && at < first <= |c| && Served(org, c, refs, first, k)
    requires (org + first) % 2 == 0
    requires Reaches(org, refs[k].site, EntryOf(refs, first, k))
    ensures Loaded(org, c[at := h], refs[k].site) == Loaded(org, c, refs[k].site)
  {
    var e := EntryOf(refs, first, k);
    assert (org + e) % 2 == 0;
    DispExact(org, refs[k].site, e);
    hide Rank, FirstUse;
  }

  // ---- the emitter's own loops -------------------------------------------------------------

  class Pool {
    const org: nat
    var code: seq<Half>
    var refs: seq<Ref>
    var error: bool

    constructor (org: nat)
      ensures this.org == org && code == [] && refs == [] && !error
    { this.org := org; code, refs, error := [], [], false; }

    ghost predicate Valid() reads this { Sited(refs, |code|) }

    /** Code between the loads. */
    method Emit(hs: seq<Half>)
      requires Valid()
      modifies this`code
      ensures Valid() && code == old(code) + hs
    { code := code + hs; }

    /** The deferred load of sh4_emit_load_imm32; a full pool is an error and emits nothing. */
    method Load(value: Word, rn: nat)
      requires Valid() && rn < 16
      modifies this
      ensures Valid()
      ensures old(|refs|) >= 128 ==> error && code == old(code) && refs == old(refs)
      ensures old(|refs|) < 128 ==> error == old(error) && code == old(code) + [MovL(rn, 0)]
      ensures old(|refs|) < 128 ==> refs == old(refs) + [Ref(old(|code|), value)]
    {
      if |refs| >= 128 { error := true; return; }
      refs := refs + [Ref(|code|, value)];
      code := code + [MovL(rn, 0)];
    }

    method Prior(i: nat) returns (prior: bool)
      requires i < |refs|
      ensures prior == Seen(refs, i)
    {
      var j := 0;
      while j < i
        invariant j <= i && forall k :: 0 <= k < j ==> refs[k].value != refs[i].value
      {
        if refs[j].value == refs[i].value { return true; }
        j := j + 1;
      }
      return false;
    }

    /** Patches every load of refs[i]'s value from i on. */
    method PatchUsers(base: nat, i: nat, entry: nat) returns (missed: bool)
      requires i < |refs|
      modifies this`code
      ensures code == PatchRun(base, old(code), refs[i..], refs[i].value, entry)
      ensures (forall k :: 0 <= k < |refs| ==> refs[k].site < |old(code)|) ==>
        missed == AnyMiss(base, refs[i..], refs[i].value, entry)
    {
      hide Reaches;
      var j, v := i, refs[i].value;
      missed := false;
      while j < |refs|
        invariant i <= j <= |refs| && |code| == |old(code)|
        invariant PatchRun(base, old(code), refs[i..], v, entry) == PatchRun(base, code, refs[j..], v, entry)
        invariant AnyMiss(base, refs[i..], v, entry) == (missed || AnyMiss(base, refs[j..], v, entry))
      {
        assert refs[j..][1..] == refs[j + 1..];
        MissStep(base, refs[j..], v, entry);
        if refs[j].value == v && !Reaches(base, refs[j].site, entry) { missed := true; }
        code := PatchOne(base, code, refs[j], v, entry);
        j := j + 1;
      }
    }

    /** The word loop both flushes share. */
    method Words(base: nat) returns (missed: bool)
      requires forall k :: 0 <= k < |refs| ==> refs[k].site < |code|
      modifies this`code
      ensures code == PoolFrom(base, old(code), refs, 0) && missed == Missed(base, |old(code)|, refs, 0)
    {
      hide Seen, PatchRun, AnyMiss;
      var i := 0;
      missed := false;
      while i < |refs|
        invariant i <= |refs| && |code| >= |old(code)|
        invariant PoolFrom(base, old(code), refs, 0) == PoolFrom(base, code, refs, i)
        invariant Missed(base, |old(code)|, refs, 0) == (missed || Missed(base, |code|, refs, i))
      {
        var prior := Prior(i);
        if !prior {
          var entry := |code|;
          code := code + [HiHalf(refs[i].value), LoHalf(refs[i].value)];
          var miss := PatchUsers(base, i, entry);
          missed := missed || miss;
        }
        i := i + 1;
      }
    }

    /** sh4_emit_flush_pool. */
    method Flush()
      requires Valid()
      modifies this
      ensures refs == [] && code == Flushed(old(code), old(refs))
      ensures error == (old(error) || (old(refs) != [] && FlushError(old(code), old(refs))))
    {
      hide PoolFrom, Missed;
      if refs == [] { return; }
      if |code| % 2 != 0 { code := code + [NOP_OP]; }
      var missed := Words(0);
      error := error || missed;
      refs := [];
    }

    /** sh4g_litseg_flush: no error is kept for a load out of reach. */
    method FlushSegment()
      requires Valid()
      modifies this`code, this`refs
      ensures Valid() && refs == [] && code == SegFlushed(org, old(code), old(refs))
    {
      hide PoolFrom, Missed;
      if refs == [] { return; }
      var bra := |code|;
      code := code + [0xA000, NOP_OP];
      if (org + |code|) % 2 != 0 { code := code + [NOP_OP]; }
      LongEnough(org, code, refs, 0);
      var _ := Words(org);
      code := code[bra := BraOp(bra, |code|)];
      refs := [];
    }

    /** sh4g_litseg_add for an active segment; the 49th load closes it first. */
    method Add(value: Word, rn: nat)
      requires Valid() && |refs| <= MAX_REFS && rn < 16
      modifies this`code, this`refs
      ensures Valid() && 0 < |refs| <= MAX_REFS && |code| > 0
      ensures var full := old(|refs|) == MAX_REFS;
        var c := if full then SegFlushed(org, old(code), old(refs)) else old(code);
        code == c + [MovL(rn, 0)] && refs == (if full then [] else old(refs)) + [Ref(|c|, value)]
    {
      hide SegFlushed;
      if |refs| == MAX_REFS { FlushSegment(); }
      refs := refs + [Ref(|code|, value)];
      code := code + [MovL(rn, 0)];
    }

    /** sh4g_litseg_maybe_flush at an instruction boundary: afterwards an open segment is less
        than 704 bytes long, so 220 more bytes keep it within reach. */
    method MaybeFlush()
      requires Valid()
      modifies this`code, this`refs
      ensures Valid() && (refs != [] ==> |code| - refs[0].site < 352 && refs == old(refs) && code == old(code))
      ensures refs == [] ==> code == SegFlushed(org, old(code), old(refs))
    {
      hide SegFlushed;
      if refs != [] && |code| - refs[0].site >= 352 { FlushSegment(); } else if refs == [] { NothingOpen(org, code); }
    }
  }
  lemma NothingOpen(org: nat, code: seq<Half>) ensures SegFlushed(org, code, []) == code {}
  lemma MissStep(org: nat, refs: seq<Ref>, v: Word, entry: nat)
    requires refs != []
    ensures AnyMiss(org, refs, v, entry)
      == ((refs[0].value == v && !Reaches(org, refs[0].site, entry)) || AnyMiss(org, refs[1..], v, entry))
  {
    hide Reaches;
    if k :| 0 <= k < |refs[1..]| && refs[1..][k].value == v && !Reaches(org, refs[1..][k].site, entry) {
      assert refs[k + 1] == refs[1..][k];
    }
    if k :| 0 < k < |refs| && refs[k].value == v && !Reaches(org, refs[k].site, entry) {
      assert refs[1..][k - 1] == refs[k];
    }
  }
}
