/** CpuSet and CpuFastSet as C helpers: the element loops with their cycle charges and
    code-overwrite alerts, and the bulk form that must leave the same memory, charge and alert. */
module Bulk {
  import opened Words
  import opened Sh4
  import opened GuestBus
  import opened Chunks
  import Swi
  import SwiAtomic

  /** What a call does not change: the wait-state table selected by the sequential flag, the tag
      byte of each EWRAM and IWRAM byte, and what a halfword read at an odd address gives. */
  datatype Env = Env(cost: (nat, Width) -> nat, tags: nat -> Byte, odd: (Bus, nat) -> (Byte, Byte))
  datatype State = State(bus: Bus, cycles: nat, smc: bool)

  /** EWRAM and IWRAM have tags, VRAM has none. */
  const TAGGED: nat := 0x4_8000

  ghost predicate Hit(e: Env, h: nat, n: nat) { exists i :: h <= i < h + n && i < TAGGED && e.tags(i) != 0 }

  /** cgba_sh4_charge_mem. */
  function Charge(e: Env, addr: Word, w: Width): nat {
    if addr < 0x1000_0000 then e.cost(addr / 0x100_0000, w) else 0
  }
  /** execute_load_u16, execute_load_u32 without the charge. */
  function Read(e: Env, b: Bus, addr: Word, w: Width): (bs: seq<Byte>)
    requires Valid(b)
    ensures |bs| == w
  {
    if w == 2 && addr % 2 == 1 then [e.odd(b, addr).0, e.odd(b, addr).1] else Load(b, addr, w)
  }
  function Floor(addr: Word, w: Width): Word { if w == 2 then addr - addr % 2 else addr - addr % 4 }

  /** cgba_sh4_smc_check. */
  ghost predicate Alerts(e: Env, addr: Word, w: Width) {
    RamHost(addr, w).Some? && Hit(e, RamHost(addr, w).value, w)
  }
  /** execute_store_u16, execute_store_u32. */
  ghost function Write(e: Env, a: State, addr: Word, bs: seq<Byte>, w: Width): (a': State)
    requires Valid(a.bus) && |bs| == w
    ensures Valid(a'.bus) && a'.bus.pages == a.bus.pages && |a'.bus.mem| == |a.bus.mem|
  {
    var at := Floor(addr, w);
    State(Store(a.bus, at, bs), a.cycles + Charge(e, at, w), a.smc || Alerts(e, at, w))
  }
  predicate OpenBus(source: Word) { source > 0x0EFF_FFFF }
  function Fetched(e: Env, b: Bus, source: Word, w: Width, open: Word): (v: seq<Byte>)
    requires Valid(b)
    ensures |v| == w
  { if OpenBus(source) then Le(open)[..w] else Read(e, b, source, w) }
  function FetchCost(e: Env, source: Word, w: Width): nat { if OpenBus(source) then 0 else Charge(e, source, w) }

  // ---- the element loops -----------------------------------------------------------

  ghost function CopyOne(e: Env, a: State, src: Word, dst: Word, w: Width, open: Word): (a': State)
    requires Valid(a.bus)
    ensures Valid(a'.bus) && a'.bus.pages == a.bus.pages && |a'.bus.mem| == |a.bus.mem|
  {
    Write(e, a.(cycles := a.cycles + FetchCost(e, src, w)), dst, Fetched(e, a.bus, src, w, open), w)
  }
  ghost function CopyLoop(e: Env, a: State, src: Word, dst: Word, w: Width, n: nat, open: Word): (a': State)
    requires Valid(a.bus)
    ensures Valid(a'.bus) && a'.bus.pages == a.bus.pages && |a'.bus.mem| == |a.bus.mem|
    decreases n
  {
    if n == 0 then a
    else CopyLoop(e, CopyOne(e, a, src, dst, w, open), Lo(src + w), Lo(dst + w), w, n - 1, open)
  }
  ghost function FillLoop(e: Env, a: State, v: seq<Byte>, dst: Word, w: Width, n: nat): (a': State)
    requires Valid(a.bus) && |v| == w
    ensures Valid(a'.bus) && a'.bus.pages == a.bus.pages && |a'.bus.mem| == |a.bus.mem|
    decreases n
  {
    if n == 0 then a else FillLoop(e, Write(e, a, dst, v, w), v, Lo(dst + w), w, n - 1)
  }
  /** Copy or fill n elements one by one; a fill loads its value once. */
  ghost function Elements(e: Env, a: State, src: Word, dst: Word, w: Width, n: nat, fill: bool, open: Word): (a': State)
    requires Valid(a.bus)
    ensures Valid(a'.bus) && a'.bus.pages == a.bus.pages && |a'.bus.mem| == |a.bus.mem|
  {
    if fill then FillLoop(e, a.(cycles := a.cycles + FetchCost(e, src, w)), Fetched(e, a.bus, src, w, open), dst, w, n)
    else CopyLoop(e, a, src, dst, w, n, open)
  }

  predicate Flag(cnt: Word, bit: nat) requires bit == 24 || bit == 26 {
    if bit == 24 then (cnt / 0x100_0000) % 2 == 1 else (cnt / 0x400_0000) % 2 == 1
  }
  function CountOf(cnt: Word): nat { cnt % 0x20_0000 }
  predicate Turned(source: Word, cnt: Word) {
    SwiAtomic.Refused(source) || SwiAtomic.Refused(SwiAtomic.End(source, CountOf(cnt)))
  }

  /** cgba_swi_cpuset without its bulk form. */
  ghost function CpuSet(e: Env, a: State, source: Word, dest: Word, cnt: Word): State
    requires Valid(a.bus)
  {
    var n, fill := CountOf(cnt), Flag(cnt, 24);
    if Turned(source, cnt) then a
    else if Flag(cnt, 26) then Elements(e, a, Swi.Down4(source), Swi.Down4(dest), 4, n, fill, 0x1CAD_1CAD)
    else Elements(e, a, source, dest, 2, n, fill, 0x1CAD)
  }

  /** The eight-at-a-time loops of cgba_swi_cpufastset. */
  ghost function CopyEights(e: Env, a: State, src: Word, dst: Word, count: int, open: Word): (a': State)
    requires Valid(a.bus)
    ensures Valid(a'.bus)
    decreases count
  {
    if count <= 0 then a
    else CopyEights(e, CopyLoop(e, a, src, dst, 4, 8, open), Lo(src + 32), Lo(dst + 32), count - 8, open)
  }
  ghost function FillEights(e: Env, a: State, v: seq<Byte>, dst: Word, count: int): (a': State)
    requires Valid(a.bus) && |v| == 4
    ensures Valid(a'.bus)
    decreases count
  {
    if count <= 0 then a else FillEights(e, FillLoop(e, a, v, dst, 4, 8), v, Lo(dst + 32), count - 8)
  }
  /** cgba_swi_cpufastset without its bulk form. */
  ghost function CpuFastSet(e: Env, a: State, source: Word, dest: Word, cnt: Word): State
    requires Valid(a.bus)
  {
    var n, src, dst := CountOf(cnt), Swi.Down4(source), Swi.Down4(dest);
    if Turned(source, cnt) then a
    else if Flag(cnt, 24) then
      FillEights(e, a.(cycles := a.cycles + FetchCost(e, src, 4)), Fetched(e, a.bus, src, 4, 0xBAFF_FFFB), dst, n)
    else CopyEights(e, a, src, dst, n, 0xBAFF_FFFB)
  }
  function Eights(count: nat): nat { ((count + 7) / 8) * 8 }

  lemma LoTwice(x: nat, y: nat) ensures Lo(Lo(x) + y) == Lo(x + y) {
    ModUnique(x + y, 0x1_0000_0000, x / 0x1_0000_0000 + (Lo(x) + y) / 0x1_0000_0000, Lo(Lo(x) + y));
  }
  lemma {:induction false} CopyJoin(e: Env, a: State, src: Word, dst: Word, w: Width, n: nat, k: nat, open: Word)
    requires Valid(a.bus)
    ensures CopyLoop(e, a, src, dst, w, n + k, open)
         == CopyLoop(e, CopyLoop(e, a, src, dst, w, n, open), Lo(src + Len(n, w)), Lo(dst + Len(n, w)), w, k, open)
    decreases n
  {
    hide CopyOne, Valid, Lo;
    if n > 0 {
      CopyJoin(e, CopyOne(e, a, src, dst, w, open), Lo(src + w), Lo(dst + w), w, n - 1, k, open);
      LoTwice(src + w, Len(n - 1, w)); LoTwice(dst + w, Len(n - 1, w));
    } else { LoSame(src); LoSame(dst); }
  }
  lemma {:induction false} FillJoin(e: Env, a: State, v: seq<Byte>, dst: Word, w: Width, n: nat, k: nat)
    requires Valid(a.bus) && |v| == w
    ensures FillLoop(e, a, v, dst, w, n + k) == FillLoop(e, FillLoop(e, a, v, dst, w, n), v, Lo(dst + Len(n, w)), w, k)
    decreases n
  {
    hide Write, Valid, Lo;
    if n > 0 {
      FillJoin(e, Write(e, a, dst, v, w), v, Lo(dst + w), w, n - 1, k);
      LoTwice(dst + w, Len(n - 1, w));
    } else { LoSame(dst); }
  }
  lemma LoSame(x: nat) requires x < 0x1_0000_0000 ensures Lo(x) == x {}
  lemma EightsStep(count: nat)
    requires count > 0
    ensures Eights(count) == 8 + Eights(if count > 8 then count - 8 else 0)
  {}

  lemma NoEights(e: Env, a: State, v: seq<Byte>, src: Word, dst: Word, open: Word)
    requires Valid(a.bus) && |v| == 4
    ensures Eights(0) == 0 && CopyLoop(e, a, src, dst, 4, 0, open) == a && FillLoop(e, a, v, dst, 4, 0) == a
  {}

  /** The eight-at-a-time loops make the count rounded up to eight. */
  lemma {:induction false} CopyRounded(e: Env, a: State, src: Word, dst: Word, count: nat, open: Word)
    requires Valid(a.bus)
    ensures CopyEights(e, a, src, dst, count, open) == CopyLoop(e, a, src, dst, 4, Eights(count), open)
    decreases count
  {
    hide CopyLoop, Valid, Lo, Eights;
    if count > 0 {
      EightsStep(count);
      CopyJoin(e, a, src, dst, 4, 8, Eights(if count > 8 then count - 8 else 0), open);
      CopyRounded(e, CopyLoop(e, a, src, dst, 4, 8, open), Lo(src + 32), Lo(dst + 32),
          if count > 8 then count - 8 else 0, open);
    } else { NoEights(e, a, Le(open), src, dst, open); }
  }
  lemma {:induction false} FillRounded(e: Env, a: State, v: seq<Byte>, dst: Word, count: nat)
    requires Valid(a.bus) && |v| == 4
    ensures FillEights(e, a, v, dst, count) == FillLoop(e, a, v, dst, 4, Eights(count))
    decreases count
  {
    hide FillLoop, Valid, Lo, Eights;
    if count > 0 {
      EightsStep(count);
      FillJoin(e, a, v, dst, 4, 8, Eights(if count > 8 then count - 8 else 0));
      FillRounded(e, FillLoop(e, a, v, dst, 4, 8), v, Lo(dst + 32), if count > 8 then count - 8 else 0);
    } else { NoEights(e, a, v, dst, dst, 0); }
  }

  // ---- the bulk form -----------------------------------------------------------------

  function Repeated(v: seq<Byte>, n: nat): (r: seq<Byte>)
  { if n == 0 then [] else v + Repeated(v, n - 1) }
  lemma {:induction false} RepeatedLen(v: seq<Byte>, w: Width, n: nat)
    requires |v| == w
    ensures |Repeated(v, n)| == Len(n, w)
  { if n > 0 { RepeatedLen(v, w, n - 1); } }

  predicate Near(s: nat, d: nat, len: nat) { s < d + len && d < s + len }

  /** The calls cgba_bulk_cpuset takes. */
  predicate Taken(b: Bus, src: Word, dst: Word, w: Width, n: nat, fill: bool) {
    var len := Len(n, w);
    n > 0 && len <= 0x20_0000 && Aligned(dst, w) && (fill || Aligned(src, w)) && RamHost(dst, len).Some?
    && (fill || (SrcHost(b.pages, src, len).Some? && !Near(SrcHost(b.pages, src, len).value, RamHost(dst, len).value,
        len)))
  }

  lemma OneHit(e: Env, h: nat, n: nat, k: nat)
    ensures Hit(e, h, n + k) <==> Hit(e, h, n) || Hit(e, h + n, k)
  {
    if Hit(e, h, n + k) {
      var i :| h <= i < h + n + k && i < TAGGED && e.tags(i) != 0;
    }
  }
  lemma Product(n: nat, c: nat)
    requires n > 0
    ensures Swi.Times(n, c) == c + Swi.Times(n - 1, c) && Swi.Times(0, c) == 0
  {}

  lemma {:induction false} FillIs(e: Env, a: State, v: seq<Byte>, dst: Word, w: Width, n: nat)
    requires Valid(a.bus) && |v| == w && n > 0 && Aligned(dst, w) && RamHost(dst, Len(n, w)).Some?
    ensures var d := RamHost(dst, Len(n, w)).value;
      d + Len(n, w) <= |a.bus.mem| && |Repeated(v, n)| == Len(n, w)
      && FillLoop(e, a, v, dst, w, n)
         == State(a.bus.(mem := Put(a.bus.mem, d, Repeated(v, n))), a.cycles + Swi.Times(n, Charge(e, dst, w)),
             a.smc || Hit(e, d, Len(n, w)))
    decreases n
  {
    hide Valid, Write, RamHost, Charge, Hit, Put, Lo, Aligned;
    var d := RamHost(dst, Len(n, w)).value;
    RepeatedLen(v, w, n); RepeatedLen(v, w, n - 1);
    RamFits(a.bus, dst, Len(n, w));
    WriteRam(e, a, v, dst, w, n);
    var a1 := Write(e, a, dst, v, w);
    Product(n, Charge(e, dst, w));
    OneHit(e, d, w, Len(n - 1, w));
    if n > 1 {
      Next(dst, w, n);
      FillIs(e, a1, v, Lo(dst + w), w, n - 1);
      PutPair(a.bus.mem, d, v, Repeated(v, n - 1));
    } else {
      assert FillLoop(e, a1, v, Lo(dst + w), w, 0) == a1;
      assert Repeated(v, 1) == v + Repeated(v, 0) == v;
      NoHit(e, d + w);
    }
  }
  lemma NoHit(e: Env, h: nat) ensures !Hit(e, h, 0) {}
  lemma PutPair(mem: seq<Byte>, h: nat, a: seq<Byte>, b: seq<Byte>)
    requires h + |a| + |b| <= |mem|
    ensures |Put(mem, h, a)| == |mem| && Put(Put(mem, h, a), h + |a|, b) == Put(mem, h, a + b)
  {}
  /** The next element of a resolved destination. */
  lemma Next(dst: Word, w: Width, n: nat)
    requires n > 1 && RamHost(dst, Len(n, w)).Some? && Aligned(dst, w)
    ensures Lo(dst + w) == dst + w && Aligned(dst + w, w)
    ensures RamHost(dst + w, Len(n - 1, w)) == Some(RamHost(dst, Len(n, w)).value + w)
    ensures forall e :: Charge(e, dst + w, w) == Charge(e, dst, w)
  {
    RamSub(dst, Len(n, w), w, Len(n - 1, w));
    RamRegion(dst, Len(n, w), w);
    NextAligned(dst, w);
    LoSame(dst + w);
    SameCharge(dst, w);
    hide RamHost, Charge, Aligned, Lo;
  }
  lemma NextAligned(x: Word, w: Width)
    requires Aligned(x, w)
    ensures Aligned(x + w, w)
  { if w == 2 { NextEven(x); } else { NextWord(x); } }
  lemma NextEven(x: int) requires x % 2 == 0 ensures (x + 2) % 2 == 0 { ModUnique(x + 2, 2, x / 2 + 1, 0); }
  lemma NextWord(x: int) requires x % 4 == 0 ensures (x + 4) % 4 == 0 { ModUnique(x + 4, 4, x / 4 + 1, 0); }
  lemma RamRegion(addr: Word, len: nat, i: nat)
    requires RamHost(addr, len).Some? && i < len
    ensures (addr + i) / 0x100_0000 == addr / 0x100_0000 && addr + i < 0x1000_0000
  { Within(addr, i); Below(addr); Below(addr + i); }
  lemma Below(x: nat) requires x / 0x100_0000 < 16 ensures x < 0x1000_0000 {}
  lemma SameCharge(x: Word, w: Width)
    requires x + w < 0x1000_0000 && (x + w) / 0x100_0000 == x / 0x100_0000
    ensures forall e :: Charge(e, x + w, w) == Charge(e, x, w)
  {}
  lemma WriteRam(e: Env, a: State, v: seq<Byte>, dst: Word, w: Width, n: nat)
    requires Valid(a.bus) && |v| == w && n > 0 && Aligned(dst, w) && RamHost(dst, Len(n, w)).Some?
    ensures var d := RamHost(dst, Len(n, w)).value;
      d + w <= |a.bus.mem| && RamHost(dst, w) == Some(d)
      && Write(e, a, dst, v, w)
        == State(a.bus.(mem := Put(a.bus.mem, d, v)), a.cycles + Charge(e, dst, w), a.smc || Hit(e, d, w))
  {
    RamSub(dst, Len(n, w), 0, w); RamFits(a.bus, dst, w);
    hide RamHost, Hit, Charge, Put;
  }

  lemma {:induction false} CopyIs(e: Env, a: State, src: Word, dst: Word, w: Width, n: nat, open: Word)
    requires Valid(a.bus) && n > 0 && Aligned(src, w) && Aligned(dst, w) && Linear(a.bus, src, dst, Len(n, w))
    ensures CopyLoop(e, a, src, dst, w, n, open)
         == State(CopyEls(a.bus, src, dst, w, n), a.cycles + Swi.Times(n, Charge(e, src, w) + Charge(e, dst, w)),
                  a.smc || Hit(e, RamHost(dst, Len(n, w)).value, Len(n, w)))
    decreases n
  {
    hide Valid, Write, RamHost, SrcHost, Charge, Hit, Put, Lo, Aligned, CopyOne, CopyEl;
    var d := RamHost(dst, Len(n, w)).value;
    OneIs(e, a, src, dst, w, n, open);
    var a1 := CopyOne(e, a, src, dst, w, open);
    Product(n, Charge(e, src, w) + Charge(e, dst, w));
    OneHit(e, d, w, Len(n - 1, w));
    if n > 1 {
      Next(dst, w, n); NextSource(a.bus, src, w, n);
      CopyIs(e, a1, Lo(src + w), Lo(dst + w), w, n - 1, open);
    } else {
      assert CopyLoop(e, a1, Lo(src + w), Lo(dst + w), w, 0, open) == a1;
      assert CopyEls(a1.bus, src + w, dst + w, w, 0) == a1.bus;
      NoHit(e, d + w);
    }
  }
  lemma NextSource(b: Bus, src: Word, w: Width, n: nat)
    requires Valid(b) && n > 1 && SrcHost(b.pages, src, Len(n, w)).Some? && Aligned(src, w)
    ensures Lo(src + w) == src + w && Aligned(src + w, w) && SrcHost(b.pages, src + w, Len(n - 1, w)).Some?
    ensures forall e :: Charge(e, src + w, w) == Charge(e, src, w)
  {
    SrcSub(b, src, Len(n, w), w, Len(n - 1, w));
    SourceRegion(b.pages, src, Len(n, w), w);
    NextAligned(src, w);
    LoSame(src + w);
    SameCharge(src, w);
    hide SrcHost, Charge, Aligned, Lo, Valid;
  }
  lemma SourceRegion(pages: map<nat, nat>, addr: Word, len: nat, i: nat)
    requires SrcHost(pages, addr, len).Some? && i < len
    ensures (addr + i) / 0x100_0000 == addr / 0x100_0000 && addr + i < 0x1000_0000
  {
    if 8 <= addr / 0x100_0000 <= 0xD { Within(addr, i); Below(addr); Below(addr + i); }
    else { RamRegion(addr, len, i); }
    hide RamHost;
  }
  lemma OneIs(e: Env, a: State, src: Word, dst: Word, w: Width, n: nat, open: Word)
    requires Valid(a.bus) && n > 0 && Aligned(src, w) && Aligned(dst, w) && Linear(a.bus, src, dst, Len(n, w))
    ensures CopyOne(e, a, src, dst, w, open)
         == State(CopyEl(a.bus, src, dst, w), a.cycles + Charge(e, src, w) + Charge(e, dst, w),
                  a.smc || Hit(e, RamHost(dst, Len(n, w)).value, w))
  {
    assert !OpenBus(src);
    ReadAligned(e, a.bus, src, w);
    WriteRam(e, a.(cycles := a.cycles + Charge(e, src, w)), Load(a.bus, src, w), dst, w, n);
    hide RamHost, SrcHost, Charge, Hit, Valid, Read;
  }
  lemma ReadAligned(e: Env, b: Bus, src: Word, w: Width)
    requires Valid(b) && Aligned(src, w)
    ensures Read(e, b, src, w) == Load(b, src, w)
  {}

  /** What the bulk copy writes, charges and alerts is what the element loop does. */
  lemma BulkCopyIsLoop(e: Env, a: State, src: Word, dst: Word, w: Width, n: nat, open: Word)
    requires Valid(a.bus) && Taken(a.bus, src, dst, w, n, false)
    ensures var len := Len(n, w);
      var s, d := SrcHost(a.bus.pages, src, len).value, RamHost(dst, len).value;
      s + len <= |a.bus.mem| && d + len <= |a.bus.mem|
      && CopyLoop(e, a, src, dst, w, n, open)
         == State(a.bus.(mem := PutEl(a.bus.mem, s, d, len)),
                  a.cycles + Swi.Times(n, Charge(e, src, w)) + Swi.Times(n, Charge(e, dst, w)), a.smc || Hit(e, d, len))
  {
    CopyIs(e, a, src, dst, w, n, open);
    ForwardIsCopy(a.bus, src, dst, w, n);
    MoveIsForward(a.bus.mem, SrcHost(a.bus.pages, src, Len(n, w)).value, RamHost(dst, Len(n, w)).value, w, n);
    Both(n, Charge(e, src, w), Charge(e, dst, w));
    hide Valid, RamHost, SrcHost, Charge, Hit, PutEl, Aligned, CopyForward, CopyLoop, CopyEls, Swi.Times;
  }
  lemma Both(n: nat, x: nat, y: nat) ensures Swi.Times(n, x + y) == Swi.Times(n, x) + Swi.Times(n, y) {}

  // ---- the helpers as the runtime has them -------------------------------------------

  class Hle {
    var bus: Bus
    var cycles: nat
    var smc: bool

    function View(): State reads this { State(bus, cycles, smc) }

    /** execute_load_u16, execute_load_u32. */
    method LoadEl(e: Env, source: Word, w: Width, open: Word) returns (v: seq<Byte>)
      requires Valid(bus)
      modifies this`cycles
      ensures v == Fetched(e, bus, source, w, open) && cycles == old(cycles) + FetchCost(e, source, w)
    {
      if OpenBus(source) { return Le(open)[..w]; }
      cycles := cycles + Charge(e, source, w);
      v := Read(e, bus, source, w);
    }
    /** execute_store_u16, execute_store_u32. */
    method StoreEl(e: Env, dest: Word, v: seq<Byte>, w: Width)
      requires Valid(bus) && |v| == w
      modifies this
      ensures Valid(bus) && View() == Write(e, old(View()), dest, v, w)
    {
      var at := Floor(dest, w);
      cycles := cycles + Charge(e, at, w);
      bus := Store(bus, at, v);
      var h := RamHost(at, w);
      if h.Some? {
        RamSub(at, w, 0, w);
        var i: nat := 0;
        while i < w
          invariant i <= w && smc == (old(smc) || Hit(e, h.value, i)) && bus == Store(old(bus), at, v)
          invariant cycles == old(cycles) + Charge(e, at, w)
        {
          smc := smc || (h.value + i < TAGGED && e.tags(h.value + i) != 0);
          i := i + 1;
        }
      }
    }

    /** cgba_bulk_tags_smc: bytes up to a word boundary, words, and the rest. */
    method TagsHit(e: Env, h: nat, len: nat) returns (hit: bool)
      requires h + len <= TAGGED || h >= TAGGED
      ensures hit == Hit(e, h, len)
    {
      if h >= TAGGED { return false; }
      var i: nat := 0;
      while i < len && (h + i) % 4 != 0
        invariant i <= len && !Hit(e, h, i)
      {
        if e.tags(h + i) != 0 { return true; }
        i := i + 1;
      }
      while i + 4 <= len
        invariant i <= len && !Hit(e, h, i)
      {
        if exists k :: h + i <= k < h + i + 4 && e.tags(k) != 0 { return true; }
        i := i + 4;
      }
      while i < len
        invariant i <= len && !Hit(e, h, i)
      {
        if e.tags(h + i) != 0 { return true; }
        i := i + 1;
      }
      return false;
    }

    /** The fill loop on host memory. */
    method HostFill(d: nat, v: seq<Byte>, w: Width, n: nat)
      requires Valid(bus) && |v| == w && |Repeated(v, n)| == Len(n, w) && d + Len(n, w) <= |bus.mem|
      modifies this`bus
      ensures Valid(bus) && bus == old(bus).(mem := Put(old(bus.mem), d, Repeated(v, n)))
    {
      hide Put;
      var i: nat := 0;
      while i < n
        invariant i <= n && bus == old(bus).(mem := bus.mem) && |bus.mem| == |old(bus.mem)|
        invariant |Repeated(v, n - i)| == Len(n - i, w)
        invariant Put(bus.mem, d + Len(i, w), Repeated(v, n - i)) == Put(old(bus.mem), d, Repeated(v, n))
      {
        RepeatedLen(v, w, n - i - 1);
        PutPair(bus.mem, d + Len(i, w), v, Repeated(v, n - i - 1));
        bus := bus.(mem := Put(bus.mem, d + Len(i, w), v));
        i := i + 1;
      }
      PutNone(bus.mem, d + Len(n, w));
    }

    /** cgba_bulk_cpuset: all of the element loop, or nothing. */
    method BulkSet(e: Env, source: Word, dest: Word, w: Width, n: nat, fill: bool, open: Word) returns (ok: bool)
      requires Valid(bus)
      modifies this
      ensures Valid(bus) && ok == Taken(old(bus), source, dest, w, n, fill)
      ensures View() == if ok then Elements(e, old(View()), source, dest, w, n, fill, open) else old(View())
    {
      hide Valid, RamHost, SrcHost, Charge, Hit, PutEl, Put, Aligned, CopyLoop, FillLoop, Fetched, Swi.Times, Le,
           Repeated;
      var len := Len(n, w);
      if n == 0 || len > 0x20_0000 { return false; }
      if !Aligned(dest, w) || (!fill && !Aligned(source, w)) { return false; }
      var dh := RamHost(dest, len);
      if dh.None? { return false; }
      var d := dh.value;
      RamFits(bus, dest, len);
      RamTags(dest, len);
      if fill {
        var v := LoadEl(e, source, w, open);
        FillIs(e, old(View()).(cycles := cycles), v, dest, w, n);
        HostFill(d, v, w, n);
      } else {
        var sh := SrcHost(bus.pages, source, len);
        if sh.None? || Near(sh.value, d, len) { return false; }
        BulkCopyIsLoop(e, View(), source, dest, w, n, open);
        bus := bus.(mem := PutEl(bus.mem, sh.value, d, len));
        cycles := cycles + Swi.Times(n, Charge(e, source, w));
      }
      cycles := cycles + Swi.Times(n, Charge(e, dest, w));
      var hit := TagsHit(e, d, len);
      smc := smc || hit;
      return true;
    }

    method Each(e: Env, source: Word, dest: Word, w: Width, n: nat, open: Word)
      requires Valid(bus)
      modifies this
      ensures Valid(bus) && View() == CopyLoop(e, old(View()), source, dest, w, n, open)
    {
      hide Valid, Write, Charge, Fetched, FetchCost, Lo;
      var src: Word, dst: Word, k: nat := source, dest, n;
      while k > 0
        invariant Valid(bus)
        invariant CopyLoop(e, View(), src, dst, w, k, open) == CopyLoop(e, old(View()), source, dest, w, n, open)
      {
        var v := LoadEl(e, src, w, open);
        StoreEl(e, dst, v, w);
        src, dst, k := Lo(src + w), Lo(dst + w), k - 1;
      }
    }
    method EachFill(e: Env, v: seq<Byte>, dest: Word, w: Width, n: nat)
      requires Valid(bus) && |v| == w
      modifies this
      ensures Valid(bus) && View() == FillLoop(e, old(View()), v, dest, w, n)
    {
      hide Valid, Write, Lo;
      var dst: Word, k: nat := dest, n;
      while k > 0
        invariant Valid(bus) && FillLoop(e, View(), v, dst, w, k) == FillLoop(e, old(View()), v, dest, w, n)
      {
        StoreEl(e, dst, v, w);
        dst, k := Lo(dst + w), k - 1;
      }
    }
    method Set(e: Env, source: Word, dest: Word, w: Width, n: nat, fill: bool, open: Word)
      requires Valid(bus)
      modifies this
      ensures Valid(bus) && View() == Elements(e, old(View()), source, dest, w, n, fill, open)
    {
      hide Valid, CopyLoop, FillLoop, Fetched, FetchCost, Taken;
      var ok := BulkSet(e, source, dest, w, n, fill, open);
      if ok { return; }
      if fill {
        var v := LoadEl(e, source, w, open);
        EachFill(e, v, dest, w, n);
      } else { Each(e, source, dest, w, n, open); }
    }

    /** cgba_swi_cpuset: with its bulk form, still the element loops. */
    method CallCpuSet(e: Env, source: Word, dest: Word, cnt: Word)
      requires Valid(bus)
      modifies this
      ensures Valid(bus) && View() == CpuSet(e, old(View()), source, dest, cnt)
    {
      hide Valid, Elements, Turned;
      if Turned(source, cnt) { return; }
      if Flag(cnt, 26) { Set(e, Swi.Down4(source), Swi.Down4(dest), 4, CountOf(cnt), Flag(cnt, 24), 0x1CAD_1CAD); }
      else { Set(e, source, dest, 2, CountOf(cnt), Flag(cnt, 24), 0x1CAD); }
    }

    /** cgba_swi_cpufastset: with its bulk form, still the loops of eight. */
    method CallCpuFastSet(e: Env, source: Word, dest: Word, cnt: Word)
      requires Valid(bus)
      modifies this
      ensures Valid(bus) && View() == CpuFastSet(e, old(View()), source, dest, cnt)
    {
      hide Valid, Turned, CopyLoop, FillLoop, Fetched, FetchCost, CopyEights, FillEights, Taken, Eights, CountOf, Flag;
      if Turned(source, cnt) { return; }
      var src, dst, n := Swi.Down4(source), Swi.Down4(dest), CountOf(cnt);
      var ok := BulkSet(e, src, dst, 4, Eights(n), Flag(cnt, 24), 0xBAFF_FFFB);
      CopyRounded(e, old(View()), src, dst, n, 0xBAFF_FFFB);
      FillRounded(e, old(View()).(cycles := old(cycles) + FetchCost(e, src, 4)),
          Fetched(e, old(bus), src, 4, 0xBAFF_FFFB), dst, n);
      if ok { return; }
      if Flag(cnt, 24) {
        var v := LoadEl(e, src, 4, 0xBAFF_FFFB);
        FillByEight(e, v, dst, n);
      } else { CopyByEight(e, src, dst, n, 0xBAFF_FFFB); }
    }
    method CopyByEight(e: Env, source: Word, dest: Word, n: nat, open: Word)
      requires Valid(bus)
      modifies this
      ensures Valid(bus) && View() == CopyEights(e, old(View()), source, dest, n, open)
    {
      hide Valid, CopyLoop, Lo;
      var src: Word, dst: Word, count: int := source, dest, n;
      while count > 0
        invariant Valid(bus)
        invariant CopyEights(e, View(), src, dst, count, open) == CopyEights(e, old(View()), source, dest, n, open)
      {
        Each(e, src, dst, 4, 8, open);
        src, dst, count := Lo(src + 32), Lo(dst + 32), count - 8;
      }
    }
    method FillByEight(e: Env, v: seq<Byte>, dest: Word, n: nat)
      requires Valid(bus) && |v| == 4
      modifies this
      ensures Valid(bus) && View() == FillEights(e, old(View()), v, dest, n)
    {
      hide Valid, FillLoop, Lo;
      var dst: Word, count: int := dest, n;
      while count > 0
        invariant Valid(bus) && FillEights(e, View(), v, dst, count) == FillEights(e, old(View()), v, dest, n)
      {
        EachFill(e, v, dst, 4, 8);
        dst, count := Lo(dst + 32), count - 8;
      }
    }
  }
  lemma RamTags(addr: nat, len: nat)
    requires RamHost(addr, len).Some?
    ensures RamHost(addr, len).value + len <= TAGGED || RamHost(addr, len).value >= TAGGED
  {}
  lemma PutNone(mem: seq<Byte>, h: nat) requires h <= |mem| ensures Put(mem, h, []) == mem {}
}
