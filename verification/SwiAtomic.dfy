/** The predictor, the atomic form, and the equality of every slicing with them. */
module SwiAtomic {
  import opened Words
  import opened Sh4
  import opened GuestBus
  import opened Chunks
  import opened Swi

  datatype Pred = Pred(r0: Word, r1: Word, cycles: nat, fromLast: bool)

  /** Region bits 25..27 all clear: the BIOS refuses such a source or end address. */
  predicate Refused(x: Word) { (x / 0x200_0000) % 8 == 0 }
  function End(source: Word, count: nat): Word { Lo(source + (4 * count) % 0x20_0000) }
  function EndOf(a: Cpu): Word { End(a.r0, Count(a)) }
  predicate EarlyOut(a: Cpu) { Refused(a.r0) || Refused(EndOf(a)) }
  predicate Thumb(a: Cpu) { (a.spsr / 32) % 2 == 1 }

  /** One region, below open-bus addresses, in 32-bit arithmetic. */
  predicate OneRegion(addr: Word, len: nat)
    requires len > 0
  { Lo(addr + len - 1) / 0x100_0000 == addr / 0x100_0000 && Lo(addr + len) <= 0x0F00_0000 }

  /** cgba_swi_copy_overlap_ok, in 32-bit arithmetic. */
  predicate OverlapOk(src: Word, dst: Word, len: nat, forward: bool) {
    (SubW(dst, src) >= len && SubW(src, dst) >= len) || (forward && dst > src)
  }

  function EmptyCost(c: Waits, kind: Kind, src: Word): nat {
    match kind
    case HalfCopy => 17 * c.S0() + c.N0()
    case WordCopy => 21 * c.S0() + 2 * c.N0()
    case FastFill => 20 * c.S0() + c.N(Region(src)) + c.N0()
    case FastCopy => 19 * c.S0() + 2 * c.N0()
  }
  /** The loop's share of the prediction, as the predictor adds it up. */
  function LoopCost(c: Waits, kind: Kind, src: Word, dst: Word, n: nat): nat
    requires n > 0
  {
    var s, d := Region(src), Region(dst);
    match kind
    case HalfCopy => 21 * c.S0() + Times(n, 7 * c.S0() + c.H(s) + c.H(d)) + Times(n - 1, c.N0())
    case WordCopy => 22 * c.S0() + c.N0() + Times(n, 7 * c.S0() + c.N(s) + c.N(d)) + Times(n - 1, c.N0()) + c.N0()
    case FastFill => 20 * c.S0() + c.N(s) + Times(n, 28 * c.S0() + 8 * c.N(d) + 7 * c.N0()) + Times(n - 1, c.N0())
    case FastCopy =>
      20 * c.S0() + c.N0() + Times(n, 60 * c.S0() + 8 * (c.N(s) + c.N(d)) + 7 * c.N0()) + Times(n - 1, c.N0()) + c.N0()
  }

  /** cgba_swi_cpuset_predict (its copies) and cgba_swi_cpufastset_predict. */
  function Predict(c: Waits, kind: Kind, m: Machine, forward: bool): Option<Pred> {
    var a := m.cpu;
    var src, dst, n := SrcOf(kind, a), DstOf(kind, a), Rounds(kind, a);
    var len := Bytes(kind, n);
    var base := Dispatch(c, Region(a.spSvc), Region(a.lrSvc)) + c.N(Region(a.spSvc));
    var exit := ExitCost(c, Region(a.spSvc));
    if !Thumb(a) then None
    else if Refused(a.r0) then Some(Pred(a.r0, a.r1, base + 3 * c.S0() + c.N0() + exit, false))
    else if Refused(EndOf(a)) then Some(Pred(a.r0, a.r1, base + 9 * c.S0() + c.N0() + exit, false))
    else if kind.FastFill? && !(OneRegion(src, 4) && SrcHost(m.bus.pages, src, 4).Some?) then None
    else if Count(a) == 0 then Some(Pred(a.r0, a.r1, base + EmptyCost(c, kind, src) + exit, false))
    else
      SomeRounds(kind, a);
      if kind.HalfCopy? && !(Aligned(src, 2) && Aligned(dst, 2)) then None
      else if !kind.FastFill? && !(OneRegion(src, len) && SrcHost(m.bus.pages, src, len).Some?) then None
      else if !OneRegion(dst, len) then None
      else if !kind.FastFill? && !OverlapOk(src, dst, len, forward) then None
      else Some(Pred(if kind.FastCopy? then Lo(src + len) else a.r0,
          if kind.FastFill? then Lo(dst + len) else SubW(dst, src),
                     base + LoopCost(c, kind, src, dst, n) + exit, kind.WordCopy?))
  }

  /** The memory half of cgba_swi_apply_faithful for a copy of n elements. */
  function CopyWhole(b: Bus, src: nat, dst: nat, w: Width, n: nat, forward: bool): Option<Bus>
    requires Valid(b) && n > 0
  {
    var len := Len(n, w);
    if RamHost(dst, len).None? || SrcHost(b.pages, src, len).None? then None
    else
      SrcSub(b, src, len, 0, len); RamSub(dst, len, 0, len);
      var s, d := SrcHost(b.pages, src, len).value, RamHost(dst, len).value;
      var overlap := s < d + len && d < s + len;
      if overlap && !(forward && s < d) then None
      else Some(b.(mem := if overlap then CopyForward(b.mem, s, d, w, n) else PutEl(b.mem, s, d, len)))
  }
  function FillWhole(b: Bus, src: nat, dst: nat, n: nat): Option<Bus>
    requires Valid(b) && n > 0
  {
    if RamHost(dst, 4 * n).None? || SrcHost(b.pages, src, 4).None? then None
    else
      RamSub(dst, 4 * n, 0, 4 * n);
      Some(b.(mem := FillHost(b.mem, RamHost(dst, 4 * n).value, Load(b, src, 4), n)))
  }
  /** The word at the end of the destination. */
  function TailWord(b: Bus, dst: nat, len: nat): Word
    requires len >= 4
  {
    if RamHost(dst, len).Some? && RamHost(dst, len).value + len <= |b.mem| then
      FromLe(b.mem[RamHost(dst, len).value + len - 4..RamHost(dst, len).value + len])
    else 0
  }

  /** cgba_swi_apply_faithful and the common return; None hands over to the interpreter. */
  function Apply(kind: Kind, m: Machine, p: Pred, forward: bool): Option<Machine>
    requires Valid(m.bus)
  {
    var a, n := m.cpu, Rounds(kind, m.cpu);
    var src, dst := SrcOf(kind, a), DstOf(kind, a);
    var back := a.(r0 := p.r0, r1 := p.r1, pc := a.lrSvc, cpsr := a.spsr);
    if n == 0 then Some(Machine(back, m.bus))
    else
      var bus := if kind.FastFill? then FillWhole(m.bus, src, dst, Els(kind, n))
                 else CopyWhole(m.bus, src, dst, Wd(kind), Els(kind, n), forward);
      if bus.None? then None
      else if p.fromLast && kind.WordCopy? then Some(Machine(back.(r0 := TailWord(bus.value, dst, 4 * n)), bus.value))
      else Some(Machine(back, bus.value))
  }

  // ---- what an accepted call satisfies ------------------------------------------------

  lemma CountBound(kind: Kind, a: Cpu)
    ensures Bytes(kind, Rounds(kind, a)) <= 0x80_0000
  {}
  lemma OneRegionIs(addr: Word, len: nat)
    requires 0 < len <= 0x80_0000 && addr < 0x0F00_0000 && OneRegion(addr, len)
    ensures addr + len <= 0x0F00_0000 && Region(addr) == (addr + len - 1) / 0x100_0000
  { LoIs(addr + len); LoIs(addr + len - 1); hide Lo; }
  lemma Resolved(pages: map<nat, nat>, addr: Word, len: nat)
    requires SrcHost(pages, addr, len).Some?
    ensures addr < 0x0F00_0000
  {}
  lemma DownAligned(kind: Kind, x: Word)
    ensures Aligned(Down4(x), 4)
  {}

  /** The caller's side conditions: room on both stacks, apart from each other, from the
      operands and from one another; no open-bus destination; and, unless overlapping copies
      are replayed forward, no destination byte read back later through a mirror. */
  ghost predicate Apartness(kind: Kind, a: Cpu, base: Bus, forward: bool) {
    Valid(base) && Framed(a)
    && Undisturbed(kind, a, base, SvcFrame(a)) && Undisturbed(kind, a, base, UsrFrame(a))
    && (!kind.FastFill? && !forward ==> Unfed(base.pages, SrcOf(kind, a), DstOf(kind, a), Bytes(kind, Rounds(kind, a))))
  }

  lemma PredictedSetup(c: Waits, kind: Kind, m: Machine, forward: bool)
    requires Predict(c, kind, m, forward).Some? && Count(m.cpu) > 0 && !EarlyOut(m.cpu)
    requires DstOf(kind, m.cpu) < 0x0F00_0000 && Apartness(kind, m.cpu, m.bus, forward)
    ensures Setup(kind, m.cpu, m.bus, forward)
  {
    hide Framed, Valid, Undisturbed, Unfed, SrcHost, Aligned, Region, Rounds, Bytes, SvcFrame, UsrFrame, OneRegion,
         OverlapOk, Lo, SubW, EndOf, Refused, Count, LoopCost, EmptyCost, Down4, Thumb, Dispatch, ExitCost;
    var a := m.cpu;
    var len := Bytes(kind, Rounds(kind, a));
    SomeRounds(kind, a); CountBound(kind, a);
    OneRegionIs(DstOf(kind, a), len);
    DownAligned(kind, a.r0); DownAligned(kind, a.r1);
    if !kind.FastFill? { Resolved(m.bus.pages, SrcOf(kind, a), len); OneRegionIs(SrcOf(kind, a), len); }
  }

  lemma TimesSum(n: nat, x: nat, y: nat)
    requires n > 0
    ensures Times(n, x + y) == Times(n, x) + Times(n - 1, y) + y
  {}
  lemma LoopCostIs(c: Waits, kind: Kind, src: Word, dst: Word, n: nat)
    requires n > 0
    ensures LoopCost(c, kind, src, dst, n) + Refund(c, kind)
      == Prologue(c, kind, src) + Times(n, RoundCost(c, kind, src, dst))
  {
    hide Times, Region;
    var s, d := Region(src), Region(dst);
    match kind
    case HalfCopy => TimesSum(n, 7 * c.S0() + c.H(s) + c.H(d), c.N0());
    case WordCopy => TimesSum(n, 7 * c.S0() + c.N(s) + c.N(d), c.N0());
    case FastFill => TimesSum(n, 28 * c.S0() + 8 * c.N(d) + 7 * c.N0(), c.N0());
    case FastCopy => TimesSum(n, 60 * c.S0() + 8 * (c.N(s) + c.N(d)) + 7 * c.N0(), c.N0());
  }
  lemma PredIs(c: Waits, kind: Kind, m: Machine, forward: bool)
    requires Predict(c, kind, m, forward).Some? && Count(m.cpu) > 0 && !EarlyOut(m.cpu)
    ensures var a, p := m.cpu, Predict(c, kind, m, forward).value; var n := Rounds(kind, a);
      var src, dst := SrcOf(kind, a), DstOf(kind, a);
      n > 0 && p.r0 == (if kind.FastCopy? then Lo(src + Bytes(kind, n)) else a.r0)
      && p.r1 == (if kind.FastFill? then Lo(dst + Bytes(kind, n)) else SubW(dst, src)) && p.fromLast == kind.WordCopy?
      && p.cycles
        == Dispatch(c, Region(a.spSvc), Region(a.lrSvc)) + c.N(Region(a.spSvc)) + LoopCost(c, kind, src, dst, n)
                     + ExitCost(c, Region(a.spSvc))
  {
    SomeRounds(kind, m.cpu);
    hide OneRegion, OverlapOk, SrcHost, Aligned, Lo, SubW, Refused, EndOf, Count, Rounds, Region, SrcOf, DstOf, Thumb,
         Bytes, LoopCost, ExitCost, Dispatch;
  }

  /** Entry, rounds and exit debits add up to the prediction, the exit priced by the
      caller's stack region instead of the supervisor's. */
  lemma PredictedCycles(c: Waits, kind: Kind, m: Machine, forward: bool)
    requires Predict(c, kind, m, forward).Some? && Count(m.cpu) > 0 && !EarlyOut(m.cpu) && m.cpu.spUsr >= 16
    ensures var a := m.cpu;
      EntryCost(c, kind, a) + Owed(c, kind, a, 0) + c.S(Region(a.spSvc))
      == Predict(c, kind, m, forward).value.cycles + c.S(Region(a.spUsr - 16))
  {
    hide Predict, LoopCost, Prologue, Refund, RoundCost, Times, Dispatch, Region, Rounds, EarlyOut, Count;
    PredIs(c, kind, m, forward);
    LoopCostIs(c, kind, SrcOf(kind, m.cpu), DstOf(kind, m.cpu), Rounds(kind, m.cpu));
  }

  // ---- the atomic form is the BIOS loop -------------------------------------------------

  lemma CopyWholeIs(b: Bus, src: nat, dst: nat, w: Width, n: nat, forward: bool)
    requires Valid(b) && n > 0 && CopyWhole(b, src, dst, w, n, forward).Some?
    ensures CopyWhole(b, src, dst, w, n, forward) == Some(CopyEls(b, src, dst, w, n)) && RamHost(dst, Len(n, w)).Some?
  {
    hide Valid, RamHost, SrcHost, CopyEls, CopyForward, PutEl, Len;
    var len := Len(n, w);
    ForwardIsCopy(b, src, dst, w, n);
    var s, d := SrcHost(b.pages, src, len).value, RamHost(dst, len).value;
    if !(s < d < s + len) { MoveIsForward(b.mem, s, d, w, n); }
  }
  lemma FillWholeIs(b: Bus, src: nat, dst: nat, n: nat)
    requires Valid(b) && n > 0 && FillWhole(b, src, dst, n).Some?
    ensures FillWhole(b, src, dst, n) == Some(FillEls(b, dst, Le(FromLe(Load(b, src, 4))), n))
  {
    hide Valid, RamHost, SrcHost, FillEls, FillHost, Load, Le, FromLe;
    FillHostIs(b, dst, Load(b, src, 4), n);
    LeBack(Load(b, src, 4));
  }
  lemma LeBack(bs: seq<Byte>)
    requires |bs| == 4
    ensures Le(FromLe(bs)) == bs
  {
    var x: int, y: int, z: int, u: int := bs[0], bs[1], bs[2], bs[3];
    LeParts(x, y, z, u);
  }

  lemma OneEl(b: Bus, src: nat, dst: nat, w: Width)
    requires Valid(b)
    ensures CopyEls(b, src, dst, w, 1) == CopyEl(b, src, dst, w)
  { hide CopyEl, Valid; assert CopyEls(CopyEl(b, src, dst, w), src + w, dst + w, w, 0) == CopyEl(b, src, dst, w); }
  lemma StoredAt(b: Bus, addr: nat, bs: seq<Byte>)
    requires Valid(b) && bs != [] && RamHost(addr, |bs|).Some?
    ensures var h := RamHost(addr, |bs|).value; h + |bs| <= |b.mem| && Store(b, addr, bs).mem[h..h + |bs|] == bs
  { RamSub(addr, |bs|, 0, |bs|); hide RamHost; }
  lemma EvenOffset(x: nat, w: Width, n: nat)
    requires Aligned(x, w)
    ensures Aligned(x + Len(n, w), w)
  { if w == 2 { ModUnique(x + 2 * n, 2, x / 2 + n, 0); } else { ModUnique(x + 4 * n, 4, x / 4 + n, 0); } }

  lemma LenStep(n: nat, w: Width) requires n > 0 ensures Len(n, w) == Len(n - 1, w) + w {}
  /** The last destination element is the source element loaded last. */
  lemma LastCopied(b: Bus, src: nat, dst: nat, w: Width, n: nat)
    requires Valid(b) && n > 0 && RamHost(dst, Len(n, w)).Some? && Aligned(src, w) && Aligned(dst, w)
    ensures var r, d := CopyEls(b, src, dst, w, n), RamHost(dst, Len(n, w)).value;
      d + Len(n - 1, w) + w <= |r.mem|
      && Load(r, src + Len(n - 1, w), w) == r.mem[d + Len(n - 1, w)..d + Len(n - 1, w) + w]
  {
    hide Valid, Load, Store, SrcHost, RamHost, Aligned, CopyEls, CopyEl, Len;
    var off := Len(n - 1, w);
    var mid := CopyEls(b, src, dst, w, n - 1);
    LastStep(b, src, dst, w, n);
    EvenOffset(src, w, n - 1); EvenOffset(dst, w, n - 1);
    LastHost(dst, w, n);
    CopiedEl(mid, src + off, dst + off, w);
  }
  lemma LastStep(b: Bus, src: nat, dst: nat, w: Width, n: nat)
    requires Valid(b) && n > 0
    ensures var off := Len(n - 1, w);
      CopyEls(b, src, dst, w, n) == CopyEl(CopyEls(b, src, dst, w, n - 1), src + off, dst + off, w)
  {
    hide Valid, CopyEls, CopyEl, Len;
    CopySplit(b, src, dst, w, n - 1, 1);
    OneEl(CopyEls(b, src, dst, w, n - 1), src + Len(n - 1, w), dst + Len(n - 1, w), w);
  }
  lemma LastHost(dst: nat, w: Width, n: nat)
    requires n > 0 && RamHost(dst, Len(n, w)).Some?
    ensures RamHost(dst + Len(n - 1, w), w) == Some(RamHost(dst, Len(n, w)).value + Len(n - 1, w))
  { hide RamHost, Len; LenStep(n, w); RamSub(dst, Len(n, w), Len(n - 1, w), w); }
  lemma CopiedEl(b: Bus, src: nat, dst: nat, w: Width)
    requires Valid(b) && RamHost(dst, w).Some? && Aligned(src, w) && Aligned(dst, w)
    ensures var r, d := CopyEl(b, src, dst, w), RamHost(dst, w).value;
      d + w <= |r.mem| && Load(r, src, w) == r.mem[d..d + w]
  {
    hide Valid, Load, Store, SrcHost, RamHost, Aligned;
    SelfLoad(b, src, dst, w);
    StoredAt(b, dst, Load(b, src, w));
  }

  /** What the caller gets from n rounds: r0 and r1 as the BIOS loop leaves them. */
  function Returned(kind: Kind, a: Cpu, bus: Bus): Cpu
    requires Valid(bus)
  {
    var n := Rounds(kind, a);
    var src, dst := SrcOf(kind, a), DstOf(kind, a);
    a.(r0 := if kind.FastCopy? then Lo(src + Bytes(kind, n)) else if kind.WordCopy? && n > 0 then FromLe(LastEl(kind, a,
        bus, n)) else a.r0,
       r1 := if kind.FastFill? then Lo(dst + Bytes(kind, n)) else SubW(dst, src),
       pc := a.lrSvc, cpsr := a.spsr)
  }

  /** Whenever the atomic form accepts, it leaves what the element-by-element loop leaves. */
  lemma ApplyIsLoop(c: Waits, kind: Kind, m: Machine, forward: bool)
    requires Predict(c, kind, m, forward).Some? && Count(m.cpu) > 0 && !EarlyOut(m.cpu) && Valid(m.bus)
    requires Apply(kind, m, Predict(c, kind, m, forward).value, forward).Some?
    ensures var a := m.cpu; var bus := AfterRounds(kind, a, m.bus, FillWord(a, m.bus), Rounds(kind, a));
      Apply(kind, m, Predict(c, kind, m, forward).value, forward) == Some(Machine(Returned(kind, a, bus), bus))
  {
    hide Predict, FromLe, Lo, SubW, SrcOf, DstOf, Rounds, EarlyOut, Count, Valid, FillWhole, CopyWhole, FillEls,
         CopyEls, Load, RamHost, Le, TailWord;
    PredIs(c, kind, m, forward);
    var a, b := m.cpu, m.bus;
    var src, dst, n := SrcOf(kind, a), DstOf(kind, a), Rounds(kind, a);
    SourceIs(kind, a);
    if kind.FastFill? { FillWholeIs(b, src, dst, Els(kind, n)); }
    else { CopyWholeIs(b, src, dst, Wd(kind), Els(kind, n), forward); }
    if kind.WordCopy? { TailIsLast(kind, a, b, n); }
  }
  lemma SourceIs(kind: Kind, a: Cpu)
    ensures kind.FastFill? ==> SrcOf(kind, a) == Down4(a.r0)
    ensures !kind.HalfCopy? ==> Aligned(SrcOf(kind, a), 4) && Aligned(DstOf(kind, a), 4)
  { DownAligned(kind, a.r0); DownAligned(kind, a.r1); hide Down4, Aligned; }
  lemma TailIsLast(kind: Kind, a: Cpu, b: Bus, n: nat)
    requires Valid(b) && kind.WordCopy? && n > 0 && RamHost(DstOf(kind, a), 4 * n).Some?
    ensures var bus := CopyEls(b, SrcOf(kind, a), DstOf(kind, a), 4, n);
      TailWord(bus, DstOf(kind, a), 4 * n) == FromLe(LastEl(kind, a, bus, n))
  {
    hide Valid, Load, RamHost, FromLe, CopyEls, SrcOf, DstOf, Aligned;
    SourceIs(kind, a);
    LastCopied(b, SrcOf(kind, a), DstOf(kind, a), 4, n);
  }

  // ---- main result --------------------------------------------------------------------------

  lemma FinishedPatch(kind: Kind, a: Cpu, base: Bus, e: Event)
    requires Framed(a) && Valid(base) && Count(a) > 0 && Quiet(kind, a, base, e)
    ensures Finished(kind, a, PatchBus(base, e.writes)) == PatchM(Finished(kind, a, base), e.writes)
  {
    hide PatchBus, FromLe, Framed, Valid, AfterRounds, LastEl, Stacked, SvcFrame, UsrFrame, FillWord, Undisturbed, Lo,
         SubW, Rounds, Bytes, Count;
    SomeRounds(kind, a);
    var v, n := FillWord(a, base), Rounds(kind, a);
    var bus := AfterRounds(kind, a, base, v, n);
    if kind.FastFill? { CleanWord(kind, a, base, e.writes); }
    else {
      AnyWord(kind, a, PatchBus(base, e.writes), v, FillWord(a, PatchBus(base, e.writes)), n);
      LastPatch(kind, a, base, e.writes, bus, n);
    }
    RoundsPatch(kind, a, base, e.writes, v, n);
    StackedPatch(a, bus, e.writes);
  }
  lemma {:induction false} FinishedAfter(kind: Kind, a: Cpu, base: Bus, env: seq<Event>)
    requires Framed(a) && Valid(base) && Count(a) > 0 && AllQuiet(kind, a, base, env)
    ensures var f := Finished(kind, a, base);
      Valid(f.bus) && Finished(kind, a, PatchAll(base, env)) == f.(bus := PatchAll(f.bus, env))
    decreases |env|
  {
    hide PatchBus, Framed, Valid, Finished, Count, Undisturbed;
    FinishedValid(kind, a, base);
    if env != [] {
      QuietTail(kind, a, base, env, 0); QuietTail(kind, a, base, env, 1);
      FinishedPatch(kind, a, base, env[0]);
      QuietSame(kind, a, base, PatchBus(base, env[0].writes), env[1..]);
      FinishedAfter(kind, a, PatchBus(base, env[0].writes), env[1..]);
    }
  }
  lemma FinishedValid(kind: Kind, a: Cpu, base: Bus)
    requires Framed(a) && Valid(base) && Count(a) > 0
    ensures Valid(Finished(kind, a, base).bus)
  { hide Framed, Valid, AfterRounds, Stacked; }
  lemma QuietSame(kind: Kind, a: Cpu, base: Bus, base': Bus, env: seq<Event>)
    requires Framed(a) && AllQuiet(kind, a, base, env) && base'.pages == base.pages
    ensures AllQuiet(kind, a, base', env)
  {
    hide Framed, SrcOf, DstOf, Rounds, Bytes, Clear;
    forall i | 0 <= i < |env| ensures Quiet(kind, a, base', env[i]) { assert Quiet(kind, a, base, env[i]); }
  }

  /** Registers and memory of the element-by-element loop run at once. */
  function Reference(kind: Kind, m: Machine): Machine
    requires Valid(m.bus)
  {
    var bus := AfterRounds(kind, m.cpu, m.bus, FillWord(m.cpu, m.bus), Rounds(kind, m.cpu));
    Machine(Returned(kind, m.cpu, bus), bus)
  }
  lemma FinishedIsReference(kind: Kind, m: Machine)
    requires Framed(m.cpu) && Valid(m.bus) && Count(m.cpu) > 0
    ensures var r := Reference(kind, m);
      Valid(r.bus) && Finished(kind, m.cpu, m.bus) == Machine(r.cpu.(pc := m.cpu.lrSvc - m.cpu.lrSvc % 2),
          Stacked(m.cpu, r.bus))
  {
    hide Framed, Valid, AfterRounds, Stacked, FillWord, LastEl, Rounds, Bytes, Lo, SubW, FromLe; SomeRounds(kind,
         m.cpu);
  }

  lemma Materialized(kind: Kind, m: Machine)
    requires Framed(m.cpu) && Valid(m.bus)
    ensures Sane(Materialize(kind, m))
  { hide Valid, Push4, RamHost, Load, FromLe, Lo, SubW, SystemCpsr; }
  /** The whole life of an oversized call: materialize, then engine calls until it is over. */
  function Resumable(c: Waits, kind: Kind, m: Machine, budget: int, env: seq<Event>, forward: bool): (o: Out)
    requires Framed(m.cpu) && Valid(m.bus) && c.S0() > 0
    ensures o.used <= |env|
  { Materialized(kind, m); Whole(c, kind, Materialize(kind, m), budget, env, EntryCost(c, kind, m.cpu), forward) }

  ghost predicate Accepted(c: Waits, kind: Kind, m: Machine, forward: bool) {
    Predict(c, kind, m, forward).Some? && Count(m.cpu) > 0 && c.S0() > 0
    && DstOf(kind, m.cpu) < 0x0F00_0000 && Apartness(kind, m.cpu, m.bus, forward)
  }
  /** Registers of the uncut loop; its memory, plus dead stack words and the environment's own
      writes; and exactly the predicted cycles, up to the two stack regions' cost of one word. */
  ghost predicate AsUncut(c: Waits, m: Machine, cycles: int, r: Machine, budget: int, env: seq<Event>, o: Out)
    requires Framed(m.cpu) && Valid(r.bus) && o.used <= |env|
  {
    var a := m.cpu;
    o.m.cpu == r.cpu.(pc := a.lrSvc - a.lrSvc % 2)
    && o.m.bus == PatchAll(Stacked(a, r.bus), env[..o.used])
    && budget + o.granted - o.remaining + c.S(Region(a.spSvc)) == cycles + c.S(Region(a.spUsr - 16))
  }

  /** Slicing is unobservable: for every budget, wait-state table and behaviour of the environment,
      a call the predictor accepts and the BIOS does not refuse is never declined half-way, ends as
      the uncut loop ends, and does end once it got a positive budget per round. */
  lemma Sliced(c: Waits, kind: Kind, m: Machine, budget: int, env: seq<Event>, forward: bool)
    requires Accepted(c, kind, m, forward) && !EarlyOut(m.cpu) && AllQuiet(kind, m.cpu, m.bus, env)
    ensures Valid(Reference(kind, m).bus) && Resumable(c, kind, m, budget, env, forward).stop != Declined
    ensures var o := Resumable(c, kind, m, budget, env, forward);
      o.stop == Done ==> AsUncut(c, m, Predict(c, kind, m, forward).value.cycles, Reference(kind, m), budget, env, o)
    ensures Positive(env) && |env| >= Rounds(kind, m.cpu) ==> Resumable(c, kind, m, budget, env, forward).stop == Done
  {
    hide Framed, Valid, Finished, Rounds, Count, Predict, EarlyOut, Whole, At, Owed, EntryCost, Reference, Stacked,
         Materialize, Undisturbed, Region, Setup, DstOf, AllQuiet, Unfed, Refused;
    var a := m.cpu;
    PredictedSetup(c, kind, m, forward);
    SomeRounds(kind, a);
    SlicedTo(c, kind, m, budget, env, forward);
    FramedRoom(a);
    PredictedCycles(c, kind, m, forward);
  }
  lemma FramedRoom(a: Cpu) requires Framed(a) ensures a.spUsr >= 16 {}
  lemma SlicedTo(c: Waits, kind: Kind, m: Machine, budget: int, env: seq<Event>, forward: bool)
    requires Setup(kind, m.cpu, m.bus, forward) && c.S0() > 0 && AllQuiet(kind, m.cpu, m.bus, env)
    ensures Valid(Reference(kind, m).bus) && m.cpu.spUsr >= 16
    ensures var o := Resumable(c, kind, m, budget, env, forward);
      o.stop != Declined && (o.stop == Done ==>
        AsUncut(c, m, EntryCost(c, kind, m.cpu) + Owed(c, kind, m.cpu,
            0) + c.S(Region(m.cpu.spSvc)) - c.S(Region(m.cpu.spUsr - 16)),
                Reference(kind, m), budget, env, o))
    ensures Positive(env) && |env| >= Rounds(kind, m.cpu) ==> Resumable(c, kind, m, budget, env, forward).stop == Done
  {
    hide Framed, Valid, Finished, Rounds, Count, Whole, At, Owed, EntryCost, Reference, Stacked, Materialize,
         Undisturbed, Region, Setup, AllQuiet;
    var a := m.cpu;
    Basics(kind, a, m.bus, forward); FramedRoom(a); SomeRounds(kind, a);
    MaterializeIsAt(kind, m); SaneAt(kind, a, m.bus, 0);
    var n' := WholeFrom(c, kind, a, m.bus, budget, env, EntryCost(c, kind, a), forward, 0);
    FinishedIsReference(kind, m);
    var o := Resumable(c, kind, m, budget, env, forward);
    QuietPrefix(kind, a, m.bus, env, o.used);
    FinishedAfter(kind, a, m.bus, env[..o.used]);
  }
  lemma QuietPrefix(kind: Kind, a: Cpu, base: Bus, env: seq<Event>, u: nat)
    requires Framed(a) && AllQuiet(kind, a, base, env) && u <= |env|
    ensures AllQuiet(kind, a, base, env[..u])
  { hide Quiet; }

  /** The slicing agrees with the atomic form wherever that one accepts. */
  lemma AtomicIsReference(c: Waits, kind: Kind, m: Machine, forward: bool)
    requires Predict(c, kind, m, forward).Some? && Count(m.cpu) > 0 && !EarlyOut(m.cpu) && Valid(m.bus)
    requires Apply(kind, m, Predict(c, kind, m, forward).value, forward).Some?
    ensures Apply(kind, m, Predict(c, kind, m, forward).value, forward) == Some(Reference(kind, m))
  {
    ApplyIsLoop(c, kind, m, forward);
    hide Apply, Predict, AfterRounds, Returned, Valid, Count, EarlyOut, FillWord, Rounds;
  }

  /** The debits meet the prediction exactly when both stacks cost the same per word. */
  lemma ExactWhenStacksAgree(c: Waits, kind: Kind, m: Machine, budget: int, env: seq<Event>, forward: bool)
    requires Accepted(c, kind, m, forward) && !EarlyOut(m.cpu) && AllQuiet(kind, m.cpu, m.bus, env)
    requires Resumable(c, kind, m, budget, env, forward).stop == Done
    ensures m.cpu.spUsr >= 16
    ensures var o := Resumable(c, kind, m, budget, env, forward);
      budget + o.granted - o.remaining == Predict(c, kind, m, forward).value.cycles
      <==> c.S(Region(m.cpu.spSvc)) == c.S(Region(m.cpu.spUsr - 16))
  {
    hide Predict, Resumable, Region, Reference, Stacked, EarlyOut, Unfed, Undisturbed, AllQuiet;
    Sliced(c, kind, m, budget, env, forward);
    FramedRoom(m.cpu);
  }

  // ---- refused calls ----------------------------------------------------------------------

  /** The dispatcher parks a call it has a prediction for when that does not fit the budget. */
  predicate Parks(c: Waits, kind: Kind, m: Machine, budget: nat, forward: bool) {
    var p := Predict(c, kind, m, forward);
    p.Some? && Count(m.cpu) > 0 && 0 < budget < p.value.cycles + 64
  }
  /** r0 and r1 as predicted; a word copy's r0 is the word its loop loads last. */
  predicate AsPredicted(kind: Kind, m: Machine, p: Pred, a: Cpu)
    requires Valid(m.bus)
  { a.r1 == p.r1 && a.r0 == if p.fromLast then Reference(kind, m).cpu.r0 else p.r0 }

  /** No address near a refused call's source is mapped. */
  lemma EarlyUnresolved(kind: Kind, a: Cpu, pages: map<nat, nat>, len: nat)
    requires EarlyOut(a)
    ensures SrcHost(pages, SrcOf(kind, a), len).None?
  {
    var off := (4 * Count(a)) % 0x20_0000;
    SameRegion(a.r0);
    if SrcHost(pages, SrcOf(kind, a), len).Some? {
      MappedRegion(pages, SrcOf(kind, a), len);
      NotRefused(a.r0); NotRefused(a.r0 + off); LoIs(a.r0 + off);
    }
    hide SrcHost, Count, Lo;
  }
  lemma SameRegion(x: Word) ensures Region(Down4(x)) == Region(x) {}
  lemma MappedRegion(pages: map<nat, nat>, addr: Word, len: nat)
    requires SrcHost(pages, addr, len).Some?
    ensures 2 <= Region(addr) <= 13
  {}
  lemma NotRefused(x: Word)
    requires 0x200_0000 <= x < 0x1000_0000
    ensures !Refused(x)
  {}

  /** A refused copy at its loop top: parked until it gets a budget, then declined. */
  lemma {:induction false} LoopStuck(c: Waits, kind: Kind, l: Local, m: Machine, remaining: int, env: seq<Event>,
                                     forward: bool)
    requires Sane(m) && l.cost > 0 && l.left > 0 && !kind.FastFill? && forall n :: SrcHost(m.bus.pages, l.src, n).None?
    ensures var o := Loop(c, kind, l, m, remaining, env, forward);
      o.stop != Done && o.m.cpu == m.cpu && Sane(o.m) && o.m.bus.pages == m.bus.pages
    decreases |env|
  {
    hide SrcHost, Valid, PatchBus, Fit, Epilogue;
    if remaining <= 0 {
      if env != [] && env[0].stay { LoopStuck(c, kind, l, PatchM(m, env[0].writes), env[0].budget, env[1..], forward); }
    } else { NoChunk(kind, l, m, Fit(kind, l, remaining), forward); }
    hide Chunk;
  }
  lemma NoChunk(kind: Kind, l: Local, m: Machine, k: nat, forward: bool)
    requires Valid(m.bus) && k > 0 && !kind.FastFill? && forall n :: SrcHost(m.bus.pages, l.src, n).None?
    ensures Chunk(kind, l, m, k, forward).None?
  { hide SrcHost, Valid; }
  lemma EnterStuck(c: Waits, kind: Kind, m: Machine, remaining: int, env: seq<Event>, handoff: nat, forward: bool,
                   src: Word)
    requires Sane(m) && c.S0() > 0 && !kind.FastFill? && src == (if kind.FastCopy? then m.cpu.r3 else m.cpu.r2)
    requires forall n :: SrcHost(m.bus.pages, src, n).None?
    ensures var o := Enter(c, kind, m, remaining, env, handoff, forward);
      o.stop != Done && o.m.cpu == m.cpu && Sane(o.m) && o.m.bus.pages == m.bus.pages
  {
    hide SrcHost, Valid, Loop, Sane, RoundCost;
    var a := m.cpu;
    var left := match kind
      case HalfCopy => SubW(a.r3, a.r2) / 2
      case WordCopy => Signed(a.r3)
      case _ => Signed(a.r4);
    var dst := if kind.FastCopy? then AddW(a.r3, a.r1) else AddW(a.r1, a.r2);
    RoundCostPositive(c, kind, src, dst);
    if left > 0 {
      LoopStuck(c, kind, Local(src, dst, left, RoundCost(c, kind, src, dst)), m, remaining - handoff, env, forward);
    }
  }
  lemma RoundCostPositive(c: Waits, kind: Kind, src: Word, dst: Word)
    requires c.S0() > 0
    ensures RoundCost(c, kind, src, dst) > 0
  {}
  lemma {:induction false} WholeStuck(c: Waits, kind: Kind, m: Machine, remaining: int, env: seq<Event>, handoff: nat,
                                      forward: bool, src: Word)
    requires Sane(m) && c.S0() > 0 && !kind.FastFill? && src == (if kind.FastCopy? then m.cpu.r3 else m.cpu.r2)
    requires forall n :: SrcHost(m.bus.pages, src, n).None?
    ensures var o := Whole(c, kind, m, remaining, env, handoff, forward); o.stop != Done && o.m.cpu == m.cpu
    decreases |env|
  {
    hide SrcHost, Valid, Enter, PatchBus;
    EnterStuck(c, kind, m, remaining, env, handoff, forward, src);
    var o := Enter(c, kind, m, remaining, env, handoff, forward);
    if o.stop == Parked && o.used < |env| {
      var e := env[o.used];
      WholeStuck(c, kind, PatchM(o.m, e.writes), e.budget, env[o.used + 1..], 0, forward, src);
    }
  }
  /** A refused copy never gets past its loop top, which the interpreted BIOS then runs on from:
      whatever budgets and events come, all its registers still describe the whole copy. */
  lemma RefusedCopy(c: Waits, kind: Kind, m: Machine, budget: int, env: seq<Event>, forward: bool)
    requires EarlyOut(m.cpu) && !kind.FastFill? && Framed(m.cpu) && Valid(m.bus) && c.S0() > 0
    ensures var o := Resumable(c, kind, m, budget, env, forward);
      o.stop != Done && o.m.cpu == Materialize(kind, m).cpu && o.m.cpu.pc == LoopPc(kind)
  {
    hide SrcHost, Valid, Whole, Push4, Framed, Lo, SubW, SystemCpsr, EarlyOut, FromLe, Load, EntryCost, RamHost;
    Materialized(kind, m);
    var m1 := Materialize(kind, m);
    forall n ensures SrcHost(m1.bus.pages, SrcOf(kind, m.cpu), n).None?
    { EarlyUnresolved(kind, m.cpu, m1.bus.pages, n); }
    WholeStuck(c, kind, m1, budget, env, EntryCost(c, kind, m.cpu), forward, SrcOf(kind, m.cpu));
  }

  lemma FillReturns(m: Machine)
    requires Valid(m.bus)
    ensures var a, r := m.cpu, Reference(FastFill, m).cpu;
      r.r0 == a.r0 && r.r1 == Lo(DstOf(FastFill, a) + Bytes(FastFill, Rounds(FastFill, a)))
  { hide Valid, AfterRounds, FillWord, Rounds, Lo; }
  lemma PredRefused(c: Waits, kind: Kind, m: Machine, forward: bool)
    requires Predict(c, kind, m, forward).Some? && EarlyOut(m.cpu)
    ensures var p := Predict(c, kind, m, forward).value; p.r0 == m.cpu.r0 && p.r1 == m.cpu.r1 && !p.fromLast
  {}
  lemma RefusedFill(c: Waits, m: Machine, forward: bool)
    requires Predict(c, FastFill, m, forward).Some? && EarlyOut(m.cpu) && Setup(FastFill, m.cpu, m.bus, forward)
    ensures Valid(m.bus) && Reference(FastFill, m).cpu.r1 != Predict(c, FastFill, m, forward).value.r1
  {
    hide Setup, Framed, Valid, Rounds, Count, Predict, EarlyOut, Reference;
    var a := m.cpu;
    Basics(FastFill, a, m.bus, forward);
    PredRefused(c, FastFill, m, forward); FillReturns(m);
    Inside(FastFill, a, m.bus, forward, Rounds(FastFill, a));
    SomeRounds(FastFill, a);
    BelowDown(a.r1);
  }
  lemma BelowDown(x: Word) ensures Down4(x) <= x < Down4(x) + 4 {}
  lemma ReferencePredicted(c: Waits, kind: Kind, m: Machine, forward: bool)
    requires Predict(c, kind, m, forward).Some? && Count(m.cpu) > 0 && !EarlyOut(m.cpu) && Valid(m.bus)
    ensures AsPredicted(kind, m, Predict(c, kind, m, forward).value, Reference(kind, m).cpu)
  {
    hide Predict, Valid, Count, EarlyOut, AfterRounds, FillWord, LastEl, LoopCost, Rounds, Lo, SubW, FromLe, SrcOf,
         DstOf;
    PredIs(c, kind, m, forward);
  }

  /** Parking is right exactly for the calls the BIOS does not refuse: once every round got its
      budget, a parked call of any kind is over with r0 and r1 as predicted if and only if neither
      its source nor its end lies in a refused region. */
  lemma ParkedIff(c: Waits, kind: Kind, m: Machine, budget: nat, env: seq<Event>, forward: bool)
    requires Parks(c, kind, m, budget, forward) && c.S0() > 0 && Framed(m.cpu) && Valid(m.bus)
    requires kind.FastFill? || !EarlyOut(m.cpu) ==>
      Setup(kind, m.cpu, m.bus, forward) && AllQuiet(kind, m.cpu, m.bus, env)
    requires Positive(env) && |env| >= Rounds(kind, m.cpu)
    ensures var o := Resumable(c, kind, m, budget, env, forward);
      o.stop == Done && AsPredicted(kind, m, Predict(c, kind, m, forward).value, o.m.cpu) <==> !EarlyOut(m.cpu)
  {
    hide Setup, Resumable, Framed, Valid, Rounds, Count, EntryCost, Owed, Stacked, Region, AllQuiet, Predict, EarlyOut,
         Reference, LoopCost;
    if EarlyOut(m.cpu) && !kind.FastFill? { RefusedCopy(c, kind, m, budget, env, forward); }
    else {
      SlicedTo(c, kind, m, budget, env, forward);
      if EarlyOut(m.cpu) { RefusedFill(c, m, forward); PredRefused(c, kind, m, forward); }
      else { ReferencePredicted(c, kind, m, forward); }
    }
  }

  function AllOnes(): Waits { Waits(_ => 1, _ => 1, _ => 1) }
  /** CpuFastSet(0, 0x02000000, fill of 8 words) from Thumb code, a refused source, with both
      stacks away from the start of EWRAM. */
  ghost predicate RefusedCall(a: Cpu) {
    a.r0 == 0 && a.r1 == 0x0200_0000 && a.r2 == 0x0100_0008 && Thumb(a) && Framed(a)
    && RamHost(a.spSvc - 16, 16).value >= 32 && RamHost(a.spUsr - 16, 16).value >= 32
  }
  lemma RefusedZero() ensures Refused(0) {}
  lemma RefusedPrediction(kind: Kind, a: Cpu, b: Bus)
    requires a.r0 == 0 && a.r1 == 0x0200_0000 && Thumb(a)
    ensures Predict(AllOnes(), kind, Machine(a, b), false) == Some(Pred(0, 0x0200_0000, 46, false))
  {
    RefusedZero(); UnitCosts(Region(a.spSvc), Region(a.lrSvc));
    hide Region, Dispatch, ExitCost, OneRegion, SrcHost, LoopCost, EmptyCost, Refused, EndOf, Rounds, Thumb, SrcOf,
         DstOf, OverlapOk, Count, Bytes;
  }
  /** The same call as a copy: predicted as refused, it is parked, then declined at the copy loop
      with eight words still to go, and from there the BIOS makes the copy. */
  lemma RefusedCopyExample(a: Cpu, b: Bus)
    requires a.r0 == 0 && a.r1 == 0x0200_0000 && a.r2 == 8 && Thumb(a) && Framed(a) && Valid(b)
    ensures AllOnes().S0() > 0 && Parks(AllOnes(), FastCopy, Machine(a, b), 100, false)
    ensures var o := Resumable(AllOnes(), FastCopy, Machine(a, b), 100, [], false);
      o.stop != Done && o.m.cpu.pc == 0x7A4 && o.m.cpu.r4 == 8 && o.m.cpu.spUsr == a.spUsr - 16
  {
    hide Resumable, Predict, Framed, Valid, Refused, EndOf, Materialize, Thumb, AllOnes, Rounds, LoopPc;
    var m := Machine(a, b);
    RefusedPrediction(FastCopy, a, b); RefusedZero(); UnitCosts(0, 0);
    RefusedCopy(AllOnes(), FastCopy, m, 100, [], false);
    CopyLoopTop(m);
  }
  lemma CopyLoopTop(m: Machine)
    requires Framed(m.cpu) && Valid(m.bus)
    ensures var x := Materialize(FastCopy, m).cpu; x.pc == 0x7A4 && x.r4 == Count(m.cpu) && x.spUsr == m.cpu.spUsr - 16
  { hide Valid, Push4, RamHost, FromLe, Load, SystemCpsr, SubW; }
  lemma UnitCosts(sp: nat, lr: nat)
    ensures var c := AllOnes();
      Dispatch(c, sp, lr) == 37 && ExitCost(c, sp) == 4 && c.S0() == 1 && c.N0() == 1 && c.N(sp) == 1
  {}
  lemma RefusedFrames(a: Cpu)
    requires a.r0 == 0 && a.r1 == 0x0200_0000 && a.r2 == 0x0100_0008
    ensures Rounds(FastFill, a) == 1 && SrcOf(FastFill, a) == 0 && DstOf(FastFill, a) == 0x0200_0000 && Count(a) == 8
  {}
  lemma RefusedSetup(a: Cpu, b: Bus)
    requires Valid(b) && RefusedCall(a)
    ensures Setup(FastFill, a, b, false)
  {
    hide SvcFrame, UsrFrame, RamHost, SrcHost, Clear, Valid, Framed, Rounds, SrcOf, DstOf, Count, Thumb;
    RefusedFrames(a);
    FramesAt(a);
    NoSource(b.pages, SvcFrame(a)); NoSource(b.pages, UsrFrame(a));
    LowRam(b.pages, SvcFrame(a)); LowRam(b.pages, UsrFrame(a));
  }
  lemma FramesAt(a: Cpu)
    requires Framed(a)
    ensures forall x :: x in SvcFrame(a) ==> x >= RamHost(a.spSvc - 16, 16).value
    ensures forall x :: x in UsrFrame(a) ==> x >= RamHost(a.spUsr - 16, 16).value
  { hide RamHost; }
  lemma NoSource(pages: map<nat, nat>, ws: Writes) ensures Clear(pages, ws, 0, 4) {}
  lemma LowRam(pages: map<nat, nat>, ws: Writes)
    requires forall x :: x in ws ==> x >= 32
    ensures Clear(pages, ws, 0x0200_0000, 32)
  {
    forall x | 0x0200_0000 <= x < 0x0200_0020 ensures Untouched(pages, ws, x)
    { assert SrcHost(pages, x, 1) == Some(x - 0x0200_0000); }
  }
  lemma {:induction false} FilledFirst(mem: seq<Byte>, d: nat, v: seq<Byte>, n: nat, x: nat)
    requires |v| == 4 && d + 4 * n <= |mem| && x < d
    ensures FillHost(mem, d, v, n)[x] == mem[x]
    decreases n
  { if n > 0 { FilledFirst(Put(mem, d, v), d + 4, v, n - 1, x); } }

  /** With 100 cycles left the early exit (46 cycles, plus the margin of 64) does not fit, and
      eight words are overwritten that the BIOS leaves alone: r1 moves, and EWRAM starts with what
      address 0 read as, whatever it held. */
  lemma RefusedExample(a: Cpu, b: Bus)
    requires Valid(b) && RefusedCall(a)
    ensures AllOnes().S0() > 0 && Parks(AllOnes(), FastFill, Machine(a, b), 100, false)
    ensures var o := Resumable(AllOnes(), FastFill, Machine(a, b), 100, [Event(true, 1, map[])], false);
      o.stop == Done && o.m.cpu.r1 == 0x0200_0020 && o.m.bus.mem != [] && o.m.bus.mem[0] == Le(FillWord(a, b))[0]
  {
    hide Setup, Resumable, Framed, Valid, EntryCost, Owed, Stacked, Reference, AllQuiet, Predict, RamHost, Rounds,
         DstOf, Thumb, Region;
    var m, env := Machine(a, b), [Event(true, 1, map[])];
    RefusedSetup(a, b); RefusedFrames(a); UnitCosts(0, 0); RefusedPrediction(FastFill, a, b);
    QuietNothing(m, env[0]);
    SlicedTo(AllOnes(), FastFill, m, 100, env, false);
    FillReturns(m);
    FilledZero(a, b);
    StackedFar(m.cpu, Reference(FastFill, m).bus);
    var o := Resumable(AllOnes(), FastFill, m, 100, env, false);
    NothingWritten(Stacked(m.cpu, Reference(FastFill, m).bus), env[..o.used]);
  }
  lemma QuietNothing(m: Machine, e: Event)
    requires Framed(m.cpu) && e.writes == map[]
    ensures AllQuiet(FastFill, m.cpu, m.bus, [e])
  { hide Framed; }
  lemma {:induction false} NothingWritten(b: Bus, env: seq<Event>)
    requires Valid(b) && forall i :: 0 <= i < |env| ==> env[i].writes == map[]
    ensures PatchAll(b, env) == b
    decreases |env|
  { if env != [] { assert PatchBus(b, map[]) == b; NothingWritten(b, env[1..]); } }
  lemma StackedFar(a: Cpu, b: Bus)
    requires Framed(a) && Valid(b) && RamHost(a.spSvc - 16, 16).value > 0 && RamHost(a.spUsr - 16, 16).value > 0
    ensures Stacked(a, b).mem != [] && Stacked(a, b).mem[0] == b.mem[0]
  { hide RamHost; }
  lemma FilledZero(a: Cpu, b: Bus)
    requires Valid(b) && RefusedCall(a)
    ensures var m := Machine(a, b);
      Valid(Reference(FastFill, m).bus) && Reference(FastFill, m).bus.mem[0] == Le(FillWord(a, b))[0]
  {
    RefusedFrames(a);
    EwramBase();
    var v := Le(FillWord(a, b));
    hide RamHost, SrcHost, Load, Rounds, SrcOf, DstOf, Framed, Count, Le, FillWord;
    FillHostIs(b, 0x0200_0000, v, 8);
    FilledFirst(Put(b.mem, 0, v), 4, v, 7, 0);
  }
  lemma EwramBase() ensures RamHost(0x0200_0000, 32) == Some(0) {}

  // ---- when no destination byte feeds a later load ------------------------------------------

  /** The canonical image of a RAM region, where no two addresses mirror each other. */
  predicate Unmirrored(addr: Word, len: nat) {
    var off := addr % 0x100_0000;
    match Region(addr)
    case 2 => off + len <= 0x4_0000
    case 3 => off + len <= 0x8000
    case 6 => off + len <= 0x1_8000
    case _ => false
  }
  /** The predictor's own overlap test suffices for operands in the canonical images. */
  lemma DisjointUnfed(pages: map<nat, nat>, src: Word, dst: Word, len: nat)
    requires 0 < len <= 0x80_0000 && OverlapOk(src, dst, len, false) && Unmirrored(src, len) && Unmirrored(dst, len)
    ensures Unfed(pages, src, dst, len)
  {
    hide RamHost, SrcHost, SubW;
    forall x, y | dst <= x && src <= y < src + len && x - dst < y - src ensures Apart(pages, y, x) {
      ImageOf(pages, src, len, y - src); ImageOf(pages, dst, len, x - dst);
      Distinct(src, dst, len);
    }
  }
  function Image(addr: Word): nat {
    var off := addr % 0x100_0000;
    match Region(addr) case 2 => off case 3 => 0x4_0000 + off case _ => 0x4_8000 + off
  }
  lemma ImageOf(pages: map<nat, nat>, addr: Word, len: nat, i: nat)
    requires Unmirrored(addr, len) && i < len
    ensures RamHost(addr + i, 1) == Some(Image(addr) + i) && SrcHost(pages, addr + i, 1) == RamHost(addr + i, 1)
    ensures Region(addr) == 2 ==> Image(addr) + len <= 0x4_0000
    ensures Region(addr) == 3 ==> 0x4_0000 <= Image(addr) && Image(addr) + len <= 0x4_8000
    ensures Region(addr) == 6 ==> 0x4_8000 <= Image(addr)
  {
    InRegion(addr, i);
    RamIsSource(pages, addr + i, 1);
  }
  lemma InRegion(addr: Word, i: nat)
    requires addr % 0x100_0000 + i < 0x100_0000
    ensures (addr + i) / 0x100_0000 == addr / 0x100_0000
    ensures var off := addr % 0x100_0000 + i;
      (off < 0x4_0000 ==> (addr + i) % 0x4_0000 == off) && (off < 0x8000 ==> (addr + i) % 0x8000 == off)
      && (off < 0x2_0000 ==> (addr + i) % 0x2_0000 == off)
  {
    var q, r := addr / 0x100_0000, addr % 0x100_0000;
    ModUnique(addr + i, 0x100_0000, q, r + i);
    if r + i < 0x4_0000 { ModUnique(addr + i, 0x4_0000, 64 * q, r + i); }
    if r + i < 0x8000 { ModUnique(addr + i, 0x8000, 512 * q, r + i); }
    if r + i < 0x2_0000 { ModUnique(addr + i, 0x2_0000, 128 * q, r + i); }
  }
  lemma Distinct(src: Word, dst: Word, len: nat)
    requires 0 < len <= 0x80_0000 && OverlapOk(src, dst, len, false) && Unmirrored(src, len) && Unmirrored(dst, len)
    ensures Image(src) + len <= Image(dst) || Image(dst) + len <= Image(src)
  {}
}
