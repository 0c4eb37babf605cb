/** The parked, resumable CpuSet/CpuFastSet engines, their predictors and the atomic form. */
module Swi {
  import opened Words
  import opened Sh4
  import opened GuestBus
  import opened Chunks

  datatype Kind = FastCopy | FastFill | WordCopy | HalfCopy {
    predicate Fast() { FastCopy? || FastFill? }
  }
  function Wd(kind: Kind): Width { if kind.HalfCopy? then 2 else 4 }
  /** Elements in n loop rounds: the FastSet loops move eight words a round. */
  function Els(kind: Kind, n: nat): nat { if kind.Fast() then 8 * n else n }
  function Bytes(kind: Kind, n: nat): nat { if kind.Fast() then 32 * n else if kind.HalfCopy? then 2 * n else 4 * n }
  /** Loop-top PCs in the BIOS image. */
  function LoopPc(kind: Kind): Word {
    match kind case FastCopy => 0x7A4 case FastFill => 0x770 case WordCopy => 0x6AC case HalfCopy => 0x668
  }

  /** The registers these routines use, with the caller's and the supervisor's banked ones. */
  datatype Cpu = Cpu(r0: Word, r1: Word, r2: Word, r3: Word, r4: Word, r11: Word, r12: Word,
                     spUsr: Word, lrUsr: Word, spSvc: Word, lrSvc: Word, spsr: Word, cpsr: Word, pc: Word)
  datatype Machine = Machine(cpu: Cpu, bus: Bus)

  // ---- cycle charges -----------------------------------------------------------

  /** Wait states by region: sequential and non-sequential, 16 and 32 bit. */
  datatype Waits = Waits(s32: nat -> nat, n32: nat -> nat, n16: nat -> nat) {
    function S(region: nat): nat { s32(region % 16) }
    function N(region: nat): nat { n32(region % 16) }
    function H(region: nat): nat { n16(region % 16) }
    function S0(): nat { S(0) }
    function N0(): nat { N(0) }
  }
  function Region(addr: Word): nat { addr / 0x100_0000 }

  /** cgba_swi_dispatch_cycles for a Thumb caller. */
  function Dispatch(c: Waits, sp: nat, lr: nat): nat {
    19 * c.S0() + 3 * c.N0() + 8 * c.S(3) + 6 * c.S(sp) + c.H(lr)
  }
  function ExitCost(c: Waits, sp: nat): nat { 2 * c.S0() + c.S(sp) + c.N0() }
  function Prologue(c: Waits, kind: Kind, src: Word): nat {
    match kind
    case FastCopy => 20 * c.S0() + c.N0()
    case FastFill => 20 * c.S0() + c.N(Region(src))
    case WordCopy => 22 * c.S0() + c.N0()
    case HalfCopy => 21 * c.S0()
  }
  /** One loop round, its closing taken branch included. */
  function RoundCost(c: Waits, kind: Kind, src: Word, dst: Word): nat {
    match kind
    case FastCopy => 60 * c.S0() + 8 * (c.N(Region(src)) + c.N(Region(dst))) + 7 * c.N0() + c.N0()
    case FastFill => 28 * c.S0() + 8 * c.N(Region(dst)) + 7 * c.N0() + c.N0()
    case WordCopy => 7 * c.S0() + c.N(Region(src)) + c.N(Region(dst)) + c.N0()
    case HalfCopy => 7 * c.S0() + c.H(Region(src)) + c.H(Region(dst)) + c.N0()
  }
  /** The fill and half-copy loops leave by falling through. */
  function Refund(c: Waits, kind: Kind): nat { if kind.FastFill? || kind.HalfCopy? then c.N0() else 0 }

  function Times(n: nat, cost: nat): nat { n * cost }
  lemma TimesAdd(a: nat, b: nat, cost: nat) ensures Times(a + b, cost) == Times(a, cost) + Times(b, cost) {}

  // ---- entry ---------------------------------------------------------------------

  function Down4(x: Word): Word { x - x % 4 }
  function Count(a: Cpu): nat { a.r2 % 0x20_0000 }
  function SrcOf(kind: Kind, a: Cpu): Word { if kind.HalfCopy? then a.r0 else Down4(a.r0) }
  function DstOf(kind: Kind, a: Cpu): Word { if kind.HalfCopy? then a.r1 else Down4(a.r1) }
  function Rounds(kind: Kind, a: Cpu): nat { if kind.Fast() then (Count(a) + 7) / 8 else Count(a) }
  function SystemCpsr(spsr: Word): Word { (if (spsr / 0x80) % 2 == 1 then 0x80 else 0) + 0x1F }

  /** cgba_swi_fastset_materialize and cgba_swi_cpuset_materialize: dispatcher and routine
      prologue, up to the loop top. */
  function Materialize(kind: Kind, m: Machine): Machine
    requires Valid(m.bus) && m.cpu.spSvc >= 16 && m.cpu.spUsr >= 16
  {
    var a := m.cpu;
    var bus1 := Push4(m.bus, a.spSvc, a.spsr, a.r11, a.r12, a.lrSvc);
    var bus := Push4(bus1, a.spUsr, a.r4, a.r2, a.r3, a.lrUsr);
    var src, dst := SrcOf(kind, a), DstOf(kind, a);
    var c := a.(spSvc := a.spSvc - 16, spUsr := a.spUsr - 16, cpsr := SystemCpsr(a.spsr), lrUsr := 0x94,
                r11 := SystemCpsr(a.spsr), pc := LoopPc(kind));
    var cpu := match kind
      case FastCopy => c.(r4 := Count(a), r3 := src, r1 := SubW(dst, src), r12 := 0x0EFF_FFFF)
      case FastFill => c.(r4 := Count(a), r3 := src, r2 := FromLe(Load(bus, src, 4)), r1 := dst, r12 := 0x720)
      case WordCopy => c.(r2 := src, r1 := SubW(dst, src), r3 := Count(a), r12 := 0x0EFF_FFFF)
      case HalfCopy => c.(r2 := src, r3 := Lo(src + 2 * Count(a)), r1 := SubW(dst, src), r4 := 0x0EFF_FFFF);
    Machine(cpu, bus)
  }
  function EntryCost(c: Waits, kind: Kind, a: Cpu): nat {
    Dispatch(c, Region(a.spSvc), Region(a.lrSvc)) + c.N(Region(a.spSvc)) + Prologue(c, kind, SrcOf(kind, a))
  }

  // ---- the engine ------------------------------------------------------------------

  datatype Local = Local(src: Word, dst: Word, left: int, cost: nat)

  function LeftRounds(kind: Kind, left: int): int { if kind.Fast() then (left + 7) / 8 else left }

  /** Rounds that fit the budget: at least one, at most what is left. */
  function Fit(kind: Kind, l: Local, remaining: int): (k: nat)
    requires l.left > 0 && l.cost > 0 && remaining > 0
    ensures 1 <= k <= LeftRounds(kind, l.left)
  {
    var fit, left := remaining / l.cost, LeftRounds(kind, l.left);
    if fit < 1 then 1 else if fit > left then left else fit
  }

  function FillHost(mem: seq<Byte>, d: nat, v: seq<Byte>, n: nat): (r: seq<Byte>)
    requires |v| == 4 && d + 4 * n <= |mem|
    ensures |r| == |mem|
    decreases n
  { if n == 0 then mem else FillHost(Put(mem, d, v), d + 4, v, n - 1) }

  function FillChunk(b: Bus, dst: nat, v: Word, n: nat): (b': Bus)
    requires Valid(b)
    ensures Valid(b') && b'.pages == b.pages && |b'.mem| == |b.mem|
  {
    if n > 0 && RamHost(dst, 4 * n).Some? then
      RamSub(dst, 4 * n, 0, 4 * n);
      b.(mem := FillHost(b.mem, RamHost(dst, 4 * n).value, Le(v), n))
    else FillEls(b, dst, Le(v), n)
  }

  function HalfOf(bs: seq<Byte>): Word
    requires |bs| == 2
  { var hi: int := bs[1]; bs[0] + 0x100 * hi }

  /** k rounds of the loop body; None is the decline of an unresolvable source. */
  function Chunk(kind: Kind, l: Local, m: Machine, k: nat, forward: bool): (m': Option<Machine>)
    requires Valid(m.bus) && k > 0
    ensures m'.Some? ==> Valid(m'.value.bus) && m'.value.cpu.spUsr == m.cpu.spUsr && m'.value.cpu.spSvc == m.cpu.spSvc
  {
    var a, n := m.cpu, Bytes(kind, k);
    if kind.FastFill? then
      var dst' := AddW(l.dst, Lo(n));
      Some(Machine(a.(r1 := dst', r3 := dst', r4 := Lo(l.left - 8 * k)), FillChunk(m.bus, l.dst, a.r2, Els(kind, k))))
    else
      var b := CopyChunk(m.bus, l.src, l.dst, Wd(kind), Els(kind, k), forward);
      if b.None? then None
      else
        CopyChunkValid(m.bus, l.src, l.dst, Wd(kind), Els(kind, k), forward);
        var src' := AddW(l.src, Lo(n));
        var last := Load(b.value, l.src + n - Wd(kind), Wd(kind));
        Some(Machine(match kind
          case FastCopy => a.(r3 := src', r0 := src', r2 := FromLe(last), r4 := Lo(l.left - 8 * k))
          case WordCopy => a.(r2 := src', r3 := Lo(l.left - k), r0 := FromLe(last))
          case HalfCopy => a.(r2 := src', r12 := HalfOf(last))
          case FastFill => a, b.value))
  }
  lemma CopyChunkValid(b: Bus, src: nat, dst: nat, w: Width, n: nat, forward: bool)
    requires Valid(b) && n > 0 && CopyChunk(b, src, dst, w, n, forward).Some?
    ensures var b' := CopyChunk(b, src, dst, w, n, forward).value;
      Valid(b') && b'.pages == b.pages && |b'.mem| == |b.mem|
  { hide SrcHost, RamHost; }

  function Advance(kind: Kind, l: Local, k: nat): Local {
    var n := Lo(Bytes(kind, k));
    Local(AddW(l.src, n), AddW(l.dst, n), l.left - Els(kind, k), l.cost)
  }

  /** Routine and dispatcher epilogue: the pops read back what the prologue pushed. */
  function Epilogue(m: Machine): Machine
    requires Valid(m.bus) && m.cpu.spUsr + 16 <= 0xFFFF_FFFF && m.cpu.spSvc + 16 <= 0xFFFF_FFFF
  {
    var a, b := m.cpu, m.bus;
    var spsr, lr := FromLe(Load(b, a.spSvc, 4)), FromLe(Load(b, a.spSvc + 12, 4));
    Machine(a.(r4 := FromLe(Load(b, a.spUsr, 4)), r2 := FromLe(Load(b, a.spUsr + 4, 4)),
               r3 := FromLe(Load(b, a.spUsr + 8, 4)), lrUsr := FromLe(Load(b, a.spUsr + 12, 4)),
               spUsr := a.spUsr + 16, r11 := FromLe(Load(b, a.spSvc + 4, 4)), r12 := FromLe(Load(b, a.spSvc + 8, 4)),
               lrSvc := lr, spSvc := a.spSvc + 16, spsr := spsr, pc := lr - lr % 2, cpsr := spsr), b)
  }

  /** What update_gba and the code it lets run do: `stay` continues the engine with a new
      budget, otherwise a frame ends or an interrupt runs and the engine is entered again later
      at the same loop top. Either way memory may have been written. */
  datatype Event = Event(stay: bool, budget: int, writes: Writes)

  datatype Stop = Done | Parked | Declined
  /** `granted` sums, over the update_gba calls made, new budget minus budget handed back. */
  datatype Out = Out(stop: Stop, m: Machine, remaining: int, granted: int, used: nat)

  function PatchM(m: Machine, ws: Writes): Machine
    requires Valid(m.bus)
  { m.(bus := PatchBus(m.bus, ws)) }

  ghost predicate Sane(m: Machine) {
    Valid(m.bus) && m.cpu.spUsr + 16 <= 0xFFFF_FFFF && m.cpu.spSvc + 16 <= 0xFFFF_FFFF
  }

  /** The while loop of cgba_swi_fastset_engine and cgba_swi_cpuset_engine. */
  function Loop(c: Waits, kind: Kind, l: Local, m: Machine, remaining: int, env: seq<Event>, forward: bool): (o: Out)
    requires Sane(m) && l.cost > 0
    ensures o.used <= |env| && (o.stop != Done ==> Sane(o.m))
    ensures o.stop == Parked && o.used < |env| ==> !env[o.used].stay
    decreases |env|, if l.left > 0 then l.left else 0
  {
    if l.left <= 0 then
      Out(Done, Epilogue(m), remaining - ExitCost(c, Region(m.cpu.spUsr)) + Refund(c, kind), 0, 0)
    else if remaining <= 0 then
      if env == [] || !env[0].stay then Out(Parked, m, remaining, 0, 0)
      else
        var o := Loop(c, kind, l, PatchM(m, env[0].writes), env[0].budget, env[1..], forward);
        o.(granted := o.granted + (env[0].budget - remaining), used := o.used + 1)
    else
      var k := Fit(kind, l, remaining);
      var m' := Chunk(kind, l, m, k, forward);
      if m'.None? then Out(Declined, m, remaining, 0, 0)
      else
        Loop(c, kind, Advance(kind, l, k), m'.value, remaining - Times(k, l.cost), env, forward)
  }

  /** Engine entry at a loop-top state; `handoff` is the prologue cost the materializer left. */
  function Enter(c: Waits, kind: Kind, m: Machine, remaining: int, env: seq<Event>, handoff: nat,
                 forward: bool): (o: Out)
    requires Sane(m) && c.S0() > 0
    ensures o.used <= |env| && (o.stop != Done ==> Sane(o.m))
    ensures o.stop == Parked && o.used < |env| ==> !env[o.used].stay
  {
    var a, rem := m.cpu, remaining - handoff;
    var canonical := match kind
      case FastFill => a.r12 == 0x720
      case HalfCopy => a.r4 == 0x0EFF_FFFF
      case _ => a.r12 == 0x0EFF_FFFF;
    var left := match kind
      case HalfCopy => SubW(a.r3, a.r2) / 2
      case WordCopy => Signed(a.r3)
      case _ => Signed(a.r4);
    var dst := match kind
      case FastFill => a.r1
      case FastCopy => AddW(a.r3, a.r1)
      case _ => AddW(a.r1, a.r2);
    var src := match kind case FastFill => dst case FastCopy => a.r3 case _ => a.r2;
    if !canonical || left <= 0 || Region(dst) >= 0xF || !Aligned(dst, Wd(kind)) || !Aligned(src, Wd(kind)) then
      Out(Declined, m, rem, 0, 0)
    else Loop(c, kind, Local(src, dst, left, RoundCost(c, kind, src, dst)), m, rem, env, forward)
  }

  /** Engine calls, each started by the event that ended the previous one, until the call is over. */
  function Whole(c: Waits, kind: Kind, m: Machine, remaining: int, env: seq<Event>, handoff: nat,
                 forward: bool): (o: Out)
    requires Sane(m) && c.S0() > 0
    ensures o.used <= |env|
    decreases |env|
  {
    var o := Enter(c, kind, m, remaining, env, handoff, forward);
    if o.stop != Parked || o.used == |env| then o
    else
      var e := env[o.used];
      var r := Whole(c, kind, PatchM(o.m, e.writes), e.budget, env[o.used + 1..], 0, forward);
      r.(granted := o.granted + (e.budget - o.remaining) + r.granted, used := o.used + 1 + r.used)
  }

  // ---- canonical states -------------------------------------------------------------

  function SvcFrame(a: Cpu): Writes
    requires Framed(a)
  { Frame(RamHost(a.spSvc - 16, 16).value, a.spsr, a.r11, a.r12, a.lrSvc) }
  function UsrFrame(a: Cpu): Writes
    requires Framed(a)
  { Frame(RamHost(a.spUsr - 16, 16).value, a.r4, a.r2, a.r3, a.lrUsr) }

  /** Both stacks have room in one RAM array, and the frames do not overlap. */
  predicate Framed(a: Cpu) {
    a.spSvc >= 16 && a.spUsr >= 16 && RamHost(a.spSvc - 16, 16).Some? && RamHost(a.spUsr - 16, 16).Some?
    && (RamHost(a.spSvc - 16, 16).value + 16 <= RamHost(a.spUsr - 16, 16).value
        || RamHost(a.spUsr - 16, 16).value + 16 <= RamHost(a.spSvc - 16, 16).value)
  }
  function Stacked(a: Cpu, base: Bus): (b: Bus)
    requires Framed(a) && Valid(base)
    ensures Valid(b) && b.pages == base.pages && |b.mem| == |base.mem|
  { PatchBus(PatchBus(base, SvcFrame(a)), UsrFrame(a)) }

  function FillWord(a: Cpu, base: Bus): Word
    requires Valid(base)
  { FromLe(Load(base, Down4(a.r0), 4)) }

  /** Memory after n loop rounds of the BIOS routine. */
  function AfterRounds(kind: Kind, a: Cpu, base: Bus, v: Word, n: nat): (b: Bus)
    requires Valid(base)
    ensures Valid(b) && b.pages == base.pages && |b.mem| == |base.mem|
  {
    if kind.FastFill? then FillEls(base, DstOf(kind, a), Le(v), Els(kind, n))
    else CopyEls(base, SrcOf(kind, a), DstOf(kind, a), Wd(kind), Els(kind, n))
  }

  /** The element loaded last in n rounds. */
  function LastEl(kind: Kind, a: Cpu, b: Bus, n: nat): (bs: seq<Byte>)
    requires Valid(b) && n > 0
    ensures |bs| == Wd(kind)
  { Load(b, SrcOf(kind, a) + Bytes(kind, n) - Wd(kind), Wd(kind)) }

  /** The loop-top state of the real BIOS after n rounds, started with registers a and memory base. */
  function At(kind: Kind, a: Cpu, base: Bus, n: nat): Machine
    requires Framed(a) && Valid(base)
  {
    var v := FillWord(a, base);
    var bus := AfterRounds(kind, a, Stacked(a, base), v, n);
    var src, dst := SrcOf(kind, a), DstOf(kind, a);
    var c := a.(spSvc := a.spSvc - 16, spUsr := a.spUsr - 16, cpsr := SystemCpsr(a.spsr), lrUsr := 0x94,
                r11 := SystemCpsr(a.spsr), pc := LoopPc(kind));
    var here, to := Lo(src + Bytes(kind, n)), Lo(dst + Bytes(kind, n));
    Machine(match kind
      case FastCopy =>
        c.(r4 := Lo(Count(a) - 8 * n), r3 := here, r1 := SubW(dst, src), r12 := 0x0EFF_FFFF,
           r0 := if n == 0 then a.r0 else here, r2 := if n == 0 then a.r2 else FromLe(LastEl(kind, a, bus, n)))
      case FastFill =>
        c.(r4 := Lo(Count(a) - 8 * n), r1 := to, r2 := v, r3 := if n == 0 then src else to, r12 := 0x720)
      case WordCopy =>
        c.(r2 := here, r1 := SubW(dst, src), r3 := Lo(Count(a) - n), r12 := 0x0EFF_FFFF,
           r0 := if n == 0 then a.r0 else FromLe(LastEl(kind, a, bus, n)))
      case HalfCopy =>
        c.(r2 := here, r3 := Lo(src + 2 * Count(a)), r1 := SubW(dst, src), r4 := 0x0EFF_FFFF,
           r12 := if n == 0 then a.r12 else HalfOf(LastEl(kind, a, bus, n))), bus)
  }

  /** Host bytes a call relies on: source, destination and both frames stay clear of each other
      and of what the environment writes. */
  ghost predicate Undisturbed(kind: Kind, a: Cpu, base: Bus, ws: Writes)
    requires Framed(a)
  {
    Clear(base.pages, ws, SrcOf(kind, a), if kind.FastFill? then 4 else Bytes(kind, Rounds(kind, a)))
    && Clear(base.pages, ws, DstOf(kind, a), Bytes(kind, Rounds(kind, a)))
  }
  ghost predicate Setup(kind: Kind, a: Cpu, base: Bus, forward: bool) {
    var src, dst, len := SrcOf(kind, a), DstOf(kind, a), Bytes(kind, Rounds(kind, a));
    Valid(base) && Framed(a) && Count(a) > 0
    && dst + len <= 0x0F00_0000 && Aligned(dst, Wd(kind)) && Aligned(src, Wd(kind))
    && Region(dst) == (dst + len - 1) / 0x100_0000
    && Undisturbed(kind, a, base, SvcFrame(a)) && Undisturbed(kind, a, base, UsrFrame(a))
    && (!kind.FastFill? ==>
          src + len <= 0x0F00_0000 && Region(src) == (src + len - 1) / 0x100_0000
          && SrcHost(base.pages, src, len).Some?
          && (forward || Unfed(base.pages, src, dst, len)))
  }
  ghost predicate Quiet(kind: Kind, a: Cpu, base: Bus, e: Event)
    requires Framed(a)
  {
    Undisturbed(kind, a, base, e.writes) && e.writes.Keys !! SvcFrame(a).Keys && e.writes.Keys !! UsrFrame(a).Keys
  }

  lemma CleanWord(kind: Kind, a: Cpu, base: Bus, ws: Writes)
    requires Framed(a) && Valid(base) && kind.FastFill? && Undisturbed(kind, a, base, ws)
    ensures FillWord(a, PatchBus(base, ws)) == FillWord(a, base)
  { LoadPatch(base, ws, SrcOf(kind, a), 4); hide Load, PatchBus, Clear, FromLe; }

  lemma StackedIsPush(kind: Kind, a: Cpu, base: Bus)
    requires Framed(a) && Valid(base)
    ensures Push4(Push4(base, a.spSvc, a.spsr, a.r11, a.r12, a.lrSvc), a.spUsr, a.r4, a.r2, a.r3, a.lrUsr)
      == Stacked(a, base)
  {
    PushIsPatch(base, a.spSvc, a.spsr, a.r11, a.r12, a.lrSvc);
    PushIsPatch(PatchBus(base, SvcFrame(a)), a.spUsr, a.r4, a.r2, a.r3, a.lrUsr);
    hide Push4, PatchBus, RamHost, Frame;
  }

  lemma NoRounds(kind: Kind, a: Cpu, base: Bus, v: Word)
    requires Valid(base)
    ensures AfterRounds(kind, a, base, v, 0) == base
  {}
  lemma LoIs(x: int) requires 0 <= x < 0x1_0000_0000 ensures Lo(x) == x {}

  /** The materializer builds the loop-top state before the first round. */
  lemma MaterializeIsAt(kind: Kind, m: Machine)
    requires Framed(m.cpu) && Valid(m.bus)
    requires kind.FastFill? ==>
      Undisturbed(kind, m.cpu, m.bus, SvcFrame(m.cpu)) && Undisturbed(kind, m.cpu, m.bus, UsrFrame(m.cpu))
    ensures Materialize(kind, m) == At(kind, m.cpu, m.bus, 0)
  {
    hide Push4, PatchBus, RamHost, Frame, Load, FromLe, SrcHost, Clear, Aligned, SystemCpsr, AfterRounds, SvcFrame,
         UsrFrame, Framed, Valid, Undisturbed, SubW, Lo, FillWord, Stacked;
    var a := m.cpu;
    StackedIsPush(kind, a, m.bus);
    NoRounds(kind, a, Stacked(a, m.bus), FillWord(a, m.bus));
    LoIs(Count(a)); LoIs(SrcOf(kind, a)); LoIs(DstOf(kind, a));
    if kind.FastFill? { StackedWord(kind, a, m.bus); }
  }
  lemma StackedWord(kind: Kind, a: Cpu, base: Bus)
    requires Framed(a) && Valid(base) && kind.FastFill?
    requires Undisturbed(kind, a, base, SvcFrame(a)) && Undisturbed(kind, a, base, UsrFrame(a))
    ensures FromLe(Load(Stacked(a, base), SrcOf(kind, a), 4)) == FillWord(a, base)
  {
    CleanWord(kind, a, base, SvcFrame(a));
    CleanWord(kind, a, PatchBus(base, SvcFrame(a)), UsrFrame(a));
    hide Load, PatchBus, Clear, FromLe, SvcFrame, UsrFrame, Framed;
  }

  // ---- the environment leaves the canonical state canonical --------------------------

  lemma ClearPart(pages: map<nat, nat>, ws: Writes, addr: nat, len: nat, off: nat, n: nat)
    requires Clear(pages, ws, addr, len) && off + n <= len
    ensures Clear(pages, ws, addr + off, n)
  { hide Untouched; }

  lemma StackedPatch(a: Cpu, base: Bus, ws: Writes)
    requires Framed(a) && Valid(base) && ws.Keys !! SvcFrame(a).Keys && ws.Keys !! UsrFrame(a).Keys
    ensures Stacked(a, PatchBus(base, ws)) == PatchBus(Stacked(a, base), ws)
  {
    PatchSwap(base, SvcFrame(a), ws);
    PatchSwap(PatchBus(base, SvcFrame(a)), UsrFrame(a), ws);
    hide PatchBus, Framed, SvcFrame, UsrFrame;
  }

  lemma RoundsPatch(kind: Kind, a: Cpu, base: Bus, ws: Writes, v: Word, n: nat)
    requires Framed(a) && Valid(base) && Undisturbed(kind, a, base, ws) && n <= Rounds(kind, a)
    ensures AfterRounds(kind, a, PatchBus(base, ws), v, n) == PatchBus(AfterRounds(kind, a, base, v, n), ws)
  {
    var len := Bytes(kind, Rounds(kind, a));
    ClearPart(base.pages, ws, DstOf(kind, a), len, 0, Bytes(kind, n));
    if kind.FastFill? { FillPatch(base, ws, DstOf(kind, a), Le(v), Els(kind, n)); }
    else {
      ClearPart(base.pages, ws, SrcOf(kind, a), len, 0, Bytes(kind, n));
      CopyPatch(base, ws, SrcOf(kind, a), DstOf(kind, a), Wd(kind), Els(kind, n));
    }
    hide PatchBus, Clear, Valid, CopyEls, FillEls, Le, Framed, SrcOf, DstOf;
  }
  lemma LastPatch(kind: Kind, a: Cpu, base: Bus, ws: Writes, b: Bus, n: nat)
    requires Framed(a) && Valid(base) && Valid(b) && b.pages == base.pages
    requires Undisturbed(kind, a, base, ws) && 0 < n <= Rounds(kind, a) && !kind.FastFill?
    ensures LastEl(kind, a, PatchBus(b, ws), n) == LastEl(kind, a, b, n)
  {
    var off := Bytes(kind, n) - Wd(kind);
    ClearPart(base.pages, ws, SrcOf(kind, a), Bytes(kind, Rounds(kind, a)), off, Wd(kind));
    LoadPatch(b, ws, SrcOf(kind, a) + off, Wd(kind));
    hide PatchBus, Clear, Valid, Load, Framed, SrcOf, DstOf;
  }

  /** Writes elsewhere turn the loop-top state into the loop-top state over the written memory. */
  lemma PatchAt(kind: Kind, a: Cpu, base: Bus, e: Event, n: nat)
    requires Framed(a) && Valid(base) && Quiet(kind, a, base, e) && n <= Rounds(kind, a)
    ensures PatchM(At(kind, a, base, n), e.writes) == At(kind, a, PatchBus(base, e.writes), n)
  {
    hide PatchBus, Load, FromLe, Framed, Valid, AfterRounds, LastEl, Stacked, SvcFrame, UsrFrame, SystemCpsr, FillWord,
         Undisturbed, Lo, SubW, HalfOf, Rounds, Bytes;
    var v, b := FillWord(a, base), Stacked(a, base);
    StackedPatch(a, base, e.writes);
    if kind.FastFill? { CleanWord(kind, a, base, e.writes); }
    StillUndisturbed(kind, a, base, b, e.writes);
    RoundsPatch(kind, a, b, e.writes, v, n);
    if !kind.FastFill? && n > 0 { LastPatch(kind, a, b, e.writes, AfterRounds(kind, a, b, v, n), n); }
    if !kind.FastFill? {
      AnyWord(kind, a, b, v, FillWord(a, PatchBus(base, e.writes)), n);
      AnyWord(kind, a, PatchBus(b, e.writes), v, FillWord(a, PatchBus(base, e.writes)), n);
    }
  }
  lemma AnyWord(kind: Kind, a: Cpu, b: Bus, v: Word, v': Word, n: nat)
    requires Valid(b) && !kind.FastFill?
    ensures AfterRounds(kind, a, b, v, n) == AfterRounds(kind, a, b, v', n)
  {}
  lemma StillUndisturbed(kind: Kind, a: Cpu, base: Bus, b: Bus, ws: Writes)
    requires Framed(a) && b.pages == base.pages && Undisturbed(kind, a, base, ws)
    ensures Undisturbed(kind, a, b, ws)
  {}

  // ---- one chunk from a canonical state ------------------------------------------------

  function LocalAt(c: Waits, kind: Kind, a: Cpu, n: nat): Local {
    var src, dst := SrcOf(kind, a), DstOf(kind, a);
    Local(if kind.FastFill? then Lo(dst + Bytes(kind, n)) else Lo(src + Bytes(kind, n)), Lo(dst + Bytes(kind, n)),
          Count(a) - Els(kind, n), RoundCost(c, kind, src, dst))
  }

  lemma {:induction false} FillHostIs(b: Bus, dst: nat, v: seq<Byte>, n: nat)
    requires Valid(b) && |v| == 4 && n > 0 && RamHost(dst, 4 * n).Some?
    ensures var d := RamHost(dst, 4 * n).value;
      d + 4 * n <= |b.mem| && FillEls(b, dst, v, n) == b.(mem := FillHost(b.mem, d, v, n))
    decreases n
  {
    hide RamHost, Put, Valid;
    var d := RamHost(dst, 4 * n).value;
    RamSub(dst, 4 * n, 0, 4); RamFits(b, dst, 4 * n); StoreWord(b, dst, v);
    if n > 1 {
      RamSub(dst, 4 * n, 4, 4 * n - 4);
      FillHostIs(Store(b, dst, v), dst + 4, v, n - 1);
    } else { assert FillEls(Store(b, dst, v), dst + 4, v, 0) == Store(b, dst, v); }
  }
  lemma StoreWord(b: Bus, dst: nat, v: seq<Byte>)
    requires Valid(b) && |v| == 4 && RamHost(dst, 4).Some?
    ensures var h := RamHost(dst, 4).value; h + 4 <= |b.mem| && Store(b, dst, v) == b.(mem := Put(b.mem, h, v))
  { RamSub(dst, 4, 0, 4); hide RamHost, Put; }
  lemma FillChunkIs(b: Bus, dst: nat, v: Word, n: nat)
    requires Valid(b)
    ensures FillChunk(b, dst, v, n) == FillEls(b, dst, Le(v), n)
  { if n > 0 && RamHost(dst, 4 * n).Some? { FillHostIs(b, dst, Le(v), n); } hide RamHost, FillEls, FillHost, Le; }

  lemma UnfedPart(pages: map<nat, nat>, src: nat, dst: nat, len: nat, off: nat, n: nat)
    requires Unfed(pages, src, dst, len) && off + n <= len
    ensures Unfed(pages, src + off, dst + off, n)
  { hide Apart; }

  /** Chunk after chunk, however sized, is the BIOS loop over the whole range. */
  lemma CopyPart(b: Bus, src: nat, dst: nat, w: Width, all: nat, n: nat, k: nat, forward: bool)
    requires Valid(b) && k > 0 && n + k <= all && SrcHost(b.pages, src, Len(all, w)).Some?
    requires forward || Unfed(b.pages, src, dst, Len(all, w))
    ensures CopyChunk(CopyEls(b, src, dst, w, n), src + Len(n, w), dst + Len(n, w), w, k, forward)
      == Some(CopyEls(b, src, dst, w, n + k))
  {
    hide Valid, CopyEls, SrcHost, Unfed, CopyChunk;
    SrcSub(b, src, Len(all, w), Len(n, w), Len(k, w));
    if !forward { UnfedPart(b.pages, src, dst, Len(all, w), Len(n, w), Len(k, w)); }
    ChunkIsCopy(CopyEls(b, src, dst, w, n), src + Len(n, w), dst + Len(n, w), w, k, forward);
    CopySplit(b, src, dst, w, n, k);
  }
  lemma LenEls(kind: Kind, n: nat)
    ensures Len(Els(kind, n), Wd(kind)) == Bytes(kind, n)
  {}
  lemma CopyRounds(kind: Kind, a: Cpu, base: Bus, b: Bus, v: Word, n: nat, k: nat, forward: bool)
    requires Setup(kind, a, base, forward) && Valid(b) && b.pages == base.pages
    requires !kind.FastFill? && k > 0 && n + k <= Rounds(kind, a)
    ensures var at := AfterRounds(kind, a, b, v, n);
      CopyChunk(at, SrcOf(kind, a) + Bytes(kind, n), DstOf(kind, a) + Bytes(kind, n), Wd(kind), Els(kind, k), forward)
      == Some(AfterRounds(kind, a, b, v, n + k))
  {
    hide Clear, Valid, CopyEls, SrcHost, Unfed, Framed, Undisturbed, CopyChunk, SrcOf, DstOf, Rounds, Aligned, Len,
         Bytes, Wd;
    LenEls(kind, n); LenEls(kind, k); LenEls(kind, Rounds(kind, a));
    CopyPart(b, SrcOf(kind, a), DstOf(kind, a), Wd(kind), Els(kind, Rounds(kind, a)), Els(kind, n), Els(kind, k),
        forward);
  }

  lemma FillRounds(kind: Kind, a: Cpu, b: Bus, v: Word, n: nat, k: nat)
    requires Valid(b) && kind.FastFill?
    ensures var at := AfterRounds(kind, a, b, v, n);
      FillChunk(at, DstOf(kind, a) + Bytes(kind, n), v, Els(kind, k)) == AfterRounds(kind, a, b, v, n + k)
  {
    FillChunkIs(AfterRounds(kind, a, b, v, n), DstOf(kind, a) + Bytes(kind, n), v, Els(kind, k));
    FillSplit(b, DstOf(kind, a), Le(v), Els(kind, n), Els(kind, k));
    hide Valid, FillEls, FillChunk, DstOf, Le;
  }

  lemma BytesUpTo(kind: Kind, n: nat, m: nat)
    requires n <= m
    ensures Bytes(kind, n) <= Bytes(kind, m)
    ensures Bytes(kind, n) + Bytes(kind, m - n) == Bytes(kind, m) && Els(kind, n) + Els(kind, m - n) == Els(kind, m)
    ensures n > 0 ==> Bytes(kind, n) >= Wd(kind)
  {}
  lemma Basics(kind: Kind, a: Cpu, base: Bus, forward: bool)
    requires Setup(kind, a, base, forward)
    ensures Framed(a) && Valid(base) && Count(a) > 0
    ensures Undisturbed(kind, a, base, SvcFrame(a)) && Undisturbed(kind, a, base, UsrFrame(a))
  { hide Framed, Valid, Undisturbed, Unfed, SrcHost, SrcOf, DstOf, Aligned, Region, Rounds, Bytes, SvcFrame, UsrFrame; }
  lemma Bounds(kind: Kind, a: Cpu, base: Bus, forward: bool)
    requires Setup(kind, a, base, forward)
    ensures var len := Bytes(kind, Rounds(kind, a));
      0 < len && DstOf(kind, a) + len <= 0x0F00_0000 && (!kind.FastFill? ==> SrcOf(kind, a) + len <= 0x0F00_0000)
  {
    SomeRounds(kind, a);
    hide Framed, Valid, Undisturbed, Unfed, SrcHost, SrcOf, DstOf, Aligned, Region, Rounds, Bytes, SvcFrame, UsrFrame;
  }
  lemma Inside(kind: Kind, a: Cpu, base: Bus, forward: bool, n: nat)
    requires Setup(kind, a, base, forward) && n <= Rounds(kind, a)
    ensures DstOf(kind, a) + Bytes(kind, n) <= 0x0F00_0000
    ensures Lo(DstOf(kind, a) + Bytes(kind, n)) == DstOf(kind, a) + Bytes(kind, n)
    ensures !kind.FastFill? ==>
      SrcOf(kind, a) + Bytes(kind, n) <= 0x0F00_0000
      && Lo(SrcOf(kind, a) + Bytes(kind, n)) == SrcOf(kind, a) + Bytes(kind, n)
  {
    hide Setup, Lo, SrcOf, DstOf, Rounds, Bytes;
    BytesUpTo(kind, n, Rounds(kind, a));
    Bounds(kind, a, base, forward);
    LoIs(DstOf(kind, a) + Bytes(kind, n));
    if !kind.FastFill? { LoIs(SrcOf(kind, a) + Bytes(kind, n)); }
  }
  lemma SomeRounds(kind: Kind, a: Cpu)
    requires Count(a) > 0
    ensures Rounds(kind, a) > 0 && Bytes(kind, Rounds(kind, a)) > 0
  {}
  lemma AddWIs(x: Word, y: nat)
    requires x + y < 0x1_0000_0000
    ensures AddW(x, Lo(y)) == x + y
  {}

  /** k rounds from the state after n are the state after n + k. */
  lemma StepAt(c: Waits, kind: Kind, a: Cpu, base: Bus, forward: bool, n: nat, k: nat)
    requires Setup(kind, a, base, forward) && k > 0 && n + k <= Rounds(kind, a)
    ensures Chunk(kind, LocalAt(c, kind, a, n), At(kind, a, base, n), k, forward) == Some(At(kind, a, base, n + k))
    ensures Advance(kind, LocalAt(c, kind, a, n), k) == LocalAt(c, kind, a, n + k)
  {
    hide Setup, SrcOf, DstOf, Lo, AddW, At, Chunk, RoundCost, Count, Rounds, Bytes, Els;
    Basics(kind, a, base, forward);
    Inside(kind, a, base, forward, n); Inside(kind, a, base, forward, n + k);
    BytesUpTo(kind, n, n + k); BytesUpTo(kind, k, k);
    if kind.FastFill? { StepFill(c, kind, a, base, forward, n, k); } else { StepCopy(c, kind, a, base, forward, n, k); }
    AddWIs(DstOf(kind, a) + Bytes(kind, n), Bytes(kind, k));
    if !kind.FastFill? { AddWIs(SrcOf(kind, a) + Bytes(kind, n), Bytes(kind, k)); }
  }
  lemma StepFill(c: Waits, kind: Kind, a: Cpu, base: Bus, forward: bool, n: nat, k: nat)
    requires Setup(kind, a, base, forward) && k > 0 && n + k <= Rounds(kind, a) && kind.FastFill?
    ensures Chunk(kind, LocalAt(c, kind, a, n), At(kind, a, base, n), k, forward) == Some(At(kind, a, base, n + k))
  {
    hide Valid, Framed, Undisturbed, Unfed, SrcHost, Lo, SrcOf, DstOf, Aligned, Region, Rounds, AfterRounds, FillWord,
         Stacked, RoundCost, AddW, SystemCpsr, FillChunk, Count, SubW, Setup;
    Basics(kind, a, base, forward);
    Inside(kind, a, base, forward, n); Inside(kind, a, base, forward, n + k);
    FillRounds(kind, a, Stacked(a, base), FillWord(a, base), n, k);
    AddWIs(DstOf(kind, a) + Bytes(kind, n), Bytes(kind, k));
  }
  lemma StepCopy(c: Waits, kind: Kind, a: Cpu, base: Bus, forward: bool, n: nat, k: nat)
    requires Setup(kind, a, base, forward) && k > 0 && n + k <= Rounds(kind, a) && !kind.FastFill?
    ensures Chunk(kind, LocalAt(c, kind, a, n), At(kind, a, base, n), k, forward) == Some(At(kind, a, base, n + k))
  {
    hide Valid, Framed, Undisturbed, Unfed, SrcHost, Lo, SrcOf, DstOf, Aligned, Region, Rounds, AfterRounds, FillWord,
         Stacked, RoundCost, AddW, SystemCpsr, CopyChunk, Count, SubW, Setup, Load, FromLe, HalfOf;
    Basics(kind, a, base, forward);
    Inside(kind, a, base, forward, n); Inside(kind, a, base, forward, n + k);
    CopyRounds(kind, a, base, Stacked(a, base), FillWord(a, base), n, k, forward);
    AddWIs(SrcOf(kind, a) + Bytes(kind, n), Bytes(kind, k));
  }

  // ---- leaving ---------------------------------------------------------------------------

  /** What the caller sees: r0 and r1, everything else restored, the copy made, dead stack words
      written. */
  function Finished(kind: Kind, a: Cpu, base: Bus): Machine
    requires Framed(a) && Valid(base) && Count(a) > 0
  {
    var n := Rounds(kind, a);
    SomeRounds(kind, a);
    var bus := AfterRounds(kind, a, base, FillWord(a, base), n);
    var src, dst := SrcOf(kind, a), DstOf(kind, a);
    Machine(a.(r0 := match kind
                 case FastCopy => Lo(src + Bytes(kind, n))
                 case WordCopy => FromLe(LastEl(kind, a, bus, n))
                 case _ => a.r0,
               r1 := if kind.FastFill? then Lo(dst + Bytes(kind, n)) else SubW(dst, src),
               pc := a.lrSvc - a.lrSvc % 2, cpsr := a.spsr),
            Stacked(a, bus))
  }

  lemma StackStays(kind: Kind, a: Cpu, base: Bus, v: Word)
    requires Framed(a) && Valid(base) && Undisturbed(kind, a, base, SvcFrame(a))
    requires Undisturbed(kind, a, base, UsrFrame(a))
    ensures var n := Rounds(kind, a);
      AfterRounds(kind, a, Stacked(a, base), v, n) == Stacked(a, AfterRounds(kind, a, base, v, n))
  {
    var b1 := PatchBus(base, SvcFrame(a));
    RoundsPatch(kind, a, base, SvcFrame(a), v, Rounds(kind, a));
    StillUndisturbed(kind, a, base, b1, UsrFrame(a));
    RoundsPatch(kind, a, b1, UsrFrame(a), v, Rounds(kind, a));
    hide PatchBus, SvcFrame, UsrFrame, AfterRounds, Undisturbed, Framed;
  }
  lemma Pops(a: Cpu, b: Bus)
    requires Framed(a) && Valid(b)
    ensures var s := Stacked(a, b);
      FromLe(Load(s, a.spUsr - 16, 4)) == a.r4 && FromLe(Load(s, a.spUsr - 12, 4)) == a.r2
      && FromLe(Load(s, a.spUsr - 8, 4)) == a.r3 && FromLe(Load(s, a.spUsr - 4, 4)) == a.lrUsr
      && FromLe(Load(s, a.spSvc - 16, 4)) == a.spsr && FromLe(Load(s, a.spSvc - 12, 4)) == a.r11
      && FromLe(Load(s, a.spSvc - 8, 4)) == a.r12 && FromLe(Load(s, a.spSvc - 4, 4)) == a.lrSvc
  {
    hide PatchBus, RamHost, Frame, Load, FromLe, Valid;
    FramesApart(a);
    PopFrame(PatchBus(b, SvcFrame(a)), a.spUsr - 16, a.r4, a.r2, a.r3, a.lrUsr);
    PopFrame(PatchBus(b, UsrFrame(a)), a.spSvc - 16, a.spsr, a.r11, a.r12, a.lrSvc);
    PatchSwap(b, SvcFrame(a), UsrFrame(a));
  }
  lemma FramesApart(a: Cpu)
    requires Framed(a)
    ensures SvcFrame(a).Keys !! UsrFrame(a).Keys
  { hide RamHost; }

  lemma FinishAt(kind: Kind, a: Cpu, base: Bus, forward: bool)
    requires Setup(kind, a, base, forward)
    ensures Sane(At(kind, a, base, Rounds(kind, a)))
    ensures Epilogue(At(kind, a, base, Rounds(kind, a))) == Finished(kind, a, base)
  {
    hide Setup, SrcOf, DstOf, Lo, SubW, Load, FromLe, LastEl, AfterRounds, Stacked, Bytes, Rounds, FillWord, SystemCpsr,
         HalfOf, Valid, Undisturbed, RamHost, Frame, SvcFrame, UsrFrame;
    Basics(kind, a, base, forward); SomeRounds(kind, a);
    var v, n := FillWord(a, base), Rounds(kind, a);
    var bus := AfterRounds(kind, a, base, v, n);
    StackStays(kind, a, base, v);
    Pops(a, bus);
    if !kind.FastFill? { LastStacked(kind, a, base, bus, n); }
  }
  lemma LastStacked(kind: Kind, a: Cpu, base: Bus, b: Bus, n: nat)
    requires Framed(a) && Valid(base) && Valid(b) && b.pages == base.pages && 0 < n <= Rounds(kind, a)
    requires !kind.FastFill?
    requires Undisturbed(kind, a, base, SvcFrame(a)) && Undisturbed(kind, a, base, UsrFrame(a))
    ensures LastEl(kind, a, Stacked(a, b), n) == LastEl(kind, a, b, n)
  {
    LastPatch(kind, a, base, SvcFrame(a), b, n);
    LastPatch(kind, a, base, UsrFrame(a), PatchBus(b, SvcFrame(a)), n);
    hide LastEl, PatchBus, Undisturbed, Framed, Valid, SvcFrame, UsrFrame;
  }

  // ---- one engine call --------------------------------------------------------------------

  lemma RegionOf(x: Word, lo: Word, hi: Word)
    requires lo <= x <= hi && Region(lo) == Region(hi)
    ensures Region(x) == Region(lo)
  {}
  lemma RegionLow(x: Word) requires x < 0x0F00_0000 ensures Region(x) < 0xF {}
  lemma Offset(src: Word, dst: Word, n: nat)
    requires src + n < 0x1_0000_0000 && dst + n < 0x1_0000_0000
    ensures AddW(src + n, SubW(dst, src)) == dst + n && AddW(SubW(dst, src), src + n) == dst + n
  {}
  lemma AlignedOn(kind: Kind, x: nat, n: nat)
    requires Aligned(x, Wd(kind))
    ensures Aligned(x + Bytes(kind, n), Wd(kind))
  {
    if kind.HalfCopy? { ModUnique(x + 2 * n, 2, x / 2 + n, 0); }
    else if kind.Fast() { ModUnique(x + 32 * n, 4, x / 4 + 8 * n, 0); } else { ModUnique(x + 4 * n, 4, x / 4 + n, 0); }
  }
  lemma LeftOver(kind: Kind, a: Cpu, n: nat)
    requires n <= Rounds(kind, a)
    ensures Count(a) - Els(kind, n) > 0 <==> n < Rounds(kind, a)
    ensures n < Rounds(kind, a) ==> LeftRounds(kind, Count(a) - Els(kind, n)) == Rounds(kind, a) - n
    ensures n < Rounds(kind, a) ==> Signed(Lo(Count(a) - Els(kind, n))) == Count(a) - Els(kind, n)
  { assert Count(a) < 0x20_0000; hide Count; if n < Rounds(kind, a) { LoIs(Count(a) - Els(kind, n)); } hide Lo; }
  lemma HalfLeft(src: Word, count: nat, n: nat)
    requires n <= count && src + 2 * count < 0x1_0000_0000
    ensures SubW(src + 2 * count, src + 2 * n) / 2 == count - n
  {}
  lemma SameRegions(c: Waits, kind: Kind, a: Cpu, base: Bus, forward: bool, n: nat)
    requires Setup(kind, a, base, forward) && n < Rounds(kind, a)
    ensures RoundCost(c, kind, LocalAt(c, kind, a, n).src, LocalAt(c, kind, a, n).dst) == LocalAt(c, kind, a, n).cost
    ensures var l := LocalAt(c, kind, a, n);
      Region(l.dst) < 0xF && Aligned(l.dst, Wd(kind)) && Aligned(l.src, Wd(kind))
  {
    hide Framed, Valid, Undisturbed, Unfed, SrcHost, SrcOf, DstOf, Aligned, Rounds, Bytes, Lo, Els, Region, Wd;
    Inside(kind, a, base, forward, n);
    BytesUpTo(kind, n, Rounds(kind, a)); BytesUpTo(kind, Rounds(kind, a) - n, Rounds(kind, a) - n);
    var src, dst, len := SrcOf(kind, a), DstOf(kind, a), Bytes(kind, Rounds(kind, a));
    Widths(kind);
    RegionIs(dst + len - 1);
    RegionOf(dst + Bytes(kind, n), dst, dst + len - 1); RegionLow(dst + Bytes(kind, n));
    AlignedOn(kind, dst, n); AlignedOn(kind, src, n);
    if !kind.FastFill? { RegionIs(src + len - 1); RegionOf(src + Bytes(kind, n), src, src + len - 1); }
  }
  lemma RegionIs(x: Word) ensures Region(x) == x / 0x100_0000 {}
  lemma Widths(kind: Kind) ensures Wd(kind) >= 2 {}

  /** Re-entry recomputes the engine's locals from the registers alone. */
  lemma EnterAt(c: Waits, kind: Kind, a: Cpu, base: Bus, remaining: int, env: seq<Event>, handoff: nat, forward: bool,
                n: nat)
    requires Setup(kind, a, base, forward) && n < Rounds(kind, a) && c.S0() > 0
    ensures Sane(At(kind, a, base, n)) && LocalAt(c, kind, a, n).cost > 0
    ensures Enter(c, kind, At(kind, a, base, n), remaining, env, handoff, forward)
      == Loop(c, kind, LocalAt(c, kind, a, n), At(kind, a, base, n), remaining - handoff, env, forward)
  {
    hide Setup, Framed, Valid, Loop, SrcOf, DstOf, Lo, AddW, SubW, RoundCost, Count, AfterRounds, FillWord, Stacked,
         Aligned, Region, SystemCpsr, LastEl, FromLe, HalfOf, Load, Signed, Rounds, Bytes, Els;
    SameRegions(c, kind, a, base, forward, n);
    Basics(kind, a, base, forward); Inside(kind, a, base, forward, n);
    LeftOver(kind, a, n); CostPositive(c, kind, SrcOf(kind, a), DstOf(kind, a));
    var l, m := LocalAt(c, kind, a, n), At(kind, a, base, n).cpu;
    match kind
    case FastFill => Shape(kind, n);
    case FastCopy => Shape(kind, n); Offset(SrcOf(kind, a), DstOf(kind, a), Bytes(kind, n));
    case WordCopy => Shape(kind, n); Offset(SrcOf(kind, a), DstOf(kind, a), Bytes(kind, n));
    case HalfCopy =>
      Shape(kind, n); Offset(SrcOf(kind, a), DstOf(kind, a), Bytes(kind, n));
      Inside(kind, a, base, forward, Rounds(kind, a)); Shape(kind, Rounds(kind, a));
      RoundsHalf(kind, a);
      HalfLeft(SrcOf(kind, a), Count(a), n);
  }
  lemma Shape(kind: Kind, n: nat)
    ensures kind.Fast() ==> Els(kind, n) == 8 * n && Bytes(kind, n) == 32 * n
    ensures kind.WordCopy? ==> Els(kind, n) == n && Bytes(kind, n) == 4 * n
    ensures kind.HalfCopy? ==> Els(kind, n) == n && Bytes(kind, n) == 2 * n
  {}
  lemma RoundsHalf(kind: Kind, a: Cpu) requires kind.HalfCopy? ensures Rounds(kind, a) == Count(a) {}
  lemma CostPositive(c: Waits, kind: Kind, src: Word, dst: Word)
    requires c.S0() > 0
    ensures RoundCost(c, kind, src, dst) > 0
  {}

  function PatchAll(b: Bus, env: seq<Event>): (b': Bus)
    requires Valid(b)
    ensures Valid(b') && b'.pages == b.pages && |b'.mem| == |b.mem|
    decreases |env|
  { if env == [] then b else PatchAll(PatchBus(b, env[0].writes), env[1..]) }

  lemma {:induction false} PatchAppend(b: Bus, x: seq<Event>, y: seq<Event>)
    requires Valid(b)
    ensures PatchAll(b, x + y) == PatchAll(PatchAll(b, x), y)
    decreases |x|
  {
    hide PatchBus, Valid;
    if x == [] { assert x + y == y; }
    else { assert (x + y)[1..] == x[1..] + y; PatchAppend(PatchBus(b, x[0].writes), x[1..], y); }
  }

  ghost predicate AllQuiet(kind: Kind, a: Cpu, base: Bus, env: seq<Event>)
    requires Framed(a)
  { forall i :: 0 <= i < |env| ==> Quiet(kind, a, base, env[i]) }

  lemma SetupAfter(kind: Kind, a: Cpu, base: Bus, base': Bus, forward: bool, env: seq<Event>)
    requires Setup(kind, a, base, forward) && Valid(base') && base'.pages == base.pages
    ensures Setup(kind, a, base', forward)
    ensures AllQuiet(kind, a, base, env) ==> AllQuiet(kind, a, base', env)
  {
    hide Valid, Framed, Unfed, SrcHost, SrcOf, DstOf, Aligned, Region, Rounds, Bytes, Clear, Wd;
    forall i | 0 <= i < |env| && AllQuiet(kind, a, base, env) ensures Quiet(kind, a, base', env[i]) {
      assert Quiet(kind, a, base, env[i]);
    }
  }
  lemma QuietTail(kind: Kind, a: Cpu, base: Bus, env: seq<Event>, k: nat)
    requires Framed(a) && AllQuiet(kind, a, base, env) && k <= |env|
    ensures AllQuiet(kind, a, base, env[k..]) && (k < |env| ==> Quiet(kind, a, base, env[k]))
  { hide Quiet; }

  predicate Positive(env: seq<Event>) { forall i :: 0 <= i < |env| ==> env[i].budget > 0 }

  /** Cycles still owed for rounds n.. and the exit. */
  function Owed(c: Waits, kind: Kind, a: Cpu, n: nat): int
    requires n <= Rounds(kind, a) && a.spUsr >= 16
  {
    Times(Rounds(kind, a) - n, RoundCost(c, kind, SrcOf(kind, a), DstOf(kind, a)))
    + ExitCost(c, Region(a.spUsr - 16)) - Refund(c, kind)
  }

  /** What an engine call from the state after n rounds leaves: a parked loop-top state after n'
      rounds, or the finished call, with the cycles for exactly the rounds done. */
  ghost predicate Outcome(c: Waits, kind: Kind, a: Cpu, base: Bus, env: seq<Event>, remaining: int, n: nat, o: Out,
                          n': nat)
    requires Framed(a) && Valid(base) && Count(a) > 0 && n <= Rounds(kind, a) && o.used <= |env|
  {
    var base' := PatchAll(base, env[..o.used]);
    var debited := remaining + o.granted - o.remaining;
    n <= n' <= Rounds(kind, a)
    && match o.stop
       case Declined => false
       case Done => n' == Rounds(kind, a) && o.m == Finished(kind, a, base') && debited == Owed(c, kind, a, n)
       case Parked => n' < Rounds(kind, a) && o.m == At(kind, a, base', n') && debited == Owed(c, kind, a, n) - Owed(c,
           kind, a, n')
  }

  lemma {:induction false} LoopFrom(c: Waits, kind: Kind, a: Cpu, base: Bus, remaining: int, env: seq<Event>,
                                    forward: bool, n: nat)
      returns (n': nat)
    requires Setup(kind, a, base, forward) && n <= Rounds(kind, a) && c.S0() > 0 && AllQuiet(kind, a, base, env)
    ensures Sane(At(kind, a, base, n)) && LocalAt(c, kind, a, n).cost > 0
    ensures Outcome(c, kind, a, base, env, remaining, n,
                    Loop(c, kind, LocalAt(c, kind, a, n), At(kind, a, base, n), remaining, env, forward), n')
    ensures var o := Loop(c, kind, LocalAt(c, kind, a, n), At(kind, a, base, n), remaining, env, forward);
      Positive(env) && o.stop == Parked ==> n' >= n + o.used + (if remaining > 0 then 1 else 0)
    decreases |env|, Rounds(kind, a) - n, 1
  {
    hide Setup, Framed, Valid, At, Finished, SrcOf, DstOf, RoundCost, Rounds, Els, Chunk, Advance, Epilogue, ExitCost,
         Refund, PatchBus, LeftRounds, Fit, Times, Quiet, Count, Region;
    Basics(kind, a, base, forward);
    CostPositive(c, kind, SrcOf(kind, a), DstOf(kind, a));
    LeftOver(kind, a, n);
    var l, m := LocalAt(c, kind, a, n), At(kind, a, base, n);
    SaneAt(kind, a, base, n);
    if n == Rounds(kind, a) {
      FinishAt(kind, a, base, forward);
      n' := n;
      TimesZero(l.cost);
    } else if remaining <= 0 {
      if env == [] || !env[0].stay { n' := n; }
      else { n' := LoopWaits(c, kind, a, base, remaining, env, forward, n); }
    } else { n' := LoopSteps(c, kind, a, base, remaining, env, forward, n); }
  }
  lemma TimesZero(cost: nat) ensures Times(0, cost) == 0 {}
  lemma SaneAt(kind: Kind, a: Cpu, base: Bus, n: nat)
    requires Framed(a) && Valid(base)
    ensures Sane(At(kind, a, base, n)) && At(kind, a, base, n).cpu.spUsr == a.spUsr - 16
  { hide Valid, AfterRounds, Stacked, RamHost, LastEl, FromLe, FillWord; }

  lemma {:induction false} LoopWaits(c: Waits, kind: Kind, a: Cpu, base: Bus, remaining: int, env: seq<Event>,
                                     forward: bool, n: nat)
      returns (n': nat)
    requires Setup(kind, a, base, forward) && n < Rounds(kind, a) && c.S0() > 0 && AllQuiet(kind, a, base, env)
    requires remaining <= 0 && env != [] && env[0].stay
    ensures Sane(At(kind, a, base, n)) && LocalAt(c, kind, a, n).cost > 0
    ensures Outcome(c, kind, a, base, env, remaining, n,
                    Loop(c, kind, LocalAt(c, kind, a, n), At(kind, a, base, n), remaining, env, forward), n')
    ensures var o := Loop(c, kind, LocalAt(c, kind, a, n), At(kind, a, base, n), remaining, env, forward);
      Positive(env) && o.stop == Parked ==> n' >= n + o.used
    decreases |env|, Rounds(kind, a) - n, 0
  {
    hide Setup, Framed, Valid, At, Finished, SrcOf, DstOf, RoundCost, Rounds, Els, Chunk, Advance, Epilogue, ExitCost,
         Refund, PatchBus, LeftRounds, Fit, Times, Quiet, Count, Region, Owed, PatchM;
    Basics(kind, a, base, forward);
    CostPositive(c, kind, SrcOf(kind, a), DstOf(kind, a));
    LeftOver(kind, a, n); SaneAt(kind, a, base, n);
    QuietTail(kind, a, base, env, 0); QuietTail(kind, a, base, env, 1);
    PatchAt(kind, a, base, env[0], n);
    var base1 := PatchBus(base, env[0].writes);
    SetupAfter(kind, a, base, base1, forward, env[1..]);
    n' := LoopFrom(c, kind, a, base1, env[0].budget, env[1..], forward, n);
    var o1 := Loop(c, kind, LocalAt(c, kind, a, n), At(kind, a, base1, n), env[0].budget, env[1..], forward);
    PrefixStep(base, env, o1.used);
  }
  lemma PrefixStep(base: Bus, env: seq<Event>, u: nat)
    requires Valid(base) && env != [] && u <= |env| - 1
    ensures PatchAll(base, env[..u + 1]) == PatchAll(PatchBus(base, env[0].writes), env[1..][..u])
  { assert env[..u + 1][1..] == env[1..][..u]; hide PatchBus, Valid; }

  lemma {:induction false} LoopSteps(c: Waits, kind: Kind, a: Cpu, base: Bus, remaining: int, env: seq<Event>,
                                     forward: bool, n: nat)
      returns (n': nat)
    requires Setup(kind, a, base, forward) && n < Rounds(kind, a) && c.S0() > 0 && AllQuiet(kind, a, base, env)
    requires remaining > 0
    ensures Sane(At(kind, a, base, n)) && LocalAt(c, kind, a, n).cost > 0
    ensures Outcome(c, kind, a, base, env, remaining, n,
                    Loop(c, kind, LocalAt(c, kind, a, n), At(kind, a, base, n), remaining, env, forward), n')
    ensures var o := Loop(c, kind, LocalAt(c, kind, a, n), At(kind, a, base, n), remaining, env, forward);
      Positive(env) && o.stop == Parked ==> n' >= n + o.used + 1
    decreases |env|, Rounds(kind, a) - n, 0
  {
    hide Setup, Framed, Valid, At, Finished, SrcOf, DstOf, RoundCost, Rounds, Els, Chunk, Advance, Epilogue, ExitCost,
         Refund, PatchBus, LeftRounds, Fit, Times, Quiet, Count, Region, Owed, PatchM;
    Basics(kind, a, base, forward);
    CostPositive(c, kind, SrcOf(kind, a), DstOf(kind, a));
    LeftOver(kind, a, n); SaneAt(kind, a, base, n);
    var k := Fit(kind, LocalAt(c, kind, a, n), remaining);
    LeftIs(c, kind, a, n);
    StepAt(c, kind, a, base, forward, n, k);
    n' := LoopFrom(c, kind, a, base, remaining - Times(k, LocalAt(c, kind, a, n).cost), env, forward, n + k);
    OwedStep(c, kind, a, n, k);
  }
  lemma LeftIs(c: Waits, kind: Kind, a: Cpu, n: nat)
    ensures LocalAt(c, kind, a, n).left == Count(a) - Els(kind, n)
    ensures LocalAt(c, kind, a, n).cost == RoundCost(c, kind, SrcOf(kind, a), DstOf(kind, a))
  {}
  lemma OwedStep(c: Waits, kind: Kind, a: Cpu, n: nat, k: nat)
    requires n + k <= Rounds(kind, a) && a.spUsr >= 16
    ensures Owed(c, kind, a, n)
      == Times(k, RoundCost(c, kind, SrcOf(kind, a), DstOf(kind, a))) + Owed(c, kind, a, n + k)
  {
    hide Times, RoundCost, Rounds;
    TimesAdd(k, Rounds(kind, a) - n - k, RoundCost(c, kind, SrcOf(kind, a), DstOf(kind, a)));
  }

  // ---- all engine calls of one SWI ----------------------------------------------------------

  /** However the call is sliced, it is parked at a canonical state or finished, and the cycles
      debited are those of the rounds done. With positive budgets every slice makes progress. */
  lemma {:induction false} WholeFrom(c: Waits, kind: Kind, a: Cpu, base: Bus, remaining: int, env: seq<Event>,
                                     handoff: nat, forward: bool, n: nat)
      returns (n': nat)
    requires Setup(kind, a, base, forward) && n < Rounds(kind, a) && c.S0() > 0 && AllQuiet(kind, a, base, env)
    ensures Sane(At(kind, a, base, n))
    ensures Outcome(c, kind, a, base, env, remaining - handoff, n,
                    Whole(c, kind, At(kind, a, base, n), remaining, env, handoff, forward), n')
    ensures var o := Whole(c, kind, At(kind, a, base, n), remaining, env, handoff, forward);
      o.stop == Parked && Positive(env) ==> n' >= n + |env| + (if remaining > handoff then 1 else 0)
    decreases |env|
  {
    hide Setup, Framed, Valid, At, Finished, SrcOf, DstOf, RoundCost, Rounds, Loop, ExitCost, Refund, PatchBus, Enter,
         LocalAt, Times, Quiet, Count, Region, Owed, PatchM, AllQuiet;
    Basics(kind, a, base, forward); SaneAt(kind, a, base, n);
    EnterAt(c, kind, a, base, remaining, env, handoff, forward, n);
    var n1 := LoopFrom(c, kind, a, base, remaining - handoff, env, forward, n);
    var o := Enter(c, kind, At(kind, a, base, n), remaining, env, handoff, forward);
    n' := n1;
    if o.stop == Parked && o.used < |env| {
      n' := WholeResumes(c, kind, a, base, remaining, env, handoff, forward, n, n1, o);
    }
  }

  lemma {:induction false} WholeResumes(c: Waits, kind: Kind, a: Cpu, base: Bus, remaining: int, env: seq<Event>,
                                        handoff: nat,
                                        forward: bool, n: nat, n1: nat, o: Out) returns (n': nat)
    requires Setup(kind, a, base, forward) && n < Rounds(kind, a) && c.S0() > 0 && AllQuiet(kind, a, base, env)
    requires Sane(At(kind, a, base, n)) && o == Enter(c, kind, At(kind, a, base, n), remaining, env, handoff, forward)
    requires o.stop == Parked && o.used < |env|
    requires Outcome(c, kind, a, base, env, remaining - handoff, n, o, n1)
    requires Positive(env) ==> n1 >= n + o.used + (if remaining > handoff then 1 else 0)
    ensures Outcome(c, kind, a, base, env, remaining - handoff, n,
                    Whole(c, kind, At(kind, a, base, n), remaining, env, handoff, forward), n')
    ensures Whole(c, kind, At(kind, a, base, n), remaining, env, handoff, forward).stop == Parked && Positive(env) ==>
      n' >= n + |env| + (if remaining > handoff then 1 else 0)
    decreases |env|, 0
  {
    hide Setup, Framed, Valid, At, Finished, Rounds, PatchBus, Enter, Quiet, Count, Owed, AllQuiet, Whole;
    var e, rest := env[o.used], env[o.used + 1..];
    Basics(kind, a, base, forward);
    var base1 := PatchAll(base, env[..o.used]);
    var base2 := PatchBus(base1, e.writes);
    QuietTail(kind, a, base, env, o.used); QuietTail(kind, a, base, env, o.used + 1);
    SetupAfter(kind, a, base, base1, forward, [e]); SetupAfter(kind, a, base, base2, forward, rest);
    QuietOne(kind, a, base, base1, e, forward);
    PatchAt(kind, a, base1, e, n1);
    SaneAt(kind, a, base2, n1);
    n' := WholeFrom(c, kind, a, base2, e.budget, rest, 0, forward, n1);
    WholeUnfold(c, kind, At(kind, a, base, n), remaining, env, handoff, forward, o);
    SplitAt(base, env, o.used, Whole(c, kind, At(kind, a, base2, n1), e.budget, rest, 0, forward).used);
  }
  lemma WholeUnfold(c: Waits, kind: Kind, m: Machine, remaining: int, env: seq<Event>, handoff: nat, forward: bool,
                    o: Out)
    requires Sane(m) && c.S0() > 0 && o == Enter(c, kind, m, remaining, env, handoff, forward) && o.stop == Parked
    requires o.used < |env|
    ensures var e := env[o.used];
      var r := Whole(c, kind, PatchM(o.m, e.writes), e.budget, env[o.used + 1..], 0, forward);
      Whole(c, kind, m, remaining, env, handoff, forward)
      == r.(granted := o.granted + (e.budget - o.remaining) + r.granted, used := o.used + 1 + r.used)
  { hide Enter, PatchBus, Valid; }
  lemma QuietOne(kind: Kind, a: Cpu, base: Bus, base': Bus, e: Event, forward: bool)
    requires Setup(kind, a, base, forward) && Valid(base') && base'.pages == base.pages && Quiet(kind, a, base, e)
    ensures Framed(a) && Quiet(kind, a, base', e)
  { Basics(kind, a, base, forward); hide Setup, Framed, Valid, SrcOf, DstOf, Rounds, Bytes, Clear; }
  lemma SplitAt(base: Bus, env: seq<Event>, u: nat, r: nat)
    requires Valid(base) && u + 1 + r <= |env|
    ensures PatchAll(base, env[..u + 1 + r])
      == PatchAll(PatchBus(PatchAll(base, env[..u]), env[u].writes), env[u + 1..][..r])
  {
    hide PatchBus, Valid;
    var rest := env[u..u + 1 + r];
    assert env[..u] + rest == env[..u + 1 + r];
    PatchAppend(base, env[..u], rest);
    assert rest[1..] == env[u + 1..][..r];
  }
}
