/** The engines as the runtime has them: registers and memory changed step by step. */
module SwiEngine {
  import opened Words
  import opened Sh4
  import opened GuestBus
  import opened Chunks
  import opened Swi

  class Gba {
    var cpu: Cpu
    var bus: Bus

    ghost predicate Ready() reads this { Valid(bus) && cpu.spUsr + 16 <= 0xFFFF_FFFF && cpu.spSvc + 16 <= 0xFFFF_FFFF }
    function View(): Machine reads this { Machine(cpu, bus) }

    method Push(sp: nat, w0: Word, w1: Word, w2: Word, w3: Word)
      requires Valid(bus) && sp >= 16
      modifies this`bus
      ensures bus == Push4(old(bus), sp, w0, w1, w2, w3) && Valid(bus)
    {
      bus := Store(bus, sp - 4, Le(w3));
      bus := Store(bus, sp - 8, Le(w2));
      bus := Store(bus, sp - 12, Le(w1));
      bus := Store(bus, sp - 16, Le(w0));
    }

    /** cgba_swi_fastset_materialize, cgba_swi_cpuset_materialize. */
    method Begin(kind: Kind)
      requires Valid(bus) && cpu.spSvc >= 16 && cpu.spUsr >= 16
      modifies this
      ensures View() == Materialize(kind, old(View()))
    {
      hide Push4, Valid, Load, FromLe, SubW, Lo, SystemCpsr;
      var a := cpu;
      Push(a.spSvc, a.spsr, a.r11, a.r12, a.lrSvc);
      cpu := cpu.(spSvc := a.spSvc - 16, cpsr := SystemCpsr(a.spsr));
      Push(a.spUsr, a.r4, a.r2, a.r3, a.lrUsr);
      cpu := cpu.(spUsr := a.spUsr - 16, lrUsr := 0x94, r11 := SystemCpsr(a.spsr), pc := LoopPc(kind));
      var src, dst := SrcOf(kind, a), DstOf(kind, a);
      match kind {
        case FastCopy => cpu := cpu.(r4 := Count(a), r3 := src, r1 := SubW(dst, src), r12 := 0x0EFF_FFFF);
        case FastFill => cpu := cpu.(r4 := Count(a), r3 := src, r2 := FromLe(Load(bus, src, 4)), r1 := dst,
            r12 := 0x720);
        case WordCopy => cpu := cpu.(r2 := src, r1 := SubW(dst, src), r3 := Count(a), r12 := 0x0EFF_FFFF);
        case HalfCopy => cpu := cpu.(r2 := src, r3 := Lo(src + 2 * Count(a)), r1 := SubW(dst, src), r4 := 0x0EFF_FFFF);
      }
    }

    /** Fill n words, at host speed when the range is linear. */
    method Fill(dst: nat, v: Word, n: nat)
      requires Valid(bus)
      modifies this`bus
      ensures bus == FillChunk(old(bus), dst, v, n) && Valid(bus)
    {
      if n > 0 && RamHost(dst, 4 * n).Some? {
        RamSub(dst, 4 * n, 0, 4 * n);
        HostFill(RamHost(dst, 4 * n).value, Le(v), n);
      } else {
        EachFill(dst, Le(v), n);
      }
    }
    method HostFill(d: nat, v: seq<Byte>, n: nat)
      requires Valid(bus) && |v| == 4 && d + 4 * n <= |bus.mem|
      modifies this`bus
      ensures bus == old(bus).(mem := FillHost(old(bus.mem), d, v, n)) && Valid(bus)
    {
      hide Put;
      var i := 0;
      while i < n
        invariant i <= n && bus == old(bus).(mem := bus.mem) && |bus.mem| == |old(bus.mem)|
        invariant FillHost(old(bus.mem), d, v, n) == FillHost(bus.mem, d + 4 * i, v, n - i)
      {
        PutLen(bus.mem, d + 4 * i, v);
        bus := bus.(mem := Put(bus.mem, d + 4 * i, v));
        i := i + 1;
      }
    }
    method EachFill(dst: nat, v: seq<Byte>, n: nat)
      requires Valid(bus) && |v| == 4
      modifies this`bus
      ensures bus == FillEls(old(bus), dst, v, n) && Valid(bus)
    {
      hide Valid, Store;
      var i := 0;
      while i < n
        invariant i <= n && Valid(bus)
        invariant FillEls(old(bus), dst, v, n) == FillEls(bus, dst + 4 * i, v, n - i)
      {
        bus := Store(bus, dst + 4 * i, v);
        i := i + 1;
      }
    }

    /** Copy n elements; false when the source does not resolve. */
    method Copy(src: nat, dst: nat, w: Width, n: nat, forward: bool) returns (ok: bool)
      requires Valid(bus) && n > 0
      modifies this`bus
      ensures Valid(bus)
      ensures ok == CopyChunk(old(bus), src, dst, w, n, forward).Some?
      ensures bus == if ok then CopyChunk(old(bus), src, dst, w, n, forward).value else old(bus)
    {
      var len := Len(n, w);
      var sh := SrcHost(bus.pages, src, len);
      if sh.None? { return false; }
      SrcSub(bus, src, len, 0, len);
      var s := sh.value;
      var dh := RamHost(dst, len);
      if dh.Some? {
        RamSub(dst, len, 0, len);
        var d := dh.value;
        if forward && s < d < s + len { HostCopy(s, d, w, n); }
        else { bus := bus.(mem := PutEl(bus.mem, s, d, len)); }
      } else {
        EachCopy(s, dst, w, n);
      }
      return true;
    }
    method HostCopy(s: nat, d: nat, w: Width, n: nat)
      requires Valid(bus) && s + Len(n, w) <= |bus.mem| && d + Len(n, w) <= |bus.mem|
      modifies this`bus
      ensures bus == old(bus).(mem := CopyForward(old(bus.mem), s, d, w, n)) && Valid(bus)
    {
      hide PutEl;
      var i := 0;
      while i < n
        invariant i <= n && bus == old(bus).(mem := bus.mem) && |bus.mem| == |old(bus.mem)|
        invariant CopyForward(old(bus.mem), s, d, w, n) == CopyForward(bus.mem, s + Len(i, w), d + Len(i, w), w, n - i)
      {
        bus := bus.(mem := PutEl(bus.mem, s + Len(i, w), d + Len(i, w), w));
        i := i + 1;
      }
    }
    method EachCopy(s: nat, dst: nat, w: Width, n: nat)
      requires Valid(bus) && s + Len(n, w) <= |bus.mem|
      modifies this`bus
      ensures bus == StoreEach(old(bus), s, dst, w, n) && Valid(bus)
    {
      hide Valid, Store;
      var i := 0;
      while i < n
        invariant i <= n && Valid(bus) && |bus.mem| == |old(bus.mem)|
        invariant StoreEach(old(bus), s, dst, w, n) == StoreEach(bus, s + Len(i, w), dst + Len(i, w), w, n - i)
      {
        var x := s + Len(i, w);
        bus := Store(bus, dst + Len(i, w), bus.mem[x..x + w]);
        i := i + 1;
      }
    }

    /** k rounds of the loop body at the engine's locals; false declines. */
    method RunChunk(kind: Kind, l: Local, k: nat, forward: bool) returns (ok: bool)
      requires Valid(bus) && k > 0
      modifies this
      ensures ok == Chunk(kind, l, old(View()), k, forward).Some?
      ensures View() == if ok then Chunk(kind, l, old(View()), k, forward).value else old(View())
    {
      hide CopyChunk, FillChunk, Valid, Load, FromLe, Lo, AddW, HalfOf;
      var n := Bytes(kind, k);
      if kind.FastFill? {
        Fill(l.dst, cpu.r2, Els(kind, k));
        var to := AddW(l.dst, Lo(n));
        cpu := cpu.(r1 := to, r3 := to, r4 := Lo(l.left - 8 * k));
        return true;
      }
      ok := Copy(l.src, l.dst, Wd(kind), Els(kind, k), forward);
      if !ok { return; }
      var at := AddW(l.src, Lo(n));
      var last := Load(bus, l.src + n - Wd(kind), Wd(kind));
      match kind {
        case FastCopy => cpu := cpu.(r3 := at, r0 := at, r2 := FromLe(last), r4 := Lo(l.left - 8 * k));
        case WordCopy => cpu := cpu.(r2 := at, r3 := Lo(l.left - k), r0 := FromLe(last));
        case HalfCopy => cpu := cpu.(r2 := at, r12 := HalfOf(last));
      }
    }

    /** The pops of the shared epilogue. */
    method Leave()
      requires Ready()
      modifies this
      ensures View() == Epilogue(old(View()))
    {
      hide Valid, Load, FromLe;
      var a := cpu;
      cpu := cpu.(r4 := FromLe(Load(bus, a.spUsr, 4)), r2 := FromLe(Load(bus, a.spUsr + 4, 4)),
                  r3 := FromLe(Load(bus, a.spUsr + 8, 4)), lrUsr := FromLe(Load(bus, a.spUsr + 12,
                      4)), spUsr := a.spUsr + 16);
      var spsr := FromLe(Load(bus, a.spSvc, 4));
      var lr := FromLe(Load(bus, a.spSvc + 12, 4));
      cpu := cpu.(r11 := FromLe(Load(bus, a.spSvc + 4, 4)), r12 := FromLe(Load(bus, a.spSvc + 8, 4)), lrSvc := lr,
                  spSvc := a.spSvc + 16, spsr := spsr, pc := lr - lr % 2, cpsr := spsr);
    }

    /** The while loop of the engines. `env` is what update_gba does, call by call. */
    method Run(c: Waits, kind: Kind, l0: Local, budget: int, env: seq<Event>, forward: bool)
        returns (stop: Stop, remaining: int, granted: int, used: nat)
      requires Ready() && l0.cost > 0
      modifies this
      ensures Out(stop, View(), remaining, granted, used) == Loop(c, kind, l0, old(View()), budget, env, forward)
    {
      hide Valid, Chunk, Epilogue, Advance, Fit, PatchBus, ExitCost, Refund, Times, Loop, Region;
      var l := l0;
      remaining, granted, used := budget, 0, 0;
      while l.left > 0
        invariant Ready() && l.cost == l0.cost && used <= |env|
        invariant Loop(c, kind, l0, old(View()), budget, env, forward)
          == Shifted(Loop(c, kind, l, View(), remaining, env[used..], forward), granted, used)
        decreases |env| - used, if l.left > 0 then l.left else 0
      {
        LoopStep(c, kind, l, View(), remaining, env[used..], forward);
        if remaining <= 0 {
          if used == |env| || !env[used].stay { return Parked, remaining, granted, used; }
          bus := PatchBus(bus, env[used].writes);
          granted := granted + (env[used].budget - remaining);
          remaining := env[used].budget;
          used := used + 1;
        } else {
          var k := Fit(kind, l, remaining);
          var ok := RunChunk(kind, l, k, forward);
          if !ok { return Declined, remaining, granted, used; }
          Progress(kind, l, k);
          remaining := remaining - Times(k, l.cost);
          l := Advance(kind, l, k);
        }
      }
      LoopEnd(c, kind, l, View(), remaining, env[used..], forward);
      remaining := remaining - ExitCost(c, Region(cpu.spUsr)) + Refund(c, kind);
      Leave();
      return Done, remaining, granted, used;
    }

    /** cgba_swi_fastset_engine and cgba_swi_cpuset_engine: locals from the registers, declined
        unless they describe a loop top, then the loop. */
    method Engine(c: Waits, kind: Kind, budget: int, env: seq<Event>, handoff: nat, forward: bool)
        returns (stop: Stop, remaining: int, granted: int, used: nat)
      requires Ready() && c.S0() > 0
      modifies this
      ensures Out(stop, View(), remaining, granted, used)
        == Swi.Enter(c, kind, old(View()), budget, env, handoff, forward)
    {
      hide Valid, Loop, RoundCost, AddW, SubW, Signed, Region, Aligned;
      remaining := budget - handoff;
      var src, dst, left;
      match kind {
        case FastFill => src, dst, left := cpu.r1, cpu.r1, Signed(cpu.r4);
        case FastCopy => src, dst, left := cpu.r3, AddW(cpu.r3, cpu.r1), Signed(cpu.r4);
        case WordCopy => src, dst, left := cpu.r2, AddW(cpu.r1, cpu.r2), Signed(cpu.r3);
        case HalfCopy => src, dst, left := cpu.r2, AddW(cpu.r1, cpu.r2), SubW(cpu.r3, cpu.r2) / 2;
      }
      var canonical := if kind.FastFill? then cpu.r12 == 0x720 else if kind.HalfCopy? then cpu.r4 == 0x0EFF_FFFF else cpu.r12 == 0x0EFF_FFFF;
      if !canonical || left <= 0 || Region(dst) >= 0xF || !Aligned(dst, Wd(kind)) || !Aligned(src, Wd(kind)) {
        return Declined, remaining, 0, 0;
      }
      CostPositive(c, kind, src, dst);
      stop, remaining, granted, used := Run(c, kind, Local(src, dst, left, RoundCost(c, kind, src, dst)), remaining,
          env, forward);
    }
  }

  function Shifted(o: Out, granted: int, used: nat): Out { o.(granted := granted + o.granted, used := used + o.used) }
  lemma Progress(kind: Kind, l: Local, k: nat)
    requires k > 0
    ensures Advance(kind, l, k).left < l.left && Advance(kind, l, k).cost == l.cost
  {}
  lemma LoopEnd(c: Waits, kind: Kind, l: Local, m: Machine, remaining: int, env: seq<Event>, forward: bool)
    requires Sane(m) && l.cost > 0 && l.left <= 0
    ensures Loop(c, kind, l, m, remaining, env, forward)
      == Out(Done, Epilogue(m), remaining - ExitCost(c, Region(m.cpu.spUsr)) + Refund(c, kind), 0, 0)
  { hide Chunk, Valid, Epilogue; }
  /** One turn of the loop. */
  lemma LoopStep(c: Waits, kind: Kind, l: Local, m: Machine, remaining: int, env: seq<Event>, forward: bool)
    requires Sane(m) && l.cost > 0 && l.left > 0
    ensures remaining <= 0 && (env == [] || !env[0].stay) ==>
      Loop(c, kind, l, m, remaining, env, forward) == Out(Parked, m, remaining, 0, 0)
    ensures remaining <= 0 && env != [] && env[0].stay ==>
      Loop(c, kind, l, m, remaining, env, forward)
      == Shifted(Loop(c, kind, l, PatchM(m, env[0].writes), env[0].budget, env[1..], forward),
          env[0].budget - remaining, 1)
    ensures remaining > 0 ==>
      var k := Fit(kind, l, remaining); var m' := Chunk(kind, l, m, k, forward);
      Loop(c, kind, l, m, remaining, env, forward)
      == if m'.None? then Out(Declined, m, remaining, 0, 0)
         else Loop(c, kind, Advance(kind, l, k), m'.value, remaining - Times(k, l.cost), env, forward)
  { hide Chunk, Fit, Times, Valid, PatchBus, Epilogue; }
  lemma PutLen(mem: seq<Byte>, d: nat, v: seq<Byte>)
    requires d + |v| <= |mem|
    ensures |Put(mem, d, v)| == |mem|
  {}
}
