/** The mixer helper as the runtime runs it: registers and IWRAM updated in loops. */
module MixerRun {
  import opened Words
  import Sh4
  import opened GuestBus
  import opened Mixer

  /** More batches than one region of output addresses has room for. */
  const UNBOUNDED: nat := 0x100_0000

  class Call {
    var s: St
    var mem: seq<Byte>
    var spent: nat
    var batches: nat

    constructor (s: St, mem: seq<Byte>)
      ensures this.s == s && this.mem == mem && spent == 0 && batches == 0
    { this.s, this.mem, spent, batches := s, mem, 0, 0; }

    function Now(): Ran reads this { Ran(s, mem, spent, batches) }

    /** cgba_sh4_arm_mixer_prepare; `body` is meaningful only when ok. */
    method Prepare(e: Env) returns (ok: bool, body: nat)
      requires |e.tags| == 0x8000
      ensures ok == SamplesOk(e, s, 4) && (ok ==> body == BodyCycles(e, s))
    {
      hide SampleOk, SourceCost;
      var t, i, costs := s, 0, 0;
      while i < 4
        invariant 0 <= i <= 4 && SamplesOk(e, s, 4) == SamplesOk(e, t, 4 - i)
        invariant SourceCosts(e, s, 4) == costs + SourceCosts(e, t, 4 - i)
      {
        if !SampleOk(e, t) { return false, 0; }
        costs := costs + SourceCost(e, t);
        t, i := Move(t), i + 1;
      }
      return true, 36 * e.word + costs + 16 * e.half(3);
    }

    /** cgba_sh4_arm_mixer_run_prepared. */
    method Batch(e: Env)
      requires Mixer.Valid(e, mem) && SamplesOk(e, s, 4)
      modifies this`s, this`mem
      ensures Mixer.Valid(e, mem) && Live(s, mem) == Steps(e, old(s), old(mem), 4)
    {
      hide Step, Steps, SampleOk, SamplesOk;
      var i := 0;
      while i < 4
        invariant 0 <= i <= 4 && Mixer.Valid(e, mem) && SamplesOk(e, s, 4 - i)
        invariant Steps(e, s, mem, 4 - i) == Steps(e, old(s), old(mem), 4)
      {
        FirstOk(e, s, 4 - i);
        StepsHead(e, s, mem, 4 - i);
        var l := Step(e, s, mem);
        s, mem, i := l.s, l.mem, i + 1;
      }
      StepsEnd(e, s, mem);
    }

    /** cgba_sh4_arm_mixer_plan_constant. */
    method PlanConstant(r1: Word, r3: Word, budget: int, body: nat, tail: nat) returns (p: Plan)
      ensures p == PlanFrom(r1, r3, budget, body, tail, 1, body)
    {
      hide CanFold;
      p := Plan(1, body);
      while p.batches < CAP && Sh4.Lo(r1 + p.batches * 8) < r3
        invariant 1 <= p.batches <= CAP
        invariant PlanFrom(r1, r3, budget, body, tail, 1, body)
          == PlanFrom(r1, r3, budget, body, tail, p.batches, p.spent)
        decreases CAP - p.batches
      {
        if budget <= 0 || budget <= p.spent + tail { return; }
        p := Plan(p.batches + 1, p.spent + tail + body);
      }
    }

    /** cgba_sh4_arm_mixer_tags_zero: a halfword peeled, then four words, one word, a halfword. */
    method TagsClear(e: Env, off: nat, bytes: nat) returns (zero: bool)
      requires |e.tags| == 0x8000 && off + bytes <= 0x8000 && off % 2 == 0 && bytes % 2 == 0
      ensures zero == TagsZero(e, off, bytes)
    {
      var at: nat, left: nat := off, bytes;
      if off % 4 != 0 && bytes > 0 {
        if e.tags[at] || e.tags[at + 1] { return false; }
        at, left := at + 2, left - 2;
      }
      while left >= 16
        invariant off <= at && at + left == off + bytes && TagsZero(e, off, at - off)
      {
        if exists i :: at <= i < at + 16 && e.tags[i] { return false; }
        at, left := at + 16, left - 16;
      }
      while left >= 4
        invariant off <= at && at + left == off + bytes && TagsZero(e, off, at - off)
      {
        if exists i :: at <= i < at + 4 && e.tags[i] { return false; }
        at, left := at + 4, left - 4;
      }
      return forall i :: at <= i < at + left ==> !e.tags[i];
    }

    /** The sample loop of the whole call. */
    method Samples(page: nat, left0: nat, right0: nat, n: nat)
      requires page + 0x8000 <= |mem| && left0 + 2 * n <= |mem| && right0 + 2 * n <= |mem|
      modifies this`s, this`mem
      ensures Live(s, mem) == Stream(old(mem), page, old(s), old(s).r4, left0, right0, n)
    {
      hide Mixed, Put16, AddW, Sext8;
      var phase, left, right, i := s.r4, left0, right0, 0;
      while i < n
        invariant 0 <= i <= n && |mem| == |old(mem)| && left == left0 + 2 * i && right == right0 + 2 * i
        invariant Stream(mem, page, s, phase, left, right, n - i)
          == Stream(old(mem), page, old(s), old(s).r4, left0, right0, n)
      {
        var sample := Sext8(mem[page + AddW(s.r0, phase / 256) % 0x8000]);
        mem := Put16(mem, left, Mixed(mem, left, s.r6, sample));
        var mixed := Mixed(mem, right, s.r7, sample);
        mem := Put16(mem, right, mixed);
        s := s.(r8 := sample, r12 := mixed);
        phase, left, right, i := AddW(phase, s.r5), left + 2, right + 2, i + 1;
      }
      s := s.(r4 := phase);
    }

    /** cgba_sh4_arm_mixer_run_whole; nothing changes unless it accepts. */
    method RunWhole(e: Env, budget: int) returns (ok: bool)
      requires Mixer.Valid(e, mem)
      modifies this
      ensures ok == Whole(e, old(s), old(mem), budget).Some?
      ensures Now() == if ok then Whole(e, old(s), old(mem), budget).value else old(Now())
    {
      hide WholeOk, Stream, PlanFrom, Sh4.Lo;
      var body := WholeBody(e, s);
      var p := PlanConstant(s.r1, s.r3, budget, body, e.tail);
      var n := 4 * p.batches;
      if !WholeOk(e, s, n) { return false; }
      PageKnown(e, s, n);
      var r1, r2 := Sh4.Lo(s.r1 + 2 * n), Sh4.Lo(s.r2 + 2 * n);
      Samples(e.pages[Source(s) / 0x8000], e.iwram + s.r1 % 0x8000, e.iwram + s.r2 % 0x8000, n);
      s, spent, batches := s.(r1 := r1, r2 := r2), p.spent, p.batches;
      return true;
    }

    /** cgba_sh4_arm_mixer_loop_try: taken exactly in ARM state, with budget left and a safe first
        batch, whichever way it is then run; otherwise everything is left to the translated path. */
    method TryLoop(e: Env, thumb: bool, budget: int) returns (ok: bool)
      requires Mixer.Valid(e, mem) && spent == 0 && batches == 0
      modifies this
      ensures ok == (!thumb && budget > 0 && SamplesOk(e, old(s), 4))
      ensures Now() == if ok then Looped(e, old(s), old(mem), budget) else old(Now())
    {
      hide Whole, SamplesOk, Batches;
      if thumb || budget <= 0 { return false; }
      var whole := RunWhole(e, budget);
      if whole { WholeIsBatches(e, old(s), old(mem), budget); return true; }
      var safe, body := Prepare(e);
      if !safe { return false; }
      RunBatches(e, budget, body);
      return true;
    }

    method RunBatches(e: Env, budget: int, body0: nat)
      requires Mixer.Valid(e, mem) && spent == 0 && batches == 0 && SamplesOk(e, s, 4) && body0 == BodyCycles(e, s)
      modifies this
      ensures Now() == Batches(e, old(s), old(mem), 0, 0, budget, UNBOUNDED)
    {
      hide Steps, SamplesOk, BodyCycles, Batches;
      var body, more := body0, true;
      InRegion(e, s);
      while more
        invariant Mixer.Valid(e, mem)
        invariant more ==>
          SamplesOk(e, s, 4) && body == BodyCycles(e, s) && s.r1 == old(s).r1 + 8 * batches && s.r1 < 0x400_0000
        invariant more ==>
          Batches(e, old(s), old(mem), 0, 0, budget, UNBOUNDED) == Batches(e, s, mem, spent, batches, budget, UNBOUNDED)
        invariant !more ==> Now() == Batches(e, old(s), old(mem), 0, 0, budget, UNBOUNDED)
        decreases more, 0x400_0000 - s.r1
      {
        AnyBatchesHead(e, s, mem, spent, batches, budget, UNBOUNDED);
        BatchMoves(e, s, mem);
        Batch(e);
        spent, batches := spent + body, batches + 1;
        if s.r1 >= s.r3 || !CanFold(budget, spent, e.tail) { more := false; }
        else {
          more, body := Prepare(e);
          if more { spent := spent + e.tail; InRegion(e, s); }
        }
      }
    }
  }

  function Looped(e: Env, s: St, mem: seq<Byte>, budget: int): Ran
    requires Mixer.Valid(e, mem) && SamplesOk(e, s, 4)
  { Batches(e, s, mem, 0, 0, budget, if Whole(e, s, mem, budget).Some? then CAP else UNBOUNDED) }
  lemma InRegion(e: Env, s: St)
    requires |e.tags| == 0x8000 && SamplesOk(e, s, 4)
    ensures 0x300_0000 <= s.r1 < 0x400_0000
  { assert SampleOk(e, s); }
  lemma BatchMoves(e: Env, s: St, mem: seq<Byte>)
    requires Mixer.Valid(e, mem) && SamplesOk(e, s, 4)
    ensures Steps(e, s, mem, 4).s.r1 == s.r1 + 8
  {
    InRegion(e, s);
    StepsMove(e, s, mem, 4);
    hide Steps, SamplesOk;
  }
  lemma {:induction false} StepsMove(e: Env, s: St, mem: seq<Byte>, n: nat)
    requires Mixer.Valid(e, mem) && SamplesOk(e, s, n) && s.r1 + 2 * n < 0x1_0000_0000
    ensures Steps(e, s, mem, n).s.r1 == s.r1 + 2 * n
    decreases n
  {
    hide Step, Steps, SampleOk, SamplesOk;
    if n == 0 { StepsEnd(e, s, mem); }
    else {
      FirstOk(e, s, n); StepsHead(e, s, mem, n);
      var l := Step(e, s, mem);
      StepsMove(e, l.s, l.mem, n - 1);
    }
  }
  lemma AnyBatchesHead(e: Env, s: St, mem: seq<Byte>, spent: nat, done: nat, budget: int, cap: nat)
    requires Mixer.Valid(e, mem) && SamplesOk(e, s, 4) && done < cap
    ensures var l, now := Steps(e, s, mem, 4), spent + BodyCycles(e, s);
      Batches(e, s, mem, spent, done, budget, cap)
      == if done + 1 == cap || l.s.r1 >= l.s.r3 || !CanFold(budget, now, e.tail) || !SamplesOk(e, l.s, 4)
         then Ran(l.s, l.mem, now, done + 1) else Batches(e, l.s, l.mem, now + e.tail, done + 1, budget, cap)
  { hide Steps, BodyCycles, SamplesOk; }
}
