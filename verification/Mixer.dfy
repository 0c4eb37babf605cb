/** The m4a mixer fast path: a whole call at once against batch by batch. */
module Mixer {
  import opened Words
  import opened Sh4
  import opened GuestBus

  datatype St = St(r0: Word, r1: Word, r2: Word, r3: Word, r4: Word, r5: Word, r6: Word, r7: Word, r8: Word, r12: Word)

  /** What stays fixed during a call: IWRAM's place in host memory and its code tags, the 32 KiB
      page map, the cartridge size and the wait-state costs. */
  datatype Env = Env(iwram: nat, tags: seq<bool>, pages: map<nat, nat>, romSize: nat, word: nat, half: nat -> nat,
      tail: nat)

  ghost predicate Valid(e: Env, mem: seq<Byte>) {
    e.iwram + 0x8000 <= |mem| && |e.tags| == 0x8000 && forall p :: p in e.pages ==> e.pages[p] + 0x8000 <= |mem|
  }

  // ---- one sample ----------------------------------------------------------------

  function Source(s: St): Word { AddW(s.r0, s.r4 / 256) }
  function Sext8(b: Byte): Word { if b >= 128 then b + 0xFFFF_FF00 else b }
  function Sext16(h: int): Word
    requires 0 <= h < 0x1_0000
  { if h >= 0x8000 then h + 0xFFFF_0000 else h }
  function Get16(mem: seq<Byte>, at: nat): (h: nat)
    requires at + 2 <= |mem|
    ensures h < 0x1_0000
  { var hi: int := mem[at + 1]; mem[at] + 256 * hi }
  function Put16(mem: seq<Byte>, at: nat, v: Word): (m: seq<Byte>)
    requires at + 2 <= |mem|
    ensures |m| == |mem|
  { mem[at := v % 256][at + 1 := (v / 256) % 256] }

  /** MLA of a sample onto the halfword at `at`. */
  function Mixed(mem: seq<Byte>, at: nat, gain: Word, sample: Word): Word
    requires at + 2 <= |mem|
  { AddW(MulW(gain, sample), Sext16(Get16(mem, at))) }

  datatype Live = Live(s: St, mem: seq<Byte>)

  /** Load left, store left, load right, store right, with the places already resolved. */
  function StepAt(s: St, mem: seq<Byte>, src: nat, left: nat, right: nat): (l: Live)
    requires src < |mem| && left + 2 <= |mem| && right + 2 <= |mem|
    ensures |l.mem| == |mem|
  {
    var sample := Sext8(mem[src]);
    var m1 := Put16(mem, left, Mixed(mem, left, s.r6, sample));
    var mixed := Mixed(m1, right, s.r7, sample);
    Live(s.(r8 := sample, r12 := mixed, r1 := AddW(s.r1, 2), r2 := AddW(s.r2, 2), r4 := AddW(s.r4, s.r5)),
        Put16(m1, right, mixed))
  }

  /** The address checks of one sample. */
  predicate SourceOk(e: Env, a: Word) {
    var region := a / 0x100_0000;
    (region == 2 || region == 3 || 8 <= region <= 12)
    && (region >= 8 ==> a % 0x200_0000 < e.romSize)
    && a / 0x8000 in e.pages
  }
  predicate OutputOk(a: Word) { a / 0x100_0000 == 3 && a % 2 == 0 }
  predicate Untagged(e: Env, a: Word)
    requires |e.tags| == 0x8000
  { !e.tags[a % 0x8000] && (a % 0x8000 < 0x7FFF ==> !e.tags[a % 0x8000 + 1]) }

  predicate SampleOk(e: Env, s: St)
    requires |e.tags| == 0x8000
  {
    SourceOk(e, Source(s)) && OutputOk(s.r1) && OutputOk(s.r2) && Untagged(e, s.r1) && Untagged(e, s.r2)
  }
  lemma EvenRoom(a: Word) requires a % 2 == 0 ensures a % 0x8000 + 2 <= 0x8000 {}

  /** One sample of a prepared batch. */
  function Step(e: Env, s: St, mem: seq<Byte>): (l: Live)
    requires Valid(e, mem) && SampleOk(e, s)
    ensures Valid(e, l.mem) && |l.mem| == |mem|
  {
    EvenRoom(s.r1); EvenRoom(s.r2);
    StepAt(s, mem, e.pages[Source(s) / 0x8000] + Source(s) % 0x8000, e.iwram + s.r1 % 0x8000, e.iwram + s.r2 % 0x8000)
  }

  // ---- batches -------------------------------------------------------------------

  /** The addresses of the next sample. */
  function Move(s: St): St { s.(r1 := AddW(s.r1, 2), r2 := AddW(s.r2, 2), r4 := AddW(s.r4, s.r5)) }
  function SourceCost(e: Env, s: St): nat { e.half(Source(s) / 0x100_0000) }

  /** cgba_sh4_arm_mixer_prepare is this with n = 4: every access checked before the first write. */
  predicate SamplesOk(e: Env, s: St, n: nat)
    requires |e.tags| == 0x8000
    decreases n
  { n == 0 || (SampleOk(e, s) && SamplesOk(e, Move(s), n - 1)) }
  function SourceCosts(e: Env, s: St, n: nat): nat
    decreases n
  { if n == 0 then 0 else SourceCost(e, s) + SourceCosts(e, Move(s), n - 1) }
  function BodyCycles(e: Env, s: St): nat { 36 * e.word + SourceCosts(e, s, 4) + 16 * e.half(3) }

  /** Only r1, r2 and r4 matter to the checks. */
  lemma {:induction false} Blind(e: Env, s: St, t: St, n: nat)
    requires |e.tags| == 0x8000 && t == s.(r8 := t.r8, r12 := t.r12)
    ensures SamplesOk(e, s, n) == SamplesOk(e, t, n) && SourceCosts(e, s, n) == SourceCosts(e, t, n)
    decreases n
  { if n > 0 { Blind(e, Move(s), Move(t), n - 1); } }

  /** n samples one after another. */
  function Steps(e: Env, s: St, mem: seq<Byte>, n: nat): (l: Live)
    requires Valid(e, mem) && SamplesOk(e, s, n)
    ensures Valid(e, l.mem) && |l.mem| == |mem|
    decreases n
  {
    if n == 0 then Live(s, mem)
    else
      var l := Step(e, s, mem);
      Blind(e, Move(s), l.s, n - 1);
      Steps(e, l.s, l.mem, n - 1)
  }

  /** cgba_sh4_arm_mixer_can_fold_taken. */
  predicate CanFold(budget: int, spent: nat, tail: nat) { budget > 0 && budget > spent + tail }

  datatype Ran = Ran(s: St, mem: seq<Byte>, spent: nat, batches: nat)

  /** The batch loop, stopped after `cap` batches: a taken tail is folded only while it leaves budget
      and the next batch is proved safe. */
  function Batches(e: Env, s: St, mem: seq<Byte>, spent: nat, done: nat, budget: int, cap: nat): Ran
    requires Valid(e, mem) && SamplesOk(e, s, 4) && done < cap
    decreases cap - done
  {
    var l := Steps(e, s, mem, 4);
    var now := spent + BodyCycles(e, s);
    if done + 1 == cap || l.s.r1 >= l.s.r3 || !CanFold(budget, now, e.tail) || !SamplesOk(e, l.s, 4)
    then Ran(l.s, l.mem, now, done + 1)
    else Batches(e, l.s, l.mem, now + e.tail, done + 1, budget, cap)
  }

  // ---- the whole call at once -----------------------------------------------------------

  const CAP: nat := 8

  datatype Plan = Plan(batches: nat, spent: nat)
  /** cgba_sh4_arm_mixer_plan_constant, from `batches` already planned. */
  function PlanFrom(r1: Word, r3: Word, budget: int, body: nat, tail: nat, batches: nat, spent: nat): (p: Plan)
    requires 1 <= batches <= CAP
    ensures batches <= p.batches <= CAP
    decreases CAP - batches
  {
    if batches < CAP && Lo(r1 + batches * 8) < r3 && !(budget <= 0 || budget <= spent + tail)
    then PlanFrom(r1, r3, budget, body, tail, batches + 1, spent + tail + body)
    else Plan(batches, spent)
  }
  function WholeBody(e: Env, s: St): nat { 36 * e.word + 4 * SourceCost(e, s) + 16 * e.half(3) }
  function WholePlan(e: Env, s: St, budget: int): (p: Plan)
    ensures 1 <= p.batches <= CAP
  { PlanFrom(s.r1, s.r3, budget, WholeBody(e, s), e.tail, 1, WholeBody(e, s)) }

  /** Samples from one page, output pointers and phase stepped directly. */
  function Stream(mem: seq<Byte>, page: nat, s: St, phase: Word, left: nat, right: nat, n: nat): (l: Live)
    requires page + 0x8000 <= |mem| && left + 2 * n <= |mem| && right + 2 * n <= |mem|
    ensures |l.mem| == |mem|
    decreases n
  {
    if n == 0 then Live(s.(r4 := phase), mem)
    else
      var sample := Sext8(mem[page + AddW(s.r0, phase / 256) % 0x8000]);
      var m1 := Put16(mem, left, Mixed(mem, left, s.r6, sample));
      var mixed := Mixed(m1, right, s.r7, sample);
      Stream(Put16(m1, right, mixed), page, s.(r8 := sample, r12 := mixed), AddW(phase, s.r5), left + 2, right + 2,
          n - 1)
  }

  predicate TagsZero(e: Env, off: nat, bytes: nat)
    requires |e.tags| == 0x8000 && off + bytes <= 0x8000
  { forall i :: off <= i < off + bytes ==> !e.tags[i] }

  /** Phase and source address of the n-th sample from here, without wrap-around. */
  function Phase(s: St, n: nat): nat { MulNat(n, s.r5); s.r4 + n * s.r5 }
  function SourceAt(s: St, n: nat): nat { s.r0 + Phase(s, n) / 256 }
  lemma MulNat(n: nat, x: nat) ensures n * x >= 0 {}

  /** The phase increment is small enough that 32 steps cannot wrap. */
  predicate SmallStep(s: St) { s.r5 <= (0xFFFF_FFFF - s.r4) / 32 }
  function LastSource(s: St, n: nat): int
    requires n > 0
  { Lo(s.r0 + Lo(Phase(s, n - 1)) / 256) }

  /** The guards of cgba_sh4_arm_mixer_run_whole for a plan of n samples. */
  predicate WholeOk(e: Env, s: St, n: nat)
    requires |e.tags| == 0x8000 && 0 < n
  {
    var src, last, region := Source(s), LastSource(s, n), Source(s) / 0x100_0000;
    var lo, ro := s.r1 % 0x8000, s.r2 % 0x8000;
    OutputOk(s.r1) && OutputOk(s.r2) && src >= s.r0
    && (region == 2 || region == 3 || 8 <= region <= 12) && (region >= 8 ==> src % 0x200_0000 < e.romSize)
    && SmallStep(s) && last >= s.r0 && src / 0x8000 == last / 0x8000 && (region >= 8 ==> last % 0x200_0000 < e.romSize)
    && src / 0x8000 in e.pages
    && OutputOk(Lo(s.r1 + 2 * n - 2)) && OutputOk(Lo(s.r2 + 2 * n - 2))
    && lo + 2 * n <= 0x8000 && ro + 2 * n <= 0x8000 && TagsZero(e, lo, 2 * n) && TagsZero(e, ro, 2 * n)
  }

  /** cgba_sh4_arm_mixer_run_whole. */
  function Whole(e: Env, s: St, mem: seq<Byte>, budget: int): Option<Ran>
    requires Valid(e, mem)
  {
    var p := WholePlan(e, s, budget);
    var n := 4 * p.batches;
    if !WholeOk(e, s, n) then None
    else
      var l := Stream(mem, e.pages[Source(s) / 0x8000], s, s.r4, e.iwram + s.r1 % 0x8000, e.iwram + s.r2 % 0x8000, n);
      Some(Ran(l.s.(r1 := Lo(s.r1 + 2 * n), r2 := Lo(s.r2 + 2 * n)), l.mem, p.spent, p.batches))
  }

  // ---- the guards imply every per-sample check ----------------------------------------------

  /** n samples ahead from s, all from the page of the first, the last at address `last`. */
  predicate Clear(e: Env, s: St, n: nat, last: nat)
    requires |e.tags| == 0x8000
  {
    Phase(s, n) <= 0xFFFF_FFFF && OutputOk(s.r1) && OutputOk(s.r2)
    && s.r1 % 0x8000 + 2 * n <= 0x8000 && s.r2 % 0x8000 + 2 * n <= 0x8000
    && TagsZero(e, s.r1 % 0x8000, 2 * n) && TagsZero(e, s.r2 % 0x8000, 2 * n)
    && (n > 0 ==>
          last == SourceAt(s, n - 1) && last <= 0xFFFF_FFFF
          && Source(s) == SourceAt(s, 0) && Source(s) / 0x8000 == last / 0x8000 && SourceOk(e, Source(s))
          && SourceOk(e, last))
  }

  lemma LoIs(x: int) requires 0 <= x < 0x1_0000_0000 ensures Lo(x) == x {}
  lemma Small(s: St, n: nat)
    requires SmallStep(s) && n <= 32
    ensures Phase(s, n) <= 0xFFFF_FFFF
  { assert n * s.r5 <= 32 * s.r5; }
  lemma NoWrap(x: Word, d: int)
    requires 0 <= d < 0x100_0000 && Lo(x + d) >= x
    ensures x + d < 0x1_0000_0000 && Lo(x + d) == x + d && AddW(x, d) == x + d
  {}
  lemma AddWrap(x: Word, d: int)
    requires 0 <= d < 0x100_0000 && AddW(x, d) >= x
    ensures AddW(x, d) == x + d
  {}
  lemma SameRegion(a: nat, b: nat)
    requires a / 0x8000 == b / 0x8000
    ensures a / 0x100_0000 == b / 0x100_0000
  { DivDiv(a, 0x8000, 512); DivDiv(b, 0x8000, 512); }
  lemma Zero(s: St) ensures Phase(s, 0) == s.r4 {}
  lemma PhaseTop(p: nat) requires p <= 0xFFFF_FFFF ensures 0 <= p / 256 < 0x100_0000 {}

  lemma WholeClear(e: Env, s: St, n: nat)
    requires |e.tags| == 0x8000 && 0 < n <= 32 && WholeOk(e, s, n)
    ensures Clear(e, s, n, SourceAt(s, n - 1))
  {
    hide Phase, TagsZero, Lo, AddW, OutputOk, SmallStep;
    Small(s, n); Small(s, n - 1); Zero(s);
    LoIs(Phase(s, n - 1));
    PhaseTop(Phase(s, n - 1)); PhaseTop(s.r4);
    NoWrap(s.r0, Phase(s, n - 1) / 256); AddWrap(s.r0, s.r4 / 256);
    SameRegion(Source(s), SourceAt(s, n - 1));
  }

  lemma PhaseMove(s: St, n: nat)
    requires Phase(s, n) <= 0xFFFF_FFFF && n > 0
    ensures AddW(s.r4, s.r5) == s.r4 + s.r5 && Phase(Move(s), n - 1) == Phase(s, n)
  { assert n * s.r5 == s.r5 + (n - 1) * s.r5; MulNat(n - 1, s.r5); }
  lemma OutputMove(a: Word, n: nat)
    requires OutputOk(a) && n > 0 && a % 0x8000 + 2 * n <= 0x8000
    ensures n > 1 ==> AddW(a, 2) == a + 2 && (a + 2) % 0x8000 == a % 0x8000 + 2 && OutputOk(a + 2)
    ensures AddW(a, 2) == a + 2
  {
    if n > 1 {
      ModUnique(a + 2, 0x8000, a / 0x8000, a % 0x8000 + 2); DivDiv(a, 0x8000, 512); DivDiv(a + 2, 0x8000, 512);
    }
  }
  lemma PageBetween(a: nat, b: nat, c: nat)
    requires a <= b <= c && a / 0x8000 == c / 0x8000
    ensures b / 0x8000 == a / 0x8000
  {}
  lemma RomBetween(a: nat, b: nat, c: nat, size: nat)
    requires a <= b <= c && a / 0x8000 == c / 0x8000 && c % 0x200_0000 < size
    ensures b % 0x200_0000 < size
  { DivDiv(a, 0x8000, 1024); DivDiv(c, 0x8000, 1024); }
  lemma PhaseUp(s: St, j: nat, k: nat)
    requires j <= k
    ensures Phase(s, j) <= Phase(s, k) && SourceAt(s, j) <= SourceAt(s, k)
  { assert j * s.r5 <= k * s.r5; }
  lemma SourceMove(s: St, n: nat)
    requires n > 1 && Phase(s, n) <= 0xFFFF_FFFF && SourceAt(s, n - 1) <= 0xFFFF_FFFF
    ensures Source(Move(s)) == SourceAt(Move(s), 0) == SourceAt(s, 1) && SourceAt(Move(s), n - 2) == SourceAt(s, n - 1)
  {
    PhaseMove(s, n); PhaseUp(s, n - 1, n);
    PhaseMove(s, n - 1); PhaseUp(s, 1, n - 1); PhaseMove(s, 1);
    Zero(Move(s));
    hide Phase;
  }

  /** One sample of the way: its own checks hold, and the rest stays clear. */
  lemma ClearStep(e: Env, s: St, n: nat, last: nat)
    requires |e.tags| == 0x8000 && n > 0 && Clear(e, s, n, last)
    ensures SampleOk(e, s)
    ensures n > 1 ==> Clear(e, Move(s), n - 1, last) && Source(Move(s)) / 0x8000 == Source(s) / 0x8000
  {
    hide Phase;
    OutputMove(s.r1, n); OutputMove(s.r2, n);
    if n > 1 {
      PhaseMove(s, n); SourceMove(s, n); PhaseUp(s, 0, 1); PhaseUp(s, 1, n - 1);
      var a, b := Source(s), SourceAt(s, 1);
      PageBetween(a, b, last); SameRegion(a, b); SameRegion(a, last);
      if last / 0x100_0000 >= 8 { RomBetween(a, b, last, e.romSize); }
      hide SourceAt, Source, AddW;
    }
  }

  lemma {:induction false} ClearSamples(e: Env, s: St, n: nat, last: nat)
    requires |e.tags| == 0x8000 && Clear(e, s, n, last)
    ensures SamplesOk(e, s, n) && SourceCosts(e, s, n) == n * SourceCost(e, s)
    decreases n
  {
    if n > 0 {
      ClearStep(e, s, n, last);
      if n > 1 {
        SameRegion(Source(Move(s)), Source(s));
        ClearSamples(e, Move(s), n - 1, last);
        NextCost(n, SourceCost(e, s));
      }
      hide Clear, SampleOk, Source, Move;
    }
  }
  lemma NextCost(n: nat, c: nat) requires n > 0 ensures c + (n - 1) * c == n * c {}
  lemma {:induction false} FewerSamples(e: Env, s: St, n: nat, m: nat)
    requires |e.tags| == 0x8000 && SamplesOk(e, s, n) && m <= n
    ensures SamplesOk(e, s, m)
    decreases n
  { if m > 0 { FewerSamples(e, Move(s), n - 1, m - 1); } hide SampleOk; }

  lemma StreamHead(e: Env, s: St, t: St, mem: seq<Byte>, n: nat)
    requires Valid(e, mem) && n > 0 && SampleOk(e, s) && t == s.(r1 := t.r1, r2 := t.r2, r4 := t.r4)
    requires e.iwram + s.r1 % 0x8000 + 2 * n <= |mem| && e.iwram + s.r2 % 0x8000 + 2 * n <= |mem|
    ensures var l := Step(e, s, mem); var page := e.pages[Source(s) / 0x8000];
      var lo, ro := e.iwram + s.r1 % 0x8000, e.iwram + s.r2 % 0x8000;
      Stream(mem, page, t, s.r4, lo, ro, n)
        == Stream(l.mem, page, t.(r8 := l.s.r8, r12 := l.s.r12), l.s.r4, lo + 2, ro + 2, n - 1)
  { hide Mixed, Put16, Sext8, AddW; EvenRoom(s.r1); EvenRoom(s.r2); }
  lemma StreamEnd(mem: seq<Byte>, page: nat, t: St, phase: Word, lo: nat, ro: nat)
    requires page + 0x8000 <= |mem| && lo <= |mem| && ro <= |mem|
    ensures Stream(mem, page, t, phase, lo, ro, 0) == Live(t.(r4 := phase), mem)
  {}
  lemma StepsHead(e: Env, s: St, mem: seq<Byte>, n: nat)
    requires Valid(e, mem) && n > 0 && SamplesOk(e, s, n)
    ensures var l := Step(e, s, mem);
      SamplesOk(e, l.s, n - 1) && Steps(e, s, mem, n) == Steps(e, l.s, l.mem, n - 1)
      && l.s == Move(s).(r8 := l.s.r8, r12 := l.s.r12)
  {
    var l := Step(e, s, mem);
    Blind(e, Move(s), l.s, n - 1);
    hide SampleOk, Mixed, Put16, Sext8, Source;
  }

  /** The streaming loop makes exactly the n samples, aliasing buffers and sources included. */
  lemma {:induction false} StreamIsSteps(e: Env, s: St, t: St, mem: seq<Byte>, page: nat, n: nat, last: nat)
    requires Valid(e, mem) && Clear(e, s, n, last) && SamplesOk(e, s, n) && t == s.(r1 := t.r1, r2 := t.r2, r4 := t.r4)
    requires n > 0 ==> Source(s) / 0x8000 in e.pages && page == e.pages[Source(s) / 0x8000]
    requires page + 0x8000 <= |mem|
    ensures e.iwram + s.r1 % 0x8000 + 2 * n <= |mem| && e.iwram + s.r2 % 0x8000 + 2 * n <= |mem|
    ensures var x := Stream(mem, page, t, s.r4, e.iwram + s.r1 % 0x8000, e.iwram + s.r2 % 0x8000, n);
      Live(Steps(e, s, mem, n).s.(r1 := 0, r2 := 0), Steps(e, s, mem, n).mem) == Live(x.s.(r1 := 0, r2 := 0), x.mem)
    decreases n
  {
    hide Stream, Step, Steps, SampleOk, SamplesOk, Source, Clear;
    ClearRoom(e, s, n, last);
    if n == 0 { StreamEnd(mem, page, t, s.r4, e.iwram + s.r1 % 0x8000, e.iwram + s.r2 % 0x8000); StepsEnd(e, s, mem); }
    else {
      ClearStep(e, s, n, last);
      var l := Step(e, s, mem);
      StepsHead(e, s, mem, n);
      StreamHead(e, s, t, mem, n);
      var t' := t.(r8 := l.s.r8, r12 := l.s.r12);
      if n > 1 {
        Unmoved(e, Move(s), l.s, n - 1, last); SameSource(Move(s), l.s);
        OutputsMove(e, s, n, last);
        StreamIsSteps(e, l.s, t', l.mem, page, n - 1, last);
      } else {
        StreamEnd(l.mem, page, t', l.s.r4, e.iwram + s.r1 % 0x8000 + 2, e.iwram + s.r2 % 0x8000 + 2);
        StepsEnd(e, l.s, l.mem);
      }
    }
  }
  lemma StepsEnd(e: Env, s: St, mem: seq<Byte>)
    requires Valid(e, mem)
    ensures SamplesOk(e, s, 0) && Steps(e, s, mem, 0) == Live(s, mem)
  {}
  lemma ClearRoom(e: Env, s: St, n: nat, last: nat)
    requires |e.tags| == 0x8000 && Clear(e, s, n, last)
    ensures s.r1 % 0x8000 + 2 * n <= 0x8000 && s.r2 % 0x8000 + 2 * n <= 0x8000
  {}
  lemma OutputsMove(e: Env, s: St, n: nat, last: nat)
    requires |e.tags| == 0x8000 && n > 1 && Clear(e, s, n, last)
    ensures Move(s).r1 % 0x8000 == s.r1 % 0x8000 + 2 && Move(s).r2 % 0x8000 == s.r2 % 0x8000 + 2
  { OutputMove(s.r1, n); OutputMove(s.r2, n); hide Phase, TagsZero; }
  /** Where n clear samples leave the address registers. */
  lemma {:induction false} StepsRegs(e: Env, s: St, mem: seq<Byte>, n: nat, last: nat)
    requires Valid(e, mem) && Clear(e, s, n, last) && SamplesOk(e, s, n)
    ensures var t := Steps(e, s, mem, n).s;
      t.r1 == s.r1 + 2 * n && t.r2 == s.r2 + 2 * n
      && t == s.(r1 := t.r1, r2 := t.r2, r4 := t.r4, r8 := t.r8, r12 := t.r12)
    decreases n
  {
    hide Step, Steps, SampleOk, SamplesOk, Source, Clear;
    if n == 0 { StepsEnd(e, s, mem); }
    else {
      ClearStep(e, s, n, last);
      StepsHead(e, s, mem, n);
      MoveTwo(e, s, n, last);
      var l := Step(e, s, mem);
      if n > 1 { Unmoved(e, Move(s), l.s, n - 1, last); StepsRegs(e, l.s, l.mem, n - 1, last); }
      else { StepsEnd(e, l.s, l.mem); }
    }
  }
  lemma MoveTwo(e: Env, s: St, n: nat, last: nat)
    requires |e.tags| == 0x8000 && n > 0 && Clear(e, s, n, last)
    ensures Move(s).r1 == s.r1 + 2 && Move(s).r2 == s.r2 + 2
  { OutputMove(s.r1, n); OutputMove(s.r2, n); hide Phase, TagsZero; }
  lemma Unmoved(e: Env, s: St, t: St, n: nat, last: nat)
    requires |e.tags| == 0x8000 && t == s.(r8 := t.r8, r12 := t.r12)
    ensures Clear(e, s, n, last) == Clear(e, t, n, last)
  {}

  // ---- equality --------------------------------------------------------------------------------

  lemma FirstOk(e: Env, s: St, n: nat)
    requires |e.tags| == 0x8000 && n > 0 && SamplesOk(e, s, n)
    ensures SampleOk(e, s)
  {}
  lemma {:induction false} StepsSplit(e: Env, s: St, mem: seq<Byte>, k: nat, n: nat)
    requires Valid(e, mem) && SamplesOk(e, s, k + n)
    ensures SamplesOk(e, s, k)
    ensures var l := Steps(e, s, mem, k); SamplesOk(e, l.s, n) && Steps(e, s, mem, k + n) == Steps(e, l.s, l.mem, n)
    decreases k
  {
    hide Step, Steps, SampleOk, SamplesOk;
    FewerSamples(e, s, k + n, k);
    if k == 0 { StepsEnd(e, s, mem); }
    else {
      FirstOk(e, s, k);
      StepsHead(e, s, mem, k + n); StepsHead(e, s, mem, k);
      var l := Step(e, s, mem);
      StepsSplit(e, l.s, l.mem, k - 1, n);
    }
  }
  lemma {:induction false} ClearAfter(e: Env, s: St, mem: seq<Byte>, k: nat, n: nat, last: nat)
    requires Valid(e, mem) && Clear(e, s, k + n, last) && SamplesOk(e, s, k) && n > 0
    ensures Clear(e, Steps(e, s, mem, k).s, n, last) && Source(Steps(e, s, mem, k).s) / 0x8000 == Source(s) / 0x8000
    decreases k
  {
    hide Step, Steps, SampleOk, SamplesOk, Clear, Source;
    if k == 0 { StepsEnd(e, s, mem); }
    else {
      ClearStep(e, s, k + n, last);
      StepsHead(e, s, mem, k);
      var l := Step(e, s, mem);
      Unmoved(e, Move(s), l.s, k + n - 1, last);
      SameSource(Move(s), l.s);
      ClearAfter(e, l.s, l.mem, k - 1, n, last);
    }
  }
  lemma SameSource(s: St, t: St) requires t == s.(r8 := t.r8, r12 := t.r12) ensures Source(t) == Source(s) {}

  /** The planned prefix, run batch by batch from its j-th batch. */
  lemma {:induction false} PlanFollowed(e: Env, s: St, mem: seq<Byte>, spent: nat, j: nat, budget: int, r1: Word,
                                        plan: Plan, body: nat, last: nat)
    requires Valid(e, mem) && j < plan.batches <= CAP && Clear(e, s, 4 * (plan.batches - j), last)
    requires SamplesOk(e, s, 4 * (plan.batches - j))
    requires s.r1 == r1 + 8 * j && body == WholeBody(e, s)
    requires plan == PlanFrom(r1, s.r3, budget, body, e.tail, j + 1, spent + body)
    ensures SamplesOk(e, s, 4)
    ensures var l := Steps(e, s, mem, 4 * (plan.batches - j));
      Batches(e, s, mem, spent, j, budget, CAP) == Ran(l.s, l.mem, plan.spent, plan.batches)
    decreases plan.batches - j
  {
    hide Step, Steps, SampleOk, SamplesOk, Clear, Source, PlanFrom, Batches;
    var n := 4 * (plan.batches - j);
    StepsSplit(e, s, mem, 4, n - 4);
    FewerClear(e, s, n, last, mem);
    var l := Steps(e, s, mem, 4);
    BatchesHead(e, s, mem, spent, j, budget);
    PlanHead(r1, s.r3, budget, body, e.tail, j + 1, spent + body);
    LoIs(l.s.r1);
    if plan.batches == j + 1 { StepsEnd(e, l.s, l.mem); }
    else {
      ClearAfter(e, s, mem, 4, n - 4, last);
      FewerSamples(e, l.s, n - 4, 4);
      SameBody(e, s, l.s);
      PlanFollowed(e, l.s, l.mem, spent + body + e.tail, j + 1, budget, r1, plan, body, last);
    }
  }
  lemma SameBody(e: Env, s: St, t: St)
    requires Source(t) / 0x8000 == Source(s) / 0x8000
    ensures WholeBody(e, t) == WholeBody(e, s)
  { SameRegion(Source(t), Source(s)); hide Source; }
  /** The first batch of a clear stretch: its cost is the constant one, and r1 moves by eight. */
  lemma FewerClear(e: Env, s: St, n: nat, last: nat, mem: seq<Byte>)
    requires Valid(e, mem) && n >= 4 && Clear(e, s, n, last) && SamplesOk(e, s, 4)
    ensures BodyCycles(e, s) == WholeBody(e, s)
    ensures var t := Steps(e, s, mem, 4).s; t.r1 == s.r1 + 8 && t.r3 == s.r3
  {
    hide Step, Steps, SampleOk, SamplesOk, Source, SourceOk;
    if n > 4 { Shorter(e, s, n, last); }
    var last4 := SourceAt(s, 3);
    ClearSamples(e, s, 4, last4);
    StepsRegs(e, s, mem, 4, last4);
  }
  lemma Shorter(e: Env, s: St, n: nat, last: nat)
    requires |e.tags| == 0x8000 && n > 4 && Clear(e, s, n, last)
    ensures Clear(e, s, 4, SourceAt(s, 3))
  {
    PhaseUp(s, 4, n); PhaseUp(s, 0, 3); PhaseUp(s, 3, n - 1);
    var a, b := Source(s), SourceAt(s, 3);
    PageBetween(a, b, last); SameRegion(a, b); SameRegion(a, last);
    if last / 0x100_0000 >= 8 { RomBetween(a, b, last, e.romSize); }
    hide Phase, SourceAt, Source;
  }
  lemma BatchesHead(e: Env, s: St, mem: seq<Byte>, spent: nat, done: nat, budget: int)
    requires Valid(e, mem) && SamplesOk(e, s, 4) && done < CAP
    ensures var l, now := Steps(e, s, mem, 4), spent + BodyCycles(e, s);
      Batches(e, s, mem, spent, done, budget, CAP)
      == if done + 1 == CAP || l.s.r1 >= l.s.r3 || !CanFold(budget, now, e.tail) || !SamplesOk(e, l.s, 4)
         then Ran(l.s, l.mem, now, done + 1) else Batches(e, l.s, l.mem, now + e.tail, done + 1, budget, CAP)
  { hide Steps, BodyCycles, SamplesOk, CanFold; }
  lemma PlanHead(r1: Word, r3: Word, budget: int, body: nat, tail: nat, batches: nat, spent: nat)
    requires 1 <= batches <= CAP
    ensures PlanFrom(r1, r3, budget, body, tail, batches, spent)
      == if batches < CAP && Lo(r1 + batches * 8) < r3 && CanFold(budget, spent, tail)
         then PlanFrom(r1, r3, budget, body, tail, batches + 1, spent + tail + body) else Plan(batches, spent)
  {}

  /** Whenever the whole call is accepted, the first batch is provably safe and the result --
      memory, registers, cycles and batch count -- is that of the batch loop under the fold rule,
      stopped after eight batches, however outputs and samples overlap. */
  lemma WholeIsBatches(e: Env, s: St, mem: seq<Byte>, budget: int)
    requires Valid(e, mem) && Whole(e, s, mem, budget).Some?
    ensures SamplesOk(e, s, 4)
    ensures Whole(e, s, mem, budget) == Some(Batches(e, s, mem, 0, 0, budget, CAP))
  {
    hide Step, Steps, SampleOk, SamplesOk, Clear, Source, PlanFrom, Batches, Stream, SourceAt, WholeOk;
    var p := WholePlan(e, s, budget);
    var n := 4 * p.batches;
    WholeClear(e, s, n);
    var last := SourceAt(s, n - 1);
    ClearSamples(e, s, n, last);
    FewerSamples(e, s, n, 4);
    PlanFollowed(e, s, mem, 0, 0, budget, s.r1, p, WholeBody(e, s), last);
    PageKnown(e, s, n);
    StreamIsSteps(e, s, s, mem, e.pages[Source(s) / 0x8000], n, last);
    StepsRegs(e, s, mem, n, last);
    LoIs(s.r1 + 2 * n); LoIs(s.r2 + 2 * n);
  }
  lemma PageKnown(e: Env, s: St, n: nat)
    requires |e.tags| == 0x8000 && n > 0 && WholeOk(e, s, n)
    ensures Source(s) / 0x8000 in e.pages && s.r1 % 0x8000 + 2 * n <= 0x8000 && s.r2 % 0x8000 + 2 * n <= 0x8000
  {}
}
