/** ARM LDM/STM: the C helper, and the transfer over one host page that must equal it. */
module Blocks {
  import opened Words
  import opened Guest
  import opened Sh4
  import opened GuestBus
  import opened Chunks
  import opened Sh4Mem

  // ---- guest memory as the block code sees it ------------------------------------

  /** Host pages by A >> 15; EWRAM and IWRAM data arrays with their code tags; sequential word
      costs by region; what an unmapped read returns. */
  datatype Env = Env(pages: map<nat, nat>, ewram: nat, iwram: nat, etags: seq<bool>, itags: seq<bool>, cost: nat -> nat,
      open: Word -> Word)
  datatype M = M(r: RegFile, mem: seq<Byte>, dev: seq<(Word, Word)>, cycles: nat, alert: bool)

  ghost predicate Valid(e: Env, m: M) {
    |e.etags| == 0x4_0000 && |e.itags| == 0x8000
    && (forall p :: p in e.pages ==> e.pages[p] + 0x8000 <= |m.mem|)
    && (forall p :: p in e.pages && p / 512 == 2 ==> e.pages[p] == e.ewram + (p % 8) * 0x8000)
    && (forall p :: p in e.pages && p / 512 == 3 ==> e.pages[p] == e.iwram)
    && e.cost(2) == 6 && e.cost(3) == 1 && e.cost(6) == 2
  }
  function Region(a: nat): nat { a / 0x100_0000 }
  predicate Mapped(e: Env, a: nat) { a < 0x1000_0000 && a / 0x8000 in e.pages }
  function HostAt(e: Env, a: nat): nat
    requires Mapped(e, a)
  { e.pages[a / 0x8000] + a % 0x8000 }

  /** Any code tag under the word at a. */
  predicate Tagged(e: Env, a: nat)
    requires |e.etags| == 0x4_0000 && |e.itags| == 0x8000
  {
    if Region(a) == 2 then exists i :: a % 0x4_0000 <= i < a % 0x4_0000 + 4 && i < 0x4_0000 && e.etags[i]
    else if Region(a) == 3 then exists i :: a % 0x8000 <= i < a % 0x8000 + 4 && i < 0x8000 && e.itags[i]
    else false
  }
  /** execute_load_u32 at a word address: the mapped page, or whatever the bus yields. */
  function Load32(e: Env, m: M, a: Word): Word {
    if Region(a) != 0 && Mapped(e, a) && HostAt(e, a) + 4 <= |m.mem|
    then FromLe(m.mem[HostAt(e, a)..HostAt(e, a) + 4]) else e.open(a)
  }
  /** execute_store_u32: RAM and VRAM pages take the word, and a code tag raises the alert. */
  function Store32(e: Env, m: M, a: Word, v: Word): (m': M)
    requires |e.etags| == 0x4_0000 && |e.itags| == 0x8000
    ensures |m'.mem| == |m.mem|
  {
    if Region(a) in {2, 3, 6} && Mapped(e, a) && HostAt(e, a) + 4 <= |m.mem|
    then m.(mem := Put(m.mem, HostAt(e, a), Le(v)), alert := m.alert || Tagged(e, a))
    else m.(dev := m.dev + [(a, v)])
  }
  function Charge(e: Env, m: M, a: Word): M {
    if a < 0x1000_0000 then m.(cycles := m.cycles + e.cost(Region(a))) else m
  }

  // ---- cgba_sh4_arm_block ----------------------------------------------------------

  /** Decoded opcode: register list as a 16-bit number, S bit clear. */
  datatype Opc = Opc(load: bool, wb: bool, pre: bool, up: bool, rn: nat, list: nat)

  function Count(list: nat): nat { if list == 0 then 0 else list % 2 + Count(list / 2) }
  predicate Has(list: nat, i: nat) { if i == 0 then list % 2 == 1 else Has(list / 2, i - 1) }
  function Lowest(list: nat): nat { if list == 0 then 16 else if list % 2 == 1 then 0 else 1 + Lowest(list / 2) }

  function NewBase(op: Opc, base: Word): Word {
    if op.up then Lo(base + 4 * Count(op.list)) else Lo(base - 4 * Count(op.list))
  }
  /** The i-th register against the word at `a`. */
  function Transfer(e: Env, op: Opc, m: M, i: nat, a: Word, stored: Word): M
    requires |e.etags| == 0x4_0000 && |e.itags| == 0x8000 && i < 16
  {
    if op.load then Charge(e, m, a).(r := m.r[i := Load32(e, m, a)])
    else Store32(e, Charge(e, m, a), a, stored)
  }
  /** The register loop from register i on, the rest of the list in `list`. */
  function HelperLoop(e: Env, op: Opc, pc: Word, newBase: Word, m: M, list: nat, i: nat, addr: Word): M
    requires |e.etags| == 0x4_0000 && |e.itags| == 0x8000
    decreases 16 - i
  {
    if i >= 16 then m
    else if list % 2 == 0 then HelperLoop(e, op, pc, newBase, m, list / 2, i + 1, addr)
    else
      var a := if op.pre == op.up then AddW(addr, 4) else addr;
      var v := if i == 15 then AddW(pc, 12) else if i == op.rn && op.wb && i != Lowest(op.list) then newBase else m.r[i];
      HelperLoop(e, op, pc, newBase, Transfer(e, op, m, i, a, v), list / 2, i + 1, AddW(addr, 4))
  }
  function Helper(e: Env, op: Opc, pc: Word, m: M): M
    requires |e.etags| == 0x4_0000 && |e.itags| == 0x8000 && op.rn < 16
  {
    var base := m.r[op.rn];
    var newBase := NewBase(op, base);
    var m1 := HelperLoop(e, op, pc, newBase, m, op.list, 0, Down(if op.up then base else newBase));
    if op.wb && !(op.load && Has(op.list, op.rn)) then m1.(r := m1.r[op.rn := newBase]) else m1
  }
  function Down(x: Word): Word { x - x % 4 }

  // ---- the native path ---------------------------------------------------------------

  /** Opcodes sh4g_arm_block_native translates. */
  predicate Native(op: Opc) {
    op.list < 0x8000 && op.rn < 15 && op.list != 0 && !(!op.load && op.wb && Has(op.list, op.rn))
  }
  predicate WritesBack(op: Opc) { op.wb && !Has(op.list, op.rn) }
  function Offset(op: Opc): int {
    var n: int := 4 * Count(op.list);
    if op.up then (if op.pre then 4 else 0) else if op.pre then 0 - n else 4 - n
  }
  function BaseOffset(op: Opc): int {
    var n: int := 4 * Count(op.list);
    if op.up then n else 0 - n
  }
  /** First word address: the base shifted clear of its low bits, plus the offset. */
  function Start(op: Opc, base: Word): Word { AddW(Shl2(base / 4), SExt8(Offset(op))) }

  /** Every guard of the block code, in its order, for a run of n words at a. */
  predicate Guards(e: Env, load: bool, a: Word, n: nat)
    requires |e.etags| == 0x4_0000 && |e.itags| == 0x8000
  {
    a % 4 == 0
    && a / 0x8000 == Lo(a + 4 * n - 1) / 0x8000
    && a < 0x1000_0000
    && (if load then Region(a) != 0 else Region(a) == 6 || Region(a) / 2 == 1)
    && a / 0x8000 in e.pages
    && (load ==> HostAt(e, a) % 4 == 0)
    && (!load && Region(a) != 6 ==> Untagged(e, a, n))
  }
  /** No tag under any of the n words from a. */
  predicate Untagged(e: Env, a: nat, n: nat)
    requires |e.etags| == 0x4_0000 && |e.itags| == 0x8000
    decreases n
  { n == 0 || (!Tagged(e, a) && Untagged(e, a + 4, n - 1)) }

  /** One transfer through the page. */
  function FastOne(load: bool, m: M, i: nat, at: nat): (m': M)
    requires i < 16 && at + 4 <= |m.mem|
    ensures |m'.mem| == |m.mem| && m' == m.(r := m'.r, mem := m'.mem) && (!load ==> m'.r == m.r)
  {
    if load then m.(r := m.r[i := Reversed(Raw(m.mem[at..at + 4]))])
    else m.(mem := Put(m.mem, at, RawBytes(Reversed(m.r[i]))))
  }
  /** The transfer loop: the list shifted out bit by bit, the page offset moving four at a time. */
  function FastLoop(load: bool, m: M, list: nat, i: nat, at: nat): M
    decreases list
  {
    if list == 0 || i >= 16 then m
    else if list % 2 == 0 then FastLoop(load, m, list / 2, i + 1, at)
    else if at + 4 > |m.mem| then m
    else FastLoop(load, FastOne(load, m, i, at), list / 2, i + 1, at + 4)
  }
  /** Word cost the block code charges: the live table for loads, constants for stores. */
  function WordCost(e: Env, load: bool, a: Word): nat {
    if load then e.cost(Region(a)) else if Region(a) == 2 then 6 else if Region(a) == 6 then 2 else 1
  }
  function Fast(e: Env, op: Opc, m: M): M
    requires Native(op) && Mapped(e, Start(op, m.r[op.rn]))
  {
    var base := m.r[op.rn];
    var a := Start(op, base);
    var m1 := FastLoop(op.load, m, op.list, 0, HostAt(e, a));
    var m2 := if WritesBack(op) then m1.(r := m1.r[op.rn := AddW(base, SExt8(BaseOffset(op)))]) else m1;
    m2.(cycles := m2.cycles + Count(op.list) * WordCost(e, op.load, a))
  }

  // ---- equality -----------------------------------------------------------------------

  /** n words from a inside one mapped page of an admitted region, no tag below a store. */
  predicate Span(e: Env, load: bool, a: nat, n: nat)
    requires |e.etags| == 0x4_0000 && |e.itags| == 0x8000
  {
    n > 0 ==>
      a % 0x8000 + 4 * n <= 0x8000 && a < 0x1000_0000 && a / 0x8000 in e.pages
      && (if load then Region(a) != 0 else Region(a) == 6 || Region(a) / 2 == 1)
      && (!load && Region(a) != 6 ==> Untagged(e, a, n))
  }
  lemma SpanNext(e: Env, load: bool, a: nat, n: nat)
    requires |e.etags| == 0x4_0000 && |e.itags| == 0x8000 && n > 0 && Span(e, load, a, n)
    ensures Span(e, load, a + 4, n - 1)
    ensures n > 1 ==> Region(a + 4) == Region(a) && HostAt(e, a + 4) == HostAt(e, a) + 4
    ensures !load ==> Region(a) in {2, 3, 6} && !Tagged(e, a)
  {
    if n > 1 {
      ModUnique(a + 4, 0x8000, a / 0x8000, a % 0x8000 + 4);
      DivDiv(a, 0x8000, 512); DivDiv(a + 4, 0x8000, 512);
    }
    hide Tagged;
  }

  lemma {:induction false} NoneLeft(e: Env, op: Opc, pc: Word, nb: Word, m: M, i: nat, addr: Word)
    requires |e.etags| == 0x4_0000 && |e.itags| == 0x8000
    ensures HelperLoop(e, op, pc, nb, m, 0, i, addr) == m
    decreases 16 - i
  { if i < 16 { NoneLeft(e, op, pc, nb, m, i + 1, addr); } }
  lemma {:induction false} CyclesApart(load: bool, m: M, list: nat, i: nat, at: nat, c: nat)
    ensures FastLoop(load, m.(cycles := c), list, i, at) == FastLoop(load, m, list, i, at).(cycles := c)
    decreases list
  {
    hide FastOne;
    if list != 0 && i < 16 {
      if list % 2 == 0 { CyclesApart(load, m, list / 2, i + 1, at, c); }
      else if at + 4 <= |m.mem| {
        OneApart(load, m, i, at, c);
        CyclesApart(load, FastOne(load, m, i, at), list / 2, i + 1, at + 4, c);
      }
    }
  }
  lemma OneApart(load: bool, m: M, i: nat, at: nat, c: nat)
    requires i < 16 && at + 4 <= |m.mem|
    ensures FastOne(load, m.(cycles := c), i, at) == FastOne(load, m, i, at).(cycles := c)
  { hide Reversed, Raw, RawBytes, Put; }

  lemma PageRoom(e: Env, m: M, load: bool, a: nat, n: nat)
    requires Valid(e, m) && n > 0 && Span(e, load, a, n)
    ensures Mapped(e, a) && HostAt(e, a) + 4 <= |m.mem|
  { hide Region, Untagged; }
  lemma LoadOne(e: Env, op: Opc, m: M, i: nat, a: Word)
    requires |e.etags| == 0x4_0000 && |e.itags| == 0x8000 && i < 16 && op.load && Mapped(e, a)
    requires HostAt(e, a) + 4 <= |m.mem| && Region(a) != 0
    ensures Transfer(e, op, m, i, a, 0) == FastOne(true, m, i, HostAt(e, a)).(cycles := m.cycles + e.cost(Region(a)))
  {
    hide Reversed, Raw, Region, HostAt, FromLe;
    ReversedRaw(m.mem[HostAt(e, a)..HostAt(e, a) + 4]);
  }
  lemma StoreOne(e: Env, op: Opc, m: M, i: nat, a: Word)
    requires |e.etags| == 0x4_0000 && |e.itags| == 0x8000 && i < 16 && !op.load && Mapped(e, a)
    requires HostAt(e, a) + 4 <= |m.mem|
    requires Region(a) in {2, 3, 6} && !Tagged(e, a)
    ensures Transfer(e, op, m, i, a, m.r[i])
      == FastOne(false, m, i, HostAt(e, a)).(cycles := m.cycles + e.cost(Region(a)))
  {
    hide Reversed, RawBytes, Region, HostAt, Le, Tagged, Put;
    RawReversed(m.r[i]);
  }
  /** One register: what the helper does to it is what the fast loop does, plus the charge. */
  lemma OneWord(e: Env, op: Opc, m: M, i: nat, a: Word, n: nat, v: Word)
    requires Valid(e, m) && i < 16 && n > 0 && Span(e, op.load, a, n) && (!op.load ==> v == m.r[i])
    ensures Mapped(e, a) && HostAt(e, a) + 4 <= |m.mem|
    ensures Transfer(e, op, m, i, a, v) == FastOne(op.load, m, i, HostAt(e, a)).(cycles := m.cycles + e.cost(Region(a)))
    ensures Valid(e, Transfer(e, op, m, i, a, v))
  {
    hide FastOne, Tagged, Region, HostAt, Transfer;
    PageRoom(e, m, op.load, a, n);
    SpanNext(e, op.load, a, n);
    if op.load { LoadOne(e, op, m, i, a); TransferBlind(e, op, m, i, a, v); } else { StoreOne(e, op, m, i, a); }
  }
  lemma TransferBlind(e: Env, op: Opc, m: M, i: nat, a: Word, v: Word)
    requires |e.etags| == 0x4_0000 && |e.itags| == 0x8000 && i < 16 && op.load
    ensures Transfer(e, op, m, i, a, v) == Transfer(e, op, m, i, a, 0)
  {}

  lemma Wraps(addr: Word, a: Word)
    requires a < 0x1000_0000 && (addr == a || AddW(addr, 4) == a)
    ensures AddW(a, 4) == a + 4 && (addr == a ==> AddW(addr, 4) == a + 4)
    ensures (AddW(addr, 4) == a ==> AddW(AddW(addr, 4), 4) == a + 4)
  {}

  /** A point of the helper's loop from which the rest of the list is a clear run at a. */
  ghost predicate Underway(e: Env, op: Opc, m: M, list: nat, i: nat, addr: Word, a: Word) {
    Valid(e, m) && i <= 15 && list < Pow2(15 - i)
    && a == (if op.pre == op.up then AddW(addr, 4) else addr)
    && Span(e, op.load, a, Count(list))
    && (!op.load && op.wb && op.rn >= i ==> !Has(list, op.rn - i))
  }
  lemma EvenNext(e: Env, op: Opc, m: M, list: nat, i: nat, addr: Word, a: Word)
    requires Underway(e, op, m, list, i, addr, a) && list != 0 && list % 2 == 0
    ensures i < 15 && Underway(e, op, m, list / 2, i + 1, addr, a) && Count(list / 2) == Count(list)
  { HalfList(list, i); hide Span, Pow2, Valid; }
  lemma RunMapped(e: Env, op: Opc, m: M, list: nat, i: nat, addr: Word, a: Word)
    requires Underway(e, op, m, list, i, addr, a) && list != 0
    ensures Mapped(e, a) && i < 15
  { CountPositive(list); HalfList(list, i); SpanMapped(e, op.load, a, Count(list)); hide Span, Pow2, Valid, Count; }
  /** What the odd step transfers, and where it leaves the run. */
  lemma OddOne(e: Env, op: Opc, m: M, list: nat, i: nat, addr: Word, a: Word)
    requires Underway(e, op, m, list, i, addr, a) && list % 2 == 1 && i < 15 && Mapped(e, a)
    ensures HostAt(e, a) + 4 <= |m.mem| && Count(list) == 1 + Count(list / 2) && !(i == op.rn && op.wb && !op.load)
    ensures Transfer(e, op, m, i, a, m.r[i])
      == FastOne(op.load, m, i, HostAt(e, a)).(cycles := m.cycles + e.cost(Region(a)))
  {
    hide FastOne, Tagged, Region, HostAt, Transfer, Span, Pow2, Valid;
    OneWord(e, op, m, i, a, Count(list), m.r[i]);
  }
  lemma OddNext(e: Env, op: Opc, m: M, list: nat, i: nat, addr: Word, a: Word)
    requires Underway(e, op, m, list, i, addr, a) && list % 2 == 1 && i < 15
    ensures Underway(e, op, Transfer(e, op, m, i, a, m.r[i]), list / 2, i + 1, AddW(addr, 4), AddW(a, 4))
    ensures list / 2 != 0 ==> Region(AddW(a, 4)) == Region(a)
    ensures list / 2 != 0 && Mapped(e, a) && Mapped(e, AddW(a, 4)) ==> HostAt(e, AddW(a, 4)) == HostAt(e, a) + 4
  {
    hide FastOne, Tagged, Region, HostAt, Transfer, Span, Pow2, Valid;
    UnderwayTags(e, op, m, list, i, addr, a);
    CountPositive(list / 2); HalfList(list, i);
    SpanMapped(e, op.load, a, Count(list));
    OneWord(e, op, m, i, a, Count(list), m.r[i]);
    SpanNext(e, op.load, a, Count(list));
    Wraps(addr, a);
  }
  ghost predicate Same(e: Env, op: Opc, pc: Word, nb: Word, m: M, list: nat, i: nat, addr: Word, a: Word)
    requires |e.etags| == 0x4_0000 && |e.itags| == 0x8000
  {
    var h := HelperLoop(e, op, pc, nb, m, list, i, addr);
    if list == 0 then h == m
    else Mapped(e, a) && h == FastLoop(op.load, m, list, i, HostAt(e,
        a)).(cycles := m.cycles + Count(list) * e.cost(Region(a)))
  }
  /** The helper's loop is the fast loop over the same run, plus one word charge per register. */
  lemma {:induction false} LoopsAgree(e: Env, op: Opc, pc: Word, nb: Word, m: M, list: nat, i: nat, addr: Word, a: Word)
    requires |e.etags| == 0x4_0000 && |e.itags| == 0x8000 && Underway(e, op, m, list, i, addr, a)
    ensures Same(e, op, pc, nb, m, list, i, addr, a)
    decreases list
  {
    hide FastOne, Tagged, Region, HostAt, Transfer, Underway, Count, Has, HelperLoop, FastLoop;
    UnderwayTags(e, op, m, list, i, addr, a);
    if list == 0 { NoneLeft(e, op, pc, nb, m, i, addr); }
    else {
      RunMapped(e, op, m, list, i, addr, a);
      FastStep(op.load, m, list, i, HostAt(e, a));
      if list % 2 == 0 {
        EvenNext(e, op, m, list, i, addr, a);
        HelperStep(e, op, pc, nb, m, list, i, addr, a);
        LoopsAgree(e, op, pc, nb, m, list / 2, i + 1, addr, a);
      } else { LoopsStep(e, op, pc, nb, m, list, i, addr, a); }
    }
  }
  lemma {:induction false} LoopsStep(e: Env, op: Opc, pc: Word, nb: Word, m: M, list: nat, i: nat, addr: Word, a: Word)
    requires |e.etags| == 0x4_0000 && |e.itags| == 0x8000 && Underway(e, op, m, list, i, addr, a) && list % 2 == 1
    requires i < 15 && Mapped(e, a)
    ensures Same(e, op, pc, nb, m, list, i, addr, a)
    decreases list, 0
  {
    hide FastOne, Tagged, Region, HostAt, Transfer, Underway, Count, Has, HelperLoop, FastLoop;
    UnderwayTags(e, op, m, list, i, addr, a);
    OddOne(e, op, m, list, i, addr, a);
    OddNext(e, op, m, list, i, addr, a);
    HelperStep(e, op, pc, nb, m, list, i, addr, a);
    FastStep(op.load, m, list, i, HostAt(e, a));
    var c := e.cost(Region(a));
    var m1, f1 := Transfer(e, op, m, i, a, m.r[i]), FastOne(op.load, m, i, HostAt(e, a));
    LoopsAgree(e, op, pc, nb, m1, list / 2, i + 1, AddW(addr, 4), AddW(a, 4));
    OneMore(Count(list), c);
    CyclesApart(op.load, f1, list / 2, i + 1, HostAt(e, a) + 4, m.cycles + c);
    if list / 2 == 0 { CountPositive(list / 2); FastEnd(op.load, f1, i + 1, HostAt(e, a) + 4); }
  }
  lemma UnderwayTags(e: Env, op: Opc, m: M, list: nat, i: nat, addr: Word, a: Word)
    requires Underway(e, op, m, list, i, addr, a)
    ensures |e.etags| == 0x4_0000 && |e.itags| == 0x8000 && i <= 15 && Valid(e, m)
    ensures a == if op.pre == op.up then AddW(addr, 4) else addr
  {}
  lemma HelperStep(e: Env, op: Opc, pc: Word, nb: Word, m: M, list: nat, i: nat, addr: Word, a: Word)
    requires |e.etags| == 0x4_0000 && |e.itags| == 0x8000 && i < 15
    requires a == (if op.pre == op.up then AddW(addr, 4) else addr)
    requires list % 2 == 1 ==> !(i == op.rn && op.wb && !op.load)
    ensures HelperLoop(e, op, pc, nb, m, list, i, addr)
      == if list % 2 == 0 then HelperLoop(e, op, pc, nb, m, list / 2, i + 1, addr)
         else HelperLoop(e, op, pc, nb, Transfer(e, op, m, i, a, m.r[i]), list / 2, i + 1, AddW(addr, 4))
  {
    if op.load && list % 2 == 1 {
      TransferBlind(e, op, m, i, a, m.r[i]);
      TransferBlind(e, op, m, i, a, if i == op.rn && op.wb && i != Lowest(op.list) then nb else m.r[i]);
    }
    hide Transfer, Lowest;
  }
  lemma FastStep(load: bool, m: M, list: nat, i: nat, at: nat)
    requires list != 0 && i < 15
    ensures FastLoop(load, m, list, i, at)
      == if list % 2 == 0 then FastLoop(load, m, list / 2, i + 1, at)
         else if at + 4 > |m.mem| then m
         else FastLoop(load, FastOne(load, m, i, at), list / 2, i + 1, at + 4)
  { hide FastOne; }
  lemma FastEnd(load: bool, m: M, i: nat, at: nat) ensures FastLoop(load, m, 0, i, at) == m {}
  lemma OneMore(n: nat, c: nat) requires n > 0 ensures n * c == c + (n - 1) * c {}
  lemma {:induction false} CountPositive(list: nat)
    ensures Count(list) > 0 <==> list > 0
  { if list > 0 { CountPositive(list / 2); } }
  lemma HalfList(list: nat, i: nat)
    requires i <= 15 && 0 < list < Pow2(15 - i)
    ensures i < 15 && list / 2 < Pow2(15 - (i + 1))
  { if i < 15 { assert Pow2(15 - i) == 2 * Pow2(14 - i); } }
  lemma SpanMapped(e: Env, load: bool, a: nat, n: nat)
    requires |e.etags| == 0x4_0000 && |e.itags| == 0x8000 && n > 0 && Span(e, load, a, n)
    ensures Mapped(e, a)
  {}

  // ---- whole opcodes ---------------------------------------------------------------------

  lemma {:induction false} CountBound(list: nat, k: nat)
    requires list < Pow2(k)
    ensures Count(list) <= k
  { if list > 0 { CountBound(list / 2, k - 1); } }
  lemma FifteenBits() ensures Pow2(15) == 0x8000 { assert Pow2(5) == 32; Pow2Sum(5, 5); Pow2Sum(10, 5); }
  lemma SmallImm(k: int)
    requires -64 <= k <= 64
    ensures SExt8(k) == Lo(k)
  {}
  lemma ClearLow(x: Word) ensures Shl2(x / 4) == Down(x) {}
  lemma AddLo(x: Word, k: int)
    requires -64 <= k <= 64
    ensures AddW(x, Lo(k)) == Lo(x + k)
  {}
  lemma DownMinus(x: Word, n: nat)
    requires n <= 15
    ensures Down(Lo(x - 4 * n)) == Lo(Down(x) - 4 * n) && AddW(Lo(Down(x) - 4 * n), 4) == Lo(Down(x) + (4 - 4 * n))
  {
    var q: int, r: int := x / 4, x % 4;
    var k: int := if q >= n then q - n else q - n + 0x4000_0000;
    ModUnique(x - 4 * n, 0x1_0000_0000, if q >= n then 0 else -1, 4 * k + r);
    ModUnique(Down(x) - 4 * n, 0x1_0000_0000, if q >= n then 0 else -1, 4 * k);
    ModUnique(4 * k + r, 4, k, r);
    AddLo(Lo(Down(x) - 4 * n), 4); SmallLo(4);
    LoAgain(Down(x) - 4 * n, 4);
  }
  lemma SmallLo(x: nat) requires x < 0x100 ensures Lo(x) == x {}
  lemma LoAgain(x: int, k: int) ensures Lo(Lo(x) + k) == Lo(x + k)
  {
    var q: int, m: int := x / 0x1_0000_0000, Lo(x);
    ModUnique(x + k, 0x1_0000_0000, q + (m + k) / 0x1_0000_0000, Lo(m + k));
  }
  /** Both address computations agree, for any base alignment. */
  lemma StartIs(op: Opc, base: Word)
    requires Count(op.list) <= 15
    ensures Start(op, base)
      == (var addr := Down(if op.up then base else NewBase(op, base)); if op.pre == op.up then AddW(addr, 4) else addr)
    ensures AddW(base, SExt8(BaseOffset(op))) == NewBase(op, base)
  {
    var n := Count(op.list);
    hide Count, Lo, AddW, SExt8, Shl2, Down;
    SmallImm(Offset(op)); SmallImm(BaseOffset(op)); ClearLow(base);
    AddLo(Down(base), Offset(op)); AddLo(base, BaseOffset(op));
    SmallImm(4); AddLo(Down(base), 4); DownMinus(base, n);
    LoWord(Down(base)); LoWord(4);
  }
  lemma LoWord(x: Word) ensures Lo(x) == x {}

  lemma GuardsSpan(e: Env, load: bool, a: Word, n: nat)
    requires |e.etags| == 0x4_0000 && |e.itags| == 0x8000 && 0 < n <= 15 && Guards(e, load, a, n)
    ensures Span(e, load, a, n) && Mapped(e, a)
    ensures !load ==> Region(a) in {2, 3, 6}
  {
    LoWord(a + 4 * n - 1);
    OnePage(a, 4 * n);
    hide Untagged, Lo;
  }
  lemma OnePage(a: nat, len: nat)
    requires 0 < len && a / 0x8000 == (a + len - 1) / 0x8000
    ensures a % 0x8000 + len <= 0x8000
  {}
  lemma WordCostIs(e: Env, m: M, load: bool, a: Word)
    requires Valid(e, m) && (!load ==> Region(a) in {2, 3, 6})
    ensures WordCost(e, load, a) == e.cost(Region(a))
  { hide Region; }

  function FirstAddr(op: Opc, base: Word): Word { Down(if op.up then base else NewBase(op, base)) }
  lemma RunStarts(e: Env, op: Opc, m: M)
    requires Valid(e, m) && op.rn < 16 && Native(op) && Guards(e, op.load, Start(op, m.r[op.rn]), Count(op.list))
    ensures var base := m.r[op.rn]; var a := Start(op, base);
      Mapped(e, a) && Underway(e, op, m, op.list, 0, FirstAddr(op, base), a)
      && WordCost(e, op.load, a) == e.cost(Region(a))
      && AddW(base, SExt8(BaseOffset(op))) == NewBase(op, base)
  {
    var base, n := m.r[op.rn], Count(op.list);
    hide Guards, Valid, Span, Start, NewBase, Count, Has, Pow2, Region, Down, SExt8, BaseOffset, WordCost, AddW, Mapped;
    FifteenBits(); CountBound(op.list, 15); CountPositive(op.list);
    StartIs(op, base);
    ValidTags(e, m);
    GuardsSpan(e, op.load, Start(op, base), n);
    WordCostIs(e, m, op.load, Start(op, base));
  }
  lemma ValidTags(e: Env, m: M) requires Valid(e, m) ensures |e.etags| == 0x4_0000 && |e.itags| == 0x8000 {}
  lemma FastCorrect(e: Env, op: Opc, pc: Word, m: M)
    requires Valid(e, m) && op.rn < 16 && Native(op) && Guards(e, op.load, Start(op, m.r[op.rn]), Count(op.list))
    ensures Mapped(e, Start(op, m.r[op.rn])) && Fast(e, op, m) == Helper(e, op, pc, m)
  {
    hide Guards, Valid, Span, Start, NewBase, Count, Has, HelperLoop, FastLoop, Region, HostAt, Down, SExt8, BaseOffset,
         WordCost, AddW, Underway, Mapped, Pow2;
    ValidTags(e, m);
    RunStarts(e, op, m);
    var base := m.r[op.rn];
    LoopsAgree(e, op, pc, NewBase(op, base), m, op.list, 0, FirstAddr(op, base), Start(op, base));
    CyclesApart(op.load, m, op.list, 0, HostAt(e, Start(op, base)), m.cycles);
    assert m.(cycles := m.cycles) == m;
  }

  lemma FastKeeps(load: bool, m: M, list: nat, i: nat, at: nat)
    ensures FastLoop(load, m, list, i, at)
      == m.(r := FastLoop(load, m, list, i, at).r, mem := FastLoop(load, m, list, i, at).mem)
    decreases list
  {
    hide FastOne;
    if list != 0 && i < 16 {
      if list % 2 == 0 { FastKeeps(load, m, list / 2, i + 1, at); }
      else if at + 4 <= |m.mem| { FastKeeps(load, FastOne(load, m, i, at), list / 2, i + 1, at + 4); }
    }
  }
}
