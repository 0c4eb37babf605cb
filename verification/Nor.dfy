/** The ROM address index over a fragmented file: 4 KiB block table, 32 KiB pages, gather read. */
module Nor {
  import opened Words
  import opened Sh4
  import opened GuestBus

  const PAGE_SIZE: nat := 0x8000
  const MAX_BLOCKS: nat := 8192

  /** What the OS said about one block: a failed call, and the address it left behind. */
  datatype Query = Query(failed: bool, raw: Option<nat>)

  /** The file, the flash it lies in, the OS answers, and which addresses are durable pointers. */
  datatype Rom = Rom(file: seq<Byte>, flash: seq<Byte>, answers: seq<Query>, durable: nat -> bool) {
    function Size(): nat { |file| }
    function Pages(): nat { (|file| + 0x7FFF) / 0x8000 }
    function Total(): nat { 8 * Pages() }
    function FileBlocks(): nat { (|file| + 0xFFF) / 0x1000 }
  }
  /** A logical ROM byte: past the end the bus reads as 0xFF. */
  function FileByte(r: Rom, x: nat): Byte { if x < |r.file| then r.file[x] else 0xFF }

  /** The first block whose query failed or gave no address. */
  function FirstFailed(q: seq<Query>): nat {
    if q == [] then 0 else if q[0].failed || q[0].raw.None? then 0 else 1 + FirstFailed(q[1..])
  }
  /** Failures the table builder gets to see: block 0's own, and the first one. */
  predicate SeenToFail(r: Rom, b: nat)
    requires b < |r.answers|
  { (b == 0 || b == FirstFailed(r.answers)) && r.answers[b].failed }

  /** The pointer published for block b of the file. */
  function Published(r: Rom, b: nat): Option<nat> {
    if b >= |r.answers| || 0x1000 * (b + 1) > |r.file| || SeenToFail(r, b) then None
    else
      match r.answers[b].raw
      case None => None
      case Some(p) => if r.durable(p) && p % 4 == 0 then Some(p) else None
  }
  /** cgba_block_addr: the file's blocks, repeated through the 32 MiB window. */
  function Entry(r: Rom, b: nat): Option<nat>
    requires r.Total() > 0
  { Published(r, b % r.Total()) }

  /** The block at flash address p holds the file's block b. */
  ghost predicate Placed(r: Rom, p: nat, b: nat) {
    p + 0x1000 <= |r.flash| && 0x1000 * (b + 1) <= |r.file|
    && r.flash[p..p + 0x1000] == r.file[0x1000 * b..0x1000 * (b + 1)]
  }
  predicate Whole(r: Rom, b: nat) { 0x1000 * (b + 1) <= |r.file| }
  /** A durable address for a whole block of the file. */
  predicate Usable(r: Rom, b: nat)
    requires b < |r.answers|
  { Whole(r, b) && r.answers[b].raw.Some? && r.durable(r.answers[b].raw.value) }
  /** One answer per block, and a query that does not fail answers with its own block's address. */
  ghost predicate Honest(r: Rom) {
    |r.answers| == r.FileBlocks()
    && forall b :: 0 <= b < |r.answers| && !r.answers[b].failed && Usable(r, b) ==>
         Placed(r, r.answers[b].raw.value, b)
  }
  /** A failure the builder does not see left a usable address behind. */
  predicate Stale(r: Rom, b: nat) {
    0 < b < |r.answers| && r.answers[b].failed && b != FirstFailed(r.answers)
    && Usable(r, b) && r.answers[b].raw.value % 4 == 0
  }
  ghost predicate Harmless(r: Rom) { forall b: nat :: Stale(r, b) ==> Placed(r, r.answers[b].raw.value, b) }
  ghost predicate Sound(r: Rom) { forall b: nat :: Published(r, b).Some? ==> Placed(r, Published(r, b).value, b) }

  /** With an honest file system the published table is right exactly when no block but the first
      failed one and block 0 failed and yet left a usable address of something else. */
  lemma SoundIff(r: Rom)
    requires Honest(r)
    ensures Sound(r) <==> Harmless(r)
  {
    hide Placed;
    forall b: nat ensures Stale(r, b) ==> Published(r, b) == r.answers[b].raw {}
    if Harmless(r) {
      forall b: nat | Published(r, b).Some? ensures Placed(r, Published(r, b).value, b) { PublishedIs(r, b); }
    }
  }
  lemma PublishedIs(r: Rom, b: nat)
    requires Published(r, b).Some?
    ensures b < |r.answers| && Whole(r, b) && r.answers[b].raw == Published(r, b)
    ensures var p := Published(r, b).value; r.durable(p) && p % 4 == 0
    ensures r.answers[b].failed ==> Stale(r, b)
  {}
  /** What a caller can check before building: failed queries leave no address. */
  lemma CleanIsSound(r: Rom)
    requires Honest(r) && forall q <- r.answers :: q.failed ==> q.raw.None?
    ensures Sound(r)
  {
    forall b: nat ensures !Stale(r, b) { if b < |r.answers| { assert r.answers[b] in r.answers; } }
    SoundIff(r);
    hide Placed;
  }

  /** A page is direct when its eight blocks follow one another. */
  predicate Contiguous(t: seq<Option<nat>>, p: nat)
    requires 8 * p + 8 <= |t|
  { t[8 * p].Some? && forall i :: 1 <= i < 8 ==> t[8 * p + i] == Some(t[8 * p].value + 0x1000 * i) }
  function PageEntry(t: seq<Option<nat>>, p: nat): Option<nat>
    requires 8 * p + 8 <= |t|
  { if Contiguous(t, p) && t[8 * p].value % 4 == 0 then t[8 * p] else None }

  // ---- what the entries mean ----------------------------------------------------------

  lemma Covers(r: Rom)
    ensures r.FileBlocks() <= r.Total() && (|r.file| > 0 ==> r.Total() > 0)
  {}

  /** A block entry, mirrored or not, holds exactly its block, all of it inside the file. */
  lemma EntrySound(r: Rom, b: nat)
    requires Honest(r) && Harmless(r) && r.Total() > 0 && Entry(r, b).Some?
    ensures Entry(r, b).value % 4 == 0 && Placed(r, Entry(r, b).value, b % r.Total())
  { hide Placed; SoundIff(r); PublishedIs(r, b % r.Total()); }

  /** A mirrored address through the block table reads the file byte. */
  lemma BlockByte(r: Rom, x: nat)
    requires Honest(r) && Harmless(r) && r.Total() > 0 && Entry(r, x / 0x1000).Some?
    ensures var p, y := Entry(r, x / 0x1000).value, x % (r.Total() * 0x1000);
      y < |r.file| && p + x % 0x1000 < |r.flash| && r.flash[p + x % 0x1000] == FileByte(r, y)
  {
    EntrySound(r, x / 0x1000);
    MirrorOffset(x, r.Total());
    BlockSlice(r, Entry(r, x / 0x1000).value, (x / 0x1000) % r.Total(), x % 0x1000);
    hide Placed, Published;
  }
  lemma BlockSlice(r: Rom, p: nat, b: nat, i: nat)
    requires Placed(r, p, b) && i < 0x1000
    ensures p + i < |r.flash| && 0x1000 * b + i < |r.file| && r.flash[p + i] == r.file[0x1000 * b + i]
  {
    assert r.flash[p..p + 0x1000][i] == r.file[0x1000 * b..0x1000 * (b + 1)][i];
  }
  lemma MirrorOffset(x: nat, total: nat)
    requires total > 0
    ensures total * 0x1000 > 0 && x % (total * 0x1000) == 0x1000 * ((x / 0x1000) % total) + x % 0x1000
  {
    var q, b := (x / 0x1000) / total, (x / 0x1000) % total;
    assert x / 0x1000 == q * total + b;
    assert x == q * (total * 0x1000) + (0x1000 * b + x % 0x1000) by {
      assert 0x1000 * (q * total + b) == q * (total * 0x1000) + 0x1000 * b;
    }
    assert 0x1000 * b + x % 0x1000 < total * 0x1000 by {
      assert b + 1 <= total; assert 0x1000 * (b + 1) <= total * 0x1000;
    }
    ModUnique(x, total * 0x1000, q, 0x1000 * b + x % 0x1000);
  }

  /** A direct page reads the file's page, every byte of it inside the file. */
  lemma PageByte(r: Rom, t: seq<Option<nat>>, p: nat, i: nat)
    requires Honest(r) && Harmless(r) && 8 * p + 8 <= |t| && 8 * p + 8 <= r.Total() && i < 0x8000
    requires forall b :: 8 * p <= b < 8 * p + 8 ==> t[b] == Published(r, b)
    requires PageEntry(t, p).Some?
    ensures var base := PageEntry(t, p).value;
      base % 4 == 0 && 0x8000 * p + i < |r.file| && base + i < |r.flash|
      && r.flash[base + i] == FileByte(r, 0x8000 * p + i)
  {
    var j, base := i / 0x1000, t[8 * p].value;
    var b := 8 * p + j;
    assert t[b] == Some(base + 0x1000 * j);
    OwnEntry(r, b);
    EntrySound(r, b);
    BlockSlice(r, base + 0x1000 * j, b, i % 0x1000);
    hide Placed, Published;
  }
  lemma OwnEntry(r: Rom, b: nat)
    requires b < r.Total()
    ensures r.Total() > 0 && b % r.Total() == b && Entry(r, b) == Published(r, b)
  { ModUnique(b, r.Total(), 0, b); }

  /** The register-only base the generated code forms for a 4 KiB entry: indexed by the address
      within 32 KiB it reaches the address within the block, whatever the base. */
  lemma SyntheticBase(block: Word, addr: Word)
    ensures AddW(SubW(block, addr % 0x8000 - addr % 0x1000), addr % 0x8000) == AddW(block, addr % 0x1000)
  {}

  /** What the gather read makes of one address when every file read succeeds. */
  function ReadByte(r: Rom, x: nat): Byte
    requires r.Total() > 0
  {
    if x >= |r.file| then 0xFF
    else if Entry(r, x / 0x1000).Some? then FlashByte(r, Entry(r, x / 0x1000).value + x % 0x1000)
    else r.file[x]
  }
  /** Memory outside the flash reads as something of its own. */
  function FlashByte(r: Rom, a: nat): Byte { if a < |r.flash| then r.flash[a] else 0 }

  function Held(r: Rom, from: nat, n: nat): (bs: seq<Byte>)
    ensures |bs| == n && forall i :: 0 <= i < n ==> bs[i] == FlashByte(r, from + i)
  { seq<Byte>(n, i requires 0 <= i < n => FlashByte(r, from + i)) }

  /** Under a sound table the gather read is the file, 0xFF past its end. */
  lemma ReadIsFile(r: Rom, x: nat)
    requires Honest(r) && Harmless(r) && r.Total() > 0
    ensures ReadByte(r, x) == FileByte(r, x)
  {
    if x < |r.file| && Entry(r, x / 0x1000).Some? {
      BlockByte(r, x);
      BlockOf(r, x);
      ModUnique(x / 0x1000, r.Total(), 0, x / 0x1000);
      MirrorOffset(x, r.Total());
    }
    hide Entry;
  }

  /** Three blocks whose second and third queries fail, the third leaving a free block's address. */
  function Unlucky(): Rom {
    Rom(seq(0x3000, _ => 1), seq(0x2000, x => if x < 0x1000 then 1 else 0),
        [Query(false, Some(0)), Query(true, None), Query(true, Some(0x1000))], _ => true)
  }
  /** The second failure goes unseen: its address is published and read, and gives a wrong byte. */
  lemma SecondFailureUnseen()
    ensures var r := Unlucky();
      Honest(r) && !Sound(r) && r.Total() > 0 && Published(r, 2) == Some(0x1000)
      && ReadByte(r, 0x2000) == 0 && FileByte(r, 0x2000) == 1
  {
    var r := Unlucky();
    UnluckyFirst(r.answers);
    assert r.flash[0..0x1000] == r.file[0..0x1000];
    assert r.flash[0x1000] != r.file[0x2000];
    assert Published(r, 2) == Some(0x1000);
    assert Entry(r, 2) == Some(0x1000);
    if Placed(r, 0x1000, 2) { BlockSlice(r, 0x1000, 2, 0); }
  }
  lemma UnluckyFirst(q: seq<Query>)
    requires |q| == 3 && !q[0].failed && q[0].raw.Some? && q[1].failed
    ensures FirstFailed(q) == 1
  { assert q[1..][0] == q[1]; }

  // ---- building and reading ----------------------------------------------------------------

  /** What len bytes from `at` read as, mirrors not followed. */
  function Bytes(r: Rom, at: nat, len: nat): (bs: seq<Byte>)
    requires r.Total() > 0
    ensures |bs| == len && forall i :: 0 <= i < len ==> bs[i] == ReadByte(r, at + i)
  { seq<Byte>(len, i requires 0 <= i < len => ReadByte(r, at + i)) }

  class Index {
    var table: seq<Option<nat>>
    var total: nat
    var pages: seq<Option<nat>>
    var page0: seq<Byte>
    var direct: int

    constructor ()
      ensures table == [] && total == 0 && pages == [] && page0 == [] && direct == 0
    { table, total, pages, page0, direct := [], 0, [], [], 0; }

    /** The table as built: own entries, then mirrors to the end of the window. */
    ghost predicate Built(r: Rom) reads this {
      total == r.Total() > 0 && |table| == MAX_BLOCKS && total <= MAX_BLOCKS
      && forall b :: 0 <= b < MAX_BLOCKS ==> table[b] == Entry(r, b)
    }
    ghost predicate Classified(r: Rom) reads this {
      Built(r) && |pages| == r.Pages()
      && forall p :: 1 <= p < r.Pages() ==> pages[p] == PageEntry(table, p)
    }

    method FirstFailure(q: seq<Query>) returns (b: nat)
      ensures b == FirstFailed(q)
    {
      b := 0;
      assert q[0..] == q;
      while b < |q|
        invariant b <= |q| && FirstFailed(q) == b + FirstFailed(q[b..])
      {
        if q[b].failed || q[b].raw.None? { return; }
        assert q[b..][1..] == q[b + 1..];
        b := b + 1;
      }
    }

    /** The per-block loop and the mirror loop of build_block_table. */
    method FillTable(r: Rom)
      requires 0 < r.Total() <= MAX_BLOCKS
      modifies this`table, this`total
      ensures Built(r)
    {
      hide Published;
      var bad := FirstFailure(r.answers);
      var b := 0;
      total := r.Total();
      table := [];
      while b < total
        invariant b <= total && |table| == b && total == r.Total() && forall k :: 0 <= k < b ==>
          table[k] == Published(r, k)
      {
        var e := Resolve(r, b, bad);
        table := table + [e];
        b := b + 1;
      }
      while b < MAX_BLOCKS
        invariant total == r.Total() && total <= b <= MAX_BLOCKS && |table| == b
        invariant forall k :: 0 <= k < total ==> table[k] == Published(r, k)
        invariant forall k :: total <= k < b ==> table[k] == Entry(r, k)
      {
        table := table + [table[b % total]];
        b := b + 1;
      }
      forall k | 0 <= k < total ensures table[k] == Entry(r, k) { OwnEntry(r, k); }
    }
    method Resolve(r: Rom, b: nat, bad: nat) returns (e: Option<nat>)
      requires bad == FirstFailed(r.answers)
      ensures e == Published(r, b)
    {
      if 0x1000 * b >= |r.file| || b >= |r.answers| { return None; }
      var failed := (b == 0 || b == bad) && r.answers[b].failed;
      e := if failed then None else if r.answers[b].raw.Some? && r.durable(r.answers[b].raw.value) then r.answers[b].raw else None;
      if e.Some? && (e.value % 4 != 0 || 0x1000 * (b + 1) > |r.file|) { e := None; }
    }

    method Classify(p: nat) returns (e: Option<nat>)
      requires 8 * p + 8 <= |table|
      ensures e == PageEntry(table, p)
    {
      var base := table[8 * p];
      if base.None? { return None; }
      var i := 1;
      while i < 8
        invariant 1 <= i <= 8
        invariant forall k :: 1 <= k < i ==> table[8 * p + k] == Some(base.value + 0x1000 * k)
      {
        if table[8 * p + i] != Some(base.value + 0x1000 * i) { return None; }
        i := i + 1;
      }
      return if base.value % 4 == 0 then base else None;
    }

    /** build_block_table; false when the file is too long for the window. */
    method Build(r: Rom, readOk: nat -> bool) returns (ok: bool)
      requires |r.file| > 0
      modifies this
      ensures ok == (r.Total() <= MAX_BLOCKS)
      ensures ok ==> Classified(r) && pages[0].None?
      ensures ok && (forall x :: readOk(x)) ==> r.Total() > 0 && page0 == Bytes(r, 0, PAGE_SIZE)
    {
      hide Published, Placed;
      Covers(r);
      if r.Total() > MAX_BLOCKS { return false; }
      FillTable(r);
      direct, pages := 0, [];
      var p := 0;
      while p < r.Pages()
        invariant p <= r.Pages() && |pages| == p && Built(r)
        invariant forall k :: 0 <= k < p ==> pages[k] == PageEntry(table, k)
      {
        var e := Classify(p);
        if e.Some? { direct := direct + 1; }
        pages := pages + [e];
        p := p + 1;
      }
      if pages[0].Some? { direct := direct - 1; }
      page0 := Read(r, 0, PAGE_SIZE, readOk);
      pages := pages[0 := None];
      ok := true;
    }

    /** cgba_nor_rom_read: block pieces from flash, else from the file system, and open bus past
        the true end. */
    method Read(r: Rom, offset0: nat, len0: nat, readOk: nat -> bool) returns (out: seq<Byte>)
      requires Built(r)
      ensures |out| == len0 && ((forall x :: readOk(x)) ==> out == Bytes(r, offset0, len0))
    {
      hide Placed, Published;
      out := [];
      var offset, len := offset0, len0;
      while len > 0
        invariant 0 <= len <= len0 && offset == offset0 + |out| && |out| + len == len0
        invariant (forall x :: readOk(x)) ==> out == Bytes(r, offset0, |out|)
      {
        var block, intra := offset / 0x1000, offset % 0x1000;
        var chunk := if 0x1000 - intra > len then len else 0x1000 - intra;
        var piece: seq<Byte>;
        if offset >= |r.file| {
          piece := seq(chunk, _ => 0xFF);
          assert piece == Bytes(r, offset, chunk);
        } else {
          if offset + chunk > |r.file| { chunk := |r.file| - offset; }
          piece := Piece(r, offset, chunk, readOk);
        }
        Longer(r, offset0, |out|, chunk);
        out := out + piece;
        offset, len := offset + chunk, len - chunk;
      }
    }
    method Piece(r: Rom, offset: nat, chunk: nat, readOk: nat -> bool) returns (piece: seq<Byte>)
      requires Built(r)
      requires chunk > 0 && offset % 0x1000 + chunk <= 0x1000 && offset + chunk <= |r.file|
      ensures |piece| == chunk && (readOk(offset) ==> piece == Bytes(r, offset, chunk))
    {
      hide Placed, Published;
      var block := offset / 0x1000;
      BlockOf(r, offset);
      var src := if block < total then table[block] else None;
      if src.Some? {
        var from := src.value + offset % 0x1000;
        piece := Held(r, from, chunk);
        forall i | 0 <= i < chunk ensures piece[i] == ReadByte(r, offset + i) { SameBlock(offset, i); }
      } else if block < total && readOk(offset) {
        piece := r.file[offset..offset + chunk];
        forall i | 0 <= i < chunk ensures piece[i] == ReadByte(r, offset + i) { SameBlock(offset, i); }
      } else {
        piece := seq(chunk, _ => 0xFF);
      }
    }
  }
  lemma Longer(r: Rom, at: nat, n: nat, k: nat)
    requires r.Total() > 0
    ensures Bytes(r, at, n) + Bytes(r, at + n, k) == Bytes(r, at, n + k)
  {}
  lemma BlockOf(r: Rom, offset: nat)
    requires offset < |r.file|
    ensures offset / 0x1000 < r.Total()
  {}
  lemma SameBlock(x: nat, i: nat)
    requires x % 0x1000 + i < 0x1000
    ensures (x + i) / 0x1000 == x / 0x1000 && (x + i) % 0x1000 == x % 0x1000 + i
  { ModUnique(x + i, 0x1000, x / 0x1000, x % 0x1000 + i); }
}
