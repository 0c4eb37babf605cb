/** Bulk halfword copies into OAM, whose 1 KiB repeats through its region. */
module Oam {
  import opened Words
  import opened GuestBus

  const OAM_SIZE: nat := 0x400

  function Splice(oam: seq<Byte>, off: nat, bs: seq<Byte>): (r: seq<Byte>)
    requires off + |bs| <= |oam|
    ensures |r| == |oam|
  { oam[..off] + bs + oam[off + |bs|..] }

  /** Halfword offset of a destination within the repeated array. */
  function Off(dest: nat): (off: nat)
    ensures off + 2 <= OAM_SIZE
  { 2 * ((dest / 2) % 0x200) }
  lemma OffIs(dest: nat)
    requires dest % 2 == 0
    ensures Off(dest) == dest % OAM_SIZE
  { ModSplit(dest, 0x200); }
  lemma OffNext(dest: nat, n: nat)
    requires Off(dest) + 2 * n <= OAM_SIZE
    ensures Off(dest + 2 * n) == if Off(dest) + 2 * n == OAM_SIZE then 0 else Off(dest) + 2 * n
  {
    var h: int := dest / 2;
    assert (dest + 2 * n) / 2 == h + n;
    var q: int, r: int := h / 0x200, h % 0x200;
    if r + n == 0x200 { ModUnique(h + n, 0x200, q + 1, 0); } else { ModUnique(h + n, 0x200, q, r + n); }
  }

  /** One guest halfword store per element, the mirror followed each time. */
  function Stores(oam: seq<Byte>, dest: nat, src: seq<Byte>, n: nat): (r: seq<Byte>)
    requires |oam| == OAM_SIZE && |src| == 2 * n
    ensures |r| == OAM_SIZE
    decreases n
  { if n == 0 then oam else Stores(Splice(oam, Off(dest), src[..2]), dest + 2, src[2..], n - 1) }
  /** The copy loop: up to the end of the array, then from its start. */
  function Chunks(oam: seq<Byte>, off: nat, src: seq<Byte>): (r: seq<Byte>)
    requires |oam| == OAM_SIZE && off < OAM_SIZE
    ensures |r| == OAM_SIZE
    decreases |src|
  {
    if src == [] then oam
    else
      var n := if OAM_SIZE - off > |src| then |src| else OAM_SIZE - off;
      Chunks(Splice(oam, off, src[..n]), 0, src[n..])
  }

  lemma SpliceTwo(oam: seq<Byte>, off: nat, src: seq<Byte>)
    requires |src| >= 2 && off + |src| <= |oam|
    ensures Splice(Splice(oam, off, src[..2]), off + 2, src[2..]) == Splice(oam, off, src)
  {
    var o1 := Splice(oam, off, src[..2]);
    assert o1[..off + 2] == oam[..off] + src[..2];
    assert src[..2] + src[2..] == src;
    assert o1[off + 2 + |src[2..]|..] == oam[off + |src|..];
  }
  lemma SpliceNone(oam: seq<Byte>, off: nat) requires off <= |oam| ensures Splice(oam, off, []) == oam {}

  /** Stores that stay below the end of the array make one splice. */
  lemma {:induction false} StoresSplice(oam: seq<Byte>, dest: nat, src: seq<Byte>, n: nat)
    requires |oam| == OAM_SIZE && |src| == 2 * n && Off(dest) + 2 * n <= OAM_SIZE
    ensures Stores(oam, dest, src, n) == Splice(oam, Off(dest), src)
    decreases n
  {
    hide Splice, Off;
    if n == 0 { SpliceNone(oam, Off(dest)); }
    else {
      OffNext(dest, 1);
      SpliceTwo(oam, Off(dest), src);
      if n == 1 { assert src[2..] == []; SpliceNone(Splice(oam, Off(dest), src[..2]), Off(dest) + 2); }
      else { StoresSplice(Splice(oam, Off(dest), src[..2]), dest + 2, src[2..], n - 1); }
    }
  }
  lemma {:induction false} StoresSplit(oam: seq<Byte>, dest: nat, x: seq<Byte>, n: nat, y: seq<Byte>, k: nat)
    requires |oam| == OAM_SIZE && |x| == 2 * n && |y| == 2 * k
    ensures Stores(oam, dest, x + y, n + k) == Stores(Stores(oam, dest, x, n), dest + 2 * n, y, k)
    decreases n
  {
    hide Splice, Off;
    if n == 0 { assert x + y == y; }
    else {
      assert (x + y)[..2] == x[..2] && (x + y)[2..] == x[2..] + y;
      StoresSplit(Splice(oam, Off(dest), x[..2]), dest + 2, x[2..], n - 1, y, k);
    }
  }

  /** However often the run wraps, the chunked copy is the stores one by one. */
  lemma {:induction false} ChunksAreStores(oam: seq<Byte>, dest: nat, src: seq<Byte>, n: nat)
    requires |oam| == OAM_SIZE && |src| == 2 * n
    ensures Chunks(oam, Off(dest), src) == Stores(oam, dest, src, n)
    decreases n
  {
    if n > 0 {
      var k := if OAM_SIZE - Off(dest) > 2 * n then n else (OAM_SIZE - Off(dest)) / 2;
      var o1 := Splice(oam, Off(dest), src[..2 * k]);
      assert src[..2 * k] + src[2 * k..] == src;
      OffNext(dest, k);
      StoresSplice(oam, dest, src[..2 * k], k);
      StoresSplit(oam, dest, src[..2 * k], k, src[2 * k..], n - k);
      if k < n { ChunksAreStores(o1, dest + 2 * k, src[2 * k..], n - k); }
      hide Splice, Stores, Off;
    }
  }

  // ---- on one host memory --------------------------------------------------------------

  /** The halfword stores of the element loop: each loads its halfword from memory as the earlier
      stores left it. `oamAt` and `srcAt` are host addresses. */
  function HostStores(mem: seq<Byte>, oamAt: nat, dest: nat, srcAt: nat, n: nat): (r: seq<Byte>)
    requires oamAt + OAM_SIZE <= |mem| && srcAt + 2 * n <= |mem|
    ensures |r| == |mem|
    decreases n
  {
    if n == 0 then mem
    else HostStores(Splice(mem, oamAt + Off(dest), mem[srcAt..srcAt + 2]), oamAt, dest + 2, srcAt + 2, n - 1)
  }
  /** Which calls are taken: even destination inside region 7, nothing past its end, and a source
      that does not overlap the array. */
  predicate Taken(oamAt: nat, srcAt: nat, dest: Word, count: nat) {
    count > 0 && dest / 0x100_0000 == 7 && dest % 2 == 0 && count <= (0x800_0000 - dest) / 2
    && !(if srcAt <= oamAt then oamAt - srcAt < 2 * count else srcAt - oamAt < OAM_SIZE)
  }
  predicate Apart(oamAt: nat, srcAt: nat, n: nat) { srcAt + n <= oamAt || oamAt + OAM_SIZE <= srcAt }

  lemma SpliceWithin(mem: seq<Byte>, at: nat, off: nat, bs: seq<Byte>)
    requires at + OAM_SIZE <= |mem| && off + |bs| <= OAM_SIZE
    ensures Splice(mem, at + off, bs) == Splice(mem, at, Splice(mem[at..at + OAM_SIZE], off, bs))
  {}
  lemma SpliceTwice(mem: seq<Byte>, at: nat, x: seq<Byte>, y: seq<Byte>)
    requires at + |x| <= |mem| && |x| == |y|
    ensures Splice(Splice(mem, at, x), at, y) == Splice(mem, at, y) && Splice(mem, at, x)[at..at + |x|] == x
  {}
  lemma SplicePast(mem: seq<Byte>, at: nat, bs: seq<Byte>, x: nat, n: nat)
    requires at + |bs| <= |mem| && x + n <= |mem| && (x + n <= at || at + |bs| <= x)
    ensures Splice(mem, at, bs)[x..x + n] == mem[x..x + n]
  {}
  /** A source apart from the array is read as it was before the first store. */
  lemma {:induction false} ApartFrozen(mem: seq<Byte>, oamAt: nat, dest: nat, srcAt: nat, n: nat)
    requires oamAt + OAM_SIZE <= |mem| && srcAt + 2 * n <= |mem| && Apart(oamAt, srcAt, 2 * n)
    ensures HostStores(mem, oamAt, dest, srcAt, n)
         == Splice(mem, oamAt, Stores(mem[oamAt..oamAt + OAM_SIZE], dest, mem[srcAt..srcAt + 2 * n], n))
    decreases n
  {
    hide Splice, Off;
    var oam, src := mem[oamAt..oamAt + OAM_SIZE], mem[srcAt..srcAt + 2 * n];
    if n == 0 { SpliceSelf(mem, oamAt, OAM_SIZE); }
    else {
      var one := mem[srcAt..srcAt + 2];
      var oam1 := Splice(oam, Off(dest), one);
      var mem1 := Splice(mem, oamAt + Off(dest), one);
      SpliceWithin(mem, oamAt, Off(dest), one);
      SplicePast(mem, oamAt, oam1, srcAt, 2 * n);
      SpliceTwice(mem, oamAt, oam1, Stores(oam1, dest + 2, src[2..], n - 1));
      assert src[..2] == one && src[2..] == mem[srcAt + 2..srcAt + 2 * n];
      assert mem1[srcAt + 2..srcAt + 2 * n] == mem1[srcAt..srcAt + 2 * n][2..];
      ApartFrozen(mem1, oamAt, dest + 2, srcAt + 2, n - 1);
    }
  }
  lemma SpliceSelf(mem: seq<Byte>, at: nat, n: nat)
    requires at + n <= |mem|
    ensures Splice(mem, at, mem[at..at + n]) == mem
  {}
  lemma TakenApart(oamAt: nat, srcAt: nat, dest: Word, count: nat)
    requires Taken(oamAt, srcAt, dest, count)
    ensures Apart(oamAt, srcAt, 2 * count)
  {}
  /** A taken call makes in chunks what the element loop makes on the same memory, and changes
      nothing but the array. */
  lemma TakenIsStores(mem: seq<Byte>, oamAt: nat, dest: Word, srcAt: nat, count: nat)
    requires oamAt + OAM_SIZE <= |mem| && srcAt + 2 * count <= |mem| && Taken(oamAt, srcAt, dest, count)
    ensures var oam, src := mem[oamAt..oamAt + OAM_SIZE], mem[srcAt..srcAt + 2 * count];
      HostStores(mem, oamAt, dest, srcAt, count) == Splice(mem, oamAt, Chunks(oam, Off(dest), src))
    ensures HostStores(mem, oamAt, dest, srcAt, count)[srcAt..srcAt + 2 * count] == mem[srcAt..srcAt + 2 * count]
  {
    hide Splice, Stores, Chunks, HostStores, Taken, Off;
    TakenApart(oamAt, srcAt, dest, count);
    ApartFrozen(mem, oamAt, dest, srcAt, count);
    var oam, src := mem[oamAt..oamAt + OAM_SIZE], mem[srcAt..srcAt + 2 * count];
    ChunksAreStores(oam, dest, src, count);
    SplicePast(mem, oamAt, Chunks(oam, Off(dest), src), srcAt, 2 * count);
  }
  /** Without the overlap test it would not: two halfwords copied up by one from the array itself
      are one halfword twice for the element loop, and two for the chunk. */
  lemma OverlapDiffers(mem: seq<Byte>)
    requires |mem| == OAM_SIZE && mem[0] != mem[2]
    ensures HostStores(mem, 0, 0x700_0002, 0, 2)[4] == mem[0]
    ensures Splice(mem, 0, Chunks(mem, Off(0x700_0002), mem[0..4]))[4] == mem[2]
  {
    OffIs(0x700_0002);
    var mem1 := Splice(mem, 2, mem[0..2]);
    assert mem1[2..4] == mem[0..2];
    assert Off(0x700_0004) == 4 by { OffIs(0x700_0004); }
    var mem2 := Splice(mem1, 4, mem1[2..4]);
    assert HostStores(mem2, 0, 0x700_0006, 4, 0) == mem2;
    assert HostStores(mem1, 0, 0x700_0004, 2, 1) == mem2;
    OneChunk(mem, mem[0..4]);
    hide Off;
  }
  lemma OneChunk(oam: seq<Byte>, src: seq<Byte>)
    requires |oam| == OAM_SIZE && |src| == 4
    ensures Chunks(oam, 2, src) == Splice(oam, 2, src)
  {
    assert src[..4] == src && src[4..] == [];
    assert Chunks(Splice(oam, 2, src), 0, []) == Splice(oam, 2, src);
  }

  /** cgba_sh4_swi_copy_u16_to_oam on the memory that holds both the array and the source. */
  method CopyToOam(mem: array<Byte>, oamAt: nat, srcAt: nat, dest: Word, count: nat) returns (ok: bool, updated: bool)
    requires oamAt + OAM_SIZE <= mem.Length && srcAt + 2 * count <= mem.Length
    modifies mem
    ensures ok == updated == Taken(oamAt, srcAt, dest, count)
    ensures mem[..] == if ok then HostStores(old(mem[..]), oamAt, dest, srcAt, count) else old(mem[..])
  {
    hide Splice, Chunks, HostStores, Taken, Off;
    ok := Admit(oamAt, srcAt, dest, count);
    updated := ok;
    if !ok { return; }
    TakenApart(oamAt, srcAt, dest, count); TakenIsStores(mem[..], oamAt, dest, srcAt, count);
    CopyChunks(mem, oamAt, dest % OAM_SIZE, srcAt, 2 * count);
  }
  method Admit(oamAt: nat, srcAt: nat, dest: Word, count: nat) returns (ok: bool)
    ensures ok == Taken(oamAt, srcAt, dest, count) && (ok ==> dest % OAM_SIZE == Off(dest))
  {
    if count == 0 { return false; }
    if dest / 0x100_0000 != 7 || dest % 2 != 0 { return false; }
    if count > (0x800_0000 - dest) / 2 { return false; }
    if (if srcAt <= oamAt then oamAt - srcAt < 2 * count else srcAt - oamAt < OAM_SIZE) { return false; }
    OffIs(dest);
    return true;
  }
  method CopyChunks(mem: array<Byte>, oamAt: nat, off0: nat, srcAt: nat, len: nat)
    requires oamAt + OAM_SIZE <= mem.Length && srcAt + len <= mem.Length && Apart(oamAt, srcAt, len) && off0 < OAM_SIZE
    modifies mem
    ensures mem[..]
      == Splice(old(mem[..]), oamAt, Chunks(old(mem[oamAt..oamAt + OAM_SIZE]), off0, old(mem[srcAt..srcAt + len])))
  {
    hide Splice, Chunks;
    ghost var was := mem[..];
    ghost var src, oam0 := was[srcAt..srcAt + len], was[oamAt..oamAt + OAM_SIZE];
    ghost var oam := oam0;
    var off, at := off0, 0;
    SpliceSelf(was, oamAt, OAM_SIZE);
    assert src[0..] == src;
    while at < len
      invariant 0 <= at <= len && 0 <= off < OAM_SIZE && |oam| == OAM_SIZE
      invariant mem[..] == Splice(was, oamAt, oam) && Chunks(oam, off, src[at..]) == Chunks(oam0, off0, src)
    {
      var n := if OAM_SIZE - off > len - at then len - at else OAM_SIZE - off;
      oam := Landed(was, mem[..], oamAt, srcAt, len, oam, off, at, n);
      CopyIn(mem, oamAt + off, srcAt + at, n);
      at, off := at + n, 0;
    }
    assert src[at..] == [];
    NoChunks(oam, off);
  }
  lemma NoChunks(oam: seq<Byte>, off: nat)
    requires |oam| == OAM_SIZE && off < OAM_SIZE
    ensures Chunks(oam, off, []) == oam
  {}
  lemma Inner(mem: seq<Byte>, from: nat, len: nat, at: nat, n: nat)
    requires from + len <= |mem| && at + n <= len
    ensures mem[from + at..from + at + n] == mem[from..from + len][at..at + n]
  {
    var a, b := mem[from + at..from + at + n], mem[from..from + len][at..at + n];
    forall k | 0 <= k < n ensures a[k] == b[k] { assert b[k] == mem[from..from + len][at + k] == mem[from + (at + k)]; }
  }
  /** The array after one piece. */
  lemma Landed(was: seq<Byte>, mem: seq<Byte>, oamAt: nat, srcAt: nat, len: nat, oam: seq<Byte>, off: nat, at: nat,
               n: nat) returns (oam1: seq<Byte>)
    requires oamAt + OAM_SIZE <= |was| && srcAt + len <= |was| && Apart(oamAt, srcAt, len) && |oam| == OAM_SIZE
    requires mem == Splice(was, oamAt, oam)
    requires off < OAM_SIZE && at < len && n == if OAM_SIZE - off > len - at then len - at else OAM_SIZE - off
    ensures |oam1| == OAM_SIZE
    ensures Chunks(oam1, 0, was[srcAt..srcAt + len][at + n..]) == Chunks(oam, off, was[srcAt..srcAt + len][at..])
    ensures Splice(mem, oamAt + off, mem[srcAt + at..srcAt + at + n]) == Splice(was, oamAt, oam1)
  {
    hide Splice;
    var src := was[srcAt..srcAt + len];
    oam1 := Splice(oam, off, src[at..at + n]);
    assert src[at..][..n] == src[at..at + n] && src[at..][n..] == src[at + n..];
    SplicePast(was, oamAt, oam, srcAt, len);
    Inner(mem, srcAt, len, at, n);
    SpliceWithin(mem, oamAt, off, src[at..at + n]);
    SpliceTwice(was, oamAt, oam, oam1);
  }
  /** memcpy between ranges that do not overlap. */
  method CopyIn(mem: array<Byte>, to: nat, from: nat, n: nat)
    requires to + n <= mem.Length && from + n <= mem.Length && (from + n <= to || to + n <= from)
    modifies mem
    ensures mem[..] == Splice(old(mem[..]), to, old(mem[from..from + n]))
  {
    var i := 0;
    while i < n
      invariant 0 <= i <= n
      invariant forall k :: 0 <= k < mem.Length ==>
        mem[k] == if to <= k < to + i then old(mem[from + (k - to)]) else old(mem[k])
    {
      mem[to + i] := mem[from + i];
      i := i + 1;
    }
  }
}
