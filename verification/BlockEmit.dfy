/** The cursor that lays down the block-transfer code: placeholders for every guard, patched to
    the slow path once that is reached. */
module BlockEmit {
  import opened Sh4Mem
  import opened Blocks
  import Inline = BlockCode
  import Shared = BlockRoutine
  import opened Words

  /** Code, or a guard still to be aimed at the slow path: over a far branch, or directly. */
  datatype Piece = Text(ins: seq<Ins>) | Far(slowIfT: bool) | Near(onT: bool)

  function Open(p: Piece): seq<Ins> {
    match p
    case Text(s) => s
    case Far(slowIfT) => [if slowIfT then Bf(1) else Bt(1), Bra(0), Nop]
    case Near(onT) => [if onT then Bt(0) else Bf(0)]
  }
  /** The pieces as first laid down. */
  function Placed(ps: seq<Piece>): seq<Ins> { if ps == [] then [] else Open(ps[0]) + Placed(ps[1..]) }
  /** The pieces with every guard aimed at their end. */
  function Linked(ps: seq<Piece>): seq<Ins> {
    if ps == [] then []
    else
      match ps[0]
      case Text(s) => s + Linked(ps[1..])
      case Far(slowIfT) => Inline.Guarded(slowIfT, Linked(ps[1..]))
      case Near(onT) => Shared.Leave(onT, Linked(ps[1..]))
  }
  /** Where the branches to patch lie. */
  function Sites(ps: seq<Piece>, at: nat): seq<nat> {
    if ps == [] then []
    else (match ps[0] case Text(_) => [] case Far(_) => [at + 1] case Near(_) => [at]) + Sites(ps[1..],
        at + |Open(ps[0])|)
  }
  function Aimed(i: Ins, disp: int): Ins {
    match i case Bt(_) => Bt(disp) case Bf(_) => Bf(disp) case Bra(_) => Bra(disp) case _ => i
  }
  function PatchAll(code: seq<Ins>, sites: seq<nat>, to: nat): (r: seq<Ins>)
    requires forall i :: 0 <= i < |sites| ==> sites[i] < |code|
    ensures |r| == |code|
    decreases |sites|
  {
    if sites == [] then code
    else PatchAll(code[sites[0] := Aimed(code[sites[0]], to - sites[0] - 2)], sites[1..], to)
  }

  lemma {:induction false} SitesFit(ps: seq<Piece>, at: nat)
    ensures forall i :: 0 <= i < |Sites(ps, at)| ==> at <= Sites(ps, at)[i] < at + |Placed(ps)|
  { if ps != [] { SitesFit(ps[1..], at + |Open(ps[0])|); } }
  lemma {:induction false} LinkedLength(ps: seq<Piece>)
    ensures |Linked(ps)| == |Placed(ps)|
  { if ps != [] { LinkedLength(ps[1..]); } }

  /** A piece with its guard aimed over the n instructions behind it. */
  function AimedPiece(p: Piece, n: nat): seq<Ins> {
    match p
    case Text(s) => s
    case Far(slowIfT) => [if slowIfT then Bf(1) else Bt(1), Bra(n), Nop]
    case Near(onT) => [if onT then Bt(n - 1) else Bf(n - 1)]
  }
  lemma AimOne(pre: seq<Ins>, p: Piece, tail: seq<Ins>)
    requires !p.Text?
    ensures var code, site := pre + Open(p) + tail, if p.Far? then |pre| + 1 else |pre|;
      site < |code| && code[site := Aimed(code[site], |code| - site - 2)] == pre + AimedPiece(p, |tail|) + tail
  {
    var code, site := pre + Open(p) + tail, if p.Far? then |pre| + 1 else |pre|;
    assert code[site] == if p.Far? then Bra(0) else Open(p)[0];
  }
  lemma LinkedHead(p: Piece, rest: seq<Piece>)
    ensures Linked([p] + rest) == AimedPiece(p, |Linked(rest)|) + Linked(rest)
  { assert ([p] + rest)[1..] == rest; }
  lemma SitesHead(p: Piece, rest: seq<Piece>, at: nat)
    ensures Sites([p] + rest, at)
      == (if p.Text? then [] else [if p.Far? then at + 1 else at]) + Sites(rest, at + |Open(p)|)
    ensures Placed([p] + rest) == Open(p) + Placed(rest)
  { assert ([p] + rest)[1..] == rest; hide Open; }
  lemma {:induction false} PatchedIsLinked(pre: seq<Ins>, ps: seq<Piece>)
    ensures forall i :: 0 <= i < |Sites(ps, |pre|)| ==> Sites(ps, |pre|)[i] < |pre + Placed(ps)|
    ensures PatchAll(pre + Placed(ps), Sites(ps, |pre|), |pre + Placed(ps)|) == pre + Linked(ps)
    decreases |ps|
  {
    hide Open, AimedPiece, Aimed, PatchAll, Linked, Sites, Placed;
    SitesFit(ps, |pre|);
    Empties(pre);
    if ps != [] {
      var p, rest := ps[0], ps[1..];
      assert ps == [p] + rest;
      SitesHead(p, rest, |pre|); LinkedHead(p, rest); LinkedLength(rest);
      var aimed := AimedPiece(p, |Linked(rest)|);
      SameLength(p, |Linked(rest)|);
      PatchedIsLinked(pre + aimed, rest);
      Assoc(pre, Open(p), Placed(rest)); Assoc(pre, aimed, Linked(rest));
      if !p.Text? {
        AimOne(pre, p, Placed(rest));
        PatchHead(pre + Placed(ps), Sites(ps, |pre|), |pre + Placed(ps)|);
        assert Sites(ps, |pre|)[1..] == Sites(rest, |pre + aimed|);
      } else { assert Sites(ps, |pre|) == Sites(rest, |pre + aimed|); }
    }
  }
  lemma Empties(pre: seq<Ins>)
    ensures Placed([]) == [] && Linked([]) == [] && Sites([], |pre|) == [] && PatchAll(pre, [], |pre|) == pre
    ensures pre + [] == pre
  {}
  lemma SameLength(p: Piece, n: nat)
    ensures |AimedPiece(p, n)| == |Open(p)| && (p.Text? ==> AimedPiece(p, n) == Open(p))
  {}
  lemma Assoc(a: seq<Ins>, b: seq<Ins>, c: seq<Ins>) ensures a + (b + c) == a + b + c {}
  lemma PatchHead(code: seq<Ins>, sites: seq<nat>, to: nat)
    requires sites != [] && forall i :: 0 <= i < |sites| ==> sites[i] < |code|
    ensures PatchAll(code, sites, to)
      == PatchAll(code[sites[0] := Aimed(code[sites[0]], to - sites[0] - 2)], sites[1..], to)
  {}

  lemma {:induction false} PlacedAppend(a: seq<Piece>, b: seq<Piece>)
    ensures Placed(a + b) == Placed(a) + Placed(b)
    decreases |a|
  {
    if a == [] { assert a + b == b; }
    else { assert (a + b)[1..] == a[1..] + b; PlacedAppend(a[1..], b); }
    hide Open;
  }
  lemma {:induction false} SitesAppend(a: seq<Piece>, b: seq<Piece>, at: nat)
    ensures Sites(a + b, at) == Sites(a, at) + Sites(b, at + |Placed(a)|)
    decreases |a|
  {
    hide Open, Sites, Placed;
    if a == [] { assert a + b == b; NoPieces(at); }
    else {
      var p, r := a[0], a[1..];
      assert a == [p] + r && a + b == [p] + (r + b);
      SitesHead(p, r, at); SitesHead(p, r + b, at);
      SitesAppend(r, b, at + |Open(p)|);
    }
  }
  lemma NoPieces(at: nat) ensures Sites([], at) == [] && Placed([]) == [] {}
  lemma OnePiece(p: Piece, at: nat)
    ensures Placed([p]) == Open(p)
    ensures Sites([p], at) == match p case Text(_) => [] case Far(_) => [at + 1] case Near(_) => [at]
  { assert [p][1..] == []; hide Open; }
  lemma LinkText(s: seq<Ins>, rest: seq<Piece>)
    ensures Linked([Text(s)] + rest) == s + Linked(rest)
  { assert ([Text(s)] + rest)[1..] == rest; }
  lemma LinkFar(b: bool, rest: seq<Piece>)
    ensures Linked([Far(b)] + rest) == Inline.Guarded(b, Linked(rest))
  { assert ([Far(b)] + rest)[1..] == rest; }
  lemma LinkNear(b: bool, rest: seq<Piece>)
    ensures Linked([Near(b)] + rest) == Shared.Leave(b, Linked(rest))
  { assert ([Near(b)] + rest)[1..] == rest; }

  // ---- the inline form in pieces ------------------------------------------------------------

  function HeadPieces(op: Opc): seq<Piece> {
    [Text(Inline.Head(op)), Text(Inline.Straddle(Count(op.list))), Far(false), Text(Inline.Bound()), Far(true)]
  }
  function RegionPieces(load: bool): seq<Piece> {
    if load then [Text(Inline.LoadRegion()), Far(true)]
    else [Text(Inline.StoreRegion()), Text([Bt(4)]), Text(Inline.InRam()), Far(false)]
  }
  function PagePieces(table: Word): seq<Piece> {
    [Text(Inline.PageIndex(table)), Text([LdL(R3, R3)]), Text([Tst(R3, R3)]), Far(true), Text(Inline.InPage())]
  }
  function ScanPieces(k: nat, n: nat): seq<Piece> {
    if k == 0 then [Text([AddI(0 - 4 * n, R0)])]
    else [Text([LdL(R6, R4)]), Text([Tst(R4, R4)]), Far(false), Text([AddI(4, R0)])] + ScanPieces(k - 1, n)
  }
  function AdmitPieces(load: bool, n: nat): seq<Piece> {
    if load then [Text(Inline.HostAligned()), Far(false)]
    else [Text(Inline.IsRegion(6)), Text([Bt(|Inline.TagPage()| + 6 * n)]), Text(Inline.TagPage())] + ScanPieces(n, n)
  }
  function OnePieces(load: bool, i: nat): seq<Piece> {
    if load then [Text([LdL(R3, R2)]), Text(Inline.LoadCode(i))]
    else [Text(Inline.StoreCode(i)), Text([StL(R2, R3)]), Text([AddI(4, R0)])]
  }
  function MovePieces(load: bool, list: nat, i: nat): seq<Piece> {
    if list == 0 || i >= 16 then []
    else if list % 2 == 0 then MovePieces(load, list / 2, i + 1)
    else OnePieces(load, i) + MovePieces(load, list / 2, i + 1)
  }
  function FinishPieces(op: Opc): seq<Piece> {
    [Text(Inline.WriteBack(op)), Text(Inline.CostCell()), Text([LdB(R3, R2)]), Text(Inline.Debit(Count(op.list))),
        Text([Bra(1), Nop])]
  }
  function MainPieces(op: Opc, table: Word): seq<Piece> {
    HeadPieces(op) + (RegionPieces(op.load) + (PagePieces(table)
    + (AdmitPieces(op.load, Count(op.list)) + (MovePieces(op.load, op.list, 0) + FinishPieces(op)))))
  }

  lemma {:induction false} LinkScan(k: nat, n: nat, rest: seq<Piece>)
    ensures Linked(ScanPieces(k, n) + rest) == Inline.ScanWords(k, n, Linked(rest))
  {
    hide Linked;
    if k == 0 { LinkText([AddI(0 - 4 * n, R0)], rest); }
    else {
      var r0 := ScanPieces(k - 1, n) + rest;
      var r1 := [Text([AddI(4, R0)])] + r0;
      var r2 := [Far(false)] + r1;
      var r3 := [Text([Tst(R4, R4)])] + r2;
      LinkScan(k - 1, n, rest);
      LinkText([AddI(4, R0)], r0); LinkFar(false, r1); LinkText([Tst(R4, R4)], r2); LinkText([LdL(R6, R4)], r3);
      assert ScanPieces(k, n) + rest == [Text([LdL(R6, R4)])] + r3;
    }
  }
  lemma {:induction false} LinkMoves(load: bool, list: nat, i: nat, rest: seq<Piece>)
    ensures Linked(MovePieces(load, list, i) + rest) == Inline.Moves(load, list, i, Linked(rest))
    decreases list
  {
    hide Linked;
    if list == 0 || i >= 16 { assert MovePieces(load, list, i) + rest == rest; }
    else if list % 2 == 0 { LinkMoves(load, list / 2, i + 1, rest); }
    else {
      var r := MovePieces(load, list / 2, i + 1) + rest;
      LinkMoves(load, list / 2, i + 1, rest);
      assert MovePieces(load, list, i) + rest == OnePieces(load, i) + r;
      LinkOne(load, i, r);
    }
  }
  lemma LinkOne(load: bool, i: nat, rest: seq<Piece>)
    ensures Linked(OnePieces(load, i) + rest) == Inline.MoveOne(load, i, Linked(rest))
  {
    hide Linked, Inline.LoadCode, Inline.StoreCode;
    if load {
      var r1 := [Text(Inline.LoadCode(i))] + rest;
      LinkText(Inline.LoadCode(i), rest); LinkText([LdL(R3, R2)], r1);
      assert OnePieces(load, i) + rest == [Text([LdL(R3, R2)])] + r1;
    } else {
      var r1 := [Text([AddI(4, R0)])] + rest;
      var r2 := [Text([StL(R2, R3)])] + r1;
      LinkText([AddI(4, R0)], rest); LinkText([StL(R2, R3)], r1); LinkText(Inline.StoreCode(i), r2);
      assert OnePieces(load, i) + rest == [Text(Inline.StoreCode(i))] + r2;
    }
  }

  lemma LinkFinish(op: Opc)
    ensures Linked(FinishPieces(op)) == Inline.Finish(op)
  {
    hide Linked, Inline.WriteBack, Inline.CostCell, Inline.Debit, Count;
    var n := Count(op.list);
    var r1 := [Text([Bra(1), Nop])];
    var r2 := [Text(Inline.Debit(n))] + r1;
    var r3 := [Text([LdB(R3, R2)])] + r2;
    var r4 := [Text(Inline.CostCell())] + r3;
    assert FinishPieces(op) == [Text(Inline.WriteBack(op))] + r4;
    LinkLast([Bra(1), Nop]);
    LinkText(Inline.Debit(n), r1); LinkText([LdB(R3, R2)], r2); LinkText(Inline.CostCell(), r3);
    LinkText(Inline.WriteBack(op), r4);
  }
  lemma LinkLast(s: seq<Ins>) ensures Linked([Text(s)]) == s { assert [Text(s)][1..] == []; }
  lemma LinkAdmit(load: bool, n: nat, rest: seq<Piece>)
    ensures Linked(AdmitPieces(load, n) + rest)
      == if load then Inline.HostAligned() + Inline.Guarded(false, Linked(rest)) else Inline.Scan(n, Linked(rest))
  {
    hide Linked, Inline.HostAligned, Inline.Guarded, Inline.Scan, ScanPieces;
    if load {
      var r1 := [Far(false)] + rest;
      assert AdmitPieces(load, n) + rest == [Text(Inline.HostAligned())] + r1;
      LinkFar(false, rest); LinkText(Inline.HostAligned(), r1);
    } else { LinkTagScan(n, rest); }
  }
  lemma LinkTagScan(n: nat, rest: seq<Piece>)
    ensures Linked(AdmitPieces(false, n) + rest) == Inline.Scan(n, Linked(rest))
  {
    hide Linked, Inline.TagPage, Inline.IsRegion, Inline.ScanWords, ScanPieces;
    var hop := [Bt(|Inline.TagPage()| + 6 * n)];
    var r1 := ScanPieces(n, n) + rest;
    var r2 := [Text(Inline.TagPage())] + r1;
    var r3 := [Text(hop)] + r2;
    Cons3(Text(Inline.IsRegion(6)), Text(hop), Text(Inline.TagPage()), ScanPieces(n, n), rest);
    LinkScan(n, n, rest); LinkText(Inline.TagPage(), r1); LinkText(hop, r2); LinkText(Inline.IsRegion(6), r3);
  }
  lemma Cons3(a: Piece, b: Piece, c: Piece, x: seq<Piece>, y: seq<Piece>)
    ensures [a, b, c] + x + y == [a] + ([b] + ([c] + (x + y)))
  {}
  lemma LinkPage(table: Word, rest: seq<Piece>)
    ensures Linked(PagePieces(table) + rest)
      == Inline.PageIndex(table) + ([LdL(R3, R3)] + ([Tst(R3, R3)] + Inline.Guarded(true,
          Inline.InPage() + Linked(rest))))
  {
    hide Linked, Inline.PageIndex, Inline.InPage;
    var r1 := [Text(Inline.InPage())] + rest;
    var r2 := [Far(true)] + r1;
    var r3 := [Text([Tst(R3, R3)])] + r2;
    var r4 := [Text([LdL(R3, R3)])] + r3;
    assert PagePieces(table) + rest == [Text(Inline.PageIndex(table))] + r4;
    LinkText(Inline.InPage(), rest); LinkFar(true, r1); LinkText([Tst(R3, R3)], r2); LinkText([LdL(R3, R3)], r3);
    LinkText(Inline.PageIndex(table), r4);
  }
  lemma LinkRegion(load: bool, rest: seq<Piece>)
    ensures Linked(RegionPieces(load) + rest)
      == if load then Inline.LoadRegion() + Inline.Guarded(true, Linked(rest))
         else Inline.StoreRegion() + ([Bt(4)] + (Inline.InRam() + Inline.Guarded(false, Linked(rest))))
  {
    hide Linked, Inline.LoadRegion, Inline.StoreRegion, Inline.InRam;
    if load {
      var r1 := [Far(true)] + rest;
      assert RegionPieces(load) + rest == [Text(Inline.LoadRegion())] + r1;
      LinkFar(true, rest); LinkText(Inline.LoadRegion(), r1);
    } else {
      var r1 := [Far(false)] + rest;
      var r2 := [Text(Inline.InRam())] + r1;
      var r3 := [Text([Bt(4)])] + r2;
      assert RegionPieces(load) + rest == [Text(Inline.StoreRegion())] + r3;
      LinkFar(false, rest); LinkText(Inline.InRam(), r1); LinkText([Bt(4)], r2); LinkText(Inline.StoreRegion(), r3);
    }
  }
  lemma LinkHead(op: Opc, rest: seq<Piece>)
    ensures Linked(HeadPieces(op) + rest)
      == Inline.Head(op) + (Inline.Straddle(Count(op.list)) + Inline.Guarded(false,
          Inline.Bound() + Inline.Guarded(true, Linked(rest))))
  {
    hide Linked, Inline.Head, Inline.Straddle, Inline.Bound, Count;
    var n := Count(op.list);
    var r1 := [Far(true)] + rest;
    var r2 := [Text(Inline.Bound())] + r1;
    var r3 := [Far(false)] + r2;
    var r4 := [Text(Inline.Straddle(n))] + r3;
    assert HeadPieces(op) + rest == [Text(Inline.Head(op))] + r4;
    LinkFar(true, rest); LinkText(Inline.Bound(), r1); LinkFar(false, r2); LinkText(Inline.Straddle(n), r3);
    LinkText(Inline.Head(op), r4);
  }
  /** Linked, the pieces are the code whose runs are proved. */
  lemma LinkMain(op: Opc, table: Word)
    ensures Linked(MainPieces(op, table)) == Inline.Main(op, table)
  {
    hide Linked, HeadPieces, RegionPieces, PagePieces, AdmitPieces, MovePieces, FinishPieces, Count, Inline.Guarded,
         Inline.Scan, Inline.Moves, Inline.Finish, Inline.Head, Inline.Straddle, Inline.Bound, Inline.LoadRegion, Inline.StoreRegion, Inline.InRam, Inline.PageIndex, Inline.InPage, Inline.HostAligned;
    var r1 := FinishPieces(op);
    var r2 := MovePieces(op.load, op.list, 0) + r1;
    var r3 := AdmitPieces(op.load, Count(op.list)) + r2;
    var r4 := PagePieces(table) + r3;
    LinkFinish(op); LinkMoves(op.load, op.list, 0, r1); LinkAdmit(op.load, Count(op.list), r2);
    LinkPage(table, r3); LinkRegion(op.load, r4); LinkHead(op, RegionPieces(op.load) + r4);
  }

  // ---- the cursor -----------------------------------------------------------------------------

  class Cursor {
    var code: seq<Ins>
    var guards: seq<nat>
    ghost var base: seq<Ins>
    ghost var pieces: seq<Piece>

    constructor ()
      ensures code == [] && guards == [] && base == [] && pieces == []
    { code, guards, base, pieces := [], [], [], []; }

    /** Between two emissions of one opcode. */
    ghost predicate Going() reads this { code == base + Placed(pieces) && guards == Sites(pieces, |base|) }

    method Begin()
      modifies this
      ensures Going() && base == old(code) && pieces == []
    { guards, base, pieces := [], code, []; assert base + [] == base; }

    method Emit(s: seq<Ins>)
      requires Going()
      modifies this
      ensures Going() && base == old(base) && pieces == old(pieces) + [Text(s)]
    {
      Grows(base, pieces, Text(s));
      code := code + s;
      pieces := pieces + [Text(s)];
    }
    /** sh4g_block_guard. */
    method Guard(slowIfT: bool)
      requires Going()
      modifies this
      ensures Going() && base == old(base) && pieces == old(pieces) + [Far(slowIfT)]
    {
      Grows(base, pieces, Far(slowIfT));
      code := code + [if slowIfT then Bf(1) else Bt(1)];
      guards := guards + [|code|];
      code := code + [Bra(0), Nop];
      pieces := pieces + [Far(slowIfT)];
      assert old(code) + [if slowIfT then Bf(1) else Bt(1)] + [Bra(0), Nop] == old(code) + Open(Far(slowIfT));
    }
    /** sh4g_patch_bra of every guard, to the cursor. */
    method PatchGuards()
      requires Going()
      modifies this
      ensures code == base + Linked(pieces) && base == old(base) && pieces == old(pieces)
    {
      hide Placed, Linked, Sites, Aimed, PatchAll;
      PatchedIsLinked(base, pieces);
      assert guards[0..] == guards;
      var i, to := 0, |code|;
      while i < |guards|
        invariant i <= |guards| && |code| == to && guards == old(guards) && base == old(base) && pieces == old(pieces)
        invariant forall k :: 0 <= k < |guards| ==> guards[k] < to
        invariant PatchAll(code, guards[i..], to) == base + Linked(pieces)
      {
        PatchHead(code, guards[i..], to);
        assert guards[i..][1..] == guards[i + 1..];
        code := code[guards[i] := Aimed(code[guards[i]], to - guards[i] - 2)];
        i := i + 1;
      }
      assert guards[i..] == [];
      PatchNone(code, to);
    }
    /** sh4g_emit_bt_placeholder, for a branch over code still to come. */
    method Placeholder() returns (site: nat)
      requires Going()
      modifies this
      ensures Going() && base == old(base) && pieces == old(pieces) + [Text([Bt(0)])] && site == old(|code|)
    { site := |code|; Emit([Bt(0)]); }
    /** sh4g_patch_cond of a placeholder, to the cursor. */
    method PatchCond(site: nat, ghost before: seq<Piece>, ghost after: seq<Piece>)
      requires Going() && pieces == before + [Text([Bt(0)])] + after && site == |base + Placed(before)|
      modifies this
      ensures Going() && base == old(base) && pieces == before + [Text([Bt(|Placed(after)| - 1)])] + after
    {
      Reaimed(base, before, after, |Placed(after)| - 1);
      code := code[site := Bt(|code| - site - 2)];
      pieces := before + [Text([Bt(|Placed(after)| - 1)])] + after;
    }

    // ---- the inline form ---------------------------------------------------------------

    method HeadCode(op: Opc)
      requires Going()
      modifies this
      ensures Going() && base == old(base) && pieces == old(pieces) + HeadPieces(op)
    {
      hide Placed, Sites, Inline.Head, Inline.Straddle, Inline.Bound, Count;
      Emit(Inline.Head(op));
      Emit(Inline.Straddle(Count(op.list)));
      Guard(false);
      Emit(Inline.Bound());
      Guard(true);
    }
    method RegionCode(load: bool)
      requires Going()
      modifies this
      ensures Going() && base == old(base) && pieces == old(pieces) + RegionPieces(load)
    {
      hide Placed, Sites, Inline.LoadRegion, Inline.StoreRegion, Inline.InRam;
      if load {
        Emit(Inline.LoadRegion());
        Guard(true);
      } else {
        Emit(Inline.StoreRegion());
        ghost var before := pieces;
        SitePlace(base, before);
        var vram := Placeholder();
        Emit(Inline.InRam());
        Guard(false);
        ghost var after := [Text(Inline.InRam()), Far(false)];
        assert pieces == before + [Text([Bt(0)])] + after;
        RegionHop();
        PatchCond(vram, before, after);
      }
    }
    method PageCode(table: Word)
      requires Going()
      modifies this
      ensures Going() && base == old(base) && pieces == old(pieces) + PagePieces(table)
    {
      hide Placed, Sites, Inline.PageIndex, Inline.InPage;
      Emit(Inline.PageIndex(table));
      Emit([LdL(R3, R3)]);
      Emit([Tst(R3, R3)]);
      Guard(true);
      Emit(Inline.InPage());
    }
    method ScanCode(n: nat)
      requires Going()
      modifies this
      ensures Going() && base == old(base) && pieces == old(pieces) + ScanPieces(n, n)
    {
      hide Placed, Sites;
      var i := 0;
      while i < n
        invariant i <= n && Going() && base == old(base)
        invariant pieces + ScanPieces(n - i, n) == old(pieces) + ScanPieces(n, n)
      {
        ghost var rest := ScanPieces(n - i - 1, n);
        assert ScanPieces(n - i, n) == [Text([LdL(R6, R4)]), Text([Tst(R4, R4)]), Far(false),
            Text([AddI(4, R0)])] + rest;
        Emit([LdL(R6, R4)]);
        Emit([Tst(R4, R4)]);
        Guard(false);
        Emit([AddI(4, R0)]);
        i := i + 1;
      }
      Emit([AddI(0 - 4 * n, R0)]);
    }
    method AdmitCode(load: bool, n: nat)
      requires Going()
      modifies this
      ensures Going() && base == old(base) && pieces == old(pieces) + AdmitPieces(load, n)
    {
      hide Placed, Sites, Inline.HostAligned, Inline.IsRegion, Inline.TagPage, ScanPieces;
      if load {
        Emit(Inline.HostAligned());
        Guard(false);
      } else {
        Emit(Inline.IsRegion(6));
        ghost var before := pieces;
        SitePlace(base, before);
        var vram := Placeholder();
        Emit(Inline.TagPage());
        ScanCode(n);
        ghost var after := [Text(Inline.TagPage())] + ScanPieces(n, n);
        assert pieces == before + [Text([Bt(0)])] + after;
        ScanHop(n);
        PatchCond(vram, before, after);
      }
    }
    method MovesCode(load: bool, list0: nat)
      requires Going() && list0 < 0x1_0000
      modifies this
      ensures Going() && base == old(base) && pieces == old(pieces) + MovePieces(load, list0, 0)
    {
      hide Placed, Sites, OnePieces;
      var list, i := list0, 0;
      while i < 16
        invariant i <= 16 && Going() && base == old(base)
        invariant pieces + MovePieces(load, list, i) == old(pieces) + MovePieces(load, list0, 0)
      {
        ghost var rest := MovePieces(load, list / 2, i + 1);
        MovesStep(load, list, i);
        if list % 2 == 1 {
          ghost var was := pieces;
          OneCode(load, i);
          assert was + (OnePieces(load, i) + rest) == pieces + rest;
        }
        list, i := list / 2, i + 1;
      }
    }
    method OneCode(load: bool, i: nat)
      requires Going()
      modifies this
      ensures Going() && base == old(base) && pieces == old(pieces) + OnePieces(load, i)
    {
      hide Placed, Sites, Inline.LoadCode, Inline.StoreCode;
      if load {
        Emit([LdL(R3, R2)]);
        Emit(Inline.LoadCode(i));
      } else {
        Emit(Inline.StoreCode(i));
        Emit([StL(R2, R3)]);
        Emit([AddI(4, R0)]);
      }
    }
    method FinishCode(op: Opc)
      requires Going()
      modifies this
      ensures Going() && base == old(base) && pieces == old(pieces) + FinishPieces(op)
    {
      hide Placed, Sites, Inline.WriteBack, Inline.CostCell, Inline.Debit, Count;
      Emit(Inline.WriteBack(op));
      Emit(Inline.CostCell());
      Emit([LdB(R3, R2)]);
      Emit(Inline.Debit(Count(op.list)));
      Emit([Bra(1), Nop]);
    }

    /** The inline half of sh4g_arm_block_native: the guards' branches all end up at the call of
        the C helper. */
    method InlineForm(op: Opc, table: Word)
      requires op.list < 0x1_0000
      modifies this
      ensures code == old(code) + Inline.Inline(op, table)
    {
      hide HeadPieces, RegionPieces, PagePieces, AdmitPieces, MovePieces, FinishPieces, Placed, Sites, Linked,
           Inline.Main, Count;
      Begin();
      HeadCode(op);
      RegionCode(op.load);
      PageCode(table);
      AdmitCode(op.load, Count(op.list));
      MovesCode(op.load, op.list);
      FinishCode(op);
      assert pieces == MainPieces(op, table);
      LinkMain(op, table);
      PatchGuards();
      Assoc(base, Inline.Main(op, table), [Slow]);
      code := code + [Slow];
    }

    // ---- the shared routine --------------------------------------------------------------

    /** A conditional branch to the slow path. */
    method Leave(onT: bool)
      requires Going()
      modifies this
      ensures Going() && base == old(base) && pieces == old(pieces) + [Near(onT)]
    {
      Grows(base, pieces, Near(onT));
      guards := guards + [|code|];
      code := code + [if onT then Bt(0) else Bf(0)];
      pieces := pieces + [Near(onT)];
    }
    /** A branch back to `top`. */
    method LoopTo(top: nat)
      requires Going()
      modifies this
      ensures Going() && base == old(base) && pieces == old(pieces) + [Text([Bf(top - old(|code|) - 2)])]
    { Emit([Bf(top - |code| - 2)]); }

    method SharedHead()
      requires Going()
      modifies this
      ensures Going() && base == old(base) && pieces == old(pieces) + SharedHeadPieces()
    {
      hide Placed, Sites, Shared.CountField, Shared.Aligned4, Shared.LastByte, Shared.SamePage, Shared.Bound,
           Shared.Region12;
      Emit([StsPr(R2)]);
      Emit([LdDisp(R2, 24, R2)]);
      Emit(Shared.CountField());
      Emit(Shared.Aligned4());
      Leave(false);
      Emit(Shared.LastByte());
      Emit(Shared.SamePage());
      Leave(false);
      Emit(Shared.Bound());
      Leave(true);
      Emit(Shared.Region12());
    }
    method SharedRegion(load: bool)
      requires Going()
      modifies this
      ensures Going() && base == old(base) && pieces == old(pieces) + SharedRegionPieces(load)
    {
      hide Placed, Sites, Inline.InRam;
      if load {
        Emit([Tst(R0, R0)]);
        Leave(true);
      } else {
        Emit([CmpEqI(6)]);
        ghost var before := pieces;
        SitePlace(base, before);
        var vram := Placeholder();
        Emit(Inline.InRam());
        Leave(false);
        ghost var after := [Text(Inline.InRam()), Near(false)];
        assert pieces == before + [Text([Bt(0)])] + after;
        SharedRegionHop();
        PatchCond(vram, before, after);
      }
    }
    method SharedPage(table: Word)
      requires Going()
      modifies this
      ensures Going() && base == old(base) && pieces == old(pieces) + SharedPagePieces(table)
    {
      hide Placed, Sites, Shared.PageIndex, Shared.InPage;
      Emit(Shared.PageIndex(table));
      Emit([LdL(R3, R3)]);
      Emit([Tst(R3, R3)]);
      Leave(true);
      Emit(Shared.InPage());
    }
    method SharedScan()
      requires Going()
      modifies this
      ensures Going() && base == old(base) && pieces == old(pieces) + ScanLoopPieces()
    {
      hide Placed, Sites;
      ghost var was := pieces;
      var top := |code|;
      Emit([LdL(R7, R5)]);
      Emit([Tst(R5, R5)]);
      Leave(false);
      Emit([AddI(4, R0), Dt(R2)]);
      ghost var loop := [Text([LdL(R7, R5)]), Text([Tst(R5, R5)]), Near(false), Text([AddI(4, R0), Dt(R2)])];
      assert pieces == was + loop;
      PlacedAppend(was, loop); LoopLength();
      LoopTo(top);
      Emit([Mov(R4, R0)]);
    }
    method SharedAdmit(load: bool)
      requires Going()
      modifies this
      ensures Going() && base == old(base) && pieces == old(pieces) + SharedAdmitPieces(load)
    {
      hide Placed, Sites, Shared.HostAligned, Shared.IsVram, Shared.TagPage, ScanLoopPieces;
      if load {
        Emit(Shared.HostAligned());
        Leave(false);
      } else {
        Emit(Shared.IsVram());
        ghost var before := pieces;
        SitePlace(base, before);
        var vram := Placeholder();
        Emit(Shared.TagPage());
        Emit([Mov(R0, R4)]);
        SharedScan();
        ghost var after := [Text(Shared.TagPage()), Text([Mov(R0, R4)])] + ScanLoopPieces();
        assert pieces == before + [Text([Bt(0)])] + after;
        SharedScanHop();
        PatchCond(vram, before, after);
      }
    }
    /** sh4g_fastmem_emit_block_routine: everything before the jump to the slow trampoline. */
    method SharedForm(load: bool, wb: bool, table: Word)
      modifies this
      ensures code == old(code) + Shared.Main(load, wb, table) + [Slow]
    {
      hide Placed, Sites, Linked, SharedHeadPieces, SharedRegionPieces, SharedPagePieces, SharedAdmitPieces,
           Shared.Work, Shared.Main;
      Begin();
      SharedHead();
      SharedRegion(load);
      SharedPage(table);
      SharedAdmit(load);
      Emit(Shared.Work(load, wb));
      assert pieces == SharedPieces(load, wb, table);
      LinkShared(load, wb, table);
      PatchGuards();
      code := code + [Slow];
    }
  }

  // ---- the shared routine in pieces -----------------------------------------------------------

  function SharedHeadPieces(): seq<Piece> {
    [Text([StsPr(R2)]), Text([LdDisp(R2, 24, R2)]), Text(Shared.CountField()), Text(Shared.Aligned4()), Near(false),
     Text(Shared.LastByte()), Text(Shared.SamePage()), Near(false), Text(Shared.Bound()), Near(true), Text(Shared.Region12())]
  }
  function SharedRegionPieces(load: bool): seq<Piece> {
    if load then [Text([Tst(R0, R0)]), Near(true)]
    else [Text([CmpEqI(6)]), Text([Bt(2)]), Text(Inline.InRam()), Near(false)]
  }
  function SharedPagePieces(table: Word): seq<Piece> {
    [Text(Shared.PageIndex(table)), Text([LdL(R3, R3)]), Text([Tst(R3, R3)]), Near(true), Text(Shared.InPage())]
  }
  function ScanLoopPieces(): seq<Piece> {
    [Text([LdL(R7, R5)]), Text([Tst(R5, R5)]), Near(false), Text([AddI(4, R0), Dt(R2)]), Text([Bf(-7)]),
        Text([Mov(R4, R0)])]
  }
  function SharedAdmitPieces(load: bool): seq<Piece> {
    if load then [Text(Shared.HostAligned()), Near(false)]
    else [Text(Shared.IsVram()), Text([Bt(|Shared.TagPage()| + 7)]), Text(Shared.TagPage()),
        Text([Mov(R0, R4)])] + ScanLoopPieces()
  }
  function SharedPieces(load: bool, wb: bool, table: Word): seq<Piece> {
    var work := [Text(Shared.Work(load, wb))];
    SharedHeadPieces() + (SharedRegionPieces(load) + (SharedPagePieces(table) + (SharedAdmitPieces(load) + work)))
  }
  lemma LoopLength()
    ensures |Placed([Text([LdL(R7, R5)]), Text([Tst(R5, R5)]), Near(false), Text([AddI(4, R0), Dt(R2)])])| == 5
  {
    hide Placed, Sites;
    var d := [Text([AddI(4, R0), Dt(R2)])];
    OnePiece(d[0], 0);
    SitesHead(Near(false), d, 0); SitesHead(Text([Tst(R5, R5)]), [Near(false)] + d, 0);
    SitesHead(Text([LdL(R7, R5)]), [Text([Tst(R5, R5)])] + ([Near(false)] + d), 0);
    assert [Text([LdL(R7, R5)]), Text([Tst(R5, R5)]), Near(false), Text([AddI(4, R0), Dt(R2)])]
      == [Text([LdL(R7, R5)])] + ([Text([Tst(R5, R5)])] + ([Near(false)] + d));
  }
  lemma SharedRegionHop() ensures |Placed([Text(Inline.InRam()), Near(false)])| == 3
  {
    assert [Text(Inline.InRam()), Near(false)] == [Text(Inline.InRam())] + [Near(false)];
    PlacedAppend([Text(Inline.InRam())], [Near(false)]); OnePiece(Text(Inline.InRam()), 0); OnePiece(Near(false), 0);
  }
  lemma SharedScanHop()
    ensures |Placed([Text(Shared.TagPage()), Text([Mov(R0, R4)])] + ScanLoopPieces())| == |Shared.TagPage()| + 8
  {
    hide Placed, Sites, Shared.TagPage;
    var loop := [Text([LdL(R7, R5)]), Text([Tst(R5, R5)]), Near(false), Text([AddI(4, R0), Dt(R2)])];
    var last := [Text([Mov(R4, R0)])];
    assert ScanLoopPieces() == loop + ([Text([Bf(-7)])] + last);
    LoopLength(); OnePiece(last[0], 0); SitesHead(Text([Bf(-7)]), last, 0); PlacedAppend(loop, [Text([Bf(-7)])] + last);
    var r := [Text([Mov(R0, R4)])] + ScanLoopPieces();
    SitesHead(Text([Mov(R0, R4)]), ScanLoopPieces(), 0); SitesHead(Text(Shared.TagPage()), r, 0);
    assert [Text(Shared.TagPage()), Text([Mov(R0, R4)])] + ScanLoopPieces() == [Text(Shared.TagPage())] + r;
  }

  lemma LinkSharedAdmit(load: bool, rest: seq<Piece>)
    ensures Linked(SharedAdmitPieces(load) + rest)
      == if load then Shared.HostAligned() + Shared.Leave(false, Linked(rest)) else Shared.Scan(Linked(rest))
  {
    hide Linked, Shared.HostAligned, Shared.TagPage, Shared.IsVram, ScanLoopPieces;
    if load {
      var r1 := [Near(false)] + rest;
      assert SharedAdmitPieces(load) + rest == [Text(Shared.HostAligned())] + r1;
      LinkNear(false, rest); LinkText(Shared.HostAligned(), r1);
    } else {
      var r1 := ScanLoopPieces() + rest;
      var r2 := [Text([Mov(R0, R4)])] + r1;
      var r3 := [Text(Shared.TagPage())] + r2;
      var r4 := [Text([Bt(|Shared.TagPage()| + 7)])] + r3;
      assert SharedAdmitPieces(load) + rest == [Text(Shared.IsVram())] + r4;
      LinkScanLoop(rest); LinkText([Mov(R0, R4)], r1); LinkText(Shared.TagPage(), r2);
      LinkText([Bt(|Shared.TagPage()| + 7)], r3); LinkText(Shared.IsVram(), r4);
    }
  }
  lemma LinkScanLoop(rest: seq<Piece>)
    ensures Linked(ScanLoopPieces() + rest) == Shared.ScanLoop(Linked(rest))
  {
    hide Linked;
    var r1 := [Text([Mov(R4, R0)])] + rest;
    var r2 := [Text([Bf(-7)])] + r1;
    var r3 := [Text([AddI(4, R0), Dt(R2)])] + r2;
    var r4 := [Near(false)] + r3;
    var r5 := [Text([Tst(R5, R5)])] + r4;
    assert ScanLoopPieces() + rest == [Text([LdL(R7, R5)])] + r5;
    LinkText([Mov(R4, R0)], rest); LinkText([Bf(-7)], r1); LinkText([AddI(4, R0), Dt(R2)], r2); LinkNear(false, r3);
    LinkText([Tst(R5, R5)], r4); LinkText([LdL(R7, R5)], r5);
  }
  lemma LinkSharedPage(table: Word, rest: seq<Piece>)
    ensures Linked(SharedPagePieces(table) + rest)
      == Shared.PageIndex(table) + ([LdL(R3, R3)] + ([Tst(R3, R3)] + Shared.Leave(true,
          Shared.InPage() + Linked(rest))))
  {
    hide Linked, Shared.PageIndex, Shared.InPage;
    var r1 := [Text(Shared.InPage())] + rest;
    var r2 := [Near(true)] + r1;
    var r3 := [Text([Tst(R3, R3)])] + r2;
    var r4 := [Text([LdL(R3, R3)])] + r3;
    assert SharedPagePieces(table) + rest == [Text(Shared.PageIndex(table))] + r4;
    LinkText(Shared.InPage(), rest); LinkNear(true, r1); LinkText([Tst(R3, R3)], r2); LinkText([LdL(R3, R3)], r3);
    LinkText(Shared.PageIndex(table), r4);
  }
  lemma LinkSharedRegion(load: bool, rest: seq<Piece>)
    ensures Linked(SharedRegionPieces(load) + rest)
      == if load then [Tst(R0, R0)] + Shared.Leave(true, Linked(rest))
         else [CmpEqI(6)] + ([Bt(2)] + (Inline.InRam() + Shared.Leave(false, Linked(rest))))
  {
    hide Linked, Inline.InRam;
    if load {
      var r1 := [Near(true)] + rest;
      assert SharedRegionPieces(load) + rest == [Text([Tst(R0, R0)])] + r1;
      LinkNear(true, rest); LinkText([Tst(R0, R0)], r1);
    } else {
      var r1 := [Near(false)] + rest;
      var r2 := [Text(Inline.InRam())] + r1;
      var r3 := [Text([Bt(2)])] + r2;
      assert SharedRegionPieces(load) + rest == [Text([CmpEqI(6)])] + r3;
      LinkNear(false, rest); LinkText(Inline.InRam(), r1); LinkText([Bt(2)], r2); LinkText([CmpEqI(6)], r3);
    }
  }
  lemma LinkSharedHead(rest: seq<Piece>)
    ensures Linked(SharedHeadPieces() + rest)
      == Shared.Literal(R2, Shared.CountField() + (Shared.Aligned4() + Shared.Leave(false,
          Shared.LastByte() + (Shared.SamePage()
         + Shared.Leave(false, Shared.Bound() + Shared.Leave(true, Shared.Region12() + Linked(rest)))))))
  {
    hide Linked, Shared.CountField, Shared.Aligned4, Shared.LastByte, Shared.SamePage, Shared.Bound, Shared.Region12;
    var r1 := [Text(Shared.Region12())] + rest;
    var r2 := [Near(true)] + r1;
    var r3 := [Text(Shared.Bound())] + r2;
    var r4 := [Near(false)] + r3;
    var r5 := [Text(Shared.SamePage())] + r4;
    var r6 := [Text(Shared.LastByte())] + r5;
    var r7 := [Near(false)] + r6;
    var r8 := [Text(Shared.Aligned4())] + r7;
    var r9 := [Text(Shared.CountField())] + r8;
    var r10 := [Text([LdDisp(R2, 24, R2)])] + r9;
    assert SharedHeadPieces() + rest == [Text([StsPr(R2)])] + r10;
    LinkText(Shared.Region12(), rest); LinkNear(true, r1); LinkText(Shared.Bound(), r2); LinkNear(false, r3);
    LinkText(Shared.SamePage(), r4); LinkText(Shared.LastByte(), r5); LinkNear(false, r6);
    LinkText(Shared.Aligned4(), r7);
    LinkText(Shared.CountField(), r8); LinkText([LdDisp(R2, 24, R2)], r9); LinkText([StsPr(R2)], r10);
  }
  lemma LinkShared(load: bool, wb: bool, table: Word)
    ensures Linked(SharedPieces(load, wb, table)) == Shared.Main(load, wb, table)
  {
    hide Linked, SharedHeadPieces, SharedRegionPieces, SharedPagePieces, SharedAdmitPieces, Shared.CountField,
         Shared.Aligned4, Shared.LastByte, Shared.SamePage, Shared.Bound, Shared.Region12, Shared.PageIndex, Shared.InPage, Shared.HostAligned, Shared.Work, Shared.Scan, Shared.Leave, Shared.Literal, Inline.InRam;
    var r1 := [Text(Shared.Work(load, wb))];
    var r2 := SharedAdmitPieces(load) + r1;
    var r3 := SharedPagePieces(table) + r2;
    LinkLast(Shared.Work(load, wb)); LinkSharedAdmit(load, r1); LinkSharedPage(table, r2); LinkSharedRegion(load, r3);
    LinkSharedHead(SharedRegionPieces(load) + r3);
  }
  lemma SitePlace(base: seq<Ins>, ps: seq<Piece>) ensures |base + Placed(ps)| == |base| + |Placed(ps)| {}
  lemma RegionHop() ensures |Placed([Text(Inline.InRam()), Far(false)])| == 5
  {
    assert [Text(Inline.InRam()), Far(false)] == [Text(Inline.InRam())] + [Far(false)];
    PlacedAppend([Text(Inline.InRam())], [Far(false)]); OnePiece(Text(Inline.InRam()), 0); OnePiece(Far(false), 0);
  }
  lemma {:induction false} ScanPlaced(k: nat, n: nat)
    ensures |Placed(ScanPieces(k, n))| == 6 * k + 1
  {
    if k == 0 { OnePiece(Text([AddI(0 - 4 * n, R0)]), 0); }
    else {
      ScanPlaced(k - 1, n);
      var a, b, c, d := Text([LdL(R6, R4)]), Text([Tst(R4, R4)]), Far(false), Text([AddI(4, R0)]);
      assert ScanPieces(k, n) == [a] + ([b] + ([c] + ([d] + ScanPieces(k - 1, n))));
      SitesHead(d, ScanPieces(k - 1, n), 0); SitesHead(c, [d] + ScanPieces(k - 1, n), 0);
      SitesHead(b, [c] + ([d] + ScanPieces(k - 1, n)), 0); SitesHead(a, [b] + ([c] + ([d] + ScanPieces(k - 1, n))), 0);
    }
    hide Placed, Sites;
  }
  lemma ScanHop(n: nat)
    ensures |Placed([Text(Inline.TagPage())] + ScanPieces(n, n))| == |Inline.TagPage()| + 6 * n + 1
  {
    hide Placed, Sites, Inline.TagPage;
    SitesHead(Text(Inline.TagPage()), ScanPieces(n, n), 0);
    ScanPlaced(n, n);
  }
  lemma MovesStep(load: bool, list: nat, i: nat)
    requires i < 16
    ensures MovePieces(load, list, i)
      == (if list % 2 == 1 then OnePieces(load, i) else []) + MovePieces(load, list / 2, i + 1)
  { if list == 0 { assert MovePieces(load, 0, i + 1) == []; } hide OnePieces; }
  lemma PatchNone(code: seq<Ins>, to: nat) ensures PatchAll(code, [], to) == code {}
  lemma Grows(base: seq<Ins>, ps: seq<Piece>, p: Piece)
    ensures base + Placed(ps + [p]) == base + Placed(ps) + Open(p)
    ensures Sites(ps + [p], |base|)
      == Sites(ps, |base|) + match p case Text(_) => [] case Far(_) => [|base + Placed(ps)| + 1] case Near(_) => [|base + Placed(ps)|]
  {
    hide Open, Placed, Sites;
    PlacedAppend(ps, [p]); SitesAppend(ps, [p], |base|); OnePiece(p, |base| + |Placed(ps)|);
    Assoc(base, Placed(ps), Open(p));
  }
  lemma Reaimed(base: seq<Ins>, before: seq<Piece>, after: seq<Piece>, d: int)
    ensures var was, now, site := before + [Text([Bt(0)])] + after, before + [Text([Bt(d)])] + after, |base + Placed(before)|;
      site < |base + Placed(was)| && |base + Placed(was)| - site - 1 == |Placed(after)|
      && (base + Placed(was))[site := Bt(d)] == base + Placed(now) && Sites(now, |base|) == Sites(was, |base|)
  {
    hide Placed, Sites;
    PlacedMid(before, [Bt(0)], after); PlacedMid(before, [Bt(d)], after);
    SitesMid(before, [Bt(0)], after, |base|); SitesMid(before, [Bt(d)], after, |base|);
    OneChanged(base, Placed(before), Placed(after), d);
  }
  lemma OneChanged(base: seq<Ins>, a: seq<Ins>, b: seq<Ins>, d: int)
    ensures var site := |base + a|;
      site < |base + (a + [Bt(0)] + b)| && (base + (a + [Bt(0)] + b))[site := Bt(d)] == base + (a + [Bt(d)] + b)
  {}
  lemma PlacedMid(a: seq<Piece>, s: seq<Ins>, b: seq<Piece>)
    ensures Placed(a + [Text(s)] + b) == Placed(a) + s + Placed(b)
  {
    hide Placed, Sites;
    PlacedAppend(a + [Text(s)], b); PlacedAppend(a, [Text(s)]); OnePiece(Text(s), 0);
  }
  lemma SitesMid(a: seq<Piece>, s: seq<Ins>, b: seq<Piece>, at: nat)
    ensures Sites(a + [Text(s)] + b, at) == Sites(a, at) + Sites(b, at + |Placed(a)| + |s|)
  {
    hide Placed, Sites;
    SitesAppend(a + [Text(s)], b, at); SitesAppend(a, [Text(s)], at); OnePiece(Text(s), at + |Placed(a)|);
    PlacedAppend(a, [Text(s)]);
  }
}
