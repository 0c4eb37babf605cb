/** When storage writes move the cartridge's flash records: refresh before the guest runs again. */
module Storage {

  /** Mutations so far, the count the runner last acted on, its mapping-failed flag, whether a NOR
      file is selected and open, and the count at which the page and block pointers in use were
      resolved. */
  datatype State = State(mutations: nat, seen: nat, failed: bool, path: bool, open: bool, sized: bool, resolved: nat)

  /** How the refresh query, a reopen by path and the remap turn out. */
  datatype Luck = Luck(refreshes: bool, reopens: bool, remaps: bool)

  datatype Answer = Answer(s: State, ok: bool)

  /** cgba_refresh_rom_after_storage. */
  function Refresh(s: State, l: Luck): Answer {
    if !s.path then
      if s.open || s.failed then Answer(s, false) else Answer(s.(seen := s.mutations), true)
    else if !s.sized then Answer(s.(failed := true), false)
    else if !((s.open && l.refreshes) || l.reopens) || !l.remaps then Answer(s.(failed := true), false)
    else Answer(s.(failed := false, seen := s.mutations, open := true, resolved := s.mutations), true)
  }
  /** cgba_gpsp_storage_sync. */
  function Sync(s: State, l: Luck): Answer {
    if !s.failed && s.seen == s.mutations then Answer(s, true) else Refresh(s, l)
  }
  function Mutate(s: State, n: nat): State { s.(mutations := s.mutations + n) }

  /** One pass of the play loop. Each carries how many storage mutations it makes (a failing write
      may still have made some) and how the refreshes in it turn out. */
  datatype Pass =
    | Play
    | Menu(config: nat, sync: Luck, save: bool, writes: nat, wrote: bool, refresh: Luck, retry: Luck)
    | Restart(path: bool, writes: nat)
    | SaveKey(writes: nat, wrote: bool, refresh: Luck, retry: Luck)

  /** A state save: write, refresh whatever the outcome, and one more sync when it did not succeed. */
  function Save(s: State, writes: nat, wrote: bool, refresh: Luck, retry: Luck): Answer {
    var a := Refresh(Mutate(s, writes), refresh);
    if a.ok && wrote then a else Sync(a.s, retry)
  }
  /** Leaving the game and loading one: the new file is resolved from scratch. */
  function Load(s: State, path: bool, writes: nat): State {
    var n := s.mutations + writes;
    State(n, n, false, path, path, path, n)
  }

  datatype Step = Step(s: State, runs: bool, over: bool)
  /** One pass: the state after it, whether it ran a guest frame, and whether the loop ended. */
  function Turn(s: State, p: Pass): Step {
    match p
    case Play => Step(s, !s.failed, false)
    case Menu(config, sync, save, writes, wrote, refresh, retry) =>
      var a := Sync(Mutate(s, config), sync);
      if !a.ok then Step(a.s, false, true)
      else if !save then Step(a.s, false, false)
      else
        var b := Save(a.s, writes, wrote, refresh, retry);
        Step(b.s, false, !b.ok)
    case Restart(path, writes) => Step(Load(s, path, writes), false, false)
    case SaveKey(writes, wrote, refresh, retry) =>
      var b := Save(s, writes, wrote, refresh, retry);
      if b.ok then Step(b.s, !b.s.failed, false) else Step(b.s, false, true)
  }

  /** The pointers in use were resolved after the latest mutation, or no NOR file is involved. */
  predicate Fresh(s: State) { s.path ==> s.resolved == s.mutations }
  /** What every pass keeps. */
  predicate Kept(s: State) {
    (s.failed || Fresh(s)) && (!s.path ==> !s.open && !s.failed) && (!s.failed && s.path ==> s.seen == s.mutations)
  }

  lemma TurnKeeps(s: State, p: Pass)
    requires Kept(s)
    ensures Turn(s, p).runs ==> Fresh(Turn(s, p).s)
    ensures !Turn(s, p).over ==> Kept(Turn(s, p).s)
  {}

  /** The guest frames of a run, as the states they start from. */
  function Frames(s: State, ps: seq<Pass>): seq<State>
    decreases |ps|
  {
    if ps == [] then []
    else
      var t := Turn(s, ps[0]);
      (if t.runs then [t.s] else []) + if t.over then [] else Frames(t.s, ps[1..])
  }
  /** In every run, whatever storage and its refreshes do, a guest frame only ever runs on pointers
      resolved after the latest mutation. */
  lemma {:induction false} FramesFresh(s: State, ps: seq<Pass>)
    requires Kept(s)
    ensures forall i :: 0 <= i < |Frames(s, ps)| ==> Fresh(Frames(s, ps)[i])
    decreases |ps|
  {
    if ps != [] {
      TurnKeeps(s, ps[0]);
      var t := Turn(s, ps[0]);
      if !t.over { FramesFresh(t.s, ps[1..]); }
    }
    hide Turn, Kept, Fresh;
  }
  /** Neither the open file nor one reopened by path can be mapped. */
  predicate Hopeless(l: Luck) { !l.remaps || (!l.refreshes && !l.reopens) }
  predicate HopelessPass(p: Pass) {
    match p
    case Play => true
    case Menu(_, sync, _, _, _, refresh, retry) => Hopeless(sync) && Hopeless(refresh) && Hopeless(retry)
    case Restart(_, _) => false
    case SaveKey(_, _, refresh, retry) => Hopeless(refresh) && Hopeless(retry)
  }
  lemma TurnBlocks(s: State, p: Pass)
    requires s.failed && s.path && HopelessPass(p)
    ensures var t := Turn(s, p); !t.runs && t.s.failed && t.s.path && (!p.Play? ==> t.over)
  {}
  /** And a failed mapping blocks every frame until some refresh succeeds or a game is loaded:
      whatever is saved, written or opened meanwhile, no run of failing refreshes reaches a frame,
      and the first pass that is not plain play ends it. */
  lemma {:induction false} FailedBlocks(s: State, ps: seq<Pass>)
    requires s.failed && s.path && forall i :: 0 <= i < |ps| ==> HopelessPass(ps[i])
    ensures Frames(s, ps) == []
    decreases |ps|
  {
    if ps != [] {
      TurnBlocks(s, ps[0]);
      var t := Turn(s, ps[0]);
      if !t.over { FailedBlocks(t.s, ps[1..]); }
    }
    hide Turn, HopelessPass;
  }

  /** Pointers that are not known to be bad were resolved at the count last acted on; storage
      writes alone do not break this. */
  predicate Linked(s: State) { !s.failed && s.path ==> s.resolved == s.seen }
  lemma KeptLinked(s: State, n: nat)
    requires Kept(s)
    ensures Linked(Mutate(s, n))
  {}

  class Runner {
    var s: State
    constructor (s: State) ensures this.s == s { this.s := s; }

    /** After a refresh that reports success the pointers in use are current; after one that does
        not, the guest stays blocked. */
    method RefreshRom(l: Luck) returns (ok: bool)
      requires Linked(s)
      modifies this
      ensures Answer(s, ok) == Refresh(old(s), l)
      ensures Linked(s) && s.path == old(s).path
      ensures s.path ==> if ok then Fresh(s) && !s.failed else s.failed
    {
      if !s.path {
        if s.open || s.failed { return false; }
        s := s.(seen := s.mutations);
        return true;
      }
      if !s.sized { s := s.(failed := true); return false; }
      var refreshed := s.open && l.refreshes;
      if !refreshed { refreshed := l.reopens; }
      if !refreshed || !l.remaps { s := s.(failed := true); return false; }
      s := s.(failed := false, open := true, resolved := s.mutations, seen := s.mutations);
      return true;
    }
    /** The same, without a refresh when the pointers are already current. */
    method StorageSync(l: Luck) returns (ok: bool)
      requires Linked(s)
      modifies this
      ensures Answer(s, ok) == Sync(old(s), l)
      ensures Linked(s) && s.path == old(s).path
      ensures s.path ==> if ok then Fresh(s) && !s.failed else s.failed
    {
      if !s.failed && s.seen == s.mutations { return true; }
      ok := RefreshRom(l);
    }
    /** The same after a save, however many mutations it made and whether or not it wrote its file. */
    method StateSave(writes: nat, wrote: bool, refresh: Luck, retry: Luck) returns (ok: bool)
      requires Linked(s)
      modifies this
      ensures Answer(s, ok) == Save(old(s), writes, wrote, refresh, retry)
      ensures Linked(s) && s.path == old(s).path
      ensures s.path ==> if ok then Fresh(s) && !s.failed else s.failed
    {
      s := Mutate(s, writes);
      ok := RefreshRom(refresh);
      if !(ok && wrote) { ok := StorageSync(retry); }
    }
  }
}
