/** Pages and frames of compiled modules: mapping with rollback, code that is
    never writable and executable at once, growth and teardown
    (kernel/src/forge_rt.rs). Pages are named by number, address / 4096. */
module Forge {
  import opened Util

  /** Pages an instance may have: 8 GiB and one. */
  const MAX_PAGES: nat := 0x20_0001

  /** Pages from one slot to the next: 16 GiB. */
  const STRIDE: nat := 0x40_0000

  /** `PageFlags` of a present page. */
  datatype Flags = Flags(writable: bool, noExecute: bool) {
    /** A page is not to be written and executed alike. */
    predicate Exclusive() { !(writable && !noExecute) }
  }

  /** The flags the runtime maps with: WRITABLE and NO_EXECUTE, or neither. */
  const RW := Flags(true, true)
  const RX := Flags(false, false)

  datatype Entry = Entry(frame: nat, flags: Flags)

  type Pages = map<nat, Entry>

  ghost predicate In(at: nat, n: nat, k: nat) { at <= k < at + n }

  /** The frames behind the pages `[at, at + n)`. */
  ghost function FramesIn(pages: Pages, at: nat, n: nat): set<nat> {
    set k | k in pages && In(at, n, k) :: pages[k].frame
  }

  /** Every frame is behind one page or free, and nothing is both writable and
      executable. */
  ghost predicate Sound(pages: Pages, free: set<nat>) {
    && (forall k | k in pages :: pages[k].frame !in free && pages[k].flags.Exclusive())
    && (forall k, l | k in pages && l in pages && k != l :: pages[k].frame != pages[l].frame)
  }

  /** Like `pages0` but for `[at, at + n)`. */
  ghost predicate Elsewhere(pages0: Pages, pages1: Pages, at: nat, n: nat) {
    forall k | !In(at, n, k) :: (k in pages0 <==> k in pages1) && (k in pages0 ==> pages1[k] == pages0[k])
  }

  ghost predicate Free(pages: Pages, at: nat, n: nat) { forall k | In(at, n, k) :: k !in pages }

  ghost predicate All(pages: Pages, at: nat, n: nat, flags: Flags) {
    forall k | In(at, n, k) :: k in pages && pages[k].flags == flags
  }

  lemma FramesStep(pages: Pages, at: nat, n: nat)
    ensures FramesIn(pages, at, n + 1) ==
      FramesIn(pages, at, n) + (if at + n in pages then {pages[at + n].frame} else {})
  {
    var more := FramesIn(pages, at, n + 1);
    forall f | f in more ensures f in FramesIn(pages, at, n) + (if at + n in pages then {pages[at + n].frame} else {}) {
      var k :| k in pages && In(at, n + 1, k) && pages[k].frame == f;
      assert k == at + n || In(at, n, k);
    }
    forall f | f in FramesIn(pages, at, n) ensures f in more {
      var k :| k in pages && In(at, n, k) && pages[k].frame == f;
      assert In(at, n + 1, k);
    }
    if at + n in pages {
      assert In(at, n + 1, at + n);
    }
  }

  lemma FramesNone(pages: Pages, at: nat)
    ensures FramesIn(pages, at, 0) == {}
  {
  }

  lemma SoundFreed(pages: Pages, free: set<nat>, frame: nat)
    requires Sound(pages, free) && forall k | k in pages :: pages[k].frame != frame
    ensures Sound(pages, free + {frame})
  {
  }

  class Space {
    var pages: Pages
    /** The frame allocator's free frames. */
    var free: set<nat>

    ghost predicate Valid()
      reads this
    {
      Sound(pages, free)
    }

    constructor (frames: set<nat>)
      ensures Valid() && pages == map[] && free == frames
    {
      pages, free := map[], frames;
    }

    method AllocateFrame() returns (f: Option<nat>)
      requires Valid()
      modifies `free
      ensures Valid() && (f.None? <==> old(free) == {}) && (f.None? ==> free == old(free))
      ensures f.Some? ==> f.value in old(free) && free == old(free) - {f.value} && forall k | k in pages :: pages[k].frame != f.value
    {
      if free == {} {
        return None;
      }
      var x :| x in free;
      free := free - {x};
      return Some(x);
    }

    /** `map_page` of a frame in hand: it may fail, and does on a mapped page. */
    method MapPage(page: nat, frame: nat, flags: Flags) returns (ok: bool)
      requires Valid() && frame !in free && flags.Exclusive() && forall k | k in pages :: pages[k].frame != frame
      modifies `pages
      ensures Valid() && (ok ==> page !in old(pages) && pages == old(pages)[page := Entry(frame, flags)])
      ensures !ok ==> pages == old(pages)
    {
      var fails: bool := *;
      if fails || page in pages {
        return false;
      }
      pages := pages[page := Entry(frame, flags)];
      return true;
    }

    /** `unmap_page`. */
    method UnmapPage(page: nat) returns (frame: Option<nat>)
      requires Valid()
      modifies `pages
      ensures Valid() && pages == old(pages) - {page}
      ensures frame == if page in old(pages) then Some(old(pages)[page].frame) else None
      ensures frame.Some? ==> frame.value !in free && forall k | k in pages :: pages[k].frame != frame.value
    {
      if page !in pages {
        assert pages - {page} == pages;
        return None;
      }
      frame := Some(pages[page].frame);
      pages := pages - {page};
    }

    /** `unmap_range`: whatever is mapped there is unmapped and its frames freed. */
    method UnmapRange(at: nat, n: nat)
      requires Valid()
      modifies this
      ensures Valid() && Elsewhere(old(pages), pages, at, n) && Free(pages, at, n)
      ensures free == old(free) + FramesIn(old(pages), at, n)
    {
      hide FramesIn;
      FramesNone(pages, at);
      for i := 0 to n
        invariant Valid() && Elsewhere(old(pages), pages, at, i) && Free(pages, at, i)
        invariant free == old(free) + FramesIn(old(pages), at, i)
      {
        FramesStep(old(pages), at, i);
        assert !In(at, i, at + i);
        var frame := UnmapPage(at + i);
        if frame.Some? {
          free := free + {frame.value};
        }
      }
    }

    /** `map_range`: fresh pages at `[at, at + n)`, or nothing at all. */
    method MapRange(at: nat, n: nat, flags: Flags) returns (ok: bool)
      requires Valid() && flags.Exclusive()
      modifies this
      ensures Valid()
      ensures ok ==>
        && Elsewhere(old(pages), pages, at, n) && Free(old(pages), at, n) && All(pages, at, n, flags)
        && free == old(free) - FramesIn(pages, at, n) && FramesIn(pages, at, n) <= old(free)
      ensures !ok ==> pages == old(pages) && free == old(free)
    {
      hide FramesIn, Sound;
      FramesNone(pages, at);
      for i := 0 to n
        invariant Valid() && Elsewhere(old(pages), pages, at, i) && Free(old(pages), at, i) && All(pages, at, i, flags)
        invariant free == old(free) - FramesIn(pages, at, i) && FramesIn(pages, at, i) <= old(free)
      {
        var frame := AllocateFrame();
        if frame.None? {
          UnmapRange(at, i);
          Restored(old(pages), pages, at, i);
          return false;
        }
        ghost var before := pages;
        var mapped := MapPage(at + i, frame.value, flags);
        if !mapped {
          SoundFreed(pages, free, frame.value);
          free := free + {frame.value};
          UnmapRange(at, i);
          Restored(old(pages), pages, at, i);
          return false;
        }
        FramesSame(before, pages, at, i);
        FramesStep(pages, at, i);
      }
      return true;
    }

    /** `Code::map`: pages that are written first and executed afterwards, never
        both; or nothing at all. */
    method MapCode(at: nat, n: nat) returns (ok: bool)
      requires Valid()
      modifies this
      ensures Valid()
      ensures ok ==>
        && Elsewhere(old(pages), pages, at, n) && Free(old(pages), at, n) && All(pages, at, n, RX)
        && free == old(free) - FramesIn(pages, at, n) && FramesIn(pages, at, n) <= old(free)
      ensures !ok ==> pages == old(pages) && free == old(free)
    {
      ok := MapRange(at, n, RW);
      if !ok {
        return;
      }
      for i := 0 to n
        invariant Valid() && Elsewhere(old(pages), pages, at, n) && Free(old(pages), at, n)
        invariant All(pages, at, i, RX) && All(pages, at + i, n - i, RW)
        invariant free == old(free) - FramesIn(pages, at, n) && FramesIn(pages, at, n) <= old(free)
      {
        ok := Flip(at, n, i, old(pages), old(free));
        if !ok {
          return;
        }
      }
    }

    /** One page of `Code::map` changes from writable to executable; if it cannot,
        the whole range goes. */
    method Flip(at: nat, n: nat, i: nat, ghost pages0: Pages, ghost free0: set<nat>) returns (ok: bool)
      requires Valid() && i < n && Elsewhere(pages0, pages, at, n) && Free(pages0, at, n)
      requires All(pages, at, i, RX) && All(pages, at + i, n - i, RW)
      requires free == free0 - FramesIn(pages, at, n) && FramesIn(pages, at, n) <= free0
      modifies this
      ensures Valid()
      ensures ok ==>
        && Elsewhere(pages0, pages, at, n) && All(pages, at, i + 1, RX) && All(pages, at + i + 1, n - i - 1, RW)
        && free == free0 - FramesIn(pages, at, n) && FramesIn(pages, at, n) <= free0
      ensures !ok ==> pages == pages0 && free == free0
    {
      hide FramesIn, Sound;
      assert In(at + i, n - i, at + i) && In(at, n, at + i);
      FramesLess(pages, free, at, n, at + i);
      var frame := UnmapPage(at + i);
      ok := MapPage(at + i, frame.value, RX);
      if !ok {
        SoundFreed(pages, free, frame.value);
        free := free + {frame.value};
        UnmapRange(at, n);
        Restored(pages0, pages, at, n);
      } else {
        FramesAgain(old(pages), pages, at, n, at + i);
      }
    }
  }

  lemma Restored(pages0: Pages, pages1: Pages, at: nat, n: nat)
    requires Free(pages0, at, n) && Free(pages1, at, n)
    requires forall k | !In(at, n, k) :: (k in pages0 <==> k in pages1) && (k in pages0 ==> pages1[k] == pages0[k])
    ensures pages1 == pages0
  {
    forall k ensures k in pages1 <==> k in pages0 {
      assert In(at, n, k) || !In(at, n, k);
    }
  }

  lemma FramesSame(pages0: Pages, pages1: Pages, at: nat, n: nat)
    requires forall k | In(at, n, k) :: (k in pages0 <==> k in pages1) && (k in pages0 ==> pages1[k] == pages0[k])
    ensures FramesIn(pages1, at, n) == FramesIn(pages0, at, n)
  {
    forall f ensures f in FramesIn(pages1, at, n) <==> f in FramesIn(pages0, at, n) {
    }
  }

  /** Unmapping one page of a range takes its frame out. */
  lemma FramesLess(pages: Pages, free: set<nat>, at: nat, n: nat, k: nat)
    requires k in pages && In(at, n, k) && Sound(pages, free)
    ensures FramesIn(pages - {k}, at, n) == FramesIn(pages, at, n) - {pages[k].frame} && pages[k].frame in FramesIn(pages, at, n)
  {
    var less := pages - {k};
    forall f ensures f in FramesIn(less, at, n) <==> f in FramesIn(pages, at, n) && f != pages[k].frame {
      if f in FramesIn(pages, at, n) && f != pages[k].frame {
        var a :| a in pages && In(at, n, a) && pages[a].frame == f;
        assert a in less && less[a].frame == f;
      }
    }
  }

  /** The same frames behind the same pages. */
  lemma FramesAgain(pages0: Pages, pages1: Pages, at: nat, n: nat, k: nat)
    requires k in pages0 && k in pages1 && pages1[k].frame == pages0[k].frame
    requires pages1 == pages0[k := pages1[k]]
    ensures FramesIn(pages1, at, n) == FramesIn(pages0, at, n)
  {
    forall f ensures f in FramesIn(pages1, at, n) <==> f in FramesIn(pages0, at, n) {
      if f in FramesIn(pages1, at, n) {
        var a :| a in pages1 && In(at, n, a) && pages1[a].frame == f;
        assert a in pages0 && pages0[a].frame == f;
      }
      if f in FramesIn(pages0, at, n) {
        var a :| a in pages0 && In(at, n, a) && pages0[a].frame == f;
        assert a in pages1 && pages1[a].frame == f;
      }
    }
  }

  // ── Instances ────────────────────────────────────────────────────────

  /** Most wasm pages (of 64 KiB, 16 pages) an instance may have. */
  const MOST: nat := MAX_PAGES / 16

  ghost predicate Exactly(pages: Pages, base: nat, n: nat)
    requires n <= STRIDE
  {
    All(pages, base, n, RW) && Free(pages, base + n, STRIDE - n)
  }

  /** `initial` is the size `Memory` was made with, `size` what the context says,
      both in wasm pages. */
  class Instance {
    const space: Space
    const base: nat
    const initial: nat
    const maxPages: nat
    var size: nat

    /** The pages of the slot that are mapped are exactly those of the memory. */
    ghost predicate Valid()
      reads this, space
    {
      space.Valid() && initial <= size <= MOST && Exactly(space.pages, base, 16 * size)
    }

    /** `Memory::new` in a slot with nothing mapped has done its work. */
    constructor (space: Space, base: nat, initial: nat, maxPages: nat)
      requires space.Valid() && initial <= MOST && Exactly(space.pages, base, 16 * initial)
      ensures Valid() && this.space == space && this.base == base && this.size == initial && this.initial == initial
    {
      this.space, this.base, this.initial, this.maxPages, this.size := space, base, initial, maxPages, initial;
    }

    /** `grow`: the old size, or nothing changes. */
    method Grow(delta: nat) returns (was: Option<nat>)
      requires Valid()
      modifies this, space
      ensures Valid()
      ensures was.Some? ==> was == Some(old(size)) && size == old(size) + delta && size <= maxPages
      ensures was.None? ==> size == old(size) && space.pages == old(space.pages) && space.free == old(space.free)
      ensures Elsewhere(old(space.pages), space.pages, base, STRIDE)
      ensures space.free == old(space.free) - FramesIn(space.pages, base, STRIDE)
      ensures FramesIn(old(space.pages), base, STRIDE) <= FramesIn(space.pages, base, STRIDE)
              <= FramesIn(old(space.pages), base, STRIDE) + old(space.free)
    {
      hide FramesIn, Sound;
      SlotFrames(space.pages, space.free, base);
      var more := size + delta;
      if more > maxPages || more > MOST {
        return None;
      }
      var refused: bool := *;
      if refused {
        return None;
      }
      if delta > 0 {
        var ok := space.MapRange(base + 16 * size, 16 * delta, RW);
        if !ok {
          return None;
        }
        FramesGrown(old(space.pages), space.pages, old(space.free), base, 16 * size, 16 * delta);
      }
      was := Some(size);
      size := more;
    }

    /** `Drop for Instance` and `Drop for Memory`: what is mapped goes, and its
        frames come back. */
    method Drop()
      requires Valid()
      modifies this, space
      ensures space.Valid() && Free(space.pages, base, STRIDE) && Elsewhere(old(space.pages), space.pages, base, STRIDE)
      ensures space.free == old(space.free) + FramesIn(old(space.pages), base, STRIDE)
    {
      hide FramesIn, Sound;
      var returned := if size < initial then initial else if size > MOST then MOST else size;
      FramesOnly(space.pages, base, 16 * size);
      space.UnmapRange(base, 16 * returned);
    }
  }

  /** A free frame is behind no page of the slot. */
  lemma SlotFrames(pages: Pages, free: set<nat>, base: nat)
    requires Sound(pages, free)
    ensures free == free - FramesIn(pages, base, STRIDE)
  {
  }

  /** The frames of the slot are those of the memory. */
  lemma FramesOnly(pages: Pages, base: nat, n: nat)
    requires n <= STRIDE && Free(pages, base + n, STRIDE - n)
    ensures FramesIn(pages, base, STRIDE) == FramesIn(pages, base, n)
  {
    forall f ensures f in FramesIn(pages, base, STRIDE) <==> f in FramesIn(pages, base, n) {
      if f in FramesIn(pages, base, STRIDE) {
        var k :| k in pages && In(base, STRIDE, k) && pages[k].frame == f;
        assert !In(base + n, STRIDE - n, k);
        assert In(base, n, k);
      }
      if f in FramesIn(pages, base, n) {
        var k :| k in pages && In(base, n, k) && pages[k].frame == f;
        assert In(base, STRIDE, k);
      }
    }
  }

  /** Growth takes from the free frames exactly those behind the new pages. */
  lemma FramesGrown(pages0: Pages, pages1: Pages, free0: set<nat>, base: nat, n: nat, more: nat)
    requires n + more <= STRIDE && Elsewhere(pages0, pages1, base + n, more) && Sound(pages0, free0)
    requires Free(pages0, base + n, more)
    ensures FramesIn(pages1, base, STRIDE) == FramesIn(pages0, base, STRIDE) + FramesIn(pages1, base + n, more)
    ensures free0 - FramesIn(pages1, base + n, more) == free0 - FramesIn(pages1, base, STRIDE)
  {
    forall f ensures f in FramesIn(pages1, base, STRIDE)
                     <==> f in FramesIn(pages0, base, STRIDE) + FramesIn(pages1, base + n, more)
    {
      if f in FramesIn(pages0, base, STRIDE) {
        var k :| k in pages0 && In(base, STRIDE, k) && pages0[k].frame == f;
        assert !In(base + n, more, k);
        assert k in pages1 && pages1[k] == pages0[k];
      }
      if f in FramesIn(pages1, base + n, more) {
        var k :| k in pages1 && In(base + n, more, k) && pages1[k].frame == f;
        assert In(base, STRIDE, k);
      }
      if f in FramesIn(pages1, base, STRIDE) {
        var k :| k in pages1 && In(base, STRIDE, k) && pages1[k].frame == f;
        if !In(base + n, more, k) {
          assert k in pages0 && pages0[k] == pages1[k];
        }
      }
    }
    SlotFrames(pages0, free0, base);
  }

  /** `Memory::new` in slot `base`. */
  method Instantiate(space: Space, base: nat, initial: nat, maxPages: nat) returns (i: Option<Instance>)
    requires space.Valid() && Free(space.pages, base, STRIDE)
    modifies space
    ensures space.Valid()
    ensures i.None? ==> space.pages == old(space.pages) && space.free == old(space.free)
    ensures i.Some? ==>
      && fresh(i.value) && i.value.Valid() && i.value.space == space && i.value.base == base && i.value.size == initial
      && Elsewhere(old(space.pages), space.pages, base, STRIDE)
      && space.free == old(space.free) - FramesIn(space.pages, base, STRIDE)
      && FramesIn(space.pages, base, STRIDE) <= old(space.free)
  {
    hide FramesIn, Sound;
    if initial > MOST {
      return None;
    }
    var refused: bool := *;
    if refused {
      return None;
    }
    var ok := space.MapRange(base, 16 * initial, RW);
    if !ok {
      return None;
    }
    FramesOnly(space.pages, base, 16 * initial);
    var made := new Instance(space, base, initial, maxPages);
    return Some(made);
  }

  /** Whatever an instance asks for while it lives, when it is gone every page and
      every frame is as it was before. */
  method Lifetime(space: Space, base: nat, initial: nat, maxPages: nat, deltas: seq<nat>)
    requires space.Valid() && Free(space.pages, base, STRIDE)
    modifies space
    ensures space.Valid() && space.pages == old(space.pages) && space.free == old(space.free)
  {
    hide FramesIn, Sound;
    var made := Instantiate(space, base, initial, maxPages);
    if made.None? {
      return;
    }
    var i := made.value;
    for d := 0 to |deltas|
      invariant i.Valid() && i.space == space && i.base == base && fresh(i)
      invariant Elsewhere(old(space.pages), space.pages, base, STRIDE)
      invariant space.free == old(space.free) - FramesIn(space.pages, base, STRIDE)
      invariant FramesIn(space.pages, base, STRIDE) <= old(space.free)
    {
      var _ := i.Grow(deltas[d]);
    }
    i.Drop();
    Restored(old(space.pages), space.pages, base, STRIDE);
  }
}
