/** Slots, code, pages and frames together: any number of instances and modules
    being made, grown and dropped at once, a page at a time
    (kernel/src/forge_rt.rs). */
module ForgeRun {
  import opened Util
  import opened Forge
  import S = ForgeSlots

  /** The first page of a slot, and of the code above all slots. */
  function PageBase(slot: nat): nat { 0x8000_0000 + 0x40_0000 * slot }

  const CODE: nat := 0x1_8000_0000

  /** Where something is mapped: an instance's slot, or a range for a module's code. */
  datatype Place = InSlot(slot: nat) | Code(base: nat, span: nat) {
    function First(): nat { if InSlot? then PageBase(slot) else base }
    function Width(): nat { if InSlot? then 0x40_0000 else span }
    /** The pages it may come to. */
    function Most(): nat { if InSlot? then 0x20_0001 else span }
  }

  function Page(a: Place, k: nat): nat { a.First() + k }

  predicate Disjoint(a: Place, b: Place) {
    a.First() + a.Width() <= b.First() || b.First() + b.Width() <= a.First()
  }

  /** What is going on in a place; `hand` is a frame between allocator and page
      table.
      Live: in use, with `size` pages.
      Filling: `map_range` of `want` pages after the first `from`, `done` of them
      mapped; `first` if it is `Memory::new` or `Code::map`, else `grow`.
      Flipping: `Code::map` has made `done` of its `n` pages executable.
      Clearing: `unmap_range` of `n` pages after the first `from`, `done` of them
      gone and `hole` never there; `last` if the place is given up then. */
  datatype Work =
    | Live(place: Place, size: nat)
    | Filling(place: Place, first: bool, from: nat, done: nat, want: nat, hand: Option<nat>)
    | Flipping(place: Place, done: nat, n: nat, hand: Option<nat>)
    | Clearing(place: Place, last: bool, from: nat, done: nat, n: nat, hole: Option<nat>, hand: Option<nat>)
  {
    function Hand(): Option<nat> { if this.Live? then None else hand }

    /** The page it is at, counted from the first of its place. */
    function Offset(): nat
      requires !this.Live?
    {
      if Flipping? then done else from + done
    }

    ghost predicate Ok() {
      var most := place.Most();
      match this
      case Live(_, size) => size <= most && (place.Code? ==> size == place.span)
      case Filling(_, first, from, done, want, hand) =>
        && from + want <= most && done <= want && (hand.Some? ==> done < want) && (first ==> from == 0)
        && (place.Code? ==> first && want == place.span)
      case Flipping(_, done, n, hand) => place.Code? && n == place.span && done <= n && (hand.Some? ==> done < n)
      case Clearing(_, last, from, done, n, hole, _) =>
        from + n <= most && done <= n && (last ==> from == 0) && (place.Code? ==> last) && (hole.Some? ==> place.Code?)
    }

    /** Whether page `k` of its place is mapped. */
    ghost predicate Maps(k: nat) {
      match this
      case Live(_, size) => k < size
      case Filling(_, _, from, done, _, _) => k < from + done
      case Flipping(_, done, n, hand) => k < n && !(k == done && hand.Some?)
      case Clearing(_, _, from, done, n, hole, _) => (k < from || from + done <= k < from + n) && hole != Some(k)
    }

    /** With which flags. */
    ghost predicate Bears(k: nat, fl: Flags) {
      match this
      case Live(_, _) => fl == if place.InSlot? then RW else RX
      case Filling(_, _, _, _, _, _) => fl == RW
      case Flipping(_, done, _, _) => fl == if k < done then RX else RW
      case Clearing(_, _, _, _, _, _, _) => place.InSlot? ==> fl == RW
    }
  }

  /** `work` has what is going on, by the thread at work on it; `nextCode` is
      `FORGE_NEXT_CODE`. */
  datatype World = World(slots: S.Sys, nextCode: nat, pages: Pages, free: set<nat>, work: map<nat, Work>)

  datatype Step =
    // A step of `take_slot`; `want` is what `Memory::new` then maps, none if refused.
    | Take(step: S.Step, want: Option<nat>)
    // `Code::map` reserves `n` pages.
    | Reserve(thread: nat, n: nat)
    | Grow(thread: nat, delta: nat)
    | Drop(thread: nat)
    | Allocate(thread: nat, frame: nat)
    | NoFrame(thread: nat)
    | MapPage(thread: nat)
    | MapFails(thread: nat)
    | Filled(thread: nat)
    | FlipUnmap(thread: nat)
    | Flipped(thread: nat)
    | UnmapPage(thread: nat)
    | Deallocate(thread: nat)
    | Cleared(thread: nat)

  /** The page a thread is about to map or unmap. */
  function Next(x: Work): nat
    requires !x.Live?
  {
    Page(x.place, x.Offset())
  }

  ghost predicate Enabled(w: World, e: Step) {
    match e
    case Take(step, want) =>
      && !step.Give? && step.thread !in w.work && S.Enabled(w.slots, step)
      && (want.Some? ==> want.value <= MAX_PAGES)
    case Reserve(t, _) => t !in w.work
    case Grow(t, delta) => t in w.work && w.work[t].Live? && w.work[t].place.InSlot? && w.work[t].size + delta <= MAX_PAGES
    case Drop(t) => t in w.work && w.work[t].Live?
    case Allocate(t, frame) => t in w.work && Wants(w.work[t]) && frame in w.free
    case NoFrame(t) => t in w.work && Wants(w.work[t])
    case MapPage(t) => t in w.work && Brings(w.work[t]) && Next(w.work[t]) !in w.pages
    case MapFails(t) => t in w.work && Brings(w.work[t])
    case Filled(t) => t in w.work && w.work[t].Filling? && w.work[t].hand.None? && w.work[t].done == w.work[t].want
    case FlipUnmap(t) => t in w.work && w.work[t].Flipping? && w.work[t].hand.None? && w.work[t].done < w.work[t].n
    case Flipped(t) => t in w.work && w.work[t].Flipping? && w.work[t].hand.None? && w.work[t].done == w.work[t].n
    case UnmapPage(t) => t in w.work && w.work[t].Clearing? && w.work[t].hand.None? && w.work[t].done < w.work[t].n
    case Deallocate(t) => t in w.work && w.work[t].Clearing? && w.work[t].hand.Some?
    case Cleared(t) => t in w.work && w.work[t].Clearing? && w.work[t].hand.None? && w.work[t].done == w.work[t].n
  }

  /** A frame is needed for the next page; one is in hand for it. */
  predicate Wants(x: Work) { x.Filling? && x.hand.None? && x.done < x.want }

  predicate Brings(x: Work) { (x.Filling? || x.Flipping?) && x.hand.Some? }

  /** What a thread does next, without regard to the rest. */
  function Became(x: Work, e: Step, frame: Option<nat>): Work
    requires !e.Take? && !e.Reserve?
    requires e.Grow? || e.Drop? ==> x.Live?
    requires e.Allocate? || e.NoFrame? ==> Wants(x)
    requires e.MapPage? || e.MapFails? ==> Brings(x)
    requires e.Filled? ==> x.Filling?
    requires e.FlipUnmap? || e.Flipped? ==> x.Flipping?
    requires e.UnmapPage? || e.Deallocate? || e.Cleared? ==> x.Clearing?
  {
    match e
    case Grow(_, delta) => Filling(x.place, false, x.size, 0, delta, None)
    case Drop(_) => Clearing(x.place, true, 0, 0, x.size, None, None)
    case Allocate(_, f) => Filling(x.place, x.first, x.from, x.done, x.want, Some(f))
    case NoFrame(_) => Clearing(x.place, x.first, x.from, 0, x.done, None, None)
    case MapPage(_) =>
      if x.Filling? then Filling(x.place, x.first, x.from, x.done + 1, x.want, None)
      else Flipping(x.place, x.done + 1, x.n, None)
    case MapFails(_) =>
      if x.Filling? then Clearing(x.place, x.first, x.from, 0, x.done, None, None)
      else Clearing(x.place, true, 0, 0, x.n, Some(x.done), None)
    case Filled(_) => if x.place.Code? then Flipping(x.place, 0, x.want, None) else Live(x.place, x.from + x.want)
    case FlipUnmap(_) => if frame.Some? then Flipping(x.place, x.done, x.n, frame) else Clearing(x.place, true, 0, 0, x.n, Some(x.done), None)
    case Flipped(_) => Live(x.place, x.n)
    case UnmapPage(_) => Clearing(x.place, x.last, x.from, x.done + 1, x.n, x.hole, frame)
    case Deallocate(_) => Clearing(x.place, x.last, x.from, x.done, x.n, x.hole, None)
    case Cleared(_) => Live(x.place, x.from)
  }

  /** The frame behind the page a thread is at. */
  function FrameAt(pages: Pages, x: Work): Option<nat> {
    if !x.Live? && Next(x) in pages then Some(pages[Next(x)].frame) else None
  }

  function PagesAfter(pages: Pages, x: Work, e: Step): Pages
    requires e.MapPage? ==> Brings(x)
    requires e.FlipUnmap? || e.UnmapPage? ==> !x.Live?
  {
    if e.MapPage? then pages[Next(x) := Entry(x.hand.value, if x.Filling? then RW else RX)]
    else if e.FlipUnmap? || e.UnmapPage? then pages - {Next(x)}
    else pages
  }

  function FreeAfter(free: set<nat>, x: Work, e: Step): set<nat>
    requires e.MapFails? || e.Deallocate? ==> x.Hand().Some?
  {
    if e.Allocate? then free - {e.frame}
    else if e.MapFails? || e.Deallocate? then free + {x.Hand().value}
    else free
  }

  ghost function After(w: World, e: Step): World
    requires Enabled(w, e)
  {
    if e.Take? then
      var slots := S.After(w.slots, e.step);
      (match S.Granted(w.slots, e.step)
       case None => w.(slots := slots)
       case Some(s) =>
         w.(slots := slots,
            work := w.work[e.step.thread := if e.want.Some? then Filling(InSlot(s), true, 0, 0, e.want.value, None)
                                            else Clearing(InSlot(s), true, 0, 0, 0, None, None)]))
    else if e.Reserve? then
      w.(nextCode := w.nextCode + Max(e.n, 1),
         work := w.work[e.thread := Filling(Code(w.nextCode, e.n), true, 0, 0, e.n, None)])
    else
      var t, x := e.thread, w.work[e.thread];
      if e.Cleared? && x.last then
        w.(slots := if x.place.InSlot? then S.Given(w.slots, x.place.slot) else w.slots, work := w.work - {t})
      else
        w.(work := w.work[t := Became(x, e, FrameAt(w.pages, x))],
           pages := PagesAfter(w.pages, x, e), free := FreeAfter(w.free, x, e))
  }

  // ── The invariant ────────────────────────────────────────────────────

  /** The pages mapped in its place are exactly those it says, with its flags. */
  ghost predicate Shown(pages: Pages, x: Work) {
    forall k: nat | k < x.place.Width() ::
      (Page(x.place, k) in pages <==> x.Maps(k)) && (x.Maps(k) ==> x.Bears(k, pages[Page(x.place, k)].flags))
  }

  /** The same but for page `q`. */
  ghost predicate But(pages0: Pages, pages1: Pages, q: nat) {
    forall p: nat | p != q :: (p in pages0 <==> p in pages1) && (p in pages0 ==> pages1[p] == pages0[p])
  }

  /** Its place is its own: an owned slot, or a range of code handed out. */
  ghost predicate Placed(x: Work, owned: set<nat>, nextCode: nat) {
    && x.Ok()
    && if x.place.InSlot? then x.place.slot < 1024 && x.place.slot in owned
       else CODE <= x.place.base && x.place.base + x.place.span <= nextCode
  }

  ghost predicate PlacesOk(w: World) {
    && S.Inv(w.slots) && CODE <= w.nextCode
    && (forall t | t in w.work :: Placed(w.work[t], w.slots.owned, w.nextCode))
    && (forall t, u | t in w.work && u in w.work && t != u :: Disjoint(w.work[t].place, w.work[u].place))
    && (forall s | s in w.slots.owned :: Taken(w.work, s))
  }

  ghost predicate Taken(work: map<nat, Work>, s: nat) { exists t :: t in work && work[t].place == InSlot(s) }

  /** Page `p` is in the range of some code. */
  ghost predicate Covered(work: map<nat, Work>, p: nat) {
    exists t :: t in work && work[t].place.Code? && In(work[t].place.base, work[t].place.span, p)
  }

  ghost predicate PagesOk(w: World) {
    && (forall t | t in w.work :: Shown(w.pages, w.work[t]))
    && (forall s: nat | s < 1024 && s !in w.slots.owned :: Free(w.pages, PageBase(s), STRIDE))
    && (forall p | p in w.pages && p >= CODE :: Covered(w.work, p))
  }

  ghost predicate Behind(pages: Pages, f: nat) { exists k :: k in pages && pages[k].frame == f }

  ghost predicate InHand(work: map<nat, Work>, f: nat) { exists t :: t in work && work[t].Hand() == Some(f) }

  /** Each of the frames `all` is free, in hand or behind a page, once. */
  ghost predicate FramesOk(pages: Pages, free: set<nat>, work: map<nat, Work>, all: set<nat>) {
    && Sound(pages, free)
    && (forall t, f | t in work && work[t].Hand() == Some(f) :: f !in free && !Behind(pages, f))
    && (forall t, u | t in work && u in work && t != u && work[t].Hand().Some? :: work[t].Hand() != work[u].Hand())
    && (forall f: nat :: f in all <==> f in free || Behind(pages, f) || InHand(work, f))
  }

  ghost predicate Inv(w: World, all: set<nat>) { PlacesOk(w) && PagesOk(w) && FramesOk(w.pages, w.free, w.work, all) }

  // ── One step ─────────────────────────────────────────────────────────

  lemma Apart(a: Place, k: nat, b: Place, l: nat)
    requires Disjoint(a, b) && k < a.Width() && l < b.Width()
    ensures Page(a, k) != Page(b, l)
  {
  }

  lemma SlotsDisjoint(s: nat, r: nat)
    requires s != r
    ensures Disjoint(InSlot(s), InSlot(r))
  {
  }

  /** A change of one page of a place concerns no other place. */
  lemma ShownElsewhere(pages0: Pages, pages1: Pages, x: Work, b: Place, l: nat)
    requires Shown(pages0, x) && Disjoint(x.place, b) && l < b.Width() && But(pages0, pages1, Page(b, l))
    ensures Shown(pages1, x)
  {
    forall k: nat | k < x.place.Width()
      ensures (Page(x.place, k) in pages1 <==> x.Maps(k)) && (x.Maps(k) ==> x.Bears(k, pages1[Page(x.place, k)].flags))
    {
      Apart(x.place, k, b, l);
    }
  }

  lemma FreeElsewhere(pages0: Pages, pages1: Pages, s: nat, b: Place, l: nat)
    requires Free(pages0, PageBase(s), STRIDE) && Disjoint(InSlot(s), b) && l < b.Width() && But(pages0, pages1, Page(b, l))
    ensures Free(pages1, PageBase(s), STRIDE)
  {
    forall p: nat | In(PageBase(s), STRIDE, p) ensures p !in pages1 {
      Apart(InSlot(s), p - PageBase(s), b, l);
    }
  }

  /** A thread's own step: its place stays its own, and it alone touches the page
      it is at. */
  lemma OwnPages(w: World, v: World, t: nat)
    requires PlacesOk(w) && PagesOk(w) && t in w.work && !w.work[t].Live?
    requires v.slots == w.slots && t in v.work && v.work == w.work[t := v.work[t]] && v.work[t].place == w.work[t].place
    requires w.work[t].Offset() < w.work[t].place.Width()
    requires But(w.pages, v.pages, Next(w.work[t]))
    requires Shown(v.pages, v.work[t])
    ensures PagesOk(v)
  {
    hide S.Inv, Shown, But;
    var a, l := w.work[t].place, w.work[t].Offset();
    forall u | u in v.work ensures Shown(v.pages, v.work[u]) {
      if u != t {
        ShownElsewhere(w.pages, v.pages, w.work[u], a, l);
      }
    }
    forall s: nat | s < 1024 && s !in v.slots.owned ensures Free(v.pages, PageBase(s), STRIDE) {
      SlotApart(w, t, s);
      FreeElsewhere(w.pages, v.pages, s, a, l);
    }
    CodeCovered(w, v, t);
  }

  /** A slot nobody owns is apart from every place in use. */
  lemma SlotApart(w: World, t: nat, s: nat)
    requires PlacesOk(w) && t in w.work && s < 1024 && s !in w.slots.owned
    ensures Disjoint(InSlot(s), w.work[t].place)
  {
    assert Placed(w.work[t], w.slots.owned, w.nextCode);
    if w.work[t].place.InSlot? {
      SlotsDisjoint(s, w.work[t].place.slot);
    }
  }

  lemma CodeCovered(w: World, v: World, t: nat)
    requires PlacesOk(w) && PagesOk(w) && t in w.work && !w.work[t].Live?
    requires t in v.work && v.work == w.work[t := v.work[t]] && v.work[t].place == w.work[t].place
    requires w.work[t].Offset() < w.work[t].place.Width() && But(w.pages, v.pages, Next(w.work[t]))
    ensures forall p | p in v.pages && p >= CODE :: Covered(v.work, p)
  {
    hide S.Inv, Shown;
    assert Placed(w.work[t], w.slots.owned, w.nextCode);
    forall p | p in v.pages && p >= CODE ensures Covered(v.work, p) {
      if p != Next(w.work[t]) {
        assert Covered(w.work, p);
        var u :| u in w.work && w.work[u].place.Code? && In(w.work[u].place.base, w.work[u].place.span, p);
        assert v.work[u].place == w.work[u].place;
      } else {
        assert In(v.work[t].place.base, v.work[t].place.span, p);
      }
    }
  }

  lemma OwnPlaces(w: World, v: World, t: nat)
    requires PlacesOk(w) && t in w.work
    requires v.slots == w.slots && v.nextCode == w.nextCode && t in v.work && v.work == w.work[t := v.work[t]]
    requires v.work[t].place == w.work[t].place && v.work[t].Ok()
    ensures PlacesOk(v)
  {
    hide S.Inv, Work.Ok;
    forall u | u in v.work ensures Placed(v.work[u], v.slots.owned, v.nextCode) {
      assert Placed(w.work[u], w.slots.owned, w.nextCode);
    }
    forall s | s in v.slots.owned ensures Taken(v.work, s) {
      assert Taken(w.work, s);
      var u :| u in w.work && w.work[u].place == InSlot(s);
      assert v.work[u].place == InSlot(s);
    }
  }

  // Frames: what one step does to where they are.

  lemma FramesKept(pages: Pages, free: set<nat>, work0: map<nat, Work>, work1: map<nat, Work>, all: set<nat>)
    requires FramesOk(pages, free, work0, all)
    requires forall t :: (if t in work1 then work1[t].Hand() else None) == (if t in work0 then work0[t].Hand() else None)
    ensures FramesOk(pages, free, work1, all)
  {
    forall f: nat ensures InHand(work1, f) <==> InHand(work0, f) {
      if InHand(work1, f) {
        var t :| t in work1 && work1[t].Hand() == Some(f);
        assert t in work0 && work0[t].Hand() == Some(f);
      }
      if InHand(work0, f) {
        var t :| t in work0 && work0[t].Hand() == Some(f);
        assert t in work1 && work1[t].Hand() == Some(f);
      }
    }
  }

  /** `f` is in hand of `t` afterwards and of nobody before, or the other way. */
  lemma HandMoves(work: map<nat, Work>, t: nat, x: Work, f: nat)
    requires t in work && work[t].Hand() == None && x.Hand() == Some(f)
    ensures forall g: nat :: InHand(work[t := x], g) <==> InHand(work, g) || g == f
  {
    forall g: nat ensures InHand(work[t := x], g) <==> InHand(work, g) || g == f {
      var now := work[t := x];
      if InHand(now, g) {
        var u :| u in now && now[u].Hand() == Some(g);
        assert u != t ==> work[u].Hand() == Some(g);
      }
      if InHand(work, g) {
        var u :| u in work && work[u].Hand() == Some(g);
        assert now[u].Hand() == Some(g);
      }
      if g == f {
        assert now[t].Hand() == Some(g);
      }
    }
  }

  lemma FrameTaken(pages: Pages, free: set<nat>, work: map<nat, Work>, all: set<nat>, t: nat, x: Work, f: nat)
    requires FramesOk(pages, free, work, all) && t in work && work[t].Hand() == None && x.Hand() == Some(f) && f in free
    ensures FramesOk(pages, free - {f}, work[t := x], all)
  {
    HandMoves(work, t, x, f);
  }

  lemma FrameUnmapped(pages: Pages, free: set<nat>, work: map<nat, Work>, all: set<nat>, t: nat, x: Work, p: nat)
    requires FramesOk(pages, free, work, all) && t in work && work[t].Hand() == None
    requires p in pages && x.Hand() == Some(pages[p].frame)
    ensures FramesOk(pages - {p}, free, work[t := x], all)
  {
    var f, less := pages[p].frame, pages - {p};
    HandMoves(work, t, x, f);
    BehindLess(pages, free, p);
    hide Behind, InHand, Sound;
    assert f !in free;
  }

  lemma BehindLess(pages: Pages, free: set<nat>, p: nat)
    requires Sound(pages, free) && p in pages
    ensures Sound(pages - {p}, free) && Behind(pages, pages[p].frame) && pages[p].frame !in free
    ensures forall g: nat :: Behind(pages - {p}, g) <==> Behind(pages, g) && g != pages[p].frame
  {
    var less := pages - {p};
    forall g: nat ensures Behind(less, g) <==> Behind(pages, g) && g != pages[p].frame {
      if Behind(pages, g) && g != pages[p].frame {
        var k :| k in pages && pages[k].frame == g;
        assert k in less && less[k].frame == g;
      }
    }
  }

  lemma FrameFreed(pages: Pages, free: set<nat>, work: map<nat, Work>, all: set<nat>, t: nat, x: Work, f: nat)
    requires FramesOk(pages, free, work, all) && t in work && work[t].Hand() == Some(f) && x.Hand() == None
    ensures FramesOk(pages, free + {f}, work[t := x], all)
  {
    HandGone(work, t, x, f);
    assert !Behind(pages, f);
    assert Sound(pages, free + {f});
  }

  lemma FrameMapped(pages: Pages, free: set<nat>, work: map<nat, Work>, all: set<nat>, t: nat, x: Work, f: nat, p: nat, fl: Flags)
    requires FramesOk(pages, free, work, all) && t in work && work[t].Hand() == Some(f) && x.Hand() == None && p !in pages
    requires fl.Exclusive()
    ensures FramesOk(pages[p := Entry(f, fl)], free, work[t := x], all)
  {
    var more := pages[p := Entry(f, fl)];
    HandGone(work, t, x, f);
    assert !Behind(pages, f);
    forall g: nat ensures Behind(more, g) <==> Behind(pages, g) || g == f {
      if Behind(pages, g) {
        var k :| k in pages && pages[k].frame == g;
        assert k in more && more[k].frame == g;
      }
      if g == f {
        assert more[p].frame == g;
      }
    }
    assert Sound(more, free);
  }

  lemma HandGone(work: map<nat, Work>, t: nat, x: Work, f: nat)
    requires t in work && work[t].Hand() == Some(f) && x.Hand() == None
    requires forall u | u in work && u != t :: work[u].Hand() != Some(f)
    ensures forall g: nat :: InHand(work[t := x], g) <==> InHand(work, g) && g != f
  {
    forall g: nat ensures InHand(work[t := x], g) <==> InHand(work, g) && g != f {
      var now := work[t := x];
      if InHand(now, g) {
        var u :| u in now && now[u].Hand() == Some(g);
        assert work[u].Hand() == Some(g);
      }
      if InHand(work, g) && g != f {
        var u :| u in work && work[u].Hand() == Some(g);
        assert now[u].Hand() == Some(g);
      }
    }
  }

  /** A new thread with a place apart from all others and nothing mapped in it. */
  lemma NewWork(w: World, v: World, t: nat)
    requires PlacesOk(w) && PagesOk(w) && t !in w.work && t in v.work && v.work == w.work[t := v.work[t]]
    requires v.pages == w.pages && w.nextCode <= v.nextCode && S.Inv(v.slots)
    requires Placed(v.work[t], v.slots.owned, v.nextCode) && forall k: nat :: !v.work[t].Maps(k)
    requires v.slots.owned == w.slots.owned + (if v.work[t].place.InSlot? then {v.work[t].place.slot} else {})
    requires forall u | u in w.work :: Disjoint(w.work[u].place, v.work[t].place)
    requires Free(w.pages, v.work[t].place.First(), v.work[t].place.Width())
    ensures PlacesOk(v) && PagesOk(v)
  {
    hide S.Inv, Work.Ok, Shown;
    var x := v.work[t];
    NothingShown(w.pages, x);
    forall u | u in v.work ensures Placed(v.work[u], v.slots.owned, v.nextCode) {
      if u != t { assert Placed(w.work[u], w.slots.owned, w.nextCode); }
    }
    forall s | s in v.slots.owned ensures Taken(v.work, s) {
      if x.place == InSlot(s) {
        assert v.work[t].place == InSlot(s);
      } else {
        assert Taken(w.work, s);
        var u :| u in w.work && w.work[u].place == InSlot(s);
        assert v.work[u].place == InSlot(s);
      }
    }
    forall p | p in v.pages && p >= CODE ensures Covered(v.work, p) {
      assert Covered(w.work, p);
      var u :| u in w.work && w.work[u].place.Code? && In(w.work[u].place.base, w.work[u].place.span, p);
      assert v.work[u].place == w.work[u].place;
    }
  }

  lemma NothingShown(pages: Pages, x: Work)
    requires Free(pages, x.place.First(), x.place.Width()) && forall k: nat :: !x.Maps(k)
    ensures Shown(pages, x)
  {
    forall k: nat | k < x.place.Width() ensures Page(x.place, k) !in pages {
      assert In(x.place.First(), x.place.Width(), Page(x.place, k));
    }
  }

  lemma TakeOk(w: World, e: Step, all: set<nat>)
    requires Inv(w, all) && Enabled(w, e) && e.Take?
    ensures Inv(After(w, e), all)
    ensures S.Granted(w.slots, e.step).Some? ==> Free(w.pages, PageBase(S.Granted(w.slots, e.step).value), STRIDE)
  {
    hide FramesOk, S.After, S.Enabled, S.Inv, S.Granted, Taken, Shown, Covered;
    var v, t := After(w, e), e.step.thread;
    S.StepOk(w.slots, e.step);
    if S.Granted(w.slots, e.step).Some? {
      var n := S.Granted(w.slots, e.step).value;
      assert Free(w.pages, PageBase(n), STRIDE);
      FramesKept(w.pages, w.free, w.work, v.work, all);
      forall u | u in w.work ensures Disjoint(w.work[u].place, v.work[t].place) { SlotApart(w, u, n); }
      NewWork(w, v, t);
    }
  }

  /** Code is given pages nobody was given before. */
  lemma ReserveOk(w: World, e: Step, all: set<nat>)
    requires Inv(w, all) && Enabled(w, e) && e.Reserve?
    ensures Inv(After(w, e), all) && Free(w.pages, w.nextCode, e.n)
  {
    hide FramesOk, S.Inv, Taken, Shown;
    var v, t := After(w, e), e.thread;
    forall p | p in w.pages && p >= CODE ensures p < w.nextCode {
      assert Covered(w.work, p);
      var u :| u in w.work && w.work[u].place.Code? && In(w.work[u].place.base, w.work[u].place.span, p);
      assert Placed(w.work[u], w.slots.owned, w.nextCode);
    }
    forall u | u in w.work ensures Disjoint(w.work[u].place, v.work[t].place) {
      assert Placed(w.work[u], w.slots.owned, w.nextCode);
    }
    FramesKept(w.pages, w.free, w.work, v.work, all);
    NewWork(w, v, t);
  }

  lemma WorkIs(w: World, t: nat)
    requires PlacesOk(w) && t in w.work
    ensures Placed(w.work[t], w.slots.owned, w.nextCode)
  {
  }

  lemma ShownIs(w: World, t: nat)
    requires PagesOk(w) && t in w.work
    ensures Shown(w.pages, w.work[t])
  {
  }

  /** The thread takes the same pages for its own. */
  lemma SamePages(w: World, v: World, t: nat)
    requires PagesOk(w) && t in w.work && v.slots == w.slots && v.pages == w.pages
    requires t in v.work && v.work == w.work[t := v.work[t]] && v.work[t].place == w.work[t].place
    requires forall k: nat :: v.work[t].Maps(k) <==> w.work[t].Maps(k)
    requires forall k: nat, fl | w.work[t].Maps(k) && w.work[t].Bears(k, fl) :: v.work[t].Bears(k, fl)
    ensures PagesOk(v)
  {
    assert Shown(w.pages, w.work[t]);
    forall p | p in v.pages && p >= CODE ensures Covered(v.work, p) {
      assert Covered(w.work, p);
      var u :| u in w.work && w.work[u].place.Code? && In(w.work[u].place.base, w.work[u].place.span, p);
      assert v.work[u].place == w.work[u].place;
    }
  }

  /** A step that touches neither pages nor frames. */
  lemma PlainOk(w: World, e: Step, all: set<nat>)
    requires Inv(w, all) && Enabled(w, e)
    requires e.Grow? || e.Drop? || e.NoFrame? || e.Filled? || e.Flipped? || (e.Cleared? && !w.work[e.thread].last)
    ensures Inv(After(w, e), all)
  {
    hide FramesOk, S.Inv, PagesOk, PlacesOk;
    var v, t := After(w, e), e.thread;
    WorkIs(w, t);
    SamePages(w, v, t);
    OwnPlaces(w, v, t);
    FramesKept(w.pages, w.free, w.work, v.work, all);
  }

  /** A frame between the allocator and the hand. */
  lemma FrameOk(w: World, e: Step, all: set<nat>)
    requires Inv(w, all) && Enabled(w, e) && (e.Allocate? || e.MapFails? || e.Deallocate?)
    ensures Inv(After(w, e), all)
  {
    hide FramesOk, S.Inv, PagesOk, PlacesOk;
    var v, t := After(w, e), e.thread;
    WorkIs(w, t);
    SamePages(w, v, t);
    OwnPlaces(w, v, t);
    if e.Allocate? {
      FrameTaken(w.pages, w.free, w.work, all, t, v.work[t], e.frame);
    } else {
      FrameFreed(w.pages, w.free, w.work, all, t, v.work[t], w.work[t].hand.value);
    }
  }

  /** A page is mapped. */
  lemma MapOk(w: World, e: Step, all: set<nat>)
    requires Inv(w, all) && Enabled(w, e) && e.MapPage?
    ensures Inv(After(w, e), all)
  {
    hide FramesOk, S.Inv, PagesOk, PlacesOk;
    var v, t := After(w, e), e.thread;
    var x := w.work[t];
    WorkIs(w, t);
    ShownIs(w, t);
    OwnPlaces(w, v, t);
    FrameMapped(w.pages, w.free, w.work, all, t, v.work[t], x.hand.value, Next(x), if x.Filling? then RW else RX);
    OwnPages(w, v, t);
  }

  /** A page is unmapped. */
  lemma UnmapOk(w: World, e: Step, all: set<nat>)
    requires Inv(w, all) && Enabled(w, e) && (e.UnmapPage? || e.FlipUnmap?)
    ensures Inv(After(w, e), all)
  {
    hide FramesOk, S.Inv, PagesOk, PlacesOk;
    var v, t := After(w, e), e.thread;
    var x := w.work[t];
    WorkIs(w, t);
    ShownIs(w, t);
    assert Next(x) in w.pages <==> x.Maps(x.Offset());
    OwnPlaces(w, v, t);
    if Next(x) in w.pages {
      FrameUnmapped(w.pages, w.free, w.work, all, t, v.work[t], Next(x));
    } else {
      assert v.pages == w.pages;
      FramesKept(w.pages, w.free, w.work, v.work, all);
    }
    OwnPages(w, v, t);
  }

  /** A place is given up with nothing mapped in it. */
  lemma GiveOk(w: World, e: Step, all: set<nat>)
    requires Inv(w, all) && Enabled(w, e) && e.Cleared? && w.work[e.thread].last
    ensures Inv(After(w, e), all)
    ensures Free(w.pages, w.work[e.thread].place.First(), w.work[e.thread].place.Width())
  {
    hide FramesOk, S.Inv;
    var v, t, x := After(w, e), e.thread, w.work[e.thread];
    WorkIs(w, t);
    if x.place.InSlot? {
      S.StepOk(w.slots, S.Give(x.place.slot));
    }
    FramesKept(w.pages, w.free, w.work, v.work, all);
    EmptyPlace(w, t);
    LessWork(w, v, t);
  }

  lemma EmptyPlace(w: World, t: nat)
    requires PagesOk(w) && t in w.work && forall k: nat :: !w.work[t].Maps(k)
    ensures Free(w.pages, w.work[t].place.First(), w.work[t].place.Width())
  {
    var a := w.work[t].place;
    ShownIs(w, t);
    forall p: nat | In(a.First(), a.Width(), p) ensures p !in w.pages {
      assert Page(a, p - a.First()) == p;
    }
  }

  lemma LessWork(w: World, v: World, t: nat)
    requires PlacesOk(w) && PagesOk(w) && t in w.work && v.work == w.work - {t} && v.pages == w.pages
    requires v.nextCode == w.nextCode && S.Inv(v.slots)
    requires v.slots.owned == w.slots.owned - (if w.work[t].place.InSlot? then {w.work[t].place.slot} else {})
    requires Free(w.pages, w.work[t].place.First(), w.work[t].place.Width())
    ensures PlacesOk(v) && PagesOk(v)
  {
    hide S.Inv, Shown, Work.Ok;
    forall u | u in v.work ensures Placed(v.work[u], v.slots.owned, v.nextCode) {
      assert Placed(w.work[u], w.slots.owned, w.nextCode) && Disjoint(w.work[u].place, w.work[t].place);
    }
    forall s | s in v.slots.owned ensures Taken(v.work, s) {
      assert Taken(w.work, s);
      var u :| u in w.work && w.work[u].place == InSlot(s);
      assert u != t && v.work[u].place == InSlot(s);
    }
    forall p | p in v.pages && p >= CODE ensures Covered(v.work, p) {
      assert Covered(w.work, p);
      var u :| u in w.work && w.work[u].place.Code? && In(w.work[u].place.base, w.work[u].place.span, p);
      assert v.work[u].place == w.work[u].place;
    }
  }

  /** Every step of every thread. */
  lemma StepOk(w: World, e: Step, all: set<nat>)
    requires Inv(w, all) && Enabled(w, e)
    ensures Inv(After(w, e), all)
  {
    hide Inv, After;
    if e.Take? {
      TakeOk(w, e, all);
    } else if e.Reserve? {
      ReserveOk(w, e, all);
    } else if e.Cleared? && w.work[e.thread].last {
      GiveOk(w, e, all);
    } else if e.Allocate? || e.MapFails? || e.Deallocate? {
      FrameOk(w, e, all);
    } else if e.MapPage? {
      MapOk(w, e, all);
    } else if e.UnmapPage? || e.FlipUnmap? {
      UnmapOk(w, e, all);
    } else {
      PlainOk(w, e, all);
    }
  }

  // ── Whole runs ───────────────────────────────────────────────────────

  /** No slot is taken, no code handed out, and nothing is mapped where they will be. */
  ghost predicate Fresh(w: World) {
    && w.slots == S.Start && w.nextCode == CODE && w.work == map[] && Sound(w.pages, w.free)
    && forall p | p in w.pages :: p < PageBase(0)
  }

  ghost function Frames(w: World): set<nat> { w.free + set p | p in w.pages :: w.pages[p].frame }

  ghost predicate Runs(w: World, steps: seq<Step>)
    decreases |steps|
  {
    steps == [] || (Enabled(w, steps[0]) && Runs(After(w, steps[0]), steps[1..]))
  }

  ghost function Ends(w: World, steps: seq<Step>): World
    requires Runs(w, steps)
    decreases |steps|
  {
    if steps == [] then w else Ends(After(w, steps[0]), steps[1..])
  }

  /** The pages below all slots are those of `pages0`. */
  ghost predicate BelowSame(pages0: Pages, pages1: Pages) {
    forall p: nat | p < PageBase(0) :: (p in pages0 <==> p in pages1) && (p in pages0 ==> pages1[p] == pages0[p])
  }

  lemma StepInside(w: World, e: Step, all: set<nat>)
    requires Inv(w, all) && Enabled(w, e)
    ensures BelowSame(w.pages, After(w, e).pages)
  {
    hide FramesOk, PagesOk, PlacesOk;
    if e.MapPage? || e.UnmapPage? || e.FlipUnmap? {
      WorkIs(w, e.thread);
    }
  }

  /** However the threads interleave. */
  lemma {:induction false} EveryRun(w: World, steps: seq<Step>, all: set<nat>, pages0: Pages)
    requires Inv(w, all) && Runs(w, steps) && BelowSame(pages0, w.pages)
    ensures Inv(Ends(w, steps), all) && BelowSame(pages0, Ends(w, steps).pages)
    decreases |steps|
  {
    hide Inv, After, Enabled;
    if steps != [] {
      StepOk(w, steps[0], all);
      StepInside(w, steps[0], all);
      EveryRun(After(w, steps[0]), steps[1..], all, pages0);
    }
  }

  lemma FreshOk(w: World)
    requires Fresh(w)
    ensures Inv(w, Frames(w))
  {
    forall f: nat ensures f in Frames(w) <==> f in w.free || Behind(w.pages, f) {
    }
  }

  /** What is mapped of a place in use: an instance's memory and nothing else of its
      slot, or the whole code. */
  ghost predicate InUse(pages: Pages, x: Work)
    requires x.Live?
  {
    if x.place.InSlot? then x.size <= STRIDE && Exactly(pages, PageBase(x.place.slot), x.size)
    else All(pages, x.place.base, x.place.span, RX)
  }

  /** At every moment of every run: a slot nobody owns has nothing mapped in it, a
      running instance exactly its own pages, a module all of its code, executable
      and not writable; no page anywhere is both, no two places overlap, and each
      frame is free, in hand or behind one page. */
  lemma AtAnyTime(w: World, steps: seq<Step>)
    requires Fresh(w) && Runs(w, steps)
    ensures var v := Ends(w, steps);
      && (forall s: nat | s < 1024 && s !in v.slots.owned :: Free(v.pages, PageBase(s), STRIDE))
      && (forall t | t in v.work && v.work[t].Live? :: InUse(v.pages, v.work[t]))
      && (forall p | p in v.pages :: v.pages[p].flags.Exclusive())
      && (forall t, u | t in v.work && u in v.work && t != u :: Disjoint(v.work[t].place, v.work[u].place))
      && FramesOk(v.pages, v.free, v.work, Frames(w))
  {
    hide FramesOk, S.Inv;
    FreshOk(w);
    EveryRun(w, steps, Frames(w), w.pages);
    var v := Ends(w, steps);
    forall t | t in v.work && v.work[t].Live? ensures InUse(v.pages, v.work[t]) {
      WorkIs(v, t);
      LiveInUse(v.pages, v.work[t]);
    }
    FramesSound(v.pages, v.free, v.work, Frames(w));
  }

  lemma FramesSound(pages: Pages, free: set<nat>, work: map<nat, Work>, all: set<nat>)
    requires FramesOk(pages, free, work, all)
    ensures forall p | p in pages :: pages[p].flags.Exclusive()
  {
  }

  lemma LiveInUse(pages: Pages, x: Work)
    requires x.Live? && x.Ok() && Shown(pages, x)
    ensures InUse(pages, x)
  {
    var a := x.place;
    forall p: nat | In(a.First(), a.Width(), p)
      ensures (p in pages <==> p < a.First() + x.size) && (p in pages ==> pages[p].flags == if a.InSlot? then RW else RX)
    {
      assert Page(a, p - a.First()) == p;
    }
  }

  /** So nothing has to check an access: each byte a running instance can name is
      in its own memory or not mapped at all. */
  lemma Confined(w: World, all: set<nat>, t: nat, address: nat, offset: nat, i: nat)
    requires Inv(w, all) && t in w.work && w.work[t].Live? && w.work[t].place.InSlot?
    requires address <= 0xFFFF_FFFF && offset <= 0xFFFF_FFFF && i < 8
    ensures var at := address + offset + i;
      var page := (S.Base(w.work[t].place.slot) + at) / 4096;
      page in w.pages <==> at < 4096 * w.work[t].size
  {
    hide FramesOk, PlacesOk;
    var x, at := w.work[t], address + offset + i;
    assert S.Base(x.place.slot) == 4096 * PageBase(x.place.slot);
    assert (S.Base(x.place.slot) + at) / 4096 == Page(x.place, at / 4096);
    ShownIs(w, t);
  }

  /** However many instances and modules there were and whatever they asked for,
      once all are gone every page and every frame is as it was. */
  lemma AllGone(w: World, steps: seq<Step>)
    requires Fresh(w) && Runs(w, steps) && Ends(w, steps).work == map[]
    ensures Ends(w, steps).pages == w.pages && Ends(w, steps).free == w.free
  {
    hide Inv, FramesOk, PagesOk, PlacesOk, S.Inv;
    FreshOk(w);
    EveryRun(w, steps, Frames(w), w.pages);
    var v := Ends(w, steps);
    NothingLeft(v, Frames(w));
    assert v.pages == w.pages;
    forall f: nat ensures f in v.free <==> f in w.free {
      FrameIn(v, Frames(w), f);
      assert f in Frames(w) <==> f in w.free || Behind(w.pages, f);
      assert !InHand(v.work, f);
    }
  }

  lemma FrameIn(w: World, all: set<nat>, f: nat)
    requires Inv(w, all)
    ensures f in all <==> f in w.free || Behind(w.pages, f) || InHand(w.work, f)
    ensures f in w.free ==> !Behind(w.pages, f)
  {
    hide PagesOk, PlacesOk;
  }

  lemma NothingLeft(v: World, all: set<nat>)
    requires Inv(v, all) && v.work == map[]
    ensures forall p | p in v.pages :: p < PageBase(0)
  {
    hide FramesOk, S.Inv;
    forall s ensures s !in v.slots.owned {
      assert !Taken(v.work, s);
    }
    forall p: nat | PageBase(0) <= p < CODE ensures p !in v.pages {
      var s := (p - 0x8000_0000) / 0x40_0000;
      assert Free(v.pages, PageBase(s), STRIDE) && In(PageBase(s), STRIDE, p);
    }
    forall p: nat | p >= CODE ensures p !in v.pages {
      assert !Covered(v.work, p);
    }
  }
}
