/** The interrupt vector matrix (kernel/src/irq.rs) and the owner and mask bits
    of the lines it routes (kernel/src/ioapic.rs). Every method is one step
    under the matrix's lock. */
module Irq {
  import opened Util

  const CORES: nat := 256
  const VECTORS: nat := 128
  const NR_IRQS: nat := 32768

  /** An interrupt number, 0 for none. */
  type Number = nat

  /** A device vector of a core; `index` counts from the first one. */
  datatype Slot = Slot(core: nat, index: nat)

  ghost predicate InMatrix(s: Slot) { s.core < 256 && s.index < 128 }

  datatype Source = Msi(dev: nat) | Msix(dev: nat, entry: nat) | Gsi(line: nat)

  datatype Reg = Reg(source: Source, at: Slot, prev: Option<Slot>)

  ghost predicate Serves(r: Reg, s: Slot) { r.at == s || r.prev == Some(s) }

  ghost predicate RegOk(n: Number, r: Reg, vectorIrq: map<Slot, Number>, top: nat) {
    && 1 <= n <= top && r.at in vectorIrq && vectorIrq[r.at] == n
    && (r.prev.Some? ==> r.prev.value in vectorIrq && vectorIrq[r.prev.value] == n && r.prev.value.core != r.at.core)
  }

  ghost predicate SlotOk(s: Slot, n: Number, regs: map<Number, Reg>) {
    InMatrix(s) && n in regs && Serves(regs[n], s)
  }

  /** Free and registered numbers together are 1..top, each once. */
  ghost predicate Partition(regs: map<Number, Reg>, free: seq<Number>, top: nat) {
    && top <= 32768
    && (forall i, j | 0 <= i < j < |free| :: free[i] != free[j])
    && (forall n :: n in free ==> n !in regs)
    && (forall n :: 1 <= n <= top <==> n in free || n in regs)
  }

  ghost predicate Agrees(regs: map<Number, Reg>, vectorIrq: map<Slot, Number>, top: nat) {
    && (forall n | n in regs :: RegOk(n, regs[n], vectorIrq, top))
    && (forall s | s in vectorIrq :: SlotOk(s, vectorIrq[s], regs))
  }

  // ── Numbers ──────────────────────────────────────────────────────────

  lemma PartitionPop(regs: map<Number, Reg>, free: seq<Number>, top: nat, r: Reg)
    requires Partition(regs, free, top) && free != []
    ensures var n := free[|free| - 1]; 1 <= n <= top && n !in regs && Partition(regs[n := r], free[..|free| - 1], top)
  {
    var n, less := free[|free| - 1], free[..|free| - 1];
    assert free == less + [n];
    assert n in free && n !in less;
    forall k ensures 1 <= k <= top <==> k in less || k in regs[n := r] {
      assert k in free <==> k in less || k == n;
    }
  }

  lemma PartitionGrow(regs: map<Number, Reg>, free: seq<Number>, top: nat)
    requires Partition(regs, free, top) && top < 32768
    ensures top + 1 !in regs && Partition(regs, free + [top + 1], top + 1)
  {
    assert top + 1 !in free;
    forall k ensures 1 <= k <= top + 1 <==> k in free + [top + 1] || k in regs {
      assert k in free + [top + 1] <==> k in free || k == top + 1;
    }
  }

  lemma PartitionPut(regs: map<Number, Reg>, free: seq<Number>, top: nat, n: Number)
    requires Partition(regs, free, top) && n in regs
    ensures Partition(regs - {n}, free + [n], top)
  {
    forall k ensures 1 <= k <= top <==> k in free + [n] || k in regs - {n} {
      assert k in free + [n] <==> k in free || k == n;
    }
    assert n !in free;
  }

  lemma PartitionSet(regs: map<Number, Reg>, free: seq<Number>, top: nat, n: Number, r: Reg)
    requires Partition(regs, free, top) && n in regs
    ensures Partition(regs[n := r], free, top)
  {
  }

  lemma AgreesTop(regs: map<Number, Reg>, vectorIrq: map<Slot, Number>, top: nat, top': nat)
    requires Agrees(regs, vectorIrq, top) && top <= top'
    ensures Agrees(regs, vectorIrq, top')
  {
    forall n | n in regs ensures RegOk(n, regs[n], vectorIrq, top') {
      assert RegOk(n, regs[n], vectorIrq, top);
    }
  }

  // ── Slots ────────────────────────────────────────────────────────────

  /** Giving up a slot nobody is registered for. */
  lemma AgreesWithout(regs: map<Number, Reg>, vectorIrq: map<Slot, Number>, top: nat, n: Number)
    requires Agrees(regs, vectorIrq, top) && n in regs
    ensures var gone := {regs[n].at} + (if regs[n].prev.Some? then {regs[n].prev.value} else {});
      Agrees(regs - {n}, vectorIrq - gone, top)
  {
    var gone := {regs[n].at} + (if regs[n].prev.Some? then {regs[n].prev.value} else {});
    var regs', left := regs - {n}, vectorIrq - gone;
    forall k | k in regs' ensures RegOk(k, regs'[k], left, top) {
      assert RegOk(k, regs[k], vectorIrq, top);
      assert RegOk(n, regs[n], vectorIrq, top);
    }
    forall s | s in left ensures SlotOk(s, left[s], regs') {
      assert SlotOk(s, vectorIrq[s], regs);
    }
  }

  lemma AgreesNew(regs: map<Number, Reg>, vectorIrq: map<Slot, Number>, top: nat, top': nat, n: Number, r: Reg)
    requires Agrees(regs, vectorIrq, top) && n !in regs && 1 <= n <= top' && top <= top'
    requires InMatrix(r.at) && r.at !in vectorIrq && r.prev.None?
    ensures Agrees(regs[n := r], vectorIrq[r.at := n], top')
  {
    var regs', more := regs[n := r], vectorIrq[r.at := n];
    forall k | k in regs' ensures RegOk(k, regs'[k], more, top') {
      if k != n {
        assert RegOk(k, regs[k], vectorIrq, top);
      }
    }
    forall s | s in more ensures SlotOk(s, more[s], regs') {
      if s != r.at {
        assert SlotOk(s, vectorIrq[s], regs);
      }
    }
  }

  /** Move `n` to `to`, keeping the old target as the previous one and giving up
      the one before. */
  lemma AgreesMove(regs: map<Number, Reg>, vectorIrq: map<Slot, Number>, top: nat, n: Number, to: Slot)
    requires Agrees(regs, vectorIrq, top) && n in regs
    requires InMatrix(to) && to !in vectorIrq && to.core != regs[n].at.core
    ensures var r := regs[n]; var gone := if r.prev.Some? then {r.prev.value} else {};
      Agrees(regs[n := r.(at := to, prev := Some(r.at))], vectorIrq[to := n] - gone, top)
  {
    var r := regs[n];
    var gone := if r.prev.Some? then {r.prev.value} else {};
    var regs', now := regs[n := r.(at := to, prev := Some(r.at))], vectorIrq[to := n] - gone;
    assert RegOk(n, r, vectorIrq, top);
    forall k | k in regs' ensures RegOk(k, regs'[k], now, top) {
      assert RegOk(k, regs[k], vectorIrq, top);
    }
    forall s | s in now ensures SlotOk(s, now[s], regs') {
      if s != to {
        assert SlotOk(s, vectorIrq[s], regs);
      }
    }
  }

  // ── Numbers outlast vectors ──────────────────────────────────────────

  ghost function Row(core: nat, n: nat): (r: set<Slot>)
    ensures |r| == n && forall s :: s in r <==> s.core == core && s.index < n
  {
    if n == 0 then {} else Row(core, n - 1) + {Slot(core, n - 1)}
  }

  ghost function Rows(cores: nat): (r: set<Slot>)
    ensures |r| == 128 * cores && forall s :: s in r <==> s.core < cores && s.index < 128
  {
    if cores == 0 then {} else
      var below, row := Rows(cores - 1), Row(cores - 1, 128);
      assert below !! row;
      below + row
  }

  lemma {:induction false} TargetsCount(regs: map<Number, Reg>, slots: set<Slot>)
    requires forall n | n in regs :: regs[n].at in slots
    requires forall n, k | n in regs && k in regs && n != k :: regs[n].at != regs[k].at
    ensures |regs| <= |slots|
    decreases |regs|
  {
    if regs != map[] {
      var n :| n in regs;
      TargetsCount(regs - {n}, slots - {regs[n].at});
    }
  }

  /** `free` and `regs` have `top` numbers between them. */
  lemma {:induction false} PartitionCount(regs: map<Number, Reg>, top: nat)
    requires forall n :: 1 <= n <= top <==> n in regs
    ensures |regs| == top
    decreases top
  {
    if top == 0 {
      assert regs == map[];
    } else {
      var less := regs - {top};
      PartitionCount(less, top - 1);
      assert regs.Keys == less.Keys + {top};
    }
  }

  /** While any vector of any core is free, so is a number. */
  lemma NumbersLast(regs: map<Number, Reg>, vectorIrq: map<Slot, Number>, free: seq<Number>, top: nat, s: Slot)
    requires Agrees(regs, vectorIrq, top) && Partition(regs, free, top) && InMatrix(s) && s !in vectorIrq
    ensures free != [] || top < 32768
  {
    hide Row, Rows;
    if free == [] {
      PartitionCount(regs, top);
      var slots := Rows(256) - {s};
      forall n | n in regs ensures regs[n].at in slots {
        assert RegOk(n, regs[n], vectorIrq, top);
        assert SlotOk(regs[n].at, vectorIrq[regs[n].at], regs);
      }
      forall n, k | n in regs && k in regs && n != k ensures regs[n].at != regs[k].at {
        assert RegOk(n, regs[n], vectorIrq, top) && RegOk(k, regs[k], vectorIrq, top);
      }
      TargetsCount(regs, slots);
    }
  }

  // ── Lines ────────────────────────────────────────────────────────────

  /** `n` has line `line` and is not waiting to get it. */
  ghost predicate Has(regs: map<Number, Reg>, pending: set<Number>, n: Number, line: nat) {
    n in regs && n !in pending && regs[n].source == Gsi(line)
  }

  ghost predicate HasOwner(regs: map<Number, Reg>, pending: set<Number>, line: nat) {
    exists n :: Has(regs, pending, n, line)
  }

  /** Exactly the routed lines have an owner, and only one. */
  ghost predicate Owned(regs: map<Number, Reg>, pending: set<Number>, routed: set<nat>) {
    && (forall line: nat :: line in routed <==> HasOwner(regs, pending, line))
    && (forall n, k, line | Has(regs, pending, n, line) && Has(regs, pending, k, line) :: n == k)
  }

  /** The same interrupts have the same lines. */
  lemma OwnedSame(regs0: map<Number, Reg>, pending0: set<Number>, regs1: map<Number, Reg>, pending1: set<Number>, routed: set<nat>)
    requires forall n, line :: Has(regs1, pending1, n, line) <==> Has(regs0, pending0, n, line)
    ensures Owned(regs0, pending0, routed) <==> Owned(regs1, pending1, routed)
  {
    forall line: nat ensures HasOwner(regs0, pending0, line) <==> HasOwner(regs1, pending1, line) {
      if n :| Has(regs0, pending0, n, line) {
        assert Has(regs1, pending1, n, line);
      }
      if n :| Has(regs1, pending1, n, line) {
        assert Has(regs0, pending0, n, line);
      }
    }
  }

  /** An owner gives its line up: the others keep theirs. Somebody waiting for a
      line that is routed takes it away from its owner. */
  lemma OwnedLess(regs: map<Number, Reg>, pending: set<Number>, routed: set<nat>, n: Number)
    requires Owned(regs, pending, routed) && n in regs && regs[n].source.Gsi?
    ensures Owned(regs - {n}, pending - {n}, routed - {regs[n].source.line})
            <==> n !in pending || regs[n].source.line !in routed
  {
    var line, less, left := regs[n].source.line, regs - {n}, pending - {n};
    if n in pending && line in routed {
      assert HasOwner(regs, pending, line);
      var k :| Has(regs, pending, k, line);
      assert Has(less, left, k, line);
      assert HasOwner(less, left, line);
    } else {
      assert n !in pending ==> Has(regs, pending, n, line);
      assert line in routed <==> HasOwner(regs, pending, line);
      forall l: nat ensures l in routed - {line} <==> HasOwner(less, left, l) {
        assert l in routed <==> HasOwner(regs, pending, l);
        if k :| Has(less, left, k, l) {
          assert Has(regs, pending, k, l);
        }
        if k :| Has(regs, pending, k, l) && l != line {
          assert Has(less, left, k, l);
        }
      }
      forall a, b, l | Has(less, left, a, l) && Has(less, left, b, l) ensures a == b {
        assert Has(regs, pending, a, l) && Has(regs, pending, b, l);
      }
    }
  }

  /** `n` waits for a line that somebody has. */
  ghost predicate Waits(regs: map<Number, Reg>, pending: set<Number>, routed: set<nat>, n: Number) {
    n in regs && n in pending && regs[n].source.Gsi? && regs[n].source.line in routed
  }

  /** The lines routed without `n`. */
  function Unrouted(regs: map<Number, Reg>, routed: set<nat>, n: Number): set<nat>
    requires n in regs
  {
    if regs[n].source.Gsi? then routed - {regs[n].source.line} else routed
  }

  lemma Released(regs: map<Number, Reg>, pending: set<Number>, routed: set<nat>, n: Number)
    requires n in regs
    ensures Owned(regs, pending, routed) ==>
      (Owned(regs - {n}, pending - {n}, Unrouted(regs, routed, n)) <==> !Waits(regs, pending, routed, n))
  {
    if Owned(regs, pending, routed) {
      if regs[n].source.Gsi? {
        OwnedLess(regs, pending, routed, n);
      } else {
        OwnedSame(regs, pending, regs - {n}, pending - {n}, routed);
      }
    }
  }

  /** A free line gets its first owner. */
  lemma OwnedMore(regs: map<Number, Reg>, pending: set<Number>, routed: set<nat>, n: Number, line: nat)
    requires Owned(regs, pending, routed) && n in pending && n in regs && regs[n].source == Gsi(line) && line !in routed
    ensures Owned(regs, pending - {n}, routed + {line})
  {
    var left := pending - {n};
    assert !HasOwner(regs, pending, line);
    forall l: nat ensures l in routed + {line} <==> HasOwner(regs, left, l) {
      assert l in routed <==> HasOwner(regs, pending, l);
      if l == line {
        assert Has(regs, left, n, l);
      } else {
        if k :| Has(regs, left, k, l) {
          assert Has(regs, pending, k, l);
        }
        if k :| Has(regs, pending, k, l) {
          assert Has(regs, left, k, l);
        }
      }
    }
    forall a, b, l | Has(regs, left, a, l) && Has(regs, left, b, l) ensures a == b {
      assert a != n ==> Has(regs, pending, a, l);
      assert b != n ==> Has(regs, pending, b, l);
    }
  }

  class Matrix {
    var regs: map<Number, Reg>
    var used: set<Slot>
    var free: seq<Number>
    var top: nat
    /** `VECTOR_IRQ`; what is not in it holds 0. */
    var vectorIrq: map<Slot, Number>
    /** How often each interrupt fired. */
    var fired: map<Number, nat>
    var level: set<Number>
    /** The lines routed to somebody, and those masked. */
    var routed: set<nat>
    var masked: set<nat>
    /** The interrupts allocated for a line and not yet routed to it. */
    ghost var pending: set<Number>

    ghost predicate Valid()
      reads this
    {
      && Agrees(regs, vectorIrq, top) && Partition(regs, free, top)
      && used == vectorIrq.Keys
      && (forall n | n in level :: n in regs && regs[n].source.Gsi?)
      && (forall n | n in pending :: n in regs && n !in level)
    }

    /** One owner for each routed line. */
    ghost predicate OneOwnerEach()
      reads `regs, `pending, `routed
    {
      Owned(regs, pending, routed)
    }

    function Count(n: Number): nat
      reads this
    {
      if n in fired then fired[n] else 0
    }

    constructor ()
      ensures Valid() && regs == map[] && used == {} && routed == {} && pending == {} && OneOwnerEach()
    {
      regs, used, free, top, vectorIrq, fired, level, routed, masked := map[], {}, [], 0, map[], map[], {}, {}, {};
      pending := {};
    }

    /** A free vector of `core`: `want` if that is free, else the first. */
    method FindVector(core: nat, want: Option<nat>) returns (index: Option<nat>)
      ensures index.None? <==> core >= CORES || forall i | 0 <= i < VECTORS :: Slot(core, i) in used
      ensures index.Some? ==> index.value < VECTORS && Slot(core, index.value) !in used
      ensures index.Some? && want.Some? && want.value < VECTORS && Slot(core, want.value) !in used ==> index == want
      ensures index.Some? && index != want ==> forall i | 0 <= i < index.value :: Slot(core, i) in used
    {
      if core >= CORES {
        return None;
      }
      if want.Some? && want.value < VECTORS && Slot(core, want.value) !in used {
        return want;
      }
      for i := 0 to VECTORS
        invariant forall j | 0 <= j < i :: Slot(core, j) in used
      {
        if Slot(core, i) !in used {
          return Some(i);
        }
      }
      return None;
    }

    /** `State::alloc_irq`: a number given back, or a new one. It is in hand, and
        would be free if put back. */
    method AllocNumber() returns (n: Option<Number>)
      requires Partition(regs, free, top)
      modifies `free, `top
      ensures n.None? <==> old(free) == [] && old(top) == NR_IRQS
      ensures n.None? ==> free == old(free) && top == old(top)
      ensures n.Some? ==> n.value !in regs && 1 <= n.value <= top && old(top) <= top && Partition(regs, free + [n.value], top)
    {
      if free != [] {
        n := Some(free[|free| - 1]);
        assert free == free[..|free| - 1] + [n.value];
        assert n.value in free;
        free := free[..|free| - 1];
      } else {
        if top >= NR_IRQS {
          return None;
        }
        PartitionGrow(regs, free, top);
        top := top + 1;
        n := Some(top);
      }
    }

    /** `State::alloc`: a new interrupt of `core`, refused only if that core has no
        vector left. */
    method Alloc(core: nat, source: Source) returns (n: Option<Number>)
      requires Valid()
      modifies `regs, `used, `free, `top, `vectorIrq, `pending
      ensures Valid() && old(top) <= top && (OneOwnerEach() <==> old(OneOwnerEach()))
      ensures pending == if n.Some? && source.Gsi? then old(pending) + {n.value} else old(pending)
      ensures n.None? <==> core >= CORES || forall i | 0 <= i < VECTORS :: Slot(core, i) in old(used)
      ensures n.None? ==> regs == old(regs) && vectorIrq == old(vectorIrq) && used == old(used)
      ensures n.Some? ==>
        && n.value !in old(regs) && n.value in regs && regs == old(regs)[n.value := regs[n.value]]
        && regs[n.value].source == source && regs[n.value].prev == None && regs[n.value].at.core == core
        && regs[n.value].at !in old(used) && vectorIrq == old(vectorIrq)[regs[n.value].at := n.value]
    {
      hide Agrees, Partition, Owned;
      n := AllocNumber();
      if n.None? {
        forall s | InMatrix(s) && s !in vectorIrq ensures false {
          NumbersLast(regs, vectorIrq, free, top, s);
        }
        assert core < CORES ==> forall i | 0 <= i < VECTORS :: InMatrix(Slot(core, i));
        return None;
      }
      var index := FindVector(core, None);
      if index.None? {
        AgreesTop(regs, vectorIrq, old(top), top);
        free := free + [n.value];
        return None;
      }
      var r := Reg(source, Slot(core, index.value), None);
      AgreesNew(regs, vectorIrq, old(top), top, n.value, r);
      PartitionPop(regs, free + [n.value], top, r);
      assert (free + [n.value])[..|free|] == free;
      used := used + {r.at};
      vectorIrq := vectorIrq[r.at := n.value];
      ghost var more := if source.Gsi? then pending + {n.value} else pending;
      OwnedSame(regs, pending, regs[n.value := r], more, routed);
      regs := regs[n.value := r];
      pending := more;
    }

    /** `isr`: core `core` takes device vector `index`. */
    method Isr(core: nat, index: nat)
      requires Valid()
      modifies `fired, `masked
      ensures Valid()
      ensures forall n | n in regs && Serves(regs[n], Slot(core, index)) ::
        fired == old(fired)[n := old(Count(n)) + 1] && (n in level ==> regs[n].source.line in masked)
      ensures (forall n | n in regs :: !Serves(regs[n], Slot(core, index))) ==> fired == old(fired) && masked == old(masked)
    {
      var s := Slot(core, index);
      if s !in vectorIrq {
        forall n | n in regs ensures !Serves(regs[n], s) {
          assert RegOk(n, regs[n], vectorIrq, top);
        }
        return;
      }
      var irq := vectorIrq[s];
      assert SlotOk(s, irq, regs);
      forall n | n in regs && Serves(regs[n], s) ensures n == irq {
        assert RegOk(n, regs[n], vectorIrq, top);
      }
      if irq in level {
        masked := masked + {regs[irq].source.line};
      }
      NoteFired(irq);
    }

    method NoteFired(n: Number)
      modifies `fired
      ensures fired == old(fired)[n := old(Count(n)) + 1]
    {
      fired := fired[n := Count(n) + 1];
    }

    /** `release`: give `n` back, with its vectors and its line. */
    method Release(n: Number)
      requires Valid()
      modifies `regs, `used, `free, `vectorIrq, `level, `routed, `masked, `pending
      ensures Valid()
      ensures n !in old(regs) ==> unchanged(this)
      ensures old(OneOwnerEach()) ==> (OneOwnerEach() <==> !old(Waits(regs, pending, routed, n)))
      ensures n in old(regs) ==>
        && regs == old(regs) - {n} && n in free && pending == old(pending) - {n}
        && (forall s :: s in used <==> s in old(used) && !Serves(old(regs)[n], s))
        && routed == (if old(regs)[n].source.Gsi? then old(routed) - {old(regs)[n].source.line} else old(routed))
        && (old(regs)[n].source.Gsi? ==> old(regs)[n].source.line in masked)
    {
      hide Agrees, Partition, Owned;
      if n !in regs {
        return;
      }
      var r := regs[n];
      Released(regs, pending, routed, n);
      AgreesWithout(regs, vectorIrq, top, n);
      PartitionPut(regs, free, top, n);
      var gone := {r.at} + (if r.prev.Some? then {r.prev.value} else {});
      regs := regs - {n};
      vectorIrq := vectorIrq - gone;
      used := used - gone;
      if r.source.Gsi? {
        masked := masked + {r.source.line};
        routed := routed - {r.source.line};
      }
      level := level - {n};
      pending := pending - {n};
      free := free + [n];
    }

    /** `route_to_current`: bring `n` to `core`, to the same vector if that is free
        there. The target it leaves stays its own until the next move. */
    method RouteTo(n: Number, core: nat)
      requires Valid()
      modifies `regs, `used, `vectorIrq, `fired
      ensures Valid() && regs.Keys == old(regs).Keys && (OneOwnerEach() <==> old(OneOwnerEach()))
      ensures forall k | k in regs && k != n :: regs[k] == old(regs)[k]
      ensures n in regs ==>
        var r, was := regs[n], old(regs)[n];
        && r.source == was.source
        && (r == was || (r.at.core == core && r.prev == Some(was.at)))
        && (r == was ==> fired == old(fired))
        && (r != was ==> fired == if r.at.index == was.at.index then old(fired) else old(fired)[n := old(Count(n)) + 1])
        && (r.at.core != core ==> core >= CORES || forall i | 0 <= i < VECTORS :: Slot(core, i) in old(used))
      ensures n !in regs ==> unchanged(this)
    {
      hide Agrees, Partition, Owned;
      if n !in regs || regs[n].at.core == core {
        return;
      }
      var r := regs[n];
      var index := FindVector(core, Some(r.at.index));
      if index.None? {
        return;
      }
      var to := Slot(core, index.value);
      AgreesMove(regs, vectorIrq, top, n, to);
      PartitionSet(regs, free, top, n, r.(at := to, prev := Some(r.at)));
      var gone := if r.prev.Some? then {r.prev.value} else {};
      used := used + {to} - gone;
      vectorIrq := vectorIrq[to := n] - gone;
      OwnedSame(regs, pending, regs[n := r.(at := to, prev := Some(r.at))], pending, routed);
      regs := regs[n := r.(at := to, prev := Some(r.at))];
      if to.index != r.at.index {
        NoteFired(n);
      }
    }

    /** `arm`: bring the interrupt here, let its line through, and say where its
        count stands. */
    method Arm(n: Number, core: nat) returns (since: nat)
      requires Valid()
      modifies `regs, `used, `vectorIrq, `fired, `masked
      ensures Valid() && since == Count(n) && regs.Keys == old(regs).Keys && (OneOwnerEach() <==> old(OneOwnerEach()))
      ensures n in level ==> regs[n].source.line !in masked
      ensures n in regs ==> regs[n] == old(regs)[n] || regs[n].prev == Some(old(regs)[n].at)
    {
      hide Owned;
      RouteTo(n, core);
      since := Count(n);
      if n in level {
        masked := masked - {regs[n].source.line};
      }
    }

    /** `arm` closes the window: a message to the target the interrupt has after
        it, or to the one it had before, moves the count past the snapshot. */
    method ArmThenFire(n: Number, core: nat, late: bool) returns (since: nat)
      requires Valid() && n in regs
      modifies `regs, `used, `vectorIrq, `fired, `masked
      ensures Valid() && since < Count(n)
    {
      var was := regs[n].at;
      since := Arm(n, core);
      var to := if late then was else regs[n].at;
      Isr(to.core, to.index);
    }

    /** `register_gsi`, after the number is in hand: the line is routed to it, or
        both are given up. That every line keeps its one owner is true exactly
        when nobody routed the line since it was found free; else giving up takes
        it away from them. */
    method RouteLine(n: Number, line: nat, levelTriggered: bool, served: bool) returns (ok: bool)
      requires Valid() && n in pending && regs[n].source == Gsi(line)
      modifies this
      ensures Valid() && (ok <==> served && line !in old(routed))
      ensures ok ==> routed == old(routed) + {line} && line in masked && regs == old(regs) && (n in level <==> levelTriggered)
      ensures pending == old(pending) - {n}
      ensures !ok ==> regs == old(regs) - {n} && routed == old(routed) - {line} && (routed == old(routed) <==> line !in old(routed))
      ensures old(OneOwnerEach()) ==> (OneOwnerEach() <==> line !in old(routed))
    {
      hide Owned;
      ok := served && line !in routed;
      if ok {
        if OneOwnerEach() {
          OwnedMore(regs, pending, routed, n, line);
        }
        pending := pending - {n};
        routed := routed + {line};
        masked := masked + {line};
        if levelTriggered {
          level := level + {n};
        }
      } else {
        Release(n);
      }
    }

    /** `register_gsi` with nobody in between. */
    method RegisterLine(core: nat, line: nat, levelTriggered: bool, served: bool) returns (n: Option<Number>)
      requires Valid()
      modifies this
      ensures Valid() && (old(OneOwnerEach()) ==> OneOwnerEach())
      ensures n.Some? ==> Has(regs, pending, n.value, line) && line in routed && line !in old(routed) && served
      ensures n.None? ==> routed == old(routed)
    {
      hide Owned, Agrees, Partition;
      if line in routed || !served {
        return None;
      }
      n := Alloc(core, Gsi(line));
      if n.Some? {
        var ok := RouteLine(n.value, line, levelTriggered, served);
      }
    }
  }

  /** The race: two drivers find line 5 free, the first gets it, and the second,
      giving up, takes it away again. */
  method TwoDriversOneLine() returns (m: Matrix, first: Option<Number>)
    ensures fresh(m) && m.Valid() && !m.OneOwnerEach()
    ensures first.Some? && Has(m.regs, m.pending, first.value, 5) && 5 !in m.routed
  {
    hide Owned, Agrees, Partition;
    m := new Matrix();
    assert Slot(0, 0) !in m.used;
    first := m.Alloc(0, Gsi(5));
    assert m.used == m.vectorIrq.Keys == {m.regs[first.value].at};
    assert Slot(0, 0) !in m.used || Slot(0, 1) !in m.used;
    var second := m.Alloc(0, Gsi(5));
    var won := m.RouteLine(first.value, 5, true, true);
    var lost := m.RouteLine(second.value, 5, true, true);
  }

  /** What the lock guards, after every call: a vector of a core is in use exactly
      if it names a registered interrupt whose current or previous target it is;
      no interrupt shares one; the two targets are on different cores; and the
      numbers 1..top are free or registered, never both. */
  lemma AfterEveryCall(m: Matrix)
    requires m.Valid()
    ensures forall s :: s in m.used <==> exists n :: n in m.regs && Serves(m.regs[n], s)
    ensures forall n, k, s | n in m.regs && k in m.regs && Serves(m.regs[n], s) && Serves(m.regs[k], s) :: n == k
    ensures forall n | n in m.regs && m.regs[n].prev.Some? :: m.regs[n].prev.value.core != m.regs[n].at.core
    ensures forall n :: 1 <= n <= m.top <==> n in m.free || n in m.regs
    ensures forall n | n in m.free :: n !in m.regs
  {
    hide Agrees;
    forall s ensures s in m.used <==> exists n :: n in m.regs && Serves(m.regs[n], s) {
      UsedIff(m, s);
    }
    forall n, k, s | n in m.regs && k in m.regs && Serves(m.regs[n], s) && Serves(m.regs[k], s) ensures n == k {
      OneOwner(m, n, k, s);
    }
    forall n | n in m.regs && m.regs[n].prev.Some? ensures m.regs[n].prev.value.core != m.regs[n].at.core {
      OneOwner(m, n, n, m.regs[n].at);
    }
  }

  lemma UsedIff(m: Matrix, s: Slot)
    requires m.Valid()
    ensures s in m.used <==> exists n :: n in m.regs && Serves(m.regs[n], s)
  {
    hide Partition;
    if s in m.used {
      assert SlotOk(s, m.vectorIrq[s], m.regs);
    }
    if n :| n in m.regs && Serves(m.regs[n], s) {
      assert RegOk(n, m.regs[n], m.vectorIrq, m.top);
    }
  }

  lemma OneOwner(m: Matrix, n: Number, k: Number, s: Slot)
    requires m.Valid() && n in m.regs && k in m.regs && Serves(m.regs[n], s) && Serves(m.regs[k], s)
    ensures n == k && (m.regs[n].prev.Some? ==> m.regs[n].prev.value.core != m.regs[n].at.core)
  {
    hide Partition;
    assert RegOk(n, m.regs[n], m.vectorIrq, m.top) && RegOk(k, m.regs[k], m.vectorIrq, m.top);
  }
}
