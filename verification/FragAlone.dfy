/** Reassembly of one datagram by itself: an empty table, and nothing but its
    fragments, in any order and with duplicates. */
module FragAlone {
  import opened Util
  import opened Frag
  import opened FragRun

  /** The table as it is made. */
  function Empty(): Table { Table(map[], 0, map[], 0, 0, 0) }

  /** A fragment of the datagram, and when it comes. */
  datatype Coming = Coming(index: nat, time: nat)

  ghost predicate InTime(c: Cut, coming: seq<Coming>, t0: nat) {
    forall i | 0 <= i < |coming| :: coming[i].index < Count(c) && t0 <= coming[i].time < t0 + FRAG_TIME
  }

  ghost function Arrivals(c: Cut, coming: seq<Coming>, t0: nat): seq<Event>
    requires InTime(c, coming, t0)
  {
    seq(|coming|, i requires 0 <= i < |coming| => Arrive(Wire(c, coming[i].index), coming[i].time))
  }

  ghost function Indices(coming: seq<Coming>): set<nat> {
    if coming == [] then {} else {coming[0].index} + Indices(coming[1..])
  }

  // ── Memory ───────────────────────────────────────────────────────────

  lemma SumLenBelow(fs: seq<Piece>, len: nat)
    requires Ordered(fs) && Within(fs, len)
    ensures SumLen(fs) <= len
  {
    SumLenCovered(fs, len);
    CoveredIff(fs, 0, len);
  }

  /** Pieces at multiples of eight: the k-th begins no earlier than 8k. */
  lemma {:induction false} OffsetsGrow(fs: seq<Piece>, k: nat)
    requires Ordered(fs) && (forall i | 0 <= i < |fs| :: fs[i].off % 8 == 0) && k < |fs|
    ensures fs[k].off >= 8 * k
  {
    if k > 0 {
      OffsetsGrow(fs, k - 1);
      assert fs[k - 1].End() <= fs[k].off && fs[k - 1].data != [];
      NextMultiple(fs[k - 1].off, fs[k].off);
    }
  }

  lemma NextMultiple(a: nat, b: nat)
    requires a % 8 == 0 && b % 8 == 0 && a < b
    ensures a + 8 <= b
  {
  }

  /** No datagram alone comes near the threshold. */
  lemma QueueSmall(q: Queue, c: Cut, got: set<nat>)
    requires Holds(q, c, got)
    ensures q.mem <= 3_000_000
  {
    forall i | 0 <= i < |q.frags| ensures q.frags[i].off % 8 == 0 {
      assert q.frags[i] in q.frags;
      var k :| k in got && q.frags[i] == PieceAt(c, k);
    }
    SumLenBelow(q.frags, q.len);
    if q.frags != [] {
      OffsetsGrow(q.frags, |q.frags| - 1);
      assert q.frags[|q.frags| - 1].End() <= q.len;
    }
  }

  /** No queue in the table but one under `key`. */
  ghost predicate Solo(t: Table, key: Key) { t.queues.Keys <= {key} }

  lemma SoloMem(t: Table, c: Cut, got: set<nat>, gap: nat, t0: nat)
    requires Solo(t, KeyOf(c.dg)) && Holding(t, c, got, gap, t0)
    ensures t.mem <= HIGH_THRESH
  {
    var key := KeyOf(c.dg);
    MemSet(t.queues, key, t.queues[key]);
    assert t.queues - {key} == map[];
    assert Mems(map[]) == map[];
    QueueSmall(t.queues[key], c, got);
  }

  lemma InputSolo(t: Table, f: Fragment, now: nat)
    requires TableOk(t) && Sane(f) && Solo(t, f.key)
    ensures Solo(Input(t, f, now).table, f.key)
  {
    hide TableOk, Place, Revised, CountPeer, Reassemble;
  }

  // ── Any order ────────────────────────────────────────────────────────

  lemma ArrivalBrings(c: Cut, x: Coming)
    requires x.index < Count(c)
    ensures Brings(c, Arrive(Wire(c, x.index), x.time)) == {x.index}
    ensures Checked(Wire(c, x.index)) && Read(Wire(c, x.index)) == FragmentAt(c, x.index)
  {
    var e := Arrive(Wire(c, x.index), x.time);
    assert x.index in Brings(c, e);
    var j := BringsOne(c, e);
    assert j == x.index;
  }

  lemma ArrivalsStep(c: Cut, coming: seq<Coming>, t0: nat)
    requires InTime(c, coming, t0) && coming != []
    ensures InTime(c, coming[1..], t0)
    ensures var evs := Arrivals(c, coming, t0);
      && evs[0] == Arrive(Wire(c, coming[0].index), coming[0].time)
      && evs[1..] == Arrivals(c, coming[1..], t0)
  {
  }

  lemma {:induction false} ArrivalsDeliver(c: Cut, got: set<nat>, coming: seq<Coming>, t0: nat)
    requires InTime(c, coming, t0)
    ensures AllChecked(Arrivals(c, coming, t0))
    ensures Delivered(c, got, Arrivals(c, coming, t0)) == got + Indices(coming)
    decreases |coming|
  {
    hide Brings, Checked;
    forall i | 0 <= i < |coming| ensures Checked(Wire(c, coming[i].index)) { ArrivalBrings(c, coming[i]); }
    if coming != [] {
      ArrivalsStep(c, coming, t0);
      ArrivalBrings(c, coming[0]);
      ArrivalsDeliver(c, got + {coming[0].index}, coming[1..], t0);
    }
  }

  lemma FullGrows(c: Cut, a: set<nat>, b: set<nat>)
    requires Full(c, a) && a <= b
    ensures Full(c, b)
  {
  }

  /** One of its own, not the last one missing. */
  lemma AloneNext(t: Table, c: Cut, got: set<nat>, x: Coming, t0: nat)
    requires Holding(t, c, got, 0, t0) && Solo(t, KeyOf(c.dg)) && t.mem <= HIGH_THRESH
    requires x.index < Count(c) && x.time >= t0 && !Full(c, got + {x.index})
    ensures TableOk(t) && Checked(Wire(c, x.index))
    ensures var n := After(t, Arrive(Wire(c, x.index), x.time));
      Holding(n, c, got + {x.index}, 0, t0) && Solo(n, KeyOf(c.dg))
  {
    hide TableOk, Input, Read, Brings, Full, Checked;
    ArrivalBrings(c, x);
    OwnStep(t, c, got, 0, t0, x.index, x.time);
    InputSolo(t, FragmentAt(c, x.index), x.time);
  }

  /** A quiet run with one of the datagram's own before it. */
  lemma QuietAfterOwn(t: Table, evs: seq<Event>, c: Cut, t0: nat)
    requires TableOk(t) && t.mem <= HIGH_THRESH && evs != [] && Brings(c, evs[0]) != {}
    requires t0 <= evs[0].now < t0 + FRAG_TIME && (evs[0].Arrive? ==> Checked(evs[0].ip))
    requires Quiet(After(t, evs[0]), evs[1..], c, 0, t0)
    ensures Quiet(t, evs, c, 0, t0)
  {
    hide TableOk, After, Checked;
  }

  /** From a queue holding some of them: quiet all the way, still alone. */
  lemma {:induction false} AloneIsQuiet(t: Table, c: Cut, got: set<nat>, coming: seq<Coming>, t0: nat)
    requires InTime(c, coming, t0) && AllChecked(Arrivals(c, coming, t0))
    requires Holding(t, c, got, 0, t0) && Solo(t, KeyOf(c.dg)) && !Full(c, got + Indices(coming))
    ensures TableOk(t) && Quiet(t, Arrivals(c, coming, t0), c, 0, t0)
    ensures Run(t, Arrivals(c, coming, t0)).mem <= HIGH_THRESH
    decreases |coming|
  {
    hide TableOk, After, Brings, Checked, Full, Solo, Cutting.Ok, Holds, Near;
    SoloMem(t, c, got, 0, t0);
    if coming != [] {
      var x := coming[0];
      ArrivalsStep(c, coming, t0);
      ArrivalBrings(c, x);
      assert got + Indices(coming) == got + {x.index} + Indices(coming[1..]);
      if Full(c, got + {x.index}) { FullGrows(c, got + {x.index}, got + Indices(coming)); }
      AloneNext(t, c, got, x, t0);
      AloneIsQuiet(After(t, Arrive(Wire(c, x.index), x.time)), c, got + {x.index}, coming[1..], t0);
      QuietAfterOwn(t, Arrivals(c, coming, t0), c, t0);
    }
  }

  /** Alone in an empty table, a datagram's fragments may come in any order,
      any of them again, within 30 s of the first: the one that completes the
      set gets the datagram back. */
  lemma AnyOrder(c: Cut, coming: seq<Coming>, t0: nat, j: nat, now: nat)
    requires Summed(c.dg) && InTime(c, coming, t0) && (coming != [] ==> coming[0].time == t0)
    requires j < Count(c) && !Full(c, Indices(coming)) && Full(c, Indices(coming) + {j})
    ensures TableOk(Empty()) && AllChecked(Arrivals(c, coming, t0)) && Checked(Wire(c, j))
    ensures Input(Run(Empty(), Arrivals(c, coming, t0)), Read(Wire(c, j)), now).result == Complete(c.dg)
  {
    ArrivalsDeliver(c, {}, coming, t0);
    assert {} + Indices(coming) == Indices(coming);
    EmptyOk();
    if coming != [] {
      FirstIsQuiet(c, coming, t0);
    }
    ReassemblyInvertsFragmentation(Empty(), c, Arrivals(c, coming, t0), j, now);
  }

  lemma EmptyOk()
    ensures TableOk(Empty())
  {
    assert Mems(Empty().queues) == map[];
  }

  lemma FirstIsQuiet(c: Cut, coming: seq<Coming>, t0: nat)
    requires InTime(c, coming, t0) && AllChecked(Arrivals(c, coming, t0))
    requires coming != [] && coming[0].time == t0 && !Full(c, Indices(coming))
    ensures TableOk(Empty())
    ensures Brings(c, Arrivals(c, coming, t0)[0]) != {} && Quiet(Empty(), Arrivals(c, coming, t0), c, 0, t0)
    ensures Run(Empty(), Arrivals(c, coming, t0)).mem <= HIGH_THRESH
  {
    hide TableOk, Brings, Checked, Full, Cutting.Ok, Holding, Input, Read;
    var x := coming[0];
    EmptyOk();
    ArrivalsStep(c, coming, t0);
    ArrivalBrings(c, x);
    if Full(c, {x.index}) { FullGrows(c, {x.index}, Indices(coming)); }
    FirstStep(Empty(), c, x.index, t0);
    InputSolo(Empty(), FragmentAt(c, x.index), t0);
    assert Indices(coming) == {x.index} + Indices(coming[1..]);
    AloneIsQuiet(After(Empty(), Arrive(Wire(c, x.index), t0)), c, {x.index}, coming[1..], t0);
    QuietAfterOwn(Empty(), Arrivals(c, coming, t0), c, t0);
  }
}
