/** Reassembly inverts fragmentation, over whole runs of the table: other
    datagrams, duplicates and expiries in between. */
module FragRun {
  import opened Util
  import opened Frag
  import Csum

  // ── Cutting a datagram ───────────────────────────────────────────────

  /** A whole datagram: length right, no fragment field, some payload. */
  ghost predicate Datagram(d: Bytes) {
    && Checked(d) && Ihl(d) < |d| == Be16(d[2], d[3])
    && d[6] == 0 && d[7] == 0
  }

  /** A header with its checksum field zero. */
  function Blank(d: Bytes, h: nat): Bytes requires 20 <= h <= |d| { d[..h][10 := 0][11 := 0] }

  /** Its header carries the checksum it asks for. */
  ghost predicate Summed(d: Bytes)
    requires Datagram(d)
  {
    Be16(d[10], d[11]) == Csum.Checksum(Blank(d, Ihl(d)))
  }

  /** A datagram cut at the offsets `cuts`, all but the last multiples of
      eight; `sums` are the fragments' own header checksums, whatever they are. */
  datatype Cutting = Cutting(dg: Bytes, cuts: seq<nat>, sums: seq<Csum.Word>) {
    ghost predicate Ok() {
      var n := |cuts| - 1;
      && Datagram(dg)
      && n >= 1 && |sums| == n
      && cuts[0] == 0 && cuts[n] == |dg| - Ihl(dg)
      && (forall i, j | 0 <= i < j <= n :: cuts[i] < cuts[j])
      && (forall i | 0 <= i < n :: cuts[i] % 8 == 0)
    }
  }

  type Cut = c: Cutting | c.Ok() ghost witness Example()

  /** One byte of payload in one piece. */
  ghost function Example(): (c: Cutting)
    ensures c.Ok()
  {
    Cutting([0x45, 0, 0, 21] + seq(17, _ => 0), [0, 1], [0])
  }

  function Head(c: Cut): nat { Ihl(c.dg) }

  function Payload(c: Cut): Bytes { c.dg[Head(c)..] }

  function Count(c: Cut): nat { |c.cuts| - 1 }

  function PieceAt(c: Cut, i: nat): (p: Piece)
    requires i < Count(c)
    ensures p.off == c.cuts[i] && p.End() == c.cuts[i + 1] <= |Payload(c)| && p.data != []
  {
    assert i + 1 < Count(c) ==> c.cuts[i + 1] < c.cuts[Count(c)];
    Piece(c.cuts[i], Payload(c)[c.cuts[i]..c.cuts[i + 1]])
  }

  /** The header of fragment `i`: the datagram's, with its own length,
      fragment field and checksum. */
  function WireHead(c: Cut, i: nat): (h: Bytes)
    requires i < Count(c)
    ensures |h| == Head(c)
  {
    CutBounds(c, i);
    var tot := Head(c) + |PieceAt(c, i).data|;
    var fo := c.cuts[i] / 8 + (if i + 1 < Count(c) then 0x2000 else 0);
    c.dg[..Head(c)][2 := tot / 256][3 := tot % 256][6 := fo / 256][7 := fo % 256]
                   [10 := c.sums[i] / 256][11 := c.sums[i] % 256]
  }

  function Wire(c: Cut, i: nat): Bytes requires i < Count(c) { WireHead(c, i) + PieceAt(c, i).data }

  /** A fragment's fields as the receiver reads them. */
  ghost function FragmentAt(c: Cut, i: nat): (f: Fragment)
    requires i < Count(c)
    ensures Sane(f)
  {
    CutBounds(c, i);
    Fragment(KeyOf(c.dg), PieceAt(c, i), i + 1 < Count(c), c.dg[1] as int % 4, WireHead(c, i), Wire(c, i))
  }

  lemma CutBounds(c: Cut, i: nat)
    requires i < Count(c)
    ensures c.cuts[i] < 65516 && Head(c) + |PieceAt(c, i).data| <= 65535
    ensures i + 1 < Count(c) ==> |PieceAt(c, i).data| % 8 == 0
  {
    assert c.cuts[i] < c.cuts[Count(c)];
  }

  lemma WireFields(c: Cut, i: nat)
    requires i < Count(c)
    ensures var w := Wire(c, i);
      && |w| == Head(c) + |PieceAt(c, i).data| <= 65535
      && Checked(w) && Ihl(w) == Head(c) && KeyOf(w) == KeyOf(c.dg) && w[1] == c.dg[1]
      && Be16(w[2], w[3]) == |w|
      && FragOff(w) == c.cuts[i] / 8 + (if i + 1 < Count(c) then 0x2000 else 0)
  {
    CutBounds(c, i);
    var w, h := Wire(c, i), WireHead(c, i);
    assert forall k | 0 <= k < Head(c) :: w[k] == h[k];
    assert w[12..16] == c.dg[12..16] && w[16..20] == c.dg[16..20];
  }

  lemma WireOffset(w: Bytes, cut: nat, more: bool)
    requires |w| >= 20 && cut % 8 == 0 && cut < 65516 && FragOff(w) == cut / 8 + (if more then 0x2000 else 0)
    ensures Offset(w) == cut && (MoreFragments(w) <==> more)
  {
  }

  lemma ReadWire(c: Cut, i: nat)
    requires i < Count(c)
    ensures Checked(Wire(c, i)) && Read(Wire(c, i)) == FragmentAt(c, i)
  {
    WireFields(c, i);
    CutBounds(c, i);
    var w := Wire(c, i);
    WireOffset(w, c.cuts[i], i + 1 < Count(c));
    assert w[..|w|] == w;
    assert DataLen(w) == |PieceAt(c, i).data|;
    assert w[Ihl(w)..Ihl(w) + DataLen(w)] == PieceAt(c, i).data;
    assert w[..Ihl(w)] == WireHead(c, i);
  }

  lemma Be16Parts(hi: Byte, lo: Byte)
    ensures Be16(hi, lo) / 256 == hi && Be16(hi, lo) % 256 == lo
  {
  }

  lemma OrEcnSame(tos: Byte, ecn: int)
    requires ecn == 0 || (ecn == 3 && tos as int % 4 == 3)
    ensures OrEcn(tos, ecn) == tos
  {
  }

  lemma ZeroedOriginal(c: Cut, ecn: int)
    requires ecn == 0 || (ecn == 3 && c.dg[1] as int % 4 == 3)
    ensures Zeroed(WireHead(c, 0), |c.dg|, ecn) == Blank(c.dg, Head(c))
  {
    var head, d := WireHead(c, 0), c.dg;
    OrEcnSame(d[1], ecn);
    Be16Parts(d[2], d[3]);
    var z := Zeroed(head, |d|, ecn);
    Be16Parts(z[2], z[3]);
    assert forall k | 0 <= k < Head(c) && k !in {2, 3, 6, 7, 10, 11} :: head[k] == d[k];
    forall k | 0 <= k < Head(c) && k != 10 && k != 11 ensures z[k] == d[k] {
    }
  }

  lemma RestoreChecksum(d: Bytes, h: nat)
    requires 20 <= h <= |d|
    ensures Blank(d, h)[10 := d[10]][11 := d[11]] + d[h..] == d
  {
    assert Blank(d, h)[10 := d[10]][11 := d[11]] == d[..h];
  }

  /** Rebuilding under fragment 0's header gives the datagram back. */
  lemma RebuiltOriginal(c: Cut, ecn: int)
    requires Summed(c.dg)
    requires ecn == 0 || (ecn == 3 && c.dg[1] as int % 4 == 3)
    ensures Head(c) + |Payload(c)| == |c.dg| <= 65535
    ensures Rebuilt(WireHead(c, 0), Payload(c), ecn) == c.dg
  {
    ZeroedOriginal(c, ecn);
    RebuiltAs(WireHead(c, 0), Payload(c), ecn, c.dg[10], c.dg[11]);
    RestoreChecksum(c.dg, Head(c));
  }

  // ── What a queue holds of it ─────────────────────────────────────────

  /** The queue holds exactly the fragments `got` of the datagram. */
  ghost predicate Holds(q: Queue, c: Cut, got: set<nat>)
  {
    var ok :=
      QueueOk(q) && Among(q.frags, c, got) && Noted(q.len, q.lastIn, q.head, q.ecn, c, got);
    ok
  }

  ghost predicate Among(fs: seq<Piece>, c: Cut, got: set<nat>)
  {
    var ok :=
      && (forall i | i in got :: i < Count(c))
      && (forall i | i in got :: PieceAt(c, i) in fs)
      && (forall p | p in fs :: exists i :: i in got && p == PieceAt(c, i));
    ok
  }

  /** Length, end mark, header and ECN bits as those fragments left them. */
  ghost predicate Noted(len: nat, lastIn: bool, head: Option<Bytes>, ecn: set<int>, c: Cut, got: set<nat>) {
    var ok :=
      && len <= |Payload(c)|
      && (lastIn <==> Count(c) - 1 in got)
      && (lastIn ==> len == |Payload(c)|)
      && (0 in got ==> head == Some(WireHead(c, 0)))
      && ecn <= {c.dg[1] as int % 4};
    ok
  }

  ghost predicate Full(c: Cut, got: set<nat>) requires c.cuts != [] {
    forall i | 0 <= i < Count(c) :: i in got
  }

  /** Two different fragments of one datagram share no byte. */
  lemma PiecesApart(c: Cut, i: nat, j: nat)
    requires i < Count(c) && j < Count(c) && i != j
    ensures PieceAt(c, i).End() <= PieceAt(c, j).off || PieceAt(c, j).End() <= PieceAt(c, i).off
  {
    if i < j {
      assert i + 1 == j || c.cuts[i + 1] < c.cuts[j];
    } else {
      assert j + 1 == i || c.cuts[j + 1] < c.cuts[i];
    }
  }

  /** A byte of fragment `j` is held only by fragment `j`. */
  lemma HitMeansGot(q: Queue, c: Cut, got: set<nat>, j: nat, p: nat)
    requires Holds(q, c, got) && j < Count(c)
    requires PieceAt(c, j).off <= p < PieceAt(c, j).End()
    ensures Hit(q.frags, p) <==> j in got
  {
    if Hit(q.frags, p) {
      var k :| 0 <= k < |q.frags| && q.frags[k].off <= p < q.frags[k].End();
      assert q.frags[k] in q.frags;
      var i :| i in got && q.frags[k] == PieceAt(c, i);
      if i != j { PiecesApart(c, i, j); }
    }
    if j in got {
      var k :| 0 <= k < |q.frags| && q.frags[k] == PieceAt(c, j);
    }
  }

  /** A fragment already held is covered whole; one not held touches nothing. */
  lemma HeldOrApart(q: Queue, c: Cut, got: set<nat>, j: nat)
    requires Holds(q, c, got) && j < Count(c)
    ensures var p := PieceAt(c, j);
      && (Touches(q.frags, p.off, p.End()) <==> j in got)
      && (j in got ==> Covered(q.frags, p.off, p.End()) == |p.data|)
  {
    var p := PieceAt(c, j);
    if j in got {
      forall b | p.off <= b < p.End() ensures Hit(q.frags, b) { HitMeansGot(q, c, got, j, b); }
      CoveredIff(q.frags, p.off, p.End());
      var k :| 0 <= k < |q.frags| && q.frags[k] == p;
    } else if Touches(q.frags, p.off, p.End()) {
      var k :| 0 <= k < |q.frags| && q.frags[k].off < p.End() && p.off < q.frags[k].End();
      assert q.frags[k] in q.frags;
      var i :| i in got && q.frags[k] == PieceAt(c, i);
      PiecesApart(c, i, j);
    }
  }

  /** Some fragment holds each byte of the payload. */
  lemma {:induction false} ByteBelongs(c: Cut, b: nat, n: nat) returns (j: nat)
    requires n <= Count(c) && b < c.cuts[n]
    ensures j < n && PieceAt(c, j).off <= b < PieceAt(c, j).End()
    decreases n
  {
    if c.cuts[n - 1] <= b { return n - 1; }
    j := ByteBelongs(c, b, n - 1);
  }

  /** The queue is whole exactly when it holds every fragment. */
  lemma WholeIffAll(q: Queue, c: Cut, got: set<nat>)
    requires Holds(q, c, got)
    ensures Whole(q) <==> Full(c, got)
  {
    TileIff(q.frags, q.len);
    if Full(c, got) {
      forall b | 0 <= b < q.len ensures Hit(q.frags, b) {
        var j := ByteBelongs(c, b, Count(c));
        HitMeansGot(q, c, got, j, b);
      }
    }
    if Whole(q) {
      forall j | 0 <= j < Count(c) ensures j in got {
        assert Hit(q.frags, PieceAt(c, j).off);
        HitMeansGot(q, c, got, j, PieceAt(c, j).off);
      }
    }
  }

  /** Held whole, the pieces in order are the payload. */
  lemma ConcatIsPayload(q: Queue, c: Cut, got: set<nat>)
    requires Holds(q, c, got) && Full(c, got) && q.meat == q.len == |Payload(c)|
    ensures Concat(q.frags) == Payload(c)
  {
    ConcatLength(q.frags);
    forall b | 0 <= b < q.len ensures Concat(q.frags)[b] == Payload(c)[b] {
      var j := ByteBelongs(c, b, Count(c));
      PayloadAt(q, PieceAt(c, j));
      SameSlice(Concat(q.frags), Payload(c), PieceAt(c, j).off, PieceAt(c, j).End(), b);
    }
  }

  lemma SameSlice(a: Bytes, b: Bytes, lo: nat, hi: nat, k: nat)
    requires lo <= k < hi <= |a| && hi <= |b| && a[lo..hi] == b[lo..hi]
    ensures a[k] == b[k]
  {
    assert a[k] == a[lo..hi][k - lo] && b[k] == b[lo..hi][k - lo];
  }

  lemma AmongInsert(fs: seq<Piece>, c: Cut, got: set<nat>, j: nat)
    requires Ordered(fs) && Among(fs, c, got) && j < Count(c)
    requires !Touches(fs, PieceAt(c, j).off, PieceAt(c, j).End())
    ensures Among(Insert(fs, PieceAt(c, j)), c, got + {j})
  {
    InsertMembers(fs, PieceAt(c, j));
    forall p | p in Insert(fs, PieceAt(c, j)) ensures exists i :: i in got + {j} && p == PieceAt(c, i) {
      if p != PieceAt(c, j) {
        var i :| i in got && p == PieceAt(c, i);
        assert i in got + {j};
      }
    }
  }

  /** The length a fragment of the datagram claims never contradicts the rest. */
  lemma MeasuredOwn(q: Queue, c: Cut, got: set<nat>, j: nat)
    requires Noted(q.len, q.lastIn, q.head, q.ecn, c, got) && j < Count(c)
    ensures Measured(q, FragmentAt(c, j)).Some?
    ensures var m := Measured(q, FragmentAt(c, j)).value; var tos := c.dg[1] as int % 4;
      && m == q.(lastIn := m.lastIn, len := m.len)
      && q.len <= m.len && PieceAt(c, j).End() <= m.len
      && Noted(m.len, m.lastIn, if j == 0 then Some(WireHead(c, 0)) else q.head, q.ecn + {tos}, c, got + {j})
      && (j in got ==> Noted(m.len, m.lastIn, q.head, q.ecn, c, got))
  {
    assert j + 1 < Count(c) ==> c.cuts[j + 1] < c.cuts[Count(c)];
  }

  /** A fragment already held: a duplicate. */
  lemma PlaceHeld(q: Queue, c: Cut, got: set<nat>, j: nat)
    requires Holds(q, c, got) && j in got
    ensures var v := Place(q, FragmentAt(c, j));
      v.Duplicate? && Holds(v.q, c, got) && v.q.rid == q.rid && v.q.expires == q.expires
  {
    HeldOrApart(q, c, got, j);
    MeasuredOwn(q, c, got, j);
    LongerOk(q, Measured(q, FragmentAt(c, j)).value);
  }

  lemma LongerOk(q: Queue, m: Queue)
    requires QueueOk(q) && q.len <= m.len && m == q.(lastIn := m.lastIn, len := m.len)
    ensures QueueOk(m)
  {
  }

  /** A fragment not held yet: stored beside the others. */
  lemma PlaceNew(q: Queue, c: Cut, got: set<nat>, j: nat)
    requires Holds(q, c, got) && j < Count(c) && j !in got
    ensures Place(q, FragmentAt(c, j)).Stored?
    ensures var v := Place(q, FragmentAt(c, j)).q;
      Holds(v, c, got + {j}) && v.ecn == {c.dg[1] as int % 4} && v.rid == q.rid && v.expires == q.expires
  {
    HeldOrApart(q, c, got, j);
    MeasuredOwn(q, c, got, j);
    AddedHolds(q, Measured(q, FragmentAt(c, j)).value, c, got, j);
  }

  lemma AddedHolds(q: Queue, m: Queue, c: Cut, got: set<nat>, j: nat)
    requires Holds(q, c, got) && j < Count(c) && j !in got && !Touches(q.frags, PieceAt(c, j).off, PieceAt(c, j).End())
    requires m == q.(lastIn := m.lastIn, len := m.len) && q.len <= m.len && PieceAt(c, j).End() <= m.len
    requires Noted(m.len, m.lastIn, if j == 0 then Some(WireHead(c, 0)) else q.head,
                   q.ecn + {c.dg[1] as int % 4}, c, got + {j})
    ensures Holds(Added(m, FragmentAt(c, j)), c, got + {j})
    ensures Added(m, FragmentAt(c, j)).ecn == {c.dg[1] as int % 4}
  {
    LongerOk(q, m);
    AmongInsert(q.frags, c, got, j);
    AddedOk(m, FragmentAt(c, j));
    assert PieceAt(c, j).off == 0 <==> j == 0 by { assert j > 0 ==> c.cuts[0] < c.cuts[j]; }
  }

  // ── One step of a run ────────────────────────────────────────────────

  /** A fragment of the datagram, its queue found and not the last one missing:
      held before, it is dropped; new, it waits with the others. */
  lemma OwnWaits(a: Table, c: Cut, got: set<nat>, j: nat)
    requires KeyOf(c.dg) in a.queues && Holds(a.queues[KeyOf(c.dg)], c, got)
    requires j < Count(c) && !Full(c, got + {j})
    ensures var key := KeyOf(c.dg);
      var s := Resolve(a, FragmentAt(c, j));
      && s.result == (if j in got then Dropped else Pending)
      && key in s.table.queues && Holds(s.table.queues[key], c, got + {j})
      && s.table.queues[key].rid == a.queues[key].rid
      && s.table.queues[key].expires == a.queues[key].expires
      && s.table.peers == a.peers
  {
    var q := a.queues[KeyOf(c.dg)];
    if j in got {
      PlaceHeld(q, c, got, j);
      assert got + {j} == got;
    } else {
      PlaceNew(q, c, got, j);
      WholeIffAll(Place(q, FragmentAt(c, j)).q, c, got + {j});
    }
  }

  /** The whole queue put together is the datagram. */
  lemma ReassembleOwn(q: Queue, c: Cut, got: set<nat>)
    requires Summed(c.dg) && Holds(q, c, got) && Full(c, got) && Whole(q) && q.ecn == {c.dg[1] as int % 4}
    ensures Reassemble(q) == Some(c.dg)
  {
    assert 0 in got && Count(c) - 1 in got;
    ConcatIsPayload(q, c, got);
    var tos := c.dg[1] as int % 4;
    assert EcnOf({tos}) == Some(if tos == 3 then 3 else 0);
    RebuiltOriginal(c, if tos == 3 then 3 else 0);
  }

  /** The last one missing: the datagram is back. */
  lemma OwnCompletes(a: Table, c: Cut, got: set<nat>, j: nat)
    requires Summed(c.dg) && KeyOf(c.dg) in a.queues && Holds(a.queues[KeyOf(c.dg)], c, got)
    requires j < Count(c) && j !in got && Full(c, got + {j})
    ensures Resolve(a, FragmentAt(c, j)).result == Complete(c.dg)
  {
    var q := a.queues[KeyOf(c.dg)];
    PlaceNew(q, c, got, j);
    var v := Place(q, FragmentAt(c, j)).q;
    WholeIffAll(v, c, got + {j});
    ReassembleOwn(v, c, got + {j});
  }

  /** Between two fragments of the datagram: its queue holds `got`, nothing
      expires before `t0 + 30 s`, and its source sent at most `gap` others since. */
  ghost predicate Holding(t: Table, c: Cut, got: set<nat>, gap: nat, t0: nat) {
    var key := KeyOf(c.dg);
    var ok :=
      && TableOk(t) && key in t.queues
      && Holds(t.queues[key], c, got)
      && t.queues[key].expires == t0 + FRAG_TIME
      && Near(t.peers, key.src, t.queues[key].rid, gap, t0);
    ok
  }

  ghost predicate Near(peers: map<Bytes, Peer>, src: Bytes, rid: nat, gap: nat, t0: nat) {
    var ok :=
      && src in peers && peers[src].used >= t0
      && (peers[src].rid - rid) % 0x1_0000_0000 <= gap < MAX_DIST;
    ok
  }

  lemma RidStep(start: int, rid: int, gap: nat)
    requires (rid - start) % 0x1_0000_0000 <= gap < MAX_DIST
    ensures ((rid + 1) % 0x1_0000_0000 - start) % 0x1_0000_0000 <= gap + 1
  {
    var d := (rid - start) % 0x1_0000_0000;
    assert (rid + 1 - start) % 0x1_0000_0000 == (d + 1) % 0x1_0000_0000;
    assert ((rid + 1) % 0x1_0000_0000 - start) % 0x1_0000_0000 == (rid + 1 - start) % 0x1_0000_0000;
  }

  /** Near enough, the queue is found as it was, its counter brought up. */
  lemma OwnAdmitted(t: Table, key: Key, gap: nat, t0: nat, now: nat)
    requires key in t.queues && Near(t.peers, key.src, t.queues[key].rid, gap, t0)
    ensures var a := Admit(t, key, now);
      && key.src in a.peers && a.peers[key.src].used == now
      && a.queues == t.queues[key := t.queues[key].(rid := a.peers[key.src].rid)]
  {
    RidStep(t.queues[key].rid, t.peers[key.src].rid, gap);
  }

  lemma OwnHolds(t: Table, c: Cut, got: set<nat>, gap: nat, t0: nat, now: nat)
    requires Holding(t, c, got, gap, t0)
    ensures var a := Admit(t, KeyOf(c.dg), now);
      && KeyOf(c.dg) in a.queues && Holds(a.queues[KeyOf(c.dg)], c, got)
      && a.queues[KeyOf(c.dg)].expires == t0 + FRAG_TIME
      && KeyOf(c.dg).src in a.peers && a.peers[KeyOf(c.dg).src] == Peer(a.queues[KeyOf(c.dg)].rid, now)
  {
    OwnAdmitted(t, KeyOf(c.dg), gap, t0, now);
  }

  lemma OwnStep(t: Table, c: Cut, got: set<nat>, gap: nat, t0: nat, j: nat, now: nat)
    requires Holding(t, c, got, gap, t0) && j < Count(c) && !Full(c, got + {j})
    requires t.mem <= HIGH_THRESH && now >= t0
    ensures var s := Input(t, FragmentAt(c, j), now);
      s.result == (if j in got then Dropped else Pending) && Holding(s.table, c, got + {j}, 0, t0)
  {
    OwnHolds(t, c, got, gap, t0, now);
    OwnWaits(Admit(t, KeyOf(c.dg), now), c, got, j);
    var a := Admit(t, KeyOf(c.dg), now);
    NearNow(a.peers, KeyOf(c.dg).src, a.queues[KeyOf(c.dg)].rid, now, t0);
  }

  lemma NearNow(peers: map<Bytes, Peer>, src: Bytes, rid: nat, now: nat, t0: nat)
    requires src in peers && peers[src] == Peer(rid, now) && now >= t0
    ensures Near(peers, src, rid, 0, t0)
  {
  }

  /** The first fragment of the datagram to come. */
  lemma FirstStep(t: Table, c: Cut, j: nat, now: nat)
    requires TableOk(t) && KeyOf(c.dg) !in t.queues && j < Count(c) && !Full(c, {j}) && t.mem <= HIGH_THRESH
    ensures var s := Input(t, FragmentAt(c, j), now);
      s.result == Pending && Holding(s.table, c, {j}, 0, now)
  {
    FirstHolds(t, c, now);
    assert {} + {j} == {j};
    OwnWaits(Admit(t, KeyOf(c.dg), now), c, {}, j);
    var a := Admit(t, KeyOf(c.dg), now);
    NearNow(a.peers, KeyOf(c.dg).src, a.queues[KeyOf(c.dg)].rid, now, now);
  }

  lemma FirstHolds(t: Table, c: Cut, now: nat)
    requires KeyOf(c.dg) !in t.queues
    ensures var a := Admit(t, KeyOf(c.dg), now);
      && KeyOf(c.dg) in a.queues && Holds(a.queues[KeyOf(c.dg)], c, {})
      && a.queues[KeyOf(c.dg)].expires == now + FRAG_TIME
      && KeyOf(c.dg).src in a.peers && a.peers[KeyOf(c.dg).src] == Peer(a.queues[KeyOf(c.dg)].rid, now)
  {
  }

  /** A fragment of another datagram leaves the queue alone; one from the same
      source moves its counter by at most one. */
  lemma ForeignStep(t: Table, c: Cut, got: set<nat>, gap: nat, t0: nat, f: Fragment, now: nat)
    requires Holding(t, c, got, gap, t0) && Sane(f) && f.key != KeyOf(c.dg)
    requires t0 <= now < t0 + FRAG_TIME
    requires f.key.src == KeyOf(c.dg).src ==> gap + 1 < MAX_DIST
    ensures Holding(Input(t, f, now).table, c, got, if f.key.src == KeyOf(c.dg).src then gap + 1 else gap, t0)
  {
    var key := KeyOf(c.dg);
    OtherQueue(t, f, now, key);
    ForeignPeer(t.peers, f.key.src, now, key.src, t.queues[key].rid, gap, t0);
  }

  lemma ForeignPeer(peers: map<Bytes, Peer>, src: Bytes, now: nat, own: Bytes, rid: nat, gap: nat, t0: nat)
    requires Near(peers, own, rid, gap, t0) && t0 <= now < t0 + FRAG_TIME
    requires src == own ==> gap + 1 < MAX_DIST
    ensures Near(CountPeer(peers, src, now), own, rid, if src == own then gap + 1 else gap, t0)
    ensures Near(peers, own, rid, if src == own then gap + 1 else gap, t0)
  {
    RidStep(rid, peers[own].rid, gap);
  }

  lemma OtherQueue(t: Table, f: Fragment, now: nat, key: Key)
    requires TableOk(t) && Sane(f) && f.key != key && key in t.queues
    ensures var s := Input(t, f, now).table;
      && key in s.queues && s.queues[key] == t.queues[key]
      && s.peers == (if t.mem > HIGH_THRESH then t.peers else CountPeer(t.peers, f.key.src, now))
  {
    if t.mem <= HIGH_THRESH {
      AdmitOk(t, f.key, now);
      PlaceOk(Admit(t, f.key, now).queues[f.key], f);
    }
  }

  lemma ExpireStep(t: Table, c: Cut, got: set<nat>, gap: nat, t0: nat, now: nat)
    requires Holding(t, c, got, gap, t0) && now < t0 + FRAG_TIME
    ensures Holding(Expire(t, now), c, got, gap, t0)
  {
    ExpireOk(t, now);
  }

  // ── Whole runs ───────────────────────────────────────────────────────

  datatype Event = Arrive(ip: Bytes, now: nat) | Expiry(now: nat)

  ghost function After(t: Table, e: Event): (r: Table)
    requires TableOk(t) && (e.Arrive? ==> Checked(e.ip))
    ensures TableOk(r)
  {
    match e
    case Arrive(ip, now) => Input(t, Read(ip), now).table
    case Expiry(now) => (ExpireOk(t, now); Expire(t, now))
  }

  /** The fragments of the datagram an event brings: one or none. */
  ghost function Brings(c: Cut, e: Event): set<nat> {
    if e.Arrive? then set i | 0 <= i < Count(c) && e.ip == Wire(c, i) else {}
  }

  /** The fragments there after a series of events, from `got` on. */
  ghost function Delivered(c: Cut, got: set<nat>, evs: seq<Event>): (r: set<nat>)
    ensures got <= r
    decreases |evs|
  {
    if evs == [] then got else Delivered(c, got + Brings(c, evs[0]), evs[1..])
  }

  /** A run from `t` in which nothing but the order and the company of the
      datagram's fragments is left to chance: all within 30 s of `t0`, memory
      at or below the threshold when one of its own comes, no other datagram
      under its key, and fewer than 64 fragments of its source between two of
      its own (`gap` so far). */
  ghost predicate Quiet(t: Table, evs: seq<Event>, c: Cut, gap: nat, t0: nat)
    requires TableOk(t)
    decreases |evs|
  {
    evs == [] ||
    var e := evs[0];
    && t0 <= e.now < t0 + FRAG_TIME
    && (e.Arrive? ==> Checked(e.ip))
    && if e.Expiry? then Quiet(After(t, e), evs[1..], c, gap, t0)
       else if Brings(c, e) != {} then t.mem <= HIGH_THRESH && Quiet(After(t, e), evs[1..], c, 0, t0)
       else
         var k := Read(e.ip).key;
         && k != KeyOf(c.dg)
         && if k.src == KeyOf(c.dg).src
            then gap + 1 < MAX_DIST && Quiet(After(t, e), evs[1..], c, gap + 1, t0)
            else Quiet(After(t, e), evs[1..], c, gap, t0)
  }

  ghost predicate AllChecked(evs: seq<Event>) {
    forall i | 0 <= i < |evs| :: evs[i].Arrive? ==> Checked(evs[i].ip)
  }

  ghost function Run(t: Table, evs: seq<Event>): (r: Table)
    requires TableOk(t) && AllChecked(evs)
    ensures TableOk(r)
    decreases |evs|
  {
    if evs == [] then t else Run(After(t, evs[0]), evs[1..])
  }

  lemma BringsOne(c: Cut, e: Event) returns (j: nat)
    requires Brings(c, e) != {}
    ensures j < Count(c) && e.Arrive? && e.ip == Wire(c, j) && Brings(c, e) == {j}
    ensures Checked(e.ip) && Read(e.ip) == FragmentAt(c, j)
  {
    j :| j in Brings(c, e);
    ReadWire(c, j);
    forall i | i in Brings(c, e) ensures i == j {
      ReadWire(c, i);
      if i != j { PiecesApart(c, i, j); }
    }
  }

  /** From a queue holding `got`, a quiet run that does not complete the set
      leaves the queue holding all it delivered. */
  lemma {:induction false} RunHolds(t: Table, c: Cut, got: set<nat>, gap: nat, t0: nat, evs: seq<Event>)
    returns (gap': nat)
    requires Holding(t, c, got, gap, t0) && Quiet(t, evs, c, gap, t0) && AllChecked(evs)
    requires !Full(c, Delivered(c, got, evs))
    ensures Holding(Run(t, evs), c, Delivered(c, got, evs), gap', t0)
    decreases |evs|
  {
    hide TableOk, After, Quiet, Brings, Cutting.Ok;
    if evs == [] {
      return gap;
    }
    var next := NextHolds(t, c, got, gap, t0, evs);
    gap' := RunHolds(After(t, evs[0]), c, got + Brings(c, evs[0]), next, t0, evs[1..]);
  }

  /** One event of a quiet run that does not complete the set. */
  lemma NextHolds(t: Table, c: Cut, got: set<nat>, gap: nat, t0: nat, evs: seq<Event>) returns (next: nat)
    requires Holding(t, c, got, gap, t0) && Quiet(t, evs, c, gap, t0) && evs != []
    requires !Full(c, got + Brings(c, evs[0]))
    ensures evs[0].Arrive? ==> Checked(evs[0].ip)
    ensures Holding(After(t, evs[0]), c, got + Brings(c, evs[0]), next, t0)
    ensures Quiet(After(t, evs[0]), evs[1..], c, next, t0)
  {
    var e := evs[0];
    if e.Arrive? && Brings(c, e) != {} {
      var j := BringsOne(c, e);
      OwnStep(t, c, got, gap, t0, j, e.now);
      return 0;
    }
    assert got + Brings(c, e) == got;
    if e.Expiry? {
      ExpireStep(t, c, got, gap, t0, e.now);
      return gap;
    }
    ForeignStep(t, c, got, gap, t0, Read(e.ip), e.now);
    return if Read(e.ip).key.src == KeyOf(c.dg).src then gap + 1 else gap;
  }

  lemma CompletingStep(t: Table, c: Cut, got: set<nat>, gap: nat, t0: nat, j: nat, now: nat)
    requires Summed(c.dg) && Holding(t, c, got, gap, t0) && t.mem <= HIGH_THRESH
    requires j < Count(c) && !Full(c, got) && Full(c, got + {j})
    ensures Input(t, FragmentAt(c, j), now).result == Complete(c.dg)
  {
    hide TableOk, Admit;
    assert j in got ==> got + {j} == got;
    OwnHolds(t, c, got, gap, t0, now);
    OwnCompletes(Admit(t, KeyOf(c.dg), now), c, got, j);
  }

  lemma OnlyStep(t: Table, c: Cut, j: nat, now: nat)
    requires Summed(c.dg) && TableOk(t) && KeyOf(c.dg) !in t.queues && t.mem <= HIGH_THRESH
    requires j < Count(c) && Full(c, {j})
    ensures Input(t, FragmentAt(c, j), now).result == Complete(c.dg)
  {
    assert {} + {j} == {j};
    FirstHolds(t, c, now);
    OwnCompletes(Admit(t, KeyOf(c.dg), now), c, {}, j);
  }

  /** A quiet run that starts with one of the fragments and does not complete
      the set. */
  lemma HoldsFromFirst(t: Table, c: Cut, evs: seq<Event>) returns (gap: nat)
    requires TableOk(t) && KeyOf(c.dg) !in t.queues && AllChecked(evs)
    requires evs != [] && Brings(c, evs[0]) != {} && Quiet(t, evs, c, 0, evs[0].now)
    requires !Full(c, Delivered(c, {}, evs))
    ensures Holding(Run(t, evs), c, Delivered(c, {}, evs), gap, evs[0].now)
  {
    hide Holding, TableOk, After, Quiet, Brings, Full, Cutting.Ok;
    FirstHeld(t, c, evs);
    gap := RunHolds(After(t, evs[0]), c, {} + Brings(c, evs[0]), 0, evs[0].now, evs[1..]);
  }

  lemma FirstHeld(t: Table, c: Cut, evs: seq<Event>)
    requires TableOk(t) && KeyOf(c.dg) !in t.queues
    requires evs != [] && Brings(c, evs[0]) != {} && Quiet(t, evs, c, 0, evs[0].now)
    requires !Full(c, Delivered(c, {}, evs))
    ensures evs[0].Arrive? && Checked(evs[0].ip)
    ensures Holding(After(t, evs[0]), c, {} + Brings(c, evs[0]), 0, evs[0].now)
    ensures Quiet(After(t, evs[0]), evs[1..], c, 0, evs[0].now)
  {
    hide Holding, TableOk, Input, Read;
    var i := BringsOne(c, evs[0]);
    assert {} + {i} == {i};
    assert !Full(c, {i}) by { assert {i} <= Delivered(c, {i}, evs[1..]); }
    FirstStep(t, c, i, evs[0].now);
  }

  /** Reassembly inverts fragmentation. Cut any datagram at multiples of eight
      and let its fragments come in any order, any of them again, among
      anything else a quiet run allows: the fragment that completes the set
      gets the datagram back, byte for byte. */
  lemma ReassemblyInvertsFragmentation(t: Table, c: Cut, evs: seq<Event>, j: nat, now: nat)
    requires Summed(c.dg) && TableOk(t) && KeyOf(c.dg) !in t.queues && AllChecked(evs)
    requires evs != [] ==> Brings(c, evs[0]) != {} && Quiet(t, evs, c, 0, evs[0].now)
    requires Run(t, evs).mem <= HIGH_THRESH && j < Count(c)
    requires !Full(c, Delivered(c, {}, evs)) && Full(c, Delivered(c, {}, evs) + {j})
    ensures Checked(Wire(c, j))
    ensures Input(Run(t, evs), Read(Wire(c, j)), now).result == Complete(c.dg)
  {
    hide Holding, TableOk, After, Quiet, Brings, Full, Input, Read, Checked, Cutting.Ok;
    ReadWire(c, j);
    if evs == [] {
      assert {} + {j} == {j};
      OnlyStep(t, c, j, now);
      return;
    }
    var gap := HoldsFromFirst(t, c, evs);
    CompletingStep(Run(t, evs), c, Delivered(c, {}, evs), gap, evs[0].now, j, now);
  }

  /** Until then its fragments are only kept or, as duplicates, dropped. */
  lemma NothingBefore(t: Table, c: Cut, evs: seq<Event>, j: nat, now: nat)
    requires TableOk(t) && KeyOf(c.dg) !in t.queues && AllChecked(evs)
    requires evs != [] && Brings(c, evs[0]) != {} && Quiet(t, evs, c, 0, evs[0].now)
    requires Run(t, evs).mem <= HIGH_THRESH && j < Count(c) && now >= evs[0].now
    requires !Full(c, Delivered(c, {}, evs) + {j})
    ensures Checked(Wire(c, j))
    ensures Input(Run(t, evs), Read(Wire(c, j)), now).result
            == if j in Delivered(c, {}, evs) then Dropped else Pending
  {
    hide Holding, TableOk, After, Quiet, Brings, Input, Checked;
    ReadWire(c, j);
    var gap := HoldsFromFirst(t, c, evs);
    OwnStep(Run(t, evs), c, Delivered(c, {}, evs), gap, evs[0].now, j, now);
  }
}
