/** The reassembly table itself (`Defrag` of net/src/frag.rs), updated in
    place, against the value-level calls of module `Frag`. */
module FragTable {
  import opened Util
  import opened Frag
  import Csum

  lemma CoveredAppend(a: seq<Piece>, b: seq<Piece>, lo: nat, hi: nat)
    ensures Covered(a + b, lo, hi) == Covered(a, lo, hi) + Covered(b, lo, hi)
  {
    if a == [] {
      assert a + b == b;
    } else {
      assert (a + b)[1..] == a[1..] + b;
      CoveredAppend(a[1..], b, lo, hi);
    }
  }

  lemma ConcatAppend(a: seq<Piece>, b: seq<Piece>)
    ensures Concat(a + b) == Concat(a) + Concat(b)
  {
    if a == [] {
      assert a + b == b;
    } else {
      assert (a + b)[1..] == a[1..] + b;
      ConcatAppend(a[1..], b);
    }
  }

  lemma TouchesStep(fs: seq<Piece>, i: nat, lo: nat, hi: nat)
    requires i < |fs|
    ensures Touches(fs[..i + 1], lo, hi) <==> Touches(fs[..i], lo, hi) || (fs[i].off < hi && lo < fs[i].End())
  {
    var longer, shorter := fs[..i + 1], fs[..i];
    assert forall k | 0 <= k < i :: longer[k] == shorter[k];
    assert longer[i] == fs[i];
  }

  lemma CoveredStep(fs: seq<Piece>, i: nat, lo: nat, hi: nat)
    requires i < |fs|
    ensures Covered(fs[..i + 1], lo, hi) == Covered(fs[..i], lo, hi) + Overlap(fs[i], lo, hi)
  {
    assert fs[..i + 1] == fs[..i] + [fs[i]];
    CoveredAppend(fs[..i], [fs[i]], lo, hi);
  }

  /** Fragments that begin at or past `end` neither touch nor cover. */
  lemma ScanStops(fs: seq<Piece>, i: nat, lo: nat, hi: nat)
    requires Ordered(fs) && i <= |fs| && (i < |fs| ==> hi <= fs[i].off)
    ensures Touches(fs, lo, hi) == Touches(fs[..i], lo, hi)
    ensures Covered(fs, lo, hi) == Covered(fs[..i], lo, hi)
  {
    assert fs == fs[..i] + fs[i..];
    CoveredAppend(fs[..i], fs[i..], lo, hi);
    assert forall k | i <= k < |fs| :: hi <= fs[k].off;
    CoveredPast(fs[i..], lo, hi);
    assert forall k | 0 <= k < i :: fs[..i][k] == fs[k];
  }

  /** `inet_frag_queue_insert`'s scan of the fragments that begin before `end`. */
  method Scan(fs: seq<Piece>, offset: nat, end: nat) returns (overlap: bool, covered: nat)
    requires Ordered(fs)
    ensures overlap == Touches(fs, offset, end)
    ensures covered == Covered(fs, offset, end)
  {
    overlap, covered := false, 0;
    var i := 0;
    while i < |fs| && fs[i].off < end
      invariant 0 <= i <= |fs|
      invariant overlap == Touches(fs[..i], offset, end)
      invariant covered == Covered(fs[..i], offset, end)
    {
      TouchesStep(fs, i, offset, end);
      CoveredStep(fs, i, offset, end);
      var e := fs[i].End();
      if e > offset {
        overlap := true;
        covered := covered + Max(0, Min(e, end) - Max(fs[i].off, offset));
      }
      i := i + 1;
    }
    ScanStops(fs, i, offset, end);
  }

  /** `ip_frag_reasm`'s output: the header, the data in order, the patched fields. */
  method Emit(head: Bytes, frags: seq<Piece>, ecn: int) returns (out: Bytes)
    requires |head| >= 20 && |head| + |Concat(frags)| <= 65535
    ensures out == Rebuilt(head, Concat(frags), ecn)
  {
    var body: Bytes := [];
    for i := 0 to |frags|
      invariant body == Concat(frags[..i])
    {
      assert frags[..i + 1] == frags[..i] + [frags[i]];
      ConcatAppend(frags[..i], [frags[i]]);
      assert Concat([frags[i]]) == frags[i].data;
      body := body + frags[i].data;
    }
    assert frags[..|frags|] == frags;
    var len := |head| + |body|;
    var h := head;
    h := h[1 := OrEcn(h[1], ecn)];
    h := h[2 := len / 256][3 := len % 256];
    h := h[6 := 0];
    h := h[7 := 0];
    h := h[10 := 0];
    h := h[11 := 0];
    var sum := Csum.Sum(h);
    var f := Csum.Fold(sum);
    var c := Csum.Not16(f);
    h := h[10 := c / 256][11 := c % 256];
    out := h + body;
  }

  /** `ip_frag_queue`: what the fragment does to its queue. */
  method PlaceIn(queue: Queue, f: Fragment) returns (v: Verdict)
    requires QueueOk(queue) && Sane(f)
    ensures v == Place(queue, f)
  {
    var q := queue;
    var offset, end := f.piece.off, f.piece.End();
    if !f.more {
      if end < q.len || (q.lastIn && end != q.len) {
        return Kill;
      }
      q := q.(lastIn := true, len := end);
    } else if end > q.len {
      if q.lastIn {
        return Kill;
      }
      q := q.(len := end);
    }
    assert Measured(queue, f) == Some(q);
    if end == offset {
      return Kill;
    }
    var overlap, covered := Scan(q.frags, offset, end);
    if overlap {
      if covered == end - offset {
        return Duplicate(q);
      }
      return Kill;
    }
    q := q.(meat := q.meat + |f.piece.data|, mem := q.mem + |f.piece.data| + FRAG_OVERHEAD,
            ecn := q.ecn + {f.ecn}, frags := Insert(q.frags, f.piece));
    if offset == 0 {
      q := q.(head := Some(f.head), first := Some(f.whole));
    }
    return Stored(q);
  }

  /** `firsts` is fragment 0 of each of the queues `owed`, in the order named. */
  ghost predicate Reported(qs: map<Key, Queue>, owed: set<Key>, order: seq<Key>, firsts: seq<Bytes>) {
    && |firsts| == |order| == |owed|
    && (forall k :: k in order <==> k in owed)
    && (forall i | 0 <= i < |order| :: order[i] in qs && qs[order[i]].first == Some(firsts[i]))
  }

  lemma ReportedStep(qs: map<Key, Queue>, done: set<Key>, order: seq<Key>, firsts: seq<Bytes>, k: Key)
    requires Reported(qs, Owed(qs, done), order, firsts) && k in qs && k !in done
    ensures qs[k].first.Some? ==> Reported(qs, Owed(qs, done + {k}), order + [k], firsts + [qs[k].first.value])
    ensures qs[k].first.None? ==> Reported(qs, Owed(qs, done + {k}), order, firsts)
  {
    assert Owed(qs, done + {k}) == Owed(qs, done) + (if qs[k].first.Some? then {k} else {});
  }

  class Defrag {
    var queues: map<Key, Queue>
    var mem: int
    var peers: map<Bytes, Peer>
    var fails: nat
    var timeouts: nat
    var oks: nat

    function View(): Table reads this { Table(queues, mem, peers, fails, timeouts, oks) }

    ghost predicate Valid() reads this { TableOk(View()) }

    constructor ()
      ensures Valid() && View() == Table(map[], 0, map[], 0, 0, 0)
    {
      queues, mem, peers, fails, timeouts, oks := map[], 0, map[], 0, 0, 0;
    }

    method Kill(key: Key)
      requires key in queues
      modifies this
      ensures View() == old(View()).(queues := old(queues) - {key}, mem := old(mem) - old(queues)[key].mem,
                                     fails := old(fails) + 1)
    {
      mem := mem - queues[key].mem;
      queues := queues - {key};
      fails := fails + 1;
    }

    /** The source's fragment counter. */
    method CountSource(src: Bytes, now: nat) returns (rid: nat)
      modifies this`peers
      ensures peers == CountPeer(old(peers), src, now) && rid == peers[src].rid
    {
      if |peers| >= PEERS_MAX && src !in peers {
        peers := map s | s in peers && now - peers[s].used < FRAG_TIME :: peers[s];
      }
      rid := ((if src in peers then peers[src].rid else 0) + 1) % 0x1_0000_0000;
      peers := peers[src := Peer(rid, now)];
    }

    /** `inet_frag_find` and `ip_frag_too_far`. */
    method Find(key: Key, now: nat)
      modifies this
      ensures View() == Admit(old(View()), key, now)
    {
      if key !in queues {
        queues := queues[key := FreshQueue(0, now)];
      }
      var rid := CountSource(key.src, now);
      var q := queues[key];
      var start := q.rid;
      q := q.(rid := rid);
      if q.frags != [] && TooFar(start, rid) {
        mem := mem - q.mem;
        q := FreshQueue(rid, now);
        fails := fails + 1;
      }
      queues := queues[key := q];
    }

    /** `ip_defrag`. */
    method Input(ip: Bytes, now: nat) returns (r: Defragged)
      requires Valid() && Checked(ip)
      modifies this
      ensures Valid()
      ensures Step(View(), r) == Frag.Input(old(View()), Read(ip), now)
    {
      r := Accept(Read(ip), now);
    }

    method Accept(f: Fragment, now: nat) returns (r: Defragged)
      requires Valid() && Sane(f)
      modifies this
      ensures Valid()
      ensures Step(View(), r) == Frag.Input(old(View()), f, now)
    {
      ghost var s := Frag.Input(View(), f, now);
      if mem > HIGH_THRESH {
        fails := fails + 1;
        return Dropped;
      }
      AdmitOk(View(), f.key, now);
      Find(f.key, now);
      PlaceOk(queues[f.key], f);
      var v := PlaceIn(queues[f.key], f);
      r := Conclude(f.key, v);
      assert View() == s.table;
    }

    /** The verdict carried out: dropped, kept, or put together. */
    method Conclude(key: Key, v: Verdict) returns (r: Defragged)
      requires key in queues
      requires v.Stored? ==> QueueOk(v.q)
      modifies this
      ensures Step(View(), r) == Settle(old(View()), key, v)
    {
      match v
      case Kill =>
        Kill(key);
        return Dropped;
      case Duplicate(q) =>
        queues := queues[key := q];
        return Dropped;
      case Stored(q) =>
        mem := mem - queues[key].mem + q.mem;
        queues := queues[key := q];
        if !(q.head.Some? && q.lastIn && q.meat == q.len) {
          return Pending;
        }
        queues := queues - {key};
        mem := mem - q.mem;
        MapUpdateMinus(old(queues), key, q);
        ConcatLength(q.frags);
        var ecn := EcnOf(q.ecn);
        if ecn.None? || |q.head.value| + q.len > 65535 {
          fails := fails + 1;
          return Dropped;
        }
        var out := Emit(q.head.value, q.frags, ecn.value);
        oks := oks + 1;
        return Complete(out);
    }

    /** One due queue leaves the table. */
    method Drop(k: Key) returns (first: Option<Bytes>)
      requires k in queues && mem == Mem(queues)
      modifies this
      ensures first == old(queues)[k].first
      ensures View() == old(View()).(queues := old(queues) - {k}, mem := Mem(queues),
                                     fails := old(fails) + 1, timeouts := old(timeouts) + 1)
    {
      MemSet(queues, k, queues[k]);
      first := queues[k].first;
      mem := mem - queues[k].mem;
      queues := queues - {k};
      fails := fails + 1;
      timeouts := timeouts + 1;
    }

    /** Every queue of `due` leaves the table; `order` names those whose
        fragment 0 is returned. */
    method DropAll(due: set<Key>) returns (firsts: seq<Bytes>, ghost order: seq<Key>)
      requires mem == Mem(queues) && due <= queues.Keys
      modifies this
      ensures View() == old(View()).(queues := old(queues) - due, mem := Mem(old(queues) - due),
                                     fails := old(fails) + |due|, timeouts := old(timeouts) + |due|)
      ensures Reported(old(queues), Owed(old(queues), due), order, firsts)
    {
      ghost var t := View();
      var done: set<Key> := {};
      firsts, order := [], [];
      assert t.queues - {} == t.queues;
      while done != due
        invariant done <= due
        invariant View() == t.(queues := t.queues - done, mem := Mem(t.queues - done),
                               fails := t.fails + |done|, timeouts := t.timeouts + |done|)
        invariant Reported(t.queues, Owed(t.queues, done), order, firsts)
        decreases due - done
      {
        var k :| k in due && k !in done;
        MapMinusStep(t.queues, done, k);
        var first := Drop(k);
        ReportedStep(t.queues, done, order, firsts, k);
        if first.Some? {
          firsts := firsts + [first.value];
          order := order + [k];
        }
        done := done + {k};
      }
    }

    /** `ip_expire`. */
    method Expire(now: nat) returns (firsts: seq<Bytes>, ghost order: seq<Key>)
      requires Valid()
      modifies this
      ensures Valid() && View() == Frag.Expire(old(View()), now)
      ensures Reported(old(queues), Owed(old(queues), Due(old(View()), now)), order, firsts)
    {
      ghost var t := View();
      ExpireOk(t, now);
      firsts, order := DropAll(set k | k in queues && now >= queues[k].expires);
    }
  }
}
