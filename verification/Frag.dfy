/** IPv4 reassembly (net/src/frag.rs; section 3.2 of RFC 791, the overlap
    rule of RFC 5722): the table of queues as values, and what each call
    makes of it. An ordered map of fragments is the sequence of its entries
    by offset. */
module Frag {
  import opened Util
  import Csum

  const FRAG_TIME: nat := 3000
  const HIGH_THRESH: nat := 4 * 1024 * 1024
  const MAX_DIST: nat := 64
  const PEERS_MAX: nat := 65536 + 128
  const FRAG_OVERHEAD: nat := 256

  type Bytes = seq<Byte>

  datatype Key = Key(src: Bytes, dst: Bytes, id: nat, proto: Byte)

  /** A fragment's data at its offset. */
  datatype Piece = Piece(off: nat, data: Bytes) {
    function End(): nat { off + |data| }
  }

  datatype Queue = Queue(
    frags: seq<Piece>,
    head: Option<Bytes>,
    first: Option<Bytes>,
    len: nat,
    meat: nat,
    lastIn: bool,
    ecn: set<int>,      // ECN codepoints seen, one bit each in the source
    rid: nat,
    expires: nat,
    mem: nat)

  /** Per source: how many fragments it sent (32 bits), and when the last came. */
  datatype Peer = Peer(rid: nat, used: nat)

  datatype Table = Table(
    queues: map<Key, Queue>,
    mem: int,
    peers: map<Bytes, Peer>,
    fails: nat,
    timeouts: nat,
    oks: nat)

  datatype Defragged = Complete(ip: Bytes) | Pending | Dropped

  datatype Step = Step(table: Table, result: Defragged)

  // ── The header, "already checked" by the caller ──────────────────────

  predicate Checked(ip: Bytes) { |ip| >= 20 && Ihl(ip) >= 20 }

  function Ihl(ip: Bytes): nat requires |ip| >= 20 { ip[0] as nat % 16 * 4 }

  function Tot(ip: Bytes): nat requires |ip| >= 20 { Min(Be16(ip[2], ip[3]), |ip|) }

  function FragOff(ip: Bytes): nat requires |ip| >= 20 { Be16(ip[6], ip[7]) }

  function Offset(ip: Bytes): nat requires |ip| >= 20 { FragOff(ip) % 0x2000 * 8 }

  predicate MoreFragments(ip: Bytes) requires |ip| >= 20 { FragOff(ip) / 0x2000 % 2 == 1 }

  function KeyOf(ip: Bytes): Key requires |ip| >= 20 {
    Key(ip[12..16], ip[16..20], Be16(ip[4], ip[5]), ip[9])
  }

  /** Payload bytes the fragment counts for: whole eights unless it is the last. */
  function DataLen(ip: Bytes): nat requires Checked(ip) {
    var n := if Tot(ip) < Ihl(ip) then 0 else Tot(ip) - Ihl(ip);
    if MoreFragments(ip) then n - n % 8 else n
  }

  /** A fragment as read off its header. */
  datatype Fragment = Fragment(key: Key, piece: Piece, more: bool, ecn: int, head: Bytes, whole: Bytes)

  function Read(ip: Bytes): (f: Fragment)
    requires Checked(ip)
    ensures Sane(f)
  {
    Fragment(KeyOf(ip), Piece(Offset(ip), if DataLen(ip) == 0 then [] else ip[Ihl(ip)..Ihl(ip) + DataLen(ip)]),
             MoreFragments(ip), ip[1] as int % 4,
             ip[..Min(Ihl(ip), |ip|)], ip[..Tot(ip)])
  }

  /** The parts of a header check the table relies on: a fragment with data
      has its whole header. */
  ghost predicate Sane(f: Fragment) {
    |f.piece.data| <= 65515 && (f.piece.data != [] ==> |f.head| >= 20)
  }

  /** `ecn_of`: what the fragments' ECN fields amount to, if they agree. */
  function EcnOf(seen: set<int>): Option<int> {
    if 0 in seen && seen != {0} then None
    else Some(if 3 in seen then 3 else 0)
  }

  // ── Fragments of one queue ───────────────────────────────────────────

  function Concat(fs: seq<Piece>): Bytes {
    if fs == [] then [] else fs[0].data + Concat(fs[1..])
  }

  function SumLen(fs: seq<Piece>): nat {
    if fs == [] then 0 else |fs[0].data| + SumLen(fs[1..])
  }

  /** Bytes of [a, b) that a piece holds. */
  function Overlap(f: Piece, a: nat, b: nat): nat {
    Max(0, Min(f.End(), b) - Max(f.off, a))
  }

  function Covered(fs: seq<Piece>, a: nat, b: nat): nat {
    if fs == [] then 0 else Overlap(fs[0], a, b) + Covered(fs[1..], a, b)
  }

  predicate Touches(fs: seq<Piece>, a: nat, b: nat) {
    exists i :: 0 <= i < |fs| && fs[i].off < b && a < fs[i].End()
  }

  /** The entry put in its place by offset. */
  function Insert(fs: seq<Piece>, p: Piece): seq<Piece> {
    if fs == [] || p.off < fs[0].off then [p] + fs
    else [fs[0]] + Insert(fs[1..], p)
  }

  // ── One fragment into the table ──────────────────────────────────────

  function FreshQueue(rid: nat, now: nat): Queue {
    Queue([], None, None, 0, 0, false, {}, rid, now + FRAG_TIME, 0)
  }

  /** `inet_peer`: the source's counter moves on; a full table first forgets
      sources idle for 30 s. */
  function CountPeer(peers: map<Bytes, Peer>, src: Bytes, now: nat): map<Bytes, Peer> {
    var kept := if |peers| >= PEERS_MAX && src !in peers
                then map s | s in peers && now - peers[s].used < FRAG_TIME :: peers[s]
                else peers;
    kept[src := Peer(((if src in kept then kept[src].rid else 0) + 1) % 0x1_0000_0000, now)]
  }

  /** `ip_frag_too_far`: a 32-bit difference. */
  predicate TooFar(start: nat, rid: nat) { (rid - start) % 0x1_0000_0000 > MAX_DIST }

  /** `ip_frag_reinit` when too far, else only the counter is noted. */
  function Revised(q: Queue, rid: nat, now: nat): Queue {
    if q.frags != [] && TooFar(q.rid, rid) then FreshQueue(rid, now) else q.(rid := rid)
  }

  /** The table as the fragment finds it, its queue new, restarted or as it was. */
  function Admit(t: Table, key: Key, now: nat): Table {
    var peers := CountPeer(t.peers, key.src, now);
    var q := if key in t.queues then t.queues[key] else FreshQueue(0, now);
    var r := Revised(q, peers[key.src].rid, now);
    t.(peers := peers, queues := t.queues[key := r], mem := t.mem - q.mem + r.mem,
       fails := if r.frags == q.frags then t.fails else t.fails + 1)
  }

  datatype Verdict = Kill | Duplicate(q: Queue) | Stored(q: Queue)

  /** The datagram's length as this fragment claims it; none if it contradicts
      what came before. */
  function Measured(q: Queue, f: Fragment): Option<Queue> {
    var end := f.piece.End();
    if !f.more then
      if end < q.len || (q.lastIn && end != q.len) then None
      else Some(q.(lastIn := true, len := end))
    else if end <= q.len then Some(q)
    else if q.lastIn then None
    else Some(q.(len := end))
  }

  /** `ip_frag_queue`. */
  function Place(q: Queue, f: Fragment): Verdict {
    var p := f.piece;
    match Measured(q, f)
    case None => Kill
    case Some(m) =>
      if p.data == [] then Kill
      else if Touches(m.frags, p.off, p.End()) then
        if Covered(m.frags, p.off, p.End()) == |p.data| then Duplicate(m) else Kill
      else Stored(Added(m, f))
  }

  function Added(q: Queue, f: Fragment): Queue {
    var p := f.piece;
    q.(frags := Insert(q.frags, p),
       meat := q.meat + |p.data|,
       mem := q.mem + |p.data| + FRAG_OVERHEAD,
       ecn := q.ecn + {f.ecn},
       head := if p.off == 0 then Some(f.head) else q.head,
       first := if p.off == 0 then Some(f.whole) else q.first)
  }

  predicate Whole(q: Queue) { q.head.Some? && q.lastIn && q.meat == q.len }

  /** `tos |= ecn` for an ECN field of 0 or 3. */
  function OrEcn(tos: Byte, ecn: int): Byte { if ecn == 3 then tos - tos % 4 + 3 else tos }

  /** Fragment 0's header with the ECN field set, the total length right and
      the fragment field and checksum zero. */
  function Zeroed(head: Bytes, len: nat, ecn: int): (z: Bytes)
    requires 20 <= |head| && len <= 65535
    ensures |z| == |head| && z[10] == 0 && z[11] == 0
    ensures forall k | 0 <= k < |head| && k !in {1, 2, 3, 6, 7, 10, 11} :: z[k] == head[k]
    ensures z[1] == OrEcn(head[1], ecn) && Be16(z[2], z[3]) == len && z[6] == 0 && z[7] == 0
  {
    head[1 := OrEcn(head[1], ecn)][2 := len / 256][3 := len % 256][6 := 0][7 := 0][10 := 0][11 := 0]
  }

  /** That header with its checksum, over the whole payload. */
  function Rebuilt(head: Bytes, payload: Bytes, ecn: int): Bytes
    requires |head| >= 20 && |head| + |payload| <= 65535
  {
    var z := Zeroed(head, |head| + |payload|, ecn);
    var c := Csum.Checksum(z);
    z[10 := c / 256][11 := c % 256] + payload
  }

  function Reassemble(q: Queue): Option<Bytes>
    requires q.head.Some? && |q.head.value| >= 20 && SumLen(q.frags) == q.len
  {
    ConcatLength(q.frags);
    match EcnOf(q.ecn)
    case None => None
    case Some(ecn) =>
      if |q.head.value| + q.len > 65535 then None
      else Some(Rebuilt(q.head.value, Concat(q.frags), ecn))
  }

  function Settle(t: Table, key: Key, v: Verdict): Step
    requires key in t.queues
    requires v.Stored? && Whole(v.q) ==> |v.q.head.value| >= 20 && SumLen(v.q.frags) == v.q.len
  {
    var gone := t.(queues := t.queues - {key}, mem := t.mem - t.queues[key].mem);
    match v
    case Kill => Step(gone.(fails := t.fails + 1), Dropped)
    case Duplicate(q) => Step(t.(queues := t.queues[key := q]), Dropped)
    case Stored(q) =>
      if !Whole(q) then
        Step(t.(queues := t.queues[key := q], mem := t.mem - t.queues[key].mem + q.mem), Pending)
      else
        match Reassemble(q)
        case None => Step(gone.(fails := t.fails + 1), Dropped)
        case Some(ip) => Step(gone.(oks := t.oks + 1), Complete(ip))
  }

  /** The fragment into its queue, and what follows. */
  function Resolve(t: Table, f: Fragment): Step
    requires f.key in t.queues && QueueOk(t.queues[f.key]) && Sane(f)
  {
    PlaceOk(t.queues[f.key], f);
    Settle(t, f.key, Place(t.queues[f.key], f))
  }

  /** `ip_defrag` for one fragment. */
  function Input(t: Table, f: Fragment, now: nat): (s: Step)
    requires TableOk(t) && Sane(f)
    ensures TableOk(s.table)
  {
    if t.mem > HIGH_THRESH then Step(t.(fails := t.fails + 1), Dropped)
    else
      var a := Admit(t, f.key, now);
      AdmitOk(t, f.key, now);
      SettleOk(t, a, f);
      Resolve(a, f)
  }

  /** `ip_expire`: every queue past its time goes. */
  ghost function Expire(t: Table, now: nat): Table {
    var due := Due(t, now);
    t.(queues := t.queues - due, mem := Mem(t.queues - due),
       fails := t.fails + |due|, timeouts := t.timeouts + |due|)
  }

  /** The queues among `ks` whose fragment 0 came: their senders are owed a
      Time Exceeded. */
  ghost function Owed(qs: map<Key, Queue>, ks: set<Key>): set<Key> {
    set k | k in ks && k in qs && qs[k].first.Some?
  }

  ghost function Due(t: Table, now: nat): set<Key> {
    set k | k in t.queues && now >= t.queues[k].expires
  }

  // ── The invariant ────────────────────────────────────────────────────

  /** Nonempty, by offset, never overlapping. */
  ghost predicate Ordered(fs: seq<Piece>) {
    && (forall i | 0 <= i < |fs| :: fs[i].data != [])
    && (forall i, j | 0 <= i < j < |fs| :: fs[i].End() <= fs[j].off)
  }

  ghost predicate Within(fs: seq<Piece>, len: nat) {
    forall i | 0 <= i < |fs| :: fs[i].End() <= len
  }

  ghost predicate QueueOk(q: Queue) {
    var ok :=
      && Ordered(q.frags) && Within(q.frags, q.len)
      && q.meat == SumLen(q.frags)
      && q.mem == q.meat + 256 * |q.frags|
      && (q.head.Some? <==> q.frags != [] && q.frags[0].off == 0)
      && (q.first.Some? <==> q.head.Some?)
      && (q.head.Some? ==> |q.head.value| >= 20);
    ok
  }

  /** What one fragment costs at most: the largest payload and the overhead. */
  const COST_MAX: nat := 65535 - 20 + FRAG_OVERHEAD

  /** Queues hold something, the table's memory is their exact sum, and it
      exceeds the threshold by at most one fragment. */
  ghost predicate TableOk(t: Table) {
    var ok :=
      && (forall k | k in t.queues :: QueueOk(t.queues[k]) && t.queues[k].frags != [])
      && t.mem == Mem(t.queues)
      && t.mem <= HIGH_THRESH + COST_MAX;
    ok
  }

  ghost function Mems(qs: map<Key, Queue>): map<Key, nat> { map k | k in qs :: qs[k].mem }

  ghost function Mem(qs: map<Key, Queue>): nat { MapSum(Mems(qs)) }

  lemma MemSet(qs: map<Key, Queue>, key: Key, q: Queue)
    ensures Mem(qs[key := q]) == Mem(qs - {key}) + q.mem
    ensures key in qs ==> Mem(qs) == Mem(qs - {key}) + qs[key].mem
  {
    MapSumUpdate(Mems(qs), key, q.mem);
    assert Mems(qs[key := q]) == Mems(qs)[key := q.mem];
    assert Mems(qs - {key}) == Mems(qs) - {key};
    if key in qs { MapSumRemove(Mems(qs), key); }
  }

  lemma ConcatLength(fs: seq<Piece>)
    ensures |Concat(fs)| == SumLen(fs)
  {
  }

  lemma RevisedOk(q: Queue, rid: nat, now: nat)
    requires QueueOk(q)
    ensures QueueOk(Revised(q, rid, now)) && Revised(q, rid, now).mem <= q.mem
  {
  }

  lemma AdmitMem(t: Table, key: Key, now: nat)
    requires TableOk(t)
    ensures var a := Admit(t, key, now);
      a.queues - {key} == t.queues - {key} && a.mem == Mem(a.queues)
  {
    var a := Admit(t, key, now);
    MemSet(t.queues, key, a.queues[key]);
    MapUpdateMinus(t.queues, key, a.queues[key]);
  }

  lemma AdmitOk(t: Table, key: Key, now: nat)
    requires TableOk(t)
    ensures var a := Admit(t, key, now);
      && key in a.queues && QueueOk(a.queues[key])
      && a.mem == Mem(a.queues) <= t.mem
      && a.queues - {key} == t.queues - {key}
  {
    var q := if key in t.queues then t.queues[key] else FreshQueue(0, now);
    assert QueueOk(q);
    RevisedOk(q, CountPeer(t.peers, key.src, now)[key.src].rid, now);
    AdmitMem(t, key, now);
  }

  lemma {:induction false} InsertMembers(fs: seq<Piece>, p: Piece)
    ensures SumLen(Insert(fs, p)) == SumLen(fs) + |p.data|
    ensures |Insert(fs, p)| == |fs| + 1
    ensures Insert(fs, p)[0].off == if fs == [] then p.off else Min(p.off, fs[0].off)
    ensures forall f :: f in Insert(fs, p) <==> f in fs || f == p
  {
    var r := Insert(fs, p);
    if fs == [] || p.off < fs[0].off {
      assert r[1..] == fs;
      assert r == [p] + fs;
    } else {
      InsertMembers(fs[1..], p);
      assert r[1..] == Insert(fs[1..], p);
      assert fs == [fs[0]] + fs[1..];
    }
  }

  lemma OrderedCons(f: Piece, rest: seq<Piece>)
    requires f.data != [] && Ordered(rest) && forall g | g in rest :: f.End() <= g.off
    ensures Ordered([f] + rest)
  {
    var r := [f] + rest;
    assert forall i | 1 <= i < |r| :: r[i] == rest[i - 1] && r[i] in rest;
  }

  lemma OrderedTail(fs: seq<Piece>)
    requires Ordered(fs) && fs != []
    ensures Ordered(fs[1..]) && forall g | g in fs[1..] :: fs[0].End() <= g.off
  {
    assert forall i | 0 <= i < |fs| - 1 :: fs[1..][i] == fs[i + 1];
  }

  lemma {:induction false} InsertOk(fs: seq<Piece>, p: Piece)
    requires Ordered(fs) && p.data != [] && !Touches(fs, p.off, p.End())
    ensures Ordered(Insert(fs, p))
  {
    if fs != [] {
      OrderedTail(fs);
      if p.off < fs[0].off {
        assert p.End() <= fs[0].off;
        OrderedCons(p, fs);
      } else {
        assert fs[0].End() <= p.off;
        assert forall i | 0 <= i < |fs| - 1 :: fs[1..][i] == fs[i + 1];
        InsertOk(fs[1..], p);
        InsertMembers(fs[1..], p);
        OrderedCons(fs[0], Insert(fs[1..], p));
      }
    }
  }

  lemma PlaceOk(q: Queue, f: Fragment)
    requires Sane(f) && QueueOk(q)
    ensures var v := Place(q, f);
      && (v.Duplicate? ==> QueueOk(v.q) && q.frags != [] && v.q == q.(len := v.q.len, lastIn := v.q.lastIn))
      && (v.Stored? ==> QueueOk(v.q) && v.q.frags != [] && v.q.mem == q.mem + |f.piece.data| + FRAG_OVERHEAD)
  {
    if Place(q, f).Stored? {
      AddedOk(Measured(q, f).value, f);
    }
  }

  lemma AddedOk(q: Queue, f: Fragment)
    requires Sane(f) && QueueOk(q) && f.piece.data != [] && f.piece.End() <= q.len
    requires !Touches(q.frags, f.piece.off, f.piece.End())
    ensures QueueOk(Added(q, f))
  {
    InsertOk(q.frags, f.piece);
    InsertMembers(q.frags, f.piece);
    var fs := Insert(q.frags, f.piece);
    forall i | 0 <= i < |fs| ensures fs[i].End() <= q.len {
      assert fs[i] in fs;
    }
  }

  lemma SettleOk(t: Table, a: Table, f: Fragment)
    requires TableOk(t) && t.mem <= HIGH_THRESH && Sane(f)
    requires f.key in a.queues && QueueOk(a.queues[f.key])
    requires a.mem == Mem(a.queues) <= t.mem && a.queues - {f.key} == t.queues - {f.key}
    ensures TableOk(Resolve(a, f).table)
  {
    var key := f.key;
    PlaceOk(a.queues[key], f);
    var v := Place(a.queues[key], f);
    OthersOk(t, a, key);
    if v.Kill? || (v.Stored? && Whole(v.q)) {
      MemSet(a.queues, key, a.queues[key]);
    } else {
      SetOk(a, key, v.q);
    }
  }

  lemma SetOk(a: Table, key: Key, q: Queue)
    requires key in a.queues && a.mem == Mem(a.queues) && QueueOk(q) && q.frags != []
    requires forall k | k in a.queues && k != key :: QueueOk(a.queues[k]) && a.queues[k].frags != []
    requires a.mem - a.queues[key].mem + q.mem <= HIGH_THRESH + COST_MAX
    ensures TableOk(a.(queues := a.queues[key := q], mem := a.mem - a.queues[key].mem + q.mem))
  {
    MemSet(a.queues, key, q);
  }

  lemma OthersOk(t: Table, a: Table, key: Key)
    requires TableOk(t) && a.queues - {key} == t.queues - {key}
    ensures forall k | k in a.queues && k != key :: QueueOk(a.queues[k]) && a.queues[k].frags != []
  {
    forall k | k in a.queues && k != key
      ensures QueueOk(a.queues[k]) && a.queues[k].frags != []
    {
      assert k in a.queues - {key} && (t.queues - {key})[k] == a.queues[k];
    }
  }

  /** Expiry keeps the accounting exact, drops nothing that is not due, and
      leaves nothing due. */
  lemma ExpireOk(t: Table, now: nat)
    requires TableOk(t)
    ensures var e := Expire(t, now);
      && TableOk(e)
      && (forall k :: k in e.queues <==> k in t.queues && now < t.queues[k].expires)
      && (forall k | k in e.queues :: e.queues[k] == t.queues[k])
  {
    MemMonotone(t.queues, Expire(t, now).queues);
  }

  lemma {:induction false} MemMonotone(qs: map<Key, Queue>, sub: map<Key, Queue>)
    requires forall k | k in sub :: k in qs && sub[k] == qs[k]
    ensures Mem(sub) <= Mem(qs)
    decreases |qs|
  {
    if k :| k in qs && k !in sub {
      MemSet(qs, k, qs[k]);
      MemMonotone(qs - {k}, sub);
    } else {
      assert qs == sub;
    }
  }

  // ── Disjoint pieces that add up tile their range ─────────────────────

  ghost predicate Hit(fs: seq<Piece>, p: nat) {
    exists i :: 0 <= i < |fs| && fs[i].off <= p < fs[i].End()
  }

  lemma HitStep(fs: seq<Piece>, p: nat)
    requires fs != []
    ensures Hit(fs, p) <==> (fs[0].off <= p < fs[0].End()) || Hit(fs[1..], p)
  {
    assert forall i | 0 <= i < |fs| - 1 :: fs[1..][i] == fs[i + 1];
    if i :| 0 <= i < |fs| && fs[i].off <= p < fs[i].End() {
      assert i == 0 || fs[1..][i - 1] == fs[i];
    }
  }

  lemma CoveredFrom(fs: seq<Piece>, a: nat, e: nat, b: nat)
    requires a <= e <= b && forall i | 0 <= i < |fs| :: e <= fs[i].off
    ensures Covered(fs, a, b) == Covered(fs, e, b)
  {
  }

  lemma CoveredPast(fs: seq<Piece>, a: nat, b: nat)
    requires forall i | 0 <= i < |fs| :: b <= fs[i].off
    ensures Covered(fs, a, b) == 0
  {
  }

  /** Pieces that do not overlap cover a range exactly when the bytes they
      share with it add up to its length. */
  lemma {:induction false} CoveredIff(fs: seq<Piece>, a: nat, b: nat)
    requires Ordered(fs) && a <= b
    ensures Covered(fs, a, b) <= b - a
    ensures Covered(fs, a, b) == b - a <==> forall p | a <= p < b :: Hit(fs, p)
    decreases |fs|
  {
    if fs == [] {
      if a < b { assert !Hit(fs, a); }
      return;
    }
    var f, rest := fs[0], fs[1..];
    assert forall i | 0 <= i < |rest| :: rest[i] == fs[i + 1];
    forall p: nat ensures Hit(fs, p) <==> (f.off <= p < f.End()) || Hit(rest, p) { HitStep(fs, p); }
    var e := Max(a, Min(f.End(), b));
    CoveredIff(rest, e, b);
    if f.End() <= b {
      if a < f.End() { CoveredFrom(rest, a, e, b); }
    } else {
      CoveredPast(rest, a, b);
    }
    if a < b && f.off > a && a < f.End() {
      assert !Hit(rest, a) && !Hit(fs, a);
    }
    assert forall p | e <= p < b :: Hit(fs, p) <==> Hit(rest, p);
  }

  lemma SumLenCovered(fs: seq<Piece>, len: nat)
    requires Within(fs, len)
    ensures SumLen(fs) == Covered(fs, 0, len)
  {
    if fs != [] {
      assert forall i | 0 <= i < |fs| - 1 :: fs[1..][i] == fs[i + 1];
      SumLenCovered(fs[1..], len);
    }
  }

  /** Disjoint intervals inside [0, len) whose total length is len tile it. */
  lemma TileIff(fs: seq<Piece>, len: nat)
    requires Ordered(fs) && Within(fs, len)
    ensures SumLen(fs) == len <==> forall p | 0 <= p < len :: Hit(fs, p)
  {
    SumLenCovered(fs, len);
    CoveredIff(fs, 0, len);
  }

  /** The pieces cover `[base, len)`, beginning at `base`. */
  ghost predicate Tiles(fs: seq<Piece>, base: nat, len: nat) {
    && Ordered(fs) && Within(fs, len) && base <= len
    && (forall i | 0 <= i < |fs| :: base <= fs[i].off)
    && (forall p | base <= p < len :: Hit(fs, p))
  }

  /** The first of them begins at `base`; the others cover what it leaves. */
  lemma TilesTail(fs: seq<Piece>, base: nat, len: nat)
    requires Tiles(fs, base, len) && fs != []
    ensures fs[0].off == base && Tiles(fs[1..], fs[0].End(), len)
  {
    hide Hit;
    var f, rest := fs[0], fs[1..];
    OrderedTail(fs);
    assert forall i | 0 <= i < |rest| :: rest[i] == fs[i + 1];
    assert Hit(fs, base);
    HitStep(fs, base);
    if f.off > base {
      NoneBefore(rest, base);
    }
    forall p | f.End() <= p < len ensures Hit(rest, p) {
      assert Hit(fs, p);
      HitStep(fs, p);
    }
  }

  lemma NoneBefore(fs: seq<Piece>, p: nat)
    requires forall i | 0 <= i < |fs| :: p < fs[i].off
    ensures !Hit(fs, p)
  {
  }

  lemma TilesNone(base: nat, len: nat)
    requires Tiles([], base, len)
    ensures base == len
  {
    assert base < len ==> Hit([], base);
  }

  /** Tiling pieces laid end to end: each lands at its own offset. */
  lemma {:induction false} ConcatPlaces(fs: seq<Piece>, base: nat, len: nat)
    requires Tiles(fs, base, len)
    ensures |Concat(fs)| == len - base
    ensures forall p | p in fs :: Carries(Concat(fs), base, p)
    decreases |fs|
  {
    hide Tiles;
    if fs == [] {
      TilesNone(base, len);
      return;
    }
    var f, rest := fs[0], fs[1..];
    TilesTail(fs, base, len);
    TilesBelow(rest, f.End(), len);
    ConcatPlaces(rest, f.End(), len);
    forall p | p in fs ensures Carries(Concat(fs), base, p) {
      if p != f {
        assert p in rest;
        CarriesPast(f, Concat(rest), p);
      }
    }
  }

  lemma TilesBelow(fs: seq<Piece>, base: nat, len: nat)
    requires Tiles(fs, base, len)
    ensures base <= len
  {
  }

  lemma CarriesPast(f: Piece, bytes: Bytes, p: Piece)
    requires Carries(bytes, f.End(), p)
    ensures Carries(f.data + bytes, f.off, p)
  {
    SliceRight(f.data, bytes, p.off - f.off, p.End() - f.off);
  }

  /** The bytes, which begin at offset `base`, hold the piece at its offset. */
  ghost predicate Carries(bytes: Bytes, base: nat, p: Piece) {
    base <= p.off && p.End() - base <= |bytes| && bytes[p.off - base..p.End() - base] == p.data
  }

  /** The rebuilt header: right length, no fragment field, a checksum that
      folds to 0xFFFF, the rest of fragment 0's header and the payload as is. */
  lemma RebuiltHeader(head: Bytes, payload: Bytes, ecn: int)
    requires |head| >= 20 && |head| + |payload| <= 65535
    ensures var out := Rebuilt(head, payload, ecn); var h := |head|;
      && |out| == h + |payload| == Be16(out[2], out[3])
      && out[h..] == payload
      && out[6] == 0 && out[7] == 0
      && out[1] == OrEcn(head[1], ecn)
      && Csum.Ones(Csum.WordSum(out[..h])) == 0xFFFF
      && (forall i | 0 <= i < h && i !in {1, 2, 3, 6, 7, 10, 11} :: out[i] == head[i])
  {
    var z: Bytes := Zeroed(head, |head| + |payload|, ecn);
    var c := Csum.Checksum(z);
    Csum.StoredChecksumFolds(z, 10, c);
    var out := Rebuilt(head, payload, ecn);
    assert out[..|head|] == (z[10 := c / 256][11 := c % 256]);
    assert out[|head|..] == payload;
  }

  lemma RebuiltAs(head: Bytes, payload: Bytes, ecn: int, hi: Byte, lo: Byte)
    requires |head| >= 20 && |head| + |payload| <= 65535
    requires Csum.Checksum(Zeroed(head, |head| + |payload|, ecn)) == Be16(hi, lo)
    ensures Rebuilt(head, payload, ecn) == Zeroed(head, |head| + |payload|, ecn)[10 := hi][11 := lo] + payload
  {
    assert Be16(hi, lo) / 256 == hi && Be16(hi, lo) % 256 == lo;
  }

  /** A datagram with an h-byte header that checks out, right length, no
      fragment field, each piece at its own offset and no byte without one. */
  ghost predicate Laid(out: Bytes, h: nat, pieces: seq<Piece>) {
    && 20 <= h <= |out| == Be16(out[2], out[3])
    && out[6] == 0 && out[7] == 0
    && Csum.Ones(Csum.WordSum(out[..h])) == 0xFFFF
    && (forall p | p in pieces :: PieceIn(out, h, p))
    && (forall i | 0 <= i < |out| - h :: Hit(pieces, i))
  }

  lemma ReassembleLaid(q: Queue)
    requires QueueOk(q) && Whole(q)
    ensures Reassemble(q).Some? <==> (0 in q.ecn ==> q.ecn == {0}) && |q.head.value| + q.len <= 65535
    ensures Reassemble(q).Some? ==> Laid(Reassemble(q).value, |q.head.value|, q.frags)
  {
    if Reassemble(q).None? {
      return;
    }
    var head, payload := q.head.value, Concat(q.frags);
    ConcatLength(q.frags);
    RebuiltHeader(head, payload, EcnOf(q.ecn).value);
    var out, h := Reassemble(q).value, |head|;
    assert out == out[..h] + payload;
    TileIff(q.frags, q.len);
    forall p | p in q.frags ensures PieceIn(out, h, p) {
      PayloadAt(q, p);
      SliceRight(out[..h], payload, h + p.off, h + p.End());
    }
  }

  ghost predicate PieceIn(out: Bytes, h: nat, p: Piece) {
    h + p.End() <= |out| && out[h + p.off..h + p.End()] == p.data
  }

  lemma PayloadAt(q: Queue, p: Piece)
    requires QueueOk(q) && q.meat == q.len && p in q.frags
    ensures p.End() <= |Concat(q.frags)| == q.len && Concat(q.frags)[p.off..p.End()] == p.data
  {
    TileIff(q.frags, q.len);
    ConcatPlaces(q.frags, 0, q.len);
    assert Carries(Concat(q.frags), 0, p);
  }

  /** Every `Complete` result, whatever was sent: the fragment and all those
      accepted before it stand at their own offsets behind fragment 0's
      header and no byte is missing. */
  lemma CompleteHasNoGap(t: Table, f: Fragment, now: nat)
    requires TableOk(t) && Sane(f) && Input(t, f, now).result.Complete?
    ensures var q := Admit(t, f.key, now).queues[f.key];
      var all := Insert(q.frags, f.piece);
      && (forall p :: p in all <==> p in q.frags || p == f.piece)
      && exists h :: Laid(Input(t, f, now).result.ip, h, all)
  {
    var q := Admit(t, f.key, now).queues[f.key];
    AdmitOk(t, f.key, now);
    PlaceOk(q, f);
    InsertOk(q.frags, f.piece);
    InsertMembers(q.frags, f.piece);
    ReassembleLaid(Place(q, f).q);
  }
}
