/** Neighbours: states, queues, and what is recorded of each next hop
    (net/src/neigh.rs; RFC 826, states as in section 7.3 of RFC 4861). Times
    are in ticks of 10 ms. */
module Neigh {
  import opened Util

  const HZ: nat := 100
  const UCAST_PROBES: nat := 3
  const MCAST_PROBES: nat := 3
  const RETRANS_TIME: nat := 100
  const BASE_REACHABLE_TIME: nat := 3000
  const DELAY_PROBE_TIME: nat := 500
  const GC_STALETIME: nat := 6000
  const QUEUE_LEN_BYTES: nat := 212_992
  const LOCKTIME: nat := 100
  const GC_INTERVAL: nat := 3000
  const GC_THRESH1: nat := 128
  const GC_THRESH2: nat := 512
  const GC_THRESH3: nat := 1024

  type Ip = nat
  type Ha = nat

  datatype Packet = Packet(truesize: nat, content: nat)

  datatype Nud = NoState | Incomplete | Reachable | Stale | Delay | Probe | Failed {
    predicate Valid() { this.Reachable? || this.Stale? || this.Delay? || this.Probe? }
    predicate InTimer() { this.Incomplete? || this.Reachable? || this.Delay? || this.Probe? }
  }

  function MaxProbes(s: Nud): nat { UCAST_PROBES + if s.Probe? then 0 else MCAST_PROBES }

  /** `since` is how many requests had gone out for it when it began to probe. */
  datatype Neighbour = Neighbour(
    state: Nud, ha: Ha, confirmed: nat, updated: nat, used: nat, probes: nat,
    timer: Option<nat>, queue: seq<Packet>, queueBytes: nat, since: nat)

  function Bytes(q: seq<Packet>): nat {
    if q == [] then 0 else Bytes(q[..|q| - 1]) + q[|q| - 1].truesize
  }

  lemma {:induction false} BytesFront(q: seq<Packet>)
    requires q != []
    ensures Bytes(q) == q[0].truesize + Bytes(q[1..])
  {
    if |q| > 1 {
      var init := q[..|q| - 1];
      BytesFront(init);
      assert q[1..][..|q| - 2] == init[1..];
    }
  }

  // ── Subsequences ─────────────────────────────────────────────────────

  /** `a` is `b` with some elements left out. */
  ghost predicate Sub<T(!new)>(a: seq<T>, b: seq<T>)
    decreases |b|
  {
    a == [] || (b != [] &&
      var init := b[..|b| - 1];
      (a[|a| - 1] == b[|b| - 1] && Sub(a[..|a| - 1], init)) || Sub(a, init))
  }

  lemma SubGrow<T(!new)>(a: seq<T>, b: seq<T>, x: T)
    requires Sub(a, b)
    ensures Sub(a + [x], b + [x]) && Sub(a, b + [x])
  {
    assert (a + [x])[..|a|] == a && (b + [x])[..|b|] == b;
  }

  /** Leaving out one element more. */
  lemma {:induction false} SubLess<T(!new)>(a: seq<T>, x: T, c: seq<T>, b: seq<T>)
    requires Sub(a + [x] + c, b)
    ensures Sub(a + c, b)
    decreases |b|
  {
    var all, less := a + [x] + c, a + c;
    if less == [] { return; }
    var init := b[..|b| - 1];
    if c == [] {
      assert all[..|all| - 1] == a == less;
      if !(all[|all| - 1] == b[|b| - 1] && Sub(all[..|all| - 1], init)) {
        SubLess(a, x, c, init);
      } else {
        assert init + [b[|b| - 1]] == b;
        SubGrow(less, init, b[|b| - 1]);
      }
    } else {
      var front := c[..|c| - 1];
      assert all[..|all| - 1] == a + [x] + front;
      assert less[..|less| - 1] == a + front;
      if all[|all| - 1] == b[|b| - 1] && Sub(all[..|all| - 1], init) {
        SubLess(a, x, front, init);
      } else {
        SubLess(a, x, c, init);
      }
    }
  }

  /** Leaving out a whole stretch more. */
  lemma {:induction false} SubCut<T(!new)>(a: seq<T>, m: seq<T>, c: seq<T>, b: seq<T>)
    requires Sub(a + m + c, b)
    ensures Sub(a + c, b)
    decreases |m|
  {
    if m == [] {
      assert a + m == a;
    } else {
      assert a + m + c == a + [m[0]] + (m[1..] + c);
      SubLess(a, m[0], m[1..] + c, b);
      assert a + (m[1..] + c) == a + m[1..] + c;
      SubCut(a, m[1..], c, b);
    }
  }

  // ── Records by next hop ──────────────────────────────────────────────

  /** The entries of a record that concern `ip`, in order. */
  function Of<T>(s: seq<(Ip, T)>, ip: Ip): seq<T> {
    if s == [] then []
    else
      var last := s[|s| - 1];
      Of(s[..|s| - 1], ip) + (if last.0 == ip then [last.1] else [])
  }

  lemma OfStep<T>(s: seq<(Ip, T)>, ip: Ip, x: T, k: Ip)
    ensures Of(s + [(ip, x)], k) == if k == ip then Of(s, k) + [x] else Of(s, k)
  {
    assert (s + [(ip, x)])[..|s|] == s;
  }

  function Packets(sent: seq<(Ha, Packet)>): seq<Packet> { seq(|sent|, i requires 0 <= i < |sent| => sent[i].1) }

  /** Everything about one next hop. */
  datatype Hop = Hop(
    entry: Option<Neighbour>,
    given: seq<Packet>,
    sent: seq<(Ha, Packet)>,
    errors: seq<Packet>,
    dropped: seq<Packet>,
    lost: seq<Packet>,
    asked: seq<Option<Ha>>,
    learnt: set<Ha>)

  /** Each packet given is sent, waiting, reported, dropped or lost, once; what is
      sent or waiting keeps its order. */
  ghost predicate Balanced(h: Hop, queue: seq<Packet>) {
    && multiset(h.given) == multiset(Packets(h.sent)) + multiset(queue) + multiset(h.errors) + multiset(h.dropped)
      + multiset(h.lost)
    && Sub(Packets(h.sent) + queue, h.given)
  }

  /** Packets and unicast requests go only to addresses learnt for the hop. */
  ghost predicate Directed(h: Hop) {
    && (forall i | 0 <= i < |h.sent| :: h.sent[i].0 in h.learnt)
    && (forall i | 0 <= i < |h.asked| :: h.asked[i].Some? ==> h.asked[i].value in h.learnt)
  }

  /** The requests since the entry began to probe. */
  ghost predicate Probing(n: Neighbour, asked: seq<Option<Ha>>) {
    && n.since <= |asked|
    && (n.state.Incomplete? ==>
          && 3 <= n.probes <= 6 && |asked| == n.since + n.probes - 3
          && forall i | n.since <= i < |asked| :: asked[i].None?)
    && (n.state.Probe? ==>
          && n.probes <= 3 && |asked| == n.since + n.probes
          && forall i | n.since <= i < |asked| :: asked[i].Some?)
  }

  ghost predicate EntryOk(n: Neighbour, h: Hop) {
    && (n.state.Valid() ==> n.ha in h.learnt)
    && (n.queue != [] ==> n.state.Incomplete?)
    && n.queueBytes == Bytes(n.queue) && (n.queueBytes <= 212_992 || |n.queue| == 1)
    && Probing(n, h.asked)
  }

  ghost predicate TimerOk(n: Neighbour) { n.timer.Some? <==> n.state.InTimer() }

  /** `fired`: its timer has just been taken down. */
  ghost predicate HopOk(h: Hop, fired: bool) {
    && Directed(h)
    && Balanced(h, if h.entry.Some? then h.entry.value.queue else [])
    && (h.entry.Some? ==> EntryOk(h.entry.value, h) && (fired || TimerOk(h.entry.value)))
  }

  // ── Resolution without an answer ─────────────────────────────────────

  /** An entry that asks and waits for an answer. */
  predicate Asking(h: Hop) { h.entry.Some? && (h.entry.value.state.Incomplete? || h.entry.value.state.Probe?) }

  /** Whom it asks: everybody, or the address it knows. */
  function Asks(n: Neighbour): Option<Ha> { if n.state.Probe? then Some(n.ha) else None }

  predicate Alike(a: Neighbour, b: Neighbour) {
    a.state == b.state && a.probes == b.probes && a.since == b.since && a.ha == b.ha && a.timer == b.timer
  }

  /** Nothing happened to its resolution. */
  ghost predicate Calm(was: Hop, h: Hop) {
    Asking(was) ==>
      h.entry.Some? && Alike(h.entry.value, was.entry.value) && h.asked == was.asked && h.errors == was.errors
  }

  /** Given up: failed, or already collected. */
  predicate Lost(h: Hop) { h.entry.None? || h.entry.value.state.Failed? }

  /** Its timer found no answer: one more request, broadcast while it is incomplete
      and unicast while it is probed, or, after three of them, failure and a
      report of what waited. A delay that was not confirmed ends in a probe. */
  ghost predicate Unheard(was: Hop, h: Hop, now: nat) {
    was.entry.Some? ==>
    var n := was.entry.value;
    && (Asking(was) && n.probes < MaxProbes(n.state) ==>
          && h.entry.Some? && Alike(h.entry.value, n.(probes := n.probes + 1, timer := Some(now + 100)))
          && h.asked == was.asked + [Asks(n)] && h.errors == was.errors)
    && (Asking(was) && n.probes >= MaxProbes(n.state) ==>
          Lost(h) && h.asked == was.asked && |h.asked| == n.since + 3 && h.errors == was.errors + n.queue)
    && (n.state.Delay? && now > n.confirmed + 500 ==>
          && h.entry.Some? && h.asked == was.asked + [Some(n.ha)] && h.errors == was.errors
          && h.entry.value.state.Probe? && h.entry.value.probes == 1 && h.entry.value.ha == n.ha
          && h.entry.value.since == |was.asked| && h.entry.value.timer == Some(now + 100))
  }

  /** A silent hop begins to be resolved. */
  ghost predicate Begun(was: Hop, h: Hop, now: nat) {
    was.entry.None? || was.entry.value.state.NoState? || was.entry.value.state.Failed? ==>
      h.entry.Some? ==>
        && h.entry.value.state.Incomplete? && h.entry.value.probes == 4 && h.entry.value.since == |was.asked|
        && h.entry.value.timer == Some(now + 100) && h.asked == was.asked + [None] && h.errors == was.errors
  }

  // ── What may happen to a next hop ────────────────────────────────────

  lemma PacketsGrow(sent: seq<(Ha, Packet)>, ha: Ha, p: Packet)
    ensures Packets(sent + [(ha, p)]) == Packets(sent) + [p]
  {
  }

  /** A packet goes out at once. */
  lemma HopSend(h: Hop, ha: Ha, p: Packet)
    requires HopOk(h, false) && h.entry.Some? && h.entry.value.queue == [] && ha in h.learnt
    ensures HopOk(h.(given := h.given + [p], sent := h.sent + [(ha, p)]), false)
  {
    hide Balanced;
    BalancedSend(h, ha, p);
  }

  lemma BalancedSend(h: Hop, ha: Ha, p: Packet)
    requires Balanced(h, [])
    ensures Balanced(h.(given := h.given + [p], sent := h.sent + [(ha, p)]), [])
  {
    hide Sub, Packets;
    var s := Packets(h.sent);
    PacketsGrow(h.sent, ha, p);
    assert s + [] == s && s + [p] + [] == s + [p];
    SubGrow(s, h.given, p);
  }

  /** A packet is refused. */
  lemma HopDrop(h: Hop, p: Packet, fired: bool)
    requires HopOk(h, fired)
    ensures HopOk(h.(given := h.given + [p], dropped := h.dropped + [p]), fired)
  {
    SubGrow(Packets(h.sent) + (if h.entry.Some? then h.entry.value.queue else []), h.given, p);
  }

  function Evict(n: Neighbour): Neighbour
    requires n.queue != []
  {
    n.(queue := n.queue[1..], queueBytes := if n.queueBytes >= n.queue[0].truesize then n.queueBytes - n.queue[0].truesize else 0)
  }

  /** The oldest waiting packet makes room. */
  lemma HopEvict(h: Hop)
    requires HopOk(h, false) && h.entry.Some? && h.entry.value.queue != []
    ensures h.entry.value.queueBytes >= h.entry.value.queue[0].truesize
    ensures HopOk(h.(entry := Some(Evict(h.entry.value)), dropped := h.dropped + [h.entry.value.queue[0]]), false)
  {
    hide Sub;
    var q := h.entry.value.queue;
    BytesFront(q);
    var s := Packets(h.sent);
    assert q == [q[0]] + q[1..];
    assert s + q == s + [q[0]] + q[1..];
    SubCut(s, [q[0]], q[1..], h.given);
  }

  /** A packet waits. */
  lemma HopQueue(h: Hop, p: Packet)
    requires HopOk(h, false) && h.entry.Some? && h.entry.value.state.Incomplete?
    requires h.entry.value.queue == [] || h.entry.value.queueBytes + p.truesize <= 212_992
    ensures var n := h.entry.value;
      HopOk(h.(entry := Some(n.(queue := n.queue + [p], queueBytes := n.queueBytes + p.truesize)), given := h.given + [p]), false)
  {
    hide Balanced, Packets;
    var q := h.entry.value.queue;
    assert (q + [p])[..|q|] == q;
    BalancedQueue(h, q, p);
    BalancedSame(h.(given := h.given + [p]), q + [p]);
  }

  lemma BalancedQueue(h: Hop, q: seq<Packet>, p: Packet)
    requires Balanced(h, q)
    ensures Balanced(h.(given := h.given + [p]), q + [p])
  {
    hide Sub;
    assert Packets(h.sent) + (q + [p]) == Packets(h.sent) + q + [p];
    SubGrow(Packets(h.sent) + q, h.given, p);
  }

  lemma BalancedSame(h: Hop, q: seq<Packet>)
    requires Balanced(h, q)
    ensures forall e :: Balanced(h.(entry := e), q)
  {
  }

  /** The queue to one link address. */
  function To(ha: Ha, q: seq<Packet>): seq<(Ha, Packet)> { seq(|q|, i requires 0 <= i < |q| => (ha, q[i])) }

  /** What waited goes out, in order. */
  lemma HopFlush(h: Hop, n: Neighbour, fired: bool)
    requires HopOk(h, fired) && h.entry.Some? && n.queue == [] && n.queueBytes == 0
    requires n.state.Valid() && !n.state.Probe? && n.ha in h.learnt && n.since <= |h.asked| && TimerOk(n)
    ensures HopOk(h.(entry := Some(n), sent := h.sent + To(n.ha, h.entry.value.queue)), false)
  {
    var q := h.entry.value.queue;
    assert Packets(h.sent + To(n.ha, q)) == Packets(h.sent) + q;
    assert Packets(h.sent) + q + [] == Packets(h.sent) + q;
  }

  /** What waited is reported. */
  lemma HopFail(h: Hop, n: Neighbour, fired: bool)
    requires HopOk(h, fired) && h.entry.Some? && n.queue == [] && n.queueBytes == 0 && n.state.Failed?
    requires n.since <= |h.asked| && TimerOk(n)
    ensures HopOk(h.(entry := Some(n), errors := h.errors + h.entry.value.queue), false)
  {
    var q, s := h.entry.value.queue, Packets(h.sent);
    assert s + q == s + q + [];
    SubCut(s, q, [], h.given);
  }

  /** The entry changes but not its queue. */
  lemma HopSet(h: Hop, n: Neighbour, fired: bool, fires: bool)
    requires HopOk(h, fired) && (h.entry.None? ==> n.queue == []) && (h.entry.Some? ==> n.queue == h.entry.value.queue)
    requires EntryOk(n, h) && (fires || TimerOk(n))
    ensures HopOk(h.(entry := Some(n)), fires)
  {
  }

  /** A request goes out. */
  lemma HopAsk(h: Hop, fired: bool)
    requires HopOk(h, fired) && h.entry.Some?
    requires (h.entry.value.state.Incomplete? && h.entry.value.probes < 6) || (h.entry.value.state.Probe? && h.entry.value.probes < 3)
    ensures var n := h.entry.value;
      HopOk(h.(entry := Some(n.(probes := n.probes + 1)),
               asked := h.asked + [if n.probes < 3 then Some(n.ha) else None]), fired)
  {
  }

  /** An idle entry is collected. */
  lemma HopGone(h: Hop)
    requires HopOk(h, false) && h.entry.Some? && h.entry.value.queue == []
    ensures HopOk(h.(entry := None), false)
  {
  }

  /** An address is heard. */
  lemma HopLearn(h: Hop, ha: Ha, fired: bool)
    requires HopOk(h, fired)
    ensures HopOk(h.(learnt := h.learnt + {ha}), fired)
  {
  }

  /** What a change of the entry has to leave alone, for it to be harmless. */
  ghost predicate Harmless(h: Hop, n: Neighbour) {
    h.entry.Some? &&
    var m := h.entry.value;
    && n.queue == m.queue && n.queueBytes == m.queueBytes && TimerOk(n)
    && (n.state.Valid() ==> n.ha in h.learnt)
    && (|| (n.state == m.state && n.probes == m.probes && n.since == m.since)
        || (m.state.Valid() && n.state.Valid() && !n.state.Probe? && n.since == m.since)
        || (m.state.Valid() && n.state.Probe? && n.probes == 0 && n.since == |h.asked|)
        || (!m.state.Incomplete? && n.state.Incomplete? && n.probes == 3 && n.since == |h.asked|))
  }

  lemma HopHarmless(h: Hop, n: Neighbour)
    requires HopOk(h, false) && Harmless(h, n)
    ensures HopOk(h.(entry := Some(n)), false)
  {
    HopSet(h, n, false, false);
  }

  /** What holds of every entry. */
  lemma EntryIs(h: Hop)
    requires HopOk(h, false) && h.entry.Some?
    ensures var n := h.entry.value;
      && TimerOk(n) && n.since <= |h.asked|
      && (n.state.Valid() ==> n.ha in h.learnt)
      && (!n.state.Incomplete? ==> n.queue == [] && n.queueBytes == 0)
      && (n.state.Incomplete? ==> |h.asked| == n.since + n.probes - 3 && 3 <= n.probes <= 6)
      && (n.state.Probe? ==> |h.asked| == n.since + n.probes && n.probes <= 3)
  {
  }

  /** A new entry. */
  lemma HopNew(h: Hop, n: Neighbour)
    requires HopOk(h, false) && h.entry.None?
    requires n.state.NoState? && n.timer.None? && n.queue == [] && n.queueBytes == 0 && n.since == 0
    ensures HopOk(h.(entry := Some(n)), false)
  {
    HopSet(h, n, false, false);
  }

  function Queued(h: Hop): seq<Packet> { if h.entry.Some? then h.entry.value.queue else [] }

  /** The entry goes and what waited in it is lost. */
  lemma HopForget(h: Hop)
    requires HopOk(h, false)
    ensures HopOk(h.(entry := None, lost := h.lost + Queued(h)), false)
  {
    var q, s := Queued(h), Packets(h.sent);
    assert s + q == s + q + [];
    SubCut(s, q, [], h.given);
  }

  /** Without its entry a hop is in balance exactly when nothing waited in it. */
  lemma HopWithout(h: Hop)
    requires HopOk(h, false)
    ensures HopOk(h.(entry := None), false) <==> (h.entry.Some? ==> h.entry.value.queue == [])
  {
    if h.entry.Some? && h.entry.value.queue != [] {
      var q := h.entry.value.queue;
      var none: seq<Packet> := [];
      var all := multiset(Packets(h.sent)) + multiset(q) + multiset(h.errors) + multiset(h.dropped) + multiset(h.lost);
      var less := multiset(Packets(h.sent)) + multiset(none) + multiset(h.errors) + multiset(h.dropped) + multiset(h.lost);
      assert |all| == |less| + |q|;
      assert all != less;
    }
  }
}
