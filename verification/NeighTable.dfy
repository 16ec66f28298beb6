/** The ARP table (`Table` of net/src/neigh.rs). */
module NeighTable {
  import opened Util
  import opened Neigh

  /** An ARP packet of Ethernet and IPv4 sizes. */
  datatype Arp = Arp(hrd: nat, pro: nat, op: nat, sha: Ha, sip: Ip, tha: Ha, tip: Ip)

  datatype Answer = Answer(ha: Ha, ip: Ip)

  const ARPOP_REQUEST: nat := 1
  const ARPOP_REPLY: nat := 2
  const BROADCAST: Ip := 0xFFFF_FFFF

  predicate IsMulticast(ip: Ip) { ip / 0x1000_0000 == 14 }

  predicate IsLoopback(ip: Ip) { ip / 0x100_0000 == 127 }

  /** Ethernet and IPv4, as `arp_process` wants them. */
  predicate Sound(arp: Arp) { (arp.hrd == 1 || arp.hrd == 6) && arp.pro == 0x0800 }

  predicate Request(arp: Arp) {
    Sound(arp) && arp.op == ARPOP_REQUEST && !IsMulticast(arp.tip) && !IsLoopback(arp.tip)
  }

  predicate ForUs(ip: Ip, ourIp: Ip) { ourIp != 0 && ip == ourIp }

  /** No valid source: `ip_route_input_noref` would refuse it. */
  predicate Martian(sip: Ip, ourIp: Ip) {
    IsMulticast(sip) || IsLoopback(sip) || sip == BROADCAST || ForUs(sip, ourIp)
  }

  /** How long an address counts as confirmed, drawn around the base time. */
  function RandReachTime(draw: nat): (t: nat)
    ensures 1500 <= t < 4500
  {
    draw % 3000 + 1500
  }

  ghost function LostAt(lost: map<Ip, seq<Packet>>, ip: Ip): seq<Packet> { if ip in lost then lost[ip] else [] }

  /** What has been lost once everything in `neighs` is forgotten. */
  ghost function Forgotten(neighs: map<Ip, Neighbour>, lost: map<Ip, seq<Packet>>): map<Ip, seq<Packet>> {
    map ip: Ip | ip in lost.Keys + neighs.Keys :: LostAt(lost, ip) + if ip in neighs then neighs[ip].queue else []
  }

  lemma ForgottenAt(neighs: map<Ip, Neighbour>, lost: map<Ip, seq<Packet>>, ip: Ip)
    ensures LostAt(Forgotten(neighs, lost), ip) == LostAt(lost, ip) + if ip in neighs then neighs[ip].queue else []
  {
  }

  lemma ForgottenIff(neighs: map<Ip, Neighbour>, lost: map<Ip, seq<Packet>>)
    ensures (forall ip: Ip :: LostAt(Forgotten(neighs, lost), ip) == LostAt(lost, ip))
            <==> forall ip | ip in neighs :: neighs[ip].queue == []
  {
    hide LostAt, Forgotten;
    forall ip: Ip
      ensures LostAt(Forgotten(neighs, lost), ip) == LostAt(lost, ip) <==> (ip in neighs ==> neighs[ip].queue == [])
    {
      ForgottenAt(neighs, lost, ip);
    }
  }

  ghost function Learnt(all: set<(Ip, Ha)>, ip: Ip): set<Ha> { set x | x in all && x.0 == ip :: x.1 }

  lemma LearntStep(all: set<(Ip, Ha)>, ip: Ip, ha: Ha, k: Ip)
    ensures Learnt(all + {(ip, ha)}, k) == if k == ip then Learnt(all, k) + {ha} else Learnt(all, k)
  {
    forall x | x in Learnt(all, k) ensures x in Learnt(all + {(ip, ha)}, k) {
      assert (k, x) in all + {(ip, ha)};
    }
    assert (ip, ha) in all + {(ip, ha)};
  }

  lemma {:induction false} MinusCount(m: map<Ip, Neighbour>, gone: set<Ip>)
    requires gone <= m.Keys
    ensures |m - gone| == |m| - |gone|
    decreases |gone|
  {
    if gone == {} {
      assert m - gone == m;
    } else {
      var ip :| ip in gone;
      var less := m - {ip};
      assert less.Keys == m.Keys - {ip};
      MinusCount(less, gone - {ip});
      assert less - (gone - {ip}) == m - gone;
    }
  }

  predicate Collectable(n: Neighbour, now: nat) {
    (n.state.Failed? || !(now - 5 * HZ <= n.updated <= now)) && n.timer.None? && n.queue == []
  }

  predicate Lowest(ip: Ip, ips: set<Ip>) { ip in ips && forall k | k in ips :: ip <= k }

  lemma {:induction false} LowestExists(ips: set<Ip>)
    requires ips != {}
    ensures exists ip :: Lowest(ip, ips)
  {
    var x :| x in ips;
    var rest := ips - {x};
    if rest == {} {
      assert forall k | k in ips :: k == x || k in rest;
      assert Lowest(x, ips);
    } else {
      LowestExists(rest);
      var y :| Lowest(y, rest);
      assert forall k | k in ips :: k == x || k in rest;
      assert Lowest(if x <= y then x else y, ips);
    }
  }

  /** The entries `neigh_forced_gc` drops: the lowest addresses first. */
  method Victims(neighs: map<Ip, Neighbour>, now: nat, most: nat) returns (victims: set<Ip>)
    ensures victims <= neighs.Keys && |victims| <= most
    ensures forall ip | ip in victims :: Collectable(neighs[ip], now)
    ensures |victims| < most ==> forall ip | ip in neighs && ip !in victims :: !Collectable(neighs[ip], now)
    ensures forall ip, k | ip in neighs && ip !in victims && Collectable(neighs[ip], now) && k in victims :: k < ip
  {
    hide Collectable;
    victims := {};
    var todo := neighs.Keys;
    while todo != {} && |victims| < most
      invariant todo <= neighs.Keys && victims <= neighs.Keys && |victims| <= most
      invariant forall ip | ip in victims :: Collectable(neighs[ip], now)
      invariant forall ip | ip in neighs && ip !in todo && ip !in victims :: !Collectable(neighs[ip], now)
      invariant forall ip, k | ip in todo && k in victims :: k < ip
      decreases todo
    {
      LowestExists(todo);
      var ip :| Lowest(ip, todo);
      if Collectable(neighs[ip], now) {
        victims := victims + {ip};
      }
      todo := todo - {ip};
    }
  }

  lemma Idle(neighs: map<Ip, Neighbour>, victims: set<Ip>, now: nat)
    requires victims <= neighs.Keys && forall ip | ip in victims :: Collectable(neighs[ip], now)
    ensures forall ip | ip in victims :: neighs[ip].timer.None?
  {
  }

  /** An entry as the periodic collector leaves it: used no earlier than it was
      confirmed. */
  function Refreshed(n: Neighbour, now: nat): Neighbour {
    if !n.state.InTimer() && n.used < n.confirmed <= now then n.(used := n.confirmed) else n
  }

  predicate Outdated(n: Neighbour, now: nat) {
    !n.state.InTimer() && (n.state.Failed? || now >= Refreshed(n, now).used + GC_STALETIME)
  }

  lemma HopRefreshed(h: Hop, now: nat)
    requires HopOk(h, false) && h.entry.Some?
    ensures HopOk(h.(entry := Some(Refreshed(h.entry.value, now))), false)
    ensures Outdated(h.entry.value, now) ==> HopOk(h.(entry := None), false)
  {
    EntryIs(h);
    HopHarmless(h, Refreshed(h.entry.value, now));
    if Outdated(h.entry.value, now) {
      HopGone(h);
    }
  }

  /** What the periodic collector may do to a hop. */
  ghost predicate Tidied(was: Hop, h: Hop, now: nat) {
    && h == was.(entry := h.entry)
    && (was.entry.None? ==> h.entry.None?)
    && (was.entry.Some? ==>
          if h.entry.None? then Outdated(was.entry.value, now)
          else h.entry.value == was.entry.value || h.entry.value == Refreshed(was.entry.value, now))
  }

  /** It leaves an entry that asks alone. */
  lemma TidiedCalm(was: Hop, h: Hop, now: nat)
    requires Tidied(was, h, now)
    ensures Calm(was, h) && h.asked == was.asked && h.errors == was.errors
    ensures h.entry.Some? ==> was.entry.Some? && h.entry.value.timer == was.entry.value.timer
  {
  }

  lemma TidiedFired(first: Hop, was: Hop, h: Hop, now: nat)
    requires Fired(first, was, now) && Tidied(was, h, now)
    ensures Fired(first, h, now) && Unheard(first, h, now)
  {
  }

  /** `retain` of `neigh_periodic_work`. */
  method Retain(neighs: map<Ip, Neighbour>, now: nat) returns (kept: map<Ip, Neighbour>)
    ensures kept.Keys == set ip | ip in neighs && !Outdated(neighs[ip], now)
    ensures forall ip | ip in kept :: kept[ip] == Refreshed(neighs[ip], now)
  {
    kept := map[];
    var todo := neighs.Keys;
    while todo != {}
      invariant todo <= neighs.Keys
      invariant forall ip :: ip in kept <==> ip in neighs && ip !in todo && !Outdated(neighs[ip], now)
      invariant forall ip | ip in kept :: kept[ip] == Refreshed(neighs[ip], now)
      decreases todo
    {
      var ip :| ip in todo;
      var n := neighs[ip];
      if n.state.InTimer() {
        kept := kept[ip := n];
      } else {
        if n.used < n.confirmed <= now {
          n := n.(used := n.confirmed);
        }
        if !(n.state.Failed? || now >= n.used + GC_STALETIME) {
          kept := kept[ip := n];
        }
      }
      todo := todo - {ip};
    }
  }

  /** The state after ARP gave `ha`: an unusable entry takes what is said; a usable
      one keeps its state on mere confirmation, and its address unless it may be
      overridden. */
  function Heard(was: Neighbour, ha: Ha, to: Nud, overr: bool): Nud {
    if !was.state.Valid() then to
    else if was.ha == ha then (if to.Stale? then was.state else to)
    else if overr then to
    else was.state
  }

  /** `neigh_timer_handler`, the state: what the entry becomes, with its timer if
      it has one again. */
  function Timed(n: Neighbour, now: nat, reachableTime: nat, asked: nat): Neighbour {
    match n.state
    case Reachable =>
      if now <= n.confirmed + reachableTime then Rearmed(n, n.confirmed + reachableTime, now)
      else if now <= n.used + DELAY_PROBE_TIME then Rearmed(n.(state := Delay, updated := now), now + DELAY_PROBE_TIME, now)
      else n.(state := Stale, updated := now, timer := None)
    case Delay =>
      if now <= n.confirmed + DELAY_PROBE_TIME then
        Rearmed(n.(state := Reachable, updated := now), n.confirmed + reachableTime, now)
      else Rearmed(n.(state := Probe, updated := now, probes := 0, since := asked), now + RETRANS_TIME, now)
    case _ => Rearmed(n, now + RETRANS_TIME, now)
  }

  function Rearmed(n: Neighbour, next: nat, now: nat): Neighbour { n.(timer := Some(Max(next, now + 1))) }

  /** A hop after its timer: failed, or again with or without a request. */
  ghost function TimedHop(h: Hop, n: Neighbour, now: nat): Hop
    requires h.entry.Some?
  {
    if !n.state.Incomplete? && !n.state.Probe? then h.(entry := Some(n))
    else if n.probes < MaxProbes(n.state) then
      h.(entry := Some(n.(probes := n.probes + 1)), asked := h.asked + [if n.probes < 3 then Some(n.ha) else None])
    else
      var m := h.entry.value;
      h.(entry := Some(m.(state := Failed, timer := None, updated := now, queue := [], queueBytes := 0)),
         errors := h.errors + m.queue)
  }

  /** Its timer fired and is not due any more. */
  ghost predicate Fired(was: Hop, h: Hop, now: nat) {
    Unheard(was, h, now) && (h.entry.Some? && h.entry.value.timer.Some? ==> now < h.entry.value.timer.value)
  }

  lemma TimedOk(h: Hop, now: nat, reachableTime: nat)
    requires HopOk(h, false) && h.entry.Some? && h.entry.value.timer.Some?
    ensures var n := Timed(h.entry.value, now, reachableTime, |h.asked|);
      && Unheard(h, TimedHop(h, n, now), now)
      && ((n.state.Incomplete? || n.state.Probe? ==> n.probes < MaxProbes(n.state)) ==> Harmless(h, n))
      && (n.timer.Some? ==> now < n.timer.value)
      && (h.entry.value.state.Reachable? || h.entry.value.state.Delay? ==>
            && n.state == Timed(h.entry.value, now, reachableTime, 0).state && n.ha == h.entry.value.ha
            && (n.state.Probe? ==> n.probes == 0) && !n.state.Incomplete?)
      && (n.state.Incomplete? ==> n.ha == h.entry.value.ha) && !n.state.Failed?
  {
    hide HopOk;
    EntryIs(h);
  }

  class Table {
    var neighs: map<Ip, Neighbour>
    var reachableTime: nat
    var lastRand: nat
    var lastFlush: nat
    var nextGc: nat
    var drops: nat

    var sent: seq<(Ip, (Ha, Packet))>
    var solicit: seq<(Ip, Option<Ha>)>
    var errors: seq<(Ip, Packet)>

    // What was given to `output`, what `drops` counts, what waited when the table was
    // flushed, and what ARP told.
    ghost var given: seq<(Ip, Packet)>
    ghost var dropped: seq<(Ip, Packet)>
    ghost var lost: map<Ip, seq<Packet>>
    ghost var learnt: set<(Ip, Ha)>

    ghost function At(ip: Ip): Hop
      reads `neighs, `given, `sent, `errors, `dropped, `lost, `solicit, `learnt
    {
      Hop(if ip in neighs then Some(neighs[ip]) else None,
          Of(given, ip), Of(sent, ip), Of(errors, ip), Of(dropped, ip), LostAt(lost, ip), Of(solicit, ip), Learnt(learnt, ip))
    }

    /** `fired` is the entry whose timer has just been taken down. */
    ghost predicate AllOk(fired: Option<Ip>)
      reads `neighs, `given, `sent, `errors, `dropped, `lost, `solicit, `learnt
    {
      forall ip: Ip :: HopOk(At(ip), fired == Some(ip))
    }

    ghost predicate Valid()
      reads `neighs, `given, `sent, `errors, `dropped, `lost, `solicit, `learnt, `drops
    {
      AllOk(None) && drops == |dropped|
    }

    twostate predicate Rest(ip: Ip)
      reads `neighs, `given, `sent, `errors, `dropped, `lost, `solicit, `learnt
    {
      forall k: Ip | k != ip :: At(k) == old(At(k))
    }

    constructor ()
      ensures Valid() && neighs == map[] && given == [] && sent == [] && errors == [] && solicit == [] && drops == 0
    {
      neighs, reachableTime, lastRand, lastFlush, nextGc, drops := map[], BASE_REACHABLE_TIME, 0, 0, GC_INTERVAL, 0;
      sent, solicit, errors, given, dropped, lost, learnt := [], [], [], [], [], map[], {};
    }

    // ── Records ────────────────────────────────────────────────────────

    method Send(ip: Ip, ha: Ha, p: Packet)
      modifies `sent
      ensures sent == old(sent) + [(ip, (ha, p))]
      ensures Rest(ip) && At(ip) == old(At(ip)).(sent := old(At(ip)).sent + [(ha, p)])
    {
      forall k: Ip {
        OfStep(sent, ip, (ha, p), k);
      }
      sent := sent + [(ip, (ha, p))];
    }

    method SetEntry(ip: Ip, n: Neighbour)
      modifies `neighs
      ensures neighs == old(neighs)[ip := n]
      ensures Rest(ip) && At(ip) == old(At(ip)).(entry := Some(n))
    {
      neighs := neighs[ip := n];
    }

    ghost method Give(ip: Ip, p: Packet)
      modifies `given
      ensures given == old(given) + [(ip, p)]
      ensures Rest(ip) && At(ip) == old(At(ip)).(given := old(At(ip)).given + [p])
    {
      forall k: Ip {
        OfStep(given, ip, p, k);
      }
      given := given + [(ip, p)];
    }

    method Discard(ip: Ip, p: Packet)
      requires drops == |dropped|
      modifies `drops, `dropped
      ensures drops == |dropped| == old(drops) + 1
      ensures Rest(ip) && At(ip) == old(At(ip)).(dropped := old(At(ip)).dropped + [p])
    {
      forall k: Ip {
        OfStep(dropped, ip, p, k);
      }
      drops := drops + 1;
      dropped := dropped + [(ip, p)];
    }

    method Report(ip: Ip, p: Packet)
      modifies `errors
      ensures errors == old(errors) + [(ip, p)]
      ensures Rest(ip) && At(ip) == old(At(ip)).(errors := old(At(ip)).errors + [p])
    {
      forall k: Ip {
        OfStep(errors, ip, p, k);
      }
      errors := errors + [(ip, p)];
    }

    method Solicit(ip: Ip, dst: Option<Ha>)
      modifies `solicit
      ensures solicit == old(solicit) + [(ip, dst)]
      ensures Rest(ip) && At(ip) == old(At(ip)).(asked := old(At(ip)).asked + [dst])
    {
      forall k: Ip {
        OfStep(solicit, ip, dst, k);
      }
      solicit := solicit + [(ip, dst)];
    }

    ghost method Hear(ip: Ip, ha: Ha)
      modifies `learnt
      ensures learnt == old(learnt) + {(ip, ha)}
      ensures Rest(ip) && At(ip) == old(At(ip)).(learnt := old(At(ip)).learnt + {ha})
    {
      forall k: Ip {
        LearntStep(learnt, ip, ha, k);
      }
      learnt := learnt + {(ip, ha)};
    }

    // ── Resolution ─────────────────────────────────────────────────────

    /** `neigh_probe`: a request, unicast for the first three of a revalidation. */
    method SendProbe(ip: Ip)
      requires Valid() && ip in neighs
      requires (neighs[ip].state.Incomplete? && neighs[ip].probes < 6) || (neighs[ip].state.Probe? && neighs[ip].probes < 3)
      modifies `neighs, `solicit
      ensures Valid() && Rest(ip)
      ensures neighs == old(neighs)[ip := old(neighs)[ip].(probes := old(neighs)[ip].probes + 1)]
      ensures solicit == old(solicit) + [(ip, if old(neighs)[ip].probes < 3 then Some(old(neighs)[ip].ha) else None)]
      ensures At(ip) == old(At(ip)).(entry := Some(neighs[ip]), asked := At(ip).asked)
      ensures At(ip).asked == old(At(ip)).asked + [if old(neighs)[ip].probes < 3 then Some(old(neighs)[ip].ha) else None]
    {
      hide HopOk, Of, Learnt;
      var n := neighs[ip];
      HopAsk(At(ip), false);
      assert HopOk(At(ip), false);
      SetEntry(ip, n.(probes := n.probes + 1));
      Solicit(ip, if n.probes < UCAST_PROBES then Some(n.ha) else None);
    }

    /** Make room for a packet of `size`: the oldest go. */
    method MakeRoom(ip: Ip, size: nat)
      requires Valid() && ip in neighs && neighs[ip].state.Incomplete?
      modifies `neighs, `drops, `dropped
      ensures Valid() && Rest(ip) && ip in neighs
      ensures var n, was := neighs[ip], old(neighs)[ip];
        && n == was.(queue := n.queue, queueBytes := n.queueBytes)
        && |n.queue| <= |was.queue| && n.queue == was.queue[|was.queue| - |n.queue|..]
        && drops == old(drops) + |was.queue| - |n.queue|
      ensures neighs[ip].queue == [] || neighs[ip].queueBytes + size <= QUEUE_LEN_BYTES
    {
      hide HopOk, Of, Learnt;
      ghost var was := neighs[ip].queue;
      while neighs[ip].queueBytes + size > QUEUE_LEN_BYTES && neighs[ip].queue != []
        invariant Valid() && Rest(ip) && ip in neighs && |neighs[ip].queue| <= |was|
        invariant neighs[ip] == old(neighs)[ip].(queue := neighs[ip].queue, queueBytes := neighs[ip].queueBytes)
        invariant neighs[ip].queue == was[|was| - |neighs[ip].queue|..]
        invariant drops == old(drops) + |was| - |neighs[ip].queue|
        decreases |neighs[ip].queue|
      {
        var n := neighs[ip];
        assert HopOk(At(ip), false);
        HopEvict(At(ip));
        SetEntry(ip, Evict(n));
        Discard(ip, n.queue[0]);
      }
    }

    /** `__neigh_event_send`: a use of the entry. The packet comes back if the
        address is good enough for it, and queues otherwise. */
    method EventSend(now: nat, ip: Ip, p: Option<Packet>) returns (back: Option<Packet>)
      requires Valid() && ip in neighs
      modifies `neighs, `drops, `solicit, `given, `dropped
      ensures Valid() && Rest(ip) && ip in neighs
      ensures var was, becomes := old(neighs)[ip].state, neighs[ip].state;
        && becomes == (if was.Stale? then Delay else if was.Valid() then was else Incomplete)
        && back == (if becomes.Incomplete? then None else p)
        && solicit == (if was.NoState? || was.Failed? then old(solicit) + [(ip, None)] else old(solicit))
      ensures given == if p.Some? && back.None? then old(given) + [(ip, p.value)] else old(given)
      ensures neighs[ip].ha == old(neighs)[ip].ha
      ensures Calm(old(At(ip)), At(ip)) && Begun(old(At(ip)), At(ip), now)
      ensures p.Some? && back.None? ==> var q := neighs[ip].queue; q != [] && q[|q| - 1] == p.value
    {
      hide HopOk, Of, Learnt, AllOk;
      var was := neighs[ip].state;
      if was.Reachable? || was.Delay? || was.Probe? {
        return p;
      }
      Begin(now, ip);
      back := Wait(ip, p);
      if was.NoState? || was.Failed? {
        SendProbe(ip);
      }
    }

    /** The middle of `__neigh_event_send`: a packet waits while the entry is
        incomplete. */
    method Wait(ip: Ip, p: Option<Packet>) returns (back: Option<Packet>)
      requires Valid() && ip in neighs
      modifies `neighs, `drops, `given, `dropped
      ensures Valid() && Rest(ip) && ip in neighs && back == if neighs[ip].state.Incomplete? then None else p
      ensures neighs[ip] == old(neighs)[ip].(queue := neighs[ip].queue, queueBytes := neighs[ip].queueBytes)
      ensures given == if p.Some? && back.None? then old(given) + [(ip, p.value)] else old(given)
      ensures p.Some? && back.None? ==> var q := neighs[ip].queue; q != [] && q[|q| - 1] == p.value
    {
      hide HopOk, Of, Learnt, AllOk;
      if !neighs[ip].state.Incomplete? {
        return p;
      }
      if p.Some? {
        Enqueue(ip, p.value);
      }
      return None;
    }

    /** The first half of `__neigh_event_send`: a silent entry starts probing, a
        stale one is given a delay. */
    method Begin(now: nat, ip: Ip)
      requires Valid() && ip in neighs
      requires var s := neighs[ip].state; s.NoState? || s.Failed? || s.Stale? || s.Incomplete?
      modifies `neighs
      ensures Valid() && Rest(ip) && ip in neighs
      ensures var was, n := old(neighs)[ip], neighs[ip];
        && (was.state.Incomplete? ==> n == was)
        && (was.state.Stale? ==> n == was.(state := Delay, updated := now, timer := Some(now + DELAY_PROBE_TIME)))
        && (was.state.NoState? || was.state.Failed? ==>
              n == was.(probes := 3, state := Incomplete, updated := now, timer := Some(now + RETRANS_TIME),
                        since := |old(At(ip)).asked|))
    {
      hide HopOk, Of, Learnt;
      var n := neighs[ip];
      assert HopOk(At(ip), false);
      EntryIs(At(ip));
      if !n.state.Stale? && !n.state.Incomplete? {
        n := n.(probes := UCAST_PROBES, state := Incomplete, updated := now, timer := Some(now + RETRANS_TIME),
                since := |Of(solicit, ip)|);
      } else if n.state.Stale? {
        n := n.(state := Delay, updated := now, timer := Some(now + DELAY_PROBE_TIME));
      }
      HopHarmless(At(ip), n);
      SetEntry(ip, n);
      assert HopOk(At(ip), false);
    }

    /** The packet joins the queue, the oldest making room for it. */
    method Enqueue(ip: Ip, p: Packet)
      requires Valid() && ip in neighs && neighs[ip].state.Incomplete?
      modifies `neighs, `drops, `given, `dropped
      ensures Valid() && Rest(ip) && ip in neighs && given == old(given) + [(ip, p)]
      ensures var n, was := neighs[ip], old(neighs)[ip];
        && n == was.(queue := n.queue, queueBytes := n.queueBytes)
        && 0 < |n.queue| <= |was.queue| + 1 && n.queue == was.queue[|was.queue| + 1 - |n.queue|..] + [p]
        && drops == old(drops) + |was.queue| + 1 - |n.queue|
    {
      hide HopOk, Of, Learnt;
      MakeRoom(ip, p.truesize);
      var n := neighs[ip];
      assert HopOk(At(ip), false);
      HopQueue(At(ip), p);
      SetEntry(ip, n.(queue := n.queue + [p], queueBytes := n.queueBytes + p.truesize));
      Give(ip, p);
      assert HopOk(At(ip), false);
    }

    /** `__neigh_update`: ARP has named an address; `to` says how far to trust it. */
    method Update(now: nat, ip: Ip, ha: Ha, to: Nud, overr: bool)
      requires Valid() && ip in neighs && ha in Learnt(learnt, ip) && (to.Reachable? || to.Stale?)
      modifies `neighs, `sent
      ensures Valid() && Rest(ip) && neighs.Keys == old(neighs).Keys && neighs == old(neighs)[ip := neighs[ip]]
      ensures var was, n := old(neighs)[ip], neighs[ip];
        && n.state == Heard(was, ha, to, overr) && n.ha == (if was.state.Valid() && !overr then was.ha else ha)
        && Of(sent, ip) == Of(old(sent), ip) + (if was.state.Valid() then [] else To(ha, was.queue))
    {
      hide HopOk, Of, Learnt;
      var n := neighs[ip];
      assert HopOk(At(ip), false);
      EntryIs(At(ip));
      var was := n.state;
      var sameHa := was.Valid() && n.ha == ha;
      if to.Reachable? {
        n := n.(confirmed := now);
      }
      if was.Valid() && !sameHa && !overr {
        HopHarmless(At(ip), n);
        SetEntry(ip, n);
        return;
      }
      var next := if sameHa && to.Stale? then was else to;
      if next != was || !sameHa {
        n := n.(updated := now);
      }
      if next != was {
        n := n.(timer := if next.Reachable? then Some(now + reachableTime) else None, state := next);
      }
      if !sameHa {
        n := n.(ha := ha);
        if !next.Reachable? {
          n := n.(confirmed := Max(now - 2 * BASE_REACHABLE_TIME, 0));
        }
      }
      if was.Valid() {
        HopHarmless(At(ip), n);
        SetEntry(ip, n);
      } else {
        Release(ip, n.(queue := [], queueBytes := 0), n.queue);
      }
    }

    /** The end of `__neigh_update`: what waited goes out to the new address. */
    method Release(ip: Ip, n: Neighbour, queue: seq<Packet>)
      requires Valid() && ip in neighs && queue == neighs[ip].queue
      requires n.queue == [] && n.queueBytes == 0 && n.state.Valid() && !n.state.Probe? && TimerOk(n)
      requires n.ha in Learnt(learnt, ip) && n.since <= |Of(solicit, ip)|
      modifies `neighs, `sent
      ensures Valid() && Rest(ip) && neighs == old(neighs)[ip := n]
      ensures Of(sent, ip) == Of(old(sent), ip) + To(n.ha, queue)
    {
      hide HopOk, Of, Learnt;
      assert HopOk(At(ip), false);
      HopFlush(At(ip), n, false);
      SetEntry(ip, n);
      for i := 0 to |queue|
        invariant Rest(ip) && neighs == old(neighs)[ip := n]
        invariant At(ip) == old(At(ip)).(entry := Some(n), sent := old(At(ip)).sent + To(n.ha, queue[..i]))
      {
        Send(ip, n.ha, queue[i]);
        assert To(n.ha, queue[..i + 1]) == To(n.ha, queue[..i]) + [(n.ha, queue[i])];
      }
      assert queue[..|queue|] == queue;
      assert HopOk(At(ip), false);
    }

    // ── Timers ─────────────────────────────────────────────────────────

    /** `neigh_timer_handler` for one due entry. */
    method Timer(now: nat, ip: Ip)
      requires Valid() && ip in neighs && neighs[ip].timer.Some?
      modifies `neighs, `errors, `solicit
      ensures Valid() && Rest(ip) && neighs.Keys == old(neighs).Keys
      ensures neighs[ip].timer.Some? ==> now < neighs[ip].timer.value
      ensures Unheard(old(At(ip)), At(ip), now)
      ensures old(neighs)[ip].state.Reachable? || old(neighs)[ip].state.Delay? ==>
        neighs[ip].state == Timed(old(neighs)[ip], now, reachableTime, 0).state && neighs[ip].ha == old(neighs)[ip].ha
    {
      hide HopOk, Of, Learnt, Harmless, Unheard, Timed;
      assert HopOk(At(ip), false);
      var n := Timed(neighs[ip], now, reachableTime, |Of(solicit, ip)|);
      TimedOk(At(ip), now, reachableTime);
      if (n.state.Incomplete? || n.state.Probe?) && n.probes >= MaxProbes(n.state) {
        Invalidate(now, ip);
        return;
      }
      Again(ip, n);
    }

    /** The end of `neigh_timer_handler`: the timer again, and a request. */
    method Again(ip: Ip, n: Neighbour)
      requires Valid() && ip in neighs && Harmless(At(ip), n)
      requires n.state.Incomplete? || n.state.Probe? ==> n.probes < MaxProbes(n.state)
      modifies `neighs, `solicit
      ensures Valid() && Rest(ip) && neighs.Keys == old(neighs).Keys
      ensures if n.state.Incomplete? || n.state.Probe?
              then At(ip) == old(At(ip)).(entry := Some(n.(probes := n.probes + 1)),
                                          asked := old(At(ip)).asked + [if n.probes < 3 then Some(n.ha) else None])
              else At(ip) == old(At(ip)).(entry := Some(n))
    {
      hide HopOk, Of, Learnt, Harmless;
      assert HopOk(At(ip), false);
      HopHarmless(At(ip), n);
      SetEntry(ip, n);
      assert HopOk(At(ip), false);
      if n.state.Incomplete? || n.state.Probe? {
        SendProbe(ip);
      }
    }

    /** `neigh_invalidate`: nobody answered; what waited is reported. */
    method Invalidate(now: nat, ip: Ip)
      requires Valid() && ip in neighs
      modifies `neighs, `errors
      ensures Valid() && Rest(ip) && neighs.Keys == old(neighs).Keys
      ensures neighs[ip] == old(neighs)[ip].(state := Failed, timer := None, updated := now, queue := [], queueBytes := 0)
      ensures Of(errors, ip) == Of(old(errors), ip) + old(neighs)[ip].queue
    {
      hide HopOk, Of, Learnt;
      var queue := neighs[ip].queue;
      var n := neighs[ip].(state := Failed, timer := None, updated := now, queue := [], queueBytes := 0);
      assert HopOk(At(ip), false);
      EntryIs(At(ip));
      HopFail(At(ip), n, false);
      SetEntry(ip, n);
      for i := 0 to |queue|
        invariant Rest(ip) && neighs == old(neighs)[ip := n]
        invariant At(ip) == old(At(ip)).(entry := Some(n), errors := old(At(ip)).errors + queue[..i])
      {
        Report(ip, queue[i]);
        assert queue[..i + 1] == queue[..i] + [queue[i]];
      }
      assert queue[..|queue|] == queue;
      assert HopOk(At(ip), false);
    }

    /** Drop idle entries. */
    method Remove(victims: set<Ip>)
      requires Valid() && victims <= neighs.Keys && forall ip | ip in victims :: neighs[ip].timer.None?
      modifies `neighs
      ensures Valid() && neighs == old(neighs) - victims && forall ip | ip in victims :: old(neighs)[ip].queue == []
      ensures forall k: Ip :: Calm(old(At(k)), At(k))
    {
      hide HopOk, Of, Learnt;
      forall ip | ip in victims
        ensures neighs[ip].queue == [] && HopOk(At(ip).(entry := None), false)
      {
        assert HopOk(At(ip), false);
        EntryIs(At(ip));
        HopGone(At(ip));
      }
      neighs := neighs - victims;
      forall ip: Ip ensures HopOk(At(ip), false) {
        assert old(HopOk(At(ip), false));
      }
      forall ip: Ip ensures Calm(old(At(ip)), At(ip)) {
        assert old(HopOk(At(ip), false));
        if ip in old(neighs) {
          EntryIs(old(At(ip)));
        }
      }
    }

    /** `neigh_forced_gc`: what is in excess of the second threshold goes, as far as
        it is idle. */
    method ForcedGc(now: nat) returns (gone: nat)
      requires Valid()
      modifies `neighs, `lastFlush
      ensures Valid() && lastFlush == now && forall k: Ip :: Calm(old(At(k)), At(k))
      ensures forall ip | ip in old(neighs) && ip !in neighs :: old(neighs)[ip].queue == []
      ensures gone <= Max(|old(neighs)| - GC_THRESH2, 0) && |neighs| == |old(neighs)| - gone
      ensures neighs.Keys <= old(neighs).Keys && forall ip | ip in neighs :: neighs[ip] == old(neighs)[ip]
      ensures gone < Max(|old(neighs)| - GC_THRESH2, 0) ==> forall ip | ip in neighs :: !Collectable(neighs[ip], now)
      ensures forall ip, k | ip in neighs && Collectable(neighs[ip], now) && k in old(neighs) && k !in neighs :: k < ip
    {
      hide HopOk, Of, Learnt, Collectable, AllOk, At, Calm;
      var most := Max(|neighs| - GC_THRESH2, 0);
      var victims := Victims(neighs, now, most);
      gone := |victims|;
      Idle(neighs, victims, now);
      MinusCount(neighs, victims);
      Remove(victims);
      lastFlush := now;
    }

    /** `neigh_periodic_work`: draw a new reachable time now and then; in a large
        table drop what failed or has not been used for a minute. */
    method Periodic(now: nat, draw: nat)
      requires Valid()
      modifies `neighs, `reachableTime, `lastRand
      ensures Valid() && neighs.Keys <= old(neighs).Keys
      ensures |old(neighs)| < GC_THRESH1 ==> unchanged(`neighs)
      ensures |old(neighs)| >= GC_THRESH1 ==>
        forall ip | ip in old(neighs) :: ip in neighs <==> !Outdated(old(neighs)[ip], now)
      ensures forall ip | ip in neighs :: neighs[ip] == old(neighs)[ip] || neighs[ip] == Refreshed(old(neighs)[ip], now)
      ensures forall ip | ip in old(neighs) && ip !in neighs :: Outdated(old(neighs)[ip], now)
    {
      hide HopOk, Of, Learnt, AllOk, Refreshed, Outdated;
      if now > lastRand + 300 * HZ || lastRand == 0 {
        lastRand := Max(now, 1);
        reachableTime := RandReachTime(draw);
      }
      if |neighs| >= GC_THRESH1 {
        Collect(now);
      }
    }

    /** The collection itself. */
    method Collect(now: nat)
      requires Valid()
      modifies `neighs
      ensures Valid() && neighs.Keys == set ip | ip in old(neighs) && !Outdated(old(neighs)[ip], now)
      ensures forall ip | ip in neighs :: neighs[ip] == Refreshed(old(neighs)[ip], now)
    {
      hide HopOk, Of, Learnt, Outdated;
      var kept := Retain(neighs, now);
      forall ip | ip in neighs
        ensures HopOk(At(ip).(entry := Some(Refreshed(neighs[ip], now))), false)
        ensures Outdated(neighs[ip], now) ==> HopOk(At(ip).(entry := None), false)
      {
        assert HopOk(At(ip), false);
        HopRefreshed(At(ip), now);
      }
      neighs := kept;
      forall ip: Ip ensures HopOk(At(ip), false) {
        assert old(HopOk(At(ip), false));
      }
    }

    /** The first half of `tick`: every expired timer. */
    method FireTimers(now: nat)
      requires Valid()
      modifies `neighs, `errors, `solicit
      ensures Valid() && neighs.Keys == old(neighs).Keys
      ensures forall ip: Ip | ip !in old(Expired(now)) :: At(ip) == old(At(ip))
      ensures forall ip | ip in old(Expired(now)) :: Fired(old(At(ip)), At(ip), now)
    {
      hide HopOk, Of, Learnt, Unheard, Calm, AllOk, Fired;
      var todo := set ip | ip in neighs && neighs[ip].timer.Some? && neighs[ip].timer.value <= now;
      ghost var due := Expired(now);
      assert todo == due;
      while todo != {}
        invariant Valid() && neighs.Keys == old(neighs).Keys && todo <= due <= neighs.Keys
        invariant forall ip: Ip | ip !in due || ip in todo :: At(ip) == old(At(ip))
        invariant forall ip | ip in due && ip !in todo :: Fired(old(At(ip)), At(ip), now)
        decreases todo
      {
        var ip :| ip in todo;
        assert At(ip) == old(At(ip));
        FireTimer(now, ip);
        todo := todo - {ip};
      }
    }

    method FireTimer(now: nat, ip: Ip)
      requires Valid() && ip in neighs && neighs[ip].timer.Some?
      modifies `neighs, `errors, `solicit
      ensures Valid() && Rest(ip) && neighs.Keys == old(neighs).Keys && Fired(old(At(ip)), At(ip), now)
    {
      hide HopOk, Of, Learnt, Unheard, Calm, AllOk;
      Timer(now, ip);
    }

    ghost function Expired(now: nat): set<Ip>
      reads `neighs
    {
      set ip | ip in neighs && neighs[ip].timer.Some? && neighs[ip].timer.value <= now
    }

    /** `tick`: timers first, then the collector if its time has come. */
    method Tick(now: nat, draw: nat)
      requires Valid()
      modifies `neighs, `errors, `solicit, `reachableTime, `lastRand, `nextGc
      ensures Valid() && neighs.Keys <= old(neighs).Keys
      ensures forall ip | ip in neighs :: neighs[ip].timer.Some? ==> now < neighs[ip].timer.value
      ensures forall ip: Ip | ip !in old(Expired(now)) ::
        At(ip).asked == old(At(ip)).asked && At(ip).errors == old(At(ip)).errors && Calm(old(At(ip)), At(ip))
      ensures forall ip | ip in old(Expired(now)) :: Unheard(old(At(ip)), At(ip), now)
    {
      hide HopOk, Of, Learnt, Unheard, Calm, AllOk, Fired, Tidied;
      FireTimers(now);
      label Fired:
      Tidy(now, draw);
      forall ip: Ip
        ensures ip in neighs && neighs[ip].timer.Some? ==> now < neighs[ip].timer.value
        ensures if ip in old(Expired(now)) then Unheard(old(At(ip)), At(ip), now)
                else At(ip).asked == old(At(ip)).asked && At(ip).errors == old(At(ip)).errors && Calm(old(At(ip)), At(ip))
      {
        TidiedCalm(old@Fired(At(ip)), At(ip), now);
        if ip in old(Expired(now)) {
          TidiedFired(old(At(ip)), old@Fired(At(ip)), At(ip), now);
        }
      }
    }

    /** The second half of `tick`. */
    method Tidy(now: nat, draw: nat)
      requires Valid()
      modifies `neighs, `reachableTime, `lastRand, `nextGc
      ensures Valid() && neighs.Keys <= old(neighs).Keys && forall ip: Ip :: Tidied(old(At(ip)), At(ip), now)
    {
      hide HopOk, Of, Learnt, AllOk, Outdated, Refreshed;
      if now >= nextGc {
        Periodic(now, draw);
        nextGc := now + BASE_REACHABLE_TIME / 2;
      }
    }

    // ── The public calls ───────────────────────────────────────────────

    /** `___neigh_create`: an entry for `ip` if there is none, room being made for it
        where possible. */
    method Create(now: nat, ip: Ip) returns (ok: bool)
      requires Valid()
      modifies `neighs, `lastFlush
      ensures Valid() && (ok <==> ip in neighs) && (!ok ==> |old(neighs)| >= GC_THRESH3)
      ensures ip in old(neighs) ==> unchanged(`neighs, `lastFlush)
      ensures ok && ip !in old(neighs) ==> neighs[ip].state.NoState?
      ensures forall k | k in old(neighs) :: if k in neighs then neighs[k] == old(neighs)[k] else old(neighs)[k].queue == []
      ensures forall k | k in neighs :: k == ip || k in old(neighs)
      ensures forall k: Ip :: Calm(old(At(k)), At(k))
    {
      hide HopOk, Of, Learnt, Collectable;
      if ip in neighs {
        return true;
      }
      var entries := |neighs|;
      if entries >= GC_THRESH3 || (entries >= GC_THRESH2 && now > lastFlush + 5 * HZ) {
        var gone := ForcedGc(now);
        if gone == 0 && entries >= GC_THRESH3 {
          return false;
        }
      }
      var n := Neighbour(NoState, 0, now, now, now, 0, None, [], 0, 0);
      assert HopOk(At(ip), false);
      HopNew(At(ip), n);
      SetEntry(ip, n);
      assert HopOk(At(ip), false);
      return true;
    }

    /** Hand a packet over at once. */
    method Deliver(ip: Ip, p: Packet)
      requires Valid() && ip in neighs && neighs[ip].state.Valid()
      modifies `sent, `given
      ensures Valid() && Rest(ip) && given == old(given) + [(ip, p)] && sent == old(sent) + [(ip, (neighs[ip].ha, p))]
    {
      hide HopOk, Of, Learnt;
      assert HopOk(At(ip), false);
      EntryIs(At(ip));
      HopSend(At(ip), neighs[ip].ha, p);
      Give(ip, p);
      Send(ip, neighs[ip].ha, p);
      assert HopOk(At(ip), false);
    }

    /** `output`: a packet for a neighbour, whose address may still be unknown. */
    method Output(now: nat, ip: Ip, p: Packet)
      requires Valid()
      modifies this
      ensures Valid() && given == old(given) + [(ip, p)] && unchanged(`learnt, `errors, `lost)
      ensures forall k: Ip | k != ip :: At(k).(entry := None) == old(At(k)).(entry := None)
      ensures ip in old(neighs) && old(neighs)[ip].state.Valid() ==> sent == old(sent) + [(ip, (old(neighs)[ip].ha, p))]
      ensures ip in neighs && (ip !in old(neighs) || !old(neighs)[ip].state.Valid()) ==>
        sent == old(sent) && neighs[ip].queue != [] && neighs[ip].queue[|neighs[ip].queue| - 1] == p
      ensures ip !in neighs ==> sent == old(sent) && drops == old(drops) + 1
      ensures (forall k: Ip :: Calm(old(At(k)), At(k))) && Begun(old(At(ip)), At(ip), now)
    {
      hide HopOk, Of, Learnt, AllOk;
      var ok := Create(now, ip);
      if !ok {
        Refuse(ip, p);
        return;
      }
      if neighs[ip].state.Reachable? {
        Deliver(ip, p);
        return;
      }
      Use(now, ip);
      var back := EventSend(now, ip, Some(p));
      if back.Some? {
        Deliver(ip, p);
      }
    }

    method Refuse(ip: Ip, p: Packet)
      requires Valid()
      modifies `drops, `dropped, `given
      ensures Valid() && Rest(ip) && given == old(given) + [(ip, p)] && drops == old(drops) + 1
    {
      hide HopOk, Of, Learnt;
      assert HopOk(At(ip), false);
      HopDrop(At(ip), p, false);
      Give(ip, p);
      Discard(ip, p);
      assert HopOk(At(ip), false);
    }

    method Use(now: nat, ip: Ip)
      requires Valid() && ip in neighs
      modifies `neighs
      ensures Valid() && Rest(ip) && neighs == old(neighs)[ip := old(neighs)[ip].(used := now)]
    {
      hide HopOk, Of, Learnt;
      var n := neighs[ip].(used := now);
      assert HopOk(At(ip), false);
      EntryIs(At(ip));
      HopHarmless(At(ip), n);
      SetEntry(ip, n);
      assert HopOk(At(ip), false);
    }

    /** `resolve`: start resolving without a packet. */
    method Resolve(now: nat, ip: Ip) returns (asked: bool)
      requires Valid()
      modifies this
      ensures Valid() && unchanged(`given, `sent, `learnt, `errors, `lost)
      ensures asked ==> solicit == old(solicit) + [(ip, None)]
      ensures !asked ==> solicit == old(solicit)
      ensures (forall k: Ip :: Calm(old(At(k)), At(k))) && Begun(old(At(ip)), At(ip), now)
    {
      hide HopOk, Of, Learnt, AllOk;
      var ok := Create(now, ip);
      if !ok {
        return false;
      }
      var state := neighs[ip].state;
      var _ := EventSend(now, ip, None);
      return state.NoState? || state.Failed?;
    }

    /** `neigh_event_ns` and the update of a known entry: what ARP says of `ip`. */
    method Learn(now: nat, ip: Ip, ha: Ha, to: Nud, overr: bool)
      requires Valid() && ip in neighs && (to.Reachable? || to.Stale?)
      modifies `neighs, `sent, `learnt
      ensures Valid() && Rest(ip) && neighs.Keys == old(neighs).Keys && learnt == old(learnt) + {(ip, ha)}
      ensures neighs == old(neighs)[ip := neighs[ip]]
      ensures neighs[ip].state == Heard(old(neighs)[ip], ha, to, overr)
      ensures neighs[ip].ha == if old(neighs)[ip].state.Valid() && !overr then old(neighs)[ip].ha else ha
    {
      hide HopOk, Of, Learnt;
      assert HopOk(At(ip), false);
      HopLearn(At(ip), ha, false);
      Hear(ip, ha);
      assert HopOk(At(ip), false);
      Update(now, ip, ha, to, overr);
    }

    /** `arp_rcv` and `arp_process`. */
    method ArpInput(now: nat, arp: Arp, toUs: bool, ourIp: Ip) returns (answer: Option<Answer>)
      requires Valid()
      modifies this
      ensures Valid() && unchanged(`given, `errors, `solicit, `drops, `lost)
      ensures learnt == old(learnt) || learnt == old(learnt) + {(arp.sip, arp.sha)}
      ensures arp.sip == 0 ==> unchanged(this)
      ensures answer == (if Request(arp) && ForUs(arp.tip, ourIp) && (arp.sip == 0 || !Martian(arp.sip, ourIp))
                         then Some(Answer(arp.sha, arp.sip)) else None)
      ensures forall k | k in neighs && k !in old(neighs) ::
        k == arp.sip && Request(arp) && ForUs(arp.tip, ourIp) && !Martian(arp.sip, ourIp)
      ensures arp.sip in neighs && neighs[arp.sip].state.Reachable? ==>
        || (arp.op == ARPOP_REPLY && toUs) || (arp.sip in old(neighs) && old(neighs)[arp.sip].state.Reachable?)
      ensures arp.sip in old(neighs) && arp.sip in neighs && old(neighs)[arp.sip].state.Valid()
              && neighs[arp.sip].ha != old(neighs)[arp.sip].ha ==>
        neighs[arp.sip].ha == arp.sha
      ensures forall k: Ip | k != arp.sip :: At(k).(entry := None) == old(At(k)).(entry := None)
      ensures forall k | k in neighs && k != arp.sip :: k in old(neighs) && neighs[k] == old(neighs)[k]
      ensures forall k: Ip | k != arp.sip :: Calm(old(At(k)), At(k))
    {
      hide HopOk, Of, Learnt, AllOk, Collectable;
      if !Sound(arp) || (arp.op != ARPOP_REPLY && arp.op != ARPOP_REQUEST) {
        return None;
      }
      if IsMulticast(arp.tip) || IsLoopback(arp.tip) {
        return None;
      }
      if arp.sip == 0 {
        return if arp.op == ARPOP_REQUEST && ForUs(arp.tip, ourIp) then Some(Answer(arp.sha, arp.sip)) else None;
      }
      if arp.op == ARPOP_REQUEST && ForUs(arp.tip, ourIp) && !Martian(arp.sip, ourIp) {
        var ok := Create(now, arp.sip);
        if ok {
          Learn(now, arp.sip, arp.sha, Stale, true);
        }
        return Some(Answer(arp.sha, arp.sip));
      }
      if arp.sip !in neighs {
        return None;
      }
      var garp := arp.sip == arp.tip && (arp.op != ARPOP_REPLY || arp.tha == arp.sha)
        && !ForUs(arp.sip, ourIp) && arp.sip != BROADCAST && !IsMulticast(arp.sip);
      var overr := now > neighs[arp.sip].updated + LOCKTIME || garp;
      Learn(now, arp.sip, arp.sha, if arp.op == ARPOP_REPLY && toUs then Reachable else Stale, overr);
      return None;
    }

    /** `flush`: every entry goes, and exactly what waited in them is lost: nothing
        if and only if nothing was waiting. */
    method Flush()
      requires Valid()
      modifies `neighs, `lost
      ensures Valid() && neighs == map[]
      ensures forall ip: Ip :: At(ip) == old(At(ip)).(entry := None, lost := old(At(ip)).lost + Queued(old(At(ip))))
      ensures (forall ip: Ip :: LostAt(lost, ip) == LostAt(old(lost), ip))
              <==> forall ip | ip in old(neighs) :: old(neighs)[ip].queue == []
    {
      hide HopOk, Of, Learnt, LostAt, Forgotten;
      ForgottenIff(neighs, lost);
      forall ip: Ip ensures HopOk(At(ip).(entry := None, lost := LostAt(Forgotten(neighs, lost), ip)), false) {
        assert HopOk(At(ip), false);
        HopForget(At(ip));
        ForgottenAt(neighs, lost, ip);
      }
      lost := Forgotten(neighs, lost);
      neighs := map[];
      forall ip: Ip
        ensures At(ip) == old(At(ip)).(entry := None, lost := old(At(ip)).lost + Queued(old(At(ip)))) && HopOk(At(ip), false)
      {
        ForgottenAt(old(neighs), old(lost), ip);
        assert At(ip) == old(At(ip)).(entry := None, lost := LostAt(Forgotten(old(neighs), old(lost)), ip));
      }
    }
  }

  /** What holds of every next hop after every call: each packet given for it is
      sent, waiting, reported, dropped or lost in a flush, once; those sent or waiting keep their
      order; they went to addresses ARP gave for it; its timer runs exactly in
      the timed states; packets wait only while it is incomplete, within the
      limit unless one alone exceeds it; and since it began to ask it sent at most
      three requests, all of its kind. */
  lemma AfterEveryCall(t: Table, ip: Ip)
    requires t.Valid()
    ensures var q := if ip in t.neighs then t.neighs[ip].queue else [];
      && multiset(Of(t.given, ip)) == multiset(Packets(Of(t.sent, ip))) + multiset(q) + multiset(Of(t.errors, ip)) + multiset(Of(t.dropped, ip))
        + multiset(LostAt(t.lost, ip))
      && Sub(Packets(Of(t.sent, ip)) + q, Of(t.given, ip))
    ensures forall i | 0 <= i < |Of(t.sent, ip)| :: (ip, Of(t.sent, ip)[i].0) in t.learnt
    ensures ip in t.neighs ==> var n := t.neighs[ip];
      && (n.timer.Some? <==> n.state.InTimer())
      && (n.queue != [] ==> n.state.Incomplete?)
      && n.queueBytes == Bytes(n.queue) && (n.queueBytes <= QUEUE_LEN_BYTES || |n.queue| == 1)
      && Probing(n, Of(t.solicit, ip))
    ensures t.drops == |t.dropped|
  {
    hide Of, Bytes, Sub;
    assert HopOk(t.At(ip), false);
  }


  // ── Runs in which nobody answers ─────────────────────────────────────

  /** A public call. */
  datatype Call =
    | OutputCall(now: nat, ip: Ip, p: Packet)
    | ResolveCall(now: nat, ip: Ip)
    | TickCall(now: nat, draw: nat)
    | ArpCall(now: nat, arp: Arp, toUs: bool, ourIp: Ip)
    | FlushCall

  /** It is no word of ARP about `ip`, and no flush. */
  predicate Silent(c: Call, ip: Ip) { !c.FlushCall? && (c.ArpCall? ==> c.arp.sip != ip) }

  /** What one call makes of a hop ARP is silent about. */
  ghost predicate Served(was: Hop, h: Hop, c: Call) {
    if c.TickCall? && was.entry.Some? && was.entry.value.timer.Some? && was.entry.value.timer.value <= c.now
    then Unheard(was, h, c.now)
    else Calm(was, h)
  }

  method Serve(t: Table, c: Call)
    requires t.Valid()
    modifies t
    ensures t.Valid() && forall ip: Ip | Silent(c, ip) :: Served(old(t.At(ip)), t.At(ip), c)
    ensures c.OutputCall? || c.ResolveCall? ==> Begun(old(t.At(c.ip)), t.At(c.ip), c.now)
    ensures !c.FlushCall? ==> t.lost == old(t.lost)
  {
    hide HopOk, Of, Learnt, Table.AllOk, Unheard, Calm, Begun;
    match c
    case OutputCall(now, ip, p) => t.Output(now, ip, p);
    case ResolveCall(now, ip) => var _ := t.Resolve(now, ip);
    case ArpCall(now, arp, toUs, ourIp) => var _ := t.ArpInput(now, arp, toUs, ourIp);
    case FlushCall => t.Flush();
    case TickCall(now, draw) =>
      ghost var due := t.Expired(now);
      t.Tick(now, draw);
  }

  /** Every run keeps the invariant, and without a flush nothing is lost. */
  method ServeAll(t: Table, calls: seq<Call>)
    requires t.Valid()
    modifies t
    ensures t.Valid()
    ensures (forall i | 0 <= i < |calls| :: !calls[i].FlushCall?) ==> t.lost == old(t.lost)
  {
    hide Table.Valid, Served;
    for i := 0 to |calls|
      invariant t.Valid() && ((forall k | 0 <= k < i :: !calls[k].FlushCall?) ==> t.lost == old(t.lost))
    {
      Serve(t, calls[i]);
    }
  }

  /** How many of the calls are ticks that find the timer, set for `at`, due; each
      sets it again for a second later. */
  function Timeouts(calls: seq<Call>, n: nat, at: nat): nat
    requires n <= |calls|
  {
    if n == 0 then 0 else Timeouts(calls, n - 1, at) + if Late(calls, n - 1, at) then 1 else 0
  }

  /** What the timer is set for after `n` calls. */
  function NextTimeout(calls: seq<Call>, n: nat, at: nat): nat
    requires n <= |calls|
    decreases n, 0
  {
    if n == 0 then at
    else if Late(calls, n - 1, at) then calls[n - 1].now + RETRANS_TIME
    else NextTimeout(calls, n - 1, at)
  }

  predicate Late(calls: seq<Call>, n: nat, at: nat)
    requires n < |calls|
    decreases n, 1
  {
    calls[n].TickCall? && NextTimeout(calls, n, at) <= calls[n].now
  }

  function Times<T>(x: T, n: nat): seq<T> { seq(n, _ => x) }

  /** The entry of `first`, `k` requests later and with its timer set for `at`. */
  ghost predicate Waiting(first: Hop, h: Hop, k: nat, at: nat)
    requires Asking(first)
  {
    var n := first.entry.value;
    && h.entry.Some? && Alike(h.entry.value, n.(probes := n.probes + k, timer := Some(at)))
    && h.asked == first.asked + Times(Asks(n), k) && h.errors == first.errors
  }

  /** It asked `k` times in vain and was given up; what waited is reported. */
  ghost predicate GivenUp(first: Hop, h: Hop, k: nat)
    requires Asking(first)
  {
    var n := first.entry.value;
    Lost(h) && h.asked == first.asked + Times(Asks(n), k) && |h.asked| == n.since + 3 && first.errors <= h.errors
  }

  /** The requests it may still send. */
  ghost function Remaining(h: Hop): int
    requires Asking(h)
  {
    MaxProbes(h.entry.value.state) - h.entry.value.probes
  }

  lemma WaitingStep(first: Hop, was: Hop, h: Hop, k: nat, at: nat, c: Call)
    requires Asking(first) && Waiting(first, was, k, at) && k <= Remaining(first) && Served(was, h, c)
    ensures c.TickCall? && at <= c.now && k < Remaining(first) ==> Waiting(first, h, k + 1, c.now + 100)
    ensures c.TickCall? && at <= c.now && k == Remaining(first) ==> GivenUp(first, h, k)
    ensures !(c.TickCall? && at <= c.now) ==> Waiting(first, h, k, at)
    ensures Lost(h) <==> c.TickCall? && at <= c.now && k == Remaining(first)
  {
    var x := Asks(first.entry.value);
    assert Times(x, k) + [x] == Times(x, k + 1);
  }

  /** As long as ARP is silent about an entry that asks, whatever else is called,
      each timeout sends one request more, of the kind it sends, and the one
      after the last gives it up. */
  method Unanswered(t: Table, ip: Ip, calls: seq<Call>) returns (n: nat)
    requires t.Valid() && Asking(t.At(ip)) && t.neighs[ip].timer.Some?
    requires forall i | 0 <= i < |calls| :: Silent(calls[i], ip)
    modifies t
    ensures t.Valid() && n <= |calls|
    ensures var first, at := old(t.At(ip)), old(t.neighs)[ip].timer.value;
      var k := Timeouts(calls, n, at);
      if k <= Remaining(first) then n == |calls| && Waiting(first, t.At(ip), k, NextTimeout(calls, n, at))
      else n > 0 && Late(calls, n - 1, at) && k == Remaining(first) + 1 && GivenUp(first, t.At(ip), k - 1)
  {
    hide Waiting, GivenUp, Served, Table.Valid, HopOk, Of, Learnt;
    ghost var first, at := t.At(ip), t.neighs[ip].timer.value;
    WaitingFirst(first, at);
    AskingSome(t, ip);
    n := 0;
    while n < |calls|
      invariant n <= |calls| && t.Valid() && Timeouts(calls, n, at) <= Remaining(first)
      invariant Waiting(first, t.At(ip), Timeouts(calls, n, at), NextTimeout(calls, n, at))
    {
      ghost var was := t.At(ip);
      Serve(t, calls[n]);
      WaitingStep(first, was, t.At(ip), Timeouts(calls, n, at), NextTimeout(calls, n, at), calls[n]);
      n := n + 1;
      if ip !in t.neighs || t.neighs[ip].state.Failed? {
        return;
      }
    }
  }

  lemma AskingSome(t: Table, ip: Ip)
    requires t.Valid() && Asking(t.At(ip))
    ensures Remaining(t.At(ip)) >= 0
  {
    hide HopOk;
    assert HopOk(t.At(ip), false);
    EntryIs(t.At(ip));
  }

  lemma WaitingFirst(first: Hop, at: nat)
    requires Asking(first) && first.entry.value.timer == Some(at)
    ensures Waiting(first, first, 0, at)
  {
  }

  /** An address nobody answers for, from the call that begins to ask: exactly three
      requests to everybody, and it is given up on the third timeout. */
  method Unresolved(t: Table, begin: Call, calls: seq<Call>) returns (n: nat)
    requires t.Valid() && (begin.OutputCall? || begin.ResolveCall?)
    requires begin.ip in t.neighs ==> t.neighs[begin.ip].state.NoState? || t.neighs[begin.ip].state.Failed?
    requires forall i | 0 <= i < |calls| :: Silent(calls[i], begin.ip)
    modifies t
    ensures t.Valid() && n <= |calls|
    ensures var k, was, h := Timeouts(calls, n, begin.now + RETRANS_TIME), old(t.At(begin.ip)), t.At(begin.ip);
      || (n == 0 && h.entry.None?)
      || (k < 3 && n == |calls| && !Lost(h) && h.asked == was.asked + Times(None, k + 1) && h.errors == was.errors)
      || (k == 3 && n > 0 && Late(calls, n - 1, begin.now + RETRANS_TIME) && Lost(h)
          && h.asked == was.asked + [None, None, None])
  {
    hide HopOk, Of, Learnt, Table.Valid, Served;
    Serve(t, begin);
    if begin.ip !in t.neighs {
      return 0;
    }
    ghost var h := t.At(begin.ip);
    n := Unanswered(t, begin.ip, calls);
    ghost var x: Option<Ha> := None;
    AskedOnce(x, Timeouts(calls, n, begin.now + RETRANS_TIME));
  }

  lemma AskedOnce<T>(x: T, k: nat)
    ensures [x] + Times(x, k) == Times(x, k + 1)
    ensures k == 3 ==> Times(x, k) == [x, x, x]
  {
  }

  /** An address in use that nobody confirms, from the tick that ends its delay:
      exactly three requests to the address known, and it is given up on the
      third timeout after. */
  method Unconfirmed(t: Table, ip: Ip, now: nat, draw: nat, calls: seq<Call>) returns (n: nat)
    requires t.Valid() && ip in t.neighs && t.neighs[ip].state.Delay?
    requires t.neighs[ip].timer.Some? && t.neighs[ip].timer.value <= now && now > t.neighs[ip].confirmed + DELAY_PROBE_TIME
    requires forall i | 0 <= i < |calls| :: Silent(calls[i], ip)
    modifies t
    ensures t.Valid() && n <= |calls|
    ensures var k, was, h := Timeouts(calls, n, now + RETRANS_TIME), old(t.At(ip)), t.At(ip);
      var ha := Some(old(t.neighs)[ip].ha);
      || (k < 3 && n == |calls| && !Lost(h) && h.asked == was.asked + Times(ha, k + 1) && h.errors == was.errors)
      || (k == 3 && n > 0 && Late(calls, n - 1, now + RETRANS_TIME) && Lost(h) && h.asked == was.asked + [ha, ha, ha])
  {
    hide HopOk, Of, Learnt, Table.Valid;
    ghost var ha := Some(t.neighs[ip].ha);
    Serve(t, TickCall(now, draw));
    n := Unanswered(t, ip, calls);
    AskedOnce(ha, Timeouts(calls, n, now + RETRANS_TIME));
  }
}
