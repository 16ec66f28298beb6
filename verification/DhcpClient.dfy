/** `Client` of net/src/dhcp.rs. */
module DhcpClient {
  import opened Util
  import opened Dhcp

  /** A reply that parsed and carries our hardware address: its transaction, its
      type, the lease it describes, and the options the client looks at. */
  datatype Reply = Reply(xid: nat, kind: ReplyKind, lease: Option<Lease>, rapidCommit: bool, serverId: Option<Addr>)

  datatype ReplyKind = Offer | Ack | Nak | OtherKind

  lemma Stamped(l: Lease, now: nat)
    requires LeaseOk(l)
    ensures LeaseOk(l.(timestamp := now))
  {
  }

  class Client {
    var state: State
    var rapidCommit: bool
    var lastAddr: Addr
    var xid: nat
    var startTime: nat
    var startDelay: nat
    var t1Time: nat
    var t2Time: nat
    var expireTime: nat
    var discoverAttempt: nat
    var requestAttempt: nat
    var maxDiscoverAttempts: nat
    var lease: Option<Lease>
    var rx: Rx
    var timeoutResend: Option<nat>
    var timeoutT1: Option<nat>
    var timeoutT2: Option<nat>
    var timeoutExpire: Option<nat>

    // Histories, and how often the retransmission timer was set from outside.
    var sent: seq<Sent>
    var events: seq<Event>
    var epoch: nat

    // ── What every run keeps ───────────────────────────────────────────

    /** The histories. */
    ghost predicate Recorded()
      reads this
    {
      && Legal(events) && (Held(events) <==> Holding(state))
      && AllFormed(sent) && Paced(sent)
      && (sent != [] ==> sent[|sent| - 1].epoch <= epoch)
    }

    /** The last message sets the retransmission timer until something else does. */
    ghost predicate Repeating()
      reads this
    {
      sent != [] && sent[|sent| - 1].epoch == epoch ==> timeoutResend == Some(sent[|sent| - 1].next)
    }

    /** Which state has a lease, an address to ask for, and lease timers. */
    ghost predicate Leased()
      reads this
    {
      && (Holding(state) || state.Requesting? <==> lease.Some?)
      && (lease.Some? ==> LeaseOk(lease.value))
      && (Holding(state) ==> lastAddr == lease.value.address)
      && (state.InitReboot? || state.Rebooting? ==> lastAddr != 0)
      && (timeoutT1.Some? || timeoutT2.Some? || timeoutExpire.Some? ==> Holding(state))
      && (Holding(state) && lease.value.lifetime < INFINITY ==> timeoutExpire == Some(expireTime))
      && (startDelay == 0 || RESTART_MIN <= startDelay <= RESTART_MAX)
      && requestAttempt <= REQUEST_ATTEMPTS
    }

    /** A running client that is not bound always has a retransmission ahead. */
    ghost predicate Alive()
      reads this
    {
      && (state.Stopped? || state.Bound? ==> timeoutResend.None?)
      && (!state.Stopped? && !state.Bound? ==> timeoutResend.Some?)
    }

    ghost predicate Sound()
      reads this
    {
      Recorded() && Repeating() && Leased() && Alive()
    }

    /** T1 never comes after T2, and REBINDING is past both. */
    ghost predicate InOrder()
      reads `state, `timeoutT1, `timeoutT2
    {
      && (timeoutT1.Some? ==> timeoutT2.Some? && timeoutT1.value <= timeoutT2.value)
      && (state.Rebinding? ==> timeoutT1.None? && timeoutT2.None?)
    }

    ghost predicate Valid()
      reads this
    {
      Sound() && InOrder()
    }

    constructor ()
      ensures Valid() && state.Stopped? && sent == [] && events == []
    {
      state, rapidCommit, lastAddr, xid, startTime, startDelay := Stopped, true, 0, 0, 0, 0;
      t1Time, t2Time, expireTime, discoverAttempt, requestAttempt, maxDiscoverAttempts := 0, 0, 0, 0, 0, INFINITY;
      lease, rx, timeoutResend, timeoutT1, timeoutT2, timeoutExpire := None, NoRx, None, None, None, None;
      sent, events, epoch := [], [], 0;
    }

    // ── Small steps ────────────────────────────────────────────────────

    method SetState(s: State)
      modifies `state, `discoverAttempt, `requestAttempt
      ensures state == s
      ensures discoverAttempt == if s != old(state) && (s.Stopped? || s.Bound?) then 0 else old(discoverAttempt)
      ensures requestAttempt == if s != old(state) && (s.Rebooting? || s.Requesting? || s.Renewing? || s.Rebinding?)
                                then 0 else old(requestAttempt)
    {
      if state == s {
        return;
      }
      state := s;
      match s
      case Stopped => discoverAttempt := 0;
      case Bound => discoverAttempt := 0;
      case Rebooting => requestAttempt := 0;
      case Requesting => requestAttempt := 0;
      case Renewing => requestAttempt := 0;
      case Rebinding => requestAttempt := 0;
      case _ =>
    }

    method DisableEventSources()
      modifies `rx, `timeoutResend, `timeoutT1, `timeoutT2, `timeoutExpire, `epoch
      ensures rx == NoRx && timeoutResend == None && timeoutT1 == None && timeoutT2 == None && timeoutExpire == None
      ensures epoch == old(epoch) + 1
    {
      rx, timeoutResend, timeoutT1, timeoutT2, timeoutExpire := NoRx, None, None, None, None;
      epoch := epoch + 1;
    }

    method Push(e: Event)
      requires Legal(events) && Fits(Held(events), e)
      modifies `events
      ensures events == old(events) + [e] && Legal(events)
      ensures Held(events) == (e.IpAcquire? || (Held(old(events)) && !e.Expired? && !e.Stop?))
    {
      EventStep(events, e);
      events := events + [e];
    }

    /** `client_stop`, with `client_initialize`. */
    method Halt()
      requires Recorded() && Leased()
      modifies this
      ensures Valid() && state.Stopped? && sent == old(sent) && lastAddr == old(lastAddr)
      ensures events == if old(state).Stopped? then old(events) else old(events) + [Stop]
    {
      hide AllFormed, Paced, Legal, Held, LeaseOk;
      if !state.Stopped? {
        Push(Stop);
      }
      DisableEventSources();
      SetState(Stopped);
      xid := 0;
      lease := None;
    }

    /** `client_start_delayed`. */
    method StartDelayed(now: nat)
      requires Legal(events) && !Held(events) && AllFormed(sent) && Paced(sent)
      requires (sent != [] ==> sent[|sent| - 1].epoch <= epoch) && requestAttempt <= REQUEST_ATTEMPTS
      requires (startDelay == 0 || RESTART_MIN <= startDelay <= RESTART_MAX)
      requires state.InitReboot? ==> lastAddr != 0
      modifies this
      ensures Valid() && sent == old(sent) && events == old(events) && lastAddr == old(lastAddr)
      ensures state == if old(state).InitReboot? then InitReboot else Init
      ensures startDelay == old(startDelay) && timeoutResend == Some(SatAdd(now, startDelay)) && startTime == now
      ensures unchanged(`discoverAttempt, `maxDiscoverAttempts)
    {
      hide AllFormed, Paced, Legal, Held, LeaseOk;
      DisableEventSources();
      lease := None;
      var draw: nat := *;
      xid := draw % 0x1_0000_0000;
      startTime := now;
      if !state.InitReboot? {
        SetState(Init);
      }
      timeoutResend := Some(SatAdd(now, startDelay));
    }

    /** `client_restart`: a new cycle because the last one failed. At once from
        REBOOTING; else after a delay that doubles between 1 s and 30 min. */
    method Restart(now: nat)
      requires Recorded() && Leased() && !state.InitReboot?
      modifies this
      ensures Valid() && sent == old(sent) && lastAddr == old(lastAddr) && state.Init?
      ensures events == if Holding(old(state)) then old(events) + [Expired] else old(events)
      ensures startDelay == if old(state).Rebooting? then 0 else Max(RESTART_MIN, Min(2 * old(startDelay), RESTART_MAX))
      ensures timeoutResend == Some(SatAdd(now, startDelay))
    {
      hide AllFormed, Paced, Legal, Held, LeaseOk;
      if Holding(state) {
        Push(Expired);
      }
      if state.Rebooting? {
        startDelay := 0;
      } else {
        startDelay := Max(RESTART_MIN, Min(startDelay * 2, RESTART_MAX));
      }
      StartDelayed(now);
    }

    // ── Messages ───────────────────────────────────────────────────────

    /** `client_new_message`. */
    method NewMessage(kind: Kind, now: nat) returns (m: Message)
      ensures m.kind == kind && 1 <= m.secs <= 65535
      ensures m.serverId == (if kind.Decline? || (kind.Request? && state.Requesting?)
                             then Some(if lease.Some? then lease.value.server else 0) else None)
      ensures m.ciaddr == (if kind.Request? && !state.Requesting? && !state.Rebooting? && lease.Some?
                           then lease.value.address else 0)
      ensures var asked := if kind.Discover? || (kind.Request? && state.Rebooting?) then lastAddr
                           else if kind.Decline? || state.Requesting? then (if lease.Some? then lease.value.address else 0)
                           else 0;
              m.requested == if asked == 0 then None else Some(asked)
      ensures m.rapidCommit <==> rapidCommit && kind.Discover?
    {
      var leaseAddr := if lease.Some? then lease.value.address else 0;
      var server := if lease.Some? then lease.value.server else 0;
      var serverId := None;
      if (kind.Request? && state.Requesting?) || kind.Decline? {
        serverId := Some(server);
      }
      var ciaddr, addr := 0, 0;
      match kind {
        case Discover => addr := lastAddr;
        case Decline => addr := leaseAddr;
        case Request =>
          if state.Requesting? {
            addr := leaseAddr;
          } else if state.Rebooting? {
            addr := lastAddr;
          } else {
            ciaddr := leaseAddr;
          }
      }
      m := Message(kind, Elapsed(now, startTime), ciaddr, serverId, if addr == 0 then None else Some(addr),
                   rapidCommit && kind.Discover?);
    }

    /** A repetition does not come before its time. */
    ghost predicate Prompt(now: nat, cause: Cause)
      reads this
    {
      cause.Timer? && sent != [] && sent[|sent| - 1].epoch == epoch ==> sent[|sent| - 1].next <= now
    }

    /** `dhcp_client_send_message`. What it may refuse does not occur: a message
        is far below the UDP limit, and a held address is not zero. */
    method SendMessage(kind: Kind, now: nat, cause: Cause, next: nat)
      requires Recorded() && Leased() && Prompt(now, cause) && GapOk(state, now, next)
      requires kind.Discover? ==> state.Selecting?
      requires kind.Request? ==> state.Rebooting? || state.Requesting? || state.Renewing? || state.Rebinding?
      requires kind.Decline? ==> lease.Some?
      modifies `rx, `sent
      ensures Recorded() && |sent| == |old(sent)| + 1 && old(sent) <= sent
      ensures var s := sent[|old(sent)|];
        s.m.kind == kind && s.at == state && s.cause == cause && s.time == now && s.next == next && s.epoch == epoch
      ensures rx == if kind.Decline? then NoRx else if kind.Request? && state.Renewing? then UdpRx else RawRx
      ensures var s := sent[|old(sent)|];
        && (kind.Decline? || state.Requesting? ==>
              s.m.serverId == Some(lease.value.server) && s.m.requested == Some(lease.value.address))
        && (state.Rebooting? ==> s.m.requested == Some(lastAddr))
        && (kind.Request? && Holding(state) ==> s.m.ciaddr == lease.value.address)
        && (kind.Request? && state.Renewing? ==> s.dest == Server(lease.value.server))
    {
      hide AllFormed, Paced, Legal, Held, GapOk;
      var m := NewMessage(kind, now);
      var dest := Broadcast;
      rx := if kind.Decline? then NoRx else RawRx;
      if kind.Request? && state.Renewing? {
        dest, rx := Server(lease.value.server), UdpRx;
      }
      var s := Sent(m, dest, state, cause, now, next, epoch);
      SentStep(sent, s);
      sent := sent + [s];
    }

    // ── Timers ─────────────────────────────────────────────────────────

    /** Nothing fires now, or only the start of a new cycle after REBOOTING. */
    ghost predicate Settled(now: nat, was: State)
      reads this
    {
      Due(timeoutResend, now) ==> state.Init? && (was.InitReboot? || was.Rebooting?)
    }

    /** The state and the distance of the next attempt, if there is one. */
    ghost predicate Attempting(was: State, now: nat, next: nat)
      reads this
    {
      && GapOk(state, now, SatAdd(now, next)) && 0 < next && !state.Bound? && !state.Stopped?
      && state == if was.Init? then Selecting else if was.InitReboot? then Rebooting else was
    }

    /** `client_timeout_resend`, first half: another attempt, or none any more. */
    method Plan(now: nat) returns (next: Option<nat>)
      requires Recorded() && Leased() && now < INFINITY && !state.Stopped? && !state.Bound?
      modifies this
      ensures Recorded() && Leased() && sent == old(sent) && old(events) <= events
      ensures next.Some? ==>
        && Attempting(old(state), now, next.value) && unchanged(`events, `epoch, `lease, `expireTime, `t2Time)
        && unchanged(`timeoutT1, `timeoutT2, `timeoutExpire, `timeoutResend)
      ensures next.None? ==>
        && Valid() && Settled(now, old(state)) && !Holding(old(state)) && (state.Init? || state.Stopped?)
        && (old(state).Init? || old(state).Selecting? <==> state.Stopped?)
        && (state.Stopped? ==> old(discoverAttempt) >= old(maxDiscoverAttempts)) && !old(state).InitReboot?
        && (old(state).Requesting? ==> old(requestAttempt) >= REQUEST_ATTEMPTS)
        && (old(state).Rebooting? ==> old(requestAttempt) >= REBOOT_ATTEMPTS)
    {
      hide AllFormed, Paced, Legal, Held, LeaseOk;
      var draw: nat := *;
      if state.Renewing? {
        return Some(ReacquisitionTimeout(now, t2Time));
      } else if state.Rebinding? {
        return Some(ReacquisitionTimeout(now, expireTime));
      } else if state.Init? || state.Selecting? {
        SetState(Selecting);
        if discoverAttempt >= maxDiscoverAttempts {
          Halt();
          return None;
        }
        discoverAttempt := discoverAttempt + 1;
        return Some(RequestTimeout(discoverAttempt, draw));
      } else if state.Requesting? {
        if requestAttempt >= REQUEST_ATTEMPTS {
          Restart(now);
          return None;
        }
        requestAttempt := requestAttempt + 1;
        return Some(RequestTimeout(requestAttempt, draw));
      } else {
        SetState(Rebooting);
        if requestAttempt >= REBOOT_ATTEMPTS {
          Restart(now);
          return None;
        }
        requestAttempt := requestAttempt + 1;
        return Some(RequestTimeout(requestAttempt, draw) / 4);
      }
    }

    /** `client_timeout_resend`. */
    method ResendFired(now: nat, cause: Cause)
      requires Recorded() && Leased() && Prompt(now, cause) && now < INFINITY && !cause.Declining?
      requires state.Stopped? || state.Bound? ==> Sound()
      modifies this
      ensures Sound() && Settled(now, old(state)) && old(sent) <= sent && old(events) <= events
      ensures Holding(old(state)) ==>
        && state == old(state) && unchanged(`events, `lease, `expireTime, `t2Time, `timeoutT1, `timeoutT2, `timeoutExpire)
        && (!state.Bound? ==> !Due(timeoutResend, now) && |sent| == |old(sent)| + 1)
      ensures !Holding(old(state)) ==> !Holding(state)
      ensures old(state).InitReboot? || (old(state).Init? && old(discoverAttempt) < old(maxDiscoverAttempts)) ==>
        |sent| == |old(sent)| + 1
      ensures old(state).Requesting? && old(requestAttempt) < REQUEST_ATTEMPTS ==> state.Requesting? && |sent| == |old(sent)| + 1
      ensures old(state).Rebooting? && old(requestAttempt) < REBOOT_ATTEMPTS ==> state.Rebooting? && |sent| == |old(sent)| + 1
    {
      hide AllFormed, Paced, Legal, Held, LeaseOk, GapOk;
      if state.Stopped? || state.Bound? {
        return;
      }
      var next := Plan(now);
      if next.None? {
        return;
      }
      var again := SatAdd(now, next.value);
      timeoutResend := Some(again);
      if state.Selecting? {
        SendMessage(Discover, now, cause, again);
        if discoverAttempt >= TRANSIENT_ATTEMPTS {
          Push(TransientFailure);
        }
      } else {
        SendMessage(Request, now, cause, again);
      }
    }

    /** How much there is still to fire at `now`: a lease timer may bring on a new
        cycle, which is due at once, and so may the last try of REBOOTING. */
    ghost function Pending(now: nat): nat
      reads this
    {
      3 * ((if Due(timeoutExpire, now) then 1 else 0) + (if Due(timeoutT2, now) then 1 else 0) + (if Due(timeoutT1, now) then 1 else 0))
      + (if !Due(timeoutResend, now) then 0 else if state.InitReboot? || state.Rebooting? then 2 else 1)
    }

    /** One turn of `tick`: the timer that is due fires. */
    method Fire(timer: TimerKind, now: nat)
      requires Sound() && now < INFINITY
      requires match timer
               case ExpireTimer => Due(timeoutExpire, now)
               case T2Timer => Due(timeoutT2, now)
               case T1Timer => Due(timeoutT1, now)
               case ResendTimer => Due(timeoutResend, now)
      modifies this
      ensures Sound() && old(sent) <= sent && old(events) <= events && Pending(now) < old(Pending(now))
      ensures timer.ResendTimer? && old(Starting()) ==> |sent| == |old(sent)| + 1
      ensures Holding(state) ==> Holding(old(state)) && unchanged(`lease, `events, `expireTime, `timeoutExpire)
      ensures Holding(old(state)) ==> (Holding(state) <==> !timer.ExpireTimer?)
      ensures timer.ExpireTimer? ==> state.Init? && events == old(events) + [Expired]
      ensures Holding(state) ==>
        && state == (if timer.T2Timer? then Rebinding else if timer.T1Timer? then Renewing else old(state))
        && timeoutT1 == (if timer.T1Timer? then None else old(timeoutT1))
        && timeoutT2 == (if timer.T2Timer? then None else old(timeoutT2))
    {
      hide AllFormed, Paced, Legal, Held, LeaseOk;
      match timer
      case ExpireTimer =>
        timeoutExpire := None;
        Push(Expired);
        startDelay := 0;
        StartDelayed(now);
      case T2Timer =>
        timeoutT2 := None;
        rx := NoRx;
        SetState(Rebinding);
        ResendFired(now, T2);
      case T1Timer =>
        timeoutT1 := None;
        SetState(Renewing);
        ResendFired(now, T1);
      case ResendTimer =>
        timeoutResend := None;
        ResendFired(now, Timer);
    }

    /** A cycle begins with the next message. */
    ghost predicate Starting()
      reads this
    {
      state.InitReboot? || (state.Init? && discoverAttempt < maxDiscoverAttempts)
    }

    /** Within `tick`: as `InOrder`, but T1 may still have to fire after T2 of the
        same moment. */
    ghost predicate Between(now: nat)
      reads `state, `timeoutT1, `timeoutT2
    {
      && (timeoutT1.Some? ==> Due(timeoutT1, now) || (timeoutT2.Some? && timeoutT1.value <= timeoutT2.value))
      && (state.Rebinding? ==> timeoutT2.None? && (timeoutT1.None? || Due(timeoutT1, now)))
      && (timeoutT1.Some? && timeoutT2.Some? ==> timeoutT1.value <= timeoutT2.value)
    }

    /** Within `tick`, while the lease is held: T1 and T2 are as they were or fired
        in order. */
    ghost predicate Passing(was: State, t1: Option<nat>, t2: Option<nat>, now: nat)
      reads this
    {
      && (timeoutT1 == t1 || (timeoutT1.None? && Due(t1, now))) && (timeoutT2 == t2 || (timeoutT2.None? && Due(t2, now)))
      && state == Phase(was, Fired(t1, timeoutT1), Fired(t2, timeoutT2))
      && (t1.Some? && t2.Some? && timeoutT1.Some? && timeoutT2.None? ==> t2.value <= t1.value)
      && (t1.Some? && t2.Some? && timeoutT2.Some? && timeoutT1.None? ==> t1.value < t2.value)
    }

    /** `tick`: the due timers in order of time, until none is left. */
    method Tick(now: nat)
      requires Valid() && now < INFINITY
      modifies this
      ensures Valid() && old(sent) <= sent && old(events) <= events
      ensures !Due(timeoutExpire, now) && !Due(timeoutT2, now) && !Due(timeoutT1, now) && !Due(timeoutResend, now)
      ensures Holding(state) && lease.value.lifetime < INFINITY ==> now < expireTime
      ensures Holding(state) ==> Holding(old(state)) && unchanged(`lease, `events, `expireTime)
      ensures Holding(old(state)) && !Holding(state) ==> Due(old(timeoutExpire), now)
      ensures Holding(state) ==> state == Phase(old(state), IfDue(old(timeoutT1), now), IfDue(old(timeoutT2), now))
      ensures old(state).Rebinding? ==> !state.Renewing?
      ensures old(Starting()) && Due(old(timeoutResend), now) ==> |sent| > |old(sent)|
    {
      hide AllFormed, Paced, Legal, Held, LeaseOk, Pending, GapOk, Recorded, Repeating;
      ghost var fired := false;
      while true
        invariant Sound() && Between(now) && old(sent) <= sent && old(events) <= events
        invariant !fired ==> unchanged(this)
        invariant fired && old(Starting()) ==> |sent| > |old(sent)|
        invariant Holding(state) ==> Holding(old(state)) && unchanged(`lease, `events, `expireTime, `timeoutExpire)
        invariant Holding(old(state)) && !Holding(state) ==> Due(old(timeoutExpire), now)
        invariant Holding(state) ==> Passing(old(state), old(timeoutT1), old(timeoutT2), now)
        decreases Pending(now)
      {
        var p := Earliest(timeoutExpire, timeoutT2, timeoutT1, timeoutResend, now);
        if p.None? {
          return;
        }
        Fire(p.value.timer, now);
        fired := true;
      }
    }

    // ── The public calls ───────────────────────────────────────────────

    /** The address the next INIT-REBOOT asks for. */
    method SetRequestAddress(a: Option<Addr>)
      requires Valid() && state.Stopped?
      modifies `lastAddr
      ensures Valid() && lastAddr == if a.Some? then a.value else 0
    {
      lastAddr := if a.Some? then a.value else 0;
    }

    /** `sd_dhcp_client_start`. */
    method Start(now: nat)
      requires Valid() && !Holding(state) && now < INFINITY
      modifies this
      ensures Valid() && !Holding(state) && old(sent) <= sent && !Due(timeoutResend, now)
      ensures old(lastAddr) != 0 || old(discoverAttempt) < old(maxDiscoverAttempts) ==> |sent| > |old(sent)|
    {
      hide AllFormed, Paced, Legal, Held, LeaseOk;
      if lastAddr != 0 {
        SetState(InitReboot);
      }
      startDelay := 0;
      StartDelayed(now);
      Tick(now);
    }

    /** `sd_dhcp_client_stop`. */
    method StopNow()
      requires Valid()
      modifies this
      ensures Valid() && state.Stopped? && sent == old(sent) && lastAddr == old(lastAddr)
      ensures events == if old(state).Stopped? then old(events) else old(events) + [Stop]
    {
      Halt();
    }

    /** The caller wants its lease renewed before T1. */
    method SendRenew(now: nat)
      requires Valid() && now < INFINITY
      modifies this
      ensures Valid() && old(sent) <= sent
      ensures !old(state).Bound? ==> unchanged(this)
      ensures old(state).Bound? ==> !Due(timeoutExpire, now) && !Due(timeoutResend, now)
    {
      hide AllFormed, Paced, Legal, Held, LeaseOk;
      if !state.Bound? {
        return;
      }
      SetState(Renewing);
      startDelay := 0;
      timeoutResend := Some(now);
      epoch := epoch + 1;
      Tick(now);
    }

    /** The caller found the address taken: a DECLINE, and a new cycle. */
    method SendDecline(now: nat)
      requires Valid() && now < INFINITY
      modifies this
      ensures Valid() && old(sent) <= sent
      ensures old(lease).None? ==> unchanged(this)
      ensures old(lease).Some? ==>
        && |sent| > |old(sent)| && sent[|old(sent)|].m.kind.Decline? && !Holding(state)
        && (Holding(old(state)) ==> old(events) + [Expired] <= events)
    {
      hide AllFormed, Paced, Legal, Held, LeaseOk;
      if state.Stopped? || lease.None? {
        return;
      }
      SendMessage(Decline, now, Declining, INFINITY);
      Restart(now);
      Tick(now);
    }

    /** `client_enter_requesting`: take the offered lease up. */
    method EnterRequesting(offered: Lease, now: nat)
      requires Valid() && state.Selecting? && LeaseOk(offered)
      modifies this
      ensures Valid() && state.Requesting? && lease == Some(offered) && events == old(events) + [Selected]
      ensures sent == old(sent) && timeoutResend == Some(now) && requestAttempt == 0
    {
      hide AllFormed, Paced, Legal, Held, LeaseOk, GapOk;
      lease := Some(offered);
      Push(Selected);
      DisableEventSources();
      SetState(Requesting);
      timeoutResend := Some(now);
    }

    /** `client_set_lease_timeouts` (section 4.4.5 of RFC 2131). */
    method SetLeaseTimeouts(now: nat)
      requires lease.Some? && LeaseOk(lease.value)
      requires timeoutT1.None? && timeoutT2.None? && timeoutExpire.None?
      modifies `t1Time, `t2Time, `expireTime, `timeoutT1, `timeoutT2, `timeoutExpire
      ensures lease.value.lifetime == INFINITY ==> timeoutT1.None? && timeoutT2.None? && timeoutExpire.None?
      ensures lease.value.lifetime < INFINITY ==>
        && expireTime == SatAdd(lease.value.timestamp, lease.value.lifetime) && timeoutExpire == Some(expireTime)
        && t1Time <= t2Time
        && (timeoutT2.Some? <==> now < expireTime) && (timeoutT2.Some? ==> timeoutT2 == Some(t2Time))
        && (timeoutT1.Some? <==> now < expireTime && now < t2Time) && (timeoutT1.Some? ==> timeoutT1 == Some(t1Time))
    {
      var l := lease.value;
      if l.lifetime == INFINITY {
        return;
      }
      expireTime := SatAdd(l.timestamp, l.lifetime);
      var draw1: nat := *;
      var draw2: nat := *;
      t1Time := SubSigned(SatAdd(l.timestamp, l.t1), Fuzz(draw1));
      t2Time := Max(SubSigned(SatAdd(l.timestamp, l.t2), Fuzz(draw2)), t1Time);
      timeoutExpire := Some(expireTime);
      if expireTime <= now {
        return;
      }
      timeoutT2 := Some(t2Time);
      if t2Time <= now {
        return;
      }
      timeoutT1 := Some(t1Time);
    }

    /** `client_enter_bound`. */
    method EnterBound(granted: Lease, now: nat)
      requires Valid() && LeaseOk(granted)
      requires state.Selecting? || state.Rebooting? || state.Requesting? || state.Renewing? || state.Rebinding?
      modifies this
      ensures Valid() && state.Bound? && lease == Some(granted) && lastAddr == granted.address && startDelay == 0
      ensures sent == old(sent)
      ensures events == old(events) + [if !Holding(old(state)) then IpAcquire
                                       else if SameBinding(old(lease).value, granted) then Renew else IpChange]
    {
      hide AllFormed, Paced, Legal, Held, LeaseOk, GapOk, SatAdd, SameBinding;
      var event := IpAcquire;
      if state.Renewing? || state.Rebinding? {
        event := if lease.Some? && SameBinding(lease.value, granted) then Renew else IpChange;
      }
      lease := Some(granted);
      DisableEventSources();
      Take(now);
      Push(event);
    }

    /** `client_enter_bound`, second half: the state and the timers of the lease. */
    method Take(now: nat)
      requires lease.Some? && LeaseOk(lease.value) && requestAttempt <= REQUEST_ATTEMPTS
      requires timeoutT1.None? && timeoutT2.None? && timeoutExpire.None?
      modifies `startDelay, `state, `discoverAttempt, `requestAttempt, `lastAddr,
        `t1Time, `t2Time, `expireTime, `timeoutT1, `timeoutT2, `timeoutExpire
      ensures Leased() && InOrder() && state.Bound? && lastAddr == lease.value.address && startDelay == 0
    {
      hide SatAdd;
      startDelay := 0;
      SetState(Bound);
      lastAddr := lease.value.address;
      SetLeaseTimeouts(now);
    }

    /** `dhcp_client_parse_message`: what the client accepts in its state. */
    function Accepted(r: Reply): bool
      reads this
    {
      && r.xid == xid
      && match r.kind
         case Offer => state.Selecting? && r.lease.Some?
         case Ack =>
           && (|| (state.Selecting? && rapidCommit && r.rapidCommit)
               || state.Rebooting? || state.Requesting? || state.Renewing? || state.Rebinding?)
           && r.lease.Some?
         case Nak =>
           && (state.Rebooting? || state.Requesting? || state.Renewing? || state.Rebinding?)
           && r.serverId.Some? && (lease.Some? ==> lease.value.server == r.serverId.value)
         case OtherKind => false
    }

    /** What a reply does, once it is parsed. */
    method Receive(r: Reply, toLeaseAddr: bool, now: nat)
      requires Valid() && now < INFINITY && (r.lease.Some? ==> LeaseOk(r.lease.value))
      modifies this
      ensures Valid() && old(sent) <= sent && old(events) <= events
      ensures old(rx).NoRx? || (old(rx).UdpRx? && !toLeaseAddr) || !old(Accepted(r)) ==> unchanged(this)
      ensures Holding(state) && !Holding(old(state)) ==>
        r.kind.Ack? && lease == Some(r.lease.value.(timestamp := now)) && old(events) + [IpAcquire] <= events
      ensures Holding(state) ==> lease == old(lease) || (r.kind.Ack? && lease == Some(r.lease.value.(timestamp := now)))
      ensures Holding(state) && lease.value.lifetime < INFINITY && !unchanged(this) ==> now < expireTime
    {
      hide AllFormed, Paced, Legal, Held, LeaseOk, GapOk;
      if rx.NoRx? || (rx.UdpRx? && !toLeaseAddr) {
        return;
      }
      if !Accepted(r) {
        return;
      }
      if r.kind.Offer? {
        Stamped(r.lease.value, now);
        EnterRequesting(r.lease.value.(timestamp := now), now);
      } else if r.kind.Ack? {
        Stamped(r.lease.value, now);
        EnterBound(r.lease.value.(timestamp := now), now);
      } else {
        Restart(now);
      }
      Tick(now);
    }
  }
}
