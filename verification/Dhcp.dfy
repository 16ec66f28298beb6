/** The DHCPv4 client's vocabulary: times, leases, messages and histories
    (net/src/dhcp.rs, net/src/dhcp/lease.rs; RFC 2131). Times are microseconds
    in 64 bits, saturating at `INFINITY`. */
module Dhcp {
  import opened Util

  const INFINITY: nat := 0xFFFF_FFFF_FFFF_FFFF
  const RESTART_MIN: nat := 1_000_000
  const RESTART_MAX: nat := 1_800_000_000
  const REBOOT_ATTEMPTS: nat := 2
  const REQUEST_ATTEMPTS: nat := 5
  const TRANSIENT_ATTEMPTS: nat := 3

  /** An IPv4 address; 0 is none. */
  type Addr = nat

  datatype State =
    | Stopped | Init | Selecting | InitReboot | Rebooting | Requesting | Bound | Renewing | Rebinding

  predicate Holding(s: State) { s.Bound? || s.Renewing? || s.Rebinding? }

  datatype Event = Selected | IpAcquire | IpChange | Renew | Expired | Stop | TransientFailure

  datatype Rx = NoRx | RawRx | UdpRx

  datatype Kind = Discover | Request | Decline

  datatype Dest = Broadcast | Server(addr: Addr)

  // ── Times ────────────────────────────────────────────────────────────

  function SatAdd(a: nat, b: nat): nat { Min(a + b, INFINITY) }

  function SatSub(a: nat, b: nat): nat { Max(a - b, 0) }

  /** A random shift of up to a second either way. */
  function Fuzz(draw: nat): (f: int)
    ensures -1_000_000 <= f < 1_000_000
  {
    draw % 2_000_000 - 1_000_000
  }

  /** `usec_sub_signed`. */
  function SubSigned(t: nat, delta: int): nat {
    if delta < 0 then SatAdd(t, -delta) else if t == INFINITY then INFINITY else SatSub(t, delta)
  }

  /** Seconds before a retransmission: 4, doubling to 64. */
  function Backoff(attempt: nat): nat {
    if attempt <= 1 then 4 else if attempt == 2 then 8 else if attempt == 3 then 16 else if attempt == 4 then 32 else 64
  }

  /** `client_compute_request_timeout` (section 4.1 of RFC 2131). */
  function RequestTimeout(attempt: nat, draw: nat): (t: nat)
    requires attempt >= 1
    ensures 3_000_000 < t <= 65_000_000
    ensures Backoff(attempt) * 1_000_000 - 1_000_000 < t <= Backoff(attempt) * 1_000_000 + 1_000_000
  {
    SubSigned(Backoff(attempt) * 1_000_000, Fuzz(draw))
  }

  /** `client_compute_reacquisition_timeout` (section 4.4.5 of RFC 2131). */
  function ReacquisitionTimeout(now: nat, until: nat): nat {
    Max(SatSub(until, now) / 2, 60_000_000)
  }

  /** `usec_to_be16_sec`: whole seconds, rounded up. */
  function Seconds16(t: nat): nat {
    if t == INFINITY then 65535
    else if t >= 65_534_000_000 then 65534
    else (t + 999_999) / 1_000_000
  }

  /** A message's `secs`: never zero. */
  function Elapsed(now: nat, start: nat): (s: nat)
    ensures 1 <= s <= 65535
  {
    var e := SatSub(now, start);
    Seconds16(if e == 0 then 1_000_000 else e)
  }

  // ── Leases ───────────────────────────────────────────────────────────

  datatype Lease = Lease(
    address: Addr, server: Addr, mask: Addr, routers: seq<Addr>,
    lifetime: nat, t1: nat, t2: nat, timestamp: nat)

  /** What every lease read from a message satisfies. */
  ghost predicate LeaseOk(l: Lease) {
    && l.address != 0 && 30_000_000 <= l.lifetime <= INFINITY
    && (l.lifetime < INFINITY ==> 0 < l.t1 < l.t2 < l.lifetime)
  }

  function SameBinding(a: Lease, b: Lease): bool {
    a.address == b.address && a.mask == b.mask && a.routers == b.routers
  }

  /** An option's seconds as a time; 0 when the option is missing. */
  function OptionTime(seconds: Option<nat>): nat {
    match seconds
    case None => 0
    case Some(s) => if s == 0xFFFF_FFFF then INFINITY else s * 1_000_000
  }

  datatype Times = Times(lifetime: nat, t1: nat, t2: nat)

  /** The lifetime, T1 and T2 of a lease from options 51, 58 and 59: whatever
      the server says, T1 comes before T2 and T2 before the end. */
  function LeaseTimes(leaseTime: nat, renewal: Option<nat>, rebinding: Option<nat>): (t: Times)
    requires 0 < leaseTime <= 0xFFFF_FFFF
    requires renewal.Some? ==> renewal.value <= 0xFFFF_FFFF
    requires rebinding.Some? ==> rebinding.value <= 0xFFFF_FFFF
    ensures 30_000_000 <= t.lifetime <= INFINITY
    ensures t.lifetime == INFINITY <==> leaseTime == 0xFFFF_FFFF
    ensures t.lifetime < INFINITY ==> 0 < t.t1 < t.t2 < t.lifetime
    ensures renewal.Some? && rebinding.Some? && leaseTime < 0xFFFF_FFFF
            && 30 < leaseTime && 0 < renewal.value < rebinding.value < leaseTime
            ==> t == Times(leaseTime * 1_000_000, renewal.value * 1_000_000, rebinding.value * 1_000_000)
  {
    var lifetime := Max(OptionTime(Some(leaseTime)), 30_000_000);
    if lifetime == INFINITY then Times(INFINITY, 0, 0)
    else FiniteTimes(lifetime, OptionTime(renewal), OptionTime(rebinding))
  }

  /** T1 and T2 as given where they are in order, else half and seven eighths of
      the lifetime. */
  function FiniteTimes(lifetime: nat, given1: nat, given2: nat): (t: Times)
    requires lifetime >= 30_000_000
    ensures t.lifetime == lifetime && 0 < t.t1 < t.t2 < t.lifetime
    ensures 0 < given1 < given2 < lifetime ==> t == Times(lifetime, given1, given2)
  {
    var t2 := if given2 == 0 || given2 >= lifetime then lifetime * 7 / 8 else given2;
    var t1 := if given1 == 0 || given1 >= t2 then lifetime / 2 else given1;
    Times(lifetime, t1, if t1 >= t2 then lifetime * 7 / 8 else t2)
  }

  // ── Messages ─────────────────────────────────────────────────────────

  /** The parts of a message that depend on the client's state. */
  datatype Message = Message(
    kind: Kind, secs: nat, ciaddr: Addr, serverId: Option<Addr>, requested: Option<Addr>, rapidCommit: bool)

  datatype Cause = Timer | T1 | T2 | Declining

  /** A message as sent: where to, in which state, why, when, and when it is to
      be repeated. `epoch` counts how often the retransmission timer has been
      cancelled or set from outside. */
  datatype Sent = Sent(m: Message, dest: Dest, at: State, cause: Cause, time: nat, next: nat, epoch: nat)

  /** The form of each message: for REQUEST that of section 4.3.2 of RFC 2131. */
  ghost predicate Formed(s: Sent) {
    && 1 <= s.m.secs <= 65535
    && match s.m.kind
       case Discover => s.at.Selecting? && s.m.ciaddr == 0 && s.m.serverId == None && s.dest.Broadcast?
       case Decline => s.m.ciaddr == 0 && s.m.serverId.Some? && s.m.requested.Some? && s.dest.Broadcast?
       case Request =>
         match s.at
         case Requesting => s.m.ciaddr == 0 && s.m.serverId.Some? && s.m.requested.Some? && s.dest.Broadcast?
         case Rebooting => s.m.ciaddr == 0 && s.m.serverId == None && s.m.requested.Some? && s.dest.Broadcast?
         case Renewing => s.m.ciaddr != 0 && s.m.serverId == None && s.m.requested == None && s.dest.Server?
         case Rebinding => s.m.ciaddr != 0 && s.m.serverId == None && s.m.requested == None && s.dest.Broadcast?
         case _ => false
  }

  ghost predicate AllFormed(sent: seq<Sent>) { forall i | 0 <= i < |sent| :: Formed(sent[i]) }

  /** How far off the repetition is set: after more than 3 s and at most 65 s in
      SELECTING and REQUESTING, a quarter of that in REBOOTING, at least a minute
      in RENEWING and REBINDING. */
  ghost predicate GapOk(at: State, time: nat, next: nat) {
    next == INFINITY ||
    match at
    case Selecting => 3_000_000 < next - time <= 65_000_000
    case Requesting => 3_000_000 < next - time <= 65_000_000
    case Rebooting => 750_000 <= next - time <= 16_250_000
    case Renewing => 60_000_000 <= next - time
    case Rebinding => 60_000_000 <= next - time
    case _ => false
  }

  /** Every message has its distance, and a repetition keeps the one before. */
  ghost predicate Paced(sent: seq<Sent>) {
    && (forall i | 0 <= i < |sent| :: GapOk(sent[i].at, sent[i].time, sent[i].next))
    && (forall i, j | 0 <= i && j == i + 1 && j < |sent| :: Follows(sent[i], sent[j]))
  }

  ghost predicate Follows(a: Sent, b: Sent) { b.cause.Timer? && a.epoch == b.epoch ==> a.next <= b.time }

  lemma SentStep(sent: seq<Sent>, s: Sent)
    requires AllFormed(sent) && Paced(sent) && Formed(s) && GapOk(s.at, s.time, s.next)
    requires sent != [] ==> Follows(sent[|sent| - 1], s)
    ensures AllFormed(sent + [s]) && Paced(sent + [s])
  {
  }

  // ── The event stream ─────────────────────────────────────────────────

  /** Whether a caller that follows the events has an address. */
  function Held(events: seq<Event>): bool {
    if events == [] then false
    else
      match events[|events| - 1]
      case IpAcquire => true
      case Expired => false
      case Stop => false
      case _ => Held(events[..|events| - 1])
  }

  ghost predicate Fits(held: bool, e: Event) {
    match e
    case IpAcquire => !held
    case IpChange => held
    case Renew => held
    case Expired => held
    case _ => true
  }

  ghost predicate Legal(events: seq<Event>) {
    forall i | 0 <= i < |events| :: Fits(Held(events[..i]), events[i])
  }

  lemma EventStep(events: seq<Event>, e: Event)
    requires Legal(events) && Fits(Held(events), e)
    ensures Legal(events + [e])
    ensures Held(events + [e]) == (e.IpAcquire? || (Held(events) && !e.Expired? && !e.Stop?))
  {
    var all := events + [e];
    assert all[..|events|] == events;
    forall i | 0 <= i < |all| ensures Fits(Held(all[..i]), all[i]) {
      assert i < |events| ==> all[..i] == events[..i];
    }
  }

  /** Holding ends only with Expired or Stop. */
  lemma {:induction false} HoldingEnds(events: seq<Event>, i: nat, j: nat) returns (k: nat)
    requires i <= j <= |events| && Held(events[..i]) && !Held(events[..j])
    ensures i <= k < j && (events[k].Expired? || events[k].Stop?)
    decreases j - i
  {
    var before := events[..j - 1];
    assert events[..j][..j - 1] == before;
    assert events[..j][j - 1] == events[j - 1];
    if Held(before) {
      k := j - 1;
    } else {
      k := HoldingEnds(events, i, j - 1);
    }
  }

  // ── Timers ───────────────────────────────────────────────────────────

  datatype TimerKind = ExpireTimer | T2Timer | T1Timer | ResendTimer

  predicate Due(t: Option<nat>, now: nat) { t.Some? && t.value <= now }

  datatype Pick = Pick(time: nat, timer: TimerKind)

  function Better(best: Option<Pick>, t: Option<nat>, timer: TimerKind, now: nat): Option<Pick> {
    if Due(t, now) && (best.None? || t.value < best.value.time) then Some(Pick(t.value, timer)) else best
  }

  /** The due timer to fire: the earliest, the first named among equals. */
  function Earliest(expire: Option<nat>, t2: Option<nat>, t1: Option<nat>, resend: Option<nat>, now: nat): (p: Option<Pick>)
    ensures p.None? <==> !Due(expire, now) && !Due(t2, now) && !Due(t1, now) && !Due(resend, now)
    ensures p.Some? ==>
      && p.value.time <= now
      && Some(p.value.time) == (match p.value.timer
                                case ExpireTimer => expire
                                case T2Timer => t2
                                case T1Timer => t1
                                case ResendTimer => resend)
      && (expire.Some? ==> p.value.time <= expire.value) && (t2.Some? ==> p.value.time <= t2.value)
      && (t1.Some? ==> p.value.time <= t1.value) && (resend.Some? ==> p.value.time <= resend.value)
      && (p.value.timer.T1Timer? && t2.Some? ==> p.value.time < t2.value)
  {
    Better(Better(Better(Better(None, expire, ExpireTimer, now), t2, T2Timer, now), t1, T1Timer, now), resend, ResendTimer, now)
  }

  /** Where a held lease is after its timers fired: REBINDING once T2 did, but
      back in RENEWING when T1 was set for the same moment, since T2 then fires
      first. */
  function Phase(was: State, t1: Option<nat>, t2: Option<nat>): State {
    match (t1, t2)
    case (None, None) => was
    case (Some(_), None) => Renewing
    case (None, Some(_)) => Rebinding
    case (Some(a), Some(b)) => if a < b then Rebinding else Renewing
  }

  /** The timer, if it has fired. */
  function Fired(before: Option<nat>, after: Option<nat>): Option<nat> { if after.None? then before else None }

  function IfDue(t: Option<nat>, now: nat): Option<nat> { if Due(t, now) then t else None }
}
