/** IPv4 address conflict detection (net/src/acd.rs; RFC 5227). Times are
    microseconds. */
module Acd {
  import opened Util

  const ANNOUNCE_INTERVAL: nat := 2_000_000
  const RATE_LIMIT_INTERVAL: nat := 60_000_000
  const DEFEND_INTERVAL: nat := 10_000_000
  const MAX_CONFLICTS: nat := 10

  datatype State = Init | Started | WaitingProbe | Probing | WaitingAnnounce | Announcing | Running

  datatype Send = ProbeFor(address: nat) | Announcement(address: nat)

  /** An ARP request or reply of Ethernet and IPv4. */
  datatype Arp = Arp(request: bool, sha: nat, spa: nat, tpa: nat)

  /** What happened, with what led to it: a binding with when its probing began,
      how many probes it sent, and whether every timer was served on time and
      there were fewer than ten conflicts. */
  datatype Mark = Bind(began: nat, time: nat, probes: nat, prompt: bool) | Conflict

  ghost predicate MarkOk(m: Mark, unit: nat) {
    m.Bind? ==> m.probes == 3 && (m.prompt ==> 4 * unit <= m.time - m.began < 7 * unit)
  }

  ghost predicate MarksOk(marks: seq<Mark>, unit: nat) { forall i | 0 <= i < |marks| :: MarkOk(marks[i], unit) }

  /** Defences of one binding: each more than 10 s after the one before. */
  ghost predicate Apart(times: seq<nat>) {
    forall i, j | 0 <= i && j == i + 1 && j < |times| :: times[i] + 10_000_000 < times[j]
  }

  lemma ApartStep(times: seq<nat>, t: nat)
    requires Apart(times) && (times != [] ==> times[|times| - 1] + 10_000_000 < t)
    ensures Apart(times + [t])
  {
  }

  lemma ApartNone()
    ensures Apart([])
  {
  }

  /** Three probes, a pause, two announcements, then nothing more. */
  function NextState(s: State, iteration: nat): State {
    match s
    case Started => WaitingProbe
    case WaitingProbe => Probing
    case Probing => if iteration == 0 then Probing else WaitingAnnounce
    case WaitingAnnounce => Announcing
    case Announcing => if iteration == 0 then Announcing else Running
    case _ => s
  }

  function NextSends(s: State, iteration: nat, address: nat): seq<Send> {
    match s
    case WaitingProbe => [ProbeFor(address)]
    case Probing => [ProbeFor(address)]
    case WaitingAnnounce => [Announcement(address)]
    case Announcing => if iteration == 0 then [Announcement(address)] else []
    case _ => []
  }

  /** Is the packet another host's claim to the address (section 2.1.1)? */
  predicate Conflicts(a: Arp, address: nat, announced: bool, own: set<nat>) {
    a.spa == address || (!announced && a.request && a.spa == 0 && a.tpa == address && a.sha !in own)
  }

  class Acd {
    var state: State
    var iteration: nat
    var conflicts: nat
    const unit: nat
    const mac: nat
    var defendWindow: nat
    var address: nat
    var timer: Option<nat>

    var sent: seq<Send>
    var marks: seq<Mark>
    // Of the probing or binding under way.
    var began: nat
    var probes: nat
    var announcements: nat
    var prompt: bool
    var defences: seq<nat>

    /** A timer for `t` is on schedule. */
    ghost predicate Due(t: nat)
      reads this
    {
      var d := t - began;
      match state
      case Started => d == 0
      case WaitingProbe => 0 <= d < unit
      case Probing => (iteration == 0 ==> unit <= d < 3 * unit) && (iteration == 1 ==> 2 * unit <= d < 5 * unit)
      case WaitingAnnounce => 4 * unit <= d < 7 * unit
      case _ => true
    }

    ghost predicate Scheduled()
      reads this
    {
      prompt && timer.Some? ==> Due(timer.value)
    }

    /** `fired`: the timer has just been taken down. */
    ghost predicate Ok(fired: bool)
      reads this
    {
      && 0 < unit && MarksOk(marks, unit) && Apart(defences)
      && (fired || (timer.Some? <==> !state.Init? && !state.Running?))
      && (match state
          case Started => probes == 0
          case WaitingProbe => probes == 0 && iteration == 0
          case Probing => probes == iteration + 1 && iteration <= 1
          case WaitingAnnounce => probes == 3 && announcements == 0 && iteration == 0
          case Announcing => announcements == iteration + 1 && iteration <= 1
          case Running => announcements == 2
          case Init => true)
      && (state.Announcing? || state.Running? ==>
            defendWindow == if defences == [] then 0 else defences[|defences| - 1] + 10_000_000)
      && (state.WaitingProbe? || state.Probing? || state.WaitingAnnounce? ==> defendWindow == 0 && defences == [])
    }

    ghost predicate Valid()
      reads this
    {
      Ok(false) && Scheduled()
    }

    constructor (mac: nat, timeout: nat)
      ensures Valid() && state.Init?
      ensures var t := Max(1000, Min(if timeout == 0 then 200_000 else timeout, 60_000_000)); 7 * (unit - 1) < t <= 7 * unit
    {
      var t := if timeout == 0 then 200_000 else timeout;
      this.mac := mac;
      unit := (Max(1000, Min(t, 60_000_000)) + 6) / 7;
      state, iteration, conflicts, defendWindow, address, timer := Init, 0, 0, 0, 0, None;
      sent, marks, began, probes, announcements, prompt, defences := [], [], 0, 0, 0, true, [];
    }

    method SetState(s: State, reset: bool)
      modifies `state, `iteration
      ensures state == s && iteration == if s == old(state) && !reset then old(iteration) + 1 else 0
    {
      if s == state && !reset {
        iteration := iteration + 1;
      } else {
        state := s;
        iteration := 0;
      }
    }

    method Reset()
      requires Ok(true)
      modifies `timer, `state, `iteration
      ensures Valid() && state.Init? && timer.None?
    {
      timer := None;
      SetState(Init, true);
    }

    method SetNextWakeup(now: nat, usec: nat, random: nat)
      modifies `timer
      ensures timer.Some? && now + usec <= timer.value && (random > 0 ==> timer.value < now + usec + random)
      ensures random == 0 ==> timer == Some(now + usec)
    {
      var next := usec;
      if random > 0 {
        var draw: nat := *;
        next := next + draw % random;
      }
      timer := Some(now + next);
    }

    /** `ipv4acd_on_timeout`: the timer, set for `t`, is served at `now`. */
    method OnTimeout(t: nat, now: nat)
      requires Ok(true) && t <= now && !state.Init? && !state.Running?
      requires timer.None? && (prompt ==> Due(t))
      modifies this
      ensures Valid()
      ensures timer.Some? ==> now < timer.value || (old(state).Started? && state.WaitingProbe?)
      ensures state == NextState(old(state), old(iteration))
      ensures sent == old(sent) + NextSends(old(state), old(iteration), address)
      ensures marks == old(marks) + (if old(state).WaitingAnnounce? then [Bind(began, now, 3, prompt)] else [])
      ensures address == old(address)
    {
      hide MarksOk, Apart;
      prompt := prompt && t == now;
      if state.Started? {
        BeginProbing(now);
      } else if state.WaitingProbe? || state.Probing? {
        ProbeOnce(now);
      } else {
        Announce(now);
      }
    }

    method BeginProbing(now: nat)
      requires Ok(true) && timer.None? && state.Started? && (prompt ==> now == began)
      modifies this
      ensures Valid() && state.WaitingProbe? && unchanged(`sent, `marks, `address, `conflicts)
      ensures var rest := if conflicts >= MAX_CONFLICTS then RATE_LIMIT_INTERVAL else 0;
        timer.Some? && now + rest <= timer.value < now + rest + unit
    {
      hide MarksOk, Apart;
      ApartNone();
      defendWindow, defences := 0, [];
      SetState(WaitingProbe, true);
      prompt := prompt && conflicts < MAX_CONFLICTS;
      SetNextWakeup(now, if conflicts >= MAX_CONFLICTS then RATE_LIMIT_INTERVAL else 0, unit);
    }

    method ProbeOnce(now: nat)
      requires Ok(true) && timer.None? && (state.WaitingProbe? || state.Probing?) && (prompt ==> Due(now))
      modifies this
      ensures Valid() && state == NextState(old(state), old(iteration)) && unchanged(`marks, `address)
      ensures sent == old(sent) + [ProbeFor(address)] && timer.Some?
      ensures if state.Probing? then now + unit <= timer.value < now + 2 * unit else timer.value == now + 2 * unit
    {
      hide MarksOk, Apart;
      sent := sent + [ProbeFor(address)];
      probes := probes + 1;
      if iteration < 1 {
        SetState(Probing, false);
        SetNextWakeup(now, unit, unit);
      } else {
        SetState(WaitingAnnounce, true);
        SetNextWakeup(now, 2 * unit, 0);
        announcements := 0;
      }
    }

    method Announce(now: nat)
      requires Ok(true) && timer.None? && (state.WaitingAnnounce? || state.Announcing?) && (prompt ==> Due(now))
      modifies this
      ensures Valid() && state == NextState(old(state), old(iteration)) && unchanged(`address)
      ensures sent == old(sent) + NextSends(old(state), old(iteration), address)
      ensures timer.Some? ==> now < timer.value
      ensures marks == old(marks) + (if old(state).WaitingAnnounce? then [Bind(began, now, 3, prompt)] else [])
    {
      hide MarksOk, Apart;
      if state.Announcing? && iteration >= 1 {
        SetState(Running, false);
        return;
      }
      sent := sent + [Announcement(address)];
      announcements := announcements + 1;
      SetState(Announcing, false);
      SetNextWakeup(now, ANNOUNCE_INTERVAL, 0);
      if iteration == 0 {
        conflicts := 0;
        MarkStep(marks, Bind(began, now, probes, prompt), unit);
        marks := marks + [Bind(began, now, probes, prompt)];
      }
    }

    ghost function Pending(now: nat): nat
      reads this
    {
      if timer.None? || timer.value > now then 0 else if state.Started? then 3 else if state.WaitingProbe? then 2 else 1
    }

    /** `tick`: fire the timer while it is due. */
    method Tick(now: nat)
      requires Valid()
      modifies this
      ensures Valid() && (timer.Some? ==> now < timer.value) && address == old(address)
      ensures old(timer).None? || now < old(timer).value ==> unchanged(this)
      ensures old(state).Init? <==> state.Init?
    {
      hide MarksOk, Apart;
      while timer.Some? && timer.value <= now
        invariant Valid() && address == old(address) && (old(state).Init? <==> state.Init?)
        invariant old(timer).None? || now < old(timer).value ==> unchanged(this)
        decreases Pending(now)
      {
        var t := timer.value;
        timer := None;
        OnTimeout(t, now);
      }
    }

    /** `sd_ipv4acd_start`, only from INIT. */
    method Start(addr: nat, resetConflicts: bool, now: nat)
      requires Valid() && state.Init? && addr != 0
      modifies this
      ensures Valid() && !state.Init? && address == addr && (timer.Some? ==> now < timer.value)
    {
      hide MarksOk, Apart;
      address := addr;
      if resetConflicts {
        conflicts := 0;
      }
      SetNextWakeup(now, 0, 0);
      SetState(Started, true);
      began, probes, prompt := now, 0, true;
      Tick(now);
    }

    /** `ipv4acd_on_conflict`. */
    method OnConflict()
      requires Valid()
      modifies this
      ensures Valid() && state.Init? && conflicts == old(conflicts) + 1 && marks == old(marks) + [Conflict]
      ensures sent == old(sent) && defences == old(defences) && address == old(address)
    {
      hide Apart;
      conflicts := conflicts + 1;
      Reset();
      MarkStep(marks, Conflict, unit);
      marks := marks + [Conflict];
    }

    /** `ipv4acd_on_packet`: a bound address is defended once in ten seconds and
        given up to a second claim; an address being probed is given up at once. */
    method Packet(a: Arp, now: nat, own: set<nat>)
      requires Valid()
      modifies this
      ensures Valid() && address == old(address)
      ensures var heard := a.sha != mac && (a.spa == address || a.tpa == address);
        && (!heard || old(state).Init? ==> unchanged(this))
        && (heard && (old(state).Announcing? || old(state).Running?) ==>
              if !Conflicts(a, address, true, own) then unchanged(this)
              else if (old(defences) == [] && now > 0) || (old(defences) != [] && now > old(defences)[|old(defences)| - 1] + DEFEND_INTERVAL)
              then state == old(state) && timer == old(timer) && sent == old(sent) + [Announcement(address)] && defences == old(defences) + [now]
              else state.Init? && marks == old(marks) + [Conflict])
        && (heard && !(old(state).Init? || old(state).Announcing? || old(state).Running?) ==>
              if Conflicts(a, address, false, own) then state.Init? && marks == old(marks) + [Conflict] else unchanged(this))
    {
      hide MarksOk, Apart;
      if state.Init? {
        return;
      }
      if a.sha == mac || (a.spa != address && a.tpa != address) {
        return;
      }
      if state.Announcing? || state.Running? {
        if Conflicts(a, address, true, own) {
          if now > defendWindow {
            defendWindow := now + DEFEND_INTERVAL;
            sent := sent + [Announcement(address)];
            ApartStep(defences, now);
            defences := defences + [now];
          } else {
            OnConflict();
          }
        }
      } else if Conflicts(a, address, false, own) {
        OnConflict();
      }
    }

    method Stop()
      requires Valid()
      modifies this
      ensures Valid() && state.Init? && timer.None?
    {
      hide MarksOk, Apart;
      Reset();
    }
  }

  lemma MarkStep(marks: seq<Mark>, m: Mark, unit: nat)
    requires MarksOk(marks, unit) && MarkOk(m, unit)
    ensures MarksOk(marks + [m], unit)
  {
  }
}
