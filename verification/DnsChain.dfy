/** Names, records and the walk along CNAMEs within one answer
    (`follow` and the loop of `query_ready`, net/src/dns.rs; section 3.6.2 of
    RFC 1034). */
module DnsChain {
  import opened Util

  const RCODE_SUCCESS: nat := 0
  const RCODE_FORMERR: nat := 1
  const RCODE_SERVFAIL: nat := 2
  const RCODE_NXDOMAIN: nat := 3
  const RCODE_NOTIMP: nat := 4
  const RCODE_REFUSED: nat := 5
  const TYPE_A: nat := 1
  const TYPE_CNAME: nat := 5
  const REDIRECTS_MAX: nat := 16
  const TTL_MAX: nat := 0xFFFF_FFFF

  datatype Key = Key(name: string, rtype: nat)

  datatype RData = A(addr: nat) | Cname(target: string) | Other

  datatype Rr = Rr(inAnswer: bool, name: string, rtype: nat, ttl: nat, data: RData)

  datatype Failure = Timeout | NoServers | NetworkDown | InvalidReply | Unreachable | CnameLoop

  datatype Outcome =
    | Addrs(addrs: seq<nat>, ttl: nat)
    | NxDomain
    | NoData
    | Rcode(rcode: nat)
    | Failed(why: Failure)

  // ── One step: `follow` ───────────────────────────────────────────────

  /** The answer-section records for the key. */
  predicate Here(key: Key, r: Rr) { r.inAnswer && r.name == key.name && r.rtype == key.rtype }

  predicate Alias(key: Key, r: Rr) { r.inAnswer && r.name == key.name && r.rtype == TYPE_CNAME }

  function Matching(key: Key, answer: seq<Rr>): seq<Rr> {
    if answer == [] then []
    else (if Here(key, answer[0]) then [answer[0]] else []) + Matching(key, answer[1..])
  }

  function Addresses(rs: seq<Rr>): seq<nat> {
    if rs == [] then [] else (if rs[0].data.A? then [rs[0].data.addr] else []) + Addresses(rs[1..])
  }

  function MinTtl(rs: seq<Rr>, ttl: nat): nat {
    if rs == [] then ttl else Min(rs[0].ttl, MinTtl(rs[1..], ttl))
  }

  function FirstAlias(key: Key, answer: seq<Rr>): Option<Rr> {
    if answer == [] then None
    else if Alias(key, answer[0]) then Some(answer[0])
    else FirstAlias(key, answer[1..])
  }

  lemma {:induction false} MatchingIs(key: Key, answer: seq<Rr>, r: Rr)
    ensures r in Matching(key, answer) <==> r in answer && Here(key, r)
  {
    if answer != [] {
      MatchingIs(key, answer[1..], r);
    }
  }

  lemma {:induction false} MinTtlIs(rs: seq<Rr>, ttl: nat)
    ensures MinTtl(rs, ttl) <= ttl && forall r | r in rs :: MinTtl(rs, ttl) <= r.ttl
    ensures MinTtl(rs, ttl) == ttl || exists r :: r in rs && MinTtl(rs, ttl) == r.ttl
  {
    if rs != [] {
      MinTtlIs(rs[1..], ttl);
      assert rs == [rs[0]] + rs[1..];
    }
  }

  datatype Step = Done(outcome: Outcome) | Redirect(key: Key, ttl: nat)

  function Follow(key: Key, answer: seq<Rr>, rcode: nat, ttl: nat): Step {
    var here := Matching(key, answer);
    if here != [] then Done(Addrs(Addresses(here), MinTtl(here, ttl)))
    else
      match FirstAlias(key, answer)
      case Some(Rr(_, _, _, t, Cname(target))) => Redirect(Key(target, key.rtype), Min(ttl, t))
      case _ => Done(if rcode == RCODE_NXDOMAIN then NxDomain else NoData)
  }

  // ── The chain within one answer ──────────────────────────────────────

  /** The query is settled, or its alias's target is to be asked for. */
  datatype Chased = Settled(outcome: Outcome, redirects: nat) | Ask(key: Key, ttl: nat, redirects: nat)

  function Chase(key: Key, answer: seq<Rr>, rcode: nat, ttl: nat, redirects: nat, moved: bool): (c: Chased)
    requires redirects <= REDIRECTS_MAX
    ensures redirects <= c.redirects <= REDIRECTS_MAX
    ensures c.Ask? && !moved ==> redirects < c.redirects
    decreases REDIRECTS_MAX - redirects
  {
    match Follow(key, answer, rcode, ttl)
    case Done(o) => if moved && !o.Addrs? then Ask(key, ttl, redirects) else Settled(o, redirects)
    case Redirect(k, t) =>
      if redirects >= REDIRECTS_MAX || k == key then Settled(Failed(CnameLoop), redirects)
      else Chase(k, answer, rcode, t, redirects + 1, true)
  }

  /** The loop of `query_ready`. */
  method Walk(key0: Key, answer: seq<Rr>, rcode: nat, ttl0: nat, redirects0: nat) returns (c: Chased)
    requires redirects0 <= REDIRECTS_MAX
    ensures c == Chase(key0, answer, rcode, ttl0, redirects0, false)
  {
    var key, ttl, redirects, moved := key0, ttl0, redirects0, false;
    while true
      invariant redirects0 <= redirects <= REDIRECTS_MAX
      invariant Chase(key, answer, rcode, ttl, redirects, moved) == Chase(key0, answer, rcode, ttl0, redirects0, false)
      decreases REDIRECTS_MAX - redirects
    {
      match Follow(key, answer, rcode, ttl)
      case Done(o) =>
        if moved && !o.Addrs? {
          return Ask(key, ttl, redirects);
        }
        return Settled(o, redirects);
      case Redirect(k, t) =>
        if redirects >= REDIRECTS_MAX || k == key {
          return Settled(Failed(CnameLoop), redirects);
        }
        redirects := redirects + 1;
        key, ttl, moved := k, t, true;
    }
  }

  // ── What the walk means ──────────────────────────────────────────────

  /** `a` has no records of its own and its first CNAME names `b`. */
  ghost predicate Links(a: Key, b: Key, answer: seq<Rr>) {
    && a != b
    && Matching(a, answer) == []
    && FirstAlias(a, answer).Some?
    && FirstAlias(a, answer).value.data == Cname(b.name) && b.rtype == a.rtype
  }

  ghost predicate Chain(keys: seq<Key>, answer: seq<Rr>) {
    keys != [] && forall i, j | 0 <= i && j == i + 1 && j < |keys| :: Links(keys[i], keys[j], answer)
  }

  /** `key` has neither records nor an alias that can be followed. */
  ghost predicate DeadEnd(key: Key, answer: seq<Rr>) {
    Matching(key, answer) == [] && (FirstAlias(key, answer).Some? ==> !FirstAlias(key, answer).value.data.Cname?)
  }

  /** The lowest TTL of the aliases along the chain and of `ttl`. */
  ghost function ChainTtl(keys: seq<Key>, answer: seq<Rr>, ttl: nat): nat {
    if |keys| <= 1 then ttl
    else
      match FirstAlias(keys[0], answer)
      case Some(r) => ChainTtl(keys[1..], answer, Min(ttl, r.ttl))
      case None => ttl
  }

  /** What a walk that ended at `last` may report. */
  ghost predicate Ended(c: Chased, last: Key, answer: seq<Rr>, rcode: nat, ttl: nat, moved: bool) {
    match c
    case Settled(Addrs(addrs, t), _) =>
      && Matching(last, answer) != []
      && addrs == Addresses(Matching(last, answer)) && t == MinTtl(Matching(last, answer), ttl)
    case Settled(NxDomain, _) => !moved && DeadEnd(last, answer) && rcode == RCODE_NXDOMAIN
    case Settled(NoData, _) => !moved && DeadEnd(last, answer) && rcode != RCODE_NXDOMAIN
    case Settled(Rcode(_), _) => false
    case Settled(Failed(why), r) =>
      && why == CnameLoop && Matching(last, answer) == []
      && FirstAlias(last, answer).Some? && FirstAlias(last, answer).value.data.Cname?
      && (r == REDIRECTS_MAX || FirstAlias(last, answer).value.data.target == last.name)
    case Ask(k, t, _) => moved && k == last && DeadEnd(last, answer) && t == ttl
  }

  /** The walk follows the answer's aliases from `key`, one redirect each, and
      ends where there are records (reporting them under the chain's lowest
      TTL), at a dead end, at a name that is its own alias, or at the limit. */
  lemma {:induction false} ChaseMeans(key: Key, answer: seq<Rr>, rcode: nat, ttl: nat, redirects: nat, moved: bool)
    returns (keys: seq<Key>)
    requires redirects <= REDIRECTS_MAX
    ensures Chain(keys, answer) && keys[0] == key
    ensures var c := Chase(key, answer, rcode, ttl, redirects, moved);
            && |keys| - 1 == c.redirects - redirects
            && Ended(c, keys[|keys| - 1], answer, rcode, ChainTtl(keys, answer, ttl), moved || |keys| > 1)
    decreases REDIRECTS_MAX - redirects
  {
    hide Matching, Addresses, MinTtl, FirstAlias;
    match Follow(key, answer, rcode, ttl)
    case Done(_) =>
      keys := [key];
    case Redirect(k, t) =>
      if redirects >= REDIRECTS_MAX || k == key {
        keys := [key];
      } else {
        var rest := ChaseMeans(k, answer, rcode, t, redirects + 1, true);
        keys := [key] + rest;
        assert Links(key, k, answer);
        assert keys[1..] == rest;
        forall i, j | 0 <= i && j == i + 1 && j < |keys| ensures Links(keys[i], keys[j], answer) {
          if i > 0 {
            assert keys[i] == rest[i - 1] && keys[j] == rest[j - 1];
          }
        }
      }
  }
}
