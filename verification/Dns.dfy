/** The stub resolver's transactions and queries (net/src/dns.rs). The cache,
    the servers' learnt feature levels and the packet parser are taken as
    arbitrary: every call into them may return anything. */
module Dns {
  import opened Util
  import opened DnsChain

  const ATTEMPTS_MAX: nat := 24
  const SENDS_MAX: nat := 48
  const UDP_TIMEOUT: nat := 5_000_000
  const TCP_TIMEOUT: nat := 10_000_000
  const QUERY_TIMEOUT: nat := 120_000_000
  const HEADER_SIZE: nat := 12

  datatype Proto = OverUdp | OverTcp

  /** The feature levels, lowest first. */
  datatype Level = TcpOnly | PlainUdp | Edns0 {
    function Rank(): nat {
      match this
      case TcpOnly => 0
      case PlainUdp => 1
      case Edns0 => 2
    }
  }

  datatype TxState =
    | Pending
    | Success(rcode: nat, answer: seq<Rr>)
    | RcodeFailure(rcode: nat)
    | Broken(why: Failure)

  datatype Tx = Tx(
    id: nat,
    key: Key,
    state: TxState,
    server: Option<nat>,
    level: Level,
    clamp: Option<Level>,
    attempts: nat,
    picked: nat,
    seenTimeout: bool,
    proto: Proto,
    timeoutAt: Option<nat>,
    udpOpen: bool)

  datatype Query = Query(
    key: Key,
    redirects: nat,
    chainTtl: nat,
    tx: Option<nat>,
    outcome: Option<Outcome>,
    deadline: nat)

  datatype Send =
    | Ask(tx: nat, proto: Proto, server: nat, id: nat, key: Key)
    | Close(tx: nat)

  datatype Result = Ok(send: Send) | Err(why: Failure)

  datatype Hit = Hit(rcode: nat, answer: seq<Rr>)

  /** A reply's bytes as far as the resolver looks at them; `body` is what the
      packet parser made of them. */
  datatype Packet = Packet(len: nat, id: nat, response: bool, truncated: bool, body: Option<Reply>)

  /** A parsed reply; `asked` is its one IN question, if it is such a reply. */
  datatype Reply = Reply(rcode: nat, rrs: seq<Rr>, asked: Option<Key>)

  type Txs = map<nat, Tx>
  type Queries = map<nat, Query>

  // ── Histories ────────────────────────────────────────────────────────

  /** The queries a transaction has put on the wire, in order. */
  ghost function Asked(out: seq<Send>, h: nat): seq<Send> {
    if out == [] then []
    else
      var last := out[|out| - 1];
      Asked(out[..|out| - 1], h) + (if last.Ask? && last.tx == h then [last] else [])
  }

  lemma AskedStep(out: seq<Send>, s: Send, h: nat)
    ensures Asked(out + [s], h) == Asked(out, h) + (if s.Ask? && s.tx == h then [s] else [])
  {
    assert (out + [s])[..|out|] == out;
  }

  // ── Invariants ───────────────────────────────────────────────────────

  /** How many queries a transaction may have sent: two an attempt, the second
      only over TCP, after a truncated answer. */
  function Allowance(attempts: nat, proto: Proto): nat {
    if attempts == 0 then 0 else if proto.OverUdp? then 2 * attempts - 1 else 2 * attempts
  }

  /** The last query sent is the one whose answer is awaited. */
  ghost predicate InFlight(t: Tx, asked: seq<Send>) {
    && asked != []
    && var s := asked[|asked| - 1];
      s.Ask? && s.proto == t.proto && t.server == Some(s.server) && s.id == t.id && s.key == t.key
  }

  /** A transaction of the table. Those in `dead` are settled and about to be
      collected; `idle` is being started and has no timer yet. */
  ghost predicate TxOk(h: nat, t: Tx, nextTx: nat, asked: seq<Send>, dead: set<nat>, idle: Option<nat>) {
    && h < nextTx && 1 <= t.id <= 0xFFFF
    && t.attempts <= 24 && |asked| <= Allowance(t.attempts, t.proto)
    && (t.state.Pending? <==> h !in dead)
    && (h !in dead && idle != Some(h) ==> t.timeoutAt.Some? && InFlight(t, asked))
    && (h in dead ==> t.timeoutAt.None? && !t.udpOpen)
  }

  ghost predicate TxsOk(txs: Txs, nextTx: nat, out: seq<Send>, dead: set<nat>, idle: Option<nat>) {
    forall h | h in txs :: TxOk(h, txs[h], nextTx, Asked(out, h), dead, idle)
  }

  ghost predicate Apart(a: Tx, b: Tx, settled: bool) { a.id != b.id && (settled || a.key != b.key) }

  ghost predicate Distinct(txs: Txs, dead: set<nat>) {
    forall h, k | h in txs && k in txs && h != k :: Apart(txs[h], txs[k], h in dead || k in dead)
  }

  predicate WaitedOn(h: nat, queries: Queries) { exists q :: q in queries && queries[q].tx == Some(h) }

  ghost predicate AllWaitedOn(txs: Txs, queries: Queries, dead: set<nat>) {
    forall h | h in txs && h !in dead :: WaitedOn(h, queries)
  }

  ghost predicate QueryOk(q: Query, txs: Txs, dead: set<nat>, loose: bool) {
    && q.redirects <= 16
    && (q.outcome.Some? || loose ==> q.tx.None?)
    && (loose ==> q.outcome.None?)
    && (q.outcome.None? && !loose ==> q.tx.Some?)
    && (q.tx.Some? && q.tx.value !in dead ==> q.tx.value in txs && txs[q.tx.value].key == q.key)
  }

  ghost predicate QueriesOk(queries: Queries, txs: Txs, nextQuery: nat, dead: set<nat>, loose: Option<nat>) {
    forall q | q in queries :: q < nextQuery && QueryOk(queries[q], txs, dead, loose == Some(q))
  }

  ghost predicate Counted(out: seq<Send>, nextTx: nat) {
    forall h: nat :: |Asked(out, h)| <= 48 && (h >= nextTx ==> Asked(out, h) == [])
  }

  // ── Termination ──────────────────────────────────────────────────────

  /** The redirects each query may still follow. */
  ghost function Spare(queries: Queries): map<nat, nat> {
    map q | q in queries :: if queries[q].redirects <= 16 then 16 - queries[q].redirects else 0
  }

  ghost function Budget(queries: Queries): nat { MapSum(Spare(queries)) }

  lemma BudgetUpdate(queries: Queries, q: nat, x: Query)
    requires q in queries
    ensures queries[q].redirects <= x.redirects <= 16 ==>
      Budget(queries[q := x]) == Budget(queries) - (x.redirects - queries[q].redirects)
  {
    var m := Spare(queries);
    MapSumRemove(m, q);
    if queries[q].redirects <= x.redirects <= 16 {
      MapSumUpdate(m, q, 16 - x.redirects);
      assert Spare(queries[q := x]) == m[q := 16 - x.redirects];
    }
  }

  // ── Unused identifiers ───────────────────────────────────────────────

  /** How many queries may be unfinished: an identifier for each, and one for each
      of the 16 transactions a query can leave behind in one completion. */
  const OPEN_MAX: nat := 65519

  /** The unfinished queries. */
  ghost function Open(queries: Queries): set<nat> { set q | q in queries && queries[q].outcome.None? }

  /** Each of `hs` has a query of its own among `qs`. */
  lemma {:induction false} WaitersCount(hs: set<nat>, queries: Queries, qs: set<nat>)
    requires forall h | h in hs :: exists q :: q in qs && q in queries && queries[q].tx == Some(h)
    ensures |hs| <= |qs|
  {
    if hs != {} {
      var h :| h in hs;
      var q :| q in qs && q in queries && queries[q].tx == Some(h);
      forall k | k in hs - {h} ensures exists w :: w in qs - {q} && w in queries && queries[w].tx == Some(k) {
        var w :| w in qs && w in queries && queries[w].tx == Some(k);
        assert w in qs - {q};
      }
      WaitersCount(hs - {h}, queries, qs - {q});
    }
  }

  /** The table holds a transaction for each unfinished query at most, besides
      those being settled; a query between transactions has none. */
  lemma TxsCount(txs: Txs, queries: Queries, nextQuery: nat, dead: set<nat>, loose: Option<nat>)
    requires AllWaitedOn(txs, queries, dead) && QueriesOk(queries, txs, nextQuery, dead, loose)
    requires loose.Some? ==> loose.value in queries
    ensures |txs| <= |Open(queries)| + |dead| - (if loose.Some? then 1 else 0)
  {
    hide QueriesOk, AllWaitedOn;
    var waiting := if loose.Some? then Open(queries) - {loose.value} else Open(queries);
    forall h | h in txs.Keys - dead ensures exists q :: q in waiting && q in queries && queries[q].tx == Some(h) {
      var q := WaiterOf(txs, queries, nextQuery, dead, loose, h);
    }
    WaitersCount(txs.Keys - dead, queries, waiting);
    if loose.Some? {
      LooseOpen(queries, txs, nextQuery, dead, loose.value);
    }
    CountBut(txs.Keys, dead);
  }

  lemma WaiterOf(txs: Txs, queries: Queries, nextQuery: nat, dead: set<nat>, loose: Option<nat>, h: nat) returns (q: nat)
    requires AllWaitedOn(txs, queries, dead) && QueriesOk(queries, txs, nextQuery, dead, loose)
    requires h in txs && h !in dead
    ensures q in Open(queries) && loose != Some(q) && queries[q].tx == Some(h)
  {
    assert WaitedOn(h, queries);
    q :| q in queries && queries[q].tx == Some(h);
    assert QueryOk(queries[q], txs, dead, loose == Some(q));
  }

  lemma LooseOpen(queries: Queries, txs: Txs, nextQuery: nat, dead: set<nat>, q: nat)
    requires QueriesOk(queries, txs, nextQuery, dead, Some(q)) && q in queries
    ensures q in Open(queries)
  {
    assert QueryOk(queries[q], txs, dead, true);
  }

  lemma CountBut(all: set<nat>, some: set<nat>)
    ensures |all| <= |all - some| + |some|
  {
    SubsetCount(all, all - some + some);
  }

  function Ids(txs: Txs): set<nat> { set h | h in txs :: txs[h].id }

  lemma {:induction false} IdsCount(txs: Txs)
    ensures |Ids(txs)| <= |txs|
    decreases |txs|
  {
    if txs != map[] {
      var h :| h in txs;
      IdsCount(txs - {h});
      var rest := txs - {h};
      forall id | id in Ids(txs) ensures id in Ids(rest) + {txs[h].id} {
        var k :| k in txs && txs[k].id == id;
        assert k == h || (k in rest && rest[k] == txs[k]);
      }
      assert Ids(txs) <= Ids(rest) + {txs[h].id};
      SubsetCount(Ids(txs), Ids(rest) + {txs[h].id});
    }
  }

  ghost function UpTo(n: nat): (s: set<nat>)
    ensures |s| == n && forall i :: i in s <==> 1 <= i <= n
  {
    if n == 0 then {} else UpTo(n - 1) + {n}
  }

  lemma SomeIdFree(txs: Txs)
    requires |txs| <= 0xFFFE
    ensures exists id: nat :: 1 <= id <= 0xFFFF && id !in Ids(txs)
  {
    IdsCount(txs);
    if UpTo(0xFFFF) <= Ids(txs) {
      SubsetCount(UpTo(0xFFFF), Ids(txs));
      assert false;
    }
    var id :| id in UpTo(0xFFFF) && id !in Ids(txs);
  }

  lemma {:induction false} SubsetCount(a: set<nat>, b: set<nat>)
    requires a <= b
    ensures |a| <= |b|
  {
    if a != {} {
      var x :| x in a;
      SubsetCount(a - {x}, b - {x});
    }
  }
}
