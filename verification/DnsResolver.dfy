/** `Resolver` of net/src/dns.rs. Transactions and queries are kept by handle;
    handles are never reused, so nothing but the order of `Close` notices
    depends on the order of the source's lists. */
module DnsResolver {
  import opened Util
  import opened DnsChain
  import opened Dns

  // ── What one call may touch ──────────────────────────────────────────

  ghost predicate Armed(t: Tx, now: nat) { t.timeoutAt.Some? && now < t.timeoutAt.value }

  /** Only transaction `h` changed, settled ones may be gone, and new ones have
      fresh handles and timers that are not due. */
  ghost predicate Kept(txs0: Txs, txs1: Txs, h: Option<nat>, dead: set<nat>, next: nat, now: nat) {
    && (forall k | k in txs0 && k !in dead && Some(k) != h :: k in txs1)
    && (forall k | k in txs1 ::
          || (k in txs0 && Some(k) != h && txs1[k] == txs0[k])
          || ((Some(k) == h || next <= k) && Armed(txs1[k], now)))
  }

  /** Only the queries `qs` changed. */
  ghost predicate Left(queries0: Queries, queries1: Queries, qs: set<nat>) {
    && queries1.Keys == queries0.Keys
    && forall q | q in queries0 ::
        && queries0[q].redirects <= queries1[q].redirects && queries1[q].deadline == queries0[q].deadline
        && (q !in qs || queries0[q].outcome.Some? ==> queries1[q] == queries0[q])
  }

  /** No query of `h` has followed fewer than `n` redirects. */
  ghost predicate Deep(queries: Queries, h: nat, n: nat) {
    forall q | q in queries && queries[q].tx == Some(h) :: n <= queries[q].redirects
  }

  lemma OpenLess(queries0: Queries, queries1: Queries, qs: set<nat>)
    requires Left(queries0, queries1, qs)
    ensures Open(queries1) <= Open(queries0) && |Open(queries1)| <= |Open(queries0)|
  {
    forall q | q in Open(queries1) ensures q in Open(queries0) {}
    SubsetCount(Open(queries1), Open(queries0));
  }

  lemma OpenNew(queries: Queries, q: nat, x: Query)
    requires q !in queries
    ensures |Open(queries[q := x])| <= |Open(queries)| + 1
  {
    SubsetCount(Open(queries[q := x]), Open(queries) + {q});
  }

  lemma OpenGone(queries: Queries, q: nat)
    ensures |Open(queries - {q})| <= |Open(queries)|
  {
    SubsetCount(Open(queries - {q}), Open(queries));
  }

  lemma DeepNone(queries: Queries, h: nat, none: set<nat>)
    requires none == {}
    ensures Deep(queries, h, |none|)
  {
  }

  lemma DeepOf(queries: Queries, h: nat, n: nat, q: nat)
    requires Deep(queries, h, n) && q in queries && queries[q].tx == Some(h)
    ensures n <= queries[q].redirects
  {
  }

  lemma DeepOne(queries: Queries, h: nat, n: nat, q: nat)
    requires Waiters(queries, h) == {q} && q in queries && n <= queries[q].redirects
    ensures Deep(queries, h, n)
  {
    forall w | w in queries && queries[w].tx == Some(h) ensures w == q {
      assert w in Waiters(queries, h);
    }
  }

  /** The queries `qs` have an outcome or wait for an unsettled transaction. */
  ghost predicate Live(queries: Queries, qs: set<nat>, dead: set<nat>) {
    forall q | q in qs && q in queries :: queries[q].tx.Some? ==> queries[q].tx.value !in dead
  }

  ghost function Waiters(queries: Queries, h: nat): set<nat> {
    set q | q in queries && queries[q].tx == Some(h)
  }

  // ── Updating one entry ───────────────────────────────────────────────

  lemma TxSet(txs: Txs, queries: Queries, h: nat, t: Tx, nextQuery: nat, dead: set<nat>, loose: Option<nat>)
    requires h in txs && t.key == txs[h].key && (t.id == txs[h].id || t.id !in Ids(txs))
    requires Distinct(txs, dead) && AllWaitedOn(txs, queries, dead)
    requires QueriesOk(queries, txs, nextQuery, dead, loose)
    ensures Distinct(txs[h := t], dead) && AllWaitedOn(txs[h := t], queries, dead)
    ensures QueriesOk(queries, txs[h := t], nextQuery, dead, loose)
  {
    var now := txs[h := t];
    forall a, b | a in now && b in now && a != b ensures Apart(now[a], now[b], a in dead || b in dead) {
      assert Apart(txs[a], txs[b], a in dead || b in dead);
      assert txs[a].id in Ids(txs) && txs[b].id in Ids(txs);
    }
    forall q | q in queries ensures QueryOk(queries[q], now, dead, loose == Some(q)) {
      assert QueryOk(queries[q], txs, dead, loose == Some(q));
    }
  }

  lemma TxsSet(txs: Txs, nextTx: nat, out: seq<Send>, h: nat, t: Tx, dead: set<nat>, idle: Option<nat>)
    requires h in txs && TxsOk(txs, nextTx, out, dead, Some(h))
    requires TxOk(h, t, nextTx, Asked(out, h), dead, idle) && (idle == Some(h) || idle == None)
    ensures TxsOk(txs[h := t], nextTx, out, dead, idle)
  {
    var now := txs[h := t];
    forall k | k in now ensures TxOk(k, now[k], nextTx, Asked(out, k), dead, idle) {
      assert TxOk(k, txs[k], nextTx, Asked(out, k), dead, Some(h));
    }
  }

  /** A query of `h` goes out. */
  lemma SendSet(txs: Txs, nextTx: nat, out: seq<Send>, h: nat, t: Tx, s: Send, dead: set<nat>)
    requires h in txs && h < nextTx && TxsOk(txs, nextTx, out, dead, Some(h)) && Counted(out, nextTx)
    requires s.Ask? && s.tx == h && TxOk(h, t, nextTx, Asked(out, h) + [s], dead, None)
    ensures TxsOk(txs[h := t], nextTx, out + [s], dead, None) && Counted(out + [s], nextTx)
  {
    var now := txs[h := t];
    forall k | k in now ensures TxOk(k, now[k], nextTx, Asked(out + [s], k), dead, None) {
      AskedStep(out, s, k);
      assert TxOk(k, txs[k], nextTx, Asked(out, k), dead, Some(h));
    }
    forall k: nat ensures |Asked(out + [s], k)| <= 48 && (k >= nextTx ==> Asked(out + [s], k) == []) {
      AskedStep(out, s, k);
      assert |Asked(out, k)| <= 48 && (k >= nextTx ==> Asked(out, k) == []);
    }
  }

  /** A socket is closed. */
  lemma CloseSet(txs: Txs, nextTx: nat, out: seq<Send>, s: Send, dead: set<nat>, idle: Option<nat>)
    requires TxsOk(txs, nextTx, out, dead, idle) && Counted(out, nextTx) && s.Close?
    ensures TxsOk(txs, nextTx, out + [s], dead, idle) && Counted(out + [s], nextTx)
  {
    forall k: nat ensures Asked(out + [s], k) == Asked(out, k) {
      AskedStep(out, s, k);
    }
  }

  /** A new transaction, waited on by `q` alone. */
  lemma TxNew(txs: Txs, queries: Queries, nextTx: nat, nextQuery: nat, out: seq<Send>, q: nat, t: Tx, dead: set<nat>)
    requires TxsOk(txs, nextTx, out, dead, None) && Distinct(txs, dead) && AllWaitedOn(txs, queries, dead)
    requires QueriesOk(queries, txs, nextQuery, dead, Some(q)) && Counted(out, nextTx)
    requires forall h | h in dead :: h < nextTx
    requires q in queries && t.key == queries[q].key && t.id !in Ids(txs)
    requires forall h | h in txs && h !in dead :: txs[h].key != t.key
    requires TxOk(nextTx, t, nextTx + 1, [], dead, Some(nextTx))
    ensures var txs' := txs[nextTx := t]; var queries' := queries[q := queries[q].(tx := Some(nextTx))];
      && TxsOk(txs', nextTx + 1, out, dead, Some(nextTx)) && Distinct(txs', dead)
      && AllWaitedOn(txs', queries', dead) && QueriesOk(queries', txs', nextQuery, dead, None)
      && Counted(out, nextTx + 1) && Waiters(queries', nextTx) == {q}
  {
    var now := txs[nextTx := t];
    var queries' := queries[q := queries[q].(tx := Some(nextTx))];
    assert nextTx !in txs;
    assert Asked(out, nextTx) == [];
    forall k | k in now ensures TxOk(k, now[k], nextTx + 1, Asked(out, k), dead, Some(nextTx)) {
      if k != nextTx {
        assert TxOk(k, txs[k], nextTx, Asked(out, k), dead, None);
      }
    }
    forall a, b | a in now && b in now && a != b ensures Apart(now[a], now[b], a in dead || b in dead) {
      if a != nextTx && b != nextTx {
        assert Apart(txs[a], txs[b], a in dead || b in dead);
      } else {
        var k := if a == nextTx then b else a;
        assert txs[k].id in Ids(txs);
      }
    }
    forall k | k in now && k !in dead ensures WaitedOn(k, queries') {
      if k == nextTx {
        assert queries'[q].tx == Some(k);
      } else {
        assert WaitedOn(k, queries);
        var w :| w in queries && queries[w].tx == Some(k);
        assert QueryOk(queries[w], txs, dead, Some(q) == Some(w));
        assert queries'[w].tx == Some(k);
      }
    }
    forall w | w in queries' ensures QueryOk(queries'[w], now, dead, false) && (w != q ==> queries'[w].tx != Some(nextTx)) {
      assert QueryOk(queries[w], txs, dead, Some(q) == Some(w));
    }
  }

  /** A query changes; those waiting for unsettled transactions stay. */
  lemma QuerySet(txs: Txs, queries: Queries, nextQuery: nat, q: nat, x: Query, dead: set<nat>,
                 loose0: Option<nat>, loose1: Option<nat>)
    requires q in queries && q < nextQuery
    requires AllWaitedOn(txs, queries, dead) && QueriesOk(queries, txs, nextQuery, dead, loose0)
    requires loose0 == None || loose0 == Some(q)
    requires loose1 == None || loose1 == Some(q)
    requires queries[q].tx.Some? ==> queries[q].tx.value in dead
    requires QueryOk(x, txs, dead, loose1 == Some(q))
    ensures AllWaitedOn(txs, queries[q := x], dead)
    ensures QueriesOk(queries[q := x], txs, nextQuery, dead, loose1)
  {
    var now := queries[q := x];
    forall h | h in txs && h !in dead ensures WaitedOn(h, now) {
      assert WaitedOn(h, queries);
      var w :| w in queries && queries[w].tx == Some(h);
      assert now[w].tx == Some(h);
    }
    forall w | w in now ensures w < nextQuery && QueryOk(now[w], txs, dead, loose1 == Some(w)) {
      assert QueryOk(queries[w], txs, dead, loose0 == Some(w));
    }
  }

  /** Transaction `h` is settled: from now on it counts as dead. */
  lemma Bury(txs: Txs, queries: Queries, nextTx: nat, nextQuery: nat, out: seq<Send>, h: nat, t: Tx, dead: set<nat>)
    requires h in txs && h !in dead && t.key == txs[h].key && t.id == txs[h].id
    requires TxsOk(txs, nextTx, out, dead, Some(h)) && Distinct(txs, dead) && AllWaitedOn(txs, queries, dead)
    requires QueriesOk(queries, txs, nextQuery, dead, None)
    requires TxOk(h, t, nextTx, Asked(out, h), dead + {h}, None)
    ensures var txs', dead' := txs[h := t], dead + {h};
      && TxsOk(txs', nextTx, out, dead', None) && Distinct(txs', dead')
      && AllWaitedOn(txs', queries, dead') && QueriesOk(queries, txs', nextQuery, dead', None)
  {
    var txs', dead' := txs[h := t], dead + {h};
    TxSet(txs, queries, h, t, nextQuery, dead, None);
    forall k | k in txs' ensures TxOk(k, txs'[k], nextTx, Asked(out, k), dead', None) {
      assert TxOk(k, txs[k], nextTx, Asked(out, k), dead, Some(h));
    }
    forall a, b | a in txs' && b in txs' && a != b ensures Apart(txs'[a], txs'[b], a in dead' || b in dead') {
      assert Apart(txs'[a], txs'[b], a in dead || b in dead);
    }
    forall q | q in queries ensures QueryOk(queries[q], txs', dead', false) {
      assert QueryOk(queries[q], txs', dead, None == Some(q));
    }
  }

  /** What `gc` keeps. */
  ghost predicate Keep(h: nat, txs: Txs, queries: Queries)
    requires h in txs
  {
    txs[h].state.Pending? && WaitedOn(h, queries)
  }

  ghost function Collected(txs: Txs, queries: Queries): Txs {
    map h | h in txs && Keep(h, txs, queries) :: txs[h]
  }

  ghost predicate SameAsks(out0: seq<Send>, out1: seq<Send>) {
    forall h: nat :: Asked(out1, h) == Asked(out0, h)
  }

  /** Whatever left the table with a UDP socket open is reported in `news`. */
  ghost predicate SocketsClosed(txs0: Txs, txs1: Txs, news: seq<Send>) {
    forall h | h in txs0 && h !in txs1 && txs0[h].udpOpen :: Close(h) in news
  }

  lemma SameAsksNone(out: seq<Send>, txs: Txs)
    ensures SameAsks(out, out) && SocketsClosed(txs, txs, out[|out|..])
  {
  }

  lemma SocketsStep(txs0: Txs, txs1: Txs, h: nat, out0: seq<Send>, out1: seq<Send>)
    requires out0 <= out1 && SameAsks(out0, out1) && SocketsClosed(txs0, txs1, out1[|out0|..])
    requires h in txs0 && h in txs1 && txs1[h] == txs0[h]
    ensures SameAsks(out0, out1 + [Close(h)])
    ensures SocketsClosed(txs0, txs1 - {h}, (out1 + [Close(h)])[|out0|..])
    ensures !txs1[h].udpOpen ==> SocketsClosed(txs0, txs1 - {h}, out1[|out0|..])
  {
    forall k: nat {
      AskedStep(out1, Close(h), k);
    }
    assert (out1 + [Close(h)])[|out0|..] == out1[|out0|..] + [Close(h)];
  }

  /** Collecting restores the invariant once nobody waits for the settled
      transactions `gone`. */
  lemma CollectedOk(txs: Txs, queries: Queries, nextTx: nat, nextQuery: nat, out: seq<Send>, dead: set<nat>, gone: set<nat>)
    requires TxsOk(txs, nextTx, out, dead + gone, None) && Distinct(txs, dead + gone)
    requires QueriesOk(queries, txs, nextQuery, dead + gone, None)
    requires forall h | h in gone :: !WaitedOn(h, queries)
    ensures var txs' := Collected(txs, queries);
      && TxsOk(txs', nextTx, out, dead, None) && Distinct(txs', dead)
      && AllWaitedOn(txs', queries, dead) && QueriesOk(queries, txs', nextQuery, dead, None)
  {
    var txs' := Collected(txs, queries);
    forall k | k in txs' ensures TxOk(k, txs'[k], nextTx, Asked(out, k), dead, None) {
      assert TxOk(k, txs[k], nextTx, Asked(out, k), dead + gone, None);
    }
    forall a, b | a in txs' && b in txs' && a != b ensures Apart(txs'[a], txs'[b], a in dead || b in dead) {
      assert Apart(txs[a], txs[b], a in dead + gone || b in dead + gone);
      assert TxOk(a, txs[a], nextTx, Asked(out, a), dead + gone, None);
      assert TxOk(b, txs[b], nextTx, Asked(out, b), dead + gone, None);
    }
    forall q | q in queries ensures QueryOk(queries[q], txs', dead, false) {
      assert QueryOk(queries[q], txs, dead + gone, None == Some(q));
      if queries[q].tx.Some? && queries[q].tx.value !in dead {
        var h := queries[q].tx.value;
        assert WaitedOn(h, queries);
        assert TxOk(h, txs[h], nextTx, Asked(out, h), dead + gone, None);
      }
    }
  }

  lemma KeptTrans(txs0: Txs, txs1: Txs, txs2: Txs, dead: set<nat>, next0: nat, next1: nat, now: nat)
    requires Kept(txs0, txs1, None, dead, next0, now) && Kept(txs1, txs2, None, dead, next1, now) && next0 <= next1
    ensures Kept(txs0, txs2, None, dead, next0, now)
  {
  }

  /** Settling `h` and collecting leaves what `Kept` says of `h` itself. */
  lemma KeptSettled(txs0: Txs, h: nat, t: Tx, txs1: Txs, queries: Queries, nextTx: nat, out: seq<Send>,
                    dead: set<nat>, next: nat, now: nat)
    requires h in txs0 && Kept(txs0[h := t], txs1, None, dead + {h}, next, now)
    requires AllWaitedOn(txs1, queries, dead + {h}) && !WaitedOn(h, queries)
    requires TxsOk(txs1, nextTx, out, dead + {h}, None)
    ensures Kept(txs0, Collected(txs1, queries), Some(h), dead, next, now) && h !in Collected(txs1, queries)
  {
  }

  lemma LeftNone(queries: Queries, qs: set<nat>, dead: set<nat>, st: TxState)
    requires forall q | q in qs :: q in queries
    ensures Left(queries, queries, qs) && Live(queries, {}, dead) && AllAnswered(queries, queries, {}, st)
    ensures Untouched(queries, queries, qs)
  {
  }

  lemma KeptNone(txs: Txs, dead: set<nat>, next: nat, now: nat)
    ensures Kept(txs, txs, None, dead, next, now)
  {
  }

  lemma StillWaits(queries: Queries, txs: Txs, nextQuery: nat, dead: set<nat>, q: nat, h: nat)
    requires QueriesOk(queries, txs, nextQuery, dead, None) && q in queries && queries[q].tx == Some(h)
    ensures queries[q].outcome.None? && queries[q].redirects <= 16
  {
  }

  /** Changes to `h` itself are covered by what `Kept` says of `h`. */
  lemma KeptSame(txs0: Txs, h: nat, t: Tx, txs1: Txs, dead: set<nat>, next: nat, now: nat)
    requires h in txs0 && Kept(txs0[h := t], txs1, Some(h), dead, next, now)
    ensures Kept(txs0, txs1, Some(h), dead, next, now)
  {
  }

  lemma KeptArmed(txs: Txs, h: nat, t: Tx, dead: set<nat>, next: nat, now: nat)
    requires h in txs && Armed(t, now)
    ensures Kept(txs, txs[h := t], Some(h), dead, next, now)
  {
  }

  /** What happens to a new transaction changes no other. */
  lemma KeptNew(txs0: Txs, h: nat, t: Tx, txs1: Txs, dead: set<nat>, now: nat)
    requires h !in txs0 && Kept(txs0[h := t], txs1, Some(h), dead, h + 1, now)
    ensures Kept(txs0, txs1, None, dead, h, now)
  {
  }

  lemma LeftSet(queries: Queries, q: nat, x: Query)
    requires q in queries && queries[q].redirects <= x.redirects && x.deadline == queries[q].deadline
    requires queries[q].outcome.None?
    ensures Left(queries, queries[q := x], {q}) && |Open(queries[q := x])| <= |Open(queries)|
  {
    OpenLess(queries, queries[q := x], {q});
  }

  lemma LeftOne(queries0: Queries, queries1: Queries, q: nat)
    requires Left(queries0, queries1, {q}) && q in queries0
    ensures q in queries1 && queries0[q].redirects <= queries1[q].redirects
  {
  }

  lemma LiveOne(queries: Queries, q: nat, dead: set<nat>)
    requires q in queries && (queries[q].tx.Some? ==> queries[q].tx.value !in dead)
    ensures Live(queries, {q}, dead)
  {
  }

  lemma LiveOf(queries: Queries, h: nat, dead: set<nat>)
    requires h !in dead
    ensures Live(queries, Waiters(queries, h), dead)
  {
  }

  lemma LeftStep(queries0: Queries, queries1: Queries, queries2: Queries, qs: set<nat>, q: nat)
    requires Left(queries0, queries1, qs) && Left(queries1, queries2, {q}) && q in qs
    ensures Left(queries0, queries2, qs)
  {
  }

  lemma LiveStep(queries1: Queries, queries2: Queries, qs: set<nat>, q: nat, dead: set<nat>)
    requires Live(queries1, qs, dead) && Left(queries1, queries2, {q}) && Live(queries2, {q}, dead)
    ensures Live(queries2, qs + {q}, dead)
  {
  }

  lemma LiveLess(queries: Queries, qs: set<nat>, dead: set<nat>, h: nat)
    requires Live(queries, qs, dead + {h})
    ensures Live(queries, qs, dead)
  {
  }

  lemma UntouchedStep(queries0: Queries, queries1: Queries, queries2: Queries, qs: set<nat>, q: nat)
    requires Untouched(queries0, queries1, qs) && Left(queries1, queries2, {q})
    ensures Untouched(queries0, queries2, qs - {q})
  {
  }

  lemma AnsweredStep(queries0: Queries, queries1: Queries, queries2: Queries, qs: set<nat>, q: nat, st: TxState)
    requires AllAnswered(queries0, queries1, qs, st) && Left(queries1, queries2, {q})
    requires q in queries0 && q in queries2 && queries0[q].redirects <= 16 && Answered(queries0[q], queries2[q], st)
    ensures AllAnswered(queries0, queries2, qs + {q}, st)
  {
  }

  lemma NobodyWaits(queries0: Queries, queries1: Queries, h: nat, dead: set<nat>)
    requires Left(queries0, queries1, Waiters(queries0, h)) && Live(queries1, Waiters(queries0, h), dead + {h})
    ensures !WaitedOn(h, queries1)
  {
  }

  lemma SameAsked(txs: Txs, out0: seq<Send>, out1: seq<Send>, nextTx: nat, dead: set<nat>)
    requires TxsOk(txs, nextTx, out0, dead, None) && Counted(out0, nextTx)
    requires SameAsks(out0, out1)
    ensures TxsOk(txs, nextTx, out1, dead, None) && Counted(out1, nextTx)
  {
  }

  /** What a settled transaction makes of a query that waited for it. */
  ghost predicate Answered(before: Query, after: Query, st: TxState)
    requires before.redirects <= 16
  {
    match st
    case Pending => true
    case RcodeFailure(rcode) => after == before.(tx := None, outcome := Some(Rcode(rcode)))
    case Broken(why) => after == before.(tx := None, outcome := Some(Failed(why)))
    case Success(rcode, answer) =>
      match Chase(before.key, answer, rcode, before.chainTtl, before.redirects, false)
      case Settled(o, r) => after == before.(tx := None, outcome := Some(o), redirects := r)
      case Ask(_, _, r) => r <= after.redirects
  }

  ghost predicate AllAnswered(queries0: Queries, queries1: Queries, qs: set<nat>, st: TxState) {
    forall q | q in qs ::
      && q in queries0 && q in queries1 && queries0[q].redirects <= 16
      && Answered(queries0[q], queries1[q], st)
  }

  ghost predicate Untouched(queries0: Queries, queries1: Queries, qs: set<nat>) {
    forall q | q in qs :: q in queries0 && q in queries1 && queries1[q] == queries0[q]
  }

  /** How an answer, from the network or the cache, settles a transaction. */
  function Answer(rcode: nat, answer: seq<Rr>): TxState {
    if rcode == RCODE_SUCCESS || rcode == RCODE_NXDOMAIN then Success(rcode, answer) else RcodeFailure(rcode)
  }

  lemma TxIs(txs: Txs, nextTx: nat, out: seq<Send>, dead: set<nat>, idle: Option<nat>, h: nat)
    requires TxsOk(txs, nextTx, out, dead, idle) && h in txs
    ensures TxOk(h, txs[h], nextTx, Asked(out, h), dead, idle)
  {
  }

  lemma QueryIs(queries: Queries, txs: Txs, nextQuery: nat, dead: set<nat>, loose: Option<nat>, q: nat)
    requires QueriesOk(queries, txs, nextQuery, dead, loose) && q in queries
    ensures q < nextQuery && QueryOk(queries[q], txs, dead, loose == Some(q))
  {
  }

  /** A transaction with a timer may also be taken up again. */
  lemma TakenUp(txs: Txs, nextTx: nat, out: seq<Send>, dead: set<nat>, h: nat)
    requires TxsOk(txs, nextTx, out, dead, None)
    ensures TxsOk(txs, nextTx, out, dead, Some(h))
  {
  }

  lemma PendingLives(txs: Txs, nextTx: nat, out: seq<Send>, dead: set<nat>, h: nat)
    requires TxsOk(txs, nextTx, out, dead, None) && h in txs && txs[h].state.Pending?
    ensures h !in dead
  {
  }

  lemma NoneFits(txs: Txs, nextTx: nat, out: seq<Send>, dead: set<nat>, key: Key)
    requires TxsOk(txs, nextTx, out, dead, None)
    requires forall h | h in txs :: !(txs[h].key == key && txs[h].state.Pending?)
    ensures forall h | h in txs && h !in dead :: txs[h].key != key
    ensures nextTx !in txs
  {
    forall h | h in txs ensures h != nextTx && (h !in dead ==> txs[h].key != key) {
      assert TxOk(h, txs[h], nextTx, Asked(out, h), dead, None);
    }
  }

  /** The server after the current one in turn, unless that is no longer `ifCurrent`. */
  function NextOf(servers: seq<nat>, current: Option<nat>, ifCurrent: Option<nat>): Option<nat>
    requires current.Some? ==> current.value < |servers|
  {
    if current.Some? && (ifCurrent == None || ifCurrent == Some(servers[current.value]))
    then Some(if current.value + 1 == |servers| then 0 else current.value + 1)
    else current
  }

  /** One attempt more, at the current server. */
  ghost predicate Another(was: Tx, t: Tx, servers: seq<nat>, current: Option<nat>) {
    && current.Some? && current.value < |servers| && t.server == Some(servers[current.value])
    && t.attempts == was.attempts + 1 && t.id == was.id
  }

  /** Towards the same server the clamp stays, and the level is within it. */
  ghost predicate Heeds(was: Tx, t: Tx) {
    t.server == was.server ==>
      t.clamp == was.clamp && (t.clamp.Some? ==> t.level.Rank() <= t.clamp.value.Rank())
  }

  // ── Timeouts ─────────────────────────────────────────────────────────

  predicate Due(t: Tx, now: nat) { t.timeoutAt.Some? && t.timeoutAt.value <= now }

  ghost function DueSet(txs: Txs, now: nat): set<nat> { set h | h in txs && Due(txs[h], now) }

  ghost function Expired(queries: Queries, now: nat): Queries {
    map q | q in queries ::
      if queries[q].outcome.None? && queries[q].deadline <= now
      then queries[q].(outcome := Some(Failed(Timeout)), tx := None)
      else queries[q]
  }

  /** Nothing is overdue, and nothing that had an outcome changed. */
  ghost predicate OnTime(queries0: Queries, queries1: Queries, now: nat) {
    && queries1.Keys == queries0.Keys
    && forall q | q in queries0 ::
        && (queries1[q].outcome.None? ==> now < queries1[q].deadline)
        && (queries0[q].outcome.Some? ==> queries1[q] == queries0[q])
  }

  lemma ExpiredOk(queries: Queries, txs: Txs, nextQuery: nat, now: nat)
    requires QueriesOk(queries, txs, nextQuery, {}, None)
    ensures QueriesOk(Expired(queries, now), txs, nextQuery, {}, None)
    ensures OnTime(queries, Expired(queries, now), now)
  {
    var after := Expired(queries, now);
    forall q | q in after ensures QueryOk(after[q], txs, {}, false) {
      assert QueryOk(queries[q], txs, {}, None == Some(q));
    }
  }

  lemma ExpiredOpen(queries: Queries, now: nat)
    ensures |Open(Expired(queries, now))| <= |Open(queries)|
  {
    forall q | q in Open(Expired(queries, now)) ensures q in Open(queries) {}
    SubsetCount(Open(Expired(queries, now)), Open(queries));
  }

  lemma OnTimeStep(queries0: Queries, queries1: Queries, queries2: Queries, txs: Txs, nextQuery: nat, h: nat, now: nat)
    requires OnTime(queries0, queries1, now) && QueriesOk(queries1, txs, nextQuery, {}, None)
    requires Left(queries1, queries2, Waiters(queries1, h))
    ensures OnTime(queries0, queries2, now)
  {
    forall q | q in queries0 ensures queries0[q].outcome.Some? ==> queries2[q] == queries0[q] {
      assert QueryOk(queries1[q], txs, {}, None == Some(q));
    }
  }

  lemma DueShrinks(txs0: Txs, h: nat, t: Tx, txs1: Txs, next: nat, now: nat)
    requires h in DueSet(txs0, now) && Kept(txs0[h := t], txs1, Some(h), {}, next, now)
    ensures DueSet(txs1, now) < DueSet(txs0, now)
  {
    forall k | k in DueSet(txs1, now) ensures k in DueSet(txs0, now) && k != h {
      assert k in txs0[h := t] && txs1[k] == txs0[h := t][k];
    }
  }

  lemma NoneDue(txs: Txs, nextTx: nat, out: seq<Send>, now: nat)
    requires TxsOk(txs, nextTx, out, {}, None) && !exists h :: h in txs && Due(txs[h], now)
    ensures forall h | h in txs :: Armed(txs[h], now)
  {
    forall h | h in txs ensures Armed(txs[h], now) {
      assert TxOk(h, txs[h], nextTx, Asked(out, h), {}, None);
    }
  }

  /** NXDOMAIN speaks of the chain's last name; with records for the first one its
      code is success (section 3 of RFC 6604). */
  function FixedRcode(key: Key, reply: Reply): nat {
    if reply.rcode == RCODE_NXDOMAIN && exists r :: r in reply.rrs && (Here(key, r) || Alias(key, r))
    then RCODE_SUCCESS
    else reply.rcode
  }

  /** Codes another server, or another way of asking, may get round. */
  predicate IsServerError(rcode: nat) { rcode == RCODE_FORMERR || rcode == RCODE_SERVFAIL || rcode == RCODE_NOTIMP }

  /** How a reply settles the transaction it is for: its records count only if it
      parsed and answers the question that was asked. */
  function ReplyState(t: Tx, p: Packet): TxState {
    if t.proto.OverTcp? && (p.truncated || p.len < 2 || p.id != t.id) then Broken(InvalidReply)
    else if p.body.None? || p.body.value.asked != Some(t.key) then Broken(InvalidReply)
    else Answer(FixedRcode(t.key, p.body.value), p.body.value.rrs)
  }

  lemma AnswerSettles(rcode: nat, answer: seq<Rr>)
    ensures !Answer(rcode, answer).Pending?
  {
  }

  // ── What the public calls leave alone ────────────────────────────────

  ghost predicate Others(txs0: Txs, txs1: Txs, h: nat) {
    forall k | k in txs0 && k != h :: k in txs1 && txs1[k] == txs0[k]
  }

  lemma KeptOthers(txs0: Txs, txs1: Txs, h: nat, out: seq<Send>, idle: Option<nat>, next: nat, now: nat)
    requires Kept(txs0, txs1, Some(h), {}, next, now) && TxsOk(txs0, next, out, {}, idle)
    ensures Others(txs0, txs1, h)
  {
    forall k | k in txs0 && k != h ensures k in txs1 && txs1[k] == txs0[k] {
      TxIs(txs0, next, out, {}, idle, k);
    }
  }

  lemma OthersNone(txs: Txs, h: nat)
    ensures Others(txs, txs, h)
  {
  }

  lemma OthersSet(txs: Txs, h: nat, t: Tx)
    ensures Others(txs, txs[h := t], h)
  {
  }

  lemma OthersTrans(txs0: Txs, txs1: Txs, txs2: Txs, h: nat)
    requires Others(txs0, txs1, h) && Others(txs1, txs2, h)
    ensures Others(txs0, txs2, h)
  {
  }

  lemma LeftSame(queries: Queries, h: nat)
    ensures Left(queries, queries, Waiters(queries, h))
  {
  }

  lemma KeptAll(txs0: Txs, txs1: Txs, out: seq<Send>, next: nat, now: nat)
    requires Kept(txs0, txs1, None, {}, next, now) && TxsOk(txs0, next, out, {}, None)
    ensures forall h | h in txs0 :: h in txs1 && txs1[h] == txs0[h]
  {
    forall k | k in txs0 ensures k in txs1 && txs1[k] == txs0[k] {
      TxIs(txs0, next, out, {}, None, k);
    }
  }

  lemma LeftRest(queries0: Queries, queries1: Queries, q: nat)
    requires Left(queries0, queries1, {q})
    ensures queries1.Keys == queries0.Keys
    ensures forall k | k in queries0 :: queries1[k].deadline == queries0[k].deadline && (k != q ==> queries1[k] == queries0[k])
  {
  }

  lemma QueryNew(txs: Txs, queries: Queries, nextQuery: nat, x: Query)
    requires QueriesOk(queries, txs, nextQuery, {}, None) && AllWaitedOn(txs, queries, {})
    requires x.redirects <= 16 && x.tx == None && x.outcome == None
    ensures nextQuery !in queries
    ensures QueriesOk(queries[nextQuery := x], txs, nextQuery + 1, {}, Some(nextQuery))
    ensures AllWaitedOn(txs, queries[nextQuery := x], {})
  {
    var after := queries[nextQuery := x];
    forall q | q in after ensures QueryOk(after[q], txs, {}, Some(nextQuery) == Some(q)) {
      assert q in queries ==> q < nextQuery && QueryOk(queries[q], txs, {}, None == Some(q));
    }
    forall h | h in txs ensures WaitedOn(h, after) {
      assert WaitedOn(h, queries);
      var w :| w in queries && queries[w].tx == Some(h);
      assert after[w].tx == Some(h);
    }
  }

  lemma QueryCancelled(txs: Txs, queries: Queries, nextQuery: nat, q: nat)
    requires QueriesOk(queries, txs, nextQuery, {}, None)
    ensures QueriesOk(queries - {q}, txs, nextQuery, {}, None)
  {
    forall k | k in queries - {q} ensures QueryOk((queries - {q})[k], txs, {}, false) {
      assert QueryOk(queries[k], txs, {}, None == Some(k));
    }
  }

  lemma QueryGone(txs: Txs, queries: Queries, nextQuery: nat, q: nat)
    requires QueriesOk(queries, txs, nextQuery, {}, None) && AllWaitedOn(txs, queries, {})
    requires q in queries && queries[q].outcome.Some?
    ensures QueriesOk(queries - {q}, txs, nextQuery, {}, None) && AllWaitedOn(txs, queries - {q}, {})
  {
    QueryCancelled(txs, queries, nextQuery, q);
    assert QueryOk(queries[q], txs, {}, None == Some(q));
    forall h | h in txs ensures WaitedOn(h, queries - {q}) {
      assert WaitedOn(h, queries);
      var w :| w in queries && queries[w].tx == Some(h);
      assert (queries - {q})[w].tx == Some(h);
    }
  }

  /** `listed` are the addresses in the order they first appear, `at` where. */
  ghost predicate FirstPlaces(listed: seq<nat>, addrs: seq<nat>, at: seq<nat>) {
    && |at| == |listed|
    && (forall k | 0 <= k < |at| :: at[k] < |addrs| && listed[k] == addrs[at[k]] && listed[k] !in addrs[..at[k]])
    && (forall j, k | 0 <= j < k < |at| :: at[j] < at[k])
  }

  class Resolver {
    var servers: seq<nat>
    var current: Option<nat>
    var txs: Txs
    var queries: Queries
    var nextTx: nat
    var nextQuery: nat
    var routable: bool
    var out: seq<Send>

    /** The invariant while transactions `dead` are being settled, query `loose`
        is between transactions and transaction `idle` has no timer. */
    ghost predicate Core(dead: set<nat>, loose: Option<nat>, idle: Option<nat>)
      reads this
    {
      var ok :=
        && TxsOk(txs, nextTx, out, dead, idle) && Distinct(txs, dead) && AllWaitedOn(txs, queries, dead)
        && QueriesOk(queries, txs, nextQuery, dead, loose) && Counted(out, nextTx)
        && (forall h | h in dead :: h < nextTx) && |Open(queries)| <= OPEN_MAX
        && (current.Some? ==> current.value < |servers|);
      ok
    }

    ghost predicate Valid()
      reads this
    {
      Core({}, None, None)
    }

    method PickNewId() returns (id: nat)
      requires |txs| <= 0xFFFE
      ensures 1 <= id <= 0xFFFF && id !in Ids(txs)
    {
      SomeIdFree(txs);
      id :| 1 <= id <= 0xFFFF && id !in Ids(txs);
    }

    /** `emit`, with `pick_server`: the query the transaction now awaits. */
    method Emit(h: nat, tcp: bool) returns (r: Result)
      requires h in txs && (current.Some? ==> current.value < |servers|)
      modifies `txs
      ensures r.Err? <==> current.None?
      ensures r.Err? ==> r.why == NoServers && txs == old(txs)
      ensures r.Ok? ==>
        && txs.Keys == old(txs).Keys && txs == old(txs)[h := txs[h]]
        && var t, was := txs[h], old(txs[h]);
          && r.send == Send.Ask(h, t.proto, servers[current.value], t.id, t.key)
          && t.server == Some(servers[current.value])
          && (t.proto.OverTcp? <==> tcp || t.level.TcpOnly?) && Heeds(was, t)
          && t.picked == was.picked + (if was.server == t.server then 0 else 1)
          && (t.proto.OverUdp? && was.server != t.server ==> t.udpOpen)
          && t == was.(server := t.server, level := t.level, clamp := t.clamp, picked := t.picked,
                       proto := t.proto, udpOpen := t.udpOpen)
    {
      if current.None? {
        return Err(NoServers);
      }
      var server := servers[current.value];
      var t := txs[h];
      var changed := t.server != Some(server);
      if changed {
        t := t.(clamp := None);
      }
      var possible: Level := *;
      var level := if t.clamp.Some? && t.clamp.value.Rank() < possible.Rank() then t.clamp.value else possible;
      t := t.(level := level);
      if changed {
        t := t.(server := Some(server), picked := t.picked + 1);
      }
      if tcp || level.TcpOnly? {
        t := t.(proto := OverTcp);
      } else {
        t := t.(proto := OverUdp, udpOpen := t.udpOpen || changed);
      }
      txs := txs[h := t];
      r := Ok(Send.Ask(h, t.proto, server, t.id, t.key));
    }

    /** Emit a query and arm the timer for its answer. */
    method Transmit(h: nat, tcp: bool, now: nat, ghost dead: set<nat>) returns (failed: Option<Failure>)
      requires Core(dead, None, Some(h)) && h in txs && h !in dead
      requires |Asked(out, h)| < Allowance(txs[h].attempts, if tcp then OverTcp else OverUdp)
      modifies `txs, `out
      ensures failed.Some? <==> current.None?
      ensures failed.Some? ==> txs == old(txs) && out == old(out)
      ensures failed.None? ==>
        && Core(dead, None, None) && txs.Keys == old(txs).Keys && txs == old(txs)[h := txs[h]] && Armed(txs[h], now)
        && txs[h].attempts == old(txs[h].attempts) && txs[h].id == old(txs[h].id)
        && txs[h].server == Some(servers[current.value])
        && (txs[h].proto.OverTcp? <==> tcp || txs[h].level.TcpOnly?) && Heeds(old(txs[h]), txs[h]) && |out| == |old(out)| + 1 && old(out) <= out
    {
      hide TxsOk, Distinct, AllWaitedOn, QueriesOk, Counted, Asked;
      TxIs(txs, nextTx, out, dead, Some(h), h);
      var r := Emit(h, tcp);
      if r.Err? {
        return Some(r.why);
      }
      var t := txs[h].(timeoutAt := Some(now + (if txs[h].proto.OverTcp? then TCP_TIMEOUT else UDP_TIMEOUT)));
      SendSet(old(txs), nextTx, out, h, t, r.send, dead);
      TxSet(old(txs), queries, h, t, nextQuery, dead, None);
      txs := txs[h := t];
      assert txs == old(txs)[h := t];
      out := out + [r.send];
      return None;
    }

    /** `gc`: only what is pending and has a waiter stays. */
    method Gc()
      modifies `txs, `out
      ensures txs == Collected(old(txs), queries)
      ensures old(out) <= out && SameAsks(old(out), out)
      ensures SocketsClosed(old(txs), txs, out[|old(out)|..])
    {
      hide SameAsks, WaitedOn, SocketsClosed;
      var todo := txs.Keys;
      SameAsksNone(out, txs);
      while todo != {}
        invariant todo <= txs.Keys <= old(txs).Keys
        invariant forall h | h in txs :: txs[h] == old(txs)[h]
        invariant forall h | h in old(txs) && h !in todo :: h in txs <==> Keep(h, old(txs), queries)
        invariant old(out) <= out && SameAsks(old(out), out)
        invariant SocketsClosed(old(txs), txs, out[|old(out)|..])
        decreases todo
      {
        var h :| h in todo;
        if !(txs[h].state.Pending? && WaitedOn(h, queries)) {
          SocketsStep(old(txs), txs, h, old(out), out);
          if txs[h].udpOpen {
            out := out + [Close(h)];
          }
          txs := txs - {h};
        }
        todo := todo - {h};
      }
    }

    /** `tx_complete`, in its three parts. */
    method TxComplete(h: nat, st: TxState, now: nat, ghost dead: set<nat>)
      requires Core(dead, None, Some(h)) && h in txs && h !in dead && !st.Pending? && Deep(queries, h, |dead|)
      modifies `txs, `queries, `out, `nextTx
      ensures Core(dead, None, None) && h !in txs
      ensures old(nextTx) <= nextTx && Budget(queries) <= old(Budget(queries))
      ensures Kept(old(txs), txs, Some(h), dead, old(nextTx), now)
      ensures Left(old(queries), queries, Waiters(old(queries), h)) && Live(queries, Waiters(old(queries), h), dead)
      ensures AllAnswered(old(queries), queries, Waiters(old(queries), h), st)
      ensures old(out) <= out && (old(txs[h].udpOpen) ==> Close(h) in out[|old(out)|..])
      decreases Budget(queries), 2
    {
      hide TxsOk, Distinct, AllWaitedOn, QueriesOk, Counted, Kept, Left, Live, Budget, Asked, Open, Collected, AllAnswered, WaitedOn;
      Settle(h, st, dead);
      label Settled:
      assert |dead + {h}| == |dead| + 1;
      Tell(h, st, now, dead + {h});
      NobodyWaits(old(queries), queries, h, dead);
      CollectedOk(txs, queries, nextTx, nextQuery, out, dead, {h});
      KeptSettled(old(txs), h, old@Settled(txs)[h], txs, queries, nextTx, out, dead, old(nextTx), now);
      LiveLess(queries, Waiters(old(queries), h), dead, h);
      label Collecting:
      Gc();
      SameAsked(txs, old@Collecting(out), out, nextTx, dead);
      if old(txs[h].udpOpen) {
        assert out[|old(out)|] == old@Settled(out)[|old(out)|] == Close(h);
      }
    }

    /** Every query that waited for the settled `h` hears of it. */
    method Tell(h: nat, st: TxState, now: nat, ghost dead: set<nat>)
      requires Core(dead, None, None) && h in dead && !st.Pending? && Deep(queries, h, |dead| - 1)
      modifies `txs, `queries, `out, `nextTx
      ensures Core(dead, None, None)
      ensures old(nextTx) <= nextTx && Budget(queries) <= old(Budget(queries))
      ensures Kept(old(txs), txs, None, dead, old(nextTx), now)
      ensures Left(old(queries), queries, Waiters(old(queries), h)) && Live(queries, Waiters(old(queries), h), dead)
      ensures AllAnswered(old(queries), queries, Waiters(old(queries), h), st)
      ensures old(out) <= out
      decreases Budget(queries), 1
    {
      hide TxsOk, Distinct, AllWaitedOn, QueriesOk, Counted, Kept, Left, Live, Budget, Asked, Open, Answered, AllAnswered;
      var todo := set q | q in queries && queries[q].tx == Some(h);
      ghost var waiting := todo;
      ghost var told: set<nat> := {};
      assert todo == Waiters(queries, h);
      LeftNone(queries, waiting, dead, st);
      KeptNone(txs, dead, nextTx, now);
      while todo != {}
        invariant told + todo == waiting && told !! todo && Core(dead, None, None)
        invariant old(nextTx) <= nextTx && Budget(queries) <= old(Budget(queries))
        invariant Kept(old(txs), txs, None, dead, old(nextTx), now)
        invariant Left(old(queries), queries, waiting) && Live(queries, told, dead)
        invariant Untouched(old(queries), queries, todo) && AllAnswered(old(queries), queries, told, st)
        invariant old(out) <= out
        decreases todo
      {
        var q :| q in todo;
        label Before:
        StillWaits(queries, txs, nextQuery, dead, q, h);
        DeepOf(old(queries), h, |dead| - 1, q);
        QueryReady(q, st, now, dead);
        KeptTrans(old(txs), old@Before(txs), txs, dead, old(nextTx), old@Before(nextTx), now);
        LeftStep(old(queries), old@Before(queries), queries, waiting, q);
        LiveStep(old@Before(queries), queries, told, q, dead);
        UntouchedStep(old(queries), old@Before(queries), queries, todo, q);
        AnsweredStep(old(queries), old@Before(queries), queries, told, q, st);
        told, todo := told + {q}, todo - {q};
      }
      assert told == waiting;
    }

    /** The first half of `tx_complete`: the transaction is no longer pending. */
    method Settle(h: nat, st: TxState, ghost dead: set<nat>)
      requires Core(dead, None, Some(h)) && h in txs && h !in dead && !st.Pending?
      modifies `txs, `out
      ensures Core(dead + {h}, None, None)
      ensures txs == old(txs)[h := old(txs[h]).(state := st, timeoutAt := None, udpOpen := false)]
      ensures out == if old(txs[h].udpOpen) then old(out) + [Close(h)] else old(out)
    {
      hide Distinct, AllWaitedOn, QueriesOk, Counted, Asked;
      assert TxOk(h, txs[h], nextTx, Asked(out, h), dead, Some(h));
      if txs[h].udpOpen {
        CloseSet(txs, nextTx, out, Close(h), dead, Some(h));
        AskedStep(out, Close(h), h);
        out := out + [Close(h)];
      }
      var t := txs[h].(state := st, timeoutAt := None, udpOpen := false);
      Bury(txs, queries, nextTx, nextQuery, out, h, t, dead);
      txs := txs[h := t];
    }

    /** `query_ready`: what a settled transaction means for a query. */
    method QueryReady(q: nat, st: TxState, now: nat, ghost dead: set<nat>)
      requires Core(dead, None, None) && q in queries && !st.Pending? && |dead| <= queries[q].redirects + 1
      requires queries[q].outcome.None? && queries[q].tx.Some? && queries[q].tx.value in dead
      modifies `txs, `queries, `out, `nextTx
      ensures Core(dead, None, None)
      ensures old(nextTx) <= nextTx && Budget(queries) <= old(Budget(queries))
      ensures Kept(old(txs), txs, None, dead, old(nextTx), now)
      ensures Left(old(queries), queries, {q}) && Live(queries, {q}, dead)
      ensures Answered(old(queries)[q], queries[q], st)
      ensures old(out) <= out
      decreases Budget(queries), 0
    {
      hide TxsOk, Distinct, AllWaitedOn, QueriesOk, Counted, Kept, Left, Live, Budget, Asked, Open, Chase;
      var was := queries[q];
      QueryIs(queries, txs, nextQuery, dead, None, q);
      var c: Chased;
      match st {
        case RcodeFailure(rcode) => c := Settled(Rcode(rcode), was.redirects);
        case Broken(why) => c := Settled(Failed(why), was.redirects);
        case Success(rcode, answer) => c := Walk(was.key, answer, rcode, was.chainTtl, was.redirects);
      }
      match c
      case Settled(o, redirects) =>
        var x := was.(tx := None, outcome := Some(o), redirects := redirects);
        QuerySet(txs, queries, nextQuery, q, x, dead, None, None);
        BudgetUpdate(queries, q, x);
        LeftSet(queries, q, x);
        KeptNone(txs, dead, nextTx, now);
        queries := queries[q := x];
        LiveOne(queries, q, dead);
      case Ask(key, ttl, redirects) =>
        var x := was.(tx := None, key := key, chainTtl := ttl, redirects := redirects);
        QuerySet(txs, queries, nextQuery, q, x, dead, None, Some(q));
        BudgetUpdate(queries, q, x);
        LeftSet(queries, q, x);
        queries := queries[q := x];
        ghost var moved := queries;
        QueryGo(q, now, dead);
        LeftOne(moved, queries, q);
        LeftStep(old(queries), moved, queries, {q}, q);
    }

    /** `query_go`: a transaction for the query, shared if there is one. */
    method QueryGo(q: nat, now: nat, ghost dead: set<nat>)
      requires Core(dead, Some(q), None) && q in queries && |dead| <= queries[q].redirects
      modifies `txs, `queries, `out, `nextTx
      ensures Core(dead, None, None)
      ensures old(nextTx) <= nextTx && Budget(queries) <= old(Budget(queries))
      ensures Kept(old(txs), txs, None, dead, old(nextTx), now)
      ensures Left(old(queries), queries, {q}) && Live(queries, {q}, dead)
      ensures old(out) <= out
      decreases Budget(queries), 4
    {
      hide TxsOk, Distinct, AllWaitedOn, QueriesOk, Counted, Kept, Left, Live, Budget, Asked, Open, Ids, Waiters;
      var key := queries[q].key;
      QueryIs(queries, txs, nextQuery, dead, Some(q), q);
      if h :| h in txs && txs[h].key == key && txs[h].state.Pending? {
        var x := queries[q].(tx := Some(h));
        PendingLives(txs, nextTx, out, dead, h);
        QuerySet(txs, queries, nextQuery, q, x, dead, Some(q), None);
        BudgetUpdate(queries, q, x);
        LeftSet(queries, q, x);
        KeptNone(txs, dead, nextTx, now);
        queries := queries[q := x];
        LiveOne(queries, q, dead);
        return;
      }
      NoneFits(txs, nextTx, out, dead, key);
      var h := NewTx(q, dead);
      ghost var joined, own := queries, txs[h];
      LeftSet(old(queries), q, joined[q]);
      DeepOne(queries, h, |dead|, q);
      TxGo(h, now, dead);
      KeptNew(old(txs), h, own, txs, dead, now);
      LeftStep(old(queries), joined, queries, {q}, q);
    }

    /** The second half of `query_go`: a transaction of the query's own. */
    method NewTx(q: nat, ghost dead: set<nat>) returns (h: nat)
      requires Core(dead, Some(q), None) && q in queries && |dead| <= queries[q].redirects
      requires nextTx !in txs && forall h | h in txs && h !in dead :: txs[h].key != queries[q].key
      modifies `txs, `queries, `nextTx
      ensures Core(dead, None, Some(h)) && h == old(nextTx) && nextTx == h + 1 && h !in dead
      ensures h in txs && txs == old(txs)[h := txs[h]]
      ensures queries == old(queries)[q := old(queries)[q].(tx := Some(h))] && Waiters(queries, h) == {q}
      ensures Budget(queries) == old(Budget(queries))
    {
      hide TxsOk, Distinct, AllWaitedOn, QueriesOk, Counted, Budget, Asked, Open, Ids, Waiters;
      h := nextTx;
      TxsCount(txs, queries, nextQuery, dead, Some(q));
      QueryIs(queries, txs, nextQuery, dead, Some(q), q);
      var id := PickNewId();
      var t := Tx(id, queries[q].key, Pending, None, Edns0, None, 0, 0, false, OverUdp, None, false);
      var x := queries[q].(tx := Some(h));
      LeftSet(queries, q, x);
      TxNew(txs, queries, nextTx, nextQuery, out, q, t, dead);
      BudgetUpdate(queries, q, x);
      nextTx := nextTx + 1;
      txs := txs[h := t];
      queries := queries[q := x];
    }

    /** `tx_go`: one more attempt, unless there have been enough. */
    method TxGo(h: nat, now: nat, ghost dead: set<nat>)
      requires Core(dead, None, Some(h)) && h in txs && h !in dead && Deep(queries, h, |dead|)
      modifies `txs, `queries, `out, `nextTx
      ensures Core(dead, None, None)
      ensures old(nextTx) <= nextTx && Budget(queries) <= old(Budget(queries))
      ensures Kept(old(txs), txs, Some(h), dead, old(nextTx), now)
      ensures Left(old(queries), queries, Waiters(old(queries), h)) && Live(queries, Waiters(old(queries), h), dead)
      ensures h in txs ==> queries == old(queries)
      ensures h in txs ==> Another(old(txs[h]), txs[h], servers, current) && Heeds(old(txs[h]), txs[h])
      ensures old(txs[h].attempts) == 24 || !routable || current.None? ==> h !in txs
      ensures old(out) <= out
      decreases Budget(queries), 3
    {
      hide TxsOk, Distinct, AllWaitedOn, QueriesOk, Counted, Kept, Left, Live, Budget, Asked, Open, InFlight;
      var t := txs[h].(timeoutAt := None);
      TxIs(txs, nextTx, out, dead, Some(h), h);
      var st: Option<TxState> := None;
      if !routable {
        st := Some(Broken(NetworkDown));
      } else if t.attempts >= ATTEMPTS_MAX {
        st := Some(Broken(Timeout));
      } else {
        t := t.(attempts := t.attempts + 1);
        var hit: Option<Hit> := *;
        if hit.Some? {
          st := Some(Answer(hit.value.rcode, hit.value.answer));
        }
      }
      TxsSet(txs, nextTx, out, h, t, dead, Some(h));
      TxSet(txs, queries, h, t, nextQuery, dead, None);
      txs := txs[h := t];
      if st.None? {
        var failed := Transmit(h, false, now, dead);
        if failed.None? {
          assert txs == old(txs)[h := txs[h]];
          KeptArmed(old(txs), h, txs[h], dead, nextTx, now);
          LeftNone(queries, Waiters(queries, h), dead, Pending);
          LiveOf(queries, h, dead);
          return;
        }
        st := Some(Broken(failed.value));
      }
      TxComplete(h, st.value, now, dead);
      KeptSame(old(txs), h, t, txs, dead, old(nextTx), now);
    }

    // ── The public calls ───────────────────────────────────────────────

    constructor ()
      ensures Valid() && out == []
    {
      servers, current, txs, queries, nextTx, nextQuery, routable, out := [], None, map[], map[], 1, 1, false, [];
    }

    /** `next_server`: on from `ifCurrent`, unless that has changed already. */
    method NextServer(ifCurrent: Option<nat>)
      requires current.Some? ==> current.value < |servers|
      modifies `current
      ensures current == NextOf(servers, old(current), ifCurrent) && (current.Some? ==> current.value < |servers|)
    {
      if current.None? {
        return;
      }
      var i := current.value;
      if ifCurrent.Some? && servers[i] != ifCurrent.value {
        return;
      }
      current := Some(if i + 1 == |servers| then 0 else i + 1);
    }

    /** `retry`. */
    method Retry(h: nat, nextServer: bool, now: nat)
      requires Core({}, None, Some(h)) && h in txs
      modifies this
      ensures Valid() && routable == old(routable) && servers == old(servers) && nextQuery == old(nextQuery)
      ensures current == if nextServer then NextOf(servers, old(current), old(txs[h].server)) else old(current)
      ensures old(nextTx) <= nextTx
      ensures Kept(old(txs), txs, Some(h), {}, old(nextTx), now)
      ensures Left(old(queries), queries, Waiters(old(queries), h))
      ensures h in txs ==> queries == old(queries)
      ensures h in txs ==> Another(old(txs[h]), txs[h], servers, current) && Heeds(old(txs[h]), txs[h])
      ensures old(out) <= out
    {
      hide TxsOk, Distinct, AllWaitedOn, QueriesOk, Counted, Kept, Left, Live, Budget, Asked, Open, Waiters;
      if nextServer {
        NextServer(txs[h].server);
      }
      DeepNone(queries, h, {});
      TxGo(h, now, {});
    }

    /** `tick`: fire the due timeouts of queries and transactions. */
    method Tick(now: nat)
      requires Valid()
      modifies this
      ensures Valid() && old(nextTx) <= nextTx
      ensures queries.Keys == old(queries).Keys
      ensures forall q | q in queries :: queries[q].outcome.None? ==> now < queries[q].deadline
      ensures forall q | q in queries && old(queries)[q].outcome.Some? :: queries[q] == old(queries)[q]
      ensures forall h | h in txs :: Armed(txs[h], now)
      ensures old(out) <= out
      ensures Expired(old(queries), now) == old(queries) && DueSet(old(txs), now) == {} ==> unchanged(this)
    {
      hide TxsOk, Distinct, AllWaitedOn, QueriesOk, Counted, Kept, Left, Budget, Asked, Open, Collected;
      var expired := ExpireQueries(now);
      ExpiredOk(old(queries), txs, nextQuery, now);
      ExpiredOpen(old(queries), now);
      if expired {
        label Collecting:
        ghost var none: set<nat> := {};
        assert none + none == none;
        CollectedOk(txs, queries, nextTx, nextQuery, out, none, none);
        Gc();
        SameAsked(txs, old@Collecting(out), out, nextTx, {});
      }
      while exists h :: h in txs && Due(txs[h], now)
        invariant Valid() && old(nextTx) <= nextTx
        invariant OnTime(old(queries), queries, now)
        invariant old(out) <= out
        invariant Expired(old(queries), now) == old(queries) && DueSet(old(txs), now) == {} ==> unchanged(this)
        decreases DueSet(txs, now)
      {
        var h :| h in txs && Due(txs[h], now);
        label Before:
        var t := txs[h].(timeoutAt := None, seenTimeout := true);
        TxIs(txs, nextTx, out, {}, None, h);
        TakenUp(txs, nextTx, out, {}, h);
        TxsSet(txs, nextTx, out, h, t, {}, Some(h));
        TxSet(txs, queries, h, t, nextQuery, {}, None);
        txs := txs[h := t];
        Retry(h, true, now);
        DueShrinks(old@Before(txs), h, t, txs, old@Before(nextTx), now);
        OnTimeStep(old(queries), old@Before(queries), queries, old@Before(txs), nextQuery, h, now);
      }
      NoneDue(txs, nextTx, out, now);
    }

    /** The first half of `tick`: queries past their deadline fail. */
    method ExpireQueries(now: nat) returns (expired: bool)
      modifies `queries
      ensures queries == Expired(old(queries), now)
      ensures !expired <==> queries == old(queries)
    {
      expired := false;
      var todo := queries.Keys;
      while todo != {}
        invariant todo <= queries.Keys == old(queries).Keys
        invariant forall q | q in todo :: queries[q] == old(queries)[q]
        invariant forall q | q in queries && q !in todo :: queries[q] == Expired(old(queries), now)[q]
        invariant !expired <==> queries == old(queries)
        decreases todo
      {
        var q :| q in todo;
        if queries[q].outcome.None? && queries[q].deadline <= now {
          queries := queries[q := queries[q].(outcome := Some(Failed(Timeout)), tx := None)];
          expired := true;
        }
        todo := todo - {q};
      }
    }

    /** `limited_retry`: only while some server has not been tried. */
    method LimitedRetry(h: nat, now: nat) returns (retried: bool)
      requires Core({}, None, Some(h)) && h in txs
      modifies this
      ensures retried <==> old(txs[h].picked) < |old(servers)|
      ensures retried ==>
        && Valid() && nextQuery == old(nextQuery) && old(out) <= out
        && Others(old(txs), txs, h) && Left(old(queries), queries, Waiters(old(queries), h))
        && servers == old(servers) && current == NextOf(servers, old(current), old(txs[h].server))
        && (h in txs ==> Another(old(txs[h]), txs[h], servers, current) && queries == old(queries))
      ensures !retried ==> unchanged(this)
    {
      hide TxsOk, Distinct, AllWaitedOn, QueriesOk, Counted, Kept, Left, Budget, Asked, Open, Waiters, Others;
      if txs[h].picked >= |servers| {
        return false;
      }
      Retry(h, true, now);
      KeptOthers(old(txs), txs, h, old(out), Some(h), old(nextTx), now);
      return true;
    }

    /** `maybe_restart`: what was asked is too much for the server by now, so it
        is asked afresh with another identifier. */
    method MaybeRestart(h: nat, now: nat) returns (restarted: bool)
      requires Valid() && h in txs
      modifies this
      ensures restarted ==>
        && Valid() && nextQuery == old(nextQuery) && old(out) <= out
        && Others(old(txs), txs, h) && Left(old(queries), queries, Waiters(old(queries), h))
        && (h in txs ==> txs[h].id != old(txs[h].id)) && !old(txs[h].level).TcpOnly?
      ensures !restarted ==> unchanged(this)
    {
      hide TxsOk, Distinct, AllWaitedOn, QueriesOk, Counted, Kept, Left, Budget, Asked, Open, Waiters, Others;
      var t := txs[h];
      var possible: Level := *;
      if t.server.None? || t.server.value !in servers || t.level.Rank() <= possible.Rank() {
        return false;
      }
      TxsCount(txs, queries, nextQuery, {}, None);
      var id := PickNewId();
      assert t.id in Ids(txs);
      t := t.(id := id);
      TxIs(txs, nextTx, out, {}, None, h);
      TakenUp(txs, nextTx, out, {}, h);
      TxsSet(txs, nextTx, out, h, t, {}, Some(h));
      TxSet(txs, queries, h, t, nextQuery, {}, None);
      txs := txs[h := t];
      DeepNone(queries, h, {});
      TxGo(h, now, {});
      KeptSame(old(txs), h, t, txs, {}, old(nextTx), now);
      KeptOthers(old(txs), txs, h, old(out), None, old(nextTx), now);
      return true;
    }

    /** Settle a transaction from outside a completion. */
    method Finish(h: nat, st: TxState, now: nat)
      requires Valid() && h in txs && !st.Pending?
      modifies this
      ensures Valid() && nextQuery == old(nextQuery) && old(out) <= out && h !in txs
      ensures Others(old(txs), txs, h) && Left(old(queries), queries, Waiters(old(queries), h))
      ensures AllAnswered(old(queries), queries, Waiters(old(queries), h), st)
    {
      hide TxsOk, Distinct, AllWaitedOn, QueriesOk, Counted, Kept, Left, Live, Budget, Asked, Open, Waiters, Others, AllAnswered;
      TakenUp(txs, nextTx, out, {}, h);
      DeepNone(queries, h, {});
      TxComplete(h, st, now, {});
      KeptOthers(old(txs), txs, h, old(out), None, old(nextTx), now);
    }

    /** `process_reply`, a truncated answer: ask again over TCP (section 5 of
        RFC 7766). */
    method RepeatOverTcp(h: nat, now: nat)
      requires Valid() && h in txs && txs[h].proto.OverUdp?
      modifies this
      ensures Valid() && nextQuery == old(nextQuery) && old(out) <= out
      ensures Others(old(txs), txs, h) && Left(old(queries), queries, Waiters(old(queries), h))
      ensures h in txs <==> old(current).Some?
      ensures h in txs ==> txs[h].proto.OverTcp? && txs[h].attempts == old(txs[h].attempts) && queries == old(queries)
    {
      hide TxsOk, Distinct, AllWaitedOn, QueriesOk, Counted, Kept, Left, Live, Budget, Asked, Open, Waiters, Others, AllAnswered;
      TxIs(txs, nextTx, out, {}, None, h);
      TakenUp(txs, nextTx, out, {}, h);
      var failed := Transmit(h, true, now, {});
      if failed.Some? {
        DeepNone(queries, h, {});
        TxComplete(h, Broken(failed.value), now, {});
        KeptOthers(old(txs), txs, h, old(out), None, old(nextTx), now);
      } else {
        OthersSet(old(txs), h, txs[h]);
        LeftSame(queries, h);
      }
    }

    /** `process_reply`, an error at the EDNS0 level: EDNS0 is given up, after
        SERVFAIL only the second time. */
    method Downgrade(h: nat, rcode: nat, now: nat) returns (clamp: Level)
      requires Valid() && h in txs && txs[h].level.Edns0?
      modifies this
      ensures Valid() && nextQuery == old(nextQuery) && old(out) <= out
      ensures Others(old(txs), txs, h) && Left(old(queries), queries, Waiters(old(queries), h))
      ensures clamp.Edns0? <==> rcode == RCODE_SERVFAIL && old(txs)[h].clamp.None?
      ensures h in txs ==>
        && queries == old(queries) && txs[h].attempts == old(txs)[h].attempts + 1
        && (txs[h].server == old(txs)[h].server ==>
              txs[h].clamp == Some(clamp) && txs[h].level.Rank() <= clamp.Rank() && !clamp.TcpOnly?)
    {
      hide TxsOk, Distinct, AllWaitedOn, QueriesOk, Counted, Kept, Left, Live, Budget, Asked, Open, Waiters, Others, AllAnswered;
      clamp := if rcode == RCODE_SERVFAIL && txs[h].clamp.None? then Edns0 else PlainUdp;
      var t := txs[h].(clamp := Some(clamp));
      TxIs(txs, nextTx, out, {}, None, h);
      TakenUp(txs, nextTx, out, {}, h);
      TxsSet(txs, nextTx, out, h, t, {}, Some(h));
      TxSet(txs, queries, h, t, nextQuery, {}, None);
      txs := txs[h := t];
      Retry(h, false, now);
      KeptSame(old(txs), h, t, txs, {}, old(nextTx), now);
      KeptOthers(old(txs), txs, h, old(out), None, old(nextTx), now);
    }

    /** `process_reply`. If the reply settles the transaction, it is with `act`: what
        `ReplyState` makes of it, or, with no server left to ask over TCP, that. */
    method ProcessReply(h: nat, p: Packet, now: nat) returns (ghost act: Option<TxState>)
      requires Valid() && h in txs
      modifies this
      ensures Valid() && nextQuery == old(nextQuery) && old(out) <= out
      ensures Others(old(txs), txs, h) && Left(old(queries), queries, Waiters(old(queries), h))
      ensures act.Some? ==>
        && h !in txs && act.value == ReplyState(old(txs)[h], p)
        && AllAnswered(old(queries), queries, Waiters(old(queries), h), act.value)
      ensures old(txs)[h].proto.OverTcp? && (p.truncated || p.len < 2 || p.id != old(txs)[h].id) ==> act.Some?
      ensures old(txs)[h].proto.OverUdp? && p.truncated && old(current).Some? ==>
        h in txs && txs[h].proto.OverTcp? && txs[h].attempts == old(txs)[h].attempts && queries == old(queries)
      ensures (old(txs)[h].level.TcpOnly? && !p.truncated && p.body.Some? && p.body.value.rcode != RCODE_REFUSED
               && !IsServerError(p.body.value.rcode)) ==> act.Some?
    {
      hide TxsOk, Distinct, AllWaitedOn, QueriesOk, Counted, Kept, Left, Live, Budget, Asked, Open, Waiters, Others, AllAnswered,
        Answer, FixedRcode;
      TakenUp(txs, nextTx, out, {}, h);
      var t := txs[h];
      act := None;
      if t.proto.OverTcp? && (p.truncated || p.len < 2 || p.id != t.id) {
        Finish(h, Broken(InvalidReply), now);
        return Some(Broken(InvalidReply));
      }
      if p.truncated {
        RepeatOverTcp(h, now);
        return;
      }
      if p.body.None? {
        var restarted := MaybeRestart(h, now);
        if !restarted {
          Finish(h, Broken(InvalidReply), now);
          act := Some(Broken(InvalidReply));
        }
        return;
      }
      var reply := p.body.value;
      if IsServerError(reply.rcode) && t.level.Edns0? {
        var _ := Downgrade(h, reply.rcode, now);
        return;
      }
      if IsServerError(reply.rcode) || reply.rcode == RCODE_REFUSED {
        var retried := LimitedRetry(h, now);
        if retried {
          return;
        }
      }
      var restarted := MaybeRestart(h, now);
      if restarted {
        return;
      }
      var st := if reply.asked != Some(t.key) then Broken(InvalidReply) else Answer(FixedRcode(t.key, reply), reply.rrs);
      AnswerSettles(FixedRcode(t.key, reply), reply.rrs);
      Finish(h, st, now);
      act := Some(st);
    }

    /** `udp_reply`: something came in on the transaction's UDP socket. */
    method UdpReply(h: nat, p: Packet, now: nat) returns (ghost act: Option<TxState>)
      requires Valid()
      modifies this
      ensures Valid() && nextQuery == old(nextQuery) && old(out) <= out
      ensures Others(old(txs), txs, h) && Left(old(queries), queries, Waiters(old(queries), h))
      ensures (h !in old(txs) || !old(txs)[h].proto.OverUdp? || p.len < HEADER_SIZE || !p.response
               || p.id != old(txs)[h].id) ==> unchanged(this)
      ensures act.Some? ==>
        && h in old(txs) && h !in txs && p.id == old(txs)[h].id && act.value == ReplyState(old(txs)[h], p)
        && AllAnswered(old(queries), queries, Waiters(old(queries), h), act.value)
    {
      hide TxsOk, Distinct, AllWaitedOn, QueriesOk, Counted, Kept, Left, Live, Budget, Asked, Open, Waiters, Others, AllAnswered;
      act := None;
      OthersNone(txs, h);
      LeftSame(queries, h);
      if h !in txs || !txs[h].proto.OverUdp? || p.len < HEADER_SIZE {
        return;
      }
      if !p.response || p.id != txs[h].id {
        return;
      }
      act := ProcessReply(h, p, now);
    }

    /** `tcp_reply`: what came of a query over TCP. */
    method TcpReply(h: nat, p: Option<Packet>, now: nat)
      requires Valid()
      modifies this
      ensures Valid() && nextQuery == old(nextQuery) && old(out) <= out
      ensures Others(old(txs), txs, h) && Left(old(queries), queries, Waiters(old(queries), h))
      ensures h !in old(txs) || !old(txs)[h].proto.OverTcp? ==> unchanged(this)
      ensures p.None? && h in old(txs) && old(txs)[h].proto.OverTcp? ==>
        && servers == old(servers) && current == NextOf(servers, old(current), old(txs[h].server))
        && (h in txs ==> Another(old(txs[h]), txs[h], servers, current) && queries == old(queries))
    {
      hide TxsOk, Distinct, AllWaitedOn, QueriesOk, Counted, Kept, Left, Live, Budget, Asked, Open, Waiters, Others;
      OthersNone(txs, h);
      LeftSame(queries, h);
      if h !in txs || !txs[h].proto.OverTcp? {
        return;
      }
      match p
      case Some(packet) =>
        ghost var _ := ProcessReply(h, packet, now);
      case None =>
        TakenUp(txs, nextTx, out, {}, h);
        Retry(h, true, now);
        KeptOthers(old(txs), txs, h, old(out), None, old(nextTx), now);
    }

    /** `udp_send_failed`: the attempt counts, and the next is made now. */
    method UdpSendFailed(h: nat, now: nat)
      requires Valid()
      modifies this
      ensures Valid() && nextQuery == old(nextQuery) && old(out) <= out
      ensures Others(old(txs), txs, h) && Left(old(queries), queries, Waiters(old(queries), h))
      ensures h !in old(txs) ==> unchanged(this)
      ensures h in old(txs) ==>
        && servers == old(servers) && current == NextOf(servers, old(current), old(txs[h].server))
        && (h in txs ==> Another(old(txs[h]), txs[h], servers, current) && queries == old(queries))
    {
      hide TxsOk, Distinct, AllWaitedOn, QueriesOk, Counted, Kept, Left, Live, Budget, Asked, Open, Waiters, Others;
      OthersNone(txs, h);
      LeftSame(queries, h);
      if h !in txs {
        return;
      }
      TakenUp(txs, nextTx, out, {}, h);
      Retry(h, true, now);
      KeptOthers(old(txs), txs, h, old(out), None, old(nextTx), now);
    }

    /** `udp_error`: the socket is closed, then `limited_retry` or the end. */
    method UdpError(h: nat, now: nat)
      requires Valid()
      modifies this
      ensures Valid() && nextQuery == old(nextQuery) && old(out) <= out
      ensures Others(old(txs), txs, h) && Left(old(queries), queries, Waiters(old(queries), h))
      ensures h !in old(txs) || !old(txs)[h].proto.OverUdp? ==> unchanged(this)
      ensures h in old(txs) && old(txs)[h].proto.OverUdp? && old(txs)[h].picked >= |old(servers)|
              ==> h !in txs && AllAnswered(old(queries), queries, Waiters(old(queries), h), Broken(Unreachable))
      ensures h in old(txs) && old(txs)[h].proto.OverUdp? && old(txs)[h].picked < |old(servers)| ==>
        && servers == old(servers) && current == NextOf(servers, old(current), old(txs[h].server))
        && (h in txs ==> Another(old(txs[h]), txs[h], servers, current) && queries == old(queries))
    {
      hide TxsOk, Distinct, AllWaitedOn, QueriesOk, Counted, Kept, Left, Live, Budget, Asked, Open, Waiters, Others, AllAnswered;
      OthersNone(txs, h);
      LeftSame(queries, h);
      if h !in txs || !txs[h].proto.OverUdp? {
        return;
      }
      if txs[h].udpOpen {
        var t := txs[h].(udpOpen := false);
        TxIs(txs, nextTx, out, {}, None, h);
        TakenUp(txs, nextTx, out, {}, h);
        TxsSet(txs, nextTx, out, h, t, {}, None);
        TxSet(txs, queries, h, t, nextQuery, {}, None);
        CloseSet(txs[h := t], nextTx, out, Close(h), {}, None);
        OthersSet(txs, h, t);
        txs := txs[h := t];
        out := out + [Close(h)];
      }
      TakenUp(txs, nextTx, out, {}, h);
      ghost var closed := txs;
      var retried := LimitedRetry(h, now);
      if !retried {
        Finish(h, Broken(Unreachable), now);
      }
      OthersTrans(old(txs), closed, txs, h);
    }

    /** `query`: ask for the addresses of a (normalised) name. */
    method Resolve(name: string, now: nat) returns (q: nat)
      requires Valid() && |Open(queries)| < OPEN_MAX
      modifies this
      ensures Valid() && q == old(nextQuery) && nextQuery == q + 1
      ensures queries.Keys == old(queries).Keys + {q} && queries[q].deadline == now + QUERY_TIMEOUT
      ensures forall k | k in old(queries) :: queries[k] == old(queries)[k]
      ensures forall h | h in old(txs) :: h in txs && txs[h] == old(txs)[h]
      ensures old(out) <= out
    {
      hide TxsOk, Distinct, AllWaitedOn, QueriesOk, Counted, Kept, Left, Live, Budget, Asked, Open;
      q := nextQuery;
      var x := Query(Key(name, TYPE_A), 0, TTL_MAX, None, None, now + QUERY_TIMEOUT);
      QueryNew(txs, queries, nextQuery, x);
      OpenNew(queries, q, x);
      nextQuery := nextQuery + 1;
      queries := queries[q := x];
      ghost var asked := queries;
      QueryGo(q, now, {});
      KeptAll(old(txs), txs, old(out), old(nextTx), now);
      LeftRest(asked, queries, q);
    }

    /** `take`: hand an outcome over and forget the query. */
    method Take(q: nat) returns (o: Option<Outcome>)
      requires Valid()
      modifies `queries
      ensures Valid()
      ensures o == if q in old(queries) then old(queries)[q].outcome else None
      ensures queries == if o.Some? then old(queries) - {q} else old(queries)
    {
      hide TxsOk, Distinct, AllWaitedOn, QueriesOk, Counted, Budget, Asked, Open;
      if q !in queries || queries[q].outcome.None? {
        return None;
      }
      o := queries[q].outcome;
      QueryGone(txs, queries, nextQuery, q);
      OpenGone(queries, q);
      queries := queries - {q};
    }

    /** `cancel`: give up on a query. */
    method Cancel(q: nat)
      requires Valid()
      modifies `queries, `txs, `out
      ensures Valid()
      ensures queries == old(queries) - {q} && txs == Collected(old(txs), queries) && old(out) <= out
    {
      hide TxsOk, Distinct, AllWaitedOn, QueriesOk, Counted, Budget, Asked, Open, Collected;
      ghost var none: set<nat> := {};
      assert none + none == none;
      OpenGone(queries, q);
      QueryCancelled(txs, queries, nextQuery, q);
      queries := queries - {q};
      CollectedOk(txs, queries, nextTx, nextQuery, out, none, none);
      Gc();
      SameAsked(txs, old(out), out, nextTx, {});
    }

    /** `set_servers`: the configured servers, without repeats, starting at the
        first. */
    method SetServers(addrs: seq<nat>) returns (ghost at: seq<nat>)
      requires Valid()
      modifies `servers, `current
      ensures Valid() && FirstPlaces(servers, addrs, at)
      ensures forall a :: a in servers <==> a in addrs
      ensures forall i, j | 0 <= i < j < |servers| :: servers[i] != servers[j]
      ensures current == if addrs == [] then None else Some(0)
    {
      hide TxsOk, Distinct, AllWaitedOn, QueriesOk, Counted;
      var listed: seq<nat> := [];
      at := [];
      for i := 0 to |addrs|
        invariant forall a :: a in listed <==> a in addrs[..i]
        invariant FirstPlaces(listed, addrs, at) && forall k | 0 <= k < |at| :: at[k] < i
        invariant forall j, k | 0 <= j < k < |listed| :: listed[j] != listed[k]
      {
        if addrs[i] !in listed {
          listed, at := listed + [addrs[i]], at + [i];
        }
      }
      assert addrs[..|addrs|] == addrs;
      servers := listed;
      current := if servers == [] then None else Some(0);
      assert addrs != [] ==> addrs[0] in servers;
      assert servers != [] ==> servers[0] in addrs;
    }
  }

  /** What holds after every public call: unfinished queries wait for a pending
      transaction for their key; every transaction is pending, timed, waited on
      and alone with its key and its nonzero identifier; at most 16 redirects a
      query, 24 attempts and 48 queries sent a transaction; and the query last
      sent is the one whose answer is awaited. */
  lemma AfterEveryCall(r: Resolver)
    requires r.Valid()
    ensures forall q | q in r.queries ::
      && r.queries[q].redirects <= 16
      && (r.queries[q].outcome.Some? <==> r.queries[q].tx.None?)
      && (r.queries[q].tx.Some? ==> r.queries[q].tx.value in r.txs && r.txs[r.queries[q].tx.value].key == r.queries[q].key)
    ensures forall h | h in r.txs ::
      && r.txs[h].state.Pending? && r.txs[h].timeoutAt.Some? && 1 <= r.txs[h].id <= 0xFFFF && r.txs[h].attempts <= 24
      && (exists q :: q in r.queries && r.queries[q].tx == Some(h))
      && InFlight(r.txs[h], Asked(r.out, h))
    ensures forall h, k | h in r.txs && k in r.txs && h != k :: r.txs[h].id != r.txs[k].id && r.txs[h].key != r.txs[k].key
    ensures forall h: nat :: |Asked(r.out, h)| <= SENDS_MAX
    ensures |r.txs| <= |Open(r.queries)| <= OPEN_MAX
  {
    TxsCount(r.txs, r.queries, r.nextQuery, {}, None);
    forall q | q in r.queries ensures QueryOk(r.queries[q], r.txs, {}, false) {
      QueryIs(r.queries, r.txs, r.nextQuery, {}, None, q);
    }
    forall h | h in r.txs ensures TxOk(h, r.txs[h], r.nextTx, Asked(r.out, h), {}, None) && WaitedOn(h, r.queries) {
      TxIs(r.txs, r.nextTx, r.out, {}, None, h);
    }
    forall h, k | h in r.txs && k in r.txs && h != k ensures Apart(r.txs[h], r.txs[k], false) {
      assert Apart(r.txs[h], r.txs[k], h in {} || k in {});
    }
  }
}
