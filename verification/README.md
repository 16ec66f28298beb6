# nopeekOS protocol engines, in Dafny

A model of the parts of nopeekOS whose invariants span many calls, with proofs:
the protocol engines of `net/`, the HID core, and the allocators and converters
of the kernel that the drivers rely on. Time and randomness are inputs of the
original too; here a random draw, a cache or server-level lookup, a failing
`map_page` and the like are arbitrary values, so every result holds for all of
them. Run `dafny verify dfyconfig.toml`.

| files | component |
|---|---|
| `Csum` | Internet checksum (RFC 1071, RFC 1624) |
| `Frag`, `FragTable`, `FragRun`, `FragAlone` | IPv4 reassembly (RFC 791, RFC 5722): calls as functions of the table, the table updated in place, whole runs, one datagram by itself |
| `DnsChain`, `Dns`, `DnsResolver` | DNS stub resolver (RFC 1034, RFC 7766): CNAME chains, transactions and queries |
| `Dhcp`, `DhcpClient` | DHCPv4 client (RFC 2131) |
| `Neigh`, `NeighTable` | neighbour table (RFC 826, states of RFC 4861) |
| `Acd` | address conflict detection (RFC 5227) |
| `Irq` | interrupt vector matrix and the lines behind it |
| `ForgeSlots`, `Forge`, `ForgeRun` | slots, pages and frames of compiled modules: the allocator's atomic steps, the calls of one instance, and all instances and code at once, page by page |
| `HidLayout`, `HidCodec`, `HidReport`, `HidKeys`, `HidTrack` | HID descriptor parser, bit fields, whole reports, key tracking, and all of it from descriptor and bytes to keys (USB HID 1.11) |
| `Ring`, `Rate`, `Playback`, `Capture` | audio rings and rate converters |

An object of the source is a class with its fields; its invariant is `Valid()`
(or a predicate of the same role), its history what it sent, reported or played.
Every public call is proved to keep the invariant, so it holds in every run (a new
DNS query asks for room, see the end); the lemmas named `AfterEveryCall` say in
plain terms what that gives. A collection whose order nothing depends
on (transactions, queries, queues, entries) is a map.

Where the code does not do what one would expect:

- The incremental checksum update yields the other zero when everything written
  leaves only zero words; `Csum.UpdateIsRecompute` has the exact condition.
- With T1 and T2 set for the same moment the DHCP client fires T2 first and is
  back in RENEWING after REBINDING: `Dhcp.Phase` in `DhcpClient.Client.Tick`. It
  happens within that one tick only: T1 is never set later than T2, and a client
  found in REBINDING never goes to RENEWING.
- An array field loses a key when a press finds 32 keys held, although the report
  releases others in later slots (`HidKeys.FullKeyboardLosesAKey`), and when a key
  with two values moves to an earlier slot under its other one
  (`HidKeys.TwoValuesLoseAKey`). `HidKeys.TracksIff` says exactly when the keys are
  tracked. None is ever stuck: `HidKeys.NeverStuck`. A field in which the value 0
  names a key starts out wrong: `HidKeys.FreshFieldTracks`.
- A negative value written to a field without negative values reads back as it
  was only if it fills all 32 bits: `HidCodec.UnsignedFieldReadsBack`.
- A usage range that ends before it begins, such as 10 to 5, fills the rest of the
  usage table unless that would reach 2^31: `HidLayout.BackwardFills`.
- `flush` of the neighbour table loses waiting packets without a count or a report:
  `NeighTable.Table.Flush` says which, and everything else stays true of the table.
- Registering a line that somebody else routed in between takes that line away
  from them: `Irq.TwoDriversOneLine`, and `Irq.Matrix.RouteLine` has the exact
  condition.
- Interpolated samples lie between their neighbours for all samples, also where
  the 64-bit product wraps: `Rate.InterpolateIs`. That is the wrapping arithmetic
  of a release build; a debug build would panic on that product.

## Model

| member | source | states |
|---|---|---|
| Csum.Sum | net/src/csum.rs:7-24 | the sum gathered eight bytes at a time has the ones-complement value of the sum of all 16-bit big-endian words, an odd last byte padded |
| Csum.SumTail | net/src/csum.rs:14-23 | the bytes after the last eight are summed as words, an odd one padded |
| Csum.Fold | net/src/csum.rs:33-38 | folding gives the ones-complement value in 16 bits |
| Csum.Update | net/src/csum.rs:42-48 | the incremental update is the complement of the folded sum of complement, removed and new words |
| Csum.ChangeSumTracks | net/src/csum.rs:42-48 | over any series of aligned word writes the change terms account for the new sum, up to one 0xFFFF a write |
| Csum.UpdateIsRecompute | net/src/csum.rs:40-48 | after any writes the update equals a full recomputation if and only if nothing was written or some word is not zero; otherwise it yields 0 |
| Csum.StoredChecksumFolds | net/src/frag.rs:221-224 | storing the complement in a zeroed field makes the header fold to 0xFFFF |
| Frag.Input | net/src/frag.rs:98-227 | every fragment, in every table, leaves the accounting exact and memory within one fragment of the threshold |
| Frag.AdmitOk | net/src/frag.rs:109-139 | finding or restarting the queue keeps every other queue and the memory sum exact |
| Frag.PlaceOk | net/src/frag.rs:141-194 | a stored fragment leaves the queue nonempty, ordered, disjoint and within its length, its sums exact; a duplicate changes nothing but the length facts |
| Frag.InsertOk | net/src/frag.rs:172-190 | a fragment that touches none is inserted in order |
| Frag.ExpireOk | net/src/frag.rs:231-242 | expiry drops exactly what is due and keeps the accounting exact |
| Frag.MemMonotone | net/src/frag.rs:202-203 | the memory given back with a queue is part of the table's, so nothing underflows |
| Frag.TileIff | net/src/frag.rs:197-199 | disjoint fragments inside the length whose bytes add up to it are exactly those that cover it |
| Frag.ConcatPlaces | net/src/frag.rs:214-216 | fragments that tile the datagram, laid end to end, each land at their own offset |
| Frag.RebuiltHeader | net/src/frag.rs:214-226 | the rebuilt header has the right length, no fragment field, a checksum that folds to 0xFFFF and the rest of fragment 0's header |
| Frag.ReassembleLaid | net/src/frag.rs:201-226 | a datagram is handed out if and only if its ECN marks agree and it fits 65535 bytes, and then holds every fragment at its offset |
| Frag.CompleteHasNoGap | net/src/frag.rs:163-226 | every completed datagram has each accepted fragment at its own offset and every byte of it from some fragment |
| FragTable.Scan | net/src/frag.rs:168-177 | the scan finds whether anything overlaps and how many bytes are covered |
| FragTable.PlaceIn | net/src/frag.rs:141-194 | the step-by-step queueing does what `Frag.Place` says |
| FragTable.Emit | net/src/frag.rs:214-226 | the buffer filled piece by piece is the rebuilt datagram |
| FragTable.Defrag.constructor | net/src/frag.rs:83-85 | a new table is empty and sound |
| FragTable.Defrag.Kill | net/src/frag.rs:89-94 | the queue goes, its memory is given back, and the failure is counted |
| FragTable.Defrag.CountSource | net/src/frag.rs:117-127 | the source's counter moves by one in 32 bits; idle sources go when there are too many |
| FragTable.Defrag.Find | net/src/frag.rs:109-139 | the queue is found, made, or started over when its source has sent too many others |
| FragTable.Defrag.Input | net/src/frag.rs:98-227 | the call on the table in place is `Frag.Input` on its value |
| FragTable.Defrag.Accept | net/src/frag.rs:104-227 | as Input, for the parsed fragment |
| FragTable.Defrag.Conclude | net/src/frag.rs:195-227 | a queued fragment makes its datagram whole, refused, or waits |
| FragTable.Defrag.Expire | net/src/frag.rs:231-242 | the queues past their 30 s go, and fragment 0 of each that had it is reported |
| FragRun.ReadWire | net/src/frag.rs:99-103 | a fragment on the wire reads back as the piece it was cut from |
| FragRun.RebuiltOriginal | net/src/frag.rs:214-226 | rebuilding from fragment 0's header and the whole payload gives the original datagram |
| FragRun.WholeIffAll | net/src/frag.rs:197-199 | a queue of a datagram's fragments counts as whole exactly when it holds them all |
| FragRun.OwnStep | net/src/frag.rs:104-199 | a further fragment of the datagram is kept, or dropped alone as a duplicate |
| FragRun.ForeignStep | net/src/frag.rs:109-199 | a fragment of another datagram leaves the queue alone and moves the source's counter by at most one |
| FragRun.ReassemblyInvertsFragmentation | net/src/frag.rs:98-227 | cut any datagram at multiples of eight; its fragments in any order, with duplicates, among other traffic: the one that completes the set gets the datagram back byte for byte |
| FragRun.NothingBefore | net/src/frag.rs:98-199 | until then its fragments are only kept or, as duplicates, dropped |
| FragAlone.SoloMem | net/src/frag.rs:104-107 | one datagram's queue alone, whatever its cut, never reaches the memory threshold |
| FragAlone.AnyOrder | net/src/frag.rs:98-227 | from an empty table, with no condition on the run but 30 s: a datagram's fragments in any order and with any duplicates give it back when the last one missing comes |
| DnsChain.Walk | net/src/dns.rs:423-448 | the loop over one answer does what `DnsChain.Chase` says and ends within 16 redirects |
| DnsChain.MatchingIs | net/src/dns.rs:784-786 | the records taken are exactly the answer's records of the name and type |
| DnsChain.MinTtlIs | net/src/dns.rs:789-790 | the TTL reported is the least of the records' and the chain's, and attained |
| DnsChain.ChaseMeans | net/src/dns.rs:408-453 | the walk follows the answer's CNAMEs one redirect each and ends at records (under the chain's lowest TTL), a dead end, a name that is its own alias, or the limit |
| Dns.SomeIdFree | net/src/dns.rs:368-375 | with fewer than 65535 transactions an unused nonzero identifier exists |
| Dns.TxsCount | net/src/dns.rs:338-405 | the table holds at most one transaction for each unfinished query besides those being settled, and none for a query between transactions |
| DnsResolver.Resolver.constructor | net/src/dns.rs:208-220 | a new resolver keeps the run invariant |
| DnsResolver.Resolver.PickNewId | net/src/dns.rs:368-375 | the identifier is nonzero and unused |
| DnsResolver.Resolver.Emit | net/src/dns.rs:493-536 | the query names the current server and the transaction's identifier and key; over TCP exactly when asked for or below the UDP level; towards the same server the level stays within its clamp |
| DnsResolver.Resolver.Transmit | net/src/dns.rs:478-488 | one query goes out and the timer for its answer is armed, or there is no server |
| DnsResolver.Resolver.Gc | net/src/dns.rs:396-405 | exactly the pending transactions somebody waits for stay; an open socket of another is reported closed |
| DnsResolver.Resolver.TxComplete | net/src/dns.rs:379-393 | every query that waited hears of it, however deep completion re-enters; the recursion ends; no other query or transaction changes; each nested completion has a query one redirect further, so an identifier is always left |
| DnsResolver.Resolver.Settle | net/src/dns.rs:380-387 | the transaction is settled, its timer gone and its socket closed |
| DnsResolver.Resolver.Tell | net/src/dns.rs:388-391 | the queries waiting get their outcome or wait for another transaction |
| DnsResolver.Resolver.QueryReady | net/src/dns.rs:408-453 | a query takes the outcome of the chain, or asks for its end with one redirect more at least |
| DnsResolver.Resolver.QueryGo | net/src/dns.rs:338-365 | the query joins the transaction for its key or gets a new one |
| DnsResolver.Resolver.NewTx | net/src/dns.rs:345-364 | a new transaction has a fresh handle and identifier and is alone with its key |
| DnsResolver.Resolver.TxGo | net/src/dns.rs:456-489 | at most 24 attempts; afterwards the transaction is timed and awaits the query last sent, or is settled |
| DnsResolver.Resolver.NextServer | net/src/dns.rs:259-269 | the current server moves on to the next in turn, unless it already has |
| DnsResolver.Resolver.Retry | net/src/dns.rs:539-545 | one more attempt at the current server, which is the next in turn if asked, or the transaction ends |
| DnsResolver.Resolver.LimitedRetry | net/src/dns.rs:548-555 | a retry at the next server exactly if one is left that was not picked |
| DnsResolver.Resolver.MaybeRestart | net/src/dns.rs:559-575 | a restart is under another identifier, and never from the lowest level |
| DnsResolver.Resolver.Tick | net/src/dns.rs:578-605 | it ends; then no timer is due, every query past its deadline has an outcome, and none that had one changed; with nothing due nothing changes |
| DnsResolver.Resolver.ExpireQueries | net/src/dns.rs:579-584 | exactly the unfinished queries past their deadline fail with a timeout |
| DnsResolver.Resolver.UdpError | net/src/dns.rs:609-626 | an ICMP error on a UDP attempt is another attempt at the next server while one is left that was not picked, and otherwise ends the transaction as unreachable |
| DnsResolver.Resolver.UdpSendFailed | net/src/dns.rs:631-637 | at once another attempt at the next server, or the end; nothing for an unknown transaction |
| DnsResolver.Resolver.UdpReply | net/src/dns.rs:640-651 | a datagram that is short, no response, under another identifier or not awaited changes nothing |
| DnsResolver.Resolver.TcpReply | net/src/dns.rs:655-670 | a result not awaited changes nothing; a failed connection is another attempt at the next server, or the end |
| DnsResolver.Resolver.ProcessReply | net/src/dns.rs:673-773 | a reply settles its transaction only with what it says, and its records count only if it answers the question; a truncated one is asked again over TCP without another attempt |
| DnsResolver.Resolver.RepeatOverTcp | net/src/dns.rs:685-703 | the repetition goes over TCP in the same attempt, unless there is no server |
| DnsResolver.Resolver.Downgrade | net/src/dns.rs:724-733 | an error at the EDNS0 level is retried: SERVFAIL once more within the same level, anything else or a second SERVFAIL below it |
| DnsResolver.Resolver.Resolve | net/src/dns.rs:273-288 | a new query with a 120 s deadline; no other query or transaction changes |
| DnsResolver.Resolver.Take | net/src/dns.rs:291-296 | the outcome is handed out once and the query is gone |
| DnsResolver.Resolver.Cancel | net/src/dns.rs:299-302 | the query is gone, and so is a transaction nobody waits for any more |
| DnsResolver.Resolver.SetServers | net/src/dns.rs:225-242 | the servers are those given in the order they first appear, each once, starting at the first |
| DnsResolver.AfterEveryCall | net/src/dns.rs:338-605 | every unfinished query waits for a pending transaction for its key; every transaction is pending, timed, waited on and alone with its key and nonzero identifier, and there are no more of them than unfinished queries; at most 16 redirects, 24 attempts, 48 queries sent; the query last sent is the one awaited |
| Dhcp.RequestTimeout | net/src/dhcp.rs:140-160 | more than 3 s and at most 65 s, doubling with the attempt, within a second |
| Dhcp.Elapsed | net/src/dhcp.rs:168-176 | the seconds of a message are never zero and fit 16 bits |
| Dhcp.LeaseTimes | net/src/dhcp/lease.rs:137-164 | whatever the server says, the lifetime is at least 30 s and T1 comes before T2 and T2 before the end; sound values are taken as given |
| Dhcp.Earliest | net/src/dhcp.rs:373-382 | the timer to fire is due and no other is earlier; T1 is picked only if T2 is later |
| Dhcp.HoldingEnds | net/src/dhcp.rs:100-116 | between holding and not holding there is an Expired or a Stop |
| DhcpClient.Client.constructor | net/src/dhcp.rs:206-230 | a new client is stopped and keeps the run invariant |
| DhcpClient.Client.SetState | net/src/dhcp.rs:263-276 | the counters restart with the states that begin them |
| DhcpClient.Client.Halt | net/src/dhcp.rs:287-300 | Stop is reported if it ran, and nothing is left armed |
| DhcpClient.Client.StartDelayed | net/src/dhcp.rs:308-317 | a new cycle without a lease, due after the start delay |
| DhcpClient.Client.Restart | net/src/dhcp.rs:335-347 | Expired is reported exactly if an address was held; the delay doubles within 1 s to 30 min, and is none after REBOOTING |
| DhcpClient.Client.NewMessage | net/src/dhcp.rs:463-513 | server identifier, client address and requested address by kind and state |
| DhcpClient.Client.SendMessage | net/src/dhcp.rs:516-531 | every message has the form of section 4.3.2 of RFC 2131 for its state, and the addresses of the lease |
| DhcpClient.Client.Plan | net/src/dhcp.rs:416-447 | the state and the distance of the next attempt, or a restart after the last one |
| DhcpClient.Client.ResendFired | net/src/dhcp.rs:415-460 | one message and a timer not due, or the end of the attempts |
| DhcpClient.Client.Fire | net/src/dhcp.rs:384-404 | each timer that fires leaves less to fire |
| DhcpClient.Client.Tick | net/src/dhcp.rs:372-406 | it ends with no timer due; a held finite lease has not expired; the address is lost only to expiry; the phase is REBINDING once T2 fired unless T1 was set for the same moment; from REBINDING it never goes to RENEWING; a cycle that is due begins with a message |
| DhcpClient.Client.SetRequestAddress | net/src/dhcp.rs:245-248 | the address to ask for, only while stopped |
| DhcpClient.Client.Start | net/src/dhcp.rs:326-332 | the first message is out, while attempts are left, and its timer not due |
| DhcpClient.Client.StopNow | net/src/dhcp.rs:295-305 | stopped, Stop reported if it ran |
| DhcpClient.Client.SendRenew | net/src/dhcp.rs:350-358 | nothing unless bound |
| DhcpClient.Client.SendDecline | net/src/dhcp.rs:362-369 | DECLINE goes out, a held address expires; nothing without a lease |
| DhcpClient.Client.EnterRequesting | net/src/dhcp.rs:585-609 | the offer is taken up and its REQUEST due |
| DhcpClient.Client.SetLeaseTimeouts | net/src/dhcp.rs:634-658 | expiry from the lease's own time, T1 not after T2, no timer for a lease that never ends |
| DhcpClient.Client.EnterBound | net/src/dhcp.rs:612-630 | IpAcquire without an address held, else Renew or IpChange as the binding is the same or not; T1 is set no later than T2 |
| DhcpClient.Client.Receive | net/src/dhcp.rs:535-602 | what is not accepted in its state changes nothing; an address is newly held only through an ACK, with that ACK's lease |
| Neigh.HopSend | net/src/neigh.rs:201-218 | a packet sent at once keeps the balance and the order |
| Neigh.HopEvict | net/src/neigh.rs:251-255 | the oldest waiting packet that makes room is counted as dropped |
| Neigh.HopQueue | net/src/neigh.rs:249-258 | a packet that waits is the last in order, and the byte count stays exact |
| Neigh.HopFlush | net/src/neigh.rs:313-318 | what waited goes out in order to the address learnt |
| Neigh.HopFail | net/src/neigh.rs:278-284 | what waited is reported, once |
| Neigh.HopForget | net/src/neigh.rs:457-459 | what waited is recorded as lost when its entry goes, and the balance stays |
| Neigh.HopWithout | net/src/neigh.rs:457-459 | without its entry a hop balances if and only if nothing waited |
| NeighTable.RandReachTime | net/src/neigh.rs:136-139 | between half and one and a half of the base time |
| NeighTable.Victims | net/src/neigh.rs:185-195 | only idle failed or old entries, the lowest addresses first, at most so many, and all of them if fewer |
| NeighTable.Retain | net/src/neigh.rs:389-393 | exactly the entries in a timed state or used within a minute and not failed |
| NeighTable.TimedOk | net/src/neigh.rs:335-380 | what a timer makes of every state: one more request of the kind the entry sends, or after three of them failure and a report of what waited; an unconfirmed delay ends in a probe |
| NeighTable.Table.constructor | net/src/neigh.rs:150-159 | a new table is empty and keeps the run invariant |
| NeighTable.Table.SendProbe | net/src/neigh.rs:270-275 | one request, unicast to the cached address below three probes, else broadcast |
| NeighTable.Table.MakeRoom | net/src/neigh.rs:251-255 | the oldest packets go, each counted, until the new one fits or none is left |
| NeighTable.Table.Enqueue | net/src/neigh.rs:249-258 | the packet is the last of the queue and the queue before it a suffix of what it was |
| NeighTable.Table.EventSend | net/src/neigh.rs:231-266 | the packet is handed back exactly if the address may be used; a silent entry asks once by broadcast |
| NeighTable.Table.Begin | net/src/neigh.rs:236-247 | a silent entry starts probing, a stale one is given a delay |
| NeighTable.Table.Update | net/src/neigh.rs:287-319 | state and address after ARP spoke, and what waited goes to the address it gave |
| NeighTable.Table.Timer | net/src/neigh.rs:335-380 | unanswered: one more request, or after three of them failure and a report of what waited; the new timer is not due |
| NeighTable.Table.Invalidate | net/src/neigh.rs:278-284 | every waiting packet is reported, in order |
| NeighTable.Table.ForcedGc | net/src/neigh.rs:185-197 | only entries without timer and queue go, the lowest addresses first, down to the threshold |
| NeighTable.Table.Periodic | net/src/neigh.rs:383-394 | below the first threshold nothing goes; above it exactly what is failed or unused |
| NeighTable.Table.Tick | net/src/neigh.rs:323-333 | every entry that was due asked once more or was given up as its timer says, entries that were not due asked and reported nothing, and afterwards no timer is due |
| NeighTable.Table.Create | net/src/neigh.rs:168-181 | an entry for the address unless 1024 stay; nothing with a queue goes |
| NeighTable.Table.Output | net/src/neigh.rs:201-218 | a usable address gets the packet at once, else it is the last to wait, else it is counted as dropped; a silent entry begins to ask, and no entry that asks is disturbed |
| NeighTable.Table.Resolve | net/src/neigh.rs:223-228 | it says whether a request went out, and sends nothing else; no entry that asks is disturbed |
| NeighTable.Table.Learn | net/src/neigh.rs:433-452 | what ARP says of an address reaches that entry alone |
| NeighTable.Table.ArpInput | net/src/neigh.rs:399-453 | whom to answer; only the sender's entry changes, is made only for a request for us, and becomes REACHABLE only by a reply to us; a probe teaches nothing |
| NeighTable.Table.Flush | net/src/neigh.rs:457-459 | every entry goes; exactly what waited is lost, nothing if and only if nothing waited; the invariant stays |
| NeighTable.AfterEveryCall | net/src/neigh.rs:168-394 | each packet given for a hop is sent, waiting, reported, counted as dropped or lost in a flush, once; sent and waiting packets keep their order and go to addresses ARP gave; timers and queues only where they belong, the byte count exact and within the limit unless one packet exceeds it; at most three requests, all of one kind, since an entry began to ask |
| NeighTable.ServeAll | net/src/neigh.rs:201-459 | every run of public calls, flushes among them, keeps the invariant, and without a flush nothing is lost |
| NeighTable.Unanswered | net/src/neigh.rs:201-453 | over any run of public calls in which ARP is silent about an entry that asks and nothing is flushed, each timeout sends one request more and the one after the last gives it up, as a function of the calls |
| NeighTable.Unresolved | net/src/neigh.rs:201-453 | in any such run from the call that begins to ask: exactly three broadcast requests, and the entry is given up on the third timeout |
| NeighTable.Unconfirmed | net/src/neigh.rs:201-453 | in any such run from the tick that ends an unconfirmed delay: exactly three unicast requests to the known address, and the entry is given up on the third timeout after |
| Acd.Acd.constructor | net/src/acd.rs:80-92 | the time unit is a seventh of the timeout, rounded up, and the timeout is kept within bounds |
| Acd.Acd.SetState | net/src/acd.rs:106-113 | the iteration counts repeats of a state |
| Acd.Acd.OnTimeout | net/src/acd.rs:157-193 | three probes, a pause, two announcements, then nothing more; Bind with the first announcement |
| Acd.Acd.BeginProbing | net/src/acd.rs:160-168 | a random wait within one unit, after a minute when there were ten conflicts |
| Acd.Acd.ProbeOnce | net/src/acd.rs:169-178 | one probe, and the next step after one to two units, or exactly two before announcing |
| Acd.Acd.Announce | net/src/acd.rs:179-191 | Bind only after exactly three probes, and, served on time below ten conflicts, at least four and less than seven units after the start; RUNNING only after two announcements |
| Acd.Acd.Tick | net/src/acd.rs:149-154 | it ends with no timer due |
| Acd.Acd.Start | net/src/acd.rs:135-146 | probing under way, its timer not due |
| Acd.Acd.OnConflict | net/src/acd.rs:210-214 | back in INIT, the conflict counted and reported |
| Acd.Acd.Packet | net/src/acd.rs:196-254 | while probing any claim gives the address up; while bound a claim is answered if more than ten seconds passed since the last defence, and otherwise gives it up |
| Irq.NumbersLast | kernel/src/irq.rs:67-68 | while any vector of any core is free, so is a number |
| Irq.OwnedLess | kernel/src/irq.rs:289-303 | giving up an interrupt leaves each routed line its one owner if and only if it was not waiting for a line somebody has |
| Irq.Matrix.FindVector | kernel/src/irq.rs:178-190 | the wanted vector if free, else the first free one; none exactly if the core has none |
| Irq.Matrix.AllocNumber | kernel/src/irq.rs:153-163 | a returned number or a new one; none only with all 32768 in use |
| Irq.Matrix.Alloc | kernel/src/irq.rs:208-223 | a new interrupt with a vector of the core that was free; refused exactly if the core has none |
| Irq.Matrix.Isr | kernel/src/irq.rs:251-271 | a message to an interrupt's current or previous target bumps exactly that interrupt, and masks its line if level-triggered; any other vector bumps nothing |
| Irq.Matrix.Release | kernel/src/irq.rs:289-303 | number, vectors and line are given back, and nothing else |
| Irq.Matrix.RouteTo | kernel/src/irq.rs:339-374 | the target moves and the old one stays its own until the next move; one extra count if the vector changed; it stays only if the core has no vector free |
| Irq.Matrix.Arm | kernel/src/irq.rs:315-332 | the snapshot is the count after the move, and a level line is let through |
| Irq.Matrix.ArmThenFire | kernel/src/irq.rs:305-332 | an interrupt to the target after arming, or to the one before, moves the count past the snapshot |
| Irq.Matrix.RouteLine | kernel/src/irq.rs:229-246 | the line gets one owner, or the number goes back; that each routed line has exactly one registered owner survives if and only if the line was not somebody else's by then |
| Irq.Matrix.RegisterLine | kernel/src/irq.rs:229-246 | without a race a registered line was free and has this one owner, and every line keeps its own |
| Irq.TwoDriversOneLine | kernel/src/irq.rs:229-303 | two drivers that find one line free at once leave it without an owner in the table though one has it |
| Irq.AfterEveryCall | kernel/src/irq.rs:153-374 | a vector is in use exactly if it is a registered interrupt's current or previous target; none serves two; the two targets are on different cores; the numbers 1..top are free or registered, never both |
| ForgeSlots.StepOk | kernel/src/forge_rt.rs:61-86 | every atomic step of any thread keeps owned, free and fresh slots apart and hands out only a slot nobody owns |
| ForgeSlots.EveryRun | kernel/src/forge_rt.rs:61-86 | so does every interleaving |
| ForgeSlots.FromStart | kernel/src/forge_rt.rs:52-58 | from the empty allocator on |
| ForgeSlots.OneOwner | kernel/src/forge_rt.rs:61-86 | a slot handed out is not handed out again before it is given back |
| ForgeSlots.AccessStaysInside | kernel/src/forge_rt.rs:20-28 | a u32 address plus a u32 offset plus eight bytes stays in the slot, below the code and clear of every other slot |
| Forge.Space.MapPage | kernel/src/forge_rt.rs:114-118 | a page that is mapped is not mapped again |
| Forge.Space.UnmapRange | kernel/src/forge_rt.rs:125-133 | nothing is left mapped there, exactly those frames come back, and nothing else changes |
| Forge.Space.MapRange | kernel/src/forge_rt.rs:102-122 | the whole range is mapped with fresh frames, or mapping and frames are as before |
| Forge.Space.MapCode | kernel/src/forge_rt.rs:207-236 | the whole range is executable and not writable, or mapping and frames are as before |
| Forge.Space.Flip | kernel/src/forge_rt.rs:222-234 | one page changes from writable to executable, never both, or the whole range goes |
| Forge.Instance.Grow | kernel/src/forge_rt.rs:384-422 | the mapped pages are again exactly the memory, or nothing changes |
| Forge.Instance.Drop | kernel/src/forge_rt.rs:711-725 | the slot has nothing mapped and every frame is back |
| Forge.Instantiate | kernel/src/forge_rt.rs:163-182 | the initial pages are mapped and no others, or nothing changes |
| Forge.Lifetime | kernel/src/forge_rt.rs:163-194 | whatever an instance asks for while it lives, afterwards every page and every frame is as before |
| ForgeRun.TakeOk | kernel/src/forge_rt.rs:61-86 | a slot handed out has nothing mapped in it |
| ForgeRun.ReserveOk | kernel/src/forge_rt.rs:207-217 | the range code gets was nobody's before and has nothing mapped in it |
| ForgeRun.GiveOk | kernel/src/forge_rt.rs:188-248 | a slot given back, or code given up, has nothing mapped in it |
| ForgeRun.StepOk | kernel/src/forge_rt.rs:61-422 | every step of every thread, a frame or a page at a time, keeps places apart, the pages mapped in each exactly those its thread has got to with the flags due, and each frame free, in hand or behind one page |
| ForgeRun.EveryRun | kernel/src/forge_rt.rs:61-422 | so does every interleaving of instances and code, and pages below the slots stay |
| ForgeRun.AtAnyTime | kernel/src/forge_rt.rs:61-422 | at every moment of every run a slot nobody owns is empty, a running instance has exactly its own pages, a module all of its code, executable only, and no page is writable and executable |
| ForgeRun.Confined | kernel/src/forge_rt.rs:20-28 | each byte an instance can name is in its own memory or not mapped |
| ForgeRun.AllGone | kernel/src/forge_rt.rs:163-248 | whatever instances and modules there were, once all are gone every page and every frame is as before |
| HidLayout.FetchItem | hid/src/lib.rs:259-281 | an item ends after it starts and within the descriptor; a short one is what its bytes encode, a long one ends where its length byte says |
| HidLayout.FetchEncoded | hid/src/lib.rs:259-281 | every short item is read back from its bytes, wherever it stands |
| HidLayout.ValuesClear | hid/src/lib.rs:398-441 | two values of a report never share a bit and lie inside it |
| HidLayout.AddTo | hid/src/lib.rs:391-441 | room at the end of the report and a field of it with the item's usages, the last one repeated; refused exactly for an empty range or a report too large |
| HidLayout.Spread | hid/src/lib.rs:414-421 | as many usages as values, the last one repeated |
| HidLayout.Parser.AddUsage | hid/src/lib.rs:348-356 | refused exactly with 12288 usages; a short one gets its page |
| HidLayout.Parser.AddField | hid/src/lib.rs:374-443 | one report grows, the others stay |
| HidLayout.Parser.GlobalItem | hid/src/lib.rs:446-499 | what each item sets, push and pop inverse to each other, and exactly what is refused |
| HidLayout.Parser.LocalItem | hid/src/lib.rs:502-543 | usages, ranges and delimiters, and exactly what is refused; only the first branch counts |
| HidLayout.Parser.UsageMaximum | hid/src/lib.rs:525-539 | exactly which usages a range adds, cut to the room there is, and when it is refused; it ends although its counter wraps |
| HidLayout.BackwardFills | hid/src/lib.rs:525-539 | exactly when a range that ends before it begins fills the usage table |
| HidLayout.TenToFiveFills | hid/src/lib.rs:525-539 | the usages 10 to 5 fill an empty table |
| HidLayout.Parser.ConcatenateUsagePage | hid/src/lib.rs:546-553 | from the last usage back to one that has the page, the short ones get it; four-byte usages and all before stay |
| HidLayout.Parser.MainItem | hid/src/lib.rs:556-569 | local items end with it; collections stay balanced; the field gets the usages gathered, completed with the page |
| HidLayout.Parse | hid/src/lib.rs:573-599 | every byte string is refused or gives reports whose fields are disjoint, within the size limit and have places in the value tables |
| HidCodec.FieldExtract | hid/src/lib.rs:304-319 | the value of up to 32 bits at the offset, zeros past the end |
| HidCodec.FieldImplement | hid/src/lib.rs:322-329 | exactly those bits change, to the value's |
| HidCodec.ImplementThenExtract | hid/src/lib.rs:302-329 | what was written reads back as its low bits |
| HidCodec.ImplementElsewhere | hid/src/lib.rs:302-329 | a field that does not overlap reads as before |
| HidCodec.ImplementAll | hid/src/lib.rs:321-329 | disjoint fields written in turn all read back |
| HidCodec.Snto32Is | hid/src/lib.rs:284-289 | the shifts extend the sign of the low bits |
| HidCodec.SignedRoundTrip | hid/src/lib.rs:284-300 | written in n bits and read back a signed value is clamped to n bits |
| HidCodec.SignedFieldReadsBack | hid/src/lib.rs:283-329 | so is one written to a field |
| HidCodec.UnsignedFieldReadsBack | hid/src/lib.rs:283-329 | read without its sign, it does if and only if it has none or fills 32 bits |
| HidReport.FetchField | hid/src/lib.rs:609-618 | the values of a field, with their sign if it has negative ones |
| HidReport.WriteOne | hid/src/lib.rs:291-329 | one value into its place of a parsed report leaves every other place as it was |
| HidReport.WriteAll | hid/src/lib.rs:283-329 | signed values written to any places of a parsed report, each once, all read back together, clamped to their fields |
| HidKeys.List.Push | hid/src/input.rs:52-57 | appended unless full |
| HidKeys.List.Remove | hid/src/input.rs:58-61 | the rest closes up in order |
| HidKeys.Input.Key | hid/src/input.rs:156-163 | a press of a key not held appends it, a release takes it out, a repeat changes nothing |
| HidKeys.Input.Event | hid/src/input.rs:101-113 | only keyboard usages 4 to 255 are keys |
| HidKeys.ArrayField.Fetch | hid/src/lib.rs:609-627 | a report naming the roll-over is ignored, any other taken |
| HidKeys.ArrayField.Report | hid/src/lib.rs:643-658 | the events of all slots in turn, and the report is the one to compare with next |
| HidKeys.TurnsAre | hid/src/lib.rs:647-656 | with room at every press, after each slot what remains is held in its order and then what came in slot order |
| HidKeys.ReportTracks | hid/src/lib.rs:643-658 | with room at every press the keys held are those the report names, none twice: what remains in its order, then what came in slot order |
| HidKeys.UnionFits | hid/src/input.rs:24-26 | there is room if two successive reports name at most 32 keys |
| HidKeys.TracksIffFits | hid/src/input.rs:24-57 | for a report that names no key twice, with one value for each key, the keys are tracked if and only if each press finds room |
| HidKeys.NeverStuck | hid/src/lib.rs:643-658 | whatever the field, the report and the room, nothing is held that the report does not name |
| HidKeys.TracksIff | hid/src/lib.rs:643-658 | for any field and report, also after keys were lost: the keys are tracked if and only if each named key that is not held, and each that a slot releases, is pressed with room from then on |
| HidKeys.TracksIffLands | hid/src/lib.rs:643-658 | with one value for each key: if and only if each named key not held is pressed by some slot with room, also when several name it |
| HidKeys.FullKeyboardLosesAKey | hid/src/input.rs:24-57 | 32 keys held and a report naming 32: the new one is lost |
| HidKeys.TracksIffNoLateRelease | hid/src/lib.rs:643-658 | with room, also with two values for a key: if and only if no slot releases a named key that neither it nor a later slot presses |
| HidKeys.TwoValuesLoseAKey | hid/src/lib.rs:643-658 | a key with two values that moves to an earlier slot is lost |
| HidKeys.Feed | hid/src/lib.rs:674-698 | over any series of reports no key gets stuck; if each press finds room the keys held are those of the last report that was not a roll-over, in the order they were pressed; a roll-over changes nothing |
| HidKeys.FedIsHeld | hid/src/lib.rs:643-698 | the series of diffs with room is the keys that remain and then those that came, report by report |
| HidKeys.FedNeverStuck | hid/src/lib.rs:643-698 | in every run, whatever was lost in it, nothing is held that the last report that counts does not name |
| HidKeys.IdleRecovers | hid/src/lib.rs:643-698 | once all keys are up none is held and tracking is right again |
| HidKeys.UnionsRoomy | hid/src/input.rs:24-26 | each press finds room if any two reports that follow one another name at most 32 keys |
| HidKeys.FreshFieldTracks | hid/src/lib.rs:437-439 | a new field is right if and only if the value 0 names no key |
| HidTrack.FeedBytes | hid/src/lib.rs:609-698 | the bytes of a series of reports have the effect their decoded values have |
| HidTrack.Track | hid/src/lib.rs:573-698 | from any descriptor and the bytes of any reports: no key is stuck, and the keys held are the ones named under the conditions of HidKeys.Feed |
| Ring.Ring.Push | kernel/src/audio.rs:372-381 | as much as there is room for is appended, in up to two pieces |
| Ring.Ring.Take | kernel/src/audio.rs:147-153 | the front comes out in order, round the end |
| Rate.BetweenIs | kernel/src/audio.rs:175-181 | the interpolated sample lies between its neighbours |
| Rate.InterpolateIs | kernel/src/audio.rs:175-181 | the computed sample is the exact one, rounded down, for all 32-bit samples, in wrapping arithmetic |
| Playback.Slot.Submit | kernel/src/audio.rs:364-381 | the bytes accepted are appended to the stream |
| Playback.Slot.ReadFrame | kernel/src/audio.rs:142-173 | one source frame moves the position back by one |
| Playback.Slot.NextFrame | kernel/src/audio.rs:168-184 | a frame is played at the output position, or none while the ring has no whole frame |
| Playback.RefinesStream | kernel/src/audio.rs:142-184 | at a fixed rate the k-th frame is the source stream interpolated at k steps, however submits, polls and underruns interleave |
| Capture.Stream.Put | kernel/src/capture.rs:60-81 | one frame more; the oldest goes and is counted when the ring is full |
| Capture.Stream.Feed | kernel/src/capture.rs:85-100 | the frames between the last device frame and this one |
| Capture.Stream.TakeDropped | kernel/src/capture.rs:204-206 | the frames lost since it was last asked |
| Capture.Stream.Read | kernel/src/capture.rs:102-112 | the oldest frames, in order |
| Capture.Conserves | kernel/src/capture.rs:85-112 | after j device frames exactly ceil(j * 2^32 / step) frames were made, each read, waiting or dropped |
| Capture.FrameAt | kernel/src/capture.rs:85-100 | the e-th frame is the device stream interpolated at e steps, between its neighbours |

## Left out

- TCP, the IP layer, sockets, the DNS packet, cache and server modules, and the byte formats of DHCP messages: their results are arbitrary inputs here.
- DNS name normalisation, `lookup_cached` and the deadlines reported to the caller: easy members.
- DnsResolver.Resolver.Resolve: asks for fewer than 65519 unfinished queries, an identifier for each and for the 16 transactions a query can leave behind in one completion; with all 65535 identifiers in use the source's draw never ends.
- DnsResolver.Resolver.NewTx: handles count without bound; the source's 32-bit handle would repeat after 2^32 transactions.
- DhcpClient.Client.Start: asks that no address is held, as its only caller does (kernel/src/net/dhcp.rs:356-359); started while holding, the client would give the address up without an event.
- DhcpClient.Client.Tick: asks for a clock below 2^64 - 1 microseconds, where a timer could not lie after it.
- Option lists, vendor data and routes of a DHCP lease, and the choice of the destination port.
- Acd.Acd.Start: only from INIT, as the source asserts.
- The fiber waiting on an interrupt, MSI and I/O APIC registers, and memory ordering: an interrupt is one step, and each call on the matrix is one step under its lock.
- Irq.Matrix.Isr: looks at the matrix between calls, not in the middle of one.
- Page-table pages: `map_page` may fail at any time, and what it allocates for tables is not counted among the frames.
- Generated code, traps and fuel; that only `grow` changes the memory size is taken for granted.
- ForgeRun.EveryRun: addresses of code count without bound; nothing else is mapped from the first slot on upwards.
- HidLayout.Parser.AddField: the collection usages, units and physical ranges of a field are not kept.
- Variable fields, pointer motion, buttons and media keys; output reports beyond writing fields.
- HidKeys.Feed: one array field by itself; modifiers from a variable field share the 32 places.
- HidKeys.TracksIffFits: asks for one value a key and one slot a key; HidKeys.TracksIff does without either.
- HidTrack.Track: the report number before the data, and the choice of the report by it, are left out.
- Playback.Slot.NextFrame: one sample stands for a frame, since both channels are treated alike; sample encodings and mixing are left out.
- Capture.Stream.Feed: the step is fixed, so a change of format starts a new stream.
