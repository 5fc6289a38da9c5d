# juicity-rs in Dafny

A model of the parts of the juicity-rs proxy where interleavings, byte formats or index arithmetic are hard to get right,
with proofs about every run, every input and every byte string. `dafny verify dfyconfig.toml` checks all of it.

## How it is built

- **Critical sections** are methods of classes whose fields are those of the original objects. Each method is proved equal
  to a function on values (`StoreSpec`, `DecideSpec`, `CheckSpec`, `RecordAt` against `ReadingSpec`, and so on).
- **Protocols** are step machines over any number of tasks (`InFlightRuns`, `ReconnectRuns`, `DnsRuns`, `Endpoints`,
  `TcpRelay`). One event is one lock section or one gap between awaits; an event that cannot happen changes nothing, so
  `Run` is defined for every event sequence and a theorem about `Run(events)` is a theorem about every interleaving. A
  cancellation is an event at every await. `Notify` is a generation counter: `notified_owned` captures it,
  `notify_waiters` increases it. Fields such as `fates`, `failures`, `verdicts`, `answers` and `log` record history; no
  step reads them.
- **Codecs** are pairs of value functions; the builders and readers are methods over byte vectors and streams proved
  against them.
- Time is a natural number of nanoseconds, `f64` is `real`, hosts are the bytes of a UTF-8 string.

| file | what it models |
|---|---|
| `InFlight.dfy`, `InFlightRuns.dfy`, `InFlightTwice.dfy` | matching of UDP packets to authentications that arrive before or after them |
| `Reconnect.dfy`, `ReconnectRuns.dfy`, `ReconnectWitness.dfy` | one dialling leader, joined callers, shared failures with backoff |
| `Dns.dfy`, `DnsRuns.dfy`, `DnsEviction.dfy` | the per-key single-flight resolver in front of the bounded cache, with explicit locks, and what that cache evicts |
| `Endpoints.dfy`, `EndpointPool.dfy` | creation of UDP endpoints over a cache that may evict at any time |
| `Demux.dfy` | in-place partition of a receive batch into QUIC and underlay packets |
| `HostText.dfy`, `Wire.dfy`, `Underlay.dfy` | host text, addresses, proxy headers, the underlay authentication message |
| `Datagrams.dfy`, `Socks.dfy` | UDP over a stream in both directions, SOCKS5 UDP packets |
| `TcpRelay.dfy` | two copy loops under one idle deadline |
| `Draft.dfy`, `Nodes.dfy` | the editor lens of a node, the node list and its indices |
| `Traffic.dfy`, `Chart.dfy` | traffic accounting, the monotone cubic chart, the donut |
| `Exec.dfy` | the `Exec` argument of a desktop entry, with a decoder |

## Where the code and its comments disagree

The model follows the code. Each of these has a lemma that says exactly when the comment is right.

- server/src/inflight.rs:62-65 says two packets cannot both consume an entry. Entries are recognised by their store instant,
  so they can, in some interleaving of any history in which one key is stored twice at the same instant, and in no other:
  `InFlightTwice.SharedInstantReturnsTwice`.
- client/src/client.rs:450-451 says the guard clears `in_flight` when the leader is cancelled. It uses `try_lock`; if
  somebody holds the lock at that moment the flag stays set for good: `ReconnectRuns.CancelClearsIffTryLock`, reached in
  `ReconnectWitness.WedgeIsReachable`.
- client/src/client.rs:640-641 says the waiters of an abandoned attempt retry. Lines 443-447 return whatever failure is still
  recorded, however old: `ReconnectRuns.WokenRetriesIff`, with a run in `ReconnectWitness.StaleErrorReturned`.
- server/src/server.rs:1493-1497 calls the evicted key the oldest. `swap_remove` moves the newest entry to the front, so from
  the third eviction on each store drops the entry stored two stores earlier: `DnsEviction.StoreDrops`. When an oldest entry
  goes: `DnsEviction.DropsOldestIff`, `DnsEviction.RunDropsOldestIff`; a case where none does:
  `DnsEviction.EvictionIsNotOldestFirst`; with stale entries: `DnsEviction.NextEvictionDropsTheSecondNewest`.
- server/src/udp.rs:212-218 says waiters retry after the creator's wakeup. A waiter can register before the creator announces
  its handle and then sleeps on a handle that nobody fires: `Endpoints.WakeableIffGuarded`, `Endpoints.LostWakeup`.
- common/src/protocol.rs:329-336 writes an empty host as a domain of length zero, which the reader at lines 366-368 refuses:
  `Underlay.AuthRoundTripIff`.
- server/src/server.rs:1269-1272 blocks UDP port 443 for the first datagram of a stream only: `Datagrams.Block443Iff`, with the
  smallest stream in `Datagrams.Block443IsForTheFirstOnly`.
- client/src/local.rs:731 truncates the length of a domain above 255 bytes: `Socks.ParseInvertsBuildIff`.
- gui/src/desktop/autostart.rs:195-197 promises one argument; an empty string encodes to none: `Exec.RoundTripIff`.
- gui/src/ui/controller/nodes.rs:309-311 takes the active index as it was loaded, and that is not clamped:
  `Nodes.ActiveInBoundsIff`.

## Model

| member | source | states |
|---|---|---|
| InFlight.InFlightUnderlayKey.Store | server/src/inflight.rs:39-58 | inserts or overwrites, wakes and unmaps the waiter, and at capacity first drops expired entries; the whole new table is stated |
| InFlight.InFlightUnderlayKey.Claim | server/src/inflight.rs:74-81 | reads the entry without removing it |
| InFlight.InFlightUnderlayKey.Commit | server/src/inflight.rs:88-96 | removes the entry only if it still carries the claimed store instant |
| InFlight.InFlightUnderlayKey.Register | server/src/inflight.rs:99-126 | reports an arrival, joins or creates the waiter, purges abandoned waiters at capacity and may refuse |
| InFlight.InFlightUnderlayKey.Cleanup | server/src/inflight.rs:135-147 | drops exactly the expired entries and the stale waiters, notifying the latter |
| InFlight.InFlightUnderlayKey.RetainFreshWaiting | server/src/inflight.rs:109-115 | the retain loop keeps fresh waiters and notifies exactly the dropped ones |
| InFlight.StoreKeepsTable | server/src/inflight.rs:39-58 | a store keeps the two key sets disjoint, both tables within 10,000 entries and one handle a key |
| InFlight.RegisterKeepsTable | server/src/inflight.rs:99-126 | so does registering a waiter |
| InFlight.CleanupKeepsTable | server/src/inflight.rs:135-147 | so does a cleanup |
| InFlight.StoreRefusedIff | server/src/inflight.rs:42-53 | a store is refused if and only if its key is new and the table is full of unexpired entries |
| InFlight.WaitersNeverAffectStore | server/src/inflight.rs:37-38 | waiters neither make a store fail nor change what it keeps |
| InFlightRuns.RunKeepsInv | server/src/inflight.rs:39-147 | the invariant behind the run theorems holds after every interleaving of stores, evicts and cleanups with cancellation |
| InFlightRuns.ParkedTasksCanBeWoken | server/src/inflight.rs:99-130 | no lost wakeup: a parked, unnotified task's handle is the one mapped for its key, and that key has no authentication |
| InFlightRuns.TablesStayBounded | server/src/inflight.rs:39-147 | in every run the key sets are disjoint and each table stays within its cap |
| InFlightRuns.AcceptedStoreWakesAll | server/src/inflight.rs:54-57 | an accepted store notifies every task parked on its key |
| InFlightRuns.StoresAreConserved | server/src/inflight.rs:39-147 | per key and run: stores = rejected + overwritten + expired + successful evicts + entries still present |
| InFlightRuns.FatesAreFinal | server/src/inflight.rs:39-147 | what became of a store never changes afterwards |
| InFlightRuns.StepJustifiesExpiry | server/src/inflight.rs:42-46 | an entry is dropped as expired only when it is older than the TTL |
| InFlightRuns.EachAuthReturnedOnce | server/src/inflight.rs:62-65 | with distinct store instants a successful evict returns the entry it removed, and no authentication is returned twice |
| InFlightTwice.AnyPairReturnsTwice | server/src/inflight.rs:88-96 | any two stores of one key at one instant, in any history, have a run in which the authentication of the first is returned twice |
| InFlightTwice.SharedInstantReturnsTwice | server/src/inflight.rs:62-65 | a history of stores has a run that returns some authentication twice if and only if it stores some key twice at one instant |
| Reconnect.JuicityClient.Decide | client/src/client.rs:366-399 | connection, backoff, join or lead, with the whole new state |
| Reconnect.JuicityClient.Fail | client/src/client.rs:485-492 | a failure is recorded and counted only if requested; the attempt ends either way |
| Reconnect.JuicityClient.Publish | client/src/client.rs:498-508 | success installs the connection and resets the state |
| Reconnect.JuicityClient.Abandon | client/src/client.rs:664-668 | the guard clears the attempt, takes its handle and notifies the callers waiting on it |
| Reconnect.DelayTable | client/src/client.rs:47-49 | the delays are 2, 4, 8, 16 and then 30 seconds for every attempt count |
| Reconnect.SpacedSpan | client/src/client.rs:47-49 | n failures spaced by those delays take at least 30(n - 4) seconds |
| ReconnectRuns.RunKeepsInv | client/src/client.rs:356-514 | the invariant behind the run theorems holds after every interleaving with cancellation at every await |
| ReconnectRuns.OneLeader | client/src/client.rs:356-514 | at most one task dials and owns the attempt in flight; unless a cancelled leader lost the lock race, an attempt in flight has a leader |
| ReconnectRuns.ExpectNeverFires | client/src/client.rs:376-380 | an attempt in flight always has a completion handle, so no caller panics |
| ReconnectRuns.CompletionIsNotMissed | client/src/client.rs:385-392 | a joined caller that was not notified waits on the current handle, or its leader is about to notify it |
| ReconnectRuns.RecordedIffRequested | client/src/client.rs:381-384 | a failed dial arms the backoff if and only if a real request led or joined it |
| ReconnectRuns.BackoffHolds | client/src/client.rs:371-375 | between successes `attempts` counts the recorded failures, which are spaced by the backoff delays |
| ReconnectRuns.NoDialDuringBackoff | client/src/client.rs:366-399 | a new leader appears only with no attempt in flight, no live connection and the backoff expired |
| ReconnectRuns.CancelClearsIffTryLock | client/src/client.rs:659-670 | a cancelled leader clears the attempt and wakes its waiters if and only if the lock is free; otherwise nobody ever dials again |
| ReconnectRuns.SectionsMatch | client/src/client.rs:356-514 | each machine step changes the shared fields as the section it stands for |
| ReconnectRuns.WokenRetriesIff | client/src/client.rs:437-448 | a woken caller retries if and only if no failure has been recorded since the last success; otherwise it returns that failure |
| ReconnectWitness.WedgeIsReachable | client/src/client.rs:659-670 | a run from the start after which, in every continuation, an attempt is in flight that nobody leads and that is never notified |
| ReconnectWitness.StaleErrorReturned | client/src/client.rs:437-448 | a run in which a caller gets the error of an earlier attempt although the one it waited for was only cancelled and the backoff is over |
| Dns.Resolver.Enter | server/src/server.rs:1445-1475 | a fresh hit, or without the stale entry a joined or an owned lookup |
| Dns.Resolver.Find | server/src/server.rs:1451 | the index of the key, or the length if it is absent |
| Dns.Resolver.Store | server/src/server.rs:1492-1498 | the new cache: the first entry makes room, the last one takes its place, the key is inserted or overwritten |
| Dns.Resolver.Release | server/src/server.rs:1432-1440 | the guard unmaps its key and notifies its waiters |
| Dns.SwapRemoveLosesOne | server/src/server.rs:1456-1458 | `swap_remove` loses exactly the removed entry, as a multiset |
| Dns.CheckKeepsCache | server/src/server.rs:1450-1460 | a hit is younger than the TTL and for the right key; after a miss the key is absent |
| Dns.StoreKeepsCache | server/src/server.rs:1492-1498 | distinct keys, at most 256 entries, the new entry present and nothing but the first entry or the old value of the key lost |
| Dns.FullStore | server/src/server.rs:1493-1498 | a new key in a full cache: the first entry goes, the last one takes its place, the new one comes last |
| DnsEviction.FullStores | server/src/server.rs:1493-1498 | after any number of such stores only the first and the last entry have changed: they are the two newest |
| DnsEviction.EachStoreEvicts | server/src/server.rs:1493-1498 | every store drops exactly one entry: the first, then the last, then always the one stored two stores earlier |
| DnsEviction.StoreDrops | server/src/server.rs:1492-1498 | the same counted from an empty cache: number 0, number 255, then always the one stored two stores earlier; numbers 1 to 254 stay |
| DnsEviction.DropsOldestIff | server/src/server.rs:1493-1497 | over any history of stores an eviction drops an oldest entry if and only if it is the first one, or what goes is as old as the second entry ever stored |
| DnsEviction.EvictionIsNotOldestFirst | server/src/server.rs:1493-1497 | stores one nanosecond apart: no eviction after the first drops an oldest entry, and entry 1 is never dropped |
| DnsRuns.RunKeepsInv | server/src/server.rs:1416-1501 | the invariant behind the run theorems holds after every interleaving with failure, timeout and cancellation |
| DnsRuns.SingleFlight | server/src/server.rs:1463-1474 | two lookups of one key never overlap; a key is marked exactly while one live guard owns it |
| DnsRuns.WaitersHaveAnOwner | server/src/server.rs:1463-1483 | a parked, unnotified caller has a live owner of its own key, or one about to notify |
| DnsRuns.ResultsAreFreshAnswers | server/src/server.rs:1452-1455 | a returned address is one that DNS gave for that very host and port, less than the TTL before it was read |
| DnsRuns.CacheIsBoundedAndTrue | server/src/server.rs:1492-1498 | the cache holds at most 256 distinct keys, each with an address DNS gave for it |
| DnsRuns.OnlyAnswersAreStored | server/src/server.rs:1486-1498 | only a task that DNS answered adds an entry: failed and cancelled lookups add nothing |
| DnsRuns.LocksNeverDeadlock | server/src/server.rs:1445-1475 | no task holding `cache` waits for `resolving`, so some lock holder can always move |
| DnsEviction.StoredKeysAreNew | server/src/server.rs:1463-1498 | in every run a store finds its key absent, because single flight kept everybody else from storing it |
| DnsEviction.CacheIsItsStores | server/src/server.rs:1450-1498 | in every run without a stale entry met the cache is what its stores made of it, in the order of their instants |
| DnsEviction.RunDropsOldestIff | server/src/server.rs:1493-1497 | in such a run a store into the full cache drops exactly one entry, and an oldest one if and only if it is the first eviction or a tie with the second entry stored |
| DnsEviction.NextEvictionDropsTheSecondNewest | server/src/server.rs:1450-1498 | in every run an eviction that directly follows another one drops the second newest entry, an oldest one if and only if all but the newest are equally old |
| EndpointPool.UdpEndpointPool.GetOrCreate | server/src/udp.rs:219-320 | existing, new, failed or joined, with the whole new pool; the guard leaves `creating` as it was |
| EndpointPool.UdpEndpointPool.Join | server/src/udp.rs:295-300 | the mapped handle, or a new one that is mapped |
| EndpointPool.UdpEndpointPool.DropGuard | server/src/udp.rs:231-243 | releases the address, unmaps whatever handle is mapped, fires its own |
| EndpointPool.SectionsMatch | server/src/udp.rs:219-328 | every event of the machine changes the shared fields as the section it stands for, removal included |
| Endpoints.RunKeepsInv | server/src/udp.rs:219-328 | the invariant behind the run theorems holds after every interleaving with errors, cancellation and evictions |
| Endpoints.OneCreatorPerAddress | server/src/udp.rs:256-273 | per address at most one task is between its claim and its guard's drop, and `creating` holds exactly those addresses |
| Endpoints.NewEndpointsAreSeparated | server/src/udp.rs:277-291 | every `is_new` result is an insertion of its own, and between two insertions for an address the first endpoint went away |
| Endpoints.InsertionsAlternate | server/src/udp.rs:277-291 | in any consistent log two insertions for one address have a removal between them |
| Endpoints.ExistingEndpointsAreGenuine | server/src/udp.rs:249-251 | an endpoint that is handed out was created for the requested address |
| Endpoints.ExistingIsTheCachedOne | server/src/udp.rs:249-251 | when a call settles on an existing endpoint, that is the cached one of its address at that moment |
| Endpoints.WakeableIffGuarded | server/src/udp.rs:295-315 | a parked, unnotified waiter can still be woken if and only if a live guard holds its handle |
| Endpoints.GuardHoldsOrFires | server/src/udp.rs:231-243 | in every continuation a guard still holds its handle or the handle was notified |
| Endpoints.GuardedWaiterIsSafe | server/src/udp.rs:295-315 | a waiter on a guarded handle is woken, or its guard still holds it, in every continuation |
| Endpoints.LostWakeup | server/src/udp.rs:208-218 | a run after which the endpoint is ready, nobody is creating and a waiter is parked in every continuation |
| Demux.FixedBit | server/src/underlay_socket.rs:95-116 | the test accepts exactly the first bytes 0x40 to 0x7F and 0xC0 to 0xFF |
| Demux.PiecesCoverData | server/src/underlay_socket.rs:159-185 | the pieces of an entry concatenate to its data, each full but the last |
| Demux.QuicIsTheFilter | server/src/underlay_socket.rs:146-157 | the kept entries are the QUIC ones, at increasing positions, none missing |
| Demux.Partition | server/src/underlay_socket.rs:146-186 | in place: kept entries to the front in order, buffers with their metadata, nothing lost, and all other packets offered once in order |
| Demux.OfferEntry | server/src/underlay_socket.rs:159-185 | queues the accepted pieces of one entry; only refused ones are lost |
| Demux.DemuxUdpSocket.PollRecv | server/src/underlay_socket.rs:127-214 | result, idle counter, offered packets and returned prefix for every sequence of answers of the inner socket |
| Demux.FloodYieldsEverySecondPoll | server/src/underlay_socket.rs:195-213 | under a flood exactly every second poll yields without a wake, and the counter stays at most one |
| HostText.V4RoundTrip | common/src/protocol.rs:392-395 | IPv4 text is read back to its octets |
| HostText.V4IsCanonical | common/src/protocol.rs:116-125 | accepted IPv4 text has no second spelling |
| Wire.AddrRoundTrip | common/src/protocol.rs:532-610 | decoding consumes exactly one encoded address and yields its canonical host and port, whatever follows |
| Wire.AddrPrefixFree | common/src/protocol.rs:532-610 | no address encoding is a proper prefix of another |
| Wire.ReencodeIff | common/src/protocol.rs:577-610 | encoding what was decoded gives the bytes back if and only if the frame was not an IP address in disguise |
| Wire.UnderlayAgrees | common/src/protocol.rs:311-337 | the underlay writer emits the same bytes whenever the trojanc encoder succeeds, and the exact hosts it accepts beyond that |
| Wire.HeaderRoundTrip | common/src/protocol.rs:385-469 | a proxy header is read back with its network, including the one without a host |
| Wire.FromHostPort | common/src/protocol.rs:157-189 | the cached form stands for exactly the encoding of host and port, and marks the hosts that have none |
| Wire.BuildTrojancAddrCached | common/src/protocol.rs:532-560 | appends the cached encoding, or fails and leaves the buffer alone |
| Wire.BuildTrojancAddr | common/src/protocol.rs:567-572 | the address encoding, with its error cases |
| Wire.BuildProxyHeader | common/src/protocol.rs:428-469 | network byte and address encoding, failing in the same cases; the short form for an empty host |
| Wire.WriteUnderlayMetadata | common/src/protocol.rs:311-337 | the metadata bytes, or nothing at all |
| Wire.ReadTrojancAddr | common/src/protocol.rs:577-610 | reads exactly one address, or fails exactly when there is none |
| Wire.ReadTrojancAddrInto | common/src/protocol.rs:617-658 | a second reader, written on its own for a reused buffer, accepts the same bytes with the same result |
| Wire.ReadProxyHeader | common/src/protocol.rs:385-425 | reads exactly one header, accepting an empty domain |
| Underlay.WriteUnderlayAuth | common/src/protocol.rs:266-280 | the message, or exactly the part that went out before the error |
| Underlay.ReadUnderlayMetadata | common/src/protocol.rs:339-382 | reads one address, host and port in a single read |
| Underlay.ReadUnderlayAuth | common/src/protocol.rs:284-309 | reads exactly one message |
| Underlay.AuthRoundTripIff | common/src/protocol.rs:266-382 | a written message is read back with its canonical host if and only if the host is not empty |
| Datagrams.FramesRoundTrip | server/src/server.rs:1309-1327 | the frames of any list are read back as that list, whatever follows |
| Datagrams.StreamRoundTrip | client/src/client.rs:583-637 | header and frames of any non-empty list are read back as that list |
| Datagrams.TruncationKeepsPrefix | server/src/server.rs:1309-1327 | cutting any byte string loses datagrams only from the end |
| Datagrams.CutInsideAFrame | server/src/server.rs:1309-1327 | a stream cut inside a frame yields exactly the datagrams before it |
| Datagrams.OpenUdpStream | client/src/client.rs:583-607 | one write of header and first frame, or none |
| Datagrams.SendUdpDatagram | client/src/client.rs:620-637 | one write of a frame; an oversized payload leaves the scratch buffer alone |
| Datagrams.SendSession | client/src/client.rs:583-637 | the calls of a whole session write the encoding of its datagram list |
| Datagrams.HandleUdpRelay | server/src/server.rs:1258-1410 | the datagrams sent to the socket, as a function of the decoded stream, the resolver's answers, the opening of the socket, its verdicts and the abort by the response task |
| Datagrams.RelayRest | server/src/server.rs:1299-1365 | the loop with its reused buffers and its own table of resolved targets, up to a failure or an abort |
| Datagrams.RouteLaws | server/src/server.rs:1329-1363 | in order and without gaps, each target from the lookup for the first datagram of its destination, stopping only at a failed lookup, a failed send or an abort |
| Datagrams.SessionIsRelayed | server/src/server.rs:1189-1410 | end to end: the server sends the client's datagrams unchanged and in order to addresses resolved for that very host and port, exactly up to a failure or an abort |
| Datagrams.AllIsSent | server/src/server.rs:1299-1365 | if every lookup and send succeeds and nothing is aborted, every datagram is sent, or none because of the block |
| Datagrams.Block443Iff | server/src/server.rs:1269-1272 | for every such stream: port 443 is not reached if and only if it is the first destination or no destination at all |
| Datagrams.Block443IsForTheFirstOnly | server/src/server.rs:1269-1272 | the smallest stream that reaches it |
| Datagrams.FromSocketAddr | common/src/protocol.rs:194-212 | without any text in between the same encoding as that of the printed address |
| Datagrams.RelayResponses | server/src/udp.rs:54-83 | writes the frames of all responses with canonical source addresses |
| Datagrams.ReadOneUdpResponse | client/src/local.rs:618-634 | reads exactly one frame |
| Datagrams.ResponsesRoundTrip | client/src/local.rs:618-634 | the client reads back exactly what the sockets received |
| Socks.ParseSocks5UdpRequest | client/src/local.rs:650-716 | fragments and short packets refused, reserved bytes ignored, no read outside the packet for any input |
| Socks.BuildSocks5UdpPacket | client/src/local.rs:718-739 | three zero bytes, address, payload, with the length byte as the code truncates it |
| Socks.BuildAgreesWithTrojanc | client/src/local.rs:718-739 | whenever the stream encoder accepts a host the packet is three zero bytes, its bytes and the payload |
| Socks.ParseInvertsBuildIff | client/src/local.rs:650-739 | a built packet is parsed back if and only if the host is an IP address or has at most 255 bytes |
| Socks.BuildInvertsParseIff | client/src/local.rs:650-739 | building what was parsed gives the packet back if and only if the reserved bytes were zero and the domain no IP address |
| Socks.ResponseReachesTheApplication | client/src/local.rs:585-592 | from the server's socket to the application: same bytes, canonical source |
| Socks.RequestReachesTheServer | client/src/local.rs:552-565 | from the application to the server, and exactly which parsed requests the stream cannot carry |
| TcpRelay.RunKeepsInv | server/src/tcp.rs:26-87 | the invariant behind the run theorems holds after every sequence of reads, writes, errors and ticks |
| TcpRelay.TimeoutWindow | server/src/tcp.rs:35-51 | the relay times out only after strictly more than the idle timeout without a transfer, at most 1 ms late |
| TcpRelay.NeverQuietForLong | server/src/tcp.rs:35-46 | no relay is quiet for longer than that |
| TcpRelay.QuietRelayIsStopped | server/src/tcp.rs:35-51 | a relay quiet for that long is stopped by the next look of the idle loop |
| TcpRelay.BytesAreKept | server/src/tcp.rs:54-87 | in each direction the written bytes are a prefix of the read bytes at all times, equal on a clean finish |
| TcpRelay.SideIsItsSteps | server/src/tcp.rs:54-87 | each side of a run is a copy loop on its own: its state is what its own steps made of it |
| TcpRelay.StepsAreARun | server/src/tcp.rs:26-87 | conversely whatever one copy loop does alone is a run of the relay, failed exactly if its last step failed |
| TcpRelay.ReverseStaysOpen | server/src/tcp.rs:61-71 | in every run after one side was shut the other is open: it can read, write any part and finish the relay |
| TcpRelay.ReverseStillDelivers | server/src/tcp.rs:61-71 | then any chunk the other side still reads can be delivered behind everything it read before |
| TcpRelay.HalfCloseKeepsTheReverse | server/src/tcp.rs:68-71 | the end of one input leaves the other direction and the deadline alone |
| TcpRelay.CopyDirection | server/src/tcp.rs:54-87 | on success the closed writer received exactly the input, else a prefix; the call is a sequence of machine steps that took and gave these bytes, with one store of the time for each transfer |
| TcpRelay.CloseWriter | server/src/tcp.rs:68-71 | the end of input closes the writer or fails, as one more step |
| TcpRelay.WriteChunk | server/src/tcp.rs:77-85 | the inner loop writes the whole chunk, or a prefix before an error or a zero write |
| Draft.TrimLaws | gui/src/state.rs:131-138 | trimming is idempotent, leaves no space at the ends and trimmed text alone |
| Draft.PrintThenParse | gui/src/ui/controller/nodes.rs:76-82 | printed ports and timeouts are read back |
| Draft.ErrorsListed | gui/src/ui/controller/nodes.rs:155-187 | `errors` lists exactly the fields in error, each once and with its kind of error |
| Draft.ProfileSlot.Apply | gui/src/ui/controller/nodes.rs:212-257 | the profile after the field-by-field update |
| Draft.GetPut | gui/src/ui/controller/nodes.rs:85-109 | writing back what the editor shows changes no profile whatsoever |
| Draft.ApplyIsIdempotent | gui/src/ui/controller/nodes.rs:212-257 | for every draft, erroneous or not, writing twice is writing once |
| Draft.ApplyFieldByField | gui/src/ui/controller/nodes.rs:210-257 | a field in error keeps the profile's value, any other is stored faithfully, nothing outside the editor is touched |
| Draft.PutGet | gui/src/ui/controller/nodes.rs:212-257 | after an error-free write the editor shows the same settings, up to trimming, number format and algorithm name |
| Draft.NothingUnappliedMeansRepresented | gui/src/ui/controller/nodes.rs:202-208 | if nothing is unapplied the profile represents the whole draft |
| Draft.LastWriteWins | gui/src/ui/controller/nodes.rs:212-257 | an earlier write leaves no trace in what the editor shows |
| Draft.ApplyKeepsTidy | gui/src/config.rs:116-125 | stored text stays trimmed, optional text absent rather than empty, algorithm names canonical |
| Nodes.NodePage.NodeCommand | gui/src/ui/controller/nodes.rs:418-486 | list, active and selected index and editor after a command; nothing changes exactly for the refused ones |
| Nodes.NodePage.AddNode | gui/src/ui/controller/nodes.rs:408-416 | the new node is appended and selected |
| Nodes.NodePage.SelectNode | gui/src/ui/controller/nodes.rs:399-406 | an index that is current or out of range changes nothing |
| Nodes.NodePage.EditNode | gui/src/ui/controller/nodes.rs:501-517 | the draft is written into the selected node |
| Nodes.NodePage.SetActiveNode | gui/src/ui/controller/nodes.rs:521-537 | an incomplete node never becomes active |
| Nodes.RemapIsExact | gui/src/ui/controller/nodes.rs:428-455 | every surviving entry is where the map says, no two collide, and the duplicate fills the only other place |
| Nodes.DeletedGoesToNeighbour | gui/src/ui/controller/nodes.rs:453 | a deleted index is sent to the next node, or to the new last one |
| Nodes.RunKeepsInv | gui/src/ui/controller/nodes.rs:399-537 | after any sequence of operations the list is non-empty, the indices in bounds, identities distinct and the valid draft stored |
| Nodes.ActiveInBoundsIff | gui/src/ui/controller/nodes.rs:309-327 | the active index is in bounds in all runs if and only if it starts in bounds |
| Nodes.ActiveNamesTheSameNode | gui/src/ui/controller/nodes.rs:457-458 | without a new choice the active index names the same node for as long as that node exists |
| Nodes.ProfilesFollowTheirNodes | gui/src/ui/controller/nodes.rs:418-486 | list operations never change the settings of a node |
| Nodes.CommandSelects | gui/src/ui/controller/nodes.rs:459-472 | the editor moves to the copy, to the neighbour of a deleted node, or stays with its node and its unsaved text |
| Nodes.AddAndSelectShow | gui/src/ui/controller/nodes.rs:399-416 | a new or newly selected node is shown as stored and nothing else moves |
| Nodes.EditIsLocal | gui/src/ui/controller/nodes.rs:501-517 | an edit reaches the selected node and no other |
| Traffic.TrafficMonitor.RecordAt | gui/src/traffic.rs:88-143 | the whole new state for a reading and for a stopped core |
| Traffic.TrafficMonitor.Reset | gui/src/traffic.rs:150-163 | baseline dropped, totals and history kept, a new version exactly if a visible speed changed |
| Traffic.TrafficMonitor.TakeSnapshot | gui/src/traffic.rs:166-177 | the snapshot with both peaks |
| Traffic.PeaksAreMaxima | gui/src/traffic.rs:170-171 | a peak is at least every sample, and a sample or zero |
| Traffic.RunIsHistory | gui/src/traffic.rs:88-163 | after every run each field equals what the event history alone determines: intervals, flushes, samples, totals, versions |
| Traffic.BytesAreConserved | gui/src/traffic.rs:88-163 | flushed, pending and dropped bytes add up to all growth within sessions; the totals are the flushed bytes up to saturation |
| Traffic.SpeedsExplainBytes | gui/src/traffic.rs:122-133 | every flushed speed times its interval of at least a second is the bytes it added |
| Traffic.HistoryIsTheLastSixty | gui/src/traffic.rs:189-194 | the history is the last sixty recorded samples, none negative |
| Traffic.EqualVersionsMeanEqualSnapshots | gui/src/traffic.rs:179-182 | two equal data versions in one run mean equal snapshots |
| Traffic.PublishedIsRun | gui/src/traffic.rs:88-163 | changes whose increase of the public counter comes later, after the lock was released, leave the same data |
| Traffic.VersionsOnlyGrow | gui/src/traffic.rs:138-163 | neither the public counter nor the data version ever decreases |
| Traffic.SameVersionIsCurrent | gui/src/traffic.rs:179-182 | a reader that sees the same public version again has the current data, unless an increase is still owed |
| Chart.TangentBound | gui/src/ui/controller/logs.rs:104-112 | a tangent has the sign of both neighbouring slopes and is at most twice as steep |
| Chart.CurveMeetsTheSamples | gui/src/ui/controller/logs.rs:114-123 | each segment starts and ends exactly at its two samples |
| Chart.CurveIsMonotone | gui/src/ui/controller/logs.rs:98-123 | between two samples the curve moves one way only |
| Chart.CurveStaysBetween | gui/src/ui/controller/logs.rs:98-101 | the curve never overshoots: every point lies between the two samples it joins |
| Chart.CurveRunsEvenly | gui/src/ui/controller/logs.rs:113-123 | a segment crosses its slot at constant speed |
| Chart.CurveIsSmooth | gui/src/ui/controller/logs.rs:98-123 | neighbouring segments share their sample and their tangent |
| Chart.FlatExactlyAtExtremes | gui/src/ui/controller/logs.rs:104-112 | the curve is flat at an inner sample if and only if that is a local extreme |
| Chart.ChartStaysInView | gui/src/ui/controller/logs.rs:128-152 | for every snapshot 59 segments or none, all points in [0, 1] |
| Chart.ChartShowsTheSamples | gui/src/ui/controller/logs.rs:128-152 | in every snapshot of the monitor the samples appear right-aligned at their exact share of the scale |
| Chart.DonutIsDivided | gui/src/ui/controller/logs.rs:193-210 | two visible arcs, two equal gaps, and the longer arc for the larger total |
| Exec.ExecArgument | gui/src/desktop/autostart.rs:199-229 | quoting and escaping, by two loops |
| Exec.RoundTripIff | gui/src/desktop/autostart.rs:195-229 | a launcher decodes exactly the one encoded argument if and only if it is not empty |
| Exec.EncodeIsInjective | gui/src/desktop/autostart.rs:199-229 | different paths give different values |
| Exec.EscapedStaysOnItsLine | gui/src/desktop/autostart.rs:217-227 | no line feed, tab or carriage return in any value |
| Exec.EntryStartsTheProgram | gui/src/desktop/autostart.rs:180-193 | the Exec line of the file starts that one program and the lines after it are unchanged |

## Left out

- Sockets, QUIC, TLS, key derivation, timers, threads, file I/O, the user interface, tray, clipboard and system proxy. DNS
  answers, socket results and `try_send` results are arbitrary inputs; the endpoint cache may drop any entry at any step.
- IPv6 text: parsing and printing are a parameter `V6`, used through `Lawful`: sixteen octets, text with a colon, and
  printing inverted by parsing. IPv4 text is concrete.
- `from_utf8_lossy` is the identity, as it is on every host a Rust string can hold; what a reader makes of other bytes is
  not modelled.
- Memory ordering and lock fairness: atomics and mutexes are sequentially consistent, and no theorem says that a waiting
  task eventually runs. Poisoned locks are recovered in the code and do not exist in the model.
- Timers: the callers' own timeouts are cancellation events that may come at any await; only the idle loop of the TCP relay
  has exact timers.
- DnsRuns.ResultsAreFreshAnswers: does not bound the age of DNS answers themselves, because the resolver ignores their TTL.
- DnsRuns.LocksNeverDeadlock: says that some holder can move, not that it is scheduled.
- InFlightRuns.ParkedTasksCanBeWoken: says that nothing is missed, not that an authentication ever arrives; an entry that has outlived its TTL
  but was not yet cleaned up can still be consumed, as in the code.
- Traffic.BytesAreConserved: pending bytes are unbounded naturals, because the 64-bit `pending` counters overflow only after 2^64 bytes between two samples.
- Traffic.EqualVersionsMeanEqualSnapshots: counts the changes of the data; that the code increases its public counter only
  after releasing the lock is in `Traffic.SameVersionIsCurrent`.
- DnsEviction.RunDropsOldestIff: speaks of runs in which no lookup has met a stale entry; such a lookup takes that entry out
  with the same `swap_remove`, and which entry stands first afterwards depends on where it stood. For every other run see
  `DnsEviction.NextEvictionDropsTheSecondNewest`.
- Datagrams.HandleUdpRelay: one stream-to-socket task. Why and when the response task ends, be it its idle timeout or a failed
  write, is an arbitrary abort before any datagram but the first; the first is sent before the two tasks exist.
- Datagrams.RelayResponses: the response task alone; when the other task ends first its output is cut at any byte, which is
  what `Datagrams.CutInsideAFrame` is about.
- Chart.CurveStaysBetween: over reals, so rounding of `f64` and of the printed path commands is not covered; NaN samples do
  not exist.
- TcpRelay.TimeoutWindow: one read or write and the store of its time are one step; the 64-bit millisecond counter does not wrap.
- EndpointPool.UdpEndpointPool.GetOrCreate: the call without interference; interleaved calls are in `Endpoints`.
- Nodes.NodePage.NodeCommand: restarting the core after the active node was deleted is not modelled; it touches neither the
  list nor its indices. Saving, reverting, importing links and the Advanced and share sheets are left out as well.
- Nodes.NodePage.EditNode: the new draft is arbitrary, so the per-field setter needs no model of its own.
- Draft.ProfileSlot.Apply: split into three methods by field group; the order of the writes does not matter to a reader of
  the profile.
- Removal of SOCKS5 sessions by identity: the check and the removal are separate steps in the code and nothing is claimed.
- Consistency between underlay sessions, the endpoint pool and relay tasks: eviction and the session guard remove by
  address only.
- Share links, configuration files, PAC text, QR codes, locale detection, the command line, HTTP proxying and certificate
  handling: easy members or external libraries.
