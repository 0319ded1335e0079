# vproxy: a verified model of its interception protocol and the state machines around it

vproxy is a transparent proxy. eBPF hooks (or iptables rules where eBPF is missing) divert connections to it,
it finds out where they were going, and it forwards them directly or through an upstream. This project models
the parts of vproxy where that can go wrong and proves what they guarantee, for every input and every
interleaving.

The modules, hardest first:

- `RedirectHooks`, `RedirectProtocol`: the connect, sendmsg and sockops programs with their three maps, the
  lookups in the loader, and the receiving loop, as a transition system over any number of sockets.
- `NetfilterKernel`, `IptablesRules`, `IptablesInstalled`, `PacketWalk`: the set-up and clean-up command lists
  with an interpreter for iptables, ip6tables and `ip rule`/`ip route`, and the walk of a packet through the
  chains they leave.
- `Upstreams`: probes, list updates, reports and dialers racing on the server manager.
- `WindowsRoutes`: longest-prefix selection, the two /1 capture routes and the bypass routes.
- `Telemetry`: the provider swap under a writer lock with lock-free readers.
- `FakeIp`, `DnsResponder`: the fake-IP pool and the responder in front of it.
- `RotatingLog`: the log writer over a model file system.
- `TlsSniffing`: server-name extraction, the sniffer and the peeking connection.
- `SocksAddress`, `SocksExchange`, `SocksSession`: addresses, UDP frames, the two sides of the negotiation, and
  both sides together in every interleaving.
- `RewriteIndex`, `RuleCompiler`, `RuleMatcher`: the host-bucket index, the rule compiler with the UI's toggle,
  and the decision procedure.
- `DropThrottle`: the compare-and-swap throttle of drop diagnostics.
- `Bytes`, `Addresses`, `Text`, `Scan`, `Arithmetic`: shared vocabulary.

Interleaved parts are transition systems: an `Event`, when it is `Enabled`, what it does (`Apply`), and the state
after a sequence of events (`Run`, which is `None` if an event came when it could not). Theorems about them are
about every event sequence. Code that updates state in place is a class whose methods are proved to take its
view from one value of the specification to the next.

What the environment is taken to guarantee: socket cookies are never reused; live 4-tuples are unique; maps do
not overflow; the UDP source port in the map key is the one the receiver sees; `ip rule add` rejects an exact
duplicate; Windows chooses among rows by prefix length, then by the row metric alone (no interface metric), then
by position; `route delete` of a destination and mask removes every row of that prefix; the file system does not fail.
Foreign iptables rules, reachability, clocks, URL, IP and CIDR parsing, regular expressions and provider
construction are parameters.

## What the proofs found

- A map entry belongs to a 4-tuple, not to a connection. The one lookup made for a diverted connection returns that
  connection's destination if and only if, since it was established, there was no other lookup of its 4-tuple and
  no handshake on it by another diverted socket; otherwise it misses or returns another socket's destination
  (`ConnectionIsPending`, `ConnectionLookup`). When a client is gone before its lookup and its port is reused, the
  two lookups cross (`LookupsCross`).
- A connection that was not diverted can be looked up as an attempt its own socket abandoned
  (`AbandonedAttemptIsReturned`) or as an earlier connection on the 4-tuple that was never looked up
  (`UnlookedConnectionIsReturned`, `UndivertedLookup`).
- The iptables clean-up takes away everything that looks like vproxy's, so it restores tables in order if and only if
  they held no such entry; another transparent proxy's rule for mark 1 is lost (`OtherProxyLosesItsRule`).
- The hooks divert IPv4-mapped loopback destinations, the only way a self target gets into the maps
  (`MappedLoopbackIsDiverted`, `DatagramsNeverLoop`).
- A UDP packet that leaves its socket with mark 1 is caught by the TPROXY rules even where the eBPF hook would not
  divert it (`UdpJourneyAgreesWithHooks`).
- Equal telemetry configurations always build equal providers, but not the other way round: a rate of 2 in place
  of 1 or a misspelt gRPC has the provider rebuilt as it was (`RebuiltForNothing`, `AlikeButJudgedDifferent`).
- The Windows clean-up deletes every interface's /1 rows, so it restores the table if and only if that had none
  (`CleanupRestoresTable`); another tunnel that splits the default route loses its routes
  (`OtherTunnelLosesRoutes`). A clean-up from another process leaves the bypass rows (`CleanupElsewhere`).
- The Windows fallback to a default route is never used (`DefaultFallbackIsDead`).
- The fake-IP pool works up to /30; its first address leaves the subnet exactly for /31 and /32
  (`FirstAddressInSubnet`). The code's own comments give no such bound.
- A DNS query that ends inside its type or class is completed from whatever stands behind it in the receive buffer,
  where earlier datagrams were, since a Go slice may be extended up to its capacity. `WhenBytesBehindMatter` says
  exactly for which packets, `WhenQueryFaults` that only the end of the buffer makes it panic, and
  `TruncatedQuery` shows one packet answered, refused and panicking.
- An upstream whose address a lookup gives in sixteen bytes gets no bypass route, and vproxy's traffic to it goes into
  the adapter (`SixteenByteUpstreamIsCaptured`).
- The UDP-associate client never looks at the reply code and takes a refusal for a relay address
  (`AssociateIgnoresRefusal`).
- A SOCKS UDP frame that ends inside its address makes the UDP reader panic (`WhenUnwrapFaults` says exactly which).
- `ClientConnect` reads one byte too many before the bound address. `ConnectOutcome` says what becomes of every
  reply: refused, connected with address bytes in front of the data, connected with data bytes missing
  (`ConnectEatsAByte`), or right for the few addresses `ConnectMisalignment` lists. It never succeeds with
  vproxy's own server (`ConnectToOwnServer`).
- Peeking after part of the peeked bytes was read delivers them again (`PeekAfterReadRepeats`,
  `PeekConservesExactly`).
- Toggling a rule twice restores it unless it carries exactly two comment markers
  (`ToggleTwiceKeepsContribution`, `TwoMarkers`).

## Model

| member | source | states |
|---|---|---|
| RedirectHooks.SockAddr.Sock4Connect | proxy/ebpf/bpf/redirect.c:285-326 | the IPv4 connect hook rewrites the destination in place and saves it under the cookie (TCP) or source port (UDP) exactly when nothing bypasses it |
| RedirectHooks.SockAddr.Sock4Sendmsg | proxy/ebpf/bpf/redirect.c:330-366 | likewise for unconnected IPv4 datagrams |
| RedirectHooks.SockAddr.Sock6Connect | proxy/ebpf/bpf/redirect.c:370-420 | likewise for IPv6, word by word |
| RedirectHooks.SockAddr.Sock6Sendmsg | proxy/ebpf/bpf/redirect.c:424-469 | likewise for unconnected IPv6 datagrams |
| RedirectHooks.ConnectSaves | proxy/ebpf/bpf/redirect.c:285-420 | what a diverted connect saves, protocol by protocol: TCP the destination and process under the cookie, UDP under source port and family, any other protocol nothing; it is read back as saved and every other entry stays |
| RedirectHooks.SendSaves | proxy/ebpf/bpf/redirect.c:330-469 | likewise for a diverted unconnected datagram |
| RedirectHooks.BpfMaps.Established | proxy/ebpf/bpf/redirect.c:250-281 | sockops moves a cookie's entry to the 4-tuple and deletes it; without an entry nothing changes |
| RedirectHooks.BpfMaps.LookupTcp | proxy/ebpf/loader.go:294-330 | the lookup returns the 4-tuple's entry and deletes it, touching nothing else |
| RedirectHooks.BpfMaps.LookupUdp | proxy/ebpf/loader.go:337-358 | the lookup returns the (port, family) entry and deletes it, touching nothing else |
| RedirectHooks.CidrManager.AddDefaults | proxy/ebpf/loader.go:373-389 | after loading the defaults the map holds what it held and exactly the five default prefixes |
| RedirectHooks.SavedDstRoundTrip | proxy/ebpf/loader.go:247-288 | a destination saved by the kernel in network byte order is read back by Go as the same address and port, for both families |
| RedirectHooks.KeysAgree | proxy/ebpf/loader.go:294-330 | the key Go builds from an accepted connection is the key the kernel wrote, also when the listener reports IPv4 as IPv4-mapped |
| RedirectHooks.MixedKeys | proxy/ebpf/loader.go:294-330 | the key Go builds for addresses of different families |
| RedirectProtocol.TcpInvAlways | proxy/ebpf/bpf/redirect.c:250-326 | in every run, also when clients are gone before the proxy gets to them, what each cookie entry and each 4-tuple entry hold is determined by the history of connects, handshakes and lookups |
| RedirectProtocol.TcpLookupExact | proxy/ebpf/loader.go:294-330 | in every interleaving a lookup of any 4-tuple yields the destination and process of the latest diverted connect of the latest socket established there that made one, unless a lookup came since, and misses exactly when there is none |
| RedirectProtocol.TcpLookupIsForLatest | proxy/ebpf/bpf/redirect.c:250-326 | for the connection open on a 4-tuple now, while there was no lookup of the 4-tuple since it was established: a lookup is for its latest connect if that was diverted; if not, it misses if and only if no attempt of the socket was and no earlier connection on the 4-tuple went away unlooked |
| RedirectProtocol.ConnectionIsPending | internal/handler.go:541-576 | for every connection of a socket with a diverted attempt and any further events, also after its client is gone: what is pending on its 4-tuple is its own connect if and only if none of those events is a lookup of the 4-tuple or a handshake on it by a socket with a diverted attempt; otherwise it is nothing or another socket's |
| RedirectProtocol.ConnectionLookup | internal/handler.go:541-576 | so that connection's lookup returns its own destination and process if undisturbed, and otherwise misses or returns the destination of another diverted connect of the run |
| RedirectProtocol.UndivertedLookup | internal/handler.go:541-576 | the lookup of an undisturbed connection without a diverted attempt misses if and only if nothing was pending on its 4-tuple before it |
| RedirectProtocol.LookupsCross | internal/handler.go:541-576 | a concrete run with two diverted connections on one 4-tuple: the first lookup returns the second's destination and the second lookup misses |
| RedirectProtocol.TcpConsumedOnce | proxy/ebpf/loader.go:294-330 | once looked up, a connection's entry cannot be found again until the connection is released, whatever happens in between |
| RedirectProtocol.TcpConsumedUntilEstablished | proxy/ebpf/loader.go:294-330 | nor, beyond that, until a connection is established on the 4-tuple again |
| RedirectProtocol.AbandonedAttemptIsReturned | proxy/ebpf/bpf/redirect.c:250-281 | a concrete run in which the lookup returns the destination of an abandoned attempt |
| RedirectProtocol.UnlookedConnectionIsReturned | proxy/ebpf/bpf/redirect.c:250-281 | a concrete run in which a socket that was never diverted is looked up as the destination of an earlier, unlooked connection |
| RedirectProtocol.UdpLookupExact | proxy/ebpf/loader.go:337-358 | in every interleaving a UDP lookup yields the latest diverted connect or send on that port and family that no receive consumed since, and misses when there is none |
| RedirectProtocol.UdpRoundTrip | proxy/ebpf/bpf/redirect.c:285-469 | in every run a diverted UDP connect or send that is received at once, from its port in its family, leads to its destination and process and is then used up |
| RedirectProtocol.EntriesAreForeign | proxy/ebpf/bpf/redirect.c:285-469 | every entry any run leaves in any map comes from a diverted event of the run, from an unmarked socket, is not for port 53, and is loopback only as IPv4-mapped IPv6 |
| RedirectProtocol.RewriteIsFixedPoint | proxy/ebpf/bpf/redirect.c:285-469 | the rewritten destination is the proxy's loopback endpoint, and presenting it to any hook from any socket changes neither it nor any map |
| RedirectProtocol.DatagramsNeverLoop | internal/handler.go:614-664 | in every interleaving a datagram at the rewritten address is handled exactly under the destination of its unconsumed connect or send, dropped when there is none or that was IPv4-mapped loopback on the proxy's port, and never handled as a self target |
| RedirectProtocol.TproxyHandlesControlMessage | internal/handler.go:614-664 | without the hooks, in TPROXY mode, a datagram is handled under the address its control message gives, whatever a lookup would find, and only a missing or self address is dropped |
| RedirectProtocol.MappedLoopbackIsDiverted | proxy/ebpf/bpf/redirect.c:234-246 | the IPv4-mapped exception is real: the hook diverts such an address and it is a self target |
| IptablesRules.Host.Execute | proxy/iptables/iptables_linux.go:138-142 | running one command line changes the kernel tables as its semantics says, and an optional command cannot stop the list |
| NetfilterKernel.JumpedToStays | proxy/iptables/iptables_linux.go:148-189 | a chain that holds a rule, or that a rule of its family and table jumps to, cannot be dropped |
| NetfilterKernel.WhereEntriesGo | proxy/iptables/iptables_linux.go:85-90 | a policy rule is added in front and a route behind, and neither twice |
| IptablesRules.Host.SetupRules | proxy/iptables/iptables_linux.go:18-145 | the set-up runs its command list to the first failure; what the list leaves in each chain is `SetupInstalls`, and what that does to packets the walks below |
| IptablesRules.Host.CleanupRules | proxy/iptables/iptables_linux.go:148-189 | the clean-up runs its command list, failures ignored |
| IptablesRules.SetupsStayTidy | proxy/iptables/iptables_linux.go:18-145 | any sequence of set-ups in either mode, each stopping anywhere, keeps the tables tidy (own hooks at most once, own chains referenced only by them) and all foreign entries in order |
| IptablesRules.CleanupLeavesForeign | proxy/iptables/iptables_linux.go:18-189 | from any tables whose vproxy entries, if any, are in order, any such sequence followed by the clean-up leaves exactly the foreign entries, in their place and order |
| IptablesRules.CleanupRestores | proxy/iptables/iptables_linux.go:18-189 | so the original tables come back if and only if they held no vproxy entry |
| IptablesRules.OtherProxyLosesItsRule | proxy/iptables/iptables_linux.go:85-90 | concrete tables with another proxy's rule for mark 1, which any set-ups and the clean-up take away |
| IptablesInstalled.SetupInstalls | proxy/iptables/iptables_linux.go:18-145 | from any tables with the built-in chains a set-up runs to the end, and every chain is then what `Installed` says |
| IptablesInstalled.InstalledTwice | proxy/iptables/iptables_linux.go:18-145 | installing into an installed chain changes nothing, chain by chain |
| IptablesInstalled.SetupTwice | proxy/iptables/iptables_linux.go:18-145 | repeating a complete set-up in one mode changes nothing in the kernel tables |
| PacketWalk.TcpWalkAgreesWithHooks | proxy/iptables/iptables_linux.go:21-83 | after a complete local set-up, whatever ran before, a TCP packet of the cgroup no foreign rule claims is redirected exactly when the eBPF hook would divert its address and mark (port 53 aside) |
| PacketWalk.UdpWalkAgreesWithHooks | proxy/iptables/iptables_linux.go:92-119 | likewise for UDP, which is marked in the mangle table |
| PacketWalk.PreroutingCatchesMarked | proxy/iptables/iptables_linux.go:120-135 | after a complete local set-up, whatever ran before, PREROUTING hands exactly the UDP packets with mark 1 to the proxy's port on their family's loopback address and every other packet back (foreign rules aside) |
| PacketWalk.MarkIsRouted | proxy/iptables/iptables_linux.go:85-90 | after a complete local set-up, in each family, mark 1 looks up table 100 and table 100 delivers everything locally |
| PacketWalk.UdpJourneyAgreesWithHooks | proxy/iptables/iptables_linux.go:85-135 | the whole way of a UDP packet through OUTPUT and PREROUTING: it reaches the proxy if and only if it is of the cgroup and the eBPF hook would divert it (port 53 aside) or it had mark 1 to begin with |
| PacketWalk.NatLeavesOthers | proxy/iptables/iptables_linux.go:21-83 | in local mode the nat table touches no packet but TCP of the cgroup |
| PacketWalk.MangleLeavesOthers | proxy/iptables/iptables_linux.go:92-119 | and the mangle table marks no packet but UDP of the cgroup |
| PacketWalk.RemoteWalk | proxy/iptables/iptables_linux.go:40-67 | after a complete remote set-up, TCP and UDP of the cgroup that the chains do not skip goes to the remote proxy, over IPv4 by its address and over IPv6 by its port, and every other packet is handed back |
| PacketWalk.PortText | proxy/iptables/iptables_linux.go:40-67 | that port is the text behind the last colon of the address |
| PacketWalk.SkippedIsBypassed | proxy/ebpf/bpf/redirect.c:208-246 | the hooks bypass exactly what the chains skip, and DNS besides |
| PacketWalk.DefaultCidrsByRange | proxy/ebpf/loader.go:373-389 | the default prefix list covers exactly five address ranges |
| PacketWalk.BypassListVersusPrivate | internal/router.go:376-395 | an IPv4 address is private to the router exactly when the default bypass list covers it or it lies in 224.0.0.0/24 |
| Upstreams.ActiveIsNeverSelf | internal/servermanager.go:129-305 | in every interleaving of probes, list updates, dials and reports by anyone, UDP dialers included, the active server is empty or an upstream some list held that is not vproxy itself |
| Upstreams.DialsAreBoundedAndReported | internal/handler.go:1228-1289 | in every interleaving every dialer tries at most its retry count of upstreams, none of them vproxy itself, and follows each try by exactly one report about the same URL and outcome |
| Upstreams.DialersStopForAReason | internal/handler.go:1228-1289 | in every interleaving a dialer that has stopped is connected with its last try successful, or exhausted after all its tries, or refused or without upstream with tries to spare and no success; one that has not stopped can go on |
| Upstreams.DialsWhatIsActive | internal/handler.go:1228-1289 | in every run a dialer dials the server active when it looks, else the first listed one that is not vproxy itself when it looks again, else it stops |
| Upstreams.DialersStart | internal/handler.go:1228-1289 | in every run a new dialer has done nothing yet and looks for the active server first |
| Upstreams.FirstForeignIsFirst | internal/servermanager.go:174-211 | that first server, by index |
| Upstreams.DialersReport | internal/handler.go:1228-1289 | in every run the report of a dialer clears the active server if it is about it and bad, refreshes it if good, and changes nothing else |
| Upstreams.ReportsAreAboutActive | internal/servermanager.go:142-161 | likewise for a report by anyone |
| Upstreams.WhenProbesStart | internal/servermanager.go:214-305 | in every run a probe starts over the current list unless the active server had a success within the interval or the list is empty |
| Upstreams.ProbeFindsFirst | internal/servermanager.go:214-305 | the rounds of the interleaved probe find the first server of the snapshot that is reachable and not vproxy itself |
| Upstreams.ProbeCommits | internal/servermanager.go:214-305 | in every run what a probe found is active once it commits |
| Upstreams.ActiveWasReachable | internal/servermanager.go:214-305 | in every interleaving only a server that a probe of the run found reachable is ever active |
| Upstreams.SelfByScheme | internal/servermanager.go:174-211 | a loopback upstream without a port is vproxy itself exactly if vproxy listens on 80, 1080 or 10080 for http, socks5 or tproxy; an explicit port decides alone |
| Upstreams.InvAlways | internal/servermanager.go:129-305 | the invariant of servers, active server, probes and dialers behind both, over every run |
| Upstreams.OthersKeepSound | internal/servermanager.go:129-305 | whatever events other threads contribute, the manager stays in the condition a dialer relies on between its critical sections |
| Upstreams.PairedTries | internal/handler.go:1228-1289 | a log of paired tries and reports holds one try per pair |
| Upstreams.ServerManager.IsSelfUpstream | internal/servermanager.go:174-211 | an upstream is vproxy itself exactly when it parses, is loopback, and its explicit or scheme's port is a positive self port |
| Upstreams.ServerManager.SetServers | internal/servermanager.go:129-138 | a list update changes the list only |
| Upstreams.ServerManager.ReportFailure | internal/servermanager.go:142-151 | a failure clears the active server only if it is about that server |
| Upstreams.ServerManager.ReportSuccess | internal/servermanager.go:155-161 | a success refreshes the timestamp only if it is about the active server |
| Upstreams.ServerManager.FindReachable | internal/servermanager.go:214-305 | the probe loop finds the first reachable server of the snapshot that is not vproxy itself, or reports that there is none |
| Upstreams.ServerManager.ChooseUpstream | internal/handler.go:1228-1289 | the upstream chosen for an attempt is the active server, or without one the first of the current list that is not vproxy itself, whatever other threads do in between; never vproxy itself |
| Upstreams.ChoiceIsActiveOrFirst | internal/handler.go:1228-1289 | that choice spelled out: the active server, else by index the first listed one that is not vproxy itself, else nothing |
| Upstreams.ServerManager.DialTarget | internal/handler.go:1228-1289 | the retry loop dials, round by round, what it chooses in that round, with the outcome that dial has; it goes on until a dial succeeds, all tries are used up, a URL is refused or there is nothing to choose, and says which; each dial is paired with its report and none is of vproxy itself |
| WindowsRoutes.BestIsOptimal | proxy/tproxy/tproxy_windows.go:431-455 | the selected row covers the address, no other candidate is longer or of lower metric at that length, and it beats every earlier candidate; there is none only if nothing covers |
| WindowsRoutes.FindBestPhysicalRoute | proxy/tproxy/tproxy_windows.go:431-455 | the loop computes that selection, avoiding the adapter |
| WindowsRoutes.CollectUpstreams | proxy/tproxy/tproxy_windows.go:521-540 | the loop over the upstreams lists the /32 of every four-byte answer in order, and stops at a name that does not resolve |
| WindowsRoutes.CollectNodes | proxy/tproxy/tproxy_windows.go:543-574 | the loop over the bypass nodes lists given prefixes and four-byte answers in order, and skips a name that does not resolve; what that means for traffic is `NodesStayOffTheAdapter` |
| WindowsRoutes.WhichAreBypassed | proxy/tproxy/tproxy_windows.go:457-576 | a prefix is bypassed if and only if an upstream before the first unresolved one asks for it, or every upstream resolves and a bypass node asks for it, as a given prefix or a four-byte answer |
| WindowsRoutes.NodesStayOffTheAdapter | proxy/tproxy/tproxy_windows.go:543-574 | with every upstream resolved, no address under a prefix that a bypass node asks for goes to the adapter |
| WindowsRoutes.NamedHostKeepsItsRoute | proxy/tproxy/tproxy_windows.go:521-574 | and a single address asked for keeps its interface and gateway |
| WindowsRoutes.ForwardTable.InstallPrefix | proxy/tproxy/tproxy_windows.go:474-519 | one prefix: skipped if not installable, seen before or without physical route, and otherwise given a row that is recorded exactly if it was created |
| WindowsRoutes.ForwardTable.InstallPrefixes | proxy/tproxy/tproxy_windows.go:474-519 | the loop adds, for each new installable prefix, a row out the way the snapshot sends it, and records exactly the rows it created |
| WindowsRoutes.ForwardTable.SetupUpstreamBypassRoutes | proxy/tproxy/tproxy_windows.go:457-576 | both together, from upstreams and nodes to rows, failing exactly when an upstream does not resolve |
| WindowsRoutes.ForwardTable.CreateCaptures | proxy/tproxy/tproxy_windows.go:402-422 | the loop over the two /1 routes creates both, or leaves the table as it was when either is there already |
| WindowsRoutes.ForwardTable.SetupRouting | proxy/tproxy/tproxy_windows.go:402-427 | both /1 rows are created and then the bypass rows, for any table including the adapter's own rows; a /1 row already there fails the set-up without trace, and an unresolved upstream takes the /1 rows back and keeps the bypass rows on record |
| WindowsRoutes.ForwardTable.CleanupRouting | proxy/tproxy/tproxy_windows.go:596-630 | every recorded row and the adapter's two /1 rows are deleted, and then every /1 row of any interface |
| WindowsRoutes.DefaultFallbackIsDead | proxy/tproxy/tproxy_windows.go:457-576 | when no row covers an address there is no default row either |
| WindowsRoutes.UpstreamKeepsItsRoute | proxy/tproxy/tproxy_windows.go:368-576 | after set-up, lookup sends every bypassed host address that had a physical route out the interface and next hop the table chose without the adapter, whatever rows the adapter has besides one for that very host |
| WindowsRoutes.UpstreamAddressKeepsItsRoute | proxy/tproxy/tproxy_windows.go:521-540 | in particular every non-loopback address that a resolved upstream's lookup gave in four bytes |
| WindowsRoutes.SixteenByteUpstreamIsCaptured | proxy/tproxy/tproxy_windows.go:530-533 | a concrete upstream whose address comes in sixteen bytes and goes into the adapter |
| WindowsRoutes.CapturedLookup | proxy/tproxy/tproxy_windows.go:402-427 | with only the /1 rows added, the adapter wins an address outside its own rows exactly when its /1 row beats the best physical one |
| WindowsRoutes.CapturedTraffic | proxy/tproxy/tproxy_windows.go:368-576 | after set-up an address outside the adapter's own rows goes to the adapter if and only if its best physical row is missing, a default route or a dearer /1, and no installed bypass prefix longer than /1 covers it |
| WindowsRoutes.CapturedIsOnLink | proxy/tproxy/tproxy_windows.go:402-427 | what goes to the adapter goes there on link by the /1 row of its half, of metric 1 |
| WindowsRoutes.CleanupRestoresTable | proxy/tproxy/tproxy_windows.go:578-630 | set-up and clean-up together leave the table as it was less its own /1 rows, so they restore it if and only if it had none |
| WindowsRoutes.OtherTunnelLosesRoutes | proxy/tproxy/tproxy_windows.go:627-630 | a concrete table with another tunnel's /1 rows, which are lost |
| WindowsRoutes.CleanupElsewhere | proxy/tproxy/tproxy_windows.go:596-630 | a clean-up in a process that did not do the set-up removes the /1 rows and leaves the bypass rows |
| Telemetry.EqualConfigsBuildAlike | internal/otel.go:166-217 | configurations judged equal build equal providers |
| Telemetry.SpellingIsNoChange | internal/otel.go:166-217 | a configuration is judged equal to itself with the defaults written out or the protocol in another case |
| Telemetry.PlanFollowsConfig | internal/otel.go:81-156 | what a configuration asks for, field by field: defaults for blanks, http only by that name, and sampling everything outside the open interval from 0 to 1 |
| Telemetry.BuildAlike | internal/otel.go:81-156 | two enabled configurations build alike if and only if they differ at most in spelling a default, in the name of a protocol that is not http, and in rates that sample everything |
| Telemetry.AlikeButJudgedDifferent | internal/otel.go:81-217 | two configurations build alike and are judged different if and only if both are enabled, agree on endpoint, security and service, and their protocols differ though neither is http or their rates differ though both are at least 1, with no other difference |
| Telemetry.RebuiltForNothing | internal/otel.go:81-217 | two concrete pairs of such configurations |
| Telemetry.InvAlways | internal/otel.go:219-294 | lock, ownership and coverage invariants over every interleaving of initialisations, shutdowns and readers |
| Telemetry.FlagMatchesProvider | internal/otel.go:237-278 | whenever the lock is free the published flag is active exactly when a provider is installed, and the tracer is its |
| Telemetry.ReadersSeeLiveProviders | internal/otel.go:71-76 | at every moment a lock-free reader gets an untorn snapshot whose provider has not been shut down |
| Telemetry.ProvidersAreConserved | internal/otel.go:219-294 | every provider built is installed, or held by exactly one thread, or shut down exactly once, and never two of these |
| Telemetry.NothingLeaks | internal/otel.go:219-294 | when all calls have returned, what was built is what was shut down plus what is installed |
| Telemetry.FailedBuildChangesNothing | internal/otel.go:237-278 | in every run a failed build leaves every global, every provider and what readers see as they were, releases the lock and leaves nothing in the thread's hands |
| Telemetry.Tracing.InitOtelTracer | internal/otel.go:237-278 | the critical section: unchanged on equal configuration or failed build, otherwise replaced as a whole, with the old provider handed out for shutdown |
| Telemetry.Tracing.Shutdown | internal/otel.go:219-229 | the shutdown closure clears all globals and hands out the old provider |
| Telemetry.SwapIsTheCriticalSection | internal/otel.go:237-278 | the fine-grained steps of the interleaved system add up to that critical section |
| Telemetry.InitIsTheCriticalSection | internal/otel.go:237-278 | and so do the steps of a whole initialisation from taking the lock on, with its unchanged outcomes |
| FakeIp.FakeIPPool.constructor | internal/dns/fakeip.go:22-40 | the pool's bounds in uint32 arithmetic |
| FakeIp.FakeIPPool.GetIP | internal/dns/fakeip.go:42-60 | one lookup takes the pool to the next state and returns its address |
| FakeIp.PoolBounds | internal/dns/fakeip.go:22-40 | for prefixes up to /30 the bounds are base + 2 and base + size - 2 with nothing lost to overflow |
| FakeIp.FirstAddressInSubnet | internal/dns/fakeip.go:22-40 | the first address handed out lies in the subnet exactly for prefixes up to /30 |
| FakeIp.KthDomainAddress | internal/dns/fakeip.go:42-60 | in every run the k-th distinct domain has the address min + k mod N, inside the subnet, and keeps it |
| FakeIp.RoundTripWindow | internal/dns/fakeip.go:42-68 | an address leads back to its domain exactly while fewer than N new domains came after it |
| FakeIp.ReverseAgrees | internal/dns/fakeip.go:42-72 | in every run each reverse entry agrees with its forward entry and lies in the subnet |
| DnsResponder.ParseDomain | internal/dns/fakeip.go:175-197 | the label loop terminates in bounds on all bytes and computes the specification's parse |
| DnsResponder.HandleDNSQuery | internal/dns/fakeip.go:108-173 | the whole handler on a packet at the front of its buffer, with its refusals and its slices up to the buffer's end, changes the pool as the specification says |
| DnsResponder.WhenQueryFaults | internal/dns/fakeip.go:129-168 | it panics exactly when the name parses and the type, or the class of an A or AAAA question, runs beyond the buffer; never with four bytes of room |
| DnsResponder.PoolAfterFault | internal/dns/fakeip.go:129-168 | by then the name of an A question has its address; any other panic leaves the pool alone |
| DnsResponder.WhenBytesBehindMatter | internal/dns/fakeip.go:129-168 | the outcome depends on bytes behind the packet if and only if the name parses within the packet and the type or class it then needs does not end in it but does end in the buffer (a first type byte other than 0 settles the refusal) |
| DnsResponder.TruncatedQuery | internal/dns/fakeip.go:129-168 | one concrete truncated packet that is answered, refused or panics depending on what stands behind it |
| DnsResponder.WellFormedQueryParses | internal/dns/fakeip.go:175-197 | for every list of labels the parse yields the dotted name and the offset just past it |
| DnsResponder.QueryIsAnswered | internal/dns/fakeip.go:108-173 | every well-formed A query is answered with the pool's address for its name, whatever follows the question and whatever stands behind the packet |
| DnsResponder.ResponseDecodes | internal/dns/fakeip.go:150-173 | an independent decoder that follows compression pointers reads the identifier, the question, the owner, the lifetime and the address back from the response |
| DnsResponder.OtherQueriesLeaveThePool | internal/dns/fakeip.go:129-145 | a query for another type takes no address: AAAA gets the empty response, everything else is refused |
| DnsResponder.EmptyResponseDecodes | internal/dns/fakeip.go:132-145 | decoded, the empty response has the identifier and question of the query and no record of any kind |
| DnsResponder.AnswerLeadsBack | internal/handler.go:1373-1389 | end to end in every run: the reply the handler gives to a well-formed query decodes to the queried name and an address that is restored to that name exactly while fewer than N newer domains exist, always for a new name |
| DnsResponder.RestoredWasAsked | internal/handler.go:1373-1389 | nothing else is restored: in every run a restored name is not blank, was asked for, and has that address |
| RotatingLog.RotatingWriter.constructor | internal/rotating_writer.go:23-67 | defaulting of the limits and opening of an existing or new file |
| RotatingLog.RotatingWriter.WriteBytes | internal/rotating_writer.go:70-91 | a write rotates first exactly if the live file is non-empty and would exceed the limit, and appends |
| RotatingLog.RotatingWriter.RotateFiles | internal/rotating_writer.go:93-117 | the descending rename loop moves every backup up by one, drops the oldest, and leaves files beyond it alone |
| RotatingLog.NothingLostInTheMiddle | internal/rotating_writer.go:48-117 | after any writes and closes, log.N to log in a row is a suffix of the initial content plus everything written, and the tracked size is the live file's |
| RotatingLog.FilesStayBounded | internal/rotating_writer.go:70-117 | every file stays within any bound on the limit, the initial files and the single writes, and no file beyond the last backup is touched |
| RotatingLog.RotationLosesOldestOnly | internal/rotating_writer.go:93-117 | a write loses nothing unless it rotates, and then exactly the oldest backup |
| RotatingLog.WriteInRun | internal/rotating_writer.go:70-117 | in every run a write with room only appends to the live file; otherwise it starts a new one, the full one becomes the first backup and every backup moves up by one |
| RotatingLog.OpenUnlessClosed | internal/rotating_writer.go:48-129 | in every run the file is open unless closing it came last |
| TlsSniffing.ExtractSNIFromPayload | internal/handler.go:97-148 | the offset loop is in bounds and terminates on all bytes and computes the specified extraction |
| TlsSniffing.ExtractsFirstServerName | internal/handler.go:97-148 | for every payload that starts with a well-formed ClientHello, with any extensions, the result is the host of the first server_name extension, and an error when there is none |
| TlsSniffing.ExtractIsSound | internal/handler.go:97-148 | whatever the bytes, a name that is returned stands in them as the first name of a server_name extension behind the fixed part of a ClientHello |
| TlsSniffing.PeekingConn.Peek | internal/handler.go:54-72 | a peek returns the bytes asked for, or what there is, or the error, and what it does to the buffers |
| TlsSniffing.PeekingConn.Read | internal/handler.go:50-52 | a read takes from the peeked bytes first and then from the socket |
| TlsSniffing.PeekingConn.SniffSNI | internal/handler.go:74-95 | the sniffer's result and its effect on the connection |
| TlsSniffing.PeekConservesExactly | internal/handler.go:54-72 | a peek conserves the stream if and only if it takes nothing from the socket or no peeked byte has been read |
| TlsSniffing.PeekAfterReadRepeats | internal/handler.go:54-72 | on a fresh connection, for any two bytes: peek one, read it, peek two, and the byte already read is delivered again |
| TlsSniffing.SniffIsTransparent | internal/handler.go:74-95 | for every stream and sniff outcome the whole stream is still to be read |
| TlsSniffing.SniffThenReads | internal/handler.go:1391-1401 | any sequence of reads after a sniff delivers the stream byte for byte from its start |
| TlsSniffing.ReadFits | internal/handler.go:50-52 | a read never overruns its buffer, and leaves the socket alone while peeked bytes are there |
| TlsSniffing.ReadProgresses | internal/handler.go:50-52 | a read with room, when something is there, delivers at least one byte |
| TlsSniffing.ReadsFinish | internal/handler.go:50-52 | as many such reads as there are bytes left deliver them all |
| TlsSniffing.SniffExact | internal/handler.go:74-95 | for every stream: how far the sniffer looks, and that it reports a name exactly from a complete handshake record of at most 8192 bytes |
| TlsSniffing.SniffReadsRecord | internal/handler.go:74-95 | on a stream that starts with a TLS record within the cap, the sniffer reports what extraction finds in that record |
| TlsSniffing.SniffsServerName | internal/handler.go:74-148 | a connection opening with a ClientHello is given its server name and loses nothing by it |
| SocksAddress.SplitIsExact | socks/client.go:121-147 | splitting finds an address if and only if it is one and the input starts with it |
| SocksAddress.PrefixFree | socks/client.go:121-147 | address encodings are prefix-free: a concatenation splits in one way only |
| SocksAddress.AddressForms | socks/client.go:121-147 | the three forms of an address by kind 1, 3 and 4 and length |
| SocksAddress.EncodedForms | socks/client.go:150-184 | the encoded bytes of an IPv4, IPv6 and named target |
| SocksAddress.FrameLayout | socks/client.go:393-406 | a frame is three zero bytes, the target and the data |
| SocksAddress.ParseThenPrint | socks/client.go:150-184 | every target within the length limit encodes to a whole address that prints as the same host and port |
| SocksAddress.ParseIsInjective | socks/client.go:62-184 | two targets share an encoding only if they are the same |
| SocksAddress.ReadInvertsWrite | socks/client.go:393-428 | reading a written frame that fits a datagram reports the payload's length and delivers all of it exactly when the buffer has room |
| SocksAddress.WhenUnwrapFaults | socks/client.go:408-428 | the reader slices out of range exactly on datagrams of known address kind that end inside the address |
| SocksExchange.Conn.ReadAddr | socks/client.go:80-106 | reading an address from a stream, byte class by byte class, is splitting it off; a short stream is used up, an unknown kind costs one byte |
| SocksExchange.Conn.Handshake | socks/client.go:187-213 | the server side: result, bytes left, bytes written |
| SocksExchange.Conn.WriteReply | socks/client.go:216-222 | the reply, with 0.0.0.0:0 for a missing address |
| SocksExchange.Conn.Associate | socks/client.go:324-350 | the control exchange of the UDP client: result, bytes left, bytes written |
| SocksExchange.Conn.ClientConnect | socks/client.go:440-476 | the CONNECT client: result, bytes left, bytes written |
| SocksExchange.WireMessages | socks/client.go:187-350 | greeting, associate request and empty reply byte for byte |
| SocksExchange.ReadAddrIsExact | socks/client.go:80-106 | reading consumes exactly the bytes in front if and only if they are an address |
| SocksExchange.HandshakeIsExact | socks/client.go:187-213 | the server accepts a command and target, leaving a rest, if and only if the stream is some greeting, some request for them, and that rest |
| SocksExchange.AssociateIsExact | socks/client.go:324-350 | the UDP client takes exactly the server's two answers if and only if the bound address is one, whatever the reply code |
| SocksExchange.AssociateIgnoresRefusal | socks/client.go:342-350 | a refusal is taken for a relay address, where the CONNECT client reports its code |
| SocksExchange.ConnectOutcome | socks/client.go:440-476 | what becomes of a successful reply for every bound address and all data: refused, connected with address bytes left over, connected with data bytes eaten, or short |
| SocksExchange.ConnectMisalignment | socks/client.go:440-476 | the CONNECT client takes exactly a successful reply if and only if the bytes after the address kind happen to form an address, listed kind by kind |
| SocksExchange.ConnectEatsAByte | socks/client.go:440-476 | a server bound to any address 1.x.y.z takes the first byte of the data with it |
| SocksExchange.ConnectToOwnServer | socks/client.go:216-222 | against vproxy's own server it always fails, leaving five bytes of the reply |
| SocksExchange.ConnectReportsRefusal | socks/client.go:440-476 | an error reply is reported under its code, with the address unread |
| SocksSession.SessionInv | socks/client.go:187-350 | in every interleaving of client and server both streams are what was written less what was read |
| SocksSession.NoDeadlock | socks/client.go:187-350 | until both are done one of them can go on |
| SocksSession.SessionCompletes | socks/client.go:187-350 | every session takes at most eleven steps, and after eleven each side has consumed exactly what the other wrote, the server has command and target, and the client has the relay address |
| RewriteIndex.RewriteEngine.New | internal/rewrite.go:59-96 | the loop builds the index of the compiled rules: buckets per host in order, host-less rules in order, each host listed once; an invalid entry fails the whole |
| RewriteIndex.RulesConcat | internal/rewrite.go:68-96 | the rules of two lists of entries are those of the first and then of the second, and an invalid entry in either fails both |
| RewriteIndex.RulesOfOne | internal/rewrite.go:68-96 | a single entry gives its rule, nothing, or the error |
| RewriteIndex.RewriteEngine.IsInterceptHost | internal/rewrite.go:253-260 | true exactly for the listed hosts, which are exactly the hosts of rules |
| RewriteIndex.RewriteEngine.Match | internal/rewrite.go:262-289 | bucketed matching equals a first-match scan of the host's rules and then the host-less rules, for every rule list, host and evaluation |
| Scan.FirstMatchIsFirst | internal/rewrite.go:272-287 | that scan answers with the earliest rule that applies |
| RewriteIndex.HostRulesGoFirst | internal/rewrite.go:272-287 | a host-less rule put anywhere changes nothing while a host rule applies |
| RewriteIndex.MatchIsSome | internal/rewrite.go:262-289 | a request is answered if and only if a rule of its host or of no host applies, and then by one of those |
| RuleCompiler.CompileEntries | internal/router.go:108-218 | the loop computes the compile of the entries |
| RuleCompiler.CompiledRulesAreFlat | internal/router.go:108-218 | the compiled rules are the in-order concatenation of each entry's contribution |
| RuleCompiler.CompiledDefaultIsLast | internal/router.go:210-213 | the default is that of the last entry that sets one, and DIRECT when none does |
| RuleCompiler.WriteThenCompile | internal/router.go:99-218 | writing any list of domain, process and URL rules as entries and compiling them gives back exactly that list |
| RuleCompiler.HostEntry | internal/router.go:167-170 | an entry of host and action is a domain rule |
| RuleCompiler.DefaultEntry | internal/router.go:210-213 | DEFAULT and FINAL with any action set the default |
| RuleCompiler.MapEntry | internal/router.go:133-137 | MAP with URL and target is a URL rule with that target |
| RuleCompiler.InterceptEntry | internal/router.go:138-141 | INTERCEPT with a host is a domain rule that intercepts |
| RuleCompiler.CidrEntry | internal/router.go:142-163 | IP_CIDR is a CIDR rule for DIRECT, PROXY and BLOCK and a readable CIDR, and nothing otherwise |
| RuleCompiler.PidEntry | internal/router.go:188-194 | PID is a rule for the process id the second part reads as |
| RuleCompiler.ToggleOffDeletes | frontend/src/utils/rules.ts:65-82 | toggling an active entry off compiles to exactly the list with it deleted, wherever it stands |
| RuleCompiler.CommentedExactly | internal/router.go:115-120 | an entry is off exactly if it starts with #, // or, in any case, DISABLED and a comma |
| RuleCompiler.UncommentedExactly | frontend/src/utils/rules.ts:13-82 | what taking each of the three markers away leaves |
| RuleCompiler.ToggleTwiceRestoresActive | frontend/src/utils/rules.ts:65-82 | toggling an active entry twice gives its trimmed text and restores the compile |
| RuleCompiler.ToggleTwiceKeepsContribution | frontend/src/utils/rules.ts:13-82 | for every entry, toggling twice keeps its contribution if and only if it does not have exactly two comment markers before a rule that contributes something |
| RuleCompiler.TwoMarkers | frontend/src/utils/rules.ts:65-82 | a concrete entry that is off and, toggled twice, on |
| RuleMatcher.RuleManager.constructor | internal/router.go:108-218 | a new manager holds the compile of its entries, no remote LANs, and direct DNS |
| Text.Letters | internal/router.go:108-218 | upper and lower case of the ASCII letters, one for one, and of nothing else |
| Text.Blanks | internal/router.go:115-120 | the ASCII blanks that trimming takes away |
| RuleMatcher.RuleManager.AddPIDRule | internal/router.go:88-97 | the rule is prepended |
| RuleMatcher.RuleManager.SetRemoteLANs | internal/router.go:227-261 | the loop sorts the entries into networks, appended, and domain rules, prepended in order |
| RuleMatcher.RuleManager.DoMatchContext | internal/router.go:295-373 | the code decides as the specification does, which `DecisionTable` spells out |
| RuleMatcher.DecisionIsGuardsThenFirst | internal/router.go:295-373 | the decision is the guards', or the earliest matching rule's, or the default; the guards are those of `DecisionTable` |
| RuleMatcher.DecisionTable | internal/router.go:295-373 | port 53 with direct DNS and this machine go direct, an address in a remote LAN goes to the proxy, any other private address goes direct, and the rest is decided by the earliest matching rule or the default |
| Addresses.PrivateRanges | internal/router.go:376-395 | the private addresses as ranges, for both families and for IPv4-mapped addresses |
| Addresses.CoversByBits | internal/router.go:309-371 | a network covers exactly the addresses of its family that agree with it in its leading bits, bit by bit |
| RuleMatcher.DomainRuleByLabels | internal/router.go:332-347 | a domain rule matches exactly when the labels of its pattern, less one leading dot, are the last labels of the host |
| RuleMatcher.ProcessRuleBySubstring | internal/router.go:328-331 | a process rule matches a known process whose name has the pattern in it, in any case |
| RuleMatcher.UrlRuleBySubstring | internal/router.go:347-360 | a URL rule matches a URL with the pattern in it, and without a URL a host that is in the pattern |
| RuleMatcher.CidrAndPidRules | internal/router.go:324-370 | a CIDR rule matches an address with the network's leading bits, a process-id rule its process and never process 0 |
| RuleMatcher.PidRuleTakesPrecedence | internal/router.go:88-97 | a prepended process rule decides for its process before every existing rule, and changes nothing for any other context |
| RuleMatcher.RemoteLansTakePrecedence | internal/router.go:227-261 | registered networks win over the private-address bypass and all rules, registered names over all existing rules, DNS and this machine stay direct, and nothing else changes |
| RuleMatcher.RemoteAddress | internal/router.go:227-261 | registering a bare IPv4 address sends exactly that address to the proxy |
| RuleMatcher.RemoteAddress6 | internal/router.go:227-261 | likewise for an IPv6 address |
| RuleMatcher.RemoteName | internal/router.go:227-261 | registering a starred name sends the domain and every name below it to the proxy unless a guard decides |
| DropThrottle.InvAlways | internal/handler.go:580-598 | in every interleaving the shared word is the last allowed timestamp and every pending swap passed its check |
| DropThrottle.AllowedAreSpaced | internal/handler.go:580-598 | in every interleaving any two allowed timestamps are at least the interval apart |
| DropThrottle.RefusedExactlyWithin | internal/handler.go:580-598 | in every interleaving a load refuses if and only if its clock reading is less than the interval after the last allowed one |
| DropThrottle.LoneCall | internal/handler.go:580-598 | a call that is not interrupted is allowed if and only if its clock reading is at least the interval after the last allowed one |
| DropThrottle.FailedSwapMeansAnotherWon | internal/handler.go:580-598 | a swap fails only if another caller's swap succeeded since its load, and with a positive interval whenever one did |

## Left out

- The remote-TPROXY mode of the eBPF hooks, whose configuration and comparison disagree on byte order unless host endianness is modelled; the iptables remote mode is in.
- Process names in the saved destinations and everything read from /proc.
- Map overflow and LRU eviction in the kernel.
- What foreign iptables rules do beyond matching or not, and commands failing for reasons outside the tables.
- The UDP dial's fallback to the first configured server, which has no self check.
- Windows: where traffic to the adapter's own addresses goes, row creation failing for reasons other than a taken key, and the adapter's own rows going away when it is closed.
- NaN sampling rates in the telemetry configuration, and the exporters themselves.
- ClientHello messages split over several TLS records.
- int64 overflow of timestamps in the throttle; the interval is one number for all callers.
- Non-ASCII rule entries, on which Go and JavaScript differ about blanks and letter case; `parseRuleItem`'s type, pattern and action, which only the UI shows.
- Rewrite patterns, targets and URL building; regular expressions.
- Username and password authentication in SOCKS, and the library dialer behind `DialTCP`.
- TLS interception, HTTP handling, certificates, gVisor, Wintun, PF, ICMP, the tc programs, the web console, configuration loading and logging text.
