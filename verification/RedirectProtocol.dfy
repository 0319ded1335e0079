/** The interception protocol as a transition system: any number of sockets connect, get established,
    send and close while the proxy accepts, receives and looks destinations up, in any order. */
module RedirectProtocol {
  import opened Bytes
  import opened Addresses
  import opened RedirectHooks

  datatype Event =
      // connect() of a TCP socket; it may be repeated after a failed attempt
    | Connect(cookie: Cookie, mark: U32, dst: Endpoint, pid: U32)
      // the three-way handshake of the pending attempt completes from this local endpoint
    | Establish(cookie: Cookie, client: Endpoint)
      // the proxy accepts the connection (its listener may report IPv4 as mapped) and looks it up
    | AcceptLookup(client: Endpoint, peer: Endpoint, mapped: bool)
      // the client's socket lets go of the 4-tuple, whether or not the proxy has got to it yet
    | Release(key: TupleKey)
      // connect() of a UDP socket bound to srcPort; the sends that follow run no hook
    | UdpConnect(cookie: Cookie, mark: U32, srcPort: U16, dst: Endpoint, pid: U32)
      // sendmsg() of an unconnected UDP socket bound to srcPort
    | UdpSend(mark: U32, srcPort: U16, dst: Endpoint, pid: U32)
      // the proxy receives a datagram and looks its sender up
    | UdpReceive(src: Endpoint)

  datatype Phase = Connecting(peer: Endpoint) | Open(key: TupleKey) | Closed

  datatype State = State(socks: map<Cookie, Phase>, live: map<TupleKey, Cookie>, looked: set<TupleKey>, maps: Maps)

  const INITIAL := State(map[], map[], {}, Maps(map[], map[], map[]))

  function LookupKey(client: Endpoint, peer: Endpoint, mapped: bool): TupleKey {
    if mapped then AcceptKey(Mapped(client), Mapped(peer)) else AcceptKey(client, peer)
  }

  function SourceKey(src: Endpoint): UdpKey {
    UdpKey(src.port, if To4(src.ip).Some? then Inet else Inet6)
  }

  /** Cookies are never reused and live 4-tuples are unique. A client may be gone, and its 4-tuple taken again,
      before the proxy looks it up. */
  predicate Enabled(cfg: Config, s: State, e: Event) {
    match e
    case Connect(c, _, _, _) => c in s.socks ==> s.socks[c].Connecting?
    case Establish(c, client) =>
      c in s.socks && s.socks[c].Connecting? &&
      FamilyOf(client.ip) == FamilyOf(s.socks[c].peer.ip) && KernelKey(client, s.socks[c].peer) !in s.live
    case AcceptLookup(client, peer, _) => FamilyOf(client.ip) == FamilyOf(peer.ip) && !IsMapped4(peer.ip)
    case Release(key) => key in s.live
    case UdpConnect(_, _, _, _, _) => true
    case UdpSend(_, _, _, _) => true
    case UdpReceive(_) => true
  }

  function Apply(cfg: Config, s: State, e: Event): State
    requires Enabled(cfg, s, e)
  {
    match e
    case Connect(c, mark, dst, pid) =>
      s.(socks := s.socks[c := Connecting(HookDst(cfg, mark, dst))],
         maps := ConnectMaps(cfg, mark, c, 0, Tcp, dst, pid, s.maps))
    case Establish(c, client) =>
      var key := KernelKey(client, s.socks[c].peer);
      s.(socks := s.socks[c := Open(key)], live := s.live[key := c], maps := EstablishedMaps(c, key, s.maps))
    case AcceptLookup(client, peer, mapped) =>
      s.(looked := if KernelKey(client, peer) in s.live then s.looked + {KernelKey(client, peer)} else s.looked,
         maps := s.maps.(tcpOrig := s.maps.tcpOrig - {LookupKey(client, peer, mapped)}))
    case Release(key) =>
      s.(socks := s.socks[s.live[key] := Closed], live := s.live - {key}, looked := s.looked - {key})
    case UdpConnect(c, mark, srcPort, dst, pid) =>
      s.(maps := ConnectMaps(cfg, mark, c, srcPort, Udp, dst, pid, s.maps))
    case UdpSend(mark, srcPort, dst, pid) =>
      s.(maps := SendMaps(cfg, mark, srcPort, dst, pid, s.maps))
    case UdpReceive(src) =>
      s.(maps := s.maps.(udpOrig := s.maps.udpOrig - {SourceKey(src)}))
  }

  // ----- runs -----

  /** The state a run ends in; None if some event was not enabled when it came. */
  function Run(cfg: Config, es: seq<Event>): Option<State> {
    if es == [] then Some(INITIAL)
    else
      match Run(cfg, es[..|es| - 1])
      case None => None
      case Some(s) => if Enabled(cfg, s, es[|es| - 1]) then Some(Apply(cfg, s, es[|es| - 1])) else None
  }

  predicate Valid(cfg: Config, es: seq<Event>) {
    Run(cfg, es).Some?
  }

  function After(cfg: Config, es: seq<Event>): State
    requires Valid(cfg, es)
  {
    Run(cfg, es).value
  }

  lemma RunSnoc(cfg: Config, es: seq<Event>, e: Event)
    ensures Valid(cfg, es + [e]) <==> Valid(cfg, es) && Enabled(cfg, After(cfg, es), e)
    ensures Valid(cfg, es + [e]) ==> After(cfg, es + [e]) == Apply(cfg, After(cfg, es), e)
  {
    assert (es + [e])[..|es + [e]| - 1] == es;
  }

  // ----- what a run asked for, read off its events alone -----

  /** The latest connect() of a socket. */
  function LastConnect(es: seq<Event>, c: Cookie): Option<Event> {
    if es == [] then None
    else
      var e := es[|es| - 1];
      if e.Connect? && e.cookie == c then Some(e) else LastConnect(es[..|es| - 1], c)
  }

  /** A UDP socket names a destination. */
  predicate IsUdp(e: Event) {
    e.UdpConnect? || e.UdpSend?
  }

  predicate Diverted(cfg: Config, e: Event) {
    (e.Connect? || IsUdp(e)) && !Bypassed(cfg, e.mark, e.dst)
  }

  /** The latest connect() of a socket that the hooks diverted. */
  function LastDiverted(cfg: Config, es: seq<Event>, c: Cookie): Option<Event> {
    if es == [] then None
    else
      var e := es[|es| - 1];
      if e.Connect? && e.cookie == c && Diverted(cfg, e) then Some(e) else LastDiverted(cfg, es[..|es| - 1], c)
  }

  /** The event completes a handshake on this 4-tuple. */
  predicate Establishes(cfg: Config, before: seq<Event>, e: Event, key: TupleKey) {
    && e.Establish?
    && var last := LastConnect(before, e.cookie);
       last.Some? && last.value.Connect? && KernelKey(e.client, HookDst(cfg, last.value.mark, last.value.dst)) == key
  }

  /** The connect() a lookup of this 4-tuple answers for: the latest diverted attempt of the latest socket
      established on it that made one, unless a lookup of the 4-tuple came since. */
  function Pending(cfg: Config, es: seq<Event>, key: TupleKey): Option<Event> {
    if es == [] then None
    else
      var before, e := es[..|es| - 1], es[|es| - 1];
      if Establishes(cfg, before, e, key) && LastDiverted(cfg, before, e.cookie).Some?
        then LastDiverted(cfg, before, e.cookie)
      else if e.AcceptLookup? && KernelKey(e.client, e.peer) == key then None
      else Pending(cfg, before, key)
  }

  /** What earlier connections on this 4-tuple had left unlooked when the latest one was established. */
  function LeftBehind(cfg: Config, es: seq<Event>, key: TupleKey): Option<Event> {
    if es == [] then None
    else
      var before, e := es[..|es| - 1], es[|es| - 1];
      if Establishes(cfg, before, e, key) then Pending(cfg, before, key) else LeftBehind(cfg, before, key)
  }

  /** The latest diverted UDP connect() or send under a key that no receive has consumed since. */
  function LatestUnconsumed(cfg: Config, es: seq<Event>, key: UdpKey): Option<Event> {
    if es == [] then None
    else
      var e := es[|es| - 1];
      if IsUdp(e) && Diverted(cfg, e) && UdpKey(e.srcPort, FamilyOf(e.dst.ip)) == key then Some(e)
      else if e.UdpReceive? && SourceKey(e.src) == key then None
      else LatestUnconsumed(cfg, es[..|es| - 1], key)
  }

  // ----- TCP -----

  /** A socket's cookie entry: there exactly if some attempt was diverted, and then that of the latest such. */
  ghost predicate CookieOk(cfg: Config, es: seq<Event>, s: State, c: Cookie) {
    match LastDiverted(cfg, es, c)
    case None => c !in s.maps.tcpCookie
    case Some(e) => e.Connect? && c in s.maps.tcpCookie && s.maps.tcpCookie[c] == Save(e.dst, e.pid)
  }

  ghost predicate SockOk(cfg: Config, es: seq<Event>, s: State, c: Cookie) {
    if c !in s.socks then LastConnect(es, c) == None && LastDiverted(cfg, es, c) == None && c !in s.maps.tcpCookie
    else
      match s.socks[c]
      case Connecting(peer) =>
        var last := LastConnect(es, c);
        && last.Some? && last.value.Connect?
        && peer == HookDst(cfg, last.value.mark, last.value.dst)
        && CookieOk(cfg, es, s, c)
      case Open(key) => key in s.live && s.live[key] == c
      case Closed => true
  }

  /** The 4-tuple's entry is that of the connect() the history says a lookup answers for. */
  ghost predicate EntryOk(cfg: Config, es: seq<Event>, s: State, key: TupleKey) {
    match Pending(cfg, es, key)
    case None => key !in s.maps.tcpOrig
    case Some(e) => e.Connect? && key in s.maps.tcpOrig && s.maps.tcpOrig[key] == Save(e.dst, e.pid)
  }

  /** An open connection, and what a lookup of it answers for until there has been one. */
  ghost predicate ConnOk(cfg: Config, es: seq<Event>, s: State, key: TupleKey)
    requires key in s.live
  {
    var c := s.live[key];
    && c in s.socks && s.socks[c] == Open(key)
    && LastConnect(es, c).Some? && LastConnect(es, c).value.Connect?
    && Pending(cfg, es, key) ==
         if key in s.looked then None
         else if LastDiverted(cfg, es, c).Some? then LastDiverted(cfg, es, c)
         else LeftBehind(cfg, es, key)
  }

  ghost predicate TcpInv(cfg: Config, es: seq<Event>, s: State) {
    && (forall c :: SockOk(cfg, es, s, c))
    && (forall key :: EntryOk(cfg, es, s, key))
    && (forall key :: key in s.live ==> ConnOk(cfg, es, s, key))
    && (forall key :: key in s.looked ==> key in s.live)
  }

  lemma LastConnectSnoc(es: seq<Event>, e: Event, c: Cookie)
    ensures LastConnect(es + [e], c) == if e.Connect? && e.cookie == c then Some(e) else LastConnect(es, c)
  {
    assert (es + [e])[..|es + [e]| - 1] == es;
  }

  lemma LastDivertedSnoc(cfg: Config, es: seq<Event>, e: Event, c: Cookie)
    ensures LastDiverted(cfg, es + [e], c) ==
      if e.Connect? && e.cookie == c && Diverted(cfg, e) then Some(e) else LastDiverted(cfg, es, c)
  {
    assert (es + [e])[..|es + [e]| - 1] == es;
  }

  lemma PendingSnoc(cfg: Config, es: seq<Event>, e: Event, key: TupleKey)
    ensures Pending(cfg, es + [e], key) ==
              if Establishes(cfg, es, e, key) && LastDiverted(cfg, es, e.cookie).Some?
                then LastDiverted(cfg, es, e.cookie)
              else if e.AcceptLookup? && KernelKey(e.client, e.peer) == key then None
              else Pending(cfg, es, key)
    ensures LeftBehind(cfg, es + [e], key) ==
              if Establishes(cfg, es, e, key) then Pending(cfg, es, key) else LeftBehind(cfg, es, key)
  {
    assert (es + [e])[..|es + [e]| - 1] == es;
  }

  /** The history's idea of which 4-tuple a handshake is for is the kernel's. */
  lemma EstablishedKey(cfg: Config, es: seq<Event>, s: State, e: Event, key: TupleKey)
    requires TcpInv(cfg, es, s) && Enabled(cfg, s, e) && e.Establish?
    ensures Establishes(cfg, es, e, key) <==> key == KernelKey(e.client, s.socks[e.cookie].peer)
    ensures CookieOk(cfg, es, s, e.cookie)
  {
    assert SockOk(cfg, es, s, e.cookie);
  }

  lemma SockStep(cfg: Config, es: seq<Event>, s: State, e: Event, c: Cookie)
    requires TcpInv(cfg, es, s) && Enabled(cfg, s, e)
    ensures SockOk(cfg, es + [e], Apply(cfg, s, e), c)
  {
    LastConnectSnoc(es, e, c);
    LastDivertedSnoc(cfg, es, e, c);
    assert SockOk(cfg, es, s, c);
    if e.Release? {
      assert ConnOk(cfg, es, s, e.key);
    }
  }

  lemma EntryStep(cfg: Config, es: seq<Event>, s: State, e: Event, key: TupleKey)
    requires TcpInv(cfg, es, s) && Enabled(cfg, s, e)
    ensures EntryOk(cfg, es + [e], Apply(cfg, s, e), key)
  {
    PendingSnoc(cfg, es, e, key);
    assert EntryOk(cfg, es, s, key);
    if e.AcceptLookup? {
      KeysAgree(e.client, e.peer);
    }
    if e.Establish? {
      EstablishedKey(cfg, es, s, e, key);
    }
  }

  lemma ConnStep(cfg: Config, es: seq<Event>, s: State, e: Event, key: TupleKey)
    requires TcpInv(cfg, es, s) && Enabled(cfg, s, e) && key in Apply(cfg, s, e).live
    ensures ConnOk(cfg, es + [e], Apply(cfg, s, e), key)
  {
    var c := Apply(cfg, s, e).live[key];
    PendingSnoc(cfg, es, e, key);
    LastConnectSnoc(es, e, c);
    LastDivertedSnoc(cfg, es, e, c);
    assert SockOk(cfg, es, s, c);
    if e.Establish? {
      EstablishedKey(cfg, es, s, e, key);
    }
    if key in s.live {
      assert ConnOk(cfg, es, s, key);
    }
    if e.Release? {
      assert ConnOk(cfg, es, s, e.key);
    }
  }

  lemma TcpInvStep(cfg: Config, es: seq<Event>, s: State, e: Event)
    requires TcpInv(cfg, es, s) && Enabled(cfg, s, e)
    ensures TcpInv(cfg, es + [e], Apply(cfg, s, e))
  {
    forall c
      ensures SockOk(cfg, es + [e], Apply(cfg, s, e), c)
    {
      SockStep(cfg, es, s, e, c);
    }
    forall key
      ensures EntryOk(cfg, es + [e], Apply(cfg, s, e), key)
    {
      EntryStep(cfg, es, s, e, key);
    }
    forall key | key in Apply(cfg, s, e).live
      ensures ConnOk(cfg, es + [e], Apply(cfg, s, e), key)
    {
      ConnStep(cfg, es, s, e, key);
    }
  }

  lemma {:induction false} TcpInvAlways(cfg: Config, es: seq<Event>)
    requires Valid(cfg, es)
    ensures TcpInv(cfg, es, After(cfg, es))
  {
    if es != [] {
      var before := es[..|es| - 1];
      TcpInvAlways(cfg, before);
      TcpInvStep(cfg, before, After(cfg, before), es[|es| - 1]);
      assert before + [es[|es| - 1]] == es;
    }
  }

  /** What the proxy's lookup of an accepted connection will yield. */
  function LookedUp(s: State, client: Endpoint, peer: Endpoint, mapped: bool): Option<OriginalDst> {
    var key := LookupKey(client, peer, mapped);
    if key in s.maps.tcpOrig then Some(s.maps.tcpOrig[key]) else None
  }

  /** In every interleaving, a lookup of any 4-tuple yields exactly the destination and process of the connect()
      the history says it answers for, and misses exactly when there is none. */
  lemma TcpLookupExact(cfg: Config, es: seq<Event>, client: Endpoint, peer: Endpoint, mapped: bool)
    requires Valid(cfg, es) && Enabled(cfg, After(cfg, es), AcceptLookup(client, peer, mapped))
    ensures var found := LookedUp(After(cfg, es), client, peer, mapped);
            match Pending(cfg, es, KernelKey(client, peer))
            case None => found == None
            case Some(e) =>
              && e.Connect? && found.Some? && |found.value.ip| == 16
              && ToAddr(found.value) == e.dst && found.value.pid == e.pid
  {
    TcpInvAlways(cfg, es);
    assert EntryOk(cfg, es, After(cfg, es), KernelKey(client, peer));
    KeysAgree(client, peer);
    match Pending(cfg, es, KernelKey(client, peer))
    case None =>
    case Some(e) => SavedDstRoundTrip(e.dst, e.pid);
  }

  lemma {:induction false} DivertedIsConnect(cfg: Config, es: seq<Event>, c: Cookie)
    ensures var e, last := LastDiverted(cfg, es, c), LastConnect(es, c);
            && (e.Some? ==> e.value in es && e.value.Connect? && e.value.cookie == c &&
                            Diverted(cfg, e.value) && last.Some?)
            && (last.Some? ==> last.value.Connect? && (Diverted(cfg, last.value) ==> e == last))
  {
    if es != [] {
      DivertedIsConnect(cfg, es[..|es| - 1], c);
    }
  }

  /** For the connection open on a 4-tuple now, and as long as there has been no lookup of the 4-tuple since it was
      established: a lookup answers for its socket's latest connect() whenever that one was diverted. If it was not,
      the lookup misses as it should if and only if no attempt of the socket was diverted and no earlier connection
      on the 4-tuple went away unlooked. */
  lemma TcpLookupIsForLatest(cfg: Config, es: seq<Event>, client: Endpoint, peer: Endpoint, mapped: bool)
    requires Valid(cfg, es) && Enabled(cfg, After(cfg, es), AcceptLookup(client, peer, mapped))
    requires KernelKey(client, peer) in After(cfg, es).live && KernelKey(client, peer) !in After(cfg, es).looked
    ensures var s, key := After(cfg, es), KernelKey(client, peer);
            var last, found := LastConnect(es, s.live[key]), LookedUp(s, client, peer, mapped);
            && last.Some? && last.value.Connect?
            && (Diverted(cfg, last.value) ==>
                  found.Some? && |found.value.ip| == 16 &&
                  ToAddr(found.value) == last.value.dst && found.value.pid == last.value.pid)
            && (!Diverted(cfg, last.value) ==>
                  (found == None <==> LastDiverted(cfg, es, s.live[key]) == None && LeftBehind(cfg, es, key) == None))
  {
    TcpLookupExact(cfg, es, client, peer, mapped);
    TcpInvAlways(cfg, es);
    assert ConnOk(cfg, es, After(cfg, es), KernelKey(client, peer));
    DivertedIsConnect(cfg, es, After(cfg, es).live[KernelKey(client, peer)]);
  }

  lemma {:induction false} StaysLooked(cfg: Config, es: seq<Event>, more: seq<Event>, key: TupleKey)
    requires Valid(cfg, es) && key in After(cfg, es).looked
    requires Valid(cfg, es + more) && Release(key) !in more
    ensures key in After(cfg, es + more).looked
  {
    if more == [] {
      assert es + more == es;
    } else {
      var n := |more| - 1;
      assert es + more == (es + more[..n]) + [more[n]];
      RunSnoc(cfg, es + more[..n], more[n]);
      StaysLooked(cfg, es, more[..n], key);
    }
  }

  /** An entry is consumed at most once: until the connection is released, a second lookup misses. */
  lemma TcpConsumedOnce(
    cfg: Config, es: seq<Event>, client: Endpoint, peer: Endpoint, mapped: bool, more: seq<Event>,
    mapped': bool)
    requires Valid(cfg, es + [AcceptLookup(client, peer, mapped)]) && Valid(cfg, es)
    requires Valid(cfg, es + [AcceptLookup(client, peer, mapped)] + more)
    requires KernelKey(client, peer) in After(cfg, es).live && Release(KernelKey(client, peer)) !in more
    ensures LookedUp(After(cfg, es + [AcceptLookup(client, peer, mapped)] + more), client, peer, mapped') == None
  {
    var es' := es + [AcceptLookup(client, peer, mapped)];
    var key := KernelKey(client, peer);
    RunSnoc(cfg, es, AcceptLookup(client, peer, mapped));
    StaysLooked(cfg, es', more, key);
    TcpInvAlways(cfg, es' + more);
    assert ConnOk(cfg, es' + more, After(cfg, es' + more), key);
    TcpLookupExact(cfg, es' + more, client, peer, mapped');
  }

  // ----- one lookup per accepted connection -----

  /** The event takes a 4-tuple's entry away or replaces it: a lookup of the 4-tuple, which need not be on behalf of
      the connection that owns the entry, or a handshake on it by a socket with a diverted attempt. */
  predicate Disturbs(cfg: Config, before: seq<Event>, e: Event, key: TupleKey) {
    || (e.AcceptLookup? && KernelKey(e.client, e.peer) == key)
    || (Establishes(cfg, before, e, key) && LastDiverted(cfg, before, e.cookie).Some?)
  }

  ghost predicate Undisturbed(cfg: Config, es: seq<Event>, more: seq<Event>, key: TupleKey) {
    forall i :: 0 <= i < |more| ==> !Disturbs(cfg, es + more[..i], more[i], key)
  }

  lemma UndisturbedSnoc(cfg: Config, es: seq<Event>, more: seq<Event>, key: TupleKey)
    requires more != []
    ensures var n := |more| - 1;
            Undisturbed(cfg, es, more, key) <==>
              Undisturbed(cfg, es, more[..n], key) && !Disturbs(cfg, es + more[..n], more[n], key)
  {
    var n := |more| - 1;
    forall i | 0 <= i < n
      ensures more[..n][..i] == more[..i] && more[..n][i] == more[i]
    {
    }
  }

  lemma {:induction false} StaysPending(cfg: Config, es: seq<Event>, more: seq<Event>, key: TupleKey)
    requires Undisturbed(cfg, es, more, key)
    ensures Pending(cfg, es + more, key) == Pending(cfg, es, key)
    decreases |more|
  {
    if more == [] {
      assert es + more == es;
    } else {
      var n := |more| - 1;
      UndisturbedSnoc(cfg, es, more, key);
      StaysPending(cfg, es, more[..n], key);
      PendingSnoc(cfg, es + more[..n], more[n], key);
      assert es + more == es + more[..n] + [more[n]];
    }
  }

  /** The socket has had its handshake and can have no other. */
  predicate Settled(s: State, c: Cookie) {
    c in s.socks && !s.socks[c].Connecting?
  }

  lemma {:induction false} StaysSettled(cfg: Config, es: seq<Event>, more: seq<Event>, c: Cookie)
    requires Valid(cfg, es + more) && Valid(cfg, es) && Settled(After(cfg, es), c)
    ensures Settled(After(cfg, es + more), c)
    decreases |more|
  {
    if more == [] {
      assert es + more == es;
    } else {
      var n := |more| - 1;
      assert es + more == es + more[..n] + [more[n]];
      RunSnoc(cfg, es + more[..n], more[n]);
      StaysSettled(cfg, es, more[..n], c);
    }
  }

  /** Once disturbed, a settled socket's connect() is never pending again. */
  lemma {:induction false} NeverPendingAgain(cfg: Config, es: seq<Event>, more: seq<Event>, c: Cookie, key: TupleKey)
    requires Valid(cfg, es + more) && Valid(cfg, es) && Settled(After(cfg, es), c)
    requires !Undisturbed(cfg, es, more, key)
    ensures var e := Pending(cfg, es + more, key); e.Some? ==> e.value.Connect? && e.value.cookie != c
    decreases |more|
  {
    var n := |more| - 1;
    var before, e := es + more[..n], more[n];
    assert es + more == before + [e];
    UndisturbedSnoc(cfg, es, more, key);
    PendingSnoc(cfg, before, e, key);
    RunSnoc(cfg, before, e);
    if Disturbs(cfg, before, e, key) {
      if !e.AcceptLookup? {
        StaysSettled(cfg, es, more[..n], c);
        DivertedIsConnect(cfg, before, e.cookie);
      }
    } else {
      NeverPendingAgain(cfg, es, more[..n], c, key);
    }
  }

  lemma {:induction false} PendingIsEvent(cfg: Config, es: seq<Event>, key: TupleKey)
    ensures var e := Pending(cfg, es, key); e.Some? ==> e.value in es && e.value.Connect? && Diverted(cfg, e.value)
  {
    if es != [] {
      var before, e := es[..|es| - 1], es[|es| - 1];
      PendingIsEvent(cfg, before, key);
      if e.Establish? {
        DivertedIsConnect(cfg, before, e.cookie);
      }
    }
  }

  /** A connection established by socket c on this 4-tuple. */
  ghost predicate Opens(cfg: Config, before: seq<Event>, c: Cookie, client: Endpoint, peer: Endpoint) {
    && Valid(cfg, before + [Establish(c, client)])
    && var last := LastConnect(before, c);
       last.Some? && last.value.Connect? && peer == HookDst(cfg, last.value.mark, last.value.dst)
  }

  lemma OpenedIsSettled(cfg: Config, before: seq<Event>, c: Cookie, client: Endpoint, peer: Endpoint)
    requires Opens(cfg, before, c, client, peer)
    ensures Settled(After(cfg, before + [Establish(c, client)]), c)
    ensures var own, key := LastDiverted(cfg, before, c), KernelKey(client, peer);
            Pending(cfg, before + [Establish(c, client)], key) == if own.Some? then own else Pending(cfg, before, key)
  {
    RunSnoc(cfg, before, Establish(c, client));
    PendingSnoc(cfg, before, Establish(c, client), KernelKey(client, peer));
  }

  /** Per connection, whenever its one lookup comes and whether or not its client is still there: what is pending
      on its 4-tuple is its socket's own diverted connect() if and only if, since it was established, there was no
      lookup of the 4-tuple and no handshake on it by a socket with a diverted attempt. Otherwise nothing is
      pending, or another socket's connect(). */
  lemma ConnectionIsPending(
    cfg: Config, before: seq<Event>, c: Cookie, client: Endpoint, peer: Endpoint, more: seq<Event>, own: Event)
    requires Opens(cfg, before, c, client, peer) && LastDiverted(cfg, before, c) == Some(own)
    requires Valid(cfg, before + [Establish(c, client)] + more)
    ensures var es, key := before + [Establish(c, client)], KernelKey(client, peer);
            && (Pending(cfg, es + more, key) == Some(own) <==> Undisturbed(cfg, es, more, key))
            && (!Undisturbed(cfg, es, more, key) ==>
                  var other := Pending(cfg, es + more, key);
                  other.Some? ==> other.value.Connect? && other.value.cookie != c)
  {
    var es, key := before + [Establish(c, client)], KernelKey(client, peer);
    OpenedIsSettled(cfg, before, c, client, peer);
    DivertedIsConnect(cfg, before, c);
    if Undisturbed(cfg, es, more, key) {
      StaysPending(cfg, es, more, key);
    } else {
      NeverPendingAgain(cfg, es, more, c, key);
    }
  }

  /** What the lookup of that connection returns: its own destination and process if undisturbed, and otherwise
      nothing, or the destination of another socket of the run. */
  lemma ConnectionLookup(
    cfg: Config, before: seq<Event>, c: Cookie, client: Endpoint, peer: Endpoint, more: seq<Event>, own: Event,
    mapped: bool)
    requires Opens(cfg, before, c, client, peer) && LastDiverted(cfg, before, c) == Some(own)
    requires Valid(cfg, before + [Establish(c, client)] + more)
    requires FamilyOf(client.ip) == FamilyOf(peer.ip) && !IsMapped4(peer.ip)
    ensures var es, key := before + [Establish(c, client)], KernelKey(client, peer);
            var found := LookedUp(After(cfg, es + more), client, peer, mapped);
            && own.Connect?
            && (Undisturbed(cfg, es, more, key) ==> found == Some(Save(own.dst, own.pid)))
            && (!Undisturbed(cfg, es, more, key) ==> found == None || OthersEntry(cfg, es + more, c, found.value))
  {
    var es, key := before + [Establish(c, client)], KernelKey(client, peer);
    ConnectionIsPending(cfg, before, c, client, peer, more, own);
    DivertedIsConnect(cfg, before, c);
    TcpInvAlways(cfg, es + more);
    assert EntryOk(cfg, es + more, After(cfg, es + more), key);
    KeysAgree(client, peer);
    PendingIsEvent(cfg, es + more, key);
  }

  /** The entry was saved for a diverted connect() of some other socket. */
  ghost predicate OthersEntry(cfg: Config, es: seq<Event>, c: Cookie, d: OriginalDst) {
    exists e :: e in es && e.Connect? && e.cookie != c && Diverted(cfg, e) && d == Save(e.dst, e.pid)
  }

  /** A connection without a diverted attempt misses, if undisturbed, exactly when nothing was left pending on its
      4-tuple before it. */
  lemma UndivertedLookup(
    cfg: Config, before: seq<Event>, c: Cookie, client: Endpoint, peer: Endpoint, more: seq<Event>, mapped: bool)
    requires Opens(cfg, before, c, client, peer) && LastDiverted(cfg, before, c) == None
    requires Valid(cfg, before + [Establish(c, client)] + more)
    requires FamilyOf(client.ip) == FamilyOf(peer.ip) && !IsMapped4(peer.ip)
    requires Undisturbed(cfg, before + [Establish(c, client)], more, KernelKey(client, peer))
    ensures var es := before + [Establish(c, client)];
            var found := LookedUp(After(cfg, es + more), client, peer, mapped);
            found == None <==> Pending(cfg, before, KernelKey(client, peer)) == None
  {
    var es, key := before + [Establish(c, client)], KernelKey(client, peer);
    OpenedIsSettled(cfg, before, c, client, peer);
    StaysPending(cfg, es, more, key);
    TcpInvAlways(cfg, es + more);
    assert EntryOk(cfg, es + more, After(cfg, es + more), key);
    KeysAgree(client, peer);
  }

  // ----- entries consumed -----

  /** Nothing in `more` completes a handshake on this 4-tuple. */
  ghost predicate NotEstablished(cfg: Config, es: seq<Event>, more: seq<Event>, key: TupleKey) {
    forall i :: 0 <= i < |more| ==> !Establishes(cfg, es + more[..i], more[i], key)
  }

  /** Also beyond the connection's life, and for one already gone when the proxy got to it: after a lookup every
      further one misses until a connection is established on that 4-tuple again. */
  lemma TcpConsumedUntilEstablished(
    cfg: Config, es: seq<Event>, client: Endpoint, peer: Endpoint, mapped: bool, more: seq<Event>,
    mapped': bool)
    requires Valid(cfg, es) && Enabled(cfg, After(cfg, es), AcceptLookup(client, peer, mapped))
    requires Valid(cfg, es + [AcceptLookup(client, peer, mapped)] + more)
    requires NotEstablished(cfg, es + [AcceptLookup(client, peer, mapped)], more, KernelKey(client, peer))
    ensures LookedUp(After(cfg, es + [AcceptLookup(client, peer, mapped)] + more), client, peer, mapped') == None
  {
    var looked := es + [AcceptLookup(client, peer, mapped)];
    PendingSnoc(cfg, es, AcceptLookup(client, peer, mapped), KernelKey(client, peer));
    NothingPending(cfg, looked, more, KernelKey(client, peer));
    TcpLookupExact(cfg, looked + more, client, peer, mapped');
  }

  lemma {:induction false} NothingPending(cfg: Config, es: seq<Event>, more: seq<Event>, key: TupleKey)
    requires Pending(cfg, es, key) == None && NotEstablished(cfg, es, more, key)
    ensures Pending(cfg, es + more, key) == None
    decreases |more|
  {
    if more == [] {
      assert es + more == es;
    } else {
      var n := |more| - 1;
      forall i | 0 <= i < n
        ensures !Establishes(cfg, es + more[..n][..i], more[..n][i], key)
      {
        assert more[..n][..i] == more[..i];
      }
      NothingPending(cfg, es, more[..n], key);
      PendingSnoc(cfg, es + more[..n], more[n], key);
      assert es + more == es + more[..n] + [more[n]];
    }
  }

  /** Such an abandoned attempt can come back: a socket whose diverted attempt fails and which then
      connects to the proxy itself is looked up as the abandoned destination. */
  lemma AbandonedAttemptIsReturned()
    ensures var cfg := Config(8118, 0xFF, {});
            var abandoned := Endpoint(V4(0x0808_0808), 443);
            var direct := Endpoint(LOCALHOST4, 8118);
            var client := Endpoint(LOCALHOST4, 40000);
            var es := [Connect(1, 0, abandoned, 7), Connect(1, 0, direct, 7), Establish(1, client)];
            && Valid(cfg, es)
            && LastConnect(es, 1) == Some(Connect(1, 0, direct, 7)) && Bypassed(cfg, 0, direct)
            && AcceptKey(client, direct) in After(cfg, es).maps.tcpOrig
            && After(cfg, es).maps.tcpOrig[AcceptKey(client, direct)] == Save(abandoned, 7)
  {
    var cfg := Config(8118, 0xFF, {});
    var abandoned := Endpoint(V4(0x0808_0808), 443);
    var direct := Endpoint(LOCALHOST4, 8118);
    var client := Endpoint(LOCALHOST4, 40000);
    var e1, e2, e3 := Connect(1, 0, abandoned, 7), Connect(1, 0, direct, 7), Establish(1, client);
    assert [] + [e1] == [e1] && [e1] + [e2] == [e1, e2] && [e1, e2] + [e3] == [e1, e2, e3];
    RunSnoc(cfg, [], e1);
    RunSnoc(cfg, [e1], e2);
    RunSnoc(cfg, [e1, e2], e3);
    LastConnectSnoc([e1, e2], e3, 1);
    LastConnectSnoc([e1], e2, 1);
  }

  /** And so can a connection that went away unlooked: socket 1 is diverted, established and released before the
      proxy gets to it; socket 2, never diverted, connects to the proxy itself from the same port and is looked up
      as socket 1's destination. */
  lemma UnlookedConnectionIsReturned()
    ensures var cfg := Config(8118, 0xFF, {});
            var dst, proxy, client := Endpoint(V4(0x0808_0808), 443), Endpoint(LOCALHOST4, 8118),
                                      Endpoint(LOCALHOST4, 40000);
            var es := [Connect(1, 0, dst, 7), Establish(1, client), Release(KernelKey(client, proxy)),
                       Connect(2, 0, proxy, 8), Establish(2, client)];
            && Valid(cfg, es) && After(cfg, es).live == map[KernelKey(client, proxy) := 2]
            && LastDiverted(cfg, es, 2) == None
            && LookedUp(After(cfg, es), client, proxy, false) == Some(Save(dst, 7))
  {
    var cfg := Config(8118, 0xFF, {});
    var dst, proxy, client := Endpoint(V4(0x0808_0808), 443), Endpoint(LOCALHOST4, 8118), Endpoint(LOCALHOST4, 40000);
    var key := KernelKey(client, proxy);
    var e1, e2, e3, e4, e5 := Connect(1, 0, dst, 7), Establish(1, client), Release(key),
                              Connect(2, 0, proxy, 8), Establish(2, client);
    var es3, es5 := [e1, e2, e3], [e1, e2, e3, e4, e5];
    FirstThree(cfg, dst, proxy, client);
    assert es3 + [e4] == [e1, e2, e3, e4] && [e1, e2, e3, e4] + [e5] == es5;
    RunSnoc(cfg, es3, e4);
    RunSnoc(cfg, [e1, e2, e3, e4], e5);
    NeverDiverted(cfg, es5, 2);
    KeysAgree(client, proxy);
  }

  /** Two diverted connections on one 4-tuple, the first gone before it was looked up: whichever is looked up first
      gets the second's destination, and the other misses. */
  lemma LookupsCross()
    ensures var cfg := Config(8118, 0xFF, {});
            var a, b := Endpoint(V4(0x0808_0808), 443), Endpoint(V4(0x0101_0101), 80);
            var proxy, client := Endpoint(LOCALHOST4, 8118), Endpoint(LOCALHOST4, 40000);
            var es := [Connect(1, 0, a, 7), Establish(1, client), Release(KernelKey(client, proxy)),
                       Connect(2, 0, b, 8), Establish(2, client)];
            var looked := es + [AcceptLookup(client, proxy, false)];
            && Valid(cfg, es) && LookedUp(After(cfg, es), client, proxy, false) == Some(Save(b, 8))
            && Valid(cfg, looked) && LookedUp(After(cfg, looked), client, proxy, false) == None
  {
    var cfg := Config(8118, 0xFF, {});
    var a, b := Endpoint(V4(0x0808_0808), 443), Endpoint(V4(0x0101_0101), 80);
    var proxy, client := Endpoint(LOCALHOST4, 8118), Endpoint(LOCALHOST4, 40000);
    var e1, e2, e3 := Connect(1, 0, a, 7), Establish(1, client), Release(KernelKey(client, proxy));
    var e4, e5 := Connect(2, 0, b, 8), Establish(2, client);
    FirstThree(cfg, a, proxy, client);
    assert [e1, e2, e3] + [e4] == [e1, e2, e3, e4] && [e1, e2, e3, e4] + [e5] == [e1, e2, e3, e4, e5];
    RunSnoc(cfg, [e1, e2, e3], e4);
    RunSnoc(cfg, [e1, e2, e3, e4], e5);
    KeysAgree(client, proxy);
    RunSnoc(cfg, [e1, e2, e3, e4, e5], AcceptLookup(client, proxy, false));
  }

  lemma FirstThree(cfg: Config, dst: Endpoint, proxy: Endpoint, client: Endpoint)
    requires cfg == Config(8118, 0xFF, {}) && dst == Endpoint(V4(0x0808_0808), 443)
    requires proxy == Endpoint(LOCALHOST4, 8118) && client == Endpoint(LOCALHOST4, 40000)
    ensures var key := KernelKey(client, proxy);
            var es := [Connect(1, 0, dst, 7), Establish(1, client), Release(key)];
            Valid(cfg, es) && After(cfg, es) ==
              State(map[1 := Closed], map[], {}, Maps(map[], map[key := Save(dst, 7)], map[]))
  {
    var key := KernelKey(client, proxy);
    var e1, e2, e3 := Connect(1, 0, dst, 7), Establish(1, client), Release(key);
    assert [] + [e1] == [e1] && [e1] + [e2] == [e1, e2] && [e1, e2] + [e3] == [e1, e2, e3];
    RunSnoc(cfg, [], e1);
    RunSnoc(cfg, [e1], e2);
    RunSnoc(cfg, [e1, e2], e3);
  }

  lemma {:induction false} NeverDiverted(cfg: Config, es: seq<Event>, c: Cookie)
    requires forall i :: 0 <= i < |es| && es[i].Connect? && es[i].cookie == c ==> !Diverted(cfg, es[i])
    ensures LastDiverted(cfg, es, c) == None
  {
    if es != [] {
      NeverDiverted(cfg, es[..|es| - 1], c);
    }
  }

  // ----- UDP -----

  ghost predicate UdpOk(cfg: Config, es: seq<Event>, m: map<UdpKey, OriginalDst>, key: UdpKey) {
    match LatestUnconsumed(cfg, es, key)
    case None => key !in m
    case Some(send) => IsUdp(send) && key in m && m[key] == Save(send.dst, send.pid)
  }

  /** What a step does to the UDP map. */
  lemma UdpMapStep(cfg: Config, s: State, e: Event)
    requires Enabled(cfg, s, e)
    ensures Apply(cfg, s, e).maps.udpOrig ==
              if IsUdp(e) && Diverted(cfg, e)
              then s.maps.udpOrig[UdpKey(e.srcPort, FamilyOf(e.dst.ip)) := Save(e.dst, e.pid)]
              else if e.UdpReceive? then s.maps.udpOrig - {SourceKey(e.src)}
              else s.maps.udpOrig
  {
  }

  lemma UnconsumedSnoc(cfg: Config, es: seq<Event>, e: Event, key: UdpKey)
    ensures LatestUnconsumed(cfg, es + [e], key) ==
              if IsUdp(e) && Diverted(cfg, e) && UdpKey(e.srcPort, FamilyOf(e.dst.ip)) == key then Some(e)
              else if e.UdpReceive? && SourceKey(e.src) == key then None
              else LatestUnconsumed(cfg, es, key)
  {
    assert (es + [e])[..|es + [e]| - 1] == es;
  }

  lemma UdpStep(cfg: Config, es: seq<Event>, s: State, e: Event, key: UdpKey)
    requires UdpOk(cfg, es, s.maps.udpOrig, key) && Enabled(cfg, s, e)
    ensures UdpOk(cfg, es + [e], Apply(cfg, s, e).maps.udpOrig, key)
  {
    UdpMapStep(cfg, s, e);
    UnconsumedSnoc(cfg, es, e, key);
  }

  lemma LastStep(cfg: Config, es: seq<Event>)
    requires Valid(cfg, es) && es != []
    ensures var before, e := es[..|es| - 1], es[|es| - 1];
            && es == before + [e] && Valid(cfg, before) && Enabled(cfg, After(cfg, before), e)
            && After(cfg, es) == Apply(cfg, After(cfg, before), e)
  {
  }

  lemma {:induction false} UdpInvAlways(cfg: Config, es: seq<Event>, key: UdpKey)
    requires Valid(cfg, es)
    ensures UdpOk(cfg, es, After(cfg, es).maps.udpOrig, key)
  {
    if es != [] {
      var before, e := es[..|es| - 1], es[|es| - 1];
      LastStep(cfg, es);
      UdpInvAlways(cfg, before, key);
      UdpStep(cfg, before, After(cfg, before), e, key);
    }
  }

  /** In every interleaving, a UDP lookup yields the latest diverted connect() or send on that port and family that
      no earlier lookup consumed, and misses when there is none. */
  lemma UdpLookupExact(cfg: Config, es: seq<Event>, src: Endpoint)
    requires Valid(cfg, es)
    ensures var s := After(cfg, es);
            match LatestUnconsumed(cfg, es, SourceKey(src))
            case None => SourceKey(src) !in s.maps.udpOrig
            case Some(send) =>
              && send in es && IsUdp(send) && Diverted(cfg, send)
              && SourceKey(src) in s.maps.udpOrig
              && s.maps.udpOrig[SourceKey(src)] == Save(send.dst, send.pid)
              && ToAddr(s.maps.udpOrig[SourceKey(src)]) == send.dst
  {
    UdpInvAlways(cfg, es, SourceKey(src));
    UnconsumedIsEvent(cfg, es, SourceKey(src));
    match LatestUnconsumed(cfg, es, SourceKey(src))
    case None =>
    case Some(send) => SavedDstRoundTrip(send.dst, send.pid);
  }

  /** The source of a diverted datagram as the proxy sees it: the sending port, in the family of the destination. */
  predicate ArrivesFrom(e: Event, src: Endpoint)
    requires IsUdp(e)
  {
    src.port == e.srcPort && if e.dst.ip.V4? then src.ip.V4? || IsMapped4(src.ip) else src.ip.V6? && !IsMapped4(src.ip)
  }

  /** In every run, a diverted connect() or send that is received at once leads to its destination, which is then used
      up. */
  lemma UdpRoundTrip(cfg: Config, es: seq<Event>, e: Event, src: Endpoint)
    requires Valid(cfg, es) && IsUdp(e) && Diverted(cfg, e) && ArrivesFrom(e, src)
    ensures Valid(cfg, es + [e]) && Valid(cfg, es + [e] + [UdpReceive(src)])
    ensures SourceKey(src) in After(cfg, es + [e]).maps.udpOrig
    ensures ToAddr(After(cfg, es + [e]).maps.udpOrig[SourceKey(src)]) == e.dst
    ensures After(cfg, es + [e]).maps.udpOrig[SourceKey(src)].pid == e.pid
    ensures SourceKey(src) !in After(cfg, es + [e] + [UdpReceive(src)]).maps.udpOrig
  {
    assert (es + [e])[..|es|] == es;
    assert (es + [e] + [UdpReceive(src)])[..|es| + 1] == es + [e];
    SavedDstRoundTrip(e.dst, e.pid);
  }

  lemma {:induction false} UnconsumedIsEvent(cfg: Config, es: seq<Event>, key: UdpKey)
    ensures var send := LatestUnconsumed(cfg, es, key);
            send.Some? ==> send.value in es && IsUdp(send.value) && Diverted(cfg, send.value)
  {
    if es != [] {
      UnconsumedIsEvent(cfg, es[..|es| - 1], key);
    }
  }

  // ----- what can stand in the maps at all -----

  ghost predicate Sourced(cfg: Config, es: seq<Event>, d: OriginalDst) {
    exists e :: e in es && Diverted(cfg, e) && d == Save(e.dst, e.pid)
  }

  ghost predicate AllSourced(cfg: Config, es: seq<Event>, m: Maps) {
    && (forall c :: c in m.tcpCookie ==> Sourced(cfg, es, m.tcpCookie[c]))
    && (forall k :: k in m.tcpOrig ==> Sourced(cfg, es, m.tcpOrig[k]))
    && (forall k :: k in m.udpOrig ==> Sourced(cfg, es, m.udpOrig[k]))
  }

  lemma SourcedSnoc(cfg: Config, es: seq<Event>, e: Event, m: Maps)
    requires AllSourced(cfg, es, m)
    ensures AllSourced(cfg, es + [e], m)
  {
    forall d | Sourced(cfg, es, d)
      ensures Sourced(cfg, es + [e], d)
    {
      var o :| o in es && Diverted(cfg, o) && d == Save(o.dst, o.pid);
      assert o in es + [e];
    }
  }

  lemma SourcedStep(cfg: Config, es: seq<Event>, s: State, e: Event)
    requires AllSourced(cfg, es, s.maps) && Enabled(cfg, s, e) && e in es
    ensures AllSourced(cfg, es, Apply(cfg, s, e).maps)
  {
    if Diverted(cfg, e) {
      assert Sourced(cfg, es, Save(e.dst, e.pid));
    }
  }

  lemma {:induction false} AllSourcedAlways(cfg: Config, es: seq<Event>)
    requires Valid(cfg, es)
    ensures AllSourced(cfg, es, After(cfg, es).maps)
  {
    if es != [] {
      var before, e := es[..|es| - 1], es[|es| - 1];
      LastStep(cfg, es);
      AllSourcedAlways(cfg, before);
      SourcedSnoc(cfg, before, e, After(cfg, before).maps);
      SourcedStep(cfg, es, After(cfg, before), e);
    }
  }

  ghost predicate InMaps(m: Maps, d: OriginalDst) {
    || (exists c :: c in m.tcpCookie && m.tcpCookie[c] == d)
    || (exists k :: k in m.tcpOrig && m.tcpOrig[k] == d)
    || (exists k :: k in m.udpOrig && m.udpOrig[k] == d)
  }

  /** Every entry any run ever leaves in a map came from an unmarked socket, is not for DNS, and is
      loopback only as an IPv4-mapped IPv6 address. */
  lemma EntriesAreForeign(cfg: Config, es: seq<Event>, d: OriginalDst)
    requires Valid(cfg, es) && InMaps(After(cfg, es).maps, d)
    ensures |d.ip| == 16 && ToAddr(d).port != 53
    ensures IsLoopback(ToAddr(d).ip) ==> IsMapped4(ToAddr(d).ip)
    ensures exists e :: e in es && Diverted(cfg, e) && e.mark != cfg.bypassMark && e.dst == ToAddr(d)
  {
    AllSourcedAlways(cfg, es);
    assert Sourced(cfg, es, d);
    var e :| e in es && Diverted(cfg, e) && d == Save(e.dst, e.pid);
    SavedDstRoundTrip(e.dst, e.pid);
    assert e.mark != cfg.bypassMark && e.dst == ToAddr(d);
  }

  /** The rewritten destination is a fixed point of the hooks, whatever socket presents it. */
  lemma RewriteIsFixedPoint(
    cfg: Config, mark: U32, dst: Endpoint, mark': U32, c: Cookie, port: U16, protocol: Protocol, pid: U32,
    m: Maps)
    ensures !Bypassed(cfg, mark, dst) ==>
      var again := HookDst(cfg, mark, dst);
      && again == Endpoint(if dst.ip.V4? then V4(0x7F00_0001) else V6(0, 0, 0, 1), cfg.proxyPort)
      && HookDst(cfg, mark', again) == again
      && ConnectMaps(cfg, mark', c, port, protocol, again, pid, m) == m
      && SendMaps(cfg, mark', port, again, pid, m) == m
  {
    assert 0x7F00_0001 / 0x100_0000 == 127;
  }

  // ----- the receiving side -----

  datatype Verdict = Dropped | Handled(dst: Endpoint)

  function ResolveUdpTarget(ebpfMode: bool, cmsg: Option<Endpoint>, found: Option<Endpoint>): Option<Endpoint> {
    if ebpfMode && found.Some? then found else cmsg
  }

  predicate IsSelfProxyTarget(transPort: U16, dst: Endpoint) {
    dst.port == transPort && IsLoopback(dst.ip)
  }

  /** One round of serveTransparentUDP: what becomes of a received datagram. */
  function Serve(ebpfMode: bool, transPort: U16, cmsg: Option<Endpoint>, found: Option<Endpoint>): Verdict {
    match ResolveUdpTarget(ebpfMode, cmsg, found)
    case None => Dropped
    case Some(dst) => if IsSelfProxyTarget(transPort, dst) then Dropped else Handled(dst)
  }

  function Found(m: Maps, src: Endpoint): Option<Endpoint>
    requires forall k :: k in m.udpOrig ==> |m.udpOrig[k].ip| == 16
  {
    if SourceKey(src) in m.udpOrig then Some(ToAddr(m.udpOrig[SourceKey(src)])) else None
  }

  /** In every interleaving, a datagram that arrives at the rewritten address is handled exactly when
      some diverted send is still unconsumed, under that send's own destination; the one exception is
      a send to an IPv4-mapped loopback address on the proxy's port, which is dropped. */
  lemma DatagramsNeverLoop(cfg: Config, es: seq<Event>, src: Endpoint, original: IpAddr)
    requires Valid(cfg, es)
    ensures forall k :: k in After(cfg, es).maps.udpOrig ==> |After(cfg, es).maps.udpOrig[k].ip| == 16
    ensures var verdict := Serve(true, cfg.proxyPort, Some(ProxyEndpoint(cfg, original)),
                                 Found(After(cfg, es).maps, src));
            match LatestUnconsumed(cfg, es, SourceKey(src))
            case None => verdict == Dropped
            case Some(send) =>
              && IsUdp(send)
              && verdict == if IsMapped4(send.dst.ip) && IsLoopback(send.dst.ip) && send.dst.port == cfg.proxyPort
                            then Dropped else Handled(send.dst)
    ensures var verdict := Serve(true, cfg.proxyPort, Some(ProxyEndpoint(cfg, original)),
                                 Found(After(cfg, es).maps, src));
            verdict.Handled? ==> !IsSelfProxyTarget(cfg.proxyPort, verdict.dst)
  {
    AllSourcedAlways(cfg, es);
    UdpLookupExact(cfg, es, src);
    UnconsumedIsEvent(cfg, es, SourceKey(src));
    assert 0x7F00_0001 / 0x100_0000 == 127;
  }

  /** Without the hooks' maps, in TPROXY mode, the control message's own address is what is handled, whatever a lookup
      would find; only a missing or a self address is dropped. */
  lemma TproxyHandlesControlMessage(transPort: U16, cmsg: Option<Endpoint>, found: Option<Endpoint>)
    ensures Serve(false, transPort, cmsg, found) ==
              if cmsg.Some? && !(cmsg.value.port == transPort && IsLoopback(cmsg.value.ip))
              then Handled(cmsg.value) else Dropped
  {
  }

  /** The exception is real: connect6 does divert such an address. */
  lemma MappedLoopbackIsDiverted()
    ensures var cfg := Config(8118, 0xFF, {});
            var dst := Endpoint(V6(0, 0, 0xFFFF, 0x7F00_0001), 8118);
            && Diverted(cfg, UdpSend(0, 40000, dst, 7)) && Diverted(cfg, UdpConnect(1, 0, 40000, dst, 7))
            && IsSelfProxyTarget(8118, dst)
  {
    assert 0x7F00_0001 / 0x100_0000 == 127;
  }
}
