/** The SOCKS5 negotiation (sections 3, 4 and 6 of RFC 1928): the server side, the UDP-associate client
    and the CONNECT client over byte streams. */
module SocksExchange {
  import opened Bytes
  import opened SocksAddress

  // ----- reading an address from a stream -----

  datatype AddrRead = Addr(addr: seq<Byte>) | Unsupported | Short

  /** What readAddr makes of the bytes that will arrive, and what it leaves of them. */
  function ReadAddrSpec(s: seq<Byte>): (AddrRead, seq<Byte>) {
    match SplitAddr(s)
    case Some(a) => (Addr(a), s[|a|..])
    case None =>
      if s != [] && s[0] !in {ATYP_IPV4, ATYP_DOMAIN, ATYP_IPV6} then (Unsupported, s[1..]) else (Short, [])
  }

  class Conn {
    var inbox: seq<Byte>    // what will arrive until the stream ends
    var outbox: seq<Byte>   // what has been written

    constructor (inbox: seq<Byte>)
      ensures this.inbox == inbox && outbox == []
    {
      this.inbox, outbox := inbox, [];
    }

    method ReadFull(n: nat) returns (bs: seq<Byte>, ok: bool)
      modifies this`inbox
      ensures old(inbox) == bs + inbox && ok == (n <= |old(inbox)|)
      ensures if ok then |bs| == n else inbox == []
    {
      ok := n <= |inbox|;
      if ok {
        bs, inbox := inbox[..n], inbox[n..];
      } else {
        bs, inbox := inbox, [];
      }
    }

    method Write(bs: seq<Byte>)
      modifies this`outbox
      ensures outbox == old(outbox) + bs
    {
      outbox := outbox + bs;
    }

    /** readAddr: kind, then for names a length, then the rest. */
    method ReadAddr() returns (r: AddrRead)
      modifies this`inbox
      ensures (r, inbox) == ReadAddrSpec(old(inbox))
    {
      var s := inbox;
      var kind, ok := ReadFull(1);
      if !ok { return Short; }
      if kind[0] == ATYP_DOMAIN {
        var len, ok1 := ReadFull(1);
        if !ok1 { return Short; }
        var rest, ok2 := ReadFull(len[0] as int + 2);
        if !ok2 { return Short; }
        assert s == kind + len + rest + inbox;
        r := Addr(kind + len + rest);
      } else if kind[0] == ATYP_IPV4 {
        var rest, ok1 := ReadFull(6);
        if !ok1 { return Short; }
        assert s == kind + rest + inbox;
        r := Addr(kind + rest);
      } else if kind[0] == ATYP_IPV6 {
        var rest, ok1 := ReadFull(18);
        if !ok1 { return Short; }
        assert s == kind + rest + inbox;
        r := Addr(kind + rest);
      } else {
        r := Unsupported;
      }
    }

    /** Handshake, the server side. */
    method Handshake() returns (r: Handshaken)
      modifies this
      ensures (r, inbox) == HandshakeSpec(old(inbox))
      ensures outbox == old(outbox) + if GreetingLen(old(inbox)).Some? then [5, 0] else []
    {
      ghost var s := inbox;
      var head, ok := ReadFull(2);
      if !ok { return HandshakeFailed(Short); }
      var methods, ok1 := ReadFull(head[1]);
      if !ok1 { return HandshakeFailed(Short); }
      assert s[2 + head[1] as int..] == inbox;
      Write([5, 0]);
      ghost var s1 := inbox;
      var request, ok2 := ReadFull(3);
      if !ok2 { return HandshakeFailed(Short); }
      assert s1[3..] == inbox;
      var target := ReadAddr();
      r := if target.Addr? then Accepted(target.addr, request[1]) else HandshakeFailed(target);
    }

    /** WriteReply; a missing address is sent as 0.0.0.0:0. */
    method WriteReply(rep: Byte, addr: Option<seq<Byte>>)
      modifies this`outbox
      ensures outbox == old(outbox) + Reply(rep, Bound(addr))
      ensures outbox == old(outbox) + ([5, rep, 0] + if addr.None? then [1, 0, 0, 0, 0, 0, 0] else addr.value)
    {
      var a := if addr.None? then [ATYP_IPV4, 0, 0, 0, 0, 0, 0] else addr.value;
      Write([5, rep, 0] + a);
    }

    /** The control exchange of DialUDP. */
    method Associate() returns (r: AddrRead)
      modifies this
      ensures (r, inbox) == AssociateSpec(old(inbox))
      ensures outbox == old(outbox) + [5, 1, 0] + if |old(inbox)| >= 2 then [5, 3, 0, 1, 0, 0, 0, 0, 0, 0] else []
    {
      ghost var s := inbox;
      Write(GREETING);
      var method_, ok := ReadFull(2);
      if !ok { return Short; }
      assert s[2..] == inbox;
      Write(ASSOCIATE);
      ghost var s1 := inbox;
      var head, ok1 := ReadFull(3);
      if !ok1 { return Short; }
      assert s1[3..] == inbox == s[5..];
      r := ReadAddr();
    }

    /** ClientConnect, to a target that ParseAddr has encoded (or not). */
    method ClientConnect(target: Option<seq<Byte>>) returns (r: ConnectResult)
      modifies this
      ensures (r, inbox) == ConnectSpec(target, old(inbox))
      ensures outbox == old(outbox) + [5, 1, 0]
                      + if |old(inbox)| >= 2 && old(inbox)[1] != 0xFF && target.Some?
                        then [5, 1, 0] + target.value else []
    {
      ghost var s := inbox;
      Write(GREETING);
      var method_, ok := ReadFull(2);
      if !ok { return ConnectFailed(Short); }
      if method_[1] == 0xFF { return NotAllowed; }
      assert s[2..] == inbox;
      if target.None? { return ConnectFailed(Unsupported); }
      Write([5, 1, 0] + target.value);
      ghost var s1 := inbox;
      var head, ok1 := ReadFull(4);
      if !ok1 { return ConnectFailed(Short); }
      assert s1[4..] == inbox == s[6..];
      if head[1] != 0 { return ServerError(head[1]); }
      var bound := ReadAddr();
      r := if bound.Addr? then Connected else ConnectFailed(bound);
    }
  }

  // ----- the messages -----

  const GREETING: seq<Byte> := [5, 1, 0]
  const ANY: seq<Byte> := [ATYP_IPV4, 0, 0, 0, 0, 0, 0]
  const ASSOCIATE: seq<Byte> := [5, 3, 0] + ANY

  /** The constant messages, byte for byte. */
  lemma WireMessages(rep: Byte)
    ensures GREETING == [5, 1, 0] && ASSOCIATE == [5, 3, 0, 1, 0, 0, 0, 0, 0, 0]
    ensures Reply(rep, Bound(None)) == [5, rep, 0, 1, 0, 0, 0, 0, 0, 0]
  {
    assert [5, 3, 0] + ANY == [5, 3, 0, 1, 0, 0, 0, 0, 0, 0];
  }

  function Reply(rep: Byte, addr: seq<Byte>): seq<Byte> {
    [5, rep, 0] + addr
  }

  function Bound(addr: Option<seq<Byte>>): seq<Byte> {
    if addr.None? then ANY else addr.value
  }

  datatype Handshaken = Accepted(addr: seq<Byte>, cmd: Byte) | HandshakeFailed(why: AddrRead)

  function GreetingLen(s: seq<Byte>): Option<nat> {
    if |s| < 2 || |s| < 2 + s[1] as int then None else Some(2 + s[1] as int)
  }

  function HandshakeSpec(s: seq<Byte>): (Handshaken, seq<Byte>) {
    match GreetingLen(s)
    case None => (HandshakeFailed(Short), [])
    case Some(g) =>
      var t := s[g..];
      if |t| < 3 then (HandshakeFailed(Short), [])
      else
        var (a, rest) := ReadAddrSpec(t[3..]);
        (if a.Addr? then Accepted(a.addr, t[1]) else HandshakeFailed(a), rest)
  }

  function AssociateSpec(s: seq<Byte>): (AddrRead, seq<Byte>) {
    if |s| < 5 then (Short, []) else ReadAddrSpec(s[5..])
  }

  datatype ConnectResult = Connected | NotAllowed | ServerError(code: Byte) | ConnectFailed(why: AddrRead)

  function ConnectSpec(target: Option<seq<Byte>>, s: seq<Byte>): (ConnectResult, seq<Byte>) {
    if |s| < 2 then (ConnectFailed(Short), [])
    else if s[1] == 0xFF then (NotAllowed, s[2..])
    else if target.None? then (ConnectFailed(Unsupported), s[2..])
    else if |s| < 6 then (ConnectFailed(Short), [])
    else if s[3] != 0 then (ServerError(s[3]), s[6..])
    else
      var (a, rest) := ReadAddrSpec(s[6..]);
      (if a.Addr? then Connected else ConnectFailed(a), rest)
  }

  // ----- what each side consumes -----

  /** readAddr consumes exactly what SplitAddr slices. */
  lemma ReadAddrIsExact(a: seq<Byte>, rest: seq<Byte>)
    ensures ReadAddrSpec(a + rest) == (Addr(a), rest) <==> IsAddr(a)
  {
    SplitIsExact(a + rest, a);
    assert a <= a + rest && (a + rest)[|a|..] == rest;
  }

  /** The server accepts exactly the streams that start with a greeting and a request, takes the command and
      target from the request, and leaves what follows. */
  lemma HandshakeIsExact(s: seq<Byte>, addr: seq<Byte>, cmd: Byte, rest: seq<Byte>)
    ensures HandshakeSpec(s) == (Accepted(addr, cmd), rest) <==>
              IsAddr(addr) && exists v: Byte, methods: seq<Byte>, w: Byte, x: Byte ::
                  StartsSession(s, v, methods, w, cmd, x, addr, rest)
  {
    if HandshakeSpec(s) == (Accepted(addr, cmd), rest) {
      var g := GreetingLen(s).value;
      var t := s[g..];
      SplitIsExact(t[3..], addr);
      assert s == [s[0], s[1]] + s[2..g] + [t[0], t[1], t[2]] + addr + rest;
      assert StartsSession(s, s[0], s[2..g], t[0], cmd, t[2], addr, rest);
    }
    if IsAddr(addr) {
      forall v: Byte, methods: seq<Byte>, w: Byte, x: Byte | StartsSession(s, v, methods, w, cmd, x, addr, rest)
        ensures HandshakeSpec(s) == (Accepted(addr, cmd), rest)
      {
        SessionIsAccepted(s, v, methods, w, cmd, x, addr, rest);
      }
    }
  }

  ghost predicate StartsSession(
    s: seq<Byte>, v: Byte, methods: seq<Byte>, w: Byte, cmd: Byte, x: Byte, addr: seq<Byte>,
    rest: seq<Byte>)
  {
    |methods| <= 255 && s == [v, |methods|] + methods + [w, cmd, x] + addr + rest
  }

  lemma SessionIsAccepted(
    s: seq<Byte>, v: Byte, methods: seq<Byte>, w: Byte, cmd: Byte, x: Byte, addr: seq<Byte>,
    rest: seq<Byte>)
    requires IsAddr(addr) && StartsSession(s, v, methods, w, cmd, x, addr, rest)
    ensures HandshakeSpec(s) == (Accepted(addr, cmd), rest)
  {
    var g := 2 + |methods|;
    assert s[1] == |methods|;
    assert s[g..] == [w, cmd, x] + addr + rest;
    assert s[g..][3..] == addr + rest;
    ReadAddrIsExact(addr, rest);
  }

  /** The UDP-associate client takes from the server's answers exactly those answers. */
  lemma AssociateIsExact(rep: Byte, bound: seq<Byte>, rest: seq<Byte>)
    ensures AssociateSpec([5, 0] + Reply(rep, bound) + rest) == (Addr(bound), rest) <==> IsAddr(bound)
  {
    var s := [5, 0] + Reply(rep, bound) + rest;
    assert s[5..] == bound + rest;
    ReadAddrIsExact(bound, rest);
  }

  /** The UDP client never looks at the reply code: a refusal is taken for a relay address, where the CONNECT client
      reports the code. */
  lemma AssociateIgnoresRefusal(target: seq<Byte>, rep: Byte, bound: seq<Byte>, rest: seq<Byte>)
    requires IsAddr(bound) && rep != 0
    ensures AssociateSpec([5, 0] + Reply(rep, bound) + rest) == (Addr(bound), rest)
    ensures ConnectSpec(Some(target), [5, 0] + Reply(rep, bound) + rest).0 == ServerError(rep)
  {
    AssociateIsExact(rep, bound, rest);
    ConnectReportsRefusal(target, rep, bound, rest);
  }

  /** ClientConnect reads four bytes before the address, so it reads the address without its kind. What becomes of
      a successful reply, for every bound address: it is refused when the second byte is no address kind; otherwise
      an address is read from the second byte on. If that ends inside the bound address the client is connected
      with address bytes still in front of the data; if it ends beyond, the client is connected with data bytes
      missing, or runs dry when there are too few. */
  lemma ConnectOutcome(target: seq<Byte>, bound: seq<Byte>, data: seq<Byte>)
    requires IsAddr(bound)
    ensures var r := ConnectSpec(Some(target), [5, 0] + Reply(0, bound) + data);
            match AddrLen(bound[1..])
            case None => r == (ConnectFailed(Unsupported), bound[2..] + data)
            case Some(n) =>
              if n < |bound| then r == (Connected, bound[1 + n..] + data)
              else if n - (|bound| - 1) <= |data| then r == (Connected, data[n - (|bound| - 1)..])
              else r == (ConnectFailed(Short), [])
  {
    var s, tail := [5, 0] + Reply(0, bound) + data, bound[1..];
    assert s[6..] == tail + data;
    assert s[1] == 0 && s[3] == 0;
    assert AddrLen(tail + data) == AddrLen(tail);
    match AddrLen(tail)
    case None => assert (tail + data)[1..] == bound[2..] + data;
    case Some(n) =>
      if n < |bound| {
        assert (tail + data)[n..] == bound[1 + n..] + data;
      } else if n <= |tail + data| {
        assert (tail + data)[n..] == data[n - |tail|..];
      }
  }

  /** So the client takes exactly a successful reply, whatever follows it, only for these bound addresses. */
  lemma ConnectMisalignment(target: seq<Byte>, bound: seq<Byte>, data: seq<Byte>)
    requires IsAddr(bound)
    ensures ConnectSpec(Some(target), [5, 0] + Reply(0, bound) + data) == (Connected, data) <==>
              || (bound[0] == ATYP_IPV4 && bound[1] == ATYP_DOMAIN && bound[2] == 2)
              || (bound[0] == ATYP_IPV6 && bound[1] == ATYP_DOMAIN && bound[2] == 14)
              || (bound[0] == ATYP_DOMAIN && bound[1] == 3 && bound[2] == 2)
  {
    ConnectOutcome(target, bound, data);
    match AddrLen(bound[1..])
    case None =>
    case Some(n) =>
      assert n < |bound| ==> |bound[1 + n..] + data| == |bound| - 1 - n + |data|;
  }

  /** A server bound to an address 1.x.y.z takes one byte of the data with it. */
  lemma ConnectEatsAByte(target: seq<Byte>, x: Byte, y: Byte, z: Byte, port: U16, first: Byte, data: seq<Byte>)
    ensures ConnectSpec(Some(target), [5, 0]
                        + Reply(0, [ATYP_IPV4, 1, x, y, z] + Put16(port)) + ([first] + data)) == (Connected, data)
  {
    var bound: seq<Byte> := [ATYP_IPV4, 1, x, y, z] + Put16(port);
    ConnectOutcome(target, bound, [first] + data);
    assert ([first] + data)[1..] == data;
  }

  /** Against this program's own server, which always answers with 0.0.0.0:0, ClientConnect never succeeds
      and leaves the rest of the reply unread. */
  lemma ConnectToOwnServer(target: seq<Byte>, data: seq<Byte>)
    ensures ConnectSpec(Some(target), [5, 0] + Reply(0, Bound(None)) + data) ==
      (ConnectFailed(Unsupported), [0, 0, 0, 0, 0] + data)
  {
    var s := [5, 0] + Reply(0, ANY) + data;
    assert s[6..] == [0, 0, 0, 0, 0, 0] + data;
    assert s[6..][1..] == [0, 0, 0, 0, 0] + data;
  }

  /** Any error code the server sends is what the client reports. */
  lemma ConnectReportsRefusal(target: seq<Byte>, rep: Byte, bound: seq<Byte>, data: seq<Byte>)
    requires IsAddr(bound) && rep != 0
    ensures ConnectSpec(Some(target), [5, 0] + Reply(rep, bound) + data) == (ServerError(rep), bound[1..] + data)
  {
    var s := [5, 0] + Reply(rep, bound) + data;
    assert s[6..] == bound[1..] + data;
    assert s[1] == 0 && s[3] == rep;
  }
}
