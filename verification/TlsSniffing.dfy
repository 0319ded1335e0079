/** Sniffing the server name out of a TLS ClientHello without disturbing the connection
    (section 4.1.2 of RFC 8446, section 3 of RFC 6066). */
module TlsSniffing {
  import opened Bytes

  // ----- the extraction -----

  /** The extension loop of extractSNIFromPayload; None is any error. */
  function ScanExtensions(payload: seq<Byte>, offset: nat, end: nat): Option<seq<Byte>>
    requires end <= |payload|
    decreases |payload| + 4 - offset
  {
    if offset + 4 > end then None
    else
      var extType, extLen, body := Get16(payload, offset), Get16(payload, offset + 2), offset + 4;
      if extType != 0 then ScanExtensions(payload, body + extLen, end)
      else if extLen < 5 || body + 5 > end then None
      else
        var nameLen := Get16(payload, body + 3);
        if body + 5 + nameLen <= end then Some(payload[body + 5..body + 5 + nameLen]) else None
  }

  function ExtractSni(payload: seq<Byte>): Option<seq<Byte>> {
    if |payload| < 42 || payload[0] != 1 then None
    else
      var ciphers := 39 + payload[38] as int;
      if ciphers + 2 > |payload| then None
      else
        var compression := ciphers + 2 + Get16(payload, ciphers);
        if compression + 1 > |payload| then None
        else
          var extensions := compression + 1 + payload[compression];
          if extensions + 2 > |payload| then None
          else
            var end := extensions + 2 + Get16(payload, extensions);
            ScanExtensions(payload, extensions + 2, if end > |payload| then |payload| else end)
  }

  /** In bounds and terminating on all bytes. */
  method ExtractSNIFromPayload(payload: seq<Byte>) returns (r: Option<seq<Byte>>)
    ensures r == ExtractSni(payload)
  {
    if |payload| < 42 { return None; }
    if payload[0] != 1 { return None; }
    var sessionIdLen := payload[38];
    var offset := 39 + sessionIdLen as int;
    if offset + 2 > |payload| { return None; }
    var cipherSuitesLen := Get16(payload, offset);
    offset := offset + 2 + cipherSuitesLen;
    if offset + 1 > |payload| { return None; }
    var compressionMethodsLen := payload[offset];
    offset := offset + 1 + compressionMethodsLen;
    if offset + 2 > |payload| { return None; }
    var extensionsLen := Get16(payload, offset);
    offset := offset + 2;
    var end := offset + extensionsLen;
    if end > |payload| {
      end := |payload|;
    }
    while offset + 4 <= end
      invariant ExtractSni(payload) == ScanExtensions(payload, offset, end)
      decreases end + 4 - offset
    {
      var extType := Get16(payload, offset);
      var extLen := Get16(payload, offset + 2);
      offset := offset + 4;
      if extType == 0 {
        if extLen >= 5 && offset + 5 <= end {
          var nameLen := Get16(payload, offset + 3);
          if offset + 5 + nameLen <= end {
            return Some(payload[offset + 5..offset + 5 + nameLen]);
          }
        }
        return None;
      }
      offset := offset + extLen;
    }
    r := None;
  }

  // ----- ClientHello messages, independently of the code -----

  datatype Extension = Extension(kind: U16, data: seq<Byte>)

  predicate ExtensionsOk(es: seq<Extension>) {
    es == [] || (|es[0].data| < 0x1_0000 && ExtensionsOk(es[1..]))
  }

  function EncodeExtensions(es: seq<Extension>): seq<Byte>
    requires ExtensionsOk(es)
  {
    if es == [] then [] else Put16(es[0].kind) + Put16(|es[0].data|) + es[0].data + EncodeExtensions(es[1..])
  }

  /** A server_name_list whose first entry is this host name. */
  function ServerNameList(list: U16, host: seq<Byte>, more: seq<Byte>): seq<Byte>
    requires |host| < 0x1_0000
  {
    Put16(list) + [0] + Put16(|host|) + host + more
  }

  ghost predicate NamesHost(data: seq<Byte>, host: seq<Byte>) {
    |host| < 0x1_0000 && exists list: U16, more: seq<Byte> :: data == ServerNameList(list, host, more)
  }

  /** This is the host of the first server_name extension. */
  ghost predicate FirstServerName(es: seq<Extension>, host: seq<Byte>) {
    es != [] && if es[0].kind == 0 then NamesHost(es[0].data, host) else FirstServerName(es[1..], host)
  }

  predicate NoServerName(es: seq<Extension>) {
    es == [] || (es[0].kind != 0 && NoServerName(es[1..]))
  }

  /** A ClientHello: handshake length, version and random, session id, cipher suites,
      compression methods, extensions. */
  datatype ClientHello = ClientHello(
    length: seq<Byte>, versionAndRandom: seq<Byte>, sessionId: seq<Byte>,
    ciphers: seq<Byte>, compression: seq<Byte>, extensions: seq<Extension>)

  predicate HelloOk(h: ClientHello) {
    && |h.length| == 3 && |h.versionAndRandom| == 34 && |h.sessionId| <= 255
    && |h.ciphers| < 0x1_0000 && |h.compression| <= 255
    && ExtensionsOk(h.extensions) && |EncodeExtensions(h.extensions)| < 0x1_0000
  }

  function EncodeHello(h: ClientHello): seq<Byte>
    requires HelloOk(h)
  {
    Layout([1] + h.length + h.versionAndRandom, h.sessionId, h.ciphers, h.compression, EncodeExtensions(h.extensions))
  }

  function Layout(fixed: seq<Byte>, sid: seq<Byte>, cs: seq<Byte>, cm: seq<Byte>, exts: seq<Byte>): seq<Byte>
    requires |sid| <= 255 && |cs| < 0x1_0000 && |cm| <= 255 && |exts| < 0x1_0000
  {
    fixed + ([|sid|] + (sid + (Put16(|cs|) + (cs + ([|cm|] + (cm + (Put16(|exts|) + exts)))))))
  }

  // ----- extraction finds the name -----

  lemma HeaderOfExtension(payload: seq<Byte>, offset: nat, es: seq<Extension>)
    requires es != [] && ExtensionsOk(es) && Holds(payload, offset, EncodeExtensions(es))
    ensures var n := |es[0].data|;
            && |EncodeExtensions(es)| == 4 + n + |EncodeExtensions(es[1..])| && |payload| >= offset + 4 + n
            && Get16(payload, offset) == es[0].kind && Get16(payload, offset + 2) == n
            && Holds(payload, offset + 4, es[0].data) && Holds(payload, offset + 4 + n, EncodeExtensions(es[1..]))
  {
    var k, n, data, rest := Put16(es[0].kind), Put16(|es[0].data|), es[0].data, EncodeExtensions(es[1..]);
    HoldsParts(payload, offset, k + n + data, rest);
    HoldsParts(payload, offset, k + n, data);
    HoldsParts(payload, offset, k, n);
    Get16At(payload, offset, k, 0);
    Get16At(payload, offset + 2, n, 0);
  }

  lemma HostOfData(payload: seq<Byte>, body: nat, data: seq<Byte>, host: seq<Byte>)
    requires Holds(payload, body, data) && NamesHost(data, host)
    ensures |data| >= 5 + |host| && Get16(payload, body + 3) == |host| && payload[body + 5..body + 5 + |host|] == host
  {
    var list: U16, more: seq<Byte> :| data == ServerNameList(list, host, more);
    var head := Put16(list) + [0];
    HoldsParts(payload, body, head + Put16(|host|) + host, more);
    HoldsParts(payload, body, head + Put16(|host|), host);
    HoldsParts(payload, body, head, Put16(|host|));
    Get16At(payload, body + 3, Put16(|host|), 0);
    HoldsSlice(payload, body + 5, host);
  }

  lemma {:induction false} ScanFindsFirst(payload: seq<Byte>, offset: nat, es: seq<Extension>, host: seq<Byte>)
    requires ExtensionsOk(es) && Holds(payload, offset, EncodeExtensions(es)) && FirstServerName(es, host)
    ensures ScanExtensions(payload, offset, offset + |EncodeExtensions(es)|) == Some(host)
    decreases |es|
  {
    HeaderOfExtension(payload, offset, es);
    if es[0].kind == 0 {
      HostOfData(payload, offset + 4, es[0].data, host);
    } else {
      ScanFindsFirst(payload, offset + 4 + |es[0].data|, es[1..], host);
    }
  }

  lemma {:induction false} ScanFindsNone(payload: seq<Byte>, offset: nat, es: seq<Extension>)
    requires ExtensionsOk(es) && Holds(payload, offset, EncodeExtensions(es)) && NoServerName(es)
    ensures ScanExtensions(payload, offset, offset + |EncodeExtensions(es)|) == None
    decreases |es|
  {
    if es != [] {
      HeaderOfExtension(payload, offset, es);
      ScanFindsNone(payload, offset + 4 + |es[0].data|, es[1..]);
    }
  }

  lemma ScanFinds(payload: seq<Byte>, offset: nat, es: seq<Extension>, host: seq<Byte>)
    requires ExtensionsOk(es) && Holds(payload, offset, EncodeExtensions(es))
    ensures FirstServerName(es, host) ==> ScanExtensions(payload, offset, offset + |EncodeExtensions(es)|) == Some(host)
    ensures NoServerName(es) ==> ScanExtensions(payload, offset, offset + |EncodeExtensions(es)|) == None
  {
    if FirstServerName(es, host) {
      ScanFindsFirst(payload, offset, es, host);
    }
    if NoServerName(es) {
      ScanFindsNone(payload, offset, es);
    }
  }

  lemma ExtractScans(payload: seq<Byte>, s: Byte, c: U16, m: Byte, n: U16)
    requires |payload| >= 44 + s as int + c + m + n && payload[0] == 1 && payload[38] == s
    requires Get16(payload, 39 + s as int) == c && payload[41 + s as int + c] == m
    requires Get16(payload, 42 + s as int + c + m) == n
    ensures ExtractSni(payload) == ScanExtensions(payload, 44 + s as int + c + m, 44 + s as int + c + m + n)
  {
  }

  /** The length fields of the layout stand where the code looks for them. */
  lemma LayoutFields(msg: seq<Byte>, fixed: seq<Byte>, sid: seq<Byte>, cs: seq<Byte>, cm: seq<Byte>, exts: seq<Byte>)
    requires |fixed| == 38 && |sid| <= 255 && |cs| < 0x1_0000 && |cm| <= 255 && |exts| < 0x1_0000
    requires Holds(msg, 0, Layout(fixed, sid, cs, cm, exts))
    ensures |msg| >= 44 + |sid| + |cs| + |cm| + |exts| && msg[0] == fixed[0] && msg[38] == |sid|
    ensures Get16(msg, 39 + |sid|) == |cs| && msg[41 + |sid| + |cs|] == |cm|
    ensures Get16(msg, 42 + |sid| + |cs| + |cm|) == |exts| && Holds(msg, 44 + |sid| + |cs| + |cm|, exts)
  {
    var afterCm := Put16(|exts|) + exts;
    var afterCs := [|cm|] + (cm + afterCm);
    var afterSid := Put16(|cs|) + (cs + afterCs);
    HoldsParts(msg, 0, fixed, [|sid|] + (sid + afterSid));
    ByteAt(msg, 0, fixed, 0);
    HoldsParts(msg, 38, [|sid|], sid + afterSid);
    ByteAt(msg, 38, [|sid|], 0);
    HoldsParts(msg, 39, sid, afterSid);
    HoldsParts(msg, 39 + |sid|, Put16(|cs|), cs + afterCs);
    Get16At(msg, 39 + |sid|, Put16(|cs|), 0);
    HoldsParts(msg, 41 + |sid|, cs, afterCs);
    HoldsParts(msg, 41 + |sid| + |cs|, [|cm|], cm + afterCm);
    ByteAt(msg, 41 + |sid| + |cs|, [|cm|], 0);
    HoldsParts(msg, 42 + |sid| + |cs|, cm, afterCm);
    HoldsParts(msg, 42 + |sid| + |cs| + |cm|, Put16(|exts|), exts);
    Get16At(msg, 42 + |sid| + |cs| + |cm|, Put16(|exts|), 0);
  }

  /** Extraction walks past the rest of a ClientHello and scans exactly its extensions. */
  lemma ExtractReachesExtensions(
    msg: seq<Byte>, fixed: seq<Byte>, sid: seq<Byte>, cs: seq<Byte>, cm: seq<Byte>, exts: seq<Byte>)
    returns (start: nat)
    requires |fixed| == 38 && fixed[0] == 1 && |sid| <= 255 && |cs| < 0x1_0000 && |cm| <= 255 && |exts| < 0x1_0000
    requires Holds(msg, 0, Layout(fixed, sid, cs, cm, exts))
    ensures Holds(msg, start, exts) && ExtractSni(msg) == ScanExtensions(msg, start, start + |exts|)
  {
    LayoutFields(msg, fixed, sid, cs, cm, exts);
    ExtractScans(msg, |sid|, |cs|, |cm|, |exts|);
    start := 44 + |sid| + |cs| + |cm|;
  }

  /** For every payload that starts with a well-formed ClientHello, extraction returns the host
      of the first server_name extension, and an error when there is no such extension. */
  lemma ExtractsFirstServerName(payload: seq<Byte>, h: ClientHello, host: seq<Byte>)
    requires HelloOk(h) && Holds(payload, 0, EncodeHello(h))
    ensures FirstServerName(h.extensions, host) ==> ExtractSni(payload) == Some(host)
    ensures NoServerName(h.extensions) ==> ExtractSni(payload) == None
  {
    var start := ExtractReachesExtensions(payload, [1] + h.length + h.versionAndRandom,
                                          h.sessionId, h.ciphers, h.compression, EncodeExtensions(h.extensions));
    ScanFinds(payload, start, h.extensions, host);
  }

  /** A server_name extension starts here, and its first name is this host. */
  predicate NameAt(payload: seq<Byte>, at: nat, host: seq<Byte>) {
    && at + 9 + |host| <= |payload| && Get16(payload, at) == 0 && Get16(payload, at + 2) >= 5
    && Get16(payload, at + 7) == |host| && payload[at + 9..at + 9 + |host|] == host
  }

  lemma {:induction false} ScanIsSound(payload: seq<Byte>, offset: nat, end: nat, host: seq<Byte>) returns (at: nat)
    requires end <= |payload| && ScanExtensions(payload, offset, end) == Some(host)
    ensures offset <= at && NameAt(payload, at, host)
    decreases |payload| + 4 - offset
  {
    at := offset;
    if Get16(payload, offset) != 0 {
      at := ScanIsSound(payload, offset + 4 + Get16(payload, offset + 2), end, host);
    }
  }

  /** Whatever the bytes, a name that extraction returns stands in them as the first name of a server_name extension,
      behind the fixed part of a ClientHello. */
  lemma ExtractIsSound(payload: seq<Byte>, host: seq<Byte>) returns (at: nat)
    requires ExtractSni(payload) == Some(host)
    ensures payload[0] == 1 && at >= 44 && NameAt(payload, at, host)
  {
    var ciphers := 39 + payload[38] as int;
    var compression := ciphers + 2 + Get16(payload, ciphers);
    var extensions := compression + 1 + payload[compression];
    var end := extensions + 2 + Get16(payload, extensions);
    at := ScanIsSound(payload, extensions + 2, if end > |payload| then |payload| else end, host);
  }

  // ----- the peeking connection -----

  /** What the connection holds: the bytes peeked so far, the part of them the reader still has to
      deliver, and the bytes not yet taken from the socket. */
  datatype Peeking = Peeking(peeked: seq<Byte>, front: seq<Byte>, rest: seq<Byte>)

  /** Everything that reading to the end will deliver. */
  function Pending(c: Peeking): seq<Byte> {
    c.front + c.rest
  }

  ghost predicate PeekingOk(c: Peeking) {
    |c.front| <= |c.peeked| && c.front == c.peeked[|c.peeked| - |c.front|..]
  }

  /** A peek takes from the socket what is missing, as far as the socket delivers it, and starts
      a new reader over everything peeked. */
  function AfterPeek(c: Peeking, n: nat): Peeking {
    var missing := n - |c.peeked|;
    var taken := if missing <= 0 then 0 else if missing <= |c.rest| then missing else |c.rest|;
    if taken == 0 then c else Peeking(c.peeked + c.rest[..taken], c.peeked + c.rest[..taken], c.rest[taken..])
  }

  /** A read takes from the peeked bytes while there are any, and then from the socket. */
  function AfterRead(c: Peeking, size: nat, arrived: nat): (Peeking, seq<Byte>) {
    if c.front != [] then
      var n := if size <= |c.front| then size else |c.front|;
      (c.(front := c.front[n..]), c.front[..n])
    else
      var n := if size <= arrived then size else arrived;
      var m := if n <= |c.rest| then n else |c.rest|;
      (c.(rest := c.rest[m..]), c.rest[..m])
  }

  datatype PeekResult = Bytes(bytes: seq<Byte>) | Short(bytes: seq<Byte>) | Failed

  /** net.Conn with peeking; `broken` says that the socket ends in an error other than end-of-file. */
  class PeekingConn {
    var peeked: seq<Byte>
    var front: seq<Byte>
    var rest: seq<Byte>
    const broken: bool

    ghost function View(): Peeking
      reads this
    {
      Peeking(peeked, front, rest)
    }

    constructor (stream: seq<Byte>, broken: bool)
      ensures View() == Peeking([], [], stream) && this.broken == broken
    {
      peeked, front, rest := [], [], stream;
      this.broken := broken;
    }

    method Peek(n: nat) returns (r: PeekResult)
      modifies this
      ensures View() == AfterPeek(old(View()), n)
      ensures |peeked| >= n ==> r == Bytes(peeked[..n])
      ensures |peeked| < n ==> r == if broken then Failed else Short(peeked)
    {
      if |peeked| >= n {
        return Bytes(peeked[..n]);
      }
      var want := n - |peeked|;
      var read := if want <= |rest| then want else |rest|;
      if read > 0 {
        peeked := peeked + rest[..read];
        front := peeked;
        rest := rest[read..];
      }
      if read < want && broken {
        return Failed;
      }
      if |peeked| < n {
        return Short(peeked);
      }
      r := Bytes(peeked[..n]);
    }

    /** Read into a buffer of the given size; a socket read delivers at most what has arrived. */
    method Read(size: nat, arrived: nat) returns (chunk: seq<Byte>)
      modifies this
      ensures (View(), chunk) == AfterRead(old(View()), size, arrived)
    {
      if front != [] {
        var n := if size <= |front| then size else |front|;
        chunk, front := front[..n], front[n..];
      } else {
        var n := if size <= arrived then size else arrived;
        n := if n <= |rest| then n else |rest|;
        chunk, rest := rest[..n], rest[n..];
      }
    }

    method SniffSNI() returns (r: Option<seq<Byte>>)
      modifies this
      ensures r == Sniffed(old(View()))
      ensures View() == AfterSniff(old(View()))
    {
      var header := Peek(5);
      if !header.Bytes? {
        return None;
      }
      if header.bytes[0] != 22 {
        return None;
      }
      var length := Get16(header.bytes, 3);
      if length > 8192 {
        return None;
      }
      var payload := Peek(5 + length);
      if !payload.Bytes? {
        return None;
      }
      r := ExtractSNIFromPayload(payload.bytes[5..]);
    }
  }

  predicate LooksLikeHandshake(header: seq<Byte>) {
    |header| >= 5 && header[0] == 22 && Get16(header, 3) <= 8192
  }

  /** How many bytes the sniffer asks for after seeing the header. */
  function Wanted(header: seq<Byte>): nat {
    if LooksLikeHandshake(header) then 5 + Get16(header, 3) else 5
  }

  function AfterSniff(c: Peeking): Peeking {
    var first := AfterPeek(c, 5);
    AfterPeek(first, Wanted(first.peeked))
  }

  function SniffedPayload(c: Peeking): Option<seq<Byte>> {
    var header, all := AfterPeek(c, 5).peeked, AfterSniff(c).peeked;
    if LooksLikeHandshake(header) && Wanted(header) <= |all| then Some(all[5..Wanted(header)]) else None
  }

  function Sniffed(c: Peeking): Option<seq<Byte>> {
    match SniffedPayload(c)
    case Some(payload) => ExtractSni(payload)
    case None => None
  }

  /** Peeking conserves the stream exactly when it takes nothing from the socket, or none of the
      peeked bytes has been read yet. */
  lemma PeekConservesExactly(c: Peeking, n: nat)
    requires PeekingOk(c)
    ensures PeekingOk(AfterPeek(c, n))
    ensures Pending(AfterPeek(c, n)) == Pending(c) <==> n <= |c.peeked| || c.rest == [] || |c.front| == |c.peeked|
  {
    if n > |c.peeked| && c.rest != [] {
      var taken := if n - |c.peeked| <= |c.rest| then n - |c.peeked| else |c.rest|;
      assert AfterPeek(c, n) == Peeking(c.peeked + c.rest[..taken], c.peeked + c.rest[..taken], c.rest[taken..]);
      assert c.peeked + c.rest[..taken] + c.rest[taken..] == c.peeked + c.rest;
      assert |c.peeked + c.rest| == |c.peeked| + |c.rest| && |c.front + c.rest| == |c.front| + |c.rest|;
    }
  }

  /** On a fresh connection, for any two bytes: peek one, read it, and peek two; the byte already read is delivered
      again. */
  lemma PeekAfterReadRepeats(a: Byte, b: Byte)
    ensures var c := AfterPeek(Peeking([], [], [a, b]), 1);
            var (read, chunk) := AfterRead(c, 1, 0);
            && chunk == [a] && Pending(read) == [b]
            && Pending(AfterPeek(read, 2)) == [a, b]
  {
    var none: seq<Byte>, one: seq<Byte>, two: seq<Byte> := [], [a], [a, b];
    assert none + two[..1] == one && two[1..] == [b];
    assert one[..1] == one && one[1..] == none;
    assert AfterPeek(Peeking([], [], [a, b]), 1) == Peeking([a], [a], [b]);
    assert AfterRead(Peeking([a], [a], [b]), 1, 0) == (Peeking([a], [], [b]), [a]);
    assert AfterPeek(Peeking([a], [], [b]), 2) == Peeking([a, b], [a, b], []);
  }

  /** Nothing has been read yet, and these bytes are all that was ever sent. */
  ghost predicate Untouched(c: Peeking, stream: seq<Byte>) {
    c.front == c.peeked && c.peeked + c.rest == stream
  }

  lemma PeekOfUntouched(c: Peeking, n: nat, stream: seq<Byte>)
    requires Untouched(c, stream)
    ensures Untouched(AfterPeek(c, n), stream)
    ensures n <= |stream| ==> |AfterPeek(c, n).peeked| >= n
    ensures AfterPeek(c, n).peeked == stream[..|AfterPeek(c, n).peeked|]
  {
    var missing := n - |c.peeked|;
    var taken := if missing <= 0 then 0 else if missing <= |c.rest| then missing else |c.rest|;
    assert c.peeked + c.rest[..taken] + c.rest[taken..] == stream;
  }

  function Record(major: Byte, minor: Byte, payload: seq<Byte>): seq<Byte>
    requires |payload| <= 8192
  {
    [22, major, minor] + Put16(|payload|) + payload
  }

  /** Whatever the stream holds, the sniffer leaves all of it to be read, byte for byte. */
  lemma SniffIsTransparent(stream: seq<Byte>)
    ensures var c := Peeking([], [], stream);
            Pending(AfterSniff(c)) == stream && PeekingOk(AfterSniff(c))
  {
    var c := Peeking([], [], stream);
    PeekOfUntouched(c, 5, stream);
    PeekOfUntouched(AfterPeek(c, 5), Wanted(AfterPeek(c, 5).peeked), stream);
  }

  /** What a sequence of calls, each with its buffer size and what has arrived, delivers in all. */
  function Delivered(c: Peeking, calls: seq<(nat, nat)>): (seq<Byte>, Peeking)
    decreases |calls|
  {
    if calls == [] then ([], c)
    else
      var (next, chunk) := AfterRead(c, calls[0].0, calls[0].1);
      var (more, end) := Delivered(next, calls[1..]);
      (chunk + more, end)
  }

  lemma ReadConserves(c: Peeking, size: nat, arrived: nat)
    ensures AfterRead(c, size, arrived).1 + Pending(AfterRead(c, size, arrived).0) == Pending(c)
  {
  }

  lemma {:induction false} ReadsConserve(c: Peeking, calls: seq<(nat, nat)>)
    ensures Delivered(c, calls).0 + Pending(Delivered(c, calls).1) == Pending(c)
    decreases |calls|
  {
    if calls != [] {
      var (next, chunk) := AfterRead(c, calls[0].0, calls[0].1);
      ReadConserves(c, calls[0].0, calls[0].1);
      ReadsConserve(next, calls[1..]);
      var (more, end) := Delivered(next, calls[1..]);
      assert chunk + more + Pending(end) == chunk + (more + Pending(end));
    }
  }

  /** A call into a buffer that has room, when something has arrived. */
  predicate Useful(call: (nat, nat)) {
    call.0 > 0 && call.1 > 0
  }

  /** A read never overruns the buffer, and never waits for bytes that have not arrived. */
  lemma ReadFits(c: Peeking, size: nat, arrived: nat)
    ensures |AfterRead(c, size, arrived).1| <= size
    ensures c.front == [] ==> |AfterRead(c, size, arrived).1| <= arrived
    ensures c.front != [] ==> AfterRead(c, size, arrived).0.rest == c.rest
  {
  }

  lemma ReadProgresses(c: Peeking, size: nat, arrived: nat)
    requires size > 0 && (c.front != [] || arrived > 0) && Pending(c) != []
    ensures AfterRead(c, size, arrived).1 != []
    ensures |Pending(AfterRead(c, size, arrived).0)| < |Pending(c)|
  {
    ReadConserves(c, size, arrived);
  }

  /** Reading gets there: as many useful calls as there are bytes left deliver them all, in order. */
  lemma {:induction false} ReadsFinish(c: Peeking, calls: seq<(nat, nat)>)
    requires |calls| >= |Pending(c)| && forall i :: 0 <= i < |calls| ==> Useful(calls[i])
    ensures Delivered(c, calls).0 == Pending(c) && Pending(Delivered(c, calls).1) == []
    decreases |calls|
  {
    ReadsConserve(c, calls);
    if Pending(c) == [] {
      assert |Delivered(c, calls).0| + |Pending(Delivered(c, calls).1)| == 0;
    } else {
      var (next, chunk) := AfterRead(c, calls[0].0, calls[0].1);
      assert Useful(calls[0]);
      ReadProgresses(c, calls[0].0, calls[0].1);
      ReadConserves(c, calls[0].0, calls[0].1);
      ReadsFinish(next, calls[1..]);
    }
  }

  /** For every stream, whatever the sniffer concluded, any later reads deliver the stream from its first
      byte on, and what they have not delivered is still to come. */
  lemma SniffThenReads(stream: seq<Byte>, calls: seq<(nat, nat)>)
    ensures var (got, end) := Delivered(AfterSniff(Peeking([], [], stream)), calls); got + Pending(end) == stream
  {
    SniffIsTransparent(stream);
    ReadsConserve(AfterSniff(Peeking([], [], stream)), calls);
  }

  /** On a stream that starts with a TLS record the sniffer reports what extraction finds in that record. */
  lemma SniffReadsRecord(stream: seq<Byte>, major: Byte, minor: Byte, payload: seq<Byte>)
    requires |payload| <= 8192 && Holds(stream, 0, Record(major, minor, payload))
    ensures Sniffed(Peeking([], [], stream)) == ExtractSni(payload)
  {
    var length := Put16(|payload|);
    HoldsParts(stream, 0, [22, major, minor] + length, payload);
    HoldsParts(stream, 0, [22, major, minor], length);
    ByteAt(stream, 0, [22, major, minor], 0);
    Get16At(stream, 3, length, 0);
    HoldsSlice(stream, 5, payload);
    SniffOfHandshake(stream, |payload|);
  }

  lemma SniffOfHandshake(stream: seq<Byte>, n: nat)
    requires |stream| >= 5 + n && stream[0] == 22 && Get16(stream, 3) == n <= 8192
    ensures SniffedPayload(Peeking([], [], stream)) == Some(stream[5..5 + n])
  {
    PeekFurther(stream, 0, 5);
    assert Peeked(stream, 0) == Peeking([], [], stream);
    assert stream[..5][0] == stream[0] && Get16(stream[..5], 3) == n;
    PeekFurther(stream, 5, 5 + n);
    assert stream[..5 + n][5..5 + n] == stream[5..5 + n];
  }

  /** Nothing has been read and so much has been peeked. */
  function Peeked(stream: seq<Byte>, n: nat): Peeking
    requires n <= |stream|
  {
    Peeking(stream[..n], stream[..n], stream[n..])
  }

  lemma PeekFurther(stream: seq<Byte>, n: nat, m: nat)
    requires n <= m <= |stream|
    ensures AfterPeek(Peeked(stream, n), m) == Peeked(stream, m)
  {
    assert stream[..n] + stream[n..][..m - n] == stream[..m];
    assert stream[n..][m - n..] == stream[m..];
  }

  lemma PeekBeyond(stream: seq<Byte>, n: nat, m: nat)
    requires n <= |stream| <= m
    ensures AfterPeek(Peeked(stream, n), m) == Peeked(stream, |stream|)
  {
    assert stream[..n] + stream[n..] == stream && stream[..|stream|] == stream;
    assert stream[n..][..|stream| - n] == stream[n..];
  }

  /** How much of the stream the sniffer looks at: the header, and the record too when it is a handshake record of at
      most 8192 bytes; less only if the stream ends before. */
  function Looked(stream: seq<Byte>): (n: nat)
    ensures n <= |stream|
  {
    if |stream| < 5 then |stream|
    else if stream[0] != 22 || Get16(stream, 3) > 8192 then 5
    else if |stream| < 5 + Get16(stream, 3) then |stream| else 5 + Get16(stream, 3)
  }

  /** For every stream, what the sniffer concludes and how far it looks: it reports a name exactly from a complete
      handshake record of at most 8192 bytes, and nothing from anything else. */
  lemma SniffExact(stream: seq<Byte>)
    ensures AfterSniff(Peeking([], [], stream)) == Peeked(stream, Looked(stream))
    ensures Sniffed(Peeking([], [], stream)) ==
              if |stream| >= 5 && stream[0] == 22 && Get16(stream, 3) <= 8192 && |stream| >= 5 + Get16(stream, 3)
              then ExtractSni(stream[5..5 + Get16(stream, 3)]) else None
  {
    assert Peeked(stream, 0) == Peeking([], [], stream);
    if |stream| < 5 {
      PeekBeyond(stream, 0, 5);
    } else {
      PeekFurther(stream, 0, 5);
      HeaderPeeked(stream);
      var n := Wanted(stream[..5]);
      if n <= |stream| {
        PeekFurther(stream, 5, n);
        assert stream[..n][5..n] == stream[5..n];
      } else {
        PeekBeyond(stream, 5, n);
      }
    }
  }

  lemma HeaderPeeked(stream: seq<Byte>)
    requires |stream| >= 5
    ensures stream[..5][0] == stream[0] && Get16(stream[..5], 3) == Get16(stream, 3)
  {
  }

  /** A connection that opens with a ClientHello is given its server name, and loses nothing by it. */
  lemma SniffsServerName(
    stream: seq<Byte>, major: Byte, minor: Byte, payload: seq<Byte>, h: ClientHello, host: seq<Byte>)
    requires |payload| <= 8192 && Holds(stream, 0, Record(major, minor, payload))
    requires HelloOk(h) && Holds(payload, 0, EncodeHello(h)) && FirstServerName(h.extensions, host)
    ensures Sniffed(Peeking([], [], stream)) == Some(host) && Pending(AfterSniff(Peeking([], [], stream))) == stream
  {
    SniffReadsRecord(stream, major, minor, payload);
    ExtractsFirstServerName(payload, h, host);
    SniffIsTransparent(stream);
  }
}
