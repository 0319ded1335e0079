/** The DNS responder of the fake-IP pool: it parses a single question and answers A queries with the
    domain's fake address (section 4.1 of RFC 1035). */
module DnsResponder {
  import opened Bytes
  import opened FakeIp

  const DOT: Byte := 46

  /** A packet is the first n bytes of the buffer it was read into, and Go lets a slice of it reach to the end of
      that buffer. SliceFault stands for the run-time panic of slicing beyond the buffer. */
  datatype DnsResult = Reply(response: seq<Byte>, domain: Domain) | Refused | SliceFault

  // ----- the code -----

  /** parseDomain from `curr`, with `domain` read so far. */
  function ParseFrom(data: seq<Byte>, curr: nat, domain: Domain): (r: Option<(Domain, nat)>)
    ensures r.Some? ==> curr < r.value.1 <= |data|
    decreases |data| - curr
  {
    if curr >= |data| then None
    else
      var length := data[curr];
      if length == 0 then Some((domain, curr + 1))
      else if curr + 1 + length > |data| then None
      else
        var dotted := if domain != [] then domain + [DOT] else domain;
        ParseFrom(data, curr + 1 + length, dotted + data[curr + 1..curr + 1 + length])
  }

  method ParseDomain(data: seq<Byte>, offset: nat) returns (r: Option<(Domain, nat)>)
    ensures r == ParseFrom(data, offset, [])
  {
    var domain: Domain := [];
    var curr := offset;
    while true
      invariant ParseFrom(data, offset, []) == ParseFrom(data, curr, domain)
      decreases |data| - curr
    {
      if curr >= |data| { return None; }
      var length := data[curr];
      if length == 0 { return Some((domain, curr + 1)); }
      if domain != [] { domain := domain + [DOT]; }
      if curr + 1 + length > |data| { return None; }
      domain := domain + data[curr + 1..curr + 1 + length];
      curr := curr + 1 + length;
    }
  }

  function Header(query: seq<Byte>, answers: Byte): seq<Byte>
    requires |query| >= 12
  {
    query[..2] + [0x81, 0x80] + query[4..6] + [0, answers, 0, 0, 0, 0]
  }

  function AnswerRecord(ip: U32): seq<Byte> {
    [0xC0, 0x0C, 0, 1, 0, 1, 0, 0, 0, 60, 0, 4] + Put32(ip)
  }

  /** What follows once the name has been parsed up to `offset`. */
  function AfterName(p: Pool, buf: seq<Byte>, domain: Domain, offset: nat): (Pool, DnsResult)
    requires 12 <= offset && |buf| >= 12
  {
    if offset + 2 > |buf| then (p, SliceFault)
    else
      var qType := Get16(buf, offset);
      if qType != 1 && qType != 28 then (p, Refused)
      else if offset + 4 > |buf| then (if qType == 1 then GetIp(p, domain).0 else p, SliceFault)
      else if qType == 28 then (p, Reply(Header(buf, 0) + buf[12..offset + 4], domain))
      else
        var (p', ip) := GetIp(p, domain);
        (p', Reply(Header(buf, 1) + buf[12..offset + 4] + AnswerRecord(ip), domain))
  }

  function HandleQuery(p: Pool, buf: seq<Byte>, n: nat): (Pool, DnsResult)
    requires n <= |buf|
  {
    if n < 12 || Get16(buf, 4) != 1 then (p, Refused)
    else
      match ParseFrom(buf[..n], 12, [])
      case None => (p, Refused)
      case Some((domain, offset)) => AfterName(p, buf, domain, offset)
  }

  method HandleDNSQuery(pool: FakeIPPool, buf: seq<Byte>, n: nat) returns (r: DnsResult)
    requires n <= |buf|
    modifies pool
    ensures (pool.View(), r) == HandleQuery(old(pool.View()), buf, n)
  {
    if n < 12 { return Refused; }
    var qdCount := Get16(buf, 4);
    if qdCount != 1 { return Refused; }
    var parsed := ParseDomain(buf[..n], 12);
    if parsed.None? { return Refused; }
    var (domain, offset) := parsed.value;
    if offset + 2 > |buf| { return SliceFault; }
    var qType := Get16(buf, offset);
    if qType != 1 {
      if qType == 28 {
        if offset + 4 > |buf| { return SliceFault; }
        return Reply(Header(buf, 0) + buf[12..offset + 4], domain);
      }
      return Refused;
    }
    var ip := pool.GetIP(domain);
    if offset + 4 > |buf| { return SliceFault; }
    var response := Header(buf, 1);
    response := response + buf[12..offset + 4];
    response := response + AnswerRecord(ip);
    r := Reply(response, domain);
  }

  // ----- the wire format, independently of the code -----

  type Label = seq<Byte>

  predicate LabelsOk(labels: seq<Label>) {
    forall i :: 0 <= i < |labels| ==> 0 < |labels[i]| < 64
  }

  function EncodeName(labels: seq<Label>): (bs: seq<Byte>)
    requires LabelsOk(labels)
  {
    if labels == [] then [0] else [|labels[0]|] + labels[0] + EncodeName(labels[1..])
  }

  /** The dotted name; 46 is the full stop. */
  function Join(labels: seq<Label>): Domain {
    if labels == [] then [] else if |labels| == 1 then labels[0] else labels[0] + [46] + Join(labels[1..])
  }

  /** A name of a message: labels, ended by a zero byte or by a pointer to before where the name started. */
  function DecodeName(msg: seq<Byte>, start: nat, pos: nat): Option<(seq<Label>, nat)>
    decreases start, |msg| - pos
  {
    if pos >= |msg| then None
    else if msg[pos] == 0 then Some(([], pos + 1))
    else if msg[pos] < 64 then
      var next := pos + 1 + msg[pos];
      if next > |msg| then None
      else
        match DecodeName(msg, start, next)
        case None => None
        case Some((rest, end)) => Some(([msg[pos + 1..next]] + rest, end))
    else if msg[pos] < 192 || pos + 1 >= |msg| then None
    else
      var target := (msg[pos] as int - 192) * 0x100 + msg[pos + 1];
      if target >= start then None
      else
        match DecodeName(msg, target, target)
        case None => None
        case Some((labels, _)) => Some((labels, pos + 2))
  }

  datatype Answer = Answer(id: U16, question: seq<Label>, owner: seq<Label>, ttl: U32, ip: U32)

  /** A response with one question and one A record in class IN. */
  function DecodeAnswer(msg: seq<Byte>): Option<Answer> {
    if |msg| < 12 || Get16(msg, 2) != 0x8180 || Get16(msg, 4) != 1 || Get16(msg, 6) != 1 then None
    else
      match DecodeName(msg, 12, 12)
      case None => None
      case Some((question, q)) =>
        if q + 4 > |msg| || Get16(msg, q) != 1 || Get16(msg, q + 2) != 1 then None
        else
          match DecodeName(msg, q + 4, q + 4)
          case None => None
          case Some((owner, a)) =>
            if a + 14 > |msg| || Get16(msg, a) != 1 || Get16(msg, a + 2) != 1 || Get16(msg, a + 8) != 4 then None
            else Some(Answer(Get16(msg, 0), question, owner, Get32(msg, a + 4), Get32(msg, a + 10)))
  }

  /** A query: some identifier and flags, one question of type A in class IN, anything after it. */
  function Query(id: U16, flags: U16, counts: seq<Byte>, labels: seq<Label>, rest: seq<Byte>): seq<Byte>
    requires LabelsOk(labels) && |counts| == 6
  {
    Put16(id) + Put16(flags) + [0, 1] + counts + (EncodeName(labels) + [0, 1, 0, 1]) + rest
  }

  // ----- names -----

  /** A domain read so far, with further labels added one by one. */
  function Extended(domain: Domain, labels: seq<Label>): Domain
    decreases |labels|
  {
    if labels == [] then domain
    else Extended((if domain != [] then domain + [DOT] else domain) + labels[0], labels[1..])
  }

  lemma {:induction false} ExtendedIsJoin(domain: Domain, labels: seq<Label>)
    requires LabelsOk(labels)
    ensures Extended(domain, labels) ==
            if labels == [] then domain else if domain == [] then Join(labels) else domain + [DOT] + Join(labels)
    decreases |labels|
  {
    if labels != [] {
      var longer := (if domain != [] then domain + [DOT] else domain) + labels[0];
      ExtendedIsJoin(longer, labels[1..]);
      if |labels| > 1 {
        var rest := Join(labels[1..]);
        assert domain + [DOT] + labels[0] + [DOT] + rest == domain + [DOT] + (labels[0] + [DOT] + rest);
      }
    }
  }

  lemma {:induction false} ParsesEncoded(data: seq<Byte>, curr: nat, labels: seq<Label>, domain: Domain)
    requires LabelsOk(labels) && Holds(data, curr, EncodeName(labels))
    ensures ParseFrom(data, curr, domain) == Some((Extended(domain, labels), curr + |EncodeName(labels)|))
    decreases |labels|
  {
    ByteAt(data, curr, EncodeName(labels), 0);
    if labels != [] {
      var l := labels[0];
      HoldsParts(data, curr, [|l|] + l, EncodeName(labels[1..]));
      HoldsParts(data, curr, [|l|], l);
      HoldsSlice(data, curr + 1, l);
      ParsesEncoded(data, curr + 1 + |l|, labels[1..], (if domain != [] then domain + [DOT] else domain) + l);
    }
  }

  lemma {:induction false} DecodesEncoded(msg: seq<Byte>, start: nat, pos: nat, labels: seq<Label>)
    requires LabelsOk(labels) && Holds(msg, pos, EncodeName(labels))
    ensures DecodeName(msg, start, pos) == Some((labels, pos + |EncodeName(labels)|))
    decreases |labels|
  {
    ByteAt(msg, pos, EncodeName(labels), 0);
    if labels != [] {
      var l := labels[0];
      HoldsParts(msg, pos, [|l|] + l, EncodeName(labels[1..]));
      HoldsParts(msg, pos, [|l|], l);
      HoldsSlice(msg, pos + 1, l);
      DecodesEncoded(msg, start, pos + 1 + |l|, labels[1..]);
      assert labels == [l] + labels[1..];
    }
  }

  // ----- what a well-formed A query gets -----

  lemma Layout(a: seq<Byte>, b: seq<Byte>, c: seq<Byte>, d: seq<Byte>, body: seq<Byte>, rest: seq<Byte>)
    requires |a| == |b| == |c| == 2 && |d| == 6
    ensures var q := a + b + c + d + body + rest; Holds(q, 0, a) && Holds(q, 4, c) && Holds(q, 12, body)
  {
    var q := a + b + c + d + body + rest;
    HoldsMiddle([], a, b + c + d + body + rest);
    assert [] + a + (b + c + d + body + rest) == q;
    HoldsMiddle(a + b, c, d + body + rest);
    assert a + b + c + (d + body + rest) == q;
    HoldsMiddle(a + b + c + d, body, rest);
  }

  lemma QueryParts(id: U16, flags: U16, counts: seq<Byte>, labels: seq<Label>, rest: seq<Byte>)
    requires LabelsOk(labels) && |counts| == 6
    ensures var q := Query(id, flags, counts, labels, rest);
            && |q| == 16 + |EncodeName(labels)| + |rest|
            && Holds(q, 0, Put16(id)) && Holds(q, 4, [0, 1]) && Holds(q, 12, EncodeName(labels) + [0, 1, 0, 1])
  {
    Layout(Put16(id), Put16(flags), [0, 1], counts, EncodeName(labels) + [0, 1, 0, 1], rest);
  }

  lemma NameParses(q: seq<Byte>, pos: nat, labels: seq<Label>)
    requires LabelsOk(labels) && Holds(q, pos, EncodeName(labels))
    ensures ParseFrom(q, pos, []) == Some((Join(labels), pos + |EncodeName(labels)|))
  {
    ParsesEncoded(q, pos, labels, []);
    ExtendedIsJoin([], labels);
  }

  /** parseDomain returns the dotted name and the offset just past the encoded name. */
  lemma WellFormedQueryParses(id: U16, flags: U16, counts: seq<Byte>, labels: seq<Label>, rest: seq<Byte>)
    requires LabelsOk(labels) && |counts| == 6
    ensures ParseFrom(Query(id, flags, counts, labels, rest), 12, []) == Some((Join(labels), 12 + |EncodeName(labels)|))
  {
    var q := Query(id, flags, counts, labels, rest);
    QueryParts(id, flags, counts, labels, rest);
    HoldsParts(q, 12, EncodeName(labels), [0, 1, 0, 1]);
    NameParses(q, 12, labels);
  }

  /** The response the code builds for such a query, written out. */
  function Response(id: U16, labels: seq<Label>, ip: U32): seq<Byte>
    requires LabelsOk(labels)
  {
    ResponseHead(id) + (EncodeName(labels) + [0, 1, 0, 1]) + AnswerRecord(ip)
  }

  function ResponseHead(id: U16): seq<Byte> {
    Put16(id) + [0x81, 0x80, 0, 1, 0, 1, 0, 0, 0, 0]
  }

  lemma ParsedIsAnswered(p: Pool, q: seq<Byte>, id: U16, labels: seq<Label>)
    requires LabelsOk(labels)
    requires Holds(q, 0, Put16(id)) && Holds(q, 4, [0, 1]) && Holds(q, 12, EncodeName(labels) + [0, 1, 0, 1])
    ensures var (p', ip) := GetIp(p, Join(labels));
            AfterName(p, q, Join(labels), 12 + |EncodeName(labels)|) ==
              (p', Reply(Response(id, labels, ip), Join(labels)))
  {
    var offset := 12 + |EncodeName(labels)|;
    HoldsSlice(q, 12, EncodeName(labels) + [0, 1, 0, 1]);
    HoldsSlice(q, 0, Put16(id));
    Get16At(q, 4, [0, 1], 0);
    HoldsParts(q, 12, EncodeName(labels), [0, 1, 0, 1]);
    Get16At(q, offset, [0, 1, 0, 1], 0);
    assert Header(q, 1) == ResponseHead(id);
  }

  lemma HoldsInFront(q: seq<Byte>, behind: seq<Byte>, pos: nat, piece: seq<Byte>)
    requires Holds(q, pos, piece)
    ensures Holds(q + behind, pos, piece)
  {
  }

  /** Every well-formed A query is answered from the pool, whatever follows it in its packet and whatever stands
      behind the packet in the buffer. */
  lemma QueryIsAnswered(
    p: Pool, id: U16, flags: U16, counts: seq<Byte>, labels: seq<Label>, rest: seq<Byte>,
    behind: seq<Byte>)
    requires LabelsOk(labels) && |counts| == 6
    ensures var q := Query(id, flags, counts, labels, rest);
            var (p', ip) := GetIp(p, Join(labels));
            HandleQuery(p, q + behind, |q|) == (p', Reply(Response(id, labels, ip), Join(labels)))
  {
    var q := Query(id, flags, counts, labels, rest);
    QueryParts(id, flags, counts, labels, rest);
    WellFormedQueryParses(id, flags, counts, labels, rest);
    AnsweredInBuffer(p, q, behind, id, labels);
  }

  lemma AnsweredInBuffer(p: Pool, q: seq<Byte>, behind: seq<Byte>, id: U16, labels: seq<Label>)
    requires LabelsOk(labels)
    requires Holds(q, 0, Put16(id)) && Holds(q, 4, [0, 1]) && Holds(q, 12, EncodeName(labels) + [0, 1, 0, 1])
    requires ParseFrom(q, 12, []) == Some((Join(labels), 12 + |EncodeName(labels)|))
    ensures var (p', ip) := GetIp(p, Join(labels));
            HandleQuery(p, q + behind, |q|) == (p', Reply(Response(id, labels, ip), Join(labels)))
  {
    Get16At(q, 4, [0, 1], 0);
    HandleInBuffer(p, q, behind, 12 + |EncodeName(labels)|);
    HoldsInFront(q, behind, 0, Put16(id));
    HoldsInFront(q, behind, 4, [0, 1]);
    HoldsInFront(q, behind, 12, EncodeName(labels) + [0, 1, 0, 1]);
    ParsedIsAnswered(p, q + behind, id, labels);
  }

  // ----- queries of other types -----

  /** A query like the one above, of any type. */
  function TypedQuery(
    id: U16, flags: U16, counts: seq<Byte>, labels: seq<Label>, qtype: U16, rest: seq<Byte>): seq<Byte>
    requires LabelsOk(labels) && |counts| == 6
  {
    Put16(id) + Put16(flags) + [0, 1] + counts + Question(labels, qtype) + rest
  }

  function Question(labels: seq<Label>, qtype: U16): seq<Byte>
    requires LabelsOk(labels)
  {
    EncodeName(labels) + (Put16(qtype) + [0, 1])
  }

  lemma TypedQueryParts(id: U16, flags: U16, counts: seq<Byte>, labels: seq<Label>, qtype: U16, rest: seq<Byte>)
    requires LabelsOk(labels) && |counts| == 6
    ensures var q := TypedQuery(id, flags, counts, labels, qtype, rest);
            Holds(q, 0, Put16(id)) && Holds(q, 4, [0, 1]) && Holds(q, 12, Question(labels, qtype))
  {
    Layout(Put16(id), Put16(flags), [0, 1], counts, Question(labels, qtype), rest);
  }

  lemma OtherTypeAfterName(p: Pool, q: seq<Byte>, id: U16, labels: seq<Label>, qtype: U16)
    requires LabelsOk(labels) && qtype != 1
    requires Holds(q, 0, Put16(id)) && Holds(q, 4, [0, 1]) && Holds(q, 12, Question(labels, qtype))
    ensures AfterName(p, q, Join(labels), 12 + |EncodeName(labels)|) ==
              (p, if qtype == 28 then Reply(EmptyResponse(id, labels), Join(labels)) else Refused)
  {
    var offset, tail := 12 + |EncodeName(labels)|, Put16(qtype) + [0, 1];
    HoldsParts(q, 12, EncodeName(labels), tail);
    Get16At(q, offset, tail, 0);
    assert Get16(tail, 0) == Get16(Put16(qtype), 0) == qtype;
    if qtype == 28 {
      HoldsSlice(q, 12, Question(labels, qtype));
      HoldsSlice(q, 0, Put16(id));
      HoldsSlice(q, 4, [0, 1]);
      assert Header(q, 0) == EmptyHead(id);
    }
  }

  function EmptyHead(id: U16): seq<Byte> {
    Put16(id) + [0x81, 0x80, 0, 1, 0, 0, 0, 0, 0, 0]
  }

  /** The question of the query, and no answer. */
  function EmptyResponse(id: U16, labels: seq<Label>): seq<Byte>
    requires LabelsOk(labels)
  {
    EmptyHead(id) + Question(labels, 28)
  }

  /** A query for anything but A takes no address out of the pool: an AAAA query gets the empty response, and every
      other query is refused. */
  lemma OtherQueriesLeaveThePool(
    p: Pool, id: U16, flags: U16, counts: seq<Byte>, labels: seq<Label>, qtype: U16, rest: seq<Byte>, behind: seq<Byte>)
    requires LabelsOk(labels) && |counts| == 6 && qtype != 1
    ensures var q := TypedQuery(id, flags, counts, labels, qtype, rest);
            HandleQuery(p, q + behind, |q|) ==
              (p, if qtype == 28 then Reply(EmptyResponse(id, labels), Join(labels)) else Refused)
  {
    var q := TypedQuery(id, flags, counts, labels, qtype, rest);
    TypedQueryParts(id, flags, counts, labels, qtype, rest);
    HoldsParts(q, 12, EncodeName(labels), Put16(qtype) + [0, 1]);
    NameParses(q, 12, labels);
    Get16At(q, 4, [0, 1], 0);
    HandleInBuffer(p, q, behind, 12 + |EncodeName(labels)|);
    HoldsInFront(q, behind, 0, Put16(id));
    HoldsInFront(q, behind, 4, [0, 1]);
    HoldsInFront(q, behind, 12, Question(labels, qtype));
    OtherTypeAfterName(p, q + behind, id, labels, qtype);
  }

  /** Decoded, the empty response has the identifier and the question of the query and no record of any kind. */
  lemma EmptyResponseDecodes(id: U16, labels: seq<Label>)
    requires LabelsOk(labels)
    ensures var r, q := EmptyResponse(id, labels), 12 + |EncodeName(labels)|;
            && |r| == q + 4 && Get16(r, 0) == id && Get16(r, 2) == 0x8180
            && Get16(r, 4) == 1 && Get16(r, 6) == 0 && Get16(r, 8) == 0 && Get16(r, 10) == 0
            && DecodeName(r, 12, 12) == Some((labels, q)) && Get16(r, q) == 28 && Get16(r, q + 2) == 1
  {
    var r, head, tail := EmptyResponse(id, labels), EmptyHead(id), Put16(28) + [0, 1];
    HoldsMiddle([], head, Question(labels, 28));
    assert [] + head + Question(labels, 28) == r;
    HoldsMiddle(head, Question(labels, 28), []);
    assert head + Question(labels, 28) + [] == r;
    HoldsParts(r, 12, EncodeName(labels), tail);
    DecodesEncoded(r, 12, 12, labels);
    EmptyHeadDecodes(r, id);
    Get16At(r, 12 + |EncodeName(labels)|, tail, 0);
    Get16At(r, 12 + |EncodeName(labels)|, tail, 2);
  }

  lemma EmptyHeadDecodes(r: seq<Byte>, id: U16)
    requires Holds(r, 0, EmptyHead(id))
    ensures |r| >= 12 && Get16(r, 0) == id && Get16(r, 2) == 0x8180
    ensures Get16(r, 4) == 1 && Get16(r, 6) == 0 && Get16(r, 8) == 0 && Get16(r, 10) == 0
  {
    var head := EmptyHead(id);
    Get16At(r, 0, head, 0);
    Get16At(r, 0, head, 2);
    Get16At(r, 0, head, 4);
    Get16At(r, 0, head, 6);
    Get16At(r, 0, head, 8);
    Get16At(r, 0, head, 10);
  }

  // ----- packets that end early -----

  /** The packet has one question, and its name parses. */
  predicate HasName(packet: seq<Byte>) {
    |packet| >= 12 && Get16(packet, 4) == 1 && ParseFrom(packet, 12, []).Some?
  }

  /** The name ends at this offset. */
  predicate NameEnds(packet: seq<Byte>, offset: nat) {
    HasName(packet) && ParseFrom(packet, 12, []).value.1 == offset
  }

  /** A panic needs a question type or class that runs beyond the buffer, not merely beyond the packet; four spare
      bytes behind every packet rule it out. */
  lemma WhenQueryFaults(p: Pool, buf: seq<Byte>, n: nat)
    requires n <= |buf|
    ensures HandleQuery(p, buf, n).1.SliceFault? <==>
              exists offset: nat ::
                NameEnds(buf[..n], offset) &&
                (offset + 2 > |buf| || (Get16(buf, offset) in {1, 28} && offset + 4 > |buf|))
    ensures n + 4 <= |buf| ==> !HandleQuery(p, buf, n).1.SliceFault?
  {
    if HasName(buf[..n]) {
      assert NameEnds(buf[..n], ParseFrom(buf[..n], 12, []).value.1);
    }
  }

  /** By then the name of an A question has been given its address; otherwise a panic leaves the pool alone. */
  lemma PoolAfterFault(p: Pool, buf: seq<Byte>, n: nat, offset: nat)
    requires n <= |buf| && NameEnds(buf[..n], offset) && HandleQuery(p, buf, n).1.SliceFault?
    ensures HandleQuery(p, buf, n).0 ==
              if offset + 2 <= |buf| && Get16(buf, offset) == 1
              then GetIp(p, ParseFrom(buf[..n], 12, []).value.0).0 else p
  {
  }

  /** The question type can still become A or AAAA, or is one of them and the class is missing, and the bytes that
      decide stand in the buffer behind the packet. */
  predicate LooksBehind(packet: seq<Byte>, room: nat, offset: nat) {
    var n := |packet|;
    && NameEnds(packet, offset)
    && if offset + 2 > n then offset + 2 <= n + room && (offset == n || packet[offset] == 0)
       else Get16(packet, offset) in {1, 28} && n < offset + 4 <= n + room
  }

  /** The outcome is the packet's own: no byte behind it in a buffer with this room makes a difference. */
  ghost predicate OwnOutcome(p: Pool, packet: seq<Byte>, room: nat) {
    forall x: seq<Byte>, y: seq<Byte> :: |x| == |y| == room ==>
      HandleQuery(p, packet + x, |packet|) == HandleQuery(p, packet + y, |packet|)
  }

  lemma HandleInBuffer(p: Pool, packet: seq<Byte>, x: seq<Byte>, offset: nat)
    requires NameEnds(packet, offset)
    ensures HandleQuery(p, packet + x, |packet|) == AfterName(p, packet + x, ParseFrom(packet, 12, []).value.0, offset)
  {
    assert (packet + x)[..|packet|] == packet;
    assert (packet + x)[4] == packet[4] && (packet + x)[5] == packet[5];
  }

  lemma SameWithoutName(p: Pool, packet: seq<Byte>, x: seq<Byte>)
    requires !HasName(packet)
    ensures HandleQuery(p, packet + x, |packet|) == (p, Refused)
  {
    assert (packet + x)[..|packet|] == packet;
    if |packet| >= 12 {
      assert (packet + x)[4] == packet[4] && (packet + x)[5] == packet[5];
    }
  }

  lemma AfterNameInFront(p: Pool, packet: seq<Byte>, x: seq<Byte>, y: seq<Byte>, domain: Domain, offset: nat)
    requires NameEnds(packet, offset) && |x| == |y| && !LooksBehind(packet, |x|, offset)
    ensures AfterName(p, packet + x, domain, offset) == AfterName(p, packet + y, domain, offset)
  {
    var a, b, n := packet + x, packet + y, |packet|;
    assert a[..n] == packet == b[..n];
    assert forall i :: 0 <= i < n ==> a[i] == packet[i] == b[i];
    if offset + 4 <= n {
      assert a[12..offset + 4] == packet[12..offset + 4] == b[12..offset + 4];
      assert a[..2] == b[..2] && a[4..6] == b[4..6];
    }
  }

  /** The bytes that show that it matters what stands behind the packet. */
  function Behind(packet: seq<Byte>, room: nat, offset: nat, first: bool): (x: seq<Byte>)
    requires LooksBehind(packet, room, offset)
    ensures |x| == room
  {
    var n := |packet|;
    var lead := if offset == n then (if first then [0, 1] else [0, 2]) else if first then [1] else [2];
    lead + seq(room - |lead|, _ => 0)
  }

  lemma BehindMatters(p: Pool, packet: seq<Byte>, room: nat, offset: nat, domain: Domain)
    requires LooksBehind(packet, room, offset)
    ensures AfterName(p, packet + Behind(packet, room, offset, true), domain, offset)
         != AfterName(p, packet + Behind(packet, room, offset, false), domain, offset)
  {
    var n, a, b := |packet|, packet + Behind(packet, room, offset, true), packet + Behind(packet, room, offset, false);
    if offset + 2 > n {
      assert Get16(a, offset) == 1 && Get16(b, offset) == 2;
    } else {
      assert Get16(a, offset) == Get16(packet, offset) == Get16(b, offset);
      var ra, rb := AfterName(p, a, domain, offset).1, AfterName(p, b, domain, offset).1;
      assert ra.response[n] == a[12..offset + 4][n - 12] == a[n] == 1;
      assert rb.response[n] == b[12..offset + 4][n - 12] == b[n] == 2;
    }
  }

  /** Exactly when the handler answers from bytes that are not the packet's: the name parses within the packet, and
      the type it then needs runs past the packet, or the type is A or AAAA and the class does. */
  lemma WhenBytesBehindMatter(p: Pool, packet: seq<Byte>, room: nat)
    ensures !OwnOutcome(p, packet, room) <==> exists offset: nat :: LooksBehind(packet, room, offset)
  {
    if offset: nat :| LooksBehind(packet, room, offset) {
      var x, y := Behind(packet, room, offset, true), Behind(packet, room, offset, false);
      BehindMatters(p, packet, room, offset, ParseFrom(packet, 12, []).value.0);
      HandleInBuffer(p, packet, x, offset);
      HandleInBuffer(p, packet, y, offset);
    } else {
      forall x: seq<Byte>, y: seq<Byte> | |x| == |y| == room
        ensures HandleQuery(p, packet + x, |packet|) == HandleQuery(p, packet + y, |packet|)
      {
        if HasName(packet) {
          var offset := ParseFrom(packet, 12, []).value.1;
          HandleInBuffer(p, packet, x, offset);
          HandleInBuffer(p, packet, y, offset);
          AfterNameInFront(p, packet, x, y, ParseFrom(packet, 12, []).value.0, offset);
        } else {
          SameWithoutName(p, packet, x);
          SameWithoutName(p, packet, y);
        }
      }
    }
  }

  /** A query for "a" that ends with its name. */
  const TRUNCATED: seq<Byte> := [0, 7, 1, 0, 0, 1, 0, 0, 0, 0, 0, 0, 1, 97, 0]

  /** The three things that can become of it: the type and class of an earlier datagram complete it to an A query
      and it is answered, an earlier datagram of another type gets it refused, and without a byte of room it panics. */
  lemma TruncatedQuery(p: Pool)
    ensures HandleQuery(p, TRUNCATED + [0, 1, 0, 1], 15) ==
      (GetIp(p, [97]).0, Reply(Response(7, [[97]], GetIp(p, [97]).1), [97]))
    ensures HandleQuery(p, TRUNCATED + [0, 2, 0, 1], 15) == (p, Refused)
    ensures HandleQuery(p, TRUNCATED, 15) == (p, SliceFault)
  {
    TruncatedName();
    var t: seq<Byte> := TRUNCATED;
    HandleInBuffer(p, t, [0, 1, 0, 1], 15);
    HandleInBuffer(p, t, [0, 2, 0, 1], 15);
    HandleInBuffer(p, t, [], 15);
    assert t + [] == t;
    assert Put16(7) == [0, 7] && Join([[97]]) == [97];
    ParsedIsAnswered(p, t + [0, 1, 0, 1], 7, [[97]]);
  }

  lemma TruncatedName()
    ensures NameEnds(TRUNCATED, 15) && ParseFrom(TRUNCATED, 12, []).value.0 == [97]
    ensures LabelsOk([[97]]) && EncodeName([[97]]) == [1, 97, 0]
  {
    var labels: seq<Label> := [[97]];
    assert EncodeName(labels) == [1, 97, 0] by {
      assert labels[1..] == [];
    }
    NameParses(TRUNCATED, 12, labels);
  }

  lemma QuestionDecodes(r: seq<Byte>, labels: seq<Label>)
    requires LabelsOk(labels) && Holds(r, 12, EncodeName(labels) + [0, 1, 0, 1])
    ensures var q := 12 + |EncodeName(labels)|;
            && q + 4 <= |r| && Get16(r, q) == 1 && Get16(r, q + 2) == 1
            && Holds(r, 12, EncodeName(labels)) && DecodeName(r, 12, 12) == Some((labels, q))
  {
    HoldsParts(r, 12, EncodeName(labels), [0, 1, 0, 1]);
    Get16At(r, 12 + |EncodeName(labels)|, [0, 1, 0, 1], 0);
    Get16At(r, 12 + |EncodeName(labels)|, [0, 1, 0, 1], 2);
    DecodesEncoded(r, 12, 12, labels);
  }

  lemma MessageDecodes(r: seq<Byte>, id: U16, labels: seq<Label>, ip: U32)
    requires LabelsOk(labels) && Holds(r, 0, ResponseHead(id)) && Holds(r, 12, EncodeName(labels) + [0, 1, 0, 1])
    requires Holds(r, 16 + |EncodeName(labels)|, AnswerRecord(ip))
    ensures DecodeAnswer(r) == Some(Answer(id, labels, labels, 60, ip))
  {
    HeadDecodes(r, id);
    QuestionDecodes(r, labels);
    RecordDecodes(r, 16 + |EncodeName(labels)|, labels, ip);
  }

  /** Decoding the response, with its 0xC00C pointer followed, gives back the identifier and the name,
      both in the question and as the owner of the record, and the address. */
  lemma ResponseDecodes(id: U16, labels: seq<Label>, ip: U32)
    requires LabelsOk(labels)
    ensures DecodeAnswer(Response(id, labels, ip)) == Some(Answer(id, labels, labels, 60, ip))
  {
    var head, body, rec := ResponseHead(id), EncodeName(labels) + [0, 1, 0, 1], AnswerRecord(ip);
    var r := Response(id, labels, ip);
    HoldsMiddle([], head, body + rec);
    assert [] + head + (body + rec) == r;
    HoldsMiddle(head, body, rec);
    HoldsMiddle(head + body, rec, []);
    assert head + body + rec + [] == r;
    MessageDecodes(r, id, labels, ip);
  }

  lemma HeadDecodes(r: seq<Byte>, id: U16)
    requires Holds(r, 0, ResponseHead(id))
    ensures |r| >= 12 && Get16(r, 0) == id && Get16(r, 2) == 0x8180 && Get16(r, 4) == 1 && Get16(r, 6) == 1
  {
    var head := ResponseHead(id);
    Get16At(r, 0, head, 0);
    Get16At(r, 0, head, 2);
    Get16At(r, 0, head, 4);
    Get16At(r, 0, head, 6);
  }

  lemma RecordDecodes(r: seq<Byte>, a: nat, labels: seq<Label>, ip: U32)
    requires LabelsOk(labels) && Holds(r, 12, EncodeName(labels)) && Holds(r, a, AnswerRecord(ip)) && a > 12
    ensures DecodeName(r, a, a) == Some((labels, a + 2))
    ensures |r| >= a + 16
    ensures Get16(r, a + 2) == 1 && Get16(r, a + 4) == 1 && Get32(r, a + 6) == 60 && Get16(r, a + 10) == 4
    ensures Get32(r, a + 12) == ip
  {
    var rec := AnswerRecord(ip);
    ByteAt(r, a, rec, 0);
    ByteAt(r, a, rec, 1);
    Get16At(r, a, rec, 2);
    Get16At(r, a, rec, 4);
    Get32At(r, a, rec, 6);
    Get16At(r, a, rec, 10);
    Get32At(r, a, rec, 12);
    assert Get32(rec, 12) == Get32(Put32(ip), 0);
    DecodesEncoded(r, 12, 12, labels);
  }

  // ----- from the answer back to the domain -----

  /** The fake-IP restoration at the start of forward: the domain the connection is taken to be for. */
  function Restored(s: Subnet, p: Pool, ip: U32): Option<Domain> {
    if IsFakeIp(s, ip) && GetDomain(p, ip) != [] then Some(GetDomain(p, ip)) else None
  }

  lemma AddressLeadsBack(s: Subnet, ds: seq<Domain>, d: Domain, k: nat)
    requires Parsed(s) && s.ones <= 30 && d != []
    requires k < |Distinct(ds + [d])| && Distinct(ds + [d])[k] == d
    ensures var (p, ip) := GetIp(After(s, ds), d);
            && p == After(s, ds + [d])
            && (Restored(s, p, ip) == Some(d) <==> |Distinct(ds + [d])| - 1 - k < PoolSize(s))
            && (d !in ds ==> k == |Distinct(ds + [d])| - 1 && Restored(s, p, ip) == Some(d))
  {
    assert (ds + [d])[..|ds|] == ds;
    RoundTripWindow(s, ds + [d], k);
    KthDomainAddress(s, ds + [d], k);
    SecondLookup(After(s, ds), d);
  }

  /** Nothing else is restored: in every run a restored name was asked for, and the address is the one it has. */
  lemma RestoredWasAsked(s: Subnet, ds: seq<Domain>, ip: U32, d: Domain)
    requires Parsed(s) && s.ones <= 30 && Restored(s, After(s, ds), ip) == Some(d)
    ensures d != [] && d in ds && GetIp(After(s, ds), d) == (After(s, ds), ip)
  {
    ReverseAgrees(s, ds);
    ForwardAlways(s, ds);
  }

  /** From question to restored name, in every run: the responder's reply to a well-formed query decodes to the
      queried name and an address that forward takes back to that name exactly while fewer than N newer domains
      exist; in particular whenever the name is new. */
  lemma AnswerLeadsBack(
    s: Subnet, ds: seq<Domain>, q: seq<Byte>, id: U16, flags: U16, counts: seq<Byte>, labels: seq<Label>,
                        rest: seq<Byte>, behind: seq<Byte>, k: nat)
    requires Parsed(s) && s.ones <= 30 && LabelsOk(labels) && labels != [] && |counts| == 6
    requires q == Query(id, flags, counts, labels, rest)
    requires k < |Distinct(ds + [Join(labels)])| && Distinct(ds + [Join(labels)])[k] == Join(labels)
    ensures var d := Join(labels);
            var (p, r) := HandleQuery(After(s, ds), q + behind, |q|);
            && p == After(s, ds + [d])
            && r.Reply? && DecodeAnswer(r.response).Some?
            && var a := DecodeAnswer(r.response).value;
               && a.id == id && a.question == labels && a.owner == labels
               && (Restored(s, p, a.ip) == Some(d) <==> |Distinct(ds + [d])| - 1 - k < PoolSize(s))
               && (d !in ds ==> Restored(s, p, a.ip) == Some(d))
  {
    QueryIsAnswered(After(s, ds), id, flags, counts, labels, rest, behind);
    ResponseDecodes(id, labels, GetIp(After(s, ds), Join(labels)).1);
    assert Join(labels) != [];
    AddressLeadsBack(s, ds, Join(labels), k);
  }

  lemma SecondLookup(p: Pool, d: Domain)
    ensures GetIp(GetIp(p, d).0, d) == GetIp(p, d)
  {
  }
}
