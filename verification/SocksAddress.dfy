/** SOCKS addresses on the wire (section 5 of RFC 1928) and the UDP frames that carry them (section 7). */
module SocksAddress {
  import opened Bytes

  const ATYP_IPV4 := 1
  const ATYP_DOMAIN := 3
  const ATYP_IPV6 := 4

  /** The length SplitAddr computes from the first two bytes. */
  function AddrLen(b: seq<Byte>): Option<nat> {
    if |b| < 1 then None
    else if b[0] == ATYP_DOMAIN then if |b| < 2 then None else Some(4 + b[1] as int)
    else if b[0] == ATYP_IPV4 then Some(7)
    else if b[0] == ATYP_IPV6 then Some(19)
    else None
  }

  /** The address at the start of b, if there is a whole one. */
  function SplitAddr(b: seq<Byte>): Option<seq<Byte>> {
    match AddrLen(b)
    case None => None
    case Some(n) => if |b| < n then None else Some(b[..n])
  }

  predicate IsAddr(a: seq<Byte>) {
    AddrLen(a) == Some(|a|)
  }

  /** Splitting is exact: it finds a if and only if a is an address and the input starts with it. */
  lemma SplitIsExact(b: seq<Byte>, a: seq<Byte>)
    ensures SplitAddr(b) == Some(a) <==> IsAddr(a) && a <= b
  {
    if SplitAddr(b) == Some(a) {
      assert a[0] == b[0] && (b[0] == ATYP_DOMAIN ==> a[1] == b[1]);
    }
    if IsAddr(a) && a <= b {
      assert a[0] == b[0] && (b[0] == ATYP_DOMAIN ==> a[1] == b[1]);
      assert b[..|a|] == a;
    }
  }

  /** The three forms of an address: kind 1 with four bytes, kind 4 with sixteen, or kind 3 with a counted name, and
      always two bytes of port. */
  lemma AddressForms(a: seq<Byte>)
    ensures IsAddr(a) <==>
              || (|a| == 1 + 4 + 2 && a[0] == 1)
              || (|a| == 1 + 16 + 2 && a[0] == 4)
              || (|a| >= 2 && a[0] == 3 && |a| == 1 + 1 + a[1] as int + 2)
  {
  }

  /** No address is a proper prefix of another, so a concatenation splits in one way only. */
  lemma PrefixFree(a: seq<Byte>, b: seq<Byte>, x: seq<Byte>, y: seq<Byte>)
    requires IsAddr(a) && IsAddr(b) && a + x == b + y
    ensures a == b && x == y
  {
    assert a <= a + x && b <= b + y;
    SplitIsExact(a + x, a);
    SplitIsExact(b + y, b);
    assert (a + x)[|a|..] == x && (b + y)[|b|..] == y;
  }

  // ----- targets and their encoding -----

  /** What a target string names: net.ParseIP yields the sixteen-byte form for both families. */
  datatype Host = Ip(bytes: seq<Byte>) | Name(name: seq<Byte>)

  const MAPPED: seq<Byte> := [0, 0, 0, 0, 0, 0, 0, 0, 0, 0, 255, 255]

  ghost predicate HostOk(h: Host) {
    match h
    case Ip(bytes) => |bytes| == 16
    case Name(name) => true
  }

  /** ParseAddr, after the host and the port were told apart; a port that is no 16-bit number is None. */
  function ParseAddr(h: Host, port: Option<U16>): Option<seq<Byte>>
    requires HostOk(h)
  {
    if port.None? || (h.Name? && |h.name| > 255) then None
    else
      match h
      case Ip(bytes) => if MAPPED <= bytes then Some([ATYP_IPV4] + bytes[12..] + Put16(port.value))
                        else Some([ATYP_IPV6] + bytes + Put16(port.value))
      case Name(name) => Some([ATYP_DOMAIN, |name|] + name + Put16(port.value))
  }

  /** What Addr.String prints, before the conversion to text. */
  function AddrTarget(a: seq<Byte>): (Host, U16)
    requires IsAddr(a)
  {
    if a[0] == ATYP_DOMAIN then (Name(a[2..|a| - 2]), Get16(a, |a| - 2))
    else if a[0] == ATYP_IPV4 then (Ip(MAPPED + a[1..5]), Get16(a, 5))
    else (Ip(a[1..17]), Get16(a, 17))
  }

  /** Encoding then printing gives the target back, and the encoding is a whole address. */
  lemma ParseThenPrint(h: Host, port: U16)
    requires HostOk(h) && (h.Name? ==> |h.name| <= 255)
    ensures ParseAddr(h, Some(port)).Some?
    ensures var a := ParseAddr(h, Some(port)).value; IsAddr(a) && AddrTarget(a) == (h, port)
  {
    var a := ParseAddr(h, Some(port)).value;
    match h
    case Ip(bytes) =>
      if MAPPED <= bytes {
        assert a[1..5] == bytes[12..] && bytes == bytes[..12] + bytes[12..] && bytes[..12] == MAPPED;
        Get16Tail([ATYP_IPV4] + bytes[12..], port);
      } else {
        assert a[1..17] == bytes;
        Get16Tail([ATYP_IPV6] + bytes, port);
      }
    case Name(name) =>
      assert a[2..|a| - 2] == name;
      Get16Tail([ATYP_DOMAIN, |name|] + name, port);
  }

  /** The bytes of an encoded target: an IPv4 address, also in its sixteen-byte form, takes seven of them. */
  lemma EncodedForms(a: Byte, b: Byte, c: Byte, d: Byte, v6: seq<Byte>, name: seq<Byte>, hi: Byte, lo: Byte)
    requires |v6| == 16 && (exists i :: 0 <= i < 12 && v6[i] != MAPPED[i]) && |name| <= 255
    ensures var port := Some(hi as int * 0x100 + lo as int);
            && ParseAddr(Ip([0, 0, 0, 0, 0, 0, 0, 0, 0, 0, 255, 255, a, b, c, d]), port) ==
                 Some([1, a, b, c, d, hi, lo])
            && ParseAddr(Ip(v6), port) == Some([4] + v6 + [hi, lo])
            && ParseAddr(Name(name), port) == Some([3, |name|] + name + [hi, lo])
            && ParseAddr(Name(name), None) == None
  {
    var mapped: seq<Byte> := [0, 0, 0, 0, 0, 0, 0, 0, 0, 0, 255, 255, a, b, c, d];
    var port: U16 := hi as int * 0x100 + lo as int;
    assert Put16(port) == [hi, lo];
    assert mapped[..12] == MAPPED && mapped[12..] == [a, b, c, d];
    assert !(MAPPED <= v6);
    assert [1] + mapped[12..] + [hi, lo] == [1, a, b, c, d, hi, lo];
  }

  lemma Get16Tail(s: seq<Byte>, n: U16)
    ensures Get16(s + Put16(n), |s|) == n
  {
    assert (s + Put16(n))[|s|] == Put16(n)[0] && (s + Put16(n))[|s| + 1] == Put16(n)[1];
  }

  /** Two targets share an encoding only if they are the same. */
  lemma ParseIsInjective(h: Host, p: U16, k: Host, q: U16)
    requires HostOk(h) && HostOk(k) && ParseAddr(h, Some(p)).Some? && ParseAddr(h, Some(p)) == ParseAddr(k, Some(q))
    ensures h == k && p == q
  {
    ParseThenPrint(h, p);
    ParseThenPrint(k, q);
  }

  // ----- UDP frames -----

  const BUFFER := 65535

  /** socksUDPConn.Write: reserved bytes, fragment number, target, data. */
  function Frame(target: seq<Byte>, data: seq<Byte>): seq<Byte> {
    [0, 0, 0] + target + data
  }

  /** What socksUDPConn.Read does with a datagram: an error, an out-of-range slice, or `count` reported and
      `copied` placed in the caller's buffer. */
  datatype Unwrapped = Rejected | SliceFault | Delivered(count: nat, copied: seq<Byte>)

  function Zeros(n: nat): (z: seq<Byte>)
    ensures |z| == n && forall i :: 0 <= i < n ==> z[i] == 0
  {
    seq(n, _ => 0)
  }

  function Unwrap(datagram: seq<Byte>, room: nat): Unwrapped
    requires |datagram| <= BUFFER
  {
    var n := |datagram|;
    var buf := datagram + Zeros(BUFFER - n);
    if n < 4 then Rejected
    else
      match SplitAddr(buf[3..])
      case None => Rejected
      case Some(addr) =>
        var offset := 3 + |addr|;
        if offset > n then SliceFault
        else Delivered(n - offset, if n - offset <= room then buf[offset..n] else buf[offset..offset + room])
  }

  /** The frame on the wire: two reserved zero bytes, fragment zero, then the target and the data. */
  lemma FrameLayout(target: seq<Byte>, data: seq<Byte>)
    ensures var f := Frame(target, data);
            |f| == 3 + |target| + |data| && f[0] == 0 && f[1] == 0 && f[2] == 0 && f[3..] == target + data
  {
  }

  /** Whatever is behind the frame in the buffer, the target and the data are found in front of it. */
  lemma FrameInFront(target: seq<Byte>, data: seq<Byte>, pad: seq<Byte>)
    requires IsAddr(target)
    ensures var buf, offset := Frame(target, data) + pad, 3 + |target|;
            |buf| >= offset + |data| && SplitAddr(buf[3..]) == Some(target) && buf[offset..offset + |data|] == data
  {
    var buf := Frame(target, data) + pad;
    assert buf[3..] == target + (data + pad);
    SplitIsExact(buf[3..], target);
  }

  lemma SliceOfSlice(buf: seq<Byte>, from: nat, data: seq<Byte>, room: nat)
    requires from + |data| <= |buf| && buf[from..from + |data|] == data && room <= |data|
    ensures buf[from..from + room] == data[..room]
  {
    assert buf[from..from + |data|][..room] == buf[from..from + room];
  }

  /** Reading undoes writing for every payload that fits a datagram: the count is the payload's length,
      and the caller gets all of it exactly when there is room. */
  lemma ReadInvertsWrite(target: seq<Byte>, data: seq<Byte>, room: nat)
    requires IsAddr(target) && |Frame(target, data)| <= BUFFER
    ensures var r := Unwrap(Frame(target, data), room);
            r.Delivered? && r.count == |data| && r.copied <= data && (r.copied == data <==> |data| <= room)
  {
    var d := Frame(target, data);
    FrameLayout(target, data);
    FrameInFront(target, data, Zeros(BUFFER - |d|));
    if |data| > room {
      SliceOfSlice(d + Zeros(BUFFER - |d|), 3 + |target|, data, room);
    }
  }

  /** Exactly which datagrams make the slice go out of range: the address kind is known and the address
      runs past the end of the datagram into the zeroed buffer. */
  lemma WhenUnwrapFaults(datagram: seq<Byte>, room: nat)
    requires |datagram| <= BUFFER
    ensures Unwrap(datagram, room).SliceFault? <==>
              && |datagram| >= 4 && datagram[3] in {ATYP_IPV4, ATYP_DOMAIN, ATYP_IPV6} && SplitAddr(datagram[3..]).None?
  {
    var n := |datagram|;
    if n >= 4 {
      var buf := datagram + Zeros(BUFFER - n);
      assert buf[3..][0] == datagram[3..][0] == datagram[3];
      assert n > 4 ==> buf[3..][1] == datagram[3..][1];
    }
  }
}
