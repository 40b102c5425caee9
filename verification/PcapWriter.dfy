/** Writing packets in the libpcap file format. */
module PcapWriting {
  import opened Bytes
  import opened Checksum
  import opened Containers

  // ---------------------------------------------------------------- headers

  /** front: version and type of service; middle: identification to time to live; addresses: source and destination. */
  datatype IpHeader = IpHeader(front: seq<byte>, length: nat, middle: seq<byte>, protocol: byte, checksum: nat,
                               addresses: seq<byte>)
  {
    predicate Valid() { |front| == 2 && length < U16 && |middle| == 5 && checksum < U16 && |addresses| == 8 }

    function Before(): (b: seq<byte>)
      requires Valid()
      ensures |b| == 10
    {
      front + Put16(length) + middle + [protocol]
    }

    function Octets(): (b: seq<byte>)
      requires Valid()
      ensures |b| == 20
    {
      Before() + (Put16(checksum) + addresses)
    }
  }

  datatype UdpHeader = UdpHeader(ports: seq<byte>, length: nat, checksum: nat) {
    predicate Valid() { |ports| == 4 && length < U16 && checksum < U16 }

    function Octets(): (b: seq<byte>)
      requires Valid()
      ensures |b| == 8
    {
      (ports + Put16(length)) + (Put16(checksum) + [])
    }
  }

  /** middle: sequence number to window. */
  datatype TcpHeader = TcpHeader(ports: seq<byte>, middle: seq<byte>, checksum: nat, urgent: seq<byte>) {
    predicate Valid() { |ports| == 4 && |middle| == 12 && checksum < U16 && |urgent| == 2 }

    function Octets(): (b: seq<byte>)
      requires Valid()
      ensures |b| == 20
    {
      (ports + middle) + (Put16(checksum) + urgent)
    }
  }

  function Pseudo(ip: IpHeader, length: nat): (b: seq<byte>)
    requires ip.Valid() && length < U16
    ensures |b| == 12
  {
    ip.addresses + [0, ip.protocol] + Put16(length)
  }

  /**
   * A packet as it was collected: iphps is the section that starts with the IP header,
   * ippps the one that starts with the payload; either may be missing.
   */
  datatype Packet = Packet(tsSec: nat, tsUsec: nat, hdrTcp: bool, hdrUdp: bool, ports: seq<byte>,
                           ip: IpHeader, udp: UdpHeader, tcp: TcpHeader, iphps: seq<byte>, ippps: seq<byte>)
  {
    predicate Valid() {
      && tsSec < U32 && tsUsec < U32 && |ports| == 4
      && ip.Valid() && udp.Valid() && tcp.Valid()
      && |iphps| < U16 && |ippps| < U16
    }
  }

  datatype Options = Options(calcIp: bool, calcTransport: bool)

  // ---------------------------------------------------------------- what a frame contains

  /** The length field, or the section, or the headers to be assembled decide. */
  function IpLength(p: Packet): nat {
    if p.ip.length != 0 then p.ip.length
    else if |p.iphps| > 0 then |p.iphps|
    else 20 + if |p.ippps| > 0 then |p.ippps|
              else if p.hdrTcp then 20
              else if p.hdrUdp then 8
              else if p.ip.protocol == 6 then 20
              else if p.ip.protocol == 17 then 8
              else 0
  }

  /** The packet once its length is known. */
  function Measured(p: Packet): (m: Packet)
    requires p.Valid()
    ensures m.Valid() && IpLength(m) % U16 == IpLength(p) % U16
  {
    if p.ip.length != 0 || |p.iphps| > 0 then p
    else
      var guess := |p.ippps| == 0 && !p.hdrTcp && !p.hdrUdp;
      p.(ip := p.ip.(length := IpLength(p) % U16),
         hdrTcp := p.hdrTcp || (guess && p.ip.protocol == 6),
         hdrUdp := p.hdrUdp || (guess && p.ip.protocol == 17))
  }

  /** The IP header with its checksum filled in, where that is wanted and none was given. */
  function FilledIp(o: Options, ip: IpHeader): (h: IpHeader)
    requires ip.Valid()
    ensures h.Valid()
  {
    if o.calcIp && ip.checksum == 0 then ip.(checksum := Value(ip.Octets())) else ip
  }

  /** What u was before the carry was added back. */
  function SumOfParts(pseudo: seq<byte>, header: seq<byte>): nat {
    Value(pseudo) + Value(header)
  }

  function FilledUdp(o: Options, p: Packet, ipLength: nat): (h: UdpHeader)
    requires p.Valid() && ipLength >= 28
    ensures h.Valid()
  {
    var length := (ipLength - 20) % U16;
    var h := UdpHeader(p.ports, length, p.udp.checksum);
    var u := SumOfParts(Pseudo(p.ip, length), h.Octets());
    if o.calcTransport && p.udp.checksum == 0 then h.(checksum := Combined(u)) else h
  }

  function FilledTcp(o: Options, p: Packet, ipLength: nat): (h: TcpHeader)
    requires p.Valid() && ipLength >= 40
    ensures h.Valid()
  {
    var h := p.tcp.(ports := p.ports);
    var u := SumOfParts(Pseudo(p.ip, (ipLength - 20) % U16), h.Octets());
    if o.calcTransport && p.tcp.checksum == 0 then h.(checksum := Combined(u)) else h
  }

  /** The transport header the writer assembles, if any. */
  function Transport(o: Options, p: Packet, ipLength: nat): seq<byte>
    requires p.Valid()
  {
    if p.hdrUdp && ipLength >= 28 then FilledUdp(o, p, ipLength).Octets()
    else if p.hdrTcp && ipLength >= 40 then FilledTcp(o, p, ipLength).Octets()
    else []
  }

  /** What there is to write of the IP packet. */
  function Content(o: Options, p: Packet, ipLength: nat): seq<byte>
    requires p.Valid()
  {
    if |p.iphps| > 0 then p.iphps
    else FilledIp(o, p.ip).Octets() + if |p.ippps| > 0 then p.ippps else Transport(o, p, ipLength)
  }

  /** The data cut off or filled up with zeros. */
  function Fit(s: seq<byte>, n: nat): (r: seq<byte>)
    ensures |r| == n
  {
    if |s| >= n then s[..n] else s + Zeros(n - |s|)
  }

  /** The dummy Ethernet header, with the type of IP. */
  const ETHERNET: seq<byte> := [2, 2, 2, 2, 2, 2, 1, 1, 1, 1, 1, 1, 8, 0]

  function Frame(o: Options, p: Packet): (f: seq<byte>)
    requires p.Valid()
    ensures |f| == 14 + IpLength(p)
  {
    ETHERNET + Fit(Content(o, Measured(p), IpLength(p)), IpLength(p))
  }

  // ---------------------------------------------------------------- the file

  /** A uint32_t as the host stores it. */
  function Host32(n: nat): (r: seq<byte>)
    requires n < U32
    ensures |r| == 4
  {
    Host16(n % U16) + Host16(n / U16)
  }

  function GetHost32(s: seq<byte>): (n: nat)
    requires |s| >= 4
    ensures n < U32
  {
    GetHost16(s, 0) + U16 * GetHost16(s, 2)
  }

  lemma GetPutHost32(n: nat, rest: seq<byte>)
    requires n < U32
    ensures GetHost32(Host32(n) + rest) == n
  {
    var s := Host32(n) + rest;
    assert s[0..2] == Host16(n % U16) && s[2..4] == Host16(n / U16);
    GetPutHost16(s, 0, n % U16);
    GetPutHost16(s, 2, n / U16);
  }

  /** A record: its header with the time and the length, twice, and the octets. */
  function Record(sec: nat, usec: nat, length: nat, octets: seq<byte>): seq<byte>
    requires sec < U32 && usec < U32 && length < U32
  {
    Host32(sec) + (Host32(usec) + (Host32(length) + (Host32(length) + octets)))
  }

  /** The packets whose record holds as many octets as it says. */
  predicate Regular(p: Packet) {
    |p.iphps| > 0 || IpLength(p) >= 20
  }

  // ---------------------------------------------------------------- what receivers find

  /** An IP header whose checksum was filled in checks to zero. */
  lemma IpHeaderChecks(o: Options, ip: IpHeader)
    requires ip.Valid() && o.calcIp && ip.checksum == 0
    ensures Value(FilledIp(o, ip).Octets()) == 0
  {
    FilledInChecks(ip.Before(), ip.addresses);
  }

  /**
   * A UDP header that was filled in checks to zero with its pseudo header and the zeros behind
   * it, exactly when u was not zero.
   */
  lemma UdpHeaderChecks(o: Options, p: Packet, ipLength: nat, zeros: nat)
    requires p.Valid() && ipLength >= 28 && o.calcTransport && p.udp.checksum == 0
    ensures var length := (ipLength - 20) % U16;
            var u := SumOfParts(Pseudo(p.ip, length), UdpHeader(p.ports, length, 0).Octets());
            Value(Pseudo(p.ip, length) + FilledUdp(o, p, ipLength).Octets() + Zeros(zeros)) == 0 <==> u != 0
  {
    var length := (ipLength - 20) % U16;
    var pseudo := Pseudo(p.ip, length);
    CombinedChecks(pseudo, p.ports + Put16(length), [], SumOfParts(pseudo, UdpHeader(p.ports, length, 0).Octets()));
    ZerosAddNothing(pseudo + FilledUdp(o, p, ipLength).Octets(), Zeros(zeros));
  }

  /** Likewise for a TCP header. */
  lemma TcpHeaderChecks(o: Options, p: Packet, ipLength: nat, zeros: nat)
    requires p.Valid() && ipLength >= 40 && o.calcTransport && p.tcp.checksum == 0
    ensures var length := (ipLength - 20) % U16;
            var u := SumOfParts(Pseudo(p.ip, length), p.tcp.(ports := p.ports).Octets());
            Value(Pseudo(p.ip, length) + FilledTcp(o, p, ipLength).Octets() + Zeros(zeros)) == 0 <==> u != 0
  {
    var length := (ipLength - 20) % U16;
    var pseudo := Pseudo(p.ip, length);
    CombinedChecks(pseudo, p.ports + p.tcp.middle, p.tcp.urgent, SumOfParts(pseudo, p.tcp.(ports := p.ports).Octets()));
    ZerosAddNothing(pseudo + FilledTcp(o, p, ipLength).Octets(), Zeros(zeros));
  }

  // ---------------------------------------------------------------- where the fields stand

  /** The fields of an IP header by their places (section 3.1 of RFC 791). */
  function ParseIp(h: seq<byte>): IpHeader
    requires |h| == 20
  {
    IpHeader(h[0..2], GetNet16(h, 2), h[4..9], h[9], GetNet16(h, 10), h[12..20])
  }

  /** Of a UDP header (RFC 768). */
  function ParseUdp(h: seq<byte>): UdpHeader
    requires |h| == 8
  {
    UdpHeader(h[0..4], GetNet16(h, 4), GetNet16(h, 6))
  }

  /** Of a TCP header without options (section 3.1 of RFC 793). */
  function ParseTcp(h: seq<byte>): TcpHeader
    requires |h| == 20
  {
    TcpHeader(h[0..4], h[4..16], GetNet16(h, 16), h[18..20])
  }

  lemma PutAt(h: seq<byte>, p: nat, n: nat)
    requires n < U16 && p + 2 <= |h| && h[p..p + 2] == Put16(n)
    ensures GetNet16(h, p) == n
  {
    assert h[p] == h[p..p + 2][0] && h[p + 1] == h[p..p + 2][1];
  }

  lemma IpParses(ip: IpHeader)
    requires ip.Valid()
    ensures ParseIp(ip.Octets()) == ip
  {
    var h := ip.Octets();
    assert h[0..2] == ip.front && h[2..4] == Put16(ip.length) && h[4..9] == ip.middle;
    assert h[10..12] == Put16(ip.checksum) && h[12..20] == ip.addresses;
    PutAt(h, 2, ip.length);
    PutAt(h, 10, ip.checksum);
  }

  lemma UdpParses(udp: UdpHeader)
    requires udp.Valid()
    ensures ParseUdp(udp.Octets()) == udp
  {
    var h := udp.Octets();
    assert h[0..4] == udp.ports && h[4..6] == Put16(udp.length) && h[6..8] == Put16(udp.checksum);
    PutAt(h, 4, udp.length);
    PutAt(h, 6, udp.checksum);
  }

  lemma TcpParses(tcp: TcpHeader)
    requires tcp.Valid()
    ensures ParseTcp(tcp.Octets()) == tcp
  {
    var h := tcp.Octets();
    assert h[0..4] == tcp.ports && h[4..16] == tcp.middle && h[16..18] == Put16(tcp.checksum);
    assert h[18..20] == tcp.urgent;
    PutAt(h, 16, tcp.checksum);
  }

  /** The pseudo header: addresses, zero, protocol and length (RFC 768, and section 3.1 of RFC 793). */
  lemma PseudoParses(ip: IpHeader, length: nat)
    requires ip.Valid() && length < U16
    ensures var h := Pseudo(ip, length);
            h[0..8] == ip.addresses && h[8] == 0 && h[9] == ip.protocol && GetNet16(h, 10) == length
  {
    var h := Pseudo(ip, length);
    assert h[10..12] == Put16(length);
    PutAt(h, 10, length);
  }

  // ---------------------------------------------------------------- what a frame shows

  /** Every frame is an Ethernet frame with an IP packet in it, as long as its length field or its section says. */
  lemma FrameIsIp(o: Options, p: Packet)
    requires p.Valid()
    ensures |Frame(o, p)| == 14 + IpLength(p) && GetNet16(Frame(o, p), 12) == 0x0800
    ensures p.ip.length != 0 ==> |Frame(o, p)| == 14 + p.ip.length
    ensures p.ip.length == 0 && |p.iphps| > 0 ==> |Frame(o, p)| == 14 + |p.iphps|
  {
    assert Frame(o, p)[12] == ETHERNET[12] && Frame(o, p)[13] == ETHERNET[13];
  }

  /** Octets of s from position at on, as far as there is room in f, and nothing but zeros behind. */
  ghost predicate ShowsAt(f: seq<byte>, at: nat, s: seq<byte>) {
    && at <= |f|
    && (forall i :: 0 <= i < |s| && at + i < |f| ==> f[at + i] == s[i])
    && (forall i :: at + |s| <= i < |f| ==> f[i] == 0)
  }

  lemma FitShows(front: seq<byte>, s: seq<byte>, n: nat)
    ensures ShowsAt(front + Fit(s, n), |front|, s)
  {
  }

  lemma TailShows(f: seq<byte>, at: nat, a: seq<byte>, b: seq<byte>)
    requires ShowsAt(f, at, a + b) && at + |a| <= |f|
    ensures f[at..at + |a|] == a && ShowsAt(f, at + |a|, b)
  {
    forall i | 0 <= i < |a|
      ensures f[at + i] == a[i]
    {
      assert (a + b)[i] == a[i];
    }
    forall i | 0 <= i < |b| && at + |a| + i < |f|
      ensures f[at + |a| + i] == b[i]
    {
      assert (a + b)[|a| + i] == b[i];
    }
  }

  /** A section that starts with the IP header is found as it is. */
  lemma FrameShowsSection(o: Options, p: Packet)
    requires p.Valid() && |p.iphps| > 0
    ensures ShowsAt(Frame(o, p), 14, p.iphps)
  {
    FitShows(ETHERNET, p.iphps, IpLength(p));
  }

  /** The transport header that is assembled, by what is known of the packet. */
  predicate IsUdp(p: Packet) {
    p.hdrUdp || (p.ip.length == 0 && !p.hdrTcp && p.ip.protocol == 17)
  }

  predicate IsTcp(p: Packet) {
    p.hdrTcp || (p.ip.length == 0 && !p.hdrUdp && p.ip.protocol == 6)
  }

  lemma MeasuredIs(p: Packet)
    requires p.Valid() && |p.iphps| == 0
    ensures Measured(p).ip == p.ip.(length := IpLength(p) % U16)
    ensures var m := Measured(p); m == p.(ip := m.ip, hdrTcp := m.hdrTcp, hdrUdp := m.hdrUdp)
    ensures |p.ippps| == 0 ==> (Measured(p).hdrUdp <==> IsUdp(p)) && (Measured(p).hdrTcp <==> IsTcp(p))
  {
  }

  /** What stands in an assembled frame. */
  lemma FrameHolds(o: Options, p: Packet) returns (h: seq<byte>, rest: seq<byte>)
    requires p.Valid() && |p.iphps| == 0 && IpLength(p) >= 20
    ensures h == FilledIp(o, p.ip.(length := IpLength(p) % U16)).Octets() && Frame(o, p)[14..34] == h
    ensures rest == (if |p.ippps| > 0 then p.ippps else Transport(o, Measured(p), IpLength(p)))
    ensures ShowsAt(Frame(o, p), 34, rest)
  {
    var m, n := Measured(p), IpLength(p);
    MeasuredIs(p);
    h, rest := FilledIp(o, m.ip).Octets(), if |p.ippps| > 0 then p.ippps else Transport(o, m, n);
    FitShows(ETHERNET, h + rest, n);
    TailShows(Frame(o, p), 14, h, rest);
  }

  /** Otherwise the IP header is found field by field; its checksum is the one given, or checks to zero. */
  lemma FrameShowsIp(o: Options, p: Packet)
    requires p.Valid() && |p.iphps| == 0 && IpLength(p) >= 20
    ensures var h := Frame(o, p)[14..34];
            && ParseIp(h).(checksum := p.ip.checksum) == p.ip.(length := IpLength(p) % U16)
            && if o.calcIp && p.ip.checksum == 0 then Value(h) == 0 else ParseIp(h).checksum == p.ip.checksum
  {
    var h, rest := FrameHolds(o, p);
    var ip := p.ip.(length := IpLength(p) % U16);
    IpParses(FilledIp(o, ip));
    if o.calcIp && ip.checksum == 0 { IpHeaderChecks(o, ip); }
  }

  /** Behind it, the section that starts with the payload is found as it is. */
  lemma FrameShowsPayload(o: Options, p: Packet)
    requires p.Valid() && |p.iphps| == 0 && IpLength(p) >= 20 && |p.ippps| > 0
    ensures ShowsAt(Frame(o, p), 34, p.ippps)
  {
    var h, rest := FrameHolds(o, p);
  }

  /** A frame that ends in a header and zeros. */
  lemma HeaderLast(f: seq<byte>, h: seq<byte>)
    requires |f| >= 34 + |h| && ShowsAt(f, 34, h)
    ensures f[34..34 + |h|] == h && ShowsAt(f, 34 + |h|, [])
    ensures f[34..] == h + Zeros(|f| - 34 - |h|)
  {
    assert h + [] == h;
    TailShows(f, 34, h, []);
  }

  /** Or the UDP header: ports, length, and the checksum given or one that checks, unless u is zero. */
  lemma FrameShowsUdp(o: Options, p: Packet)
    requires p.Valid() && |p.iphps| == 0 && |p.ippps| == 0 && IsUdp(p) && IpLength(p) >= 28
    ensures var f, length := Frame(o, p), (IpLength(p) - 20) % U16;
            var h := ParseUdp(f[34..42]);
            h.ports == p.ports && h.length == length && ShowsAt(f, 42, []) && UdpChecked(o, p, f, h, length)
  {
    var ip, rest := FrameHolds(o, p);
    var m, n, f := Measured(p), IpLength(p), Frame(o, p);
    MeasuredIs(p);
    UdpParses(FilledUdp(o, m, n));
    HeaderLast(f, rest);
    UdpChecks(o, p, m, n, f, rest);
  }

  predicate UdpChecked(o: Options, p: Packet, f: seq<byte>, h: UdpHeader, length: nat)
    requires p.Valid() && |f| >= 34 && length < U16
  {
    var u := SumOfParts(Pseudo(p.ip, length), UdpHeader(p.ports, length, 0).Octets());
    if o.calcTransport && p.udp.checksum == 0 then Value(Pseudo(p.ip, length) + f[34..]) == 0 <==> u != 0
    else h.checksum == p.udp.checksum
  }

  lemma UdpChecks(o: Options, p: Packet, m: Packet, n: nat, f: seq<byte>, rest: seq<byte>)
    requires p.Valid() && m == p.(ip := p.ip.(length := m.ip.length), hdrTcp := m.hdrTcp, hdrUdp := m.hdrUdp)
    requires m.Valid() && n >= 28 && |f| == 14 + n && rest == FilledUdp(o, m, n).Octets()
    requires f[34..] == rest + Zeros(n - 28)
    ensures UdpChecked(o, p, f, FilledUdp(o, m, n), (n - 20) % U16)
  {
    if o.calcTransport && p.udp.checksum == 0 {
      UdpHeaderChecks(o, m, n, n - 28);
      Assoc(Pseudo(m.ip, (n - 20) % U16), rest, Zeros(n - 28));
    }
  }

  /** Or the TCP header. */
  lemma FrameShowsTcp(o: Options, p: Packet)
    requires p.Valid() && |p.iphps| == 0 && |p.ippps| == 0 && IsTcp(p) && !IsUdp(p) && IpLength(p) >= 40
    ensures var f, length := Frame(o, p), (IpLength(p) - 20) % U16;
            var h := ParseTcp(f[34..54]);
            h.(checksum := p.tcp.checksum) == p.tcp.(ports := p.ports) && ShowsAt(f, 54, [])
            && TcpChecked(o, p, f, h, length)
  {
    var ip, rest := FrameHolds(o, p);
    var m, n, f := Measured(p), IpLength(p), Frame(o, p);
    MeasuredIs(p);
    TcpParses(FilledTcp(o, m, n));
    HeaderLast(f, rest);
    TcpChecks(o, p, m, n, f, rest);
  }

  predicate TcpChecked(o: Options, p: Packet, f: seq<byte>, h: TcpHeader, length: nat)
    requires p.Valid() && |f| >= 34 && length < U16
  {
    var u := SumOfParts(Pseudo(p.ip, length), p.tcp.(ports := p.ports).Octets());
    if o.calcTransport && p.tcp.checksum == 0 then Value(Pseudo(p.ip, length) + f[34..]) == 0 <==> u != 0
    else h.checksum == p.tcp.checksum
  }

  lemma TcpChecks(o: Options, p: Packet, m: Packet, n: nat, f: seq<byte>, rest: seq<byte>)
    requires p.Valid() && m == p.(ip := p.ip.(length := m.ip.length), hdrTcp := m.hdrTcp, hdrUdp := m.hdrUdp)
    requires m.Valid() && n >= 40 && |f| == 14 + n && rest == FilledTcp(o, m, n).Octets()
    requires f[34..] == rest + Zeros(n - 40)
    ensures TcpChecked(o, p, f, FilledTcp(o, m, n), (n - 20) % U16)
  {
    if o.calcTransport && p.tcp.checksum == 0 {
      TcpHeaderChecks(o, m, n, n - 40);
      Assoc(Pseudo(m.ip, (n - 20) % U16), rest, Zeros(n - 40));
    }
  }

  /** Without any of them nothing but zeros follows the IP header. */
  lemma FrameShowsNoMore(o: Options, p: Packet)
    requires p.Valid() && |p.iphps| == 0 && |p.ippps| == 0 && IpLength(p) >= 20
    requires (IsUdp(p) ==> IpLength(p) < 28) && (IsTcp(p) ==> IpLength(p) < 40)
    ensures ShowsAt(Frame(o, p), 34, [])
  {
    var h, rest := FrameHolds(o, p);
    MeasuredIs(p);
  }

  /**
   * Where no length is given, the guess is what is assembled, without padding; except that a packet
   * known to be both is measured as TCP and written as UDP.
   */
  lemma GuessedExact(o: Options, p: Packet)
    requires p.Valid() && p.ip.length == 0 && |p.iphps| == 0
    ensures var written := |Content(o, Measured(p), IpLength(p))|;
            IpLength(p) == written + if |p.ippps| == 0 && p.hdrTcp && p.hdrUdp then 12 else 0
  {
  }

  // ---------------------------------------------------------------- the file as a reader takes it

  lemma {:induction false} WordsCons(a: byte, b: byte, rest: seq<byte>)
    ensures Words([a, b] + rest) == 256 * a as nat + b as nat + Words(rest)
  {
    assert ([a, b] + rest)[2..] == rest;
  }

  /** There are packets whose two sums leave u at zero, and whose checksum therefore does not check. */
  lemma UncheckedUdp(ip: IpHeader, ports: seq<byte>)
    requires ip.Valid() && ip.addresses == [0xFF, 0xE6, 0, 0, 0, 0, 0, 0] && ip.protocol == 17
             && ports == [0xFF, 0xF7, 0, 0]
    ensures SumOfParts(Pseudo(ip, 8), UdpHeader(ports, 8, 0).Octets()) == 0
  {
    PseudoWords(ip);
    var empty: seq<byte> := [];
    var checksum := [0, 0] + empty;
    assert UdpHeader(ports, 8, 0).Octets() == [0xFF, 0xF7] + ([0, 0] + ([0, 8] + checksum));
    WordsCons(0xFF, 0xF7, [0, 0] + ([0, 8] + checksum));
    WordsCons(0, 0, [0, 8] + checksum);
    WordsCons(0, 8, checksum);
    WordsCons(0, 0, empty);
    FoldIs(ONES);
  }

  lemma PseudoWords(ip: IpHeader)
    requires ip.Valid() && ip.addresses == [0xFF, 0xE6, 0, 0, 0, 0, 0, 0] && ip.protocol == 17
    ensures Words(Pseudo(ip, 8)) == ONES
  {
    var empty: seq<byte> := [];
    var length := [0, 8] + empty;
    assert Pseudo(ip, 8) == [0xFF, 0xE6] + ([0, 0] + ([0, 0] + ([0, 0] + ([0, 17] + length))));
    WordsCons(0xFF, 0xE6, [0, 0] + ([0, 0] + ([0, 0] + ([0, 17] + length))));
    WordsCons(0, 0, [0, 0] + ([0, 0] + ([0, 17] + length)));
    WordsCons(0, 0, [0, 0] + ([0, 17] + length));
    WordsCons(0, 0, [0, 17] + length);
    WordsCons(0, 17, length);
    WordsCons(0, 8, empty);
  }

  /** What a reader of the file gets for one record; original: the length of the packet on the wire. */
  datatype Captured = Captured(sec: nat, usec: nat, original: nat, octets: seq<byte>)

  /** Every record takes as many octets as its header says; None: the file ends inside a record. */
  function ReadFile(file: seq<byte>): Option<List<Captured>>
    decreases |file|
  {
    if file == [] then Some(Nil)
    else if |file| < 16 then None
    else
      var length := GetHost32(file[8..]);
      if |file| < 16 + length then None
      else
        match ReadFile(file[16 + length..])
        case None => None
        case Some(later) =>
          Some(Cons(Captured(GetHost32(file), GetHost32(file[4..]), GetHost32(file[12..]), file[16..16 + length]),
                    later))
  }

  lemma RecordJoined(sec: nat, usec: nat, length: nat, octets: seq<byte>, rest: seq<byte>)
    requires sec < U32 && usec < U32 && length < U32
    ensures Record(sec, usec, length, octets) + rest
            == Host32(sec) + (Host32(usec) + (Host32(length) + (Host32(length) + (octets + rest))))
  {
  }

  /** What stands in a record, with anything behind it. */
  lemma RecordHolds(sec: nat, usec: nat, length: nat, tail: seq<byte>, file: seq<byte>)
    requires sec < U32 && usec < U32 && length < U32
    requires file == Host32(sec) + (Host32(usec) + (Host32(length) + (Host32(length) + tail)))
    ensures |file| == 16 + |tail| && file[16..] == tail
    ensures GetHost32(file) == sec && GetHost32(file[4..]) == usec
    ensures GetHost32(file[8..]) == length && GetHost32(file[12..]) == length
  {
    var tail3 := Host32(length) + tail;
    var tail2 := Host32(length) + tail3;
    var tail1 := Host32(usec) + tail2;
    Behind(Host32(sec), tail1, file, 0);
    Behind(Host32(usec), tail2, file, 4);
    Behind(Host32(length), tail3, file, 8);
    Behind(Host32(length), tail, file, 12);
    GetPutHost32(sec, tail1);
    GetPutHost32(usec, tail2);
    GetPutHost32(length, tail3);
    GetPutHost32(length, tail);
  }

  lemma Behind(first: seq<byte>, tail: seq<byte>, file: seq<byte>, at: nat)
    requires |first| == 4 && at + 4 <= |file| && file[at..] == first + tail
    ensures file[at + 4..] == tail
  {
    assert file[at + 4..] == file[at..][4..];
  }

  lemma {:induction false} ReadRecord(sec: nat, usec: nat, octets: seq<byte>, rest: seq<byte>, later: List<Captured>)
    requires sec < U32 && usec < U32 && |octets| < U32 && ReadFile(rest) == Some(later)
    ensures ReadFile(Record(sec, usec, |octets|, octets) + rest)
            == Some(Cons(Captured(sec, usec, |octets|, octets), later))
  {
    var file := Record(sec, usec, |octets|, octets) + rest;
    RecordJoined(sec, usec, |octets|, octets, rest);
    RecordHolds(sec, usec, |octets|, octets + rest, file);
    assert (octets + rest)[..|octets|] == octets && (octets + rest)[|octets|..] == rest;
    assert file[16..16 + |octets|] == file[16..][..|octets|];
    assert file[16 + |octets|..] == file[16..][|octets|..];
  }

  predicate AllRegular(ps: List<Packet>) {
    ps.Cons? ==> ps.head.Valid() && Regular(ps.head) && AllRegular(ps.tail)
  }

  /** The records of the packets, one after the other. */
  function File(o: Options, ps: List<Packet>): seq<byte>
    requires AllRegular(ps)
  {
    if ps.Nil? then []
    else Record(ps.head.tsSec, ps.head.tsUsec, 14 + IpLength(ps.head), Frame(o, ps.head)) + File(o, ps.tail)
  }

  function Frames(o: Options, ps: List<Packet>): List<Captured>
    requires AllRegular(ps)
  {
    if ps.Nil? then Nil
    else
      var p := ps.head;
      Cons(Captured(p.tsSec, p.tsUsec, 14 + IpLength(p), Frame(o, p)), Frames(o, ps.tail))
  }

  lemma {:induction false} FirstRecord(o: Options, ps: List<Packet>, sec: nat, usec: nat, frame: seq<byte>)
    requires AllRegular(ps) && ps.Cons?
    requires sec == ps.head.tsSec && usec == ps.head.tsUsec && frame == Frame(o, ps.head)
    ensures sec < U32 && usec < U32 && |frame| < U32
    ensures File(o, ps) == Record(sec, usec, |frame|, frame) + File(o, ps.tail)
  {
  }

  lemma {:induction false} FirstFrame(o: Options, ps: List<Packet>, sec: nat, usec: nat, frame: seq<byte>)
    requires AllRegular(ps) && ps.Cons?
    requires sec == ps.head.tsSec && usec == ps.head.tsUsec && frame == Frame(o, ps.head)
    ensures Frames(o, ps) == Cons(Captured(sec, usec, |frame|, frame), Frames(o, ps.tail))
  {
  }

  /** Any sequence of packets can be taken apart again, frame by frame. */
  lemma {:induction false} FileIsReadable(o: Options, ps: List<Packet>)
    requires AllRegular(ps)
    ensures ReadFile(File(o, ps)) == Some(Frames(o, ps))
    decreases ps
  {
    if ps.Cons? {
      FileIsReadable(o, ps.tail);
      var sec, usec, frame := ps.head.tsSec, ps.head.tsUsec, Frame(o, ps.head);
      FirstRecord(o, ps, sec, usec, frame);
      FirstFrame(o, ps, sec, usec, frame);
      ReadRecord(sec, usec, frame, File(o, ps.tail), Frames(o, ps.tail));
    }
  }

  // ---------------------------------------------------------------- the writer

  const PADDING := 2048

  class PcapWriter {
    const options: Options
    var output: seq<byte>
    var packetsRead: nat
    var packetsWritten: nat

    constructor (o: Options)
      ensures options == o && output == [] && packetsRead == packetsWritten == 0
    {
      options, output, packetsRead, packetsWritten := o, [], 0, 0;
    }

    method Write(octets: seq<byte>)
      modifies this`output
      ensures output == old(output) + octets
    {
      output := output + octets;
    }

    /** The length of the IP packet, and the header with its length field filled in. */
    method Measure(p: Packet) returns (ipLength: nat, m: Packet)
      requires p.Valid()
      ensures ipLength == IpLength(p) && m == Measured(p)
    {
      m := p;
      if p.ip.length != 0 {
        ipLength := p.ip.length;
      } else if |p.iphps| > 0 {
        ipLength := |p.iphps|;
      } else {
        var length := 0;
        if |p.ippps| > 0 {
          length := |p.ippps|;
        } else if p.hdrTcp {
          length := 20;
        } else if p.hdrUdp {
          length := 8;
        } else if p.ip.protocol == 6 {
          m := m.(hdrTcp := true);
          length := 20;
        } else if p.ip.protocol == 17 {
          m := m.(hdrUdp := true);
          length := 8;
        }
        ipLength := length + 20;
        m := m.(ip := m.ip.(length := ipLength % U16));
      }
    }

    /** The checksum over a pseudo header and a header. */
    method TransportChecksum(pseudo: seq<byte>, header: seq<byte>) returns (c: nat)
      ensures c == Combined(SumOfParts(pseudo, header)) && c < U16
    {
      var c1 := InChecksum(pseudo);
      var c2 := InChecksum(header);
      var u := c1 + c2;
      c := u % U16 + u / U16;
      if c == 0 { c := 1; }
    }

    method WriteTransport(p: Packet, ipLength: nat) returns (written: nat)
      requires p.Valid()
      modifies this`output
      ensures output == old(output) + Transport(options, p, ipLength) && written == |Transport(options, p, ipLength)|
    {
      if p.hdrUdp && ipLength >= 28 {
        var h := UdpHeader(p.ports, (ipLength - 20) % U16, p.udp.checksum);
        if options.calcTransport && h.checksum == 0 {
          var c := TransportChecksum(Pseudo(p.ip, h.length), h.Octets());
          h := h.(checksum := c);
        }
        Write(h.Octets());
        written := 8;
      } else if p.hdrTcp && ipLength >= 40 {
        var h := p.tcp.(ports := p.ports);
        if options.calcTransport && h.checksum == 0 {
          var c := TransportChecksum(Pseudo(p.ip, (ipLength - 20) % U16), h.Octets());
          h := h.(checksum := c);
        }
        Write(h.Octets());
        written := 20;
      } else {
        written := 0;
        assert output == output + [];
      }
    }

    /** The padding loop, in portions of the buffer. */
    method Pad(n: int)
      modifies this`output
      ensures output == old(output) + Zeros(if n > 0 then n else 0)
    {
      var left := n;
      assert output == output + Zeros(0);
      while left > 0
        invariant n <= 0 ==> left == n && output == old(output)
        invariant n > 0 ==> 0 <= left <= n && output == old(output) + Zeros(n - left)
      {
        var portion := if PADDING < left then PADDING else left;
        assert Zeros(n - left) + Zeros(portion) == Zeros(n - left + portion);
        Write(Zeros(portion));
        left := left - portion;
      }
    }

    /** One section, cut off where the packet ends; ok is false where the source's size turns negative. */
    method WriteSection(section: seq<byte>, before: nat, ipLength: nat) returns (written: nat, ok: bool)
      modifies this`output
      ensures ok <==> before <= ipLength || before + |section| < ipLength
      ensures ok ==> written == (if before + |section| >= ipLength then ipLength - before else |section|) <= |section|
      ensures ok ==> output == old(output) + section[..written]
      ensures !ok ==> output == old(output)
    {
      var size := |section|;
      written := 0;
      if size + before >= ipLength {
        size := ipLength - before;
      }
      ok := size >= 0;
      if ok {
        Write(section[..size]);
        written := size;
      }
    }

    /** The IP packet without its padding. */
    method WriteContent(p: Packet, ipLength: nat) returns (written: nat, ok: bool)
      requires p.Valid()
      modifies this`output
      ensures ok <==> |p.iphps| > 0 || |p.ippps| == 0 || ipLength >= 20
      ensures ok ==>
                output == old(output) + Unpadded(options, p, ipLength)
                && written == |Unpadded(options, p, ipLength)|
    {
      if |p.iphps| == 0 {
        WriteIpHeader(p.ip);
        if |p.ippps| == 0 {
          written := WriteTransport(p, ipLength);
          ok := true;
        } else {
          written, ok := WriteSection(p.ippps, 20, ipLength);
        }
        written := written + 20;
      } else {
        written, ok := WriteSection(p.iphps, 0, ipLength);
      }
    }

    /** The IP header, with its checksum filled in on demand. */
    method WriteIpHeader(ip: IpHeader)
      requires ip.Valid()
      modifies this`output
      ensures output == old(output) + FilledIp(options, ip).Octets()
    {
      var h := ip;
      if options.calcIp && h.checksum == 0 {
        var c := InChecksum(h.Octets());
        h := h.(checksum := c);
      }
      Write(h.Octets());
    }

    /** Writes the record of a packet; ok is false where the source passes a negative size on. */
    method WritePacket(p: Packet) returns (ok: bool)
      requires p.Valid()
      modifies this
      ensures ok <==> Regular(p) || |p.ippps| == 0
      ensures ok ==> output == old(output) + Record(p.tsSec, p.tsUsec, 14 + IpLength(p), Body(options, p))
      ensures packetsRead == old(packetsRead) + 1
      ensures packetsWritten == old(packetsWritten) + if ok then 1 else 0
    {
      packetsRead := packetsRead + 1;
      var ipLength, m := Measure(p);
      WriteRecordHeader(p.tsSec, p.tsUsec, ipLength + |ETHERNET|);
      ok := WriteBody(m, ipLength);
      if ok {
        packetsWritten := packetsWritten + 1;
        WholeRecord(options, p, m, ipLength, old(output));
      }
    }

    /** The frame behind the record header. */
    method WriteBody(m: Packet, ipLength: nat) returns (ok: bool)
      requires m.Valid()
      modifies this`output
      ensures ok <==> |m.iphps| > 0 || |m.ippps| == 0 || ipLength >= 20
      ensures ok ==> output == old(output) + ETHERNET + Unpadded(options, m, ipLength) + Padding(options, m, ipLength)
    {
      Write(ETHERNET);
      var written;
      written, ok := WriteContent(m, ipLength);
      if ok { Pad(ipLength - written); }
    }

    method WriteRecordHeader(sec: nat, usec: nat, length: nat)
      requires sec < U32 && usec < U32 && length < U32
      modifies this`output
      ensures output == old(output) + Record(sec, usec, length, [])
    {
      Write(Host32(sec));
      Write(Host32(usec));
      Write(Host32(length));
      Write(Host32(length));
    }
  }

  /** What the writer has appended, put together. */
  lemma WholeRecord(o: Options, p: Packet, m: Packet, ipLength: nat, file: seq<byte>)
    requires p.Valid() && m == Measured(p) && ipLength == IpLength(p) && (Regular(p) || |p.ippps| == 0)
    ensures var length, content, zeros := 14 + ipLength, Unpadded(o, m, ipLength), Padding(o, m, ipLength);
            file + Record(p.tsSec, p.tsUsec, length, []) + ETHERNET + content + zeros
              == file + Record(p.tsSec, p.tsUsec, length, Body(o, p))
  {
    var length, content, zeros := 14 + ipLength, Unpadded(o, m, ipLength), Padding(o, m, ipLength);
    Joins(file, Record(p.tsSec, p.tsUsec, length, []), ETHERNET, content, zeros);
    RecordJoins(p.tsSec, p.tsUsec, length, ETHERNET + (content + zeros));
    PaddedIs(o, p, m, ipLength);
  }

  lemma Joins(a: seq<byte>, b: seq<byte>, c: seq<byte>, d: seq<byte>, e: seq<byte>)
    ensures a + b + c + d + e == a + (b + (c + (d + e)))
  {
  }

  lemma RecordJoins(sec: nat, usec: nat, length: nat, octets: seq<byte>)
    requires sec < U32 && usec < U32 && length < U32
    ensures Record(sec, usec, length, []) + octets == Record(sec, usec, length, octets)
  {
  }

  /** The content and its padding. */
  lemma PaddedIs(o: Options, p: Packet, m: Packet, ipLength: nat)
    requires p.Valid() && m == Measured(p) && ipLength == IpLength(p)
    ensures var content, zeros := Unpadded(o, m, ipLength), Padding(o, m, ipLength);
            if Regular(p) then content + zeros == Fit(Content(o, m, ipLength), ipLength)
            else |p.ippps| == 0 ==> content + zeros == FilledIp(o, p.ip).Octets()
  {
  }

  /** What is written behind a record header: without its payload, a header is never cut off. */
  function Body(o: Options, p: Packet): seq<byte>
    requires p.Valid()
  {
    if Regular(p) then Frame(o, p) else ETHERNET + FilledIp(o, p.ip).Octets()
  }

  /** A record holds as many octets as it says exactly if the packet is regular. */
  lemma FramingExact(o: Options, p: Packet)
    requires p.Valid() && (Regular(p) || |p.ippps| == 0)
    ensures |Body(o, p)| == 14 + IpLength(p) <==> Regular(p)
  {
  }

  /** What is written before the padding. */
  function Unpadded(o: Options, p: Packet, ipLength: nat): seq<byte>
    requires p.Valid()
  {
    var content := Content(o, p, ipLength);
    if |content| >= ipLength && (|p.iphps| > 0 || |p.ippps| > 0) then content[..ipLength] else content
  }

  function Padding(o: Options, p: Packet, ipLength: nat): seq<byte>
    requires p.Valid()
  {
    var left := ipLength - |Unpadded(o, p, ipLength)|;
    Zeros(if left > 0 then left else 0)
  }
}
