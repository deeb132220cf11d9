/**
 The SOCKS 4A request: the encoder of np_project4/console.cpp and the decoder of
 np_project4/socks_server.cpp, after the memos "SOCKS: A protocol for TCP proxy across firewalls"
 (version 4) and "SOCKS 4A: A Simple Extension to SOCKS 4 Protocol".
 */
module SocksCodec {
  /** `max_length` of the encoder, and `MAXBUFFSIZE` of the decoder. */
  const MAX_LENGTH := 4096
  const MAXBUFFSIZE := 8192

  const CONNECT: bv8 := 1
  const BIND: bv8 := 2

  function Zeros(n: nat): seq<bv8> {
    seq(n, _ => 0)
  }

  /** A buffer of zeros into which bytes were copied. */
  function Padded(s: seq<bv8>, n: nat): (r: seq<bv8>)
    requires |s| <= n
    ensures |r| == n
  {
    s + Zeros(n - |s|)
  }

  predicate NulFree(s: seq<bv8>) {
    forall k :: 0 <= k < |s| ==> s[k] != 0
  }

  // ------------------------------------------------------------------ bytes of a port and an address

  function High(port: bv16): bv8 {
    (port / 256) as bv8
  }

  function Low(port: bv16): bv8 {
    (port % 256) as bv8
  }

  function PortOf(high: bv8, low: bv8): bv16 {
    ((high as bv16) << 8) | (low as bv16)
  }

  function AddressOf(a: bv8, b: bv8, c: bv8, d: bv8): bv32 {
    ((a as bv32) << 24) | ((b as bv32) << 16) | ((c as bv32) << 8) | (d as bv32)
  }

  /** The two bytes are the port with its high byte first; at 32 bits nothing overflows. */
  predicate InOrder(port: bv16, high: bv8, low: bv8) {
    port as bv32 == 256 * (high as bv32) + low as bv32
  }

  lemma PortMeans(high: bv8, low: bv8)
    ensures InOrder(PortOf(high, low), high, low)
  {
  }

  lemma BytesMean(port: bv16)
    ensures InOrder(port, High(port), Low(port))
  {
  }

  /** Division and remainder on one side, shifts on the other. */
  lemma PortRoundTrip(port: bv16)
    ensures PortOf(High(port), Low(port)) == port
  {
  }

  lemma PortBytes(high: bv8, low: bv8)
    ensures High(PortOf(high, low)) == high && Low(PortOf(high, low)) == low
  {
  }

  /** The mask tells whether the first three bytes are zero. */
  lemma MaskMeansDomain(a: bv8, b: bv8, c: bv8, d: bv8)
    ensures AddressOf(a, b, c, d) & 0xFF == AddressOf(a, b, c, d) <==> a == 0 && b == 0 && c == 0
  {
  }

  // ------------------------------------------------------------------ the encoder

  /** A request as the memos lay it out, without the zeros behind it. */
  function Wire(cd: bv8, port: bv16, ip: seq<bv8>, userid: seq<bv8>, domain: seq<bv8>): seq<bv8> {
    [4, cd, High(port), Low(port)] + ip + userid + [0] + domain
  }

  /** `memcpy` into a buffer. */
  method Copy(buffer: array<bv8>, at: nat, bytes: seq<bv8>)
    requires at + |bytes| <= buffer.Length
    modifies buffer
    ensures buffer[..] == old(buffer[..at]) + bytes + old(buffer[at + |bytes|..])
  {
    var i := 0;
    while i < |bytes|
      invariant i <= |bytes|
      invariant buffer[..at] == old(buffer[..at])
      invariant forall k :: 0 <= k < i ==> buffer[at + k] == bytes[k]
      invariant buffer[at + i..] == old(buffer[at + i..])
    {
      assert buffer[at + i + 1..] == buffer[at + i..][1..];
      assert old(buffer[at + i + 1..]) == old(buffer[at + i..])[1..];
      buffer[at + i] := bytes[i];
      i := i + 1;
    }
    assert buffer[at..at + i] == bytes;
    assert buffer[..] == buffer[..at] + buffer[at..at + i] + buffer[at + i..];
  }

  /** `send_socks_request`: what is written for a host that fits the buffer. */
  method SendSocksRequest(dstHost: seq<bv8>, dstPort: bv16) returns (request: array<bv8>)
    requires 9 + |dstHost| <= MAX_LENGTH
    ensures fresh(request) && request.Length == MAX_LENGTH
    ensures request[..] == Padded(Wire(CONNECT, dstPort, [0, 0, 0, 1], [], dstHost), MAX_LENGTH)
    ensures request[0] == 4 && request[1] == 1 && request[4..9] == [0, 0, 0, 1, 0]
    ensures InOrder(dstPort, request[2], request[3])
    ensures request[9..9 + |dstHost|] == dstHost && (9 + |dstHost| < MAX_LENGTH ==> request[9 + |dstHost|] == 0)
  {
    request := new bv8[MAX_LENGTH](_ => 0);
    request[0] := 0x04;
    request[1] := 0x01;
    request[2] := (dstPort / 256) as bv8;
    request[3] := (dstPort % 256) as bv8;
    request[7] := 0x01;
    request[8] := 0x00;
    ghost var tail := request[9 + |dstHost|..];
    assert request[..9] == [4, CONNECT, High(dstPort), Low(dstPort)] + [0, 0, 0, 1] + [] + [0];
    assert tail == Zeros(MAX_LENGTH - 9 - |dstHost|);
    Copy(request, 9, dstHost);
    BytesMean(dstPort);
    hide InOrder, High, Low;
    WireIs(CONNECT, dstPort, dstHost, request[..]);
  }

  lemma WireIs(cd: bv8, port: bv16, host: seq<bv8>, s: seq<bv8>)
    requires 9 + |host| <= MAX_LENGTH && s == Padded(Wire(cd, port, [0, 0, 0, 1], [], host), MAX_LENGTH)
    ensures s[0] == 4 && s[1] == cd && s[2] == High(port) && s[3] == Low(port) && s[4..9] == [0, 0, 0, 1, 0]
    ensures s[9..9 + |host|] == host && (9 + |host| < MAX_LENGTH ==> s[9 + |host|] == 0)
  {
  }

  // ------------------------------------------------------------------ the decoder

  datatype Parsed =
    | NotSupported
    | ToDomain(cd: bv8, port: bv16, domain: seq<bv8>)
    | ToAddress(cd: bv8, port: bv16, ip: seq<bv8>)

  /** The bytes before the first zero. */
  function UntilNul(s: seq<bv8>): (r: seq<bv8>)
    ensures |r| <= |s| && r == s[..|r|] && NulFree(r) && (|r| < |s| ==> s[|r|] == 0)
  {
    if s == [] || s[0] == 0 then []
    else
      var r := UntilNul(s[1..]);
      assert [s[0]] + r == s[..1 + |r|];
      [s[0]] + r
  }

  /** A request for a domain holds both the zero behind the user id and the one behind the domain. */
  predicate Terminated(s: seq<bv8>) {
    && |s| >= 8
    && var n := 8 + |UntilNul(s[8..])|;
       n < |s| && n + 1 + |UntilNul(s[n + 1..])| < |s|
  }

  predicate ForDomain(s: seq<bv8>)
    requires |s| >= 8
  {
    s[4] == 0 && s[5] == 0 && s[6] == 0
  }

  /** What stands between the first two zeros of the variable part. */
  function DomainOf(s: seq<bv8>): seq<bv8>
    requires Terminated(s)
  {
    UntilNul(s[9 + |UntilNul(s[8..])|..])
  }

  predicate Decodable(s: seq<bv8>) {
    |s| >= 8 && (s[0] == 4 && ForDomain(s) ==> Terminated(s))
  }

  function Decode(s: seq<bv8>): Parsed
    requires Decodable(s)
  {
    if s[0] != 4 then NotSupported
    else
      var port := PortOf(s[2], s[3]);
      if ForDomain(s) then ToDomain(s[1], port, DomainOf(s))
      else ToAddress(s[1], port, s[4..8])
  }

  lemma UntilNulStep(s: seq<bv8>, from: nat, to: nat)
    requires from <= to < |s| && s[to] != 0 && NulFree(s[from..to])
    requires from + |UntilNul(s[from..])| < |s|
    ensures NulFree(s[from..to + 1]) && s[from..to + 1] == s[from..to] + [s[to]]
    ensures to < from + |UntilNul(s[from..])|
  {
    assert forall k :: from <= k < to ==> s[k] == s[from..to][k - from];
    var n := |UntilNul(s[from..])|;
    assert s[from..][n] == s[from + n];
  }

  lemma UntilNulEnd(s: seq<bv8>, from: nat, to: nat)
    requires from <= to < |s| && s[to] == 0 && NulFree(s[from..to])
    ensures UntilNul(s[from..]) == s[from..to]
  {
    var r, t := UntilNul(s[from..]), s[from..];
    assert t[to - from] == 0;
    assert forall k :: 0 <= k < to - from ==> t[k] == s[from..to][k];
    assert |r| == to - from;
    assert s[from..to] == t[..to - from];
  }

  /** The first pointer loop: past the user id. */
  method SkipToNul(request: array<bv8>, from: nat) returns (iter: nat)
    requires from <= request.Length && from + |UntilNul(request[from..])| < request.Length
    ensures from <= iter < request.Length && UntilNul(request[from..]) == request[from..iter]
  {
    iter := from;
    while request[iter] != 0
      invariant from <= iter <= from + |UntilNul(request[from..])| && NulFree(request[from..iter])
      decreases request.Length - iter
    {
      UntilNulStep(request[..], from, iter);
      iter := iter + 1;
    }
    UntilNulEnd(request[..], from, iter);
  }

  /** The second pointer loop: the domain. */
  method ReadName(request: array<bv8>, from: nat) returns (name: seq<bv8>)
    requires from <= request.Length && from + |UntilNul(request[from..])| < request.Length
    ensures name == UntilNul(request[from..])
  {
    hide UntilNul;
    ghost var s := request[..];
    assert request[from..] == s[from..];
    var iter := from;
    name := [];
    while request[iter] != 0
      invariant from <= iter <= from + |UntilNul(s[from..])|
      invariant name == s[from..iter] && NulFree(s[from..iter])
      decreases request.Length - iter
    {
      UntilNulStep(s, from, iter);
      name := name + [request[iter]];
      iter := iter + 1;
    }
    UntilNulEnd(s, from, iter);
  }

  /**
   What the variable part of a request for a domain holds: the user id up to the first zero, and the domain from there
   to the next one.
   */
  lemma DomainMeans(s: seq<bv8>, a: nat, b: nat)
    requires 8 <= a < b < |s| && NulFree(s[8..a]) && s[a] == 0 && NulFree(s[a + 1..b]) && s[b] == 0
    ensures Terminated(s) && DomainOf(s) == s[a + 1..b]
  {
    UntilNulEnd(s, 8, a);
    UntilNulEnd(s, a + 1, b);
  }

  /** The domain behind the user id. */
  method ReadDomain(request: array<bv8>) returns (name: seq<bv8>)
    requires Terminated(request[..])
    ensures name == DomainOf(request[..])
  {
    hide UntilNul;
    assert request[8..] == request[..][8..];
    var iter := SkipToNul(request, 8);
    assert request[iter + 1..] == request[..][iter + 1..];
    name := ReadName(request, iter + 1);
  }

  /** The request of `socks_session::run`, read into a zeroed buffer. */
  method ParseRequest(request: array<bv8>) returns (r: Parsed)
    requires Decodable(request[..])
    ensures r == Decode(request[..])
    ensures r.NotSupported? <==> request[0] != 4
    ensures !r.NotSupported? ==> r.cd == request[1] && InOrder(r.port, request[2], request[3])
    ensures r.ToDomain? <==> request[0] == 4 && request[4] == 0 && request[5] == 0 && request[6] == 0
    ensures r.ToAddress? ==> r.ip == request[4..8]
  {
    hide DomainOf, Terminated, PortOf, InOrder;
    PortMeans(request[2], request[3]);
    var vn := request[0];
    if vn != 0x04 {
      return NotSupported;
    }
    var cd := request[1];
    var dstPort := ReadPort(request[2], request[3]);
    var toDomain := IsDomainAddress(request[4], request[5], request[6], request[7]);
    if toDomain {
      var domainName := ReadDomain(request);
      r := ToDomain(cd, dstPort, domainName);
    } else {
      assert request[4..8] == request[..][4..8];
      r := ToAddress(cd, dstPort, request[4..8]);
    }
  }

  method ReadPort(high: bv8, low: bv8) returns (port: bv16)
    ensures High(port) == high && Low(port) == low && port == PortOf(high, low)
    ensures InOrder(port, high, low)
  {
    PortMeans(high, low);
    port := ((high as bv16) << 8) | (low as bv16);
    PortBytes(high, low);
  }

  /** The test for a domain: nothing outside the lowest byte. */
  method IsDomainAddress(a: bv8, b: bv8, c: bv8, d: bv8) returns (r: bool)
    ensures r <==> a == 0 && b == 0 && c == 0
  {
    var socks4aDstip: bv32 := ((a as bv32) << 24) | ((b as bv32) << 16) | ((c as bv32) << 8) | (d as bv32);
    MaskMeansDomain(a, b, c, d);
    r := socks4aDstip & 0x000000FF == socks4aDstip;
  }

  // ------------------------------------------------------------------ round trips

  /** The buffer of the server when all the bytes sent arrive in one `read`. */
  method Receive(bytes: seq<bv8>) returns (request: array<bv8>)
    requires |bytes| <= MAXBUFFSIZE
    ensures fresh(request) && request[..] == Padded(bytes, MAXBUFFSIZE)
  {
    request := new bv8[MAXBUFFSIZE](_ => 0);
    assert request[|bytes|..] == Zeros(MAXBUFFSIZE - |bytes|);
    Copy(request, 0, bytes);
    assert [] + bytes == bytes;
  }

  lemma UntilNulOf(word: seq<bv8>, more: seq<bv8>)
    requires NulFree(word)
    ensures UntilNul(word + [0] + more) == word
  {
    var s := word + [0] + more;
    assert s[0..] == s && s[0..|word|] == word && s[|word|] == 0;
    UntilNulEnd(s, 0, |word|);
  }

  /**
   The decoder recovers command, port and domain of every request for a domain, whatever user id without
   zeros it carries, as long as it leaves room for the zero behind it.
   */
  lemma DomainRoundTrip(cd: bv8, port: bv16, x: bv8, userid: seq<bv8>, domain: seq<bv8>, n: nat)
    requires NulFree(userid) && NulFree(domain)
    requires |Wire(cd, port, [0, 0, 0, x], userid, domain)| < n
    ensures var s := Padded(Wire(cd, port, [0, 0, 0, x], userid, domain), n);
      Decodable(s) && Decode(s) == ToDomain(cd, port, domain)
  {
    hide UntilNul, PortOf;
    var wire := Wire(cd, port, [0, 0, 0, x], userid, domain);
    var s, zeros := Padded(wire, n), Zeros(n - |wire|);
    WireParts(cd, port, x, userid, domain, zeros);
    UntilNulOf(userid, domain + zeros);
    UntilNulOf(domain, zeros[1..]);
    PortRoundTrip(port);
  }

  lemma WireParts(cd: bv8, port: bv16, x: bv8, userid: seq<bv8>, domain: seq<bv8>, zeros: seq<bv8>)
    requires zeros != [] && zeros[0] == 0
    ensures var s := Wire(cd, port, [0, 0, 0, x], userid, domain) + zeros;
      && s[..8] == [4, cd, High(port), Low(port), 0, 0, 0, x]
      && s[8..] == userid + [0] + (domain + zeros)
      && s[9 + |userid|..] == domain + [0] + zeros[1..]
  {
    assert zeros == [0] + zeros[1..];
  }

  /** Every address with a nonzero byte among its first three is taken as an address. */
  lemma AddressRoundTrip(cd: bv8, port: bv16, ip: seq<bv8>, userid: seq<bv8>, n: nat)
    requires |ip| == 4 && (ip[0] != 0 || ip[1] != 0 || ip[2] != 0)
    requires |Wire(cd, port, ip, userid, [])| <= n
    ensures var s := Padded(Wire(cd, port, ip, userid, []), n);
      Decodable(s) && Decode(s) == ToAddress(cd, port, ip)
  {
    var s := Padded(Wire(cd, port, ip, userid, []), n);
    assert s[4..8] == ip;
    assert s[4] == ip[0] && s[5] == ip[1] && s[6] == ip[2];
    PortRoundTrip(port);
  }

  lemma PaddedTwice(s: seq<bv8>, m: nat, n: nat)
    requires |s| <= m <= n
    ensures Padded(Padded(s, m), n) == Padded(s, n)
  {
  }

  /** What the encoder writes, the decoder reads: every port, and every host that fits the buffer. */
  method RoundTrip(dstHost: seq<bv8>, dstPort: bv16) returns (r: Parsed)
    requires 9 + |dstHost| <= MAX_LENGTH && NulFree(dstHost)
    ensures r == ToDomain(CONNECT, dstPort, dstHost)
  {
    var sent := SendSocksRequest(dstHost, dstPort);
    var received := Receive(sent[..]);
    PaddedTwice(Wire(CONNECT, dstPort, [0, 0, 0, 1], [], dstHost), MAX_LENGTH, MAXBUFFSIZE);
    DomainRoundTrip(CONNECT, dstPort, 1, [], dstHost, MAXBUFFSIZE);
    r := ParseRequest(received);
  }
}
