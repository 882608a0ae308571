// The SOCKS client: what it sends decodes back to what was asked, and on
// success it has read exactly the server's replies.

module Socks {
  import opened Types
  import opened Model

  // The bytes of a C string; characters are single bytes.
  function Bytes(s: string): (r: seq<Byte>)
    ensures |r| == |s|
  {
    seq(|s|, i requires 0 <= i < |s| => s[i] as int % 0x100)
  }

  datatype Quad = Quad(a: Byte, b: Byte, c: Byte, d: Byte)

  // parse_ipv4 rests on sscanf and stays a parameter: which hosts are literals,
  // and of which address.
  type Literals = string -> Option<Quad>

  function QuadBytes(q: Quad): (r: seq<Byte>)
    ensures |r| == 4
  {
    [q.a, q.b, q.c, q.d]
  }

  // put_port_be
  function PortBytes(p: Port): (r: seq<Byte>)
    ensures |r| == 2
  {
    [p / 0x100, p % 0x100]
  }

  // ---- requests ------------------------------------------------------------------

  function Greeting(withAuth: bool): seq<Byte> {
    if withAuth then [0x05, 0x02, 0x00, 0x02] else [0x05, 0x01, 0x00]
  }

  function UserPass(user: string, pass: string): seq<Byte>
    requires |user| <= 255 && |pass| <= 255
  {
    [0x01, |user|] + Bytes(user) + [|pass|] + Bytes(pass)
  }

  function Connect5(ip4: Literals, host: string, port: Port): seq<Byte>
    requires ip4(host).Some? || |host| <= 255
  {
    match ip4(host)
    case Some(q) => [0x05, 0x01, 0x00, 0x01] + QuadBytes(q) + PortBytes(port)
    case None => [0x05, 0x01, 0x00, 0x03, |host|] + Bytes(host) + PortBytes(port)
  }

  function Connect4(ip4: Literals, host: string, port: Port, user: string): seq<Byte> {
    match ip4(host)
    case Some(q) => [0x04, 0x01] + PortBytes(port) + QuadBytes(q) + Bytes(user) + [0x00]
    case None => [0x04, 0x01] + PortBytes(port) + [0x00, 0x00, 0x00, 0x01] + Bytes(user) + [0x00] + Bytes(host) + [0x00]
  }

  // memcpy into the caller's buffer
  method CopyInto(buf: array<Byte>, at: nat, bytes: seq<Byte>)
    requires at + |bytes| <= buf.Length
    modifies buf
    ensures buf[..at + |bytes|] == old(buf[..at]) + bytes
  {
    var k := 0;
    while k < |bytes|
      invariant k <= |bytes|
      invariant buf[..at + k] == old(buf[..at]) + bytes[..k]
    {
      ghost var before := buf[..at + k];
      buf[at + k] := bytes[k];
      assert buf[..at + k + 1] == before + [bytes[k]];
      k := k + 1;
    }
    assert bytes[..|bytes|] == bytes;
  }

  // pmx_socks5_build_greeting
  method BuildGreeting(buf: array<Byte>, withAuth: bool) returns (st: Status, len: nat)
    modifies buf
    ensures st == if buf.Length < |Greeting(withAuth)| then ErrInvalidArg else Ok
    ensures st == Ok ==> len <= buf.Length && buf[..len] == Greeting(withAuth)
  {
    len := 0;
    if buf.Length < if withAuth then 4 else 3 { return ErrInvalidArg, 0; }
    buf[0] := 0x05;
    if withAuth {
      buf[1], buf[2], buf[3] := 0x02, 0x00, 0x02;
      len := 4;
    } else {
      buf[1], buf[2] := 0x01, 0x00;
      len := 3;
    }
    return Ok, len;
  }

  // pmx_socks5_build_userpass
  method BuildUserPass(buf: array<Byte>, user: string, pass: string) returns (st: Status, len: nat)
    modifies buf
    ensures st == if |user| > 255 || |pass| > 255 || buf.Length < 3 + |user| + |pass| then ErrInvalidArg else Ok
    ensures st == Ok ==> len <= buf.Length && buf[..len] == UserPass(user, pass)
  {
    len := 0;
    if |user| > 255 || |pass| > 255 || buf.Length < 3 + |user| + |pass| { return ErrInvalidArg, 0; }
    buf[0], buf[1] := 0x01, |user|;
    assert buf[..2] == [0x01, |user|];
    CopyInto(buf, 2, Bytes(user));
    len := 2 + |user|;
    ghost var front := buf[..len];
    buf[len] := |pass|;
    len := len + 1;
    assert buf[..len] == front + [|pass|];
    CopyInto(buf, len, Bytes(pass));
    return Ok, len + |pass|;
  }

  // pmx_socks5_build_connect
  method BuildConnect5(buf: array<Byte>, ip4: Literals, host: string, port: Port) returns (st: Status, len: nat)
    modifies buf
    ensures st == if ip4(host).Some? then if buf.Length < 10 then ErrInvalidArg else Ok
                  else if |host| > 255 || buf.Length < 7 + |host| then ErrInvalidArg else Ok
    ensures st == Ok ==> len <= buf.Length && buf[..len] == Connect5(ip4, host, port)
  {
    len := 0;
    var lit := ip4(host);
    if lit.Some? {
      if buf.Length < 10 { return ErrInvalidArg, 0; }
      buf[0], buf[1], buf[2], buf[3] := 0x05, 0x01, 0x00, 0x01;
      assert buf[..4] == [0x05, 0x01, 0x00, 0x01];
      CopyInto(buf, 4, QuadBytes(lit.value));
      len := 8;
    } else {
      if |host| > 255 || buf.Length < 7 + |host| { return ErrInvalidArg, 0; }
      buf[0], buf[1], buf[2], buf[3], buf[4] := 0x05, 0x01, 0x00, 0x03, |host|;
      assert buf[..5] == [0x05, 0x01, 0x00, 0x03, |host|];
      CopyInto(buf, 5, Bytes(host));
      len := 5 + |host|;
    }
    CopyInto(buf, len, PortBytes(port));
    return Ok, len + 2;
  }

  // pmx_socks4_build_connect
  method BuildConnect4(buf: array<Byte>, ip4: Literals, host: string, port: Port, socks4a: bool, user: string)
    returns (st: Status, len: nat)
    modifies buf
    ensures st == if ip4(host).None? && !socks4a then ErrUnsupported
                  else if buf.Length < |Connect4(ip4, host, port, user)| then ErrInvalidArg else Ok
    ensures st == Ok ==> len <= buf.Length && buf[..len] == Connect4(ip4, host, port, user)
  {
    len := 0;
    var lit := ip4(host);
    if lit.None? && !socks4a { return ErrUnsupported, 0; }
    var need := 9 + |user| + if lit.None? then |host| + 1 else 0;
    if buf.Length < need { return ErrInvalidArg, 0; }
    buf[0], buf[1] := 0x04, 0x01;
    assert buf[..2] == [0x04, 0x01];
    CopyInto(buf, 2, PortBytes(port));
    var addr: seq<Byte> := if lit.Some? then QuadBytes(lit.value) else [0x00, 0x00, 0x00, 0x01];
    CopyInto(buf, 4, addr);
    CopyInto(buf, 8, Bytes(user));
    len := 8 + |user|;
    CopyInto(buf, len, [0x00]);
    len := len + 1;
    if lit.None? {
      CopyInto(buf, len, Bytes(host));
      len := len + |host|;
      CopyInto(buf, len, [0x00]);
      len := len + 1;
    }
    assert buf[..len] == Connect4(ip4, host, port, user);
    return Ok, len;
  }

  // ---- what a server reads ------------------------------------------------------------

  datatype Dest = Ip(q: Quad) | Name(name: seq<Byte>)

  function DestOf(ip4: Literals, host: string): Dest {
    match ip4(host)
    case Some(q) => Ip(q)
    case None => Name(Bytes(host))
  }

  function PortOf(b: seq<Byte>): Port
    requires |b| == 2
  {
    b[0] as int * 0x100 + b[1]
  }

  // The methods a greeting offers, as section 3 of RFC 1928 lays it out.
  function DecodeGreeting(b: seq<Byte>): Option<seq<Byte>> {
    if |b| >= 2 && b[0] == 0x05 && |b| == 2 + b[1] as int then Some(b[2..]) else None
  }

  // "No authentication" is always offered, user name and password after it when
  // the proxy uses them.
  lemma GreetingRoundTrip(withAuth: bool)
    ensures DecodeGreeting(Greeting(withAuth)) == Some(if withAuth then [0x00, 0x02] else [0x00])
  {
  }

  // A CONNECT request as section 4 of RFC 1928 lays it out.
  function DecodeConnect5(b: seq<Byte>): Option<(Dest, Port)> {
    if |b| < 5 || b[..3] != [0x05, 0x01, 0x00] then None
    else if b[3] == 0x01 && |b| == 10 then Some((Ip(Quad(b[4], b[5], b[6], b[7])), PortOf(b[8..])))
    else if b[3] == 0x03 && |b| == 7 + b[4] as int then
      Some((Name(b[5..5 + b[4] as int]), PortOf(b[5 + b[4] as int..])))
    else None
  }

  // A sub-negotiation as section 2 of RFC 1929 lays it out.
  function DecodeUserPass(b: seq<Byte>): Option<(seq<Byte>, seq<Byte>)> {
    if |b| < 3 || b[0] != 0x01 || |b| < 3 + b[1] as int then None
    else
      var n := 2 + b[1] as int;
      if |b| != n + 1 + b[n] as int then None else Some((b[2..n], b[n + 1..]))
  }

  function NulAt(b: seq<Byte>, i: nat): (j: nat)
    requires i <= |b|
    ensures i <= j <= |b| && (j < |b| ==> b[j] == 0) && forall k :: i <= k < j ==> b[k] != 0
    decreases |b| - i
  {
    if i < |b| && b[i] != 0 then NulAt(b, i + 1) else i
  }

  // Address 0.0.0.x with x non-zero announces a host name (SOCKS4a).
  predicate IsMarker(q: Quad) {
    q.a == 0 && q.b == 0 && q.c == 0 && q.d != 0
  }

  // A SOCKS4 or SOCKS4a CONNECT request: destination, port and user id.
  function DecodeConnect4(b: seq<Byte>): Option<(Dest, Port, seq<Byte>)> {
    if |b| < 9 || b[0] != 0x04 || b[1] != 0x01 then None
    else
      var q := Quad(b[4], b[5], b[6], b[7]);
      var e := NulAt(b, 8);
      if e == |b| then None
      else if !IsMarker(q) then
        if e + 1 == |b| then Some((Ip(q), PortOf(b[2..4]), b[8..e])) else None
      else
        var h := NulAt(b, e + 1);
        if h + 1 == |b| then Some((Name(b[e + 1..h]), PortOf(b[2..4]), b[8..e])) else None
  }

  lemma Connect5RoundTrip(ip4: Literals, host: string, port: Port)
    requires ip4(host).Some? || |host| <= 255
    ensures DecodeConnect5(Connect5(ip4, host, port)) == Some((DestOf(ip4, host), port))
  {
    var b := Connect5(ip4, host, port);
    assert b[..3] == [0x05, 0x01, 0x00];
    match ip4(host) {
      case Some(q) =>
        assert b[8..] == PortBytes(port);
      case None =>
        assert b[5..5 + |host|] == Bytes(host) && b[5 + |host|..] == PortBytes(port);
    }
  }

  lemma UserPassRoundTrip(user: string, pass: string)
    requires |user| <= 255 && |pass| <= 255
    ensures DecodeUserPass(UserPass(user, pass)) == Some((Bytes(user), Bytes(pass)))
  {
    var b := UserPass(user, pass);
    assert b[1] == |user| && b[2 + |user|] == |pass|;
    assert b[2..2 + |user|] == Bytes(user) && b[3 + |user|..] == Bytes(pass);
  }

  // No byte of a C string is the terminator.
  predicate NulFree(s: string) {
    forall i :: 0 <= i < |s| ==> s[i] as int % 0x100 != 0
  }

  lemma {:induction false} NulAfter(b: seq<Byte>, i: nat, s: string)
    requires NulFree(s) && i + |s| < |b| && b[i..i + |s|] == Bytes(s) && b[i + |s|] == 0
    ensures NulAt(b, i) == i + |s|
  {
    forall k | i <= k < i + |s| ensures b[k] != 0 {
      assert b[k] == b[i..i + |s|][k - i] == Bytes(s)[k - i];
    }
  }

  // A SOCKS4 request decodes back exactly unless the destination is a literal
  // of the form 0.0.0.x, which the protocol reserves for announcing a name.
  lemma Connect4RoundTrip(ip4: Literals, host: string, port: Port, user: string)
    requires NulFree(host) && NulFree(user)
    ensures DecodeConnect4(Connect4(ip4, host, port, user)) == Some((DestOf(ip4, host), port, Bytes(user)))
       <==> !(ip4(host).Some? && IsMarker(ip4(host).value))
  {
    match ip4(host) {
      case Some(q) => LiteralRoundTrip(ip4, host, port, user, q);
      case None => NameRoundTrip(ip4, host, port, user);
    }
  }

  lemma LiteralRoundTrip(ip4: Literals, host: string, port: Port, user: string, q: Quad)
    requires NulFree(user) && ip4(host) == Some(q)
    ensures DecodeConnect4(Connect4(ip4, host, port, user)) == Some((Ip(q), port, Bytes(user))) <==> !IsMarker(q)
  {
    var b := Connect4(ip4, host, port, user);
    var e := 8 + |user|;
    assert b[2..4] == PortBytes(port) && b[8..e] == Bytes(user) && b[e] == 0;
    assert Quad(b[4], b[5], b[6], b[7]) == q;
    NulAfter(b, 8, user);
    hide Bytes, PortBytes, QuadBytes, NulAt;
  }

  // The failing input: the server takes 0.0.0.7 for the announcement of a name,
  // finds none, and cannot read the request at all.
  lemma MarkerIsMisread(ip4: Literals, host: string, port: Port, user: string)
    requires ip4(host) == Some(Quad(0, 0, 0, 7)) && NulFree(user)
    ensures DecodeConnect4(Connect4(ip4, host, port, user)) == None
  {
    var b := Connect4(ip4, host, port, user);
    var e := 8 + |user|;
    assert b[8..e] == Bytes(user) && b[e] == 0;
    assert Quad(b[4], b[5], b[6], b[7]) == Quad(0, 0, 0, 7);
    NulAfter(b, 8, user);
    hide Bytes, PortBytes, QuadBytes;
  }

  lemma NameRoundTrip(ip4: Literals, host: string, port: Port, user: string)
    requires NulFree(host) && NulFree(user) && ip4(host).None?
    ensures DecodeConnect4(Connect4(ip4, host, port, user)) == Some((Name(Bytes(host)), port, Bytes(user)))
  {
    hide Bytes, NulAt, DecodeConnect4, PortBytes, IsMarker;
    var b := Connect4(ip4, host, port, user);
    var head := NameHead(port);
    assert b == head + Bytes(user) + [0x00] + Bytes(host) + [0x00];
    hide Connect4, NameHead;
    var e, h := 8 + |user|, 9 + |user| + |host|;
    NameLayout(b, head, Bytes(user), Bytes(host));
    NameHeadFacts(b, port);
    NulAfter(b, 8, user);
    NulAfter(b, e + 1, host);
    DecodesName(b, e, h);
    PortBack(port);
  }

  // The first eight bytes of a SOCKS4a request.
  function NameHead(port: Port): (r: seq<Byte>)
    ensures |r| == 8
  {
    [0x04, 0x01] + PortBytes(port) + [0x00, 0x00, 0x00, 0x01]
  }

  lemma NameHeadFacts(b: seq<Byte>, port: Port)
    requires |b| >= 8 && b[..8] == NameHead(port)
    ensures b[0] == 0x04 && b[1] == 0x01 && b[2..4] == PortBytes(port)
    ensures IsMarker(Quad(b[4], b[5], b[6], b[7]))
  {
    var h := NameHead(port);
    assert forall k :: 0 <= k < 8 ==> b[k] == b[..8][k] == h[k];
    assert b[2..4] == b[..8][2..4] == h[2..4] == PortBytes(port);
  }

  lemma PortBack(p: Port)
    ensures PortOf(PortBytes(p)) == p
  {
  }

  lemma NameLayout(b: seq<Byte>, head: seq<Byte>, user: seq<Byte>, host: seq<Byte>)
    requires |head| == 8 && b == head + user + [0x00] + host + [0x00]
    ensures var e, h := 8 + |user|, 9 + |user| + |host|;
      && |b| == h + 1 && b[..8] == head
      && b[8..e] == user && b[e] == 0 && b[e + 1..h] == host && b[h] == 0
  {
  }

  lemma DecodesName(b: seq<Byte>, e: nat, h: nat)
    requires 8 <= e < h < |b| && |b| == h + 1
    requires b[0] == 0x04 && b[1] == 0x01 && IsMarker(Quad(b[4], b[5], b[6], b[7]))
    requires NulAt(b, 8) == e && NulAt(b, e + 1) == h
    ensures DecodeConnect4(b) == Some((Name(b[e + 1..h]), PortOf(b[2..4]), b[8..e]))
  {
    hide NulAt;
  }

  // The bytes on the wire, byte by byte: ports are in network order.
  lemma OnTheWire(ip4: Literals)
    ensures PortBytes(443) == [0x01, 0xBB]
    ensures ip4("h") == Some(Quad(192, 0, 2, 7)) ==>
      && Connect5(ip4, "h", 443) == [0x05, 0x01, 0x00, 0x01, 192, 0, 2, 7, 0x01, 0xBB]
      && Connect4(ip4, "h", 443, "u") == [0x04, 0x01, 0x01, 0xBB, 192, 0, 2, 7, 0x75, 0x00]
    ensures ip4("h") == None ==>
      && Connect5(ip4, "h", 443) == [0x05, 0x01, 0x00, 0x03, 1, 0x68, 0x01, 0xBB]
      && Connect4(ip4, "h", 443, "u") == [0x04, 0x01, 0x01, 0xBB, 0, 0, 0, 1, 0x75, 0x00, 0x68, 0x00]
    ensures UserPass("u", "pw") == [0x01, 1, 0x75, 2, 0x70, 0x77]
  {
  }

  // ---- replies ---------------------------------------------------------------------------

  // pmx_socks5_parse_method
  function ParseMethod(b: seq<Byte>): Status {
    if |b| < 2 then ErrParse
    else if b[0] != 0x05 then ErrProxyHandshake
    else if b[1] == 0xFF then ErrProxyAuth
    else Ok
  }

  // pmx_socks5_parse_connect_reply
  function ParseConnectReply(b: seq<Byte>): Status {
    if |b| < 2 then ErrParse
    else if b[1] == 0x00 then Ok
    else if b[1] == 0x02 then ErrPermission
    else if b[1] == 0x03 || b[1] == 0x04 then ErrNet
    else if b[1] == 0x05 then ErrConnRefused
    else ErrProxyRefused
  }

  // pmx_socks4_parse_reply
  function ParseReply4(b: seq<Byte>): Status {
    if |b| < 8 then ErrParse
    else if b[1] == 0x5A then Ok
    else if b[1] == 0x5B then ErrProxyRefused
    else if b[1] == 0x5D then ErrProxyAuth
    else ErrProxyHandshake
  }

  // The bound address of a CONNECT reply (section 6 of RFC 1928).
  datatype Bound = V4(addr: seq<Byte>) | V6(addr: seq<Byte>) | Domain(addr: seq<Byte>)

  // One whole dialogue as an accepting server writes it: method choice, the
  // answer to the sub-negotiation if it chose one, and the CONNECT reply.
  datatype Reply5 = Reply5(authVer: Option<Byte>, ver: Byte, rsv: Byte, bound: Bound, port: (Byte, Byte))

  predicate WellFormed5(r: Reply5) {
    match r.bound
    case V4(a) => |a| == 4
    case V6(a) => |a| == 16
    case Domain(a) => |a| <= 255
  }

  function BoundWire(b: Bound): seq<Byte>
    requires b.Domain? ==> |b.addr| <= 255
  {
    match b
    case V4(a) => [0x01] + a
    case V6(a) => [0x04] + a
    case Domain(a) => [0x03, |a|] + a
  }

  function MethodWire(r: Reply5): seq<Byte> {
    match r.authVer
    case None => [0x05, 0x00]
    case Some(v) => [0x05, 0x02, v, 0x00]
  }

  function Wire5(r: Reply5): seq<Byte>
    requires WellFormed5(r)
  {
    MethodWire(r) + ReplyWire(r)
  }

  function ReplyWire(r: Reply5): seq<Byte>
    requires WellFormed5(r)
  {
    [r.ver, 0x00, r.rsv] + BoundWire(r.bound) + [r.port.0, r.port.1]
  }

  // ---- the stream ---------------------------------------------------------------------------

  // A connected socket: what the peer has sent and we have not read, and what
  // we have sent. A failed send breaks the connection.
  class Stream {
    var inbox: seq<Byte>
    var sent: seq<Byte>
    ghost var broken: bool

    constructor (incoming: seq<Byte>)
      ensures inbox == incoming && sent == [] && !broken
    {
      inbox, sent, broken := incoming, [], false;
    }

    method SendAll(buf: array<Byte>, len: nat) returns (st: Status)
      requires len <= buf.Length
      modifies this
      ensures st in {Ok, ErrNet} && inbox == old(inbox)
      ensures st == Ok ==> sent == old(sent) + buf[..len] && broken == old(broken)
      ensures st != Ok ==> broken
    {
      var fine: bool := *;
      if !fine {
        broken := true;
        return ErrNet;
      }
      sent := sent + buf[..len];
      return Ok;
    }

    // pmx_recv_exact: all n bytes, or an error once the peer has no more.
    method RecvExact(n: nat) returns (st: Status, data: seq<Byte>)
      modifies this
      ensures sent == old(sent) && broken == old(broken)
      ensures st == if n <= |old(inbox)| then Ok else ErrNet
      ensures st == Ok ==> data == old(inbox)[..n] && inbox == old(inbox)[n..]
    {
      if n > |inbox| {
        inbox := [];
        return ErrNet, [];
      }
      data := inbox[..n];
      inbox := inbox[n..];
      return Ok, data;
    }
  }

  // ---- handshakes ------------------------------------------------------------------------------

  // What to ask of one hop: reach this host and port through this proxy.
  datatype Ask = Ask(via: Proxy, host: string, port: Port)

  // A completed dialogue: the bytes sent, and the stream behind the replies.
  datatype Talk = Talk(sent: seq<Byte>, rest: seq<Byte>)

  const HANDSHAKE_BUF := 512

  predicate CanAsk5(ip4: Literals, host: string) {
    ip4(host).Some? || |host| <= 255
  }

  predicate CanLogIn(p: Proxy) {
    |p.username| <= 255 && |p.password| <= 255 && |p.username| + |p.password| <= HANDSHAKE_BUF - 3
  }

  // What fits: each at most 255 bytes, and both in the 512 bytes of the buffer.
  lemma CredentialsFit(p: Proxy)
    ensures CanLogIn(p) <==> |p.username| < 256 && |p.password| < 256 && |p.username| + |p.password| + 3 <= 512
  {
  }

  // The length of a CONNECT reply at the head of the stream, if it accepts.
  function ReplyLength(b: seq<Byte>): Option<nat> {
    if |b| < 4 || b[1] != 0x00 then None
    else
      var n: Option<nat> :=
        if b[3] == 0x01 then Some(10)
        else if b[3] == 0x04 then Some(22)
        else if b[3] == 0x03 && |b| >= 5 then Some(7 + b[4] as int)
        else None;
      if n.Some? && n.value <= |b| then n else None
  }

  // The negotiation: greeting, and the sub-negotiation if the server asks.
  function Login(a: Ask, inbox: seq<Byte>): Option<Talk> {
    if |inbox| < 2 || inbox[0] != 0x05 then None
    else if inbox[1] == 0x00 then Some(Talk(Greeting(a.via.useAuth), inbox[2..]))
    else if inbox[1] == 0x02 && CanLogIn(a.via) && |inbox| >= 4 && inbox[3] == 0x00 then
      Some(Talk(Greeting(a.via.useAuth) + UserPass(a.via.username, a.via.password), inbox[4..]))
    else None
  }

  // The server picks user name and password, whatever was offered to it.
  predicate PicksLogin(inbox: seq<Byte>) {
    |inbox| >= 2 && inbox[0] == 0x05 && inbox[1] == 0x02
  }

  // What the client sends before the CONNECT request, and in all, whether or not
  // the handshake succeeds.
  function LoginSent(a: Ask, inbox: seq<Byte>): seq<Byte> {
    Greeting(a.via.useAuth)
    + if PicksLogin(inbox) && CanLogIn(a.via) then UserPass(a.via.username, a.via.password) else []
  }

  function SentTo(ip4: Literals, a: Ask, inbox: seq<Byte>): seq<Byte> {
    LoginSent(a, inbox)
    + if Login(a, inbox).Some? && CanAsk5(ip4, a.host) then Connect5(ip4, a.host, a.port) else []
  }

  function Talk5(ip4: Literals, a: Ask, inbox: seq<Byte>): Option<Talk> {
    match Login(a, inbox)
    case None => None
    case Some(t) => if CanAsk5(ip4, a.host) then Answered(t.rest, t.sent + Connect5(ip4, a.host, a.port)) else None
  }

  function Answered(b: seq<Byte>, sent: seq<Byte>): Option<Talk> {
    match ReplyLength(b)
    case None => None
    case Some(n) => if n <= |b| then Some(Talk(sent, b[n..])) else None
  }

  function User4(p: Proxy): string {
    if p.useAuth then p.username else ""
  }

  function Talk4(ip4: Literals, a: Ask, inbox: seq<Byte>): Option<Talk> {
    var req := Connect4(ip4, a.host, a.port, User4(a.via));
    if (ip4(a.host).None? && a.via.kind != Socks4a) || |req| > HANDSHAKE_BUF then None
    else if |inbox| < 8 || inbox[1] != 0x5A then None
    else Some(Talk(req, inbox[8..]))
  }

  // The first half of socks5_handshake: greeting, method choice, credentials.
  method Negotiate(s: Stream, buf: array<Byte>, a: Ask) returns (st: Status)
    requires buf.Length == HANDSHAKE_BUF
    modifies s, buf
    ensures st == Ok ==>
      && Login(a, old(s.inbox)).Some?
      && s.sent == old(s.sent) + Login(a, old(s.inbox)).value.sent
      && s.inbox == Login(a, old(s.inbox)).value.rest
      && s.broken == old(s.broken)
    ensures st != Ok ==> s.broken || Login(a, old(s.inbox)).None?
    ensures !s.broken && st != Ok ==> var b := old(s.inbox);
      st == if |b| < 2 then ErrNet
            else if b[0] != 0x05 then ErrProxyHandshake
            else if b[1] != 0x02 then ErrProxyAuth
            else if !CanLogIn(a.via) then ErrInvalidArg
            else if |b| < 4 then ErrNet
            else ErrProxyAuth
    ensures s.broken || s.sent == old(s.sent) + LoginSent(a, old(s.inbox))
  {
    var len: nat, reply: seq<Byte>;
    ghost var all, sent0, hello := s.inbox, s.sent, Greeting(a.via.useAuth);
    hide UserPass, Greeting;
    assert hello + [] == hello;
    assert |hello| <= 4 by { GreetingShort(a.via.useAuth); }
    st, len := BuildGreeting(buf, a.via.useAuth);
    if st != Ok { return; }
    st := s.SendAll(buf, len);
    if st != Ok { return; }
    st, reply := s.RecvExact(2);
    if st != Ok { return; }
    st := ParseMethod(reply);
    if st != Ok { return; }
    if reply[1] == 0x02 {
      st, len := BuildUserPass(buf, a.via.username, a.via.password);
      if st != Ok { return; }
      st := s.SendAll(buf, len);
      if st != Ok { return; }
      ghost var creds := UserPass(a.via.username, a.via.password);
      assert (sent0 + hello) + creds == sent0 + (hello + creds);
      st, reply := s.RecvExact(2);
      if st != Ok { return; }
      assert all[2..][..2] == reply && reply[1] == all[3];
      if reply[1] != 0x00 { return ErrProxyAuth; }
      assert all[2..][2..] == all[4..];
    } else if reply[1] != 0x00 {
      return ErrProxyAuth;
    }
  }

  // socks5_handshake
  method Handshake5(s: Stream, ip4: Literals, a: Ask) returns (st: Status)
    modifies s
    ensures st == Ok ==> Talk5(ip4, a, old(s.inbox)).Some?
    ensures st == Ok ==> var t := Talk5(ip4, a, old(s.inbox)).value;
      s.sent == old(s.sent) + t.sent && s.inbox == t.rest && s.broken == old(s.broken)
    ensures st != Ok ==> s.broken || Talk5(ip4, a, old(s.inbox)).None?
    ensures s.broken || s.sent == old(s.sent) + SentTo(ip4, a, old(s.inbox))
  {
    hide Login, LoginSent, Connect5;
    var buf := new Byte[HANDSHAKE_BUF](_ => 0);
    var len: nat;
    ghost var sent0, login, before := s.sent, Login(a, s.inbox), LoginSent(a, s.inbox);
    assert before + [] == before;
    st := Negotiate(s, buf, a);
    if st != Ok { return; }
    LoginSends(a, old(s.inbox));
    st, len := BuildConnect5(buf, ip4, a.host, a.port);
    if st != Ok { return; }
    st := s.SendAll(buf, len);
    if st != Ok { return; }
    ghost var request := Connect5(ip4, a.host, a.port);
    assert (sent0 + before) + request == sent0 + (before + request);
    st := ReadReply5(s);
  }

  lemma LoginSends(a: Ask, inbox: seq<Byte>)
    requires Login(a, inbox).Some?
    ensures Login(a, inbox).value.sent == LoginSent(a, inbox)
  {
    assert Greeting(a.via.useAuth) + [] == Greeting(a.via.useAuth);
  }

  lemma GreetingShort(b: bool)
    ensures |Greeting(b)| <= 4
  {
  }

  // VER REP RSV ATYP, then the bound address and port, drained by type.
  method ReadReply5(s: Stream) returns (st: Status)
    modifies s
    ensures s.sent == old(s.sent) && s.broken == old(s.broken)
    ensures st == Ok <==> ReplyLength(old(s.inbox)).Some?
    ensures st != Ok ==> var b := old(s.inbox);
      st == if |b| < 4 then ErrNet
            else if b[1] == 0x02 then ErrPermission
            else if b[1] == 0x03 || b[1] == 0x04 then ErrNet
            else if b[1] == 0x05 then ErrConnRefused
            else if b[1] != 0x00 then ErrProxyRefused
            else if b[3] in {0x01, 0x03, 0x04} then ErrNet
            else ErrProxyHandshake
    ensures st == Ok ==>
      && ReplyLength(old(s.inbox)).value <= |old(s.inbox)|
      && s.inbox == old(s.inbox)[ReplyLength(old(s.inbox)).value..]
  {
    ghost var b := s.inbox;
    var head: seq<Byte>, drained: seq<Byte>;
    st, head := s.RecvExact(4);
    if st != Ok { return; }
    st := ParseConnectReply(head);
    if st != Ok { return; }
    var addrLen: nat := 0;
    if head[3] == 0x01 {
      addrLen := 4;
    } else if head[3] == 0x04 {
      addrLen := 16;
    } else if head[3] == 0x03 {
      var l: seq<Byte>;
      st, l := s.RecvExact(1);
      if st != Ok { return; }
      assert l[0] == b[4];
      addrLen := l[0];
    } else {
      return ErrProxyHandshake;
    }
    st, drained := s.RecvExact(addrLen + 2);
  }

  // socks4_handshake
  method Handshake4(s: Stream, ip4: Literals, a: Ask) returns (st: Status)
    modifies s
    ensures st == Ok ==> Talk4(ip4, a, old(s.inbox)).Some?
    ensures st == Ok ==> var t := Talk4(ip4, a, old(s.inbox)).value;
      s.sent == old(s.sent) + t.sent && s.inbox == t.rest && s.broken == old(s.broken)
    ensures st != Ok ==> s.broken || Talk4(ip4, a, old(s.inbox)).None?
    ensures !s.broken && st != Ok ==> var b := old(s.inbox);
      st == if ip4(a.host).None? && a.via.kind != Socks4a then ErrUnsupported
            else if |Connect4(ip4, a.host, a.port, User4(a.via))| > 512 then ErrInvalidArg
            else if |b| < 8 then ErrNet
            else if b[1] == 0x5B then ErrProxyRefused
            else if b[1] == 0x5D then ErrProxyAuth
            else ErrProxyHandshake
    ensures s.broken || s.sent == old(s.sent)
      + if st in {ErrUnsupported, ErrInvalidArg} then [] else Connect4(ip4, a.host, a.port, User4(a.via))
  {
    hide Connect4;
    var buf := new Byte[HANDSHAKE_BUF](_ => 0);
    var len: nat, reply: seq<Byte>;
    st, len := BuildConnect4(buf, ip4, a.host, a.port, a.via.kind == Socks4a, User4(a.via));
    if st != Ok { return; }
    st := s.SendAll(buf, len);
    if st != Ok { return; }
    st, reply := s.RecvExact(8);
    if st != Ok { return; }
    st := ParseReply4(reply);
  }

  // ---- when credentials leave ------------------------------------------------------------------------

  // The stored credentials go out behind the greeting.
  predicate SendsCredentials(ip4: Literals, a: Ask, inbox: seq<Byte>) {
    && CanLogIn(a.via)
    && Greeting(a.via.useAuth) + UserPass(a.via.username, a.via.password) <= SentTo(ip4, a, inbox)
  }

  // The greeting offers user name and password among its methods.
  predicate Offers(a: Ask) {
    var methods := DecodeGreeting(Greeting(a.via.useAuth));
    methods.Some? && 0x02 in methods.value
  }

  // Credentials leave exactly when the server picks that method and they fit.
  lemma CredentialsLeave(ip4: Literals, a: Ask, inbox: seq<Byte>)
    ensures SendsCredentials(ip4, a, inbox) <==> PicksLogin(inbox) && CanLogIn(a.via)
  {
    if CanLogIn(a.via) {
      var g, u := Greeting(a.via.useAuth), UserPass(a.via.username, a.via.password);
      var sent := SentTo(ip4, a, inbox);
      if PicksLogin(inbox) {
        hide Greeting, UserPass, Login, Connect5;
        assert g + u <= sent;
      } else if |sent| > |g| {
        assert sent[|g|] == 0x05 && (g + u)[|g|] == 0x01;
      } else {
        assert |g + u| > |g|;
      }
    }
  }

  // A server may pick only a method it was offered (section 3 of RFC 1928), but
  // the client does not check: credentials that were not offered leave as soon as
  // the server asks.
  lemma UnofferedCredentialsLeave(ip4: Literals, a: Ask)
    requires !a.via.useAuth && CanLogIn(a.via)
    ensures SendsCredentials(ip4, a, [0x05, 0x02]) && !Offers(a)
  {
    CredentialsLeave(ip4, a, [0x05, 0x02]);
  }

  // Whatever the server does, credentials leave only when offered: so exactly for
  // proxies that use authentication, or whose credentials do not fit.
  lemma OnlyOfferedCredentialsLeave(ip4: Literals, a: Ask)
    ensures (forall inbox :: SendsCredentials(ip4, a, inbox) ==> Offers(a)) <==> a.via.useAuth || !CanLogIn(a.via)
  {
    assert Offers(a) <==> a.via.useAuth;
    if !a.via.useAuth && CanLogIn(a.via) { UnofferedCredentialsLeave(ip4, a); }
  }

  // ---- exact stream position ---------------------------------------------------------------------

  lemma ReplyLengthOfWire(r: Reply5, rest: seq<Byte>)
    requires WellFormed5(r)
    ensures ReplyLength(ReplyWire(r) + rest) == Some(|ReplyWire(r)|)
  {
  }

  // Against any accepting server the client stops exactly behind the replies,
  // whatever follows them.
  lemma ReadsExactlyTheReplies(ip4: Literals, a: Ask, r: Reply5, rest: seq<Byte>)
    requires WellFormed5(r) && CanAsk5(ip4, a.host) && (r.authVer.Some? ==> CanLogIn(a.via))
    ensures Talk5(ip4, a, Wire5(r) + rest).Some?
    ensures Talk5(ip4, a, Wire5(r) + rest).value.rest == rest
  {
    LoginOfWire(a, r, ReplyWire(r) + rest);
    ReplyLengthOfWire(r, rest);
    var m, w := MethodWire(r), ReplyWire(r);
    assert Wire5(r) + rest == m + (w + rest) && (w + rest)[|w|..] == rest;
    hide Login, ReplyLength, Wire5, MethodWire, ReplyWire, Connect5;
  }

  lemma LoginOfWire(a: Ask, r: Reply5, rest: seq<Byte>)
    requires r.authVer.Some? ==> CanLogIn(a.via)
    ensures Login(a, MethodWire(r) + rest).Some? && Login(a, MethodWire(r) + rest).value.rest == rest
  {
    hide Greeting, UserPass;
    var m := MethodWire(r);
    assert (m + rest)[|m|..] == rest;
  }

  // And nothing else is accepted: whatever was read on success is the wire form
  // of a whole accepting dialogue.
  lemma AcceptsOnlyReplies(ip4: Literals, a: Ask, inbox: seq<Byte>) returns (r: Reply5)
    requires Talk5(ip4, a, inbox).Some?
    ensures WellFormed5(r) && inbox == Wire5(r) + Talk5(ip4, a, inbox).value.rest
  {
    hide Talk5, ReplyLength, ReplyWire, MethodWire, WellFormed5;
    var k, auth := TalkParts(ip4, a, inbox);
    r := ReplyRead(inbox[k..], auth);
    MethodRead(inbox, k, r);
    Reassemble(inbox, k, ReplyLength(inbox[k..]).value);
  }

  // Where the CONNECT reply starts, and what the server said about credentials.
  lemma TalkParts(ip4: Literals, a: Ask, inbox: seq<Byte>) returns (k: nat, auth: Option<Byte>)
    requires Talk5(ip4, a, inbox).Some?
    ensures k <= |inbox| && ReplyLength(inbox[k..]).Some?
    ensures ReplyLength(inbox[k..]).value <= |inbox[k..]|
    ensures Talk5(ip4, a, inbox).value.rest == inbox[k..][ReplyLength(inbox[k..]).value..]
    ensures |inbox| >= 2 && inbox[0] == 0x05
    ensures if k == 2 then inbox[1] == 0x00 && auth == None
            else k == 4 && inbox[1] == 0x02 && inbox[3] == 0x00 && auth == Some(inbox[2])
  {
    hide ReplyLength, Greeting, Connect5, UserPass;
    k := if inbox[1] == 0x00 then 2 else 4;
    auth := if k == 2 then None else Some(inbox[2]);
  }

  lemma MethodRead(inbox: seq<Byte>, k: nat, r: Reply5)
    requires |inbox| >= 2 && k <= |inbox| && inbox[0] == 0x05
    requires if k == 2 then inbox[1] == 0x00 && r.authVer == None
             else k == 4 && inbox[1] == 0x02 && inbox[3] == 0x00 && r.authVer == Some(inbox[2])
    ensures MethodWire(r) == inbox[..k]
  {
  }

  lemma Reassemble(s: seq<Byte>, k: nat, n: nat)
    requires k <= |s| && n <= |s[k..]|
    ensures s == s[..k] + s[k..][..n] + s[k..][n..]
  {
  }

  // An accepted reply at the head of the stream is a wire form.
  lemma ReplyRead(b: seq<Byte>, auth: Option<Byte>) returns (r: Reply5)
    requires ReplyLength(b).Some?
    ensures WellFormed5(r) && r.authVer == auth
    ensures ReplyLength(b).value <= |b| && ReplyWire(r) == b[..ReplyLength(b).value]
  {
    var n := ReplyLength(b).value;
    var bound :=
      if b[3] == 0x01 then V4(b[4..8])
      else if b[3] == 0x04 then V6(b[4..20])
      else Domain(b[5..n - 2]);
    r := Reply5(auth, b[0], b[2], bound, (b[n - 2], b[n - 1]));
    if b[3] == 0x03 {
      assert b[..n] == [b[0], b[1], b[2], b[3], b[4]] + b[5..n - 2] + [b[n - 2], b[n - 1]];
    } else {
      assert b[..n] == [b[0], b[1], b[2], b[3]] + b[4..n - 2] + [b[n - 2], b[n - 1]];
    }
  }

  // What was sent is the greeting, the credentials if asked for, and a request
  // that decodes to the asked destination.
  lemma SentAsksForTheDestination(ip4: Literals, a: Ask, inbox: seq<Byte>)
    requires Talk5(ip4, a, inbox).Some?
    ensures var t := Talk5(ip4, a, inbox).value;
      && CanAsk5(ip4, a.host)
      && DecodeConnect5(Connect5(ip4, a.host, a.port)) == Some((DestOf(ip4, a.host), a.port))
      && t.sent == Greeting(a.via.useAuth)
           + (if inbox[1] == 0x02 then UserPass(a.via.username, a.via.password) else [])
           + Connect5(ip4, a.host, a.port)
  {
    Connect5RoundTrip(ip4, a.host, a.port);
  }

  // The same for SOCKS4, as far as the protocol can say it: the request decodes to
  // the asked destination and port and to the user name, which is sent only when
  // the proxy uses authentication; a name is asked for only under SOCKS4a, and a
  // server that grants nothing is no dialogue.
  lemma Sent4AsksForTheDestination(ip4: Literals, a: Ask, inbox: seq<Byte>)
    requires Talk4(ip4, a, inbox).Some? && NulFree(a.host) && NulFree(a.via.username)
    requires ip4(a.host).Some? ==> !IsMarker(ip4(a.host).value)
    ensures DecodeConnect4(Talk4(ip4, a, inbox).value.sent)
         == Some((DestOf(ip4, a.host), a.port, if a.via.useAuth then Bytes(a.via.username) else []))
    ensures ip4(a.host).Some? || a.via.kind == Socks4a
    ensures |inbox| >= 8 && inbox[1] == 0x5A && Talk4(ip4, a, inbox).value.rest == inbox[8..]
  {
    hide Connect4, DecodeConnect4;
    Connect4RoundTrip(ip4, a.host, a.port, User4(a.via));
  }
}
