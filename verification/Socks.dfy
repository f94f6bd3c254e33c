/**
 The SOCKS5 front end of a connector (internal/connector/socks/protocol.go and the
 handshake in server.go): method negotiation, username/password, CONNECT, and the order of
 the handshake up to the relay.  Formats: sections 3 to 5 of RFC 1928, section 2 of RFC 1929.
 */
module Socks {
  import opened Wrappers
  import opened Bytes

  const SOCKS5: byte := 5
  const METHOD_USER_PASS: byte := 2
  const METHOD_NO_ACCEPTABLE: byte := 255
  const USER_PASS_VERSION: byte := 1
  const CMD_CONNECT: byte := 1
  const ADDR_IPV4: byte := 1
  const ADDR_DOMAIN: byte := 3
  const ADDR_IPV6: byte := 4

  const REPLY_SUCCEEDED: byte := 0
  const REPLY_GENERAL_FAILURE: byte := 1
  const REPLY_NOT_ALLOWED: byte := 2

  /** A destination host with the address type it was sent as. */
  datatype Host = IPv4(addr: bytes) | Domain(name: bytes) | IPv6(addr: bytes)

  predicate ValidHost(h: Host) {
    match h
    case IPv4(a) => |a| == 4
    case Domain(n) => 1 <= |n| <= 255
    case IPv6(a) => |a| == 16
  }

  type port = x: int | 0 <= x < 0x1_0000

  // ----- the encodings a client sends, byte by byte -----

  function Greeting(methods: bytes): bytes
    requires |methods| < 256
  {
    [5, |methods|] + methods
  }

  function UserPass(user: bytes, pass: bytes): bytes
    requires |user| < 256 && |pass| < 256
  {
    [1, |user|] + user + [|pass|] + pass
  }

  function HostBytes(h: Host): bytes
    requires ValidHost(h)
  {
    match h
    case IPv4(a) => [1] + a
    case Domain(n) => [3, |n|] + n
    case IPv6(a) => [4] + a
  }

  function Connect(h: Host, p: port): bytes
    requires ValidHost(h)
  {
    [5, 1, 0] + HostBytes(h) + [p / 256, p % 256]
  }

  // ----- what the readers accept -----

  /** A greeting and what follows it. */
  function ParseGreeting(d: bytes): Option<(bytes, bytes)> {
    if |d| < 2 || d[0] != SOCKS5 || d[1] == 0 then None else ReadN(d[2..], d[1])
  }

  function ParseUserPass(d: bytes): Option<(bytes, bytes, bytes)> {
    if |d| < 2 || d[0] != USER_PASS_VERSION || d[1] == 0 then None
    else
      var user := ReadN(d[2..], d[1]);
      if user.None? || |user.value.1| < 1 || user.value.1[0] == 0 then None
      else
        var pass := ReadN(user.value.1[1..], user.value.1[0]);
        if pass.None? then None else Some((user.value.0, pass.value.0, pass.value.1))
  }

  /** The address after its type byte. */
  function ParseHost(atyp: byte, d: bytes): Option<(Host, bytes)> {
    if atyp == ADDR_IPV4 then
      var a := ReadN(d, 4);
      if a.None? then None else Some((IPv4(a.value.0), a.value.1))
    else if atyp == ADDR_DOMAIN then
      if |d| < 1 || d[0] == 0 then None
      else
        var n := ReadN(d[1..], d[0]);
        if n.None? then None else Some((Domain(n.value.0), n.value.1))
    else if atyp == ADDR_IPV6 then
      var a := ReadN(d, 16);
      if a.None? then None else Some((IPv6(a.value.0), a.value.1))
    else None
  }

  function ParseConnect(d: bytes): Option<(Host, port, bytes)> {
    if |d| < 4 || d[0] != SOCKS5 || d[1] != CMD_CONNECT || d[2] != 0 then None
    else
      var h := ParseHost(d[3], d[4..]);
      if h.None? || |h.value.1| < 2 then None
      else Some((h.value.0, PortOf(h.value.1[..2]), h.value.1[2..]))
  }

  function PortOf(b: bytes): port
    requires |b| == 2
  {
    BigEndianOfValue(b);
    assert Pow256(2) == 0x1_0000;
    Value(b)
  }

  // ----- parsing undoes encoding, and accepts nothing else -----

  lemma GreetingExactly(d: bytes, methods: bytes, rest: bytes)
    ensures ParseGreeting(d) == Some((methods, rest)) <==> 1 <= |methods| < 256 && d == Greeting(methods) + rest
  {
    if 1 <= |methods| < 256 && d == Greeting(methods) + rest {
      assert d[2..] == methods + rest;
    }
    if ParseGreeting(d) == Some((methods, rest)) {
      assert d == [d[0], d[1]] + (methods + rest);
    }
  }

  /** The second half of a username/password message. */
  lemma PassExactly(after: bytes, pass: bytes, rest: bytes)
    ensures 1 <= |pass| < 256 && after == [|pass|] + (pass + rest) <==>
            |after| >= 1 && after[0] != 0 && ReadN(after[1..], after[0]) == Some((pass, rest))
  {
    if |after| >= 1 {
      ReadNExactly(after[1..], after[0], pass, rest);
    }
    if |pass| < 256 {
      Peel(after, |pass|, pass + rest);
    }
  }

  lemma UserPassShape(user: bytes, pass: bytes, rest: bytes)
    requires |user| < 256 && |pass| < 256
    ensures UserPass(user, pass) + rest == [USER_PASS_VERSION, |user|] + (user + ([|pass|] + (pass + rest)))
  {
  }

  lemma UserPassExactly(d: bytes, user: bytes, pass: bytes, rest: bytes)
    ensures ParseUserPass(d) == Some((user, pass, rest)) <==>
            1 <= |user| < 256 && 1 <= |pass| < 256 && d == UserPass(user, pass) + rest
  {
    if 1 <= |user| < 256 && 1 <= |pass| < 256 {
      var after := [|pass|] + (pass + rest);
      UserPassShape(user, pass, rest);
      PeelTwo(d, USER_PASS_VERSION, |user|, user + after);
      ReadNExactly(d[if |d| < 2 then |d| else 2..], |user|, user, after);
      PassExactly(after, pass, rest);
    }
    if ParseUserPass(d) == Some((user, pass, rest)) {
      var after := ReadN(d[2..], d[1]).value.1;
      ReadNExactly(d[2..], d[1], user, after);
      PassExactly(after, pass, rest);
      PeelTwo(d, USER_PASS_VERSION, d[1], user + after);
    }
  }

  lemma HostShape(h: Host, rest: bytes)
    requires ValidHost(h)
    ensures HostBytes(h) + rest ==
            match h
            case IPv4(a) => [ADDR_IPV4] + (a + rest)
            case Domain(n) => [ADDR_DOMAIN] + ([|n|] + (n + rest))
            case IPv6(a) => [ADDR_IPV6] + (a + rest)
  {
  }

  lemma DomainExactly(d: bytes, n: bytes, rest: bytes)
    ensures ParseHost(ADDR_DOMAIN, d) == Some((Domain(n), rest)) <==>
            1 <= |n| < 256 && d == [|n|] + (n + rest)
  {
    PassExactly(d, n, rest);
  }

  lemma HostExactly(atyp: byte, d: bytes, h: Host, rest: bytes)
    ensures ParseHost(atyp, d) == Some((h, rest)) <==> ValidHost(h) && [atyp] + d == HostBytes(h) + rest
  {
    if ValidHost(h) {
      HostShape(h, rest);
    }
    match h {
      case IPv4(a) =>
        ReadNExactly(d, 4, a, rest);
        SameHead(atyp, d, ADDR_IPV4, a + rest);
      case Domain(n) =>
        DomainExactly(d, n, rest);
        if |n| < 256 {
          SameHead(atyp, d, ADDR_DOMAIN, [|n|] + (n + rest));
        }
      case IPv6(a) =>
        ReadNExactly(d, 16, a, rest);
        SameHead(atyp, d, ADDR_IPV6, a + rest);
    }
  }

  lemma SameHead(a: byte, d: bytes, b: byte, tail: bytes)
    ensures [a] + d == [b] + tail <==> a == b && d == tail
  {
    Peel([a] + d, b, tail);
    assert ([a] + d)[1..] == d;
  }

  lemma PortExactly(b: bytes, p: port, rest: bytes)
    ensures |b| >= 2 && PortOf(b[..2]) == p && b[2..] == rest <==> b == BigEndian(2, p) + rest
  {
    assert Pow256(2) == 0x1_0000;
    ValueOfBigEndian(2, p);
    if b == BigEndian(2, p) + rest {
      assert b[..2] == BigEndian(2, p);
    }
    if |b| >= 2 {
      BigEndianOfValue(b[..2]);
      assert b == b[..2] + b[2..];
    }
  }

  lemma ConnectShape(h: Host, p: port, rest: bytes)
    requires ValidHost(h)
    ensures Connect(h, p) + rest == [SOCKS5, CMD_CONNECT] + ([0] + (HostBytes(h) + (BigEndian(2, p) + rest)))
  {
    assert BigEndian(1, p / 256) == BigEndian(0, 0) + [p / 256] && BigEndian(2, p) == [p / 256, p % 256];
  }

  /** The fixed part of a request and its address type. */
  lemma HeaderExactly(d: bytes, tail: bytes)
    requires tail != []
    ensures d == [SOCKS5, CMD_CONNECT] + ([0] + tail) <==>
            |d| >= 4 && d[0] == SOCKS5 && d[1] == CMD_CONNECT && d[2] == 0 && [d[3]] + d[4..] == tail
  {
    PeelTwo(d, SOCKS5, CMD_CONNECT, [0] + tail);
    if |d| >= 4 {
      Peel(d[2..], 0, tail);
      assert d[2..][1..] == [d[3]] + d[4..];
    }
  }

  lemma ConnectIsParsed(d: bytes, h: Host, p: port, rest: bytes)
    requires ValidHost(h) && d == Connect(h, p) + rest
    ensures ParseConnect(d) == Some((h, p, rest))
  {
    var tail := BigEndian(2, p) + rest;
    ConnectShape(h, p, rest);
    HeaderExactly(d, HostBytes(h) + tail);
    HostExactly(d[3], d[4..], h, tail);
    PortExactly(tail, p, rest);
  }

  lemma ParsedIsConnect(d: bytes, h: Host, p: port, rest: bytes)
    requires ParseConnect(d) == Some((h, p, rest))
    ensures ValidHost(h) && d == Connect(h, p) + rest
  {
    var after := ParseHost(d[3], d[4..]).value.1;
    HostExactly(d[3], d[4..], h, after);
    PortExactly(after, p, rest);
    HeaderExactly(d, HostBytes(h) + after);
    ConnectShape(h, p, rest);
  }

  lemma ConnectExactly(d: bytes, h: Host, p: port, rest: bytes)
    ensures ParseConnect(d) == Some((h, p, rest)) <==> ValidHost(h) && d == Connect(h, p) + rest
  {
    if ValidHost(h) && d == Connect(h, p) + rest {
      ConnectIsParsed(d, h, p, rest);
    }
    if ParseConnect(d) == Some((h, p, rest)) {
      ParsedIsConnect(d, h, p, rest);
    }
  }

  // ----- the readers -----

  /** Reads a greeting and answers it.  Only a client that offers username/password gets
      that method; any other gets "no acceptable method" - and no error. */
  method Negotiate(r: Reader, w: Writer) returns (ok: bool)
    modifies r, w
    ensures ok <==> ParseGreeting(old(r.data)).Some?
    ensures ok ==> var (methods, rest) := ParseGreeting(old(r.data)).value;
                   r.data == rest && w.data == old(w.data) + MethodReply(methods)
    ensures !ok ==> w.data == old(w.data)
  {
    var header, methods;
    ok, header := r.ReadFull(2);
    if !ok {
      return;
    }
    if header[0] != SOCKS5 || header[1] == 0 {
      return false;
    }
    ok, methods := r.ReadFull(header[1]);
    if !ok {
      return;
    }
    for i := 0 to |methods|
      invariant METHOD_USER_PASS !in methods[..i]
    {
      if methods[i] == METHOD_USER_PASS {
        w.Write([SOCKS5, METHOD_USER_PASS]);
        return true;
      }
    }
    assert methods[..|methods|] == methods;
    w.Write([SOCKS5, METHOD_NO_ACCEPTABLE]);
    ok := true;
  }

  function MethodReply(methods: bytes): bytes {
    [SOCKS5, if METHOD_USER_PASS in methods then METHOD_USER_PASS else METHOD_NO_ACCEPTABLE]
  }

  method ReadUserPass(r: Reader) returns (ok: bool, user: bytes, pass: bytes)
    modifies r
    ensures ok <==> ParseUserPass(old(r.data)).Some?
    ensures ok ==> (user, pass, r.data) == ParseUserPass(old(r.data)).value
  {
    user, pass := [], [];
    var header;
    ok, header := r.ReadFull(2);
    if !ok {
      return;
    }
    if header[0] != USER_PASS_VERSION || header[1] == 0 {
      return false, [], [];
    }
    ok, user := r.ReadFull(header[1]);
    if !ok {
      return;
    }
    ok, header := r.ReadFull(1);
    if !ok {
      return;
    }
    if header[0] == 0 {
      return false, [], [];
    }
    ok, pass := r.ReadFull(header[0]);
  }

  method ReadHost(r: Reader, atyp: byte) returns (ok: bool, h: Host)
    modifies r
    ensures ok <==> ParseHost(atyp, old(r.data)).Some?
    ensures ok ==> (h, r.data) == ParseHost(atyp, old(r.data)).value
  {
    h := Domain([]);
    var buf;
    if atyp == ADDR_IPV4 {
      ok, buf := r.ReadFull(4);
      h := IPv4(buf);
    } else if atyp == ADDR_DOMAIN {
      ok, buf := r.ReadFull(1);
      if !ok {
        return;
      }
      if buf[0] == 0 {
        return false, h;
      }
      ok, buf := r.ReadFull(buf[0]);
      h := Domain(buf);
    } else if atyp == ADDR_IPV6 {
      ok, buf := r.ReadFull(16);
      h := IPv6(buf);
    } else {
      ok := false;
    }
  }

  method ReadConnectRequest(r: Reader) returns (ok: bool, h: Host, p: port)
    modifies r
    ensures ok <==> ParseConnect(old(r.data)).Some?
    ensures ok ==> (h, p, r.data) == ParseConnect(old(r.data)).value
  {
    h, p := Domain([]), 0;
    var header, portBuf;
    ok, header := r.ReadFull(4);
    if !ok {
      return;
    }
    if header[0] != SOCKS5 || header[1] != CMD_CONNECT || header[2] != 0 {
      return false, h, p;
    }
    ok, h := ReadHost(r, header[3]);
    if !ok {
      return;
    }
    ok, portBuf := r.ReadFull(2);
    if ok {
      p := PortOf(portBuf);
    }
  }

  // ----- the handshake -----

  function AuthReply(success: bool): bytes {
    [USER_PASS_VERSION, if success then 0 else 1]
  }

  function ConnectReply(reply: byte): bytes {
    [SOCKS5, reply, 0, ADDR_IPV4, 0, 0, 0, 0, 0, 0]
  }

  /** The gateway's side: whether a stream can be opened, and its answer to the open frame
      (None when the exchange of frames fails). */
  datatype Gateway = Gateway(opens: bool, answer: Option<bool>)

  datatype Outcome = Outcome(tunnelled: bool, relaying: bool, app: bytes, dest: Host)

  /** The stages a client's bytes get through. */
  function Greeted(d: bytes): Option<bytes> {
    if ParseGreeting(d).Some? then Some(ParseGreeting(d).value.1) else None
  }

  predicate Authenticated(d: bytes, auth: (bytes, bytes) -> bool) {
    && Greeted(d).Some?
    && var up := ParseUserPass(Greeted(d).value);
       up.Some? && auth(up.value.0, up.value.1)
  }

  function AfterAuth(d: bytes, auth: (bytes, bytes) -> bool): bytes
    requires Authenticated(d, auth)
  {
    ParseUserPass(Greeted(d).value).value.2
  }

  /** The answer to a CONNECT; nothing is said when the gateway cannot be reached. */
  function ConnectAnswer(d: bytes, gw: Gateway): bytes {
    if ParseConnect(d).None? then ConnectReply(REPLY_GENERAL_FAILURE)
    else if !gw.opens || gw.answer.None? then []
    else ConnectReply(if gw.answer.value then REPLY_SUCCEEDED else REPLY_NOT_ALLOWED)
  }

  /** Everything the server says to a client that sends `d`. */
  function Answer(d: bytes, auth: (bytes, bytes) -> bool, gw: Gateway): bytes {
    if Greeted(d).None? then []
    else
      MethodReply(ParseGreeting(d).value.0)
      + (if Authenticated(d, auth) then AuthReply(true) + ConnectAnswer(AfterAuth(d, auth), gw) else AuthReply(false))
  }

  /** A connection up to the relay.  The tunnel stream is opened exactly for clients that
      authenticated and then sent a CONNECT; it is opened for the application that
      authenticated, and the relay starts with the bytes after the CONNECT. */
  method HandleConnection(r: Reader, w: Writer, auth: (bytes, bytes) -> bool, gw: Gateway) returns (o: Outcome)
    modifies r, w
    ensures o.tunnelled <==>
              Authenticated(old(r.data), auth) && ParseConnect(AfterAuth(old(r.data), auth)).Some? && gw.opens
    ensures o.relaying <==> o.tunnelled && gw.answer == Some(true)
    ensures o.tunnelled ==> o.app == ParseUserPass(Greeted(old(r.data)).value).value.0
    ensures o.tunnelled ==> var (dest, _, rest) := ParseConnect(AfterAuth(old(r.data), auth)).value;
                            o.dest == dest && r.data == rest
    ensures w.data == old(w.data) + Answer(old(r.data), auth, gw)
  {
    o := Outcome(false, false, [], Domain([]));
    var ok := Negotiate(r, w);
    if !ok {
      return;
    }
    ghost var start := old(w.data);
    ghost var methodReply := MethodReply(ParseGreeting(old(r.data)).value.0);
    Append(start, methodReply, AuthReply(false));
    Append(start, methodReply, AuthReply(true));
    var app, password;
    ok, app, password := ReadUserPass(r);
    if !ok {
      w.Write(AuthReply(false));
      return;
    }
    if !auth(app, password) {
      w.Write(AuthReply(false));
      return;
    }
    w.Write(AuthReply(true));
    ghost var spoken := methodReply + AuthReply(true);
    assert w.data == start + spoken;
    Append(methodReply, AuthReply(true), ConnectAnswer(r.data, gw));
    Append(start, spoken, ConnectAnswer(r.data, gw));
    var h, p;
    ok, h, p := ReadConnectRequest(r);
    if !ok {
      w.Write(ConnectReply(REPLY_GENERAL_FAILURE));
      return;
    }
    if !gw.opens {
      return;
    }
    o := Outcome(true, false, app, h);
    if gw.answer.None? {
      return;
    }
    if !gw.answer.value {
      w.Write(ConnectReply(REPLY_NOT_ALLOWED));
      return;
    }
    w.Write(ConnectReply(REPLY_SUCCEEDED));
    o := o.(relaying := true);
  }

  /** What a client hears tells it exactly how far it got, byte by byte: 5 and 2 iff it offers
      username/password, else 5 and 255; then 1 and 0 iff its credentials are accepted, else 1
      and 1; then the reply to its CONNECT, 0 iff the relay runs. */
  lemma AnswerTellsTheOutcome(d: bytes, auth: (bytes, bytes) -> bool, gw: Gateway)
    ensures var a := Answer(d, auth, gw);
            && (a == [] <==> Greeted(d).None?)
            && (Greeted(d).Some? ==>
                  |a| >= 4 && a[..2] == [5, if 2 in ParseGreeting(d).value.0 then 2 else 255])
            && (|a| >= 4 && a[2..4] == [1, 0] <==> Authenticated(d, auth))
            && (|a| >= 4 && a[2..4] == [1, 1] <==> Greeted(d).Some? && !Authenticated(d, auth))
            && (|a| == 14 && a[4..] == [5, 0, 0, 1, 0, 0, 0, 0, 0, 0] <==>
                  && Authenticated(d, auth) && ParseConnect(AfterAuth(d, auth)).Some?
                  && gw.opens && gw.answer == Some(true))
            && (|a| == 14 && a[4..] == [5, 1, 0, 1, 0, 0, 0, 0, 0, 0] <==>
                  Authenticated(d, auth) && ParseConnect(AfterAuth(d, auth)).None?)
            && (|a| == 14 && a[4..] == [5, 2, 0, 1, 0, 0, 0, 0, 0, 0] <==>
                  && Authenticated(d, auth) && ParseConnect(AfterAuth(d, auth)).Some?
                  && gw.opens && gw.answer == Some(false))
            && (Greeted(d).Some? ==> |a| == 4 || |a| == 14)
  {
    var a := Answer(d, auth, gw);
    if Authenticated(d, auth) {
      var rest := ConnectAnswer(AfterAuth(d, auth), gw);
      assert a[2..4] == AuthReply(true) && a[4..] == rest;
      assert ConnectReply(REPLY_SUCCEEDED)[1] != ConnectReply(REPLY_GENERAL_FAILURE)[1];
      assert ConnectReply(REPLY_SUCCEEDED)[1] != ConnectReply(REPLY_NOT_ALLOWED)[1];
    } else if Greeted(d).Some? {
      assert a[2..4] == AuthReply(false) && AuthReply(false)[1] != AuthReply(true)[1];
    }
  }

  /** A well-formed client script, followed by anything, gets through with its own name and
      destination, and what follows is left for the relay. */
  lemma WellFormedClientGetsThrough(auth: (bytes, bytes) -> bool, methods: bytes, user: bytes, pass: bytes,
                                    h: Host, p: port, tail: bytes)
    requires 1 <= |methods| < 256 && 1 <= |user| < 256 && 1 <= |pass| < 256 && ValidHost(h) && auth(user, pass)
    ensures var d := Greeting(methods) + (UserPass(user, pass) + (Connect(h, p) + tail));
            && Authenticated(d, auth)
            && ParseUserPass(Greeted(d).value).value.0 == user
            && ParseConnect(AfterAuth(d, auth)) == Some((h, p, tail))
  {
    var rest := Connect(h, p) + tail;
    GreetingExactly(Greeting(methods) + (UserPass(user, pass) + rest), methods, UserPass(user, pass) + rest);
    UserPassExactly(UserPass(user, pass) + rest, user, pass, rest);
    ConnectExactly(rest, h, p, tail);
  }

  /** Conversely whoever got a stream sent exactly such a script with credentials that are
      accepted - though perhaps without having offered the method: after "no acceptable
      method" the server reads on instead of closing, as section 3 of RFC 1928 expects of
      the client only. */
  lemma OnlySuchClientsGetThrough(d: bytes, auth: (bytes, bytes) -> bool)
    requires Authenticated(d, auth) && ParseConnect(AfterAuth(d, auth)).Some?
    ensures exists methods: bytes, user: bytes, pass: bytes, h, p, tail: bytes ::
              && 1 <= |methods| < 256 && 1 <= |user| < 256 && 1 <= |pass| < 256 && ValidHost(h) && auth(user, pass)
              && d == Greeting(methods) + (UserPass(user, pass) + (Connect(h, p) + tail))
  {
    var (methods, d1) := ParseGreeting(d).value;
    var (user, pass, d2) := ParseUserPass(d1).value;
    var (h, p, tail) := ParseConnect(d2).value;
    GreetingExactly(d, methods, d1);
    UserPassExactly(d1, user, pass, d2);
    ConnectExactly(d2, h, p, tail);
  }
}
