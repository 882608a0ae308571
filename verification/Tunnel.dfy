// relay_conn_worker up to the splice loop: one handshake per hop, each inside
// the tunnel of the one before.

module Tunnel {
  import opened Types
  import opened Model
  import opened Socks
  import opened Relay

  // What the hops are asked, in order: each the next one, the last the
  // registered destination.
  function AskAt(route: Route, i: nat): Ask
    requires i < |route.chain|
  {
    if i + 1 < |route.chain|
    then Ask(route.chain[i], route.chain[i + 1].host, route.chain[i + 1].port)
    else Ask(route.chain[i], route.host, route.port)
  }

  function Asks(route: Route): (r: seq<Ask>)
    ensures |r| == |route.chain| && forall i :: 0 <= i < |r| ==> r[i] == AskAt(route, i)
  {
    seq(|route.chain|, i requires 0 <= i < |route.chain| => AskAt(route, i))
  }

  // The hop loop, given the outcome of dialling the first hop and what each
  // handshake begun returned: it stops at the first failure. The result is its
  // final status and what was asked.
  function HopRun(route: Route, connected: Status, answers: seq<Status>): (Status, seq<Ask>)
    requires |answers| <= |route.chain|
  {
    if answers == [] then (connected, [])
    else
      var n := |answers| - 1;
      var (st, asked) := HopRun(route, connected, answers[..n]);
      if st != Ok then (st, asked) else (answers[n], asked + [AskAt(route, n)])
  }

  // The loop is over: every hop was asked, or something failed.
  predicate HopsOver(route: Route, connected: Status, answers: seq<Status>) {
    && |answers| <= |route.chain|
    && (|answers| == |route.chain| || HopRun(route, connected, answers).0 != Ok)
  }

  // What was asked is always the front of the full list, and it is the full list
  // when the loop succeeds.
  lemma {:induction false} HopsAskedInOrder(route: Route, connected: Status, answers: seq<Status>)
    requires |answers| <= |route.chain|
    ensures var (st, asked) := HopRun(route, connected, answers);
      asked <= Asks(route) && (st == Ok ==> |asked| == |answers|)
    ensures HopsOver(route, connected, answers) && HopRun(route, connected, answers).0 == Ok
            ==> HopRun(route, connected, answers).1 == Asks(route)
  {
    if answers != [] { HopsAskedInOrder(route, connected, answers[..|answers| - 1]); }
  }

  // It succeeds exactly when the first hop was reached and every handshake was
  // accepted.
  lemma {:induction false} SucceedsIffAllDo(route: Route, connected: Status, answers: seq<Status>)
    requires |answers| <= |route.chain|
    ensures HopRun(route, connected, answers).0 == Ok
       <==> connected == Ok && forall i :: 0 <= i < |answers| ==> answers[i] == Ok
  {
    if answers != [] {
      var n := |answers| - 1;
      SucceedsIffAllDo(route, connected, answers[..n]);
      if forall i :: 0 <= i < n ==> answers[..n][i] == Ok {
        assert forall i :: 0 <= i < n ==> answers[i] == answers[..n][i];
      }
    }
  }

  // Otherwise it ends with the first failure: dialling itself, with nothing asked,
  // or the first handshake that did not succeed, with that hop asked last.
  lemma {:induction false} EndsAtTheFirstFailure(route: Route, connected: Status, answers: seq<Status>)
    requires |answers| <= |route.chain|
    ensures var (st, asked) := HopRun(route, connected, answers);
      && (connected != Ok ==> st == connected && asked == [])
      && (connected == Ok && st != Ok ==>
            && 0 < |asked| <= |answers| && answers[|asked| - 1] == st
            && forall i :: 0 <= i < |asked| - 1 ==> answers[i] == Ok)
      && (st == Ok ==> |asked| == |answers| && forall i :: 0 <= i < |answers| ==> answers[i] == Ok)
  {
    if answers != [] {
      var n := |answers| - 1;
      EndsAtTheFirstFailure(route, connected, answers[..n]);
      assert forall i :: 0 <= i < n ==> answers[..n][i] == answers[i];
    }
  }

  predicate IsSocks(p: Proxy) {
    p.kind == Socks5 || p.kind == Socks4 || p.kind == Socks4a
  }

  function TalkOf(ip4: Literals, a: Ask, inbox: seq<Byte>): Option<Talk> {
    if a.via.kind == Socks5 then Talk5(ip4, a, inbox)
    else if IsSocks(a.via) then Talk4(ip4, a, inbox)
    else None
  }

  // Successive dialogues on one stream.
  function TalkAll(ip4: Literals, asks: seq<Ask>, inbox: seq<Byte>): Option<Talk> {
    if asks == [] then Some(Talk([], inbox))
    else
      match TalkAll(ip4, asks[..|asks| - 1], inbox)
      case None => None
      case Some(t) =>
        match TalkOf(ip4, asks[|asks| - 1], t.rest)
        case None => None
        case Some(u) => Some(Talk(t.sent + u.sent, u.rest))
  }

  // An HTTP proxy's handshake as its client sees it; how far it reads past the
  // status line depends on how the bytes arrive.
  datatype Http = HttpOutcome(st: Status, wrote: seq<Byte>, read: nat)

  // pmx_proxy_handshake
  method ProxyHandshake(s: Stream, ip4: Literals, a: Ask, http: Http) returns (st: Status)
    modifies s
    ensures st == Ok && IsSocks(a.via) ==> TalkOf(ip4, a, old(s.inbox)).Some?
    ensures st == Ok && IsSocks(a.via) ==> var t := TalkOf(ip4, a, old(s.inbox)).value;
      s.sent == old(s.sent) + t.sent && s.inbox == t.rest && s.broken == old(s.broken)
    ensures st != Ok && IsSocks(a.via) ==> s.broken || TalkOf(ip4, a, old(s.inbox)).None?
    ensures a.via.kind == Https ==> st == ErrUnsupported
  {
    match a.via.kind {
      case Socks5 => st := Handshake5(s, ip4, a);
      case Socks4 => st := Handshake4(s, ip4, a);
      case Socks4a => st := Handshake4(s, ip4, a);
      case Http =>
        s.sent := s.sent + http.wrote;
        s.inbox := s.inbox[Min(http.read, |s.inbox|)..];
        st := http.st;
      case Https => st := ErrUnsupported;
    }
  }

  // The hop loop. `asked` records every handshake begun, in order, and answers
  // what each returned; connected is the outcome of dialling the first hop.
  method Dial(s: Stream, ip4: Literals, route: Route, connected: Status, https: seq<Http>)
    returns (st: Status, asked: seq<Ask>, ghost answers: seq<Status>)
    requires |https| == |route.chain|
    modifies s
    ensures HopsOver(route, connected, answers) && (st, asked) == HopRun(route, connected, answers)
    ensures st == Ok ==> asked == Asks(route)
    ensures st == Ok && (forall p :: p in route.chain ==> IsSocks(p)) ==>
      && TalkAll(ip4, Asks(route), old(s.inbox)).Some?
      && s.sent == old(s.sent) + TalkAll(ip4, Asks(route), old(s.inbox)).value.sent
      && s.inbox == TalkAll(ip4, Asks(route), old(s.inbox)).value.rest
    ensures st != Ok && connected == Ok && (forall p :: p in route.chain ==> IsSocks(p)) ==>
      s.broken || TalkAll(ip4, Asks(route), old(s.inbox)).None?
  {
    ghost var asks := Asks(route);
    ghost var inbox0, sent0 := s.inbox, s.sent;
    ghost var socks := forall p :: p in route.chain ==> IsSocks(p);
    hide TalkOf, TalkAll, Reached, Stands, Asks, HopRun, HopsOver;
    asked, answers := [], [];
    st := connected;
    StandsAtStart(ip4, asks, inbox0, sent0, s.broken);
    RunStarts(route, connected);
    var i := 0;
    while st == Ok && i < |route.chain|
      invariant i == |answers| <= |route.chain| && (st, asked) == HopRun(route, connected, answers)
      invariant st == Ok ==> connected == Ok
      invariant connected == Ok && socks ==> Stands(ip4, asks, i, inbox0, sent0, s.inbox, s.sent, st, s.broken)
      decreases |route.chain| - i
    {
      var a: Ask;
      if i + 1 < |route.chain| {
        a := Ask(route.chain[i], route.chain[i + 1].host, route.chain[i + 1].port);
      } else {
        a := Ask(route.chain[i], route.host, route.port);
      }
      assert a == AskAt(route, i) == asks[i] && a.via == route.chain[i] && a.via in route.chain;
      ghost var inbox, sent := s.inbox, s.sent;
      st := ProxyHandshake(s, ip4, a, https[i]);
      RunGoesOn(route, connected, answers, st);
      asked, answers := asked + [a], answers + [st];
      if socks {
        assert IsSocks(a.via);
        HopStands(ip4, asks, i, inbox0, sent0, inbox, sent, s.inbox, s.sent, st, s.broken);
      }
      i := i + 1;
    }
    RunEnds(route, connected, answers);
    if connected == Ok && socks { StandsAtEnd(ip4, asks, i, inbox0, sent0, s.inbox, s.sent, st, s.broken); }
  }

  lemma RunEnds(route: Route, connected: Status, answers: seq<Status>)
    requires |answers| <= |route.chain|
    requires |answers| == |route.chain| || HopRun(route, connected, answers).0 != Ok
    ensures HopsOver(route, connected, answers)
    ensures HopRun(route, connected, answers).0 == Ok ==> HopRun(route, connected, answers).1 == Asks(route)
    ensures HopRun(route, connected, answers).0 == Ok ==> |answers| == |route.chain|
  {
    HopsAskedInOrder(route, connected, answers);
  }

  lemma RunStarts(route: Route, connected: Status)
    ensures HopRun(route, connected, []) == (connected, [])
  {
  }

  lemma RunGoesOn(route: Route, connected: Status, answers: seq<Status>, st: Status)
    requires |answers| < |route.chain| && HopRun(route, connected, answers).0 == Ok
    ensures HopRun(route, connected, answers + [st])
         == (st, HopRun(route, connected, answers).1 + [AskAt(route, |answers|)])
  {
    assert (answers + [st])[..|answers|] == answers;
  }

  // The first i dialogues are behind us.
  ghost predicate Reached(ip4: Literals, asks: seq<Ask>, i: nat, inbox0: seq<Byte>, sent0: seq<Byte>,
                          inbox: seq<Byte>, sent: seq<Byte>)
    requires i <= |asks|
  {
    var t := TalkAll(ip4, asks[..i], inbox0);
    t.Some? && sent == sent0 + t.value.sent && inbox == t.value.rest
  }

  // Where the stream stands after i handshakes: behind their dialogues, or the
  // last of them failed because the connection broke or no dialogue was there.
  ghost predicate Stands(ip4: Literals, asks: seq<Ask>, i: nat, inbox0: seq<Byte>, sent0: seq<Byte>,
                         inbox: seq<Byte>, sent: seq<Byte>, st: Status, broken: bool)
    requires i <= |asks|
  {
    if st == Ok then Reached(ip4, asks, i, inbox0, sent0, inbox, sent)
    else broken || TalkAll(ip4, asks, inbox0).None?
  }

  lemma StandsAtStart(ip4: Literals, asks: seq<Ask>, inbox0: seq<Byte>, sent0: seq<Byte>, broken: bool)
    ensures Stands(ip4, asks, 0, inbox0, sent0, inbox0, sent0, Ok, broken)
  {
    assert sent0 + [] == sent0;
  }

  lemma HopStands(ip4: Literals, asks: seq<Ask>, i: nat, inbox0: seq<Byte>, sent0: seq<Byte>,
                  inbox: seq<Byte>, sent: seq<Byte>, inbox': seq<Byte>, sent': seq<Byte>, st: Status, broken: bool)
    requires i < |asks| && Stands(ip4, asks, i, inbox0, sent0, inbox, sent, Ok, false)
    requires st == Ok ==> TalkOf(ip4, asks[i], inbox).Some?
    requires st == Ok ==> var u := TalkOf(ip4, asks[i], inbox).value; sent' == sent + u.sent && inbox' == u.rest
    requires st != Ok ==> broken || TalkOf(ip4, asks[i], inbox).None?
    ensures Stands(ip4, asks, i + 1, inbox0, sent0, inbox', sent', st, broken)
  {
    hide TalkOf, TalkAll, Reached;
    if st == Ok {
      ReachedNext(ip4, asks, i, inbox0, sent0, inbox, sent);
    } else if !broken {
      ReachedLast(ip4, asks, i, inbox0, sent0, inbox, sent);
    }
  }

  lemma StandsAtEnd(ip4: Literals, asks: seq<Ask>, i: nat, inbox0: seq<Byte>, sent0: seq<Byte>,
                    inbox: seq<Byte>, sent: seq<Byte>, st: Status, broken: bool)
    requires i <= |asks| && Stands(ip4, asks, i, inbox0, sent0, inbox, sent, st, broken)
    requires st == Ok ==> i == |asks|
    ensures st == Ok ==> TalkAll(ip4, asks, inbox0).Some?
    ensures st == Ok ==> var t := TalkAll(ip4, asks, inbox0).value; sent == sent0 + t.sent && inbox == t.rest
    ensures st != Ok ==> broken || TalkAll(ip4, asks, inbox0).None?
  {
    hide TalkAll;
    assert asks[..|asks|] == asks;
  }

  lemma ReachedNext(ip4: Literals, asks: seq<Ask>, i: nat, inbox0: seq<Byte>, sent0: seq<Byte>,
                    inbox: seq<Byte>, sent: seq<Byte>)
    requires i < |asks| && Reached(ip4, asks, i, inbox0, sent0, inbox, sent)
    requires TalkOf(ip4, asks[i], inbox).Some?
    ensures var u := TalkOf(ip4, asks[i], inbox).value;
      Reached(ip4, asks, i + 1, inbox0, sent0, u.rest, sent + u.sent)
  {
    hide TalkOf;
    TalkNext(ip4, asks, inbox0, i);
    var t, u := TalkAll(ip4, asks[..i], inbox0).value, TalkOf(ip4, asks[i], inbox).value;
    assert (sent0 + t.sent) + u.sent == sent0 + (t.sent + u.sent);
  }

  lemma ReachedLast(ip4: Literals, asks: seq<Ask>, i: nat, inbox0: seq<Byte>, sent0: seq<Byte>,
                    inbox: seq<Byte>, sent: seq<Byte>)
    requires i < |asks| && Reached(ip4, asks, i, inbox0, sent0, inbox, sent)
    requires TalkOf(ip4, asks[i], inbox).None?
    ensures TalkAll(ip4, asks, inbox0).None?
  {
    hide TalkOf;
    TalkNext(ip4, asks, inbox0, i);
    NoneStaysNone(ip4, asks, inbox0, i + 1);
  }

  lemma TalkNext(ip4: Literals, asks: seq<Ask>, inbox: seq<Byte>, i: nat)
    requires i < |asks|
    ensures TalkAll(ip4, asks[..i + 1], inbox) ==
      match TalkAll(ip4, asks[..i], inbox)
      case None => None
      case Some(t) =>
        match TalkOf(ip4, asks[i], t.rest)
        case None => None
        case Some(u) => Some(Talk(t.sent + u.sent, u.rest))
  {
    assert asks[..i + 1][..i] == asks[..i];
  }

  lemma {:induction false} NoneStaysNone(ip4: Literals, asks: seq<Ask>, inbox: seq<Byte>, i: nat)
    requires i <= |asks| && TalkAll(ip4, asks[..i], inbox).None?
    ensures TalkAll(ip4, asks, inbox).None?
    decreases |asks| - i
  {
    if i == |asks| {
      assert asks[..i] == asks;
    } else {
      TalkNext(ip4, asks, inbox, i);
      NoneStaysNone(ip4, asks, inbox, i + 1);
    }
  }

  // ---- a whole chain of accepting servers ---------------------------------------------

  datatype Reply = R5(r: Reply5) | R4(bytes: seq<Byte>)

  function Wire(r: Reply): seq<Byte>
    requires r.R5? ==> WellFormed5(r.r)
  {
    match r
    case R5(x) => Wire5(x)
    case R4(b) => b
  }

  // Server reply r accepts what hop a asks, and the request can be built.
  predicate Accepts(ip4: Literals, a: Ask, r: Reply) {
    if a.via.kind == Socks5 then
      && r.R5? && WellFormed5(r.r) && CanAsk5(ip4, a.host) && (r.r.authVer.Some? ==> CanLogIn(a.via))
    else
      && IsSocks(a.via) && r.R4? && |r.bytes| == 8 && r.bytes[1] == 0x5A
      && (ip4(a.host).Some? || a.via.kind == Socks4a)
      && |Connect4(ip4, a.host, a.port, User4(a.via))| <= HANDSHAKE_BUF
  }

  ghost predicate AllAccept(ip4: Literals, asks: seq<Ask>, rs: seq<Reply>) {
    |rs| == |asks| && forall i :: 0 <= i < |rs| ==> Accepts(ip4, asks[i], rs[i])
  }

  function Wires(ip4: Literals, asks: seq<Ask>, rs: seq<Reply>): seq<Byte>
    requires AllAccept(ip4, asks, rs)
  {
    if rs == [] then []
    else Wires(ip4, asks[..|asks| - 1], rs[..|rs| - 1]) + Wire(rs[|rs| - 1])
  }

  lemma HopReadsItsReply(ip4: Literals, a: Ask, r: Reply, rest: seq<Byte>)
    requires Accepts(ip4, a, r)
    ensures TalkOf(ip4, a, Wire(r) + rest).Some? && TalkOf(ip4, a, Wire(r) + rest).value.rest == rest
  {
    match r {
      case R5(x) =>
        hide Talk5;
        ReadsExactlyTheReplies(ip4, a, x, rest);
      case R4(b) =>
        hide Connect4;
        assert (b + rest)[8..] == rest && (b + rest)[1] == b[1];
    }
  }

  // After any chain of accepting SOCKS hops the stream stands at the first
  // tunnelled byte.
  lemma {:induction false} ChainReadsExactlyTheReplies(ip4: Literals, asks: seq<Ask>, rs: seq<Reply>,
                                                       tunnelled: seq<Byte>)
    requires AllAccept(ip4, asks, rs)
    ensures var t := TalkAll(ip4, asks, Wires(ip4, asks, rs) + tunnelled);
      t.Some? && t.value.rest == tunnelled
    decreases |asks|
  {
    if asks == [] {
      assert [] + tunnelled == tunnelled;
    } else {
      hide *;
      var n := |asks| - 1;
      FrontAccepts(ip4, asks, rs);
      WiresSplit(ip4, asks, rs, tunnelled);
      ChainReadsExactlyTheReplies(ip4, asks[..n], rs[..n], Wire(rs[n]) + tunnelled);
      HopReadsItsReply(ip4, asks[n], rs[n], tunnelled);
      TalkNext(ip4, asks, Wires(ip4, asks, rs) + tunnelled, n);
      assert asks[..n + 1] == asks;
    }
  }

  lemma WiresSplit(ip4: Literals, asks: seq<Ask>, rs: seq<Reply>, tunnelled: seq<Byte>)
    requires AllAccept(ip4, asks, rs) && asks != []
    ensures var n := |asks| - 1;
      && AllAccept(ip4, asks[..n], rs[..n]) && (rs[n].R5? ==> WellFormed5(rs[n].r))
      && Wires(ip4, asks, rs) + tunnelled == Wires(ip4, asks[..n], rs[..n]) + (Wire(rs[n]) + tunnelled)
  {
    FrontAccepts(ip4, asks, rs);
    hide AllAccept, Accepts, WellFormed5, Wire;
  }

  lemma FrontAccepts(ip4: Literals, asks: seq<Ask>, rs: seq<Reply>)
    requires AllAccept(ip4, asks, rs) && asks != []
    ensures var n := |asks| - 1;
      && AllAccept(ip4, asks[..n], rs[..n])
      && Accepts(ip4, asks[n], rs[n]) && (rs[n].R5? ==> WellFormed5(rs[n].r))
  {
  }

  // ---- what the bytes ask for ------------------------------------------------------------

  // The bytes of one dialogue ask hop a's proxy for a's destination: a CONNECT
  // request behind the greeting and perhaps the credentials, or a SOCKS4 request,
  // which cannot say a literal of the form 0.0.0.x.
  ghost predicate AsksFor(ip4: Literals, a: Ask, part: seq<Byte>) {
    if a.via.kind == Socks5 then
      exists login: seq<Byte>, request: seq<Byte> ::
        && part == login + request && DecodeConnect5(request) == Some((DestOf(ip4, a.host), a.port))
        && (login == Greeting(a.via.useAuth)
            || (CanLogIn(a.via) && login == Greeting(a.via.useAuth) + UserPass(a.via.username, a.via.password)))
    else
      NulFree(a.host) && NulFree(a.via.username) && (ip4(a.host).Some? ==> !IsMarker(ip4(a.host).value)) ==>
        DecodeConnect4(part)
        == Some((DestOf(ip4, a.host), a.port, if a.via.useAuth then Bytes(a.via.username) else []))
  }

  lemma TalkAsksFor(ip4: Literals, a: Ask, inbox: seq<Byte>)
    requires TalkOf(ip4, a, inbox).Some?
    ensures AsksFor(ip4, a, TalkOf(ip4, a, inbox).value.sent)
  {
    var sent := TalkOf(ip4, a, inbox).value.sent;
    if a.via.kind == Socks5 {
      SentAsksForTheDestination(ip4, a, inbox);
      hide DecodeConnect5, Connect5, Greeting, UserPass, ReplyLength;
      var login := Greeting(a.via.useAuth)
        + if inbox[1] == 0x02 then UserPass(a.via.username, a.via.password) else [];
      assert Greeting(a.via.useAuth) + [] == Greeting(a.via.useAuth);
      assert sent == login + Connect5(ip4, a.host, a.port);
    } else if NulFree(a.host) && NulFree(a.via.username) && (ip4(a.host).Some? ==> !IsMarker(ip4(a.host).value)) {
      Sent4AsksForTheDestination(ip4, a, inbox);
    }
  }

  function Joined(parts: seq<seq<Byte>>): seq<Byte> {
    if parts == [] then [] else Joined(parts[..|parts| - 1]) + parts[|parts| - 1]
  }

  // All that a chain of SOCKS hops is sent: one part for each hop in order, and
  // each part asks that hop for the next one, or the last for the destination.
  lemma {:induction false} EachPartAsksForItsHop(ip4: Literals, asks: seq<Ask>, inbox: seq<Byte>)
    returns (parts: seq<seq<Byte>>)
    requires TalkAll(ip4, asks, inbox).Some?
    ensures |parts| == |asks| && TalkAll(ip4, asks, inbox).value.sent == Joined(parts)
    ensures forall i :: 0 <= i < |asks| ==> AsksFor(ip4, asks[i], parts[i])
    decreases |asks|
  {
    parts := [];
    if asks != [] {
      hide *;
      var n := |asks| - 1;
      assert asks[..n + 1] == asks;
      TalkNext(ip4, asks, inbox, n);
      var front := TalkAll(ip4, asks[..n], inbox).value;
      parts := EachPartAsksForItsHop(ip4, asks[..n], inbox);
      TalkAsksFor(ip4, asks[n], front.rest);
      var last := TalkOf(ip4, asks[n], front.rest).value.sent;
      JoinedWith(parts, last);
      forall i | 0 <= i < |asks| ensures AsksFor(ip4, asks[i], (parts + [last])[i]) {
        if i < n { assert asks[..n][i] == asks[i]; }
      }
      parts := parts + [last];
    }
  }

  lemma JoinedWith(parts: seq<seq<Byte>>, last: seq<Byte>)
    ensures Joined(parts + [last]) == Joined(parts) + last
  {
    assert (parts + [last])[..|parts|] == parts;
  }
}
