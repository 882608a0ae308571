// The redirection backend: the verdict on each connect, the packet rewrite, and
// what becomes of a flow's packets over whole runs of the connection table.

module Redirect {
  import opened Types
  import opened Model
  import opened Nat
  import opened NatRuns
  import R = Relay

  const LOOPBACK: Addr := 0x7F00_0001

  // ---- connects ---------------------------------------------------------------------

  // An intercepted connect, attributed to its process. The host text is what
  // rules match and what the last hop is asked for.
  datatype Flow = Flow(appName: string, appPath: string, host: string,
                       srcAddr: Addr, srcPort: Port, dstAddr: Addr, dstPort: Port,
                       udp: bool, v6: bool)

  function QueryOf(f: Flow): Query {
    Query(Some(f.appName), Some(f.appPath), Some(f.host), f.dstPort)
  }

  function RouteOf(f: Flow, d: Decision): R.Route {
    R.Route(f.host, f.dstPort, d.via)
  }

  function EntryOf(f: Flow, now: nat): Entry {
    Entry(f.srcAddr, f.srcPort, f.dstAddr, f.dstPort, now)
  }

  predicate Routable(f: Flow, d: Decision) {
    d.via != [] && !f.v6 && !f.udp && f.srcPort != 0
  }

  // The verdict: a proxy decision goes out only if it was fully registered.
  predicate Allows(d: Decision, failClosed: bool, registered: bool) {
    match d.verdict
    case GoDirect => true
    case Refuse => false
    case GoProxy => registered || !failClosed
  }

  // One verdict: reg and add are the outcomes of the two registrations, when
  // attempted; m and t are the pending and the connection table.
  ghost predicate ConnectStep(cap: nat, ttl: nat, failClosed: bool, f: Flow, d: Decision,
                              now: nat, stamp: nat, natNow: nat,
                              m: R.PendingMap, m': R.PendingMap, t: Table, t': Table,
                              reg: Option<Status>, add: Option<Status>, allow: bool)
  {
    && (reg.Some? <==> d.verdict == GoProxy && Routable(f, d))
    && (add.Some? <==> reg == Some(Ok))
    && (if reg.Some? then R.RegisterStep(m, f.srcPort, RouteOf(f, d), now, stamp, m', reg.value) else m' == m)
    && (if add.Some? then Step(cap, ttl, t, Op.Add(EntryOf(f, natNow)), natNow, t', Added(add.value)) else t' == t)
    && allow == Allows(d, failClosed, reg == Some(Ok) && add == Some(Ok))
  }

  class Backend {
    const table: NatTable
    const relay: R.PendingTable
    const relayPort: Port
    const failClosed: bool
    var allowed: nat
    var blocked: nat
    var redirected: nat

    ghost predicate Valid()
      reads this, table, table.slots, relay, relay.pending
    {
      table.Valid() && relay.Valid()
    }

    constructor (capacity: nat, ttlMs: int, port: Port, closed: bool)
      ensures Valid() && table.View() == map[] && relay.View() == map[]
      ensures relayPort == port && failClosed == closed && allowed == 0 && blocked == 0 && redirected == 0
    {
      table := new NatTable(capacity, ttlMs);
      relay := new R.PendingTable();
      relayPort, failClosed := port, closed;
      allowed, blocked, redirected := 0, 0, 0;
    }

    // The verdict switch of wd_pump.
    method OnConnect(f: Flow, d: Decision, now: nat, stamp: nat, natNow: nat)
      returns (allow: bool, ghost reg: Option<Status>, ghost add: Option<Status>)
      requires Valid() && now <= stamp <= natNow && |d.via| <= MAX_CHAIN_HOPS
      modifies this, relay, relay.pending, table`count, table.slots
      ensures Valid() && table.slots == old(table.slots)
      ensures ConnectStep(table.slots.Length, table.ttl, failClosed, f, d, now, stamp, natNow,
                          old(relay.View()), relay.View(), old(table.View()), table.View(), reg, add, allow)
      ensures allowed + blocked == old(allowed) + old(blocked) + 1 && (allow <==> allowed == old(allowed) + 1)
    {
      hide R.RegisterStep, Nat.Step;
      reg, add := None, None;
      allow := true;
      match d.verdict {
        case GoDirect => allow := true;
        case Refuse => allow := false;
        case GoProxy =>
          var registered := false;
          if |d.via| > 0 && !f.v6 && !f.udp && f.srcPort != 0 {
            var rreg := relay.Register(f.srcPort, R.Route(f.host, f.dstPort, d.via), now, stamp);
            reg := Some(rreg);
            var nreg := ErrState;
            if rreg == Ok {
              ghost var at: nat;
              nreg, at := table.Add(f.srcAddr, f.srcPort, f.dstAddr, f.dstPort, natNow);
              add := Some(nreg);
            }
            registered := rreg == Ok && nreg == Ok;
          }
          allow := registered || !failClosed;
      }
      if allow { allowed := allowed + 1; } else { blocked := blocked + 1; }
    }

    // One round of wd_net_pump on a parsed packet: headers are rewritten in place.
    method OnPacket(pkt: Packet, now: nat) returns (ghost hit: Option<Entry>)
      requires Valid()
      modifies this, table.slots, pkt
      ensures Valid() && table.slots == old(table.slots) && relay.View() == old(relay.View())
      ensures pkt.tcp ==>
        Nat.Step(table.slots.Length, table.ttl, old(table.View()), Op.Find(Key(old(pkt.View()))), now,
                 table.View(), Looked(hit))
      ensures !pkt.tcp ==> table.View() == old(table.View()) && hit == None
      ensures pkt.View() == Rewritten(old(pkt.View()), hit, relayPort)
      ensures redirected == old(redirected) + if Rewrites(old(pkt.View()), hit) then 1 else 0
    {
      hide Nat.Step;
      hit := None;
      var rewrote := false;
      if pkt.tcp {
        if pkt.outbound {
          var e := table.Find(pkt.srcPort, now);
          hit := e;
          if e.Some? {
            if pkt.dstAddr == e.value.dstAddr && pkt.dstPort == e.value.dstPort {
              pkt.srcAddr := LOOPBACK;
              pkt.dstAddr := LOOPBACK;
              pkt.dstPort := relayPort;
              pkt.loopback := true;
              rewrote := true;
            }
          }
        } else {
          var e := table.Find(pkt.dstPort, now);
          hit := e;
          if e.Some? {
            pkt.srcAddr := e.value.dstAddr;
            pkt.dstAddr := e.value.srcAddr;
            pkt.srcPort := e.value.dstPort;
            pkt.loopback := false;
            rewrote := true;
          }
        }
      }
      if rewrote { redirected := redirected + 1; }
    }

    // wd_on_flow_end: the mapping is kept, but becomes reclaimable.
    method OnFlowEnd(p: Port)
      requires Valid()
      modifies table.slots
      ensures Valid() && table.slots == old(table.slots) && relay.View() == old(relay.View())
      ensures Nat.Step(table.slots.Length, table.ttl, old(table.View()), Op.MarkClosed(p), 0, table.View(), Done)
    {
      table.MarkClosed(p);
    }
  }

  // ---- packets -----------------------------------------------------------------------

  datatype Header = Header(srcAddr: Addr, srcPort: Port, dstAddr: Addr, dstPort: Port,
                           outbound: bool, loopback: bool, tcp: bool)

  class Packet {
    var srcAddr: Addr
    var srcPort: Port
    var dstAddr: Addr
    var dstPort: Port
    const outbound: bool
    var loopback: bool
    const tcp: bool

    constructor (h: Header)
      ensures View() == h
    {
      srcAddr, srcPort, dstAddr, dstPort := h.srcAddr, h.srcPort, h.dstAddr, h.dstPort;
      outbound, loopback, tcp := h.outbound, h.loopback, h.tcp;
    }

    function View(): Header
      reads this
    {
      Header(srcAddr, srcPort, dstAddr, dstPort, outbound, loopback, tcp)
    }
  }

  // The application's source port, seen from either direction.
  function Key(h: Header): Port {
    if h.outbound then h.srcPort else h.dstPort
  }

  predicate Rewrites(h: Header, hit: Option<Entry>) {
    && h.tcp && hit.Some?
    && (h.outbound ==> h.dstAddr == hit.value.dstAddr && h.dstPort == hit.value.dstPort)
  }

  function Rewritten(h: Header, hit: Option<Entry>, relayPort: Port): Header {
    if !Rewrites(h, hit) then h
    else if h.outbound then h.(srcAddr := LOOPBACK, dstAddr := LOOPBACK, dstPort := relayPort, loopback := true)
    else h.(srcAddr := hit.value.dstAddr, dstAddr := hit.value.srcAddr, srcPort := hit.value.dstPort, loopback := false)
  }

  // The driver's capture filter.
  predicate Captured(h: Header, relayPort: Port) {
    h.tcp && if h.outbound then h.dstAddr != LOOPBACK else h.srcAddr == LOOPBACK && h.srcPort == relayPort
  }

  // A packet the program sends on flow f.
  predicate IsPacketOf(h: Header, f: Flow) {
    && h.tcp && h.outbound
    && h.srcAddr == f.srcAddr && h.srcPort == f.srcPort && h.dstAddr == f.dstAddr && h.dstPort == f.dstPort
  }

  // The peer's answer to a packet, as it arrives here.
  function ReplyTo(h: Header): Header {
    Header(h.dstAddr, h.dstPort, h.srcAddr, h.srcPort, false, h.loopback, h.tcp)
  }

  // What the application expects in answer to its own packet.
  function Swapped(h: Header): Header {
    Header(h.dstAddr, h.dstPort, h.srcAddr, h.srcPort, false, false, h.tcp)
  }

  // The filter shows the rewrite outbound TCP packets that are not for 127.0.0.1
  // and inbound ones from the relay's endpoint there, and nothing else; a packet
  // that is not TCP is never rewritten.
  lemma FilterIsNarrow(h: Header, hit: Option<Entry>, relayPort: Port)
    ensures h.outbound ==> (Captured(h, relayPort) <==> h.tcp && h.dstAddr != 0x7F00_0001)
    ensures !h.outbound ==> (Captured(h, relayPort) <==> h.tcp && h.srcAddr == 0x7F00_0001 && h.srcPort == relayPort)
    ensures !h.tcp ==> Rewritten(h, hit, relayPort) == h
  {
  }

  // What is registered for a flow is what its own packets need: one goes to the
  // relay, and the relay's reply comes back as the swap of it.
  lemma MappedForItsOwnPackets(f: Flow, now: nat, h: Header, relayPort: Port)
    requires IsPacketOf(h, f)
    ensures var e := EntryOf(f, now);
      var there := Rewritten(h, Some(e), relayPort);
      && Key(h) == e.srcPort && Key(ReplyTo(there)) == e.srcPort && e.created == now
      && there == Header(LOOPBACK, h.srcPort, LOOPBACK, relayPort, true, true, true)
      && Rewritten(ReplyTo(there), Some(e), relayPort) == Swapped(h)
  {
  }

  // Rewriting the relay's reply undoes the outbound rewrite: the application
  // sees the swap of its own packet exactly when it sent from the registered
  // address.
  lemma RewriteInverse(h: Header, e: Entry, relayPort: Port)
    requires h.outbound && Rewrites(h, Some(e))
    ensures var there := Rewritten(h, Some(e), relayPort);
      var back := Rewritten(ReplyTo(there), Some(e), relayPort);
      && Key(ReplyTo(there)) == Key(h)
      && Captured(ReplyTo(there), relayPort)
      && (back == Swapped(h) <==> h.srcAddr == e.srcAddr)
  {
  }

  // The failing input: a packet the program sent from another local address. It is
  // redirected all the same, and its reply comes back to the registered address.
  lemma OtherAddressIsMisdelivered(e: Entry, other: Addr, relayPort: Port)
    requires other != e.srcAddr && e.dstAddr != LOOPBACK
    ensures var h := Header(other, e.srcPort, e.dstAddr, e.dstPort, true, false, true);
      var there := Rewritten(h, Some(e), relayPort);
      var back := Rewritten(ReplyTo(there), Some(e), relayPort);
      && Captured(h, relayPort) && Rewrites(h, Some(e))
      && back.dstAddr == e.srcAddr && Swapped(h).dstAddr == other && back != Swapped(h)
  {
    var h := Header(other, e.srcPort, e.dstAddr, e.dstPort, true, false, true);
    RewriteInverse(h, e, relayPort);
  }

  // No loop: what is injected outbound is never captured again, and what is
  // injected inbound is captured exactly when the flow's own destination was
  // the relay's endpoint, which no captured flow's can be.
  lemma NeverRecaptured(h: Header, e: Entry, relayPort: Port)
    requires h.tcp && Rewrites(h, Some(e))
    ensures h.outbound ==> !Captured(Rewritten(h, Some(e), relayPort), relayPort)
    ensures !h.outbound ==>
      (Captured(Rewritten(h, Some(e), relayPort), relayPort) <==> e.dstAddr == LOOPBACK && e.dstPort == relayPort)
    ensures h.outbound && Captured(h, relayPort) ==> e.dstAddr != LOOPBACK
  {
  }

  // A registered flow's packet is handed to the relay exactly when its
  // destination is not loopback: a proxied connect to 127.0.0.1 is allowed, but
  // the filter never shows its packets to the rewrite.
  lemma RedirectedIffNotLoopback(h: Header, e: Entry, relayPort: Port)
    requires IsFlowPacket(h, e)
    ensures e.dstAddr != LOOPBACK
       <==> Captured(h, relayPort)
            && Rewritten(h, Some(e), relayPort) == Header(LOOPBACK, e.srcPort, LOOPBACK, relayPort, true, true, true)
  {
  }

  // ---- flows over whole runs of the table -----------------------------------------------

  ghost predicate IsFlowPacket(h: Header, e: Entry) {
    && h.tcp && h.outbound
    && h.srcAddr == e.srcAddr && h.srcPort == e.srcPort && h.dstAddr == e.dstAddr && h.dstPort == e.dstPort
  }

  // A captured packet looked up under its source port is redirected exactly when
  // it is headed for the destination of the latest mapping of that port, so one
  // that merely inherited the port goes untouched.
  lemma OnlyTheLatestFlowIsRedirected(cap: nat, ttl: nat, ts: seq<Table>, es: seq<Event>, p: Port, b: nat,
                                      h: Header, relayPort: Port) returns (a: nat)
    requires IsRun(cap, ttl, ts, es) && b < |es| && es[b].op == Find(p)
    requires es[b].reply.Looked? && es[b].reply.hit.Some?
    requires h.outbound && h.srcPort == p && Captured(h, relayPort)
    ensures LatestAdd(es, p, a, b)
    ensures var e := es[a].op.e;
      Rewritten(h, es[b].reply.hit, relayPort) != h <==> h.dstAddr == e.dstAddr && h.dstPort == e.dstPort
  {
    a := HitIsLatestAdd(cap, ttl, ts, es, b, p, es[b].reply.hit.value);
  }

  // A captured packet of an undisturbed flow is redirected exactly as long as no
  // lookup came too late; from then on the flow's packets leave as they are, for
  // the real destination.
  lemma RedirectedIffInTime(cap: nat, ttl: nat, ts: seq<Table>, es: seq<Event>, p: Port, a: nat, b: nat,
                            h: Header, relayPort: Port)
    requires IsRun(cap, ttl, ts, es) && a < b < |es| && es[b].op == Find(p) && Undisturbed(es, p, a, b + 1)
    requires IsFlowPacket(h, es[a].op.e) && Captured(h, relayPort)
    ensures es[b].reply.Looked?
    ensures Rewritten(h, es[b].reply.hit, relayPort)
         == if KeptAlive(ttl, es, p, a, b + 1) then Header(LOOPBACK, p, LOOPBACK, relayPort, true, true, true) else h
  {
    hide IsRun, KeptAlive;
    LiveMappingNeverLost(cap, ttl, ts, es, p, a, b);
  }

  // A flow registered at step a and kept alive: a packet looked up at b goes to
  // the relay, and the relay's reply looked up at c comes back as the swap of
  // the packet, whatever happened to other ports in between. The filter shows
  // the packet to the rewrite exactly when its destination is not loopback, and
  // then nothing injected is captured again.
  lemma FlowRoundTrip(cap: nat, ttl: nat, ts: seq<Table>, es: seq<Event>, p: Port, a: nat, b: nat, c: nat,
                      h: Header, relayPort: Port)
    requires IsRun(cap, ttl, ts, es) && a < b < c < |es|
    requires es[b].op == Find(p) && es[c].op == Find(p) && KeptAlive(ttl, es, p, a, c + 1)
    requires IsFlowPacket(h, es[a].op.e)
    ensures es[b].reply.Looked? && es[c].reply.Looked?
    ensures Captured(h, relayPort) <==> h.dstAddr != LOOPBACK
    ensures var there := Rewritten(h, es[b].reply.hit, relayPort);
      var back := Rewritten(ReplyTo(there), es[c].reply.hit, relayPort);
      && there == Header(LOOPBACK, p, LOOPBACK, relayPort, true, true, true)
      && Captured(ReplyTo(there), relayPort)
      && back == Swapped(h)
      && (h.dstAddr != LOOPBACK ==> !Captured(there, relayPort) && !Captured(back, relayPort))
  {
    assert KeptAlive(ttl, es, p, a, b + 1);
    LiveMappingNeverLost(cap, ttl, ts, es, p, a, b);
    LiveMappingNeverLost(cap, ttl, ts, es, p, a, c);
  }

  // Two flows on distinct ports never see each other's replies.
  lemma NoCrossing(cap: nat, ttl: nat, ts: seq<Table>, es: seq<Event>, relayPort: Port,
                   p: Port, a: nat, b: nat, c: nat, h: Header,
                   q: Port, a': nat, b': nat, c': nat, g: Header)
    requires IsRun(cap, ttl, ts, es) && p != q
    requires a < b < c < |es| && es[b].op == Find(p) && es[c].op == Find(p) && KeptAlive(ttl, es, p, a, c + 1)
    requires a' < b' < c' < |es| && es[b'].op == Find(q) && es[c'].op == Find(q) && KeptAlive(ttl, es, q, a', c' + 1)
    requires IsFlowPacket(h, es[a].op.e) && IsFlowPacket(g, es[a'].op.e)
    ensures es[b].reply.Looked? && es[c].reply.Looked? && es[b'].reply.Looked? && es[c'].reply.Looked?
    ensures var back := Rewritten(ReplyTo(Rewritten(h, es[b].reply.hit, relayPort)), es[c].reply.hit, relayPort);
      var back' := Rewritten(ReplyTo(Rewritten(g, es[b'].reply.hit, relayPort)), es[c'].reply.hit, relayPort);
      back == Swapped(h) && back' == Swapped(g) && back != back' && back.dstPort == p && back'.dstPort == q
  {
    FlowRoundTrip(cap, ttl, ts, es, p, a, b, c, h, relayPort);
    FlowRoundTrip(cap, ttl, ts, es, q, a', b', c', g, relayPort);
  }
}
