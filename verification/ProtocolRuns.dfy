// What the two tables see of a run of the protocol, what joins them, and the
// runs on which a promise fails.

module ProtocolRuns {
  import opened Types
  import opened Model
  import opened Resolve
  import opened Redirect
  import opened Protocol
  import N = Nat
  import NR = NatRuns
  import PR = ProfileRuns
  import R = Relay
  import RR = RelayRuns
  import Tunnel

  // ---- one table's part of a run ---------------------------------------------------------------

  // The events f finds among the first k acts, and the states that view shows
  // between them.
  function Picked<E>(f: Act -> Option<E>, acts: seq<Act>, k: nat): seq<E>
    requires k <= |acts|
  {
    if k == 0 then []
    else Picked(f, acts, k - 1) + if f(acts[k - 1]).Some? then [f(acts[k - 1]).value] else []
  }

  function Viewed<E, T>(f: Act -> Option<E>, view: World -> T, ws: seq<World>, acts: seq<Act>, k: nat): (r: seq<T>)
    requires k <= |acts| < |ws|
    ensures |r| == |Picked(f, acts, k)| + 1
  {
    if k == 0 then [view(ws[0])]
    else Viewed(f, view, ws, acts, k - 1) + if f(acts[k - 1]).Some? then [view(ws[k])] else []
  }

  lemma ViewedNext<E, T>(f: Act -> Option<E>, view: World -> T, ws: seq<World>, acts: seq<Act>, k: nat)
    requires k < |acts| < |ws|
    ensures var es, ts := Picked(f, acts, k), Viewed(f, view, ws, acts, k);
      match f(acts[k])
      case Some(e) => Picked(f, acts, k + 1) == es + [e] && Viewed(f, view, ws, acts, k + 1) == ts + [view(ws[k + 1])]
      case None => Picked(f, acts, k + 1) == es && Viewed(f, view, ws, acts, k + 1) == ts
  {
  }

  // Every event is an act's, and stands where the events before that act end.
  lemma {:induction false} PickedFrom<E>(f: Act -> Option<E>, acts: seq<Act>, k: nat, x: nat) returns (i: nat)
    requires k <= |acts| && x < |Picked(f, acts, k)|
    ensures i < k && f(acts[i]) == Some(Picked(f, acts, k)[x]) && |Picked(f, acts, i)| == x
  {
    if x < |Picked(f, acts, k - 1)| {
      i := PickedFrom(f, acts, k - 1, x);
    } else {
      i := k - 1;
    }
  }

  lemma {:induction false} PickedGrows<E>(f: Act -> Option<E>, acts: seq<Act>, i: nat, k: nat)
    requires i <= k <= |acts|
    ensures |Picked(f, acts, i)| <= |Picked(f, acts, k)|
    ensures Picked(f, acts, i) == Picked(f, acts, k)[..|Picked(f, acts, i)|]
    ensures i < k && f(acts[i]).Some? ==>
      |Picked(f, acts, i)| < |Picked(f, acts, k)|
      && Picked(f, acts, k)[|Picked(f, acts, i)|] == f(acts[i]).value
    decreases k
  {
    if i < k { PickedGrows(f, acts, i, k - 1); }
  }

  // ---- the connection table's part --------------------------------------------------------------

  function TableEvent(a: Act): Option<NR.Event> {
    match a
    case AddMapping(f, _, now, st, _) => Some(NR.Event(N.Op.Add(EntryOf(f, now)), now, N.Added(st)))
    case TableOp(op, now, reply) => Some(NR.Event(op, now, reply))
    case _ => None
  }

  function TableOf(w: World): N.Table {
    w.table
  }

  function TableEvents(acts: seq<Act>): seq<NR.Event> {
    Picked(TableEvent, acts, |acts|)
  }

  ghost predicate ClockForward(acts: seq<Act>) {
    forall i, j :: 0 <= i < j < |acts| && TableEvent(acts[i]).Some? && TableEvent(acts[j]).Some?
      ==> TableEvent(acts[i]).value.now <= TableEvent(acts[j]).value.now
  }

  lemma TableStep(c: Setup, ws: seq<World>, acts: seq<Act>, k: nat)
    requires IsRun(c, ws, acts) && k < |acts|
    ensures |ws| == |acts| + 1 && TableOf(ws[k]) == ws[k].table && TableOf(ws[k + 1]) == ws[k + 1].table
    ensures match TableEvent(acts[k])
      case Some(e) => N.Step(c.capacity, c.ttl, ws[k].table, e.op, e.now, ws[k + 1].table, e.reply)
      case None => ws[k + 1].table == ws[k].table
  {
    hide Resolve.Decide, R.RegisterStep, R.TakeStep, N.Step;
    assert Next(c, ws[k], acts[k], ws[k + 1]);
  }

  lemma TableEventsBefore(acts: seq<Act>, k: nat)
    requires k < |acts| && ClockForward(acts) && TableEvent(acts[k]).Some?
    ensures var es := Picked(TableEvent, acts, k);
      forall x :: 0 <= x < |es| ==> es[x].now <= TableEvent(acts[k]).value.now
  {
    var es := Picked(TableEvent, acts, k);
    forall x | 0 <= x < |es| ensures es[x].now <= TableEvent(acts[k]).value.now {
      var i := PickedFrom(TableEvent, acts, k, x);
    }
  }

  lemma TableRunExtends(c: Setup, ts: seq<N.Table>, es: seq<NR.Event>, e: NR.Event, t': N.Table)
    requires NR.IsRun(c.capacity, c.ttl, ts, es)
    requires N.Step(c.capacity, c.ttl, ts[|es|], e.op, e.now, t', e.reply)
    requires forall x :: 0 <= x < |es| ==> es[x].now <= e.now
    ensures NR.IsRun(c.capacity, c.ttl, ts + [t'], es + [e])
  {
    hide N.Step;
    var ts', es' := ts + [t'], es + [e];
    forall k | 0 <= k < |es'|
      ensures N.Step(c.capacity, c.ttl, ts'[k], es'[k].op, es'[k].now, ts'[k + 1], es'[k].reply)
    {
      if k < |es| { assert ts'[k] == ts[k] && ts'[k + 1] == ts[k + 1] && es'[k] == es[k]; }
    }
  }

  // Whatever else interleaves, what happens to the connection table is a run of
  // the table alone.
  lemma {:induction false} TableRunsAlone(c: Setup, ws: seq<World>, acts: seq<Act>, k: nat)
    requires IsRun(c, ws, acts) && ClockForward(acts) && k <= |acts|
    ensures NR.IsRun(c.capacity, c.ttl, Viewed(TableEvent, TableOf, ws, acts, k), Picked(TableEvent, acts, k))
    ensures Viewed(TableEvent, TableOf, ws, acts, k)[|Picked(TableEvent, acts, k)|] == ws[k].table
  {
    if k > 0 {
      hide *;
      var n := k - 1;
      TableStep(c, ws, acts, n);
      ViewedNext(TableEvent, TableOf, ws, acts, n);
      TableRunsAlone(c, ws, acts, n);
      if TableEvent(acts[n]).Some? {
        TableEventsBefore(acts, n);
        TableRunExtends(c, Viewed(TableEvent, TableOf, ws, acts, n), Picked(TableEvent, acts, n),
                        TableEvent(acts[n]).value, ws[k].table);
      }
    }
  }

  // In any run of the whole protocol, a flow mapped by the act at k and kept alive
  // has each of its captured packets carried to the relay and each reply captured
  // and carried back as its own; and its packets are captured exactly when its
  // destination is not loopback.
  lemma FlowIsCarried(c: Setup, ws: seq<World>, acts: seq<Act>, k: nat, b: nat, d: nat, h: Header, relayPort: Port)
    requires IsRun(c, ws, acts) && ClockForward(acts) && k < |acts| && acts[k].AddMapping? && IsPacketOf(h, acts[k].f)
    requires var es, p, a := TableEvents(acts), acts[k].f.srcPort, |Picked(TableEvent, acts, k)|;
      && a < b < d < |es| && es[b].op == N.Find(p) && es[d].op == N.Find(p) && NR.KeptAlive(c.ttl, es, p, a, d + 1)
    ensures Captured(h, relayPort) <==> h.dstAddr != LOOPBACK
    ensures var es := TableEvents(acts);
      && es[b].reply.Looked? && es[d].reply.Looked?
      && var there := Rewritten(h, es[b].reply.hit, relayPort);
      && there == Header(LOOPBACK, h.srcPort, LOOPBACK, relayPort, true, true, true)
      && Captured(ReplyTo(there), relayPort)
      && Rewritten(ReplyTo(there), es[d].reply.hit, relayPort) == Swapped(h)
  {
    hide Next;
    PickedGrows(TableEvent, acts, k, |acts|);
    MappedForItsOwnPackets(acts[k].f, acts[k].now, h, relayPort);
    TableRunsAlone(c, ws, acts, |acts|);
    FlowRoundTrip(c.capacity, c.ttl, Viewed(TableEvent, TableOf, ws, acts, |acts|), TableEvents(acts),
                  acts[k].f.srcPort, |Picked(TableEvent, acts, k)|, b, d, h, relayPort);
  }

  // And a captured packet of an undisturbed flow goes to the relay exactly as
  // long as no lookup of the flow came later than the TTL after the one before;
  // otherwise it leaves as it is, proxied by nobody, in any run of the protocol.
  lemma CarriedIffInTime(c: Setup, ws: seq<World>, acts: seq<Act>, k: nat, b: nat, h: Header, relayPort: Port)
    requires IsRun(c, ws, acts) && ClockForward(acts) && k < |acts| && acts[k].AddMapping? && IsPacketOf(h, acts[k].f)
    requires var es, p, a := TableEvents(acts), acts[k].f.srcPort, |Picked(TableEvent, acts, k)|;
      && a < b < |es| && es[b].op == N.Find(p) && NR.Undisturbed(es, p, a, b + 1)
    requires Captured(h, relayPort)
    ensures var es, p, a := TableEvents(acts), acts[k].f.srcPort, |Picked(TableEvent, acts, k)|;
      && es[b].reply.Looked?
      && Rewritten(h, es[b].reply.hit, relayPort)
         == if NR.KeptAlive(c.ttl, es, p, a, b + 1)
            then Header(LOOPBACK, p, LOOPBACK, relayPort, true, true, true) else h
  {
    hide Next;
    PickedGrows(TableEvent, acts, k, |acts|);
    TableRunsAlone(c, ws, acts, |acts|);
    RedirectedIffInTime(c.capacity, c.ttl, Viewed(TableEvent, TableOf, ws, acts, |acts|), TableEvents(acts),
                        acts[k].f.srcPort, |Picked(TableEvent, acts, k)|, b, h, relayPort);
  }

  // ---- the pending table's part --------------------------------------------------------------------

  function PendingEvent(a: Act): Option<RR.Event> {
    match a
    case Register(f, d, now, stamp, st) => Some(RR.Event(RR.Op.Register(f.srcPort, RouteOf(f, d), stamp, st), now))
    case Refuse(f, d, now, stamp, st, _) => Some(RR.Event(RR.Op.Register(f.srcPort, RouteOf(f, d), stamp, st), now))
    case Take(p, now, hit) => Some(RR.Event(RR.Op.Take(p, hit), now))
    case _ => None
  }

  function PendingOf(w: World): R.PendingMap {
    w.pending
  }

  // The relay's clock readings, of which a registration takes two.
  ghost predicate RelayClockForward(acts: seq<Act>) {
    && (forall i :: 0 <= i < |acts| && (acts[i].Register? || acts[i].Refuse?) ==> acts[i].now <= acts[i].stamp)
    && forall i, j :: 0 <= i < j < |acts| && PendingEvent(acts[i]).Some? && PendingEvent(acts[j]).Some?
         ==> RR.End(PendingEvent(acts[i]).value) <= PendingEvent(acts[j]).value.now
  }

  lemma PendingStepAt(c: Setup, ws: seq<World>, acts: seq<Act>, k: nat)
    requires IsRun(c, ws, acts) && RelayClockForward(acts) && k < |acts|
    ensures |ws| == |acts| + 1 && PendingOf(ws[k]) == ws[k].pending && PendingOf(ws[k + 1]) == ws[k + 1].pending
    ensures match PendingEvent(acts[k])
      case Some(e) => RR.Step(ws[k].pending, e, ws[k + 1].pending)
      case None => ws[k + 1].pending == ws[k].pending
  {
    hide Resolve.Decide, R.RegisterStep, R.TakeStep, N.Step;
    assert Next(c, ws[k], acts[k], ws[k + 1]);
    assert acts[k].Register? || acts[k].Refuse? ==> acts[k].now <= acts[k].stamp;
  }

  lemma PendingEventsBefore(acts: seq<Act>, k: nat)
    requires k < |acts| && RelayClockForward(acts) && PendingEvent(acts[k]).Some?
    ensures var es := Picked(PendingEvent, acts, k);
      forall x :: 0 <= x < |es| ==> RR.End(es[x]) <= PendingEvent(acts[k]).value.now
  {
    var es := Picked(PendingEvent, acts, k);
    forall x | 0 <= x < |es| ensures RR.End(es[x]) <= PendingEvent(acts[k]).value.now {
      var i := PickedFrom(PendingEvent, acts, k, x);
    }
  }

  lemma PendingRunExtends(ms: seq<R.PendingMap>, es: seq<RR.Event>, e: RR.Event, m': R.PendingMap)
    requires RR.IsRun(ms, es) && RR.Step(ms[|es|], e, m')
    requires forall x :: 0 <= x < |es| ==> RR.End(es[x]) <= e.now
    ensures RR.IsRun(ms + [m'], es + [e])
  {
    hide RR.Step, RR.End;
    var ms', es' := ms + [m'], es + [e];
    forall k | 0 <= k < |es'| ensures RR.Step(ms'[k], es'[k], ms'[k + 1]) {
      if k < |es| { assert ms'[k] == ms[k] && ms'[k + 1] == ms[k + 1] && es'[k] == es[k]; }
    }
  }

  // And what happens to the pending table is a run of that table alone.
  lemma {:induction false} PendingRunsAlone(c: Setup, ws: seq<World>, acts: seq<Act>, k: nat)
    requires IsRun(c, ws, acts) && RelayClockForward(acts) && k <= |acts|
    ensures RR.IsRun(Viewed(PendingEvent, PendingOf, ws, acts, k), Picked(PendingEvent, acts, k))
    ensures Viewed(PendingEvent, PendingOf, ws, acts, k)[|Picked(PendingEvent, acts, k)|] == ws[k].pending
  {
    if k > 0 {
      hide *;
      var n := k - 1;
      PendingStepAt(c, ws, acts, n);
      ViewedNext(PendingEvent, PendingOf, ws, acts, n);
      PendingRunsAlone(c, ws, acts, n);
      if PendingEvent(acts[n]).Some? {
        PendingEventsBefore(acts, n);
        PendingRunExtends(Viewed(PendingEvent, PendingOf, ws, acts, n), Picked(PendingEvent, acts, n),
                          PendingEvent(acts[n]).value, ws[k].pending);
      }
    }
  }

  // So at every step of the protocol the pending table is within its bound.
  lemma PendingStaysBounded(c: Setup, ws: seq<World>, acts: seq<Act>, k: nat)
    requires IsRun(c, ws, acts) && RelayClockForward(acts) && k <= |acts|
    ensures |ws[k].pending| <= R.MAX_PENDING
  {
    hide Next;
    PendingRunsAlone(c, ws, acts, k);
    RR.PendingBounded(Viewed(PendingEvent, PendingOf, ws, acts, k), Picked(PendingEvent, acts, k),
                      |Picked(PendingEvent, acts, k)|);
  }

  // The latest registration among the acts is the open one among the events.
  lemma LatestIsOpen(c: Setup, ws: seq<World>, acts: seq<Act>, p: Port, r: nat, t: nat)
    requires IsRun(c, ws, acts) && t < |acts| && LatestFor(acts, p, r, t) && acts[t].Take?
    ensures var es := Picked(PendingEvent, acts, |acts|);
      var x, y := |Picked(PendingEvent, acts, r)|, |Picked(PendingEvent, acts, t)|;
      && x < y < |es| && es[x] == PendingEvent(acts[r]).value && es[y] == PendingEvent(acts[t]).value
      && RR.Open(es, p, x, y)
  {
    var n := |acts|;
    var es, x, y := Picked(PendingEvent, acts, n), |Picked(PendingEvent, acts, r)|, |Picked(PendingEvent, acts, t)|;
    assert Next(c, ws[r], acts[r], ws[r + 1]);
    RegisterBinds(c, ws[r], acts[r], ws[r + 1]);
    PickedGrows(PendingEvent, acts, r, n);
    PickedGrows(PendingEvent, acts, t, n);
    PickedGrows(PendingEvent, acts, r, t);
    forall z | x < z < y ensures !RR.Registers(es[z], p) && !RR.Consumes(es[z], p) {
      var i := PickedFrom(PendingEvent, acts, n, z);
      if i <= r { PickedGrows(PendingEvent, acts, i, r); }
      if t <= i { PickedGrows(PendingEvent, acts, t, i); }
      assert r < i < t && PendingEvent(acts[i]) == Some(es[z]);
      assert !RegistersFor(acts[i], p) && !TakesFor(acts[i], p);
      assert Next(c, ws[i], acts[i], ws[i + 1]);
      if acts[i].Refuse? { RefuseIsNotOk(c, ws[i], acts[i], ws[i + 1]); }
    }
  }

  lemma RefuseIsNotOk(c: Setup, w: World, a: Act, w': World)
    requires Next(c, w, a, w') && a.Refuse?
    ensures a.st != Ok
  {
    hide Resolve.Decide, R.RegisterStep;
  }

  // A connection that arrives is given a route exactly when that is the route of
  // the latest registration of its port, not yet taken and in time.
  lemma TakeHitsIffTimely(c: Setup, ws: seq<World>, acts: seq<Act>, t: nat, route: R.Route)
    requires IsRun(c, ws, acts) && RelayClockForward(acts) && t < |acts| && acts[t].Take?
    ensures acts[t].hit == Some(route)
       <==> exists r: nat :: LatestFor(acts, acts[t].port, r, t) && R.InTime(acts[r].stamp, acts[t].now)
                             && RouteOf(acts[r].f, acts[r].d) == route
  {
    hide Next, DecidedAt;
    if acts[t].hit == Some(route) {
      var j, r := TakeFrom(c, ws, acts, t);
    }
    if r: nat :| LatestFor(acts, acts[t].port, r, t) && R.InTime(acts[r].stamp, acts[t].now)
                 && RouteOf(acts[r].f, acts[r].d) == route {
      var n, p := |acts|, acts[t].port;
      LatestIsOpen(c, ws, acts, p, r, t);
      PendingRunsAlone(c, ws, acts, n);
      RR.TakeReturnsLatest(Viewed(PendingEvent, PendingOf, ws, acts, n), Picked(PendingEvent, acts, n),
                           |Picked(PendingEvent, acts, t)|, p, route);
    }
  }

  // ---- the two tables agree ----------------------------------------------------------------------------

  // The verdict thread has registered a route for port p and not yet mapped it.
  predicate InBetween(w: World, p: Port) {
    w.pump.Registered? && w.pump.f.srcPort == p
  }

  // Port p's route was registered at r and its mapping added at m, for one and
  // the same flow.
  ghost predicate SameFlow(acts: seq<Act>, w: World, k: nat, p: Port, r: nat, m: nat) {
    && LatestFor(acts, p, r, k) && r < m < k
    && acts[m].AddMapping? && acts[m].st == Ok && acts[m].f == acts[r].f && acts[m].d == acts[r].d
    && p in w.table && w.table[p].e == EntryOf(acts[r].f, acts[m].now)
  }

  lemma TableKeeps(c: Setup, w: World, a: Act, w': World, p: Port)
    requires Next(c, w, a, w') && p in w'.table
    requires !(a.AddMapping? && a.f.srcPort == p)
    ensures p in w.table && w.table[p].e == w'.table[p].e
  {
    hide Resolve.Decide, R.RegisterStep, R.TakeStep, Tunnel.HopRun, Tunnel.HopsOver;
  }

  lemma MappingBinds(c: Setup, w: World, a: Act, w': World)
    requires Next(c, w, a, w') && a.AddMapping? && a.f.srcPort != 0 && a.f.srcPort in w'.table
    ensures a.st == Ok && w.pump == Registered(a.f, a.d) && w'.table[a.f.srcPort].e == EntryOf(a.f, a.now)
    ensures w'.pending == w.pending
  {
    hide Resolve.Decide;
  }

  // A port that is both waiting and mapped is so for one flow, except between the
  // two registrations of a verdict on it.
  lemma {:induction false} TablesAgree(c: Setup, ws: seq<World>, acts: seq<Act>, k: nat, p: Port)
    returns (r: nat, m: nat)
    requires IsRun(c, ws, acts) && k <= |acts| && p in ws[k].pending && p in ws[k].table && !InBetween(ws[k], p)
    ensures SameFlow(acts, ws[k], k, p, r, m)
  {
    hide Next;
    var n := k - 1;
    assert Next(c, ws[n], acts[n], ws[n + 1]);
    if acts[n].AddMapping? && acts[n].f.srcPort == p {
      r := AgreeOnMapping(c, ws, acts, n);
      m := n;
    } else {
      AgreeBefore(c, ws[n], acts[n], ws[k], p);
      r, m := TablesAgree(c, ws, acts, n, p);
    }
  }

  // At the mapping itself: the latest registration is the one just made.
  lemma AgreeOnMapping(c: Setup, ws: seq<World>, acts: seq<Act>, n: nat) returns (r: nat)
    requires IsRun(c, ws, acts) && n < |acts| && acts[n].AddMapping?
    requires var p := acts[n].f.srcPort; p in ws[n + 1].pending && p in ws[n + 1].table
    ensures SameFlow(acts, ws[n + 1], n + 1, acts[n].f.srcPort, r, n)
  {
    hide Next;
    var p := acts[n].f.srcPort;
    assert Next(c, ws[n], acts[n], ws[n + 1]);
    VerdictStep(c, ws[n], acts[n], ws[n + 1]);
    r := RegisteredBy(c, ws, acts, n);
    assert Next(c, ws[r], acts[r], ws[r + 1]);
    RegisterBinds(c, ws[r], acts[r], ws[r + 1]);
    MappingBinds(c, ws[n], acts[n], ws[n + 1]);
    var latest := PendingFrom(c, ws, acts, n, p);
    assert latest == r;
  }

  // Any other step leaves a port that is waiting and mapped after it as it was.
  lemma AgreeBefore(c: Setup, w: World, a: Act, w': World, p: Port)
    requires Next(c, w, a, w') && p in w'.pending && p in w'.table && !InBetween(w', p)
    requires !(a.AddMapping? && a.f.srcPort == p)
    ensures p in w.pending && p in w.table && !InBetween(w, p) && w.table[p].e == w'.table[p].e
    ensures !RegistersFor(a, p) && !TakesFor(a, p)
  {
    TableKeeps(c, w, a, w', p);
    PendingStep(c, w, a, w', p);
    hide Resolve.Decide, N.Step, R.RegisterStep, R.TakeStep, Tunnel.HopRun, Tunnel.HopsOver;
  }

  // The connection a redirected packet opens is tunnelled for that packet's own
  // flow. For a worker that reaches the splice loop, with its take at t, the
  // registration at r and the decision at j: a port mapped at t, and not between
  // its two registrations, is mapped for the flow the registration was for. So
  // what the table redirects there is headed where the flow is, and a packet of the
  // flow gets the relay's reply as its own.
  lemma TunnelledForItsOwnFlow(c: Setup, ws: seq<World>, acts: seq<Act>, k: nat, h: Header, relayPort: Port)
    returns (j: nat, r: nat, t: nat)
    requires IsRun(c, ws, acts) && k < |acts| && acts[k].Splice?
    ensures j < r < t < k && acts[k].job == |ws[t].jobs| < |ws[k + 1].jobs|
    ensures TakesFor(acts[t], ws[k + 1].jobs[acts[k].job].port) && LatestFor(acts, acts[t].port, r, t)
    ensures DecidedAt(ws, acts, j, acts[r].f, acts[r].d) && ws[k + 1].jobs[acts[k].job].phase.Spliced?
    ensures HonoursTarget(acts[j].pf, acts[r].f, acts[r].d, ws[k + 1].jobs[acts[k].job].phase.asked)
    ensures var p := acts[t].port;
      p in ws[t].table && !InBetween(ws[t], p) ==>
        && ws[t].table[p].e == EntryOf(acts[r].f, ws[t].table[p].e.created)
        && (h.outbound && h.srcPort == p && Rewrites(h, Some(ws[t].table[p].e))
            ==> h.dstAddr == acts[r].f.dstAddr && h.dstPort == acts[r].f.dstPort)
        && (IsPacketOf(h, acts[r].f) ==>
              var hit := Some(ws[t].table[p].e);
              var there := Rewritten(h, hit, relayPort);
              && there == Header(LOOPBACK, p, LOOPBACK, relayPort, true, true, true)
              && Rewritten(ReplyTo(there), hit, relayPort) == Swapped(h))
  {
    hide Next, DecidedAt, HonoursTarget, R.InTime;
    j, r, t := NoUnderProxying(c, ws, acts, k);
    var p := acts[t].port;
    if p in ws[t].table && !InBetween(ws[t], p) {
      assert Next(c, ws[t], acts[t], ws[t + 1]);
      TakeHitsPending(c, ws[t], acts[t], ws[t + 1]);
      var r', m := TablesAgree(c, ws, acts, t, p);
      assert r' == r;
      if IsPacketOf(h, acts[r].f) { MappedForItsOwnPackets(acts[r].f, acts[m].now, h, relayPort); }
    }
  }

  // ---- runs on which a promise fails -------------------------------------------------------------------

  // Any routable proxy decision on any profile, first thing after it is
  // published, is registered, mapped and allowed.
  lemma AllowedRun(c: Setup, pf: Profile, f: Flow, d: Decision) returns (ws: seq<World>, acts: seq<Act>)
    requires c.capacity > 0 && d == Resolve.Decide(pf, QueryOf(f)) && d.verdict == GoProxy && Routable(f, d)
    ensures IsRun(c, ws, acts)
    ensures acts == [Publish(pf), Act.Decide(f, pf, d), Register(f, d, 0, 0, Ok), AddMapping(f, d, 0, Ok, true)]
    ensures ws[4] == World(pf, Waiting, map[f.srcPort := R.Waiting(RouteOf(f, d), 0)],
                           map[f.srcPort := N.Binding(EntryOf(f, 0), false, 0)], [])
  {
    AllOrNothing(pf, QueryOf(f));
    hide Resolve.Decide;
    var w0 := World(INITIAL, Waiting, map[], map[], []);
    var w1 := w0.(snap := pf);
    var w2 := w1.(pump := Decided(f, d));
    var w3 := w2.(pump := Registered(f, d), pending := map[f.srcPort := R.Waiting(RouteOf(f, d), 0)]);
    var w4 := w3.(pump := Waiting, table := map[f.srcPort := N.Binding(EntryOf(f, 0), false, 0)]);
    ws := [w0, w1, w2, w3, w4];
    acts := [Publish(pf), Act.Decide(f, pf, d), Register(f, d, 0, 0, Ok), AddMapping(f, d, 0, Ok, true)];
    assert R.Unexpired(map[], 0) == map[];
    assert Next(c, w0, acts[0], w1) && Next(c, w1, acts[1], w2);
    assert Next(c, w2, acts[2], w3) && Next(c, w3, acts[3], w4);
  }

  lemma OneActMore(c: Setup, ws: seq<World>, acts: seq<Act>, a: Act, w': World)
    requires IsRun(c, ws, acts) && Next(c, ws[|acts|], a, w')
    ensures IsRun(c, ws + [w'], acts + [a])
  {
    hide Next;
    var ws', acts' := ws + [w'], acts + [a];
    forall k | 0 <= k < |acts'| ensures Next(c, ws'[k], acts'[k], ws'[k + 1]) {
      if k < |acts| { assert ws'[k] == ws[k] && ws'[k + 1] == ws[k + 1] && acts'[k] == acts[k]; }
    }
  }

  const PROXY1 := NEW_PROXY.(id := 1)

  // A decision of a profile that sends everything through one proxy.
  lemma ThroughProxy1(f: Flow) returns (pf: Profile, d: Decision)
    ensures pf == PR.ThroughOne([PROXY1]) && d == Resolve.Decide(pf, QueryOf(f))
    ensures d.verdict == GoProxy && d.via == [PROXY1]
  {
    pf := PR.ThroughOne([PROXY1]);
    d := Resolve.Decide(pf, QueryOf(f));
    hide Resolve.Decide;
    PR.DefaultDecides([PROXY1], QueryOf(f));
    assert FindProxy([PROXY1], 1) == Some(PROXY1);
  }

  // Loopback: a program connects to 127.0.0.1. The flow is registered, mapped and
  // allowed under fail-closed, and the filter shows none of its packets to the
  // rewrite.
  lemma LoopbackEscapes(c: Setup, relayPort: Port) returns (ws: seq<World>, acts: seq<Act>)
    requires c.failClosed && c.capacity > 0
    ensures IsRun(c, ws, acts) && |acts| == 4 && acts[0].Publish? && acts[1].Decide?
    ensures acts[1].d.verdict == GoProxy && acts[1].d.via == acts[0].pf.proxies != []
    ensures acts[2].Register? && acts[3].AddMapping? && acts[3].st == Ok && acts[3].allowed
    ensures forall h :: IsPacketOf(h, acts[3].f) ==> !Captured(h, relayPort)
  {
    hide Next, Resolve.Decide;
    var f := Flow("app", "app", "localhost", LOOPBACK, 50000, LOOPBACK, 80, false, false);
    var pf, d := ThroughProxy1(f);
    ws, acts := AllowedRun(c, pf, f, d);
  }

  // Idleness: a proxied flow stays silent for one millisecond longer than the TTL.
  // Its next packet is captured and leaves as it is.
  lemma IdleFlowEscapes(c: Setup, relayPort: Port) returns (ws: seq<World>, acts: seq<Act>)
    requires c.failClosed && c.capacity > 0
    ensures IsRun(c, ws, acts) && |acts| == 5 && acts[3].AddMapping? && acts[3].allowed
    ensures acts[3].d.verdict == GoProxy && acts[3].d.via != []
    ensures acts[4].TableOp? && acts[4].op == N.Find(acts[3].f.srcPort) && acts[4].now == acts[3].now + c.ttl + 1
    ensures acts[4].reply.Looked?
    ensures forall h :: IsPacketOf(h, acts[3].f) ==>
      Captured(h, relayPort) && Rewritten(h, acts[4].reply.hit, relayPort) == h
  {
    hide Resolve.Decide;
    var f := Flow("app", "app", "example.org", 0x0A00_0001, 50000, 0x5DB8_D822, 443, false, false);
    var pf, d := ThroughProxy1(f);
    ws, acts := AllowedRun(c, pf, f, d);
    var a := TableOp(N.Find(f.srcPort), c.ttl + 1, N.Looked(None));
    assert Next(c, ws[4], a, ws[4]);
    hide Next;
    OneActMore(c, ws, acts, a, ws[4]);
    ws, acts := ws + [ws[4]], acts + [a];
  }

  // A recycled port: between the two registrations of a new flow its route waits
  // beside the mapping of the flow that had the port before. The exception in
  // TablesAgree is a real one.
  lemma RecycledPortMixes(c: Setup) returns (ws: seq<World>, acts: seq<Act>, p: Port)
    requires c.capacity > 0
    ensures IsRun(c, ws, acts) && |acts| == 6 && acts[1].Decide?
    ensures p in ws[6].pending && p in ws[6].table && InBetween(ws[6], p)
    ensures ws[6].pending[p].route.host != acts[1].f.host && ws[6].table[p].e == EntryOf(acts[1].f, 0)
  {
    hide Resolve.Decide;
    p := 50000;
    var f := Flow("app", "app", "example.org", 0x0A00_0001, p, 0x5DB8_D822, 443, false, false);
    var g := f.(host := "example.net", dstAddr := 0x5DB8_D823);
    var pf, d := ThroughProxy1(f);
    var pf', e := ThroughProxy1(g);
    ws, acts := AllowedRun(c, pf, f, d);
    var w5 := ws[4].(pump := Decided(g, e));
    var w6 := w5.(pump := Registered(g, e), pending := map[p := R.Waiting(RouteOf(g, e), 0)]);
    var a5, a6 := Act.Decide(g, pf, e), Register(g, e, 0, 0, Ok);
    assert Next(c, ws[4], a5, w5);
    RegisteredAgain(c, w5, g, e, w6);
    hide Next;
    OneActMore(c, ws, acts, a5, w5);
    OneActMore(c, ws + [w5], acts + [a5], a6, w6);
    ws, acts := ws + [w5] + [w6], acts + [a5] + [a6];
  }

  // Registering over the route that waits for the port replaces it.
  lemma RegisteredAgain(c: Setup, w: World, g: Flow, e: Decision, w': World)
    requires w.pump == Decided(g, e) && e.verdict == GoProxy && Routable(g, e) && |e.via| <= MAX_CHAIN_HOPS
    requires w.pending.Keys == {g.srcPort} && w.pending[g.srcPort].added == 0
    requires w' == w.(pump := Registered(g, e), pending := map[g.srcPort := R.Waiting(RouteOf(g, e), 0)])
    ensures Next(c, w, Register(g, e, 0, 0, Ok), w')
  {
    hide Resolve.Decide;
    assert R.Unexpired(w.pending, 0) == w.pending;
  }
}
