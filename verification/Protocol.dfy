// The whole protocol as atomic steps: verdict thread, network thread, accept
// thread, workers and the publishing of profiles, in any interleaving.

module Protocol {
  import opened Types
  import opened Model
  import opened Resolve
  import opened Socks
  import opened Tunnel
  import opened Redirect
  import Glob
  import N = Nat
  import PortSpec
  import R = Relay

  // How far the verdict thread is with the connect it is judging.
  datatype Pump =
    | Waiting
    | Decided(f: Flow, d: Decision)
    | Registered(f: Flow, d: Decision)

  // How far a worker is with its hops.
  datatype Phase =
    | Dialling
    | Spliced(asked: seq<Ask>)
    | Failed(st: Status)

  // A relayed connection the accept thread handed to a worker.
  datatype Job = Job(port: Port, route: R.Route, phase: Phase)

  datatype World = World(snap: Profile, pump: Pump, pending: R.PendingMap, table: N.Table, jobs: seq<Job>)

  datatype Act =
    | Publish(pf: Profile)
    | Decide(f: Flow, pf: Profile, d: Decision)
    | Settle(f: Flow, d: Decision, allowed: bool)
    | Register(f: Flow, d: Decision, now: nat, stamp: nat, st: Status)
    | Refuse(f: Flow, d: Decision, now: nat, stamp: nat, st: Status, allowed: bool)
    | AddMapping(f: Flow, d: Decision, now: nat, st: Status, allowed: bool)
    | Take(port: Port, now: nat, hit: Option<R.Route>)
    | Splice(job: nat, connected: Status, answers: seq<Status>)
    | DialFails(job: nat, connected: Status, answers: seq<Status>)
    | TableOp(op: N.Op, now: nat, reply: N.Reply)

  // The fixed parameters of a run.
  datatype Setup = Setup(capacity: nat, ttl: nat, failClosed: bool)

  // Worker i is at the end of its hop loop.
  predicate AtLoopEnd(w: World, i: nat, connected: Status, answers: seq<Status>) {
    i < |w.jobs| && w.jobs[i].phase == Dialling && HopsOver(w.jobs[i].route, connected, answers)
  }

  // Every act is one section under a lock (or one thread's own stretch). A
  // worker's hop loop ends in the splice loop or in failure.
  ghost predicate Next(c: Setup, w: World, a: Act, w': World) {
    match a
    case Publish(pf) => w' == w.(snap := pf)
    case Decide(f, pf, d) =>
      && w.pump == Waiting && pf == w.snap && d == Resolve.Decide(pf, QueryOf(f))
      && w' == w.(pump := Decided(f, d))
    case Settle(f, d, allowed) =>
      && w.pump == Decided(f, d) && (d.verdict == GoProxy ==> !Routable(f, d))
      && allowed == Allows(d, c.failClosed, false)
      && w' == w.(pump := Waiting)
    case Register(f, d, now, stamp, st) =>
      && w.pump == Decided(f, d) && d.verdict == GoProxy && Routable(f, d) && st == Ok
      && R.RegisterStep(w.pending, f.srcPort, RouteOf(f, d), now, stamp, w'.pending, st)
      && w' == w.(pump := Registered(f, d), pending := w'.pending)
    case Refuse(f, d, now, stamp, st, allowed) =>
      && w.pump == Decided(f, d) && d.verdict == GoProxy && Routable(f, d) && st != Ok
      && R.RegisterStep(w.pending, f.srcPort, RouteOf(f, d), now, stamp, w'.pending, st)
      && allowed == Allows(d, c.failClosed, false)
      && w' == w.(pump := Waiting, pending := w'.pending)
    case AddMapping(f, d, now, st, allowed) =>
      && w.pump == Registered(f, d)
      && N.Step(c.capacity, c.ttl, w.table, N.Op.Add(EntryOf(f, now)), now, w'.table, N.Added(st))
      && allowed == Allows(d, c.failClosed, st == Ok)
      && w' == w.(pump := Waiting, table := w'.table)
    case Take(p, now, hit) =>
      && R.TakeStep(w.pending, p, now, w'.pending, hit)
      && w' == w.(pending := w'.pending,
                  jobs := if hit.Some? then w.jobs + [Job(p, hit.value, Dialling)] else w.jobs)
    case Splice(i, connected, answers) =>
      && AtLoopEnd(w, i, connected, answers)
      && var (st, asked) := HopRun(w.jobs[i].route, connected, answers);
      && st == Ok && w' == w.(jobs := w.jobs[i := w.jobs[i].(phase := Spliced(asked))])
    case DialFails(i, connected, answers) =>
      && AtLoopEnd(w, i, connected, answers)
      && var (st, asked) := HopRun(w.jobs[i].route, connected, answers);
      && st != Ok && w' == w.(jobs := w.jobs[i := w.jobs[i].(phase := Failed(st))])
    case TableOp(op, now, reply) =>
      && !op.Add? && N.Step(c.capacity, c.ttl, w.table, op, now, w'.table, reply)
      && w' == w.(table := w'.table)
  }

  // From w the acts lead through the worlds ws.
  ghost predicate Leads(c: Setup, ws: seq<World>, acts: seq<Act>) {
    && |ws| == |acts| + 1
    && forall k :: 0 <= k < |acts| ==> Next(c, ws[k], acts[k], ws[k + 1])
  }

  ghost predicate IsRun(c: Setup, ws: seq<World>, acts: seq<Act>) {
    && Leads(c, ws, acts)
    && ws[0].pump == Waiting && ws[0].pending == map[] && ws[0].table == map[] && ws[0].jobs == []
  }

  // The acts that end a verdict.
  predicate Verdicts(a: Act) {
    a.Settle? || a.Refuse? || a.AddMapping?
  }

  // ---- the backend's methods are acts ---------------------------------------------------

  // What Backend.OnConnect does to the two tables and answers is one act, or a
  // registration followed by the mapping.
  lemma ConnectIsActs(c: Setup, w: World, f: Flow, d: Decision, now: nat, stamp: nat, natNow: nat,
                      m: R.PendingMap, t: N.Table, reg: Option<Status>, add: Option<Status>, allow: bool)
    returns (ws: seq<World>, acts: seq<Act>)
    requires w.pump == Decided(f, d)
    requires ConnectStep(c.capacity, c.ttl, c.failClosed, f, d, now, stamp, natNow,
                         w.pending, m, w.table, t, reg, add, allow)
    ensures Leads(c, ws, acts) && acts != []
    ensures ws[0] == w && ws[|acts|] == w.(pump := Waiting, pending := m, table := t)
    ensures var last := acts[|acts| - 1];
      Verdicts(last) && last.f == f && last.d == d && last.allowed == allow
    ensures acts == if reg.None? then [Settle(f, d, allow)]
                    else if reg != Some(Ok) then [Act.Refuse(f, d, now, stamp, reg.value, allow)]
                    else [Register(f, d, now, stamp, Ok), AddMapping(f, d, natNow, add.value, allow)]
  {
    hide R.RegisterStep, N.Step;
    var end := w.(pump := Waiting, pending := m, table := t);
    if reg.None? {
      ws, acts := [w, end], [Settle(f, d, allow)];
    } else if reg != Some(Ok) {
      ws, acts := [w, end], [Act.Refuse(f, d, now, stamp, reg.value, allow)];
    } else {
      var mid := w.(pump := Registered(f, d), pending := m);
      ws, acts := [w, mid, end], [Register(f, d, now, stamp, Ok), AddMapping(f, d, natNow, add.value, allow)];
      assert Next(c, w, acts[0], mid) && Next(c, mid, acts[1], end);
    }
  }

  lemma LoopEndAsks(route: R.Route, connected: Status, answers: seq<Status>)
    requires HopsOver(route, connected, answers)
    ensures var (st, asked) := HopRun(route, connected, answers); st == Ok ==> asked == Asks(route)
  {
    HopsAskedInOrder(route, connected, answers);
  }

  // What Tunnel.Dial returns for a worker is its last act: into the splice loop
  // with the full list asked, or out with the failure.
  lemma DialIsAct(c: Setup, w: World, i: nat, connected: Status, answers: seq<Status>, st: Status, asked: seq<Ask>)
    returns (a: Act, w': World)
    requires AtLoopEnd(w, i, connected, answers) && (st, asked) == HopRun(w.jobs[i].route, connected, answers)
    ensures a == (if st == Ok then Splice(i, connected, answers) else DialFails(i, connected, answers))
    ensures Next(c, w, a, w') && i < |w'.jobs|
    ensures w'.jobs[i].phase == if st == Ok then Spliced(Asks(w.jobs[i].route)) else Failed(st)
  {
    hide HopRun, HopsOver, Asks, Resolve.Decide, N.Step, R.RegisterStep, R.TakeStep;
    LoopEndAsks(w.jobs[i].route, connected, answers);
    var job := w.jobs[i];
    if st == Ok {
      a, w' := Splice(i, connected, answers), w.(jobs := w.jobs[i := job.(phase := Spliced(asked))]);
    } else {
      a, w' := DialFails(i, connected, answers), w.(jobs := w.jobs[i := job.(phase := Failed(st))]);
    }
  }

  // ---- where everything comes from --------------------------------------------------------

  // Act j decided flow f by the profile then published.
  ghost predicate DecidedAt(ws: seq<World>, acts: seq<Act>, j: nat, f: Flow, d: Decision)
    requires |ws| == |acts| + 1
  {
    && j < |acts| && acts[j].Decide? && acts[j].f == f && acts[j].d == d
    && acts[j].pf == ws[j].snap && d == Resolve.Decide(acts[j].pf, QueryOf(f))
  }

  predicate RegistersFor(a: Act, p: Port) {
    a.Register? && a.f.srcPort == p
  }

  predicate TakesFor(a: Act, p: Port) {
    a.Take? && a.port == p && a.hit.Some?
  }

  // Act r registered port p and before k nobody has registered it again or
  // taken it.
  ghost predicate LatestFor(acts: seq<Act>, p: Port, r: nat, k: nat) {
    && r < k <= |acts| && RegistersFor(acts[r], p)
    && forall i :: r < i < k ==> !RegistersFor(acts[i], p) && !TakesFor(acts[i], p)
  }

  // Between j and k the verdict thread took up nothing new.
  ghost predicate StillOn(acts: seq<Act>, j: nat, k: nat) {
    j < k <= |acts| && forall i :: j < i < k ==> !acts[i].Decide? && !Verdicts(acts[i])
  }

  lemma PumpStep(c: Setup, w: World, a: Act, w': World)
    requires Next(c, w, a, w') && w'.pump != Waiting
    ensures !Verdicts(a)
    ensures a.Decide? ==> w'.pump == Decided(a.f, a.d) && a.pf == w.snap && a.d == Resolve.Decide(a.pf, QueryOf(a.f))
    ensures a.Register? ==> w.pump == Decided(a.f, a.d) && w'.pump == Registered(a.f, a.d)
    ensures !a.Decide? && !a.Register? ==> w'.pump == w.pump
  {
    hide Resolve.Decide, N.Step, R.RegisterStep, R.TakeStep, HopRun, HopsOver;
  }

  // The decision in hand was made by an earlier act, and nothing was taken up
  // since.
  lemma {:induction false} InHandFrom(c: Setup, ws: seq<World>, acts: seq<Act>, k: nat) returns (j: nat)
    requires IsRun(c, ws, acts) && k <= |acts| && ws[k].pump != Waiting
    ensures StillOn(acts, j, k) && DecidedAt(ws, acts, j, ws[k].pump.f, ws[k].pump.d)
  {
    hide Next, Resolve.Decide;
    assert Next(c, ws[k - 1], acts[k - 1], ws[k - 1 + 1]);
    PumpStep(c, ws[k - 1], acts[k - 1], ws[k]);
    if acts[k - 1].Decide? {
      j := k - 1;
    } else {
      j := InHandFrom(c, ws, acts, k - 1);
    }
  }

  lemma RegisterBinds(c: Setup, w: World, a: Act, w': World)
    requires Next(c, w, a, w') && a.Register?
    ensures a.st == Ok && a.d.verdict == GoProxy && Routable(a.f, a.d) && w.pump == Decided(a.f, a.d)
    ensures a.f.srcPort in w'.pending && w'.pending[a.f.srcPort] == R.Waiting(RouteOf(a.f, a.d), a.stamp)
  {
    hide Resolve.Decide;
  }

  // Past the relay's registration, the act that made it, with the route in the
  // pending table.
  lemma {:induction false} RegisteredBy(c: Setup, ws: seq<World>, acts: seq<Act>, k: nat) returns (r: nat)
    requires IsRun(c, ws, acts) && k <= |acts| && ws[k].pump.Registered?
    ensures StillOn(acts, r, k) && acts[r].Register? && acts[r].f == ws[k].pump.f && acts[r].d == ws[k].pump.d
    ensures forall i :: r < i < k ==> !acts[i].Register?
  {
    hide Next;
    assert Next(c, ws[k - 1], acts[k - 1], ws[k - 1 + 1]);
    PumpStep(c, ws[k - 1], acts[k - 1], ws[k]);
    if acts[k - 1].Register? {
      r := k - 1;
    } else {
      r := RegisteredBy(c, ws, acts, k - 1);
    }
  }

  lemma PendingStep(c: Setup, w: World, a: Act, w': World, p: Port)
    requires Next(c, w, a, w') && p in w'.pending
    ensures if RegistersFor(a, p) then w'.pending[p] == R.Waiting(RouteOf(a.f, a.d), a.stamp)
            else p in w.pending && w.pending[p] == w'.pending[p] && !TakesFor(a, p)
  {
    hide Resolve.Decide, N.Step, HopRun, HopsOver;
  }

  // What waits for a port was put there by its latest registration.
  lemma {:induction false} PendingFrom(c: Setup, ws: seq<World>, acts: seq<Act>, k: nat, p: Port) returns (r: nat)
    requires IsRun(c, ws, acts) && k <= |acts| && p in ws[k].pending
    ensures LatestFor(acts, p, r, k)
    ensures ws[k].pending[p] == R.Waiting(RouteOf(acts[r].f, acts[r].d), acts[r].stamp)
  {
    hide Next;
    assert Next(c, ws[k - 1], acts[k - 1], ws[k - 1 + 1]);
    PendingStep(c, ws[k - 1], acts[k - 1], ws[k], p);
    if RegistersFor(acts[k - 1], p) {
      r := k - 1;
    } else {
      r := PendingFrom(c, ws, acts, k - 1, p);
    }
  }

  lemma JobsStep(c: Setup, w: World, a: Act, w': World, i: nat)
    requires Next(c, w, a, w') && i < |w'.jobs|
    ensures |w.jobs| <= |w'.jobs|
    ensures i < |w.jobs| ==> w.jobs[i].port == w'.jobs[i].port && w.jobs[i].route == w'.jobs[i].route
    ensures i >= |w.jobs| ==> i == |w.jobs| && TakesFor(a, w'.jobs[i].port) && a.hit == Some(w'.jobs[i].route)
  {
    hide Resolve.Decide, N.Step, R.RegisterStep, R.TakeStep, HopRun, HopsOver;
  }

  // Worker i was started by a take that hit.
  lemma {:induction false} JobFrom(c: Setup, ws: seq<World>, acts: seq<Act>, k: nat, i: nat) returns (t: nat)
    requires IsRun(c, ws, acts) && k <= |acts| && i < |ws[k].jobs|
    ensures t < k && |ws[t].jobs| == i && |ws[t + 1].jobs| == i + 1
    ensures TakesFor(acts[t], ws[k].jobs[i].port) && acts[t].hit == Some(ws[k].jobs[i].route)
  {
    hide Next;
    assert Next(c, ws[k - 1], acts[k - 1], ws[k - 1 + 1]);
    JobsStep(c, ws[k - 1], acts[k - 1], ws[k], i);
    if i < |ws[k - 1].jobs| {
      t := JobFrom(c, ws, acts, k - 1, i);
    } else {
      t := k - 1;
      JobsStep(c, ws[k - 1], acts[k - 1], ws[k], |ws[k].jobs| - 1);
    }
  }

  lemma TakeHitsPending(c: Setup, w: World, a: Act, w': World)
    requires Next(c, w, a, w') && a.Take? && a.hit.Some?
    ensures a.port in w.pending && w.pending[a.port].route == a.hit.value && R.InTime(w.pending[a.port].added, a.now)
  {
    hide Resolve.Decide, N.Step;
  }

  // ---- no under-proxying ---------------------------------------------------------------------

  // Exactly the hops the target named, in order, each asked for the next one
  // and the last for the flow's own destination.
  ghost predicate HonoursTarget(pf: Profile, f: Flow, d: Decision, asked: seq<Ask>) {
    && d == Resolve.Decide(pf, QueryOf(f)) && d.verdict == GoProxy
    && IsWholeTarget(pf, d.targetKind, d.targetId, d.via)
    && |asked| == |d.via| > 0
    && (forall i :: 0 <= i < |asked| ==> asked[i].via == d.via[i])
    && (forall i :: 0 <= i < |asked| - 1 ==> asked[i].host == d.via[i + 1].host && asked[i].port == d.via[i + 1].port)
    && asked[|asked| - 1].host == f.host && asked[|asked| - 1].port == f.dstPort
  }

  lemma FullListHonours(pf: Profile, f: Flow, d: Decision)
    requires d == Resolve.Decide(pf, QueryOf(f)) && d.verdict == GoProxy && d.via != []
    ensures HonoursTarget(pf, f, d, Asks(RouteOf(f, d)))
  {
    AllOrNothing(pf, QueryOf(f));
    hide Resolve.Decide, IsWholeTarget;
  }

  // A worker that reaches the splice loop has asked the full list of its route.
  lemma SpliceAskedAll(c: Setup, w: World, a: Act, w': World)
    requires Next(c, w, a, w') && a.Splice?
    ensures a.job < |w.jobs| == |w'.jobs| && w'.jobs[a.job].phase == Spliced(Asks(w.jobs[a.job].route))
  {
    LoopEndAsks(w.jobs[a.job].route, a.connected, a.answers);
    hide Resolve.Decide, N.Step, R.RegisterStep, R.TakeStep, HopRun, Asks;
  }

  // The worker that reaches the splice loop at k was started by the take at t.
  lemma SpliceFrom(c: Setup, ws: seq<World>, acts: seq<Act>, k: nat) returns (t: nat)
    requires IsRun(c, ws, acts) && k < |acts| && acts[k].Splice?
    ensures t < k && acts[k].job == |ws[t].jobs| < |ws[k + 1].jobs|
    ensures var job := ws[k + 1].jobs[acts[k].job];
      TakesFor(acts[t], job.port) && acts[t].hit == Some(job.route) && job.phase == Spliced(Asks(job.route))
  {
    hide Next, AtLoopEnd, Asks;
    var i := acts[k].job;
    assert Next(c, ws[k], acts[k], ws[k + 1]);
    SpliceAskedAll(c, ws[k], acts[k], ws[k + 1]);
    JobsStep(c, ws[k], acts[k], ws[k + 1], i);
    t := JobFrom(c, ws, acts, k, i);
  }

  // What the take at t hit is the latest registration of its port, at r, made
  // for the decision at j.
  lemma TakeFrom(c: Setup, ws: seq<World>, acts: seq<Act>, t: nat) returns (j: nat, r: nat)
    requires IsRun(c, ws, acts) && t < |acts| && acts[t].Take? && acts[t].hit.Some?
    ensures j < r < t && LatestFor(acts, acts[t].port, r, t) && R.InTime(acts[r].stamp, acts[t].now)
    ensures StillOn(acts, j, r) && DecidedAt(ws, acts, j, acts[r].f, acts[r].d)
    ensures acts[r].d.verdict == GoProxy && acts[r].d.via != [] && acts[t].hit == Some(RouteOf(acts[r].f, acts[r].d))
  {
    hide Next, DecidedAt, R.InTime;
    assert Next(c, ws[t], acts[t], ws[t + 1]);
    TakeHitsPending(c, ws[t], acts[t], ws[t + 1]);
    r := PendingFrom(c, ws, acts, t, acts[t].port);
    assert Next(c, ws[r], acts[r], ws[r + 1]);
    RegisterBinds(c, ws[r], acts[r], ws[r + 1]);
    j := InHandFrom(c, ws, acts, r);
  }

  // Whenever a relayed connection reaches the splice loop, its worker was
  // started by the take at t, that took the latest registration of its port,
  // made at r, for the decision at j; and the handshakes made were exactly those
  // of the whole target this decision named for its flow.
  lemma NoUnderProxying(c: Setup, ws: seq<World>, acts: seq<Act>, k: nat) returns (j: nat, r: nat, t: nat)
    requires IsRun(c, ws, acts) && k < |acts| && acts[k].Splice?
    ensures j < r < t < k && acts[k].job == |ws[t].jobs| < |ws[k + 1].jobs|
    ensures TakesFor(acts[t], ws[k + 1].jobs[acts[k].job].port)
    ensures LatestFor(acts, acts[t].port, r, t) && R.InTime(acts[r].stamp, acts[t].now)
    ensures StillOn(acts, j, r) && DecidedAt(ws, acts, j, acts[r].f, acts[r].d)
    ensures ws[k + 1].jobs[acts[k].job].phase.Spliced?
    ensures HonoursTarget(acts[j].pf, acts[r].f, acts[r].d, ws[k + 1].jobs[acts[k].job].phase.asked)
  {
    hide Next, Asks, Resolve.Decide, R.InTime, HonoursTarget;
    t := SpliceFrom(c, ws, acts, k);
    j, r := TakeFrom(c, ws, acts, t);
    FullListHonours(acts[j].pf, acts[r].f, acts[r].d);
  }

  // ---- fail closed -----------------------------------------------------------------------------

  lemma VerdictStep(c: Setup, w: World, a: Act, w': World)
    requires Next(c, w, a, w') && Verdicts(a)
    ensures w.pump == if a.AddMapping? then Registered(a.f, a.d) else Decided(a.f, a.d)
    ensures a.allowed == Allows(a.d, c.failClosed, a.AddMapping? && a.st == Ok)
    ensures a.AddMapping? && a.st == Ok ==>
      a.f.srcPort in w'.table && w'.table[a.f.srcPort].e == EntryOf(a.f, a.now)
  {
    hide Resolve.Decide, R.RegisterStep;
  }

  // What stands behind an allowed proxy flow: its full route was registered with
  // the relay at r, for the decision at j.
  lemma MappedFrom(c: Setup, ws: seq<World>, acts: seq<Act>, k: nat) returns (j: nat, r: nat)
    requires IsRun(c, ws, acts) && k < |acts| && acts[k].AddMapping?
    ensures j < r < k && StillOn(acts, j, r) && StillOn(acts, r, k)
    ensures DecidedAt(ws, acts, j, acts[k].f, acts[k].d)
    ensures acts[r].Register? && acts[r].f == acts[k].f && acts[r].d == acts[k].d && acts[r].st == Ok
    ensures var p := acts[k].f.srcPort;
      p in ws[r + 1].pending && ws[r + 1].pending[p].route == RouteOf(acts[k].f, acts[k].d)
    ensures acts[k].d.verdict == GoProxy && acts[k].d.via != []
  {
    hide Next, DecidedAt;
    assert Next(c, ws[k], acts[k], ws[k + 1]);
    VerdictStep(c, ws[k], acts[k], ws[k + 1]);
    r := RegisteredBy(c, ws, acts, k);
    assert Next(c, ws[r], acts[r], ws[r + 1]);
    RegisterBinds(c, ws[r], acts[r], ws[r + 1]);
    j := InHandFrom(c, ws, acts, r);
  }

  // A proxy decision is settled without any registration exactly for a flow the
  // backend cannot redirect.
  lemma RoutableOrSettled(c: Setup, ws: seq<World>, acts: seq<Act>, k: nat)
    requires IsRun(c, ws, acts) && k < |acts| && Verdicts(acts[k]) && acts[k].d.verdict == GoProxy
    ensures var f := acts[k].f; (acts[k].Settle? <==> acts[k].d.via == [] || f.v6 || f.udp || f.srcPort == 0)
  {
    assert Next(c, ws[k], acts[k], ws[k + 1]);
    if acts[k].AddMapping? {
      var r := RegisteredBy(c, ws, acts, k);
      assert Next(c, ws[r], acts[r], ws[r + 1]);
      RegisterBinds(c, ws[r], acts[r], ws[r + 1]);
    }
    hide Resolve.Decide, R.RegisterStep, N.Step, DecidedAt;
  }

  // Every verdict is on the decision at j. A block decision never goes out, a
  // direct one always does, and so does a proxy decision when not fail-closed.
  // Under fail-closed a proxy decision goes out exactly when both registrations
  // succeeded: then its full route went into the relay's pending table at r, the
  // connection table maps the flow, and the route is the whole target. Neither is
  // attempted exactly when the flow cannot be redirected.
  lemma FailClosed(c: Setup, ws: seq<World>, acts: seq<Act>, k: nat) returns (j: nat, r: nat)
    requires IsRun(c, ws, acts) && k < |acts| && Verdicts(acts[k])
    ensures j < k && DecidedAt(ws, acts, j, acts[k].f, acts[k].d)
    ensures acts[k].allowed <==>
      match acts[k].d.verdict
      case GoDirect => true
      case Refuse => false
      case GoProxy => !c.failClosed || (acts[k].AddMapping? && acts[k].st == Ok)
    ensures acts[k].AddMapping? ==>
      && j < r < k && acts[r].Register? && acts[r].f == acts[k].f && acts[r].d == acts[k].d && acts[r].st == Ok
      && acts[k].f.srcPort in ws[r + 1].pending
      && ws[r + 1].pending[acts[k].f.srcPort].route == RouteOf(acts[k].f, acts[k].d)
      && IsWholeTarget(acts[j].pf, acts[k].d.targetKind, acts[k].d.targetId, acts[k].d.via)
    ensures acts[k].AddMapping? && acts[k].st == Ok ==>
      && acts[k].f.srcPort in ws[k + 1].table
      && ws[k + 1].table[acts[k].f.srcPort].e == EntryOf(acts[k].f, acts[k].now)
    ensures acts[k].d.verdict == GoProxy ==>
      var f := acts[k].f;
      (acts[k].Settle? <==> acts[k].d.via == [] || f.v6 || f.udp || f.srcPort == 0)
  {
    assert Next(c, ws[k], acts[k], ws[k + 1]);
    if acts[k].d.verdict == GoProxy { RoutableOrSettled(c, ws, acts, k); }
    hide Next, Resolve.Decide, IsWholeTarget;
    VerdictStep(c, ws[k], acts[k], ws[k + 1]);
    if acts[k].AddMapping? {
      j, r := MappedFrom(c, ws, acts, k);
      AllOrNothing(acts[j].pf, QueryOf(acts[k].f));
    } else {
      j := InHandFrom(c, ws, acts, k);
      r := 0;
    }
  }

  // ---- the loopback escape ------------------------------------------------------------------------

  // The mapping a verdict adds is one for the flow's own packets: under it each of
  // them goes to the relay and the relay's reply comes back as its own.
  lemma MappingCarriesTheFlow(c: Setup, ws: seq<World>, acts: seq<Act>, k: nat, h: Header, relayPort: Port)
    requires IsRun(c, ws, acts) && k < |acts| && acts[k].AddMapping? && acts[k].st == Ok
    requires h.tcp && h.outbound
    requires h.srcAddr == acts[k].f.srcAddr && h.srcPort == acts[k].f.srcPort
    requires h.dstAddr == acts[k].f.dstAddr && h.dstPort == acts[k].f.dstPort
    ensures Key(h) == acts[k].f.srcPort && Key(h) in ws[k + 1].table
    ensures var hit := Some(ws[k + 1].table[Key(h)].e);
      var there := Rewritten(h, hit, relayPort);
      && there == Header(LOOPBACK, h.srcPort, LOOPBACK, relayPort, true, true, true)
      && Key(ReplyTo(there)) == Key(h)
      && Rewritten(ReplyTo(there), hit, relayPort) == Swapped(h)
  {
    hide Next;
    assert Next(c, ws[k], acts[k], ws[k + 1]);
    VerdictStep(c, ws[k], acts[k], ws[k + 1]);
    MappedForItsOwnPackets(acts[k].f, acts[k].now, h, relayPort);
  }

  // Fail-closed promises that an allowed proxy flow is carried by the relay. The
  // packets of one that was allowed are captured and redirected exactly when its
  // destination is not loopback.
  lemma AllowedIsRedirectedIffNotLoopback(c: Setup, ws: seq<World>, acts: seq<Act>, k: nat, h: Header, relayPort: Port)
    requires IsRun(c, ws, acts) && k < |acts| && Verdicts(acts[k]) && acts[k].allowed
    requires c.failClosed && acts[k].d.verdict == GoProxy && IsPacketOf(h, acts[k].f)
    ensures acts[k].AddMapping? && acts[k].f.srcPort in ws[k + 1].table
    ensures var p := acts[k].f.srcPort;
      acts[k].f.dstAddr != LOOPBACK
      <==> Captured(h, relayPort)
           && Rewritten(h, Some(ws[k + 1].table[p].e), relayPort)
              == Header(LOOPBACK, p, LOOPBACK, relayPort, true, true, true)
  {
    hide Next, DecidedAt, IsWholeTarget;
    var j, r := FailClosed(c, ws, acts, k);
    MappingCarriesTheFlow(c, ws, acts, k, h, relayPort);
  }

  // ---- flows and rules --------------------------------------------------------------------------------

  // A flow is judged by its own application, host and port.
  lemma JudgedByItsOwnFields(r: Rule, f: Flow, its: seq<PortSpec.Item>)
    ensures r.appPattern != [] && r.hostPattern == [] && r.portSpec == [] ==>
      var byName := Glob.ListMatches(r.appPattern, f.appName, true);
      var byPath := Glob.ListMatches(r.appPattern, f.appPath, true);
      (RuleMatches(r, QueryOf(f)) <==> byName || byPath)
    ensures r.appPattern == [] && r.hostPattern != [] && r.portSpec == [] ==>
      (RuleMatches(r, QueryOf(f)) <==> Glob.ListMatches(r.hostPattern, f.host, true))
    ensures r.appPattern == [] && r.hostPattern == [] && its != [] && r.portSpec == PortSpec.Text(its) ==>
      var byPort := exists i :: 0 <= i < |its| && PortSpec.Includes(its[i], f.dstPort);
      (RuleMatches(r, QueryOf(f)) <==> byPort)
  {
    hide Glob.ListMatches, RuleMatches;
    EachCriterionCounts(r, QueryOf(f));
    EachCriterionCounts(r.(appPattern := []), QueryOf(f));
    EachCriterionCounts(r.(hostPattern := []), QueryOf(f));
    EachCriterionCounts(r.(portSpec := []), QueryOf(f));
    if its != [] && r.portSpec == PortSpec.Text(its) { PortCriterionCounts(r, QueryOf(f), its); }
  }
}
