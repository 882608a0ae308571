// What the relay's pending table keeps over whole runs, and the accounting of
// accepted connections across the accept thread and its workers.

module RelayRuns {
  import opened Types
  import opened Relay

  // ---- registrations ---------------------------------------------------------------

  datatype Op =
    | Register(port: Port, route: Route, stamp: nat, st: Status)
    | Take(port: Port, hit: Option<Route>)

  datatype Event = Event(op: Op, now: nat)

  ghost predicate Step(m: PendingMap, e: Event, m': PendingMap) {
    match e.op
    case Register(p, route, stamp, st) => e.now <= stamp && RegisterStep(m, p, route, e.now, stamp, m', st)
    case Take(p, hit) => TakeStep(m, p, e.now, m', hit)
  }

  // The last clock reading of an event.
  function End(e: Event): nat {
    if e.op.Register? then Max(e.op.stamp, e.now) else e.now
  }

  ghost predicate IsRun(ms: seq<PendingMap>, es: seq<Event>) {
    && |ms| == |es| + 1 && ms[0] == map[]
    && (forall k :: 0 <= k < |es| ==> Step(ms[k], es[k], ms[k + 1]))
    && forall j, k :: 0 <= j < k < |es| ==> End(es[j]) <= es[k].now
  }

  predicate Registers(e: Event, p: Port) {
    e.op.Register? && e.op.port == p && e.op.st == Ok
  }

  predicate Consumes(e: Event, p: Port) {
    e.op.Take? && e.op.port == p && e.op.hit.Some?
  }

  // The registration of p at step a is the latest before k and not yet taken.
  ghost predicate Open(es: seq<Event>, p: Port, a: nat, k: nat) {
    && a < k <= |es| && Registers(es[a], p)
    && forall j :: a < j < k ==> !Registers(es[j], p) && !Consumes(es[j], p)
  }

  lemma PutSize(m: PendingMap, p: Port, w: Waiting)
    ensures |m[p := w]| == if p in m then |m| else |m| + 1
  {
    assert m[p := w].Keys == m.Keys + {p};
  }

  lemma StepBounded(m: PendingMap, e: Event, m': PendingMap)
    requires Step(m, e, m') && |m| <= MAX_PENDING
    ensures |m'| <= MAX_PENDING
  {
    var kept := Unexpired(m, e.now);
    SubsetSize(kept.Keys, m.Keys);
    match e.op {
      case Register(p, route, stamp, st) => PutSize(kept, p, Waiting(route, stamp));
      case Take(p, _) =>
        assert m'.Keys == kept.Keys - {p};
        SubsetSize(m'.Keys, kept.Keys);
    }
  }

  // Pending registrations never exceed the table.
  lemma {:induction false} PendingBounded(ms: seq<PendingMap>, es: seq<Event>, k: nat)
    requires IsRun(ms, es) && k <= |es|
    ensures |ms[k]| <= MAX_PENDING
  {
    hide Step;
    if k > 0 {
      PendingBounded(ms, es, k - 1);
      assert Step(ms[k - 1], es[k - 1], ms[k - 1 + 1]);
      StepBounded(ms[k - 1], es[k - 1], ms[k]);
    }
  }

  lemma StepOrigin(m: PendingMap, e: Event, m': PendingMap, p: Port)
    requires Step(m, e, m') && p in m'
    ensures Registers(e, p) ==> m'[p] == Waiting(e.op.route, e.op.stamp)
    ensures !Registers(e, p) ==> p in m && m[p] == m'[p] && !Consumes(e, p)
  {
  }

  lemma {:induction false} WaitingHasOrigin(ms: seq<PendingMap>, es: seq<Event>, p: Port, k: nat) returns (a: nat)
    requires IsRun(ms, es) && k <= |es| && p in ms[k]
    ensures Open(es, p, a, k) && ms[k][p] == Waiting(es[a].op.route, es[a].op.stamp)
  {
    hide Step;
    assert k > 0;
    assert Step(ms[k - 1], es[k - 1], ms[k - 1 + 1]);
    StepOrigin(ms[k - 1], es[k - 1], ms[k], p);
    if Registers(es[k - 1], p) {
      a := k - 1;
    } else {
      a := WaitingHasOrigin(ms, es, p, k - 1);
    }
  }

  lemma StepKeeps(m: PendingMap, e: Event, m': PendingMap, p: Port, w: Waiting)
    requires Step(m, e, m') && p in m && m[p] == w && InTime(w.added, e.now)
    requires !Registers(e, p) && !(e.op.Take? && e.op.port == p)
    ensures p in m' && m'[p] == w
  {
  }

  lemma RegisterBinds(m: PendingMap, e: Event, m': PendingMap, p: Port)
    requires Step(m, e, m') && Registers(e, p)
    ensures p in m' && m'[p] == Waiting(e.op.route, e.op.stamp)
  {
  }

  lemma TakeHits(m: PendingMap, e: Event, m': PendingMap, p: Port)
    requires Step(m, e, m') && e.op.Take? && e.op.port == p
    ensures e.op.hit == if p in m && InTime(m[p].added, e.now) then Some(m[p].route) else None
  {
  }

  // A registration in time at step b was kept through every step before it.
  lemma {:induction false} OpenStillWaits(ms: seq<PendingMap>, es: seq<Event>, p: Port, a: nat, k: nat, b: nat)
    requires IsRun(ms, es) && a < k <= b < |es| && Open(es, p, a, b)
    requires InTime(es[a].op.stamp, es[b].now)
    ensures p in ms[k] && ms[k][p] == Waiting(es[a].op.route, es[a].op.stamp)
  {
    hide Step;
    var prev := k - 1;
    assert Step(ms[prev], es[prev], ms[prev + 1]);
    if prev == a {
      RegisterBinds(ms[a], es[a], ms[k], p);
    } else {
      OpenStillWaits(ms, es, p, a, prev, b);
      assert es[prev].now <= End(es[prev]) <= es[b].now;
      if es[prev].op.Take? && es[prev].op.port == p {
        TakeHits(ms[prev], es[prev], ms[k], p);
      } else {
        StepKeeps(ms[prev], es[prev], ms[k], p, Waiting(es[a].op.route, es[a].op.stamp));
      }
    }
  }

  // A take returns the route of the latest open registration of its port when
  // that is in time, and nothing otherwise.
  lemma TakeReturnsLatest(ms: seq<PendingMap>, es: seq<Event>, b: nat, p: Port, route: Route)
    requires IsRun(ms, es) && b < |es| && es[b].op.Take? && es[b].op.port == p
    ensures es[b].op.hit == Some(route)
       <==> exists a: nat :: Open(es, p, a, b) && InTime(es[a].op.stamp, es[b].now) && es[a].op.route == route
  {
    hide Step;
    assert Step(ms[b], es[b], ms[b + 1]);
    TakeHits(ms[b], es[b], ms[b + 1], p);
    if es[b].op.hit == Some(route) {
      var a := WaitingHasOrigin(ms, es, p, b);
    }
    if a: nat :| Open(es, p, a, b) && InTime(es[a].op.stamp, es[b].now) && es[a].op.route == route {
      OpenStillWaits(ms, es, p, a, b, b);
    }
  }

  // No registration is taken twice: between two hits on a port lies a successful
  // registration of it, the latest, whose route is the second hit.
  lemma ConsumedOnce(ms: seq<PendingMap>, es: seq<Event>, p: Port, b: nat, c: nat) returns (a: nat)
    requires IsRun(ms, es) && b < c < |es| && Consumes(es[b], p) && Consumes(es[c], p)
    ensures b < a < c && Open(es, p, a, c) && es[c].op.hit == Some(es[a].op.route)
  {
    TakeReturnsLatest(ms, es, c, p, es[c].op.hit.value);
    a :| Open(es, p, a, c) && InTime(es[a].op.stamp, es[c].now) && es[a].op.route == es[c].op.hit.value;
  }

  // ---- connections -------------------------------------------------------------------

  // Where the accept thread stands with the connection it last accepted.
  datatype InHand = Idle | Accepted | Taken | Holding(id: nat) | Entered(id: nat)

  // How far a worker got: its handshakes are undecided, the tunnel runs, or it
  // has finished.
  datatype Phase = Dialling | Running | Finished

  datatype State = State(
    accepted: nat, ok: nat, failed: nat, allocFailed: nat,
    hand: InHand,
    table: seq<nat>,           // conns[0..conn_count]
    phases: map<nat, Phase>,   // every record a worker was started (or refused) for
    harvested: set<nat>,       // taken out of the table, not yet joined
    joined: set<nat>,          // joined and freed
    nextId: nat)

  datatype Move =
    | Accept
    | NoRegistration
    | TakeHit
    | AllocFails
    | Alloc
    | TableFull
    | Enter
    | Start(started: bool)
    | HandshakeDone(id: nat, success: bool)
    | SpliceEnds(id: nat)
    | Reap(all: bool)
    | Join(id: nat)

  predicate IsDone(s: State, id: nat) {
    id in s.phases && s.phases[id] == Finished
  }

  function DoneSet(phases: map<nat, Phase>): set<nat> {
    set id | id in phases && phases[id] == Finished
  }

  // Each move is one section under the relay's lock, or a thread's own step
  // between two of them. A join returns only once its worker has finished.
  predicate Moves(s: State, m: Move, s': State) {
    match m
    case Accept => s.hand == Idle && s' == s.(hand := Accepted, accepted := s.accepted + 1)
    case NoRegistration => s.hand == Accepted && s' == s.(hand := Idle, failed := s.failed + 1)
    case TakeHit => s.hand == Accepted && s' == s.(hand := Taken)
    case AllocFails => s.hand == Taken && s' == s.(hand := Idle, allocFailed := s.allocFailed + 1)
    case Alloc => s.hand == Taken && s' == s.(hand := Holding(s.nextId), nextId := s.nextId + 1)
    case TableFull =>
      s.hand.Holding? && |s.table| >= MAX_CONNS && s' == s.(hand := Idle, failed := s.failed + 1)
    case Enter =>
      && s.hand.Holding? && |s.table| < MAX_CONNS
      && s' == s.(hand := Entered(s.hand.id), table := s.table + [s.hand.id])
    case Start(started) =>
      && s.hand.Entered?
      && s' == if started then s.(hand := Idle, phases := s.phases[s.hand.id := Dialling])
               else s.(hand := Idle, phases := s.phases[s.hand.id := Finished], failed := s.failed + 1)
    case HandshakeDone(id, success) =>
      && id in s.phases && s.phases[id] == Dialling
      && s' == if success then s.(phases := s.phases[id := Running], ok := s.ok + 1)
               else s.(phases := s.phases[id := Finished], failed := s.failed + 1)
    case SpliceEnds(id) =>
      id in s.phases && s.phases[id] == Running && s' == s.(phases := s.phases[id := Finished])
    case Reap(all) =>
      && (all ==> s.hand == Idle)
      && !s.hand.Entered?
      && s' == s.(table := Staying(s.table, DoneSet(s.phases), all),
                  harvested := s.harvested + Elements(Leaving(s.table, DoneSet(s.phases), all)))
    case Join(id) =>
      id in s.harvested && IsDone(s, id) && s' == s.(harvested := s.harvested - {id}, joined := s.joined + {id})
  }

  const START := State(0, 0, 0, 0, Idle, [], map[], {}, {}, 0)

  function DiallingSet(phases: map<nat, Phase>): set<nat> {
    set id | id in phases && phases[id] == Dialling
  }

  // Accepted connections whose fate no counter shows yet.
  function Undecided(s: State): nat {
    |DiallingSet(s.phases)| + if s.hand == Idle then 0 else 1
  }

  function Elements(t: seq<nat>): set<nat> {
    set id | id in t
  }

  function Known(s: State): set<nat> {
    Elements(s.table) + s.harvested + s.joined
  }

  // The record the accept thread holds: allocated, or already in the table but
  // with no worker yet.
  function InHandSet(s: State): set<nat> {
    if s.hand.Holding? || s.hand.Entered? then {s.hand.id} else {}
  }

  predicate Balanced(s: State) {
    s.accepted == s.ok + s.failed + s.allocFailed + Undecided(s)
  }

  // Every record is in exactly one place: in hand, in the table, harvested or
  // joined; a joined one is finished.
  ghost predicate Tracked(s: State) {
    && |s.table| <= MAX_CONNS && Unique(s.table)
    && Elements(s.table) !! s.harvested !! s.joined
    && s.joined <= DoneSet(s.phases)
    && s.phases.Keys + InHandSet(s) == Known(s) + InHandSet(s)
    && s.phases.Keys !! InHandSet(s)
    && (s.hand.Holding? ==> s.hand.id !in Known(s))
    && (s.hand.Entered? ==> s.hand.id in Elements(s.table))
    && forall id :: id in Known(s) + InHandSet(s) ==> id < s.nextId
  }

  lemma DiallingChanges(phases: map<nat, Phase>, id: nat, ph: Phase)
    ensures |DiallingSet(phases[id := ph])| == |DiallingSet(phases)|
        - (if id in phases && phases[id] == Dialling then 1 else 0) + (if ph == Dialling then 1 else 0)
  {
    var d, d' := DiallingSet(phases), DiallingSet(phases[id := ph]);
    assert d' == if ph == Dialling then (d - {id}) + {id} else d - {id};
  }

  lemma MoveKeepsBalance(s: State, m: Move, s': State)
    requires Tracked(s) && Balanced(s) && Moves(s, m, s')
    ensures Balanced(s')
  {
    match m {
      case Start(started) => DiallingChanges(s.phases, s.hand.id, if started then Dialling else Finished);
      case HandshakeDone(id, success) => DiallingChanges(s.phases, id, if success then Running else Finished);
      case SpliceEnds(id) => DiallingChanges(s.phases, id, Finished);
      case _ => assert DiallingSet(s'.phases) == DiallingSet(s.phases);
    }
  }

  // A reap moves the leaving records from the table to the harvest.
  lemma ReapMoves(t: seq<nat>, done: set<nat>, all: bool)
    requires Unique(t)
    ensures var gone := Elements(Leaving(t, done, all));
      gone <= Elements(t) && Elements(Staying(t, done, all)) == Elements(t) - gone
    ensures Unique(Staying(t, done, all)) && |Staying(t, done, all)| <= |t|
  {
    SplitFacts(t, done, all);
    hide Staying, Leaving;
  }

  lemma ReapKeepsTracked(s: State, all: bool, s': State)
    requires Tracked(s) && Moves(s, Reap(all), s')
    ensures Tracked(s') && Known(s') == Known(s)
  {
    var done := DoneSet(s.phases);
    var stay, gone := Staying(s.table, done, all), Elements(Leaving(s.table, done, all));
    assert s' == s.(table := stay, harvested := s.harvested + gone);
    assert !s.hand.Entered?;
    hide Moves, Staying, Leaving;
    ReapMoves(s.table, done, all);
    hide Elements, Unique, DoneSet;
    SetsMove(Elements(s.table), s.harvested, s.joined, gone);
    assert Known(s') == Known(s);
  }

  lemma SetsMove(t: set<nat>, h: set<nat>, j: set<nat>, gone: set<nat>)
    requires t !! h !! j && gone <= t
    ensures (t - gone) !! (h + gone) !! j && (t - gone) + (h + gone) + j == t + h + j
  {
  }

  lemma EnterKeepsTracked(s: State, s': State)
    requires Tracked(s) && Moves(s, Enter, s')
    ensures Tracked(s') && Known(s) <= Known(s')
  {
    assert Elements(s'.table) == Elements(s.table) + {s.hand.id};
    assert s.hand.id !in Elements(s.table);
  }

  lemma WorkersKeepTracked(s: State, m: Move, s': State)
    requires Tracked(s) && Moves(s, m, s') && (m.HandshakeDone? || m.SpliceEnds? || m.Join?)
    ensures Tracked(s') && Known(s') == Known(s)
  {
    hide Elements, Unique;
    if !m.Join? { assert s'.phases.Keys == s.phases.Keys; }
  }

  lemma AcceptKeepsTracked(s: State, m: Move, s': State)
    requires Tracked(s) && Moves(s, m, s')
    requires !m.HandshakeDone? && !m.SpliceEnds? && !m.Join? && !m.Reap? && !m.Enter?
    ensures Tracked(s') && Known(s') == Known(s)
  {
    hide Elements, Unique;
    if m.Start? { assert s'.phases.Keys == s.phases.Keys + {s.hand.id} && s.hand.id in Known(s); }
  }

  // No record is lost or freed early: what was known stays known, and only a
  // finished worker's record is ever joined.
  lemma MoveKeepsTracked(s: State, m: Move, s': State)
    requires Tracked(s) && Moves(s, m, s')
    ensures Tracked(s') && Known(s) <= Known(s') && s'.joined <= DoneSet(s'.phases)
  {
    hide Moves, Elements, Unique;
    match m {
      case Reap(all) => ReapKeepsTracked(s, all, s');
      case Enter => EnterKeepsTracked(s, s');
      case HandshakeDone(_, _) => WorkersKeepTracked(s, m, s');
      case SpliceEnds(_) => WorkersKeepTracked(s, m, s');
      case Join(_) => WorkersKeepTracked(s, m, s');
      case _ => AcceptKeepsTracked(s, m, s');
    }
  }

  ghost predicate IsConnRun(ss: seq<State>, ms: seq<Move>) {
    && |ss| == |ms| + 1 && ss[0] == START
    && forall k :: 0 <= k < |ms| ==> Moves(ss[k], ms[k], ss[k + 1])
  }

  // A connection in hand enters the table exactly while it holds fewer than 64.
  lemma EntersBelow64(s: State)
    requires s.hand.Holding?
    ensures (exists s' :: Moves(s, Enter, s')) <==> |s.table| < 64
    ensures (exists s' :: Moves(s, TableFull, s')) <==> |s.table| >= 64
  {
    if |s.table| < 64 {
      assert Moves(s, Enter, s.(hand := Entered(s.hand.id), table := s.table + [s.hand.id]));
    } else {
      assert Moves(s, TableFull, s.(hand := Idle, failed := s.failed + 1));
    }
  }

  // At every step of every interleaving the counters account for every accepted
  // connection, and every record is tracked.
  lemma {:induction false} AccountsBalance(ss: seq<State>, ms: seq<Move>, k: nat)
    requires IsConnRun(ss, ms) && k <= |ms|
    ensures ss[k].accepted == ss[k].ok + ss[k].failed + ss[k].allocFailed + Undecided(ss[k])
    ensures |ss[k].table| <= 64
    ensures Tracked(ss[k])
  {
    if k == 0 {
      assert DiallingSet(START.phases) == {};
    } else {
      AccountsBalance(ss, ms, k - 1);
      assert Moves(ss[k - 1], ms[k - 1], ss[k - 1 + 1]);
      hide Moves, Tracked, Undecided;
      MoveKeepsBalance(ss[k - 1], ms[k - 1], ss[k]);
      MoveKeepsTracked(ss[k - 1], ms[k - 1], ss[k]);
    }
  }
}
