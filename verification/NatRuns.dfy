// What the connection table keeps over whole runs: any sequence of operations,
// any capacity, any interleaving, under a clock that never goes back.

module NatRuns {
  import opened Types
  import opened Nat

  datatype Event = Event(op: Op, now: nat, reply: Reply)

  // A run visits tables ts[0], ts[1], ... and takes es[k] from ts[k] to ts[k+1].
  ghost predicate IsRun(cap: nat, ttl: nat, ts: seq<Table>, es: seq<Event>) {
    && |ts| == |es| + 1
    && ts[0] == map[]
    && (forall k :: 0 <= k < |es| ==> Step(cap, ttl, ts[k], es[k].op, es[k].now, ts[k + 1], es[k].reply))
    && forall j, k :: 0 <= j <= k < |es| ==> es[j].now <= es[k].now
  }

  // ---- the bounded map --------------------------------------------------------

  predicate WellKept(p: Port, b: Binding, upTo: nat) {
    p != 0 && b.e.srcPort == p && b.e.created <= b.lastSeen <= upTo
  }

  ghost predicate Sound(cap: nat, t: Table, upTo: nat) {
    |t| <= cap && forall p :: p in t ==> WellKept(p, t[p], upTo)
  }

  lemma AddKeepsSound(cap: nat, ttl: nat, t: Table, e: Entry, now: nat, t': Table, st: Status)
    requires Sound(cap, t, now) && AddStep(cap, ttl, t, e, now, t', st)
    ensures Sound(cap, t', now)
  {
    var p, born := e.srcPort, Binding(e.(created := now), false, now);
    if st == Ok && p !in t && |t| == cap {
      var v: Port :| IsVictim(ttl, t, now, v) && t' == (t - {v})[p := born];
      SizeAfterSwap(t, v, p, born);
    } else if st == Ok {
      SizeAfterPut(t, p, born);
    }
  }

  lemma SizeAfterPut(t: Table, p: Port, b: Binding)
    ensures |t[p := b]| == if p in t then |t| else |t| + 1
  {
    assert t[p := b].Keys == t.Keys + {p};
  }

  lemma SizeAfterSwap(t: Table, v: Port, p: Port, b: Binding)
    requires v in t && p !in t
    ensures |(t - {v})[p := b]| == |t|
  {
    assert (t - {v}).Keys == t.Keys - {v};
    SizeAfterPut(t - {v}, p, b);
  }

  lemma StepKeepsSound(cap: nat, ttl: nat, t: Table, op: Op, now: nat, t': Table, r: Reply, before: nat)
    requires Sound(cap, t, before) && before <= now && Step(cap, ttl, t, op, now, t', r)
    ensures Sound(cap, t', now)
  {
    hide AddStep;
    assert Sound(cap, t, now);
    match op {
      case Add(e) => AddKeepsSound(cap, ttl, t, e, now, t', r.status);
      case _ =>
        assert t'.Keys <= t.Keys;
        SubsetSize(t'.Keys, t.Keys);
        assert |t'| <= |t|;
    }
  }

  // In every reachable state the table holds at most `cap` bindings, each under
  // its own non-zero port.
  lemma {:induction false} RunIsSound(cap: nat, ttl: nat, ts: seq<Table>, es: seq<Event>, k: nat)
    requires IsRun(cap, ttl, ts, es) && k <= |es|
    ensures Sound(cap, ts[k], if k == 0 then 0 else es[k - 1].now)
  {
    hide Step;
    if k > 0 {
      RunIsSound(cap, ttl, ts, es, k - 1);
      var e := es[k - 1];
      StepKeepsSound(cap, ttl, ts[k - 1], e.op, e.now, ts[k], e.reply, if k == 1 then 0 else es[k - 2].now);
    }
  }

  // ---- no live mapping is ever lost -------------------------------------------

  predicate Bound(ev: Event, p: Port) {
    ev.op.Add? && ev.op.e.srcPort == p && ev.reply == Added(Ok)
  }

  // The operations that end or replace the mapping of p on purpose.
  predicate Disturbs(ev: Event, p: Port) {
    match ev.op
    case Add(e) => e.srcPort == p
    case MarkClosed(q) => q == p
    case Remove(q) => q == p
    case _ => false
  }

  // When the mapping added at step a was last touched before step k: by the add
  // itself or by a later lookup.
  function LastTouch(es: seq<Event>, p: Port, a: nat, k: nat): nat
    requires a < k <= |es|
    decreases k
  {
    if k == a + 1 || es[k - 1].op == Find(p) then es[k - 1].now else LastTouch(es, p, a, k - 1)
  }

  // Since its addition at a the mapping has been left alone up to b.
  ghost predicate Undisturbed(es: seq<Event>, p: Port, a: nat, b: nat) {
    && a < b <= |es| && Bound(es[a], p)
    && forall k :: a < k < b ==> !Disturbs(es[k], p)
  }

  // The lookup at k comes longer than the TTL after the last touch.
  predicate TooLate(ttl: nat, es: seq<Event>, p: Port, a: nat, k: nat)
    requires a < k < |es|
  {
    es[k].op == Find(p) && es[k].now > LastTouch(es, p, a, k) + ttl
  }

  // And each lookup came at most the TTL after the previous touch.
  ghost predicate KeptAlive(ttl: nat, es: seq<Event>, p: Port, a: nat, b: nat) {
    && Undisturbed(es, p, a, b)
    && forall k :: a < k < b ==> !TooLate(ttl, es, p, a, k)
  }

  // When step b comes within the TTL of the last touch before end, so does every
  // step before end.
  lemma {:induction false} NeverIdle(cap: nat, ttl: nat, ts: seq<Table>, es: seq<Event>, p: Port,
                                     a: nat, end: nat, b: nat, k: nat)
    requires IsRun(cap, ttl, ts, es) && KeptAlive(ttl, es, p, a, end) && end <= b < |es|
    requires es[b].now <= LastTouch(es, p, a, end) + ttl
    requires a < k <= end
    ensures es[k].now <= LastTouch(es, p, a, k) + ttl
    decreases end - k
  {
    if k == end {
      assert es[end].now <= es[b].now;
    } else {
      assert !TooLate(ttl, es, p, a, k);
      if es[k].op != Find(p) {
        NeverIdle(cap, ttl, ts, es, p, a, end, b, k + 1);
        assert es[k].now <= es[k + 1].now;
      }
    }
  }

  ghost predicate Holds(t: Table, p: Port, e: Entry, seen: nat) {
    p in t && t[p] == Binding(e, false, seen)
  }

  lemma StepKeepsMapping(cap: nat, ttl: nat, t: Table, ev: Event, t': Table, p: Port, e: Entry, seen: nat)
    requires Step(cap, ttl, t, ev.op, ev.now, t', ev.reply)
    requires Holds(t, p, e, seen) && !Disturbs(ev, p) && ev.now <= seen + ttl
    ensures Holds(t', p, e, if ev.op == Find(p) then ev.now else seen)
    ensures ev.op == Find(p) ==> ev.reply == Looked(Some(e))
  {
  }

  // Up to end the mapping stands as it was added, seen at the last touch.
  lemma {:induction false} MappingStands(cap: nat, ttl: nat, ts: seq<Table>, es: seq<Event>, p: Port,
                                         a: nat, end: nat, b: nat, k: nat)
    requires IsRun(cap, ttl, ts, es) && KeptAlive(ttl, es, p, a, end) && end <= b < |es|
    requires es[b].now <= LastTouch(es, p, a, end) + ttl
    requires a < k <= end
    ensures Holds(ts[k], p, es[a].op.e.(created := es[a].now), LastTouch(es, p, a, k))
  {
    hide Step, Disturbs, Holds, LastTouch;
    var prev := k - 1;
    TouchOnce(es, p, a, prev);
    assert Step(cap, ttl, ts[prev], es[prev].op, es[prev].now, ts[prev + 1], es[prev].reply);
    if prev > a {
      assert !Disturbs(es[prev], p);
      NeverIdle(cap, ttl, ts, es, p, a, end, b, prev);
      MappingStands(cap, ttl, ts, es, p, a, end, b, prev);
      hide IsRun, KeptAlive;
      StepKeepsMapping(cap, ttl, ts[prev], es[prev], ts[k], p,
                       es[a].op.e.(created := es[a].now), LastTouch(es, p, a, prev));
    } else {
      AddBinds(cap, ttl, ts[a], es[a], ts[a + 1], p);
    }
  }

  lemma TouchOnce(es: seq<Event>, p: Port, a: nat, k: nat)
    requires a <= k < |es|
    ensures LastTouch(es, p, a, k + 1)
         == if k == a || es[k].op == Find(p) then es[k].now else LastTouch(es, p, a, k)
  {
  }

  lemma AddBinds(cap: nat, ttl: nat, t: Table, ev: Event, t': Table, p: Port)
    requires Step(cap, ttl, t, ev.op, ev.now, t', ev.reply) && Bound(ev, p)
    ensures Holds(t', p, ev.op.e.(created := ev.now), ev.now)
  {
  }

  lemma FoundInTime(cap: nat, ttl: nat, ts: seq<Table>, es: seq<Event>, p: Port, a: nat, b: nat)
    requires IsRun(cap, ttl, ts, es) && b < |es| && es[b].op == Find(p)
    requires KeptAlive(ttl, es, p, a, b + 1)
    ensures es[b].reply == Looked(Some(es[a].op.e.(created := es[a].now)))
  {
    hide Step;
    assert !TooLate(ttl, es, p, a, b);
    MappingStands(cap, ttl, ts, es, p, a, b, b, b);
    StepKeepsMapping(cap, ttl, ts[b], es[b], ts[b + 1], p,
                     es[a].op.e.(created := es[a].now), LastTouch(es, p, a, b));
  }

  // ---- and what is not kept alive is lost for good ------------------------------

  predicate Adds(ev: Event, p: Port) {
    ev.op.Add? && ev.op.e.srcPort == p
  }

  lemma NotAnAdd(ev: Event, p: Port)
    requires !Disturbs(ev, p) || !ev.op.Add?
    ensures !Adds(ev, p)
  {
  }

  lemma StepTouches(cap: nat, ttl: nat, t: Table, ev: Event, t': Table, p: Port)
    requires Step(cap, ttl, t, ev.op, ev.now, t', ev.reply) && p in t' && !Adds(ev, p)
    ensures p in t && t'[p].e == t[p].e && t'[p].lastSeen in {t[p].lastSeen, ev.now}
    ensures t'[p].lastSeen != t[p].lastSeen ==> ev.op == Find(p) && ev.now <= t[p].lastSeen + ttl
  {
  }

  // A binding is never younger than the last touch.
  lemma {:induction false} SeenByLastTouch(cap: nat, ttl: nat, ts: seq<Table>, es: seq<Event>, p: Port, a: nat, k: nat)
    requires IsRun(cap, ttl, ts, es) && Undisturbed(es, p, a, k) && p in ts[k]
    ensures ts[k][p].lastSeen <= LastTouch(es, p, a, k)
    decreases k
  {
    hide Step, Disturbs, LastTouch;
    var prev := k - 1;
    TouchOnce(es, p, a, prev);
    assert Step(cap, ttl, ts[prev], es[prev].op, es[prev].now, ts[prev + 1], es[prev].reply);
    if prev == a {
      AddBinds(cap, ttl, ts[a], es[a], ts[a + 1], p);
    } else {
      NotAnAdd(es[prev], p);
      StepTouches(cap, ttl, ts[prev], es[prev], ts[k], p);
      SeenByLastTouch(cap, ttl, ts, es, p, a, prev);
      TouchIsPast(cap, ttl, ts, es, p, a, prev);
    }
  }

  lemma {:induction false} TouchIsPast(cap: nat, ttl: nat, ts: seq<Table>, es: seq<Event>, p: Port, a: nat, k: nat)
    requires IsRun(cap, ttl, ts, es) && a < k < |es|
    ensures LastTouch(es, p, a, k) <= es[k].now
    decreases k
  {
    hide Step;
    if !(k == a + 1 || es[k - 1].op == Find(p)) {
      TouchIsPast(cap, ttl, ts, es, p, a, k - 1);
      assert es[k - 1].now <= es[k].now;
    }
  }

  // A binding seen too long before some clock reading is not in time again until
  // the port is added anew.
  lemma {:induction false} StaleStaysStale(cap: nat, ttl: nat, ts: seq<Table>, es: seq<Event>, p: Port,
                                           i: nat, k: nat, clock: nat)
    requires IsRun(cap, ttl, ts, es) && i <= k < |es| && clock <= es[i].now
    requires p in ts[i] ==> ts[i][p].lastSeen + ttl < clock
    requires forall m :: i <= m < k ==> !Adds(es[m], p)
    ensures p in ts[k] ==> ts[k][p].lastSeen + ttl < clock
    decreases k
  {
    hide Step, Adds;
    if i < k && p in ts[k] {
      var prev := k - 1;
      assert Step(cap, ttl, ts[prev], es[prev].op, es[prev].now, ts[prev + 1], es[prev].reply);
      StepTouches(cap, ttl, ts[prev], es[prev], ts[k], p);
      assert es[i].now <= es[prev].now;
      StaleStaysStale(cap, ttl, ts, es, p, i, prev, clock);
    }
  }

  // After one late lookup no binding of the port is in time again.
  lemma LateStaysLost(cap: nat, ttl: nat, ts: seq<Table>, es: seq<Event>, p: Port, a: nat, i: nat, k: nat)
    requires IsRun(cap, ttl, ts, es) && a < i <= k < |es| && Undisturbed(es, p, a, i + 1) && TooLate(ttl, es, p, a, i)
    requires forall m :: i < m < k ==> !Adds(es[m], p)
    ensures p in ts[k] ==> ts[k][p].lastSeen + ttl < es[i].now
  {
    hide Step, LastTouch;
    if p in ts[i] { SeenByLastTouch(cap, ttl, ts, es, p, a, i); }
    StaleStaysStale(cap, ttl, ts, es, p, i, k, es[i].now);
  }

  lemma LookupAnswers(cap: nat, ttl: nat, t: Table, ev: Event, t': Table, p: Port)
    requires Step(cap, ttl, t, ev.op, ev.now, t', ev.reply) && ev.op == Find(p)
    ensures ev.reply == Looked(if p in t && ev.now <= t[p].lastSeen + ttl then Some(t[p].e) else None)
  {
  }

  // A mapping that was added and left alone is found, unchanged, exactly as long
  // as no lookup of it comes too late: however full the table is and whatever
  // else happens in between it is not lost sooner, and after one late lookup it
  // is lost for good.
  lemma LiveMappingNeverLost(cap: nat, ttl: nat, ts: seq<Table>, es: seq<Event>, p: Port, a: nat, b: nat)
    requires IsRun(cap, ttl, ts, es) && b < |es| && es[b].op == Find(p)
    requires Undisturbed(es, p, a, b + 1) && a < b
    ensures es[b].reply == Looked(if KeptAlive(ttl, es, p, a, b + 1)
                                  then Some(es[a].op.e.(created := es[a].now)) else None)
  {
    hide Step, TooLate, Disturbs;
    if KeptAlive(ttl, es, p, a, b + 1) {
      FoundInTime(cap, ttl, ts, es, p, a, b);
    } else {
      var i: nat :| a < i < b + 1 && TooLate(ttl, es, p, a, i);
      forall m | i < m < b ensures !Adds(es[m], p) { NotAnAdd(es[m], p); }
      LateStaysLost(cap, ttl, ts, es, p, a, i, b);
      assert es[i].now <= es[b].now;
      assert Step(cap, ttl, ts[b], es[b].op, es[b].now, ts[b + 1], es[b].reply);
      LookupAnswers(cap, ttl, ts[b], es[b], ts[b + 1], p);
    }
  }

  // ---- closed mappings --------------------------------------------------------

  // Adding a further port to a full table, which may take a closed slot.
  predicate MeetsFull(cap: nat, t: Table, ev: Event) {
    ev.op.Add? && ev.op.e.srcPort !in t && |t| >= cap
  }

  // Between c and b nobody added or removed port p, nor added another port to a
  // full table.
  ghost predicate LeftInPlace(cap: nat, ts: seq<Table>, es: seq<Event>, p: Port, c: nat, b: nat) {
    && c < b <= |es| <= |ts|
    && forall k :: c < k < b ==> !Adds(es[k], p) && es[k].op != Remove(p) && !MeetsFull(cap, ts[k], es[k])
  }

  predicate HoldsClosed(t: Table, p: Port, e: Entry, seen: nat) {
    p in t && t[p] == Binding(e, true, seen)
  }

  lemma CloseMarks(cap: nat, ttl: nat, t: Table, ev: Event, t': Table, p: Port, e: Entry, seen: nat)
    requires Step(cap, ttl, t, ev.op, ev.now, t', ev.reply) && ev.op == MarkClosed(p) && Holds(t, p, e, seen)
    ensures HoldsClosed(t', p, e, seen)
  {
  }

  lemma StepKeepsClosed(cap: nat, ttl: nat, t: Table, ev: Event, t': Table, p: Port, e: Entry, seen: nat)
    requires Step(cap, ttl, t, ev.op, ev.now, t', ev.reply) && HoldsClosed(t, p, e, seen) && ev.now <= seen + ttl
    requires !Adds(ev, p) && ev.op != Remove(p) && !MeetsFull(cap, t, ev)
    ensures HoldsClosed(t', p, e, seen)
  {
  }

  lemma {:induction false} ClosedStands(cap: nat, ttl: nat, ts: seq<Table>, es: seq<Event>, p: Port,
                                        c: nat, b: nat, k: nat, e: Entry, seen: nat)
    requires IsRun(cap, ttl, ts, es) && c < k <= b < |es| && LeftInPlace(cap, ts, es, p, c, b)
    requires HoldsClosed(ts[c + 1], p, e, seen) && es[b].now <= seen + ttl
    ensures HoldsClosed(ts[k], p, e, seen)
  {
    hide Step, HoldsClosed, Adds, MeetsFull;
    if k > c + 1 {
      var prev := k - 1;
      assert Step(cap, ttl, ts[prev], es[prev].op, es[prev].now, ts[prev + 1], es[prev].reply);
      assert es[prev].now <= es[b].now;
      ClosedStands(cap, ttl, ts, es, p, c, b, prev, e, seen);
      StepKeepsClosed(cap, ttl, ts[prev], es[prev], ts[k], p, e, seen);
    }
  }

  // Closing keeps the mapping matching, but no longer for ever: left in place, it
  // is found exactly within the TTL of the last touch before the close, and
  // lookups after the close do not extend that.
  lemma ClosedStillMatches(cap: nat, ttl: nat, ts: seq<Table>, es: seq<Event>, p: Port, a: nat, c: nat, b: nat)
    requires IsRun(cap, ttl, ts, es) && LeftInPlace(cap, ts, es, p, c, b) && b < |es| && es[b].op == Find(p)
    requires Undisturbed(es, p, a, c) && es[c].op == MarkClosed(p)
    ensures es[b].reply == Looked(if KeptAlive(ttl, es, p, a, c) && es[b].now <= LastTouch(es, p, a, c) + ttl
                                  then Some(es[a].op.e.(created := es[a].now)) else None)
  {
    hide Step, Adds, MeetsFull, LastTouch;
    assert Step(cap, ttl, ts[c], es[c].op, es[c].now, ts[c + 1], es[c].reply);
    assert Step(cap, ttl, ts[b], es[b].op, es[b].now, ts[b + 1], es[b].reply);
    LookupAnswers(cap, ttl, ts[b], es[b], ts[b + 1], p);
    if KeptAlive(ttl, es, p, a, c) && es[b].now <= LastTouch(es, p, a, c) + ttl {
      var e, seen := es[a].op.e.(created := es[a].now), LastTouch(es, p, a, c);
      MappingStands(cap, ttl, ts, es, p, a, c, b, c);
      CloseMarks(cap, ttl, ts[c], es[c], ts[c + 1], p, e, seen);
      ClosedStands(cap, ttl, ts, es, p, c, b, b, e, seen);
    } else {
      LateOrLeft(cap, ttl, ts, es, p, a, c, b);
    }
  }

  // Otherwise what is still there was last seen too long ago.
  lemma LateOrLeft(cap: nat, ttl: nat, ts: seq<Table>, es: seq<Event>, p: Port, a: nat, c: nat, b: nat)
    requires IsRun(cap, ttl, ts, es) && LeftInPlace(cap, ts, es, p, c, b) && b < |es|
    requires Undisturbed(es, p, a, c) && es[c].op == MarkClosed(p)
    requires !(KeptAlive(ttl, es, p, a, c) && es[b].now <= LastTouch(es, p, a, c) + ttl)
    ensures p in ts[b] ==> ts[b][p].lastSeen + ttl < es[b].now
  {
    hide Step, LastTouch, MeetsFull, TooLate;
    hide Disturbs, Adds;
    forall m | a < m < b ensures !Adds(es[m], p) {
      if m <= c { NotAnAdd(es[m], p); }
    }
    if KeptAlive(ttl, es, p, a, c) {
      if p in ts[c] { SeenByLastTouch(cap, ttl, ts, es, p, a, c); }
      SeenStays(cap, ttl, ts, es, p, c, b, LastTouch(es, p, a, c));
    } else {
      var i: nat :| a < i < c && TooLate(ttl, es, p, a, i);
      LateStaysLost(cap, ttl, ts, es, p, a, i, b);
      assert es[i].now <= es[b].now;
    }
  }

  lemma ClosedIsNotTouched(cap: nat, ttl: nat, t: Table, ev: Event, t': Table, p: Port)
    requires Step(cap, ttl, t, ev.op, ev.now, t', ev.reply) && p in t' && !Adds(ev, p)
    ensures p in t && (t[p].closed || ev.op == MarkClosed(p) ==> t'[p].closed && t'[p].lastSeen == t[p].lastSeen)
  {
  }

  lemma {:induction false} SeenStays(cap: nat, ttl: nat, ts: seq<Table>, es: seq<Event>, p: Port,
                                     c: nat, k: nat, seen: nat)
    requires IsRun(cap, ttl, ts, es) && c < k < |es| && es[c].op == MarkClosed(p)
    requires p in ts[c] ==> ts[c][p].lastSeen <= seen
    requires forall m :: c < m < k ==> !Adds(es[m], p)
    ensures p in ts[k] ==> ts[k][p].closed && ts[k][p].lastSeen <= seen
  {
    hide Step, Adds;
    if p in ts[k] {
      var prev := k - 1;
      assert Step(cap, ttl, ts[prev], es[prev].op, es[prev].now, ts[prev + 1], es[prev].reply);
      assert !Adds(es[c], p) by { NotAnAdd(es[c], p); }
      ClosedIsNotTouched(cap, ttl, ts[prev], es[prev], ts[k], p);
      if prev > c { SeenStays(cap, ttl, ts, es, p, c, prev, seen); }
    }
  }

  // ---- nothing stale is ever returned -----------------------------------------

  // The latest operation on p that could bind or unbind it was the add at a.
  ghost predicate LatestAdd(es: seq<Event>, p: Port, a: nat, k: nat) {
    && a < k <= |es| && Bound(es[a], p)
    && forall j :: a < j < k ==> !Bound(es[j], p) && es[j].op != Remove(p)
  }

  lemma {:induction false} BindingHasOrigin(cap: nat, ttl: nat, ts: seq<Table>, es: seq<Event>, p: Port, k: nat)
    returns (a: nat)
    requires IsRun(cap, ttl, ts, es) && k <= |es| && p in ts[k]
    ensures LatestAdd(es, p, a, k) && ts[k][p].e == es[a].op.e.(created := es[a].now)
  {
    hide Step;
    assert k > 0;
    var ev := es[k - 1];
    assert Step(cap, ttl, ts[k - 1], ev.op, ev.now, ts[k - 1 + 1], ev.reply);
    StepOrigin(cap, ttl, ts[k - 1], ev, ts[k], p);
    if Bound(ev, p) {
      a := k - 1;
    } else {
      a := BindingHasOrigin(cap, ttl, ts, es, p, k - 1);
    }
  }

  // A binding present after a step was made by it or was there before.
  lemma StepOrigin(cap: nat, ttl: nat, t: Table, ev: Event, t': Table, p: Port)
    requires Step(cap, ttl, t, ev.op, ev.now, t', ev.reply) && p in t'
    ensures Bound(ev, p) ==> t'[p].e == ev.op.e.(created := ev.now)
    ensures !Bound(ev, p) ==> p in t && t[p].e == t'[p].e && ev.op != Remove(p)
  {
  }

  // A hit always carries the entry of the latest add for its port.
  lemma HitIsLatestAdd(cap: nat, ttl: nat, ts: seq<Table>, es: seq<Event>, b: nat, p: Port, e: Entry) returns (a: nat)
    requires IsRun(cap, ttl, ts, es) && b < |es|
    requires es[b].op == Find(p) && es[b].reply == Looked(Some(e))
    ensures LatestAdd(es, p, a, b) && e == es[a].op.e.(created := es[a].now)
  {
    assert Step(cap, ttl, ts[b], es[b].op, es[b].now, ts[b + 1], es[b].reply);
    a := BindingHasOrigin(cap, ttl, ts, es, p, b);
  }
}
