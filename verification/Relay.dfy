// The local relay: the table of pending redirections, the hop-by-hop tunnel,
// and the bookkeeping of connections across its threads.

module Relay {
  import opened Lists
  import opened Model
  import opened Types

  const MAX_CONNS := 64
  const MAX_PENDING := 64
  const ENTRY_TTL_MS := 30000

  // Where a redirected connection was really headed, and through what.
  datatype Route = Route(host: string, port: Port, chain: seq<Proxy>)

  datatype Pending = Pending(srcPort: Port, route: Route, added: nat)

  // ---- the pending table as a map -------------------------------------------------

  datatype Waiting = Waiting(route: Route, added: nat)

  type PendingMap = map<Port, Waiting>

  predicate InTime(added: nat, now: nat) {
    now - added < ENTRY_TTL_MS
  }

  function Unexpired(m: PendingMap, now: nat): PendingMap {
    map p | p in m && InTime(m[p].added, now) :: m[p]
  }

  predicate Acceptable(p: Port, route: Route) {
    p != 0 && 0 < |route.chain| <= MAX_CHAIN_HOPS
  }

  // Registering drops what has expired, then replaces or adds; a full table of
  // others refuses.
  ghost predicate RegisterStep(m: PendingMap, p: Port, route: Route, now: nat, stamp: nat, m': PendingMap, st: Status) {
    var kept := Unexpired(m, now);
    if !Acceptable(p, route) then st == ErrInvalidArg && m' == m
    else if p in kept || |kept| < MAX_PENDING then st == Ok && m' == kept[p := Waiting(route, stamp)]
    else st == ErrState && m' == kept
  }

  ghost predicate TakeStep(m: PendingMap, p: Port, now: nat, m': PendingMap, hit: Option<Route>) {
    var kept := Unexpired(m, now);
    && m' == kept - {p}
    && hit == if p in kept then Some(kept[p].route) else None
  }

  // A record counts for less than thirty seconds. A registration is refused for
  // port 0, for an empty chain or one of more than eight hops, and when 64 other
  // ports still count; otherwise its port waits with it. Nothing that still counts
  // is lost, and what no longer counts is dropped.
  lemma RegisterMeans(m: PendingMap, p: Port, route: Route, now: nat, stamp: nat, m': PendingMap, st: Status)
    requires RegisterStep(m, p, route, now, stamp, m', st)
    ensures var kept := map q | q in m && now < m[q].added + 30000 :: m[q];
      var bad := p == 0 || |route.chain| == 0 || |route.chain| > 8;
      && st == (if bad then ErrInvalidArg else if p !in kept && |kept| >= 64 then ErrState else Ok)
      && m' == if bad then m else if st == Ok then kept[p := Waiting(route, stamp)] else kept
  {
    assert Unexpired(m, now) == map q | q in m && now < m[q].added + 30000 :: m[q];
  }

  // Taking returns the record of the port that still counts and drops it.
  lemma TakeMeans(m: PendingMap, p: Port, now: nat, m': PendingMap, hit: Option<Route>)
    requires TakeStep(m, p, now, m', hit)
    ensures hit == if p in m && now < m[p].added + 30000 then Some(m[p].route) else None
    ensures m' == map q | q in m && q != p && now < m[q].added + 30000 :: m[q]
  {
  }

  // ---- the map a list of records stands for ------------------------------------------

  ghost predicate Distinct(s: seq<Pending>) {
    forall i, j :: 0 <= i < j < |s| ==> s[i].srcPort != s[j].srcPort
  }

  ghost predicate Has(s: seq<Pending>, p: Port) {
    exists i :: 0 <= i < |s| && s[i].srcPort == p
  }

  function MapOf(s: seq<Pending>): PendingMap {
    if s == [] then map[]
    else MapOf(s[..|s| - 1])[s[|s| - 1].srcPort := Waiting(s[|s| - 1].route, s[|s| - 1].added)]
  }

  // m says exactly what the records of s say.
  ghost predicate IsMapOf(s: seq<Pending>, m: PendingMap) {
    && (forall i :: 0 <= i < |s| ==>
          s[i].srcPort in m && m[s[i].srcPort] == Waiting(s[i].route, s[i].added))
    && forall p :: p in m ==> Has(s, p)
  }

  function Put(s: seq<Pending>, i: nat, x: Pending): (r: seq<Pending>)
    requires i <= |s|
    ensures |r| == (if i < |s| then |s| else |s| + 1) && r[i] == x
    ensures forall j :: 0 <= j < |s| && j != i ==> r[j] == s[j]
  {
    if i < |s| then s[i := x] else s + [x]
  }

  lemma PutMap(s: seq<Pending>, i: nat, x: Pending, m: PendingMap)
    requires i <= |s| && IsMapOf(s, m)
    requires forall j :: 0 <= j < |s| && j != i ==> s[j].srcPort != x.srcPort
    requires i < |s| ==> s[i].srcPort == x.srcPort
    ensures IsMapOf(Put(s, i, x), m[x.srcPort := Waiting(x.route, x.added)])
  {
    var s' := Put(s, i, x);
    var m' := m[x.srcPort := Waiting(x.route, x.added)];
    hide Put;
    forall j | 0 <= j < |s'|
      ensures s'[j].srcPort in m' && m'[s'[j].srcPort] == Waiting(s'[j].route, s'[j].added)
    {
      if j != i { assert s'[j] == s[j]; }
    }
    forall p | p in m' ensures Has(s', p) {
      if p == x.srcPort {
        assert s'[i].srcPort == p;
      } else {
        var j :| 0 <= j < |s| && s[j].srcPort == p;
        assert s'[j].srcPort == p;
      }
    }
  }

  lemma LastApart(s: seq<Pending>)
    requires Distinct(s) && s != []
    ensures var s0, x := s[..|s| - 1], s[|s| - 1];
      Distinct(s0) && Put(s0, |s0|, x) == s && forall j :: 0 <= j < |s0| ==> s0[j].srcPort != x.srcPort
  {
  }

  lemma AddsOne(s0: seq<Pending>, m: PendingMap, x: Pending)
    requires IsMapOf(s0, m) && forall j :: 0 <= j < |s0| ==> s0[j].srcPort != x.srcPort
    ensures |m[x.srcPort := Waiting(x.route, x.added)]| == |m| + 1
  {
    assert x.srcPort !in m;
    assert m[x.srcPort := Waiting(x.route, x.added)].Keys == m.Keys + {x.srcPort};
  }

  lemma {:induction false} MapFacts(s: seq<Pending>)
    requires Distinct(s)
    ensures IsMapOf(s, MapOf(s)) && |MapOf(s)| == |s|
  {
    if s != [] {
      var s0, x := s[..|s| - 1], s[|s| - 1];
      assert MapOf(s) == MapOf(s0)[x.srcPort := Waiting(x.route, x.added)];
      hide *;
      LastApart(s);
      MapFacts(s0);
      AddsOne(s0, MapOf(s0), x);
      PutMap(s0, |s0|, x, MapOf(s0));
    }
  }

  lemma SameMap(s: seq<Pending>, m: PendingMap, m': PendingMap)
    requires IsMapOf(s, m) && IsMapOf(s, m')
    ensures m == m'
  {
    forall p | p in m || p in m' ensures p in m && p in m' && m[p] == m'[p] {
      var i :| 0 <= i < |s| && s[i].srcPort == p;
    }
  }

  // The records still in time, in order.
  function Kept(s: seq<Pending>, now: nat): (r: seq<Pending>)
    ensures |r| <= |s|
  {
    if s == [] then []
    else
      var r := Kept(s[..|s| - 1], now);
      if InTime(s[|s| - 1].added, now) then r + [s[|s| - 1]] else r
  }

  lemma {:induction false} KeptFacts(s: seq<Pending>, now: nat)
    requires Distinct(s)
    ensures Distinct(Kept(s, now))
    ensures forall x :: x in Kept(s, now) <==> x in s && InTime(x.added, now)
  {
    if s != [] {
      var s0, x := s[..|s| - 1], s[|s| - 1];
      assert Distinct(s0);
      KeptFacts(s0, now);
      var r := Kept(s0, now);
      hide Kept;
      forall j | 0 <= j < |r| ensures r[j].srcPort != x.srcPort {
        assert r[j] in r;
        var t :| 0 <= t < |s0| && s0[t] == r[j];
        assert s[t] == s0[t];
      }
      assert Kept(s, now) == if InTime(x.added, now) then r + [x] else r by { KeptLast(s, now); }
      assert s == s0 + [x];
    }
  }

  lemma KeptNone(s: seq<Pending>, now: nat)
    ensures Kept(s[..0], now) == []
  {
  }

  lemma KeptNext(s: seq<Pending>, now: nat, i: nat)
    requires i < |s|
    ensures Kept(s[..i + 1], now) == Kept(s[..i], now) + if InTime(s[i].added, now) then [s[i]] else []
  {
    assert s[..i + 1][..i] == s[..i];
  }

  lemma KeptLast(s: seq<Pending>, now: nat)
    requires s != []
    ensures Kept(s, now) == Kept(s[..|s| - 1], now) + if InTime(s[|s| - 1].added, now) then [s[|s| - 1]] else []
  {
  }

  lemma KeptIsUnexpired(s: seq<Pending>, now: nat)
    requires Distinct(s)
    ensures MapOf(Kept(s, now)) == Unexpired(MapOf(s), now)
  {
    hide *;
    var k := Kept(s, now);
    KeptFacts(s, now);
    MapFacts(s);
    MapFacts(k);
    StillAMapOf(s, MapOf(s), k, now);
    SameMap(k, Unexpired(MapOf(s), now), MapOf(k));
  }

  lemma StillAMapOf(s: seq<Pending>, all: PendingMap, k: seq<Pending>, now: nat)
    requires IsMapOf(s, all) && forall x :: x in k <==> x in s && InTime(x.added, now)
    ensures IsMapOf(k, Unexpired(all, now))
  {
    var m := Unexpired(all, now);
    assert IsMapOf(k, m) by {
      forall i | 0 <= i < |k| ensures k[i].srcPort in m && m[k[i].srcPort] == Waiting(k[i].route, k[i].added) {
        assert k[i] in k;
        var j :| 0 <= j < |s| && s[j] == k[i];
      }
      forall p | p in m ensures Has(k, p) {
        var j :| 0 <= j < |s| && s[j].srcPort == p;
        assert s[j] in k;
        var i :| 0 <= i < |k| && k[i] == s[j];
      }
    }
  }

  lemma Written(s: seq<Pending>, i: nat, x: Pending)
    requires Distinct(s) && i <= |s|
    requires forall j :: 0 <= j < |s| && j != i ==> s[j].srcPort != x.srcPort
    requires i < |s| ==> s[i].srcPort == x.srcPort
    ensures Distinct(Put(s, i, x))
    ensures MapOf(Put(s, i, x)) == MapOf(s)[x.srcPort := Waiting(x.route, x.added)]
  {
    var s' := Put(s, i, x);
    assert Distinct(s');
    hide IsMapOf, MapOf, Put, Distinct;
    MapFacts(s);
    MapFacts(s');
    PutMap(s, i, x, MapOf(s));
    SameMap(s', MapOf(s)[x.srcPort := Waiting(x.route, x.added)], MapOf(s'));
  }

  lemma ShiftedMap(s: seq<Pending>, i: nat, m: PendingMap)
    requires i < |s| && IsMapOf(s, m)
    requires forall j :: 0 <= j < |s| && j != i ==> s[j].srcPort != s[i].srcPort
    ensures IsMapOf(RemoveAt(s, i), m - {s[i].srcPort})
  {
    var s', m' := RemoveAt(s, i), m - {s[i].srcPort};
    RemovedAt(s, i);
    hide RemoveAt;
    forall j | 0 <= j < |s'|
      ensures s'[j].srcPort in m' && m'[s'[j].srcPort] == Waiting(s'[j].route, s'[j].added)
    {
      assert s'[j] == s[if j < i then j else j + 1];
    }
    forall p | p in m' ensures Has(s', p) {
      var j :| 0 <= j < |s| && s[j].srcPort == p;
      assert s'[if j < i then j else j - 1].srcPort == p;
    }
  }

  lemma ShiftedDistinct(s: seq<Pending>, i: nat)
    requires Distinct(s) && i < |s|
    ensures Distinct(RemoveAt(s, i))
  {
    RemovedAt(s, i);
    hide RemoveAt;
  }

  lemma ShiftedOut(s: seq<Pending>, i: nat)
    requires Distinct(s) && i < |s|
    ensures Distinct(RemoveAt(s, i)) && MapOf(RemoveAt(s, i)) == MapOf(s) - {s[i].srcPort}
  {
    var s' := RemoveAt(s, i);
    ShiftedDistinct(s, i);
    assert forall j :: 0 <= j < |s| && j != i ==> s[j].srcPort != s[i].srcPort;
    hide IsMapOf, MapOf, RemoveAt, Distinct;
    MapFacts(s);
    MapFacts(s');
    ShiftedMap(s, i, MapOf(s));
    SameMap(s', MapOf(s) - {s[i].srcPort}, MapOf(s'));
  }

  // ---- the table object -----------------------------------------------------------------

  const NO_PENDING := Pending(0, Route("", 0, []), 0)

  class PendingTable {
    const pending: array<Pending>
    var count: nat

    ghost predicate Valid()
      reads this, pending
    {
      pending.Length == MAX_PENDING && count <= MAX_PENDING && Distinct(pending[..count])
    }

    ghost function View(): PendingMap
      requires Valid()
      reads this, pending
    {
      MapOf(pending[..count])
    }

    constructor ()
      ensures Valid() && fresh(pending) && View() == map[]
    {
      pending := new Pending[MAX_PENDING](_ => NO_PENDING);
      count := 0;
    }

    // expire_locked: compact the records still in time to the front.
    method Expire(now: nat)
      requires Valid()
      modifies this, pending
      ensures Valid() && View() == Unexpired(old(View()), now)
    {
      hide Kept, Distinct, MapOf;
      ghost var s := pending[..count];
      KeptNone(s, now);
      var w, i := 0, 0;
      while i < count
        invariant 0 <= w <= i <= count == |s| <= MAX_PENDING
        invariant pending[..w] == Kept(s[..i], now)
        invariant forall k :: i <= k < count ==> pending[k] == s[k]
      {
        KeptNext(s, now, i);
        if now - pending[i].added < ENTRY_TTL_MS {
          ghost var front := pending[..w];
          pending[w] := pending[i];
          assert pending[..w + 1] == front + [s[i]];
          w := w + 1;
        }
        i := i + 1;
      }
      assert s[..|s|] == s;
      KeptFacts(s, now);
      KeptIsUnexpired(s, now);
      count := w;
    }

    // Where p is registered, or count.
    method Position(p: Port) returns (i: nat)
      requires Valid()
      ensures i <= count && (i < count <==> p in View())
      ensures forall j :: 0 <= j < count && j != i ==> pending[j].srcPort != p
      ensures i < count ==> pending[i].srcPort == p && View()[p] == Waiting(pending[i].route, pending[i].added)
    {
      ghost var s := pending[..count];
      MapFacts(s);
      i := 0;
      while i < count && pending[i].srcPort != p
        invariant i <= count
        invariant forall j :: 0 <= j < i ==> pending[j].srcPort != p
      {
        i := i + 1;
      }
      if i < count { assert s[i].srcPort == p; }
      forall j | 0 <= j < count && j != i ensures pending[j].srcPort != p { assert s[j] == pending[j]; }
    }

    // Shift the records behind i down by one.
    method CloseGap(i: nat)
      requires pending.Length == MAX_PENDING && i < count <= MAX_PENDING
      modifies this, pending
      ensures count == old(count) - 1 && pending[..count] == RemoveAt(old(pending[..count]), i)
    {
      hide *;
      ghost var s := pending[..count];
      var j := i;
      while j + 1 < count
        invariant i <= j < count == |s| == old(count)
        invariant forall k :: 0 <= k < count ==> pending[k] == s[if i <= k < j then k + 1 else k]
      {
        pending[j] := pending[j + 1];
        j := j + 1;
      }
      count := count - 1;
      RemovedAt(s, i);
    }

    // Write a record over the one for its port, or behind the last.
    method Write(slot: nat, x: Pending)
      requires Valid() && slot <= count && (slot == count ==> count < MAX_PENDING)
      requires forall j :: 0 <= j < count && j != slot ==> pending[j].srcPort != x.srcPort
      requires slot < count ==> pending[slot].srcPort == x.srcPort
      modifies this, pending
      ensures Valid() && View() == old(View())[x.srcPort := Waiting(x.route, x.added)]
    {
      hide MapOf, Distinct;
      ghost var s := pending[..count];
      if slot == count { count := count + 1; }
      Written(s, slot, x);
      pending[slot] := x;
      assert pending[..count] == Put(s, slot, x);
    }

    // pmx_relay_register; the clock is read once to expire and once to stamp.
    method Register(p: Port, route: Route, now: nat, stamp: nat) returns (st: Status)
      requires Valid() && now <= stamp
      modifies this, pending
      ensures Valid() && RegisterStep(old(View()), p, route, now, stamp, View(), st)
    {
      hide MapOf, Distinct, Unexpired;
      if p == 0 || |route.chain| == 0 || |route.chain| > MAX_CHAIN_HOPS { return ErrInvalidArg; }
      Expire(now);
      MapFacts(pending[..count]);
      var slot := Position(p);
      if slot == count && count >= MAX_PENDING { return ErrState; }
      Write(slot, Pending(p, route, stamp));
      return Ok;
    }

    // relay_take: consume the record for p.
    method Take(p: Port, now: nat) returns (hit: Option<Route>)
      requires Valid()
      modifies this, pending
      ensures Valid() && TakeStep(old(View()), p, now, View(), hit)
    {
      Expire(now);
      ghost var s := pending[..count];
      var i := Position(p);
      if i == count {
        assert MapOf(s) - {p} == MapOf(s);
        return None;
      }
      hit := Some(pending[i].route);
      ShiftedOut(s, i);
      CloseGap(i);
    }
  }

  // ---- connection records ------------------------------------------------------------------

  predicate Leaves(id: nat, done: set<nat>, all: bool) {
    all || id in done
  }

  // relay_reap's split of the table: who stays and who leaves, both in order.
  function Staying(t: seq<nat>, done: set<nat>, all: bool): (r: seq<nat>)
    ensures |r| <= |t|
  {
    if t == [] then []
    else
      var r := Staying(t[..|t| - 1], done, all);
      if Leaves(t[|t| - 1], done, all) then r else r + [t[|t| - 1]]
  }

  function Leaving(t: seq<nat>, done: set<nat>, all: bool): (r: seq<nat>)
    ensures |r| <= |t|
  {
    if t == [] then []
    else
      var r := Leaving(t[..|t| - 1], done, all);
      if Leaves(t[|t| - 1], done, all) then r + [t[|t| - 1]] else r
  }

  lemma {:induction false} SplitMembers(t: seq<nat>, done: set<nat>, all: bool)
    ensures forall id :: id in Staying(t, done, all) <==> id in t && !Leaves(id, done, all)
    ensures forall id :: id in Leaving(t, done, all) <==> id in t && Leaves(id, done, all)
  {
    if t != [] {
      var t0, x := t[..|t| - 1], t[|t| - 1];
      SplitMembers(t0, done, all);
      hide Leaves;
      assert t == t0 + [x];
    }
  }

  lemma {:induction false} SplitBags(t: seq<nat>, done: set<nat>, all: bool)
    ensures multiset(Staying(t, done, all)) + multiset(Leaving(t, done, all)) == multiset(t)
  {
    if t != [] {
      var t0, x := t[..|t| - 1], t[|t| - 1];
      SplitBags(t0, done, all);
      hide Leaves;
      assert t == t0 + [x];
    }
  }

  ghost predicate Unique(t: seq<nat>) {
    forall i, j :: 0 <= i < j < |t| ==> t[i] != t[j]
  }

  lemma UniqueLonger(r: seq<nat>, x: nat)
    requires Unique(r) && x !in r
    ensures Unique(r + [x])
  {
  }

  lemma UniqueFront(t: seq<nat>)
    requires Unique(t) && t != []
    ensures Unique(t[..|t| - 1]) && t[|t| - 1] !in t[..|t| - 1]
  {
  }

  lemma {:induction false} StayingUnique(t: seq<nat>, done: set<nat>, all: bool)
    requires Unique(t)
    ensures Unique(Staying(t, done, all))
  {
    hide Unique, Leaves;
    if t != [] {
      var n := |t| - 1;
      UniqueFront(t);
      StayingUnique(t[..n], done, all);
      SplitMembers(t[..n], done, all);
      UniqueLonger(Staying(t[..n], done, all), t[n]);
    }
  }

  // The two halves together are the table, nothing twice and nothing lost.
  lemma SplitFacts(t: seq<nat>, done: set<nat>, all: bool)
    requires Unique(t)
    ensures multiset(Staying(t, done, all)) + multiset(Leaving(t, done, all)) == multiset(t)
    ensures forall id :: id in Staying(t, done, all) <==> id in t && !(all || id in done)
    ensures forall id :: id in Leaving(t, done, all) <==> id in t && (all || id in done)
    ensures Unique(Staying(t, done, all))
  {
    SplitMembers(t, done, all);
    hide Staying, Leaving, Unique;
    SplitBags(t, done, all);
    StayingUnique(t, done, all);
  }

  // And each in the order of the table: a front and a back are split apart.
  lemma {:induction false} SplitParts(a: seq<nat>, b: seq<nat>, done: set<nat>, all: bool)
    ensures Staying(a + b, done, all) == Staying(a, done, all) + Staying(b, done, all)
    ensures Leaving(a + b, done, all) == Leaving(a, done, all) + Leaving(b, done, all)
    decreases |b|
  {
    hide Leaves;
    if b == [] {
      assert a + b == a;
    } else {
      var n := |b| - 1;
      assert (a + b)[..|a + b| - 1] == a + b[..n] && (a + b)[|a + b| - 1] == b[n];
      SplitParts(a, b[..n], done, all);
    }
  }

  lemma SplitNone(t: seq<nat>, done: set<nat>, all: bool)
    ensures Staying(t[..0], done, all) == [] && Leaving(t[..0], done, all) == []
  {
  }

  lemma SplitNext(t: seq<nat>, done: set<nat>, all: bool, i: nat)
    requires i < |t|
    ensures var out := Leaves(t[i], done, all);
      && Staying(t[..i + 1], done, all) == Staying(t[..i], done, all) + (if out then [] else [t[i]])
      && Leaving(t[..i + 1], done, all) == Leaving(t[..i], done, all) + (if out then [t[i]] else [])
  {
    assert t[..i + 1][..i] == t[..i];
  }

  // Connection records by id, in the fixed table of the relay.
  class ConnTable {
    const conns: array<nat>
    var count: nat

    ghost predicate Valid()
      reads this
    {
      conns.Length == MAX_CONNS && count <= MAX_CONNS
    }

    constructor ()
      ensures Valid() && fresh(conns) && count == 0
    {
      conns := new nat[MAX_CONNS](_ => 0);
      count := 0;
    }

    // The first half of relay_reap, under the lock: finished records (or all)
    // go to the harvest, the others are compacted to the front.
    method Reap(done: set<nat>, all: bool) returns (harvest: seq<nat>)
      requires Valid()
      modifies this, conns
      ensures Valid()
      ensures conns[..count] == Staying(old(conns[..count]), done, all)
      ensures harvest == Leaving(old(conns[..count]), done, all) && |harvest| <= MAX_CONNS
    {
      hide Staying, Leaving;
      ghost var t := conns[..count];
      harvest := [];
      SplitNone(t, done, all);
      var w, i := 0, 0;
      while i < count
        invariant 0 <= w <= i <= count == |t| <= MAX_CONNS
        invariant |harvest| <= i
        invariant conns[..w] == Staying(t[..i], done, all)
        invariant harvest == Leaving(t[..i], done, all)
        invariant forall k :: i <= k < count ==> conns[k] == t[k]
      {
        SplitNext(t, done, all, i);
        if (all || conns[i] in done) && |harvest| < MAX_CONNS {
          harvest := harvest + [conns[i]];
        } else {
          ghost var front := conns[..w];
          conns[w] := conns[i];
          assert conns[..w + 1] == front + [t[i]];
          w := w + 1;
        }
        i := i + 1;
      }
      assert t[..|t|] == t;
      count := w;
    }
  }
}
