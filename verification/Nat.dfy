// The connection table behind transparent redirection: an array of slots that
// refines a bounded map from source port to binding, and what that map keeps
// over whole runs.

module Nat {
  import opened Types

  datatype Entry = Entry(srcAddr: Addr, srcPort: Port, dstAddr: Addr, dstPort: Port, created: nat)

  datatype Slot = Slot(used: bool, closed: bool, lastSeen: nat, e: Entry)

  const FREE_SLOT := Slot(false, false, 0, Entry(0, 0, 0, 0, 0))

  // What a used slot means, without its position.
  datatype Binding = Binding(e: Entry, closed: bool, lastSeen: nat)

  type Table = map<Port, Binding>

  // Expiry is inactivity, not age.
  predicate Expired(ttl: nat, lastSeen: nat, now: nat) {
    now > lastSeen && now - lastSeen > ttl
  }

  predicate Reclaimable(ttl: nat, b: Binding, now: nat) {
    Expired(ttl, b.lastSeen, now) || b.closed
  }

  // ---- one operation on the map --------------------------------------------

  datatype Op =
    | Add(e: Entry)
    | Find(port: Port)
    | MarkClosed(port: Port)
    | Remove(port: Port)
    | Expire

  datatype Reply =
    | Done
    | Added(status: Status)
    | Looked(hit: Option<Entry>)

  ghost predicate IsVictim(ttl: nat, t: Table, now: nat, v: Port) {
    && v in t && Reclaimable(ttl, t[v], now)
    && forall q :: q in t && Reclaimable(ttl, t[q], now) ==> t[v].e.created <= t[q].e.created
  }

  // A live binding is never the price of a new one: a full table of live
  // bindings refuses, otherwise the oldest reclaimable binding makes room.
  ghost predicate AddStep(cap: nat, ttl: nat, t: Table, e: Entry, now: nat, t': Table, st: Status) {
    var born := Binding(e.(created := now), false, now);
    if e.srcPort == 0 then st == ErrInvalidArg && t' == t
    else if e.srcPort in t || |t| < cap then st == Ok && t' == t[e.srcPort := born]
    else if forall q :: q in t ==> !Reclaimable(ttl, t[q], now) then st == ErrState && t' == t
    else st == Ok && exists v: Port :: IsVictim(ttl, t, now, v) && t' == (t - {v})[e.srcPort := born]
  }

  predicate Live(ttl: nat, t: Table, p: Port, now: nat) {
    p in t && !Expired(ttl, t[p].lastSeen, now)
  }

  function Touched(ttl: nat, t: Table, p: Port, now: nat): Table {
    if Live(ttl, t, p, now) && !t[p].closed then t[p := t[p].(lastSeen := now)] else t
  }

  function Survivors(ttl: nat, t: Table, now: nat): Table {
    map p | p in t && !Expired(ttl, t[p].lastSeen, now) :: t[p]
  }

  ghost predicate Step(cap: nat, ttl: nat, t: Table, op: Op, now: nat, t': Table, r: Reply) {
    match op
    case Add(e) => r.Added? && AddStep(cap, ttl, t, e, now, t', r.status)
    case Find(p) =>
      && r == Looked(if Live(ttl, t, p, now) then Some(t[p].e) else None)
      && t' == Touched(ttl, t, p, now)
    case MarkClosed(p) => r == Done && t' == if p in t then t[p := t[p].(closed := true)] else t
    case Remove(p) => r == Done && t' == t - {p}
    case Expire => r == Done && t' == Survivors(ttl, t, now)
  }

  // ---- what a step means ------------------------------------------------------

  // Seen longer ago than the TTL.
  predicate Idle(ttl: nat, b: Binding, now: nat) {
    b.lastSeen + ttl < now
  }

  // An add is refused exactly for port 0 and when the port is absent and as many
  // bindings as there are slots are all open and not idle; a refusal changes
  // nothing, and otherwise the port is bound to the entry, open and just seen.
  lemma AddMeans(cap: nat, ttl: nat, t: Table, e: Entry, now: nat, t': Table, st: Status)
    requires Step(cap, ttl, t, Add(e), now, t', Added(st))
    ensures var fullOfLive := |t| >= cap && forall q :: q in t ==> !t[q].closed && !Idle(ttl, t[q], now);
      var refused := e.srcPort !in t && fullOfLive;
      st == if e.srcPort == 0 then ErrInvalidArg else if refused then ErrState else Ok
    ensures if st == Ok then e.srcPort in t' && t'[e.srcPort] == Binding(e.(created := now), false, now) else t' == t
  {
    if st == Ok && e.srcPort !in t && |t| >= cap {
      assert exists q :: q in t && Reclaimable(ttl, t[q], now);
    }
  }

  // Every other binding stays as it is, except that adding a port to a full table
  // takes the place of one that is closed or idle, the one created first.
  lemma AddKeepsOthers(cap: nat, ttl: nat, t: Table, e: Entry, now: nat, t': Table, st: Status)
    requires Step(cap, ttl, t, Add(e), now, t', Added(st)) && st == Ok
    ensures e.srcPort in t || |t| < cap ==> t' - {e.srcPort} == t - {e.srcPort}
    ensures e.srcPort !in t && |t| >= cap ==>
      exists v :: && v in t && (t[v].closed || Idle(ttl, t[v], now))
                  && t' - {e.srcPort} == t - {v}
                  && forall q :: q in t && (t[q].closed || Idle(ttl, t[q], now)) ==> t[v].e.created <= t[q].e.created
  {
    if e.srcPort !in t && |t| >= cap {
      var born := Binding(e.(created := now), false, now);
      var v: Port :| IsVictim(ttl, t, now, v) && t' == (t - {v})[e.srcPort := born];
      assert t' - {e.srcPort} == t - {v};
    }
  }

  // A sweep drops the idle bindings and nothing else; a lookup finds what is not
  // idle and marks an open binding as seen; closing and removing concern their
  // port alone.
  lemma OtherStepsMean(cap: nat, ttl: nat, t: Table, op: Op, p: Port, now: nat, t': Table, r: Reply)
    requires Step(cap, ttl, t, op, now, t', r) && !op.Add?
    ensures forall q :: q in t' ==> q in t && t'[q].e == t[q].e
    ensures op == Expire ==>
      forall q :: q in t ==> (q in t' <==> !Idle(ttl, t[q], now)) && (q in t' ==> t'[q] == t[q])
    ensures op == Find(p) ==>
      && r == Looked(if p in t && !Idle(ttl, t[p], now) then Some(t[p].e) else None)
      && t'.Keys == t.Keys
      && forall q :: q in t ==>
           t'[q] == if q == p && !Idle(ttl, t[q], now) && !t[q].closed then t[q].(lastSeen := now) else t[q]
    ensures op == MarkClosed(p) ==>
      t'.Keys == t.Keys && forall q :: q in t ==> t'[q] == if q == p then t[q].(closed := true) else t[q]
    ensures op == Remove(p) ==> t'.Keys == t.Keys - {p} && forall q :: q in t' ==> t'[q] == t[q]
  {
  }

  // ---- the map a slot array stands for --------------------------------------

  ghost predicate Distinct(s: seq<Slot>) {
    && (forall i :: 0 <= i < |s| && s[i].used ==> s[i].e.srcPort != 0)
    && forall i, j :: 0 <= i < j < |s| && s[i].used && s[j].used ==> s[i].e.srcPort != s[j].e.srcPort
  }

  function BindingOf(x: Slot): Binding {
    Binding(x.e, x.closed, x.lastSeen)
  }

  function TableOf(s: seq<Slot>): Table {
    if s == [] then map[]
    else
      var x := s[|s| - 1];
      var t := TableOf(s[..|s| - 1]);
      if x.used then t[x.e.srcPort := BindingOf(x)] else t
  }

  function UsedCount(s: seq<Slot>): nat {
    if s == [] then 0 else UsedCount(s[..|s| - 1]) + if s[|s| - 1].used then 1 else 0
  }

  lemma {:induction false} TableFacts(s: seq<Slot>)
    requires Distinct(s)
    ensures forall i :: 0 <= i < |s| && s[i].used
              ==> s[i].e.srcPort in TableOf(s) && TableOf(s)[s[i].e.srcPort] == BindingOf(s[i])
    ensures forall p :: p in TableOf(s) ==> exists i :: 0 <= i < |s| && s[i].used && s[i].e.srcPort == p
  {
    if s != [] {
      var s0, x := s[..|s| - 1], s[|s| - 1];
      TableFacts(s0);
      forall p | p in TableOf(s) ensures exists i :: 0 <= i < |s| && s[i].used && s[i].e.srcPort == p {
        if x.used && p == x.e.srcPort {
          assert s[|s| - 1].used;
        } else {
          assert p in TableOf(s0);
          var i :| 0 <= i < |s0| && s0[i].used && s0[i].e.srcPort == p;
          assert s[i] == s0[i];
        }
      }
      forall i | 0 <= i < |s| && s[i].used
        ensures s[i].e.srcPort in TableOf(s) && TableOf(s)[s[i].e.srcPort] == BindingOf(s[i])
      {
        if i < |s0| { assert s0[i] == s[i]; }
      }
    }
  }

  lemma {:induction false} TableSize(s: seq<Slot>)
    requires Distinct(s)
    ensures |TableOf(s)| == UsedCount(s)
  {
    if s != [] {
      var s0, x := s[..|s| - 1], s[|s| - 1];
      TableFacts(s0);
      TableSize(s0);
      if x.used {
        assert x.e.srcPort !in TableOf(s0);
        assert TableOf(s).Keys == TableOf(s0).Keys + {x.e.srcPort};
      }
    }
  }

  lemma {:induction false} CountUpdate(s: seq<Slot>, i: nat, x: Slot)
    requires i < |s|
    ensures UsedCount(s[i := x]) - (if x.used then 1 else 0) == UsedCount(s) - (if s[i].used then 1 else 0)
  {
    if i == |s| - 1 {
      assert s[i := x][..i] == s[..i];
    } else {
      assert s[i := x][..|s| - 1] == s[..|s| - 1][i := x];
      CountUpdate(s[..|s| - 1], i, x);
    }
  }

  lemma {:induction false} AllUsed(s: seq<Slot>)
    requires forall i :: 0 <= i < |s| ==> s[i].used
    ensures UsedCount(s) == |s|
  {
    if s != [] { AllUsed(s[..|s| - 1]); }
  }

  lemma {:induction false} SomeFree(s: seq<Slot>, i: nat)
    requires i < |s| && !s[i].used
    ensures UsedCount(s) < |s|
  {
    if i < |s| - 1 {
      SomeFree(s[..|s| - 1], i);
    } else {
      CountAtMost(s[..|s| - 1]);
    }
  }

  lemma {:induction false} CountAtMost(s: seq<Slot>)
    ensures UsedCount(s) <= |s|
  {
    if s != [] { CountAtMost(s[..|s| - 1]); }
  }

  // The map after writing used slot x at i, where i held port v or was free.
  lemma WriteSlot(s: seq<Slot>, i: nat, x: Slot)
    requires i < |s| && Distinct(s) && x.used && x.e.srcPort != 0
    requires forall j :: 0 <= j < |s| && j != i && s[j].used ==> s[j].e.srcPort != x.e.srcPort
    ensures Distinct(s[i := x])
    ensures TableOf(s[i := x])
         == (if s[i].used then TableOf(s) - {s[i].e.srcPort} else TableOf(s))[x.e.srcPort := BindingOf(x)]
  {
    hide TableOf, UsedCount;
    var s' := s[i := x];
    assert Distinct(s');
    TableFacts(s);
    TableFacts(s');
    var t, t' := TableOf(s), TableOf(s');
    var want := (if s[i].used then t - {s[i].e.srcPort} else t)[x.e.srcPort := BindingOf(x)];
    hide Distinct, BindingOf;
    forall p | p in t' ensures p in want && want[p] == t'[p] {
      var j :| 0 <= j < |s'| && s'[j].used && s'[j].e.srcPort == p;
      if j != i { assert s[j] == s'[j]; }
    }
    forall p | p in want ensures p in t' {
      if p == x.e.srcPort {
        assert s'[i] == x;
      } else {
        var j :| 0 <= j < |s| && s[j].used && s[j].e.srcPort == p;
        assert s'[j] == s[j];
      }
    }
    assert t' == want;
  }

  lemma ClearSlot(s: seq<Slot>, i: nat)
    requires i < |s| && Distinct(s) && s[i].used
    ensures Distinct(s[i := FREE_SLOT])
    ensures TableOf(s[i := FREE_SLOT]) == TableOf(s) - {s[i].e.srcPort}
  {
    hide TableOf, UsedCount;
    var s' := s[i := FREE_SLOT];
    assert Distinct(s');
    TableFacts(s);
    TableFacts(s');
    var t, t' := TableOf(s), TableOf(s');
    hide BindingOf;
    forall p | p in t' ensures p in t && p != s[i].e.srcPort && t[p] == t'[p] {
      var j :| 0 <= j < |s'| && s'[j].used && s'[j].e.srcPort == p;
      assert s[j] == s'[j];
    }
    forall p | p in t && p != s[i].e.srcPort ensures p in t' {
      var j :| 0 <= j < |s| && s[j].used && s[j].e.srcPort == p;
      assert s'[j] == s[j];
    }
    assert t' == t - {s[i].e.srcPort};
  }

  // ---- the table object -------------------------------------------------------

  class NatTable {
    var slots: array<Slot>
    var count: nat
    const ttl: nat

    ghost predicate Valid()
      reads this, slots
    {
      Distinct(slots[..]) && count == UsedCount(slots[..])
    }

    ghost function View(): Table
      reads this, slots
    {
      TableOf(slots[..])
    }

    // pmx_nat_create: zero capacity and a non-positive TTL mean the defaults.
    constructor (capacity: nat, ttlMs: int)
      ensures Valid() && fresh(slots)
      ensures View() == map[] && count == 0
      ensures slots.Length == if capacity == 0 then 512 else capacity
      ensures ttl == if ttlMs > 0 then ttlMs else 120000
    {
      var n := if capacity == 0 then 512 else capacity;
      ttl := if ttlMs > 0 then ttlMs else 120000;
      count := 0;
      slots := new Slot[n](_ => FREE_SLOT);
      new;
      NoneUsed(slots[..]);
    }

    // find_slot
    method FindSlot(p: Port) returns (i: int)
      requires Valid()
      ensures -1 <= i < slots.Length
      ensures i >= 0 <==> p in View()
      ensures i >= 0 ==> slots[i].used && slots[i].e.srcPort == p && View()[p] == BindingOf(slots[i])
      ensures i < 0 ==> forall k :: 0 <= k < slots.Length && slots[k].used ==> slots[k].e.srcPort != p
    {
      TableFacts(slots[..]);
      hide TableOf, UsedCount;
      i := 0;
      while i < slots.Length
        invariant 0 <= i <= slots.Length
        invariant forall k :: 0 <= k < i ==> !(slots[k].used && slots[k].e.srcPort == p)
      {
        if slots[i].used && slots[i].e.srcPort == p {
          assert slots[..][i] == slots[i];
          return i;
        }
        i := i + 1;
      }
      i := -1;
    }

    // The scan for room: the first free slot, else the oldest-created
    // reclaimable one, else none.
    method FindRoom(now: nat) returns (i: int)
      requires Valid()
      ensures -1 <= i < slots.Length
      ensures i >= 0 && slots[i].used ==>
        && (forall k :: 0 <= k < slots.Length ==> slots[k].used)
        && Reclaimable(ttl, BindingOf(slots[i]), now)
        && forall k :: 0 <= k < slots.Length && Reclaimable(ttl, BindingOf(slots[k]), now)
             ==> slots[i].e.created <= slots[k].e.created
      ensures i < 0 ==>
        forall k :: 0 <= k < slots.Length ==> slots[k].used && !Reclaimable(ttl, BindingOf(slots[k]), now)
    {
      var reclaim := -1;
      var k := 0;
      while k < slots.Length
        invariant 0 <= k <= slots.Length && -1 <= reclaim < k
        invariant forall j :: 0 <= j < k ==> slots[j].used
        invariant reclaim >= 0 ==>
          && Reclaimable(ttl, BindingOf(slots[reclaim]), now)
          && forall j :: 0 <= j < k && Reclaimable(ttl, BindingOf(slots[j]), now)
               ==> slots[reclaim].e.created <= slots[j].e.created
        invariant reclaim < 0 ==> forall j :: 0 <= j < k ==> !Reclaimable(ttl, BindingOf(slots[j]), now)
      {
        if !slots[k].used { return k; }
        if (Expired(ttl, slots[k].lastSeen, now) || slots[k].closed)
           && (reclaim < 0 || slots[k].e.created < slots[reclaim].e.created) {
          reclaim := k;
        }
        k := k + 1;
      }
      i := reclaim;
    }

    // pmx_nat_add
    method Add(srcAddr: Addr, srcPort: Port, dstAddr: Addr, dstPort: Port, now: nat)
      returns (st: Status, ghost at: nat)
      requires Valid()
      modifies this`count, slots
      ensures Valid() && slots == old(slots)
      ensures Step(slots.Length, ttl, old(View()), Op.Add(Entry(srcAddr, srcPort, dstAddr, dstPort, now)),
                   now, View(), Added(st))
      ensures st != Ok ==> slots[..] == old(slots[..]) && count == old(count)
      ensures st == Ok ==>
        && at < slots.Length
        && slots[..] == old(slots[..])[at := Slot(true, false, now, Entry(srcAddr, srcPort, dstAddr, dstPort, now))]
    {
      if srcPort == 0 { return ErrInvalidArg, 0; }
      ghost var s := slots[..];
      var x := Slot(true, false, now, Entry(srcAddr, srcPort, dstAddr, dstPort, now));
      hide TableOf, UsedCount, Distinct, IsVictim;
      var i := FindSlot(srcPort);
      if i < 0 {
        i := FindRoom(now);
        if i < 0 {
          FullOfLive(s, ttl, now);
          return ErrState, 0;
        }
        if !slots[i].used {
          count := count + 1;
          PlacedInFree(s, i, x, ttl, now);
        } else {
          PlacedOverVictim(s, i, x, ttl, now);
        }
      } else {
        PlacedInOwn(s, i, x, ttl, now);
      }
      slots[i] := x;
      assert slots[..] == s[i := x];
      st, at := Ok, i;
    }

    // pmx_nat_find: a hit on an open binding refreshes its idle timer.
    method Find(p: Port, now: nat) returns (hit: Option<Entry>)
      requires Valid()
      modifies slots
      ensures Valid() && slots == old(slots)
      ensures Step(slots.Length, ttl, old(View()), Op.Find(p), now, View(), Looked(hit))
    {
      TableFacts(slots[..]);
      var i := FindSlot(p);
      if i < 0 || Expired(ttl, slots[i].lastSeen, now) { return None; }
      ghost var s := slots[..];
      hit := Some(slots[i].e);
      if !slots[i].closed {
        Rewrite(s, i, slots[i].(lastSeen := now));
        slots[i] := slots[i].(lastSeen := now);
        assert slots[..] == s[i := s[i].(lastSeen := now)];
      }
    }

    // pmx_nat_mark_closed
    method MarkClosed(p: Port)
      requires Valid()
      modifies slots
      ensures Valid() && slots == old(slots)
      ensures Step(slots.Length, ttl, old(View()), Op.MarkClosed(p), 0, View(), Done)
    {
      TableFacts(slots[..]);
      if p == 0 { return; }
      var i := FindSlot(p);
      if i >= 0 {
        ghost var s := slots[..];
        Rewrite(s, i, slots[i].(closed := true));
        slots[i] := slots[i].(closed := true);
        assert slots[..] == s[i := s[i].(closed := true)];
      }
    }

    // pmx_nat_remove
    method Remove(p: Port)
      requires Valid()
      modifies this`count, slots
      ensures Valid() && slots == old(slots)
      ensures Step(slots.Length, ttl, old(View()), Op.Remove(p), 0, View(), Done)
    {
      var i := FindSlot(p);
      if i >= 0 {
        ghost var s := slots[..];
        ClearSlot(s, i);
        CountUpdate(s, i, FREE_SLOT);
        slots[i] := FREE_SLOT;
        assert slots[..] == s[i := FREE_SLOT];
        if count > 0 { count := count - 1; }
      }
    }

    // pmx_nat_expire
    method Expire(now: nat) returns (dropped: nat)
      requires Valid()
      modifies this`count, slots
      ensures Valid() && slots == old(slots)
      ensures Step(slots.Length, ttl, old(View()), Op.Expire, now, View(), Done)
      ensures dropped == old(count) - count
    {
      ghost var s0 := slots[..];
      dropped := 0;
      var i := 0;
      while i < slots.Length
        invariant 0 <= i <= slots.Length && |s0| == slots.Length
        invariant slots[..] == Swept(s0, ttl, now, i)
        invariant Valid()
        invariant dropped == old(count) - count
      {
        SweptNext(s0, ttl, now, i);
        if slots[i].used && Expired(ttl, slots[i].lastSeen, now) {
          ghost var s := slots[..];
          CountUpdate(s, i, FREE_SLOT);
          ClearSlot(s, i);
          slots[i] := FREE_SLOT;
          assert slots[..] == s[i := FREE_SLOT];
          if count > 0 { count := count - 1; }
          dropped := dropped + 1;
        }
        i := i + 1;
      }
      SweptAll(s0, slots[..], ttl, now);
    }

    // pmx_nat_count
    method Count() returns (c: nat)
      requires Valid()
      ensures c == |View()|
    {
      TableSize(slots[..]);
      c := count;
    }
  }

  lemma {:induction false} NoneUsed(s: seq<Slot>)
    requires forall i :: 0 <= i < |s| ==> !s[i].used
    ensures Distinct(s) && TableOf(s) == map[] && UsedCount(s) == 0
  {
    if s != [] { NoneUsed(s[..|s| - 1]); }
  }

  // Where pmx_nat_add may write, and why each place is a step of the map.
  lemma FullOfLive(s: seq<Slot>, ttl: nat, now: nat)
    requires Distinct(s)
    requires forall k :: 0 <= k < |s| ==> s[k].used && !Reclaimable(ttl, BindingOf(s[k]), now)
    ensures |TableOf(s)| == |s|
    ensures forall q :: q in TableOf(s) ==> !Reclaimable(ttl, TableOf(s)[q], now)
  {
    TableFacts(s);
    AllUsed(s);
    TableSize(s);
  }

  lemma PlacedInOwn(s: seq<Slot>, i: nat, x: Slot, ttl: nat, now: nat)
    requires i < |s| && Distinct(s) && x == Slot(true, false, now, x.e) && x.e.created == now
    requires s[i].used && s[i].e.srcPort == x.e.srcPort
    ensures Distinct(s[i := x]) && UsedCount(s[i := x]) == UsedCount(s)
    ensures AddStep(|s|, ttl, TableOf(s), x.e, now, TableOf(s[i := x]), Ok)
  {
    TableFacts(s);
    WriteSlot(s, i, x);
    CountUpdate(s, i, x);
    var t, p := TableOf(s), x.e.srcPort;
    assert (t - {p})[p := BindingOf(x)] == t[p := BindingOf(x)];
  }

  lemma PlacedInFree(s: seq<Slot>, i: nat, x: Slot, ttl: nat, now: nat)
    requires i < |s| && Distinct(s) && x == Slot(true, false, now, x.e) && x.e.created == now
    requires !s[i].used && x.e.srcPort != 0
    requires forall k :: 0 <= k < |s| && s[k].used ==> s[k].e.srcPort != x.e.srcPort
    ensures Distinct(s[i := x]) && UsedCount(s[i := x]) == UsedCount(s) + 1
    ensures AddStep(|s|, ttl, TableOf(s), x.e, now, TableOf(s[i := x]), Ok)
  {
    WriteSlot(s, i, x);
    CountUpdate(s, i, x);
    SomeFree(s, i);
    TableSize(s);
  }

  lemma PlacedOverVictim(s: seq<Slot>, i: nat, x: Slot, ttl: nat, now: nat)
    requires i < |s| && Distinct(s) && x == Slot(true, false, now, x.e) && x.e.created == now
    requires x.e.srcPort != 0 && forall k :: 0 <= k < |s| ==> s[k].used && s[k].e.srcPort != x.e.srcPort
    requires Reclaimable(ttl, BindingOf(s[i]), now)
    requires forall k :: 0 <= k < |s| && Reclaimable(ttl, BindingOf(s[k]), now) ==> s[i].e.created <= s[k].e.created
    ensures Distinct(s[i := x]) && UsedCount(s[i := x]) == UsedCount(s)
    ensures AddStep(|s|, ttl, TableOf(s), x.e, now, TableOf(s[i := x]), Ok)
  {
    TableFacts(s);
    WriteSlot(s, i, x);
    CountUpdate(s, i, x);
    AllUsed(s);
    TableSize(s);
    hide TableOf, UsedCount;
    var t, v := TableOf(s), s[i].e.srcPort;
    forall q | q in t && Reclaimable(ttl, t[q], now) ensures t[v].e.created <= t[q].e.created {
      var k :| 0 <= k < |s| && s[k].used && s[k].e.srcPort == q;
    }
    assert x.e.srcPort !in t;
    assert IsVictim(ttl, t, now, v);
  }

  // Rewriting a slot in place, same port.
  lemma Rewrite(s: seq<Slot>, i: nat, x: Slot)
    requires i < |s| && Distinct(s) && s[i].used && x.used && x.e == s[i].e
    ensures Distinct(s[i := x]) && UsedCount(s[i := x]) == UsedCount(s)
    ensures TableOf(s[i := x]) == TableOf(s)[x.e.srcPort := BindingOf(x)]
  {
    WriteSlot(s, i, x);
    CountUpdate(s, i, x);
    var t, p := TableOf(s), x.e.srcPort;
    assert (t - {p})[p := BindingOf(x)] == t[p := BindingOf(x)];
  }

  // The slots after an expiry sweep has passed the first n.
  function Swept(s: seq<Slot>, ttl: nat, now: nat, n: nat): (r: seq<Slot>)
    requires n <= |s|
    ensures |r| == |s|
  {
    seq(|s|, k requires 0 <= k < |s| =>
      if k < n && s[k].used && Expired(ttl, s[k].lastSeen, now) then FREE_SLOT else s[k])
  }

  lemma SweptNext(s: seq<Slot>, ttl: nat, now: nat, n: nat)
    requires n < |s|
    ensures Swept(s, ttl, now, n)[n] == s[n]
    ensures Swept(s, ttl, now, n + 1)
         == if s[n].used && Expired(ttl, s[n].lastSeen, now)
            then Swept(s, ttl, now, n)[n := FREE_SLOT] else Swept(s, ttl, now, n)
  {
  }

  lemma SweptAll(s: seq<Slot>, s': seq<Slot>, ttl: nat, now: nat)
    requires Distinct(s) && Distinct(s') && s' == Swept(s, ttl, now, |s|)
    ensures TableOf(s') == Survivors(ttl, TableOf(s), now)
  {
    TableFacts(s);
    TableFacts(s');
    var t, t' := TableOf(s), TableOf(s');
    hide TableOf;
    forall p | p in t' ensures p in t && t[p] == t'[p] && !Expired(ttl, t[p].lastSeen, now) {
      var j :| 0 <= j < |s'| && s'[j].used && s'[j].e.srcPort == p;
      assert s[j] == s'[j];
    }
    forall p | p in t && !Expired(ttl, t[p].lastSeen, now) ensures p in t' {
      var j :| 0 <= j < |s| && s[j].used && s[j].e.srcPort == p;
      assert s'[j] == s[j];
    }
  }
}
