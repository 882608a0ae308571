// The engine's published snapshot and its event log: decisions come from one
// whole profile version, and the ring keeps exactly the latest events.

module Engine {
  import opened Types
  import opened Model
  import opened Resolve
  import opened Profiles

  // ---- the published snapshot --------------------------------------------------

  class Snapshots {
    const profile: ProfileStore
    const snap: ProfileStore
    // Every version the snapshot has ever been: the initial empty one, then the
    // profile as it stood at each successful publish.
    ghost var versions: seq<Profile>

    ghost predicate Valid()
      reads this, profile, snap
    {
      && profile != snap && profile.Valid() && snap.Valid()
      && versions != [] && versions[0] == INITIAL
      && snap.View() == versions[|versions| - 1]
    }

    // pmx_engine_create, before its first publish
    constructor ()
      ensures Valid() && fresh(profile) && fresh(snap) && versions == [INITIAL]
    {
      profile := new ProfileStore();
      snap := new ProfileStore();
      versions := [INITIAL];
    }

    // engine_refresh_snapshot: the whole current profile is published, or the
    // previous version stands.
    method Refresh(allocs: (bool, bool, bool, bool))
      requires Valid()
      modifies this`versions, snap
      ensures Valid()
      ensures versions == old(versions) || versions == old(versions) + [profile.View()]
      ensures allocs == (true, true, true, true) ==> versions == old(versions) + [profile.View()]
    {
      var st := snap.CopyFrom(profile, allocs);
      if st == Ok { versions := versions + [profile.View()]; }
    }

    // pmx_engine_decide
    method DecideFlow(q: Query) returns (d: Decision)
      requires Valid()
      ensures d == Decide(versions[|versions| - 1], q)
    {
      d := ResolveQuery(snap.View(), q);
    }
  }

  // ---- every interleaving ---------------------------------------------------------

  // What may happen between two locked sections, in any order.
  datatype Event =
    | Edited(edit: Edit, ok: bool)
    | Loaded(profile: Profile)
    | Pumped(published: bool)
    | Decided(q: Query, answer: Decision)

  datatype State = State(profile: Profile, snap: Profile)

  ghost predicate Next(s: State, e: Event, s': State) {
    match e
    case Edited(ed, ok) => s' == s.(profile := Apply(s.profile, ed, ok))
    case Loaded(p) => s' == s.(profile := p)
    case Pumped(published) => s' == if published then s.(snap := s.profile) else s
    case Decided(q, answer) => s' == s && answer == Decide(s.snap, q)
  }

  ghost predicate IsRun(ss: seq<State>, es: seq<Event>) {
    && |ss| == |es| + 1 && ss[0].snap == INITIAL
    && forall k :: 0 <= k < |es| ==> Next(ss[k], es[k], ss[k + 1])
  }

  // The step before k that published the version in force, if any.
  ghost predicate InForce(ss: seq<State>, es: seq<Event>, k: nat, j: int)
    requires IsRun(ss, es) && k <= |es|
  {
    && -1 <= j < k
    && (j >= 0 ==> es[j] == Pumped(true))
    && forall i :: j < i < k ==> es[i] != Pumped(true)
  }

  lemma {:induction false} SnapshotIsOneVersion(ss: seq<State>, es: seq<Event>, k: nat) returns (j: int)
    requires IsRun(ss, es) && k <= |es|
    ensures InForce(ss, es, k, j)
    ensures ss[k].snap == if j < 0 then INITIAL else ss[j].profile
  {
    hide Decide;
    j := -1;
    if k > 0 {
      assert Next(ss[k - 1], es[k - 1], ss[k - 1 + 1]);
      j := SnapshotIsOneVersion(ss, es, k - 1);
      if es[k - 1] == Pumped(true) { j := k - 1; }
    }
  }

  // Whatever edits, loads, failed and successful publishes interleave, every
  // answer is the resolution against one whole version: the profile as it stood
  // at the latest successful publish, or the initial empty one, under which
  // every flow goes direct.
  lemma DecisionsSeeOneVersion(ss: seq<State>, es: seq<Event>, k: nat) returns (j: int)
    requires IsRun(ss, es) && k < |es| && es[k].Decided?
    ensures InForce(ss, es, k, j)
    ensures es[k].answer == Decide(if j < 0 then INITIAL else ss[j].profile, es[k].q)
    ensures j < 0 ==> es[k].answer.verdict == GoDirect
  {
    assert Chosen([], INITIAL.defaultRule, es[k].q) == INITIAL.defaultRule;
    j := SnapshotIsOneVersion(ss, es, k);
    assert Next(ss[k], es[k], ss[k + 1]);
  }

  // ---- the event ring ---------------------------------------------------------------

  const EVENT_RING := 512

  datatype ConnEvent = ConnEvent(flowId: nat, when: nat, app: string, host: string, port: Port,
                                 verdict: Verdict, ruleName: string)

  function LastN<T>(s: seq<T>, n: nat): seq<T> {
    if |s| <= n then s else s[|s| - n..]
  }

  // The stored events, oldest first.
  function Unrolled<T>(a: seq<T>, head: nat, len: nat): (r: seq<T>)
    requires |a| > 0 && len <= |a|
    ensures |r| == len
  {
    seq(len, i requires 0 <= i < len => a[(head + i) % |a|])
  }

  class EventLog {
    const events: array<ConnEvent>
    var head: nat
    var len: nat
    // Everything recorded since the last clear.
    ghost var recorded: seq<ConnEvent>

    ghost predicate Valid()
      reads this, events
    {
      && events.Length == EVENT_RING && head < EVENT_RING && len <= EVENT_RING
      && (len < EVENT_RING ==> head == 0)
      && Unrolled(events[..], head, len) == LastN(recorded, EVENT_RING)
    }

    constructor ()
      ensures Valid() && fresh(events) && recorded == []
    {
      events := new ConnEvent[EVENT_RING](_ => ConnEvent(0, 0, "", "", 0, GoDirect, ""));
      head, len := 0, 0;
      recorded := [];
    }

    // record_event
    method Record(ev: ConnEvent)
      requires Valid()
      modifies this, events
      ensures Valid() && recorded == old(recorded) + [ev]
    {
      ghost var a, h, n := events[..], head, len;
      var idx: nat;
      if len < EVENT_RING {
        idx := (head + len) % EVENT_RING;
        len := len + 1;
      } else {
        idx := head;
        head := (head + 1) % EVENT_RING;
      }
      events[idx] := ev;
      recorded := recorded + [ev];
      assert events[..] == a[idx := ev];
      RingAppend(a, h, n, ev);
    }

    lemma Facts()
      requires Valid()
      ensures events.Length == EVENT_RING == 512 && head < EVENT_RING && len <= EVENT_RING
      ensures Unrolled(events[..], head, len) == LastN(recorded, EVENT_RING)
    {
    }

    // pmx_engine_recent_events: the newest `max` events, oldest first.
    method Recent(out: array<ConnEvent>, max: nat) returns (n: nat)
      requires Valid() && out != events && max <= out.Length
      modifies out
      ensures n <= max && out[..n] == LastN(recorded, if max < 512 then max else 512)
      ensures Valid() && forall k :: n <= k < out.Length ==> out[k] == old(out[k])
    {
      hide *;
      Facts();
      LastOfLast(recorded, EVENT_RING, max);
      ghost var a, log := events[..], Unrolled(events[..], head, len);
      if max == 0 {
        LastIsEnd(log, 0);
        assert out[..0] == log[len..];
        return 0;
      }
      n := if len < max then len else max;
      LastIsEnd(log, max);
      var start := len - n;
      var i := 0;
      while i < n
        invariant i <= n <= out.Length && events[..] == a
        invariant forall k :: 0 <= k < i ==> out[k] == log[start + k]
        invariant forall k :: n <= k < out.Length ==> out[k] == old(out[k])
      {
        StoredAt(a, head, len, start + i);
        out[i] := events[(head + start + i) % EVENT_RING];
        i := i + 1;
      }
      assert out[..n] == log[start..];
    }

    // pmx_engine_clear_events
    method Clear()
      requires Valid()
      modifies this
      ensures Valid() && recorded == []
    {
      head, len := 0, 0;
      recorded := [];
    }
  }

  lemma StoredAt(a: seq<ConnEvent>, head: nat, len: nat, k: nat)
    requires |a| == EVENT_RING && k < len <= EVENT_RING
    ensures Unrolled(a, head, len)[k] == a[(head + k) % EVENT_RING]
  {
  }

  lemma LastIsEnd<T>(s: seq<T>, n: nat)
    ensures LastN(s, n) == s[if n < |s| then |s| - n else 0..]
  {
  }

  // The newest n of a list: its end, in order.
  lemma LastNMeans<T>(s: seq<T>, n: nat)
    ensures |LastN(s, n)| == (if |s| < n then |s| else n) && exists front :: s == front + LastN(s, n)
  {
    assert s == s[..if |s| <= n then 0 else |s| - n] + LastN(s, n);
  }

  lemma LastOfLast<T>(s: seq<T>, m: nat, n: nat)
    ensures LastN(LastN(s, m), n) == LastN(s, if n < m then n else m)
  {
  }

  lemma WrapsOnce(x: nat)
    requires x < 2 * EVENT_RING
    ensures x % EVENT_RING == if x < EVENT_RING then x else x - EVENT_RING
  {
  }

  // Writing behind the last event of a ring that is not full appends.
  lemma RingFills(a: seq<ConnEvent>, len: nat, ev: ConnEvent)
    requires |a| == EVENT_RING && len < EVENT_RING
    ensures Unrolled(a[len := ev], 0, len + 1) == Unrolled(a, 0, len) + [ev]
  {
  }

  // Writing over the first event of a full ring drops it and appends.
  lemma RingTurns(a: seq<ConnEvent>, head: nat, ev: ConnEvent)
    requires |a| == EVENT_RING && head < EVENT_RING
    ensures Unrolled(a[head := ev], (head + 1) % EVENT_RING, EVENT_RING) == Unrolled(a, head, EVENT_RING)[1..] + [ev]
  {
    var n := EVENT_RING;
    var b, old0 := a[head := ev], Unrolled(a, head, n);
    var r := Unrolled(b, (head + 1) % n, n);
    forall i | 0 <= i < n ensures r[i] == (old0[1..] + [ev])[i] {
      WrapsOnce(head + 1);
      WrapsOnce((head + 1) % n + i);
      assert r[i] == b[((head + 1) % n + i) % n];
      if i < n - 1 {
        WrapsOnce(head + (i + 1));
        assert old0[i + 1] == a[(head + (i + 1)) % n];
      }
    }
  }

  lemma RingAppend(a: seq<ConnEvent>, head: nat, len: nat, ev: ConnEvent)
    requires |a| == EVENT_RING && head < EVENT_RING && len <= EVENT_RING && (len < EVENT_RING ==> head == 0)
    ensures len < EVENT_RING ==>
      Unrolled(a[(head + len) % EVENT_RING := ev], head, len + 1) == Unrolled(a, head, len) + [ev]
    ensures len == EVENT_RING ==>
      Unrolled(a[head := ev], (head + 1) % EVENT_RING, len) == Unrolled(a, head, len)[1..] + [ev]
  {
    hide Unrolled;
    if len < EVENT_RING {
      WrapsOnce(head + len);
      RingFills(a, len, ev);
    } else {
      RingTurns(a, head, ev);
    }
  }
}
