// What a profile keeps over whole runs of edits: ids stay fresh, and a path of
// hops is honoured in full or not at all.

module ProfileRuns {
  import opened Types
  import opened Model
  import opened Lists
  import opened Resolve
  import opened Profiles

  ghost predicate Fresh(ids: seq<Id>, nextId: Id) {
    && (forall i :: 0 <= i < |ids| ==> 0 < ids[i] < nextId)
    && forall i, j :: 0 <= i < j < |ids| ==> ids[i] != ids[j]
  }

  // Ids are distinct within each list, never 0, and all below the next one.
  ghost predicate WellFormed(pf: Profile) {
    && pf.nextId > 0
    && Fresh(ProxyIds(pf.proxies), pf.nextId)
    && Fresh(ChainIds(pf.chains), pf.nextId)
    && Fresh(RuleIds(pf.rules), pf.nextId)
    && Fresh(VpnIds(pf.vpns), pf.nextId)
  }

  // What one edit does to one list of ids: nothing, a new id at the end, one
  // taken out, or one moved.
  ghost predicate IdsEdited(ids: seq<Id>, ids': seq<Id>, nextId: Id, nextId': Id) {
    || (ids' == ids && nextId' >= nextId)
    || (ids' == ids + [nextId] && nextId' == nextId + 1)
    || (nextId' == nextId && exists i :: 0 <= i < |ids| && ids' == RemoveAt(ids, i))
    || (nextId' == nextId && exists f, t :: 0 <= f < |ids| && 0 <= t < |ids| && ids' == Moved(ids, f, t))
  }

  // An edit does one such thing to each of the four lists.
  ghost predicate EditsIds(pf: Profile, pf': Profile) {
    && pf'.nextId >= pf.nextId
    && IdsEdited(ProxyIds(pf.proxies), ProxyIds(pf'.proxies), pf.nextId, pf'.nextId)
    && IdsEdited(RuleIds(pf.rules), RuleIds(pf'.rules), pf.nextId, pf'.nextId)
    && IdsEdited(ChainIds(pf.chains), ChainIds(pf'.chains), pf.nextId, pf'.nextId)
    && IdsEdited(VpnIds(pf.vpns), VpnIds(pf'.vpns), pf.nextId, pf'.nextId)
  }

  lemma FreshAfterAdd(ids: seq<Id>, nextId: Id)
    requires Fresh(ids, nextId) && nextId > 0
    ensures Fresh(ids + [nextId], nextId + 1)
  {
  }

  lemma FreshAfterRemove(ids: seq<Id>, nextId: Id, i: nat)
    requires Fresh(ids, nextId) && i < |ids|
    ensures Fresh(RemoveAt(ids, i), nextId)
  {
  }

  lemma FreshAfterMove(ids: seq<Id>, nextId: Id, f: nat, t: nat)
    requires Fresh(ids, nextId) && f < |ids| && t < |ids|
    ensures Fresh(Moved(ids, f, t), nextId)
  {
    var rest := RemoveAt(ids, f);
    FreshAfterRemove(ids, nextId, f);
    forall i | 0 <= i < |rest| ensures rest[i] == ids[if i < f then i else i + 1] {}
  }

  lemma StaysFresh(ids: seq<Id>, ids': seq<Id>, nextId: Id, nextId': Id)
    requires Fresh(ids, nextId) && nextId > 0 && IdsEdited(ids, ids', nextId, nextId')
    ensures Fresh(ids', nextId')
  {
    if ids' != ids {
      hide Fresh, RemoveAt, Moved;
      if ids' == ids + [nextId] && nextId' == nextId + 1 {
        FreshAfterAdd(ids, nextId);
      } else if i :| 0 <= i < |ids| && ids' == RemoveAt(ids, i) {
        FreshAfterRemove(ids, nextId, i);
      } else {
        var f, t :| 0 <= f < |ids| && 0 <= t < |ids| && ids' == Moved(ids, f, t);
        FreshAfterMove(ids, nextId, f, t);
      }
    }
  }

  lemma AddEdits(pf: Profile, e: Edit, ok: bool)
    requires pf.nextId > 0 && (e.AddProxy? || e.AddRule? || e.AddChain? || e.AddVpn? || e.ImportVpn?)
    ensures EditsIds(pf, Apply(pf, e, ok))
  {
    var pf' := Apply(pf, e, ok);
    if ok {
      match e {
        case AddProxy => assert ProxyIds(pf'.proxies) == ProxyIds(pf.proxies) + [pf.nextId];
        case AddRule => assert RuleIds(pf'.rules) == RuleIds(pf.rules) + [pf.nextId];
        case AddChain => assert ChainIds(pf'.chains) == ChainIds(pf.chains) + [pf.nextId];
        case AddVpn => assert VpnIds(pf'.vpns) == VpnIds(pf.vpns) + [pf.nextId];
        case ImportVpn(_) => assert VpnIds(pf'.vpns) == VpnIds(pf.vpns) + [pf.nextId];
      }
    }
  }

  lemma FillEdits(pf: Profile, e: Edit, ok: bool)
    requires e.FillProxy? || e.FillRule? || e.FillChain? || e.FillVpn? || e.FillDefault?
    ensures EditsIds(pf, Apply(pf, e, ok))
  {
    var pf' := Apply(pf, e, ok);
    assert ProxyIds(pf'.proxies) == ProxyIds(pf.proxies);
    assert RuleIds(pf'.rules) == RuleIds(pf.rules);
    assert ChainIds(pf'.chains) == ChainIds(pf.chains);
    assert VpnIds(pf'.vpns) == VpnIds(pf.vpns);
  }

  lemma RemoveProxyEdits(pf: Profile, id: Id)
    ensures EditsIds(pf, WithoutProxy(pf, id))
  {
    var pf', i := WithoutProxy(pf, id), IndexOf(ProxyIds(pf.proxies), id);
    if i < |pf.proxies| {
      assert ProxyIds(pf'.proxies) == RemoveAt(ProxyIds(pf.proxies), i);
      assert RuleIds(pf'.rules) == RuleIds(pf.rules) && ChainIds(pf'.chains) == ChainIds(pf.chains);
    }
  }

  lemma RemoveChainEdits(pf: Profile, id: Id)
    ensures EditsIds(pf, WithoutChain(pf, id))
  {
    var pf', i := WithoutChain(pf, id), IndexOf(ChainIds(pf.chains), id);
    if i < |pf.chains| {
      assert ChainIds(pf'.chains) == RemoveAt(ChainIds(pf.chains), i);
      assert RuleIds(pf'.rules) == RuleIds(pf.rules);
    }
  }

  lemma RemoveEdits(pf: Profile, e: Edit, ok: bool)
    requires e.RemoveProxy? || e.RemoveRule? || e.RemoveChain? || e.RemoveVpn?
    ensures EditsIds(pf, Apply(pf, e, ok))
  {
    hide WithoutProxy, WithoutChain;
    var pf' := Apply(pf, e, ok);
    match e {
      case RemoveProxy(id) => RemoveProxyEdits(pf, id);
      case RemoveChain(id) => RemoveChainEdits(pf, id);
      case RemoveRule(id) =>
        var i := IndexOf(RuleIds(pf.rules), id);
        if i < |pf.rules| { assert RuleIds(pf'.rules) == RemoveAt(RuleIds(pf.rules), i); }
      case RemoveVpn(id) =>
        var i := IndexOf(VpnIds(pf.vpns), id);
        if i < |pf.vpns| { assert VpnIds(pf'.vpns) == RemoveAt(VpnIds(pf.vpns), i); }
    }
  }

  lemma IdsMoved(rs: seq<Rule>, f: nat, t: nat)
    requires f < |rs| && t < |rs|
    ensures RuleIds(Moved(rs, f, t)) == Moved(RuleIds(rs), f, t)
  {
    var rest, ids := RemoveAt(rs, f), RuleIds(rs);
    assert RuleIds(rest) == RemoveAt(ids, f);
    assert Moved(rs, f, t)[..t] == rest[..t] && Moved(rs, f, t)[t + 1..] == rest[t..];
  }

  lemma MoveEdits(pf: Profile, f: nat, t: nat, ok: bool)
    ensures EditsIds(pf, Apply(pf, MoveRule(f, t), ok))
  {
    if f < |pf.rules| && t < |pf.rules| {
      hide Moved;
      IdsMoved(pf.rules, f, t);
    }
  }

  lemma EditKeepsWellFormed(pf: Profile, e: Edit, ok: bool)
    requires WellFormed(pf)
    ensures WellFormed(Apply(pf, e, ok)) && Apply(pf, e, ok).nextId >= pf.nextId
  {
    var pf' := Apply(pf, e, ok);
    assert EditsIds(pf, pf') by {
      hide Apply, EditsIds, WithoutProxy, WithoutChain, WithoutRule;
      match e {
        case AddProxy => AddEdits(pf, e, ok);
        case AddRule => AddEdits(pf, e, ok);
        case AddChain => AddEdits(pf, e, ok);
        case AddVpn => AddEdits(pf, e, ok);
        case ImportVpn(_) => AddEdits(pf, e, ok);
        case MoveRule(f, t) => MoveEdits(pf, f, t, ok);
        case FillProxy(_, _) => FillEdits(pf, e, ok);
        case FillRule(_, _) => FillEdits(pf, e, ok);
        case FillChain(_, _) => FillEdits(pf, e, ok);
        case FillVpn(_, _) => FillEdits(pf, e, ok);
        case FillDefault(_) => FillEdits(pf, e, ok);
        case _ => RemoveEdits(pf, e, ok);
      }
    }
    hide Apply, Fresh, IdsEdited;
    StaysFresh(ProxyIds(pf.proxies), ProxyIds(pf'.proxies), pf.nextId, pf'.nextId);
    StaysFresh(RuleIds(pf.rules), RuleIds(pf'.rules), pf.nextId, pf'.nextId);
    StaysFresh(ChainIds(pf.chains), ChainIds(pf'.chains), pf.nextId, pf'.nextId);
    StaysFresh(VpnIds(pf.vpns), VpnIds(pf'.vpns), pf.nextId, pf'.nextId);
  }

  // ---- runs ----------------------------------------------------------------------

  datatype Event = Event(edit: Edit, ok: bool)

  function After(pf: Profile, es: seq<Event>): Profile
    decreases |es|
  {
    if es == [] then pf else After(Apply(pf, es[0].edit, es[0].ok), es[1..])
  }

  predicate HasProxy(pf: Profile, id: Id) {
    exists i :: 0 <= i < |pf.proxies| && pf.proxies[i].id == id
  }

  lemma HasProxyAt(pf: Profile, id: Id)
    ensures HasProxy(pf, id) <==> IndexOf(ProxyIds(pf.proxies), id) < |pf.proxies|
  {
    var ids := ProxyIds(pf.proxies);
    if i :| 0 <= i < |pf.proxies| && pf.proxies[i].id == id { assert ids[i] == id; }
    if IndexOf(ids, id) < |ids| { assert pf.proxies[IndexOf(ids, id)].id == id; }
  }

  // Editing keeps ids fresh; ids are only ever handed out upwards.
  lemma {:induction false} RunKeepsWellFormed(pf: Profile, es: seq<Event>)
    requires WellFormed(pf)
    ensures WellFormed(After(pf, es)) && After(pf, es).nextId >= pf.nextId
    decreases |es|
  {
    hide WellFormed, Apply;
    if es != [] {
      EditKeepsWellFormed(pf, es[0].edit, es[0].ok);
      RunKeepsWellFormed(Apply(pf, es[0].edit, es[0].ok), es[1..]);
    }
  }

  // Every profile that editing can reach from a fresh one is well formed, so the
  // results below hold of all of them.
  lemma ReachableIsWellFormed(es: seq<Event>)
    ensures WellFormed(After(INITIAL, es))
  {
    RunKeepsWellFormed(INITIAL, es);
  }

  lemma EditKeepsAbsent(pf: Profile, e: Edit, ok: bool, id: Id)
    requires WellFormed(pf) && id < pf.nextId && !HasProxy(pf, id)
    ensures !HasProxy(Apply(pf, e, ok), id)
  {
    var pf' := Apply(pf, e, ok);
    match e {
      case AddProxy =>
      case FillProxy(i, p) =>
        if i < |pf.proxies| {
          forall j | 0 <= j < |pf'.proxies| ensures pf'.proxies[j].id != id { assert pf.proxies[j].id != id; }
        }
      case RemoveProxy(r) =>
        var i := IndexOf(ProxyIds(pf.proxies), r);
        if i < |pf.proxies| {
          forall j | 0 <= j < |pf'.proxies| ensures pf'.proxies[j].id != id {
            assert pf'.proxies[j] == pf.proxies[if j < i then j else j + 1];
          }
        }
      case _ => assert pf'.proxies == pf.proxies;
    }
  }

  // An id once used and gone never names a proxy again.
  lemma {:induction false} RemovedIdNeverReturns(pf: Profile, es: seq<Event>, id: Id)
    requires WellFormed(pf) && id < pf.nextId && !HasProxy(pf, id)
    ensures !HasProxy(After(pf, es), id)
    decreases |es|
  {
    hide WellFormed, Apply, HasProxy;
    if es != [] {
      EditKeepsWellFormed(pf, es[0].edit, es[0].ok);
      EditKeepsAbsent(pf, es[0].edit, es[0].ok, id);
      RemovedIdNeverReturns(Apply(pf, es[0].edit, es[0].ok), es[1..], id);
    }
  }

  // ---- sequential chains ------------------------------------------------------------

  // The edit is about the chain itself.
  predicate Touches(pf: Profile, e: Edit, cid: Id) {
    match e
    case FillChain(i, _) => i < |pf.chains| && pf.chains[i].id == cid
    case RemoveChain(id) => id == cid
    case _ => false
  }

  predicate Untouched(pf: Profile, es: seq<Event>, cid: Id)
    decreases |es|
  {
    es != [] ==>
      && !Touches(pf, es[0].edit, cid)
      && Untouched(Apply(pf, es[0].edit, es[0].ok), es[1..], cid)
  }

  predicate Removes(pf: Profile, e: Edit, id: Id) {
    e == RemoveProxy(id) && HasProxy(pf, id)
  }

  // The proxy was there and was removed at some step of the run.
  predicate RemovedIn(pf: Profile, es: seq<Event>, id: Id)
    decreases |es|
  {
    && es != []
    && (Removes(pf, es[0].edit, id) || RemovedIn(Apply(pf, es[0].edit, es[0].ok), es[1..], id))
  }

  lemma {:induction false} FindChainIndex(cs: seq<Chain>, id: Id) returns (i: nat)
    requires FindChain(cs, id).Some?
    ensures i < |cs| && cs[i] == FindChain(cs, id).value && cs[i].id == id
  {
    if cs[0].id == id {
      i := 0;
    } else {
      i := FindChainIndex(cs[1..], id);
      i := i + 1;
    }
  }

  lemma ChainInFresh(pf: Profile, i: nat)
    requires WellFormed(pf) && i < |pf.chains|
    ensures FindChain(pf.chains, pf.chains[i].id) == Some(pf.chains[i])
  {
    var ids := ChainIds(pf.chains);
    forall j | 0 <= j < i ensures pf.chains[j].id != pf.chains[i].id { assert ids[j] != ids[i]; }
    FindChainAt(pf.chains, i);
  }

  function HopAfter(pf: Profile, e: Edit, hop: Id): Id {
    if Removes(pf, e, hop) then ID_NONE else hop
  }

  // Where an edit that is not about chain i puts it, and what becomes of it.
  lemma ChainAfter(pf: Profile, e: Edit, ok: bool, i: nat) returns (at: nat, c': Chain)
    requires i < |pf.chains| && !Touches(pf, e, pf.chains[i].id)
    ensures at < |Apply(pf, e, ok).chains| && Apply(pf, e, ok).chains[at] == c'
    ensures c' == if e.RemoveProxy? && HasProxy(pf, e.id) then RepairChain(pf.chains[i], e.id) else pf.chains[i]
  {
    hide HasProxy;
    at, c' := i, pf.chains[i];
    match e {
      case RemoveProxy(id) =>
        HasProxyAt(pf, id);
        if HasProxy(pf, id) { c' := RepairChain(pf.chains[i], id); }
      case RemoveChain(id) =>
        var r := IndexOf(ChainIds(pf.chains), id);
        if r < i { at := i - 1; }
      case _ =>
    }
  }

  // One edit leaves an untouched path in place, hop by hop.
  lemma EditKeepsPath(pf: Profile, e: Edit, ok: bool, cid: Id, c: Chain) returns (c': Chain)
    requires WellFormed(pf) && FindChain(pf.chains, cid) == Some(c) && c.mode == Sequential
    requires !Touches(pf, e, cid)
    ensures FindChain(Apply(pf, e, ok).chains, cid) == Some(c')
    ensures c'.mode == Sequential && c'.enabled == c.enabled && |c'.hops| == |c.hops|
    ensures forall i :: 0 <= i < |c.hops| ==> c'.hops[i] == HopAfter(pf, e, c.hops[i])
  {
    hide WellFormed, FindChain, Apply, HasProxy;
    var i := FindChainIndex(pf.chains, cid);
    EditKeepsWellFormed(pf, e, ok);
    var at: nat;
    at, c' := ChainAfter(pf, e, ok, i);
    ChainInFresh(Apply(pf, e, ok), at);
  }

  // Over any run of edits that leaves the chain itself alone, each hop of a
  // path stays at its position as its original id, or becomes "none" exactly
  // when its proxy was removed.
  lemma {:induction false} PathSurvives(pf: Profile, es: seq<Event>, cid: Id, c: Chain) returns (c': Chain)
    requires WellFormed(pf) && FindChain(pf.chains, cid) == Some(c) && c.mode == Sequential
    requires Untouched(pf, es, cid)
    ensures FindChain(After(pf, es).chains, cid) == Some(c')
    ensures c'.mode == Sequential && c'.enabled == c.enabled && |c'.hops| == |c.hops|
    ensures forall i :: 0 <= i < |c.hops|
              ==> c'.hops[i] == if RemovedIn(pf, es, c.hops[i]) then ID_NONE else c.hops[i]
    decreases |es|
  {
    c' := c;
    if es != [] {
      var pf1 := Apply(pf, es[0].edit, es[0].ok);
      EditKeepsWellFormed(pf, es[0].edit, es[0].ok);
      var c1 := EditKeepsPath(pf, es[0].edit, es[0].ok, cid, c);
      hide Apply, WellFormed, HasProxy, FindChain;
      c' := PathSurvives(pf1, es[1..], cid, c1);
      forall i | 0 <= i < |c.hops|
        ensures c'.hops[i] == if RemovedIn(pf, es, c.hops[i]) then ID_NONE else c.hops[i]
      {
        assert c1.hops[i] == HopAfter(pf, es[0].edit, c.hops[i]);
      }
    }
  }

  // Resolution of an edited path: the original hop list in full, or nothing;
  // and nothing for good once one of its proxies has been removed.
  lemma PathResolvesWholeOrNot(pf: Profile, es: seq<Event>, cid: Id, c: Chain)
    requires WellFormed(pf) && FindChain(pf.chains, cid) == Some(c) && c.mode == Sequential
    requires Untouched(pf, es, cid)
    ensures var via := Via(After(pf, es), ChainTarget, cid);
      && (via != [] ==> |via| == |c.hops| && forall i :: 0 <= i < |via| ==> via[i].id == c.hops[i])
      && ((exists i :: 0 <= i < |c.hops| && RemovedIn(pf, es, c.hops[i])) ==> via == [])
  {
    var c' := PathSurvives(pf, es, cid, c);
    var pf' := After(pf, es);
    hide RemovedIn, Untouched, After, WellFormed;
    if AllUsable(pf'.proxies, c'.hops) {
      var all := ProxiesOf(pf'.proxies, c'.hops);
      forall i | 0 <= i < |c'.hops| ensures c'.hops[i] == c.hops[i] && all[i].id == c.hops[i] {
        assert Usable(pf'.proxies, c'.hops[i]);
        assert FindProxy(pf'.proxies, c'.hops[i]) == Some(all[i]);
      }
      assert forall i :: 0 <= i < |c.hops| && RemovedIn(pf, es, c.hops[i]) ==> c'.hops[i] == ID_NONE;
    }
  }

  // ---- what each edit does and leaves --------------------------------------------------

  lemma IndexIs(ids: seq<Id>, nextId: Id, k: nat)
    requires Fresh(ids, nextId) && k < |ids|
    ensures IndexOf(ids, ids[k]) == k
  {
    IsIndex(ids, ids[k], k);
  }

  // Removing a rule or a VPN takes out exactly the one with the id.
  lemma RuleRemoved(pf: Profile, k: nat)
    requires WellFormed(pf) && k < |pf.rules|
    ensures Apply(pf, RemoveRule(pf.rules[k].id), true) == pf.(rules := pf.rules[..k] + pf.rules[k + 1..])
  {
    IndexIs(RuleIds(pf.rules), pf.nextId, k);
  }

  lemma VpnRemoved(pf: Profile, k: nat)
    requires WellFormed(pf) && k < |pf.vpns|
    ensures Apply(pf, RemoveVpn(pf.vpns[k].id), true) == pf.(vpns := pf.vpns[..k] + pf.vpns[k + 1..])
  {
    IndexIs(VpnIds(pf.vpns), pf.nextId, k);
  }

  // After the removal of object id of this kind every rule stands where it was,
  // changed only if it targeted that object, and then only to target none.
  ghost predicate OnlyTargetsCleared(rs: seq<Rule>, rs': seq<Rule>, kind: TargetKind, id: Id) {
    && |rs'| == |rs|
    && forall i :: 0 <= i < |rs| ==>
         rs'[i] == if rs[i].targetKind == kind && rs[i].targetId == id then rs[i].(targetId := 0) else rs[i]
  }

  // Removing a chain also clears the rules that targeted it, and nothing else.
  lemma ChainRemoved(pf: Profile, k: nat)
    requires WellFormed(pf) && k < |pf.chains|
    ensures var id := pf.chains[k].id;
      var pf' := Apply(pf, RemoveChain(id), true);
      && pf' == pf.(chains := pf.chains[..k] + pf.chains[k + 1..], rules := pf'.rules)
      && OnlyTargetsCleared(pf.rules, pf'.rules, ChainTarget, id)
  {
    IndexIs(ChainIds(pf.chains), pf.nextId, k);
  }

  // A chain after the removal of proxy id: as it was when that was no hop of it;
  // otherwise a path has the hop voided, and alternatives lose it.
  ghost predicate OnlyHopGone(c: Chain, c': Chain, id: Id) {
    && c' == c.(hops := c'.hops) && (id !in c.hops ==> c' == c)
    && (c.mode == Sequential ==>
          && |c'.hops| == |c.hops|
          && forall j :: 0 <= j < |c.hops| ==> c'.hops[j] == if c.hops[j] == id then 0 else c.hops[j])
    && (c.mode == Redundancy ==> c'.hops == Without(c.hops, id))
  }

  lemma {:induction false} WithoutAbsent(hops: seq<Id>, id: Id)
    requires id !in hops
    ensures Without(hops, id) == hops
  {
    if hops != [] {
      var n := |hops| - 1;
      assert hops == hops[..n] + [hops[n]];
      WithoutAbsent(hops[..n], id);
    }
  }

  // Removing a proxy also clears the rules that targeted it and takes it out of
  // the chains, and nothing else.
  lemma ProxyRemoved(pf: Profile, k: nat)
    requires WellFormed(pf) && k < |pf.proxies|
    ensures var id := pf.proxies[k].id;
      var pf' := Apply(pf, RemoveProxy(id), true);
      && pf' == pf.(proxies := pf.proxies[..k] + pf.proxies[k + 1..], chains := pf'.chains, rules := pf'.rules)
      && OnlyTargetsCleared(pf.rules, pf'.rules, ProxyTarget, id)
      && |pf'.chains| == |pf.chains|
      && forall i :: 0 <= i < |pf.chains| ==> OnlyHopGone(pf.chains[i], pf'.chains[i], id)
  {
    var id := pf.proxies[k].id;
    var pf' := Apply(pf, RemoveProxy(id), true);
    IndexIs(ProxyIds(pf.proxies), pf.nextId, k);
    forall i | 0 <= i < |pf.chains| ensures OnlyHopGone(pf.chains[i], pf'.chains[i], id) {
      var c := pf.chains[i];
      assert pf'.chains[i] == RepairChain(c, id);
      if id !in c.hops {
        WithoutAbsent(c.hops, id);
        assert Replaced(c.hops, id, 0) == c.hops;
      }
    }
  }

  // An id that names nothing removes nothing, and neither does a failed addition,
  // a filling or a move out of range change anything.
  lemma NothingToDo(pf: Profile, e: Edit, ok: bool)
    requires match e
      case RemoveProxy(id) => id !in ProxyIds(pf.proxies)
      case RemoveRule(id) => id !in RuleIds(pf.rules)
      case RemoveChain(id) => id !in ChainIds(pf.chains)
      case RemoveVpn(id) => id !in VpnIds(pf.vpns)
      case FillProxy(i, _) => i >= |pf.proxies|
      case FillRule(i, _) => i >= |pf.rules|
      case FillChain(i, _) => i >= |pf.chains|
      case FillVpn(i, _) => i >= |pf.vpns|
      case MoveRule(f, t) => f >= |pf.rules| || t >= |pf.rules|
      case FillDefault(_) => false
      case _ => !ok
    ensures Apply(pf, e, ok) == pf
  {
  }

  // A successful addition appends one object with the defaults of the editor
  // under the next id; an import appends what was parsed.
  lemma Added(pf: Profile, v: Vpn)
    requires pf.nextId > 0
    ensures var id := pf.nextId;
      && Apply(pf, AddProxy, true)
         == pf.(proxies := pf.proxies + [Proxy(id, Socks5, "", 1080, false, "", "", true)], nextId := id + 1)
      && Apply(pf, AddRule, true)
         == pf.(rules := pf.rules + [Rule(id, "New rule", true, "", "", "", Direct, NoTarget, 0)], nextId := id + 1)
      && Apply(pf, AddChain, true) == pf.(chains := pf.chains + [Chain(id, Sequential, [], true)], nextId := id + 1)
      && Apply(pf, AddVpn, true) == pf.(vpns := pf.vpns + [Vpn(id, true, [])], nextId := id + 1)
      && Apply(pf, ImportVpn(v), true) == pf.(vpns := pf.vpns + [v.(id := id)], nextId := id + 1)
  {
  }

  // Moving a rule puts it at the place asked for and keeps the others' order.
  lemma RuleMoved(pf: Profile, f: nat, t: nat)
    requires f < |pf.rules| && t < |pf.rules|
    ensures var rs' := Apply(pf, MoveRule(f, t), true).rules;
      && Apply(pf, MoveRule(f, t), true) == pf.(rules := rs')
      && |rs'| == |pf.rules| && rs'[t] == pf.rules[f]
      && rs'[..t] + rs'[t + 1..] == pf.rules[..f] + pf.rules[f + 1..]
  {
    MoveIsLocal(pf.rules, f, t);
  }

  // Filling in an object keeps its id and touches nothing else.
  lemma Filled(pf: Profile, i: nat, p: Proxy, r: Rule, c: Chain, v: Vpn)
    ensures i < |pf.proxies| ==>
      Apply(pf, FillProxy(i, p), true) == pf.(proxies := pf.proxies[i := p.(id := pf.proxies[i].id)])
    ensures i < |pf.rules| ==> Apply(pf, FillRule(i, r), true) == pf.(rules := pf.rules[i := r.(id := pf.rules[i].id)])
    ensures i < |pf.chains| ==>
      Apply(pf, FillChain(i, c), true) == pf.(chains := pf.chains[i := c.(id := pf.chains[i].id)])
    ensures i < |pf.vpns| ==> Apply(pf, FillVpn(i, v), true) == pf.(vpns := pf.vpns[i := v.(id := pf.vpns[i].id)])
    ensures Apply(pf, FillDefault(r), true) == pf.(defaultRule := r.(id := pf.defaultRule.id))
  {
  }

  // A fresh profile sends everything direct, and its kill switch blocks until
  // the proxy has been seen to work.
  lemma FreshProfile(q: Query)
    ensures Decide(INITIAL, q).verdict == GoDirect
    ensures INITIAL.policy == Policy(FailClosed, true, 2, 2) && INITIAL.nextId == 1
  {
    assert Chosen([], INITIAL.defaultRule, q) == INITIAL.defaultRule;
  }

  // A new rule is inert: it comes last and sends direct what no other rule
  // decides, until it is filled in.
  lemma AddedRuleIsInert(pf: Profile, q: Query)
    requires pf.nextId > 0
    ensures var pf' := Apply(pf, AddRule, true);
      if exists i :: 0 <= i < |pf.rules| && pf.rules[i].enabled && RuleMatches(pf.rules[i], q)
      then Decide(pf', q) == Decide(pf, q)
      else Decide(pf', q).verdict == GoDirect
  {
    var pf' := Apply(pf, AddRule, true);
    ChosenWithLast(pf.rules, pf'.rules[|pf.rules|], pf.defaultRule, q);
    EachCriterionCounts(pf'.rules[|pf.rules|], q);
    hide RuleMatches, Chosen;
  }

  lemma {:induction false} ChosenWithLast(rs: seq<Rule>, last: Rule, default: Rule, q: Query)
    ensures Chosen(rs + [last], default, q)
         == if exists i :: 0 <= i < |rs| && rs[i].enabled && RuleMatches(rs[i], q) then Chosen(rs, default, q)
            else if last.enabled && RuleMatches(last, q) then last else default
  {
    hide RuleMatches;
    if rs != [] {
      assert (rs + [last])[1..] == rs[1..] + [last];
      if !(rs[0].enabled && RuleMatches(rs[0], q)) {
        ChosenWithLast(rs[1..], last, default, q);
        if i :| 0 <= i < |rs| && rs[i].enabled && RuleMatches(rs[i], q) { assert rs[1..][i - 1] == rs[i]; }
      }
    } else {
      assert [last][1..] == [];
    }
  }

  // ---- dangling references -----------------------------------------------------------

  predicate TargetsProxy(r: Rule, id: Id) {
    r.targetKind == ProxyTarget && r.targetId == id
  }

  // Something in the profile still names proxy `id`.
  ghost predicate Mentions(pf: Profile, id: Id) {
    || (exists i :: 0 <= i < |pf.chains| && id in pf.chains[i].hops)
    || (exists i :: 0 <= i < |pf.rules| && TargetsProxy(pf.rules[i], id))
    || TargetsProxy(pf.defaultRule, id)
  }

  // Removing a proxy repairs every chain and every listed rule, but not the
  // default rule: a reference is left exactly when the default rule held one.
  lemma RemovalLeavesOnlyDefault(pf: Profile, id: Id)
    requires WellFormed(pf) && HasProxy(pf, id)
    ensures var pf' := Apply(pf, RemoveProxy(id), true);
      && !HasProxy(pf', id)
      && (Mentions(pf', id) <==> TargetsProxy(pf.defaultRule, id))
  {
    var pf' := Apply(pf, RemoveProxy(id), true);
    var k, ids := IndexOf(ProxyIds(pf.proxies), id), ProxyIds(pf.proxies);
    var i0 :| 0 <= i0 < |pf.proxies| && pf.proxies[i0].id == id;
    assert ids[i0] == id == ids[k] && ids[k] > 0;
    forall j | 0 <= j < |pf'.proxies| ensures pf'.proxies[j].id != id {
      var j' := if j < k then j else j + 1;
      assert pf'.proxies[j] == pf.proxies[j'] && ids[j'] != ids[k];
    }
    forall i | 0 <= i < |pf'.chains| ensures id !in pf'.chains[i].hops {
      assert pf'.chains[i] == RepairChain(pf.chains[i], id);
    }
    forall i | 0 <= i < |pf'.rules| ensures !TargetsProxy(pf'.rules[i], id) {
      assert pf'.rules[i] == RepairRule(pf.rules[i], ProxyTarget, id);
    }
  }

  predicate TargetsChain(r: Rule, id: Id) {
    r.targetKind == ChainTarget && r.targetId == id
  }

  ghost predicate HasChain(pf: Profile, id: Id) {
    exists i :: 0 <= i < |pf.chains| && pf.chains[i].id == id
  }

  // Something in the profile still names chain `id`; only rules can.
  ghost predicate MentionsChain(pf: Profile, id: Id) {
    || (exists i :: 0 <= i < |pf.rules| && TargetsChain(pf.rules[i], id))
    || TargetsChain(pf.defaultRule, id)
  }

  // Removing a chain leaves the default rule's reference in the same way.
  lemma ChainRemovalLeavesOnlyDefault(pf: Profile, id: Id)
    requires WellFormed(pf) && HasChain(pf, id)
    ensures var pf' := Apply(pf, RemoveChain(id), true);
      && !HasChain(pf', id)
      && (MentionsChain(pf', id) <==> TargetsChain(pf.defaultRule, id))
  {
    var pf' := Apply(pf, RemoveChain(id), true);
    var ids := ChainIds(pf.chains);
    var k := IndexOf(ids, id);
    var i0 :| 0 <= i0 < |pf.chains| && pf.chains[i0].id == id;
    assert ids[i0] == id == ids[k] && ids[k] > 0;
    forall j | 0 <= j < |pf'.chains| ensures pf'.chains[j].id != id {
      var j' := if j < k then j else j + 1;
      assert pf'.chains[j] == pf.chains[j'] && ids[j'] != ids[k];
    }
    forall i | 0 <= i < |pf'.rules| ensures !TargetsChain(pf'.rules[i], id) {
      assert pf'.rules[i] == RepairRule(pf.rules[i], ChainTarget, id);
    }
  }

  // With no rule listed the default one decides, here through proxy 1.
  lemma DefaultDecides(ps: seq<Proxy>, q: Query)
    ensures var pf := ThroughOne(ps);
      Decide(pf, q).verdict == GoProxy
      && Decide(pf, q).via == if Usable(ps, 1) then [FindProxy(ps, 1).value] else []
  {
    hide FindProxy, RuleMatches;
    SingleHop(ps, 1);
  }

  // A profile that sends everything through proxy 1.
  function ThroughOne(ps: seq<Proxy>): Profile {
    INITIAL.(proxies := ps, nextId := 2,
             defaultRule := INITIAL.defaultRule.(action := ViaProxy, targetKind := ProxyTarget, targetId := 1))
  }

  // The failing input: a default rule through the only proxy keeps naming it
  // after its removal. Resolution then proxies through nothing, so the flow is
  // refused rather than sent direct.
  lemma DefaultRuleDangles(q: Query)
    ensures var p := NEW_PROXY.(id := 1);
      var pf := ThroughOne([p]);
      var pf' := Apply(pf, RemoveProxy(1), true);
      && WellFormed(pf) && Decide(pf, q).via == [p]
      && Mentions(pf', 1) && Decide(pf', q).verdict == GoProxy && Decide(pf', q).via == []
  {
    hide Decide;
    var p := NEW_PROXY.(id := 1);
    var pf := ThroughOne([p]);
    assert FindProxy([p], 1) == Some(p) && FindProxy([], 1) == None;
    DefaultDecides([p], q);
    DefaultDecides([], q);
    OnlyProxyRemoved(p);
  }

  lemma OnlyProxyRemoved(p: Proxy)
    requires p.id == 1
    ensures Apply(ThroughOne([p]), RemoveProxy(1), true) == ThroughOne([])
  {
    assert RepairChains([], 1) == [] && RepairRules([], ProxyTarget, 1) == [];
  }

  // The same input for chains: the default rule sends everything through chain
  // 2, whose only hop is proxy 1, and keeps naming it once it is removed.
  lemma DefaultChainDangles(q: Query)
    ensures var p, c := NEW_PROXY.(id := 1), NEW_CHAIN.(id := 2, hops := [1]);
      var pf := ThroughChain([p], [c]);
      var pf' := Apply(pf, RemoveChain(2), true);
      && WellFormed(pf) && Decide(pf, q).via == [p]
      && MentionsChain(pf', 2) && Decide(pf', q).verdict == GoProxy && Decide(pf', q).via == []
  {
    hide Decide;
    var p, c := NEW_PROXY.(id := 1), NEW_CHAIN.(id := 2, hops := [1]);
    assert FindProxy([p], 1) == Some(p) && FindChain([c], 2) == Some(c);
    ChainDecides([p], [c], q);
    ChainDecides([p], [], q);
    SingleHop([p], 1);
    OnlyChainRemoved(p, c);
  }

  // A profile that sends everything through chain 2.
  function ThroughChain(ps: seq<Proxy>, cs: seq<Chain>): Profile {
    INITIAL.(proxies := ps, chains := cs, nextId := 3,
             defaultRule := INITIAL.defaultRule.(action := ViaProxy, targetKind := ChainTarget, targetId := 2))
  }

  lemma ChainDecides(ps: seq<Proxy>, cs: seq<Chain>, q: Query)
    ensures var pf := ThroughChain(ps, cs);
      Decide(pf, q).verdict == GoProxy && Decide(pf, q).via == Via(pf, ChainTarget, 2)
  {
    hide RuleMatches, Via;
  }

  lemma OnlyChainRemoved(p: Proxy, c: Chain)
    requires c.id == 2
    ensures Apply(ThroughChain([p], [c]), RemoveChain(2), true) == ThroughChain([p], [])
  {
    assert RepairRules([], ChainTarget, 2) == [];
  }
}
