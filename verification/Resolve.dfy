// pmx_rule_matches and pmx_resolve_with_profile: first matching rule wins, and
// a target resolves to all of its hops or to none.

module Resolve {
  import opened Types
  import opened Model
  import Glob
  import Lists
  import PortSpec

  function TextOf(o: Option<string>): string {
    if o.Some? then o.value else ""
  }

  // ---- rules -------------------------------------------------------------------

  ghost predicate RuleMatches(r: Rule, q: Query) {
    && (r.appPattern == [] || Glob.ListMatches(r.appPattern, TextOf(q.appName), true)
                           || Glob.ListMatches(r.appPattern, TextOf(q.appPath), true))
    && (r.hostPattern == [] || Glob.ListMatches(r.hostPattern, TextOf(q.host), true))
    && (r.portSpec == [] || PortSpec.Covered(PortSpec.Scanned(r.portSpec, 0), q.port))
  }

  // pmx_rule_matches
  method MatchRule(r: Rule, q: Query) returns (b: bool)
    ensures b <==> RuleMatches(r, q)
  {
    hide Glob.ListMatches, PortSpec.Covered, PortSpec.Scanned;
    if r.appPattern != [] {
      var appOk := Glob.GlobListMatch(Some(r.appPattern), q.appName, true);
      if !appOk { appOk := Glob.GlobListMatch(Some(r.appPattern), q.appPath, true); }
      if !appOk { return false; }
    }
    if r.hostPattern != [] {
      var hostOk := Glob.GlobListMatch(Some(r.hostPattern), q.host, true);
      if !hostOk { return false; }
    }
    if r.portSpec != [] {
      var portOk := PortSpec.Match(r.portSpec, q.port);
      if !portOk { return false; }
    }
    return true;
  }

  // The deciding rule: the first enabled match, else the default.
  ghost function Chosen(rules: seq<Rule>, default: Rule, q: Query): Rule {
    if rules == [] then default
    else if rules[0].enabled && RuleMatches(rules[0], q) then rules[0]
    else Chosen(rules[1..], default, q)
  }

  // ---- targets -------------------------------------------------------------------

  function FindProxy(ps: seq<Proxy>, id: Id): (r: Option<Proxy>)
    ensures r.Some? ==> r.value in ps && r.value.id == id && id != ID_NONE
  {
    if ps == [] || id == ID_NONE then None
    else if ps[0].id == id then Some(ps[0])
    else FindProxy(ps[1..], id)
  }

  function FindChain(cs: seq<Chain>, id: Id): (r: Option<Chain>)
    ensures r.Some? ==> r.value in cs && r.value.id == id
  {
    if cs == [] then None
    else if cs[0].id == id then Some(cs[0])
    else FindChain(cs[1..], id)
  }

  predicate Usable(ps: seq<Proxy>, id: Id) {
    FindProxy(ps, id).Some? && FindProxy(ps, id).value.enabled
  }

  // The proxies the target names, in order; None when the target is missing,
  // disabled or empty.
  function NamedHops(pf: Profile, kind: TargetKind, id: Id): Option<Hops> {
    match kind
    case NoTarget => None
    case ProxyTarget => Some([id])
    case ChainTarget =>
      match FindChain(pf.chains, id)
      case None => None
      case Some(c) => if c.enabled && c.hops != [] then Some(c.hops) else None
  }

  predicate IsRedundancy(pf: Profile, kind: TargetKind, id: Id) {
    kind == ChainTarget && FindChain(pf.chains, id).Some? && FindChain(pf.chains, id).value.mode == Redundancy
  }

  predicate AllUsable(ps: seq<Proxy>, hops: seq<Id>) {
    forall i :: 0 <= i < |hops| ==> Usable(ps, hops[i])
  }

  function ProxiesOf(ps: seq<Proxy>, hops: seq<Id>): (r: seq<Proxy>)
    requires AllUsable(ps, hops)
    ensures |r| == |hops|
    ensures forall i :: 0 <= i < |r| ==> FindProxy(ps, hops[i]) == Some(r[i]) && r[i].enabled
  {
    seq(|hops|, i requires 0 <= i < |hops| => FindProxy(ps, hops[i]).value)
  }

  // What the user asked for: every hop of a path, the first of a set of
  // alternatives, and nothing at all when a single hop is unusable.
  function Via(pf: Profile, kind: TargetKind, id: Id): seq<Proxy> {
    match NamedHops(pf, kind, id)
    case None => []
    case Some(hops) =>
      if !AllUsable(pf.proxies, hops) then []
      else if IsRedundancy(pf, kind, id) then ProxiesOf(pf.proxies, hops)[..1]
      else ProxiesOf(pf.proxies, hops)
  }

  function HopsAsked(pf: Profile, kind: TargetKind, id: Id): nat {
    match NamedHops(pf, kind, id)
    case None => 0
    case Some(hops) =>
      if AllUsable(pf.proxies, hops) && IsRedundancy(pf, kind, id) then 1 else |hops|
  }

  ghost function Decide(pf: Profile, q: Query): Decision {
    var r := Chosen(pf.rules, pf.defaultRule, q);
    match r.action
    case Direct => Decision(GoDirect, NoTarget, ID_NONE, r.name, [], 0)
    case Block => Decision(Refuse, NoTarget, ID_NONE, r.name, [], 0)
    case ViaProxy => Decision(GoProxy, r.targetKind, r.targetId, r.name,
                              Via(pf, r.targetKind, r.targetId), HopsAsked(pf, r.targetKind, r.targetId))
  }

  method LookupProxy(ps: seq<Proxy>, id: Id) returns (r: Option<Proxy>)
    ensures r == FindProxy(ps, id)
  {
    if id == ID_NONE { return None; }
    var i := 0;
    while i < |ps|
      invariant i <= |ps| && FindProxy(ps, id) == FindProxy(ps[i..], id)
    {
      if ps[i].id == id { return Some(ps[i]); }
      assert ps[i..][1..] == ps[i + 1..];
      i := i + 1;
    }
    return None;
  }

  method LookupChain(cs: seq<Chain>, id: Id) returns (r: Option<Chain>)
    ensures r == FindChain(cs, id)
  {
    var i := 0;
    while i < |cs|
      invariant i <= |cs| && FindChain(cs, id) == FindChain(cs[i..], id)
    {
      if cs[i].id == id { return Some(cs[i]); }
      assert cs[i..][1..] == cs[i + 1..];
      i := i + 1;
    }
    return None;
  }

  // The rule loop of pmx_resolve_with_profile.
  method ChooseRule(rules: seq<Rule>, default: Rule, q: Query) returns (r: Rule)
    ensures r == Chosen(rules, default, q)
  {
    hide RuleMatches;
    assert rules[0..] == rules;
    var i := 0;
    while i < |rules|
      invariant i <= |rules| && Chosen(rules, default, q) == Chosen(rules[i..], default, q)
    {
      if rules[i].enabled {
        var hit := MatchRule(rules[i], q);
        if hit { return rules[i]; }
      }
      assert rules[i..][1..] == rules[i + 1..];
      i := i + 1;
    }
    return default;
  }

  // The hop loop: collect every hop, or drop them all at the first bad one.
  method CollectHops(ps: seq<Proxy>, hops: Hops) returns (via: seq<Proxy>)
    ensures via == if AllUsable(ps, hops) then ProxiesOf(ps, hops) else []
  {
    hide FindProxy;
    via := [];
    var i := 0;
    while i < |hops| && i < MAX_CHAIN_HOPS
      invariant 0 <= i == |via| <= |hops|
      invariant forall k :: 0 <= k < i ==> Usable(ps, hops[k]) && FindProxy(ps, hops[k]) == Some(via[k])
    {
      var hp := LookupProxy(ps, hops[i]);
      if hp.None? || !hp.value.enabled { return []; }
      via := via + [hp.value];
      i := i + 1;
    }
  }

  lemma SingleHop(ps: seq<Proxy>, id: Id)
    ensures AllUsable(ps, [id]) <==> Usable(ps, id)
    ensures Usable(ps, id) ==> ProxiesOf(ps, [id]) == [FindProxy(ps, id).value]
  {
    assert [id][0] == id;
  }

  // pmx_resolve_with_profile
  method ResolveQuery(pf: Profile, q: Query) returns (d: Decision)
    ensures d == Decide(pf, q)
  {
    hide Chosen, FindProxy, FindChain, ProxiesOf;
    var r := ChooseRule(pf.rules, pf.defaultRule, q);
    match r.action {
      case Direct => return Decision(GoDirect, NoTarget, ID_NONE, r.name, [], 0);
      case Block => return Decision(Refuse, NoTarget, ID_NONE, r.name, [], 0);
      case ViaProxy =>
    }
    var via: seq<Proxy> := [];
    var hopCount := 0;
    if r.targetKind == ProxyTarget {
      var p := LookupProxy(pf.proxies, r.targetId);
      hopCount := 1;
      if p.Some? && p.value.enabled { via := [p.value]; }
      SingleHop(pf.proxies, r.targetId);
    } else if r.targetKind == ChainTarget {
      var c := LookupChain(pf.chains, r.targetId);
      if c.Some? && c.value.enabled && |c.value.hops| > 0 {
        hopCount := |c.value.hops|;
        via := CollectHops(pf.proxies, c.value.hops);
        if c.value.mode == Redundancy && |via| > 1 {
          via := via[..1];
          hopCount := 1;
        }
      }
    }
    d := Decision(GoProxy, r.targetKind, r.targetId, r.name, via, hopCount);
    assert via == Via(pf, r.targetKind, r.targetId);
  }

  // ---- what a decision promises ----------------------------------------------------

  // Exactly the hops the target named, each usable: never a shortened path.
  ghost predicate IsWholeTarget(pf: Profile, kind: TargetKind, id: Id, via: seq<Proxy>) {
    match NamedHops(pf, kind, id)
    case None => false
    case Some(hops) =>
      && AllUsable(pf.proxies, hops)
      && |via| == (if IsRedundancy(pf, kind, id) then 1 else |hops|)
      && forall i :: 0 <= i < |via| ==> via[i].id == hops[i] && via[i].enabled && via[i] in pf.proxies
  }

  // A proxy decision carries the whole target or nothing, and the latter
  // exactly when some named hop is missing or disabled (or nothing is named).
  lemma AllOrNothing(pf: Profile, q: Query)
    requires Decide(pf, q).verdict == GoProxy
    ensures var d := Decide(pf, q);
      && (d.via == [] <==> !(exists hops :: NamedHops(pf, d.targetKind, d.targetId) == Some(hops)
                                            && AllUsable(pf.proxies, hops)))
      && (d.via != [] ==> IsWholeTarget(pf, d.targetKind, d.targetId, d.via) && |d.via| == d.hopCount)
      && |d.via| <= MAX_CHAIN_HOPS
  {
    var d := Decide(pf, q);
    hide Chosen, RuleMatches;
    match NamedHops(pf, d.targetKind, d.targetId) {
      case None =>
      case Some(hops) =>
        if AllUsable(pf.proxies, hops) {
          var all := ProxiesOf(pf.proxies, hops);
          hide FindProxy;
          forall i | 0 <= i < |hops| ensures all[i].id == hops[i] && all[i] in pf.proxies && all[i].enabled {
            assert FindProxy(pf.proxies, hops[i]) == Some(all[i]);
          }
        }
    }
  }

  // ---- rule order ------------------------------------------------------------------

  // A rule that cannot decide a query may stand anywhere.
  lemma {:induction false} InertRule(rules: seq<Rule>, default: Rule, q: Query, i: nat)
    requires i < |rules| && !(rules[i].enabled && RuleMatches(rules[i], q))
    ensures Chosen(rules, default, q) == Chosen(Lists.RemoveAt(rules, i), default, q)
  {
    hide RuleMatches;
    var rest := Lists.RemoveAt(rules, i);
    if i == 0 {
      assert rest == rules[1..];
    } else {
      assert rest[0] == rules[0] && rest[1..] == Lists.RemoveAt(rules[1..], i - 1);
      InertRule(rules[1..], default, q, i - 1);
    }
  }

  // Reordering is local: a query the moved rule does not decide is answered the
  // same before and after.
  lemma MoveKeepsOtherDecisions(pf: Profile, q: Query, from: nat, to: nat)
    requires from < |pf.rules| && to < |pf.rules|
    requires !(pf.rules[from].enabled && RuleMatches(pf.rules[from], q))
    ensures Decide(pf.(rules := Lists.Moved(pf.rules, from, to)), q) == Decide(pf, q)
  {
    hide RuleMatches;
    var moved := Lists.Moved(pf.rules, from, to);
    Lists.MoveIsLocal(pf.rules, from, to);
    InertRule(pf.rules, pf.defaultRule, q, from);
    InertRule(moved, pf.defaultRule, q, to);
  }

  // ---- what a rule and a decision mean ------------------------------------------------

  // A rule without criteria matches everything, and each criterion narrows the
  // rule by exactly its own test: the application by name or path, the host by
  // its text, the port by the union a written spec stands for.
  lemma EachCriterionCounts(r: Rule, q: Query)
    ensures r.appPattern == [] && r.hostPattern == [] && r.portSpec == [] ==> RuleMatches(r, q)
    ensures r.appPattern != [] ==>
      var byName := Glob.ListMatches(r.appPattern, TextOf(q.appName), true);
      var byPath := Glob.ListMatches(r.appPattern, TextOf(q.appPath), true);
      (RuleMatches(r, q) <==> RuleMatches(r.(appPattern := []), q) && (byName || byPath))
    ensures r.hostPattern != [] ==>
      var byHost := Glob.ListMatches(r.hostPattern, TextOf(q.host), true);
      (RuleMatches(r, q) <==> RuleMatches(r.(hostPattern := []), q) && byHost)
  {
    hide Glob.ListMatches, PortSpec.Covered, PortSpec.Scanned;
  }

  lemma PortCriterionCounts(r: Rule, q: Query, its: seq<PortSpec.Item>)
    requires its != [] && r.portSpec == PortSpec.Text(its)
    ensures var byPort := exists i :: 0 <= i < |its| && PortSpec.Includes(its[i], q.port);
      (RuleMatches(r, q) <==> RuleMatches(r.(portSpec := []), q) && byPort)
  {
    PortSpec.WrittenSpecMatchesUnion(its, q.port);
    hide Glob.ListMatches, PortSpec.Covered, PortSpec.Scanned;
  }

  lemma {:induction false} ChosenAt(rules: seq<Rule>, default: Rule, q: Query, i: nat)
    requires i <= |rules| && forall j :: 0 <= j < i ==> !(rules[j].enabled && RuleMatches(rules[j], q))
    requires i < |rules| ==> rules[i].enabled && RuleMatches(rules[i], q)
    ensures Chosen(rules, default, q) == if i < |rules| then rules[i] else default
  {
    hide RuleMatches;
    if i > 0 { ChosenAt(rules[1..], default, q, i - 1); }
  }

  // The first enabled rule that matches decides, or the default when none does,
  // and the decision does what that rule says.
  lemma FirstMatchDecides(pf: Profile, q: Query, i: nat)
    requires i <= |pf.rules| && forall j :: 0 <= j < i ==> !(pf.rules[j].enabled && RuleMatches(pf.rules[j], q))
    requires i < |pf.rules| ==> pf.rules[i].enabled && RuleMatches(pf.rules[i], q)
    ensures var r := if i < |pf.rules| then pf.rules[i] else pf.defaultRule;
      var d := Decide(pf, q);
      && (d.verdict == Refuse <==> r.action == Block)
      && (d.verdict == GoDirect <==> r.action == Direct)
      && (d.verdict == GoProxy <==> r.action == ViaProxy)
      && d.ruleName == r.name
      && (r.action == ViaProxy ==> d.targetKind == r.targetKind && d.targetId == r.targetId)
      && (r.action != ViaProxy ==> d.via == [] && d.targetKind == NoTarget)
  {
    ChosenAt(pf.rules, pf.defaultRule, q, i);
    hide Chosen, RuleMatches, Via, HopsAsked;
  }

  // ---- what a target means -----------------------------------------------------------------

  // Proxy p is what id names: the first proxy with it, never for the none id.
  ghost predicate Names(ps: seq<Proxy>, id: Id, p: Proxy) {
    exists x :: 0 <= x < |ps| && ps[x] == p && p.id == id != ID_NONE && forall y :: 0 <= y < x ==> ps[y].id != id
  }

  // The id names a proxy that is enabled.
  ghost predicate NamesEnabled(ps: seq<Proxy>, id: Id) {
    exists p :: Names(ps, id, p) && p.enabled
  }

  lemma {:induction false} FoundIsNamed(ps: seq<Proxy>, id: Id)
    ensures FindProxy(ps, id).Some? ==> Names(ps, id, FindProxy(ps, id).value)
    ensures FindProxy(ps, id).None? ==> id == ID_NONE || forall x :: 0 <= x < |ps| ==> ps[x].id != id
  {
    if ps != [] && id != ID_NONE {
      if ps[0].id != id {
        FoundIsNamed(ps[1..], id);
        if FindProxy(ps[1..], id).Some? {
          var p := FindProxy(ps[1..], id).value;
          var x :| 0 <= x < |ps[1..]| && ps[1..][x] == p && forall y :: 0 <= y < x ==> ps[1..][y].id != id;
          assert ps[x + 1] == p;
          forall y | 0 <= y < x + 1 ensures ps[y].id != id { if y > 0 { assert ps[1..][y - 1] == ps[y]; } }
        } else {
          forall x | 0 <= x < |ps| ensures ps[x].id != id { if x > 0 { assert ps[1..][x - 1] == ps[x]; } }
        }
      }
    }
  }

  lemma NamedIsFound(ps: seq<Proxy>, id: Id, p: Proxy)
    requires Names(ps, id, p)
    ensures FindProxy(ps, id) == Some(p)
  {
    FoundIsNamed(ps, id);
    var x :| 0 <= x < |ps| && ps[x] == p && p.id == id != ID_NONE && forall y :: 0 <= y < x ==> ps[y].id != id;
    var f := FindProxy(ps, id).value;
    var z :| 0 <= z < |ps| && ps[z] == f && f.id == id && forall y :: 0 <= y < z ==> ps[y].id != id;
    assert x == z;
  }

  // A rule through one proxy goes through it when it is there and enabled.
  lemma ProxyTargetMeans(pf: Profile, id: Id, p: Proxy)
    ensures Names(pf.proxies, id, p) ==>
      Via(pf, ProxyTarget, id) == (if p.enabled then [p] else []) && HopsAsked(pf, ProxyTarget, id) == 1
    ensures id == ID_NONE || (forall x :: 0 <= x < |pf.proxies| ==> pf.proxies[x].id != id) ==>
      Via(pf, ProxyTarget, id) == [] && HopsAsked(pf, ProxyTarget, id) == 1
    ensures Via(pf, NoTarget, id) == [] && HopsAsked(pf, NoTarget, id) == 0
  {
    SingleHop(pf.proxies, id);
    FoundIsNamed(pf.proxies, id);
    if Names(pf.proxies, id, p) { NamedIsFound(pf.proxies, id, p); }
  }

  lemma {:induction false} FindChainAt(cs: seq<Chain>, k: nat)
    requires k < |cs| && forall j :: 0 <= j < k ==> cs[j].id != cs[k].id
    ensures FindChain(cs, cs[k].id) == Some(cs[k])
  {
    if k > 0 { FindChainAt(cs[1..], k - 1); }
  }

  // A rule through a chain: nothing when it is disabled or empty or one of its
  // hops names no enabled proxy, otherwise the proxies its hops name, all of them
  // in order for a path and the first for alternatives.
  lemma ChainTargetMeans(pf: Profile, k: nat)
    requires k < |pf.chains| && forall j :: 0 <= j < k ==> pf.chains[j].id != pf.chains[k].id
    ensures var c := pf.chains[k];
      var via, n := Via(pf, ChainTarget, c.id), HopsAsked(pf, ChainTarget, c.id);
      && (!c.enabled || c.hops == [] ==> via == [] && n == 0)
      && (c.enabled && c.hops != [] ==>
            if forall i :: 0 <= i < |c.hops| ==> NamesEnabled(pf.proxies, c.hops[i])
            then |via| == n == (if c.mode == Sequential then |c.hops| else 1)
                 && forall i :: 0 <= i < n ==> Names(pf.proxies, c.hops[i], via[i]) && via[i].enabled
            else via == [] && n == |c.hops|)
  {
    var c, ps := pf.chains[k], pf.proxies;
    FindChainAt(pf.chains, k);
    forall i | 0 <= i < |c.hops|
      ensures Usable(ps, c.hops[i]) <==> NamesEnabled(ps, c.hops[i])
      ensures Usable(ps, c.hops[i]) ==> Names(ps, c.hops[i], FindProxy(ps, c.hops[i]).value)
    {
      FoundIsNamed(ps, c.hops[i]);
      if p :| Names(ps, c.hops[i], p) && p.enabled { NamedIsFound(ps, c.hops[i], p); }
    }
    assert AllUsable(ps, c.hops) <==> forall i :: 0 <= i < |c.hops| ==> NamesEnabled(ps, c.hops[i]);
    hide Names, NamesEnabled, FindProxy, Usable;
  }
}
