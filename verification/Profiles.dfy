// Editing a profile: growing lists, removal with reference repair, the
// all-or-nothing copy, and what edits keep over whole runs.

module Profiles {
  import opened Types
  import opened Model
  import opened Lists

  // ---- edits as functions --------------------------------------------------------

  // Proxies, rules, chains and VPNs are added with defaults and then filled in
  // place by the editor, and so is the default rule; a filling keeps the id. A
  // VPN may also be imported from a parsed config.
  datatype Edit =
    | AddProxy
    | FillProxy(at: nat, proxy: Proxy)
    | RemoveProxy(id: Id)
    | AddRule
    | FillRule(at: nat, rule: Rule)
    | RemoveRule(id: Id)
    | MoveRule(from: nat, to: nat)
    | AddChain
    | FillChain(at: nat, chain: Chain)
    | RemoveChain(id: Id)
    | AddVpn
    | ImportVpn(vpn: Vpn)
    | FillVpn(at: nat, vpn: Vpn)
    | RemoveVpn(id: Id)
    | FillDefault(rule: Rule)

  function ProxyIds(ps: seq<Proxy>): seq<Id> {
    seq(|ps|, i requires 0 <= i < |ps| => ps[i].id)
  }

  function RuleIds(rs: seq<Rule>): seq<Id> {
    seq(|rs|, i requires 0 <= i < |rs| => rs[i].id)
  }

  function ChainIds(cs: seq<Chain>): seq<Id> {
    seq(|cs|, i requires 0 <= i < |cs| => cs[i].id)
  }

  function VpnIds(vs: seq<Vpn>): seq<Id> {
    seq(|vs|, i requires 0 <= i < |vs| => vs[i].id)
  }

  // Position of the first object with this id, or the list length.
  function IndexOf(ids: seq<Id>, id: Id): (i: nat)
    ensures i <= |ids| && (i < |ids| ==> ids[i] == id) && forall j :: 0 <= j < i ==> ids[j] != id
  {
    if ids == [] || ids[0] == id then 0 else 1 + IndexOf(ids[1..], id)
  }

  lemma IsIndex(ids: seq<Id>, id: Id, i: nat)
    requires i <= |ids| && (i < |ids| ==> ids[i] == id) && forall j :: 0 <= j < i ==> ids[j] != id
    ensures IndexOf(ids, id) == i
  {
  }

  // A path keeps its length when a hop's proxy goes; a set of alternatives
  // shrinks.
  function RepairChain(c: Chain, id: Id): Chain {
    c.(hops := if c.mode == Redundancy then Without(c.hops, id) else Replaced(c.hops, id, ID_NONE))
  }

  function RepairRule(r: Rule, kind: TargetKind, id: Id): Rule {
    if r.targetKind == kind && r.targetId == id then r.(targetId := ID_NONE) else r
  }

  function RepairChains(cs: seq<Chain>, id: Id): (r: seq<Chain>)
    ensures |r| == |cs|
  {
    seq(|cs|, i requires 0 <= i < |cs| => RepairChain(cs[i], id))
  }

  function RepairRules(rs: seq<Rule>, kind: TargetKind, id: Id): (r: seq<Rule>)
    ensures |r| == |rs|
  {
    seq(|rs|, i requires 0 <= i < |rs| => RepairRule(rs[i], kind, id))
  }

  function WithoutProxy(pf: Profile, id: Id): Profile {
    var i := IndexOf(ProxyIds(pf.proxies), id);
    if i == |pf.proxies| then pf
    else pf.(proxies := RemoveAt(pf.proxies, i),
             chains := RepairChains(pf.chains, id),
             rules := RepairRules(pf.rules, ProxyTarget, id))
  }

  function WithoutChain(pf: Profile, id: Id): Profile {
    var i := IndexOf(ChainIds(pf.chains), id);
    if i == |pf.chains| then pf
    else pf.(chains := RemoveAt(pf.chains, i), rules := RepairRules(pf.rules, ChainTarget, id))
  }

  function WithoutRule(pf: Profile, id: Id): Profile {
    var i := IndexOf(RuleIds(pf.rules), id);
    if i == |pf.rules| then pf else pf.(rules := RemoveAt(pf.rules, i))
  }

  function WithoutVpn(pf: Profile, id: Id): Profile {
    var i := IndexOf(VpnIds(pf.vpns), id);
    if i == |pf.vpns| then pf else pf.(vpns := RemoveAt(pf.vpns, i))
  }

  // The next id to hand out; 0 is never an object.
  function FreshId(nextId: Id): Id {
    if nextId == ID_NONE then 1 else nextId
  }

  // ok is the allocator's answer when a list has to grow; a failed edit, an
  // unknown id and an index out of range change nothing.
  function Apply(pf: Profile, e: Edit, ok: bool): Profile {
    var id := FreshId(pf.nextId);
    match e
    case AddProxy =>
      if ok then pf.(proxies := pf.proxies + [NEW_PROXY.(id := id)], nextId := id + 1) else pf
    case FillProxy(i, p) =>
      if i < |pf.proxies| then pf.(proxies := pf.proxies[i := p.(id := pf.proxies[i].id)]) else pf
    case RemoveProxy(id) => WithoutProxy(pf, id)
    case AddRule =>
      if ok then pf.(rules := pf.rules + [NEW_RULE.(id := id)], nextId := id + 1) else pf
    case FillRule(i, r) =>
      if i < |pf.rules| then pf.(rules := pf.rules[i := r.(id := pf.rules[i].id)]) else pf
    case RemoveRule(id) => WithoutRule(pf, id)
    case MoveRule(f, t) =>
      if f < |pf.rules| && t < |pf.rules| then pf.(rules := Moved(pf.rules, f, t)) else pf
    case AddChain =>
      if ok then pf.(chains := pf.chains + [NEW_CHAIN.(id := id)], nextId := id + 1) else pf
    case FillChain(i, c) =>
      if i < |pf.chains| then pf.(chains := pf.chains[i := c.(id := pf.chains[i].id)]) else pf
    case RemoveChain(id) => WithoutChain(pf, id)
    case AddVpn =>
      if ok then pf.(vpns := pf.vpns + [NEW_VPN.(id := id)], nextId := id + 1) else pf
    case ImportVpn(v) =>
      if ok then pf.(vpns := pf.vpns + [v.(id := id)], nextId := id + 1) else pf
    case FillVpn(i, v) =>
      if i < |pf.vpns| then pf.(vpns := pf.vpns[i := v.(id := pf.vpns[i].id)]) else pf
    case RemoveVpn(id) => WithoutVpn(pf, id)
    case FillDefault(r) => pf.(defaultRule := r.(id := pf.defaultRule.id))
  }

  // ---- the mutable profile ----------------------------------------------------------

  // PMX_GROW: double the capacity when the list is full.
  method Grow(count: nat, cap: nat, alloc: bool) returns (ok: bool, cap': nat)
    requires count <= cap
    ensures ok <==> (count < cap || alloc)
    ensures cap' >= cap && (ok ==> count < cap')
  {
    if count < cap || !alloc { return count < cap, cap; }
    return true, if cap == 0 then 8 else cap * 2;
  }

  // PMX_RESERVE_ARRAY: enough room for `need` elements, or failure with the
  // capacity untouched.
  method Reserve(cap: nat, need: nat, alloc: bool) returns (ok: bool, cap': nat)
    ensures ok <==> (need <= cap || alloc)
    ensures if ok then cap' >= need && cap' >= cap else cap' == cap
  {
    if need <= cap { return true, cap; }
    var nc := if cap != 0 then cap else 8;
    while nc < need
      invariant nc > 0 && nc >= cap
      decreases need - nc
    {
      nc := nc * 2;
    }
    if !alloc { return false, cap; }
    return true, nc;
  }

  // Each list is its live elements plus the allocated capacity.
  class ProfileStore {
    var title: string
    var path: string
    var proxies: seq<Proxy>
    var proxyCap: nat
    var rules: seq<Rule>
    var ruleCap: nat
    var chains: seq<Chain>
    var chainCap: nat
    var vpns: seq<Vpn>
    var vpnCap: nat
    var defaultRule: Rule
    var policy: Policy
    var settings: Settings
    var nextId: Id

    ghost predicate Valid()
      reads this
    {
      |proxies| <= proxyCap && |rules| <= ruleCap && |chains| <= chainCap && |vpns| <= vpnCap
    }

    function View(): Profile
      reads this
    {
      Profile(title, path, proxies, rules, chains, vpns, defaultRule, policy, settings, nextId)
    }

    // pmx_profile_init
    constructor ()
      ensures Valid() && View() == INITIAL
    {
      title, path := INITIAL.title, "";
      proxies, proxyCap, rules, ruleCap := [], 0, [], 0;
      chains, chainCap, vpns, vpnCap := [], 0, [], 0;
      defaultRule, policy, settings, nextId := INITIAL.defaultRule, INITIAL.policy, INITIAL.settings, 1;
    }

    // pmx_profile_next_id
    method TakeId() returns (id: Id)
      modifies this`nextId
      ensures id == FreshId(old(nextId)) != 0 && nextId == id + 1
      ensures old(nextId) > 0 ==> id == old(nextId)
    {
      if nextId == ID_NONE { nextId := 1; }
      id := nextId;
      nextId := nextId + 1;
    }

    // pmx_profile_add_proxy
    method AddProxy(alloc: bool) returns (ok: bool)
      requires Valid()
      modifies this
      ensures Valid() && View() == Apply(old(View()), Edit.AddProxy, ok)
      ensures ok <==> old(|proxies| < proxyCap) || alloc
    {
      ok, proxyCap := Grow(|proxies|, proxyCap, alloc);
      if !ok { return; }
      proxies := proxies + [NEW_PROXY];
      var id := TakeId();
      proxies := proxies[|proxies| - 1 := NEW_PROXY.(id := id)];
    }

    // pmx_profile_add_rule
    method AddRule(alloc: bool) returns (ok: bool)
      requires Valid()
      modifies this
      ensures Valid() && View() == Apply(old(View()), Edit.AddRule, ok)
      ensures ok <==> old(|rules| < ruleCap) || alloc
    {
      ok, ruleCap := Grow(|rules|, ruleCap, alloc);
      if !ok { return; }
      rules := rules + [NEW_RULE];
      var id := TakeId();
      rules := rules[|rules| - 1 := NEW_RULE.(id := id)];
    }

    // pmx_profile_add_chain
    method AddChain(alloc: bool) returns (ok: bool)
      requires Valid()
      modifies this
      ensures Valid() && View() == Apply(old(View()), Edit.AddChain, ok)
      ensures ok <==> old(|chains| < chainCap) || alloc
    {
      ok, chainCap := Grow(|chains|, chainCap, alloc);
      if !ok { return; }
      chains := chains + [NEW_CHAIN];
      var id := TakeId();
      chains := chains[|chains| - 1 := NEW_CHAIN.(id := id)];
    }

    // The fix-up of every rule that targets a removed object.
    method RepairAllRules(kind: TargetKind, id: Id)
      modifies this`rules
      ensures rules == RepairRules(old(rules), kind, id)
    {
      ghost var before := rules;
      var r := 0;
      while r < |rules|
        invariant r <= |rules| == |before|
        invariant forall i :: 0 <= i < |rules| ==>
          rules[i] == if i < r then RepairRule(before[i], kind, id) else before[i]
      {
        if rules[r].targetKind == kind && rules[r].targetId == id {
          rules := rules[r := rules[r].(targetId := ID_NONE)];
        }
        r := r + 1;
      }
    }

    // The fix-up of every chain that names a removed proxy.
    method RepairAllChains(id: Id)
      modifies this`chains
      ensures chains == RepairChains(old(chains), id)
    {
      ghost var before := chains;
      var c := 0;
      while c < |chains|
        invariant c <= |chains| == |before|
        invariant forall k :: 0 <= k < |chains| ==> chains[k] == if k < c then RepairChain(before[k], id) else before[k]
      {
        var hops: seq<Id>;
        if chains[c].mode == Redundancy {
          hops := Compact(chains[c].hops, id);
        } else {
          hops := Replace(chains[c].hops, id, ID_NONE);
        }
        chains := chains[c := chains[c].(hops := hops)];
        c := c + 1;
      }
    }

    // pmx_profile_remove_proxy
    method RemoveProxy(id: Id) returns (st: Status)
      requires Valid()
      modifies this
      ensures Valid() && View() == Apply(old(View()), Edit.RemoveProxy(id), true)
      ensures st == if exists p :: p in old(proxies) && p.id == id then Ok else ErrNotFound
    {
      var idx := |proxies|;
      var i := 0;
      while i < |proxies|
        invariant i <= |proxies| && idx == |proxies|
        invariant forall j :: 0 <= j < i ==> proxies[j].id != id
      {
        if proxies[i].id == id {
          idx := i;
          break;
        }
        i := i + 1;
      }
      IsIndex(ProxyIds(proxies), id, idx);
      if idx == |proxies| { return ErrNotFound; }
      assert proxies[idx] in proxies;
      proxies := ShiftOut(proxies, idx);
      RepairAllChains(id);
      RepairAllRules(ProxyTarget, id);
      return Ok;
    }

    // pmx_profile_remove_rule
    method RemoveRule(id: Id) returns (st: Status)
      requires Valid()
      modifies this
      ensures Valid() && View() == Apply(old(View()), Edit.RemoveRule(id), true)
      ensures st == if exists r :: r in old(rules) && r.id == id then Ok else ErrNotFound
    {
      var i := 0;
      while i < |rules|
        invariant i <= |rules| && View() == old(View())
        invariant forall j :: 0 <= j < i ==> rules[j].id != id
      {
        if rules[i].id == id {
          assert rules[i] in old(rules);
          IsIndex(RuleIds(rules), id, i);
          rules := ShiftOut(rules, i);
          return Ok;
        }
        i := i + 1;
      }
      IsIndex(RuleIds(rules), id, i);
      return ErrNotFound;
    }

    // pmx_profile_move_rule
    method MoveRule(from: nat, to: nat) returns (st: Status)
      requires Valid()
      modifies this
      ensures Valid() && View() == Apply(old(View()), Edit.MoveRule(from, to), true)
      ensures st == if from < |old(rules)| && to < |old(rules)| then Ok else ErrInvalidArg
    {
      if from >= |rules| || to >= |rules| { return ErrInvalidArg; }
      rules := Move(rules, from, to);
      return Ok;
    }

    // pmx_profile_remove_chain
    method RemoveChain(id: Id) returns (st: Status)
      requires Valid()
      modifies this
      ensures Valid() && View() == Apply(old(View()), Edit.RemoveChain(id), true)
      ensures st == if exists c :: c in old(chains) && c.id == id then Ok else ErrNotFound
    {
      var i := 0;
      while i < |chains|
        invariant i <= |chains| && View() == old(View())
        invariant forall j :: 0 <= j < i ==> chains[j].id != id
      {
        if chains[i].id == id {
          assert chains[i] in old(chains);
          IsIndex(ChainIds(chains), id, i);
          chains := ShiftOut(chains, i);
          RepairAllRules(ChainTarget, id);
          return Ok;
        }
        i := i + 1;
      }
      IsIndex(ChainIds(chains), id, i);
      return ErrNotFound;
    }

    // append_vpn and what its two callers put there
    method AppendVpn(v: Vpn, alloc: bool) returns (ok: bool)
      requires Valid()
      modifies this
      ensures Valid() && View() == Apply(old(View()), Edit.ImportVpn(v), ok)
      ensures ok <==> old(|vpns| < vpnCap) || alloc
    {
      ok, vpnCap := Grow(|vpns|, vpnCap, alloc);
      if !ok { return; }
      vpns := vpns + [v];
      var id := TakeId();
      vpns := vpns[|vpns| - 1 := v.(id := id)];
    }

    // pmx_profile_add_vpn
    method AddVpn(alloc: bool) returns (ok: bool)
      requires Valid()
      modifies this
      ensures Valid() && View() == Apply(old(View()), Edit.AddVpn, ok)
      ensures ok <==> old(|vpns| < vpnCap) || alloc
    {
      ok := AppendVpn(NEW_VPN, alloc);
    }

    // pmx_profile_import_vpn, with what reading the config file came to.
    method ImportVpn(parsed: Option<Vpn>, alloc: bool) returns (ok: bool)
      requires Valid()
      modifies this
      ensures Valid()
      ensures View() == if parsed.Some? then Apply(old(View()), Edit.ImportVpn(parsed.value), ok) else old(View())
      ensures ok <==> parsed.Some? && (old(|vpns| < vpnCap) || alloc)
    {
      ok := false;
      if parsed.Some? { ok := AppendVpn(parsed.value, alloc); }
    }

    // pmx_profile_remove_vpn
    method RemoveVpn(id: Id) returns (st: Status)
      requires Valid()
      modifies this
      ensures Valid() && View() == Apply(old(View()), Edit.RemoveVpn(id), true)
      ensures st == if exists v :: v in old(vpns) && v.id == id then Ok else ErrNotFound
    {
      var i := 0;
      while i < |vpns|
        invariant i <= |vpns| && View() == old(View())
        invariant forall j :: 0 <= j < i ==> vpns[j].id != id
      {
        if vpns[i].id == id {
          assert vpns[i] in old(vpns);
          IsIndex(VpnIds(vpns), id, i);
          vpns := ShiftOut(vpns, i);
          return Ok;
        }
        i := i + 1;
      }
      IsIndex(VpnIds(vpns), id, i);
      return ErrNotFound;
    }

    // The first pass of pmx_profile_copy: room for every list, or failure. The
    // lists themselves stay as they are. allocs answers the four allocations in
    // order.
    method ReserveAll(np: nat, nr: nat, nc: nat, nv: nat, allocs: (bool, bool, bool, bool)) returns (ok: bool)
      modifies this`proxyCap, this`ruleCap, this`chainCap, this`vpnCap
      ensures proxyCap >= old(proxyCap) && ruleCap >= old(ruleCap)
      ensures chainCap >= old(chainCap) && vpnCap >= old(vpnCap)
      ensures ok ==> np <= proxyCap && nr <= ruleCap && nc <= chainCap && nv <= vpnCap
      ensures allocs == (true, true, true, true) ==> ok
    {
      ok, proxyCap := Reserve(proxyCap, np, allocs.0);
      if !ok { return; }
      ok, ruleCap := Reserve(ruleCap, nr, allocs.1);
      if !ok { return; }
      ok, chainCap := Reserve(chainCap, nc, allocs.2);
      if !ok { return; }
      ok, vpnCap := Reserve(vpnCap, nv, allocs.3);
    }

    // pmx_profile_copy: every list is reserved before any of them is touched,
    // so a failed allocation leaves the destination's contents as they were.
    // Valid() on exit says each copied list fits its room.
    method CopyFrom(src: ProfileStore, allocs: (bool, bool, bool, bool)) returns (st: Status)
      requires Valid() && src.Valid()
      modifies this
      ensures Valid() && st in {Ok, ErrNoMemory}
      ensures View() == if st == Ok then old(src.View()) else old(View())
      ensures allocs == (true, true, true, true) ==> st == Ok
    {
      if src == this { return Ok; }
      var ok := ReserveAll(|src.proxies|, |src.rules|, |src.chains|, |src.vpns|, allocs);
      if !ok { return ErrNoMemory; }
      AssignAll(src.View());
      return Ok;
    }

    // The second pass: every list fits the room made for it.
    method AssignAll(v: Profile)
      requires |v.proxies| <= proxyCap && |v.rules| <= ruleCap && |v.chains| <= chainCap && |v.vpns| <= vpnCap
      modifies this
      ensures Valid() && View() == v
    {
      AssignRest(v);
      proxies, rules, chains, vpns := v.proxies, v.rules, v.chains, v.vpns;
    }

    method AssignRest(v: Profile)
      modifies this`title, this`path, this`defaultRule, this`policy, this`settings, this`nextId
      ensures View() == v.(proxies := proxies, rules := rules, chains := chains, vpns := vpns)
    {
      title, path := v.title, v.path;
      defaultRule, policy, settings, nextId := v.defaultRule, v.policy, v.settings, v.nextId;
    }
  }

  // ---- chain editing ------------------------------------------------------------

  class ChainEditor {
    var hops: Hops

    constructor (h: Hops)
      ensures hops == h
    {
      hops := h;
    }

    // pmx_chain_add_hop
    method AddHop(id: Id) returns (st: Status)
      modifies this
      ensures st == if id == 0 then ErrInvalidArg else if |old(hops)| >= 8 then ErrState else Ok
      ensures hops == if st == Ok then old(hops) + [id] else old(hops)
    {
      if id == ID_NONE { return ErrInvalidArg; }
      if |hops| >= MAX_CHAIN_HOPS { return ErrState; }
      hops := hops + [id];
      return Ok;
    }

    // pmx_chain_remove_hop
    method RemoveHop(index: nat) returns (st: Status)
      modifies this
      ensures st == if index < |old(hops)| then Ok else ErrInvalidArg
      ensures hops == if st == Ok then RemoveAt(old(hops), index) else old(hops)
    {
      if index >= |hops| { return ErrInvalidArg; }
      hops := ShiftOut(hops, index);
      return Ok;
    }

    // pmx_chain_move_hop
    method MoveHop(from: nat, to: nat) returns (st: Status)
      modifies this
      ensures st == if from < |old(hops)| && to < |old(hops)| then Ok else ErrInvalidArg
      ensures hops == if st == Ok then Moved(old(hops), from, to) else old(hops)
    {
      if from >= |hops| || to >= |hops| { return ErrInvalidArg; }
      hops := Move(hops, from, to);
      return Ok;
    }
  }
}
