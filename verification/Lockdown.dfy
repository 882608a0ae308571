// The kill switch: a hysteresis state machine driving a firewall that may
// refuse to engage.

module Lockdown {
  import opened Types
  import opened Model

  datatype LdState = Inactive | ArmedHealthy | TrippedBlocking | FailingOver | FailedOpen

  const MAX_ALLOWLIST := 32

  // ---- the controller as a value -------------------------------------------------

  // A firewall as its owner sees it: whether it blocks, what it lets through,
  // and how often it has been taken down.
  datatype Fw = Fw(engaged: bool, allow: seq<Endpoint>, releases: nat)

  datatype Ld = Ld(policy: Policy, fw: Option<Fw>, allow: seq<Endpoint>,
                   state: LdState, fails: nat, succ: nat, armed: bool)

  predicate ModeBlocks(m: Mode) {
    m == FailClosed || m == FailBackup
  }

  // A mode nobody recognises must block.
  function Sanitize(m: Mode): Mode {
    if m == Unknown then FailClosed else m
  }

  predicate Engaged(ld: Ld) {
    ld.fw.Some? && ld.fw.value.engaged
  }

  // Every firewall call of one step gets the same answer: accepts says whether
  // an engage would succeed.
  function EngageWith(ld: Ld, accepts: bool): Ld {
    if ld.fw.Some? && accepts then ld.(fw := Some(ld.fw.value.(engaged := true, allow := ld.allow))) else ld
  }

  predicate EngageFails(ld: Ld, accepts: bool) {
    !(ld.fw.Some? && accepts)
  }

  function Release(ld: Ld): Ld {
    if Engaged(ld) then ld.(fw := Some(Fw(false, [], ld.fw.value.releases + 1))) else ld
  }

  // Block unless already blocking; truth says which state to report.
  function BlockAs(ld: Ld, accepts: bool, blocking: LdState): Ld {
    if Engaged(ld) then ld.(state := blocking)
    else if EngageFails(ld, accepts) then ld.(state := FailedOpen)
    else EngageWith(ld, accepts).(state := blocking)
  }

  function Reconcile(ld0: Ld, accepts: bool): Ld {
    var ld := ld0.(fails := 0, succ := 0);
    match ld.policy.mode
    case Off => Release(ld).(state := Inactive)
    case FailClosed => BlockAs(ld, accepts, if ld.policy.blockUntilVerified then TrippedBlocking else ArmedHealthy)
    case FailBackup => BlockAs(ld, accepts, if ld.policy.blockUntilVerified then TrippedBlocking else ArmedHealthy)
    case FailOpen => Release(ld).(state := ArmedHealthy)
    case Unknown => Release(ld).(state := ArmedHealthy)
  }

  function SetPolicy(ld0: Ld, p: Policy, accepts: bool): Ld {
    var ld := ld0.(policy := p.(mode := Sanitize(p.mode)));
    if ld.armed && ld.policy.mode != ld0.policy.mode then Reconcile(ld, accepts) else ld
  }

  function SetAllowlist(ld0: Ld, eps: seq<Endpoint>, accepts: bool): Ld {
    var ld := ld0.(allow := if |eps| <= MAX_ALLOWLIST then eps else eps[..MAX_ALLOWLIST]);
    if ld.armed && Engaged(ld) then EngageWith(ld, accepts) else ld
  }

  function Arm(ld: Ld, accepts: bool): Ld {
    Reconcile(ld.(armed := true, policy := ld.policy.(mode := Sanitize(ld.policy.mode))), accepts)
  }

  function Disarm(ld: Ld): Ld {
    Release(ld.(armed := false)).(state := Inactive)
  }

  function Counted(ld: Ld, healthy: bool): Ld {
    if healthy then ld.(succ := ld.succ + 1, fails := 0) else ld.(fails := ld.fails + 1, succ := 0)
  }

  function Observe(ld0: Ld, healthy: bool, accepts: bool): Ld {
    if !ld0.armed || ld0.policy.mode == Off then ld0 else
    var ld := Counted(ld0, healthy);
    if healthy && ld.state != ArmedHealthy && ld.succ >= ld.policy.successesBeforeRestore then
      (if ld.policy.mode == FailOpen then Release(ld) else ld).(state := ArmedHealthy)
    else if !healthy && ld.state == ArmedHealthy && ld.fails >= ld.policy.failuresBeforeTrip then
      match ld.policy.mode
      case FailClosed => BlockAs(ld, accepts, TrippedBlocking)
      case FailBackup => BlockAs(ld, accepts, FailingOver)
      case FailOpen => Release(ld).(state := FailedOpen)
      case Off => ld
      case Unknown => ld
    else ld
  }

  // ---- the objects ------------------------------------------------------------------

  // A firewall backend: a successful engage blocks all but the list, a refused
  // one changes nothing, a disengage restores normal connectivity.
  class Firewall {
    var engaged: bool
    var allow: seq<Endpoint>
    ghost var releases: nat

    constructor ()
      ensures !engaged && allow == [] && releases == 0
    {
      engaged, allow, releases := false, [], 0;
    }

    method Engage(eps: seq<Endpoint>, accepts: bool) returns (st: Status)
      modifies this
      ensures st == if accepts then Ok else ErrFirewall
      ensures accepts ==> engaged && allow == eps && releases == old(releases)
      ensures !accepts ==> engaged == old(engaged) && allow == old(allow) && releases == old(releases)
    {
      if !accepts { return ErrFirewall; }
      engaged, allow := true, eps;
      return Ok;
    }

    method Disengage()
      modifies this
      ensures !engaged && allow == [] && releases == old(releases) + 1
    {
      engaged, allow, releases := false, [], releases + 1;
    }
  }

  class Controller {
    var policy: Policy
    const fw: Firewall?
    var allow: seq<Endpoint>
    var state: LdState
    var fails: nat
    var succ: nat
    var armed: bool

    ghost function View(): Ld
      reads this, fw
    {
      Ld(policy, if fw == null then None else Some(Fw(fw.engaged, fw.allow, fw.releases)),
         allow, state, fails, succ, armed)
    }

    // pmx_lockdown_create
    constructor (p: Policy, firewall: Firewall?)
      ensures fw == firewall
      ensures policy == p && allow == [] && state == Inactive && fails == 0 && succ == 0 && !armed
    {
      policy, fw, allow, state, fails, succ, armed := p, firewall, [], Inactive, 0, 0, false;
    }

    // apply_engage
    method ApplyEngage(accepts: bool) returns (st: Status)
      modifies fw
      ensures st == if EngageFails(old(View()), accepts) then ErrFirewall else Ok
      ensures View() == EngageWith(old(View()), accepts)
    {
      if fw == null { return ErrFirewall; }
      st := fw.Engage(allow, accepts);
    }

    method ReleaseIfEngaged()
      modifies fw
      ensures View() == Release(old(View()))
    {
      if fw != null && fw.engaged { fw.Disengage(); }
    }

    // Engage unless engaged already, and report `blocking` only if that holds.
    method Block(accepts: bool, blocking: LdState) returns (st: Status)
      modifies this`state, fw
      ensures View() == BlockAs(old(View()), accepts, blocking)
      ensures st == if !Engaged(old(View())) && EngageFails(old(View()), accepts) then ErrFirewall else Ok
    {
      st := Ok;
      if fw == null || !fw.engaged { st := ApplyEngage(accepts); }
      if st != Ok {
        state := FailedOpen;
        return;
      }
      state := blocking;
    }

    // lockdown_reconcile
    method DoReconcile(accepts: bool) returns (st: Status)
      modifies this, fw
      ensures View() == Reconcile(old(View()), accepts)
      ensures st != Ok ==> state == FailedOpen
    {
      fails := 0;
      succ := 0;
      if policy.mode == Off {
        ReleaseIfEngaged();
        state := Inactive;
        return Ok;
      }
      if ModeBlocks(policy.mode) {
        st := Block(accepts, if policy.blockUntilVerified then TrippedBlocking else ArmedHealthy);
        return;
      }
      ReleaseIfEngaged();
      state := ArmedHealthy;
      return Ok;
    }

    // pmx_lockdown_set_policy
    method DoSetPolicy(p: Policy, accepts: bool)
      modifies this, fw
      ensures View() == SetPolicy(old(View()), p, accepts)
    {
      var prev := policy.mode;
      policy := p;
      policy := policy.(mode := Sanitize(policy.mode));
      if armed && policy.mode != prev { var _ := DoReconcile(accepts); }
    }

    // pmx_lockdown_set_allowlist
    method DoSetAllowlist(eps: seq<Endpoint>, accepts: bool)
      modifies this, fw
      ensures View() == SetAllowlist(old(View()), eps, accepts)
    {
      allow := [];
      var i := 0;
      while i < |eps| && |allow| < MAX_ALLOWLIST
        invariant i <= |eps| && |allow| == i <= MAX_ALLOWLIST && allow == eps[..i]
        invariant View() == old(View()).(allow := allow)
      {
        allow := allow + [eps[i]];
        i := i + 1;
      }
      assert |eps| <= MAX_ALLOWLIST ==> eps[..i] == eps;
      if armed && fw != null && fw.engaged { var _ := ApplyEngage(accepts); }
    }

    // pmx_lockdown_arm
    method DoArm(accepts: bool) returns (st: Status)
      modifies this, fw
      ensures View() == Arm(old(View()), accepts)
      ensures st != Ok ==> state == FailedOpen
    {
      armed := true;
      policy := policy.(mode := Sanitize(policy.mode));
      st := DoReconcile(accepts);
    }

    // pmx_lockdown_disarm
    method DoDisarm()
      modifies this, fw
      ensures View() == Disarm(old(View()))
    {
      armed := false;
      ReleaseIfEngaged();
      state := Inactive;
    }

    // pmx_lockdown_on_health
    method OnHealth(healthy: bool, accepts: bool) returns (changed: bool)
      modifies this, fw
      ensures View() == Observe(old(View()), healthy, accepts)
      ensures changed <==> state != old(state)
    {
      changed := false;
      if !armed || policy.mode == Off { return; }
      if healthy {
        succ := succ + 1;
        fails := 0;
      } else {
        fails := fails + 1;
        succ := 0;
      }
      var prev := state;
      if healthy && state != ArmedHealthy && succ >= policy.successesBeforeRestore {
        if policy.mode == FailOpen { ReleaseIfEngaged(); }
        state := ArmedHealthy;
      } else if !healthy && state == ArmedHealthy && fails >= policy.failuresBeforeTrip {
        match policy.mode {
          case FailClosed => var _ := Block(accepts, TrippedBlocking);
          case FailBackup => var _ := Block(accepts, FailingOver);
          case FailOpen =>
            ReleaseIfEngaged();
            state := FailedOpen;
          case _ =>
        }
      }
      changed := state != prev;
    }
  }

  // ---- runs ------------------------------------------------------------------------------

  datatype Op =
    | DoPolicy(p: Policy)
    | DoAllow(eps: seq<Endpoint>)
    | DoArm
    | DoDisarm
    | DoHealth(healthy: bool)

  // accepts is the firewall's answer during that call.
  datatype Event = Event(op: Op, accepts: bool)

  function Apply(ld: Ld, e: Event): Ld {
    match e.op
    case DoPolicy(p) => SetPolicy(ld, p, e.accepts)
    case DoAllow(eps) => SetAllowlist(ld, eps, e.accepts)
    case DoArm => Arm(ld, e.accepts)
    case DoDisarm => Disarm(ld)
    case DoHealth(h) => Observe(ld, h, e.accepts)
  }

  function After(ld: Ld, es: seq<Event>): Ld {
    if es == [] then ld else Apply(After(ld, es[..|es| - 1]), es[|es| - 1])
  }

  // As created over a firewall that is absent or not engaged.
  predicate Initial(ld: Ld) {
    !Engaged(ld) && ld.state == Inactive && !ld.armed && ld.fails == 0 && ld.succ == 0
  }

  // ---- what is claimed is so ----------------------------------------------------------------

  // A reported block is a real one, nothing is left engaged behind a mode that
  // does not block, and an unarmed controller neither blocks nor claims to.
  predicate Honest(ld: Ld) {
    && (ld.state in {TrippedBlocking, FailingOver} ==> Engaged(ld) && ld.armed && ModeBlocks(ld.policy.mode))
    && (ld.state == FailingOver ==> ld.policy.mode == FailBackup)
    && (ld.armed && ld.policy.mode in {Off, FailOpen} ==> !Engaged(ld))
    && (!ld.armed ==> !Engaged(ld) && ld.state == Inactive)
    && (ld.armed ==> ld.policy.mode != Unknown && (ld.state == Inactive <==> ld.policy.mode == Off))
  }

  lemma ReconcileIsHonest(ld: Ld, accepts: bool)
    requires ld.armed && ld.policy.mode != Unknown
    ensures Honest(Reconcile(ld, accepts))
  {
  }

  lemma PolicyStaysHonest(ld: Ld, p: Policy, accepts: bool)
    requires Honest(ld)
    ensures Honest(SetPolicy(ld, p, accepts))
  {
    var ld' := ld.(policy := p.(mode := Sanitize(p.mode)));
    if ld.armed && ld'.policy.mode != ld.policy.mode {
      hide Reconcile, Honest;
      ReconcileIsHonest(ld', accepts);
    }
  }

  lemma ArmingIsHonest(ld: Ld, accepts: bool)
    ensures Honest(Arm(ld, accepts))
  {
    hide Reconcile, Honest;
    ReconcileIsHonest(ld.(armed := true, policy := ld.policy.(mode := Sanitize(ld.policy.mode))), accepts);
  }

  lemma RestStaysHonest(ld: Ld, eps: seq<Endpoint>, accepts: bool)
    requires Honest(ld)
    ensures Honest(SetAllowlist(ld, eps, accepts)) && Honest(Disarm(ld))
  {
  }

  lemma ObservingStaysHonest(ld: Ld, healthy: bool, accepts: bool)
    requires Honest(ld)
    ensures Honest(Observe(ld, healthy, accepts))
  {
  }

  lemma StepStaysHonest(ld: Ld, e: Event)
    requires Honest(ld)
    ensures Honest(Apply(ld, e))
  {
    hide Honest, SetPolicy, SetAllowlist, Arm, Disarm, Observe;
    match e.op {
      case DoPolicy(p) => PolicyStaysHonest(ld, p, e.accepts);
      case DoAllow(eps) => RestStaysHonest(ld, eps, e.accepts);
      case DoArm => ArmingIsHonest(ld, e.accepts);
      case DoDisarm => RestStaysHonest(ld, [], e.accepts);
      case DoHealth(h) => ObservingStaysHonest(ld, h, e.accepts);
    }
  }

  // Every reachable state is honest.
  lemma {:induction false} LockdownNeverClaimsABlockItLacks(ld: Ld, es: seq<Event>)
    requires Initial(ld)
    ensures Honest(After(ld, es))
    decreases |es|
  {
    hide Apply;
    if es != [] {
      LockdownNeverClaimsABlockItLacks(ld, es[..|es| - 1]);
      StepStaysHonest(After(ld, es[..|es| - 1]), es[|es| - 1]);
    } else {
      assert Honest(ld);
    }
  }

  // ---- no window -----------------------------------------------------------------------------

  // The only two ways out: disarming, or choosing a mode that does not block.
  predicate LetsGo(e: Event) {
    match e.op
    case DoDisarm => true
    case DoPolicy(p) => !ModeBlocks(Sanitize(p.mode))
    case _ => false
  }

  predicate Enforcing(ld: Ld) {
    ld.armed && ModeBlocks(ld.policy.mode) && Engaged(ld)
  }

  lemma StepKeepsEnforcing(ld: Ld, e: Event)
    requires Enforcing(ld) && !LetsGo(e)
    ensures Enforcing(Apply(ld, e)) && Apply(ld, e).fw.value.releases == ld.fw.value.releases
  {
  }

  // Once engaged in a blocking mode the firewall stays engaged, and is never
  // even taken down for a moment, through any run without a way out.
  lemma {:induction false} NoWindow(ld: Ld, es: seq<Event>)
    requires Enforcing(ld) && forall k :: 0 <= k < |es| ==> !LetsGo(es[k])
    ensures Enforcing(After(ld, es)) && After(ld, es).fw.value.releases == ld.fw.value.releases
    decreases |es|
  {
    hide Apply, Enforcing;
    if es != [] {
      var n := |es| - 1;
      forall k | 0 <= k < n ensures !LetsGo(es[..n][k]) { assert es[..n][k] == es[k]; }
      NoWindow(ld, es[..n]);
      StepKeepsEnforcing(After(ld, es[..n]), es[n]);
    }
  }

  // ---- the flap bound ---------------------------------------------------------------------------

  // Observations under policy p, with allowlist updates in between; the settings
  // panel may send the policy in force again at any time.
  predicate Watching(p: Policy, e: Event) {
    match e.op
    case DoHealth(_) => true
    case DoAllow(_) => true
    case DoPolicy(q) => q.(mode := Sanitize(q.mode)) == p
    case _ => false
  }

  function Observations(es: seq<Event>): nat {
    if es == [] then 0 else Observations(es[..|es| - 1]) + if es[|es| - 1].op.DoHealth? then 1 else 0
  }

  // Calls that report leaving, and reaching, the healthy state.
  function Trips(ld: Ld, es: seq<Event>): nat {
    if es == [] then 0 else
    var n := |es| - 1;
    Trips(ld, es[..n])
    + if After(ld, es[..n]).state == ArmedHealthy && After(ld, es).state != ArmedHealthy then 1 else 0
  }

  function Restores(ld: Ld, es: seq<Event>): nat {
    if es == [] then 0 else
    var n := |es| - 1;
    Restores(ld, es[..n])
    + if After(ld, es[..n]).state != ArmedHealthy && After(ld, es).state == ArmedHealthy then 1 else 0
  }

  // State changes of any kind.
  function Changes(ld: Ld, es: seq<Event>): nat {
    if es == [] then 0 else
    var n := |es| - 1;
    Changes(ld, es[..n]) + if After(ld, es[..n]).state != After(ld, es).state then 1 else 0
  }

  predicate Active(ld: Ld) {
    ld.armed && ld.policy.mode !in {Off, Unknown}
  }

  // A threshold below one acts at the first observation.
  function AtLeastOne(x: int): nat {
    if x < 1 then 1 else x
  }

  // What the controller still owes: successes since it tripped, or failures
  // since it recovered.
  function Progress(ld: Ld): nat {
    if ld.state == ArmedHealthy then ld.fails else ld.succ
  }

  predicate Counters(ld: Ld, t: nat, r: nat, n: nat, start: LdState) {
    var F, S := AtLeastOne(ld.policy.failuresBeforeTrip), AtLeastOne(ld.policy.successesBeforeRestore);
    && n >= t * F + r * S + Progress(ld)
    && (start == ArmedHealthy ==> t == r + if ld.state == ArmedHealthy then 0 else 1)
    && (start != ArmedHealthy ==> r == t + if ld.state == ArmedHealthy then 1 else 0)
  }

  lemma StepCounts(ld: Ld, e: Event, t: nat, r: nat, n: nat, start: LdState)
    requires Active(ld) && Watching(ld.policy, e) && Counters(ld, t, r, n, start)
    ensures var ld' := Apply(ld, e);
      var trip := ld.state == ArmedHealthy && ld'.state != ArmedHealthy;
      var restore := ld.state != ArmedHealthy && ld'.state == ArmedHealthy;
      && Active(ld') && ld'.policy == ld.policy
      && (ld.state != ld'.state <==> trip || restore)
      && Counters(ld', t + (if trip then 1 else 0), r + (if restore then 1 else 0),
                  n + (if e.op.DoHealth? then 1 else 0), start)
  {
    var ld' := Apply(ld, e);
    var F, S := AtLeastOne(ld.policy.failuresBeforeTrip), AtLeastOne(ld.policy.successesBeforeRestore);
    assert (t + 1) * F == t * F + F && (r + 1) * S == r * S + S;
  }

  lemma {:induction false} RunCounts(ld: Ld, es: seq<Event>)
    requires Active(ld) && ld.fails == 0 && ld.succ == 0
    requires forall k :: 0 <= k < |es| ==> Watching(ld.policy, es[k])
    ensures Active(After(ld, es)) && After(ld, es).policy == ld.policy
    ensures Counters(After(ld, es), Trips(ld, es), Restores(ld, es), Observations(es), ld.state)
    ensures Changes(ld, es) == Trips(ld, es) + Restores(ld, es)
    decreases |es|
  {
    hide Apply, Counters, Active;
    if es == [] {
      RunStart(ld);
    } else {
      var n := |es| - 1;
      forall k | 0 <= k < n ensures Watching(ld.policy, es[..n][k]) { assert es[..n][k] == es[k]; }
      RunCounts(ld, es[..n]);
      StepCounts(After(ld, es[..n]), es[n], Trips(ld, es[..n]), Restores(ld, es[..n]), Observations(es[..n]), ld.state);
    }
  }

  lemma RunStart(ld: Ld)
    requires ld.fails == 0 && ld.succ == 0
    ensures Counters(ld, 0, 0, 0, ld.state)
  {
  }

  // t trips and r restores alternate, they are all the changes there were, and
  // every one of them was paid for with its full threshold of the n observations.
  predicate PaidFor(p: Policy, t: nat, r: nat, changes: nat, n: nat) {
    var F, S := AtLeastOne(p.failuresBeforeTrip), AtLeastOne(p.successesBeforeRestore);
    && changes == t + r && -1 <= t - r <= 1
    && n >= t * F + r * S
    && n >= (changes / 2) * (F + S)
  }

  // Since arming, with the policy fixed, k reported changes alternate and took at
  // least floor(k / 2) * (F + S) observations.
  lemma FlapBound(ld0: Ld, accepts: bool, es: seq<Event>)
    requires Active(Arm(ld0, accepts))
    requires forall k :: 0 <= k < |es| ==> Watching(Arm(ld0, accepts).policy, es[k])
    ensures var ld := Arm(ld0, accepts);
      PaidFor(ld.policy, Trips(ld, es), Restores(ld, es), Changes(ld, es), Observations(es))
  {
    hide *;
    var ld := Arm(ld0, accepts);
    ArmingResets(ld0, accepts);
    RunCounts(ld, es);
    CountersPay(After(ld, es), Trips(ld, es), Restores(ld, es), Observations(es), ld.state);
  }

  lemma ArmingResets(ld: Ld, accepts: bool)
    ensures Arm(ld, accepts).fails == 0 && Arm(ld, accepts).succ == 0
  {
  }

  lemma CountersPay(ld: Ld, t: nat, r: nat, n: nat, start: LdState)
    requires Counters(ld, t, r, n, start)
    ensures PaidFor(ld.policy, t, r, t + r, n)
  {
    hide AtLeastOne, Progress;
    HalfOfEach(t, r, AtLeastOne(ld.policy.failuresBeforeTrip), AtLeastOne(ld.policy.successesBeforeRestore));
  }

  lemma HalfOfEach(t: nat, r: nat, F: nat, S: nat)
    requires -1 <= t - r <= 1
    ensures t * F + r * S >= ((t + r) / 2) * (F + S)
  {
    var h := (t + r) / 2;
    assert t >= h && r >= h;
    assert t * F >= h * F && r * S >= h * S;
    assert h * (F + S) == h * F + h * S;
  }

  // ---- reaction within the threshold ----------------------------------------------------------------

  // Observations of one outcome only, whatever the firewall answers, with
  // allowlist updates and repeats of the policy in between.
  predicate Streak(p: Policy, es: seq<Event>, healthy: bool) {
    forall k :: 0 <= k < |es| ==> Watching(p, es[k]) && (es[k].op.DoHealth? ==> es[k].op == DoHealth(healthy))
  }

  // What n observations of the same outcome in a row have done so far.
  predicate StreakSeen(ld: Ld, n: nat, healthy: bool) {
    && (if healthy then ld.succ >= n else ld.fails >= n)
    && (n > 0 && healthy && n >= ld.policy.successesBeforeRestore ==> ld.state == ArmedHealthy)
    && (n > 0 && !healthy && n >= ld.policy.failuresBeforeTrip ==> ld.state != ArmedHealthy)
  }

  lemma OneMore(ld: Ld, e: Event, n: nat, healthy: bool)
    requires Active(ld) && StreakSeen(ld, n, healthy) && Watching(ld.policy, e)
    requires e.op.DoHealth? ==> e.op == DoHealth(healthy)
    ensures var ld' := Apply(ld, e);
      Active(ld') && ld'.policy == ld.policy && StreakSeen(ld', n + if e.op.DoHealth? then 1 else 0, healthy)
  {
  }

  lemma {:induction false} StreakCounts(ld: Ld, es: seq<Event>, healthy: bool)
    requires Active(ld) && Streak(ld.policy, es, healthy)
    ensures Active(After(ld, es)) && After(ld, es).policy == ld.policy
    ensures StreakSeen(After(ld, es), Observations(es), healthy)
    decreases |es|
  {
    hide Apply, Active, Watching;
    if es != [] {
      var n := |es| - 1;
      assert Streak(ld.policy, es[..n], healthy);
      StreakCounts(ld, es[..n], healthy);
      hide StreakSeen;
      OneMore(After(ld, es[..n]), es[n], Observations(es[..n]), healthy);
    }
  }

  // As many consecutive failures as the threshold always leave the healthy
  // state; as many consecutive successes always reach it.
  lemma ThresholdReacts(ld: Ld, es: seq<Event>, healthy: bool)
    requires Active(ld) && Streak(ld.policy, es, healthy)
    requires var p := ld.policy;
      Observations(es) >= AtLeastOne(if healthy then p.successesBeforeRestore else p.failuresBeforeTrip)
    ensures After(ld, es).state == ArmedHealthy <==> healthy
  {
    StreakCounts(ld, es, healthy);
  }

  // ---- healthy and engaged -----------------------------------------------------------------------------

  // The one thing honesty does not promise: a healthy report in a blocking mode
  // does not mean the firewall is engaged. A refused engage followed by enough
  // good probes gets there: when arming, and also when arming went well under a
  // mode that does not block and the refusal came with the change of mode.
  lemma HealthyNeedNotBeEngaged(p: Policy, fw: Fw)
    requires p.mode == FailClosed && p.successesBeforeRestore == 1 && !fw.engaged
    ensures var start := Ld(p, Some(fw), [], Inactive, 0, 0, false);
      var ld := Apply(Apply(start, Event(DoArm, false)), Event(DoHealth(true), false));
      Initial(start) && ld.state == ArmedHealthy && ModeBlocks(ld.policy.mode) && !Engaged(ld)
    ensures var start := Ld(p.(mode := FailOpen), Some(fw), [], Inactive, 0, 0, false);
      var armed := Apply(start, Event(DoArm, true));
      var ld := Apply(Apply(armed, Event(DoPolicy(p), false)), Event(DoHealth(true), false));
      && Initial(start) && armed.state != FailedOpen
      && ld.state == ArmedHealthy && ModeBlocks(ld.policy.mode) && !Engaged(ld)
  {
  }

  ghost predicate NeverLetsGo(es: seq<Event>) {
    forall k :: 0 <= k < |es| ==> !LetsGo(es[k])
  }

  // From here on, healthy will always mean engaged, until something lets go.
  ghost predicate HealthyMeansEngaged(ld: Ld) {
    forall es :: NeverLetsGo(es) && After(ld, es).state == ArmedHealthy ==> Engaged(After(ld, es))
  }

  // Good probes never touch the firewall in a blocking mode.
  lemma {:induction false} SuccessesEngageNothing(ld: Ld, es: seq<Event>)
    requires ld.armed && ModeBlocks(ld.policy.mode) && forall k :: 0 <= k < |es| ==> es[k].op == DoHealth(true)
    ensures After(ld, es).fw == ld.fw && After(ld, es).armed && After(ld, es).policy == ld.policy
    decreases |es|
  {
    if es != [] { SuccessesEngageNothing(ld, es[..|es| - 1]); }
  }

  lemma {:induction false} AllObserved(es: seq<Event>)
    requires forall k :: 0 <= k < |es| ==> es[k].op.DoHealth?
    ensures Observations(es) == |es|
  {
    if es != [] { AllObserved(es[..|es| - 1]); }
  }

  // In a blocking mode, being engaged now is exactly what makes every later
  // healthy report true.
  lemma EngagedDecides(ld: Ld)
    requires ld.armed && ModeBlocks(ld.policy.mode)
    ensures HealthyMeansEngaged(ld) <==> Engaged(ld)
  {
    if Engaged(ld) {
      forall es | NeverLetsGo(es) ensures Engaged(After(ld, es)) { NoWindow(ld, es); }
    } else {
      var n := AtLeastOne(ld.policy.successesBeforeRestore);
      var es := seq(n, _ => Event(DoHealth(true), false));
      SuccessesEngageNothing(ld, es);
      AllObserved(es);
      ThresholdReacts(ld, es, true);
      assert NeverLetsGo(es);
    }
  }

  // The calls that put a blocking mode into force: arming under one, and, while
  // armed, a change to one.
  predicate Enters(ld: Ld, e: Event) {
    match e.op
    case DoArm => ModeBlocks(Sanitize(ld.policy.mode))
    case DoPolicy(p) => ld.armed && Sanitize(p.mode) != ld.policy.mode && ModeBlocks(Sanitize(p.mode))
    case _ => false
  }

  // Either way in, every later healthy report is true exactly when the firewall
  // was engaged already or is there and accepts; and the state reported on the
  // way in says which.
  lemma EntryDecides(ld: Ld, e: Event)
    requires Enters(ld, e)
    ensures HealthyMeansEngaged(Apply(ld, e)) <==> Engaged(ld) || (ld.fw.Some? && e.accepts)
    ensures HealthyMeansEngaged(Apply(ld, e)) <==> Apply(ld, e).state != FailedOpen
  {
    hide HealthyMeansEngaged;
    EngagedDecides(Apply(ld, e));
  }

  // ---- what an engaged firewall lets through -----------------------------------------------------------

  // The list asked for last, cut to what the controller holds.
  function Wanted(es: seq<Event>): seq<Endpoint> {
    if es == [] then []
    else
      match es[|es| - 1].op
      case DoAllow(eps) => if |eps| <= 32 then eps else eps[..32]
      case _ => Wanted(es[..|es| - 1])
  }

  // The last event handed the firewall a list: it engaged it, or updated the list
  // while it was engaged, and the firewall accepted.
  predicate Hands(ld: Ld, es: seq<Event>)
    requires es != []
  {
    var n := |es| - 1;
    && es[n].accepts
    && if es[n].op.DoAllow? then Engaged(After(ld, es[..n]))
       else !Engaged(After(ld, es[..n])) && Engaged(After(ld, es))
  }

  // The list the firewall was handed last.
  function Handed(ld: Ld, es: seq<Event>): seq<Endpoint> {
    if es == [] then []
    else if Hands(ld, es) then Wanted(es)
    else Handed(ld, es[..|es| - 1])
  }

  // What one event does to the list of an engaged firewall.
  predicate HandsOver(ld: Ld, e: Event, ld': Ld) {
    && (ld.fw.Some? <==> ld'.fw.Some?)
    && (Engaged(ld') ==>
          var handed := e.accepts && if e.op.DoAllow? then Engaged(ld) else !Engaged(ld);
          ld'.fw.value.allow == if handed then ld'.allow else ld.fw.value.allow)
    && (!Engaged(ld) && Engaged(ld') ==> e.accepts && !e.op.DoAllow?)
  }

  lemma ReconcileHands(ld: Ld, e: Event)
    requires !e.op.DoAllow?
    ensures HandsOver(ld, e, Reconcile(ld, e.accepts)) && Reconcile(ld, e.accepts).allow == ld.allow
  {
  }

  lemma ObservationHands(ld: Ld, e: Event)
    requires e.op.DoHealth?
    ensures HandsOver(ld, e, Apply(ld, e)) && Apply(ld, e).allow == ld.allow
  {
  }

  lemma StepHands(ld: Ld, e: Event)
    requires Honest(ld)
    ensures HandsOver(ld, e, Apply(ld, e))
    ensures Apply(ld, e).allow ==
      match e.op
      case DoAllow(eps) => (if |eps| <= 32 then eps else eps[..32])
      case _ => ld.allow
  {
    match e.op {
      case DoHealth(_) => ObservationHands(ld, e);
      case DoArm =>
        hide Reconcile;
        ReconcileHands(ld.(armed := true, policy := ld.policy.(mode := Sanitize(ld.policy.mode))), e);
      case DoPolicy(p) =>
        hide Reconcile;
        ReconcileHands(ld.(policy := p.(mode := Sanitize(p.mode))), e);
      case _ =>
    }
  }

  // While the firewall is engaged it lets through exactly the list it was handed
  // last. When it never refuses that is the list asked for last, so an update
  // reaches an engaged firewall at once.
  lemma {:induction false} EngagedLetsThroughTheList(ld: Ld, es: seq<Event>)
    requires Initial(ld) && ld.allow == []
    ensures After(ld, es).allow == Wanted(es)
    ensures Engaged(After(ld, es)) ==> After(ld, es).fw.value.allow == Handed(ld, es)
    ensures Engaged(After(ld, es)) && (forall k :: 0 <= k < |es| ==> es[k].accepts) ==>
      After(ld, es).fw.value.allow == Wanted(es)
    decreases |es|
  {
    hide Apply, Honest;
    if es != [] {
      var n := |es| - 1;
      EngagedLetsThroughTheList(ld, es[..n]);
      LockdownNeverClaimsABlockItLacks(ld, es[..n]);
      StepHands(After(ld, es[..n]), es[n]);
    }
  }

  // ---- what each mode does ---------------------------------------------------------------------------------

  // Arming under each mode, the unknown ones included.
  lemma ArmingFollowsTheMode(ld: Ld, accepts: bool)
    ensures var m, ld' := ld.policy.mode, Arm(ld, accepts);
      var can := Engaged(ld) || (ld.fw.Some? && accepts);
      && ld'.armed && ld'.fails == 0 && ld'.succ == 0 && ld'.allow == ld.allow
      && ld'.policy == ld.policy.(mode := if m == Unknown then FailClosed else m)
      && (m in {FailClosed, FailBackup, Unknown} ==>
            && (Engaged(ld') <==> can)
            && ld'.state == if !can then FailedOpen
                            else if ld.policy.blockUntilVerified then TrippedBlocking else ArmedHealthy)
      && (m == FailOpen ==> !Engaged(ld') && ld'.state == ArmedHealthy)
      && (m == Off ==> !Engaged(ld') && ld'.state == Inactive)
  {
  }

  // While armed, a change of mode is arming anew under the new policy; anything
  // else only stores the policy.
  lemma ChangingModeIsArming(ld: Ld, p: Policy, accepts: bool)
    ensures var m := if p.mode == Unknown then FailClosed else p.mode;
      SetPolicy(ld, p, accepts)
      == if ld.armed && m != ld.policy.mode then Arm(ld.(policy := p), accepts) else ld.(policy := p.(mode := m))
  {
  }

  // The observation that reaches the threshold of failures trips as the mode says.
  lemma TrippingFollowsTheMode(ld: Ld, accepts: bool)
    requires ld.armed && ld.state == ArmedHealthy && ld.fails + 1 >= ld.policy.failuresBeforeTrip
    ensures var m, ld' := ld.policy.mode, Observe(ld, false, accepts);
      var can := Engaged(ld) || (ld.fw.Some? && accepts);
      && (m in {FailClosed, FailBackup} ==>
            && (Engaged(ld') <==> can)
            && ld'.state == if !can then FailedOpen else if m == FailClosed then TrippedBlocking else FailingOver)
      && (m == FailOpen ==> !Engaged(ld') && ld'.state == FailedOpen)
      && (m == Off ==> ld' == ld)
  {
  }

  // The one that reaches the threshold of successes restores: the firewall stays
  // as it is in a blocking mode and is released under fail-open.
  lemma RestoringFollowsTheMode(ld: Ld, accepts: bool)
    requires ld.armed && ld.state != ArmedHealthy && ld.succ + 1 >= ld.policy.successesBeforeRestore
    ensures var m, ld' := ld.policy.mode, Observe(ld, true, accepts);
      && (m in {FailClosed, FailBackup} ==> ld'.fw == ld.fw && ld'.state == ArmedHealthy)
      && (m == FailOpen ==> !Engaged(ld') && ld'.state == ArmedHealthy)
      && (m == Off ==> ld' == ld)
  {
  }

  // Disarming releases, whatever the mode.
  lemma DisarmingReleases(ld: Ld)
    ensures !Disarm(ld).armed && !Engaged(Disarm(ld)) && Disarm(ld).state == Inactive
  {
  }
}
