// The data a profile holds: proxies, rules, chains, tunnels, and the queries
// and decisions of rule resolution.

module Model {
  import opened Types

  datatype ProxyType = Socks5 | Socks4 | Socks4a | Http | Https

  datatype Proxy = Proxy(id: Id, kind: ProxyType, host: string, port: Port,
                         useAuth: bool, username: string, password: string, enabled: bool)

  datatype Action = Direct | ViaProxy | Block

  datatype TargetKind = NoTarget | ProxyTarget | ChainTarget

  // Empty patterns and an empty port spec mean "any".
  datatype Rule = Rule(id: Id, name: string, enabled: bool,
                       appPattern: string, hostPattern: string, portSpec: string,
                       action: Action, targetKind: TargetKind, targetId: Id)

  datatype ChainMode = Sequential | Redundancy

  type Hops = s: seq<Id> | |s| <= MAX_CHAIN_HOPS

  datatype Chain = Chain(id: Id, mode: ChainMode, hops: Hops, enabled: bool)

  datatype Endpoint = Endpoint(host: string, port: Port)

  datatype Vpn = Vpn(id: Id, enabled: bool, endpoints: seq<Endpoint>)

  // Unknown stands for any value read from a damaged profile.
  datatype Mode = Off | FailClosed | FailBackup | FailOpen | Unknown

  datatype Policy = Policy(mode: Mode, blockUntilVerified: bool,
                           failuresBeforeTrip: int, successesBeforeRestore: int)

  datatype Settings = Settings(dnsThroughProxy: bool, demoTraffic: bool, demoIntervalMs: int)

  // A profile as a value: everything pmx_profile_copy must carry over.
  datatype Profile = Profile(
    title: string, path: string,
    proxies: seq<Proxy>, rules: seq<Rule>, chains: seq<Chain>, vpns: seq<Vpn>,
    defaultRule: Rule, policy: Policy, settings: Settings, nextId: Id)

  const NEW_PROXY := Proxy(ID_NONE, Socks5, "", 1080, false, "", "", true)
  const NEW_RULE := Rule(ID_NONE, "New rule", true, "", "", "", Direct, NoTarget, ID_NONE)
  const NEW_CHAIN := Chain(ID_NONE, Sequential, [], true)
  const NEW_VPN := Vpn(ID_NONE, true, [])

  const INITIAL := Profile(
    "New profile", "", [], [], [], [],
    NEW_RULE.(name := "Default"), Policy(FailClosed, true, 2, 2), Settings(true, true, 1500), 1)

  // A connection to be classified; any text may be missing.
  datatype Query = Query(appName: Option<string>, appPath: Option<string>, host: Option<string>, port: Port)

  datatype Verdict = GoDirect | GoProxy | Refuse

  // via is the concrete chain in traversal order; empty with GoProxy means the
  // target could not be fully resolved. hopCount is what the target asked for.
  datatype Decision = Decision(verdict: Verdict, targetKind: TargetKind, targetId: Id,
                               ruleName: string, via: seq<Proxy>, hopCount: nat)
}
