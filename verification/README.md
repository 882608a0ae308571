# ProxiMight core: a verified model

ProxiMight is a per-application proxifier. Its engine decides, for every
connection a program opens, whether it goes direct, through a chain of proxies,
or nowhere; a redirection backend then carries the proxied ones through a local
relay. This project models that engine in Dafny and proves what it promises: a
connection goes exactly where the rules say, or it does not go.

The model follows the program's structure, one module per component.

- `Types`, `CText`, `Lists`, `Model`: status codes, C string routines and strtol
  with a 32-bit long, in-place list edits, and the data a profile holds.
- `Glob`, `PortSpec`, `Resolve`: rule matching and resolution to concrete hops.
- `Profiles`, `ProfileRuns`, `Engine`: profile edits, the all-or-nothing copy,
  the published snapshot, the event ring.
- `Nat`, `NatRuns`: the connection table behind redirection, and its runs.
- `Relay`, `RelayRuns`, `Tunnel`, `Socks`: pending registrations, connection
  bookkeeping, the hop-by-hop tunnel, and the SOCKS client on a byte stream.
- `Redirect`, `Protocol`, `ProtocolRuns`: verdicts and packet rewriting, the whole
  protocol as atomic steps in any interleaving, and what its two tables see of it.
- `Lockdown`: the kill switch over a firewall that may refuse.
- `OpenVpn`, `Base64`: a config parser and a codec.

Objects the program updates in place are classes whose methods are proved
against functions on values; the results about runs are lemmas about those
functions. `dafny verify dfyconfig.toml` checks everything.

How the surroundings are modelled:

- Strings hold no NUL and, where a fixed buffer matters (patterns, lines, tags,
  host names), the cut is written out. Characters are single bytes and character
  classes are those of the "C" locale.
- The clock is a parameter that never goes back. In particular the relay's
  unsigned subtraction `now - added` never wraps. Readings are taken to be ordered
  like the steps they belong to; the network pump reads the clock just before it
  takes the table's lock, so in the program two threads can disagree by as much as
  one waits for the lock.
- Allocation results, the firewall's answers and failed sends are inputs or
  nondeterministic choices. A firewall's disengage always succeeds.
- Each section under a mutex is one atomic step; a relay worker's hop loop is one
  step, given what dialling and each handshake returned.
- The driver reports the relay's loopback reply to the rewrite as inbound, as the
  capture filter and the rewrite both take it to be.
- Which hosts are IPv4 literals (`parse_ipv4`, which rests on sscanf) is a
  parameter of every SOCKS member.
- Object ids, counters and the hysteresis counters are unbounded.

Findings that the proofs make exact:

- Deleting a proxy or a chain repairs every other reference to it but not the
  default rule's: a reference is left exactly when the default rule held one
  (`RemovalLeavesOnlyDefault`, `ChainRemovalLeavesOnlyDefault`, with the inputs in
  `DefaultRuleDangles` and `DefaultChainDangles`). Such a flow then resolves to no
  hops and is refused under fail-closed.
- "Armed, healthy" in a blocking mode does not imply an engaged firewall: a
  refused engage followed by good probes gets there, and the refusal can come
  with arming or, after arming went well, with a change of mode
  (`HealthyNeedNotBeEngaged`). In a blocking mode every later healthy report is
  true exactly when the firewall is engaged now (`EngagedDecides`); so at either
  way into a blocking mode, exactly when it was engaged already or is there and
  accepts, which is when the state reported there is not "failed open"
  (`EntryDecides`).
- A SOCKS4 request decodes back to what was asked unless the destination is a
  literal of the form 0.0.0.x, x non-zero (`Connect4RoundTrip`, with the input in
  `MarkerIsMisread`).
- Under fail-closed a proxied connect to a loopback destination is registered,
  mapped and allowed, but the capture filter never shows its packets to the
  rewrite (`LoopbackEscapes`). The packets of an allowed proxy flow are
  redirected exactly when the destination is not loopback
  (`AllowedIsRedirectedIffNotLoopback`).
- A proxied flow that stays silent for longer than the table's TTL is lost: its
  next packet leaves unrewritten, for the real destination. Its captured packets
  are redirected exactly as long as no lookup came too late (`CarriedIffInTime`,
  with the run in `IdleFlowEscapes`). After its relay side has closed it is
  redirected for at most the TTL after its last packet before that, however many
  packets follow (`ClosedStillMatches`).
- Between the two registrations of a verdict a recycled port can have the new
  flow's route waiting beside the old flow's mapping (`RecycledPortMixes`). At all
  other times a port that is waiting and mapped is so for one flow (`TablesAgree`).
- A SOCKS5 server that picks user name and password gets them even if they were not
  offered to it (`UnofferedCredentialsLeave`); only offered credentials leave
  exactly for proxies that use authentication or whose credentials do not fit
  (`OnlyOfferedCredentialsLeave`).
- The relay's reply is rewritten to the swap of the application's packet exactly
  when that packet left from the registered address (`RewriteInverse`, with the
  input in `OtherAddressIsMisdelivered`): the rewrite checks the destination only.
- The header comment of the Windows backend says proxy redirection is missing;
  the code below it performs it, and the model follows the code.

## Model

| member | source | states |
|---|---|---|
| `Glob.GlobMatch` | src/core/pmx_rule.c:42-69 | the last-star loop returns true exactly when the declarative meaning of stars, question marks and folded literals admits a match, in at most (pattern+1)(text+1) rounds |
| `Glob.LastStarSuffices` | src/core/pmx_rule.c:51-62 | forgetting all stars but the last is safe: a placement of the earlier star exists iff one of the later star does |
| `Glob.Retreat` | src/core/pmx_rule.c:58-60 | a failed character rules out exactly the current placement of the last star |
| `Glob.TextUsedUp` | src/core/pmx_rule.c:65-68 | once the text is consumed the pattern matches iff only stars remain |
| `Glob.OneCharacter` | src/core/pmx_rule.c:52-57 | one pattern character matches any text if it is a star, any one character if a question mark, else itself or, folded, its other case |
| `Glob.TwoParts` | src/core/pmx_rule.c:42-69 | a pattern in two parts matches exactly the texts that split between the parts; with the one-character case this fixes the meaning of every pattern |
| `Glob.GlobListMatch` | src/core/pmx_rule.c:72-108 | a missing or empty list means any; otherwise true iff some non-blank trimmed segment between semicolons matches |
| `Glob.WrittenListMatchesAny` | src/core/pmx_rule.c:72-108 | a list written from its items matches iff some item that is not all blanks matches, trimmed and cut to 511 characters |
| `CText.Trim` | src/core/pmx_vpn.c:11-26 | the pointer walk computes the trimmed text |
| `CText.TrimMeaning` | src/core/pmx_rule.c:85-89 | trimming leaves the one middle part with only blanks around it and none at its ends |
| `CText.FoldsLetters` | src/core/pmx_rule.c:36-40 | folding maps the 26 upper-case letters to the lower-case ones and nothing else |
| `CText.StrtolReadsNumber` | src/core/pmx_rule.c:120-126 | blanks, one sign and the decimal text of n are read as n or -n, saturated at 32 bits, up to the last digit |
| `CText.StrtolFindsNone` | src/core/pmx_rule.c:120-125 | where no digit follows the blanks and the sign there is no number |
| `CText.PortOfNumber` | src/core/pmx_vpn.c:419-419 | the decimal text of n read as a port gives its low sixteen bits, the saturated value's from 2^31 on, and no number gives 0 |
| `PortSpec.Validate` | src/core/pmx_rule.c:155-187 | accepts exactly the empty text and well-formed non-empty lists of in-range items |
| `PortSpec.Match` | src/core/pmx_rule.c:110-153 | for any text at all, true iff some range the scanner visits covers the port |
| `PortSpec.ScannersAgree` | src/core/pmx_rule.c:110-187 | on every accepted text the matcher visits exactly the ranges the text denotes, in order |
| `PortSpec.MatchIsMembership` | src/core/pmx_rule.c:110-187 | on an accepted non-empty text the match is membership in the union of the denoted ranges |
| `PortSpec.WrittenSpecMatchesUnion` | include/proximight/pmx_rule.h:43-46 | every non-empty list of ports and ranges, bounds in either order and any blanks around the dash, is accepted when written out and matches exactly its union |
| `PortSpec.ReadItem` | src/core/pmx_rule.c:119-145 | one written item is read back as its range wherever it stands |
| `PortSpec.AcceptedBoundsArePorts` | src/core/pmx_rule.c:164-178 | every bound of every range an accepted text denotes is a port |
| `PortSpec.BigNumberRefused` | src/core/pmx_rule.c:165-168 | the text of a number above 65535 is refused |
| `PortSpec.DanglingRefused` | src/core/pmx_rule.c:171-184 | a number followed at the end by a dash, or by any character but a digit, a comma or a blank, is refused |
| `PortSpec.WordRefused` | src/core/pmx_rule.c:165-168 | a text that starts with a word is refused |
| `PortSpec.WordsAreSkipped` | src/core/pmx_rule.c:120-125 | the matcher steps over a word and scans what follows as if it stood alone |
| `Resolve.MatchRule` | src/core/pmx_rule.c:221-246 | true iff every non-empty criterion matches, the application pattern against name or path |
| `Resolve.EachCriterionCounts` | src/core/pmx_rule.c:221-246 | a rule without criteria matches everything; adding an application or a host pattern narrows it by exactly that pattern, the application by name or path |
| `Resolve.PortCriterionCounts` | src/core/pmx_rule.c:239-244 | adding a written port spec narrows a rule to exactly the union of its ports and ranges |
| `Resolve.ChooseRule` | src/core/pmx_engine.c:329-338 | the first enabled matching rule, else the default |
| `Resolve.CollectHops` | src/core/pmx_engine.c:367-378 | all proxies of the hops in order when each is present and enabled, otherwise none |
| `Resolve.ResolveQuery` | src/core/pmx_engine.c:316-393 | the loops compute the decision function the theorems are about |
| `Resolve.FirstMatchDecides` | src/core/pmx_engine.c:329-351 | for the first enabled matching rule, or the default when there is none: refused iff it blocks, direct iff it says direct, proxied iff through a proxy, with its name and target |
| `Resolve.ProxyTargetMeans` | src/core/pmx_engine.c:356-362 | a rule through one proxy goes through the first proxy with the id if that is enabled, and nowhere if it is disabled or absent |
| `Resolve.ChainTargetMeans` | src/core/pmx_engine.c:363-386 | a rule through a chain: nothing if it is disabled, empty or names one unusable proxy; else the named proxies in order for a path, the first for alternatives; with the hop count reported |
| `Resolve.AllOrNothing` | src/core/pmx_engine.c:355-386 | a proxy decision carries exactly the target's hops or nothing, and nothing iff some named hop is unusable or none is named |
| `Resolve.InertRule` | src/core/pmx_engine.c:329-338 | a disabled or non-matching rule can be removed without changing the choice |
| `Resolve.MoveKeepsOtherDecisions` | src/core/pmx_profile.c:292-311 | moving a rule leaves every decision the moved rule does not make unchanged |
| `Lists.ShiftOut` | src/core/pmx_profile.c:194-197 | the shifting loop removes exactly the element at the index |
| `Lists.Compact` | src/core/pmx_profile.c:217-223 | the compaction loop keeps exactly the other elements in order |
| `Lists.WithoutParts` | src/core/pmx_profile.c:217-223 | compaction treats a front and a back apart and one element by its id, so it keeps the order |
| `Lists.Move` | src/core/pmx_profile.c:299-309 | the shifting loops put one element at its new place |
| `Lists.MoveIsLocal` | src/core/pmx_chain.c:46-65 | a move is a permutation, keeps the order of all other elements, and is undone by the opposite move |
| `Profiles.Reserve` | src/core/pmx_profile.c:87-101 | enough room, or failure with the capacity untouched |
| `Profiles.ProfileStore.constructor` | src/core/pmx_profile.c:30-46 | a fresh profile |
| `Profiles.ProfileStore.TakeId` | src/core/pmx_profile.c:132-140 | hands out the stored next id, or 1 when that is 0, and stores the one after it |
| `Profiles.ProfileStore.AddProxy` | src/core/pmx_profile.c:144-162 | appends a default proxy under a fresh id, or changes nothing when the list cannot grow |
| `Profiles.ProfileStore.AddRule` | src/core/pmx_profile.c:244-262 | the same for rules |
| `Profiles.ProfileStore.AddChain` | src/core/pmx_profile.c:315-333 | the same for chains |
| `Profiles.ProfileStore.RepairAllChains` | src/core/pmx_profile.c:214-231 | paths keep their length with the hop voided, alternatives shrink |
| `Profiles.ProfileStore.RepairAllRules` | src/core/pmx_profile.c:233-238 | every rule that targeted the removed object targets nothing |
| `Profiles.ProfileStore.RemoveProxy` | src/core/pmx_profile.c:180-240 | removal with repair of chains and rules, or not found and nothing changed |
| `Profiles.ProfileStore.RemoveRule` | src/core/pmx_profile.c:276-290 | removes exactly that rule, or not found |
| `Profiles.ProfileStore.MoveRule` | src/core/pmx_profile.c:292-311 | the permutation of `Lists.Moved`, or invalid and nothing changed |
| `Profiles.ProfileStore.RemoveChain` | src/core/pmx_profile.c:351-371 | removal with repair of rules, or not found |
| `Profiles.ProfileStore.CopyFrom` | src/core/pmx_profile.c:69-130 | the contents become the source's, or stay as they were at any failing allocation; every copied list fits its room |
| `Profiles.ChainEditor.AddHop` | src/core/pmx_chain.c:24-33 | appends a real id to a chain that is not full |
| `Profiles.ChainEditor.RemoveHop` | src/core/pmx_chain.c:35-44 | removes exactly that hop |
| `Profiles.ChainEditor.MoveHop` | src/core/pmx_chain.c:46-65 | the same permutation as for rules |
| `Profiles.ProfileStore.AppendVpn` | src/core/pmx_profile.c:375-440 | appends a VPN under a fresh id, or changes nothing when the list cannot grow |
| `Profiles.ProfileStore.AddVpn` | src/core/pmx_profile.c:382-393 | the same with a default VPN |
| `Profiles.ProfileStore.ImportVpn` | src/core/pmx_profile.c:423-442 | the same with a parsed config, and nothing when it did not parse |
| `Profiles.ProfileStore.RemoveVpn` | src/core/pmx_profile.c:407-421 | removes exactly that VPN, or not found |
| `ProfileRuns.EditKeepsWellFormed` | src/core/pmx_profile.c:132-442 | every add, fill, move, import and removal in the four lists, and of the default rule, keeps ids distinct in each list, non-zero and below the next one |
| `ProfileRuns.ReachableIsWellFormed` | src/core/pmx_profile.c:30-46 | so every profile that editing reaches from a fresh one has such ids |
| `ProfileRuns.FreshProfile` | src/core/pmx_profile.c:30-46 | a fresh profile sends every query direct, and its kill switch is fail-closed, blocking until verified, with thresholds of two |
| `ProfileRuns.Added` | src/core/pmx_profile.c:144-393 | a successful addition appends exactly one object with the editor's defaults, under the next id |
| `ProfileRuns.AddedRuleIsInert` | src/core/pmx_rule.c:7-24 | a new rule changes no decision another rule makes, and sends direct what none decides |
| `ProfileRuns.NothingToDo` | src/core/pmx_profile.c:144-442 | an unknown id, an index out of range or a failed allocation changes nothing |
| `ProfileRuns.RuleRemoved` | src/core/pmx_profile.c:276-290 | removing the rule with an id takes out the one at its position and nothing else |
| `ProfileRuns.VpnRemoved` | src/core/pmx_profile.c:407-421 | the same for VPNs |
| `ProfileRuns.ChainRemoved` | src/core/pmx_profile.c:351-371 | the same for chains, and each rule stays at its index, changed only if it targeted that chain, and then only to target none |
| `ProfileRuns.ProxyRemoved` | src/core/pmx_profile.c:180-240 | the same for proxies and their rules; each chain stays, unchanged unless the proxy was a hop of it, a path then keeping all other hops in place and alternatives all other hops in order |
| `ProfileRuns.RuleMoved` | src/core/pmx_profile.c:292-311 | the moved rule stands at the place asked for and the others keep their order |
| `ProfileRuns.RemovedIdNeverReturns` | src/core/pmx_profile.c:132-140 | an id once used and gone never names a proxy again |
| `ProfileRuns.PathSurvives` | src/core/pmx_profile.c:199-231 | over any run of edits that leaves a path alone, each hop stays in place as its id, or is voided iff its proxy was removed |
| `ProfileRuns.PathResolvesWholeOrNot` | src/core/pmx_engine.c:363-386 | such a path resolves to its original hop list or to nothing, and to nothing for good once one of its proxies was removed |
| `ProfileRuns.RemovalLeavesOnlyDefault` | src/core/pmx_profile.c:214-238 | after a removal the proxy is still named iff the default rule named it |
| `ProfileRuns.ChainRemovalLeavesOnlyDefault` | src/core/pmx_profile.c:351-371 | after a removal the chain is still named iff the default rule named it |
| `ProfileRuns.DefaultRuleDangles` | src/core/pmx_profile.c:232-238 | the input for which a reference is left, and that it then proxies through nothing |
| `ProfileRuns.DefaultChainDangles` | src/core/pmx_profile.c:351-371 | the same input for a removed chain |
| `Engine.Snapshots.Refresh` | src/core/pmx_engine.c:400-417 | publishes the whole current profile or leaves the previous version in force |
| `Engine.Snapshots.DecideFlow` | src/core/pmx_engine.c:419-441 | answers from the version in force |
| `Engine.SnapshotIsOneVersion` | src/core/pmx_engine.c:400-417 | in every interleaving the snapshot is the initial profile or the one at the latest successful publish |
| `Engine.DecisionsSeeOneVersion` | src/core/pmx_engine.c:400-441 | every answer is the resolution against one whole version, never a mixture; before the first publish it is direct |
| `Engine.EventLog.Record` | src/core/pmx_engine.c:463-482 | the ring keeps exactly the latest 512 events since the last clear |
| `Engine.EventLog.Recent` | src/core/pmx_engine.c:484-495 | returns the newest min(max, 512, recorded) events, oldest first, and writes no further |
| `Engine.LastNMeans` | src/core/pmx_engine.c:484-495 | the newest n are a suffix of the log of length n, or all of it |
| `Engine.EventLog.Clear` | src/core/pmx_engine.c:497-502 | forgets everything |
| `Engine.RingAppend` | src/core/pmx_engine.c:463-471 | writing at the wrapped index appends, dropping the oldest only when full |
| `Nat.NatTable.constructor` | src/core/pmx_nat.c:36-58 | an empty table with the defaults for zero capacity and non-positive TTL |
| `Nat.NatTable.Add` | src/core/pmx_nat.c:87-145 | replaces, fills or reclaims one slot; fails iff the port is absent and every slot is used, open and unexpired, changing nothing; a victim is the oldest-created reclaimable |
| `Nat.AddMeans` | src/core/pmx_nat.c:87-145 | an add is refused iff the port is 0, or absent with every slot open and not idle; a refusal changes nothing, and otherwise the port is bound to the entry, open and just seen |
| `Nat.AddKeepsOthers` | src/core/pmx_nat.c:110-145 | an add keeps every other binding, except that a new port in a full table replaces one that is closed or idle, the one created first among those |
| `Nat.NatTable.FindRoom` | src/core/pmx_nat.c:110-128 | a free slot if any, else the oldest reclaimable, else none |
| `Nat.NatTable.Find` | src/core/pmx_nat.c:147-170 | hits iff present and unexpired; a hit refreshes an open binding only |
| `Nat.NatTable.MarkClosed` | src/core/pmx_nat.c:172-182 | keeps the mapping and makes it reclaimable |
| `Nat.NatTable.Remove` | src/core/pmx_nat.c:184-200 | drops exactly that port |
| `Nat.NatTable.Expire` | src/core/pmx_nat.c:202-222 | keeps exactly the unexpired bindings and counts the dropped ones |
| `Nat.NatTable.Count` | src/core/pmx_nat.c:224-232 | the counter is the number of bindings |
| `Nat.OtherStepsMean` | src/core/pmx_nat.c:147-222 | a sweep drops exactly the idle bindings; a lookup hits iff the port's is not idle and refreshes it only if open; closing and removing concern their port alone |
| `Nat.TableFacts` | src/core/pmx_nat.c:7-34 | the slot array stands for a map from distinct non-zero ports |
| `Nat.PlacedOverVictim` | src/core/pmx_nat.c:118-127 | overwriting the chosen slot evicts an oldest reclaimable binding and nothing else |
| `NatRuns.RunIsSound` | src/core/pmx_nat.c:28-34 | in every reachable state at most capacity bindings, each under its own non-zero port |
| `NatRuns.LiveMappingNeverLost` | src/core/pmx_nat.c:72-222 | a lookup of a mapping added and left alone finds it, unchanged, iff every lookup so far came within the TTL of the last touch, however full the table and whatever interleaves |
| `NatRuns.NeverIdle` | src/core/pmx_nat.c:69-75 | when one step comes within the TTL of the last touch, every earlier step came within the TTL of the last touch before it |
| `NatRuns.ClosedStillMatches` | src/core/pmx_nat.c:147-182 | a closed mapping left in place is found unchanged iff the lookup comes within the TTL of the last touch before the close; lookups after the close do not extend that |
| `NatRuns.HitIsLatestAdd` | src/core/pmx_nat.c:147-170 | a hit always carries the entry of the latest add for its port |
| `Relay.PendingTable.Expire` | src/core/pmx_relay.c:70-79 | in-place compaction keeps exactly the records in time |
| `Relay.PendingTable.Register` | src/core/pmx_relay.c:81-116 | refuses bad arguments and a full table, otherwise the port's record becomes this one |
| `Relay.PendingTable.Take` | src/core/pmx_relay.c:119-136 | returns and removes the unexpired record for the port |
| `Relay.RegisterMeans` | src/core/pmx_relay.c:81-116 | refused for port 0, an empty or over-long chain, and when 64 other ports wait in time; otherwise the port waits with the record; nothing in time is lost and what is older than thirty seconds is dropped |
| `Relay.TakeMeans` | src/core/pmx_relay.c:119-136 | a take returns the record of its port that is younger than thirty seconds and drops it |
| `Relay.KeptIsUnexpired` | src/core/pmx_relay.c:70-79 | the compacted list stands for the unexpired part of the map |
| `Relay.ConnTable.Reap` | src/core/pmx_relay.c:141-156 | splits the table into those that stay and the harvest, both in order |
| `Relay.SplitFacts` | src/core/pmx_relay.c:141-156 | the two parts together are the table, nothing twice and nothing lost |
| `Relay.SplitParts` | src/core/pmx_relay.c:141-156 | both halves keep the order of the table |
| `RelayRuns.PendingBounded` | src/core/pmx_relay.c:98-104 | pending registrations never exceed 64 |
| `RelayRuns.TakeReturnsLatest` | src/core/pmx_relay.c:70-136 | a take returns a route iff it is the latest registration of the port, not yet taken and in time |
| `RelayRuns.ConsumedOnce` | src/core/pmx_relay.c:118-136 | between two hits on one port lies a registration of it, the latest, whose route is the second hit |
| `RelayRuns.AccountsBalance` | src/core/pmx_relay.c:194-217 | at every step of every interleaving accepted = ok + failed + allocation failures + undecided, and the table holds at most 64 |
| `RelayRuns.EntersBelow64` | src/core/pmx_relay.c:307-322 | a connection enters the table iff it holds fewer than 64, and is dropped iff not |
| `RelayRuns.MoveKeepsTracked` | src/core/pmx_relay.c:138-164 | every record is in exactly one place, none is lost, and only finished workers are joined |
| `Tunnel.ProxyHandshake` | src/core/pmx_proxy.c:226-240 | dispatch by proxy type; for SOCKS the exact bytes sent and read |
| `Tunnel.HopsAskedInOrder` | src/core/pmx_relay.c:175-193 | what the hop loop asks is always the front of the full list, and the full list when it succeeds |
| `Tunnel.SucceedsIffAllDo` | src/core/pmx_relay.c:174-193 | the hop loop succeeds iff the first hop was reached and every handshake accepted |
| `Tunnel.EndsAtTheFirstFailure` | src/core/pmx_relay.c:174-193 | otherwise the loop ends with the first failure as its status: dialling with nothing asked, or the first failed handshake with that hop asked last |
| `Tunnel.Dial` | src/core/pmx_relay.c:166-193 | the hop loop; success means every hop was asked in order, each for the next and the last for the destination; with SOCKS hops also the exact stream |
| `Tunnel.ChainReadsExactlyTheReplies` | src/core/pmx_relay.c:170-193 | after any chain of accepting SOCKS hops the stream stands at the first tunnelled byte |
| `Tunnel.EachPartAsksForItsHop` | src/core/pmx_relay.c:175-193 | what a chain of SOCKS hops is sent is one part for each hop in order, and each part decodes to a request for what that hop is asked for; a SOCKS4 part unless that is a 0.0.0.x literal |
| `Tunnel.TalkAsksFor` | src/core/pmx_proxy.c:108-189 | the same for one hop of either SOCKS version, with its credentials or user name |
| `Socks.BuildGreeting` | src/core/pmx_socks.c:42-63 | the greeting bytes, or invalid when the buffer is short |
| `Socks.BuildUserPass` | src/core/pmx_socks.c:65-95 | the sub-negotiation bytes, with the length limits |
| `Socks.BuildConnect5` | src/core/pmx_socks.c:97-135 | the request bytes for a literal or a name |
| `Socks.BuildConnect4` | src/core/pmx_socks.c:174-227 | the SOCKS4 or SOCKS4a request bytes; unsupported for a name without 4a |
| `Socks.GreetingRoundTrip` | src/core/pmx_socks.c:42-63 | a decoder after section 3 of RFC 1928 finds "no authentication" offered, and user name and password iff the proxy uses them |
| `Socks.OnTheWire` | src/core/pmx_socks.c:42-227 | the bytes of sample requests of each kind, with ports in network order |
| `Socks.Connect5RoundTrip` | src/core/pmx_socks.c:97-135 | a decoder after section 4 of RFC 1928 recovers host and port |
| `Socks.UserPassRoundTrip` | src/core/pmx_socks.c:65-95 | a decoder after section 2 of RFC 1929 recovers the credentials |
| `Socks.Connect4RoundTrip` | src/core/pmx_socks.c:174-227 | a SOCKS4 decoder recovers destination, port and user iff the destination is not a 0.0.0.x literal |
| `Socks.MarkerIsMisread` | src/core/pmx_socks.c:174-227 | the failing input: a request for 0.0.0.7 decodes to nothing |
| `Socks.ReadReply5` | src/core/pmx_proxy.c:147-170 | accepts exactly a whole successful reply of any address type and reads exactly it; the exact error for every other |
| `Socks.Handshake5` | src/core/pmx_proxy.c:108-172 | success sends greeting, credentials if asked and request, and reads exactly the dialogue; otherwise the connection broke or no dialogue was there; the exact bytes sent in every unbroken case |
| `Socks.Handshake4` | src/core/pmx_proxy.c:174-189 | success reads exactly eight bytes that grant the request; the exact bytes sent and the exact error in every unbroken case |
| `Socks.ReadsExactlyTheReplies` | src/core/pmx_proxy.c:119-171 | against any accepting server the client stops exactly behind the replies |
| `Socks.AcceptsOnlyReplies` | src/core/pmx_proxy.c:119-171 | whatever was read on success is the wire form of a whole accepting dialogue |
| `Socks.SentAsksForTheDestination` | src/core/pmx_proxy.c:114-145 | what was sent is the greeting, credentials if asked, and a request that decodes to the destination |
| `Socks.Sent4AsksForTheDestination` | src/core/pmx_proxy.c:174-189 | what a granted SOCKS4 handshake sent decodes to the asked host and port, a 0.0.0.x literal aside, and to the user name iff the proxy uses authentication |
| `Socks.Negotiate` | src/core/pmx_proxy.c:108-138 | the bytes sent and the error in every outcome of an unbroken connection, and the stream position on success |
| `Socks.CredentialsLeave` | src/core/pmx_proxy.c:119-133 | credentials go out iff the server picks user name and password and they fit, whether or not the handshake succeeds |
| `Socks.UnofferedCredentialsLeave` | src/core/pmx_proxy.c:126-133 | the failing input: credentials that were not offered go out as soon as the server asks |
| `Socks.OnlyOfferedCredentialsLeave` | src/core/pmx_proxy.c:114-133 | only offered credentials leave, whatever the server does, iff the proxy uses authentication or its credentials do not fit |
| `Redirect.Backend.OnConnect` | src/backend/windows/backend_windivert.c:207-293 | both registrations are attempted exactly when routable; the verdict allows a proxy flow only if both succeeded, or when fail-open |
| `Redirect.Backend.OnPacket` | src/backend/windows/backend_windivert.c:339-393 | headers are rewritten in place exactly when the table confirms the flow |
| `Redirect.Backend.OnFlowEnd` | src/backend/windows/backend_windivert.c:410-415 | the end of a flow marks its mapping closed and keeps it |
| `Redirect.MappedForItsOwnPackets` | src/backend/windows/backend_windivert.c:240-246 | under the mapping made for a flow each of the flow's own packets goes to the relay, and the relay's reply becomes the swap of it |
| `Redirect.FilterIsNarrow` | src/backend/windows/backend_windivert.c:506-513 | the filter shows outbound TCP packets that are not for 127.0.0.1 and inbound ones from the relay there, and a packet that is not TCP is never rewritten |
| `Redirect.RewriteInverse` | src/backend/windows/backend_windivert.c:343-384 | the reply to a rewritten packet is captured and becomes the swap of the original iff that left from the registered address |
| `Redirect.OtherAddressIsMisdelivered` | src/backend/windows/backend_windivert.c:356-384 | the failing input: a packet from another local address is redirected and its reply goes to the registered one |
| `Redirect.NeverRecaptured` | src/backend/windows/backend_windivert.c:506-513 | injected outbound packets are never captured again, injected replies iff the flow's destination was the relay itself |
| `Redirect.RedirectedIffNotLoopback` | src/backend/windows/backend_windivert.c:509-513 | a registered flow's packets reach the relay iff its destination is not loopback |
| `Redirect.OnlyTheLatestFlowIsRedirected` | src/backend/windows/backend_windivert.c:346-373 | in any run a captured packet that hits is rewritten iff it is headed for the destination of the latest mapping of its port |
| `Redirect.RedirectedIffInTime` | src/backend/windows/backend_windivert.c:343-373 | a captured packet of an undisturbed flow goes to the relay iff no lookup came too late, and otherwise leaves as it is |
| `Redirect.FlowRoundTrip` | src/backend/windows/backend_windivert.c:343-383 | over any run that keeps the flow alive its captured packets go to the relay and replies are captured and come back as its own; its packets are captured iff the destination is not loopback |
| `Redirect.NoCrossing` | src/backend/windows/backend_windivert.c:343-383 | two flows on distinct ports never see each other's replies |
| `Protocol.ConnectIsActs` | src/backend/windows/backend_windivert.c:207-293 | what the verdict method does to both tables and answers is one act of the protocol, or a registration followed by the mapping |
| `Protocol.DialIsAct` | src/core/pmx_relay.c:170-217 | what the dialling method returns for a worker is its last act, with the full list asked when it succeeds |
| `Protocol.NoUnderProxying` | src/core/pmx_relay.c:166-217 | whenever a relayed connection is spliced, its take took the latest registration of its port, made for one decision on a published profile, and the handshakes were exactly those of the whole target that decision named for its flow |
| `Protocol.FailClosed` | src/backend/windows/backend_windivert.c:207-281 | block never goes out, direct always does; under fail-closed a proxy flow goes out iff both registrations succeeded, and neither is attempted iff the flow cannot be redirected; then its full route, the whole target, went into the pending table and the connection table maps it |
| `Protocol.RoutableOrSettled` | src/backend/windows/backend_windivert.c:217-230 | a proxy decision is settled without registration iff it has no hops or the flow is IPv6, UDP or without a source port |
| `Protocol.MappingCarriesTheFlow` | src/backend/windows/backend_windivert.c:240-246 | in any run the mapping a verdict adds is under the flow's port, takes each packet with the flow's four endpoint fields to the relay, and gives its reply back as its own |
| `Protocol.JudgedByItsOwnFields` | src/core/pmx_engine.c:432-440 | rules see the flow's own application, host and destination port |
| `Protocol.AllowedIsRedirectedIffNotLoopback` | src/backend/windows/backend_windivert.c:509-513 | the packets of a proxy flow allowed under fail-closed are captured and redirected iff its destination is not loopback |
| `ProtocolRuns.LoopbackEscapes` | src/backend/windows/backend_windivert.c:217-281 | the failing run: a flow to 127.0.0.1 registered, mapped and allowed under fail-closed with no packet captured |
| `ProtocolRuns.TableRunsAlone` | src/core/pmx_nat.c:87-222 | what any run of the protocol does to the connection table is a run of that table |
| `ProtocolRuns.FlowIsCarried` | src/backend/windows/backend_windivert.c:343-383 | in any run of the whole protocol a flow that was mapped and kept alive has the packets with its own four endpoint fields carried to the relay when captured and the replies captured and carried back as its own; they are captured iff the destination is not loopback |
| `ProtocolRuns.CarriedIffInTime` | src/backend/windows/backend_windivert.c:343-373 | in any run of the whole protocol a captured packet of a mapped and undisturbed flow goes to the relay iff no lookup came too late |
| `ProtocolRuns.IdleFlowEscapes` | src/backend/windows/backend_windivert.c:343-373 | the failing run: an allowed proxy flow idle for longer than the TTL has its next packet captured and left as it is |
| `ProtocolRuns.PendingRunsAlone` | src/core/pmx_relay.c:70-136 | what any run of the protocol does to the pending table is a run of that table |
| `ProtocolRuns.PendingStaysBounded` | src/core/pmx_relay.c:98-104 | at every step of the protocol at most 64 registrations are pending |
| `ProtocolRuns.TakeHitsIffTimely` | src/core/pmx_relay.c:119-136 | in any run of the protocol an arriving connection is given a route iff that is the route of the latest registration of its port, not yet taken and in time |
| `ProtocolRuns.TablesAgree` | src/backend/windows/backend_windivert.c:240-260 | in any run a port both pending and mapped is so for one flow, with the mapping added after the registration for the same decision, except between the two registrations of a verdict on it |
| `ProtocolRuns.RecycledPortMixes` | src/backend/windows/backend_windivert.c:240-260 | the run for the exception: a recycled port with the new flow's route and the old flow's mapping |
| `ProtocolRuns.TunnelledForItsOwnFlow` | src/core/pmx_relay.c:166-217 | a connection that is spliced was registered for one decision and asked its whole target, and what the table then redirected on its port was headed for that same flow's destination and gives its packets their own replies, with that one exception |
| `Lockdown.Controller.ApplyEngage` | src/core/pmx_lockdown.c:198-203 | a missing firewall is a failure to engage |
| `Lockdown.Controller.DoReconcile` | src/core/pmx_lockdown.c:213-251 | firewall and reported state follow the policy |
| `Lockdown.Controller.DoSetPolicy` | src/core/pmx_lockdown.c:253-270 | reconciles only on a mode change while armed |
| `Lockdown.Controller.DoSetAllowlist` | src/core/pmx_lockdown.c:272-286 | keeps at most 32 endpoints and re-applies while engaged |
| `Lockdown.Controller.DoArm` | src/core/pmx_lockdown.c:288-298 | arms under the sanitized mode |
| `Lockdown.Controller.DoDisarm` | src/core/pmx_lockdown.c:300-311 | releases and goes inactive |
| `Lockdown.Controller.OnHealth` | src/core/pmx_lockdown.c:313-397 | one observation of the hysteresis machine, and whether the state changed |
| `Lockdown.EngagedLetsThroughTheList` | src/core/pmx_lockdown.c:198-286 | over any run from the start an engaged firewall lets through exactly the list it was handed last: the first 32 endpoints asked for, as of the latest engage or update it accepted; if it never refuses, always those asked for last |
| `Lockdown.ArmingFollowsTheMode` | src/core/pmx_lockdown.c:213-298 | arming, mode by mode: blocking modes, the unknown ones included, engage or report failed open, with the state that block-until-verified asks for; fail-open and off release |
| `Lockdown.ChangingModeIsArming` | src/core/pmx_lockdown.c:253-270 | while armed a change of mode is arming anew under the new policy; any other change only stores it |
| `Lockdown.TrippingFollowsTheMode` | src/core/pmx_lockdown.c:342-386 | the observation that reaches the failure threshold engages and reports blocking or failing over, or failed open when it could not, or releases under fail-open |
| `Lockdown.RestoringFollowsTheMode` | src/core/pmx_lockdown.c:332-341 | the one that reaches the success threshold reports healthy, keeping the firewall as it is in a blocking mode and releasing it under fail-open |
| `Lockdown.DisarmingReleases` | src/core/pmx_lockdown.c:300-311 | disarming leaves nothing engaged, whatever the mode |
| `Lockdown.StepStaysHonest` | src/core/pmx_lockdown.c:213-397 | every operation keeps: a reported block is real, nothing is engaged behind a non-blocking mode, an unarmed controller neither blocks nor claims to |
| `Lockdown.LockdownNeverClaimsABlockItLacks` | src/core/pmx_lockdown.c:213-397 | so in every reachable state |
| `Lockdown.NoWindow` | src/core/pmx_lockdown.c:179-397 | once engaged in a blocking mode the firewall is never taken down, unknown modes included, until disarm or a non-blocking mode |
| `Lockdown.HealthyNeedNotBeEngaged` | src/core/pmx_lockdown.c:225-341 | two failing runs: a refused engage, at arming or at a later change of mode, followed by recovery reports healthy without a block |
| `Lockdown.EngagedDecides` | src/core/pmx_lockdown.c:179-397 | in a blocking mode every later healthy report is true iff the firewall is engaged now |
| `Lockdown.EntryDecides` | src/core/pmx_lockdown.c:225-298 | at arming and at a change of mode alike, every later healthy report is true iff the firewall was engaged or is there and accepts, iff the state reported is not failed open |
| `Lockdown.StepCounts` | src/core/pmx_lockdown.c:324-397 | each trip and each restore pays its full threshold of observations |
| `Lockdown.FlapBound` | src/core/pmx_lockdown.c:253-397 | with the policy fixed, though perhaps sent again, changes alternate, and k of them since arming took at least floor(k/2)(F+S) observations |
| `Lockdown.ThresholdReacts` | src/core/pmx_lockdown.c:253-386 | a full threshold of failures in a row always leaves the healthy state, one of successes always reaches it, whatever allowlist updates and repeats of the policy come between |
| `OpenVpn.Tokenize` | src/core/pmx_vpn.c:53-72 | the first eight blank-separated words |
| `OpenVpn.DoStripComment` | src/core/pmx_vpn.c:43-50 | the text before the first comment character |
| `OpenVpn.ParseLine` | src/core/pmx_vpn.c:362-449 | one round of the line loop |
| `OpenVpn.ParseOpenVpn` | src/core/pmx_vpn.c:338-463 | the loops compute the fold over lines the theorems are about |
| `OpenVpn.BlockIsItsTag` | src/core/pmx_vpn.c:364-401 | an inline block has the same effect whatever its body says |
| `OpenVpn.BodiesDoNotMatter` | src/core/pmx_vpn.c:313-336 | two configs that differ in the body of an inline block parse to the same result |
| `OpenVpn.TextBodiesDoNotMatter` | src/core/pmx_vpn.c:338-384 | the same for the whole texts as the parser reads them, with or without a byte order mark and a final newline |
| `OpenVpn.LinesJoin` | src/core/pmx_vpn.c:353-361 | the lines of whole lines followed by any text are the lines of each |
| `OpenVpn.EndpointsAreTheRemotes` | src/core/pmx_vpn.c:113-130 | the endpoints are exactly the first eight remotes outside inline blocks, each with a non-zero port; truncation iff there were more; failure iff there were none |
| `OpenVpn.LinesOfText` | src/core/pmx_vpn.c:353-361 | splitting undoes joining newline-free lines |
| `OpenVpn.WrittenLine` | src/core/pmx_vpn.c:406-413 | a line of words, with or without a comment behind it, is taken as the directive of exactly those words |
| `OpenVpn.WrittenRemotesAreReadBack` | src/core/pmx_vpn.c:418-425 | a config of remotes written with host, port and transport parses to exactly these, the first eight, flagged when there were more and failing when there were none |
| `OpenVpn.RemoteInForce` | src/core/pmx_vpn.c:418-457 | a remote naming no port or transport gets the transport in force there and the port of the file, 1194 when that is 0 |
| `OpenVpn.StartsOnUdp1194` | src/core/pmx_vpn.c:345-346 | to start with that is UDP and 1194 |
| `OpenVpn.LatePortApplies` | src/core/pmx_vpn.c:429-457 | a port directive also sets the port of a remote that stands before it |
| `OpenVpn.CipherMeans` | src/core/pmx_vpn.c:431-435 | the first cipher named stays, under either name, cut to its buffer |
| `OpenVpn.MtuIsRead` | src/core/pmx_vpn.c:444-445 | the decimal text of an MTU is read back as that number |
| `OpenVpn.TcpNames` | src/core/pmx_vpn.c:422-423 | which transports are TCP |
| `OpenVpn.SecretBlocks` | src/core/pmx_vpn.c:302-311 | which blocks hold secrets |
| `OpenVpn.WrittenBlock` | src/core/pmx_vpn.c:364-404 | an opening line skips to its own closing line and notes secrets, whatever the tag, except "connection"; other closing lines do nothing |
| `OpenVpn.LongLineIsCut` | src/core/pmx_vpn.c:351-360 | a line counts up to its first 1023 characters and a tag up to its first 63 |
| `OpenVpn.MarkIsSkipped` | src/core/pmx_vpn.c:136-142 | a UTF-8 byte order mark is skipped and nothing else is |
| `Base64.Encode` | src/core/pmx_http_connect.c:9-48 | in bounds, terminated, 4 characters per 3 bytes begun, or invalid with the buffer untouched |
| `Base64.EncodedLength` | src/core/pmx_http_connect.c:14-14 | the text of n bytes has 4 * ceil(n / 3) characters |
| `Base64.AlphabetIsStandard` | src/core/pmx_http_connect.c:6-7 | the alphabet is the one of table 1 of RFC 4648 |
| `Base64.GroupAt` | src/core/pmx_http_connect.c:20-28 | each whole three bytes stand as their 24 bits six at a time from the top, at four times their place |
| `Base64.LastGroup` | src/core/pmx_http_connect.c:29-42 | one or two bytes left stand as two or three characters and pads |
| `Base64.RoundTrip` | src/core/pmx_http_connect.c:9-48 | a decoder after section 4 of RFC 4648 recovers the input |
| `Base64.Injective` | src/core/pmx_http_connect.c:9-48 | no two inputs share a text |

## Left out

- Sockets, DNS, threads, child processes, process lookup, ICMP and packet checksums: foreign calls, replaced by streams, steps and inputs.
- User interface, logging, display labels of proxies and chains (`via_label`, `rule_name` buffer size).
- JSON persistence of profiles: rests on cJSON, which is not part of this model.
- The WFP, pf and macOS backends: scaffolds without behaviour.
- The HTTP CONNECT handshake: how far it reads depends on packet boundaries, so its outcome is an input; only base64 is modelled of it.
- `Tunnel.Dial`: for chains with an HTTP hop it states the hops asked, not the stream position.
- Connects of the program's own process and socket events other than outbound connects: they pass through before the verdict.
- The proxy checker, the allowlist rebuild, the flow inbox and the health timer of the engine: queues and timers around the parts modelled here.
- WireGuard configs, VPN clients and their status output.
- `pmx_host_pattern_needs_names` and profile validation: warnings only.
- Wrap-around of 64-bit ids and counters, and overflow of the hysteresis counters after 2^31 observations.
- strtol on platforms with a 64-bit long. No port spec can see the larger bound at which it saturates, but a port or MTU in an OpenVPN config can: `remote h 4294967297` gives port 65535 with the 32-bit long modelled here and port 1 with a 64-bit one.
- Editing a proxy, rule, chain, VPN or the default rule through the pointer the profile returns is an edit that keeps the id (`FillProxy`, `FillRule`, `FillChain`, `FillVpn`, `FillDefault`), without a method of its own; setting titles, the lockdown policy and other settings touches no id and no reference.
