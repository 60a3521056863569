# FloppyGuard: the backend's protocols and compilers, modelled and proved

A Dafny model of the parts of `backend/internal` where a mistake would be hard to see: file protocols
that must survive a rejected configuration or a crash, compilers from admin rules to packet filters,
address arithmetic, and rewriting that must reach a fixpoint. `dafny verify dfyconfig.toml` checks all of it.

- **nginx transaction** (`NginxConfig.dfy`). `configure` and `bulkGenerateConfigs` move conf, `.bak`,
  `.disabled` and `.err` files; `nginx -t` is an arbitrary predicate on the whole live set, with no
  monotonicity. Each method is proved equal to a specification of its end state, and the lemmas say what
  that state keeps. `NginxTokenizer.dfy` is the statement tokenizer with its printer.
- **Certificate renewal** (`CertRenewal.dfy`). Each method returns the ghost list of all disk states it went
  through: `Path` makes neighbours one file operation apart (recursive removals may stop half way, certbot
  may leave anything anywhere), from the first state to the last. `RenewalCrash` and `RecoveryCrash` define
  where a process can die, every recorded state is one of these, and each of them is proved recoverable.
  `Safe` is the closed form of "a completed recovery leaves the fullchain usable".
- **Country filter** (`Powers`, `Blocks`, `GeoRanges`, `GeoFilter`, `Ipv6Text`). Range to CIDR list, exact
  and of least length; rows to a canonical list per family; IPv6 text. `GeoStats` and `GeoStatsRun` are the
  log follower with rotation.
- **Ingress filter** (`Ipv4Nets`, `IngressRules`, `IngressChain`, `IngressFlow`, `IngressOps`,
  `IngressInvariant`). The generated chain against the meaning of the rules, the flow tester against the
  chain, and what every sequence of admin operations keeps.
- **Site isolation** (`SiteRules`, `SiteApplier`). Planner, compiler, verdict, and the fail-safe applier
  with its held links, over every run.
- **Agent configs** (`ConfigText`, `AgentConfig`, `AgentSync`, `AgentReach`, `RuleEdits`). wg-quick text
  rewriting with its fixpoint, the reach computation, and the two in-place editors of live rule lists in
  the embedded agent script.

`Wrappers.dfy` holds `Option` and `Result`, `Seqs.dfy` notions and facts about sequences and maps that proofs call by name.

## What turned out not to hold as promised

Each has an exact condition and a concrete input in the model; the last one is a branch proved dead.

- `configure` can leave an invalid live set: a stashed conf that is put back was not part of the first test
  (`NginxConfig.ConfigureValidity`, `NginxConfig.StashCanBreak`). `bulkGenerateConfigs` does test that state.
- The check before a renewal's backup is discarded only asks whether the fullchain exists; an empty one
  costs the only valid certificate (`CertRenewal.UsableAfterRun`, `CertRenewal.EmptyFullchainLoses`).
  Numbered copies of the lineage are discarded with it: they stay usable only if certbot wrote them.
- A recovery after a crash of certbot looks at the fullchain only: old links can resolve into certbot's new
  archive, which is then kept, and the old private key goes with the backup. The live and the archive entry
  are of one generation exactly if both or neither of certbot's are kept, or the generations agree in one of
  them (`CertRenewal.OneGenerationIff`, `CertRenewal.OldLinksNewFiles`).
- Saving ingress rules does not count the lines of direct aliases, so an accepted ruleset can be refused by
  the builder (`IngressInvariant.BuildsIffAliasesFit`, `IngressInvariant.AliasesCanBreakTheBuild`).
- A bulk creation skips an enabled entry after a disabled entry with the same targets
  (`IngressInvariant.BulkServes`, `IngressInvariant.TwinIsSkipped`).
- A restarted applier holds no links: an enforced pair that is still listed is dropped by one accepted input
  in which one of its links is missing or is no site (`SiteApplier.FreshApplierKeepsIff`,
  `SiteApplier.RestartLosesPair`).
- Normalizing an agent config is stable exactly when `Table = off` lands in `[Interface]`; otherwise every
  sync adds a line (`AgentSync.NormalizedTwice`, `AgentSync.SyncFixpoint`, `AgentSync.PeerFirstGrows`).
- The reach of an agent is exact exactly when its hub peer has an `AllowedIPs` line
  (`AgentSync.SyncedReach`, `AgentSync.NoAllowedNoReach`).
- One rotation between two collects loses lines exactly if the collector did not follow the log that is
  rotated and an unread line counts on a kept day (`GeoStatsRun.RotationExact`,
  `GeoStatsRun.UnseenLogIsLost`).
- The branch of `bulkGenerateConfigs` for "the batch failed only together" is unreachable with a
  deterministic test and rendering (`NginxConfig.IsolationFindsOne`).

## Model

| member | source | states |
|---|---|---|
| NginxConfig.Nginx.BackupConfig | backend/internal/nginx.js:466-481 | a live conf is copied to .bak; otherwise a stashed one is moved there; true exactly if there was one |
| NginxConfig.Nginx.StashConfig | backend/internal/nginx.js:493-507 | the conf leaves the live set and is kept as .disabled |
| NginxConfig.Nginx.RestoreConfigBackup | backend/internal/nginx.js:525-533 | the .bak moves back, if there is one |
| NginxConfig.Nginx.DropConfigBackup | backend/internal/nginx.js:540-544 | the .bak goes, nothing else |
| NginxConfig.Nginx.DeleteConfig | backend/internal/nginx.js:852-868 | the conf goes, with the flag also .err and .disabled |
| NginxConfig.Nginx.RenameConfigAsError | backend/internal/nginx.js:875-889 | the rejected conf becomes .err and leaves the live set |
| NginxConfig.Nginx.Configure | backend/internal/nginx.js:335-456 | the whole end state and outcome of one configure, on all six paths |
| NginxConfig.ConfigureValidity | backend/internal/nginx.js:335-456 | the live set is valid at exit if and only if it was at entry and no unseen stashed conf that breaks it is put back |
| NginxConfig.ConfigureKeepsValid | backend/internal/nginx.js:335-456 | without a stashed conf a valid live set stays valid on every path |
| NginxConfig.StashCanBreak | backend/internal/nginx.js:466-481 | a concrete stash that makes a valid set invalid |
| NginxConfig.ConfigureConf | backend/internal/nginx.js:366-443 | new conf exactly if it was accepted, else the previous one, none only if there was none; other hosts untouched |
| NginxConfig.ConfigureLosesNothing | backend/internal/nginx.js:335-456 | every host that had a conf, live or stashed, has the same one afterwards, or the new one if it is the configured host and that was applied; live confs stay live |
| NginxConfig.OnlineIsLive | backend/internal/nginx.js:384-443 | the nginx_online written says whether the conf is live, nginx_err whether it was rejected |
| NginxConfig.StashThenConfigure | backend/internal/nginx.js:484-507 | stash then configure from a valid set gives the new conf or exactly the set from before |
| NginxConfig.Nginx.BulkGenerateConfigs | backend/internal/nginx.js:909-1013 | the whole end state of a bulk regeneration: all applied, base broken, or isolated host by host |
| NginxConfig.Nginx.MarkHostsRejected | backend/internal/nginx.js:1040-1058 | rejected hosts are marked, online if and only if their previous conf was kept |
| NginxConfig.BulkEndsValidOrBase | backend/internal/nginx.js:909-1013 | the final set passes the test, or it is exactly the pre-call set (stashed counted) and that set fails |
| NginxConfig.BulkHosts | backend/internal/nginx.js:909-1013 | each host holds its new or its previous conf, exactly the rejected the previous one or none; others untouched |
| NginxConfig.BulkLeavesNothing | backend/internal/nginx.js:921-938 | no .bak of the call and no picked-up stash remains, foreign .bak files stay, no working conf is lost |
| NginxConfig.BulkMeta | backend/internal/nginx.js:985-990 | rejected hosts are marked and online exactly if live; stale errors of accepted enabled hosts are cleared |
| NginxConfig.RejectedAtTurn | backend/internal/nginx.js:972-983 | a host is rejected if and only if its conf fails to render or fails the test at its turn |
| NginxConfig.IsolateInv | backend/internal/nginx.js:970-983 | isolation keeps the set valid and splits the hosts into accepted with new and the rest with base confs |
| NginxConfig.IsolationFindsOne | backend/internal/nginx.js:991-995 | isolation always names a culprit, so the "only together" branch is dead |
| NginxTokenizer.TokenizeNginxStatements | backend/internal/nginx.js:64-130 | the cursor loop computes the statements of the specification and advances on every input |
| NginxTokenizer.TokenizePrint | backend/internal/nginx.js:64-130 | quoted and escaped statements tokenize back to the same names and arguments |
| NginxTokenizer.PrintIsNormalForm | backend/internal/nginx.js:64-130 | printing what was tokenized is a normal form of any input |
| CertRenewal.Store.RecoverStaleRenewalBackup | backend/internal/certificate.js:1447-1500 | the recovered disk in any directory order; the recorded states lead there one file operation at a time, and each is a crash state of the recovery |
| CertRenewal.Store.BackupCertDirsForRenewal | backend/internal/certificate.js:1350-1405 | after recovery exactly the matching entries are aside, the list names them; every state on the way is recorded and is one of the recovery or has part of the entries aside |
| CertRenewal.Store.RestoreCertDirsBackup | backend/internal/certificate.js:1411-1426 | the moved entries are back over what certbot left; every state on the way is recorded, and in each every entry is aside or at home |
| CertRenewal.Store.DiscardCertDirsBackup | backend/internal/certificate.js:1428-1430 | the backup goes and nothing else changes; every state of the removal is recorded |
| CertRenewal.Store.RunCertbotRenewal | backend/internal/certificate.js:1303-1324 | success, final disk, and the recorded way there one file operation at a time: crash states of the renewal before the discard, partial removals in it, whatever certbot writes |
| CertRenewal.SafeIffRecovered | backend/internal/certificate.js:1447-1500 | safe means exactly that one completed recovery leaves the fullchain usable |
| CertRenewal.CrashesThenRecovery | backend/internal/certificate.js:1303-1500 | after any number of processes that died at a crash state of a recovery or renewal, one completed recovery makes the certificate usable |
| CertRenewal.RecoveryCrashSafe | backend/internal/certificate.js:1447-1500 | wherever a recovery dies, every fullchain that was safe is safe |
| CertRenewal.OneGenerationIff | backend/internal/certificate.js:1447-1500 | from such a disk one recovery leaves live and archive of one generation if and only if it keeps both or neither of certbot's entries, or the generations agree in one |
| CertRenewal.CrashIsBetween | backend/internal/certificate.js:1303-1426 | a renewal that dies behind its first recovery leaves each entry set aside, at home, or in certbot's version |
| CertRenewal.OldLinksNewFiles | backend/internal/certificate.js:1447-1496 | a crash of certbot after which one recovery leaves a usable fullchain without its private key |
| CertRenewal.RenewalCrashSafe | backend/internal/certificate.js:1303-1426 | wherever a renewal dies before its discard, the fullchain of its lineage that was safe is safe |
| CertRenewal.HeldIsSafe | backend/internal/certificate.js:1350-1426 | while each entry is aside or at home, the fullchain is safe whatever stands in its place |
| CertRenewal.PutBackSafe | backend/internal/certificate.js:1471-1491 | putting one entry back, cut short anywhere, loses nothing |
| CertRenewal.UsableAfterRun | backend/internal/certificate.js:1311-1324 | a failure keeps usable what was safe; after a success usable if and only if certbot's fullchain is not empty |
| CertRenewal.EmptyFullchainLoses | backend/internal/certificate.js:1317-1327 | an empty fullchain passes the existence check and the valid certificate is gone |
| CertRenewal.FailureRestores | backend/internal/certificate.js:1411-1426 | after a failure exactly the moved entries are as before, everything else as certbot left it |
| CertRenewal.RecoveryKeepsEntries | backend/internal/certificate.js:1470-1496 | every entry in place or in the backup survives a recovery, in one of its two versions |
| GeoRanges.BigRangeToCidrs | backend/internal/geo-filter.js:104-115 | both loops end; aligned blocks laid end to end from start to hi |
| GeoRanges.RangeExact | backend/internal/geo-filter.js:104-115 | disjoint aligned blocks whose union is exactly [start, hi] |
| GeoRanges.RangeMinimal | backend/internal/geo-filter.js:104-115 | no list of CIDRs with the same union is shorter |
| GeoRanges.RangeAtMost | backend/internal/geo-filter.js:104-115 | at most 2 * bits - 2 blocks |
| GeoRanges.CoverHasStarts | backend/internal/geo-filter.js:104-115 | any cover of which the range is a maximal stretch has a block at every start the loop chose |
| GeoFilter.CompressFamily | backend/internal/geo-filter.js:144-158 | sort, merge and write computes the compressed list |
| GeoFilter.ParseDbip | backend/internal/geo-filter.js:121-158 | rows, counts per country and networks; an error if and only if a wanted row is broken, naming the first |
| GeoFilter.DbipExactAndShortest | backend/internal/geo-filter.js:117-158 | per family exactly the union of the selected rows, each address once, and no CIDR list is shorter |
| GeoFilter.DbipOrderFree | backend/internal/geo-filter.js:121-158 | lists that select the same addresses give the same networks in the same order |
| GeoFilter.DbipPermuted | backend/internal/geo-filter.js:121-158 | in particular the row order does not matter |
| GeoFilter.CompressCanonical | backend/internal/geo-filter.js:144-158 | merging depends on the union only |
| Ipv6Text.BigToV6 | backend/internal/geo-filter.js:80-94 | the loops print the text of the specification |
| Ipv6Text.LongestZeroRun | backend/internal/geo-filter.js:83-91 | the run kept is the first longest one of at least two zero fields |
| Ipv6Text.V6RoundTrip | backend/internal/geo-filter.js:71-94 | v6ToBig(bigToV6(n)) is n for every n below 2^128 |
| Ipv6Text.V6Shortening | backend/internal/geo-filter.js:80-94 | sections 4.2.2 and 4.2.3 of RFC 5952: first longest run, never a single field |
| GeoStats.Find | backend/internal/geo-filter-stats.js:52-63 | only a covering range answers; in an ordered disjoint list a covering one is found |
| GeoStats.Collector.Collect | backend/internal/geo-filter-stats.js:121-205 | offset, inode, counters and number of one collect, with rotation and truncation |
| GeoStatsRun.ReadsWholeLines | backend/internal/geo-filter-stats.js:87-102 | a read takes whole lines from the offset, and all of them unless it hits the limit |
| GeoStatsRun.RunInv | backend/internal/geo-filter-stats.js:121-205 | over every allowed run the counters hold exactly the lines up to the offset, of the kept days |
| GeoStatsRun.ExactlyOnce | backend/internal/geo-filter-stats.js:121-205 | after an allowed run and a collect that can read all, each kept day and country counts exactly the complete lines ever written |
| GeoStatsRun.WrittenIsKept | backend/internal/geo-filter-stats.js:135-149 | rotation, reopening and collecting neither lose nor repeat anything written |
| GeoStatsRun.RotationExact | backend/internal/geo-filter-stats.js:121-205 | from any state of a run: rotation, new log, collect leave the counters equal to everything written if and only if the log was followed or what goes unread counts on no kept day |
| GeoStatsRun.UnseenLogIsLost | backend/internal/geo-filter-stats.js:136-145 | a run in which a log is created, written and rotated away between two collects, and its line is never counted |
| Ipv4Nets.CanonicalCidrSound | backend/internal/agent-ingress-rules.js:65-76 | host bits are masked off: the result is aligned and holds the address |
| Ipv4Nets.CanonicalRoundTrip | backend/internal/agent-ingress-rules.js:56-76 | the printed canonical form is read back unchanged |
| Ipv4Nets.ContainsIsInclusion | backend/internal/agent-ingress-rules.js:83-93 | cidrContains is exactly inclusion of address sets |
| Ipv4Nets.NestedOrDisjoint | backend/internal/site-isolation-rules.js:46-50 | two CIDRs are nested or disjoint, and overlap means containment one way |
| IngressRules.BuildIngressRestore | backend/internal/agent-ingress-rules.js:291-361 | no chain exactly without filter; else the chain and its line count, or an error if and only if not buildable |
| IngressChain.ChainMeansRules | backend/internal/agent-ingress-rules.js:291-361 | a new packet is accepted exactly if an enabled rule covers it, directly or by alias; dropped otherwise; open mode and other interfaces pass |
| IngressChain.EstablishedFirst | backend/internal/agent-ingress-rules.js:302-312 | established packets take the first line |
| IngressChain.RuleHit | backend/internal/agent-ingress-rules.js:313-350 | the lines of one rule match a packet exactly if the rule covers it, aliases included |
| IngressChain.FirstLineId | backend/internal/agent-ingress-rules.js:293-350 | the first line hit names the admitting rule with the least id |
| IngressFlow.TesterIsChain | backend/internal/agent-ingress-catalog.js:456-510 | for single-host flows the tester allows exactly what the chain accepts and names the line's rule |
| IngressFlow.RangeAllowedAccepts | backend/internal/agent-ingress-catalog.js:485-510 | an allowed range means every packet of it is accepted |
| IngressOps.SanitizeCidrList | backend/internal/agent-ingress-rules.js:101-119 | accepted if and only if the list is clean and short enough; the same networks, canonical, each once |
| IngressOps.SanitizePorts | backend/internal/agent-ingress-rules.js:121-150 | accepted if and only if every port is valid; the same ports, each once |
| IngressOps.SanitizeIngressRule | backend/internal/agent-ingress-rules.js:157-183 | accepted if and only if name, networks, ports and line count are acceptable; the result is the sanitized patch |
| IngressOps.SanitizedIsTheRequest | backend/internal/agent-ingress-rules.js:101-183 | an accepted patch holds the networks and ports of the request, no others, and in a partial request touches exactly the given fields |
| IngressOps.BulkDedupe | backend/internal/agent-ingress-catalog.js:551-579 | which entries are created, which disabled rules come back, which entries are skipped |
| IngressOps.AgentIngress.Create | backend/internal/agent-ingress.js:880-898 | ok if and only if the request is acceptable and admitted; then the step of its sanitized rule, else nothing |
| IngressOps.AgentIngress.Update | backend/internal/agent-ingress.js:900-926 | ok if and only if the change is acceptable and admitted, the line caps only if it can grow; then its step, else nothing |
| IngressOps.AgentIngress.Delete | backend/internal/agent-ingress.js:928-944 | ok if and only if the rule exists and a restricted agent keeps one; then it goes, else nothing |
| IngressOps.AgentIngress.SetMode | backend/internal/agent-ingress.js:946-960 | ok if and only if within the cap and not restricted without rule; then the mode changes, else nothing |
| IngressOps.AgentIngress.CreateBulk | backend/internal/agent-ingress.js:1123-1180 | ok if and only if every entry is acceptable and the whole is admitted; then all entries in one step, else nothing |
| IngressOps.AgentIngress.DisableBulk | backend/internal/agent-ingress.js:1182-1208 | ok if and only if every id exists and a restricted agent keeps a rule; then all ids in one step, else nothing |
| IngressInvariant.StepInv | backend/internal/agent-ingress.js:620-639 | each operation keeps: restricted has an enabled rule, at most 500 rules, lines times interfaces within 4000 |
| IngressInvariant.RunInv | backend/internal/agent-ingress.js:880-960 | so does every sequence of operations |
| IngressInvariant.ReachableBuilds | backend/internal/agent-ingress-rules.js:185-216 | without direct aliases a reachable ruleset always builds and emits exactly the counted lines |
| IngressInvariant.BuildsIffAliasesFit | backend/internal/agent-ingress-rules.js:207-216 | with aliases it builds if and only if counted plus alias lines are within the cap |
| IngressInvariant.AliasesCanBreakTheBuild | backend/internal/agent-ingress-rules.js:207-216 | eight creations and a mode switch, all accepted, reach a ruleset of 4000 counted lines of which 6000 are emitted |
| IngressInvariant.BulkServes | backend/internal/agent-ingress-catalog.js:533-579 | an entry's targets are served exactly if a rule had them or the first entry with them is enabled |
| IngressInvariant.TwinIsSkipped | backend/internal/agent-ingress-catalog.js:551-579 | a disabled entry and its enabled twin are accepted, and no enabled rule has their targets |
| SiteRules.SiteNetworks | backend/internal/site-isolation-rules.js:84-116 | the networks and the skipped inputs of a link |
| SiteRules.NetsDisjointSameUnion | backend/internal/site-isolation-rules.js:84-116 | pairwise disjoint networks with the union of the accepted inputs |
| SiteRules.NetsOrderFree | backend/internal/site-isolation-rules.js:84-116 | the result does not depend on the input order |
| SiteRules.PlanSiteIsolation | backend/internal/site-isolation-rules.js:159-241 | the enforceable pairs and the networks of their sites, each site computed once |
| SiteRules.BuildSiteIsolationNft | backend/internal/site-isolation-rules.js:248-289 | one set per site and two drop rules per pair |
| SiteRules.TableMeansPlan | backend/internal/site-isolation-rules.js:248-289 | the table drops exactly the packets between the two sites of a planned pair |
| SiteRules.DropsSymmetric | backend/internal/site-isolation-rules.js:248-289 | dropping is symmetric in source and destination |
| SiteRules.SiteIsolationVerdict | backend/internal/site-isolation-rules.js:303-321 | the verdict loop, open for unreadable ends |
| SiteRules.VerdictAgreesWithTable | backend/internal/site-isolation-rules.js:303-321 | blocked: all pairs dropped; partial: some; neither: none; exact for single hosts |
| SiteRules.TouchedDropsSome | backend/internal/site-isolation-rules.js:303-321 | something is dropped exactly if the verdict is blocked or partial |
| SiteRules.HostVerdictExact | backend/internal/site-isolation-rules.js:303-321 | for two hosts blocked holds if and only if the packet is dropped |
| SiteApplier.LinkLoader.LoadLinks | backend/internal/site-isolation.js:102-161 | the links read and the cache afterwards, metadata first |
| SiteApplier.CacheIsHistory | backend/internal/site-isolation.js:102-161 | after any calls the cache holds exactly the links that were live in one of them, as they were last live |
| SiteApplier.OutageKeepsPair | backend/internal/site-isolation.js:102-161 | after any calls of the loader, an outage of any length takes no pair with two once-live links in or out of the plan |
| SiteApplier.BlindIffNeverLive | backend/internal/site-isolation.js:96-161 | a link is read without a live view exactly if no call of the loader so far had a live record of it |
| SiteApplier.Applier.WithHeldLinks | backend/internal/site-isolation.js:246-271 | the missing counters afterwards and the links held over |
| SiteApplier.Applier.ApplyOnce | backend/internal/site-isolation.js:273-361 | the whole next state of one apply on all its paths |
| SiteApplier.PairsLeaveOnlyForCause | backend/internal/site-isolation.js:246-361 | over every run an enforced pair leaves only by the admin, by two readable inputs without a link, or by a live link that is no site |
| SiteApplier.AppliedIsKernel | backend/internal/site-isolation.js:343-361 | applied_pairs names the pairs of the last accepted script |
| SiteApplier.FailedApplyChangesNothing | backend/internal/site-isolation.js:273-361 | a failed apply changes neither the table nor what is remembered of it |
| SiteApplier.StreakIsHistory | backend/internal/site-isolation.js:246-271 | a counter exists only for a link the last readable input lacked |
| SiteApplier.FreshApplierKeepsIff | backend/internal/site-isolation.js:189-361 | after a restart, at every apply before the first accepted script, an enforced pair survives if and only if nothing is applied or it is listed with two readable sites |
| SiteApplier.RestartLosesPair | backend/internal/site-isolation.js:246-361 | a concrete pair that is enforced and still listed and is lost in the first apply after a restart |
| AgentConfig.ParseHubPeerAllowedIPs | backend/internal/agent.js:3045-3072 | the line loop reads every AllowedIPs line of the first peer only |
| AgentConfig.RewriteHubPeerAllowedIPs | backend/internal/agent.js:3079-3106 | the first AllowedIPs line of the hub peer becomes the list, its further ones go |
| AgentConfig.RewriteHubPeerEndpoint | backend/internal/agent.js:3138-3186 | the first readable Endpoint of the hub peer gets the hub host, with its exceptions |
| AgentConfig.BuildHubRules | backend/internal/agent.js:476-518 | the command line of PostUp or PostDown, or an error if and only if a value is no CIDR |
| AgentConfig.NormalizeAgentConfig | backend/internal/agent.js:544-589 | stripped lines with the hub-managed ones inserted at their place, or an error |
| AgentConfig.Agent.SyncOne | backend/internal/agent.js:3276-3362 | the row after one sync and whether a change is reported |
| AgentSync.ParseRewritten | backend/internal/agent.js:3045-3106 | the written list is read back, if there was a line to rewrite |
| AgentSync.ParseShown | backend/internal/agent.js:3138-3186 | a written Endpoint line is read back |
| AgentSync.NormalizedTwice | backend/internal/agent.js:544-589 | normalizing is stable exactly for anchored configs; otherwise each pass adds a line |
| AgentSync.SyncFixpoint | backend/internal/agent.js:3276-3362 | a second sync gives the same config if and only if the config is anchored |
| AgentSync.SecondSyncIsQuiet | backend/internal/agent.js:3276-3362 | the second sync of an anchored config reports no change and leaves the row |
| AgentSync.PeerFirstGrows | backend/internal/agent.js:544-589 | a config with [Interface] between two peers: a sync with the same metadata adds a line |
| AgentSync.SyncedReach | backend/internal/agent.js:3430-3432 | after a sync the hub peer's AllowedIPs are exactly tunnel subnet and reach, if and only if it has such a line |
| AgentSync.NoAllowedNoReach | backend/internal/agent.js:3079-3106 | a hub peer without AllowedIPs line does not get even the tunnel subnet |
| AgentSync.SyncedManaged | backend/internal/agent.js:544-589 | the only PostUp and PostDown lines are the two generated ones |
| AgentSync.SyncedCommands | backend/internal/agent.js:476-518 | their commands name exactly tunnel subnet, reach and exempted own nets |
| AgentSync.LaterSectionsKept | backend/internal/agent.js:3079-3186 | what follows the hub peer's section ends the synced config, stripped of managed lines only; if a [Peer] comes first, the generated lines follow it |
| AgentSync.LaterPeersOnly | backend/internal/agent.js:562-574 | later peers lose nothing but PostUp and PostDown lines |
| AgentReach.ReachIsExactly | backend/internal/agent.js:3238-3412 | reached is what a site exports, the lists permit (by site name only if one link has that name) and is not own; the rest is an overlap or orphan |
| AgentReach.SiteNetsAre | backend/internal/agent.js:3218-3228 | site networks are the acceptable nets of site-to-site links |
| AgentReach.RemovalPropagates | backend/internal/agent.js:3276-3432 | a net removed from every site link is gone from AllowedIPs, routes and NAT after the next sync |
| RuleEdits.Chain.DedupeIfaceRules | backend/internal/agent.js:810-840 | exactly the later copies are deleted, one recorded deletion at a time, each list without the copies behind some place |
| RuleEdits.DedupeKeepsVerdict | backend/internal/agent.js:810-840 | a list with the later copies deleted behind any place gives every packet the verdict it had |
| RuleEdits.DedupeIsInvisible | backend/internal/agent.js:810-840 | from the first list to the last, every list the kernel saw gives every packet the verdict it had |
| RuleEdits.DedupedOnce | backend/internal/agent.js:810-840 | no rule is lost and no removable one is left twice |
| RuleEdits.Chain.EnsureIngressJump | backend/internal/agent.js:706-719 | exactly one jump, at position 1, the others in order; one recorded insertion or deletion at a time, every list with the jump on top |

## Left out

- Process execution (nginx, certbot, nft, iptables, openssl): the test result is a predicate, nft's answers and certbot's writes are inputs.
- File operations and database patches succeed; the renewal model lets the process die between any two of them.
- Database queries and models: each locked transaction is one step on a rule list and a mode; row meta is what the last patch wrote.
- NginxConfig.Nginx.BulkGenerateConfigs: takes distinct hosts, because a list of rows has each host once; a host listed twice with only a stashed conf would lose it.
- Liquid templates and safety gates of `configure`: a rendered conf is an opaque value or a failure, the gates one boolean.
- CertRenewal.Store.RunCertbotRenewal: an intact lineage is renewed in place, where certbot alone protects the files; the crash claims are for the moved-aside path.
- Links of a live lineage point into the archive entry of the same name; other links and nested directories are not modelled.
- The separate certbot dir is always a second renewal dir; whether its live fullchain exists is an input.
- Text lexing of CSV rows, CIDR strings and JSON bodies: rows, addresses and ports arrive as parsed or malformed values. BigInt's tolerance of white space is not modelled.
- `v4ToBig`, `bigToV4`, `rangeToCidrs`: wrappers around the modelled arithmetic.
- Ipv4Nets.CanonicalRoundTrip: a text is four octets and a prefix as numbers, its characters are not modelled.
- GeoStatsRun.RotationExact: takes logs that end with a newline and an unread rest within the read limit; the code drops what a rotated file holds beyond that limit.
- GeoStats.Collector.Collect: counts countries only, because hosts and IPs are trimmed per day; offsets count characters, not bytes; days are numbers in the order of their keys; the country list is fixed over a run; the statistics file is read back as written.
- Site set names are hashes of link ids, taken as different for different sites (`NamesApart`).
- Warnings, comments, audit entries and messages carry no behaviour; `sanitizePairs`, counters and foreign drop rules would add easy members.
- IngressOps.AgentIngress.DisableBulk: the prune option (which rules are unused) is decided before the step and left out.
- Direct aliases arrive with well-formed addresses.
- The flow tester's isolation verdict and manual drops: `IngressFlow` takes a boolean and proves the case without them.
- AgentConfig.NormalizeAgentConfig: works on the list of lines; splitting at line ends and joining them is left out, so a line that ends in a stray carriage return, which a second pass would trim, is not covered.
- The Address line and CIDR syntax checks (`deriveTunnelSubnet`, `assertCIDR`, `canonicalizeIpv4Network`, `configuredHubHost`) are functions with a contract: clean words without white space, comma or `#`; an Address match within one line.
- Lower-casing of host names is ASCII only; hashes of configs are an uninterpreted function.
- RuleEdits.DedupeKeepsVerdict: matchers are stateless and what a called chain decides does not change meanwhile.
- The rest of the agent script (curl, self-update, service scan, boot unit, self-heal).
- Login, 2FA, OIDC, Cloudflare, notifications, access lists, host CRUD and settings validation: wrappers or single-branch checks.
