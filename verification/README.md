# Verified models of opencenter-cli

A Dafny project that models the parts of opencenter-cli that hold real logic and proves what they
keep over whole runs, all schedules, all inputs or all orders. `dafny verify dfyconfig.toml` checks
everything.

Code that works by changing things step by step is modelled by classes and methods with loops; each
method's `ensures` ties its new state to a specification function, and the properties are lemmas
about those functions. Code made of expressions is modelled by functions.

## What is modelled

**Resumable deploy** (`BootstrapService`, `BootstrapRuns`, `BootstrapHonesty`, `BootstrapOrder`,
`BootstrapOnce`, `BootstrapSelection`, `BootstrapSteps`). The step engine over the primary and the
legacy state file, the step map in memory and a log of attempts. Every file operation, readiness check
and step takes its outcome from a list of replies: it may work, be refused, or (a write) leave a torn
file, and the process dies when the list ends. Quantifying over reply lists therefore covers every
failure and a crash between any two operations. The two removals of a reset are separate operations.
Sequences of calls with any mixture of options are one call after the other on what the last one left.

**Multi-cluster sync** (`SecretsSync*`). The fan-out as interleaved steps, one program counter per
goroutine and one for the loop; channel semaphore, mutex, stop flag, wait group and result maps are
shared state. Schedules are lists of steps; the program form picks any enabled process next.

**Drift comparison** (`CloudTypes`, `StringSets`, `SecurityRules`, `DriftSpec`, `Drift`, `DriftProofs`,
`DriftAnswers`, `DesiredState`, `DesiredAnswers`). All `detect*Drift` methods append to a report object
in the arbitrary order in which a Go map is iterated; the specification is a multiset of items per
resource, with the last item of a key winning. Summary, severity filter and the desired state are
included.

**Layout migration** (`Paths`, `LayoutMoves`, `LayoutPlan`, `LayoutDiscovery`, `LayoutProofs`,
`LayoutForce`, `LayoutStops`, `LayoutZones`, `LayoutProgram`, `ConfigRewrite`). A file tree is the map
from file paths to contents. The legacy checks, the discovery of clusters, the plan, its validation, the
moves, `--force` and the in-place rewrite of the nested config maps, which live in a store of maps that
refer to each other.

**Terraform reader** (`PyText`, `TfScanners`, `TfPieces`, `TfParser`, `TfRoundTrip`, `TfWritten`,
`TfModules`, `TfAnswers`). The two quote scanners, the mutually recursive parser, the scalar writer and
the module reader of `tf2yaml.py`.

**State inventory** (`InventorySpec`, `Inventory`, `InventoryProofs`, `InventoryAnswers`), **kubeconfig
rewrite** (`Kubeconfig`) and **feature tagger** (`TagWip`, `TagWipProofs`, `TagWipLines`).

`Text`, `TextAnswers` and `Sequences` hold shared helpers. The modules named after answers, pieces,
lines, zones and selection state what the code decides with every name, key, path and severity written
out.

## Where the code does less than it seems to

Each of these is kept as it is in the code, with a lemma that says exactly when it matters.

- A reset that removes the primary state file and then fails on the legacy one brings old successes
  back: the saved state stays honest over all deploys exactly when every step the legacy file records
  as done was last attempted with success and is on none of the lists that these deploys build
  (`BootstrapHonesty.HonestExactlyOutOfReach`, `BootstrapSteps.DeploysHonestExactlyWhen`).
- With `--concurrency 0` no schedule of a non-empty sync ever returns
  (`SecretsSyncRuns.FinishesExactlyWithASlot`).
- `equalStringSets` takes `[]` and `[""]` for equal (`StringSets.EqualStringSetsIsMultisetEquality`).
- An `attached_to` item for a volume is unreachable, because the key of a volume already tells its
  attachment (`DriftProofs.VolumesNeverReattached`).
- `CalculateSummary` adds to the counters without clearing them (`Drift.Report.CalculateSummary`).
- An SSH key claimed by two clusters, such as `prod-eu` beside `prod` (`LayoutProofs.DashedNamesClash`),
  passes validation and then stops the migration half way (`LayoutProofs.MigrationSucceedsExactlyWhen`).
  No file is lost then (`LayoutStops.StoppedRunLosesNothing`), but the command refuses to be run again
  once the Git repository has been moved (`LayoutStops.RestartNeedsTheRepository`).
- With the VIP 127.0.0.1 the kubeconfig keeps its localhost URLs
  (`Kubeconfig.DottedRewritesCleanExactlyWhen`).
- `parse_modules` counts braces on raw lines, so those in comments count: the blocks it collects are those
  of the file exactly when each is balanced, comments included, on its last line and on none before
  (`TfModules.BlocksFoundExactlyWhen`). One that is balanced too early loses the assignments behind that
  line (`TfModules.CutOffIsLost`, `TfModules.CutInsideIsLost`), one that is balanced too late swallows the
  modules up to there (`TfModules.SwallowedIsLost`).
- The comment on `parse_assignments` promises `{ a = 1, b = 2 }` as an object of two entries, but a
  mapping on one line comes back if and only if it has at most one entry
  (`TfWritten.OneLineComesBackExactlyWhen`).
- Bars in a rule and NULs in a node can make different ones look alike; both comparisons are exact up
  to that (`SecurityRules.NormalizeComparesFields`, `InventoryProofs.NodeKeysTell`).

## Model

| member | source | states |
|---|---|---|
| BootstrapHonesty.SavedSuccessIsHonest | internal/cluster/bootstrap_service.go:384-425 | over any runs with any options, failures, torn writes and crashes, a step that the next run would take for done, recorded as success or skipped, had a most recent attempt that returned nil, as long as no reset left a legacy file behind |
| BootstrapRuns.LastOkExactly | internal/cluster/bootstrap_service.go:516-566 | having last been attempted with success is having a nil return in the log with no other attempt behind it |
| BootstrapHonesty.HonestExactlyOutOfReach | internal/cluster/bootstrap_service.go:394-401 | with no assumption on resets: over all calls that build any of the given lists of named steps, that honesty holds if and only if every step the legacy file records as success or skipped was last attempted with success and is on none of the lists |
| BootstrapSteps.DeploysHonestExactlyWhen | internal/cluster/bootstrap_service.go:394-507 | so for all deploys of any set of configurations, with the lists the command builds for them: what only retired steps left behind does no harm |
| BootstrapHonesty.StaleRunsMislead | internal/cluster/bootstrap_service.go:781-804 | three calls, the second running one listed step by name, after which a step taken for done was last attempted with a failure |
| BootstrapOrder.SavedStateIsAPrefix | internal/cluster/bootstrap_service.go:514-566 | over unfiltered runs of one list of distinct steps the saved state is successes on a prefix and at most one open step after it, and no step started before all earlier ones had succeeded since the last reset |
| BootstrapOrder.FreshOkExactly | internal/cluster/bootstrap_service.go:516-566 | having succeeded since the last reset is having a nil return in the log with neither a reset nor another attempt behind it |
| BootstrapSteps.ListsAreDistinct | internal/cluster/bootstrap_service.go:427-507 | every list the command can build for a provider has distinct step IDs |
| BootstrapSteps.BuildSteps | internal/cluster/bootstrap_provider_infra.go:25-152 | the OpenTofu steps in order, the two Flux steps only with a token provider and a Git URL, and no list when a lookup fails |
| BootstrapSteps.ListsRunInOrder | internal/cluster/bootstrap_service.go:427-507 | which provider has a list under which conditions, and its steps by name and order |
| BootstrapSteps.StepsWaitForEarlier | internal/cluster/bootstrap_provider_infra.go:43-150 | in deploys of one configuration no step starts, infrastructure before initialization or Flux before the network, until all steps named before it have succeeded since the last reset |
| BootstrapSteps.DeploysFollowTheList | internal/cluster/bootstrap_service.go:427-507 | so deploys of any one configuration, restarted or not, keep the prefix shape and the order of its list |
| BootstrapSteps.FluxWaitsForTheNetwork | internal/cluster/bootstrap_provider_infra.go:128-146 | Flux is never started before the infrastructure is applied and the network plugin is installed |
| BootstrapOnce.StepsRunAtMostOncePlusLosses | internal/cluster/bootstrap_service.go:516-566 | over plain runs between resets a step returns nil at most once plus the times the process died or a save failed right after it returned |
| BootstrapOnce.NilRecordsEveryStep | internal/cluster/bootstrap_service.go:384-425 | an unfiltered provisioning that returns nil leaves every listed step recorded as done on disk |
| BootstrapSelection.FromStepRunsTheRest | internal/cluster/bootstrap_service.go:721-728 | a call from a named step attempts, whatever was saved, that step and those behind it in order and none before it; if the provisioning returns nil each of them was attempted once and returned nil |
| BootstrapSelection.OnlyStepRunsOne | internal/cluster/bootstrap_service.go:712-719 | a call of one named step attempts it and no other, even if a from-step is given too |
| BootstrapSelection.RestartRunsAll | internal/cluster/bootstrap_service.go:709-730 | a restart attempts all steps in order |
| BootstrapSelection.PlainCallRunsThePending | internal/cluster/bootstrap_service.go:404-424 | a plain call attempts in order exactly the steps that the saved state does not record as success or skipped, and stops at a torn file |
| BootstrapSelection.UnknownStepIsRefused | internal/cluster/bootstrap_service.go:712-726 | a named step that is not on the list is an error before anything is attempted |
| BootstrapSelection.DeployAttemptsTheSame | internal/cluster/bootstrap_service.go:214-382 | what follows the steps in a deploy attempts nothing, so all this holds of the whole call |
| BootstrapSelection.DryRunLists | internal/cluster/bootstrap_service.go:703-731 | a dry run lists the same selection |
| BootstrapService.Service.SaveBootstrapState | internal/cluster/bootstrap_service.go:806-825 | the write replaces the primary file, leaves it, or tears it, and says which |
| BootstrapService.Service.LoadBootstrapStateWithFallback | internal/cluster/bootstrap_service.go:781-804 | the primary file if it exists, else the legacy one, else an empty state; a torn file is an error |
| BootstrapService.BootstrapState.SetStepStatus | internal/cluster/bootstrap_service.go:844-854 | one entry of the map in memory changes, in place |
| BootstrapService.Service.ExecuteStep | internal/cluster/bootstrap_service.go:516-566 | skip, save running, attempt, save the result: files, log and result lists as the specification says |
| BootstrapService.Service.ExecuteBootstrapSteps | internal/cluster/bootstrap_service.go:509-574 | the loop over the selected steps, stopping at the first that fails |
| BootstrapService.Service.ProvisionInfrastructure | internal/cluster/bootstrap_service.go:384-425 | clearing or loading the state, building, filtering and running the steps |
| BootstrapService.Service.Bootstrap | internal/cluster/bootstrap_service.go:214-382 | a whole call, with the removal of both files after success; a dry run changes nothing and lists the filtered steps |
| SecretsSyncRuns.AtMostLimitInFlight | cmd/secrets_sync.go:198-221 | under every schedule the syncs in flight never exceed the slots held, nor those the limit |
| SecretsSyncRuns.StopOnErrorIsPrompt | cmd/secrets_sync.go:205-265 | with stop-on-error at most the limit of clusters fail, fewer than the limit record after the flag is set, and the flag is set exactly when one has failed |
| SecretsSyncRuns.NeverStuck | cmd/secrets_sync.go:198-270 | with a slot, every state reached short of the end has an enabled step |
| SecretsSyncRuns.EveryScheduleFinishes | cmd/secrets_sync.go:198-285 | with a slot every schedule is bounded and ends with a report of what its syncs returned: each cluster whose sync worked is in the results and each whose sync failed in the failures, there is an error if and only if a sync failed, and without a stop every sync has returned |
| SecretsSyncRuns.ReportSplits | cmd/secrets_sync.go:248-285 | with distinct names such a report splits the clusters exactly between the two maps, nobody being left out unless it was told to stop |
| SecretsSyncRuns.ResultIsOutcome | cmd/secrets_sync.go:232-265 | a goroutine carries what its sync returned, from then on to the end of every schedule |
| SecretsSyncRuns.FinishesExactlyWithASlot | cmd/secrets_sync.go:179-285 | some schedule returns if and only if there is a slot or nothing to do |
| SecretsSyncProofs.StepKeeps | cmd/secrets_sync.go:205-265 | every step of the loop or of a goroutine keeps the counts of slots, the lock owner, the flag, the bound on late outcomes and the labelling of the maps |
| SecretsSyncProgram.FanOut.WorkerStep | cmd/secrets_sync.go:216-265 | one step of a goroutine on the shared fields |
| SecretsSyncProgram.RunMultiClusterSync | cmd/secrets_sync.go:179-287 | for whatever the syncs return the call returns, on every choice of the next process, with the maps and the error of a schedule that follows these results; there is an error if and only if some cluster's sync fails, each map lists only clusters with the matching result (all of them without stop-on-error), and with stop-on-error at most the limit of clusters fail |
| StringSets.EqualStringSetsIsMultisetEquality | internal/cloud/compare.go:764-772 | for NUL-free strings the comparison is equality of multisets, but for an empty list against one empty string |
| StringSets.EqualToPermutation | internal/cloud/compare.go:764-772 | whatever the strings, a list equals its reorderings |
| StringSets.SortedIsUnique | internal/cloud/compare.go:768-772 | a multiset of strings has one sorted listing |
| StringSets.LeqIsLexicographic | internal/cloud/compare.go:768-772 | the order sorted by is the lexicographic one, by the first character that differs |
| SecurityRules.CompareSecurityRules | internal/cloud/compare.go:610-640 | exactly the desired rules without a counterpart and the unwanted high-risk rules, in order |
| SecurityRules.NormalizeComparesFields | internal/cloud/compare.go:642-649 | two rules agree field by field, up to white space and case, if and only if they normalize to one text and their fields hold equally many bars |
| SecurityRules.BarFreeRulesCompareByFields | internal/cloud/compare.go:642-649 | so for rules without bars, as real ones are, being counterparts is agreeing field by field |
| SecurityRules.HighRiskMeansOpenApiPort | internal/cloud/compare.go:660-693 | for a well-formed port range, the empty one and the star included, high risk is ingress from anywhere with 6443 among its ports |
| SecurityRules.ProviderRangesAreDenoted | internal/cloud/openstack/provider.go:777-785 | every range the provider writes is well formed and denotes the limits it was written for |
| SecurityRules.ProviderRulesAreGraded | internal/cloud/openstack/provider.go:777-785 | so a rule listed by the provider is high risk if and only if it is ingress from anywhere and its limits, two zeros being none, let 6443 in |
| SecurityRules.MissingMembers | internal/cloud/compare.go:610-640 | a rule is reported missing if and only if it is desired and nothing actual normalizes to it |
| SecurityRules.RiskyExtraMembers | internal/cloud/compare.go:610-640 | a rule is a risky extra if and only if it is actual, unwanted and high risk |
| TextAnswers.OtherTextIsNoNumber | internal/cloud/compare.go:680-691 | nothing with another character than a digit behind its first is a port, and only a sign may be the first |
| TextAnswers.NumbersAreRead | internal/cloud/compare.go:680-691 | digits are read with their sign, within 64 bits |
| TextAnswers.SignsAreNoNumbers | internal/cloud/compare.go:680-691 | an empty text and a bare sign are no ports |
| TextAnswers.PrintedExactly | internal/cloud/openstack/provider.go:777-785 | numbers are printed in tens, from the first digit that is not zero |
| TextAnswers.TrimsExactly | internal/cloud/compare.go:642-671 | trimming takes the white space from both ends and nothing else |
| TextAnswers.FoldExactly | internal/cloud/compare.go:661-661 | two texts fold together if and only if they agree letter by letter up to case |
| DriftProofs.RulesDriftExactlyWhen | internal/cloud/compare.go:311-335 | a rules item is due if and only if a desired rule is absent or an unwanted one is high risk, and it is critical if and only if a missing one is high risk or such an extra exists |
| DriftAnswers.ReportHoldsExactlyTheDue | internal/cloud/compare.go:12-608 | an item is in the report exactly as often as it is due: once for each field in which the resources kept under one name differ on both sides, with the values, severity and reconcilability of that field, once for each resource of one side only, once for a differing count and once per pair of floating IPs; nothing else is in it |
| DriftAnswers.DueTellsKind | internal/cloud/compare.go:64-608 | what is due of one kind of resource says so, so nothing is due twice |
| DriftAnswers.ServerReport | internal/cloud/compare.go:64-176 | the items of servers: flavor, image, status, tags and networks, each with its condition, and the severity of a missing server by its role |
| DriftAnswers.NetworkReport | internal/cloud/compare.go:178-288 | the items of networks and of the subnets in them |
| DriftAnswers.GroupReport | internal/cloud/compare.go:290-355 | the items of security groups |
| DriftAnswers.BalancerReport | internal/cloud/compare.go:357-452 | the items of load balancers: protocol, port, VIP and members |
| DriftAnswers.VolumeReport | internal/cloud/compare.go:454-535 | the items of volumes: size, status, and attachment, which the keys exclude |
| DriftAnswers.FloatingIPReport | internal/cloud/compare.go:537-608 | the items of floating IPs, pair by pair |
| DriftSpec.ByKeyIsLastWins | internal/cloud/compare.go:774-784 | the keyed map holds the last item of every non-empty key and nothing else |
| Drift.MapByKey | internal/cloud/compare.go:774-784 | the loop builds that map |
| Drift.Report.DetectServerDrift | internal/cloud/compare.go:64-176 | in whatever order the maps are walked, the report gains the multiset of missing, unexpected and changed items of the servers |
| Drift.Report.DetectNetworkDrift | internal/cloud/compare.go:178-233 | the same for networks, with the subnets of those on both sides |
| Drift.Report.DetectSubnetDrift | internal/cloud/compare.go:235-288 | the same for the subnets of one network |
| Drift.Report.DetectSecurityGroupDrift | internal/cloud/compare.go:290-355 | the same for security groups |
| Drift.Report.DetectLoadBalancerDrift | internal/cloud/compare.go:357-452 | the same for load balancers |
| Drift.Report.DetectVolumeDrift | internal/cloud/compare.go:454-535 | the same for volumes |
| Drift.Report.DetectFloatingIPDrift | internal/cloud/compare.go:537-608 | a count item, and the fields of the floating IPs paired in key order |
| Drift.CompareInfrastructureState | internal/cloud/compare.go:12-35 | the items of all six kinds, a missing side counting as an empty state, and the summary of exactly these items |
| Drift.Report.CalculateSummary | internal/cloud/compare.go:37-62 | the counters grow by the counts of the items, and the overall severity is their maximum |
| Drift.CountsAddUp | internal/cloud/compare.go:37-62 | the counts of the three severities add up to the number of items |
| Drift.AllReconcilable | internal/cloud/compare.go:37-62 | the reconcilable items are at most all, and all if and only if every item is reconcilable |
| Drift.FilterBySeverity | cmd/cluster_drift.go:811-863 | the items of the wanted severity in order, recounted; the whole report for an unknown one |
| Drift.FiltersPartition | cmd/cluster_drift.go:811-863 | the three filters split the items, and each agrees with the full summary |
| Drift.FilterGrades | cmd/cluster_drift.go:835-863 | a filtered report is graded with the filter's severity unless it is empty |
| DriftProofs.CleanAgainstItself | internal/cloud/compare.go:64-176 | comparing a state with itself reports nothing if and only if every server kept under its key is active or without status |
| DriftProofs.CleanAgainstReordering | internal/cloud/compare.go:537-608 | with identifying keys the same holds against any reordering, of the resources and of the networks, subnets, rules and members inside them |
| DriftProofs.KeyOrderIsUnique | internal/cloud/compare.go:537-608 | two key-ordered listings of the same floating IPs pair every one with itself |
| DriftProofs.VolumeKeysTellAttachment | internal/cloud/compare.go:741-752 | volumes with one non-empty key agree on their attachment |
| DriftProofs.VolumesNeverReattached | internal/cloud/compare.go:454-535 | no volume item is ever about attached_to |
| DriftProofs.MovedVolumeIsMissingAndUnexpected | internal/cloud/compare.go:454-535 | with identifying keys, a volume whose key the other side lacks gives exactly one missing item, or exactly one unexpected item, whatever else differs |
| DriftProofs.MovedVolumeIsExactlyTwoItems | internal/cloud/compare.go:454-535 | when one uniquely keyed volume has moved to a server without a volume, the report on volumes is exactly one missing and one unexpected item |
| DriftProofs.ReplacedVolumeIsTwoItems | internal/cloud/compare.go:454-535 | the same for any replacement of one volume by one with a key of its own |
| DesiredState.BuildDesiredState | cmd/cluster_drift.go:495-740 | the counted loops produce the servers, volumes and fabric of the specification |
| DesiredAnswers.ServersExactly | cmd/cluster_drift.go:508-640 | a server is desired if and only if it is a numbered master, worker or pool node with the flavor, image, networks and tags of its role on its provider |
| DesiredAnswers.ServersAreCounted | cmd/cluster_drift.go:508-640 | there are as many as the counts add up to |
| DesiredAnswers.VolumesExactly | cmd/cluster_drift.go:540-640 | a volume is desired if and only if it is the datastore volume or the boot volume of such a node |
| DesiredAnswers.OpenStackFabricExactly | cmd/cluster_drift.go:642-713 | on OpenStack: one network and subnet, a group that opens the API port to the access list, a worker group, and a balancer or a floating IP by the balancer settings |
| DesiredAnswers.OtherFabricExactly | cmd/cluster_drift.go:714-735 | elsewhere nothing but a network |
| DesiredState.DesiredStateComparesClean | cmd/cluster_drift.go:495-740 | every desired state compares clean against itself |
| DesiredState.NodeNameInjective | cmd/cluster_drift.go:495-560 | a node name determines its pool prefix and number |
| DesiredState.DesiredServersAreKeyed | cmd/cluster_drift.go:495-560 | with distinct pool names no two desired servers share a key |
| DesiredAnswers.DesiredComparesCleanInAnyOrder | cmd/cluster_drift.go:495-740 | with distinct pool names a desired state compares clean against itself in any order, inner lists included |
| LayoutPlan.BuildLayoutMigrationPlan | cmd/cluster_migrate_layout.go:209-254 | there is a plan if and only if no cluster has private paths inside the GitOps directory, and it lists every due move once |
| LayoutPlan.LegacySSHKeyMoves | cmd/cluster_migrate_layout.go:279-304 | exactly the files of the SSH directory that the cluster claims, to its own secrets directory |
| LayoutPlan.LegacyGitOpsMoves | cmd/cluster_migrate_layout.go:306-336 | every entry of the legacy directory but secrets and cluster configs, once |
| LayoutProofs.MigrationSucceedsExactlyWhen | cmd/cluster_migrate_layout.go:209-254 | for zones that are apart and a validated plan, in whatever order and forced or not: it runs to its end if and only if no SSH key has two claimants, no file stands where a directory is needed and every config parses; then every order leaves the same tree, and every file that was not at a destination is in it once, where its move says |
| LayoutProofs.PlanApart | cmd/cluster_migrate_layout.go:209-254 | with single ownership no two sources of the plan are nested, and no two destinations |
| LayoutProofs.NoSecretsInGitOps | cmd/cluster_migrate_layout.go:306-336 | a finished migration has put nothing of the secrets directory and no cluster config into the GitOps zone |
| LayoutZones.KeysLand | cmd/cluster_migrate_layout.go:229-268 | after a finished migration the age keys of every cluster, private and public, are in the secrets zone under that cluster, unchanged |
| LayoutZones.SshKeysLand | cmd/cluster_migrate_layout.go:279-304 | so is every file of the SSH directory that carries the name of the cluster |
| LayoutZones.ConfigsLand | cmd/cluster_migrate_layout.go:219-274 | the rewritten config of every cluster is in the state zone under that cluster |
| LayoutZones.GitOpsLands | cmd/cluster_migrate_layout.go:306-336 | everything else is in the GitOps zone under its name |
| LayoutZones.OnlyConfigsInState | cmd/cluster_migrate_layout.go:219-240 | with private zones apart, nothing but rewritten configs is new in the state zone |
| LayoutZones.OnlySecretsInSecrets | cmd/cluster_migrate_layout.go:229-304 | and nothing but keys of the clusters, unchanged, in the secrets zone |
| LayoutZones.PrivatePathsExactly | internal/core/paths/secure.go:71-98 | a cluster can be planned if and only if none of its five private paths is at or inside the GitOps directory |
| LayoutProofs.WhatStaysBehind | cmd/cluster_migrate_layout.go:279-336 | what is still in the legacy directory is unchanged and unclaimed, and no source of the plan is left |
| LayoutStops.OnlySecretsStayBehind | cmd/cluster_migrate_layout.go:173-336 | with the clusters that are discovered, that is nothing but files of the secrets directory and a config without a name |
| LayoutStops.StoppedRunLosesNothing | cmd/cluster_migrate_layout.go:130-134 | however a validated plan ends, in whatever order and forced or not: some first moves are made in full and the others not at all, so every file is where it was or where its move says, once; --force has cleared their destinations and at most that of the move that failed |
| LayoutStops.RestartNeedsTheRepository | cmd/cluster_migrate_layout.go:86-146 | the Git repository is still in place if and only if its move is not among those made; once it is, and so after every finished run, a second run is refused |
| LayoutProofs.ClaimantsArePrefixes | cmd/cluster_migrate_layout.go:287-294 | two clusters claim one file only if one name starts with the other |
| LayoutMoves.MovesRelocate | cmd/cluster_migrate_layout.go:350-397 | compatible moves all succeed and take every file to its target, once |
| LayoutMoves.AnyOrder | cmd/cluster_migrate_layout.go:350-397 | they do so in every order, with the same final tree |
| LayoutMoves.RelocatedKeepsSize | cmd/cluster_migrate_layout.go:350-397 | no file is lost or duplicated |
| LayoutMoves.RepeatedSourceFails | cmd/cluster_migrate_layout.go:386-397 | a plan that names a source twice cannot run to its end |
| LayoutForce.ForceReplacesDestinations | cmd/cluster_migrate_layout.go:359-363 | with --force the outcome is as if exactly what was at the destinations had been deleted beforehand |
| LayoutProofs.PlanCompatible | cmd/cluster_migrate_layout.go:209-254 | once its destinations are clear, a plan with single ownership, readable configs and room for directories has nothing in its way |
| LayoutProgram.FileTree.ApplyLayoutMove | cmd/cluster_migrate_layout.go:350-384 | one move on the tree in place, error paths included |
| LayoutZones.OneMoveExactly | cmd/cluster_migrate_layout.go:350-384 | without --force a move works if and only if its target is below no file and is free, or a file for a file, and its source is there, as a config that parses or as anything that does not contain the target; a move that fails changes nothing |
| LayoutProgram.FileTree.ValidatePlan | cmd/cluster_migrate_layout.go:338-348 | accepts if and only if every source exists and every destination is free or --force is given |
| LayoutDiscovery.EnsureLegacyLayoutForMigration | cmd/cluster_migrate_layout.go:140-171 | accepts if and only if there is a Git repository and a secrets directory, a clusters directory or a cluster config, with nothing unreadable on the way |
| LayoutDiscovery.DiscoverLegacyLayoutClusters | cmd/cluster_migrate_layout.go:173-207 | every cluster with a config or a directory, once and in order; an error if and only if a file stands at or above the clusters directory |
| LayoutZones.LegacyLayoutExactly | cmd/cluster_migrate_layout.go:140-171 | in a tree, that is a Git repository with a secrets directory or, where infrastructure is no file, a clusters directory or the config of a cluster |
| LayoutZones.ClustersExactly | cmd/cluster_migrate_layout.go:173-207 | a cluster is found if and only if it has a name, and a config or something below its directory among the clusters |
| LayoutZones.MigratableExactly | cmd/cluster_migrate_layout.go:189-199 | the clusters of a legacy layout can be listed if and only if neither their directory nor its parent is a file |
| LayoutProgram.FileTree.RunClusterMigrateLayout | cmd/cluster_migrate_layout.go:86-138 | without a legacy layout, without clusters, with private paths inside the GitOps directory, with an empty or an invalid plan it is an error and nothing changes; a dry run changes nothing; otherwise the moves of the plan for the discovered clusters are made in order up to the first that fails |
| ConfigRewrite.ConfigMap.SetNestedMigrationConfigValue | cmd/cluster_migrate_layout.go:516-531 | seen at every path of the document: the value at its path, maps above it, nothing below it, all else as before |
| ConfigRewrite.ConfigMap.HasNestedMigrationConfigValue | cmd/cluster_migrate_layout.go:533-543 | true if and only if something other than null is at the path |
| ConfigRewrite.ConfigMap.RewriteLegacyClusterConfig | cmd/cluster_migrate_layout.go:490-500 | the six or eight writes, as seen at every path |
| ConfigRewrite.UniquePath | cmd/cluster_migrate_layout.go:521-530 | no map of a document is reached by two paths, so writing through a reference changes one place |
| ConfigRewrite.RewriteReadsBack | cmd/cluster_migrate_layout.go:490-500 | every value written is read back |
| ConfigRewrite.ValuesReadBack | cmd/cluster_migrate_layout.go:490-500 | the values by name and path, the last two only where the Git repository already had SSH credentials, whose section is otherwise left alone |
| ConfigRewrite.RewriteKeepsTheRest | cmd/cluster_migrate_layout.go:490-500 | a path that diverges from the written ones keeps what it had |
| ConfigRewrite.RewriteIsIdempotent | cmd/cluster_migrate_layout.go:490-500 | rewriting a rewritten config changes nothing at any path |
| TfScanners.StripInlineComments | hack/scripts/tf2yaml.py:24-67 | cuts at the first comment marker outside strings, then strips |
| TfScanners.CountBracesOutsideStrings | hack/scripts/tf2yaml.py:70-105 | counts the braces at which the same automaton is outside strings |
| TfScanners.UncommentedIsPrefix | hack/scripts/tf2yaml.py:24-67 | the result is a prefix of the line; what is cut off is white space and a comment that starts outside strings |
| TfScanners.UncommentedTwice | hack/scripts/tf2yaml.py:24-67 | stripping twice is stripping once |
| TfScanners.CommentBracesCount | hack/scripts/tf2yaml.py:246-266 | the depth of a raw line is that of the line without its comment plus that of the comment |
| TfPieces.CommentsStartOutsideStrings | hack/scripts/tf2yaml.py:24-67 | on a line spelled out as bare text and strings with escapes, a number sign or two slashes start a comment behind every piece and nothing inside one does |
| TfPieces.DepthIsBareDepth | hack/scripts/tf2yaml.py:70-105 | the depth of such a line is that of its bare text |
| TfModules.ParseModules | hack/scripts/tf2yaml.py:271-307 | ends on every input and computes the specified modules |
| TfModules.BlocksFoundExactlyWhen | hack/scripts/tf2yaml.py:271-307 | the blocks collected from a file are those that are in it, if and only if every block has its raw braces, comments included, balanced on its last line, unless the file ends there, and on none before |
| TfModules.CollectedExactlyWhen | hack/scripts/tf2yaml.py:290-302 | the same for one block: exactly then it is neither cut off nor followed by lines from behind it |
| TfModules.ModulesOfBlocks | hack/scripts/tf2yaml.py:271-307 | what comes back is what is read from the collected blocks, a later one of the same name winning |
| TfAnswers.ModulesOpenExactlyWhen | hack/scripts/tf2yaml.py:283-288 | a line opens a module if and only if, comment aside, it is the word, a name in double quotes and a brace, with white space around |
| TfModules.ModulesAreRecovered | hack/scripts/tf2yaml.py:271-307 | such a file, its blocks laid out one assignment per line, comes back module by module |
| TfModules.RawEndsLikeParsed | hack/scripts/tf2yaml.py:296-302 | with balanced comments, counting on raw lines ends a block where the parser would |
| TfModules.BalancedCommentsEnd | hack/scripts/tf2yaml.py:290-302 | a laid-out block whose comments are balanced one by one is such a block |
| TfModules.CutOffIsLost | hack/scripts/tf2yaml.py:290-306 | when the raw braces are balanced too early, between two assignments, the module holds exactly what is assigned before that line |
| TfModules.CutInsideIsLost | hack/scripts/tf2yaml.py:290-306 | when that happens inside a nested object, everything behind the object is lost and it comes back with what was read of it |
| TfModules.SwallowedIsLost | hack/scripts/tf2yaml.py:290-306 | when they are balanced too late the module itself is right, but no module opened in the swallowed lines comes back |
| TfParser.ParseAssignments | hack/scripts/tf2yaml.py:148-209 | ends on every input and computes the specified mapping and position |
| TfParser.ParseObject | hack/scripts/tf2yaml.py:212-225 | ends on every input and computes the specified mapping |
| TfParser.BlockIsSmaller | hack/scripts/tf2yaml.py:187-200 | the text of a collected block is smaller than the lines it came from, which is why the mutual recursion ends |
| TfParser.LineIsSmaller | hack/scripts/tf2yaml.py:176-203 | so is the value on one line |
| TfRoundTrip.BlockStopsAtBalance | hack/scripts/tf2yaml.py:191-196 | a block stops at exactly the first line after which the braces are balanced |
| TfRoundTrip.CommentsDoNotMatter | hack/scripts/tf2yaml.py:148-209 | removing the comments of all lines beforehand changes nothing that is parsed |
| TfRoundTrip.LayoutIsRecovered | hack/scripts/tf2yaml.py:148-225 | lines that are, up to white space and comments, one assignment or one brace each parse to the nested mapping they lay out, and the parser goes on right after them |
| TfWritten.WrittenIsRecovered | hack/scripts/tf2yaml.py:148-225 | every nested mapping written plainly comes back |
| TfWritten.OneLineObjectHasOneEntry | hack/scripts/tf2yaml.py:202-204 | an object on one line yields one entry at the most |
| TfWritten.OneLineObject | hack/scripts/tf2yaml.py:202-204 | the entry's value is all text after the first equals sign, white space before the closing brace aside |
| TfWritten.OneLineComesBackExactlyWhen | hack/scripts/tf2yaml.py:202-204 | a mapping written on one line comes back if and only if it has at most one entry |
| TfWritten.ScalarReadsBack | hack/scripts/tf2yaml.py:112-141 | a scalar is kept, or quoted so that a YAML reader gets the same text |
| TfAnswers.ScalarKeptExactlyWhen | hack/scripts/tf2yaml.py:112-141 | without white space around and commas behind it, a value is kept if and only if it is true, false, digits, in brackets, or in quotes of one kind; any other is quoted so that it reads back |
| TfAnswers.ScalarReadsTyped | hack/scripts/tf2yaml.py:112-141 | a YAML reader takes booleans for booleans, numbers for these numbers, lists for lists, and any other bare text for the string it is |
| TfAnswers.SplitsAtFirstBreak | hack/scripts/tf2yaml.py:223-223 | lines are split at every line break of Python, a carriage return and a newline being one |
| TfAnswers.BreakCodes | hack/scripts/tf2yaml.py:223-223 | the line breaks by code point |
| TfAnswers.WordCodes | hack/scripts/tf2yaml.py:174-174 | the characters of a key by code point |
| Kubeconfig.ReplaceLocalhostInKubeconfig | internal/cluster/bootstrap_provider_infra.go:288-310 | the six passes in turn |
| Kubeconfig.EveryLocalUrlPointsToTheVip | internal/cluster/bootstrap_provider_infra.go:288-310 | wherever one of the six URLs stands, the VIP takes the place of its host, and the text before and behind it is rewritten on its own |
| Kubeconfig.OtherTextIsUntouched | internal/cluster/bootstrap_provider_infra.go:288-310 | a text without any of them stays as it is |
| Kubeconfig.InTurnIsOnePass | internal/cluster/bootstrap_provider_infra.go:288-310 | independent replacements in turn are one simultaneous pass from left to right, so all other text is untouched |
| Kubeconfig.RewriteIsOneCleanPass | internal/cluster/bootstrap_provider_infra.go:288-310 | for an address that cannot be mistaken, the rewrite is that pass, leaves no localhost URL anywhere and changes nothing when repeated |
| Kubeconfig.DottedIsDistinguishable | internal/cluster/bootstrap_provider_infra.go:288-310 | every address of digits and dots but 127.0.0.1 is such an address |
| Kubeconfig.FourNumbersAreDotted | internal/cluster/bootstrap_provider_infra.go:288-310 | four numbers with dots between them are of digits and dots |
| Kubeconfig.DottedRewritesCleanExactlyWhen | internal/cluster/bootstrap_provider_infra.go:288-310 | for an address of digits and dots no rewrite leaves a localhost URL if and only if the address is not 127.0.0.1 |
| Inventory.NodesFromValue | cmd/cluster_status_inventory.go:337-365 | ends on every value and gives the nodes in list order and sorted key order, independent of map order |
| Inventory.ClusterInventory.AppendInventoryNode | cmd/cluster_status_inventory.go:397-409 | adds the node unless its key is there |
| Inventory.ClusterInventory.MergeInventoryValues | cmd/cluster_status_inventory.go:289-315 | addresses that are not yet known are tried key by key, then the five node lists are added; the configured part of the network stays |
| Inventory.ClusterInventory.ParseOpenTofuValuesModule | cmd/cluster_status_inventory.go:229-249 | merges the values maps of a module tree in order; a root module hides everything beside it; the configured part of the network stays |
| Inventory.ClusterInventory.ParseOpenTofuResources | cmd/cluster_status_inventory.go:251-273 | merges the attributes of every instance in order; the configured part of the network stays |
| Inventory.ClusterInventory.ReadOpenTofuStateInventory | cmd/cluster_status_inventory.go:216-226 | merges outputs, values and resources of a state in that order; the configured part of the network stays |
| Inventory.ClusterInventory.Merge | cmd/cluster_status_inventory.go:160-190 | non-empty incoming fields win, a non-empty node list replaces, warnings are appended |
| InventoryProofs.NodeKeysTell | cmd/cluster_status_inventory.go:401-405 | two nodes agree in role, name and both addresses if and only if they share a key and hold equally many NULs |
| InventoryProofs.CleanNodeKeysTell | cmd/cluster_status_inventory.go:401-405 | so for NUL-free strings sharing a key is agreeing in all four |
| InventoryProofs.NodeHasFirstCandidates | cmd/cluster_status_inventory.go:380-395 | each field of a node is its first candidate that is not empty, the internal address stands in for a missing name, and there is no node without any |
| InventoryProofs.FlattenMembers | cmd/cluster_status_inventory.go:337-365 | the flattened list holds exactly the nodes of the node maps in the value that lie in no other node map |
| InventoryProofs.AppendedAreFirstOccurrences | cmd/cluster_status_inventory.go:397-409 | appending one by one keeps exactly the nodes whose key no earlier node has |
| InventoryProofs.FirstOccurrencesDiffer | cmd/cluster_status_inventory.go:397-409 | no two nodes of the list share a key, so no two agree in role, name and both addresses |
| InventoryProofs.KnownAmongFirst | cmd/cluster_status_inventory.go:397-409 | every key found is in the list |
| InventoryProofs.InventoryOfState | cmd/cluster_status_inventory.go:200-227 | the inventory of any state: the first occurrences of all flattened nodes, and each address the first non-empty candidate in reading order |
| InventoryProofs.NoNodeOfStateDropped | cmd/cluster_status_inventory.go:200-227 | if the strings of the state are NUL-free, every node in it is like one of its inventory |
| InventoryAnswers.OneMapExactly | cmd/cluster_status_inventory.go:289-315 | merging one values map into an empty inventory lists, role by role, the nodes under the five keys and no others |
| InventoryAnswers.InventoryOfWritten | cmd/cluster_status_inventory.go:200-273 | the nodes of a state that is written out are those that its outputs, a module or an instance lists so |
| InventoryAnswers.StateIsRead | cmd/cluster_status_inventory.go:200-273 | such a state is read outputs first, then module by module, then the instances of its resources |
| InventoryAnswers.FirstMapDecides | cmd/cluster_status_inventory.go:289-308 | each address is that of the first map which offers one under the keys of that address |
| InventoryAnswers.NodeOfMap | cmd/cluster_status_inventory.go:367-395 | a node map gives the node with the first name, internal and external address that it has under their keys |
| InventoryAnswers.MergedNetworkPrefers | cmd/cluster_status_inventory.go:160-190 | of two networks, field by field, the incoming one wins where it is not empty |
| InventoryProofs.FirstNonEmptyIsFirst | cmd/cluster_status_inventory.go:294-308 | that candidate is there, and all before it are empty |
| TagWip.FeatureFile.TagFeatureFile | hack/tag_wip_failures.py:78-137 | the loop ends although it inserts, and leaves the specified lines and count; a missing file gives 0 |
| TagWipProofs.EveryFailureIsTagged | hack/tag_wip_failures.py:92-131 | after a run the nearest text above every failing scenario is a tag line with @wip |
| TagWipLines.FailuresCarryWip | hack/tag_wip_failures.py:74-131 | so with lines spelled out: above every scenario or scenario outline that failed, with only white space between, is a line that starts with an at sign and has @wip in it |
| TagWipLines.ScenariosExactly | hack/tag_wip_failures.py:74-89 | a line starts a scenario of this name if and only if it is white space, one of the two keywords, and the name with white space around |
| TagWipLines.WrittenLines | hack/tag_wip_failures.py:106-127 | @wip goes behind the text of a tag line, or on a new line with the indent of the scenario |
| TagWipProofs.OriginalLinesKept | hack/tag_wip_failures.py:92-131 | all original lines are there in order; only tag lines without @wip are extended, and new lines are tag lines directly above a failing scenario |
| TagWipProofs.SecondRunChangesNothing | hack/tag_wip_failures.py:92-137 | a second run with the same failures changes nothing and reports 0 |
| TagWipProofs.CountIsUntagged | hack/tag_wip_failures.py:89-137 | the number reported is that of the failing scenarios without @wip above them |

## Left out

- Commands, flags, prompts, the selector, and text, JSON and YAML output.
- What steps, `SyncSecrets`, `tofu`, `kubectl`, `ssh`, `git` and `sops` do: each is an arbitrary success or failure.
- The lock around a deploy: runs are one after the other.
- Readiness waiting is one reply; timestamps, messages and log files are dropped, and so are the error texts kept with a step.
- Validation of the configuration before a deploy, and runs without a state path: the path is never blank (internal/cluster/bootstrap_runtime.go:36-48).
- The descriptions of the deploy plan (internal/cluster/bootstrap_plan.go): only which steps a dry run lists is modelled.
- A negative `--concurrency`, for which Go cannot make the semaphore.
- Cluster discovery for the sync, and the contents of a sync result; the memory model of Go below single operations on shared state.
- The `Message` and description of a drift item; cloud providers and promotion previews.
- Case folding and letter case beyond ASCII.
- `sort.Slice` on floating IPs is any fixed sort by key; the final sort of the move plan is left open, and the results hold for every order.
- File modes, symbolic links, empty directories, copying across file systems and I/O errors of a move that could be made; `.`, `..` and separators inside a name.
- Zones inside one another: with the state zone inside the secrets zone a key and a config can need one name as a file and as a directory (`LayoutProofs.NestedZonesCollide`).
- Paths are compared as lists of names: the case folding and link resolution of `ClusterPaths.Validate` are not modelled.
- Decoding and encoding of YAML and JSON: a legacy config parses to some text or not, and `ConfigRewrite` starts from the decoded maps; numbers, strings and lists in them are one kind of leaf.
- `parse_locals` and `write_yaml` of the Terraform reader; the order of the keys of a mapping.
- Regular expressions are line predicates, for lines without a line break inside.
- `buildClusterInventory`, the configured values and the Kubernetes refresh; `parse_failures` of the tagger.
- SecretsSyncRuns.ReportSplits: the two maps are disjoint only for distinct cluster names, because discovery drops the organization of a cluster.
