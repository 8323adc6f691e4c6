# A verified model of Wharf's controller

Wharf is a controller for Docker hosts: agents dial in over mutual TLS, report what
runs on their host, deploy stacks, back volumes up and read secrets. This project
models the decisions the controller takes and proves what they promise. Each module
follows one component:

| component | modules |
|---|---|
| secret path rules, references and their resolution | `Glob`, `PathText`, `PathRules`, `Isolation`, `PathPermissions`, `Refs`, `Resolver` |
| enrollment and two-phase certificate rotation | `HostStore`, `Enrollment`, `EnrollmentRuns`, `RotationRuns`, `EnrollmentHistory` |
| the agent tunnel: requests, replies, state pushes | `Tunnel`, `HostTables`, `StateCache` |
| the deployment queue and the delete guard | `DeploymentQueue` |
| volume backups: what a job covers, which runs may overlap | `VolumeSelection`, `BackupRuns` |
| algorithms with exact specifications | `Findings`, `ImageRef`, `StackGraph`, `LoginLimiter` |
| shared text and ordering | `Strings`, `Sorting` |

`dafny verify dfyconfig.toml` checks everything.

How the program is represented:

- A table is a map or a sequence in rowid order; a guarded `UPDATE` is one atomic step, and a
  transaction changes everything or nothing. Objects whose methods change fields are classes, and
  every such method is proved against a function of the old state.
- Concurrency is a state machine. A run is any finite list of actions, one action per database
  call or channel operation; an action that is not possible in a state leaves it as it is. Results
  about runs quantify over all lists of actions.
- A `char` is one byte, and strings are compared byte by byte. `{stack}` substitution, splitting,
  trimming and searching have the meaning Go's `strings` package gives them.
- Hashes (token hashes, the hash that keys the state cache, a connection's identity) are taken to be
  injective. Random ids are fresh values chosen by the environment. Clocks are integers.
- Lemmas switch Dafny's automatic induction off: what proves a lemma is its body. Many bodies hide
  the definitions they do not need, which keeps each proof small.
- A provider's answer, a database that is busy or broken, an agent that refuses a run: all of these
  are parameters, and the results hold whatever they are.

## What does not hold, and exactly when it does

Where the code does not meet a promise on all inputs, the model keeps the code, a lemma names inputs
that show it, and another lemma says exactly when the promise is met.

- An accepted path rule need not keep two stacks apart: `*{stack}` lets two stacks read one path
  (`Isolation.AcceptedButShared`). `Isolation.IsolationExactly` gives the exact shape.
- With requests interleaved between two store calls, the certificate last accepted for a host need not
  be the pinned one, and may have been given up meanwhile (`EnrollmentRuns.AcceptedUnpinned`). It is
  pinned throughout a run exactly if every promotion of the run, by `agentAuth` or by `verifyCaller`,
  finds its certificate still held by its host (`RotationRuns.AcceptedIsPinned`), which is exactly if it
  was not given up since the lookup (`RotationRuns.LateAcceptance`).
- Nor is it then only approved hosts that announce (`EnrollmentRuns.PendingAnnounces`): it is exactly if
  every announcement that gets registered is for a host approved by then
  (`RotationRuns.AnnouncersExactly`), and looking at the status where `rotateHandler` finds its host
  would do (`RotationRuns.GuardSuffices`). One holder per certificate survives every interleaving, and so
  does the refusal of replaced certificates (`RotationRuns.ReplacedIsRefused`).
- A token presented with one certificate can stand for the approval of another: ids come from the name
  an agent gives, so a row rejected before its approval can be inserted again for somebody else
  (`EnrollmentRuns.ForeignApproved`). The token approves the certificate it came with exactly if the row
  did not give that up since it was inserted (`RotationRuns.TokenApproves`).
- An agent can stop a tunnel's read loop for good, on some schedule, exactly if it answers some request
  twice (`Tunnel.TwoRepliesStopTheReader`).
- The cached version and architecture go stale when one of their two writes fails
  (`StateCache.StaleFacts`), or when a bar in one of them makes two pairs look alike
  (`StateCache.BarsCollide`). `StateCache.FactsStayCoherent` says exactly for which pushes,
  `StateCache.SkippingFactsIsRewriting` for which runs.
- A delete can drop a queued teardown that was enqueued after its guard read the latest deployment, or
  when that read failed (`DeploymentQueue.EnqueuedBetweenIsLost`, `DeploymentQueue.UnreadableLatestIsLost`).
  It drops nothing exactly if whatever was enqueued for the stack since then has been claimed or dropped
  (`DeploymentQueue.DeleteDropsNothing`). The guard also relies on results being reported for claimed
  deployments only, which the handler does not check (`DeploymentQueue.UnclaimedReportDefeatsGuard`,
  `DeploymentQueue.CompletingKeepsFifo`).
- A run that works on a volume can be under way beside an earlier restore of it exactly if the restore's
  job covers nothing the run works on (`BackupRuns.AfterRestore`); so two restores of one volume can
  exactly if the job of the first does not cover it (`BackupRuns.SecondRestore`).
- The canonical form of an untagged image name ending in "@sha256" looks digest-pinned
  (`ImageRef.PinnedByAccident`, `ImageRef.NormalFormIsStable`).
- From the 37th failure on, the login lock's length wraps in 64 bits: some failures lock nothing, and
  from the 61st none does (`LoginLimiter.LocksExactly`).
- Edges on one side of a graph node meet when their gap is one pixel and their number even
  (`StackGraph.DistinctExactly`).

## Model

| member | source | states |
|---|---|---|
| Glob.GlobSegment | internal/secrets/rules.go:141-164 | the greedy matcher with one backtrack point ends on every input and returns true exactly when the pattern matches |
| Glob.MatchesIffCut | internal/secrets/rules.go:139-140 | matching means the text can be cut so that each `*` takes one piece, possibly empty, and every other character takes itself |
| Glob.NewStarCovers | internal/secrets/rules.go:146-155 | a later `*` makes every other start for the earlier one redundant: backtracking to the last one loses no match |
| PathText.CheckChars | internal/secrets/ref.go:117-131 | no problem is found exactly when no character is a blank, a control character, `%`, `#` or a backslash; the problem found is the first |
| PathText.PlainExactly | internal/secrets/ref.go:117-131 | a text passes exactly if every character is above the blank and none is a percent sign, `#`, backslash or DEL |
| PathRules.CheckRule | internal/secrets/rules.go:60-101 | a rule is accepted exactly when its segments are non-empty, not dots, have no `**`, use braces for `{stack}` alone and follow it by `_` or their end, and some segment is not `*` |
| PathRules.AcceptedExactly | internal/secrets/rules.go:60-101 | the step by step rewriting of checkRule accepts the same rules as that description |
| PathRules.CutPlaceholders | internal/secrets/rules.go:77-89 | the loop that rewrites the rest of a segment reports the first character that follows a `{stack}` wrongly, and otherwise leaves the segment with every placeholder replaced |
| PathRules.ParseRules | internal/secrets/rules.go:34-51 | every distinct rule once, in the order first met, or the first rule that is not accepted with its reason |
| PathRules.CandidatesOfLines | internal/secrets/rules.go:36-41 | the rules read from lines written one below the other are those lines, trimmed, without the blank ones |
| PathRules.CandidatesJoin | internal/secrets/rules.go:36-41 | text before and after a line end of either kind is read one after the other, whatever it is |
| Strings.TrimCuts | internal/secrets/rules.go:38 | trimming takes white space off both ends and nothing else |
| PathRules.ExpandRules | internal/secrets/rules.go:105-114 | every rule with the stack's id put in, and no rule at all for an id that is not a plain id |
| PathRules.RuleAllowed | internal/secrets/rules.go:118-137 | a path is allowed exactly when the segments of some rule match its first segments one by one |
| Isolation.IsolationExactly | internal/secrets/rules.go:60-137 | an accepted rule lets no path be read by two different stacks, whether any text counts as a path or only what a reference can name, exactly when a segment is anchored on the left or right of a `{stack}`, or two floating segments cannot end alike |
| Isolation.LeftAnchoredKeepsApart | internal/secrets/rules.go:83-86 | a segment whose first `{stack}` has no `*` before it keeps every two stacks apart, at any depth: "blog" never reads "blog-staging" |
| Isolation.AcceptedButShared | internal/secrets/rules.go:60-101 | checkRule accepts `*{stack}`, which does let two stacks read one path |
| Isolation.SharedPath | internal/secrets/rules.go:60-137 | for every rule without that shape, two stack ids and a path both may read; for an accepted rule it is a path a reference can name |
| PathPermissions.PrefixBySegments | internal/secrets/connector.go:172-181 | the textual test `path == p` or prefix `p + "/"` is the comparison of segment lists |
| PathPermissions.AnyPrefixAllows | internal/secrets/connector.go:174-181 | true exactly when some prefix is `*` or its segment list is a prefix of the path's |
| PathPermissions.Effective.ApplyPathRules | internal/secrets/connector.go:93-101 | the connection's rules are those the text parses to, expanded for the stack; an invalid text changes nothing |
| PathPermissions.Effective.PathAllowed | internal/secrets/connector.go:107-118 | the decision over prefixes and rules, with `*` not counting once there are rules |
| PathPermissions.RuleWithoutStar | internal/secrets/rules.go:118-137 | a rule without `*` covers a path exactly when it would allow it as a prefix |
| PathPermissions.DeeperAllowed | internal/secrets/connector.go:103-118 | what is allowed stays allowed further down |
| PathPermissions.StarSilenced | internal/secrets/connector.go:103-116 | once a connection has rules, allowed paths that differ only in holding `*` decide every path alike |
| PathPermissions.DecisionMeans | internal/secrets/connector.go:107-118 | without rules "*" allows every path and otherwise exactly what is at or below an allowed path; with rules "*" does nothing |
| PathPermissions.NoRuleIsUniversal | internal/secrets/rules.go:59-101 | for every accepted rule, stack id and length at least the rule's, some path of that many non-empty segments is refused |
| Refs.CheckPath | internal/secrets/ref.go:95-115 | the path problem found, and none exactly when the path is well formed |
| Refs.PathExactly | internal/secrets/ref.go:95-115 | a path passes exactly when it has plain characters, braces only as `{stack}`, and no empty or dot segment |
| Refs.ParseThenPrint | internal/secrets/ref.go:35-76 | printing a parsed reference gives the text it came from |
| Refs.PrintThenParse | internal/secrets/ref.go:35-76 | a reference is read back from its own text exactly when it is well formed |
| Refs.ExpansionOfParsed | internal/secrets/ref.go:78-93 | expanding a parsed reference for a valid stack id never fails, keeps scheme, field and number of segments, leaves no brace and gives a reference that parses back to itself |
| Refs.ExpandedIsFinal | internal/secrets/ref.go:78-93 | an expanded reference expands to itself, for any id |
| Resolver.KeyTextInjective | internal/secrets/resolve.go:66-77 | two different memo keys never have the same text |
| Resolver.Job.Effective | internal/secrets/resolve.go:48-64 | the binding's answer, looked up at most once per scheme |
| Resolver.Job.Memo | internal/secrets/resolve.go:66-77 | what a lookup without the table would give, computed at most once per key |
| Resolver.Job.EncFileValues | internal/secrets/resolve.go:79-93 | the decrypted values or the reason there are none, computed once |
| Resolver.Job.ResolveVault | internal/secrets/vault.go:126-153 | the memoized read gives the text of the field, or says that it is missing or has none |
| Resolver.Job.ResolveBws | internal/secrets/bws.go:383-437 | of the only project of that name the only secret of that key: its value for "value", its note for "note"; not found without one, ambiguous with two |
| Resolver.AloneMeans | internal/secrets/resolve.go:156-199 | what one entry gives, on what the services hold: the failures in their order, and the value of the one field, key or secret the reference names |
| Resolver.Resolver.ResolveEntry | internal/secrets/resolve.go:160-191 | what the entry resolves to on its own; no connection provider is called for a path that is not allowed |
| Resolver.Resolver.Resolve | internal/secrets/resolve.go:156-199 | succeeds exactly when every entry resolves on its own, with the environment's keys the entries' keys; otherwise one failure per failing entry, in order, and no environment |
| Resolver.FailuresAreInOrder | internal/secrets/resolve.go:110-121 | the report lists exactly the failing entries, in file order |
| Resolver.Resolver.UnreferencedEncKeys | internal/secrets/resolve.go:219-240 | the keys of the encrypted file no sops reference picks |
| Resolver.Resolver.UsedSources | internal/secrets/resolve.go:201-217 | once per scheme, where its credentials came from |
| HostStore.Store.UpsertHostByFingerprint | internal/store/store.go:602-635 | a known certificate touches its one row; an unknown one gets one new pending row under a free id; none of five ids free changes nothing |
| HostStore.Store.GetHostByFingerprint | internal/store/store.go:637-650 | the row the certificate is pinned to or announced for, none exactly when there is none |
| HostStore.Store.SetNextFingerprint | internal/store/enrollment.go:133-154 | announces a certificate nobody else holds on a host pinned to another; one holder per certificate is kept |
| HostStore.Store.PromoteFingerprint | internal/store/enrollment.go:157-169 | pins the announced certificate and nothing else; one holder per certificate is kept |
| HostStore.Store.ConsumeEnrollmentToken | internal/store/enrollment.go:58-78 | a token is won exactly if it is there, unused, and expires later than now; it is used afterwards, nobody can win it a second time, and the other tokens are as before |
| HostStore.Store.PurgeStalePending | internal/store/enrollment.go:105-117 | only pending rows older than the limit go |
| HostStore.AnnounceKeeps | internal/store/enrollment.go:136-154 | announcing keeps one holder per certificate and every connected host |
| HostStore.PromoteKeeps | internal/store/enrollment.go:160-169 | promoting keeps one holder per certificate and every connected host |
| Enrollment.AgentChannel.AgentAuth | agent_protocol.go:73-107 | accepts exactly a certificate held by a connected host, pins it, and never one that was replaced and not announced again |
| Enrollment.AgentChannel.VerifyCaller | agent_protocol.go:49-71 | accepts exactly a certificate the host holds, pins it, and retires the one it replaces |
| Enrollment.AgentChannel.Rotate | agent_protocol.go:315-357 | an announcement is accepted next to the pinned certificate for a connected caller only; it is refused as taken exactly if another host holds the certificate, as the same exactly if the caller presents it; every other answer announces nothing |
| Enrollment.AgentChannel.EnrollCreate | agent_protocol.go:189-277 | a known certificate is a reconnect; a new one gets each refusal exactly under its condition, a bad token when it is missing, used or expired by now; else it is connected exactly with the token it consumed, or pending within the cap; a refusal changes nothing, except that without a free id the token stays consumed |
| Enrollment.AgentChannel.EnrollStatus | agent_protocol.go:279-313 | an unknown id is told apart before the certificate is looked at |
| Enrollment.AgentChannel.PurgePass | agent_protocol.go:169-187 | exactly the pending hosts older than the limit go, if there is one, and the tokens expired for a week; no connected host |
| EnrollmentRuns.StepSound | agent_protocol.go:195-277 | every single store call of every handler, interleaved at will, keeps one holder per certificate, tokens used once, and connected hosts |
| EnrollmentRuns.EveryRun | agent_protocol.go:214-268 | in every interleaving no certificate has two holders, no token is consumed twice, and approvals by token never outnumber the tokens consumed |
| EnrollmentRuns.ConnectedForGood | internal/store/store.go:759-801 | in every interleaving a connected host is never removed nor pending again |
| EnrollmentHistory.ConsumedInTime | internal/store/enrollment.go:58-78 | in every interleaving each consumed token was minted with some lifetime and consumed before that was over |
| EnrollmentHistory.NewcomerWasUnknown | agent_protocol.go:214-250 | in every interleaving only a call whose certificate nobody held goes on to the token or to a row without one |
| EnrollmentHistory.EveryHostWasApproved | agent_protocol.go:252-268 | in every interleaving a connected host was approved by the admin, or by the token of the call that made its row |
| EnrollmentHistory.PassedWasApproved | agent_protocol.go:86-107 | in every interleaving agentAuth lets a call through only for a certificate whose holder was approved when it was looked up |
| EnrollmentHistory.RotatesOwn | agent_protocol.go:321-357 | in every interleaving a certificate is announced only for the host that the caller's own certificate stood for |
| EnrollmentRuns.AcceptedUnpinned | agent_protocol.go:86-105 | an interleaving after which the certificate last accepted is not the pinned one, and was given up |
| EnrollmentRuns.PendingAnnounces | agent_protocol.go:321-357 | an interleaving after which a pending host has an announced certificate |
| EnrollmentRuns.ForeignApproved | agent_protocol.go:246-268 | an interleaving after which a token presented with one certificate approves another's row |
| RotationRuns.TokenApproves | agent_protocol.go:246-268 | in every run, an approval by token is of the certificate it was presented with exactly if the row did not give that up since it was inserted, by removal or by rotation |
| RotationRuns.AcceptedIsPinned | agent_protocol.go:55-105 | for every run: the certificate last accepted for a present host is its pinned one at every moment exactly if every promotion, of agentAuth and of verifyCaller, finds its certificate still held by its host, if that is still there |
| RotationRuns.LateAcceptance | agent_protocol.go:68-105 | a promotion under way accepts its certificate either way, and leaves it pinned exactly if the host did not give it up since the lookup |
| RotationRuns.ReplacedIsRefused | agent_protocol.go:52-107 | in every interleaving, no query finds a host by a certificate it gave up, and no call accepts one for it but a promotion already under way |
| RotationRuns.OnlyGivenAgain | agent_protocol.go:321-357 | such a certificate stands for the host again only through an announcement of it, or an enrollment of a new row |
| RotationRuns.AnnouncersExactly | agent_protocol.go:321-357 | for every run: only approved hosts hold an announced certificate at every moment exactly if every registered announcement is for a host approved by then |
| RotationRuns.GuardSuffices | agent_protocol.go:321-357 | if every host that rotateHandler finds is approved, only approved hosts ever hold an announced certificate |
| Tunnel.EveryRun | tunnel.go:162-195 | in every interleaving the pending map holds exactly the ids in flight, a caller returns only a reply to its own request, no reply reaches a second caller, and with one reply per id the reader never blocks |
| Tunnel.ReplyOnItsWay | tunnel.go:276-290 | while a caller waits, no reply to it is dropped: what was read is with the reader or in the caller's channel |
| Tunnel.OutcomeIsGiven | tunnel.go:162-195 | a call ends as answered, not written, timed out or cancelled only by a step that is just that |
| Tunnel.StuckForever | tunnel.go:276-290 | a reader blocked on a channel whose caller has gone never moves again |
| Tunnel.TwoRepliesStopTheReader | tunnel.go:276-290 | for any list of replies an agent sends, some schedule stops the reader for good exactly if two of them answer the same request |
| Tunnel.NewestSurvives | tunnel.go:197-231 | a host's registered connection is its newest one, until that one's own handler ends, in whatever order handlers come and go |
| Tunnel.Registry.Remove | tunnel.go:215-224 | the given connection is no longer registered, and every other one is exactly as before |
| HostTables.DedupeHostImages | internal/store/store.go:1404-1423 | one row per id, repository and tag: the first one reported, with the best digest |
| HostTables.BestIsSmallest | internal/store/store.go:1412-1417 | the digest kept is the smallest non-empty one reported, empty only when there is none |
| HostTables.DedupedAnyOrder | internal/store/store.go:1404-1423 | rows that agree but for digests give the same table in whatever order they are listed |
| StateCache.Connection.ReplaceHost | internal/store/store.go:1381-1402 | the table holds the new rows or, on a failure or a repeated key, exactly the old ones |
| StateCache.Connection.Replace | tunnel.go:360-375 | skip, write and remember, or forget: the new tables and cache for any pattern of busy and failing attempts |
| StateCache.SkippingIsRewriting | tunnel.go:299-320 | for any pushes and any failures, skipping unchanged tables gives the tables that rewriting them all gives |
| StateCache.LatestOrForgotten | tunnel.go:318-371 | afterwards each table holds the stored form of the latest rows pushed to it, or has no cache entry |
| StateCache.FactsStayCoherent | tunnel.go:377-397 | the entry for version and architecture stays true exactly unless a push fails in part and its other write changed a value the entry promises, or its bars make the text it is remembered by read as a pair that is not stored |
| StateCache.BarsMatter | tunnel.go:377-381 | whether the text a fully written push is remembered by will promise a pair that is not stored can be read off the push and what is stored before it: with both values reported, a bar in either; with one, any bar but one at its far end that the other stored value happens to match |
| StateCache.SkippingFactsIsRewriting | tunnel.go:377-397 | all along a run of pushes, whatever comes next is stored as always writing would store it, exactly when no push of the run does that; and then the run leaves what always writing leaves |
| StateCache.StaleFacts | tunnel.go:377-397 | a run after which a reported version is never stored |
| StateCache.BarsCollide | tunnel.go:378-381 | two different pairs with one cache entry, by a version holding a bar |
| DeploymentQueue.EveryRun | internal/store/store.go:860-892 | with claimers whose SELECT and UPDATE interleave, the deployments claimed for a host are a prefix of its queue less what deletes dropped, in order and each once; a delete drops only what was enqueued after its guard's read |
| DeploymentQueue.LatestDecides | stacks.go:693-702 | when a stack's latest deployment is neither queued nor running, none of its deployments is queued |
| DeploymentQueue.DeleteDropsNothing | stacks.go:678-685 | whatever the guard read, the delete drops no queued deployment exactly when every deployment enqueued for the stack since that read (ever, if it failed) has been claimed or dropped |
| DeploymentQueue.EveryDeleteIsGuarded | stacks.go:693-702 | in every run, behind a pending delete is a guard step that read no deployment of the stack, or one that failed or took it down; or whose read failed |
| DeploymentQueue.OutcomesAreReported | internal/store/store.go:894-927 | in every run a deployment succeeded, or failed, only because its agent reported just that |
| DeploymentQueue.CompletingKeepsFifo | internal/store/store.go:894-910 | a report keeps the queue's shape exactly when its row was claimed or is the next of its host |
| DeploymentQueue.UnclaimedReportDefeatsGuard | agent_protocol.go:545-576 | a report for a row nobody claimed lets the guard pass over a queued teardown |
| DeploymentQueue.EnqueuedBetweenIsLost | stacks.go:693-720 | an undeploy enqueued between guard and cascade is dropped |
| DeploymentQueue.UnreadableLatestIsLost | stacks.go:693-702 | a latest deployment that cannot be read does not stop the delete |
| DeploymentQueue.Deployments.ClaimNextDeployment | internal/store/store.go:860-892 | the oldest queued deployment of the host starts running and nothing else changes; none exactly when none is queued |
| DeploymentQueue.Deployments.MayDelete | stacks.go:693-702 | allows exactly if the stack has no deployment or its last one failed or took the stack down; and then none of its deployments is queued |
| DeploymentQueue.Deployments.DeleteStack | internal/store/store.go:527-565 | the stack's rows go, and when none was queued no host's queue changes |
| VolumeSelection.LabelRuleMeans | volume_backup_select.go:51-56 | "key" asks for the label and "key=value" for that value, whatever the value contains |
| VolumeSelection.ResolveSelection | volume_backup_select.go:77-112 | exactly the volumes ticked, of a chosen stack or with a chosen label, less the excluded, plus ticked ones not reported; each with all its reasons, sorted, and each once when no name is reported or ticked twice; and exactly what exclusion left out |
| VolumeSelection.CoversMeans | volume_backup_select.go:77-112 | covered is every ticked volume, and every reported one of a chosen stack or with a label asked for, but none excluded |
| VolumeSelection.RestorableVolumes | volume_backup_select.go:128-154 | what the job covers, ticked, or has a snapshot of in a backup, each once and sorted |
| BackupRuns.OverlapsRunning | volume_backup_runs.go:126-146 | names a volume that the job of some running run of the host covers, and none only if there is none, or if the volume met has an empty name |
| BackupRuns.EveryRun | volume_backup_runs.go:158-236 | of two runs under way on a host, the later one let through, its volumes are disjoint from what the earlier one's job covers, even if the earlier was refused and its end got lost; so backups share no volume, nor do restores of covered volumes |
| BackupRuns.SecondRestore | volume_backup_runs.go:158-236 | some run has two restores of a volume under way on one host exactly when the job of the first does not cover the volume |
| BackupRuns.AfterRestore | volume_backup_runs.go:158-236 | some run has a later backup or restore under way beside a restore of a volume it works on exactly when the restore's job covers nothing it works on |
| BackupRuns.RestoreCleared | volume_backup_runs.go:178-186 | a restore is refused for a clash exactly if the job of some run under way on the host covers the volume |
| BackupRuns.OutcomeStays | internal/store/backups.go:301-317 | a run leaves "running" once, and its recorded outcome survives duplicate reports, failed starts and sweeps |
| BackupRuns.SuccessIsReported | volume_backup_runs.go:158-236 | in every run a row says success, or success with warnings, only because the agent reported just that: no refused start, sweep or duplicate does it |
| BackupRuns.RefusalIsRecorded | volume_backup_runs.go:167-181 | a refused start leaves one row, failed with its code when both writes land |
| BackupRuns.AgentRefusalIsRecorded | volume_backup_runs.go:225-232 | a run the agent refuses stays in the history, failed with AGENT when the second write lands |
| BackupRuns.VerdictMeans | volume_backup_runs.go:183-232 | which answer a start gets, condition by condition, in their order |
| BackupRuns.Runs.StartVolumeAction | volume_backup_runs.go:158-236 | the verdict of every start, and the one row, if any, it adds to the history: running, or failed with the reason, never a success |
| BackupRuns.Runs.FinishBackupRun | internal/store/backups.go:301-317 | changes a run that is still running and says so; a late duplicate changes nothing |
| Findings.SortFindings | internal/scanner/scanner.go:164-186 | the distinct findings, critical before high before medium before low before unknown, then by id and package |
| Strings.LessMeans | internal/scanner/scanner.go:176-184 | texts are ordered by their first different byte, a shorter one first |
| Findings.Summarize | internal/scanner/scanner.go:122-162 | over sorted findings, each id once at its worst severity, fixable if any of its findings is |
| Findings.CountScan | internal/scanner/scanner.go:122-186 | the counts depend only on the set of findings, add up to the number of distinct ids, and fixable ones never exceed their totals |
| Findings.CountsMean | internal/scanner/scanner.go:122-162 | an id counts as critical if it has a critical finding, as high if it has a high one and no critical one, and so on; as fixable there if any of its findings has a fix |
| Findings.UnsortedFirstIsNotWorst | internal/scanner/scanner.go:129-138 | why the findings have to be sorted first |
| ImageRef.NormalFormIsStable | internal/registry/registry.go:42-83 | the canonical form parses back to the same reference exactly unless the image is an untagged name ending in "@sha256" |
| ImageRef.StableWithoutAt | internal/registry/registry.go:42-83 | every reference without "@" is supported and normalizes to itself |
| ImageRef.SameKeySameImage | internal/registry/registry.go:38-44 | two images share a cache key exactly when they parse to the same reference |
| ImageRef.PinnedByAccident | internal/registry/registry.go:55-59 | the exception is a family of supported references |
| ImageRef.CutMeans | internal/registry/registry.go:61-68 | name and tag are the two sides of the last colon after the last slash; without one the tag is "latest" |
| ImageRef.PlaceExactly | internal/registry/registry.go:69-83 | a name without a slash is of docker.io/library, one whose first part looks like a host of that host, any other of docker.io |
| ImageRef.PinnedIsRefused | internal/registry/registry.go:55-59 | whatever has "@sha256:" in it is not supported |
| ImageRef.BareName | internal/registry/registry.go:42-83 | "nginx" parses to docker.io, library/nginx and latest, "nginx:x" to its tag |
| StackGraph.BuildStackGraph | graph.go:225-403 | every box lies inside the canvas and apart from every other; resources are exactly what containers mention, each once; the links are exactly the mentions, one each, in order |
| StackGraph.DrawLinks | graph.go:375-387 | one curve per link, each at the next place of its two ends, and both counters end at the nodes' degrees |
| StackGraph.FlowsJoin | graph.go:318-373 | what feeds the stack goes from its box's right edge to the stack's left edge, what it deploys from the stack to the container's |
| StackGraph.LinkJoins | graph.go:375-387 | a link goes from its container's right edge to its resource's left edge, in the resource's kind |
| StackGraph.ColumnCentered | graph.go:275-281 | a column has as much room above it as below, to the pixel |
| StackGraph.DegreeIsMentions | graph.go:332-348 | a container's degree is the number of volumes and networks listed for it |
| StackGraph.InsideExactly | graph.go:179-196 | all edges on a side stay six pixels inside exactly up to height less ten of them |
| StackGraph.DistinctExactly | graph.go:179-183 | no two edges meet exactly when the gap is at least two or their number odd |
| StackGraph.LinksOfOneContainer | graph.go:377-387 | two links of a container with an odd number of them, or few enough for a gap of two, start at different points |
| StackGraph.LinksOfOneResource | graph.go:377-387 | two links of a resource end at different points under the same condition |
| StackGraph.LinkEndsInside | graph.go:377-387 | a link's place is below its degree, and its ends stay six pixels inside up to 30 links of a resource and 42 of a container |
| StackGraph.ChipInsideContainer | graph.go:151-177 | whatever a badge says, its chip stays inside its container's box |
| LoginLimiter.BackoffDoubles | auth.go:255-261 | from the 6th to the 36th failure the lock is five seconds doubled each time, five minutes at most, without overflow |
| LoginLimiter.BackoffNeverDecreases | auth.go:236-241 | up to the 36th failure the lock never gets shorter |
| LoginLimiter.LocksExactly | auth.go:255-261 | for every number of failures, whether there is a lock in wrapping 64-bit arithmetic; never one longer than five minutes |
| LoginLimiter.Limiter.RecordFailure | auth.go:242-263 | the sweep and the counted failure, as a function of the old table |
| LoginLimiter.Limiter.Check | auth.go:221-234 | locked exactly while the account's lock lasts, and for how much longer |
| LoginLimiter.LockedExactly | auth.go:190-272 | after any logins of anybody, an account is locked exactly while the lock of its present run of failures at most an hour apart lasts |
| LoginLimiter.SuccessResets | auth.go:265-272 | a success starts over |

## Left out

- Parsing of HTTP requests, JSON, YAML and cron text, templates, sessions, CSRF, OIDC and audit texts: plumbing around the decisions modelled here.
- Cryptography (TLS, SHA-256, age, SOPS, bcrypt) and the network calls of the vault, bws, registry and git clients: their answers are parameters.
- `ParsePrefixes`, `NormalizePrefixes`, `ParseFile`, `parseLabelRules`, `hostVolumeChoices`, `normalizeSeverity`: loops of the same kind as ones modelled, or filters.
- White space above 0x7f: `strings.TrimSpace` also removes U+0085 and U+00A0, and image references and rules here hold bytes.
- HostStore.Store.SetNextFingerprint: one atomic step, as is UpsertHostByFingerprint; a writer that comes between the check and the write of either is not modelled.
- Tunnel.EveryRun: request ids are taken to be fresh; a repeated 64-bit random id is not modelled.
- StateCache.SkippingIsRewriting: one pushing connection per host; a second live connection of the same host has its own cache and is not modelled.
- DeploymentQueue.EveryRun: agents report results for deployments they claimed, and a stack keeps its host; `DeploymentQueue.CompletingKeepsFifo` says what depends on the former.
- BackupRuns.EveryRun: jobs and reported volumes stay the same while runs are under way, and a job that cannot be read, which the overlap check skips, is not modelled.
- BackupRuns.Runs.StartVolumeAction: the reasons a start is refused after the overlap check are one parameter; a query for the running runs that fails, which ends a start without a row, is not modelled.
- VolumeSelection.ResolveSelection: `sort.Slice` may put volumes of the same name in any order; the model picks one.
- Findings.SortFindings: `sort.Slice` may put findings of the same severity, id and package in any order; every result that depends on it holds for all of them.
- StackGraph.BuildStackGraph: texts, colours, links to pages and the SVG path strings; containers come sorted.
- LoginLimiter.Limiter.RecordFailure: the clock is an unbounded integer; Go's saturating subtraction of far-apart times is not modelled.
- The on-disk restore, live statistics, Docker inspect parsing, the host topology view, notifications and user pages: file-system effects or simple listings.
