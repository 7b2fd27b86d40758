# sandbx: a verified model of its hard parts

sandbx runs commands a language model asked for. This project models the parts of it where a
mistake would be hard to see by reading one function, and proves what those parts are for.

| file | models |
|---|---|
| `Confinement.dfy` | the two-stage confinement protocol as a transition system: supervisor, PID-namespace init, command, kernel |
| `ConfinementLaws.dfy` | what any event and any run may do, apart from the cases that define them: what ends the namespace, what dooms whom, the order of the restrictions |
| `HelperStages.dfy`, `StageLaws.dfy` | the two stages as the straight-line programs they are, each step an oracle that may refuse, how they are runs of the protocol, and what they answer with |
| `Paths.dfy`, `FsGuard.dfy`, `FsWalk.dfy`, `FsLaws.dfy` | the in-process filesystem gate: overlapping roots, two spellings, concealment, the bounded walk written twice; and its answers in terms of the paths and the tree |
| `Bits.dfy`, `Policy.dfy`, `SeccompRules.dfy`, `Bpf.dfy`, `SeccompFilter.dfy`, `SeccompLaws.dfy` | the policy and its builders, the denylist built by loops, the classic-BPF interpreter and its well-formedness check, the stacked filters, and the answers to calls by name |
| `WireAccumulate.dfy`, `WireLaws.dfy`, `EmissionLaws.dfy` | the streaming accumulator as a pulled machine, the eager fold it refines, a stateless reading of the frames, and what a block emits in terms of its own frames |
| `Compact.dfy`, `PlanLaws.dfy` | the compaction planner, the window it cuts, turns and whole sessions of them; and the plan in terms of the cuts alone |
| `Numerals.dfy`, `HelperArgs.dfy`, `AuditChannel.dfy`, `SeamLaws.dfy` | the helper's argv codec and the audit channel codec, and what crosses either of them in full |
| `Text.dfy`, `Render.dfy`, `TerminalSpelling.dfy`, `OutputLaws.dfy` | the answer renderer, the reversible one-line spelling, error lines, and what of each is on the screen |
| `SpawnId.dfy` | spawn ids over many processes and threads |

Code that changes things step by step is a method or a class here, proved against a function of
what it was given; the properties are then proved of that function, for every input or every run.

## What the environment is taken to be

- **Kernel, in `Confinement`.** An armed parent-death signal dooms the init when its supervisor
  dies; the init's end dooms every process of its namespace; orphans reparent to the init. A doomed
  process is killed at some later moment and may run until then. Reading the parent and comparing
  what was read are two separate moments.
- **Steps, in `HelperStages`.** Every system call is an oracle that may refuse. What a stage did is
  the list of steps it took.
- **Filesystem, in `FsGuard` and `FsWalk`.** Resolution, link tests and the measurement of a root are
  oracles of one filesystem state. A directory tree is finite and its links arbitrary.
- **seccompiler.** A compiled program has its documented meaning: a foreign architecture is killed,
  the rule map decides, anything else is allowed. Verdicts of stacked filters combine by severity.
  Syscall numbers and the architecture token are those of x86-64.
- **JSON.** Whether a tool call's argument text parses, and to what, is an oracle; frames arrive parsed or malformed.
- **Clock and pids, in `SpawnId`.** A pid is reused only after its process is gone and the clock has
  moved; the clock does not step back; no process forks without exec.
- **Writes, in `Render`.** Each write to either sink may fail after any prefix of its text.

## What the proofs found

Where a promise fails, there is a lemma with an input that shows it and one that says exactly when
it holds.

- A tool call whose arguments do not parse puts an error in the stream and the stream goes on
  (`WireLaws.AnErrorCanComeFirst`). An error comes before the end exactly when a tool call is closed,
  by its own stop or by the end of the message, on non-blank text the reader rejects:
  `WireLaws.ErrorsMidRunAreBrokenCalls`. A malformed frame ends the stream without reporting usage.
- A turn hands back less than it was handed exactly when the request it counts was sent without a
  plan ever being made, no rounds being allowed or compaction being off:
  `Compact.TurnHoldsTheFloorIffItPlans`, and over whole sessions `Compact.SessionGivesBackIffUnplanned`.
  `Compact.ATurnCanGiveBack` is such a turn.
- The gap between rounds is a blank line, and exactly one unless the round before ended in a blank line
  of its own, which gets a second: `Render.GapIsOneBlankLineIff`, `Render.ABlankLineOfItsOwnIsKept`.
- One more granted root can turn an allowed path into a refusal (`FsGuard.AReplacedRootCanRefuse`), but
  only a root whose object was replaced, and exactly when a spelling of the request lies under it and
  under no root that holds: `FsGuard.OneMoreRoot`.
- Two filesystem states that hide a request get the identical error. The audit trail of a write, which
  the caller never sees, can still differ (`FsGuard.WriteTrailsCanDiffer`): the trails agree exactly when
  the same branch refused, as `FsGuard.RefusalsGiveNothingAway` says.
- The argv decoder's own documentation (crates/sandbx-core/src/helper_args.rs:3-8) has it refuse what
  the encoder could not have emitted, an empty environment name excepted. It accepts more: a signed
  port (`HelperArgs.ASignedPortIsAccepted`), leading zeros, repeats the builders drop, flags out of
  order. `HelperArgs.AcceptedArgvIsWrittenIffCanonical` says exactly what is accepted and also written.
- An object's pin is documented to parse only as it is displayed
  (crates/sandbx-core/src/vetted_path.rs:51-54). It parses with signs and leading zeros too
  (`HelperArgs.ASecondObjectSpelling`); `HelperArgs.ParsedObjectIsSpelledIffPlain` is the exact condition.
  A digest does have one spelling: `HelperArgs.DigestHasOneSpelling`.
- Of all the places the death signal could be armed in, every run is safe exactly when it is armed
  before the parent is read: `Confinement.SafeExactlyWhenArmedFirst`. For every other order there
  is a run that leaves a command nothing will kill. Even with the right order a supervisor can die
  before its init arms anything (`Confinement.AnInitCanBeLost`); such an init starts nothing and, in
  every run that lets it take its remaining steps, ends (`Confinement.LostInitsEnd`).
- Spawn ids of two processes read alike exactly when they share a pid and both took their nonce no
  later than the epoch; within one process, exactly when the counter went round at 2^64. Both happen:
  `SpawnId.BeforeTheEpochIdsCollide`, `SpawnId.TheCounterGoesRound`.
- The BPF check refuses more than what can panic, by the two conditional jumps whose bad side is never
  taken: `Bpf.RefusedJumpsCanLeave`, with a whole program in `Bpf.AHarmlessProgramIsRefused`; and by what
  is never reached.

## Model

| member | source | states |
|---|---|---|
| Confinement.CommandMeansEveryStepWasTaken | crates/sandbx-core/src/helper_exec.rs:220-326 | in every run, whatever fails or dies, a command or any other namespace process exists only if every stage-2 step was taken, in order, in a namespace the supervisor finished preparing |
| Confinement.ChannelTellsOneStory | crates/sandbx-core/src/helper_exec.rs:133-167 | in every run the channel is degradations, then at most one refusal, and no refusal where the command started |
| Confinement.OrphansAreDoomed | crates/sandbx-core/src/helper_hardening.rs:81-129 | in every run, a process outliving the supervisor means the init is already doomed, or gone with every process doomed |
| Confinement.NothingOutlivesTheCall | crates/sandbx-core/src/lib.rs:7-12 | once the supervisor is gone and no kill is pending the namespace is empty, but for an init that never saw its supervisor |
| Confinement.LostNeverStarts | crates/sandbx-core/src/helper_hardening.rs:112-129 | an init whose supervisor died before it was read starts no command on any continuation |
| Confinement.LostInitsEnd | crates/sandbx-core/src/helper_hardening.rs:112-129 | in every run holding as many of its own events, done or failed, as its plan has steps left, and anything in between, such an init is gone and leaves no process |
| Confinement.AnInitCanBeLost | crates/sandbx-core/src/helper_hardening.rs:81-110 | a run from the start that reaches it: the supervisor dies before its init armed anything |
| Confinement.GoneStaysGone | crates/sandbx-core/src/helper_exec.rs:332-352 | after the init is gone nothing joins the namespace, and each delivered kill removes exactly its process |
| Confinement.KillsEmptyTheNamespace | crates/sandbx-core/src/helper_exec.rs:332-352 | as many deliveries as there are processes left empty the namespace |
| Confinement.ArmedTooLateLeaksACommand | crates/sandbx-core/src/helper_hardening.rs:81-110 | for every order that reads the parent before arming there is a run that leaves an undoomed command behind a dead supervisor |
| Confinement.SafeExactlyWhenArmedFirst | crates/sandbx-core/src/helper_exec.rs:265-290 | over all plausible orders of the steps, every run is safe if and only if the signal is armed before the parent is read |
| Confinement.TheSourceArmsFirst | crates/sandbx-core/src/helper_exec.rs:265-326 | the order of the source is a plausible one that arms first |
| ConfinementLaws.TheCommandIsWaitedFor | crates/sandbx-core/src/helper_exec.rs:332-352 | in every run, an init that reaps has a command, and it is running or waiting to be reaped |
| ConfinementLaws.ReapingTheCommandEndsTheNamespace | crates/sandbx-core/src/helper_exec.rs:332-352 | in every run, reaping the command ends the init and dooms every process left; reaping any other leaves the init reaping and every process as it was |
| ConfinementLaws.TheCommandsExitDoomsTheRest | crates/sandbx-core/src/helper_exec.rs:332-352 | in every run, the command exiting and being reaped ends the init and leaves every other process doomed, detached or not |
| ConfinementLaws.TheInitsEndDoomsEveryProcess | crates/sandbx-core/src/lib.rs:7-12 | whatever ended it, an init that goes dooms every process of its namespace |
| ConfinementLaws.WhatEndsAnInit | crates/sandbx-core/src/helper_exec.rs:220-352 | an init ends by a failed step, a parent that is not its supervisor, its command reaped, nothing left to reap, or a kill it was due, and by nothing else |
| ConfinementLaws.DoomIsFinal | crates/sandbx-core/src/lib.rs:7-12 | what is doomed stays doomed until it is gone |
| ConfinementLaws.AnArmedSignalFires | crates/sandbx-core/src/helper_hardening.rs:81-110 | however the supervisor dies, an armed init is doomed at once and no init finds it as its parent after |
| ConfinementLaws.WhatEndsASupervisor | crates/sandbx-core/src/helper_exec.rs:133-188 | a supervisor ends by a refusal, a kill or the end of its wait, which returns only once the init is gone, and by nothing else |
| ConfinementLaws.AGroupKillSparesTheDetached | crates/sandbx-core/src/helper_exec.rs:207-219 | a kill of the group dooms exactly what is still in it and the init; a detached process is left to the init |
| ConfinementLaws.WhereProcessesComeFrom | crates/sandbx-core/src/helper_exec.rs:265-326 | a process appears only as the command, at the last step, or forked by one that is alive and not doomed |
| ConfinementLaws.WhereProcessesGo | crates/sandbx-core/src/helper_exec.rs:332-352 | a process goes by exiting or by a kill it was due; its children become the init's, and it waits to be reaped exactly if it was the init's own |
| ConfinementLaws.StepsComeInPlanOrder | crates/sandbx-core/src/helper_exec.rs:265-326 | in every run of every plausible order, a step taken comes after every one the order puts before it |
| ConfinementLaws.RestrictionsComeInOrder | crates/sandbx-core/src/helper_exec.rs:390-458 | in every run, no_new_privs before every filter and the ruleset, both before the pinned image and non-dumpable, those before the command |
| ConfinementLaws.TheHelperCanFinish | crates/sandbx-core/src/helper_exec.rs:69-352 | a run in which all goes well: every step taken, the command reaped, nobody left, on the channel only what degraded |
| HelperStages.InnerStage.ExecInner | crates/sandbx-core/src/helper_exec.rs:220-262 | takes the steps in order up to the first refusal, and writes one refusal exactly if it stopped with the channel in hand |
| HelperStages.InnerStage.RestrictAndSpawn | crates/sandbx-core/src/helper_exec.rs:265-326 | stops at the first refused of its own steps and takes none after it |
| HelperStages.InnerStage.Apply | crates/sandbx-core/src/helper_exec.rs:390-458 | no_new_privs, then every filter, then the ruleset, stopping at the first refused |
| HelperStages.OuterStage.ExecSandboxed | crates/sandbx-core/src/helper_exec.rs:133-188 | every way stage 1 ends: no image to run again, a refusal after the steps taken and the degradations reported, a wait that fails off the channel, or the relayed end of stage 2 |
| HelperStages.OuterStage.PrepareSupervisor | crates/sandbx-core/src/helper_hardening.rs:27-78 | hardening in order, collecting what it could not do without stopping for it |
| HelperStages.OuterStage.StartInnerStage | crates/sandbx-core/src/helper_exec.rs:69-115 | prepares, reports, then spawns the inner stage, in that order |
| HelperStages.InnerStageIsARun | crates/sandbx-core/src/helper_exec.rs:220-326 | what stage 2 does by itself is a run of the protocol with the same steps, the same channel and the same end |
| HelperStages.OuterStageIsARun | crates/sandbx-core/src/helper_exec.rs:69-167 | stage 1 by itself is a run of the protocol from its start: same stop, same channel, an init born exactly at the end of its steps |
| HelperStages.TheHelperIsARun | crates/sandbx-core/src/helper_exec.rs:69-326 | the two stages one after the other are one run, their writes its channel, the command started in both or in neither |
| HelperStages.TheHelperWritesOneStory | crates/sandbx-core/src/helper_exec.rs:133-167 | so what the stages write is degradations, then at most one refusal, and none where the command started |
| HelperStages.ReapUntil | crates/sandbx-core/src/helper_exec.rs:332-352 | reaps every other child on the way and ends with the command's own exit, or when there is nothing left to wait for |
| HelperStages.TheCommandsCodeComesOut | crates/sandbx-core/src/helper_exec.rs:176-205 | whatever ends the reaping, stage 2 exits with a code below 256 that stage 1 passes on unchanged with nothing raised, and it is zero exactly when the command exited with zero |
| HelperStages.MapIdentity | crates/sandbx-core/src/helper_hardening.rs:300-321 | the writes before the first refused one happened, in order, and that one is the degradation |
| HelperStages.NoNameMisleadsTheParentCheck | crates/sandbx-core/src/helper_hardening.rs:144-147 | for every process name, whatever brackets and spaces it holds, the parent read is the stat line's own parent field |
| StageLaws.WhatEndsTheReaping | crates/sandbx-core/src/helper_exec.rs:337-352 | only the command's own exit or signal, or having no child left, ends the reaping, the last as a plain failure |
| StageLaws.OrphansDecideNothing | crates/sandbx-core/src/helper_exec.rs:332-352 | however many others end first, the status the reaping stops at is the command's own |
| StageLaws.WhatIsRaisedAgain | crates/sandbx-core/src/helper_exec.rs:176-205 | exactly the signals from 1 to 31 are raised again, each as itself; any other comes out as 128 and the number |
| StageLaws.EveryDegradationIsReported | crates/sandbx-core/src/helper_hardening.rs:27-78 | what is reported is one record for each of three steps that came out degraded, in their order, and nothing for any other |
| FsGuard.Contains | crates/sandbx-core/src/fs_guard.rs:1073-1111 | the loop over overlapping roots places a path inside if any covering root confirms, preferring one with a descriptor, and outside naming the first replaced root otherwise |
| FsGuard.Collapse | crates/sandbx-core/src/fs_guard.rs:1048-1068 | the loop over components computes the collapsed form, or nothing where there is no working directory |
| FsGuard.CollapsedIsCanonical | crates/sandbx-core/src/fs_guard.rs:1048-1068 | the collapsed form is absolute and dot-free, and collapsing it again changes nothing |
| FsGuard.PermittedMeansConfirmed | crates/sandbx-core/src/fs_guard.rs:1174-1193 | Ok means beneath a root that confirms, with a descriptor exactly when a confirming cover has one; a pass records nothing and a refusal records once |
| FsGuard.TrailAgreesWithTheError | crates/sandbx-core/src/fs_guard.rs:1145-1171 | what is recorded of a refusal is what the error says |
| FsGuard.VerdictIgnoresRootOrder | crates/sandbx-core/src/fs_guard.rs:1032-1111 | the verdict, the kind of refusal and whether a descriptor is carried do not depend on the order of the roots |
| FsGuard.MovedRootIsNamed | crates/sandbx-core/src/fs_guard.rs:1032-1042 | a replaced root is named exactly when the spelling or its collapsed form lies under one and under no root that confirms |
| FsGuard.OneMoreRoot | crates/sandbx-core/src/fs_guard.rs:1032-1111 | an added root turns a pass into a refusal exactly when it was replaced and a spelling lies under it and under no confirmed root |
| FsGuard.AReplacedRootCanRefuse | crates/sandbx-core/src/fs_guard.rs:1032-1042 | an allowed read that one more, replaced root turns into a refusal |
| FsGuard.RefusalsGiveNothingAway | crates/sandbx-core/src/fs_guard.rs:160-223 | any two states agreeing on the roots' measurements in which the request is hidden give the identical error; the audit trails agree exactly when the same branch refused, which for reads is always |
| FsGuard.HiddenIsDenied | crates/sandbx-core/src/fs_guard.rs:544-592 | what a hidden request is answered and the one record it leaves, branch by branch |
| FsGuard.WriteTrailsCanDiffer | crates/sandbx-core/src/fs_guard.rs:544-592 | a dangling link against nothing at all: one error, two trails |
| FsGuard.AbsenceIsAdmittedExactlyWithin | crates/sandbx-core/src/fs_guard.rs:544-592 | absent or unresolvable is answered if and only if no spelling names a replaced root and the nearest resolving ancestor is inside a confirmed root and reaches the request plainly |
| FsGuard.AbsenceNamesNothing | crates/sandbx-core/src/fs_guard.rs:621-630 | of the two answers, absence is given only for errors that name nothing and the other only for the rest |
| FsLaws.NearestAncestorIsDeepest | crates/sandbx-core/src/fs_guard.rs:654-669 | every proper prefix longer than the ancestor found fails to resolve, and all of them do where none is found |
| FsLaws.PlainMeansNoLink | crates/sandbx-core/src/fs_guard.rs:641-648 | no prefix of the request longer than the ancestor, the request included, is a link |
| FsLaws.AMissingFileIsNotFound | crates/sandbx-core/src/fs_guard.rs:160-223 | a name that is not there, in a directory within a confirmed root, spelled plainly, is answered as absent, or as unresolvable for errors that name something |
| FsLaws.AMissingDirectoryIsNotFound | crates/sandbx-core/src/fs_guard.rs:544-592 | for a write whose directory is missing from one within a confirmed root it is the directory that is answered as absent |
| FsLaws.ANewFileMayBeWritten | crates/sandbx-core/src/fs_guard.rs:544-592 | a name that is not there may be written exactly where its directory's resolved path and that name lie beneath a confirmed root, and it is permitted as that path |
| FsLaws.WhatExistsIsPermittedWhereItIs | crates/sandbx-core/src/fs_guard.rs:1174-1193 | what resolves is permitted exactly if it resolves beneath a confirmed root and no spelling names a replaced one, and as what it resolves to |
| FsLaws.TheReplacedRootIsReported | crates/sandbx-core/src/fs_guard.rs:1145-1171 | a replaced root reported is a granted one, with both its objects, and a spelling lies beneath it |
| FsLaws.CollapsingGoesPartByPart | crates/sandbx-core/src/fs_guard.rs:1048-1068 | a name goes one down, `..` one up and never above the root, `.` nowhere |
| FsWalk.ListingShrinks | crates/sandbx-core/src/fs_guard.rs:352-420 | listing a level leaves less tree to visit, links or no links: the walk ends |
| FsWalk.WalkByPath | crates/sandbx-core/src/fs_guard.rs:352-427 | the by-path descent returns the sorted, capped visit of the tree, finding each directory again by its own path, and records the links it refused until it stopped |
| FsWalk.WalkBeneath | crates/sandbx-core/src/fs_guard.rs:435-508 | the by-descriptor descent returns the very same walk and records |
| FsWalk.WalkReadable | crates/sandbx-core/src/fs_guard.rs:322-427 | the public walk and its audit trail: refused as the read check refuses, refused as an escape, or that walk with one record for it after those of its links |
| FsWalk.VisitMeetsEveryFile | crates/sandbx-core/src/fs_guard.rs:352-420 | a last-in first-out descent meets exactly the permitted files of the tree, each as often as the recursion on the tree names it |
| FsWalk.WalkReturnsTheTree | crates/sandbx-core/src/fs_guard.rs:322-427 | the result is sorted, holds the lesser of cap and total, truncated exactly when the total exceeds the cap, and is all of them when not |
| FsWalk.EveryIsWhatChainsYield | crates/sandbx-core/src/fs_guard.rs:352-420 | a file is named exactly when a chain of listable directory entries leads to it |
| FsWalk.WalkStaysWithinTheGrants | crates/sandbx-core/src/fs_guard.rs:515-535 | every file a walk names lies beneath a confirmed readable root |
| FsWalk.WalkNotesTheRefusedLinks | crates/sandbx-core/src/fs_guard.rs:515-535 | a walk records only links the granted set refuses, and each of them unless the cap stopped it |
| FsWalk.WalkNamesReadableFiles | crates/sandbx-core/src/fs_guard.rs:311-321 | where tree and filesystem are one state, every file named is a regular file by its canonical name that the read check itself lets through |
| FsLaws.EveryFileIsNamed | crates/sandbx-core/src/fs_guard.rs:352-427 | a file is named if and only if a chain of typed, listable directories ends in a typed regular file, by its own path, or in a link that resolves to it as a regular file beneath a confirmed root under a spelling that names no replaced one |
| FsLaws.APermittedWalkNamesTheFiles | crates/sandbx-core/src/fs_guard.rs:322-427 | the public walk holds only such files, and all of them when it was not cut short |
| FsLaws.TheRecordsAreOfRefusedLinks | crates/sandbx-core/src/fs_guard.rs:515-535 | what a tree gives to record is exactly its reachable links that resolve and are spelled through a replaced root or lead out of every confirmed one, each with its own reason |
| Policy.EveryPolicyIsBuilt | crates/sandbx-core/src/sandbox_policy.rs:189-440 | the shapes the codec is proved on hold of every policy a sequence of builder calls gives |
| SeamLaws.GrantsAreKept | crates/sandbx-core/src/sandbox_policy.rs:189-200 | each axis holds the paths granted on it, in the order they were |
| SeamLaws.NamesAreKept | crates/sandbx-core/src/sandbox_policy.rs:304-316 | the environment names allowed are kept, in order, those that can name no variable skipped |
| SeamLaws.SwitchesAreAskedFor | crates/sandbx-core/src/sandbox_policy.rs:399-440 | unix sockets and the resolver hint are on exactly if asked for, and a host is listed exactly if allowed and resolvable |
| SeamLaws.TheWidestNetworkWins | crates/sandbx-core/src/sandbox_policy.rs:363-397 | every port exactly if that was ever asked for; otherwise exactly the ports asked for, zero excepted |
| SeccompRules.RuleMap.DenyWhen | crates/sandbx-core/src/helper_seccomp_rules.rs:138-150 | the denied set becomes the union of the old one and the rule's, an outright denial staying outright; an empty rule is an error |
| SeccompRules.RuleMap.DenyNamespaceClones | crates/sandbx-core/src/helper_seccomp_rules.rs:168-178 | adds exactly the clones with a namespace bit in the low half of the flags |
| SeccompRules.RuleMap.DenyUnixSockets | crates/sandbx-core/src/helper_seccomp_rules.rs:189-221 | adds exactly the unix sockets and pairs that can dial, by masked type |
| SeccompRules.RuleMap.ConfineToTcp | crates/sandbx-core/src/helper_seccomp_rules.rs:226-328 | adds exactly what leaves TCP, swaps the protocol or opens fast |
| SeccompRules.BlockedSyscalls | crates/sandbx-core/src/helper_seccomp_rules.rs:157-330 | for every policy, number and six arguments the built map denies exactly a closed form, and no step of building it can fail |
| SeccompRules.GrantsMoveTheDenialOneWay | crates/sandbx-core/src/helper_seccomp_rules.rs:157-330 | granting unix sockets only shrinks what is denied, by unix sockets alone; a port list only grows it, never by one |
| SeccompLaws.SomeCallsAreDeniedToEveryone | crates/sandbx-core/src/helper_seccomp_rules.rs:12-100 | every call of the seed is answered with EPERM under every policy |
| SeccompLaws.OtherCallsAreAllowed | crates/sandbx-core/src/helper_seccomp_rules.rs:157-330 | a number neither the seed nor a rule names is allowed under every policy |
| SeccompLaws.ClonesAreDeniedForANamespace | crates/sandbx-core/src/helper_seccomp_rules.rs:168-178 | `clone` is denied exactly for a flags word asking for a namespace, the high half ignored |
| SeccompLaws.UnixSocketsAreTheirOwnGrant | crates/sandbx-core/src/helper_seccomp_rules.rs:189-221 | a unix socket is answered by its own grant alone, whatever the network policy and the type |
| SeccompLaws.UnixPairsMayBeConnected | crates/sandbx-core/src/helper_seccomp_rules.rs:189-221 | without the grant a unix pair is denied exactly unless it is a stream or a sequence of packets |
| SeccompLaws.APortListConfinesSocketsToTcp | crates/sandbx-core/src/helper_seccomp_rules.rs:226-328 | under a port list any other socket is denied exactly unless it is an IP stream speaking TCP; without one none is |
| SeccompLaws.APortListKeepsTheProtocol | crates/sandbx-core/src/helper_seccomp_rules.rs:226-328 | under a port list, and under nothing else, swapping a TCP socket's protocol is denied |
| SeccompLaws.APortListForbidsFastOpen | crates/sandbx-core/src/helper_seccomp_rules.rs:226-328 | under a port list, and under nothing else, the three sends are denied exactly with the flag that connects |
| Bpf.Eval | crates/sandbx-core/src/helper_seccomp_tests_bpf.rs:114-177 | the loop computes the program's meaning, panics included |
| Bpf.CheckProgramIsWellFormed | crates/sandbx-core/src/helper_seccomp_tests_denylist.rs:160-223 | accepts exactly the well-formed programs |
| Bpf.AcceptedProgramsNeverPanic | crates/sandbx-core/src/helper_seccomp_tests_bpf.rs:114-177 | every accepted program ends, on all data, without panicking and with a verdict in the allowed set |
| Bpf.RefusedInstructionsMisbehave | crates/sandbx-core/src/helper_seccomp_tests_denylist.rs:160-223 | an instruction refused for its opcode, load, plain jump or verdict panics or answers out of set wherever it is reached |
| Bpf.LastMustReturn | crates/sandbx-core/src/helper_seccomp_tests_denylist.rs:160-175 | a program refused for being empty or for not ending in a return panics once it gets there |
| Bpf.RefusedJumpsCanLeave | crates/sandbx-core/src/helper_seccomp_tests_denylist.rs:175-215 | a conditional jump with a target out of range takes it for some accumulator, exactly unless its comparison never comes out that way |
| Bpf.LeavingPanics | crates/sandbx-core/src/helper_seccomp_tests_bpf.rs:114-177 | a jump out of the program is a panic |
| Bpf.AHarmlessProgramIsRefused | crates/sandbx-core/src/helper_seccomp_tests_denylist.rs:160-223 | a whole program that is refused and, on all data, ends in a verdict |
| SeccompLaws.AComparisonReadsItsWord | crates/sandbx-core/src/helper_seccomp_tests_bpf.rs:80-177 | a program that loads the number or the architecture and compares it answers by that comparison |
| SeccompLaws.AComparisonReadsItsArgument | crates/sandbx-core/src/helper_seccomp_tests_bpf.rs:80-177 | and so for the low and the high half of each of the six arguments |
| SeccompLaws.MasksAndJumps | crates/sandbx-core/src/helper_seccomp_tests_bpf.rs:114-177 | a mask is applied to what was loaded, and a plain jump skips as many as it says |
| SeccompFilter.SeccompDataFor | crates/sandbx-core/src/helper_seccomp_tests_bpf.rs:80-107 | fills the sixteen words in place as the kernel lays them out |
| SeccompFilter.DataRoundTrips | crates/sandbx-core/src/helper_seccomp_tests_bpf.rs:80-107 | the number and all six arguments are read back out of the words |
| SeccompFilter.X32GateIsAccepted | crates/sandbx-core/src/helper_seccomp_filter.rs:97-131 | the hand-assembled gate passes the well-formedness check |
| SeccompFilter.X32GateKillsExactlyX32 | crates/sandbx-core/src/helper_seccomp_filter.rs:97-131 | it kills exactly the numbers with the sign bit clear and bit 30 set, and allows the rest |
| SeccompFilter.Clone3IsNeverEperm | crates/sandbx-core/src/helper_seccomp_filter.rs:73-90 | no call is answered by two different errnos |
| SeccompFilter.KernelVerdictIsMostSevere | crates/sandbx-core/src/helper_seccomp_filter.rs:140-172 | the combined verdict is some filter's own and at least as severe as every filter's |
| SeccompFilter.StackAnswersTheIntent | crates/sandbx-core/src/helper_seccomp_filter.rs:140-172 | for every policy and call the stack's verdict is the intended one, in whatever order the filters went in |
| SeccompFilter.InstalledFilters | crates/sandbx-core/src/helper_seccomp_filter.rs:140-172 | the filters returned answer every call as the policy intends |
| SeccompLaws.ForeignCallsAreKilled | crates/sandbx-core/src/helper_seccomp_filter.rs:29-43 | a call of another architecture is killed under every policy |
| SeccompLaws.X32CallsAreKilled | crates/sandbx-core/src/helper_seccomp_filter.rs:97-131 | every number of the x32 range is killed under every policy |
| SeccompLaws.Clone3IsUnknown | crates/sandbx-core/src/helper_seccomp_filter.rs:73-90 | `clone3` is answered with ENOSYS under every policy |
| WireAccumulate.WireState.Next | crates/sandbx-anthropic/src/anthropic_wire_accumulate.rs:177-346 | one pull through the pending queue is the head of what the eager fold still owes |
| WireAccumulate.WireState.Advance | crates/sandbx-anthropic/src/anthropic_wire_accumulate.rs:193-344 | one item off the transport changes neither what is owed nor what stays unread |
| WireAccumulate.WireState.Fold | crates/sandbx-anthropic/src/anthropic_wire_accumulate.rs:229-323 | one frame changes the state and emits as the fold says |
| WireAccumulate.WireState.FlushOpenBlocks | crates/sandbx-anthropic/src/anthropic_wire_accumulate.rs:129-141 | what was open is closed in ascending index order and nothing stays open |
| WireAccumulate.EventStream | crates/sandbx-anthropic/src/anthropic_wire_accumulate.rs:50-65 | the items pulled are the eager fold of the frames, and what is left unread starts right after what ended the turn |
| WireLaws.FoldHoldsOpenBlocks | crates/sandbx-anthropic/src/anthropic_wire_accumulate.rs:231-315 | what the fold holds at an index is the last start there and the matching deltas there since, in order |
| WireLaws.FoldHoldsReports | crates/sandbx-anthropic/src/anthropic_wire_accumulate.rs:84-96 | each counter held is the last one reported, and the reason the last one given |
| WireLaws.RunReadsTheFrames | crates/sandbx-anthropic/src/anthropic_wire_accumulate.rs:143-175 | the whole run, item by item, off the frames alone |
| WireLaws.OtherFramesCannotInterfere | crates/sandbx-anthropic/src/anthropic_wire_accumulate.rs:231-315 | removing a frame of another index or another kind changes nothing an index holds later |
| WireLaws.MismatchedDeltaIsIgnored | crates/sandbx-anthropic/src/anthropic_wire_accumulate.rs:271-308 | a delta no block at its index takes, none being open there or one of the other kind, changes nothing the index holds later |
| WireLaws.MismatchedDeltaOnlyShowsItself | crates/sandbx-anthropic/src/anthropic_wire_accumulate.rs:271-308 | in the run such a delta adds its own increment where it came, and nothing after it, the end included, is different |
| WireLaws.RunEndsExactlyOnce | crates/sandbx-anthropic/src/anthropic_wire_accumulate.rs:185-346 | one terminal item, the last; Stop exactly when message_stop ended it; usage at most once, directly before, with the last values, and never after a malformed frame |
| WireLaws.ErrorsMidRunAreBrokenCalls | crates/sandbx-anthropic/src/anthropic_wire_accumulate.rs:157-175 | an error comes before the end exactly when a tool call is closed, or left open at the end of the message, on non-blank text the reader rejects |
| WireLaws.AnErrorCanComeFirst | crates/sandbx-anthropic/src/anthropic_wire_accumulate.rs:157-175 | a run whose first item is that error and whose last is a Stop |
| WireLaws.NothingIsReadPastTheEnd | crates/sandbx-anthropic/src/anthropic_wire_accumulate.rs:185-227 | what follows the frame that ends the turn cannot change the run |
| EmissionLaws.AStopEmitsTheCall | crates/sandbx-anthropic/src/anthropic_wire_accumulate.rs:157-175 | a stopped tool call comes out under the id and name it was started with, carrying what its pieces read as, the empty object if they are blank, an error if they cannot be read |
| EmissionLaws.AStopEmitsTheThought | crates/sandbx-anthropic/src/anthropic_wire_accumulate.rs:143-155 | a stopped thought comes out with all its text and its signature exactly if that is not empty |
| EmissionLaws.AStopElsewhereIsSilent | crates/sandbx-anthropic/src/anthropic_wire_accumulate.rs:143-155 | a stop of a block that accumulates nothing emits nothing |
| EmissionLaws.PiecesComeInOrder | crates/sandbx-anthropic/src/anthropic_wire_accumulate.rs:271-308 | the pieces an index gathers are joined in the order they came, and only its own |
| EmissionLaws.TheEndStopsEveryOpenBlock | crates/sandbx-anthropic/src/anthropic_wire_accumulate.rs:129-141 | ending the message with blocks open is ending it after a stop for each, in ascending order |
| EmissionLaws.TheEndEmitsTheCall | crates/sandbx-anthropic/src/anthropic_wire_accumulate.rs:129-175 | so a call nothing stopped comes out at the end under its own id and name |
| EmissionLaws.TheEndEmitsTheThought | crates/sandbx-anthropic/src/anthropic_wire_accumulate.rs:129-155 | and a signed thought nothing stopped comes out whole |
| EmissionLaws.IncrementsAreShownAsTheyCome | crates/sandbx-anthropic/src/anthropic_wire_accumulate.rs:231-308 | text, thoughts and redacted thoughts are shown as they come, whatever is open |
| EmissionLaws.ReasonsAreRead | crates/sandbx-anthropic/src/anthropic_wire_accumulate.rs:17-25 | the four reasons the API names are read as themselves and any other under its own name |
| Compact.PlanCutIsNearestLegal | crates/sandbx-compact/src/lib.rs:105-137 | the cut is the shallowest legal one at or past the target, else the deepest below it, else none exists |
| Compact.CutIsLegalIffItOpensARequest | crates/sandbx-compact/src/lib.rs:171-180 | of a legal conversation, a cut leaves a legal one if and only if it opens a request, and leaves no call unanswered that was not |
| Compact.WithholdingKeepsTheConversationLegal | crates/sandbx-compact/src/lib.rs:105-166 | withholding what the planner says keeps every legal conversation legal, and every answered one answered |
| Compact.WindowsCompose | crates/sandbx-compact/src/lib.rs:149-166 | withholding a and then b is withholding their sum |
| Compact.PlanCutGrowsWithProduced | crates/sandbx-compact/src/lib.rs:105-137 | producing more never brings a withheld message back |
| Compact.PlanCutHoldsTheFloor | crates/sandbx-compact/src/lib.rs:105-137 | a floor that is a legal cut is met by every plan |
| PlanLaws.APlanKeepsTheCap | crates/sandbx-compact/src/lib.rs:105-137 | over budget, the plan is the least legal cut at or past the floor that keeps at most the cap, what was produced counted; the deepest legal one where none does; none where everything fits unfloored or nothing is legal |
| PlanLaws.APlanWithinBudgetKeepsTheFloor | crates/sandbx-compact/src/lib.rs:105-137 | within budget, it is the least legal cut at or past the floor, else the deepest, and none where no floor holds |
| PlanLaws.EverythingCountsAgainstTheBudget | crates/sandbx-compact/src/lib.rs:73-92 | fresh, cached and newly cached tokens all count against the budget, and an unmeasured request never exceeds it |
| PlanLaws.AWindowIsTheRest | crates/sandbx-compact/src/lib.rs:149-166 | a window is the messages from its cut on, the first less its results; uncut it is the history |
| PlanLaws.OnlyResultsAreDropped | crates/sandbx-compact/src/lib.rs:149-166 | what the first message loses is its results and nothing else, the order kept |
| PlanLaws.RoundsPlanFromTheLast | crates/sandbx-turn/src/turn.rs:278-301 | each round plans from the cut of the one before it and keeps that where it plans nothing |
| Compact.TurnHoldsTheFloorIffItPlans | crates/sandbx-turn/src/turn.rs:246-301 | a turn, finished or interrupted, hands back less than it was handed exactly when the request it counts was never planned |
| Compact.ATurnCanGiveBack | crates/sandbx-turn/src/turn.rs:278-301 | a turn that hands back less than it was handed |
| Compact.SessionGivesBackIffUnplanned | crates/sandbx-turn/src/turn.rs:70-108 | in any append-only session mixing finished, interrupted, planned and unplanned turns, a turn hands on less than it was handed exactly when it was handed something and counts an unplanned request |
| Compact.SessionNeverGivesBack | crates/sandbx-turn/src/turn.rs:70-82 | and where no turn does, the streamed cuts never decrease over the whole session |
| HelperArgs.Encode | crates/sandbx-core/src/helper_args.rs:84-127 | the argv written is the specified one, axis by axis |
| HelperArgs.Decode | crates/sandbx-core/src/helper_args.rs:131-240 | the loop over tokens reads an argv flag by flag, with the source's refusals |
| HelperArgs.EncodeThenDecode | crates/sandbx-core/src/helper_args.rs:84-240 | every policy the builders give, program, arguments and pin cross unchanged, whatever flag-like text they hold, exactly when the pair may be sent; and what is written is canonical |
| HelperArgs.AcceptedArgvSurvivesACrossing | crates/sandbx-core/src/helper_args.rs:131-240 | any accepted argv yields non-zero ports, names without `=`, a pin only with an absolute program, and survives another crossing |
| HelperArgs.AcceptedArgvIsWrittenIffCanonical | crates/sandbx-core/src/helper_args.rs:3-8 | an accepted argv is the one the encoder writes for what it means if and only if each flag is in the encoder's order, says something new and is spelled as the encoder spells it |
| HelperArgs.ASignedPortIsAccepted | crates/sandbx-core/src/helper_args.rs:131-240 | an argv that is accepted and that no encoder writes |
| Numerals.ParsedIsSpelledIffPlain | crates/sandbx-core/src/helper_args.rs:131-240 | of the numerals parsing accepts, exactly the unsigned ones without leading zeros are spelled back |
| HelperArgs.ObjectRoundTrips | crates/sandbx-core/src/vetted_path.rs:54-68 | an object's spelling is read back as that object |
| HelperArgs.ParsedObjectIsSpelledIffPlain | crates/sandbx-core/src/vetted_path.rs:51-61 | of the pins that parse, exactly those of two plain numerals are what display writes |
| HelperArgs.ASecondObjectSpelling | crates/sandbx-core/src/vetted_path.rs:51-61 | a pin that parses and that display does not write |
| HelperArgs.DigestRoundTrips | crates/sandbx-core/src/sha256_digest.rs:25-42 | a digest's spelling is read back as that digest |
| HelperArgs.DigestHasOneSpelling | crates/sandbx-core/src/sha256_digest.rs:22-42 | every text that parses as a digest is the one its digest is written as |
| HelperArgs.FlagsAreTheirOwnTokens | crates/sandbx-core/src/helper_args.rs:40-53 | no two flags share a spelling |
| SeamLaws.ANameListMustBoundSomething | crates/sandbx-core/src/helper_args.rs:225-236 | of what is otherwise sendable, a name allowlist is refused exactly beside the resolver hint, unix sockets, every port or port 53 |
| SeamLaws.APinNeedsAnAbsoluteProgram | crates/sandbx-core/src/helper_args.rs:213-224 | a pin beside a program that is not absolute is refused |
| SeamLaws.AcceptedNamesAreBounded | crates/sandbx-core/src/sandbox_policy.rs:257-297 | however it was spelled, an accepted argv bounds the names it lists |
| SeamLaws.ASecondPinIsRefused | crates/sandbx-core/src/helper_args.rs:131-240 | a second pin is refused |
| SeamLaws.AnArgvInFull | crates/sandbx-core/src/helper_args.rs:84-127 | a policy of one of everything, token by token as the helper is handed it |
| SeamLaws.ADigestGoesByteByByte | crates/sandbx-core/src/sha256_digest.rs:25-42 | a digest is written byte by byte, high half first, in lower case |
| AuditChannel.Encode | crates/sandbx-core/src/degradation.rs:94-112 | the loop writes one line a record |
| AuditChannel.TakeDetail | crates/sandbx-core/src/degradation.rs:94-112 | a detail crosses without separators, cut to its limit |
| AuditChannel.ChannelRoundTrips | crates/sandbx-core/src/degradation.rs:94-138 | the steps and then the refusal are read back in order, whatever the details hold, cut at the record limit, which is never reached while each step reports once |
| AuditChannel.Decoded | crates/sandbx-core/src/degradation.rs:123-138 | any text at all yields at most the limit of reports |
| AuditChannel.JunkChangesNothing | crates/sandbx-core/src/degradation.rs:123-138 | a line nobody recognises changes nothing, wherever it is put |
| AuditChannel.LabelsDiffer | crates/sandbx-core/src/helper_refusal.rs:84-107 | the two label sets are disjoint and no label is used twice |
| StageLaws.WhatAStepIsCalled | crates/sandbx-core/src/degradation.rs:67-86 | a name on the wire is read as a degraded step exactly if it is the step's own |
| StageLaws.WhatARefusalIsCalled | crates/sandbx-core/src/helper_refusal.rs:84-107 | and as a refusal exactly if it is the refusal's own |
| SeamLaws.DetailsLoseOnlySeparators | crates/sandbx-core/src/degradation.rs:94-112 | what crosses of a detail is its characters in order, newlines and tabs alone left out |
| SeamLaws.PlainDetailsComeThroughWhole | crates/sandbx-core/src/degradation.rs:94-138 | details without separators, within the limit and not ended by a carriage return are read back as they were sent, each under its step, the refusal after them |
| SeamLaws.AChannelInFull | crates/sandbx-core/src/degradation.rs:94-120 | a degradation and a refusal, character by character |
| Render.Renderer.Event | crates/sandbx-cli/src/agent_render.rs:152-196 | keeps both sinks and all five flags to what the events so far call for |
| Render.Renderer.Separate | crates/sandbx-cli/src/agent_render.rs:122-124 | starts a round, owing a gap only once something was written |
| Render.Renderer.Finish | crates/sandbx-cli/src/agent_render.rs:208-272 | stdout closed once, stderr whole lines and then the remarks, the exit code or the failure |
| Render.Turn | crates/sandbx-cli/src/agent_render.rs:122-286 | for every sequence of events and separations and every pattern of failed writes: stdout is the rounds with a gap between each two, terminated, or a reported prefix of that |
| Render.GapLeavesABlankLine | crates/sandbx-cli/src/agent_render.rs:163-166 | a part-written line is ended and an empty one added; a text that ended its line gets exactly one newline more |
| Render.GapIsOneBlankLineIff | crates/sandbx-cli/src/agent_render.rs:163-166 | it is one blank line exactly unless the text before already ends in one |
| Render.ABlankLineOfItsOwnIsKept | crates/sandbx-cli/src/agent_render.rs:163-166 | a round that ends in a blank line is set off by two |
| Render.RoundsHoldTheDeltas | crates/sandbx-cli/src/agent_render.rs:152-172 | the rounds hold every text delta, in order and nothing else |
| Render.SilentRoundsLeaveNoTrace | crates/sandbx-cli/src/agent_render.rs:118-124 | a round that answers with nothing adds no blank line |
| Render.UnseparatedIsUntouched | crates/sandbx-cli/src/agent_render.rs:152-172 | a turn never separated goes out as it came |
| Render.AnswersStartAFreshLine | crates/sandbx-cli/src/agent_render.rs:155-190 | no line of reasoning is open when answer text is written or a round stops |
| Render.RemarksStartAFreshLine | crates/sandbx-cli/src/agent_render.rs:208-260 | each remark is a line of its own |
| Render.ClosingEndsTheLine | crates/sandbx-cli/src/agent_render.rs:217-219 | a newline is added exactly when the text lacks one |
| Render.InertSurvivesStreaming | crates/sandbx-cli/src/agent_render.rs:307-317 | reasoning cut anywhere is shown as if it had come whole |
| Render.InertIsHarmless | crates/sandbx-cli/src/agent_render.rs:307-317 | what is shown can move nothing and hide nothing, and harmless text is unchanged |
| OutputLaws.RoundsStartWhereSeparated | crates/sandbx-cli/src/agent_render.rs:122-172 | a separation starts a round and text goes on with the last one |
| OutputLaws.NoGapComesFirst | crates/sandbx-cli/src/agent_render.rs:118-124 | a separation before anything was said leaves nothing in front of it |
| OutputLaws.BurstsHoldTheThoughts | crates/sandbx-cli/src/agent_render.rs:170-196 | what is shown of the reasoning is every thought in order, made inert, and nothing else |
| OutputLaws.HiddenReasoningIsNotWritten | crates/sandbx-cli/src/agent_render.rs:170-196 | hidden reasoning leaves nothing on stderr |
| OutputLaws.WhatIsRemarked | crates/sandbx-cli/src/agent_render.rs:208-260 | a cut answer and an ending are each said once and only if they are so; where stdout failed only a lost operator still is |
| TerminalSpelling.PushSpelled | crates/sandbx-cli/src/error_line.rs:44-55 | the loop appends the spelling of the text |
| TerminalSpelling.SpellingIsRead | crates/sandbx-cli/src/error_line.rs:44-55 | a decoder recovers the text up to which character was replaced |
| TerminalSpelling.SpelledAlikeIffCanonicallyAlike | crates/sandbx-cli/src/agent_gate.rs:239-243 | two texts are spelled alike if and only if they agree once control and invisible characters are replaced |
| TerminalSpelling.StrippingStops | crates/sandbx-cli/src/agent_gate.rs:251-262 | stripping is idempotent and leaves alone exactly the inert texts |
| TerminalSpelling.StripLeavesSpelling | crates/sandbx-cli/src/agent_gate.rs:239-262 | a spelled text holds nothing the strip changes |
| TerminalSpelling.PrintedAlikeIffKeptAlike | crates/sandbx-cli/src/agent_gate.rs:221-232 | a cut is never mistaken for an end |
| TerminalSpelling.ErrorLine | crates/sandbx-cli/src/error_line.rs:22-38 | the walk down the causes prints each link its parent does not hold |
| TerminalSpelling.NoCauseIsHidden | crates/sandbx-cli/src/error_line.rs:22-38 | every cause's text lies within a link that was printed |
| TerminalSpelling.ErrorLineIsInert | crates/sandbx-cli/src/error_line.rs:22-38 | the report is one line the terminal can only print |
| OutputLaws.TheLineGrowsByPrintedLinks | crates/sandbx-cli/src/error_line.rs:22-38 | each cause its parent does not hold adds a separator and its spelling, and any other nothing |
| OutputLaws.EveryPrintedLinkIsOnTheLine | crates/sandbx-cli/src/error_line.rs:22-38 | the line holds every printed cause's spelling, behind its separator and after the ones before it |
| OutputLaws.SpelledOneByOne | crates/sandbx-cli/src/error_line.rs:44-55 | a text is spelled character by character: line ends, tabs and backslashes by escapes, what cannot be seen by the replacement, printable ASCII as itself |
| SpawnId.Statics.Next | crates/sandbx-core/src/spawn_id.rs:36-54 | derives the nonce once, counts up and wraps, and spells both |
| SpawnId.TextNamesTheParts | crates/sandbx-core/src/spawn_id.rs:20-32 | two ids read alike exactly when pid, nanoseconds and wrapped count agree |
| SeamLaws.AnIdInFull | crates/sandbx-core/src/spawn_id.rs:20-54 | one id, character by character: pid and nanoseconds in hex, the count in decimal |
| SpawnId.IdsReadAlikeIffTheyCollide | crates/sandbx-core/src/spawn_id.rs:14-54 | over every interleaving of processes and threads, two ids read alike exactly in the two ways a clock or a counter allows |
| SpawnId.EveryIdIsItsOwn | crates/sandbx-core/src/spawn_id.rs:14-54 | past the epoch all ids ever minted are pairwise distinct as strings |
| SpawnId.OneCallAlone | crates/sandbx-core/src/spawn_id.rs:36-54 | a call that meets no other thread does what the single-threaded method says |
| SpawnId.BeforeTheEpochIdsCollide | crates/sandbx-core/src/spawn_id.rs:38-44 | a run before the epoch in which a reused pid mints its predecessor's id |
| SpawnId.TheCounterGoesRound | crates/sandbx-core/src/spawn_id.rs:46-54 | a run past the epoch in which a process mints its first id again, 2^64 ids later |

## Left out

- Confinement.NothingOutlivesTheCall: leaves out an init whose supervisor died before it read it as its parent; nothing kills it, and it ends in every run that lets it take its remaining steps, as LostInitsEnd proves.
- SpawnId.EveryIdIsItsOwn: does not cover a process that mints more than 2^64 ids, whose counter wraps; TheCounterGoesRound shows it.
- Compact.SessionNeverGivesBack: does not cover sessions with an unplanned turn, about which SessionGivesBackIffUnplanned is exact, nor a turn that ends in an error, which hands back nothing.
- Bpf.LastMustReturn: a program refused for being longer than 4096 instructions need not misbehave; that limit is the kernel's.
- HelperStages.OuterStage.ExecSandboxed: what is written to the channel is taken to reach it; the source drops a write that fails.
- The session name an audit record carries.
- Render.Turn: the route by which other parts of the program write their own account lines to the renderer is not modelled; it does not close a line of reasoning.
- Between a check and the access after it the filesystem is one state: roots swapped in between, `open_read`, `read_dir`, `open_write` and the opens beneath a descriptor are not modelled.
- How seccompiler and Landlock generate code, how the ruleset is composed, and that the kernel obeys either.
- The wording of errors and remarks, `Display` output, tracing and the table of who decided a refusal.
- Stderr forwarding, the resolver's file rewriting and mount plumbing.
- Paths that are not UTF-8, and other architectures' syscall numbers.
- JSON, TOML, SSE and HTTP parsing, credentials, the terminal's draining and the full-screen interface.
- The 32-bit width of wire block indices and counters: they are natural numbers here, only compared and stored.
- That the once-cell blocks its waiting threads fairly: a thread may wait for ever in the model, which mints nothing.
