# Control programs of the hosting platform, in Dafny

This project models the root-side control programs under `packages/pockethost/scripts` and proves what
they promise over whole runs: memory allocation, operator edits, resource accounting, release protocols,
and the installers that edit files they share with others. `dafny verify dfyconfig.toml` checks everything.

## How the model is built

* **What a program computes** is a function: the growth policy, what a lease means, what a rewrite leaves.
* **What a program does step by step** is a method with the loops of the program, in a class where the
  program changes state, and its contract ties the result and the new state to such a function or to a
  property of the inputs. Main properties are lemmas about the function, or the contract itself.
* **When a program does something** is stated besides, as an if-and-only-if in terms of what it reads, with its
  constants written out: `AllocatorRules` and `EditRules`, and the lemmas whose names end in `Iff`.
* **What can interrupt a program** is part of the model. An allocator cycle and an operator edit are
  sequences of writes; a process that is killed leaves a prefix of them, and a restart begins from the
  files. A process may also live on after one of the last writes of its cycle failed, with a state older than
  its file. Runs mix cycles, kills, edits and changes made by others in any order. The release protocol is a
  state machine over the steps of any number of claimers, the operators, the clock and the guard.
* **What a program reads from the machine** (the container engine, SQLite, cgroup files, the clock) is a
  parameter that takes every value, failures included. Digests are taken as injective. Sizes are unbounded
  integers, as in Python; the factors 0.35, 0.70, 0.75, 1.25 and 1.5 are exact rationals.

| modules | program |
|---|---|
| `MemoryPolicy`, `Allocator`, `AllocatorRules`, `AllocatorRuns`, `AllocatorLimits`, `AllocatorLive`, `AllocatorGaps`, `AllocatorDaemon`, `Docker` | `platform_memory_allocator.py` |
| `Reservations`, `ReservedHeadroom`, `Documents` | `database_memory_reservations.py`, `database_memory_management.py` |
| `Operator`, `EditRules`, `OperatorConsole`, `ControlPlane`, `LockOut` | `platform_operator.py`, together with the allocator |
| `DiskScan`, `DiskReport`, `DiskLimits`, `CgroupRoots`, `Sampler`, `CollectorRound` | `platform_resource_collector.py` |
| `Maintenance`, `ReleaseGuard`, `Quiescence`, `GuardedRelease` | `platform_maintenance.py`, `platform_release_guard.py` |
| `Fleet` | `platform-fleet.py` |
| `ManagedKeys`, `FleetReader` | `install-platform-fleet-reader.py` |
| `SubordinateIds` | `install-project-recovery-engine.py` |
| `Common`, `Sums`, `Accounting`, `Text` | shared helpers |

## Where the programs do less than one may expect

Each point is a lemma below, with the condition under which the expectation does hold.

* A decision named "grow" lowers the limit exactly when the limit is above both its floor and its ceiling
  (`GrowLowersIff`, `GrowCanLower`).
* An update that the engine applies but does not confirm, in a process that lives on, is later taken for
  a change from outside, unless nothing had been recorded as applied or an older announcement names the
  same target (`LostConfirmation`, `LostConfirmationBlocks`). A killed process has no such gap (`NeverMistaken`).
* A process that lives on after one of the four writes at the end of its cycle failed keeps its old state, and
  takes its own resize for a change from outside exactly when that state accounts for neither the new size
  nor for a container without a recorded one, unless a new approval clears it (`LostSave`, `LostSaveBlocks`).
  A restart at that point would not, and until then no run makes the mistake (`NeverMistakenAlive`).
* A change of a limit is dated if and only if its cycle completes with the change confirmed (`DatedIff`). The
  1800 s pause holds after every dated change, and the next cycle after a kill can shrink the same container
  again (`CycleShrinksAreApart`, `KilledCycleShrinksAgain`); each such shrink costs a quarter at most
  (`CyclesShrinkSlowly`).
* `set_memory` does not check whether what it stores can be read again. A successful edit leaves the policy
  readable if and only if it asks for automatic memory, names a reserved database or finds fewer than a thousand,
  and the approvals readable if and only if they still fit 65536 bytes (`EditLoadsIff`). After any other edit no
  cycle and no edit does anything until a file is repaired by hand (`UnreadableStays`). The approvals have
  room for 668 databases at most and no edit removes one, so 637 accepted edits to automatic memory lead there from
  an empty system (`ApprovalsLockOut`). The policy gets there only where it was written by hand or edits were
  killed (`OneReservationTooMany`, `OnlyApprovalsLockOut`).
* A disk scan that meets a limit on waiting paths or remembered inodes does not stop: the error is caught as an
  `OSError`, so the listing is cut short, the category fails and the walk goes on. A tree that can be read
  completely is then reported incomplete (`Scan`, `ReadableIsReportedIncomplete`).
* An unverifiable admission file gives way to one attempt only: a release in the name of nobody, the empty
  string (`UnverifiableYieldsIff`).
* Quiescence rests on admission being paused throughout (`QuietWhilePaused`): if the lease expires after a table
  was looked at, a claim can run while the guard is inside (`ExpiryLetsClaimsIn`).
* A rollback of the fleet reaches every activated server unless it is interrupted, and then servers can
  stay on the new version (`RollbackIsExact`, `InterruptionStrands`, `StrandedRun`).
* An installation of the rehearsal engine whose second `usermod` fails leaves the first file extended, and
  the next one then gives the account different ranges in the two files (`HalfInstalled`).
* Installing the rehearsal engine again is refused when no further block of IDs is free, although it needs
  none (`ReinstallIff`, `ReinstallCanBeRefused`).
* Connecting a server can leave a key file that is larger than the 65536 bytes it reads, and every later
  connection is then refused (`LastConnectionWins`, `ConnectionCanBeTheLast`).

## Model

| member | source | states |
|---|---|---|
| MemoryPolicy.DecisionIff | packages/pockethost/scripts/platform_memory_allocator.py:236-258 | growth is asked for if and only if the limit is below the floor, at least 70 percent of it are in use, or the container ran into it; a shrink if and only if none of these holds, less than 35 percent were in use for 1800 s and 1800 s passed since the last change; both only to a size within the bounds, 64 MiB away and 128 MiB above the memory charged now; and what is answered otherwise |
| MemoryPolicy.ChangeIsSafe | packages/pockethost/scripts/platform_memory_allocator.py:250-258 | every change asked for is at least 64 MiB, lies within the bounds, and leaves 128 MiB above the memory charged now |
| MemoryPolicy.ChangeIsLeast | packages/pockethost/scripts/platform_memory_allocator.py:240-250 | a change goes to the least multiple of 64 MiB that covers the floor, live memory, the working set, the old limit and a surge as far as each applies, cut off only by the bounds |
| MemoryPolicy.GrowLowersIff | packages/pockethost/scripts/platform_memory_allocator.py:243-258 | a growth decision lowers the limit if and only if the limit is above both floor and ceiling |
| MemoryPolicy.GrowCanLower | packages/pockethost/scripts/platform_memory_allocator.py:243-250 | a concrete load under which a growth decision halves the limit |
| MemoryPolicy.ShrinkKeepsIff | packages/pockethost/scripts/platform_memory_allocator.py:247-252 | a shrink needs 1800 s of calm and 1800 s without a change, and keeps three quarters of the limit if and only if the bounds leave that room |
| MemoryPolicy.AtMostOneUpwardChange | packages/pockethost/scripts/platform_memory_allocator.py:236-258 | under constant load, with updates granted or refused in any pattern, a run raises the limit at most once, by at least 64 MiB unless it had none, and before it changes the limit in any other way |
| MemoryPolicy.FewChanges | packages/pockethost/scripts/platform_memory_allocator.py:236-258 | under constant load the number of changes is bounded by the bounds divided by 64 MiB, however long the run is |
| MemoryPolicy.SettlesForGood | packages/pockethost/scripts/platform_memory_allocator.py:236-258 | under constant load a run that asked for nothing across 1800 s never asks for anything again |
| MemoryPolicy.FixpointIsReached | packages/pockethost/scripts/platform_memory_allocator.py:236-258 | under constant load, with everything granted and ticks at most g seconds apart, nothing is asked for any more after (1800 + 2g) seconds for each change there is room for and two more: the run does reach its fixpoint |
| MemoryPolicy.ShrinksAreApart | packages/pockethost/scripts/platform_memory_allocator.py:247-255 | under any load a shrink is at least 1800 s after any earlier change, and keeps three quarters of the limit and 128 MiB above live memory |
| MemoryPolicy.ShrinksPayInTime | packages/pockethost/scripts/platform_memory_allocator.py:247-255 | n shrinks take at least 1800 (n - 1) seconds and leave at least (3/4)^n of the limit, growth in between included |
| MemoryPolicy.SlowDecay | packages/pockethost/scripts/platform_memory_allocator.py:236-258 | a run of d seconds under any load leaves at least (3/4)^(floor(d / 1800) + 1) of its first limit while the limit is at or below its ceiling |
| Reservations.PolicyRoundTrip | packages/pockethost/scripts/database_memory_reservations.py:28-37 | an edited policy that is stored reads back unchanged if and only if it has at most a thousand databases |
| Reservations.LoadsIff | packages/pockethost/scripts/database_memory_reservations.py:28-37 | a policy can be read back if and only if it has at most a thousand well-named databases with 512 MiB to 512 GiB each in whole MiB |
| Reservations.LoadsAfterEdit | packages/pockethost/scripts/database_memory_reservations.py:28-44 | setting one database keeps a policy readable if and only if it is there already or there are fewer than a thousand; removing one always does |
| Reservations.UnconsumedBounds | packages/pockethost/scripts/database_memory_reservations.py:51-52 | the unused part lies between zero and all reservations |
| Reservations.UnconsumedAntitone | packages/pockethost/scripts/database_memory_reservations.py:51-52 | more use never leaves more to hold back |
| Reservations.UnconsumedEdit | packages/pockethost/scripts/database_memory_reservations.py:51-52 | one edit moves the unused part by exactly what that database is short of |
| Documents.FileSizeIsText | packages/pockethost/scripts/platform_memory_allocator.py:52-60 | the length of a stored document is the computed one, in whatever order its rows are written |
| Documents.ReservationsFit | packages/pockethost/scripts/database_memory_reservations.py:16-37 | the limit on the length never refuses a policy that the limit on the rows lets through |
| Documents.ApprovalsAreFew | packages/pockethost/scripts/database_memory_management.py:23-38 | approvals that can be read name at most 668 databases |
| Documents.LoadsAfterApproval | packages/pockethost/scripts/database_memory_management.py:23-38 | one more approval keeps them readable if and only if the file still has at most 65536 bytes |
| Documents.LoadsManagementIff | packages/pockethost/scripts/database_memory_management.py:23-38 | approvals are accepted if and only if there are at most a thousand, each for a well-named database with 512 MiB to 512 GiB and a revision of 32 hexadecimal digits, and their file has at most 65536 bytes |
| Documents.ApprovalsLoad | packages/pockethost/scripts/database_memory_management.py:23-38 | approvals are accepted exactly when they have at most a thousand valid rows and fit the limit |
| ReservedHeadroom.UsedIff | packages/pockethost/scripts/database_memory_reservations.py:55-71 | a summary is used if and only if version, policy, age and range are right; otherwise the whole commitment is held back |
| ReservedHeadroom.HeadroomIsCurrent | packages/pockethost/scripts/database_memory_reservations.py:55-71 | over every interleaving of edits, publications and losses the headroom lies within the commitment, and is either all of it or what the current policy leaves unused by a measurement made under it at most 30 s ago |
| ReservedHeadroom.PublishedIsUsed | packages/pockethost/scripts/platform_memory_allocator.py:439-441 | a summary just published under the current policy is used as it is |
| ReservedHeadroom.EditHoldsEverything | packages/pockethost/scripts/database_memory_reservations.py:63-71 | an edit to a new policy holds back all of it until a measurement is made under it |
| Allocator.UpdateBody | packages/pockethost/scripts/platform_memory_allocator.py:117-124 | an update keeps unlimited swap unlimited and limited swap beyond memory the same size |
| AllocatorRules.ResizedIff | packages/pockethost/scripts/platform_memory_allocator.py:317-378 | a container is resized if and only if it can be read, nobody else changed its limit, it is no database that is reserved, fixed by approval, limited without approval or in backup, the policy asks for a change, an increase fits the budget, the headroom and the project while the host is not short of memory, and the second look finds the same process, the same settings and 128 MiB to spare |
| AllocatorRules.RefusedBecause | packages/pockethost/scripts/platform_memory_allocator.py:324-386 | the decision is that of the first of these conditions that fails |
| AllocatorRules.UnreadIsLeft | packages/pockethost/scripts/platform_memory_allocator.py:336-386 | a container that cannot be read is left alone |
| AllocatorRules.CeilingIs | packages/pockethost/scripts/platform_memory_allocator.py:339-350 | the ceiling of a container by its kind, approval, first limit, reservation and share of the host, in bytes |
| AllocatorRules.FloorIs | packages/pockethost/scripts/platform_memory_allocator.py:338-347 | the floor of a container by its kind, its reservation and, for a database that may be resized, its limit, 4 GiB and what was learned |
| AllocatorRules.WantedIs | packages/pockethost/scripts/platform_memory_allocator.py:318-357 | the readings, bounds and times the policy is asked with, by the state file |
| AllocatorRules.MaximumIs | packages/pockethost/scripts/platform_memory_allocator.py:340-341 | the maximum that applies to a container |
| AllocatorRules.NotedIs | packages/pockethost/scripts/platform_memory_allocator.py:318-358 | what is noted about a container before anything is changed |
| AllocatorRules.LearnedIs | packages/pockethost/scripts/platform_memory_allocator.py:388-390 | what a database remembers, exactly |
| AllocatorRules.LoadedGrows | packages/pockethost/scripts/platform_memory_allocator.py:243-381 | one cycle that finds a site at 80 percent of 1 GiB resizes it to 1.5 GiB and does nothing else |
| Allocator.TurnFacts | packages/pockethost/scripts/platform_memory_allocator.py:317-374 | a container is resized only when nothing holds it, its settings and process are the ones inspected and the new size clears its live memory; an increase fits the remaining budget, the headroom of its ancestors and of its project; a database is never lowered nor set below its learned cap |
| Allocator.CeilingIsShared | packages/pockethost/scripts/platform_memory_allocator.py:348-350 | the equal ceilings of one owner's hosting containers together use up the owner's ceiling but for less than 64 MiB each, unless a container began with more |
| Allocator.LimitIsLearned | packages/pockethost/scripts/platform_memory_allocator.py:388-390 | a database that was decided on remembers its limit, its new limit and its earlier cap, as far as its maximum allows; any other keeps what was known |
| Allocator.BudgetIsSpentExactly | packages/pockethost/scripts/platform_memory_allocator.py:362-381 | after any number of containers the confirmed increases and the remaining budget add up to the first budget, and neither is negative |
| Allocator.CycleStaysWithinBudget | packages/pockethost/scripts/platform_memory_allocator.py:278-312 | the confirmed increases of a cycle fit the available memory beyond the reserve and the unused reservations |
| AllocatorRuns.PrefixShape | packages/pockethost/scripts/platform_memory_allocator.py:375-381 | a cycle killed at any write stopped between two containers, or between announcing one target and asking for it |
| AllocatorRuns.KillView | packages/pockethost/scripts/platform_memory_allocator.py:428-435 | a killed cycle leaves each container as it was, announced, or announced and resized, and no learned cap changed |
| AllocatorRuns.FullView | packages/pockethost/scripts/platform_memory_allocator.py:387-388 | a completed cycle leaves exactly the settings and entries of its inventory, and touches no other container |
| AllocatorRuns.OverrideIff | packages/pockethost/scripts/platform_memory_allocator.py:317-329 | a container counts as changed from outside if and only if its memory is neither applied nor announced, or it was marked, and no new approval clears that |
| AllocatorRuns.OwnThroughKill | packages/pockethost/scripts/platform_memory_allocator.py:375-380 | a kill at any write keeps the memory in force one that the file knows as applied or announced |
| AllocatorRuns.OwnThroughCycle | packages/pockethost/scripts/platform_memory_allocator.py:378-388 | so does a completed cycle whose update is confirmed or refused |
| AllocatorRuns.NeverMistaken | packages/pockethost/scripts/platform_memory_allocator.py:420-442 | over any number of cycles and kills followed by restarts no cycle takes a change of the allocator for one from outside |
| AllocatorRuns.LostConfirmation | packages/pockethost/scripts/platform_memory_allocator.py:377-387 | after an update applied but not confirmed in a live process the change counts as own if and only if nothing was recorded as applied or an older announcement names that target |
| AllocatorRuns.ForeignStaysBlocked | packages/pockethost/scripts/platform_memory_allocator.py:319-329 | a memory value that is neither applied nor announced blocks every later update over any run, until a new approval |
| AllocatorLive.LostSaveIff | packages/pockethost/scripts/platform_memory_allocator.py:428-442 | a process that goes on after a failed last write keeps its old state, and loses track of its own change if and only if the cycle resized the container to a size that state does not account for |
| AllocatorLive.LostSave | packages/pockethost/scripts/platform_memory_allocator.py:317-329 | the next cycle of that process takes the container for changed from outside if and only if the resize was lost so and no approval is new to the old state; a process started from the file would not, once the resize was answered |
| AllocatorLive.NeverMistakenAlive | packages/pockethost/scripts/platform_memory_allocator.py:420-442 | over any number of cycles, kills with restarts, and failures of any of the last four writes, no cycle takes a change of the allocator for one from outside before a cycle lost its own resize |
| AllocatorLive.DatabaseNeverLoweredAlive | packages/pockethost/scripts/platform_memory_allocator.py:343-347 | such runs never lower the limit of a database either |
| AllocatorLimits.DatabaseNeverLowered | packages/pockethost/scripts/platform_memory_allocator.py:343-347 | no run of cycles, killed or not, lowers the limit of a database |
| AllocatorLimits.LearnedCapLasts | packages/pockethost/scripts/platform_memory_allocator.py:388-390 | while its configured maximum stays, the learned cap of a database never falls over any run, container recreation included |
| AllocatorLimits.RecreatedGetsLearnedCap | packages/pockethost/scripts/platform_memory_allocator.py:343-347 | a new container of the database is resized to at least the cap learned before the run, as far as its ceiling allows |
| AllocatorLimits.CycleIsTick | packages/pockethost/scripts/platform_memory_allocator.py:357-379 | a completed cycle over a whole inventory refines one step of the policy for each container that is read |
| AllocatorLimits.CyclesFollowPolicy | packages/pockethost/scripts/platform_memory_allocator.py:426-442 | each tick of the policy run is one particular cycle, in order, taken from exactly the track that cycle found, and the cycles between leave the track alone: a run of completed cycles refines a run of the policy |
| AllocatorLimits.MirrorsKeepTime | packages/pockethost/scripts/platform_memory_allocator.py:426-442 | the ticks of that run have the clock of their cycles and their limits below the ceilings the cycles found, so every result about policy runs applies to cycles |
| AllocatorLimits.DatedIff | packages/pockethost/scripts/platform_memory_allocator.py:375-380 | a change of the limit made by a cycle is dated in the file if and only if the cycle completed with the change confirmed; otherwise the older date stays |
| AllocatorLimits.StepPace | packages/pockethost/scripts/platform_memory_allocator.py:247-255 | any cycle, killed or not, leaves three quarters of the limit and lowers it only 1800 s after the date in the file |
| AllocatorLimits.CycleShrinksAreApart | packages/pockethost/scripts/platform_memory_allocator.py:426-442 | a shrink by any cycle, killed or not, comes at least 1800 s after every change that an earlier cycle completed, with any number of kills between |
| AllocatorLimits.CyclesShrinkSlowly | packages/pockethost/scripts/platform_memory_allocator.py:247-255 | cycles over d seconds, any of them killed, leave a container at least (3/4)^(floor(d / 1800) + 1 + k) of its limit, where k counts the cycles that lowered it without dating that |
| AllocatorLimits.CompletedCyclesDate | packages/pockethost/scripts/platform_memory_allocator.py:378-388 | without kills and lost confirmations k is zero |
| AllocatorLimits.KilledCycleDatesNothing | packages/pockethost/scripts/platform_memory_allocator.py:375-380 | a killed cycle never records the time of the change it made |
| AllocatorGaps.KilledCycleShrinksAgain | packages/pockethost/scripts/platform_memory_allocator.py:247-255 | a run of two cycles, the first killed after its update, that shrinks one idle site from 1024 to 768 and five seconds later to 576 MiB, with nothing taken for a change from outside |
| AllocatorGaps.LostConfirmationBlocks | packages/pockethost/scripts/platform_memory_allocator.py:377-387 | a cycle whose update is in force but not confirmed, after which the next cycle takes the allocator's own change for one from outside |
| AllocatorGaps.LostSaveBlocks | packages/pockethost/scripts/platform_memory_allocator.py:428-442 | a confirmed shrink whose cycle saves `state.json` and then fails to write another file, after which the same process takes it for a change from outside and a restarted one would not |
| Docker.Engine.Update | packages/pockethost/scripts/platform_memory_allocator.py:107-114 | a refused request changes nothing; an unconfirmed one may be in force |
| AllocatorDaemon.Committed | packages/pockethost/scripts/platform_memory_allocator.py:304 | the sum does not depend on the order of the databases |
| AllocatorDaemon.HeldForDatabases | packages/pockethost/scripts/platform_memory_allocator.py:306-311 | what is held back is the unused part of the reservations |
| AllocatorDaemon.Daemon.constructor | packages/pockethost/scripts/platform_memory_allocator.py:421-424 | a restart begins from the file alone |
| AllocatorDaemon.Daemon.Decide | packages/pockethost/scripts/platform_memory_allocator.py:317-374 | entry, decision and target of one container, which the lemmas about turns are about |
| AllocatorDaemon.Daemon.Handle | packages/pockethost/scripts/platform_memory_allocator.py:315-391 | one container: its writes in order, and the file and settings they leave |
| AllocatorDaemon.Daemon.Cycle | packages/pockethost/scripts/platform_memory_allocator.py:276-442 | a cycle from any state, whatever the file says, makes exactly the writes of the model in its order, up to the first of the last four that fails, and takes over its new state only after all four; it is refused exactly when the reservations exceed the host, and then changes nothing |
| EditRules.AcceptedIff | packages/pockethost/scripts/platform_operator.py:80-140 | an edit is accepted if and only if name and size are valid, both documents can be read and are the ones it was made from, the database exists and is neither in backup nor migrating, an automatic size is the common maximum, the size and all reservations fit the host, at most one container runs, what is newly held back is free, the new size is 256 MiB above both looks at the container, its process is the same, and the engine confirms |
| EditRules.RefusedEarly | packages/pockethost/scripts/platform_operator.py:81-101 | the refusal is that of the first of these conditions that fails, before any container is looked at |
| EditRules.RefusedLate | packages/pockethost/scripts/platform_operator.py:102-135 | and after that |
| EditRules.SettingsAre | packages/pockethost/scripts/platform_operator.py:112-123 | the size, swap and reservation a container gets, in bytes |
| Operator.RefusedEditChangesNoDocument | packages/pockethost/scripts/platform_operator.py:85-136 | a refused edit leaves both documents as they were, also after an unconfirmed update |
| Operator.SuccessfulEdit | packages/pockethost/scripts/platform_operator.py:94-140 | after a successful edit the reservations fit the host and what is newly held back was available; a running container gets exactly the fixed size, or an automatic one that is at least 4 GiB, its old limit and 1.25 times its memory unless the common maximum is less |
| Operator.SecondEditIsStale | packages/pockethost/scripts/platform_operator.py:86-87 | of two edits made from one revision the second is refused, as outdated or because the first one left a document that cannot be read: no update is lost |
| Operator.KilledEditFits | packages/pockethost/scripts/platform_operator.py:127-139 | an edit killed at any write leaves reservations that fit the host |
| Operator.KilledEditPolicy | packages/pockethost/scripts/platform_operator.py:127-139 | an edit killed at any write leaves the old policy or the one that passed every check |
| Operator.KilledEditManagement | packages/pockethost/scripts/platform_operator.py:127-139 | an edit killed at any write leaves the old approvals or adds its own |
| Operator.EditLoadsIff | packages/pockethost/scripts/platform_operator.py:98-139 | after a successful edit the policy can be read again if and only if the edit asks for automatic memory, names a reserved database, or found fewer than a thousand reservations; the approvals can if and only if the file with the new one has at most 65536 bytes |
| Operator.EditTouchesItsOwn | packages/pockethost/scripts/platform_operator.py:104-131 | an edit resizes no container of another database |
| OperatorConsole.Console.Check | packages/pockethost/scripts/platform_operator.py:81-101 | the first failed check decides the refusal, which `EditRules` states in terms of the request, the documents and the scene |
| OperatorConsole.Console.Survey | packages/pockethost/scripts/platform_operator.py:103-111 | the containers of the edited database and the memory of all |
| OperatorConsole.Console.SetMemory | packages/pockethost/scripts/platform_operator.py:80-140 | answer, documents and settings after an edit are those of the model, for every answer of the engine |
| ControlPlane.CapacityHolds | packages/pockethost/scripts/platform_memory_allocator.py:302-305 | over every interleaving of cycles, edits, kills and outside changes the reservations fit the host, so no cycle is refused for capacity; one that finds a document it cannot read is stopped by that and changes nothing |
| ControlPlane.UnreadableStops | packages/pockethost/scripts/platform_memory_allocator.py:302-303 | with an unreadable policy or unreadable approvals neither a cycle nor an edit changes anything |
| ControlPlane.UnreadableStays | packages/pockethost/scripts/platform_operator.py:86 | over any events both documents and the file of the allocator then stay as they are, until somebody repairs a document by hand |
| ControlPlane.UnreadableHasCause | packages/pockethost/scripts/platform_operator.py:98-139 | only an edit that reserves memory for a database beyond the thousandth, or whose approval no longer fits, makes a readable document unreadable, kills included |
| ControlPlane.OnlyApprovalsLockOut | packages/pockethost/scripts/platform_operator.py:127-139 | where every reserved database has an approval and no edit is killed, the policy stays readable over any events |
| LockOut.OneReservationTooMany | packages/pockethost/scripts/platform_operator.py:98-139 | a policy of a thousand databases written by hand, and one accepted edit after which no cycle and no edit does anything |
| LockOut.FillUp | packages/pockethost/scripts/platform_operator.py:80-140 | n accepted edits to the common automatic maximum lead from an empty system to n approvals, up to the 637th |
| LockOut.ApprovalsGrow | packages/pockethost/scripts/database_memory_management.py:23-33 | n such approvals take 27 + 103 n bytes, and can be read exactly up to the 636th |
| LockOut.ApprovalsLockOut | packages/pockethost/scripts/platform_operator.py:80-140 | after the 637th no cycle and no edit does anything, although the policy is readable |
| ControlPlane.FixedStaysFixed | packages/pockethost/scripts/platform_memory_allocator.py:330-332 | a fixed running database keeps its reservation as its limit through every cycle and every edit of another database |
| ControlPlane.FixedEditPins | packages/pockethost/scripts/platform_operator.py:118-139 | a completed edit to fixed memory starts such a run |
| ControlPlane.EditIsNotForeign | packages/pockethost/scripts/platform_memory_allocator.py:318-334 | the cycle after an edit takes the new size for the operator's own, whatever was recorded |
| DiskScan.OwnerIsDeepest | packages/pockethost/scripts/platform_resource_collector.py:288 | the owner of a path is the deepest configured root at or above it |
| DiskScan.SkipKeeps | packages/pockethost/scripts/platform_resource_collector.py:289-308 | passing over a path keeps the walk consistent: nothing found is forgotten and nothing is charged twice |
| DiskScan.VisitKeeps | packages/pockethost/scripts/platform_resource_collector.py:309-321 | charging a path and pushing those of its entries that were read keeps the walk consistent, also when an error or a limit cut the listing short |
| DiskReport.Settle | packages/pockethost/scripts/platform_resource_collector.py:262-272 | the first usable setting of a path becomes its root; the category of any other fails |
| DiskReport.RootsAre | packages/pockethost/scripts/platform_resource_collector.py:262-272 | a root is a directory that some setting names, and belongs to the first one that does |
| DiskReport.BadSettingsAre | packages/pockethost/scripts/platform_resource_collector.py:262-272 | a category fails for a setting if and only if it names no directory or one that an earlier setting names |
| DiskReport.PushRoots | packages/pockethost/scripts/platform_resource_collector.py:277-282 | one frame for each root, with its own owner and device |
| DiskReport.Look | packages/pockethost/scripts/platform_resource_collector.py:290-308 | a path is taken exactly when it is found, can be charged, and its inode was not met |
| DiskReport.Tally | packages/pockethost/scripts/platform_resource_collector.py:309-313 | the totals stay 512 bytes for each block of the paths charged so far |
| DiskReport.PushEntries | packages/pockethost/scripts/platform_resource_collector.py:315-321 | entries are pushed one by one until one finds a limit on waiting paths or remembered inodes exceeded; those pushed stay |
| DiskReport.CutShortIff | packages/pockethost/scripts/platform_resource_collector.py:316-319 | a listing is cut short exactly after the first entry that finds more than 100000 paths waiting, or more than 500000 directories or linked files remembered |
| DiskReport.Enter | packages/pockethost/scripts/platform_resource_collector.py:299-321 | a directory whose listing was cut short by an error or a limit fails its category, and the walk goes on |
| DiskReport.Next | packages/pockethost/scripts/platform_resource_collector.py:284-321 | one turn of the loop is the turn of the model, keeps the variables those of a consistent walk and makes progress; without an unreadable path and without a limit nothing fails |
| DiskReport.EndChargesOnce | packages/pockethost/scripts/platform_resource_collector.py:283-321 | when the stack is empty every inode found is charged exactly once, unless its category failed |
| DiskReport.EndReadsThrough | packages/pockethost/scripts/platform_resource_collector.py:314-321 | below the roots of a category that did not fail every directory was listed to its end and every entry was read |
| DiskReport.PublishMeans | packages/pockethost/scripts/platform_resource_collector.py:322-328 | failed categories are reported as unknown, with none of their resources |
| DiskReport.Scan | packages/pockethost/scripts/platform_resource_collector.py:247-328 | the scan is that of the model for the order in which it pushed the roots; its report is complete if and only if every setting is usable, everything found can be read, and no limit cut a listing short; each category gets the size of everything charged to it or, after an error or a limit there, nothing |
| DiskReport.SmallIsUnlimited | packages/pockethost/scripts/platform_resource_collector.py:318-319 | a tree with at most 100000 roots and entries and 500000 inodes meets no limit, whatever the order |
| DiskReport.LimitFails | packages/pockethost/scripts/platform_resource_collector.py:318-321 | a listing that a limit cuts short fails the category of its directory |
| DiskLimits.ReadableIsReportedIncomplete | packages/pockethost/scripts/platform_resource_collector.py:314-328 | one directory with more than 100000 readable files: the scan ends within its entry bound and reports the category as unknown |
| DiskLimits.FlatIsMeasured | packages/pockethost/scripts/platform_resource_collector.py:309-328 | the report of a directory of 8 blocks with up to 100000 files of 8 blocks: complete, with 4096 bytes for each, 8192 for one file |
| DiskReport.CategoriesAddUp | packages/pockethost/scripts/platform_resource_collector.py:309-328 | the categories of a complete report add up to 512 bytes for each block of the distinct inodes found |
| DiskReport.CountsAtNearestRoot | packages/pockethost/scripts/platform_resource_collector.py:288-313 | a directory or single-link file counts in the category and resource of the deepest root at or above it, and in no other |
| DiskReport.SizesAreNotNegative | packages/pockethost/scripts/platform_resource_collector.py:309-323 | a reported size is never negative |
| CgroupRoots.NonOverlapping | packages/pockethost/scripts/platform_resource_collector.py:183-195 | items are split into accepted and rejected, the accepted are pairwise incomparable, and every item has an accepted one at or below it |
| CgroupRoots.ChosenIsAntichain | packages/pockethost/scripts/platform_resource_collector.py:189-194 | no accepted path is at or above another |
| CgroupRoots.CoveredBelow | packages/pockethost/scripts/platform_resource_collector.py:187-194 | every path has an accepted path at or below it |
| CgroupRoots.MeasuredOnce | packages/pockethost/scripts/platform_resource_collector.py:183-195 | the sum of hierarchical counters over the accepted paths counts each cgroup once |
| CgroupRoots.AcceptedNeverExceedAncestor | packages/pockethost/scripts/platform_resource_collector.py:183-195 | that sum never exceeds the counter of a common ancestor |
| Sampler.ReadEngines | packages/pockethost/scripts/platform_resource_collector.py:490-501 | an engine that cannot be read is reported, and fails databases if it is the rootful one, hosting and builds if it is the rootless one |
| Sampler.PlaceRows | packages/pockethost/scripts/platform_resource_collector.py:507-524 | running containers become groups; an unknown or lost one fails its category |
| Sampler.PlaceServices | packages/pockethost/scripts/platform_resource_collector.py:525-537 | existing services become groups; a missing one fails its category |
| Sampler.DropRejected | packages/pockethost/scripts/platform_resource_collector.py:538-543 | exactly the categories of rejected groups fail |
| Sampler.Measure | packages/pockethost/scripts/platform_resource_collector.py:544-562 | a category that has not failed holds the exact sum of its groups; a group that cannot be read fails its category |
| Sampler.Summed | packages/pockethost/scripts/platform_resource_collector.py:566-568 | a category is unknown exactly when it failed, and otherwise the sum of its resources |
| Sampler.Residual | packages/pockethost/scripts/platform_resource_collector.py:578-596 | the residual is known exactly when all categories are and fit the host, and then all six add up to it |
| Sampler.Attribute | packages/pockethost/scripts/platform_resource_collector.py:490-562 | a category fails exactly when something of it is unknown, rejected or unreadable, and every error is reported exactly when met |
| Sampler.CategoryRows | packages/pockethost/scripts/platform_resource_collector.py:564-575 | each category is reported once |
| Sampler.TakeSample | packages/pockethost/scripts/platform_resource_collector.py:469-602 | memory and disk balance against the host; a known memory value is the sum of all accepted running groups of the category; an unknown one has a cause: without other trouble databases are unknown exactly while the rootful engine does not answer, hosting and builds exactly while the rootless one does not, and no other category |
| Sampler.TroubleIff | packages/pockethost/scripts/platform_resource_collector.py:490-562 | a category is in trouble if and only if its engine does not answer, or something of it is not known, accepted and readable |
| Sampler.GroupsAre | packages/pockethost/scripts/platform_resource_collector.py:507-537 | what is measured is the cgroup of every running container that an engine listed, and of every service |
| Sampler.SampleOneSite | packages/pockethost/scripts/platform_resource_collector.py:490-602 | with the engine of the databases down, a site of 100 MiB is reported with its bytes and the databases as unknown |
| Sampler.CategoriesFitTheirAncestor | packages/pockethost/scripts/platform_resource_collector.py:538-586 | with truthful counters the categories together never exceed what the common ancestor uses |
| CollectorRound.DiskSharesAreSizes | packages/pockethost/scripts/platform_resource_collector.py:587-598 | with the report of a scan no disk category is negative, and the residual, known for a complete report that fits, is the usage of the host less 512 bytes for each block of the distinct inodes |
| CollectorRound.ScanAndSample | packages/pockethost/scripts/platform_resource_collector.py:575-598 | one scan and one sample: both metrics balance and no known category is negative |
| Maintenance.AdmissionFile.TryAcquire | packages/pockethost/scripts/platform_maintenance.py:33-47 | answer and file after an attempt to pause, for every file found |
| Maintenance.AdmissionFile.TryRelease | packages/pockethost/scripts/platform_maintenance.py:50-56 | answer and file after an attempt to end a pause |
| Maintenance.PausedIff | packages/pockethost/scripts/platform_maintenance.py:59-83 | admission is paused if and only if the file cannot be believed, or holds a believed lease that has not expired |
| Maintenance.AcquiredIff | packages/pockethost/scripts/platform_maintenance.py:33-47 | a pause is given if and only if the name is proper, the time 1 to 1800 s, and the file absent, expired or of the same owner |
| Maintenance.ReleasedIff | packages/pockethost/scripts/platform_maintenance.py:50-56 | a pause ends if and only if the name is that of the believed lease, or of nobody for a file that cannot be believed |
| Maintenance.WithheldIff | packages/pockethost/scripts/platform_maintenance.py:86-91 | the claims that are withheld, by path and scope |
| Maintenance.OthersCannotTouchALease | packages/pockethost/scripts/platform_maintenance.py:33-56 | over any attempts of other owners an unexpired lease stays byte for byte, and each attempt is refused |
| Maintenance.OwnerCanExtendAndEnd | packages/pockethost/scripts/platform_maintenance.py:33-56 | the holder can always extend and end its lease |
| Maintenance.LeasesAreBounded | packages/pockethost/scripts/platform_maintenance.py:59-66 | every lease written by any run is valid for later readers and pauses for at most 1800 s |
| Maintenance.UnverifiableStays | packages/pockethost/scripts/platform_maintenance.py:69-83 | an unverifiable file pauses admission, and no named owner can take it over or release it |
| Maintenance.UnverifiableYieldsIff | packages/pockethost/scripts/platform_maintenance.py:50-55 | an unverifiable lease gives way to an attempt if and only if that is a release in the name of nobody |
| Maintenance.HeldLeaseWithholdsClaims | packages/pockethost/scripts/platform_maintenance.py:86-91 | while a lease is held exactly the listed claims get nothing, whatever others try |
| ReleaseGuard.WorkerGuard.Quiescent | packages/pockethost/scripts/platform_release_guard.py:89-106 | signals, body runs and outcome for every sequence of looks, failures and retries |
| ReleaseGuard.EveryStopIsResumed | packages/pockethost/scripts/platform_release_guard.py:94-105 | in every run each SIGSTOP is followed by exactly one SIGCONT attempt to the same process before anything but the body, and no other process is resumed |
| ReleaseGuard.BodyRunsOnceAfterRecheck | packages/pockethost/scripts/platform_release_guard.py:99-102 | the body runs at most once, directly after a stop, a passed barrier and an empty second look |
| ReleaseGuard.ReleasedMeansBodyRan | packages/pockethost/scripts/platform_release_guard.py:101-105 | the caller is released only after the body ran and resuming was attempted |
| Quiescence.ClaimerStepIff | packages/pockethost/scripts/platform_release_guard.py:19-32 | the steps of a claimer, if and only if: the lock where it is free, admission unless paused, one of nine tables, one of four marker files, and an end or a refusal at any point |
| Quiescence.GuardStepIff | packages/pockethost/scripts/platform_release_guard.py:35-65 | the steps of the guard, if and only if: the barrier where the lock is free, the thirteen places in order while nothing is found, then inside |
| Quiescence.FoundMeansAway | packages/pockethost/scripts/platform_release_guard.py:92-99 | a look that finds something can only end the attempt |
| Quiescence.OtherStepsIff | packages/pockethost/scripts/platform_maintenance.py:33-56 | time moves forward alone, and operators change the file alone |
| Quiescence.LockOkStays | packages/pockethost/scripts/platform_release_guard.py:19-32 | every step keeps the writer lock with the one claimer between taking it and committing |
| Quiescence.BehindStays | packages/pockethost/scripts/platform_release_guard.py:35-65 | while admission is paused every step keeps the places looked at empty and nobody admitted |
| Quiescence.QuietWhilePaused | packages/pockethost/scripts/platform_release_guard.py:89-102 | in every interleaving of any number of claimers, operators, time and the guard: as long as admission was paused at every moment, nothing is running, finishing or admitted while the guard is inside |
| Quiescence.InsideIsQuiet | packages/pockethost/scripts/platform_release_guard.py:89-102 | so the guard is safe inside for as long as the lease, extended or not by its operator, has not expired |
| Quiescence.LeaseKeepsPaused | packages/pockethost/scripts/platform_maintenance.py:33-83 | a lease that its operator holds and extends in time keeps admission paused, whatever other operators do |
| Quiescence.NothingStartsInside | packages/pockethost/scripts/platform_release_guard.py:99-102 | while the guard is inside and admission is paused no operation is admitted or becomes running |
| Quiescence.ExpiryLetsClaimsIn | packages/pockethost/scripts/platform_release_guard.py:89-102 | a run in which the lease expires midway and an operation runs while the guard is inside |
| GuardedRelease.DeedsShowTrace | packages/pockethost/scripts/platform_release_guard.py:89-106 | the steps of the guard that a loop over any turns takes show exactly the signals and body runs of that loop |
| GuardedRelease.BodyRunsQuiet | packages/pockethost/scripts/platform_release_guard.py:89-106 | in any interleaving that carries out the loop, from the start of the body to the attempt to resume nothing is running, finishing or admitted while admission stays paused, and behind the barrier every place had been found empty |
| GuardedRelease.BodyUnderLease | packages/pockethost/scripts/platform_release_guard.py:89-106 | a lease held and extended in time by its operator is enough for that |
| GuardedRelease.IdleTurnIsCarried | packages/pockethost/scripts/platform_release_guard.py:93-105 | a turn that finds nothing running can be carried out from any state without claims |
| Fleet.Publisher.RunStage | packages/pockethost/scripts/platform-fleet.py:72-82 | one phase follows the plan, every call answered as it comes, and stops exactly at its first failure or at an interruption, which may also come between two calls |
| Fleet.Publisher.RunWave | packages/pockethost/scripts/platform-fleet.py:70-80 | one wave follows the plan |
| Fleet.Publisher.RunPlan | packages/pockethost/scripts/platform-fleet.py:69-82 | the forward calls are a prefix of the plan in which only the last may fail; at most one server beyond those called for activation is noted |
| Fleet.Publisher.RollBack | packages/pockethost/scripts/platform-fleet.py:83-92 | the calls of a rollback, what it reports, and that it is interrupted exactly when an interruption comes, for every pattern of failures |
| Fleet.Publisher.Publish | packages/pockethost/scripts/platform-fleet.py:65-93 | waves that do not hold every active server once are refused before any call; any other run is a publication, which ends forwards exactly where a call fails or an interruption comes, and succeeds exactly when neither happens |
| Fleet.WavesAcceptedIff | packages/pockethost/scripts/platform-fleet.py:49-54 | waves are accepted if and only if none is empty, none names a server twice, no two share one, and together they name the three active servers |
| Fleet.EarlierWavesFirst | packages/pockethost/scripts/platform-fleet.py:70-80 | no call, not even of a rollback, reaches a server outside the first waves before every server of those waves was verified |
| Fleet.LaterWaveIsApart | packages/pockethost/scripts/platform-fleet.py:49-54 | accepted waves have no server in two waves |
| Fleet.PhasesInOrder | packages/pockethost/scripts/platform-fleet.py:70-80 | a forward call on a server comes after every earlier phase has succeeded on every server of its wave |
| Fleet.CommitsLast | packages/pockethost/scripts/platform-fleet.py:81-82 | no commit comes before all servers were verified |
| Fleet.ActivatedInOrder | packages/pockethost/scripts/platform-fleet.py:76-78 | servers are activated in wave order, each at most once |
| Fleet.RollbackIsExact | packages/pockethost/scripts/platform-fleet.py:83-92 | exactly the servers whose activation was attempted, and at most the one that was next, are rolled back, once each, in reverse order; only an interruption cuts that short |
| Fleet.PublishedEverywhere | packages/pockethost/scripts/platform-fleet.py:70-82 | a successful publication leaves every active server on the new version, verified and committed |
| Fleet.AllOrNothing | packages/pockethost/scripts/platform-fleet.py:83-92 | a failed publication leaves every active server on its previous version if and only if every attempted activation was undone; unless the rollback was interrupted its report says which |
| Fleet.RunIsDetermined | packages/pockethost/scripts/platform-fleet.py:65-93 | what the calls answer and when interruptions come decides calls, servers touched and outcome of a publication |
| Fleet.InterruptionStrands | packages/pockethost/scripts/platform-fleet.py:83-92 | a publication whose rollback is interrupted leaves an activated server on the new version |
| Fleet.StrandedRun | packages/pockethost/scripts/platform-fleet.py:83-92 | the publisher makes exactly that run when the second activation raises and an interruption comes in the first rollback |
| Fleet.NoticedRun | packages/pockethost/scripts/platform-fleet.py:76-92 | interrupted between noting a server and activating it, the publisher rolls that server back |
| Fleet.HastyRun | packages/pockethost/scripts/platform-fleet.py:65-92 | interrupted before its first call, it calls nothing |
| SubordinateIds.Subids | packages/pockethost/scripts/install-project-recovery-engine.py:65-76 | the rows, or the first fault, of a file |
| SubordinateIds.NeighboursAreEnough | packages/pockethost/scripts/install-project-recovery-engine.py:74-75 | for rows in order, comparing neighbours decides whether all are pairwise disjoint |
| SubordinateIds.AcceptedIff | packages/pockethost/scripts/install-project-recovery-engine.py:65-76 | a file is accepted if and only if each line is blank, a comment or a safe range, and no ID is given out twice |
| SubordinateIds.LineIff | packages/pockethost/scripts/install-project-recovery-engine.py:67-72 | a line is skipped if and only if it is blank or a comment, and read as a row if and only if it is its name and two decimal numbers with colons between |
| SubordinateIds.SoundLineIff | packages/pockethost/scripts/install-project-recovery-engine.py:68-73 | a line is accepted if and only if it is skipped or grants at least one ID from 65536 on and none from 2^32 on |
| SubordinateIds.FirstFault | packages/pockethost/scripts/install-project-recovery-engine.py:67-73 | the first line that is not accepted decides the fault |
| SubordinateIds.NextRangeIsLowest | packages/pockethost/scripts/install-project-recovery-engine.py:79-83 | the lowest aligned block above everything in both files is chosen, and none exactly when there is none below 2^32 |
| SubordinateIds.WrittenReadsBack | packages/pockethost/scripts/install-project-recovery-engine.py:67-73 | a granted line reads back as the row it grants |
| SubordinateIds.IdFiles.Install | packages/pockethost/scripts/install-project-recovery-engine.py:155-161 | both files and the answer after an installation, whichever command fails; the final check never fails, and only a failed command can leave one file changed |
| SubordinateIds.AttemptsKeepFiles | packages/pockethost/scripts/install-project-recovery-engine.py:155-161 | however an installation ends, both files keep their lines and stay accepted |
| SubordinateIds.TriedIff | packages/pockethost/scripts/install-project-recovery-engine.py:158-160 | a command fails exactly where a file lacks a range and the command for it does not work, and what is then left |
| SubordinateIds.UnsupportedIff | packages/pockethost/scripts/install-project-recovery-engine.py:157 | an account with two ranges in one file, or a range below 65536 IDs, is refused |
| SubordinateIds.HalfInstalled | packages/pockethost/scripts/install-project-recovery-engine.py:156-160 | after a failed second command the next installation gives the next block in the second file, so that the ranges differ, and is refused if and only if that block does not fit |
| SubordinateIds.InstallationFits | packages/pockethost/scripts/install-project-recovery-engine.py:155-161 | both files keep their lines, stay accepted, and give the account exactly one usable range |
| SubordinateIds.ReinstallIff | packages/pockethost/scripts/install-project-recovery-engine.py:156-160 | a second installation changes nothing, and succeeds if and only if a further block is free |
| SubordinateIds.ReinstallCanBeRefused | packages/pockethost/scripts/install-project-recovery-engine.py:156-160 | two files that are complete and whose reinstallation is refused |
| SubordinateIds.RoundsGrantConsecutively | packages/pockethost/scripts/install-project-recovery-engine.py:79-83 | n rounds for new accounts succeed if and only if n blocks fit below 2^32, grant the same consecutive aligned blocks in both files, and keep both accepted |
| ManagedKeys.AcceptedIff | packages/pockethost/scripts/install-platform-fleet-reader.py:187-192 | a key file is accepted if and only if it has no marker, or has one block in text without markers |
| ManagedKeys.RewrittenParts | packages/pockethost/scripts/install-platform-fleet-reader.py:181-194 | a rewritten file is accepted and holds one block, the new one |
| ManagedKeys.LastRewriteWins | packages/pockethost/scripts/install-platform-fleet-reader.py:187-194 | rewriting a rewritten file gives byte for byte what rewriting the first file gives; with the same lines this is idempotence |
| ManagedKeys.RewriteKeepsTheRest | packages/pockethost/scripts/install-platform-fleet-reader.py:189-194 | the text around the block is kept in order, but for white space trimmed at the block and at the end of the file |
| ManagedKeys.FirstRewriteKeepsAll | packages/pockethost/scripts/install-platform-fleet-reader.py:194 | a file without a block keeps all its text but the white space at its end |
| FleetReader.Reader.Connect | packages/pockethost/scripts/install-platform-fleet-reader.py:165-197 | the three files after a connection; a refusal, for the name, the identity in the manifest, the peers, the keys, the size of the key file or its block, changes none of them |
| FleetReader.ConnectedIff | packages/pockethost/scripts/install-platform-fleet-reader.py:165-188 | a connection is made if and only if the name is known and that of this server, there are at most two peers, all sound and different, and the key file has at most 65536 bytes and no or one well-formed block |
| FleetReader.RefusedBecause | packages/pockethost/scripts/install-platform-fleet-reader.py:165-188 | otherwise the first of these decides |
| FleetReader.FirstFaultyPeer | packages/pockethost/scripts/install-platform-fleet-reader.py:173-177 | and of the peers the first faulty one |
| FleetReader.KeyIff | packages/pockethost/scripts/install-platform-fleet-reader.py:41-50 | a key is accepted if and only if its text is the key type, the key and perhaps a comment with white space between, in one line of at most 300 characters, and the key is base64 for an Ed25519 key; type and key are kept |
| FleetReader.SizeIsUtf8 | packages/pockethost/scripts/install-platform-fleet-reader.py:62-70 | the size of a file is that of its text in UTF-8 |
| FleetReader.EntryOf | packages/pockethost/scripts/install-platform-fleet-reader.py:178-195 | the entry of each peer in both files: its own address, its key, and the one command it may run |
| FleetReader.CollectedIff | packages/pockethost/scripts/install-platform-fleet-reader.py:170-177 | peer material is accepted if and only if every item is sound and no peer is given twice, and exactly it is collected |
| FleetReader.KeysArePlain | packages/pockethost/scripts/install-platform-fleet-reader.py:41-49 | an accepted key cannot imitate a marker |
| FleetReader.BodyIsQuiet | packages/pockethost/scripts/install-platform-fleet-reader.py:181-184 | no managed line can imitate a marker |
| FleetReader.ConnectionAdmits | packages/pockethost/scripts/install-platform-fleet-reader.py:178-197 | after a connection the block lets in exactly the peers given, each bound to its address |
| FleetReader.ConnectionTrusts | packages/pockethost/scripts/install-platform-fleet-reader.py:195 | the known hosts after a connection are exactly the peers given, each with its address and the host key given for it |
| FleetReader.LastConnectionWins | packages/pockethost/scripts/install-platform-fleet-reader.py:165-197 | after a connection that leaves a key file of readable size a second one leaves the files it would leave without the first, and the same material changes no byte; after any other every connection is refused |
| FleetReader.ConnectionCanBeTheLast | packages/pockethost/scripts/install-platform-fleet-reader.py:186-194 | a key file of the largest size that is read becomes too large by the first connection |

## Left out

- AllocatorDaemon.Daemon.Handle: takes the announcement of a target as written; where that write fails, the program leaves the container alone in this cycle.
- Allocator.BudgetIsSpentExactly: covers confirmed updates; one that is applied but not confirmed does not spend the budget of the program either, so it is not counted.
- AllocatorLimits.CyclesShrinkSlowly: covers cycles that find the container at or below its ceiling, since `GrowLowersIff` shows the other case to fail, and completed cycles that find it in the inventory, since one that does not drops its entry with the date; a process that goes on with an older state is in `AllocatorLive` only.
- DiskReport.Scan: does not model the clock deadline, which ends a scan without a result as the entry bound does; the order of directory entries and of roots is arbitrary.
- Quiescence.InsideIsQuiet: takes the order of a claimer (lock, gate, commit) from the documentation of the barrier, an operation as moving from its table to its marker file, and leaves out the five-minute limit on notification deliveries and the 0.2 s pause.
- Docker.Engine.Update: takes the engine's answer as one of three, since warnings, the memory read back and the running state only decide between confirmed and not; memory read back that is neither old nor new is not modelled.
- Fleet.AllOrNothing: takes a phase that returns as having done its work; what an installer phase does on a server is not part of this model.
- SubordinateIds.Subids: takes a file as its lines, and decimal digits as the ASCII ones; `usermod` is taken to append a line, or to fail without effect.
- FleetReader.Reader.Connect: takes base64 decoding and the key header as a predicate of the text, and leaves out the configuration file's JSON form and writes that fail.
- Documents.FileSizeIsText: takes every document in the compact form the programs write, also where it was written by hand.
- Operator.KilledEditPolicy: covers failed writes of an edit as well, since each leaves what a kill at that write leaves; only the answer differs.
- Docker HTTP, SQLite, `/proc` and cgroup parsing, systemd, ssh: parameters that take every value.
- Ownership, mode and symlink checks of files, user switching, the fleet bundle's archive digests: conditions on the environment without state of their own.
- Float rounding of the policy factors, CPU percentages and their uncertainty: exact rationals, and memory and disk only.
- Fields that are only reported (states, limits of resources, time stamps), `unclassified_containers` and `cgroup_discovery_unavailable`, the allocator's dry run.
- `project_allowance` and `ancestor_headroom`: parameters of the budget check, since neither changes within a cycle by its own rule.
- `restart_frozen`, the fleet's status check, and all other installers, readiness checks and dashboards: polling or single-branch checks.
