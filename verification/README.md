# goat-client: a verified model

Dafny models of the parts of goat-client whose correctness is not visible from
one function body, with proofs.  `dafny verify dfyconfig.toml` checks all of it.

- **Profiles and the daemon.**  `ProfileStore` is the multi-profile store: the
  disk is two maps of files and the active marker, every operation is a plan of
  atomic file steps, and the `Store` class executes exactly those plans.
  `ProfileSafety` says what survives every run of operations with stops between
  any two file steps and with failing steps.  `Legs` has the outer tunnel
  manager, a mesh handle, the host-DNS adapter and the forwarder's listener as
  classes.  `DaemonModel` is the daemon as a state machine, one function per
  handler, in which any file write and any leg operation may fail; `Daemon` is
  the object, whose methods change its fields and legs step by step and are
  proved to have exactly the effect, file steps and answer of those functions.
  `DaemonProfiles`, `DaemonLegs` and `DaemonDns` prove what every run keeps,
  `DaemonSync` which calls part memory and disk, `DaemonHistories` what holds
  over stops and restarts, `DaemonOutcomes` what each handler achieves and what
  a restart finds, `DaemonWishes` what becomes of the wish for the mesh, of the
  forwarder's health and of mesh handles let go of; `DaemonRuns` ties the object
  to the runs.  `MeshSupervisor` has the waits of the reconnect loop.
- **Names.**  `SnapshotStore` (stat-keyed cache, serial register, torn writes),
  `ObservedStore` and `ObservedBound` (pruned, capped and suppressed log),
  `Names` (grading, lookup, fallback choice), `Claims` (claim checks and
  search), `Resolver` (the tiered handler and its counters).
- **Codecs and text.**  `Base45`, `Slug`, `Modes`, `ConfigFile` (the printer and
  parser of the config file), `DomainBatches`, `LogWriter`.
- **Buffers.**  `Rings` (one generic ring for the peer-ping samples and the
  received-file records, and the daemon's log tail), `Samplers` (the sampler
  reconciler).
- `Text` and `Results` hold the string operations and the result types shared.

Cryptography, encodings and the platform are parameters: whether bytes verify or
parse is a predicate, whether a file write or a leg operation fails is an input,
and time is an integer.  Handlers and callbacks are atomic steps.

Where the code and its comments or its callers' expectations differ, the code is
modelled and the difference is a theorem:

- A replace whose meta write fails deletes the existing bundle, or leaves the
  new one under the old meta (`ProfileSafety.FailedAddRestores`).
- A failed marker write can leave the daemon on a profile the marker does not
  name: the switch ignores it, and a rename returns before its slug follows.  A
  remove of the active profile whose first unlink fails clears memory only, and
  the next start brings the profile back
  (`DaemonHistories.FailedRemoveComesBack`).  With no profile in memory, an add or
  a rename onto the slug a stale marker names is picked up by the next start
  even when nothing fails.  A re-import, and an add that replaces the active
  profile, part its bundle, override or mode from the stored ones
  (`DaemonSync.HandleIsExact`).
- The switch skips the teardown when no profile was active, so a mesh brought up
  by EnableInnerMesh without a profile can be lost unclosed
  (`DaemonLegs.HandleKeepsLegs` gives the exact condition,
  `DaemonLegs.BareRunLoses` a run).
- Without mesh nameservers the direct config cannot be applied, so a fallen
  forwarder stays fronted (`DaemonDns.FallenForwarderIsUndone`).
- A torn snapshot write forgets the replay bound
  (`SnapshotStore.ReplayBoundIsExact`).
- With 513 names, or after a failed write, the 60-second suppression can be seen
  (`ObservedBound.BoundIsSharp`, `ObservedStore.SuppressionIsExact`).
- The forwarder filters claims by address family only after picking the freshest
  (`Claims.FamilyIsCheckedLate`).
- The batching function does not count empty domains, so given one a batch can
  pass the byte limit (`DomainBatches.AnyDomainsBound`,
  `DomainBatches.EmptyDomainOverflows`); the lists the daemon passes have none
  (`DomainBatches.ConfiguredDomainsExact`).
- A mesh_dns list with an escaped character or an apostrophe at an end does not
  survive a mode switch (`ConfigFile.SetModesKeepLists`).
- The stub's slug differs from the store's on names with a character outside
  ASCII that lowers into an ASCII letter (`Slug.StubAgreement`).
- A snapshot whose TTL overflows a 64-bit duration is refused at some time
  inside it (`Names.TtlIsHonoured`).

## Model

| member | source | states |
|---|---|---|
| ProfileStore.Store.Add | internal/profile/profile.go:340-412 | takes exactly the planned file steps (checks in order, bundle then meta, rollback of a failed meta write) and returns the planned result, whichever steps fail; on success the stored meta has the trimmed name, the mode, this update time, no override, and the creation time of the profile replaced, if any |
| ProfileStore.Store.Remove | internal/profile/profile.go:418-437 | the same for meta, bundle, then clearing the marker |
| ProfileStore.Store.Rename | internal/profile/profile.go:446-499 | the same for a rename in place and for the move: new files, old bundle, old meta, marker; on success the stored meta has the trimmed new name and this update time, and creation time, mode and both override fields of the old one |
| ProfileStore.Store.SetActive | internal/profile/profile.go:504-517 | one marker write, refused for an unknown slug; answers the previous marker |
| ProfileStore.Store.UpdateMode | internal/profile/profile.go:531-544 | one meta write, refused for an invalid mode or unknown slug; only the mode and the update time change |
| ProfileStore.Store.UpdateRosenpass | internal/profile/profile.go:552-563 | one meta write of both override fields; only they and the update time change |
| ProfileStore.Store.MigrateLegacyBundle | internal/profile/migrate.go:36-72 | nothing unless the store is empty and a legacy bundle exists; then add and mark "default" |
| ProfileStore.ReplayAppend | internal/profile/profile.go:637-668 | the disk after two sequences of atomic writes is the second's effect on the first's |
| ProfileSafety.RenameSurvivesStops | internal/profile/profile.go:446-499 | however a rename is stopped and whatever fails, the old or new slug has both files with the exact bundle bytes, no other profile changes, and the marker only moves to a whole profile |
| ProfileSafety.RenameIsOneUpdate | internal/profile/profile.go:446-499 | a finished rename succeeds exactly when it can, and is then one update of each map with the marker following, the meta being the old one with the trimmed new name and the new update time, field by field; a refused one changes nothing |
| ProfileSafety.RenameGaps | internal/profile/profile.go:485-499 | at exactly one stop a meta has no bundle, and at exactly one the marker dangles |
| ProfileSafety.RemoveGaps | internal/profile/profile.go:418-437 | the marker dangles at exactly the stops between deletion and clearing; no meta is ever left without bundle |
| ProfileSafety.FailedAddRestores | internal/profile/profile.go:390-397 | an add whose meta write fails leaves the disk as it was if and only if the bundle write failed too, or the rollback puts back what was there: nothing, or, when it fails as well, the very same bytes |
| ProfileSafety.AddOutcome | internal/profile/profile.go:340-412 | whichever writes fail: an add succeeds exactly when the request passes and both writes go through, and the disk is then, or otherwise, exactly this |
| ProfileSafety.RemoveOutcome | internal/profile/profile.go:418-437 | the same for a remove, with what stays behind when an unlink or the marker write fails |
| ProfileSafety.RenameOutcome | internal/profile/profile.go:446-499 | the same whichever steps fail: only unlinks of old files may fail without failing it; the meta written is given field by field |
| ProfileSafety.AddIsOneUpdate | internal/profile/profile.go:340-412 | an add succeeds exactly when the name and mode are valid, the slug is free or replaced and the bundle is non-empty, parses, is trusted under some root and paired; it is then one update with the meta given field by field; a refused one changes nothing |
| ProfileSafety.RemoveIsOneUpdate | internal/profile/profile.go:418-437 | a finished remove takes exactly that profile and a marker naming it |
| ProfileSafety.AddActiveIsOneUpdate | internal/profile/migrate.go:54-72 | add and mark is one update of maps and marker, or nothing |
| ProfileSafety.MigrationIs | internal/profile/migrate.go:36-72 | a migration does nothing unless the store is empty and there is a legacy bundle that parses; it succeeds exactly when that passes the checks of an add and its three writes go through, and the disk is then the one marked profile "default" |
| ProfileSafety.EveryBundleWasVerified | internal/profile/profile.go:340-397 | in every run with stops, failing steps and changing trust roots, every bundle file holds bytes some earlier add or migration accepted |
| ProfileSafety.LoadedIsVerified | internal/profile/profile.go:293-318 | so Load, which does not verify, only returns accepted bundles |
| ProfileSafety.BundleChangesAreNamed | internal/profile/profile.go:340-499 | no operation, however stopped, changes a bundle it does not name |
| ProfileSafety.EveryMetaIsSound | internal/profile/profile.go:189-207 | in every run at every stop, each profile's slug is the slug of its stored name and its mode is valid |
| ProfileSafety.FinishedRunsAreConsistent | internal/profile/profile.go:340-563 | over runs of finished operations every profile has both files and the marker names one or none |
| DaemonModel.StepsAreTheDiskChange | internal/daemon/daemon.go:871-1929 | whichever file writes fail, every handler's file steps lead from its disk before to its disk after |
| DaemonModel.ShutdownIsFinal | internal/daemon/daemon.go:835-855 | whatever fails, a shutdown leaves no tunnel, mesh or DNS config, and releases the mesh handle it held |
| DaemonProfiles.ReachableHandle | internal/daemon/daemon.go:871-1929 | a handler with any failing writes, stopped anywhere, leaves a disk that a run of store operations can reach |
| DaemonProfiles.HandleKeepsSane | internal/daemon/daemon.go:871-1929 | whatever fails, a slug is held exactly with a bundle, the mode is a known one and the disk one a store run reaches |
| DaemonHistories.BootIsExact | internal/daemon/daemon.go:580-639 | a start adopts the marked profile whenever it loads, with exactly the stored bundle, override and mode; whichever migration writes fail it leaves memory holding exactly the marked profile, except when it cannot write a marker that already names the one it migrates |
| DaemonSync.HandleIsExact | internal/daemon/daemon.go:871-1929 | exactly which calls, with which failing writes, leave memory not holding exactly the marked profile, in either direction; and exactly which part its bundle, override or mode from the stored ones |
| DaemonSync.HandleKeepsBacked | internal/daemon/daemon.go:871-1929 | exactly which calls put a profile in memory that is not the marked one |
| DaemonHistories.HistoryInStep | internal/daemon/daemon.go:580-1929 | over every history of calls, stops, restarts and failing writes, a live process holds exactly the marked profile, and none if none is marked or it does not load, unless its start or a call since separated the two; and the stored bundle, override and mode unless one diverged |
| DaemonHistories.UntornStaysInStep | internal/daemon/daemon.go:871-1929 | in a history without failing writes and without stops inside a call or start, none ever separates memory from the disk, and the marker always is the slug in memory |
| DaemonHistories.FaultFreeSeparation | internal/daemon/daemon.go:1663-1737 | without failing writes exactly an add that does not switch, or a rename, onto the slug a stale marker names separates the two |
| DaemonHistories.RestartFindsProfile | internal/daemon/daemon.go:580-639 | a process that stops between calls, after a history in which neither its start nor a call diverged, is found again by the next start: the same profile with the very bundle and override, and the mode unless one is forced |
| DaemonHistories.FailedRemoveComesBack | internal/daemon/daemon.go:1699-1717 | a remove of the active profile whose first unlink fails empties memory only, and the next start brings the profile back |
| DaemonSync.ImportWorks | internal/daemon/daemon.go:871-961 | from any state that holds the marked profile or none an import succeeds exactly when the bundle passes and the writes it needs go through; then memory, marker and disk name one profile holding the imported bytes; a refused one leaves memory alone; no other profile changes, and one is added only when none was active and no "default" existed |
| DaemonHistories.ImportAlwaysWorks | internal/daemon/daemon.go:871-961 | all of that from every state a history reaches in which no call since the last start has put another profile in memory than the marked one |
| DaemonHistories.HistoryBundlesVerified | internal/daemon/daemon.go:580-1929 | every bundle on the disk after any history, failing writes included, was brought in by one of its happenings and accepted by the trust roots of that moment |
| DaemonLegs.HandleKeepsLegs | internal/daemon/daemon.go:1066-1929 | whatever fails, each leg is up only in a mode that includes it, no held handle is closed, and a handle that was brought up is let go of without being closed exactly when the call switches, with no profile active, from such a handle to a profile without the mesh |
| DaemonLegs.RunLegsFit | internal/daemon/daemon.go:1066-1929 | the same fit of legs and mode over every run from start-up |
| DaemonLegs.RunLosesNoMesh | internal/daemon/daemon.go:1357-1372 | in every run where EnableInnerMesh is only called with a profile active, every mesh handle let go of was closed, or never brought up |
| DaemonLegs.EnabledBareLoses | internal/daemon/daemon.go:1800-1846 | without that proviso two calls let go of a connected, unclosed mesh, from any state with no profile and a fresh mesh |
| DaemonLegs.BareRunLoses | internal/daemon/daemon.go:1800-1846 | a run from start-up that does so: one outer-only profile on the disk, no marker, a start mode with the mesh, the two calls |
| DaemonDns.HandleKeepsDns | internal/daemon/daemon.go:428-540 | every handler and callback keeps the agreement of resolver, recorded DNS config, mode and forwarder |
| DaemonDns.RunDns | internal/daemon/daemon.go:428-540 | in every run, for every config and whatever fails: the resolver is restored while no DNS config is recorded, and whenever no health callback waits a recorded config that the platform can express is in force on its interface with its domains, on the forwarder's address and port while that can front it, and on its own nameservers and port otherwise |
| DaemonDns.FallenForwarderIsUndone | internal/daemon/daemon.go:462-530 | after the forwarder falls and its callback ran, the resolver is back on the mesh nameservers if and only if there are some, on a port and for domains the platform can express; exactly when it stays on the dead forwarder |
| DaemonOutcomes.ConnectWorks | internal/daemon/daemon.go:1438-1495 | Connect succeeds exactly when there is a bundle and every leg of the mode can come up; then those legs are up, and the recorded DNS config has each list of the bundle, or of the config file where the bundle has none, with the file's port exactly when its nameservers are used; in any case the mesh is wanted, and its handle settled as the attempt ends, exactly once the mesh leg is tried |
| DaemonOutcomes.ConnectPerMode | internal/daemon/daemon.go:1438-1495 | a successful connect has the outer leg up except in netbird-only, where it is untouched, and the mesh up except in wg-cp0-only, where that is |
| DaemonOutcomes.ConnectOuterIs | internal/daemon/daemon.go:1448-1464 | the outer leg changes the tunnel and, once that is up, DNS alone; its state and whether a tunnel exists are given for every combination of failing calls |
| DaemonOutcomes.ConnectMeshIs | internal/daemon/daemon.go:1466-1488 | the mesh leg makes the mesh wanted and its handle tried even when the first bring-up fails |
| DaemonOutcomes.DisconnectWorks | internal/daemon/daemon.go:1498-1524 | it fails only on a tunnel that will not go down, which leaves the outer leg in error and the mesh alone; otherwise neither leg is up, whatever the mode; no DNS config is left either way |
| DaemonOutcomes.ConnectThenDisconnect | internal/daemon/daemon.go:1438-1524 | connecting and disconnecting leaves no leg up, the resolver restored and the profile as it was |
| DaemonOutcomes.DisableWorks | internal/daemon/daemon.go:1390-1399 | in any mode: afterwards the mesh is down and not wanted, its handle held and as open as before, nothing else changed, and no run of supervisor ticks brings it up again |
| DaemonOutcomes.EnableWorks | internal/daemon/daemon.go:1357-1372 | refused without effect outside a mesh mode; else up exactly when the attempt succeeds, wanted even when it fails, nothing else changed, and a failed one is retried by the supervisor until one does not fail |
| DaemonOutcomes.SupervisorRecovers | internal/daemon/daemon.go:675-732 | over any run of ticks a wanted mesh in an error is up in the end if and only if the first attempt that does not fail succeeds; one that is cancelled, which the modelled mesh leaves closed, is not followed by another |
| DaemonOutcomes.SwitchWorks | internal/daemon/daemon.go:1800-1877 | a switch succeeds exactly when the profile loads; then memory names it and the marker too unless its write fails, mode, bundle and override are the stored ones, each leg is up exactly when the stored mode includes it and nothing hinders it, and with the outer leg the DNS config recorded is, list by list, the bundle's or else the config file's |
| DaemonOutcomes.ChangeModeWorks | internal/daemon/daemon.go:1066-1170 | the mode is entered in memory, and in the active meta alone unless that write fails; its legs come up exactly when nothing hinders them, DNS is not applied and the wish for the mesh is kept |
| DaemonOutcomes.RemoveWorks | internal/daemon/daemon.go:1699-1717 | a remove succeeds exactly when the profile is there and its steps go through, and then leaves no trace of it; no other profile changes; the active one takes both legs and DNS down whatever fails |
| DaemonOutcomes.ModeSurvivesRestart | internal/daemon/daemon.go:1066-1153 | a mode set while a profile is active is the mode after a restart if its meta write went through; otherwise the mode stored before comes back |
| DaemonOutcomes.ImportSurvivesRestart | internal/daemon/daemon.go:871-961 | a bundle whose import succeeded is the bundle after a restart |
| DaemonWishes.HandleFlags | internal/daemon/daemon.go:871-1929 | after every call, whatever fails: whether the mesh is wanted, the forwarder's health and waiting callbacks, and which mesh handles have been let go of, closed or as they were |
| DaemonWishes.WishWasAsked | internal/daemon/daemon.go:675-732 | in every run the mesh is wanted, and so brought up by the supervisor, only if some Connect or EnableInnerMesh asked for it and no DisableInnerMesh followed |
| DaemonWishes.SetRosenpassWorks | internal/daemon/daemon.go:1181-1233 | the override is in force in memory and, unless the write fails, in the active meta alone; an up mesh of a mesh mode is brought up again and ends as that attempt does; nothing else changes |
| DaemonWishes.ImportKeepsLegs | internal/daemon/daemon.go:871-961 | an import leaves both legs as they are; the next connect uses the imported bundle's config if that is well formed |
| DaemonWishes.ImportedMeta | internal/daemon/daemon.go:871-961 | a re-import keeps the profile's name, mode and creation time and drops its override; a first import is "default" in the current mode |
| DaemonWishes.BootIsIdle | internal/daemon/daemon.go:262-639 | after a start no leg is up or wanted, a mesh handle exists exactly when the start mode has a mesh, DNS is restored, the forwarder is healthy exactly when bound, and the tunnel config is the adopted bundle's |
| Daemon.Daemon.constructor | internal/daemon/daemon.go:262-421 | a fresh daemon: no profile, no outer tunnel, a mesh exactly when the start mode has one |
| Daemon.Daemon.LoadPersistedBundle | internal/daemon/daemon.go:580-639 | marked profile, else migrated legacy bundle, else nothing, with exactly the migration's file steps, whichever fail |
| Daemon.Daemon.ImportBundle | internal/daemon/daemon.go:871-961 | the whole new state, the file steps and the answer of the handler the import theorems are about, whichever writes fail |
| Daemon.Daemon.AddProfile | internal/daemon/daemon.go:1663-1695 | the same for adding, with the switch when asked for |
| Daemon.Daemon.RemoveProfile | internal/daemon/daemon.go:1699-1717 | the same: teardown of both legs first if the active profile goes |
| Daemon.Daemon.RenameProfile | internal/daemon/daemon.go:1720-1737 | the same: the slug in memory follows, but not after an error |
| Daemon.Daemon.SwitchTo | internal/daemon/daemon.go:1800-1877 | the same: load, tear down only if a profile was active, swap in, bring up, marker last and its failure ignored |
| Daemon.Daemon.SetMode | internal/daemon/daemon.go:1066-1170 | the same: leave one mode, enter the other without applying DNS, record the mode, ignoring a failed write |
| Daemon.Daemon.SetRosenpass | internal/daemon/daemon.go:1181-1233 | the same: a mesh that is up is reconnected |
| Daemon.Daemon.Connect | internal/daemon/daemon.go:1438-1495 | the same: outer leg and DNS, then the mesh, stopping at the first failure |
| Daemon.Daemon.Disconnect | internal/daemon/daemon.go:1498-1524 | the same: DNS, outer leg, mesh, stopping at the first failure |
| Daemon.Daemon.EnableInnerMesh | internal/daemon/daemon.go:1357-1372 | the same, refused outside a mesh mode |
| Daemon.Daemon.DisableInnerMesh | internal/daemon/daemon.go:1390-1399 | the same in any mode: the wish is gone, and the very handle held before is down and not closed by this |
| Daemon.Daemon.TearDownMode | internal/daemon/daemon.go:1881-1904 | the legs of that mode only; the handle is disconnected, closed and forgotten |
| Daemon.Daemon.TearDownAll | internal/daemon/daemon.go:1910-1929 | both legs in any mode |
| Daemon.Daemon.Shutdown | internal/daemon/daemon.go:835-855 | both legs down and the outer manager closed |
| Daemon.Daemon.ApplyDns | internal/daemon/daemon.go:428-456 | the config recorded has each list of the bundle, or of the config file where that has none, with the file's port exactly when its nameservers are used; the variant fitting the forwarder is applied |
| Daemon.Daemon.ApplyDnsCurrent | internal/daemon/daemon.go:462-510 | fronted when it can be, else direct |
| Daemon.Daemon.OnForwarderState | internal/daemon/daemon.go:515-530 | re-applies the recorded config for the current health |
| Daemon.Daemon.Serve | internal/daemon/daemon.go:642-663 | any calls one after the other end where the run of the model ends |
| DaemonRuns.Live | internal/daemon/daemon.go:262-1929 | a daemon object started on any reachable disk and driven by any calls ends with fitting legs and fitting DNS whatever failed, and in two-way agreement with the disk unless the start or a call parted the two |
| Daemon.Daemon.RunMeshSupervisor | internal/daemon/daemon.go:675-732 | with any calls served between its wake-ups, the loop leaves the daemon where its ticks do, and each armed wait is the base one, or after a failed reconnect the one for the failures in its streak, where unsettled ticks neither count nor reset |
| MeshSupervisor.FailingRun | internal/daemon/daemon.go:703-727 | while nothing else is called and every reconnect of a wanted mesh fails, it stays in its error and the waits double up to the cap |
| MeshSupervisor.BackoffIsBounded | internal/daemon/daemon.go:719-731 | with the interval within the limit, waits start at the one, double up to the other and never shrink along a streak |
| MeshSupervisor.StreakIsCounted | internal/daemon/daemon.go:703-731 | the streak is the number of failed reconnects since the last wake-up that found the mesh idle or up or recovered it; an unsettled one neither counts nor resets |
| MeshSupervisor.TickIsWhatHappens | internal/daemon/daemon.go:684-715 | a wake-up reconnects exactly a wanted mesh of a mesh mode with a bundle that is in error, that very handle and nothing else; any other changes nothing |
| MeshSupervisor.CalmWaits | internal/daemon/daemon.go:684-731 | a wake-up without failure, and the first failure after one that ends a streak, is followed by the plain interval |
| Legs.TunnelManager.Configure | internal/tunnel/tunnel.go:204-224 | the config is kept if the keys are well formed, and passed on to a tunnel that exists |
| Legs.TunnelManager.Connect | internal/tunnel/tunnel.go:228-257 | the state and answer for every combination of failing platform calls |
| Legs.TunnelManager.Disconnect | internal/tunnel/tunnel.go:260-274 | closed, or in error when the tunnel will not go down |
| Legs.TunnelManager.Close | internal/tunnel/tunnel.go:277-287 | the tunnel is given up even if its close fails |
| Legs.Mesh.Connect | internal/innermesh/fake.go:80-113 | refused once closed; else up, in error, or closed again when cancelled |
| Legs.Mesh.Disconnect | internal/innermesh/fake.go:115-122 | down, handle kept |
| Legs.Mesh.Close | internal/innermesh/fake.go:184-191 | down for good |
| Legs.HostDns.Apply | internal/tunnel/dns/adapter_darwin.go:53-95 | nothing without nameservers, an error for a port the platform cannot express; without domains macOS only drops its keys and Windows does nothing; else the resolver points there |
| Legs.ForwarderListener.Start | internal/names/forwarder.go:78-90 | healthy exactly when bound, without a callback |
| Legs.ForwarderListener.SetHealthy | internal/names/forwarder.go:143-152 | a callback exactly on a change |
| Legs.ForwarderListener.Rebind | internal/names/forwarder.go:112-139 | waits climb the ladder and stay on its last rung; down is reported exactly when the whole ladder failed, up once rebound |
| Legs.ForwarderListener.Abandon | internal/names/forwarder.go:112-139 | the same while nothing rebinds: when the context ends, or the run, inside the ladder or beyond it |
| Legs.ForwarderListener.Supervise | internal/names/forwarder.go:97-140 | over any run of crashes, the last one recovered from or not, the callbacks fired are those of each crash in turn |
| Legs.CallbacksAlternate | internal/names/forwarder.go:97-152 | over any such run the callbacks strictly alternate down, up, ending with down exactly when the ladder ran out on a crash that was not recovered from |
| Legs.CallbacksAreCounted | internal/names/forwarder.go:112-139 | a recovered crash fires its two callbacks exactly when all five rebinds of the ladder failed |
| Legs.WaitsClimb | internal/names/forwarder.go:60-120 | the waits are 1, 2, 5, 15 and then 30 seconds each |
| SnapshotStore.Store.LoadSnapshot | internal/names/store.go:104-144 | the answer of the stat-keyed cache is that of a fresh read, verify and parse, in every state |
| SnapshotStore.Store.PutSnapshot | internal/names/store.go:155-176 | accepts and refuses exactly as a cacheless store would, and leaves the same files, also when a write fails |
| SnapshotStore.Store.OutsideChange | internal/names/store.go:132-144 | the cache stays transparent when another program replaces the files |
| SnapshotStore.MaxRegister | internal/names/store.go:146-176 | after any offers the stored snapshot is the first verified one with the greatest serial |
| SnapshotStore.OrderIsIrrelevant | internal/names/store.go:146-176 | for distinct serials neither order nor repetition of offers matters |
| SnapshotStore.TornWriteFailsClosed | internal/names/store.go:165-176 | after a stop between the two writes the store refuses unless the old artifact is the candidate itself |
| SnapshotStore.TornAfterReadable | internal/names/store.go:165-176 | a store that could be read cannot be read after such a stop |
| SnapshotStore.RefusedUntilAccepted | internal/names/store.go:155-176 | a refusing store keeps refusing until an offer verifies, and then holds it |
| SnapshotStore.TearLosesReplayBound | internal/names/store.go:158-164 | after a torn write to a readable store an older snapshot than the one lost is accepted |
| SnapshotStore.ReplayBoundIsExact | internal/names/store.go:155-176 | from a readable store, whatever writes fail, nothing as old as what could be read is ever accepted if and only if no accepted offer has its artifact write fail |
| SnapshotStore.SerialNeverDecreases | internal/names/store.go:158-164 | while the store stays readable its serial never goes down |
| ObservedStore.Store.RecordObservation | internal/names/store.go:181-216 | new records and memo are those of the log function, whether or not the write goes through |
| ObservedStore.Store.LookupObserved | internal/names/store.go:220-234 | the first unexpired record of the normalized name |
| ObservedStore.ObserveIs | internal/names/store.go:181-216 | a call does nothing when the memo has the same address and is under a minute old; else the memo is renewed and, if the write goes through, the file holds the new record and every other name's under thirty days old, as far as 512 reach, the oldest left out |
| ObservedStore.FindIsFirst | internal/names/store.go:220-234 | none is found exactly when no record of the name is under thirty days old; else the first such |
| ObservedStore.ObserveWellFormed | internal/names/store.go:193-216 | the log always has one record per normalized name, newest first, at most 512 |
| ObservedStore.CapDropsOldest | internal/names/store.go:206-213 | nothing dropped is newer than anything kept |
| ObservedStore.SuppressionIsInvisible | internal/names/store.go:181-234 | with a nondecreasing clock, at most 512 names, and the write behind the name's memo gone through whatever others fail, a lookup finds the last recorded address, dated less than 60 s plus rounding before that call, and finds it throughout the TTL less that minute |
| ObservedStore.SuppressionIsExact | internal/names/store.go:181-234 | in any such run with any writes failing, suppression cannot be seen for a name if and only if its last write has the last call's address and is about a minute older at most, or the name is forgotten altogether |
| ObservedStore.RunIsFaithful | internal/names/store.go:181-216 | in such runs every name's last call agrees with its memo and record |
| ObservedBound.BurstShowsSuppression | internal/names/store.go:181-216 | after 513 names within a second, from the empty log, the first of them seen again cannot be looked up |
| ObservedBound.BoundIsSharp | internal/names/store.go:181-234 | suppression is invisible in every orderly run of at most n names whose writes go through if and only if n is at most 512 |
| ObservedStore.FullLogShowsSuppression | internal/names/store.go:184-191 | in any full log with a single oldest record a new name pushes it out, and the oldest, seen again inside its minute, cannot be looked up |
| ObservedStore.FailedWriteShowsSuppression | internal/names/store.go:184-191 | from the empty log, a call whose write fails and a repeat a second later: the repeat writes nothing and the name cannot be looked up |
| Names.WrapIsFailClosed | internal/names/names.go:115-135 | multiplying a 64-bit TTL into a duration never gains time, and is exact within the range |
| Names.WrapIsCongruent | internal/names/names.go:115-135 | the overflowing TTL product loses multiples of 2^64 only |
| Names.SinceIsClamped | internal/names/names.go:115-135 | an elapsed time is exact within 64 bits and else the nearer end of the range |
| Names.ServedIsInsideTtl | internal/names/names.go:115-135 | a snapshot is not expired only if it is inside its declared TTL, for every 64-bit TTL; exactly then when the TTL does not overflow |
| Names.TtlIsHonoured | internal/names/names.go:115-135 | a snapshot is served throughout its declared TTL, from generation on, if and only if the TTL fits a 64-bit duration |
| Names.FreshForAWeek | internal/names/names.go:115-135 | a served snapshot is fresh for seven days from its generation and aging from then on |
| Names.LookupIsFirst | internal/names/names.go:139-147 | a record is found if and only if one has the lowered name, and then the first |
| Names.NormalizeIsUndotted | internal/names/names.go:139-147 | one trailing dot does not count in a name, and otherwise names compare lowered |
| Names.CanonicalIsFirst | internal/names/names.go:217-240 | the canonical record is the first of the undotted, lowered name in an unexpired snapshot, and there is none exactly when no record has it |
| Names.FallbackChoice | internal/names/names.go:217-260 | for every input: the observation answers, with its age, exactly when there is no canonical record or its address differs and it is newer than the snapshot; else the record; and which refusal is given when |
| Claims.ClaimIsOwnName | internal/names/claims.go:72-159 | a claim is accepted, with this name, address and age, if and only if a current, rooted certificate signed it, the first binding of its name in the verified snapshot is to that certificate's very identity, it is inside its TTL and its address is well formed |
| Claims.BoundIsFirst | internal/names/claims.go:132-144 | the binding search finds an anchor if and only if the first binding of the name has it |
| Claims.UnboundNamesCannotBeClaimed | internal/names/claims.go:121-141 | a name without a binding cannot be claimed by anyone |
| Claims.LookupClaim | internal/names/claims.go:185-206 | the search loop finds the freshest valid claim, the earliest of equally fresh ones |
| Claims.FreshestIsLeast | internal/names/claims.go:185-206 | none exactly when no envelope carries a valid claim for the name; else one that none is fresher than, the earliest of equally fresh ones |
| Claims.FamilyIsCheckedLate | internal/names/forwarder.go:221-247 | picking the freshest and then checking the family is the freshest of that family unless a fresher one of the other exists |
| Resolver.TryUpstreams | internal/names/forwarder.go:287-303 | no answer exactly when every upstream is blank or does not answer; else the answer of the first that is neither |
| Resolver.Forwarder.Handle | internal/names/forwarder.go:178-283 | the reply is the ordered choice over what the handler can see, live being the answer of the first upstream that gives one; exactly one reply is written, the counter grows exactly with a fallback record, and the log learns from a positive live answer only |
| Resolver.TierOrder | internal/names/forwarder.go:178-283 | a live answer that is neither SERVFAIL nor empty is relayed; else a query for no address fails; else claim, then snapshot and log, then SERVFAIL |
| Resolver.Forwarder.RecordLiveAnswers | internal/names/forwarder.go:306-320 | the log after is that of recording each usable address record in order |
| Resolver.Forwarder.AnswerFromClaim | internal/names/forwarder.go:217-241 | the claim branch counts and dates a record before writing it, and nothing for a claim of the wrong family; the counter stays the number of records written |
| Resolver.Forwarder.AnswerFromFallback | internal/names/forwarder.go:242-283 | the last branch counts after the family check only, neither SERVFAIL nor an empty answer; the counter stays the number of records written |
| Resolver.FallbackIsSafe | internal/names/forwarder.go:217-283 | every fallback record has the asked name and family and is really a valid claim, an unexpired snapshot's record or a current observation; never beside a definitive live answer |
| Resolver.FallbackIsComplete | internal/names/forwarder.go:178-283 | an address query gets no address only if each valid claim of the family is no fresher than one of the other; it is then refused exactly when the record or observation in charge has no well-formed address and answered without data exactly when that is of the other family; a claim answer is a freshest one |
| Resolver.LearnAdds | internal/names/forwarder.go:306-320 | every new record in the log is taught by a record of that live answer |
| Resolver.LearnCovers | internal/names/forwarder.go:306-320 | no answer is passed over: every name answered has its last address as memo, noted within the minute |
| Resolver.LessonsGrow | internal/names/forwarder.go:178-320 | over every run each observed record came from a positive live answer |
| Base45.DecodeTable | internal/qrbundle/base45.go:15-22 | the table inverts the alphabet and is -1 elsewhere |
| Base45.ValueCounts | internal/qrbundle/base45.go:15-22 | a character has a value exactly when it is in the alphabet, and then its place there |
| Base45.EncodeString | internal/qrbundle/base45.go:31-56 | the loop computes the encoding of section 4 of RFC 9285 |
| Base45.EncodesGroups | internal/qrbundle/base45.go:31-56 | section 4 of RFC 9285: each two bytes, read big-endian, are three characters whose places in the alphabet are its base-45 digits, least significant first |
| Base45.EncodesLast | internal/qrbundle/base45.go:31-56 | a last lone byte is two such characters |
| Base45.DecodeString | internal/qrbundle/base45.go:61-91 | the loop computes the decoding with each error and its offset |
| Base45.EncodeLength | internal/qrbundle/base45.go:24-29 | the length formula is the length |
| Base45.DecodeEncode | internal/qrbundle/base45.go:31-91 | decoding undoes encoding for all bytes |
| Base45.DecodeAccepts | internal/qrbundle/base45.go:61-91 | a string is accepted if and only if it is an encoding, and then of what it decodes to |
| Base45.ErrorsAreFirst | internal/qrbundle/base45.go:61-91 | an error names the offset of the first group at fault: every character before it is in the alphabet, and the group has one that is not or is out of range |
| Base45.CeilingIsSharp | internal/qrbundle/qrbundle.go:21-42 | an encoding fits 4296 characters exactly when the input is at most 2864 bytes |
| Base45.EncodeBundle | internal/qrbundle/qrbundle.go:44-52 | succeeds exactly for non-empty bundles whose text fits one code, with text that decodes back |
| Base45.DecodeBundle | internal/qrbundle/qrbundle.go:60-69 | succeeds exactly on non-empty encodings and inverts them |
| Slug.SlugifyShape | internal/profile/profile.go:189-194 | only a-z, 0-9 and single inner dashes |
| Slug.SlugifyFixed | internal/profile/profile.go:189-194 | the identity on such strings |
| Slug.SlugifyIdempotent | internal/profile/profile.go:189-194 | a slug's slug is itself |
| Slug.SlugifyTrimmed | internal/profile/profile.go:189-194 | the trimmed name a profile stores has the slug of the name given |
| Slug.SlugifyUntrimmed | internal/profile/profile.go:189-194 | trimming, collapsing and stripping is one pass over the lowered name |
| Slug.ValidNames | internal/profile/profile.go:198-207 | a name is valid exactly when its slug is neither empty nor "active" |
| Slug.StubSlugify | internal/ipc/stub.go:354-376 | the one-pass loop computes the production slug with ASCII lowering |
| Slug.StubAgreement | internal/ipc/stub.go:354-376 | stub and production slug agree if and only if no character outside ASCII lowers into an ASCII letter or digit |
| Modes.ParseString | internal/mode/mode.go:56-79 | parsing undoes printing on every valid mode |
| Modes.AliasesParse | internal/mode/mode.go:52-66 | every alias means its mode, and white space around the input does not count |
| ConfigFile.Save | internal/mode/persist.go:83-108 | the builder's text is the header, the mode line and a line per non-empty list, or a refusal of the mode |
| ConfigFile.Parse | internal/mode/persist.go:148-184 | the loop computes the meaning of the lines in order, the first unknown mode deciding |
| ConfigFile.KeysMean | internal/mode/persist.go:160-181 | each list key sets its own list, the mode key a mode or an error, an empty mode and any other key nothing |
| ConfigFile.ReadModeIsKnown | internal/mode/persist.go:160-171 | a file that is read at all names a known mode or none |
| ConfigFile.SplitCSV | internal/mode/persist.go:188-196 | the trimmed non-empty parts in order, each clean |
| ConfigFile.CsvJoin | internal/mode/persist.go:186-196 | a joined list is split back if and only if its entries are non-empty, comma-free and trimmed |
| ConfigFile.ReloadedLists | internal/mode/persist.go:83-196 | a saved config is read back with its mode and with each list as its quoted form is read |
| ConfigFile.RoundTrip | internal/mode/persist.go:83-196 | parse undoes Save if and only if every list's entries are clean and need no escaping and the joined list has no apostrophe at an end |
| ConfigFile.RereadsIffSurvives | internal/mode/persist.go:100-108 | however often a list is written and read, it comes back exactly when it survives once |
| ConfigFile.SetModesKeepLists | internal/daemon/daemon.go:1161-1167 | after any number of mode switches with restarts between them the mesh_dns lists are the loaded ones if and only if they survive one |
| DomainBatches.SplitDomainsIntoBatches | internal/tunnel/dns/adapter_darwin.go:132-160 | the loop computes the greedy split |
| DomainBatches.GreedyIsSplit | internal/tunnel/dns/adapter_darwin.go:132-160 | order and contents are kept and every batch meets the limits as counted |
| DomainBatches.GreedyIsOptimal | internal/tunnel/dns/adapter_darwin.go:132-160 | no order-preserving split meeting them has fewer batches |
| DomainBatches.JoinedIsWritten | internal/tunnel/dns/adapter_darwin.go:118-156 | the bytes of a batch are those of the text written: its domains joined by single spaces |
| DomainBatches.NonEmptyDomainsExact | internal/tunnel/dns/adapter_darwin.go:39-43 | without empty domains every batch has at most 50 entries and, unless it has one, a text of at most 1500 bytes, with the fewest batches |
| DomainBatches.ConfiguredDomainsExact | internal/mode/persist.go:186-196 | the domain lists of any config file that is read have no empty entry, so every list the daemon passes is batched within the real limits, with the fewest batches |
| DomainBatches.CountedIsJoined | internal/tunnel/dns/adapter_darwin.go:139-156 | the running count misses exactly the separators after leading empty domains |
| DomainBatches.AnyDomainsBound | internal/tunnel/dns/adapter_darwin.go:132-160 | with empty domains a batch passes the byte limit by at most 49 |
| DomainBatches.EmptyDomainOverflows | internal/tunnel/dns/adapter_darwin.go:139-156 | a list whose batch does pass it, as a fact about the function alone |
| LogWriter.RingWriter.Write | internal/innermesh/netbird.go:335-353 | the buffer is a suffix of everything written, at most the capacity, starting where the trimming rule says |
| LogWriter.RingWriter.WriteAll | internal/innermesh/netbird.go:335-353 | any run of writes leaves the whole stream recorded and the buffer where the run says, at a line start if the stream is dense |
| LogWriter.RingWriter.Lines | internal/innermesh/netbird.go:356-367 | the last non-empty lines of the buffer, as many as asked for, or all |
| LogWriter.SplitLines | internal/innermesh/netbird.go:369-394 | the loop computes the non-empty lines, an unterminated last one included |
| LogWriter.LinesArePieces | internal/innermesh/netbird.go:369-394 | the lines of a text are its newline-free pieces in order without the empty ones, an unterminated last one included |
| LogWriter.PiecesOf | internal/innermesh/netbird.go:369-394 | every text has such pieces |
| LogWriter.LinesSplit | internal/innermesh/netbird.go:369-385 | cutting a text at a line start cuts its list of lines |
| LogWriter.TrimIsLeast | internal/innermesh/netbird.go:335-353 | a write that fits drops nothing; one that does not drops the bare excess and goes on through the first newline after it, if there is one |
| LogWriter.WriteAlignment | internal/innermesh/netbird.go:335-353 | a trimming write leaves the buffer at a line start if and only if a newline is among the last cap bytes or just before them |
| LogWriter.DenseRunsStayAligned | internal/innermesh/netbird.go:335-353 | if every cap consecutive bytes hold a newline the buffer always starts at a line start |
| LogWriter.DenseRunsShowWholeLines | internal/innermesh/netbird.go:335-385 | so Lines shows exactly a tail of the lines of the whole stream |
| LogWriter.AlignedLines | internal/innermesh/netbird.go:356-385 | an aligned buffer shows whole lines only |
| Rings.RingBuffer.Add | internal/peerping/ring.go:41-49 | one more in the history, the buffer holding its last min(n, cap) |
| Rings.RingBuffer.Samples | internal/peerping/ring.go:64-74 | the last min(n, cap) added, oldest first |
| Rings.RingBuffer.NewestFirst | internal/daemon/filedrop.go:44-64 | the same records, newest first |
| Rings.RingBuffer.Last | internal/peerping/ring.go:78-85 | the newest of the whole history, if any |
| Rings.ComputeStats | internal/peerping/ring.go:101-135 | the loop computes the summary of the window, with 64-bit wrap-around of the sum |
| Rings.TallyIsSummary | internal/peerping/ring.go:104-123 | the running tally is the count, least, greatest, sum and newest of the successes seen |
| Rings.LossIsCounted | internal/peerping/ring.go:101-135 | the counts are those of the window and of its lost probes, the loss their ratio in percent; an empty window shows zeros |
| Rings.StatsAreMeaningful | internal/peerping/ring.go:101-135 | for non-negative times whose sum fits 64 bits: real minimum, maximum and mean, in that order |
| Rings.LastIsNewest | internal/peerping/ring.go:101-135 | Last is the newest sample that was not lost |
| Rings.LogTail.Logf | internal/daemon/daemon.go:1636-1643 | one more line in the history |
| Rings.LogTail.Tail | internal/daemon/daemon.go:1613-1632 | the non-empty ones of the last lines, oldest first |
| Rings.TailOfRealLines | internal/daemon/daemon.go:1636-1643 | for the lines logf writes, the last lines themselves |
| Samplers.WantedKeys | internal/peerping/manager.go:122-134 | the wanted keys are exactly the non-empty target IPs |
| Samplers.WantedIsLast | internal/peerping/manager.go:122-134 | the last target of an IP is the one kept |
| Samplers.Manager.Start | internal/peerping/manager.go:83-112 | succeeds once, with the responder bound when asked for |
| Samplers.Manager.SetTargets | internal/peerping/manager.go:122-156 | afterwards the keys are the wanted ones, kept peers keep their very sampler and ring, exactly the dropped ones are cancelled, new ones start empty with the whole capacity asked for, or 120; nothing before Start or after Stop |
| Samplers.Manager.Snapshot | internal/peerping/manager.go:160-168 | one summary per peer, of its own ring's window, counting all its probes up to the capacity |
| Samplers.Manager.Record | internal/peerping/manager.go:173-181 | a probe's outcome goes to that peer's ring alone |
| Samplers.Manager.CancelContext | internal/peerping/manager.go:83-112 | the end of the start context stops every sampler |
| Samplers.Manager.Stop | internal/peerping/manager.go:185-200 | every sampler ever started is cancelled, none is live, and none comes back |

## Left out

- ECDSA, X.509, PEM, CBOR and JSON: whether bytes verify, pair up, parse or carry an identity is a predicate or a field, so the derivation of an identity from a certificate is not modelled.
- Sockets, HTTP, D-Bus, NRPT and scutil calls, wireguard-go and the real netbird client: an operation succeeds or fails as an input says.
- Interleavings inside handlers and callbacks: each is one atomic step (a stop can still fall between any two of its file steps).
- Timers and contexts: when a tick, callback or probe happens is an input.
- Path effects of raw slugs: a slug is a map key, so separators in an unchecked slug and case-insensitive file systems are not modelled.
- A write that fails does nothing, and a read never fails on a file that is there.
- ProfileStore.Store.Rename: takes the marker "" and an absent marker file for one, and a file that cannot be read for one that is not there.
- Listing, sorting and reporting profiles, status and diagnostics mapping: they only read.
- The contents of a mesh configuration, its persist paths and SetInnerMeshProfile: the mesh handle has a state and a closed flag only.
- Resolver settings that survive a crash: a start-up begins with the resolver restored.
- A file replaced between the stat and the read inside one LoadSnapshot.
- Times beyond what time.Unix can represent: times are unbounded integers, the TTL product excepted.
- Daemon.Daemon.SetMode: the copy of the mode in the legacy config file is not part of the daemon's state; ConfigFile.SetModesKeepLists is about that file.
- Endpoint, keys and addresses inside a tunnel config: only its interface, DNS part and key lengths are modelled.
- Library sorts: any function that returns a sorted permutation.
- Daemon.Daemon.ApplyDns: the nameservers it also hands to the names forwarder are an input of Resolver.Forwarder.Handle.
- Legs.HostDns.Apply: failures of the platform's own DNS calls, Linux without systemd-resolved and the mobile adapter are not modelled.
- Legs.Mesh.Connect: is innermesh.Fake's; the netbird client leaves a cancelled bring-up in an error instead of closed.
- Rings.ComputeStats: the loss percentage is an exact real, not a float.
- Samplers.Manager.Stop: waiting for the sampler goroutines to end is not modelled.
- ConfigFile.Parse: reading and atomically replacing the file itself, and bytes that are not UTF-8, are not modelled.
- DaemonLegs.RunLosesNoMesh: covers one process from start-up; a stop of the process ends its legs.
- The names refresh loop, file drop transfers, reachability, peer-connection lifecycle, UI, mobile, packaging and command-line code.
