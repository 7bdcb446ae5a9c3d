# Vector Sigma: verified model

This project models the five cores of Vector Sigma and the env-file merge beside them, and proves what they promise.

* **Credential rotation as a distributed protocol.** `Fleet` is one value: the registrar's tables, the gateway's key table and every device's disk, with each device's bundle history indexed by version. Its actions are single transactions of the registrar (starts, flips, confirmations, revocations, cleanups, enrolls, resyncs, and the same steps stopping anywhere in between) and single steps of a device. `FleetInvariant`, `FleetSteps` and `FleetSafety` prove the invariant (the empty fleet satisfies it, `BirthInv`) and the safety argument, `FleetTheorems` holds the results about runs, `FleetResume` those about interruptions, `FleetStrict` those about resyncs, `FleetOverlap` those about calls that overlap; `FleetWitness` has two short runs from the empty fleet. `FleetSweep` ties the sweep to runs of these actions, `FleetInterleave` ties a call's single writes to them. `Registrar` is the process itself, with its loops, proved equal to the functions the run theorems are about. `A2aDoc` is the rendered document.
* **Delivery plane and device.** `Slots`, `Bundles` and `Delivery` model the slot, the version bump and the bootstrap transaction; `IdentityStore` the renames of an apply, any of which may be the last before a crash; `Registrant` interleaves one device with the plane. `FleetDevice` proves that every step of that process is a run of the fleet's device actions, `BundleView` that the two merge specs of a rotation change exactly what the fleet says they change, and `FleetJoint` puts one device's process, the plane and the whole fleet into one run.
* **Hub router.** `HubBoard` is the board and one bead's moves, `HubSweep` one tick as a function of the board, `HubRuns` and `HubTheorems` whole runs, `HubRouter` the sweep object with its pass loops.
* **Signed requests.** `Json` (compact key-sorted rendering and its injectivity), `GuardContent` (the signed content and the gateway's rewrites), `NonceCache`, `GuardVerify`.
* **OCI gate.** `OciLayers` (whiteouts) and `OciGate` (index flattening, scan, assembly).
* **Signed mesh keys and env files.** `MeshKeys`, `EnvFile`, `EnvEditor`; `Text` holds string helpers.

Beside the modules that compute stand modules that say what comes of it, in terms of stored fields, table entries, names and wire spellings alone: `FleetMeaning` and `KeyMeaning` (every registrar operation, table by table and document by document), `BundleMeaning`, `HubDispatch` (who is dispatched), `HubMeaning` and `HubWords`, `GuardWire`, `OciMeaning`, `EnvSave`.

Imperative code of the original (the registrar's routines, the delivery plane, the store, the watcher, the router's sweep, the nonce cache, the key administration, the gate's loops) appears as classes and methods with loops; each is proved equal to a function, and the lemmas are about these functions.

## What the run theorems assume

The actions of `Fleet.Enabled` carry four hypotheses on operators, because the code needs them: a new device's document is strict only while the switch is on, an enroll mints a base key only for an agent that has no identity row (enroll probes only the base alias), a console mint-model-key happens only while no model rotation is open, and a strict resync leaves every rotated agent its way into the members it reaches (`Fleet.Stays`: the member lists the agent's active key, or does not go by its signature and stays without strict). `ReEnrollBreaks` and, for the last, the exact `ResyncServesExactly` show what they are for; `ReadinessCovers` says how far the readiness gate of the switch provides the last. A forced sweep is excluded (`ForcedFlipBreaks`, `ForcedRevokeExactly`).

The strict switch is a constant of a run, on or off; it may also be turned on between two stretches of one (`NoFailedSendsAcrossTurnOn`), and turning it off again is what `StrictRoundTrip` is about. A receiver is judged by its own document. If that is strict, its guard refuses every unsigned request and every signer it does not list, so it takes an agent only by the public key it lists. If it is not, it takes an unsigned request by its token tables, and with the switch on also the signature of an agent it lists. With the switch off signatures are not counted; which of the two an agent sends is not part of this model.

Starts, sweeps, enrolls and resyncs do not overlap. Each reads rows and documents once and writes later without looking again, and nothing in the code keeps two of them apart. `FleetOverlap` takes the overlaps one late write at a time: a sweep's flip, confirmation, and revocation with cleanup on a row that another sweep has moved (`StaleFlipExactly`, `StaleFlipServes`, `StaleConfirmExactly`, `StaleCleanupExactly`), a start that does not see an open row (`DoubleStart`), and a document rendered from what was read before another call stored one (`StaleRenderExactly`, `LostDelivery`). Overlaps of more than one late write, and late writes of a model rotation, are excluded and not analysed.

Each bundle write is one atomic transaction, and a start, a flip, a cleanup, an enroll or a resync is one action whose bundle writes may stop after any subset of its devices. That devices go on between two writes of one call loses nothing: `FleetInterleave` sorts what they did around the call. Agent names are in the alias charset and none is another name followed by `-r` and digits, so that the aliases of different agents and schemes never coincide. The registrar's report table, the gateway and the bundle store are never rolled back.

`FleetDevice` assumes that a device's bundles name each path once and never drop one of the two credential files again, and that the ready marker is not lost while an interrupted apply has left files newer than the snapshot (`LoseMarkerExactly`, `LostMarkerGoesBack`; `Registrant.DeviceRun` covers every loss); `IdentityStore` that no bundle names a file like the store's own two. `FleetJoint` assumes that a rendered document parses to what was rendered, and that minted model keys fit on a line of an env file. `NoHandoffTwice` assumes ticks at least a second apart and no counted handoff dated later than the tick that counts it; the code checks neither, and comment times come from another clock. The nonce cache is the memory of one guard process: a restart empties it, and within the time window a request accepted before the restart is accepted again.

## Findings

* "Zero failed A2A sends by construction" holds from the moment a peer is *served*: it has applied something, and every bundle it may come to run takes every key the target may come to present, a strict bundle by the public key it lists. `ServedExactly` shows that this is exactly the condition under which no run loses a send; `StartServes` says when a start establishes it, and `SomeRunFails` is a run that loses one.
* A strict resync loses a served pair exactly where the receiver does not list the agent afterwards and either is strict or has tables that do not list what the agent presents (`ResyncServesExactly`); a peer's first key is enough to shut out an agent that has none (`UnkeyedAgentRefused`). Strict mode leaves overlap tokens in the tables (`StrictStillAccepts`), where no guard looks at them.
* A flip decided on a stale row moves a row that is past its target's confirmation backwards, and reopens a closed one for good (`StaleFlipExactly`). A cleanup held up in the gateway drops the overlap entry of the agent's next rotation, and loses the send exactly if that entry is what the peer takes the agent by (`StaleCleanupExactly`, `StaleCleanupBreaks`). Two overlapping starts with a common peer lose the first one's delivery (`LostDelivery`).
* A reconcile that names a row which is not open sweeps nothing, although the comment above the sweep says that such a number is ignored (`SweepOfOneRow`).
* The retry wait is exact for every slot row the operations can write, and wrong exactly for a consumed row without a delivery time (`RetryAfterRightFor`).
* A bundle that names a file like the ready marker makes a fresh device ready without a snapshot, and nothing else does (`FalselyReadyExactly`).
* A ready marker lost after an apply was interrupted makes the next boot put older files back (`LostMarkerGoesBack`); losing it at any other time does nothing (`LoseMarkerExactly`).
* The router parks a bead in the stage it was in even where its comment says that it is staged in the target; a merged bead is assigned to the owner, although the design document says unassigned (`HandoffOutcome`). A bead can be re-pinged exactly if the re-ping window is the shortest of the three, which the default windows are not (`RepingsExactly`). Guidance resumes a bead exactly if it is the owner's first comment since the park (`GuidanceExactly`); once it is not, it is lost for good (`GuidanceNeverComes`). A handoff counts again after a redispatch exactly if it is later than the truncated stamp (`SameSecondCountsTwice`).
* The nonce cache tolerates a clock that steps back by up to its 60-second margin, and no further (`SafeExactly`).
* The gate's whiteout rule differs from the OCI image specification's in both directions: a whiteout also hits its own layer, and it does not reach below the path it names (`AgreesWithSpec`, `SpecDiffersBothWays`).
* From an env file with DOS line ends no key is read, except from a last line without one (`DosLinesAreNotRead`). Opening the editor and saving unedited changes a value exactly where the form shows a key whose first and last lines differ; masked keys never change (`DuplicateKeyChanges`, `EditorRoundTrip`). An input of the form with a line break inside is written as two lines, and is the only thing that does not read back as saved (`SaveReadsBack`).

## Model

| member | source | states |
|---|---|---|
| FleetTheorems.NoFailedSends | registrar/src/credential-rotation.ts:20-40 | over every run, with the switch on throughout or off throughout, once a peer is served in an agent's rotation, each key the agent presents is live at the gateway and what is on the peer's disk takes the agent: by its token tables if its own document is not strict, or, with the switch on, by the public key it lists; before, during and after flip, revocation, cleanup, crashes, enrolls, resyncs and later rotations |
| FleetTheorems.NoFailedSendsAcrossTurnOn | registrar/src/a2a-keys.ts:218-242 | nor is a send lost when the switch is turned on between two stretches of a run, at whatever point of a rotation |
| MeshKeys.ReadinessCovers | registrar/src/a2a-keys.ts:218-242 | where the switch may be turned on, the resync that follows leaves every rotated agent its way into every member, if the members naming it trust it and it is a member itself |
| FleetTheorems.ServedExactly | registrar/src/credential-rotation.ts:149-235 | a ledger peer is served (it has applied something, and every bundle it may come to run takes every key the target may come to present, a strict one by the public key it lists) if and only if no run whatsoever loses one of its sends |
| FleetTheorems.ServedBeforeConfirmation | registrar/src/credential-rotation.ts:20-29 | before the target's confirmation and with the switch off, a ledger peer is served if and only if the target holds nothing but the rotation's two keys, and the peer holds something and nothing that does not list the old key |
| FleetTheorems.StartServes | registrar/src/credential-rotation.ts:183-224 | a start keeps the invariant and serves exactly the referencing peers that have applied something, whose held bundles take what the target may present, and whose newest bundle takes it by signature, or is not strict while the target presents its current key alone |
| FleetTheorems.ConfirmedRotationServes | registrar/src/credential-rotation.ts:374-385 | a rotation whose target has confirmed serves exactly the ledger peers that may run no strict bundle without the agent's public key; with the switch off that is its whole ledger |
| FleetTheorems.UnservedFails | registrar/src/credential-rotation.ts:183-206 | for an unserved ledger peer, a run that loses a send |
| FleetWitness.UnservedFromBirth | registrar/src/credential-rotation.ts:183-206 | two new devices that have applied nothing, and a start: a ledger peer that is not served |
| FleetWitness.SomeRunFails | registrar/src/credential-rotation.ts:183-206 | a short run from the empty fleet that loses a send of a rotation to a ledger peer |
| FleetWitness.ServedFromBirth | registrar/src/credential-rotation.ts:183-206 | the same two devices, their bundles applied before the start: a ledger peer that is served |
| FleetTheorems.RevokedOnlyAfterDelivery | registrar/src/credential-rotation.ts:386-408 | a key leaves the gateway only as the old key of a row awaiting revocation, when every ledger peer's disk and the target's disk hold the versions the row names and nobody runs it or can still fetch it |
| FleetTheorems.ModelKeyAlwaysLive | registrar/src/credential-rotation.ts:248-318 | in every reachable state the model key on a device's disk and the one in its stored bundle are live |
| FleetTheorems.OldAliasChain | registrar/src/credential-rotation.ts:816-827 | each model rotation retires the alias its predecessor introduced, and the predecessor is closed |
| FleetTheorems.RegistryDiscipline | registrar/src/credential-rotation.ts:164-171 | in every reachable state at most one open row per agent and kind; tokens are present exactly while an identity rotation is open (starts and sweeps serialised) |
| FleetTheorems.RowsMoveForward | registrar/src/rotation-state.ts:8-12 | along any run a row's status only moves forward, its flip version is set once and its tokens are only ever wiped (starts and sweeps serialised) |
| FleetSteps.StepKeeps | registrar/src/credential-rotation.ts:343-455 | every enabled action keeps the invariant |
| FleetSteps.RunKeeps | registrar/src/credential-rotation.ts:343-455 | so does every run |
| FleetSteps.OldKeyUnused | registrar/src/credential-rotation.ts:521-550 | the key a row awaiting revocation retires is on no disk and in no bundle still to be fetched |
| FleetSteps.EnrollKeeps | registrar/src/mesh-enroll.ts:645-794 | an enroll of any agent, its merges stopping anywhere, keeps the invariant, rotations in flight included |
| FleetSteps.StartIdentityKeeps | registrar/src/credential-rotation.ts:149-235 | mint, overlap deliveries and the new row keep the invariant |
| FleetSteps.FlipKeeps | registrar/src/credential-rotation.ts:480-518 | the flip keeps the invariant wherever the ledger's disks are at their versions |
| FleetSteps.CompleteKeeps | registrar/src/credential-rotation.ts:386-408 | delete, cleanup and closing update keep the invariant |
| FleetSteps.ResyncKeeps | registrar/src/a2a-keys.ts:292-347 | a resync under either position of the switch, stopping anywhere, keeps the invariant |
| FleetSafety.ServedStep | registrar/src/credential-rotation.ts:343-455 | every action keeps a served peer served |
| FleetResume.SweepResumes | registrar/src/credential-rotation.ts:386-408 | stopping anywhere between delete and closing update and sweeping again ends in the state of an uninterrupted sweep |
| FleetResume.CleanupsMerge | registrar/src/credential-rotation.ts:596-630 | two interrupted cleanups are one that reached both their peers |
| FleetResume.CleanupBumpsOnce | registrar/src/credential-rotation.ts:603-628 | cleanup bumps a peer's version at most once, and exactly where an overlap entry is left |
| FleetResume.ReEnrollBreaks | registrar/src/mesh-enroll.ts:645-670 | a minting re-enroll of a rotated agent loses a peer that has not applied yet |
| FleetResume.ForcedFlipBreaks | registrar/src/credential-rotation.ts:369-373 | a flip without confirmations loses a peer whose disk does not take the new key |
| FleetResume.ForcedRevokeExactly | registrar/src/credential-rotation.ts:374-408 | a forced sweep past the flip revokes without the target's confirmation: what the target presents stays live exactly if it is not the old key |
| FleetOverlap.StaleFlipExactly | registrar/src/credential-rotation.ts:357-373 | a flip decided on a row read before other calls moved it: the status does not go back exactly if the row is delivering or awaiting its target, and the row moves as in a run exactly if it is delivering; while the row is open the invariant is kept exactly if every overlap entry is left, always so before the confirmation; on a closed row it leaves an open row without tokens that no sweep can revoke, and the target on the closed rotation's key |
| FleetOverlap.StaleFlipServes | registrar/src/credential-rotation.ts:357-373 | every served pair survives a late flip while the row is open; on a closed row the target's own pairs do exactly if whatever the peer may run takes the closed rotation's key |
| FleetOverlap.StaleConfirmExactly | registrar/src/credential-rotation.ts:374-385 | a late confirmation is the confirmation, or nothing, unless the row is closed; then it is open again without tokens, cannot be revoked and blocks further starts |
| FleetOverlap.StaleCleanupExactly | registrar/src/credential-rotation.ts:386-408 | a revocation and cleanup that come after another sweep closed the row leave gateway and registry alone, and a served pair of the agent stays served exactly if the peer is not cleaned, takes the agent by signature, or lists every key the agent may present as its canonical token |
| FleetOverlap.StaleCleanupOfOpen | registrar/src/credential-rotation.ts:596-630 | with a later rotation open before its confirmation: exactly if the peer takes the agent by signature, or the agent can present nothing but the new key any more |
| FleetOverlap.StaleCleanupBreaks | registrar/src/credential-rotation.ts:596-630 | a late cleanup loses the send of a target that still runs the later rotation's old key, once the peer applies it |
| FleetOverlap.StaleRenderExactly | registrar/src/mesh-enroll.ts:453-498 | a render of a document read before another call stored one: whom it does not name, the receiver takes as the document that was read did |
| FleetOverlap.LostDelivery | registrar/src/credential-rotation.ts:181-206 | two overlapping starts with a common peer: the second delivery, rendered from what its scan read, takes the first rotation's new key away from a peer its ledger lists |
| FleetOverlap.DoubleStart | registrar/src/credential-rotation.ts:164-224 | a start that goes on although a row is open breaks the invariant; it keeps it exactly if no row is open |
| FleetInterleave.StartInterleaved | registrar/src/credential-rotation.ts:179-224 | a start whose deliveries devices act between, up to the inserted row, is a run with the start in one piece |
| FleetInterleave.StartMidway | registrar/src/credential-rotation.ts:179-206 | and between any two deliveries the state is that of a run with a start that stopped there |
| FleetInterleave.CompleteInterleaved | registrar/src/credential-rotation.ts:386-408 | likewise for delete, cleanups and closing update |
| FleetInterleave.EnrollInterleaved | registrar/src/mesh-enroll.ts:751-794 | likewise for an enroll, wherever it stops |
| FleetInterleave.ResyncInterleaved | registrar/src/a2a-keys.ts:304-345 | likewise for a resync, wherever it stops |
| FleetStrict.ResyncKeepsAcceptance | registrar/src/a2a-keys.ts:326-334 | a resync keeps a key in a receiver's tables exactly unless strict strips the keyed peer's canonical token |
| FleetStrict.ResyncTakes | registrar/src/a2a-keys.ts:304-343 | exactly whom a member takes after a resync, its own strict flag included, for both positions of the switch and every reach |
| FleetStrict.BearerLostExactly | registrar/src/a2a-keys.ts:326-328 | a peer's tables stop listing a keyed agent's key exactly if a strict resync reaches it and no overlap entry holds that key; its guard stops taking any bearer exactly if the resync reaches it, and takes the agent by signature from then on |
| FleetStrict.ResyncServesExactly | registrar/src/a2a-keys.ts:311-334 | a served pair a strict resync reaches stays served if and only if the receiver lists the agent's active key afterwards, or lists nobody, so that it is not strict, and its tables list every key the agent may present |
| FleetStrict.StrictResyncDelivers | registrar/src/a2a-keys.ts:311-334 | on the disks: once the receiver has applied the rebuilt bundle the agent's sends go through if and only if it lists the agent's key, or is not strict and its tables list what the agent presents |
| FleetStrict.RevokedKeyBreaks | registrar/src/a2a-keys.ts:311-334 | an instance: a strict resync that finds the active key of an agent gone loses the peer it reaches |
| FleetStrict.UnkeyedAgentRefused | registrar/src/a2a-keys.ts:311-325 | another: another trusted peer's first key makes the receiver strict, and an agent without an active key is refused although its token is still in the tables |
| FleetStrict.StrictRoundTrip | registrar/src/a2a-keys.ts:326-334 | strict on and off again restores the target's stored key, not the rotation's new one |
| FleetSweep.SweepRowStatus | registrar/src/credential-rotation.ts:361-441 | exactly when one pass, forced or not, completes a row, moves it to revocation or flips it; a row that flips goes no further, a confirmed one may be revoked and closed in the same pass |
| FleetSweep.SweepIsRun | registrar/src/credential-rotation.ts:343-455 | a whole sweep that forces nothing is a run of the fleet's actions |
| Registrar.Registrar.StartIdentityRotation | registrar/src/credential-rotation.ts:149-235 | refuses exactly where a guard refuses, else the tables become the start's; deliveries go peer by peer |
| Registrar.Registrar.DeliverOverlap | registrar/src/credential-rotation.ts:183-206 | every referencing peer gets NEW as canonical and OLD as overlap once, and the ledger names the versions |
| Registrar.Registrar.StartModelRotation | registrar/src/credential-rotation.ts:248-318 | likewise for a model key |
| Registrar.Registrar.FlipTarget | registrar/src/credential-rotation.ts:480-518 | the target's bundle gets the new key and the row its flip version, or nothing changes |
| Registrar.Registrar.CleanupPeerOverlap | registrar/src/credential-rotation.ts:596-630 | drops the overlap entry at each ledger peer in order, no bump where it is gone, and counts the bumps |
| Registrar.Registrar.RevokeOldKey | registrar/src/credential-rotation.ts:521-593 | when the old key counts as revoked, by kind and by the gateway's answer |
| Registrar.Registrar.AdvanceRow | registrar/src/credential-rotation.ts:361-441 | one row of the sweep, forced or not |
| Registrar.Registrar.AdvanceRotations | registrar/src/credential-rotation.ts:343-455 | every open row of the table as read at the start, oldest first, narrowed to one row or forcing one |
| Registrar.Registrar.ReportApplied | registrar/src/app.ts:351-358 | a positive version is recorded, then the sweep runs |
| FleetSweep.SweepOfOneRow | registrar/src/credential-rotation.ts:357-366 | a sweep narrowed to a row, or forcing one, is that row's pass and leaves every other row alone; only the forced row skips the confirmations; naming two different rows, a closed one or one that is not there makes the sweep do nothing |
| FleetSweep.SweepOfAllRows | registrar/src/credential-rotation.ts:357-366 | a sweep with neither passes every row once, in id order, each as the rows before left it, none of them forced |
| FleetMeaning.SweepRowMeaning | registrar/src/credential-rotation.ts:367-445 | all one pass does, forced or not: a row whose target reported the flipped bundle is revoked, cleaned and closed if the gateway obeys, and marked failed if not; a delivering one whose whole ledger reported is flipped; every other row, bundle, key and table stays |
| FleetMeaning.StartIdentityMeaning | registrar/src/credential-rotation.ts:173-224 | a start adds one row with the key being rotated, the minted one under the first free alias after the rotations the agent has had, and a ledger of exactly the documents that name the agent, each at the version just stored; those get the overlap pair and nothing else changes |
| FleetMeaning.StartModelMeaning | registrar/src/credential-rotation.ts:281-313 | a model rotation starts from the newest alias there is, stores the minted key in the target's bundle and changes no other entry of any table |
| FleetMeaning.StartGuards | registrar/src/credential-rotation.ts:156-178 | a rotation starts exactly if there is a key to rotate, none of its kind is open and one of twenty aliases is free |
| Registrar.Registrar.EnrollAgent | registrar/src/mesh-enroll.ts:570-803 | MINT, OPEN or REFUSE, then both merge legs from one scan of the peers |
| FleetMeaning.EnrollMeaning | registrar/src/mesh-enroll.ts:696-790 | an enroll, wherever its merges stop: the agent's document gets the url, the decided key, and as trusted its old names and exactly the other active devices with a key, for each the token pair of its open rotation or its own key; each of their documents trusts the agent and takes its key or its open rotation's pair; nothing else is written |
| FleetMeaning.EnrollGuard | registrar/src/mesh-enroll.ts:645-688 | an enroll goes ahead unless the gateway holds a base key that the bundle has lost |
| Registrar.Registrar.ResolveMeshPeers | registrar/src/mesh-enroll.ts:515-546 | the other active devices with a key, with the token pair of an open rotation |
| Registrar.Registrar.ScanReferencing | registrar/src/credential-rotation.ts:714-740 | every other bundle that lists the agent as token holder or trusted peer, in table order |
| Registrar.Registrar.FindOpen | registrar/src/rotation-state.ts:20-37 | the newest open row of the agent and kind |
| Registrar.Registrar.ProbeSuffix | registrar/src/credential-rotation.ts:833-859 | the first of twenty suffixes after the count of prior rotations that is not live |
| Registrar.Registrar.ArePeersConfirmed | registrar/src/credential-rotation.ts:462-470 | whether every ledger peer reported at least its version |
| Fleet.OpenRow | registrar/src/rotation-state.ts:20-37 | the result is open, of this agent and kind, and no later such row is open |
| Fleet.FreshSuffix | registrar/src/credential-rotation.ts:833-859 | the first suffix not live, or all probed ones are live |
| A2aDoc.RenderA2aJson | registrar/src/mesh-enroll.ts:453-498 | the document with the given keys overridden, additions before drops |
| A2aDoc.MergeNames | registrar/src/mesh-enroll.ts:445-450 | first occurrences of both lists, in order |
| A2aDoc.DedupKeepsOrder | registrar/src/mesh-enroll.ts:445-450 | names already there keep their places |
| BundleView.DocReplaced | registrar/src/credential-rotation.ts:743-760 | replacing the document changes it and no other thing a rotation reads |
| BundleView.ModelKeyReplaced | registrar/src/credential-rotation.ts:775-809 | updating the env line changes the model key and nothing else a rotation reads |
| FleetDevice.EventIsRun | registrant/src/identity-store.ts:61-110 | every step of the device process, wherever it may crash, is a run of the fleet's device actions; losing the ready marker is too, unless an interrupted apply has left newer files |
| FleetDevice.ProcessRun | registrant/src/run.ts:56-124 | and so is every run of the process |
| FleetDevice.MixedRun | registrar/src/rotate.ts:146-216 | a run of device, delivery plane and registrar's rotations together: each rotation of the device stores its view of the new bundle, in order, and no other plane event does anything to it |
| FleetJoint.JointRun | registrar/src/credential-rotation.ts:743-809 | one device's process, the delivery plane and the whole fleet in one run: the fleet goes through exactly the actions its registrar took, rows and gateway included, and those the device's events amount to, each enabled where it happens; each bundle stored for the device is one of the rotation's two merges |
| FleetJoint.VolumeTakes | registrar/src/credential-rotation.ts:20-40 | once the device is served in an agent's rotation, after any joint run the document that really lies on its volume takes the key the agent's disk presents, and the gateway holds that key |
| FleetDevice.LoseMarkerExactly | registrant/src/run.ts:82-86 | the process survives the loss of its marker if and only if nothing on the volume is newer than the snapshot |
| FleetDevice.LostMarkerGoesBack | registrant/src/run.ts:82-86 | where a file of the snapshot's bundle is, the next boot takes it back to the snapshot's version |
| FleetDevice.RedoChangesNothing | registrant/src/run.ts:82-86 | applying the snapshot again for a missing marker rewrites what is already there |
| FleetDevice.ReportAllowed | registrant/src/run.ts:350-366 | what the device reports never exceeds what its disk holds |
| Slots.RetryAfterExact | registrar/src/slots.ts:65-113 | consume and effective state agree at every instant; a refused consume succeeds after the answered seconds and at no instant one second earlier or before |
| Slots.RetryAfterRightFor | registrar/src/slots.ts:98-113 | the rows for which the answered wait always works are exactly those armed or delivered before |
| Slots.SpentUntilRearmed | registrar/src/slots.ts:65-97 | a delivery spends the slot and counts; nothing is delivered again before the re-arm window ends unless the slot is armed |
| Bundles.BuildNextBundle | registrar/src/rotate.ts:79-127 | the next bundle or the error, filled through one insertion-ordered map |
| BundleMeaning.NextMeans | registrar/src/rotate.ts:79-127 | for either kind of input: the next version holds exactly the files that count (a replacement as given; in a merge an addition before an update before a kept file, the last of each), each path once after a merge; it fails exactly if none counts or one that counts does not fit |
| Bundles.MergeMeaning | registrar/src/rotate.ts:84-126 | version plus one; per path the last of kept, updated and added file; order of first occurrence; no path twice |
| Bundles.OtherFilesStay | registrar/src/credential-rotation.ts:743-809 | replacing one file keeps every other file's content and encoding, and their order |
| Delivery.NoVersionLost | registrar/src/rotate.ts:146-216 | under every interleaving a stored version that is not the one last delivered finds its slot armed; versions rise by exactly one per effective rotation; delivery_count counts successful consumes |
| Delivery.CountIsNotDeliveries | registrar/src/app.ts:246-253 | a bootstrap without a bundle consumes the slot and delivers nothing |
| Delivery.SecondAttemptDelivers | registrant/src/run.ts:245-271 | a device alone on its slot gets the current bundle by its second attempt, whatever others rotate meanwhile |
| Delivery.DeliveredOnce | registrar/src/slots.ts:65-97 | after a successful bootstrap, while nobody rotates or re-arms the device, the next call is refused exactly if it comes before the window has passed, an hour for a new slot |
| Delivery.ArmingDelivers | registrar/src/rotate.ts:146-216 | an effective rotation, or a re-arm of a known device, opens the slot at once, and no other device's |
| Delivery.GivesUpAfterFive | registrant/src/run.ts:245-271 | a device that ends without a bundle found none stored, or was refused five times in a row; one it gets is the stored one |
| Delivery.DeliveryPlane.RotateBundle | registrar/src/rotate.ts:146-181 | version bump and arming together, or an error and no change |
| Delivery.DeliveryPlane.BootstrapOnce | registrar/src/app.ts:242-270 | the transaction: refusal with its wait, delivery, or no bundle |
| Delivery.DeliveryPlane.BootstrapWithRetry | registrant/src/run.ts:245-271 | at most five attempts, each after the answered wait |
| Delivery.DeliveryPlane.RearmSlot | registrar/src/rotate.ts:188-202 | arms an existing slot, creates one for a known device, refuses otherwise |
| IdentityStore.ApplyKeeps | registrant/src/identity-store.ts:61-110 | an apply stopped at any rename leaves the volume safe and never lowers the snapshot version |
| IdentityStore.ReadyMeansParseable | registrant/src/identity-store.ts:112-119 | a ready device has a parseable snapshot not below its marker, and every file of that bundle from that version or a later one |
| IdentityStore.FinishedApply | registrant/src/identity-store.ts:61-110 | a finished apply leaves per path the bundle's last file, the snapshot and the marker, and nothing else changed |
| IdentityStore.FalselyReadyExactly | registrant/src/identity-store.ts:5-8 | a fresh device can be ready without a snapshot exactly if a file of the bundle is named like the marker |
| IdentityStore.ReadsBack | registrant/src/identity-store.ts:27-42 | the bundle read back is the snapshot, exactly if it has a version and files and every file validates |
| IdentityStore.Store.ApplyBundle | registrant/src/identity-store.ts:61-110 | files in order, snapshot, marker, stopping after any rename; a refused bundle touches nothing |
| IdentityStore.Store.Boot | registrant/src/run.ts:79-92 | skips the fetch when a snapshot parses, and applies it again when the marker is missing |
| Registrant.DeviceRun | registrant/src/run.ts:56-124 | in every state of every run, crashes and lost markers included, watcher version at most snapshot version at most stored version, the snapshot never goes back, ready means parseable |
| Registrant.Converges | registrant/src/run.ts:325-371 | from any reachable state, once nobody else acts, the device reaches the registrar's version with at most two bootstrap calls |
| Registrant.EveryOwnRun | registrant/src/run.ts:79-124 | every run the device makes on its own has at most a stated number of effective events, and exactly that many if and only if it ends level with the registrar, which is if and only if it cannot go on; the other events are refused bootstrap calls that change nothing |
| Registrant.RefusedOnlyOnce | registrant/src/run.ts:245-271 | a refused call, made again after the wait it was told, is not refused |
| Registrant.Watcher.WatchOnce | registrant/src/run.ts:349-370 | one round fetches exactly when the stored version is above the local one, and ends level with it |
| HubRuns.RunKeeps | images/common/bin/vs-hub-router.py:781-796 | over every run each bead in dev, test or review is exactly one of dispatched with a stamp, open and pending, or blocked from that stage; a bead in merge carries its assignee's accepted review, later than its last dispatch, which was into review |
| HubRuns.AcceptMeans | images/common/bin/vs-hub-router.py:552-595 | a tick moves a bead to merge only on such a handoff |
| HubSweep.TickMeaning | images/common/bin/vs-hub-router.py:552-777 | per tick a bead makes one move, or one dispatch that stands unless its wake-up failed, or nothing, decided from the snapshot's row |
| HubMeaning.TickOutcome | images/common/bin/vs-hub-router.py:552-777 | over the whole board, by fields and comments alone: a bead at its agent follows the agent's last handoff since the dispatch (ties by place), or is parked when silent or idle too long, or stays; a parked bead follows the owner's first word since then; any other bead is dispatched if due or is not written to; and what the router says about it |
| HubSweep.ThreePassesMeaning | images/common/bin/vs-hub-router.py:552-659 | the three passes amount to one move per bead and mark exactly the moved ones as acted on |
| HubSweep.ItemsFacts | images/common/bin/vs-hub-router.py:661-747 | dispatches are distinct, each due to a pending bead or an eligible candidate that made no move, each with room under the cap |
| HubDispatch.DispatchComplete | images/common/bin/vs-hub-router.py:661-747 | where a wake-up route exists or none is asked for, every bead that is due (pending for its stage, or ready, unclaimed, labelled and with the evidence its stage needs) and made no move is dispatched, unless its agent's running beads and this tick's dispatches to it reach the cap; and then the agent gets nothing later in the order of priority and id |
| HubDispatch.DispatchSound | images/common/bin/vs-hub-router.py:661-747 | nothing else is dispatched: every dispatch is due, to its stage's agent, and no agent is given more than its cap leaves |
| HubSweep.WorkIsSorted | images/common/bin/vs-hub-router.py:706-711 | work is taken by priority, then by id |
| HubSweep.SortWorkFacts | images/common/bin/vs-hub-router.py:706-711 | sorting permutes the work |
| HubBoard.HandoffFacts | images/common/bin/vs-hub-router.py:564-573 | the handoff that counts is the assignee's, after the dispatch, and none of the assignee's is later |
| HubWords.VerbReadsBack | images/common/bin/vs-hub-router.py:440-452 | a comment that opens with the prefix hands off with the next word, whatever its case and whatever follows |
| HubWords.ChatterHasNoVerb | images/common/bin/vs-hub-router.py:440-452 | a comment that does not open with it hands off nothing |
| HubWords.GuidanceIs | images/common/bin/vs-hub-router.py:624 | a comment is guidance exactly if it opens with the prefix, after white space or none |
| HubWords.BaseNameIs | images/common/bin/vs-hub-router.py:145-162 | however an account is written, with capitals, domain, mesh prefix or bot suffix, its base name is the bare one |
| HubWords.PrLinkIs | images/common/bin/vs-hub-router.py:89 | a text is evidence exactly if it holds a link of the five pieces, in any case |
| HubTheorems.NoHandoffTwice | images/common/bin/vs-hub-router.py:552-582 | with ticks a second apart, and no counted handoff dated later than the tick that counts it, the comments that moved a bead rise strictly in time, so none moves it twice |
| HubTheorems.SameSecondCountsTwice | images/common/bin/vs-hub-router.py:502-521 | once a bead moved by a handoff is dispatched again to an agent of the same name, that handoff counts once more exactly if it is later than the truncated stamp, whatever else is said on the thread meanwhile |
| HubTheorems.SameSecondParks | images/common/bin/vs-hub-router.py:575-580 | one agent serving both dev and test, redispatched within the second of its own handoff: the bead is parked exactly if the handoff is later than the truncated stamp |
| HubTheorems.WipCap | images/common/bin/vs-hub-router.py:713-748 | over every run no agent holds more running hub beads than the cap, if agents have distinct base names |
| HubTheorems.SharedNameBreaksCap | images/common/bin/vs-hub-router.py:726-732 | with one slot left, two spellings of one name get one each and the name is one over the cap |
| HubTheorems.StagesFollowPipeline | images/common/bin/vs-hub-router.py:69-85 | a tick changes a bead's stage only along the five pipeline steps, by the matching handoff of its assignee after the dispatch, or takes in unassigned work by its label, test and review only with merge evidence |
| HubTheorems.HandoffOutcome | images/common/bin/vs-hub-router.py:575-610 | where a counted handoff leaves its bead: parked with the owner in its old stage if the verb is not its stage's or the target has no agent, the owner's in merge, or pending in the target stage for its agent |
| HubTheorems.NothingStale | images/common/bin/vs-hub-router.py:628-657 | after a tick no dispatched bead is older than the silence limit or idle beyond the grace window, unless this tick dispatched it and a window is shorter than the fraction of a second its stamp cuts off |
| HubTheorems.FailedWakeupPends | images/common/bin/vs-hub-router.py:750-777 | a dispatch stands with its agent and stamp if the wake-up got through, and waits as pending for its stage if not |
| HubTheorems.GuidanceNeverComes | images/common/bin/vs-hub-router.py:612-626 | once an owner account's first comment since the park is not guidance, no later comment resumes the bead at any tick |
| HubTheorems.GuidanceExactly | images/common/bin/vs-hub-router.py:612-626 | a parked bead whose stage has an agent is resumed if and only if the owner's first comment since the park is guidance |
| HubTheorems.ChatterThenGuidance | images/common/bin/vs-hub-router.py:612-626 | where the owner had said nothing since the park, chatter followed by guidance resumes the bead exactly if the guidance is dated before the chatter; guidance alone does |
| HubTheorems.NeverRepinged | images/common/bin/vs-hub-router.py:653-659 | no bead is re-pinged while the re-ping window is as long as the grace window or the silence limit |
| HubTheorems.RepingsExactly | images/common/bin/vs-hub-router.py:653-659 | some bead of some board is re-pinged at some time if and only if the re-ping window is shorter than both the grace window and the silence limit |
| HubRouter.Sweep.RunTick | images/common/bin/vs-hub-router.py:781-796 | the loops of a tick leave the board the tick function says |
| HubRouter.Sweep.PassHandoffs | images/common/bin/vs-hub-router.py:552-582 | the handoff pass over the snapshot's rows |
| HubRouter.Sweep.ApplyHandoff | images/common/bin/vs-hub-router.py:584-610 | park, hand over for merge, or stage onward |
| HubRouter.Sweep.PassGuidance | images/common/bin/vs-hub-router.py:612-626 | the guidance pass |
| HubRouter.Sweep.PassGraceAndReping | images/common/bin/vs-hub-router.py:628-659 | the grace pass and the beads to mention again |
| HubRouter.Sweep.StampAll | images/common/bin/vs-hub-router.py:721-747 | the dispatch loop: snapshot counts plus this tick's stamps against the cap |
| HubRouter.Sweep.SendWakeups | images/common/bin/vs-hub-router.py:750-777 | one call per agent; exactly the failed agents' dispatches go back to pending |
| NonceCache.SafeExactly | images/common/bin/vs-a2a-guard.py:248-261 | no header is accepted twice over any history if and only if the clock never steps back by more than the time to live exceeds twice the window (windows of a second or more) |
| NonceCache.ActsUnbounded | images/common/bin/vs-a2a-guard.py:248-261 | with nonces signed once the pruned cache decides every call as one that never forgets |
| NonceCache.Remembered | images/common/bin/vs-a2a-guard.py:248-261 | an accepted pair is remembered until some call comes later than its time to live |
| NonceCache.Cached.CheckAndAddNonce | images/common/bin/vs-a2a-guard.py:254-261 | prune, look up, add |
| GuardVerify.NoClaimTwice | images/common/bin/vs-a2a-guard.py:264-290 | over any sequence of verify calls of one guard process no signed claim (sender, nonce, time) is accepted twice, however its header is written, while the clock steps back by at most a minute |
| GuardVerify.NoHeaderTwice | images/common/bin/vs-a2a-guard.py:264-290 | in particular no header text is accepted twice |
| GuardVerify.SignThenVerify | images/common/bin/vs-a2a-guard.py:229-290 | a signed request verifies after any allowed gateway rewrites exactly while it is in the window and its nonce unused |
| GuardVerify.AcceptedWasSigned | images/common/bin/vs-a2a-guard.py:264-290 | an accepted message was signed by that sender for this receiver with the same ids, role class, tenant, texts and method class |
| GuardWire.AcceptedOnTheWire | images/common/bin/vs-a2a-guard.py:264-290 | under ideal signatures a request is answered with a name only if it is acceptable and says send or stream by one of the four spellings, and its sender signed, for this receiver and time and an unused nonce, a request that says the same: a stream spelling for a stream spelling, a send for a send, a user role for a user role, an agent for an agent, and the same ids, tenant and texts |
| GuardWire.SignedIsAccepted | images/common/bin/vs-a2a-guard.py:229-290 | a signed request is answered with its sender's name in whatever acceptable form it arrives that says the same, exactly while the clock is in the window and the nonce is unused |
| GuardWire.AcceptableExactly | images/common/bin/vs-a2a-guard.py:161-226 | exactly which requests have a signed content, layer by layer in their own fields and spellings |
| GuardVerify.EachSigningOnce | images/common/bin/vs-a2a-guard.py:264-290 | two accepted messages go back to two different acts of signing, each of that very content |
| GuardVerify.HeaderRoundTrip | images/common/bin/vs-a2a-guard.py:234-245 | a header reads back exactly if every field is non-empty and free of semicolons |
| GuardVerify.InputInjective | images/common/bin/vs-a2a-guard.py:229-231 | the seven signed lines determine every field and the content |
| GuardVerify.Guard.VerifyCall | images/common/bin/vs-a2a-guard.py:264-290 | the checks in order; the nonce is used up only after all of them |
| GuardContent.ContentSurvives | images/common/bin/vs-a2a-guard.py:153-226 | any sequence of allowed rewrites leaves the signed content and the method class unchanged |
| GuardContent.AcceptedExactly | images/common/bin/vs-a2a-guard.py:179-226 | exactly which requests have a signed content, and which |
| GuardContent.ContentInjective | images/common/bin/vs-a2a-guard.py:221-226 | equal canonical bytes mean equal ids, tenant, role class and texts |
| GuardContent.BuildContent | images/common/bin/vs-a2a-guard.py:179-226 | the checks and the part loop, refusals included |
| Json.DumpsInjective | images/common/bin/vs-a2a-guard.py:226 | the compact key-sorted rendering of two values is equal only if the values are |
| OciLayers.TopDownAgrees | registrar/src/oci-gate/layer-walk.ts:115-166 | the quadratic test marks the same entries as a single pass from the top carrying whiteouts and opaque directories |
| OciLayers.BottomUpAgrees | registrar/src/oci-gate/layer-walk.ts:115-166 | and exactly those that applying the layers bottom-up removes |
| OciLayers.AgreesWithSpec | registrar/src/oci-gate/layer-walk.ts:155-166 | the mark agrees with the OCI image specification's whiteout rule exactly where a higher layer names the path itself or empties a directory above it, or the entry's own layer whites it out if and only if a higher layer removes a parent directory |
| OciLayers.EveryEntryOnce | registrar/src/oci-gate/layer-walk.ts:168-187 | every entry of every layer is returned once, in order, with its annotation |
| OciLayers.Walk | registrar/src/oci-gate/layer-walk.ts:71-187 | the loops of the walk, errors included |
| OciMeaning.WalkMeans | registrar/src/oci-gate/layer-walk.ts:71-187 | a walk succeeds exactly if every layer is verified, unpacks and has no name with a parent segment; it returns every entry of every layer once, in order, marked |
| OciMeaning.DeletedMeans | registrar/src/oci-gate/layer-walk.ts:115-187 | an entry is marked deleted exactly if it is no mark itself and some `.wh.` entry of its own or a higher layer names its path, or an opaque mark of a higher layer a directory it lies in |
| OciMeaning.ClimbsMeans | registrar/src/oci-gate/layer-walk.ts:106-108 | a name is refused exactly if one of its pieces between slashes is two dots |
| OciMeaning.NormalizedMeans | registrar/src/oci-gate/layer-walk.ts:131 | a stored name is the entry's without its leading slashes and dot-slashes and one trailing slash |
| OciLayers.Validated | registrar/src/oci-gate/oci-layout.ts:80-99 | a blob is returned exactly if present, of the declared size and of the declared digest |
| OciGate.ResolveMeans | registrar/src/oci-gate/oci-layout.ts:233-263 | resolution succeeds exactly on forests whose indexes all verify, parse and end within the ceiling, and returns their leaves in order, split by kind |
| OciGate.CyclesRefused | registrar/src/oci-gate/oci-layout.ts:238-243 | any layout with a cycle of indexes in reach, at the end of however long a path from the top level, is refused |
| OciGate.ChainsEnd | registrar/src/oci-gate/oci-layout.ts:238-243 | no accepted layout nests indexes deeper than the ceiling |
| OciGate.ResolveIndexDescriptors | registrar/src/oci-gate/oci-layout.ts:233-263 | the loop and its recursion, which terminate on any layout |
| OciGate.GateExactly | registrar/src/oci-gate/gate.ts:164-191 | the gate passes exactly when given one passing layout for each required platform and nothing else, and lists their two descriptors in fixed order |
| OciGate.OrderIrrelevant | registrar/src/oci-gate/gate.ts:164-191 | the order of the inputs does not matter |
| OciGate.ScanMeans | registrar/src/oci-gate/gate.ts:95-156 | a passing layout resolves to exactly one image; attestations, manifest, layers and config are verified, and the entries and the config clean |
| OciMeaning.ScanExactly | registrar/src/oci-gate/gate.ts:95-156 | a layout passes if and only if it loads, its index is non-empty and verified down to its leaves within eight levels, every attestation is verified, and the one image names this platform or none, its manifest is verified and parses, its layers fit, their entries are clean, and its config is verified, is JSON and is clean; and what a passing scan reports, layer and entry counts included |
| OciMeaning.GateOnLayouts | registrar/src/oci-gate/gate.ts:164-191 | the gate passes exactly when given one such layout for linux/amd64 and one for linux/arm64, each with an image that can be listed |
| OciMeaning.AssembleExactly | registrar/src/oci-gate/index-assembly.ts:57-93 | an index is assembled exactly from two well-shaped descriptors the gate scanned, one per platform, and lists them in fixed order |
| OciGate.AssembleIndex | registrar/src/oci-gate/index-assembly.ts:57-93 | shape checks, then one candidate per required platform from the scanned set |
| OciGate.RunContentGate | registrar/src/oci-gate/gate.ts:164-191 | scans, platform checks and assembly in this order |
| MeshKeys.ResyncMeaning | registrar/src/a2a-keys.ts:304-343 | every enrolled bundle lists exactly the active keys of its trusted enrolled peers; per name the token is gone if strict and listed, the stored identity key if dual and trusted, enrolled and without one, else what it was |
| KeyMeaning.ResyncEverywhere | registrar/src/a2a-keys.ts:292-347 | over all devices and tables: every member's document is rebuilt entry by entry, as a new version exactly if that changes it, and nothing else is touched |
| MeshKeys.SecondResyncRotatesNothing | registrar/src/a2a-keys.ts:337-338 | an immediate second call rotates no bundle |
| MeshKeys.StrictStillAccepts | registrar/src/a2a-keys.ts:326-328 | under strict a keyed peer's raw token stays in the tables exactly if the overlap still holds it, in a document that is strict |
| MeshKeys.StrictLeavesNoTokens | registrar/src/a2a-keys.ts:218-242 | where strict may be turned on, no bundle keeps a raw token of a trusted mesh member among its tokens |
| MeshKeys.ReportsNeverReplace | registrar/src/a2a-keys.ts:85-123 | no report changes a key a device already has |
| MeshKeys.OnlyReportedKeys | registrar/src/a2a-keys.ts:85-123 | every key in the table is one its own device reported |
| KeyMeaning.KeyEventMeaning | registrar/src/a2a-keys.ts:85-142 | after each event: whether the device has a row, and each of its columns; no other device's row changes |
| KeyMeaning.ConflictSettled | registrar/src/a2a-keys.ts:245-276 | rejecting a conflict undoes the report that raised it; approving it puts the reported key in, active |
| KeyMeaning.StrictGate | registrar/src/a2a-keys.ts:184-242 | the switch goes on exactly if there is a member and every member has an active key without conflict and a recent report of a running, signing guard on its current bundle; it always goes off |
| MeshKeys.MeshAdmin.ResyncMeshKeys | registrar/src/a2a-keys.ts:292-347 | rotates exactly the changed bundles and counts them |
| MeshKeys.MeshAdmin.SetStrict | registrar/src/a2a-keys.ts:218-242 | on only if there are enrolled devices and all are ready, off always; then a resync |
| MeshKeys.MeshAdmin.RegisterDeviceKey | registrar/src/a2a-keys.ts:85-123 | trust on first use, alarm on a different key, resync only for a key active at once |
| MeshKeys.MeshAdmin.ApproveDeviceKey | registrar/src/a2a-keys.ts:245-261 | swaps a conflicting key in or activates the pending one, then a resync |
| MeshKeys.MeshAdmin.RevokeDeviceKey | registrar/src/a2a-keys.ts:279-285 | removes the row, then a resync |
| EnvFile.EnvUpdateRoundTrip | registrar/src/credential-rotation.ts:763-809 | the value written is the value read back, and every other key reads as before |
| EnvFile.DosLinesAreNotRead | registrar/src/credential-rotation.ts:763-772 | for any content whose lines before the last end in a carriage return, a read returns what the last line holds if that matches, else nothing; with a line end on the last line too, nothing |
| EnvFile.ReadsFirstMatch | registrar/src/credential-rotation.ts:763-772 | a read returns the value of the first matching line, and nothing if none matches |
| EnvFile.UpdateEnv | registrar/src/credential-rotation.ts:775-809 | replaces every line of the key or appends one, and drops blank lines |
| EnvEditor.MergeLookup | registrar/src/structured-fields.ts:226-243 | a merge gives each set key its last value and leaves every other key's value |
| EnvEditor.MergeKeepsOrder | registrar/src/structured-fields.ts:226-243 | every existing line keeps its place, changed only if its key was set |
| EnvSave.SaveMeaning | registrar/src/structured-fields.ts:254-279 | a save of any filled-in form, key by key: each managed key has its trimmed input if that is not blank and extra_env does not set it again, a key extra_env sets has its last value there, every other key what it had; refused exactly at the first line that is neither comment nor assignment; left out exactly if everything is blank |
| EnvSave.SaveReadsBack | registrar/src/structured-fields.ts:226-279 | read back from the file, every key has that value if and only if no input that is written has a line break inside |
| EnvEditor.EditorRoundTrip | registrar/src/structured-fields.ts:159-279 | opening and saving unedited leaves the lines of a file of plain lines as they are if and only if its agent name is the device row's, trimmed, and every key the form shows has the same value on its first and last line |
| EnvEditor.DistinctKeysRoundTrip | registrar/src/structured-fields.ts:159-279 | with distinct keys the lines stay as they are if and only if the agent name is the device row's, trimmed |
| EnvEditor.UneditedValue | registrar/src/structured-fields.ts:159-279 | the value each key has after an unedited save, keys repeated or not: the last one shown, else the one it had |
| EnvEditor.DuplicateKeyChanges | registrar/src/structured-fields.ts:159-279 | an unedited save changes the value of a key other than the agent name if and only if the form shows it and its first line differs from its last |
| EnvEditor.MergeEnvFile | registrar/src/structured-fields.ts:226-243 | the loop over the sections, replacing in place or appending |

## Left out

- Audits, outcome arrays, counters, log lines and error texts: no behaviour depends on them; the router's remarks are kept with a fixed text, because they enter the thread.
- Rate limiters, authentication, loop-form URL checks, the gateway card and user rows of an enroll: checked or written beside the modelled state.
- FleetTheorems.NoFailedSends: does not cover a forced sweep, a strict switch turned off during a run, a strict resync that leaves a rotated agent unlisted at a strict member, a minting re-enroll after a rotation, or overlapping calls, because the property fails there (see the lemmas above); the device presents a key as soon as its bundle is applied, so the restart of its agent is not modelled.
- FleetSafety.Takes: counts a send as going through if the receiver takes the agent's request in either form, unsigned or signed; which form an agent sends is not modelled, so an agent that signs although no receiver lists it yet is not shown as refused.
- Registrar.Registrar.AdvanceRotations: does not model the row without a device; a gateway refusal, an unreachable gateway and a missing creator key are one answer per row.
- MeshKeys.MeshAdmin.ResyncMeshKeys: compares document contents, not JSON text, so a bundle that only gains an explicit `strict: false` or loses an empty object counts as unchanged.
- A2aDoc.RenderA2aJson: absent and empty objects are one, as every reader treats them; unknown keys of the document are not part of the model.
- Bundles.BuildNextBundle: paths that differ as strings count as different files; `a//b` and `a/b` are not identified.
- IdentityStore.Store.ApplyBundle: a rename is atomic and durable; directories, staging files and write errors other than a crash are not part of the model.
- Registrant.Watcher.WatchOnce: the grace poll after a terminal refusal and the clock gate are not part of the model.
- HubRouter.Sweep.RunTick: a board command that fails in mid-tick is not modelled; every single write keeps the lifecycle states. Wake-up texts and the order of the calls are left out.
- HubRuns.RunKeeps: people changing the router's own keys, or the status or assignee of a bead in a stage, are excluded as environment steps.
- GuardVerify.Guard.VerifyCall: integers are plain decimals with a sign, white space is ASCII; the listeners, the legacy bearer path and key files are not part of the model.
- OciGate.ScanPlatform: hashing, gzip, tar, JSON parsing and the secret patterns are opaque functions, so what counts as a finding is not modelled.
- EnvEditor.Save: only the agent.env part of the form; SOUL.md, a2a.json, secrets.env and the key file are replaced whole or merged by name and would only add easy members.
- EnvEditor.PreFill: a device row whose name is blank, where the form falls back to the file's own line, or contains a newline, is not part of the model.
- EnvFile.BundledEnvValue: white space is ASCII.
- HTTP routing, sessions, HTML, uploads, the CDK stack, the AgentCore listener, GitHub identity and memory plugins: wiring.
