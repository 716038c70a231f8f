# Desktop services: a verified model

This project models, in Dafny 4.11, the stateful core of a desktop service library: removable storage over UDisks2, the
Bluetooth service over BlueZ, and the Sway and Hyprland compositor sessions. What each component does is written as
functions on its state; the classes that update state in place are proved to do what those functions say; and what the
components promise is proved about every run of events: D-Bus replies, socket frames, timers and user calls in any order.

`dafny verify dfyconfig.toml` checks everything.

## Layout

- `Prelude`, `Numerals`, `TextSizes`, `StorageTypes`: options, identifiers, string order and sorting, decimal texts, sizes of
  texts, the storage records.
- `RefreshProtocol`: the generation/revision protocol around one snapshot call, proved once and used by both D-Bus
  backends. `LifetimeIds`: identifiers that last as long as their object, also shared by both.
- `BackingChain`: the in-place propagation of drive and loop along backing devices.
- `RecordModel`: the two list models, reconciled in place with row notifications.
- `ControllerSpec`, `ControllerInvariant`, `ControllerGuarantees`, `ControllerDecisions`, `StorageController`: the storage
  transactions.
- `UDisksSpec`, `UDisksInvariant`, `UDisksEffects`, `UDisks2Backend`: the UDisks2 backend.
- `StorageSystem`, `StorageSystemInvariant`, `StorageSystemTheorems`, `StorageProgress`, `StorageModels`, `StorageAnswers`:
  controller and backend together.
- `SwayIpc`, `SwayTree`, `SwayWorkspaces`, `SwayRefresh`: framing, quoting, the layout tree, workspace numbering, and the
  refresh put together from them.
- `WindowActivation`: choosing a window from a process lineage.
- `SwaySession`, `SwayGuarantees`, `SwayCommands`, `SwayEffects`, `SwayBackend`: the Sway request machine.
- `HyprlandSession`, `HyprlandGuarantees`, `HyprlandCommands`, `HyprlandEffects`, `HyprlandBackend`: the Hyprland one.
- `AgentSpec`, `BlueZAgent`: the pairing agent. `BlueZSpec`, `BlueZGuarantees`, `BlueZEffects`, `BlueZBackend`: the BlueZ
  backend. `BluetoothSystem`: agent and backend together.

## How the model works

A state is a datatype; an event that cannot happen leaves it alone; `Run` folds events from the initial state, so a lemma
about `Run(events)` speaks of every reachable state. History that the program does not store is part of the state and only
recorded: the calls in flight with the moment each was sent, every identifier ever drawn, every snapshot emitted, every
command sent. Socket writes and refused commands are outcomes foretold by a list of booleans, universally quantified. A
class holds the program's fields; its `View()` is the state, and each method's contract gives the whole new state as a
function of the old one. What those functions compute is stated a second time without them: in `ControllerDecisions`,
`UDisksEffects`, `StorageModels` and `StorageAnswers` in terms of drives, volumes, paths and replies, and in the three other
`Effects` modules by tables that say for every event what is sent, shown and forgotten.
Identifiers that the program draws at random are parameters required to be unused.

## What the proofs found

- `BlueZAgent::setOwner` does not clear `devices_`. Until the first snapshot of a new owner, and after a removal signal,
  the agent can name a device whose lifetime ID has been retired. `BlueZGuarantees.AgentCanNameARetiredDevice` gives the
  run; `OutdatedExactly` and `AgentNamesRetiredExactly` say, for every run, that this can happen exactly when an event has
  ended one of the agent's IDs since the last refresh that was published or failed.
- Hyprland can forget remembered work. The reply of a command that was running when the event stream broke arrives in the
  Idle phase and drains nothing (`HyprlandGuarantees.RefreshCanBeForgotten`); and a command that the transport refuses ends
  what was being done without draining (`RefusalCanStick`). `StuckExactly` and `NeverStuckExactly` give the exact
  condition, for every transport.
- The pattern for passkeys also accepts one trailing line feed, which the number conversion then ignores
  (`AgentSpec.LineFeedIsAccepted`); `PasskeyExactly` says what is accepted, `PasskeyWasTyped` that the number sent is the one
  whose digits were typed all the same.

## Model

| member | source | states |
|---|---|---|
| Numerals.SingleDigits | src/bluetooth/BlueZAgent.cpp:65 | the ten digits spell the numbers from 0 to 9 |
| Numerals.NumberOfJoined | src/bluetooth/BlueZAgent.cpp:65 | the positional law: digits in front count ten times as much for each digit behind them |
| Numerals.DecimalIsReadBack | src/compositor/SwayBackend.cpp:69-70 | the decimal text of a number, with zeros in front or not, spells that number |
| Numerals.DigitsAreDecimal | src/compositor/HyprlandBackend.cpp:408-409 | every string of digits is such a text |
| TextSizes.SizesAddUp | src/compositor/WindowActivation.cpp:14-16 | the sizes of joined texts add up, in UTF-16 units and in UTF-8 bytes |
| TextSizes.SingleCharacters | src/compositor/WindowActivation.cpp:14-16 | how many units and bytes a letter, an accented letter, another sign and an emoji take |
| Numerals.IntegerIsDecimal | src/compositor/SwayIpc.cpp:221-231 | the decimal text of an integer is the one text with a sign for a negative number and its digits without zeros in front |
| BackingChain.FirstMarkMeaning | src/storage/UDisks2Backend.cpp:276-295 | the first marked volume found by following backing links is the one reached by the fewest hops, itself included |
| BackingChain.FirstMarkBounded | src/storage/UDisks2Backend.cpp:276 | in a list of n volumes the first marked one on a chain or cycle is fewer than n hops away, so n passes suffice |
| BackingChain.PropagatedUnique | src/storage/UDisks2Backend.cpp:274-295 | nearest drive and any loop on the chain determine the result completely |
| BackingChain.PropagatedIsStable | src/storage/UDisks2Backend.cpp:276-295 | a further pass over the result changes nothing |
| BackingChain.PropagateBacking | src/storage/UDisks2Backend.cpp:274-295 | for unique IDs and any links, the in-place loop gives each volume the drive of the nearest volume on its chain that had one and marks it loop exactly if some volume there was |
| BackingChain.PropagatePass | src/storage/UDisks2Backend.cpp:277-294 | one pass stays sound, moves marks one hop further, and reports truly whether anything changed |
| RecordModel.ReconciledMeaning | src/storage/StorageVolumeModel.cpp:94-124 | survivors in old order, then unseen identities in order of first appearance, each row with the latest record, identities unique even for input with duplicates |
| RecordModel.ReconciledMembers | src/storage/StorageDriveModel.cpp:73-103 | for input without duplicates the model afterwards holds exactly the input's records |
| RecordModel.ListModel.FindItem | src/storage/StorageVolumeModel.cpp:86-93 | the first record with the identity, or nothing when no record has it |
| RecordModel.ListModel.Apply | src/storage/StorageVolumeModel.cpp:94-124 | the list becomes the reconciled list, and replaying the emitted row notifications on the old list gives the new one |
| RecordModel.ListModel.RemoveAbsent | src/storage/StorageDriveModel.cpp:75-88 | the backward loop leaves exactly the survivors in order and announces each removal by a valid row |
| RecordModel.ListModel.UpsertAll | src/storage/StorageDriveModel.cpp:89-102 | the second loop overwrites known rows and appends the others, announced so that a view follows |
| RefreshProtocol.EveryRunIsFaithful | src/storage/UDisks2Backend.cpp:105-177 | in every run: refreshing holds exactly when one current call is in flight, a reply is used exactly when nothing changed since its call, and with an owner a call is in flight or the data shown postdates the last change |
| RefreshProtocol.EveryRunKeepsInvariant | src/bluetooth/BlueZBackend.cpp:92-194 | the inductive invariant behind it, over owner changes, changes, replies, start and stop |
| RefreshProtocol.OwnerDecides | src/storage/UDisks2Backend.cpp:105-116 | an owner event begins a generation, withdraws, and asks anew exactly if there is an owner |
| RefreshProtocol.ChangeDecides | src/storage/UDisks2Backend.cpp:131-147 | a change makes calls in flight too old and asks anew exactly if started, owned and no call is in flight |
| RefreshProtocol.ReplyDecides | src/storage/UDisks2Backend.cpp:148-176 | a reply of an earlier generation is nothing, an overtaken one asks anew, any other is shown or withdraws |
| LifetimeIds.PublishingKeepsSound | src/storage/UDisks2Backend.cpp:179-204 | after a publication no identifier belongs to two keys and the table holds drawn identifiers only |
| LifetimeIds.PublishingRespects | src/storage/UDisks2Backend.cpp:179-204 | a publication never revives an identifier that had left the table |
| ControllerSpec.RemovalScopeMeaning | src/storage/StorageController.cpp:70-91 | a target is in the removal scope exactly if it is the drive, for power-off a drive with the same non-empty sibling ID, or a volume on one of these |
| ControllerInvariant.BeginKeeps | src/storage/StorageController.cpp:100-171 | beginning a request keeps every invariant, disjoint scopes included |
| ControllerInvariant.AdvanceKeeps | src/storage/StorageController.cpp:174-216 | advancing keeps every invariant; what is sent is the next action of the plan |
| ControllerInvariant.SettleKeeps | src/storage/StorageController.cpp:21-41 | handling a backend result keeps every invariant |
| ControllerInvariant.TakeSnapshotKeeps | src/storage/StorageController.cpp:45-66 | taking a snapshot keeps every invariant; an unavailable one leaves nothing reserved |
| ControllerGuarantees.AdvanceIsJustified | src/storage/StorageController.cpp:181-214 | an Eject or PowerOff handed out finds the scope unchanged since begin, the drive capable and nothing on any affected drive mounted |
| ControllerGuarantees.SettleRetiresTheStep | src/storage/StorageController.cpp:21-41 | once answered, a step is awaited by no request |
| ControllerGuarantees.RetiredReplyChangesNothing | src/storage/StorageController.cpp:29-31 | a late or repeated reply changes nothing |
| ControllerGuarantees.BusyMeansOneHolder | src/storage/StorageController.cpp:67-69 | a busy target is held by exactly one request, and nothing is busy while the service is unavailable |
| ControllerDecisions.ScopeIsWhatIsAffected | src/storage/StorageController.cpp:70-91 | a removal affects the drives that go away and the volumes on them; a mount or unmount its volume and the drive of it |
| ControllerDecisions.ScopeListsEachOnce | src/storage/StorageController.cpp:78-90 | with drives and volumes under different IDs, scope and unmounts list each ID once |
| ControllerDecisions.BeginDecides | src/storage/StorageController.cpp:100-171 | what begin fixes: scope, plan, and the reason to refuse: busy, unknown, wrongly confirmed, lacking canEject, canPowerOff, canMount or canUnmount, or unavailable, in this order; a refused request reserves nothing |
| ControllerDecisions.AdvanceDecides | src/storage/StorageController.cpp:174-216 | which command comes next or which error ends the request, from the drives and volumes known now |
| ControllerDecisions.DequeueDecides | src/storage/StorageController.cpp:160-169 | the callback reports the refusal under its full name or takes the first step |
| ControllerDecisions.SettleDecides | src/storage/StorageController.cpp:21-41 | a result ends its request with its error, ends it with the mount path after the last step, or takes the next step |
| ControllerDecisions.WithdrawalDecides | src/storage/StorageController.cpp:45-66 | without the service nothing is known and every request is reported as Unavailable |
| ControllerDecisions.SnapshotDecides | src/storage/StorageController.cpp:45-57 | an available snapshot replaces what is known and touches no request |
| StorageController.Controller.IsBusy | src/storage/StorageController.cpp:67-69 | true exactly if some pending request's scope contains the target |
| StorageController.Controller.RemovalScopeOf | src/storage/StorageController.cpp:70-91 | the loops compute the removal scope of the specification, sorted |
| StorageController.Controller.Examine | src/storage/StorageController.cpp:110-153 | the scope and the refusal of the specification, in the order in which later checks override earlier ones |
| StorageController.Controller.Begin | src/storage/StorageController.cpp:100-171 | the new state is the specification's: request registered, callback queued, refused requests reserving nothing; nothing is reported |
| StorageController.Controller.Advance | src/storage/StorageController.cpp:174-216 | sends what the specification sends, or finishes with its error; the signals emitted are exactly the reports on record, each request at most once |
| StorageController.Controller.Finish | src/storage/StorageController.cpp:217-228 | takes the request out and emits its result, once; nothing for an unknown request |
| StorageController.Controller.OnQueued | src/storage/StorageController.cpp:160-169 | the zero-delay callback fails or advances a request that is still there; the signals emitted stay exactly the reports on record |
| StorageController.Controller.OnOperationFinished | src/storage/StorageController.cpp:21-41 | finishes with the error, finishes the last step, or advances the one request that awaits the step; the signals emitted stay exactly the reports on record |
| StorageController.Controller.OnSnapshot | src/storage/StorageController.cpp:45-66 | reconciles both lists and, when unavailable, finishes every request; the signals emitted stay exactly the reports on record, earlier ones first |
| UDisksEffects.PublishedShowsReply | src/storage/UDisks2Backend.cpp:205-296 | a snapshot shows exactly the drives and block devices of the reply with their own fields, and inherits drive and loop along backing devices |
| UDisksEffects.ShownVolumesStandForObjects | src/storage/UDisks2Backend.cpp:238-271 | each volume has the mount points of its object, can be mounted exactly with a filesystem mounted nowhere and unmounted exactly with one mounted somewhere, and every block device has its volume |
| UDisksEffects.StartDecides | src/storage/UDisks2Backend.cpp:52-68 | starting asks for the owner once, in the present generation |
| UDisksEffects.NameAnswerDecides | src/storage/UDisks2Backend.cpp:63-86 | the owner becomes the one named, or the service name when nobody owns it; another error withdraws without an owner |
| UDisksEffects.OwnerEventDecides | src/storage/UDisks2Backend.cpp:87-116 | between start and stop an owner change drops and withdraws everything; stopping leaves no owner |
| UDisksEffects.RemovalDecides | src/storage/UDisks2Backend.cpp:120-125 | exactly the interfaces named at exactly this path lose their IDs |
| UDisksEffects.SnapshotReplyDecides | src/storage/UDisks2Backend.cpp:148-204 | a reply is used exactly when it is current and nothing changed since its call; then the table names its interfaces and the held results follow the snapshot, checked once more |
| UDisksEffects.ExecuteDecides | src/storage/UDisks2Backend.cpp:300-340 | a call goes to the path that has the ID for the interface of the operation, if there is an owner and such a path; otherwise Disappeared is queued |
| UDisksEffects.ExpiryDecides | src/storage/UDisks2Backend.cpp:315-320 | a queued failure is reported once, as it was queued |
| UDisksEffects.OperationReplyDecides | src/storage/UDisks2Backend.cpp:341-362 | what is held back carries the error name of the reply, or success and for a mount the path, or Disappeared when the mounted volume is gone |
| UDisks2Backend.Backend.SetOwner | src/storage/UDisks2Backend.cpp:105-116 | new generation, table and held results dropped, everything withdrawn, a refresh asked for |
| UDisks2Backend.Backend.OnInterfacesRemoved | src/storage/UDisks2Backend.cpp:120-125 | the loop removes exactly the announced keys, then a change is noted |
| UDisks2Backend.Backend.OnSnapshotReply | src/storage/UDisks2Backend.cpp:148-176 | drops, repeats, fails or publishes as the protocol decides, then delivers the held results behind the snapshot |
| UDisks2Backend.Backend.Publish | src/storage/UDisks2Backend.cpp:188-297 | the table becomes that of the snapshot and the emitted volumes are the decoded ones with drive and loop inherited |
| UDisks2Backend.Backend.Execute | src/storage/UDisks2Backend.cpp:300-340 | sends the call to the path of a live target, or queues the failure Disappeared |
| UDisks2Backend.Backend.OnOperationReply | src/storage/UDisks2Backend.cpp:341-362 | a current reply is judged, held back and noted as a change; an old one is dropped |
| UDisksInvariant.PublishedVolumes | src/storage/UDisks2Backend.cpp:205-296 | published volume IDs are unique and the propagation is the chain specification applied to the decoded volumes |
| UDisksInvariant.ResultsFollowFreshTopology | src/storage/UDisks2Backend.cpp:166-175 | each result follows an available snapshot asked for after its reply arrived, and a reported mount targets a volume of it |
| StorageSystemTheorems.EveryRunKeepsInvariant | src/storage/StorageController.cpp:18-43 | controller, backend and their link keep their joint invariant over every run |
| StorageSystemTheorems.NoRequestIsOrphaned | src/storage/UDisks2Backend.cpp:300-363 | every pending request waits for its callback, a current call in flight, a held result while a refresh is under way, or a queued failure |
| StorageSystemTheorems.StaleRepliesHaveNoWaiter | src/storage/UDisks2Backend.cpp:345-347 | a call of an earlier generation belongs to a step nobody awaits |
| StorageSystemTheorems.DroppingAnswersRetiresRequests | src/storage/UDisks2Backend.cpp:78-116 | owner change, a first owner answered, stop and failed refresh drop the held results and finish every request in the same event |
| StorageSystemTheorems.RetiredIdsNeverReturn | src/storage/UDisks2Backend.cpp:198-204 | an ID that left the table is in it at no later time |
| StorageSystemTheorems.IdsAreNeverShared | src/storage/UDisks2Backend.cpp:179-185 | no two object interfaces get the same ID in a run |
| StorageSystemTheorems.CommandsArePrefixOfPlan | src/storage/StorageController.cpp:130-134 | the commands of a request are a prefix of the plan fixed at begin, each after the success of the previous, and none after it is closed |
| StorageSystemTheorems.ReportedExactlyOnce | src/storage/StorageController.cpp:217-228 | each request is pending or reported exactly once, and a report never changes |
| StorageSystemTheorems.EveryCommandIsJustified | src/storage/StorageController.cpp:181-214 | over whole runs, every command continues its plan and every removal hits an unchanged, capable, unmounted scope, for power-off the one confirmed |
| StorageSystemTheorems.EveryCommandWasAllowed | src/storage/StorageController.cpp:181-214 | over whole runs, an Eject found its drive ejectable, a PowerOff found it able to power off, and a Mount or Unmount found its volume, which can be unmounted when a removal unmounts it |
| StorageSystemTheorems.OneHolderPerTarget | src/storage/StorageController.cpp:149-157 | scopes of pending requests are disjoint in every run |
| StorageSystemTheorems.LateRepliesChangeNothing | src/storage/StorageController.cpp:29-31 | a reply to a retired step has no effect at any later time |
| StorageSystemTheorems.ResultsFollowFreshTopology | src/storage/UDisks2Backend.cpp:131-176 | every delivery of every run follows fresh topology |
| StorageSystemTheorems.UDisksRefreshIsFaithful | src/storage/UDisks2Backend.cpp:105-177 | the UDisks2 backend is an instance of the refresh protocol in every run |
| StorageSystemTheorems.CallsGoToTheirTarget | src/storage/UDisks2Backend.cpp:300-340 | in every run, an operation call in flight went to the one object interface its target's ID was ever made for |
| StorageProgress.EachResultIsProgress | src/storage/StorageController.cpp:21-41 | the result a request awaits brings it closer to its end, whatever it says, and moves no other request; so a request ends after at most as many results as its plan has actions |
| StorageProgress.BegunRequestNeedsItsPlan | src/storage/StorageController.cpp:130-171 | a request just begun needs as many results as its plan has actions |
| StorageProgress.HeldResultsAwaitACall | src/storage/UDisks2Backend.cpp:341-362 | while results are held back a snapshot call of the present generation is in flight |
| StorageProgress.HeldResultsAreDelivered | src/storage/UDisks2Backend.cpp:148-176 | in every run, if nothing else changes, at most two successful snapshot replies deliver every held result, and nobody awaits one of them afterwards |
| StorageModels.ModelsShowTheSnapshot | src/storage/StorageController.cpp:45-66 | in every run, after a publication and all it sets off the models hold exactly the drives and volumes published |
| StorageModels.ModelsShowTheReply | src/storage/UDisks2Backend.cpp:205-297 | in every run, after a publication the controller knows exactly the drives and block devices of the reply, with the fields of their objects and the IDs of their interfaces |
| StorageModels.VolumesStandForObjects | src/storage/UDisks2Backend.cpp:238-271 | in every run, each volume known after a publication has the mount points and capabilities of one block device of the reply, and each block device has its volume |
| StorageModels.ScopesListEachOnce | src/storage/StorageController.cpp:78-90 | in every run, what a removal affects is sorted and lists each ID once |
| StorageModels.TableIsTheSnapshot | src/storage/UDisks2Backend.cpp:188-204 | in every run, once a publication and all it sets off is over, the table names exactly the reply's Drive and Block interfaces, those known before under their old IDs |
| StorageAnswers.StepsAreAnsweredOnce | src/storage/UDisks2Backend.cpp:341-345 | in every run, no step is answered twice |
| StorageAnswers.HeldResultsSayWhatWasAnswered | src/storage/UDisks2Backend.cpp:348-360 | in every run, a result held back says what the reply to its call said, or that the mounted volume is gone |
| StorageAnswers.CountedStepsSucceeded | src/storage/StorageController.cpp:33-40 | in every run, a step counted as done was answered with success and never with an error |
| StorageAnswers.ReportsSayWhatWasAnswered | src/storage/StorageController.cpp:217-228 | in every run, a report names its request, target and operation; it says success only after the whole plan, with the path the mount was answered with; an error not of the component itself is the one the last command was answered with |
| SwayIpc.ChunksDoNotMatter | src/compositor/SwayIpc.cpp:130-159 | however a stream is cut, the frames and the error are those of decoding it whole |
| SwayIpc.StreamsAreReadOnce | src/compositor/SwayIpc.cpp:161 | taking the frames out after every chunk yields the frames of the whole stream in order |
| SwayIpc.DrainIsLossless | src/compositor/SwayIpc.cpp:135-157 | frames decoded and bytes kept are together exactly what was received; after success the rest holds no complete frame and no bad header |
| SwayIpc.EncodedStreamsRoundTrip | src/compositor/SwayIpc.cpp:119-159 | any number of encoded frames of up to 8 MiB, cut in any way, decode to exactly those frames with nothing left |
| SwayIpc.FrameIsItsEncoding | src/compositor/SwayIpc.cpp:119-128 | an accepted frame re-encodes to the very bytes it was read from |
| SwayIpc.FrameLayout | src/compositor/SwayIpc.cpp:119-128 | byte by byte: the six bytes i3-ipc, the length and the type lowest byte first, the payload |
| SwayIpc.HeaderDecides | src/compositor/SwayIpc.cpp:137-146 | a header is good exactly if it begins with i3-ipc and announces at most 8 MiB; the magic is judged first |
| SwayIpc.NumberRoundTrip | src/compositor/SwayIpc.cpp:124-125 | little-endian numbers are written and read back unchanged |
| SwayIpc.SwayIpcDecoder.Append | src/compositor/SwayIpc.cpp:130-159 | the loop drains the buffer as specified and reports success exactly when there is no error |
| SwayIpc.TwoPassesEscapeEach | src/compositor/SwayIpc.cpp:163-168 | the two whole-string replacements equal escaping each character once |
| SwayIpc.UnescapeInvertsEscape | src/compositor/SwayIpc.cpp:163-168 | unescaping gives back every name |
| SwayIpc.QuotedNameIsRecovered | src/compositor/SwayIpc.cpp:163-168 | a reader that knows backslashes recovers the name and stops at the closing quote, whatever follows |
| SwayIpc.CommandNamesTheWorkspace | src/compositor/SwayBackend.cpp:69-72 | the command text names exactly the workspace asked for and ends there |
| SwayTree.PositiveIntegerMeaning | src/compositor/SwayIpc.cpp:18-30 | a number is accepted exactly if it is a whole number from 1 to the type's maximum |
| SwayTree.WindowExactly | src/compositor/SwayIpc.cpp:32-51 | a node is a native window exactly if it is a container with both child lists there and empty, an application ID, the xdg shell, and whole numbers in range as process and ID |
| SwayTree.ActivationExactly | src/compositor/SwayIpc.cpp:94-104 | any container with whole numbers in range as process and ID can be activated |
| SwayTree.ActiveWindowExactly | src/compositor/SwayIpc.cpp:59-66 | the active window shows its application ID, or its X11 class without one |
| SwayTree.PathsFromTheRoot | src/compositor/SwayIpc.cpp:108-115 | the paths the walk enumerates are exactly those along child objects |
| SwayTree.WalkFollowsPaths | src/compositor/SwayIpc.cpp:70-116 | the one-pass walk records, path by path, what the path alone determines |
| SwayTree.OccupiesExactly | src/compositor/SwayIpc.cpp:53-68 | a path occupies a workspace exactly if it ends in a container without children, the nearest workspace on it has that name, and none on it is the scratchpad |
| SwayTree.FocusesExactly | src/compositor/SwayIpc.cpp:59-66 | and it is active on the nearest output exactly if it is focused |
| SwayTree.FullscreenExactly | src/compositor/SwayIpc.cpp:70-92 | fullscreen comes from any container on the path in mode 1 or 2 |
| SwayTree.OccupiedExactly | src/compositor/SwayIpc.cpp:53-68 | a workspace is occupied exactly if a childless container has it as nearest workspace and no scratch workspace above |
| SwayTree.WindowsExactly | src/compositor/SwayIpc.cpp:32-51 | the windows are exactly the native leaf windows, each fullscreen exactly if it or a container above has mode 1 or 2 |
| SwayTree.WindowInventoryIsSubsequence | src/compositor/SwayIpc.cpp:94-104 | by ID and process the window inventory is a subsequence of the activation inventory |
| SwayTree.ActiveExactly | src/compositor/SwayIpc.cpp:59-66 | an output shows the last focused container of the walk that occupies a workspace there, and otherwise nothing |
| SwayTree.TreeInspector.Inspect | src/compositor/SwayIpc.cpp:70-116 | the recursive method over mutable accumulators leaves what the walk function yields |
| SwayTree.TreeInspector.Project | src/compositor/SwayIpc.cpp:53-68 | marks the workspace occupied and the output's active window under exactly the stated conditions |
| SwayWorkspaces.ProjectWorkspaces | src/compositor/SwayIpc.cpp:211-245 | workspaces in order with occupancy; slots eligible exactly if every name is its own positive number and no number repeats; both tables hold the last claim of each identifier |
| SwayWorkspaces.KeptOne | src/compositor/SwayIpc.cpp:215-218 | a workspace is left out exactly if it is unnamed or the scratchpad |
| SwayWorkspaces.KeptJoined | src/compositor/SwayIpc.cpp:215-218 | what is kept of a list is kept piece by piece and in order |
| SwayWorkspaces.ProjectedShows | src/compositor/SwayIpc.cpp:235-244 | which field of the reply each field shown comes from |
| SwayWorkspaces.IdentifiersApart | src/compositor/SwayIpc.cpp:222-224 | two workspaces share an identifier exactly if they share the ID, or have none and share the name |
| SwayWorkspaces.EligibleExactly | src/compositor/SwayIpc.cpp:228-234 | slots may be used exactly if every kept workspace is named by the digits of its own positive number |
| SwayWorkspaces.EligibleSlotsNameWorkspaces | src/compositor/SwayIpc.cpp:227-234 | when eligible, both tables have the same identifiers, each name is the decimal text of its slot, and slots differ exactly as names do |
| Numerals.DecimalIsInjective | src/compositor/SwayIpc.cpp:231 | different numbers have different decimal texts |
| SwayRefresh.Parse | src/compositor/SwayIpc.cpp:170-252 | one unusable reply fails the whole refresh; otherwise windows and occupancy are those of the tree, the tables hold the last claims, and the first focused output is named |
| SwayRefresh.FirstFocusedExactly | src/compositor/SwayIpc.cpp:203-209 | the focused output is the first one that says so, or none |
| SwayRefresh.ActivatableIsInTheTree | src/compositor/SwayIpc.cpp:94-104 | every window that can be activated stands at the end of a path of the tree, with that process, title and container |
| SwayRefresh.ParsedTablesAgree | src/compositor/SwayIpc.cpp:211-234 | when slots may be used, names and slots belong to the same workspaces and each name is its slot's decimal text |
| WindowActivation.IsValid | src/compositor/WindowActivation.cpp:12-21 | 1 to 64 non-zero lineage entries, a title hint of at most 512 UTF-16 units and UTF-8 bytes without a null |
| WindowActivation.ValidExactly | src/compositor/WindowActivation.cpp:12-21 | 1 to 64 non-zero processes, and a title without a null of at most 512 units and bytes |
| WindowActivation.ResolvedByProcessAndTitle | src/compositor/WindowActivation.cpp:23-74 | the windows of the first process that has any decide: the only one, or the only one with the title asked for; otherwise Ambiguous, or Missing when none has that title |
| TextSizes.UnitsBoundedByBytes | src/compositor/WindowActivation.cpp:12-21 | a title never has more units than bytes, so the first of the two size tests rejects nothing of its own |
| WindowActivation.Resolve | src/compositor/WindowActivation.cpp:23-74 | accepted with a candidate exactly if it is alone at the earliest matched process, or alone there with the given title; Missing and Ambiguous as specified |
| WindowActivation.PreferredMatches | src/compositor/WindowActivation.cpp:35-48 | the scan finds all and only the candidates of the earliest matched process, in order |
| WindowActivation.LineagePositions | src/compositor/WindowActivation.cpp:29-33 | each process is mapped to its first position |
| WindowActivation.ResolutionIsUnique | src/compositor/WindowActivation.cpp:23-74 | the specification admits one resolution only |
| WindowActivation.CandidateOrderIsIrrelevant | src/compositor/WindowActivation.cpp:37-48 | rearranging candidates only re-indexes the choice |
| WindowActivation.RepetitionKeepsOrder | src/compositor/WindowActivation.cpp:31-33 | writing a process again later keeps the order of first appearances |
| WindowActivation.RepetitionIsIrrelevant | src/compositor/WindowActivation.cpp:29-74 | requests with the same order of first appearances are resolved alike while both are valid |
| SwayGuarantees.EveryRunKeepsInvariant | src/compositor/SwayBackend.cpp:38-325 | the joint invariant over connects, losses, timers, replies, events and requests |
| SwayGuarantees.WorkIsConserved | src/compositor/SwayBackend.cpp:87-108 | while connected, an event newer than the latest refresh start has the timer, a remembered refresh or an activation behind it, and an idle machine with work queued has its timer running |
| SwayGuarantees.OwedRefreshStarts | src/compositor/SwayBackend.cpp:174-265 | if nothing more is asked for, at most eight answers and timeouts later a refresh was started or the connection was lost |
| SwayGuarantees.OneCommandOutstanding | src/compositor/SwayBackend.cpp:122-172 | away from Idle exactly one command is outstanding, issued by the phase, in this session, with the kind the phase awaits |
| SwayGuarantees.SnapshotsComeFromOneRefresh | src/compositor/SwayBackend.cpp:97-192 | every connected snapshot is built from the replies to three consecutive commands of one session |
| SwayGuarantees.NothingFromEarlierSessions | src/compositor/SwayBackend.cpp:294-317 | names and windows that can be activated come from a snapshot of the present session |
| SwayGuarantees.AcceptedWindowIsUnderWay | src/compositor/SwayBackend.cpp:206-242 | Accepted means exactly the resolved window was sent or queued, Busy that the slot was taken, anything else that nothing was sent |
| SwayGuarantees.AcceptedWindowIsInTheLastTree | src/compositor/SwayBackend.cpp:206-231 | in every run, a window that is accepted stands in the layout tree last received, with the container to be focused and a process of the lineage asked for |
| SwayGuarantees.SlotsNameWorkspaces | src/compositor/SwayBackend.cpp:174-192 | in every run, when slots may be used each stands for the workspace named by its decimal text and for no other |
| SwayGuarantees.OneThingIsStarted | src/compositor/SwayBackend.cpp:244-265 | whatever becomes of the writes, a machine that becomes free attempts exactly one thing, window before workspace before refresh, and the rest stays queued |
| SwayGuarantees.LatestWorkspaceWins | src/compositor/SwayBackend.cpp:57-64 | of any sequence of workspaces asked for while busy only the latest is kept |
| SwayGuarantees.DrainKeeps | src/compositor/SwayBackend.cpp:244-265 | draining from any settled state, through any failing writes, restores the invariant; the mutual recursion with dispatch ends because each round empties a slot |
| SwayCommands.MessageIsReadBack | src/compositor/SwayBackend.cpp:69-82 | by its type and text every message is read back as the query or activation it was made for |
| SwayEffects.DisconnectingTwiceIsOnce | src/compositor/SwayBackend.cpp:300-304 | a session that has ended is not ended again |
| SwayEffects.EveryEventDoesItsPart | src/compositor/SwayBackend.cpp:38-325 | in every run, whichever writes fail, each event tries exactly the commands of the tables, publishes exactly their snapshots and one more per failed write, ends the session exactly when they say so, queues what they say, and leaves known what the snapshots say |
| SwayBackend.SwayBackend.DrainWork | src/compositor/SwayBackend.cpp:244-265 | window, then workspace, then refresh; decreases the number of filled slots |
| SwayBackend.SwayBackend.DispatchActivation | src/compositor/SwayBackend.cpp:57-80 | sends, queues, ignores or gives up on an activation as specified |
| SwayBackend.SwayBackend.ScheduleRefresh | src/compositor/SwayBackend.cpp:87-95 | remembers the refresh when not idle, else starts the timer |
| SwayBackend.SwayBackend.BeginRefresh | src/compositor/SwayBackend.cpp:97-108 | starts a refresh only when connected and idle; a failed write ends the session |
| SwayBackend.SwayBackend.HandleRequestFrame | src/compositor/SwayBackend.cpp:139-172 | an unexpected kind ends the session; an expected one moves the phase as specified |
| SwayBackend.SwayBackend.FinishRefresh | src/compositor/SwayBackend.cpp:174-192 | installs a parsed refresh or fails, then drains |
| SwayBackend.SwayBackend.FinishActivation | src/compositor/SwayBackend.cpp:194-204 | reports a failure, remembers a refresh, drains |
| SwayBackend.SwayBackend.DisconnectSession | src/compositor/SwayBackend.cpp:300-325 | forgets the session, publishes offline, and schedules one reconnect with doubled delay up to 30 seconds |
| SwayBackend.SwayBackend.HandleSubscriptionFrame | src/compositor/SwayBackend.cpp:273-291 | the first frame must accept the subscription, later ones must be events; each event schedules a refresh |
| SwayBackend.SwayBackend.RequestWindowActivation | src/compositor/SwayBackend.cpp:206-231 | the outcome and state specified for the one resolution of the request |
| HyprlandGuarantees.EveryRunKeepsInvariant | src/compositor/HyprlandBackend.cpp:128-432 | the joint invariant over stream events, command completions and requests |
| HyprlandGuarantees.PhaseOwnsItsCommand | src/compositor/HyprlandBackend.cpp:154-242 | away from Idle the running command was issued in the present phase of the present session |
| HyprlandGuarantees.SnapshotsComeFromOneRefresh | src/compositor/HyprlandBackend.cpp:169-210 | every connected snapshot is built from three consecutive commands of one session |
| HyprlandGuarantees.LeftoverNeverAdvances | src/compositor/HyprlandBackend.cpp:188-242 | a reply left over from before a disconnect meets the Idle phase, stores nothing and advances no refresh |
| HyprlandGuarantees.NothingFromEarlierSessions | src/compositor/HyprlandBackend.cpp:140-147 | workspaces and windows that can be activated by name were learnt since the stream last broke |
| HyprlandGuarantees.AcceptedWindowIsUnderWay | src/compositor/HyprlandBackend.cpp:367-386 | Accepted means exactly the resolved window is being focused or is queued; Busy that the slot was taken |
| HyprlandGuarantees.OneThingIsStarted | src/compositor/HyprlandBackend.cpp:257-278 | whatever the transport refuses, a machine that becomes free attempts exactly one thing, window before workspace before refresh, with a command that focuses exactly it; the rest stays queued |
| HyprlandGuarantees.StuckExactly | src/compositor/HyprlandBackend.cpp:188-278 | for every transport, an event leaves remembered work stuck exactly when a reply drains nothing in the Idle phase with something remembered, or a refused command is the last thing attempted |
| HyprlandGuarantees.NeverStuckExactly | src/compositor/HyprlandBackend.cpp:257-278 | for every transport, nothing is ever stuck in a run exactly when none of its events does that |
| HyprlandGuarantees.RefreshCanBeForgotten | src/compositor/HyprlandBackend.cpp:140-147 | the concrete run in which a refresh is forgotten |
| HyprlandGuarantees.RefusalCanStick | src/compositor/HyprlandBackend.cpp:194-205 | the concrete run in which a refused follow-up query leaves a refresh stuck, though no reply meets the Idle phase |
| HyprlandCommands.TextIsReadBack | src/compositor/HyprlandBackend.cpp:280-317 | every command text, the Lua forms with escaped names included, is read back as the command it was made for |
| HyprlandCommands.CommandsFitTheirTarget | src/compositor/HyprlandBackend.cpp:300-317 | in every run, during an activation the running command focuses exactly the workspace or window the activation is about, by number, by the name behind the prefix, or by address |
| HyprlandCommands.ReadsAsIntExactly | src/compositor/HyprlandBackend.cpp:408-411 | an identifier counts as a number exactly if it is blanks, maybe a sign, digits that fit 32 bits, and blanks |
| HyprlandCommands.SlotsAreNumbers | src/compositor/HyprlandBackend.cpp:393-397 | the text of a slot is such a number and no special name |
| HyprlandEffects.EveryEventDoesItsPart | src/compositor/HyprlandBackend.cpp:128-432 | in every run, whatever the transport refuses, each event attempts exactly the command of the table, publishes exactly its snapshot and one more when refused, queues what it says, and leaves known what the snapshots say |
| HyprlandBackend.HyprlandBackend.ScheduleRefresh | src/compositor/HyprlandBackend.cpp:154-167 | remembers the refresh when busy, else schedules it once |
| HyprlandBackend.HyprlandBackend.BeginRefresh | src/compositor/HyprlandBackend.cpp:169-179 | starts a refresh only when free; a refused query ends it |
| HyprlandBackend.HyprlandBackend.HandleCommand | src/compositor/HyprlandBackend.cpp:188-242 | each completion moves the phase machine as specified, Idle ones not at all |
| HyprlandBackend.HyprlandBackend.HandleCommandFailure | src/compositor/HyprlandBackend.cpp:244-255 | publishes offline, remembers a refresh after activations, drains |
| HyprlandBackend.HyprlandBackend.DrainWork | src/compositor/HyprlandBackend.cpp:257-278 | window, then workspace, then refresh |
| HyprlandBackend.HyprlandBackend.DispatchWorkspace | src/compositor/HyprlandBackend.cpp:406-427 | ignores identifiers that are neither special nor numeric, queues when busy, else focuses the number or toggles the special workspace |
| HyprlandBackend.HyprlandBackend.ActivateNumberedSlot | src/compositor/HyprlandBackend.cpp:393-397 | dispatches the decimal text of a positive slot and ignores any other |
| HyprlandBackend.HyprlandBackend.PublishClients | src/compositor/HyprlandBackend.cpp:319-365 | installs names, candidates and addresses and publishes, or fails |
| HyprlandBackend.HyprlandBackend.StreamDisconnected | src/compositor/HyprlandBackend.cpp:140-147 | forgets queued work and windows, returns to Idle, leaves the running command running |
| HyprlandBackend.HyprlandBackend.RequestWindowActivation | src/compositor/HyprlandBackend.cpp:367-386 | the outcome and state specified for the one resolution of the request |
| AgentSpec.EveryRunKeepsInvariant | src/bluetooth/BlueZAgent.cpp:13-80 | calls, interactions, devices and displays keep their invariants over every run |
| AgentSpec.CallsAreAnsweredOnce | src/bluetooth/BlueZAgent.cpp:27-74 | every agent call waits in exactly one entry or was answered exactly once |
| AgentSpec.InteractionsEndOnce | src/bluetooth/BlueZAgent.cpp:54-74 | every interaction is pending or was announced as over exactly once |
| AgentSpec.AnswerLeavesExactlyWhenValid | src/bluetooth/BlueZAgent.cpp:54-74 | an accepted entry stays exactly when its input is invalid; otherwise it leaves and its waiting call gets that answer: the PIN as typed, the number whose digits were typed, or no argument |
| AgentSpec.PasskeyExactly | src/bluetooth/BlueZAgent.cpp:62-66 | a passkey is accepted exactly if it is one to six digits, or these followed by one line feed |
| AgentSpec.LineFeedIsAccepted | src/bluetooth/BlueZAgent.cpp:62-66 | the input that is not all digits and is sent as the number 1 |
| AgentSpec.PasskeyIsSent | src/bluetooth/BlueZAgent.cpp:62-66 | typing the digits of a number, with zeros in front or a line feed behind, sends that number |
| AgentSpec.PasskeyWasTyped | src/bluetooth/BlueZAgent.cpp:62-66 | and nothing else is accepted: the number sent is below a million and its digits were typed |
| AgentSpec.ShownPasskeyIsSent | src/bluetooth/BlueZAgent.cpp:92-98 | a passkey shown in six digits and typed on the other side is sent as the number it was |
| AgentSpec.AskExactly | src/bluetooth/BlueZAgent.cpp:27-53 | an agent call is refused unless the owner asks about a device with an ID, shown in the entry that shows such a code already, or pending as a new interaction with exactly what the call said |
| AgentSpec.CancelExactly | src/bluetooth/BlueZAgent.cpp:75-80 | in every run, the owner cancels every interaction with refusals; anybody else is refused |
| AgentSpec.OwnerChangeRefuses | src/bluetooth/BlueZAgent.cpp:13-16 | in every run, a new owner finds nothing pending and what was pending is refused |
| AgentSpec.SetDevicesKeepsTheKnown | src/bluetooth/BlueZAgent.cpp:17-22 | after new devices arrive exactly the entries of known devices stay, unchanged, and the others are refused |
| AgentSpec.PendingIsKnownAndShownOnce | src/bluetooth/BlueZAgent.cpp:39-52 | pending entries name known devices, and at most one display entry exists per device and kind |
| BlueZAgent.BlueZAgent.Request | src/bluetooth/BlueZAgent.cpp:27-53 | rejects, updates the one matching display or admits a new interaction, as specified |
| BlueZAgent.BlueZAgent.DisplayPasskey | src/bluetooth/BlueZAgent.cpp:92-95 | asks to show the passkey in six digits |
| BlueZAgent.BlueZAgent.RequestConfirmation | src/bluetooth/BlueZAgent.cpp:96-98 | asks to confirm the passkey in six digits |
| BlueZAgent.BlueZAgent.Respond | src/bluetooth/BlueZAgent.cpp:54-74 | does what the specification's answer does |
| BlueZAgent.BlueZAgent.Clear | src/bluetooth/BlueZAgent.cpp:23-26 | refuses every pending entry, in some order of the hash |
| BlueZAgent.BlueZAgent.SetDevices | src/bluetooth/BlueZAgent.cpp:17-22 | refuses exactly the entries of unknown devices, in some order of the hash |
| BlueZAgent.BlueZAgent.SetOwner | src/bluetooth/BlueZAgent.cpp:13-16 | clears under the old owner, then takes the new one |
| BlueZAgent.BlueZAgent.Cancel | src/bluetooth/BlueZAgent.cpp:75-80 | only the owner can clear; the call itself is answered at once |
| BlueZGuarantees.StepRefines | src/bluetooth/BlueZBackend.cpp:92-194 | each backend event is one event of the shared refresh protocol or none |
| BlueZGuarantees.RefreshIsFaithful | src/bluetooth/BlueZBackend.cpp:92-194 | the BlueZ backend is a second instance of the refresh protocol in every run |
| BlueZGuarantees.RetiredIdsNeverReturn | src/bluetooth/BlueZBackend.cpp:146-157 | an ID that left the table, by signal, absence, failure or owner change, never comes back |
| BlueZGuarantees.IdsAreNeverShared | src/bluetooth/BlueZBackend.cpp:195-198 | no two paths get the same ID in a run |
| BlueZGuarantees.PublishedTableIsTheSnapshot | src/bluetooth/BlueZBackend.cpp:199-254 | the table names exactly the adapters and the devices on them, and each device record names an adapter of the same snapshot |
| BlueZGuarantees.AgentKnowsTheSnapshot | src/bluetooth/BlueZBackend.cpp:215-252 | the agent is told exactly the snapshot's devices under the same IDs |
| BlueZGuarantees.AgentOutdatedExactly | src/bluetooth/BlueZBackend.cpp:92-109 | an event outdates the agent's up-to-date devices exactly when the owner's IDs end or one of the devices is removed |
| BlueZGuarantees.OutdatedExactly | src/bluetooth/BlueZBackend.cpp:92-109 | in every run, the agent's devices agree with the table exactly when nothing has outdated them since the last refresh that was published or failed |
| BlueZGuarantees.AgentNamesRetiredExactly | src/bluetooth/BlueZAgent.cpp:13-34 | in every run, there is a path for which the agent names a retired ID exactly when its devices are outdated |
| BlueZGuarantees.AgentNamesLiveExactly | src/bluetooth/BlueZAgent.cpp:30-34 | in every run, the ID named in answer to the owner is in the table right after the call exactly when the agent does not hold a retired ID for the path |
| BlueZGuarantees.AgentCanNameARetiredDevice | src/bluetooth/BlueZAgent.cpp:13-16 | the concrete run in which the agent names a device of the former owner |
| BlueZEffects.PublishTells | src/bluetooth/BlueZBackend.cpp:199-254 | a published snapshot shows exactly the adapters listed and the devices listed on them, each device under its own ID and that of its adapter; agent and removal table are told the same |
| BlueZEffects.NamedDevice | src/bluetooth/BlueZBackend.cpp:31-35 | the device named to the owner is the one the agent was told about, else the one in the table, else a new one |
| BlueZEffects.EveryEventDoesItsPart | src/bluetooth/BlueZBackend.cpp:31-254 | in every run, each event changes owner, table, agent and adapters exactly as said by paths and senders, emits exactly that snapshot, and marks earlier data as stale exactly when something may have changed |
| BlueZBackend.Backend.SetOwner | src/bluetooth/BlueZBackend.cpp:92-109 | new generation, tables dropped, everything withdrawn, a refresh asked for |
| BlueZBackend.Backend.Stop | src/bluetooth/BlueZBackend.cpp:69-91 | stops once and leaves no owner |
| BlueZBackend.Backend.OnInterfacesRemoved | src/bluetooth/BlueZBackend.cpp:146-157 | a signal of the owner ends the path's ID and, for an adapter, those of its devices |
| BlueZBackend.Backend.OnSnapshotReply | src/bluetooth/BlueZBackend.cpp:166-194 | drops, repeats, fails or publishes as the protocol decides |
| BlueZBackend.Backend.Publish | src/bluetooth/BlueZBackend.cpp:199-254 | the two passes and the erasing loop leave the tables, the agent's devices and the emitted snapshot of the specification |
| BlueZBackend.Backend.AgentDevice | src/bluetooth/BlueZBackend.cpp:31-35 | the resolver reserves an ID for an unknown path and asks for a refresh |
| BluetoothSystem.EveryRunKeepsInvariant | src/bluetooth/BlueZBackend.cpp:27-109 | agent and backend keep their invariants together, and agree on the owner and on the devices the agent knows |
| BluetoothSystem.PublishedSnapshotCoversPending | src/bluetooth/BlueZBackend.cpp:199-254 | in every run, right after a publication exactly the interactions of devices of that very snapshot are still pending |
| BluetoothSystem.WithdrawalEndsInteractions | src/bluetooth/BlueZBackend.cpp:69-109 | in every run, an owner change, a stop and a failed refresh leave no interaction pending |
| BluetoothSystem.PendingDevicesAreReal | src/bluetooth/BlueZAgent.cpp:27-53 | in every run, a pending interaction names an ID once given to a device path, and a live one while the agent's devices are up to date |
| BluetoothSystem.PartsRunAsSpecified | src/bluetooth/BlueZBackend.cpp:27-109 | in every joint run the agent and the backend each go through a run of their own specification |

## Left out

- Assumptions: identifiers drawn are unused; replies arrive as later steps and only for calls in flight, with non-empty
  step IDs; a reply lists each object path once; signals are handled in order and handlers do not re-enter the object, so
  the repeated disconnects caused by aborting a socket count once.
- Qt plumbing, logging, D-Bus marshalling, opening sockets, environment variables and JSON text: the model starts from
  parsed trees, records and replies. Foreign-toplevel integrations (GenericBackend, LabwcBackend) and src/audio are not
  part of this model.
- Presentation fields of drives, volumes, devices and snapshots, and human-readable error messages.
- Counters (`generation_`, `revision_`) are unbounded: their 64-bit wrap-around is not modelled.
- The order in which a hash is traversed is an arbitrary order; the agent's methods hold for every one.
- Several methods of the program are split into smaller ones here, and the controller returns the command that the program
  hands to the backend.
- SwayBackend.SwayBackend.SendRequest: a failed write sends nothing; a write that fails halfway is not modelled.
- SwayGuarantees.OneCommandOutstanding: assumes that Sway answers commands in order and sends no unasked frame of the very
  kind that is awaited.
- Chunk-invariance is proved for the decoder only; above it, frames already decoded from a chunk that ends in an error are
  discarded by the backend.
- SwayBackend: a refused connection attempt starts no reconnect in the model, as no handler for it exists in the program.
- Command texts are characters; their conversion to UTF-8 is left out. Of the agent's seven D-Bus methods the two that format a
  passkey are written out; the others only choose the kind of interaction.
- HyprlandBackend.HyprlandBackend.PublishClients: monitors, clients and workspaces arrive projected; `collectMonitors`,
  `collectClients`, `appendWorkspaces` and urgency by address suffix are left out.
- WindowActivation.IsValid: characters are Unicode scalar values, so a surrogate that stands alone in a title hint does
  not occur.
- BlueZBackend.Backend.SetOwner: what the agent clears is part of BluetoothSystem, not of this method's state; registration
  is left out.
- BlueZBackend.Backend.Stop: the agent's clearing is part of BluetoothSystem; deregistration is left out.
- BlueZBackend.Backend.Publish: the entries the agent then refuses are part of BluetoothSystem.
- BlueZ operations, agent registration and discovery sessions: an operation reply appears only as a possible change.
- AgentSpec.CallsAreAnsweredOnce: the timer of an interaction appears as a refusal that may come at any time.
- SwayTree.WindowsExactly: JSON numbers are exact reals; infinities and NaN do not occur in parsed JSON.
