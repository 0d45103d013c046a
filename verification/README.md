# RaceLink Host, verified

A Dafny model of the parts of RaceLink Host in which several pieces have to agree, with proofs that they do.

**Scenes on air.** A scene action is planned (`DispatchPlanner`), an `offset_group` container picks the cheapest of
three ways to configure the devices (`OffsetOptimizer`), the planned sends become bytes (`OffsetCodec`,
`ControlCodec`, `SceneRunner`), and devices that follow racelink_proto.h consume those bytes (`Receiver`). The proofs
run end to end: every eligible strategy serves the participants, and which devices two of them treat differently is an
if-and-only-if (`StrategyEquivalence`); whom a container selects is stated for every device in whatever state it is, and
however many children the container has; an armed child fires with the intended delay; and the size the planner predicts
is the size that is sent.

**Gateways and networks.** The bind wizard's states and five operator actions, refusals midway included, a network's
migration from its order to its end, and the network manager's change of settings are functions on values (`BindModel`);
a class over shared network and transport objects is proved to do just that (`GatewayBind`). Beside the host's records
the model keeps what each gateway really runs on, so a write that was stored but whose reply was lost is one of its
outcomes. Over all runs of these steps (`BindSafety`): one gateway, one network; a record says BOUND only without a
difference and names its differences exactly in CONFLICT; a wizard token succeeds once; and two networks never share the
air if and only if every first contact and every migration takes a free channel. `BindMigration` follows the migration
that "accept host" starts: which gateway it reaches, when it is safe, where it ends. `BindKinds` says when gateways stay
off Ethernet networks. `BindOutcome` says what one answer sends, what it achieves (after a create or a rebind the
gateway drives the network by claim, record and stamp) and, in full, what a refusal leaves behind. `GatewayTruth` says
over all runs when the record tells what the gateway runs on, as an if-and-only-if. `BindAgreement` asks whether a
gateway that ends BOUND, with its record right, is on the settings of the network it is bound to: always after
accepting, creating and rebinding, and after a retune exactly if the network still has what the record expected.
`RfPolicy` holds the separation rule and proves its audit and its "is this channel free" check to be the same rule.

**Requests and repetition.** The table of pending replies under every interleaving of TX and RX threads
(`PendingExpect`), the stream retry loop (`StreamRetry`), and the cooldown cache that forgets (`AutoRestore`).

**Long runs.** The migration "devices first, gateway after" with its report (`Migration`), and the channel scan that
gives the gateway back (`ChannelScan`).

**Scanners.** The C-initializer comma splitter and the nmcli field splitter, each with the exact condition under which
it inverts its writer (`CommaSplitter`, `TerseSplitter`).

Code that computes is modelled by functions, loops and objects updated in place by methods and classes, each method
proved against a function or a property. Radio replies, clocks, identifiers and the outside world's refusals are
parameters. `dafny verify dfyconfig.toml` checks everything.

## What may surprise

The cheapest plan wins, with consequences that a scene's author may not expect:

* A broadcast formula goes out as one formula packet unless the host knows exactly one group. Then the four-byte
  EXPLICIT to that group undercuts it (`OffsetOptimizer.BroadcastFormulaOptimum`,
  `OffsetOptimizer.OneKnownGroupGetsExplicit`), and a device of any other group is left untouched
  (`StrategyEquivalence.BroadcastServes`).
* A formula for listed groups also configures devices whose group the host does not know, exactly when it knows some
  group and the list is longer than the formula with its clears, or as long and at least three
  (`StrategyEquivalence.UnknownGroupLeak`, `StrategyEquivalence.UnknownGroupPulledIn`).
* A device that an earlier container left in offset mode also plays the children of a later one, unless that one serves
  or clears it: it is cleared only when the later one goes out as a formula with clears
  (`SceneRunner.SelectsExactlyIff`, `StrategyEquivalence.EarlierContainerLingers`).
* When the known groups are an empty list, formula plus overrides is not considered at all, so a listed formula costs
  one packet a participant (`OffsetOptimizer.ListedFormulaOptimum`).

Gateways:

* First contact in `evaluate` adopts the gateway's channel without asking whether it is free, and a migration gives the
  network its settings without asking either. These two, and of the steps modelled no other, can put two networks on one
  air, exactly when the channel was taken (`BindSafety.StepSeparation`; `BindSafety.FirstContactCanCollide`).
* An answer "accept host" sends the network to what the record expected when the conflict was raised. If the network has
  been moved since and its old channel been taken, the two collide (`BindMigration.StaleAcceptHostCollides`,
  `BindMigration.AcceptHostSeparationIff`). It goes over the first transport stamped with the network, which need not be
  the gateway whose wizard was answered (`BindMigration.AnotherGatewayIsReached`).
* A write is refused when its reply does not come within a second (gateway_service.py:1171-1249), though the gateway may
  have stored it: the record then keeps the old settings (`GatewayTruth.LostReply`). And the listener takes any
  EV_RF_CHANGED, so the late answer to a reading can end a retune that never reached the gateway in BOUND
  (`GatewayTruth.MistakenReply`); a reading is no different (`GatewayTruth.StaleReading`).
* A lone gateway that no network claims is given the first free network, an Ethernet one included
  (`BindKinds.LoneGatewayClaimsEthernet`), though the wizard refuses just that (`BindKinds.ResolveOnRf`).
* A retune sends what the record expected when the conflict was raised. If another gateway has moved the network since,
  the answer succeeds and the gateway ends BOUND beside its network (`BindAgreement.RetuneCanMissItsNetwork`).

Long runs:

* A migration for selected devices none of which is known pushes to everybody who answers
  (`Migration.OnlyThoseMeantIff`, `Migration.StrangerSelected`).

Threads:

* The cooldown's check and its mark are two critical sections. Restores of a key stay a cooldown apart exactly if no
  other handler's mark of it falls in between less than a cooldown earlier (`AutoRestore.SpacedUnlessIntervening`), in
  particular when one thread handles the key (`AutoRestore.OneThreadKeepsSpacing`), and not in general
  (`AutoRestore.RacingHandlersBothRestore`).
* An untagged RX event falls back, as documented, on the only expectation there is; it takes another gateway's exactly
  when that one is alone and answers the event (`PendingExpect.UntaggedEventTakes`).
* A receive window that closes late takes a newer request's expectation with it, exactly when that was stamped before
  the close read the table (`PendingExpect.WindowTakesIff`, `PendingExpect.LateWindowTakesNewer`); the comment in
  gateway_service.py:2541-2548 says it must not.

## Model

| member | source | states |
|---|---|---|
| OffsetCodec.ParseAfterBuild | racelink/protocol/packets.py:207-294 | parsing a built OPC_OFFSET body yields the clamped parameters, for every mode and all integer arguments; the body has 2 to 7 bytes |
| OffsetCodec.BuildAfterParse | racelink/protocol/packets.py:263-294 | rebuilding an accepted body gives the same bytes, except exactly for a V-shape centre of 255 and a modulo cycle of 0 |
| OffsetCodec.HostAndDeviceAgree | racelink/domain/offset_formula.py:29-65 | decoding what was sent and evaluating it on the device gives what the host's `evaluate_offset_ms` gives, for every validated block |
| OffsetFormula.EvaluateOffsetMs | racelink/domain/offset_formula.py:29-65 | a computed offset always lies in 0..65535, and evaluation fails exactly on an unknown mode |
| Flags.FlagsReadBack | racelink/domain/flags.py:57-80 | each bit of the flags byte reads back as the flag that was asked for, and the reserved bits are clear |
| Flags.MergeFlags | racelink/services/dispatch_planner.py:461-482 | the merge loop leaves a flag set exactly when the override says so or, failing an override, the preset does |
| ControlCodec.BuildControlBody | racelink/protocol/packets.py:342-441 | the builder's growing tails and masks make the body the header lays down, and its length assertion never fires |
| ControlCodec.BodyLength | racelink/protocol/packets.py:342-441 | the length depends on presence only and lies in 3..21 |
| ControlCodec.DecodeAfterBuild | racelink_proto.h:301-327 | a decoder written from the layout recovers every field at its bit width, for every presence combination |
| ControlCodec.TakeAfterWrite | racelink_proto.h:301-327 | reading the fields a presence mask announces gives back the fields written, whatever follows them |
| OffsetOptimizer.CheapestIsFirstMinimum | racelink/services/offset_dispatch_optimizer.py:215-223 | the choice is the first of the candidates than which none is cheaper in (packets, bytes) |
| OffsetOptimizer.PlanIsCheapest | racelink/services/offset_dispatch_optimizer.py:94-223 | the returned plan is an eligible strategy and no eligible one is cheaper; it is empty only when none is eligible |
| OffsetOptimizer.NonParticipantCount | racelink/services/offset_dispatch_optimizer.py:188-191 | the overrides number the known groups that are not listed |
| OffsetOptimizer.ListedFormulaCosts | racelink/services/offset_dispatch_optimizer.py:146-199 | packets and bytes of both strategies for a listed formula, in closed form |
| OffsetOptimizer.ListedFormulaChoice | racelink/services/offset_dispatch_optimizer.py:181-223 | for a listed formula the plan is formula plus overrides exactly when some group is known and that is strictly cheaper, and one EXPLICIT a participant otherwise |
| OffsetOptimizer.ListedFormulaOptimum | racelink/services/offset_dispatch_optimizer.py:181-223 | for distinct groups P and known K the plan takes min(P, 1 + K without P) packets, P when nothing is known; on a tie the overrides win exactly from three packets on |
| OffsetOptimizer.BroadcastFormulaOptimum | racelink/services/offset_dispatch_optimizer.py:140-223 | a broadcast formula is one packet, and it is the formula itself if and only if the mode is none or the known groups are not exactly one |
| OffsetOptimizer.OneKnownGroupGetsExplicit | racelink/services/offset_dispatch_optimizer.py:140-223 | a V-shape with one known group goes out as an EXPLICIT to that group |
| OffsetOptimizer.BroadcastClear | racelink/services/offset_dispatch_optimizer.py:140-223 | clearing everybody is one two-byte NONE, never an EXPLICIT of zero |
| Receiver.EffectiveIsLastOffset | racelink_proto.h:148-183 | over any packet sequence a device's effective configuration is that of the last OPC_OFFSET meant for it, and nothing else moves it |
| Receiver.DroppedPacketChangesNothing | racelink_proto.h:163-176 | an effect packet that fails the gate changes nothing; one that passes arms, or plays and materialises |
| Receiver.ArmedCueSurvives | racelink_proto.h:157-161 | whatever is not accepted and not a trigger, OPC_OFFSETs included, leaves an armed effect with its offset snapshot until a trigger plays it |
| Receiver.TicksNeverFire | racelink/protocol/packets.py:142-154 | a SYNC without flags has four bytes, and one triggers exactly when the trigger bit is set |
| Receiver.AutosyncIsHarmless | racelink_proto.h:94-104 | any number of autosync ticks leaves the device as it was but for its timebase, which is the last tick's |
| Receiver.GateIsStable | racelink_proto.h:163-176 | effect packets never move the gate, so each is accepted or dropped as if it came first |
| Receiver.ArmedThenFired | racelink_proto.h:148-161 | an accepted armed effect, later packets that leave it be, then a trigger: the device plays that effect with the offset snapshot taken when it was armed |
| StrategyEquivalence.PerGroupEffect | racelink/services/offset_dispatch_optimizer.py:146-175 | per-group packets configure each listed device with its own group's payload and leave every other device untouched |
| StrategyEquivalence.StrategyAMeaning | racelink/services/offset_dispatch_optimizer.py:140-144 | the broadcast formula, byte by byte, serves every device |
| StrategyEquivalence.StrategyBMeaning | racelink/services/offset_dispatch_optimizer.py:146-175 | per-group packets serve the listed devices and no other |
| StrategyEquivalence.StrategyCMeaning | racelink/services/offset_dispatch_optimizer.py:177-199 | formula plus overrides leaves participants on the formula, known others cleared, unknown groups on the formula |
| StrategyEquivalence.EveryStrategyMeansTheSame | racelink/services/offset_dispatch_optimizer.py:140-213 | every eligible strategy serves every participant of a known group, and leaves a bystander of a known group out of offset mode if it was; the broadcast clear, where only one strategy can win, is settled by BroadcastClear |
| StrategyEquivalence.ChosenPlanMeaning | racelink/services/offset_dispatch_optimizer.py:94-223 | the plan that is returned does that, and a clear leaves every bystander as it was |
| StrategyEquivalence.SetupEffect | racelink/services/offset_dispatch_optimizer.py:94-223 | for any valid container and any device, of a known group or not, in offset mode or not: whether it is served, and whether it ends in offset mode, told from the inputs |
| StrategyEquivalence.StrategiesAgreeIff | racelink/services/offset_dispatch_optimizer.py:146-199 | the two strategies for a listed formula leave a device alike in mode if and only if it is listed, or in offset mode exactly when its group is unknown |
| StrategyEquivalence.EarlierContainerLingers | racelink/services/offset_dispatch_optimizer.py:94-223 | after a container for group 4 and then one for group 1, devices of group 4 are still in offset mode |
| StrategyEquivalence.UnknownGroupLeak | racelink/services/offset_dispatch_optimizer.py:181-223 | an unlisted device is pulled into offset mode if and only if the host does not know its group but knows some, and the list is longer than the formula with its clears, or as long and at least three |
| StrategyEquivalence.UnknownGroupPulledIn | racelink/services/offset_dispatch_optimizer.py:181-223 | a linear container for the three known groups configures a device of a fourth |
| StrategyEquivalence.BroadcastServes | racelink/services/offset_dispatch_optimizer.py:94-223 | a broadcast container serves exactly the devices it reaches and leaves every other as it was: all, but for an explicit block's unknown groups and, with one known group, every other group |
| StrategyEquivalence.BroadcastSelects | racelink/services/offset_dispatch_optimizer.py:94-223 | of the devices out of offset mode a broadcast container brings into it exactly those it reaches |
| DispatchPlanner.PlanActionDispatch | racelink/services/dispatch_planner.py:123-186 | the planner's loops and recursion build exactly the plan function's ops, in order, with their phases and degradation |
| DispatchPlanner.PlanOffsetGroup | racelink/services/dispatch_planner.py:212-291 | a container's plan is the optimizer's ops followed by every child's, each forced to carry the offset flag or not |
| DispatchPlanner.PlanEffect | racelink/services/dispatch_planner.py:294-361 | one op a recipient, all with the same merged params, or a degraded plan with its reason |
| SceneRunner.PredictedBytesAreSent | racelink/services/dispatch_planner.py:528-549 | the bytes the planner predicts are the bytes sent, for every action that plans, nested containers included |
| SceneRunner.EffectOnTheWire | racelink/services/control_service.py:548-627 | an effect op becomes a well-formed packet to its recipient's group whose offset and arm bits are the planned flags |
| SceneRunner.ControlCarriesParams | racelink/services/control_service.py:577-607 | a device decodes from a sent control exactly the action's params at their bit widths, the power bit following the brightness |
| SceneRunner.ContainerPhases | racelink/services/dispatch_planner.py:212-291 | running a container puts its offset packets and then its children's on air, and nothing else; nothing at all when degraded |
| SceneRunner.ContainerSelects | racelink/services/dispatch_planner.py:212-291 | any device, whatever its state and whether or not its group is known, accepts a child's packet if and only if it is addressed and the setup leaves it in the mode the children want |
| SceneRunner.SelectsExactlyIff | racelink/services/dispatch_planner.py:212-291 | for a device of a known group a formula container selects exactly its participants if and only if the device participates, was out of offset mode, or the formula goes out with clears |
| SceneRunner.FormulaContainerSelects | racelink/services/dispatch_planner.py:212-291 | so a device of a known group starting out of offset mode accepts a child's packet if and only if it participates and is addressed, for any children |
| SceneRunner.ClearContainerSelects | racelink/services/dispatch_planner.py:212-291 | a clearing container makes every participant, of a known group or not, accept every child addressed to it, whatever its prior state; any other accepts what it would have anyway |
| SceneRunner.BroadcastChildReachesAll | racelink/services/dispatch_planner.py:412-458 | a broadcast child is addressed to every device |
| SceneRunner.ArmedChildFires | racelink/services/scene_runner_service.py:464-576 | container, armed child, later traffic, SYNC action: any device the container serves starts that child's effect with the container's delay for its group |
| SceneRunner.ArmedChildHappens | racelink/services/dispatch_planner.py:212-291 | a concrete container arms its child on every device of its group, so the whole-scene theorem speaks of scenes that exist |
| RfPolicy.ValidateNetworksSeparation | racelink/domain/rf_policy.py:74-145 | the audit loop lists the conflicts of all pairs and is empty exactly when the networks are separated |
| RfPolicy.ConflictsExact | racelink/domain/rf_policy.py:74-145 | a conflict is reported for exactly the colliding pairs, with their data |
| RfPolicy.OccupantsOf | racelink/domain/rf_policy.py:148-196 | the occupants loop lists the networks on that air, in order |
| RfPolicy.OccupantsExact | racelink/domain/rf_policy.py:148-196 | no occupant exactly when no other network has the sync word within the minimum separation |
| RfPolicy.AddingIsSafeIffFree | racelink/domain/rf_policy.py:148-196 | adding a network keeps the set separated if and only if it was and the channel is free |
| RfPolicy.MovingIsSafeIffFree | racelink/domain/rf_policy.py:148-196 | moving a network keeps a separated set separated if and only if nobody else is there |
| BindModel.DiffExact | racelink/services/gateway_bind_service.py:161-186 | the list names exactly the fields that differ, one missing on a single side included, and is empty exactly when both sides hold the same |
| GatewayBind.GatewayBindService.EvaluateTransport | racelink/services/gateway_bind_service.py:252-368 | evaluating updates the shared network and the record exactly as the model says |
| GatewayBind.GatewayBindService.ResolveAction | racelink/services/gateway_bind_service.py:462-499 | resolving dispatches on token and action and leaves exactly the state the model says, refusals midway included |
| GatewayBind.GatewayBindService.PushRf | racelink/services/gateway_bind_service.py:424-446 | a write goes to an attached gateway; taken or not, acknowledged or not, the state is exactly the model's |
| GatewayBind.GatewayBindService.Query | racelink/services/gateway_service.py:1072-1169 | a reading is the settings of the first EV_RF_CHANGED heard in the attempt or, failing that, in the retry, whatever it answers; nothing only if none was heard |
| GatewayBind.GatewayBindService.RetuneGateway | racelink/services/gateway_bind_service.py:622-663 | writes the record only after an acknowledged write, whatever the gateway did with it |
| GatewayBind.GatewayBindService.AdoptGatewayConfig | racelink/services/gateway_bind_service.py:683-713 | adopts the channel into the network only when it is free |
| GatewayBind.GatewayBindService.AcceptHostConfig | racelink/services/gateway_bind_service.py:715-782 | hands network and target to a migration, unless one is running; a lost start rolls the flag back but keeps the new token |
| GatewayBind.GatewayBindService.CreateNetworkFor | racelink/services/gateway_bind_service.py:784-900 | a free channel, an acknowledged retune, then the new network takes the gateway from all others; a refused retune may leave the gateway moved |
| GatewayBind.GatewayBindService.RebindTo | racelink/services/gateway_bind_service.py:902-1032 | takes the network over before comparing, then settles the mismatch as asked; the takeover stays when settling is refused |
| GatewayBind.GatewayBindService.ReleaseIdent | racelink/services/gateway_bind_service.py:448-460 | every network but the kept one lets go of the gateway, and nothing else changes |
| GatewayBind.GatewayBindService.StampTransport | racelink/services/gateway_bind_service.py:1042-1064 | the first transport of that gateway is stamped, no other |
| GatewayBind.GatewayBindService.AutoBindTransport | racelink/controller.py:851-919 | a known gateway gets its network, a lone unknown one the first free network, any other none |
| GatewayBind.GatewayBindService.AttachTransport | racelink/controller.py:935-979 | a transport joins the list, unless its gateway is attached already |
| GatewayBind.GatewayBindService.DetachTransport | racelink/services/gateway_service.py:2406-2464 | a transport leaves the list and nothing else changes |
| GatewayBind.GatewayBindService.ForgetRecord | racelink/services/gateway_bind_service.py:370-375 | the record goes and nothing else changes |
| GatewayBind.GatewayBindService.TransportForNetwork | racelink/controller.py:363-404 | the transport stamped with the network, or its gateway's, or the only one |
| GatewayBind.GatewayBindService.OrderMigration | racelink/web/api.py:943-993 | a migration ordered over the web starts unless one is running |
| GatewayBind.GatewayBindService.CheckMigration | racelink/services/rf_migration_service.py:168-218 | a migration goes on only for complete settings, an RF network and a transport to reach it by |
| GatewayBind.GatewayBindService.SwitchNetwork | racelink/services/rf_migration_service.py:310-330 | the gateway is written to, and the network has the new settings exactly on a good reply |
| GatewayBind.GatewayBindService.CloseMigration | racelink/services/gateway_bind_service.py:397-414 | the gateway is evaluated again, or its record dropped if it is gone |
| GatewayBind.GatewayBindService.EditNetwork | racelink/web/api.py:642-749 | a network's settings change exactly if the audit of all networks with the change is empty; taking them away is not audited |
| BindSafety.RunKeepsInv | racelink/services/gateway_bind_service.py:252-499 | in every state of every run no gateway is on two networks, BOUND has no difference, CONFLICT names some, every other state none, and tokens are distinct |
| BindSafety.RunAttachedOnce | racelink/controller.py:935-979 | over any run no gateway is attached twice |
| BindSafety.ResolveKeepsSeparation | racelink/services/gateway_bind_service.py:462-1032 | no answer of the operator, successful or refused midway, itself puts two networks on one air; the migration one may start is a step of its own |
| BindSafety.EvaluateSeparationIff | racelink/services/gateway_bind_service.py:322-334 | evaluating keeps the networks apart if and only if it does not adopt a taken channel on first contact |
| BindSafety.FirstContactCanCollide | racelink/services/gateway_bind_service.py:322-334 | a concrete first contact, in an orderly state, after which the audit is no longer empty |
| BindSafety.SwitchSeparationIff | racelink/services/rf_migration_service.py:315-330 | a migration's switch keeps the networks apart if and only if it fails, the network is gone, or the channel is free |
| BindSafety.SpeculativeAudit | racelink/web/api.py:719-741 | the network manager's audit, with the edited network put first, is empty if and only if the networks would be apart |
| BindSafety.StepSeparation | racelink/services/gateway_bind_service.py:252-1032 | of the steps modelled only first contact and a migration's switch can break separation, each exactly when the channel is taken |
| BindSafety.RunKeepsSeparation | racelink/services/gateway_bind_service.py:252-1032 | over any run the audit stays empty throughout if and only if every first-contact adoption and every migration takes a free channel |
| BindSafety.SuccessSpendsToken | racelink/services/gateway_bind_service.py:462-499 | every successful answer replaces the token it came with |
| BindSafety.SpentTokenIsRefused | racelink/services/gateway_bind_service.py:475-480 | a stale token is refused and changes nothing |
| BindSafety.TokenSucceedsOnce | racelink/services/gateway_bind_service.py:462-499 | over any run a wizard token lets at most one resolve succeed |
| BindOutcome.StampExact | racelink/services/gateway_bind_service.py:1042-1064 | stamping writes the first transport of that gateway and no other |
| BindOutcome.CreateDrives | racelink/services/gateway_bind_service.py:871-892 | a created network is the gateway's by claim, record and stamp, carries the channel picked, and every other network only loses its claim |
| BindOutcome.RebindDrives | racelink/services/gateway_bind_service.py:950-1032 | after a successful rebind the gateway drives the network asked for, by claim, record and stamp; every other network only loses its claim |
| BindOutcome.SendsExact | racelink/services/gateway_bind_service.py:622-1032 | what an answer sends to the gateway, told from the state before it |
| BindOutcome.RefusalsLeave | racelink/services/gateway_bind_service.py:482-499 | what a refusal leaves, in full: a gateway re-tuned by a write that was taken without a good reply, a rebind's network taken over, a new token after a lost migration start, and otherwise nothing |
| GatewayTruth.RunReal | racelink/services/gateway_bind_service.py:252-499 | over any run no record is in CONFLICT without a present difference, refusals midway included |
| GatewayTruth.SentDiffers | racelink/services/gateway_bind_service.py:622-1032 | an answer never sends a gateway what its record already shows |
| GatewayTruth.WriteDecides | racelink/services/gateway_bind_service.py:424-446 | a write goes out only while the gateway is attached, and its answer succeeds, ending in BOUND, exactly when the write is acknowledged |
| GatewayTruth.AnswerEffect | racelink/services/gateway_service.py:1171-1249 | the gateway follows what it took and the record what was acknowledged; without a write neither moves |
| GatewayTruth.StepTracks | racelink/services/gateway_bind_service.py:252-499 | after a step the record says what the gateway runs on if and only if the step put it right, or it did before and the step did not put it wrong |
| GatewayTruth.RecordTracksGateway | racelink/services/gateway_bind_service.py:252-1032 | over any run the record says what the gateway runs on if and only if it was right once and no step since was a lost or mistaken reply, a reading that heard nothing or something else, a migration, an outside change or a forgetting |
| GatewayTruth.LostReply | racelink/services/gateway_service.py:1242-1249 | a retune stored by the gateway whose reply is lost is refused, and its record is wrong from then on |
| GatewayTruth.MistakenReply | racelink/services/gateway_service.py:1202-1218 | another EV_RF_CHANGED taken for the reply ends a retune in BOUND with the gateway where it was |
| GatewayTruth.StaleReading | racelink/services/gateway_service.py:1115-1133 | settings the gateway has left, heard late, end an evaluation in BOUND with the record wrong |
| BindAgreement.AnswerAgrees | racelink/services/gateway_bind_service.py:683-1032 | accepting the gateway's settings, creating and rebinding end in BOUND only on the settings of the network the record names |
| BindAgreement.RetuneAgreesIff | racelink/services/gateway_bind_service.py:622-663 | a successful retune ends on the settings of the network the record names if and only if that network still has what the record expected |
| BindAgreement.BoundMeansOnNetwork | racelink/services/gateway_bind_service.py:462-1032 | so after an answer that ends in BOUND with the record right, the gateway is on its network's settings if and only if that exception did not apply |
| BindAgreement.RetuneCanMissItsNetwork | racelink/services/gateway_bind_service.py:622-663 | the exception: gateway B takes A's network over and moves it, then A's retune succeeds, BOUND beside its network |
| BindAgreement.OnlyWritesMove | racelink/services/gateway_bind_service.py:322-334 | of the steps modelled only an adoption, a migration's switch and an audited edit write a network's settings, each only its own network's |
| BindAgreement.ConfigIsLastWritten | racelink/services/gateway_bind_service.py:252-1032 | over any run a network has the settings last written to it, or those it started with |
| BindAgreement.AgreementOverRun | racelink/services/gateway_bind_service.py:252-1032 | over any run that leaves a record as it is, it agrees with its network at the end if and only if the last write to that network was of just those settings, or there was none and it agreed before |
| BindMigration.UndisturbedRun | racelink/services/gateway_bind_service.py:748-762 | the answer, its migration's check, switch and end are the steps of a run |
| BindMigration.SwitchReaches | racelink/services/rf_migration_service.py:190-330 | an undisturbed "accept host" switches the gateway its network is routed over and, on a good reply, the network, and nothing else |
| BindMigration.AcceptHostSeparationIff | racelink/services/gateway_bind_service.py:715-782 | it keeps the networks apart if and only if it comes to nothing or the channel the record expects is free |
| BindMigration.FreshAcceptHostIsSafe | racelink/services/gateway_bind_service.py:715-782 | it does while the network still has what the record expects |
| BindMigration.ReachesItsOwnIff | racelink/controller.py:363-404 | the gateway whose wizard was answered gets the settings if and only if the network's route goes over it, or it had them |
| BindMigration.AnotherGatewayIsReached | racelink/controller.py:388-392 | a gateway whose transport came first takes the migration another's wizard asked for |
| BindMigration.EndsBoundIff | racelink/services/rf_migration_service.py:315-398 | an undisturbed migration over the record's own gateway ends with it BOUND to the network and on its settings if and only if its transport is stamped with the network |
| BindMigration.StaleAcceptHostCollides | racelink/services/gateway_bind_service.py:748-762 | three successful answers, no first contact, and the migration of the last puts two networks on one air |
| BindKinds.ResolveOnRf | racelink/services/gateway_bind_service.py:934-949 | the wizard never puts a gateway on a network that is not an RF one |
| BindKinds.StepOnRf | racelink/controller.py:880-890 | of the steps modelled exactly auto-binding can, exactly when a lone unclaimed gateway finds such a network first |
| BindKinds.RunOnRf | racelink/controller.py:880-890 | over any run gateways stay on RF networks throughout if and only if that never happens |
| BindKinds.LoneGatewayClaimsEthernet | racelink/controller.py:880-890 | it can: the first gateway beside a lone Ethernet network claims it |
| PendingExpect.PendingExpectations.SetPendingExpect | racelink/controller.py:2167-2193 | stamps a fresh expectation into its gateway's slot and no other |
| PendingExpect.PendingExpectations.ReadPendingExpect | racelink/controller.py:2195-2216 | returns the live entry of the slot, or for an untagged reader the only entry there is |
| PendingExpect.PendingExpectations.ClearPendingExpectIf | racelink/controller.py:2218-2239 | removes exactly the entry it was given, and reports whether that entry was still there |
| PendingExpect.PendingExpectations.ClearPendingExpect | racelink/controller.py:2241-2254 | drops one slot, or all of them |
| PendingExpect.NoExpectationIsLost | racelink/services/gateway_service.py:2500-2562 | under every interleaving a stamped expectation is in its slot, overwritten by a later stamp on its gateway, cleared by a thread that read it after the stamp, or wiped |
| PendingExpect.StaleClearRemovesNothing | racelink/controller.py:2218-2239 | a clear whose entry was replaced since it was read removes nothing |
| PendingExpect.TaggedEventKeepsToItsGateway | racelink/services/gateway_service.py:2500-2562 | an event of a named gateway leaves every other gateway's slot alone |
| PendingExpect.UntaggedEventTakes | racelink/controller.py:2195-2216 | an untagged event takes a gateway's entry if and only if that entry is alone and answers the event |
| PendingExpect.WindowTakesIff | racelink/services/gateway_service.py:2541-2562 | over any run, an entry in place when a window on its gateway is cleared goes with it if and only if it was stamped before the close read the table, whichever request the window was of |
| PendingExpect.LateWindowTakesNewer | racelink/services/gateway_service.py:2541-2562 | the window of a request that closes after the next one was stamped clears that next one |
| StreamRetry.SendStream | racelink/services/gateway_service.py:734-891 | each send waits for exactly the targets not heard yet, at most retries + 1 sends are made, it stops early only when all are heard, and acked equals expected exactly when all were |
| StreamRetry.TargetsExact | racelink/services/gateway_service.py:787-828 | the addressed devices that are online, or all addressed ones when none is |
| StreamRetry.NobodyIsChasedTwice | racelink/services/gateway_service.py:865-889 | a device that answered is never waited for or counted again |
| StreamRetry.AcksAddUp | racelink/services/gateway_service.py:882-891 | the reported count is the sum of the acknowledgements over all sends |
| StreamRetry.AudibleTargetIsCounted | racelink/services/gateway_service.py:865-891 | a target that some allowed attempt is bound to hear is counted |
| StreamRetry.SilentTargetIsNotCounted | racelink/services/gateway_service.py:865-891 | a target that never answers is never counted |
| AutoRestore.PruningIsInvisible | racelink/services/gateway_service.py:2318-2346 | the pruned cache suppresses exactly when the complete history of marks would |
| AutoRestore.SuppressesIffRecentMark | racelink/services/gateway_service.py:2318-2329 | past the first cooldown that means exactly: some mark of the key is less than a cooldown old |
| AutoRestore.RestoreGuard.Prune | racelink/services/gateway_service.py:2341-2346 | the stale entries go and the others stay |
| AutoRestore.RestoreGuard.Suppressed | racelink/services/gateway_service.py:2318-2329 | answers from the pruned map as the whole history would |
| AutoRestore.RestoreGuard.RestoreKnownDeviceGroup | racelink/services/gateway_service.py:2082-2144 | resets a stored group that is out of range, restores exactly the devices that need it and are not in cooldown, and keeps any two restores of a key a cooldown apart |
| AutoRestore.SpacedAfterMark | racelink/services/gateway_service.py:2136-2144 | a mark made after an unsuppressed check keeps the restores spaced |
| AutoRestore.SpacedUnlessIntervening | racelink/services/gateway_service.py:2318-2346 | under every interleaving the restores of a key stay a cooldown apart if and only if every mark that falls between a handler's check and its mark is itself a cooldown older |
| AutoRestore.PromptHandlersSpaced | racelink/services/gateway_service.py:2136-2144 | handlers that mark within a cooldown of their check keep the spacing if and only if nobody marks the key in between |
| AutoRestore.OneThreadKeepsSpacing | racelink/services/gateway_service.py:2136-2144 | a key that one thread handles keeps its spacing whatever the others do |
| AutoRestore.RacingHandlersBothRestore | racelink/services/gateway_service.py:2136-2144 | two threads on one key, both checking before either marks, restore at once |
| Migration.ResolveTargets | racelink/services/onboarding_service.py:78-107 | all addresses in sorted order, or the known part of the selection in the operator's order, each once |
| Migration.PushAll | racelink/services/onboarding_service.py:240-260 | every node of the push set is pushed to once, in sorted order, noted among the effects as it happens, with its status; the two counts are right |
| Migration.InOrder | racelink/services/onboarding_service.py:213-281 | effects laid out as switch, discovery, pushes, persistent switch and recheck have that order |
| Sorting.SortedListExact | racelink/services/onboarding_service.py:240-243 | the sorted list of a set holds its elements, each once, in ascending order |
| Migration.NeverSeen | racelink/services/onboarding_service.py:262-270 | lists exactly the targets that did not answer, each once |
| Migration.StrandMissing | racelink/services/onboarding_service.py:296-303 | adds exactly the pushed nodes that did not come back, none twice |
| Migration.CaseBMigrate | racelink/services/onboarding_service.py:179-310 | stage, counts and lists for all answers of gateway and nodes, and on the recorded effects: the one persistent gateway write comes after all pushes, each node of the push set is pushed to once and nobody else |
| Migration.OkMeansEveryoneArrived | racelink/services/onboarding_service.py:305-309 | a finished run reports ok exactly when every target was discovered, acknowledged its push and was seen after the reboot |
| Migration.TargetsAddUp | racelink/services/onboarding_service.py:205-270 | requested is pushed_ok plus pushed_fail plus the undiscovered |
| Migration.EveryTargetEndsSomewhere | racelink/services/onboarding_service.py:296-309 | each target ends as arrived, stranded or with a failed push, and in one of them only |
| Migration.OnlyThoseMeantIff | racelink/services/onboarding_service.py:78-107 | nobody but those the operator meant is pushed to if and only if one of them is known, or nobody else answers |
| Migration.StrangerSelected | racelink/services/onboarding_service.py:235-238 | a selection of an unknown address pushes to the known device that was not selected |
| ChannelScan.ChannelScanService.ScanRegion | racelink/services/channel_scan_service.py:81-336 | which outcome a scan has, what it writes, what it leaves in the device records and what it reports |
| ChannelScan.ChannelScanService.VisitChannels | racelink/services/channel_scan_service.py:191-293 | the loop begins the channels up to the first that raises and follows the log of what was heard |
| ChannelScan.ScanLeavesNoTrace | racelink/services/channel_scan_service.py:185-311 | raised or not, every write is volatile, the last is the snapshot, the stored settings are untouched, and the live ones are back if that write is taken |
| ChannelScan.StampIsTheLastChannel | racelink/services/channel_scan_service.py:272-284 | a known device ends with the settings of the last channel it answered on, or its old ones |
| ChannelScan.ListedUnderFirstChannel | racelink/services/channel_scan_service.py:261-293 | the overall lists hold exactly the MACs heard, each under the first channel it was heard on |
| ChannelScan.KnownAndUnknownAddUp | racelink/services/channel_scan_service.py:313-324 | known plus unknown is the number of distinct full-length MACs heard |
| ChannelScan.LogIsWhatAnswered | racelink/services/channel_scan_service.py:248-293 | a scan that does not raise handles every full-length MAC that answered on any channel, and no other |
| ChannelScan.RowExact | racelink/services/channel_scan_service.py:248-293 | a row lists every full-length answer of its channel once, under its kind |
| ChannelScan.KeepExact | racelink/services/channel_scan_service.py:261-293 | filtering keeps each full-length responder of a kind once |
| CommaSplitter.SplitTopLevelCommas | gen_racelink_proto_py.py:162-205 | the scanning loop returns the segments between top-level commas, stripped of Unicode white space |
| CommaSplitter.SegmentsConserveText | gen_racelink_proto_py.py:162-205 | the segments joined with commas are the text: nothing is dropped or moved |
| CommaSplitter.SegmentsOfJoin | gen_racelink_proto_py.py:162-205 | joined tokens are cut where they were joined if and only if all but the last close what they open and none has a top-level comma |
| CommaSplitter.SplitInvertsJoin | gen_racelink_proto_py.py:162-205 | splitting inverts joining if and only if, besides, no token is padded and the last is not empty |
| TerseSplitter.Split | racelink/services/host_wifi_service.py:155-182 | the index loop returns the fields, for every line |
| TerseSplitter.FieldsLost | racelink/services/host_wifi_service.py:155-182 | a written line reads back with one field fewer for every field before the last that ends in a backslash |
| TerseSplitter.SplitUndoesEscape | racelink/services/host_wifi_service.py:155-182 | splitting undoes escaping if and only if no field but the last ends in a backslash |

## Left out

- Receiver.Receive: states what racelink_proto.h says. Where the header is silent the model decides: an immediate effect
  leaves an armed one armed, a SYNC with nothing armed leaves the pending configuration pending, a CONTROL body with
  bytes left over is dropped, and a SYNC sets the timebase to the 24-bit clock it carries. SET_GROUP is not modelled.
- SceneRunner.DispatchOp: startblock packets have a sender of their own and an approximate size; their bytes, delays
  between actions, cancellation and the fan-out of one send over several networks are not modelled.
- DispatchPlanner.Plan: params are typed records; strings that would be converted to numbers and unknown keys are not.
- BindModel.Evaluate: looking the network up, asking the gateway and updating the record are one step here; in the
  program only the update is under the lock. Logging, broadcasts, persistence and time stamps are left out.
- BindModel.Next: the steps are those of the bind service, of a network's migration and of the network manager's change
  of settings. Creating an Ethernet network (which has no settings), deleting a network (which is refused while anything
  refers to it), loading a saved configuration and a transport that fails to start are left out; Ethernet transports are
  told from others only by their address; detaching and forgetting are two steps. `Outside` stands for everything else
  that changes a gateway's settings.
- BindModel.Switch: the devices a migration pushes to before it and verifies after it are left out here (`Migration`
  models that pattern for the single-gateway case); what the firmware does between a write and its reboot is
  `WriteFate`.
- GatewayBind.GatewayBindService.Renew: bind records are values in a map that is reassigned, not objects changed in
  place, so an alias held outside the service is not captured; networks and transports are shared objects.
- RfPolicy.SameAir: the minimum separation is the default of 500 kHz, not a parameter.
- MAC addresses are taken as already trimmed and in upper case.
- PendingExpect.Next: marking a device online or offline, which goes with a match or a closed window, is left out.
- StreamRetry.SendStream: choosing the transport and the timeouts are left out; replies come from the matcher's filter.
- AutoRestore.RestoreGuard.RestoreKnownDeviceGroup: the worker that sends SET_GROUP and waits for its answer is left
  out; times are reals, not floats.
- Migration.CaseBMigrate: cases A and C, a single loop and a single write, would only add easy members.
- ChannelScan.ScanRegion: a restoring write that raises and one that is refused are the same here.
- TerseSplitter.Terse: writes a backslash unescaped, which is what the splitter reads; nmcli itself would double it.
- `rf_migration_service`'s moves of single devices and groups between networks: they change which network a device
  belongs to, and no network's or gateway's settings.
- Serial, UDP and subprocess transports, the rest of the web interface, persistence, OTA updates and the effect, palette
  and channel tables: input and output, or finite data.
