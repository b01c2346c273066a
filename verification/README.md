# rflow: a verified model of the decision logic

rflow is a virtual KVM: a host owns the physical keyboard and mouse, and when the cursor leaves a
screen through an edge that is linked to another screen, input follows it there. These modules model
the deterministic core that decides where input goes, and the small stateful algorithms around it:

- **Screens and layouts** (`ScreenModel`, `LayoutModel`, `LayoutProperties`, `LayoutOutcomes`,
  `FaultReasons`): screens, facing links, the validation scans and their first faults, the layout
  commands, resolving a layout against an inventory.
- **Routers** (`EdgeBarriers`, `TopologyRouting`, `RouterRuns`, `RouterGeometry`, `RouterOutcomes`,
  `CursorRouting`, `Migration`, `MigratedHosts`): the edge barrier, the router over a topology, the
  legacy two-screen router, and the migration from one to the other.
- **Sessions** (`InputModel`, `DesktopSessions`, `InputOwnership`, `OwnershipRuns`, `InputHistories`,
  `MigratedSessions`): which inputs are held, where they have been injected, the ordered effects of
  every event, what each machine is told, and how a migrated host compares with a legacy one.
- **Host and clients** (`WireProtocol`, `HostClient`, `Composition`, `Deliveries`, `Numberings`,
  `HostLoops`, `LoopRuns`): effects turned into messages on one reliable stream per client, what holds
  over every interleaving, what each client does, and the host's loop, in which every topology is
  resolved from the layout and the inventory of the moment.
- **Around the core**: the diagram's breadth-first placement (`GridEmbedding`), the two-file store
  (`TopologyStoring`, `StoreOutcomes`), inventory merging (`InventoryMerging`), the pairing limiter
  (`PairingLimiter`) and the trust database (`TrustDatabases`, `TrustOutcomes`).

Objects that the program updates in place (routers, barrier, session, store, inventory, limiter, trust
store, table of peers) are classes. Each method's postcondition gives the whole new state and result as
a function of the old state, and the properties below are proved about runs of those functions.
Validation loops are methods proved equal to the scan they perform, and the scan is proved to accept
exactly a declarative predicate.

## Main results

1. **Ownership by replay.** Fold all effects of any host run into what is pressed on each machine: the
   result is exactly what the session believes, at most one target ever holds anything, after every
   single effect, and what is injected equals what is held from every crossing until a release event.
   Every input typed goes to the side in control, in order, less the repeats of keys not held.
2. **Host and clients.** Over every interleaving, drain a connected client's stream: what it has done
   since it connected is what follows from obeying, in order, all it ought to have been told, it holds
   what is due to it, and its cursor is where the host's router put it on last entering one of its
   screens; after a stop or a disconnect it holds nothing. A turn of the host's loop fails exactly when
   the cursor crosses onto another monitor of the host itself, when it is on a screen that is lost while
   the host's own is offline, or when a joining peer meets a direction that cannot be migrated.
3. **Timed crossing, exactly**, in terms an observer outside the barrier can check; and a bound on the
   crossing rate over whole runs with topology changes in between.
4. **Migration.** The untimed topology router stays in step with the legacy router over a run if and
   only if none of its motions is a push into a corner. A host's session, which routes by time, has the
   effects of a legacy session event by event if and only if at every motion the delay and the distance
   let the cursor through together; and from start-up through a peer's report to the migrated topology,
   it can leave its screen at all if and only if that screen is the migration's anchor.
5. **Layouts.** Validation is exact and names the first fault, each command is accepted in exactly the
   cases written out, commands are closed over valid layouts, splitting and resolving are inverse to
   each other, availability agrees with placement, and a size set for a screen governs its routing.
6. **Grid embedding.** The search reports a complete diagram if and only if an embedding exists, and
   draws the screens apart if and only if some embedding does.
7. **Store, inventory, limiter, trust.** Crash safety and compare-and-swap of `apply`; over any run of
   reports a layout stays valid if and only if every local one merges cleanly; the bounded queue
   answers as the unbounded log would; endpoints are pinned.

## Where the code does not do what one would expect

Each is an exact condition in the model, together with an input on which the expectation fails.

- `docs/specs/003.md:399-400` lets a *deleted* active screen return control home. The code does so only
  while the new topology still lists the screen; otherwise it rejects the topology
  (`LostScreenComesHome`, `DeletedScreenExample`), and a rejected topology ends the host's run. The
  loop itself never deletes a screen, so there this cannot happen (`TurnExact`).
- Crossing onto a second monitor of the host itself ends the host's run: it looks for a connection to
  its own device (`StepKeepsSound`, `TurnExact`, `SecondMonitorEndsRun`).
- Entering a screen one pixel long through its far edge lands at -1 (`RouteInsideExact`,
  `OnePixelScreenIsMissed`).
- With the neighbour above or below, a push that also points out of a side edge counts toward crossing
  in the legacy router but not in the untimed topology router (`MigrationRunExact`,
  `CornerPushIsVisible`, `CornerPushExample`).
- A migrated host does not route as the legacy host did, even when its screen is the anchor: the legacy
  barrier measures distance, the host's delay measures time (`TimedStepExact`, `MotionExact`,
  `SessionRunExact`, `EightPixelExample`).
- A migration links the first primary screen of the device, online or not, but the host stands on the
  first online one. If these differ, the host cannot leave its screen (`HostTakesOverExact`,
  `MigrationEndToEnd`, `TwoMonitorsExample`).
- `replace` does not check the old layout against the new inventory, so stopping it between its two
  writes can leave files that no longer load (`ReplaceCrashExact`, `ReplaceCanStrandTheStore`).
- Revisions saturate: at the largest one the same command takes effect again (`RevisionStep`,
  `PinnedRevisionRepeats`).
- A local report does not recognize its own screen ID on a screen recorded for another device, and
  makes the inventory invalid (`MergeValidExact`, `MisnamedScreenBreaksMerge`); IDs named by their
  devices never do this (`OrderlyIsClean`).
- A local report updates everything about a known screen but its primary flag, which the migration's
  anchor depends on (`PrimaryExact`, `KeptFlagExample`).
- A complete diagram may still draw two screens on the same cell, exactly when every embedding does
  (`ApartExact`, `PlaceLinked`, `CompleteMayOverlap`).

## Model

| member | source | states |
|---|---|---|
| ScreenModel.CheckIdsExact | src/core/topology.rs:427-436 | Scanning IDs with a set of those seen accepts exactly the lists of non-blank, pairwise distinct IDs that avoid the seen ones |
| ScreenModel.CheckLinksExact | src/core/topology.rs:437-453 | Scanning links with a set of occupied edges accepts exactly the facing links between known screens in which no edge occurs twice |
| ScreenModel.CheckTopologyExact | src/core/topology.rs:427-453 | Validation succeeds if and only if the topology is valid in the declarative sense |
| ScreenModel.ValidateTopology | src/core/topology.rs:427-453 | The two loops report the first fault in order, and none exactly for valid topologies |
| ScreenModel.KnownIffListed | src/core/topology.rs:795-810 | A lookup by ID succeeds exactly for the IDs that occur in the topology |
| ScreenModel.FindsItself | src/core/topology.rs:803-810 | With distinct IDs, looking a screen up by its own ID finds that very screen |
| EdgeBarriers.EdgeBarrier.Push | src/core/topology.rs:538-550 | Accumulates positive distance toward one edge, forgets it when the edge changes, opens and resets at 8 |
| EdgeBarriers.EdgeBarrier.WaitElapsed | src/core/topology.rs:552-566 | The first motion into an edge starts the wait, a later one opens and resets once 250 ms have passed |
| EdgeBarriers.EdgeBarrier.StartWait | src/core/topology.rs:568-574 | Starts a wait only for another edge or when none is running |
| EdgeBarriers.EdgeBarrier.Reset | src/core/topology.rs:576-580 | Leaves no edge, distance or start time |
| TopologyRouting.FindPeerExact | src/core/topology.rs:779-793 | A linked edge is the other end of some link at that edge whose screen is online, and there is none only if no link offers one |
| TopologyRouting.TopologyRouter.Open | src/core/topology.rs:602-622 | Opens exactly for a valid topology containing the screen, clamping the position, with an idle barrier; otherwise says which check failed |
| TopologyRouting.TopologyRouter.SetPosition | src/core/topology.rs:628-641 | Moves to the clamped position on a known screen and resets the barrier, or changes nothing |
| TopologyRouting.TopologyRouter.ReplaceTopology | src/core/topology.rs:643-656 | Takes over a valid topology that contains the active screen, clamps the position and resets the barrier, or changes nothing |
| TopologyRouting.TopologyRouter.RouteMotion | src/core/topology.rs:658-777 | Route and complete next state, timed or not, as the routing function of the old state |
| TopologyRouting.TopologyRouter.PushThrough | src/core/topology.rs:686-751 | The branch that pushes against a linked edge: barrier, landing point, new active screen |
| TopologyRouting.RouteStaysPlaced | src/core/topology.rs:666-777 | No motion ever leaves the screens of the topology |
| RouterOutcomes.PushedExact | src/core/topology.rs:675-690 | An edge is pushed if and only if the cursor stands on it and the motion points out of it, sideways before up and down |
| RouterOutcomes.ReachesExact | src/core/topology.rs:752-765 | A motion reaches an edge if and only if it moves toward it and leaves the cursor on it |
| RouterOutcomes.AlwaysOnOrBeside | src/core/topology.rs:666-777 | After any motion the cursor is on its screen, or one pixel before it when that is one pixel long |
| RouterOutcomes.StayExact | src/core/topology.rs:666-777 | A motion that does not cross is passed on unchanged and ends at the pixel nearest to the exact sum |
| RouterOutcomes.CrossExact | src/core/topology.rs:686-751 | A motion crosses if and only if it pushes out of an edge with a link to an online screen and the barrier opens |
| RouterOutcomes.LinkedEdgeExact | src/core/topology.rs:779-793 | In a valid topology an edge leads exactly to the other end of the link at it, if that screen is online |
| RouterOutcomes.CrossingLands | src/core/topology.rs:706-751 | A crossing lands on the screen linked there, one pixel in from the edge entered and at the same proportion along it |
| RouterOutcomes.PlacedNearest | src/core/topology.rs:628-656 | A topology taken over, and a position set, put the cursor on the nearest pixel and make the barrier idle |
| RouterRuns.SelectedOnEdgeIsPushed | src/core/topology.rs:675-690 | A motion selecting the edge the cursor already sits on pushes against that edge |
| RouterRuns.SelectedEdgeIsReached | src/core/topology.rs:752-777 | A motion selecting an edge without crossing leaves the cursor on that edge |
| RouterRuns.CrossingStep | src/core/topology.rs:666-777 | A timed motion crosses if and only if it selects the edge already waited for and 250 ms have passed, and otherwise updates the barrier as an observer would |
| RouterRuns.EventStep | src/core/topology.rs:628-777 | Every event keeps a pending wait on a linked online edge that the cursor stands on |
| RouterRuns.BarrierIsHistory | src/core/topology.rs:552-581 | In every timed run the barrier is exactly the memory of the current unbroken run of motions selecting one edge |
| RouterRuns.TimedCrossingExact | src/core/topology.rs:666-777 | The cursor crosses through an edge if and only if every motion of an unbroken run selected it and the run began at least 250 ms ago; it then stands on that edge and enters an online screen |
| RouterRuns.CrossingsAreSpaced | src/core/topology.rs:552-581 | 250 ms times the crossings so far never exceeds the time that passed before the pending wait began |
| RouterRuns.FirstTimeIsFirst | src/core/topology.rs:662-664 | The first motion of a run bears its smallest timestamp |
| RouterRuns.CrossingRateBound | src/core/topology.rs:643-664 | From an idle barrier, with nondecreasing timestamps and topology or position changes anywhere, 250 ms times the number of crossings is at most the time from the first motion to the last; without motions there are none |
| RouterGeometry.ScaleAxisInRange | src/core/topology.rs:1247-1249 | For in-range values the quotient already lies on the target axis, so the clamp never acts |
| RouterGeometry.ScaleAxisMonotone | src/core/topology.rs:1247-1249 | Scaling keeps the order of coordinates |
| RouterGeometry.ScaleAxisThereAndBack | src/core/topology.rs:1247-1249 | Scaling there and back never moves forward, drifts back by less than the two roundings, and by at most one pixel when the other axis is not shorter |
| RouterGeometry.LandingInside | src/core/topology.rs:708-742 | The landing point lies on the target screen exactly if that screen has two pixels in the direction of a leftward or upward crossing |
| RouterGeometry.RouteInsideExact | src/core/topology.rs:666-777 | After any motion the cursor is inside the active screen if and only if the barrier was not about to let it left or up onto a screen one pixel long, a condition on the state before the motion |
| RouterGeometry.OnePixelScreenIsMissed | src/core/topology.rs:710-717 | A concrete crossing that lands at -1 |
| RouterGeometry.TwoMotionsCross | src/core/topology.rs:552-566 | Two timed motions 250 ms apart carry the cursor from one screen to the next, and where to |
| RouterGeometry.AlwaysInside | src/core/topology.rs:602-777 | While screens have at least two pixels each way the cursor is always inside its screen, in timed runs, untimed runs and mixtures, saturating sums included |
| RouterGeometry.LinkedEdgeInvolution | src/core/topology.rs:779-793 | In a valid topology a linked edge faces the edge it was reached from, and leads straight back while the first screen is online |
| RouterGeometry.OutwardStep | src/core/topology.rs:686-751 | One push straight out of a linked edge adds its length and crosses exactly when the total reaches 8 |
| RouterGeometry.OutwardStays | src/core/topology.rs:705-748 | Pushed straight against an edge the cursor does not move, and the landing point does not depend on the distance |
| RouterGeometry.BarrierMeasuresDistance | src/core/topology.rs:537-550 | Pushes straight out of a linked edge cross exactly at the first prefix whose sum reaches 8, landing on the same pixel however the distance is divided |
| CursorRouting.CursorRouter.constructor | src/core/topology.rs:953-963 | Starts on the local screen, in its middle, with an idle barrier |
| CursorRouting.CursorRouter.SetLocalPosition | src/core/topology.rs:970-975 | Puts the cursor on the local screen at the clamped position and resets the barrier |
| CursorRouting.CursorRouter.RouteMotion | src/core/topology.rs:977-982 | Dispatches to the active side; route and next state as one direction-independent function |
| CursorRouting.CursorRouter.RouteLocal | src/core/topology.rs:984-1087 | The eight-way table of entry points equals going toward the direction's side on each axis separately |
| CursorRouting.CursorRouter.RouteRemote | src/core/topology.rs:1089-1192 | The table for the way back equals the same rule with the sides reversed |
| CursorRouting.CursorRouter.PushOutward | src/core/topology.rs:1195-1245 | A motion out toward the other screen pushes the barrier by its outward distance, any other resets it |
| CursorRouting.OutwardExact | src/core/topology.rs:1195-1245 | A motion counts toward the other screen if and only if it pushes out of every border that faces it, both at once in a diagonal direction, and then by the lesser of the two steps |
| LayoutModel.CheckLayoutLinksExact | src/core/topology.rs:251-266 | The endpoint scan accepts exactly the facing links between known screens in which no edge occurs twice |
| LayoutModel.CheckOverridesExact | src/core/topology.rs:267-278 | The override scan accepts exactly lists of known screens without repetition |
| LayoutModel.CheckLayoutExact | src/core/topology.rs:243-280 | Layout validation succeeds if and only if the layout is valid in the declarative sense |
| LayoutModel.ValidateInventory | src/core/topology.rs:99-113 | The loop accepts exactly inventories with non-blank, distinct IDs |
| LayoutModel.ValidateLayout | src/core/topology.rs:243-280 | The three loops report the first error in order, and none exactly for valid layouts |
| LayoutProperties.EditStaysValid | src/core/topology.rs:282-346 | Every successful command other than Replace leaves a valid layout valid |
| LayoutProperties.ApplyExact | src/core/topology.rs:282-350 | On a valid layout the final re-validation can only fail for Replace, and then exactly for an invalid layout; a success is valid, one revision up and otherwise the edit |
| LayoutProperties.LinkPairs | src/core/topology.rs:379-416 | A link joins exactly the two edges it names, frees those they were joined to and leaves every other pair alone |
| LayoutProperties.UnlinkPairs | src/core/topology.rs:310-319 | Unlinking dissolves exactly the pair at that edge |
| LayoutProperties.UnplacePairs | src/core/topology.rs:320-329 | Unplacing dissolves exactly the pairs of that screen |
| LayoutProperties.OverrideEffect | src/core/topology.rs:330-344 | An override command decides the override of its own screen and of no other |
| LayoutProperties.LinkThenUnlink | src/core/topology.rs:310-319 | Linking two free edges and unlinking either end restores the list of links and the overrides |
| LayoutProperties.PlacementAvailability | src/core/topology.rs:455-511 | Reports for each of the four positions the occupying screens, or the first of the three argument errors |
| LayoutProperties.CollectOccupants | src/core/topology.rs:488-504 | The inner loop gathers the occupants of either edge in link order |
| LayoutProperties.OccupiedByExact | src/core/topology.rs:488-504 | The report names exactly the screens linked to one of the two edges, none twice |
| LayoutProperties.AvailabilityAgreesWithPlace | src/core/topology.rs:455-511 | A position is reported unoccupied if and only if placing there without replacing succeeds |
| LayoutProperties.ResolvedIsValid | src/core/topology.rs:352-377 | Resolving succeeds exactly for valid layouts and yields a topology that passes its own validation |
| LayoutProperties.SplitThenResolve | src/topology_store.rs:65-100 | Splitting any valid topology into layout and inventory and resolving them gives that exact topology back |
| LayoutProperties.ResolveThenFromTopology | src/core/topology.rs:225-241 | Reading a layout back from its resolution keeps revision, links and the overrides as a set |
| LayoutOutcomes.AcceptedExactly | src/core/topology.rs:282-416 | Exactly which commands succeed: joining needs two known, different screens, facing edges, and free edges unless it replaces; the others need a known screen, Replace a valid layout |
| LayoutOutcomes.RefusedFor | src/core/topology.rs:379-416 | Which of the five reasons is given when two edges are not joined, and which edge is named as taken |
| LayoutOutcomes.PlaceIsLink | src/core/topology.rs:290-302 | Placing a screen is linking the anchor's edge on that side to the opposite edge of the screen |
| LayoutOutcomes.CommandKeepsRest | src/core/topology.rs:282-350 | A command changes links or overrides, never both, and raises the revision by one up to the largest |
| LayoutOutcomes.ResolvedScreen | src/core/topology.rs:352-377 | Each screen resolves to the size set for it, else to its own, and otherwise as the inventory describes it |
| LayoutOutcomes.OverrideDecidesSize | src/core/topology.rs:330-344 | After setting or taking back a size the resolved screen has that size, or its own |
| LayoutOutcomes.OverrideGovernsRouting | src/core/topology.rs:66-69 | On a screen with a size set, a motion that stays ends at the nearest pixel within that size, and the cursor leaves if and only if it is pushed out of a border of that size through a link whose barrier opens |
| FaultReasons.TopologyFaultIsFirst | src/core/topology.rs:427-453 | A rejected topology is rejected for its first fault: everything before it is in order and the reason given is true |
| FaultReasons.LayoutErrorIsFirst | src/core/topology.rs:243-280 | So is a rejected layout: version, inventory, links end by end, overrides |
| Migration.MigratedTopology | src/runtime.rs:1827-1869 | Migrating into an empty layout gives two online screens joined in the legacy direction, if the local screen is online |
| Migration.MigrationIsStored | src/runtime.rs:816-830 | Storing a migrated layout by replacing the one it came from stores the migrated layout, revision included |
| Migration.OnlyTheAnchorIsLinked | src/runtime.rs:1832-1838 | A migrated layout links the anchor and the remote screen only: no other screen of this device has a way out, and with the anchor offline the remote screen has no way back |
| Migration.MigrationStart | src/runtime.rs:831-831 | A router standing on the anchor takes over the migrated topology in the state of a legacy router with the cursor at the same place |
| Migration.MigrationStepExact | src/core/topology.rs:658-660 | One untimed motion: the routers give the same route and next state if and only if the motion is not a corner push |
| Migration.TimedStepExact | src/core/topology.rs:662-777 | From the same place, whatever the barriers hold, a timed motion goes the way of the legacy router if and only if delay and distance let the cursor through together, and then to the same place |
| Migration.StatesAgree | src/core/topology.rs:937-1245 | The two states stay in correspondence over every run without corner pushes |
| Migration.MigrationPreservesRouting | src/core/topology.rs:658-660 | Over every untimed run without corner pushes each motion is routed as the legacy router would |
| Migration.SidewaysNeverCorners | src/core/topology.rs:1195-1245 | For a left or right neighbour no motion of any run is a corner push |
| Migration.CornerPushIsVisible | src/core/topology.rs:675-694 | After a corner push a motion exists that crosses in the legacy router and not in the topology router |
| Migration.CornerPushExample | src/core/topology.rs:675-694 | A concrete corner push that only the legacy router turns into a crossing |
| MigratedHosts.MigrationRunExact | src/core/topology.rs:937-1245 | Over a whole untimed run the two routers give the same routes from corresponding states if and only if no motion of the run is a corner push |
| MigratedHosts.UnlinkedStaysThroughout | src/core/topology.rs:779-793 | A screen without linked edges is never left, whatever the motions |
| MigratedHosts.LegacyEscapes | src/core/topology.rs:984-1087 | The legacy router crosses within two long pushes straight toward the remote screen, from anywhere on the local one |
| MigratedHosts.HostNodeIsHostScreen | src/runtime.rs:770-776 | The first online screen of this device in a resolved topology is the first one in the inventory |
| MigratedHosts.TakeOverExact | src/core/topology.rs:643-660 | A router that stands on the host's screen and takes over the migrated topology goes, on untimed motions without corner pushes, the way of the legacy router if and only if that screen is the anchor; otherwise the screen has no linked edge |
| MigratedHosts.TwoMonitorsExample | src/runtime.rs:1832-1838 | Two online monitors, the second primary: the migration succeeds and the screen the host stands on has no linked edge |
| MigratedSessions.GoOutAlongside | src/core/session.rs:325-341 | Leaving by either kind of routing has the same effects in the same order, up to how the remote side is addressed |
| MigratedSessions.ComeHomeAlongside | src/core/session.rs:342-355 | So has coming home |
| MigratedSessions.MotionExact | src/core/session.rs:288-357 | One motion: the session over the topology has the effects of the legacy session if and only if delay and distance let the cursor through together; then the two stay side by side |
| MigratedSessions.SessionRunExact | src/core/session.rs:230-357 | Over every run without topology changes the two sessions have the same effects event by event if and only if at every motion the two barriers open together |
| MigratedSessions.StaysHome | src/core/session.rs:288-357 | A host whose screen has no linked edge keeps local control whatever it handles |
| MigratedSessions.HostDeparts | src/core/session.rs:369-408 | A host with a link out of its screen gives control away within two motions 250 ms apart |
| MigratedSessions.HostTakesOverExact | src/runtime.rs:816-832 | A host that takes over the migrated topology can leave its screen if and only if that screen is the anchor, and then compares with a legacy session as above |
| MigratedSessions.MigrationEndToEnd | src/runtime.rs:743-832 | The same from start-up: the session opened on the first online screen over an empty layout, any events, a peer reporting its screens, the migration and the take-over |
| MigratedSessions.OneMonitorExample | src/runtime.rs:1832-1838 | One monitor, a peer with one screen: whatever the host handled before, it can leave its screen |
| MigratedSessions.EightPixelExample | src/core/session.rs:298-298 | One motion of eight pixels from the right edge: the legacy session crosses, the host's does not |
| InputModel.Least | src/core/session.rs:15-19 | The least element of a non-empty set of held inputs, in the derived order |
| InputModel.OrderedElements | src/core/session.rs:466-470 | Iterating a sorted set lists exactly its elements |
| InputModel.OrderedAscends | src/core/session.rs:466-470 | Iterating a sorted set lists it strictly ascending |
| DesktopSessions.DesktopSession.LegacyHost | src/core/session.rs:111-123 | A legacy host starts with local control, nothing held and a centred cursor |
| DesktopSessions.DesktopSession.OpenHost | src/core/session.rs:125-143 | A topology host opens exactly when its router does, with local control and nothing held |
| DesktopSessions.DesktopSession.Client | src/core/session.rs:145-155 | A client starts without router, holding nothing |
| DesktopSessions.DesktopSession.SetLocalPosition | src/core/session.rs:157-170 | Sets local control and, where possible, the clamped local position; releases nothing |
| DesktopSessions.DesktopSession.ReplaceTopology | src/core/session.rs:179-228 | Follows the new topology, comes home from a screen that is no longer routable, or fails and leaves the whole session unchanged |
| DesktopSessions.DesktopSession.Handle | src/core/session.rs:230-259 | Effects and complete next state of every event as a function of the old state |
| DesktopSessions.DesktopSession.HandlePhysicalInput | src/core/session.rs:261-286 | Drops an orphan key repeat, records the input and sends it to the side in control |
| DesktopSessions.DesktopSession.HandlePhysicalMotion | src/core/session.rs:288-357 | Routes a motion and produces the ordered effects of staying, leaving or returning |
| DesktopSessions.DesktopSession.RouteOverTopology | src/core/session.rs:292-314 | The topology branch of a motion |
| DesktopSessions.DesktopSession.EnterScreenFrom | src/core/session.rs:369-408 | Releases the previous side, enters, then presses everything held, recording each press |
| DesktopSessions.DesktopSession.EnterLocally | src/core/session.rs:410-430 | Releases the remote side, places the cursor, presses everything held here and announces local control |
| DesktopSessions.DesktopSession.ReleaseInjected | src/core/session.rs:466-480 | Releases local inputs one by one and a non-empty remote side as a whole, and forgets both |
| InputOwnership.ComeHomeShows | src/core/session.rs:410-430 | Coming home leaves the world as the session believes and never shows two holders |
| InputOwnership.GoOutShows | src/core/session.rs:369-408 | Entering a screen, from here or from another one, releases before it presses |
| InputOwnership.InputFaithful | src/core/session.rs:261-286 | A physical input keeps the session faithful to the world |
| InputOwnership.ReleaseFaithful | src/core/session.rs:466-480 | A release event keeps it so and leaves both injected sets empty |
| InputOwnership.LegacyMotionFaithful | src/core/session.rs:315-357 | A motion over the legacy router keeps it so |
| InputOwnership.ScreenMotionFaithful | src/core/session.rs:292-314 | A motion over the topology router keeps it so |
| InputOwnership.ReplaceFaithful | src/core/session.rs:179-228 | An accepted topology keeps it so |
| InputOwnership.StepFaithful | src/core/session.rs:230-480 | After every host event the world is what the session believes, no two targets ever held something at once, control agrees with the cursor and only held inputs are injected |
| OwnershipRuns.OpenedIsInitial | src/core/session.rs:125-143 | An opened topology host is the start of a run |
| OwnershipRuns.PositionedIsInitial | src/core/session.rs:157-170 | Placing the cursor before the first event keeps it one |
| OwnershipRuns.OwnershipByReplay | src/core/session.rs:230-480 | For every host run, replaying all effects gives exactly the local injected set here, the remote one on the active remote target and nothing elsewhere; after each effect at most one target holds anything |
| OwnershipRuns.ReleaseEmptiesTheWorld | src/core/session.rs:254-257 | After a release, disconnect or stop nothing is pressed anywhere |
| OwnershipRuns.StepSync | src/core/session.rs:230-480 | Each event other than a release keeps injected equal to held, and each transfer establishes it |
| OwnershipRuns.MotionSync | src/core/session.rs:288-357 | A motion keeps what is injected equal to what is held, or transfers all of it |
| OwnershipRuns.InjectedEqualsHeld | src/core/session.rs:230-480 | From the start or any transfer until a release event, what is injected is exactly what is held |
| OwnershipRuns.StepReachesOnline | src/core/session.rs:288-430 | Every effect that reaches for a screen reaches for the active remote one, which is online |
| OwnershipRuns.NeverRoutedOffline | src/core/session.rs:179-228 | In every reachable state control is local exactly on the local screen, and a remote active screen is online and linked |
| OwnershipRuns.RoutableExact | src/core/session.rs:190-199 | A screen can keep control if and only if it is listed as online and some link has an end on it |
| OwnershipRuns.RemoteControlKept | src/core/session.rs:188-228 | An accepted topology leaves control remote, and has no effects, if and only if the screen with the cursor is online and linked in it |
| OwnershipRuns.ReplaceAcceptedExactly | src/core/session.rs:179-228 | Exactly which topologies are accepted; a rejected one has no effects and changes nothing |
| OwnershipRuns.LostScreenComesHome | src/core/session.rs:188-227 | When the active remote screen is no longer routable, control comes home with everything held pressed here if and only if the topology still lists that screen |
| OwnershipRuns.DeletedScreenExample | src/core/topology.rs:645-650 | A host that is opened and crosses away in two motions; then the deletion of the active screen is rejected and control stays remote |
| OwnershipRuns.StepAnnounces | src/core/session.rs:288-430 | A change of control is announced last and truthfully, and cursors are placed where the router believes them to be |
| OwnershipRuns.StaleMotionsIgnored | src/core/session.rs:239-252 | A client follows a motion exactly when its sequence number exceeds all before it |
| InputHistories.HeldExact | src/core/session.rs:432-464 | An input is held if and only if it was pressed and has not been released since |
| InputHistories.HeldByHistory | src/core/session.rs:432-447 | Over every run the session's physical set is what the inputs so far leave held |
| InputHistories.InputDelivered | src/core/session.rs:261-286 | A physical input, scroll or repeat included, is passed on unchanged, once, to the side in control; only the repeat of a key that is not held has no effect |
| InputHistories.TypedArrives | src/core/session.rs:261-286 | Over every run the inputs passed on are the inputs typed, in order, less those repeats, each to the side in control at the time |
| InputHistories.MotionCarried | src/core/session.rs:288-357 | A motion that does not cross is passed on unchanged, once, to the side in control |
| InputHistories.PlacedByHand | src/core/session.rs:157-172 | Placed by hand before the first event, the cursor is on the nearest pixel of the local screen and nothing else has changed |
| InputHistories.LegacyStart | src/core/topology.rs:953-963 | A legacy host starts in the middle of its own screen, with nothing held |
| InputHistories.StepTold | src/core/session.rs:179-480 | What every event tells every machine: the side left lets go, the side entered is told where the cursor is and presses what is held, the side in control gets what is typed, and nobody else anything |
| InputHistories.RunTold | src/core/session.rs:179-480 | Over every run each machine is told that, in order, and nothing else |
| WireProtocol.CanonicalIsNative | src/platform.rs:178-198 | The canonical events are exactly those the platform layer can capture |
| WireProtocol.WireRoundTripExact | src/protocol.rs:83-138 | An event survives encoding and decoding if and only if it is canonical; only a scroll along both axes cannot be sent |
| WireProtocol.DecodedIsCanonical | src/protocol.rs:108-138 | Whatever decodes is canonical |
| WireProtocol.NativeVerbatim | src/protocol.rs:83-143 | A captured native event goes over the wire as it was captured if and only if a key or button value is 0, 1 or 2 and a sideways scroll is not by nothing |
| WireProtocol.NativeMeaning | src/platform.rs:178-198 | Which native types, codes and values are keys, the five named buttons, other buttons and the two scrolls, and which state each value means |
| HostClient.PeerTable.Send | src/runtime.rs:1199-1207 | Uses up the next sequence number, wrapping, and appends the encoded event |
| HostClient.PeerTable.FindOnlyPeer | src/runtime.rs:1276-1281 | Returns the peer exactly if there is one and only one |
| HostClient.PeerTable.ExecuteOne | src/runtime.rs:1178-1256 | The message each effect puts on which stream, or its error; a release to an absent peer is skipped |
| HostClient.PeerTable.Execute | src/runtime.rs:1170-1257 | Executes effects in order up to the first failure |
| HostClient.PeerTable.Beat | src/runtime.rs:1019-1026 | A heartbeat with the next number of its own connection goes to every peer |
| HostClient.PeerTable.Inform | src/runtime.rs:1010-1016 | A report of the host's screens goes to every peer |
| HostClient.ExecuteOneDelivers | src/runtime.rs:1178-1274 | One deliverable effect changes what the drained streams amount to by what it owes each device |
| HostClient.ExecuteDelivers | src/runtime.rs:1170-1274 | A deliverable list never fails and leaves each device owed exactly the fold of the list |
| Composition.InputFold | src/core/session.rs:261-286 | What a physical input sends each device is what the change of the session makes due |
| Composition.StopFold | src/core/session.rs:466-480 | Stopping sends each device what leaves it with nothing due |
| Composition.MotionFold | src/core/session.rs:288-430 | What a motion sends each device is what the move of the cursor makes due |
| Composition.ReplaceFold | src/core/session.rs:179-228 | The same for a topology change |
| Composition.HandledKeepsSound | src/runtime.rs:891-916 | Captured input and stopping, unless they carry the cursor onto the screen of an unconnected device, are carried out without failure and keep the system sound |
| Composition.UnattendedMotionFails | src/runtime.rs:1214-1222 | A motion that carries the cursor onto the screen of an unconnected device fails, naming that device, and leaves every client with nothing once its stream is drained |
| Composition.HandledExact | src/runtime.rs:891-916 | Captured input and stopping fail exactly in that case |
| Composition.StrandingExact | src/core/session.rs:292-314 | That case in terms of the state before the motion: the barrier opens on a link to another remote screen of an unconnected device |
| Composition.ReplacedKeepsSound | src/runtime.rs:917-1040 | An accepted topology keeps the system sound, whoever has just left, as long as the screens of those who left are offline in it |
| Composition.ConnectKeepsSound | src/runtime.rs:789-845 | A newly connected client owes and is owed nothing |
| Composition.ReceiveKeepsMachine | src/core/session.rs:230-259 | Whatever a client handles, its machine holds exactly what its session believes |
| Composition.DeliverKeepsSound | src/runtime.rs:2138-2172 | Delivering a message changes nothing in the end result |
| Composition.DatagramKeepsSound | src/runtime.rs:2128-2137 | Motion datagrams in any number and order do not disturb it |
| Composition.BeatKeepsSound | src/runtime.rs:1019-1026 | Heartbeats on the same streams do not disturb it |
| Composition.ReportKeepsSound | src/runtime.rs:1010-1016 | Reports of screens on the same streams do not disturb it |
| Composition.StepKeepsSound | src/runtime.rs:787-1061 | Whichever party moves, a step fails exactly when a topology cannot be followed or the cursor crosses onto the screen of an unconnected device, and otherwise the system is sound again |
| Composition.RunsStaySound | src/runtime.rs:787-1061 | Every reachable state of host, streams and clients is sound |
| Composition.ClientsHoldWhatIsDue | src/runtime.rs:1199-1222 | In every reachable state a client's machine, once its stream is drained, holds exactly the host's remote injected set if the cursor is on one of its screens, and nothing otherwise |
| Composition.StoppedClientsHoldNothing | src/runtime.rs:1045-1061 | Once the host has stopped, a drained client holds nothing |
| Composition.DisconnectedClientsHoldNothing | src/runtime.rs:2176-2187 | A client that loses its connection releases everything, whatever was under way |
| Composition.SecondMonitorEndsRun | src/runtime.rs:1259-1274 | Two linked monitors of the host: a peer joins, and the run fails at the second of two motions |
| Deliveries.EffectOrders | src/runtime.rs:1170-1257 | Executing one effect, of either kind of session, queues for each client exactly what the effect tells it |
| Deliveries.EffectFailsExactly | src/runtime.rs:1170-1274 | Over any peers and topology, exactly which effects fail and with which fault; releasing a side never does, and a failure queues nothing |
| Deliveries.StepAccounted | src/runtime.rs:787-1061 | Any step adds to what a client has done and will do exactly what that step ought to tell it |
| Deliveries.DrainedClientsObeyed | src/runtime.rs:2128-2172 | In every reachable state, drain a client's stream: all it has done to its machine since it connected, motions apart, follows from obeying in order what it ought to have been told |
| Deliveries.DatagramMoves | src/runtime.rs:2128-2137 | A datagram moves the client's cursor by its steps if it is newer than the last one followed, else does nothing, and touches nothing else |
| Deliveries.ClientCursorIsEntry | src/runtime.rs:1214-1217 | In every reachable state a drained client's cursor was last placed where the host's router put it when it last came onto one of that client's screens |
| Deliveries.CursorHasEntry | src/runtime.rs:1214-1217 | While the cursor is on one of its screens there has been such a placement |
| Deliveries.HostHeldByHistory | src/core/session.rs:432-447 | What the host takes to be held is what the captured inputs leave held, whoever connects meanwhile |
| Deliveries.StretchDelivered | src/runtime.rs:1199-1213 | While the cursor stays on one screen of a client, the client does exactly what is typed, in order, less repeats of keys that are not held |
| Numberings.NumbersAreConsecutive | src/runtime.rs:1201-1201 | Neighbouring messages of a kind are numbered one apart, wrapping around |
| Numberings.StreamsAreNumbered | src/runtime.rs:1019-1026 | In every reachable state inputs and heartbeats under way are so numbered, up to the number used last |
| Numberings.BroadcastsReachAll | src/runtime.rs:1010-1026 | A heartbeat and a report of screens are queued for every client |
| HostLoops.MergeAttributed | src/runtime.rs:1635-1754 | After any credible report this device's screens are known as such and others are online only while their device is connected |
| HostLoops.InventoryStep | src/runtime.rs:787-1040 | Every turn of the loop keeps the inventory so, keeps IDs named by their devices and loses none |
| HostLoops.ToldIsAdmissible | src/runtime.rs:917-943 | What the loop tells session and peers names screens by their devices, and those of a device that left are offline |
| HostLoops.LayoutStep | src/runtime.rs:812-831 | The layout the loop goes on with is valid over the inventory it goes on with |
| HostLoops.StrandingIsOwnMonitor | src/runtime.rs:1259-1274 | In the loop the only screens of unconnected devices one can cross onto are further monitors of the host |
| HostLoops.FollowedUnlessHomeless | src/core/session.rs:190-227 | In the loop a topology is followed unless the active screen is lost while the host's own is offline |
| HostLoops.TurnExact | src/runtime.rs:787-1061 | A turn of the loop fails exactly when the cursor crosses onto another monitor of the host, when it is on a lost screen while the host's own is offline, or when a direction is refused or cannot be migrated; otherwise all is sound again |
| HostLoops.StartExact | src/runtime.rs:751-780 | Over any stored files that load, a host that detects a screen starts if and only if none of the detected IDs is recorded for another device |
| HostLoops.StartIsSound | src/runtime.rs:751-780 | If the stored screens are moreover named by their devices, the host always starts, and soundly |
| HostLoops.SomeHostStarts | src/runtime.rs:751-780 | A new host with one screen starts so; the invariant of the loop can be met |
| HostLoops.LoopRunsStaySound | src/runtime.rs:787-1061 | Every run of the loop stays sound: session, peers, layout and inventory together |
| HostLoops.LoopClientsHoldWhatIsDue | src/runtime.rs:787-1061 | Over every run of the loop each client will hold exactly what is due to it |
| HostLoops.SingleMonitorNeverFails | src/runtime.rs:787-1061 | While the local screen is the only online one of the host and stays online, and any direction is migrated, no turn fails |
| LoopRuns.LoopRunIsRun | src/runtime.rs:787-1061 | From its start, a run of the loop is a run of host and clients, so all that is proved of those holds in it |
| LoopRuns.LoopClientsObey | src/runtime.rs:787-1061 | In particular each client obeys in order what it ought to have been told |
| LoopRuns.TurnRecords | src/runtime.rs:787-1040 | What a successful turn records in inventory, layout and direction, and what it leaves alone |
| LoopRuns.JoinMigrates | src/runtime.rs:812-831 | The first peer to join has its one online screen linked to the host's anchor on the configured side, and the direction is used up |
| LoopRuns.MigratesExactly | src/runtime.rs:1827-1869 | A direction can be migrated if and only if the layout is valid, this device has a screen, exactly one screen of another is online, and it is not diagonal |
| LoopRuns.DirectionUsedUp | src/runtime.rs:812-831 | From then on no turn is refused for its direction |
| GridEmbedding.RootExact | src/layout.rs:103-109 | The search starts from the first screen of this device, or the very first screen if there is none |
| GridEmbedding.Expand | src/layout.rs:111-136 | Examining the links of one screen places or checks all its neighbours, queues exactly the newly placed ones and moves nothing already placed |
| GridEmbedding.FinishedExact | src/layout.rs:111-138 | When the queue is empty, everything placed without conflict is equivalent to an embedding of a connected topology |
| GridEmbedding.SameShift | src/layout.rs:121-127 | Along any path of links two embeddings move by the same steps, so they differ by a shift |
| GridEmbedding.ApartExact | src/layout.rs:111-137 | A complete placement keeps the screens apart if and only if any embedding does |
| GridEmbedding.PlaceLinked | src/layout.rs:98-138 | The search terminates, takes each screen at most once, places exactly what is linked to the root, is complete if and only if all screens are reachable and some placement puts every linked pair one step apart, and then draws all screens apart if and only if some such placement does |
| GridEmbedding.CompleteMayOverlap | src/layout.rs:111-137 | A loop of five screens that has an embedding, but none that keeps the first and the last screen apart |
| GridEmbedding.RightmostColumn | src/layout.rs:139-144 | The largest column in use |
| GridEmbedding.PlaceRest | src/layout.rs:139-150 | The remaining screens get columns of their own to the right, on the root's row, and nothing placed moves |
| TopologyStoring.TopologyStore.Load | src/topology_store.rs:46-101 | What is loaded from the two files, or why not, in both formats |
| TopologyStoring.TopologyStore.SaveInventory | src/topology_store.rs:103-106 | A valid inventory replaces the file if the write happens; an invalid one is refused |
| TopologyStoring.TopologyStore.Apply | src/topology_store.rs:108-128 | Load, compare, edit, write inventory, write layout, resolve; for every outcome of each write |
| TopologyStoring.TopologyStore.Replace | src/topology_store.rs:130-178 | The same for a whole topology |
| TopologyStoring.LoadExact | src/topology_store.rs:46-101 | Exactly which pairs of files can be loaded |
| TopologyStoring.ApplyIsCrashSafe | src/topology_store.rs:108-128 | Stopped before, between or after its writes, confirmed or not, `apply` leaves files that load |
| TopologyStoring.ReplaceCrashExact | src/topology_store.rs:130-178 | Stopped between its writes, `replace` leaves files that load if and only if the old layout is valid over the new inventory |
| TopologyStoring.ReplaceCanStrandTheStore | src/topology_store.rs:174-176 | A concrete store and topology for which it does not load |
| TopologyStoring.RevisionStep | src/topology_store.rs:108-178 | An event that takes effect names the current revision and raises it by one, saturating; any other leaves it |
| TopologyStoring.RevisionsGrow | src/topology_store.rs:108-178 | The stored revision never decreases over a run |
| TopologyStoring.OneCommitPerRevision | src/topology_store.rs:114-120 | Below the largest revision, two events of a run that both take effect named different revisions, the later the larger |
| TopologyStoring.PinnedRevisionRepeats | src/core/topology.rs:347-347 | At the largest revision one command takes effect twice under the same expected revision |
| TopologyStoring.ReturnedIsLoaded | src/topology_store.rs:108-178 | What `apply` and `replace` return is what is loaded and resolved afterwards |
| TopologyStoring.LegacyFileLoadsAsItself | src/topology_store.rs:65-100 | An old-format file loads and resolves to exactly the topology it holds |
| StoreOutcomes.LoadedExactly | src/topology_store.rs:46-101 | What is loaded: the layout on file over the saved inventory, an empty layout over it, or the screens, links and sizes of an old-format file |
| StoreOutcomes.EffectExact | src/topology_store.rs:108-178 | What takes effect is on file afterwards: what the command makes of the layout over the given inventory, or the given topology one revision up |
| StoreOutcomes.NoEffectExact | src/topology_store.rs:103-178 | What takes no effect leaves the topology file alone, and the inventory file unless its own inventory was written |
| StoreOutcomes.ApplyReports | src/topology_store.rs:108-128 | An edit reports success if and only if it took effect and both writes were confirmed; a wrong revision is answered with the right one and writes nothing |
| StoreOutcomes.ReplaceReports | src/topology_store.rs:130-178 | So does a replacement, which refuses an invalid topology first of all |
| InventoryMerging.Inventory.Merge | src/runtime.rs:1635-1754 | Both merges as functions of the old list: darken the device, then update or append each report |
| InventoryMerging.Inventory.Reconcile | src/runtime.rs:1621-1633 | Darken everything, then merge what was detected here |
| InventoryMerging.Inventory.MarkOffline | src/runtime.rs:925-927 | Only the online flags of that device's screens change |
| InventoryMerging.OrderlyIsValid | src/core/topology.rs:99-113 | An inventory whose IDs are named by their devices and distinct is valid |
| InventoryMerging.MergeExact | src/runtime.rs:1635-1754 | A merge keeps IDs unique and loses none, leaves exactly the reported screens of the device online and other devices' screens untouched |
| InventoryMerging.MergeDescribes | src/runtime.rs:1635-1754 | Every reported screen is afterwards described as reported, apart from the primary flag of a local report |
| InventoryMerging.UnreportedKept | src/runtime.rs:1635-1754 | A screen that is not reported stays where and as it was, but for the online and own flags of the reporting device's |
| InventoryMerging.PrimaryExact | src/runtime.rs:1651-1673 | The primary flag recorded is the reported one if and only if the report is a peer's, or the screen was new, or it carried that flag already; otherwise the old one is kept |
| InventoryMerging.KeptFlagExample | src/runtime.rs:1652-1661 | A known screen that becomes primary: the local report leaves it recorded as not primary |
| InventoryMerging.InventoryStaysOrderly | src/runtime.rs:1621-1754 | Any run of merges, reconciliations and disconnections keeps IDs unique, named by devices, and present |
| InventoryMerging.LayoutSurvivesInventoryRuns | src/runtime.rs:917-990 | Over any such run a valid layout still resolves, to a valid topology |
| InventoryMerging.HostScreenKept | src/runtime.rs:1711-1754 | What another device reports does not change the screen the host stands on |
| InventoryMerging.UpsertValidExact | src/runtime.rs:1652-1673 | One report keeps a valid inventory valid exactly unless a local reporter finds its ID recorded for another device |
| InventoryMerging.MergeValidExact | src/runtime.rs:1635-1754 | Any merge into any valid inventory gives a valid one if and only if the report is a peer's or none of its IDs is recorded for another device |
| InventoryMerging.MergeIds | src/runtime.rs:1635-1754 | Any merge keeps all IDs in place and adds exactly the reported ones |
| InventoryMerging.LayoutSurvivesExactly | src/runtime.rs:1621-1754 | Over any run of reports a valid layout is still valid if and only if every local one merged cleanly |
| InventoryMerging.OrderlyIsClean | src/runtime.rs:1651-1657 | With IDs named by their devices every report merges cleanly |
| InventoryMerging.MisnamedScreenBreaksMerge | src/runtime.rs:1651-1660 | A concrete screen of another device whose ID is then reported locally: the inventory becomes invalid |
| PairingLimiter.PairingRateLimiter.Allow | src/runtime.rs:1422-1442 | Answer and new queue as a function of the old queue |
| PairingLimiter.DropExpiredExact | src/runtime.rs:1424-1430 | On a sorted queue dropping from the front removes exactly the expired attempts |
| PairingLimiter.AllowRefines | src/runtime.rs:1422-1442 | One request is answered as the complete log would answer it |
| PairingLimiter.LimiterRefinesLog | src/runtime.rs:1422-1442 | Over every run with nondecreasing times the queue, sorted and at most 20 long, answers as if it counted all attempts accepted in the last minute |
| PairingLimiter.WindowBound | src/runtime.rs:1436-1438 | Any half-open minute holds at most 20 accepted attempts, and at most 5 from one source |
| TrustDatabases.ValidateDatabase | src/trust.rs:324-352 | Accepts exactly the databases with matching fingerprints, unique devices and endpoints and no dangling binding; a rejection names a true reason |
| TrustDatabases.TrustStore.Remember | src/trust.rs:168-197 | Adds or refreshes the peer, refuses a colliding fingerprint, and keeps the old database if writing fails |
| TrustDatabases.TrustStore.BindEndpoint | src/trust.rs:199-232 | Binds a known device to a free endpoint, accepts a repeat, refuses a redirection or an unknown device |
| TrustDatabases.TrustStore.Forget | src/trust.rs:265-277 | Removes the device and all its bindings, and says whether there was one |
| TrustDatabases.TrustStore.ForgetAll | src/trust.rs:279-289 | Empties the database and says how many peers there were |
| TrustDatabases.TrustStore.Commit | src/trust.rs:291-321 | The candidate takes effect only once it has been written |
| TrustDatabases.ForgottenStaysValid | src/trust.rs:265-277 | Forgetting leaves no dangling binding and no such peer |
| TrustDatabases.DatabaseStaysValid | src/trust.rs:168-289 | Every run of operations, written or not, keeps the database valid |
| TrustDatabases.BindingStep | src/trust.rs:199-289 | One operation dissolves a binding exactly if it forgets its device or everyone; none redirects it |
| TrustDatabases.EndpointIsPinned | src/trust.rs:234-249 | Once bound, an endpoint reports every other certificate as a changed identity, naming the bound device, until that device or everyone is forgotten |
| TrustDatabases.RememberForgetVerify | src/trust.rs:251-263 | A remembered certificate is trusted, and forgetting its device undoes that |
| TrustOutcomes.BindExact | src/trust.rs:199-232 | Binding succeeds if and only if the device is known and the endpoint free or its own; then that endpoint is bound to it and all others as before |
| TrustOutcomes.RememberExact | src/trust.rs:168-197 | Remembering fails if and only if another certificate has the same ID; else the peer is there under its new name with the right times, and nothing else changed |
| TrustOutcomes.ForgetExact | src/trust.rs:265-277 | Forgetting removes exactly that device and its bindings |
| TrustOutcomes.VerifyExact | src/trust.rs:234-263 | A certificate is trusted if and only if it is stored, at an endpoint if and only if bound there; any other binding is reported with the device expected |

## Left out

Assumptions, all written as preconditions:

- Composition.StepKeepsSound: captured events are canonical, screens are named by their devices and those of a device that leaves are offline; the last two are proved of the loop (`HostLoops.ToldIsAdmissible`). A newer connection that replaces a live one of the same device is not modelled.
- HostLoops.TurnExact: device IDs hold no slash, no peer uses the host's own, and a layout changed from outside is valid over the inventory of the moment; the race between the file read by the supervisor and the host's own copy is not modelled. The branches of the loop are steps of a value, and the store between them never fails.
- HostLoops.StartIsSound: the stored inventory names screens by their devices, as every merge keeps it; without that, whether the host starts is still exact (`HostLoops.StartExact`), but device and screen ID need not agree afterwards.
- HostClient.ExecuteDelivers: motion datagrams leave no trace on the reliable streams; which motions the host sends is stated of its session (`InputHistories.MotionCarried`), but since datagrams may be lost, repeated or reordered a client may receive any motions at any time. Effects on the host's own machine always succeed.
- Composition.DeliverKeepsSound: a client's session ignores heartbeats and reports of screens; that a client checks such a report and stores it is left out.
- OwnershipRuns.OwnershipByReplay: host runs contain no injected input from elsewhere, which only clients receive, and the cursor is placed by hand only before the first event.
- RouterRuns.TimedCrossingExact: timed and untimed motions are not mixed in one run; production uses timed ones only.
- MigratedHosts.TakeOverExact: about the untimed router, the only one that ever agrees with the legacy one by distance; what the host itself does is `MigratedSessions`.

Representation:

- ScreenModel.ValidTopology: sizes are positive by their type, as their constructor demands; sizes that are not, which a hand-edited file could hold, are not represented.
- ScreenModel.CheckIdsExact: blank means white space by the Unicode property, listed character by character over the characters of Dafny's `char`.
- GridEmbedding.PlaceLinked: grid coordinates are unbounded integers, so a chain of more than two thousand million screens would not overflow here; drawing the boxes is left out.
- TopologyStoring.ApplyIsCrashSafe: a write replaces its file as a whole and is lost, unconfirmed or done; JSON, temporary files, directories and permissions are abstracted into that.
- TopologyStoring.TopologyStore.Load: a file that both formats could decode is taken to be a layout, and a decoder is a constructor of the file type.
- TrustDatabases.TrustStore.Commit: writing is a flag; the hash is a parameter about which nothing is assumed; the version field and the encoding are not represented.
- PairingLimiter.LimiterRefinesLog: the clock is nanoseconds as natural numbers and addresses are opaque.
- InventoryMerging.MergeDescribes: reports have distinct IDs, as the wire checks require; those length and count checks are left out.
- Error texts are enumerations that carry the same distinctions.

Not modelled, as they would only add input and output or easy members:

- QUIC, TLS, pairing streams, management sockets and the Tokio tasks that connect them.
- Capture and injection on each platform, key tables, and which device a local event is attributed to.
- Command line, prompts, text and JSON rendering, the terminal diagram's canvas.
- Parsing and printing of IDs, sizes and directions, target resolution, status and event projections, session snapshots.
