# Verified models of the games' cores

Four small worlds live in this repository's Go services, and each rests on a claim its tests can only sample.
This project models the four cores in Dafny and proves those claims for all inputs, all draws and all runs.

* **The pet** (`internal/gamevanyagotchi`). Stats are stored as a value and the instant it was true, and evaluated on
  read. Health drains faster from the instants at which other stats cross a threshold; the instant of death is derived
  by inverting that piecewise-linear function. Modules `Decay`, `FirstHit`, `Reads`, `Events`, `Verbs`, `Replay`,
  `Limits`, `Shipped`.
* **The office floor** (`internal/gamefintech`). A validator of layouts, a one-pass collision resolver that is right only
  because of what the validator refuses, a breadth-first navigator, a generator whose cheap checks must agree with the
  validator, the step of a player, and the things on the floor that can be picked up. Modules `Floor`, `Gaps`,
  `OnePass`, `Sight`, `Bfs`, `Grid`, `Navigate`, `Validate`, `OneFloor`, `Playable`, `StartingFloor`, `OfficeGenerate`,
  `Furnished`, `Pursuit`, `Shift`, `Moves`, `Props`.
* **The shared building** (`internal/gamevanyadum`). The command lane of an occupant (which the office shares), the step
  of one soldier with his gun and his ampoule, the world's turns, slots and slops, the ring of past frames, the level
  generator with its walls and its routes. Modules `CommandLane`, `Claims`, `LaneRuns`, `Soldier`, `StepRules`,
  `Injection`, `Rewind`, `World`, `WorldRules`, `WorldRuns`, `WorldLanes`, `WorldBodies`, `Ticks`, `Building`, `Levels`,
  `Grown`, `Walls`, `Routes`, `RouteWalks`.
* **The standings ledger** (`internal/gamevanyadum/service.go`). One ordered stream per connection, over hellos, purges,
  teardowns and ticks. Modules `Ledger`, `LedgerRuns`, `Deliveries`.

`Wrappers.dfy` holds the shared option and result types, what taking one element out of a sequence leaves, the earliest
of finitely many instants, and the stream of draws. Where the source updates state in place the model is a class
(`CommandLane.Occupant`, `Rewind.Ring`, `Building.House`, `Ledger.Service`, `Props.Kind`) or a method with loops, proved
equal to a function of the old state. The properties are lemmas about that function; `Verbs`, `Moves`, `Claims`,
`StepRules`, `WorldRules`, `Ticks`, `Grown`, `Gaps`, `Playable`, `Furnished` and `Deliveries` say what the function does
in terms of nothing but what goes in and what comes out.

Values, positions and times are real numbers, ticks are naturals, and a random source is an arbitrary infinite stream
of fractions. Euclidean lengths are compared by their squares. A duration that Go would saturate saturates here too
(`MAX_SPAN`).

## What the proofs found

* **A shot can be spent unseen.** The building takes a falling barrel count for a shot (`world.go:972-982`, whose
  comment says a reload only ever raises the count). On the very step a reload runs out with the trigger held, the count
  goes from none to one: a barrel is spent and no ray is cast. `Soldier.AShotIsSeenUnlessTheReloadEnds` gives the exact
  condition, `Soldier.TheFirstShotAfterAReloadIsLost` the concrete step.
* **A boss hugging a desk is not routed.** `navAimAt` goes straight when his own cell is blocked, though he stands clear
  of the desk himself; pushing on he is returned to where he stood. `Pursuit.RoutedExactlyWhen` is the exact condition on
  a legal floor, `Pursuit.HuggingADeskHeGrinds` the place.
* **The gap rule already implies one floor.** On every floor whose solids keep the required gap, the validator's flood
  never refuses (`OneFloor.SpacedFloorIsOnePlace`).
* **Why the pet's hypotheses are there.** A penalty's onset is exact if and only if its driver moves towards the
  threshold, stands still, or is kept from the threshold by its bounds or the longest duration; reads compose for ever if
  and only if the stat uses up its scale within the longest duration or never moves; a derived death is exact if and only
  if the stat is not filling when its row is stored, or is on its floor, or has more than its positive rates could take
  (`Limits`). The shipped
  catalogue meets all of it, so of the game as it ships replay equals live with no horizon at all
  (`Shipped.ShippedReplayEqualsLive`).
* **The least number of rooms is a wish.** A building has exactly the seven to eleven rooms it drew or has spent its four
  hundred attempts (`Grown.ABuildingGrowsToWhatItDrew`), and the second does happen: a stream of nothing but halves
  stops at three (`Grown.NothingButHalvesRunsOut`).
* **Why the sentinel is load-bearing.** Without resetting the published roster there is a run of eight calls that sends an
  old socket a snapshot of slots it has no directory for (`LedgerRuns.TheSentinelIsNeeded`).
* Where the code and its prose differ the model follows the code: two rectangles exactly 2r apart are far enough (the
  comment at `layout.go:250` says more than 2r), `hurt` clears the gun's timers and the protection only when it kills,
  and the guard against a zero span in the ring's reader can never fire.

## Model

| member | source | states |
|---|---|---|
| Decay.ReadAtWith | internal/gamevanyagotchi/decay.go:136-149 | the loop over penalties computes the coupled value: base drain, each penalty from its own onset, clamped |
| Decay.ReadRateAt | internal/gamevanyagotchi/decay.go:158-166 | the loop returns the stat's own rate and that of every penalty whose onset has come |
| Limits.RateIsOfThoseThatHold | internal/gamevanyagotchi/decay.go:158-166 | the penalties whose onset has come are exactly those whose condition their driver's own reading meets then |
| Decay.DeriveDeath | internal/gamevanyagotchi/decay.go:203-246 | collecting, sorting and walking the onsets in loops gives the derived death |
| Decay.InsertAllSorts | internal/gamevanyagotchi/decay.go:218-224 | the onsets are walked in time order and none is lost |
| FirstHit.WalkIsThreshold | internal/gamevanyagotchi/decay.go:226-246 | for any sorted onsets, the drain has used up what is left at an instant exactly when the walk's answer is at or before it |
| FirstHit.DeathIsThreshold | internal/gamevanyagotchi/decay.go:203-246 | the coupled value stands on its floor at an instant if and only if the derived death is at or before it; with no horizon for a stat that exhausts its scale |
| FirstHit.DeathIsFirstHit | internal/gamevanyagotchi/decay.go:203-246 | the derived death is t iff the value is Min at t and above Min at every earlier instant; no death means Min is never reached |
| FirstHit.TiesDoNotMatter | internal/gamevanyagotchi/decay.go:218-224 | however coinciding onsets are ordered the derived death is the same |
| Reads.OnsetIsWhenItHolds | internal/gamevanyagotchi/decay.go:64-117 | a penalty's condition holds at an instant iff its closed-form onset has come |
| Reads.OnsetSplits | internal/gamevanyagotchi/decay.go:79-107 | the time a penalty has run is the same read in one go or through a re-stamped driver |
| Reads.ReadsCompose | internal/gamevanyagotchi/decay.go:136-149 | a read through any intermediate instant is the direct read, as far as a duration reaches, and for ever if the stat exhausts its scale |
| Reads.DeathsAgree | internal/gamevanyagotchi/decay.go:203-246 | every reader derives the identical instant of death, however many reads came between |
| Reads.AtIsUncoupled | internal/gamevanyagotchi/decay.go:125-127 | the coupled reading with nothing to couple to is the plain one |
| Reads.ASpanIs | internal/gamevanyagotchi/decay.go:274-284 | a span is the difference of its instants as long as a Duration holds it and otherwise the longest one; a longer interval is refused |
| Reads.AReadingIs | internal/gamevanyagotchi/decay.go:125-127 | a value alone reads as stored until its stamp, and then as its own drain leaves it, at the nearer bound when that is out of bounds |
| Events.AdvanceRow | internal/gamevanyagotchi/event.go:95-118 | one row: unknown keys carried, known ones re-stamped, their death taken if it has come |
| Events.AdvanceRows | internal/gamevanyagotchi/event.go:90-121 | visiting the rows in any order gives the same snapshot, the earliest death recorded |
| Verbs.AnAdvanceIsARead | internal/gamevanyagotchi/event.go:90-121 | a row of a known stat is that stat read at the instant and stamped there, any other is as it was; the death is the recorded one, or the earliest derived for a stat on its floor by then, or none |
| Events.ApplyEvent | internal/gamevanyagotchi/event.go:132-222 | one verb, with its refusals in their order: unknown action, unknown stat, dead, not yet; a refused verb changes nothing |
| Events.FoldEvents | internal/gamevanyagotchi/event.go:232-241 | the loop over the log, skipping what no longer applies |
| Events.BuildGenesis | internal/gamevanyagotchi/event.go:283-289 | a pet is born with a row for every stat, all stamped at birth |
| Verbs.EachRefusalOnItsOwnCondition | internal/gamevanyagotchi/event.go:132-222 | unknown action, unknown stat, dead and not yet: each exactly on its own condition, in that order, of the snapshot brought to the instant |
| Verbs.AnAcceptedVerbMoves | internal/gamevanyagotchi/event.go:198-222 | a row one effect names is the advanced row plus its delta, brought into bounds and stamped; every other row is the advanced row; a death is cleared exactly by a reviving verb that leaves every fatal stat above its floor |
| Verbs.AnAcceptedResetStartsOver | internal/gamevanyagotchi/event.go:170-222 | every known row but the counters stands at its start, counters and unknown rows are the advanced ones, and nobody is dead |
| Verbs.ANewbornHasEveryStat | internal/gamevanyagotchi/event.go:283-289 | a newborn has exactly one row for each stat, at its start and stamped at birth, and is alive |
| Replay.AdvanceComposes | internal/gamevanyagotchi/event.go:90-121 | advancing twice is advancing once: rows and recorded death alike |
| Replay.ReplayEqualsLive | internal/gamevanyagotchi/event.go:90-289 | for every time-ordered history with reads, checkpoints and refusals anywhere, the folded log brought to T is the live pet brought to T |
| Replay.RunKeepsAlike | internal/gamevanyagotchi/event.go:232-241 | from the last happening of any run on, every later read of the stored snapshot and of the folded log is the same read |
| Replay.APressIsAllOrNothing | internal/gamevanyagotchi/service.go:1140-1200 | a press whose verbs are all accepted, each from what the one before left, is stored and logged verb by verb; any other leaves rows and log as they were, and looks and checkpoints log nothing |
| Shipped.ShippedIsWellFormed | internal/gamevanyagotchi/content.go:1135-1300 | the shipped catalogue meets every condition the exactness needs |
| Shipped.UntendedPetDiesAtSeventeen | internal/gamevanyagotchi/content.go:780-782 | health as born, with the drivers as born, reads 55 after ten hours and 13 after sixteen, and its death is derived for the seventeenth |
| Shipped.AnUntendedPetLivesSeventeenHours | internal/gamevanyagotchi/content.go:780-782 | of the game as it ships, a pet that is born and never tended is alive for seventeen hours, and whenever anybody looks after that it died at the end of them |
| Shipped.ADrink | internal/gamevanyagotchi/content.go:1135-1300 | of the game as it ships, a drink raises the beer by forty, health by fifteen, the bladder by twenty-five and the tally by one, each as far as its scale goes |
| Shipped.ShippedReplayEqualsLive | internal/gamevanyagotchi/content.go:1135-1300 | of the shipped catalogue replay equals live for every ordered history and every later instant, with no horizon |
| Limits.OnsetTellsExactlyWhenItFits | internal/gamevanyagotchi/decay.go:79-117 | the closed-form onset is right of every row and instant iff the driver moves towards the threshold, stands still, or is kept from it |
| Limits.ReadersComposeExactlyWhenItFits | internal/gamevanyagotchi/decay.go:79-149 | for a threshold inside the driver's bounds, reads compose for every reader of the penalty iff the driver fits it |
| Limits.ForeverExactlyWhenExhausted | internal/gamevanyagotchi/decay.go:278-284 | for a stat with a rate of its own or no penalties, reads compose for ever iff it exhausts its scale within the longest duration or never moves |
| Limits.DeathIsExactExactlyWhenNotFilling | internal/gamevanyagotchi/decay.go:203-246 | the derived death is the first instant on the floor iff the value is on it, or the rate when stored is not negative, or the value is more than the stat's positive rates could take within a duration; a death derived in reach for a filling stat is early |
| Limits.DeathsAreExactExactlyWhenNeverTurned | internal/gamevanyagotchi/decay.go:203-246 | every value's derived death is exact iff the rate when stored is not negative or no onset within a duration turns the total rate positive |
| Floor.SweepOnce | internal/gamefintech/sim.go:309-315 | one in-order sweep of pushes over the furniture |
| Gaps.TheGapIsToTheNearestPoint | internal/gamefintech/layout.go:270-275 | the gap to a rectangle is the distance to its nearest point: none is nearer and one is as near |
| Gaps.TheWallGapIsABand | internal/gamefintech/layout.go:262-264 | a rectangle keeps a gap from the walls iff it stands in the room drawn in by as much on every side |
| Gaps.InsideIsASlimmerOverlap | internal/gamefintech/sim.go:119-124 | the test with the slack is the test without it for a body narrower by the slack |
| OnePass.PushClears | internal/gamefintech/sim.go:366-389 | a push ends outside its rectangle |
| OnePass.PushIsShortest | internal/gamefintech/sim.go:366-389 | no point outside the rectangle is nearer than the one the push chose |
| OnePass.GrownDisjointIffSpaced | internal/gamefintech/layout.go:246-259 | two rectangles grown by r are disjoint iff they are 2r apart on some axis |
| OnePass.SweepIsOnePush | internal/gamefintech/sim.go:301-315 | on a spaced floor a sweep is at most one push |
| OnePass.OnePassSuffices | internal/gamefintech/sim.go:301-389 | from any point, clamp and one sweep end inside the room and strictly inside no expanded rectangle |
| Moves.TheClampIsNearest | internal/gamefintech/sim.go:350-356 | a point of the floor is left alone and any other goes, on each axis, to the nearest coordinate of the floor |
| OneFloor.OnePassSufficesOnALegalFloor | internal/gamefintech/validate.go:103-127 | so on every floor the validator passes, for every body up to the widest |
| OnePass.OrderDoesNotMatter | internal/gamefintech/sim.go:309-315 | the order of the furniture does not change where the sweep ends |
| OnePass.CrowFliesGapIsNotEnough | internal/gamefintech/layout.go:246-259 | counterexample: a straight-line gap of 2r lets a sweep end inside a rectangle |
| OnePass.NarrowWallSlotIsNotEnough | internal/gamefintech/layout.go:262-267 | counterexample: a narrow slot at a wall lets a push leave the room |
| Sight.SegmentHitsRect | internal/gamefintech/sim.go:152-186 | true iff some point of the segment lies in the closed grown rectangle |
| Sight.ClearLine | internal/gamefintech/sim.go:141-148 | true iff the whole segment is clear of every rectangle |
| Grid.BuildNavGrid | internal/gamefintech/navigate.go:56-73 | a cell is free iff its centre is on the floor and inside no grown rectangle |
| Grid.FindNearestFree | internal/gamefintech/navigate.go:207-226 | the ring search in its own scan order |
| Grid.NearestFreeIsNearest | internal/gamefintech/navigate.go:207-226 | the cell found is a nearest free one, within four rings, and none is found only when there is none |
| Bfs.FinishedFlood | internal/gamefintech/navigate.go:139-170 | a finished flood has reached exactly the reachable cells, each at its true distance |
| Bfs.HeadIsExact | internal/gamefintech/navigate.go:139-170 | stopping early at the head of the queue still leaves it at its true distance |
| Bfs.Downhill | internal/gamefintech/navigate.go:172-202 | the recorded neighbours below an early-stopped head are exactly those one closer, and there is one |
| Navigate.NavAimAt | internal/gamefintech/navigate.go:113-202 | straight when he may go straight or cannot be routed, and otherwise the centre of a free neighbour exactly one closer in true distance |
| Navigate.Descend | internal/gamefintech/navigate.go:172-202 | the first neighbour recorded as closer is exactly one closer, or the target's own cell gives the target |
| Navigate.AimingCellByCellArrives | internal/gamefintech/navigate.go:113-202 | from the middle of a cell d away there is a walk of d moves to the start cell, each the one answer of the rule from the middle of its cell, or straight at a target in sight |
| Pursuit.FloodStartsBesideHim | internal/gamefintech/navigate.go:121-137 | on a legal floor a standing prey's start cell is his own or one beside it |
| Pursuit.EveryFreeCellWalksToHim | internal/gamefintech/navigate.go:113-202 | on a spaced floor the rule walks from every free cell to a prey standing anywhere, in exactly the distance |
| Pursuit.RoutedExactlyWhen | internal/gamefintech/navigate.go:113-170 | on a legal floor he is routed iff the line is blocked, the cells differ and his own cell is free and is not the start |
| Pursuit.HuggingADeskHeGrinds | internal/gamefintech/navigate.go:113-137 | counterexample: a boss beside a desk is not routed and pushed back to where he stood |
| Validate.LegalIffFaultless | internal/gamefintech/validate.go:75-177 | no fault of any kind is exactly the declarative legality |
| Playable.LegalIsPlayable | internal/gamefintech/validate.go:75-177 | a layout is legal iff, in metres: forty objects and twelve panes at most, each of a known kind and size and off the walls, apart from one another, and clear of every fixed place; no flood need be asked |
| Validate.ValidateLayout | internal/gamefintech/validate.go:75-177 | every issue is genuine, every fault is listed below the cap, and nothing is returned iff the layout is legal |
| Validate.FloorIsOnePlace | internal/gamefintech/validate.go:202-235 | true iff a start cell is found and every free cell is reachable from it |
| Validate.FloodFrom | internal/gamefintech/validate.go:210-234 | the flood lists each reachable free cell once and counts them |
| OneFloor.SpacedFloorIsOnePlace | internal/gamefintech/validate.go:202-235 | every floor that keeps the gap is one connected place with a start cell |
| OneFloor.LegalIsLocal | internal/gamefintech/validate.go:75-177 | legality is sizes, gaps, clear spots and windows alone |
| StartingFloor.StartingLayoutIsLegal | internal/gamefintech/content.go:90-131 | the layout a fresh database opens with is legal |
| OfficeGenerate.DrawnFits | internal/gamefintech/generate.go:289-342 | every proposal is a known kind at a legal size in the band the wall rule leaves, on the quarter-metre lattice |
| OfficeGenerate.GlazingIsLegal | internal/gamefintech/generate.go:378-395 | the three walls are glazed legally for all draws, with six to twelve panes |
| OfficeGenerate.Glazing | internal/gamefintech/generate.go:378-395 | the loop over walls and panes |
| OfficeGenerate.HasRoom | internal/gamefintech/generate.go:354-369 | the loop of cheap checks |
| OfficeGenerate.RoomForIsExact | internal/gamefintech/generate.go:354-369 | on a legal floor the cheap checks reject exactly what the whole validator rejects |
| OfficeGenerate.ShortcutsAreExact | internal/gamefintech/generate.go:209-257 | with the shortcut, the validator alone or the cheap checks alone the same office is built for the same draws; one that is returned is legal, with at least eight objects |
| OfficeGenerate.TryPlace | internal/gamefintech/generate.go:222-250 | up to so many tries at one object, keeping the first the validator accepts |
| OfficeGenerate.Generate | internal/gamefintech/generate.go:209-257 | the whole generator, or a refusal of a thin floor |
| Furnished.ASnapIsTheLastNotBeyond | internal/gamefintech/generate.go:411-413 | a number is snapped to the last quarter of a metre not beyond it |
| Furnished.AProposalIsAsDrawn | internal/gamefintech/generate.go:289-342 | one proposal from its draws: a size of its class and the way its wish says, beside something standing six times in ten and otherwise anywhere, brought onto the floor |
| Furnished.AnOfficeIsFurnishedWishByWish | internal/gamefintech/generate.go:209-287 | for every stream: the four guaranteed wishes and nine to fifteen drawn ones, each granted the first of its twenty-four proposals that leaves a legal floor, or nothing; refused iff fewer than eight objects stand |
| Furnished.AWallIsGlazed | internal/gamefintech/generate.go:378-395 | two to four panes of one length, the drawn one or the longest quarter the wall can give each, evenly spaced and centred to within half a metre |
| Shift.RunStep | internal/gamefintech/sim.go:251-348 | one step, field by field in its documented order |
| Moves.AStepGoesWhereItAsks | internal/gamefintech/sim.go:251-315 | a step whose way is free lands exactly where it asked, at 6.4, 5.12 or 20 metres a second; any other from a free point ends within twice as far as it asked to go |
| Moves.ADashHoldsItsLine | internal/gamefintech/sim.go:251-307 | within a dash an unhindered player goes twenty metres a second the way he committed to, whatever the stick says |
| Moves.AWholeDash | internal/gamefintech/sim.go:251-307 | a dash nothing is in the way of carries him 5.2 metres, however its time is sliced |
| Moves.DashesKeepTheirCadence | internal/gamefintech/sim.go:251-285 | n dashes of a run cost 2.2 seconds of cooldown each: no more than the time stepped and what is still to run |
| Moves.TheRampIsStraight | internal/gamefintech/sim.go:227-229 | the multiplier rises in a straight line from one to its top over the ramp |
| Moves.StillnessIsPaid | internal/gamefintech/sim.go:317-344 | standing still and not dashing is paid at once: a hundred and twenty a second times the multiplier, three times that at the top of the ramp |
| Moves.AWalkSpendsTheGrace | internal/gamefintech/sim.go:317-344 | a walk earns nothing and costs the whole streak exactly when it has lasted longer than 0.18 seconds, however the commands are cut |
| Moves.AQuietShiftIsStoodStill | internal/gamefintech/office.go:624-717 | a shift begins with nothing, and a tick nobody sent anything for is a twentieth of a second stood still |
| Shift.MultiplierInRange | internal/gamefintech/sim.go:227-229 | between one and the maximum, rising, and at the maximum once the ramp is done |
| Shift.StepEarns | internal/gamefintech/sim.go:317-344 | a step never loses money and earns at most the top rate for its time |
| Shift.DashingCostsNoRamp | internal/gamefintech/sim.go:317-344 | over any run of dashes and stillness the streak is the time stood still since it began, and the pay is at its top once that fills the ramp |
| Shift.StepStaysClear | internal/gamefintech/sim.go:295-315 | on a spaced floor every step ends in the room and in no furniture |
| Shift.SalaryIsBounded | internal/gamefintech/office.go:624-717 | whatever is sent, a shift's salary is at most the top rate times the ticks' own time |
| Shift.ShiftStaysClear | internal/gamefintech/office.go:631-717 | over a whole shift the player is never inside the furniture or out of the room |
| Props.DrawSpot | internal/gamefintech/office.go:1226-1254 | a spot no sibling has, and not the one just left unless it is the only one; with all taken it goes back |
| Props.Kind.Reconcile | internal/gamefintech/office.go:1189-1210 | growth at once; shrinking drops only what is away, keeps every standing one and stops at exactly the larger of the two |
| Props.Kind.StepProp | internal/gamefintech/office.go:1157-1179 | away it only counts down and returns elsewhere; standing, the first living body in reach takes it; all spots stay distinct |
| Props.TheMaskIs | internal/gamefintech/office.go:1265-1273 | a bit is set iff something on that spot is not away |
| Gaps.ReachIsATouch | internal/gamefintech/office.go:1157-1179 | a thing is in reach of somebody alive iff the disc about it touches the disc of his body |
| Props.TheMaskShowsThemAll | internal/gamefintech/office.go:1265-1273 | the mask has as many bits as props stand |
| CommandLane.Occupant.EnqueueFrame | internal/gamevanyadum/world.go:833-898 | commands at or below the high mark are skipped, the rest appended sanitised, the overflow trimmed from the front |
| CommandLane.Occupant.RunTick | internal/gamevanyadum/world.go:932-1049 | the budget accrues, whole commands it covers are taken in order, and a quiet tick is filled |
| Claims.AClaimIsWorth | internal/gamevanyadum/sim.go:251-268 | a claim in range is worth itself, one outside it the nearer end, an infinity its own end, and NaN nothing |
| Claims.AFrameIsQueuedAsSent | internal/gamevanyadum/world.go:833-898 | the queue after a frame is the last forty of what waited and then its fresh commands in order, each with its own number and intent for what its claim is worth; the mark is the highest number seen |
| Claims.ATickSpendsWhatItHas | internal/gamevanyadum/world.go:932-1049 | a tick steps the longest head of the queue that the bank and a twentieth more, half a second at most, pay for whole; the last stepped is acknowledged; the idle fill is a twentieth exactly on a tick that spent nothing, left nothing and is wanted |
| Claims.AnOrdinaryFrameIsWorthItsClaims | internal/gamevanyadum/world.go:833-1049 | a frame in order with claims in range that queue and bank hold whole is stepped whole on the next tick, for the sum of what it claims |
| LaneRuns.EveryRunFromBirth | internal/gamevanyadum/world.go:793-988 | over every run the queue ascends in (last, high], what was stepped ascends to the acknowledgement, and everything accepted was stepped, trimmed or is waiting, never two of these |
| LaneRuns.TrimmedNeverReturns | internal/gamefintech/office.go:572-615 | a trimmed command is never stepped, however often resent |
| LaneRuns.ResendIsFree | internal/gamevanyadum/world.go:833-898 | a frame sent again whole changes nothing |
| LaneRuns.TimeConserved | internal/gamevanyadum/world.go:932-1049 | the time stepped is at most what was banked and what the ticks accrued |
| LaneRuns.WindowBound | internal/gamevanyadum/world.go:932-1049 | any k ticks step at most the cap and k - 1 ticks of time, idle fill included |
| LaneRuns.WindowBoundIsAttained | internal/gamevanyadum/world.go:932-988 | the bound is reached by a run from birth: ten quiet ticks and one frame |
| LaneRuns.NoStarvation | internal/gamevanyadum/world.go:959-1049 | from any reachable state a waiting head is stepped or trimmed within four ticks |
| LaneRuns.QueueDrains | internal/gamevanyadum/world.go:959-1049 | a queue that receives nothing more is empty once the ticks have accrued what it claims |
| Soldier.StepKeepsSound | internal/gamevanyadum/sim.go:272-470 | health and barrels in range, cooldown and reload never both, nothing running on a downed man, and no step takes health |
| StepRules.TheGunAnswers | internal/gamevanyadum/sim.go:416-470 | timers, loading, shot and reload in every case: what outlasts the step holds the trigger, a granted one spends a barrel or starts the second and a half |
| StepRules.AWalkLandsExactlyWhen | internal/gamevanyadum/sim.go:319-344 | he moves iff no ampoule outlasts the step and the first room that holds the settled point has its floor within a step of his; otherwise he stays |
| StepRules.StillnessIsFelt | internal/gamevanyadum/world.go:992-1049 | a quiet tick changes a man on his feet iff something is running |
| Soldier.ResolveStands | internal/gamevanyadum/sim.go:479-511 | wherever the walls settle a move he is inside the room recorded for him, and no floor change is above the step |
| Soldier.StepStands | internal/gamevanyadum/sim.go:272-344 | a step keeps him inside his recorded room |
| Soldier.AShotIsSeenUnlessTheReloadEnds | internal/gamevanyadum/world.go:972-982 | the count falls iff the trigger was granted and no reload ran out on that step |
| Soldier.TheFirstShotAfterAReloadIsLost | internal/gamevanyadum/sim.go:416-470 | counterexample: a barrel spent that the world never sees |
| Soldier.GrantedSpendsABarrel | internal/gamevanyadum/sim.go:454-470 | a granted trigger starts the cooldown from its top and spends one barrel of what the timers left |
| Soldier.RateOfFire | internal/gamevanyadum/sim.go:416-470 | n shots need at least 1.1 n seconds of stepped time less a full gun's head start |
| Injection.HealingIsUnsliced | internal/gamevanyadum/sim.go:367-390 | at every moment of an uninterrupted injection, for any slicing, health is min(100, h0 + delivered) and the clock has lost the time |
| Injection.AnAmpouleIsWorthFifty | internal/gamevanyadum/sim.go:367-390 | a whole ampoule gives min(100, h0 + 50), and equal times heal equally |
| StepRules.AnAmpouleGoesInEvenly | internal/gamevanyadum/sim.go:388-390 | what is in is twenty points a second to the nearest point |
| StepRules.AnAmpouleHeals | internal/gamevanyadum/sim.go:367-386 | a step heals by what went in, up to the whole of him |
| Injection.RootedUntilEmpty | internal/gamevanyadum/sim.go:319-321 | until the ampoule is empty he neither moves nor fires |
| Injection.FortyOneTicks | internal/gamevanyadum/sim.go:188-212 | through the budgeted queue no injection ends in fewer than 41 ticks |
| Injection.FortyOneTicksSuffice | internal/gamevanyadum/sim.go:188-212 | and one can end on the forty-first, for a man who kept still for ten ticks from birth |
| Rewind.Ring.Record | internal/gamevanyadum/history.go:102-117 | the ring holds the last frames, oldest first, with the new one at the end |
| Rewind.Ring.Forget | internal/gamevanyadum/history.go:144-151 | one entity is gone from every frame and nothing else changed |
| Rewind.Ring.At | internal/gamevanyadum/history.go:167-224 | the loop computes the reading of the list of frames |
| Rewind.ReadsBetweenNeighbours | internal/gamevanyadum/history.go:189-222 | the reading is the linear interpolation between the two neighbouring frames, of exactly whom the later one holds |
| Rewind.ReadsClampAndMeetTheFrames | internal/gamevanyadum/history.go:180-187 | before the oldest and after the newest frame the reading is that frame, and at a frame's instant everybody stands where it has them |
| Rewind.NeverClampedToTheOldest | internal/gamevanyadum/history.go:249-258 | at a frame a tick no rewind reaches past the oldest frame |
| Rewind.ARewindIs | internal/gamevanyadum/history.go:249-258 | a shot reads back the round trip and 0.12 seconds, between none of the one and half a second in all |
| WorldRuns.EveryManAfterEveryRun | internal/gamevanyadum/world.go:916-1106 | after any run: health in range, one gun timer, no timers down, shelter only with the deadline, full health and no injection, out and shelter exclusive, standing in his recorded room |
| WorldRuns.EverySlopAfterEveryRun | internal/gamevanyadum/world.go:1211-1451 | after any run every slop is alive and inside its recorded room |
| WorldRuns.EveryShotSeesPresentHolders | internal/gamevanyadum/world.go:1515-1603 | whenever a shot is resolved, after any run and in the middle of any turn, whatever the rewound world shows under a number was recorded of its holder at that moment |
| WorldRuns.TheTickPassesThrough | internal/gamevanyadum/world.go:926-988 | the state a shot is resolved in is one the tick passes through, and it goes on from there |
| WorldRuns.NobodyInheritsASight | internal/gamevanyadum/world.go:565-588 | after any run a visible hold is of the present holder's own eyes and of the one still there |
| WorldRuns.NobodySeesItArrive | internal/gamevanyadum/world.go:1260-1287 | a slop appears where nobody on his feet can see, while there is such a room |
| WorldRuns.RewindIsSafeAfterEveryRun | internal/gamevanyadum/world.go:565-588 | the same after every run of joins, departures and ticks |
| WorldRuns.ThePurgeIsNeeded | internal/gamevanyadum/history.go:119-151 | without the purge, a run of a join, a tick, a departure and a join shows the newcomer where the man before him stood, at every instant |
| WorldRuns.TurnKeeps | internal/gamevanyadum/world.go:926-1069 | one turn keeps every invariant, settles that man's shelter clock and unsettles nobody's |
| WorldRuns.EachLeadsOnce | internal/gamevanyadum/world.go:761-771 | over as many ticks as people each goes first exactly once |
| WorldRuns.RandomSpotInside | internal/gamevanyadum/level.go:459-465 | a random spot is two radii inside its room |
| WorldLanes.TurnLanes | internal/gamevanyadum/world.go:926-1049 | a turn ticks its own man's lane once, under the guard it found, running exactly the commands that tick affords |
| WorldLanes.AdvanceTicksEveryLaneOnce | internal/gamevanyadum/world.go:916-1106 | a tick of the building is one tick of the lane of everybody who stays, under his own turn's guard |
| WorldLanes.EverybodysBooksBalance | internal/gamevanyadum/world.go:793-1069 | in every run everybody's lane is that of the history logged of his stay from the run's own frames and turns; it accounts for every command, and its time is at most the building's ticks |
| WorldLanes.NobodyIsSteppedMoreThanTheWindow | internal/gamevanyadum/world.go:932-1049 | over any k ticks of a run somebody who stays is stepped at most the cap and k - 1 ticks |
| WorldLanes.NobodyStarves | internal/gamevanyadum/world.go:959-1049 | the head of anybody's queue is stepped by one of his turns or trimmed within four ticks of the building |
| WorldBodies.NobodyHurriesAnAmpoule | internal/gamevanyadum/sim.go:188-212 | in a run of the building an injection begun by a man nothing marks takes at least 41 ticks, and loses at most a bankful and k - 1 ticks over k |
| WorldBodies.NobodyFiresFasterThanTheClock | internal/gamevanyadum/world.go:932-1049 | over any k ticks of a run a man on his feet fires at most the barrels that a bankful, k - 1 ticks and a full gun's head start have time for, at 1.1 seconds each |
| Building.House.Join | internal/gamevanyadum/world.go:501-538 | the lowest free slot, protected; already in is a no-op; full is refused |
| WorldRules.AJoinSeats | internal/gamevanyadum/world.go:501-538 | a newcomer takes the lowest free slot whole, full and sheltered, in the middle of the first room; nothing changes in a full building or for somebody already in |
| Building.House.Release | internal/gamevanyadum/world.go:565-588 | the slot is freed, the ring and the sights purged of it, the roster counted |
| WorldRules.ADepartureTakesOnlyWhatWasHis | internal/gamevanyadum/world.go:565-588 | a departure frees the slot and takes from every frame and every sight what was his and nothing else |
| Building.House.EnqueueInput | internal/gamevanyadum/world.go:793-899 | a frame reaches the lane of its sender, and nobody else's; a stranger's is ignored |
| Building.House.Wound | internal/gamevanyadum/world.go:1649-1674 | harm to one man, and whether it finished him |
| Building.House.ResolveShot | internal/gamevanyadum/world.go:1515-1603 | the shot against the rewound world: who may be hit, the sight and its hold, the harm and the purge |
| Ticks.ACommandShootsExactlyWhen | internal/gamevanyadum/world.go:959-988 | a command has its shot resolved iff the man was up with the trigger down, no timer outlasted the step, no load ended on it and something was loaded |
| WorldRules.AShotAtAManLandsExactlyWhen | internal/gamevanyadum/world.go:1515-1674 | the aimed-at holder of another slot loses fifty, or all he has and falls, iff he is up and past his deadline, not on the floor in the rewound frames, and where they show him is in view of the shooter or was glimpsed within four ticks; otherwise nothing changes |
| WorldRules.AShotAtASlopLandsExactlyWhen | internal/gamevanyadum/world.go:1515-1603 | the same of a slop, which at fifty or less is gone from its place, from every frame and from every sight |
| WorldRules.AMissChangesNothing | internal/gamevanyadum/world.go:1515-1552 | a ray that meets nobody changes nothing |
| WorldRules.AShotIsRewoundByHisRoundTrip | internal/gamevanyadum/world.go:972-988 | a shot is resolved at its shooter's own round trip back, or none for one nobody has measured |
| Building.House.TakeTurn | internal/gamevanyadum/world.go:926-1069 | rise, commands with their shots, idle fill, clamp and pickup, in order |
| WorldRules.ADownedManGetsUpOnTime | internal/gamevanyadum/world.go:1474-1499 | a man on the floor is left as he is until his term is over, whatever he sends, and gets up whole and protected on the first turn at or after it |
| WorldRules.RisenIsWhole | internal/gamevanyadum/world.go:1474-1499 | who gets up stands in the middle of the first room with a full gun and nothing running but his shelter |
| WorldRules.ATurnCloses | internal/gamevanyadum/world.go:1042-1069 | the close of a turn: stillness for a quiet tick, the shelter clock held to the deadline, an ampoule begun iff hurt, up, with none running and one reached |
| Building.House.SpawnSlop | internal/gamevanyadum/world.go:1211-1287 | nothing in an empty building, the clock restarted when full, otherwise one more when due, out of sight |
| WorldRules.ASlopArrivesExactlyWhenDue | internal/gamevanyadum/world.go:1211-1287 | with somebody in and a place free one slop more arrives iff it is time, two radii inside a room, in the first free place; a full floor only restarts the clock |
| WorldRules.ASlopArrivesUnseen | internal/gamevanyadum/world.go:1260-1287 | a slop never arrives in a room somebody on his feet has in view, himself in it or a doorway away, unless every room is |
| Building.House.StepSlops | internal/gamevanyadum/world.go:1308-1415 | the slops move and then touch, in place order |
| WorldRules.ATouchHurtsExactlyWhen | internal/gamevanyadum/world.go:1390-1415 | a slop that reaches somebody takes twenty-five off him, or all he has, iff its second is up and he is up and past his deadline |
| Building.House.RecordNow | internal/gamevanyadum/world.go:637-660 | everybody's sight is remembered and the frame recorded |
| WorldRules.EverySightIsRemembered | internal/gamevanyadum/world.go:637-660 | what is in view of somebody is glimpsed now, and every other glimpse is as it was |
| WorldRules.TheFrameHasEverybody | internal/gamevanyadum/world.go:1696-1714 | the frame of a tick has everybody where he stands and nobody else, after the last eleven |
| Building.House.Advance | internal/gamevanyadum/world.go:916-1106 | the whole tick: turns, slops, the record, and then the abandoned |
| Ticks.ATickEnds | internal/gamevanyadum/world.go:916-1106 | a tick is counted and recorded under its own number and clock, exactly the abandoned are out at the end of it, and with somebody in the next slop is still to come |
| Ticks.ASlopInASilentTick | internal/gamevanyadum/world.go:916-1106 | when nobody has sent anything a slop is where the walls let it settle, and takes twenty-five off the man it reaches iff its second is up and he is past his deadline |
| Ticks.ASlopSettlesExactlyWhen | internal/gamevanyadum/slop.go:267-312 | a slop moves iff the first room that holds the settled point has its floor within a step of its own |
| Levels.Generate | internal/gamevanyadum/level.go:157-205 | the attempts loop; the level is well built, with at most eleven rooms |
| Grown.ABuildingGrowsToWhatItDrew | internal/gamevanyadum/level.go:157-298 | for every stream: attempt by attempt from one room at the origin, each proposing a room of its own draws and keeping it with a doorway iff it shares 3.3 metres of wall with its host and no floor with any room; none is made past the seven to eleven rooms drawn, and it ends with exactly that many or after four hundred |
| Grown.NineRoomsInARow | internal/gamevanyadum/level.go:157-205 | a stream whose building has all nine rooms it drew, after eight attempts |
| Grown.NothingButHalvesRunsOut | internal/gamevanyadum/level.go:157-205 | a stream that draws nine and spends every attempt on three |
| Levels.GeneratedIsWellBuilt | internal/gamevanyadum/level.go:157-298 | for every stream: no overlapping rooms, a tree of doorways each a jamb inside the wall its rooms share, no rise above the step |
| Levels.EveryRoomIsReachable | internal/gamevanyadum/level.go:157-205 | every room can be walked to from every other |
| Walls.SubtractPortals | internal/gamevanyadum/level.go:373-396 | the nested loops compute the edge minus the openings |
| Walls.WallsAreEdgesMinusDoorways | internal/gamevanyadum/level.go:373-396 | for any openings a point of the edge is solid iff it is in none, up to the slack |
| Walls.OnlyPieces | internal/gamevanyadum/level.go:373-396 | every segment is a piece of its own edge and none is a sliver |
| Walls.BuildWalls | internal/gamevanyadum/level.go:309-323 | all four edges of all rooms, in order |
| Walls.OpeningsCutOnlyTheirOwn | internal/gamevanyadum/level.go:309-323 | in a generated level a doorway misses every edge of every third room |
| Walls.RoomWallsAreExact | internal/gamevanyadum/level.go:309-396 | a generated room's walls are its edges minus its own doorways |
| Walls.OnlyOutlinesAreSolid | internal/gamevanyadum/level.go:309-396 | no wall of a building has a point off every room's outline, or inside an opening that lies along it |
| Walls.OutlinesAreSolid | internal/gamevanyadum/level.go:309-396 | the outline of every room is solid wherever none of its own doorways is open, up to twice the slack |
| Walls.DoorwaysAreOpen | internal/gamevanyadum/level.go:309-396 | nothing solid stands inside a doorway, in either room |
| Routes.BuildRoutes | internal/gamevanyadum/slop.go:143-201 | for any level a pair has a route iff distinct and connected, through the lowest doorway that leads to a room exactly one closer |
| Routes.Distances | internal/gamevanyadum/slop.go:167-182 | the flood from one destination |
| Routes.NearestLink | internal/gamevanyadum/slop.go:188-196 | the first of the links leading furthest in, if any leads in |
| RouteWalks.WaypointIsInset | internal/gamevanyadum/slop.go:205-231 | a waypoint is a body's width inside the room its doorway leads into |
| RouteWalks.EveryPairIsRouted | internal/gamevanyadum/slop.go:143-231 | in a generated level every pair is routed; the waypoint lies in the next room and no other, one closer |
| RouteWalks.HopsArrive | internal/gamevanyadum/slop.go:245-257 | following waypoints from distance d arrives in exactly d doorways |
| Ledger.Service.EnsureWorld | internal/gamevanyadum/service.go:384-402 | a new building resets the published roster |
| Ledger.Service.OnHello | internal/gamevanyadum/service.go:500-531 | joins, and forgets that this connection was told anything |
| Deliveries.AHelloIsAnswered | internal/gamevanyadum/service.go:500-531 | a hello is answered on its own socket alone, seated iff its account is in the building; a stranger is seated iff a slot is free |
| Ledger.Service.PurgeAccount | internal/gamevanyadum/service.go:435-447 | the account is out, and an emptied building torn down |
| Deliveries.ABuildingGoesWithTheLast | internal/gamevanyadum/service.go:384-447 | a building is gone iff its last has left, and one that is raised has told nobody anything |
| Ledger.Service.Step | internal/gamevanyadum/service.go:191-294 | one tick: the world, the standings when due, and each connection's frames |
| Deliveries.ATickDelivers | internal/gamevanyadum/service.go:191-294 | every socket of somebody in the building is sent one snapshot, and the slot table before it on a twentieth tick, when slots changed hands since, or when it was never told; nobody else is sent anything, and an emptied building is gone |
| Ledger.CollectFrames | internal/gamevanyadum/service.go:245-290 | the frames of one tick in order, and the new ledger |
| LedgerRuns.ASnapshotNeverOutrunsItsDirectory | internal/gamevanyadum/service.go:191-294 | over every run, the newest standings before a snapshot on its stream are the slot table it was built from |
| LedgerRuns.EveryTickReachesEverybody | internal/gamevanyadum/service.go:251-289 | every socket of everybody in the building ends the tick with its snapshot |
| LedgerRuns.AdvanceTells | internal/gamevanyadum/world.go:612 | a tick changes the slot table only if it moves the roster |
| LedgerRuns.TheSentinelIsNeeded | internal/gamevanyadum/service.go:81-91 | without the reset a run of eight calls sends a snapshot its reader's directory does not match |

## Left out

- Floating point: rounding, and the nanosecond grain of Go's durations, are not modelled; values and times are reals. NaN and infinity are modelled where a client can send one as a duration and where a layout can hold one, not in stored stat values.
- Limits.ForeverExactlyWhenExhausted: says nothing of a stat that moves only by its penalties, whose reads depend on which drivers can meet their conditions together.
- Spans beyond the longest Go duration, for catalogues with a stat that does not use up its scale within one: `Limits.ForeverExactlyWhenExhausted` shows that reads of such a stat stop composing.
- The length of a stick and the normalised direction of a walk: the length is given with the command, and nothing rests on it being the root.
- Yaw, pitch, the ray of a shot, the slide along the building's walls and a slop's choice of prey are inputs: an order carries where its walk settles and what its ray meets, and the rules may still refuse both. The steps a slop and its separation settle at are inputs too.
- Which pickup lies where, its respawn clock, the bag and the score lines: a plan says who reached an ampoule.
- Building.House.ResolveShot: what the ray meets first is an input, which the rules here may refuse; deaths, kills and betrayals are not counted.
- Building.House.TakeTurn: where walks settle and whether an ampoule was reached are inputs.
- Building.House.StepSlops: where the slops' steps and their separation settle, and which man each touches, are inputs the rules may refuse.
- Building.House.Advance: who has been away too long is an input, as the clock is.
- The start of a replay: the live path seeds a pet's rows at the instant of the request that first touches it and replay starts from its creation; the model has one instant of birth for both.
- The boss's and the chaser's own steps, drunk wobble, redirects, the router, passers-by, balloons and the office's snapshot.
- Wire formats: JSON, quantisation, byte budgets; a frame is the directory it carries or is read by. A frame that fails to marshal, and frames dropped by the hub, are not modelled.
- Members with the hub's sockets: a tick is given its list of members; concurrency is the order in which calls take the lock.
- Surfaces, light, ceilings, pickups and the spawn's facing in a generated level; the layout's hash; the concrete pseudo-random sequences; the weights of the hidden rooms a slop may appear in.
- Persistence, HTTP, accounts, pseudonyms, purge of stored rows and every other game.
