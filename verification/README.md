# Verified model of game helpers and Skirmish AI management

This project models parts of the Spring/Recoil RTS engine in Dafny and proves what they keep over whole runs.
`dafny verify dfyconfig.toml` checks all of it.

| module | what it models |
|---|---|
| `JobDispatcher` | the priority-queue scheduler of timed jobs |
| `ExplosionDamage` | nested explosions over shared vectors, and the 128-slot ring of damage that arrives later |
| `UnitQuery` | spatial queries that stamp units to meet each of them once |
| `BuildSearch` | the grow-only table of search offsets and the search for a build site |
| `BuildSnap`, `YardMap` | build-grid snapping, footprints, and the two yard-map rotations |
| `Versions`, `KeySelection` | version comparison by a weighted sum, and the choice of AIs and interfaces by version |
| `AILibraries` | nested reference counts of AI libraries and interfaces |
| `AILifecycle`, `AIRegistry` | the calls an AI gets between creation and destruction, with AI code that calls back, and the registries |
| `AIEvents` | which AIs hear of a unit event |
| `AIInstances` | the slots of AI instances with their map and count |
| `CommandCodec` | the way of a raw command through topic, struct and new command |
| `Sequences`, `Conversions` | facts shared by these |

Methods follow the source's own control flow; what they do is stated by a function of the old state, or outright, and
the lemmas prove the laws about that function. AI code, Lua and foreign libraries are environments: scripts of any
shape given as arguments, or free choices.

## How the proofs go

- Scheduler: `Settle` is the effect of one update on one job. The queue loop is replayed over the tops it picked, and
  any such replay that runs out of due jobs leaves `SettleAll`. Rates and run counts are laws about `Settle`, in Hertz
  and milliseconds.
- Explosions: a ledger records every deferral, delivery and call of DoDamage with its cause, and what each explosion
  did with each object. That each slot holds exactly what is pending, and that the calls for each cause are exactly
  the outcomes recorded, is the type invariant of the ledger. Nesting is bounded by the units alive and by what
  Lua code still does.
- AI lifecycle: an automaton over the trace of an AI says what order is. The reaction of AI code is a finite tree of
  callbacks, and induction over the tree shows that no reaction breaks the order of any AI, and that each AI hears
  exactly as often as the tree tells it. For AIs that call nothing back, creation, events and destruction are stated
  note by note.
- Command codec: nine shapes give the normal form independently of the forty-three cases of each table.

## Where code and documentation differ

The model follows the code; each difference has a lemma that says exactly when it shows.

- The search reads the first (2r)^2 entries of a table that may have been made for a larger radius
  (rts/Game/GameHelper.cpp:1118-1119) as if they were the table for r. The common part ends at offset (r, 0)
  (`PrefixIndependentIff`); an acceptable offset makes the answer independent of earlier calls exactly if it comes
  before that (`HistoryIndependentIff`, `HistoryMattersAtEdge`).
- Damage due 128 or more frames ahead is delivered early, by a multiple of 128 frames (`OnTimeByDistance`,
  `SlowWaveArrivesEarly`).
- `VersionCompare` is documented as a comparison by parts. It is one if part comparisons have magnitude at most 3
  (`SumIsOrderIff`); std::string::compare promises a sign only (`CharDifferenceMisleads`).
- `FindFittingInterfaceKey` is documented to find the closest version. Among greater ones it takes the first in string
  order. That is the closest exactly if there is an equal version, or that first one does not continue a part of a
  fitting version with a character below the dot, nor end where a fitting version goes on below zero
  (`ChosenIsLeastIff`, `MisleadsIff`, `SetOrderCanMislead`). Versions of numbers and letters never do (`ChosenIsLeast`).
- `UnitCaptured` is commented to inform allies of the old team. It is sent before the unit changes its ally team, so
  only the old team's own AIs are informed (`TransferredReaches`, `AlliesHearOfLossIff`, `AllyNotTold`). An AI allied
  with both teams, and of neither, hears of the transfer in no event, though the comment on each event refers to the other.
- INIT is the first event unless the library's init function itself has an event sent to its AI: the AI is registered
  before its library starts (`EarlyIffReached`, `EarlyEvent`).
- `FromRawCommand` copies as many bytes as there are parameters, not as many parameters. The topic of some reclaim
  commands is misread for it (`TopicMisreadIff`, `ReclaimMisread`), but the command that results is the same
  (`ExecuteCommand`).
- `getYardMap` computes the minimum of the map's size and the buffer's, but writes the whole map, with an assertion
  as the only guard (`WritesWithinIff`).
- Each `SetLocalKillFlag` sends a DIEING message, and each message destroys the AI, unless it is a Lua AI. A second
  message for an AI that is not active any more makes `DestroySkirmishAI` index the team lists with -1 before its
  assertion (`DyingTwice`).
  There is one message for each exactly as long as `SetLocalKillFlag` is called for active AIs without a kill flag only
  (`FlagOnceIff`, `HandleDieing`).

## Model

| member | source | states |
|---|---|---|
| `JobDispatcher.Settle` | rts/Game/GameJobDispatcher.h:44-61 | one update leaves a surviving job valid and no longer due |
| `JobDispatcher.RunsDue` | rts/Game/GameJobDispatcher.h:44-61 | the runs of one update are of that job, were due, and happen at its time |
| `JobDispatcher.DueRunsStep` | rts/Game/GameJobDispatcher.h:25 | running a due job leaves it exactly one run less behind, so catching up ends |
| `JobDispatcher.RetimedIs` | rts/Game/GameJobDispatcher.h:25 | a run makes a job due again (time - from) * freq = 1000 later, from when it was due if it catches up and else from now; with frequency 0, never |
| `JobDispatcher.DroppedIffCallbackReturnsFalse` | rts/Game/GameJobDispatcher.h:54-59 | one update removes a job exactly if one of the runs it makes returns false; otherwise each due run is counted |
| `JobDispatcher.SettleCatchUp` | rts/Game/GameJobDispatcher.h:44-61 | closed form of what an update does to a catch-up job: all its due runs at once, the due time moved on by as many periods, or removal at the first false |
| `JobDispatcher.SettleTwice` | rts/Game/GameJobDispatcher.h:44-61 | updating a catch-up job at a and then at b >= a is updating it at b |
| `JobDispatcher.SpacingIrrelevant` | rts/Game/GameJobDispatcher.h:44-61 | after any non-decreasing sequence of update times a catch-up job is as after one update at the last time |
| `JobDispatcher.CatchUpRunCount` | rts/Game/GameJobDispatcher.h:25 | for a frequency in Hertz and the period p in milliseconds with p * freq = 1000: a catch-up job first due at t0 is, after any non-decreasing sequence of updates, exactly floor((last - t0) / p) + 1 runs on and due again at t0 plus that many p; or it is gone, exactly if one of these runs returned false |
| `JobDispatcher.AtMostOncePerUpdate` | rts/Game/GameJobDispatcher.h:44-61 | a job that does not catch up runs at most once per update, and is retimed from then |
| `JobDispatcher.OneCallIs` | rts/Game/GameJobDispatcher.h:44-61 | what one update does to a job that does not catch up, outright: nothing before its time, one run then, and the job gone or due 1000 / freq milliseconds from now |
| `JobDispatcher.CatchUpRunsAre` | rts/Game/GameJobDispatcher.h:44-61 | the runs one update makes of a catch-up job are due at t0, t0 + p, t0 + 2p and so on, for p * freq = 1000 |
| `JobDispatcher.NoRunBeforeDue` | rts/Game/GameJobDispatcher.h:25 | run k of a job that does not catch up is not before its first due time plus k * p milliseconds, for p * freq = 1000, over any run |
| `JobDispatcher.RunsApart` | rts/Game/GameJobDispatcher.h:25 | runs i and i + n of a job that does not catch up are at least n * p milliseconds apart, for p * freq = 1000, over any run |
| `JobDispatcher.JobsIndependent` | rts/Game/GameJobDispatcher.h:44-61 | over any sequence of updates each job of the queue fares as if it were alone |
| `JobDispatcher.DroppedStaysOut` | rts/Game/GameJobDispatcher.h:54-55 | a job that was removed never comes back |
| `JobDispatcher.OutstandingSplit` | rts/Game/GameJobDispatcher.h:47-61 | the loop's measure is the sum of the due runs of all queued jobs |
| `JobDispatcher.CallCountsDown` | rts/Game/GameJobDispatcher.h:47-61 | each iteration makes that measure smaller |
| `JobDispatcher.ReplayAccounted` | rts/Game/GameJobDispatcher.h:44-61 | whichever of equally due jobs is on top, calls made and calls still to come add up to what the queue had to get, and calls happen in due order |
| `JobDispatcher.ReplayFinished` | rts/Game/GameJobDispatcher.h:44-61 | when nothing queued is due, every job has got exactly its due runs and is left as if alone |
| `JobDispatcher.Dispatcher.AddTimedJob` | rts/Game/GameJobDispatcher.h:43 | the queue has one job more and is otherwise as it was |
| `JobDispatcher.Dispatcher.CallJob` | rts/Game/GameJobDispatcher.h:53-60 | pop, call, retime and push again, or drop when the call returns false |
| `JobDispatcher.Dispatcher.Update` | rts/Game/GameJobDispatcher.h:44-61 | the loop terminates; afterwards nothing queued is due, the queue lost exactly the jobs whose callback returned false, every due run was made exactly once and in non-decreasing scheduled time |
| `ExplosionDamage.FalloffIsMonotone` | rts/Game/GameHelper.cpp:147-150 | the share of the damage that reaches an object is in (0, 1] and does not grow with distance |
| `ExplosionDamage.ShareFalls` | rts/Game/GameHelper.cpp:147-150 | from distance 1 on and with an edge effect below 1 the share falls strictly with distance |
| `ExplosionDamage.MaskIsRemainder` | rts/Game/GameHelper.h:266-267 | masking with 127 is the remainder by 128, on 32-bit frame numbers |
| `ExplosionDamage.SharedSlot` | rts/Game/GameHelper.h:266-267 | two frames use the same slot exactly if a multiple of 128 lies between them |
| `ExplosionDamage.DeliveryFrameIsFirstUse` | rts/Game/GameHelper.cpp:62-84 | a slot's damage is delivered in the first frame not yet drained that uses the slot |
| `ExplosionDamage.OnTimeIff` | rts/Game/GameHelper.cpp:165-171 | that is the frame in which the wave arrives exactly if it is less than 128 frames ahead; else delivery is early |
| `ExplosionDamage.OnTimeByDistance` | rts/Game/GameHelper.cpp:165-171 | the same by distance and speed: a deferred hit is on time exactly if int(dist/speed) - 3 is less than 128, or 129 when this frame's list is drained already |
| `ExplosionDamage.SlowWaveArrivesEarly` | rts/Game/GameHelper.cpp:165-171 | an explosion for which that fails: at distance 200 and speed 1, damage due in frame 197 is delivered in frame 69 |
| `ExplosionDamage.Delay` | rts/Game/GameHelper.cpp:165-171 | a wave that does not hit at once arrives at least one frame later, so the slot being drained is not the target |
| `ExplosionDamage.UnitOutcome` | rts/Game/GameHelper.cpp:107-172 | deferred damage is due after this frame and goes to the slot's first undrained frame |
| `ExplosionDamage.UnitOutcomeWhen` | rts/Game/GameHelper.cpp:107-172 | spared exactly if it is the owner and that is to be spared, or out of range; hit at once exactly if the wave reaches it within four frames; else later |
| `ExplosionDamage.UnitDamageIs` | rts/Game/GameHelper.cpp:147-164 | at distance d from 1 on and edge effect e below 1, dmg * (radius + 0.001 - d * e) = damage * (radius + 0.001 - d); otherwise dmg = damage |
| `ExplosionDamage.UnitDeferralIs` | rts/Game/GameHelper.cpp:165-171 | later damage names the unit as target and the owner as attacker, with the weapon; counted from now it is due in the n-th frame with (n + 3) * speed <= d < (n + 4) * speed |
| `ExplosionDamage.FeatureOutcomeIs` | rts/Game/GameHelper.cpp:174-213 | a feature is hit at once exactly if it is in range, by the same share of the damage |
| `ExplosionDamage.FartherIsHitLess` | rts/Game/GameHelper.cpp:147-167 | of two units hit at once by one explosion, both at distance 1 or more, the farther is hit strictly less if the edge effect is below 1 |
| `ExplosionDamage.TreatmentsAre` | rts/Game/GameHelper.cpp:215-248 | all deferrals of an explosion are for units its query found, in range, for its owner and weapon and with their share of the damage; all its hits are of objects found, in range, with theirs |
| `ExplosionDamage.ImpactIs` | rts/Game/GameHelper.cpp:274-301 | an impact does its full damage at once to its one object, or none to an owner to be spared |
| `ExplosionDamage.DeferKeepsRing` | rts/Game/GameHelper.cpp:165-171 | deferring appends to the one list that stands for the delivery frame, and each slot still holds exactly what is pending in it |
| `ExplosionDamage.DeferKeepsTallies` | rts/Game/GameHelper.cpp:165-171 | what an explosion put on the ring stays exactly what the outcomes of the objects it came to say |
| `ExplosionDamage.HitKeepsTallies` | rts/Game/GameHelper.cpp:165-167 | what an explosion damaged at once stays exactly what the outcomes of the objects it came to say |
| `ExplosionDamage.DeliveryKeepsTallies` | rts/Game/GameHelper.cpp:68-81 | what the ring damaged in a frame stays exactly what was delivered in it to present targets |
| `ExplosionDamage.DrainKeepsRing` | rts/Game/GameHelper.cpp:62-84 | clearing the slot of the frame just delivered leaves each slot holding exactly what is pending |
| `ExplosionDamage.DeliveredWhenDue` | rts/Game/GameHelper.cpp:62-84 | in every reachable state, if no wave takes longer than the ring is long, each past frame took off the ring exactly the damage due in it, once and in order, and DoDamage was called from the ring exactly for those of it whose target was present |
| `ExplosionDamage.RingHitsAreDeliveries` | rts/Game/GameHelper.cpp:68-81 | the calls of DoDamage from the ring are the deliveries to present targets, one each |
| `ExplosionDamage.DeferralsOnlyAdd` | rts/Game/GameHelper.cpp:165-171 | later deferrals never displace earlier ones of a frame |
| `ExplosionDamage.UnitsOneEach` | rts/Game/GameHelper.cpp:238-239 | one treatment per unit found, in order, with the outcome its distance calls for |
| `ExplosionDamage.FeaturesOneEach` | rts/Game/GameHelper.cpp:244-245 | one treatment per feature found, in order, with the outcome its distance calls for |
| `ExplosionDamage.StackedEffects` | rts/Game/GameHelper.cpp:215-248 | effects of nested explosions compose: treatments add up for the explosion under way and none is added to those below |
| `ExplosionDamage.CallDone` | rts/Game/GameHelper.cpp:215-248 | at the end of an explosion its DoDamage calls and its deferrals are exactly those of its treatments, and no earlier explosion was touched |
| `ExplosionDamage.FrameIsDrained` | rts/Game/GameHelper.cpp:62-84 | delivering a list to its end and clearing it is what one update should do |
| `ExplosionDamage.GameHelper.LuaEvent` | rts/Sim/Units/Unit.cpp:1386-1399 | Lua code told of an event may act any finite number of times; no explosion under way is touched |
| `ExplosionDamage.GameHelper.LuaAction` | rts/Lua/LuaSyncedCtrl.cpp:7788-7813 | an explosion, a hit or a kill by Lua code leaves both vectors and the explosions under way as they were |
| `ExplosionDamage.GameHelper.LuaDamage` | rts/Lua/LuaSyncedCtrl.cpp:4490-4555 | one call of DoDamage that counts for Lua code and for nothing else |
| `ExplosionDamage.GameHelper.DoFeatureDamage` | rts/Sim/Features/Feature.cpp:434-476 | the call is recorded once for its cause; Lua code told of it may explode things, which leaves both vectors and the explosions under way as they were |
| `ExplosionDamage.GameHelper.DoDamage` | rts/Sim/Units/Unit.cpp:1349-1419 | the call is recorded once for its cause; explosions, hits and kills by Lua code and explosions of a dying unit leave both vectors, the frame and the explosions under way as they were |
| `ExplosionDamage.GameHelper.Die` | rts/Sim/Units/Unit.cpp:493-541 | a dying unit leaves the living before its explosions, so nesting ends |
| `ExplosionDamage.GameHelper.Explode` | rts/Game/GameHelper.cpp:250-318 | an impact hits its one object at once in full; anything else treats what is in range: all DoDamage calls and deferrals made for this explosion are exactly the outcomes of these objects, in order, with target, attacker, weapon and share of the damage as stated outright |
| `ExplosionDamage.GameHelper.HitObject` | rts/Game/GameHelper.cpp:274-301 | the impact on one object, with exactly its outcome |
| `ExplosionDamage.GameHelper.DamageUnit` | rts/Game/GameHelper.cpp:107-172 | a unit is spared, hit at once or has its damage deferred, by its distance, with frame and amount, and nothing else is done for this explosion |
| `ExplosionDamage.GameHelper.DamageFeature` | rts/Game/GameHelper.cpp:174-213 | a feature is spared or hit at once, by its distance, and nothing else is done for this explosion, whatever Lua code explodes when told of the hit |
| `ExplosionDamage.GameHelper.HitFeatureNow` | rts/Sim/Features/Feature.cpp:434-476 | one call of DoDamage on a feature for this explosion, with explosions nested in it |
| `ExplosionDamage.GameHelper.HitNow` | rts/Game/GameHelper.cpp:165-167 | one call of DoDamage for this explosion |
| `ExplosionDamage.GameHelper.HitLater` | rts/Game/GameHelper.cpp:168-171 | one entry on the ring for this explosion, in the slot of its arrival |
| `ExplosionDamage.GameHelper.DamageUnitsFrom` | rts/Game/GameHelper.cpp:238-239 | each unit stacked from the given position on is treated exactly once, in order, with its outcome, though nested explosions push and pop the same vector |
| `ExplosionDamage.GameHelper.DamageFeaturesFrom` | rts/Game/GameHelper.cpp:244-245 | the same for features, with explosions nested in the second loop |
| `ExplosionDamage.GameHelper.TreatStacked` | rts/Game/GameHelper.cpp:229-247 | what lies above the old ends is treated, each object once, and taken off; what lies below is untouched |
| `ExplosionDamage.GameHelper.DamageObjectsInExplosionRadius` | rts/Game/GameHelper.cpp:215-248 | both vectors end exactly as at entry, and the DoDamage calls and deferrals of this explosion are exactly the outcomes of the objects its own query found, each once, under any nesting |
| `ExplosionDamage.GameHelper.DeliverEntry` | rts/Game/GameHelper.cpp:68-81 | one entry is delivered, with one DoDamage call if its target exists and none if not; the list may only grow behind it |
| `ExplosionDamage.GameHelper.DeliverList` | rts/Game/GameHelper.cpp:68-81 | the loop terminates and delivers the whole list, also what is added meanwhile |
| `ExplosionDamage.GameHelper.Update` | rts/Game/GameHelper.cpp:62-84 | delivers in order exactly what was deferred to this frame and calls DoDamage from the ring exactly for the targets that exist; nothing is delivered or hit for other frames, and the list does not grow meanwhile if every wave is on time |
| `UnitQuery.World.HandedOnce` | rts/Game/GameHelper.cpp:392-402 | of the units met, those that pass the filter are handed out without repetition |
| `UnitQuery.World.MetInTeamMembers` | rts/Game/GameHelper.cpp:390-402 | the units met for an ally team are exactly those listed in one of the quads |
| `UnitQuery.World.MetMembers` | rts/Game/GameHelper.cpp:386-403 | the units met are exactly those of the ally teams that pass the filter, in the quads |
| `UnitQuery.World.WalkStamps` | rts/Game/GameHelper.cpp:383-399 | starting from a fresh stamp, exactly the units met carry it |
| `UnitQuery.World.WalkHandsOutOnce` | rts/Game/GameHelper.cpp:379-405 | stamping hands out each unit that passes the filter at its first appearance and never again |
| `UnitQuery.World.VisitTeam` | rts/Game/GameHelper.cpp:390-402 | the loop over the quads of one ally team is the walk over all it lists |
| `UnitQuery.World.VisitList` | rts/Game/GameHelper.cpp:392-401 | the innermost loop stamps and hands out as the walk does |
| `UnitQuery.World.WholeWalk` | rts/Game/GameHelper.cpp:379-405 | the walk over all ally teams hands out each sought unit in the quads exactly once, and leaves no newer stamp |
| `UnitQuery.World.QueryUnits` | rts/Game/GameHelper.cpp:379-405 | each unit of a passing ally team in the quads that satisfies the filter is handed to the query exactly once |
| `UnitQuery.World.ClosestIsMinimum` | rts/Game/GameHelper.cpp:550-632 | a closest-unit query ends with an accepted unit at the least distance, or none exactly if none is accepted |
| `UnitQuery.World.FoundInRadius` | rts/Game/GameHelper.cpp:634-650 | a find-all query keeps exactly the units within the radius, each once |
| `UnitQuery.World.SoughtIs` | rts/Game/GameHelper.cpp:410-507 | what each filter lets pass: allies or enemies of the searching ally team, not the excluded unit, and for enemies not neutral, in sight or radar, flying, a valid target, as the filter says |
| `UnitQuery.World.AcceptsIs` | rts/Game/GameHelper.cpp:510-650 | what each query accepts and measures, by the differences of the coordinates: dx*dx + dz*dz against the radius squared, or the distance to the unit's sphere; within the unit's sight if that is asked for |
| `UnitQuery.World.FindAll` | rts/Game/GameHelper.cpp:861-885 | given quads that cover the area, the result is what testing every unit of the world gives, without duplicates |
| `UnitQuery.World.FindClosest` | rts/Game/GameHelper.cpp:803-860 | an accepted unit at the least distance of all accepted units of the world, or none exactly if nothing qualifies |
| `UnitQuery.World.FindClosestSphere` | rts/Game/GameHelper.cpp:819-843 | enlarging the area by the largest unit radius is enough for the search by spheres to be complete |
| `UnitQuery.World.TouchedIsCovered` | rts/Game/GameHelper.cpp:819-843 | a unit whose sphere is touched lies in a quad of the enlarged area |
| `BuildSearch.StableSortOfRows` | rts/Game/GameHelper.cpp:1070-1090 | stably sorting the row-by-row square by distance orders it by distance, then dy, then dx |
| `BuildSearch.TableIsSortedSquare` | rts/Game/GameHelper.cpp:1064-1094 | the table for a radius holds exactly the pairs of offsets from -radius up to radius - 1, each once, ordered by dx*dx + dy*dy, then dy, then dx |
| `BuildSearch.CoreIsCommonPrefix` | rts/Game/GameHelper.cpp:1064-1094 | all tables made for this radius or more begin with the same entries, those before (radius, 0) |
| `BuildSearch.CoreMembers` | rts/Game/GameHelper.cpp:1064-1094 | these are exactly the offsets with dx*dx + dy*dy below r*r, and of those equal to r*r the ones before (r, 0) by dy, then dx |
| `BuildSearch.CoreContainsDisc` | rts/Game/GameHelper.cpp:1064-1094 | these include every offset with dx*dx + dy*dy < r*r |
| `BuildSearch.EdgeFollowsCore` | rts/Game/GameHelper.cpp:1064-1094 | right behind them a larger table has (radius, 0), which the radius' own table lacks |
| `BuildSearch.PrefixIndependentIff` | rts/Game/GameHelper.cpp:1064-1094 | the first m entries returned for a radius are the same after every history exactly if m is at most the length of that common part |
| `BuildSearch.NearestWhateverTheHistory` | rts/Game/GameHelper.cpp:1116-1190 | if an acceptable offset comes before (radius, 0), the search finds, whatever the table was made for, the acceptable offset of least dx*dx + dy*dy, ties by dy, then dx |
| `BuildSearch.SearchFindsNearest` | rts/Game/GameHelper.cpp:1116-1190 | what is found is acceptable, and if any offset with dx*dx + dy*dy < r*r is, it is the nearest acceptable one |
| `BuildSearch.HistoryMattersAtEdge` | rts/Game/GameHelper.cpp:1116-1190 | an input for which the answer depends on earlier calls: only (radius, 0) acceptable |
| `BuildSearch.HistoryIndependentIff` | rts/Game/GameHelper.cpp:1116-1190 | that some offset is acceptable rules out any influence of earlier calls, whatever else is acceptable, exactly if dx*dx + dy*dy is below r*r, or equal to it and the offset is before (r, 0) by dy, then dx |
| `BuildSearch.Scan` | rts/Game/GameHelper.cpp:1131-1170 | one scan for objects in the way reports free exactly if no square of the rectangle is blocked, although finding one ends only its row |
| `BuildSearch.IsFreeIs` | rts/Game/GameHelper.cpp:1128-1176 | a site is free exactly if no immobile object stands on a map square within minDistance of its footprint, and none with an open yard within two squares more, square by square in the object map |
| `BuildSearch.FoundInCore` | rts/Game/GameHelper.cpp:1116-1190 | two tables with the same beginning give the same offset, the first accepted one, if the beginning has any |
| `BuildSearch.SearchOffsetTable.Require` | rts/Game/GameHelper.cpp:1064-1094 | the static table grows to the largest radius asked for and never shrinks; it is always a correct table |
| `BuildSearch.SearchOffsetTable.FillRows` | rts/Game/GameHelper.cpp:1076-1086 | the two loops write the square row by row |
| `BuildSearch.SearchOffsetTable.FillRow` | rts/Game/GameHelper.cpp:1077-1085 | one row is written and nothing before it is touched |
| `BuildSearch.SearchOffsetTable.ClosestBuildPos` | rts/Game/GameHelper.cpp:1097-1191 | the first offset of the (2r)^2 entries that is buildable and free of immobile objects within the minimum distance, or none; whenever one with dx*dx + dy*dy < r*r is, the nearest such offset of all, ties by dy, then dx |
| `YardMap.WritesToWorldSquare` | rts/ExternalAI/SSkirmishAICallbackImpl.cpp:2883-2939 | the callback writes each entry of the definition to the row and column of its world square |
| `YardMap.WriteIndexIs` | rts/ExternalAI/SSkirmishAICallbackImpl.cpp:2883-2939 | the same in coordinates, facing by facing |
| `YardMap.QuarterTurns` | rts/Game/GameHelper.cpp:1024-1056 | facing south an entry lies where the definition has it, and from each facing to the next the footprint turns by a quarter |
| `YardMap.ReadsTheSameEntry` | rts/Game/GameHelper.cpp:1024-1056 | for that world square the build test reads the same entry |
| `YardMap.WorldSquareIsBijection` | rts/Game/GameHelper.cpp:1024-1056 | every square of the rotated footprint is the place of exactly one entry |
| `YardMap.WriteIndexInjective` | rts/ExternalAI/SSkirmishAICallbackImpl.cpp:2926-2937 | no place is written twice |
| `YardMap.EveryPlaceWritten` | rts/ExternalAI/SSkirmishAICallbackImpl.cpp:2926-2937 | every place is written |
| `YardMap.RotationsAgree` | rts/ExternalAI/SSkirmishAICallbackImpl.cpp:2883-2939 | for all facings and sizes, the value written for a world square is the definition's value at GetYardMapIndex of that square |
| `YardMap.WritesWithinIff` | rts/ExternalAI/SSkirmishAICallbackImpl.cpp:2887-2937 | the loops stay within a buffer exactly if it can hold all xsize * zsize entries; the computed minimum does not restrict them |
| `YardMap.WriteRotated` | rts/ExternalAI/SSkirmishAICallbackImpl.cpp:2928-2937 | the loops rotate the whole map into the buffer and leave the rest of the buffer alone |
| `YardMap.GetYardMap` | rts/ExternalAI/SSkirmishAICallbackImpl.cpp:2876-2942 | with a buffer that can hold it the rotated map, with none, or no yard map, only the size |
| `BuildSnap.SnapMovesLittle` | rts/Game/GameHelper.cpp:988-1008 | snapping moves a coordinate by at most half a build square, down by less than that |
| `BuildSnap.SnapIs` | rts/Game/GameHelper.cpp:988-1008 | the snapped coordinate is the one whole number of squares within half a build square that is odd for sizes of an odd number of build squares and even for the others |
| `BuildSnap.SnapIdempotent` | rts/Game/GameHelper.cpp:988-1008 | along one axis, snapping twice is snapping once |
| `BuildSnap.Pos2BuildPosIdempotent` | rts/Game/GameHelper.cpp:988-1008 | the same for positions, with the bound on how far both coordinates move |
| `BuildSnap.SnappedStart` | rts/Game/GameHelper.cpp:1284-1293 | a snapped footprint starts on an even square, half its size from the middle exactly for even sizes |
| `BuildSnap.FootprintOnTilesIff` | rts/Game/GameHelper.cpp:1284-1293 | the tested squares make whole building-mask tiles exactly if both sizes are even, for all facings |
| `BuildSnap.FootprintFaces` | rts/Game/GameHelper.cpp:1010-1022 | by facing, which size of the definition is the width and which the depth of footprint and rectangle |
| `BuildSnap.FootprintIsRectIff` | rts/Game/GameHelper.cpp:1010-1022 | the tested squares are the rectangle of BuildPosToRect exactly if both sizes are even, for all facings |
| `Versions.VersionOrderAntisymmetric` | rts/ExternalAI/AILibraryManager.cpp:486-502 | the order of zero-padded parts changes its sign with its arguments, also for different part counts |
| `Versions.VersionOrderReflexive` | rts/ExternalAI/AILibraryManager.cpp:486-502 | every version equals itself |
| `Versions.VersionOrderTransitive` | rts/ExternalAI/AILibraryManager.cpp:486-502 | and is transitive across versions with different numbers of parts: a total preorder |
| `Versions.FirstDifferenceDecides` | rts/ExternalAI/AILibraryManager.cpp:486-502 | the first part that differs decides by string order, a missing part counting as 0; without a difference the versions are equal |
| `Versions.StrSignIs` | rts/ExternalAI/AILibraryManager.cpp:493-498 | the sign of a string comparison is that of the first characters that differ, and a string is below its continuations |
| `Versions.WeightedSumSign` | rts/ExternalAI/AILibraryManager.cpp:493-498 | with part comparisons of magnitude at most 3 the weighted sum has the sign of the first that is not zero |
| `Versions.SumIsOrderIff` | rts/ExternalAI/AILibraryManager.cpp:493-498 | the bound 3 is sharp |
| `Versions.CharDifferenceMisleads` | rts/ExternalAI/AILibraryManager.cpp:493-498 | with a compare that returns character differences, 1.a counts as newer than 2.9 |
| `Versions.DiffsFollowOrder` | rts/ExternalAI/AILibraryManager.cpp:493-498 | the first non-zero part comparison is the order of the versions |
| `Versions.PartialSumBound` | rts/ExternalAI/AILibraryManager.cpp:493-498 | every partial sum stays within the bound of the whole, so bounding the whole rules out overflow in each step |
| `Versions.FitsIntIff` | rts/ExternalAI/AILibraryManager.cpp:497 | the stated bound on the number of parts holds exactly if no sum of bounded differences overflows and the largest shift does not |
| `Versions.SafePartCounts` | rts/ExternalAI/AILibraryManager.cpp:497 | 15 parts are safe with sign-valued comparisons, and some sum of 16 overflows; with magnitudes up to 3 these are 14 and 15 |
| `Versions.StepFits` | rts/ExternalAI/AILibraryManager.cpp:497 | each shift, product and partial sum fits 32 bits |
| `Versions.SignTrickIsSign` | rts/ExternalAI/AILibraryManager.cpp:501 | the closing bit trick yields 1, 0 or -1 by sign on all 32-bit values |
| `Versions.VersionCompare` | rts/ExternalAI/AILibraryManager.cpp:486-502 | in 32-bit arithmetic without overflow, the result is the lexicographic order of the zero-padded parts |
| `Versions.SplitJoin` | rts/System/FileSystem/SimpleParser.cpp:113-132 | splitting at dots undoes joining, for non-empty parts without dots |
| `Versions.SplitAtDot` | rts/System/FileSystem/SimpleParser.cpp:113-132 | splitting at any dot splits either side and puts the pieces together, however many dots there are |
| `Versions.FirstPartDecides` | rts/ExternalAI/AIInterfaceKey.cpp:35-42 | different first parts decide string order, since a dot sorts before every character of a part |
| `Versions.PartsMislead` | rts/ExternalAI/AIInterfaceKey.cpp:35-42 | string order contradicts the order of two different parts exactly if one continues the other with a character below the dot that ends it |
| `Versions.MisleadsIff` | rts/ExternalAI/AIInterfaceKey.cpp:35-42 | for versions of non-empty parts, string order contradicts version order exactly if that happens at the first difference, or one ends where the other goes on below zero |
| `Versions.StringOrderRefines` | rts/ExternalAI/AIInterfaceKey.cpp:35-42 | for versions of non-empty alphanumeric parts, string order refines version order |
| `KeySelection.FindFittingInterfaceKey` | rts/ExternalAI/AILibraryManager.cpp:385-407 | an equal version if there is one, else the first greater one in set order, else the unspecified key; the chosen version is at least the wanted one, and equal to it if any fitting one is |
| `KeySelection.KeyLessIsTotalOrder` | rts/ExternalAI/AIInterfaceKey.cpp:35-42 | set order is a strict total order, by name and then by version string |
| `KeySelection.ChosenIsFirst` | rts/ExternalAI/AILibraryManager.cpp:385-407 | without an equal version the key chosen is the first that fits |
| `KeySelection.ChosenIsLeastIff` | rts/ExternalAI/AILibraryManager.h:145-161 | the key chosen is the least of all that fit exactly if an equal version exists or the first that fits misleads against none of them |
| `KeySelection.ChosenIsLeast` | rts/ExternalAI/AILibraryManager.h:145-161 | which is so whenever the fitting versions are made of numbers and letters |
| `KeySelection.ChosenBeforeNewer` | rts/ExternalAI/AILibraryManager.cpp:385-407 | a fitting key older than the chosen one can only come behind it in the set |
| `KeySelection.SetOrderCanMislead` | rts/ExternalAI/AILibraryManager.cpp:385-407 | an input where it is not: 1-5 is chosen for 0 although 1.0 is nearer |
| `KeySelection.FittingSkirmishAIKeys` | rts/ExternalAI/AILibraryManager.cpp:268-290 | exactly the keys with the wanted name, and version if given, in set order |
| `KeySelection.ResolveSkirmishAIKey` | rts/ExternalAI/AILibraryManager.cpp:429-448 | a fitting key that no fitting key is newer than, or the unspecified key exactly if none fits |
| `KeySelection.Newest` | rts/ExternalAI/AILibraryManager.cpp:436-445 | the loop's index is that of a maximum |
| `AILibraries.InStepKept` | rts/ExternalAI/AIInterfaceLibrary.cpp:183-230 | loading with the first user and unloading with the last keeps the libraries held equal to the keys counted and the foreign calls alternating per key |
| `AILibraries.AIInterfaceLibrary.GetLoadCount` | rts/ExternalAI/AIInterfaceLibrary.cpp:154-161 | the sum of all counts, zero exactly if nothing is counted |
| `AILibraries.AIInterfaceLibrary.FetchSkirmishAILibrary` | rts/ExternalAI/AIInterfaceLibrary.cpp:183-213 | one user more, of this key only; the library is loaded exactly if it had no user; a library is held afterwards even if loading failed |
| `AILibraries.AIInterfaceLibrary.ReleaseSkirmishAILibrary` | rts/ExternalAI/AIInterfaceLibrary.cpp:215-230 | one user less unless there was none; the library is unloaded exactly with its last user |
| `AILibraries.NoneCounted` | rts/ExternalAI/AIInterfaceLibrary.cpp:154-161 | a load count of zero means that no AI of the interface has a user |
| `AILibraries.FetchSucceeds` | rts/ExternalAI/AILibraryManager.cpp:294-313 | a fetch that reaches a running interface counts exactly one user more of that AI over all interfaces, and leaves no interface idle |
| `AILibraries.FetchFails` | rts/ExternalAI/AILibraryManager.cpp:294-313 | a fetch that fails changes no count, and can never succeed later |
| `AILibraries.ReleaseSucceeds` | rts/ExternalAI/AILibraryManager.cpp:315-326 | a release counts one user less of that AI only; its interface stays loaded exactly while any AI of it has users |
| `AILibraries.ReleaseOfDead` | rts/ExternalAI/AILibraryManager.cpp:315-326 | a release after a failed fetch changes no count |
| `AILibraries.AILibraryManager.FetchInterface` | rts/ExternalAI/AILibraryManager.cpp:345-367 | loads a known interface at most once, and remembers one that failed |
| `AILibraries.AILibraryManager.FetchSkirmishAILibrary` | rts/ExternalAI/AILibraryManager.cpp:294-313 | over all interfaces: one user more of this AI, or nothing changed and the AI is dead for good |
| `AILibraries.AILibraryManager.ReleaseInterface` | rts/ExternalAI/AILibraryManager.cpp:369-382 | erases the interface exactly if its load count is zero |
| `AILibraries.AILibraryManager.ReleaseSkirmishAILibrary` | rts/ExternalAI/AILibraryManager.cpp:315-326 | one user less of this AI, no other count changed; the interface is erased exactly when that brings its sum to zero |
| `AILibraries.NothingLeft` | rts/ExternalAI/SkirmishAIWrapper.cpp:147-175 | without wrappers, no AI has users and no interface is left running |
| `AILibraries.Session.InitLibrary` | rts/ExternalAI/SkirmishAIWrapper.cpp:120-138 | fetching for a wrapper keeps users equal to wrappers that got a library |
| `AILibraries.Session.Kill` | rts/ExternalAI/SkirmishAIWrapper.cpp:147-175 | PreInit to Kill nets to zero also when the fetch had failed; after the last Kill no interface runs |
| `AILibraries.Session.IsLoadSupported` | rts/ExternalAI/SkirmishAIWrapper.cpp:108-118 | fetching and releasing for a question changes no user count |
| `AILifecycle.ProtocolInOrder` | rts/ExternalAI/SkirmishAIWrapper.cpp:177-203 | in a trace in order, nothing is delivered after RELEASE or after a failed INIT, only RELEASE once events are blocked, and INIT at most once |
| `AILifecycle.ProtocolCauses` | rts/ExternalAI/SkirmishAIWrapper.cpp:120-203 | RELEASE follows a handled INIT, INIT and the library's release follow a successful library init, and other events follow INIT unless some came early |
| `AILifecycle.FlaggedKeeps` | rts/ExternalAI/SkirmishAIHandler.cpp:258-270 | setting a kill flag at any time leaves every AI in order |
| `AILifecycle.ToldKeeps` | rts/ExternalAI/SkirmishAIWrapper.cpp:457-465 | an event goes out only with a library to handle it, and leaves every AI in order |
| `AILifecycle.CalledKeeps` | rts/ExternalAI/SkirmishAIWrapper.cpp:457-465 | whatever tree of kills and events an AI's code sets off while it is called, every AI stays in order and only traces and blocking change |
| `AILifecycle.CallbackIs` | rts/ExternalAI/SkirmishAIWrapper.cpp:457-465 | what each further callback does: asking to die sets the kill flag and blocks the AI; an event for an active AI that is not blocked is noted by it and its own callbacks follow; any other event does nothing |
| `AILifecycle.CalledTells` | rts/ExternalAI/SkirmishAIWrapper.cpp:457-465 | whatever tree of callbacks runs, each AI is sent exactly as many events as the tree has for it by the blocking on the way, and exactly the AIs said to be are blocked after it |
| `AILifecycle.EarlyIffReached` | rts/ExternalAI/EngineOutHandler.cpp:539-544 | an AI that is still loading has been sent an event exactly if one reached it, by the blocking of all AIs on the way |
| `AILifecycle.EarlyEvent` | rts/ExternalAI/EngineOutHandler.cpp:539-544 | an init function that causes an event for its own AI: INIT is then not the first event |
| `AILifecycle.LibraryMissingKeeps` | rts/ExternalAI/SkirmishAIWrapper.cpp:126-135 | an AI without library is blocked from the start, and in order |
| `AILifecycle.DyingTwice` | rts/ExternalAI/SkirmishAIHandler.cpp:258-270 | an AI that asks to die during its library's init and then fails it gets two DIEING messages |
| `AILifecycle.LibraryStartedKeeps` | rts/ExternalAI/SkirmishAIWrapper.cpp:120-138 | after library init, found or not, successful or not, the new AI is in order, and due its INIT exactly if it has no kill flag |
| `AILifecycle.QuietStart` | rts/ExternalAI/SkirmishAIWrapper.cpp:120-138 | the notes of an AI whose library init calls nothing back: blocked twice without library or after a failed init, once after a kill flag set before, and its kill flag |
| `AILifecycle.InitSentKeeps` | rts/ExternalAI/SkirmishAIWrapper.cpp:190-203 | after INIT the AI is running or refused, by its answer, and all are in order |
| `AILifecycle.ReleasedKeeps` | rts/ExternalAI/SkirmishAIWrapper.cpp:177-187 | RELEASE goes to an AI that had handled INIT, and disturbs no other |
| `AILifecycle.LibraryReleasedKeeps` | rts/ExternalAI/SkirmishAIWrapper.cpp:152-158 | the library's release function runs exactly if its init had succeeded |
| `AIRegistry.ActiveIsDisjointUnion` | rts/ExternalAI/EngineOutHandler.h:109-119 | the active list is the disjoint union of the team lists |
| `AIRegistry.AddToRegistry` | rts/ExternalAI/EngineOutHandler.cpp:536-542 | creating an inactive AI keeps the registries in step |
| `AIRegistry.RemoveFromRegistry` | rts/ExternalAI/EngineOutHandler.cpp:569-584 | so does destroying an active one |
| `AIRegistry.FlagOnceIff` | rts/ExternalAI/SkirmishAIHandler.cpp:258-270 | setting a kill flag keeps one message for each flagged AI, and each for an active one, exactly if the AI is active and has no kill flag yet, or is a Lua AI |
| `AIRegistry.CalmKeepsFlags` | rts/ExternalAI/SSkirmishAICallbackImpl.cpp:1329-1343 | AI code that never asks to die sends no message, however events nest |
| `AIRegistry.CalmStartFlagsOnce` | rts/ExternalAI/SkirmishAIWrapper.cpp:120-138 | with such code, creation sends one message at most |
| `AIRegistry.CreatedOnce` | rts/ExternalAI/EngineOutHandler.cpp:523-558 | an AI created without a kill flag waits for one message at most |
| `AIRegistry.HandledOnce` | rts/Net/NetCommands.cpp:1348-1351 | taking off the first message and deactivating its AI keeps one message for each flagged AI |
| `AIRegistry.KilledKeeps` | rts/ExternalAI/SkirmishAIWrapper.cpp:147-175 | the end of an AI: RELEASE if it had handled INIT, library released if it was started, other AIs at the stage they were |
| `AIRegistry.QuietKilled` | rts/ExternalAI/SkirmishAIWrapper.cpp:147-187 | the end of an AI that calls nothing back, note by note: RELEASE exactly if it had handled INIT, then the release of its library exactly if that was started |
| `AIRegistry.SentKeeps` | rts/ExternalAI/EngineOutHandler.cpp:85-88 | an event sent to any of the active AIs leaves all in order and the registries alone |
| `AIRegistry.SentSteps` | rts/ExternalAI/EngineOutHandler.cpp:85-132 | turn by turn through the list of active AIs: one in question that is not blocked at its turn notes the event once and its callbacks follow, any other turn changes nothing |
| `AIRegistry.QuietSent` | rts/ExternalAI/EngineOutHandler.cpp:85-132 | if nothing is called back, each AI in question that is not blocked gets the event exactly once, and nothing else happens to any AI |
| `AIRegistry.SentOneMore` | rts/ExternalAI/EngineOutHandler.cpp:549-555 | of several events for one AI, each further one is noted unless the AI is blocked by then, and its callbacks follow |
| `AIRegistry.QuietSentAll` | rts/ExternalAI/EngineOutHandler.cpp:549-555 | if it calls nothing back and is not blocked, it notes each of them once, and nothing else happens |
| `AIRegistry.EngineOutHandler.SetLocalKillFlag` | rts/ExternalAI/SkirmishAIHandler.cpp:258-270 | sets the flag, and blocks the events of an AI that is not Lua |
| `AIRegistry.EngineOutHandler.RunAI` | rts/ExternalAI/SSkirmishAICallbackImpl.cpp:1329-1343 | callbacks made by AI code have the effect of their script, nested to any depth |
| `AIRegistry.EngineOutHandler.HandleEvent` | rts/ExternalAI/SkirmishAIWrapper.cpp:457-465 | notes the event once and runs the AI's callbacks unless it is blocked, RELEASE in any case; the library is never null where it is called |
| `AIRegistry.EngineOutHandler.InitLibrary` | rts/ExternalAI/SkirmishAIWrapper.cpp:120-138 | succeeds exactly if no kill flag is set afterwards; otherwise the AI is blocked |
| `AIRegistry.EngineOutHandler.SendInitEvent` | rts/ExternalAI/SkirmishAIWrapper.cpp:190-203 | INIT is delivered once; a non-zero answer sets the kill flag and blocks |
| `AIRegistry.EngineOutHandler.CreateSkirmishAI` | rts/ExternalAI/EngineOutHandler.cpp:523-558 | registers the AI, keeps every invariant; INIT was the first event exactly if the library's init function had none reach the AI; with no kill flag it is running; it waits for one DIEING message at most if its code does not ask to die; and note by note what an AI that calls nothing back goes through, in each of the five ways creation can end |
| `AIRegistry.EngineOutHandler.PreInit` | rts/ExternalAI/SkirmishAIWrapper.cpp:59-95 | the wrapper starts afresh and is registered, before any of the AI's code runs |
| `AIRegistry.EngineOutHandler.InitWrapper` | rts/ExternalAI/SkirmishAIWrapper.cpp:140-145 | library init, then INIT only if that succeeded |
| `AIRegistry.EngineOutHandler.SendFirstEvents` | rts/ExternalAI/EngineOutHandler.cpp:549-555 | the Update event unless it is before the game, then all unit events unless a game was loaded, in order; they leave the AI running |
| `AIRegistry.EngineOutHandler.SendTo` | rts/ExternalAI/SkirmishAIWrapper.cpp:457-465 | one event for one AI has the specified effect and keeps every invariant |
| `AIRegistry.EngineOutHandler.SendEvent` | rts/ExternalAI/EngineOutHandler.cpp:85-132 | in list order, every active AI in question that is not blocked at its turn gets the event exactly once and its callbacks follow, whatever they do; no other turn changes anything; without callbacks exactly those AIs note it, once |
| `AIRegistry.EngineOutHandler.KillWrapper` | rts/ExternalAI/SkirmishAIWrapper.cpp:147-175 | release event, library release and reset, in this order; no null library is followed |
| `AIRegistry.EngineOutHandler.DestroySkirmishAI` | rts/ExternalAI/EngineOutHandler.cpp:569-589 | the AI leaves both registries before its code runs a last time, and all others stay as they were; note by note what an AI that calls nothing back goes through |
| `AIRegistry.EngineOutHandler.HandleDieing` | rts/Net/NetCommands.cpp:1348-1351 | a DIEING message finds its AI active and destroys it, a Lua AI is left alone; it stays so for the messages to come if the AI does not ask to die while it is released |
| `AIRegistry.EngineOutHandler.Kill` | rts/ExternalAI/EngineOutHandler.h:35-44 | the shutdown loop terminates with every list empty, each AI released exactly if it had handled INIT, each started library released |
| `AIRegistry.EngineOutHandler.KillLater` | rts/ExternalAI/SkirmishAIHandler.cpp:258-270 | a kill flag set from outside keeps every invariant, and one message for each flagged AI exactly under the condition of FlagOnceIff |
| `AIRegistry.EngineOutHandler.Reassign` | rts/ExternalAI/SkirmishAIHandler.cpp:182-213 | giving an inactive id to another AI keeps every invariant |
| `AIEvents.AppearedReaches` | rts/ExternalAI/EngineOutHandler.cpp:189-251 | creation and completion reach exactly the unit's team, and as an enemy event the AIs of ally teams not allied with it that cheat or detect it; no AI is told twice |
| `AIEvents.DestroyedReaches` | rts/ExternalAI/EngineOutHandler.cpp:334-375 | the same for destruction; the own team learns of an attacker it detects or if it cheats, enemies of one they are allied with |
| `AIEvents.DamagedReaches` | rts/ExternalAI/EngineOutHandler.cpp:378-432 | damage reaches exactly the unit's team, which learns of an attacker it detects or if it cheats, and the attacker's team as an enemy event if not allied and the unit is noticed; no AI is told twice |
| `AIEvents.TransferredReaches` | rts/Sim/Units/Unit.cpp:1728-1793 | a change of team informs exactly the old team's AIs of the loss and, of the gain, the new team's and those allied with the new but not the old |
| `AIEvents.GivenToItself` | rts/ExternalAI/EngineOutHandler.cpp:263-332 | a unit given to its own team: an AI of that team gets both events |
| `AIEvents.TransferExclusiveIff` | rts/ExternalAI/EngineOutHandler.cpp:263-332 | no AI gets both events, exactly unless the unit is given to its own team and that team has an AI |
| `AIEvents.AlliesHearOfLossIff` | rts/ExternalAI/EngineOutHandler.cpp:316-319 | the comment's promise to inform the old team's allies holds exactly if no other team's AI is allied with the old and not with the new team |
| `AIEvents.AllyNotTold` | rts/ExternalAI/EngineOutHandler.cpp:316-319 | a roster for which it fails: an ally of the old team only hears of the transfer in no event |
| `AIEvents.UnitEventRouter.OnUnitCreated` | rts/ExternalAI/EngineOutHandler.cpp:229-240 | the macros' loops deliver as specified, enemies first |
| `AIEvents.UnitEventRouter.OnUnitFinished` | rts/ExternalAI/EngineOutHandler.cpp:242-251 | the same for completion |
| `AIEvents.UnitEventRouter.OnUnitDestroyed` | rts/ExternalAI/EngineOutHandler.cpp:334-375 | both loops deliver as specified |
| `AIEvents.UnitEventRouter.OnUnitDamaged` | rts/ExternalAI/EngineOutHandler.cpp:378-432 | the loops with their early returns deliver as specified |
| `AIEvents.UnitEventRouter.OnUnitCaptured` | rts/ExternalAI/EngineOutHandler.cpp:298-332 | the loop delivers to exactly the AIs specified |
| `AIEvents.UnitEventRouter.OnUnitGiven` | rts/ExternalAI/EngineOutHandler.cpp:263-296 | the loop delivers to exactly the AIs specified |
| `AIEvents.UnitEventRouter.ChangeTeam` | rts/Sim/Units/Unit.cpp:1728-1793 | UnitCaptured goes out before the unit changes its ally team, UnitGiven after |
| `AIInstances.IndexOfStep` | rts/ExternalAI/SkirmishAIHandler.cpp:182-213 | writing one slot changes the index of valid slots in that slot only |
| `AIInstances.ReloadKeepsIndex` | rts/ExternalAI/SkirmishAIHandler.cpp:55-67 | the slots after loading have the same index, and loading twice changes nothing |
| `AIInstances.ScanFinds` | rts/ExternalAI/SkirmishAIHandler.cpp:141-163 | one ascending pass finds exactly the valid slots wanted |
| `AIInstances.ValidSlotsBound` | rts/ExternalAI/SkirmishAIHandler.cpp:182-197 | no more AIs than slots, so the eight-bit count does not wrap |
| `AIInstances.CollectedAll` | rts/ExternalAI/SkirmishAIHandler.cpp:141-163 | a sorted list of the wanted keys of the map is the scan of the slots |
| `AIInstances.SkirmishAIHandler.CompleteSkirmishAI` | rts/ExternalAI/SkirmishAIHandler.cpp:345-356 | touches the Lua mark of one valid slot, once the game is initialized |
| `AIInstances.SkirmishAIHandler.AddSkirmishAI` | rts/ExternalAI/SkirmishAIHandler.cpp:182-197 | fails exactly for a slot in use; map and eight-bit count stay those of the slots, without wrap-around |
| `AIInstances.SkirmishAIHandler.RemoveSkirmishAI` | rts/ExternalAI/SkirmishAIHandler.cpp:199-213 | fails exactly for an unused slot; map and count stay those of the slots |
| `AIInstances.SkirmishAIHandler.ResetState` | rts/ExternalAI/SkirmishAIHandler.cpp:69-83 | all slots unused, index empty |
| `AIInstances.SkirmishAIHandler.LoadPreGame` | rts/ExternalAI/SkirmishAIHandler.cpp:93-117 | completes every valid slot and no other |
| `AIInstances.SkirmishAIHandler.PostLoad` | rts/ExternalAI/SkirmishAIHandler.cpp:55-67 | rebuilds map and count from the slots alone, to what they were when saved: each named slot with its Lua mark renewed, all others unused; kill flags are reset |
| `AIInstances.SkirmishAIHandler.GetSkirmishAIsInTeam` | rts/ExternalAI/SkirmishAIHandler.cpp:141-163 | walking the map in any order and sorting gives the ascending linear scan of the slots: exactly the named ones of the team, and of the host player if one is given |
| `CommandCodec.FilledKeepsId` | rts/ExternalAI/AISCommands.cpp:9-241 | the struct filled for a command stands, by the first table, for the id the second table took the topic from |
| `CommandCodec.FilledKeepsTopic` | rts/ExternalAI/SSkirmishAICallbackImpl.cpp:305-639 | the struct filled is the one of the topic |
| `CommandCodec.PushedIsNormal` | rts/ExternalAI/AISCommands.cpp:463-767 | through its struct a command gets its parameters in the normal form of its topic's shape |
| `CommandCodec.FirstNeverMatters` | rts/ExternalAI/AISCommands.cpp:373-385 | what is read as first parameter can change the topic of reclaim commands only, and no shape |
| `CommandCodec.TopicMisreadIff` | rts/Sim/Units/CommandAI/Command.h:245-262 | the topic is misread exactly for features to be reclaimed, given by one or two parameters |
| `CommandCodec.ReclaimMisread` | rts/Sim/Units/CommandAI/Command.h:245-262 | the command that reclaims the first feature is taken for one that reclaims a unit, and comes out the same |
| `CommandCodec.NumberMatters` | rts/ExternalAI/AISCommands.cpp:244-461 | the number of parameters matters to the topic only by whether the command is for one thing or an area |
| `CommandCodec.NormalIsFixed` | rts/ExternalAI/SSkirmishAICallbackImpl.cpp:305-639 | the normal form is fixed by a second pass, for every shape |
| `CommandCodec.WellFormedIs` | rts/ExternalAI/SSkirmishAICallbackImpl.cpp:305-639 | by the command's number, how many parameters it needs |
| `CommandCodec.ExecutedNumbers` | rts/ExternalAI/SSkirmishAICallbackImpl.cpp:305-639 | by number, the commands left without parameters, with one truncated, or with 0 or 1 |
| `CommandCodec.ExecutedPlaces` | rts/ExternalAI/SSkirmishAICallbackImpl.cpp:305-639 | by number, the commands left with a position, and with which fourth parameter; build orders may do without either |
| `CommandCodec.ExecutedTargets` | rts/ExternalAI/SSkirmishAICallbackImpl.cpp:305-639 | by number, the commands for one thing or an area as the number of parameters tells; all other commands keep their parameters |
| `CommandCodec.NormalKeepsTopic` | rts/ExternalAI/AISCommands.cpp:244-461 | the normal form of a well-formed command has the command's topic |
| `CommandCodec.ExecutedIsNormal` | rts/ExternalAI/SSkirmishAICallbackImpl.cpp:291-639 | execution preserves id, options, time-out and topic, and is idempotent on the whole command |
| `CommandCodec.Command.PushPos` | rts/Sim/Units/CommandAI/Command.h:389-395 | appends the three coordinates |
| `CommandCodec.Command.PushIds` | rts/ExternalAI/AISCommands.cpp:603-605 | appends all ids in order |
| `CommandCodec.Command.NewPlaceCommand` | rts/ExternalAI/AISCommands.cpp:463-767 | the cases that push a position give the id of the first table and position, then radius or unit |
| `CommandCodec.Command.NewCommand` | rts/ExternalAI/AISCommands.cpp:463-767 | false exactly for what is no unit command; otherwise the command has the id of the first table, no AI id and tag, and the struct's options, time-out and parameters |
| `CommandCodec.Command.HandleCommand` | rts/ExternalAI/SSkirmishAICallbackImpl.cpp:1143-1160 | a known command goes to the unit if one is given and to the group if not, marked with the AI's command id; others are refused |
| `CommandCodec.ExecuteCommand` | rts/ExternalAI/SSkirmishAICallbackImpl.cpp:291-639 | a command that has what its topic needs is given to the unit or group in normal form, whatever the misread first parameter; loading no units is refused |
| `CommandCodec.TruncateAll` | rts/ExternalAI/SSkirmishAICallbackImpl.cpp:448-450 | the ids are the parameters truncated, one by one |

## Left out

- Floating-point rounding: floats are `real`, and ids and counts carried in floats are exact.
- JobDispatcher.Dispatcher.Update: callbacks that enqueue jobs themselves, and negative frequencies, with which the loop does not end, are not modelled.
- ExplosionDamage.GameHelper.DamageUnit: impulses and the geometry of the distance are not modelled; the distance of each object is any number >= 0.
- ExplosionDamage.GameHelper.DamageObjectsInExplosionRadius: the query may find any units and features, each once; waves must move (speed > 0), as the division in the source requires.
- ExplosionDamage.GameHelper.DoDamage: health arithmetic and armour are left out, and damage may or may not kill; Lua code may explode, damage and kill, finitely often in a frame, but creates no units while it is told of an event.
- UnitQuery.World.FindAll: that the quads cover the area is the contract of the quad field, which is not part of this model; so is wrap-around of the stamp counter after 2^31 queries.
- UnitQuery: `GetClosestUnit` with error positions, and `GenerateWeaponTargets`, whose Lua callback may restamp units.
- BuildSearch.SearchOffsetTable.ClosestBuildPos: `TestUnitBuildSquare` as a whole is an oracle; its footprint is in `BuildSnap`.
- YardMap.GetYardMap: a buffer smaller than the yard map is excluded; the source writes beyond its end there.
- KeySelection.ChosenIsLeastIff: fitting versions with empty parts, as in "1..0" or ".1", are excluded; dots that splitting skips decide the string order there.
- Versions.VersionCompare: more parts than fit an int are excluded; the source shifts out of range there, which is undefined. The closing bit trick is a plain sign in the method, and proved to be one in `SignTrickIsSign`.
- AILibraries: `ReleaseAll`, which erases from the map it iterates; what the foreign load and unload functions return beyond success or failure.
- AILifecycle: an AI wrapper is a value in the array of wrappers that the handler owns, as in the source; callbacks, timers and cheat flags of a wrapper are not modelled.
- AIRegistry.EngineOutHandler.CreateSkirmishAI: creates inactive ids only, as its callers do; the network messages about AI states are dropped. AIs are not created or destroyed from within AI code.
- AIRegistry.EngineOutHandler.DestroySkirmishAI: destroys active ids only; for others the source reads a team list at index -1. When that cannot happen is `FlagOnceIff`; messages that reload an AI are not modelled.
- AIEvents: line-of-sight, radar, seismic and weapon events, which have the same one loop; the registries are constant during one event.
- AIInstances: option defaults, statistics, library keys, AIs in creation and `GetSkirmishAIsByPlayer`, which does not sort.
- AIInstances.SkirmishAIHandler.GetSkirmishAIsInTeam: std::sort is an insertion sort here; any sort of distinct ids gives the same list.
- CommandCodec.ExecuteCommand: a raw command with fewer parameters than its topic reads is excluded; the source reads beyond its array there. The parameter pool is one sequence with the in-place parameters.
- CommandCodec.Command.HandleCommand: only the default case; other topics do not concern units.
- Rendering, input, network, files, Lua, saving and the callback getters: presentation, I/O or one-line forwards.
