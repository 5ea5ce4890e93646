# HG-Minigames framework core, modelled in Dafny

This project models the framework of the HG-Minigames server plugin in Dafny
and proves properties of the model. It covers three parts of the plugin.

- **Incremental arena build.**
  - `RegionIterator` is a restartable 3-D cursor over a box. It scans z fastest, then x, then y.
  - `ArenaBuildSubtask` walks that cursor with a per-tick budget. Only callbacks that report a real change use up the budget.
  - `ArenaBuildStates` is an ordered queue of subtasks. It advances to the next subtask when the current one reports done.
  - `ArenaBuildTask` is the older, monolithic builder. It is a four-phase state machine: blocks, clear entities, place entities, finished. It writes at most 500 blocks per tick at a fixed coordinate offset.
- **Sessions.**
  - `MinigameManager` registers minigame types and creates instances. Each new instance gets the smallest free instance number of its type. The manager also finds a player's current game and removes players everywhere.
  - `VirtualLobby` is a FIFO wait list without duplicates. It starts an instance at the minimum size and moves players from the front into it, up to the maximum.
  - `Minigame` guards membership.
  - `MinigameID` is a value.
  - `ArenaManager` and `ArenaDistributor` map identifiers to arena locations. `ArenaManager` also keeps a get-or-create cache.
- **Teams.**
  - `Team` and `TeamList` keep idempotent, duplicate-free memberships and do first-match lookups.
  - `TeamUtils.shuffleTeams` validates its arguments, then deals the players out round-robin, with optional per-team caps.

Each Java file is modelled on its own terms, and a call into another file is
modelled by what that call returns. The files do not all agree with each other.
For example, `Minigame.java` calls a `manager.addPlayer` that
`MinigameManager.java` does not define, and `VirtualLobby.java` calls a
`Minigame.getSize()` that `Minigame.java` does not define.

## Layout

- `region.dfy` (module `Region`):
  - the cursor as a value (`Cursor`, `Step`, `Steps`);
  - a linear index of box positions, through which the scan is proved exhaustive and free of repeats;
  - class `RegionIterator`.
- `subtask.dfy` (module `BuildSubtask`):
  - the budgeted loop as a function (`Drive`, `OneUpdate`) and successive calls (`Updates`);
  - class `ArenaBuildSubtask`.
- `states.dfy` (module `BuildStates`):
  - the stage queue as a value (`Progress`, `Run`);
  - class `ArenaBuildStates`.
- `buildtask.dfy` (module `BuildTask`): the world as a block map plus an entity list; class `ArenaBuildTask`.
- `seqs.dfy` (module `Seqs`): `Option`, duplicate-freedom, Java's `List.remove(Object)` (`RemoveFirst`), and the stream filter.
- `minigame_id.dfy` (module `MinigameIDs`): `MinigameID`, `isReal`, `instanceName` and its decoding.
- `arena_manager.dfy` (module `Arenas`): `getLocation` arithmetic, `Location`, `Arena`, class `ArenaManager`.
- `arena_distributor.dfy` (module `Distribution`): class `ArenaDistributor`.
- `minigame.dfy` (module `Minigames`): class `Minigame`.
- `sessions.dfy` (module `Sessions`):
  - the first-match lookups as functions;
  - classes `MinigameManager` and `VirtualLobby`. They call each other, so they share a module.
- `teams.dfy` (module `Teams`): classes `Team` and `TeamList`, plus their lookups.
- `team_utils.dfy` (module `TeamUtils`): `shuffleTeams`, its checks, and the round-robin and cap properties.

## Model

All source paths below are under `src/main/java/net/whg/minigames/framework/`,
written out in full.

| member | source | states |
|---|---|---|
| Region.RegionIterator.constructor | src/main/java/net/whg/minigames/framework/arena/RegionIterator.java:9-17 | The bounds are the constructor arguments. The cursor is at (minX, minY, minZ) and not done. |
| Region.RegionIterator.Reset | src/main/java/net/whg/minigames/framework/arena/RegionIterator.java:19-24 | The cursor returns to (minX, minY, minZ), not done. The bounds are unchanged. |
| Region.RegionIterator.Update | src/main/java/net/whg/minigames/framework/arena/RegionIterator.java:38-55 | The new cursor is one scan step from the old one: z advances, and on overflow wraps to minZ and carries into x, then into y. A y overflow sets done. A done cursor is unchanged. |
| Region.StepAdvancesIndex | src/main/java/net/whg/minigames/framework/arena/RegionIterator.java:42-52 | In a well-formed box, a step from any position but the last moves to the next position in z-then-x-then-y order. The step from (maxX, maxY, maxZ) becomes done at (minX, minY, minZ). |
| Region.StepKeepsConsistent | src/main/java/net/whg/minigames/framework/arena/RegionIterator.java:42-52 | While not done, every coordinate stays within [min, max]. When done becomes true, the position has wrapped back to the minimum corner. |
| Region.StepsWhenDone | src/main/java/net/whg/minigames/framework/arena/RegionIterator.java:39-40 | Any number of updates on a done cursor change nothing. |
| Region.ScanPosition | src/main/java/net/whg/minigames/framework/arena/RegionIterator.java:38-55 | After k < volume updates from a fresh cursor, it is not done, lies inside the box, and sits at the k-th position of the scan order. |
| Region.ScanLength | src/main/java/net/whg/minigames/framework/arena/RegionIterator.java:38-55 | A fresh cursor over a well-formed box is done after k updates iff k is at least (maxX−minX+1)(maxY−minY+1)(maxZ−minZ+1). Once done it sits at the minimum corner. |
| Region.ScanCoversBox | src/main/java/net/whg/minigames/framework/arena/RegionIterator.java:38-55 | Every coordinate of the box is visited by the scan, at the step given by its linear index. |
| Region.ScanNoRepeat | src/main/java/net/whg/minigames/framework/arena/RegionIterator.java:38-55 | No coordinate is visited twice within one scan. |
| Region.MalformedStartNotDone | src/main/java/net/whg/minigames/framework/arena/RegionIterator.java:16-24 | When max < min on some axis, a fresh cursor is not done and lies outside the box. Only a y overflow sets done. |
| BuildSubtask.DriveBudget | src/main/java/net/whg/minigames/framework/arena/ArenaBuildSubtask.java:40-44 | In one update, at most iterationsPerTick callbacks report a change. The loop ends only with the cursor done or the budget reached. |
| BuildSubtask.DriveTrace | src/main/java/net/whg/minigames/framework/arena/ArenaBuildSubtask.java:40-44 | The positions handed to the callback are exactly the successive scan positions. Each call is followed by one cursor step. The number of changes counted is at most the number of calls. |
| BuildSubtask.UpdateWhenDone | src/main/java/net/whg/minigames/framework/arena/ArenaBuildSubtask.java:40-47 | On a done cursor, update calls no callback and changes nothing. |
| BuildSubtask.DriveNoChanges | src/main/java/net/whg/minigames/framework/arena/ArenaBuildSubtask.java:40-44 | If every callback reports no change, a single update runs the cursor to the end. |
| BuildSubtask.DriveAllChanges | src/main/java/net/whg/minigames/framework/arena/ArenaBuildSubtask.java:40-44 | If every callback reports a change, an update starting at scan position i advances exactly min(budget, N − i) positions. |
| BuildSubtask.UpdatesAllChanges | src/main/java/net/whg/minigames/framework/arena/ArenaBuildSubtask.java:38-48 | If every callback reports a change, k successive updates leave the cursor min(k·budget, N) positions into the scan. |
| BuildSubtask.UpdatesWhenDone | src/main/java/net/whg/minigames/framework/arena/ArenaBuildSubtask.java:40-47 | Successive updates on a done cursor leave it unchanged. |
| BuildSubtask.UpdatesNeededAllChanges | src/main/java/net/whg/minigames/framework/arena/ArenaBuildSubtask.java:38-48 | With N positions, every callback reporting a change and budget b ≥ 1, the cursor is done after ⌈N/b⌉ updates and not after ⌈N/b⌉ − 1. |
| BuildSubtask.ArenaBuildSubtask.constructor | src/main/java/net/whg/minigames/framework/arena/ArenaBuildSubtask.java:26-30 | Stores the shared iterator, the budget and the callback. |
| BuildSubtask.ArenaBuildSubtask.Update | src/main/java/net/whg/minigames/framework/arena/ArenaBuildSubtask.java:38-48 | The iterator and world after the call are those of the budgeted loop (`OneUpdate`). The result is exactly whether the iterator is done. |
| BuildStates.AdvanceMonotone | src/main/java/net/whg/minigames/framework/arena/ArenaBuildStates.java:34-36 | One update never decreases the stage index. |
| BuildStates.RunSplit | src/main/java/net/whg/minigames/framework/arena/ArenaBuildStates.java:30-37 | m + n updates have the same effect as m updates followed by n. |
| BuildStates.RunMonotone | src/main/java/net/whg/minigames/framework/arena/ArenaBuildStates.java:34-36 | The stage index never decreases over any number of updates. |
| BuildStates.RunWhenDone | src/main/java/net/whg/minigames/framework/arena/ArenaBuildStates.java:31-32 | Updates on a done queue change nothing. |
| BuildStates.RunWithinStage | src/main/java/net/whg/minigames/framework/arena/ArenaBuildStates.java:34-36 | While stage j has not reported done, the stage index stays at j. |
| BuildStates.RunWholeStage | src/main/java/net/whg/minigames/framework/arena/ArenaBuildStates.java:34-36 | A stage that needs k calls moves the index by exactly one after exactly k updates. |
| BuildStates.StageStart | src/main/java/net/whg/minigames/framework/arena/ArenaBuildStates.java:25-37 | Stage j is first reached after exactly k0 + … + k(j−1) updates. |
| BuildStates.BeforeStage | src/main/java/net/whg/minigames/framework/arena/ArenaBuildStates.java:25-37 | Before k0 + … + k(j−1) updates, no stage at or after j has been touched, so subtask i+1 is never updated before subtask i reports done. |
| BuildStates.QueueCalls | src/main/java/net/whg/minigames/framework/arena/ArenaBuildStates.java:30-46 | If subtask i needs ki ≥ 1 calls, the queue is done after n updates iff n ≥ Σki. |
| BuildStates.UpdateAdvances | src/main/java/net/whg/minigames/framework/arena/ArenaBuildStates.java:34-36 | When every callback reports a change, one update of subtask `stage` after c of its calls matches one step of the counting model: the stage moves on exactly when the subtask reports done, and otherwise the call count becomes c + 1 and the cursor is (c+1)·budget positions into its scan. |
| BuildStates.ArenaBuildStates.constructor | src/main/java/net/whg/minigames/framework/arena/ArenaBuildStates.java:11-12 | A new queue is empty with state 0, so it is done immediately. |
| BuildStates.ArenaBuildStates.AddTask | src/main/java/net/whg/minigames/framework/arena/ArenaBuildStates.java:20-22 | Appends the subtask at the end. The state is unchanged. |
| BuildStates.ArenaBuildStates.Update | src/main/java/net/whg/minigames/framework/arena/ArenaBuildStates.java:30-37 | On a done queue, nothing changes. Otherwise only the subtask at `state` is updated, and `state` grows by one exactly when that subtask reports done. |
| BuildStates.ArenaBuildStates.TrackedUpdate | src/main/java/net/whg/minigames/framework/arena/ArenaBuildStates.java:30-37 | update() on the class follows the counting model: the new state is the stage that `Advance` gives, and while the stage is unchanged the current subtask's cursor is the model's call count times the budget positions into its scan. |
| BuildTask.HandleBlockSpec | src/main/java/net/whg/minigames/framework/arena/ArenaBuildTask.java:90-103 | handleBlock reports true iff the world block differed from the schematic block. Afterwards the world block equals the target, and no other block and no entity changes. |
| BuildTask.BlockTickPlaces | src/main/java/net/whg/minigames/framework/arena/ArenaBuildTask.java:77-84 | After a block-phase tick, every position handed to handleBlock holds its schematic block. No other world position has changed, and the entities are untouched. |
| BuildTask.BlockTickBudget | src/main/java/net/whg/minigames/framework/arena/ArenaBuildTask.java:78-84 | In one block-phase tick, at most BLOCKS_PER_TICK (500) blocks are written. The tick stops early only when the region is done. |
| BuildTask.ClearEntitiesSpec | src/main/java/net/whg/minigames/framework/arena/ArenaBuildTask.java:108-112 | clearEntities keeps exactly the entities whose x or z lies outside the offset box. An entity's y is never looked at. |
| BuildTask.GameWorld.constructor | src/main/java/net/whg/minigames/framework/arena/ArenaBuildTask.java:91-92 | The world holds the given blocks and entities. |
| BuildTask.ArenaBuildTask.constructor | src/main/java/net/whg/minigames/framework/arena/ArenaBuildTask.java:35-47 | The iterator spans the schematic's box from its start. The offset is schematicMin − origin + location on each axis. The phase is UPDATE_BLOCKS. |
| BuildTask.ArenaBuildTask.Run | src/main/java/net/whg/minigames/framework/arena/ArenaBuildTask.java:54-75 | Dispatches on the phase. Each phase's effect is stated, and the phase moves UPDATE_BLOCKS → CLEAR_ENTITIES → PLACE_ENTITIES → FINISHED one step at a time. FINISHED only cancels. Any other phase value is an error that changes nothing. |
| BuildTask.ArenaBuildTask.UpdateBlocksState | src/main/java/net/whg/minigames/framework/arena/ArenaBuildTask.java:77-88 | The iterator and world follow the budgeted loop with handleBlock. The phase advances exactly when the iterator is done. |
| BuildTask.ArenaBuildTask.HandleBlockAt | src/main/java/net/whg/minigames/framework/arena/ArenaBuildTask.java:90-103 | The world after the call and the returned flag are those of `HandleBlock` at the iterator's position. |
| BuildTask.ArenaBuildTask.ClearEntities | src/main/java/net/whg/minigames/framework/arena/ArenaBuildTask.java:105-116 | The entity list loses exactly the entities in the zone, in order. Blocks are unchanged, and the phase advances within the one call. |
| BuildTask.ArenaBuildTask.SpawnEntities | src/main/java/net/whg/minigames/framework/arena/ArenaBuildTask.java:118-132 | The copied entities are appended and the phase advances, whatever the copy produced. |
| Seqs.IndexOf | src/main/java/net/whg/minigames/framework/MinigameManager.java:97 | Java's `indexOf`: the first index holding x, or the length iff x is absent. |
| Seqs.RemoveFirstSpec | src/main/java/net/whg/minigames/framework/VirtualLobby.java:65-67 | `List.remove(Object)` drops the first occurrence and keeps the rest in order. It does nothing when x is absent. |
| Seqs.RemoveFirstNoDup | src/main/java/net/whg/minigames/framework/Minigame.java:67-75 | On a duplicate-free list, removal leaves x absent and the list duplicate-free. Other members are unaffected, and the length drops by one iff x was present. |
| Seqs.RemoveFirstIdempotent | src/main/java/net/whg/minigames/framework/MinigameManager.java:225-233 | On a duplicate-free list, removing a player twice equals removing them once. |
| Seqs.AppendNoDup | src/main/java/net/whg/minigames/framework/VirtualLobby.java:44-47 | Appending an absent element keeps a list duplicate-free. |
| Seqs.FilterMembership | src/main/java/net/whg/minigames/framework/arena/ArenaManager.java:92-94 | The stream filter keeps exactly the elements that pass the test. |
| Seqs.FilterAppend | src/main/java/net/whg/minigames/framework/arena/ArenaManager.java:92-94 | Filtering distributes over concatenation, so order is preserved. |
| Seqs.FilterNotInStep | src/main/java/net/whg/minigames/framework/VirtualLobby.java:86-88 | On a duplicate-free list, removing one more drained player from the list filtered by the earlier ones gives the list filtered by all of them. |
| Seqs.AdmitStep | src/main/java/net/whg/minigames/framework/VirtualLobby.java:85-95 | Removing the next drained player from the target and appending them when their join goes through takes the target from the filtered form for the earlier drained players to the form for all of them. |
| Seqs.RemoveFirstAppend | src/main/java/net/whg/minigames/framework/VirtualLobby.java:65-67 | `List.remove(Object)` on a concatenation removes from the first part when it holds x, and from the second part otherwise. |
| MinigameIDs.NewID | src/main/java/net/whg/minigames/framework/MinigameID.java:22-27 | The fields are the constructor arguments. The unique ID is the fresh token, independent of type and instance. |
| MinigameIDs.Digits | src/main/java/net/whg/minigames/framework/MinigameID.java:87-89 | The decimal form of a natural number is non-empty and all digits. |
| MinigameIDs.DigitsRoundTrip | src/main/java/net/whg/minigames/framework/MinigameID.java:87-89 | Parsing the decimal form of n gives n back. |
| MinigameIDs.IntToStringRoundTrip | src/main/java/net/whg/minigames/framework/MinigameID.java:87-89 | Java's decimal form of an int, sign included, parses back to the int and contains no space. |
| MinigameIDs.SplitLastSpace | src/main/java/net/whg/minigames/framework/MinigameID.java:87-89 | Splitting p + " " + t at the last space gives back p and t when t has no space. |
| MinigameIDs.InstanceNameRoundTrip | src/main/java/net/whg/minigames/framework/MinigameID.java:87-89 | instanceName is minigameType + " " + instanceID: the type and the instance number can be read back from it. |
| MinigameIDs.InstanceNameInjective | src/main/java/net/whg/minigames/framework/MinigameID.java:87-89 | Two IDs with the same instance name have the same type and instance number. |
| Arenas.LocationInjective | src/main/java/net/whg/minigames/framework/arena/ArenaManager.java:49-54 | With a non-zero distance, distinct (typeID, instanceID) pairs get distinct locations. |
| Arenas.LocationPositive | src/main/java/net/whg/minigames/framework/arena/ArenaManager.java:49-54 | With distance > 0 and non-negative IDs, x = (typeID+1)·distance and z = (instanceID+1)·distance are positive, and y = 64. |
| Arenas.Location.constructor | src/main/java/net/whg/minigames/framework/arena/ArenaManager.java:53 | A location holds the given coordinates. |
| Arenas.RegisterThenQuery | src/main/java/net/whg/minigames/framework/arena/ArenaManager.java:82-94 | After registering p, the placeholders of type t are the earlier ones of type t, followed by p if p has type t. |
| Arenas.PlaceholdersOfType | src/main/java/net/whg/minigames/framework/arena/ArenaManager.java:92-94 | getPlaceholders(t) holds exactly the registered placeholders of type t. |
| Arenas.Arena.constructor | src/main/java/net/whg/minigames/framework/arena/ArenaManager.java:70 | A new arena has the given location and ID and is not built. |
| Arenas.FindArena | src/main/java/net/whg/minigames/framework/arena/ArenaManager.java:63-67 | Returns the first cached arena with the given type and instance numbers, or None iff there is none. |
| Arenas.FindArenaAppend | src/main/java/net/whg/minigames/framework/arena/ArenaManager.java:69-73 | Caching an arena for a pair that had none makes it the answer for that pair and changes no other answer. |
| Arenas.ArenaAt | src/main/java/net/whg/minigames/framework/arena/ArenaManager.java:103-109 | Returns the first arena in list order whose location is the same object, with no earlier arena holding it, or None iff no arena has it. |
| Arenas.ArenaManager.constructor | src/main/java/net/whg/minigames/framework/arena/ArenaManager.java:23-40 | No arenas and no placeholders yet. |
| Arenas.ArenaManager.GetLocation | src/main/java/net/whg/minigames/framework/arena/ArenaManager.java:49-54 | A new location at ((typeID+1)·distance, 64, (instanceID+1)·distance). |
| Arenas.ArenaManager.GetArena | src/main/java/net/whg/minigames/framework/arena/ArenaManager.java:62-74 | Returns the cached arena for the ID's pair when there is one, with no change. Otherwise appends a new arena at getLocation and returns it. Afterwards the pair finds exactly this arena, so repeated calls return the same arena. |
| Arenas.ArenaManager.RegisterPlaceholder | src/main/java/net/whg/minigames/framework/arena/ArenaManager.java:82-84 | Appends the placeholder. |
| Arenas.ArenaManager.OnSchematicBuildFinished | src/main/java/net/whg/minigames/framework/arena/ArenaManager.java:111-121 | Sets READY only on the arena whose location is the same object. No other arena changes, and nothing happens when there is none. |
| Distribution.Arena.constructor | src/main/java/net/whg/minigames/framework/arena/ArenaDistributor.java:56 | A new arena holds its distributor, location and name. |
| Distribution.ArenaDistributor.constructor | src/main/java/net/whg/minigames/framework/arena/ArenaDistributor.java:18-32 | No placeholders yet. |
| Distribution.ArenaDistributor.GetLocation | src/main/java/net/whg/minigames/framework/arena/ArenaDistributor.java:41-46 | A new location at ((typeID+1)·distance, 64, (instanceID+1)·distance). |
| Distribution.ArenaDistributor.GetArena | src/main/java/net/whg/minigames/framework/arena/ArenaDistributor.java:54-57 | A fresh arena named after the ID's type, at a fresh location from getLocation. |
| Distribution.GetArenaTwice | src/main/java/net/whg/minigames/framework/arena/ArenaDistributor.java:54-57 | Two calls with the same ID give two different arena objects whose locations have equal coordinates: there is no caching. |
| Distribution.ArenaDistributor.GetArenaUnsupervised | src/main/java/net/whg/minigames/framework/arena/ArenaDistributor.java:67-69 | A fresh arena at exactly the given location object. |
| Distribution.ArenaDistributor.RegisterPlaceholder | src/main/java/net/whg/minigames/framework/arena/ArenaDistributor.java:77-79 | Appends the placeholder. |
| Minigames.Minigame.constructor | src/main/java/net/whg/minigames/framework/MinigameManager.java:72-73 | A new instance has its ID, arena and instanced flag, and no players. |
| Minigames.Minigame.AddPlayer | src/main/java/net/whg/minigames/framework/Minigame.java:42-58 | A member of this game is refused first, then a player the manager places in another game, then a cancelled join. Only a successful join appends the player, exactly once. The list stays duplicate-free. |
| Minigames.Minigame.RemovePlayer | src/main/java/net/whg/minigames/framework/Minigame.java:67-75 | Reports whether the player was a member. The player is removed, and nothing changes for non-members. |
| Minigames.Minigame.OnPlayerQuit | src/main/java/net/whg/minigames/framework/Minigame.java:84-86 | A server quit removes the player from the game. |
| Sessions.FactoryIndex | src/main/java/net/whg/minigames/framework/MinigameManager.java:155-162 | The index of the first factory with the name, or the length when none has it. |
| Sessions.GetMinigameFactory | src/main/java/net/whg/minigames/framework/MinigameManager.java:155-162 | The first registered factory with the name, or None iff no factory has it. |
| Sessions.TypeNumber | src/main/java/net/whg/minigames/framework/MinigameManager.java:97 | The type number (`indexOf` of the factory found by name) is the index of the first factory with that name. |
| Sessions.FactoryAppend | src/main/java/net/whg/minigames/framework/MinigameManager.java:46 | Registering another factory never changes the factory a name already finds. |
| Sessions.FindMinigame | src/main/java/net/whg/minigames/framework/MinigameManager.java:113-120 | An active instance with the given type and instance numbers, or None iff there is none. |
| Sessions.CurrentMinigame | src/main/java/net/whg/minigames/framework/MinigameManager.java:139-146 | The first active instance containing the player, or None iff none does. |
| Sessions.FindActiveMinigame | src/main/java/net/whg/minigames/framework/MinigameManager.java:210-217 | The first active instance of the named type in list order, with no earlier instance of that type, or None iff there is none. |
| Sessions.GetLobby | src/main/java/net/whg/minigames/framework/MinigameManager.java:170-177 | The first lobby in list order for the named minigame, with no earlier lobby of that name, or None iff there is none. |
| Sessions.SmallestFreeUnique | src/main/java/net/whg/minigames/framework/MinigameManager.java:98-101 | The smallest free instance number of a type is unique. |
| Sessions.AddFreePair | src/main/java/net/whg/minigames/framework/MinigameManager.java:100-103 | Adding an instance whose pair is free keeps the active (typeID, instanceID) pairs unique. |
| Sessions.EndFreesPair | src/main/java/net/whg/minigames/framework/MinigameManager.java:127-130 | Ending an instance frees its pair and keeps the pairs unique. |
| Sessions.ReuseAfterEnd | src/main/java/net/whg/minigames/framework/MinigameManager.java:98-101 | After an instance ends, its number is the smallest free one again when every lower number is still in use, so the next instance of that type reuses it. |
| Sessions.CurrentIsOnly | src/main/java/net/whg/minigames/framework/MinigameManager.java:139-146 | While no player is in two games, the game found for a player is the only one containing them. |
| Sessions.AddEmptyGame | src/main/java/net/whg/minigames/framework/MinigameManager.java:72-74 | Adding a new instance with no players keeps the active list duplicate-free and every player in at most one game. |
| Sessions.MinigameManager.constructor | src/main/java/net/whg/minigames/framework/MinigameManager.java:22-36 | No types, instances or lobbies, and a fresh arena manager. |
| Sessions.MinigameManager.GenerateID | src/main/java/net/whg/minigames/framework/MinigameManager.java:96-104 | The type number is the registration index of the named factory, or −1 without one. The instance number is the smallest non-negative number no active instance of that type uses. |
| Sessions.MinigameManager.InitializeMinigame | src/main/java/net/whg/minigames/framework/MinigameManager.java:64-88 | An unregistered name returns None and changes nothing. Otherwise a new empty instance with a fresh smallest-free ID is appended to the active list, whatever the arena build does. |
| Sessions.MinigameManager.EndMinigame | src/main/java/net/whg/minigames/framework/MinigameManager.java:127-130 | The instance is removed from the active list. |
| Sessions.MinigameManager.RegisterMinigameType | src/main/java/net/whg/minigames/framework/MinigameManager.java:45-55 | Appends the factory. An instanced factory adds one empty lobby and no instance. Any other factory adds exactly one instance of its type and no lobby. |
| Sessions.MinigameManager.RemoveFromAllMinigames | src/main/java/net/whg/minigames/framework/MinigameManager.java:225-233 | Afterwards the player is in no active instance and no lobby. Every other member stays. |
| Sessions.MinigameManager.LeaveAllLobbies | src/main/java/net/whg/minigames/framework/MinigameManager.java:196-197 | The player is removed from every lobby. |
| Sessions.MinigameManager.RemoveOne | src/main/java/net/whg/minigames/framework/MinigameManager.java:227 | Removing the player from one instance keeps the manager's invariant. |
| Sessions.RemoveFromAllTwice | src/main/java/net/whg/minigames/framework/MinigameManager.java:225-233 | Calling removeFromAllMinigames twice has the same effect as calling it once. |
| Sessions.MinigameManager.AddToLobby | src/main/java/net/whg/minigames/framework/MinigameManager.java:186-200 | An unknown lobby is an error before any change. A cancelled event changes nothing. Otherwise the player leaves every other lobby and joins the target lobby at its end, and an instance starts exactly when that reaches the minimum. Without a start no game changes. With one, the new instance is the only addition to the active list, and it is of the named minigame, with the type number found by name, the smallest free instance number and the fresh token. The lobby is drained from the front, and the instance holds exactly the drained players whose join went through, in order, within the maximum. |
| Sessions.MinigameManager.JoinLobby | src/main/java/net/whg/minigames/framework/MinigameManager.java:196-199 | The player leaves every lobby and joins the target, with the same outcome as AddToLobby's uncancelled case, stated for the target lobby itself. |
| Sessions.MinigameManager.MovePlayer | src/main/java/net/whg/minigames/framework/VirtualLobby.java:86-95 | The player leaves their current game before the join: every other active instance loses exactly the player. The target keeps its other members in order and gains the player at its end unless the join is cancelled. An inactive target that already holds the player is unchanged. |
| Sessions.MinigameManager.LeaveCurrent | src/main/java/net/whg/minigames/framework/VirtualLobby.java:86-88 | Every active instance loses exactly its occurrence of the player, so afterwards the player is in no active instance. |
| Sessions.MinigameManager.JoinFree | src/main/java/net/whg/minigames/framework/VirtualLobby.java:90-95 | With the player in no active instance, the join appends the player to the instance unless they are already a member or the event is cancelled. |
| Sessions.VirtualLobby.constructor | src/main/java/net/whg/minigames/framework/VirtualLobby.java:31-35 | An empty lobby for the name, whose factory is the one the manager finds by that name. |
| Sessions.VirtualLobby.AddPlayerToLobby | src/main/java/net/whg/minigames/framework/VirtualLobby.java:43-58 | A queued player is a no-op. A new player is appended at the end. An instance starts exactly when the size reaches the factory's minimum. Then the new instance is the only addition to the active list, and it is of this lobby's minigame, with the type number found by name, the smallest free instance number and the fresh token. The drained players are the lobby's front in order, the instance holds exactly the drained players whose join went through, and every earlier game loses exactly the drained players. |
| Sessions.VirtualLobby.RemovePlayerFromLobby | src/main/java/net/whg/minigames/framework/VirtualLobby.java:65-67 | Removes the player, and does nothing when they are absent. The lobby stays duplicate-free. |
| Sessions.VirtualLobby.OnPlayerQuit | src/main/java/net/whg/minigames/framework/VirtualLobby.java:115-117 | A server quit removes the player from the lobby. |
| Sessions.VirtualLobby.PopulateInstance | src/main/java/net/whg/minigames/framework/VirtualLobby.java:83-97 | Players are drained from the front, in order, and the rest keep their order. Afterwards the lobby is empty or the instance has reached the maximum, and a size within the maximum stays within it. An active instance keeps its undrained members in order, followed by the drained players whose join went through. Every other game keeps exactly its undrained members. |
| Sessions.VirtualLobby.DrainLobby | src/main/java/net/whg/minigames/framework/VirtualLobby.java:84-96 | The while loop: the drained players are the lobby's front in order, the loop stops with the lobby empty or the instance at the maximum, and every game's players are its starting ones after the drain so far. |
| Sessions.VirtualLobby.AdmitNext | src/main/java/net/whg/minigames/framework/VirtualLobby.java:85-95 | One pass: the head leaves the lobby, the instance grows by at most one, and every game's players are its starting ones after the drain extended by that player. |
| Sessions.VirtualLobby.PopInto | src/main/java/net/whg/minigames/framework/VirtualLobby.java:85-95 | Takes the head of the lobby. Every other active game loses exactly that player. The instance keeps its other members in order and gains the player at its end unless the join is cancelled. An inactive instance that already holds the player is unchanged. |
| Teams.Team.constructor | src/main/java/net/whg/minigames/framework/teams/Team.java:22-24 | A new team has no players, and its display name is its name. |
| Teams.Team.AddPlayer | src/main/java/net/whg/minigames/framework/teams/Team.java:31-41 | Idempotent: the player is appended only if absent, and the result says whether they were. The team stays duplicate-free, and the display name is unchanged. |
| Teams.Team.RemovePlayer | src/main/java/net/whg/minigames/framework/teams/Team.java:48-58 | A non-member is a no-op, and the result says whether the player was a member. Afterwards the player is absent. |
| Teams.Team.SetDisplayName | src/main/java/net/whg/minigames/framework/teams/Team.java:83-85 | Only the display name changes. |
| Teams.TeamOf | src/main/java/net/whg/minigames/framework/teams/TeamList.java:54-61 | The first team in list order containing the player, with no earlier team containing them, or None iff no team does. |
| Teams.TeamsOfSpec | src/main/java/net/whg/minigames/framework/teams/TeamList.java:54-79 | getTeams(player) is exactly the teams containing the player, in list order. getTeam(player) is its head, or None when it is empty. |
| Teams.TeamsOfOrder | src/main/java/net/whg/minigames/framework/teams/TeamList.java:70-79 | getTeams(player) keeps list order: its k-th entry is the team at the k-th list position whose team contains the player. |
| Teams.TeamNamed | src/main/java/net/whg/minigames/framework/teams/TeamList.java:96-103 | The first team with the name, with no earlier team of that name, or None iff there is none. |
| Teams.TeamList.constructor | src/main/java/net/whg/minigames/framework/teams/TeamList.java:16 | A new list holds no teams. |
| Teams.TeamList.CreateTeam | src/main/java/net/whg/minigames/framework/teams/TeamList.java:24-32 | A team is added at most once, so the list stays duplicate-free. |
| Teams.TeamList.Dispose | src/main/java/net/whg/minigames/framework/teams/TeamList.java:38-43 | The list is left empty. |
| TeamUtils.CheckArguments | src/main/java/net/whg/minigames/framework/teams/TeamUtils.java:45-62 | When all checks pass, there are players and teams. The checks run in source order: empty players, empty teams, a cap ≤ 0, a map size mismatch, a key that is not a team, capacity below the player count. |
| TeamUtils.Check | src/main/java/net/whg/minigames/framework/teams/TeamUtils.java:45-62 | The checks in code give exactly the error `CheckArguments` names. |
| TeamUtils.SumValues | src/main/java/net/whg/minigames/framework/teams/TeamUtils.java:61 | The stream sum is the sum of the map's values. |
| TeamUtils.CheckedCaps | src/main/java/net/whg/minigames/framework/teams/TeamUtils.java:51-62 | Once the checks pass, the cap keys are exactly the teams, the team list is duplicate-free, every cap is positive and the total capacity covers the players. |
| TeamUtils.CapacityLeft | src/main/java/net/whg/minigames/framework/teams/TeamUtils.java:80-83 | While fewer players have been placed than the total capacity, some team is below its cap, so the inner search terminates. |
| TeamUtils.NextFree | src/main/java/net/whg/minigames/framework/teams/TeamUtils.java:80-83 | The do-while picks teamIndex without caps. With caps it picks the first team, cyclically from teamIndex, that is below its cap, and every team it skips is full. The next index is one past the chosen team, modulo the team count. |
| TeamUtils.ShuffleTeams | src/main/java/net/whg/minigames/framework/teams/TeamUtils.java:43-88 | Each failed check is reported as its error, with no change. Otherwise every player of the shuffled copy, taken from its end, joins the team its placement names. Without caps the teams fill round-robin from index 0. With caps no team receives more than its cap. Earlier memberships are kept, every new member of a team was dealt to that team, and display names do not change. |
| TeamUtils.Distribute | src/main/java/net/whg/minigames/framework/teams/TeamUtils.java:71-87 | The distribution loop: the same placement, count and membership guarantees as ShuffleTeams, once the checks have passed. |
| TeamUtils.Deal | src/main/java/net/whg/minigames/framework/teams/TeamUtils.java:76-86 | One iteration: the player taken from the end goes to the team NextFree picks. The per-team counts, the round-robin and cap bookkeeping, and the membership guarantees carry over to one more placement. |
| TeamUtils.PlaceDealt | src/main/java/net/whg/minigames/framework/teams/TeamUtils.java:85 | The chosen team gains the player at its end unless already a member. Every other team is unchanged. Each earlier placement's player is still in its team, and every member is an original one or a dealt one. |
| TeamUtils.DealtPlaced | src/main/java/net/whg/minigames/framework/teams/TeamUtils.java:85 | When the chosen team gains the next player and no member is lost, earlier placements are still held and every member is an original or a dealt one. |
| TeamUtils.PlaceOne | src/main/java/net/whg/minigames/framework/teams/TeamUtils.java:85 | `team.addPlayer` seen from the whole team list: the team gains the player at its end unless already a member, and no other team and no display name changes. |
| TeamUtils.CountStep | src/main/java/net/whg/minigames/framework/teams/TeamUtils.java:86 | The count map grows by one for the chosen team only. |
| TeamUtils.RoundRobinShares | src/main/java/net/whg/minigames/framework/teams/TeamUtils.java:17-19 | Round-robin over n teams gives team i ⌊p/n⌋ players, plus one when i < p mod n. Counts differ by at most one, and the earlier teams get the extras. |
| TeamUtils.RoundRobinHits | src/main/java/net/whg/minigames/framework/teams/TeamUtils.java:74-83 | Without caps, the number of players team i receives in one call is ⌊p/n⌋ + (1 if i < p mod n). |
| TeamUtils.ReceivedHits | src/main/java/net/whg/minigames/framework/teams/TeamUtils.java:71-86 | With a duplicate-free team list, the count kept for a team equals the number of placements that chose its index. |

## Left out

- The Bukkit event bus and the event classes are not modelled. Where the code reads `isCancelled()`, the model takes a boolean input (`cancelled`, `joinCancelled`). Listener registration and unregistration are not modelled.
- Command layers, chat messages and logging are left out (`MinigameJoinAction`, `MinigameLeaveAction`, `MinigameCommand`, `ArenaCommand`, `BuildArenaAction`, `CmdPlayer`). They parse arguments and print.
- `Arena.java` is not part of this model: schematic file I/O, `buildArena` and task scheduling. `initializeMinigame` adds the instance whatever the build does, and the model does the same.
- WorldEdit and Bukkit calls inside `ArenaBuildTask` are abstracted:
  - blocks are a map from integer coordinates to an abstract block value;
  - block-data matching is equality;
  - entities are a sequence of positions;
  - the entity copy is a list of copied entities passed to `Run`, so its failure handling is not modelled;
  - `cancel()` sets a flag.
- `SelectionFloater`, `ModeledSelectionFloater`, `JumpPad`, `DefaultMinigame`, `LobbyGame`, `MajorGame`, `AbstractPlayerManager` and `MinigamesPlugin` are not part of this model. They are gameplay, foreign APIs or plugin wiring.
- Factories are values (name, instanced, minimum and maximum players). `createInstance` and `init` are folded into the `Minigame` constructor, because the two files disagree on their signatures.
- `PlayerAlreadyInMinigameException` is not modelled. Its two throws in `addPlayer` are the outcomes `AlreadyInThis` and `AlreadyInOther`.
- The unknown-lobby exception in `addToLobby` is a `false` result. The `IllegalArgumentException`s of `shuffleTeams` are `ShuffleError` values.
- Randomness is not modelled. `Collections.shuffle` becomes a parameter `shuffled`, any permutation of the players. `UUID.randomUUID()` becomes a fresh `token` parameter.
- Minigames.Minigame.AddPlayer: `manager.addPlayer(player, this)` on success is not modelled, because `MinigameManager.java` defines no such method. The manager's `getCurrentMinigame` answer reaches `addPlayer` as the boolean `inSomeGame`.
- `Minigame.getSize()` is called by `VirtualLobby` but not defined in `Minigame.java`. The model defines it as the player count.
- TeamUtils.SumValues: the Java stream sum is a 32-bit `int` and can wrap around. The model sums unbounded integers, so a total capacity above 2^31−1 is not modelled as overflowing.
- Entity positions are doubles. They are modelled as `real`, with exact comparison and no rounding.
- The caller's player list in `shuffleTeams` is a value in the model, so it cannot change. The copy is consumed by an index from its end rather than by `remove`, which visits the same players in the same order.
- `ArenaManager.Arena` starts in `NotBuilt`. The five-value state enum is modelled in full (`Arenas.ArenaState`). Of the modelled code, only the build-finished handler changes it, to `Ready`.
- Arenas.LocationInjective: Java's `int` arithmetic in `getLocation` is 32-bit and wraps. The model multiplies unbounded integers, so injectivity holds in the model for all inputs, while in Java it holds only while (id+1)·distance stays within the `int` range (distance 65536 with type numbers 0 and 65536 collide after wrapping).
- Region.RegionIterator.Update: coordinates are unbounded integers. In Java, `z++` at `maxZ == Integer.MAX_VALUE` wraps to a negative value and the scan never finishes; the model's scan of such a box finishes.
- A box with max < min on some axis follows the code: such a cursor is not done after construction, because `done` is set only by a y overflow (`Region.MalformedStartNotDone`).
- `RegionIterator`'s getters read its fields directly. They carry no contract of their own, because `Update`'s and `Reset`'s contracts state the fields.
- Sessions.VirtualLobby.PopulateInstance: for an instance that is not in the manager's active list, the contract states the drain, the size bound and what every other game loses, but not the instance's own players. Every caller in the model passes an active instance.
