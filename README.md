# Feather views and entity-state propagation, modelled in Dafny

This project models the interest-management core of the Feather Minecraft
server:

- the per-player `View`: a center chunk, a view distance (`u32`), a world and
  a dimension. Its padded bounding box reaches one chunk beyond the view
  distance on every side. `iter` enumerates that box x-outer, z-inner, both
  ascending, and yields nothing when the distance is zero. `contains` is a
  purely geometric test. `difference` is "everything" across worlds or
  dimensions and a set difference otherwise;
- the two systems that keep players' views current. `update_player_views`
  recenters the view of every player who crossed into another chunk.
  `update_view_on_join` announces a joining player's view as a change from
  the empty view. Both buffer their `ViewUpdateEvent`s during the scan and
  insert them afterwards, stopping at the first insertion that fails;
- the entity systems that propagate state changes to nearby clients.
  `send_entity_movement` broadcasts when a position changed and refreshes the
  previous-position and previous-on-ground caches. `send_entity_sneak_metadata`
  and `send_entity_sprint_metadata` build an entity bit mask and pose patch and
  broadcast it once per entity.

Files and modules:

- `base.dfy`, module `Base`: chunk coordinates, entity, world and dimension
  identifiers, positions, and `SysResult`.
- `view.dfy`, module `ViewRegion`: the `View` datatype, the enumeration
  `Column`/`Iter2d`, and the lemmas about boxes, `iter`, `contains` and
  `difference`.
- `view_systems.dfy`, module `ViewSystems`: the class `Game`. Its `players`
  array holds the player rows, whose `View` components are replaced in place.
  It also has the set of live entities and the log of inserted entity
  events. The two view systems are methods of `Game`, proved against
  functions of the rows before the scan.
- `entity_systems.dfy`, module `EntitySystems`: the class `Server`, whose
  `broadcasts` log records every nearby-broadcast. The three entity systems
  are methods of `Server`, proved against functions of the rows.

Integers are mathematical. A position's chunk (`Position::chunk`) is a
function `chunkOf` that the caller passes in. A broadcast is recorded as the
world, dimension and position it is scoped to, plus the packet sent.

Three behaviours of the code worth noting:

- A view of distance 0 has a 3x3 box around its center, but `iter` yields
  nothing for it (view.rs:128-129). `contains` still answers for the 3x3 box.
  See `EmptyViewBox`.
- The replacement view takes its world and dimension from the player's
  `EntityWorld` and `EntityDimension` components, not from the old view
  (view.rs:28-33).
- The caches are overwritten only when they differ (entity.rs:69-73). The
  result is the same as refreshing them unconditionally; see
  `MovementRefreshesCaches`.

## Model

| member | source | states |
|---|---|---|
| `ViewRegion.New` | feather/common/src/view.rs:86-98 | definition: a view holding exactly the given center, distance, world and dimension; properties in `NewIsSetCenter` |
| `ViewRegion.View.IsEmpty` | feather/common/src/view.rs:106-108 | definition; properties in `EmptyIffZeroDistance` |
| `ViewRegion.View.SetCenter` | feather/common/src/view.rs:118-120 | definition; properties in `SetterLaws` and `NewIsSetCenter` |
| `ViewRegion.View.SetViewDistance` | feather/common/src/view.rs:122-124 | definition; properties in `SetterLaws` |
| `ViewRegion.View.MinX` | feather/common/src/view.rs:172-176 | definition; properties in `BoxSpan` |
| `ViewRegion.View.MinZ` | feather/common/src/view.rs:179-181 | definition; properties in `BoxSpan` |
| `ViewRegion.View.MaxX` | feather/common/src/view.rs:184-186 | definition; properties in `BoxSpan` |
| `ViewRegion.View.MaxZ` | feather/common/src/view.rs:189-191 | definition; properties in `BoxSpan` |
| `ViewRegion.View.Contains` | feather/common/src/view.rs:153-158 | definition; properties in `ContainsWithinPaddedRadius` and `EmptyViewBox` |
| `ViewRegion.Column` | feather/common/src/view.rs:166-167 | definition of the inner range; properties in `ColumnShape` |
| `ViewRegion.Iter2d` | feather/common/src/view.rs:160-169 | definition; properties in `Iter2dLength`, `Iter2dMembers`, `Iter2dAscending` |
| `ViewRegion.View.Iter` | feather/common/src/view.rs:127-138 | definition; properties in `IterMembership`, `IterAscending`, `IterCount`, `IterIsOrderedBox` |
| `ViewRegion.View.Difference` | feather/common/src/view.rs:141-150 | definition; properties in `DifferenceAcrossSpaces`, `DifferenceWithinSpace`, `DifferenceSelf`, `DifferenceWithEmpty`, `DifferencePartition`, `StepEastDifference` |
| `ViewRegion.Empty` | feather/common/src/view.rs:101-103 | the empty view has center (0,0) and distance 0, plus the given world and dimension; it is empty and enumerates nothing |
| `ViewRegion.EmptyIffZeroDistance` | feather/common/src/view.rs:106-108 | `is_empty` holds exactly when the distance is 0; any view with a positive distance is not the empty view |
| `ViewRegion.SetterLaws` | feather/common/src/view.rs:118-124 | each setter changes only its own field; of two `set_center` calls the later wins; the two setters commute; recentering translates the box by the change of center; the new distance alone decides `is_empty` |
| `ViewRegion.NewIsSetCenter` | feather/common/src/view.rs:86-120 | rebuilding a view with `View::new` from its own distance, world and dimension is `set_center`; setting a view's own center changes nothing |
| `ViewRegion.BoxSpan` | feather/common/src/view.rs:172-191 | the box spans 2r+3 chunks on each axis and its midpoint is the center |
| `ViewRegion.ContainsWithinPaddedRadius` | feather/common/src/view.rs:153-158 | `contains(p)` holds exactly when p is at most r+1 from the center on both axes |
| `ViewRegion.EmptyViewBox` | feather/common/src/view.rs:153-158 | the empty view enumerates nothing, while `contains` still accepts exactly the 3x3 square around the origin |
| `ViewRegion.ColumnShape` | feather/common/src/view.rs:166-167 | the inner range yields `(x, z)` for every z in `min_z..=max_z` once, ascending |
| `ViewRegion.Iter2dLength` | feather/common/src/view.rs:160-169 | `iter_2d` yields width times height chunks |
| `ViewRegion.Iter2dMembers` | feather/common/src/view.rs:160-169 | `iter_2d` yields exactly the chunks of the inclusive box |
| `ViewRegion.Iter2dAscending` | feather/common/src/view.rs:160-169 | `iter_2d` is strictly ascending with x outer and z inner, so it has no duplicates |
| `ViewRegion.Iter2dShape` | feather/common/src/view.rs:160-169 | the three facts above together |
| `ViewRegion.AscendingUnique` | feather/common/src/view.rs:166-167 | a strictly ascending enumeration is determined by its set of chunks |
| `ViewRegion.IterMembership` | feather/common/src/view.rs:127-138 | a chunk occurs in `iter` exactly when the view is non-empty and contains it |
| `ViewRegion.IterAscending` | feather/common/src/view.rs:127-138 | `iter` is strictly ascending (x outer, z inner) and yields no chunk twice |
| `ViewRegion.IterCount` | feather/common/src/view.rs:127-138 | `iter` yields 0 chunks for an empty view and (2r+3)^2 otherwise, all distinct |
| `ViewRegion.IterIsOrderedBox` | feather/common/src/view.rs:127-138 | for a non-empty view, any strictly ascending sequence of exactly the contained chunks equals `iter` |
| `ViewRegion.DifferenceAcrossSpaces` | feather/common/src/view.rs:142-143 | across worlds or dimensions the difference is all of `a.iter()`, whatever the coordinate overlap, with as many chunks as `iter` yields |
| `ViewRegion.DifferenceWithinSpace` | feather/common/src/view.rs:144-149 | in one world and dimension, c is in `a.difference(b)` exactly when `a` covers c and `b` does not (both via `iter` and via `contains`) |
| `ViewRegion.DifferenceSelf` | feather/common/src/view.rs:144-149 | `a.difference(a)` is empty |
| `ViewRegion.DifferenceWithEmpty` | feather/common/src/view.rs:141-150 | `v.difference(empty(v.world, v.dimension))` is all of `v.iter()`, and the empty view's difference against `v` is empty |
| `ViewRegion.DifferencePartition` | feather/common/src/view.rs:144-149 | the two differences and the common chunks together form the union; `a.difference(b)` shares nothing with `b.iter()` or with `b.difference(a)` |
| `ViewRegion.StepEastDifference` | feather/common/src/view.rs:141-150 | after one step in +x, the gained chunks are the column at the new `max_x` and the lost chunks the column at the old `min_x`, each over the full z-span |
| `ViewSystems.ChunksToLoad` | feather/common/src/view.rs:35 | definition (`new_view.difference(old_view)`); properties in `JoinEventLoadsWholeView` |
| `ViewSystems.ChunksToUnload` | feather/common/src/view.rs:35 | definition (`old_view.difference(new_view)`); properties in `JoinEventLoadsWholeView` |
| `ViewSystems.Moved` | feather/common/src/view.rs:26 | definition; properties in `MovedIndices` and `NoMovedNoEvents` |
| `ViewSystems.MovedView` | feather/common/src/view.rs:28-33 | definition; properties in `RescannedView` and `MoveEventsAreMoves` |
| `ViewSystems.Rescanned` | feather/common/src/view.rs:26-38 | definition; properties in `RescannedView` and `RescanIdempotent` |
| `ViewSystems.MoveEvent` | feather/common/src/view.rs:27-36 | definition; properties in `MoveEventsAreMoves` |
| `ViewSystems.MoveEvents` | feather/common/src/view.rs:20-41 | definition; properties in `MoveEventsInScanOrder`, `NoMovedNoEvents`, `RescanIdempotent` |
| `ViewSystems.JoinEvent` | feather/common/src/view.rs:63-64 | definition; properties in `JoinEventLoadsWholeView` |
| `ViewSystems.JoinEvents` | feather/common/src/view.rs:51-66 | definition; properties in `JoinEventsInScanOrder` |
| `ViewSystems.EmitResult` | feather/common/src/view.rs:43-46 | definition; properties in `EmitResultMeaning` |
| `ViewSystems.MovedIndices` | feather/common/src/view.rs:21-26 | exactly the positions of the players whose chunk differs from their view's center, ascending |
| `ViewSystems.JoinedIndices` | feather/common/src/view.rs:52-62 | exactly the positions of the players carrying the join marker, ascending |
| `ViewSystems.Delivered` | feather/common/src/view.rs:43-45 | the number of buffered events inserted before the first one whose entity no longer exists |
| `ViewSystems.Game.InsertEntityEvent` | feather/common/src/view.rs:44 | inserting an event for a live entity appends it and returns `Ok`; for a dead entity it inserts nothing and returns the error |
| `ViewSystems.Game.EmitEvents` | feather/common/src/view.rs:43-46 | buffered events are inserted in order up to the first failure; the result is `Ok` or that failure |
| `ViewSystems.Game.UpdatePlayerViews` | feather/common/src/view.rs:19-47 | every row becomes its rescanned row (moved players recentered, the rest unchanged); the events for the moved players are then emitted, halting at the first failure, with no rollback of views |
| `ViewSystems.Game.UpdateViewOnJoin` | feather/common/src/view.rs:50-71 | no view changes; the join events are emitted in scan order, halting at the first failure |
| `ViewSystems.RescannedView` | feather/common/src/view.rs:26-38 | after the scan a view's center is the player's chunk and its distance is unchanged; a replaced view has the player's world and dimension; an unmoved player is untouched |
| `ViewSystems.RescanIdempotent` | feather/common/src/view.rs:26-38 | rescanning a rescanned player changes nothing, and scanning the rescanned players again buffers no event |
| `ViewSystems.NoMovedNoEvents` | feather/common/src/view.rs:26 | when every view is centered on its player's chunk, the scan buffers nothing |
| `ViewSystems.MoveEventsInScanOrder` | feather/common/src/view.rs:21-41 | there is one event per moved player, in scan order, carrying its old view and its new view |
| `ViewSystems.MoveEventsAreMoves` | feather/common/src/view.rs:26-36 | each move event changes the center and keeps the distance |
| `ViewSystems.JoinEventsInScanOrder` | feather/common/src/view.rs:52-66 | there is one event per joined player, in scan order: from `empty(world, dimension)` to the current view |
| `ViewSystems.JoinEventLoadsWholeView` | feather/common/src/view.rs:63 | a join event's chunks to load are all of the current view and its chunks to unload are none |
| `ViewSystems.EmitResultMeaning` | feather/common/src/view.rs:43-46 | emission is `Ok` exactly when every buffered player still exists; otherwise the error names the first one that does not |
| `EntitySystems.SetFlag` | feather/server/src/systems/entity.rs:96-97 | definition; properties in `SetFlagEffect` |
| `EntitySystems.AfterMovement` | feather/server/src/systems/entity.rs:69-73 | definition; properties in `MovementRefreshesCaches` |
| `EntitySystems.MovementBroadcast` | feather/server/src/systems/entity.rs:52-68 | definition; properties in `MovementBroadcastsFromChangedRows` and `ChangedRowsAreBroadcast` |
| `EntitySystems.MovementBroadcasts` | feather/server/src/systems/entity.rs:36-74 | definition; properties in `MovementBroadcastsInScanOrder`, `MovementBroadcastIff`, `SecondPassIsSilent` |
| `EntitySystems.ChangedIndices` | feather/server/src/systems/entity.rs:52 | exactly the positions of the rows whose position differs from the cached one, ascending |
| `EntitySystems.SneakMask` | feather/server/src/systems/entity.rs:93-97 | definition; properties in `SneakMaskBits` |
| `EntitySystems.SneakMetadata` | feather/server/src/systems/entity.rs:92-104 | definition; properties in `SneakMetadataEntries` |
| `EntitySystems.SprintMask` | feather/server/src/systems/entity.rs:127-129 | definition; properties in `SprintMaskBits` |
| `EntitySystems.SprintMetadata` | feather/server/src/systems/entity.rs:126-130 | definition; properties in `SprintMetadataEntries` |
| `EntitySystems.SneakBroadcast` | feather/server/src/systems/entity.rs:106-108 | definition; properties in `SneakBroadcastPerRow` |
| `EntitySystems.SneakBroadcasts` | feather/server/src/systems/entity.rs:80-109 | definition; properties in `SneakBroadcastPerRow` |
| `EntitySystems.SprintBroadcast` | feather/server/src/systems/entity.rs:132-134 | definition; properties in `SprintBroadcastPerRow` |
| `EntitySystems.SprintBroadcasts` | feather/server/src/systems/entity.rs:115-135 | definition; properties in `SprintBroadcastPerRow` |
| `EntitySystems.Server.BroadcastNearby` | feather/server/src/systems/entity.rs:106-108 | a broadcast appends one record of its world, dimension, position and packet |
| `EntitySystems.Server.SendEntityMovement` | feather/server/src/systems/entity.rs:35-76 | returns `Ok`; every row's caches are refreshed; the log gains the movement broadcasts of the changed rows, in order |
| `EntitySystems.Server.SendEntitySneakMetadata` | feather/server/src/systems/entity.rs:79-111 | returns `Ok`; the log gains one sneak-metadata broadcast per row, in order |
| `EntitySystems.Server.SendEntitySprintMetadata` | feather/server/src/systems/entity.rs:114-137 | returns `Ok`; the log gains one sprint-metadata broadcast per row, in order |
| `EntitySystems.MovementRefreshesCaches` | feather/server/src/systems/entity.rs:69-73 | after the pass `prev_position == position` and `prev_on_ground == on_ground`, whether or not the position changed; nothing else changes |
| `EntitySystems.SecondPassIsSilent` | feather/server/src/systems/entity.rs:52-70 | rows whose caches are fresh produce no broadcast |
| `EntitySystems.MovementBroadcastsFromChangedRows` | feather/server/src/systems/entity.rs:52-68 | every movement broadcast comes from a row whose position changed, scoped to that row and carrying its pre-refresh caches |
| `EntitySystems.MovementBroadcastsInScanOrder` | feather/server/src/systems/entity.rs:36-70 | there is one movement broadcast per changed row, in scan order, scoped to that row and carrying its position and both pre-refresh caches |
| `EntitySystems.ChangedRowsAreBroadcast` | feather/server/src/systems/entity.rs:52-68 | every row whose position changed has its broadcast in the log |
| `EntitySystems.MovementBroadcastIff` | feather/server/src/systems/entity.rs:52-55 | with distinct network ids, an entity gets a movement broadcast exactly when its position differs from its cached one |
| `EntitySystems.SetFlagEffect` | feather/server/src/systems/entity.rs:96-97 | `set(flag, v)` makes the flag's bits equal v and leaves every other bit |
| `EntitySystems.SneakMaskBits` | feather/server/src/systems/entity.rs:92-98 | CROUCHED equals `is_sneaking`, SPRINTING equals the `Sprinting` flag, and no other bit is set |
| `EntitySystems.SprintMaskBits` | feather/server/src/systems/entity.rs:126-130 | only SPRINTING can be set, and it equals `is_sprinting` |
| `EntitySystems.SneakMetadataEntries` | feather/server/src/systems/entity.rs:98-104 | the bit-mask entry is the sneak mask; the pose is `Sneaking` exactly when sneaking and `Standing` otherwise; other base entries are kept |
| `EntitySystems.SprintMetadataEntries` | feather/server/src/systems/entity.rs:126-130 | only the bit-mask entry is written; the pose entry is whatever the base holds |
| `EntitySystems.SneakBroadcastPerRow` | feather/server/src/systems/entity.rs:106-108 | exactly one broadcast per entity carrying a `SneakEvent` (whether it starts or stops sneaking), in order, carrying that entity's metadata |
| `EntitySystems.SprintBroadcastPerRow` | feather/server/src/systems/entity.rs:132-134 | exactly one broadcast per entity carrying a `SprintEvent` (whether it starts or stops sprinting), in order, carrying that entity's metadata |

## Left out

- `ViewRegion.IterCount`, `ViewRegion.BoxSpan`: the counts and spans hold over mathematical integers. They agree with the source only while the distance is below 2^31 and the bounds fit in an i32; for a larger distance `view_distance as i32` is negative, and the source's box is empty or, at 0xFFFF_FFFF, the single center chunk.
- i32 arithmetic: chunk coordinates and the bounds `center ± r ± 1` are mathematical integers, so the cast `view_distance as i32` and overflow near the i32 limits are not modelled.
- `ViewRegion.View.SetCenter` and `ViewRegion.View.SetViewDistance`: the `&mut self` setters are modelled as functions returning the updated `View`. A `View` is a `Clone` value owned by one player, so there is no aliasing to lose. The in-place update the systems perform (`*view = new_view`) is modelled on the `players` array.
- `difference` returns a `set`: the order of the `Vec` collected from an `AHashSet` is hashing order, which is not modelled. In the cross-world branch the order of `iter` is likewise dropped.
- The ECS query engine: a query's rows are given as an array (or a sequence, for read-only queries) of records. Which entities have which components is not modelled; the join marker is a boolean on the row. The player's `Name` is only used for logging.
- `insert_entity_event`: its implementation is not part of this model. It fails exactly for entities outside the game's `live` set.
- The broadcast dispatcher `broadcast_nearby_with` / `broadcast_nearby_with_mut` is not part of this model. Its recipient choice (the clients whose view contains the position's chunk) and the mutable/immutable distinction are not modelled; each call is recorded once with its scope and packet.
- The `Dimensions` lookup and its `unwrap`, and the `Gamemode` / `PreviousGamemode` lookups passed to `update_entity_position`, are not modelled; the movement packet carries the network id, both positions and both on-ground flags.
- `EntityMetadata::entity_base()` is not part of this model: the systems take the base metadata as a parameter. The constants are defined in `base::metadata`, which is also not part of this model. They follow the Java Edition entity-metadata layout: bit mask at index 0, pose at index 6, CROUCHED = 0x02, SPRINTING = 0x08.
- `Position` is f64 data, declared here as an opaque type with equality; only equality is used, and the model's equality is reflexive (an f64 NaN never equals itself in the source). `Position::chunk` is the caller's `chunkOf`.
- `log::trace!` calls, system registration (`register`) and scheduling.
- The fuzz target over the protocol codec, the shutdown handler, the ghast and horse entity builders, and the ECS re-export and `EntityRef` wrapper files: no logic belongs to this core.
