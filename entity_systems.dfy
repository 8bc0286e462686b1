/** The state-change propagation systems of feather/server/src/systems/entity.rs:
    entity movement (compare against cached previous values, broadcast on
    change, refresh the caches) and the sneak and sprint metadata patches.
    A broadcast to nearby clients is recorded in the server's log. */
module EntitySystems {
  import opened Base

  /** `NetworkId`: the id clients know an entity by. */
  datatype NetworkId = NetworkId(id: int)

  /** The poses this core writes. */
  datatype Pose = Standing | Sneaking

  /** Entity metadata entries: a byte (the entity bit mask), a pose, or one of
      the other entries `entity_base()` may hold. */
  datatype MetaEntry = Byte(byte: bv8) | PoseEntry(pose: Pose) | VarInt(n: int) | Boolean(b: bool)

  /** Metadata indices are `u8`. */
  type MetaIndex = x: int | 0 <= x < 256

  /** `EntityMetadata`: entries by index; `set` replaces the entry at an index. */
  type Metadata = map<MetaIndex, MetaEntry>

  const MetaIndexEntityBitmask: MetaIndex := 0
  const MetaIndexPose: MetaIndex := 6

  /** The two `EntityBitMask` flags these systems touch. */
  const Crouched: bv8 := 0x02
  const SprintingFlag: bv8 := 0x08

  /** `bitflags::set(flag, value)`: insert the flag when `value`, remove it otherwise. */
  function SetFlag(mask: bv8, flag: bv8, value: bool): bv8
  {
    if value then mask | flag else mask & !flag
  }

  /** The flag is present in the mask. */
  predicate HasFlag(mask: bv8, flag: bv8)
  {
    mask & flag == flag
  }

  // ---------------------------------------------------------------------
  // The recorded broadcast
  // ---------------------------------------------------------------------

  /** What a client is asked to do for each recipient. */
  datatype Packet =
    | EntityPosition(networkId: NetworkId, position: Position, prevPosition: Position,
                     onGround: bool, prevOnGround: bool)
    | EntityMetadataPacket(networkId: NetworkId, metadata: Metadata)

  /** One call of `broadcast_nearby_with` / `broadcast_nearby_with_mut`: the
      world, dimension and position it is scoped to and the packet each nearby
      client is sent. */
  datatype Broadcast = Broadcast(world: WorldId, dimension: Dimension, position: Position, packet: Packet)

  // ---------------------------------------------------------------------
  // send_entity_movement, as functions of the rows before the pass
  // ---------------------------------------------------------------------

  /** A row of the movement query. */
  datatype Tracked = Tracked(
    entity: EntityId,
    position: Position,
    prevPosition: Position,
    onGround: bool,
    prevOnGround: bool,
    networkId: NetworkId,
    dimension: Dimension,
    world: WorldId)

  /** The row after the pass: each cache is overwritten only when it differs. */
  function AfterMovement(e: Tracked): Tracked
  {
    var e1 := if e.position != e.prevPosition then e.(prevPosition := e.position) else e;
    if e1.onGround != e1.prevOnGround then e1.(prevOnGround := e1.onGround) else e1
  }

  /** The broadcast issued for a row, if any: only when its position differs
      from its cached previous position, carrying both caches as they were. */
  function MovementBroadcast(e: Tracked): seq<Broadcast>
  {
    if e.position != e.prevPosition then
      [Broadcast(e.world, e.dimension, e.position,
                 EntityPosition(e.networkId, e.position, e.prevPosition, e.onGround, e.prevOnGround))]
    else []
  }

  function MovementBroadcasts(es: seq<Tracked>): seq<Broadcast>
  {
    if es == [] then [] else MovementBroadcasts(es[..|es| - 1]) + MovementBroadcast(es[|es| - 1])
  }

  /** The positions of the rows whose position differs from the cached one, in
      ascending order (an independent description of which rows are broadcast). */
  function ChangedIndices(es: seq<Tracked>): (r: seq<nat>)
    ensures forall k :: 0 <= k < |r| ==> r[k] < |es| && es[r[k]].position != es[r[k]].prevPosition
    ensures forall i :: 0 <= i < |es| && es[i].position != es[i].prevPosition ==> i in r
    ensures forall k, l :: 0 <= k < l < |r| ==> r[k] < r[l]
  {
    if es == [] then []
    else
      var n := |es| - 1;
      ChangedIndices(es[..n]) + (if es[n].position != es[n].prevPosition then [n] else [])
  }

  // ---------------------------------------------------------------------
  // Sneak and sprint metadata
  // ---------------------------------------------------------------------

  /** A row of the sneak query: the entity's `SneakEvent` and `Sprinting` flag. */
  datatype SneakRow = SneakRow(position: Position, isSneaking: bool, isSprinting: bool,
                               networkId: NetworkId, world: WorldId, dimension: Dimension)

  /** A row of the sprint query: the entity's `SprintEvent`. */
  datatype SprintRow = SprintRow(position: Position, isSprinting: bool,
                                 networkId: NetworkId, world: WorldId, dimension: Dimension)

  /** The bit mask of the sneak system: start empty, set CROUCHED, then SPRINTING. */
  function SneakMask(isSneaking: bool, isSprinting: bool): bv8
  {
    SetFlag(SetFlag(0, Crouched, isSneaking), SprintingFlag, isSprinting)
  }

  function SneakMetadata(base: Metadata, isSneaking: bool, isSprinting: bool): Metadata
  {
    base[MetaIndexEntityBitmask := Byte(SneakMask(isSneaking, isSprinting))]
        [MetaIndexPose := PoseEntry(if isSneaking then Sneaking else Standing)]
  }

  /** The bit mask of the sprint system: start empty, set SPRINTING. */
  function SprintMask(isSprinting: bool): bv8
  {
    SetFlag(0, SprintingFlag, isSprinting)
  }

  function SprintMetadata(base: Metadata, isSprinting: bool): Metadata
  {
    base[MetaIndexEntityBitmask := Byte(SprintMask(isSprinting))]
  }

  function SneakBroadcast(base: Metadata, r: SneakRow): Broadcast
  {
    Broadcast(r.world, r.dimension, r.position,
              EntityMetadataPacket(r.networkId, SneakMetadata(base, r.isSneaking, r.isSprinting)))
  }

  function SneakBroadcasts(base: Metadata, rows: seq<SneakRow>): seq<Broadcast>
  {
    if rows == [] then [] else SneakBroadcasts(base, rows[..|rows| - 1]) + [SneakBroadcast(base, rows[|rows| - 1])]
  }

  function SprintBroadcast(base: Metadata, r: SprintRow): Broadcast
  {
    Broadcast(r.world, r.dimension, r.position,
              EntityMetadataPacket(r.networkId, SprintMetadata(base, r.isSprinting)))
  }

  function SprintBroadcasts(base: Metadata, rows: seq<SprintRow>): seq<Broadcast>
  {
    if rows == [] then [] else SprintBroadcasts(base, rows[..|rows| - 1]) + [SprintBroadcast(base, rows[|rows| - 1])]
  }

  // ---------------------------------------------------------------------
  // The server and the three systems
  // ---------------------------------------------------------------------

  /** The parts of `Server` these systems use: the log of broadcasts issued. */
  class Server {
    var broadcasts: seq<Broadcast>

    constructor ()
      ensures broadcasts == []
    {
      broadcasts := [];
    }

    /** `broadcast_nearby_with` and `broadcast_nearby_with_mut`, recorded. */
    method BroadcastNearby(world: WorldId, dimension: Dimension, position: Position, packet: Packet)
      modifies this
      ensures broadcasts == old(broadcasts) + [Broadcast(world, dimension, position, packet)]
    {
      broadcasts := broadcasts + [Broadcast(world, dimension, position, packet)];
    }

    /** `send_entity_movement`: broadcast each row whose position changed,
        then refresh its caches; always `Ok`. */
    method SendEntityMovement(es: array<Tracked>) returns (r: SysResult)
      modifies es, this
      ensures r == Ok
      ensures forall k :: 0 <= k < es.Length ==> es[k] == AfterMovement(old(es[k]))
      ensures broadcasts == old(broadcasts) + MovementBroadcasts(old(es[..]))
    {
      ghost var initial := es[..];
      var i := 0;
      while i < es.Length
        invariant 0 <= i <= es.Length
        invariant forall k :: 0 <= k < i ==> es[k] == AfterMovement(initial[k])
        invariant forall k :: i <= k < es.Length ==> es[k] == initial[k]
        invariant broadcasts == old(broadcasts) + MovementBroadcasts(initial[..i])
      {
        assert initial[..i + 1][..i] == initial[..i];
        var e := es[i];
        if e.position != e.prevPosition {
          BroadcastNearby(e.world, e.dimension, e.position,
            EntityPosition(e.networkId, e.position, e.prevPosition, e.onGround, e.prevOnGround));
          e := e.(prevPosition := e.position);
        }
        if e.onGround != e.prevOnGround {
          e := e.(prevOnGround := e.onGround);
        }
        es[i] := e;
        i := i + 1;
      }
      assert initial[..i] == initial;
      r := Ok;
    }

    /** `send_entity_sneak_metadata`: one metadata broadcast per row; always `Ok`. */
    method SendEntitySneakMetadata(base: Metadata, rows: seq<SneakRow>) returns (r: SysResult)
      modifies this
      ensures r == Ok
      ensures broadcasts == old(broadcasts) + SneakBroadcasts(base, rows)
    {
      var i := 0;
      while i < |rows|
        invariant 0 <= i <= |rows|
        invariant broadcasts == old(broadcasts) + SneakBroadcasts(base, rows[..i])
      {
        assert rows[..i + 1][..i] == rows[..i];
        var row := rows[i];
        var metadata := base;
        var bitMask: bv8 := 0;
        bitMask := SetFlag(bitMask, Crouched, row.isSneaking);
        bitMask := SetFlag(bitMask, SprintingFlag, row.isSprinting);
        metadata := metadata[MetaIndexEntityBitmask := Byte(bitMask)];
        if row.isSneaking {
          metadata := metadata[MetaIndexPose := PoseEntry(Sneaking)];
        } else {
          metadata := metadata[MetaIndexPose := PoseEntry(Standing)];
        }
        BroadcastNearby(row.world, row.dimension, row.position, EntityMetadataPacket(row.networkId, metadata));
        i := i + 1;
      }
      assert rows[..i] == rows;
      r := Ok;
    }

    /** `send_entity_sprint_metadata`: one metadata broadcast per row; always `Ok`. */
    method SendEntitySprintMetadata(base: Metadata, rows: seq<SprintRow>) returns (r: SysResult)
      modifies this
      ensures r == Ok
      ensures broadcasts == old(broadcasts) + SprintBroadcasts(base, rows)
    {
      var i := 0;
      while i < |rows|
        invariant 0 <= i <= |rows|
        invariant broadcasts == old(broadcasts) + SprintBroadcasts(base, rows[..i])
      {
        assert rows[..i + 1][..i] == rows[..i];
        var row := rows[i];
        var metadata := base;
        var bitMask: bv8 := 0;
        bitMask := SetFlag(bitMask, SprintingFlag, row.isSprinting);
        metadata := metadata[MetaIndexEntityBitmask := Byte(bitMask)];
        BroadcastNearby(row.world, row.dimension, row.position, EntityMetadataPacket(row.networkId, metadata));
        i := i + 1;
      }
      assert rows[..i] == rows;
      r := Ok;
    }
  }

  // ---------------------------------------------------------------------
  // Properties
  // ---------------------------------------------------------------------

  /** After the pass both caches hold the live values, whatever they held
      before and whether or not a broadcast was issued; nothing else changes. */
  lemma MovementRefreshesCaches(e: Tracked)
    ensures AfterMovement(e).prevPosition == AfterMovement(e).position
    ensures AfterMovement(e).prevOnGround == AfterMovement(e).onGround
    ensures AfterMovement(e) == e.(prevPosition := e.position, prevOnGround := e.onGround)
  {
  }

  /** A second pass right after the first broadcasts nothing. */
  lemma {:induction false} SecondPassIsSilent(es: seq<Tracked>)
    requires forall k :: 0 <= k < |es| ==> es[k].prevPosition == es[k].position
    ensures MovementBroadcasts(es) == []
  {
    if es != [] {
      SecondPassIsSilent(es[..|es| - 1]);
    }
  }

  /** Every movement broadcast comes from a row whose position changed, is
      scoped to that row's world, dimension and position, and reports its
      previous caches. */
  lemma {:induction false} MovementBroadcastsFromChangedRows(es: seq<Tracked>, b: Broadcast)
    requires b in MovementBroadcasts(es)
    ensures exists k :: 0 <= k < |es| && es[k].position != es[k].prevPosition && b == MovementBroadcast(es[k])[0]
  {
    var n := |es| - 1;
    if b in MovementBroadcasts(es[..n]) {
      MovementBroadcastsFromChangedRows(es[..n], b);
      var k :| 0 <= k < n && es[..n][k].position != es[..n][k].prevPosition && b == MovementBroadcast(es[..n][k])[0];
      assert es[k] == es[..n][k];
    } else {
      assert b in MovementBroadcast(es[n]);
    }
  }

  /** Exactly one movement broadcast per changed row, in scan order: the k-th
      broadcast is scoped to the k-th changed row and carries its position and
      both caches as they were before the refresh. */
  lemma {:induction false} MovementBroadcastsInScanOrder(es: seq<Tracked>)
    ensures |MovementBroadcasts(es)| == |ChangedIndices(es)|
    ensures forall k :: 0 <= k < |MovementBroadcasts(es)| ==>
      var e := es[ChangedIndices(es)[k]];
      MovementBroadcasts(es)[k] ==
        Broadcast(e.world, e.dimension, e.position,
                  EntityPosition(e.networkId, e.position, e.prevPosition, e.onGround, e.prevOnGround))
  {
    if es != [] {
      MovementBroadcastsInScanOrder(es[..|es| - 1]);
    }
  }

  /** A changed row's broadcast is in the log. */
  lemma {:induction false} ChangedRowsAreBroadcast(es: seq<Tracked>, k: nat)
    requires k < |es| && es[k].position != es[k].prevPosition
    ensures MovementBroadcast(es[k])[0] in MovementBroadcasts(es)
  {
    var n := |es| - 1;
    if k < n {
      ChangedRowsAreBroadcast(es[..n], k);
      assert es[..n][k] == es[k];
    }
  }

  /** With distinct network ids: a movement broadcast for an entity is issued
      if and only if its position differs from its cached previous position. */
  lemma MovementBroadcastIff(es: seq<Tracked>, k: nat)
    requires k < |es|
    requires forall i, j :: 0 <= i < j < |es| ==> es[i].networkId != es[j].networkId
    ensures (exists b :: b in MovementBroadcasts(es) && b.packet.networkId == es[k].networkId)
        <==> es[k].position != es[k].prevPosition
  {
    if es[k].position != es[k].prevPosition {
      ChangedRowsAreBroadcast(es, k);
      assert MovementBroadcast(es[k])[0].packet.networkId == es[k].networkId;
    } else {
      forall b | b in MovementBroadcasts(es) ensures b.packet.networkId != es[k].networkId {
        MovementBroadcastsFromChangedRows(es, b);
        var j :| 0 <= j < |es| && es[j].position != es[j].prevPosition && b == MovementBroadcast(es[j])[0];
        assert j != k;
      }
    }
  }

  /** `set` inserts or removes exactly the given flag and leaves every other bit. */
  lemma SetFlagEffect(mask: bv8, flag: bv8, value: bool)
    ensures SetFlag(mask, flag, value) & flag == (if value then flag else 0)
    ensures SetFlag(mask, flag, value) & !flag == mask & !flag
  {
  }

  /** The sneak mask: CROUCHED equals `is_sneaking`, SPRINTING equals the
      `Sprinting` flag, and no other bit is set. */
  lemma SneakMaskBits(isSneaking: bool, isSprinting: bool)
    ensures HasFlag(SneakMask(isSneaking, isSprinting), Crouched) == isSneaking
    ensures HasFlag(SneakMask(isSneaking, isSprinting), SprintingFlag) == isSprinting
    ensures SneakMask(isSneaking, isSprinting) & !(Crouched | SprintingFlag) == 0
    ensures SneakMask(isSneaking, isSprinting) ==
      (if isSneaking then Crouched else 0) | (if isSprinting then SprintingFlag else 0)
  {
  }

  /** The sprint mask holds SPRINTING exactly when sprinting, and nothing else. */
  lemma SprintMaskBits(isSprinting: bool)
    ensures HasFlag(SprintMask(isSprinting), SprintingFlag) == isSprinting
    ensures !HasFlag(SprintMask(isSprinting), Crouched)
    ensures SprintMask(isSprinting) == if isSprinting then SprintingFlag else 0
  {
  }

  /** Sneak metadata: the bit mask entry is the sneak mask, the pose is
      `Sneaking` exactly when sneaking and `Standing` otherwise, and every other
      entry is the base entry. */
  lemma SneakMetadataEntries(base: Metadata, isSneaking: bool, isSprinting: bool)
    ensures var m := SneakMetadata(base, isSneaking, isSprinting);
      m.Keys == base.Keys + {MetaIndexEntityBitmask, MetaIndexPose} &&
      m[MetaIndexEntityBitmask] == Byte(SneakMask(isSneaking, isSprinting)) &&
      (m[MetaIndexPose] == PoseEntry(Sneaking) <==> isSneaking) &&
      (m[MetaIndexPose] == PoseEntry(Standing) <==> !isSneaking) &&
      forall i :: i in base && i != MetaIndexEntityBitmask && i != MetaIndexPose ==> m[i] == base[i]
  {
  }

  /** Sprint metadata: only the bit mask entry changes; no pose is written. */
  lemma SprintMetadataEntries(base: Metadata, isSprinting: bool)
    ensures var m := SprintMetadata(base, isSprinting);
      m.Keys == base.Keys + {MetaIndexEntityBitmask} &&
      m[MetaIndexEntityBitmask] == Byte(SprintMask(isSprinting)) &&
      (MetaIndexPose in m <==> MetaIndexPose in base) &&
      forall i :: i in base && i != MetaIndexEntityBitmask ==> m[i] == base[i]
  {
  }

  /** Exactly one sneak broadcast per row, in order, carrying that row's metadata. */
  lemma {:induction false} SneakBroadcastPerRow(base: Metadata, rows: seq<SneakRow>)
    ensures |SneakBroadcasts(base, rows)| == |rows|
    ensures forall k :: 0 <= k < |rows| ==> SneakBroadcasts(base, rows)[k] == SneakBroadcast(base, rows[k])
  {
    if rows != [] {
      SneakBroadcastPerRow(base, rows[..|rows| - 1]);
    }
  }

  /** Exactly one sprint broadcast per row, in order, carrying that row's metadata. */
  lemma {:induction false} SprintBroadcastPerRow(base: Metadata, rows: seq<SprintRow>)
    ensures |SprintBroadcasts(base, rows)| == |rows|
    ensures forall k :: 0 <= k < |rows| ==> SprintBroadcasts(base, rows)[k] == SprintBroadcast(base, rows[k])
  {
    if rows != [] {
      SprintBroadcastPerRow(base, rows[..|rows| - 1]);
    }
  }
}
