/** Value types shared by the view and entity systems: chunk coordinates,
    world and dimension identifiers, entity handles and system results. */
module Base {

  /** Rust's `u32`: the type of a view distance. */
  type u32 = x: int | 0 <= x < 0x1_0000_0000

  /** A chunk coordinate `(x, z)` in the horizontal plane. The source uses `i32`
      fields; here they are mathematical integers. */
  datatype ChunkPos = ChunkPos(x: int, z: int)

  /** An ECS entity handle: a slot index and the generation that owns it. */
  datatype EntityId = EntityId(index: nat, generation: nat)

  /** `EntityWorld`: the world a participant lives in, named by the world's entity. */
  datatype WorldId = WorldId(entity: EntityId)

  /** `EntityDimension`: the dimension tag, a name. */
  datatype Dimension = Dimension(name: string)

  /** A world-space position (coordinates, yaw and pitch), left opaque: only
      equality between positions is used, and its chunk is obtained through a
      function given by the caller. */
  type Position(==)

  /** The one error the systems can raise: an event was addressed to an
      entity that no longer exists. */
  datatype SysError = EntityDead(entity: EntityId)

  /** `SysResult`: what a system returns to the scheduler. */
  datatype SysResult = Ok | Err(error: SysError)
}
