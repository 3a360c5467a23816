/** Positions on the map and how far they are apart (src/position.h). */
module Positions {
  import opened Wrappers

  type u16 = v: int | 0 <= v < 0x1_0000

  datatype Position = Position(x: u16, y: u16, z: nat)

  /** `Position::areInRange` */
  predicate InRange(p: Position, q: Position, dx: nat, dy: nat, dz: nat) {
    Abs(p.x - q.x) <= dx && Abs(p.y - q.y) <= dy && Abs(p.z - q.z) <= dz
  }
}
