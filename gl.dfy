/** The WebGL enumerants that gl4u.js reads from the context object `gl`. */
module GL {
  /** A WebGL object (shader, program or buffer), identified by an opaque handle. */
  type Handle = nat

  const FLOAT: int := 0x1406
  const INT: int := 0x1404
  const ARRAY_BUFFER: int := 0x8892
  const VERTEX_SHADER: int := 0x8B31
}
