/** The value records of the prediction core (the `SimulationState` and
    `ClientInputState` classes at the top of Assets/MovementInput.cs, whose
    instances are created and never mutated once cached), the vector types they
    carry, and a network message as a sequence of typed fields. */
module Records {
  import opened Ticks

  datatype Option<T> = None | Some(value: T)

  /** Unity's `Vector3`, with exact real components. */
  datatype Vec3 = Vec3(x: real, y: real, z: real)

  /** Unity's `Quaternion`; its default value is (0, 0, 0, 0), not the identity. */
  datatype Quat = Quat(x: real, y: real, z: real, w: real)

  const Zero3: Vec3 := Vec3(0.0, 0.0, 0.0)
  const ZeroQuat: Quat := Quat(0.0, 0.0, 0.0, 0.0)

  /** A point-in-time kinematic state of the player, tagged with its tick. */
  datatype SimulationState = SimulationState(
    position: Vec3,
    rotation: Quat,
    velocity: Vec3,
    angularVelocity: Vec3,
    currentTick: ushort)

  /** `new SimulationState()`: every field at its default value. */
  const EmptySimulationState: SimulationState :=
    SimulationState(Zero3, ZeroQuat, Zero3, Zero3, 0)

  /** One tick's command. The continuation fields (`readyToJump` and the two
      counters) exist in the record but nothing in the core ever fills them. */
  datatype ClientInputState = ClientInputState(
    horizontal: sbyte,
    vertical: sbyte,
    jump: bool,
    readyToJump: bool,
    coyoteTimeCounter: int,
    jumpBufferCounter: int,
    currentTick: ushort)

  /** An object initialiser `new ClientInputState { horizontal, vertical, jump,
      currentTick }`: the continuation fields keep their declared defaults. */
  function WireInput(horizontal: sbyte, vertical: sbyte, jump: bool, tick: ushort): (r: ClientInputState)
    ensures DefaultContinuation(r)
    ensures r.horizontal == horizontal && r.vertical == vertical && r.jump == jump && r.currentTick == tick
  {
    ClientInputState(horizontal, vertical, jump, true, 0, 0, tick)
  }

  /** `new ClientInputState()` with nothing set. */
  const EmptyInput: ClientInputState := WireInput(0, 0, false, 0)

  /** The continuation fields hold their declared defaults. */
  predicate DefaultContinuation(i: ClientInputState) {
    i.readyToJump && i.coyoteTimeCounter == 0 && i.jumpBufferCounter == 0
  }

  /** One value written by `Message.AddByte`, `AddSByte`, `AddBool`,
      `AddUShort` or `AddVector3`. */
  datatype Field =
    | ByteField(b: byte)
    | SByteField(s: sbyte)
    | BoolField(flag: bool)
    | UShortField(u: ushort)
    | Vector3Field(v: Vec3)
}
