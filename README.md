# Client-side prediction and server reconciliation, modelled in Dafny

This project models the networking core of a Unity physics character:

- **The client (`MovementInput`)** runs a fixed-step loop of 64 ticks per second. Each tick it:
  - caches the polled command and the current rigid-body state in two 1024-slot history caches, at slot `tick % 1024`;
  - simulates the command locally;
  - sends the server every command the server has not yet acknowledged.
- **Receiving snapshots.** The client keeps the newest authoritative snapshot it has received. A message with a tick that is not strictly newer is ignored.
- **Reconciliation (`Reconciliate`).** Once per frame the client checks the snapshot:
  - a snapshot it has already corrected against is ignored;
  - otherwise it compares the snapshot with the prediction cached for that tick;
  - if they diverge, it snaps the live state to the snapshot and replays the cached commands of `[snapshot tick, present tick)`, in ascending order.
- **The server (`PlayerMovement`)** decodes each redundant batch of commands.
  - It skips the commands it has already applied.
  - It applies the rest except the newest, broadcasting one state message per applied command.
  - It remembers the newest command.
- **Movement step.** One movement step carries the jump-buffer and coyote-time counters and the jump gate.

The rigid-body physics is a parameter, the `Substrate`: the force code, the speed cap, the drag, `Physics.Simulate`, the ground raycast and quaternion normalisation.

Modules:

- `Ticks`:
  - the `byte`, `sbyte` and `ushort` wire integers;
  - C#'s `ushort` wrap at 65536, and `(byte)` truncation;
  - the cache index arithmetic: because 1024 divides 65536, a slot survives the tick wrap.
- `Records`: the two value records of the history caches, the vectors, and a message as a sequence of typed fields.
- `InputWire`: the client-to-server "input" message as pure functions — the encoder, the decoder, and their round trip.
- `Movement`:
  - the `PlayerMovement` class, whose fields its methods update in place;
  - the pure specification of one movement step;
  - the server's batch handling.
- `Prediction`:
  - the `MovementInput` class, with its two history caches as arrays;
  - the pure specifications of the tick loop, reconciliation and snapshot acceptance, together with the properties proved about them.

Every method that changes state is proved against a specification function of the old state (`Model() == ReconcileSpec(RunTicks(old(Model()), …))`). The lemmas about those functions state the properties the caches, the replay and the wire format are meant to have: each slot holds the tick that wrote it, the replay runs in ascending order, and the window decodes back to itself.

The model keeps the following quirks of the code as written:

- Tick comparisons are plain unsigned ones, with no wrap-aware ordering.
- `lastCorrectedFrame` starts at 0 and the stale guard is `<=`, so a snapshot at tick 0 is never processed.
- The snapshot handler never assigns `rotation`. It therefore stays at the default quaternion (0, 0, 0, 0), the rotational error is always 1, and every snapshot that passes the stale guard causes a correction and a replay.
- The replay does not restore the cached continuation fields (`readyToJump` and the counters), and no code ever fills them.
- The input message's count byte is `(byte)(cSPTick - serverTick)`, while the encoder's loop writes every record of the window. Past 255 unacknowledged ticks the server reads only the first `count mod 256` records.
- `SetInput` and `CheckIfGrounded` run down their counters by the frame's `Time.deltaTime`, even inside the fixed-step loop and the replay.

Units: durations are integer microseconds. The fixed step is `1/64` s, which is 15625 µs. Vectors and quaternions have exact real components.

## Model

| member | source | states |
|---|---|---|
| Ticks.CacheIndex | Assets/MovementInput.cs:58-61 | the slot of a tick is in `[0, 1024)` and congruent to the tick mod 1024 |
| Ticks.Next | Assets/MovementInput.cs:80 | `cSPTick++` on a ushort: adds one below 65535, wraps 65535 to 0 |
| Ticks.TruncateToByte | Assets/MovementInput.cs:174 | `(byte)x` keeps `x` when it fits in a byte, and is always congruent to `x` mod 256 |
| Ticks.SlotAliasing | Assets/MovementInput.cs:58-61 | ticks `t` and `t + 1024 (mod 65536)` share a cache slot |
| Ticks.NextAdvancesIndex | Assets/MovementInput.cs:58-61 | advancing the tick, across the wrap too, moves the slot forward by one (mod 1024) |
| Ticks.WrappedNearTicksDistinctSlots | Assets/MovementInput.cs:143 | two ticks less than 1024 apart occupy different slots, even after wrapping at 65536 |
| Records.WireInput | Assets/MovementInput.cs:87-97 | a command built from axes, the jump key and a tick has those fields and default continuation fields |
| InputWire.RecordFields | Assets/MovementInput.cs:179-182 | one command is four fields, which the decoder reads back as that command with default continuation fields |
| InputWire.EncodeRecords | Assets/MovementInput.cs:177-183 | the records of a window take exactly four fields per command |
| InputWire.InputMessage | Assets/MovementInput.cs:174-183 | the message is the count byte followed by four fields per command |
| InputWire.DecodeRecord | Assets/PlayerMovement.cs:193-199 | a record decodes iff its four fields have the kinds sbyte, sbyte, bool, ushort, and then carries exactly those values with default continuation fields |
| InputWire.Window | Assets/MovementInput.cs:177-182 | the resend window has `to - from` commands, and the k-th is the cached slot of tick `from + k` |
| InputWire.CountByte | Assets/MovementInput.cs:174 | the count byte equals the tick difference whenever that difference fits in a byte |
| InputWire.OnWire | Assets/PlayerMovement.cs:193-199 | a command with default continuation fields crosses the wire unchanged |
| InputWire.DecodeRecords | Assets/PlayerMovement.cs:191-200 | a successful decode yields exactly `n` records and consumed `4n` fields |
| InputWire.DecodeInputs | Assets/PlayerMovement.cs:188-200 | a decoded batch has a leading count byte and exactly that many records |
| InputWire.DecodeAfterEncode | Assets/PlayerMovement.cs:188-200 | decoding `n` records after encoding `rs` gives the first `n` commands as sent, or continues into what follows |
| InputWire.InputMessageDecodes | Assets/PlayerMovement.cs:188-200 | an encoded message decodes to its first `count` commands, and is rejected when the count exceeds the records |
| InputWire.WindowRoundTrip | Assets/MovementInput.cs:174-183 | a window of at most 255 ticks decodes to exactly its commands in order, and to the window itself when the continuation fields are defaults |
| InputWire.WindowCountWraps | Assets/MovementInput.cs:174-183 | past 255 ticks the count byte is the difference mod 256, fewer than the records written, and the server keeps only that prefix |
| InputWire.WindowBehindServer | Assets/MovementInput.cs:174-177 | a client behind the snapshot sends no records and a wrapped count, so the message decodes only when that byte is zero |
| Movement.JumpGate | Assets/PlayerMovement.cs:77 | the jump fires iff the jump buffer and coyote counter are both positive and `readyToJump` holds |
| Movement.JumpSpec | Assets/PlayerMovement.cs:147-153 | the jump clears the vertical velocity and the coyote counter and changes nothing else |
| Movement.MovementTickSpec | Assets/PlayerMovement.cs:63-98 | the body is one substrate step from the saved velocities, with the vertical one cleared when the gate fires; `readyToJump` survives exactly when the gate is closed; the coyote counter drops to 0 exactly when the gate opens; the saved velocities are the simulated ones |
| Movement.SetInputSpec | Assets/PlayerMovement.cs:50-61 | the jump buffer is refilled on a press and otherwise runs down by `dt`; the axes are stored; `readyToJump` never becomes true |
| Movement.CheckIfGroundedSpec | Assets/PlayerMovement.cs:100-106 | grounded is the raycast; the coyote counter is refilled when grounded and otherwise runs down by `dt`; nothing else changes |
| Movement.SetInputJumpGate | Assets/PlayerMovement.cs:57-82 | the jump fires iff the refreshed buffer, the coyote counter and `readyToJump` all allow it; firing clears both, not firing keeps both |
| Movement.StateMessage | Assets/PlayerMovement.cs:175-183 | the state message carries the given client tick |
| Movement.ApplyRange | Assets/PlayerMovement.cs:122-126 | applying inputs `lo .. hi-1` appends one broadcast per input, tagged with that input's tick in order, and keeps earlier broadcasts |
| Movement.StartOffset | Assets/PlayerMovement.cs:119 | the start index is the last received tick minus the first when the batch begins earlier, and 0 otherwise |
| Movement.Accepts | Assets/PlayerMovement.cs:110-114 | a batch is accepted only when non-empty and its newest tick is not older than the last received one; a batch whose newest tick equals it is accepted, an older one rejected |
| Movement.HandleSpec | Assets/PlayerMovement.cs:108-131 | rejected batches change nothing; accepted ones record the newest input and broadcast inputs `start .. len-2` by tick; the watermark never decreases |
| Movement.ContiguousBatchBroadcasts | Assets/PlayerMovement.cs:114-129 | a contiguous accepted batch broadcasts exactly the ticks `max(last, first) .. newest-1`, ascending |
| Movement.SuccessiveBatchesDisjoint | Assets/PlayerMovement.cs:114-129 | across two accepted contiguous batches, every tick of the second is newer than every tick of the first, so none is simulated twice |
| Movement.BatchFrom48To53AfterTick50 | Assets/PlayerMovement.cs:116-129 | with tick 50 already received, a batch of 48 .. 53 broadcasts exactly 50, 51, 52 |
| Movement.PlayerMovement.constructor | Assets/PlayerMovement.cs:16-30 | a fresh player is ready to jump with zero counters and speeds, and has broadcast nothing |
| Movement.PlayerMovement.Update | Assets/PlayerMovement.cs:45-48 | the per-frame update is one ground check |
| Movement.PlayerMovement.SetInput | Assets/PlayerMovement.cs:50-61 | the new state is `SetInputSpec` of the old one |
| Movement.PlayerMovement.MovementTick | Assets/PlayerMovement.cs:63-98 | the new state is `MovementTickSpec` of the old one |
| Movement.PlayerMovement.CheckIfGrounded | Assets/PlayerMovement.cs:100-106 | the new state is `CheckIfGroundedSpec` of the old one |
| Movement.PlayerMovement.Jump | Assets/PlayerMovement.cs:147-153 | the new state is `JumpSpec` of the old one |
| Movement.PlayerMovement.ResetJump | Assets/PlayerMovement.cs:155-158 | only `readyToJump` changes, to true |
| Movement.PlayerMovement.SendMovement | Assets/PlayerMovement.cs:175-183 | exactly one state message of the current state is broadcast |
| Movement.PlayerMovement.HandleClientInput | Assets/PlayerMovement.cs:108-131 | the loop over the array leaves the server state `HandleSpec` of the old one |
| Movement.PlayerMovement.ApplyInputs | Assets/PlayerMovement.cs:122-126 | the loop over indices `start .. Length-2` leaves the server state `ApplyRange` of the old one |
| Movement.PlayerMovement.Input | Assets/PlayerMovement.cs:185-203 | a message that decodes is handled as `HandleSpec` of its batch; any other message changes nothing |
| Movement.DecodeInput | Assets/PlayerMovement.cs:188-200 | the decoding loop succeeds iff `DecodeInputs` does, and its array holds that batch |
| Prediction.Capture | Assets/MovementInput.cs:99-109 | the captured state is the live body's pose and velocities, tagged with the tick |
| Prediction.TickSpec | Assets/MovementInput.cs:58-80 | one tick writes the polled command and the pre-step state into the tick's slots, tagged with the tick, advances the tick with wrap, and applies `SetInputSpec` |
| Prediction.TickKeepsOtherSlot | Assets/MovementInput.cs:61-67 | a tick writes no slot but its own |
| Prediction.RunTicks | Assets/MovementInput.cs:54-81 | after `n` ticks the tick is `(tick + n) mod 65536`, the snapshot and watermark are unchanged, and `readyToJump` never becomes true |
| Prediction.RunTicksRecent | Assets/MovementInput.cs:54-81 | each of the last 1024 ticks owns both its slots: its own command, and the state captured before its own simulation |
| Prediction.RunTicksTagsSlots | Assets/MovementInput.cs:61-67 | within 1024 ticks, every slot written is tagged with the tick that wrote it, across the wrap too |
| Prediction.RunTicksKeepsReachable | Assets/MovementInput.cs:61-70 | ticking keeps every cached command's continuation fields at their defaults, and the snapshot rotation at (0,0,0,0) |
| Prediction.AccumulatorSteps | Assets/MovementInput.cs:53-56 | the fixed-step loop runs `total / step` times and leaves `total mod step` in the accumulator |
| Prediction.Diverged | Assets/MovementInput.cs:121-126 | a positional error beyond 0.0001 or a rotational error beyond 0.0001 each ask for a correction; equal positions with a unit dot product do not |
| Prediction.DefaultRotationDiverges | Assets/MovementInput.cs:121-126 | against the unassigned (0,0,0,0) rotation, every cached prediction counts as diverged |
| Prediction.IdenticalStateDoesNotDiverge | Assets/MovementInput.cs:121-126 | a snapshot equal to a cached state with a unit rotation asks for no correction |
| Prediction.Correct | Assets/MovementInput.cs:129-132 | the correction sets the live position, the normalised rotation and both saved velocities from the snapshot; the body's velocities, the jump state, the counters, the axes and the caches are kept |
| Prediction.ReplayTick | Assets/MovementInput.cs:143-157 | one replayed tick rewrites its state slot with the live state tagged with that tick, then probes the ground and re-applies the axes and jump of the command cached for that tick; the command cache, tick, snapshot and watermark are unchanged |
| Prediction.ReplayTickKeepsOtherSlot | Assets/MovementInput.cs:143-152 | a replayed tick rewrites no other state slot |
| Prediction.ReplayTickIgnoresContinuation | Assets/MovementInput.cs:146-157 | the replayed movement does not depend on the cached command's `readyToJump` or counters |
| Prediction.Replay | Assets/MovementInput.cs:135-161 | the replay leaves the command cache, tick, snapshot and watermark unchanged, and an empty range is the identity |
| Prediction.ReplayRecent | Assets/MovementInput.cs:135-161 | each replayed tick `r` not later overwritten holds the state after replaying exactly `lo .. r-1`, tagged `r`: ascending order |
| Prediction.ReplayLeavesOtherSlots | Assets/MovementInput.cs:140-152 | state slots that no replayed tick maps to are untouched |
| Prediction.ReconcileSpec | Assets/MovementInput.cs:111-164 | stale snapshot: no change; otherwise the watermark becomes the snapshot tick; a diverged snapshot additionally means correct-then-replay `[snapshot, present)` |
| Prediction.ReconcileAtPresentReplaysNothing | Assets/MovementInput.cs:129-163 | a diverged snapshot not older than the present only snaps the live state and moves the watermark |
| Prediction.SnapshotAtTickZeroIgnored | Assets/MovementInput.cs:114 | a snapshot at tick 0 never passes the stale guard |
| Prediction.ReachableAlwaysReplays | Assets/MovementInput.cs:121-161 | in every reachable client, each snapshot past the guard causes a correction and a full replay |
| Prediction.ReconcileRewritesReplayedSlots | Assets/MovementInput.cs:140-161 | after a correction, each of the last 1024 replayed ticks has its state slot tagged with that tick, and the command cache is unchanged |
| Prediction.ReconcileKeepsReachable | Assets/MovementInput.cs:111-164 | reconciliation preserves the reachable-client invariant |
| Prediction.ReachableWindowRoundTrip | Assets/MovementInput.cs:174-183 | a reachable client's window of at most 255 ticks reads back on the server as exactly the cached commands |
| Prediction.DecodeStateMessage | Assets/MovementInput.cs:192-195 | a state message decodes iff it starts with a ushort and three vectors, into that tick, velocity, angular velocity and position |
| Prediction.StateMessageRoundTrip | Assets/MovementInput.cs:192-195 | the client reads back the tick, velocities and position the server wrote |
| Prediction.AcceptSnapshot | Assets/MovementInput.cs:187-204 | the snapshot is overwritten, except its rotation, iff the message decodes with a strictly newer tick; otherwise it is unchanged |
| Prediction.AcceptAll | Assets/MovementInput.cs:197-203 | over any message sequence, the snapshot tick never decreases and the rotation is never changed |
| Prediction.MovementInput.constructor | Assets/MovementInput.cs:44-48 | both caches have 1024 default slots, and tick, watermark and timer are 0 |
| Prediction.MovementInput.GetInput | Assets/MovementInput.cs:87-97 | the polled command carries the polled axes and jump key, the current tick and default continuation fields |
| Prediction.MovementInput.CurrentSimulationState | Assets/MovementInput.cs:99-109 | the captured state is the live body's pose and velocities, tagged with the current tick |
| Prediction.MovementInput.Update | Assets/MovementInput.cs:50-85 | the frame runs `(timer + dt) / step` ticks, then reconciles; the timer keeps `(timer + dt) mod step`; the reachable invariant holds; the player's server-side fields `lastReceivedInputs` and `sent` are unchanged |
| Prediction.MovementInput.SimulateTick | Assets/MovementInput.cs:61-80 | one loop iteration of `Update` is `TickSpec`; the player's server-side fields `lastReceivedInputs` and `sent` are unchanged |
| Prediction.MovementInput.Reconciliate | Assets/MovementInput.cs:111-164 | the new state is `ReconcileSpec` of the old one, and the invariant holds; the player's server-side fields `lastReceivedInputs` and `sent` are unchanged |
| Prediction.MovementInput.Rewind | Assets/MovementInput.cs:128-161 | the correction branch is `Replay(Correct(old))` over `[snapshot tick, cSPTick)`; the player's server-side fields `lastReceivedInputs` and `sent` are unchanged |
| Prediction.MovementInput.SnapToServer | Assets/MovementInput.cs:129-132 | the new state is `Correct` of the old one; the player's server-side fields `lastReceivedInputs` and `sent` are unchanged |
| Prediction.MovementInput.ResimulateTick | Assets/MovementInput.cs:143-160 | one replay iteration is `ReplayTick`; the player's server-side fields `lastReceivedInputs` and `sent` are unchanged |
| Prediction.MovementInput.SendInput | Assets/MovementInput.cs:166-185 | the message is the truncated count byte followed by the encoded window `[snapshot tick, cSPTick)` |
| Prediction.MovementInput.GetPlayerMovement | Assets/MovementInput.cs:187-204 | the stored snapshot becomes `AcceptSnapshot` of the old one; nothing else changes |

## Left out

- Floating point:
  - single-precision rounding is not modelled;
  - `Vector3.Distance` is compared through its square, over exact reals;
  - durations are exact integer microseconds rather than `float` seconds.
- Physics and Unity engine state:
  - `Physics.Simulate`, the speed cap, the drag, the movement and jump forces and the fall gravity are one caller-supplied `simulate` function of the body and the stored inputs;
  - the ground raycast is a caller-supplied `raycast`;
  - in `MovementTick` the vertical velocity is cleared before the speed cap and drag run. The source runs them in the other order, but the cap reads and writes only the horizontal components and the jump only the vertical one, so the two orders agree;
  - toggling `isKinematic`, `collisionDetectionMode` and `Physics.autoSimulation`, and `Awake`/`Start`, have no effect on the modelled state.
- The jump cooldown: `Invoke("ResetJump", jumpCooldown)` is Unity's scheduler. `ResetJump` is a separate operation that the environment may call at any time.
- Input polling: the axes and jump key (`GetAxisRaw`, `GetKey`) are parameters of `Update`, polled once per frame.
- Random packet loss and the `Invoke` delay around `SendInput`:
  - `SendInput` is a read-only method returning the message it would send;
  - the tick loop does not call it, because when the delayed call runs depends on the scheduler;
  - a message that is never delivered is simply never given to `Input`.
- Transport and scheduling:
  - Riptide's byte layout, message ids, `Send`/`SendToAll` delivery and the `PlayerController` singleton are not modelled;
  - a message is a sequence of typed fields;
  - `Input` and `GetPlayerMovement` act on the one player they are given.
- A malformed or short message: Riptide logs an error and reads default values. The model rejects such a message as `None` and leaves the state unchanged.
- Null cache slots:
  - slots never written are modelled as default records, where the source's `null` would throw on the fields being read;
  - the `serverSimulationState != null` test is always true.
- The `print` diagnostic in `HandleClientInput` is left out.
- `NetworkManager`, `MovementSettings` and `PlayerController` are not part of this model. The two settings the core reads (`coyoteTime` and `jumpBufferTime`) are a `Settings` parameter, and the step length (`minTimeBetweenTicks`) is a parameter of `Update`.
- Helper methods: parts of some source methods are written as separate methods. These keep each proof small and are not extra entry points.
  - From `MovementInput.Update` and `Reconciliate`: the loop bodies and the correction branch, as `SimulateTick`, `Rewind`, `SnapToServer` and `ResimulateTick`.
  - From `HandleClientInput`: the loop, as `ApplyInputs`.
