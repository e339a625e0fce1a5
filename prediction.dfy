/** Assets/MovementInput.cs: the client's fixed-step tick loop, the two
    1024-slot history caches, reconciliation against the authoritative
    snapshot (rewind and replay), the redundant input window it sends, and the
    acceptance of state messages from the server. */
module Prediction {
  import opened Ticks
  import opened Records
  import opened Movement
  import InputWire

  /** The value of a `MovementInput` and its `PlayerMovement`, minus the timer. */
  datatype ClientState = ClientState(
    tick: ushort,
    inputs: seq<ClientInputState>,
    states: seq<SimulationState>,
    server: SimulationState,
    lastCorrected: int,
    mover: MoverState)

  predicate WellFormed(c: ClientState) {
    |c.inputs| == StateCacheSize && |c.states| == StateCacheSize && 0 <= c.lastCorrected < TickRange
  }

  /** What every reachable client satisfies: the stored snapshot's rotation is
      still the default (0, 0, 0, 0), because nothing ever assigns it, and every
      cached command has default continuation fields, because `GetInput` never
      fills them. */
  predicate Reachable(c: ClientState) {
    WellFormed(c) && c.server.rotation == ZeroQuat &&
    forall j :: 0 <= j < StateCacheSize ==> DefaultContinuation(c.inputs[j])
  }

  function InitialClient(m: MoverState): ClientState {
    ClientState(0, seq(StateCacheSize, _ => EmptyInput), seq(StateCacheSize, _ => EmptySimulationState),
                EmptySimulationState, 0, m)
  }

  /** `CurrentSimulationState`, tagged with `tick`. */
  function Capture(rb: Body, tick: ushort): (s: SimulationState)
    ensures s.currentTick == tick && s.position == rb.position && s.rotation == rb.rotation
    ensures s.velocity == rb.velocity && s.angularVelocity == rb.angularVelocity
  {
    SimulationState(rb.position, rb.rotation, rb.velocity, rb.angularVelocity, tick)
  }

  /** One iteration of the tick loop in `Update`. */
  function TickSpec(c: ClientState, horizontal: sbyte, vertical: sbyte, jump: bool,
                    dt: int, settings: Settings, phys: Substrate): (r: ClientState)
    requires WellFormed(c)
    ensures WellFormed(r)
    ensures var i := CacheIndex(c.tick as int);
      && r.inputs[i] == WireInput(horizontal, vertical, jump, c.tick)
      && r.states[i] == Capture(c.mover.rb, c.tick)
      && r.states[i].currentTick == c.tick
    ensures r.tick == Next(c.tick)
    ensures r.mover == SetInputSpec(c.mover, horizontal, vertical, jump, dt, settings, phys)
    ensures r.server == c.server && r.lastCorrected == c.lastCorrected
  {
    var i := CacheIndex(c.tick as int);
    c.(tick := Next(c.tick),
       inputs := c.inputs[i := WireInput(horizontal, vertical, jump, c.tick)],
       states := c.states[i := Capture(c.mover.rb, c.tick)],
       mover := SetInputSpec(c.mover, horizontal, vertical, jump, dt, settings, phys))
  }

  /** `n` iterations of the tick loop, with the input polled once per frame. */
  function RunTicks(c: ClientState, n: nat, horizontal: sbyte, vertical: sbyte, jump: bool,
                    dt: int, settings: Settings, phys: Substrate): (r: ClientState)
    requires WellFormed(c)
    ensures WellFormed(r)
    ensures r.tick as int == (c.tick as int + n) % TickRange
    ensures r.server == c.server && r.lastCorrected == c.lastCorrected
    ensures r.mover.readyToJump ==> c.mover.readyToJump
    decreases n
  {
    if n == 0 then c
    else
      NextOfWrapped(c.tick as int + n - 1);
      TickSpec(RunTicks(c, n - 1, horizontal, vertical, jump, dt, settings, phys),
               horizontal, vertical, jump, dt, settings, phys)
  }

  /** After `n` ticks each of the last 1024 ticks `t` owns its slot: the input
      slot holds the command polled at `t`, and the state slot holds the state
      captured at the start of `t`, before that tick's simulation. */
  lemma {:induction false} RunTicksRecent(c: ClientState, n: nat, k: nat, horizontal: sbyte, vertical: sbyte,
                                          jump: bool, dt: int, settings: Settings, phys: Substrate)
    requires WellFormed(c)
    requires k < n <= k + StateCacheSize
    ensures OwnsSlot(c, n, k, horizontal, vertical, jump, dt, settings, phys)
    decreases n
  {
    if k < n - 1 {
      RunTicksRecent(c, n - 1, k, horizontal, vertical, jump, dt, settings, phys);
      RunTicksRecentStep(c, n, k, horizontal, vertical, jump, dt, settings, phys);
    }
  }

  /** After `n` ticks from `c`, the slots of tick number `k` (counted from
      `c.tick`) hold what was written at that tick. */
  predicate OwnsSlot(c: ClientState, n: nat, k: nat, horizontal: sbyte, vertical: sbyte,
                     jump: bool, dt: int, settings: Settings, phys: Substrate)
    requires WellFormed(c)
  {
    var t := ((c.tick as int + k) % TickRange) as ushort;
    var r := RunTicks(c, n, horizontal, vertical, jump, dt, settings, phys);
    && r.inputs[CacheIndex(t as int)] == WireInput(horizontal, vertical, jump, t)
    && r.states[CacheIndex(t as int)] == Capture(RunTicks(c, k, horizontal, vertical, jump, dt, settings, phys).mover.rb, t)
  }

  lemma RunTicksRecentStep(c: ClientState, n: nat, k: nat, horizontal: sbyte, vertical: sbyte,
                           jump: bool, dt: int, settings: Settings, phys: Substrate)
    requires WellFormed(c)
    requires k < n - 1 && n <= k + StateCacheSize
    requires OwnsSlot(c, n - 1, k, horizontal, vertical, jump, dt, settings, phys)
    ensures OwnsSlot(c, n, k, horizontal, vertical, jump, dt, settings, phys)
  {
    var t := ((c.tick as int + k) % TickRange) as ushort;
    var p := RunTicks(c, n - 1, horizontal, vertical, jump, dt, settings, phys);
    WrappedNearTicksDistinctSlots(c.tick as int + k, c.tick as int + n - 1);
    var last := (c.tick as int + (n - 1)) % TickRange;
    assert p.tick as int == last;
    assert CacheIndex(t as int) != CacheIndex(last);
    TickKeepsOtherSlot(p, CacheIndex(t as int), horizontal, vertical, jump, dt, settings, phys);
  }

  lemma TickKeepsOtherSlot(p: ClientState, j: int, horizontal: sbyte, vertical: sbyte, jump: bool,
                           dt: int, settings: Settings, phys: Substrate)
    requires WellFormed(p) && 0 <= j < StateCacheSize && j != CacheIndex(p.tick as int)
    ensures var r := TickSpec(p, horizontal, vertical, jump, dt, settings, phys);
            r.inputs[j] == p.inputs[j] && r.states[j] == p.states[j]
  {
  }

  /** A corollary: when fewer than 1024 ticks have run, wrap or no wrap, the
      slot of every tick written in the run is tagged with that tick. */
  lemma RunTicksTagsSlots(c: ClientState, n: nat, k: nat, horizontal: sbyte, vertical: sbyte,
                          jump: bool, dt: int, settings: Settings, phys: Substrate)
    requires WellFormed(c)
    requires k < n <= StateCacheSize
    ensures var t := (c.tick as int + k) % TickRange;
            var r := RunTicks(c, n, horizontal, vertical, jump, dt, settings, phys);
            r.inputs[CacheIndex(t)].currentTick as int == t && r.states[CacheIndex(t)].currentTick as int == t
  {
    RunTicksRecent(c, n, k, horizontal, vertical, jump, dt, settings, phys);
    var t := ((c.tick as int + k) % TickRange) as ushort;
    var r := RunTicks(c, n, horizontal, vertical, jump, dt, settings, phys);
    var rb := RunTicks(c, k, horizontal, vertical, jump, dt, settings, phys).mover.rb;
    assert r.inputs[CacheIndex(t as int)] == WireInput(horizontal, vertical, jump, t);
    assert r.states[CacheIndex(t as int)] == Capture(rb, t);
  }

  /** The fixed-step accumulator: when `total` time is consumed in steps of
      `step` until less than a step remains, the number of steps is
      `total / step` and what remains is `total % step`. */
  lemma AccumulatorSteps(total: int, step: int, n: nat, rest: int)
    requires step > 0 && 0 <= rest < step && total == n * step + rest
    ensures n == total / step && rest == total % step
  {
    var q := total / step;
    var m := total % step;
    assert total == q * step + m;
    assert (n - q) * step == m - rest;
    if n - q >= 1 {
      MulAtLeastFactor(n - q, step);
    } else if q - n >= 1 {
      MulAtLeastFactor(q - n, step);
    }
  }

  lemma MulAtLeastFactor(x: int, step: int)
    requires step > 0 && x >= 1
    ensures x * step >= step
  {
  }

  lemma MulSucc(n: int, step: int)
    ensures (n + 1) * step == n * step + step
  {
  }

  /** The divergence threshold of `Reconciliate`. */
  const Epsilon: real := 0.0001

  function Dot(a: Quat, b: Quat): real {
    a.x * b.x + a.y * b.y + a.z * b.z + a.w * b.w
  }

  function SqDistance(a: Vec3, b: Vec3): real {
    (a.x - b.x) * (a.x - b.x) + (a.y - b.y) * (a.y - b.y) + (a.z - b.z) * (a.z - b.z)
  }

  /** `posDif > 0.0001f || rotDif > 0.0001f`, with the distance compared through
      its square (exact over the reals, since both sides are non-negative). */
  predicate Diverged(cached: SimulationState, server: SimulationState): (d: bool)
    ensures SqDistance(cached.position, server.position) > Epsilon * Epsilon ==> d
    ensures 1.0 - Dot(server.rotation, cached.rotation) > Epsilon ==> d
    ensures cached.position == server.position && Dot(server.rotation, cached.rotation) == 1.0 ==> !d
  {
    SqDistance(cached.position, server.position) > Epsilon * Epsilon ||
    1.0 - Dot(server.rotation, cached.rotation) > Epsilon
  }

  /** The snapshot's rotation is never assigned, so against the default
      quaternion the rotational error is 1 whatever was predicted, and the
      divergence test always asks for a correction. */
  lemma DefaultRotationDiverges(cached: SimulationState, server: SimulationState)
    requires server.rotation == ZeroQuat
    ensures Diverged(cached, server)
  {
    assert Dot(server.rotation, cached.rotation) == 0.0;
  }

  /** A snapshot identical to the cached prediction asks for no correction. */
  lemma IdenticalStateDoesNotDiverge(s: SimulationState)
    requires Dot(s.rotation, s.rotation) == 1.0
    ensures !Diverged(s, s)
  {
  }

  /** The correction before the replay: the live pose and the saved velocities
      take the snapshot's values, the rotation normalised. */
  function Correct(c: ClientState, phys: Substrate): (r: ClientState)
    ensures r.mover.rb.position == c.server.position && r.mover.rb.rotation == phys.normalize(c.server.rotation)
    ensures r.mover.speed == c.server.velocity && r.mover.angularSpeed == c.server.angularVelocity
    ensures r.mover.rb.velocity == c.mover.rb.velocity && r.mover.rb.angularVelocity == c.mover.rb.angularVelocity
    ensures r.mover == c.mover.(rb := r.mover.rb, speed := r.mover.speed, angularSpeed := r.mover.angularSpeed)
    ensures r == c.(mover := r.mover)
  {
    c.(mover := c.mover.(rb := c.mover.rb.(position := c.server.position, rotation := phys.normalize(c.server.rotation)),
                         speed := c.server.velocity, angularSpeed := c.server.angularVelocity))
  }

  /** One iteration of the replay loop at `rewindTick`: the state slot gets the
      live state tagged `rewindTick`, then the ground is probed and the cached
      command is applied again (its continuation fields are not restored). */
  function ReplayTick(c: ClientState, rewindTick: ushort, dt: int, settings: Settings, phys: Substrate): (r: ClientState)
    requires WellFormed(c)
    ensures WellFormed(r)
    ensures var i := CacheIndex(rewindTick as int);
      && r.states[i] == Capture(c.mover.rb, rewindTick)
    ensures r.inputs == c.inputs && r.tick == c.tick && r.server == c.server && r.lastCorrected == c.lastCorrected
    ensures var cached := c.inputs[CacheIndex(rewindTick as int)];
            r.mover == SetInputSpec(CheckIfGroundedSpec(c.mover, dt, settings, phys),
                                    cached.horizontal, cached.vertical, cached.jump, dt, settings, phys)
    ensures r.mover.readyToJump ==> c.mover.readyToJump
  {
    var i := CacheIndex(rewindTick as int);
    var cached := c.inputs[i];
    var grounded := CheckIfGroundedSpec(c.mover, dt, settings, phys);
    c.(states := c.states[i := Capture(c.mover.rb, rewindTick)],
       mover := SetInputSpec(grounded, cached.horizontal, cached.vertical, cached.jump, dt, settings, phys))
  }

  /** A replayed tick rewrites only its own state slot. */
  lemma ReplayTickKeepsOtherSlot(c: ClientState, rewindTick: ushort, j: int, dt: int, settings: Settings, phys: Substrate)
    requires WellFormed(c) && 0 <= j < StateCacheSize && j != CacheIndex(rewindTick as int)
    ensures ReplayTick(c, rewindTick, dt, settings, phys).states[j] == c.states[j]
  {
  }

  /** The replay re-applies only the axes and the jump key of the cached
      command: whatever its `readyToJump` and counter fields hold, the
      re-simulated movement state is the same. */
  lemma ReplayTickIgnoresContinuation(c: ClientState, rewindTick: ushort, ready: bool, coyote: int, buffer: int,
                                      dt: int, settings: Settings, phys: Substrate)
    requires WellFormed(c)
    ensures var i := CacheIndex(rewindTick as int);
            var other := c.(inputs := c.inputs[i := c.inputs[i].(readyToJump := ready, coyoteTimeCounter := coyote,
                                                                 jumpBufferCounter := buffer)]);
            ReplayTick(other, rewindTick, dt, settings, phys).mover == ReplayTick(c, rewindTick, dt, settings, phys).mover
  {
  }

  /** The replay loop over the ticks `lo .. hi - 1`, ascending. */
  function Replay(c: ClientState, lo: int, hi: int, dt: int, settings: Settings, phys: Substrate): (r: ClientState)
    requires WellFormed(c) && 0 <= lo && hi <= TickRange
    ensures WellFormed(r)
    ensures r.inputs == c.inputs && r.tick == c.tick && r.server == c.server && r.lastCorrected == c.lastCorrected
    ensures r.mover.readyToJump ==> c.mover.readyToJump
    ensures hi <= lo ==> r == c
    decreases hi - lo
  {
    if hi <= lo then c
    else ReplayTick(Replay(c, lo, hi - 1, dt, settings, phys), (hi - 1) as ushort, dt, settings, phys)
  }

  lemma ReplayUnfold(c: ClientState, lo: int, hi: int, dt: int, settings: Settings, phys: Substrate)
    requires WellFormed(c) && 0 <= lo <= hi < TickRange
    ensures Replay(c, lo, hi + 1, dt, settings, phys)
            == ReplayTick(Replay(c, lo, hi, dt, settings, phys), hi as ushort, dt, settings, phys)
  {
  }

  /** Every tick `r` of the replayed range whose slot was not overwritten
      later in the loop holds the state captured before re-simulating `r`,
      that is, after replaying exactly the ticks `lo .. r - 1`; so the slot is
      tagged with `r` and the ticks were visited in ascending order. */
  lemma {:induction false} ReplayRecent(c: ClientState, lo: int, hi: int, r: int,
                                        dt: int, settings: Settings, phys: Substrate)
    requires WellFormed(c) && 0 <= lo <= r < hi <= TickRange && hi <= r + StateCacheSize
    ensures Replay(c, lo, hi, dt, settings, phys).states[CacheIndex(r)]
            == Capture(Replay(c, lo, r, dt, settings, phys).mover.rb, r as ushort)
    ensures Replay(c, lo, hi, dt, settings, phys).states[CacheIndex(r)].currentTick as int == r
    decreases hi - lo
  {
    if r < hi - 1 {
      ReplayRecent(c, lo, hi - 1, r, dt, settings, phys);
      ReplayRecentStep(c, lo, hi, r, dt, settings, phys);
    } else {
      ReplayUnfold(c, lo, r, dt, settings, phys);
    }
  }

  lemma ReplayRecentStep(c: ClientState, lo: int, hi: int, r: int, dt: int, settings: Settings, phys: Substrate)
    requires WellFormed(c) && 0 <= lo <= r < hi - 1 && hi <= TickRange && hi <= r + StateCacheSize
    requires Replay(c, lo, hi - 1, dt, settings, phys).states[CacheIndex(r)]
             == Capture(Replay(c, lo, r, dt, settings, phys).mover.rb, r as ushort)
    ensures Replay(c, lo, hi, dt, settings, phys).states[CacheIndex(r)]
            == Capture(Replay(c, lo, r, dt, settings, phys).mover.rb, r as ushort)
  {
    var p := Replay(c, lo, hi - 1, dt, settings, phys);
    NearTicksDistinctSlots(r, hi - 1);
    ReplayTickKeepsOtherSlot(p, (hi - 1) as ushort, CacheIndex(r), dt, settings, phys);
  }

  /** Slots that no tick of the range maps to are left as they were. */
  lemma {:induction false} ReplayLeavesOtherSlots(c: ClientState, lo: int, hi: int, j: int,
                                                  dt: int, settings: Settings, phys: Substrate)
    requires WellFormed(c) && 0 <= lo && hi <= TickRange && 0 <= j < StateCacheSize
    requires hi - lo < StateCacheSize
    requires lo < hi ==> (j - lo) % StateCacheSize >= hi - lo
    ensures Replay(c, lo, hi, dt, settings, phys).states[j] == c.states[j]
    decreases hi - lo
  {
    if lo < hi {
      ReplayLeavesOtherSlots(c, lo, hi - 1, j, dt, settings, phys);
      SlotOfRangeEnd(lo, hi - 1, j);
      ReplayTickKeepsOtherSlot(Replay(c, lo, hi - 1, dt, settings, phys), (hi - 1) as ushort, j, dt, settings, phys);
    }
  }

  lemma SlotOfRangeEnd(lo: int, last: int, j: int)
    requires 0 <= lo <= last < lo + StateCacheSize && 0 <= j < StateCacheSize
    requires (j - lo) % StateCacheSize > last - lo
    ensures CacheIndex(last) != j
  {
  }

  /** `Reconciliate`. */
  function ReconcileSpec(c: ClientState, dt: int, settings: Settings, phys: Substrate): (r: ClientState)
    requires WellFormed(c)
    ensures WellFormed(r)
    ensures c.server.currentTick as int <= c.lastCorrected ==> r == c
    ensures c.server.currentTick as int > c.lastCorrected ==> r.lastCorrected == c.server.currentTick as int
    ensures r.lastCorrected >= c.lastCorrected
    ensures r.inputs == c.inputs && r.tick == c.tick && r.server == c.server
    ensures r.mover.readyToJump ==> c.mover.readyToJump
    ensures c.server.currentTick as int > c.lastCorrected && !Diverged(c.states[CacheIndex(c.server.currentTick as int)], c.server)
            ==> r == c.(lastCorrected := c.server.currentTick as int)
    ensures c.server.currentTick as int > c.lastCorrected && Diverged(c.states[CacheIndex(c.server.currentTick as int)], c.server)
            ==> r == Replay(Correct(c, phys), c.server.currentTick as int, c.tick as int, dt, settings, phys)
                     .(lastCorrected := c.server.currentTick as int)
  {
    if c.server.currentTick as int <= c.lastCorrected then c
    else
      var cached := c.states[CacheIndex(c.server.currentTick as int)];
      var corrected := if Diverged(cached, c.server)
        then Replay(Correct(c, phys), c.server.currentTick as int, c.tick as int, dt, settings, phys)
        else c;
      corrected.(lastCorrected := c.server.currentTick as int)
  }

  /** A correction whose snapshot is not older than the present tick replays
      nothing: only the live state and the watermark change. */
  lemma ReconcileAtPresentReplaysNothing(c: ClientState, dt: int, settings: Settings, phys: Substrate)
    requires WellFormed(c)
    requires c.server.currentTick as int > c.lastCorrected && c.server.currentTick >= c.tick
    requires Diverged(c.states[CacheIndex(c.server.currentTick as int)], c.server)
    ensures ReconcileSpec(c, dt, settings, phys) == Correct(c, phys).(lastCorrected := c.server.currentTick as int)
  {
  }

  /** Because `lastCorrectedFrame` starts at 0 and the guard is `<=`, a snapshot
      at tick 0 is never processed. */
  lemma SnapshotAtTickZeroIgnored(c: ClientState, dt: int, settings: Settings, phys: Substrate)
    requires WellFormed(c) && c.server.currentTick == 0
    ensures ReconcileSpec(c, dt, settings, phys) == c
  {
  }

  /** In every reachable client, a snapshot that passes the stale guard always
      causes a correction and the replay of `[snapshot tick, present tick)`,
      whatever its position. */
  lemma ReachableAlwaysReplays(c: ClientState, dt: int, settings: Settings, phys: Substrate)
    requires Reachable(c) && c.server.currentTick as int > c.lastCorrected
    ensures ReconcileSpec(c, dt, settings, phys)
            == Replay(Correct(c, phys), c.server.currentTick as int, c.tick as int, dt, settings, phys)
               .(lastCorrected := c.server.currentTick as int)
  {
    DefaultRotationDiverges(c.states[CacheIndex(c.server.currentTick as int)], c.server);
  }

  /** After a correction, every replayed tick `r` in the last 1024 of
      `[snapshot tick, present tick)` has its state slot tagged `r`, while the
      command cache is untouched. */
  lemma ReconcileRewritesReplayedSlots(c: ClientState, r: int, dt: int, settings: Settings, phys: Substrate)
    requires WellFormed(c) && c.server.currentTick as int > c.lastCorrected
    requires Diverged(c.states[CacheIndex(c.server.currentTick as int)], c.server)
    requires c.server.currentTick as int <= r < c.tick as int <= r + StateCacheSize
    ensures ReconcileSpec(c, dt, settings, phys).states[CacheIndex(r)].currentTick as int == r
    ensures ReconcileSpec(c, dt, settings, phys).inputs == c.inputs
  {
    ReplayRecent(Correct(c, phys), c.server.currentTick as int, c.tick as int, r, dt, settings, phys);
  }

  lemma {:induction false} RunTicksKeepsReachable(c: ClientState, n: nat, horizontal: sbyte, vertical: sbyte,
                                                  jump: bool, dt: int, settings: Settings, phys: Substrate)
    requires Reachable(c)
    ensures Reachable(RunTicks(c, n, horizontal, vertical, jump, dt, settings, phys))
    decreases n
  {
    if n > 0 {
      RunTicksKeepsReachable(c, n - 1, horizontal, vertical, jump, dt, settings, phys);
      var p := RunTicks(c, n - 1, horizontal, vertical, jump, dt, settings, phys);
      var r := TickSpec(p, horizontal, vertical, jump, dt, settings, phys);
      forall j | 0 <= j < StateCacheSize ensures DefaultContinuation(r.inputs[j]) {
        if j != CacheIndex(p.tick as int) {
          TickKeepsOtherSlot(p, j, horizontal, vertical, jump, dt, settings, phys);
        }
      }
    }
  }

  lemma ReconcileKeepsReachable(c: ClientState, dt: int, settings: Settings, phys: Substrate)
    requires Reachable(c)
    ensures Reachable(ReconcileSpec(c, dt, settings, phys))
  {
  }

  /** The resend window of a reachable client reads back on the server as
      exactly the cached commands of `[snapshot tick, present tick)`, as long
      as that window has at most 255 ticks. */
  lemma ReachableWindowRoundTrip(c: ClientState)
    requires Reachable(c)
    requires c.server.currentTick <= c.tick && c.tick as int - c.server.currentTick as int <= 255
    ensures var w := InputWire.Window(c.inputs, c.server.currentTick as int, c.tick as int);
            InputWire.DecodeInputs(InputWire.InputMessage(InputWire.CountByte(c.server.currentTick, c.tick), w)) == Some(w)
  {
    InputWire.WindowRoundTrip(c.inputs, c.server.currentTick, c.tick);
  }

  /** A decoded server-to-client state message. */
  datatype Snapshot = Snapshot(tick: ushort, velocity: Vec3, angularVelocity: Vec3, position: Vec3)

  /** `GetUShort`, then three `GetVector3`. */
  function DecodeStateMessage(msg: seq<Field>): (r: Option<Snapshot>)
    ensures r.Some? <==> |msg| >= 4 && msg[0].UShortField? && msg[1].Vector3Field? && msg[2].Vector3Field?
                         && msg[3].Vector3Field?
    ensures r.Some? ==> r.value.tick as int == MessageTick(msg) && r.value.velocity == msg[1].v
                        && r.value.angularVelocity == msg[2].v && r.value.position == msg[3].v
  {
    if |msg| >= 4 && msg[0].UShortField? && msg[1].Vector3Field? && msg[2].Vector3Field? && msg[3].Vector3Field?
    then Some(Snapshot(msg[0].u, msg[1].v, msg[2].v, msg[3].v))
    else None
  }

  /** The server's `SendMovement` message reads back as the tick, the saved
      velocities and the position it was built from. */
  lemma StateMessageRoundTrip(clientTick: ushort, m: MoverState)
    ensures DecodeStateMessage(StateMessage(clientTick, m))
            == Some(Snapshot(clientTick, m.speed, m.angularSpeed, m.rb.position))
  {
  }

  /** `GetPlayerMovement`: the stored snapshot is overwritten, except for its
      rotation, only by a message whose tick is strictly newer. */
  function AcceptSnapshot(server: SimulationState, msg: seq<Field>): (r: SimulationState)
    ensures r.rotation == server.rotation
    ensures r.currentTick >= server.currentTick
    ensures DecodeStateMessage(msg).Some? && DecodeStateMessage(msg).value.tick > server.currentTick ==>
      var s := DecodeStateMessage(msg).value;
      r.currentTick == s.tick && r.velocity == s.velocity && r.angularVelocity == s.angularVelocity && r.position == s.position
    ensures !(DecodeStateMessage(msg).Some? && DecodeStateMessage(msg).value.tick > server.currentTick) ==> r == server
  {
    match DecodeStateMessage(msg)
    case Some(s) =>
      if s.tick > server.currentTick
      then server.(velocity := s.velocity, angularVelocity := s.angularVelocity, position := s.position, currentTick := s.tick)
      else server
    case None => server
  }

  /** The stored snapshot tick never decreases over any sequence of messages. */
  function AcceptAll(server: SimulationState, msgs: seq<seq<Field>>): (r: SimulationState)
    ensures r.currentTick >= server.currentTick && r.rotation == server.rotation
    decreases |msgs|
  {
    if msgs == [] then server else AcceptSnapshot(AcceptAll(server, msgs[..|msgs| - 1]), msgs[|msgs| - 1])
  }

  class MovementInput {
    var cSPTick: ushort
    const simulationStateCache: array<SimulationState>
    const inputStateCache: array<ClientInputState>
    var serverSimulationState: SimulationState
    var lastCorrectedFrame: int
    /** The fixed-step accumulator, in microseconds. */
    var timer: int
    const playerMovement: PlayerMovement

    function Model(): ClientState
      reads this, inputStateCache, simulationStateCache, playerMovement
    {
      ClientState(cSPTick, inputStateCache[..], simulationStateCache[..], serverSimulationState,
                  lastCorrectedFrame, playerMovement.State())
    }

    ghost predicate Valid()
      reads this, inputStateCache, simulationStateCache, playerMovement
    {
      inputStateCache.Length == StateCacheSize && simulationStateCache.Length == StateCacheSize &&
      timer >= 0 && Reachable(Model())
    }

    constructor (playerMovement: PlayerMovement)
      ensures Valid() && fresh(inputStateCache) && fresh(simulationStateCache)
      ensures Model() == InitialClient(playerMovement.State()) && timer == 0
      ensures this.playerMovement == playerMovement
    {
      cSPTick := 0;
      simulationStateCache := new SimulationState[StateCacheSize](_ => EmptySimulationState);
      inputStateCache := new ClientInputState[StateCacheSize](_ => EmptyInput);
      serverSimulationState := EmptySimulationState;
      lastCorrectedFrame := 0;
      timer := 0;
      this.playerMovement := playerMovement;
      new;
      assert inputStateCache[..] == seq(StateCacheSize, _ => EmptyInput);
      assert simulationStateCache[..] == seq(StateCacheSize, _ => EmptySimulationState);
    }

    /** The command of the current tick, from the axes and key polled this frame. */
    function GetInput(horizontal: sbyte, vertical: sbyte, jump: bool): (i: ClientInputState)
      reads this
      ensures i.currentTick == cSPTick && DefaultContinuation(i)
      ensures i.horizontal == horizontal && i.vertical == vertical && i.jump == jump
    {
      WireInput(horizontal, vertical, jump, cSPTick)
    }

    function CurrentSimulationState(): (s: SimulationState)
      reads this, playerMovement
      ensures s.currentTick == cSPTick
      ensures s == Capture(playerMovement.rb, cSPTick)
    {
      Capture(playerMovement.rb, cSPTick)
    }

    /** Unity's per-frame `Update`: `dt` is `Time.deltaTime`, `step` the fixed
        tick length, and the axes and jump key are what was polled this frame. */
    method Update(dt: int, step: int, horizontal: sbyte, vertical: sbyte, jump: bool,
                  settings: Settings, phys: Substrate)
      requires Valid() && dt >= 0 && step > 0
      modifies this, inputStateCache, simulationStateCache, playerMovement
      ensures Valid()
      ensures timer == (old(timer) + dt) % step && 0 <= timer < step
      ensures Model() == ReconcileSpec(RunTicks(old(Model()), (old(timer) + dt) / step, horizontal, vertical, jump,
                                                dt, settings, phys), dt, settings, phys)
      ensures playerMovement.lastReceivedInputs == old(playerMovement.lastReceivedInputs) && playerMovement.sent == old(playerMovement.sent)
    {
      ghost var start := Model();
      ghost var total := timer + dt;
      ghost var n: nat := 0;
      ghost var consumed := 0;
      ghost var ticked := start;
      timer := timer + dt;
      while timer >= step
        invariant inputStateCache.Length == StateCacheSize && simulationStateCache.Length == StateCacheSize
        invariant total == consumed + timer && consumed == n * step && timer >= 0
        invariant playerMovement.lastReceivedInputs == old(playerMovement.lastReceivedInputs) && playerMovement.sent == old(playerMovement.sent)
        invariant Model() == ticked && ticked == RunTicks(start, n, horizontal, vertical, jump, dt, settings, phys)
        decreases timer
      {
        timer := timer - step;
        SimulateTick(horizontal, vertical, jump, dt, settings, phys);
        ticked := TickSpec(ticked, horizontal, vertical, jump, dt, settings, phys);
        MulSucc(n, step);
        consumed := consumed + step;
        n := n + 1;
      }
      RunTicksKeepsReachable(start, n, horizontal, vertical, jump, dt, settings, phys);
      AccumulatorSteps(total, step, n, timer);
      ghost var q := total / step;
      assert q == n && ticked == RunTicks(start, q, horizontal, vertical, jump, dt, settings, phys);
      Reconciliate(dt, settings, phys);
      assert Model() == ReconcileSpec(ticked, dt, settings, phys);
      assert total == old(timer) + dt && start == old(Model());
    }

    /** One iteration of the tick loop of `Update`: cache the command and the
        state of tick `cSPTick`, simulate the command, advance the tick. */
    method SimulateTick(horizontal: sbyte, vertical: sbyte, jump: bool, dt: int, settings: Settings, phys: Substrate)
      requires inputStateCache.Length == StateCacheSize && simulationStateCache.Length == StateCacheSize
      requires 0 <= lastCorrectedFrame < TickRange
      modifies this, inputStateCache, simulationStateCache, playerMovement
      ensures Model() == TickSpec(old(Model()), horizontal, vertical, jump, dt, settings, phys)
      ensures timer == old(timer)
      ensures playerMovement.lastReceivedInputs == old(playerMovement.lastReceivedInputs) && playerMovement.sent == old(playerMovement.sent)
    {
      ghost var before := Model();
      var cacheIndex := cSPTick as int % StateCacheSize;
      inputStateCache[cacheIndex] := GetInput(horizontal, vertical, jump);
      simulationStateCache[cacheIndex] := CurrentSimulationState();
      assert inputStateCache[..] == before.inputs[cacheIndex := WireInput(horizontal, vertical, jump, before.tick)];
      assert simulationStateCache[..] == before.states[cacheIndex := Capture(before.mover.rb, before.tick)];
      playerMovement.SetInput(inputStateCache[cacheIndex].horizontal, inputStateCache[cacheIndex].vertical,
                              inputStateCache[cacheIndex].jump, dt, settings, phys);
      // `Update` would then schedule `SendInput` (below), after a simulated
      // loss check and with a delay.
      cSPTick := Next(cSPTick);
    }

    method Reconciliate(dt: int, settings: Settings, phys: Substrate)
      requires Valid()
      modifies this, simulationStateCache, playerMovement
      ensures Valid() && timer == old(timer)
      ensures Model() == ReconcileSpec(old(Model()), dt, settings, phys)
      ensures playerMovement.lastReceivedInputs == old(playerMovement.lastReceivedInputs) && playerMovement.sent == old(playerMovement.sent)
    {
      ghost var c0 := Model();
      ReconcileKeepsReachable(c0, dt, settings, phys);
      if serverSimulationState.currentTick as int <= lastCorrectedFrame { return; }
      var cacheIndex := serverSimulationState.currentTick as int % StateCacheSize;
      var cachedSimulationState := simulationStateCache[cacheIndex];
      if Diverged(cachedSimulationState, serverSimulationState) {
        Rewind(dt, settings, phys);
      }
      lastCorrectedFrame := serverSimulationState.currentTick as int;
    }

    /** The body of the correction branch of `Reconciliate`: snap the live
        state to the snapshot, then re-simulate every cached command from the
        snapshot's tick up to the present tick. */
    method Rewind(dt: int, settings: Settings, phys: Substrate)
      requires inputStateCache.Length == StateCacheSize && simulationStateCache.Length == StateCacheSize
      requires 0 <= lastCorrectedFrame < TickRange
      modifies simulationStateCache, playerMovement
      ensures Model() == Replay(Correct(old(Model()), phys), serverSimulationState.currentTick as int, cSPTick as int,
                                dt, settings, phys)
      ensures playerMovement.lastReceivedInputs == old(playerMovement.lastReceivedInputs) && playerMovement.sent == old(playerMovement.sent)
    {
      SnapToServer(phys);
      ghost var corrected := Model();
      var rewindTick := serverSimulationState.currentTick;
      ghost var replayed := corrected;
      while rewindTick < cSPTick
        invariant serverSimulationState.currentTick <= rewindTick
        invariant rewindTick == serverSimulationState.currentTick || rewindTick <= cSPTick
        invariant playerMovement.lastReceivedInputs == old(playerMovement.lastReceivedInputs) && playerMovement.sent == old(playerMovement.sent)
        invariant Model() == replayed
        invariant replayed == Replay(corrected, serverSimulationState.currentTick as int, rewindTick as int,
                                     dt, settings, phys)
        decreases cSPTick as int - rewindTick as int
      {
        ResimulateTick(rewindTick, dt, settings, phys);
        ReplayUnfold(corrected, serverSimulationState.currentTick as int, rewindTick as int, dt, settings, phys);
        replayed := ReplayTick(replayed, rewindTick, dt, settings, phys);
        rewindTick := rewindTick + 1;
      }
      if rewindTick != cSPTick {
        assert replayed == corrected
               == Replay(corrected, serverSimulationState.currentTick as int, cSPTick as int, dt, settings, phys);
      }
    }

    /** The correction that opens the rewind: the live pose and the saved
        velocities take the snapshot's values. */
    method SnapToServer(phys: Substrate)
      modifies playerMovement
      ensures Model() == Correct(old(Model()), phys)
      ensures playerMovement.lastReceivedInputs == old(playerMovement.lastReceivedInputs) && playerMovement.sent == old(playerMovement.sent)
    {
      playerMovement.rb := playerMovement.rb.(position := serverSimulationState.position);
      playerMovement.speed := serverSimulationState.velocity;
      playerMovement.angularSpeed := serverSimulationState.angularVelocity;
      playerMovement.rb := playerMovement.rb.(rotation := phys.normalize(serverSimulationState.rotation));
    }

    /** One iteration of the replay loop of `Reconciliate`. */
    method ResimulateTick(rewindTick: ushort, dt: int, settings: Settings, phys: Substrate)
      requires inputStateCache.Length == StateCacheSize && simulationStateCache.Length == StateCacheSize
      requires 0 <= lastCorrectedFrame < TickRange
      modifies simulationStateCache, playerMovement
      ensures Model() == ReplayTick(old(Model()), rewindTick, dt, settings, phys)
      ensures playerMovement.lastReceivedInputs == old(playerMovement.lastReceivedInputs) && playerMovement.sent == old(playerMovement.sent)
    {
      ghost var before := Model();
      var rewindCacheIndex := rewindTick as int % StateCacheSize;
      var rewindCachedInputState := inputStateCache[rewindCacheIndex];
      var rewoundSimulationState := CurrentSimulationState().(currentTick := rewindTick);
      simulationStateCache[rewindCacheIndex] := rewoundSimulationState;
      assert simulationStateCache[..] == before.states[rewindCacheIndex := Capture(before.mover.rb, rewindTick)];
      playerMovement.CheckIfGrounded(dt, settings, phys);
      playerMovement.SetInput(rewindCachedInputState.horizontal, rewindCachedInputState.vertical,
                              rewindCachedInputState.jump, dt, settings, phys);
    }

    /** The "input" message: the count byte `(byte)(cSPTick - serverTick)`,
        then one record per tick `i` of `[serverTick, cSPTick)`, read from
        slot `i % 1024`. */
    method SendInput() returns (message: seq<Field>)
      requires Valid()
      ensures message == InputWire.InputMessage(
        InputWire.CountByte(serverSimulationState.currentTick, cSPTick),
        InputWire.Window(inputStateCache[..], serverSimulationState.currentTick as int, cSPTick as int))
    {
      var lo := serverSimulationState.currentTick as int;
      var cache := inputStateCache[..];
      message := [ByteField(TruncateToByte(cSPTick as int - serverSimulationState.currentTick as int))];
      var i := lo;
      while i < cSPTick as int
        invariant lo <= i && (i == lo || i <= cSPTick as int)
        invariant message == InputWire.InputMessage(InputWire.CountByte(serverSimulationState.currentTick, cSPTick),
                                                    InputWire.Window(cache, lo, i))
      {
        var record := inputStateCache[i % StateCacheSize];
        ghost var w := InputWire.Window(cache, lo, i + 1);
        assert w[..|w| - 1] == InputWire.Window(cache, lo, i);
        message := message + InputWire.RecordFields(record);
        i := i + 1;
      }
      assert InputWire.Window(cache, lo, i) == InputWire.Window(cache, lo, cSPTick as int);
    }

    /** The "playerMovement" message handler. */
    method GetPlayerMovement(message: seq<Field>)
      requires Valid()
      modifies this
      ensures Valid()
      ensures Model() == old(Model()).(server := AcceptSnapshot(old(serverSimulationState), message))
      ensures timer == old(timer)
    {
      var decoded := DecodeStateMessage(message);
      if decoded.Some? {
        var tick := decoded.value.tick;
        if tick > serverSimulationState.currentTick {
          serverSimulationState := serverSimulationState.(velocity := decoded.value.velocity,
                                                          angularVelocity := decoded.value.angularVelocity,
                                                          position := decoded.value.position,
                                                          currentTick := tick);
        }
      }
    }
  }
}
