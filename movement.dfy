/** Assets/PlayerMovement.cs: the player's movement state, the jump-buffer and
    coyote-time counters, the jump gate of `MovementTick`, and the server's
    handling of redundant input batches. The physics (forces, drag, speed cap,
    `Physics.Simulate`, the ground raycast) is supplied by the caller as a
    `Substrate`; every duration is an integer number of microseconds. */
module Movement {
  import opened Ticks
  import opened Records
  import InputWire

  /** The Rigidbody: pose and velocities. */
  datatype Body = Body(position: Vec3, rotation: Quat, velocity: Vec3, angularVelocity: Vec3)

  /** What the force code of one movement step reads besides the body: the
      stored axes, whether the player was grounded and whether the jump fired. */
  datatype Drive = Drive(horizontal: sbyte, vertical: sbyte, grounded: bool, jumped: bool)

  /** The physics substrate. `simulate` stands for `SpeedCap`, `ApplyDrag`, the
      jump impulse, `ApplyMovement`, `IncreaseFallGravity` and one
      `Physics.Simulate` of the fixed step; `raycast` for the ground probe below
      `groundCheck`; `normalize` for `Quaternion.normalized`. */
  datatype Substrate = Substrate(
    simulate: (Body, Drive) -> Body,
    raycast: Body -> bool,
    normalize: Quat -> Quat)

  /** The `MovementSettings` values this core reads, in microseconds. */
  datatype Settings = Settings(coyoteTime: int, jumpBufferTime: int)

  /** The fields of a `PlayerMovement` that one movement step reads or writes. */
  datatype MoverState = MoverState(
    rb: Body,
    speed: Vec3,
    angularSpeed: Vec3,
    grounded: bool,
    readyToJump: bool,
    coyoteTimeCounter: int,
    jumpBufferCounter: int,
    horizontalInput: sbyte,
    verticalInput: sbyte)

  /** The state of a fresh `PlayerMovement` placed at `rb`. */
  function InitialMover(rb: Body): MoverState {
    MoverState(rb, Zero3, Zero3, false, true, 0, 0, 0, 0)
  }

  /** The condition of the jump in `MovementTick`. */
  predicate JumpGate(m: MoverState): (fires: bool)
    ensures fires ==> m.readyToJump && m.coyoteTimeCounter > 0 && m.jumpBufferCounter > 0
    ensures m.readyToJump && m.coyoteTimeCounter > 0 && m.jumpBufferCounter > 0 ==> fires
  {
    m.jumpBufferCounter > 0 && m.coyoteTimeCounter > 0 && m.readyToJump
  }

  /** `Jump`: the vertical velocity is cleared (the impulse itself is part of the
      substrate's step) and the coyote counter drops to zero. */
  function JumpSpec(m: MoverState): (r: MoverState)
    ensures r.coyoteTimeCounter == 0
    ensures r.rb.velocity.y == 0.0 && r.rb.velocity.x == m.rb.velocity.x && r.rb.velocity.z == m.rb.velocity.z
    ensures r.readyToJump == m.readyToJump && r.jumpBufferCounter == m.jumpBufferCounter
    ensures r == m.(rb := m.rb.(velocity := r.rb.velocity), coyoteTimeCounter := 0)
  {
    m.(rb := m.rb.(velocity := Vec3(m.rb.velocity.x, 0.0, m.rb.velocity.z)), coyoteTimeCounter := 0)
  }

  /** `MovementTick`: restore the saved velocities, fire the jump when the gate
      holds, run one substrate step and save the resulting velocities. */
  function MovementTickSpec(m: MoverState, phys: Substrate): (r: MoverState)
    ensures r.readyToJump == (m.readyToJump && !JumpGate(m))
    ensures r.coyoteTimeCounter == if JumpGate(m) then 0 else m.coyoteTimeCounter
    ensures r.jumpBufferCounter == m.jumpBufferCounter && r.grounded == m.grounded
    ensures r.horizontalInput == m.horizontalInput && r.verticalInput == m.verticalInput
    ensures r.speed == r.rb.velocity && r.angularSpeed == r.rb.angularVelocity
    ensures r.rb == phys.simulate(m.rb.(velocity := if JumpGate(m) then Vec3(m.speed.x, 0.0, m.speed.z) else m.speed,
                                        angularVelocity := m.angularSpeed),
                                  Drive(m.horizontalInput, m.verticalInput, m.grounded, JumpGate(m)))
  {
    var restored := m.(rb := m.rb.(velocity := m.speed, angularVelocity := m.angularSpeed));
    var fired := JumpGate(m);
    var jumped := if fired then JumpSpec(restored.(readyToJump := false)) else restored;
    var body := phys.simulate(jumped.rb, Drive(m.horizontalInput, m.verticalInput, m.grounded, fired));
    jumped.(rb := body, speed := body.velocity, angularSpeed := body.angularVelocity)
  }

  /** `SetInput`: store the axes, refresh or run down the jump buffer, and take
      one movement step. */
  function SetInputSpec(m: MoverState, horizontal: sbyte, vertical: sbyte, jump: bool,
                        dt: int, settings: Settings, phys: Substrate): (r: MoverState)
    ensures r.jumpBufferCounter == if jump then settings.jumpBufferTime else m.jumpBufferCounter - dt
    ensures r.horizontalInput == horizontal && r.verticalInput == vertical && r.grounded == m.grounded
    ensures r.readyToJump ==> m.readyToJump
  {
    MovementTickSpec(m.(horizontalInput := horizontal, verticalInput := vertical,
                        jumpBufferCounter := if jump then settings.jumpBufferTime else m.jumpBufferCounter - dt), phys)
  }

  /** `CheckIfGrounded`: probe the ground and refresh or run down the coyote
      counter; nothing else changes. */
  function CheckIfGroundedSpec(m: MoverState, dt: int, settings: Settings, phys: Substrate): (r: MoverState)
    ensures r.grounded == phys.raycast(m.rb)
    ensures r.coyoteTimeCounter == if r.grounded then settings.coyoteTime else m.coyoteTimeCounter - dt
    ensures r == m.(grounded := r.grounded, coyoteTimeCounter := r.coyoteTimeCounter)
  {
    var g := phys.raycast(m.rb);
    m.(grounded := g, coyoteTimeCounter := if g then settings.coyoteTime else m.coyoteTimeCounter - dt)
  }

  /** The jump of one `SetInput` fires exactly when the refreshed jump buffer,
      the coyote counter and `readyToJump` all allow it; firing clears
      `readyToJump` and the coyote counter, not firing leaves both alone. */
  lemma SetInputJumpGate(m: MoverState, horizontal: sbyte, vertical: sbyte, jump: bool,
                         dt: int, settings: Settings, phys: Substrate)
    ensures var fires := (if jump then settings.jumpBufferTime else m.jumpBufferCounter - dt) > 0
                         && m.coyoteTimeCounter > 0 && m.readyToJump;
            var r := SetInputSpec(m, horizontal, vertical, jump, dt, settings, phys);
            (fires ==> !r.readyToJump && r.coyoteTimeCounter == 0) &&
            (!fires ==> r.readyToJump == m.readyToJump && r.coyoteTimeCounter == m.coyoteTimeCounter)
  {
  }

  /** The server's view of a `PlayerMovement`: the movement state, the newest
      input received, and the state messages broadcast so far. */
  datatype AuthorityState = AuthorityState(
    mover: MoverState,
    lastReceivedInputs: ClientInputState,
    sent: seq<seq<Field>>)

  /** `SendMovement`: the server-to-client state message. */
  function StateMessage(clientTick: ushort, m: MoverState): (msg: seq<Field>)
    ensures MessageTick(msg) == clientTick as int
  {
    [UShortField(clientTick), Vector3Field(m.speed), Vector3Field(m.angularSpeed), Vector3Field(m.rb.position)]
  }

  /** The tick a state message carries (-1 for anything else). */
  function MessageTick(msg: seq<Field>): int {
    if |msg| > 0 && msg[0].UShortField? then msg[0].u as int else -1
  }

  /** Applying the inputs of indices `lo .. hi - 1` in order, each followed by
      the broadcast of the resulting state under that input's tick. */
  function ApplyRange(a: AuthorityState, inputs: seq<ClientInputState>, lo: int, hi: int,
                      dt: int, settings: Settings, phys: Substrate): (r: AuthorityState)
    requires 0 <= lo && (lo < hi ==> hi <= |inputs|)
    ensures r.lastReceivedInputs == a.lastReceivedInputs
    ensures |r.sent| == |a.sent| + (if hi <= lo then 0 else hi - lo)
    ensures r.sent[..|a.sent|] == a.sent
    ensures forall k :: |a.sent| <= k < |r.sent| ==> MessageTick(r.sent[k]) == inputs[lo + k - |a.sent|].currentTick as int
    ensures r.mover.readyToJump ==> a.mover.readyToJump
    decreases hi - lo
  {
    if hi <= lo then a
    else
      var p := ApplyRange(a, inputs, lo, hi - 1, dt, settings, phys);
      var i := inputs[hi - 1];
      var m := SetInputSpec(p.mover, i.horizontal, i.vertical, i.jump, dt, settings, phys);
      AuthorityState(m, p.lastReceivedInputs, p.sent + [StateMessage(i.currentTick, m)])
  }

  lemma ApplyRangeUnfold(a: AuthorityState, inputs: seq<ClientInputState>, lo: int, hi: int,
                          dt: int, settings: Settings, phys: Substrate)
    requires 0 <= lo <= hi < |inputs|
    ensures var p := ApplyRange(a, inputs, lo, hi, dt, settings, phys);
            var m := SetInputSpec(p.mover, inputs[hi].horizontal, inputs[hi].vertical, inputs[hi].jump, dt, settings, phys);
            ApplyRange(a, inputs, lo, hi + 1, dt, settings, phys)
            == AuthorityState(m, p.lastReceivedInputs, p.sent + [StateMessage(inputs[hi].currentTick, m)])
  {
  }

  /** Where `HandleClientInput` starts in a batch whose first tick is
      `firstTick`: past the inputs the server already has. */
  function StartOffset(lastReceivedTick: ushort, firstTick: ushort): (start: int)
    ensures start >= 0
    ensures lastReceivedTick > firstTick ==> firstTick as int + start == lastReceivedTick as int
    ensures lastReceivedTick <= firstTick ==> start == 0
  {
    if lastReceivedTick > firstTick then lastReceivedTick as int - firstTick as int else 0
  }

  /** A non-empty batch is accepted when its newest tick is not older than the
      newest input the server already has (plain unsigned comparison). */
  predicate Accepts(a: AuthorityState, inputs: seq<ClientInputState>): (ok: bool)
    ensures ok ==> |inputs| > 0 && inputs[|inputs| - 1].currentTick >= a.lastReceivedInputs.currentTick
    ensures |inputs| > 0 && inputs[|inputs| - 1].currentTick == a.lastReceivedInputs.currentTick ==> ok
    ensures |inputs| > 0 && inputs[|inputs| - 1].currentTick < a.lastReceivedInputs.currentTick ==> !ok
  {
    |inputs| > 0 && inputs[|inputs| - 1].currentTick >= a.lastReceivedInputs.currentTick
  }

  /** `HandleClientInput`. */
  function HandleSpec(a: AuthorityState, serverPlayer: bool, inputs: seq<ClientInputState>,
                      dt: int, settings: Settings, phys: Substrate): (r: AuthorityState)
    ensures !serverPlayer || !Accepts(a, inputs) ==> r == a
    ensures serverPlayer && Accepts(a, inputs) ==> r.lastReceivedInputs == inputs[|inputs| - 1]
    ensures r.lastReceivedInputs.currentTick >= a.lastReceivedInputs.currentTick
    ensures |r.sent| >= |a.sent| && r.sent[..|a.sent|] == a.sent
    ensures serverPlayer && Accepts(a, inputs) ==>
      var start := StartOffset(a.lastReceivedInputs.currentTick, inputs[0].currentTick);
      |r.sent| - |a.sent| == (if start < |inputs| - 1 then |inputs| - 1 - start else 0) &&
      forall k :: |a.sent| <= k < |r.sent| ==>
        MessageTick(r.sent[k]) == inputs[start + k - |a.sent|].currentTick as int
    ensures r.mover.readyToJump ==> a.mover.readyToJump
  {
    if !serverPlayer || |inputs| == 0 then a
    else if inputs[|inputs| - 1].currentTick >= a.lastReceivedInputs.currentTick then
      var start := StartOffset(a.lastReceivedInputs.currentTick, inputs[0].currentTick);
      var p := ApplyRange(a, inputs, start, |inputs| - 1, dt, settings, phys);
      p.(lastReceivedInputs := inputs[|inputs| - 1])
    else a
  }

  /** An accepted batch is the range from the start offset to the input
      before the newest, then the newest input recorded. */
  lemma HandleSpecApplies(a: AuthorityState, inputs: seq<ClientInputState>, dt: int, settings: Settings, phys: Substrate)
    requires Accepts(a, inputs)
    ensures HandleSpec(a, true, inputs, dt, settings, phys)
            == ApplyRange(a, inputs, StartOffset(a.lastReceivedInputs.currentTick, inputs[0].currentTick), |inputs| - 1,
                          dt, settings, phys).(lastReceivedInputs := inputs[|inputs| - 1])
  {
  }

  /** Consecutive ticks, as the client's resend window has when it does not wrap. */
  predicate Contiguous(inputs: seq<ClientInputState>) {
    forall k :: 0 <= k < |inputs| ==> inputs[k].currentTick as int == inputs[0].currentTick as int + k
  }

  /** The ticks carried by a run of state messages. */
  function SentTicks(msgs: seq<seq<Field>>): (ts: seq<int>)
    ensures |ts| == |msgs| && forall k :: 0 <= k < |msgs| ==> ts[k] == MessageTick(msgs[k])
  {
    seq(|msgs|, k requires 0 <= k < |msgs| => MessageTick(msgs[k]))
  }

  /** The integers `lo .. hi - 1` in ascending order. */
  function Range(lo: int, hi: int): (s: seq<int>)
    ensures |s| == (if hi <= lo then 0 else hi - lo) && forall k :: 0 <= k < |s| ==> s[k] == lo + k
  {
    if hi <= lo then [] else seq(hi - lo, k requires 0 <= k < hi - lo => lo + k)
  }

  /** For a contiguous accepted batch the server simulates and broadcasts
      exactly the ticks `max(lastReceived, first) .. newest - 1`, ascending. */
  lemma ContiguousBatchBroadcasts(a: AuthorityState, inputs: seq<ClientInputState>,
                                  dt: int, settings: Settings, phys: Substrate)
    requires Accepts(a, inputs) && Contiguous(inputs)
    ensures var r := HandleSpec(a, true, inputs, dt, settings, phys);
      SentTicks(r.sent[|a.sent|..]) ==
        Range(if a.lastReceivedInputs.currentTick > inputs[0].currentTick
              then a.lastReceivedInputs.currentTick as int else inputs[0].currentTick as int,
              inputs[|inputs| - 1].currentTick as int)
  {
    var r := HandleSpec(a, true, inputs, dt, settings, phys);
    var start := StartOffset(a.lastReceivedInputs.currentTick, inputs[0].currentTick);
    var got := SentTicks(r.sent[|a.sent|..]);
    var want := Range(if a.lastReceivedInputs.currentTick > inputs[0].currentTick
                      then a.lastReceivedInputs.currentTick as int else inputs[0].currentTick as int,
                      inputs[|inputs| - 1].currentTick as int);
    assert start <= |inputs| - 1;
    assert |got| == |want|;
    forall k | 0 <= k < |got| ensures got[k] == want[k] {
      assert r.sent[|a.sent|..][k] == r.sent[|a.sent| + k];
      assert MessageTick(r.sent[|a.sent| + k]) == inputs[start + k].currentTick as int;
    }
  }

  /** Across two successive accepted contiguous batches no tick is simulated
      twice: every tick the second batch broadcasts is newer than every tick the
      first one broadcast. */
  lemma SuccessiveBatchesDisjoint(a: AuthorityState, first: seq<ClientInputState>, second: seq<ClientInputState>,
                                  dt: int, settings: Settings, phys: Substrate)
    requires Accepts(a, first) && Contiguous(first)
    requires Accepts(HandleSpec(a, true, first, dt, settings, phys), second) && Contiguous(second)
    ensures var a1 := HandleSpec(a, true, first, dt, settings, phys);
            var a2 := HandleSpec(a1, true, second, dt, settings, phys);
            forall i, j :: |a.sent| <= i < |a1.sent| <= j < |a2.sent| ==>
              MessageTick(a2.sent[i]) < MessageTick(a2.sent[j])
  {
    var a1 := HandleSpec(a, true, first, dt, settings, phys);
    var a2 := HandleSpec(a1, true, second, dt, settings, phys);
    ContiguousBatchBroadcasts(a, first, dt, settings, phys);
    ContiguousBatchBroadcasts(a1, second, dt, settings, phys);
    var newest := first[|first| - 1].currentTick as int;
    forall i | |a.sent| <= i < |a1.sent| ensures MessageTick(a2.sent[i]) < newest {
      assert a2.sent[i] == a2.sent[..|a1.sent|][i] == a1.sent[i];
      assert a1.sent[i] == a1.sent[|a.sent|..][i - |a.sent|];
      assert SentTicks(a1.sent[|a.sent|..])[i - |a.sent|] == MessageTick(a1.sent[i]);
    }
    forall j | |a1.sent| <= j < |a2.sent| ensures MessageTick(a2.sent[j]) >= newest {
      assert a2.sent[j] == a2.sent[|a1.sent|..][j - |a1.sent|];
      assert SentTicks(a2.sent[|a1.sent|..])[j - |a1.sent|] == MessageTick(a2.sent[j]);
    }
  }

  /** With the newest known input at tick 50, a batch of ticks 48 .. 53 makes
      the server simulate and broadcast ticks 50, 51 and 52 only. */
  lemma BatchFrom48To53AfterTick50(a: AuthorityState, inputs: seq<ClientInputState>,
                                   dt: int, settings: Settings, phys: Substrate)
    requires a.lastReceivedInputs.currentTick == 50
    requires |inputs| == 6 && forall k :: 0 <= k < 6 ==> inputs[k].currentTick as int == 48 + k
    ensures SentTicks(HandleSpec(a, true, inputs, dt, settings, phys).sent[|a.sent|..]) == [50, 51, 52]
  {
    ContiguousBatchBroadcasts(a, inputs, dt, settings, phys);
    assert Range(50, 53) == [50, 51, 52];
  }

  class PlayerMovement {
    var rb: Body
    var grounded: bool
    var readyToJump: bool
    var coyoteTimeCounter: int
    var jumpBufferCounter: int
    var horizontalInput: sbyte
    var verticalInput: sbyte
    var speed: Vec3
    var angularSpeed: Vec3
    var lastReceivedInputs: ClientInputState
    /** The serialized `serverPlayer` flag. */
    const serverPlayer: bool
    /** The state messages this player has broadcast with `SendToAll`. */
    var sent: seq<seq<Field>>

    function State(): MoverState
      reads this
    {
      MoverState(rb, speed, angularSpeed, grounded, readyToJump, coyoteTimeCounter,
                 jumpBufferCounter, horizontalInput, verticalInput)
    }

    function Authority(): AuthorityState
      reads this
    {
      AuthorityState(State(), lastReceivedInputs, sent)
    }

    constructor (serverPlayer: bool, rb: Body)
      ensures State() == InitialMover(rb) && this.serverPlayer == serverPlayer
      ensures lastReceivedInputs == EmptyInput && sent == []
    {
      this.rb := rb;
      grounded := false;
      readyToJump := true;
      coyoteTimeCounter := 0;
      jumpBufferCounter := 0;
      horizontalInput := 0;
      verticalInput := 0;
      speed := Zero3;
      angularSpeed := Zero3;
      lastReceivedInputs := EmptyInput;
      this.serverPlayer := serverPlayer;
      sent := [];
    }

    /** Unity's per-frame `Update`: one ground check. */
    method Update(dt: int, settings: Settings, phys: Substrate)
      modifies this
      ensures State() == CheckIfGroundedSpec(old(State()), dt, settings, phys)
      ensures lastReceivedInputs == old(lastReceivedInputs) && sent == old(sent)
    {
      CheckIfGrounded(dt, settings, phys);
    }

    method SetInput(horizontal: sbyte, vertical: sbyte, jump: bool, dt: int, settings: Settings, phys: Substrate)
      modifies this
      ensures State() == SetInputSpec(old(State()), horizontal, vertical, jump, dt, settings, phys)
      ensures lastReceivedInputs == old(lastReceivedInputs) && sent == old(sent)
    {
      horizontalInput := horizontal;
      verticalInput := vertical;
      if jump { jumpBufferCounter := settings.jumpBufferTime; }
      else { jumpBufferCounter := jumpBufferCounter - dt; }
      MovementTick(phys);
    }

    method MovementTick(phys: Substrate)
      modifies this
      ensures State() == MovementTickSpec(old(State()), phys)
      ensures lastReceivedInputs == old(lastReceivedInputs) && sent == old(sent)
    {
      rb := rb.(velocity := speed, angularVelocity := angularSpeed);
      var fired := jumpBufferCounter > 0 && coyoteTimeCounter > 0 && readyToJump;
      if fired {
        readyToJump := false;
        Jump();
        // Invoke("ResetJump", jumpCooldown) belongs to Unity's scheduler: ResetJump is an outside event.
      }
      rb := phys.simulate(rb, Drive(horizontalInput, verticalInput, grounded, fired));
      speed := rb.velocity;
      angularSpeed := rb.angularVelocity;
    }

    method CheckIfGrounded(dt: int, settings: Settings, phys: Substrate)
      modifies this
      ensures State() == CheckIfGroundedSpec(old(State()), dt, settings, phys)
      ensures lastReceivedInputs == old(lastReceivedInputs) && sent == old(sent)
    {
      grounded := phys.raycast(rb);
      if grounded { coyoteTimeCounter := settings.coyoteTime; }
      else { coyoteTimeCounter := coyoteTimeCounter - dt; }
    }

    method Jump()
      modifies this
      ensures State() == JumpSpec(old(State()))
      ensures lastReceivedInputs == old(lastReceivedInputs) && sent == old(sent)
    {
      rb := rb.(velocity := Vec3(rb.velocity.x, 0.0, rb.velocity.z));
      coyoteTimeCounter := 0;
    }

    /** The deferred cooldown callback; the only place `readyToJump` becomes true. */
    method ResetJump()
      modifies this
      ensures State() == old(State()).(readyToJump := true)
      ensures lastReceivedInputs == old(lastReceivedInputs) && sent == old(sent)
    {
      readyToJump := true;
    }

    method SendMovement(clientTick: ushort)
      modifies this
      ensures Authority() == old(Authority()).(sent := old(sent) + [StateMessage(clientTick, old(State()))])
    {
      sent := sent + [StateMessage(clientTick, State())];
    }

    method HandleClientInput(inputs: array<ClientInputState>, dt: int, settings: Settings, phys: Substrate)
      modifies this
      ensures Authority() == HandleSpec(old(Authority()), serverPlayer, inputs[..], dt, settings, phys)
    {
      if !serverPlayer || inputs.Length == 0 { return; }
      if inputs[inputs.Length - 1].currentTick >= lastReceivedInputs.currentTick {
        var start := if lastReceivedInputs.currentTick > inputs[0].currentTick
                     then lastReceivedInputs.currentTick as int - inputs[0].currentTick as int else 0;
        HandleSpecApplies(Authority(), inputs[..], dt, settings, phys);
        ApplyInputs(inputs, start, dt, settings, phys);
        lastReceivedInputs := inputs[inputs.Length - 1];
      }
    }

    /** The loop of `HandleClientInput`: simulate and broadcast the inputs
        `start .. Length - 2`, holding back the newest one. */
    method ApplyInputs(inputs: array<ClientInputState>, start: int, dt: int, settings: Settings, phys: Substrate)
      requires 0 <= start
      modifies this
      ensures Authority() == ApplyRange(old(Authority()), inputs[..], start, inputs.Length - 1, dt, settings, phys)
    {
      var i := start;
      ghost var batch := inputs[..];
      ghost var initial := Authority();
      ghost var applied := initial;
      while i < inputs.Length - 1
        invariant start <= i
        invariant start < inputs.Length - 1 ==> i <= inputs.Length - 1
        invariant start >= inputs.Length - 1 ==> i == start
        invariant Authority() == applied
        invariant applied == ApplyRange(initial, batch, start, i, dt, settings, phys)
        decreases inputs.Length - i
      {
        SetInput(inputs[i].horizontal, inputs[i].vertical, inputs[i].jump, dt, settings, phys);
        SendMovement(inputs[i].currentTick);
        ApplyRangeUnfold(initial, batch, start, i, dt, settings, phys);
        applied := Authority();
        i := i + 1;
      }
      assert applied == ApplyRange(initial, batch, start, inputs.Length - 1, dt, settings, phys);
    }

    /** The server's "input" message handler: decode the batch and hand it to
        `HandleClientInput`. */
    method Input(message: seq<Field>, dt: int, settings: Settings, phys: Substrate)
      modifies this
      ensures Authority() == match InputWire.DecodeInputs(message)
        case None => old(Authority())
        case Some(batch) => HandleSpec(old(Authority()), serverPlayer, batch, dt, settings, phys)
    {
      var inputs := DecodeInput(message);
      if inputs.Some? {
        HandleClientInput(inputs.value, dt, settings, phys);
      }
    }
  }

  /** The decoding loop of the "input" handler: read the count byte, allocate
      the array, and fill it one record at a time. */
  method DecodeInput(message: seq<Field>) returns (inputs: Option<array<ClientInputState>>)
    ensures inputs.Some? <==> InputWire.DecodeInputs(message).Some?
    ensures inputs.Some? ==> inputs.value[..] == InputWire.DecodeInputs(message).value
  {
    if |message| == 0 || !message[0].ByteField? { return None; }
    var inputsQuantity := message[0].b as int;
    var arr := new ClientInputState[inputsQuantity](_ => EmptyInput);
    var pos := 1;
    var i := 0;
    InputWire.PrependNothing(InputWire.DecodeRecords(message[1..], inputsQuantity));
    while i < inputsQuantity
      invariant 0 <= i <= inputsQuantity && pos == 1 + 4 * i && pos <= |message|
      invariant InputWire.DecodeRecords(message[1..], inputsQuantity)
        == InputWire.Prepend(arr[..i], InputWire.DecodeRecords(message[pos..], inputsQuantity - i))
    {
      if |message| < pos + 4 { return None; }
      if !(message[pos].SByteField? && message[pos + 1].SByteField? &&
           message[pos + 2].BoolField? && message[pos + 3].UShortField?) {
        return None;
      }
      var record := WireInput(message[pos].s, message[pos + 1].s, message[pos + 2].flag, message[pos + 3].u);
      ghost var before := arr[..i];
      arr[i] := record;
      assert arr[..i + 1] == before + [record];
      assert message[pos..][4..] == message[pos + 4..];
      InputWire.PrependPrepend(before, [record], InputWire.DecodeRecords(message[pos + 4..], inputsQuantity - i - 1));
      pos := pos + 4;
      i := i + 1;
    }
    assert arr[..] == arr[..i];
    return Some(arr);
  }
}
