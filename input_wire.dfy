/** The client-to-server "input" message: the encoding written by
    `MovementInput.SendInput` and the decoding done by `PlayerMovement.Input`,
    as pure functions on a message modelled as a sequence of typed fields. */
module InputWire {
  import opened Ticks
  import opened Records

  /** The four fields of one record, in the order the encoder adds them. */
  function RecordFields(i: ClientInputState): (fs: seq<Field>)
    ensures |fs| == 4
    ensures DecodeRecord(fs[0], fs[1], fs[2], fs[3]) == Some(OnWire(i))
  {
    [SByteField(i.horizontal), SByteField(i.vertical), BoolField(i.jump), UShortField(i.currentTick)]
  }

  /** The records of a message, oldest first. */
  function EncodeRecords(rs: seq<ClientInputState>): (fs: seq<Field>)
    ensures |fs| == 4 * |rs|
  {
    if rs == [] then [] else EncodeRecords(rs[..|rs| - 1]) + RecordFields(rs[|rs| - 1])
  }

  /** A whole input message: the count byte, then the records. */
  function InputMessage(count: byte, rs: seq<ClientInputState>): (m: seq<Field>)
    ensures |m| == 1 + 4 * |rs| && m[0] == ByteField(count)
  {
    [ByteField(count)] + EncodeRecords(rs)
  }

  /** The resend window: the cached commands of ticks `from .. to - 1`, each
      read from slot `i % 1024` (empty when `to <= from`). */
  function Window(cache: seq<ClientInputState>, from: int, to: int): (w: seq<ClientInputState>)
    requires |cache| == StateCacheSize && 0 <= from
    ensures |w| == if to <= from then 0 else to - from
    ensures forall k :: 0 <= k < |w| ==> w[k] == cache[CacheIndex(from + k)]
  {
    if to <= from then [] else seq(to - from, k requires 0 <= k < to - from => cache[CacheIndex(from + k)])
  }

  /** The count byte `(byte)(cSPTick - serverTick)`: the difference is an `int`
      and is truncated to its low eight bits. */
  function CountByte(serverTick: ushort, tick: ushort): (b: byte)
    ensures 0 <= tick as int - serverTick as int < 256 ==> b as int == tick as int - serverTick as int
  {
    TruncateToByte(tick as int - serverTick as int)
  }

  /** What survives the wire of one command: the decoder rebuilds it with the
      continuation fields at their defaults. */
  function OnWire(i: ClientInputState): (r: ClientInputState)
    ensures DefaultContinuation(i) ==> r == i
  {
    WireInput(i.horizontal, i.vertical, i.jump, i.currentTick)
  }

  function OnWireAll(rs: seq<ClientInputState>): (r: seq<ClientInputState>)
    ensures |r| == |rs| && forall k :: 0 <= k < |rs| ==> r[k] == OnWire(rs[k])
  {
    seq(|rs|, k requires 0 <= k < |rs| => OnWire(rs[k]))
  }

  /** One record read back as `GetSByte`, `GetSByte`, `GetBool`, `GetUShort`. */
  function DecodeRecord(f0: Field, f1: Field, f2: Field, f3: Field): (r: Option<ClientInputState>)
    ensures r.Some? <==> f0.SByteField? && f1.SByteField? && f2.BoolField? && f3.UShortField?
    ensures r.Some? ==> DefaultContinuation(r.value) && r.value.horizontal == f0.s && r.value.vertical == f1.s
                        && r.value.jump == f2.flag && r.value.currentTick == f3.u
  {
    if f0.SByteField? && f1.SByteField? && f2.BoolField? && f3.UShortField? then
      Some(WireInput(f0.s, f1.s, f2.flag, f3.u))
    else None
  }

  /** Reads exactly `n` records from the front of `fs`, in order; `None` when the
      fields run out or are not of the expected kinds. */
  function DecodeRecords(fs: seq<Field>, n: nat): (r: Option<seq<ClientInputState>>)
    ensures r.Some? ==> |r.value| == n && 4 * n <= |fs|
    decreases n
  {
    if n == 0 then Some([])
    else if |fs| < 4 then None
    else match DecodeRecord(fs[0], fs[1], fs[2], fs[3])
      case None => None
      case Some(i) =>
        match DecodeRecords(fs[4..], n - 1)
        case None => None
        case Some(rest) => Some([i] + rest)
  }

  /** `PlayerMovement.Input`: one count byte, then that many records. */
  function DecodeInputs(m: seq<Field>): (r: Option<seq<ClientInputState>>)
    ensures r.Some? ==> |m| > 0 && m[0].ByteField? && |r.value| == m[0].b as int
  {
    if |m| == 0 || !m[0].ByteField? then None else DecodeRecords(m[1..], m[0].b as nat)
  }

  function Prepend(prefix: seq<ClientInputState>, r: Option<seq<ClientInputState>>): Option<seq<ClientInputState>> {
    match r
    case None => None
    case Some(rest) => Some(prefix + rest)
  }

  lemma {:induction false} EncodeRecordsAppend(a: seq<ClientInputState>, b: seq<ClientInputState>)
    ensures EncodeRecords(a + b) == EncodeRecords(a) + EncodeRecords(b)
    decreases |b|
  {
    if b == [] {
      assert a + b == a;
    } else {
      var b' := b[..|b| - 1];
      assert (a + b)[..|a + b| - 1] == a + b';
      assert (a + b)[|a + b| - 1] == b[|b| - 1];
      EncodeRecordsAppend(a, b');
    }
  }

  /** One record in front of the fields decodes to that command as it went on
      the wire, followed by whatever the rest decodes to. */
  lemma DecodeFrontRecord(i: ClientInputState, fs: seq<Field>, n: nat)
    ensures DecodeRecords(RecordFields(i) + fs, n + 1) == Prepend([OnWire(i)], DecodeRecords(fs, n))
  {
    var all := RecordFields(i) + fs;
    assert all[4..] == fs;
  }

  /** The encoding of a non-empty window starts with its first record. */
  lemma EncodeRecordsFront(rs: seq<ClientInputState>)
    requires rs != []
    ensures EncodeRecords(rs) == RecordFields(rs[0]) + EncodeRecords(rs[1..])
  {
    EncodeRecordsAppend([rs[0]], rs[1..]);
    assert [rs[0]] + rs[1..] == rs;
    assert [rs[0]][..0] == [];
  }

  /** Decoding `n` records from an encoding of `rs` followed by anything gives
      the first `n` commands of `rs` as they went on the wire when `n <= |rs|`,
      and otherwise continues into what follows. */
  lemma {:induction false} DecodeAfterEncode(rs: seq<ClientInputState>, rest: seq<Field>, n: nat)
    ensures DecodeRecords(EncodeRecords(rs) + rest, n) ==
      if n <= |rs| then Some(OnWireAll(rs[..n]))
      else Prepend(OnWireAll(rs), DecodeRecords(rest, n - |rs|))
    decreases n
  {
    if n == 0 {
      assert OnWireAll(rs[..0]) == [];
    } else if rs == [] {
      DecodeAfterEncodeNothing(rest, n);
    } else {
      DecodeEncodedFront(rs, rest, n);
      DecodeAfterEncode(rs[1..], rest, n - 1);
      if n <= |rs| {
        DecodeWithinStep(rs, rest, n);
      } else {
        DecodeBeyondStep(rs, rest, n);
      }
    }
  }

  /** Decoding an encoded non-empty window reads its first record, then the rest. */
  lemma DecodeEncodedFront(rs: seq<ClientInputState>, rest: seq<Field>, n: nat)
    requires rs != [] && n > 0
    ensures DecodeRecords(EncodeRecords(rs) + rest, n)
      == Prepend([OnWire(rs[0])], DecodeRecords(EncodeRecords(rs[1..]) + rest, n - 1))
  {
    EncodeRecordsFront(rs);
    assert EncodeRecords(rs) + rest == RecordFields(rs[0]) + (EncodeRecords(rs[1..]) + rest);
    DecodeFrontRecord(rs[0], EncodeRecords(rs[1..]) + rest, n - 1);
  }

  /** The inductive step of `DecodeAfterEncode` when the count is within the
      encoded records. */
  lemma DecodeWithinStep(rs: seq<ClientInputState>, rest: seq<Field>, n: nat)
    requires rs != [] && 0 < n <= |rs|
    requires DecodeRecords(EncodeRecords(rs) + rest, n)
      == Prepend([OnWire(rs[0])], DecodeRecords(EncodeRecords(rs[1..]) + rest, n - 1))
    requires DecodeRecords(EncodeRecords(rs[1..]) + rest, n - 1) == Some(OnWireAll(rs[1..][..n - 1]))
    ensures DecodeRecords(EncodeRecords(rs) + rest, n) == Some(OnWireAll(rs[..n]))
  {
    OnWireAllFront(rs, n);
  }

  /** The inductive step of `DecodeAfterEncode` when the count exceeds the
      encoded records. */
  lemma DecodeBeyondStep(rs: seq<ClientInputState>, rest: seq<Field>, n: nat)
    requires rs != [] && n > |rs|
    requires DecodeRecords(EncodeRecords(rs) + rest, n)
      == Prepend([OnWire(rs[0])], DecodeRecords(EncodeRecords(rs[1..]) + rest, n - 1))
    requires DecodeRecords(EncodeRecords(rs[1..]) + rest, n - 1)
      == Prepend(OnWireAll(rs[1..]), DecodeRecords(rest, n - |rs|))
    ensures DecodeRecords(EncodeRecords(rs) + rest, n) == Prepend(OnWireAll(rs), DecodeRecords(rest, n - |rs|))
  {
    PrependPrepend([OnWire(rs[0])], OnWireAll(rs[1..]), DecodeRecords(rest, n - |rs|));
    assert [OnWire(rs[0])] + OnWireAll(rs[1..]) == OnWireAll(rs);
  }

  lemma DecodeAfterEncodeNothing(rest: seq<Field>, n: nat)
    ensures DecodeRecords(EncodeRecords([]) + rest, n) == Prepend(OnWireAll([]), DecodeRecords(rest, n))
  {
    assert EncodeRecords([]) + rest == rest;
    match DecodeRecords(rest, n)
    case None =>
    case Some(v) => assert OnWireAll([]) + v == v;
  }

  lemma OnWireAllFront(rs: seq<ClientInputState>, n: nat)
    requires 0 < n <= |rs|
    ensures [OnWire(rs[0])] + OnWireAll(rs[1..][..n - 1]) == OnWireAll(rs[..n])
  {
  }

  lemma PrependNothing(r: Option<seq<ClientInputState>>)
    ensures Prepend([], r) == r
  {
    match r
    case None =>
    case Some(v) => assert [] + v == v;
  }

  /** Prepending in two steps is prepending the joined prefix. */
  lemma PrependPrepend(a: seq<ClientInputState>, b: seq<ClientInputState>, r: Option<seq<ClientInputState>>)
    ensures Prepend(a, Prepend(b, r)) == Prepend(a + b, r)
  {
    match r
    case None =>
    case Some(v) => assert a + (b + v) == (a + b) + v;
  }

  /** Decoding what the encoder wrote: the server recovers the first
      `count` commands of the window, each as it went on the wire, and rejects
      the message when the count byte promises more records than follow. */
  lemma InputMessageDecodes(count: byte, rs: seq<ClientInputState>)
    ensures DecodeInputs(InputMessage(count, rs)) ==
      if count as int <= |rs| then Some(OnWireAll(rs[..count])) else None
  {
    var m := InputMessage(count, rs);
    assert m[1..] == EncodeRecords(rs) + [];
    DecodeAfterEncode(rs, [], count as nat);
  }

  /** The field-level round trip of the resend window: whenever the window
      `[serverTick, tick)` has at most 255 ticks, the decoder returns exactly the
      `(horizontal, vertical, jump, currentTick)` records of the window, in
      order; when every cached command has default continuation fields (which
      is all the client ever caches) that is the window itself. */
  lemma WindowRoundTrip(cache: seq<ClientInputState>, serverTick: ushort, tick: ushort)
    requires |cache| == StateCacheSize
    requires serverTick <= tick && tick as int - serverTick as int <= 255
    ensures DecodeInputs(InputMessage(CountByte(serverTick, tick), Window(cache, serverTick as int, tick as int)))
      == Some(OnWireAll(Window(cache, serverTick as int, tick as int)))
    ensures (forall j :: 0 <= j < StateCacheSize ==> DefaultContinuation(cache[j])) ==>
      DecodeInputs(InputMessage(CountByte(serverTick, tick), Window(cache, serverTick as int, tick as int)))
      == Some(Window(cache, serverTick as int, tick as int))
  {
    var w := Window(cache, serverTick as int, tick as int);
    InputMessageDecodes(CountByte(serverTick, tick), w);
    assert w[..|w|] == w;
    if forall j :: 0 <= j < StateCacheSize ==> DefaultContinuation(cache[j]) {
      assert OnWireAll(w) == w;
    }
  }

  /** Past 255 unacknowledged ticks the count byte wraps: the encoder still
      writes every record, but the decoder keeps only the first
      `(tick - serverTick) mod 256` of them. */
  lemma WindowCountWraps(cache: seq<ClientInputState>, serverTick: ushort, tick: ushort)
    requires |cache| == StateCacheSize
    requires tick as int - serverTick as int > 255
    ensures CountByte(serverTick, tick) as int == (tick as int - serverTick as int) % 256
    ensures CountByte(serverTick, tick) as int < |Window(cache, serverTick as int, tick as int)|
    ensures DecodeInputs(InputMessage(CountByte(serverTick, tick), Window(cache, serverTick as int, tick as int)))
      == Some(OnWireAll(Window(cache, serverTick as int, tick as int)[..CountByte(serverTick, tick)]))
  {
    InputMessageDecodes(CountByte(serverTick, tick), Window(cache, serverTick as int, tick as int));
  }

  /** When the client's tick is behind the acknowledged server tick, the count
      byte is the wrapped negative difference but no record follows, so the
      message decodes only when that byte happens to be zero. */
  lemma WindowBehindServer(cache: seq<ClientInputState>, serverTick: ushort, tick: ushort)
    requires |cache| == StateCacheSize
    requires tick < serverTick
    ensures Window(cache, serverTick as int, tick as int) == []
    ensures CountByte(serverTick, tick) as int == (tick as int - serverTick as int) % 256
    ensures DecodeInputs(InputMessage(CountByte(serverTick, tick), Window(cache, serverTick as int, tick as int)))
      == if CountByte(serverTick, tick) == 0 then Some([]) else None
  {
    InputMessageDecodes(CountByte(serverTick, tick), []);
  }
}
