/** Fixed-width integers of the wire format and the tick arithmetic of the
    history cache: a tick is a C# `ushort` that wraps at 65536, and both caches
    have `StateCacheSize` slots addressed by `tick % StateCacheSize`. */
module Ticks {

  newtype byte = x: int | 0 <= x < 256
  newtype sbyte = x: int | -128 <= x < 128
  newtype ushort = x: int | 0 <= x < 65536

  /** Number of distinct ticks: a `ushort` wraps at this value. */
  const TickRange: int := 65536

  /** `MovementInput.StateCacheSize`: slots in each history cache. */
  const StateCacheSize: int := 1024

  /** The cache slot of tick `t`: `t % StateCacheSize` (`t` is never negative in
      the source, so C#'s truncating `%` and Dafny's agree). */
  function CacheIndex(t: int): (i: int)
    requires 0 <= t
    ensures 0 <= i < StateCacheSize
    ensures (t - i) % StateCacheSize == 0
  {
    t % StateCacheSize
  }

  /** `cSPTick++` on a `ushort`: wraps from 65535 to 0. */
  function Next(t: ushort): (r: ushort)
    ensures t as int < TickRange - 1 ==> r as int == t as int + 1
    ensures t as int == TickRange - 1 ==> r == 0
  {
    ((t as int + 1) % TickRange) as ushort
  }

  /** Incrementing a tick that has already wrapped is wrapping the sum. */
  lemma NextOfWrapped(a: int)
    requires 0 <= a
    ensures Next((a % TickRange) as ushort) as int == (a + 1) % TickRange
  {
    var q := a / TickRange;
    var r := a % TickRange;
    assert a + 1 == TickRange * q + (r + 1);
    if r + 1 == TickRange {
      assert a + 1 == TickRange * (q + 1);
    }
  }

  /** `(byte)x` in C#'s unchecked context keeps the low eight bits. */
  function TruncateToByte(x: int): (b: byte)
    ensures 0 <= x < 256 ==> b as int == x
    ensures (b as int - x) % 256 == 0
  {
    (x % 256) as byte
  }

  /** Ticks `t` and `t + 1024 (mod 65536)` share a cache slot. */
  lemma SlotAliasing(t: ushort)
    ensures CacheIndex(((t as int + StateCacheSize) % TickRange)) == CacheIndex(t as int)
  {
    ReduceTickIndex(t as int + StateCacheSize);
  }

  /** Because 1024 divides 65536, advancing the tick across the wrap moves the
      cache index forward by exactly one slot (mod 1024). */
  lemma NextAdvancesIndex(t: ushort)
    ensures CacheIndex(Next(t) as int) == (CacheIndex(t as int) + 1) % StateCacheSize
  {
    ReduceTickIndex(t as int + 1);
  }

  /** Reducing a tick modulo 65536 before indexing does not change its slot. */
  lemma ReduceTickIndex(a: int)
    requires 0 <= a
    ensures CacheIndex(a % TickRange) == CacheIndex(a)
  {
    var q := a / TickRange;
    assert a == TickRange * q + a % TickRange;
    assert TickRange * q == StateCacheSize * (64 * q);
  }

  /** Two ticks less than 1024 apart sit in different slots. */
  lemma NearTicksDistinctSlots(a: int, b: int)
    requires 0 <= a < b < a + StateCacheSize
    ensures CacheIndex(a) != CacheIndex(b)
  {
  }

  /** The same after both ticks have wrapped at 65536. */
  lemma WrappedNearTicksDistinctSlots(a: int, b: int)
    requires 0 <= a < b < a + StateCacheSize
    ensures CacheIndex(a % TickRange) != CacheIndex(b % TickRange)
  {
    ReduceTickIndex(a);
    ReduceTickIndex(b);
    NearTicksDistinctSlots(a, b);
  }
}
