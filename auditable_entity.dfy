/** `AuditableEntity`: creation and modification metadata with a version counter. */
module Auditing {
  import opened Wrappers

  /** A `DateTimeOffset` in round-trip ("O") form, as returned by `TimeProvider.GetUtcNow()`. */
  type Instant = string

  /** `default(DateTimeOffset)`, the value of a `DateTimeOffset` property never assigned. */
  const MinInstant: Instant := "0001-01-01T00:00:00.0000000+00:00"

  const MinInt64: int := -0x8000_0000_0000_0000
  const MaxInt64: int := 0x7FFF_FFFF_FFFF_FFFF

  /** A C# `long`. */
  type Int64 = x: int | MinInt64 <= x <= MaxInt64

  /**
   * `Version++` in an unchecked context: the sum `v + 1` taken modulo 2^64 into the `long` range,
   * so `long.MaxValue` wraps to `long.MinValue`.
   */
  function Incremented(v: Int64): (r: Int64)
    ensures (r - v - 1) % 0x1_0000_0000_0000_0000 == 0
  {
    if v == MaxInt64 then MinInt64 else v + 1
  }

  /** The version after n modifications starting from `v`. */
  function IncrementedTimes(v: Int64, n: nat): Int64
  {
    if n == 0 then v else Incremented(IncrementedTimes(v, n - 1))
  }

  /** Created, then modified n times: version 1 + n, as long as that fits in a `long`. */
  lemma {:induction false} VersionCountsModifications(n: nat)
    requires 1 + n <= MaxInt64
    ensures IncrementedTimes(1, n) == 1 + n
  {
    if n > 0 {
      VersionCountsModifications(n - 1);
    }
  }

  class AuditableEntity {
    var createdOnUtc: Instant
    var createdBy: string
    var modifiedOnUtc: Option<Instant>
    var modifiedBy: Option<string>
    var version: Int64

    /** The field initialisers. */
    constructor()
      ensures createdOnUtc == MinInstant && createdBy == "system"
      ensures modifiedOnUtc == None && modifiedBy == None && version == 0
    {
      createdOnUtc := MinInstant;
      createdBy := "system";
      modifiedOnUtc := None;
      modifiedBy := None;
      version := 0;
    }

    /** `MarkCreated`; `now` is what the `TimeProvider` returns. */
    method MarkCreated(now: Instant, actor: string)
      modifies this
      ensures createdOnUtc == now && createdBy == actor && version == 1
      ensures modifiedOnUtc == old(modifiedOnUtc) && modifiedBy == old(modifiedBy)
    {
      createdOnUtc := now;
      createdBy := actor;
      version := 1;
    }

    /** `MarkModified`: the version goes up by one (wrapping at `long.MaxValue`). */
    method MarkModified(now: Instant, actor: string)
      modifies this
      ensures modifiedOnUtc == Some(now) && modifiedBy == Some(actor)
      ensures version == Incremented(old(version))
      ensures createdOnUtc == old(createdOnUtc) && createdBy == old(createdBy)
    {
      modifiedOnUtc := Some(now);
      modifiedBy := Some(actor);
      version := Incremented(version);
    }
  }
}
