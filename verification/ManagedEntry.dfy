/** key_value/shared/utils/managed_entry.py: a value with its TTL and its expiry. */
module ManagedEntries {
  import opened Prelude
  import opened TimeToLive

  /** An entry without an expiry never expires; the expiry instant itself counts as expired. */
  predicate ExpiredAt(expiresAt: Option<Time>, clock: Time) {
    expiresAt.Some? && expiresAt.value <= clock
  }

  class ManagedEntry {
    var value: Dict
    var createdAt: Option<Time>
    var ttl: Option<real>
    var expiresAt: Option<Time>

    /** `__init__` and `__post_init__`: whichever of TTL and expiry is missing is computed
        from the other and the clock; given both, both are kept as they are. */
    constructor (value: Dict, createdAt: Option<Time>, ttl: Option<real>, expiresAt: Option<Time>, clock: Time)
      ensures this.value == value && this.createdAt == createdAt
      ensures ttl.Some? ==> this.ttl == ttl
      ensures expiresAt.Some? ==> this.expiresAt == expiresAt
      ensures this.ttl.Some? == this.expiresAt.Some? == (ttl.Some? || expiresAt.Some?)
      ensures ttl.Some? != expiresAt.Some? ==> this.expiresAt.value - this.ttl.value == clock
    {
      this.value := value;
      this.createdAt := createdAt;
      this.ttl := ttl;
      this.expiresAt := expiresAt;
      new;
      if this.ttl.Some? && this.expiresAt.None? {
        this.expiresAt := Some(clock + this.ttl.value);
      } else if this.expiresAt.Some? && this.ttl.None? {
        RecalculateTtl(clock);
      }
    }

    /** Fills a missing TTL from the expiry; an entry that already has one is left alone. */
    method RecalculateTtl(clock: Time)
      modifies this`ttl
      ensures old(ttl).None? && expiresAt.Some? ==> ttl == Some(expiresAt.value - clock)
      ensures old(ttl).Some? || expiresAt.None? ==> ttl == old(ttl)
    {
      if expiresAt.Some? && ttl.None? {
        ttl := Some(expiresAt.value - clock);
      }
    }

    predicate IsExpired(clock: Time)
      reads this
    {
      ExpiredAt(expiresAt, clock)
    }
  }
}
