/** The pure part of the per-job dispatch lease (internal/dispatch/lock.go).
    Times are microseconds, the precision in which the API server stores RenewTime. */
module LeaseLock {
  import opened Options

  const SECOND: nat := 1_000_000

  /** The time to live of a lock; its whole seconds fit the 32-bit field of the lease. */
  type Ttl = t: nat | t < 0x8000_0000 * SECOND

  datatype Lease = Lease(holder: Option<string>, seconds: Option<int>, renew: Option<int>, rv: nat)

  /** The duration a reader with time to live `ttl` grants the lease. */
  function Duration(l: Lease, ttl: Ttl): int {
    if l.seconds.Some? && l.seconds.value > 0 then l.seconds.value * SECOND else ttl
  }

  predicate HolderActive(l: Lease, ttl: Ttl, now: int) {
    && l.holder.Some? && l.holder.value != ""
    && l.renew.Some?
    && now < l.renew.value + Duration(l, ttl)
  }

  /** Which leases keep others out: held by somebody, with a renewal, until the seconds the lease names
      are over, or the reader's time to live if it names none. */
  lemma ActiveExact(l: Lease, ttl: Ttl, now: int)
    ensures HolderActive(l, ttl, now) ==> l.holder.Some? && l.holder.value != "" && l.renew.Some?
    ensures l.holder.Some? && l.holder.value != "" && l.renew.Some? ==>
              (HolderActive(l, ttl, now) <==>
               now - l.renew.value < if l.seconds.Some? && l.seconds.value >= 1 then l.seconds.value * 1_000_000 else ttl)
  {
  }

  /** The lease a locker writes when it claims the lock at time `at`. */
  function Claim(identity: string, ttl: Ttl, at: int, rv: nat): Lease {
    Lease(Some(identity), Some(ttl / SECOND), Some(at), rv)
  }

  /** How long a claim written with `ttl` stays active: whole seconds, unless that is zero. */
  function Tenure(ttl: Ttl): nat {
    if ttl / SECOND > 0 then (ttl / SECOND) * SECOND else ttl
  }

  /** A claim is active exactly until its tenure is over, whoever looks. */
  lemma ClaimActive(identity: string, ttl: Ttl, at: int, rv: nat, now: int)
    ensures HolderActive(Claim(identity, ttl, at, rv), ttl, now) <==> identity != "" && now < at + Tenure(ttl)
  {
  }
}
