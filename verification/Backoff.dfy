/** Per-key retry delays (internal/dispatch/backoff.go), in nanoseconds: exponential with
    multiplier 3/2, capped, and up to a fifth of jitter either way. */
module Backoff {
  datatype Config = Config(initial: nat, max: nat)

  const SECOND: nat := 1_000_000_000
  const DEFAULT := Config(10 * SECOND, 300 * SECOND)

  function Min(a: nat, b: nat): nat { if a <= b then a else b }

  /** The delay before jitter after k earlier delays since the last reset. */
  function Base(cfg: Config, k: nat): nat {
    if k == 0 then cfg.initial else Min(Base(cfg, k - 1) * 3 / 2, cfg.max)
  }

  /** Within the jitter range of base b: at most a fifth of it off. */
  predicate Spread(b: nat, d: nat) { 4 * b <= 5 * d <= 6 * b }

  /** A wait after a failure whose error carries Retry-After `ra`: the larger of `ra` and some
      jittered delay. */
  predicate WaitOk(b: nat, ra: nat, w: nat) {
    w >= ra && 4 * b <= 5 * w && (5 * w <= 6 * b || w == ra)
  }

  /** How many delays a key was handed since its last reset. */
  function Count(m: map<string, nat>, key: string): nat { if key in m then m[key] else 0 }

  /** No key but this one has another count. */
  ghost predicate SameBut(key: string, m: map<string, nat>, m': map<string, nat>) {
    forall k :: k != key ==> Count(m, k) == Count(m', k)
  }

  /** `r` stands for the random number drawn. */
  function Jitter(d: nat, r: nat): (j: nat)
    ensures Spread(d, j)
  {
    var most := d / 5;
    if most == 0 then d else d + r % (2 * most + 1) - most
  }

  /** The wait after a failure: the jittered delay, or the longer Retry-After. */
  function WaitOf(b: nat, ra: nat, r: nat): (w: nat)
    ensures WaitOk(b, ra, w)
  {
    if ra > Jitter(b, r) then ra else Jitter(b, r)
  }

  class Backoff {
    const cfg: Config
    var entries: map<string, nat>
    ghost var failures: map<string, nat>     // delays handed out since the key's last reset

    constructor (cfg: Config)
      ensures this.cfg == cfg && Valid() && entries == map[] && failures == map[]
    {
      this.cfg := cfg;
      entries, failures := map[], map[];
    }

    ghost predicate Valid()
      reads this
    {
      && entries.Keys == failures.Keys
      && forall key :: key in entries ==> entries[key] == Base(cfg, failures[key])
    }

    method DelayFor(key: string, r: nat) returns (d: nat)
      requires Valid()
      modifies this
      ensures Valid() && d == Jitter(Base(cfg, Count(old(failures), key)), r)
      ensures Count(failures, key) == Count(old(failures), key) + 1
      ensures SameBut(key, old(failures), failures)
    {
      var entry := if key in entries then entries[key] else cfg.initial;
      entries := entries[key := Min(entry * 3 / 2, cfg.max)];
      failures := failures[key := Count(failures, key) + 1];
      d := Jitter(entry, r);
    }

    method Reset(key: string)
      requires Valid()
      modifies this
      ensures Valid() && key !in entries && Count(failures, key) == 0
      ensures SameBut(key, old(failures), failures)
    {
      entries := entries - {key};
      failures := failures - {key};
    }
  }

  /** Every delay in the jitter range can be drawn. */
  lemma JitterReachesAll(d: nat, j: nat)
    requires Spread(d, j)
    ensures exists r: nat :: Jitter(d, r) == j
  {
    var most := d / 5;
    var r: nat := j - (d - most);
    if most > 0 {
      Remainder(r, 2 * most + 1);
    }
    assert Jitter(d, r) == j;
  }

  lemma Remainder(r: nat, m: nat)
    requires r < m
    ensures r % m == r
  {
  }

  /** Every wait that is in order can come about. */
  lemma WaitReached(b: nat, ra: nat, w: nat)
    requires WaitOk(b, ra, w)
    ensures exists r: nat :: WaitOf(b, ra, r) == w
  {
    var d := if 5 * w <= 6 * b then w else b;
    JitterReachesAll(b, d);
    var r: nat :| Jitter(b, r) == d;
    assert WaitOf(b, ra, r) == w;
  }

  function Sum(ws: seq<nat>): nat {
    if ws == [] then 0 else ws[0] + Sum(ws[1..])
  }

  // ----- the delays against initial * 1.5^k -----

  function Pow(b: nat, k: nat): (r: nat)
    ensures b > 0 ==> r > 0
  {
    if k == 0 then 1 else b * Pow(b, k - 1)
  }

  lemma MulMono(a: nat, b: nat, c: nat)
    requires a <= b
    ensures a * c <= b * c
  {
  }

  /** Truncating 3b/2 loses at most half a unit. */
  lemma Scale(h: nat, b: nat, p: nat)
    requires h == b * 3 / 2
    ensures 3 * (b * p) - p <= h * (2 * p) <= 3 * (b * p)
  {
    MulMono(2 * h, 3 * b, p);
    MulMono(3 * b, 2 * h + 1, p);
  }

  /** In units of 2^-k: the k-th delay never exceeds initial * 1.5^k, and, as long as the cap is
      not reached, falls short of it by at most 1.5^k - 1 nanoseconds, all of it from truncation. */
  lemma {:induction false} BaseBounds(cfg: Config, k: nat)
    requires cfg.initial <= cfg.max
    ensures Base(cfg, k) <= cfg.max
    ensures Base(cfg, k) * Pow(2, k) <= cfg.initial * Pow(3, k)
    ensures Base(cfg, k) == cfg.max
         || cfg.initial * Pow(3, k) - (Pow(3, k) - Pow(2, k)) <= Base(cfg, k) * Pow(2, k)
  {
    if k > 0 {
      BaseBounds(cfg, k - 1);
      var two, three := Pow(2, k - 1), Pow(3, k - 1);
      BaseStep(cfg, Base(cfg, k - 1), two, three, cfg.initial * three);
      MulTriple(cfg.initial, three);
      assert Pow(2, k) == 2 * two && Pow(3, k) == 3 * three;
    }
  }

  lemma MulTriple(a: nat, b: nat)
    ensures a * (3 * b) == 3 * (a * b)
  {
  }

  lemma BaseStep(cfg: Config, b: nat, two: nat, three: nat, ideal: nat)
    requires b <= cfg.max && b * two <= ideal
    requires b == cfg.max || ideal - (three - two) <= b * two
    ensures var n := Min(b * 3 / 2, cfg.max);
            && n <= cfg.max && n * (2 * two) <= 3 * ideal
            && (n == cfg.max || 3 * ideal - (3 * three - 2 * two) <= n * (2 * two))
  {
    var h := b * 3 / 2;
    Scale(h, b, two);
    MulMono(Min(h, cfg.max), h, 2 * two);
  }

  /** With the default configuration there is no truncation: the k-th delay is exactly
      min(10 s * 1.5^k, 5 min). */
  lemma DefaultDelays(k: nat)
    ensures Base(DEFAULT, k) * Pow(2, k) == Min(DEFAULT.initial * Pow(3, k), DEFAULT.max * Pow(2, k))
  {
    if k <= 9 {
      EarlyDelays(k);
    } else {
      Capped(k);
    }
  }

  lemma EarlyDelays(k: nat)
    requires k <= 9
    ensures Base(DEFAULT, k) * Pow(2, k) == Min(DEFAULT.initial * Pow(3, k), DEFAULT.max * Pow(2, k))
    ensures k == 9 ==> Base(DEFAULT, k) == DEFAULT.max && 30 * Pow(2, k) <= Pow(3, k)
  {
    EarlyTable();
  }

  lemma EarlyTable()
    ensures Base(DEFAULT, 0) == 10_000_000_000 && Pow(2, 0) == 1 && Pow(3, 0) == 1
    ensures Base(DEFAULT, 1) == 15_000_000_000 && Pow(2, 1) == 2 && Pow(3, 1) == 3
    ensures Base(DEFAULT, 2) == 22_500_000_000 && Pow(2, 2) == 4 && Pow(3, 2) == 9
    ensures Base(DEFAULT, 3) == 33_750_000_000 && Pow(2, 3) == 8 && Pow(3, 3) == 27
    ensures Base(DEFAULT, 4) == 50_625_000_000 && Pow(2, 4) == 16 && Pow(3, 4) == 81
    ensures Base(DEFAULT, 5) == 75_937_500_000 && Pow(2, 5) == 32 && Pow(3, 5) == 243
    ensures Base(DEFAULT, 6) == 113_906_250_000 && Pow(2, 6) == 64 && Pow(3, 6) == 729
    ensures Base(DEFAULT, 7) == 170_859_375_000 && Pow(2, 7) == 128 && Pow(3, 7) == 2187
    ensures Base(DEFAULT, 8) == 256_289_062_500 && Pow(2, 8) == 256 && Pow(3, 8) == 6561
    ensures Base(DEFAULT, 9) == 300_000_000_000 && Pow(2, 9) == 512 && Pow(3, 9) == 19683
  {
  }

  /** From the tenth delay on the cap is in force. */
  lemma {:induction false} Capped(k: nat)
    requires k >= 9
    ensures Base(DEFAULT, k) == DEFAULT.max && 30 * Pow(2, k) <= Pow(3, k)
  {
    if k == 9 {
      EarlyDelays(9);
    } else {
      Capped(k - 1);
    }
  }
}
