/**
  Resolution of an Expiry against a Memory's TTL bounds. Times are integers (nanoseconds), with zero
  for the zero time, which means never; durations are int64, and subtracting times saturates.
 */
module Expiry {
  import opened Basics

  type Time = int

  const MIN_DURATION := -0x8000_0000_0000_0000
  const MAX_DURATION := 0x7fff_ffff_ffff_ffff

  type Duration = d: int | MIN_DURATION <= d <= MAX_DURATION

  datatype Expiry = Default | Never | Keep | After(dur: Duration) | At(at: Time)

  datatype Config = Config(defaultTTL: Duration, minTTL: Duration, maxTTL: Duration)
  {
    /** What the option constructors and NewMemory let through. */
    predicate Valid() {
      0 <= defaultTTL && 0 <= minTTL && 0 <= maxTTL && (maxTTL > 0 ==> minTTL <= maxTTL)
    }
  }

  /** An entry is expired from the instant of its expiry on; the zero time never comes. */
  predicate Expired(expiresAt: Time, now: Time) {
    expiresAt != 0 && now >= expiresAt
  }

  /** t.Sub(u): the difference, pinned to the range of a Duration. */
  function Sub(t: Time, u: Time): Duration {
    if t - u < MIN_DURATION then MIN_DURATION else if t - u > MAX_DURATION then MAX_DURATION else t - u
  }

  function ClampLifetime(cfg: Config, now: Time, life: Duration): Time {
    var floored := if cfg.minTTL > 0 && life < cfg.minTTL then cfg.minTTL else life;
    var capped := if cfg.maxTTL > 0 && floored > cfg.maxTTL then cfg.maxTTL else floored;
    if capped <= 0 then now else now + capped
  }

  function ClampNever(cfg: Config, now: Time): Time {
    if cfg.maxTTL > 0 then now + cfg.maxTTL else 0
  }

  function ResolveDefault(cfg: Config, now: Time): Time {
    if cfg.defaultTTL > 0 then ClampLifetime(cfg, now, cfg.defaultTTL) else ClampNever(cfg, now)
  }

  function ResolveExpiry(cfg: Config, exp: Expiry, now: Time, existing: Time, found: bool): Time {
    match exp
    case Keep => if found then existing else ResolveDefault(cfg, now)
    case Default => ResolveDefault(cfg, now)
    case Never => ClampNever(cfg, now)
    case At(at) =>
      if at == 0 then ClampNever(cfg, now)
      else
        var life := Sub(at, now);
        if cfg.maxTTL == 0 && now + life < at then at else ClampLifetime(cfg, now, life)
    case After(dur) => ClampLifetime(cfg, now, dur)
  }

  // ---------------------------------------------------------------- the ideal

  /** A lifetime without bounds on its size, or no end at all. */
  datatype Lifetime = Forever | For(span: int)

  /** The lifetime an expiry asks for. */
  function Requested(cfg: Config, exp: Expiry, now: Time): Lifetime
    requires !exp.Keep?
  {
    match exp
    case Never => Forever
    case At(at) => if at == 0 then Forever else For(at - now)
    case After(dur) => For(dur)
    case Default => if cfg.defaultTTL > 0 then For(cfg.defaultTTL) else Forever
  }

  predicate Allowed(cfg: Config, life: int) {
    cfg.minTTL <= life && (cfg.maxTTL > 0 ==> life <= cfg.maxTTL)
  }

  function Distance(x: int, y: int): int {
    if x < y then y - x else x - y
  }

  /** The allowed lifetime nearest to the requested one. */
  ghost predicate NearestAllowed(cfg: Config, requested: int, life: int) {
    Allowed(cfg, life) && forall other :: Allowed(cfg, other) ==> Distance(requested, life) <= Distance(requested, other)
  }

  /** An expiry is ideal for a request if it ends the nearest allowed lifetime; never, only if that is allowed. */
  ghost predicate Ideal(cfg: Config, request: Lifetime, now: Time, expiresAt: Time) {
    match request
    case Forever => expiresAt == if cfg.maxTTL == 0 then 0 else now + cfg.maxTTL
    case For(span) => expiresAt != 0 && NearestAllowed(cfg, span, expiresAt - now)
  }

  /**
    Saturating arithmetic resolves every expiry exactly as unbounded clamping would, however far away
    its time is in either direction, and no other expiry is ideal.
   */
  lemma ResolutionIsIdeal(cfg: Config, exp: Expiry, now: Time, existing: Time, found: bool, e: Time)
    requires cfg.Valid() && now > 0 && !(exp.Keep? && found)
    ensures var request := Requested(cfg, if exp.Keep? then Default else exp, now);
      Ideal(cfg, request, now, e) <==> e == ResolveExpiry(cfg, exp, now, existing, found)
  {
    var request := Requested(cfg, if exp.Keep? then Default else exp, now);
    var r := ResolveExpiry(cfg, exp, now, existing, found);
    if request.For? {
      ResolvedAsClamped(cfg, exp, now, existing, found);
      ClampIsNearest(cfg, request.span, r - now);
      ClampIsNearest(cfg, request.span, e - now);
    }
  }

  function Clamped(cfg: Config, span: int): int {
    var floored := Max(span, cfg.minTTL);
    if cfg.maxTTL > 0 then Min(floored, cfg.maxTTL) else floored
  }

  lemma ResolvedAsClamped(cfg: Config, exp: Expiry, now: Time, existing: Time, found: bool)
    requires cfg.Valid() && now > 0 && !(exp.Keep? && found)
    requires Requested(cfg, if exp.Keep? then Default else exp, now).For?
    ensures ResolveExpiry(cfg, exp, now, existing, found) ==
      now + Clamped(cfg, Requested(cfg, if exp.Keep? then Default else exp, now).span)
  {}

  lemma ClampIsNearest(cfg: Config, span: int, life: int)
    requires cfg.Valid()
    ensures NearestAllowed(cfg, span, life) <==> life == Clamped(cfg, span)
  {
    assert Allowed(cfg, Clamped(cfg, span));
  }

  /**
    Passing a resolved expiry back to At at a later set re-applies it: it stands unless the minimum
    now asks for more, and never stays never.
   */
  lemma ResolvedExpiryReapplies(cfg: Config, exp: Expiry, set0: Time, existing: Time, found: bool, later: Time, f: bool)
    requires cfg.Valid() && 0 < set0 <= later && !(exp.Keep? && found)
    ensures var e := ResolveExpiry(cfg, exp, set0, existing, found);
      ResolveExpiry(cfg, At(e), later, existing, f) == if e == 0 then 0 else Max(e, later + cfg.minTTL)
  {
    var e := ResolveExpiry(cfg, exp, set0, existing, found);
    ResolvedBounds(cfg, exp, set0, existing, found);
    if e != 0 { ResolvedAsClamped(cfg, At(e), later, existing, f); }
  }

  /**
    What each expiry asks for, and gets: Keep is the live entry's expiry and else Default; Default is
    the configured lifetime and else Never; Never, or a zero time, is never unless there is a maximum; a
    lifetime, or a time that far away, is granted as it is within the bounds and else cut to the nearer one.
   */
  lemma ExpiriesMean(cfg: Config, exp: Expiry, now: Time, existing: Time, found: bool)
    requires cfg.Valid() && now > 0
    ensures var e := ResolveExpiry(cfg, exp, now, existing, found);
      && (exp.Keep? && found ==> e == existing)
      && (exp.Keep? && !found ==> e == ResolveExpiry(cfg, Default, now, existing, found))
      && (exp.Default? && cfg.defaultTTL > 0 ==> e == ResolveExpiry(cfg, After(cfg.defaultTTL), now, existing, found))
      && (exp.Default? && cfg.defaultTTL == 0 ==> e == ResolveExpiry(cfg, Never, now, existing, found))
      && (exp.Never? || exp == At(0) ==> e == if cfg.maxTTL == 0 then 0 else now + cfg.maxTTL)
      && (exp.After? && exp.dur >= cfg.minTTL && (cfg.maxTTL == 0 || exp.dur <= cfg.maxTTL) ==> e == now + exp.dur)
      && (exp.After? && exp.dur < cfg.minTTL ==> e == now + cfg.minTTL)
      && (exp.After? && cfg.maxTTL > 0 && exp.dur > cfg.maxTTL ==> e == now + cfg.maxTTL)
      && (exp.At? && exp.at != 0 && exp.at - now < cfg.minTTL ==> e == now + cfg.minTTL)
      && (exp.At? && exp.at != 0 && cfg.maxTTL > 0 && exp.at - now > cfg.maxTTL ==> e == now + cfg.maxTTL)
      && (exp.At? && exp.at != 0 && exp.at - now >= cfg.minTTL && (cfg.maxTTL == 0 || exp.at - now <= cfg.maxTTL) ==> e == exp.at)
  {}

  /** With a maximum, what a set resolves to is a time, at most the maximum away; and never in the past of the set. */
  lemma ResolvedBounds(cfg: Config, exp: Expiry, now: Time, existing: Time, found: bool)
    requires cfg.Valid() && now > 0 && !(exp.Keep? && found)
    ensures var e := ResolveExpiry(cfg, exp, now, existing, found);
      && (cfg.maxTTL > 0 ==> now + cfg.minTTL <= e <= now + cfg.maxTTL)
      && (e != 0 ==> now + cfg.minTTL <= e)
  {
    var request := Requested(cfg, if exp.Keep? then Default else exp, now);
    if request.For? { ResolvedAsClamped(cfg, exp, now, existing, found); }
  }
}
