/**
 Freshness lifetimes, age and the decision to validate (resource.go, handler.go), sections 4.2
 and 5.2.1 of RFC 7234.

 A time.Time is an unbounded count of nanoseconds.  A time.Duration is an int64: Time.Sub
 saturates, `+`, `-` and `*` wrap, `/` truncates toward zero, and all of that is kept here.  Header
 fields and directives come parsed; the clock is read once for each decision.
 */
module Freshness {
  import opened Wrappers

  type Time = int

  const MAX: int := 0x7fff_ffff_ffff_ffff
  const MIN: int := -0x8000_0000_0000_0000
  const SECOND: int := 1_000_000_000
  const TWO64: int := 0x1_0000_0000_0000_0000

  predicate Fits(x: int) {
    MIN <= x <= MAX
  }

  type Duration = x: int | Fits(x)

  /** int64 arithmetic. */
  function Wrap(x: int): Duration {
    (x - MIN) % TWO64 + MIN
  }

  /** Time.Sub */
  function Sub(t: Time, u: Time): Duration {
    if t - u > MAX then MAX else if t - u < MIN then MIN else t - u
  }

  /** Go's division by ten. */
  function Tenth(x: Duration): Duration {
    var n: int := x;
    assert Fits(n);
    if n >= 0 then n / 10 else -((-n) / 10)
  }

  /** A directive that may be absent or hold something time.ParseDuration refuses. */
  datatype Directive = Absent | Malformed | Seconds(d: Duration)

  datatype Expiry = NoExpires | BadExpires | ExpiresAt(at: Time)

  /** A stored response; `age` is the Age field when it parses, `lastModified` is the zero time for
      a Last-Modified that does not. */
  datatype Response = Response(
    sMaxAge: Directive, maxAge: Directive, expires: Expiry,
    date: Option<Time>, proxyDate: Option<Time>, age: Option<int>, lastModified: Option<Time>,
    mustRevalidate: bool, proxyRevalidate: bool, stale: bool)

  datatype MaxStale = NoMaxStale | AnyStale | StaleFor(d: Duration)

  /** A malformed max-stale counts as zero. */
  datatype Request = Request(maxAge: Directive, minFresh: Directive, maxStale: MaxStale)

  function Parse(d: Directive): Option<Duration> {
    match d
    case Seconds(x) => Some(x)
    case _ => None
  }

  // ------------------------------------------------------------------- the source

  function MaxAge(res: Response, shared: bool, now: Time): Option<Duration> {
    if !res.sMaxAge.Absent? && shared then Parse(res.sMaxAge)
    else if !res.maxAge.Absent? then Parse(res.maxAge)
    else match res.expires
      case NoExpires => Some(0)
      case BadExpires => Some(0)
      case ExpiresAt(t) =>
        var date := if res.date.Some? then res.date.value else if res.proxyDate.Some? then res.proxyDate.value else now;
        Some(Sub(t, date))
  }

  predicate HasExplicitExpiration(res: Response, shared: bool) {
    !res.maxAge.Absent? || (shared && !res.sMaxAge.Absent?) || !res.expires.NoExpires?
  }

  function HeuristicFreshness(res: Response, shared: bool, now: Time): Duration {
    if !HasExplicitExpiration(res, shared) && res.lastModified.Some? then Tenth(Sub(now, res.lastModified.value)) else 0
  }

  /** What the local clock measures the age from. */
  function Origin(res: Response): Option<Time> {
    if res.proxyDate.Some? then res.proxyDate else res.date
  }

  function Age(res: Response, now: Time): Option<Duration> {
    var age: Duration := if res.age.Some? then Wrap(SECOND * res.age.value) else 0;
    if Origin(res).Some? then Some(Wrap(Sub(now, Origin(res).value) + age)) else None
  }

  predicate MustValidate(res: Response, shared: bool) {
    (!res.sMaxAge.Absent? && shared) || res.mustRevalidate || (res.proxyRevalidate && shared)
  }

  /** The lifetime before heuristics: the response's own, cut short by the request's max-age. */
  function AllowedAge(res: Response, req: Request, shared: bool, now: Time): Option<Duration> {
    var m := MaxAge(res, shared, now);
    if m.None? || req.maxAge.Malformed? then None
    else if req.maxAge.Seconds? && req.maxAge.d < m.value then Some(req.maxAge.d)
    else m
  }

  function FreshFor(res: Response, req: Request, shared: bool, now: Time): Option<Duration> {
    var m := AllowedAge(res, req, shared, now);
    var age := Age(res, now);
    if m.None? || age.None? then None
    else if res.stale then Some(0)
    else
      var h := HeuristicFreshness(res, shared, now);
      Some(Wrap((if h > m.value then h else m.value) - age.value))
  }

  /** The decision, given how long the response stays fresh. */
  predicate MustAsk(fresh_: Duration, must: bool, req: Request) {
    if fresh_ <= 0 && must then true
    else if req.minFresh.Malformed? then true
    else if req.minFresh.Seconds? && fresh_ < req.minFresh.d then true
    else if fresh_ <= 0 && req.maxStale.AnyStale? then false
    else if fresh_ <= 0 && req.maxStale.StaleFor? && req.maxStale.d >= Wrap(fresh_ * -1) then false
    else fresh_ <= 0
  }

  predicate NeedsValidation(res: Response, req: Request, shared: bool, now: Time) {
    || res.stale || FreshFor(res, req, shared, now).None?
    || MustAsk(FreshFor(res, req, shared, now).value, MustValidate(res, shared), req)
  }

  // ------------------------------------------------------------ exact arithmetic

  /** The lifetime the source compares the age with. */
  function Lifetime(res: Response, req: Request, shared: bool, now: Time): int
    requires AllowedAge(res, req, shared, now).Some?
  {
    var m, h := AllowedAge(res, req, shared, now).value, HeuristicFreshness(res, shared, now);
    if h > m then h else m
  }

  function AgeField(res: Response): int {
    if res.age.Some? then SECOND * res.age.value else 0
  }

  /** Time since the response was received plus the Age it came with, without overflow. */
  function TrueAge(res: Response, now: Time): int
    requires Origin(res).Some?
  {
    Sub(now, Origin(res).value) + AgeField(res)
  }

  /** The fields the decision needs are there and parse. */
  predicate Decidable(res: Response, req: Request, shared: bool) {
    !res.stale && Origin(res).Some? && AllowedAge(res, req, shared, 0).Some?
  }

  function TrueFreshness(res: Response, req: Request, shared: bool, now: Time): int
    requires Decidable(res, req, shared)
  {
    AllowedStays(res, req, shared, 0, now);
    Lifetime(res, req, shared, now) - TrueAge(res, now)
  }

  /** With an origin to measure from, the lifetime before heuristics does not move. */
  lemma AllowedStays(res: Response, req: Request, shared: bool, now: Time, later: Time)
    requires Origin(res).Some?
    ensures AllowedAge(res, req, shared, now) == AllowedAge(res, req, shared, later)
  {
  }

  lemma WrapIsWhole(x: int)
    ensures exists q: int :: x == Wrap(x) + TWO64 * q
  {
    assert x == Wrap(x) + TWO64 * ((x - MIN) / TWO64);
  }

  lemma WrapUnique(x: int, y: int, q: int)
    requires x == y + TWO64 * q
    ensures Wrap(x) == Wrap(y)
  {
    var a, b := x - MIN, y - MIN;
    assert a == b + TWO64 * q;
    var r := b % TWO64;
    assert a == r + TWO64 * (b / TWO64 + q);
    RemainderUnique(a, r, b / TWO64 + q);
  }

  lemma RemainderUnique(a: int, r: int, q: int)
    requires a == r + TWO64 * q && 0 <= r < TWO64
    ensures a % TWO64 == r
  {
    var q', r' := a / TWO64, a % TWO64;
    assert TWO64 * (q' - q) == r - r';
  }

  /** Wrapping in the middle of a sum changes nothing at the end. */
  lemma WrapInside(a: int, b: int)
    ensures Wrap(a + Wrap(b)) == Wrap(a + b) && Wrap(a - Wrap(b)) == Wrap(a - b)
  {
    WrapIsWhole(b);
    var q: int :| b == Wrap(b) + TWO64 * q;
    WrapUnique(a + b, a + Wrap(b), q);
    WrapUnique(a - b, a - Wrap(b), -q);
  }

  lemma AgeExact(res: Response, now: Time)
    requires Origin(res).Some?
    ensures Age(res, now) == Some(Wrap(TrueAge(res, now)))
  {
    assert Wrap(0) == 0;
    WrapInside(Sub(now, Origin(res).value), AgeField(res));
  }

  /** The code's freshness is the true one modulo 2^64, so it is right exactly when that fits. */
  lemma FreshForExact(res: Response, req: Request, shared: bool, now: Time)
    requires Decidable(res, req, shared)
    ensures FreshFor(res, req, shared, now) == Some(Wrap(TrueFreshness(res, req, shared, now)))
    ensures FreshFor(res, req, shared, now) == Some(TrueFreshness(res, req, shared, now)) <==>
            Fits(TrueFreshness(res, req, shared, now))
  {
    AllowedStays(res, req, shared, 0, now);
    var l, a := Lifetime(res, req, shared, now), TrueAge(res, now);
    AgeExact(res, now);
    assert FreshFor(res, req, shared, now) == Some(Wrap(l - Wrap(a)));
    WrapInside(l, a);
    WrapFits(l - a);
  }

  lemma WrapFits(x: int)
    ensures Wrap(x) == x <==> Fits(x)
  {
  }

  // ----------------------------------------------------------------- over time

  /** The lifetime may grow with the clock. */
  predicate Heuristic(res: Response, shared: bool) {
    !HasExplicitExpiration(res, shared) && res.lastModified.Some?
  }

  /** From `now` to `later` the response's date is within 292 years of the clock, on either side. */
  predicate Unsaturated(res: Response, now: Time, later: Time)
    requires Origin(res).Some?
  {
    Origin(res).value + MIN <= now && later <= Origin(res).value + MAX
  }

  lemma TenthGrowsSlowly(x: Duration, y: Duration)
    requires x <= y
    ensures 0 <= Tenth(y) - Tenth(x) <= y - x
  {
  }

  /** Time.Sub grows with the clock and no faster. */
  lemma SubGrows(now: Time, later: Time, u: Time)
    requires now <= later
    ensures 0 <= Sub(later, u) - Sub(now, u) <= later - now && Sub(later, u) - Sub(now, u) < TWO64
    ensures u + MIN <= now && later <= u + MAX ==> Sub(later, u) - Sub(now, u) == later - now
  {
  }

  lemma LifetimeGrows(res: Response, req: Request, shared: bool, now: Time, later: Time)
    requires Decidable(res, req, shared) && now <= later
    ensures AllowedAge(res, req, shared, now) == AllowedAge(res, req, shared, later) == AllowedAge(res, req, shared, 0)
    ensures 0 <= Lifetime(res, req, shared, later) - Lifetime(res, req, shared, now) <= later - now
    ensures !Heuristic(res, shared) ==> Lifetime(res, req, shared, later) == Lifetime(res, req, shared, now)
  {
    AllowedStays(res, req, shared, 0, now);
    AllowedStays(res, req, shared, 0, later);
    if res.lastModified.Some? {
      SubGrows(now, later, res.lastModified.value);
      TenthGrowsSlowly(Sub(now, res.lastModified.value), Sub(later, res.lastModified.value));
    }
  }

  /** Without a heuristic lifetime the true freshness never grows, whatever the dates are; with one
      it does not while no age is saturated. */
  lemma FreshnessNeverGrows(res: Response, req: Request, shared: bool, now: Time, later: Time)
    requires Decidable(res, req, shared) && now <= later
    requires Heuristic(res, shared) ==> Unsaturated(res, now, later)
    ensures TrueFreshness(res, req, shared, later) <= TrueFreshness(res, req, shared, now)
  {
    LifetimeGrows(res, req, shared, now, later);
    SubGrows(now, later, Origin(res).value);
  }

  /** must-revalidate, min-fresh and max-stale all ask sooner when less freshness is left. */
  lemma MustAskAntitone(f: Duration, g: Duration, must: bool, req: Request)
    requires MIN < g <= f && MustAsk(f, must, req)
    ensures MustAsk(g, must, req)
  {
    WrapFits(f * -1);
    WrapFits(g * -1);
  }

  /** Within int64, a response that needs validation keeps needing it. */
  lemma ValidationStaysNeeded(res: Response, req: Request, shared: bool, now: Time, later: Time)
    requires now <= later && NeedsValidation(res, req, shared, now)
    requires Decidable(res, req, shared) && Heuristic(res, shared) ==> Unsaturated(res, now, later)
    requires Decidable(res, req, shared) ==> TrueFreshness(res, req, shared, now) <= MAX
    requires Decidable(res, req, shared) ==> MIN < TrueFreshness(res, req, shared, later)
    ensures NeedsValidation(res, req, shared, later)
  {
    if Decidable(res, req, shared) {
      FreshnessNeverGrows(res, req, shared, now, later);
      FreshForExact(res, req, shared, now);
      FreshForExact(res, req, shared, later);
      var f, g := TrueFreshness(res, req, shared, now), TrueFreshness(res, req, shared, later);
      MustAskAntitone(f, g, MustValidate(res, shared), req);
    } else {
      if !res.stale && Origin(res).Some? {
        AllowedStays(res, req, shared, 0, later);
      }
    }
  }

  // ------------------------------------------------------- what the decision means

  /** The request takes a response that is stale by `d`. */
  predicate Tolerated(m: MaxStale, d: int) {
    m.AnyStale? || (m.StaleFor? && d <= m.d)
  }

  /** Within int64 a response is reused without validation exactly when it is young enough for
      min-fresh, and is either still fresh or stale within an allowance nothing forbids. */
  lemma ReusedExactly(res: Response, req: Request, shared: bool, now: Time)
    requires Decidable(res, req, shared) && MIN < TrueFreshness(res, req, shared, now) <= MAX
    requires AllowedAge(res, req, shared, now).Some?
    ensures var age, life := TrueAge(res, now), Lifetime(res, req, shared, now);
            !NeedsValidation(res, req, shared, now) <==>
              && !req.minFresh.Malformed? && (req.minFresh.Seconds? ==> age + req.minFresh.d <= life)
              && (age < life || (!MustValidate(res, shared) && Tolerated(req.maxStale, age - life)))
  {
    FreshForExact(res, req, shared, now);
    WrapFits(-TrueFreshness(res, req, shared, now));
  }

  // ------------------------------------------------------- which field gives the lifetime

  /** The response was received at `received`: the proxy's own date, or else the origin's. */
  predicate ReceivedAt(res: Response, received: Time, now: Time) {
    && !res.stale && Fits(now - received)
    && (res.proxyDate == Some(received) || (res.proxyDate.None? && res.date == Some(received)))
  }

  function AgeSince(res: Response, received: Time, now: Time): int {
    now - received + match res.age case None => 0 case Some(n) => n * SECOND
  }

  /** A negative lifetime counts as none. */
  function Granted(d: int): int {
    if d < 0 then 0 else d
  }

  /** The remaining lifetime is within int64. */
  predicate Remains(life: int, age: int) {
    MIN < life - age <= MAX
  }

  /** How the decision comes out, once the lifetime is known. */
  lemma DecidedByLifetime(res: Response, req: Request, shared: bool, received: Time, now: Time, life: int)
    requires ReceivedAt(res, received, now) && Remains(life, AgeSince(res, received, now))
    requires AllowedAge(res, req, shared, now).Some? && Lifetime(res, req, shared, now) == life
    ensures var late := AgeSince(res, received, now) - life;
            NeedsValidation(res, req, shared, now) <==>
              || req.minFresh.Malformed? || (req.minFresh.Seconds? && -late < req.minFresh.d)
              || (0 <= late && (MustValidate(res, shared) || !Tolerated(req.maxStale, late)))
  {
    AllowedStays(res, req, shared, 0, now);
    assert TrueAge(res, now) == AgeSince(res, received, now);
    ReusedExactly(res, req, shared, now);
  }

  /** What the request's own max-age leaves of a lifetime. */
  function Limited(d: int, req: Request): int {
    if req.maxAge.Seconds? && req.maxAge.d < d then req.maxAge.d else d
  }

  /** The decision for a lifetime written out: the request's max-age can shorten it, min-fresh asks for
      more of it, and max-stale for less unless the response forbids that. */
  predicate Asks(req: Request, forbidden: bool, life: int, age: int) {
    || req.minFresh.Malformed? || (req.minFresh.Seconds? && life < age + req.minFresh.d)
    || (life <= age &&
        (forbidden || req.maxStale.NoMaxStale? || (req.maxStale.StaleFor? && req.maxStale.d < age - life)))
  }

  /** must-revalidate for every cache; s-maxage and proxy-revalidate for shared ones. */
  predicate StaleForbidden(res: Response, shared: bool) {
    res.mustRevalidate || (shared && (res.proxyRevalidate || res.sMaxAge != Absent))
  }

  /** In a shared cache s-maxage decides, whatever max-age, Expires and Last-Modified say. */
  lemma SharedMaxAgeDecides(res: Response, req: Request, received: Time, now: Time, d: Duration)
    requires ReceivedAt(res, received, now) && res.sMaxAge == Seconds(d) && !req.maxAge.Malformed?
    requires Remains(Granted(Limited(d, req)), AgeSince(res, received, now))
    ensures NeedsValidation(res, req, true, now) <==>
            Asks(req, true, Granted(Limited(d, req)), AgeSince(res, received, now))
  {
    DecidedByLifetime(res, req, true, received, now, Granted(Limited(d, req)));
  }

  /** Otherwise max-age decides, whatever Expires and Last-Modified say. */
  lemma MaxAgeDecides(res: Response, req: Request, shared: bool, received: Time, now: Time, d: Duration)
    requires ReceivedAt(res, received, now) && res.maxAge == Seconds(d) && !req.maxAge.Malformed?
    requires !shared || res.sMaxAge == Absent
    requires Remains(Granted(Limited(d, req)), AgeSince(res, received, now))
    ensures NeedsValidation(res, req, shared, now) <==>
            Asks(req, StaleForbidden(res, shared), Granted(Limited(d, req)), AgeSince(res, received, now))
  {
    DecidedByLifetime(res, req, shared, received, now, Granted(Limited(d, req)));
  }

  /** Otherwise Expires, measured from Date, or from Proxy-Date without a Date. */
  lemma ExpiresDecides(res: Response, req: Request, shared: bool, received: Time, now: Time, at: Time, from: Time)
    requires ReceivedAt(res, received, now) && !req.maxAge.Malformed? && res.expires == ExpiresAt(at)
    requires res.maxAge == Absent && (!shared || res.sMaxAge == Absent)
    requires (res.date == Some(from) || (res.date.None? && res.proxyDate == Some(from))) && Fits(at - from)
    requires Remains(Granted(Limited(at - from, req)), AgeSince(res, received, now))
    ensures NeedsValidation(res, req, shared, now) <==>
            Asks(req, StaleForbidden(res, shared), Granted(Limited(at - from, req)), AgeSince(res, received, now))
  {
    DecidedByLifetime(res, req, shared, received, now, Granted(Limited(at - from, req)));
  }

  /** An Expires that does not parse grants nothing, and rules heuristics out. */
  lemma BadExpiresDecides(res: Response, req: Request, shared: bool, received: Time, now: Time)
    requires ReceivedAt(res, received, now) && !req.maxAge.Malformed? && res.expires == BadExpires
    requires res.maxAge == Absent && (!shared || res.sMaxAge == Absent)
    requires Remains(0, AgeSince(res, received, now))
    ensures NeedsValidation(res, req, shared, now) <==>
            Asks(req, StaleForbidden(res, shared), 0, AgeSince(res, received, now))
  {
    DecidedByLifetime(res, req, shared, received, now, 0);
  }

  /** A tenth of the time since the last modification; one in the future grants less than nothing, but
      not less than the request asks for. */
  function HeuristicLife(req: Request, since: int): int {
    if 0 <= since then since / 10 else if Limited(0, req) < -(-since / 10) then -(-since / 10) else Limited(0, req)
  }

  /** With none of these, a tenth of the time since Last-Modified, which the request's max-age does not
      shorten. */
  lemma HeuristicDecides(res: Response, req: Request, shared: bool, received: Time, now: Time, modified: Time)
    requires ReceivedAt(res, received, now) && !req.maxAge.Malformed? && res.lastModified == Some(modified)
    requires res.maxAge == Absent && (!shared || res.sMaxAge == Absent) && res.expires == NoExpires
    requires Fits(now - modified)
    requires Remains(HeuristicLife(req, now - modified), AgeSince(res, received, now))
    ensures NeedsValidation(res, req, shared, now) <==>
            Asks(req, StaleForbidden(res, shared), HeuristicLife(req, now - modified), AgeSince(res, received, now))
  {
    DecidedByLifetime(res, req, shared, received, now, HeuristicLife(req, now - modified));
  }

  /** A response that says nothing about its age has no lifetime. */
  lemma NothingDecides(res: Response, req: Request, shared: bool, received: Time, now: Time)
    requires ReceivedAt(res, received, now) && !req.maxAge.Malformed? && res.lastModified.None?
    requires res.maxAge == Absent && (!shared || res.sMaxAge == Absent) && res.expires == NoExpires
    requires Remains(0, AgeSince(res, received, now))
    ensures NeedsValidation(res, req, shared, now) <==>
            Asks(req, StaleForbidden(res, shared), 0, AgeSince(res, received, now))
  {
    DecidedByLifetime(res, req, shared, received, now, 0);
  }

  /** What cannot be read is validated: the deciding directive, the request's max-age, or the age. */
  lemma UnreadableIsValidated(res: Response, req: Request, shared: bool, now: Time)
    requires || (shared && res.sMaxAge == Malformed)
             || (res.maxAge == Malformed && (!shared || res.sMaxAge == Absent))
             || req.maxAge == Malformed || (res.date.None? && res.proxyDate.None?) || res.stale
    ensures NeedsValidation(res, req, shared, now)
  {
  }

  /** An invalidated response has no freshness left, whatever its lifetime. */
  lemma InvalidatedIsNotFresh(res: Response, req: Request, shared: bool, now: Time)
    requires res.stale && FreshFor(res, req, shared, now).Some?
    ensures FreshFor(res, req, shared, now) == Some(0)
  {
  }

  // ------------------------------------------------------------- where it overflows

  /** The computed freshness is positive exactly when the true one lies less than 2^63 above a
      multiple of 2^64, on whichever side of zero. */
  predicate LooksFresh(v: int) {
    0 < v % TWO64 <= MAX
  }

  lemma WrapLooks(v: int)
    ensures Wrap(v) > 0 <==> LooksFresh(v)
    ensures LooksFresh(v) ==> Wrap(v) == v % TWO64
  {
    var r, q := v % TWO64, v / TWO64;
    assert v == r + TWO64 * q;
    WrapUnique(v, r, q);
  }

  /** For every Age: what the code takes for fresh is validated exactly when min-fresh asks. */
  lemma LooksFreshExactly(res: Response, req: Request, shared: bool, now: Time)
    requires Decidable(res, req, shared)
    ensures var v := TrueFreshness(res, req, shared, now);
            && (FreshFor(res, req, shared, now).value > 0 <==> LooksFresh(v))
            && (LooksFresh(v) ==>
                  (NeedsValidation(res, req, shared, now) <==>
                     req.minFresh.Malformed? || (req.minFresh.Seconds? && v % TWO64 < req.minFresh.d)))
  {
    FreshForExact(res, req, shared, now);
    WrapLooks(TrueFreshness(res, req, shared, now));
  }

  /** At -2^63 itself `freshness * -1` stays negative, so any max-stale accepts the response. */
  lemma LeastFreshnessIsStaleEnough(res: Response, req: Request, shared: bool, now: Time)
    requires Decidable(res, req, shared) && TrueFreshness(res, req, shared, now) == MIN
    ensures NeedsValidation(res, req, shared, now) <==>
              || MustValidate(res, shared) || req.maxStale.NoMaxStale?
              || req.minFresh.Malformed? || (req.minFresh.Seconds? && MIN < req.minFresh.d)
  {
    FreshForExact(res, req, shared, now);
    RemainderUnique(MIN * -1 - MIN, 0, 1);
  }

  const PLAIN := Request(Absent, Absent, NoMaxStale)

  /** Without request directives, validation is needed exactly when the response does not look fresh. */
  lemma PlainRequestExactly(res: Response, shared: bool, now: Time)
    requires Decidable(res, PLAIN, shared)
    ensures NeedsValidation(res, PLAIN, shared, now) <==> !LooksFresh(TrueFreshness(res, PLAIN, shared, now))
  {
    FreshForExact(res, PLAIN, shared, now);
    WrapLooks(TrueFreshness(res, PLAIN, shared, now));
  }

  /** What a response loses in freshness, at most the time that passes. */
  function Lost(res: Response, shared: bool, now: Time, later: Time): int
    requires Decidable(res, PLAIN, shared)
  {
    TrueFreshness(res, PLAIN, shared, now) - TrueFreshness(res, PLAIN, shared, later)
  }

  /** For all dates.  Less than nothing is lost only where a heuristic lifetime grows while Time.Sub
      is saturated. */
  lemma LostIsElapsed(res: Response, shared: bool, now: Time, later: Time)
    requires Decidable(res, PLAIN, shared) && now <= later
    ensures MIN / 10 <= Lost(res, shared, now, later) <= later - now && Lost(res, shared, now, later) < TWO64
    ensures Lost(res, shared, now, later) < 0 ==> Heuristic(res, shared) && !Unsaturated(res, now, later)
    ensures !Heuristic(res, shared) && Unsaturated(res, now, later) ==> Lost(res, shared, now, later) == later - now
  {
    LifetimeGrows(res, PLAIN, shared, now, later);
    SubGrows(now, later, Origin(res).value);
    if !Heuristic(res, shared) || Unsaturated(res, now, later) {
      FreshnessNeverGrows(res, PLAIN, shared, now, later);
    } else {
      assert AllowedAge(res, PLAIN, shared, now) == Some(0);
    }
  }

  lemma WrapBelow(v: int, f: int, lost: int)
    requires f == Wrap(v) && f <= 0 && MIN / 10 <= lost < TWO64
    ensures Wrap(v - lost) <= 0 <==> f <= lost <= f - MIN || f + TWO64 <= lost
  {
    WrapIsWhole(v);
    var q: int :| v == Wrap(v) + TWO64 * q;
    WrapUnique(v - lost, f - lost, q);
    if lost <= f - MIN {
      WrapFits(f - lost);
    } else {
      RemainderUnique(f - lost - MIN, f - lost - MIN + TWO64, -1);
    }
  }

  /**
   For every Age an int holds and all dates, without request directives: `f` is the freshness
   computed when validation is needed.  Later it is needed still exactly when the response has
   since lost from f to f + 2^63 of freshness, or at least f + 2^64.
   */
  lemma PlainRequestStaysNeeded(res: Response, shared: bool, now: Time, later: Time)
    requires Decidable(res, PLAIN, shared) && now <= later && NeedsValidation(res, PLAIN, shared, now)
    ensures var f, lost := FreshFor(res, PLAIN, shared, now).value, Lost(res, shared, now, later);
            && f <= 0 && MIN / 10 <= lost <= later - now
            && (lost < 0 ==> Heuristic(res, shared) && !Unsaturated(res, now, later))
            && (NeedsValidation(res, PLAIN, shared, later) <==> f <= lost <= f - MIN || f + TWO64 <= lost)
  {
    FreshForExact(res, PLAIN, shared, now);
    FreshForExact(res, PLAIN, shared, later);
    LostIsElapsed(res, shared, now, later);
    var v := TrueFreshness(res, PLAIN, shared, now);
    WrapBelow(v, Wrap(v), Lost(res, shared, now, later));
  }

  /** Needed at one time and not at a later one. */
  ghost predicate Revives(res: Response, now: Time, later: Time) {
    now <= later && NeedsValidation(res, PLAIN, true, now) && !NeedsValidation(res, PLAIN, true, later)
  }

  function Aged(maxAge: Duration, age: int): Response {
    Response(Absent, Seconds(maxAge), NoExpires, None, Some(0), Some(age), None, false, false, false)
  }

  lemma AgedFreshness(maxAge: Duration, age: int, now: Time)
    requires Fits(now) && 0 <= maxAge
    ensures TrueFreshness(Aged(maxAge, age), PLAIN, true, now) == maxAge - now - SECOND * age
    ensures NeedsValidation(Aged(maxAge, age), PLAIN, true, now) <==> !LooksFresh(maxAge - now - SECOND * age)
  {
    PlainRequestExactly(Aged(maxAge, age), true, now);
  }

  /** `Age: 9223372036` and `max-age=60`: stale on arrival, served as fresh 62 seconds later. */
  lemma AgeOverflows()
    ensures Revives(Aged(60 * SECOND, 9223372036), 0, 62 * SECOND)
  {
    AgedFreshness(60 * SECOND, 9223372036, 0);
    AgedFreshness(60 * SECOND, 9223372036, 62 * SECOND);
  }

  /** `Age: -9223372036` and `max-age=1000`: validated on arrival, served as fresh 2000 seconds later. */
  lemma NegativeAgeOverflows()
    ensures Revives(Aged(1000 * SECOND, -9223372036), 0, 2000 * SECOND)
  {
    AgedFreshness(1000 * SECOND, -9223372036, 0);
    AgedFreshness(1000 * SECOND, -9223372036, 2000 * SECOND);
  }

  /** `Age: 20000000000` and `max-age=60` wraps once more and is validated. */
  lemma HugeAgeIsValidated()
    ensures TrueFreshness(Aged(60 * SECOND, 20000000000), PLAIN, true, 0) < -TWO64
    ensures NeedsValidation(Aged(60 * SECOND, 20000000000), PLAIN, true, 0)
  {
    AgedFreshness(60 * SECOND, 20000000000, 0);
  }

  /** `Date` 8000000000 seconds before Last-Modified, which is at time zero, `Age: -9000000000` and no
      lifetime: the age is saturated and the heuristic lifetime grows past it. */
  lemma SaturatedAgeRevives()
    ensures Revives(Response(Absent, Absent, NoExpires, Some(-8000000000 * SECOND), None, Some(-9000000000), Some(0),
                             false, false, false),
                    2233000000 * SECOND, 2234000000 * SECOND)
  {
    var res := Response(Absent, Absent, NoExpires, Some(-8000000000 * SECOND), None, Some(-9000000000), Some(0),
                        false, false, false);
    PlainRequestExactly(res, true, 2233000000 * SECOND);
    PlainRequestExactly(res, true, 2234000000 * SECOND);
  }

  // ----------------------------------------------------- the request's own max-age

  /** Section 5.2.1.1 of RFC 7234: a response older than the request's max-age is validated, except
      that a heuristic lifetime still covering it wins. */
  lemma RequestMaxAgeHonoured(res: Response, limit: Duration, shared: bool, now: Time)
    requires var req := Request(Seconds(limit), Absent, NoMaxStale);
             Decidable(res, req, shared) && limit <= TrueAge(res, now) && Fits(TrueFreshness(res, req, shared, now))
    ensures var req := Request(Seconds(limit), Absent, NoMaxStale);
            NeedsValidation(res, req, shared, now) <==> HeuristicFreshness(res, shared, now) <= TrueAge(res, now)
  {
    var req := Request(Seconds(limit), Absent, NoMaxStale);
    AllowedStays(res, req, shared, 0, now);
    FreshForExact(res, req, shared, now);
  }

  /** A day-old response last modified a year ago answers a request that accepts five seconds. */
  lemma HeuristicOverridesRequestMaxAge()
    ensures TrueAge(Modified(-365 * DAY), DAY) == DAY
    ensures !NeedsValidation(Modified(-365 * DAY), Request(Seconds(5 * SECOND), Absent, NoMaxStale), true, DAY)
  {
    assert HeuristicFreshness(Modified(-365 * DAY), true, DAY) == 366 * DAY / 10;
    RequestMaxAgeHonoured(Modified(-365 * DAY), 5 * SECOND, true, DAY);
  }

  const DAY: int := 86400 * SECOND

  /** A response received at time zero that says nothing but when it was last modified. */
  function Modified(at: Time): Response {
    Response(Absent, Absent, NoExpires, None, Some(0), None, Some(at), false, false, false)
  }
}
