/** The search for the longest keepalive interval of one path. */
module KeepaliveSearch {
  import opened Basics

  datatype Role = Hot | WarmSafe | WarmLoose | Dead

  type Proto = string

  datatype Settings = Settings(
    floors: map<Proto, nat>, safeCaps: map<Proto, nat>, priorities: map<Proto, int>, factors: map<Role, real>)

  const DEFAULT := Settings(map["tcp" := 30, "udp" := 15], map["tcp" := 3600, "udp" := 60],
                            map["tcp" := 0, "udp" := 1], map[Hot := 1.0, WarmSafe := 1.5, WarmLoose := 4.0])

  const LONGEST := 3600

  function FloorOf(cfg: Settings, proto: Proto): nat { if proto in cfg.floors then cfg.floors[proto] else 15 }

  function SafeCap(cfg: Settings, proto: Proto): nat { if proto in cfg.safeCaps then cfg.safeCaps[proto] else 60 }

  function Factor(cfg: Settings, role: Role): real { if role in cfg.factors then cfg.factors[role] else 1.0 }

  function Cap(cfg: Settings, role: Role, proto: Proto): nat {
    if role == WarmSafe then SafeCap(cfg, proto) else LONGEST
  }

  /** Settings under which a search starts within its bounds and does not shrink by succeeding. */
  ghost predicate Sensible(cfg: Settings) {
    && (forall p :: 1 <= FloorOf(cfg, p) && 2 * FloorOf(cfg, p) <= SafeCap(cfg, p) && 2 * FloorOf(cfg, p) <= LONGEST)
    && (forall r :: Factor(cfg, r) >= 0.5)
  }

  lemma DefaultIsSensible()
    ensures Sensible(DEFAULT)
  {
  }

  /** upper is the interval that last succeeded, lower the one that last failed. */
  datatype Search = Search(
    role: Role, proto: Proto, interval: int, upper: Option<int>, lower: Option<int>,
    successes: nat, failures: nat, stable: bool)

  function Start(cfg: Settings, role: Role, proto: Proto): Search {
    Search(role, proto, 2 * FloorOf(cfg, proto), None, None, 0, 0, false)
  }

  function Clamp(cfg: Settings, role: Role, proto: Proto, v: int): int {
    Min(Max(v, FloorOf(cfg, proto)), Cap(cfg, role, proto))
  }

  /** More than one probe in twenty has failed, the first few apart. */
  predicate TooManyFailures(successes: nat, failures: nat) {
    var total := successes + failures;
    total >= 5 && failures as real / (total + 1) as real > 0.05
  }

  function Grown(cfg: Settings, role: Role, interval: int): int {
    (interval as real * 2.0 * Factor(cfg, role)).Floor
  }

  function Success(cfg: Settings, s: Search): Search {
    var t := s.(successes := s.successes + 1, upper := Some(s.interval));
    if s.stable then t
    else if TooManyFailures(t.successes, t.failures) then t.(stable := true)
    else
      var c := Grown(cfg, s.role, s.interval);
      match s.lower
      case None => t.(interval := Clamp(cfg, s.role, s.proto, c))
      case Some(l) =>
        t.(stable := true, interval := Clamp(cfg, s.role, s.proto, Min(c, (s.interval + l) / 2)))
  }

  function Failure(cfg: Settings, s: Search): Search {
    var next := if s.upper.Some? then (s.upper.value + s.interval) / 2 else FloorOf(cfg, s.proto);
    s.(failures := s.failures + 1, lower := Some(s.interval), stable := false,
       interval := if s.failures + 1 >= 3 then FloorOf(cfg, s.proto) else Clamp(cfg, s.role, s.proto, next))
  }

  function Probe(cfg: Settings, s: Search, ok: bool): Search {
    if ok then Success(cfg, s) else Failure(cfg, s)
  }

  // ---------- histories ----------

  /** The search after a history of probes, true for a success. */
  function After(cfg: Settings, role: Role, proto: Proto, h: seq<bool>): Search {
    if h == [] then Start(cfg, role, proto)
    else Probe(cfg, After(cfg, role, proto, h[..|h| - 1]), h[|h| - 1])
  }

  /** The interval after which the probe numbered i of a history was sent. */
  function Tried(cfg: Settings, role: Role, proto: Proto, h: seq<bool>, i: nat): int
    requires i <= |h|
  {
    After(cfg, role, proto, h[..i]).interval
  }

  function Count(h: seq<bool>, b: bool): nat {
    if h == [] then 0 else Count(h[..|h| - 1], b) + if h[|h| - 1] == b then 1 else 0
  }

  predicate LastOf(h: seq<bool>, b: bool, i: nat) {
    i < |h| && h[i] == b && forall j :: i < j < |h| ==> h[j] != b
  }

  // ---------- the invariant ----------

  predicate Bounded(cfg: Settings, s: Search) {
    && FloorOf(cfg, s.proto) <= s.interval <= Cap(cfg, s.role, s.proto)
    && (s.lower.Some? ==> s.interval <= s.lower.value <= Cap(cfg, s.role, s.proto))
    && (s.upper.Some? ==> FloorOf(cfg, s.proto) <= s.upper.value <= Cap(cfg, s.role, s.proto))
    && (s.upper.Some? && s.failures < 3 ==> s.upper.value <= s.interval)
  }

  lemma Grows(cfg: Settings, role: Role, interval: int)
    requires Sensible(cfg) && interval >= 0
    ensures Grown(cfg, role, interval) >= interval
  {
    Scale(interval as real * 2.0, Factor(cfg, role));
  }

  lemma Scale(x: real, f: real)
    requires x >= 0.0 && f >= 0.5
    ensures x * f >= x * 0.5
  {
    var d := f - 0.5;
    assert x * d >= 0.0;
    assert x * f == x * 0.5 + x * d;
  }

  /** A probe keeps the bounds; a success never shortens the interval, a failure never
      lengthens it, and from the third on puts it at the floor. */
  lemma ProbeBounded(cfg: Settings, s: Search, ok: bool)
    requires Sensible(cfg) && Bounded(cfg, s)
    ensures Bounded(cfg, Probe(cfg, s, ok))
    ensures ok ==> Probe(cfg, s, ok).interval >= s.interval
    ensures !ok ==> Probe(cfg, s, ok).interval <= s.interval
    ensures !ok && s.failures >= 2 ==> Probe(cfg, s, ok).interval == FloorOf(cfg, s.proto)
  {
    Grows(cfg, s.role, s.interval);
  }

  lemma {:induction false} AfterBounded(cfg: Settings, role: Role, proto: Proto, h: seq<bool>)
    requires Sensible(cfg)
    ensures var s := After(cfg, role, proto, h);
      && Bounded(cfg, s) && s.role == role && s.proto == proto
      && s.failures == Count(h, false) && s.successes == Count(h, true)
  {
    if h == [] {
    } else {
      AfterBounded(cfg, role, proto, h[..|h| - 1]);
      ProbeBounded(cfg, After(cfg, role, proto, h[..|h| - 1]), h[|h| - 1]);
    }
  }

  /** upper and lower are what they are named for. */
  lemma {:induction false} AfterRemembers(cfg: Settings, role: Role, proto: Proto, h: seq<bool>, i: nat)
    ensures var s := After(cfg, role, proto, h);
      && (LastOf(h, true, i) ==> s.upper == Some(Tried(cfg, role, proto, h, i)))
      && (LastOf(h, false, i) ==> s.lower == Some(Tried(cfg, role, proto, h, i)))
  {
    if h == [] || i >= |h| {
    } else {
      var g := h[..|h| - 1];
      if i < |g| {
        AfterRemembers(cfg, role, proto, g, i);
        assert g[..i] == h[..i];
      }
    }
  }

  /** After any history of successes and failures the interval lies between the floor and the
      role's cap and is at most the interval that failed last, and before the third failure at
      least the one that succeeded last. */
  lemma HistoryBounds(cfg: Settings, role: Role, proto: Proto, h: seq<bool>)
    requires Sensible(cfg)
    ensures FloorOf(cfg, proto) <= Tried(cfg, role, proto, h, |h|) <= Cap(cfg, role, proto)
    ensures forall i :: LastOf(h, false, i) ==> Tried(cfg, role, proto, h, |h|) <= Tried(cfg, role, proto, h, i)
    ensures Count(h, false) < 3 ==>
      forall i :: LastOf(h, true, i) ==> Tried(cfg, role, proto, h, |h|) >= Tried(cfg, role, proto, h, i)
  {
    assert h[..|h|] == h;
    AfterBounded(cfg, role, proto, h);
    forall i: nat | LastOf(h, true, i) || LastOf(h, false, i)
      ensures LastOf(h, false, i) ==> Tried(cfg, role, proto, h, |h|) <= Tried(cfg, role, proto, h, i)
      ensures LastOf(h, true, i) && Count(h, false) < 3 ==>
        Tried(cfg, role, proto, h, |h|) >= Tried(cfg, role, proto, h, i)
    {
      AfterRemembers(cfg, role, proto, h, i);
    }
  }

  /** Along every history: up or level after a success, down or level after a failure. */
  lemma HistoryDirection(cfg: Settings, role: Role, proto: Proto, h: seq<bool>, i: nat)
    requires Sensible(cfg) && i < |h|
    ensures if h[i] then Tried(cfg, role, proto, h, i + 1) >= Tried(cfg, role, proto, h, i)
            else Tried(cfg, role, proto, h, i + 1) <= Tried(cfg, role, proto, h, i)
  {
    var g := h[..i + 1];
    assert g[..i] == h[..i];
    AfterBounded(cfg, role, proto, h[..i]);
    ProbeBounded(cfg, After(cfg, role, proto, h[..i]), h[i]);
  }

  /** r is the whole part of x. */
  predicate Floors(x: real, r: int) {
    r as real <= x < r as real + 1.0
  }

  /** Half way from a to b, rounded down. */
  predicate Midway(a: int, b: int, m: int) {
    b - a - 1 <= 2 * (m - a) <= b - a
  }

  /** Growing by a success leads no further than this. */
  predicate WithinGrowth(cfg: Settings, role: Role, v: int, w: int) {
    w as real <= v as real * 2.0 * Factor(cfg, role)
  }

  /** The interval grown by a success, capped. */
  predicate GrewTo(cfg: Settings, role: Role, proto: Proto, v: int, w: int) {
    var x, cap := v as real * 2.0 * Factor(cfg, role), Cap(cfg, role, proto);
    if x < cap as real then Floors(x, w) else w == cap
  }

  /** A first failure above the last success, and a second one, halve the distance between them,
      up to rounding; a failure before any success, or the third one, leads to the floor. */
  lemma Halves(cfg: Settings, s: Search)
    requires Sensible(cfg) && Bounded(cfg, s)
    ensures var t := Failure(cfg, s);
      && t.upper == s.upper && t.lower == Some(s.interval) && !t.stable
      && (if s.upper.Some? && s.failures < 2 then Midway(s.upper.value, s.interval, t.interval)
          else t.interval == FloorOf(cfg, s.proto))
  {
  }

  /** More than a twentieth of the probes, counting one more, have failed. */
  predicate Unreliable(successes: nat, failures: nat) {
    successes + failures >= 5 && 20 * failures > successes + failures + 1
  }

  lemma UnreliableExact(successes: nat, failures: nat)
    ensures TooManyFailures(successes, failures) <==> Unreliable(successes, failures)
  {
    RatioAbove(failures as real, (successes + failures + 1) as real);
  }

  lemma RatioAbove(x: real, y: real)
    requires y > 0.0
    ensures x / y > 0.05 <==> 20.0 * x > y
  {
    var q := x / y;
    assert q * y == x;
    if q > 0.05 {
      assert (q - 0.05) * y > 0.0;
    } else {
      assert (0.05 - q) * y >= 0.0;
    }
  }

  lemma GrowthClamped(cfg: Settings, s: Search)
    requires Sensible(cfg) && Bounded(cfg, s)
    ensures GrewTo(cfg, s.role, s.proto, s.interval, Clamp(cfg, s.role, s.proto, Grown(cfg, s.role, s.interval)))
  {
    Grows(cfg, s.role, s.interval);
  }

  /** Below a failure the interval moves to the middle, or grows if that is less. */
  lemma RisesBelow(cfg: Settings, s: Search)
    requires Sensible(cfg) && Bounded(cfg, s) && s.lower.Some?
    ensures var l, c := s.lower.value, Grown(cfg, s.role, s.interval);
      var w := Clamp(cfg, s.role, s.proto, Min(c, (s.interval + l) / 2));
      && s.interval <= w && 2 * (w - s.interval) <= l - s.interval && WithinGrowth(cfg, s.role, s.interval, w)
      && (Midway(s.interval, l, w) || GrewTo(cfg, s.role, s.proto, s.interval, w))
  {
    GrowthClamped(cfg, s);
    Grows(cfg, s.role, s.interval);
  }

  /** A success freezes the interval if it is stable or too many probes have failed; otherwise
      the interval grows, below a failure at most half way to it, and it is stable then. */
  lemma Rises(cfg: Settings, s: Search)
    requires Sensible(cfg) && Bounded(cfg, s)
    ensures var t, n := Success(cfg, s), s.successes + 1;
      && t.lower == s.lower && t.upper == Some(s.interval)
      && (t.stable <==> s.stable || Unreliable(n, s.failures) || s.lower.Some?)
      && (s.stable || Unreliable(n, s.failures) ==> t.interval == s.interval)
      && (!s.stable && !Unreliable(n, s.failures) && s.lower.None? ==>
            GrewTo(cfg, s.role, s.proto, s.interval, t.interval))
      && (!s.stable && !Unreliable(n, s.failures) && s.lower.Some? ==>
            && s.interval <= t.interval && 2 * (t.interval - s.interval) <= s.lower.value - s.interval
            && WithinGrowth(cfg, s.role, s.interval, t.interval)
            && (Midway(s.interval, s.lower.value, t.interval)
                || GrewTo(cfg, s.role, s.proto, s.interval, t.interval)))
  {
    UnreliableExact(s.successes + 1, s.failures);
    GrowthClamped(cfg, s);
    if s.lower.Some? {
      RisesBelow(cfg, s);
    }
  }

  // ---------- the whole course ----------

  /** The search is stable exactly when something has failed and the last probe succeeded. */
  lemma {:induction false} StableExact(cfg: Settings, role: Role, proto: Proto, h: seq<bool>)
    requires Sensible(cfg)
    ensures var s := After(cfg, role, proto, h);
      && (s.stable <==> h != [] && h[|h| - 1] && Count(h, false) > 0)
      && (s.lower.Some? <==> Count(h, false) > 0) && (s.upper.Some? <==> Count(h, true) > 0)
  {
    if h == [] {
    } else {
      var g := h[..|h| - 1];
      StableExact(cfg, role, proto, g);
      AfterBounded(cfg, role, proto, g);
      Halves(cfg, After(cfg, role, proto, g));
      Rises(cfg, After(cfg, role, proto, g));
    }
  }

  /** What one more probe makes of the interval. */
  function Next(cfg: Settings, role: Role, proto: Proto, h: seq<bool>, ok: bool): int {
    Tried(cfg, role, proto, h + [ok], |h| + 1)
  }

  lemma NextIs(cfg: Settings, role: Role, proto: Proto, h: seq<bool>, ok: bool)
    ensures Next(cfg, role, proto, h, ok) == Probe(cfg, After(cfg, role, proto, h), ok).interval
    ensures Tried(cfg, role, proto, h, |h|) == After(cfg, role, proto, h).interval
  {
    assert (h + [ok])[..|h| + 1] == h + [ok] && (h + [ok])[..|h|] == h && h[..|h|] == h;
  }

  /** After any history a failure, unless it is the third, leads half way back to the interval
      that succeeded last; before any success, and from the third on, it leads to the floor. */
  lemma FailureCourse(cfg: Settings, role: Role, proto: Proto, h: seq<bool>, i: nat)
    requires Sensible(cfg)
    ensures Count(h, true) == 0 || Count(h, false) >= 2 ==> Next(cfg, role, proto, h, false) == FloorOf(cfg, proto)
    ensures LastOf(h, true, i) && Count(h, false) < 2 ==>
      Midway(Tried(cfg, role, proto, h, i), Tried(cfg, role, proto, h, |h|), Next(cfg, role, proto, h, false))
  {
    NextIs(cfg, role, proto, h, false);
    AfterBounded(cfg, role, proto, h);
    StableExact(cfg, role, proto, h);
    AfterRemembers(cfg, role, proto, h, i);
    Halves(cfg, After(cfg, role, proto, h));
  }

  /** After any history a success multiplies the interval by twice the role's factor, up to the
      cap, as long as nothing has failed.  After a failure the first success, unless too many
      probes have failed, raises it half way to the interval that failed, or by that factor if
      that is less; further ones leave it. */
  lemma SuccessCourse(cfg: Settings, role: Role, proto: Proto, h: seq<bool>)
    requires Sensible(cfg)
    ensures var v, w := Tried(cfg, role, proto, h, |h|), Next(cfg, role, proto, h, true);
      if Count(h, false) == 0 then GrewTo(cfg, role, proto, v, w)
      else if h[|h| - 1] || Unreliable(Count(h, true) + 1, Count(h, false)) then w == v
      else
        var l := Tried(cfg, role, proto, h, |h| - 1);
        && v <= w && 2 * (w - v) <= l - v && WithinGrowth(cfg, role, v, w)
        && (Midway(v, l, w) || GrewTo(cfg, role, proto, v, w))
  {
    NextIs(cfg, role, proto, h, true);
    AfterBounded(cfg, role, proto, h);
    StableExact(cfg, role, proto, h);
    Rises(cfg, After(cfg, role, proto, h));
    if Count(h, false) > 0 {
      AfterRemembers(cfg, role, proto, h, |h| - 1);
    } else {
      NeverUnreliable(Count(h, true) + 1);
    }
  }

  lemma NeverUnreliable(successes: nat)
    ensures !Unreliable(successes, 0)
  {
  }

  /** The default bounds in seconds: a TCP path is probed no more often than every half a minute
      and at least every hour, any other path no more often than every 15 seconds and, if it is
      the safe one, at least every minute. */
  lemma DefaultBounds(role: Role, proto: Proto, h: seq<bool>)
    ensures var v := Tried(DEFAULT, role, proto, h, |h|);
      && (proto == "tcp" ==> 30 <= v <= 3600)
      && (proto != "tcp" ==> 15 <= v <= if role == WarmSafe then 60 else 3600)
    ensures Tried(DEFAULT, role, proto, [], 0) == if proto == "tcp" then 60 else 30
  {
    DefaultIsSensible();
    HistoryBounds(DEFAULT, role, proto, h);
  }

  function Power(m: nat, n: nat): nat { if n == 0 then 1 else m * Power(m, n - 1) }

  /** Until something fails, the interval grows by a constant factor with every success, up to
      the cap: by twice the role's factor, where that is a whole number. */
  lemma {:induction false} Multiplies(cfg: Settings, role: Role, proto: Proto, h: seq<bool>, m: nat)
    requires Sensible(cfg) && 2.0 * Factor(cfg, role) == m as real && Count(h, false) == 0
    ensures var s := After(cfg, role, proto, h);
      !s.stable && s.lower == None
      && s.interval == Min(2 * FloorOf(cfg, proto) * Power(m, |h|), Cap(cfg, role, proto))
  {
    AfterBounded(cfg, role, proto, h);
    if h == [] {
      assert Power(m, 0) == 1;
    } else {
      var g := h[..|h| - 1];
      Multiplies(cfg, role, proto, g, m);
      AfterBounded(cfg, role, proto, g);
      var s := After(cfg, role, proto, g);
      assert h[|h| - 1];
      SuccessGrows(cfg, s, m);
      GrowthStep(2 * FloorOf(cfg, proto), m, |h|, Cap(cfg, role, proto));
    }
  }

  lemma SuccessGrows(cfg: Settings, s: Search, m: nat)
    requires Sensible(cfg) && Bounded(cfg, s) && 2.0 * Factor(cfg, s.role) == m as real
    requires !s.stable && s.lower == None && s.failures == 0
    ensures var t := Success(cfg, s);
      m >= 1 && !t.stable && t.lower == None && t.interval == Min(m * s.interval, Cap(cfg, s.role, s.proto))
  {
    assert Factor(cfg, s.role) >= 0.5;
    GrownWhole(cfg, s.role, s.interval, m);
    Multiple(m, s.interval);
  }

  lemma GrownWhole(cfg: Settings, role: Role, interval: nat, m: nat)
    requires 2.0 * Factor(cfg, role) == m as real
    ensures Grown(cfg, role, interval) == m * interval
  {
    var x, f := interval as real, Factor(cfg, role);
    assert x * 2.0 * f == x * (2.0 * f);
    assert x * (m as real) == (m * interval) as real;
  }

  /** Capping before the last step of the growth or only after it is the same. */
  lemma GrowthStep(x: nat, m: nat, n: nat, cap: nat)
    requires n > 0 && m >= 1
    ensures var before := Min(x * Power(m, n - 1), cap);
      Min(x * Power(m, n), cap) == Min(m * before, cap)
  {
    var p := x * Power(m, n - 1);
    assert x * Power(m, n) == m * p;
    Multiple(m, p);
    Multiple(m, cap);
    if p >= cap {
      Multiple(m, p);
    }
  }

  lemma Multiple(m: nat, p: nat)
    requires m >= 1
    ensures m * p >= p
  {
  }

  function DefaultMultiple(role: Role): nat {
    match role
    case WarmSafe => 3
    case WarmLoose => 8
    case _ => 2
  }

  /** With the default settings: by two for the hot path, by three for the safe one and by eight
      for a loose one. */
  lemma DefaultGrowth(role: Role, proto: Proto, h: seq<bool>)
    requires Count(h, false) == 0
    ensures After(DEFAULT, role, proto, h).interval ==
      Min(2 * FloorOf(DEFAULT, proto) * Power(DefaultMultiple(role), |h|), Cap(DEFAULT, role, proto))
  {
    DefaultIsSensible();
    assert 2.0 * Factor(DEFAULT, role) == DefaultMultiple(role) as real;
    Multiplies(DEFAULT, role, proto, h, DefaultMultiple(role));
  }

  // ---------- the scheduler object ----------

  class KeepaliveScheduler {
    const cfg: Settings
    const role: Role
    const proto: Proto
    var currentInterval: int
    var upperBound: Option<int>
    var lowerBound: Option<int>
    var successCount: nat
    var failCount: nat
    var stable: bool

    ghost function State(): (s: Search)
      reads this
    {
      Search(role, proto, currentInterval, upperBound, lowerBound, successCount, failCount, stable)
    }

    constructor (cfg: Settings, role: Role, proto: Proto)
      ensures this.cfg == cfg && State() == Start(cfg, role, proto)
    {
      this.cfg, this.role, this.proto := cfg, role, proto;
      currentInterval := FloorOf(cfg, proto) * 2;
      upperBound, lowerBound, successCount, failCount, stable := None, None, 0, 0, false;
    }

    method Clamped(v: int) returns (r: int)
      ensures r == Clamp(cfg, role, proto, v)
    {
      r := if v < FloorOf(cfg, proto) then FloorOf(cfg, proto) else v;
      if role == WarmSafe {
        r := Min(r, SafeCap(cfg, proto));
      } else {
        r := Min(r, LONGEST);
      }
    }

    method OnSuccess()
      modifies this
      ensures State() == Success(cfg, old(State()))
    {
      successCount := successCount + 1;
      upperBound := Some(currentInterval);
      if stable {
        return;
      }
      if TooManyFailures(successCount, failCount) {
        stable := true;
        return;
      }
      var c := Grown(cfg, role, currentInterval);
      if lowerBound.Some? {
        c := Min(c, (upperBound.value + lowerBound.value) / 2);
        stable := true;
      }
      currentInterval := Clamped(c);
    }

    method OnFailure()
      modifies this
      ensures State() == Failure(cfg, old(State()))
    {
      failCount := failCount + 1;
      lowerBound := Some(currentInterval);
      stable := false;
      if upperBound.Some? {
        currentInterval := (upperBound.value + lowerBound.value) / 2;
      } else {
        currentInterval := FloorOf(cfg, proto);
      }
      currentInterval := Clamped(currentInterval);
      if failCount >= 3 {
        currentInterval := FloorOf(cfg, proto);
      }
    }
  }
}
