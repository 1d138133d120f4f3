/** The tunnel health monitor: count failed probes, and restart the core when enough have failed in
    a row and the last restart is long enough ago. */
module HealthMonitor {
  import opened Wrappers
  import opened Text

  // ---------------------------------------------------------------- the configuration

  const SECOND := 1_000_000_000

  const DEFAULT_HEALTH_URL: Bytes := "https://www.cloudflare.com/cdn-cgi/trace"
  const DEFAULT_INTERVAL := 30 * SECOND
  const DEFAULT_TIMEOUT := 10 * SECOND
  const DEFAULT_FAILURE_THRESHOLD := 3
  const DEFAULT_COOLDOWN := 300 * SECOND

  datatype Config = Config(
    enabled: bool, url: Bytes, proxyURL: Bytes, interval: int, timeout: int, failureThreshold: int, cooldown: int)

  function AtLeast(n: int, least: int, default: int): int {
    if n < least then default else n
  }

  function Normalize(c: Config): Config {
    Config(c.enabled,
      TrimSpace(if TrimSpace(c.url) == [] then DEFAULT_HEALTH_URL else c.url), TrimSpace(c.proxyURL),
      AtLeast(c.interval, SECOND, DEFAULT_INTERVAL), AtLeast(c.timeout, SECOND, DEFAULT_TIMEOUT),
      AtLeast(c.failureThreshold, 1, DEFAULT_FAILURE_THRESHOLD), AtLeast(c.cooldown, SECOND, DEFAULT_COOLDOWN))
  }

  predicate Normal(c: Config) {
    && c.url != [] && Trimmed(c.url) && Trimmed(c.proxyURL)
    && c.interval >= SECOND && c.timeout >= SECOND && c.failureThreshold >= 1 && c.cooldown >= SECOND
  }

  /** Normalizing gives a configuration within bounds and leaves such a one alone. */
  lemma {:induction false} NormalizeIsProjection(c: Config)
    ensures Normal(Normalize(c))
    ensures Normal(c) ==> Normalize(c) == c
  {
    TrimSpaceIs(c.url);
    TrimSpaceIs(c.proxyURL);
    TrimSpaceIs(DEFAULT_HEALTH_URL);
    assert Trimmed(DEFAULT_HEALTH_URL);
  }

  /** What a configuration without numbers stands for: a probe of Cloudflare every 30 seconds that
      may take 10, and recovery after 3 failures, at most every 5 minutes. */
  lemma {:induction false} DefaultsAre(enabled: bool)
    ensures Normalize(Config(enabled, [], [], 0, 0, 0, 0)) ==
      Config(enabled, "https://www.cloudflare.com/cdn-cgi/trace", [], 30_000_000_000, 10_000_000_000, 3, 300_000_000_000)
  {
    TrimSpaceIs(DEFAULT_HEALTH_URL);
    assert Trimmed(DEFAULT_HEALTH_URL);
    var nothing: Bytes := [];
    assert TrimSpace(nothing) == [];
  }

  // ---------------------------------------------------------------- one step

  /** A probe and the answer recovery would give if it were tried. */
  datatype Check = Check(failed: bool, now: int, recovers: bool)

  datatype State = State(failures: int, lastRecovery: Option<int>)

  predicate Cooling(s: State, c: Config, now: int) {
    s.lastRecovery.Some? && now - s.lastRecovery.value < c.cooldown
  }

  predicate Attempts(s: State, c: Config, hasRecover: bool, k: Check) {
    k.failed && s.failures + 1 >= c.failureThreshold && !Cooling(s, c, k.now) && hasRecover
  }

  function Stepped(s: State, c: Config, hasRecover: bool, k: Check): State {
    if !k.failed then s.(failures := 0)
    else if s.failures + 1 < c.failureThreshold then s.(failures := s.failures + 1)
    else if !Attempts(s, c, hasRecover, k) then s.(failures := c.failureThreshold)
    else if !k.recovers then s.(failures := s.failures + 1)
    else State(0, Some(k.now))
  }

  function After(c: Config, hasRecover: bool, checks: seq<Check>, n: nat): State
    requires n <= |checks|
    decreases n
  {
    if n == 0 then State(0, None) else Stepped(After(c, hasRecover, checks, n - 1), c, hasRecover, checks[n - 1])
  }

  // ---------------------------------------------------------------- what it should do

  /** Failed probes in a row up to check `i`, counted from the last good probe or recovery. */
  ghost function Streak(c: Config, checks: seq<Check>, i: nat): nat
    requires i < |checks|
    decreases i, 0
  {
    if !checks[i].failed then 0
    else if i == 0 || Recovers(c, checks, i - 1) then 1
    else Streak(c, checks, i - 1) + 1
  }

  /** Recovery is due: enough failures in a row, and no recovery less than a cooldown ago. */
  ghost predicate Due(c: Config, checks: seq<Check>, i: nat)
    requires i < |checks|
    decreases i, 1
  {
    && checks[i].failed && Streak(c, checks, i) >= c.failureThreshold
    && forall j | 0 <= j < i && Recovers(c, checks, j) :: checks[i].now - checks[j].now >= c.cooldown
  }

  ghost predicate Recovers(c: Config, checks: seq<Check>, i: nat)
    requires i < |checks|
    decreases i, 2
  {
    Due(c, checks, i) && checks[i].recovers
  }

  ghost predicate Ordered(checks: seq<Check>) {
    forall i, j | 0 <= i <= j < |checks| :: checks[i].now <= checks[j].now
  }

  /** The counter stands for the streak, though it stops at the threshold, and the time kept is
      that of the last recovery. */
  ghost predicate Tracks(c: Config, checks: seq<Check>, n: nat, s: State)
    requires n <= |checks|
  {
    && s.failures >= 0
    && (n == 0 ==> s == State(0, None))
    && (n > 0 ==> CountsStreak(c, s.failures, if Recovers(c, checks, n - 1) then 0 else Streak(c, checks, n - 1)))
    && (s.lastRecovery.None? ==> forall j | 0 <= j < n :: !Recovers(c, checks, j))
    && (s.lastRecovery.Some? ==> exists j :: 0 <= j < n && LastRecovery(c, checks, n, j) && s.lastRecovery.value == checks[j].now)
  }

  predicate CountsStreak(c: Config, failures: int, streak: int) {
    if streak < c.failureThreshold then failures == streak else failures >= c.failureThreshold
  }

  ghost predicate LastRecovery(c: Config, checks: seq<Check>, n: nat, j: nat)
    requires j < n <= |checks|
  {
    Recovers(c, checks, j) && forall k | j < k < n :: !Recovers(c, checks, k)
  }

  /** The state answers what the history asks. */
  lemma {:induction false} AttemptsWhenDue(c: Config, checks: seq<Check>, n: nat, s: State)
    requires n < |checks| && Ordered(checks) && c.failureThreshold >= 1 && Tracks(c, checks, n, s)
    ensures Attempts(s, c, true, checks[n]) <==> Due(c, checks, n)
    ensures CountsStreak(c, s.failures + 1, if checks[n].failed then Streak(c, checks, n) else s.failures + 1)
  {
    if s.lastRecovery.Some? {
      var j :| 0 <= j < n && LastRecovery(c, checks, n, j) && s.lastRecovery.value == checks[j].now;
      if !Cooling(s, c, checks[n].now) {
        forall k | 0 <= k < n && Recovers(c, checks, k)
          ensures checks[n].now - checks[k].now >= c.cooldown
        {
          assert k <= j;
        }
      }
    }
  }

  lemma {:induction false} StepTracks(c: Config, checks: seq<Check>, n: nat, s: State)
    requires n < |checks| && Ordered(checks) && c.failureThreshold >= 1 && Tracks(c, checks, n, s)
    ensures Tracks(c, checks, n + 1, Stepped(s, c, true, checks[n]))
  {
    AttemptsWhenDue(c, checks, n, s);
    var t := Stepped(s, c, true, checks[n]);
    if Recovers(c, checks, n) {
      assert LastRecovery(c, checks, n + 1, n);
    } else if s.lastRecovery.Some? {
      var j :| 0 <= j < n && LastRecovery(c, checks, n, j) && s.lastRecovery.value == checks[j].now;
      assert LastRecovery(c, checks, n + 1, j);
    }
  }

  lemma {:induction false} RunTracks(c: Config, checks: seq<Check>, n: nat)
    requires n <= |checks| && Ordered(checks) && c.failureThreshold >= 1
    ensures Tracks(c, checks, n, After(c, true, checks, n))
    decreases n
  {
    if n > 0 {
      RunTracks(c, checks, n - 1);
      StepTracks(c, checks, n - 1, After(c, true, checks, n - 1));
    }
  }

  /** Recovery is attempted exactly when it is due. */
  lemma {:induction false} AttemptsExactlyWhenDue(c: Config, checks: seq<Check>, i: nat)
    requires i < |checks| && Ordered(checks) && c.failureThreshold >= 1
    ensures Attempts(After(c, true, checks, i), c, true, checks[i]) <==> Due(c, checks, i)
  {
    RunTracks(c, checks, i);
    AttemptsWhenDue(c, checks, i, After(c, true, checks, i));
  }

  predicate Succeeds(c: Config, checks: seq<Check>, i: nat)
    requires i < |checks|
  {
    Attempts(After(c, true, checks, i), c, true, checks[i]) && checks[i].recovers
  }

  /** Successful recoveries are at least a cooldown apart. */
  lemma {:induction false} RecoveriesAreApart(c: Config, checks: seq<Check>, i: nat, j: nat)
    requires i < j < |checks| && Ordered(checks) && c.failureThreshold >= 1
    requires Succeeds(c, checks, i) && Succeeds(c, checks, j)
    ensures checks[j].now - checks[i].now >= c.cooldown
  {
    AttemptsExactlyWhenDue(c, checks, i);
    AttemptsExactlyWhenDue(c, checks, j);
  }

  /** The streak is what it is called: that many probes up to `i` failed, with no successful
      recovery among them but perhaps at `i` itself. */
  lemma {:induction false} StreakIsFailures(c: Config, checks: seq<Check>, i: nat, k: nat)
    requires i < |checks| && k < Streak(c, checks, i)
    ensures k <= i && checks[i - k].failed && (k > 0 ==> !Recovers(c, checks, i - k))
    decreases i
  {
    if k > 0 {
      StreakIsFailures(c, checks, i - 1, k - 1);
    }
  }

  /** So every attempt follows at least a threshold of failures in a row. */
  lemma {:induction false} AttemptFollowsFailures(c: Config, checks: seq<Check>, i: nat, k: nat)
    requires i < |checks| && Ordered(checks) && c.failureThreshold >= 1
    requires Attempts(After(c, true, checks, i), c, true, checks[i]) && k < c.failureThreshold
    ensures k <= i && checks[i - k].failed && (k > 0 ==> !Succeeds(c, checks, i - k))
  {
    AttemptsExactlyWhenDue(c, checks, i);
    StreakIsFailures(c, checks, i, k);
    AttemptsExactlyWhenDue(c, checks, i - k);
  }

  /** Without a recovery function none is attempted, however long the probes fail. */
  lemma {:induction false} NothingToAttempt(c: Config, checks: seq<Check>, i: nat)
    requires i < |checks|
    ensures !Attempts(After(c, false, checks, i), c, false, checks[i])
    ensures After(c, false, checks, i + 1).lastRecovery == None
    decreases i
  {
    if i > 0 {
      NothingToAttempt(c, checks, i - 1);
    }
  }

  /** The counter goes back to zero with a good probe or a successful recovery; a failure adds one to
      it, up to the threshold unless recovery was attempted. */
  lemma {:induction false} CounterIs(s: State, c: Config, hasRecover: bool, k: Check)
    requires 0 <= s.failures && 1 <= c.failureThreshold
    ensures var t, tried := Stepped(s, c, hasRecover, k), Attempts(s, c, hasRecover, k);
      && (t.failures == 0 <==> !k.failed || (tried && k.recovers))
      && (t.failures != 0 ==> t.failures == s.failures + 1 || (!tried && t.failures == c.failureThreshold <= s.failures))
  {
  }

  // ---------------------------------------------------------------- the monitor

  class Monitor {
    const cfg: Config
    const hasRecover: bool
    var failures: int
    var lastRecovery: Option<int>

    function Current(): State
      reads this
    {
      State(failures, lastRecovery)
    }

    constructor (cfg: Config, hasRecover: bool)
      ensures this.cfg == Normalize(cfg) && this.hasRecover == hasRecover && Current() == State(0, None)
    {
      this.cfg, this.hasRecover := Normalize(cfg), hasRecover;
      failures, lastRecovery := 0, None;
    }

    method Step(k: Check) returns (recovered: bool, attempted: bool)
      modifies this
      ensures Current() == Stepped(old(Current()), cfg, hasRecover, k)
      ensures attempted == Attempts(old(Current()), cfg, hasRecover, k)
      ensures recovered == (attempted && k.recovers)
    {
      if k.failed {
        failures := failures + 1;
        if failures < cfg.failureThreshold {
          return false, false;
        }
        if lastRecovery.Some? && k.now - lastRecovery.value < cfg.cooldown {
          failures := cfg.failureThreshold;
          return false, false;
        }
        if !hasRecover {
          failures := cfg.failureThreshold;
          return false, false;
        }
        if !k.recovers {
          return false, true;
        }
        lastRecovery := Some(k.now);
        failures := 0;
        return true, true;
      }
      failures := 0;
      return false, false;
    }
  }
}
