/** The Host Agent's lease renewal loop: when does it stop an execution whose
    lease it cannot renew, and is that before the control plane hands the job to
    someone else? Times and durations are nanoseconds. */
module LeaseClock {

  const MILLISECOND := 1_000_000
  const SECOND := 1_000 * MILLISECOND

  datatype Config = Config(renewInterval: int, leaseDuration: int, chat: bool)

  function Min(a: int, b: int): int {
    if a <= b then a else b
  }

  /** The pause between successful renewals; chat runs poll faster. */
  function NormalDelay(config: Config): int {
    if config.chat then Min(config.renewInterval, 5 * SECOND) else config.renewInterval
  }

  /** Go's division truncates toward zero. */
  function Quotient(a: int, b: int): int
    requires b > 0
  {
    if a >= 0 then a / b else -((-a) / b)
  }

  function RetryDelay(config: Config): (r: int)
    ensures 0 < r <= 5 * SECOND
  {
    var quarter := Quotient(NormalDelay(config), 4);
    if quarter <= 0 then MILLISECOND else Min(quarter, 5 * SECOND)
  }

  function SafetyWindow(config: Config): (r: int)
    ensures 0 < r
  {
    var window := Min(NormalDelay(config), Quotient(config.leaseDuration, 5));
    if window <= 0 then MILLISECOND else window
  }

  datatype Reply = TransportError | ContextCanceled | Status(code: int)

  predicate Renewed(reply: Reply) {
    reply == Status(204)
  }

  predicate Transient(reply: Reply) {
    reply.TransportError? || (reply.Status? && (reply.code == 408 || reply.code == 429 || reply.code >= 500))
  }

  /** What the environment does in one turn of the loop: the timer fires `late`,
      the request takes `took`, and the server moved the expiry `stamp` after
      the request began, if it did so at all. */
  datatype Turn = Turn(late: nat, took: nat, stamp: nat, reply: Reply)

  /** A turn in which the timer is at most `jitter` late and the request takes at
      most `timeout`. */
  predicate Bounded(t: Turn, timeout: nat, jitter: nat) {
    t.late <= jitter && t.took <= timeout && t.stamp <= t.took
  }

  datatype Phase = Renewing | LeaseLost | Stopped

  /** `deadline` is the agent's estimate of the lease's end, `expiry` the
      server's own; `fireAt` is when the timer is due, and `failures` counts the
      turns since the last renewal. */
  datatype Clock = Clock(phase: Phase, now: int, fireAt: int, deadline: int, expiry: int, failures: nat)

  /** The loop starts `age` after the server stamped the acknowledged lease. */
  function Begin(config: Config, start: int, age: nat): Clock {
    Clock(Renewing, start, start + NormalDelay(config), start + config.leaseDuration,
          start - age + config.leaseDuration, 0)
  }

  function Tick(config: Config, c: Clock, t: Turn): Clock {
    var fired := c.fireAt + t.late;
    var now := fired + t.took;
    if Renewed(t.reply) then
      Clock(Renewing, now, now + NormalDelay(config), now + config.leaseDuration,
            fired + t.stamp + config.leaseDuration, 0)
    else if t.reply.ContextCanceled? then
      c.(phase := Stopped, now := now)
    else if Transient(t.reply) && now + RetryDelay(config) <= c.deadline - SafetyWindow(config) then
      c.(now := now, fireAt := now + RetryDelay(config), failures := c.failures + 1)
    else
      c.(phase := LeaseLost, now := now)
  }

  /** The clock after the given turns; the loop takes no turn once it has ended. */
  function After(config: Config, start: int, age: nat, turns: seq<Turn>): Clock {
    if turns == [] then Begin(config, start, age)
    else
      var c := After(config, start, age, turns[..|turns| - 1]);
      if c.phase.Renewing? then Tick(config, c, turns[|turns| - 1]) else c
  }

  method Delays(config: Config) returns (normalDelay: int, retryDelay: int, safetyWindow: int)
    ensures normalDelay == NormalDelay(config)
    ensures retryDelay == RetryDelay(config)
    ensures safetyWindow == SafetyWindow(config)
    // The configured pause, but five seconds at most for a chat run.
    ensures normalDelay <= config.renewInterval && (config.chat ==> normalDelay <= 5 * SECOND)
    ensures normalDelay == config.renewInterval || (config.chat && normalDelay == 5 * SECOND)
    // A quarter of it, rounded down, but five seconds at most, and a millisecond if nothing is left.
    ensures normalDelay < 4 ==> retryDelay == MILLISECOND
    ensures normalDelay >= 4 ==> 0 < 4 * retryDelay <= normalDelay && retryDelay <= 5 * SECOND
    ensures normalDelay >= 4 ==> retryDelay == 5 * SECOND || normalDelay < 4 * (retryDelay + 1)
    // A fifth of the lease, rounded down, but no more than the pause, and a millisecond if nothing is left.
    ensures normalDelay < 1 || config.leaseDuration < 5 ==> safetyWindow == MILLISECOND
    ensures normalDelay >= 1 && config.leaseDuration >= 5 ==>
              0 < safetyWindow <= normalDelay && 5 * safetyWindow <= config.leaseDuration
    ensures normalDelay >= 1 && config.leaseDuration >= 5 ==>
              safetyWindow == normalDelay || config.leaseDuration < 5 * (safetyWindow + 1)
  {
    normalDelay := config.renewInterval;
    if config.chat && normalDelay > 5 * SECOND {
      normalDelay := 5 * SECOND;
    }
    retryDelay := Quotient(normalDelay, 4);
    if retryDelay <= 0 {
      retryDelay := MILLISECOND;
    }
    if retryDelay > 5 * SECOND {
      retryDelay := 5 * SECOND;
    }
    safetyWindow := normalDelay;
    var maximum := Quotient(config.leaseDuration, 5);
    if safetyWindow > maximum {
      safetyWindow := maximum;
    }
    if safetyWindow <= 0 {
      safetyWindow := MILLISECOND;
    }
  }

  lemma AfterTurn(config: Config, start: int, age: nat, turns: seq<Turn>, i: nat)
    requires i < |turns| && After(config, start, age, turns[..i]).phase.Renewing?
    ensures After(config, start, age, turns[..i + 1]) == Tick(config, After(config, start, age, turns[..i]), turns[i])
  {
    assert turns[..i + 1][..i] == turns[..i];
  }

  /** The renewal loop itself, driven by the turns of one execution. */
  method RunLeaseRenewalLoop(config: Config, start: int, turns: seq<Turn>, ghost age: nat)
    returns (phase: Phase, ended: int, leaseDeadline: int)
    ensures
      var c := After(config, start, age, turns);
      phase == c.phase && ended == c.now && leaseDeadline == c.deadline
    ensures turns == [] ==> phase.Renewing? && leaseDeadline == start + config.leaseDuration
    ensures |turns| == 1 ==> ended == start + NormalDelay(config) + turns[0].late + turns[0].took
  {
    var normalDelay, retryDelay, safetyWindow := Delays(config);
    leaseDeadline := start + config.leaseDuration;
    var timer := start + normalDelay;
    phase, ended := Renewing, start;
    var i := 0;
    assert turns[..0] == [];
    while i < |turns| && phase.Renewing?
      invariant 0 <= i <= |turns|
      invariant
        var c := After(config, start, age, turns[..i]);
        phase == c.phase && ended == c.now && leaseDeadline == c.deadline && timer == c.fireAt
    {
      var turn := turns[i];
      AfterTurn(config, start, age, turns, i);
      ended := timer + turn.late + turn.took;
      if turn.reply.TransportError? || turn.reply.ContextCanceled? {
        if turn.reply.ContextCanceled? {
          phase := Stopped;
        } else if ended + retryDelay > leaseDeadline - safetyWindow {
          phase := LeaseLost;
        } else {
          timer := ended + retryDelay;
        }
      } else if turn.reply.code != 204 {
        if Transient(turn.reply) && ended + retryDelay <= leaseDeadline - safetyWindow {
          timer := ended + retryDelay;
        } else {
          phase := LeaseLost;
        }
      } else {
        leaseDeadline := ended + config.leaseDuration;
        timer := ended + normalDelay;
      }
      i := i + 1;
    }
    EndedStays(config, start, age, turns, i);
    assert |turns| == 1 ==> turns[..0] == [];
  }

  lemma {:induction false} EndedStays(config: Config, start: int, age: nat, turns: seq<Turn>, n: nat)
    requires n <= |turns|
    requires n == |turns| || !After(config, start, age, turns[..n]).phase.Renewing?
    ensures After(config, start, age, turns) == After(config, start, age, turns[..n])
    decreases |turns|
  {
    if n == |turns| {
      assert turns[..n] == turns;
    } else {
      var before := turns[..|turns| - 1];
      assert before[..n] == turns[..n];
      EndedStays(config, start, age, before, n);
    }
  }

  /** The moment at which a turn's reply is in. */
  function EndOf(c: Clock, t: Turn): int {
    c.fireAt + t.late + t.took
  }

  /** A turn that the loop survives: the lease was renewed, or the failure is one that
      may pass and a retry still comes before the safety deadline. */
  predicate Survives(config: Config, c: Clock, t: Turn) {
    || t.reply == Status(204)
    || (&& EndOf(c, t) + RetryDelay(config) <= c.deadline - SafetyWindow(config)
        && match t.reply
           case TransportError => true
           case ContextCanceled => false
           case Status(code) => code == 408 || code == 429 || code >= 500)
  }

  /** What one turn does to a loop that is renewing. */
  lemma TurnExactly(config: Config, start: int, age: nat, turns: seq<Turn>, i: nat)
    requires i < |turns| && After(config, start, age, turns[..i]).phase.Renewing?
    ensures
      var c, d, t := After(config, start, age, turns[..i]), After(config, start, age, turns[..i + 1]), turns[i];
      && (d.phase.Renewing? <==> Survives(config, c, t))
      && (d.phase.Stopped? <==> t.reply.ContextCanceled?)
      && d.now == EndOf(c, t)
      && d.deadline == (if t.reply == Status(204) then EndOf(c, t) + config.leaseDuration else c.deadline)
      && (d.phase.Renewing? ==>
           d.fireAt == EndOf(c, t) + if t.reply == Status(204) then NormalDelay(config) else RetryDelay(config))
  {
    AfterTurn(config, start, age, turns, i);
  }

  /** The loop still renews exactly if it survived every turn. */
  lemma {:induction false} RenewsExactly(config: Config, start: int, age: nat, turns: seq<Turn>)
    ensures After(config, start, age, turns).phase.Renewing? <==>
      forall i :: 0 <= i < |turns| ==> Survives(config, After(config, start, age, turns[..i]), turns[i])
  {
    if turns != [] {
      var before := turns[..|turns| - 1];
      RenewsExactly(config, start, age, before);
      assert turns[..|turns|] == turns;
      assert forall i :: 0 <= i < |before| ==> before[..i] == turns[..i] && before[i] == turns[i];
      if After(config, start, age, before).phase.Renewing? {
        TurnExactly(config, start, age, turns, |before|);
      }
    }
  }

  /** The first turn it does not survive ends it: at the end of that turn, and as a
      lost lease unless the execution was over anyway. No later turn changes that. */
  lemma EndsAt(config: Config, start: int, age: nat, turns: seq<Turn>, i: nat)
    requires i < |turns| && !Survives(config, After(config, start, age, turns[..i]), turns[i])
    requires forall j :: 0 <= j < i ==> Survives(config, After(config, start, age, turns[..j]), turns[j])
    ensures
      var c, d := After(config, start, age, turns[..i]), After(config, start, age, turns);
      && d.phase == (if turns[i].reply.ContextCanceled? then Stopped else LeaseLost)
      && d.now == EndOf(c, turns[i]) && d.deadline == c.deadline
  {
    var before := turns[..i];
    assert forall j :: 0 <= j < i ==> before[..j] == turns[..j] && before[j] == turns[j];
    RenewsExactly(config, start, age, before);
    TurnExactly(config, start, age, turns, i);
    EndedStays(config, start, age, turns, i + 1);
  }

  /** The first attempt to renew comes before the safety deadline. */
  predicate FirstDelayFits(config: Config) {
    0 <= NormalDelay(config) && NormalDelay(config) + SafetyWindow(config) <= config.leaseDuration
  }

  ghost predicate AllBounded(turns: seq<Turn>, timeout: nat, jitter: nat) {
    forall i :: 0 <= i < |turns| ==> Bounded(turns[i], timeout, jitter)
  }

  /** While the loop renews, its timer is due before the safety deadline, and the
      agent's estimate of the lease's end is at most one request too late. */
  lemma {:induction false} TimerBeforeSafetyDeadline(config: Config, start: int, age: nat, turns: seq<Turn>,
          timeout: nat, jitter: nat)
    requires FirstDelayFits(config) && age <= timeout && AllBounded(turns, timeout, jitter)
    ensures
      var c := After(config, start, age, turns);
      && (c.phase.Renewing? ==> c.fireAt <= c.deadline - SafetyWindow(config))
      && c.now <= c.deadline - SafetyWindow(config) + jitter + timeout
      && c.deadline - timeout <= c.expiry
  {
    if turns != [] {
      TimerBeforeSafetyDeadline(config, start, age, turns[..|turns| - 1], timeout, jitter);
      assert Bounded(turns[|turns| - 1], timeout, jitter);
    }
  }

  /** Renewal failures end the loop: after every turn it survives, the failures
      since the last renewal still fit between the first delay and the safety
      deadline. */
  lemma {:induction false} FailuresAreBounded(config: Config, start: int, age: nat, turns: seq<Turn>)
    requires FirstDelayFits(config)
    ensures
      var c := After(config, start, age, turns);
      && c.deadline - config.leaseDuration + NormalDelay(config) + c.failures * RetryDelay(config) <= c.fireAt
      && (c.phase.Renewing? ==>
            NormalDelay(config) + c.failures * RetryDelay(config) <= config.leaseDuration - SafetyWindow(config))
  {
    if turns != [] {
      var before := After(config, start, age, turns[..|turns| - 1]);
      FailuresAreBounded(config, start, age, turns[..|turns| - 1]);
      var retry := RetryDelay(config);
      assert (before.failures + 1) * retry == before.failures * retry + retry;
    }
  }

  /** The server's lease has not expired at any moment of the execution: up to
      the end of each turn, the expiry that stood before the turn still lay ahead. */
  ghost predicate CoveredByLease(config: Config, start: int, age: nat, turns: seq<Turn>) {
    forall n :: 0 < n <= |turns| ==>
      After(config, start, age, turns[..n]).now < After(config, start, age, turns[..n - 1]).expiry
  }

  /** Whatever the environment does within its bounds, the execution is cancelled
      before the server's lease runs out. */
  ghost predicate Safe(config: Config, timeout: nat, jitter: nat) {
    forall start: int, age: nat, turns: seq<Turn> ::
      age <= timeout && AllBounded(turns, timeout, jitter) ==> CoveredByLease(config, start, age, turns)
  }

  lemma WideWindowIsSafe(config: Config, timeout: nat, jitter: nat)
    requires FirstDelayFits(config) && SafetyWindow(config) > 2 * timeout + jitter
    ensures Safe(config, timeout, jitter)
  {
    forall start: int, age: nat, turns: seq<Turn> | age <= timeout && AllBounded(turns, timeout, jitter)
      ensures CoveredByLease(config, start, age, turns)
    {
      forall n | 0 < n <= |turns|
        ensures After(config, start, age, turns[..n]).now < After(config, start, age, turns[..n - 1]).expiry
      {
        TimerBeforeSafetyDeadline(config, start, age, turns[..n - 1], timeout, jitter);
        assert turns[..n][..n - 1] == turns[..n - 1];
        assert Bounded(turns[n - 1], timeout, jitter);
      }
    }
  }

  /** Failed requests can be timed so that the last one begins exactly at the
      safety deadline. */
  lemma {:induction false} ReachSafetyDeadline(config: Config, start: int, age: nat, turns: seq<Turn>, timeout: nat,
          jitter: nat)
    returns (more: seq<Turn>)
    requires AllBounded(turns, timeout, jitter) && RetryDelay(config) <= timeout
    requires
      var c := After(config, start, age, turns);
      var gap := c.deadline - SafetyWindow(config) - c.fireAt;
      c.phase.Renewing? && (gap == 0 || gap >= RetryDelay(config))
    ensures AllBounded(more, timeout, jitter)
    ensures
      var c, d := After(config, start, age, turns), After(config, start, age, more);
      d.phase.Renewing? && d.deadline == c.deadline && d.expiry == c.expiry &&
      d.fireAt == d.deadline - SafetyWindow(config)
    decreases After(config, start, age, turns).deadline - SafetyWindow(config) - After(config, start, age, turns).fireAt
  {
    var c := After(config, start, age, turns);
    var gap := c.deadline - SafetyWindow(config) - c.fireAt;
    var retry := RetryDelay(config);
    if gap == 0 {
      more := turns;
    } else {
      var took := if gap - retry <= timeout then gap - retry
                  else if gap - retry - timeout >= retry then timeout
                  else gap - 2 * retry;
      var next := turns + [Turn(0, took, 0, TransportError)];
      assert next[..|next| - 1] == turns;
      more := ReachSafetyDeadline(config, start, age, next, timeout, jitter);
    }
  }

  lemma NarrowWindowIsUnsafe(config: Config, timeout: nat, jitter: nat)
    requires FirstDelayFits(config) && RetryDelay(config) <= timeout
    requires config.leaseDuration - SafetyWindow(config) - NormalDelay(config) >= RetryDelay(config)
    requires SafetyWindow(config) <= 2 * timeout + jitter
    ensures !Safe(config, timeout, jitter)
  {
    var turns := ReachSafetyDeadline(config, 0, timeout, [], timeout, jitter);
    var c := After(config, 0, timeout, turns);
    var all := turns + [Turn(jitter, timeout, 0, TransportError)];
    assert all[..|turns|] == turns && all[..|all|] == all;
    assert c.now <= c.fireAt + jitter + timeout;
    assert After(config, 0, timeout, all).now >= c.expiry;
    assert !CoveredByLease(config, 0, timeout, all) by {
      assert !(After(config, 0, timeout, all[..|all|]).now < After(config, 0, timeout, all[..|all| - 1]).expiry);
    }
  }

  /** The exact condition, for configurations that leave room for one retry. */
  lemma SafeExactly(config: Config, timeout: nat, jitter: nat)
    requires FirstDelayFits(config) && RetryDelay(config) <= timeout
    requires config.leaseDuration - SafetyWindow(config) - NormalDelay(config) >= RetryDelay(config)
    ensures Safe(config, timeout, jitter) <==> SafetyWindow(config) > 2 * timeout + jitter
  {
    if SafetyWindow(config) > 2 * timeout + jitter {
      WideWindowIsSafe(config, timeout, jitter);
    } else {
      NarrowWindowIsUnsafe(config, timeout, jitter);
    }
  }

  /** The agent's defaults, and its 20-second HTTP timeout. */
  const DEFAULTS := Config(60 * SECOND, 300 * SECOND, false)
  const CHAT_DEFAULTS := Config(60 * SECOND, 300 * SECOND, true)
  const HTTP_TIMEOUT: nat := 20 * SECOND

  /** With the defaults an ordinary job is cancelled in time as long as timers
      are less than 20 seconds late. A chat run never has that guarantee. */
  lemma DefaultsAreSafe(jitter: nat)
    ensures Safe(DEFAULTS, HTTP_TIMEOUT, jitter) <==> jitter < 20 * SECOND
    ensures !Safe(CHAT_DEFAULTS, HTTP_TIMEOUT, jitter)
  {
    SafeExactly(DEFAULTS, HTTP_TIMEOUT, jitter);
    SafeExactly(CHAT_DEFAULTS, HTTP_TIMEOUT, jitter);
  }
}
