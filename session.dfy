/** The measurement session of the sensor driver: the `g_running` flag and
    the one-shot stop timer `g_stopTimer` of max30102_driver.c, as a state
    machine. Both driver variants share the stop transition and differ in
    how a start arms the timer. */
module Session {
  import opened Esp

  /** The duration the HeartLink driver treats as "run until stopped". */
  const INFINITE: nat := 0xFFFF_FFFF

  /** TickType_t is 32 bits wide. */
  const TICK_MODULUS: nat := 0x1_0000_0000

  /** pdMS_TO_TICKS with a 32-bit TickType_t: the product of the duration
      and the tick rate is formed in TickType_t, so it wraps before the
      division by 1000. */
  function MsToTicks(ms: nat, rateHz: nat): (ticks: nat)
    ensures ticks < TICK_MODULUS
  {
    (ms * rateHz) % TICK_MODULUS / 1000
  }

  /** A one-shot FreeRTOS software timer: its handle and its period in ticks. */
  datatype Timer = Timer(handle: nat, periodTicks: nat)

  /** `created` counts the xTimerCreate calls so far and numbers the next handle. */
  datatype State = State(running: bool, timer: Option<Timer>, created: nat)

  /** A stop timer only exists while a session runs, and it was created
      before. */
  predicate Valid(s: State) {
    s.timer.Some? ==> s.running && s.timer.value.handle < s.created && s.timer.value.periodTicks > 0
  }

  const Initial: State := State(false, None, 0)

  /** The timer xTimerCreate returns for a duration at a tick rate: a fresh
      handle whose period is the converted duration, or none when creation
      fails or the period comes out as zero ticks. */
  function NewTimer(s: State, durationMs: nat, rateHz: nat, createOk: bool): Option<Timer> {
    var ticks := MsToTicks(durationMs, rateHz);
    if createOk && ticks > 0 then Some(Timer(s.created, ticks)) else None
  }

  /** HeartLink max30102StartSession after a successful boot from idle:
      running, the old timer cancelled and cleared, and a new one-shot timer
      only for a finite duration. */
  function Started(s: State, durationMs: nat, rateHz: nat, createOk: bool): State {
    if durationMs != INFINITE then State(true, NewTimer(s, durationMs, rateHz, createOk), s.created + 1)
    else State(true, None, s.created)
  }

  /** Capstone max30102StartSession after a successful boot from idle: the
      timer is always replaced by a new one-shot timer of `durationMs`. */
  function StartedAlways(s: State, durationMs: nat, rateHz: nat, createOk: bool): State {
    State(true, NewTimer(s, durationMs, rateHz, createOk), s.created + 1)
  }

  /** max30102StopSession: nothing when idle; otherwise the timer is
      cancelled and cleared and the session is no longer running. */
  function Stopped(s: State): State {
    if !s.running then s else State(false, None, s.created)
  }

  /** Starting, either way, and stopping keep the session state valid. */
  lemma TransitionsKeepValid(s: State, durationMs: nat, rateHz: nat, createOk: bool)
    requires Valid(s)
    ensures Valid(Started(s, durationMs, rateHz, createOk))
    ensures Valid(StartedAlways(s, durationMs, rateHz, createOk))
    ensures Valid(Stopped(s))
  {
  }

  /** After stopping a valid state, no session runs and no timer is armed;
      stopping twice is stopping once. */
  lemma StopIsIdempotent(s: State)
    requires Valid(s)
    ensures !Stopped(s).running && Stopped(s).timer == None
    ensures Stopped(Stopped(s)) == Stopped(s)
    ensures !s.running ==> Stopped(s) == s
  {
  }

  /** A duration whose product with the tick rate fits TickType_t converts
      exactly (rounded down to whole ticks); one under a tick converts to
      zero ticks. */
  lemma TicksWithoutWrap(ms: nat, rateHz: nat)
    requires ms * rateHz < TICK_MODULUS
    ensures MsToTicks(ms, rateHz) == ms * rateHz / 1000
    ensures MsToTicks(ms, rateHz) == 0 <==> ms * rateHz < 1000
  {
  }

  /** The "infinite" duration wraps: for any tick rate below 2^32 the product
      0xFFFFFFFF * rate leaves 2^32 - rate in TickType_t, so the period is
      (2^32 - rate) / 1000 ticks, so the timer fires after about
      2^32 / rate ms instead of 0xFFFFFFFF ms (71.6 minutes at 1000 Hz,
      11.9 hours at 100 Hz). */
  lemma {:induction false} InfiniteTicksWrap(rateHz: nat)
    requires 0 < rateHz < TICK_MODULUS
    ensures MsToTicks(INFINITE, rateHz) == (TICK_MODULUS - rateHz) / 1000
    ensures MsToTicks(INFINITE, 1000) == 4_294_966 && MsToTicks(INFINITE, 100) == 4_294_967
  {
    var p := INFINITE * rateHz;
    assert p == (rateHz - 1) * TICK_MODULUS + (TICK_MODULUS - rateHz);
    ModOfDecomposition(p, rateHz - 1, TICK_MODULUS - rateHz, TICK_MODULUS);
    ModOfDecomposition(INFINITE * 1000, 999, TICK_MODULUS - 1000, TICK_MODULUS);
    ModOfDecomposition(INFINITE * 100, 99, TICK_MODULUS - 100, TICK_MODULUS);
  }

  /** Euclidean division has one remainder. */
  lemma ModOfDecomposition(a: nat, q: nat, r: nat, m: nat)
    requires 0 <= r < m && a == q * m + r
    ensures a % m == r
  {
    var q', r' := a / m, a % m;
    assert (q - q') * m == r' - r;
    if q > q' {
      ProductAtLeast(q - q', m);
    } else if q < q' {
      ProductAtLeast(q' - q, m);
    }
  }

  lemma ProductAtLeast(k: int, m: nat)
    requires k >= 1
    ensures k * m >= m
  {
    assert k * m == (k - 1) * m + m;
  }

  /** HeartLink: an infinite session arms no timer, so only an explicit stop
      ends it; a finite one arms exactly one timer, of the duration converted
      to ticks, when creation succeeds and the period is at least one tick.
      A duration whose product with the tick rate fits TickType_t gets a
      timer of duration * rate / 1000 ticks. */
  lemma InfiniteSessionHasNoTimer(s: State, durationMs: nat, rateHz: nat, createOk: bool)
    ensures Started(s, durationMs, rateHz, createOk).timer == None <==>
      durationMs == INFINITE || !createOk || MsToTicks(durationMs, rateHz) == 0
    ensures durationMs != INFINITE && createOk && MsToTicks(durationMs, rateHz) > 0 ==>
      Started(s, durationMs, rateHz, createOk).timer == Some(Timer(s.created, MsToTicks(durationMs, rateHz)))
    ensures durationMs != INFINITE && createOk && 1000 <= durationMs * rateHz < TICK_MODULUS ==>
      Started(s, durationMs, rateHz, createOk).timer == Some(Timer(s.created, durationMs * rateHz / 1000))
  {
    if durationMs * rateHz < TICK_MODULUS {
      TicksWithoutWrap(durationMs, rateHz);
    }
  }

  /** The two variants agree on every finite duration and differ on the
      infinite one, where the capstone driver still arms a timer, and its
      period is the wrapped conversion of 0xFFFFFFFF ms. */
  lemma VariantsDifferOnlyOnInfinite(s: State, durationMs: nat, rateHz: nat, createOk: bool)
    ensures durationMs != INFINITE ==>
      Started(s, durationMs, rateHz, createOk) == StartedAlways(s, durationMs, rateHz, createOk)
    ensures createOk && 0 < rateHz < TICK_MODULUS && rateHz <= TICK_MODULUS - 1000 ==>
      StartedAlways(s, INFINITE, rateHz, createOk).timer == Some(Timer(s.created, (TICK_MODULUS - rateHz) / 1000))
    ensures Started(s, INFINITE, rateHz, createOk).timer == None
  {
    if 0 < rateHz < TICK_MODULUS {
      InfiniteTicksWrap(rateHz);
    }
  }

  /** The timer firing (stopTimerCb) ends the session it was armed for. */
  lemma ExpiryEndsSession(s: State, durationMs: nat, rateHz: nat)
    requires !s.running
    ensures var s' := Started(s, durationMs, rateHz, true);
      s'.running && (durationMs != INFINITE && MsToTicks(durationMs, rateHz) > 0 ==> s'.timer.Some?)
      && !Stopped(s').running
  {
  }
}
