/** The HeartLink sensor driver (max30102_driver/max30102_driver.c): device
    bring-up with retries, delegations to the sensor layer, and the
    measurement session with its stop timer. The module state `g_running`
    and `g_stopTimer` are fields of the `Driver` class. */
module Driver {
  import opened Esp
  import opened RegMap
  import opened I2c
  import opened HalReg
  import opened Types
  import opened HalSensor
  import P = Platform
  import opened Session

  const MAX_ATTEMPTS: nat := 3
  const RETRY_DELAY_MS: nat := 200

  /** The register work of max30102_internal_init after the platform calls:
      the sensor init, then FIFO config, mode MODE_SPO2 (0x03) and default
      LED currents, stopping at the first failure. */
  const DeviceInitTail: seq<Stage> :=
    [FifoInitStage, ModeStage(MODE_SPO2), LedStage(DEFAULT_LED_CURRENT, DEFAULT_LED_CURRENT)]

  /** The boot of max30102StartSession: the sensor init, FIFO config, FIFO
      reset, mode MODE_SPO2 and default LED currents. */
  const BootTail: seq<Stage> :=
    [FifoInitStage, ResetFifoStage, ModeStage(MODE_SPO2), LedStage(DEFAULT_LED_CURRENT, DEFAULT_LED_CURRENT)]

  /** Both register sequences of the driver end in SpO2 mode (0x03): the
      heart-rate code the sensor init writes (stage 6) is overwritten by
      the driver's MODE_SPO2 stage, after which MODE_CONFIG is not written. */
  lemma DeviceSequencesEndInSpO2Mode()
    ensures var init, boot := SensorInitStages + DeviceInitTail, SensorInitStages + BootTail;
      && |init| == 10 && |boot| == 11
      && init[6] == boot[6] == [RegWrite(REG_MODE_CONFIG, HAL_MODE_HEART_RATE)]
      && init[8] == boot[9] == [RegWrite(REG_MODE_CONFIG, HAL_MODE_SPO2)]
      && (forall j, k :: 8 < j < |init| && 0 <= k < |init[j]| ==> init[j][k].reg != REG_MODE_CONFIG)
      && (forall j, k :: 9 < j < |boot| && 0 <= k < |boot[j]| ==> boot[j][k].reg != REG_MODE_CONFIG)
  {
    HalCodeAsModeFallsToDefault();
    var init, boot := SensorInitStages + DeviceInitTail, SensorInitStages + BootTail;
    assert init[9] == boot[10] == LedStage(DEFAULT_LED_CURRENT, DEFAULT_LED_CURRENT);
  }

  /** The effect of a bring-up on the platform log and the bus trace. */
  datatype Bring = Bring(status: Err, log: seq<P.Call>, trace: seq<Txn>)

  /** max30102_internal_init: I2C init, interrupt init, then the register
      stages, each stopping the bring-up when it fails. */
  function InternalInitFn(ps: nat -> Err, log: seq<P.Call>, o: Oracle, t: seq<Txn>): Bring {
    var log1 := log + [P.I2cInit];
    if ps(|log|) != OK then Bring(ps(|log|), log1, t)
    else
      var log2 := log1 + [P.InterruptInit];
      if ps(|log1|) != OK then Bring(ps(|log1|), log2, t)
      else
        var r := RunStages(o, t, SensorInitStages + DeviceInitTail);
        Bring(r.status, log2, r.trace)
  }

  /** The outcome of the retry loop of max30102Init, with the delays it slept. */
  datatype InitRun = InitRun(status: Err, log: seq<P.Call>, trace: seq<Txn>, delays: seq<nat>)

  /** The retry loop from attempt i, `ret` holding the last attempt's code. */
  function InitFrom(ps: nat -> Err, o: Oracle, i: nat, ret: Err, log: seq<P.Call>, t: seq<Txn>, d: seq<nat>): InitRun
    decreases MAX_ATTEMPTS - i
  {
    if i >= MAX_ATTEMPTS then InitRun(ret, log, t, d)
    else
      var a := InternalInitFn(ps, log, o, t);
      if a.status == OK then InitRun(OK, a.log, a.trace, d)
      else InitFrom(ps, o, i + 1, a.status, a.log, a.trace, d + [RETRY_DELAY_MS])
  }

  /** max30102Init. */
  function InitFn(ps: nat -> Err, log: seq<P.Call>, o: Oracle, t: seq<Txn>): InitRun {
    InitFrom(ps, o, 0, FAIL, log, t, [])
  }

  /** Every bring-up attempt calls hal_i2c_init exactly once. */
  lemma InternalInitCountsOneAttempt(ps: nat -> Err, log: seq<P.Call>, o: Oracle, t: seq<Txn>)
    ensures P.Count(InternalInitFn(ps, log, o, t).log, P.I2cInit) == P.Count(log, P.I2cInit) + 1
  {
    var log1 := log + [P.I2cInit];
    assert log1[..|log1| - 1] == log;
    if ps(|log|) == OK {
      var log2 := log1 + [P.InterruptInit];
      assert log2[..|log2| - 1] == log1;
    }
  }

  /** The number of bring-up attempts the retry loop makes from attempt i. */
  function AttemptsFrom(ps: nat -> Err, o: Oracle, i: nat, log: seq<P.Call>, t: seq<Txn>): nat
    decreases MAX_ATTEMPTS - i
  {
    if i >= MAX_ATTEMPTS then 0
    else
      var a := InternalInitFn(ps, log, o, t);
      if a.status == OK then 1 else 1 + AttemptsFrom(ps, o, i + 1, a.log, a.trace)
  }

  /** The retry loop from attempt i < 3 makes between one and 3 - i
      attempts, each counted by one hal_i2c_init, and fails only when all of
      them failed. */
  lemma {:induction false} InitFromAttempts(ps: nat -> Err, o: Oracle, i: nat, ret: Err, log: seq<P.Call>, t: seq<Txn>, d: seq<nat>)
    requires i < MAX_ATTEMPTS
    ensures var r, n := InitFrom(ps, o, i, ret, log, t, d), AttemptsFrom(ps, o, i, log, t);
      && 1 <= n <= MAX_ATTEMPTS - i
      && P.Count(r.log, P.I2cInit) == P.Count(log, P.I2cInit) + n
      && (r.status != OK ==> n == MAX_ATTEMPTS - i)
    decreases MAX_ATTEMPTS - i
  {
    var a := InternalInitFn(ps, log, o, t);
    InternalInitCountsOneAttempt(ps, log, o, t);
    if a.status != OK && i + 1 < MAX_ATTEMPTS {
      InitFromAttempts(ps, o, i + 1, a.status, a.log, a.trace, d + [RETRY_DELAY_MS]);
    }
  }

  /** Every failed attempt of the retry loop, the last one included, adds
      one 200 ms delay, and nothing else does. */
  lemma {:induction false} InitFromDelays(ps: nat -> Err, o: Oracle, i: nat, ret: Err, log: seq<P.Call>, t: seq<Txn>, d: seq<nat>)
    requires i < MAX_ATTEMPTS
    ensures var r, n := InitFrom(ps, o, i, ret, log, t, d), AttemptsFrom(ps, o, i, log, t);
      && |r.delays| == |d| + (if r.status == OK then n - 1 else n)
      && r.delays[..|d|] == d
      && (forall k :: |d| <= k < |r.delays| ==> r.delays[k] == RETRY_DELAY_MS)
    decreases MAX_ATTEMPTS - i
  {
    var a := InternalInitFn(ps, log, o, t);
    if a.status != OK && i + 1 < MAX_ATTEMPTS {
      var d' := d + [RETRY_DELAY_MS];
      InitFromDelays(ps, o, i + 1, a.status, a.log, a.trace, d');
      var r := InitFrom(ps, o, i + 1, a.status, a.log, a.trace, d');
      assert r.delays[..|d|] == r.delays[..|d'|][..|d|];
    }
  }

  /** A failed retry loop ends with the outcome of its last attempt alone. */
  lemma {:induction false} InitFromFailure(ps: nat -> Err, o: Oracle, i: nat, ret: Err, log: seq<P.Call>, t: seq<Txn>, d: seq<nat>)
    requires i < MAX_ATTEMPTS
    ensures var r := InitFrom(ps, o, i, ret, log, t, d);
      r.status != OK ==> exists log', t' :: InternalInitFn(ps, log', o, t') == Bring(r.status, r.log, r.trace)
    decreases MAX_ATTEMPTS - i
  {
    var a := InternalInitFn(ps, log, o, t);
    if a.status != OK {
      if i + 1 < MAX_ATTEMPTS {
        InitFromFailure(ps, o, i + 1, a.status, a.log, a.trace, d + [RETRY_DELAY_MS]);
      } else {
        assert InternalInitFn(ps, log, o, t) == Bring(a.status, a.log, a.trace);
      }
    }
  }

  /** max30102Init: at most three attempts, each counted by one
      hal_i2c_init; OK on the first successful one, after one 200 ms delay
      per earlier failure; otherwise three failed attempts, three delays, and
      the outcome of the third attempt, made on the log and trace the second
      one left. */
  lemma InitPolicy(ps: nat -> Err, log: seq<P.Call>, o: Oracle, t: seq<Txn>)
    ensures var r, n := InitFn(ps, log, o, t), AttemptsFrom(ps, o, 0, log, t);
      && 1 <= n <= MAX_ATTEMPTS
      && P.Count(r.log, P.I2cInit) == P.Count(log, P.I2cInit) + n
      && (r.status == OK ==> |r.delays| == n - 1)
      && (r.status != OK ==> n == MAX_ATTEMPTS && r.delays == [RETRY_DELAY_MS, RETRY_DELAY_MS, RETRY_DELAY_MS])
      && (r.status != OK ==>
            var a1 := InternalInitFn(ps, log, o, t);
            var a2 := InternalInitFn(ps, a1.log, o, a1.trace);
            && a1.status != OK && a2.status != OK
            && InternalInitFn(ps, a2.log, o, a2.trace) == Bring(r.status, r.log, r.trace))
      && (forall k :: 0 <= k < |r.delays| ==> r.delays[k] == RETRY_DELAY_MS)
  {
    InitFromAttempts(ps, o, 0, FAIL, log, t, []);
    InitFromDelays(ps, o, 0, FAIL, log, t, []);
    InitFromFailure(ps, o, 0, FAIL, log, t, []);
  }

  /** max30102Configure: the LED currents are written only after the mode
      write succeeded. */
  lemma ConfigureStopsAtMode(o: Oracle, t: seq<Txn>, mode: int, red: bv8, ir: bv8)
    ensures var r := RunStages(o, t, [ModeStage(mode), LedStage(red, ir)]);
      && (o.status(|t|) != OK ==> r == Outcome(o.status(|t|), t + [WriteTxn(REG_MODE_CONFIG, ModeCode(mode))]))
      && (o.status(|t|) == OK ==> r == Outcome(Or(o.status(|t| + 1), o.status(|t| + 2)),
            t + [WriteTxn(REG_MODE_CONFIG, ModeCode(mode)), WriteTxn(REG_LED1_PA, red), WriteTxn(REG_LED2_PA, ir)]))
  {
    var m := RegWrite(REG_MODE_CONFIG, ModeCode(mode));
    OneWrite(o, t, m.reg, m.val);
    RunStagesAppend(o, t, [ModeStage(mode)], [LedStage(red, ir)]);
    assert [ModeStage(mode)] + [LedStage(red, ir)] == [ModeStage(mode), LedStage(red, ir)];
    var t1 := t + [WriteTxn(m.reg, m.val)];
    var w1, w2 := RegWrite(REG_LED1_PA, red), RegWrite(REG_LED2_PA, ir);
    RunOneStage(o, t1, [w1, w2]);
    StageSnoc(o, |t1|, t1, [], w1);
    StageSnoc(o, |t1|, t1, [w1], w2);
    assert [] + [w1] == [w1] && [w1] + [w2] == [w1, w2];
  }

  /** max30102HandleInterrupt's result: "no sample ready" is success. */
  function HandleResult(ret: Err): (r: Err)
    ensures r != ERR_NOT_FOUND
    ensures ret == ERR_NOT_FOUND ==> r == OK
    ensures ret != ERR_NOT_FOUND ==> r == ret
  {
    if ret == ERR_NOT_FOUND then OK else ret
  }

  /** The bus steps StartSession performs under ESP_ERROR_CHECK, stopping
      at the first failure. */
  method Boot(bus: Bus) returns (ret: Err)
    modifies bus
    ensures Did(bus, ret, RunStages(bus.oracle, old(bus.trace), SensorInitStages + BootTail))
  {
    ghost var o, t0, ss := bus.oracle, bus.trace, BootTail;
    RunStagesAppend(o, t0, SensorInitStages, ss);
    ret := SensorInit(bus);
    if ret != OK { return; }
    ghost var t1 := bus.trace;
    ProgressStart(o, t1, ss);
    ghost var tb := bus.trace;
    ret := FifoInit(bus);
    Advance(o, t1, ss, 0, tb, ret, bus.trace);
    if ret != OK { return; }
    tb := bus.trace;
    ret := ResetFifo(bus);
    Advance(o, t1, ss, 1, tb, ret, bus.trace);
    if ret != OK { return; }
    tb := bus.trace;
    ret := SetMode(bus, MODE_SPO2);
    Advance(o, t1, ss, 2, tb, ret, bus.trace);
    if ret != OK { return; }
    tb := bus.trace;
    ret := SetLedCurrent(bus, DEFAULT_LED_CURRENT, DEFAULT_LED_CURRENT);
    Advance(o, t1, ss, 3, tb, ret, bus.trace);
    if ret != OK { return; }
    Finish(o, t1, ss, bus.trace);
  }

  class Driver {
    const bus: Bus
    const platform: P.Platform
    /** Whether the k-th xTimerCreate succeeds. */
    const timerOk: nat -> bool
    /** configTICK_RATE_HZ */
    const tickRateHz: nat
    /** The vTaskDelay calls made, in ms. */
    var delays: seq<nat>
    var running: bool
    var timer: Option<Timer>
    var created: nat

    function Current(): State
      reads this
    {
      State(running, timer, created)
    }

    constructor (bus: Bus, platform: P.Platform, timerOk: nat -> bool, tickRateHz: nat)
      ensures this.bus == bus && this.platform == platform && this.timerOk == timerOk && this.tickRateHz == tickRateHz
      ensures delays == [] && Current() == Initial
    {
      this.bus := bus;
      this.platform := platform;
      this.timerOk, this.tickRateHz := timerOk, tickRateHz;
      delays := [];
      running, timer, created := false, None, 0;
    }

    /** max30102_internal_init. */
    method InternalInit() returns (ret: Err)
      modifies platform, bus
      ensures InternalInitFn(platform.status, old(platform.log), bus.oracle, old(bus.trace)) == Bring(ret, platform.log, bus.trace)
    {
      ghost var o, t0 := bus.oracle, bus.trace;
      ret := platform.I2cInit();
      if ret != OK { return; }
      ret := platform.InterruptInit();
      if ret != OK { return; }
      ghost var ss := DeviceInitTail;
      RunStagesAppend(o, t0, SensorInitStages, ss);
      ret := SensorInit(bus);
      if ret != OK { return; }
      ghost var t1 := bus.trace;
      ProgressStart(o, t1, ss);
      ghost var tb := bus.trace;
      ret := FifoInit(bus);
      Advance(o, t1, ss, 0, tb, ret, bus.trace);
      if ret != OK { return; }
      tb := bus.trace;
      ret := SetMode(bus, MODE_SPO2);
      Advance(o, t1, ss, 1, tb, ret, bus.trace);
      if ret != OK { return; }
      tb := bus.trace;
      ret := SetLedCurrent(bus, DEFAULT_LED_CURRENT, DEFAULT_LED_CURRENT);
      Advance(o, t1, ss, 2, tb, ret, bus.trace);
      if ret != OK { return; }
      Finish(o, t1, ss, bus.trace);
    }

    /** max30102Init: the bring-up retried up to three times, sleeping 200 ms
      after each failure. */
    method Init() returns (ret: Err)
      modifies this, platform, bus
      ensures var r := InitFn(platform.status, old(platform.log), bus.oracle, old(bus.trace));
        ret == r.status && platform.log == r.log && bus.trace == r.trace && delays == old(delays) + r.delays
      ensures Current() == old(Current())
    {
      ghost var ps, o, log0, t0, d0 := platform.status, bus.oracle, platform.log, bus.trace, delays;
      ghost var d: seq<nat> := [];
      ret := FAIL;
      var i := 0;
      while i < MAX_ATTEMPTS
        invariant 0 <= i <= MAX_ATTEMPTS
        invariant delays == d0 + d && Current() == old(Current())
        invariant InitFn(ps, log0, o, t0) == InitFrom(ps, o, i, ret, platform.log, bus.trace, d)
      {
        ret := InternalInit();
        if ret == OK {
          return OK;
        }
        delays := delays + [RETRY_DELAY_MS];
        d := d + [RETRY_DELAY_MS];
        i := i + 1;
      }
    }

    /** max30102Configure: mode, then LED currents only if the mode write
      succeeded. */
    method Configure(mode: int, red: bv8, ir: bv8) returns (ret: Err)
      modifies bus
      ensures Did(bus, ret, RunStages(bus.oracle, old(bus.trace), [ModeStage(mode), LedStage(red, ir)]))
    {
      ghost var o, t0, ss := bus.oracle, bus.trace, [ModeStage(mode), LedStage(red, ir)];
      ProgressStart(o, t0, ss);
      ghost var tb := bus.trace;
      ret := SetMode(bus, mode);
      Advance(o, t0, ss, 0, tb, ret, bus.trace);
      if ret != OK { return; }
      tb := bus.trace;
      ret := SetLedCurrent(bus, red, ir);
      Advance(o, t0, ss, 1, tb, ret, bus.trace);
      if ret != OK { return; }
      Finish(o, t0, ss, bus.trace);
    }

    /** max30102ReadSample: NULL is refused with INVALID_ARG and no traffic;
      otherwise the sensor-layer read. */
    method ReadSample(out: SampleBox?) returns (ret: Err)
      modifies bus, out
      ensures out == null ==> ret == ERR_INVALID_ARG && bus.trace == old(bus.trace)
      ensures out != null ==> Did(bus, ret, ReadIfReadyFn(bus.oracle, old(bus.trace)).out)
      ensures out != null && ret == OK ==> out.Value() == ReadIfReadyFn(bus.oracle, old(bus.trace)).sample.value
      ensures out != null && ret != OK ==> out.Value() == old(out.Value())
    {
      if out == null {
        return ERR_INVALID_ARG;
      }
      ret := ReadIfReady(bus, out);
    }

    /** max30102Reset: the FIFO pointer reset. */
    method Reset() returns (ret: Err)
      modifies bus
      ensures Did(bus, ret, RunStages(bus.oracle, old(bus.trace), [ResetFifoStage]))
    {
      ret := ResetFifo(bus);
    }

    /** max30102ReadInterruptStatus: the sensor-layer interrupt read. */
    method ReadInterruptStatus(intStatus1: array<bv8>, intStatus2: array<bv8>) returns (ret: Err)
      requires intStatus1.Length == 1 && intStatus2.Length == 1
      modifies bus, intStatus1, intStatus2
      ensures Did(bus, ret, ReadInterruptFn(bus.oracle, old(bus.trace)))
      ensures ret == OK ==> intStatus2[0] == bus.oracle.data(|old(bus.trace)| + 3, 0)
      ensures ret == OK && intStatus1 != intStatus2 ==> intStatus1[0] == bus.oracle.data(|old(bus.trace)| + 1, 0)
    {
      ret := ReadInterrupt(bus, intStatus1, intStatus2);
    }

    /** max30102HandleInterrupt: the sensor-layer read with NOT_FOUND
      reported as OK; every other code passes through. */
    method HandleInterrupt(out: SampleBox?) returns (ret: Err)
      modifies bus, out
      ensures out == null ==> ret == ERR_INVALID_ARG && bus.trace == old(bus.trace)
      ensures out != null ==> var r := ReadIfReadyFn(bus.oracle, old(bus.trace)).out;
        ret == HandleResult(r.status) && bus.trace == r.trace
      ensures out != null && ret == OK && ReadIfReadyFn(bus.oracle, old(bus.trace)).sample.Some? ==>
        out.Value() == ReadIfReadyFn(bus.oracle, old(bus.trace)).sample.value
      ensures out != null && ReadIfReadyFn(bus.oracle, old(bus.trace)).sample.None? ==>
        out.Value() == old(out.Value())
    {
      ret := ReadIfReady(bus, out);
      if ret == ERR_NOT_FOUND {
        return OK;
      }
    }

    /** max30102StartSession: OK with nothing done while a session runs;
      otherwise the boot, each step under ESP_ERROR_CHECK, and then the
      session is running with a timer armed only for a finite duration. */
    method StartSession(durationMs: nat) returns (r: Checked)
      requires durationMs < 0x1_0000_0000
      modifies this, bus
      ensures old(running) ==> r == Returned(OK) && bus.trace == old(bus.trace) && Current() == old(Current())
      ensures !old(running) ==>
        var boot := RunStages(bus.oracle, old(bus.trace), SensorInitStages + BootTail);
        && bus.trace == boot.trace
        && (boot.status != OK ==> r == Aborted(boot.status) && Current() == old(Current()))
        && (boot.status == OK ==>
              r == Returned(OK) && Current() == Started(old(Current()), durationMs, tickRateHz, timerOk(old(created))))
      ensures delays == old(delays)
    {
      if running {
        return Returned(OK);
      }
      var ret := Boot(bus);
      if ret != OK { return Aborted(ret); }
      running := true;
      if timer.Some? {
        timer := None;
      }
      if durationMs != INFINITE {
        timer := NewTimer(Current(), durationMs, tickRateHz, timerOk(created));
        created := created + 1;
      }
      return Returned(OK);
    }

    /** max30102StopSession: always OK; a running session loses its timer and
      stops. */
    method StopSession() returns (ret: Err)
      modifies this
      ensures ret == OK && Current() == Stopped(old(Current()))
      ensures delays == old(delays)
    {
      if !running {
        return OK;
      }
      if timer.Some? {
        timer := None;
      }
      running := false;
      return OK;
    }

    /** max30102IsRunning. */
    method IsRunning() returns (r: bool)
      ensures r == running
    {
      return running;
    }

    /** stopTimerCb: the expiry of the stop timer stops the session. */
    method StopTimerFired()
      modifies this
      ensures Current() == Stopped(old(Current())) && delays == old(delays)
    {
      var _ := StopSession();
    }
  }
}
