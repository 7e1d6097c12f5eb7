/** The older sensor driver (capstoneHeartlink/max30102_driver/src/
    max30102_driver.c). Configure, ReadSample, Reset, ReadInterruptStatus
    and HandleInterrupt are the same code as in the HeartLink driver and
    are modelled there. This module holds the single-attempt init and the
    session whose start always arms a timer. */
module DriverCapstone {
  import opened Esp
  import opened RegMap
  import opened I2c
  import opened HalReg
  import opened Types
  import opened HalSensor
  import opened HalSensorCapstone
  import opened Session

  /** After the sensor init: FIFO config, FIFO reset, mode MODE_SPO2 and
      default LED currents, as the header documents. */
  const InitTail: seq<Stage> :=
    [FifoInitStage, ResetFifoStage, ModeStage(MODE_SPO2), LedStage(DEFAULT_LED_CURRENT, DEFAULT_LED_CURRENT)]

  const InitStages: seq<Stage> := CapstoneInitStages + InitTail

  /** A successful init leaves MODE_CONFIG at SpO2 mode (0x03): the
      heart-rate code written by the sensor init is overwritten by the
      driver's MODE_SPO2 stage, the last mode write of the sequence. */
  lemma InitEndsInSpO2Mode()
    ensures |InitStages| == 9
    ensures InitStages[4] == [RegWrite(REG_MODE_CONFIG, HAL_MODE_HEART_RATE)]
    ensures InitStages[7] == [RegWrite(REG_MODE_CONFIG, HAL_MODE_SPO2)]
    ensures forall j, k :: 7 < j < |InitStages| && 0 <= k < |InitStages[j]| ==>
      InitStages[j][k].reg != REG_MODE_CONFIG
  {
    CapstoneInitDropsInterruptEnables();
    assert InitStages[8] == LedStage(DEFAULT_LED_CURRENT, DEFAULT_LED_CURRENT);
  }

  class CapstoneDriver {
    const bus: Bus
    /** Whether the k-th xTimerCreate succeeds. */
    const timerOk: nat -> bool
    /** configTICK_RATE_HZ */
    const tickRateHz: nat
    var running: bool
    var timer: Option<Timer>
    var created: nat

    function Current(): State
      reads this
    {
      State(running, timer, created)
    }

    constructor (bus: Bus, timerOk: nat -> bool, tickRateHz: nat)
      ensures this.bus == bus && this.timerOk == timerOk && this.tickRateHz == tickRateHz && Current() == Initial
    {
      this.bus := bus;
      this.timerOk, this.tickRateHz := timerOk, tickRateHz;
      running, timer, created := false, None, 0;
    }

    /** max30102Init: a single attempt of the five steps, returning the
      first failure. */
    method Init() returns (ret: Err)
      modifies bus
      ensures Did(bus, ret, RunStages(bus.oracle, old(bus.trace), InitStages))
    {
      ghost var o, t0, ss := bus.oracle, bus.trace, InitTail;
      RunStagesAppend(o, t0, CapstoneInitStages, ss);
      ret := HalSensorCapstone.SensorInit(bus);
      if ret != OK { return; }
      ghost var t1 := bus.trace;
      ProgressStart(o, t1, ss);
      ghost var tb := bus.trace;
      ret := FifoInit(bus);
      Advance(o, t1, ss, 0, tb, ret, bus.trace);
      if ret != OK { return; }
      tb := bus.trace;
      ret := ResetFifo(bus);
      Advance(o, t1, ss, 1, tb, ret, bus.trace);
      if ret != OK { return; }
      tb := bus.trace;
      ret := SetMode(bus, MODE_SPO2);
      Advance(o, t1, ss, 2, tb, ret, bus.trace);
      if ret != OK { return; }
      tb := bus.trace;
      ret := SetLedCurrent(bus, DEFAULT_LED_CURRENT, DEFAULT_LED_CURRENT);
      Advance(o, t1, ss, 3, tb, ret, bus.trace);
      if ret != OK { return; }
      Finish(o, t1, ss, bus.trace);
    }

    /** max30102StartSession: OK with nothing done while a session runs;
      otherwise the same five steps under ESP_ERROR_CHECK, then running with
      the timer replaced by a new one-shot timer of `durationMs`, whatever
      its value. */
    method StartSession(durationMs: nat) returns (r: Checked)
      requires durationMs < 0x1_0000_0000
      modifies this, bus
      ensures old(running) ==> r == Returned(OK) && bus.trace == old(bus.trace) && Current() == old(Current())
      ensures !old(running) ==>
        var boot := RunStages(bus.oracle, old(bus.trace), InitStages);
        && bus.trace == boot.trace
        && (boot.status != OK ==> r == Aborted(boot.status) && Current() == old(Current()))
        && (boot.status == OK ==>
              r == Returned(OK) && Current() == StartedAlways(old(Current()), durationMs, tickRateHz, timerOk(old(created))))
    {
      if running {
        return Returned(OK);
      }
      var ret := Init();
      if ret != OK { return Aborted(ret); }
      running := true;
      timer := NewTimer(Current(), durationMs, tickRateHz, timerOk(created));
      created := created + 1;
      return Returned(OK);
    }

    /** max30102StopSession: always OK; a running session loses its timer and
      stops. */
    method StopSession() returns (ret: Err)
      modifies this
      ensures ret == OK && Current() == Stopped(old(Current()))
    {
      if !running {
        return OK;
      }
      if timer.Some? {
        timer := None;
      }
      running := false;
      return OK;
    }

    /** max30102IsRunning. */
    method IsRunning() returns (r: bool)
      ensures r == running
    {
      return running;
    }

    /** stopTimerCb: the expiry of the stop timer stops the session. */
    method StopTimerFired()
      modifies this
      ensures Current() == Stopped(old(Current()))
    {
      var _ := StopSession();
    }
  }
}
