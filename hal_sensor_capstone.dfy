/** The older sensor layer (capstoneHeartlink/hal/src/hal_max30102_sensor.c).
    SetMode, SetLedCurrent, FifoInit, ResetFifo and ReadInterrupt are the
    same code as in HalSensor and are used from there; this module holds
    what differs: the shorter initialisation and the unconditional FIFO
    read. */
module HalSensorCapstone {
  import opened Esp
  import opened RegMap
  import opened I2c
  import opened HalReg
  import opened Types
  import opened HalSensor

  /** max30102SensorInit of this variant: no interrupt-enable writes. */
  const CapstoneInitStages: seq<Stage> := [
    ResetFifoStage,
    FifoInitStage,
    [RegWrite(REG_SPO2_CONFIG, SPO2_CONFIG_VALUE)],
    LedStage(DEFAULT_LED_CURRENT, DEFAULT_LED_CURRENT),
    ModeStage(HAL_MODE_SPO2 as int)]

  /** This initialisation is the HeartLink one without its two
      interrupt-enable stages, so it never touches INT_ENABLE_1/2; it too
      passes HAL_MODE_SPO2 into the mode switch and so writes 0x02. */
  lemma CapstoneInitDropsInterruptEnables()
    ensures CapstoneInitStages == [SensorInitStages[0]] + SensorInitStages[3..]
    ensures forall j, k :: 0 <= j < |CapstoneInitStages| && 0 <= k < |CapstoneInitStages[j]| ==>
      CapstoneInitStages[j][k].reg != REG_INT_ENABLE_1 && CapstoneInitStages[j][k].reg != REG_INT_ENABLE_2
    ensures CapstoneInitStages[4] == [RegWrite(REG_MODE_CONFIG, HAL_MODE_HEART_RATE)]
  {
    assert SensorInitStages[3..] == [SensorInitStages[3], SensorInitStages[4], SensorInitStages[5], SensorInitStages[6]];
  }

  /** max30102ReadFifo: a 6-byte burst read of FIFO_DATA with no ready
      check, decoded when it succeeds. */
  function ReadFifoFn(o: Oracle, t: seq<Txn>): (r: SampleRead)
    ensures r.out == ReadReg(o, t, REG_FIFO_DATA, 6)
    ensures r.sample.Some? <==> r.out.status == OK
  {
    var r := ReadReg(o, t, REG_FIFO_DATA, 6);
    if r.status != OK then SampleRead(r, None)
    else SampleRead(r, Some(Decode(Answer(o, |t| + 1, 6))))
  }

  /** Without the ready check, the read is exactly the one HeartLink's
      max30102ReadIfReady issues after PPG_RDY is seen, with the same decode. */
  lemma ReadFifoIsReadIfReadyTail(o: Oracle, t: seq<Txn>)
    ensures var s := ReadInterruptFn(o, t).trace;
      ReadReg(o, t, REG_INT_STATUS_1, 1).status == OK && DataReady(o.data(|t| + 1, 0)) ==>
        ReadIfReadyFn(o, t) == ReadFifoFn(o, s)
  {
    ReadIfReadyTraffic(o, t);
  }

  /** max30102SensorInit of this variant, stopping at the first failure. */
  method SensorInit(bus: Bus) returns (ret: Err)
    modifies bus
    ensures Did(bus, ret, RunStages(bus.oracle, old(bus.trace), CapstoneInitStages))
  {
    ghost var o, t0, ss := bus.oracle, bus.trace, CapstoneInitStages;
    ProgressStart(o, t0, ss);
    ghost var tb := bus.trace;
    ret := ResetFifo(bus);
    Advance(o, t0, ss, 0, tb, ret, bus.trace);
    if ret != OK { return; }

    tb := bus.trace;
    OneWrite(o, tb, REG_FIFO_CONFIG, FIFO_CONFIG_VALUE);
    ret := RegWrite8(bus, REG_FIFO_CONFIG, FIFO_CONFIG_VALUE);
    Advance(o, t0, ss, 1, tb, ret, bus.trace);
    if ret != OK { return; }

    tb := bus.trace;
    OneWrite(o, tb, REG_SPO2_CONFIG, SPO2_CONFIG_VALUE);
    ret := RegWrite8(bus, REG_SPO2_CONFIG, SPO2_CONFIG_VALUE);
    Advance(o, t0, ss, 2, tb, ret, bus.trace);
    if ret != OK { return; }

    tb := bus.trace;
    ret := SetLedCurrent(bus, DEFAULT_LED_CURRENT, DEFAULT_LED_CURRENT);
    Advance(o, t0, ss, 3, tb, ret, bus.trace);
    if ret != OK { return; }

    tb := bus.trace;
    ret := SetMode(bus, HAL_MODE_SPO2 as int);
    Advance(o, t0, ss, 4, tb, ret, bus.trace);
    if ret != OK { return; }
    Finish(o, t0, ss, bus.trace);
  }

  /** max30102ReadFifo: both outputs are written only when the read
      succeeds. The two output pointers are the two fields of `out`. */
  method ReadFifo(bus: Bus, out: SampleBox) returns (ret: Err)
    modifies bus, out
    ensures Did(bus, ret, ReadFifoFn(bus.oracle, old(bus.trace)).out)
    ensures ret == OK ==> out.Value() == ReadFifoFn(bus.oracle, old(bus.trace)).sample.value
    ensures ret != OK ==> out.Value() == old(out.Value())
  {
    ghost var o, t := bus.oracle, bus.trace;
    var fifoData := new bv8[6];
    ret := RegBurstRead(bus, REG_FIFO_DATA, fifoData, 6);
    if ret != OK {
      return;
    }
    assert fifoData[..] == Answer(o, |t| + 1, 6);
    out.red := Channel18(fifoData[0], fifoData[1], fifoData[2]);
    out.ir := Channel18(fifoData[3], fifoData[4], fifoData[5]);
  }
}
