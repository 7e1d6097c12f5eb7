/** The MAX30102 sensor layer of the HeartLink firmware
    (max30102_hal/hal_max30102_sensor.c): register-write sequences for
    initialisation, mode, LED currents and the FIFO, and the FIFO sample
    read with its 6-byte decode. */
module HalSensor {
  import opened Esp
  import opened RegMap
  import opened I2c
  import opened HalReg
  import opened Types

  // ---- sample decode ----

  /** One 18-bit channel from its three FIFO bytes: only the low two bits of
      the first byte are kept. */
  function Channel18(hi: bv8, mid: bv8, lo: bv8): (v: bv32)
    ensures v < 0x4_0000
    ensures (v >> 16) as bv8 == hi & 3 && ((v >> 8) & 0xFF) as bv8 == mid && (v & 0xFF) as bv8 == lo
  {
    ((hi & 0x03) as bv32 << 16) | (mid as bv32 << 8) | lo as bv32
  }

  /** The FIFO entry: red from bytes 0..2, IR from bytes 3..5. */
  function Decode(b: seq<bv8>): (s: Sample)
    requires |b| == 6
    ensures s.red < 0x4_0000 && s.ir < 0x4_0000
  {
    Sample(Channel18(b[0], b[1], b[2]), Channel18(b[3], b[4], b[5]))
  }

  /** The bytes a device holding `v` in an 18-bit channel delivers. */
  function Encode18(v: bv32): (b: seq<bv8>)
    requires v < 0x4_0000
    ensures |b| == 3 && b[0] < 4
  {
    [(v >> 16) as bv8, ((v >> 8) & 0xFF) as bv8, (v & 0xFF) as bv8]
  }

  function Encode(s: Sample): (b: seq<bv8>)
    requires s.red < 0x4_0000 && s.ir < 0x4_0000
    ensures |b| == 6
  {
    Encode18(s.red) + Encode18(s.ir)
  }

  /** Every 18-bit sample pair survives encoding and decoding. */
  lemma DecodeEncode(s: Sample)
    requires s.red < 0x4_0000 && s.ir < 0x4_0000
    ensures Decode(Encode(s)) == s
  {
    var b := Encode(s);
    assert b[..3] == Encode18(s.red) && b[3..] == Encode18(s.ir);
  }

  /** A channel value determines exactly the kept bits: two byte triples
      give the same value iff they agree on the middle and low bytes and on
      the low two bits of the high byte. */
  lemma Channel18KeepsLowBits(h: bv8, m: bv8, l: bv8, h': bv8, m': bv8, l': bv8)
    ensures Channel18(h, m, l) == Channel18(h', m', l') <==> (h & 3 == h' & 3 && m == m' && l == l')
  {
    var v, v' := Channel18(h, m, l), Channel18(h', m', l');
    if v == v' {
      assert (v >> 16) as bv8 == (v' >> 16) as bv8;
      assert ((v >> 8) & 0xFF) as bv8 == ((v' >> 8) & 0xFF) as bv8;
      assert (v & 0xFF) as bv8 == (v' & 0xFF) as bv8;
    }
  }

  // ---- register-write sequences ----

  const FIFO_CONFIG_VALUE: bv8 := 0x4F
  const SPO2_CONFIG_VALUE: bv8 := 0x27
  const INT_ENABLE_1_VALUE: bv8 := 0xC0
  const DEFAULT_LED_CURRENT: bv8 := 0x24

  /** The switch in max30102SetMode: the driver mode to the MODE_CONFIG code,
      with HAL_MODE_HEART_RATE as the default. */
  function ModeCode(mode: int): (c: bv8)
    ensures c == HAL_MODE_HEART_RATE || c == HAL_MODE_SPO2 || c == HAL_MODE_MULTI_LED
    ensures c == HAL_MODE_SPO2 <==> mode == MODE_SPO2
    ensures c == HAL_MODE_MULTI_LED <==> mode == MODE_MULTI_LED
  {
    match mode
    case 0 => HAL_MODE_HEART_RATE
    case 1 => HAL_MODE_SPO2
    case 2 => HAL_MODE_MULTI_LED
    case _ => HAL_MODE_HEART_RATE
  }

  /** The HAL mode code HAL_MODE_SPO2 (3) passed where a driver mode is
      expected falls to the default: it selects heart-rate mode 0x02. */
  lemma HalCodeAsModeFallsToDefault()
    ensures ModeCode(HAL_MODE_SPO2 as int) == HAL_MODE_HEART_RATE
  {
  }

  function ModeStage(mode: int): Stage {
    [RegWrite(REG_MODE_CONFIG, ModeCode(mode))]
  }

  function LedStage(red: bv8, ir: bv8): Stage {
    [RegWrite(REG_LED1_PA, red), RegWrite(REG_LED2_PA, ir)]
  }

  const ResetFifoStage: Stage :=
    [RegWrite(REG_FIFO_WR_PTR, 0), RegWrite(REG_OVF_COUNTER, 0), RegWrite(REG_FIFO_RD_PTR, 0)]

  const FifoInitStage: Stage := [RegWrite(REG_FIFO_CONFIG, FIFO_CONFIG_VALUE)]

  /** max30102SensorInit: seven stages, stopping at the first failure. */
  const SensorInitStages: seq<Stage> := [
    ResetFifoStage,
    [RegWrite(REG_INT_ENABLE_1, INT_ENABLE_1_VALUE)],
    [RegWrite(REG_INT_ENABLE_2, 0x00)],
    FifoInitStage,
    [RegWrite(REG_SPO2_CONFIG, SPO2_CONFIG_VALUE)],
    LedStage(DEFAULT_LED_CURRENT, DEFAULT_LED_CURRENT),
    ModeStage(HAL_MODE_SPO2 as int)]

  // ---- reads ----

  /** The effect of max30102ReadIfReady, with the sample it delivers when it
      returns OK. */
  datatype SampleRead = SampleRead(out: Outcome, sample: Option<Sample>)

  /** max30102ReadIfReady on a non-null destination: INT_STATUS_1 is read
      (a failure is returned), INT_STATUS_2 is read and its result ignored,
      NOT_FOUND when PPG_RDY is clear, otherwise a 6-byte FIFO burst read
      that is decoded when it succeeds. */
  function ReadIfReadyFn(o: Oracle, t: seq<Txn>): (r: SampleRead)
    ensures r.sample.Some? <==> r.out.status == OK
    ensures r.sample.Some? ==> r.sample.value.red < 0x4_0000 && r.sample.value.ir < 0x4_0000
  {
    var r1 := ReadReg(o, t, REG_INT_STATUS_1, 1);
    if r1.status != OK then SampleRead(r1, None)
    else
      var r2 := ReadReg(o, r1.trace, REG_INT_STATUS_2, 1);
      if !DataReady(o.data(|t| + 1, 0)) then SampleRead(Outcome(ERR_NOT_FOUND, r2.trace), None)
      else
        var r3 := ReadReg(o, r2.trace, REG_FIFO_DATA, 6);
        if r3.status != OK then SampleRead(r3, None)
        else SampleRead(r3, Some(Decode(Answer(o, |r2.trace| + 1, 6))))
  }

  /** max30102ReadInterrupt: both status registers are always read; OK iff
      both reads succeed. */
  function ReadInterruptFn(o: Oracle, t: seq<Txn>): (r: Outcome)
    ensures var r1 := ReadReg(o, t, REG_INT_STATUS_1, 1);
      && (r.status == OK <==> r1.status == OK && ReadReg(o, r1.trace, REG_INT_STATUS_2, 1).status == OK)
      && r.trace == ReadReg(o, r1.trace, REG_INT_STATUS_2, 1).trace
  {
    var r1 := ReadReg(o, t, REG_INT_STATUS_1, 1);
    var r2 := ReadReg(o, r1.trace, REG_INT_STATUS_2, 1);
    Outcome(Or(r1.status, r2.status), r2.trace)
  }

  /** The bus traffic of max30102ReadIfReady: a failed INT_STATUS_1 read ends
      it; otherwise both status registers are read exactly as
      max30102ReadInterrupt reads them, whatever the INT_STATUS_2 result;
      then NOT_FOUND without touching the FIFO when PPG_RDY is clear, or the
      FIFO burst read, whose bytes decode to the delivered sample. */
  lemma ReadIfReadyTraffic(o: Oracle, t: seq<Txn>)
    ensures var r1 := ReadReg(o, t, REG_INT_STATUS_1, 1);
      r1.status != OK ==> ReadIfReadyFn(o, t).out == r1
    ensures ReadReg(o, t, REG_INT_STATUS_1, 1).status == OK && !DataReady(o.data(|t| + 1, 0)) ==>
      ReadIfReadyFn(o, t).out == Outcome(ERR_NOT_FOUND, ReadInterruptFn(o, t).trace)
    ensures ReadReg(o, t, REG_INT_STATUS_1, 1).status == OK && DataReady(o.data(|t| + 1, 0)) ==>
      ReadIfReadyFn(o, t).out == ReadReg(o, ReadInterruptFn(o, t).trace, REG_FIFO_DATA, 6)
    ensures ReadIfReadyFn(o, t).out.status == OK ==>
      ReadIfReadyFn(o, t).sample == Some(Decode(Answer(o, |ReadInterruptFn(o, t).trace| + 1, 6)))
  {
    var r1 := ReadReg(o, t, REG_INT_STATUS_1, 1);
    var r2 := ReadReg(o, r1.trace, REG_INT_STATUS_2, 1);
    assert ReadInterruptFn(o, t).trace == r2.trace;
  }

  // ---- operations ----

  /** max30102SetMode: one MODE_CONFIG write of ModeCode(mode). */
  method SetMode(bus: Bus, mode: int) returns (ret: Err)
    modifies bus
    ensures Did(bus, ret, RunStages(bus.oracle, old(bus.trace), [ModeStage(mode)]))
  {
    OneWrite(bus.oracle, bus.trace, REG_MODE_CONFIG, ModeCode(mode));
    ret := RegWrite8(bus, REG_MODE_CONFIG, ModeCode(mode));
  }

  /** max30102SetLedCurrent: both LED writes are always issued; OK iff both succeed. */
  method SetLedCurrent(bus: Bus, red: bv8, ir: bv8) returns (ret: Err)
    modifies bus
    ensures Did(bus, ret, RunStages(bus.oracle, old(bus.trace), [LedStage(red, ir)]))
  {
    ghost var o, t := bus.oracle, bus.trace;
    ghost var w1, w2 := RegWrite(REG_LED1_PA, red), RegWrite(REG_LED2_PA, ir);
    RunOneStage(o, t, [w1, w2]);
    StageSnoc(o, |t|, t, [], w1);
    StageSnoc(o, |t|, t, [w1], w2);
    assert [] + [w1] == [w1] && [w1] + [w2] == [w1, w2];
    ret := RegWrite8(bus, REG_LED1_PA, red);
    var r2 := RegWrite8(bus, REG_LED2_PA, ir);
    ret := Or(ret, r2);
  }

  /** max30102FifoInit: exactly one FIFO_CONFIG write of 0x4F. */
  method FifoInit(bus: Bus) returns (ret: Err)
    modifies bus
    ensures Did(bus, ret, RunStages(bus.oracle, old(bus.trace), [FifoInitStage]))
  {
    OneWrite(bus.oracle, bus.trace, REG_FIFO_CONFIG, FIFO_CONFIG_VALUE);
    ret := RegWrite8(bus, REG_FIFO_CONFIG, FIFO_CONFIG_VALUE);
  }

  /** max30102ResetFifo: the three pointer writes are always issued; OK iff all succeed. */
  method ResetFifo(bus: Bus) returns (ret: Err)
    modifies bus
    ensures Did(bus, ret, RunStages(bus.oracle, old(bus.trace), [ResetFifoStage]))
  {
    ghost var o, t := bus.oracle, bus.trace;
    ghost var w1, w2, w3 := ResetFifoStage[0], ResetFifoStage[1], ResetFifoStage[2];
    RunOneStage(o, t, ResetFifoStage);
    StageSnoc(o, |t|, t, [], w1);
    StageSnoc(o, |t|, t, [w1], w2);
    StageSnoc(o, |t|, t, [w1, w2], w3);
    assert [] + [w1] == [w1] && [w1] + [w2] == [w1, w2] && [w1, w2] + [w3] == ResetFifoStage;
    ret := RegWrite8(bus, REG_FIFO_WR_PTR, 0x00);
    var r2 := RegWrite8(bus, REG_OVF_COUNTER, 0x00);
    ret := Or(ret, r2);
    var r3 := RegWrite8(bus, REG_FIFO_RD_PTR, 0x00);
    ret := Or(ret, r3);
  }

  /** max30102SensorInit: the stages of SensorInitStages, stopping at the first failure. */
  method SensorInit(bus: Bus) returns (ret: Err)
    modifies bus
    ensures Did(bus, ret, RunStages(bus.oracle, old(bus.trace), SensorInitStages))
  {
    ghost var o, t0 := bus.oracle, bus.trace;
    assert SensorInitStages == SensorInitStages[..3] + SensorInitStages[3..];
    RunStagesAppend(o, t0, SensorInitStages[..3], SensorInitStages[3..]);
    ret := SensorInitHead(bus);
    if ret != OK { return; }
    ret := SensorInitRest(bus);
  }

  /** The FIFO pointer reset and the two interrupt-enable writes. */
  method SensorInitHead(bus: Bus) returns (ret: Err)
    modifies bus
    ensures Did(bus, ret, RunStages(bus.oracle, old(bus.trace), SensorInitStages[..3]))
  {
    ghost var o, t0, ss := bus.oracle, bus.trace, SensorInitStages[..3];
    ProgressStart(o, t0, ss);
    ghost var tb := bus.trace;
    ret := ResetFifo(bus);
    Advance(o, t0, ss, 0, tb, ret, bus.trace);
    if ret != OK { return; }

    tb := bus.trace;
    OneWrite(o, tb, REG_INT_ENABLE_1, INT_ENABLE_1_VALUE);
    ret := RegWrite8(bus, REG_INT_ENABLE_1, INT_ENABLE_1_VALUE);
    Advance(o, t0, ss, 1, tb, ret, bus.trace);
    if ret != OK { return; }

    tb := bus.trace;
    OneWrite(o, tb, REG_INT_ENABLE_2, 0x00);
    ret := RegWrite8(bus, REG_INT_ENABLE_2, 0x00);
    Advance(o, t0, ss, 2, tb, ret, bus.trace);
    if ret != OK { return; }
    Finish(o, t0, ss, bus.trace);
  }

  /** FIFO configuration, SpO2 configuration, LED currents and mode. */
  method SensorInitRest(bus: Bus) returns (ret: Err)
    modifies bus
    ensures Did(bus, ret, RunStages(bus.oracle, old(bus.trace), SensorInitStages[3..]))
  {
    ghost var o, t0, ss := bus.oracle, bus.trace, SensorInitStages[3..];
    ProgressStart(o, t0, ss);
    ghost var tb := bus.trace;
    ret := FifoInit(bus);
    Advance(o, t0, ss, 0, tb, ret, bus.trace);
    if ret != OK { return; }

    tb := bus.trace;
    OneWrite(o, tb, REG_SPO2_CONFIG, SPO2_CONFIG_VALUE);
    ret := RegWrite8(bus, REG_SPO2_CONFIG, SPO2_CONFIG_VALUE);
    Advance(o, t0, ss, 1, tb, ret, bus.trace);
    if ret != OK { return; }

    tb := bus.trace;
    ret := SetLedCurrent(bus, DEFAULT_LED_CURRENT, DEFAULT_LED_CURRENT);
    Advance(o, t0, ss, 2, tb, ret, bus.trace);
    if ret != OK { return; }

    tb := bus.trace;
    ret := SetMode(bus, HAL_MODE_SPO2 as int);
    Advance(o, t0, ss, 3, tb, ret, bus.trace);
    if ret != OK { return; }
    Finish(o, t0, ss, bus.trace);
  }

  /** max30102ReadIfReady: a null destination is refused with INVALID_ARG
      before any bus traffic; otherwise the bus sees ReadIfReadyFn and the
      destination receives the decoded sample exactly when OK is returned. */
  method ReadIfReady(bus: Bus, out: SampleBox?) returns (ret: Err)
    modifies bus, out
    ensures out == null ==> ret == ERR_INVALID_ARG && bus.trace == old(bus.trace)
    ensures out != null ==> Did(bus, ret, ReadIfReadyFn(bus.oracle, old(bus.trace)).out)
    ensures out != null && ret == OK ==> out.Value() == ReadIfReadyFn(bus.oracle, old(bus.trace)).sample.value
    ensures out != null && ret != OK ==> out.Value() == old(out.Value())
  {
    if out == null {
      return ERR_INVALID_ARG;
    }
    ghost var o, t := bus.oracle, bus.trace;
    ReadIfReadyTraffic(o, t);
    var int1 := new bv8[1];
    var int2 := new bv8[1];
    ret := RegRead8(bus, REG_INT_STATUS_1, int1);
    if ret != OK {
      return;
    }
    var _ := RegRead8(bus, REG_INT_STATUS_2, int2);
    ghost var s := ReadInterruptFn(o, t).trace;
    assert bus.trace == s;
    if int1[0] & INT_PPG_RDY_MASK == 0 {
      return ERR_NOT_FOUND;
    }
    ret := ReadFifoSample(bus, out);
  }

  /** The 6-byte FIFO burst read of max30102ReadIfReady and the decoding of
      its bytes into the destination when it succeeds. */
  method ReadFifoSample(bus: Bus, out: SampleBox) returns (ret: Err)
    modifies bus, out
    ensures Did(bus, ret, ReadReg(bus.oracle, old(bus.trace), REG_FIFO_DATA, 6))
    ensures ret == OK ==> out.Value() == Decode(Answer(bus.oracle, |old(bus.trace)| + 1, 6))
    ensures ret != OK ==> out.Value() == old(out.Value())
  {
    var buf := new bv8[6];
    ret := RegBurstRead(bus, REG_FIFO_DATA, buf, 6);
    if ret != OK {
      return;
    }
    out.red := Channel18(buf[0], buf[1], buf[2]);
    out.ir := Channel18(buf[3], buf[4], buf[5]);
  }

  /** max30102ReadInterrupt: both registers are read whatever the first
      result; each destination holds its register when OK is returned. */
  method ReadInterrupt(bus: Bus, intStatus1: array<bv8>, intStatus2: array<bv8>) returns (ret: Err)
    requires intStatus1.Length == 1 && intStatus2.Length == 1
    modifies bus, intStatus1, intStatus2
    ensures Did(bus, ret, ReadInterruptFn(bus.oracle, old(bus.trace)))
    ensures ret == OK ==> intStatus2[0] == bus.oracle.data(|old(bus.trace)| + 3, 0)
    ensures ret == OK && intStatus1 != intStatus2 ==> intStatus1[0] == bus.oracle.data(|old(bus.trace)| + 1, 0)
  {
    ret := RegRead8(bus, REG_INT_STATUS_1, intStatus1);
    var r2 := RegRead8(bus, REG_INT_STATUS_2, intStatus2);
    ret := Or(ret, r2);
  }
}
