/** The MAX30102 register map: the device address, the register addresses,
    the interrupt-status masks, the mode codes written to MODE_CONFIG, and the
    bit-field layouts the header declares for four configuration registers. */
module RegMap {

  /** 7-bit I2C address of the sensor. */
  const ADDR: bv8 := 0x57

  const REG_INT_STATUS_1: bv8 := 0x00
  const REG_INT_STATUS_2: bv8 := 0x01
  const REG_INT_ENABLE_1: bv8 := 0x02
  const REG_INT_ENABLE_2: bv8 := 0x03
  const REG_FIFO_WR_PTR: bv8 := 0x04
  const REG_OVF_COUNTER: bv8 := 0x05
  const REG_FIFO_RD_PTR: bv8 := 0x06
  const REG_FIFO_DATA: bv8 := 0x07
  const REG_FIFO_CONFIG: bv8 := 0x08
  const REG_MODE_CONFIG: bv8 := 0x09
  const REG_SPO2_CONFIG: bv8 := 0x0A
  const REG_LED1_PA: bv8 := 0x0C
  const REG_LED2_PA: bv8 := 0x0D
  const REG_MULTI_LED_CTRL1: bv8 := 0x11
  const REG_MULTI_LED_CTRL2: bv8 := 0x12
  const REG_TEMP_INTEGER: bv8 := 0x1F
  const REG_TEMP_FRACTION: bv8 := 0x20
  const REG_REV_ID: bv8 := 0xFE
  const REG_PART_ID: bv8 := 0xFF

  /** Every register of the map, in header order. */
  const Registers: seq<bv8> := [
    REG_INT_STATUS_1, REG_INT_STATUS_2, REG_INT_ENABLE_1, REG_INT_ENABLE_2,
    REG_FIFO_WR_PTR, REG_OVF_COUNTER, REG_FIFO_RD_PTR, REG_FIFO_DATA,
    REG_FIFO_CONFIG, REG_MODE_CONFIG, REG_SPO2_CONFIG, REG_LED1_PA, REG_LED2_PA,
    REG_MULTI_LED_CTRL1, REG_MULTI_LED_CTRL2, REG_TEMP_INTEGER, REG_TEMP_FRACTION,
    REG_REV_ID, REG_PART_ID]

  // Interrupt status 1 masks, and the one of interrupt status 2.
  const INT_A_FULL_MASK: bv8 := 0x80
  const INT_PPG_RDY_MASK: bv8 := 0x40
  const INT_ALC_OVF_MASK: bv8 := 0x20
  const INT_PROX_INT_MASK: bv8 := 0x10
  const INT_DIE_TEMP_RDY_MASK: bv8 := 0x02

  // Mode codes for MODE_CONFIG (halMax30102Mode).
  const HAL_MODE_HEART_RATE: bv8 := 0x02
  const HAL_MODE_SPO2: bv8 := 0x03
  const HAL_MODE_MULTI_LED: bv8 := 0x07

  // SpO2 configuration field codes.
  const ADC_RANGE_4096: bv2 := 1
  const SAMPLE_RATE_100: bv3 := 1
  const PULSE_WIDTH_411US: bv2 := 3

  /** The register addresses are pairwise distinct. */
  lemma RegistersDistinct()
    ensures forall i, j :: 0 <= i < j < |Registers| ==> Registers[i] != Registers[j]
  {
  }

  /** The data-ready test the driver performs on INT_STATUS_1. */
  predicate DataReady(int1: bv8) {
    int1 & INT_PPG_RDY_MASK != 0
  }

  // ---- bit-field unions: each struct covers exactly the byte ----

  /** max30102IntStatus1Reg: ppgRdy declared at bit 0. */
  datatype IntStatus1Bits = IntStatus1Bits(ppgRdy: bv1, alcOvf: bv1, pwrRdy: bv1,
                                           proxInt: bv1, dieTempRdy: bv1, reserved: bv3)

  function UnpackIntStatus1(b: bv8): IntStatus1Bits {
    IntStatus1Bits((b & 1) as bv1, ((b >> 1) & 1) as bv1, ((b >> 2) & 1) as bv1,
                   ((b >> 3) & 1) as bv1, ((b >> 4) & 1) as bv1, (b >> 5) as bv3)
  }

  function PackIntStatus1(f: IntStatus1Bits): (b: bv8)
    ensures UnpackIntStatus1(b) == f
  {
    (f.reserved as bv8 << 5) | (f.dieTempRdy as bv8 << 4) | (f.proxInt as bv8 << 3)
      | (f.pwrRdy as bv8 << 2) | (f.alcOvf as bv8 << 1) | f.ppgRdy as bv8
  }

  /** max30102ModeConfigReg: mode bits [2:0], reserved [5:3], reset bit 6, shutdown bit 7. */
  datatype ModeConfigBits = ModeConfigBits(mode: bv3, reserved: bv3, reset: bv1, shutdown: bv1)

  function UnpackModeConfig(b: bv8): ModeConfigBits {
    ModeConfigBits((b & 7) as bv3, ((b >> 3) & 7) as bv3, ((b >> 6) & 1) as bv1, (b >> 7) as bv1)
  }

  function PackModeConfig(f: ModeConfigBits): (b: bv8)
    ensures UnpackModeConfig(b) == f
  {
    (f.shutdown as bv8 << 7) | (f.reset as bv8 << 6) | (f.reserved as bv8 << 3) | f.mode as bv8
  }

  /** max30102SpO2ConfigReg: pulse width [1:0], sample rate [4:2], ADC range [6:5], reserved bit 7. */
  datatype SpO2ConfigBits = SpO2ConfigBits(ledPulseWidth: bv2, sampleRate: bv3, adcRange: bv2, reserved: bv1)

  function UnpackSpO2Config(b: bv8): SpO2ConfigBits {
    SpO2ConfigBits((b & 3) as bv2, ((b >> 2) & 7) as bv3, ((b >> 5) & 3) as bv2, (b >> 7) as bv1)
  }

  function PackSpO2Config(f: SpO2ConfigBits): (b: bv8)
    ensures UnpackSpO2Config(b) == f
  {
    (f.reserved as bv8 << 7) | (f.adcRange as bv8 << 5) | (f.sampleRate as bv8 << 2) | f.ledPulseWidth as bv8
  }

  /** max30102FifoConfigReg: almost-full threshold [3:0], averaging [6:4], rollover bit 7. */
  datatype FifoConfigBits = FifoConfigBits(fifoAFull: bv4, sampleAvg: bv3, rollOver: bv1)

  function UnpackFifoConfig(b: bv8): FifoConfigBits {
    FifoConfigBits((b & 15) as bv4, ((b >> 4) & 7) as bv3, (b >> 7) as bv1)
  }

  function PackFifoConfig(f: FifoConfigBits): (b: bv8)
    ensures UnpackFifoConfig(b) == f
  {
    (f.rollOver as bv8 << 7) | (f.sampleAvg as bv8 << 4) | f.fifoAFull as bv8
  }

  /** Each union covers exactly its byte: unpacking loses nothing. */
  lemma UnionsCoverTheByte(b: bv8)
    ensures PackIntStatus1(UnpackIntStatus1(b)) == b
    ensures PackModeConfig(UnpackModeConfig(b)) == b
    ensures PackSpO2Config(UnpackSpO2Config(b)) == b
    ensures PackFifoConfig(UnpackFifoConfig(b)) == b
  {
  }

  /** The data-ready mask is bit 6, while the union declares ppgRdy at bit 0:
      a status byte of 0x40 is data-ready for the driver's test but has the
      union's ppgRdy field clear, and 0x01 the other way round. The driver
      only uses the mask. */
  lemma PpgReadyMaskIsNotUnionField()
    ensures DataReady(0x40) && UnpackIntStatus1(0x40).ppgRdy == 0
    ensures !DataReady(0x01) && UnpackIntStatus1(0x01).ppgRdy == 1
    ensures forall b: bv8 :: DataReady(b) <==> (b >> 6) & 1 == 1
  {
  }

  /** The INT_ENABLE_1 value the HeartLink init writes, 0xC0, enables
      exactly the almost-full and data-ready interrupts. */
  lemma IntEnableValue()
    ensures INT_A_FULL_MASK | INT_PPG_RDY_MASK == 0xC0
  {
  }

  /** The FIFO_CONFIG value 0x4F, read through the header's own layout:
      almost-full threshold 15 (17 unread samples), averaging code 4, and the
      rollover bit CLEAR, although the accompanying comment says rollover=1. */
  lemma FifoConfigValue()
    ensures UnpackFifoConfig(0x4F) == FifoConfigBits(15, 4, 0)
  {
  }

  /** The SPO2_CONFIG value 0x27: 411 us pulse width (18-bit resolution),
      100 Hz sample rate, ADC range 4096. */
  lemma SpO2ConfigValue()
    ensures UnpackSpO2Config(0x27) == SpO2ConfigBits(PULSE_WIDTH_411US, SAMPLE_RATE_100, ADC_RANGE_4096, 0)
  {
  }

  /** The three mode codes select distinct MODE_CONFIG modes and leave the
      reset and shutdown bits clear. */
  lemma ModeCodes()
    ensures UnpackModeConfig(HAL_MODE_HEART_RATE) == ModeConfigBits(2, 0, 0, 0)
    ensures UnpackModeConfig(HAL_MODE_SPO2) == ModeConfigBits(3, 0, 0, 0)
    ensures UnpackModeConfig(HAL_MODE_MULTI_LED) == ModeConfigBits(7, 0, 0, 0)
  {
  }
}
