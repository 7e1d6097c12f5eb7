/** Types shared by the driver, the interfaces and the control loop
    (common/max30102_types.h). */
module Types {

  /** One FIFO entry: two 18-bit intensities held in uint32 fields. */
  datatype Sample = Sample(red: bv32, ir: bv32)

  /** The caller's `max30102Sample` struct that the driver writes through a
      pointer; a null `SampleBox?` is the NULL pointer. */
  class SampleBox {
    var red: bv32
    var ir: bv32

    constructor ()
      ensures red == 0 && ir == 0
    {
      red, ir := 0, 0;
    }

    function Value(): Sample
      reads this
    {
      Sample(red, ir)
    }
  }

  // Driver-level sensor modes (sensorMode): a C enum, so any int can be passed.
  const MODE_HEART_RATE: int := 0
  const MODE_SPO2: int := 1
  const MODE_MULTI_LED: int := 2

  /** systemState, including the sentinel SYS_STATE_BUTT. */
  datatype SystemState = Idle | Running | Butt
}
