# HeartLink MAX30102 firmware — a Dafny model

HeartLink is ESP32 firmware for a PPG (photoplethysmography) telemetry
device. A MAX30102 optical sensor is read over I2C at 100 Hz. An acquisition
task pushes red/IR sample pairs into a 200-entry queue. An upload task batches
400 samples into a JSON document and posts it over HTTPS. A control task
polls the cloud for `"start"` / `"stop"` commands. This project models the
logic of that pipeline in two firmware variants: the current `HeartLink`
tree and the older `capstoneHeartlink` tree. The model covers:

- the register map;
- the register transactions;
- the sensor layer and the driver;
- the acquisition and upload loops;
- the command state machine;
- the HTTP helpers;
- the integer part of the vital-sign estimator.

How the model is built:

- **Hardware, RTOS and network are oracles.** The I2C device is a function
  from transaction number to status, and from (transaction, offset) to byte.
  The board bring-up calls are a status per call. The HTTP library is an
  outcome per attempt. Timer creation and task creation are a success flag
  per call.
- **Effects are recorded as values.** Every bus transaction is appended to a
  trace. Every `vTaskDelay` is appended to a list of delays.
- **Module state becomes fields.** Module-level state of a C file (the
  `g_running` / `g_stopTimer` pair, task handles and run flags, the two wifi
  flags, `currentState`) becomes fields of a class. The operations are
  methods that update those fields in place.
- **Specification functions.** Each method is proved against a function:
  - `RunStages` for register-write sequences;
  - `ReadIfReadyFn` for the sample read;
  - `InitFn` for the retry loop;
  - `Acquisition.Run` for the polling loop;
  - `Batching.Collect` / `Batching.Sent` for batching;
  - `HttpClient.PostFn` for the POST retries;
  - `Command.Machine` for the control loop;
  - `MaximAlgo.Estimate` for the estimator.

  The lemmas state what the firmware promises about those functions.
- **Error codes.** `esp_err_t` is kept as its 32-bit pattern (`bv32`), so
  `ret |= regWrite8(...)` is the exact bitwise OR.

Properties of the source that the lemmas make explicit:

- **SensorInit writes heart-rate mode.** `max30102SensorInit` (both variants)
  passes the register code `HAL_MODE_SPO2` (3) to `max30102SetMode`. That
  function switches on the driver enum `sensorMode` (0, 1, 2), so 3 takes the
  default and MODE_CONFIG receives 0x02 (heart-rate mode). In both variants
  the driver then calls `max30102SetMode(MODE_SPO2)` and overwrites it with
  0x03. In HeartLink this happens in `max30102_internal_init` and in the
  `max30102StartSession` boot; in capstone it happens in `max30102Init`.
- **The FIFO_CONFIG value has rollover off.** The comment next to 0x4F says
  "rollover=1", but read through the header's own bit-field layout, 0x4F has
  the rollover bit clear (threshold 15, averaging code 4).
- **The data-ready bit is not where the union says.** The data-ready test uses
  the mask 0x40 (bit 6). The `max30102IntStatus1Reg` union declares `ppgRdy`
  at bit 0. The firmware only uses the mask.
- **A full queue drops the newest sample.** The comment at the queue push
  in the acquisition task says "drop old data". The call is `xQueueSend` with
  timeout 0, which fails on a full queue and leaves its contents alone. So the
  sample just read is the one dropped, and the oldest samples stay
  (`Acquisition.QueueContents`).
- **The capstone init enables no interrupts.** Its sensor init never writes
  INT_ENABLE_1/2.
- **The two `httpPostJson` versions differ.** The older one stops at the
  first completed perform whatever its HTTP status, and gives up on the first
  failed client init. The newer one retries both.

## Model

Source paths are relative to the repository root. `HL` files are under
`HW/HeartLink/HeartLink/src/`; capstone files are under `HW/capstoneHeartlink/`.

| member | source | states |
|---|---|---|
| Esp.Or | HW/HeartLink/HeartLink/src/max30102_hal/hal_max30102_sensor.c:78-79 | `a \| b` on status codes is OK exactly when both are OK; an earlier failure is never masked by a later success |
| RegMap.RegistersDistinct | HW/HeartLink/HeartLink/src/max30102_hal/hal_reg_map.h:18-42 | the nineteen register addresses are pairwise distinct |
| RegMap.PackIntStatus1 | HW/HeartLink/HeartLink/src/max30102_hal/hal_reg_map.h:58-68 | packing the INT_STATUS_1 fields into a byte and unpacking gives the same fields |
| RegMap.PackModeConfig | HW/HeartLink/HeartLink/src/max30102_hal/hal_reg_map.h:71-79 | packing the MODE_CONFIG fields (3+3+1+1 bits) and unpacking gives the same fields |
| RegMap.PackSpO2Config | HW/HeartLink/HeartLink/src/max30102_hal/hal_reg_map.h:82-90 | packing the SPO2_CONFIG fields (2+3+2+1 bits) and unpacking gives the same fields |
| RegMap.PackFifoConfig | HW/HeartLink/HeartLink/src/max30102_hal/hal_reg_map.h:93-100 | packing the FIFO_CONFIG fields (4+3+1 bits) and unpacking gives the same fields |
| RegMap.UnionsCoverTheByte | HW/HeartLink/HeartLink/src/max30102_hal/hal_reg_map.h:58-100 | each of the four unions covers exactly its byte: unpacking then packing returns every byte unchanged |
| RegMap.PpgReadyMaskIsNotUnionField | HW/HeartLink/HeartLink/src/max30102_hal/hal_reg_map.h:46-68 | the data-ready test is bit 6; 0x40 passes it with the union's ppgRdy clear, 0x01 fails it with ppgRdy set |
| RegMap.IntEnableValue | HW/HeartLink/HeartLink/src/max30102_hal/hal_max30102_sensor.c:20-21 | 0xC0 is exactly the almost-full mask OR the data-ready mask |
| RegMap.FifoConfigValue | HW/HeartLink/HeartLink/src/max30102_hal/hal_max30102_sensor.c:27-28 | 0x4F decodes to threshold 15, averaging code 4 and rollover 0 |
| RegMap.SpO2ConfigValue | HW/HeartLink/HeartLink/src/max30102_hal/hal_max30102_sensor.c:31-32 | 0x27 decodes to pulse width 411 us, 100 Hz, ADC range 4096 |
| RegMap.ModeCodes | HW/HeartLink/HeartLink/src/max30102_hal/hal_reg_map.h:107-111 | 0x02, 0x03 and 0x07 select modes 2, 3 and 7 with the reset and shutdown bits clear |
| I2c.Answer | HW/capstoneHeartlink/hal/src/hal_i2c.c:42-55 | a read of len bytes delivers exactly len bytes, byte j being the device's byte j for that transaction |
| I2c.Bus.Write | HW/capstoneHeartlink/hal/src/hal_i2c.c:30-40 | one write transaction is appended to the trace and its status returned |
| I2c.Bus.Read | HW/capstoneHeartlink/hal/src/hal_i2c.c:42-55 | one read transaction is appended; on success the first len buffer bytes hold the answer and the rest is unchanged; on failure the buffer is unchanged |
| Platform.Platform.I2cInit | HW/capstoneHeartlink/hal/src/hal_i2c.c:8-28 | one I2C init call is logged and its status returned |
| Platform.Platform.InterruptInit | HW/capstoneHeartlink/hal/src/hal_interrupt.c:28-69 | one interrupt init call is logged and its status returned |
| Platform.Platform.InterruptDeinit | HW/capstoneHeartlink/hal/src/hal_interrupt.c:84-92 | one interrupt deinit call is logged |
| HalReg.ReadReg | HW/HeartLink/HeartLink/src/max30102_hal/hal_reg.c:22-32 | the register-read protocol: the trace grows by the address write [reg] and, only when that write succeeded, one read of len bytes; the status returned is that of the last transaction made |
| HalReg.RegWrite8 | HW/HeartLink/HeartLink/src/max30102_hal/hal_reg.c:9-17 | exactly one bus write of [reg, val] to 0x57, its status returned |
| HalReg.RegRead8 | HW/HeartLink/HeartLink/src/max30102_hal/hal_reg.c:22-32 | the bus sees ReadReg with one byte; on OK `*data` is the byte read, otherwise it is unchanged |
| HalReg.RegBurstRead | HW/HeartLink/HeartLink/src/max30102_hal/hal_reg.c:37-47 | the bus sees ReadReg with `length` bytes; on OK the buffer front holds them, otherwise the buffer is unchanged |
| HalReg.StageStatusOk | HW/HeartLink/HeartLink/src/max30102_hal/hal_max30102_sensor.c:100-109 | a group of writes combined with OR succeeds exactly when every write in it succeeds |
| HalReg.IssueAt | HW/HeartLink/HeartLink/src/max30102_hal/hal_max30102_sensor.c:100-109 | a group issues all its writes, one transaction each, in order, after what was on the bus |
| HalReg.RunStagesOkIff | HW/HeartLink/HeartLink/src/max30102_hal/hal_max30102_sensor.c:10-45 | a write sequence that stops at the first failure succeeds exactly when every step succeeds |
| HalReg.RunStagesOkIssuesAll | HW/HeartLink/HeartLink/src/max30102_hal/hal_max30102_sensor.c:10-45 | a successful sequence has issued every write in order and nothing else |
| HalReg.RunStagesFirstFailure | HW/HeartLink/HeartLink/src/max30102_hal/hal_max30102_sensor.c:10-45 | a failed sequence returns the code of its first failing step, having issued the writes up to and including that step |
| HalReg.RunStagesAppend | HW/HeartLink/HeartLink/src/max30102_driver/max30102_driver.c:31-43 | running one sequence after another is running the second only when the first succeeded |
| HalSensor.Channel18 | HW/HeartLink/HeartLink/src/max30102_hal/hal_max30102_sensor.c:135-136 | a decoded channel is below 2^18 and holds the low two bits of the first byte, then the second and third bytes |
| HalSensor.Decode | HW/HeartLink/HeartLink/src/max30102_hal/hal_max30102_sensor.c:135-136 | red from bytes 0-2 and IR from bytes 3-5, both below 2^18 |
| HalSensor.DecodeEncode | HW/HeartLink/HeartLink/src/max30102_hal/hal_max30102_sensor.c:130-136 | every pair of 18-bit values survives encoding into the 6 FIFO bytes and decoding |
| HalSensor.Channel18KeepsLowBits | HW/HeartLink/HeartLink/src/max30102_hal/hal_max30102_sensor.c:135-136 | two byte triples decode equal exactly when they agree on the middle and low bytes and the low two bits of the high byte |
| HalSensor.ModeCode | HW/HeartLink/HeartLink/src/max30102_hal/hal_max30102_sensor.c:50-65 | the result is one of 0x02, 0x03, 0x07; 0x03 exactly for MODE_SPO2, 0x07 exactly for MODE_MULTI_LED, 0x02 otherwise |
| HalSensor.HalCodeAsModeFallsToDefault | HW/HeartLink/HeartLink/src/max30102_hal/hal_max30102_sensor.c:40-65 | the code HAL_MODE_SPO2 passed as a driver mode selects heart-rate mode 0x02 |
| HalSensor.ReadIfReadyFn | HW/HeartLink/HeartLink/src/max30102_hal/hal_max30102_sensor.c:114-139 | the sample read delivers a sample exactly when it returns OK, and the sample is two 18-bit values |
| HalSensor.ReadInterruptFn | HW/HeartLink/HeartLink/src/max30102_hal/hal_max30102_sensor.c:144-152 | both status registers are read; OK exactly when both reads succeed |
| HalSensor.ReadIfReadyTraffic | HW/HeartLink/HeartLink/src/max30102_hal/hal_max30102_sensor.c:119-133 | a failed INT_STATUS_1 read is returned as is; otherwise INT_STATUS_2 is read whatever its result; PPG_RDY clear gives NOT_FOUND with no FIFO read; otherwise the 6-byte FIFO read whose bytes decode to the sample |
| HalSensor.SetMode | HW/HeartLink/HeartLink/src/max30102_hal/hal_max30102_sensor.c:50-70 | one MODE_CONFIG write of ModeCode(mode), its status returned |
| HalSensor.SetLedCurrent | HW/HeartLink/HeartLink/src/max30102_hal/hal_max30102_sensor.c:75-83 | LED1 then LED2 are both written even after a failure; the result is the OR of both codes |
| HalSensor.FifoInit | HW/HeartLink/HeartLink/src/max30102_hal/hal_max30102_sensor.c:88-95 | exactly one FIFO_CONFIG write of 0x4F |
| HalSensor.ResetFifo | HW/HeartLink/HeartLink/src/max30102_hal/hal_max30102_sensor.c:100-109 | the three FIFO pointer writes are all issued; the result is the OR of their codes |
| HalSensor.SensorInit | HW/HeartLink/HeartLink/src/max30102_hal/hal_max30102_sensor.c:10-45 | FIFO reset, INT_ENABLE_1 0xC0, INT_ENABLE_2 0x00, FIFO_CONFIG 0x4F, SPO2_CONFIG 0x27, LEDs 0x24/0x24, then mode, stopping at the first failure |
| HalSensor.SensorInitHead | HW/HeartLink/HeartLink/src/max30102_hal/hal_max30102_sensor.c:16-25 | the first three steps of the init, stopping at the first failure |
| HalSensor.SensorInitRest | HW/HeartLink/HeartLink/src/max30102_hal/hal_max30102_sensor.c:27-41 | the last four steps of the init, stopping at the first failure |
| HalSensor.ReadIfReady | HW/HeartLink/HeartLink/src/max30102_hal/hal_max30102_sensor.c:114-139 | NULL gives INVALID_ARG with no bus traffic; otherwise the bus sees ReadIfReadyFn; `*out` receives the decoded sample exactly when OK is returned and is unchanged otherwise |
| HalSensor.ReadFifoSample | HW/HeartLink/HeartLink/src/max30102_hal/hal_max30102_sensor.c:130-136 | the 6-byte FIFO read; on OK the destination holds the decoded bytes, otherwise it is unchanged |
| HalSensor.ReadInterrupt | HW/HeartLink/HeartLink/src/max30102_hal/hal_max30102_sensor.c:144-152 | both registers are always read; on OK each destination holds its register |
| HalSensorCapstone.CapstoneInitDropsInterruptEnables | HW/capstoneHeartlink/hal/src/hal_max30102_sensor.c:10-38 | the older init is the HeartLink init without its two interrupt-enable steps, never touches INT_ENABLE_1/2, and writes mode 0x02 |
| HalSensorCapstone.ReadFifoFn | HW/capstoneHeartlink/hal/src/hal_max30102_sensor.c:107-121 | the unconditional FIFO read: its traffic is the 6-byte register read, and it delivers a sample exactly when it returns OK |
| HalSensorCapstone.ReadFifoIsReadIfReadyTail | HW/capstoneHeartlink/hal/src/hal_max30102_sensor.c:107-121 | after a successful INT_STATUS_1 read with PPG_RDY set, HeartLink's ready-checked read is exactly this read, with the same decode |
| HalSensorCapstone.SensorInit | HW/capstoneHeartlink/hal/src/hal_max30102_sensor.c:10-38 | FIFO reset, FIFO_CONFIG 0x4F, SPO2_CONFIG 0x27, LEDs 0x24/0x24, mode, stopping at the first failure |
| HalSensorCapstone.ReadFifo | HW/capstoneHeartlink/hal/src/hal_max30102_sensor.c:107-121 | the bus sees ReadFifoFn; the outputs hold the decoded sample on OK and are unchanged otherwise |
| Driver.InternalInitFn | HW/HeartLink/HeartLink/src/max30102_driver/max30102_driver.c:19-47 | one bring-up: I2C init, interrupt init, sensor init, FIFO init, SetMode(MODE_SPO2), LEDs 0x24/0x24, stopping at the first failure |
| Driver.InitFn | HW/HeartLink/HeartLink/src/max30102_driver/max30102_driver.c:49-67 | the retry loop over bring-ups, starting from ESP_FAIL |
| Driver.InternalInitCountsOneAttempt | HW/HeartLink/HeartLink/src/max30102_driver/max30102_driver.c:22-24 | every bring-up calls hal_i2c_init exactly once |
| Driver.InitFromAttempts | HW/HeartLink/HeartLink/src/max30102_driver/max30102_driver.c:53-57 | from attempt i the loop makes between 1 and 3 - i attempts, and fails only after making all of them |
| Driver.InitFromDelays | HW/HeartLink/HeartLink/src/max30102_driver/max30102_driver.c:53-63 | each failed attempt, the last included, adds one 200 ms delay, and nothing else does |
| Driver.InitFromFailure | HW/HeartLink/HeartLink/src/max30102_driver/max30102_driver.c:53-66 | a failed loop ends with the outcome of its last attempt |
| Driver.InitPolicy | HW/HeartLink/HeartLink/src/max30102_driver/max30102_driver.c:49-67 | at most 3 attempts; OK on the first success after one 200 ms delay per earlier failure; otherwise 3 failed attempts and 3 delays, the first two attempts failed, and the result, log and trace are those of the third bring-up, made where the second one left off |
| Driver.ConfigureStopsAtMode | HW/HeartLink/HeartLink/src/max30102_driver/max30102_driver.c:69-74 | when the mode write fails, that is the result and no LED write happens; otherwise both LED writes follow and their OR is the result |
| Driver.HandleResult | HW/HeartLink/HeartLink/src/max30102_driver/max30102_driver.c:89-94 | NOT_FOUND becomes OK; every other code passes through; NOT_FOUND is never returned |
| Driver.DeviceSequencesEndInSpO2Mode | HW/HeartLink/HeartLink/src/max30102_driver/max30102_driver.c:31-43 | in both the init sequence and the StartSession boot, the sensor init's 0x02 is followed by the driver's MODE_SPO2 write 0x03, and no later step writes MODE_CONFIG |
| Driver.Boot | HW/HeartLink/HeartLink/src/max30102_driver/max30102_driver.c:110-115 | sensor init, FIFO init, FIFO reset, SetMode(MODE_SPO2), LEDs 0x24/0x24, stopping at the first failure |
| Driver.Driver.constructor | HW/HeartLink/HeartLink/src/max30102_driver/max30102_driver.c:11-12 | not running, no stop timer, no delays |
| Driver.Driver.InternalInit | HW/HeartLink/HeartLink/src/max30102_driver/max30102_driver.c:19-47 | the platform log, bus trace and result are those of InternalInitFn |
| Driver.Driver.Init | HW/HeartLink/HeartLink/src/max30102_driver/max30102_driver.c:49-67 | result, platform log, bus trace and delays are those of InitFn; the session is untouched |
| Driver.Driver.Configure | HW/HeartLink/HeartLink/src/max30102_driver/max30102_driver.c:69-74 | the mode write, then the LED writes only if the mode write succeeded |
| Driver.Driver.ReadSample | HW/HeartLink/HeartLink/src/max30102_driver/max30102_driver.c:76-79 | NULL gives INVALID_ARG with no traffic; otherwise exactly the sensor-layer read and its sample |
| Driver.Driver.Reset | HW/HeartLink/HeartLink/src/max30102_driver/max30102_driver.c:81-83 | the FIFO pointer reset |
| Driver.Driver.ReadInterruptStatus | HW/HeartLink/HeartLink/src/max30102_driver/max30102_driver.c:85-87 | the sensor-layer interrupt read; on OK the second destination holds INT_STATUS_2, and the first holds INT_STATUS_1 when the two are distinct arrays |
| Driver.Driver.HandleInterrupt | HW/HeartLink/HeartLink/src/max30102_driver/max30102_driver.c:89-94 | the sensor-layer read with NOT_FOUND reported as OK; a delivered sample reaches `*out`; with no sample ready `*out` is unchanged |
| Driver.Driver.StartSession | HW/HeartLink/HeartLink/src/max30102_driver/max30102_driver.c:101-138 | while running: OK with no traffic and no state change; otherwise the boot, aborting with the first failing code, then running, the old timer cleared, and a new timer only for a finite duration, with period pdMS_TO_TICKS(durationMs) at the driver's tick rate |
| Driver.Driver.StopSession | HW/HeartLink/HeartLink/src/max30102_driver/max30102_driver.c:140-159 | always OK; the session becomes Stopped of the old one |
| Driver.Driver.IsRunning | HW/HeartLink/HeartLink/src/max30102_driver/max30102_driver.c:161-163 | returns the running flag |
| Driver.Driver.StopTimerFired | HW/HeartLink/HeartLink/src/max30102_driver/max30102_driver.c:96-99 | the timer expiry stops the session |
| Session.MsToTicks | HW/HeartLink/HeartLink/src/max30102_driver/max30102_driver.c:128 | pdMS_TO_TICKS with a 32-bit TickType_t: the result always fits TickType_t |
| Session.TicksWithoutWrap | HW/HeartLink/HeartLink/src/max30102_driver/max30102_driver.c:128 | when duration times tick rate fits 32 bits, the period is that product divided by 1000, and it is 0 ticks exactly when the product is below 1000 |
| Session.InfiniteTicksWrap | HW/capstoneHeartlink/max30102_driver/src/max30102_driver.c:97 | 0xFFFFFFFF ms converts to (2^32 - rate) / 1000 ticks for any tick rate below 2^32: 4294966 ticks at 1000 Hz, 4294967 at 100 Hz |
| Session.Started | HW/HeartLink/HeartLink/src/max30102_driver/max30102_driver.c:117-134 | HeartLink start from idle: running, old timer gone, a new one-shot timer only when the duration is not 0xFFFFFFFF |
| Session.StartedAlways | HW/capstoneHeartlink/max30102_driver/src/max30102_driver.c:89-98 | capstone start from idle: running and always a new one-shot timer |
| Session.Stopped | HW/HeartLink/HeartLink/src/max30102_driver/max30102_driver.c:140-159 | nothing when idle; otherwise no timer and not running |
| Session.TransitionsKeepValid | HW/HeartLink/HeartLink/src/max30102_driver/max30102_driver.c:101-159 | both starts and the stop keep "a timer exists only while running, and was created earlier" |
| Session.StopIsIdempotent | HW/HeartLink/HeartLink/src/max30102_driver/max30102_driver.c:140-159 | after a stop nothing runs and no timer is armed; stopping twice is stopping once; stopping while idle changes nothing |
| Session.InfiniteSessionHasNoTimer | HW/HeartLink/HeartLink/src/max30102_driver/max30102_driver.c:120-134 | no timer exactly when the duration is 0xFFFFFFFF, creation failed or the period converts to 0 ticks; otherwise one timer of the converted period, which is duration * rate / 1000 when that product fits 32 bits |
| Session.VariantsDifferOnlyOnInfinite | HW/capstoneHeartlink/max30102_driver/src/max30102_driver.c:92-98 | the two starts agree on every finite duration; on 0xFFFFFFFF HeartLink arms no timer, while capstone arms one whose period is the wrapped (2^32 - rate) / 1000 ticks |
| Session.ExpiryEndsSession | HW/HeartLink/HeartLink/src/max30102_driver/max30102_driver.c:96-99 | a session started from idle, with timer creation succeeding, runs and holds a timer when its duration is finite and at least one tick long; the stop its expiry triggers leaves it not running |
| DriverCapstone.InitEndsInSpO2Mode | HW/capstoneHeartlink/max30102_driver/src/max30102_driver.c:16-39 | the older init writes mode 0x02 in the sensor init, then 0x03, and no later step touches MODE_CONFIG |
| DriverCapstone.CapstoneDriver.constructor | HW/capstoneHeartlink/max30102_driver/src/max30102_driver.c:9-10 | not running, no stop timer |
| DriverCapstone.CapstoneDriver.Init | HW/capstoneHeartlink/max30102_driver/src/max30102_driver.c:16-39 | one attempt: sensor init, FIFO init, FIFO reset, SetMode(MODE_SPO2), LEDs, stopping at the first failure |
| DriverCapstone.CapstoneDriver.StartSession | HW/capstoneHeartlink/max30102_driver/src/max30102_driver.c:73-103 | while running: OK and nothing changes; otherwise the init, aborting on failure, then running with a new timer of period pdMS_TO_TICKS(durationMs) whatever the duration |
| DriverCapstone.CapstoneDriver.StopSession | HW/capstoneHeartlink/max30102_driver/src/max30102_driver.c:105-124 | always OK; the session becomes Stopped of the old one |
| DriverCapstone.CapstoneDriver.IsRunning | HW/capstoneHeartlink/max30102_driver/src/max30102_driver.c:126-128 | returns the running flag |
| DriverCapstone.CapstoneDriver.StopTimerFired | HW/capstoneHeartlink/max30102_driver/src/max30102_driver.c:68-71 | the timer expiry stops the session |
| SampleQueue.Queue.constructor | HW/HeartLink/HeartLink/src/main.cpp:116-117 | an empty queue of the given capacity |
| SampleQueue.Queue.Send | HW/HeartLink/HeartLink/src/interface/max30102_intf.c:44-52 | appends exactly when there is room; otherwise fails and the queue is unchanged |
| SampleQueue.Queue.Receive | HW/HeartLink/HeartLink/src/interface/upload_intf.c:52 | the oldest sample is removed and returned; an empty queue is a timeout that changes nothing |
| SampleQueue.Queue.Reset | HW/HeartLink/HeartLink/src/main.cpp:54-56 | the queue becomes empty |
| Acquisition.Step | HW/HeartLink/HeartLink/src/interface/max30102_intf.c:36-68 | one loop iteration: 10 ms delay; OK resets the counter and pushes if there is a queue with room; NOT_FOUND changes nothing; another error increments the counter and either ends the loop at 5 or adds the 50 ms back-off |
| Acquisition.Run | HW/HeartLink/HeartLink/src/interface/max30102_intf.c:33-69 | the loop over the read outcomes while the run flag holds |
| Acquisition.StreakSnoc | HW/HeartLink/HeartLink/src/interface/max30102_intf.c:41-60 | the run of failures: reset by OK, unchanged by NOT_FOUND, one longer after another error |
| Acquisition.ErrorCounterIsStreak | HW/HeartLink/HeartLink/src/interface/max30102_intf.c:41-65 | while the loop runs, its counter is the current run of failures and stays below 5 |
| Acquisition.StopsOnFifthFailure | HW/HeartLink/HeartLink/src/interface/max30102_intf.c:58-65 | the loop is still running exactly when no prefix of the outcomes reached 5 consecutive failures |
| Acquisition.StoppedIsFinal | HW/HeartLink/HeartLink/src/interface/max30102_intf.c:61-64 | once the loop has ended, later outcomes change nothing |
| Acquisition.QueueContents | HW/HeartLink/HeartLink/src/interface/max30102_intf.c:41-53 | the queue only grows at its end and within capacity; it is untouched without a handle; while the loop runs it holds the oldest read samples that fitted, in read order, and a sample read while it is full is dropped |
| Acquisition.DelaysRecorded | HW/HeartLink/HeartLink/src/interface/max30102_intf.c:36-67 | earlier delays are kept; while the loop runs they are followed by 10 ms before every read and 50 ms after every failed read, in read order |
| Acquisition.LoopAtStop | HW/HeartLink/HeartLink/src/interface/max30102_intf.c:36-65 | when the loop ends at read j, that read failed and the counter is 5; the queue holds what it accepted from the reads before j; the delays are those of the reads before j plus the 10 ms before read j, with no back-off |
| SensorIntf.Readings | HW/HeartLink/HeartLink/src/interface/max30102_intf.c:33-39 | the k outcomes of k successive driver reads on the bus |
| SensorIntf.ReadsAfterStopIgnored | HW/HeartLink/HeartLink/src/interface/max30102_intf.c:33-64 | reads the loop would have made after it stopped do not change its final state |
| SensorIntf.SensorIntf.constructor | HW/HeartLink/HeartLink/src/interface/max30102_intf.c:10-17 | no queue, no task, not running |
| SensorIntf.SensorIntf.Init | HW/HeartLink/HeartLink/src/interface/max30102_intf.c:79-87 | NULL gives INVALID_ARG with no driver traffic and no driver delay; otherwise the queue is stored and the result, bus, platform and driver delays are those of the driver's retrying init; the driver session is untouched either way |
| SensorIntf.SensorIntf.Start | HW/HeartLink/HeartLink/src/interface/max30102_intf.c:89-107 | FAIL when a task exists or the interrupt re-init fails, without setting the run flag; otherwise running, and OK exactly when the task was created |
| SensorIntf.SensorIntf.Stop | HW/HeartLink/HeartLink/src/interface/max30102_intf.c:109-119 | clears the run flag and the task; waits 50 ms only when a task existed; always de-initialises the interrupt |
| SensorIntf.SensorIntf.Iterate | HW/HeartLink/HeartLink/src/interface/max30102_intf.c:36-68 | one real driver read on the bus, and the new loop state is Acquisition.Step of the old one with that read's outcome |
| SensorIntf.SensorIntf.Poll | HW/HeartLink/HeartLink/src/interface/max30102_intf.c:33-69 | the bus sees the reads issued, and the final state is Acquisition.Run over their outcomes; it stops early only when the loop ended |
| SensorIntf.SensorIntf.Task | HW/HeartLink/HeartLink/src/interface/max30102_intf.c:22-77 | a session already running is kept as is; otherwise the driver session is started with 0xFFFFFFFF, aborting with the boot's failing code, and then runs with no stop timer; the reads that follow are the polling loop's; the driver's own delays are unchanged |
| Batching.Items | HW/HeartLink/HeartLink/src/interface/upload_intf.c:86-93 | one {ir, red} item per sample, in buffer order |
| Batching.Pack | HW/HeartLink/HeartLink/src/interface/upload_intf.c:64-93 | the document: "USER_1", "DEV_1", the time read for the batch and the items |
| Batching.Collect | HW/HeartLink/HeartLink/src/interface/upload_intf.c:52-57 | samples are stored one by one and the buffer is emitted and emptied when it reaches 400 |
| Batching.CollectPartitions | HW/HeartLink/HeartLink/src/interface/upload_intf.c:54-132 | the batches followed by the buffer are exactly the received samples in order; every batch has 400 samples and the buffer fewer |
| Batching.BatchCount | HW/HeartLink/HeartLink/src/interface/upload_intf.c:57 | the number of batches is the number of whole 400-sample windows received |
| Batching.Sent | HW/HeartLink/HeartLink/src/interface/upload_intf.c:100-121 | a batch is handed to the transport when it serialised and the network was ready |
| Batching.SentSnoc | HW/HeartLink/HeartLink/src/interface/upload_intf.c:100-121 | one more batch adds one document to what is sent exactly when it serialised and the network was ready |
| Batching.SentPerBatch | HW/HeartLink/HeartLink/src/interface/upload_intf.c:100-121 | at most one send per batch; none while the network is down; exactly one per batch, in order, when serialisation never fails and the network is up |
| UploadIntf.Upload.constructor | HW/HeartLink/HeartLink/src/interface/upload_intf.c:25-27 | no queue, no task, not running, nothing packed or sent |
| UploadIntf.Upload.Init | HW/HeartLink/HeartLink/src/interface/upload_intf.c:143-147 | NULL gives INVALID_ARG; otherwise the queue is stored and OK returned |
| UploadIntf.Upload.Start | HW/HeartLink/HeartLink/src/interface/upload_intf.c:149-157 | FAIL when a task exists; otherwise running, and OK exactly when the task was created |
| UploadIntf.Upload.Stop | HW/HeartLink/HeartLink/src/interface/upload_intf.c:159-168 | clears the run flag and the task; waits 50 ms only when a task existed |
| UploadIntf.UploadsBounds | HW/HeartLink/HeartLink/src/net_components/net/transport_http.c:19-25 | m uploads make between m and 3m POST attempts, and sleep fewer times than the attempts beyond the first of each upload |
| UploadIntf.UploadsOnFirstTry | HW/HeartLink/HeartLink/src/net_components/net/transport_http.c:19-25 | when every attempt gets a 2xx answer, m uploads make exactly m attempts and never sleep |
| UploadIntf.UploadsAdvance | HW/HeartLink/HeartLink/src/interface/upload_intf.c:108-117 | a client m uploads past its start is, after one more batch, m + 1 uploads past it when the batch was sent and m otherwise |
| UploadIntf.Upload.Store | HW/HeartLink/HeartLink/src/interface/upload_intf.c:54-133 | the buffer count stays below 400, the buffer holds Collect's pending samples, and the batches packed and sent are Collect's and Sent's; at most one document more is sent, and the HTTP client makes one httpPostJson call exactly when it is; no GET |
| UploadIntf.Upload.Flush | HW/HeartLink/HeartLink/src/interface/upload_intf.c:57-132 | one more batch packed, and sent exactly when it serialised and the network is ready; the HTTP client then makes one httpPostJson call of 3 attempts (its attempts and delays are PostFn's) and otherwise nothing; no GET |
| UploadIntf.Upload.Pass | HW/HeartLink/HeartLink/src/interface/upload_intf.c:46-134 | takes at most the oldest queued sample, in order, and keeps the batching invariant; the client's POSTs follow the documents sent, as for Store |
| UploadIntf.Upload.Task | HW/HeartLink/HeartLink/src/interface/upload_intf.c:33-141 | a 2 s start delay; then, for the samples received, the batches are Collect's and the documents sent are Sent's, in order; the HTTP client has made the attempts and slept the delays of exactly one httpPostJson call per document sent, and no GET |
| HttpClient.Backoff | HW/HeartLink/HeartLink/src/net_components/net/http_client_common.c:69-71 | the delay after attempt j (from 0) is 300 * (j + 1) ms |
| HttpClient.FirstSuccess | HW/HeartLink/HeartLink/src/net_components/net/http_client_common.c:18-60 | the first attempt that got a 2xx answer, which really is one, or retry_max |
| HttpClient.PostFromFirstSuccess | HW/HeartLink/HeartLink/src/net_components/net/http_client_common.c:18-72 | the loop returns ESP_OK with the first 2xx status, after delays 300..300*j |
| HttpClient.PostFromNoSuccess | HW/HeartLink/HeartLink/src/net_components/net/http_client_common.c:18-75 | with no 2xx answer the loop makes every attempt, sleeps after all but the last, and reports no success |
| HttpClient.PostPolicy | HW/HeartLink/HeartLink/src/net_components/net/http_client_common.c:13-76 | success (ESP_OK and 2xx) exactly when some attempt got a 2xx answer; retry_max <= 0 gives ESP_FAIL and -1; backoff as above |
| HttpClient.PostUsesAttempts | HW/HeartLink/HeartLink/src/net_components/net/http_client_common.c:18-72 | a call with retry_max > 0 makes between 1 and retry_max attempts and sleeps fewer times than it attempts |
| HttpClient.NonSuccessStatusStillOk | HW/HeartLink/HeartLink/src/net_components/net/http_client_common.c:45-75 | a final attempt answered with a non-2xx status still makes httpPostJson return ESP_OK, with that status |
| HttpClient.LastInitFailureKeepsEarlier | HW/HeartLink/HeartLink/src/net_components/net/http_client_common.c:27-33 | a client-init failure on the last attempt leaves ret and status from the earlier attempts |
| HttpClient.Chunk | HW/HeartLink/HeartLink/src/net_components/net/http_client_common.c:119 | a body read returns at most what was asked and what is left of the body; a non-positive result is passed through |
| HttpClient.ReadTotal | HW/HeartLink/HeartLink/src/net_components/net/http_client_common.c:113-131 | the bytes read end between the start and buf_len - 1, and never past the body |
| HttpClient.ReadTotalStops | HW/HeartLink/HeartLink/src/net_components/net/http_client_common.c:118-129 | the read loop ends when the buffer is full, the body is exhausted, the content length is reached, or a read returned no bytes |
| HttpClient.Client.PostJson | HW/HeartLink/HeartLink/src/net_components/net/http_client_common.c:13-76 | result, status, delays and attempts used are those of PostFn |
| HttpClient.Client.ReadBody | HW/HeartLink/HeartLink/src/net_components/net/http_client_common.c:113-129 | the buffer front holds the first ReadTotal body bytes and the rest is unchanged |
| HttpClient.Client.GetJson | HW/HeartLink/HeartLink/src/net_components/net/http_client_common.c:78-139 | no client or failed header fetch: ESP_FAIL, status not written; open failure: its code; non-200: ESP_FAIL with the status and the buffer untouched; 200: ESP_OK and the body start plus NUL |
| HttpClientCapstone.FirstSettled | HW/capstoneHeartlink/net_components/net/src/http_client_common.c:11-32 | the first attempt that ends the loop (no client, or a completed perform), or retry_max |
| HttpClientCapstone.CapPostFromSettled | HW/capstoneHeartlink/net_components/net/src/http_client_common.c:8-35 | the loop ends at that attempt: ESP_FAIL with status unwritten, or ESP_OK with whatever status; otherwise the last error, -1, and a delay after every attempt |
| HttpClientCapstone.CapPostPolicy | HW/capstoneHeartlink/net_components/net/src/http_client_common.c:8-35 | the same, from the first attempt; retry_max <= 0 gives ESP_FAIL and -1 |
| HttpClientCapstone.DiffersFromHeartLink | HW/capstoneHeartlink/net_components/net/src/http_client_common.c:18-29 | a non-2xx first answer or a first init failure ends the older loop after one attempt, while the newer one makes at least two |
| HttpClientCapstone.PostJson | HW/capstoneHeartlink/net_components/net/src/http_client_common.c:8-35 | result, status, delays and attempts used are those of CapPostFn |
| TransportHttp.InitResult | HW/HeartLink/HeartLink/src/net_components/net/transport_http.c:10-17 | true exactly when the station init returned OK and an IP arrived; the SNTP result does not matter |
| TransportHttp.Send | HW/HeartLink/HeartLink/src/net_components/net/transport_http.c:19-25 | a POST with 3 attempts; true exactly when one of them got a 2xx answer |
| TransportHttp.CheckCommand | HW/HeartLink/HeartLink/src/net_components/net/transport_http.c:27-38 | one GET; true exactly when the server answered 200; the buffer then holds the body start and a NUL, otherwise it is untouched |
| WifiIntf.Wifi.constructor | HW/HeartLink/HeartLink/src/interface/wifi_intf.c:6-7 | both flags false |
| WifiIntf.Wifi.Connect | HW/HeartLink/HeartLink/src/interface/wifi_intf.c:9-24 | both flags follow the transport bring-up; OK when it succeeded, FAIL otherwise |
| WifiIntf.Wifi.IsConnected | HW/HeartLink/HeartLink/src/interface/wifi_intf.c:26-29 | returns the network-ready flag |
| WifiIntf.Wifi.CheckCommand | HW/HeartLink/HeartLink/src/interface/wifi_intf.c:31-36 | not connected: false with no request and the buffer untouched; otherwise the transport poll's result and buffer; never a POST or a delay |
| Command.ContainsIff | HW/HeartLink/HeartLink/src/main.cpp:40-49 | the substring search finds the pattern exactly when it occurs at some index |
| Command.CString | HW/HeartLink/HeartLink/src/main.cpp:28-40 | the text before the first NUL: a prefix of the buffer with no NUL, followed by NUL when shorter than the buffer |
| Command.CStringAtNul | HW/HeartLink/HeartLink/src/main.cpp:34-40 | whatever follows a written NUL is not part of the C string: it is the text before that NUL, up to any earlier NUL |
| Command.Next | HW/HeartLink/HeartLink/src/main.cpp:34-59 | one poll's transition: start tested first and acting only when idle, stop only when running |
| Command.PollDelay | HW/HeartLink/HeartLink/src/main.cpp:63-73 | 3000 ms exactly when running, 5000 ms otherwise, including SYS_STATE_BUTT |
| Command.Delays | HW/HeartLink/HeartLink/src/main.cpp:32-73 | one delay per poll, chosen by the state after that poll |
| Command.TransitionRules | HW/HeartLink/HeartLink/src/main.cpp:34-59 | a change needs a response and is Idle to Running or Running to Idle; the same response received twice in a row acts once |
| Command.UnquotedRepliesIgnored | HW/HeartLink/HeartLink/src/main.cpp:40-49 | a reply without a double quote, such as a bare start or stop, changes no state |
| Command.StartTokenAnywhere | HW/HeartLink/HeartLink/src/main.cpp:40-47 | the quoted start token at any position of the reply starts an idle system and leaves a running one running, whatever else the reply holds |
| Command.NeverButt | HW/HeartLink/HeartLink/src/main.cpp:24-75 | from Idle or Running the machine never enters SYS_STATE_BUTT |
| Command.IdleWithoutStart | HW/HeartLink/HeartLink/src/main.cpp:32-73 | polls with no start token leave an idle system idle, with a 5000 ms delay after each |
| App.Delivered | HW/HeartLink/HeartLink/src/main.cpp:34-40 | a poll delivers a response exactly when connected and the GET opened with a non-negative content length and status 200; the response is shorter than rx_buffer, holds no NUL, and is a prefix of the body |
| App.DeliveredInBuffer | HW/HeartLink/HeartLink/src/main.cpp:28-40 | after a successful poll, the C string in rx_buffer is the delivered response, whatever the buffer held before |
| App.DisconnectedKeepsState | HW/HeartLink/HeartLink/src/main.cpp:32-73 | while the network is down no poll delivers anything: the state never changes and every delay is that state's |
| App.HeartLink.constructor | HW/HeartLink/HeartLink/src/main.cpp:23-24 | Idle, no passes, no delays |
| App.HeartLink.Dispatch | HW/HeartLink/HeartLink/src/main.cpp:39-59 | the state becomes Next; a start from idle starts the sensor, then the upload interface; a stop from running stops both and empties the queue; otherwise no component changes: run flags, task handles, queue contents, platform log and both interfaces' delays stay as they were |
| App.HeartLink.Step | HW/HeartLink/HeartLink/src/main.cpp:32-73 | one pass: the response recorded is Delivered of this pass's GET reply (none unless connected), and is the C string in rx_buffer; one GET exactly when connected, no POST, no client delay; the state is Next of the response; the delay is PollDelay of the new state; when the state is unchanged, no component changes, as for Dispatch |
| App.HeartLink.Run | HW/HeartLink/HeartLink/src/main.cpp:26-75 | after n passes the responses are Polls of the next n GET replies (one GET per pass while connected, none otherwise), the state is Machine over them and the delays are Delays; never SYS_STATE_BUTT from Idle |
| MaximAlgo.UDiv | HW/HeartLink/HeartLink/src/dcp_algorithm/maxim_algo.c:18-19 | a uint32 quotient is at most the dividend |
| MaximAlgo.Largest | HW/HeartLink/HeartLink/src/dcp_algorithm/maxim_algo.c:35-43 | the running maximum from 0 bounds every sample and is one of them |
| MaximAlgo.Smallest | HW/HeartLink/HeartLink/src/dcp_algorithm/maxim_algo.c:35-43 | the running minimum from 0xFFFFFFFF is below every sample and is one of them |
| MaximAlgo.Estimate | HW/HeartLink/HeartLink/src/dcp_algorithm/maxim_algo.c:10-79 | IR mean below 10000: -999 and flags 0; otherwise SpO2 and HR from the integer features, flags 1 |
| MaximAlgo.ValidityFlags | HW/HeartLink/HeartLink/src/dcp_algorithm/maxim_algo.c:26-79 | both flags are 0 exactly when the IR mean is below 10000, and then both values are -999; otherwise both flags are 1; a negative length always gives the invalid outputs |
| MaximAlgo.PositiveWhenAboveFloor | HW/HeartLink/HeartLink/src/dcp_algorithm/maxim_algo.c:14-32 | a mean at or above the floor implies a positive length |
| MaximAlgo.SumBound | HW/HeartLink/HeartLink/src/dcp_algorithm/maxim_algo.c:14-17 | a sum of samples below a bound is below count times that bound |
| MaximAlgo.NoWrap | HW/HeartLink/HeartLink/src/dcp_algorithm/maxim_algo.c:14-19 | with 18-bit samples and n <= 400 the uint32 sum does not wrap, the mean is the truncated true mean, and it is below 2^18 |
| MaximAlgo.SpreadNonNegative | HW/HeartLink/HeartLink/src/dcp_algorithm/maxim_algo.c:35-46 | max - min is never negative, and is 0 exactly when all samples are equal |
| MaximAlgo.PeakBound | HW/HeartLink/HeartLink/src/dcp_algorithm/maxim_algo.c:62-73 | at most ceil(n / 2) peaks are counted; the above flag is set only after a counted peak |
| MaximAlgo.SomePeakIff | HW/HeartLink/HeartLink/src/dcp_algorithm/maxim_algo.c:62-73 | at least one peak is counted exactly when some sample is strictly above the threshold |
| MaximAlgo.FlatMean | HW/HeartLink/HeartLink/src/dcp_algorithm/maxim_algo.c:14-19 | the mean of a flat 18-bit window is its level |
| MaximAlgo.FeatureBounds | HW/HeartLink/HeartLink/src/dcp_algorithm/maxim_algo.c:35-73 | the AC amplitudes are non-negative and the peak count at most ceil(n / 2) |
| MaximAlgo.FlatSignalStillValid | HW/HeartLink/HeartLink/src/dcp_algorithm/maxim_algo.c:59-79 | a flat signal above the floor still reports both flags 1, from zero peaks |
| MaximAlgo.SumChannels | HW/HeartLink/HeartLink/src/dcp_algorithm/maxim_algo.c:14-17 | both channels accumulate into the wrapped uint32 sums of the first n samples |
| MaximAlgo.Extremes | HW/HeartLink/HeartLink/src/dcp_algorithm/maxim_algo.c:38-43 | the four running extremes are Largest and Smallest of each channel's window |
| MaximAlgo.CountPeaks | HW/HeartLink/HeartLink/src/dcp_algorithm/maxim_algo.c:62-73 | the loop's count is the peak count of the window against the mean |
| MaximAlgo.HeartRateAndSpO2 | HW/HeartLink/HeartLink/src/dcp_algorithm/maxim_algo.c:5-80 | the outputs are Estimate of the two buffers |
| MaximAlgo.EstimateAboveFloor | HW/HeartLink/HeartLink/src/dcp_algorithm/maxim_algo.c:34-79 | past the floor check, the outputs come from the features of the first n samples with both flags 1 |

## Left out

- Concurrency. FreeRTOS tasks, the `g_lock` mutex, interleavings between the
  acquisition, upload and control tasks, and the timer service context are
  not modelled. Each task body is a method over a bounded number of loop
  passes; the point at which another task clears a run flag is that bound.
  Task creation and deletion are flags, and sleeping is a recorded delay.
- The ISR-to-queue hand-off and the byte-level I2C command links are not
  modelled. The bus and the board calls are oracles.
- WiFi association, DNS, SNTP and `setup()`/`loop()` are not modelled. From
  `setup()` only the queue capacity of 200 is kept.
- Floating point. The R ratio, the SpO2 polynomial and clamp, and the
  heart-rate conversion (maxim_algo.c:45-58, 77-78) are parameters `spo2Of`
  and `hrOf` of the estimator. Their NaN and division-by-zero cases are not
  modelled.
- JSON text and logging. A batch is an abstract record (`Batching.Envelope`),
  not cJSON bytes. Log output and `esp_rom_printf` are not modelled.
- `ESP_ERROR_CHECK` in `max30102StartSession` is a terminal `Aborted(code)`
  outcome, not a program abort.
- The capstone driver calls `max30102ReadIfReady`, but the capstone sensor
  header only declares `max30102ReadFifo`. Its Configure, ReadSample, Reset,
  ReadInterruptStatus and HandleInterrupt are textually the HeartLink ones,
  so they are modelled once, in `Driver.Driver`, against the HeartLink read.
- Capstone SetMode, SetLedCurrent, FifoInit, ResetFifo and ReadInterrupt are
  the same code as in HeartLink and are modelled once, in `HalSensor`.
- test_upload.cpp uses a batch size of 100, but upload_intf.c uses 400. The
  model follows upload_intf.c. The hardware tests are not modelled.
- The receive timeout of the upload task (5000 ms) is not recorded as a
  delay; a timed-out receive is a pass that changes nothing.
- The initial contents of `rx_buffer` are whatever the array holds; only the
  C string left after a successful poll is used.
- MaximAlgo.HeartRateAndSpO2: requires n != 0. With n == 0 the source divides
  by zero, which has no defined result.
- HttpClient.Client.GetJson: requires a buffer of at least one byte. With
  buf_len 0 the read limit becomes -1, so the read loop is skipped. The
  terminating NUL then goes to `response_buf[0]`, one past the end of a
  zero-length buffer.
- HttpClient.Client.GetJson: the library's reads are modelled as returning
  at most what was asked and what is left of the body (`Chunk`).
- UploadIntf.Upload.Task: requires a non-null source queue. The task is only
  started after `uploadIntfInit` stored one.
- HalSensorCapstone.ReadFifo: the two out-pointers `redData` and `irData`
  of the C function are one sample record, so a NULL for only one of them
  and the two pointers aliasing each other are not modelled. The function
  has no caller in either tree.
- I2c.Bus.Read: on a failed transaction the buffer is unchanged. The I2C
  driver may have filled it partly. No code path in the firmware reads the
  buffer after a failed read, so this does not change any other result.
- HttpClient.Client.GetJson: `OpenFailed(e)` stands for a failed
  `esp_http_client_open`. The oracle does not rule out `e == ESP_OK`, a
  combination the library does not produce; the contract then returns that
  code as it is.
- App.HeartLink.Step: the start and stop calls are modelled with their
  effect on the interfaces' flags and the queue. The acquisition task and the
  upload task they create run separately, as `SensorIntf.SensorIntf.Task` and
  `UploadIntf.Upload.Task`.
- SensorIntf.SensorIntf.Task: states the driver session, the bus trace and
  the number of reads. The loop state over those reads is stated by
  `SensorIntf.SensorIntf.Poll`.
- The FreeRTOS tick rate (`configTICK_RATE_HZ`) is a parameter of the
  driver, `tickRateHz`, fixed when the driver is built.
- Session.MsToTicks: `pdMS_TO_TICKS` is taken in its 32-bit `TickType_t`
  form, where the product of milliseconds and tick rate wraps. Kernels that
  widen the product to 64 bits agree with it whenever that product fits in
  32 bits (`Session.TicksWithoutWrap`).
- Session.Started: a period that converts to 0 ticks is modelled as a
  refused timer creation (no timer). FreeRTOS checks that period with
  `configASSERT`, so a build with assertions enabled halts there instead.
- UploadIntf.Upload.Flush: the HTTP client records the number of POST
  attempts and the delays between them, not the envelope body sent. The
  documents sent are recorded by `Upload.posted`.
