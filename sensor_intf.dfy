/** The acquisition interface (interface/max30102_intf.c): the module
    variables dataQueueHandle, sensorTaskHandle and isRunning become the
    fields of `SensorIntf`, the task body is `Task`, and the reads it issues
    are the driver's real ReadSample calls on the bus. */
module SensorIntf {
  import opened Esp
  import opened I2c
  import opened HalReg
  import opened Types
  import opened HalSensor
  import opened Session
  import opened SampleQueue
  import opened Acquisition
  import P = Platform
  import D = Driver

  /** Wait in max30102IntfStop before the task is deleted. */
  const STOP_WAIT_MS: nat := 50

  /** The outcome of one read as the loop classifies it. */
  function Observe(r: SampleRead): Reading {
    match r.sample
    case Some(x) => Got(x)
    case None => if r.out.status == ERR_NOT_FOUND then NotReady else Failed(r.out.status)
  }

  /** The bus trace after k successive reads starting at trace t. */
  function After(o: Oracle, t: seq<Txn>, k: nat): seq<Txn> {
    if k == 0 then t else ReadIfReadyFn(o, After(o, t, k - 1)).out.trace
  }

  /** The outcomes of k successive reads starting at trace t. */
  function Readings(o: Oracle, t: seq<Txn>, k: nat): (rs: seq<Reading>)
    ensures |rs| == k
  {
    if k == 0 then [] else Readings(o, t, k - 1) + [Observe(ReadIfReadyFn(o, After(o, t, k - 1)))]
  }

  lemma {:induction false} ReadingsPrefix(o: Oracle, t: seq<Txn>, j: nat, k: nat)
    requires j <= k
    ensures Readings(o, t, k)[..j] == Readings(o, t, j)
    decreases k
  {
    var rs := Readings(o, t, k);
    if j < k {
      ReadingsPrefix(o, t, j, k - 1);
      var prev := Readings(o, t, k - 1);
      assert rs == prev + [rs[k - 1]];
      assert rs[..j] == prev[..j];
    } else {
      assert rs[..k] == rs;
    }
  }

  /** Reads the loop would have issued after it stopped do not matter. */
  lemma ReadsAfterStopIgnored(s0: Loop, o: Oracle, t: seq<Txn>, n: nat, steps: nat, hasQueue: bool, cap: nat)
    requires n <= steps && (n < steps ==> !Run(s0, Readings(o, t, n), hasQueue, cap).running)
    ensures Run(s0, Readings(o, t, steps), hasQueue, cap) == Run(s0, Readings(o, t, n), hasQueue, cap)
  {
    var rs := Readings(o, t, steps);
    ReadingsPrefix(o, t, n, steps);
    if n < steps {
      StoppedIsFinal(s0, rs, n, hasQueue, cap);
    } else {
      assert rs[..n] == rs;
    }
  }

  class SensorIntf {
    const driver: D.Driver
    var queue: Queue?
    /** sensorTaskHandle != NULL */
    var hasTask: bool
    var isRunning: bool
    var delays: seq<nat>

    ghost function QueueItems(): seq<Sample>
      reads this, queue
    {
      if queue == null then [] else queue.items
    }

    ghost function State(errors: nat): Loop
      reads this, queue
    {
      Loop(isRunning, errors, QueueItems(), delays)
    }

    constructor (driver: D.Driver)
      ensures this.driver == driver && queue == null && !hasTask && !isRunning && delays == []
    {
      this.driver := driver;
      queue, hasTask, isRunning, delays := null, false, false, [];
    }

    /** max30102IntfInit: NULL is refused before the driver is touched;
      otherwise the queue is stored and the driver init's result returned. */
    method Init(q: Queue?) returns (ret: Err)
      modifies this, driver, driver.bus, driver.platform
      ensures q == null ==>
        (ret == ERR_INVALID_ARG && queue == old(queue)
         && driver.bus.trace == old(driver.bus.trace) && driver.platform.log == old(driver.platform.log)
         && driver.delays == old(driver.delays))
      ensures q != null ==>
        (var r := D.InitFn(driver.platform.status, old(driver.platform.log), driver.bus.oracle, old(driver.bus.trace));
         queue == q && ret == r.status && driver.bus.trace == r.trace && driver.platform.log == r.log
         && driver.delays == old(driver.delays) + r.delays)
      ensures driver.Current() == old(driver.Current())
      ensures hasTask == old(hasTask) && isRunning == old(isRunning) && delays == old(delays)
    {
      if q == null {
        return ERR_INVALID_ARG;
      }
      queue := q;
      ret := driver.Init();
    }

    /** max30102IntfStart: FAIL while a task exists, FAIL when the interrupt
      re-init fails (the run flag untouched in both cases); otherwise the run
      flag is set and the result is whether the task could be created. */
    method Start(taskCreated: bool) returns (ret: Err)
      modifies this, driver.platform
      ensures old(hasTask) ==>
        (ret == FAIL && isRunning == old(isRunning) && hasTask && driver.platform.log == old(driver.platform.log))
      ensures !old(hasTask) ==> driver.platform.log == old(driver.platform.log) + [P.InterruptInit]
      ensures !old(hasTask) && driver.platform.status(|old(driver.platform.log)|) != OK ==>
        ret == FAIL && isRunning == old(isRunning) && !hasTask
      ensures !old(hasTask) && driver.platform.status(|old(driver.platform.log)|) == OK ==>
        isRunning && hasTask == taskCreated && (ret == OK <==> taskCreated)
      ensures queue == old(queue) && delays == old(delays)
    {
      if hasTask {
        return FAIL;
      }
      var r := driver.platform.InterruptInit();
      if r != OK {
        return FAIL;
      }
      isRunning := true;
      hasTask := taskCreated;
      ret := if taskCreated then OK else FAIL;
    }

    /** max30102IntfStop: clears the run flag, waits and deletes the task
      when one exists, and always de-initialises the interrupt. */
    method Stop()
      modifies this, driver.platform
      ensures !isRunning && !hasTask
      ensures delays == old(delays) + (if old(hasTask) then [STOP_WAIT_MS] else [])
      ensures driver.platform.log == old(driver.platform.log) + [P.InterruptDeinit]
      ensures queue == old(queue)
    {
      isRunning := false;
      if hasTask {
        delays := delays + [STOP_WAIT_MS];
        hasTask := false;
      }
      driver.platform.InterruptDeinit();
    }

    /** One pass of the polling loop: the 10 ms delay, one driver read and
      the three-way handling of its result. */
    method Iterate(box: SampleBox, errors: nat) returns (errors': nat)
      requires isRunning && (queue != null ==> queue.Valid())
      modifies this, queue, driver.bus, box
      ensures queue == old(queue) && (queue != null ==> queue.Valid()) && hasTask == old(hasTask)
      ensures var rd := ReadIfReadyFn(driver.bus.oracle, old(driver.bus.trace));
        && driver.bus.trace == rd.out.trace
        && State(errors') == Step(old(State(errors)), Observe(rd), queue != null,
                                  if queue == null then 0 else queue.capacity)
    {
      delays := delays + [POLL_DELAY_MS];
      var ret := driver.ReadSample(box);
      if ret == OK {
        errors' := 0;
        if queue != null {
          var _ := queue.Send(box.Value());
        }
      } else if ret == ERR_NOT_FOUND {
        errors' := errors;
      } else {
        errors' := errors + 1;
        if errors' >= MAX_ERRORS {
          isRunning := false;
        } else {
          delays := delays + [ERROR_BACKOFF_MS];
        }
      }
    }

    /** The polling loop of sensorTask, for at most `steps` iterations (the
      point at which another task clears the run flag). It returns how many
      reads it issued; the loop state is the spec loop over the outcomes of
      those reads. */
    method Poll(steps: nat) returns (n: nat, errors: nat)
      requires queue != null ==> queue.Valid()
      modifies this, queue, driver.bus
      ensures queue == old(queue) && (queue != null ==> queue.Valid())
      ensures hasTask == old(hasTask)
      ensures n <= steps && (n < steps ==> !isRunning)
      ensures driver.bus.trace == After(driver.bus.oracle, old(driver.bus.trace), n)
      ensures State(errors) == Run(old(State(0)), Readings(driver.bus.oracle, old(driver.bus.trace), steps),
                                   queue != null, if queue == null then 0 else queue.capacity)
    {
      ghost var o, t1 := driver.bus.oracle, driver.bus.trace;
      ghost var s0 := State(0);
      ghost var hasQueue := queue != null;
      ghost var cap := if queue == null then 0 else queue.capacity;
      var box := new SampleBox();
      n, errors := 0, 0;
      while isRunning && n < steps
        invariant n <= steps && queue == old(queue) && hasTask == old(hasTask)
        invariant queue != null ==> queue.Valid()
        invariant driver.bus.trace == After(o, t1, n)
        invariant State(errors) == Run(s0, Readings(o, t1, n), hasQueue, cap)
        decreases steps - n
      {
        ghost var rd := ReadIfReadyFn(o, driver.bus.trace);
        ghost var rs := Readings(o, t1, n);
        RunSnoc(s0, rs, Observe(rd), hasQueue, cap);
        assert Readings(o, t1, n + 1) == rs + [Observe(rd)];
        errors := Iterate(box, errors);
        assert After(o, t1, n + 1) == rd.out.trace;
        n := n + 1;
      }
      ReadsAfterStopIgnored(s0, o, t1, n, steps, hasQueue, cap);
    }

    /** sensorTask: starts the driver session with the infinite duration
      (aborting the program if that fails) and polls; it never stops the
      session. A second start of the task finds the session running and
      skips the re-initialisation. */
    method Task(steps: nat) returns (end: Checked, n: nat)
      requires queue != null ==> queue.Valid()
      modifies this, queue, driver, driver.bus
      ensures queue == old(queue) && (queue != null ==> queue.Valid())
      ensures old(driver.running) ==>
        (end == Returned(OK) && driver.Current() == old(driver.Current())
         && driver.bus.trace == After(driver.bus.oracle, old(driver.bus.trace), n))
      ensures !old(driver.running) ==>
        var boot := RunStages(driver.bus.oracle, old(driver.bus.trace), SensorInitStages + D.BootTail);
        (boot.status != OK ==> end == Aborted(boot.status) && driver.bus.trace == boot.trace)
        && (boot.status == OK ==>
              (end == Returned(OK)
               && driver.Current() == Started(old(driver.Current()), INFINITE, driver.tickRateHz, driver.timerOk(old(driver.created)))
               && driver.Current().timer == None
               && driver.bus.trace == After(driver.bus.oracle, boot.trace, n)))
      ensures end == Returned(OK) ==> driver.running && n <= steps && (n < steps ==> !isRunning)
      ensures driver.delays == old(driver.delays)
    {
      n := 0;
      end := driver.StartSession(INFINITE);
      if end != Returned(OK) {
        return;
      }
      InfiniteSessionHasNoTimer(old(driver.Current()), INFINITE, driver.tickRateHz, driver.timerOk(old(driver.created)));
      var errors;
      n, errors := Poll(steps);
    }
  }
}
