/** The board bring-up calls the driver and the acquisition interface make
    besides register traffic (hal_i2c_init, interruptInit, interruptDeinit).
    Like the bus, the platform is an oracle: the status of the k-th call,
    with every call recorded in order. */
module Platform {
  import opened Esp

  datatype Call = I2cInit | InterruptInit | InterruptDeinit

  class Platform {
    /** The status the k-th platform call returns. */
    const status: nat -> Err
    var log: seq<Call>

    constructor (status: nat -> Err)
      ensures this.status == status && log == []
    {
      this.status := status;
      log := [];
    }

    /** hal_i2c_init. */
    method I2cInit() returns (ret: Err)
      modifies this
      ensures log == old(log) + [Call.I2cInit]
      ensures ret == status(|old(log)|)
    {
      ret := status(|log|);
      log := log + [Call.I2cInit];
    }

    /** interruptInit. */
    method InterruptInit() returns (ret: Err)
      modifies this
      ensures log == old(log) + [Call.InterruptInit]
      ensures ret == status(|old(log)|)
    {
      ret := status(|log|);
      log := log + [Call.InterruptInit];
    }

    /** interruptDeinit: no result. */
    method InterruptDeinit()
      modifies this
      ensures log == old(log) + [Call.InterruptDeinit]
    {
      log := log + [Call.InterruptDeinit];
    }
  }

  /** How many calls of kind c the log holds. */
  function Count(log: seq<Call>, c: Call): (n: nat)
    ensures n <= |log|
  {
    if log == [] then 0 else Count(log[..|log| - 1], c) + (if log[|log| - 1] == c then 1 else 0)
  }
}
