/** The I2C bus, an external collaborator (hal_i2c_write / hal_i2c_read).
    The device's behaviour is an oracle: the status of the i-th transaction on
    the bus, and the j-th byte a read transaction i returns. The bus records
    every transaction it carries, in order. */
module I2c {
  import opened Esp

  datatype Txn = Write(dev: bv8, bytes: seq<bv8>) | Read(dev: bv8, len: nat)

  datatype Oracle = Oracle(status: nat -> Err, data: (nat, nat) -> bv8)

  /** The bytes read transaction number i delivers when asked for len bytes. */
  function Answer(o: Oracle, i: nat, len: nat): (r: seq<bv8>)
    ensures |r| == len
    ensures forall j :: 0 <= j < len ==> r[j] == o.data(i, j)
  {
    seq(len, j requires 0 <= j => o.data(i, j))
  }

  class Bus {
    const oracle: Oracle
    var trace: seq<Txn>

    constructor (o: Oracle)
      ensures oracle == o && trace == []
    {
      oracle := o;
      trace := [];
    }

    /** hal_i2c_write: one write transaction carrying `bytes`. */
    method Write(dev: bv8, bytes: seq<bv8>) returns (st: Err)
      modifies this
      ensures trace == old(trace) + [Txn.Write(dev, bytes)]
      ensures st == oracle.status(|old(trace)|)
    {
      st := oracle.status(|trace|);
      trace := trace + [Txn.Write(dev, bytes)];
    }

    /** hal_i2c_read: one read transaction of `len` bytes into `buf`. The
        buffer is filled only when the transaction succeeds. */
    method Read(dev: bv8, buf: array<bv8>, len: nat) returns (st: Err)
      requires len <= buf.Length
      modifies this, buf
      ensures trace == old(trace) + [Txn.Read(dev, len)]
      ensures st == oracle.status(|old(trace)|)
      ensures st == OK ==> buf[..len] == Answer(oracle, |old(trace)|, len)
      ensures st == OK ==> buf[len..] == old(buf[len..])
      ensures st != OK ==> buf[..] == old(buf[..])
    {
      var i := |trace|;
      st := oracle.status(i);
      if st == OK {
        forall j | 0 <= j < len {
          buf[j] := oracle.data(i, j);
        }
      }
      trace := trace + [Txn.Read(dev, len)];
    }
  }
}
