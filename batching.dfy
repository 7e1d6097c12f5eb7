/** The batching of the upload task (interface/upload_intf.c) as a function
    of the samples it receives: full batches of 400 in receive order, each
    packed into an abstract upload record. */
module Batching {
  import opened Types

  const BATCH_SIZE: nat := 400
  const USER_ID: string := "USER_1"
  const DEVICE_ID: string := "DEV_1"

  /** One element of the "samples" array: {"ir": .., "red": ..}. */
  datatype Item = Item(ir: bv32, red: bv32)

  /** The JSON document of one batch, as a record. */
  datatype Envelope = Envelope(userId: string, deviceId: string, timestamp: int, samples: seq<Item>)

  function Items(batch: seq<Sample>): (items: seq<Item>)
    ensures |items| == |batch|
    ensures forall i :: 0 <= i < |batch| ==> items[i] == Item(batch[i].ir, batch[i].red)
  {
    if batch == [] then [] else Items(batch[..|batch| - 1]) + [Item(batch[|batch| - 1].ir, batch[|batch| - 1].red)]
  }

  /** The document for a batch packed at time `now`. */
  function Pack(batch: seq<Sample>, now: int): Envelope {
    Envelope(USER_ID, DEVICE_ID, now, Items(batch))
  }

  /** The batches emitted so far and the samples waiting in the buffer. */
  datatype Batches = Batches(pending: seq<Sample>, full: seq<seq<Sample>>)

  /** The effect of receiving xs, one sample at a time: each sample is
      stored, and a full buffer is emitted as a batch and emptied. */
  function Collect(xs: seq<Sample>): Batches {
    if xs == [] then Batches([], [])
    else
      var b := Collect(xs[..|xs| - 1]);
      var p := b.pending + [xs[|xs| - 1]];
      if |p| >= BATCH_SIZE then Batches([], b.full + [p]) else Batches(p, b.full)
  }

  function Concat(bs: seq<seq<Sample>>): seq<Sample> {
    if bs == [] then [] else Concat(bs[..|bs| - 1]) + bs[|bs| - 1]
  }

  /** Receiving is a partition into batches: the batches followed by the
      buffer are exactly the received samples in order, every batch holds
      400 of them and the buffer fewer than 400, so a batch is emitted on
      each 400th sample and never otherwise. */
  lemma {:induction false} CollectPartitions(xs: seq<Sample>)
    ensures var b := Collect(xs);
      && Concat(b.full) + b.pending == xs
      && |b.pending| < BATCH_SIZE
      && (forall i :: 0 <= i < |b.full| ==> |b.full[i]| == BATCH_SIZE)
      && |xs| == BATCH_SIZE * |b.full| + |b.pending|
  {
    if xs != [] {
      var p, x := xs[..|xs| - 1], xs[|xs| - 1];
      CollectPartitions(p);
      var b := Collect(p);
      var q := b.pending + [x];
      assert xs == p + [x];
      if |q| >= BATCH_SIZE {
        var full := b.full + [q];
        assert full[..|full| - 1] == b.full;
        assert Concat(full) == Concat(b.full) + q;
      }
    }
  }

  /** The number of batches emitted is the number of whole 400-sample
      windows received. */
  lemma BatchCount(xs: seq<Sample>)
    ensures |Collect(xs).full| == |xs| / BATCH_SIZE
    ensures |Collect(xs).pending| == |xs| % BATCH_SIZE
  {
    CollectPartitions(xs);
  }

  /** The documents handed to the transport for batches k0, k0 + 1, ...:
      a batch is sent when its serialisation succeeded (ok(k)) and the
      network was ready, once, with the time read for it (clock(k)). */
  function Sent(bs: seq<seq<Sample>>, k0: nat, clock: nat -> int, ok: nat -> bool, connected: bool): seq<Envelope> {
    if bs == [] then []
    else
      var k := k0 + |bs| - 1;
      Sent(bs[..|bs| - 1], k0, clock, ok, connected) + (if ok(k) && connected then [Pack(bs[|bs| - 1], clock(k))] else [])
  }

  /** Packing one more batch hands it over exactly when it serialised and
      the network is ready. */
  lemma SentSnoc(bs: seq<seq<Sample>>, b: seq<Sample>, k0: nat, clock: nat -> int, ok: nat -> bool, connected: bool)
    ensures var k := k0 + |bs|;
      Sent(bs + [b], k0, clock, ok, connected) ==
        Sent(bs, k0, clock, ok, connected) + (if ok(k) && connected then [Pack(b, clock(k))] else [])
  {
    assert (bs + [b])[..|bs|] == bs;
  }

  /** At most one send per batch, none while the network is down, and one
      for every batch when serialisation never fails and the network is up,
      in batch order. */
  lemma {:induction false} SentPerBatch(bs: seq<seq<Sample>>, k0: nat, clock: nat -> int, ok: nat -> bool, connected: bool)
    ensures |Sent(bs, k0, clock, ok, connected)| <= |bs|
    ensures !connected ==> Sent(bs, k0, clock, ok, connected) == []
    ensures connected && (forall k :: k0 <= k < k0 + |bs| ==> ok(k)) ==>
      |Sent(bs, k0, clock, ok, connected)| == |bs|
      && forall i :: 0 <= i < |bs| ==> Sent(bs, k0, clock, ok, connected)[i] == Pack(bs[i], clock(k0 + i))
  {
    if bs != [] {
      SentPerBatch(bs[..|bs| - 1], k0, clock, ok, connected);
    }
  }
}
