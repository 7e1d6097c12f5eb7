/** The upload interface (interface/upload_intf.c): the module variables
    sourceQueueHandle, uploadTaskHandle and isUploadRunning become fields of
    `Upload`, the task body is `Task`, and batchBuffer is an array of 400
    samples filled through `count`. The time read for each batch and whether
    its serialisation succeeds are oracles indexed by batch number. */
module UploadIntf {
  import opened Esp
  import opened Types
  import opened SampleQueue
  import opened Batching
  import opened HttpClient
  import opened WifiIntf
  import TransportHttp

  /** Settling delay at the start of the task. */
  const START_DELAY_MS: nat := 2000
  /** Wait in uploadIntfStop before the task is deleted. */
  const STOP_WAIT_MS: nat := 50

  /** The HTTP client's attempt counter and the delays it has slept. */
  datatype Uploaded = Uploaded(posts: nat, delays: seq<nat>)

  /** The client after one more full batch: one transportHttpSend call
      (httpPostJson with HTTP_RETRY_MAX attempts) when the batch was sent,
      no change otherwise. */
  function UploadStep(att: nat -> Attempt, u: Uploaded, sent: bool): Uploaded {
    if sent then
      var r := PostFn(att, u.posts, TransportHttp.HTTP_RETRY_MAX);
      Uploaded(u.posts + r.used, u.delays + r.delays)
    else u
  }

  /** The client after m uploads, the first made at attempt k0. */
  function Uploads(att: nat -> Attempt, k0: nat, m: nat): Uploaded {
    if m == 0 then Uploaded(k0, []) else UploadStep(att, Uploads(att, k0, m - 1), true)
  }

  /** Every upload makes between one and HTTP_RETRY_MAX attempts and sleeps
      fewer times than it attempts. */
  lemma {:induction false} UploadsBounds(att: nat -> Attempt, k0: nat, m: nat)
    ensures var u := Uploads(att, k0, m);
      && k0 + m <= u.posts <= k0 + 3 * m
      && |u.delays| <= u.posts - k0 - m
  {
    if m > 0 {
      UploadsBounds(att, k0, m - 1);
      PostUsesAttempts(att, Uploads(att, k0, m - 1).posts, TransportHttp.HTTP_RETRY_MAX);
    }
  }

  /** When every attempt is answered with a 2xx status, each upload takes
      exactly one attempt and the client never sleeps. */
  lemma {:induction false} UploadsOnFirstTry(att: nat -> Attempt, k0: nat, m: nat)
    requires forall k :: k0 <= k ==> Succeeded(att(k))
    ensures Uploads(att, k0, m) == Uploaded(k0 + m, [])
  {
    if m > 0 {
      UploadsOnFirstTry(att, k0, m - 1);
      PostPolicy(att, k0 + m - 1, TransportHttp.HTTP_RETRY_MAX);
      assert FirstSuccess(att, k0 + m - 1, TransportHttp.HTTP_RETRY_MAX, 0) == 0;
    }
  }

  /** The client has made the attempts and slept the delays of m uploads
      begun at attempt c0, on top of the delays d0 it had slept before. */
  ghost predicate HasUploaded(c: Client, c0: nat, d0: seq<nat>, m: nat)
    reads c
  {
    var u := Uploads(c.post, c0, m);
    c.posts == u.posts && c.delays == d0 + u.delays
  }

  /** A client state that is m uploads past (c0, d0) is, after one more
      batch, m + 1 uploads past it if the batch was sent and m otherwise. */
  lemma UploadsAdvance(att: nat -> Attempt, c0: nat, d0: seq<nat>, m: nat, u: Uploaded, sent: bool)
    requires u.posts == Uploads(att, c0, m).posts && u.delays == d0 + Uploads(att, c0, m).delays
    ensures var u' := UploadStep(att, u, sent);
      var n := Uploads(att, c0, if sent then m + 1 else m);
      u'.posts == n.posts && u'.delays == d0 + n.delays
  {
    if sent {
      var r := PostFn(att, u.posts, TransportHttp.HTTP_RETRY_MAX);
      assert d0 + Uploads(att, c0, m).delays + r.delays == d0 + (Uploads(att, c0, m).delays + r.delays);
    }
  }

  class Upload {
    const wifi: Wifi
    /** time() when the k-th batch is packed. */
    const clock: nat -> int
    /** Whether cJSON_PrintUnformatted succeeds for the k-th batch. */
    const printOk: nat -> bool
    var source: Queue?
    /** uploadTaskHandle != NULL */
    var hasTask: bool
    var isUploadRunning: bool
    var delays: seq<nat>
    /** Batches packed so far. */
    var packed: nat
    /** The documents handed to transportHttpSend, in order. */
    var posted: seq<Envelope>

    constructor (wifi: Wifi, clock: nat -> int, printOk: nat -> bool)
      ensures this.wifi == wifi && this.clock == clock && this.printOk == printOk
      ensures source == null && !hasTask && !isUploadRunning && delays == [] && packed == 0 && posted == []
    {
      this.wifi, this.clock, this.printOk := wifi, clock, printOk;
      source, hasTask, isUploadRunning, delays, packed, posted := null, false, false, [], 0, [];
    }

    /** uploadIntfInit: NULL is refused; otherwise the queue is stored. */
    method Init(q: Queue?) returns (ret: Err)
      modifies this
      ensures q == null ==> ret == ERR_INVALID_ARG && source == old(source)
      ensures q != null ==> ret == OK && source == q
      ensures hasTask == old(hasTask) && isUploadRunning == old(isUploadRunning)
      ensures delays == old(delays) && packed == old(packed) && posted == old(posted)
    {
      if q == null {
        return ERR_INVALID_ARG;
      }
      source := q;
      return OK;
    }

    /** uploadIntfStart: FAIL while a task exists; otherwise the run flag is
      set and the result is whether the task could be created. */
    method Start(taskCreated: bool) returns (ret: Err)
      modifies this
      ensures old(hasTask) ==> ret == FAIL && hasTask && isUploadRunning == old(isUploadRunning)
      ensures !old(hasTask) ==> isUploadRunning && hasTask == taskCreated && (ret == OK <==> taskCreated)
      ensures ret == OK || ret == FAIL
      ensures source == old(source) && delays == old(delays) && packed == old(packed) && posted == old(posted)
    {
      if hasTask {
        return FAIL;
      }
      isUploadRunning := true;
      hasTask := taskCreated;
      ret := if taskCreated then OK else FAIL;
    }

    /** uploadIntfStop: clears the run flag, and waits and deletes the task
      when one exists. */
    method Stop()
      modifies this
      ensures !isUploadRunning && !hasTask
      ensures delays == old(delays) + (if old(hasTask) then [STOP_WAIT_MS] else [])
      ensures source == old(source) && packed == old(packed) && posted == old(posted)
    {
      isUploadRunning := false;
      if hasTask {
        delays := delays + [STOP_WAIT_MS];
        hasTask := false;
      }
    }

    /** Store one received sample; on the 400th, pack the batch, send it if
      it serialised and the network is ready, and empty the buffer whatever
      happened. The client makes one transportHttpSend call exactly when a
      document is posted. */
    method Store(buf: array<Sample>, count: nat, x: Sample, ghost got: seq<Sample>, ghost k0: nat, ghost p0: seq<Envelope>)
      returns (count': nat)
      requires buf.Length == BATCH_SIZE && count < BATCH_SIZE
      requires buf[..count] == Collect(got).pending
      requires packed == k0 + |Collect(got).full|
      requires posted == p0 + Sent(Collect(got).full, k0, clock, printOk, wifi.networkReady)
      modifies this, buf, wifi.client
      ensures count' < BATCH_SIZE && buf[..count'] == Collect(got + [x]).pending
      ensures packed == k0 + |Collect(got + [x]).full|
      ensures posted == p0 + Sent(Collect(got + [x]).full, k0, clock, printOk, wifi.networkReady)
      ensures |old(posted)| <= |posted| <= |old(posted)| + 1
      ensures Uploaded(wifi.client.posts, wifi.client.delays)
        == UploadStep(wifi.client.post, Uploaded(old(wifi.client.posts), old(wifi.client.delays)), |posted| > |old(posted)|)
      ensures wifi.client.gets == old(wifi.client.gets)
      ensures source == old(source) && hasTask == old(hasTask) && isUploadRunning == old(isUploadRunning)
      ensures delays == old(delays)
    {
      ghost var b := Collect(got);
      ghost var got' := got + [x];
      assert got'[..|got'| - 1] == got;
      buf[count] := x;
      count' := count + 1;
      assert buf[..count'] == b.pending + [x];
      if count' >= BATCH_SIZE {
        SentSnoc(b.full, buf[..count'], k0, clock, printOk, wifi.networkReady);
        Flush(buf[..count']);
        count' := 0;
      }
    }

    /** A full batch: packed with the current time, and handed to the
      transport (one httpPostJson call of HTTP_RETRY_MAX attempts) exactly
      when it serialised and the network is ready. */
    method Flush(batch: seq<Sample>)
      modifies this, wifi.client
      ensures packed == old(packed) + 1
      ensures var sent := printOk(old(packed)) && wifi.networkReady;
        && posted == old(posted) + (if sent then [Pack(batch, clock(old(packed)))] else [])
        && Uploaded(wifi.client.posts, wifi.client.delays)
           == UploadStep(wifi.client.post, Uploaded(old(wifi.client.posts), old(wifi.client.delays)), sent)
      ensures wifi.client.gets == old(wifi.client.gets)
      ensures source == old(source) && hasTask == old(hasTask) && isUploadRunning == old(isUploadRunning)
      ensures delays == old(delays)
    {
      var now := clock(packed);
      var env := Pack(batch, now);
      if printOk(packed) {
        var up := wifi.IsConnected();
        if up {
          var _ := TransportHttp.Send(wifi.client);
          posted := posted + [env];
        }
      }
      packed := packed + 1;
    }

    /** One pass of the upload loop: receive one sample if the queue holds
      one and store it. */
    method Pass(buf: array<Sample>, count: nat, ghost got: seq<Sample>, ghost k0: nat, ghost p0: seq<Envelope>)
      returns (count': nat, ghost got': seq<Sample>)
      requires source != null && source.Valid()
      requires buf.Length == BATCH_SIZE && count < BATCH_SIZE
      requires buf[..count] == Collect(got).pending
      requires packed == k0 + |Collect(got).full|
      requires posted == p0 + Sent(Collect(got).full, k0, clock, printOk, wifi.networkReady)
      modifies this, source, buf, wifi.client
      ensures source == old(source) && source.Valid()
      ensures got + old(source.items) == got' + source.items
      ensures |got'| == |got| + (if old(source.items) == [] then 0 else 1)
      ensures count' < BATCH_SIZE && buf[..count'] == Collect(got').pending
      ensures packed == k0 + |Collect(got').full|
      ensures posted == p0 + Sent(Collect(got').full, k0, clock, printOk, wifi.networkReady)
      ensures |old(posted)| <= |posted| <= |old(posted)| + 1
      ensures Uploaded(wifi.client.posts, wifi.client.delays)
        == UploadStep(wifi.client.post, Uploaded(old(wifi.client.posts), old(wifi.client.delays)), |posted| > |old(posted)|)
      ensures wifi.client.gets == old(wifi.client.gets)
      ensures delays == old(delays) && hasTask == old(hasTask) && isUploadRunning == old(isUploadRunning)
    {
      ghost var items := source.items;
      var r := source.Receive();
      count', got' := count, got;
      if r.Some? {
        count' := Store(buf, count, r.value, got, k0, p0);
        got' := got + [r.value];
        assert items == [r.value] + source.items;
      }
    }

    /** uploadTask for `steps` passes of its loop (the point at which another
      task clears the run flag). Each pass takes one sample from the queue
      if there is one; an empty queue is a receive timeout and changes
      nothing. Every posted document is one transportHttpSend call. */
    method Task(steps: nat)
      requires source != null && source.Valid()
      modifies this, source, wifi.client
      ensures source == old(source) && source.Valid()
      ensures var q0 := old(source.items);
        var m := if !old(isUploadRunning) then 0 else if steps < |q0| then steps else |q0|;
        var b := Collect(q0[..m]);
        && source.items == q0[m..]
        && packed == old(packed) + |b.full|
        && posted == old(posted) + Sent(b.full, old(packed), clock, printOk, wifi.networkReady)
      ensures HasUploaded(wifi.client, old(wifi.client.posts), old(wifi.client.delays), |posted| - |old(posted)|)
      ensures wifi.client.gets == old(wifi.client.gets)
      ensures delays == old(delays) + [START_DELAY_MS]
      ensures hasTask == old(hasTask) && isUploadRunning == old(isUploadRunning)
    {
      ghost var q0, k0, p0 := source.items, packed, posted;
      ghost var c0, d0 := wifi.client.posts, wifi.client.delays;
      delays := delays + [START_DELAY_MS];
      var buf := new Sample[BATCH_SIZE];
      var count: nat := 0;
      ghost var got: seq<Sample> := [];
      var i := 0;
      while isUploadRunning && i < steps
        invariant i <= steps && source == old(source) && source.Valid()
        invariant !isUploadRunning ==> i == 0
        invariant |got| == (if i < |q0| then i else |q0|) && q0 == got + source.items
        invariant count < BATCH_SIZE && buf[..count] == Collect(got).pending
        invariant packed == k0 + |Collect(got).full|
        invariant posted == p0 + Sent(Collect(got).full, k0, clock, printOk, wifi.networkReady)
        invariant HasUploaded(wifi.client, c0, d0, |posted| - |p0|)
        invariant wifi.client.gets == old(wifi.client.gets)
        invariant delays == old(delays) + [START_DELAY_MS]
        invariant hasTask == old(hasTask) && isUploadRunning == old(isUploadRunning)
        decreases steps - i
      {
        ghost var u := Uploaded(wifi.client.posts, wifi.client.delays);
        ghost var m := |posted| - |p0|;
        count, got := Pass(buf, count, got, k0, p0);
        ghost var sent := |posted| > |p0| + m;
        UploadsAdvance(wifi.client.post, c0, d0, m, u, sent);
        assert |posted| - |p0| == if sent then m + 1 else m;
        assert Uploaded(wifi.client.posts, wifi.client.delays) == UploadStep(wifi.client.post, u, sent);
        i := i + 1;
      }
      assert q0[..|got|] == got && q0[|got|..] == source.items;
    }
  }
}
