/** heartlinkTask (main.cpp): the endless loop that polls the cloud for a
    command, starts or stops the acquisition and upload interfaces, and
    waits 3 s or 5 s before the next poll. */
module App {
  import opened Esp
  import opened Types
  import opened Command
  import opened SampleQueue
  import opened WifiIntf
  import opened HttpClient
  import S = SensorIntf
  import opened UploadIntf
  import P = Platform

  /** What one poll leaves for the command handling: nothing when the
      network is down or the GET did not end in an open connection with a
      non-negative content length and status 200; otherwise the C string in
      rx_buffer, which holds the body's first bytes as read (at most
      RX_BUFFER_SIZE - 1 of them) followed by a NUL. */
  function Delivered(connected: bool, reply: Reply, chunks: nat -> int): (resp: Option<string>)
    ensures resp.Some? <==> connected && reply.Opened? && reply.contentLength >= 0 && reply.status == 200
    ensures resp.Some? ==> |resp.value| < RX_BUFFER_SIZE && '\0' !in resp.value && resp.value <= reply.body
  {
    if connected && reply.Opened? && reply.contentLength >= 0 && reply.status == 200 then
      var t := ReadTotal(chunks, 0, 0, RX_BUFFER_SIZE - 1, reply.contentLength, reply.body);
      Some(CString(reply.body[..t]))
    else None
  }

  /** A successful poll leaves in rx_buffer the body's first bytes, a NUL
      and whatever the buffer held after them; its C string is what the
      poll delivers. */
  lemma DeliveredInBuffer(reply: Reply, ch: nat -> int, before: seq<char>, after: seq<char>)
    requires reply.Opened? && reply.contentLength >= 0 && reply.status == 200
    requires |before| == RX_BUFFER_SIZE
    requires var t := ReadTotal(ch, 0, 0, RX_BUFFER_SIZE - 1, reply.contentLength, reply.body);
      after == reply.body[..t] + ['\0'] + before[t + 1..]
    ensures Delivered(true, reply, ch) == Some(CString(after))
  {
    var t := ReadTotal(ch, 0, 0, RX_BUFFER_SIZE - 1, reply.contentLength, reply.body);
    CStringAtNul(reply.body[..t], before[t + 1..]);
  }

  /** What n polls deliver, the first answered by the g0-th GET. */
  function Polls(connected: bool, get: nat -> Reply, chunks: nat -> nat -> int, g0: nat, n: nat): (rs: seq<Option<string>>)
    ensures |rs| == n
  {
    seq(n, i requires 0 <= i < n => Delivered(connected, get(g0 + i), chunks(g0 + i)))
  }

  lemma PollsSnoc(connected: bool, get: nat -> Reply, chunks: nat -> nat -> int, g0: nat, n: nat)
    ensures Polls(connected, get, chunks, g0, n + 1)
      == Polls(connected, get, chunks, g0, n) + [Delivered(connected, get(g0 + n), chunks(g0 + n))]
  {
    assert Polls(connected, get, chunks, g0, n + 1)[..n] == Polls(connected, get, chunks, g0, n);
  }

  /** The loop of Run after one more pass: the responses, the state and
      the delays of i polls, extended by the (i+1)-th poll's response, are
      those of i + 1 polls. */
  lemma PollAdvance(s0: SystemState, d0: seq<nat>, r0: seq<Option<string>>,
                    conn: bool, get: nat -> Reply, ch: nat -> nat -> int, g0: nat, i: nat,
                    g: nat, rs: seq<Option<string>>, st: SystemState, ds: seq<nat>,
                    rs': seq<Option<string>>, st': SystemState, ds': seq<nat>)
    requires var p := Polls(conn, get, ch, g0, i);
      rs == r0 + p && st == Machine(s0, p) && ds == d0 + Delays(s0, p)
    requires g == g0 + (if conn then i else 0)
    requires var resp := Delivered(conn, get(g), ch(g));
      rs' == rs + [resp] && st' == Next(st, resp) && ds' == ds + [PollDelay(st')]
    ensures var p := Polls(conn, get, ch, g0, i + 1);
      rs' == r0 + p && st' == Machine(s0, p) && ds' == d0 + Delays(s0, p)
  {
    var p := Polls(conn, get, ch, g0, i);
    var resp := Delivered(conn, get(g0 + i), ch(g0 + i));
    assert Delivered(conn, get(g), ch(g)) == resp by {
      if !conn {
        assert Delivered(conn, get(g), ch(g)) == None;
      }
    }
    PollsSnoc(conn, get, ch, g0, i);
    MachineSnoc(s0, p, resp);
    assert rs' == r0 + (p + [resp]);
    assert ds' == d0 + (Delays(s0, p) + [PollDelay(st')]);
  }

  /** While the network is down no poll delivers anything, so the state
      never changes and every delay is the idle 5 s (or 3 s while running). */
  lemma {:induction false} DisconnectedKeepsState(s: SystemState, get: nat -> Reply, chunks: nat -> nat -> int, g0: nat, n: nat)
    ensures Machine(s, Polls(false, get, chunks, g0, n)) == s
    ensures Delays(s, Polls(false, get, chunks, g0, n)) == seq(n, _ => PollDelay(s))
  {
    if n > 0 {
      var p := Polls(false, get, chunks, g0, n - 1);
      DisconnectedKeepsState(s, get, chunks, g0, n - 1);
      PollsSnoc(false, get, chunks, g0, n - 1);
      MachineSnoc(s, p, None);
      assert seq(n, _ => PollDelay(s)) == seq(n - 1, _ => PollDelay(s)) + [PollDelay(s)];
    }
  }

  class HeartLink {
    const wifi: Wifi
    const sensor: S.SensorIntf
    const upload: Upload
    /** sensorDataQueue, null until setup() created it */
    const queue: Queue?
    /** whether xTaskCreate succeeds for the acquisition and the upload task
      when the pass numbered k starts them */
    const sensorSpawn: nat -> bool
    const uploadSpawn: nat -> bool
    /** currentState */
    var state: SystemState
    /** passes of the loop so far */
    var passes: nat
    /** the vTaskDelay calls of the loop, in milliseconds */
    var delays: seq<nat>
    /** what each poll delivered: None when wifiIntfCheckCommand returned
      false, otherwise the C string left in rx_buffer */
    ghost var responses: seq<Option<string>>

    constructor (wifi: Wifi, sensor: S.SensorIntf, upload: Upload, queue: Queue?,
                 sensorSpawn: nat -> bool, uploadSpawn: nat -> bool)
      ensures this.wifi == wifi && this.sensor == sensor && this.upload == upload && this.queue == queue
      ensures this.sensorSpawn == sensorSpawn && this.uploadSpawn == uploadSpawn
      ensures state == Idle && passes == 0 && delays == [] && responses == []
    {
      this.wifi, this.sensor, this.upload, this.queue := wifi, sensor, upload, queue;
      this.sensorSpawn, this.uploadSpawn := sensorSpawn, uploadSpawn;
      state, passes, delays, responses := Idle, 0, [], [];
    }

    /** The command handling of one pass, for a poll that delivered `text`:
      the start token is tested first, and each command acts only in the
      state it applies to. */
    method Dispatch(text: string)
      modifies this, sensor, sensor.driver.platform, upload, queue
      ensures state == Next(old(state), Some(text))
      ensures passes == old(passes) && delays == old(delays) && responses == old(responses)
      ensures old(state) == Idle && state == Running ==>
        (&& (!old(sensor.hasTask) && sensor.driver.platform.status(|old(sensor.driver.platform.log)|) == OK ==>
               sensor.isRunning && sensor.hasTask == sensorSpawn(passes))
         && (!old(upload.hasTask) ==> upload.isUploadRunning && upload.hasTask == uploadSpawn(passes)))
      ensures old(state) == Running && state == Idle ==>
        (&& !sensor.isRunning && !sensor.hasTask && !upload.isUploadRunning && !upload.hasTask
         && (queue != null ==> queue.items == []))
      ensures state == old(state) ==>
        (&& sensor.isRunning == old(sensor.isRunning) && sensor.hasTask == old(sensor.hasTask)
         && upload.isUploadRunning == old(upload.isUploadRunning) && upload.hasTask == old(upload.hasTask)
         && (queue != null ==> queue.items == old(queue.items))
         && sensor.driver.platform.log == old(sensor.driver.platform.log)
         && sensor.delays == old(sensor.delays) && upload.delays == old(upload.delays))
    {
      if Contains(text, START_TOKEN) {
        if state == Idle {
          var _ := sensor.Start(sensorSpawn(passes));
          var _ := upload.Start(uploadSpawn(passes));
          state := Running;
        }
      } else if Contains(text, STOP_TOKEN) {
        if state == Running {
          sensor.Stop();
          upload.Stop();
          if queue != null {
            queue.Reset();
          }
          state := Idle;
        }
      }
    }

    /** One pass of the loop with rx_buffer as given: the poll, the command
      it carries, and the delay chosen by the resulting state. */
    method Step(rx: array<char>)
      requires rx.Length == RX_BUFFER_SIZE
      modifies this, wifi.client, rx, sensor, sensor.driver.platform, upload, queue
      ensures var resp := Delivered(wifi.connected, wifi.client.get(old(wifi.client.gets)), wifi.client.chunks(old(wifi.client.gets)));
        && responses == old(responses) + [resp]
        && (resp.Some? ==> resp.value == CString(rx[..]))
        && state == Next(old(state), resp)
        && delays == old(delays) + [PollDelay(state)]
      ensures wifi.client.gets == old(wifi.client.gets) + (if wifi.connected then 1 else 0)
      ensures wifi.client.posts == old(wifi.client.posts) && wifi.client.delays == old(wifi.client.delays)
      ensures passes == old(passes) + 1
      ensures old(state) == Idle && state == Running ==>
        (var k := old(passes);
         && (!old(sensor.hasTask) && sensor.driver.platform.status(|old(sensor.driver.platform.log)|) == OK ==>
               sensor.isRunning && sensor.hasTask == sensorSpawn(k))
         && (!old(upload.hasTask) ==> upload.isUploadRunning && upload.hasTask == uploadSpawn(k)))
      ensures old(state) == Running && state == Idle ==>
        (&& !sensor.isRunning && !sensor.hasTask && !upload.isUploadRunning && !upload.hasTask
         && (queue != null ==> queue.items == []))
      ensures state == old(state) ==>
        (&& sensor.isRunning == old(sensor.isRunning) && sensor.hasTask == old(sensor.hasTask)
         && upload.isUploadRunning == old(upload.isUploadRunning) && upload.hasTask == old(upload.hasTask)
         && (queue != null ==> queue.items == old(queue.items))
         && sensor.driver.platform.log == old(sensor.driver.platform.log)
         && sensor.delays == old(sensor.delays) && upload.delays == old(upload.delays))
    {
      ghost var g, before := wifi.client.gets, rx[..];
      var ok := wifi.CheckCommand(rx);
      ghost var resp: Option<string> := None;
      if ok {
        var text := CString(rx[..]);
        DeliveredInBuffer(wifi.client.get(g), wifi.client.chunks(g), before, rx[..]);
        resp := Some(text);
        Dispatch(text);
      }
      assert resp == Delivered(wifi.connected, wifi.client.get(g), wifi.client.chunks(g));
      responses := responses + [resp];
      delays := delays + [PollDelay(state)];
      passes := passes + 1;
    }

    /** The first `polls` passes of the loop (the firmware never leaves it). */
    method Run(polls: nat)
      modifies this, wifi.client, sensor, sensor.driver.platform, upload, queue
      ensures passes == old(passes) + polls
      ensures var rs := Polls(wifi.connected, wifi.client.get, wifi.client.chunks, old(wifi.client.gets), polls);
        && responses == old(responses) + rs
        && state == Machine(old(state), rs)
        && delays == old(delays) + Delays(old(state), rs)
      ensures wifi.client.gets == old(wifi.client.gets) + (if wifi.connected then polls else 0)
      ensures wifi.client.posts == old(wifi.client.posts) && wifi.client.delays == old(wifi.client.delays)
      ensures old(state) != Butt ==> state != Butt
    {
      var rx := new char[RX_BUFFER_SIZE];
      ghost var r0 := responses;
      ghost var s0 := state;
      ghost var d0 := delays;
      ghost var g0, conn, get, ch := wifi.client.gets, wifi.connected, wifi.client.get, wifi.client.chunks;
      var i := 0;
      while i < polls
        invariant 0 <= i <= polls && passes == old(passes) + i
        invariant responses == r0 + Polls(conn, get, ch, g0, i)
        invariant state == Machine(s0, Polls(conn, get, ch, g0, i))
        invariant delays == d0 + Delays(s0, Polls(conn, get, ch, g0, i))
        invariant rx.Length == RX_BUFFER_SIZE
        invariant wifi.client.gets == g0 + (if conn then i else 0)
        invariant wifi.client.posts == old(wifi.client.posts) && wifi.client.delays == old(wifi.client.delays)
      {
        ghost var g, rs, st, ds := wifi.client.gets, responses, state, delays;
        Step(rx);
        PollAdvance(s0, d0, r0, conn, get, ch, g0, i, g, rs, st, ds, responses, state, delays);
        i := i + 1;
      }
      if s0 != Butt {
        NeverButt(s0, Polls(conn, get, ch, g0, polls));
      }
    }
  }
}
