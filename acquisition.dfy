/** The polling loop of the acquisition task (sensorTask in
    interface/max30102_intf.c) as a function of the read outcomes it sees:
    a consecutive-error counter with threshold 5, a three-way read outcome,
    and a non-blocking push into the bounded sample queue. */
module Acquisition {
  import opened Esp
  import opened Types

  const MAX_ERRORS: nat := 5
  /** Delay before every read (100 Hz polling). */
  const POLL_DELAY_MS: nat := 10
  /** Back-off after a failed read that does not end the loop. */
  const ERROR_BACKOFF_MS: nat := 50

  /** What one max30102ReadSample call returned: a sample (ESP_OK), no new
      sample (ESP_ERR_NOT_FOUND), or any other error code. */
  datatype Reading = Got(sample: Sample) | NotReady | Failed(code: Err)

  /** The loop's state: the run flag, the consecutive-error counter, the
      queue contents and the delays taken so far. */
  datatype Loop = Loop(running: bool, errors: nat, queue: seq<Sample>, delays: seq<nat>)

  /** One iteration of `while (isRunning)`. With no queue handle a sample is
      read but not pushed; with a full queue it is dropped. */
  function Step(s: Loop, r: Reading, hasQueue: bool, cap: nat): Loop {
    var s1 := s.(delays := s.delays + [POLL_DELAY_MS]);
    match r
    case Got(x) =>
      s1.(errors := 0, queue := if hasQueue && |s.queue| < cap then s.queue + [x] else s.queue)
    case NotReady => s1
    case Failed(_) =>
      if s.errors + 1 >= MAX_ERRORS then s1.(errors := s.errors + 1, running := false)
      else s1.(errors := s.errors + 1, delays := s1.delays + [ERROR_BACKOFF_MS])
  }

  /** The loop over the readings `rs`, one iteration per reading while the
      run flag holds; readings after the loop has ended are never taken. */
  function Run(s0: Loop, rs: seq<Reading>, hasQueue: bool, cap: nat): Loop {
    if rs == [] then s0
    else
      var s := Run(s0, rs[..|rs| - 1], hasQueue, cap);
      if !s.running then s else Step(s, rs[|rs| - 1], hasQueue, cap)
  }

  lemma RunSnoc(s0: Loop, p: seq<Reading>, r: Reading, hasQueue: bool, cap: nat)
    ensures Run(s0, p + [r], hasQueue, cap) ==
      var s := Run(s0, p, hasQueue, cap);
      if !s.running then s else Step(s, r, hasQueue, cap)
  {
    assert (p + [r])[..|p|] == p;
  }

  /** Index just after the last successful read in `rs`, 0 if none. */
  function LastGot(rs: seq<Reading>): (k: nat)
    ensures k <= |rs|
  {
    if rs == [] then 0 else if rs[|rs| - 1].Got? then |rs| else LastGot(rs[..|rs| - 1])
  }

  /** Number of failed reads in `rs`. */
  function Failures(rs: seq<Reading>): (n: nat)
    ensures n <= |rs|
  {
    if rs == [] then 0 else Failures(rs[..|rs| - 1]) + (if rs[|rs| - 1].Failed? then 1 else 0)
  }

  /** The current run of failures: the failures since the last successful
      read, on top of `e0` when no read has succeeded yet. NOT_FOUND
      outcomes neither count nor break the run. */
  function Streak(e0: nat, rs: seq<Reading>): nat {
    if LastGot(rs) == 0 then e0 + Failures(rs) else Failures(rs[LastGot(rs)..])
  }

  /** The samples of the successful reads in `rs`, in order. */
  function Samples(rs: seq<Reading>): (xs: seq<Sample>)
    ensures |xs| <= |rs|
  {
    if rs == [] then []
    else Samples(rs[..|rs| - 1]) + (if rs[|rs| - 1].Got? then [rs[|rs| - 1].sample] else [])
  }

  /** What a queue holding `q` keeps of the pushes `xs` when every push is
      non-blocking (xQueueSend with timeout 0): the oldest pushes, up to the
      free room; every push made while the queue is full is dropped. */
  function Accepted(q: seq<Sample>, xs: seq<Sample>, cap: nat): seq<Sample>
    requires |q| <= cap
  {
    q + xs[..if |xs| <= cap - |q| then |xs| else cap - |q|]
  }

  /** The delays the loop takes over `rs` while it keeps running: 10 ms
      before every read, and the 50 ms back-off after every failed read. */
  function DelaysOf(rs: seq<Reading>): (d: seq<nat>)
    ensures |d| == |rs| + Failures(rs)
  {
    if rs == [] then []
    else DelaysOf(rs[..|rs| - 1]) + (if rs[|rs| - 1].Failed? then [POLL_DELAY_MS, ERROR_BACKOFF_MS] else [POLL_DELAY_MS])
  }

  lemma StreakSnoc(e0: nat, rs: seq<Reading>, r: Reading)
    ensures Streak(e0, rs + [r]) ==
      match r
      case Got(_) => 0
      case NotReady => Streak(e0, rs)
      case Failed(_) => Streak(e0, rs) + 1
  {
    var rs' := rs + [r];
    assert rs'[..|rs'| - 1] == rs;
    if !r.Got? {
      var k := LastGot(rs);
      assert rs'[k..][..|rs'[k..]| - 1] == rs[k..];
    } else {
      assert rs'[|rs'|..] == [];
    }
  }

  /** While the loop runs, its counter is the current run of failures and
      stays below 5. */
  lemma {:induction false} ErrorCounterIsStreak(s0: Loop, rs: seq<Reading>, hasQueue: bool, cap: nat)
    requires s0.running && s0.errors < MAX_ERRORS
    ensures Run(s0, rs, hasQueue, cap).running ==>
      Run(s0, rs, hasQueue, cap).errors == Streak(s0.errors, rs) < MAX_ERRORS
  {
    if rs != [] {
      var p, r := rs[..|rs| - 1], rs[|rs| - 1];
      assert rs == p + [r];
      ErrorCounterIsStreak(s0, p, hasQueue, cap);
      StreakSnoc(s0.errors, p, r);
    }
  }

  /** Every prefix of the readings has a failure run below 5. */
  ghost predicate StreaksBelowLimit(e0: nat, rs: seq<Reading>) {
    forall k :: 0 <= k <= |rs| ==> Streak(e0, rs[..k]) < MAX_ERRORS
  }

  lemma StreaksBelowLimitSnoc(e0: nat, p: seq<Reading>, r: Reading)
    ensures StreaksBelowLimit(e0, p + [r]) <==> StreaksBelowLimit(e0, p) && Streak(e0, p + [r]) < MAX_ERRORS
  {
    var rs := p + [r];
    assert rs[..|rs|] == rs;
    forall k | 0 <= k <= |p|
      ensures rs[..k] == p[..k]
    {
    }
  }

  /** The loop has stopped exactly when some prefix of the readings reached
      a run of 5 failures. */
  lemma {:induction false} StopsOnFifthFailure(s0: Loop, rs: seq<Reading>, hasQueue: bool, cap: nat)
    requires s0.running && s0.errors < MAX_ERRORS
    ensures Run(s0, rs, hasQueue, cap).running <==> StreaksBelowLimit(s0.errors, rs)
  {
    if rs == [] {
      assert rs[..0] == rs;
    } else {
      var p, r := rs[..|rs| - 1], rs[|rs| - 1];
      assert rs == p + [r];
      StopsOnFifthFailure(s0, p, hasQueue, cap);
      ErrorCounterIsStreak(s0, p, hasQueue, cap);
      StreakSnoc(s0.errors, p, r);
      StreaksBelowLimitSnoc(s0.errors, p, r);
    }
  }

  /** Once the loop has ended, later readings change nothing. */
  lemma {:induction false} StoppedIsFinal(s0: Loop, rs: seq<Reading>, j: nat, hasQueue: bool, cap: nat)
    requires j <= |rs| && !Run(s0, rs[..j], hasQueue, cap).running
    ensures Run(s0, rs, hasQueue, cap) == Run(s0, rs[..j], hasQueue, cap)
    decreases |rs| - j
  {
    if j < |rs| {
      var p := rs[..|rs| - 1];
      assert p[..j] == rs[..j];
      StoppedIsFinal(s0, p, j, hasQueue, cap);
    } else {
      assert rs[..j] == rs;
    }
  }

  /** The queue only grows at its end and never beyond its capacity;
      without a queue handle it is untouched; while the loop runs it holds
      the oldest read samples that fitted, in read order: a sample read while
      the queue is full is the one dropped. */
  lemma {:induction false} QueueContents(s0: Loop, rs: seq<Reading>, hasQueue: bool, cap: nat)
    requires |s0.queue| <= cap
    ensures var s := Run(s0, rs, hasQueue, cap);
      && s0.queue <= s.queue
      && |s.queue| <= cap
      && (!hasQueue ==> s.queue == s0.queue)
      && (hasQueue && s.running ==> s.queue == Accepted(s0.queue, Samples(rs), cap))
      && (hasQueue && s.running && |s0.queue| + |Samples(rs)| <= cap ==> s.queue == s0.queue + Samples(rs))
  {
    if rs != [] {
      var p, r := rs[..|rs| - 1], rs[|rs| - 1];
      QueueContents(s0, p, hasQueue, cap);
      var s := Run(s0, p, hasQueue, cap);
      if s.running && r.Got? && hasQueue {
        var xs := Samples(p);
        assert Samples(rs) == xs + [r.sample];
        if |s.queue| < cap {
          assert xs[..|xs|] == xs;
          assert (xs + [r.sample])[..|xs| + 1] == xs + [r.sample];
        } else {
          assert (xs + [r.sample])[..cap - |s0.queue|] == xs[..cap - |s0.queue|];
        }
      }
    }
  }

  /** Delays already taken are kept; while the loop runs it has taken the
      10 ms poll delay before every read and the 50 ms back-off after every
      failed read, in order. */
  lemma {:induction false} DelaysRecorded(s0: Loop, rs: seq<Reading>, hasQueue: bool, cap: nat)
    requires s0.running && s0.errors < MAX_ERRORS
    ensures var s := Run(s0, rs, hasQueue, cap);
      && s0.delays <= s.delays
      && (s.running ==> s.delays == s0.delays + DelaysOf(rs))
      && (s.running ==> |s.delays| == |s0.delays| + |rs| + Failures(rs))
  {
    if rs != [] {
      var p, r := rs[..|rs| - 1], rs[|rs| - 1];
      DelaysRecorded(s0, p, hasQueue, cap);
      ErrorCounterIsStreak(s0, p, hasQueue, cap);
    }
  }

  /** When the loop ends at read j (its fifth consecutive failure), its
      final state is the one of that iteration: the counter is 5, the queue
      holds what it accepted from the reads before j, and the delays are
      those of the reads before j plus the 10 ms poll before read j, with no
      back-off after it. */
  lemma {:induction false} LoopAtStop(s0: Loop, rs: seq<Reading>, j: nat, hasQueue: bool, cap: nat)
    requires |s0.queue| <= cap && s0.running && s0.errors < MAX_ERRORS
    requires j < |rs| && Run(s0, rs[..j], hasQueue, cap).running && !Run(s0, rs[..j + 1], hasQueue, cap).running
    ensures var s := Run(s0, rs, hasQueue, cap);
      && rs[j].Failed? && !s.running && s.errors == MAX_ERRORS
      && (hasQueue ==> s.queue == Accepted(s0.queue, Samples(rs[..j]), cap))
      && s.delays == s0.delays + DelaysOf(rs[..j]) + [POLL_DELAY_MS]
  {
    StoppedIsFinal(s0, rs, j + 1, hasQueue, cap);
    assert rs[..j + 1] == rs[..j] + [rs[j]];
    RunSnoc(s0, rs[..j], rs[j], hasQueue, cap);
    QueueContents(s0, rs[..j], hasQueue, cap);
    DelaysRecorded(s0, rs[..j], hasQueue, cap);
    ErrorCounterIsStreak(s0, rs[..j], hasQueue, cap);
  }
}
