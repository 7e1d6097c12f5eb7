/** The command state machine of heartlinkTask (main.cpp) as a function of
    the poll results: a response containing the quoted token "start" starts
    an idle system, one containing "stop" (and not "start") stops a running
    one, and the poll interval depends on the state. */
module Command {
  import opened Esp
  import opened Types

  const START_TOKEN: string := "\"start\""
  const STOP_TOKEN: string := "\"stop\""
  const RUNNING_POLL_MS: nat := 3000
  const IDLE_POLL_MS: nat := 5000
  /** sizeof(rx_buffer) */
  const RX_BUFFER_SIZE: nat := 128

  /** strstr(s, p) != NULL, searched from the front. */
  function Contains(s: string, p: string): bool
    decreases |s|
  {
    |p| <= |s| && (s[..|p|] == p || Contains(s[1..], p))
  }

  /** p occurs in s at index i. */
  predicate OccursAt(s: string, p: string, i: nat) {
    i + |p| <= |s| && s[i..i + |p|] == p
  }

  /** The search finds the pattern exactly when it occurs somewhere. */
  lemma {:induction false} ContainsIff(s: string, p: string)
    ensures Contains(s, p) <==> exists i: nat :: OccursAt(s, p, i)
    decreases |s|
  {
    if |p| <= |s| {
      if s[..|p|] == p {
        assert OccursAt(s, p, 0);
      } else {
        ContainsIff(s[1..], p);
        if Contains(s[1..], p) {
          var i: nat :| OccursAt(s[1..], p, i);
          assert s[i + 1..i + 1 + |p|] == s[1..][i..i + |p|];
          assert OccursAt(s, p, i + 1);
        } else {
          forall i: nat | OccursAt(s, p, i)
            ensures false
          {
            if i > 0 {
              assert s[1..][i - 1..i - 1 + |p|] == s[i..i + |p|];
              assert OccursAt(s[1..], p, i - 1);
            }
          }
        }
      }
    } else {
      forall i: nat | OccursAt(s, p, i)
        ensures false
      {
      }
    }
  }

  /** The C string held in a buffer: everything before the first NUL. */
  function CString(buf: seq<char>): (s: string)
    ensures |s| <= |buf| && s == buf[..|s|]
    ensures '\0' !in s
    ensures |s| < |buf| ==> buf[|s|] == '\0'
  {
    if buf == [] || buf[0] == '\0' then [] else [buf[0]] + CString(buf[1..])
  }

  /** The C string ends at the first NUL: whatever follows a NUL written
      after x is not part of it. */
  lemma {:induction false} CStringAtNul(x: seq<char>, y: seq<char>)
    ensures CString(x + ['\0'] + y) == CString(x)
  {
    if x != [] && x[0] != '\0' {
      assert (x + ['\0'] + y)[1..] == x[1..] + ['\0'] + y;
      CStringAtNul(x[1..], y);
    }
  }

  /** One poll: None when wifiIntfCheckCommand returned false, otherwise
      the response text. "start" is tested first, so a response holding both
      tokens never stops the system; start acts only when idle and stop only
      when running. */
  function Next(s: SystemState, response: Option<string>): SystemState {
    match response
    case None => s
    case Some(text) =>
      if Contains(text, START_TOKEN) then (if s == Idle then Running else s)
      else if Contains(text, STOP_TOKEN) then (if s == Running then Idle else s)
      else s
  }

  /** The delay after each poll: 3 s while running, 5 s otherwise,
      SYS_STATE_BUTT included. */
  function PollDelay(s: SystemState): (ms: nat)
    ensures ms == RUNNING_POLL_MS <==> s == Running
    ensures ms == IDLE_POLL_MS <==> s != Running
  {
    match s
    case Running => RUNNING_POLL_MS
    case _ => IDLE_POLL_MS
  }

  /** The state after a run of polls. */
  function Machine(s: SystemState, responses: seq<Option<string>>): SystemState {
    if responses == [] then s else Next(Machine(s, responses[..|responses| - 1]), responses[|responses| - 1])
  }

  /** One more poll: the state after it is Next of the state before, and
      its delay is chosen by that new state. */
  lemma MachineSnoc(s: SystemState, responses: seq<Option<string>>, response: Option<string>)
    ensures Machine(s, responses + [response]) == Next(Machine(s, responses), response)
    ensures Delays(s, responses + [response]) == Delays(s, responses) + [PollDelay(Machine(s, responses + [response]))]
  {
    assert (responses + [response])[..|responses|] == responses;
  }

  /** The delays taken over a run of polls: one per poll, chosen by the
      state after that poll's command. */
  function Delays(s: SystemState, responses: seq<Option<string>>): (d: seq<nat>)
    ensures |d| == |responses|
  {
    if responses == [] then []
    else Delays(s, responses[..|responses| - 1]) + [PollDelay(Machine(s, responses))]
  }

  /** The state changes only on a poll that returned a response, and only
      from idle to running or from running to idle; a command received
      twice in a row acts once. */
  lemma TransitionRules(s: SystemState, response: Option<string>)
    ensures Next(Next(s, response), response) == Next(s, response)
    ensures Next(s, response) != s ==>
      (response.Some? &&
       ((s == Idle && Next(s, response) == Running) || (s == Running && Next(s, response) == Idle)))
  {
  }

  /** A pattern that occurs in s brings its first character into s. */
  lemma OccursHasFirst(s: string, p: string, i: nat)
    requires OccursAt(s, p, i) && p != []
    ensures p[0] in s
  {
    assert s[i] == s[i..i + |p|][0];
  }

  /** Only the quoted tokens match: a reply without a double quote, such as
      a bare start or stop, is no command in any state. */
  lemma UnquotedRepliesIgnored(s: SystemState, response: string)
    requires '"' !in response
    ensures Next(s, Some(response)) == s
  {
    ContainsIff(response, START_TOKEN);
    ContainsIff(response, STOP_TOKEN);
    if Contains(response, START_TOKEN) {
      var i: nat :| OccursAt(response, START_TOKEN, i);
      OccursHasFirst(response, START_TOKEN, i);
    } else if Contains(response, STOP_TOKEN) {
      var i: nat :| OccursAt(response, STOP_TOKEN, i);
      OccursHasFirst(response, STOP_TOKEN, i);
    }
  }

  /** The quoted start token acts wherever it sits in the reply (inside a
      JSON field, after a stop token): it starts an idle system and leaves a
      running one running. */
  lemma StartTokenAnywhere(s: SystemState, response: string, i: nat)
    requires OccursAt(response, START_TOKEN, i)
    ensures Next(s, Some(response)) == (if s == Idle then Running else s)
  {
    ContainsIff(response, START_TOKEN);
  }

  /** From SYS_STATE_IDLE (or RUNNING) the machine only ever visits Idle
      and Running; SYS_STATE_BUTT is never entered. */
  lemma {:induction false} NeverButt(s: SystemState, responses: seq<Option<string>>)
    requires s != Butt
    ensures Machine(s, responses) != Butt
  {
    if responses != [] {
      NeverButt(s, responses[..|responses| - 1]);
    }
  }

  /** Commands that arrive while nothing can happen are lost, not queued: a
      run of polls that carries no start token leaves an idle system idle. */
  lemma {:induction false} IdleWithoutStart(responses: seq<Option<string>>)
    requires forall k :: 0 <= k < |responses| && responses[k].Some? ==> !Contains(responses[k].value, START_TOKEN)
    ensures Machine(Idle, responses) == Idle
    ensures Delays(Idle, responses) == seq(|responses|, _ => IDLE_POLL_MS)
  {
    if responses != [] {
      var init := responses[..|responses| - 1];
      IdleWithoutStart(init);
    }
  }
}
