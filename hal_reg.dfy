/** Register-level transactions with the MAX30102 (hal_reg.c), and the
    semantics of the register-write sequences the sensor layer builds from
    them.

    The effect of an operation is described as an `Outcome`: the status it
    returns and the bus trace after it, as a function of the bus oracle and
    of the trace before it (whose length numbers the next transaction). */
module HalReg {
  import opened Esp
  import opened RegMap
  import opened I2c

  datatype Outcome = Outcome(status: Err, trace: seq<Txn>)

  /** The single transaction of regWrite8. */
  function WriteTxn(reg: bv8, val: bv8): Txn {
    Txn.Write(ADDR, [reg, val])
  }

  /** regRead8 / regBurstRead: write the register address; only if that
      succeeds, read `len` bytes. The status returned is that of the last
      transaction made. */
  function ReadReg(o: Oracle, t: seq<Txn>, reg: bv8, len: nat): (r: Outcome)
    ensures r.trace == t + [Txn.Write(ADDR, [reg])] + (if o.status(|t|) == OK then [Txn.Read(ADDR, len)] else [])
    ensures r.status == o.status(|r.trace| - 1)
  {
    var t1 := t + [Txn.Write(ADDR, [reg])];
    if o.status(|t|) != OK then Outcome(o.status(|t|), t1)
    else Outcome(o.status(|t1|), t1 + [Txn.Read(ADDR, len)])
  }

  /** The effect of a register operation on the bus: it returned r.status
      and left the bus trace at r.trace. */
  ghost predicate Did(bus: Bus, ret: Err, r: Outcome)
    reads bus
  {
    ret == r.status && bus.trace == r.trace
  }

  /** regWrite8: exactly one bus write of [regAddr, data]; its status is returned. */
  method RegWrite8(bus: Bus, reg: bv8, val: bv8) returns (ret: Err)
    modifies bus
    ensures bus.trace == old(bus.trace) + [WriteTxn(reg, val)]
    ensures ret == bus.oracle.status(|old(bus.trace)|)
  {
    ret := bus.Write(ADDR, [reg, val]);
  }

  /** regRead8: address write, then a one-byte read into data[0]; `data` is
      untouched unless the read succeeds. */
  method RegRead8(bus: Bus, reg: bv8, data: array<bv8>) returns (ret: Err)
    requires data.Length == 1
    modifies bus, data
    ensures Did(bus, ret, ReadReg(bus.oracle, old(bus.trace), reg, 1))
    ensures ret == OK ==> data[0] == bus.oracle.data(|old(bus.trace)| + 1, 0)
    ensures ret != OK ==> data[0] == old(data[0])
  {
    ret := bus.Write(ADDR, [reg]);
    if ret != OK {
      return;
    }
    ret := bus.Read(ADDR, data, 1);
  }

  /** regBurstRead: address write, then a read of `length` bytes into the
      front of `buffer`; the read is skipped when the address write fails. */
  method RegBurstRead(bus: Bus, reg: bv8, buffer: array<bv8>, length: bv8) returns (ret: Err)
    requires length as int <= buffer.Length
    modifies bus, buffer
    ensures Did(bus, ret, ReadReg(bus.oracle, old(bus.trace), reg, length as nat))
    ensures ret == OK ==> buffer[..length] == Answer(bus.oracle, |old(bus.trace)| + 1, length as nat)
    ensures ret != OK ==> buffer[..] == old(buffer[..])
  {
    ret := bus.Write(ADDR, [reg]);
    if ret != OK {
      return;
    }
    ret := bus.Read(ADDR, buffer, length as nat);
  }

  // ---- register-write sequences ----

  datatype RegWrite = RegWrite(reg: bv8, val: bv8)

  /** A stage: writes that are all issued, one after the other, even after a
      failure; the stage status is the OR of their codes
      (`ret = w1; ret |= w2; ...`). */
  type Stage = seq<RegWrite>

  /** The OR of the codes of the writes of `s`, the first being transaction k. */
  function StageStatus(o: Oracle, k: nat, s: Stage): Err
    decreases |s|
  {
    if |s| == 0 then OK else Or(StageStatus(o, k, s[..|s| - 1]), o.status(k + |s| - 1))
  }

  /** The trace t followed by the writes of s, in order. */
  function Issue(t: seq<Txn>, s: Stage): (t': seq<Txn>)
    ensures |t'| == |t| + |s|
    decreases |s|
  {
    if |s| == 0 then t else Issue(t, s[..|s| - 1]) + [WriteTxn(s[|s| - 1].reg, s[|s| - 1].val)]
  }

  /** A stage succeeds exactly when every one of its writes succeeds. */
  lemma {:induction false} StageStatusOk(o: Oracle, k: nat, s: Stage)
    ensures StageStatus(o, k, s) == OK <==> forall i :: k <= i < k + |s| ==> o.status(i) == OK
    decreases |s|
  {
    if |s| > 0 {
      StageStatusOk(o, k, s[..|s| - 1]);
    }
  }

  /** Issuing a stage keeps what was on the bus and appends one write
      transaction per register write, in order. */
  lemma {:induction false} IssueAt(t: seq<Txn>, s: Stage)
    ensures Issue(t, s)[..|t|] == t
    ensures forall i :: 0 <= i < |s| ==> Issue(t, s)[|t| + i] == WriteTxn(s[i].reg, s[i].val)
    decreases |s|
  {
    if |s| > 0 {
      IssueAt(t, s[..|s| - 1]);
    }
  }

  lemma {:induction false} IssueAppend(t: seq<Txn>, a: Stage, b: Stage)
    ensures Issue(t, a + b) == Issue(Issue(t, a), b)
    decreases |b|
  {
    if b == [] {
      assert a + b == a;
    } else {
      var b' := b[..|b| - 1];
      assert (a + b)[..|a + b| - 1] == a + b';
      IssueAppend(t, a, b');
    }
  }

  /** All writes of a list of stages, in order. */
  function Flat(ss: seq<Stage>): (f: Stage)
    ensures ss == [] ==> f == []
  {
    if ss == [] then [] else ss[0] + Flat(ss[1..])
  }

  /** Stages run in order, stopping after the first stage whose status is
      not OK (`if (ret != ESP_OK) return ret;` between stages). */
  function RunStages(o: Oracle, t: seq<Txn>, ss: seq<Stage>): Outcome
    decreases |ss|
  {
    if ss == [] then Outcome(OK, t)
    else
      var st, t1 := StageStatus(o, |t|, ss[0]), Issue(t, ss[0]);
      if st != OK then Outcome(st, t1) else RunStages(o, t1, ss[1..])
  }

  /** Index of the first bus transaction of stage j. */
  function Offset(k: nat, ss: seq<Stage>, j: nat): nat
    requires j <= |ss|
  {
    k + |Flat(ss[..j])|
  }

  predicate StageOk(o: Oracle, k: nat, ss: seq<Stage>, j: nat)
    requires j < |ss|
  {
    StageStatus(o, Offset(k, ss, j), ss[j]) == OK
  }

  lemma {:induction false} FlatAppend(a: seq<Stage>, b: seq<Stage>)
    ensures Flat(a + b) == Flat(a) + Flat(b)
    decreases |a|
  {
    if a != [] {
      assert (a + b)[1..] == a[1..] + b;
      FlatAppend(a[1..], b);
    } else {
      assert a + b == b;
    }
  }

  lemma FlatPrefixStep(ss: seq<Stage>, j: nat)
    requires j < |ss|
    ensures Flat(ss[..j + 1]) == Flat(ss[..j]) + ss[j]
  {
    assert ss[..j + 1] == ss[..j] + [ss[j]];
    FlatAppend(ss[..j], [ss[j]]);
    assert Flat([ss[j]]) == ss[j] + Flat([]);
  }

  lemma FlatShift(ss: seq<Stage>, j: nat)
    requires 0 < |ss| && j < |ss|
    ensures Flat(ss[..j + 1]) == ss[0] + Flat(ss[1..][..j])
  {
    assert ss[..j + 1][1..] == ss[1..][..j];
  }

  lemma OffsetShift(o: Oracle, k: nat, ss: seq<Stage>, j: nat)
    requires 0 < |ss| && j + 1 < |ss|
    ensures Offset(k, ss, j + 1) == Offset(k + |ss[0]|, ss[1..], j)
    ensures StageOk(o, k, ss, j + 1) == StageOk(o, k + |ss[0]|, ss[1..], j)
  {
    FlatShift(ss, j);
  }

  lemma OffsetZero(k: nat, ss: seq<Stage>)
    requires 0 < |ss|
    ensures Offset(k, ss, 0) == k
    ensures Flat(ss[..1]) == ss[0]
  {
    assert ss[..0] == [];
    FlatPrefixStep(ss, 0);
  }

  /** A register sequence succeeds exactly when every stage succeeds. */
  lemma {:induction false} RunStagesOkIff(o: Oracle, t: seq<Txn>, ss: seq<Stage>)
    ensures RunStages(o, t, ss).status == OK <==> forall j :: 0 <= j < |ss| ==> StageOk(o, |t|, ss, j)
    decreases |ss|
  {
    if ss != [] {
      var k, t1, rest := |t|, Issue(t, ss[0]), ss[1..];
      OffsetZero(k, ss);
      RunStagesOkIff(o, t1, rest);
      if StageOk(o, k, ss, 0) {
        forall j | 0 <= j < |rest| ensures StageOk(o, k, ss, j + 1) == StageOk(o, |t1|, rest, j) {
          OffsetShift(o, k, ss, j);
        }
        if forall j :: 0 <= j < |ss| ==> StageOk(o, k, ss, j) {
          forall j | 0 <= j < |rest| ensures StageOk(o, |t1|, rest, j) {
            assert StageOk(o, k, ss, j + 1);
          }
        } else {
          var j :| 0 <= j < |ss| && !StageOk(o, k, ss, j);
          assert !StageOk(o, |t1|, rest, j - 1);
        }
      }
    }
  }

  /** A successful register sequence has issued every write, in order, and nothing else. */
  lemma {:induction false} RunStagesOkIssuesAll(o: Oracle, t: seq<Txn>, ss: seq<Stage>)
    requires RunStages(o, t, ss).status == OK
    ensures RunStages(o, t, ss).trace == Issue(t, Flat(ss))
    decreases |ss|
  {
    if ss != [] {
      RunStagesOkIssuesAll(o, Issue(t, ss[0]), ss[1..]);
      IssueAppend(t, ss[0], Flat(ss[1..]));
    }
  }

  /** Once stages 0..j-1 have all succeeded, the rest of the run is the run
      of ss[j..] after the writes of those stages. */
  lemma {:induction false} RunStagesSkip(o: Oracle, t: seq<Txn>, ss: seq<Stage>, j: nat)
    requires j <= |ss|
    requires forall i :: 0 <= i < j ==> StageOk(o, |t|, ss, i)
    ensures RunStages(o, t, ss) == RunStages(o, Issue(t, Flat(ss[..j])), ss[j..])
    decreases j
  {
    if j == 0 {
      assert ss[..0] == [] && ss[0..] == ss;
    } else {
      var i := j - 1;
      RunStagesSkip(o, t, ss, i);
      var ti := Issue(t, Flat(ss[..i]));
      assert StageOk(o, |t|, ss, i);
      assert ss[i..][0] == ss[i] && ss[i..][1..] == ss[j..];
      IssueAppend(t, Flat(ss[..i]), ss[i]);
      FlatPrefixStep(ss, i);
    }
  }

  /** A failed register sequence returns the code of its first failing stage,
      having issued exactly the writes of the stages up to and including it. */
  lemma RunStagesFirstFailure(o: Oracle, t: seq<Txn>, ss: seq<Stage>, j: nat)
    requires j < |ss|
    requires forall i :: 0 <= i < j ==> StageOk(o, |t|, ss, i)
    requires !StageOk(o, |t|, ss, j)
    ensures RunStages(o, t, ss) == Outcome(StageStatus(o, Offset(|t|, ss, j), ss[j]), Issue(t, Flat(ss[..j + 1])))
  {
    RunStagesSkip(o, t, ss, j);
    assert ss[j..][0] == ss[j];
    IssueAppend(t, Flat(ss[..j]), ss[j]);
    FlatPrefixStep(ss, j);
  }

  /** Running a + b is running a and, only if a succeeded, b after it. */
  lemma {:induction false} RunStagesAppend(o: Oracle, t: seq<Txn>, a: seq<Stage>, b: seq<Stage>)
    ensures RunStages(o, t, a + b)
         == (var ra := RunStages(o, t, a); if ra.status != OK then ra else RunStages(o, ra.trace, b))
    decreases |a|
  {
    if a == [] {
      assert a + b == b;
    } else {
      var ab := a + b;
      assert ab[0] == a[0];
      assert ab[1..] == a[1..] + b;
      if StageStatus(o, |t|, a[0]) == OK {
        RunStagesAppend(o, Issue(t, a[0]), a[1..], b);
      }
    }
  }

  /** Appending one write to a stage ORs in that write's code and issues it last. */
  lemma StageSnoc(o: Oracle, k: nat, t: seq<Txn>, s: Stage, w: RegWrite)
    ensures StageStatus(o, k, s + [w]) == Or(StageStatus(o, k, s), o.status(k + |s|))
    ensures Issue(t, s + [w]) == Issue(t, s) + [WriteTxn(w.reg, w.val)]
  {
    assert (s + [w])[..|s|] == s;
  }

  /** A single stage run on its own returns its OR-ed code and issues all its writes. */
  lemma RunOneStage(o: Oracle, t: seq<Txn>, s: Stage)
    ensures RunStages(o, t, [s]) == Outcome(StageStatus(o, |t|, s), Issue(t, s))
  {
    assert [s][1..] == [];
  }

  /** A stage of one write returns that write's code. */
  lemma OneWrite(o: Oracle, t: seq<Txn>, reg: bv8, val: bv8)
    ensures RunStages(o, t, [[RegWrite(reg, val)]]) == Outcome(o.status(|t|), t + [WriteTxn(reg, val)])
  {
    StageSnoc(o, |t|, t, [], RegWrite(reg, val));
    assert [] + [RegWrite(reg, val)] == [RegWrite(reg, val)];
    RunOneStage(o, t, [RegWrite(reg, val)]);
  }

  /** The stages before stage i have succeeded and left the trace at t: the
      rest of the sequence runs from there. */
  ghost predicate Progress(o: Oracle, t0: seq<Txn>, ss: seq<Stage>, i: nat, t: seq<Txn>)
    requires i <= |ss|
  {
    RunStages(o, t0, ss) == RunStages(o, t, ss[i..])
  }

  lemma ProgressStart(o: Oracle, t0: seq<Txn>, ss: seq<Stage>)
    ensures Progress(o, t0, ss, 0, t0)
  {
    assert ss[0..] == ss;
  }

  /** Stage i has run from trace t, returning `ret` and leaving the trace at
      t': either it failed and that is the outcome of the whole sequence,
      or the sequence progresses past it. */
  lemma Advance(o: Oracle, t0: seq<Txn>, ss: seq<Stage>, i: nat, t: seq<Txn>, ret: Err, t': seq<Txn>)
    requires i < |ss| && Progress(o, t0, ss, i, t)
    requires RunStages(o, t, [ss[i]]) == Outcome(ret, t')
    ensures ret != OK ==> RunStages(o, t0, ss) == Outcome(ret, t')
    ensures ret == OK ==> Progress(o, t0, ss, i + 1, t')
  {
    RunOneStage(o, t, ss[i]);
    var rest := ss[i..];
    assert rest[0] == ss[i] && rest[1..] == ss[i + 1..];
  }

  /** Every stage has succeeded. */
  lemma Finish(o: Oracle, t0: seq<Txn>, ss: seq<Stage>, t: seq<Txn>)
    requires Progress(o, t0, ss, |ss|, t)
    ensures RunStages(o, t0, ss) == Outcome(OK, t)
  {
    assert ss[|ss|..] == [];
  }
}
