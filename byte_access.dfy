/**
 * The rshim Byte Access Widget: one 8-byte rshim access made of two 4-byte
 * CR-space accesses to the widget's address, control and data registers,
 * paced by the pending bit of the control register and, on BlueField-2,
 * guarded by the widget interlock.
 */
module ByteAccess {
  import opened Bus
  import opened Registers
  import opened Words
  import opened Polling
  import opened CrSpace
  import opened GatewayLock

  /** One read of the widget control register. */
  function CtlProbe(c: Ctx): Probe {
    (h: seq<Op>) => CrRead(c, h, c.k.accCtl)
  }

  /** One read of the widget interlock register. */
  function InterlockProbe(c: Ctx): Probe {
    (h: seq<Op>) => CrRead(c, h, c.k.accInterlock)
  }

  /** The interlock is taken when bit 0 reads set. */
  const INTERLOCK_TAKEN: bv32 := 0x1

  /** A control word made of the trigger bit and the size bits. */
  function CtlBits(trigger: bv32, size: bv32): bv32 {
    trigger | size
  }

  /** `RSH_BYTE_ACC_READ_TRIGGER | RSH_BYTE_ACC_SIZE_4BYTE`: the control word of a read. */
  function ReadCtlWord(k: Consts): bv32 {
    CtlBits(k.readTrigger, k.size4Byte)
  }

  /** `rshim_byte_acc_pending_wait`: wait until the pending bit reads clear. */
  function PendingWait(c: Ctx, t: seq<Op>): Status {
    PollAfter(CtlProbe(c), c.k.pending, c.k.lockRetryCnt, t, 0)
  }

  /** `rshim_byte_acc_lock_acquire`: wait until the interlock reads taken. */
  function InterlockAcquire(c: Ctx, t: seq<Op>): Status {
    PollBefore(InterlockProbe(c), INTERLOCK_TAKEN, c.k.lockRetryCnt, t, 0)
  }

  /** `rshim_byte_acc_lock_release`: write zero to the interlock. */
  function InterlockRelease(c: Ctx, t: seq<Op>): Status {
    CrWrite(c, t, c.k.accInterlock, 0)
  }

  /**
   * The transfer of `rshim_byte_acc_read` between the interlock acquire and
   * the exit label: target address, read control word, pending wait, low
   * word, pending wait, high word.  The value is the combined 64-bit word,
   * or `None` when a step failed and `*result` is left unwritten.
   */
  function ReadTransfer(c: Ctx, t: seq<Op>, addr: bv32): Reading<Option<bv64>> {
    var s1 := CrWrite(c, t, c.k.accAddr, addr);
    if s1.rc != 0 then Reading(s1.trace, s1.rc, None)
    else
      var s2 := CrWrite(c, s1.trace, c.k.accCtl, ReadCtlWord(c.k));
      if s2.rc != 0 then Reading(s2.trace, s2.rc, None)
      else
        var w1 := PendingWait(c, s2.trace);
        if w1.rc != 0 then Reading(w1.trace, w1.rc, None)
        else
          var lo := CrRead(c, w1.trace, c.k.accRdat);
          if lo.rc != 0 then Reading(lo.trace, lo.rc, None)
          else
            var w2 := PendingWait(c, lo.trace);
            if w2.rc != 0 then Reading(w2.trace, w2.rc, None)
            else
              var hi := CrRead(c, w2.trace, c.k.accRdat);
              if hi.rc != 0 then Reading(hi.trace, hi.rc, None)
              else Reading(hi.trace, 0, Some(Combine(lo.value, hi.value)))
  }

  /** `rshim_byte_acc_read`. */
  function ByteAccRead(c: Ctx, t: seq<Op>, addr: bv32): Reading<Option<bv64>> {
    var w := PendingWait(c, t);
    if w.rc != 0 then Reading(w.trace, w.rc, None)
    else if c.rev == BlueField2 then
      var il := InterlockAcquire(c, w.trace);
      if il.rc != 0 then Reading(il.trace, il.rc, None)
      else
        var x := ReadTransfer(c, il.trace, addr);
        var rel := InterlockRelease(c, x.trace);
        Reading(rel.trace, rel.rc, x.value)
    else ReadTransfer(c, w.trace, addr)
  }

  /**
   * The transfer of `rshim_byte_acc_write` between the address write and the
   * exit label: size control word, low word, pending wait, high word.
   */
  function WriteTransfer(c: Ctx, t: seq<Op>, value: bv64): Status {
    var s1 := CrWrite(c, t, c.k.accCtl, c.k.size4Byte);
    if s1.rc != 0 then s1
    else
      var s2 := CrWrite(c, s1.trace, c.k.accWdat, Lo32(value));
      if s2.rc != 0 then s2
      else
        var w := PendingWait(c, s2.trace);
        if w.rc != 0 then w
        else CrWrite(c, w.trace, c.k.accWdat, Hi32(value))
  }

  /** `rshim_byte_acc_write`. */
  function ByteAccWrite(c: Ctx, t: seq<Op>, addr: bv32, value: bv64): Status {
    if c.rev == BlueField2 then
      var il := InterlockAcquire(c, t);
      if il.rc != 0 then il
      else
        var s := CrWrite(c, il.trace, c.k.accAddr, addr);
        if s.rc != 0 then s
        else InterlockRelease(c, WriteTransfer(c, s.trace, value).trace)
    else
      var s := CrWrite(c, t, c.k.accAddr, addr);
      if s.rc != 0 then s
      else WriteTransfer(c, s.trace, value)
  }

  /**
   * One step of a widget transfer: a 4-byte CR-space write, a 4-byte
   * CR-space read whose word is set aside, or a pending wait.
   */
  datatype Step = Put(reg: bv32, data: bv32) | Get(reg: bv32) | Wait

  /** The history and code of one step. */
  function RunStep(c: Ctx, h: seq<Op>, st: Step): Status {
    match st
    case Put(reg, data) => CrWrite(c, h, reg, data)
    case Get(reg) => var r := CrRead(c, h, reg); Status(r.trace, r.rc)
    case Wait => PendingWait(c, h)
  }

  /** Steps run in order, each `if (rc) goto exit` returning the first nonzero code. */
  function RunSteps(c: Ctx, t: seq<Op>, steps: seq<Step>): Status
    decreases |steps|
  {
    if steps == [] then Status(t, 0)
    else
      var s := RunStep(c, t, steps[0]);
      if s.rc != 0 then s else RunSteps(c, s.trace, steps[1..])
  }

  /** The history after the first `i` steps, each run on the history the one before left. */
  function After(c: Ctx, t: seq<Op>, steps: seq<Step>, i: nat): seq<Op>
    requires i <= |steps|
    decreases i
  {
    if i == 0 then t else After(c, RunStep(c, t, steps[0]).trace, steps[1..], i - 1)
  }

  /**
   * `steps` run from `t` stopped at step `j` with result `r`: the `j` steps
   * before it all returned 0; past the last step `r` is success on the
   * history they left, and otherwise step `j` failed and `r` is its own
   * history and code.
   */
  ghost predicate StepsStopAt(c: Ctx, t: seq<Op>, steps: seq<Step>, j: nat, r: Status) {
    j <= |steps| &&
    (forall i | 0 <= i < j :: RunStep(c, After(c, t, steps, i), steps[i]).rc == 0) &&
    (j == |steps| ==> r == Status(After(c, t, steps, j), 0)) &&
    (j < |steps| ==> r.rc != 0 && r == RunStep(c, After(c, t, steps, j), steps[j]))
  }

  /** The steps of the read transfer: address, read control word, wait, low word, wait, high word. */
  function ReadSteps(k: Consts, addr: bv32): seq<Step> {
    [Put(k.accAddr, addr), Put(k.accCtl, ReadCtlWord(k)), Wait, Get(k.accRdat), Wait, Get(k.accRdat)]
  }

  /** The steps of the write transfer: size control word, low word, wait, high word. */
  function WriteSteps(k: Consts, value: bv64): seq<Step> {
    [Put(k.accCtl, k.size4Byte), Put(k.accWdat, Lo32(value)), Wait, Put(k.accWdat, Hi32(value))]
  }

  /** Every run of steps stops at its first failing step, or succeeds after all of them. */
  lemma {:induction false} RunStepsOutcome(c: Ctx, t: seq<Op>, steps: seq<Step>)
    ensures exists j: nat :: StepsStopAt(c, t, steps, j, RunSteps(c, t, steps))
    decreases |steps|
  {
    if steps == [] {
      assert StepsStopAt(c, t, steps, 0, RunSteps(c, t, steps));
    } else {
      var s := RunStep(c, t, steps[0]);
      if s.rc != 0 {
        assert StepsStopAt(c, t, steps, 0, RunSteps(c, t, steps));
      } else {
        var rest := steps[1..];
        RunStepsOutcome(c, s.trace, rest);
        var j: nat :| StepsStopAt(c, s.trace, rest, j, RunSteps(c, s.trace, rest));
        forall i | 0 <= i < j + 1
          ensures RunStep(c, After(c, t, steps, i), steps[i]).rc == 0
        {
          if i > 0 {
            assert steps[i] == rest[i - 1];
            assert After(c, t, steps, i) == After(c, s.trace, rest, i - 1);
          }
        }
        if j < |rest| {
          assert steps[j + 1] == rest[j];
        }
        assert After(c, t, steps, j + 1) == After(c, s.trace, rest, j);
        assert StepsStopAt(c, t, steps, j + 1, RunSteps(c, t, steps));
      }
    }
  }

  /** Running `p` and then `q` is running `p + q`. */
  lemma {:induction false} RunStepsAppend(c: Ctx, t: seq<Op>, p: seq<Step>, q: seq<Step>)
    ensures RunSteps(c, t, p + q) ==
      var s := RunSteps(c, t, p);
      if s.rc != 0 then s else RunSteps(c, s.trace, q)
    decreases |p|
  {
    if p == [] {
      assert p + q == q;
    } else {
      assert (p + q)[0] == p[0];
      assert (p + q)[1..] == p[1..] + q;
      var s := RunStep(c, t, p[0]);
      if s.rc == 0 {
        RunStepsAppend(c, s.trace, p[1..], q);
      }
    }
  }

  /** Control and interlock reads always issue some transaction. */
  lemma ProbesIssue(c: Ctx)
    ensures Issues(CtlProbe(c)) && Issues(InterlockProbe(c))
  {
    forall h: seq<Op>
      ensures h < CtlProbe(c)(h).trace && h < InterlockProbe(c)(h).trace
    {
      CrReadExtends(c, h, c.k.accCtl);
      CrReadExtends(c, h, c.k.accInterlock);
    }
  }

  /**
   * Every pending wait reads the control register at most
   * `LOCK_RETRY_CNT + 1` times and ends as `AfterStopsAt` describes: an
   * error of read `j` is returned, read `LOCK_RETRY_CNT + 1` times out, and
   * an earlier read that sees the pending bit clear succeeds.
   */
  lemma PendingWaitOutcome(c: Ctx, t: seq<Op>)
    ensures exists j: nat :: AfterStopsAt(CtlProbe(c), c.k.pending, c.k.lockRetryCnt, t, 0, j)
  {
    PollAfterOutcome(CtlProbe(c), c.k.pending, c.k.lockRetryCnt, t, 0);
  }

  /** A pending bit that never clears: `LOCK_RETRY_CNT + 1` reads, then a timeout. */
  lemma PendingWaitStuck(c: Ctx, t: seq<Op>)
    requires forall i :: 0 <= i <= c.k.lockRetryCnt ==> SetAt(CtlProbe(c), c.k.pending, t, i)
    ensures PendingWait(c, t) == Status(Chain(CtlProbe(c), t, c.k.lockRetryCnt + 1), -ETIMEDOUT)
  {
    PollAfterNeverClears(CtlProbe(c), c.k.pending, c.k.lockRetryCnt, t);
  }

  /**
   * Every interlock acquire reads the interlock at most `LOCK_RETRY_CNT`
   * times (never, when that bound is zero) and succeeds only on a read that
   * sees bit 0 set.
   */
  lemma InterlockAcquireOutcome(c: Ctx, t: seq<Op>)
    ensures exists j: nat :: BeforeStopsAt(InterlockProbe(c), INTERLOCK_TAKEN, c.k.lockRetryCnt, t, 0, j)
  {
    PollBeforeOutcome(InterlockProbe(c), INTERLOCK_TAKEN, c.k.lockRetryCnt, t, 0);
  }

  /** An interlock that never reads taken: `LOCK_RETRY_CNT` reads, then a timeout. */
  lemma InterlockNeverTaken(c: Ctx, t: seq<Op>)
    requires forall i :: 0 <= i < c.k.lockRetryCnt ==> ClearAt(InterlockProbe(c), INTERLOCK_TAKEN, t, i)
    ensures InterlockAcquire(c, t) == Status(Chain(InterlockProbe(c), t, c.k.lockRetryCnt), -ETIMEDOUT)
  {
    PollBeforeNeverSets(InterlockProbe(c), INTERLOCK_TAKEN, c.k.lockRetryCnt, t);
  }

  /** A pending wait always issues some transaction. */
  lemma PendingWaitExtends(c: Ctx, t: seq<Op>)
    ensures t < PendingWait(c, t).trace
  {
    ProbesIssue(c);
    PollAfterExtends(CtlProbe(c), c.k.pending, c.k.lockRetryCnt, t, 0);
  }

  /**
   * An interlock acquire only extends the history; with a zero retry budget
   * it issues nothing and times out.
   */
  lemma InterlockAcquireExtends(c: Ctx, t: seq<Op>)
    ensures t <= InterlockAcquire(c, t).trace
    ensures c.k.lockRetryCnt == 0 ==> InterlockAcquire(c, t) == Status(t, -ETIMEDOUT)
  {
    ProbesIssue(c);
    PollBeforeExtends(InterlockProbe(c), INTERLOCK_TAKEN, c.k.lockRetryCnt, t, 0);
  }

  /**
   * The read transfer issues transactions, and it delivers a value exactly
   * when it succeeds.
   */
  lemma ReadTransferFacts(c: Ctx, t: seq<Op>, addr: bv32)
    ensures var x := ReadTransfer(c, t, addr);
      t < x.trace && (x.value.Some? <==> x.rc == 0)
  {
    var s1 := CrWrite(c, t, c.k.accAddr, addr);
    CrWriteExtends(c, t, c.k.accAddr, addr);
    if s1.rc == 0 {
      var s2 := CrWrite(c, s1.trace, c.k.accCtl, ReadCtlWord(c.k));
      CrWriteExtends(c, s1.trace, c.k.accCtl, ReadCtlWord(c.k));
      if s2.rc == 0 {
        var w1 := PendingWait(c, s2.trace);
        PendingWaitExtends(c, s2.trace);
        if w1.rc == 0 {
          var lo := CrRead(c, w1.trace, c.k.accRdat);
          CrReadExtends(c, w1.trace, c.k.accRdat);
          if lo.rc == 0 {
            var w2 := PendingWait(c, lo.trace);
            PendingWaitExtends(c, lo.trace);
            if w2.rc == 0 {
              CrReadExtends(c, w2.trace, c.k.accRdat);
            }
          }
        }
      }
    }
  }

  /** The write transfer issues transactions. */
  lemma WriteTransferExtends(c: Ctx, t: seq<Op>, value: bv64)
    ensures t < WriteTransfer(c, t, value).trace
  {
    var s1 := CrWrite(c, t, c.k.accCtl, c.k.size4Byte);
    CrWriteExtends(c, t, c.k.accCtl, c.k.size4Byte);
    if s1.rc == 0 {
      var s2 := CrWrite(c, s1.trace, c.k.accWdat, Lo32(value));
      CrWriteExtends(c, s1.trace, c.k.accWdat, Lo32(value));
      if s2.rc == 0 {
        var w := PendingWait(c, s2.trace);
        PendingWaitExtends(c, s2.trace);
        if w.rc == 0 {
          CrWriteExtends(c, w.trace, c.k.accWdat, Hi32(value));
        }
      }
    }
  }

  /**
   * The read transfer runs its six steps and returns at the first failing
   * one: a failure ends the transfer on that step, with that step's code,
   * after every earlier step returned 0.
   */
  lemma ReadTransferSteps(c: Ctx, t: seq<Op>, addr: bv32)
    ensures var x := ReadTransfer(c, t, addr);
      Status(x.trace, x.rc) == RunSteps(c, t, ReadSteps(c.k, addr)) &&
      exists j: nat :: StepsStopAt(c, t, ReadSteps(c.k, addr), j, Status(x.trace, x.rc))
  {
    var S := ReadSteps(c.k, addr);
    var s1 := CrWrite(c, t, c.k.accAddr, addr);
    assert RunSteps(c, t, S) == if s1.rc != 0 then s1 else RunSteps(c, s1.trace, S[1..]);
    if s1.rc == 0 {
      var s2 := CrWrite(c, s1.trace, c.k.accCtl, ReadCtlWord(c.k));
      assert S[1..][1..] == S[2..];
      assert RunSteps(c, s1.trace, S[1..]) == if s2.rc != 0 then s2 else RunSteps(c, s2.trace, S[2..]);
      if s2.rc == 0 {
        var w1 := PendingWait(c, s2.trace);
        assert S[2..][1..] == S[3..];
        assert RunSteps(c, s2.trace, S[2..]) == if w1.rc != 0 then w1 else RunSteps(c, w1.trace, S[3..]);
        if w1.rc == 0 {
          var lo := CrRead(c, w1.trace, c.k.accRdat);
          assert S[3..][1..] == S[4..];
          assert RunSteps(c, w1.trace, S[3..]) ==
            if lo.rc != 0 then Status(lo.trace, lo.rc) else RunSteps(c, lo.trace, S[4..]);
          if lo.rc == 0 {
            var w2 := PendingWait(c, lo.trace);
            assert S[4..][1..] == S[5..];
            assert RunSteps(c, lo.trace, S[4..]) == if w2.rc != 0 then w2 else RunSteps(c, w2.trace, S[5..]);
            if w2.rc == 0 {
              var hi := CrRead(c, w2.trace, c.k.accRdat);
              assert S[5..][1..] == [];
              assert RunSteps(c, w2.trace, S[5..]) ==
                if hi.rc != 0 then Status(hi.trace, hi.rc) else Status(hi.trace, 0);
            }
          }
        }
      }
    }
    RunStepsOutcome(c, t, S);
  }

  /**
   * The write transfer runs its four steps and returns at the first failing
   * one, with that step's code; the high word is written only after the
   * pending wait has cleared.
   */
  lemma WriteTransferSteps(c: Ctx, t: seq<Op>, value: bv64)
    ensures WriteTransfer(c, t, value) == RunSteps(c, t, WriteSteps(c.k, value)) &&
      exists j: nat :: StepsStopAt(c, t, WriteSteps(c.k, value), j, WriteTransfer(c, t, value))
  {
    var S := WriteSteps(c.k, value);
    var s1 := CrWrite(c, t, c.k.accCtl, c.k.size4Byte);
    assert RunSteps(c, t, S) == if s1.rc != 0 then s1 else RunSteps(c, s1.trace, S[1..]);
    if s1.rc == 0 {
      var s2 := CrWrite(c, s1.trace, c.k.accWdat, Lo32(value));
      assert S[1..][1..] == S[2..];
      assert RunSteps(c, s1.trace, S[1..]) == if s2.rc != 0 then s2 else RunSteps(c, s2.trace, S[2..]);
      if s2.rc == 0 {
        var w := PendingWait(c, s2.trace);
        assert S[2..][1..] == S[3..];
        assert RunSteps(c, s2.trace, S[2..]) == if w.rc != 0 then w else RunSteps(c, w.trace, S[3..]);
        if w.rc == 0 {
          var hi := CrWrite(c, w.trace, c.k.accWdat, Hi32(value));
          assert S[3..][1..] == [];
          assert RunSteps(c, w.trace, S[3..]) == if hi.rc != 0 then hi else Status(hi.trace, 0);
        }
      }
    }
    RunStepsOutcome(c, t, S);
  }

  /**
   * On BlueField-1 there is no interlock: the widget read is the pending
   * wait followed by the read transfer, returning the first failing step's
   * code, and it delivers a value exactly when it reports success.
   */
  lemma ByteAccReadBlueField1(c: Ctx, t: seq<Op>, addr: bv32)
    requires c.rev == BlueField1
    ensures var r := ByteAccRead(c, t, addr);
      (r.value.Some? <==> r.rc == 0) &&
      Status(r.trace, r.rc) == RunSteps(c, t, [Wait] + ReadSteps(c.k, addr)) &&
      exists j: nat :: StepsStopAt(c, t, [Wait] + ReadSteps(c.k, addr), j, Status(r.trace, r.rc))
  {
    var w := PendingWait(c, t);
    assert [Wait][1..] == [];
    RunStepsAppend(c, t, [Wait], ReadSteps(c.k, addr));
    if w.rc == 0 {
      ReadTransferFacts(c, w.trace, addr);
      ReadTransferSteps(c, w.trace, addr);
    }
    RunStepsOutcome(c, t, [Wait] + ReadSteps(c.k, addr));
  }

  /**
   * On BlueField-1 the widget write is the address write followed by the
   * write transfer, returning the first failing step's code.
   */
  lemma ByteAccWriteBlueField1(c: Ctx, t: seq<Op>, addr: bv32, value: bv64)
    requires c.rev == BlueField1
    ensures var r := ByteAccWrite(c, t, addr, value);
      r == RunSteps(c, t, [Put(c.k.accAddr, addr)] + WriteSteps(c.k, value)) &&
      exists j: nat :: StepsStopAt(c, t, [Put(c.k.accAddr, addr)] + WriteSteps(c.k, value), j, r)
  {
    var s := CrWrite(c, t, c.k.accAddr, addr);
    assert [Put(c.k.accAddr, addr)][1..] == [];
    RunStepsAppend(c, t, [Put(c.k.accAddr, addr)], WriteSteps(c.k, value));
    if s.rc == 0 {
      WriteTransferSteps(c, s.trace, value);
    }
    RunStepsOutcome(c, t, [Put(c.k.accAddr, addr)] + WriteSteps(c.k, value));
  }

  /**
   * On BlueField-2 a failed pending wait or a failed interlock acquire is
   * returned at once, with no value and no release.  Once both have
   * succeeded, every exit of the widget read ends with the interlock release
   * after the transfer's steps, up to its first failing one, and returns the
   * release's code, whatever the transfer returned.  A value is delivered
   * only when the transfer succeeded.
   */
  lemma ByteAccReadReleases(c: Ctx, t: seq<Op>, addr: bv32)
    requires c.rev == BlueField2
    ensures var w := PendingWait(c, t);
      var r := ByteAccRead(c, t, addr);
      (w.rc != 0 ==> r == Reading(w.trace, w.rc, None)) &&
      (w.rc == 0 ==>
        var il := InterlockAcquire(c, w.trace);
        (il.rc != 0 ==> r == Reading(il.trace, il.rc, None)) &&
        (il.rc == 0 ==>
          var rel := InterlockRelease(c, RunSteps(c, il.trace, ReadSteps(c.k, addr)).trace);
          (r.value.Some? <==> ReadTransfer(c, il.trace, addr).rc == 0) &&
          r.trace == rel.trace && r.rc == rel.rc &&
          exists x :: il.trace < x && r.trace == InterlockRelease(c, x).trace && r.rc == InterlockRelease(c, x).rc))
  {
    var w := PendingWait(c, t);
    if w.rc == 0 {
      var il := InterlockAcquire(c, w.trace);
      if il.rc == 0 {
        var x := ReadTransfer(c, il.trace, addr);
        ReadTransferFacts(c, il.trace, addr);
        ReadTransferSteps(c, il.trace, addr);
        assert ByteAccRead(c, t, addr).trace == InterlockRelease(c, x.trace).trace;
      }
    }
  }

  /**
   * On BlueField-2 the widget write returns a failed interlock acquire
   * as is, and a failed address write without releasing the interlock;
   * after a successful address write every exit ends with the interlock
   * release, issued after the transfer's steps up to its first failing
   * one, and returns the release's code.
   */
  lemma ByteAccWriteExits(c: Ctx, t: seq<Op>, addr: bv32, value: bv64)
    requires c.rev == BlueField2
    ensures var il := InterlockAcquire(c, t);
      var r := ByteAccWrite(c, t, addr, value);
      (il.rc != 0 ==> r == il) &&
      (il.rc == 0 ==>
         var s := CrWrite(c, il.trace, c.k.accAddr, addr);
         (s.rc != 0 ==> r == s) &&
         (s.rc == 0 ==>
            r == InterlockRelease(c, RunSteps(c, s.trace, WriteSteps(c.k, value)).trace) &&
            exists x :: s.trace < x && r == InterlockRelease(c, x)))
  {
    var il := InterlockAcquire(c, t);
    if il.rc == 0 {
      var s := CrWrite(c, il.trace, c.k.accAddr, addr);
      if s.rc == 0 {
        WriteTransferExtends(c, s.trace, value);
        WriteTransferSteps(c, s.trace, value);
        assert ByteAccWrite(c, t, addr, value) == InterlockRelease(c, WriteTransfer(c, s.trace, value).trace);
      }
    }
  }

  /**
   * `v` was read in two halves: its low word by a data-register read started
   * at `h1`, once a pending wait issued at `h0`, after `t`, had cleared, and
   * its high word by a second data-register read started at `h2`, once the
   * pending wait issued after the first read had cleared; the second read
   * ends within `end`.
   */
  ghost predicate ReadInHalves(c: Ctx, t: seq<Op>, h0: seq<Op>, h1: seq<Op>, h2: seq<Op>, v: bv64, end: seq<Op>) {
    var lo := CrRead(c, h1, c.k.accRdat);
    var hi := CrRead(c, h2, c.k.accRdat);
    t < h0 && PendingWait(c, h0) == Status(h1, 0) &&
    t < h1 && lo.rc == 0 && lo.value == Lo32(v) &&
    lo.trace < h2 && PendingWait(c, lo.trace) == Status(h2, 0) &&
    hi.rc == 0 && hi.value == Hi32(v) && hi.trace <= end
  }

  /**
   * A read transfer that succeeds delivers the word whose low half is the
   * first data-register read and whose high half is the second, and it ends
   * with that second read.
   */
  lemma ReadTransferHalves(c: Ctx, t: seq<Op>, addr: bv32)
    ensures var x := ReadTransfer(c, t, addr);
      x.rc == 0 ==>
        x.value.Some? &&
        exists h0, h1, h2 :: ReadInHalves(c, t, h0, h1, h2, x.value.value, x.trace) &&
          CrRead(c, h2, c.k.accRdat).trace == x.trace
  {
    var x := ReadTransfer(c, t, addr);
    if x.rc == 0 {
      var s1 := CrWrite(c, t, c.k.accAddr, addr);
      CrWriteExtends(c, t, c.k.accAddr, addr);
      var s2 := CrWrite(c, s1.trace, c.k.accCtl, ReadCtlWord(c.k));
      CrWriteExtends(c, s1.trace, c.k.accCtl, ReadCtlWord(c.k));
      var w1 := PendingWait(c, s2.trace);
      PendingWaitExtends(c, s2.trace);
      var lo := CrRead(c, w1.trace, c.k.accRdat);
      var w2 := PendingWait(c, lo.trace);
      PendingWaitExtends(c, lo.trace);
      var hi := CrRead(c, w2.trace, c.k.accRdat);
      CombineSplit(lo.value, hi.value);
      assert ReadInHalves(c, t, s2.trace, w1.trace, w2.trace, x.value.value, x.trace);
    }
  }

  /**
   * A value delivered by the widget read is the value of a read transfer
   * that succeeded, started after `t` and ended within the call.
   */
  lemma ByteAccReadViaTransfer(c: Ctx, t: seq<Op>, addr: bv32)
    ensures var r := ByteAccRead(c, t, addr);
      r.value.Some? ==>
        exists s :: t < s && ReadTransfer(c, s, addr).rc == 0 &&
          ReadTransfer(c, s, addr).value == r.value && ReadTransfer(c, s, addr).trace <= r.trace
  {
    var r := ByteAccRead(c, t, addr);
    if r.value.Some? {
      var w := PendingWait(c, t);
      PendingWaitExtends(c, t);
      if c.rev == BlueField2 {
        var il := InterlockAcquire(c, w.trace);
        InterlockAcquireExtends(c, w.trace);
        var x := ReadTransfer(c, il.trace, addr);
        ReadTransferFacts(c, il.trace, addr);
        CrWriteExtends(c, x.trace, c.k.accInterlock, 0);
        assert ReadTransfer(c, il.trace, addr).trace <= r.trace;
      } else {
        ReadTransferFacts(c, w.trace, addr);
        assert ReadTransfer(c, w.trace, addr) == r;
      }
    }
  }

  /** Halves read after a later start and ending earlier qualify for the wider span too. */
  lemma ReadInHalvesWiden(c: Ctx, t: seq<Op>, s: seq<Op>, h0: seq<Op>, h1: seq<Op>, h2: seq<Op>, v: bv64, e: seq<Op>, f: seq<Op>)
    requires ReadInHalves(c, s, h0, h1, h2, v, e) && t < s && e <= f
    ensures ReadInHalves(c, t, h0, h1, h2, v, f)
  {
  }

  /**
   * On either revision, a value delivered by the widget read was read in
   * two halves, low word first, within the accesses of this call.
   */
  lemma ByteAccReadHalves(c: Ctx, t: seq<Op>, addr: bv32)
    ensures var r := ByteAccRead(c, t, addr);
      r.value.Some? ==> exists h0, h1, h2 :: ReadInHalves(c, t, h0, h1, h2, r.value.value, r.trace)
  {
    var r := ByteAccRead(c, t, addr);
    if r.value.Some? {
      ByteAccReadViaTransfer(c, t, addr);
      var s :| t < s && ReadTransfer(c, s, addr).rc == 0 &&
        ReadTransfer(c, s, addr).value == r.value && ReadTransfer(c, s, addr).trace <= r.trace;
      var x := ReadTransfer(c, s, addr);
      ReadTransferHalves(c, s, addr);
      var h0, h1, h2 :| ReadInHalves(c, s, h0, h1, h2, x.value.value, x.trace) &&
        CrRead(c, h2, c.k.accRdat).trace == x.trace;
      ReadInHalvesWiden(c, t, s, h0, h1, h2, x.value.value, x.trace, r.trace);
    }
  }

  /** The same bus and constants with the interlock register moved to `a`. */
  function InterlockAt(c: Ctx, a: bv32): (d: Ctx)
    ensures d.env == c.env && d.rev == c.rev && d.k.accInterlock == a
  {
    c.(k := c.k.(accInterlock := a))
  }

  /** A 4-byte read never looks at the interlock register's offset. */
  lemma CrReadIgnoresInterlock(c: Ctx, a: bv32, h: seq<Op>, x: bv32)
    ensures CrRead(c, h, x) == CrRead(InterlockAt(c, a), h, x)
  {
    CrReadSameCrSpace(c, InterlockAt(c, a), h, x);
  }

  /** A 4-byte write never looks at the interlock register's offset. */
  lemma CrWriteIgnoresInterlock(c: Ctx, a: bv32, h: seq<Op>, x: bv32, v: bv32)
    ensures CrWrite(c, h, x, v) == CrWrite(InterlockAt(c, a), h, x, v)
  {
    CrWriteSameCrSpace(c, InterlockAt(c, a), h, x, v);
  }

  /** Neither does the pending wait. */
  lemma PendingWaitIgnoresInterlock(c: Ctx, a: bv32, h: seq<Op>)
    ensures PendingWait(c, h) == PendingWait(InterlockAt(c, a), h)
  {
    var d := InterlockAt(c, a);
    forall g
      ensures CtlProbe(c)(g) == CtlProbe(d)(g)
    {
      CrReadIgnoresInterlock(c, a, g, c.k.accCtl);
    }
    PollAfterSameProbe(CtlProbe(c), CtlProbe(d), c.k.pending, c.k.lockRetryCnt, h, 0);
  }

  /** The read transfer never looks at the interlock register's offset. */
  lemma ReadTransferIgnoresInterlock(c: Ctx, a: bv32, t: seq<Op>, addr: bv32)
    ensures ReadTransfer(c, t, addr) == ReadTransfer(InterlockAt(c, a), t, addr)
  {
    var d := InterlockAt(c, a);
    assert ReadCtlWord(d.k) == ReadCtlWord(c.k);
    var s1 := CrWrite(c, t, c.k.accAddr, addr);
    CrWriteIgnoresInterlock(c, a, t, c.k.accAddr, addr);
    if s1.rc == 0 {
      var s2 := CrWrite(c, s1.trace, c.k.accCtl, ReadCtlWord(c.k));
      CrWriteIgnoresInterlock(c, a, s1.trace, c.k.accCtl, ReadCtlWord(c.k));
      if s2.rc == 0 {
        var w1 := PendingWait(c, s2.trace);
        PendingWaitIgnoresInterlock(c, a, s2.trace);
        if w1.rc == 0 {
          var lo := CrRead(c, w1.trace, c.k.accRdat);
          CrReadIgnoresInterlock(c, a, w1.trace, c.k.accRdat);
          if lo.rc == 0 {
            var w2 := PendingWait(c, lo.trace);
            PendingWaitIgnoresInterlock(c, a, lo.trace);
            if w2.rc == 0 {
              var hi := CrRead(c, w2.trace, c.k.accRdat);
              CrReadIgnoresInterlock(c, a, w2.trace, c.k.accRdat);
              var v := if hi.rc != 0 then Reading(hi.trace, hi.rc, None)
                else Reading(hi.trace, 0, Some(Combine(lo.value, hi.value)));
              assert ReadTransfer(c, t, addr) == v;
              assert ReadTransfer(d, t, addr) == v;
            } else {
              assert ReadTransfer(d, t, addr) == Reading(w2.trace, w2.rc, None);
            }
          } else {
            assert ReadTransfer(d, t, addr) == Reading(lo.trace, lo.rc, None);
          }
        } else {
          assert ReadTransfer(d, t, addr) == Reading(w1.trace, w1.rc, None);
        }
      } else {
        assert ReadTransfer(d, t, addr) == Reading(s2.trace, s2.rc, None);
      }
    } else {
      assert ReadTransfer(d, t, addr) == Reading(s1.trace, s1.rc, None);
    }
  }

  /** The write transfer never looks at the interlock register's offset. */
  lemma WriteTransferIgnoresInterlock(c: Ctx, a: bv32, t: seq<Op>, value: bv64)
    ensures WriteTransfer(c, t, value) == WriteTransfer(InterlockAt(c, a), t, value)
  {
    var s1 := CrWrite(c, t, c.k.accCtl, c.k.size4Byte);
    CrWriteIgnoresInterlock(c, a, t, c.k.accCtl, c.k.size4Byte);
    if s1.rc == 0 {
      var s2 := CrWrite(c, s1.trace, c.k.accWdat, Lo32(value));
      CrWriteIgnoresInterlock(c, a, s1.trace, c.k.accWdat, Lo32(value));
      if s2.rc == 0 {
        var w := PendingWait(c, s2.trace);
        PendingWaitIgnoresInterlock(c, a, s2.trace);
        if w.rc == 0 {
          CrWriteIgnoresInterlock(c, a, w.trace, c.k.accWdat, Hi32(value));
        }
      }
    }
  }

  /**
   * On BlueField-1 the widget read makes no use of the interlock: wherever
   * the interlock register lies, it issues the same transactions and returns
   * the same code and value.
   */
  lemma ByteAccReadIgnoresInterlock(c: Ctx, t: seq<Op>, addr: bv32, a: bv32)
    requires c.rev == BlueField1
    ensures ByteAccRead(c, t, addr) == ByteAccRead(InterlockAt(c, a), t, addr)
  {
    PendingWaitIgnoresInterlock(c, a, t);
    ReadTransferIgnoresInterlock(c, a, PendingWait(c, t).trace, addr);
  }

  /** The same for the widget write on BlueField-1. */
  lemma ByteAccWriteIgnoresInterlock(c: Ctx, t: seq<Op>, addr: bv32, value: bv64, a: bv32)
    requires c.rev == BlueField1
    ensures ByteAccWrite(c, t, addr, value) == ByteAccWrite(InterlockAt(c, a), t, addr, value)
  {
    var s := CrWrite(c, t, c.k.accAddr, addr);
    CrWriteIgnoresInterlock(c, a, t, c.k.accAddr, addr);
    WriteTransferIgnoresInterlock(c, a, s.trace, value);
  }

  /** `rshim_byte_acc_pending_wait` over the bus. */
  method RshimByteAccPendingWait(dev: PciDev, k: Consts) returns (rc: int)
    modifies dev
    ensures var s := PendingWait(Ctx(dev.env, dev.deviceId, k), old(dev.trace));
      dev.trace == s.trace && rc == s.rc
  {
    ghost var probe := CtlProbe(Ctx(dev.env, dev.deviceId, k));
    ghost var t0 := dev.trace;
    var retry: nat := 0;
    while true
      invariant retry <= k.lockRetryCnt
      invariant PollAfter(probe, k.pending, k.lockRetryCnt, t0, 0)
             == PollAfter(probe, k.pending, k.lockRetryCnt, dev.trace, retry)
      decreases k.lockRetryCnt - retry
    {
      var readValue: bv32;
      rc, readValue := CrspaceRshGwRead(dev, k, k.accCtl);
      if rc != 0 {
        return;
      }
      retry := retry + 1;
      if retry > k.lockRetryCnt {
        rc := -ETIMEDOUT;
        return;
      }
      if !Masked(readValue, k.pending) {
        break;
      }
    }
    rc := 0;
  }

  /** `rshim_byte_acc_lock_acquire` over the bus. */
  method RshimByteAccLockAcquire(dev: PciDev, k: Consts) returns (rc: int)
    modifies dev
    ensures var s := InterlockAcquire(Ctx(dev.env, dev.deviceId, k), old(dev.trace));
      dev.trace == s.trace && rc == s.rc
  {
    ghost var probe := InterlockProbe(Ctx(dev.env, dev.deviceId, k));
    ghost var t0 := dev.trace;
    var retry: nat := 0;
    while true
      invariant retry <= k.lockRetryCnt
      invariant PollBefore(probe, INTERLOCK_TAKEN, k.lockRetryCnt, t0, 0)
             == PollBefore(probe, INTERLOCK_TAKEN, k.lockRetryCnt, dev.trace, retry)
      decreases k.lockRetryCnt - retry
    {
      retry := retry + 1;
      if retry > k.lockRetryCnt {
        rc := -ETIMEDOUT;
        return;
      }
      var readValue: bv32;
      rc, readValue := CrspaceRshGwRead(dev, k, k.accInterlock);
      if rc != 0 {
        return;
      }
      if Masked(readValue, INTERLOCK_TAKEN) {
        break;
      }
    }
    rc := 0;
  }

  /** `rshim_byte_acc_lock_release` over the bus. */
  method RshimByteAccLockRelease(dev: PciDev, k: Consts) returns (rc: int)
    modifies dev
    ensures var s := InterlockRelease(Ctx(dev.env, dev.deviceId, k), old(dev.trace));
      dev.trace == s.trace && rc == s.rc
  {
    rc := CrspaceRshGwWrite(dev, k, k.accInterlock, 0);
  }

  /** `rshim_byte_acc_read` over the bus; `None` stands for `*result` left unwritten. */
  method RshimByteAccRead(dev: PciDev, k: Consts, addr: bv32) returns (rc: int, result: Option<bv64>)
    modifies dev
    ensures var r := ByteAccRead(Ctx(dev.env, dev.deviceId, k), old(dev.trace), addr);
      dev.trace == r.trace && rc == r.rc && result == r.value
  {
    result := None;
    rc := RshimByteAccPendingWait(dev, k);
    if rc != 0 {
      return;
    }
    if dev.deviceId == BlueField2 {
      rc := RshimByteAccLockAcquire(dev, k);
      if rc != 0 {
        return;
      }
    }
    label exit: {
      rc := CrspaceRshGwWrite(dev, k, k.accAddr, addr);
      if rc != 0 {
        break exit;
      }
      rc := CrspaceRshGwWrite(dev, k, k.accCtl, ReadCtlWord(k));
      if rc != 0 {
        break exit;
      }
      rc := RshimByteAccPendingWait(dev, k);
      if rc != 0 {
        break exit;
      }
      var lo: bv32;
      rc, lo := CrspaceRshGwRead(dev, k, k.accRdat);
      if rc != 0 {
        break exit;
      }
      rc := RshimByteAccPendingWait(dev, k);
      if rc != 0 {
        break exit;
      }
      var hi: bv32;
      rc, hi := CrspaceRshGwRead(dev, k, k.accRdat);
      if rc != 0 {
        break exit;
      }
      result := Some(Combine(lo, hi));
    }
    if dev.deviceId == BlueField2 {
      rc := RshimByteAccLockRelease(dev, k);
    }
  }

  /** `rshim_byte_acc_write` over the bus. */
  method RshimByteAccWrite(dev: PciDev, k: Consts, addr: bv32, value: bv64) returns (rc: int)
    modifies dev
    ensures var s := ByteAccWrite(Ctx(dev.env, dev.deviceId, k), old(dev.trace), addr, value);
      dev.trace == s.trace && rc == s.rc
  {
    if dev.deviceId == BlueField2 {
      rc := RshimByteAccLockAcquire(dev, k);
      if rc != 0 {
        return;
      }
    }
    rc := CrspaceRshGwWrite(dev, k, k.accAddr, addr);
    if rc != 0 {
      return;
    }
    label exit: {
      rc := CrspaceRshGwWrite(dev, k, k.accCtl, k.size4Byte);
      if rc != 0 {
        break exit;
      }
      rc := CrspaceRshGwWrite(dev, k, k.accWdat, Lo32(value));
      if rc != 0 {
        break exit;
      }
      rc := RshimByteAccPendingWait(dev, k);
      if rc != 0 {
        break exit;
      }
      rc := CrspaceRshGwWrite(dev, k, k.accWdat, Hi32(value));
    }
    if dev.deviceId == BlueField2 {
      rc := RshimByteAccLockRelease(dev, k);
    }
  }
}
