/**
 * The two bounded busy-wait loops of the driver, stated once over the read
 * that is repeated (the probe) and the bit that is tested.
 *
 * - `PollAfter` is the loop of `trio_cr_gw_lock_acquire` and
 *   `rshim_byte_acc_pending_wait`: read, fail on error, count the read and
 *   time out once the count passes the bound, and repeat while the bit is set.
 * - `PollBefore` is the loop of `rshim_byte_acc_lock_acquire`: count first
 *   and time out once the count passes the bound, then read, fail on error,
 *   and repeat while the bit is clear.
 */
module Polling {
  import opened Bus

  /** One read of a status register, started after the history given. */
  type Probe = seq<Op> -> Reading<bv32>

  /** Some bit of `mask` is set in `v`. */
  predicate Masked(v: bv32, mask: bv32) {
    v & mask != 0
  }

  /** The loop of lines 103-110 and 238-245, entered with `retry` reads counted. */
  function PollAfter(probe: Probe, mask: bv32, cnt: nat, t: seq<Op>, retry: nat): Status
    requires retry <= cnt
    decreases cnt - retry
  {
    var r := probe(t);
    if r.rc != 0 then Status(r.trace, r.rc)
    else if retry + 1 > cnt then Status(r.trace, -ETIMEDOUT)
    else if Masked(r.value, mask) then PollAfter(probe, mask, cnt, r.trace, retry + 1)
    else Status(r.trace, 0)
  }

  /** The loop of lines 256-264, entered with `retry` reads counted. */
  function PollBefore(probe: Probe, mask: bv32, cnt: nat, t: seq<Op>, retry: nat): Status
    requires retry <= cnt
    decreases cnt - retry
  {
    if retry + 1 > cnt then Status(t, -ETIMEDOUT)
    else
      var r := probe(t);
      if r.rc != 0 then Status(r.trace, r.rc)
      else if !Masked(r.value, mask) then PollBefore(probe, mask, cnt, r.trace, retry + 1)
      else Status(r.trace, 0)
  }

  /** The history after `n` probes issued one after another from `t`. */
  function Chain(probe: Probe, t: seq<Op>, n: nat): seq<Op>
    decreases n
  {
    if n == 0 then t else Chain(probe, probe(t).trace, n - 1)
  }

  /** The `i`-th probe (from 0) succeeds and sees the bit set. */
  predicate SetAt(probe: Probe, mask: bv32, t: seq<Op>, i: nat) {
    var r := probe(Chain(probe, t, i));
    r.rc == 0 && Masked(r.value, mask)
  }

  /** The `i`-th probe (from 0) succeeds and sees the bit clear. */
  predicate ClearAt(probe: Probe, mask: bv32, t: seq<Op>, i: nat) {
    var r := probe(Chain(probe, t, i));
    r.rc == 0 && !Masked(r.value, mask)
  }

  /** Probing once more after the `n`-th probe ends where that probe ended. */
  lemma {:induction false} ChainLast(probe: Probe, t: seq<Op>, n: nat)
    ensures probe(Chain(probe, t, n)).trace == Chain(probe, t, n + 1)
    decreases n
  {
    if n > 0 {
      ChainLast(probe, probe(t).trace, n - 1);
    }
  }

  /** Probe `i + 1` from `t` is probe `i` from where the first probe ended. */
  lemma ChainShift(probe: Probe, t: seq<Op>, i: nat)
    ensures Chain(probe, t, i + 1) == Chain(probe, probe(t).trace, i)
  {
  }

  /**
   * `PollAfter` from `retry` stops at probe `j`: the `j` probes before it
   * all saw the bit set; if probe `j` failed its error is returned; if `j` is
   * the last probe the bound allows the loop times out whatever the value;
   * otherwise probe `j` saw the bit clear and the loop succeeds.
   */
  predicate AfterStopsAt(probe: Probe, mask: bv32, cnt: nat, t: seq<Op>, retry: nat, j: nat)
    requires retry <= cnt
  {
    j <= cnt - retry &&
    (forall i :: 0 <= i < j ==> SetAt(probe, mask, t, i)) &&
    var r := probe(Chain(probe, t, j));
    PollAfter(probe, mask, cnt, t, retry) ==
      (if r.rc != 0 then Status(r.trace, r.rc)
       else if j == cnt - retry then Status(r.trace, -ETIMEDOUT)
       else Status(r.trace, 0)) &&
    (r.rc == 0 && j < cnt - retry ==> !Masked(r.value, mask))
  }

  /**
   * `PollBefore` from `retry` stops after `j` probes that all saw the bit
   * clear: if `j` reached the bound it times out without a further probe;
   * otherwise probe `j` either failed, and its error is returned, or saw the
   * bit set, and the loop succeeds.
   */
  predicate BeforeStopsAt(probe: Probe, mask: bv32, cnt: nat, t: seq<Op>, retry: nat, j: nat)
    requires retry <= cnt
  {
    j <= cnt - retry &&
    (forall i :: 0 <= i < j ==> ClearAt(probe, mask, t, i)) &&
    (j == cnt - retry ==> PollBefore(probe, mask, cnt, t, retry) == Status(Chain(probe, t, j), -ETIMEDOUT)) &&
    (j < cnt - retry ==>
       var r := probe(Chain(probe, t, j));
       PollBefore(probe, mask, cnt, t, retry) == Status(r.trace, r.rc) &&
       (r.rc == 0 ==> Masked(r.value, mask)))
  }

  /** Every run of `PollAfter`, on every bus, stops at some probe as `AfterStopsAt` says. */
  lemma {:induction false} PollAfterOutcome(probe: Probe, mask: bv32, cnt: nat, t: seq<Op>, retry: nat)
    requires retry <= cnt
    decreases cnt - retry
    ensures exists j: nat :: AfterStopsAt(probe, mask, cnt, t, retry, j)
  {
    var r := probe(t);
    assert Chain(probe, t, 0) == t;
    if r.rc != 0 || retry + 1 > cnt || !Masked(r.value, mask) {
      assert AfterStopsAt(probe, mask, cnt, t, retry, 0);
    } else {
      assert PollAfter(probe, mask, cnt, t, retry) == PollAfter(probe, mask, cnt, r.trace, retry + 1);
      PollAfterOutcome(probe, mask, cnt, r.trace, retry + 1);
      var j: nat :| AfterStopsAt(probe, mask, cnt, r.trace, retry + 1, j);
      ChainShift(probe, t, j);
      assert SetAt(probe, mask, t, 0);
      forall i | 1 <= i < j + 1
        ensures SetAt(probe, mask, t, i)
      {
        ChainShift(probe, t, i - 1);
        assert SetAt(probe, mask, r.trace, i - 1);
      }
      assert AfterStopsAt(probe, mask, cnt, t, retry, j + 1);
    }
  }

  /** Every run of `PollBefore`, on every bus, stops as `BeforeStopsAt` says. */
  lemma {:induction false} PollBeforeOutcome(probe: Probe, mask: bv32, cnt: nat, t: seq<Op>, retry: nat)
    requires retry <= cnt
    decreases cnt - retry
    ensures exists j: nat :: BeforeStopsAt(probe, mask, cnt, t, retry, j)
  {
    assert Chain(probe, t, 0) == t;
    if retry + 1 > cnt {
      assert BeforeStopsAt(probe, mask, cnt, t, retry, 0);
    } else {
      var r := probe(t);
      if r.rc != 0 || Masked(r.value, mask) {
        assert BeforeStopsAt(probe, mask, cnt, t, retry, 0);
      } else {
        PollBeforeOutcome(probe, mask, cnt, r.trace, retry + 1);
        var j: nat :| BeforeStopsAt(probe, mask, cnt, r.trace, retry + 1, j);
        ChainShift(probe, t, j);
        assert ClearAt(probe, mask, t, 0);
        forall i | 1 <= i < j + 1
          ensures ClearAt(probe, mask, t, i)
        {
          ChainShift(probe, t, i - 1);
          assert ClearAt(probe, mask, r.trace, i - 1);
        }
        assert PollBefore(probe, mask, cnt, t, retry) == PollBefore(probe, mask, cnt, r.trace, retry + 1);
        assert BeforeStopsAt(probe, mask, cnt, t, retry, j + 1);
      }
    }
  }

  /**
   * A register whose bit never clears: `PollAfter` from zero issues exactly
   * `cnt + 1` probes and then reports a timeout.
   */
  lemma PollAfterNeverClears(probe: Probe, mask: bv32, cnt: nat, t: seq<Op>)
    requires forall i :: 0 <= i <= cnt ==> SetAt(probe, mask, t, i)
    ensures PollAfter(probe, mask, cnt, t, 0) == Status(Chain(probe, t, cnt + 1), -ETIMEDOUT)
  {
    PollAfterOutcome(probe, mask, cnt, t, 0);
    var j: nat :| AfterStopsAt(probe, mask, cnt, t, 0, j);
    assert SetAt(probe, mask, t, j);
    ChainLast(probe, t, j);
  }

  /**
   * A register whose bit never becomes set: `PollBefore` from zero issues
   * exactly `cnt` probes and then reports a timeout.
   */
  lemma PollBeforeNeverSets(probe: Probe, mask: bv32, cnt: nat, t: seq<Op>)
    requires forall i :: 0 <= i < cnt ==> ClearAt(probe, mask, t, i)
    ensures PollBefore(probe, mask, cnt, t, 0) == Status(Chain(probe, t, cnt), -ETIMEDOUT)
  {
    PollBeforeOutcome(probe, mask, cnt, t, 0);
    var j: nat :| BeforeStopsAt(probe, mask, cnt, t, 0, j);
    assert j < cnt ==> ClearAt(probe, mask, t, j);
  }

  /** A probe that always issues at least one transaction. */
  ghost predicate Issues(probe: Probe) {
    forall h :: h < probe(h).trace
  }

  /** `PollAfter` reads at least once, so it always issues some transaction. */
  lemma {:induction false} PollAfterExtends(probe: Probe, mask: bv32, cnt: nat, t: seq<Op>, retry: nat)
    requires retry <= cnt
    requires Issues(probe)
    ensures t < PollAfter(probe, mask, cnt, t, retry).trace
    decreases cnt - retry
  {
    var r := probe(t);
    assert t < r.trace;
    if r.rc == 0 && retry + 1 <= cnt && Masked(r.value, mask) {
      PollAfterExtends(probe, mask, cnt, r.trace, retry + 1);
    }
  }

  /**
   * `PollBefore` may stop before its first read, so it only extends the
   * history; entered with its whole budget spent, it issues nothing.
   */
  lemma {:induction false} PollBeforeExtends(probe: Probe, mask: bv32, cnt: nat, t: seq<Op>, retry: nat)
    requires retry <= cnt
    requires Issues(probe)
    ensures t <= PollBefore(probe, mask, cnt, t, retry).trace
    ensures retry == cnt ==> PollBefore(probe, mask, cnt, t, retry) == Status(t, -ETIMEDOUT)
    decreases cnt - retry
  {
    if retry + 1 <= cnt {
      var r := probe(t);
      assert t < r.trace;
      if r.rc == 0 && !Masked(r.value, mask) {
        PollBeforeExtends(probe, mask, cnt, r.trace, retry + 1);
      }
    }
  }

  /** Two probes that answer every history alike make `PollAfter` behave alike. */
  lemma {:induction false} PollAfterSameProbe(p: Probe, q: Probe, mask: bv32, cnt: nat, t: seq<Op>, retry: nat)
    requires retry <= cnt
    requires forall h :: p(h) == q(h)
    ensures PollAfter(p, mask, cnt, t, retry) == PollAfter(q, mask, cnt, t, retry)
    decreases cnt - retry
  {
    var r := p(t);
    if r.rc == 0 && retry + 1 <= cnt && Masked(r.value, mask) {
      PollAfterSameProbe(p, q, mask, cnt, r.trace, retry + 1);
    }
  }
}
