/** LspConnection: one peer's identity, its closed flag and last-receipt time,
    and the epoch monitor (StatusChecker) that fires the epoch triggers and
    finally calls the close callback. */
module Connections {
  import opened Java
  import opened Params

  /** The callbacks a monitor drives. The server's per-connection actions
      remember the id they were created for; the client has its own. */
  datatype Actions = ServerActions(connId: int16) | ClientActions

  /** What the monitor does, in order. */
  datatype Event = EpochTriggers | CloseConnection

  /** When `close()` is seen by the monitor: never during the observed run, or
      first by the loop test number `check` (tests are counted from 0). */
  datatype Closing = NeverClosed | ClosedBefore(check: nat)

  predicate SeesClosed(closing: Closing, check: nat)
  {
    closing.ClosedBefore? && closing.check <= check
  }

  /** `n` epoch-trigger events in a row. */
  function EpochTriggersOf(n: nat): (t: seq<Event>)
    ensures |t| == n
  {
    seq(n, _ => EpochTriggers)
  }

  /** The number of epoch-trigger events in a run. */
  function TriggerCount(t: seq<Event>): (n: nat)
    ensures n <= |t|
  {
    if t == [] then 0 else (if t[0] == EpochTriggers then 1 else 0) + TriggerCount(t[1..])
  }

  /** The events of the rest of a monitor run.
      `lastTime` and `limit` are the loop's locals, `check` counts the loop
      tests made so far, and `times` holds the values of lastMsgTime that the
      coming epochs read, one per epoch. When `times` runs out before the loop
      ends, the run is still sleeping in its next epoch and the events so far
      are returned. */
  function StatusTrace(epochLimit: int, lastTime: int, limit: int, check: nat,
                       closing: Closing, times: seq<int>): (t: seq<Event>)
    ensures |t| <= |times| + 1
    decreases |times|
  {
    if SeesClosed(closing, check) || limit <= 0 then [CloseConnection]
    else if times == [] then []
    else if times[0] != lastTime then
      [EpochTriggers] + StatusTrace(epochLimit, times[0], epochLimit, check + 1, closing, times[1..])
    else
      [EpochTriggers] + StatusTrace(epochLimit, lastTime, limit - 1, check + 1, closing, times[1..])
  }

  class LspConnection {
    const id: int16
    /** The host key (the remote address's hash code). */
    const host: int32
    const params: LspParams
    const actions: Actions
    var closed: bool
    var lastMsgTime: int64

    /** The constructor proper, once both arguments are known to be non-null;
        `now` is System.currentTimeMillis() at construction. */
    constructor (id: int16, host: int32, params: LspParams, actions: Actions, now: int64)
      ensures GetId() == id && GetHost() == host && this.params == params && this.actions == actions
      ensures !closed && GetLastMsgTime() == now
    {
      this.id := id;
      this.host := host;
      this.params := params;
      this.actions := actions;
      this.closed := false;
      this.lastMsgTime := now;
    }

    /** `new LspConnection(id, host, params, actions)`: a null params or
        actions throws before any field is set or the monitor is started. */
    static method Create(id: int16, host: int32, params: Option<LspParams>,
                         actions: Option<Actions>, now: int64) returns (r: Result<LspConnection>)
      ensures r.Throws? <==> params.None? || actions.None?
      ensures r.Throws? ==> r.exc == NullPointer
      ensures r.Ok? ==> fresh(r.value) && r.value.GetId() == id && r.value.GetHost() == host
      ensures r.Ok? ==> r.value.params == params.value && r.value.actions == actions.value
      ensures r.Ok? ==> !r.value.closed && r.value.GetLastMsgTime() == now
    {
      if params.None? || actions.None? {
        return Throws(NullPointer);
      }
      var c := new LspConnection(id, host, params.value, actions.value, now);
      r := Ok(c);
    }

    function GetId(): (r: int16)
      ensures r == id
    {
      id
    }

    function GetHost(): (r: int32)
      ensures r == host
    {
      host
    }

    function GetLastMsgTime(): (r: int64)
      reads this
      ensures r == lastMsgTime
    {
      lastMsgTime
    }

    method SetLastMsgTime(time: int64)
      modifies this`lastMsgTime
      ensures GetLastMsgTime() == time && closed == old(closed)
    {
      lastMsgTime := time;
    }

    /** Only raises the flag; the monitor notices it at its next loop test. */
    method Close()
      modifies this`closed
      ensures closed && lastMsgTime == old(lastMsgTime)
    {
      closed := true;
    }

    /** StatusChecker.run, started with this connection. Each epoch's sleep is
        one step; `closing` says when another thread's `close()` is seen and
        `times` gives the value of lastMsgTime each epoch reads. `sampled`
        counts the reads of lastMsgTime: one at the start and one per epoch. */
    method RunStatusChecker(closing: Closing, times: seq<int64>) returns (trace: seq<Event>, sampled: nat)
      ensures trace == StatusTrace(params.epochLimit, lastMsgTime, params.epochLimit, 0, closing, times)
      ensures sampled == 1 + TriggerCount(trace)
    {
      var epochLimit: int := params.epochLimit;
      var lastTime: int := lastMsgTime;
      var limit: int := epochLimit;
      var check: nat := 0;
      ghost var full := StatusTrace(epochLimit, lastTime, limit, check, closing, times);
      trace := [];
      while !SeesClosed(closing, check) && limit > 0 && check < |times|
        invariant check <= |times|
        invariant trace == EpochTriggersOf(check)
        invariant trace + StatusTrace(epochLimit, lastTime, limit, check, closing, times[check..]) == full
        decreases |times| - check
      {
        var time: int := times[check];
        StepAt(epochLimit, lastTime, limit, check, closing, times);
        limit := limit - 1;                 // the post-decrement in `limit-- > 0`
        trace := trace + [EpochTriggers];   // sleep(epoch); actions.epochTriggers()
        if time != lastTime {
          lastTime := time;
          limit := epochLimit;
        }
        check := check + 1;
      }
      sampled := 1 + check;
      EndAt(epochLimit, lastTime, limit, check, closing, times);
      if SeesClosed(closing, check) || limit <= 0 {
        trace := trace + [CloseConnection];  // actions.closeConnection()
      }
      TriggerCountOf(check);
    }
  }

  /** The loop body's step, stated on the whole sample sequence. */
  lemma StepAt(epochLimit: int, lastTime: int, limit: int, check: nat, closing: Closing, times: seq<int>)
    requires !SeesClosed(closing, check) && limit > 0 && check < |times|
    ensures EpochTriggersOf(check) + StatusTrace(epochLimit, lastTime, limit, check, closing, times[check..])
            == EpochTriggersOf(check + 1) + StatusTrace(epochLimit,
                                                  if times[check] != lastTime then times[check] else lastTime,
                                                  if times[check] != lastTime then epochLimit else limit - 1,
                                                  check + 1, closing, times[check + 1..])
  {
    var rest := times[check..];
    assert rest[0] == times[check] && rest[1..] == times[check + 1..];
    StatusTraceStep(epochLimit, lastTime, limit, check, closing, rest);
    TriggersSnoc(check);
  }

  /** What is left of the run once the loop test fails. */
  lemma EndAt(epochLimit: int, lastTime: int, limit: int, check: nat, closing: Closing, times: seq<int>)
    requires check <= |times|
    requires SeesClosed(closing, check) || limit <= 0 || check == |times|
    ensures StatusTrace(epochLimit, lastTime, limit, check, closing, times[check..])
            == if SeesClosed(closing, check) || limit <= 0 then [CloseConnection] else []
  {
  }

  /** One epoch of the monitor: a trigger, then the rest of the run with
      the window reset if lastMsgTime changed, or one epoch fewer if not. */
  lemma StatusTraceStep(epochLimit: int, lastTime: int, limit: int, check: nat,
                        closing: Closing, times: seq<int>)
    requires !SeesClosed(closing, check) && limit > 0 && times != []
    ensures StatusTrace(epochLimit, lastTime, limit, check, closing, times)
            == [EpochTriggers] + StatusTrace(epochLimit,
                                             if times[0] != lastTime then times[0] else lastTime,
                                             if times[0] != lastTime then epochLimit else limit - 1,
                                             check + 1, closing, times[1..])
  {
  }

  lemma TriggersCons(n: nat)
    ensures EpochTriggersOf(n + 1) == [EpochTriggers] + EpochTriggersOf(n)
  {
  }

  lemma TriggersSnoc(n: nat)
    ensures EpochTriggersOf(n) + [EpochTriggers] == EpochTriggersOf(n + 1)
  {
  }

  lemma {:induction false} TriggerCountOf(n: nat)
    ensures TriggerCount(EpochTriggersOf(n)) == n
    ensures TriggerCount(EpochTriggersOf(n) + [CloseConnection]) == n
  {
    if n > 0 {
      TriggerCountOf(n - 1);
      assert EpochTriggersOf(n)[1..] == EpochTriggersOf(n - 1);
      assert (EpochTriggersOf(n) + [CloseConnection])[1..] == EpochTriggersOf(n - 1) + [CloseConnection];
    } else {
      assert ([] + [CloseConnection])[1..] == [];
    }
  }

  /** The close callback is called at most once and only as the last event;
      it is missing only when the observed epochs ran out while the loop was
      still going. */
  lemma {:induction false} CloseIsLastAndOnce(epochLimit: int, lastTime: int, limit: int, check: nat,
                                              closing: Closing, times: seq<int>)
    ensures var t := StatusTrace(epochLimit, lastTime, limit, check, closing, times);
            && (CloseConnection in t ==> |t| - 1 <= |times| && t == EpochTriggersOf(|t| - 1) + [CloseConnection])
            && (CloseConnection !in t ==> t == EpochTriggersOf(|times|))
    decreases |times|
  {
    var t := StatusTrace(epochLimit, lastTime, limit, check, closing, times);
    if SeesClosed(closing, check) || limit <= 0 {
      assert t == EpochTriggersOf(0) + [CloseConnection];
    } else if times == [] {
    } else {
      var lastTime' := if times[0] != lastTime then times[0] else lastTime;
      var limit' := if times[0] != lastTime then epochLimit else limit - 1;
      var t' := StatusTrace(epochLimit, lastTime', limit', check + 1, closing, times[1..]);
      CloseIsLastAndOnce(epochLimit, lastTime', limit', check + 1, closing, times[1..]);
      assert t == [EpochTriggers] + t';
      if CloseConnection in t' {
        TriggersCons(|t'| - 1);
      } else {
        TriggersCons(|times| - 1);
      }
    }
  }

  /** A run whose limit is zero or negative fires no epoch and closes at once. */
  lemma NonPositiveLimitClosesAtOnce(epochLimit: int, start: int, closing: Closing, times: seq<int>)
    requires epochLimit <= 0
    ensures StatusTrace(epochLimit, start, epochLimit, 0, closing, times) == [CloseConnection]
  {
  }

  /** The samples a run compares: lastMsgTime read at the start (x[0]), then
      one read per epoch. Before loop test `n` the last `limit` epochs saw no
      change of lastMsgTime. */
  ghost predicate QuietWindow(x: seq<int>, n: nat, limit: int)
    requires n < |x|
  {
    limit <= n && forall k :: n - limit <= k < n ==> x[k] == x[k + 1]
  }

  /** The number of epochs, up to loop test `i`, since lastMsgTime last changed. */
  function Unchanged(x: seq<int>, i: nat): (u: nat)
    requires i < |x|
    ensures u <= i
  {
    if i == 0 then 0 else if x[i] == x[i - 1] then Unchanged(x, i - 1) + 1 else 0
  }

  lemma {:induction false} QuietIffUnchanged(x: seq<int>, i: nat, limit: int)
    requires i < |x|
    ensures QuietWindow(x, i, limit) <==> Unchanged(x, i) >= limit
    decreases i
  {
    if limit <= 0 {
    } else if i == 0 {
    } else {
      QuietIffUnchanged(x, i - 1, limit - 1);
      if x[i] != x[i - 1] {
        assert x[i - 1] != x[i];
      } else {
        if QuietWindow(x, i - 1, limit - 1) {
          forall k | i - limit <= k < i ensures x[k] == x[k + 1] {
            if k < i - 1 {
              assert i - 1 - (limit - 1) <= k < i - 1;
            }
          }
        }
      }
    }
  }

  /** From loop test `i` on, the run closes right after the first quiet window. */
  lemma {:induction false} QuietTraceFrom(epochLimit: int, x: seq<int>, i: nat, n: nat)
    requires i <= n < |x|
    requires QuietWindow(x, n, epochLimit)
    requires forall m :: i <= m < n ==> !QuietWindow(x, m, epochLimit)
    ensures StatusTrace(epochLimit, x[i], epochLimit - Unchanged(x, i), i, NeverClosed, x[i + 1..])
            == EpochTriggersOf(n - i) + [CloseConnection]
    decreases n - i
  {
    QuietIffUnchanged(x, i, epochLimit);
    if i < n {
      var times := x[i + 1..];
      assert times[0] == x[i + 1] && times[1..] == x[i + 2..];
      QuietTraceFrom(epochLimit, x, i + 1, n);
      TriggersCons(n - (i + 1));
    }
  }

  /** From loop test `i` on, a run that meets no quiet window keeps firing. */
  lemma {:induction false} ActiveTraceFrom(epochLimit: int, x: seq<int>, i: nat)
    requires i < |x|
    requires forall m :: i <= m < |x| ==> !QuietWindow(x, m, epochLimit)
    ensures StatusTrace(epochLimit, x[i], epochLimit - Unchanged(x, i), i, NeverClosed, x[i + 1..])
            == EpochTriggersOf(|x| - 1 - i)
    decreases |x| - i
  {
    QuietIffUnchanged(x, i, epochLimit);
    if i < |x| - 1 {
      var times := x[i + 1..];
      assert times[0] == x[i + 1] && times[1..] == x[i + 2..];
      ActiveTraceFrom(epochLimit, x, i + 1);
      TriggersCons(|x| - 1 - (i + 1));
    }
  }

  /** Counting law: a connection that is never closed fires exactly `n` epochs
      and then calls the close callback, where `n` is the first loop test
      preceded by `epochLimit` epochs without a change of lastMsgTime. */
  lemma ClosesAfterFirstQuietWindow(epochLimit: int, start: int, times: seq<int>, n: nat)
    requires n <= |times|
    requires QuietWindow([start] + times, n, epochLimit)
    requires forall m :: 0 <= m < n ==> !QuietWindow([start] + times, m, epochLimit)
    ensures StatusTrace(epochLimit, start, epochLimit, 0, NeverClosed, times)
            == EpochTriggersOf(n) + [CloseConnection]
  {
    var x := [start] + times;
    assert x[0] == start && x[1..] == times;
    QuietTraceFrom(epochLimit, x, 0, n);
  }

  /** Counting law, other half: while no quiet window occurs the monitor fires
      one epoch per observed sample and does not close. */
  lemma KeepsRunningWithoutQuietWindow(epochLimit: int, start: int, times: seq<int>)
    requires forall m :: 0 <= m <= |times| ==> !QuietWindow([start] + times, m, epochLimit)
    ensures StatusTrace(epochLimit, start, epochLimit, 0, NeverClosed, times) == EpochTriggersOf(|times|)
  {
    var x := [start] + times;
    assert x[0] == start && x[1..] == times;
    ActiveTraceFrom(epochLimit, x, 0);
  }

  /** If lastMsgTime never changes, exactly epochLimit epochs fire (none when
      the limit is not positive) and then the close callback. */
  lemma NoReceiptClosesAfterLimit(epochLimit: int, start: int, times: seq<int>)
    requires forall k :: 0 <= k < |times| ==> times[k] == start
    requires epochLimit <= |times|
    ensures StatusTrace(epochLimit, start, epochLimit, 0, NeverClosed, times)
            == EpochTriggersOf(if epochLimit > 0 then epochLimit else 0) + [CloseConnection]
  {
    var x := [start] + times;
    var n := if epochLimit > 0 then epochLimit else 0;
    assert forall k :: 0 <= k < |x| ==> x[k] == start by {
      forall k | 0 <= k < |x| ensures x[k] == start {
        if k > 0 { assert x[k] == times[k - 1]; }
      }
    }
    assert QuietWindow(x, n, epochLimit);
    ClosesAfterFirstQuietWindow(epochLimit, start, times, n);
  }

  /** From loop test `i` on, a run that meets no quiet window before test
      `k`, where `close()` is first seen, fires until `k` and then closes. */
  lemma {:induction false} ClosedActiveFrom(epochLimit: int, x: seq<int>, i: nat, k: nat)
    requires i <= k < |x|
    requires forall m :: i <= m < k ==> !QuietWindow(x, m, epochLimit)
    ensures StatusTrace(epochLimit, x[i], epochLimit - Unchanged(x, i), i, ClosedBefore(k), x[i + 1..])
            == EpochTriggersOf(k - i) + [CloseConnection]
    decreases k - i
  {
    QuietIffUnchanged(x, i, epochLimit);
    if i < k {
      var times := x[i + 1..];
      assert times[0] == x[i + 1] && times[1..] == x[i + 2..];
      ClosedActiveFrom(epochLimit, x, i + 1, k);
      TriggersCons(k - (i + 1));
    }
  }

  /** `close()` takes effect at the next loop test: when it is first seen by
      test `k` and no quiet window has ended the run earlier, the `k` epochs
      already started all fire their triggers, then the close callback runs
      once. Receipts may keep the run alive for more than epochLimit epochs. */
  lemma CloseTakesEffectAtNextCheck(epochLimit: int, start: int, k: nat, times: seq<int>)
    requires k <= |times|
    requires forall m :: 0 <= m < k ==> !QuietWindow([start] + times, m, epochLimit)
    ensures StatusTrace(epochLimit, start, epochLimit, 0, ClosedBefore(k), times)
            == EpochTriggersOf(k) + [CloseConnection]
  {
    var x := [start] + times;
    assert x[0] == start && x[1..] == times;
    ClosedActiveFrom(epochLimit, x, 0, k);
  }

  /** A run kept alive by receipts past its limit: limit 2, a new lastMsgTime
      every epoch, and `close()` seen at the fifth test. */
  lemma CloseAfterLongActivity()
    ensures StatusTrace(2, 0, 2, 0, ClosedBefore(5), [1, 2, 3, 4, 5, 6]) == EpochTriggersOf(5) + [CloseConnection]
  {
    var x := [0] + [1, 2, 3, 4, 5, 6];
    assert x == [0, 1, 2, 3, 4, 5, 6];
    forall m | 0 <= m < 5 ensures !QuietWindow(x, m, 2) {
      if 2 <= m {
        assert x[m - 1] != x[m];
      }
    }
    CloseTakesEffectAtNextCheck(2, 0, 5, [1, 2, 3, 4, 5, 6]);
  }

  /** The monitor test's run: limit 3, lastMsgTime reads 1 at the start and 0
      afterwards. The change at the first epoch restores the limit, so four
      epochs fire, lastMsgTime is read five times, and the connection closes. */
  lemma StatusCheckerTestRun()
    ensures StatusTrace(3, 1, 3, 0, NeverClosed, [0, 0, 0, 0]) == EpochTriggersOf(4) + [CloseConnection]
    ensures 1 + TriggerCount(EpochTriggersOf(4) + [CloseConnection]) == 5
  {
    var x := [1] + [0, 0, 0, 0];
    assert x == [1, 0, 0, 0, 0];
    assert !QuietWindow(x, 3, 3) by { assert x[0] != x[1]; }
    assert QuietWindow(x, 4, 3);
    ClosesAfterFirstQuietWindow(3, 1, [0, 0, 0, 0], 4);
    TriggerCountOf(4);
  }
}
