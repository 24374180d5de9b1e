/** The Agent's durable queue of reports, and the loop that drains it. */
module Outbox {
  import opened Base
  import opened Wire

  datatype OpStatus = Pending | Processing | Completed | Failed

  /** A row of outgoing_ops.  `nextRetry` is stored in whole seconds. */
  datatype Op = Op(report: Report, status: OpStatus, retryCount: nat, nextRetry: Option<int>)

  predicate Finished(op: Op) {
    op.status == Completed || op.status == Failed
  }

  function NewOp(report: Report, status: OpStatus): Op {
    Op(report, status, 0, None)
  }

  /** The row of the oldest unfinished operation, or |ops|: rows are numbered by insertion. */
  function Head(ops: seq<Op>): (h: nat)
    ensures h <= |ops|
    ensures forall j :: 0 <= j < h ==> Finished(ops[j])
    ensures h < |ops| ==> !Finished(ops[h])
  {
    if ops == [] || !Finished(ops[0]) then 0 else 1 + Head(ops[1..])
  }

  /** A timestamp as SQLite text: sub-second digits are cut off. */
  function Seconds(t: Time): int {
    t / SECOND
  }

  predicate Due(op: Op, now: Time) {
    op.status == Pending && (op.nextRetry == None || op.nextRetry.value <= Seconds(now))
  }

  function AtLeastASecond(delay: int): int {
    if delay < SECOND then SECOND else delay
  }

  function Retryable(op: Op, delay: int, now: Time): Op {
    op.(status := Pending, retryCount := op.retryCount + 1,
        nextRetry := Some(Seconds(now + AtLeastASecond(delay))))
  }

  /** The one-second clamp outlives the truncation: a retried operation is not due at `now`. */
  lemma RetryIsLater(op: Op, delay: int, now: Time)
    ensures !Due(Retryable(op, delay, now), now)
    ensures Retryable(op, delay, now).nextRetry.value > Seconds(now)
  {
    assert Seconds(now + SECOND) == Seconds(now) + 1;
    assert now + AtLeastASecond(delay) >= now + SECOND;
  }

  function Min(a: int, b: int): int {
    if a < b then a else b
  }

  /** Exponential in the retry count, capped at 64 intervals. */
  function Backoff(op: Op, syncInterval: int): int {
    Power2(Min(op.retryCount, 6)) * syncInterval
  }

  /** Whatever was being attempted, or blocked behind a purge, becomes pending. */
  function Released(ops: seq<Op>): seq<Op> {
    seq(|ops|, i requires 0 <= i < |ops| => if ops[i].status == Processing then ops[i].(status := Pending) else ops[i])
  }

  datatype Reply = NoReply | Status(code: int)

  datatype Verdict = Accept | Reject | Retry

  function Classify(reply: Reply): Verdict {
    match reply
    case NoReply => Retry
    case Status(code) =>
      if code == 408 || code == 425 || code == 429 || code >= 500 then Retry
      else if code < 200 || code >= 300 then Reject
      else Accept
  }

  /** Everything outside the Agent that one delivery meets. */
  datatype Weather = Weather(hasToken: bool, first: Reply, refreshed: bool, second: Reply)

  /** The reply left after at most one token refresh. */
  function FinalReply(w: Weather): Reply {
    if w.first == Status(401) then (if w.refreshed then w.second else NoReply) else w.first
  }

  /** An operation after one delivery attempt. */
  function Delivered(op: Op, w: Weather, syncInterval: int, now: Time): Op {
    if op.report.Unsupported? then op.(status := Failed)
    else if !w.hasToken then Retryable(op, syncInterval, now)
    else match Classify(FinalReply(w))
      case Accept => op.(status := Completed)
      case Reject => op.(status := Failed)
      case Retry => Retryable(op, Backoff(op, syncInterval), now)
  }

  /** How much work a queue still holds at a fixed clock. */
  function Unfinished(ops: seq<Op>): nat {
    if ops == [] then 0 else (if Finished(ops[0]) then 0 else 1) + Unfinished(ops[1..])
  }

  lemma {:induction false} UnfinishedUpdate(ops: seq<Op>, i: nat, op: Op)
    requires i < |ops| && !Finished(ops[i])
    ensures Unfinished(ops[i := op]) == Unfinished(ops) - (if Finished(op) then 1 else 0)
    decreases |ops|
  {
    if i > 0 {
      assert ops[i := op][1..] == ops[1..][i - 1 := op];
      UnfinishedUpdate(ops[1..], i - 1, op);
    } else {
      assert ops[i := op][1..] == ops[1..];
    }
  }

  /** One delivery attempt: the row tried, the queue as it stood then, and what it met. */
  datatype Attempt = Attempt(row: nat, queue: seq<Op>, weather: Weather)

  /** The attempt was of a due row with nothing unfinished before it. */
  ghost predicate InOrder(a: Attempt, now: Time) {
    && a.row < |a.queue| && Due(a.queue[a.row], now)
    && forall j :: 0 <= j < a.row ==> Finished(a.queue[j])
  }

  class Queue {
    var ops: seq<Op>

    constructor ()
      ensures ops == []
    {
      ops := [];
    }

    method Enqueue(report: Report, status: OpStatus) returns (row: nat)
      modifies this
      ensures row == |old(ops)| && ops == old(ops) + [NewOp(report, status)]
      ensures ops[row].report == report && ops[row].status == status
      ensures ops[row].retryCount == 0 && ops[row].nextRetry == None
    {
      row := |ops|;
      ops := ops + [NewOp(report, status)];
    }

    /** The oldest unfinished operation, when it is pending and due. */
    method GetPending(now: Time) returns (row: Option<nat>)
      ensures row == (var h := Head(ops); if h < |ops| && Due(ops[h], now) then Some(h) else None)
      ensures forall h: nat :: h < |ops| ==>
        (row == Some(h) <==>
          && ops[h].status == Pending && (ops[h].nextRetry == None || ops[h].nextRetry.value <= now / SECOND)
          && forall j :: 0 <= j < h ==> ops[j].status == Completed || ops[j].status == Failed)
      ensures row.Some? ==> row.value < |ops|
    {
      var h := 0;
      while h < |ops| && Finished(ops[h])
        invariant h <= |ops|
        invariant forall j :: 0 <= j < h ==> Finished(ops[j])
      {
        h := h + 1;
      }
      HeadIs(ops, h);
      row := if h < |ops| && Due(ops[h], now) then Some(h) else None;
    }

    method MarkProcessing(row: nat)
      requires row < |ops|
      modifies this
      ensures ops == old(ops)[row := old(ops)[row].(status := Processing)]
    {
      ops := ops[row := ops[row].(status := Processing)];
    }

    method MarkCompleted(row: nat)
      requires row < |ops|
      modifies this
      ensures ops == old(ops)[row := old(ops)[row].(status := Completed)]
    {
      ops := ops[row := ops[row].(status := Completed)];
    }

    method MarkFailed(row: nat)
      requires row < |ops|
      modifies this
      ensures ops == old(ops)[row := old(ops)[row].(status := Failed)]
    {
      ops := ops[row := ops[row].(status := Failed)];
    }

    method MarkRetryable(row: nat, retryAfter: int, now: Time)
      requires row < |ops|
      modifies this
      ensures ops == old(ops)[row := Retryable(old(ops)[row], retryAfter, now)]
      ensures ops[row].report == old(ops)[row].report && ops[row].status == Pending
      ensures ops[row].retryCount == old(ops)[row].retryCount + 1
      ensures ops[row].nextRetry == Some((now + (if retryAfter < SECOND then SECOND else retryAfter)) / SECOND)
    {
      var delay := retryAfter;
      if delay < SECOND {
        delay := SECOND;
      }
      ops := ops[row := ops[row].(status := Pending, retryCount := ops[row].retryCount + 1,
                                  nextRetry := Some(Seconds(now + delay)))];
    }

    /** Releases a report that was queued blocked. */
    method Activate(row: nat) returns (released: bool)
      requires row < |ops|
      modifies this
      ensures released <==> old(ops)[row].status == Processing
      ensures ops == if released then old(ops)[row := old(ops)[row].(status := Pending)] else old(ops)
    {
      released := ops[row].status == Processing;
      if released {
        ops := ops[row := ops[row].(status := Pending)];
      }
    }

    /** After a restart: one UPDATE over the rows that were being attempted. */
    method Recover()
      modifies this
      ensures ops == Released(old(ops)) && Head(ops) == Head(old(ops))
      ensures |ops| == |old(ops)| && forall i :: 0 <= i < |ops| ==>
        ops[i] == if old(ops)[i].status == Processing then old(ops)[i].(status := Pending) else old(ops)[i]
    {
      ghost var before := ops;
      ops := Released(ops);
      HeadIs(ops, Head(before));
    }

    /** One attempt; `stop` reports the errors that end the drain. */
    method Deliver(row: nat, w: Weather, syncInterval: int, now: Time) returns (stop: bool)
      requires row < |ops|
      modifies this
      ensures ops == old(ops)[row := Delivered(old(ops)[row], w, syncInterval, now)]
      ensures stop <==> !old(ops)[row].report.Unsupported? && !w.hasToken
      ensures |ops| == |old(ops)| && forall i :: 0 <= i < |ops| && i != row ==> ops[i] == old(ops)[i]
      ensures var op := old(ops)[row];
        if op.report.Unsupported? then ops[row] == op.(status := Failed)
        else if !w.hasToken then
          ops[row] == op.(status := Pending, retryCount := op.retryCount + 1,
                          nextRetry := Some((now + (if syncInterval < SECOND then SECOND else syncInterval)) / SECOND))
        else
          var final := if w.first != Status(401) then w.first else if w.refreshed then w.second else NoReply;
          if final.Status? && 200 <= final.code < 300 then ops[row] == op.(status := Completed)
          else if final == NoReply || final.code in {408, 425, 429} || final.code >= 500 then
            var delay := Power2(if op.retryCount <= 6 then op.retryCount else 6) * syncInterval;
            ops[row] == op.(status := Pending, retryCount := op.retryCount + 1,
                            nextRetry := Some((now + (if delay < SECOND then SECOND else delay)) / SECOND))
          else ops[row] == op.(status := Failed)
    {
      var op := ops[row];
      MarkProcessing(row);
      stop := false;
      if op.report.Unsupported? {
        MarkFailed(row);
        return;
      }
      if !w.hasToken {
        MarkRetryable(row, syncInterval, now);
        return true;
      }
      var reply := w.first;
      if reply == Status(401) {
        if w.refreshed {
          reply := w.second;
        } else {
          reply := NoReply;
        }
      }
      if reply == NoReply || reply.code == 408 || reply.code == 425 || reply.code == 429 || reply.code >= 500 {
        MarkRetryable(row, Power2(Min(op.retryCount, 6)) * syncInterval, now);
        return;
      }
      if reply.code < 200 || reply.code >= 300 {
        MarkFailed(row);
        return;
      }
      MarkCompleted(row);
    }

    /**
     Drains the queue at one instant, whatever the network does (`weather(k)` is what the
     k-th attempt meets).  It terminates; every attempt is of the oldest unfinished row;
     no row is tried twice; and nothing is due when it returns.
     */
    method Drain(weather: nat -> Weather, syncInterval: int, now: Time) returns (attempts: seq<Attempt>)
      modifies this
      ensures Drained(old(ops), ops, attempts, now)
      ensures var h := Head(ops); h < |ops| ==> !Due(ops[h], now)
      ensures Effected(old(ops), ops, attempts, syncInterval, now)
      ensures forall k: nat :: k < |attempts| ==> attempts[k].weather == weather(k)
    {
      attempts := [];
      while true
        invariant Drained(old(ops), ops, attempts, now)
        invariant Effected(old(ops), ops, attempts, syncInterval, now)
        invariant forall k: nat :: k < |attempts| ==> attempts[k].weather == weather(k)
        decreases Unfinished(ops), Head(ops) < |ops| && Due(ops[Head(ops)], now)
      {
        var next := GetPending(now);
        if next == None {
          return;
        }
        var row := next.value;
        ghost var before, tried := ops, attempts;
        var w := weather(|attempts|);
        attempts := attempts + [Attempt(row, ops, w)];
        var stop := Deliver(row, w, syncInterval, now);
        DrainStep(old(ops), before, tried, row, w, syncInterval, now);
        if stop {
          return;
        }
      }
    }
  }

  /**
   How a drain that began with `start` and made `attempts` can stand: the reports are the
   same, every attempt was of the oldest unfinished row, no row was tried twice, and only
   tried rows changed.
   */
  ghost predicate Drained(start: seq<Op>, ops: seq<Op>, attempts: seq<Attempt>, now: Time) {
    && |ops| == |start|
    && (forall i :: 0 <= i < |ops| ==> ops[i].report == start[i].report)
    && (forall a <- attempts :: InOrder(a, now))
    && (forall i, j :: 0 <= i < j < |attempts| ==> attempts[i].row < attempts[j].row)
    && (forall a <- attempts :: Passed(ops, a.row, now))
    && (forall i :: 0 <= i < |ops| && !Tried(attempts, i) ==> ops[i] == start[i])
  }

  /** Each tried row, as it was at the start, ended as its one delivery left it. */
  ghost predicate Effected(start: seq<Op>, ops: seq<Op>, attempts: seq<Attempt>, syncInterval: int, now: Time) {
    forall a <- attempts ::
      && a.row < |start| && a.row < |ops|
      && ops[a.row] == Delivered(start[a.row], a.weather, syncInterval, now)
  }

  lemma EffectedStep(start: seq<Op>, ops: seq<Op>, attempts: seq<Attempt>, a: Attempt, syncInterval: int, now: Time)
    requires Effected(start, ops, attempts, syncInterval, now)
    requires |ops| == |start| && a.row < |ops| && ops[a.row] == start[a.row] && !Tried(attempts, a.row)
    ensures Effected(start, ops[a.row := Delivered(ops[a.row], a.weather, syncInterval, now)], attempts + [a], syncInterval, now)
  {
  }

  /** A row not passed yet was not tried. */
  lemma HeadUntried(ops: seq<Op>, attempts: seq<Attempt>, row: nat, now: Time)
    requires forall a <- attempts :: Passed(ops, a.row, now)
    requires row == Head(ops) < |ops| && Due(ops[row], now)
    ensures !Tried(attempts, row)
  {
  }

  /** One round of the drain keeps what is known of it, and leaves less to do. */
  lemma DrainStep(start: seq<Op>, ops: seq<Op>, attempts: seq<Attempt>, row: nat, w: Weather, syncInterval: int, now: Time)
    requires Drained(start, ops, attempts, now) && Effected(start, ops, attempts, syncInterval, now)
    requires row == Head(ops) < |ops| && Due(ops[row], now)
    ensures var op := Delivered(ops[row], w, syncInterval, now);
      && Drained(start, ops[row := op], attempts + [Attempt(row, ops, w)], now)
      && Effected(start, ops[row := op], attempts + [Attempt(row, ops, w)], syncInterval, now)
      && Unfinished(ops[row := op]) == Unfinished(ops) - (if Finished(op) then 1 else 0)
      && (!Finished(op) ==> Head(ops[row := op]) == row && !Due(op, now))
  {
    var op := Delivered(ops[row], w, syncInterval, now);
    DeliveredSettles(ops[row], w, syncInterval, now);
    UnfinishedUpdate(ops, row, op);
    HeadAfter(ops, row, op);
    HeadUntried(ops, attempts, row, now);
    DrainedStep(start, ops, attempts, row, op, w, now);
    EffectedStep(start, ops, attempts, Attempt(row, ops, w), syncInterval, now);
  }

  /** What a drain's attempts were, on the fields of the rows. */
  lemma DrainedRows(start: seq<Op>, ops: seq<Op>, attempts: seq<Attempt>, now: Time)
    requires Drained(start, ops, attempts, now) && (Head(ops) < |ops| ==> !Due(ops[Head(ops)], now))
    ensures forall a <- attempts ::
      && a.row < |a.queue| && a.queue[a.row].status == Pending
      && (a.queue[a.row].nextRetry == None || a.queue[a.row].nextRetry.value <= now / SECOND)
      && forall j :: 0 <= j < a.row ==> a.queue[j].status == Completed || a.queue[j].status == Failed
    ensures forall h | 0 <= h < |ops| && ops[h].status == Pending
      && (forall j :: 0 <= j < h ==> ops[j].status == Completed || ops[j].status == Failed) ::
      ops[h].nextRetry.Some? && ops[h].nextRetry.value > now / SECOND
  {
    forall a | a in attempts ensures InOrder(a, now) {
    }
    forall h | 0 <= h < |ops| && ops[h].status == Pending
      && (forall j :: 0 <= j < h ==> ops[j].status == Completed || ops[j].status == Failed)
      ensures ops[h].nextRetry.Some? && ops[h].nextRetry.value > now / SECOND
    {
      HeadIs(ops, h);
    }
  }

  ghost predicate Tried(attempts: seq<Attempt>, row: int) {
    exists a <- attempts :: a.row == row
  }

  /** A tried row is finished, or is the head and waits for its retry time. */
  ghost predicate Passed(ops: seq<Op>, row: nat, now: Time) {
    row < |ops| && (row < Head(ops) || (row == Head(ops) && !Due(ops[row], now)))
  }

  lemma DeliveredSettles(op: Op, w: Weather, syncInterval: int, now: Time)
    ensures var d := Delivered(op, w, syncInterval, now);
      d.report == op.report && (Finished(d) || !Due(d, now))
  {
    RetryIsLater(op, syncInterval, now);
    RetryIsLater(op, Backoff(op, syncInterval), now);
  }

  lemma DrainedStep(start: seq<Op>, ops: seq<Op>, attempts: seq<Attempt>, row: nat, op: Op, w: Weather, now: Time)
    requires Drained(start, ops, attempts, now)
    requires row == Head(ops) < |ops| && Due(ops[row], now)
    requires op.report == ops[row].report && (Finished(op) || !Due(op, now))
    ensures Drained(start, ops[row := op], attempts + [Attempt(row, ops, w)], now)
  {
    var a := Attempt(row, ops, w);
    var after, tried := ops[row := op], attempts + [a];
    PassedStep(ops, attempts, a, op, now);
    assert InOrder(a, now);
    IncreasingStep(ops, attempts, a, now);
    TriedGrows(attempts, a);
  }

  lemma TriedGrows(attempts: seq<Attempt>, last: Attempt)
    ensures Tried(attempts + [last], last.row)
    ensures forall i :: Tried(attempts, i) ==> Tried(attempts + [last], i)
  {
    assert last in attempts + [last];
    forall i | Tried(attempts, i) ensures Tried(attempts + [last], i) {
      var a :| a in attempts && a.row == i;
      assert a in attempts + [last];
    }
  }

  lemma IncreasingStep(ops: seq<Op>, attempts: seq<Attempt>, last: Attempt, now: Time)
    requires last.row == Head(ops) < |ops| && Due(ops[last.row], now)
    requires forall a <- attempts :: Passed(ops, a.row, now)
    requires forall i, j :: 0 <= i < j < |attempts| ==> attempts[i].row < attempts[j].row
    ensures var tried := attempts + [last];
      forall i, j :: 0 <= i < j < |tried| ==> tried[i].row < tried[j].row
  {
    forall i | 0 <= i < |attempts| ensures attempts[i].row < last.row {
      assert attempts[i] in attempts && Passed(ops, attempts[i].row, now);
    }
  }

  lemma PassedStep(ops: seq<Op>, attempts: seq<Attempt>, last: Attempt, op: Op, now: Time)
    requires forall a <- attempts :: Passed(ops, a.row, now)
    requires last.row == Head(ops) < |ops| && (Finished(op) || !Due(op, now))
    ensures forall a <- attempts + [last] :: Passed(ops[last.row := op], a.row, now)
  {
    HeadAfter(ops, last.row, op);
    forall a | a in attempts + [last] ensures Passed(ops[last.row := op], a.row, now) {
      if a in attempts {
        assert Passed(ops, a.row, now);
      }
    }
  }

  lemma HeadIs(ops: seq<Op>, h: nat)
    requires h <= |ops| && (forall j :: 0 <= j < h ==> Finished(ops[j]))
    requires h < |ops| ==> !Finished(ops[h])
    ensures Head(ops) == h
  {
    // The first unfinished row is unique.
  }

  /** Settling the head moves it forward; anything else leaves it in place. */
  lemma HeadAfter(ops: seq<Op>, row: nat, op: Op)
    requires row < |ops| && row == Head(ops)
    ensures if Finished(op) then Head(ops[row := op]) > row else Head(ops[row := op]) == row
  {
    var after := ops[row := op];
    forall j | 0 <= j < row ensures Finished(after[j]) {
      assert after[j] == ops[j];
    }
    if !Finished(op) {
      HeadIs(after, row);
    } else {
      forall h | 0 <= h <= row ensures Finished(after[h]) {
      }
    }
  }
}
