/** The payment-status poller. The clock and the status queries are
    injected: `clock[0]` is the reading that fixes the deadline and
    `clock[i]` (i >= 1) the reading taken by the i-th loop test; `replies[k]`
    is what the k-th status query returned or threw. Sleeping between
    queries shows up only as the clock readings growing. */
module Poller {
  import opened JsValues
  import opened PaymentStatus

  /** What one status query produced: a payload, or a thrown error. */
  datatype Reply = Answer(payload: Json) | Failed(error: string)

  datatype PollResult = PollResult(payload: Json, statusValue: Json, timedOut: bool)

  /** How the poll ended: it returned a result or rethrew a query error. */
  datatype Poll = Returned(result: PollResult) | Threw(error: string)

  /** The outcome together with the number of status queries sent. */
  datatype PollRun = PollRun(outcome: Poll, queries: nat)

  /** The payload reported when the deadline passes before any query. */
  const TimeoutPayload: Json := Obj(map["status" := Str("UNKNOWN"), "reason" := Str("timeout")])

  /** The readings cover the whole run: there is a loop test, the last
      reading is past the deadline (time passes), and there is a reply for
      every loop test before it. */
  predicate ClockRunsOut(clock: seq<int>, replies: seq<Reply>, timeoutMs: int) {
    |clock| >= 2 && clock[|clock| - 1] >= clock[0] + timeoutMs && |replies| + 2 >= |clock|
  }

  /** The result once the deadline has passed, given the last payload seen
      (Null before the first query). */
  function TimedOutResult(last: Json): (r: PollResult)
    ensures r.timedOut && !r.payload.Null? && Truthy(r.statusValue)
    ensures Present(ExtractStatusValue(last)) ==> ExtractStatusValue(last) == Some(r.statusValue)
    ensures !Present(ExtractStatusValue(last)) ==> r.statusValue == Str("UNKNOWN")
  {
    var sv := ExtractStatusValue(last);
    PollResult(if last.Null? then TimeoutPayload else last,
               if Present(sv) then sv.value else Str("UNKNOWN"),
               true)
  }

  /** The poll from the loop test that reads `clock[i]`, with `last` the
      payload seen so far. */
  function PollFrom(clock: seq<int>, replies: seq<Reply>, deadline: int, i: nat, last: Json): (r: PollRun)
    requires 1 <= i < |clock| && clock[|clock| - 1] >= deadline && |replies| + 2 >= |clock|
    ensures i - 1 <= r.queries < |clock| - 1 && r.queries <= |replies|
    ensures r.outcome.Returned? && !r.outcome.result.timedOut ==> IsFinalStatus(Some(r.outcome.result.statusValue))
    ensures r.outcome.Threw? ==> r.queries >= 1 && replies[r.queries - 1] == Failed(r.outcome.error)
    decreases |clock| - i
  {
    if clock[i] >= deadline then PollRun(Returned(TimedOutResult(last)), i - 1)
    else
      match replies[i - 1]
      case Failed(e) => PollRun(Threw(e), i)
      case Answer(p) =>
        var sv := ExtractStatusValue(p);
        if IsFinalStatus(sv) then PollRun(Returned(PollResult(p, sv.value, false)), i)
        else PollFrom(clock, replies, deadline, i + 1, p)
  }

  /** The whole poll: the deadline is the first reading plus the timeout.
      It never sends more queries than the loop tests before the last
      reading allow, returns early only with a final status, and rethrows
      exactly the error of the last query it sent. */
  function PollSpec(clock: seq<int>, replies: seq<Reply>, timeoutMs: int): (r: PollRun)
    requires ClockRunsOut(clock, replies, timeoutMs)
    ensures r.queries < |clock| - 1 && r.queries <= |replies|
    ensures r.outcome.Returned? && !r.outcome.result.timedOut ==> IsFinalStatus(Some(r.outcome.result.statusValue))
    ensures r.outcome.Threw? ==> r.queries >= 1 && replies[r.queries - 1] == Failed(r.outcome.error)
  {
    PollFrom(clock, replies, clock[0] + timeoutMs, 1, Null)
  }

  /** pollNdaliPaymentStatus: query, normalise, stop at a final status,
      otherwise wait for the next loop test; rethrow a failed query. */
  method PollPaymentStatus(clock: seq<int>, replies: seq<Reply>, timeoutMs: int)
    returns (outcome: Poll, queries: nat)
    requires ClockRunsOut(clock, replies, timeoutMs)
    ensures PollRun(outcome, queries) == PollSpec(clock, replies, timeoutMs)
  {
    var deadline := clock[0] + timeoutMs;
    var last := Null;
    var t := 1;
    queries := 0;
    while clock[t] < deadline
      invariant 1 <= t < |clock|
      invariant queries == t - 1
      invariant PollFrom(clock, replies, deadline, t, last) == PollSpec(clock, replies, timeoutMs)
      decreases |clock| - t
    {
      var reply := replies[queries];
      queries := queries + 1;
      match reply {
        case Failed(e) =>
          outcome := Threw(e);
          return;
        case Answer(p) =>
          last := p;
          var statusValue := ExtractStatusValue(p);
          if IsFinalStatus(statusValue) {
            outcome := Returned(PollResult(p, statusValue.value, false));
            return;
          }
      }
      t := t + 1;
    }
    outcome := Returned(TimedOutResult(last));
  }

  /** The j-th query ran before the deadline and answered with a non-final
      status. */
  ghost predicate Quiet(clock: seq<int>, replies: seq<Reply>, deadline: int, j: nat)
    requires j + 1 < |clock| && j < |replies|
  {
    clock[j + 1] < deadline && replies[j].Answer? && !IsFinalStatus(ExtractStatusValue(replies[j].payload))
  }

  /** The first n queries were all quiet. */
  ghost predicate Pending(clock: seq<int>, replies: seq<Reply>, deadline: int, n: nat)
    requires n < |clock| && n <= |replies|
  {
    forall j :: 0 <= j < n ==> Quiet(clock, replies, deadline, j)
  }

  /** One more non-final answer before the deadline extends the pending prefix. */
  lemma PendingExtend(clock: seq<int>, replies: seq<Reply>, deadline: int, n: nat)
    requires n + 1 < |clock| && n + 1 <= |replies| && Pending(clock, replies, deadline, n)
    requires clock[n + 1] < deadline && replies[n].Answer?
    requires !IsFinalStatus(ExtractStatusValue(replies[n].payload))
    ensures Pending(clock, replies, deadline, n + 1)
  {
    forall j | 0 <= j < n + 1
      ensures Quiet(clock, replies, deadline, j)
    {
      if j == n {
        assert Quiet(clock, replies, deadline, n);
      }
    }
  }

  lemma {:induction false} PollFromThrows(clock: seq<int>, replies: seq<Reply>, deadline: int, i: nat, last: Json)
    requires 1 <= i < |clock| && clock[|clock| - 1] >= deadline && |replies| + 2 >= |clock|
    requires i - 1 <= |replies| && Pending(clock, replies, deadline, i - 1)
    requires PollFrom(clock, replies, deadline, i, last).outcome.Threw?
    ensures var n := PollFrom(clock, replies, deadline, i, last).queries;
      n >= 1 && Pending(clock, replies, deadline, n - 1) && clock[n] < deadline
    decreases |clock| - i
  {
    assert clock[i] < deadline;
    if replies[i - 1].Answer? {
      PendingExtend(clock, replies, deadline, i - 1);
      PollFromThrows(clock, replies, deadline, i + 1, replies[i - 1].payload);
    }
  }

  lemma {:induction false} PollFromFinal(clock: seq<int>, replies: seq<Reply>, deadline: int, i: nat, last: Json)
    requires 1 <= i < |clock| && clock[|clock| - 1] >= deadline && |replies| + 2 >= |clock|
    requires i - 1 <= |replies| && Pending(clock, replies, deadline, i - 1)
    requires PollFrom(clock, replies, deadline, i, last).outcome.Returned?
    requires !PollFrom(clock, replies, deadline, i, last).outcome.result.timedOut
    ensures var run := PollFrom(clock, replies, deadline, i, last); var n := run.queries;
      && n >= 1 && Pending(clock, replies, deadline, n - 1) && clock[n] < deadline
      && replies[n - 1] == Answer(run.outcome.result.payload)
      && ExtractStatusValue(run.outcome.result.payload) == Some(run.outcome.result.statusValue)
    decreases |clock| - i
  {
    assert clock[i] < deadline;
    var p := replies[i - 1].payload;
    if !IsFinalStatus(ExtractStatusValue(p)) {
      PendingExtend(clock, replies, deadline, i - 1);
      PollFromFinal(clock, replies, deadline, i + 1, p);
    }
  }

  lemma {:induction false} PollFromTimesOut(clock: seq<int>, replies: seq<Reply>, deadline: int, i: nat, last: Json)
    requires 1 <= i < |clock| && clock[|clock| - 1] >= deadline && |replies| + 2 >= |clock|
    requires i - 1 <= |replies| && Pending(clock, replies, deadline, i - 1)
    requires i == 1 ==> last == Null
    requires i >= 2 ==> replies[i - 2] == Answer(last)
    requires PollFrom(clock, replies, deadline, i, last).outcome.Returned?
    requires PollFrom(clock, replies, deadline, i, last).outcome.result.timedOut
    ensures var run := PollFrom(clock, replies, deadline, i, last); var n := run.queries;
      && Pending(clock, replies, deadline, n) && clock[n + 1] >= deadline
      && (n >= 1 ==> replies[n - 1].Answer?)
      && run.outcome.result == TimedOutResult(if n == 0 then Null else replies[n - 1].payload)
    decreases |clock| - i
  {
    if clock[i] < deadline {
      var p := replies[i - 1].payload;
      PendingExtend(clock, replies, deadline, i - 1);
      PollFromTimesOut(clock, replies, deadline, i + 1, p);
    }
  }

  /** A rethrown error: every earlier query ran before the deadline and
      answered with a non-final status, and the last one sent threw. */
  lemma PollThrows(clock: seq<int>, replies: seq<Reply>, timeoutMs: int)
    requires ClockRunsOut(clock, replies, timeoutMs)
    requires PollSpec(clock, replies, timeoutMs).outcome.Threw?
    ensures var run := PollSpec(clock, replies, timeoutMs); var n := run.queries;
      && n >= 1 && Pending(clock, replies, clock[0] + timeoutMs, n - 1) && clock[n] < clock[0] + timeoutMs
      && replies[n - 1] == Failed(run.outcome.error)
  {
    PollFromThrows(clock, replies, clock[0] + timeoutMs, 1, Null);
  }

  /** An early return: the poll stops at the first reply whose status is
      final, before the deadline, and reports that payload and that status. */
  lemma PollReturnsFinal(clock: seq<int>, replies: seq<Reply>, timeoutMs: int)
    requires ClockRunsOut(clock, replies, timeoutMs)
    requires PollSpec(clock, replies, timeoutMs).outcome.Returned?
    requires !PollSpec(clock, replies, timeoutMs).outcome.result.timedOut
    ensures var run := PollSpec(clock, replies, timeoutMs); var n := run.queries;
      && n >= 1 && Pending(clock, replies, clock[0] + timeoutMs, n - 1) && clock[n] < clock[0] + timeoutMs
      && replies[n - 1] == Answer(run.outcome.result.payload)
      && ExtractStatusValue(run.outcome.result.payload) == Some(run.outcome.result.statusValue)
  {
    PollFromFinal(clock, replies, clock[0] + timeoutMs, 1, Null);
  }

  /** A timeout: every query sent answered with a non-final status before
      the deadline, the next loop test found the deadline passed, and the
      result carries the last payload (or {status:'UNKNOWN',
      reason:'timeout'} when nothing was queried) with that payload's
      status or 'UNKNOWN'. */
  lemma PollTimesOut(clock: seq<int>, replies: seq<Reply>, timeoutMs: int)
    requires ClockRunsOut(clock, replies, timeoutMs)
    requires PollSpec(clock, replies, timeoutMs).outcome.Returned?
    requires PollSpec(clock, replies, timeoutMs).outcome.result.timedOut
    ensures var run := PollSpec(clock, replies, timeoutMs); var n := run.queries;
      && Pending(clock, replies, clock[0] + timeoutMs, n) && clock[n + 1] >= clock[0] + timeoutMs
      && (n >= 1 ==> replies[n - 1].Answer?)
      && run.outcome.result == TimedOutResult(if n == 0 then Null else replies[n - 1].payload)
  {
    PollFromTimesOut(clock, replies, clock[0] + timeoutMs, 1, Null);
  }

  /** A timed-out poll never reports a final status other than UNKNOWN, in
      particular never SUCCESSFUL; with no query at all it reports the
      synthetic timeout payload. */
  lemma TimedOutIsNeverFinal(clock: seq<int>, replies: seq<Reply>, timeoutMs: int)
    requires ClockRunsOut(clock, replies, timeoutMs)
    requires PollSpec(clock, replies, timeoutMs).outcome.Returned?
    requires PollSpec(clock, replies, timeoutMs).outcome.result.timedOut
    ensures var r := PollSpec(clock, replies, timeoutMs).outcome.result;
      && (r.statusValue == Str("UNKNOWN") || !IsFinalStatus(Some(r.statusValue)))
      && !IsSuccessfulStatus(Some(r.statusValue))
      && (PollSpec(clock, replies, timeoutMs).queries == 0 ==> r.payload == TimeoutPayload)
  {
    PollTimesOut(clock, replies, timeoutMs);
    var run := PollSpec(clock, replies, timeoutMs);
    var n := run.queries;
    if n > 0 {
      assert Quiet(clock, replies, clock[0] + timeoutMs, n - 1);
      assert !IsFinalStatus(ExtractStatusValue(replies[n - 1].payload));
    }
    assert Upper(ToJsString(Str("UNKNOWN"))) == "UNKNOWN";
  }

  lemma {:induction false} PollFromIgnoresLaterReplies(clock: seq<int>, replies: seq<Reply>, more: seq<Reply>,
                                                    deadline: int, i: nat, last: Json)
    requires 1 <= i < |clock| && clock[|clock| - 1] >= deadline && |replies| + 2 >= |clock|
    ensures PollFrom(clock, replies + more, deadline, i, last) == PollFrom(clock, replies, deadline, i, last)
    decreases |clock| - i
  {
    if clock[i] < deadline {
      assert (replies + more)[i - 1] == replies[i - 1];
      if replies[i - 1].Answer? {
        PollFromIgnoresLaterReplies(clock, replies, more, deadline, i + 1, replies[i - 1].payload);
      }
    }
  }

  /** The poll's outcome depends only on the replies it consumed: replies
      beyond the ones the clock leaves time for change nothing. */
  lemma PollIgnoresLaterReplies(clock: seq<int>, replies: seq<Reply>, more: seq<Reply>, timeoutMs: int)
    requires ClockRunsOut(clock, replies, timeoutMs)
    ensures ClockRunsOut(clock, replies + more, timeoutMs)
    ensures PollSpec(clock, replies + more, timeoutMs) == PollSpec(clock, replies, timeoutMs)
  {
    PollFromIgnoresLaterReplies(clock, replies, more, clock[0] + timeoutMs, 1, Null);
  }
}
