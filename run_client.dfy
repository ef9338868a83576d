/**
  The run client of the chatbot Lambda: submit a run of a cloud structure,
  poll the service while the run is QUEUED or RUNNING and the attempt counter
  is within the budget, then return the run's output or fail.

  The two HTTP calls are inputs: `created` is what the create request gave
  (the decoded body, or the error `raise_for_status` raised), and
  `replies(k)` is what the k-th status poll gave (a decoded body, or an
  exception). Every call the client makes, every logged poll failure and
  every sleep is recorded, in order, in a ghost trace of `Call`s.
*/
module RunClient {
  import opened Wrappers

  /** The fields of a run's JSON body that the client reads. */
  datatype RunRecord = RunRecord(status: string, output: Option<string>)

  /** Outcome of the create request: its body, or an HTTP error. */
  datatype CreateReply = Created(runId: string, run: RunRecord) | CreateFailed

  /** Outcome of one status poll: its body, or an exception. */
  datatype PollReply = Polled(run: RunRecord) | PollFailed

  /** What `run` hands back: the output, or the exception it raises. */
  datatype RunResult =
    | Output(value: string)
    | RequestFailed   // the create request's `raise_for_status`
    | RunFailed       // "Run failed!"
    | MissingOutput   // a SUCCEEDED body without an `output` key

  /** The observable effects of one `run`, in the order they happen. */
  datatype Call =
    | CreateRun(structureId: string, args: seq<string>)
    | PollRun(runId: string)
    | LogPollFailure
    | Sleep

  const DefaultBaseUrl: string := "https://cloud.griptape.ai"
  const DefaultPollAttempts: int := 120

  predicate IsPending(status: string)
  {
    status == "QUEUED" || status == "RUNNING"
  }

  /** A poll reply on which the loop breaks out. */
  predicate IsTerminal(reply: PollReply)
  {
    reply.Polled? && !IsPending(reply.run.status)
  }

  function DefaultHeaders(apiKey: string): map<string, string>
  {
    map["Authorization" := "Bearer " + apiKey, "Content-Type" := "application/json"]
  }

  // ---------------------------------------------------------------------
  // Specification of the loop. `lastPoll` is the largest counter value the
  // loop guard admits: the source's `poll_attempts <= self.poll_attempts`
  // makes it the configured budget itself.
  // ---------------------------------------------------------------------

  /** Number of polls made in all, once polling has reached poll number `k`
      with the run still pending. */
  function CountFrom(k: nat, lastPoll: int, replies: nat -> PollReply): (n: nat)
    ensures k <= lastPoll ==> k < n <= lastPoll + 1
    ensures lastPoll < k ==> n == k
    decreases lastPoll + 1 - k
  {
    if lastPoll < k then k
    else if IsTerminal(replies(k)) then k + 1
    else CountFrom(k + 1, lastPoll, replies)
  }

  /** Number of polls `run` makes after the create request returned `first`. */
  function PollCount(first: RunRecord, lastPoll: int, replies: nat -> PollReply): (n: nat)
    ensures n <= if lastPoll < 0 then 0 else lastPoll + 1
    ensures n > 0 <==> IsPending(first.status) && 0 <= lastPoll
  {
    if IsPending(first.status) then CountFrom(0, lastPoll, replies) else 0
  }

  /** The run record the client holds after `n` polls: the last body a poll
      returned, or the created one. A failed poll leaves it unchanged. */
  function LastSeen(first: RunRecord, replies: nat -> PollReply, n: nat): (r: RunRecord)
    ensures r == first || exists k :: 0 <= k < n && replies(k) == Polled(r)
  {
    if n == 0 then first
    else match replies(n - 1)
      case Polled(run) => run
      case PollFailed => LastSeen(first, replies, n - 1)
  }

  /** The effects of one loop iteration on `reply`. */
  function Step(runId: string, reply: PollReply): (t: seq<Call>)
    ensures |t| > 0 && t[0] == PollRun(runId)
  {
    [PollRun(runId)]
    + (if reply.PollFailed? then [LogPollFailure] else [])
    + (if IsTerminal(reply) then [] else [Sleep])
  }

  /** The effects of the first `n` polls. */
  function Trace(runId: string, replies: nat -> PollReply, n: nat): (t: seq<Call>)
    ensures n <= |t| <= 3 * n
  {
    if n == 0 then [] else Trace(runId, replies, n - 1) + Step(runId, replies(n - 1))
  }

  /** The decision taken after the loop on the record the client holds. */
  function Decide(run: RunRecord): (r: RunResult)
    ensures r.Output? <==> run.status == "SUCCEEDED" && run.output.Some?
    ensures r.Output? ==> run.output == Some(r.value)
    ensures r == RunFailed <==> run.status != "SUCCEEDED"
    ensures r != RequestFailed
  {
    if run.status == "SUCCEEDED" then
      match run.output
      case Some(x) => Output(x)
      case None => MissingOutput
    else RunFailed
  }

  /** What `run` returns or raises. */
  function ResultOf(created: CreateReply, lastPoll: int, replies: nat -> PollReply): (r: RunResult)
    ensures r == RequestFailed <==> created.CreateFailed?
  {
    match created
    case CreateFailed => RequestFailed
    case Created(_, first) => Decide(LastSeen(first, replies, PollCount(first, lastPoll, replies)))
  }

  /** Everything `run` does, in order. */
  function CallsOf(structureId: string, args: seq<string>, created: CreateReply,
                   lastPoll: int, replies: nat -> PollReply): (calls: seq<Call>)
    ensures |calls| > 0 && calls[0] == CreateRun(structureId, args)
    ensures created.CreateFailed? ==> calls == [CreateRun(structureId, args)]
  {
    [CreateRun(structureId, args)]
    + match created
      case CreateFailed => []
      case Created(runId, first) => Trace(runId, replies, PollCount(first, lastPoll, replies))
  }

  lemma TraceGrows(runId: string, replies: nat -> PollReply, n: nat, prefix: seq<Call>)
    ensures prefix + Trace(runId, replies, n + 1) == prefix + Trace(runId, replies, n) + Step(runId, replies(n))
  {
  }

  function Polls(calls: seq<Call>): (n: nat)
    ensures n <= |calls|
  {
    if calls == [] then 0 else (if calls[0].PollRun? then 1 else 0) + Polls(calls[1..])
  }

  function Sleeps(calls: seq<Call>): (n: nat)
    ensures n <= |calls|
  {
    if calls == [] then 0 else (if calls[0].Sleep? then 1 else 0) + Sleeps(calls[1..])
  }

  // ---------------------------------------------------------------------
  // The client.
  // ---------------------------------------------------------------------

  class GriptapeApiClient {
    const baseUrl: string
    const apiKey: string
    const headers: map<string, string>
    const pollAttempts: int

    /** The attrs-generated initialiser: `api_key` is required, the other
        fields have defaults, and the default headers derive from the key. */
    constructor (apiKey: string, baseUrl: string := DefaultBaseUrl,
                 headers: Option<map<string, string>> := None,
                 pollAttempts: int := DefaultPollAttempts)
      ensures this.apiKey == apiKey && this.baseUrl == baseUrl
      ensures this.pollAttempts == pollAttempts
      ensures headers.None? ==> this.headers.Keys == {"Authorization", "Content-Type"}
      ensures headers.None? ==> this.headers["Authorization"] == "Bearer " + apiKey
      ensures headers.None? ==> this.headers["Content-Type"] == "application/json"
      ensures headers.Some? ==> this.headers == headers.value
    {
      this.apiKey := apiKey;
      this.baseUrl := baseUrl;
      this.headers := if headers.Some? then headers.value else DefaultHeaders(apiKey);
      this.pollAttempts := pollAttempts;
    }

    /** Submit a run and poll it until it is no longer pending or the
        counter has gone past `pollAttempts`. */
    method Run(structureId: string, args: seq<string>, created: CreateReply, replies: nat -> PollReply)
      returns (result: RunResult, ghost calls: seq<Call>)
      ensures result == ResultOf(created, pollAttempts, replies)
      ensures calls == CallsOf(structureId, args, created, pollAttempts, replies)
    {
      calls := [CreateRun(structureId, args)];
      if created.CreateFailed? {
        return RequestFailed, calls;
      }
      var runId := created.runId;
      ghost var first := created.run;
      var run := created.run;
      var attempts: nat := 0;
      ghost var polls: nat := 0;
      while IsPending(run.status) && attempts <= pollAttempts
        invariant polls == attempts
        invariant attempts > 0 ==> IsPending(first.status) && IsPending(run.status)
        invariant attempts <= pollAttempts + 1 || attempts == 0
        invariant run == LastSeen(first, replies, attempts)
        invariant calls == [CreateRun(structureId, args)] + Trace(runId, replies, attempts)
        invariant IsPending(first.status) ==>
          PollCount(first, pollAttempts, replies) == CountFrom(attempts, pollAttempts, replies)
        decreases pollAttempts + 1 - attempts
      {
        ghost var before := calls;
        TraceGrows(runId, replies, attempts, [CreateRun(structureId, args)]);
        calls := calls + [PollRun(runId)];
        match replies(attempts) {
          case Polled(r) =>
            run := r;
            if !IsPending(run.status) {
              polls := attempts + 1;
              assert Step(runId, replies(attempts)) == [PollRun(runId)];
              break;
            }
            assert Step(runId, replies(attempts)) == [PollRun(runId), Sleep];
          case PollFailed =>
            calls := calls + [LogPollFailure];
            assert Step(runId, replies(attempts)) == [PollRun(runId), LogPollFailure, Sleep];
        }
        attempts := attempts + 1;
        polls := attempts;
        calls := calls + [Sleep];
      }
      assert polls == PollCount(first, pollAttempts, replies);
      assert run == LastSeen(first, replies, polls);
      result := Decide(run);
    }
  }

  // ---------------------------------------------------------------------
  // Properties of the loop specification.
  // ---------------------------------------------------------------------

  lemma {:induction false} CountsAppend(a: seq<Call>, b: seq<Call>)
    ensures Polls(a + b) == Polls(a) + Polls(b)
    ensures Sleeps(a + b) == Sleeps(a) + Sleeps(b)
  {
    if a == [] {
      assert a + b == b;
    } else {
      assert (a + b)[1..] == a[1..] + b;
      CountsAppend(a[1..], b);
    }
  }

  /** Every poll but the last one was pending or raised. */
  lemma {:induction false} EarlierPollsNotTerminal(k: nat, lastPoll: int, replies: nat -> PollReply, j: nat)
    requires k <= j && j + 1 < CountFrom(k, lastPoll, replies)
    ensures !IsTerminal(replies(j))
    decreases j - k
  {
    if j > k {
      EarlierPollsNotTerminal(k + 1, lastPoll, replies, j);
    }
  }

  /** The loop ends either on a terminal reply or when the budget is spent. */
  lemma {:induction false} LastPollEndsLoop(k: nat, lastPoll: int, replies: nat -> PollReply)
    requires k < CountFrom(k, lastPoll, replies)
    ensures IsTerminal(replies(CountFrom(k, lastPoll, replies) - 1))
         || CountFrom(k, lastPoll, replies) == lastPoll + 1
    decreases lastPoll + 1 - k
  {
    if !IsTerminal(replies(k)) && k + 1 <= lastPoll {
      LastPollEndsLoop(k + 1, lastPoll, replies);
    }
  }

  lemma {:induction false} CountFromStopsAt(k: nat, lastPoll: int, replies: nat -> PollReply, j: nat)
    requires k <= j <= lastPoll && IsTerminal(replies(j))
    requires forall i :: k <= i < j ==> !IsTerminal(replies(i))
    ensures CountFrom(k, lastPoll, replies) == j + 1
    decreases j - k
  {
    if k < j {
      CountFromStopsAt(k + 1, lastPoll, replies, j);
    }
  }

  lemma {:induction false} CountFromExhausts(k: nat, lastPoll: int, replies: nat -> PollReply)
    requires k <= lastPoll + 1
    requires forall i :: k <= i <= lastPoll ==> !IsTerminal(replies(i))
    ensures CountFrom(k, lastPoll, replies) == lastPoll + 1
    decreases lastPoll + 1 - k
  {
    if k <= lastPoll {
      CountFromExhausts(k + 1, lastPoll, replies);
    }
  }

  /** Pending and failed polls never turn a pending record into a finished one. */
  lemma LastSeenStaysPending(first: RunRecord, replies: nat -> PollReply, n: nat)
    requires IsPending(first.status)
    requires forall k :: 0 <= k < n ==> !IsTerminal(replies(k))
    ensures IsPending(LastSeen(first, replies, n).status)
  {
  }

  lemma {:induction false} TraceCounts(runId: string, replies: nat -> PollReply, n: nat)
    requires forall k :: 0 <= k < n - 1 ==> !IsTerminal(replies(k))
    ensures Polls(Trace(runId, replies, n)) == n
    ensures Sleeps(Trace(runId, replies, n)) == if 0 < n && IsTerminal(replies(n - 1)) then n - 1 else n
  {
    if n > 0 {
      var reply := replies(n - 1);
      TraceCounts(runId, replies, n - 1);
      CountsAppend(Trace(runId, replies, n - 1), Step(runId, reply));
      var tail := (if reply.PollFailed? then [LogPollFailure] else []) + (if IsTerminal(reply) then [] else [Sleep]);
      assert Step(runId, reply) == [PollRun(runId)] + tail;
      CountsAppend([PollRun(runId)], tail);
      CountsAppend(if reply.PollFailed? then [LogPollFailure] else [], if IsTerminal(reply) then [] else [Sleep]);
    }
  }

  lemma {:induction false} TracePollsUse(runId: string, replies: nat -> PollReply, n: nat)
    ensures forall c :: c in Trace(runId, replies, n) && c.PollRun? ==> c.runId == runId
  {
    if n > 0 {
      TracePollsUse(runId, replies, n - 1);
    }
  }

  /** Polls and sleeps in a whole `run`: every poll but a final terminal one
      (a non-terminal reply or a raised poll) is followed by a sleep. */
  lemma SleepsFollowRetriedPolls(structureId: string, args: seq<string>, created: CreateReply,
                                 lastPoll: int, replies: nat -> PollReply)
    requires created.Created?
    ensures var n := PollCount(created.run, lastPoll, replies);
            var calls := CallsOf(structureId, args, created, lastPoll, replies);
            && Polls(calls) == n
            && Sleeps(calls) == (if 0 < n && IsTerminal(replies(n - 1)) then n - 1 else n)
            && (forall k :: 0 <= k < n - 1 ==> !IsTerminal(replies(k)))
  {
    var n := PollCount(created.run, lastPoll, replies);
    forall k | 0 <= k && k + 1 < n
      ensures !IsTerminal(replies(k))
    {
      EarlierPollsNotTerminal(0, lastPoll, replies, k);
    }
    TraceCounts(created.runId, replies, n);
    CountsAppend([CreateRun(structureId, args)], Trace(created.runId, replies, n));
  }

  /** At most `lastPoll + 1` polls and as many sleeps; none at all when the
      create request failed, the created run is already finished, or the
      budget is negative. */
  lemma PollBudget(structureId: string, args: seq<string>, created: CreateReply,
                   lastPoll: int, replies: nat -> PollReply)
    ensures var calls := CallsOf(structureId, args, created, lastPoll, replies);
            && Polls(calls) <= (if lastPoll < 0 then 0 else lastPoll + 1)
            && Sleeps(calls) <= Polls(calls)
            && (Polls(calls) > 0 <==> created.Created? && IsPending(created.run.status) && 0 <= lastPoll)
  {
    if created.Created? {
      SleepsFollowRetriedPolls(structureId, args, created, lastPoll, replies);
    } else {
      assert CallsOf(structureId, args, created, lastPoll, replies) == [CreateRun(structureId, args)];
    }
  }

  /** A created run that is not QUEUED or RUNNING is decided on at once. */
  lemma FinishedRunIsNotPolled(structureId: string, args: seq<string>, created: CreateReply,
                               lastPoll: int, replies: nat -> PollReply)
    requires created.Created? && !IsPending(created.run.status)
    ensures CallsOf(structureId, args, created, lastPoll, replies) == [CreateRun(structureId, args)]
    ensures ResultOf(created, lastPoll, replies) == Decide(created.run)
  {
  }

  /** The first terminal reply within the budget ends the loop, with no
      further counter increment or sleep, and decides the result. */
  lemma StopsAtFirstTerminalPoll(structureId: string, args: seq<string>, created: CreateReply,
                                 lastPoll: int, replies: nat -> PollReply, j: nat)
    requires created.Created? && IsPending(created.run.status)
    requires j <= lastPoll && IsTerminal(replies(j))
    requires forall i :: 0 <= i < j ==> !IsTerminal(replies(i))
    ensures var calls := CallsOf(structureId, args, created, lastPoll, replies);
            Polls(calls) == j + 1 && Sleeps(calls) == j
    ensures ResultOf(created, lastPoll, replies) == Decide(replies(j).run)
  {
    CountFromStopsAt(0, lastPoll, replies, j);
    SleepsFollowRetriedPolls(structureId, args, created, lastPoll, replies);
  }

  /** A run still pending when the budget is spent fails, after one poll and
      one sleep per admitted counter value. */
  lemma ExhaustedBudgetFails(structureId: string, args: seq<string>, created: CreateReply,
                             lastPoll: int, replies: nat -> PollReply)
    requires created.Created? && IsPending(created.run.status)
    requires forall i :: 0 <= i <= lastPoll ==> !IsTerminal(replies(i))
    ensures var calls := CallsOf(structureId, args, created, lastPoll, replies);
            var n := if lastPoll < 0 then 0 else lastPoll + 1;
            Polls(calls) == n && Sleeps(calls) == n
    ensures ResultOf(created, lastPoll, replies) == RunFailed
  {
    var n := PollCount(created.run, lastPoll, replies);
    if 0 <= lastPoll {
      CountFromExhausts(0, lastPoll, replies);
    }
    SleepsFollowRetriedPolls(structureId, args, created, lastPoll, replies);
    LastSeenStaysPending(created.run, replies, n);
  }

  /** A poll that raises is swallowed: the held record stays as it was, the
      failure is logged, a sleep follows, and polling goes on while the
      budget allows. */
  lemma FailedPollIsRetried(first: RunRecord, lastPoll: int, replies: nat -> PollReply, runId: string, k: nat)
    requires IsPending(first.status)
    requires k < PollCount(first, lastPoll, replies) && replies(k) == PollFailed
    ensures LastSeen(first, replies, k + 1) == LastSeen(first, replies, k)
    ensures Trace(runId, replies, k + 1) == Trace(runId, replies, k) + [PollRun(runId), LogPollFailure, Sleep]
    ensures k < lastPoll ==> k + 1 < PollCount(first, lastPoll, replies)
  {
    assert Step(runId, replies(k)) == [PollRun(runId), LogPollFailure, Sleep];
    if k + 1 == PollCount(first, lastPoll, replies) {
      LastPollEndsLoop(0, lastPoll, replies);
    }
  }

  /** Every poll asks about the run id the create request returned. */
  lemma PollsUseCreatedRunId(structureId: string, args: seq<string>, created: CreateReply,
                             lastPoll: int, replies: nat -> PollReply)
    ensures forall c :: c in CallsOf(structureId, args, created, lastPoll, replies) && c.PollRun? ==>
              created.Created? && c.runId == created.runId
  {
    if created.Created? {
      TracePollsUse(created.runId, replies, PollCount(created.run, lastPoll, replies));
    }
  }

  /** Output is returned only when the held record says SUCCEEDED and carries
      that output: the created record itself or the body of a poll. */
  lemma OutputOnlyFromSucceededRecord(created: CreateReply, lastPoll: int, replies: nat -> PollReply, x: string)
    requires ResultOf(created, lastPoll, replies) == Output(x)
    ensures created.Created?
    ensures var succeeded := RunRecord("SUCCEEDED", Some(x));
            created.run == succeeded
            || exists k :: 0 <= k < PollCount(created.run, lastPoll, replies) && replies(k) == Polled(succeeded)
  {
  }

  // ---------------------------------------------------------------------
  // Concrete runs.
  // ---------------------------------------------------------------------

  /** A QUEUED run whose first poll SUCCEEDED: one poll and no sleep, since
      the terminal reply breaks out before the sleep. */
  lemma QueuedThenSucceeded(structureId: string, args: seq<string>, runId: string, x: string, pollAttempts: int)
    requires 0 <= pollAttempts
    ensures var created := Created(runId, RunRecord("QUEUED", None));
            var replies := (k: nat) => Polled(RunRecord("SUCCEEDED", Some(x)));
            && CallsOf(structureId, args, created, pollAttempts, replies) == [CreateRun(structureId, args), PollRun(runId)]
            && ResultOf(created, pollAttempts, replies) == Output(x)
  {
  }

  /** With a budget of 5, a RUNNING reply, a raised poll and then SUCCEEDED
      give the output after three polls and two sleeps. */
  lemma TransientPollFailureRecovers(structureId: string, args: seq<string>, runId: string, x: string)
    ensures var created := Created(runId, RunRecord("QUEUED", None));
            var replies := (k: nat) =>
              if k == 0 then Polled(RunRecord("RUNNING", None))
              else if k == 1 then PollFailed
              else Polled(RunRecord("SUCCEEDED", Some(x)));
            var calls := CallsOf(structureId, args, created, 5, replies);
            && Polls(calls) == 3 && Sleeps(calls) == 2
            && ResultOf(created, 5, replies) == Output(x)
  {
    var created := Created(runId, RunRecord("QUEUED", None));
    var replies := (k: nat) =>
      if k == 0 then Polled(RunRecord("RUNNING", None))
      else if k == 1 then PollFailed
      else Polled(RunRecord("SUCCEEDED", Some(x)));
    StopsAtFirstTerminalPoll(structureId, args, created, 5, replies, 2);
  }

  /** As written, the guard `poll_attempts <= self.poll_attempts` lets a
      budget of 3 make four polls and four sleeps before failing. */
  lemma BudgetAllowsOneExtraPoll(structureId: string, args: seq<string>, runId: string)
    ensures var created := Created(runId, RunRecord("QUEUED", None));
            var replies := (k: nat) => Polled(RunRecord("RUNNING", None));
            var calls := CallsOf(structureId, args, created, 3, replies);
            && Polls(calls) == 4 && Sleeps(calls) == 4
            && ResultOf(created, 3, replies) == RunFailed
  {
    var created := Created(runId, RunRecord("QUEUED", None));
    var replies := (k: nat) => Polled(RunRecord("RUNNING", None));
    ExhaustedBudgetFails(structureId, args, created, 3, replies);
  }

  // ---------------------------------------------------------------------
  // The loop with the guard `poll_attempts < self.poll_attempts`, which
  // makes the budget the number of polls.
  // ---------------------------------------------------------------------

  function CappedResultOf(created: CreateReply, pollAttempts: int, replies: nat -> PollReply): RunResult
  {
    ResultOf(created, pollAttempts - 1, replies)
  }

  function CappedCallsOf(structureId: string, args: seq<string>, created: CreateReply,
                         pollAttempts: int, replies: nat -> PollReply): seq<Call>
  {
    CallsOf(structureId, args, created, pollAttempts - 1, replies)
  }

  /** With the strict guard, at most `pollAttempts` polls happen, and a run
      that stays pending is polled and slept on exactly that often. */
  lemma CappedPollBound(structureId: string, args: seq<string>, created: CreateReply,
                        pollAttempts: int, replies: nat -> PollReply)
    ensures Polls(CappedCallsOf(structureId, args, created, pollAttempts, replies))
            <= if pollAttempts < 0 then 0 else pollAttempts
    ensures created.Created? && IsPending(created.run.status)
            && (forall i :: 0 <= i < pollAttempts ==> !IsTerminal(replies(i)))
            ==> var calls := CappedCallsOf(structureId, args, created, pollAttempts, replies);
                var n := if pollAttempts < 0 then 0 else pollAttempts;
                && Polls(calls) == n && Sleeps(calls) == n
                && CappedResultOf(created, pollAttempts, replies) == RunFailed
  {
    PollBudget(structureId, args, created, pollAttempts - 1, replies);
    if created.Created? && IsPending(created.run.status)
       && (forall i :: 0 <= i < pollAttempts ==> !IsTerminal(replies(i))) {
      ExhaustedBudgetFails(structureId, args, created, pollAttempts - 1, replies);
    }
  }
}
