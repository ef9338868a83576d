# Griptape structure chatbot: run client and session handler

This project models two pieces of the chatbot Lambda from the Griptape
structure chatbot deployment. Both are written in Dafny.

- **The run client.** `GriptapeApiClient.run` submits a run of a Griptape
  Cloud structure. While the run is `QUEUED` or `RUNNING` and the attempt
  counter is within `poll_attempts`, it polls the run's status. It then
  returns the run's `output` when the run `SUCCEEDED`, and raises "Run
  failed!" otherwise. The create request and each status poll are inputs
  (`created`, and `replies(k)` for the k-th poll). Every call, logged poll
  failure and sleep is recorded in a ghost trace of `Call`s. The method
  `GriptapeApiClient.Run` keeps the source's loop: the `<=` guard, the
  `break` on a terminal status, and the swallowed exception. It is proved
  equal to the specification functions `ResultOf` and `CallsOf`. The lemmas
  prove what those functions promise.
- **The request handler.** `handler` dispatches on the body's `operation`.
  For `"create_session"` it returns `{"session_id": id}`, where
  `_get_unique_session_id` draws UUIDs until a DynamoDB lookup finds no item.
  The table is a set of existing ids. The UUID generator is a sequence of
  candidate ids.

Files: `wrappers.dfy` (Option), `run_client.dfy` (module `RunClient`),
`chatbot_handler.dfy` (module `ChatbotHandler`).

In the run-client lemmas, `lastPoll` is the largest counter value the loop
guard admits. `Run` uses `lastPoll = poll_attempts`, as the guard
`poll_attempts <= self.poll_attempts` does. The lemmas hold for any `lastPoll`.

Two behaviours of the code differ from what one might expect of a polling
budget. The model follows the code in both:

- A poll that returns a terminal status breaks out before the sleep. So a
  run that finishes on its first poll costs one poll and no sleep.
- A budget of `n` allows `n + 1` polls (see Findings).

## Model

| member | source | states |
|---|---|---|
| `RunClient.GriptapeApiClient.constructor` | lambdas/griptape-chatbot/clients/griptape_api_client.py:9-24 | `api_key` is required. The base URL defaults to `https://cloud.griptape.ai` and the budget to 120. Unless headers are given, they are exactly `Authorization: Bearer <api_key>` and `Content-Type: application/json`. |
| `RunClient.GriptapeApiClient.Run` | lambdas/griptape-chatbot/clients/griptape_api_client.py:26-47 | The loop with the `<=` guard, the `break` and the swallowed exception. It returns `ResultOf(created, poll_attempts, replies)` and performs exactly `CallsOf(...)`. |
| `RunClient.CountFrom` | lambdas/griptape-chatbot/clients/griptape_api_client.py:30-41 | Once polling has reached poll `k` within the guard, more polls follow, but never more than `lastPoll + 1` in all. Past the guard, no more polls are made. |
| `RunClient.PollCount` | lambdas/griptape-chatbot/clients/griptape_api_client.py:30-34 | At most `poll_attempts + 1` polls happen, and none for a negative budget. At least one poll happens exactly when the created run is QUEUED/RUNNING and the budget is non-negative. |
| `RunClient.LastSeen` | lambdas/griptape-chatbot/clients/griptape_api_client.py:35-40 | The record `run` holds is the created one or a body some poll returned. A raised poll does not replace it. |
| `RunClient.Step` | lambdas/griptape-chatbot/clients/griptape_api_client.py:35-42 | Every loop iteration begins with a poll of the created run id. |
| `RunClient.Trace` | lambdas/griptape-chatbot/clients/griptape_api_client.py:31-42 | Each poll adds one to three trace entries: the poll, an optional failure log and an optional sleep. |
| `RunClient.Decide` | lambdas/griptape-chatbot/clients/griptape_api_client.py:44-47 | It returns the output exactly when the status is `SUCCEEDED` and an output is present. Every other status gives "Run failed!". A `SUCCEEDED` body without `output` raises a missing-key error. |
| `RunClient.ResultOf` | lambdas/griptape-chatbot/clients/griptape_api_client.py:27 | A failed create request propagates, and it is the only way `run` raises the request error. |
| `RunClient.CallsOf` | lambdas/griptape-chatbot/clients/griptape_api_client.py:27-28 | The create request comes first. After a failed create, nothing else happens. |
| `RunClient.EarlierPollsNotTerminal` | lambdas/griptape-chatbot/clients/griptape_api_client.py:36-38 | Every poll before the last one returned a pending status or raised. |
| `RunClient.LastPollEndsLoop` | lambdas/griptape-chatbot/clients/griptape_api_client.py:31-38 | The last poll either returned a terminal status or used up the budget. |
| `RunClient.CountFromStopsAt` | lambdas/griptape-chatbot/clients/griptape_api_client.py:36-38 | The first terminal reply within the guard is the last poll. |
| `RunClient.CountFromExhausts` | lambdas/griptape-chatbot/clients/griptape_api_client.py:31-41 | With no terminal reply, polling runs until the counter passes the budget. |
| `RunClient.LastSeenStaysPending` | lambdas/griptape-chatbot/clients/griptape_api_client.py:35-40 | Pending replies and raised polls leave the held record pending. |
| `RunClient.TraceCounts` | lambdas/griptape-chatbot/clients/griptape_api_client.py:36-42 | After `n` polls the trace holds `n` polls. It holds one sleep per poll, except for a final terminal poll. |
| `RunClient.TracePollsUse` | lambdas/griptape-chatbot/clients/griptape_api_client.py:36 | Every poll in the trace names the given run id. |
| `RunClient.SleepsFollowRetriedPolls` | lambdas/griptape-chatbot/clients/griptape_api_client.py:35-42 | The number of sleeps equals the number of polls that were non-terminal or raised. All polls but the last were of that kind. |
| `RunClient.PollBudget` | lambdas/griptape-chatbot/clients/griptape_api_client.py:30-42 | At most `lastPoll + 1` polls happen, and no more sleeps than polls. Some poll happens exactly when the create succeeded with a QUEUED/RUNNING run and the budget is non-negative. |
| `RunClient.FinishedRunIsNotPolled` | lambdas/griptape-chatbot/clients/griptape_api_client.py:27-47 | A created run that is not QUEUED/RUNNING gets no poll and no sleep, and is decided on its create body. |
| `RunClient.StopsAtFirstTerminalPoll` | lambdas/griptape-chatbot/clients/griptape_api_client.py:36-38 | The first terminal reply at index `j` ends the loop with `j + 1` polls and `j` sleeps, and its body decides the result. |
| `RunClient.ExhaustedBudgetFails` | lambdas/griptape-chatbot/clients/griptape_api_client.py:30-47 | A run still pending after the budget is spent fails with "Run failed!", after `lastPoll + 1` polls and as many sleeps. |
| `RunClient.FailedPollIsRetried` | lambdas/griptape-chatbot/clients/griptape_api_client.py:35-42 | A raised poll keeps the held record, logs, and sleeps. Another poll follows while the budget allows. |
| `RunClient.PollsUseCreatedRunId` | lambdas/griptape-chatbot/clients/griptape_api_client.py:28-36 | Every poll uses the `structure_run_id` from the create response. |
| `RunClient.OutputOnlyFromSucceededRecord` | lambdas/griptape-chatbot/clients/griptape_api_client.py:44-45 | A returned output comes from a `SUCCEEDED` record carrying it. That record is either the create body or a poll body. |
| `RunClient.QueuedThenSucceeded` | lambdas/griptape-chatbot/clients/griptape_api_client.py:36-38 | QUEUED, then SUCCEEDED on the first poll: the output after exactly one poll and no sleep. |
| `RunClient.TransientPollFailureRecovers` | lambdas/griptape-chatbot/clients/griptape_api_client.py:35-42 | With a budget of 5, a raised second poll does not stop a later success. |
| `RunClient.BudgetAllowsOneExtraPoll` | lambdas/griptape-chatbot/clients/griptape_api_client.py:30-33 | As written, a budget of 3 makes four polls and four sleeps before failing. |
| `RunClient.CappedPollBound` | lambdas/griptape-chatbot/clients/griptape_api_client.py:33 | With the guard `<`, at most `poll_attempts` polls happen. A run that stays pending gets exactly that many polls and sleeps. |
| `ChatbotHandler.FirstFresh` | lambdas/griptape-chatbot/index.py:43-47 | The first candidate absent from the table. Every earlier candidate was present. |
| `ChatbotHandler.FirstFreshIsUnique` | lambdas/griptape-chatbot/index.py:45-49 | A fresh candidate preceded only by taken ones is the one the loop stops at. |
| `ChatbotHandler.UniqueSessionId` | lambdas/griptape-chatbot/index.py:39-49 | The body runs at least once. The loop continues exactly while the current candidate is in the table. The result is the last drawn candidate and is not in the table. |
| `ChatbotHandler.HandleCreateSession` | lambdas/griptape-chatbot/index.py:34-36 | It returns `{"session_id": id}` with exactly the id the session loop produced. |
| `ChatbotHandler.Handler` | lambdas/griptape-chatbot/index.py:22-31 | It creates a session exactly when `operation` is present and equals the string `"create_session"`. Otherwise, including a missing key, it returns "Operation not supported". |

## Left out

- The HTTP transport (`requests`, `urljoin`, `raise_for_status`, JSON decoding) is not modelled. The create request and each poll are given as outcomes, so URLs and headers are never sent.
- `time.sleep` and `poll_interval` (default 0.5 s) are wall-clock time and floating point. A sleep is a `Sleep` trace entry, with no duration.
- The `print` in the exception handler is a `LogPollFailure` trace entry. The exception's text is not kept.
- Malformed response bodies are not modelled. A body without `structure_run_id` or `status` raises a `KeyError` in the source. The model assumes both keys are present; only a missing `output` is modelled.
- `uuid4` and DynamoDB `get_item` are external. They are a candidate sequence and a set of existing ids, and the table does not change while the loop runs.
- ChatbotHandler.UniqueSessionId: requires some candidate to be absent from the table. The source loops forever otherwise.
- `json.loads(event["body"])` is not modelled. The handler receives the decoded body as a JSON object, so a body that is not valid JSON or not an object is not covered.
- JSON numbers are integers only; floating point is left out.
- The `get_*_api_key` secret fetches, the secret- and structure-provider Lambdas and their CRUD clients, the agent bootstrap and the CDK stack are not part of this model. They are I/O plumbing and declarative configuration.

## Findings

| source | as written | input that shows it | evidently intended | confidence | as-written member | corrected member |
|---|---|---|---|---|---|---|
| lambdas/griptape-chatbot/clients/griptape_api_client.py:33 | `poll_attempts <= self.poll_attempts` admits counter values 0 through `poll_attempts`, which is `poll_attempts + 1` polls and sleeps | `poll_attempts = 3`, created run QUEUED, every poll RUNNING: 4 polls, 4 sleeps, then "Run failed!" | `poll_attempts` is the number of polls, so the guard is `<` (3 polls, 3 sleeps) | low, not executed | `RunClient.BudgetAllowsOneExtraPoll` | `RunClient.CappedPollBound` |
