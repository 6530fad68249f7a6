# The agent control plane, verified

A Dafny model of the parts of the webserver and its agent that keep state: the launcher's reconcile loop, the
request queue between webserver and agent, the heartbeats and the workspace the webserver derives from them, the
role store with its permission merge and its migrations, and the task table of a GraphQL websocket. Check it with
`dafny verify dfyconfig.toml`.

Objects the program updates in place are classes here (`ProcessLauncher`, `RequestTable`, `HeartbeatTable`, `Agent`,
`AgentMetrics`, `Backend`, `Database`, `Connection`), and their loops are loops. Every method is tied to a function on
the state it changes; the lemmas are about those functions, over all inputs and all runs.

| file | what it models |
|---|---|
| `Collections.dfy` | options, results, filtering and LIMIT on sequences |
| `Launcher.dfy`, `LauncherRuns.dfy`, `LauncherOutcomes.dfy` | starting, removing and health-checking code servers; one reconcile; runs of update, start, reconcile and stop; what a start attempt and a stop come to |
| `RequestQueue.dfy`, `QueueRuns.dfy` | the table of work requests; runs of enqueue, pop, complete, fail, requeue and the clock |
| `Requests.dfy` | one polling round of the agent, with its metrics |
| `Endpoints.dfy`, `Numerals.dfy` | `host:port` as text, printed by the agent and parsed by the webserver; which texts are read as a port, and as which |
| `Heartbeats.dfy`, `HeartbeatRuns.dfy` | the heartbeat table, the endpoint query, the cleanup |
| `Workspace.dfy` | the list of servers the webserver loads and writes to the workspace file |
| `Pipeline.dfy` | from code location definitions to the served endpoints, through sync, reconcile and heartbeat |
| `Permissions.dfy` | merging the permissions of several roles |
| `RoleStore.dfy`, `RoleStoreRuns.dfy` | users, roles and assignments; runs of their operations |
| `Migration.dfy` | revisions 003 and 004, up and down |
| `Subscriptions.dfy` | the subscription tasks of one websocket connection |

## How the world outside is modelled

- A database session is one step. Heartbeats with equal timestamps come back in any order, at each query anew.
  Requests created at the same time are taken in the order of their insertion, and a user's assignments are read in it.
- The clock is an integer and never goes back. Timeouts and time windows are differences of clock values.
- Spawning, waiting for readiness, pinging, HTTP calls and sending on a socket may each succeed or fail at will: their
  outcomes are parameters (`StartEnv`, `unresponsive`, `Scenario`, `Event`).
- Dicts are visited in any order. Where a loop over a dict matters, the order it took is the method's ghost result.
- User names and role names stand for the ids of the user and role rows; both are unique.

## What turned out differently from what the code or its comments say

Each of these is proved, for all inputs of its kind.

- Requeueing never leads to redelivery (`QueueRuns.RequeuedIsNeverRedelivered`). `dagster_webserver/api/background.py:29-31`
  wants another agent to pick the request up, but a requeued row has expired, and a pop skips expired rows.
- A labelled agent can be starved (`RequestQueue.LabelledPopCanMissAMatch`): with `3 * limit` older requests that do not
  match, a pop returns nothing although a match is waiting.
- A list of two or more `allowed_locations` selects none of its locations (`Pipeline.AllowedListHonouredOnlyAlone`): the
  client joins the names with commas and the server does not split them.
- One running entry whose endpoint is neither empty nor text, or one heartbeat whose reports are truthy and no dict, makes the
  endpoint query raise, and then no location at all is served (`HeartbeatRuns.RaisingHeartbeatBlanksTheMap`,
  `HeartbeatRuns.RaisesIff`).
- Of two heartbeats with the same timestamp either may win, whatever order they came in
  (`HeartbeatRuns.AnyNewestTimestampMayDecide`). `HeartbeatRuns.ServedIsDeterminedIff` gives the exact condition under
  which the served map does not depend on it.
- Agents report only running servers, so a removed location disappears from the webserver by staleness alone
  (`HeartbeatRuns.OnlyStalenessRemoves`, `Pipeline.NewestReportWins`).
- A completed request can be marked failed afterwards, exactly by its owner (`QueueRuns.CompletedFailsIff`, with a run
  that does it in `QueueRuns.CompletedThenFailed`); the owner's last verdict stands (`QueueRuns.LastVerdictDecides`). The
  agent does so exactly when the reply to its complete call is lost and its fail call goes through
  (`Requests.LostReplyFailsACompletedRequest`). The request stays finished and keeps its owner
  (`QueueRuns.FinishedStaysFinished`).
- A request with an unknown API name ends the polling round (`Requests.PollAndProcessRequests`), and the requests popped
  after it are never handled, because no later pop returns them (`QueueRuns.ClaimedAtMostOnce`).
- A server whose readiness wait fails is never torn down: it stays in the process tables as long as the launcher lives
  (`LauncherRuns.HandleConservation`, `LauncherRuns.HandlesAndEndpointsAgree`).
- A start error of a location that is no longer desired stays until it is desired again or the launcher stops
  (`LauncherRuns.ReconcileResult`). The comment at `dagster_agent/user_code_launcher/base.py:222` speaks of changed
  locations, but a location that already has a server is left alone, whatever its new metadata.
- Updating a user's role can store the same global assignment twice, because the UNIQUE constraint does not see NULL
  scopes; assigning or removing that role then raises. `RoleStoreRuns.UpdateKeepsRowsUniqueIff` gives the exact
  condition, and `RoleStoreRuns.DuplicateIsReachable` a run of three steps from a seeded store.
- Deleting a role that is still assigned is refused; the docstring at `dagster_webserver/auth/db_backend.py:732-736` says
  the assignments are nulled out.
- Downgrading from revision 004 restores a user's `role_id` exactly when every global assignment has that role
  (`Migration.DowngradeRestoresIff`). From revision 002 that is always so (`Migration.RoundTripRestoresColumn`).
- A subscription that has ended by itself keeps its operation id taken until a stop message: starting it again is
  ignored (`Subscriptions.RepeatedStartIsInvisible`).

## Model

| member | source | states |
|---|---|---|
| Launcher.LeastFree | dagster_agent/user_code_launcher/process.py:210-216 | the least port of the range that is not taken; none only if all are taken |
| Launcher.AllocatePort | dagster_agent/user_code_launcher/process.py:208-221 | the scan finds that port, and without a range the port is the one the OS assigns |
| Launcher.WaitForNewServerReady | dagster_agent/user_code_launcher/process.py:97-139 | the polls end with the first that sees a dead process or an open port, or with the timeout |
| Launcher.ProcessLauncher.constructor | dagster_agent/user_code_launcher/base.py:76-89 | a new launcher desires, holds and has ever spawned nothing |
| Launcher.ProcessLauncher.UpdateGrpcMetadata | dagster_agent/user_code_launcher/base.py:308-318 | replaces the desired set and changes nothing else |
| Launcher.ProcessLauncher.Start | dagster_agent/user_code_launcher/base.py:147-164 | marks the launcher started and changes nothing else |
| Launcher.ProcessLauncher.StartNewServerSpinup | dagster_agent/user_code_launcher/process.py:65-95 | either an error and no change, or a process recorded in both process tables with its port |
| Launcher.ProcessLauncher.StartServer | dagster_agent/user_code_launcher/base.py:226-243 | one start attempt: an endpoint and a handle when ready, otherwise only an error; a process whose wait raised is abandoned |
| Launcher.ProcessLauncher.RemoveServerHandle | dagster_agent/user_code_launcher/process.py:141-160 | drops the process from both process tables together, and does nothing for an unknown one |
| Launcher.ProcessLauncher.AddMissing | dagster_agent/user_code_launcher/base.py:222-243 | attempts exactly the desired locations without a handle, once each |
| Launcher.ProcessLauncher.ForgetServer | dagster_agent/user_code_launcher/base.py:252-257 | tears down an undesired server and forgets its handle and its endpoint |
| Launcher.ProcessLauncher.RemoveStale | dagster_agent/user_code_launcher/base.py:245-257 | does so for exactly the handled locations outside the desired snapshot, once each |
| Launcher.ProcessLauncher.FailServer | dagster_agent/user_code_launcher/base.py:278-293 | a failed ping leaves an error for the endpoint and tears down the handle |
| Launcher.ProcessLauncher.CheckServerHealth | dagster_agent/user_code_launcher/base.py:262-293 | does so for exactly the running locations that do not answer, once each |
| Launcher.ProcessLauncher.Reconcile | dagster_agent/user_code_launcher/base.py:207-260 | the three loops in order over the desired snapshot, and nothing when nothing is desired or held |
| Launcher.ProcessLauncher.Stop | dagster_agent/user_code_launcher/base.py:163-188 | tears down every held server once and empties both maps |
| Launcher.ProcessLauncher.RunningLocations | dagster_agent/user_code_launcher/base.py:342-349 | lists each location with an endpoint exactly once |
| Launcher.ProcessLauncher.GetGrpcEndpoint | dagster_agent/user_code_launcher/base.py:325-329 | the endpoint of a running location, nothing for an errored or unknown one |
| Launcher.ProcessLauncher.GetError | dagster_agent/user_code_launcher/base.py:331-335 | the error of a failed location, nothing for a running or unknown one |
| Launcher.ProcessLauncher.ReadyToServeRequests | dagster_agent/user_code_launcher/base.py:337-340 | whether a reconcile has got past its early return |
| Launcher.AddOneKeepsInv | dagster_agent/user_code_launcher/base.py:226-243 | a start attempt, whatever becomes of it, keeps conservation and agreement |
| Launcher.RemoveOneKeepsInv | dagster_agent/user_code_launcher/base.py:249-257 | a removal keeps conservation and agreement |
| Launcher.FailOneKeepsInv | dagster_agent/user_code_launcher/base.py:278-293 | a failed ping keeps conservation and agreement |
| LauncherRuns.ReconcileResult | dagster_agent/user_code_launcher/base.py:207-260 | the exact handle, endpoint or error at every location after a reconcile, for any failures and any dict order |
| LauncherRuns.ReconcileHandles | dagster_agent/user_code_launcher/base.py:207-260 | a location is handled afterwards if and only if it is desired, was handled or started, and answered |
| LauncherRuns.ReconcileReachesDesired | dagster_agent/user_code_launcher/base.py:207-260 | the handled locations become exactly the desired ones if and only if nothing desired fails |
| LauncherRuns.ReconcileIsStable | dagster_agent/user_code_launcher/base.py:207-260 | once they are, a reconcile whose pings succeed starts, stops and moves nothing |
| LauncherRuns.UnresponsiveIsRestarted | dagster_agent/user_code_launcher/base.py:262-293 | a server that failed its ping has a new process after the next reconcile that can start it |
| LauncherRuns.LateUpdatesWaitForNextReconcile | dagster_agent/user_code_launcher/base.py:214-293 | whatever desired-set updates land between or inside the iterations of the three loops, the loops act on a plan for the snapshot, and the result is that plan's, with the last update stored |
| LauncherRuns.AddLoopIsAddAll | dagster_agent/user_code_launcher/base.py:223-243 | the add loop as written, with updates landing in it, attempts exactly the names of the snapshot that had no handle when it began |
| LauncherRuns.RemoveLoopIsRemoveAll | dagster_agent/user_code_launcher/base.py:246-257 | the remove loop as written, with updates landing in it, removes exactly the handles it found outside the snapshot |
| LauncherRuns.HealthLoopIsFailAll | dagster_agent/user_code_launcher/base.py:268-293 | the health loop as written, with updates landing in it, fails exactly the endpoints it found and could not ping |
| LauncherRuns.EveryDesiredLocationAnswers | dagster_agent/user_code_launcher/base.py:325-349 | after a reconcile each desired location has an endpoint or an error and not both, an endpoint exactly if it has a handle, and the launcher is ready |
| LauncherRuns.OtherStepsAre | dagster_agent/user_code_launcher/base.py:308-318 | an update replaces just the desired set, and a start sets just the flag |
| LauncherRuns.StopKeepsInv | dagster_agent/user_code_launcher/base.py:163-188 | stopping keeps conservation and agreement |
| LauncherRuns.HandleConservation | dagster_agent/user_code_launcher/base.py:163-293 | over any run, each spawned process is stored under one location, or removed exactly once, or abandoned by its readiness wait, and only one of these |
| LauncherRuns.HandlesAndEndpointsAgree | dagster_agent/user_code_launcher/base.py:223-349 | over any run, handled locations are the running ones, at the port of their process, and both process tables hold the stored and the abandoned processes |
| LauncherOutcomes.SettledBySight | dagster_agent/user_code_launcher/process.py:110-139 | the wait ends as the first poll that is no refusal saw it, and times out exactly if all polls are refused |
| LauncherOutcomes.AllocatedPortIs | dagster_agent/user_code_launcher/process.py:208-221 | with a range the port is its least free one, and there is none exactly if all are taken; without one it is the OS's |
| LauncherOutcomes.ReadyIff | dagster_agent/user_code_launcher/base.py:226-231 | an attempt is ready with a process at a port if and only if that port was allocated, that process spawned, and the first poll that is no refusal found the port open |
| LauncherOutcomes.NeverReadyIff | dagster_agent/user_code_launcher/process.py:110-139 | a spawned process fails as dead or as timed out if and only if the first other poll found it dead, or none was other |
| LauncherOutcomes.NotSpawnedIff | dagster_agent/user_code_launcher/process.py:65-95 | nothing is spawned if and only if there is no port, with the error of its kind, or the spawn raised |
| LauncherOutcomes.ReconcileStoresReadyServers | dagster_agent/user_code_launcher/base.py:222-243 | a missing desired location is handled by a process after a reconcile if and only if that process was spawned for it at a port, was seen ready first, and answered its ping |
| LauncherOutcomes.ReconcileServesReadyServers | dagster_agent/user_code_launcher/base.py:222-243 | and then served at that port; its error is a timeout or a death exactly as its polls say |
| LauncherOutcomes.AttemptRecordsProcess | dagster_agent/user_code_launcher/process.py:92-93 | a spawned process is in both process tables with its port, whatever its wait comes to |
| LauncherOutcomes.ReconcileHistory | dagster_agent/user_code_launcher/base.py:222-293 | a reconcile spawns and abandons exactly the processes of its attempts, and removes once what is then neither stored nor abandoned |
| LauncherOutcomes.IdleReconcile | dagster_agent/user_code_launcher/base.py:217-220 | only a reconcile with nothing desired and nothing held does nothing and does not count |
| LauncherOutcomes.StopResult | dagster_agent/user_code_launcher/base.py:163-188 | a stop removes each held process once and no other, empties both maps and resets the flag; the process tables keep just the abandoned processes, and all else stays |
| LauncherOutcomes.IdleStop | dagster_agent/user_code_launcher/base.py:165-166 | an unstarted launcher that holds nothing is left as it is |
| RequestQueue.FirstMatches | dagster_webserver/database/agent_queries.py:187-193 | the loop with its break yields the first `limit` matches in order |
| RequestQueue.RequestTable.Enqueue | dagster_webserver/database/agent_queries.py:137-158 | stores a pending, unowned row that expires after its time to live, last in the order |
| RequestQueue.RequestTable.Pop | dagster_webserver/database/agent_queries.py:161-205 | claims the first `limit` matches in a window of `3 * limit` claimable rows for the agent, and touches no other row |
| RequestQueue.RequestTable.ClaimRows | dagster_webserver/database/agent_queries.py:195-199 | sets status, owner and time on exactly the matched rows |
| RequestQueue.RequestTable.Complete | dagster_webserver/database/agent_queries.py:208-226 | succeeds if and only if the row exists and the agent, when given, owns it; only then changes it |
| RequestQueue.RequestTable.Fail | dagster_webserver/database/agent_queries.py:229-247 | the same for a failure |
| RequestQueue.RequestTable.Requeue | dagster_webserver/database/agent_queries.py:259-277 | resets exactly the processing rows whose expiry has passed, and counts them |
| RequestQueue.EnqueuedIsLast | dagster_webserver/database/agent_queries.py:137-185 | a new request is claimable after all earlier ones, exactly until its time to live runs out |
| RequestQueue.PoppedAreClaimable | dagster_webserver/database/agent_queries.py:172-193 | what a pop returns was pending, unexpired and matching, each request once |
| RequestQueue.WindowedPopRefinesFifo | dagster_webserver/database/agent_queries.py:175-193 | a pop is a prefix of the unbounded FIFO answer, and equal to it if and only if the window holds enough matches or hides none |
| RequestQueue.UnlabelledPopIsFifo | dagster_webserver/database/agent_queries.py:53-60 | for an agent without labels, or a window over the whole queue, it is the FIFO answer |
| RequestQueue.LabelledPopCanMissAMatch | dagster_webserver/database/agent_queries.py:175-193 | for every limit, enough older misses hide a waiting match |
| RequestQueue.LabelsMatchIff | dagster_webserver/database/agent_queries.py:53-60 | a request matches if it has no labels, or if adding the required ones to its labels changes nothing |
| RequestQueue.PoppedFitTheAgent | dagster_webserver/database/agent_queries.py:172-193 | an agent's pop holds only pending, unexpired requests without labels or with all of its labels at their values |
| RequestQueue.FittingRowIsPopped | dagster_webserver/database/agent_queries.py:187-193 | and each such request of the window, unless `limit` others before it fill the pop |
| RequestQueue.InQueue | dagster_webserver/database/agent_queries.py:177-180 | what is claimable: pending rows without an expiry or with one still to come |
| RequestQueue.NoLabelsIsEmptyLabels | dagster_webserver/database/agent_queries.py:190 | an agent without labels pops as one with an empty set |
| RequestQueue.PopChangesOnlyTheClaim | dagster_webserver/database/agent_queries.py:195-199 | a pop sets status, owner and time of what it returns, and changes no other field and no other row |
| RequestQueue.RequeueResetsExpired | dagster_webserver/database/agent_queries.py:266-274 | every processing row past its expiry is reset in three fields, and nothing else changes |
| RequestQueue.EnqueueStores | dagster_webserver/database/agent_queries.py:146-157 | the new row holds what was given; a taken id changes nothing |
| RequestQueue.FinishSetsTheVerdict | dagster_webserver/database/agent_queries.py:215-247 | a verdict by the owner, or without an agent, sets status and response of that row only; any other changes nothing |
| QueueRuns.RunStaysChronological | dagster_webserver/database/agent_queries.py:137-277 | over any run the rows stay in the order of their creation times |
| QueueRuns.ClaimedAtMostOnce | dagster_webserver/database/agent_queries.py:172-277 | over any run no request is handed out twice |
| QueueRuns.OwnershipHolds | dagster_webserver/database/agent_queries.py:146-277 | over any run a row is unowned if and only if it has no claim time if and only if it is pending |
| QueueRuns.FinishedStaysFinished | dagster_webserver/database/agent_queries.py:208-277 | a finished request stays finished, with its owner, claim time and expiry |
| QueueRuns.OnlyOwnerFinishes | dagster_webserver/database/agent_queries.py:208-247 | a request becomes finished in a step if and only if its owner completes or fails it |
| QueueRuns.CompletedFailsIff | dagster_webserver/database/agent_queries.py:229-247 | a completed request becomes failed in a step if and only if its owner fails it |
| QueueRuns.LastVerdictDecides | dagster_webserver/database/agent_queries.py:208-247 | over any run a finished request ends with the status and response of the owner's last verdict, and is otherwise unchanged |
| QueueRuns.CompletedThenFailed | dagster_webserver/database/agent_queries.py:137-247 | a run in which a request is enqueued, popped, completed and then failed |
| QueueRuns.DeadRowsAreFrozen | dagster_webserver/database/agent_queries.py:172-277 | no run changes a pending row that has expired |
| QueueRuns.RequeuedIsNeverRedelivered | dagster_webserver/database/agent_queries.py:172-277 | after a requeue no pop of any later run returns the request |
| QueueRuns.RequeuedIsLostToItsOwner | dagster_webserver/database/agent_queries.py:208-277 | after a requeue the row never changes again, and complete and fail find nothing for any agent, the former owner included |
| QueueRuns.PollIsTwoSteps | dagster_webserver/database/agent_queries.py:161-205 | a polling round is a wait and a pop of the run semantics |
| QueueRuns.PollsAreARun | dagster_webserver/database/agent_queries.py:161-205 | any number of polling rounds is a run of that many waits and pops |
| QueueRuns.PollsDrainInOrder | dagster_webserver/database/agent_queries.py:175-199 | in a run of m waits and pops of an unlabelled agent exactly the oldest `min(n, m * limit)` of n requests are claimed, in order, and the rest stays in order |
| QueueRuns.EnoughPollsEmptyTheQueue | dagster_webserver/database/agent_queries.py:175-199 | m polls empty a queue of n if and only if `m * limit >= n`, so `ceil(n / limit)` polls do and fewer do not |
| Requests.AgentMetrics.constructor | dagster_agent/observability.py:81-91 | all counters start at zero and no error is kept |
| Requests.AgentMetrics.RecordRequestProcessed | dagster_agent/observability.py:97-98 | counts one processed request |
| Requests.AgentMetrics.RecordRequestFailed | dagster_agent/observability.py:100-104 | the error list is the last ten failures in order, and the counter is how many there were |
| Requests.Handleable | dagster_agent/agent.py:229-236 | how many requests of a batch come before the first unknown API name |
| Requests.PollAndProcessRequests | dagster_agent/agent.py:218-264 | processed plus failed grows by exactly the requests handled, which is the batch up to the first unknown API name; the queue is changed by those, in order |
| Requests.HandleBatch | dagster_agent/agent.py:229-264 | the loop handles the popped requests in order up to the first unknown API name and counts each once |
| Requests.HandleOne | dagster_agent/agent.py:244-264 | an exception of the handler or of the complete call, and nothing else, counts and is reported as a failure |
| Requests.HandleVerdict | dagster_agent/agent.py:244-264 | the status one held request ends with, for every fate of the two calls; no other row changes |
| Requests.LostReplyFailsACompletedRequest | dagster_agent/agent.py:244-264 | a request is completed and then failed if and only if its handler answered, the reply to the complete call was lost, and the fail call went through |
| Requests.BatchVerdicts | dagster_agent/agent.py:229-264 | the same for every request of a batch at once |
| Requests.ReliableBatchFinishes | dagster_agent/agent.py:266-348 | with built-in handlers and answered calls every request ends completed, or failed if a terminate body is no object |
| Requests.PoppedAreHeld | dagster_webserver/database/agent_queries.py:195-199 | after a pop the agent owns every request of the batch, each once |
| Requests.KnownApiNames | dagster_agent/api/types.py:13-26 | the ten known API names |
| Requests.KeptErrorsAreTheNewest | dagster_agent/observability.py:100-104 | the kept errors are the newest ten, or all if there are fewer |
| Requests.RoundPopsWithTheLabels | dagster_agent/agent.py:224-227 | a labelled agent pops, of the labelled requests, only those with all of its labels |
| Requests.HandledRequestStores | dagster_agent/agent.py:244-293 | the whole row after one request, for every outcome of a custom or built-in handler and every fate of the two calls |
| Requests.CountedAsFailedIff | dagster_agent/agent.py:244-256 | a held request counts as failed if and only if its handler raised or its complete call was not answered |
| Endpoints.RSplit | dagster_webserver/api/agent_workspace.py:158 | splits at the last colon, or fails if there is none |
| Endpoints.ParsePrintedInt | dagster_webserver/api/agent_workspace.py:159 | every integer, negative ones included, survives printing and parsing |
| Endpoints.AddressRoundTrip | dagster_agent/user_code_launcher/base.py:60-62 | every host, colons included, and every port survive the trip through text |
| Endpoints.EndpointTexts | dagster_webserver/api/agent_workspace.py:157-166 | which texts are endpoints, and of what |
| Numerals.ParsesNumerals | dagster_webserver/api/agent_workspace.py:159 | digits are accepted exactly with underscores only between two of them, and these do not count |
| Numerals.LeadingZeroDoesNotCount | dagster_webserver/api/agent_workspace.py:159 | a leading zero changes no value |
| Numerals.DigitsPrintBack | dagster_webserver/api/agent_workspace.py:159 | digits without one are read as the number that prints as them |
| Numerals.PortTextIsAccepted | dagster_webserver/api/agent_workspace.py:159-167 | such a numeral with at most one sign and spaces around it is accepted, negated after a minus sign |
| Numerals.OnlyPortTextsAreAccepted | dagster_webserver/api/agent_workspace.py:159-167 | every other port text is refused |
| Numerals.SpaceCharacters | dagster_webserver/api/agent_workspace.py:159 | the six characters that count as spaces |
| Heartbeats.ApplyHeartbeat | dagster_webserver/api/agent_workspace.py:146-167 | the inner loop serves, forgets or keeps each location as its own entry says, in any dict order, and raises if an entry does |
| Heartbeats.FoldEndpoints | dagster_webserver/api/agent_workspace.py:141-169 | the fold over an answer in reverse serves exactly what the search from its newest end for a decisive entry finds, and raises if and only if some row does |
| Heartbeats.HeartbeatTable.Submit | dagster_webserver/database/agent_queries.py:283-304 | appends one row; rows in time order stay so |
| Heartbeats.HeartbeatTable.DeleteOld | dagster_webserver/database/agent_queries.py:376-400 | keeps exactly the rows inside the retention, and counts the others |
| Heartbeats.HeartbeatTable.QueryEndpoints | dagster_webserver/api/agent_workspace.py:110-171 | serves what the database's answer says, any descending order of the rows inside the staleness window, or nothing when reading it raises |
| HeartbeatRuns.NewestDecisiveWins | dagster_webserver/api/agent_workspace.py:144-167 | the first decisive heartbeat of an answer decides a location, and only such a heartbeat does |
| HeartbeatRuns.SomethingIsServed | dagster_webserver/api/agent_workspace.py:130-139 | whatever the table holds, the query has an answer and a result |
| HeartbeatRuns.OnlyNewestTimestampsDecide | dagster_webserver/api/agent_workspace.py:130-169 | each location is served or not as one of its decisive heartbeats with the newest timestamp says, and not served without any |
| HeartbeatRuns.AnyNewestTimestampMayDecide | dagster_webserver/api/agent_workspace.py:136-145 | each of those may be the one, so that either of two with equal timestamps may win |
| HeartbeatRuns.ServedIsDeterminedIff | dagster_webserver/api/agent_workspace.py:110-171 | two queries of one table always agree about a location if and only if its newest decisive heartbeats do, or some row raises |
| HeartbeatRuns.ServedIsDetermined | dagster_webserver/api/agent_workspace.py:110-171 | when they do everywhere, the rows determine the whole endpoint map |
| HeartbeatRuns.ServedByNewestTimestamp | dagster_webserver/api/agent_workspace.py:130-169 | no heartbeat that decides a served location is newer than the one it is served from |
| HeartbeatRuns.ServedComesFromWindow | dagster_webserver/api/agent_workspace.py:123-139 | every served endpoint comes from a row inside the staleness window |
| HeartbeatRuns.RaisesIff | dagster_webserver/api/agent_workspace.py:146-160 | a heartbeat makes the query raise if and only if its reports are truthy and no dict, or hold a running entry with a truthy endpoint that is not text |
| HeartbeatRuns.RaisingHeartbeatBlanksTheMap | dagster_webserver/api/agent_workspace.py:57-65 | if a row in the window raises nothing is served, and otherwise what some answer says |
| HeartbeatRuns.RaisingEntryBlanksTheMap | dagster_webserver/api/agent_workspace.py:154-160 | one running entry with an endpoint that is not text leaves nothing served |
| HeartbeatRuns.ForgetsIff | dagster_webserver/api/agent_workspace.py:146-153 | a heartbeat forgets a location if and only if its entry is an object whose status is missing or not the text "running" |
| HeartbeatRuns.ServesIff | dagster_webserver/api/agent_workspace.py:154-167 | a heartbeat serves it at an endpoint if and only if its entry is running at a text that splits and parses to that endpoint |
| HeartbeatRuns.StoppedIsNotServed | dagster_webserver/api/agent_workspace.py:150-153 | a location whose newest decisive heartbeats all stop it is in no map the query may give |
| HeartbeatRuns.RunningIsServed | dagster_webserver/api/agent_workspace.py:154-167 | one whose newest decisive heartbeats all run it at one endpoint is in every map, at that endpoint |
| HeartbeatRuns.TruthyIff | dagster_webserver/api/agent_workspace.py:146-156 | the six kinds of falsy values |
| HeartbeatRuns.OnlyStalenessRemoves | dagster_webserver/api/agent_workspace.py:150-153 | without stop entries a location is served exactly while the window holds a report of it |
| HeartbeatRuns.CleanedRows | dagster_webserver/database/agent_queries.py:394-397 | a cleanup keeps each row inside the retention as often as it was there, and no other |
| HeartbeatRuns.StepsAre | dagster_webserver/database/agent_queries.py:283-400 | what the steps of a run do to the rows and the clock |
| HeartbeatRuns.CleanupKeepsWindow | dagster_webserver/database/agent_queries.py:394-397 | a cleanup changes no later window when the retention is at least the staleness |
| HeartbeatRuns.CleanupKeepsServed | dagster_webserver/database/agent_queries.py:394-397 | so it changes nothing about what any later query may serve |
| HeartbeatRuns.ShortRetentionShows | dagster_webserver/database/agent_queries.py:394-397 | with any shorter retention a cleanup can remove a served location |
| HeartbeatRuns.RunsKeepOrdered | dagster_webserver/database/agent_queries.py:283-400 | over any run the rows stay in time order |
| HeartbeatRuns.CleanupIsInvisible | dagster_webserver/database/agent_queries.py:376-400 | any run serves what the same run without its cleanups serves |
| Workspace.Sorted | dagster_webserver/api/agent_workspace.py:92 | the names of the map in ascending order, each once |
| Workspace.BeforeByFirstDifference | dagster_webserver/api/agent_workspace.py:92 | the order of the names is that of the first differing character, a proper prefix first |
| Workspace.ListOrigins | dagster_webserver/api/agent_workspace.py:91-103 | one origin per served location, with its host and port, in name order |
| Workspace.CreateOrigins | dagster_webserver/api/agent_workspace.py:85-108 | a reload lists exactly what the database's answer serves |
| Workspace.ListingIsUnique | dagster_webserver/api/agent_workspace.py:277-287 | a map has only one such list |
| Workspace.ListedMapIsUnique | dagster_webserver/api/agent_workspace.py:277-287 | a list is of only one map |
| Workspace.FileAgreesWithLoader | dagster_webserver/api/agent_workspace.py:264-290 | with one staleness at one time, file and loader list the same servers if and only if their queries came to one map, even across a cleanup; and they do unless newest heartbeats with one timestamp differ |
| Pipeline.Agent.constructor | dagster_agent/agent.py:48-59 | an agent with its labels and allowed locations that has done nothing yet |
| Pipeline.Agent.SyncWorkspace | dagster_agent/agent.py:172-197 | the launcher's desired set becomes the fetched definitions, and nothing else of it changes |
| Pipeline.Agent.SendHeartbeat | dagster_agent/agent.py:376-411 | submits one running entry per endpoint of the launcher, or null when there is none |
| Pipeline.DesiredIsActiveMatching | dagster_webserver/database/agent_queries.py:28-60 | without allowed locations the agent is asked for exactly the active definitions whose labels match |
| Pipeline.WorkspaceEntriesAre | dagster_webserver/database/agent_queries.py:28-60 | the query selects exactly the active definitions with one of the names and all of the labels, where no or empty names or labels select everything |
| Pipeline.FetchedFitTheAgent | dagster_webserver/database/agent_queries.py:34-60 | fetched are exactly the active definitions without labels or with all of the agent's labels at their values |
| Pipeline.EmptyAllowedListIsNone | dagster_agent/api/client.py:54-55 | an empty list of allowed locations is as good as none |
| Pipeline.DesiredIsTheLastOfItsName | dagster_agent/agent.py:184-193 | a name is desired with the metadata and labels of its last definition |
| Pipeline.AllowedListFetches | dagster_agent/api/client.py:54-55 | with allowed locations, for exactly those named by the whole joined list |
| Pipeline.JoinAppend | dagster_agent/api/client.py:55 | joining puts one separator between two lists and leaves a single name alone |
| Pipeline.AllowedListHonouredOnlyAlone | dagster_webserver/api/agent.py:165-173 | a listed location is fetched if and only if the list has one entry, whatever the names |
| Pipeline.ReportReadsBack | dagster_agent/agent.py:381-388 | the webserver reads each of an agent's own entries back as the endpoint the launcher has |
| Pipeline.OwnReportIsServedIff | dagster_webserver/api/agent_workspace.py:130-169 | a running location is served at its launcher's endpoint under every order of ties if and only if all its newest decisive heartbeats say so |
| Pipeline.NewestReportWins | dagster_webserver/api/agent_workspace.py:130-169 | a heartbeat with a later timestamp than every other that decides a location overrides them if it reports it, and otherwise leaves what they may serve |
| Pipeline.EndToEnd | dagster_agent/agent.py:172-197 | after sync, failure-free reconcile and a heartbeat with a later timestamp than every other that decides the location, an active matching location is served at exactly the port of its process, and any other only as the other heartbeats may serve it |
| Permissions.MergeRole | dagster_webserver/auth/roles.py:183-210 | adds exactly what one role grants, unknown permissions and unreadable roles ignored |
| Permissions.MergeRoles | dagster_webserver/auth/roles.py:180-210 | the loop over the roles enables the union of what they grant |
| Permissions.ResolvePermissionsForLocation | dagster_webserver/auth/roles.py:152-244 | enables that union, plus the admin edits if one role is an admin; lists every permission, and the admin entries only for a nonempty list of roles |
| Permissions.MergeIsMonotone | dagster_webserver/auth/roles.py:152-244 | order and repetition of roles do not matter, and more roles never enable less |
| Permissions.MergeIsUnion | dagster_webserver/auth/roles.py:152-244 | two lists together enable exactly what each enables |
| Permissions.OneFlagOpensTheAdminPortal | dagster_webserver/auth/roles.py:223-260 | a custom role enables an admin edit if and only if its ADMIN_EDIT_USERS flag is set |
| Permissions.BuiltinRoleEnables | dagster_webserver/auth/roles.py:37-50 | what each built-in role enables, by name, and nothing for any other name |
| Permissions.CustomRoleEnables | dagster_webserver/auth/roles.py:195-210 | a custom role enables a known permission if and only if its flag is set |
| Permissions.EnabledBySome | dagster_webserver/auth/roles.py:180-229 | a list enables what some role of it enables alone |
| Permissions.AdminEntriesAre | dagster_webserver/auth/roles.py:228-242 | the admin entries, set for an admin and cleared for anybody else |
| RoleStore.FirstGlobal | dagster_webserver/auth/db_backend.py:253-256 | the user's first global assignment, none if there is none |
| RoleStore.Backend.CreateUser | dagster_webserver/auth/db_backend.py:161-214 | adds the user and, if named, one global role; an unknown role or a taken name changes nothing |
| RoleStore.Backend.FindGlobal | dagster_webserver/auth/db_backend.py:253-256 | the scan finds that assignment |
| RoleStore.Backend.UpdateUser | dagster_webserver/auth/db_backend.py:216-278 | moves or adds the global role and sets the active flag; any error changes nothing |
| RoleStore.Backend.DeleteUser | dagster_webserver/auth/db_backend.py:280-292 | removes the user and all their assignments, nobody else's |
| RoleStore.Backend.AssignRoleToLocation | dagster_webserver/auth/db_backend.py:477-516 | adds the assignment unless it exists; raises when it exists twice |
| RoleStore.Backend.RemoveRoleFromLocation | dagster_webserver/auth/db_backend.py:518-553 | removes the assignment and says so; raises when it exists twice |
| RoleStore.Backend.SetUserRoleAssignments | dagster_webserver/auth/db_backend.py:555-622 | replaces the user's assignments by the wanted ones, or changes nothing |
| RoleStore.ScopesAreUnique | dagster_webserver/auth/db_backend.py:572-581 | the scan accepts exactly lists without a repeated scope, an empty name being the global one |
| RoleStore.Backend.CreateRole | dagster_webserver/auth/db_backend.py:684-704 | adds a custom role under a new name only |
| RoleStore.Backend.UpdateRole | dagster_webserver/auth/db_backend.py:706-729 | changes the permissions of a custom role only |
| RoleStore.Backend.DeleteRole | dagster_webserver/auth/db_backend.py:731-759 | removes a custom role that nobody has |
| RoleStoreRuns.ReferencesHold | dagster_webserver/auth/db_backend.py:161-759 | over any run every assignment refers to an existing user and role |
| RoleStoreRuns.BuiltinsAreFixed | dagster_webserver/auth/db_backend.py:706-759 | over any run a built-in role is neither removed nor altered |
| RoleStoreRuns.SeededStoreStaysSafe | dagster_webserver/auth/db_backend.py:87-112 | from a seeded store on, the five built-in roles are there as seeded and nothing dangles |
| RoleStoreRuns.SetLeavesExactlyTheWanted | dagster_webserver/auth/db_backend.py:555-622 | nothing changes, or the user has exactly the wanted assignments, one role per scope, and every other user's are kept in order |
| RoleStoreRuns.SetThenGet | dagster_webserver/auth/db_backend.py:624-656 | the roles at a location afterwards are exactly the wanted global ones and those wanted there |
| RoleStoreRuns.SetScopes | dagster_webserver/auth/db_backend.py:600-617 | the wanted assignments, an empty location name standing for the global scope |
| RoleStoreRuns.RaisesIff | dagster_webserver/auth/db_backend.py:161-759 | when each operation raises |
| RoleStoreRuns.CreateStores | dagster_webserver/auth/db_backend.py:185-206 | a new user has the given account and just the named global role; everything else stays |
| RoleStoreRuns.DeleteRemovesTheUser | dagster_webserver/auth/db_backend.py:280-292 | a deleted user is gone with all assignments, and nothing else is |
| RoleStoreRuns.UpdateSetsTheFlag | dagster_webserver/auth/db_backend.py:216-278 | an update sets the active flag it is given, and no other part of any account |
| RoleStoreRuns.RemoveTakesOnlyThatRow | dagster_webserver/auth/db_backend.py:540-553 | a removal takes that assignment and no other |
| RoleStoreRuns.RolesStorePermissions | dagster_webserver/auth/db_backend.py:695-729 | created and updated roles hold the given permissions |
| RoleStoreRuns.DeleteUndoesCreate | dagster_webserver/auth/db_backend.py:161-292 | deleting a user just created restores the store |
| RoleStoreRuns.RemoveUndoesAssign | dagster_webserver/auth/db_backend.py:477-553 | an assignment just made exists once, and removing it restores the store unless it was there before |
| RoleStoreRuns.DeleteUndoesCreateRole | dagster_webserver/auth/db_backend.py:684-759 | deleting a role just created restores the store |
| RoleStoreRuns.UpdateSetsTheGlobalRole | dagster_webserver/auth/db_backend.py:250-268 | the new role is the reported global one; local assignments and other users' stay, in order |
| RoleStoreRuns.UpdateKeepsRowsUniqueIff | dagster_webserver/auth/db_backend.py:250-268 | an update keeps assignments free of duplicates if and only if the user does not already hold that global role in another row |
| RoleStoreRuns.CopiedRowBlocksAssignAndRemove | dagster_webserver/auth/db_backend.py:497-551 | otherwise assigning and removing that role raise |
| RoleStoreRuns.DuplicateIsReachable | dagster_webserver/auth/db_backend.py:250-268 | a run from any seeded store that stores one assignment twice, after which assigning and removing that role raise |
| RoleStoreRuns.OtherStepsKeepRowsUnique | dagster_webserver/database/models.py:113-126 | no other operation creates a duplicate |
| RoleStoreRuns.SafeRunKeepsRowsUnique | dagster_webserver/database/models.py:113-126 | over any run without such an update there are no duplicates |
| RoleStoreRuns.InRolesForLocation | dagster_webserver/auth/db_backend.py:642-656 | a role applies at a location if and only if it is assigned globally or there |
| RoleStoreRuns.RolesAtLocation | dagster_webserver/auth/db_backend.py:642-656 | spelled out for a named location, an empty name and none |
| RoleStoreRuns.LocationEnablesAtLeastGlobal | dagster_webserver/auth/db_backend.py:642-656 | at any location a user is enabled at least what the global roles enable |
| RoleStoreRuns.GlobalRoleAppliesEverywhere | dagster_webserver/auth/db_backend.py:781-791 | the reported global role applies at every location, and there is one exactly when some role applies everywhere |
| Migration.Database.Upgrade003 | dagster_webserver/database/alembic/versions/003_create_agent_tables.py:176-188 | one global assignment per user with a role_id; the column stays |
| Migration.Database.Upgrade004 | dagster_webserver/database/alembic/versions/004_drop_user_role_id.py:21-60 | adds one for each user with a role_id and no global assignment, and drops the column |
| Migration.Database.Downgrade004 | dagster_webserver/database/alembic/versions/004_drop_user_role_id.py:63-89 | gives each user the role of some global assignment, or NULL without one; assignments stay |
| Migration.Database.Downgrade003 | dagster_webserver/database/alembic/versions/003_create_agent_tables.py:191-194 | drops the assignments |
| Migration.FirstGlobalIsFirstOfFilter | dagster_webserver/auth/db_backend.py:781-791 | the backend's lookup finds the first of the user's global assignments, and none only if there are none |
| Migration.UpgradeGlobals | dagster_webserver/database/alembic/versions/004_drop_user_role_id.py:24-50 | from any database at 003: existing assignments stay, and a user without a global one gets the role_id |
| Migration.MigrationKeepsRoles | dagster_webserver/database/alembic/versions/004_drop_user_role_id.py:21-60 | from any database at 002, both upgrades give exactly one global assignment with the old role_id, or none for NULL, and the backend reads it back |
| Migration.CopiedRows | dagster_webserver/database/alembic/versions/003_create_agent_tables.py:178-188 | 003 copies exactly the global assignments that the column stands for |
| Migration.UpgradeAddsOnly | dagster_webserver/database/alembic/versions/004_drop_user_role_id.py:24-50 | 004 adds exactly those of users without a global assignment, and drops none |
| Migration.DowngradeExists | dagster_webserver/database/alembic/versions/004_drop_user_role_id.py:75-89 | the roles the backend reads are one possible result of the downgrade |
| Migration.DowngradeRestoresIff | dagster_webserver/database/alembic/versions/004_drop_user_role_id.py:21-89 | from any database at 003, up and down restores a user's role_id, whichever row is picked, if and only if every global assignment agrees with it |
| Migration.RoundTripRestoresColumn | dagster_webserver/database/alembic/versions/004_drop_user_role_id.py:21-89 | from any database at 002, up and down restores the whole column |
| Migration.RoundTripKeepsAssignments | dagster_webserver/database/alembic/versions/004_drop_user_role_id.py:21-89 | from any database at 004, down and up leaves the assignments as they were |
| Migration.StaleRoleIdIsDropped | dagster_webserver/database/alembic/versions/004_drop_user_role_id.py:24-60 | a role_id that differs from the user's global assignment is lost |
| Subscriptions.Connection.constructor | dagster_webserver/graphql.py:186-188 | an empty table |
| Subscriptions.Connection.Handle | dagster_webserver/graphql.py:195-233 | one message: what it does to the table and whether it ends the loop, and how |
| Subscriptions.Connection.Serve | dagster_webserver/graphql.py:181-239 | for every stream and however the loop is left, every task created was cancelled exactly once, and the exception propagates unless it is a disconnect |
| Subscriptions.Connection.CancelAll | dagster_webserver/graphql.py:237-239 | the finally block cancels exactly the tasks still in the table |
| Subscriptions.LoopKeepsTracked | dagster_webserver/graphql.py:190-233 | at any moment a task is in the table under its own operation or has been cancelled once, and not both |
| Subscriptions.OneLiveTaskPerOperation | dagster_webserver/graphql.py:204-226 | at any moment an operation has at most one uncancelled task |
| Subscriptions.CancelledAtMostOnce | dagster_webserver/graphql.py:228-233 | no task is cancelled twice, and nothing else is cancelled |
| Subscriptions.TableIsLive | dagster_webserver/graphql.py:204-233 | an operation is in the table if and only if the newest message that settles it is a successful start, not a stop |
| Subscriptions.RepeatedStartIsInvisible | dagster_webserver/graphql.py:205-207 | starting a live operation changes nothing, now or later |
| Subscriptions.LoopGoesOnIff | dagster_webserver/graphql.py:190-233 | the loop goes on if and only if no event raises or ends it, read off the messages |
| Subscriptions.FirstEndDecides | dagster_webserver/graphql.py:190-239 | the first such event decides whether the connection raises; nothing after it is read, and it touches no task |

## Left out

- Finer interleavings: a pop reads and then claims by primary key without checking the status again, so two overlapping
  pops could claim one request; the queue results hold for sessions one at a time.
- Subscriptions.Connection.Serve: an exception on leaving the request context after a task was created is not modelled;
  that task would not be in the table. Tasks that end by themselves stay in the table, as in the source.
- Pipeline.EndToEnd: without `allowed_locations`; what they do is stated by Pipeline.AllowedListFetches. Other
  heartbeats that decide the location are older by timestamp; Pipeline.OwnReportIsServedIff covers all timestamps.
- Launcher.ProcessLauncher.Reconcile: its callers supply an outcome for each location it may have to start, and no
  process id is ever handed out twice.
- Launcher.ProcessLauncher.Stop: not modelled in the middle of a reconcile, which it waits for with a timeout.
- RequestQueue.RequestTable.Pop: a negative limit, whose meaning depends on the database; and a database that orders
  requests with equal creation times differently from one pop to the next.
- QueueRuns: complete and fail without an agent id, which the REST handlers refuse (`dagster_webserver/api/agent.py:308-310`);
  RequestQueue.RequestTable.Complete and Fail do cover them.
- Requests.PollAndProcessRequests: no other session changes the queue during one round; response bodies are parameters.
- Endpoints: non-ASCII digits and spaces, and the digit limit of `int()`.
- Heartbeats.HeartbeatTable.QueryEndpoints: the ten-second limit of the query thread, after which nothing is served.
- Workspace: the YAML text and its atomic replacement. The file always uses the default staleness
  (`dagster_webserver/api/agent_workspace.py:265-268`), so it can differ from a loader configured otherwise.
- Permissions: permission texts that decode to something other than an object, on which the source raises; the reasons
  given for disabled permissions; the other admin lookups of `dagster_webserver/auth/roles.py`.
- RoleStore: passwords, email and display name, sessions, API keys, OIDC and service accounts (created like a user), the
  default role of users without an assignment, and code location records.
- Migration: table and index definitions of both revisions, and the other tables of 003.
- Heartbeat metadata and error lists, request status polling, snapshots: rows that are stored and returned as they are.
- Docker and Kubernetes launchers, HTTP, gRPC, threads, signals, logging, GraphQL execution and the admin portal pages.
