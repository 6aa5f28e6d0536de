# cucm_service_do — a Dafny model of the service control and polling run

`cucm_service_do.py` takes a service name and an action (Start, Stop or
Restart). For every Cisco Unified Communications Manager server listed in
`./ucmlist.txt` it:

- sends one Control Center Services control request (`soapDoControlServices`) for that single service;
- prints the statuses the request returns;
- then calls `soapGetServiceStatus` with the list of names still pending until that list is empty.

A name leaves the pending list, by Python's `list.remove`, when a poll reports it exactly `"Started"`. The script sleeps between polls while a name is still pending. A SOAP fault on either call prints the fault and ends the whole run with exit status 1. The first line of the server list that is blank after `strip()` ends the enumeration of servers.

The model consists of:

- `maybe.dfy`, module `Maybe`: the `Option` type.
- `action.dfy`, module `ControlAction`: the action argument.
  - The if/elif chain becomes `Classify`. An absent argument becomes `"Restart"` in `Normalize`.
  - lemmas relating `Classify` to an independent description of the accepted spellings (the word, its lower case and its upper case).
- `server_list.dfy`, module `ServerList`:
  - Python's `str.strip` over the characters `str.isspace` accepts;
  - `Endpoints`, the addresses the file loop visits, up to the first blank line.
- `report.dfy`, module `Report`: the row `'{:50.50}'.format(name) + status`, and the recovery of name and status from a row.
- `pending.dfy`, module `PendingList`: `list.remove`, which deletes the first occurrence or fails with ValueError, and removal of a sequence of names, characterised by multisets.
- `reconcile.dfy`, module `Reconcile`: the run itself.
  - The server is an oracle: the finite sequence of its answers, consumed one per call in the order the calls are made. Each answer is a `Fault` or a list of `(name, status)` items.
  - What the script prints, requests and sleeps is a trace of `Event`s.
  - Four specification functions define the run: `Scan` (one poll's items), `Poll` (the `while True` loop), `Endpoint` (one server) and `RunFrom` (the file loop). `Script` adds the action argument.
  - The script's loops are methods, each proved to compute its specification function: `ScanStatuses`, `PollUntilStarted`, `ReconcileEndpoint`, `Run` and `Execute`. They update the pending list and the answers left step by step, as the source does.
- `properties.dfy`, module `Properties`: what the run promises, proved over the specification functions. It works through views of the trace: the lists queried, the control requests, the servers visited and the number of sleeps.
- `scenarios.dfy`, module `Scenarios`:
  - a server that reports a status other than "Started" `n` times, then "Started", converges after n + 1 polls with n sleeps;
  - a Restart of "Tftp" on 10.0.0.1 and 10.0.0.2 that converges after one and after three polls and exits 0;
  - a control call that faults and exits 1 before any poll.

Points where the code's behaviour is easy to misread:

- The action match is not case-insensitive: the code accepts exactly three spellings of each word (`Stop`, `stop`, `STOP`, and so on), so `sTOP` is rejected (`ControlAction.MixedCaseRejected`).
- The script waits for "Started" whatever the action, so a Stop polls until the service is reported "Started" again (`Properties.AwaitingIgnoresAction`).
- The comment at line 188 speaks of 49 characters. The format `{:50.50}` pads or truncates to 50 characters, and the model uses 50.
- A name reported "Started" that is no longer pending makes `list.remove` raise ValueError. The traceback ends the process with status 1. The model records this as the outcome `ValueError`.

## Model

| member | source | states |
|---|---|---|
| ControlAction.ClassifyExactly | cucm_service_do.py:72-79 | a token is mapped to an action exactly when it is one of that action's three spellings: the word, its lower case or its upper case |
| ControlAction.ClassifyRejects | cucm_service_do.py:72-79 | a token is rejected exactly when it is none of the accepted spellings |
| ControlAction.NineAcceptedTokens | cucm_service_do.py:72-77 | exactly nine distinct tokens are accepted |
| ControlAction.SpellingsAre | cucm_service_do.py:72-77 | the spellings of each action are literally `Stop`/`stop`/`STOP`, `Start`/`start`/`START` and `Restart`/`restart`/`RESTART` |
| ControlAction.NameRoundTrip | cucm_service_do.py:72-77 | the canonical name of each action is accepted and maps back to that action |
| ControlAction.AbsentMeansRestart | cucm_service_do.py:67-70 | a missing action argument means Restart |
| ControlAction.MixedCaseRejected | cucm_service_do.py:72-79 | a mixed-case spelling such as `sTOP` is rejected |
| ServerList.Strip | cucm_service_do.py:153 | the stripped line is empty exactly when every character is whitespace, and otherwise begins and ends with a non-whitespace character |
| ServerList.StripShape | cucm_service_do.py:153 | the stripped line is the slice of the line after its leading whitespace |
| ServerList.Endpoints | cucm_service_do.py:150-156 | the addresses visited are the stripped lines in file order, all non-empty, and the first line not visited (if any) strips to empty |
| ServerList.BlankLineTruncates | cucm_service_do.py:152-156 | N usable lines, then a whitespace-only line, then anything: exactly the N stripped lines are visited |
| ServerList.LinesAfterBlankIgnored | cucm_service_do.py:152-156 | appending lines after a blank line changes nothing, and no more servers are visited than there are lines before it |
| Report.Row | cucm_service_do.py:189 | a row is 50 + \|status\| characters: position i < 50 holds the name's i-th character or a space when the name is shorter, and the status follows |
| Report.RowRoundTrip | cucm_service_do.py:189 | a name of at most 50 characters that does not end in a space, and the status, are both recovered from the row |
| Report.RowTruncates | cucm_service_do.py:200 | a name of 50 characters or more keeps exactly its first 50 |
| PendingList.IndexOf | cucm_service_do.py:202 | the index found is that of the first occurrence of the value, or the length when it is absent |
| PendingList.Remove | cucm_service_do.py:202 | removal succeeds exactly when the value is in the list; it then deletes one occurrence (the first), keeping the order of the others |
| PendingList.RemoveAllSucceedsIff | cucm_service_do.py:199-202 | removing names one by one succeeds exactly when they form a sub-multiset of the list, and leaves the multiset difference |
| PendingList.RemoveAllShrinks | cucm_service_do.py:199-202 | a successful removal of names leaves a sub-multiset of the list, no longer than it |
| Reconcile.ScanStatuses | cucm_service_do.py:199-202 | the loop over one poll's items computes `Scan`: every row printed and every "Started" name removed in order, stopping at a failed removal |
| Reconcile.PollUntilStarted | cucm_service_do.py:192-206 | the `while True` loop computes `Poll`: its outcome, its trace and the answers left |
| Reconcile.ReconcileEndpoint | cucm_service_do.py:165-206 | one server's part computes `Endpoint`: the control request for `[SVC_NAME]`, its report, then polling from `[SVC_NAME]` |
| Reconcile.Run | cucm_service_do.py:150-206 | the file loop computes `RunFrom`, breaking at the first blank line and stopping at the first server that does not end with Done |
| Reconcile.Execute | cucm_service_do.py:72-206 | the script computes `Script`: an invalid action does nothing else, and a valid one runs the file loop |
| Properties.ScanRemovesStarted | cucm_service_do.py:199-202 | the pending list after a poll is the old one with the names reported "Started" removed one by one, in order |
| Properties.ScanLeavesNotStarted | cucm_service_do.py:199-202 | a poll fails with ValueError exactly when the "Started" names are not a sub-multiset of the pending list; otherwise what is left is the pending list less those names |
| Properties.OtherStatusesKeepPending | cucm_service_do.py:201 | statuses other than "Started" leave the pending list unchanged |
| Properties.ScanPrintsRows | cucm_service_do.py:199-200 | every item's row is printed in order, and nothing else; on a ValueError the rows stop at the first item that reports "Started" for a name the earlier items have left out of the pending list |
| Properties.PollContinues | cucm_service_do.py:203-204 | a poll that leaves names pending is followed by a sleep and a poll for exactly those names |
| Properties.PollStops | cucm_service_do.py:192-206 | a poll that ends the loop is the loop's only status request and is not followed by a sleep |
| Properties.PollStopsWith | cucm_service_do.py:192-206 | a poll that ends the loop ends it with Done exactly when its answer empties the list |
| Properties.PollAsksForPending | cucm_service_do.py:194-204 | the first poll asks for the starting list; each later poll asks for exactly what the previous answer left pending, which is non-empty |
| Properties.PollOnlyShrinks | cucm_service_do.py:199-202 | within one server the pending list only shrinks from poll to poll, as a multiset and in length |
| Properties.SleepsBetweenPolls | cucm_service_do.py:203-206 | a server polled k times sleeps k - 1 times |
| Properties.PollConsumesAnswers | cucm_service_do.py:192-197 | k polls consume exactly the first k answers; only a loop left without answers asks for one more |
| Properties.PollEndsWhenEmpty | cucm_service_do.py:203-206 | the loop ends with Done exactly when the answer to its last poll empties the pending list |
| Properties.ConvergesInOnePoll | cucm_service_do.py:199-206 | the loop ends with Done after one poll exactly when that poll reports "Started" for exactly the pending names |
| Properties.PollFaultIsLast | cucm_service_do.py:193-197 | a polling loop that faults has faulted on `soapGetServiceStatus` and ends with that fault line as its last event |
| Properties.NeverStartedNeverEnds | cucm_service_do.py:192-206 | a service never reported "Started" is polled with the same list for as long as answers come, and the loop never ends by itself |
| Properties.PollMakesNoControlOrVisit | cucm_service_do.py:192-206 | polling makes no control request and contacts no other server |
| Properties.ControlReportPrintsOnly | cucm_service_do.py:182-189 | the control call's report consists of printed lines only |
| Properties.EndpointPollsFromService | cucm_service_do.py:165-194 | after an answered control call the server makes one control request for `[SVC_NAME]` with the run's action, and its first poll asks for `[SVC_NAME]` |
| Properties.ControlStatusesOnlyPrinted | cucm_service_do.py:186-189 | whatever statuses the control call returns, the outcome, the queries, the sleeps and the answers left are the same |
| Properties.AwaitingIgnoresAction | cucm_service_do.py:201 | Start, Stop and Restart all wait for "Started": the outcome, queries and sleeps do not depend on the action |
| Properties.ControlFaultBeforePolling | cucm_service_do.py:173-177 | a fault on the control call ends the server's part before any poll, with the `soapDoControlServices` fault line last |
| Properties.EndpointShape | cucm_service_do.py:165-206 | every server's part makes exactly one control request, announces no server, and ends with its fault line when it faults |
| Properties.VisitsFollowServerList | cucm_service_do.py:150-174 | the servers visited are a prefix of the server list in file order; all of them when the run ends with Done, at least one otherwise, each with one control request for `[SVC_NAME]` |
| Properties.FailureEndsRun | cucm_service_do.py:173-197 | a fault on either call is the run's last event, so no later server is contacted; the file loop never ends with an invalid action |
| Properties.InvalidTokenDoesNothing | cucm_service_do.py:78-79 | an unaccepted action token does nothing and exits with status 1 |
| Scenarios.PollsUntilStarted | cucm_service_do.py:192-206 | n answers reporting another status, then "Started": Done after n + 1 polls for `[SVC_NAME]` with n sleeps |
| Scenarios.EndpointConverges | cucm_service_do.py:165-206 | an answered control call followed by n waiting polls and one "Started" poll: Done, consuming exactly those answers |
| Scenarios.ConvergedLine | cucm_service_do.py:152-206 | a server line whose server converges after n + 1 polls is followed by the rest of the server list, with one more visit, one control request, n + 1 queries and n sleeps |
| Scenarios.DefaultRuns | cucm_service_do.py:67-70 | without an action argument the run is the Restart run |
| Scenarios.TwoServersRestart | cucm_service_do.py:150-206 | Restart of "Tftp" on 10.0.0.1 and 10.0.0.2 visits both in order with four polls and two sleeps, and exits 0 |
| Scenarios.ControlFaultExitsOne | cucm_service_do.py:173-177 | one server whose control call faults: no poll, and exit status 1 |

## Left out

- The Zeep SOAP client, the WSDL binding, the `requests` session, TLS verification, HTTP basic authentication and the transport timeout (lines 112-142, 159-163): foreign library calls. The server is an oracle of answers instead, and a binding that cannot be created is not modelled.
- Errors other than a SOAP fault on `soapDoControlServices` or `soapGetServiceStatus` are not modelled. This covers a connection error, the 10-second transport timeout (line 133), an HTTP error, and an answer without `ServiceInfoList.item` (lines 186, 199). The script catches only zeep's `Fault` (lines 175, 195), so each of these escapes as a traceback and ends the run with status 1, without a "Zeep error" line. An answer in the model is either a `Fault` or a list of items, so it cannot express this path.
- The logging plugin and the DEBUG/dotenv handling (lines 81-110): logging and environment I/O.
- The colour codes, the `Beginning`/`Finished` banners, the timestamps, the elapsed time and the length of the sleep (lines 36-48, 144-146, 157, 204, 207-208): terminal decoration and wall-clock time. A visit is recorded as the bare address, and a sleep as an event.
- The command-line length check and the reading of the credentials and service name (lines 52-64): process plumbing. The service name is a parameter. The check tests `< 3` but then reads `argv[3]`, so a call with only two user arguments crashes with IndexError instead of printing the usage text. The model does not capture this.
- Opening and reading `./ucmlist.txt` (line 150): the file is given as its sequence of lines. A missing or unreadable file is not modelled.
- The text `sys.exit` writes for an invalid action (line 79) goes to standard error and is not in the trace. Only the exit status 1 is modelled.
- Reconcile.PollUntilStarted: the source polls forever while names stay pending. The model stops when the oracle has no answer left for a call, with the outcome `Unanswered`, which has no exit status. `Properties.NeverStartedNeverEnds` states the unbounded wait for every finite sequence of answers.
- Properties.ScanLeavesNotStarted: the pending list is characterised as a multiset. Since the list holds a single name at the start of every server, order among pending names never matters in the script. `PendingList.Remove` states the order it keeps.
