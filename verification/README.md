# CloudflareCaptchaSolver core, modelled in Dafny

CloudflareCaptchaSolver is a small service that solves Cloudflare challenges.
A caller submits a `SolveCaptcha` command with a token (`Key`). The service
files an execution report for it and queues it. A background loop hands each
command to a browser manager, which drives a page of a pooled browser through
the challenge. The caller then polls the report, which holds the status and
the token. The repository holds two generations of the code: the current one
under `src/CloudflareCaptchaSolver/`, and an older one at the root
(`TaskManager/`, `BrowserManager/`). Both are modelled.

| file | module | models |
|---|---|---|
| `common.dfy` | `Common` | `Option`, `Result`, and `AtLeastOne` (max(n, 1)) |
| `models.dfy` | `Models` | commands, status codes and their lifecycle order, solver outcomes |
| `authentication_manager.dfy` | `Authentication` | token → command-id access multimap (`AuthenticationManager`) |
| `execution_report.dfy`, `legacy_execution_report.dfy` | `Reports`, `LegacyReports` | the mutable execution report records |
| `command_manager.dfy` | `Commands` | current `CommandManager`: report store, bounded FIFO, dispatch with a detached continuation |
| `legacy_command_manager.dfy` | `LegacyCommands` | older `CommandManager`: no access binding, each solve awaited inline |
| `page_pool.dfy` | `PagePool` | the page pool of both browser managers, as functions on the list of tracked pages, with its lemmas |
| `browser_manager.dfy`, `legacy_browser_manager.dfy` | `Browsers`, `LegacyBrowsers` | the two `BrowserManager` classes |

How the program's entities are represented:

- **Mutable objects are Dafny classes.** The command managers and the
  browser managers carry a `Valid()` invariant that every operation except
  shutdown keeps. The reports and the access manager are plain field holders
  with no invariant.
- **Configuration defaults are constants.** `Commands.DefaultConfiguration`
  and `LegacyCommands.DefaultConfiguration` hold the defaults of
  `CommandManagerConfiguration`: a channel capacity of 10 and the `Wait` full
  mode (`src/CloudflareCaptchaSolver/CommandManager/CommandManager.cs:109,114`,
  `TaskManager/CommandManager.cs:74-75`). Both meet the constructors'
  requirement of a capacity of at least 1.
- **Collections are fields.** The report dictionary is a `map` from id to
  report object. The channel is a `seq` of commands, oldest first, bounded by
  the capacity. The access dictionary is a `map` from token to a `seq` of ids.
  The tracked `List<PageContext>` is a `seq` of `PageContext` values.
- **Pool changes have a pure specification.** `PagePool` states each change to
  the tracked list as a function: `Acquire`, `RemovePage`, `SetFlag`,
  `Teardown`. Its lemmas prove that the cap, flag uniformity, page uniqueness
  and disposal discipline are kept. The class methods are proved equal to
  these functions.
- **Library effects become events.** Browser launch, page creation, page close
  and browser disposal are `Event`s appended to a ghost `trace`. Browsers and
  pages are `nat` ids. Launched, opened and disposed ids are kept in ghost
  sets. The set of closed pages is a real field, because the code branches on
  `IsClosed`.
- **Outside inputs become parameters.** The solver's answer, the random proxy
  index and fresh ids are method parameters. Fresh ids carry freshness
  preconditions. In the current manager a `startFaults` flag says whether
  starting a solve throws before a task exists; this over-approximates the
  code (see `Commands.StartedStatus` under "Left out").
- **Loops that never end become one step each.** Each dispatch loop is
  `while (true)`, so it is modelled by one method per iteration. In `Commands`
  these are `StartNext`, which dequeues and starts a command, and
  `CompleteSolve`, the continuation. In `LegacyCommands` they are `StartSolve`,
  which dequeues and marks a solve `Processing`, and `Settle`, which ends the
  awaited solve. A ghost `inFlight` field names the solve being awaited; no
  command is read while it is set.

Behaviours of the code the model keeps:

- **A throwing solve in the current manager.** When the solve throws, the
  exception is raised inside the detached `ContinueWith` continuation
  (`src/CloudflareCaptchaSolver/CommandManager/CommandManager.cs:84-89`).
  Nothing catches it there. The report therefore stays `Processing`; it is not
  marked `Error`. Only a fault thrown synchronously while starting the solve
  would reach the `catch` that sets `Error`.
- **An empty token.** The current manager records an empty string as `Failed`
  (`IsNullOrEmpty`). The older manager records it as `Success`, since it only
  tests for null. `LegacyCommands.VariantsDisagree` states both.
- **A browser whose last page is released unflagged.** Such a browser is not
  disposed. It drops out of the tracked list, so it can never be selected
  again, and it is not disposed at shutdown either
  (`PagePool.UnflaggedLastPageLeaks`).
- **A cap of 0.** `PagePerBrowserInstance` defaults to 0. With a cap of 0, no
  browser is ever reused: every acquire launches a browser and flags its page.
  Each browser then holds max(cap, 1) = 1 page.

## Model

| member | source | states |
|---|---|---|
| Models.CommandExecutionStatus.Code | src/CloudflareCaptchaSolver/Enums/CommandExecutionStatus.cs:11-31 | Every status has a code in 1..5. Code 1 is exactly `Queued` and code 5 exactly `Error`. |
| Models.StatusOfCode | src/CloudflareCaptchaSolver/Enums/CommandExecutionStatus.cs:11-31 | A code denotes a status exactly when it is in 1..5, and that status has that code. This is a decoder of the model's own, kept for `CodeRoundTrip`. The program has no decoder: casting an out-of-range integer to the enum gives an unnamed value, not null. |
| Models.CodeRoundTrip | src/CloudflareCaptchaSolver/Enums/CommandExecutionStatus.cs:11-31 | Decoding a status's code gives the status back. |
| Models.CommandExecutionStatus.Stage | src/CloudflareCaptchaSolver/CommandManager/CommandManager.cs:83-94 | Position in Queued → Processing → terminal. The last stage is reached exactly by `Success`, `Failed` and `Error`. |
| Models.MayFollowTransitive | src/CloudflareCaptchaSolver/CommandManager/CommandManager.cs:83-94 | Two lifecycle steps in a row make a lifecycle step. |
| Models.TerminalIsFinal | src/CloudflareCaptchaSolver/CommandManager/CommandManager.cs:83-94 | A terminal status can be followed only by itself. |
| Authentication.Bound | src/CloudflareCaptchaSolver/AuthenticationManager/AuthenticationManager.cs:49-57 | `Bind(t, id)` creates t's list if it is missing and appends id. The lists of other tokens are unchanged. |
| Authentication.NeverBoundDenied | src/CloudflareCaptchaSolver/AuthenticationManager/AuthenticationManager.cs:34-42 | A token that was never bound has access to nothing. |
| Authentication.BindGrants | src/CloudflareCaptchaSolver/AuthenticationManager/AuthenticationManager.cs:49-56 | After `Bind(t, id)`, `HasAccess(t, id)` holds. |
| Authentication.BindMonotone | src/CloudflareCaptchaSolver/AuthenticationManager/AuthenticationManager.cs:51-56 | Bind never removes access: every granted pair stays granted. |
| Authentication.BindIsolated | src/CloudflareCaptchaSolver/AuthenticationManager/AuthenticationManager.cs:51-56 | `Bind(t, …)` leaves `HasAccess` of every other token unchanged. |
| Authentication.BindTwiceSameAnswers | src/CloudflareCaptchaSolver/AuthenticationManager/AuthenticationManager.cs:34-57 | Binding the same pair again changes no `HasAccess` answer, even though the list keeps the duplicate. |
| Authentication.ReplayGrantsExactly | src/CloudflareCaptchaSolver/AuthenticationManager/AuthenticationManager.cs:34-57 | After any history of binds from empty, `HasAccess(t, x)` holds iff (t, x) was bound at some point. |
| Authentication.AuthenticationManager.constructor | src/CloudflareCaptchaSolver/AuthenticationManager/AuthenticationManager.cs:15-19 | The access map starts empty. |
| Authentication.AuthenticationManager.Authenticate | src/CloudflareCaptchaSolver/AuthenticationManager/AuthenticationManager.cs:26 | Every token is accepted. |
| Authentication.AuthenticationManager.HasAccess | src/CloudflareCaptchaSolver/AuthenticationManager/AuthenticationManager.cs:34-42 | False for an unknown token. For a known token, true iff the id occurs somewhere in its list. |
| Authentication.AuthenticationManager.Bind | src/CloudflareCaptchaSolver/AuthenticationManager/AuthenticationManager.cs:49-57 | The new access map is `Bound` of the old one, and `HasAccess(token, id)` holds afterwards. |
| Reports.CommandExecutionReport.constructor | src/CloudflareCaptchaSolver/CommandManager/CommandExecutionReport.cs:12-31 | A new report holds exactly the given command, which is a constant. Its status is `Queued` and its result is absent. |
| LegacyReports.CommandExecutionReport.constructor | TaskManager/CommandExecutionReport.cs:5-14 | A new report holds the given command (constant), is `Queued` with no result, and is not successful. `Succeeded` is status = `Success`. |
| Commands.StartedStatus | src/CloudflareCaptchaSolver/CommandManager/CommandManager.cs:79-95 | A dequeued SolveCaptcha becomes `Processing`, or `Error` when starting its solve throws. Any other command keeps its status. From `Queued`, each case is a lifecycle step. |
| Commands.CompletedStatus | src/CloudflareCaptchaSolver/CommandManager/CommandManager.cs:86-88 | The continuation's status is terminal and follows `Processing`. It is `Success` iff the result is non-null and non-empty, otherwise `Failed`. |
| Commands.CommandManager.constructor | src/CloudflareCaptchaSolver/CommandManager/CommandManager.cs:19-33 | The report map and the queue start empty, with the given configuration and access manager. A capacity of at least 1 is required. |
| Commands.CommandManager.Enqueue | src/CloudflareCaptchaSolver/CommandManager/CommandManager.cs:41-54 | A null command throws `ArgumentNull`. A known id throws `InvalidOperation`, and then reports, bindings and queue are unchanged. A fresh id gets a new `Queued` report, the key is bound to the id, the command is appended to the queue and the id is returned. Existing reports are untouched. The invariant is kept. |
| Commands.CommandManager.Register | src/CloudflareCaptchaSolver/CommandManager/CommandManager.cs:45-50 | The success path of Enqueue: report filed, key bound, command queued, and the invariant kept (including that every report's key still has access). |
| Commands.CommandManager.FileAndWrite | src/CloudflareCaptchaSolver/CommandManager/CommandManager.cs:45-48 | Files the new `Queued` report and appends the command to the bounded queue. |
| Commands.CommandManager.GetCommandExecutionReport | src/CloudflareCaptchaSolver/CommandManager/CommandManager.cs:61-65 | Returns the report registered for the id, or null when there is none. |
| Commands.CommandManager.StartNext | src/CloudflareCaptchaSolver/CommandManager/CommandManager.cs:76-95 | Dequeues the oldest command (FIFO). Its status becomes `StartedStatus`, and a started solve becomes pending. No result changes, every status change is a lifecycle step, and other reports are unchanged. |
| Commands.CommandManager.CompleteSolve | src/CloudflareCaptchaSolver/CommandManager/CommandManager.cs:84-89 | For a returned value, the status becomes `CompletedStatus` of it and the result becomes the value. A solve that throws leaves the report `Processing` with no result. Other reports are unchanged. |
| LegacyCommands.ProcessedStatus | TaskManager/CommandManager.cs:57-66 | The settled status is terminal and follows `Processing`. It is `Success` iff the solver returned non-null (empty included), `Failed` iff it returned null, and `Error` iff it threw. |
| LegacyCommands.VariantsDisagree | TaskManager/CommandManager.cs:59 | For every token, the older manager says `Success`, while the current one says `Success` iff the token is non-empty. For a null result both say `Failed`. |
| LegacyCommands.CommandManager.constructor | TaskManager/CommandManager.cs:7-20 | The report map and the queue start empty. A capacity of at least 1 is required. |
| LegacyCommands.CommandManager.Enqueue | TaskManager/CommandManager.cs:22-34 | Same error paths as the current Enqueue, with no change on error. A fresh id gets a new `Queued` report, is appended to the queue and is returned. No binding is made. |
| LegacyCommands.CommandManager.GetCommandExecutionReport | TaskManager/CommandManager.cs:36-40 | Returns the registered report, or null. |
| LegacyCommands.CommandManager.StartSolve | TaskManager/CommandManager.cs:50-57 | Only when no solve is in flight: dequeues the oldest command. A SolveCaptcha becomes `Processing` and is the solve in flight. Any other command is dropped and stays `Queued`. No result changes, and other reports are unchanged. The invariant (a report is `Processing` iff its solve is in flight) is kept. |
| LegacyCommands.CommandManager.Settle | TaskManager/CommandManager.cs:58-66 | Ends the solve in flight. Its status becomes `ProcessedStatus` of the outcome. Its result is the returned value, or stays absent on a throw. `Succeeded` holds iff a non-null value came back. No solve is in flight afterwards, and other reports and the queue are unchanged. |
| PagePool.PageCount | src/CloudflareCaptchaSolver/BrowserManager/BrowserManager.cs:98 | The number of tracked pages of a browser is 0 exactly when no tracked page belongs to it. |
| PagePool.FirstEligible | src/CloudflareCaptchaSolver/BrowserManager/BrowserManager.cs:78-81 | Gives the first index, in list order, of an unflagged page whose browser is below the cap, or none if no page qualifies. |
| PagePool.SelectBrowser | src/CloudflareCaptchaSolver/BrowserManager/BrowserManager.cs:78-83 | No browser is selected exactly when no tracked page qualifies. A selected browser is tracked and below the cap. |
| PagePool.SetFlag | src/CloudflareCaptchaSolver/BrowserManager/BrowserManager.cs:122-125 | Every page of the browser gets the flag. Every other element is unchanged, and no element changes browser or page. |
| PagePool.Acquire | src/CloudflareCaptchaSolver/BrowserManager/BrowserManager.cs:78-125 | The new context holds the new page and is appended as the last element. Its browser is the freshly launched one or an already tracked one. |
| PagePool.AcquiredPageIsLast | src/CloudflareCaptchaSolver/BrowserManager/BrowserManager.cs:120 | A fresh page is found, after Acquire, at the position just past the old list. |
| PagePool.AcquireShape | src/CloudflareCaptchaSolver/BrowserManager/BrowserManager.cs:78-125 | Acquire reuses the browser of the first qualifying page, or takes the freshly launched browser, which has no pages. The new page is appended, and only that browser's count grows, by one. The new page is flagged iff the count reaches the cap, and the flag is copied to all pages of that browser. Nothing else changes. |
| PagePool.AcquireWithinCap | src/CloudflareCaptchaSolver/BrowserManager/BrowserManager.cs:78-120 | Afterwards the chosen browser holds at most max(cap, 1) tracked pages, whatever the list was. |
| PagePool.AcquireTracks | src/CloudflareCaptchaSolver/BrowserManager/BrowserManager.cs:113-120 | Acquire adds exactly the new page and its browser to what is tracked. |
| PagePool.SpreadFlag | src/CloudflareCaptchaSolver/BrowserManager/BrowserManager.cs:122-125 | The loop gives `SetFlag`: every page of the browser gets the flag, and each element keeps its browser and page. |
| PagePool.AcquirePreservesInv | src/CloudflareCaptchaSolver/BrowserManager/BrowserManager.cs:78-125 | Acquire keeps the pool invariant: pages are distinct, the flag is uniform per browser, no browser holds more than max(cap, 1) pages, and an unflagged browser is below the cap. |
| PagePool.AcquireKeepsDistinctPages | src/CloudflareCaptchaSolver/BrowserManager/BrowserManager.cs:113-120 | With a fresh page id, tracked pages stay distinct. |
| PagePool.AcquireKeepsUniformFlags | src/CloudflareCaptchaSolver/BrowserManager/BrowserManager.cs:117-125 | All pages of one browser share one flag after the propagation. |
| PagePool.AcquireKeepsCap | src/CloudflareCaptchaSolver/BrowserManager/BrowserManager.cs:78-120 | The cap bound holds, and an unflagged browser stays below the cap. |
| PagePool.UnflaggedIsEligible | src/CloudflareCaptchaSolver/BrowserManager/BrowserManager.cs:79 | Under the invariant, a page qualifies for reuse exactly when it is unflagged. |
| PagePool.FlaggedNeverSelected | src/CloudflareCaptchaSolver/BrowserManager/BrowserManager.cs:79 | A browser whose pages are flagged is never selected again. |
| PagePool.IndexOfPage | src/CloudflareCaptchaSolver/BrowserManager/BrowserManager.cs:140 | Gives the first position holding the page, which `List.Remove` removes. |
| PagePool.RemovePage | src/CloudflareCaptchaSolver/BrowserManager/BrowserManager.cs:140 | The list loses exactly one element. |
| PagePool.RemovePageTakesOne | src/CloudflareCaptchaSolver/BrowserManager/BrowserManager.cs:140 | As multisets, the new list plus the removed page's context is the old list. |
| PagePool.ReleaseDisposes | src/CloudflareCaptchaSolver/BrowserManager/BrowserManager.cs:135 | A release disposes only when the page is flagged and is its browser's only tracked page. |
| PagePool.RemovePageShape | src/CloudflareCaptchaSolver/BrowserManager/BrowserManager.cs:140 | Removing drops only that element and keeps the order. Only its browser's count falls, by one. |
| PagePool.ReleasePreservesInv | src/CloudflareCaptchaSolver/BrowserManager/BrowserManager.cs:132-140 | Releasing a tracked page keeps the pool invariant. |
| PagePool.ReleaseUntracksPage | src/CloudflareCaptchaSolver/BrowserManager/BrowserManager.cs:140 | Exactly the released page stops being tracked, and no browser is added. |
| PagePool.ReleaseDisposesOnlyDrained | src/CloudflareCaptchaSolver/BrowserManager/BrowserManager.cs:135-140 | When a release disposes a browser, that browser has no tracked page left. |
| PagePool.UnflaggedLastPageLeaks | src/CloudflareCaptchaSolver/BrowserManager/BrowserManager.cs:135-140 | Releasing the last page of an unflagged browser does not dispose it, and the browser is no longer tracked, so it cannot be reused. |
| PagePool.AcquireKeepsTracked | src/CloudflareCaptchaSolver/BrowserManager/BrowserManager.cs:78-125 | Acquire keeps the pool invariant. Every tracked browser and page was launched or opened, and no tracked browser is disposed. The launched set grows by the fresh browser only when no tracked browser was selected. |
| PagePool.ReleaseKeepsTracked | src/CloudflareCaptchaSolver/BrowserManager/BrowserManager.cs:132-140 | Release keeps the same invariant. A browser it disposes had not been disposed before, so each browser is disposed at most once. |
| PagePool.DistinctBrowsers | src/CloudflareCaptchaSolver/BrowserManager/BrowserManager.cs:19 | The `GroupBy` keys: each tracked browser once, and nothing else. |
| PagePool.FirstOfBrowser | src/CloudflareCaptchaSolver/BrowserManager/BrowserManager.cs:19 | The position of a browser's first tracked page, which fixes its group's place in the `GroupBy` order. |
| PagePool.DistinctBrowsersInFirstOrder | src/CloudflareCaptchaSolver/BrowserManager/BrowserManager.cs:19 | The groups come in the order of their browsers' first tracked pages. |
| PagePool.GroupCloses | src/CloudflareCaptchaSolver/BrowserManager/BrowserManager.cs:21-24 | The inner loop of one group emits only close events, each for a page not already closed. |
| PagePool.Teardown | src/CloudflareCaptchaSolver/BrowserManager/BrowserManager.cs:19-27 | The outer loop emits nothing when there are no groups; otherwise its last effect is disposing the last group's browser. |
| PagePool.ReleaseEvents | src/CloudflareCaptchaSolver/BrowserManager/BrowserManager.cs:132-140 | Releasing a page emits at most two effects: a close of that page iff it was open, and a dispose of its browser iff the page is flagged and the last one tracked for that browser. |
| PagePool.GroupClosesCount | src/CloudflareCaptchaSolver/BrowserManager/BrowserManager.cs:21-24 | A group makes at most one close per tracked page of its browser, and exactly one per page when none of them was closed. |
| PagePool.TeardownDisposesInOrder | src/CloudflareCaptchaSolver/BrowserManager/BrowserManager.cs:17-27 | Shutdown disposes exactly the browsers of the groups, once each, in group order. |
| PagePool.DisposedAfterGroup | src/CloudflareCaptchaSolver/BrowserManager/BrowserManager.cs:21-26 | In one group step of shutdown, a disposal not among the earlier events is the group's own disposal, the last event. |
| PagePool.TeardownClosesBeforeDispose | src/CloudflareCaptchaSolver/BrowserManager/BrowserManager.cs:17-27 | In the shutdown sequence, every open tracked page of a browser is closed before that browser is disposed. |
| PagePool.GroupClosesCovers | src/CloudflareCaptchaSolver/BrowserManager/BrowserManager.cs:21-24 | Every open page of a group gets a close event. |
| PagePool.GroupClosesOnlyClose | src/CloudflareCaptchaSolver/BrowserManager/BrowserManager.cs:21-24 | A group's page loop only closes pages and disposes nothing. |
| Browsers.LaunchOptionsFor | src/CloudflareCaptchaSolver/BrowserManager/BrowserManager.cs:85-93 | The launch is headed. It carries the overriding proxy server exactly when a proxy list is configured, and no proxy otherwise. |
| Browsers.PageProxy | src/CloudflareCaptchaSolver/BrowserManager/BrowserManager.cs:102-111 | With no proxy list the page has no proxy. Otherwise its proxy is one of the configured entries. |
| Browsers.BrowserManager.constructor | src/CloudflareCaptchaSolver/BrowserManager/BrowserManager.cs:9-15 | Nothing is tracked, launched, opened or disposed yet. |
| Browsers.BrowserManager.Launch | src/CloudflareCaptchaSolver/BrowserManager/BrowserManager.cs:95 | Records one Chromium launch with `LaunchOptionsFor`, and the browser joins the launched set. Nothing else changes. |
| Browsers.BrowserManager.OpenPage | src/CloudflareCaptchaSolver/BrowserManager/BrowserManager.cs:116 | Records one page opened on the browser with the given proxy, and the page joins the opened set. Nothing else changes. |
| Browsers.AcquireEvents | src/CloudflareCaptchaSolver/BrowserManager/BrowserManager.cs:78-120 | When no tracked browser is selected, a Chromium browser is launched with `LaunchOptionsFor` and the page opened on it; otherwise only a page is opened, on the selected browser. The page gets `PageProxy`. |
| Browsers.BrowserManager.GetNextPageContext | src/CloudflareCaptchaSolver/BrowserManager/BrowserManager.cs:76-130 | The new list and context are exactly `Acquire` of the old list. A Chromium browser with `LaunchOptionsFor` is launched only when none was selected. The page is opened with `PageProxy`. The invariant is kept. |
| Browsers.BrowserManager.ClosePage | src/CloudflareCaptchaSolver/BrowserManager/BrowserManager.cs:134 | Closes the page unless it is already closed: a close event only for an open page. Afterwards the page is closed. Nothing else changes. |
| Browsers.BrowserManager.DisposePageContext | src/CloudflareCaptchaSolver/BrowserManager/BrowserManager.cs:132-143 | Closes the page unless it is already closed. Disposes its browser iff the page is flagged and is its browser's last tracked page; that browser was never disposed before. Then removes the page. The invariant is kept. |
| Browsers.BrowserManager.Solve | src/CloudflareCaptchaSolver/BrowserManager/BrowserManager.cs:34-51 | A non-SolveCaptcha command throws `InvalidCast` and changes no field. Otherwise, on both the normal and the faulting path: the page is acquired, opened, closed and untracked, and the list is `RemovePage` of `Acquire`. A browser is launched only when none was selected. The browser is disposed iff `ReleaseDisposes` holds, and it was never disposed before. The effects are exactly the acquire events, then the close, then that disposal. A token is returned; a fault is rethrown wrapped. |
| Browsers.BrowserManager.DisposeAsync | src/CloudflareCaptchaSolver/BrowserManager/BrowserManager.cs:17-32 | The effects are exactly `Teardown` over the `GroupBy` order. Afterwards every tracked page is closed and every tracked browser disposed. |
| Browsers.BrowserManager.DisposeNextGroup | src/CloudflareCaptchaSolver/BrowserManager/BrowserManager.cs:19-27 | One iteration of the outer loop: the effects grow by the next group's part of `Teardown`. That group's pages join the closed set and its browser joins the disposed set. |
| Browsers.BrowserManager.DisposeGroup | src/CloudflareCaptchaSolver/BrowserManager/BrowserManager.cs:19-27 | One group: its open pages are closed in list order, then its browser is disposed. |
| Browsers.BrowserManager.CloseGroupPages | src/CloudflareCaptchaSolver/BrowserManager/BrowserManager.cs:21-24 | The inner loop closes exactly the group's pages that are still open, in list order. |
| LegacyBrowsers.BrowserManager.constructor | BrowserManager/BrowserManager.cs:7-13 | Nothing is tracked, launched, opened or disposed yet. |
| LegacyBrowsers.BrowserManager.Launch | BrowserManager/BrowserManager.cs:57 | Records one Firefox launch with default options, and the browser joins the launched set. Nothing else changes. |
| LegacyBrowsers.BrowserManager.OpenPage | BrowserManager/BrowserManager.cs:71 | Records one page opened with the given proxy, and the page joins the opened set. Nothing else changes. |
| LegacyBrowsers.AcquireEvents | BrowserManager/BrowserManager.cs:54-71 | When no tracked browser is selected, a Firefox browser is launched with default options and the page opened on it; otherwise only a page is opened, on the selected browser. The page always gets the fixed proxy. |
| LegacyBrowsers.BrowserManager.GetNextPageContext | BrowserManager/BrowserManager.cs:52-83 | The result is exactly `Acquire` of the old list. A Firefox browser with default options is launched only when none was selected. Every page is opened with the fixed proxy. The invariant is kept. |
| LegacyBrowsers.BrowserManager.ClosePage | BrowserManager/BrowserManager.cs:87 | Closes the page unless it is already closed. Nothing else changes. |
| LegacyBrowsers.BrowserManager.DisposePageContext | BrowserManager/BrowserManager.cs:85-94 | Same release rule: close if open, dispose iff flagged and last, remove the page. |
| LegacyBrowsers.BrowserManager.Solve | BrowserManager/BrowserManager.cs:32-42 | A non-SolveCaptcha command throws `InvalidCast` and changes no field. On a token the page is acquired and released exactly as in the current manager (close, dispose iff `ReleaseDisposes`, once), and the token is returned. On a fault the fault propagates unwrapped. The list is then `Acquire` of the old one, the page stays open and tracked, nothing is closed or disposed, and the effects are the acquire events only. |
| LegacyBrowsers.BrowserManager.DisposeAsync | BrowserManager/BrowserManager.cs:15-30 | The effects are exactly `Teardown` over the `GroupBy` order. Every tracked page ends closed and every tracked browser disposed. |
| LegacyBrowsers.BrowserManager.DisposeNextGroup | BrowserManager/BrowserManager.cs:17-25 | One iteration of the outer loop: the effects grow by the next group's part of `Teardown`, and that group's pages and browser join the closed and disposed sets. |
| LegacyBrowsers.BrowserManager.DisposeGroup | BrowserManager/BrowserManager.cs:17-25 | One group: its open pages are closed, then its browser is disposed. |
| LegacyBrowsers.BrowserManager.CloseGroupPages | BrowserManager/BrowserManager.cs:19-22 | Closes exactly the group's pages that are still open, in list order. |

## Left out

- **Concurrency.** `Task.Run(ProcessQueue)`, the detached continuation and
  the unsynchronised shared page list are not modelled as concurrent. Each
  acquire, release and status update is one atomic step, and interleavings
  are not verified. The page cap, the flag uniformity and the at-most-once
  disposal proved in `PagePool` hold only under this assumption. The real
  `GetNextPageContext` awaits `LaunchAsync` and `NewPageAsync`
  (`src/CloudflareCaptchaSolver/BrowserManager/BrowserManager.cs:95,116`)
  between the selection at lines 78-81 and the `Add` at line 120, and the
  list is unsynchronised. Two concurrent dispatches can therefore exceed the
  cap.
- **The dispatch loops.** Both are `while (true)` loops. They are modelled by
  their per-iteration steps (`StartNext` and `CompleteSolve`; `StartSolve` and `Settle`)
  rather than by a loop method. A blocking read on an empty channel is the
  precondition that the queue is non-empty.
- **Channel internals.** The channel is a bounded FIFO `seq`. In `Wait` mode a
  write into a full channel would wait, so that case is a precondition.
  `DropNewest`, `DropOldest` and `DropWrite` are carried in the configuration
  but their library behaviour is not modelled.
- **Channel capacity below 1.** `BoundedChannelOptions` throws
  `ArgumentOutOfRangeException` for such a capacity
  (`src/CloudflareCaptchaSolver/CommandManager/CommandManager.cs:27`,
  `TaskManager/CommandManager.cs:14`). Both constructors require a capacity of
  at least 1 instead of modelling that exception.
- **Order within Enqueue.** The report is filed before the key is bound. Both
  happen in the same atomic step, so the model does them in the other order.
- **Page driving.** The inner `Solve` (navigation, frame lookup, checkbox
  wait, hover, click, delay) is replaced by the `PageOutcome` parameter: a
  token or a fault.
- **Library calls.** The Playwright instance itself and `_playwright.Dispose()`
  are left out. So are `GC.SuppressFinalize`, all logging, the HTTP endpoints,
  the DI installers and `Program.cs`.
- **Faults of the browser library.** Launching a browser, opening a page,
  closing a page and disposing a browser are treated as infallible. In the
  program, a fault of `LaunchAsync` or `NewPageAsync`
  (`src/CloudflareCaptchaSolver/BrowserManager/BrowserManager.cs:95,116`,
  `BrowserManager/BrowserManager.cs:57,71`) propagates out of `Solve`. A fault
  of `NewPageAsync` after a launch leaks that browser untracked. A fault of
  `CloseAsync` in `DisposePageContext`
  (`src/CloudflareCaptchaSolver/BrowserManager/BrowserManager.cs:134`,
  `BrowserManager/BrowserManager.cs:87`) skips the disposal and the removal.
  In the current `Solve` it is raised from the `finally` and replaces the
  wrapped exception. None of these paths is modelled.
- **Pages closed from outside.** The model never closes a page on its own. Its
  closed set changes only through release and shutdown, but the release
  branch that skips an already closed page is kept.
- **Randomness and fresh ids.** `Random.Next` becomes the `proxyIndex`
  parameter, bounded by the proxy count. `Guid.NewGuid`, new browser ids and
  new page ids are inputs.
- **Null checks on construction.** Null configuration, logger and dependency
  arguments to the constructors are not modelled: those parameters are
  non-null in Dafny. Only the null command of `Enqueue` is kept, as an
  `Option`.
- **Object identity of page contexts.** The context objects are shared
  between the list and the caller, and their flags are rewritten in place.
  The model names a tracked context by its page id and reads its current flag
  from the list, which gives the same answer.
- **Integer widths.** `PagePerBrowserInstance` is a `uint` and
  `ChannelCapacity` an `int`. Both are unbounded integers here, because page
  counts never come near the limits.
- **Result type.** `Result` is `object?` in the program. It holds only a
  string or null here (`Option<string>`).
- **After shutdown.** The tracked list is not cleared, so a manager that has
  been disposed no longer satisfies its invariant. `DisposeAsync` does not
  promise `Valid()` afterwards.
- Commands.StartedStatus: the `startFaults` case over-approximates the code.
  `Solve` is asynchronous, so an `InvalidCast` or a library fault is stored
  in the returned task rather than thrown. The `catch` at
  `src/CloudflareCaptchaSolver/CommandManager/CommandManager.cs:91-95` then
  practically never runs. Such a fault instead leaves the report
  `Processing`, which `CompleteSolve` with a faulted outcome models.
