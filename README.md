# Pandoc Markdown Preview: the preview panel, modelled in Dafny

The extension shows a live HTML preview of a Markdown document by piping the
document through `pandoc`. Each preview is a `PreviewPanel`. The panel keeps
track of a few things:

- whether it is still `active`;
- whether a retry timer is `pending`;
- the running `pandoc` subprocess, if any;
- when the last run completed (`lastRenderedTime`).

From these it decides when to start the next run. It guarantees a few things:

- at most one run is in flight;
- a run starts only once the configured `minimumWaitInterval` has passed since the previous completion;
- bursts of edits are coalesced into a run that reads the document text current when it starts, and no edit is left without a later run (`Scheduler.RunNoLostEdit`);
- nothing is shown any more once the panel has been disposed.

This project models the following:

- the panel's scheduler and lifecycle;
- how a run is set up: its argument list, its working directory and the bytes written to its standard input;
- what the panel shows on completion: the output with its `{{pmp-base-tag}}` placeholder replaced by a `<base>` tag, or an error page around the escaped diagnostic;
- the `escapeHtml` helper.

It is organised in these modules:

- `Wrappers`: `Option`, which stands for `undefined`.
- `Escaping`: `escapeHtml` as five global single-character replacements. It is proved to escape character by character, to round-trip through the reading-back function `Unescape`, and to leave no raw `<`, `>`, `"` or `'`.
- `Output`: the completion page.
  - `String.prototype.replace` with a string pattern is modelled as `ReplaceFirst`, which replaces the first occurrence only.
  - The error page is modelled with the exact template text.
- `Invocation`: the converter's argument list and the reading of the extra input files.
  - An input file that cannot be read stops the reading, as the exception thrown by `readFileSync` does.
- `Scheduler`: the panel's fields as a `PanelState` value.
  - Each callback the host can deliver is a step function: `RenderStep`, `ExitStep`, `DisposeStep`, the change and close subscriptions, and the two kinds of 50 ms timer.
  - `Apply` and `Run` play a sequence of such events.
  - The lemmas state the scheduler's promises for single steps and for arbitrary event sequences.
- `Panel`: the `PreviewPanel` class.
  - Its fields are updated in place by `Render`, `Dispose`, the completion callback and the subscription and timer callbacks.
  - Each method is proved to leave the fields exactly as the matching `Scheduler` step function says.
  - Each method also keeps the invariant `Valid()`: the panel is active exactly until disposal, and disposal releases all three subscriptions.

Inputs that the program reads from its environment are parameters of the model:

- the clock (`Date.now()`);
- the configuration;
- the document's text;
- the file system, as a map from path to contents;
- how a run ended.

These are grouped in a `RenderContext` for each render. The document's URI-derived strings are grouped in a `Session` fixed at construction: whether it is a `file:` document, its webview URI, its directory, the KaTeX and stylesheet URIs.

The constructor's first render goes through the same interval check as every render, with `lastRenderedTime` = 0, so it starts a run only when the clock is at least `minimumWaitInterval` past zero; `Scheduler.InitialRender` states both cases. A throttled render polls: it arms a 50 ms retry timer, and the retry renders again, rather than waiting out the remaining interval. Disposal cancels no timer; a timer that fires on a disposed panel changes nothing but its own flag or timer count.

## Model

| member | source | states |
|---|---|---|
| Escaping.ReplaceAll | src/preview_panel.ts:135-139 | a global replacement by a text that does not hold the character leaves no occurrence of it |
| Escaping.EscapeHtml | src/preview_panel.ts:133-140 | the chain of five global replacements, ampersand first; its properties are stated by `EscapeHtmlChar`, `EscapeHtmlCons`, `UnescapeEscapeHtml`, `EscapeHtmlNoRawSpecials`, `EscapeHtmlIdentity` and `EscapedAmpersandsBeginEntities` |
| Escaping.EscapeHtmlChar | src/preview_panel.ts:133-140 | escaping a single character yields its entity (`&amp;`, `&lt;`, `&gt;`, `&quot;`, `&#039;`) and leaves any other character alone |
| Escaping.EscapeHtmlCons | src/preview_panel.ts:133-140 | the five chained replacements escape character by character: later replacements never rewrite the entities earlier ones produced |
| Escaping.EscapeHtmlEmpty | src/preview_panel.ts:133-140 | the empty text escapes to the empty text |
| Escaping.UnescapeEntity | src/preview_panel.ts:135-139 | each entity reads back as its own character, independently of what follows |
| Escaping.UnescapeEscapeHtml | src/preview_panel.ts:133-140 | reading the escaped text back gives the original text exactly, so nothing is lost or escaped twice |
| Escaping.EscapeHtmlNoRawSpecials | src/preview_panel.ts:133-140 | the escaped text contains no raw `<`, `>`, `"` or `'` |
| Escaping.EscapeHtmlIdentity | src/preview_panel.ts:133-140 | a text without any of the five characters is returned unchanged |
| Escaping.EscapedAmpersandsBeginEntities | src/preview_panel.ts:135 | every `&` in the escaped text begins one of the five entities |
| Output.FindFrom | src/preview_panel.ts:107 | the result is the first index at or after the start where the pattern occurs, or none when it does not occur there |
| Output.IndexOf | src/preview_panel.ts:107 | the first occurrence of the pattern, or none when it does not occur |
| Output.ReplaceFirst | src/preview_panel.ts:107 | `replace` with a string pattern; stated by `ReplaceFirstWithoutMatch` and `ReplaceFirstOnlyFirst` |
| Output.BaseTag | src/preview_panel.ts:107 | the `<base href="...">` tag around the webview URI, which `CompletionHtmlOnSuccess` puts in place of the placeholder |
| Output.ErrorPage | src/preview_panel.ts:101-104 | the fixed wrapper around the escaped diagnostic; stated by `ErrorPageShape` and `ErrorPageInjective` |
| Output.CompletionHtml | src/preview_panel.ts:100-109 | the page the completion callback writes, success or failure; stated by `CompletionHtmlOnSuccess` and `ErrorPageShape` |
| Output.ReplaceFirstWithoutMatch | src/preview_panel.ts:107 | replacing a pattern that does not occur changes nothing |
| Output.ReplaceFirstOnlyFirst | src/preview_panel.ts:107 | only the first occurrence is replaced: the text before it is kept, the replacement sits in its place, and a later occurrence survives, shifted |
| Output.CompletionHtmlOnSuccess | src/preview_panel.ts:105-108 | a successful run shows its output verbatim when there is no base URI or no placeholder; otherwise the output with its first placeholder replaced by the `<base href>` tag |
| Output.ErrorPageShape | src/preview_panel.ts:100-104 | the error page is the fixed wrapper around a body that reads back as the diagnostic, holds no raw `<`, `>`, `"`, `'`, and whose ampersands all begin entities |
| Output.ErrorPageInjective | src/preview_panel.ts:100-104 | different diagnostics give different error pages |
| Invocation.PandocArguments | src/preview_panel.ts:88-95 | the argument list; stated by `PandocArgumentsLayout` and `PandocArgumentsEnds` |
| Invocation.ResolveInputPath | src/preview_panel.ts:112-116 | an absolute input path is read as given, a relative one under the document's directory; `Render` reads each input file at this path |
| Invocation.PandocArgumentsLayout | src/preview_panel.ts:88-95 | the argument list, element by element: the extra arguments as one element if non-empty, then `-s`, `--katex=<uri>/`, `--css=<uri>`, then the placeholder request for a file-backed document |
| Invocation.PandocArgumentsEnds | src/preview_panel.ts:89-95 | the placeholder request ends the list exactly when the document is file-backed; the extra arguments open it exactly when they are non-empty |
| Invocation.ReadInputs | src/preview_panel.ts:111-118 | reading stops exactly when some input file cannot be read, and the path it reports is not in the file system |
| Invocation.ContentsSnoc | src/preview_panel.ts:111-118 | appending a readable input file appends its contents |
| Invocation.ReadInputsAllReadable | src/preview_panel.ts:111-118 | when every input file can be read, the input is their contents in configuration order |
| Invocation.ReadInputsAfterMissing | src/preview_panel.ts:111-118 | once a read has failed, later input files are not read |
| Invocation.ReadInputsStopsAtFirstMissing | src/preview_panel.ts:111-118 | when the file at index i is the first unreadable one, the input is the contents of the files before it, and i's path is reported |
| Scheduler.Launch | src/preview_panel.ts:81-120 | the run a render starts; stated by `LaunchSetup`, `LaunchInputAllReadable` and `LaunchInputMissing` |
| Scheduler.RenderStep | src/preview_panel.ts:68-80 | `render` on the panel's fields; stated by `RenderGuards`, `RenderStartsOnlyWhenIdleAndDue` and `InitialRender` |
| Scheduler.ExitStep | src/preview_panel.ts:96-110 | the completion callback on the panel's fields; stated by `CompletionEffects` and `ThrottleAfterCompletion` |
| Scheduler.DisposeStep | src/preview_panel.ts:123-129 | `dispose` on the panel's fields; stated by `DisposeIdempotent` and `DisposedPanelIsFrozen` |
| Scheduler.ChangeStep | src/preview_panel.ts:51-54 | an edit of this document arms a render timer while the subscription is live; stated by `PendingCoalescesEdits` |
| Scheduler.ChangeTimerStep | src/preview_panel.ts:53 | the edit's timer renders; stated by `StartOnlyWhenDue` and `ThrottleAfterCompletion` |
| Scheduler.RetryTimerStep | src/preview_panel.ts:75-78 | the retry clears `pending` and renders; stated by `RetryRendersLatestText` and `ThrottleAfterCompletion` |
| Scheduler.CloseStep | src/preview_panel.ts:56-59 | closing this document disposes the panel while the subscription is live; stated by `StepKeepsInv` |
| Scheduler.PanelClosedStep | src/preview_panel.ts:61-63 | the user closing the webview disposes the panel while the subscription is live; stated by `StepKeepsInv` |
| Scheduler.StepKeepsInv | src/preview_panel.ts:51-63 | every callback keeps the invariant: active exactly until disposal, and disposal releases the webview and all three subscriptions |
| Scheduler.RunKeepsInv | src/preview_panel.ts:123-129 | every sequence of callbacks keeps that invariant |
| Scheduler.InitialRender | src/preview_panel.ts:47-48 | the constructor's render starts a run when the clock is at least the minimum interval past zero, and otherwise arms the retry; the page is still empty |
| Scheduler.DisposeIdempotent | src/preview_panel.ts:123-129 | disposing twice is disposing once; disposal of an active panel deactivates it, disposes the webview, releases every subscription and leaves every other field, the armed timers included, as it was |
| Scheduler.RenderGuards | src/preview_panel.ts:69-70 | a render of an inactive panel, or while a retry is armed, changes nothing |
| Scheduler.RenderStartsOnlyWhenIdleAndDue | src/preview_panel.ts:68-96 | a render starts a run if and only if the panel is active, no retry is armed, none is running and the interval has passed; otherwise an active, unarmed render only arms the retry; a render never writes the page or the completion time |
| Scheduler.NeverReplacesRunningSubprocess | src/preview_panel.ts:72-97 | no callback replaces a running converter by another: at most one is in flight |
| Scheduler.StartOnlyWhenDue | src/preview_panel.ts:51-80 | a run starts only when a timer fires on an active panel, at least the minimum interval after the last completion, and reads the document as of that moment |
| Scheduler.CompletionEffects | src/preview_panel.ts:96-109 | completion always forgets the run; on an active panel it stamps the time and shows the result, success or failure; on a disposed panel it does nothing else |
| Scheduler.ThrottleAfterCompletion | src/preview_panel.ts:72-99 | after any completion on an active panel, failures included, a render within the interval starts nothing and leaves the retry armed, whether it comes from an edit's timer or from a retry armed while the run was in flight |
| Scheduler.RetryRendersLatestText | src/preview_panel.ts:75-78 | when the retry fires on an idle, due panel, one run starts whose input ends with the document text of that moment, and the input is closed |
| Scheduler.OnlyCompletionWrites | src/preview_panel.ts:97-108 | only an active panel's completion callback changes the page or the completion time |
| Scheduler.LaunchSetup | src/preview_panel.ts:81-96 | a run gets the argument list of `PandocArguments`, ending with the placeholder request exactly when the document is file-backed; a file-backed run gets the document's webview URI as base URI and its directory as working directory, others neither; every run gets a 5000 ms timeout |
| Scheduler.LaunchInputAllReadable | src/preview_panel.ts:111-120 | when every input file can be read, a run's input is their contents in order, then the document text, and is then closed |
| Scheduler.LaunchInputMissing | src/preview_panel.ts:111-118 | when input file i is the first unreadable one, the run has received only the files before it, no document text, and its input stays open |
| Scheduler.DisposedPanelIsFrozen | src/preview_panel.ts:123-128 | after disposal, whatever callbacks follow: the panel stays inactive, its page and completion time stay as they were, and no run is started |
| Scheduler.PendingCoalescesEdits | src/preview_panel.ts:51-54 | while a retry is armed, any burst of edits and their render timers changes nothing but the number of armed timers |
| Scheduler.StepNoLostEdit | src/preview_panel.ts:51-80 | every event keeps this: while the panel is active and an edit has arrived that no run has read, an edit's render timer or the retry is still armed |
| Scheduler.RunNoLostEdit | src/preview_panel.ts:51-80 | along any sequence of events, an unread edit on an active panel keeps a render timer or the retry armed, so no edit is lost |
| Panel.PreviewPanel.constructor | src/preview_panel.ts:26-66 | registers the three subscriptions in order, then renders: the fields are those of a first render of a fresh panel |
| Panel.PreviewPanel.Render | src/preview_panel.ts:68-121 | the guards, the deferral and the run's setup; the fields move exactly as `RenderStep`, and the loop over the input files writes what `ReadInputs` reads |
| Panel.PreviewPanel.SubprocessExited | src/preview_panel.ts:96-110 | the completion callback moves the fields exactly as `ExitStep` |
| Panel.PreviewPanel.Dispose | src/preview_panel.ts:123-129 | deactivates, disposes the webview and disposes every subscription in order, once only, as `DisposeStep` |
| Panel.PreviewPanel.DocumentChanged | src/preview_panel.ts:51-54 | an edit of this document arms a render timer while the subscription is live |
| Panel.PreviewPanel.ChangeTimerFired | src/preview_panel.ts:53 | the edit's timer renders |
| Panel.PreviewPanel.RetryTimerFired | src/preview_panel.ts:75-78 | the retry timer clears the flag and renders |
| Panel.PreviewPanel.DocumentClosed | src/preview_panel.ts:56-59 | closing this document disposes the panel while the subscription is live |
| Panel.PreviewPanel.PanelClosed | src/preview_panel.ts:61-63 | the user closing the webview disposes the panel while the subscription is live |

## Left out

- The VS Code API is not modelled: creating the webview, `localResourceRoots`, `asWebviewUri` and `asAbsolutePath`. The URIs they produce are strings in `Session`.
- The host wiring in `src/extension.ts` is not part of this model. Its preview command disposes the previous panel before it creates a new one, and deactivation disposes the current panel.
- `child_process.exec` is modelled as a `Process` value holding its arguments, options and input. The model does not include the following:
  - the shell's word splitting of the joined command line (`extraPandocArguments` is one element of the list, but the shell splits it);
  - the actual kill on timeout;
  - the text of `String(err)`, which is a parameter of the completion (`ExecResult.Failed`).
- Timers and the clock: a 50 ms timer is an event the host may deliver at any later time, and the clock is a parameter of each callback. The model does not state the actual 50 ms delays.
- A missing input file makes `readFileSync` throw. The exception propagates out of `render`, and out of the constructor on the first render. The model ends the render at that point with the run started and its input open. How the caller handles the exception is not modelled.
- Paths: absolute means starting with `/`, and `path.join` is modelled as concatenation with `/`. Normalisation of `.` and `..` and Windows paths are not modelled.
- `Output.ReplaceFirst`: `$` patterns in the replacement string of `String.prototype.replace` are not interpreted. The model inserts the `<base>` tag literally.
- Panel.PreviewPanel.Dispose: disposing the webview makes the host call the panel's own dispose subscription back. The model leaves this re-entrant call out, because `dispose` returns at once on an inactive panel.
- Strings are sequences of characters. The model does not cover encodings or the byte-level writes to the subprocess's input.
- Config: `minimumWaitInterval` is an integer, while the configuration holds a JavaScript number that may be fractional. With an integer clock, `now < last + m` holds exactly when `now < last + ceil(m)`, so an integer interval loses nothing.
