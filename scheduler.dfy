/**
 * The render scheduler of one preview panel as a state machine over the
 * panel's fields. Each event the host can deliver (an edit of the document,
 * one of the two 50 ms timers firing, the converter exiting, a close or an
 * explicit disposal) is a function from the old state to the new one; the
 * class in module Panel is proved to follow these functions, and the lemmas
 * below state what the scheduler promises about them.
 */
module Scheduler {
  import opened Wrappers
  import opened Output
  import opened Invocation

  /** What a panel knows of its document and resources from construction on. */
  datatype Session = Session(
    fileBacked: bool,             // the document's URI scheme is `file`
    documentWebviewUri: string,   // the document's URI as the webview sees it
    documentDir: string,          // `path.dirname` of the document's file-system path; also
                                  // the base of relative input files when not file-backed
    katexUri: string,
    cssUri: string)

  /** The configuration, read again at every render. */
  datatype Config = Config(
    minimumWaitInterval: int,
    extraPandocArguments: string,
    extraPandocInputFiles: seq<string>)

  /** What a render reads from its surroundings when it runs. */
  datatype RenderContext = RenderContext(
    now: int,                     // the clock, in milliseconds
    config: Config,
    documentText: string,         // the document's text at this moment
    files: map<string, string>)   // the file system: path to contents

  /** A converter run in flight, with what has been written to its input. */
  datatype Process = Process(
    args: seq<string>,
    cwd: Option<string>,
    timeoutMs: int,
    baseTagUri: Option<string>,   // the base URI the completion will substitute
    stdin: string,
    stdinClosed: bool)

  /** The three subscriptions a panel registers, in registration order. */
  datatype Listener = DocumentChangeListener | DocumentCloseListener | PanelDisposeListener

  const Subscriptions: seq<Listener> :=
    [DocumentChangeListener, DocumentCloseListener, PanelDisposeListener]

  /** The fields of a panel that the scheduler reads and writes. */
  datatype PanelState = PanelState(
    active: bool,
    pending: bool,                // a 50 ms retry timer is armed
    subprocess: Option<Process>,
    lastRenderedTime: int,
    html: string,                 // what the webview shows
    panelDisposed: bool,
    released: seq<Listener>,      // subscriptions already disposed
    changeTimers: nat)            // 50 ms render timers armed by edits

  /** The state of a freshly constructed panel before its first render. */
  const Fresh: PanelState := PanelState(true, false, None, 0, "", false, [], 0)

  /** Disposal releases the webview and every subscription at once. */
  predicate Inv(s: PanelState) {
    (s.active <==> !s.panelDisposed) &&
    (s.active ==> s.released == []) &&
    (!s.active ==> s.released == Subscriptions)
  }

  /**
   * The converter run a render starts: its arguments, its working directory,
   * the base URI for the placeholder, and its input, which is the extra
   * input files in order and then the document text; when an input file
   * cannot be read, the render stops there and the input stays open.
   */
  function Launch(sess: Session, ctx: RenderContext): Process {
    var read := ReadInputs(ctx.config.extraPandocInputFiles, sess.documentDir, ctx.files);
    Process(
      PandocArguments(ctx.config.extraPandocArguments, sess.katexUri, sess.cssUri, sess.fileBacked),
      if sess.fileBacked then Some(sess.documentDir) else None,
      ExecTimeoutMs,
      if sess.fileBacked then Some(sess.documentWebviewUri) else None,
      if read.missing.None? then read.data + ctx.documentText else read.data,
      read.missing.None?)
  }

  /** `render()`. */
  function RenderStep(sess: Session, s: PanelState, ctx: RenderContext): PanelState {
    if !s.active || s.pending then s
    else if ctx.now < s.lastRenderedTime + ctx.config.minimumWaitInterval || s.subprocess.Some? then
      s.(pending := true)
    else
      s.(subprocess := Some(Launch(sess, ctx)))
  }

  /** The converter's completion callback. */
  function ExitStep(s: PanelState, now: int, result: ExecResult): PanelState
    requires s.subprocess.Some?
  {
    if !s.active then s.(subprocess := None)
    else s.(subprocess := None, lastRenderedTime := now,
            html := CompletionHtml(result, s.subprocess.value.baseTagUri))
  }

  /** `dispose()`. */
  function DisposeStep(s: PanelState): PanelState {
    if !s.active then s
    else s.(active := false, panelDisposed := true, released := s.released + Subscriptions)
  }

  /** The document-change subscription: arms a 50 ms render timer. */
  function ChangeStep(s: PanelState, forThisDocument: bool): PanelState {
    if forThisDocument && DocumentChangeListener !in s.released then
      s.(changeTimers := s.changeTimers + 1)
    else s
  }

  /** A render timer armed by an edit fires. */
  function ChangeTimerStep(sess: Session, s: PanelState, ctx: RenderContext): PanelState
    requires s.changeTimers > 0
  {
    RenderStep(sess, s.(changeTimers := s.changeTimers - 1), ctx)
  }

  /** The retry timer armed by a deferred render fires. */
  function RetryTimerStep(sess: Session, s: PanelState, ctx: RenderContext): PanelState
    requires s.pending
  {
    RenderStep(sess, s.(pending := false), ctx)
  }

  /** The document-close subscription. */
  function CloseStep(s: PanelState, forThisDocument: bool, isClosed: bool): PanelState {
    if DocumentCloseListener !in s.released && forThisDocument && isClosed then DisposeStep(s)
    else s
  }

  /** The webview's own dispose subscription (the user closed the panel). */
  function PanelClosedStep(s: PanelState): PanelState {
    if PanelDisposeListener !in s.released then DisposeStep(s) else s
  }

  /** Everything the host can deliver to a panel. */
  datatype Event =
    | DocumentChanged(forThisDocument: bool)
    | ChangeTimerFired(ctx: RenderContext)
    | RetryTimerFired(ctx: RenderContext)
    | SubprocessExited(now: int, result: ExecResult)
    | DocumentClosed(forThisDocument: bool, isClosed: bool)
    | PanelClosed
    | DisposeCalled

  /** Timers fire only when armed and a converter exits only when running. */
  predicate Enabled(s: PanelState, e: Event) {
    match e
    case ChangeTimerFired(_) => s.changeTimers > 0
    case RetryTimerFired(_) => s.pending
    case SubprocessExited(_, _) => s.subprocess.Some?
    case _ => true
  }

  /** One event; an event that cannot occur in `s` leaves it alone. */
  function Apply(sess: Session, s: PanelState, e: Event): PanelState {
    if !Enabled(s, e) then s
    else match e
      case DocumentChanged(forThisDocument) => ChangeStep(s, forThisDocument)
      case ChangeTimerFired(ctx) => ChangeTimerStep(sess, s, ctx)
      case RetryTimerFired(ctx) => RetryTimerStep(sess, s, ctx)
      case SubprocessExited(now, result) => ExitStep(s, now, result)
      case DocumentClosed(forThisDocument, isClosed) => CloseStep(s, forThisDocument, isClosed)
      case PanelClosed => PanelClosedStep(s)
      case DisposeCalled => DisposeStep(s)
  }

  /** A sequence of events, in order. */
  function Run(sess: Session, s: PanelState, es: seq<Event>): PanelState
    decreases |es|
  {
    if es == [] then s else Run(sess, Apply(sess, s, es[0]), es[1..])
  }

  // ---------------------------------------------------------------------
  // Properties of single steps

  /** Every event keeps the disposal invariant. */
  lemma StepKeepsInv(sess: Session, s: PanelState, e: Event)
    requires Inv(s)
    ensures Inv(Apply(sess, s, e))
  {
  }

  /**
   * The constructor's render: it starts the converter when the clock is at
   * least the minimum interval past zero, and otherwise defers it.
   */
  lemma InitialRender(sess: Session, ctx: RenderContext)
    ensures var s := RenderStep(sess, Fresh, ctx);
            Inv(s) && s.active && s.html == "" &&
            (ctx.now >= ctx.config.minimumWaitInterval ==>
               !s.pending && s.subprocess == Some(Launch(sess, ctx))) &&
            (ctx.now < ctx.config.minimumWaitInterval ==> s.pending && s.subprocess.None?)
  {
  }

  /**
   * Disposing twice is disposing once; disposal deactivates the panel,
   * disposes the webview and releases every subscription, and touches
   * nothing the scheduler uses.
   */
  lemma DisposeIdempotent(s: PanelState)
    requires Inv(s)
    ensures DisposeStep(DisposeStep(s)) == DisposeStep(s)
    ensures var d := DisposeStep(s);
            !d.active && d.panelDisposed && d.released == Subscriptions &&
            d.pending == s.pending && d.subprocess == s.subprocess &&
            d.lastRenderedTime == s.lastRenderedTime && d.html == s.html &&
            d.changeTimers == s.changeTimers
    ensures s.active ==>
              DisposeStep(s) == s.(active := false, panelDisposed := true, released := Subscriptions)
  {
  }

  /** A render of an inactive panel, or while a retry is armed, is a no-op. */
  lemma RenderGuards(sess: Session, s: PanelState, ctx: RenderContext)
    ensures !s.active ==> RenderStep(sess, s, ctx) == s
    ensures s.pending ==> RenderStep(sess, s, ctx) == s
  {
  }

  /**
   * A render starts the converter exactly when the panel is active, no
   * retry is armed, none is running and the minimum interval has passed
   * since the last completion; an active, unarmed render that may not start
   * arms the retry and changes nothing else. A render never touches the
   * page or the completion time.
   */
  lemma RenderStartsOnlyWhenIdleAndDue(sess: Session, s: PanelState, ctx: RenderContext)
    ensures var t := RenderStep(sess, s, ctx);
            (t.subprocess != s.subprocess <==>
               s.active && !s.pending && s.subprocess.None? &&
               ctx.now >= s.lastRenderedTime + ctx.config.minimumWaitInterval) &&
            (t.subprocess != s.subprocess ==> t.subprocess == Some(Launch(sess, ctx)) && !t.pending)
    ensures var t := RenderStep(sess, s, ctx);
            s.active && !s.pending &&
            (s.subprocess.Some? || ctx.now < s.lastRenderedTime + ctx.config.minimumWaitInterval) ==>
              t == s.(pending := true)
    ensures var t := RenderStep(sess, s, ctx);
            t.html == s.html && t.lastRenderedTime == s.lastRenderedTime && t.active == s.active
  {
  }

  /**
   * At most one converter is in flight: no event replaces a running
   * converter by another; it only ever goes away.
   */
  lemma NeverReplacesRunningSubprocess(sess: Session, s: PanelState, e: Event)
    requires s.subprocess.Some?
    ensures var t := Apply(sess, s, e);
            t.subprocess.None? || t.subprocess == s.subprocess
  {
  }

  /**
   * A converter starts only from a timer firing on an active panel with
   * none running, and only once the minimum interval has passed since the
   * last completion; it reads the document text of that moment.
   */
  lemma StartOnlyWhenDue(sess: Session, s: PanelState, e: Event)
    requires s.subprocess.None?
    requires Apply(sess, s, e).subprocess.Some?
    ensures e.ChangeTimerFired? || e.RetryTimerFired?
    ensures s.active
    ensures e.ctx.now >= s.lastRenderedTime + e.ctx.config.minimumWaitInterval
    ensures Apply(sess, s, e).subprocess == Some(Launch(sess, e.ctx))
  {
  }

  /**
   * The completion callback always clears the running converter. On an
   * active panel it stamps the completion time and shows the result,
   * whether the run succeeded or failed; on a disposed panel it does
   * nothing else.
   */
  lemma CompletionEffects(s: PanelState, now: int, result: ExecResult)
    requires s.subprocess.Some?
    ensures var t := ExitStep(s, now, result);
            t.subprocess.None? && t.active == s.active && t.pending == s.pending
    ensures s.active ==>
              var t := ExitStep(s, now, result);
              t.lastRenderedTime == now &&
              t.html == CompletionHtml(result, s.subprocess.value.baseTagUri)
    ensures !s.active ==> ExitStep(s, now, result) == s.(subprocess := None)
  {
  }

  /**
   * Throttling applies to every completed run, failed ones included: a
   * render within the minimum interval of a completion starts nothing and
   * leaves the retry armed, whether it comes from an edit's timer or from a
   * retry that was armed while the run was in flight.
   */
  lemma ThrottleAfterCompletion(sess: Session, s: PanelState, now: int, result: ExecResult,
                                ctx: RenderContext)
    requires s.active && s.subprocess.Some?
    requires ctx.now < now + ctx.config.minimumWaitInterval
    ensures var t := RenderStep(sess, ExitStep(s, now, result), ctx);
            t.subprocess.None? && t.pending
    ensures s.pending ==>
              var t := RetryTimerStep(sess, ExitStep(s, now, result), ctx);
              t.subprocess.None? && t.pending
  {
  }

  /**
   * When the retry fires on an idle panel whose interval has passed, it
   * starts one run that reads the document text current at that moment, so
   * every edit coalesced while waiting is in it.
   */
  lemma RetryRendersLatestText(sess: Session, s: PanelState, ctx: RenderContext)
    requires s.pending && s.active && s.subprocess.None?
    requires ctx.now >= s.lastRenderedTime + ctx.config.minimumWaitInterval
    requires AllReadable(ctx.config.extraPandocInputFiles, sess.documentDir, ctx.files)
    ensures var t := RetryTimerStep(sess, s, ctx);
            !t.pending && t.subprocess.Some? && t.subprocess.value.stdinClosed &&
            t.subprocess.value.stdin ==
              Contents(ctx.config.extraPandocInputFiles, sess.documentDir, ctx.files) +
              ctx.documentText
  {
    ReadInputsAllReadable(ctx.config.extraPandocInputFiles, sess.documentDir, ctx.files);
  }

  /** Only an active panel's completion writes the page or the completion time. */
  lemma OnlyCompletionWrites(sess: Session, s: PanelState, e: Event)
    ensures var t := Apply(sess, s, e);
            t.html != s.html || t.lastRenderedTime != s.lastRenderedTime ==>
              e.SubprocessExited? && s.active
  {
  }

  // ---------------------------------------------------------------------
  // Properties of a converter run's setup

  /**
   * A run is given the argument list of `PandocArguments`, which ends with
   * the placeholder request exactly when the document is backed by a file;
   * such a run also gets the document's webview URI as base URI and the
   * document's directory as working directory, and every run the fixed
   * 5000 ms timeout.
   */
  lemma LaunchSetup(sess: Session, ctx: RenderContext)
    ensures var p := Launch(sess, ctx);
            p.args == PandocArguments(ctx.config.extraPandocArguments, sess.katexUri,
                                      sess.cssUri, sess.fileBacked) &&
            (p.args[|p.args| - 1] == MetadataArgument <==> sess.fileBacked) &&
            p.baseTagUri == (if sess.fileBacked then Some(sess.documentWebviewUri) else None) &&
            p.cwd == (if sess.fileBacked then Some(sess.documentDir) else None) &&
            p.timeoutMs == 5000
  {
    PandocArgumentsEnds(ctx.config.extraPandocArguments, sess.katexUri, sess.cssUri,
                        sess.fileBacked);
  }

  /**
   * The input of a run: every extra input file's contents in configuration
   * order, then the document text, after which the input is closed.
   */
  lemma LaunchInputAllReadable(sess: Session, ctx: RenderContext)
    requires AllReadable(ctx.config.extraPandocInputFiles, sess.documentDir, ctx.files)
    ensures var p := Launch(sess, ctx);
            p.stdinClosed &&
            p.stdin == Contents(ctx.config.extraPandocInputFiles, sess.documentDir, ctx.files) +
                       ctx.documentText
  {
    ReadInputsAllReadable(ctx.config.extraPandocInputFiles, sess.documentDir, ctx.files);
  }

  /**
   * When the input file at index `i` is the first that cannot be read, the
   * run has received the files before it, and neither the document text
   * nor the end of its input.
   */
  lemma LaunchInputMissing(sess: Session, ctx: RenderContext, i: nat)
    requires i < |ctx.config.extraPandocInputFiles|
    requires AllReadable(ctx.config.extraPandocInputFiles[..i], sess.documentDir, ctx.files)
    requires ResolveInputPath(sess.documentDir, ctx.config.extraPandocInputFiles[i]) !in ctx.files
    ensures var p := Launch(sess, ctx);
            !p.stdinClosed &&
            p.stdin == Contents(ctx.config.extraPandocInputFiles[..i], sess.documentDir, ctx.files)
  {
    ReadInputsStopsAtFirstMissing(ctx.config.extraPandocInputFiles, sess.documentDir, ctx.files, i);
  }

  // ---------------------------------------------------------------------
  // Properties of event sequences

  /** Every sequence of events keeps the disposal invariant. */
  lemma {:induction false} RunKeepsInv(sess: Session, s: PanelState, es: seq<Event>)
    requires Inv(s)
    ensures Inv(Run(sess, s, es))
    decreases |es|
  {
    if es != [] {
      StepKeepsInv(sess, s, es[0]);
      RunKeepsInv(sess, Apply(sess, s, es[0]), es[1..]);
    }
  }

  /**
   * After disposal nothing is shown any more: whatever events follow, the
   * panel stays inactive, its page and completion time stay as they were,
   * and no converter is started (one already running may only go away).
   */
  lemma {:induction false} DisposedPanelIsFrozen(sess: Session, s: PanelState, es: seq<Event>)
    requires !s.active
    ensures var t := Run(sess, s, es);
            !t.active && t.html == s.html && t.lastRenderedTime == s.lastRenderedTime &&
            t.panelDisposed == s.panelDisposed &&
            (t.subprocess.Some? ==> t.subprocess == s.subprocess)
    decreases |es|
  {
    if es != [] {
      var s1 := Apply(sess, s, es[0]);
      assert !s1.active && s1.html == s.html && s1.lastRenderedTime == s.lastRenderedTime;
      assert s1.subprocess.Some? ==> s1.subprocess == s.subprocess;
      DisposedPanelIsFrozen(sess, s1, es[1..]);
    }
  }

  /** Only edits and their render timers arrive. */
  predicate OnlyEdits(es: seq<Event>) {
    forall i :: 0 <= i < |es| ==> es[i].DocumentChanged? || es[i].ChangeTimerFired?
  }

  /**
   * Coalescing: while a retry is armed, any burst of edits and of their
   * render timers changes nothing but the count of armed render timers.
   * That the edits are not lost is `RunNoLostEdit`.
   */
  lemma {:induction false} PendingCoalescesEdits(sess: Session, s: PanelState, es: seq<Event>)
    requires s.pending && OnlyEdits(es)
    ensures Run(sess, s, es) == s.(changeTimers := Run(sess, s, es).changeTimers)
    decreases |es|
  {
    if es != [] {
      var s1 := Apply(sess, s, es[0]);
      assert s1 == s.(changeTimers := s1.changeTimers);
      assert OnlyEdits(es[1..]) by {
        forall i | 0 <= i < |es[1..]| ensures es[1..][i].DocumentChanged? || es[1..][i].ChangeTimerFired? {
          assert es[1..][i] == es[i + 1];
        }
      }
      PendingCoalescesEdits(sess, s1, es[1..]);
    }
  }

  // ---------------------------------------------------------------------
  // No edit is lost

  /** An edit of this document reaches the panel through a live subscription. */
  predicate EditArrives(s: PanelState, e: Event) {
    e.DocumentChanged? && e.forThisDocument && DocumentChangeListener !in s.released
  }

  /** The event starts a converter run. */
  predicate RunStarts(sess: Session, s: PanelState, e: Event) {
    s.subprocess.None? && Apply(sess, s, e).subprocess.Some?
  }

  /**
   * Whether an edit has arrived that no run has read yet: an arriving edit
   * sets the flag, and a run start clears it, since the run reads the
   * document text of the moment it starts (a run that stops at an unreadable
   * input file never receives that text; see `LaunchInputMissing`).
   */
  function NextDirty(sess: Session, s: PanelState, e: Event, dirty: bool): bool {
    if RunStarts(sess, s, e) then false else dirty || EditArrives(s, e)
  }

  /** The flag along a sequence of events. */
  function DirtyAfter(sess: Session, s: PanelState, es: seq<Event>, dirty: bool): bool
    decreases |es|
  {
    if es == [] then dirty
    else DirtyAfter(sess, Apply(sess, s, es[0]), es[1..], NextDirty(sess, s, es[0], dirty))
  }

  /**
   * While an edit is unread and the panel is active, a timer that will
   * render is still armed: an edit's render timer or the retry.
   */
  predicate NoLostEdit(s: PanelState, dirty: bool) {
    s.active && dirty ==> s.changeTimers > 0 || s.pending
  }

  /** Every event keeps an unread edit covered by an armed timer. */
  lemma StepNoLostEdit(sess: Session, s: PanelState, e: Event, dirty: bool)
    requires NoLostEdit(s, dirty)
    ensures NoLostEdit(Apply(sess, s, e), NextDirty(sess, s, e, dirty))
  {
  }

  /**
   * No edit is lost: along any sequence of events, as long as the panel is
   * active, an edit that no run has read yet keeps a render timer or the
   * retry armed, so a further render follows it; once no timer is armed,
   * every edit has been read by a run started after it.
   */
  lemma {:induction false} RunNoLostEdit(sess: Session, s: PanelState, es: seq<Event>, dirty: bool)
    requires NoLostEdit(s, dirty)
    ensures NoLostEdit(Run(sess, s, es), DirtyAfter(sess, s, es, dirty))
    decreases |es|
  {
    if es != [] {
      StepNoLostEdit(sess, s, es[0], dirty);
      RunNoLostEdit(sess, Apply(sess, s, es[0]), es[1..], NextDirty(sess, s, es[0], dirty));
    }
  }
}
