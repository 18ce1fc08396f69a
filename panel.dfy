/**
 * The preview panel object: its fields, the constructor that subscribes to
 * the host's events and renders once, `render`, the converter's completion
 * callback, `dispose`, and the callbacks of its three subscriptions and of
 * the timers it arms. Each method is proved to move the panel's fields
 * exactly as the matching step function of module Scheduler says, so the
 * scheduler's lemmas hold of the object.
 */
module Panel {
  import opened Wrappers
  import opened Output
  import opened Invocation
  import opened Scheduler

  class PreviewPanel {
    /** The document, its directory and the resource URIs, fixed at construction. */
    const session: Session

    var active: bool
    var pending: bool
    var subprocess: Option<Process>
    var lastRenderedTime: int
    /** The webview's page. */
    var html: string
    /** The webview has been disposed. */
    var panelDisposed: bool
    /** The subscriptions registered by the constructor. */
    var disposables: seq<Listener>
    /** The subscriptions disposed so far, in the order they were disposed. */
    var released: seq<Listener>
    /** Render timers armed by document changes and not yet fired. */
    var changeTimers: nat

    /** The fields the scheduler reads and writes. */
    function State(): PanelState
      reads this
    {
      PanelState(active, pending, subprocess, lastRenderedTime, html, panelDisposed,
                 released, changeTimers)
    }

    ghost predicate Valid()
      reads this
    {
      disposables == Subscriptions && Inv(State())
    }

    /**
     * Registers the document-change, document-close and panel-dispose
     * subscriptions, in that order, and renders.
     */
    constructor(session: Session, ctx: RenderContext)
      ensures this.session == session
      ensures Valid()
      ensures State() == RenderStep(session, Fresh, ctx)
    {
      this.session := session;
      active := true;
      lastRenderedTime := 0;
      pending := false;
      disposables := [];
      subprocess := None;
      html := "";
      panelDisposed := false;
      released := [];
      changeTimers := 0;
      new;
      disposables := disposables + [DocumentChangeListener];
      disposables := disposables + [DocumentCloseListener];
      disposables := disposables + [PanelDisposeListener];
      Render(ctx);
    }

    /**
     * Starts a converter run, or arms the retry timer when the last run
     * completed less than the minimum interval ago or one is still running.
     * An input file that cannot be read ends the render with the run
     * started and its input left open.
     */
    method Render(ctx: RenderContext)
      requires Valid()
      modifies this
      ensures Valid()
      ensures State() == RenderStep(session, old(State()), ctx)
    {
      if !active { return; }
      if pending { return; }
      var config := ctx.config;
      if ctx.now < lastRenderedTime + config.minimumWaitInterval || subprocess.Some? {
        pending := true;
        return;
      }
      var baseTagUri: Option<string> := None;
      if session.fileBacked {
        baseTagUri := Some(session.documentWebviewUri);
      }
      var cwd: Option<string> := None;
      if session.fileBacked {
        cwd := Some(session.documentDir);
      }
      var pandocOptions: seq<string> := [];
      if |config.extraPandocArguments| != 0 {
        pandocOptions := pandocOptions + [config.extraPandocArguments];
      }
      pandocOptions := pandocOptions + ["-s"];
      pandocOptions := pandocOptions + ["--katex=" + session.katexUri + "/"];
      pandocOptions := pandocOptions + ["--css=" + session.cssUri];
      if baseTagUri.Some? {
        pandocOptions := pandocOptions + [MetadataArgument];
      }
      assert pandocOptions == PandocArguments(config.extraPandocArguments, session.katexUri,
                                              session.cssUri, session.fileBacked);
      var started := Process(pandocOptions, cwd, ExecTimeoutMs, baseTagUri, "", false);
      subprocess := Some(started);

      var files := config.extraPandocInputFiles;
      var i := 0;
      while i < |files|
        invariant 0 <= i <= |files|
        invariant subprocess.Some? && subprocess.value == started.(stdin := subprocess.value.stdin)
        invariant ReadInputs(files[..i], session.documentDir, ctx.files) ==
                  InputRead(subprocess.value.stdin, None)
        invariant active && !pending && lastRenderedTime == old(lastRenderedTime)
        invariant html == old(html) && panelDisposed == old(panelDisposed)
        invariant released == old(released) && changeTimers == old(changeTimers)
        invariant disposables == old(disposables)
      {
        var inputFile := files[i];
        var path := ResolveInputPath(session.documentDir, inputFile);
        if path !in ctx.files {
          // reading the file fails: nothing more is written and the input stays open
          ReadInputsAllReadable(files[..i], session.documentDir, ctx.files);
          ReadInputsStopsAtFirstMissing(files, session.documentDir, ctx.files, i);
          return;
        }
        subprocess := Some(subprocess.value.(stdin := subprocess.value.stdin + ctx.files[path]));
        assert files[..i + 1][..i] == files[..i];
        i := i + 1;
      }
      assert files[..i] == files;
      subprocess := Some(subprocess.value.(stdin := subprocess.value.stdin + ctx.documentText));
      subprocess := Some(subprocess.value.(stdinClosed := true));
    }

    /**
     * The converter run ended: forget it and, unless the panel was disposed
     * meanwhile, stamp the completion time and show the result.
     */
    method SubprocessExited(now: int, result: ExecResult)
      requires Valid() && subprocess.Some?
      modifies this
      ensures Valid()
      ensures State() == ExitStep(old(State()), now, result)
    {
      var baseTagUri := subprocess.value.baseTagUri;
      subprocess := None;
      if !active { return; }
      lastRenderedTime := now;
      match result {
        case Failed(diagnostic) =>
          html := ErrorPage(diagnostic);
        case Succeeded(stdout) =>
          var page := stdout;
          if baseTagUri.Some? {
            page := ReplaceFirst(page, Placeholder, BaseTag(baseTagUri.value));
          }
          html := page;
      }
    }

    /** Deactivates the panel, disposes the webview and every subscription; once only. */
    method Dispose()
      requires Valid()
      modifies this
      ensures Valid()
      ensures State() == DisposeStep(old(State()))
    {
      if !active { return; }
      active := false;
      panelDisposed := true;
      var i := 0;
      while i < |disposables|
        invariant 0 <= i <= |disposables|
        invariant released == old(released) + disposables[..i]
        invariant !active && panelDisposed && disposables == old(disposables)
        invariant pending == old(pending) && subprocess == old(subprocess)
        invariant lastRenderedTime == old(lastRenderedTime) && html == old(html)
        invariant changeTimers == old(changeTimers)
      {
        released := released + [disposables[i]];
        i := i + 1;
      }
      assert disposables[..i] == disposables;
    }

    /** The document-change subscription: an edit of this document arms a render timer. */
    method DocumentChanged(forThisDocument: bool)
      requires Valid()
      modifies this
      ensures Valid()
      ensures State() == ChangeStep(old(State()), forThisDocument)
    {
      if DocumentChangeListener in released { return; }
      if forThisDocument {
        changeTimers := changeTimers + 1;
      }
    }

    /** A render timer armed by an edit fires. */
    method ChangeTimerFired(ctx: RenderContext)
      requires Valid() && changeTimers > 0
      modifies this
      ensures Valid()
      ensures State() == ChangeTimerStep(session, old(State()), ctx)
    {
      changeTimers := changeTimers - 1;
      Render(ctx);
    }

    /** The retry timer fires: clear the flag and render again. */
    method RetryTimerFired(ctx: RenderContext)
      requires Valid() && pending
      modifies this
      ensures Valid()
      ensures State() == RetryTimerStep(session, old(State()), ctx)
    {
      pending := false;
      Render(ctx);
    }

    /** The document-close subscription: closing this document disposes the panel. */
    method DocumentClosed(forThisDocument: bool, isClosed: bool)
      requires Valid()
      modifies this
      ensures Valid()
      ensures State() == CloseStep(old(State()), forThisDocument, isClosed)
    {
      if DocumentCloseListener in released { return; }
      if forThisDocument && isClosed {
        Dispose();
      }
    }

    /** The webview's dispose subscription: the user closed the panel. */
    method PanelClosed()
      requires Valid()
      modifies this
      ensures Valid()
      ensures State() == PanelClosedStep(old(State()))
    {
      if PanelDisposeListener in released { return; }
      Dispose();
    }
  }
}
