/**
 * What the panel shows when a converter run completes: the converter's
 * standard output with its base-tag placeholder substituted, or a fixed
 * error page around the escaped diagnostic.
 */
module Output {
  import opened Wrappers
  import opened Escaping

  /** The token the converter is asked to echo into the page head. */
  const Placeholder: string := "{{pmp-base-tag}}"

  /** `pat` occurs in `s` starting at index `k`. */
  predicate OccursAt(s: string, pat: string, k: int) {
    0 <= k && k + |pat| <= |s| && s[k..k + |pat|] == pat
  }

  /**
   * The first index at or after `from` where `pat` occurs in `s`; `None`
   * when there is none.
   */
  function FindFrom(s: string, pat: string, from: nat): (r: Option<nat>)
    requires from <= |s|
    ensures r.Some? ==> from <= r.value && OccursAt(s, pat, r.value)
    ensures r.Some? ==> forall k :: from <= k < r.value ==> !OccursAt(s, pat, k)
    ensures r.None? ==> forall k :: from <= k ==> !OccursAt(s, pat, k)
    decreases |s| - from
  {
    if from + |pat| > |s| then None
    else if s[from..from + |pat|] == pat then Some(from)
    else FindFrom(s, pat, from + 1)
  }

  /** `s.indexOf(pat)`, with `None` for -1. */
  function IndexOf(s: string, pat: string): (r: Option<nat>)
    ensures r.Some? ==> OccursAt(s, pat, r.value) &&
                        forall k :: 0 <= k < r.value ==> !OccursAt(s, pat, k)
    ensures r.None? ==> forall k :: !OccursAt(s, pat, k)
  {
    FindFrom(s, pat, 0)
  }

  /**
   * `s.replace(pat, rep)` with a string pattern: only the first occurrence
   * of `pat` is replaced.
   */
  function ReplaceFirst(s: string, pat: string, rep: string): string {
    match IndexOf(s, pat)
    case None => s
    case Some(k) => s[..k] + rep + s[k + |pat|..]
  }

  /** The `<base href=...>` tag that replaces the placeholder. */
  function BaseTag(uri: string): string {
    "<base href=\"" + uri + "\">"
  }

  /** The text of the error page before and after the escaped diagnostic. */
  const ErrorHead: string := "\n\t\t\t\t\t<p>Error executing pandoc:</p>\n\t\t\t\t\t<pre>"
  const ErrorTail: string := "</pre>\n\t\t\t\t"

  /** The error page shown when the converter run failed. */
  function ErrorPage(diagnostic: string): string {
    ErrorHead + EscapeHtml(diagnostic) + ErrorTail
  }

  /** How a converter run ended, as the completion callback receives it. */
  datatype ExecResult =
    | Succeeded(stdout: string)
    | Failed(diagnostic: string)

  /**
   * The page the completion callback writes: on success the output, with
   * the placeholder turned into a base tag when the run had a base URI; on
   * failure the error page.
   */
  function CompletionHtml(result: ExecResult, baseTagUri: Option<string>): string {
    match result
    case Failed(diagnostic) => ErrorPage(diagnostic)
    case Succeeded(stdout) =>
      if baseTagUri.Some? then ReplaceFirst(stdout, Placeholder, BaseTag(baseTagUri.value))
      else stdout
  }

  /** Without an occurrence of the pattern, `ReplaceFirst` changes nothing. */
  lemma ReplaceFirstWithoutMatch(s: string, pat: string, rep: string)
    requires forall k :: !OccursAt(s, pat, k)
    ensures ReplaceFirst(s, pat, rep) == s
  {
  }

  /**
   * With a first occurrence at `k`, the result is the text before it, the
   * replacement, and the text after it, so a later occurrence at `j` is
   * still in the result, shifted by the difference in length.
   */
  lemma ReplaceFirstOnlyFirst(s: string, pat: string, rep: string, k: nat, j: int)
    requires OccursAt(s, pat, k) && forall i :: 0 <= i < k ==> !OccursAt(s, pat, i)
    requires j >= k + |pat| && OccursAt(s, pat, j)
    ensures var r := ReplaceFirst(s, pat, rep);
            r[..k] == s[..k] && OccursAt(r, rep, k) && OccursAt(r, pat, j - |pat| + |rep|)
  {
    var r := ReplaceFirst(s, pat, rep);
    assert IndexOf(s, pat) == Some(k);
    assert r == s[..k] + rep + s[k + |pat|..];
    var j' := j - |pat| + |rep|;
    assert r[j'..j' + |pat|] == s[j..j + |pat|];
  }

  /**
   * A successful run of a document without a base URI shows the output
   * verbatim; with one, the output with its first placeholder replaced.
   */
  lemma CompletionHtmlOnSuccess(stdout: string, baseTagUri: Option<string>)
    ensures baseTagUri.None? ==> CompletionHtml(Succeeded(stdout), baseTagUri) == stdout
    ensures (forall k :: !OccursAt(stdout, Placeholder, k)) ==>
              CompletionHtml(Succeeded(stdout), baseTagUri) == stdout
    ensures baseTagUri.Some? && IndexOf(stdout, Placeholder).Some? ==>
              var k := IndexOf(stdout, Placeholder).value;
              CompletionHtml(Succeeded(stdout), baseTagUri) ==
                stdout[..k] + BaseTag(baseTagUri.value) + stdout[k + |Placeholder|..]
  {
  }

  /**
   * The error page is the fixed wrapper around a text that holds no raw
   * `<`, `>`, `"` or `'`, and from which the diagnostic reads back exactly.
   */
  lemma ErrorPageShape(diagnostic: string)
    ensures var page := ErrorPage(diagnostic);
            |page| >= |ErrorHead| + |ErrorTail| &&
            page[..|ErrorHead|] == ErrorHead &&
            page[|page| - |ErrorTail|..] == ErrorTail &&
            var body := page[|ErrorHead|..|page| - |ErrorTail|];
            Unescape(body) == diagnostic &&
            '<' !in body && '>' !in body && '"' !in body && '\'' !in body &&
            AmpersandsBeginEntities(body)
  {
    var body := EscapeHtml(diagnostic);
    var page := ErrorPage(diagnostic);
    assert page[|ErrorHead|..|page| - |ErrorTail|] == body;
    UnescapeEscapeHtml(diagnostic);
    EscapeHtmlNoRawSpecials(diagnostic);
    EscapedAmpersandsBeginEntities(diagnostic);
  }

  /** Different diagnostics give different error pages. */
  lemma ErrorPageInjective(d1: string, d2: string)
    requires ErrorPage(d1) == ErrorPage(d2)
    ensures d1 == d2
  {
    ErrorPageShape(d1);
    ErrorPageShape(d2);
  }
}
