/**
 * How one converter run is set up: its argument list and the bytes written
 * to its standard input (the extra input files, then the document text).
 */
module Invocation {
  import opened Wrappers

  /** The converter is killed after this many milliseconds. */
  const ExecTimeoutMs: int := 5000

  /** Asks the converter to echo the base-tag placeholder into the page head. */
  const MetadataArgument: string := "--metadata=header-includes:{{pmp-base-tag}}"

  /**
   * The converter's arguments, in order: the configured extra arguments as
   * one element when non-empty, `-s`, the KaTeX base, the stylesheet, and
   * the placeholder request for a document backed by a file.
   */
  function PandocArguments(extraArguments: string, katexUri: string, cssUri: string,
                           fileBacked: bool): seq<string>
  {
    (if |extraArguments| != 0 then [extraArguments] else [])
    + ["-s", "--katex=" + katexUri + "/", "--css=" + cssUri]
    + (if fileBacked then [MetadataArgument] else [])
  }

  /** The layout of the argument list, element by element. */
  lemma PandocArgumentsLayout(extraArguments: string, katexUri: string, cssUri: string,
                              fileBacked: bool)
    ensures var args := PandocArguments(extraArguments, katexUri, cssUri, fileBacked);
            var k := if extraArguments == "" then 0 else 1;
            |args| == k + 3 + (if fileBacked then 1 else 0) &&
            (extraArguments != "" ==> args[0] == extraArguments) &&
            args[k] == "-s" &&
            args[k + 1] == "--katex=" + katexUri + "/" &&
            args[k + 2] == "--css=" + cssUri &&
            (fileBacked ==> args[k + 3] == MetadataArgument)
  {
  }

  /**
   * The placeholder request closes the list exactly when the document is
   * backed by a file, and the extra arguments open it exactly when they are
   * non-empty.
   */
  lemma PandocArgumentsEnds(extraArguments: string, katexUri: string, cssUri: string,
                            fileBacked: bool)
    ensures var args := PandocArguments(extraArguments, katexUri, cssUri, fileBacked);
            (args[|args| - 1] == MetadataArgument <==> fileBacked) &&
            (args[0] == extraArguments <==> extraArguments != "") &&
            "-s" in args
  {
    var args := PandocArguments(extraArguments, katexUri, cssUri, fileBacked);
    if !fileBacked {
      var css := "--css=" + cssUri;
      assert args[|args| - 1] == css;
      assert css[2] == 'c' && MetadataArgument[2] == 'm';
    }
    if extraArguments == "" {
      assert args[0] == "-s";
    }
  }

  /** A path is absolute when it starts at the root. */
  predicate IsAbsolute(path: string) {
    |path| > 0 && path[0] == '/'
  }

  /**
   * Where an extra input file is read from: an absolute path as given, a
   * relative one under the document's directory.
   */
  function ResolveInputPath(documentDir: string, inputFile: string): string {
    if IsAbsolute(inputFile) then inputFile else documentDir + "/" + inputFile
  }

  /** Every extra input file can be read. */
  predicate AllReadable(files: seq<string>, documentDir: string, fs: map<string, string>) {
    forall i :: 0 <= i < |files| ==> ResolveInputPath(documentDir, files[i]) in fs
  }

  /** The contents of readable input files, in configuration order. */
  function Contents(files: seq<string>, documentDir: string, fs: map<string, string>): string
    requires AllReadable(files, documentDir, fs)
  {
    if files == [] then ""
    else fs[ResolveInputPath(documentDir, files[0])] + Contents(files[1..], documentDir, fs)
  }

  /**
   * What reading the input files one after the other delivers: the contents
   * read so far and, if reading stopped, the path that could not be read.
   */
  datatype InputRead = InputRead(data: string, missing: Option<string>)

  /** Reads the input files in order, stopping at the first unreadable one. */
  function ReadInputs(files: seq<string>, documentDir: string, fs: map<string, string>): (r: InputRead)
    ensures r.missing.None? <==> AllReadable(files, documentDir, fs)
    ensures r.missing.Some? ==> r.missing.value !in fs
    decreases |files|
  {
    if files == [] then InputRead("", None)
    else
      var prev := ReadInputs(files[..|files| - 1], documentDir, fs);
      var path := ResolveInputPath(documentDir, files[|files| - 1]);
      assert forall i :: 0 <= i < |files| - 1 ==> files[..|files| - 1][i] == files[i];
      if prev.missing.Some? then prev
      else if path in fs then InputRead(prev.data + fs[path], None)
      else InputRead(prev.data, Some(path))
  }

  /** Appending a readable file appends its contents. */
  lemma {:induction false} ContentsSnoc(files: seq<string>, documentDir: string,
                                        fs: map<string, string>)
    requires files != [] && AllReadable(files, documentDir, fs)
    ensures AllReadable(files[..|files| - 1], documentDir, fs)
    ensures Contents(files, documentDir, fs) ==
            Contents(files[..|files| - 1], documentDir, fs) +
            fs[ResolveInputPath(documentDir, files[|files| - 1])]
  {
    var init := files[..|files| - 1];
    assert forall i :: 0 <= i < |init| ==> init[i] == files[i];
    if |files| > 1 {
      var tail := files[1..];
      assert forall i :: 0 <= i < |tail| ==> tail[i] == files[i + 1];
      ContentsSnoc(tail, documentDir, fs);
      assert tail[..|tail| - 1] == init[1..];
    }
  }

  /** When every file is readable, reading yields their contents in order. */
  lemma {:induction false} ReadInputsAllReadable(files: seq<string>, documentDir: string,
                                                 fs: map<string, string>)
    requires AllReadable(files, documentDir, fs)
    ensures ReadInputs(files, documentDir, fs) == InputRead(Contents(files, documentDir, fs), None)
    decreases |files|
  {
    if files != [] {
      ContentsSnoc(files, documentDir, fs);
      ReadInputsAllReadable(files[..|files| - 1], documentDir, fs);
    }
  }

  /** Once reading has stopped, later files change nothing. */
  lemma {:induction false} ReadInputsAfterMissing(files: seq<string>, documentDir: string,
                                                  fs: map<string, string>, j: nat)
    requires j <= |files|
    requires ReadInputs(files[..j], documentDir, fs).missing.Some?
    ensures ReadInputs(files, documentDir, fs) == ReadInputs(files[..j], documentDir, fs)
    decreases |files| - j
  {
    if j < |files| {
      var next := files[..j + 1];
      assert next[..|next| - 1] == files[..j];
      assert ReadInputs(next, documentDir, fs) == ReadInputs(files[..j], documentDir, fs);
      ReadInputsAfterMissing(files, documentDir, fs, j + 1);
    } else {
      assert files[..j] == files;
    }
  }

  /**
   * When the file at index `i` is the first that cannot be read, reading
   * delivers the contents of the files before it and reports its path.
   */
  lemma ReadInputsStopsAtFirstMissing(files: seq<string>, documentDir: string,
                                      fs: map<string, string>, i: nat)
    requires i < |files|
    requires AllReadable(files[..i], documentDir, fs)
    requires ResolveInputPath(documentDir, files[i]) !in fs
    ensures ReadInputs(files, documentDir, fs) ==
            InputRead(Contents(files[..i], documentDir, fs),
                      Some(ResolveInputPath(documentDir, files[i])))
  {
    ReadInputsAllReadable(files[..i], documentDir, fs);
    assert files[..i + 1][..i] == files[..i];
    ReadInputsAfterMissing(files, documentDir, fs, i + 1);
  }
}
