/**
  The script's top level: one `Converter` object processes every file the directory listing
  returned, in order. A thrown `Exception` is caught and its message printed, and the loop goes on;
  PHP's `Error` for an uninitialised property is not an `Exception`, so it ends the script.

  The listing (`glob`) is the parameter `rawFiles` and the console is the returned sequence of
  printed strings.
*/
module Batch {
  import opened Wrappers
  import opened Paths
  import opened Mime
  import opened Formats
  import opened ConverterCore

  /** The heading printed before any file is processed. */
  const Banner: string := "/************* FILE CONVERTER *************/\n"

  /** What the loop prints for one call of `processFile`. */
  function ReportLine(outcome: Outcome): string {
    match outcome
    case Processed(name) => "File " + name + " processed\n"
    case Failed(failure) => Message(failure) + "\n"
  }

  /** The lines printed, the encode requests issued, the object's final state, and whether an `Error` ended the run. */
  datatype Run = Run(state: State, lines: seq<string>, requests: seq<EncodeRequest>, aborted: bool)

  /** True of a step whose failure is not an `Exception`: nothing catches it and the script ends. */
  predicate EndsScript(step: Step) {
    step.outcome.Failed? && !IsException(step.outcome.failure)
  }

  /** The encode requests one step issued. */
  function Issued(step: Step): seq<EncodeRequest> {
    if step.request.Some? then [step.request.value] else []
  }

  /** The loop over `files`, started with the object in state `s`. */
  function RunFrom(s: State, files: seq<string>, mimeOf: string -> string, scriptDir: string): Run
    decreases |files|
  {
    if files == [] then Run(s, [], [], false)
    else
      var step := Process(s, files[0], mimeOf, scriptDir);
      if EndsScript(step) then Run(step.state, [], [], true)
      else
        var rest := RunFrom(step.state, files[1..], mimeOf, scriptDir);
        Run(rest.state, [ReportLine(step.outcome)] + rest.lines, Issued(step) + rest.requests, rest.aborted)
  }

  /** True when the run `whole` is what `printed` and `issued` so far, followed by the run over `files` from `s`, add up to. */
  predicate Resumes(whole: Run, printed: seq<string>, issued: seq<EncodeRequest>, s: State, files: seq<string>,
                    mimeOf: string -> string, scriptDir: string)
  {
    var rest := RunFrom(s, files, mimeOf, scriptDir);
    whole.lines == printed + rest.lines && whole.requests == issued + rest.requests && whole.aborted == rest.aborted
  }

  /** One turn of the loop that the script survives keeps the run on course. */
  lemma Advance(whole: Run, printed: seq<string>, issued: seq<EncodeRequest>, s: State, files: seq<string>,
                mimeOf: string -> string, scriptDir: string, step: Step)
    requires files != [] && step == Process(s, files[0], mimeOf, scriptDir)
    requires Resumes(whole, printed, issued, s, files, mimeOf, scriptDir)
    ensures EndsScript(step) ==> whole.lines == printed && whole.requests == issued && whole.aborted
    ensures !EndsScript(step) ==>
      Resumes(whole, printed + [ReportLine(step.outcome)], issued + Issued(step), step.state, files[1..], mimeOf, scriptDir)
  {
  }

  /**
    The script's loop: a fresh `Converter`, the banner, then one line per file. The result is the
    one `RunFrom` describes; `completed` is false when an `Error` ended the script early.
  */
  method RunBatch(rawFiles: seq<string>, mimeOf: string -> string, scriptDir: string)
    returns (output: seq<string>, requests: seq<EncodeRequest>, completed: bool)
    ensures var r := RunFrom(Fresh, rawFiles, mimeOf, scriptDir);
      output == [Banner] + r.lines && requests == r.requests && completed == !r.aborted
  {
    ghost var whole := RunFrom(Fresh, rawFiles, mimeOf, scriptDir);
    var converter := new Converter(scriptDir);
    output, requests := [Banner], [];
    var i := 0;
    while i < |rawFiles|
      invariant 0 <= i <= |rawFiles| && |output| >= 1 && output[0] == Banner
      invariant converter.scriptDir == scriptDir
      invariant Resumes(whole, output[1..], requests, converter.Snapshot(), rawFiles[i..], mimeOf, scriptDir)
    {
      ghost var before := converter.Snapshot();
      var outcome, request := converter.ProcessFile(rawFiles[i], mimeOf);
      ghost var step := Step(converter.Snapshot(), outcome, request);
      Advance(whole, output[1..], requests, before, rawFiles[i..], mimeOf, scriptDir, step);
      if outcome.Failed? && !IsException(outcome.failure) {
        assert output == [Banner] + output[1..];
        return output, requests, false;
      }
      assert rawFiles[i..][1..] == rawFiles[i + 1..];
      assert (output + [ReportLine(outcome)])[1..] == output[1..] + [ReportLine(outcome)];
      output := output + [ReportLine(outcome)];
      requests := requests + if request.Some? then [request.value] else [];
      i := i + 1;
    }
    assert output == [Banner] + output[1..];
    completed := true;
  }

  /** Every file handled before the run ends gets exactly one line; a run that ends early stops short of the last file. */
  lemma {:induction false} OneLinePerFile(s: State, files: seq<string>, mimeOf: string -> string, scriptDir: string)
    decreases |files|
    ensures var r := RunFrom(s, files, mimeOf, scriptDir);
      (!r.aborted ==> |r.lines| == |files|) && (r.aborted ==> |r.lines| < |files|)
  {
    if files != [] {
      var step := Process(s, files[0], mimeOf, scriptDir);
      if !EndsScript(step) {
        OneLinePerFile(step.state, files[1..], mimeOf, scriptDir);
      }
    }
  }

  /** Once `$fileName` holds a name, no later file can end the script: every failure is caught. */
  lemma {:induction false} NamedConverterNeverAborts(s: State, files: seq<string>, mimeOf: string -> string, scriptDir: string)
    decreases |files|
    requires s.fileName.Initialized?
    ensures !RunFrom(s, files, mimeOf, scriptDir).aborted
  {
    if files != [] {
      FileNameStaysInitialized(s, files[0], mimeOf, scriptDir);
      NamedConverterNeverAborts(Process(s, files[0], mimeOf, scriptDir).state, files[1..], mimeOf, scriptDir);
    }
  }

  /**
    From a fresh `Converter`, the script ends early exactly when the first file listed is
    rejected, and then it has printed nothing but the banner and converted nothing.
  */
  lemma FreshRunAbortsIffFirstRejected(files: seq<string>, mimeOf: string -> string, scriptDir: string)
    ensures var r := RunFrom(Fresh, files, mimeOf, scriptDir);
      r.aborted <==> files != [] && !IsProcessable(mimeOf(files[0]))
    ensures var r := RunFrom(Fresh, files, mimeOf, scriptDir);
      r.aborted ==> r.lines == [] && r.requests == []
  {
    if files != [] {
      var step := Process(Fresh, files[0], mimeOf, scriptDir);
      RejectionLeavesNameAndConverter(Fresh, files[0], mimeOf, scriptDir);
      if IsProcessable(mimeOf(files[0])) {
        AcceptedFileIsConverted(Fresh, files[0], mimeOf, scriptDir);
        NamedConverterNeverAborts(step.state, files[1..], mimeOf, scriptDir);
      }
    }
  }

  /** Reference: the encode requests of the files on the allow-list, in listing order. */
  function AcceptedRequests(files: seq<string>, mimeOf: string -> string, scriptDir: string): seq<EncodeRequest> {
    if files == [] then []
    else
      var f := files[0];
      var kind := KindOf(mimeOf(f));
      var own := if IsProcessable(mimeOf(f)) then [Convert(kind, f, FileName(f), DefaultDestinationDir(kind, scriptDir))] else [];
      own + AcceptedRequests(files[1..], mimeOf, scriptDir)
  }

  /**
    A run that reaches its end has converted exactly the files whose type is on the allow-list,
    each once and in order; a rejected file is never handed to a converter.
  */
  lemma {:induction false} RequestsAreAcceptedFiles(s: State, files: seq<string>, mimeOf: string -> string, scriptDir: string)
    decreases |files|
    requires !RunFrom(s, files, mimeOf, scriptDir).aborted
    ensures RunFrom(s, files, mimeOf, scriptDir).requests == AcceptedRequests(files, mimeOf, scriptDir)
  {
    if files != [] {
      var step := Process(s, files[0], mimeOf, scriptDir);
      RejectionLeavesNameAndConverter(s, files[0], mimeOf, scriptDir);
      if IsProcessable(mimeOf(files[0])) {
        AcceptedFileIsConverted(s, files[0], mimeOf, scriptDir);
      }
      RequestsAreAcceptedFiles(step.state, files[1..], mimeOf, scriptDir);
    }
  }

  /** Reference: the `$fileName` after `files` from `name` is the file name of the last allowed file, if any. */
  function NameAfter(name: Field<string>, files: seq<string>, mimeOf: string -> string): Field<string> {
    if files == [] then name
    else
      var last := files[|files| - 1];
      if IsProcessable(mimeOf(last)) then Initialized(FileName(last))
      else NameAfter(name, files[..|files| - 1], mimeOf)
  }

  /** `NameAfter` read from the front: the first file's effect, then the rest. */
  lemma {:induction false} NameAfterFirst(name: Field<string>, files: seq<string>, mimeOf: string -> string)
    requires files != []
    ensures NameAfter(name, files, mimeOf) == NameAfter(NameAfter(name, files[..1], mimeOf), files[1..], mimeOf)
  {
    if |files| == 1 {
      assert files[..1] == files;
    } else {
      var init := files[..|files| - 1];
      NameAfterFirst(name, init, mimeOf);
      assert init[..1] == files[..1];
      assert files[1..][..|files[1..]| - 1] == init[1..];
    }
  }

  /**
    Reference: the line printed for the `i`-th file. An allowed file is reported processed under
    its own name; a rejected one is reported under the name of the last allowed file before it.
  */
  function ExpectedLine(name: Field<string>, files: seq<string>, mimeOf: string -> string, i: nat): string
    requires i < |files|
  {
    var mimeType := mimeOf(files[i]);
    if IsProcessable(mimeType) then "File " + FileName(files[i]) + " processed\n"
    else Message(Rejection(NameAfter(name, files[..i], mimeOf), mimeType)) + "\n"
  }

  /** The first step of a run: its line is the reference line for file 0, and it leaves the reference `$fileName`. */
  lemma FirstStep(s: State, files: seq<string>, mimeOf: string -> string, scriptDir: string)
    requires files != [] && !EndsScript(Process(s, files[0], mimeOf, scriptDir))
    ensures ReportLine(Process(s, files[0], mimeOf, scriptDir).outcome) == ExpectedLine(s.fileName, files, mimeOf, 0)
    ensures Process(s, files[0], mimeOf, scriptDir).state.fileName == NameAfter(s.fileName, files[..1], mimeOf)
  {
  }

  /** In a run that reaches its end, every printed line is the reference line for its file. */
  lemma {:induction false} LinesAsExpected(s: State, files: seq<string>, mimeOf: string -> string, scriptDir: string, i: nat)
    requires !RunFrom(s, files, mimeOf, scriptDir).aborted && i < |files|
    ensures |RunFrom(s, files, mimeOf, scriptDir).lines| == |files|
    ensures RunFrom(s, files, mimeOf, scriptDir).lines[i] == ExpectedLine(s.fileName, files, mimeOf, i)
    decreases |files|
  {
    OneLinePerFile(s, files, mimeOf, scriptDir);
    var step := Process(s, files[0], mimeOf, scriptDir);
    FirstStep(s, files, mimeOf, scriptDir);
    if i > 0 {
      LinesAsExpected(step.state, files[1..], mimeOf, scriptDir, i - 1);
      NameAfterFirst(s.fileName, files[..i], mimeOf);
      assert files[1..][i - 1] == files[i];
      assert files[..i][..1] == files[..1];
      assert files[..i][1..] == files[1..][..i - 1];
    }
  }

  /**
    A rejected file listed right after an allowed one is reported under the allowed file's name,
    because `checkFileProcessable` builds its message before `loadFileName` runs.
  */
  lemma RejectionNamesPreviousFile(s: State, files: seq<string>, mimeOf: string -> string, scriptDir: string, i: nat)
    requires !RunFrom(s, files, mimeOf, scriptDir).aborted && 0 < i < |files|
    requires IsProcessable(mimeOf(files[i - 1])) && !IsProcessable(mimeOf(files[i]))
    ensures |RunFrom(s, files, mimeOf, scriptDir).lines| == |files|
    ensures RunFrom(s, files, mimeOf, scriptDir).lines[i]
         == "File " + FileName(files[i - 1]) + " is not convertible by mime type " + mimeOf(files[i]) + "\n"
  {
    LinesAsExpected(s, files, mimeOf, scriptDir, i);
    assert files[..i][i - 1] == files[i - 1];
  }
}
