/**
  The `Converter` class: `processFile` records the path, asks for the file's MIME type, checks
  it against the allow-list, derives the file name, selects a format converter and invokes it.
  Every step writes one of the object's four typed properties, and one object serves a whole
  batch, so a call starts from whatever the previous call left behind.

  The MIME type that `mime_content_type` reports for a path is the oracle `mimeOf`, and the
  directory of the script (`__DIR__`) is the parameter `scriptDir`.
*/
module ConverterCore {
  import opened Wrappers
  import opened Paths
  import opened Mime
  import opened Formats

  /** Why a call of `processFile` did not convert its file. */
  datatype Failure =
      /** The `Exception` thrown when the type is not on the allow-list; it names the file held in `$fileName`. */
    | NotConvertible(fileName: string, mimeType: string)
      /** The `Exception` thrown when no converter was selected. */
    | NotSupported(fileName: string, mimeType: string)
      /** PHP's `Error` on reading `$fileName` before it was ever assigned: not an `Exception`. */
    | UninitializedFileName

  /** The message each failure carries. */
  function Message(failure: Failure): string {
    match failure
    case NotConvertible(name, mime) => "File " + name + " is not convertible by mime type " + mime
    case NotSupported(name, mime) => "File " + name + " with mime/type " + mime + " is not supported by convertors"
    case UninitializedFileName => "Typed property Converter::$fileName must not be accessed before initialization"
  }

  /** True of the failures that are PHP `Exception`s, the ones `catch (Exception $e)` catches. */
  predicate IsException(failure: Failure) {
    !failure.UninitializedFileName?
  }

  /** What `processFile` gives its caller: the returned file name, or what it threw. */
  datatype Outcome = Processed(fileName: string) | Failed(failure: Failure)

  /** The four properties of a `Converter` object. */
  datatype State = State(
    file: Field<string>,
    fileName: Field<string>,
    mimeType: Field<string>,
    fileConverter: Field<Option<ConverterKind>>)

  /** A `new Converter()`: no property has been assigned. */
  const Fresh: State := State(Uninitialized, Uninitialized, Uninitialized, Uninitialized)

  /** One call of `processFile`: the object's new properties, the outcome, and the encode request issued, if any. */
  datatype Step = Step(state: State, outcome: Outcome, request: Option<EncodeRequest>)

  /** The failure `checkFileProcessable` raises for a rejected type, given the `$fileName` it reads. */
  function Rejection(fileName: Field<string>, mimeType: string): (f: Failure)
    ensures IsException(f) <==> fileName.Initialized?
  {
    if fileName.Initialized? then NotConvertible(fileName.value, mimeType) else UninitializedFileName
  }

  /** The effect of `processFile(path)` on an object in state `s`. */
  function Process(s: State, path: string, mimeOf: string -> string, scriptDir: string): Step {
    var detected := mimeOf(path);
    var checked := s.(file := Initialized(path), mimeType := Initialized(detected));
    if !IsProcessable(detected) then
      Step(checked, Failed(Rejection(s.fileName, detected)), None)
    else
      var name := FileName(path);
      var selected := SelectConverter(detected);
      var loaded := checked.(fileName := Initialized(name), fileConverter := Initialized(selected));
      match selected
      case None => Step(loaded, Failed(NotSupported(name, detected)), None)
      case Some(kind) =>
        Step(loaded, Processed(name), Some(Convert(kind, path, name, DefaultDestinationDir(kind, scriptDir))))
  }

  /**
    `processFile` throws exactly when the detected type is not on the allow-list, and then no
    converter is invoked and only `$file` and `$mime_type` change; the failure names the file
    that `$fileName` still holds from an earlier call.
  */
  lemma RejectionLeavesNameAndConverter(s: State, path: string, mimeOf: string -> string, scriptDir: string)
    ensures Process(s, path, mimeOf, scriptDir).outcome.Failed? <==> !IsProcessable(mimeOf(path))
    ensures !IsProcessable(mimeOf(path)) ==>
      var r := Process(s, path, mimeOf, scriptDir);
      && r.request == None
      && r.state == State(Initialized(path), s.fileName, Initialized(mimeOf(path)), s.fileConverter)
      && r.outcome.failure == Rejection(s.fileName, mimeOf(path))
  {
  }

  /**
    On an allowed type, `processFile` returns the path's file name and issues one encode request:
    PNG to the PNG directory at quality 85, JPEG to the JPEG directory at the encoder default,
    the output file named after the returned name.
  */
  lemma AcceptedFileIsConverted(s: State, path: string, mimeOf: string -> string, scriptDir: string)
    requires IsProcessable(mimeOf(path))
    ensures var r := Process(s, path, mimeOf, scriptDir);
      var kind := KindOf(mimeOf(path));
      && r.outcome == Processed(FileName(path))
      && r.state == State(Initialized(path), Initialized(FileName(path)), Initialized(mimeOf(path)), Initialized(Some(kind)))
      && r.request.Some?
      && r.request.value.source == path
      && r.request.value.outputPath == OutputPath(DefaultDestinationDir(kind, scriptDir), FileName(path))
      && FileName(r.request.value.outputPath) == r.outcome.fileName
      && r.request.value.quality == if kind == Png then Some(PngQuality) else None
  {
    var kind := KindOf(mimeOf(path));
    AllowedKind(mimeOf(path));
    FileNameSpec(path);
    ConvertRequest(kind, path, FileName(path), DefaultDestinationDir(kind, scriptDir));
  }

  /** The "not supported by convertors" exception can never be thrown. */
  lemma NotSupportedUnreachable(s: State, path: string, mimeOf: string -> string, scriptDir: string)
    ensures !(Process(s, path, mimeOf, scriptDir).outcome.Failed? && Process(s, path, mimeOf, scriptDir).outcome.failure.NotSupported?)
  {
  }

  /** Once a file has passed the allow-list, `$fileName` stays assigned, so no later call can raise the `Error`. */
  lemma FileNameStaysInitialized(s: State, path: string, mimeOf: string -> string, scriptDir: string)
    requires s.fileName.Initialized?
    ensures Process(s, path, mimeOf, scriptDir).state.fileName.Initialized?
    ensures Process(s, path, mimeOf, scriptDir).outcome.Failed? ==> IsException(Process(s, path, mimeOf, scriptDir).outcome.failure)
  {
  }

  /** A `Converter` object; its methods update the four properties in the order `processFile` does. */
  class Converter {
    /** `__DIR__`, where the default destination directories live. */
    const scriptDir: string
    var file: Field<string>
    var fileName: Field<string>
    var mimeType: Field<string>
    var fileConverter: Field<Option<ConverterKind>>

    /** The object's properties as a value. */
    function Snapshot(): State
      reads this
    {
      State(file, fileName, mimeType, fileConverter)
    }

    constructor(scriptDir: string)
      ensures this.scriptDir == scriptDir && Snapshot() == Fresh
    {
      this.scriptDir := scriptDir;
      file, fileName, mimeType, fileConverter := Uninitialized, Uninitialized, Uninitialized, Uninitialized;
    }

    /** `processFile($file)`: the new properties, the outcome and the encode request are those of `Process`. */
    method ProcessFile(path: string, mimeOf: string -> string) returns (outcome: Outcome, request: Option<EncodeRequest>)
      modifies this
      ensures var r := Process(old(Snapshot()), path, mimeOf, scriptDir);
        Snapshot() == r.state && outcome == r.outcome && request == r.request
    {
      file := Initialized(path);
      var failure := CheckFileProcessable(mimeOf);
      if failure.Some? {
        return Failed(failure.value), None;
      }
      LoadFileName();
      SelectFileConverter();
      var unsupported := NotSupported(fileName.value, mimeType.value);
      match fileConverter.value
      case None =>
        return Failed(unsupported), None;
      case Some(kind) =>
        request := Some(Convert(kind, file.value, fileName.value, DefaultDestinationDir(kind, scriptDir)));
        return Processed(fileName.value), request;
    }

    /**
      `checkFileProcessable`: records the detected type and fails exactly when it is not on the
      allow-list, with a failure built from the `$fileName` already held.
    */
    method CheckFileProcessable(mimeOf: string -> string) returns (failure: Option<Failure>)
      requires file.Initialized?
      modifies this`mimeType
      ensures mimeType == Initialized(mimeOf(file.value))
      ensures failure.None? <==> IsProcessable(mimeOf(file.value))
      ensures failure.Some? ==> failure.value == Rejection(fileName, mimeOf(file.value))
    {
      mimeType := Initialized(mimeOf(file.value));
      if IsProcessable(mimeType.value) {
        return None;
      }
      if fileName.Uninitialized? {
        return Some(UninitializedFileName);
      }
      return Some(NotConvertible(fileName.value, mimeType.value));
    }

    /** `loadFileName`: `$fileName` becomes the path's base name without its extension. */
    method LoadFileName()
      requires file.Initialized?
      modifies this`fileName
      ensures fileName == Initialized(FileName(file.value))
    {
      fileName := Initialized(FileName(file.value));
    }

    /** `selectFileConverter`: `$fileConverter` becomes the converter the `match` picks, or `null`. */
    method SelectFileConverter()
      requires mimeType.Initialized?
      modifies this`fileConverter
      ensures fileConverter == Initialized(SelectConverter(mimeType.value))
    {
      fileConverter := Initialized(SelectConverter(mimeType.value));
    }
  }
}
