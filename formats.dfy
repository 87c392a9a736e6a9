/**
  `PngConverter::convert` and `JpegConverter::convert`, reduced to the encode request each one
  hands to the image library: which file is read, which WebP path is written and at what quality.
*/
module Formats {
  import opened Wrappers
  import opened Paths
  import opened Mime

  /** The quality `PngConverter` passes to `imagewebp`. */
  const PngQuality: nat := 85

  /**
    One call of `imagewebp`: the decoded `source`, the `outputPath` written, and the quality
    argument (`None`: the argument is left out and the encoder's default applies).
  */
  datatype EncodeRequest = EncodeRequest(source: string, outputPath: string, quality: Option<nat>)

  /** The extension every converter gives its output. */
  const WebpExtension: string := "webp"

  /** `$destinationDir . $fileName . '.webp'`. */
  function OutputPath(destinationDir: string, fileName: string): string {
    destinationDir + fileName + "." + WebpExtension
  }

  /** The default value of `$destinationDir` in each converter, below the script's directory `scriptDir`. */
  function DefaultDestinationDir(kind: ConverterKind, scriptDir: string): (dir: string)
    ensures IsDirPrefix(dir)
  {
    match kind
    case Png => scriptDir + "/processed-png/"
    case Jpeg => scriptDir + "/processed-jpeg/"
  }

  /** `PngConverter::convert`: the PNG is redrawn on a transparent canvas and encoded at quality 85. */
  function PngConvert(file: string, fileName: string, destinationDir: string): EncodeRequest {
    EncodeRequest(file, OutputPath(destinationDir, fileName), Some(PngQuality))
  }

  /** `JpegConverter::convert`: the decoded JPEG is encoded with no quality argument. */
  function JpegConvert(file: string, fileName: string, destinationDir: string): EncodeRequest {
    EncodeRequest(file, OutputPath(destinationDir, fileName), None)
  }

  /** `$converter->convert(...)` on whichever converter `kind` names. */
  function Convert(kind: ConverterKind, file: string, fileName: string, destinationDir: string): EncodeRequest {
    match kind
    case Png => PngConvert(file, fileName, destinationDir)
    case Jpeg => JpegConvert(file, fileName, destinationDir)
  }

  /** The WebP file a converter writes is named after the file name it was given. */
  lemma OutputPathNamesFile(destinationDir: string, fileName: string)
    requires IsDirPrefix(destinationDir) && '/' !in fileName
    ensures FileName(OutputPath(destinationDir, fileName)) == fileName
  {
    assert '.' !in WebpExtension && '/' !in WebpExtension;
    FileNameOfPath(destinationDir, fileName, WebpExtension);
  }

  /** In one destination directory, two outputs coincide exactly when the file names do. */
  lemma OutputPathInjective(destinationDir: string, a: string, b: string)
    ensures OutputPath(destinationDir, a) == OutputPath(destinationDir, b) <==> a == b
  {
    if OutputPath(destinationDir, a) == OutputPath(destinationDir, b) {
      var p := OutputPath(destinationDir, a);
      assert |a| == |b|;
      assert a == p[|destinationDir|..|destinationDir| + |a|];
    }
  }

  /** A PNG conversion and a JPEG conversion under default directories never write the same file. */
  lemma DefaultOutputsDisjoint(scriptDir: string, pngName: string, jpegName: string)
    ensures OutputPath(DefaultDestinationDir(Png, scriptDir), pngName)
         != OutputPath(DefaultDestinationDir(Jpeg, scriptDir), jpegName)
  {
    var p := OutputPath(DefaultDestinationDir(Png, scriptDir), pngName);
    var j := OutputPath(DefaultDestinationDir(Jpeg, scriptDir), jpegName);
    assert p[|scriptDir| + 11] == 'p';
    assert j[|scriptDir| + 11] == 'j';
  }

  /**
    What one conversion asks of the image library: it reads `file`, writes a WebP file named after
    `fileName` inside `destinationDir`, at quality 85 for PNG and at the encoder default for JPEG.
  */
  lemma ConvertRequest(kind: ConverterKind, file: string, fileName: string, destinationDir: string)
    requires IsDirPrefix(destinationDir) && '/' !in fileName
    ensures Convert(kind, file, fileName, destinationDir).source == file
    ensures Convert(kind, file, fileName, destinationDir).outputPath[..|destinationDir|] == destinationDir
    ensures FileName(Convert(kind, file, fileName, destinationDir).outputPath) == fileName
    ensures Convert(kind, file, fileName, destinationDir).quality == if kind == Png then Some(85) else None
  {
    var r := Convert(kind, file, fileName, destinationDir);
    assert r.outputPath == OutputPath(destinationDir, fileName);
    OutputPathNamesFile(destinationDir, fileName);
  }
}
