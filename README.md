# SimpleConverterToWebP — a Dafny model of the conversion pipeline

The PHP script `index.php` converts every file in an `images/` directory to WebP. One
`Converter` object handles the whole batch. For each path, `processFile` does the following:

1. records the path;
2. asks libmagic for the MIME type;
3. rejects any type outside the allow-list `MIME_TYPES` = {`image/jpeg`, `image/png`};
4. derives the file name (`pathinfo(..., PATHINFO_FILENAME)`);
5. picks `JpegConverter` or `PngConverter` with a `match`;
6. has the chosen converter write `<destination dir><file name>.webp`.

The top-level loop prints one line per file. That line is either `File <name> processed` or the
message of the exception the call threw.

This project models that routing, naming and state logic:

- `wrappers.dfy`: `Option`, plus `Field`, the content of a PHP typed property. Such a property
  is `Uninitialized` until it is first assigned.
- `paths.dfy` (module `Paths`): `basename` and `pathinfo(..., PATHINFO_FILENAME)` for `/`-separated
  paths. Each function's result is characterised by a lemma: the longest suffix without a
  separator, cut at the last `.`. Further lemmas compute the name for `dir/stem.ext`.
- `mime.dfy` (module `Mime`): the allow-list and the `match` of `selectFileConverter`, with
  lemmas relating the two.
- `formats.dfy` (module `Formats`): each converter's `convert`, reduced to the encode request it
  makes. The request holds the source path, the output path and the quality: 85 for PNG, and the
  encoder default for JPEG.
- `converter.dfy` (module `ConverterCore`): `Process`, the effect of one `processFile` call on
  the object's four properties, with lemmas on rejection, acceptance and the unreachable `null`
  branch. It also holds the class `Converter`. Its methods assign the properties in the order
  the PHP does. `ProcessFile` is proved to match `Process`; `CheckFileProcessable`,
  `LoadFileName` and `SelectFileConverter` are proved against their own postconditions, which
  say what each one assigns.
- `batch.dfy` (module `Batch`): the script's `foreach` loop as the method `RunBatch`. It is
  proved against the specification function `RunFrom`. Lemmas about `RunFrom` cover one line per
  file, which files are converted, which line each file gets, and when the script ends early.

The MIME type that `mime_content_type` reports is an oracle parameter `mimeOf: string -> string`.
The script's directory `__DIR__` is a parameter `scriptDir`.

Behaviour of the code that the model keeps:

- The allow-list has only `image/jpeg` and `image/png`. `image/jpg` is listed in the `match` but
  is always rejected first.
- The name is derived after the type check. So a rejection message names whatever `$fileName`
  already held: the file name of the last file that passed the allow-list.
- On the very first call `$fileName` has never been assigned. Reading it raises PHP's `Error`,
  which is not an `Exception`, so `catch (Exception $e)` does not catch it and the script ends.
  `FreshRunAbortsIffFirstRejected` proves this happens exactly when the first listed file is
  rejected. `NamedConverterNeverAborts` proves that, in the model, no rejection after the first
  accepted file stops the loop. The model assumes every decode succeeds; in PHP a file that
  passes the MIME check but cannot be decoded also ends the script (see "Left out").
- The object keeps its state between calls. Quality is fixed: 85 for PNG, no argument for JPEG.
  Decoder and encoder failures are not checked.

## Model

| member | source | states |
|---|---|---|
| `Mime.IsProcessable` | index.php:59-106 | `in_array($mime_type, self::MIME_TYPES)`: membership in the allow-list `MimeTypes` = [`image/jpeg`, `image/png`]; its meaning is stated by `Mime.AllowListWithinSelection` and `Mime.JpgSelectedButRejected` |
| `Mime.SelectConverter` | index.php:117-124 | the `match` of `selectFileConverter`; what it maps each string to is stated by `Mime.SelectionTable` |
| `Paths.FileName` | index.php:95 | `pathinfo($file, PATHINFO_FILENAME)`; stated by `Paths.FileNameSpec`, `Paths.FileNameOfPath` and the three `*Spec` lemmas |
| `Formats.OutputPath` | index.php:12 | `$destinationDir . $fileName . '.webp'` (also index.php:46); stated by `Formats.OutputPathNamesFile` and `Formats.OutputPathInjective` |
| `Formats.PngConvert` | index.php:10-38 | `PngConverter::convert` as the encode request it makes: the given file, the output path, quality 85; stated by `Formats.ConvertRequest` |
| `Formats.JpegConvert` | index.php:44-54 | `JpegConverter::convert` as the encode request it makes: the given file, the output path, no quality argument; stated by `Formats.ConvertRequest` |
| `Formats.Convert` | index.php:88 | `$this->fileConverter->convert(...)` dispatched on the selected converter; stated by `Formats.ConvertRequest` |
| `ConverterCore.Process` | index.php:75-111 | one `processFile` call on the object's four properties, including the private steps it chains; stated by `ConverterCore.RejectionLeavesNameAndConverter`, `ConverterCore.AcceptedFileIsConverted` and `ConverterCore.NotSupportedUnreachable` |
| `ConverterCore.Message` | index.php:85-110 | the texts of the two exceptions (lines 85 and 110) and of PHP's uninitialised-property `Error`; used by `Batch.RejectionNamesPreviousFile` |
| `Batch.ReportLine` | index.php:136-138 | the line printed for a processed file or a caught exception |
| `Batch.RunFrom` | index.php:133-139 | the `foreach` with its `try`/`catch` from a given object state; stated by the `Batch` lemmas below |
| `Paths.StripTrailingSlashesSpec` | index.php:95 | `basename` first drops trailing `/`: the result is the longest prefix of the path that does not end in `/` |
| `Paths.LastSegmentSpec` | index.php:95 | the base name is the longest suffix without `/`, and it is preceded by a `/` unless it is the whole path |
| `Paths.DropExtensionSpec` | index.php:95 | `PATHINFO_FILENAME` cuts the base name at its last `.`; a name without `.` is kept whole; no `.` follows the cut |
| `Paths.FileNameSpec` | index.php:95 | the derived file name is a prefix of the base name and never contains `/` |
| `Paths.FileNameOfPath` | index.php:95 | for `dir/stem.ext` with `ext` free of `.` and `/`, the derived name is `stem` (so `photo.jpg` gives `photo`, `a.b.png` gives `a.b`) |
| `Paths.FileNameWithoutExtension` | index.php:95 | a last segment without `.` is the derived name as a whole |
| `Mime.SelectionTable` | index.php:117-124 | `image/jpeg` and `image/jpg` select the JPEG converter, `image/png` the PNG converter, and every other string `null`; each in both directions |
| `Mime.AllowListWithinSelection` | index.php:102-124 | a type passes the allow-list exactly when the `match` selects a converter for it and it is not `image/jpg` |
| `Mime.JpgSelectedButRejected` | index.php:120 | `image/jpg` is matched to the JPEG converter but is never on the allow-list |
| `Mime.AllowedKind` | index.php:119-121 | an allowed type goes to the PNG converter when it is `image/png`, otherwise to the JPEG converter |
| `Formats.DefaultDestinationDir` | index.php:10-44 | each default destination directory ends in `/`, so the file name is appended as a new path segment |
| `Formats.OutputPathNamesFile` | index.php:10-46 | the file written, `destinationDir . fileName . '.webp'`, has `fileName` as its derived name again |
| `Formats.OutputPathInjective` | index.php:46 | in one directory two outputs coincide exactly when their file names do |
| `Formats.DefaultOutputsDisjoint` | index.php:10-44 | with default directories, a PNG output and a JPEG output are never the same file |
| `Formats.ConvertRequest` | index.php:10-50 | a conversion reads the given file, writes inside `destinationDir` a file named after `fileName`, and encodes at 85 for PNG and at the encoder default for JPEG |
| `ConverterCore.Rejection` | index.php:110 | the rejection is an `Exception` exactly when `$fileName` is already assigned; otherwise it is PHP's uninitialised-property `Error` |
| `ConverterCore.RejectionLeavesNameAndConverter` | index.php:102-111 | `processFile` fails exactly when the detected type is off the allow-list. Then no converter runs, only `$file` and `$mime_type` change, and the message names the stale `$fileName` |
| `ConverterCore.AcceptedFileIsConverted` | index.php:75-91 | on an allowed type, `processFile` returns the derived name and issues one encode request into the default directory of the selected format. The request's output is named after the returned name, at the format's quality |
| `ConverterCore.NotSupportedUnreachable` | index.php:84-86 | the "not supported by convertors" exception is never thrown |
| `ConverterCore.FileNameStaysInitialized` | index.php:93-110 | once `$fileName` is assigned it stays assigned, so every later failure is a catchable `Exception` |
| `ConverterCore.Converter.constructor` | index.php:64-70 | a new `Converter` has none of its four typed properties assigned |
| `ConverterCore.Converter.ProcessFile` | index.php:75-91 | assigns `$file`, then runs check, name and selection in order, then converts. The new properties, result and request are those of `Process` |
| `ConverterCore.Converter.CheckFileProcessable` | index.php:102-111 | records the detected type and fails exactly when it is off the allow-list, with the failure built from the `$fileName` already held |
| `ConverterCore.Converter.LoadFileName` | index.php:93-97 | `$fileName` becomes the derived name of `$file`, nothing else changes |
| `ConverterCore.Converter.SelectFileConverter` | index.php:117-124 | `$fileConverter` becomes the `match` result for `$mime_type`, nothing else changes |
| `Batch.RunBatch` | index.php:131-139 | a fresh `Converter`, the banner, then the lines and encode requests that `RunFrom` gives; it reports whether the loop ran to the end |
| `Batch.OneLinePerFile` | index.php:133-139 | a run that reaches its end prints exactly one line per listed file; a run that ends early prints fewer |
| `Batch.NamedConverterNeverAborts` | index.php:133-139 | once `$fileName` is assigned, no later file can end the script: every failure is caught and the loop goes on |
| `Batch.FreshRunAbortsIffFirstRejected` | index.php:131-139 | from a new `Converter` the script ends early exactly when the first listed file is rejected; then only the banner has been printed and nothing converted |
| `Batch.RequestsAreAcceptedFiles` | index.php:133-139 | a run that reaches its end converts exactly the allowed files, each once, in listing order, each with its own format's request |
| `Batch.LinesAsExpected` | index.php:133-139 | the line printed for each file is `File <name> processed` for an allowed file. For a rejected file it is the rejection message naming the last allowed file before it |
| `Batch.RejectionNamesPreviousFile` | index.php:104-110 | a rejected file listed right after an allowed one is reported under the allowed file's name |

## Left out

- The GD image work (`imagecreatefrompng`, `imagecreatefromjpeg`, `imagecreatetruecolor`, alpha
  blending and saving, the transparent fill, `imagecopyresampled`, `imagewebp`, `imagedestroy`)
  is a foreign library. Each conversion is only the encode request it makes. The transparent
  canvas that the PNG path draws on is not modelled.
- `mime_content_type` is the oracle `mimeOf`. When it fails, PHP returns `false`, and assigning
  that to the `string` property coerces it to `""`. Such a file is then an ordinary rejected type,
  and the oracle covers it by returning `""`.
- `glob` is the input sequence `rawFiles`. `print_r` is the returned sequence of printed strings.
  The text PHP prints for the uncaught `Error` is not modelled: the run only reports that it
  ended early.
- Batch.NamedConverterNeverAborts, Batch.FreshRunAbortsIffFirstRejected: the model assumes every
  decode succeeds. In PHP, when a file passes the MIME check but cannot be decoded (a truncated
  PNG, say), `imagecreatefrompng` or `imagecreatefromjpeg` returns `false`. The next call,
  `imagesx(false)` or `imagewebp(false, ...)`, then raises a `TypeError`. That is an `Error`, not
  an `Exception`, so `catch (Exception $e)` does not catch it and the script ends there too. The
  image library is not part of this model, so these two lemmas cover only the `Error` from the
  unassigned `$fileName`.
- Encode failures of the image library and missing or read-only destination directories are not
  modelled. The code checks none of them; `imagewebp` reports them by returning `false`, which the
  code ignores.
- A quality setting from the command line is not modelled. The code has no such option; quality
  is fixed inside each converter.
- `basename` under a locale that is not ASCII-compatible (PHP then scans with `mblen`) and `\`
  as a separator are not modelled. Paths are `/`-separated character strings.
- The `ConvertableFile` interface adds no behaviour. The two converters are a two-valued
  `ConverterKind`, since they carry no state.
