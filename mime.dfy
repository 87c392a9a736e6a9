/**
  The two MIME-type decisions of `Converter`: the allow-list that `checkFileProcessable`
  tests, and the `match` in `selectFileConverter` that picks a format converter.
*/
module Mime {
  import opened Wrappers

  /** `Converter::MIME_TYPES`. */
  const MimeTypes: seq<string> := ["image/jpeg", "image/png"]

  /** `in_array($mime_type, self::MIME_TYPES)`. Loose comparison of two non-numeric strings is plain equality. */
  predicate IsProcessable(mimeType: string) {
    mimeType in MimeTypes
  }

  /** The two converter classes; neither has state, so each is identified by its class alone. */
  datatype ConverterKind = Jpeg | Png

  /** The `match` of `selectFileConverter`; `None` is its `default => null` arm. */
  function SelectConverter(mimeType: string): Option<ConverterKind> {
    if mimeType == "image/jpeg" || mimeType == "image/jpg" then Some(Jpeg)
    else if mimeType == "image/png" then Some(Png)
    else None
  }

  /** The selection table, read in each direction: which strings reach which converter, and which reach none. */
  lemma SelectionTable(mimeType: string)
    ensures SelectConverter(mimeType) == Some(Jpeg) <==> mimeType in {"image/jpeg", "image/jpg"}
    ensures SelectConverter(mimeType) == Some(Png) <==> mimeType == "image/png"
    ensures SelectConverter(mimeType) == None <==> mimeType !in {"image/jpeg", "image/jpg", "image/png"}
  {
  }

  /**
    The allow-list is the selection table minus `image/jpg`: every allowed type has a converter,
    so the `null` converter can never follow a passed check.
  */
  lemma AllowListWithinSelection(mimeType: string)
    ensures IsProcessable(mimeType) <==> SelectConverter(mimeType).Some? && mimeType != "image/jpg"
  {
  }

  /** `image/jpg` is listed by the `match` but never passes the allow-list. */
  lemma JpgSelectedButRejected()
    ensures SelectConverter("image/jpg") == Some(Jpeg)
    ensures !IsProcessable("image/jpg")
  {
  }

  /** The converter an allowed type is sent to. */
  function KindOf(mimeType: string): ConverterKind {
    if mimeType == "image/png" then Png else Jpeg
  }

  /** Among allowed types, PNG goes to the PNG converter and everything else to the JPEG one. */
  lemma AllowedKind(mimeType: string)
    requires IsProcessable(mimeType)
    ensures SelectConverter(mimeType) == Some(KindOf(mimeType))
  {
  }
}
