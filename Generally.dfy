/** File-name and extension parsing of src/domain/request/document/generally.rs. */
module Generally {
  import opened Wrappers
  import opened Strings
  import opened Blunder

  /** The five supported document kinds. */
  datatype Extension = Doc | Pdf | Xls | Docx | Xlsx

  /** The lowercase suffix each kind is written with. */
  function ExtensionName(e: Extension): (s: string)
    ensures IsLower(s)
  {
    match e
    case Doc => "doc"
    case Pdf => "pdf"
    case Xls => "xls"
    case Docx => "docx"
    case Xlsx => "xlsx"
  }

  /** `TryFrom<&str> for Extension`: the lowercased text must be one of the five suffixes. */
  function ParseExtension(s: string): (r: Result<Extension, ParseError>)
    ensures r.Ok? <==> Lower(s) in {"doc", "pdf", "xls", "docx", "xlsx"}
    ensures r.Ok? ==> ExtensionName(r.value) == Lower(s)
    ensures r.Err? ==> r.error == InvalidExtension
  {
    match Lower(s)
    case "doc" => Ok(Doc)
    case "pdf" => Ok(Pdf)
    case "xls" => Ok(Xls)
    case "docx" => Ok(Docx)
    case "xlsx" => Ok(Xlsx)
    case _ => Err(InvalidExtension)
  }

  /** An uploaded document's display name, kept as given, with its parsed extension. */
  datatype DocumentName = DocumentName(name: string, extension: Extension)

  /**
   * `DocumentName::parse`: the extension is the text after the last '.' of the
   * lowercased name (the whole name when it has no '.'); the name is stored unchanged.
   */
  function ParseName(s: string): (r: Result<DocumentName, ParseError>)
    ensures r.Ok? ==> r.value.name == s
    ensures r.Ok? <==> ParseExtension(LastPiece(s, '.')).Ok?
    ensures r.Ok? ==> r.value.extension == ParseExtension(LastPiece(s, '.')).value
    ensures r.Err? ==> r.error == InvalidExtension
  {
    var piece := LastPiece(Lower(s), '.');
    LowerLastPiece(s);
    ParseExtensionOfLower(LastPiece(s, '.'));
    var extension :- ParseExtension(piece);
    Ok(DocumentName(s, extension))
  }

  /** Only the lowercased text matters to ParseExtension. */
  lemma ParseExtensionOfLower(s: string)
    ensures ParseExtension(Lower(s)) == ParseExtension(s)
  {
    LowerIdempotent(s);
  }

  /** Lowercasing before or after cutting at the last '.' gives the same text. */
  lemma {:induction false} LowerLastPiece(s: string)
    ensures LastPiece(Lower(s), '.') == Lower(LastPiece(s, '.'))
    decreases |s|
  {
    if s != [] {
      var init, last := s[..|s| - 1], s[|s| - 1];
      assert s == init + [last];
      LowerSnoc(init, last);
      LowerLastPiece(init);
      LastPieceSnoc(init, last, '.');
      LastPieceSnoc(Lower(init), LowerChar(last), '.');
      if last != '.' {
        LowerSnoc(LastPiece(init, '.'), last);
      }
    }
  }

  /** The temporary file of a multipart upload; only its optional client file name matters here. */
  datatype TempFile = TempFile(fileName: Option<string>)

  datatype DocumentFile = DocumentFile(name: DocumentName, file: TempFile)

  /** `DocumentFile::parse`: the temp file must carry a name, which must parse. */
  function ParseFile(t: TempFile): (r: Result<DocumentFile, ParseError>)
    ensures t.fileName.None? ==> r == Err(MissingFileName)
    ensures t.fileName.Some? ==> r.Ok? == ParseName(t.fileName.value).Ok?
    ensures t.fileName.Some? && r.Ok? ==> r.value == DocumentFile(ParseName(t.fileName.value).value, t)
    ensures t.fileName.Some? && r.Err? ==> r.error == ParseName(t.fileName.value).error
  {
    var fileName :- t.fileName.OkOr(MissingFileName);
    var name :- ParseName(fileName);
    Ok(DocumentFile(name, t))
  }

  /** Every kind parses back from its suffix, in any letter case. */
  lemma ExtensionRoundTrip(e: Extension, s: string)
    requires Lower(s) == ExtensionName(e)
    ensures ParseExtension(s) == Ok(e)
  {
  }

  /** `rsplit('.').next()` always yields a piece, so a name never fails with MissingExtension. */
  lemma NeverMissingExtension(s: string, t: TempFile)
    ensures ParseName(s) != Err(MissingExtension)
    ensures ParseFile(t) != Err(MissingExtension)
  {
    var name := ParseName(s);
    assert name.Err? ==> name.error == InvalidExtension;
    var file := ParseFile(t);
    if t.fileName.Some? {
      var other := ParseName(t.fileName.value);
      assert other.Err? ==> other.error == InvalidExtension;
      assert file.Err? ==> file.error == other.error;
    }
  }

  /** A name ending in '.' has an empty extension and is rejected. */
  lemma TrailingDotRejected(s: string)
    requires |s| > 0 && s[|s| - 1] == '.'
    ensures ParseName(s) == Err(InvalidExtension)
  {
    assert LastPiece(s, '.') == "";
  }

  /** A name without '.' is taken whole as the extension. */
  lemma DotlessNameIsExtension(s: string)
    requires '.' !in s
    ensures ParseName(s).Ok? <==> ParseExtension(s).Ok?
  {
    LastPieceNoSep(s, '.');
  }

  /** A bare suffix, with no stem and no '.', is a valid name of its own kind. */
  lemma BareSuffixParses(e: Extension)
    ensures ParseName(ExtensionName(e)) == Ok(DocumentName(ExtensionName(e), e))
  {
    var s := ExtensionName(e);
    assert '.' !in s;
    LastPieceNoSep(s, '.');
    LowerOfLower(s);
    ExtensionRoundTrip(e, s);
    assert ParseExtension(LastPiece(s, '.')) == Ok(e);
  }

  /** A dot-less name that is not a suffix fails with InvalidExtension. */
  lemma ExampleBareWord()
    ensures ParseName("report") == Err(InvalidExtension)
  {
    LastPieceNoSep("report", '.');
    assert Lower("report") == "report";
  }

  /** Only the text after the last '.' counts, in any letter case. */
  lemma ExampleUpperCaseSuffix()
    ensures ParseName("Audit.Report.DOCX") == Ok(DocumentName("Audit.Report.DOCX", Docx))
  {
    LastPieceUnique("Audit.Report.DOCX", '.', "DOCX");
    assert Lower("DOCX") == "docx";
  }
}
