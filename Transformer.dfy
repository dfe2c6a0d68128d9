/**
 * The upload form and its validated domain form, and the conversion between
 * them (src/dto/transformer/document/thinktank.rs).
 */
module Transformer {
  import opened Wrappers
  import opened Blunder
  import opened Generally

  /** The multipart upload form, text fields already decoded. */
  datatype UploadRequest = UploadRequest(
    file: TempFile, name: string, uuid: string, date: string,
    title: string, owner: string, range: string, source: string)

  /** The validated upload. */
  datatype UploadDomainRequest = UploadDomainRequest(
    file: DocumentFile, name: DocumentName, uuid: string, date: string,
    head: string, hold: string, area: string, stem: string)

  /**
   * `TryFrom<UploadRequest> for UploadDomainRequest`: the temp file is
   * validated first, then the form's name field; the text fields are renamed.
   */
  function ToDomain(req: UploadRequest): (r: Result<UploadDomainRequest, ParseError>)
    ensures r.Ok? <==> ParseFile(req.file).Ok? && ParseName(req.name).Ok?
    ensures ParseFile(req.file).Err? ==> r == Err(ParseFile(req.file).error)
    ensures ParseFile(req.file).Ok? && ParseName(req.name).Err? ==> r == Err(ParseName(req.name).error)
    ensures r.Ok? ==> r.value.file == ParseFile(req.file).value && r.value.name == ParseName(req.name).value
    ensures r.Ok? ==> r.value.name.name == req.name
    ensures r.Ok? ==> r.value.uuid == req.uuid && r.value.date == req.date
    ensures r.Ok? ==> r.value.head == req.title && r.value.hold == req.owner
    ensures r.Ok? ==> r.value.area == req.range && r.value.stem == req.source
  {
    var file :- ParseFile(req.file);
    var name :- ParseName(req.name);
    Ok(UploadDomainRequest(file, name, req.uuid, req.date, req.title, req.owner, req.range, req.source))
  }

  /** Conversion fails only with the two errors a name can produce. */
  lemma ToDomainErrors(req: UploadRequest)
    requires ToDomain(req).Err?
    ensures ToDomain(req).error == MissingFileName || ToDomain(req).error == InvalidExtension
    ensures ToDomain(req).error == MissingFileName <==> req.file.fileName.None?
  {
  }

  /** With a missing file name and an invalid name field, the file's error wins. */
  lemma FileCheckedFirst(req: UploadRequest)
    requires req.file.fileName.None?
    requires ParseName(req.name).Err?
    ensures ToDomain(req) == Err(MissingFileName)
  {
  }

  /** The domain name is the form's name field, even when the temp file's own name differs. */
  lemma NameFromForm(req: UploadRequest, fileKind: Extension, formKind: Extension)
    requires req.file.fileName == Some(ExtensionName(fileKind))
    requires req.name == ExtensionName(formKind)
    ensures ToDomain(req).Ok?
    ensures ToDomain(req).value.name == DocumentName(ExtensionName(formKind), formKind)
    ensures ToDomain(req).value.file.name == DocumentName(ExtensionName(fileKind), fileKind)
  {
    BareSuffixParses(fileKind);
    BareSuffixParses(formKind);
  }
}
