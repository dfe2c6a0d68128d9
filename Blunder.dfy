/** The error kinds of src/blunder/document.rs and the HTTP status each maps to. */
module Blunder {
  import opened ErrChain

  /** Why an uploaded document's name could not be parsed. */
  datatype ParseError = MissingFileName | MissingExtension | InvalidExtension

  /** The `#[error(...)]` text of each parse error. */
  function ParseMessage(e: ParseError): (m: string)
    ensures m != ""
  {
    match e
    case MissingFileName => "文件名缺失"
    case MissingExtension => "扩展名缺失"
    case InvalidExtension => "扩展名无效"
  }

  /** A parse error has no source. */
  function ParseAsError(e: ParseError): (r: Error)
    ensures r.message == ParseMessage(e) && r.sources == []
  {
    Plain(ParseMessage(e))
  }

  /** The error the document handler returns. */
  datatype DocumentError =
    | ValidationError(parse: ParseError)   // `#[from] ParseError`
    | UnexpectedError(inner: Error)        // `#[from] anyhow::Error`, transparent

  const ValidationPrefix: string := "文档解析错误: "

  /**
   * The error-trait view of a DocumentError. A validation error displays its
   * prefix and the parse message and has the parse error as its source; an
   * unexpected error is transparent, so text and sources are the wrapped error's.
   */
  function DocumentAsError(d: DocumentError): Error {
    match d
    case ValidationError(p) => Error(ValidationPrefix + ParseMessage(p), [ParseMessage(p)])
    case UnexpectedError(e) => e
  }

  /** `Display` of a DocumentError. */
  function DocumentMessage(d: DocumentError): string {
    DocumentAsError(d).message
  }

  /** `ResponseError::status_code`. */
  function StatusCode(d: DocumentError): (code: int)
    ensures code == 400 <==> d.ValidationError?
    ensures code == 500 <==> d.UnexpectedError?
  {
    match d
    case ValidationError(_) => 400
    case UnexpectedError(_) => 500
  }

  /** `Debug` of a ParseError: what `errorchain` writes for it. */
  function ParseDebug(e: ParseError): string {
    ChainText(ParseAsError(e))
  }

  /** `Debug` of a DocumentError: what `errorchain` writes for it. */
  function DocumentDebug(d: DocumentError): string {
    ChainText(DocumentAsError(d))
  }

  /** The three parse errors are told apart by their messages. */
  lemma ParseMessagesDistinct(a: ParseError, b: ParseError)
    ensures ParseMessage(a) == ParseMessage(b) <==> a == b
  {
  }

  /** A validation error displays as the prefix followed by the parse message. */
  lemma ValidationDisplay(p: ParseError)
    ensures DocumentMessage(ValidationError(p)) == ValidationPrefix + ParseMessage(p)
    ensures DocumentMessage(ValidationError(p))[|ValidationPrefix|..] == ParseMessage(p)
  {
  }

  /** An unexpected error displays exactly as the wrapped error. */
  lemma UnexpectedIsTransparent(e: Error)
    ensures DocumentMessage(UnexpectedError(e)) == e.message
    ensures DocumentDebug(UnexpectedError(e)) == ChainText(e)
  {
  }

  /** A parse error has no cause, so its Debug output is empty. */
  lemma ParseDebugIsEmpty(e: ParseError)
    ensures ParseDebug(e) == ""
  {
  }

  /** The Debug output of a validation error names its parse error as the one cause. */
  lemma {:induction false} ValidationDebug(p: ParseError)
    ensures DocumentDebug(ValidationError(p)) == "Caused by:\n\t" + ParseMessage(p) + "\n"
  {
    var err := DocumentAsError(ValidationError(p));
    assert |err.message| > |ParseMessage(p)|;
    AllCausesWritten(err);
    assert [ParseMessage(p)][..0] == [];
  }
}
