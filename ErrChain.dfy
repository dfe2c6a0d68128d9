/**
 * Errors with a chain of causes, and the `errorchain` routine of
 * src/blunder/errchain.rs that writes those causes to a formatter.
 */
module ErrChain {
  import opened Wrappers

  /**
   * An error as `std::error::Error` exposes it: its own display text and the
   * display texts of its `source()` chain, nearest cause first. The chain is finite.
   */
  datatype Error = Error(message: string, sources: seq<string>) {

    /** anyhow's `chain()`: the error itself, then every source in order. */
    function Chain(): (r: seq<string>)
      ensures |r| == 1 + |sources| && r[0] == message && r[1..] == sources
    {
      [message] + sources
    }

    /** anyhow's `context`/`with_context`: a new top message whose causes are this whole chain. */
    function Context(ctx: string): (r: Error)
      ensures r.message == ctx && r.sources == Chain()
    {
      Error(ctx, Chain())
    }
  }

  /** `Context::with_context` on a result: a success passes through, a failure gets `ctx` on top of its chain. */
  function WithContext<T>(r: Result<T, Error>, ctx: string): (c: Result<T, Error>)
    ensures r.Ok? ==> c == r
    ensures r.Err? ==> c.Err? && c.error.message == ctx && c.error.sources == r.error.Chain()
  {
    match r
    case Ok(v) => Ok(v)
    case Err(e) => Err(e.Context(ctx))
  }

  /** `anyhow!(msg)`: an error with no source. */
  function Plain(msg: string): (r: Error)
    ensures r.message == msg && r.sources == []
  {
    Error(msg, [])
  }

  /**
   * The causes `errorchain` reports: the sources before the first one whose
   * text equals the error's own text.
   */
  function Reported(error: Error): (r: seq<string>)
    ensures |r| <= |error.sources| && r == error.sources[..|r|]
    ensures forall k :: 0 <= k < |r| ==> r[k] != error.message
    ensures |r| < |error.sources| ==> error.sources[|r|] == error.message
  {
    TakeUntil(error.sources, error.message)
  }

  function TakeUntil(causes: seq<string>, stop: string): (r: seq<string>)
    ensures |r| <= |causes| && r == causes[..|r|]
    ensures forall k :: 0 <= k < |r| ==> r[k] != stop
    ensures |r| < |causes| ==> causes[|r|] == stop
  {
    if causes == [] || causes[0] == stop then []
    else [causes[0]] + TakeUntil(causes[1..], stop)
  }

  /** One line `writeln!(f, "Caused by:\n\t{}", cause)` writes. */
  function CauseLine(cause: string): string {
    "Caused by:\n\t" + cause + "\n"
  }

  function CauseLines(causes: seq<string>): string {
    if causes == [] then "" else CauseLines(causes[..|causes| - 1]) + CauseLine(causes[|causes| - 1])
  }

  /** Everything `errorchain` writes to a formatter that accepts every write. */
  function ChainText(error: Error): string {
    CauseLines(Reported(error))
  }

  /** An error without a source writes nothing. */
  lemma NoSourceWritesNothing(error: Error)
    requires error.sources == []
    ensures ChainText(error) == ""
  {
  }

  /** When no cause repeats the error's text, every cause is written, in chain order. */
  lemma AllCausesWritten(error: Error)
    requires error.message !in error.sources
    ensures ChainText(error) == CauseLines(error.sources)
  {
    var r := Reported(error);
    assert r == error.sources[..|error.sources|] == error.sources;
  }

  /** A first cause equal to the error's text stops the walk at once: nothing is written. */
  lemma RepeatedFirstCauseWritesNothing(error: Error)
    requires |error.sources| > 0 && error.sources[0] == error.message
    ensures ChainText(error) == ""
  {
    assert Reported(error) == [];
  }

  /**
   * `errorchain(error, f)` over a formatter that accepts its first `accepted`
   * writes and fails the next one. Returns the text written and whether the
   * result is `Ok(())`.
   */
  method WriteErrorChain(error: Error, accepted: nat) returns (written: string, ok: bool)
    ensures ok <==> |Reported(error)| <= accepted
    ensures ok ==> written == ChainText(error)
    ensures !ok ==> written == CauseLines(Reported(error)[..accepted])
  {
    written, ok := "", true;
    var i := 0;
    while i < |error.sources|
      invariant i <= |error.sources| && i <= accepted
      invariant forall k :: 0 <= k < i ==> error.sources[k] != error.message
      invariant i <= |Reported(error)| && Reported(error)[..i] == error.sources[..i]
      invariant written == CauseLines(error.sources[..i])
    {
      var cause := error.sources[i];
      if cause == error.message {
        break;
      }
      if i == accepted {
        ok := false;
        return;
      }
      assert error.sources[..i + 1][..i] == error.sources[..i];
      written := written + CauseLine(cause);
      i := i + 1;
    }
    assert Reported(error) == error.sources[..i];
  }
}
