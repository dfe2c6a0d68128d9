/** The runtime environment selection of src/configuration/setting.rs. */
module Setting {
  import opened Wrappers
  import opened Strings

  datatype Environment = Local | Production

  function AsStr(e: Environment): (s: string)
    ensures IsLower(s)
  {
    match e
    case Local => "local"
    case Production => "production"
  }

  /** The rejection text: the input as given, then the two accepted names. */
  function Unsupported(s: string): string {
    s + " is not a supported environment. Use either 'local' or 'production'"
  }

  /** `TryFrom<String> for Environment`: the lowercased input must name a variant. */
  function ParseEnvironment(s: string): (r: Result<Environment, string>)
    ensures r.Ok? <==> Lower(s) == "local" || Lower(s) == "production"
    ensures r.Ok? ==> AsStr(r.value) == Lower(s)
    ensures r.Err? ==> r.error == Unsupported(s)
  {
    match Lower(s)
    case "local" => Ok(Local)
    case "production" => Ok(Production)
    case _ => Err(Unsupported(s))
  }

  /**
   * `APP_ENVIRONMENT`: the parameter is `env::var(..).ok()`, so `None` covers
   * both an unset variable and one whose value is not valid Unicode; either
   * selects "local".
   */
  function EnvironmentFromVar(appEnvironment: Option<string>): (r: Result<Environment, string>)
    ensures appEnvironment.None? ==> r == Ok(Local)
    ensures appEnvironment.Some? ==> r == ParseEnvironment(appEnvironment.value)
  {
    ParseEnvironment(appEnvironment.GetOr("local"))
  }

  /** The environment-specific configuration file. */
  function EnvironmentFileName(e: Environment): (name: string)
    ensures |name| > 5 && name[..|name| - 5] == AsStr(e) && name[|name| - 5..] == ".yaml"
  {
    AsStr(e) + ".yaml"
  }

  /** Every variant parses back from its own name. */
  lemma ParseAsStr(e: Environment)
    ensures ParseEnvironment(AsStr(e)) == Ok(e)
  {
    LowerOfLower(AsStr(e));
  }

  /** Parsing ignores letter case. */
  lemma {:induction false} ParseIgnoresCase(s: string, t: string)
    requires Lower(s) == Lower(t)
    ensures ParseEnvironment(s).Ok? == ParseEnvironment(t).Ok?
    ensures ParseEnvironment(s).Ok? ==> ParseEnvironment(s) == ParseEnvironment(t)
  {
  }

  /** A rejected input is quoted unchanged, not lowercased, at the start of the message. */
  lemma RejectionQuotesInput(s: string)
    requires ParseEnvironment(s).Err?
    ensures ParseEnvironment(s).error[..|s|] == s
  {
  }

  lemma ExampleUpperCaseAccepted()
    ensures ParseEnvironment("PRODUCTION") == Ok(Production)
    ensures ParseEnvironment("Local") == Ok(Local)
  {
    assert Lower("PRODUCTION") == "production";
    assert Lower("Local") == "local";
  }
}
