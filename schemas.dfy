/** The records that flow through the pipeline (models/schemas.py), the two
    configuration values the core reads (config.py), the JSON values a language-model
    reply decodes to, and the oracles that stand for every external actor. */
module Schemas {

  datatype Option<+T> = None | Some(value: T)

  datatype Result<+T, +E> = Ok(value: T) | Err(error: E)

  /** One identity row from the uploaded spreadsheet; every field but the project id defaults to "". */
  datatype HCPInput = HCPInput(
    projectId: string,
    firstName: string,
    middleName: string,
    lastName: string,
    addressLine1: string,
    addressLine2: string,
    city: string,
    stateCode: string)

  /** The contact details the language model pulled out of one page. */
  datatype ExtractedContact = ExtractedContact(
    phone: string,
    email: string,
    fullAddress: string,
    sourceUrl: string)

  /** `ExtractedContact(source_url=url)`: every other field is "". */
  function EmptyContact(sourceUrl: string): (c: ExtractedContact)
    ensures c.sourceUrl == sourceUrl && c.phone == "" && c.email == "" && c.fullAddress == ""
  {
    ExtractedContact("", "", "", sourceUrl)
  }

  datatype MatchStatus = Found | Partial | NotFound | Processing | Error

  datatype JobStatus = Pending | JobProcessing | Completed | Failed

  /** The decoded form of a JSON document, as `json.loads` returns it
      (integers and non-integers are distinct Python types). */
  datatype Json =
    | JNull
    | JBool(b: bool)
    | JInt(i: int)
    | JFloat(r: real)
    | JString(s: string)
    | JArray(items: seq<Json>)
    | JObject(fields: map<string, Json>)

  /** `d.get(key, default)` on a decoded JSON object. */
  function Get(fields: map<string, Json>, key: string, default: Json): (v: Json)
    ensures key in fields ==> v == fields[key]
    ensures key !in fields ==> v == default
  {
    if key in fields then fields[key] else default
  }

  /** The two settings the core reads, with the ranges config.py enforces. */
  datatype Settings = Settings(maxResultsPerHcp: int, confidenceThreshold: int)

  predicate ValidSettings(cfg: Settings) {
    1 <= cfg.maxResultsPerHcp <= 20 && 0 <= cfg.confidenceThreshold <= 100
  }

  /** What a search results page offers the parser: result containers (primary selectors)
      and every anchor of the page (fallback selector), in document order. An anchor is
      one that has an `href`; `h3` is the text of its first `h3` descendant, if any. */
  datatype Anchor = Anchor(href: string, h3: Option<string>)

  /** One result container: its anchors, the text of its first `h3` ("" if none) and the
      text of its first matching snippet element ("" if none). */
  datatype Container = Container(anchors: seq<Anchor>, title: string, snippet: string)

  datatype ResultsPage = ResultsPage(containers: seq<Container>, anchors: seq<Anchor>)

  /** The browser search: a rendered results page, or the exception left after its retries. */
  datatype SearchOutcome = Rendered(page: ResultsPage) | SearchRaised(message: string)

  /** The page fetch: the cleaned text and title of a loaded page, or any failure. */
  datatype FetchOutcome = Fetched(text: string, title: Option<string>) | FetchFailed

  /** Which system instruction a language-model call carries. */
  datatype Prompt = ExtractionPrompt | VerificationPrompt

  /** A chat completion: the first choice's message content (possibly null), or the raised error. */
  datatype ChatOutcome = Replied(content: Option<string>) | CallFailed(message: string)

  /** `json.loads`: a value, or the `JSONDecodeError` message. */
  datatype Decoded = Decoded(value: Json) | DecodeError(message: string)

  /** Every external actor one record's run talks to. */
  datatype Actors = Actors(
    search: string -> SearchOutcome,
    fetch: string -> FetchOutcome,
    chat: (Prompt, string) -> ChatOutcome,
    loads: string -> Decoded,
    parseFloat: string -> Option<real>)
}
