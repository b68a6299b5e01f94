/** Contact extraction and identity verification around the language model
    (src/hcp_crawler/services/llm_service.py). The chat call and `json.loads` are oracles
    in `Actors`; what is modelled is the prompt input, the reply decoding and the results
    built on success and on every kind of failure. */
module LlmService {
  import opened Strings
  import opened Schemas
  import opened SearchService

  /** Page text budget of the extraction prompt, in characters. */
  const ExtractionTextLimit: nat := 6000

  /** Page text budget of the verification prompt, in characters. */
  const VerificationTextLimit: nat := 3000

  /** The three backticks that mark a fenced code block. */
  const Fence: string := "```"

  /** `{}` */
  const EmptyObject: Json := JObject(map[])

  // ---------------------------------------------------------------- reply decoding

  /** The slice from the first `{` to the last `}`, both included, when the last `}` comes
      after the first `{`. */
  function BraceSlice(content: string): (r: Option<string>)
    ensures r.Some? ==>
      Find(content, '{') >= 0 && RFind(content, '}') > Find(content, '{')
      && r.value == content[Find(content, '{')..RFind(content, '}') + 1]
  {
    var start := Find(content, '{');
    var end := RFind(content, '}') + 1;
    if start >= 0 && end > start then Some(content[start..end]) else None
  }

  /** The slice exists exactly when some `{` precedes some `}`. */
  lemma BraceSliceExists(content: string)
    ensures BraceSlice(content).Some? <==>
      exists i, j :: 0 <= i < j < |content| && content[i] == '{' && content[j] == '}'
  {
    if exists i, j :: 0 <= i < j < |content| && content[i] == '{' && content[j] == '}' {
      var i, j :| 0 <= i < j < |content| && content[i] == '{' && content[j] == '}';
      assert Find(content, '{') <= i;
      assert RFind(content, '}') >= j;
    }
  }

  /** The slice starts with a `{` and ends with a `}`, with no `{` before it and no `}`
      after it in the content. */
  lemma BraceSliceShape(content: string)
    requires BraceSlice(content).Some?
    ensures var s := BraceSlice(content).value;
      |s| >= 2 && s[0] == '{' && s[|s| - 1] == '}'
    ensures forall k :: 0 <= k < Find(content, '{') ==> content[k] != '{'
    ensures forall k :: RFind(content, '}') < k < |content| ==> content[k] != '}'
  {
  }

  /** `_parse_json_response`: no content or empty content decodes to `{}`; otherwise the
      content is decoded directly; if that fails and the content holds a fence, the brace
      slice is decoded, and a failure there is raised (`Err`); otherwise `{}`. */
  function ParseJsonResponse(content: Option<string>, loads: string -> Decoded): (r: Result<Json, string>)
    ensures content.None? || content == Some("") ==> r == Ok(EmptyObject)
    ensures content.Some? && content.value != "" && loads(content.value).Decoded? ==>
      r == Ok(loads(content.value).value)
    ensures (content.Some? && content.value != "" && loads(content.value).DecodeError?
             && !Contains(content.value, Fence)) ==> r == Ok(EmptyObject)
  {
    match content
    case None => Ok(EmptyObject)
    case Some(text) =>
      if text == "" then Ok(EmptyObject)
      else match loads(text)
        case Decoded(v) => Ok(v)
        case DecodeError(_) =>
          if Contains(text, Fence) then
            match BraceSlice(text)
            case Some(slice) =>
              (match loads(slice)
               case Decoded(v) => Ok(v)
               case DecodeError(m) => Err(m))
            case None => Ok(EmptyObject)
          else Ok(EmptyObject)
  }

  /** The fenced fallback: content that does not decode but holds a fence decodes to its
      brace slice when there is one (raising when that slice does not decode), and to `{}`
      when there is none. Only a bad brace slice makes the parse raise. */
  lemma FencedFallback(text: string, loads: string -> Decoded)
    requires text != "" && loads(text).DecodeError? && Contains(text, Fence)
    ensures BraceSlice(text).None? ==> ParseJsonResponse(Some(text), loads) == Ok(EmptyObject)
    ensures BraceSlice(text).Some? && loads(BraceSlice(text).value).Decoded? ==>
      ParseJsonResponse(Some(text), loads) == Ok(loads(BraceSlice(text).value).value)
    ensures ParseJsonResponse(Some(text), loads).Err? <==>
      BraceSlice(text).Some? && loads(BraceSlice(text).value).DecodeError?
  {
  }

  /** The parse raises only on fenced content whose direct decode and brace-slice decode
      both fail. */
  lemma ParseRaisesOnlyOnBadSlice(content: Option<string>, loads: string -> Decoded)
    ensures ParseJsonResponse(content, loads).Err? ==>
      content.Some? && content.value != "" && loads(content.value).DecodeError?
      && Contains(content.value, Fence) && BraceSlice(content.value).Some?
      && loads(BraceSlice(content.value).value).DecodeError?
      && ParseJsonResponse(content, loads).error == loads(BraceSlice(content.value).value).message
  {
  }

  // ---------------------------------------------------------------- prompts

  /** `" ".join(p for p in [first, middle, last] if p)` */
  function FullName(hcp: HCPInput): string {
    Join(NonEmpty([hcp.firstName, hcp.middleName, hcp.lastName]), " ")
  }

  /** The name is the non-empty name parts, in order, separated by single spaces. */
  lemma FullNameParts(hcp: HCPInput)
    ensures hcp.middleName == "" && hcp.lastName == "" ==> FullName(hcp) == hcp.firstName
    ensures hcp.firstName != "" && hcp.middleName != "" && hcp.lastName != "" ==>
      FullName(hcp) == hcp.firstName + " " + hcp.middleName + " " + hcp.lastName
    ensures hcp.firstName != "" && hcp.middleName == "" && hcp.lastName != "" ==>
      FullName(hcp) == hcp.firstName + " " + hcp.lastName
  {
    var parts := NonEmpty([hcp.firstName, hcp.middleName, hcp.lastName]);
    NonEmptyOfThree(hcp.firstName, hcp.middleName, hcp.lastName);
    if hcp.firstName != "" && hcp.middleName != "" && hcp.lastName != "" {
      assert parts == [hcp.firstName, hcp.middleName, hcp.lastName];
      assert parts[..2] == [hcp.firstName, hcp.middleName];
      assert parts[..2][..1] == [hcp.firstName];
      assert Join(parts[..2], " ") == hcp.firstName + " " + hcp.middleName;
    }
    if hcp.firstName != "" && hcp.middleName == "" && hcp.lastName != "" {
      assert parts == [hcp.firstName, hcp.lastName];
      assert parts[..1] == [hcp.firstName];
    }
  }

  /** Filtering three parts keeps each non-empty one, in order. */
  lemma NonEmptyOfThree(a: string, b: string, c: string)
    ensures NonEmpty([a, b, c]) ==
      (if a == "" then [] else [a]) + (if b == "" then [] else [b]) + (if c == "" then [] else [c])
  {
    assert [a, b, c][1..] == [b, c];
    assert [b, c][1..] == [c];
    assert [c][1..] == [];
    assert NonEmpty([c]) == if c == "" then [] else [c];
    assert NonEmpty([b, c]) == (if b == "" then [] else [b]) + NonEmpty([c]);
  }

  /** The user message of the extraction call. */
  function ExtractionMessage(hcp: HCPInput, pageText: string): string {
    "Healthcare Provider: " + FullName(hcp) + "\n"
    + "Location: " + hcp.city + ", " + hcp.stateCode + "\n\n"
    + "Web page text:\n" + Take(pageText, ExtractionTextLimit)
  }

  /** The user message of the verification call. */
  function VerificationMessage(hcp: HCPInput, extracted: ExtractedContact, pageText: string): string {
    "Known HCP Details:\n"
    + "  Name: " + FullName(hcp) + "\n"
    + "  City: " + hcp.city + "\n"
    + "  State: " + hcp.stateCode + "\n"
    + "  Address: " + hcp.addressLine1 + " " + hcp.addressLine2 + "\n\n"
    + "Extracted Contact:\n"
    + "  Phone: " + extracted.phone + "\n"
    + "  Email: " + extracted.email + "\n"
    + "  Address: " + extracted.fullAddress + "\n"
    + "  Source: " + extracted.sourceUrl + "\n\n"
    + "Page context (first 3000 chars):\n" + Take(pageText, VerificationTextLimit)
  }

  /** The message ends with the page text cut to its budget. */
  lemma MessagesEndWithPageText(hcp: HCPInput, extracted: ExtractedContact, pageText: string)
    ensures EndsWith(ExtractionMessage(hcp, pageText), Take(pageText, ExtractionTextLimit))
    ensures EndsWith(VerificationMessage(hcp, extracted, pageText), Take(pageText, VerificationTextLimit))
  {
  }

  // ---------------------------------------------------------------- calls

  /** A chat call and the decoding of its reply: the decoded value, or the message of the
      exception raised on the way. */
  function Reply(actors: Actors, prompt: Prompt, message: string): (r: Result<Json, string>)
    ensures actors.chat(prompt, message).CallFailed? ==> r == Err(actors.chat(prompt, message).message)
    ensures actors.chat(prompt, message).Replied? ==>
      r == ParseJsonResponse(actors.chat(prompt, message).content, actors.loads)
  {
    match actors.chat(prompt, message)
    case CallFailed(m) => Err(m)
    case Replied(content) => ParseJsonResponse(content, actors.loads)
  }

  /** Python's name for the type of a decoded JSON value. */
  function TypeName(v: Json): string {
    match v
    case JNull => "NoneType"
    case JBool(_) => "bool"
    case JInt(_) => "int"
    case JFloat(_) => "float"
    case JString(_) => "str"
    case JArray(_) => "list"
    case JObject(_) => "dict"
  }

  /** The `AttributeError` raised by `.get` on a decoded value that is not an object. */
  function NoGetMessage(v: Json): string {
    "'" + TypeName(v) + "' object has no attribute 'get'"
  }

  /** `ExtractedContact(phone=..., email=..., full_address=..., source_url=...)` from the
      decoded reply: each of the three keys defaults to "", and every value must be a string
      (anything else is a validation error, `None`). */
  function ContactOf(v: Json, sourceUrl: string): (r: Option<ExtractedContact>)
    ensures r.Some? <==>
      v.JObject?
      && Get(v.fields, "phone", JString("")).JString?
      && Get(v.fields, "email", JString("")).JString?
      && Get(v.fields, "full_address", JString("")).JString?
    ensures r.Some? ==>
      r.value.sourceUrl == sourceUrl
      && r.value.phone == Get(v.fields, "phone", JString("")).s
      && r.value.email == Get(v.fields, "email", JString("")).s
      && r.value.fullAddress == Get(v.fields, "full_address", JString("")).s
  {
    match v
    case JObject(fields) =>
      var phone := Get(fields, "phone", JString(""));
      var email := Get(fields, "email", JString(""));
      var address := Get(fields, "full_address", JString(""));
      if phone.JString? && email.JString? && address.JString? then
        Some(ExtractedContact(phone.s, email.s, address.s, sourceUrl))
      else None
    case _ => None
  }

  /** `extract_contact`: the contact the model's reply describes, or, on any failure (the
      call, the decoding, a reply that is not an object or has a non-string field), the
      empty contact for the same source URL. */
  function ExtractContact(actors: Actors, pageText: string, hcp: HCPInput, sourceUrl: string): (c: ExtractedContact)
    ensures c.sourceUrl == sourceUrl
  {
    match Reply(actors, ExtractionPrompt, ExtractionMessage(hcp, pageText))
    case Err(_) => EmptyContact(sourceUrl)
    case Ok(v) =>
      match ContactOf(v, sourceUrl)
      case Some(contact) => contact
      case None => EmptyContact(sourceUrl)
  }

  /** A reply object whose fields are strings or missing gives those fields ("" when
      missing); any failure (the call, the decoding, a reply that is not an object, a field
      that is not a string) gives the empty contact for the same source URL. */
  lemma ExtractContactOutcomes(actors: Actors, pageText: string, hcp: HCPInput, sourceUrl: string)
    ensures var reply := Reply(actors, ExtractionPrompt, ExtractionMessage(hcp, pageText));
      && (reply.Err? ==> ExtractContact(actors, pageText, hcp, sourceUrl) == EmptyContact(sourceUrl))
      && (reply.Ok? && !reply.value.JObject? ==> ExtractContact(actors, pageText, hcp, sourceUrl) == EmptyContact(sourceUrl))
      && (reply.Ok? && reply.value == EmptyObject ==> ExtractContact(actors, pageText, hcp, sourceUrl) == EmptyContact(sourceUrl))
      && (reply.Ok? && reply.value.JObject? && ContactOf(reply.value, sourceUrl).Some? ==>
            ("phone" !in reply.value.fields ==> ExtractContact(actors, pageText, hcp, sourceUrl).phone == "")
            && ("email" !in reply.value.fields ==> ExtractContact(actors, pageText, hcp, sourceUrl).email == "")
            && ("full_address" !in reply.value.fields ==> ExtractContact(actors, pageText, hcp, sourceUrl).fullAddress == ""))
      && (reply.Ok? && ContactOf(reply.value, sourceUrl).Some? ==>
            ExtractContact(actors, pageText, hcp, sourceUrl) == ContactOf(reply.value, sourceUrl).value)
      && (reply.Ok? && ContactOf(reply.value, sourceUrl).None? ==>
            ExtractContact(actors, pageText, hcp, sourceUrl) == EmptyContact(sourceUrl))
  {
  }

  /** Only the first 6000 characters of the page reach the extraction call. */
  lemma ExtractionSeesPrefix(actors: Actors, t1: string, t2: string, hcp: HCPInput, sourceUrl: string)
    requires Take(t1, ExtractionTextLimit) == Take(t2, ExtractionTextLimit)
    ensures ExtractContact(actors, t1, hcp, sourceUrl) == ExtractContact(actors, t2, hcp, sourceUrl)
  {
  }

  /** `float(x)` on a decoded value: numbers and booleans convert, strings go through the
      float parser, anything else is a `TypeError`. */
  function FloatOf(v: Json, parseFloat: string -> Option<real>): (r: Result<real, string>)
    ensures v.JInt? ==> r == Ok(v.i as real)
    ensures v.JFloat? ==> r == Ok(v.r)
    ensures v.JBool? ==> r == Ok(if v.b then 1.0 else 0.0)
    ensures v.JString? ==> (r.Ok? <==> parseFloat(v.s).Some?)
    ensures v.JNull? || v.JArray? || v.JObject? ==> r.Err?
  {
    match v
    case JInt(i) => Ok(i as real)
    case JFloat(x) => Ok(x)
    case JBool(b) => Ok(if b then 1.0 else 0.0)
    case JString(s) =>
      (match parseFloat(s)
       case Some(x) => Ok(x)
       case None => Err("could not convert string to float: '" + s + "'"))
    case _ => Err("float() argument must be a string or a real number, not '" + TypeName(v) + "'")
  }

  /** The score and reasoning read from a decoded verification reply. */
  function ScoreOf(v: Json, parseFloat: string -> Option<real>): Result<(real, Json), string> {
    match v
    case JObject(fields) =>
      (match FloatOf(Get(fields, "confidence", JInt(0)), parseFloat)
       case Ok(score) => Ok((score, Get(fields, "reasoning", JString(""))))
       case Err(m) => Err(m))
    case _ => Err(NoGetMessage(v))
  }

  /** The reasoning of a failed verification. */
  function FailureReasoning(message: string): Json {
    JString("Verification failed: " + message)
  }

  /** `verify_identity`: the reply's confidence as a number and its reasoning as decoded;
      on any failure, score 0 and "Verification failed: " followed by the error. */
  function VerifyIdentity(actors: Actors, hcp: HCPInput, extracted: ExtractedContact, pageText: string): (r: (real, Json))
    ensures Reply(actors, VerificationPrompt, VerificationMessage(hcp, extracted, pageText)).Err? ==>
      r == (0.0, FailureReasoning(Reply(actors, VerificationPrompt, VerificationMessage(hcp, extracted, pageText)).error))
  {
    match Reply(actors, VerificationPrompt, VerificationMessage(hcp, extracted, pageText))
    case Err(m) => (0.0, FailureReasoning(m))
    case Ok(v) =>
      match ScoreOf(v, actors.parseFloat)
      case Ok(result) => result
      case Err(m) => (0.0, FailureReasoning(m))
  }

  /** An object reply scores its confidence converted by `float()` (0 when missing) with its
      reasoning ("" when missing); a confidence `float()` rejects, a failed call, or a reply
      that is not an object scores 0 with "Verification failed: " and the error. */
  lemma VerifyIdentityOutcomes(actors: Actors, hcp: HCPInput, extracted: ExtractedContact, pageText: string)
    ensures var call := actors.chat(VerificationPrompt, VerificationMessage(hcp, extracted, pageText));
      var reply := Reply(actors, VerificationPrompt, VerificationMessage(hcp, extracted, pageText));
      var r := VerifyIdentity(actors, hcp, extracted, pageText);
      && (call.CallFailed? ==> r == (0.0, FailureReasoning(call.message)))
      && (reply.Ok? && !reply.value.JObject? ==> r == (0.0, FailureReasoning(NoGetMessage(reply.value))))
      && (reply.Ok? && reply.value.JObject? && "confidence" !in reply.value.fields ==> r.0 == 0.0)
      && (reply.Ok? && reply.value.JObject? && "reasoning" !in reply.value.fields && FloatOf(Get(reply.value.fields, "confidence", JInt(0)), actors.parseFloat).Ok?
          ==> r.1 == JString(""))
      && (reply.Ok? && reply.value.JObject? && "confidence" in reply.value.fields && reply.value.fields["confidence"].JInt?
          ==> r.0 == reply.value.fields["confidence"].i as real)
      && (reply.Ok? && reply.value.JObject? ==>
            var f := FloatOf(Get(reply.value.fields, "confidence", JInt(0)), actors.parseFloat);
            && (f.Err? ==> r == (0.0, FailureReasoning(f.error)))
            && (f.Ok? ==> r == (f.value, Get(reply.value.fields, "reasoning", JString("")))))
  {
  }

  /** Only the first 3000 characters of the page reach the verification call. */
  lemma VerificationSeesPrefix(actors: Actors, hcp: HCPInput, extracted: ExtractedContact, t1: string, t2: string)
    requires Take(t1, VerificationTextLimit) == Take(t2, VerificationTextLimit)
    ensures VerifyIdentity(actors, hcp, extracted, t1) == VerifyIdentity(actors, hcp, extracted, t2)
  {
  }
}
