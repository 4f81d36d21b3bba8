/**
  The `/api/convert` handler in its mock phase and the `/api/health` handler.
  `ConvertText` maps the parsed request body to the response the handler returns:
  the JSON record with status 200, or `{"error": message}` with status 400 or 500.
 */
module App {
  import opened Json
  import opened PyStr
  import opened Mock

  /** Longest accepted text, counted in code points after stripping. */
  const MaxTextLength: nat := 500

  const MockStatus: string := "success_mock"

  /** A Python exception raised inside the handler's `try` block. */
  datatype Fault =
    | NoAttribute(typeName: string, attr: string)  // AttributeError
    | Unhashable(typeName: string)                 // TypeError from a dict lookup

  /** Why a request was refused. */
  datatype Rejection =
    | NoData
    | TextRequired
    | TextTooLong
    | Raised(fault: Fault)  // caught by the handler's `except Exception`
  {
    /** The HTTP status code of the refusal. */
    function Code(): int
    {
      if Raised? then 500 else 400
    }

    /** The `error` field of the refusal's JSON body; for a caught exception,
        `str(e)` in CPython 3.12 wording. */
    function Message(): string
    {
      match this
      case NoData => "No data provided"
      case TextRequired => "Text is required"
      case TextTooLong => "Text exceeds 500 characters"
      case Raised(NoAttribute(t, attr)) => "'" + t + "' object has no attribute '" + attr + "'"
      case Raised(Unhashable(t)) => "unhashable type: '" + t + "'"
    }
  }

  /** A client can tell the three validation refusals apart, and from any 500,
      by the `error` text alone. */
  lemma ValidationMessagesDistinct(r1: Rejection, r2: Rejection)
    requires r1.Code() == 400
    ensures r1.Message() == r2.Message() <==> r1 == r2
  {
    MessageMarks(r1);
    MessageMarks(r2);
  }

  /** The status code of a refusal is determined by its `error` text: 400 goes with
      exactly the three validation messages, and 500 with a caught exception. */
  lemma StatusFollowsMessage(r: Rejection)
    ensures r.Code() == 400 <==>
      r.Message() in {"No data provided", "Text is required", "Text exceeds 500 characters"}
    ensures r.Code() == 500 <==> r.Raised?
  {
    MessageMarks(r);
  }

  /** The first and sixth characters of each refusal message. */
  lemma MessageMarks(r: Rejection)
    ensures |r.Message()| > 5
    ensures r.Message()[0] == match r
      case NoData => 'N'
      case TextRequired => 'T'
      case TextTooLong => 'T'
      case Raised(NoAttribute(_, _)) => '\''
      case Raised(Unhashable(_)) => 'u'
    ensures r.TextRequired? ==> r.Message()[5] == 'i'
    ensures r.TextTooLong? ==> r.Message()[5] == 'e'
  {
  }

  datatype Response =
    | Ok(original: string, converted: string, target: Value, status: string)
    | Err(reason: Rejection)
  {
    /** The HTTP status code sent with the response. */
    function Code(): int
    {
      if Ok? then 200 else reason.Code()
    }
  }

  /** The raw `text` field the handler strips: the supplied value, or "" when absent. */
  function TextOf(fields: map<string, Value>): (v: Value)
    ensures "text" in fields ==> v == fields["text"]
    ensures "text" !in fields ==> v == Str("")
  {
    Get(fields, "text", Str(""))
  }

  /** The `target` the handler works with: the supplied value, or "boss" when absent. */
  function TargetOf(fields: map<string, Value>): (v: Value)
    ensures "target" in fields ==> v == fields["target"]
    ensures "target" !in fields ==> v == Str("boss")
  {
    Get(fields, "target", Str("boss"))
  }

  /** The handler of `POST /api/convert` on an already-parsed request body. */
  function ConvertText(data: Value): (r: Response)
    ensures r.Ok? ==> 1 <= |r.original| <= MaxTextLength && Tight(r.original)
    ensures r.Ok? ==> r.status == MockStatus && Hashable(r.target)
    ensures r.Err? && r.reason.Raised? ==> Truthy(data)
  {
    if !Truthy(data) then Err(NoData)
    else if !data.Object? then Err(Raised(NoAttribute(TypeName(data), "get")))
    else
      var raw := TextOf(data.fields);
      if !raw.Str? then Err(Raised(NoAttribute(TypeName(raw), "strip")))
      else
        var text := Strip(raw.s);
        var target := TargetOf(data.fields);
        if text == [] then Err(TextRequired)
        else if |text| > MaxTextLength then Err(TextTooLong)
        else if !Hashable(target) then Err(Raised(Unhashable(TypeName(target))))
        else Ok(text, Render(AudienceOf(target), text), target, MockStatus)
  }

  /** The handler of `GET /api/health`: a fixed report with status 200. */
  function HealthCheck(): (r: (int, map<string, string>))
    ensures r.0 == 200
    ensures r.1.Keys == {"status", "service", "version"} && r.1["status"] == "healthy"
  {
    (200, map["status" := "healthy", "service" := "BizTone Converter API", "version" := "v1.0"])
  }
}
