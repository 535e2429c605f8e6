/**
  The error type of every command (`AppError`), its wire codes and the two
  JSON envelopes: the failure envelope of `to_json` and `success_json`.
 */
module Errors {
  import Json

  /** The seven variants; the payload of `IoError`/`JsonError` is the cause's display text. */
  datatype AppError =
    | Duplicate(front: string)
    | NotFound(prefix: string)
    | AmbiguousId(prefix: string)
    | NoDataFile(path: string)
    | InvalidInput(reason: string)
    | IoError(cause: string)
    | JsonError(cause: string)

  /** `Result<T, AppError>` */
  datatype Result<+T> = Ok(value: T) | Err(error: AppError)

  /** The six strings a client can see in the `error` field. */
  const WireCodes: set<string> :=
    {"duplicate", "not_found", "ambiguous_id", "no_data_file", "invalid_input", "io_error"}

  /**
    `AppError::code`: total over the variants. Read and parse failures share
    "io_error"; every other variant has a code of its own.
   */
  function Code(e: AppError): (code: string)
    ensures code in WireCodes
    ensures code == "io_error" <==> e.IoError? || e.JsonError?
    ensures e.Duplicate? ==> code == "duplicate"
    ensures e.NotFound? ==> code == "not_found"
    ensures e.AmbiguousId? ==> code == "ambiguous_id"
    ensures e.NoDataFile? ==> code == "no_data_file"
    ensures e.InvalidInput? ==> code == "invalid_input"
  {
    match e
    case Duplicate(_) => "duplicate"
    case NotFound(_) => "not_found"
    case AmbiguousId(_) => "ambiguous_id"
    case NoDataFile(_) => "no_data_file"
    case InvalidInput(_) => "invalid_input"
    case IoError(_) | JsonError(_) => "io_error"
  }

  /** Two errors share a code only when they are the same variant, or both are read/parse failures. */
  lemma CodeSeparatesVariants(e1: AppError, e2: AppError)
    requires Code(e1) == Code(e2)
    ensures e1.Duplicate? <==> e2.Duplicate?
    ensures e1.NotFound? <==> e2.NotFound?
    ensures e1.AmbiguousId? <==> e2.AmbiguousId?
    ensures e1.NoDataFile? <==> e2.NoDataFile?
    ensures e1.InvalidInput? <==> e2.InvalidInput?
    ensures e1.IoError? || e1.JsonError? <==> e2.IoError? || e2.JsonError?
  {
  }

  /** Every one of the six wire codes is produced by some error. */
  lemma CodeReachesEveryWireCode(code: string)
    requires code in WireCodes
    ensures exists e :: Code(e) == code
  {
    if code == "duplicate" {
      assert Code(Duplicate("")) == code;
    } else if code == "not_found" {
      assert Code(NotFound("")) == code;
    } else if code == "ambiguous_id" {
      assert Code(AmbiguousId("")) == code;
    } else if code == "no_data_file" {
      assert Code(NoDataFile("")) == code;
    } else if code == "invalid_input" {
      assert Code(InvalidInput("")) == code;
    } else {
      assert Code(IoError("")) == code;
    }
  }

  /** The human-readable message (the `#[error(...)]` display strings). */
  function Message(e: AppError): string {
    match e
    case Duplicate(front) => "Duplicate item: front '" + front + "' already exists"
    case NotFound(prefix) => "Item '" + prefix + "' not found"
    case AmbiguousId(prefix) => "Ambiguous ID '" + prefix + "': matches multiple items"
    case NoDataFile(path) => "Data file not found: " + path
    case InvalidInput(reason) => "Invalid input: " + reason
    case IoError(cause) => "IO error: " + cause
    case JsonError(cause) => "JSON error: " + cause
  }

  /** The text an error carries: the front, the prefix, the path, the reason or the cause. */
  function Payload(e: AppError): string {
    match e
    case Duplicate(front) => front
    case NotFound(prefix) => prefix
    case AmbiguousId(prefix) => prefix
    case NoDataFile(path) => path
    case InvalidInput(reason) => reason
    case IoError(cause) => cause
    case JsonError(cause) => cause
  }

  /** The words each message starts with, before the error's text. */
  function Lead(e: AppError): string {
    match e
    case Duplicate(_) => "Duplicate item: front '"
    case NotFound(_) => "Item '"
    case AmbiguousId(_) => "Ambiguous ID '"
    case NoDataFile(_) => "Data file not found: "
    case InvalidInput(_) => "Invalid input: "
    case IoError(_) => "IO error: "
    case JsonError(_) => "JSON error: "
  }

  /** Every message starts with the words of its variant and then quotes the error's text. */
  lemma MessageCarriesPayload(e: AppError)
    ensures |Lead(e)| + |Payload(e)| <= |Message(e)|
    ensures Message(e)[..|Lead(e)|] == Lead(e)
    ensures Message(e)[|Lead(e)|..|Lead(e)| + |Payload(e)|] == Payload(e)
  {
    var lead, p, m := Lead(e), Payload(e), Message(e);
    var tail := m[|lead| + |p|..];
    assert m == lead + p + tail by {
      match e
      case Duplicate(_) =>
      case NotFound(_) =>
      case AmbiguousId(_) =>
      case NoDataFile(_) =>
      case InvalidInput(_) =>
      case IoError(_) =>
      case JsonError(_) =>
    }
    assert (lead + p + tail)[..|lead|] == lead;
    assert (lead + p + tail)[|lead|..|lead| + |p|] == p;
  }

  /** `AppError::to_json`: the failure envelope. */
  function ToJson(e: AppError): (envelope: Json.Value)
    ensures envelope.Object? && envelope.fields.Keys == {"ok", "error", "message"}
    ensures envelope.fields["ok"] == Json.Bool(false)
    ensures envelope.fields["error"].Str? && envelope.fields["error"].s in WireCodes
    ensures envelope.fields["error"] == Json.Str(Code(e))
  {
    Json.Object(map["ok" := Json.Bool(false), "error" := Json.Str(Code(e)), "message" := Json.Str(Message(e))])
  }

  /** `success_json`: the success envelope, carrying the data unchanged. */
  function SuccessJson(data: Json.Value): (envelope: Json.Value)
    ensures envelope.Object? && envelope.fields.Keys == {"ok", "data"}
    ensures envelope.fields["ok"] == Json.Bool(true)
    ensures envelope.fields["data"] == data
  {
    Json.Object(map["ok" := Json.Bool(true), "data" := data])
  }

  /** The `ok` flag tells the two envelopes apart, and `success_json` loses nothing of its data. */
  lemma EnvelopesAreDistinguishable(e: AppError, data: Json.Value, data': Json.Value)
    ensures ToJson(e) != SuccessJson(data)
    ensures SuccessJson(data) == SuccessJson(data') ==> data == data'
  {
    assert ToJson(e).fields["ok"] != SuccessJson(data).fields["ok"];
    if SuccessJson(data) == SuccessJson(data') {
      assert SuccessJson(data).fields["data"] == SuccessJson(data').fields["data"];
    }
  }
}
