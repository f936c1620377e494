/** src/errors/pipedriveErrorHandler.ts: the `PipedriveApiError` record and the
    priority-ordered classifier that turns any failure of a Pipedrive call into one. */
module PipedriveErrors {
  import opened Wrappers
  import opened Json

  /** The parts of a thrown error the classifier inspects. `undefined` is `None`;
      `asString` is what `${error}` renders the whole error as. */
  datatype RawError = RawError(
    code: Option<string>,
    isAxiosError: bool,
    status: Option<int>,
    data: Option<Value>,
    message: Option<string>,
    asString: string)

  /** `errorDetails`: either the original error or the HTTP response body. */
  datatype Details = Cause(error: RawError) | ResponseData(data: Option<Value>)

  /** `PipedriveApiError`: a message, an optional HTTP status and the details. */
  datatype ApiError = ApiError(message: string, statusCode: Option<int>, errorDetails: Details)
  {
    const name: string := "PipedriveApiError"
  }

  /** `${x}` of an optional string or number. */
  function RenderText(s: Option<string>): string {
    match s
    case None => "undefined"
    case Some(t) => t
  }

  function RenderStatus(s: Option<int>): string {
    match s
    case None => "undefined"
    case Some(n) => IntToString(n)
  }

  /** The text a 400 response reports: `data.error` when the body is an object
      with an `error` key, the Axios message otherwise. */
  function BadRequestText(e: RawError): (r: string)
    ensures r == RenderText(e.message) ||
      (e.data.Some? && e.data.value.Obj? && "error" in e.data.value.fields && r == Stringify(e.data.value.fields["error"]))
    ensures e.data.Some? && e.data.value.Obj? && "error" in e.data.value.fields ==>
      r == Stringify(e.data.value.fields["error"])
  {
    match e.data
    case Some(Obj(fields)) => if "error" in fields then Stringify(fields["error"]) else RenderText(e.message)
    case _ => RenderText(e.message)
  }

  /** `error.message || error` for errors that are not Axios errors. */
  function UnexpectedText(e: RawError): (r: string)
    ensures Some(r) == e.message || r == e.asString
    ensures r == e.asString <==> e.message.None? || e.message.value == "" || e.message.value == e.asString
  {
    if e.message.Some? && e.message.value != "" then e.message.value else e.asString
  }

  /** `handlePipedriveApiError`: connection codes first, then timeouts, then the
      HTTP status of an Axios error, and everything else as unexpected. */
  function HandlePipedriveApiError(e: RawError, operation: string): (r: ApiError)
    ensures r.statusCode == (if Classify(e).FromResponse() then e.status else None)
    ensures r.errorDetails == (if Classify(e).FromResponse() then ResponseData(e.data) else Cause(e))
  {
    if e.code == Some("ENOTFOUND") || e.code == Some("ECONNREFUSED") || e.code == Some("ENETUNREACH") then
      ApiError("Network connectivity issue during " + operation + ": " + RenderText(e.message), None, Cause(e))
    else if e.code == Some("ECONNABORTED") || e.code == Some("ETIMEDOUT") then
      ApiError("Request timeout during " + operation + ": " + RenderText(e.message), None, Cause(e))
    else if e.isAxiosError then
      var details := ResponseData(e.data);
      match e.status
      case Some(401) =>
        ApiError("Authentication failed during " + operation + ": Invalid API token", Some(401), details)
      case Some(403) =>
        ApiError("Access forbidden during " + operation + ": Insufficient permissions", Some(403), details)
      case Some(400) =>
        ApiError("Bad request during " + operation + ": " + BadRequestText(e), Some(400), details)
      case Some(404) =>
        ApiError("Resource not found during " + operation + ": " + RenderText(e.message), Some(404), details)
      case Some(429) =>
        ApiError("Rate limit exceeded during " + operation + ": Too many requests", Some(429), details)
      case Some(500) =>
        ApiError("Internal server error during " + operation + ": " + RenderText(e.message), Some(500), details)
      case Some(503) =>
        ApiError("Service unavailable during " + operation + ": " + RenderText(e.message), Some(503), details)
      case _ =>
        ApiError("API request failed during " + operation + " with status " + RenderStatus(e.status)
                   + ": " + RenderText(e.message), e.status, details)
    else
      ApiError("Unexpected error during " + operation + ": " + UnexpectedText(e), None, Cause(e))
  }

  function HandlePersonSearchError(e: RawError): (r: ApiError)
    ensures StatedAs(r.message, Classify(e), "person search")
  {
    MessageSpelling(e, "person search");
    HandlePipedriveApiError(e, "person search")
  }

  function HandlePersonCreateError(e: RawError): (r: ApiError)
    ensures StatedAs(r.message, Classify(e), "person creation")
  {
    MessageSpelling(e, "person creation");
    HandlePipedriveApiError(e, "person creation")
  }

  function HandlePersonUpdateError(e: RawError): (r: ApiError)
    ensures StatedAs(r.message, Classify(e), "person update")
  {
    MessageSpelling(e, "person update");
    HandlePipedriveApiError(e, "person update")
  }

  // ---------------------------------------------------------------------------
  // Reference classification

  /** The eleven outcomes the classifier distinguishes. */
  datatype Kind =
    | Network | Timeout
    | Unauthorized | Forbidden | BadRequest | NotFound | RateLimited | ServerError | Unavailable
    | OtherStatus
    | Unexpected
  {
    /** Outcomes taken from an HTTP response, which carry its status and body. */
    predicate FromResponse() {
      !(this.Network? || this.Timeout? || this.Unexpected?)
    }

    /** The fixed opening of the message, up to the operation label. */
    function Lead(): string {
      match this
      case Network => "Network connectivity issue during "
      case Timeout => "Request timeout during "
      case Unauthorized => "Authentication failed during "
      case Forbidden => "Access forbidden during "
      case BadRequest => "Bad request during "
      case NotFound => "Resource not found during "
      case RateLimited => "Rate limit exceeded during "
      case ServerError => "Internal server error during "
      case Unavailable => "Service unavailable during "
      case OtherStatus => "API request failed during "
      case Unexpected => "Unexpected error during "
    }
  }

  /** Error codes of a connection that could not be made. */
  predicate IsNetworkCode(code: Option<string>) {
    code == Some("ENOTFOUND") || code == Some("ECONNREFUSED") || code == Some("ENETUNREACH")
  }

  /** Error codes of a connection that timed out. */
  predicate IsTimeoutCode(code: Option<string>) {
    code == Some("ECONNABORTED") || code == Some("ETIMEDOUT")
  }

  /** Which outcome an error gets, by priority: connection codes, timeout codes,
      then (for Axios errors only) the response status. */
  function Classify(e: RawError): (r: Kind)
    ensures IsNetworkCode(e.code) ==> r == Network
    ensures IsTimeoutCode(e.code) ==> r == Timeout
    ensures r == Unexpected <==> !IsNetworkCode(e.code) && !IsTimeoutCode(e.code) && !e.isAxiosError
    ensures r.FromResponse() <==> !IsNetworkCode(e.code) && !IsTimeoutCode(e.code) && e.isAxiosError
  {
    if IsNetworkCode(e.code) then Network
    else if IsTimeoutCode(e.code) then Timeout
    else if !e.isAxiosError then Unexpected
    else if e.status == Some(401) then Unauthorized
    else if e.status == Some(403) then Forbidden
    else if e.status == Some(400) then BadRequest
    else if e.status == Some(404) then NotFound
    else if e.status == Some(429) then RateLimited
    else if e.status == Some(500) then ServerError
    else if e.status == Some(503) then Unavailable
    else OtherStatus
  }

  /** The part of the message after the operation label. */
  function Tail(e: RawError): string {
    match Classify(e)
    case Unauthorized => ": Invalid API token"
    case Forbidden => ": Insufficient permissions"
    case RateLimited => ": Too many requests"
    case BadRequest => ": " + BadRequestText(e)
    case OtherStatus => " with status " + RenderStatus(e.status) + ": " + RenderText(e.message)
    case Unexpected => ": " + UnexpectedText(e)
    case _ => ": " + RenderText(e.message)
  }

  predicate StatedAs(message: string, k: Kind, operation: string) {
    k.Lead() + operation <= message
  }

  /** Every message is the outcome's opening, the operation, then the tail. */
  lemma MessageSpelling(e: RawError, operation: string)
    ensures HandlePipedriveApiError(e, operation).message == Classify(e).Lead() + operation + Tail(e)
  {
    var a := Classify(e).Lead() + operation;
    if e.code == Some("ENOTFOUND") || e.code == Some("ECONNREFUSED") || e.code == Some("ENETUNREACH") {
      assert Classify(e) == Network;
      Regroup(a, ": ", RenderText(e.message));
    } else if e.code == Some("ECONNABORTED") || e.code == Some("ETIMEDOUT") {
      assert Classify(e) == Timeout;
      Regroup(a, ": ", RenderText(e.message));
    } else {
      AxiosSpelling(e, operation);
    }
  }

  lemma AxiosSpelling(e: RawError, operation: string)
    requires !IsNetworkCode(e.code) && !IsTimeoutCode(e.code)
    ensures HandlePipedriveApiError(e, operation).message == Classify(e).Lead() + operation + Tail(e)
  {
    var a := Classify(e).Lead() + operation;
    if !e.isAxiosError {
      Regroup(a, ": ", UnexpectedText(e));
    } else if e.status in {Some(401), Some(403), Some(429)} {
      QuietStatusSpelling(e, operation);
    } else if e.status == Some(400) {
      Regroup(a, ": ", BadRequestText(e));
    } else if e.status in {Some(404), Some(500), Some(503)} {
      ExplainedStatusSpelling(e, operation);
    } else {
      Regroup(a, " with status ", RenderStatus(e.status));
      Regroup(a, " with status " + RenderStatus(e.status), ": ");
      Regroup(a, " with status " + RenderStatus(e.status) + ": ", RenderText(e.message));
    }
  }

  lemma QuietStatusSpelling(e: RawError, operation: string)
    requires !IsNetworkCode(e.code) && !IsTimeoutCode(e.code) && e.isAxiosError
    requires e.status in {Some(401), Some(403), Some(429)}
    ensures HandlePipedriveApiError(e, operation).message == Classify(e).Lead() + operation + Tail(e)
  {
  }

  lemma ExplainedStatusSpelling(e: RawError, operation: string)
    requires !IsNetworkCode(e.code) && !IsTimeoutCode(e.code) && e.isAxiosError
    requires e.status in {Some(404), Some(500), Some(503)}
    ensures HandlePipedriveApiError(e, operation).message == Classify(e).Lead() + operation + Tail(e)
  {
    Regroup(Classify(e).Lead() + operation, ": ", RenderText(e.message));
  }

  lemma Regroup(a: string, b: string, c: string)
    ensures a + b + c == a + (b + c)
  {
  }

  /** The message names the operation, right after the headline. */
  lemma MessageNamesOperation(e: RawError, operation: string)
    ensures var m := HandlePipedriveApiError(e, operation).message;
            var i := |Classify(e).Lead()|;
            i + |operation| <= |m| && m[i..i + |operation|] == operation
  {
    MessageSpelling(e, operation);
  }

  // ---------------------------------------------------------------------------
  // Reading the outcome back from a message

  /** Every outcome, in the order the classifier tries them. */
  const AllKinds: seq<Kind> :=
    [Network, Timeout, Unauthorized, Forbidden, BadRequest, NotFound,
     RateLimited, ServerError, Unavailable, OtherStatus, Unexpected]

  /** The first outcome of `ks` whose opening starts `message`. */
  function KindAmong(message: string, ks: seq<Kind>): (r: Option<Kind>)
    ensures r.Some? ==> r.value in ks && r.value.Lead() <= message
  {
    if |ks| == 0 then None
    else if ks[0].Lead() <= message then Some(ks[0])
    else KindAmong(message, ks[1..])
  }

  /** The outcome a message reports, read from its opening words. */
  function KindOfMessage(message: string): Option<Kind> {
    KindAmong(message, AllKinds)
  }

  /** The first three letters of an opening already tell the outcomes apart. */
  function KindOfInitials(a: char, b: char, c: char): Option<Kind> {
    match (a, b, c)
    case ('N', 'e', 't') => Some(Network)
    case ('R', 'e', 'q') => Some(Timeout)
    case ('A', 'u', 't') => Some(Unauthorized)
    case ('A', 'c', 'c') => Some(Forbidden)
    case ('B', 'a', 'd') => Some(BadRequest)
    case ('R', 'e', 's') => Some(NotFound)
    case ('R', 'a', 't') => Some(RateLimited)
    case ('I', 'n', 't') => Some(ServerError)
    case ('S', 'e', 'r') => Some(Unavailable)
    case ('A', 'P', 'I') => Some(OtherStatus)
    case ('U', 'n', 'e') => Some(Unexpected)
    case _ => None
  }

  predicate InitialsIdentified(k: Kind) {
    |k.Lead()| >= 3 && KindOfInitials(k.Lead()[0], k.Lead()[1], k.Lead()[2]) == Some(k)
  }

  lemma InitialsIdentify(k: Kind)
    ensures InitialsIdentified(k)
  {
    if k.Network? || k.Timeout? || k.Unexpected? {
      TransportInitials(k);
    } else if k.ServerError? || k.Unavailable? || k.OtherStatus? {
      ServerInitials(k);
    } else {
      ClientInitials(k);
    }
  }

  lemma TransportInitials(k: Kind)
    requires k.Network? || k.Timeout? || k.Unexpected?
    ensures InitialsIdentified(k)
  {
  }

  lemma ServerInitials(k: Kind)
    requires k.ServerError? || k.Unavailable? || k.OtherStatus?
    ensures InitialsIdentified(k)
  {
  }

  lemma ClientInitials(k: Kind)
    requires k.Unauthorized? || k.Forbidden? || k.BadRequest? || k.NotFound? || k.RateLimited?
    ensures InitialsIdentified(k)
  {
  }

  /** No outcome's opening is a prefix of another outcome's message. */
  lemma LeadsExclusive(k: Kind, other: Kind, rest: string)
    requires k != other
    ensures !(other.Lead() <= k.Lead() + rest)
  {
    var m := k.Lead() + rest;
    InitialsIdentify(k);
    InitialsIdentify(other);
    assert m[0] == k.Lead()[0] && m[1] == k.Lead()[1] && m[2] == k.Lead()[2];
  }

  lemma {:induction false} KindAmongFinds(k: Kind, ks: seq<Kind>, rest: string)
    requires k in ks
    ensures KindAmong(k.Lead() + rest, ks) == Some(k)
  {
    if ks[0] != k {
      LeadsExclusive(k, ks[0], rest);
      KindAmongFinds(k, ks[1..], rest);
    }
  }

  /** The message alone tells which outcome the classifier chose. */
  lemma MessageDeterminesKind(e: RawError, operation: string)
    ensures KindOfMessage(HandlePipedriveApiError(e, operation).message) == Some(Classify(e))
  {
    var k := Classify(e);
    MessageSpelling(e, operation);
    Regroup(k.Lead(), operation, Tail(e));
    KindAmongFinds(k, AllKinds, operation + Tail(e));
  }

  /** Errors reported with the same message were classified alike, whatever the operation. */
  lemma SameMessageSameKind(e1: RawError, op1: string, e2: RawError, op2: string)
    requires HandlePipedriveApiError(e1, op1).message == HandlePipedriveApiError(e2, op2).message
    ensures Classify(e1) == Classify(e2)
  {
    MessageDeterminesKind(e1, op1);
    MessageDeterminesKind(e2, op2);
  }

  /** The three wrappers report the same error under three different messages. */
  lemma WrappersDistinguishOperations(e: RawError)
    ensures HandlePersonSearchError(e).message != HandlePersonCreateError(e).message
    ensures HandlePersonSearchError(e).message != HandlePersonUpdateError(e).message
    ensures HandlePersonCreateError(e).message != HandlePersonUpdateError(e).message
  {
    var i := |Classify(e).Lead()| + 7;
    MessageNamesOperation(e, "person search");
    MessageNamesOperation(e, "person creation");
    MessageNamesOperation(e, "person update");
    assert HandlePersonSearchError(e).message[i] == 's';
    assert HandlePersonCreateError(e).message[i] == 'c';
    assert HandlePersonUpdateError(e).message[i] == 'u';
  }

  /** A connection failure or a timeout outranks whatever HTTP status the error also carries. */
  lemma CodesOutrankStatus(e: RawError, operation: string)
    requires IsNetworkCode(e.code) || IsTimeoutCode(e.code)
    ensures var r := HandlePipedriveApiError(e, operation);
            && KindOfMessage(r.message) == Some(if IsNetworkCode(e.code) then Network else Timeout)
            && r.statusCode == None
            && r.errorDetails == Cause(e)
  {
    MessageDeterminesKind(e, operation);
  }
}
