/** The SOAP client (lib/creditsafe/client.rb): constructor validation, `inspect`, the
    classification of the vendor messages embedded in a response, the translation of
    transport failures, the one-event-per-call bookkeeping of `invoke_soap`, and the
    unwrapping of the `find_company` and `company_report` responses.

    The transport itself is outside the model: a call's outcome arrives as a `Transport`
    value, and the clock readings and the random bytes of the transaction id are
    parameters. */
module Client {
  import opened Wrappers
  import opened Errors
  import opened Hashes
  import Messages
  import FindCompany
  import CompanyReport
  import opened HexEncoding

  // ---------------------------------------------------------------------------------------
  // Construction and inspection

  /** `Client::ENVIRONMENTS`. */
  const Environments: seq<string> := ["live", "test"]

  /** A constructed client. The Savon options are passed straight to Savon, which is
      outside the model. */
  datatype Client = Client(username: string, password: string, environment: string, logLevel: string)

  const UsernameMissing := "Username must be provided"
  const PasswordMissing := "Password must be provided"
  const EnvironmentInvalid := "Environment needs to be one of live/test"

  /** `Client.new`: username, then password, then environment are checked, and the first
      failing check decides the error. Only a nil username or password is refused; an empty
      string is accepted. */
  function New(username: Option<string>, password: Option<string>, environment: string,
               logLevel: string): (r: Result<Client, ArgumentError>)
    ensures r.Success? <==> username.Some? && password.Some? && environment in Environments
    ensures r.Success? ==>
      && r.value.username == username.value
      && r.value.password == password.value
      && r.value.environment == environment
      && r.value.logLevel == logLevel
    ensures username.None? ==> r == Failure(ArgumentError(UsernameMissing))
    ensures username.Some? && password.None? ==> r == Failure(ArgumentError(PasswordMissing))
    ensures username.Some? && password.Some? && environment !in Environments ==>
      r == Failure(ArgumentError(EnvironmentInvalid))
  {
    if username.None? then Failure(ArgumentError(UsernameMissing))
    else if password.None? then Failure(ArgumentError(PasswordMissing))
    else if environment !in Environments then Failure(ArgumentError(EnvironmentInvalid))
    else Success(Client(username.value, password.value, environment, logLevel))
  }

  const InspectPrefix := "#<Creditsafe::Client @username='"
  const InspectSuffix := "'>"

  /** `inspect`: the class name and the username only. */
  function Inspect(c: Client): (s: string)
    ensures |s| == |InspectPrefix| + |c.username| + |InspectSuffix|
    ensures s[..|InspectPrefix|] == InspectPrefix
    ensures s[|InspectPrefix|..|InspectPrefix| + |c.username|] == c.username
    ensures s[|InspectPrefix| + |c.username|..] == InspectSuffix
  {
    InspectPrefix + c.username + InspectSuffix
  }

  /** Reads the username back out of an `inspect` string. */
  function InspectedUsername(s: string): Option<string>
  {
    if |s| >= |InspectPrefix| + |InspectSuffix|
       && s[..|InspectPrefix|] == InspectPrefix
       && s[|s| - |InspectSuffix|..] == InspectSuffix
    then Some(s[|InspectPrefix|..|s| - |InspectSuffix|])
    else None
  }

  /** The username can be read back from `inspect`, and nothing else can: two clients that
      differ only in their password inspect identically. */
  lemma InspectRevealsOnlyUsername(c: Client, password: string)
    ensures InspectedUsername(Inspect(c)) == Some(c.username)
    ensures Inspect(c.(password := password)) == Inspect(c)
  {
    var s := Inspect(c);
    assert s[|s| - |InspectSuffix|..] == InspectSuffix;
  }

  // ---------------------------------------------------------------------------------------
  // Vendor messages embedded in a response

  /** A `Message` element of the response: its `Code` attribute and its text. */
  datatype ResponseMessage = ResponseMessage(code: string, detail: string)

  /** A character of Ruby's Unicode `[[:space:]]` class. */
  predicate IsSpace(c: char)
  {
    || '\U{0009}' <= c <= '\U{000D}'
    || c == ' ' || c == '\U{0085}' || c == '\U{00A0}' || c == '\U{1680}'
    || '\U{2000}' <= c <= '\U{200A}'
    || c == '\U{2028}' || c == '\U{2029}' || c == '\U{202F}' || c == '\U{205F}' || c == '\U{3000}'
  }

  /** ActiveSupport's `String#blank?`: empty or whitespace only. */
  predicate Blank(s: string)
  {
    forall i :: 0 <= i < |s| ==> IsSpace(s[i])
  }

  /** The text of the raised exception: the catalogue text, followed by the element's own
      text in parentheses unless that is blank. */
  function RaisedText(text: string, detail: string): (r: string)
    ensures |text| <= |r| && r[..|text|] == text
    ensures r == text <==> Blank(detail)
    ensures !Blank(detail) ==> r[|text|..] == " (" + detail + ")"
  {
    if Blank(detail) then text else text + " (" + detail + ")"
  }

  /** A message raises when the catalogue entry for its code is flagged as an error. */
  predicate Raises(m: ResponseMessage)
  {
    Messages.ForCode(m.code).error
  }

  /** A message element after its code has been looked up in the catalogue. */
  datatype Resolved = Resolved(entry: Messages.Message, detail: string)

  /** Looks up the code of every message, keeping the order. */
  function Resolve(msgs: seq<ResponseMessage>): (rs: seq<Resolved>)
    ensures |rs| == |msgs|
    ensures forall i :: 0 <= i < |msgs| ==> rs[i].entry == Messages.ForCode(msgs[i].code)
    ensures forall i :: 0 <= i < |msgs| ==> rs[i].detail == msgs[i].detail
  {
    seq(|msgs|, i requires 0 <= i < |msgs| => Resolved(Messages.ForCode(msgs[i].code), msgs[i].detail))
  }

  /** Looking up the codes of two lists one after the other is looking up each list on its
      own: the lookup of one message never depends on its neighbours. */
  lemma ResolveAppend(a: seq<ResponseMessage>, b: seq<ResponseMessage>)
    ensures Resolve(a + b) == Resolve(a) + Resolve(b)
  {
    var whole, parts := Resolve(a + b), Resolve(a) + Resolve(b);
    forall i | 0 <= i < |whole|
      ensures whole[i] == parts[i]
    {
      if i < |a| {
        assert (a + b)[i] == a[i];
        assert parts[i] == Resolve(a)[i];
      } else {
        assert (a + b)[i] == b[i - |a|];
        assert parts[i] == Resolve(b)[i - |a|];
      }
    }
  }

  /** The exception a raising message produces: its entry's error class, with the entry's
      text and the element's own text. */
  function RaisedFor(m: Resolved): (r: Raised)
    requires m.entry.error
    ensures r.Creditsafe? && IsApiError(r.kind) && r.kind != ApiError
    ensures Messages.ErrorClassOf(m.entry) == Some(r.kind)
    ensures r.text == RaisedText(m.entry.text, m.detail)
  {
    Creditsafe(Messages.ErrorClassOf(m.entry).value, RaisedText(m.entry.text, m.detail))
  }

  /** The exception a raising message element produces. */
  function ExceptionFor(m: ResponseMessage): Raised
    requires Raises(m)
  {
    RaisedFor(Resolved(Messages.ForCode(m.code), m.detail))
  }

  /** The position where the scan stops: the first message whose entry is an error. */
  function FirstError(rs: seq<Resolved>): (r: Option<nat>)
    ensures r.None? <==> forall i :: 0 <= i < |rs| ==> !rs[i].entry.error
    ensures r.Some? ==>
      && r.value < |rs|
      && rs[r.value].entry.error
      && forall i :: 0 <= i < r.value ==> !rs[i].entry.error
  {
    if rs == [] then None
    else if rs[0].entry.error then Some(0)
    else match FirstError(rs[1..])
      case None => None
      case Some(j) => Some(j + 1)
  }

  /** The `each` loop: raise for the first error entry, or finish quietly. */
  function Scan(rs: seq<Resolved>): (r: Option<Raised>)
    ensures r.None? <==> forall i :: 0 <= i < |rs| ==> !rs[i].entry.error
    ensures r.Some? ==> exists i ::
      && 0 <= i < |rs|
      && rs[i].entry.error
      && (forall j :: 0 <= j < i ==> !rs[j].entry.error)
      && r.value == RaisedFor(rs[i])
  {
    match FirstError(rs)
    case None => None
    case Some(i) => Some(RaisedFor(rs[i]))
  }

  /** Where the scan of two lists one after the other stops: inside the first list if it
      holds an error entry, and otherwise at the second list's stop, shifted past the
      first list. */
  lemma {:induction false} FirstErrorAppend(a: seq<Resolved>, b: seq<Resolved>)
    ensures FirstError(a).Some? ==> FirstError(a + b) == FirstError(a)
    ensures FirstError(a).None? && FirstError(b).None? ==> FirstError(a + b).None?
    ensures FirstError(a).None? && FirstError(b).Some? ==> FirstError(a + b) == Some(|a| + FirstError(b).value)
  {
    if a == [] {
      assert a + b == b;
    } else {
      var ab := a + b;
      assert ab[0] == a[0];
      assert ab[1..] == a[1..] + b;
      if !a[0].entry.error {
        FirstErrorAppend(a[1..], b);
        assert FirstError(ab) == match FirstError(a[1..] + b) case None => None case Some(j) => Some(j + 1);
        assert FirstError(a) == match FirstError(a[1..]) case None => None case Some(j) => Some(j + 1);
      }
    }
  }

  /** Scanning two lists one after the other: the first list decides if any of its entries
      is an error, and otherwise the second list decides alone. */
  lemma ScanAppend(a: seq<Resolved>, b: seq<Resolved>)
    ensures FirstError(a).Some? ==> Scan(a + b) == Scan(a)
    ensures FirstError(a).None? ==> Scan(a + b) == Scan(b)
  {
    FirstErrorAppend(a, b);
    match FirstError(a)
    case Some(i) =>
      assert (a + b)[i] == a[i];
    case None =>
      if FirstError(b).Some? {
        assert (a + b)[|a| + FirstError(b).value] == b[FirstError(b).value];
      }
  }

  /** `handle_message_for_response`: the `q1:` messages followed by the `xmlns:` ones are
      scanned in order, and the first raising message decides the exception, with its
      entry's class and text; when none raises, nothing is raised. */
  function HandleMessageForResponse(q1: seq<ResponseMessage>, xmlns: seq<ResponseMessage>): (r: Option<Raised>)
    ensures r.None? <==>
      (forall i :: 0 <= i < |q1| ==> !Raises(q1[i])) && (forall i :: 0 <= i < |xmlns| ==> !Raises(xmlns[i]))
    ensures r.Some? ==> exists i ::
      && 0 <= i < |q1 + xmlns|
      && Raises((q1 + xmlns)[i])
      && (forall j :: 0 <= j < i ==> !Raises((q1 + xmlns)[j]))
      && r.value == ExceptionFor((q1 + xmlns)[i])
    ensures r.Some? ==> r.value.Creditsafe? && IsApiError(r.value.kind)
  {
    var ms := q1 + xmlns;
    ScanMessages(ms);
    assert forall i :: 0 <= i < |q1| ==> ms[i] == q1[i];
    assert forall i :: 0 <= i < |xmlns| ==> ms[|q1| + i] == xmlns[i];
    Scan(Resolve(ms))
  }

  /** The scan of looked-up messages, stated on the messages themselves: nothing is raised
      exactly when no message raises, and otherwise the exception of the first raising
      message is. */
  lemma ScanMessages(ms: seq<ResponseMessage>)
    ensures Scan(Resolve(ms)).None? <==> forall i :: 0 <= i < |ms| ==> !Raises(ms[i])
    ensures Scan(Resolve(ms)).Some? ==> exists i ::
      && 0 <= i < |ms|
      && Raises(ms[i])
      && (forall j :: 0 <= j < i ==> !Raises(ms[j]))
      && Scan(Resolve(ms)).value == ExceptionFor(ms[i])
  {
    var rs := Resolve(ms);
    match FirstError(rs)
    case None =>
    case Some(k) =>
      assert rs[k] == Resolved(Messages.ForCode(ms[k].code), ms[k].detail);
      assert Scan(rs) == Some(ExceptionFor(ms[k]));
  }

  /** A raising `q1:` message always wins, whatever the `xmlns:` messages say; when no
      `q1:` message raises, the `xmlns:` messages decide as if they were alone. */
  lemma QualifiedMessagesFirst(q1: seq<ResponseMessage>, xmlns: seq<ResponseMessage>)
    ensures (exists i :: 0 <= i < |q1| && Raises(q1[i])) ==>
      HandleMessageForResponse(q1, xmlns) == HandleMessageForResponse(q1, [])
    ensures (forall i :: 0 <= i < |q1| ==> !Raises(q1[i])) ==>
      HandleMessageForResponse(q1, xmlns) == HandleMessageForResponse([], xmlns)
  {
    var a, b := Resolve(q1), Resolve(xmlns);
    ResolveAppend(q1, xmlns);
    assert q1 + [] == q1;
    assert [] + xmlns == xmlns;
    ScanAppend(a, b);
    if forall i :: 0 <= i < |q1| ==> !Raises(q1[i]) {
      assert FirstError(a).None?;
    }
  }

  // ---------------------------------------------------------------------------------------
  // Transport failures

  /** What `rescue => raw_error` catches: a SOAP fault, an HTTP error with its status code,
      an Excon error, or any other StandardError (including one already raised by the
      client). */
  datatype RawError =
    | SoapFault(message: string)
    | HttpFault(code: int, message: string)
    | ExconFault(message: string)
    | OtherError(raised: Raised)

  const Unauthorized := "Unauthorized: invalid credentials"
  const HttpRequestFailed := "Error making HTTP request: "

  /** `handle_error`. Every Excon error becomes a plain HttpError: no finer mapping to
      TimeoutError or BadGatewayError is made. */
  function HandleError(e: RawError): (r: Raised)
    ensures e.SoapFault? ==> r == Creditsafe(UnknownApiError, e.message)
    ensures e.HttpFault? ==> r.Creditsafe? && IsApiError(r.kind)
    ensures e.HttpFault? ==>
      (r.kind == AccountError <==> e.code == 401) &&
      (r.kind == UnknownApiError <==> e.code != 401)
    ensures e.HttpFault? && e.code == 401 ==> r.text == Unauthorized
    ensures e.HttpFault? && e.code != 401 ==> r.text == e.message
    ensures e.ExconFault? ==> r.Creditsafe? && IsHttpError(r.kind) && r.kind == HttpError
    ensures e.ExconFault? ==>
      && |r.text| == |HttpRequestFailed| + |e.message|
      && r.text[..|HttpRequestFailed|] == HttpRequestFailed
      && r.text[|HttpRequestFailed|..] == e.message
    ensures e.OtherError? ==> r == e.raised
  {
    match e
    case SoapFault(msg) => Creditsafe(UnknownApiError, msg)
    case HttpFault(code, msg) =>
      if code == 401 then Creditsafe(AccountError, Unauthorized) else Creditsafe(UnknownApiError, msg)
    case ExconFault(msg) => Creditsafe(HttpError, HttpRequestFailed + msg)
    case OtherError(raised) => raised
  }

  // ---------------------------------------------------------------------------------------
  // One SOAP invocation and its notification

  /** The outcome of `client.call`: a response with its two pre-extracted message lists and
      its body, a StandardError, or an exception outside StandardError (an `Interrupt`, or
      the timeout of a caller's `Timeout.timeout`) that the bare `rescue` does not catch. */
  datatype Transport =
    | Delivered(q1: seq<ResponseMessage>, xmlns: seq<ResponseMessage>, body: Value)
    | Faulted(raw: RawError)
    | Escaped(exception: Raised)

  /** The notification payload: the request always, then the response body or the processed
      error. */
  datatype Payload = Payload(request: Value, response: Option<Value>, error: Option<Raised>)

  /** The published notification: name, start and finish times, transaction id, payload. */
  datatype Event = Event(name: string, started: int, finished: int, transactionId: string, payload: Payload)

  const EventPrefix := "creditsafe."

  /** `invoke_soap`: perform the call, raise on an embedded error message, translate any
      StandardError, and in every case publish exactly one event. An exception outside
      StandardError skips the translation and propagates unchanged; its event carries the
      request only. `started` and `finished` are the
      two clock readings and `randomBytes` the bytes behind the transaction id. */
  function InvokeSoap(operation: string, request: Value, outcome: Transport, randomBytes: seq<Byte>,
                      started: int, finished: int): (r: (Result<Value, Raised>, Event))
    requires |randomBytes| == 10
    ensures r.1.name == EventPrefix + operation
    ensures r.1.started == started && r.1.finished == finished
    ensures r.1.payload.request == request
    ensures !outcome.Escaped? ==> r.1.payload.response.Some? != r.1.payload.error.Some?
    ensures outcome.Escaped? ==>
      r.0 == Failure(outcome.exception) && r.1.payload.response.None? && r.1.payload.error.None?
    ensures r.0.Success? ==> outcome.Delivered? && r.1.payload.response == Some(r.0.value) && r.0.value == outcome.body
    ensures r.0.Failure? && !outcome.Escaped? ==> r.1.payload.error == Some(r.0.error)
    ensures r.0.Success? <==> outcome.Delivered? && HandleMessageForResponse(outcome.q1, outcome.xmlns).None?
    ensures outcome.Faulted? ==> r.0 == Failure(HandleError(outcome.raw))
    ensures outcome.Delivered? && HandleMessageForResponse(outcome.q1, outcome.xmlns).Some? ==>
      r.0 == Failure(HandleMessageForResponse(outcome.q1, outcome.xmlns).value)
    ensures r.1.transactionId == Hex(randomBytes)
    ensures |r.1.transactionId| == 20
  {
    var name := EventPrefix + operation;
    var id := Hex(randomBytes);
    match outcome
    case Faulted(raw) =>
      var processed := HandleError(raw);
      (Failure(processed), Event(name, started, finished, id, Payload(request, None, Some(processed))))
    case Escaped(exception) =>
      (Failure(exception), Event(name, started, finished, id, Payload(request, None, None)))
    case Delivered(q1, xmlns, body) =>
      match HandleMessageForResponse(q1, xmlns)
      case Some(raised) =>
        var processed := HandleError(OtherError(raised));
        (Failure(processed), Event(name, started, finished, id, Payload(request, None, Some(processed))))
      case None =>
        (Success(body), Event(name, started, finished, id, Payload(request, Some(body), None)))
  }

  /** `SecureRandom.hex(10)` draws ten bytes, so the transaction id is 20 lower-case hex
      digits from which the ten bytes can be read back. */
  lemma TransactionId(operation: string, request: Value, outcome: Transport, randomBytes: seq<Byte>,
                      started: int, finished: int)
    requires |randomBytes| == 10
    ensures var id := InvokeSoap(operation, request, outcome, randomBytes, started, finished).1.transactionId;
      && |id| == 20
      && (forall i :: 0 <= i < 20 ==> IsHexDigit(id[i]))
      && Unhex(id) == randomBytes
  {
    HexRoundTrip(randomBytes);
  }

  // ---------------------------------------------------------------------------------------
  // The two operations

  /** Why a client operation did not return a value: the criteria were refused before any
      call, the call raised, or the response lacked an expected element (`Hash#fetch`). */
  datatype CallFailure =
    | BadArguments(argument: ArgumentError)
    | CallRaised(raised: Raised)
    | BadResponse(fetch: FetchError)

  const FindCompaniesOperation := "find_companies"
  const FindCompaniesPath := [Sym("find_companies_response"), Sym("find_companies_result"), Sym("companies")]
  const CompanyKey := Sym("company")

  /** The `find_company` unwrapping: nil when the companies element is nil, otherwise its
      company entry. */
  function Companies(body: Value): (r: Result<Value, CallFailure>)
    ensures FetchPath(body, FindCompaniesPath).Failure? ==>
      r == Failure(BadResponse(FetchPath(body, FindCompaniesPath).error))
    ensures FetchPath(body, FindCompaniesPath) == Success(Nil) ==> r == Success(Nil)
    ensures FetchPath(body, FindCompaniesPath).Success? && FetchPath(body, FindCompaniesPath).value != Nil ==>
      var companies := FetchPath(body, FindCompaniesPath).value;
      && (r.Success? <==> companies.Hash? && CompanyKey in Keys(companies.entries))
      && (r.Success? ==> Lookup(companies.entries, CompanyKey) == Some(r.value))
      && (r.Failure? ==> r == Failure(BadResponse(Fetch(companies, CompanyKey).error)))
  {
    match FetchPath(body, FindCompaniesPath)
    case Failure(f) => Failure(BadResponse(f))
    case Success(companies) =>
      if companies == Nil then Success(Nil)
      else match Fetch(companies, CompanyKey)
        case Failure(f) => Failure(BadResponse(f))
        case Success(c) => Success(c)
  }

  /** `find_company`: criteria are validated first, so invalid criteria raise an
      ArgumentError without any call and without an event; valid criteria are sent through
      `invoke_soap` and its body unwrapped. */
  function FindCompanyCall(criteria: FindCompany.SearchCriteria, table: FindCompany.MatchTypeTable,
                           outcome: Transport, randomBytes: seq<Byte>, started: int, finished: int)
    : (r: (Result<Value, CallFailure>, Option<Event>))
    requires |randomBytes| == 10
    ensures r.1.None? <==> !FindCompany.Acceptable(criteria)
    ensures !FindCompany.Acceptable(criteria) ==>
      r.0 == Failure(BadArguments(ArgumentError(
        FindCompany.ViolationText(FindCompany.CheckSearchCriteria(criteria).value))))
    ensures r.1.Some? ==>
      && r.1.value.name == EventPrefix + FindCompaniesOperation
      && r.1.value.payload.request == FindCompany.Message(FindCompany.New(criteria).value, table)
    ensures r.1.Some? && r.1.value.payload.error.Some? ==> r.0 == Failure(CallRaised(r.1.value.payload.error.value))
    ensures r.1.Some? && r.1.value.payload.response.Some? ==>
      r.0 == Companies(r.1.value.payload.response.value)
    ensures FindCompany.Acceptable(criteria) ==>
      var call := InvokeSoap(FindCompaniesOperation, FindCompany.Message(FindCompany.New(criteria).value, table),
                             outcome, randomBytes, started, finished);
      && r.1 == Some(call.1)
      && (call.0.Failure? ==> r.0 == Failure(CallRaised(call.0.error)))
      && (call.0.Success? ==> r.0 == Companies(call.0.value))
  {
    match FindCompany.New(criteria)
    case Failure(e) => (Failure(BadArguments(e)), None)
    case Success(req) =>
      var (result, event) := InvokeSoap(FindCompaniesOperation, FindCompany.Message(req, table),
                                        outcome, randomBytes, started, finished);
      match result
      case Failure(raised) => (Failure(CallRaised(raised)), Some(event))
      case Success(body) => (Companies(body), Some(event))
  }

  const ReportOperation := "retrieve_company_online_report"
  const ReportPath := [Sym("retrieve_company_online_report_response"),
                       Sym("retrieve_company_online_report_result"), Sym("reports"), Sym("report")]

  /** `company_report`: build the request, invoke, and unwrap the report element. There is
      no validation, so every call publishes an event. */
  function CompanyReportCall(id: CompanyReport.CompanyId, customData: Option<seq<(Value, Value)>>,
                             outcome: Transport, randomBytes: seq<Byte>, started: int, finished: int)
    : (r: (Result<Value, CallFailure>, Event))
    requires |randomBytes| == 10
    ensures r.1.name == EventPrefix + ReportOperation
    ensures r.1.payload.request == CompanyReport.Message(id, customData)
    ensures r.1.payload.error.Some? ==> r.0 == Failure(CallRaised(r.1.payload.error.value))
    ensures r.1.payload.response.Some? ==>
      match FetchPath(r.1.payload.response.value, ReportPath)
      case Success(report) => r.0 == Success(report)
      case Failure(f) => r.0 == Failure(BadResponse(f))
    ensures var call := InvokeSoap(ReportOperation, CompanyReport.Message(id, customData),
                                   outcome, randomBytes, started, finished);
      && r.1 == call.1
      && (call.0.Failure? ==> r.0 == Failure(CallRaised(call.0.error)))
      && (call.0.Success? ==> r.0.Success? == FetchPath(call.0.value, ReportPath).Success?)
  {
    var (result, event) := InvokeSoap(ReportOperation, CompanyReport.Message(id, customData),
                                      outcome, randomBytes, started, finished);
    match result
    case Failure(raised) => (Failure(CallRaised(raised)), event)
    case Success(body) =>
      match FetchPath(body, ReportPath)
      case Failure(f) => (Failure(BadResponse(f)), event)
      case Success(report) => (Success(report), event)
  }

  // ---------------------------------------------------------------------------------------
  // Worked scenarios

  /** A response with a single message raises exactly when that message's entry is an
      error. */
  lemma SingleMessage(m: ResponseMessage)
    ensures Raises(m) ==> HandleMessageForResponse([m], []) == Some(ExceptionFor(m))
    ensures !Raises(m) ==> HandleMessageForResponse([m], []) == None
  {
    var ms := [m] + [];
    assert ms == [m];
    if Raises(m) {
      var h := HandleMessageForResponse([m], []);
      assert h.Some?;
      var i :| 0 <= i < |ms| && Raises(ms[i]) && h.value == ExceptionFor(ms[i]);
      assert i == 0;
    }
  }

  /** A lone entry raises exactly when it is an error. */
  lemma ScanSingle(r: Resolved)
    ensures Scan([r]) == if r.entry.error then Some(RaisedFor(r)) else None
  {
    assert [r][0] == r;
  }

  /** A search answered with the "No results" message (code 010101, with or without its
      leading zero) and a nil companies element returns nil, and its event carries the
      response. */
  lemma NoResultsScenario(criteria: FindCompany.SearchCriteria, table: FindCompany.MatchTypeTable,
                          code: string, detail: string, body: Value,
                          randomBytes: seq<Byte>, started: int, finished: int)
    requires FindCompany.Acceptable(criteria) && |randomBytes| == 10
    requires Messages.Pad(code) == "010101"
    requires FetchPath(body, FindCompaniesPath) == Success(Nil)
    ensures var r := FindCompanyCall(criteria, table, Delivered([ResponseMessage(code, detail)], [], body),
                                     randomBytes, started, finished);
      r.0 == Success(Nil) && r.1.Some? && r.1.value.payload.response == Some(body)
  {
    var i := 0;
    Messages.ForCodeFindsEntry(code, i);
    SingleMessage(ResponseMessage(code, detail));
  }

  /** An HTTP 401 becomes an AccountError, which is both raised and recorded in the event. */
  lemma UnauthorizedScenario(criteria: FindCompany.SearchCriteria, table: FindCompany.MatchTypeTable,
                             message: string, randomBytes: seq<Byte>, started: int, finished: int)
    requires FindCompany.Acceptable(criteria) && |randomBytes| == 10
    ensures var r := FindCompanyCall(criteria, table, Faulted(HttpFault(401, message)), randomBytes, started, finished);
      && r.0 == Failure(CallRaised(Creditsafe(AccountError, Unauthorized)))
      && r.1.Some? && r.1.value.payload.error == Some(Creditsafe(AccountError, Unauthorized))
      && r.1.value.payload.response.None?
  {
  }

  /** The "Invalid operation parameters" message (code 030102, with or without its leading
      zero) raises a RequestError whose text carries the element's text in parentheses
      when that is not blank, and is the bare catalogue text when it is. */
  lemma InvalidOperationParametersMessage(code: string, detail: string)
    requires Messages.Pad(code) == "030102"
    ensures HandleMessageForResponse([ResponseMessage(code, detail)], []) ==
      Some(Creditsafe(RequestError, RaisedText("Invalid operation parameters", detail)))
  {
    var i := 12;
    var m := ResponseMessage(code, detail);
    Messages.ForCodeFindsEntry(code, i);
    var e := Messages.ForCode(code);
    assert e == Messages.InvalidOperationParams;
    assert Messages.ErrorClassOf(e) == Some(RequestError);
    SingleMessage(m);
  }

  /** A search answered with that message raises the RequestError and records the same
      exception in its event, with no response. */
  lemma InvalidOperationParametersScenario(criteria: FindCompany.SearchCriteria, table: FindCompany.MatchTypeTable,
                                           code: string, detail: string, body: Value,
                                           randomBytes: seq<Byte>, started: int, finished: int)
    requires FindCompany.Acceptable(criteria) && |randomBytes| == 10
    requires Messages.Pad(code) == "030102"
    ensures var r := FindCompanyCall(criteria, table, Delivered([ResponseMessage(code, detail)], [], body),
                                     randomBytes, started, finished);
      && r.0 == Failure(CallRaised(Creditsafe(RequestError, RaisedText("Invalid operation parameters", detail))))
      && r.1.Some?
      && r.1.value.payload.error == Some(Creditsafe(RequestError, RaisedText("Invalid operation parameters", detail)))
      && r.1.value.payload.response.None?
  {
    InvalidOperationParametersMessage(code, detail);
  }

  /** The worked detail text is not blank, so it is appended in parentheses; an empty or
      whitespace-only text is blank, so nothing is appended. */
  lemma BlankExamples()
    ensures !Blank("Invalid countries list specified.")
    ensures Blank("")
    ensures Blank(" \t\n")
  {
    var d := "Invalid countries list specified.";
    assert !IsSpace(d[0]);
    var w := " \t\n";
    assert IsSpace(w[0]) && IsSpace(w[1]) && IsSpace(w[2]);
  }
}
