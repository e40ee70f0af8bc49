/** The vendor's message catalogue (lib/creditsafe/messages.rb): 22 six-digit codes, each
    with a text and an error flag, the mapping from a code's second digit to an error class,
    and the lookup that tolerates codes whose leading zero the service dropped. */
module Messages {
  import opened Wrappers
  import opened Errors

  /** One catalogue entry, or an entry synthesised for a code the catalogue lacks. */
  datatype Message = Message(code: string, text: string, error: bool)

  /** `Message.new`: both `code` and `message` must be non-nil (an empty string is truthy
      in Ruby, so it is accepted). */
  function NewMessage(code: Option<string>, text: Option<string>, error: bool): (r: Result<Message, ArgumentError>)
    ensures r.Success? <==> code.Some? && text.Some?
    ensures r.Success? ==> r.value.code == code.value && r.value.text == text.value && r.value.error == error
    ensures r.Failure? ==> r.error.text == "Parameters 'code' and 'message' are mandatory"
  {
    if code.Some? && text.Some? then Success(Message(code.value, text.value, error))
    else Failure(ArgumentError("Parameters 'code' and 'message' are mandatory"))
  }

  /** The decimal digits, each at the position of its value. */
  const DecimalDigits := "0123456789"

  /** Ruby's `code[1].to_i`: the value of the second character when it is a decimal digit,
      and 0 when it is not a digit or the code is shorter than two characters. */
  function SecondDigit(code: string): (d: nat)
    ensures d < |DecimalDigits|
    ensures |code| >= 2 && code[1] in DecimalDigits ==> DecimalDigits[d] == code[1]
    ensures !(|code| >= 2 && code[1] in DecimalDigits) ==> d == 0
  {
    if |code| >= 2 && '0' <= code[1] <= '9' then code[1] as int - '0' as int else 0
  }

  /** `Message#error_class`: nil for a non-error; otherwise the class selected by the
      code's second digit. */
  function ErrorClassOf(m: Message): (r: Option<ErrorClass>)
    ensures r.None? <==> !m.error
    ensures r.Some? ==> IsApiError(r.value) && r.value != ApiError
    ensures r.Some? ==> (r.value == UnknownApiError <==> SecondDigit(m.code) !in {1, 2, 3, 4})
    ensures r.Some? && r.value != UnknownApiError ==> ClassDigit(r.value) == SecondDigit(m.code)
  {
    if !m.error then None
    else match SecondDigit(m.code)
      case 1 => Some(DataError)
      case 2 => Some(AccountError)
      case 3 => Some(RequestError)
      case 4 => Some(ProcessingError)
      case _ => Some(UnknownApiError)
  }

  /** The second digit that selects each of the four specific ApiError subclasses, read off
      the class rather than the code; 0 for every other class. Distinct on the four, so
      it pins down which digit gives which class. */
  function ClassDigit(c: ErrorClass): nat
  {
    match c
    case DataError => 1
    case AccountError => 2
    case RequestError => 3
    case ProcessingError => 4
    case _ => 0
  }

  const NoResults := Message("010101", "No results", false)
  const TooManyResults := Message("010102", "Too many results", false)
  const ReportUnavailable := Message("010103", "Report unavailable", true)
  const ReportUnavailableLegal := Message("010104", "Report unavailable due to legal causes", true)
  const ReportUnavailableOnline := Message("010105", "Report unavailable online", true)
  const LegalNotice := Message("010106", "Legal notice", false)
  const InvalidCredentials := Message("020101", "Invalid credentials", true)
  const AccessRestricted := Message("020102", "Access restricted", true)
  const AccessLimitsNearing := Message("020103", "Access limits nearing", false)
  const ReportboxAlmostFull := Message("020201", "Reportbox almost full", true)
  const ReportboxFull := Message("020202", "Reportbox full", true)
  const InvalidRequestXml := Message("030101", "Invalid request XML", true)
  const InvalidOperationParams := Message("030102", "Invalid operation parameters", true)
  const OperationNotSupported := Message("030103", "Operation not supported", true)
  const InvalidCustomDataSpecified := Message("030104", "Invalid custom data specified", true)
  const ChangeNotification := Message("030201", "Change notification", false)
  const TemporarySystemProblem := Message("030202", "Temporary system problem", true)
  const EndpointShutdown := Message("030203", "Endpoint shutdown", true)
  const UnexpectedInternalError := Message("040101", "Unexpected internal error", true)
  const OtherError := Message("040102", "Other", true)
  const DataServiceProblems := Message("040103", "Data service access problems", true)
  const DataServiceInvalidResponse := Message("040104", "Data service invalid response", true)

  /** `Messages::ALL`, in declaration order. */
  const All: seq<Message> := [
    NoResults, TooManyResults, ReportUnavailable, ReportUnavailableLegal,
    ReportUnavailableOnline, LegalNotice, InvalidCredentials, AccessRestricted,
    AccessLimitsNearing, ReportboxAlmostFull, ReportboxFull, InvalidRequestXml,
    InvalidOperationParams, OperationNotSupported, InvalidCustomDataSpecified,
    ChangeNotification, TemporarySystemProblem, EndpointShutdown, UnexpectedInternalError,
    OtherError, DataServiceProblems, DataServiceInvalidResponse
  ]

  /** The catalogue's codes, in catalogue order. */
  function Codes(): (cs: seq<string>)
    ensures |cs| == |All|
    ensures forall i :: 0 <= i < |All| ==> cs[i] == All[i].code
  {
    seq(|All|, i requires 0 <= i < |All| => All[i].code)
  }

  function Zeros(n: nat): (z: string)
    ensures |z| == n
    ensures forall i :: 0 <= i < n ==> z[i] == '0'
  {
    seq(n, _ => '0')
  }

  /** Ruby's `code.rjust(6, "0")`. */
  function Pad(code: string): (p: string)
    ensures |p| == if |code| >= 6 then |code| else 6
    ensures p[|p| - |code|..] == code
    ensures forall i :: 0 <= i < |p| - |code| ==> p[i] == '0'
  {
    if |code| >= 6 then code else Zeros(6 - |code|) + code
  }

  /** Ruby's `Enumerable#find` on the code, scanning from index `from`: the index of the
      first entry at or after `from` carrying the code. What it finds is stated by
      FindFirstFinds. */
  function FindFirst(cat: seq<Message>, code: string, from: nat): (r: Option<nat>)
    requires from <= |cat|
    ensures r.Some? ==> from <= r.value < |cat|
    decreases |cat| - from
  {
    if from == |cat| then None
    else if cat[from].code == code then Some(from)
    else FindFirst(cat, code, from + 1)
  }

  /** The scan returns the first position at or after `from` whose entry carries the code,
      and nothing exactly when no such position exists. */
  lemma {:induction false} FindFirstFinds(cat: seq<Message>, code: string, from: nat)
    requires from <= |cat|
    ensures FindFirst(cat, code, from).None? <==> forall j :: from <= j < |cat| ==> cat[j].code != code
    ensures FindFirst(cat, code, from).Some? ==>
      var k := FindFirst(cat, code, from).value;
      from <= k < |cat| && cat[k].code == code && forall j :: from <= j < k ==> cat[j].code != code
    decreases |cat| - from
  {
    if from < |cat| && cat[from].code != code {
      FindFirstFinds(cat, code, from + 1);
    }
  }

  /** `Messages.for_code`: the first catalogue entry whose code is the zero-padded input,
      or an "Unknown error" entry. What it returns is stated by ForCodeResult. */
  function ForCode(code: string): Message
  {
    match FindFirst(All, Pad(code), 0)
      case Some(i) => All[i]
      case None => Message(code, "Unknown error", true)
  }

  /** The lookup is total: it yields the catalogue entry whose code equals the zero-padded
      input, or an "Unknown error" entry that keeps the input as given. */
  lemma ForCodeResult(code: string)
    ensures Pad(code) in Codes() ==> ForCode(code) in All && ForCode(code).code == Pad(code)
    ensures Pad(code) !in Codes() ==> ForCode(code) == Message(code, "Unknown error", true)
  {
    FindFirstFinds(All, Pad(code), 0);
    if Pad(code) in Codes() {
      var i :| 0 <= i < |All| && Codes()[i] == Pad(code);
      assert All[i].code == Pad(code);
    }
  }

  /** Every catalogue code has the shape 0d0d0d: six characters, a zero in the first, third
      and fifth place, a second digit from 1 to 4, a fourth digit 1 or 2 and a sixth digit
      from 1 to 6; and no two entries share a code. */
  lemma CatalogueWellFormed()
    ensures |All| == 22
    ensures forall i :: 0 <= i < |All| ==> CodeShape(All[i].code)
    ensures forall i :: 0 <= i < |All| ==> 1 <= SecondDigit(All[i].code) <= 4
    ensures CodesDistinct()
  {
    CatalogueCodesDistinct();
  }

  /** The shape shared by all catalogue codes. */
  predicate CodeShape(c: string)
  {
    && |c| == 6
    && c[0] == '0' && '1' <= c[1] <= '4' && c[2] == '0'
    && '1' <= c[3] <= '2' && c[4] == '0' && '1' <= c[5] <= '6'
  }

  /** A string without the catalogue shape is not a catalogue code. */
  lemma NotACatalogueCode(c: string)
    requires !CodeShape(c)
    ensures c !in Codes()
  {
    CatalogueWellFormed();
  }

  /** No two catalogue entries share a code. */
  predicate CodesDistinct()
  {
    forall i, j :: 0 <= i < j < |All| ==> All[i].code != All[j].code
  }

  /** Orders six-character codes by their second, fourth and sixth characters, the ones
      in which catalogue codes differ. */
  function SortKey(c: string): int
    requires |c| == 6
  {
    (c[1] as int) * 100 + (c[3] as int) * 10 + (c[5] as int)
  }

  /** The catalogue is listed in strictly ascending order of SortKey. */
  lemma CatalogueAscending()
    ensures forall i :: 0 <= i < |All| ==> |All[i].code| == 6
    ensures forall i :: 0 <= i < |All| - 1 ==> SortKey(All[i].code) < SortKey(All[i + 1].code)
  {
  }

  /** A sequence that increases at every step increases between any two positions. */
  lemma {:induction false} AscendingIsStrict(s: seq<int>, i: nat, j: nat)
    requires forall k :: 0 <= k < |s| - 1 ==> s[k] < s[k + 1]
    requires i < j < |s|
    ensures s[i] < s[j]
    decreases j - i
  {
    if j > i + 1 {
      AscendingIsStrict(s, i, j - 1);
    }
  }

  lemma CatalogueCodesDistinct()
    ensures CodesDistinct()
  {
    CatalogueAscending();
    var keys := seq(|All|, k requires 0 <= k < |All| => SortKey(All[k].code));
    forall i, j | 0 <= i < j < |All|
      ensures All[i].code != All[j].code
    {
      AscendingIsStrict(keys, i, j);
    }
  }

  /** Padding changes nothing once a code has six or more characters, so it is idempotent. */
  lemma PadIdempotent(code: string)
    ensures |code| >= 6 ==> Pad(code) == code
    ensures Pad(Pad(code)) == Pad(code)
  {
  }

  /** The lookup finds the one catalogue entry whose code is the padded input. */
  lemma ForCodeFindsEntry(code: string, i: nat)
    requires i < |All| && Pad(code) == All[i].code
    ensures ForCode(code) == All[i]
  {
    CatalogueCodesDistinct();
    FindFirstFinds(All, Pad(code), 0);
    assert All[i].code == Pad(code);
  }

  /** Looking up any catalogue code yields exactly that catalogue entry. */
  lemma ForCodeOfCatalogueCode(i: nat)
    requires i < |All|
    ensures ForCode(All[i].code) == All[i]
  {
    assert |All[i].code| == 6;
    ForCodeFindsEntry(All[i].code, i);
  }

  /** A code whose leading zero was dropped by the service resolves to the padded
      catalogue entry, and the result carries the padded code. */
  lemma {:induction false} ForCodeRestoresLeadingZero(code: string)
    requires |code| == 5 && "0" + code in Codes()
    ensures ForCode(code).code == "0" + code
    ensures ForCode(code) == ForCode("0" + code)
  {
    assert Pad(code) == "0" + code;
    var i :| 0 <= i < |All| && Codes()[i] == "0" + code;
    ForCodeFindsEntry(code, i);
    ForCodeOfCatalogueCode(i);
  }

  /** Looking up the code of a looked-up message gives the same message back: a catalogue
      hit carries its own padded code, and an unknown entry carries the input unchanged. */
  lemma ForCodeIdempotent(code: string)
    ensures ForCode(ForCode(code).code) == ForCode(code)
  {
    var m := ForCode(code);
    ForCodeResult(code);
    if Pad(code) in Codes() {
      var i :| 0 <= i < |All| && All[i] == m;
      ForCodeOfCatalogueCode(i);
    } else {
      ForCodeResult(m.code);
    }
  }

  /** A looked-up message's error class, when it has one, is always an ApiError; no
      catalogue error maps to UnknownApiError. */
  lemma ForCodeClassIsApiError(code: string)
    ensures ForCode(code).error ==> IsApiError(ErrorClassOf(ForCode(code)).value)
    ensures ForCode(code) in All && ForCode(code).error ==>
      ErrorClassOf(ForCode(code)).value != UnknownApiError
  {
    CatalogueWellFormed();
    ForCodeResult(code);
  }

  /** `for_code` never raises ArgumentError: every entry it returns, catalogue hit or
      synthesised "Unknown error" entry, is one that `Message.new` accepts, built from its
      own three fields. */
  lemma ForCodeBuildsMessage(code: string)
    ensures NewMessage(Some(ForCode(code).code), Some(ForCode(code).text), ForCode(code).error) ==
      Success(ForCode(code))
    ensures Pad(code) !in Codes() ==>
      NewMessage(Some(code), Some("Unknown error"), true) == Success(ForCode(code))
  {
    ForCodeResult(code);
  }

  /** The positions of the five catalogue entries that are not errors. */
  lemma NonErrorPositions()
    ensures forall i :: 0 <= i < |All| ==> (!All[i].error <==> i == 0 || i == 1 || i == 5 || i == 8 || i == 15)
  {
  }

  /** Exactly five catalogue entries are not errors. */
  lemma NonErrorEntries()
    ensures (set i | 0 <= i < |All| && !All[i].error :: All[i].code) ==
      {"010101", "010102", "010106", "020103", "030201"}
  {
    NonErrorPositions();
    var s := set i | 0 <= i < |All| && !All[i].error :: All[i].code;
    var expected := {"010101", "010102", "010106", "020103", "030201"};
    assert All[0].code in s && All[1].code in s && All[5].code in s;
    assert All[8].code in s && All[15].code in s;
  }

  /** The worked example of a full code. */
  lemma ForCodeFullCodeExample()
    ensures ForCode("020101") == InvalidCredentials
  {
    ForCodeFindsEntry("020101", 6);
  }

  /** The worked example of a code without its leading zero. */
  lemma ForCodeShortCodeExample()
    ensures ForCode("20101") == InvalidCredentials
  {
    assert Pad("20101") == "020101";
    ForCodeFindsEntry("20101", 6);
  }

  /** An unknown code gives a synthesised "Unknown error" entry that keeps the input. */
  lemma ForCodeUnknownExample()
    ensures ForCode("999999") == Message("999999", "Unknown error", true)
    ensures ErrorClassOf(ForCode("999999")) == Some(UnknownApiError)
  {
    NotACatalogueCode("999999");
    ForCodeResult("999999");
  }

  /** The empty code is not rejected: it pads to "000000", which no entry carries. */
  lemma ForCodeEmptyExample()
    ensures ForCode("") == Message("", "Unknown error", true)
  {
    assert Pad("") == "000000";
    NotACatalogueCode("000000");
    ForCodeResult("");
  }

  /** `error_class` on explicit messages: nil for a non-error, digit 4 gives ProcessingError
      and digit 6 gives UnknownApiError. */
  lemma ErrorClassExamples()
    ensures ErrorClassOf(Message("020101", "Error message", false)) == None
    ensures ErrorClassOf(InvalidCredentials) == Some(AccountError)
    ensures ErrorClassOf(Message("040102", "Error message", true)) == Some(ProcessingError)
    ensures ErrorClassOf(Message("060102", "Error message", true)) == Some(UnknownApiError)
  {
  }

  /** An unknown code keeps the code as received, and `error_class` reads that code's
      second character: an unknown six-digit code with second digit 1 is a DataError rather
      than an UnknownApiError. */
  lemma UnknownSixDigitCodeClassification()
    ensures ForCode("010199") == Message("010199", "Unknown error", true)
    ensures ErrorClassOf(ForCode("010199")) == Some(DataError)
  {
    NotACatalogueCode("010199");
    ForCodeResult("010199");
  }

  /** An unknown five-digit code is classified by its own second digit, not by the padded
      code's: "20199" pads to "020199" (second digit 2) yet gives UnknownApiError. */
  lemma UnknownShortCodeClassification()
    ensures ForCode("20199") == Message("20199", "Unknown error", true)
    ensures ErrorClassOf(ForCode("20199")) == Some(UnknownApiError)
    ensures SecondDigit(Pad("20199")) == 2
  {
    assert Pad("20199") == "020199";
    NotACatalogueCode("020199");
    ForCodeResult("20199");
  }
}
