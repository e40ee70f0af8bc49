# creditsafe-ruby client core in Dafny

This project models the core of the `creditsafe` Ruby gem, a SOAP client for the Creditsafe
company-information service. The model covers:

- **Vendor message catalogue** (`Messages`). The 22 six-digit codes with their texts and
  error flags. `for_code` zero-pads a code and looks it up, and `error_class` maps a code's
  second digit to an exception class.
- **Exception hierarchy** (`Errors`). The `HttpError` and `ApiError` families under the root
  `Error`.
- **Client** (`Client`):
  - constructor validation and `inspect`;
  - the scan of the `Message` elements embedded in a response, which raises for the first
    error-flagged one, `q1:` before `xmlns:`;
  - the translation of transport failures (`handle_error`);
  - `invoke_soap`, which publishes exactly one notification per call;
  - the unwrapping of the `find_company` and `company_report` responses.
- **Company search request** (`FindCompany`, backed by the VAT table in `Country`). The
  ordered validation of the search criteria and the payload built from the criteria that
  are present.
- **Report and monitoring-rules requests** (`CompanyReport`,
  `SetPortfolioMonitoringRules`).

Supporting modules:

- `Wrappers`: `Option` and `Result`.
- `Hashes`: Ruby values and insertion-ordered hashes. `h[k] = v` keeps an existing key in
  place and appends a new one.
- `Namespace`: the element-name prefixes.
- `HexEncoding`: `SecureRandom.hex` over caller-supplied bytes.

Every operation is a pure function. Inputs that the running program gets from outside are
parameters:

- the transport's outcome, including the two lists of message elements already extracted
  from the response;
- the two clock readings;
- the random bytes behind the transaction id;
- the `Creditsafe::MatchType` table.

## Where the model follows the code rather than the documentation

- **Constructor.** Only a `nil` username or password is refused. An empty string is
  accepted (lib/creditsafe/client.rb:22-23).
- **Excon errors.** Every Excon error becomes a plain `HttpError`
  (lib/creditsafe/client.rb:112-113). The test suite expects `TimeoutError` and
  `BadGatewayError` for timeouts and 502 responses. No code produces them, so the model
  does not either.
- **Unknown codes.** An unknown code keeps the code as received, and `error_class` reads
  that code's second character (lib/creditsafe/messages.rb:23, 90-92). So an unknown code
  is not always an `UnknownApiError`:
  - "010199" gives a `DataError`;
  - "20199" gives an `UnknownApiError`, although its padded form "020199" has second
    digit 2.

  `UnknownSixDigitCodeClassification` and `UnknownShortCodeClassification` state both.
- **Empty code.** `for_code("")` returns an "Unknown error" entry (an empty string is
  truthy in Ruby). The example at spec/creditsafe/messages_spec.rb:30-35 expects an
  error, but the error it expects comes from the way it calls `subject`, not from
  `for_code`. `ForCodeEmptyExample` states what the code does.
- **`blank?`.** The parenthesised detail is appended unless the element's text is blank
  in ActiveSupport's sense: empty or made only of Unicode whitespace.

## Model

| member | source | states |
|---|---|---|
| Errors.AllDescendFromError | lib/creditsafe/errors.rb:4-22 | every class of the hierarchy is an `Error` (`IsA`) |
| Errors.Families | lib/creditsafe/errors.rb:6-22 | the HttpError family (`IsHttpError`) is exactly HttpError, TimeoutError, BadGatewayError; the ApiError family (`IsApiError`) is exactly ApiError and its five subclasses |
| Errors.FamiliesDisjoint | lib/creditsafe/errors.rb:6-22 | no class is both an HttpError and an ApiError, and the root is neither |
| Messages.ForCodeBuildsMessage | lib/creditsafe/messages.rb:10-95 | `Message.new` (`NewMessage`) accepts every message `for_code` returns, so `for_code` never raises the "mandatory" ArgumentError; for a code absent from the catalogue that message is `Message.new(code, "Unknown error", true)` with the unpadded code |
| Messages.SecondDigit | lib/creditsafe/messages.rb:23 | `code[1].to_i`: when the second character is a decimal digit, the result is the position of that character in "0123456789"; a non-digit second character or a code shorter than two characters gives 0 |
| Messages.ErrorClassOf | lib/creditsafe/messages.rb:20-30 | nil exactly for non-errors; otherwise an ApiError subclass: second digit 1 gives DataError, 2 AccountError, 3 RequestError, 4 ProcessingError (read back through `ClassDigit`), any other digit UnknownApiError |
| Messages.Pad | lib/creditsafe/messages.rb:87 | `rjust(6, "0")`: length max(6, n), the input as suffix, zeros before it |
| Messages.PadIdempotent | lib/creditsafe/messages.rb:87 | codes of six or more characters are unchanged, and padding twice equals padding once |
| Messages.FindFirstFinds | lib/creditsafe/messages.rb:88 | `find` (`FindFirst`) returns the first position carrying the code, and nil exactly when none does |
| Messages.ForCodeResult | lib/creditsafe/messages.rb:86-95 | `for_code` (`ForCode`) is total: the catalogue entry whose code is the padded input, or an "Unknown error" entry with the unpadded input |
| Messages.CatalogueWellFormed | lib/creditsafe/messages.rb:34-55 | 22 entries, all of shape 0d0d0d, second digit 1 to 4, codes pairwise distinct |
| Messages.NotACatalogueCode | lib/creditsafe/messages.rb:34-55 | a string without that shape is no catalogue code |
| Messages.CatalogueAscending | lib/creditsafe/messages.rb:58-81 | the catalogue is listed in strictly ascending code order |
| Messages.CatalogueCodesDistinct | lib/creditsafe/messages.rb:34-55 | no two entries share a code |
| Messages.ForCodeFindsEntry | lib/creditsafe/messages.rb:86-88 | an input whose padded form is entry i's code yields entry i |
| Messages.ForCodeOfCatalogueCode | lib/creditsafe/messages.rb:58-94 | looking up any catalogue code yields that entry, so its code is returned unchanged |
| Messages.ForCodeRestoresLeadingZero | lib/creditsafe/messages.rb:83-88 | a five-digit code missing its leading zero resolves to the padded entry and returns the padded code |
| Messages.ForCodeIdempotent | lib/creditsafe/messages.rb:86-95 | looking up the code of a looked-up message returns the same message |
| Messages.ForCodeClassIsApiError | lib/creditsafe/messages.rb:20-30 | a looked-up error's class is an ApiError, and never UnknownApiError for a catalogue entry |
| Messages.NonErrorPositions | lib/creditsafe/messages.rb:34-55 | exactly positions 0, 1, 5, 8 and 15 of the catalogue are non-errors |
| Messages.NonErrorEntries | lib/creditsafe/messages.rb:34-55 | the non-error codes are exactly 010101, 010102, 010106, 020103, 030201 |
| Messages.ForCodeFullCodeExample | spec/creditsafe/messages_spec.rb:9-14 | "020101" gives the Invalid credentials entry |
| Messages.ForCodeShortCodeExample | spec/creditsafe/messages_spec.rb:16-21 | "20101" gives the Invalid credentials entry |
| Messages.ForCodeUnknownExample | spec/creditsafe/messages_spec.rb:23-28 | "999999" gives an Unknown error entry with that code, class UnknownApiError |
| Messages.ForCodeEmptyExample | lib/creditsafe/messages.rb:86-92 | "" gives an Unknown error entry with the empty code |
| Messages.ErrorClassExamples | spec/creditsafe/messages_spec.rb:46-67 | a non-error has no class; 020101 gives AccountError, 040102 gives ProcessingError, 060102 gives UnknownApiError |
| Messages.UnknownSixDigitCodeClassification | lib/creditsafe/messages.rb:86-92 | unknown "010199" keeps its code and is classed DataError |
| Messages.UnknownShortCodeClassification | lib/creditsafe/messages.rb:86-92 | unknown "20199" keeps its unpadded code and is classed UnknownApiError |
| Country.VatTableWellFormed | lib/creditsafe/country.rb:43-47 | the VAT table behind `SupportsVatNumber` holds 23 pairwise-distinct two-letter codes, including "DE" |
| Country.VatExamples | lib/creditsafe/country.rb:41-47 | `SupportsVatNumber`: "US" supports VAT searches and "GB" does not |
| Country.UKIsGreatBritain | lib/creditsafe/country.rb:17-40 | UK and GREAT_BRITAIN are both "GB" |
| Namespace.Qualified | lib/creditsafe/request/find_company.rb:24 | an element name `"#{prefix}:#{name}"` is the prefix, a colon and the name, each recoverable |
| FindCompany.OnlyOneMeansExactlyOne | lib/creditsafe/request/find_company.rb:99-106 | the xor formula holds exactly when precisely one of the three criteria is present |
| FindCompany.CheckSearchCriteria | lib/creditsafe/request/find_company.rb:75-97 | no violation (`Acceptable`) exactly when all conditions hold; each violation exactly when the earlier checks pass and its own fails |
| FindCompany.New | lib/creditsafe/request/find_company.rb:10-18 | succeeds exactly for acceptable criteria, keeping all six; otherwise raises the first violation's text |
| FindCompany.MatchType | lib/creditsafe/request/find_company.rb:61-64 | the first allowed match type of the upper-cased country, or MATCH_BLOCK when there is none |
| FindCompany.CriteriaKeysDistinct | lib/creditsafe/request/find_company.rb:23-50 | the four search-criteria element names differ |
| FindCompany.SearchCriteriaKeys | lib/creditsafe/request/find_company.rb:20-53 | the hash built by `search_criteria` (`SearchCriteriaEntries`) has a key exactly for each non-nil field; no other key; keys distinct |
| FindCompany.PutIfPresentKeys | lib/creditsafe/request/find_company.rb:23-50 | a conditional assignment adds its key exactly when the field is present and keeps keys distinct |
| FindCompany.PutIfPresentLookup | lib/creditsafe/request/find_company.rb:23-50 | a conditional assignment sets its key when present and leaves other keys' values alone |
| FindCompany.SearchCriteriaValues | lib/creditsafe/request/find_company.rb:23-50 | in `SearchCriteriaEntries` each present field is stored under its key; with both city and postal code the Address holds only PostalCode |
| FindCompany.MessageCountryCode | lib/creditsafe/request/find_company.rb:66-73 | the request `message` (`FindCompany.Message`): countries/CountryCode is the country code, searchCriteria is the criteria hash, and these are the only two keys |
| FindCompany.AcceptedSearchPayload | lib/creditsafe/request/find_company.rb:10-53 | an accepted search carries exactly one identifier key, an Address only for "DE", and the country code |
| FindCompany.ValidationExamples | lib/creditsafe/request/find_company.rb:75-97 | GB by number passes; missing country, two identifiers, city or postal code outside DE, VAT for GB fail; DE with city and US with VAT pass |
| CompanyReport.NatToString | lib/creditsafe/request/company_report.rb:15 | `Integer#to_s`: decimal digits, no leading zero |
| CompanyReport.NatToStringRoundTrip | lib/creditsafe/request/company_report.rb:15 | the decimal text of n reads back as n |
| CompanyReport.IdToString | lib/creditsafe/request/company_report.rb:15 | a string id is sent unchanged; an integer id as its canonical decimal text (never empty, no leading zero) reading back as the id, with "-" when negative |
| CompanyReport.EntryRoundTrip | lib/creditsafe/request/company_report.rb:34 | an Entry element gives back its key and value |
| CompanyReport.CustomDataRoundTrip | lib/creditsafe/request/company_report.rb:33-35 | `custom_data_entries` (`CustomDataEntries`) gives one Entry per custom-data pair, and reading them back gives the custom data in order |
| CompanyReport.MessageKeys | lib/creditsafe/request/company_report.rb:13-28 | the request `message` (`CompanyReport.Message`) has keys companyId, reportType, language, plus customData exactly when custom data is given |
| CompanyReport.MessageFixedFields | lib/creditsafe/request/company_report.rb:14-18 | companyId is the id's string form, reportType "Full", language "EN" |
| CompanyReport.MessageCustomData | lib/creditsafe/request/company_report.rb:20-26 | customData/Entries/Entry is the list of Entry elements |
| SetPortfolioMonitoringRules.Message | lib/creditsafe/request/set_portfolio_monitoring_rules.rb:12-24 | keys exactly portfolioId and newRules; the id unchanged; newRules holds exactly Rule and attributes!, and attributes! exactly Rule; one empty Rule per rule; attributes Enabled "true", EventCode the rules, MatchAllConditions "true" |
| SetPortfolioMonitoringRules.PayloadPaths | lib/creditsafe/request/set_portfolio_monitoring_rules.rb:16-21 | the payload (`Payload`) element paths lead to the id, the newRules hash, the Rule list, the attributes! hash and the Rule attributes |
| SetPortfolioMonitoringRules.NewRulesPaths | lib/creditsafe/request/set_portfolio_monitoring_rules.rb:18-21 | newRules has exactly the keys Rule and attributes!; Rule is the list, attributes! the hash holding only Rule, and attributes!/Rule the attributes |
| Hashes.Lookup | lib/creditsafe/client.rb:40-45 | the read behind `fetch`: `h[k]` is present exactly for a key of the hash |
| Hashes.LookupStored | lib/creditsafe/client.rb:40-45 | in a hash with distinct keys, the read behind `fetch` gives the value stored beside k |
| Hashes.Put | lib/creditsafe/request/find_company.rb:46-49 | `h[k] = v` keeps an existing key's position and appends a new key; other entries are untouched |
| Hashes.PutLookup | lib/creditsafe/request/find_company.rb:46-49 | after `h[k] = v`, `h[k]` is v |
| Hashes.PutOtherKey | lib/creditsafe/request/find_company.rb:46-49 | `h[k] = v` leaves the value of every other key alone |
| Hashes.PutKeepsDistinct | lib/creditsafe/request/find_company.rb:46-49 | assignment keeps keys distinct |
| Hashes.Fetch | lib/creditsafe/client.rb:40-45 | `fetch` succeeds exactly on a hash holding the key, with the stored value; KeyError naming the key for a missing key, TypeError on an array, NoMethodError on any other value |
| HexEncoding.Hex | lib/creditsafe/client.rb:94 | two lower-case hex digits per byte |
| HexEncoding.HexRoundTrip | lib/creditsafe/client.rb:94 | the hex text reads back as the bytes |
| Client.New | lib/creditsafe/client.rb:20-34 | succeeds exactly with non-nil username and password and environment live or test; otherwise the first failing check's message |
| Client.Inspect | lib/creditsafe/client.rb:60-62 | the inspect text is the class prefix, the username and the closing "'>", nothing else |
| Client.InspectRevealsOnlyUsername | lib/creditsafe/client.rb:60-62 | the username reads back from inspect, and the password does not affect it |
| Client.RaisedText | lib/creditsafe/client.rb:74-75 | the catalogue text, extended by " (detail)" exactly when the detail is not blank (`Blank`) |
| Client.ResolveAppend | lib/creditsafe/client.rb:67-72 | the catalogue lookup of the concatenated q1 and xmlns messages is the lookup of each list on its own, joined: no message's entry depends on its neighbours |
| Client.RaisedFor | lib/creditsafe/client.rb:74-77 | a raising message raises an ApiError subclass, exactly the class `error_class` gives its entry, with the catalogue text extended by the non-blank detail |
| Client.FirstError | lib/creditsafe/client.rb:70-78 | the scan stops at the first error entry; none exactly when no entry is an error |
| Client.Scan | lib/creditsafe/client.rb:70-78 | nothing is raised exactly when no entry is an error; otherwise the exception of the first error entry, all entries before it being non-errors |
| Client.FirstErrorAppend | lib/creditsafe/client.rb:67-70 | the scan of a + b stops inside a when a holds an error entry, else at b's stop shifted by the length of a, and nowhere when neither holds one |
| Client.ScanAppend | lib/creditsafe/client.rb:67-70 | scanning a + b: a decides if it holds an error, otherwise b decides alone |
| Client.HandleMessageForResponse | lib/creditsafe/client.rb:66-79 | raises exactly when some q1 or xmlns message raises (`Raises`: its entry is an error); then the exception is that of the first raising message of q1 followed by xmlns (`ExceptionFor`: the class `error_class` gives, the catalogue text and detail), an ApiError |
| Client.QualifiedMessagesFirst | lib/creditsafe/client.rb:67-70 | a raising q1 message wins whatever the xmlns messages are; otherwise the xmlns messages decide alone |
| Client.ScanMessages | lib/creditsafe/client.rb:66-79 | scanning looked-up messages raises nothing exactly when no message raises, and otherwise raises the exception of the first raising message |
| Client.ScanSingle | lib/creditsafe/client.rb:70-77 | a lone entry raises its exception exactly when it is an error, and nothing otherwise |
| Client.SingleMessage | lib/creditsafe/client.rb:66-79 | a lone raising message raises its own exception (its class and text), and a lone non-raising message raises nothing |
| Client.HandleError | lib/creditsafe/client.rb:103-116 | SOAP fault gives UnknownApiError with its message; 401 gives AccountError "Unauthorized: invalid credentials", other HTTP errors UnknownApiError; Excon gives HttpError "Error making HTTP request: " + message; anything else unchanged |
| Client.InvokeSoap | lib/creditsafe/client.rb:81-95 | one event named "creditsafe." + operation, with the request, the clock readings and a 20-character hex transaction id from the 10 random bytes; for a response or a StandardError exactly one of response and error; a delivered response whose messages raise fails with the scan's exception, unchanged; the body is returned on success, and on a StandardError the raised error is the one recorded; an exception outside StandardError skips `handle_error`, propagates unchanged, and its event holds neither response nor error |
| Client.TransactionId | lib/creditsafe/client.rb:94 | ten random bytes give a 20-character hex id that reads back as those bytes |
| Client.Companies | lib/creditsafe/client.rb:40-45 | a missing `companies` element fails with fetch's error; nil when it is nil; otherwise succeeds exactly when it is a hash with a `company` key, returning the stored company entry, and fails with fetch's error when not |
| Client.FindCompanyCall | lib/creditsafe/client.rb:36-46 | invalid criteria raise an ArgumentError with no event; otherwise the event is `invoke_soap`'s for find_companies with the search payload, a raised error is re-raised unchanged, and a returned body is unwrapped by `Companies` |
| Client.CompanyReportCall | lib/creditsafe/client.rb:48-58 | the event is `invoke_soap`'s for retrieve_company_online_report with the report payload; a raised error is re-raised unchanged, a returned body yields its report element, and a missing one fails |
| Client.NoResultsScenario | spec/creditsafe/client_spec.rb:309-340 | a "No results" message with nil companies returns nil and records the response |
| Client.UnauthorizedScenario | lib/creditsafe/client.rb:108-110 | an HTTP 401 raises AccountError and records the same error, with no response |
| Client.InvalidOperationParametersMessage | lib/creditsafe/client.rb:66-79 | a lone 030102 message, with or without its leading zero, raises RequestError "Invalid operation parameters", with the detail in parentheses when it is not blank |
| Client.InvalidOperationParametersScenario | spec/creditsafe/client_spec.rb:343-371 | a `find_company` answered by code 030102 raises RequestError "Invalid operation parameters" (with the non-blank detail) and records that error with no response |
| Client.BlankExamples | lib/creditsafe/client.rb:75 | "Invalid countries list specified." is not blank; "" and whitespace are |

## Left out

- Savon, WSDL loading, the Excon transport and `build_savon_client`
  (lib/creditsafe/client.rb:118-146). These are foreign libraries. A call's outcome is an
  input datatype, `Client.Transport`.
- The memoised `@client` (lib/creditsafe/client.rb:118-120). It only matters for lazy
  initialisation.
- The Base64 Basic-auth header (lib/creditsafe/client.rb:122-125). It is a library call.
- XPath traversal of the response (lib/creditsafe/client.rb:68-69). A response arrives as
  the two lists of message elements, each with its `Code` attribute and text.
- `ActiveSupport::Notifications.publish`, `Time.now` and `SecureRandom`
  (lib/creditsafe/client.rb:82, 93-99):
  - the event is returned as a value;
  - the clock readings and the random bytes are parameters.
- The log level and Savon options are stored but not used by the modelled logic.
- A finer mapping of Excon errors to `TimeoutError` and `BadGatewayError`. The code has
  none (see above).
- Client operations that lib/creditsafe/client.rb does not define, such as
  `get_portfolios` and `list_monitored_companies`. The other request builders are left
  out too, because they only copy fields:
  - get_portfolios.rb, create_portfolio.rb, get_portfolio_monitoring_rules.rb;
  - set_default_changes_check_period.rb, get_supported_change_events.rb;
  - add_companies_to_portfolios.rb, list_monitored_companies.rb and
    remove_companies_from_portfolios.rb, which reference a namespace constant that
    lib/creditsafe/namespace.rb does not define.

  `SetPortfolioMonitoringRules` is modelled on its own, since it has structure worth
  stating.
- `Creditsafe::MatchType` is not part of this model. Its `ALLOWED` table and `MATCH_BLOCK`
  are a parameter, `FindCompany.MatchTypeTable`.
- The namespace URIs and `Namespace::ALL` (lib/creditsafe/namespace.rb:6-18). Only the
  prefixes reach the modelled payloads.
- Test fixture loading (spec/spec_helper.rb).
- FindCompany.MatchType: `String#upcase` is modelled for ASCII letters only. Ruby also
  upper-cases non-ASCII letters, which no country code contains.
- CompanyReport.IdToString: ids other than strings and integers are not modelled. For
  other objects, Ruby's `to_s` is user-defined.
- Client.New: the environment may be a string or a symbol in Ruby (`to_sym`). The model
  takes its text.
- Hashes.Fetch: an array is fetched only with symbol keys here, so it always raises
  TypeError. Ruby's `Array#fetch` with an integer index is not modelled, because no
  modelled path has an integer key.
