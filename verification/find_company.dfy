/** The company-search request (lib/creditsafe/request/find_company.rb): the validation of
    the caller's search criteria, in a fixed order, and the payload built from the criteria
    that are present. */
module FindCompany {
  import opened Wrappers
  import opened Errors
  import opened Hashes
  import Country
  import Namespace

  /** The caller's `search_criteria` hash; a key the caller left out reads as nil. */
  datatype SearchCriteria = SearchCriteria(
    countryCode: Option<string>,
    registrationNumber: Option<string>,
    companyName: Option<string>,
    vatNumber: Option<string>,
    city: Option<string>,
    postalCode: Option<string>)

  /** The checks of `check_search_criteria`, in the order they run. */
  datatype Violation =
    | MissingCountryCode
    | NotExactlyOneCriterion
    | CityOutsideGermany
    | PostalCodeOutsideGermany
    | VatNumberUnsupported

  /** The ArgumentError message each violation raises. */
  function ViolationText(v: Violation): string
  {
    match v
    case MissingCountryCode => "country_code is a required search criteria"
    case NotExactlyOneCriterion =>
      "only one of registration_number, company_name or vat number is required search criteria"
    case CityOutsideGermany => "city is only supported for German searches"
    case PostalCodeOutsideGermany => "Postal code is only supported for German searches"
    case VatNumberUnsupported => "VAT number is not supported in this country"
  }

  /** `only_one_required_criteria?`: the three presence flags xor-ed together, excluding
      the case where all three are present. */
  predicate OnlyOneRequiredCriteria(sc: SearchCriteria)
  {
    var byRegistrationNumber := sc.registrationNumber.Some?;
    var byCompanyName := sc.companyName.Some?;
    var byVatNumber := sc.vatNumber.Some?;
    ((byRegistrationNumber != byCompanyName) != byVatNumber)
      && !(byRegistrationNumber && byCompanyName && byVatNumber)
  }

  /** How many of registration number, company name and VAT number are present. */
  function RequiredCriteriaCount(sc: SearchCriteria): nat
  {
    (if sc.registrationNumber.Some? then 1 else 0)
      + (if sc.companyName.Some? then 1 else 0)
      + (if sc.vatNumber.Some? then 1 else 0)
  }

  /** The xor formula holds exactly when precisely one of the three is present. */
  lemma OnlyOneMeansExactlyOne(sc: SearchCriteria)
    ensures OnlyOneRequiredCriteria(sc) <==> RequiredCriteriaCount(sc) == 1
  {
  }

  /** Every condition the criteria must meet, independently of the order of the checks. */
  predicate Acceptable(sc: SearchCriteria)
  {
    && sc.countryCode.Some?
    && OnlyOneRequiredCriteria(sc)
    && (sc.city.Some? ==> sc.countryCode.value == Country.Germany)
    && (sc.postalCode.Some? ==> sc.countryCode.value == Country.Germany)
    && (sc.vatNumber.Some? ==> Country.SupportsVatNumber(sc.countryCode.value))
  }

  /** `check_search_criteria`: None when the criteria pass, otherwise the first check, in
      the order country, exactly-one, city, postal code, VAT, that fails. */
  function CheckSearchCriteria(sc: SearchCriteria): (r: Option<Violation>)
    ensures r.None? <==> Acceptable(sc)
    ensures r == Some(MissingCountryCode) <==> sc.countryCode.None?
    ensures r == Some(NotExactlyOneCriterion) <==>
      sc.countryCode.Some? && !OnlyOneRequiredCriteria(sc)
    ensures r == Some(CityOutsideGermany) <==>
      sc.countryCode.Some? && OnlyOneRequiredCriteria(sc)
      && sc.city.Some? && sc.countryCode.value != Country.Germany
    ensures r == Some(PostalCodeOutsideGermany) <==>
      sc.countryCode.Some? && OnlyOneRequiredCriteria(sc)
      && (sc.city.Some? ==> sc.countryCode.value == Country.Germany)
      && sc.postalCode.Some? && sc.countryCode.value != Country.Germany
    ensures r == Some(VatNumberUnsupported) <==>
      sc.countryCode.Some? && OnlyOneRequiredCriteria(sc)
      && (sc.city.Some? ==> sc.countryCode.value == Country.Germany)
      && (sc.postalCode.Some? ==> sc.countryCode.value == Country.Germany)
      && sc.vatNumber.Some? && !Country.SupportsVatNumber(sc.countryCode.value)
  {
    if sc.countryCode.None? then Some(MissingCountryCode)
    else if !OnlyOneRequiredCriteria(sc) then Some(NotExactlyOneCriterion)
    else if sc.city.Some? && sc.countryCode.value != Country.Germany then Some(CityOutsideGermany)
    else if sc.postalCode.Some? && sc.countryCode.value != Country.Germany then Some(PostalCodeOutsideGermany)
    else if sc.vatNumber.Some? && !Country.SupportsVatNumber(sc.countryCode.value) then Some(VatNumberUnsupported)
    else None
  }

  /** A `FindCompany` object: criteria that passed validation, so the country is known. */
  datatype Request = Request(
    countryCode: string,
    registrationNumber: Option<string>,
    companyName: Option<string>,
    vatNumber: Option<string>,
    city: Option<string>,
    postalCode: Option<string>)

  /** `FindCompany.new`: validate, then keep the six criteria. */
  function New(sc: SearchCriteria): (r: Result<Request, ArgumentError>)
    ensures r.Success? <==> Acceptable(sc)
    ensures r.Failure? ==> r.error == ArgumentError(ViolationText(CheckSearchCriteria(sc).value))
    ensures r.Success? ==>
      && Some(r.value.countryCode) == sc.countryCode
      && r.value.registrationNumber == sc.registrationNumber
      && r.value.companyName == sc.companyName
      && r.value.vatNumber == sc.vatNumber
      && r.value.city == sc.city
      && r.value.postalCode == sc.postalCode
  {
    match CheckSearchCriteria(sc)
    case Some(v) => Failure(ArgumentError(ViolationText(v)))
    case None => Success(Request(sc.countryCode.value, sc.registrationNumber, sc.companyName,
                                 sc.vatNumber, sc.city, sc.postalCode))
  }

  /** `Creditsafe::MatchType`, which lies outside the model: its `ALLOWED` table, from
      upper-cased country code to the match types allowed there, and its `MATCH_BLOCK`. */
  datatype MatchTypeTable = MatchTypeTable(allowed: map<string, seq<string>>, matchBlock: string)

  /** ASCII upper-casing. */
  function Upcase(s: string): (u: string)
    ensures |u| == |s|
    ensures forall i :: 0 <= i < |s| ==>
      u[i] == if 'a' <= s[i] <= 'z' then (s[i] as int - 32) as char else s[i]
  {
    seq(|s|, i requires 0 <= i < |s| => if 'a' <= s[i] <= 'z' then (s[i] as int - 32) as char else s[i])
  }

  /** `match_type`: the first match type allowed for the country, or MATCH_BLOCK when the
      country has no entry or an empty one. */
  function MatchType(countryCode: string, table: MatchTypeTable): (m: string)
    ensures Upcase(countryCode) in table.allowed && table.allowed[Upcase(countryCode)] != [] ==>
      m == table.allowed[Upcase(countryCode)][0]
    ensures !(Upcase(countryCode) in table.allowed && table.allowed[Upcase(countryCode)] != []) ==>
      m == table.matchBlock
  {
    var key := Upcase(countryCode);
    if key in table.allowed && table.allowed[key] != [] then table.allowed[key][0]
    else table.matchBlock
  }

  /** Element names of the search payload. */
  const NameKey := Str(Namespace.Qualified(Namespace.Dat, "Name"))
  const RegistrationNumberKey := Str(Namespace.Qualified(Namespace.Dat, "RegistrationNumber"))
  const VatNumberKey := Str(Namespace.Qualified(Namespace.Dat, "VatNumber"))
  const AddressKey := Str(Namespace.Qualified(Namespace.Dat, "Address"))
  const CityKey := Str(Namespace.Qualified(Namespace.Dat, "City"))
  const PostalCodeKey := Str(Namespace.Qualified(Namespace.Dat, "PostalCode"))
  const CountriesKey := Str(Namespace.Qualified(Namespace.Oper, "countries"))
  const CountryCodeKey := Str(Namespace.Qualified(Namespace.Cred, "CountryCode"))
  const SearchCriteriaKey := Str(Namespace.Qualified(Namespace.Oper, "searchCriteria"))

  /** `h[k] = v` when the field is present, nothing otherwise. */
  function PutIfPresent(h: seq<(Value, Value)>, k: Value, field: Option<string>, v: Value): seq<(Value, Value)>
  {
    if field.Some? then Put(h, k, v) else h
  }

  /** The `search_criteria` hash built by `message`, one assignment per non-nil field, in
      the order name, registration number, VAT number, city, postal code. */
  function SearchCriteriaEntries(req: Request, table: MatchTypeTable): seq<(Value, Value)>
  {
    var h1 := PutIfPresent([], NameKey, req.companyName,
      Hash([(Str("@MatchType"), Str(MatchType(req.countryCode, table))),
            (Sym("content!"), Str(req.companyName.GetOr("")))]));
    var h2 := PutIfPresent(h1, RegistrationNumberKey, req.registrationNumber,
      Str(req.registrationNumber.GetOr("")));
    var h3 := PutIfPresent(h2, VatNumberKey, req.vatNumber, Str(req.vatNumber.GetOr("")));
    var h4 := PutIfPresent(h3, AddressKey, req.city,
      Hash([(CityKey, Str(req.city.GetOr("")))]));
    PutIfPresent(h4, AddressKey, req.postalCode,
      Hash([(PostalCodeKey, Str(req.postalCode.GetOr("")))]))
  }

  /** `message` and `build_message`: the countries element and the search criteria. */
  function Message(req: Request, table: MatchTypeTable): Value
  {
    Hash([
      (CountriesKey, Hash([(CountryCodeKey, Str(req.countryCode))])),
      (SearchCriteriaKey, Hash(SearchCriteriaEntries(req, table)))
    ])
  }

  /** The search-criteria keys are four distinct element names. */
  lemma CriteriaKeysDistinct()
    ensures NameKey != RegistrationNumberKey && NameKey != VatNumberKey && NameKey != AddressKey
    ensures RegistrationNumberKey != VatNumberKey && RegistrationNumberKey != AddressKey
    ensures VatNumberKey != AddressKey
  {
  }

  /** The search criteria hold a key exactly for each non-nil field (city and postal code
      share the Address key), and no other key. */
  lemma SearchCriteriaKeys(req: Request, table: MatchTypeTable)
    ensures DistinctKeys(SearchCriteriaEntries(req, table))
    ensures NameKey in Keys(SearchCriteriaEntries(req, table)) <==> req.companyName.Some?
    ensures RegistrationNumberKey in Keys(SearchCriteriaEntries(req, table)) <==>
      req.registrationNumber.Some?
    ensures VatNumberKey in Keys(SearchCriteriaEntries(req, table)) <==> req.vatNumber.Some?
    ensures AddressKey in Keys(SearchCriteriaEntries(req, table)) <==>
      req.city.Some? || req.postalCode.Some?
    ensures forall k :: k in Keys(SearchCriteriaEntries(req, table)) ==>
      k in [NameKey, RegistrationNumberKey, VatNumberKey, AddressKey]
  {
    CriteriaKeysDistinct();
    var h1 := PutIfPresent([], NameKey, req.companyName,
      Hash([(Str("@MatchType"), Str(MatchType(req.countryCode, table))),
            (Sym("content!"), Str(req.companyName.GetOr("")))]));
    var h2 := PutIfPresent(h1, RegistrationNumberKey, req.registrationNumber,
      Str(req.registrationNumber.GetOr("")));
    var h3 := PutIfPresent(h2, VatNumberKey, req.vatNumber, Str(req.vatNumber.GetOr("")));
    var h4 := PutIfPresent(h3, AddressKey, req.city,
      Hash([(CityKey, Str(req.city.GetOr("")))]));
    var h5 := PutIfPresent(h4, AddressKey, req.postalCode,
      Hash([(PostalCodeKey, Str(req.postalCode.GetOr("")))]));
    assert h5 == SearchCriteriaEntries(req, table);
    PutIfPresentKeys([], NameKey, req.companyName,
      Hash([(Str("@MatchType"), Str(MatchType(req.countryCode, table))),
            (Sym("content!"), Str(req.companyName.GetOr("")))]));
    PutIfPresentKeys(h1, RegistrationNumberKey, req.registrationNumber,
      Str(req.registrationNumber.GetOr("")));
    PutIfPresentKeys(h2, VatNumberKey, req.vatNumber, Str(req.vatNumber.GetOr("")));
    PutIfPresentKeys(h3, AddressKey, req.city, Hash([(CityKey, Str(req.city.GetOr("")))]));
    PutIfPresentKeys(h4, AddressKey, req.postalCode,
      Hash([(PostalCodeKey, Str(req.postalCode.GetOr("")))]));
  }

  /** A conditional assignment adds its key exactly when the field is present, keeps the
      others and keeps keys distinct. */
  lemma PutIfPresentKeys(h: seq<(Value, Value)>, k: Value, field: Option<string>, v: Value)
    ensures var r := PutIfPresent(h, k, field, v);
      && (field.Some? ==> k in Keys(r))
      && (forall k' :: k' in Keys(r) <==> k' in Keys(h) || (field.Some? && k' == k))
      && (DistinctKeys(h) ==> DistinctKeys(r))
  {
    var r := PutIfPresent(h, k, field, v);
    if field.Some? {
      PutLookup(h, k, v);
      if DistinctKeys(h) {
        PutKeepsDistinct(h, k, v);
      }
    }
  }

  /** A conditional assignment sets its key when the field is present and leaves every
      other key's value alone. */
  lemma PutIfPresentLookup(h: seq<(Value, Value)>, k: Value, field: Option<string>, v: Value, k': Value)
    ensures field.Some? ==> Lookup(PutIfPresent(h, k, field, v), k) == Some(v)
    ensures k' != k ==> Lookup(PutIfPresent(h, k, field, v), k') == Lookup(h, k')
  {
    if field.Some? {
      PutLookup(h, k, v);
      if k' != k {
        PutOtherKey(h, k, v, k');
      }
    }
  }

  /** Each present field is stored under its key. When both city and postal code are
      given, the Address entry holds only the postal code: the later assignment replaces
      the earlier one. */
  lemma SearchCriteriaValues(req: Request, table: MatchTypeTable)
    ensures req.companyName.Some? ==>
      Lookup(SearchCriteriaEntries(req, table), NameKey) ==
        Some(Hash([(Str("@MatchType"), Str(MatchType(req.countryCode, table))),
                   (Sym("content!"), Str(req.companyName.value))]))
    ensures req.registrationNumber.Some? ==>
      Lookup(SearchCriteriaEntries(req, table), RegistrationNumberKey) ==
        Some(Str(req.registrationNumber.value))
    ensures req.vatNumber.Some? ==>
      Lookup(SearchCriteriaEntries(req, table), VatNumberKey) == Some(Str(req.vatNumber.value))
    ensures req.city.Some? && req.postalCode.None? ==>
      Lookup(SearchCriteriaEntries(req, table), AddressKey) ==
        Some(Hash([(CityKey, Str(req.city.value))]))
    ensures req.postalCode.Some? ==>
      Lookup(SearchCriteriaEntries(req, table), AddressKey) ==
        Some(Hash([(PostalCodeKey, Str(req.postalCode.value))]))
  {
    CriteriaKeysDistinct();
    var name := Hash([(Str("@MatchType"), Str(MatchType(req.countryCode, table))),
                      (Sym("content!"), Str(req.companyName.GetOr("")))]);
    var reg := Str(req.registrationNumber.GetOr(""));
    var vat := Str(req.vatNumber.GetOr(""));
    var city := Hash([(CityKey, Str(req.city.GetOr("")))]);
    var postal := Hash([(PostalCodeKey, Str(req.postalCode.GetOr("")))]);
    var h1 := PutIfPresent([], NameKey, req.companyName, name);
    var h2 := PutIfPresent(h1, RegistrationNumberKey, req.registrationNumber, reg);
    var h3 := PutIfPresent(h2, VatNumberKey, req.vatNumber, vat);
    var h4 := PutIfPresent(h3, AddressKey, req.city, city);
    var h5 := PutIfPresent(h4, AddressKey, req.postalCode, postal);
    assert h5 == SearchCriteriaEntries(req, table);
    PutIfPresentLookup([], NameKey, req.companyName, name, NameKey);
    PutIfPresentLookup(h1, RegistrationNumberKey, req.registrationNumber, reg, NameKey);
    PutIfPresentLookup(h2, VatNumberKey, req.vatNumber, vat, NameKey);
    PutIfPresentLookup(h3, AddressKey, req.city, city, NameKey);
    PutIfPresentLookup(h4, AddressKey, req.postalCode, postal, NameKey);
    PutIfPresentLookup(h2, VatNumberKey, req.vatNumber, vat, RegistrationNumberKey);
    PutIfPresentLookup(h3, AddressKey, req.city, city, RegistrationNumberKey);
    PutIfPresentLookup(h4, AddressKey, req.postalCode, postal, RegistrationNumberKey);
    PutIfPresentLookup(h3, AddressKey, req.city, city, VatNumberKey);
    PutIfPresentLookup(h4, AddressKey, req.postalCode, postal, VatNumberKey);
    PutIfPresentLookup(h4, AddressKey, req.postalCode, postal, AddressKey);
  }

  /** The payload's countries element carries the request's country code. */
  lemma MessageCountryCode(req: Request, table: MatchTypeTable)
    ensures FetchPath(Message(req, table), [CountriesKey, CountryCodeKey]) == Success(Str(req.countryCode))
    ensures FetchPath(Message(req, table), [SearchCriteriaKey]) ==
      Success(Hash(SearchCriteriaEntries(req, table)))
    ensures Keys(Message(req, table).entries) == [CountriesKey, SearchCriteriaKey]
  {
    assert CountriesKey != SearchCriteriaKey;
    var m := Message(req, table);
    assert Keys(m.entries) == [CountriesKey, SearchCriteriaKey];
    var countries := Hash([(CountryCodeKey, Str(req.countryCode))]);
    assert Fetch(m, CountriesKey) == Success(countries);
    assert Fetch(countries, CountryCodeKey) == Success(Str(req.countryCode));
    assert [CountryCodeKey][1..] == [];
    assert FetchPath(countries, [CountryCodeKey]) == Success(Str(req.countryCode));
    assert [CountriesKey, CountryCodeKey][1..] == [CountryCodeKey];
    LookupStored(m.entries, 1);
    assert Fetch(m, SearchCriteriaKey) == Success(Hash(SearchCriteriaEntries(req, table)));
  }

  /** A search that passes validation names exactly one of company name, registration
      number and VAT number, and carries an Address only for a German search. */
  lemma AcceptedSearchPayload(sc: SearchCriteria, table: MatchTypeTable)
    requires New(sc).Success?
    ensures var e := SearchCriteriaEntries(New(sc).value, table);
      && (if NameKey in Keys(e) then 1 else 0) + (if RegistrationNumberKey in Keys(e) then 1 else 0)
         + (if VatNumberKey in Keys(e) then 1 else 0) == 1
      && (AddressKey in Keys(e) ==> sc.countryCode == Some(Country.Germany))
      && FetchPath(Message(New(sc).value, table), [CountriesKey, CountryCodeKey]) ==
         Success(Str(sc.countryCode.value))
  {
    var req := New(sc).value;
    SearchCriteriaKeys(req, table);
    OnlyOneMeansExactlyOne(sc);
    MessageCountryCode(req, table);
  }

  /** The validation outcomes of the worked search examples. */
  lemma ValidationExamples()
    ensures CheckSearchCriteria(SearchCriteria(Some("GB"), Some("RN123"), None, None, None, None)) == None
    ensures CheckSearchCriteria(SearchCriteria(None, Some("RN123"), None, None, None, None)) ==
      Some(MissingCountryCode)
    ensures CheckSearchCriteria(SearchCriteria(Some("GB"), Some("RN123"), Some("Acme"), None, None, None)) ==
      Some(NotExactlyOneCriterion)
    ensures CheckSearchCriteria(SearchCriteria(Some("GB"), Some("RN123"), Some("Acme"), Some("VAT1"), None, None)) ==
      Some(NotExactlyOneCriterion)
    ensures CheckSearchCriteria(SearchCriteria(Some("GB"), Some("RN123"), None, None, Some("Berlin"), None)) ==
      Some(CityOutsideGermany)
    ensures CheckSearchCriteria(SearchCriteria(Some("DE"), Some("RN123"), None, None, Some("Berlin"), None)) == None
    ensures CheckSearchCriteria(SearchCriteria(Some("GB"), Some("RN123"), None, None, None, Some("10115"))) ==
      Some(PostalCodeOutsideGermany)
    ensures CheckSearchCriteria(SearchCriteria(Some("GB"), None, None, Some("VAT1"), None, None)) ==
      Some(VatNumberUnsupported)
    ensures CheckSearchCriteria(SearchCriteria(Some("US"), None, None, Some("VAT1"), None, None)) == None
  {
    Country.VatExamples();
  }
}
