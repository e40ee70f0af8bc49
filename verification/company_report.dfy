/** The report request (lib/creditsafe/request/company_report.rb): the company id as a
    string, a fixed report type and language, and optional custom key/value annotations. */
module CompanyReport {
  import opened Wrappers
  import opened Hashes
  import Namespace

  /** The id a caller passes; the client converts it with `to_s`. Ids are strings such as
      "GB003/0/07495895", or integers. */
  datatype CompanyId = TextId(text: string) | NumericId(n: int)

  function DigitChar(d: nat): (c: char)
    requires d < 10
    ensures '0' <= c <= '9'
  {
    ('0' as int + d) as char
  }

  /** Ruby's `Integer#to_s` for a non-negative integer. */
  function NatToString(n: nat): (s: string)
    ensures |s| >= 1
    ensures forall i :: 0 <= i < |s| ==> '0' <= s[i] <= '9'
    ensures |s| > 1 ==> s[0] != '0'
  {
    if n < 10 then [DigitChar(n)] else NatToString(n / 10) + [DigitChar(n % 10)]
  }

  predicate AllDigits(s: string)
  {
    forall i :: 0 <= i < |s| ==> '0' <= s[i] <= '9'
  }

  /** The value of a string of decimal digits. */
  function DigitsValue(s: string): nat
    requires AllDigits(s)
  {
    if s == [] then 0 else DigitsValue(s[..|s| - 1]) * 10 + (s[|s| - 1] as int - '0' as int)
  }

  /** Reading back the decimal text of a number gives the number. */
  lemma {:induction false} NatToStringRoundTrip(n: nat)
    ensures DigitsValue(NatToString(n)) == n
  {
    if n >= 10 {
      var s := NatToString(n);
      assert s[..|s| - 1] == NatToString(n / 10);
      NatToStringRoundTrip(n / 10);
    }
  }

  /** `company_id.to_s`. */
  function IdToString(id: CompanyId): (s: string)
    ensures id.TextId? ==> s == id.text
    ensures id.NumericId? && id.n >= 0 ==>
      |s| >= 1 && (|s| > 1 ==> s[0] != '0') && AllDigits(s) && DigitsValue(s) == id.n
    ensures id.NumericId? && id.n < 0 ==>
      |s| >= 2 && s[0] == '-' && (|s| > 2 ==> s[1] != '0') && AllDigits(s[1..]) && DigitsValue(s[1..]) == -id.n
  {
    match id
    case TextId(t) => t
    case NumericId(n) =>
      if n >= 0 then NatToStringRoundTrip(n); NatToString(n)
      else
        NatToStringRoundTrip(-n);
        assert ("-" + NatToString(-n))[1..] == NatToString(-n);
        "-" + NatToString(-n)
  }

  const CompanyIdKey := Str(Namespace.Qualified(Namespace.Oper, "companyId"))
  const ReportTypeKey := Str(Namespace.Qualified(Namespace.Oper, "reportType"))
  const LanguageKey := Str(Namespace.Qualified(Namespace.Oper, "language"))
  const CustomDataKey := Str(Namespace.Qualified(Namespace.Oper, "customData"))
  const EntriesKey := Str(Namespace.Qualified(Namespace.Dat, "Entries"))
  const EntryKey := Str(Namespace.Qualified(Namespace.Dat, "Entry"))
  const AttributeKey := Sym("@key")
  const ContentKey := Sym("content!")

  /** One `Entry` element: the key as its `key` attribute, the value as its content. */
  function Entry(pair: (Value, Value)): Value
  {
    Hash([(AttributeKey, pair.0), (ContentKey, pair.1)])
  }

  /** Reads the key and value back out of an `Entry` element. */
  function EntryPair(entry: Value): Option<(Value, Value)>
  {
    if entry.Hash? && AttributeKey in Keys(entry.entries) && ContentKey in Keys(entry.entries)
    then Some((Lookup(entry.entries, AttributeKey).value, Lookup(entry.entries, ContentKey).value))
    else None
  }

  /** `custom_data_entries`: one Entry per pair of the custom data, in insertion order. */
  function CustomDataEntries(customData: seq<(Value, Value)>): seq<Value>
  {
    seq(|customData|, i requires 0 <= i < |customData| => Entry(customData[i]))
  }

  /** Reads the pairs back out of a list of Entry elements; None if one is malformed. */
  function EntryPairs(entries: seq<Value>): Option<seq<(Value, Value)>>
  {
    if entries == [] then Some([])
    else match (EntryPair(entries[0]), EntryPairs(entries[1..]))
      case (Some(p), Some(ps)) => Some([p] + ps)
      case _ => None
  }

  /** The Entry list records every custom-data pair, keys and values, in order: reading it
      back gives the custom data exactly. */
  lemma {:induction false} CustomDataRoundTrip(customData: seq<(Value, Value)>)
    ensures |CustomDataEntries(customData)| == |customData|
    ensures EntryPairs(CustomDataEntries(customData)) == Some(customData)
  {
    if customData != [] {
      EntryRoundTrip(customData[0]);
      assert CustomDataEntries(customData)[1..] == CustomDataEntries(customData[1..]);
      CustomDataRoundTrip(customData[1..]);
      assert [customData[0]] + customData[1..] == customData;
    }
  }

  /** An Entry element gives back the pair it was built from. */
  lemma EntryRoundTrip(pair: (Value, Value))
    ensures EntryPair(Entry(pair)) == Some(pair)
  {
    var e := Entry(pair).entries;
    assert AttributeKey != ContentKey;
    assert Keys(e) == [AttributeKey, ContentKey];
    assert e[1..] == [(ContentKey, pair.1)];
    LookupStored(e, 1);
  }

  /** The report request payload before the optional custom data. */
  function BaseEntries(id: CompanyId): seq<(Value, Value)>
  {
    [(CompanyIdKey, Str(IdToString(id))), (ReportTypeKey, Str("Full")), (LanguageKey, Str("EN"))]
  }

  /** The customData element wrapping the Entry list. */
  function CustomDataElement(customData: seq<(Value, Value)>): Value
  {
    Hash([(EntriesKey, Hash([(EntryKey, List(CustomDataEntries(customData)))]))])
  }

  /** `message`: company id, report type "Full", language "EN", and the custom data only
      when the caller gave some. */
  function Message(id: CompanyId, customData: Option<seq<(Value, Value)>>): Value
  {
    if customData.None? then Hash(BaseEntries(id))
    else Hash(Put(BaseEntries(id), CustomDataKey, CustomDataElement(customData.value)))
  }

  /** The payload's keys: the three fixed ones, and customData exactly when custom data was
      given; no key twice. */
  lemma MessageKeys(id: CompanyId, customData: Option<seq<(Value, Value)>>)
    ensures Message(id, customData).Hash?
    ensures customData.None? ==>
      Keys(Message(id, customData).entries) == [CompanyIdKey, ReportTypeKey, LanguageKey]
    ensures customData.Some? ==>
      Keys(Message(id, customData).entries) == [CompanyIdKey, ReportTypeKey, LanguageKey, CustomDataKey]
    ensures DistinctKeys(Message(id, customData).entries)
  {
    assert Keys(BaseEntries(id)) == [CompanyIdKey, ReportTypeKey, LanguageKey];
  }

  /** The company id is sent as its string form, with the fixed report type and language. */
  lemma MessageFixedFields(id: CompanyId, customData: Option<seq<(Value, Value)>>)
    ensures Lookup(Message(id, customData).entries, CompanyIdKey) == Some(Str(IdToString(id)))
    ensures Lookup(Message(id, customData).entries, ReportTypeKey) == Some(Str("Full"))
    ensures Lookup(Message(id, customData).entries, LanguageKey) == Some(Str("EN"))
  {
    var base := BaseEntries(id);
    assert base[1..] == [(ReportTypeKey, Str("Full")), (LanguageKey, Str("EN"))];
    assert base[1..][1..] == [(LanguageKey, Str("EN"))];
    assert CustomDataKey.s[5] != ReportTypeKey.s[5];
    assert Lookup(base[1..][1..], LanguageKey) == Some(Str("EN"));
    assert Lookup(base[1..], LanguageKey) == Some(Str("EN"));
    assert Lookup(base, LanguageKey) == Some(Str("EN"));
    if customData.Some? {
      var c := CustomDataElement(customData.value);
      PutOtherKey(base, CustomDataKey, c, CompanyIdKey);
      PutOtherKey(base, CustomDataKey, c, ReportTypeKey);
      PutOtherKey(base, CustomDataKey, c, LanguageKey);
    }
  }

  /** With custom data, the Entry list sits under customData / Entries / Entry. */
  lemma MessageCustomData(id: CompanyId, customData: seq<(Value, Value)>)
    ensures FetchPath(Message(id, Some(customData)), [CustomDataKey, EntriesKey, EntryKey]) ==
      Success(List(CustomDataEntries(customData)))
  {
    var m := Message(id, Some(customData));
    var c := CustomDataElement(customData);
    var inner := Hash([(EntryKey, List(CustomDataEntries(customData)))]);
    PutLookup(BaseEntries(id), CustomDataKey, c);
    assert Keys(c.entries) == [EntriesKey];
    assert Keys(inner.entries) == [EntryKey];
    assert Fetch(inner, EntryKey) == Success(List(CustomDataEntries(customData)));
    assert FetchPath(inner, [EntryKey]) == Success(List(CustomDataEntries(customData))) by {
      assert [EntryKey][1..] == [];
    }
    assert FetchPath(c, [EntriesKey, EntryKey]) == Success(List(CustomDataEntries(customData))) by {
      assert [EntriesKey, EntryKey][1..] == [EntryKey];
    }
    assert [CustomDataKey, EntriesKey, EntryKey][1..] == [EntriesKey, EntryKey];
  }
}
