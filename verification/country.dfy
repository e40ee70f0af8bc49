/** Country codes (lib/creditsafe/country.rb) and the countries whose companies can be
    searched by VAT number. */
module Country {

  const Australia := "AU"
  const Austria := "AT"
  const Belgium := "BE"
  const Bulgaria := "BG"
  const Canada := "CA"
  const Croatia := "HR"
  const CzechRepublic := "CZ"
  const Denmark := "DK"
  const Estonia := "EE"
  const Finland := "FI"
  const France := "FR"
  const Germany := "DE"
  const GreatBritain := "GB"
  const Greece := "GR"
  const Hungary := "HU"
  const Iceland := "IS"
  const Ireland := "IE"
  const Italy := "IT"
  const Latvia := "LV"
  const Liechtenstein := "LI"
  const Lithuania := "LT"
  const Luxembourg := "LU"
  const Malta := "MT"
  const Moldova := "MD"
  const Netherlands := "NL"
  const NewZealand := "NZ"
  const Norway := "NO"
  const Poland := "PL"
  const Portugal := "PT"
  const Romania := "RO"
  const Slovakia := "SK"
  const Slovenia := "SI"
  const Spain := "ES"
  const Sweden := "SE"
  const Switzerland := "CH"
  const UK := "GB"
  const UnitedStates := "US"

  /** `VAT_NUMBER_SUPPORTED`, in declaration order. */
  const VatNumberSupported: seq<string> := [
    Germany, France, CzechRepublic, Slovakia, Belgium, Poland, Portugal, Spain,
    UnitedStates, Slovenia, Croatia, Bulgaria, Romania, Latvia, Estonia, Moldova,
    Austria, Italy, Hungary, Finland, Denmark, Australia, Greece
  ]

  /** Ruby's `VAT_NUMBER_SUPPORTED.include?(code)`. */
  predicate SupportsVatNumber(code: string)
  {
    code in VatNumberSupported
  }

  /** Two upper-case ASCII letters. */
  predicate TwoLetterCode(c: string)
  {
    |c| == 2 && 'A' <= c[0] <= 'Z' && 'A' <= c[1] <= 'Z'
  }

  /** The VAT table holds 23 pairwise-distinct two-letter codes, Germany among them. */
  lemma VatTableWellFormed()
    ensures |VatNumberSupported| == 23
    ensures forall i :: 0 <= i < |VatNumberSupported| ==> TwoLetterCode(VatNumberSupported[i])
    ensures forall i, j :: 0 <= i < j < |VatNumberSupported| ==>
      VatNumberSupported[i] != VatNumberSupported[j]
    ensures SupportsVatNumber(Germany)
  {
    assert VatNumberSupported[0] == Germany;
  }

  /** The United States supports VAT-number searches; Great Britain does not. */
  lemma VatExamples()
    ensures SupportsVatNumber("US")
    ensures !SupportsVatNumber("GB")
  {
    assert VatNumberSupported[8] == "US";
  }

  /** `UK` and `GREAT_BRITAIN` are the same code. */
  lemma UKIsGreatBritain()
    ensures UK == GreatBritain == "GB"
  {
  }
}
