/** The disbursement-frequency value object (merchants/value_objects/disbursement_frequency.rb):
    the upper-case names of the frequency keys, membership, and normalisation to a symbol. */
module DisbursementFrequency {
  import opened Strings
  import opened MerchantEntities

  /** The keys of FREQUENCIES, in declaration order. */
  const FrequencyKeys: seq<string> := ["daily", "weekly"]

  /** VALID_VALUES: every key upcased, in key order. */
  function ValidValues(): (vs: seq<string>)
    ensures |vs| == |FrequencyKeys|
    ensures forall i :: 0 <= i < |vs| ==> vs[i] == Upper(FrequencyKeys[i])
  {
    seq(|FrequencyKeys|, i requires 0 <= i < |FrequencyKeys| => Upper(FrequencyKeys[i]))
  }

  /** `values`. */
  function Values(): seq<string> { ValidValues() }

  /** `valid?`: exact, case-sensitive membership. */
  predicate IsValid(value: string) { value in ValidValues() }

  /** `normalize`: downcase, then the symbol of that name. */
  function Normalize(value: string): (r: FrequencyValue)
    ensures r.Symbol? && |r.name| == |value|
    ensures forall i :: 0 <= i < |value| ==> r.name[i] == LowerChar(value[i])
  {
    Symbol(Lower(value))
  }

  lemma ValuesAreDailyAndWeekly()
    ensures Values() == ["DAILY", "WEEKLY"]
  {
    assert Upper("daily") == "DAILY";
    assert Upper("weekly") == "WEEKLY";
  }

  /** `valid?` holds exactly for "DAILY" and "WEEKLY". */
  lemma ValidIff(value: string)
    ensures IsValid(value) <==> value == "DAILY" || value == "WEEKLY"
  {
    ValuesAreDailyAndWeekly();
  }

  lemma ValidityExamples()
    ensures !IsValid("") && !IsValid("daily") && !IsValid("MONTHLY") && !IsValid("INVALID")
    ensures Normalize("DAILY") == Symbol("daily") && Normalize("WEEKLY") == Symbol("weekly")
  {
    ValuesAreDailyAndWeekly();
    assert Lower("DAILY") == "daily";
    assert Lower("WEEKLY") == "weekly";
  }

  /** Normalising a valid value and upcasing the symbol's name gives the value back. */
  lemma NormalizeRoundTrip(value: string)
    requires IsValid(value)
    ensures Upper(Normalize(value).name) == value
    ensures Normalize(value).name in FrequencyKeys
  {
    ValidityExamples();
    ValidIff(value);
    assert Upper("daily") == "DAILY";
    assert Upper("weekly") == "WEEKLY";
  }
}
