/** The frequency-based factory (disbursements/factories/frequency_based_factory.rb): picks
    the calculator class from the merchant's frequency string. */
module FrequencyFactory {
  import opened Common
  import opened MerchantEntities
  import opened Calculators

  /** SERVICES: the frequency keys and the classes they select. */
  function ServiceFor(frequency: string): Option<Kind>
  {
    if frequency == "daily" then Some(Daily)
    else if frequency == "weekly" then Some(Weekly)
    else None
  }

  /** `create(frequency, merchant, date, repository)`. */
  function Create(frequency: string, merchant: DisbursableMerchant, date: int): (r: Result<Calculator, Error>)
  {
    match ServiceFor(frequency)
    case None => Err(Error(InvalidFrequencyError, "Unknown frequency: " + frequency))
    case Some(k) => Ok(Calculator(k, merchant, date))
  }

  /** "daily" and "weekly" build Daily and Weekly calculators for the same merchant and date;
      every other key (case matters) raises InvalidFrequencyError, and Base is never built. */
  lemma CreateCases(frequency: string, merchant: DisbursableMerchant, date: int)
    ensures frequency == "daily" ==> Create(frequency, merchant, date) == Ok(Calculator(Daily, merchant, date))
    ensures frequency == "weekly" ==> Create(frequency, merchant, date) == Ok(Calculator(Weekly, merchant, date))
    ensures Create(frequency, merchant, date).Err? <==> frequency != "daily" && frequency != "weekly"
    ensures Create(frequency, merchant, date).Err? ==>
      Create(frequency, merchant, date).error == Error(InvalidFrequencyError, "Unknown frequency: " + frequency)
    ensures Create(frequency, merchant, date).Ok? ==>
      var c := Create(frequency, merchant, date).value;
      c.kind != Base && c.merchant == merchant && c.date == date
  {
  }

  lemma CreateExamples(merchant: DisbursableMerchant, date: int)
    ensures Create("DAILY", merchant, date) == Err(Error(InvalidFrequencyError, "Unknown frequency: DAILY"))
    ensures Create("monthly", merchant, date) == Err(Error(InvalidFrequencyError, "Unknown frequency: monthly"))
  {
    assert "Unknown frequency: " + "DAILY" == "Unknown frequency: DAILY";
    assert "Unknown frequency: " + "monthly" == "Unknown frequency: monthly";
  }
}
