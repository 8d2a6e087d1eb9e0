/** The merchant entities (merchants/entities/merchant.rb and the disbursement view of a
    merchant handed to the disbursement engine). */
module MerchantEntities {
  import opened Calendar

  /** A Ruby value stored as the merchant's frequency: the entity compares it against the
      symbols :daily and :weekly, so a string with the same letters is a different value. */
  datatype FrequencyValue = Symbol(name: string) | Text(text: string) | Nil

  /** Merchant entity: `live_on` is a day number; the minimum monthly fee is in cents. */
  datatype Merchant = Merchant(
    id: string,
    reference: string,
    email: string,
    liveOn: int,
    disbursementFrequency: FrequencyValue,
    minimumMonthlyFeeCents: int)

  /** The merchant as the disbursement engine sees it: the frequency is the string
      "daily" or "weekly" that the window and the factory key on. */
  datatype DisbursableMerchant = DisbursableMerchant(
    id: string,
    reference: string,
    disbursementFrequency: string,
    liveOn: int,
    minimumMonthlyFeeCents: int)

  /** `ready_for_disbursement?`. */
  predicate ReadyForDisbursement(m: Merchant, date: int)
  {
    if m.disbursementFrequency == Symbol("daily") then true
    else if m.disbursementFrequency == Symbol("weekly") then WeekDay(date) == WeekDay(m.liveOn)
    else false
  }

  lemma ReadyForDisbursementCases(m: Merchant, date: int)
    ensures m.disbursementFrequency == Symbol("daily") ==> ReadyForDisbursement(m, date)
    ensures m.disbursementFrequency == Symbol("weekly") ==>
              (ReadyForDisbursement(m, date) <==> WeekDay(date) == WeekDay(m.liveOn))
    ensures (m.disbursementFrequency != Symbol("daily") && m.disbursementFrequency != Symbol("weekly"))
              ==> !ReadyForDisbursement(m, date)
    ensures m.disbursementFrequency == Text("daily") ==> !ReadyForDisbursement(m, date)
  {
  }

  /** A weekly merchant is ready on its live day and on every date a whole number of weeks later. */
  lemma WeeklyReadyEveryWeek(m: Merchant, k: nat)
    requires m.disbursementFrequency == Symbol("weekly")
    ensures ReadyForDisbursement(m, m.liveOn + 7 * k)
  {
    WeekDayPeriodic(m.liveOn, k);
  }

  /** `calculate_monthly_fee`: the shortfall of the month's fees against the minimum. */
  function CalculateMonthlyFee(m: Merchant, monthFeesCents: int): (r: int)
    ensures r >= 0
    ensures monthFeesCents >= m.minimumMonthlyFeeCents ==> r == 0
    ensures monthFeesCents < m.minimumMonthlyFeeCents ==> monthFeesCents + r == m.minimumMonthlyFeeCents
    ensures monthFeesCents >= 0 && m.minimumMonthlyFeeCents >= 0 ==> r <= m.minimumMonthlyFeeCents
  {
    if monthFeesCents >= m.minimumMonthlyFeeCents then 0
    else m.minimumMonthlyFeeCents - monthFeesCents
  }

  lemma MonthlyFeeExamples(m: Merchant)
    requires m.minimumMonthlyFeeCents == 1000
    ensures CalculateMonthlyFee(m, 2000) == 0
    ensures CalculateMonthlyFee(m, 500) == 500
    ensures CalculateMonthlyFee(m, 1000) == 0
  {
  }
}
