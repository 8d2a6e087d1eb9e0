/** The merchant creators (merchants/services/merchant_creators/base_creator.rb and
    api_creator.rb): validate the incoming merchant data, normalise it and hand it to the
    merchant repository, which is a parameter here. */
module MerchantCreators {
  import opened Common
  import opened Strings
  import opened MerchantEntities
  import opened Money
  import DisbursementFrequency

  /** The incoming merchant data: the fee is a decimal amount in euros. */
  datatype MerchantInput = MerchantInput(
    id: Option<string>,
    reference: string,
    email: string,
    disbursementFrequency: string,
    minimumMonthlyFee: Decimal,
    liveOn: int)

  /** The hash given to the repository's `create`. */
  datatype MerchantData = MerchantData(
    id: Option<string>,
    reference: string,
    email: string,
    disbursementFrequency: FrequencyValue,
    minimumMonthlyFeeCents: int,
    liveOn: int)

  /** The class `call` is sent to: BaseCreator itself, or a subclass that inherits `call`. */
  datatype CreatorClass = BaseCreator | Subclass

  const AbstractMessage := "Domain::Merchants::Services::MerchantCreators::BaseCreator is an abstract class"

  /** `validate_merchant_data`: the frequency first, then the fee. The errors are raised
      without a message, so the message is the class name. */
  function Validate(input: MerchantInput): Option<Error>
  {
    if !DisbursementFrequency.IsValid(input.disbursementFrequency) then
      Some(Error(InvalidDisbursementFrequency, "Domain::Merchants::Errors::InvalidDisbursementFrequency"))
    else if FromAmountCents(input.minimumMonthlyFee) < 0 then
      Some(Error(InvalidMinimumMonthlyFee, "Domain::Merchants::Errors::InvalidMinimumMonthlyFee"))
    else None
  }

  /** `normalize_merchant_data`: the fee to cents, rounding half away from zero. */
  function Normalize(input: MerchantInput): MerchantData
  {
    MerchantData(input.id, input.reference, input.email,
                 DisbursementFrequency.Normalize(input.disbursementFrequency),
                 FromAmountCents(input.minimumMonthlyFee), input.liveOn)
  }

  /** `BaseCreator.call(input)` with the repository's `create`. */
  function Call<M>(cls: CreatorClass, input: MerchantInput, create: MerchantData -> Result<M, Error>): Result<M, Error>
  {
    if cls == BaseCreator then Err(Error(NotImplementedError, AbstractMessage))
    else
      match Validate(input)
      case Some(e) => Err(e)
      case None => create(Normalize(input))
  }

  /** BaseCreator is abstract; a subclass raises InvalidDisbursementFrequency unless the
      frequency is "DAILY" or "WEEKLY", checked before the fee, then InvalidMinimumMonthlyFee
      when the fee rounds below 0 cents; otherwise exactly the repository's answer for the
      normalised data comes back, its errors included. */
  lemma CallCases<M>(cls: CreatorClass, input: MerchantInput, create: MerchantData -> Result<M, Error>)
    ensures cls == BaseCreator ==> Call(cls, input, create) == Err(Error(NotImplementedError, AbstractMessage))
    ensures cls == Subclass && input.disbursementFrequency != "DAILY" && input.disbursementFrequency != "WEEKLY" ==>
      Call(cls, input, create) == Err(Error(InvalidDisbursementFrequency, "Domain::Merchants::Errors::InvalidDisbursementFrequency"))
    ensures cls == Subclass && (input.disbursementFrequency == "DAILY" || input.disbursementFrequency == "WEEKLY")
                           && FromAmountCents(input.minimumMonthlyFee) < 0 ==>
      Call(cls, input, create) == Err(Error(InvalidMinimumMonthlyFee, "Domain::Merchants::Errors::InvalidMinimumMonthlyFee"))
    ensures cls == Subclass && (input.disbursementFrequency == "DAILY" || input.disbursementFrequency == "WEEKLY")
                           && FromAmountCents(input.minimumMonthlyFee) >= 0 ==>
      Call(cls, input, create) == create(Normalize(input))
  {
    DisbursementFrequency.ValidIff(input.disbursementFrequency);
  }

  /** What reaches the repository from a subclass: the frequency as the symbol :daily or
      :weekly whose upper case is the input, a fee of at least 0 cents rounded from the
      decimal amount, and id, reference,
      email and live day unchanged. */
  lemma NormalizedData(input: MerchantInput)
    requires Validate(input).None?
    ensures var data := Normalize(input);
      && (data.disbursementFrequency == Symbol("daily") || data.disbursementFrequency == Symbol("weekly"))
      && Upper(data.disbursementFrequency.name) == input.disbursementFrequency
      && data.minimumMonthlyFeeCents >= 0
      && data.minimumMonthlyFeeCents == FromAmountCents(input.minimumMonthlyFee)
      && data.id == input.id && data.reference == input.reference && data.email == input.email && data.liveOn == input.liveOn
  {
    DisbursementFrequency.ValidIff(input.disbursementFrequency);
    DisbursementFrequency.NormalizeRoundTrip(input.disbursementFrequency);
    DisbursementFrequency.ValidityExamples();
  }

  /** A zero fee and a fee that rounds to 0 pass; -1 cent, or any fee rounding below 0,
      does not. */
  lemma FeeValidationExamples(input: MerchantInput)
    requires input.disbursementFrequency == "DAILY"
    ensures Validate(input.(minimumMonthlyFee := Decimal(0, 2))).None?
    ensures Validate(input.(minimumMonthlyFee := Decimal(-4, 3))).None?
    ensures Validate(input.(minimumMonthlyFee := Decimal(-1, 2))).Some?
    ensures Validate(input.(minimumMonthlyFee := Decimal(1000, 2))).None?
    ensures Normalize(input.(minimumMonthlyFee := Decimal(1000, 2))).minimumMonthlyFeeCents == 1000
  {
    DisbursementFrequency.ValidIff(input.disbursementFrequency);
    MoneyExamples();
  }

  // ---- ApiCreator -------------------------------------------------------------------------

  /** ApiCreator#normalize_merchant_data: the fee times 100, truncated toward zero. */
  function ApiNormalize(input: MerchantInput): MerchantData
  {
    MerchantData(input.id, input.reference, input.email,
                 DisbursementFrequency.Normalize(input.disbursementFrequency),
                 TruncatedCents(input.minimumMonthlyFee), input.liveOn)
  }

  /** ApiCreator.call: no validation; normalise and create. */
  function ApiCall<M>(input: MerchantInput, create: MerchantData -> Result<M, Error>): Result<M, Error>
  {
    create(ApiNormalize(input))
  }

  /** ApiCreator skips both validations: whatever the frequency and fee, the repository gets
      the data and its answer, a duplicate-reference error included, is the result. The data
      differs from the base normalisation only in the fee, which is truncated rather than
      rounded, and the two never differ by more than one cent. */
  lemma ApiCallMeaning<M>(input: MerchantInput, create: MerchantData -> Result<M, Error>)
    ensures ApiCall(input, create) == create(ApiNormalize(input))
    ensures ApiNormalize(input) == Normalize(input).(minimumMonthlyFeeCents := TruncatedCents(input.minimumMonthlyFee))
    ensures -1 <= FromAmountCents(input.minimumMonthlyFee) - TruncatedCents(input.minimumMonthlyFee) <= 1
  {
    RoundedVersusTruncated(input.minimumMonthlyFee);
  }

  /** 10.999 becomes 1100 cents through BaseCreator and 1099 through ApiCreator. */
  lemma RoundingDiffersFromApi(input: MerchantInput)
    requires input.minimumMonthlyFee == Decimal(10999, 3)
    ensures Normalize(input).minimumMonthlyFeeCents == 1100
    ensures ApiNormalize(input).minimumMonthlyFeeCents == 1099
  {
  }
}
