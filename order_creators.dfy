/** The order creator (orders/services/order_creators/base_creator.rb): validate the amount,
    normalise the order data and hand it to the order repository, a parameter here. */
module OrderCreators {
  import opened Common
  import opened Strings
  import opened Money
  import opened OrderModel

  /** The incoming order data: the amount is a decimal in euros. */
  datatype OrderInput = OrderInput(
    id: Option<string>,
    merchantReference: Option<string>,
    amount: Decimal,
    createdAt: Option<int>)

  /** The class `call` is sent to: BaseCreator itself, or a subclass that inherits `call`. */
  datatype CreatorClass = BaseCreator | Subclass

  const AbstractMessage := "Domain::Orders::Services::OrderCreators::BaseCreator is an abstract class"

  /** `validate_amount`: raised without a message, so the message is the class name. */
  function ValidateAmount(input: OrderInput): Option<Error>
  {
    if FromAmountCents(input.amount) >= 0 then None
    else Some(Error(InvalidMinimumAmount, "Domain::Orders::Errors::InvalidMinimumAmount"))
  }

  /** `normalize_order_data`: the amount in cents (half away from zero) and always "EUR". */
  function Normalize(input: OrderInput): OrderAttributes
  {
    OrderAttributes(input.id, input.merchantReference, Some(FromAmountCents(input.amount)), Some("EUR"), input.createdAt)
  }

  /** `BaseCreator.call(input)` with the repository's `create`. */
  function Call<R>(cls: CreatorClass, input: OrderInput, create: OrderAttributes -> Result<R, Error>): Result<R, Error>
  {
    if cls == BaseCreator then Err(Error(NotImplementedError, AbstractMessage))
    else
      match ValidateAmount(input)
      case Some(e) => Err(e)
      case None => create(Normalize(input))
  }

  /** BaseCreator is abstract; a subclass raises InvalidMinimumAmount exactly when the
      amount rounds below 0 cents, and otherwise returns the repository's answer for the
      normalised data, its errors included. */
  lemma CallCases<R>(cls: CreatorClass, input: OrderInput, create: OrderAttributes -> Result<R, Error>)
    ensures cls == BaseCreator ==> Call(cls, input, create) == Err(Error(NotImplementedError, AbstractMessage))
    ensures cls == Subclass && FromAmountCents(input.amount) < 0 ==>
      Call(cls, input, create) == Err(Error(InvalidMinimumAmount, "Domain::Orders::Errors::InvalidMinimumAmount"))
    ensures cls == Subclass && FromAmountCents(input.amount) >= 0 ==> Call(cls, input, create) == create(Normalize(input))
  {
  }

  /** The normalised data carries "EUR", the id (nil included), reference and creation time
      unchanged, and the cents nearest to the amount; it passes the order record's
      validations exactly when the reference names a merchant and is not blank, the time is
      present and the cents are positive, so an amount of 0 passes the creator and is
      refused by the record. */
  lemma NormalizedData(references: set<string>, input: OrderInput)
    ensures var a := Normalize(input);
      && a.amountCurrency == Some("EUR")
      && a.id == input.id && a.merchantReference == input.merchantReference && a.createdAt == input.createdAt
      && (OrderModel.Valid(references, a) <==>
            && input.merchantReference.Some? && input.merchantReference.value in references
            && Present(input.merchantReference) && input.createdAt.Some? && FromAmountCents(input.amount) > 0)
    ensures input.amount.unscaled == 0 ==> ValidateAmount(input).None? && !OrderModel.Valid(references, Normalize(input))
  {
    var a := Normalize(input);
    OrderModel.ValidIff(references, a);
    assert a.amountCents == Some(FromAmountCents(input.amount)) && a.amountCurrency == Some("EUR");
    if input.amount.unscaled == 0 {
      ZeroAmountZeroCents(input.amount);
    }
  }

  lemma ZeroAmountZeroCents(d: Decimal)
    requires d.unscaled == 0
    ensures FromAmountCents(d) == 0
  {
    if d.scale > 2 {
      var q := Pow10(d.scale - 2);
      var c := DivRoundHalfUp(0, q);
      if c > 0 {
        MulMonotone(2 * q, 1, c);
      } else if c < 0 {
        MulMonotone(2 * q, c, -1);
      }
    }
  }

  /** 100.50 becomes 10050 cents; -1.00 is refused. */
  lemma NormalizeExamples(input: OrderInput)
    ensures input.amount == Decimal(10050, 2) ==> Normalize(input).amountCents == Some(10050)
    ensures input.amount == Decimal(-100, 2) ==> ValidateAmount(input).Some?
  {
    MoneyExamples();
  }
}
