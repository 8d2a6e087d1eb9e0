/** Shared value types: optional values, results that carry a raised error, and the
    errors the source raises (class name plus message). */
module Common {

  datatype Option<+T> = None | Some(value: T)

  datatype Result<+T, +E> = Ok(value: T) | Err(error: E)

  /** The Ruby exception classes the modelled code raises or rescues. */
  datatype ErrorClass =
    | ArgumentError            // DisbursementWindow#start_time, Date.new
    | NotImplementedError      // abstract calculator and creators
    | InvalidFrequencyError    // FrequencyBasedFactory.create
    | ValidationError          // disbursement attribute validation
    | RecordInvalid            // ActiveRecord create! validation failure
    | RecordNotUnique          // a unique index of the store rejected the row
    | InvalidDisbursementFrequency
    | InvalidMinimumMonthlyFee
    | InvalidMinimumAmount
    | MalformedCsv
    | ConstraintError          // a Dry::Types constrained type rejected its input
    | StandardError            // any other failure reported by an abstract collaborator

  datatype Error = Error(errorClass: ErrorClass, message: string)

  /** NotImplementedError descends from ScriptError, so `rescue StandardError` lets it
      through; every other modelled error is a StandardError. */
  predicate IsStandardError(e: Error) { e.errorClass != NotImplementedError }

  /** One entry of an ActiveModel errors collection: the attribute and its message. */
  datatype FieldError = FieldError(attribute: string, message: string)

  const CantBeBlank := "can't be blank"
  const NotANumber := "is not a number"
  /** The error a required `belongs_to` association adds when no associated row exists. */
  const MustExist := "must exist"
}
