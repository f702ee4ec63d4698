/** `build_validation_result` and `validate_data`: the two slot rules of the portfolio bot. */
module Validation {
  import opened Wrappers
  import opened Decimal
  import opened Lex

  const InvalidAgeMessage := "This is not a valid age, please provide a different age."
  const RetirementMessage := "Sorry, you are already at retirement age! I cannot recommend a portfolio."
  const MinimumInvestmentMessage :=
    "Your investment amount must be greater than or equal to $5000, please provide a different investment amount."

  /** The oldest accepted age and the smallest accepted investment amount. */
  const MaxAge := 65
  const MinInvestment := 5000

  /**
   * The result dictionary. `message == None` stands for a dictionary WITHOUT a
   * `"message"` key, which is what `build_validation_result` returns when it is
   * given no message content; `RenderValidation` gives the dictionary itself.
   */
  datatype ValidationResult = ValidationResult(isValid: bool, violatedSlot: Option<string>, message: Option<Message>)

  /** The dictionary `build_validation_result` returns. */
  function RenderValidation(v: ValidationResult): (j: Json)
    ensures j.JObj?
    ensures j.fields.Keys == {"isValid", "violatedSlot"} + (if v.message.Some? then {"message"} else {})
    ensures j.fields["isValid"] == JBool(v.isValid) && j.fields["violatedSlot"] == RenderOptional(v.violatedSlot)
    ensures v.message.Some? ==> j.fields["message"] == RenderMessage(v.message.value)
  {
    var base := map["isValid" := JBool(v.isValid), "violatedSlot" := RenderOptional(v.violatedSlot)];
    match v.message
    case None => JObj(base)
    case Some(m) => JObj(base["message" := RenderMessage(m)])
  }

  function BuildValidationResult(isValid: bool, violatedSlot: Option<string>, messageContent: Option<string>)
    : (r: ValidationResult)
    ensures r.isValid == isValid && r.violatedSlot == violatedSlot
    ensures "message" in RenderValidation(r).fields <==> messageContent.Some?
    ensures messageContent.Some? ==> r.message == Some(PlainText(messageContent.value))
  {
    match messageContent
    case None => ValidationResult(isValid, violatedSlot, None)
    case Some(content) => ValidationResult(isValid, violatedSlot, Some(PlainText(content)))
  }

  /** A slot value that is present, parsed; `None` when absent or when `int()` rejects it (the NaN case). */
  function Parsed(v: Option<string>): Option<int> {
    if v.None? then None else ParseInt(v.value)
  }

  predicate AgeBelowZero(age: Option<string>) {
    Parsed(age).Some? && Parsed(age).value < 0
  }

  predicate AgeAboveMax(age: Option<string>) {
    Parsed(age).Some? && Parsed(age).value > MaxAge
  }

  predicate AgeRejected(age: Option<string>) {
    AgeBelowZero(age) || AgeAboveMax(age)
  }

  predicate AmountBelowMinimum(amount: Option<string>) {
    Parsed(amount).Some? && Parsed(amount).value < MinInvestment
  }

  function InvalidAge(): ValidationResult {
    BuildValidationResult(false, Some("age"), Some(InvalidAgeMessage))
  }

  function RetirementAge(): ValidationResult {
    BuildValidationResult(false, Some("age"), Some(RetirementMessage))
  }

  function InvestmentTooLow(): ValidationResult {
    BuildValidationResult(false, Some("investmentAmount"), Some(MinimumInvestmentMessage))
  }

  function Valid(): ValidationResult {
    BuildValidationResult(true, None, None)
  }

  /**
   * `validate_data`: the age rules first, then the investment rule; the first
   * violation found is returned. A value that does not parse is the NaN
   * sentinel, for which every comparison is false, so it never violates a rule.
   */
  function ValidateData(age: Option<string>, investmentAmount: Option<string>): (r: ValidationResult)
    ensures r.isValid <==> r.violatedSlot.None?
    ensures r.isValid <==> r.message.None?
    ensures r.isValid <==> !AgeRejected(age) && !AmountBelowMinimum(investmentAmount)
    ensures AgeBelowZero(age) ==> r == InvalidAge()
    ensures AgeAboveMax(age) ==> r == RetirementAge()
    ensures !AgeRejected(age) && AmountBelowMinimum(investmentAmount) ==> r == InvestmentTooLow()
    ensures !r.isValid ==> r.violatedSlot == Some("age") || r.violatedSlot == Some("investmentAmount")
  {
    var a := if age.None? then None else ParseInt(age.value);
    if a.Some? && a.value < 0 then InvalidAge()
    else if a.Some? && a.value > 65 then RetirementAge()
    else
      var m := if investmentAmount.None? then None else ParseInt(investmentAmount.value);
      if m.Some? && m.value <= 4999 then InvestmentTooLow()
      else Valid()
  }

  /** An age typed as the integer `n` is rejected exactly when `n < 0` or `n > 65`; otherwise it is as if absent. */
  lemma AgeRule(n: int, investmentAmount: Option<string>)
    ensures n < 0 ==> ValidateData(Some(IntToDecimal(n)), investmentAmount) == InvalidAge()
    ensures n > 65 ==> ValidateData(Some(IntToDecimal(n)), investmentAmount) == RetirementAge()
    ensures 0 <= n <= 65 ==>
      ValidateData(Some(IntToDecimal(n)), investmentAmount) == ValidateData(None, investmentAmount)
  {
    ParseIntOfDecimal(n);
  }

  /** With an acceptable age, an amount typed as `n` is rejected exactly when `n <= 4999`. */
  lemma InvestmentRule(age: Option<string>, n: int)
    requires !AgeRejected(age)
    ensures n <= 4999 ==> ValidateData(age, Some(IntToDecimal(n))) == InvestmentTooLow()
    ensures n >= 5000 ==> ValidateData(age, Some(IntToDecimal(n))) == Valid()
  {
    ParseIntOfDecimal(n);
  }

  /** A rejected age is reported whatever the investment amount is: the amount is not examined. */
  lemma AgeCheckedFirst(age: Option<string>, amount1: Option<string>, amount2: Option<string>)
    requires AgeRejected(age)
    ensures ValidateData(age, amount1) == ValidateData(age, amount2)
    ensures ValidateData(age, amount1).violatedSlot == Some("age")
  {
  }

  /** An unparseable value (the NaN sentinel) behaves exactly like an absent one, in either slot. */
  lemma UnparseableIsIgnored(s: string, age: Option<string>, amount: Option<string>)
    requires ParseInt(s).None?
    ensures ValidateData(Some(s), amount) == ValidateData(None, amount)
    ensures ValidateData(age, Some(s)) == ValidateData(age, None)
  {
  }
}
