/**
 * `recommend_portfolio` and `dispatch`: the intent handler and the dispatcher.
 *
 * The Python handler receives the request as a dictionary and, on the
 * re-elicit path, sets the violated slot to `None` in the request's own slots
 * dictionary (`get_slots` returns that very dictionary). `IntentRequest` is
 * that request as an object whose `slots` field the handler updates in place;
 * `RecommendTurn` and `DispatchTurn` say, as functions of the request, which
 * response is returned and which slots the request holds afterwards.
 */
module Handler {
  import opened Wrappers
  import Decimal
  import opened Lex
  import opened Validation
  import opened Risks
  import opened DialogActions

  const DialogCodeHook := "DialogCodeHook"
  const RecommendPortfolioIntent := "recommendPortfolio"
  const Fulfilled := "Fulfilled"

  predicate IsUpper(c: char) { 'A' <= c <= 'Z' }

  function LowerChar(c: char): (d: char)
    ensures !IsUpper(d)
    ensures IsUpper(c) ==> d as int == c as int + 32
    ensures !IsUpper(c) ==> d == c
  {
    if IsUpper(c) then (c as int + 32) as char else c
  }

  /** `str.lower()` on ASCII letters; every other character is kept. */
  function Lower(s: string): (r: string)
    ensures |r| == |s|
    ensures forall i :: 0 <= i < |s| ==> r[i] == LowerChar(s[i])
  {
    seq(|s|, i requires 0 <= i < |s| => LowerChar(s[i]))
  }

  /** The slots the handler reads with `slots[...]`; a missing one is a `KeyError`, excluded here. */
  predicate HasSlots(slots: SlotMap) {
    "firstName" in slots && "age" in slots && "investmentAmount" in slots && "riskLevel" in slots
  }

  /**
   * The fulfilment message: the risk level is looked up lower-cased, and is
   * quoted in the text as the user gave it. `None.lower()` (no risk level) and
   * an unknown level are errors.
   */
  function Recommendation(riskLevel: Option<string>): (r: Result<Message>)
    ensures riskLevel.None? ==> r == Failure(MissingRiskLevel)
    ensures riskLevel.Some? ==> (r.Success? <==> Lower(riskLevel.value) in {"none", "low", "medium", "high"})
    ensures riskLevel.Some? && r.Failure? ==> r.error == UnknownRiskLevel(Lower(riskLevel.value))
    ensures r.Success? ==> r.value == PlainText(
      "For a " + riskLevel.value + "-risk portfolio, invest in " + RiskLevels[Lower(riskLevel.value)])
  {
    match riskLevel
    case None => Failure(MissingRiskLevel)
    case Some(level) =>
      var desiredRisk :- GetRisks(Lower(level));
      Success(PlainText("For a " + level + "-risk portfolio, invest in " + desiredRisk))
  }

  /** Two spellings that differ only in the case of ASCII letters succeed or fail together, with the same error. */
  lemma RecommendationIgnoresCase(level1: string, level2: string)
    requires Lower(level1) == Lower(level2)
    ensures Recommendation(Some(level1)).Success? <==> Recommendation(Some(level2)).Success?
    ensures Recommendation(Some(level1)).Failure? ==>
      Recommendation(Some(level1)).error == Recommendation(Some(level2)).error
  {
  }

  /** What one call of the handler produces: the response, and the slots the request holds afterwards. */
  datatype Turn = Turn(response: Result<Response>, slots: SlotMap)

  /** The validation `recommend_portfolio` performs on the request's slots. */
  function SlotValidation(slots: SlotMap): ValidationResult
    requires HasSlots(slots)
  {
    ValidateData(slots["age"], slots["investmentAmount"])
  }

  /**
   * `t` re-elicits the slot `v` reports as violated: with `v`'s message, for
   * intent `intentName` and session attributes `attrs`, and carries the
   * request's slots with that one slot cleared and every other one unchanged.
   */
  predicate ReElicits(t: Turn, v: ValidationResult, intentName: string, attrs: Attributes, slots: SlotMap) {
    && v.violatedSlot.Some? && v.message.Some?
    && t.response.Success?
    && t.response.value.sessionAttributes == attrs
    && t.response.value.dialogAction.ElicitSlot?
    && var action := t.response.value.dialogAction;
    && action.slotToElicit == v.violatedSlot.value
    && action.intentName == intentName
    && action.message == v.message.value
    && action.slots == t.slots
    && t.slots.Keys == slots.Keys + {action.slotToElicit}
    && t.slots[action.slotToElicit] == None
    && forall k :: k in slots && k != action.slotToElicit ==> t.slots[k] == slots[k]
  }

  lemma ClearingReElicits(v: ValidationResult, intentName: string, attrs: Attributes, slots: SlotMap)
    requires v.violatedSlot.Some? && v.message.Some? && v.violatedSlot.value in slots
    ensures var cleared := slots[v.violatedSlot.value := None];
      ReElicits(Turn(Success(ElicitSlotResponse(attrs, intentName, cleared, v.violatedSlot.value, v.message.value)),
                     cleared), v, intentName, attrs, slots)
  {
  }

  /**
   * `recommend_portfolio` as a function of the request. In the dialog code
   * hook the slots are validated: on the first violation the violated slot is
   * cleared and re-elicited with the validation message, otherwise the dialog
   * is delegated with the slots unchanged. In any other stage nothing is
   * validated and the dialog is closed with the recommendation.
   */
  function RecommendTurn(source: string, intentName: string, attrs: Attributes, slots: SlotMap): (t: Turn)
    requires HasSlots(slots)
    ensures t.slots.Keys == slots.Keys
    ensures source == DialogCodeHook && !SlotValidation(slots).isValid ==>
      ReElicits(t, SlotValidation(slots), intentName, attrs, slots)
    ensures source == DialogCodeHook && SlotValidation(slots).isValid ==>
      t == Turn(Success(DelegateResponse(attrs, slots)), slots)
    ensures source != DialogCodeHook ==> t.slots == slots
    ensures source != DialogCodeHook ==>
      match Recommendation(slots["riskLevel"])
      case Success(message) => t.response == Success(CloseResponse(attrs, Fulfilled, message))
      case Failure(e) => t.response == Failure(e)
  {
    if source == DialogCodeHook then
      var v := SlotValidation(slots);
      if !v.isValid then
        var slot := v.violatedSlot.value;
        var cleared := slots[slot := None];
        ClearingReElicits(v, intentName, attrs, slots);
        Turn(Success(ElicitSlotResponse(attrs, intentName, cleared, slot, v.message.value)), cleared)
      else
        Turn(Success(DelegateResponse(attrs, slots)), slots)
    else
      match Recommendation(slots["riskLevel"])
      case Success(message) => Turn(Success(CloseResponse(attrs, Fulfilled, message)), slots)
      case Failure(e) => Turn(Failure(e), slots)
  }

  /** `dispatch`: only the intent named exactly "recommendPortfolio" is handled; any other is an error. */
  function DispatchTurn(source: string, intentName: string, attrs: Attributes, slots: SlotMap): (t: Turn)
    requires intentName == RecommendPortfolioIntent ==> HasSlots(slots)
    ensures intentName != RecommendPortfolioIntent ==>
      t == Turn(Failure(UnsupportedIntent("Intent with name " + intentName + " not supported")), slots)
    ensures intentName == RecommendPortfolioIntent ==> t == RecommendTurn(source, intentName, attrs, slots)
  {
    if intentName == RecommendPortfolioIntent then RecommendTurn(source, intentName, attrs, slots)
    else Turn(Failure(UnsupportedIntent("Intent with name " + intentName + " not supported")), slots)
  }

  /** An age typed as an integer outside 0..65 is re-elicited with its own message, whatever the amount. */
  lemma AgeOutOfRangeReElicits(n: int, intentName: string, attrs: Attributes, slots: SlotMap)
    requires HasSlots(slots) && slots["age"] == Some(Decimal.IntToDecimal(n))
    requires n < 0 || n > MaxAge
    ensures var t := RecommendTurn(DialogCodeHook, intentName, attrs, slots);
      var message := if n < 0 then InvalidAgeMessage else RetirementMessage;
      t == Turn(Success(Response(attrs, ElicitSlot(intentName, slots["age" := None], "age", PlainText(message)))),
                slots["age" := None])
  {
    AgeRule(n, slots["investmentAmount"]);
  }

  /** An acceptable age and an amount typed as an integer below 5000 re-elicit the amount. */
  lemma SmallInvestmentReElicits(n: int, intentName: string, attrs: Attributes, slots: SlotMap)
    requires HasSlots(slots) && !AgeRejected(slots["age"])
    requires slots["investmentAmount"] == Some(Decimal.IntToDecimal(n)) && n < MinInvestment
    ensures var t := RecommendTurn(DialogCodeHook, intentName, attrs, slots);
      var cleared := slots["investmentAmount" := None];
      t == Turn(Success(Response(attrs, ElicitSlot(intentName, cleared, "investmentAmount",
                                                   PlainText(MinimumInvestmentMessage)))), cleared)
  {
    InvestmentRule(slots["age"], n);
  }

  /** Ages 0..65 together with amounts of at least 5000 are delegated with the slots as given. */
  lemma AcceptedSlotsDelegate(age: int, amount: int, intentName: string, attrs: Attributes, slots: SlotMap)
    requires HasSlots(slots)
    requires slots["age"] == Some(Decimal.IntToDecimal(age)) && 0 <= age <= MaxAge
    requires slots["investmentAmount"] == Some(Decimal.IntToDecimal(amount)) && amount >= MinInvestment
    ensures RecommendTurn(DialogCodeHook, intentName, attrs, slots) == Turn(Success(Response(attrs, Delegate(slots))), slots)
  {
    AgeRule(age, slots["investmentAmount"]);
    InvestmentRule(None, amount);
  }

  /** The request as the handler sees it; only `slots` is ever updated. */
  class IntentRequest {
    const invocationSource: string
    const intentName: string
    const sessionAttributes: Attributes
    var slots: SlotMap

    constructor (invocationSource: string, intentName: string, slots: SlotMap, sessionAttributes: Attributes)
      ensures this.invocationSource == invocationSource && this.intentName == intentName
      ensures this.slots == slots && this.sessionAttributes == sessionAttributes
    {
      this.invocationSource := invocationSource;
      this.intentName := intentName;
      this.slots := slots;
      this.sessionAttributes := sessionAttributes;
    }

    /** `recommend_portfolio`, clearing the violated slot of this request in place. */
    method RecommendPortfolio() returns (r: Result<Response>)
      requires HasSlots(slots)
      modifies this
      ensures var t := RecommendTurn(invocationSource, intentName, sessionAttributes, old(slots));
        r == t.response && slots == t.slots
    {
      var age := slots["age"];
      var investmentAmount := slots["investmentAmount"];
      var riskLevel := slots["riskLevel"];
      if invocationSource == DialogCodeHook {
        var validation := ValidateData(age, investmentAmount);
        if !validation.isValid {
          slots := slots[validation.violatedSlot.value := None];
          return Success(ElicitSlotResponse(
            sessionAttributes, intentName, slots, validation.violatedSlot.value, validation.message.value));
        }
        return Success(DelegateResponse(sessionAttributes, slots));
      }
      if riskLevel.None? {
        return Failure(MissingRiskLevel);
      }
      var desiredRisk := GetRisks(Lower(riskLevel.value));
      if desiredRisk.Failure? {
        return Failure(desiredRisk.error);
      }
      var content := "For a " + riskLevel.value + "-risk portfolio, invest in " + desiredRisk.value;
      return Success(CloseResponse(sessionAttributes, Fulfilled, PlainText(content)));
    }
  }

  /** `dispatch`: forwards a "recommendPortfolio" request to the handler; any other intent fails untouched. */
  method Dispatch(request: IntentRequest) returns (r: Result<Response>)
    requires request.intentName == RecommendPortfolioIntent ==> HasSlots(request.slots)
    modifies request
    ensures var t := DispatchTurn(request.invocationSource, request.intentName, request.sessionAttributes,
                                  old(request.slots));
      r == t.response && request.slots == t.slots
  {
    if request.intentName == RecommendPortfolioIntent {
      r := request.RecommendPortfolio();
      return;
    }
    return Failure(UnsupportedIntent("Intent with name " + request.intentName + " not supported"));
  }
}
