# Portfolio-recommendation bot handler, modelled in Dafny

The modelled system is the dialog code hook of an Amazon Lex (V1) bot that recommends an investment
portfolio (`Lambda/lambda_function.py`). For each intent event the handler either

- validates the `age` and `investmentAmount` slots (dialog code hook stage) and answers with an
  `ElicitSlot` response re-prompting for the first violated slot, or with a `Delegate` response, or
- (any other stage) looks the `riskLevel` slot up in a fixed four-entry table and answers with a
  `Close` response whose message is the recommended allocation.

A dispatcher accepts only the `recommendPortfolio` intent.

Modules, one per part of the source file:

- `Wrappers` (wrappers.dfy): `Option`, `Result` and the handler's errors: unknown risk key,
  missing risk level, unsupported intent.
- `Decimal` (decimal.dfy): `parse_int`. `None` stands for the NaN sentinel.
- `Lex` (lex.dfy): slot maps, session attributes and PlainText messages. It also holds the
  dictionary (JSON-like) value the Python code builds, with readers back from that shape.
- `Validation` (validation.dfy): `build_validation_result` and `validate_data`.
- `Risks` (risks.dfy): `get_risks`.
- `DialogActions` (dialog_actions.dfy): `elicit_slot`, `delegate` and `close`, each with the exact
  keys of the dictionary it builds.
- `Handler` (handler.dfy): `recommend_portfolio` and `dispatch`. They are pure functions
  (`RecommendTurn`, `DispatchTurn`) giving the response and the slots the request holds
  afterwards. The method `IntentRequest.RecommendPortfolio` updates the request's `slots` in place,
  as the Python code does at line 158. The module-level method `Dispatch` takes the request and
  forwards it to that method.

Where the comment and the code differ, the model follows the code. The comment at line 34 says ages
must be "older than 0 years old and younger than 65", but the checks are `age < 0` and `age > 65`, so
0 and 65 are both accepted. The code writes `None` into
the request's own slots dictionary (line 158), and the model keeps that update
(`IntentRequest.RecommendPortfolio`).

## Model

| member | source | states |
|---|---|---|
| `Decimal.ParseInt` | Lambda/lambda_function.py:6-13 | a value is returned exactly when the string is an integer literal (optional sign, then digits), otherwise the NaN sentinel `None`; a negative value comes only from a leading `-` |
| `Decimal.ParseIntOfDecimal` | Lambda/lambda_function.py:10-11 | every integer written in decimal parses back to itself |
| `Decimal.ParseIntOfSignedDigits` | Lambda/lambda_function.py:10-11 | a digit run keeps its value under a leading `+` or a leading zero, and a leading `-` negates it, so "+70", "070" and "70" parse alike and "-0" is 0 |
| `Decimal.ParseIntRejectsNonDigit` | Lambda/lambda_function.py:10-13 | a string with a non-digit after its first character is the NaN sentinel |
| `Lex.PlainText` | Lambda/lambda_function.py:181-184 | a message whose `contentType` is "PlainText" and whose `content` is the given text |
| `Lex.RenderMessage` | Lambda/lambda_function.py:26 | the message dictionary has exactly the keys `contentType` and `content`, holding the message's content type and its text |
| `DialogActions.RenderResponse` | Lambda/lambda_function.py:94-96 | the response dictionary has exactly the keys `sessionAttributes` and `dialogAction`, its `sessionAttributes` is the rendering of the response's session attributes, and its `dialogAction` is the dictionary of the response's dialog action |
| `Validation.RenderValidation` | Lambda/lambda_function.py:20-27 | the result dictionary has the keys `isValid` and `violatedSlot`, plus `message` exactly when there is a message, holding a PlainText content dictionary |
| `Validation.BuildValidationResult` | Lambda/lambda_function.py:16-27 | keeps `isValid` and `violatedSlot`; the `message` key is present exactly when the content is not None, and then it is a PlainText message with that content |
| `Validation.ValidateData` | Lambda/lambda_function.py:29-67 | valid exactly when neither age rule nor the amount rule fires; valid iff no violated slot iff no message; a negative age or an age above 65 gives the `age` result with its own message, whatever the amount; otherwise an amount below 5000 gives the `investmentAmount` result; a violated slot is always `age` or `investmentAmount` |
| `Validation.AgeRule` | Lambda/lambda_function.py:35-51 | an age typed as integer n gives the invalid-age result for n < 0 and the retirement result for n > 65; for 0..65 the result is the same as with no age |
| `Validation.InvestmentRule` | Lambda/lambda_function.py:54-67 | with an accepted age, an amount typed as n is rejected with the minimum-$5000 result for n <= 4999 and is valid for n >= 5000 |
| `Validation.AgeCheckedFirst` | Lambda/lambda_function.py:35-64 | once the age is rejected the amount is not looked at: the result is the same for any amount and names `age` |
| `Validation.UnparseableIsIgnored` | Lambda/lambda_function.py:35-64 | a value `int()` rejects (the NaN sentinel) gives the same result as an absent value, in either slot |
| `Risks.GetRisks` | Lambda/lambda_function.py:69-79 | defined exactly on `none`, `low`, `medium`, `high`, each with its fixed allocation string; any other key is the lookup error carrying that key |
| `DialogActions.RenderAction` | Lambda/lambda_function.py:94-129 | the `dialogAction` dictionary carries the `type` tag of its variant and exactly that variant's keys |
| `DialogActions.ReadRenderedResponse` | Lambda/lambda_function.py:94-129 | a response dictionary determines its response: reading it back gives the same response |
| `DialogActions.ElicitSlotResponse` | Lambda/lambda_function.py:89-103 | an `ElicitSlot` response with the given attributes, intent name, slots, slot to elicit and message; its dictionary has exactly the keys type, intentName, slots, slotToElicit, message |
| `DialogActions.DelegateResponse` | Lambda/lambda_function.py:106-114 | a `Delegate` response with the given attributes and slots; its dictionary has exactly the keys type and slots |
| `DialogActions.CloseResponse` | Lambda/lambda_function.py:117-131 | a `Close` response with the given attributes, fulfillment state and message; its dictionary has exactly the keys type, fulfillmentState, message |
| `Handler.Lower` | Lambda/lambda_function.py:175 | same length, each ASCII capital replaced by its small letter and every other character kept |
| `Handler.Recommendation` | Lambda/lambda_function.py:175-184 | no risk level is an error; otherwise it succeeds exactly when the lower-cased level is one of the four keys, and fails with that key if not; the text is "For a {level}-risk portfolio, invest in {allocation}", with the level as typed and the allocation of the lower-cased level |
| `Handler.RecommendationIgnoresCase` | Lambda/lambda_function.py:175 | two levels that differ only in ASCII case succeed or fail together, with the same error |
| `Handler.ClearingReElicits` | Lambda/lambda_function.py:157-167 | clearing the violated slot and building the ElicitSlot response re-elicits that slot with the validation message, leaving every other slot unchanged |
| `Handler.RecommendTurn` | Lambda/lambda_function.py:134-185 | the slot names are kept. At the dialog code hook an invalid result gives ElicitSlot for the violated slot, with the request's intent name, the validation message and the session attributes. Its slots are the request's with only that slot set to None, and the request is left holding them. A valid result gives Delegate with the slots and attributes unchanged. In any other stage nothing is validated. The slots stay unchanged and the response is Close/"Fulfilled" with the recommendation, or the recommendation's error |
| `Handler.DispatchTurn` | Lambda/lambda_function.py:188-199 | the intent named exactly `recommendPortfolio` is handled by the handler; any other name fails with "Intent with name {name} not supported" and leaves the slots unchanged |
| `Handler.AgeOutOfRangeReElicits` | Lambda/lambda_function.py:148-167 | an age typed as an integer below 0 or above 65 re-elicits `age` with the invalid-age or the retirement message, whatever the amount, and clears it |
| `Handler.SmallInvestmentReElicits` | Lambda/lambda_function.py:148-167 | with an accepted age, an amount typed as an integer below 5000 re-elicits `investmentAmount` with the minimum message, and clears it |
| `Handler.AcceptedSlotsDelegate` | Lambda/lambda_function.py:170-173 | an age 0..65 with an amount of at least 5000 is delegated with the original slots |
| `Handler.IntentRequest.RecommendPortfolio` | Lambda/lambda_function.py:134-185 | returns the response of `RecommendTurn` for the request as it was, and leaves the request's slots as `RecommendTurn` says (the violated slot cleared in place) |
| `Handler.Dispatch` | Lambda/lambda_function.py:188-199 | returns the response of `DispatchTurn` and updates the request's slots as it says; an unsupported intent leaves them untouched |

## Left out

- `lambda_handler` (lines 202-208) only forwards the event to `dispatch`; its `context` argument is unused.
- The imports of `datetime` and `relativedelta` (lines 2-3) are unused, and so is `first_name` (line 139). The
  `firstName` slot is still required to be present, because reading it raises `KeyError` when it is missing.
- `Decimal.ParseInt`: models `int()` as an optional sign followed by ASCII digits. It does not model the
  whitespace stripping, the underscores between digits or the non-ASCII digits that `int()` also accepts. So
  " 70 " is the NaN sentinel in the model, while Python rejects it as age 70. It also does not model the limit
  of 4300 digits that recent CPython releases put on `int()` of a decimal string. Python turns a longer digit run
  into the NaN sentinel, while the model parses it. So an age of "1" followed by 4300 zeros is accepted in Python
  but gives the retirement result in the model. `ParseIntOfDecimal`, `AgeRule`, `InvestmentRule` and the Handler
  lemmas built on them hold in Python only for integers written with at most 4300 digits.
- The float NaN itself is not modelled. The sentinel is `None`, and `Validation.UnparseableIsIgnored` states that
  it passes every check, as every comparison with NaN is false.
- `get_slots` (lines 82-86) is the read of the field `IntentRequest.slots`. It returns the request's own
  dictionary, which is why the update at line 158 is seen through the request.
- Aliasing is not modelled. In Python the `slots` of the ElicitSlot and Delegate responses is the same object as
  the request's. The model copies the value, which is equal at the moment the response is built.
- The `intent_request` parameter of `validate_data` is unused by it and is not modelled.
- `KeyError`s for a missing `currentIntent`, `invocationSource` or `sessionAttributes` cannot arise: these are
  fields of `IntentRequest`. A missing slot key is excluded by the precondition `HasSlots`.
- `Handler.Lower`: lower-cases ASCII letters only, where `str.lower` also maps non-ASCII capitals.
- The message passed to `elicit_slot` is typed as `Message`. In Python it is whatever sits under
  `"message"` in the validation result, which is always such a message.
- Serialisation of the response dictionaries to JSON and their transport to the bot platform are not modelled.
