/**
 * `elicit_slot`, `delegate` and `close`: the three dialog-action responses the
 * handler returns to the bot platform, and the dictionary each one builds.
 */
module DialogActions {
  import opened Wrappers
  import opened Lex

  datatype DialogAction =
    | ElicitSlot(intentName: string, slots: SlotMap, slotToElicit: string, message: Message)
    | Delegate(slots: SlotMap)
    | Close(fulfillmentState: string, message: Message)

  datatype Response = Response(sessionAttributes: Attributes, dialogAction: DialogAction)

  const ElicitSlotKeys: set<string> := {"type", "intentName", "slots", "slotToElicit", "message"}
  const DelegateKeys: set<string> := {"type", "slots"}
  const CloseKeys: set<string> := {"type", "fulfillmentState", "message"}

  /** The `"dialogAction"` dictionary: the `"type"` tag and exactly that variant's own fields. */
  function RenderAction(a: DialogAction): (j: Json)
    ensures j.JObj? && "type" in j.fields
    ensures a.ElicitSlot? ==> j.fields.Keys == ElicitSlotKeys && j.fields["type"] == JStr("ElicitSlot")
    ensures a.Delegate? ==> j.fields.Keys == DelegateKeys && j.fields["type"] == JStr("Delegate")
    ensures a.Close? ==> j.fields.Keys == CloseKeys && j.fields["type"] == JStr("Close")
  {
    match a
    case ElicitSlot(intentName, slots, slotToElicit, message) =>
      JObj(map[
        "type" := JStr("ElicitSlot"),
        "intentName" := JStr(intentName),
        "slots" := RenderSlots(slots),
        "slotToElicit" := JStr(slotToElicit),
        "message" := RenderMessage(message)
      ])
    case Delegate(slots) =>
      JObj(map["type" := JStr("Delegate"), "slots" := RenderSlots(slots)])
    case Close(fulfillmentState, message) =>
      JObj(map[
        "type" := JStr("Close"),
        "fulfillmentState" := JStr(fulfillmentState),
        "message" := RenderMessage(message)
      ])
  }

  /** The whole response dictionary. */
  function RenderResponse(r: Response): (j: Json)
    ensures j.JObj? && j.fields.Keys == {"sessionAttributes", "dialogAction"}
    ensures j.fields["sessionAttributes"] == RenderAttributes(r.sessionAttributes)
    ensures j.fields["dialogAction"] == RenderAction(r.dialogAction)
  {
    JObj(map["sessionAttributes" := RenderAttributes(r.sessionAttributes), "dialogAction" := RenderAction(r.dialogAction)])
  }

  /** Reads a `"dialogAction"` dictionary back; `None` unless it has one known tag and exactly its fields. */
  function ReadAction(j: Json): Option<DialogAction> {
    if !j.JObj? || "type" !in j.fields then None
    else
      var f := j.fields;
      if f["type"] == JStr("ElicitSlot") && f.Keys == ElicitSlotKeys
         && f["intentName"].JStr? && f["slotToElicit"].JStr? then
        var slots :- ReadSlots(f["slots"]);
        var message :- ReadMessage(f["message"]);
        Some(ElicitSlot(f["intentName"].s, slots, f["slotToElicit"].s, message))
      else if f["type"] == JStr("Delegate") && f.Keys == DelegateKeys then
        var slots :- ReadSlots(f["slots"]);
        Some(Delegate(slots))
      else if f["type"] == JStr("Close") && f.Keys == CloseKeys && f["fulfillmentState"].JStr? then
        var message :- ReadMessage(f["message"]);
        Some(Close(f["fulfillmentState"].s, message))
      else None
  }

  function ReadResponse(j: Json): Option<Response> {
    if j.JObj? && j.fields.Keys == {"sessionAttributes", "dialogAction"} then
      var attrs :- ReadAttributes(j.fields["sessionAttributes"]);
      var action :- ReadAction(j.fields["dialogAction"]);
      Some(Response(attrs, action))
    else None
  }

  /** The dictionary a response is given as determines the response: reading it back gives the same response. */
  lemma ReadRenderedResponse(r: Response)
    ensures ReadResponse(RenderResponse(r)) == Some(r)
  {
    ReadRenderedAttributes(r.sessionAttributes);
    match r.dialogAction
    case ElicitSlot(_, slots, _, message) =>
      ReadRenderedSlots(slots);
      ReadRenderedMessage(message);
    case Delegate(slots) =>
      ReadRenderedSlots(slots);
    case Close(_, message) =>
      ReadRenderedMessage(message);
  }

  /** The fields of the `"dialogAction"` dictionary of a response. */
  function ActionFields(r: Response): map<string, Json> {
    RenderAction(r.dialogAction).fields
  }

  /** `elicit_slot`: re-prompt for `slotToElicit`; the dictionary holds exactly the ElicitSlot fields. */
  function ElicitSlotResponse(sessionAttributes: Attributes, intentName: string, slots: SlotMap,
                              slotToElicit: string, message: Message): (r: Response)
    ensures r.sessionAttributes == sessionAttributes
    ensures r.dialogAction == ElicitSlot(intentName, slots, slotToElicit, message)
    ensures ActionFields(r).Keys == {"type", "intentName", "slots", "slotToElicit", "message"}
    ensures ActionFields(r)["type"] == JStr("ElicitSlot") && ActionFields(r)["intentName"] == JStr(intentName)
    ensures ActionFields(r)["slots"] == RenderSlots(slots) && ActionFields(r)["slotToElicit"] == JStr(slotToElicit)
    ensures ActionFields(r)["message"] == RenderMessage(message)
  {
    Response(sessionAttributes, ElicitSlot(intentName, slots, slotToElicit, message))
  }

  /** `delegate`: let the platform choose the next step; the dictionary holds only the tag and the slots. */
  function DelegateResponse(sessionAttributes: Attributes, slots: SlotMap): (r: Response)
    ensures r.sessionAttributes == sessionAttributes && r.dialogAction == Delegate(slots)
    ensures ActionFields(r).Keys == {"type", "slots"}
    ensures ActionFields(r)["type"] == JStr("Delegate") && ActionFields(r)["slots"] == RenderSlots(slots)
  {
    Response(sessionAttributes, Delegate(slots))
  }

  /** `close`: end the dialog with a fulfilment state and a message, and no other field. */
  function CloseResponse(sessionAttributes: Attributes, fulfillmentState: string, message: Message): (r: Response)
    ensures r.sessionAttributes == sessionAttributes && r.dialogAction == Close(fulfillmentState, message)
    ensures ActionFields(r).Keys == {"type", "fulfillmentState", "message"}
    ensures ActionFields(r)["type"] == JStr("Close")
    ensures ActionFields(r)["fulfillmentState"] == JStr(fulfillmentState)
    ensures ActionFields(r)["message"] == RenderMessage(message)
  {
    Response(sessionAttributes, Close(fulfillmentState, message))
  }
}
