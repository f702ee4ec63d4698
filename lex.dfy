/**
 * The values the handler exchanges with the bot platform: slot maps, session
 * attributes and PlainText messages, together with the dictionary (JSON-like)
 * shape the Python code builds for each, and a reader that recovers the typed
 * value from that shape.
 */
module Lex {
  import opened Wrappers

  /** A Python dictionary value as the handler builds it. */
  datatype Json = JNull | JBool(b: bool) | JStr(s: string) | JObj(fields: map<string, Json>)

  /** `currentIntent.slots`: slot name to value, `None` for an unfilled slot. */
  type SlotMap = map<string, Option<string>>

  /** `sessionAttributes`, passed through unchanged. */
  type Attributes = map<string, string>

  /** A `{"contentType": ..., "content": ...}` message. */
  datatype Message = Message(contentType: string, content: string)

  function PlainText(content: string): (m: Message)
    ensures m.contentType == "PlainText" && m.content == content
  {
    Message("PlainText", content)
  }

  function RenderOptional(v: Option<string>): (j: Json)
    ensures j.JNull? <==> v.None?
  {
    match v
    case None => JNull
    case Some(s) => JStr(s)
  }

  function ReadOptional(j: Json): Option<Option<string>> {
    match j
    case JNull => Some(None)
    case JStr(s) => Some(Some(s))
    case _ => None
  }

  function RenderMessage(m: Message): (j: Json)
    ensures j.JObj? && j.fields.Keys == {"contentType", "content"}
    ensures j.fields["contentType"] == JStr(m.contentType) && j.fields["content"] == JStr(m.content)
  {
    JObj(map["contentType" := JStr(m.contentType), "content" := JStr(m.content)])
  }

  function ReadMessage(j: Json): Option<Message> {
    if j.JObj? && j.fields.Keys == {"contentType", "content"}
       && j.fields["contentType"].JStr? && j.fields["content"].JStr?
    then Some(Message(j.fields["contentType"].s, j.fields["content"].s))
    else None
  }

  function RenderSlots(slots: SlotMap): (j: Json)
    ensures j.JObj? && j.fields.Keys == slots.Keys
  {
    JObj(map k | k in slots :: RenderOptional(slots[k]))
  }

  function ReadSlots(j: Json): Option<SlotMap> {
    if j.JObj? && forall k :: k in j.fields ==> ReadOptional(j.fields[k]).Some?
    then Some(map k | k in j.fields :: ReadOptional(j.fields[k]).value)
    else None
  }

  function RenderAttributes(attrs: Attributes): (j: Json)
    ensures j.JObj? && j.fields.Keys == attrs.Keys
  {
    JObj(map k | k in attrs :: JStr(attrs[k]))
  }

  function ReadAttributes(j: Json): Option<Attributes> {
    if j.JObj? && forall k :: k in j.fields ==> j.fields[k].JStr?
    then Some(map k | k in j.fields :: j.fields[k].s)
    else None
  }

  lemma ReadRenderedMessage(m: Message)
    ensures ReadMessage(RenderMessage(m)) == Some(m)
  {
  }

  lemma ReadRenderedSlots(slots: SlotMap)
    ensures ReadSlots(RenderSlots(slots)) == Some(slots)
  {
    var j := RenderSlots(slots);
    forall k | k in j.fields ensures ReadOptional(j.fields[k]) == Some(slots[k]) {
      match slots[k]
      case None =>
      case Some(_) =>
    }
    var back := map k | k in j.fields :: ReadOptional(j.fields[k]).value;
    assert back == slots;
  }

  lemma ReadRenderedAttributes(attrs: Attributes)
    ensures ReadAttributes(RenderAttributes(attrs)) == Some(attrs)
  {
    var j := RenderAttributes(attrs);
    var back := map k | k in j.fields :: j.fields[k].s;
    assert back == attrs;
  }
}
