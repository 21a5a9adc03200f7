/** The Avro record `IG::Message` and its JSON envelope. */
module Messages {
  import opened Types
  import opened Json

  /** A decoded record: schema {id: string, content: string, timestamp: long}. */
  datatype Message = Message(id: string, content: string, timestamp: int64)

  /** What the validator downstream demands of a message's fields. */
  predicate IsDeliverable(m: Message) {
    m.id != [] && m.timestamp > 0
  }

  /** `messageToJson`: an object with exactly the three keys, each holding
      the field of the same name. */
  function MessageToJson(m: Message): (j: Json)
    ensures j.JObject? && j.fields.Keys == REQUIRED_KEYS
    ensures HasRequiredTypes(j)
    ensures Extract(j) == Some(m)
  {
    JObject(map[ID_KEY := JString(m.id),
                CONTENT_KEY := JString(m.content),
                TIMESTAMP_KEY := JNumber(m.timestamp)])
  }

  /** Reads a message back out of an envelope whose three required keys are
      present and well typed; other keys are ignored. */
  function Extract(j: Json): (r: Option<Message>)
    ensures r.Some? <==> HasRequiredTypes(j)
    ensures r.Some? ==>
              && j.fields[ID_KEY] == JString(r.value.id)
              && j.fields[CONTENT_KEY] == JString(r.value.content)
              && j.fields[TIMESTAMP_KEY] == JNumber(r.value.timestamp)
  {
    if HasRequiredTypes(j) then
      Some(Message(j.fields[ID_KEY].str, j.fields[CONTENT_KEY].str, j.fields[TIMESTAMP_KEY].n))
    else
      None
  }
}
