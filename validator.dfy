/** `WebSocketServer::validateMessage`: a fixed, ordered chain of checks
    over a JSON value. */
module Validator {
  import opened Types
  import opened Json
  import opened Messages

  /** The four reasons the validator reports, one per log line. */
  datatype Reason = MissingFields | InvalidFieldTypes | EmptyId | InvalidTimestamp

  datatype Verdict = Accept | Reject(reason: Reason)

  /** The declarative reading of an acceptable envelope: every condition at once. */
  predicate IsValidEnvelope(j: Json) {
    && j.JObject?
    && REQUIRED_KEYS <= j.fields.Keys
    && j.fields[ID_KEY].JString? && j.fields[CONTENT_KEY].JString? && j.fields[TIMESTAMP_KEY].JNumber?
    && |j.fields[ID_KEY].str| > 0
    && j.fields[TIMESTAMP_KEY].n > 0
  }

  /** The checks run in source order and the first one that fails names
      the reason; a value that is not an object fails the first check. */
  function Validate(j: Json): (v: Verdict)
    ensures v == Accept <==> IsValidEnvelope(j)
    ensures !j.JObject? ==> v == Reject(MissingFields)
    ensures v == Reject(MissingFields) <==> !HasRequiredKeys(j)
    ensures v == Reject(InvalidFieldTypes) <==> HasRequiredKeys(j) && !HasRequiredTypes(j)
    ensures v == Reject(EmptyId) <==> HasRequiredTypes(j) && j.fields[ID_KEY].str == []
    ensures v == Reject(InvalidTimestamp) <==>
              HasRequiredTypes(j) && j.fields[ID_KEY].str != [] && j.fields[TIMESTAMP_KEY].n <= 0
  {
    if !Contains(j, ID_KEY) || !Contains(j, CONTENT_KEY) || !Contains(j, TIMESTAMP_KEY) then
      Reject(MissingFields)
    else if !j.fields[ID_KEY].JString? || !j.fields[CONTENT_KEY].JString? || !j.fields[TIMESTAMP_KEY].JNumber? then
      Reject(InvalidFieldTypes)
    else if j.fields[ID_KEY].str == [] then
      Reject(EmptyId)
    else if j.fields[TIMESTAMP_KEY].n <= 0 then
      Reject(InvalidTimestamp)
    else
      Accept
  }

  /** The boolean the source returns. */
  function ValidateMessage(j: Json): (ok: bool)
    ensures ok <==> IsValidEnvelope(j)
  {
    Validate(j) == Accept
  }

  /** An envelope passes exactly when it carries a message whose id is
      non-empty and whose timestamp is positive. */
  lemma ValidIffDeliverable(j: Json)
    ensures ValidateMessage(j) <==> Extract(j).Some? && IsDeliverable(Extract(j).value)
  {
  }

  /** Only the three required keys matter; any extra keys are ignored. */
  lemma ValidateIgnoresExtraKeys(j: Json, extra: map<string, Json>)
    requires j.JObject?
    requires extra.Keys !! REQUIRED_KEYS
    ensures Validate(JObject(j.fields + extra)) == Validate(j)
  {
  }

  /** The envelope a message maps to passes exactly when the message's two
      checked fields are acceptable; `content` is never examined. */
  lemma MessageEnvelopeValidIff(m: Message)
    ensures ValidateMessage(MessageToJson(m)) <==> IsDeliverable(m)
    ensures m.id == [] ==> Validate(MessageToJson(m)) == Reject(EmptyId)
    ensures m.id != [] && m.timestamp <= 0 ==> Validate(MessageToJson(m)) == Reject(InvalidTimestamp)
  {
  }
}
