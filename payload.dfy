/** What the ingesters receive and how they fail: JSON documents as
    `json.loads` returns them, the two decodings of one payload, the
    exceptions a handler can raise, and the fixed field-to-suffix tables. */
module Payload {
  import opened Basics

  /** A JSON value as the handlers use it: a number (Python int, float or
      bool, all of which the `:.3f` / `%.3f` formatting accepts) or any other
      value (string, null, list, object), which that formatting rejects. */
  datatype JsonValue = Number(v: Value) | NonNumber

  /** The result of `json.loads(payload)`: a decode error; a top-level
      number, bool or null, on which `'temperature' in content` raises
      TypeError; a top-level string or array, on which `in` is substring or
      element membership (`members` are the keys for which it holds) and
      `content['temperature']` raises TypeError; or an object. */
  datatype Document =
    | Malformed
    | Scalar
    | Listlike(members: set<string>)
    | Object(fields: map<string, JsonValue>)

  /** One message payload, read the two ways the handlers read it: as JSON
      and with `float()`. */
  datatype Message = Message(json: Document, float: Option<Value>)

  /** Why a handler raised. */
  datatype Fault =
    | BadJson      // json.loads failed
    | NotAMapping  // `in` on a JSON scalar
    | NotANumber   // a field value the float formatting rejects
    | BadFloat     // float(payload) failed

  /** A handler either runs to its end or raises part-way. */
  datatype Outcome = Completed | Raised(fault: Fault)

  /** A recognised JSON key and the suffix appended to the node name. */
  datatype FieldRule = FieldRule(key: string, suffix: string)

  /** The SQL ingesters' fields, in the order they are checked. */
  const SqlFields: seq<FieldRule> := [
    FieldRule("temperature", "-t"), FieldRule("humidity", "-rh"),
    FieldRule("pressure", "-p"), FieldRule("linkquality", "-link"),
    FieldRule("voltage", "-v")]

  /** The RRD ingester's fields: the same table without pressure. */
  const RrdFields: seq<FieldRule> := [
    FieldRule("temperature", "-t"), FieldRule("humidity", "-rh"),
    FieldRule("linkquality", "-link"), FieldRule("voltage", "-v")]

  predicate IsRuleKey(rules: seq<FieldRule>, key: string)
  {
    exists i :: 0 <= i < |rules| && rules[i].key == key
  }
}
