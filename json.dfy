/** The part of QJsonDocument/QJsonValue the client uses. The JSON parser
    itself (QJsonDocument::fromJson) is not modelled: it is passed in as a
    function from bytes to a document, NullDocument standing for a parse
    error. */
module Json {
  import opened Text

  datatype JsonValue =
    | JNull
    | JBool(b: bool)
    | JNumber(n: real)
    | JString(s: string)
    | JArray(items: seq<JsonValue>)
    | JObject(members: map<string, JsonValue>)

  /** A QJsonDocument: null (what a failed parse gives), an array or an object. */
  datatype JsonDocument =
    | NullDocument
    | ArrayDocument(items: seq<JsonValue>)
    | ObjectDocument(members: map<string, JsonValue>)

  /** QJsonDocument::fromJson, supplied from outside. */
  type Parser = Bytes -> JsonDocument

  /** The one fact about the parser the model relies on: empty input is not
      JSON, so it parses to the null document. */
  predicate RejectsEmptyInput(parse: Parser) {
    parse([]) == NullDocument
  }

  /** QJsonDocument::isNull */
  predicate IsNull(d: JsonDocument) {
    d.NullDocument?
  }

  /** QJsonDocument::isEmpty: true exactly when the document holds no data,
      the same test as isNull. An object or array without elements is still
      data, so it is not empty. */
  predicate IsEmpty(d: JsonDocument) {
    d.NullDocument?
  }

  /** QJsonDocument::object: the members of an object document, otherwise
      the empty object. */
  function ObjectView(d: JsonDocument): map<string, JsonValue> {
    if d.ObjectDocument? then d.members else map[]
  }

  /** QJsonValue::toString: the text of a string value, otherwise "". A
      missing member (QJsonValue::Undefined) also reads as "". */
  function StringOf(v: JsonValue): string {
    if v.JString? then v.s else ""
  }

  /** QJsonValue::toArray */
  function ArrayOf(v: JsonValue): seq<JsonValue> {
    if v.JArray? then v.items else []
  }

  /** QJsonArray::first, which is at(0): the first element, and for an empty
      array the Undefined value, modelled as JNull because both convert to
      the empty object and to "". */
  function First(items: seq<JsonValue>): (v: JsonValue)
    ensures |items| > 0 ==> v == items[0]
    ensures |items| == 0 ==> ObjectOf(v) == map[] && StringOf(v) == ""
  {
    if |items| > 0 then items[0] else JNull
  }

  /** QJsonValue::toObject */
  function ObjectOf(v: JsonValue): map<string, JsonValue> {
    if v.JObject? then v.members else map[]
  }

  /** QJsonObject::value(key).toString() */
  function StringMember(obj: map<string, JsonValue>, key: string): string {
    if key in obj then StringOf(obj[key]) else ""
  }
}
