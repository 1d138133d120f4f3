/** JSON values and the raw bytes of one configuration section. */
module JsonModel {
  import opened Wrappers

  /** A JSON value (section 3 of RFC 8259). Numbers keep their digits, as json.Number does;
      an object is a map because its names carry no order. */
  datatype Json =
    | Null
    | Bool(b: bool)
    | Num(digits: string)
    | Str(s: string)
    | Arr(items: seq<Json>)
    | Obj(fields: map<string, Json>)

  /** The bytes of a section. Two texts of the same value differ in `layout` (white space, key
      order, escapes); `trailing` says that bytes follow the first value, which a json.Decoder
      leaves unread and json.Unmarshal rejects. */
  datatype Raw =
    | Absent
    | Text(layout: string, value: Json, trailing: bool)
    | Garbled(bytes: string)

  /** One call of json.Decoder.Decode: the first value of the text. */
  function Decode(raw: Raw): Option<Json> {
    if raw.Text? then Some(raw.value) else None
  }

  /** json.Unmarshal: the text must be exactly one value. */
  function Unmarshal(raw: Raw): Option<Json> {
    if raw.Text? && !raw.trailing then Some(raw.value) else None
  }

  /** The meaning of a section: its value, an absent section reading as null, or the very bytes
      when they do not parse. */
  datatype Section = Parsed(value: Json) | Unparsed(raw: Raw)

  function Canon(raw: Raw): Section {
    match raw
    case Absent => Parsed(Null)
    case Text(_, v, _) => Parsed(v)
    case Garbled(_) => Unparsed(raw)
  }

  /** canonicalJSON: nil stands for both empty input and null. */
  function CanonicalJson(raw: Raw): Option<Json> {
    if raw.Absent? then Some(Null) else Decode(raw)
  }

  /** Comparison by bytes first, by canonical form second. */
  predicate RawEqualNormalized(a: Raw, b: Raw)
    ensures RawEqualNormalized(a, b) <==> Canon(a) == Canon(b)
  {
    || a == b
    || (CanonicalJson(a).Some? && CanonicalJson(b).Some? && CanonicalJson(a) == CanonicalJson(b))
  }

  /** Reading a Go struct with one string field: a missing or null field reads as "", a field or
      value of another kind is a decoding error. */
  function StringField(v: Json, name: string): Option<string> {
    match v
    case Null => Some("")
    case Obj(fields) =>
      if name !in fields || fields[name].Null? then Some("")
      else if fields[name].Str? then Some(fields[name].s)
      else None
    case _ => None
  }
}
