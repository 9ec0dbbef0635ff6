/** The values the price checker passes around: station records as the scraper
    emits them, snapshots (ordered lists of records), and the Option/Result
    wrappers used for "maybe absent" and "may fail". */
module Snapshots {

  datatype Option<+T> = None | Some(value: T)

  datatype Result<+T, +E> = Ok(value: T) | Err(error: E)

  /** A field value read from a parsed record. `Undefined` is what JavaScript
      yields for a missing key (or for `oldResults[index]?.prijs` past the end
      of the array), `Null` is a JSON null, `Text` a JSON string and `Num` a
      JSON number, held by its ECMAScript ToString text ("1.85", "0"); that
      text is assumed canonical, so two numbers are equal exactly when their
      texts are. */
  datatype Value = Undefined | Null | Text(text: string) | Num(repr: string)

  /** One fuel station as the scraper reports it: its name and its price. */
  datatype Station = Station(naam: Value, prijs: Value)

  /** All stations observed in one fetch, in the order the scraper gave them. */
  type Snapshot = seq<Station>

  /** What `JSON.parse` yields for a whole scraper output or stored file: a
      list of station records, or some other JSON value (an object, a string,
      a number, a boolean or null), kept only by its serialisation. */
  datatype Parsed = Stations(snapshot: Snapshot) | NotAList(serialised: string)

  /** JavaScript truthiness of a field value: undefined, null, the empty
      string and the number zero are falsy, everything else is truthy. */
  predicate Truthy(v: Value)
  {
    match v
    case Undefined => false
    case Null => false
    case Text(s) => s != ""
    case Num(r) => r != "0"
  }

  /** What a template literal `${v}` inserts for the value. */
  function Show(v: Value): string
  {
    match v
    case Undefined => "undefined"
    case Null => "null"
    case Text(s) => s
    case Num(r) => r
  }
}
