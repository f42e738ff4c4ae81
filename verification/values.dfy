/**
 * The values a scraped record is made of: what Python's `None`, `bool`,
 * `int`, `str`, `datetime.date`, `list` and `dict` hold in it. A dict keeps
 * its pairs in insertion order (see module Assoc).
 */
module Values {
  import Dates
  import opened Wrappers

  datatype Value =
    | Null
    | Bool(b: bool)
    | Num(n: int)
    | Str(s: string)
    | DateVal(date: Dates.Date)
    | List(items: seq<Value>)
    | Dict(entries: seq<(string, Value)>)

  /** A text a selector may not have found (`.get()`, `attrib.get(...)`): `None` or the string. */
  function OfText(t: Option<string>): (v: Value)
    ensures v == Null <==> t.None?
    ensures t.Some? ==> v == Str(t.value)
  {
    match t
    case Some(s) => Str(s)
    case None => Null
  }
}
