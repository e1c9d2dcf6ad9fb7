/** Values the script handles: the decoded JSON of one integration, the faults that
    end the run (uncaught Python exceptions) and the wrappers used to report them. */
module Values {

  datatype Option<+T> = None | Some(value: T)

  /** A decoded JSON value. Numbers, booleans and null are kept as the text
      Python's `str` gives them; only their rendering matters to the script. */
  datatype Json =
    | JStr(text: string)
    | JScalar(literal: string)
    | JList(elems: seq<Json>)
    | JObj(fields: map<string, Json>)

  /** One element of the `items` array: a dictionary from field names to values. */
  type Item = map<string, Json>

  /** The exceptions the script does not catch; each one ends the whole run. */
  datatype Fault =
    | MissingKey(key: string)   // KeyError on `d[key]`
    | NotText(key: string)      // TypeError: the value under `key` is used as a str but is not one
    | Unbound(name: string)     // NameError: a global read before anything assigned it

  datatype Result<+T> = Ok(value: T) | Err(fault: Fault)

  /** `d[key]` used where Python needs a str (a regex search subject, a URL). */
  function TextAt(d: map<string, Json>, key: string): (r: Result<string>)
    ensures r.Ok? <==> key in d && d[key].JStr?
    ensures r.Ok? ==> d[key] == JStr(r.value)
    ensures r.Err? ==> r.fault == (if key in d then NotText(key) else MissingKey(key))
  {
    if key !in d then Err(MissingKey(key))
    else if d[key].JStr? then Ok(d[key].text)
    else Err(NotText(key))
  }

  /** How `str.format` prints a field value. */
  function Render(j: Json): string
  {
    match j
    case JStr(s) => s
    case JScalar(t) => t
    case _ => ""
  }
}
