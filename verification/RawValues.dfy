/** JSON values as the Python code reads them: by type, as text, and by whether they count as true. */
module RawValues {
  import JsonPaths

  /** Floats, lists and objects only matter by how they print and whether they count as true. */
  datatype Raw = Null | Bool(b: bool) | Int(i: int) | Text(text: string) | Other(printed: string, truthy: bool)

  type Fields = map<string, Raw>

  function Get(fields: Fields, field: string, default: Raw): Raw {
    if field in fields then fields[field] else default
  }

  /** `str(value)` */
  function Printed(raw: Raw): string {
    match raw
    case Null => "None"
    case Bool(b) => if b then "True" else "False"
    case Int(i) => if i < 0 then "-" + JsonPaths.ToDecimal(-i) else JsonPaths.ToDecimal(i)
    case Text(text) => text
    case Other(printed, _) => printed
  }

  predicate Truthy(raw: Raw) {
    match raw
    case Null => false
    case Bool(b) => b
    case Int(i) => i != 0
    case Text(text) => text != ""
    case Other(_, truthy) => truthy
  }

  /** `str(value or "")` */
  function TextOf(raw: Raw): string {
    if Truthy(raw) then Printed(raw) else ""
  }
}
