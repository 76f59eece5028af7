/** A manual record as stored in and read back from the document collection:
    a dictionary from column name to cell value. */
module Documents {
  import opened Text

  /** A spreadsheet cell once empty cells are filled: text, or a whole number. */
  datatype Cell = Str(text: string) | Int(number: int)

  type Document = map<string, Cell>

  /** A cell as Python prints it: text as is, a number in decimal. */
  function Render(c: Cell): string
  {
    match c
    case Str(s) => s
    case Int(n) => IntString(n)
  }

  /** The value under `key`, or the empty string when the key is missing. */
  function GetOrEmpty(doc: Document, key: string): Cell
  {
    if key in doc then doc[key] else Str("")
  }

  /** The value under `key` is truthy in Python: present, and neither "" nor 0. */
  predicate Truthy(doc: Document, key: string)
  {
    key in doc && doc[key] != Str("") && doc[key] != Int(0)
  }
}
