/**
 * Spreadsheet cells and rows as the spreadsheet reader hands them to the
 * worker. The reader is called with `raw: false` and `defval: null`, so a
 * cell is either `null` or its formatted text.
 */
module Cells {
  import opened Text

  /** One cell: `null` for an empty cell, otherwise its text. A column that
      is missing from a row reads as `undefined`, which every use in the
      pipeline treats exactly like `null`; both are `Null` here. */
  datatype Cell = Null | Str(text: string)

  /** JavaScript truthiness of a cell value: `null` and `""` are falsy. */
  predicate Truthy(c: Cell) {
    c.Str? && c.text != ""
  }

  /** `typeof v === 'string' ? v.trim() : v`. */
  function TrimCell(c: Cell): (r: Cell)
    ensures r.Null? <==> c.Null?
    ensures r.Str? ==> |r.text| <= |c.text| && (|r.text| > 0 ==> !IsSpace(r.text[0]))
  {
    match c
    case Null => Null
    case Str(t) => Str(Trim(t))
  }

  lemma TrimCellIdempotent(c: Cell)
    ensures TrimCell(TrimCell(c)) == TrimCell(c)
  {
    if c.Str? {
      TrimIdempotent(c.text);
    }
  }
}
