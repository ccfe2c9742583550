/**
 * The request and response entities of the DataTables server-side protocol
 * (types/types.go). Go structs are values here; Go slices are sequences and
 * Go maps are Dafny maps (a nil map and an empty map are the same value).
 */
module Types {

  /**
   * Ordering direction. Go's `OrderDirection` is a string type whose two named
   * constants are "asc" and "desc"; its zero value is the empty string, which
   * is neither, so the model has a third case for it.
   */
  datatype OrderDirection = Unset | Ascending | Descending

  /** The string a direction carries on the wire. */
  function Wire(d: OrderDirection): string
  {
    match d
    case Unset => ""
    case Ascending => "asc"
    case Descending => "desc"
  }

  /** A global or per-column search: a value, and whether it is a regular expression. */
  datatype Search = Search(value: string, regex: bool)

  /** One ordering instruction; `column` is meant as an index into `Request.columns`. */
  datatype Order = Order(column: int, dir: OrderDirection)

  /** One requested column. */
  datatype Column = Column(data: string, name: string, searchable: bool, orderable: bool, search: Search)

  /**
   * One table row: the column data plus the four optional metadata fields that
   * travel under the reserved keys DT_RowId, DT_RowClass, DT_RowData, DT_RowAttr.
   */
  datatype Row = Row(
    data: map<string, string>,
    rowId: string,
    rowClass: string,
    rowData: map<string, string>,
    rowAttr: map<string, string>)

  /** The incoming request; `length` may be -1, meaning "all records". */
  datatype Request = Request(
    draw: int,
    start: int,
    length: int,
    search: Search,
    order: seq<Order>,
    columns: seq<Column>)

  /** The outgoing response; an empty `error` means "no error". */
  datatype Response = Response(
    draw: int,
    recordsTotal: int,
    recordsFiltered: int,
    data: seq<Row>,
    error: string)

  // Go zero values.
  const ZeroSearch := Search("", false)
  const ZeroOrder := Order(0, Unset)
  const ZeroColumn := Column("", "", false, false, ZeroSearch)
  const ZeroRow := Row(map[], "", "", map[], map[])
  const ZeroRequest := Request(0, 0, 0, ZeroSearch, [], [])

  /** The four reserved row keys, in the order the decoder deletes them. */
  const ReservedKeys: seq<string> := ["DT_RowId", "DT_RowClass", "DT_RowData", "DT_RowAttr"]

  /** Only the two named constants are wire values; the zero value is neither. */
  lemma WireValues(d: OrderDirection)
    ensures Wire(d) == "asc" <==> d == Ascending
    ensures Wire(d) == "desc" <==> d == Descending
    ensures d == Unset <==> Wire(d) !in {"asc", "desc"}
  {
  }
}
