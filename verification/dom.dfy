/** The part of the parsed HTML table that the extractor reads: one `tr`
    element with its attributes and its `td` cells grouped by class name,
    in document order. A cell carries its text (`get_text()`), whether
    BeautifulSoup's `.string` is not None for it, its
    attributes, and the `span` elements inside it. */
module Dom {
  import opened Wrappers

  datatype Span = Span(attrs: map<string, string>)

  datatype Cell = Cell(
    text: string,
    singleString: bool,
    attrs: map<string, string>,
    spans: seq<Span>)

  datatype Row = Row(attrs: map<string, string>, cells: map<string, seq<Cell>>)

  /** `tag.get(name)`: the attribute value, or `None` when it is absent. */
  function Get(attrs: map<string, string>, name: string): (r: Option<string>)
    ensures r.Some? <==> name in attrs
    ensures r.Some? ==> r.value == attrs[name]
  {
    if name in attrs then Some(attrs[name]) else None
  }

  /** `row.find_all('td', {'class': cls})`: the cells of one class, in
      document order; none when the class does not occur. */
  function CellsOf(row: Row, cls: string): (r: seq<Cell>)
    ensures cls !in row.cells ==> r == []
    ensures cls in row.cells ==> r == row.cells[cls]
  {
    if cls in row.cells then row.cells[cls] else []
  }
}
