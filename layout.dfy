/** `create_single_page_document` and `set_table_borders`: an A4 page with an
    optional heading and a `rows x cols` table whose cells receive the photos
    in row-major order, all cells sized alike, and every border switched off.
    python-docx objects are reduced to the state these functions set: cell
    contents, the zero-margin/centred flag, widths, row heights and the
    `w:tblBorders` / `w:tcBorders` elements (ECMA-376 Part 1, section 17.4). */
module DocumentBase {
  import opened Common
  import opened Sizes

  // ---------------------------------------------------------------- widths

  /** The printable area of the page: 19.0 x 28.2 cm. */
  const UsableWidthCm: real := A4WidthCm - (MarginLeftCm + MarginRightCm)
  const UsableHeightCm: real := A4HeightCm - (MarginTopCm + MarginBottomCm)

  /** Extra room around a picture in its cell, `Cm(0.2)`. */
  const CellPaddingCm: real := 0.2

  /** The photo width for an explicit preset; an unknown key falls back to 5 cm. */
  function PresetWidth(option: string): real {
    if option in SizeOptions && SizeOptions[option].Some? then SizeOptions[option].value.0 else 5.0
  }

  /** The photo width `create_single_page_document` uses: for `auto`, 95% of
      the tighter of the column width and the row height of the printable
      area, kept within 2..10 cm (a zero dimension raises); otherwise the preset. */
  function ImageWidth(option: string, rows: nat, cols: nat): (r: Result<real, PyError>)
    ensures r.Failure? <==> option == "auto" && (rows == 0 || cols == 0)
    ensures r.Failure? ==> r.error == ZeroDivisionError
  {
    if option == "auto" then
      if cols == 0 || rows == 0 then Failure(ZeroDivisionError)
      else Success(Clamp(MinReal(UsableWidthCm / cols as real, UsableHeightCm / rows as real) * 0.95, 2.0, 10.0))
    else Success(PresetWidth(option))
  }

  /** Every width the builder can choose is between 2 and 10 cm; a preset
      gives 3, 5 or 8 cm and an unknown key 5 cm. */
  lemma ImageWidthRange(option: string, rows: nat, cols: nat)
    requires ImageWidth(option, rows, cols).Success?
    ensures 2.0 <= ImageWidth(option, rows, cols).value <= 10.0
    ensures option != "auto" ==> ImageWidth(option, rows, cols).value in {3.0, 5.0, 8.0}
    ensures option != "auto" && option !in SizeOptions ==> ImageWidth(option, rows, cols).value == 5.0
  {
    if option != "auto" && option in SizeOptions {
      NameOf(option);
    }
  }

  /** Unless the 2 cm floor applies, an automatic width lets `cols` pictures
      fit across and `rows` pictures fit down the printable area. */
  lemma AutoWidthFitsPage(rows: nat, cols: nat)
    requires rows > 0 && cols > 0
    ensures var w := ImageWidth("auto", rows, cols).value;
      w > 2.0 ==> w * cols as real <= UsableWidthCm && w * rows as real <= UsableHeightCm
  {
    var a := UsableWidthCm / cols as real;
    var b := UsableHeightCm / rows as real;
    var w := ImageWidth("auto", rows, cols).value;
    if w > 2.0 {
      assert w <= MinReal(a, b) * 0.95;
      assert w * cols as real <= a * 0.95 * cols as real;
      assert w * rows as real <= b * 0.95 * rows as real;
    }
  }

  // ---------------------------------------------------------------- cells

  /** What a cell shows. */
  datatype Content =
    | Blank                        // an empty paragraph
    | Picture(data: Bytes, widthCm: real)
    | Placeholder                  // the text "[Изображение]" left when embedding fails

  const PlaceholderText: string := "[Изображение]"

  /** A table edge of `w:tblBorders`; the first four also occur in `w:tcBorders`. */
  datatype Edge = Top | Left | Bottom | Right | InsideH | InsideV

  /** The attributes `w:val`, `w:sz`, `w:space` and `w:color` of a border element. */
  datatype Border = Border(val: string, sz: int, space: string, color: string)

  datatype BorderElem = BorderElem(edge: Edge, border: Border)

  /** The children of one `w:tblBorders` or `w:tcBorders` element. */
  type Container = seq<BorderElem>

  /** A cell: its content, whether it was centred with zero margins, its
      width, and the `w:tcBorders` elements in its `w:tcPr`. */
  datatype CellState = CellState(content: Content, fitted: bool, widthCm: Option<real>, borders: seq<Container>)

  /** A row: its height and height-rule code. */
  datatype RowState = RowState(heightCm: Option<real>, rule: Option<int>)

  const EmptyCell := CellState(Blank, false, None, [])

  const TableEdges: seq<Edge> := [Top, Left, Bottom, Right, InsideH, InsideV]
  const CellEdges: seq<Edge> := [Top, Left, Bottom, Right]

  /** The table borders for `visible`: light grey single lines, or none. */
  function TableBorder(visible: bool): Border {
    if visible then Border("single", 4, "0", "C0C0C0") else Border("nil", 0, "0", "auto")
  }

  /** The cell borders, which are switched off whatever `visible` says. */
  const CellBorder: Border := Border("nil", 0, "0", "auto")

  /** The row height rule the builder writes, `height_rule = 1`: in
      python-docx's `WD_ROW_HEIGHT_RULE` the value 1 is AT_LEAST, so the
      height is a minimum the row may grow beyond (EXACTLY is 2). */
  const HeightRule: int := 1

  /** The cell `idx` of a table in row-major order receives, starting from `cell`. */
  function Placed(cell: CellState, photos: seq<Bytes>, idx: nat, widthCm: real, embeds: Bytes -> bool): CellState {
    if idx < |photos| then
      var fitted := cell.(fitted := true);
      if |photos[idx]| == 0 then fitted
      else if embeds(photos[idx]) then fitted.(content := Picture(photos[idx], widthCm))
      else fitted.(content := Placeholder)
    else cell.(content := Blank)
  }

  // ---------------------------------------------------------------- border elements

  /** The position of the first element for `edge`, as `find` returns it. */
  function FindEdge(container: Container, edge: Edge): (r: Option<nat>)
    ensures r.Some? ==> (r.value < |container| && container[r.value].edge == edge
      && forall i :: 0 <= i < r.value ==> container[i].edge != edge)
    ensures r.None? ==> forall i :: 0 <= i < |container| ==> container[i].edge != edge
  {
    if container == [] then None
    else if container[0].edge == edge then Some(0)
    else match FindEdge(container[1..], edge)
      case None => None
      case Some(i) => Some(i + 1)
  }

  /** Find the element for `edge` or append a new one, then set its attributes. */
  function SetEdge(container: Container, edge: Edge, border: Border): (r: Container)
  {
    match FindEdge(container, edge)
    case Some(i) => container[i := BorderElem(edge, border)]
    case None => container + [BorderElem(edge, border)]
  }

  predicate EdgesDistinct(container: Container) {
    forall i, j :: 0 <= i < j < |container| ==> container[i].edge != container[j].edge
  }

  /** Setting an edge reuses its element when there is one and appends one
      otherwise; the edges stay distinct and the other elements are untouched. */
  lemma SetEdgeReuses(container: Container, edge: Edge, border: Border)
    requires EdgesDistinct(container)
    ensures var r := SetEdge(container, edge, border);
      && EdgesDistinct(r)
      && BorderElem(edge, border) in r
      && (|r| == |container| <==> exists i :: 0 <= i < |container| && container[i].edge == edge)
      && (forall e :: e in container && e.edge != edge ==> e in r)
      && (forall e :: e in r && e.edge != edge ==> e in container)
  {
    var r := SetEdge(container, edge, border);
    match FindEdge(container, edge)
    case Some(i) =>
      assert r[i] == BorderElem(edge, border);
      forall e | e in container && e.edge != edge ensures e in r {
        var k :| 0 <= k < |container| && container[k] == e;
        assert r[k] == e;
      }
    case None =>
      assert r[|container|] == BorderElem(edge, border);
  }

  /** The element of a container that `SetEdges` fills from nothing with
      `edges`, one per edge and in their order. */
  function Uniform(edges: seq<Edge>, border: Border): Container {
    seq(|edges|, i requires 0 <= i < |edges| => BorderElem(edges[i], border))
  }

  /** The inner loop of `set_table_borders`: each listed edge is looked up in
      `container`, created when missing and given `border`. */
  method SetEdges(container: Container, edges: seq<Edge>, border: Border) returns (r: Container)
    requires EdgesDistinct(container)
    ensures EdgesDistinct(r)
    ensures forall i :: 0 <= i < |edges| ==> BorderElem(edges[i], border) in r
    ensures container == [] && (forall i, j :: 0 <= i < j < |edges| ==> edges[i] != edges[j]) ==>
      r == Uniform(edges, border)
  {
    r := container;
    var i := 0;
    while i < |edges|
      invariant 0 <= i <= |edges|
      invariant EdgesDistinct(r)
      invariant forall k :: 0 <= k < i ==> BorderElem(edges[k], border) in r
      invariant container == [] && (forall a, b :: 0 <= a < b < |edges| ==> edges[a] != edges[b]) ==>
        r == Uniform(edges[..i], border)
    {
      SetEdgeReuses(r, edges[i], border);
      if container == [] && (forall a, b :: 0 <= a < b < |edges| ==> edges[a] != edges[b]) {
        assert FindEdge(r, edges[i]).None? by {
          forall k | 0 <= k < |r| ensures r[k].edge != edges[i] {
            assert r[k].edge == edges[k];
          }
        }
        assert Uniform(edges[..i + 1], border) == Uniform(edges[..i], border) + [BorderElem(edges[i], border)];
      }
      r := SetEdge(r, edges[i], border);
      i := i + 1;
    }
    assert edges[..i] == edges;
  }

  // ---------------------------------------------------------------- the table

  /** A `doc.add_table(rows, cols)` table with the state the builder sets. */
  class Table {
    const rows: nat
    const cols: nat
    const cells: array2<CellState>
    const heights: array<RowState>
    /** The `w:tblBorders` elements under `w:tblPr`, first child first. */
    var borders: seq<Container>

    ghost predicate Valid()
      reads this
    {
      cells.Length0 == rows && cells.Length1 == cols && heights.Length == rows
    }

    /** A fresh table: blank cells, default sizes and no border elements. */
    constructor (rows: nat, cols: nat)
      ensures Valid() && this.rows == rows && this.cols == cols && fresh(cells) && fresh(heights)
      ensures forall r, c :: 0 <= r < rows && 0 <= c < cols ==> cells[r, c] == EmptyCell
      ensures forall r :: 0 <= r < rows ==> heights[r] == RowState(None, None)
      ensures borders == []
    {
      this.rows := rows;
      this.cols := cols;
      cells := new CellState[rows, cols]((r, c) => EmptyCell);
      heights := new RowState[rows](r => RowState(None, None));
      borders := [];
    }

    /** The filling loop of `create_single_page_document`: cell `(r, c)` gets
        `photos[r * cols + c]` when that index exists; an empty buffer leaves
        the cell's paragraph alone, a buffer the picture embedder rejects
        leaves the placeholder text, and cells past the last photo are cleared. */
    method Fill(photos: seq<Bytes>, widthCm: real, embeds: Bytes -> bool)
      requires Valid()
      modifies cells
      ensures Valid()
      ensures forall r, c :: 0 <= r < rows && 0 <= c < cols ==>
        cells[r, c] == Placed(old(cells[r, c]), photos, r * cols + c, widthCm, embeds)
    {
      for r := 0 to rows
        invariant forall i, j :: 0 <= i < rows && 0 <= j < cols ==>
          cells[i, j] == if i < r then Placed(old(cells[i, j]), photos, i * cols + j, widthCm, embeds)
                         else old(cells[i, j])
      {
        for c := 0 to cols
          invariant forall i, j :: 0 <= i < rows && 0 <= j < cols ==>
            cells[i, j] == if i < r || (i == r && j < c) then Placed(old(cells[i, j]), photos, i * cols + j, widthCm, embeds)
                           else old(cells[i, j])
        {
          cells[r, c] := Placed(cells[r, c], photos, r * cols + c, widthCm, embeds);
        }
      }
    }

    /** The sizing loops: every row gets `cellCm` as its height under the
        at-least rule `HeightRule`, and every cell `cellCm` as width (set twice,
        once row by row and once column by column). */
    method Size(cellCm: real)
      requires Valid()
      modifies cells, heights
      ensures Valid()
      ensures forall r :: 0 <= r < rows ==> heights[r] == RowState(Some(cellCm), Some(HeightRule))
      ensures forall r, c :: 0 <= r < rows && 0 <= c < cols ==>
        cells[r, c] == old(cells[r, c]).(widthCm := Some(cellCm))
    {
      for r := 0 to rows
        invariant forall i :: 0 <= i < rows ==>
          heights[i] == if i < r then RowState(Some(cellCm), Some(HeightRule)) else old(heights[i])
        invariant forall i, j :: 0 <= i < rows && 0 <= j < cols ==>
          cells[i, j] == if i < r then old(cells[i, j]).(widthCm := Some(cellCm)) else old(cells[i, j])
      {
        heights[r] := RowState(Some(cellCm), Some(HeightRule));
        for c := 0 to cols
          invariant forall i :: 0 <= i < rows ==>
            heights[i] == if i <= r then RowState(Some(cellCm), Some(HeightRule)) else old(heights[i])
          invariant forall i, j :: 0 <= i < rows && 0 <= j < cols ==>
            cells[i, j] == if i < r || (i == r && j < c) then old(cells[i, j]).(widthCm := Some(cellCm))
                           else old(cells[i, j])
        {
          cells[r, c] := cells[r, c].(widthCm := Some(cellCm));
        }
      }
      for c := 0 to cols
        invariant forall i :: 0 <= i < rows ==> heights[i] == RowState(Some(cellCm), Some(HeightRule))
        invariant forall i, j :: 0 <= i < rows && 0 <= j < cols ==>
          cells[i, j] == old(cells[i, j]).(widthCm := Some(cellCm))
      {
        for r := 0 to rows
          invariant forall i :: 0 <= i < rows ==> heights[i] == RowState(Some(cellCm), Some(HeightRule))
          invariant forall i, j :: 0 <= i < rows && 0 <= j < cols ==>
            cells[i, j] == old(cells[i, j]).(widthCm := Some(cellCm))
        {
          cells[r, c] := cells[r, c].(widthCm := Some(cellCm));
        }
      }
    }

    /** `set_table_borders(table, visible)`. The lookups search the direct
        children of the table and of each cell, but the elements are created
        one level down (in `w:tblPr` and `w:tcPr`), so every call inserts a
        new `w:tblBorders` in front and appends a new `w:tcBorders` to each
        cell. The table edges follow `visible`; the cell edges are always off. */
    method SetTableBorders(visible: bool)
      requires Valid()
      modifies this, cells
      ensures Valid()
      ensures borders == [Uniform(TableEdges, TableBorder(visible))] + old(borders)
      ensures forall r, c :: 0 <= r < rows && 0 <= c < cols ==>
        cells[r, c] == old(cells[r, c]).(borders := old(cells[r, c]).borders + [Uniform(CellEdges, CellBorder)])
    {
      var tableBorders := SetEdges([], TableEdges, TableBorder(visible));
      borders := [tableBorders] + borders;
      for r := 0 to rows
        invariant borders == [tableBorders] + old(borders)
        invariant forall i, j :: 0 <= i < rows && 0 <= j < cols ==>
          cells[i, j] == if i < r then old(cells[i, j]).(borders := old(cells[i, j]).borders + [Uniform(CellEdges, CellBorder)])
                         else old(cells[i, j])
      {
        for c := 0 to cols
          invariant borders == [tableBorders] + old(borders)
          invariant forall i, j :: 0 <= i < rows && 0 <= j < cols ==>
            cells[i, j] == if i < r || (i == r && j < c) then old(cells[i, j]).(borders := old(cells[i, j]).borders + [Uniform(CellEdges, CellBorder)])
                           else old(cells[i, j])
        {
          var cellBorders := SetEdges([], CellEdges, CellBorder);
          cells[r, c] := cells[r, c].(borders := cells[r, c].borders + [cellBorders]);
        }
      }
    }
  }

  // ---------------------------------------------------------------- the page

  /** The expected final state of cell `idx` of a freshly built table. */
  function BuiltCell(photos: seq<Bytes>, idx: nat, widthCm: real, embeds: Bytes -> bool): CellState {
    Placed(EmptyCell, photos, idx, widthCm, embeds)
      .(widthCm := Some(widthCm + CellPaddingCm), borders := [Uniform(CellEdges, CellBorder)])
  }

  /** The document: an optional bold, centred heading and the table. */
  datatype Document = Document(heading: Option<string>, table: Table)

  /** A heading is written only for a title that is present and non-empty. */
  function Heading(title: Option<string>): (h: Option<string>)
    ensures h.Some? <==> title.Some? && title.value != ""
    ensures h.Some? ==> h.value == title.value
  {
    if title.Some? && title.value != "" then title else None
  }

  /** `create_single_page_document(photos, rows, cols, table_title, image_size_option)`. */
  method CreateSinglePageDocument(photos: seq<Bytes>, rows: nat, cols: nat, title: Option<string>,
                                  option: string, embeds: Bytes -> bool)
    returns (r: Result<Document, PyError>)
    ensures r.Failure? <==> ImageWidth(option, rows, cols).Failure?
    ensures r.Success? ==>
      var doc := r.value;
      var t := doc.table;
      var w := ImageWidth(option, rows, cols).value;
      && fresh(t) && fresh(t.cells) && fresh(t.heights) && t.Valid()
      && t.rows == rows && t.cols == cols
      && doc.heading == Heading(title)
      && t.borders == [Uniform(TableEdges, TableBorder(false))]
      && (forall i :: 0 <= i < rows ==> t.heights[i] == RowState(Some(w + CellPaddingCm), Some(HeightRule)))
      && (forall i, j :: 0 <= i < rows && 0 <= j < cols ==> t.cells[i, j] == BuiltCell(photos, i * cols + j, w, embeds))
  {
    var heading := Heading(title);
    var table := new Table(rows, cols);
    var width := ImageWidth(option, rows, cols);
    if width.Failure? {
      return Failure(width.error);
    }
    var w := width.value;
    var cellCm := w + CellPaddingCm;
    table.Fill(photos, w, embeds);
    table.Size(cellCm);
    table.SetTableBorders(false);
    return Success(Document(heading, table));
  }

  // ---------------------------------------------------------------- placement

  /** Row-major placement: the picture of cell `(r, c)` is photo
      `r * cols + c`, a cell past the last photo is blank and not fitted,
      and a photo that the embedder rejects leaves the placeholder. */
  lemma PlacementRowMajor(photos: seq<Bytes>, rows: nat, cols: nat, r: nat, c: nat, w: real, embeds: Bytes -> bool)
    requires r < rows && c < cols
    ensures var idx := r * cols + c;
      var cell := BuiltCell(photos, idx, w, embeds);
      && (cell.fitted <==> idx < |photos|)
      && (cell.content.Picture? <==> idx < |photos| && |photos[idx]| > 0 && embeds(photos[idx]))
      && (cell.content.Picture? ==> cell.content == Picture(photos[idx], w))
      && (cell.content.Placeholder? <==> idx < |photos| && |photos[idx]| > 0 && !embeds(photos[idx]))
      && cell.widthCm == Some(w + CellPaddingCm)
  {
  }

  /** Every photo index below `rows * cols` has a cell: row `i / cols`,
      column `i % cols`. */
  lemma CellOfIndex(rows: nat, cols: nat, i: nat)
    requires i < rows * cols
    ensures cols > 0 && i / cols < rows && i % cols < cols && (i / cols) * cols + i % cols == i
  {
    var q := i / cols;
    assert i == q * cols + i % cols;
    if q >= rows {
      MulMono(rows, q, cols);
    }
  }

  /** Cell `(r, c)` is the only cell for its index: the index gives back its
      row and column. */
  lemma IndexOfCell(cols: nat, r: nat, c: nat)
    requires c < cols
    ensures (r * cols + c) / cols == r && (r * cols + c) % cols == c
  {
    DivModUnique(r * cols + c, cols, r, c);
  }

  lemma MulMono(a: nat, b: nat, k: nat)
    requires a <= b
    ensures a * k <= b * k
  {
  }

  lemma DivModUnique(i: nat, k: nat, q: nat, m: nat)
    requires k > 0 && m < k && q * k + m == i
    ensures q == i / k && m == i % k
  {
    var q' := i / k;
    var m' := i % k;
    assert i == q' * k + m';
    if q < q' {
      MulMono(q + 1, q', k);
    } else if q > q' {
      MulMono(q' + 1, q, k);
    }
  }

  /** No cell index reaches `rows * cols`, so photos from that index on are
      left out of a single-page table. */
  lemma CellIndexBelowCapacity(rows: nat, cols: nat, r: nat, c: nat)
    requires r < rows && c < cols
    ensures r * cols + c < rows * cols
  {
    MulMono(r + 1, rows, cols);
  }
}
