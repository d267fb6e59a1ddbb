/** The per-tool normalizers of `src/processing/normalizer.py`: they turn the
    raw page records an extractor wrapper produces into canonical pages. The
    raw dictionaries are typed records here; each key the code reads with a
    default is a `Slot`, so "absent" and "bound to None" stay distinct. Block
    ids (`uuid4`) are drawn from a serial counter: `next` in, `next` out. */
module PageNormalizer {
  import opened Wrappers
  import opened PyValue
  import opened Text
  import opened PageModel

  /** The names of the keys and fields the normalizers read or fill. */
  const PageIndexKey: string := "page_index"
  const ToolKey: string := "tool"
  const TextKey: string := "text"
  const IndexField: string := "index"
  const BboxKey: string := "bbox"

  /** One element of a PyMuPDF block tuple `(x0, y0, x1, y1, text, block_no, ...)`. */
  datatype TupleItem = Num(x: real) | Txt(s: string) | Nil

  type BlockTuple = seq<TupleItem>

  /** A pdfplumber table: rows of cells, a cell being text or None. */
  type Grid = seq<seq<Option<string>>>

  /** One element of `raw["pages"]`. PyMuPDF pages carry `blocks`, pdfplumber
      pages carry `tables`; each normalizer reads only its own key. */
  datatype RawPage = RawPage(
    pageIndex: Slot<int>,
    text: Slot<string>,
    blocks: Slot<seq<BlockTuple>>,
    tables: Slot<seq<Grid>>)

  /** A raw extraction dictionary: `tool`, `pages` and any other keys (the
      wrappers add `metadata`), which the normalizers ignore. */
  datatype RawExtraction = RawExtraction(
    tool: Slot<string>,
    pages: Slot<seq<RawPage>>,
    others: map<string, Value>)

  /** A normalizer's result: the pages and the first unused id serial. */
  datatype Normalized = Normalized(pages: seq<Page>, next: nat)

  /** `raw.get("pages", [])` when that is iterable. */
  function RawPages(raw: RawExtraction): seq<RawPage> {
    if raw.pages.Given? then raw.pages.value else []
  }

  /** `raw.get("tool", default)` when that is a valid string; None when the
      key is bound to None, which the pydantic models reject. */
  function ToolTag(slot: Slot<string>, default: string): Option<string> {
    match slot
    case Absent => Some(default)
    case NoneBound => None
    case Given(t) => Some(t)
  }

  function PageIndexOf(slot: Slot<int>): Option<int> {
    if slot.Given? then Some(slot.value) else None
  }

  // ---------------------------------------------------------------- PyMuPDF

  function BlocksOf(p: RawPage): seq<BlockTuple> {
    if p.blocks.Given? then p.blocks.value else []
  }

  /** `text or ""` for the fifth tuple element, as the `str` field accepts it. */
  function TupleText(item: TupleItem): Result<string, Error> {
    match item
    case Txt(s) => Ok(s)
    case Nil => Ok("")
    case Num(x) => if x == 0.0 then Ok("") else Err(ValidationError(TextKey))
  }

  function Coordinate(item: TupleItem): Result<real, Error> {
    if item.Num? then Ok(item.x) else Err(ValidationError(BboxKey))
  }

  /** The tuple unpacks (at least five elements), its four coordinates are
      numbers and its text is a string or falsy. */
  predicate ValidTuple(t: BlockTuple) {
    && |t| >= 5
    && t[0].Num? && t[1].Num? && t[2].Num? && t[3].Num?
    && TupleText(t[4]).Ok?
  }

  /** `b` is the block built from tuple `t` on page `index` by `tool`. */
  predicate BlockFromTuple(t: BlockTuple, b: TextBlock, index: int, tool: string)
    requires ValidTuple(t)
  {
    b == TextBlock(b.id, index, TupleText(t[4]).value,
                   Some(BoundingBox(t[0].x, t[1].x, t[2].x, t[3].x)), tool, map[])
  }

  /** The block of one tuple. The `BoundingBox` argument is validated before
      the `TextBlock` it is passed to, so a bad coordinate is reported before
      a bad text, page index or tool. */
  function MuBlock(t: BlockTuple, pageIndex: Option<int>, tool: Option<string>, id: Uuid): (r: Result<TextBlock, Error>)
    ensures r.Ok? <==> ValidTuple(t) && pageIndex.Some? && tool.Some?
    ensures r.Ok? ==> r.value.id == id && BlockFromTuple(t, r.value, pageIndex.value, tool.value)
  {
    if |t| < 5 then Err(ValueError(CannotUnpack))
    else
      var x0 :- Coordinate(t[0]);
      var y0 :- Coordinate(t[1]);
      var x1 :- Coordinate(t[2]);
      var y1 :- Coordinate(t[3]);
      var text :- TupleText(t[4]);
      if pageIndex.None? then Err(ValidationError(PageIndexKey))
      else if tool.None? then Err(ValidationError(ToolKey))
      else Ok(NewTextBlock(id, pageIndex.value, text, Some(BoundingBox(x0, y0, x1, y1)), tool.value))
  }

  /** The blocks of one page, ids drawn in tuple order. */
  function MuBlocks(ts: seq<BlockTuple>, pageIndex: Option<int>, tool: Option<string>, next: nat)
    : (r: Result<(seq<TextBlock>, nat), Error>)
    ensures r.Ok? <==> (forall j :: 0 <= j < |ts| ==> ValidTuple(ts[j]))
                       && (ts != [] ==> pageIndex.Some? && tool.Some?)
    ensures r.Ok? ==> var (bs, next') := r.value;
      && |bs| == |ts| && next' == next + |ts|
      && (forall j :: 0 <= j < |ts| ==> bs[j].id == Uuid(next + j))
      && forall j :: 0 <= j < |ts| ==> BlockFromTuple(ts[j], bs[j], pageIndex.value, tool.value)
    decreases |ts|
  {
    if ts == [] then Ok(([], next))
    else
      match MuBlock(ts[0], pageIndex, tool, Uuid(next))
      case Err(e) => Err(e)
      case Ok(b) =>
        match MuBlocks(ts[1..], pageIndex, tool, next + 1)
        case Err(e) =>
          assert !ValidTuple(ts[1..][0]) || ts[1..] == [] || (exists j :: 1 <= j < |ts| && !ValidTuple(ts[j])) by {
            assert forall j :: 0 <= j < |ts| - 1 ==> ts[1..][j] == ts[j + 1];
          }
          Err(e)
        case Ok(rest) =>
          assert forall j :: 1 <= j < |ts| ==> ts[1..][j - 1] == ts[j];
          Ok(([b] + rest.0, rest.1))
  }

  /** A PyMuPDF page record normalizes without raising. */
  predicate MuPageValid(p: RawPage, tool: Option<string>) {
    && p.pageIndex.Given?
    && !p.text.NoneBound?
    && !p.blocks.NoneBound?
    && (forall j :: 0 <= j < |BlocksOf(p)| ==> ValidTuple(BlocksOf(p)[j]))
    && (BlocksOf(p) != [] ==> tool.Some?)
  }

  /** `q` is the canonical page of PyMuPDF record `p`: same index, the record's
      text (default ""), no tables, and one block per tuple, in tuple order. */
  predicate MuPageFits(p: RawPage, tool: Option<string>, q: Page)
    requires MuPageValid(p, tool)
  {
    && q.index == p.pageIndex.value
    && q.text == (if p.text.Given? then p.text.value else "")
    && q.tables == []
    && |q.blocks| == |BlocksOf(p)|
    && forall j :: 0 <= j < |q.blocks| ==> BlockFromTuple(BlocksOf(p)[j], q.blocks[j], q.index, tool.value)
  }

  function MuPage(p: RawPage, tool: Option<string>, next: nat): (r: Result<(Page, nat), Error>)
    ensures r.Ok? <==> MuPageValid(p, tool)
    ensures r.Ok? ==> var (q, next') := r.value;
      && MuPageFits(p, tool, q) && WellFormedPage(q)
      && next <= next' && BlockIds(q.blocks) == Serials(next, next')
  {
    if p.pageIndex.Absent? then Err(KeyError(PageIndexKey))
    else if p.blocks.NoneBound? then Err(TypeError(NotIterable))
    else
      var index := PageIndexOf(p.pageIndex);
      var built :- MuBlocks(BlocksOf(p), index, tool, next);
      if p.text.NoneBound? then Err(ValidationError(TextKey))
      else if index.None? then Err(ValidationError(IndexField))
      else
        var text := if p.text.Given? then p.text.value else "";
        Ok((Page(index.value, text, built.0, []), built.1))
  }

  function MuPages(ps: seq<RawPage>, tool: Option<string>, next: nat): (r: Result<Normalized, Error>)
    ensures r.Ok? <==> forall k :: 0 <= k < |ps| ==> MuPageValid(ps[k], tool)
    ensures r.Ok? ==>
      && |r.value.pages| == |ps|
      && (forall k :: 0 <= k < |ps| ==> MuPageFits(ps[k], tool, r.value.pages[k]))
      && AllWellFormed(r.value.pages)
      && next <= r.value.next
      && BlockIds(AllBlocks(r.value.pages)) == Serials(next, r.value.next)
    decreases |ps|
  {
    if ps == [] then Ok(Normalized([], next))
    else
      match MuPage(ps[0], tool, next)
      case Err(e) => Err(e)
      case Ok(first) =>
        match MuPages(ps[1..], tool, first.1)
        case Err(e) =>
          assert forall k :: 1 <= k < |ps| ==> ps[1..][k - 1] == ps[k];
          Err(e)
        case Ok(rest) =>
          ConsMuFits(ps, tool, first.0, rest.pages);
          ConsPageIds(first.0, rest.pages, next, first.1, rest.next);
          Ok(Normalized([first.0] + rest.pages, rest.next))
  }

  lemma ConsMuFits(ps: seq<RawPage>, tool: Option<string>, q: Page, qs: seq<Page>)
    requires |ps| == |qs| + 1
    requires MuPageValid(ps[0], tool) && MuPageFits(ps[0], tool, q) && WellFormedPage(q)
    requires forall k :: 0 <= k < |qs| ==> MuPageValid(ps[1..][k], tool) && MuPageFits(ps[1..][k], tool, qs[k])
    requires AllWellFormed(qs)
    ensures forall k :: 0 <= k < |ps| ==> MuPageValid(ps[k], tool)
    ensures forall k :: 0 <= k < |ps| ==> MuPageFits(ps[k], tool, ([q] + qs)[k])
    ensures AllWellFormed([q] + qs)
  {
    forall k | 1 <= k < |ps|
      ensures MuPageValid(ps[k], tool) && MuPageFits(ps[k], tool, ([q] + qs)[k])
    {
      assert ps[1..][k - 1] == ps[k];
      assert ([q] + qs)[k] == qs[k - 1];
    }
  }

  /** Putting a page whose blocks drew serials `a..b` before pages whose
      blocks drew `b..c` gives a document whose blocks drew `a..c`. */
  lemma ConsPageIds(q: Page, rest: seq<Page>, a: nat, b: nat, c: nat)
    requires a <= b <= c
    requires BlockIds(q.blocks) == Serials(a, b)
    requires BlockIds(AllBlocks(rest)) == Serials(b, c)
    ensures BlockIds(AllBlocks([q] + rest)) == Serials(a, c)
  {
    AllBlocksAppend([q], rest);
    assert AllBlocks([q]) == q.blocks by {
      assert [q][..0] == [];
    }
    BlockIdsAppend(q.blocks, AllBlocks(rest));
    SerialsAppend(a, b, c);
  }

  /** The tool tag PyMuPDF blocks carry. */
  function MuTool(raw: RawExtraction): Option<string> {
    ToolTag(raw.tool, "pymupdf")
  }

  /** `PyMuPDFNormalizer.normalize` succeeds. */
  predicate MuValid(raw: RawExtraction) {
    && !raw.pages.NoneBound?
    && forall k :: 0 <= k < |RawPages(raw)| ==> MuPageValid(RawPages(raw)[k], MuTool(raw))
  }

  /** `PyMuPDFNormalizer.normalize`: one page per record, in record order,
      each block built from its tuple; block ids are the next fresh serials. */
  function NormalizePyMuPdf(raw: RawExtraction, next: nat): (r: Result<Normalized, Error>)
    ensures r.Ok? <==> MuValid(raw)
    ensures r.Ok? ==>
      && |r.value.pages| == |RawPages(raw)|
      && (forall k :: 0 <= k < |RawPages(raw)| ==> MuPageFits(RawPages(raw)[k], MuTool(raw), r.value.pages[k]))
      && AllWellFormed(r.value.pages)
      && AllTables(r.value.pages) == []
      && next <= r.value.next
      && BlockIds(AllBlocks(r.value.pages)) == Serials(next, r.value.next)
  {
    if raw.pages.NoneBound? then Err(TypeError(NotIterable))
    else
      var n :- MuPages(RawPages(raw), MuTool(raw), next);
      NoTablesFromMu(n.pages);
      Ok(n)
  }

  lemma NoTablesFromMu(ps: seq<Page>)
    requires forall k :: 0 <= k < |ps| ==> ps[k].tables == []
    ensures AllTables(ps) == []
  {
    if ps != [] {
      NoTablesFromMu(ps[..|ps| - 1]);
    }
  }

  /** A block tuple with fewer than five elements makes the normalizer raise,
      whatever else the input holds. */
  lemma ShortTupleRaises(raw: RawExtraction, next: nat, k: nat, j: nat)
    requires k < |RawPages(raw)| && j < |BlocksOf(RawPages(raw)[k])|
    requires |BlocksOf(RawPages(raw)[k])[j]| < 5
    ensures NormalizePyMuPdf(raw, next).Err?
  {
    assert !MuPageValid(RawPages(raw)[k], MuTool(raw));
  }

  // ------------------------------------------------------------- pdfplumber

  function TablesOf(p: RawPage): seq<Grid> {
    if p.tables.Given? then p.tables.value else []
  }

  /** `p.get("text", "") or ""`. */
  function PlumberText(p: RawPage): string {
    if p.text.Given? then p.text.value else ""
  }

  /** The number of entries of the grid, row after row. */
  function CellCount(g: Grid): nat {
    if g == [] then 0 else CellCount(g[..|g| - 1]) + |g[|g| - 1]|
  }

  /** `x` is the entry of `g` at `x`'s own row and column, with None read as "". */
  predicate CellOfGrid(g: Grid, x: TableCell) {
    && 0 <= x.row < |g| && 0 <= x.col < |g[x.row]|
    && x == NewTableCell(x.row, x.col, g[x.row][x.col].GetOr(""))
  }

  /** `x` comes strictly before `y` in row-major order. */
  predicate RowMajorBefore(x: TableCell, y: TableCell) {
    x.row < y.row || (x.row == y.row && x.col < y.col)
  }

  function RowCells(row: seq<Option<string>>, r: nat): (cells: seq<TableCell>)
    ensures |cells| == |row|
    ensures forall c :: 0 <= c < |row| ==> cells[c] == NewTableCell(r, c, row[c].GetOr(""))
  {
    seq(|row|, c requires 0 <= c < |row| => NewTableCell(r, c, row[c].GetOr("")))
  }

  /** The cells of a pdfplumber table: one cell per grid entry, None read as ""
      (the grid is kept dense), in strictly increasing row-major order. Since
      the order is strict and every cell is an entry of the grid, the count
      says that every entry occurs exactly once. */
  function GridCells(g: Grid): (cells: seq<TableCell>)
    ensures |cells| == CellCount(g)
    ensures forall k :: 0 <= k < |cells| ==> CellOfGrid(g, cells[k])
    ensures forall k :: 0 < k < |cells| ==> RowMajorBefore(cells[k - 1], cells[k])
  {
    if g == [] then []
    else
      var n := |g| - 1;
      var init := GridCells(g[..n]);
      var last := RowCells(g[n], n);
      GridCellsStep(g, g[..n], init, last);
      init + last
  }

  lemma GridCellsStep(g: Grid, h: Grid, init: seq<TableCell>, last: seq<TableCell>)
    requires |g| > 0 && h == g[..|g| - 1]
    requires forall k :: 0 <= k < |init| ==> CellOfGrid(h, init[k])
    requires forall k :: 0 < k < |init| ==> RowMajorBefore(init[k - 1], init[k])
    requires last == RowCells(g[|g| - 1], |g| - 1)
    ensures forall k :: 0 <= k < |init + last| ==> CellOfGrid(g, (init + last)[k])
    ensures forall k :: 0 < k < |init + last| ==> RowMajorBefore((init + last)[k - 1], (init + last)[k])
  {
    var cells := init + last;
    forall k | 0 <= k < |cells|
      ensures CellOfGrid(g, cells[k])
    {
      if k < |init| {
        assert cells[k] == init[k];
        assert h[init[k].row] == g[init[k].row];
      }
    }
    forall k | 0 < k < |cells|
      ensures RowMajorBefore(cells[k - 1], cells[k])
    {
      if k < |init| {
        assert cells[k - 1] == init[k - 1] && cells[k] == init[k];
      } else if k == |init| {
        assert CellOfGrid(h, init[k - 1]);
      }
    }
  }

  /** `f"{tool}_p{page_index}_t{tbl_idx}"`. */
  function TableId(tool: string, pageIndex: int, k: nat): string {
    tool + "_p" + IntToString(pageIndex) + "_t" + IntToString(k)
  }

  /** Table ids of one tool are distinct across pages and positions: the id
      determines both the page index and the table's position on the page. */
  lemma TableIdInjective(tool: string, p: int, k: nat, p': int, k': nat)
    requires TableId(tool, p, k) == TableId(tool, p', k')
    ensures p == p' && k == k'
  {
    var a, b := IntToString(p), IntToString(k);
    var a', b' := IntToString(p'), IntToString(k');
    var prefix := tool + "_p";
    assert TableId(tool, p, k) == prefix + (a + ['_'] + ("t" + b));
    assert TableId(tool, p', k') == prefix + (a' + ['_'] + ("t" + b'));
    assert a + ['_'] + ("t" + b) == a' + ['_'] + ("t" + b') by {
      var s := TableId(tool, p, k);
      assert s[|prefix|..] == a + ['_'] + ("t" + b);
      assert s[|prefix|..] == a' + ['_'] + ("t" + b');
    }
    CutAtFirst(a, "t" + b, a', "t" + b', '_');
    assert b == ("t" + b)[1..] && b' == ("t" + b')[1..];
    IntToStringInjective(p, p');
    IntToStringInjective(k, k');
  }

  /** A pdfplumber page record normalizes without raising. */
  predicate PlumberPageValid(p: RawPage, tool: Option<string>) {
    && p.pageIndex.Given?
    && !p.tables.NoneBound?
    && (PlumberText(p) != [] || TablesOf(p) != [] ==> tool.Some?)
  }

  /** `q` is the canonical page of pdfplumber record `p`: same index and text,
      one whole-page block without geometry exactly when the text is not empty,
      and table `k` with id `TableId(tool, index, k)` and the grid's dense cells. */
  predicate PlumberPageFits(p: RawPage, tool: Option<string>, q: Page)
    requires PlumberPageValid(p, tool)
  {
    && q.index == p.pageIndex.value
    && q.text == PlumberText(p)
    && |q.blocks| == (if q.text == [] then 0 else 1)
    && (q.text != [] ==> q.blocks[0] == TextBlock(q.blocks[0].id, q.index, q.text, None, tool.value, map[]))
    && |q.tables| == |TablesOf(p)|
    && forall k :: 0 <= k < |q.tables| ==>
         q.tables[k] == Table(TableId(tool.value, q.index, k), q.index, GridCells(TablesOf(p)[k]), tool.value, map[])
  }

  function PlumberTables(grids: seq<Grid>, index: int, tool: string): (ts: seq<Table>)
    ensures |ts| == |grids|
    ensures forall k :: 0 <= k < |grids| ==>
      ts[k] == NewTable(TableId(tool, index, k), index, GridCells(grids[k]), tool)
  {
    seq(|grids|, k requires 0 <= k < |grids| => NewTable(TableId(tool, index, k), index, GridCells(grids[k]), tool))
  }

  /** The page a valid pdfplumber record normalizes to, its one block (if
      any) taking serial `next`. */
  function PlumberPageOf(p: RawPage, tool: Option<string>, next: nat): (q: Page)
    requires PlumberPageValid(p, tool)
    ensures PlumberPageFits(p, tool, q) && WellFormedPage(q)
    ensures BlockIds(q.blocks) == Serials(next, next + |q.blocks|)
  {
    var index := p.pageIndex.value;
    var text := PlumberText(p);
    var blocks := if text != [] then [NewTextBlock(Uuid(next), index, text, None, tool.value)] else [];
    var tables := if TablesOf(p) == [] then [] else PlumberTables(TablesOf(p), index, tool.value);
    Page(index, text, blocks, tables)
  }

  /** The validation error of a block or table built without a page index
      or without a tool. */
  function MissingTag(p: RawPage, tool: Option<string>): Error {
    if p.pageIndex.NoneBound? then ValidationError(PageIndexKey) else ValidationError(ToolKey)
  }

  /** One page of `PDFPlumberNormalizer.normalize`, with the errors in the
      order the loop body meets them: the `page_index` lookup, the text
      block (which needs a page index and a tool), iterating `tables`, the
      first table (same needs), and last the `Page` itself, which is where
      a page index bound to None is rejected when nothing was built. */
  function PlumberPage(p: RawPage, tool: Option<string>, next: nat): (r: Result<(Page, nat), Error>)
    ensures r.Ok? <==> PlumberPageValid(p, tool)
    ensures r.Ok? ==> var (q, next') := r.value;
      && PlumberPageFits(p, tool, q) && WellFormedPage(q)
      && next <= next' && BlockIds(q.blocks) == Serials(next, next')
  {
    if p.pageIndex.Absent? then Err(KeyError(PageIndexKey))
    else if PlumberText(p) != [] && (p.pageIndex.NoneBound? || tool.None?) then Err(MissingTag(p, tool))
    else if p.tables.NoneBound? then Err(TypeError(NotIterable))
    else if TablesOf(p) != [] && (p.pageIndex.NoneBound? || tool.None?) then Err(MissingTag(p, tool))
    else if p.pageIndex.NoneBound? then Err(ValidationError(IndexField))
    else
      var q := PlumberPageOf(p, tool, next);
      Ok((q, next + |q.blocks|))
  }

  /** With empty text there is no block to validate, so iterating a `tables`
      bound to None raises before `Page` rejects a page index bound to None. */
  lemma NoneTablesBeforeNoneIndex(p: RawPage, tool: Option<string>, next: nat)
    requires p.pageIndex.NoneBound? && PlumberText(p) == [] && p.tables.NoneBound?
    ensures PlumberPage(p, tool, next) == Err(TypeError(NotIterable))
  {
  }

  function PlumberPages(ps: seq<RawPage>, tool: Option<string>, next: nat): (r: Result<Normalized, Error>)
    ensures r.Ok? <==> forall k :: 0 <= k < |ps| ==> PlumberPageValid(ps[k], tool)
    ensures r.Ok? ==>
      && |r.value.pages| == |ps|
      && (forall k :: 0 <= k < |ps| ==> PlumberPageFits(ps[k], tool, r.value.pages[k]))
      && AllWellFormed(r.value.pages)
      && next <= r.value.next
      && BlockIds(AllBlocks(r.value.pages)) == Serials(next, r.value.next)
    decreases |ps|
  {
    if ps == [] then Ok(Normalized([], next))
    else
      match PlumberPage(ps[0], tool, next)
      case Err(e) => Err(e)
      case Ok(first) =>
        match PlumberPages(ps[1..], tool, first.1)
        case Err(e) =>
          assert forall k :: 1 <= k < |ps| ==> ps[1..][k - 1] == ps[k];
          Err(e)
        case Ok(rest) =>
          ConsPlumberFits(ps, tool, first.0, rest.pages);
          ConsPageIds(first.0, rest.pages, next, first.1, rest.next);
          Ok(Normalized([first.0] + rest.pages, rest.next))
  }

  lemma ConsPlumberFits(ps: seq<RawPage>, tool: Option<string>, q: Page, qs: seq<Page>)
    requires |ps| == |qs| + 1
    requires PlumberPageValid(ps[0], tool) && PlumberPageFits(ps[0], tool, q) && WellFormedPage(q)
    requires forall k :: 0 <= k < |qs| ==> PlumberPageValid(ps[1..][k], tool) && PlumberPageFits(ps[1..][k], tool, qs[k])
    requires AllWellFormed(qs)
    ensures forall k :: 0 <= k < |ps| ==> PlumberPageValid(ps[k], tool)
    ensures forall k :: 0 <= k < |ps| ==> PlumberPageFits(ps[k], tool, ([q] + qs)[k])
    ensures AllWellFormed([q] + qs)
  {
    forall k | 1 <= k < |ps|
      ensures PlumberPageValid(ps[k], tool) && PlumberPageFits(ps[k], tool, ([q] + qs)[k])
    {
      assert ps[1..][k - 1] == ps[k];
      assert ([q] + qs)[k] == qs[k - 1];
    }
  }

  /** The tool tag pdfplumber blocks and tables carry. */
  function PlumberTool(raw: RawExtraction): Option<string> {
    ToolTag(raw.tool, "pdfplumber")
  }

  /** `PDFPlumberNormalizer.normalize` succeeds. */
  predicate PlumberValid(raw: RawExtraction) {
    && !raw.pages.NoneBound?
    && forall k :: 0 <= k < |RawPages(raw)| ==> PlumberPageValid(RawPages(raw)[k], PlumberTool(raw))
  }

  /** `PDFPlumberNormalizer.normalize`: one page per record, in record order,
      with the page text, at most one block and the dense tables. */
  function NormalizePdfPlumber(raw: RawExtraction, next: nat): (r: Result<Normalized, Error>)
    ensures r.Ok? <==> PlumberValid(raw)
    ensures r.Ok? ==>
      && |r.value.pages| == |RawPages(raw)|
      && (forall k :: 0 <= k < |RawPages(raw)| ==> PlumberPageFits(RawPages(raw)[k], PlumberTool(raw), r.value.pages[k]))
      && AllWellFormed(r.value.pages)
      && next <= r.value.next
      && BlockIds(AllBlocks(r.value.pages)) == Serials(next, r.value.next)
  {
    if raw.pages.NoneBound? then Err(TypeError(NotIterable))
    else PlumberPages(RawPages(raw), PlumberTool(raw), next)
  }

  // ------------------------------------------------------------ Document AI

  /** `DocumentAINormalizer.normalize`: not implemented upstream, so every
      input, whatever its shape, yields no pages and draws no ids. */
  function NormalizeDocumentAi(raw: map<string, Value>, next: nat): (r: Normalized)
    ensures r.pages == [] && r.next == next
  {
    Normalized([], next)
  }
}
