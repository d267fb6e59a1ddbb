/** The page-based canonical document ("SuperJSON") of `src/processing`:
    bounding boxes, text blocks, table cells, tables, pages, document metadata
    and the document itself, with the defaults the pydantic models declare. */
module PageModel {
  import opened Wrappers
  import opened PyValue

  /** Page-space coordinates; opaque to the pipeline, which only copies them. */
  datatype BoundingBox = BoundingBox(x0: real, y0: real, x1: real, y1: real)

  /** A freshly generated identifier (`uuid4()`): the `serial`-th value drawn
      from the id supply. Distinct serials stand for distinct identifiers. */
  datatype Uuid = Uuid(serial: nat)

  datatype TextBlock = TextBlock(
    id: Uuid,
    pageIndex: int,
    text: string,
    bbox: Option<BoundingBox>,
    tool: string,
    extra: map<string, Value>)

  datatype TableCell = TableCell(row: int, col: int, text: string, bbox: Option<BoundingBox>)

  datatype Table = Table(
    id: string,
    pageIndex: int,
    cells: seq<TableCell>,
    tool: string,
    extra: map<string, Value>)

  datatype Page = Page(index: int, text: string, blocks: seq<TextBlock>, tables: seq<Table>)

  datatype DocumentMetadata = DocumentMetadata(
    docId: string,
    sourceUri: string,
    source: Option<string>,
    extra: map<string, Value>)

  datatype SuperJSON = SuperJSON(
    metadata: DocumentMetadata,
    pages: seq<Page>,
    toolsUsed: seq<string>,
    version: string)

  /** The schema version stamped on every document. */
  const SchemaVersion: string := "1.0.0"

  // Constructors with the declared defaults the code relies on: `extra` is an
  // empty map, a cell's `bbox` is None, and a document starts with no tools
  // and the current schema version.

  function NewTextBlock(id: Uuid, pageIndex: int, text: string, bbox: Option<BoundingBox>, tool: string): TextBlock {
    TextBlock(id, pageIndex, text, bbox, tool, map[])
  }

  function NewTableCell(row: int, col: int, text: string): TableCell {
    TableCell(row, col, text, None)
  }

  function NewTable(id: string, pageIndex: int, cells: seq<TableCell>, tool: string): Table {
    Table(id, pageIndex, cells, tool, map[])
  }

  function NewSuperJSON(metadata: DocumentMetadata, pages: seq<Page>): SuperJSON {
    SuperJSON(metadata, pages, [], SchemaVersion)
  }

  /** Every block and table of the page refers to the page's own index. */
  predicate WellFormedPage(p: Page) {
    && (forall j :: 0 <= j < |p.blocks| ==> p.blocks[j].pageIndex == p.index)
    && (forall j :: 0 <= j < |p.tables| ==> p.tables[j].pageIndex == p.index)
  }

  predicate AllWellFormed(ps: seq<Page>) {
    forall k :: 0 <= k < |ps| ==> WellFormedPage(ps[k])
  }

  /** The set of page indices occurring in `ps`. */
  function Indices(ps: seq<Page>): set<int> {
    set k | 0 <= k < |ps| :: ps[k].index
  }

  /** Page indices strictly increase along `ps`. */
  predicate StrictlyAscending(ps: seq<Page>) {
    forall a, b :: 0 <= a < b < |ps| ==> ps[a].index < ps[b].index
  }

  /** The blocks of all pages, page after page. */
  function AllBlocks(ps: seq<Page>): seq<TextBlock> {
    if ps == [] then [] else AllBlocks(ps[..|ps| - 1]) + ps[|ps| - 1].blocks
  }

  /** The tables of all pages, page after page. */
  function AllTables(ps: seq<Page>): seq<Table> {
    if ps == [] then [] else AllTables(ps[..|ps| - 1]) + ps[|ps| - 1].tables
  }

  function BlockIds(bs: seq<TextBlock>): (ids: seq<Uuid>)
    ensures |ids| == |bs|
    ensures forall j :: 0 <= j < |bs| ==> ids[j] == bs[j].id
  {
    if bs == [] then [] else BlockIds(bs[..|bs| - 1]) + [bs[|bs| - 1].id]
  }

  /** The identifiers `Uuid(lo)`, ..., `Uuid(hi - 1)`, in drawing order. */
  function Serials(lo: nat, hi: nat): (ids: seq<Uuid>)
    requires lo <= hi
    ensures |ids| == hi - lo
    ensures forall j :: 0 <= j < |ids| ==> ids[j] == Uuid(lo + j)
  {
    if lo == hi then [] else Serials(lo, hi - 1) + [Uuid(hi - 1)]
  }

  /** No identifier occurs twice. */
  predicate Distinct(ids: seq<Uuid>) {
    forall a, b :: 0 <= a < b < |ids| ==> ids[a] != ids[b]
  }

  lemma AllBlocksAppend(xs: seq<Page>, ys: seq<Page>)
    ensures AllBlocks(xs + ys) == AllBlocks(xs) + AllBlocks(ys)
    decreases |ys|
  {
    if ys != [] {
      assert (xs + ys)[..|xs + ys| - 1] == xs + ys[..|ys| - 1];
      AllBlocksAppend(xs, ys[..|ys| - 1]);
    } else {
      assert xs + ys == xs;
    }
  }

  lemma AllTablesAppend(xs: seq<Page>, ys: seq<Page>)
    ensures AllTables(xs + ys) == AllTables(xs) + AllTables(ys)
    decreases |ys|
  {
    if ys != [] {
      assert (xs + ys)[..|xs + ys| - 1] == xs + ys[..|ys| - 1];
      AllTablesAppend(xs, ys[..|ys| - 1]);
    } else {
      assert xs + ys == xs;
    }
  }

  lemma BlockIdsAppend(xs: seq<TextBlock>, ys: seq<TextBlock>)
    ensures BlockIds(xs + ys) == BlockIds(xs) + BlockIds(ys)
  {
  }

  lemma SerialsAppend(lo: nat, mid: nat, hi: nat)
    requires lo <= mid <= hi
    ensures Serials(lo, mid) + Serials(mid, hi) == Serials(lo, hi)
  {
  }

  /** Drawn serials never repeat. */
  lemma SerialsDistinct(lo: nat, hi: nat)
    requires lo <= hi
    ensures Distinct(Serials(lo, hi))
  {
  }

  /** Distinctness depends only on the multiset of identifiers. */
  lemma DistinctByMultiset(xs: seq<Uuid>, ys: seq<Uuid>)
    requires multiset(xs) == multiset(ys) && Distinct(ys)
    ensures Distinct(xs)
  {
    if !Distinct(xs) {
      var a, b :| 0 <= a < b < |xs| && xs[a] == xs[b];
      var x := xs[a];
      assert xs == xs[..b] + xs[b..];
      assert x in multiset(xs[..b]) by { assert xs[..b][a] == x; }
      assert x in multiset(xs[b..]) by { assert xs[b..][0] == x; }
      assert multiset(xs)[x] >= 2;
      CountAtMostOne(ys, x);
      assert false;
    }
  }

  lemma CountAtMostOne(ys: seq<Uuid>, x: Uuid)
    requires Distinct(ys)
    ensures multiset(ys)[x] <= 1
  {
    if ys != [] {
      var last := ys[|ys| - 1];
      var init := ys[..|ys| - 1];
      assert ys == init + [last];
      CountAtMostOne(init, x);
      if last == x {
        assert x !in init;
      }
    }
  }
}
