/** The post-processing half of `extract_with_pdfplumber`: what pdfplumber
    reads from each page (`extract_text()`, `extract_tables()`) is an input
    here; the function turns it into 1-based text spans, sparse tables and a
    page count. */
module PdfplumberExtractor {
  import opened Wrappers
  import opened PyValue
  import opened Text
  import opened SpanSchema
  import opened SpanPayload
  import opened PageSpans

  /** A table as pdfplumber returns it: rows of cells, a cell being text or None. */
  type Grid = seq<seq<Option<string>>>

  /** What pdfplumber yields for one page. */
  datatype PageContent = PageContent(text: Option<string>, tables: seq<Grid>)

  // ----------------------------------------------------------------- cells

  /** `c` is a non-None entry of `g`, at `c`'s own row and column. */
  predicate EntryOf(g: Grid, c: SpanCell) {
    0 <= c.row < |g| && 0 <= c.col < |g[c.row]| && g[c.row][c.col] == Some(c.text)
  }

  /** `x` comes strictly before `y` in row-major order. */
  predicate Before(x: SpanCell, y: SpanCell) {
    x.row < y.row || (x.row == y.row && x.col < y.col)
  }

  /** The number of non-None entries of a row. */
  function Filled(row: seq<Option<string>>): nat {
    if row == [] then 0 else Filled(row[..|row| - 1]) + (if row[|row| - 1].Some? then 1 else 0)
  }

  /** The number of non-None entries of a grid. */
  function FilledCells(g: Grid): nat {
    if g == [] then 0 else FilledCells(g[..|g| - 1]) + Filled(g[|g| - 1])
  }

  /** `c` is a non-None entry of `row`, the row at index `r`. */
  predicate InRow(row: seq<Option<string>>, r: int, c: SpanCell) {
    c.row == r && 0 <= c.col < |row| && row[c.col] == Some(c.text)
  }

  /** The cells of row `r`: its non-None entries, left to right. */
  function RowCells(row: seq<Option<string>>, r: nat): (cs: seq<SpanCell>)
    ensures |cs| == Filled(row)
    ensures forall j :: 0 <= j < |cs| ==> InRow(row, r, cs[j])
    ensures forall a, b :: 0 <= a < b < |cs| ==> cs[a].col < cs[b].col
  {
    if row == [] then []
    else
      var n := |row| - 1;
      var init := RowCells(row[..n], r);
      var last := if row[n].Some? then [SpanCell(r, n, row[n].value)] else [];
      RowCellsStep(row, r, init, last);
      init + last
  }

  lemma RowCellsStep(row: seq<Option<string>>, r: nat, init: seq<SpanCell>, last: seq<SpanCell>)
    requires row != []
    requires forall j :: 0 <= j < |init| ==> InRow(row[..|row| - 1], r, init[j])
    requires forall a, b :: 0 <= a < b < |init| ==> init[a].col < init[b].col
    requires last == if row[|row| - 1].Some? then [SpanCell(r, |row| - 1, row[|row| - 1].value)] else []
    ensures forall j :: 0 <= j < |init + last| ==> InRow(row, r, (init + last)[j])
    ensures forall a, b :: 0 <= a < b < |init + last| ==> (init + last)[a].col < (init + last)[b].col
  {
    var n := |row| - 1;
    var cs := init + last;
    forall j | 0 <= j < |cs|
      ensures InRow(row, r, cs[j])
    {
      if j < |init| {
        assert cs[j] == init[j];
        assert row[..n][init[j].col] == row[init[j].col];
      }
    }
    forall a, b | 0 <= a < b < |cs|
      ensures cs[a].col < cs[b].col
    {
      assert cs[a] == init[a];
      if b < |init| {
        assert cs[b] == init[b];
      } else {
        assert InRow(row[..n], r, init[a]);
      }
    }
  }

  /** The cells of a table: every non-None entry, with its own row and
      column, in strictly increasing row-major order. With the count this
      says that each non-None entry occurs exactly once and None entries are
      skipped. */
  function SparseCells(g: Grid): (cs: seq<SpanCell>)
    ensures |cs| == FilledCells(g)
    ensures forall j :: 0 <= j < |cs| ==> EntryOf(g, cs[j])
    ensures forall a, b :: 0 <= a < b < |cs| ==> Before(cs[a], cs[b])
  {
    if g == [] then []
    else
      var n := |g| - 1;
      var init := SparseCells(g[..n]);
      var last := RowCells(g[n], n);
      SparseCellsStep(g, init, last);
      init + last
  }

  lemma SparseCellsStep(g: Grid, init: seq<SpanCell>, last: seq<SpanCell>)
    requires g != []
    requires forall j :: 0 <= j < |init| ==> EntryOf(g[..|g| - 1], init[j])
    requires forall a, b :: 0 <= a < b < |init| ==> Before(init[a], init[b])
    requires forall j :: 0 <= j < |last| ==> InRow(g[|g| - 1], |g| - 1, last[j])
    requires forall a, b :: 0 <= a < b < |last| ==> last[a].col < last[b].col
    ensures forall j :: 0 <= j < |init + last| ==> EntryOf(g, (init + last)[j])
    ensures forall a, b :: 0 <= a < b < |init + last| ==> Before((init + last)[a], (init + last)[b])
  {
    var n := |g| - 1;
    var cs := init + last;
    forall j | 0 <= j < |cs|
      ensures EntryOf(g, cs[j])
    {
      if j < |init| {
        assert cs[j] == init[j];
        assert g[..n][init[j].row] == g[init[j].row];
      } else {
        assert cs[j] == last[j - |init|];
        assert InRow(g[n], n, last[j - |init|]);
      }
    }
    forall a, b | 0 <= a < b < |cs|
      ensures Before(cs[a], cs[b])
    {
      if b < |init| {
        assert cs[a] == init[a] && cs[b] == init[b];
      } else if a < |init| {
        assert cs[a] == init[a] && cs[b] == last[b - |init|];
        assert EntryOf(g[..n], init[a]);
        assert InRow(g[n], n, last[b - |init|]);
      } else {
        assert cs[a] == last[a - |init|] && cs[b] == last[b - |init|];
        assert InRow(g[n], n, last[a - |init|]) && InRow(g[n], n, last[b - |init|]);
      }
    }
  }

  // ---------------------------------------------------------------- tables

  /** `cells` are the sparse cells of one of the grids. */
  predicate CellsOfSomeGrid(grids: seq<Grid>, cells: seq<SpanCell>) {
    exists k :: 0 <= k < |grids| && cells == SparseCells(grids[k])
  }

  /** `t` is a table of one of the pages: its 1-based page is in range and
      its cells are the sparse cells of one of that page's grids. */
  predicate TableOfPages(pages: seq<PageContent>, t: SpanTable) {
    1 <= t.page <= |pages| && CellsOfSomeGrid(pages[t.page - 1].tables, t.cells)
  }

  /** The tables of the page at 1-based position `page`: one per grid that
      has at least one non-None entry, in grid order, each holding that
      grid's sparse cells. */
  function PageTables(grids: seq<Grid>, page: int): (ts: seq<SpanTable>)
    ensures |ts| <= |grids|
    ensures forall j :: 0 <= j < |ts| ==> ts[j].page == page && ts[j].cells != [] && ts[j].source == "pdfplumber"
    ensures forall j :: 0 <= j < |ts| ==> CellsOfSomeGrid(grids, ts[j].cells)
  {
    if grids == [] then []
    else
      var n := |grids| - 1;
      var init := PageTables(grids[..n], page);
      var cells := SparseCells(grids[n]);
      var last := if cells != [] then [SpanTable(page, cells, "pdfplumber")] else [];
      PageTablesStep(grids, init, last);
      init + last
  }

  lemma PageTablesStep(grids: seq<Grid>, init: seq<SpanTable>, last: seq<SpanTable>)
    requires grids != []
    requires forall j :: 0 <= j < |init| ==> CellsOfSomeGrid(grids[..|grids| - 1], init[j].cells)
    requires forall j :: 0 <= j < |last| ==> last[j].cells == SparseCells(grids[|grids| - 1])
    ensures forall j :: 0 <= j < |init + last| ==> CellsOfSomeGrid(grids, (init + last)[j].cells)
  {
    var n := |grids| - 1;
    var ts := init + last;
    forall j | 0 <= j < |ts|
      ensures CellsOfSomeGrid(grids, ts[j].cells)
    {
      if j < |init| {
        assert ts[j] == init[j];
        var k :| 0 <= k < n && init[j].cells == SparseCells(grids[..n][k]);
        assert grids[..n][k] == grids[k];
      } else {
        assert ts[j] == last[j - |init|];
        assert ts[j].cells == SparseCells(grids[n]);
      }
    }
  }

  /** The tables of all pages, page after page. Each is a table of its own
      page, built from one of that page's grids. */
  function Tables(pages: seq<PageContent>): (ts: seq<SpanTable>)
    ensures forall j :: 0 <= j < |ts| ==> 1 <= ts[j].page <= |pages| && ts[j].cells != [] && ts[j].source == "pdfplumber"
    ensures forall a, b :: 0 <= a < b < |ts| ==> ts[a].page <= ts[b].page
    ensures forall j :: 0 <= j < |ts| ==> TableOfPages(pages, ts[j])
  {
    if pages == [] then []
    else
      var n := |pages| - 1;
      var init := Tables(pages[..n]);
      var last := PageTables(pages[n].tables, n + 1);
      TablesStep(init, last, n);
      TablesFromPages(pages, init, last);
      init + last
  }

  lemma TablesFromPages(pages: seq<PageContent>, init: seq<SpanTable>, last: seq<SpanTable>)
    requires pages != []
    requires forall j :: 0 <= j < |init| ==> TableOfPages(pages[..|pages| - 1], init[j])
    requires forall j :: 0 <= j < |last| ==> last[j].page == |pages| && CellsOfSomeGrid(pages[|pages| - 1].tables, last[j].cells)
    ensures forall j :: 0 <= j < |init + last| ==> TableOfPages(pages, (init + last)[j])
  {
    var n := |pages| - 1;
    var ts := init + last;
    forall j | 0 <= j < |ts|
      ensures TableOfPages(pages, ts[j])
    {
      if j < |init| {
        assert ts[j] == init[j];
        assert pages[..n][init[j].page - 1] == pages[init[j].page - 1];
      } else {
        assert ts[j] == last[j - |init|];
      }
    }
  }

  lemma TablesStep(init: seq<SpanTable>, last: seq<SpanTable>, n: nat)
    requires forall j :: 0 <= j < |init| ==> 1 <= init[j].page <= n && init[j].cells != [] && init[j].source == "pdfplumber"
    requires forall a, b :: 0 <= a < b < |init| ==> init[a].page <= init[b].page
    requires forall j :: 0 <= j < |last| ==> last[j].page == n + 1 && last[j].cells != [] && last[j].source == "pdfplumber"
    ensures forall j :: 0 <= j < |init + last| ==> 1 <= (init + last)[j].page <= n + 1 && (init + last)[j].cells != [] && (init + last)[j].source == "pdfplumber"
    ensures forall a, b :: 0 <= a < b < |init + last| ==> (init + last)[a].page <= (init + last)[b].page
  {
    var ts := init + last;
    forall j | 0 <= j < |ts|
      ensures 1 <= ts[j].page <= n + 1 && ts[j].cells != [] && ts[j].source == "pdfplumber"
    {
      if j < |init| { assert ts[j] == init[j]; } else { assert ts[j] == last[j - |init|]; }
    }
    forall a, b | 0 <= a < b < |ts|
      ensures ts[a].page <= ts[b].page
    {
      if b < |init| {
        assert ts[a] == init[a] && ts[b] == init[b];
      } else if a < |init| {
        assert ts[a] == init[a] && ts[b] == last[b - |init|];
      } else {
        assert ts[a] == last[a - |init|] && ts[b] == last[b - |init|];
      }
    }
  }

  /** The positions of the grids that have a non-None entry. */
  function FilledGrids(grids: seq<Grid>): set<nat> {
    set k: nat | k < |grids| && FilledCells(grids[k]) > 0
  }

  lemma FilledGridsSnoc(grids: seq<Grid>)
    requires grids != []
    ensures FilledGrids(grids) == FilledGrids(grids[..|grids| - 1]) + (if FilledCells(grids[|grids| - 1]) > 0 then {|grids| - 1} else {})
    ensures |grids| - 1 !in FilledGrids(grids[..|grids| - 1])
  {
    var n := |grids| - 1;
    forall k: nat | k < n
      ensures grids[..n][k] == grids[k]
    {
    }
  }

  /** A grid without any non-None entry yields no table; any other grid
      yields exactly one. */
  lemma {:induction false} PageTablesCount(grids: seq<Grid>, page: int)
    ensures |PageTables(grids, page)| == |FilledGrids(grids)|
    decreases |grids|
  {
    if grids != [] {
      var n := |grids| - 1;
      PageTablesCount(grids[..n], page);
      FilledGridsSnoc(grids);
      var cells := SparseCells(grids[n]);
      assert |PageTables(grids, page)| == |PageTables(grids[..n], page)| + (if cells != [] then 1 else 0);
    }
  }

  /** The tables of a page correspond one to one, in order, to its grids
      with a non-None entry: table `j` holds the sparse cells of grid
      `f[j]`, the positions `f` strictly increase, and every such grid
      occurs among them. */
  lemma {:induction false} PageTablesFrom(grids: seq<Grid>, page: int) returns (f: seq<nat>)
    ensures |f| == |PageTables(grids, page)|
    ensures forall a, b :: 0 <= a < b < |f| ==> f[a] < f[b]
    ensures forall j :: 0 <= j < |f| ==> f[j] in FilledGrids(grids)
    ensures forall k :: k in FilledGrids(grids) ==> k in f
    ensures forall j :: 0 <= j < |f| ==> f[j] < |grids| && PageTables(grids, page)[j].cells == SparseCells(grids[f[j]])
    decreases |grids|
  {
    if grids == [] {
      f := [];
    } else {
      var n := |grids| - 1;
      var f0 := PageTablesFrom(grids[..n], page);
      var init := PageTables(grids[..n], page);
      var cells := SparseCells(grids[n]);
      var last := if cells != [] then [SpanTable(page, cells, "pdfplumber")] else [];
      assert PageTables(grids, page) == init + last;
      FilledGridsSnoc(grids);
      f := f0 + (if cells != [] then [n] else []);
      PageTablesFromStep(grids, page, f0, f, init, last);
    }
  }

  lemma PageTablesFromStep(grids: seq<Grid>, page: int, f0: seq<nat>, f: seq<nat>, init: seq<SpanTable>, last: seq<SpanTable>)
    requires grids != []
    requires init == PageTables(grids[..|grids| - 1], page)
    requires last == if SparseCells(grids[|grids| - 1]) != [] then [SpanTable(page, SparseCells(grids[|grids| - 1]), "pdfplumber")] else []
    requires f == f0 + (if SparseCells(grids[|grids| - 1]) != [] then [|grids| - 1] else [])
    requires FilledGrids(grids) == FilledGrids(grids[..|grids| - 1]) + (if FilledCells(grids[|grids| - 1]) > 0 then {|grids| - 1} else {})
    requires |f0| == |init|
    requires forall a, b :: 0 <= a < b < |f0| ==> f0[a] < f0[b]
    requires forall j :: 0 <= j < |f0| ==> f0[j] in FilledGrids(grids[..|grids| - 1])
    requires forall k :: k in FilledGrids(grids[..|grids| - 1]) ==> k in f0
    requires forall j :: 0 <= j < |f0| ==> f0[j] < |grids| - 1 && init[j].cells == SparseCells(grids[..|grids| - 1][f0[j]])
    ensures |f| == |init + last|
    ensures forall a, b :: 0 <= a < b < |f| ==> f[a] < f[b]
    ensures forall j :: 0 <= j < |f| ==> f[j] in FilledGrids(grids)
    ensures forall k :: k in FilledGrids(grids) ==> k in f
    ensures forall j :: 0 <= j < |f| ==> f[j] < |grids| && (init + last)[j].cells == SparseCells(grids[f[j]])
  {
    var n := |grids| - 1;
    var extra := if SparseCells(grids[n]) != [] then [n] else [];
    assert FilledCells(grids[n]) > 0 <==> SparseCells(grids[n]) != [];
    StepAscending(f0, extra, n);
    StepSound(grids, f0, extra, init, last);
    StepComplete(f0, extra, FilledGrids(grids[..n]), FilledGrids(grids), n);
  }

  lemma StepAscending(f0: seq<nat>, extra: seq<nat>, n: nat)
    requires forall a, b :: 0 <= a < b < |f0| ==> f0[a] < f0[b]
    requires forall j :: 0 <= j < |f0| ==> f0[j] < n
    requires extra == [] || extra == [n]
    ensures forall a, b :: 0 <= a < b < |f0 + extra| ==> (f0 + extra)[a] < (f0 + extra)[b]
  {
    var f := f0 + extra;
    forall a, b | 0 <= a < b < |f|
      ensures f[a] < f[b]
    {
      if b < |f0| { assert f[a] == f0[a] && f[b] == f0[b]; }
      else { assert f[a] == f0[a] && f[b] == n; }
    }
  }

  lemma StepSound(grids: seq<Grid>, f0: seq<nat>, extra: seq<nat>, init: seq<SpanTable>, last: seq<SpanTable>)
    requires grids != [] && |f0| == |init|
    requires FilledGrids(grids) == FilledGrids(grids[..|grids| - 1]) + (if FilledCells(grids[|grids| - 1]) > 0 then {|grids| - 1} else {})
    requires extra == (if SparseCells(grids[|grids| - 1]) != [] then [|grids| - 1] else [])
    requires FilledCells(grids[|grids| - 1]) > 0 <==> SparseCells(grids[|grids| - 1]) != []
    requires |last| == |extra| && forall j :: 0 <= j < |last| ==> last[j].cells == SparseCells(grids[|grids| - 1])
    requires forall j :: 0 <= j < |f0| ==> f0[j] in FilledGrids(grids[..|grids| - 1])
    requires forall j :: 0 <= j < |f0| ==> f0[j] < |grids| - 1 && init[j].cells == SparseCells(grids[..|grids| - 1][f0[j]])
    ensures |f0 + extra| == |init + last|
    ensures forall j :: 0 <= j < |f0 + extra| ==> (f0 + extra)[j] in FilledGrids(grids)
    ensures forall j :: 0 <= j < |f0 + extra| ==> (f0 + extra)[j] < |grids| && (init + last)[j].cells == SparseCells(grids[(f0 + extra)[j]])
  {
    var n := |grids| - 1;
    var f, ts := f0 + extra, init + last;
    forall j | 0 <= j < |f|
      ensures f[j] in FilledGrids(grids) && f[j] < |grids| && ts[j].cells == SparseCells(grids[f[j]])
    {
      if j < |f0| {
        assert f[j] == f0[j] && ts[j] == init[j];
        assert grids[..n][f0[j]] == grids[f0[j]];
      } else {
        assert f[j] == n && ts[j] == last[j - |f0|];
      }
    }
  }

  lemma StepComplete(f0: seq<nat>, extra: seq<nat>, before: set<nat>, after: set<nat>, n: nat)
    requires forall k :: k in before ==> k in f0
    requires after == before + (if extra != [] then {n} else {})
    requires extra == [] || extra == [n]
    ensures forall k :: k in after ==> k in f0 + extra
  {
    forall k | k in after
      ensures k in f0 + extra
    {
      if k in before {
        assert k in f0;
        var j :| 0 <= j < |f0| && f0[j] == k;
        assert (f0 + extra)[j] == k;
      } else {
        assert (f0 + extra)[|f0|] == n;
      }
    }
  }

  /** Every grid of every page with a non-None entry yields its table, with
      the page's 1-based number and the grid's sparse cells; `j` is its
      position among the document's tables. */
  lemma {:induction false} TablesComplete(pages: seq<PageContent>, p: nat, k: nat) returns (j: nat)
    requires p < |pages| && k < |pages[p].tables| && FilledCells(pages[p].tables[k]) > 0
    ensures j < |Tables(pages)| && Tables(pages)[j] == SpanTable(p + 1, SparseCells(pages[p].tables[k]), "pdfplumber")
    decreases |pages|
  {
    var n := |pages| - 1;
    if p < n {
      SamePage(pages, n, p);
      j := TablesComplete(pages[..n], p, k);
      TableInPrefix(pages, j, SpanTable(p + 1, SparseCells(pages[p].tables[k]), "pdfplumber"));
    } else {
      var i := PageTableOfGrid(pages[n].tables, n + 1, k);
      j := TableInLastPage(pages, i);
    }
  }

  /** A table of the first pages keeps its position when a page is added. */
  lemma TableInPrefix(pages: seq<PageContent>, j: nat, t: SpanTable)
    requires pages != [] && j < |Tables(pages[..|pages| - 1])| && Tables(pages[..|pages| - 1])[j] == t
    ensures j < |Tables(pages)| && Tables(pages)[j] == t
  {
    TablesSnoc(pages);
    IndexLeft(Tables(pages[..|pages| - 1]), PageTables(pages[|pages| - 1].tables, |pages|), j);
  }

  /** Table `i` of the last page is table `j` of the document. */
  lemma TableInLastPage(pages: seq<PageContent>, i: nat) returns (j: nat)
    requires pages != [] && i < |PageTables(pages[|pages| - 1].tables, |pages|)|
    ensures j < |Tables(pages)| && Tables(pages)[j] == PageTables(pages[|pages| - 1].tables, |pages|)[i]
  {
    TablesSnoc(pages);
    IndexRight(Tables(pages[..|pages| - 1]), PageTables(pages[|pages| - 1].tables, |pages|), i);
    j := |Tables(pages[..|pages| - 1])| + i;
  }

  lemma SamePage(pages: seq<PageContent>, n: nat, p: nat)
    requires p < n <= |pages|
    ensures pages[..n][p] == pages[p]
  {
  }

  lemma IndexLeft<T>(xs: seq<T>, ys: seq<T>, j: nat)
    requires j < |xs|
    ensures (xs + ys)[j] == xs[j]
  {
  }

  lemma IndexRight<T>(xs: seq<T>, ys: seq<T>, i: nat)
    requires i < |ys|
    ensures (xs + ys)[|xs| + i] == ys[i]
  {
  }

  /** A grid with a non-None entry yields its table on its page, at
      position `i` of the page's tables. */
  lemma PageTableOfGrid(grids: seq<Grid>, page: int, k: nat) returns (i: nat)
    requires k < |grids| && FilledCells(grids[k]) > 0
    ensures i < |PageTables(grids, page)| && PageTables(grids, page)[i] == SpanTable(page, SparseCells(grids[k]), "pdfplumber")
  {
    var ts := PageTables(grids, page);
    var f := PageTablesFrom(grids, page);
    assert k in FilledGrids(grids);
    assert k in f;
    i :| 0 <= i < |f| && f[i] == k;
    assert ts[i].page == page && ts[i].source == "pdfplumber" && ts[i].cells == SparseCells(grids[k]);
  }

  lemma TablesSnoc(pages: seq<PageContent>)
    requires pages != []
    ensures Tables(pages) == Tables(pages[..|pages| - 1]) + PageTables(pages[|pages| - 1].tables, |pages|)
  {
  }

  /** The number of grids with a non-None entry, over all pages. */
  function FilledGridCount(pages: seq<PageContent>): nat {
    if pages == [] then 0 else FilledGridCount(pages[..|pages| - 1]) + |FilledGrids(pages[|pages| - 1].tables)|
  }

  /** There are exactly as many tables as grids with a non-None entry. */
  lemma {:induction false} TablesCount(pages: seq<PageContent>)
    ensures |Tables(pages)| == FilledGridCount(pages)
    decreases |pages|
  {
    if pages != [] {
      var n := |pages| - 1;
      TablesCount(pages[..n]);
      PageTablesCount(pages[n].tables, n + 1);
      TablesSnoc(pages);
    }
  }

  // ------------------------------------------------------------ page count

  /** The page texts, `None` where `extract_text()` returned nothing. */
  function Texts(pages: seq<PageContent>): (ts: seq<Option<string>>)
    ensures |ts| == |pages|
    ensures forall k :: 0 <= k < |pages| ==> ts[k] == pages[k].text
  {
    seq(|pages|, k requires 0 <= k < |pages| => pages[k].text)
  }

  /** `extract_with_pdfplumber` after the library calls. */
  function Extract(pages: seq<PageContent>): (e: Extraction)
    ensures e.tool == "pdfplumber"
    ensures e.spans == Spans(Texts(pages), "pdfplumber") && e.tables == Tables(pages)
  {
    var spans := Spans(Texts(pages), "pdfplumber");
    Extraction(LastSpanPage(spans), "pdfplumber", spans, Tables(pages))
  }

  /** The page count is the 1-based position of the last page with text,
      or 0 when no page has text: trailing blank pages are not counted. */
  lemma PageCountIsLastTextPage(pages: seq<PageContent>)
    ensures var n := Extract(pages).numPages;
      && 0 <= n <= |pages|
      && (n == 0 <==> forall k :: 0 <= k < |pages| ==> !HasText(pages[k].text))
      && (n > 0 ==> HasText(pages[n - 1].text))
      && (forall k :: n <= k < |pages| ==> !HasText(pages[k].text))
  {
    LastSpanPageIsLastTextPage(Texts(pages), "pdfplumber");
  }

  /** `extract_with_pdfplumber`'s result dictionary. */
  function ExtractPayload(pages: seq<PageContent>): map<string, Value> {
    Payload(Extract(pages))
  }
}
