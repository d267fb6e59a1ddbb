/** `src/processing/merger.py`: the merger runs the normalizer of every tool
    whose raw output is truthy, folds the pages into a dictionary keyed by
    page index (a later page with a known index extends the earlier one's
    blocks and tables) and emits the pages in ascending index order.

    The dictionary plus the final sort is modelled as a list kept strictly
    ascending by index, and it is characterised against a reference
    definition: the output page for index `i` is the combination of all
    contributed pages with index `i`, in contribution order. */
module PageMerger {
  import opened Wrappers
  import opened PyValue
  import opened PageModel
  import opened PageNormalizer

  // ------------------------------------------------------- reference view

  /** The contributed pages with index `i`, in contribution order. */
  function Contrib(ps: seq<Page>, i: int): (cs: seq<Page>)
    ensures |cs| <= |ps|
    ensures forall k :: 0 <= k < |cs| ==> cs[k].index == i
    ensures cs == [] <==> forall k :: 0 <= k < |ps| ==> ps[k].index != i
  {
    if ps == [] then []
    else
      var n := |ps| - 1;
      assert forall k :: 0 <= k < n ==> ps[..n][k] == ps[k];
      Contrib(ps[..n], i) + (if ps[n].index == i then [ps[n]] else [])
  }

  /** Several pages with one index seen as one: the first page's index and
      text, and every page's blocks and tables, in order. */
  function Combine(cs: seq<Page>): Page
    requires cs != []
  {
    Page(cs[0].index, cs[0].text, AllBlocks(cs), AllTables(cs))
  }

  /** What the merged document holds for index `i`: nothing when no tool
      contributed a page with that index, else the combination. */
  function Expected(ps: seq<Page>, i: int): Option<Page> {
    var cs := Contrib(ps, i);
    if cs == [] then None else Some(Combine(cs))
  }

  /** The page with index `i` in `ps`, if any. */
  function Lookup(ps: seq<Page>, i: int): (r: Option<Page>)
    ensures r.None? <==> forall k :: 0 <= k < |ps| ==> ps[k].index != i
    ensures r.Some? ==> r.value in ps && r.value.index == i
  {
    if ps == [] then None
    else if ps[0].index == i then Some(ps[0])
    else
      assert forall k :: 1 <= k < |ps| ==> ps[1..][k - 1] == ps[k];
      Lookup(ps[1..], i)
  }

  /** `out` is the merged page list of the contributions `ps`: strictly
      ascending by index, and for every index exactly the expected page. */
  ghost predicate Represents(out: seq<Page>, ps: seq<Page>) {
    StrictlyAscending(out) && forall i :: Lookup(out, i) == Expected(ps, i)
  }

  // --------------------------------------------------------- merge_pages

  /** `existing.blocks.extend(p.blocks)`, `existing.tables.extend(p.tables)`:
      the page seen first keeps its index and its text. */
  function Extend(existing: Page, p: Page): (r: Page)
    ensures r.index == existing.index && r.text == existing.text
    ensures |r.blocks| == |existing.blocks| + |p.blocks| && |r.tables| == |existing.tables| + |p.tables|
    ensures r.blocks[..|existing.blocks|] == existing.blocks && r.blocks[|existing.blocks|..] == p.blocks
    ensures r.tables[..|existing.tables|] == existing.tables && r.tables[|existing.tables|..] == p.tables
  {
    Page(existing.index, existing.text, existing.blocks + p.blocks, existing.tables + p.tables)
  }

  /** The entry for `p.index` after `p` is merged into an entry `e`. */
  function Absorb(e: Option<Page>, p: Page): Page {
    match e
    case None => p
    case Some(x) => Extend(x, p)
  }

  /** One iteration of `merge_pages`, on the index-sorted view of `pages_by_index`. */
  function Insert(acc: seq<Page>, p: Page): (r: seq<Page>)
    requires StrictlyAscending(acc)
    ensures StrictlyAscending(r)
    ensures r != [] && r[0].index == (if acc == [] || p.index < acc[0].index then p.index else acc[0].index)
  {
    if acc == [] then [p]
    else if p.index < acc[0].index then
      ConsAscending(p, acc);
      [p] + acc
    else if p.index == acc[0].index then
      var r := [Extend(acc[0], p)] + acc[1..];
      assert forall k :: 1 <= k < |r| ==> r[k] == acc[k];
      r
    else
      var rest := Insert(acc[1..], p);
      assert acc[1..] != [] ==> acc[0].index < acc[1..][0].index;
      ConsAscending(acc[0], rest);
      [acc[0]] + rest
  }

  lemma ConsAscending(x: Page, rest: seq<Page>)
    requires StrictlyAscending(rest)
    requires rest != [] ==> x.index < rest[0].index
    ensures StrictlyAscending([x] + rest)
  {
    var r := [x] + rest;
    forall a, b | 0 <= a < b < |r|
      ensures r[a].index < r[b].index
    {
      if a == 0 {
        assert r[b] == rest[b - 1];
        if b > 1 {
          assert rest[0].index < rest[b - 1].index;
        }
      } else {
        assert r[a] == rest[a - 1] && r[b] == rest[b - 1];
      }
    }
  }

  /** `merge_pages(norm_pages)` applied to the entries `acc`. */
  function MergePages(acc: seq<Page>, ps: seq<Page>): (r: seq<Page>)
    requires StrictlyAscending(acc)
    ensures StrictlyAscending(r)
    decreases |ps|
  {
    if ps == [] then acc else MergePages(Insert(acc, ps[0]), ps[1..])
  }

  /** Inserting `p` touches only the entry for `p.index`. */
  lemma {:induction false} InsertLookup(acc: seq<Page>, p: Page, i: int)
    requires StrictlyAscending(acc)
    ensures Lookup(Insert(acc, p), i) == if i == p.index then Some(Absorb(Lookup(acc, i), p)) else Lookup(acc, i)
    decreases |acc|
  {
    var r := Insert(acc, p);
    if acc == [] {
      assert r == [p];
      assert r[1..] == [];
    } else if p.index < acc[0].index {
      assert r[1..] == acc;
      if i == p.index {
        assert forall k :: 0 <= k < |acc| ==> acc[k].index != i by {
          forall k | 0 < k < |acc|
            ensures acc[k].index != i
          {
            assert acc[0].index < acc[k].index;
          }
        }
      }
    } else if p.index == acc[0].index {
      assert r[1..] == acc[1..];
    } else {
      var rest := Insert(acc[1..], p);
      assert r == [acc[0]] + rest && r[1..] == rest;
      if i != acc[0].index {
        InsertLookup(acc[1..], p, i);
      }
    }
  }

  lemma CombineSingle(p: Page)
    ensures Combine([p]) == p
  {
    assert [p][..0] == [];
    assert AllBlocks([p]) == [] + p.blocks;
    assert AllTables([p]) == [] + p.tables;
  }

  /** A further contribution to an index extends the combination so far. */
  lemma CombineSnoc(cs: seq<Page>, p: Page)
    requires cs != []
    ensures Combine(cs + [p]) == Extend(Combine(cs), p)
  {
    assert (cs + [p])[..|cs|] == cs;
  }

  lemma ContribSnoc(ps: seq<Page>, p: Page, i: int)
    ensures Contrib(ps + [p], i) == Contrib(ps, i) + (if p.index == i then [p] else [])
  {
    assert (ps + [p])[..|ps|] == ps;
  }

  /** One iteration of `merge_pages` keeps the merged view in step with the
      reference view of the contributions seen so far. */
  lemma {:induction false} InsertRepresents(acc: seq<Page>, ps: seq<Page>, p: Page)
    requires Represents(acc, ps)
    ensures Represents(Insert(acc, p), ps + [p])
  {
    forall i
      ensures Lookup(Insert(acc, p), i) == Expected(ps + [p], i)
    {
      InsertLookup(acc, p, i);
      ContribSnoc(ps, p, i);
      if i == p.index {
        var cs := Contrib(ps, i);
        if cs == [] {
          assert Contrib(ps + [p], i) == [p];
          CombineSingle(p);
        } else {
          CombineSnoc(cs, p);
        }
      } else {
        assert Contrib(ps + [p], i) == Contrib(ps, i);
      }
    }
  }

  /** `merge_pages` over a whole list: the dictionary afterwards represents
      everything contributed before plus the list. */
  lemma {:induction false} MergePagesRepresents(acc: seq<Page>, done: seq<Page>, ps: seq<Page>)
    requires Represents(acc, done)
    ensures Represents(MergePages(acc, ps), done + ps)
    decreases |ps|
  {
    if ps == [] {
      AppendNothing(done);
    } else {
      InsertRepresents(acc, done, ps[0]);
      MergePagesRepresents(Insert(acc, ps[0]), done + [ps[0]], ps[1..]);
      ShiftFirst(done, ps);
    }
  }

  /** Successive `merge_pages` calls equal one call on the concatenation. */
  lemma {:induction false} MergePagesAppend(acc: seq<Page>, xs: seq<Page>, ys: seq<Page>)
    requires StrictlyAscending(acc)
    ensures MergePages(MergePages(acc, xs), ys) == MergePages(acc, xs + ys)
    decreases |xs|
  {
    if xs == [] {
      assert xs + ys == ys;
    } else {
      var a := Insert(acc, xs[0]);
      MergePagesAppend(a, xs[1..], ys);
      var zs := xs + ys;
      ConsAppend(xs, ys);
      assert MergePages(acc, zs) == MergePages(a, zs[1..]);
    }
  }

  lemma ConsAppend<T>(xs: seq<T>, ys: seq<T>)
    requires xs != []
    ensures (xs + ys)[0] == xs[0] && (xs + ys)[1..] == xs[1..] + ys
  {
  }

  lemma AppendNothing<T>(s: seq<T>)
    ensures s + [] == s
  {
  }

  lemma ShiftFirst<T>(xs: seq<T>, ys: seq<T>)
    requires ys != []
    ensures xs + [ys[0]] + ys[1..] == xs + ys
  {
    ConsSplit(ys);
  }

  lemma ConsSplit<T>(s: seq<T>)
    requires s != []
    ensures s == [s[0]] + s[1..]
  {
  }

  lemma EmptyRepresentsNothing()
    ensures Represents([], [])
  {
  }

  /** The merged pages represent the concatenated contributions. */
  lemma MergeAllRepresents(ps: seq<Page>)
    ensures Represents(MergePages([], ps), ps)
  {
    EmptyRepresentsNothing();
    MergePagesRepresents([], [], ps);
    assert [] + ps == ps;
  }

  /** The merged document has a page for exactly the indices some tool
      contributed a page for: no index is lost and no gap is filled. */
  lemma MergedIndices(out: seq<Page>, ps: seq<Page>)
    requires Represents(out, ps)
    ensures Indices(out) == Indices(ps)
  {
    forall i | i in Indices(out)
      ensures i in Indices(ps)
    {
      IndexPresent(out, ps, i);
    }
    forall i | i in Indices(ps)
      ensures i in Indices(out)
    {
      IndexPresent(out, ps, i);
    }
  }

  lemma IndexPresent(out: seq<Page>, ps: seq<Page>, i: int)
    requires Represents(out, ps)
    ensures i in Indices(out) <==> i in Indices(ps)
  {
    assert Lookup(out, i) == Expected(ps, i);
    if i in Indices(out) {
      var k :| 0 <= k < |out| && out[k].index == i;
      assert Lookup(out, i).Some?;
      var j :| 0 <= j < |ps| && ps[j].index == i;
    }
    if i in Indices(ps) {
      var k :| 0 <= k < |ps| && ps[k].index == i;
      assert Contrib(ps, i) != [];
      var j :| 0 <= j < |out| && out[j].index == i;
    }
  }

  // ------------------------------------------------- nothing lost, ids kept

  lemma AllBlocksCons(x: Page, rest: seq<Page>)
    ensures AllBlocks([x] + rest) == x.blocks + AllBlocks(rest)
    ensures AllTables([x] + rest) == x.tables + AllTables(rest)
  {
    AllBlocksAppend([x], rest);
    AllTablesAppend([x], rest);
    assert [x][..0] == [];
  }

  /** Inserting a page neither loses nor duplicates a block. */
  lemma {:induction false} InsertKeepsBlocks(acc: seq<Page>, p: Page)
    requires StrictlyAscending(acc)
    ensures multiset(AllBlocks(Insert(acc, p))) == multiset(AllBlocks(acc)) + multiset(p.blocks)
    decreases |acc|
  {
    if acc == [] || p.index < acc[0].index {
      assert Insert(acc, p) == [p] + acc;
      AllBlocksCons(p, acc);
    } else if p.index == acc[0].index {
      ConsSplit(acc);
      BlocksAt(acc[0], acc[1..], p);
    } else {
      InsertKeepsBlocks(acc[1..], p);
      ConsSplit(acc);
      InsertAbove(acc, p);
      BlocksAbove(acc[0], acc[1..], Insert(acc[1..], p), p);
    }
  }

  lemma BlocksAt(x: Page, rest: seq<Page>, p: Page)
    ensures multiset(AllBlocks([Extend(x, p)] + rest)) == multiset(AllBlocks([x] + rest)) + multiset(p.blocks)
    ensures multiset(AllTables([Extend(x, p)] + rest)) == multiset(AllTables([x] + rest)) + multiset(p.tables)
  {
    AllBlocksCons(x, rest);
    AllBlocksCons(Extend(x, p), rest);
    Rearrange(x.blocks, p.blocks, AllBlocks(rest), []);
    Rearrange(x.tables, p.tables, AllTables(rest), []);
  }

  lemma BlocksAbove(x: Page, rest: seq<Page>, r: seq<Page>, p: Page)
    requires multiset(AllBlocks(r)) == multiset(AllBlocks(rest)) + multiset(p.blocks)
    ensures multiset(AllBlocks([x] + r)) == multiset(AllBlocks([x] + rest)) + multiset(p.blocks)
  {
    AllBlocksCons(x, rest);
    AllBlocksCons(x, r);
  }

  lemma TablesAbove(x: Page, rest: seq<Page>, r: seq<Page>, p: Page)
    requires multiset(AllTables(r)) == multiset(AllTables(rest)) + multiset(p.tables)
    ensures multiset(AllTables([x] + r)) == multiset(AllTables([x] + rest)) + multiset(p.tables)
  {
    AllBlocksCons(x, rest);
    AllBlocksCons(x, r);
  }

  /** Inserting a page neither loses nor duplicates a block identifier. */
  lemma {:induction false} InsertKeepsIds(acc: seq<Page>, p: Page)
    requires StrictlyAscending(acc)
    ensures multiset(BlockIds(AllBlocks(Insert(acc, p)))) == multiset(BlockIds(AllBlocks(acc))) + multiset(BlockIds(p.blocks))
    decreases |acc|
  {
    if acc == [] || p.index < acc[0].index {
      InsertIdsBelow(acc, p);
    } else if p.index == acc[0].index {
      InsertIdsAt(acc, p);
    } else {
      InsertKeepsIds(acc[1..], p);
      ConsSplit(acc);
      InsertAbove(acc, p);
      IdsAbove(acc[0], acc[1..], Insert(acc[1..], p), BlockIds(p.blocks));
    }
  }

  lemma InsertIdsBelow(acc: seq<Page>, p: Page)
    requires StrictlyAscending(acc) && (acc == [] || p.index < acc[0].index)
    ensures multiset(BlockIds(AllBlocks(Insert(acc, p)))) == multiset(BlockIds(AllBlocks(acc))) + multiset(BlockIds(p.blocks))
  {
    assert Insert(acc, p) == [p] + acc;
    IdsCons(p, acc);
    Rearrange(BlockIds(p.blocks), BlockIds(AllBlocks(acc)), [], []);
  }

  lemma InsertIdsAt(acc: seq<Page>, p: Page)
    requires StrictlyAscending(acc) && acc != [] && p.index == acc[0].index
    ensures multiset(BlockIds(AllBlocks(Insert(acc, p)))) == multiset(BlockIds(AllBlocks(acc))) + multiset(BlockIds(p.blocks))
  {
    var x := acc[0];
    var rest := acc[1..];
    ConsSplit(acc);
    IdsCons(x, rest);
    IdsCons(Extend(x, p), rest);
    BlockIdsAppend(x.blocks, p.blocks);
    Rearrange(BlockIds(x.blocks), BlockIds(p.blocks), BlockIds(AllBlocks(rest)), []);
  }

  lemma InsertAbove(acc: seq<Page>, p: Page)
    requires StrictlyAscending(acc) && acc != [] && p.index > acc[0].index
    ensures Insert(acc, p) == [acc[0]] + Insert(acc[1..], p)
  {
  }

  lemma IdsAbove(x: Page, rest: seq<Page>, r: seq<Page>, ps: seq<Uuid>)
    requires multiset(BlockIds(AllBlocks(r))) == multiset(BlockIds(AllBlocks(rest))) + multiset(ps)
    ensures multiset(BlockIds(AllBlocks([x] + r))) == multiset(BlockIds(AllBlocks([x] + rest))) + multiset(ps)
  {
    IdsCons(x, rest);
    IdsCons(x, r);
    Rearrange(BlockIds(x.blocks), BlockIds(AllBlocks(r)), [], []);
    Rearrange(BlockIds(x.blocks), BlockIds(AllBlocks(rest)), [], []);
  }

  /** Multiset bookkeeping for the cases of `InsertKeepsIds`. */
  lemma Rearrange<T>(a: seq<T>, b: seq<T>, c: seq<T>, d: seq<T>)
    ensures multiset(a + b + c + d) == multiset(a) + multiset(b) + multiset(c) + multiset(d)
    ensures multiset((a + b) + c) == multiset(a) + multiset(b) + multiset(c)
    ensures multiset(a + (b + c)) == multiset(a) + multiset(b) + multiset(c)
    ensures multiset(a + b) == multiset(a) + multiset(b)
  {
  }

  lemma IdsCons(x: Page, rest: seq<Page>)
    ensures BlockIds(AllBlocks([x] + rest)) == BlockIds(x.blocks) + BlockIds(AllBlocks(rest))
  {
    AllBlocksCons(x, rest);
    BlockIdsAppend(x.blocks, AllBlocks(rest));
  }

  /** Inserting a page neither loses nor duplicates a table. */
  lemma {:induction false} InsertKeepsTables(acc: seq<Page>, p: Page)
    requires StrictlyAscending(acc)
    ensures multiset(AllTables(Insert(acc, p))) == multiset(AllTables(acc)) + multiset(p.tables)
    decreases |acc|
  {
    if acc == [] || p.index < acc[0].index {
      assert Insert(acc, p) == [p] + acc;
      AllBlocksCons(p, acc);
    } else if p.index == acc[0].index {
      ConsSplit(acc);
      BlocksAt(acc[0], acc[1..], p);
    } else {
      InsertKeepsTables(acc[1..], p);
      ConsSplit(acc);
      InsertAbove(acc, p);
      TablesAbove(acc[0], acc[1..], Insert(acc[1..], p), p);
    }
  }

  /** `merge_pages` neither loses nor duplicates a block. */
  lemma {:induction false} MergePagesKeepsBlocks(acc: seq<Page>, ps: seq<Page>)
    requires StrictlyAscending(acc)
    ensures multiset(AllBlocks(MergePages(acc, ps))) == multiset(AllBlocks(acc)) + multiset(AllBlocks(ps))
    decreases |ps|
  {
    if ps != [] {
      var p := ps[0];
      InsertKeepsBlocks(acc, p);
      MergePagesKeepsBlocks(Insert(acc, p), ps[1..]);
      ConsSplit(ps);
      AllBlocksCons(p, ps[1..]);
    }
  }

  /** `merge_pages` neither loses nor duplicates a block identifier. */
  lemma {:induction false} MergePagesKeepsIds(acc: seq<Page>, ps: seq<Page>)
    requires StrictlyAscending(acc)
    ensures multiset(BlockIds(AllBlocks(MergePages(acc, ps))))
      == multiset(BlockIds(AllBlocks(acc))) + multiset(BlockIds(AllBlocks(ps)))
    decreases |ps|
  {
    if ps != [] {
      var p := ps[0];
      InsertKeepsIds(acc, p);
      MergePagesKeepsIds(Insert(acc, p), ps[1..]);
      ConsSplit(ps);
      IdsCons(p, ps[1..]);
      Rearrange(BlockIds(p.blocks), BlockIds(AllBlocks(ps[1..])), [], []);
    }
  }

  /** `merge_pages` neither loses nor duplicates a table. */
  lemma {:induction false} MergePagesKeepsTables(acc: seq<Page>, ps: seq<Page>)
    requires StrictlyAscending(acc)
    ensures multiset(AllTables(MergePages(acc, ps))) == multiset(AllTables(acc)) + multiset(AllTables(ps))
    decreases |ps|
  {
    if ps != [] {
      var p := ps[0];
      InsertKeepsTables(acc, p);
      MergePagesKeepsTables(Insert(acc, p), ps[1..]);
      ConsSplit(ps);
      AllBlocksCons(p, ps[1..]);
    }
  }

  // ----------------------------------------------------------------- merge

  /** Python truthiness of a raw extraction dictionary: it holds some key. */
  predicate RawTruthy(raw: Option<RawExtraction>) {
    raw.Some? && (raw.value.tool.Present() || raw.value.pages.Present() || raw.value.others != map[])
  }

  /** Python truthiness of the Document AI payload. */
  predicate DictTruthy(d: Option<map<string, Value>>) {
    d.Some? && d.value != map[]
  }

  /** The pages each tool contributes, and the first unused id serial. */
  datatype Contributions = Contributions(mu: seq<Page>, pl: seq<Page>, da: seq<Page>, next: nat) {
    function All(): seq<Page> {
      mu + pl + da
    }
  }

  /** The normalizer calls of `merge`, in order: PyMuPDF, pdfplumber, Document
      AI, each only when its raw input is truthy. The first failure is raised. */
  function NormalizeAll(mu: Option<RawExtraction>, pl: Option<RawExtraction>, da: Option<map<string, Value>>, next: nat)
    : (r: Result<Contributions, Error>)
    ensures r.Ok? <==> (RawTruthy(mu) ==> MuValid(mu.value)) && (RawTruthy(pl) ==> PlumberValid(pl.value))
    ensures r.Ok? ==> var c := r.value;
      && c.mu == (if RawTruthy(mu) then NormalizePyMuPdf(mu.value, next).value.pages else [])
      && c.pl == (if RawTruthy(pl)
                  then NormalizePdfPlumber(pl.value, if RawTruthy(mu) then NormalizePyMuPdf(mu.value, next).value.next else next).value.pages
                  else [])
      && c.da == []
      && next <= c.next
      && BlockIds(AllBlocks(c.All())) == Serials(next, c.next)
  {
    var m := if RawTruthy(mu) then NormalizePyMuPdf(mu.value, next) else Ok(Normalized([], next));
    match m
    case Err(e) => Err(e)
    case Ok(m) =>
      var p := if RawTruthy(pl) then NormalizePdfPlumber(pl.value, m.next) else Ok(Normalized([], m.next));
      match p
      case Err(e) => Err(e)
      case Ok(p) =>
        var d := if DictTruthy(da) then NormalizeDocumentAi(da.value, p.next) else Normalized([], p.next);
        ContributedIds(m.pages, p.pages, d.pages, next, m.next, p.next);
        Ok(Contributions(m.pages, p.pages, d.pages, d.next))
  }

  lemma ContributedIds(xs: seq<Page>, ys: seq<Page>, zs: seq<Page>, a: nat, b: nat, c: nat)
    requires a <= b <= c && zs == []
    requires BlockIds(AllBlocks(xs)) == Serials(a, b) && BlockIds(AllBlocks(ys)) == Serials(b, c)
    ensures BlockIds(AllBlocks(xs + ys + zs)) == Serials(a, c)
  {
    AppendNothing(xs + ys);
    AllBlocksAppend(xs, ys);
    BlockIdsAppend(AllBlocks(xs), AllBlocks(ys));
    SerialsAppend(a, b, c);
  }

  /** The tools whose raw input was truthy, in calling order. */
  function ToolsUsed(mu: Option<RawExtraction>, pl: Option<RawExtraction>, da: Option<map<string, Value>>): (ts: seq<string>)
    ensures "pymupdf" in ts <==> RawTruthy(mu)
    ensures "pdfplumber" in ts <==> RawTruthy(pl)
    ensures "documentai" in ts <==> DictTruthy(da)
    ensures forall a, b :: 0 <= a < b < |ts| ==> ToolRank(ts[a]) < ToolRank(ts[b])
    ensures forall k :: 0 <= k < |ts| ==> ToolRank(ts[k]) < 3
  {
    (if RawTruthy(mu) then ["pymupdf"] else [])
    + (if RawTruthy(pl) then ["pdfplumber"] else [])
    + (if DictTruthy(da) then ["documentai"] else [])
  }

  /** The calling order of the tools; 3 for anything else. */
  function ToolRank(t: string): nat {
    if t == "pymupdf" then 0 else if t == "pdfplumber" then 1 else if t == "documentai" then 2 else 3
  }

  /** `base_metadata.get("source")` as the `Optional[str]` field accepts it:
      None and strings pass, any other value fails validation. */
  predicate SourceValid(base: map<string, Value>) {
    Get(base, "source").Null? || Get(base, "source").Str?
  }

  /** `SuperJSONMerger.merge`. Block ids are drawn from `next` on; the second
      component of the result is the first unused serial. */
  function Merge(docId: string, sourceUri: string, base: map<string, Value>,
                 mu: Option<RawExtraction>, pl: Option<RawExtraction>, da: Option<map<string, Value>>, next: nat)
    : (r: Result<(SuperJSON, nat), Error>)
    ensures r.Ok? <==> NormalizeAll(mu, pl, da, next).Ok? && SourceValid(base)
    ensures NormalizeAll(mu, pl, da, next).Err? ==> r == Err(NormalizeAll(mu, pl, da, next).error)
    ensures r.Ok? ==> var (doc, next') := r.value;
      && doc.version == SchemaVersion
      && doc.metadata.docId == docId && doc.metadata.sourceUri == sourceUri && doc.metadata.extra == base
      && doc.metadata.source == (if Get(base, "source").Str? then Some(Get(base, "source").s) else None)
      && doc.toolsUsed == ToolsUsed(mu, pl, da)
      && Represents(doc.pages, NormalizeAll(mu, pl, da, next).value.All())
      && multiset(AllBlocks(doc.pages)) == multiset(AllBlocks(NormalizeAll(mu, pl, da, next).value.All()))
      && multiset(AllTables(doc.pages)) == multiset(AllTables(NormalizeAll(mu, pl, da, next).value.All()))
      && next <= next'
      && multiset(BlockIds(AllBlocks(doc.pages))) == multiset(Serials(next, next'))
      && Distinct(BlockIds(AllBlocks(doc.pages)))
  {
    var c :- NormalizeAll(mu, pl, da, next);
    var source: Value := Get(base, "source");
    if !(source.Null? || source.Str?) then Err(ValidationError("source"))
    else
      var pages := MergePages(MergePages(MergePages([], c.mu), c.pl), c.da);
      MergeFacts(c, next);
      var metadata := DocumentMetadata(docId, sourceUri, if source.Str? then Some(source.s) else None, base);
      Ok((NewSuperJSON(metadata, pages).(toolsUsed := ToolsUsed(mu, pl, da)), c.next))
  }

  /** What the three `merge_pages` calls of `merge` achieve together. */
  lemma MergeFacts(c: Contributions, next: nat)
    requires next <= c.next && BlockIds(AllBlocks(c.All())) == Serials(next, c.next)
    ensures var pages := MergePages(MergePages(MergePages([], c.mu), c.pl), c.da);
      && Represents(pages, c.All())
      && multiset(AllBlocks(pages)) == multiset(AllBlocks(c.All()))
      && multiset(AllTables(pages)) == multiset(AllTables(c.All()))
      && multiset(BlockIds(AllBlocks(pages))) == multiset(Serials(next, c.next))
      && Distinct(BlockIds(AllBlocks(pages)))
  {
    var all := c.All();
    MergePagesAppend([], c.mu, c.pl);
    MergePagesAppend([], c.mu + c.pl, c.da);
    var pages := MergePages([], all);
    MergeAllRepresents(all);
    MergePagesKeepsBlocks([], all);
    MergePagesKeepsTables([], all);
    MergePagesKeepsIds([], all);
    assert AllBlocks([]) == [] && AllTables([]) == [];
    SerialsDistinct(next, c.next);
    DistinctByMultiset(BlockIds(AllBlocks(pages)), Serials(next, c.next));
  }

  /** The first contribution with a given index is the first of its group. */
  lemma {:induction false} ContribFirst(ps: seq<Page>, k: nat)
    requires k < |ps| && forall j :: 0 <= j < k ==> ps[j].index != ps[k].index
    ensures Contrib(ps, ps[k].index) != [] && Contrib(ps, ps[k].index)[0] == ps[k]
    decreases |ps|
  {
    var n := |ps| - 1;
    var i := ps[k].index;
    var init := ps[..n];
    if k < n {
      assert init[k] == ps[k];
      ContribFirst(init, k);
    } else {
      assert forall j :: 0 <= j < |init| ==> init[j].index != i;
    }
  }

  /** The page seen first for an index keeps its text in the merged
      document, even when it is empty and a later tool read text there. */
  lemma FirstTextWins(out: seq<Page>, ps: seq<Page>, k: nat)
    requires Represents(out, ps)
    requires k < |ps| && forall j :: 0 <= j < k ==> ps[j].index != ps[k].index
    ensures Lookup(out, ps[k].index).Some?
    ensures Lookup(out, ps[k].index).value.text == ps[k].text
  {
    ContribFirst(ps, k);
  }

  /** Every block contributed to an index ends up on that index's page. */
  lemma ContributedBlockKept(out: seq<Page>, ps: seq<Page>, k: nat, j: nat)
    requires Represents(out, ps)
    requires k < |ps| && j < |ps[k].blocks|
    ensures Lookup(out, ps[k].index).Some?
    ensures ps[k].blocks[j] in Lookup(out, ps[k].index).value.blocks
  {
    var i := ps[k].index;
    ContribHas(ps, k);
    BlockInAll(Contrib(ps, i), ps[k], j);
  }

  lemma {:induction false} ContribHas(ps: seq<Page>, k: nat)
    requires k < |ps|
    ensures ps[k] in Contrib(ps, ps[k].index)
    decreases |ps|
  {
    var n := |ps| - 1;
    if k < n {
      assert ps[..n][k] == ps[k];
      ContribHas(ps[..n], k);
    }
  }

  lemma {:induction false} BlockInAll(ps: seq<Page>, p: Page, j: nat)
    requires p in ps && j < |p.blocks|
    ensures p.blocks[j] in AllBlocks(ps)
    decreases |ps|
  {
    var n := |ps| - 1;
    if ps[n] != p {
      assert p in ps[..n] by {
        var k :| 0 <= k < |ps| && ps[k] == p;
        assert ps[..n][k] == p;
      }
      BlockInAll(ps[..n], p, j);
    }
  }

  /** With no truthy PyMuPDF or pdfplumber input, merging succeeds (given a
      valid `source`) and yields a document without pages. */
  lemma NothingToMerge(docId: string, sourceUri: string, base: map<string, Value>,
                       mu: Option<RawExtraction>, pl: Option<RawExtraction>, da: Option<map<string, Value>>, next: nat)
    requires !RawTruthy(mu) && !RawTruthy(pl) && SourceValid(base)
    ensures Merge(docId, sourceUri, base, mu, pl, da, next).Ok?
    ensures Merge(docId, sourceUri, base, mu, pl, da, next).value.0.pages == []
  {
    var c := NormalizeAll(mu, pl, da, next).value;
    assert c.All() == [];
    RepresentsNothing(Merge(docId, sourceUri, base, mu, pl, da, next).value.0.pages);
  }

  lemma RepresentsNothing(out: seq<Page>)
    requires Represents(out, [])
    ensures out == []
  {
    if out != [] {
      LookupHead(out);
      assert false;
    }
  }

  lemma LookupHead(out: seq<Page>)
    requires out != []
    ensures Lookup(out, out[0].index) == Some(out[0])
  {
  }
}
