/** `src/vectorstore/text_splitter.py`: one retrieval chunk per text block
    whose stripped text is not empty, pages in document order and blocks in
    page order. Chunk ids (`uuid4`) are drawn from the same kind of serial
    counter as block ids. */
module TextSplitter {
  import opened Wrappers
  import opened Text
  import opened PageModel

  datatype TextChunk = TextChunk(
    id: Uuid,
    docId: string,
    pageIndex: int,
    text: string,
    metadata: map<string, string>)

  /** A block together with the index of the page it is listed on. */
  datatype Located = Located(pageIndex: int, block: TextBlock)

  /** The blocks of one page, each tagged with the page's index. */
  function PageEntries(p: Page): (ls: seq<Located>)
    ensures |ls| == |p.blocks|
    ensures forall j :: 0 <= j < |ls| ==> ls[j] == Located(p.index, p.blocks[j])
  {
    seq(|p.blocks|, j requires 0 <= j < |p.blocks| => Located(p.index, p.blocks[j]))
  }

  /** The blocks of all pages, page after page, each tagged with its page index. */
  function Entries(ps: seq<Page>): (ls: seq<Located>)
    ensures |ls| == |AllBlocks(ps)|
    ensures forall k :: 0 <= k < |ls| ==> ls[k].block == AllBlocks(ps)[k]
    ensures forall k :: 0 <= k < |ls| ==> ls[k].pageIndex in Indices(ps)
  {
    if ps == [] then []
    else
      var n := |ps| - 1;
      var init := Entries(ps[..n]);
      var last := PageEntries(ps[n]);
      EntriesStep(ps, init, last);
      init + last
  }

  lemma EntriesStep(ps: seq<Page>, init: seq<Located>, last: seq<Located>)
    requires ps != []
    requires |init| == |AllBlocks(ps[..|ps| - 1])|
    requires forall k :: 0 <= k < |init| ==> init[k].block == AllBlocks(ps[..|ps| - 1])[k]
    requires forall k :: 0 <= k < |init| ==> init[k].pageIndex in Indices(ps[..|ps| - 1])
    requires last == PageEntries(ps[|ps| - 1])
    ensures forall k :: 0 <= k < |init + last| ==> (init + last)[k].block == AllBlocks(ps)[k]
    ensures forall k :: 0 <= k < |init + last| ==> (init + last)[k].pageIndex in Indices(ps)
  {
    var n := |ps| - 1;
    var ls := init + last;
    forall k | 0 <= k < |ls|
      ensures ls[k].block == AllBlocks(ps)[k] && ls[k].pageIndex in Indices(ps)
    {
      if k < |init| {
        assert ls[k] == init[k];
        var i :| 0 <= i < n && ps[..n][i].index == init[k].pageIndex;
        assert ps[i] == ps[..n][i];
      } else {
        assert ls[k] == last[k - |init|];
        assert ls[k].pageIndex == ps[n].index;
      }
    }
  }

  /** A block yields a chunk when its text is not blank. */
  predicate Meaningful(l: Located) {
    !IsBlank(l.block.text)
  }

  /** The entries that yield chunks, in order. */
  function Kept(ls: seq<Located>): (ks: seq<Located>)
    ensures |ks| <= |ls|
    ensures forall k :: 0 <= k < |ks| ==> Meaningful(ks[k])
  {
    if ls == [] then []
    else
      var n := |ls| - 1;
      Kept(ls[..n]) + (if Meaningful(ls[n]) then [ls[n]] else [])
  }

  /** The chunk built from entry `l` with identifier `id`. */
  function ChunkFor(docId: string, l: Located, id: Uuid): TextChunk {
    TextChunk(id, docId, l.pageIndex, Strip(l.block.text),
      map["doc_id" := docId, "page_index" := IntToString(l.pageIndex), "tool" := l.block.tool])
  }

  /** `cs` are the chunks of entries `ls`, in order, with identifiers drawn
      from serial `next` on. */
  predicate Matches(cs: seq<TextChunk>, docId: string, ls: seq<Located>, next: nat) {
    |cs| == |ls| && forall k :: 0 <= k < |cs| ==> cs[k] == ChunkFor(docId, ls[k], Uuid(next + k))
  }

  lemma KeptSnoc(ls: seq<Located>, l: Located)
    ensures Kept(ls + [l]) == Kept(ls) + (if Meaningful(l) then [l] else [])
  {
    assert (ls + [l])[..|ls|] == ls;
  }

  lemma KeptPrefix(ls: seq<Located>, j: nat)
    requires j < |ls|
    ensures Kept(ls[..j + 1]) == Kept(ls[..j]) + (if Meaningful(ls[j]) then [ls[j]] else [])
  {
    assert ls[..j + 1] == ls[..j] + [ls[j]];
    KeptSnoc(ls[..j], ls[j]);
  }

  lemma {:induction false} KeptAppend(xs: seq<Located>, ys: seq<Located>)
    ensures Kept(xs + ys) == Kept(xs) + Kept(ys)
    decreases |ys|
  {
    if ys == [] {
      assert xs + ys == xs;
    } else {
      var n := |ys| - 1;
      KeptAppend(xs, ys[..n]);
      KeptAppendStep(xs, ys[..n], ys[n]);
      assert ys[..n] + [ys[n]] == ys;
    }
  }

  lemma KeptAppendStep(xs: seq<Located>, init: seq<Located>, y: Located)
    requires Kept(xs + init) == Kept(xs) + Kept(init)
    ensures Kept(xs + (init + [y])) == Kept(xs) + Kept(init + [y])
  {
    var tail := if Meaningful(y) then [y] else [];
    assert xs + (init + [y]) == (xs + init) + [y];
    KeptSnoc(xs + init, y);
    KeptSnoc(init, y);
    Associative(Kept(xs), Kept(init), tail);
  }

  lemma Associative<T>(p: seq<T>, q: seq<T>, t: seq<T>)
    ensures (p + q) + t == p + (q + t)
  {
  }

  lemma MatchesSnoc(cs: seq<TextChunk>, docId: string, ls: seq<Located>, next: nat, l: Located)
    requires Matches(cs, docId, ls, next)
    ensures Matches(cs + [ChunkFor(docId, l, Uuid(next + |cs|))], docId, ls + [l], next)
  {
    var cs' := cs + [ChunkFor(docId, l, Uuid(next + |cs|))];
    var ls' := ls + [l];
    forall k | 0 <= k < |cs'|
      ensures cs'[k] == ChunkFor(docId, ls'[k], Uuid(next + k))
    {
      if k < |cs| {
        assert cs'[k] == cs[k] && ls'[k] == ls[k];
        assert cs[k] == ChunkFor(docId, ls[k], Uuid(next + k));
      } else {
        assert k == |cs| && ls'[k] == l;
        assert cs'[k] == ChunkFor(docId, l, Uuid(next + |cs|));
      }
    }
  }

  lemma MatchesAppend(a: seq<TextChunk>, b: seq<TextChunk>, docId: string, x: seq<Located>, y: seq<Located>, next: nat)
    requires Matches(a, docId, x, next) && Matches(b, docId, y, next + |a|)
    ensures Matches(a + b, docId, x + y, next)
  {
    forall k | 0 <= k < |a + b|
      ensures (a + b)[k] == ChunkFor(docId, (x + y)[k], Uuid(next + k))
    {
      if k >= |a| {
        assert (a + b)[k] == b[k - |a|] && (x + y)[k] == y[k - |a|];
      }
    }
  }

  /** One block of `_chunks_from_page`: a kept block adds its chunk with the
      next serial, a blank one adds nothing. */
  lemma ChunkStep(ls: seq<Located>, j: nat, cs: seq<TextChunk>, docId: string, kept: seq<Located>, next: nat, serial: nat)
    requires j < |ls| && kept == Kept(ls[..j]) && Matches(cs, docId, kept, next) && serial == next + |cs|
    ensures Strip(ls[j].block.text) != [] ==>
      Kept(ls[..j + 1]) == kept + [ls[j]] && Matches(cs + [ChunkFor(docId, ls[j], Uuid(serial))], docId, kept + [ls[j]], next)
    ensures Strip(ls[j].block.text) == [] ==> Kept(ls[..j + 1]) == kept
  {
    KeptPrefix(ls, j);
    assert Meaningful(ls[j]) <==> Strip(ls[j].block.text) != [];
    if Meaningful(ls[j]) {
      assert Uuid(serial) == Uuid(next + |cs|);
      MatchesSnoc(cs, docId, kept, next, ls[j]);
    } else {
      assert kept + [] == kept;
    }
  }

  /** `SimpleTextSplitter._chunks_from_page`: the chunks of one page. */
  method ChunksFromPage(docId: string, page: Page, next: nat) returns (chunks: seq<TextChunk>, next': nat)
    ensures Matches(chunks, docId, Kept(PageEntries(page)), next)
    ensures next' == next + |chunks|
  {
    var entries := PageEntries(page);
    chunks := [];
    next' := next;
    ghost var kept: seq<Located> := [];
    var j := 0;
    while j < |page.blocks|
      invariant 0 <= j <= |page.blocks|
      invariant kept == Kept(entries[..j])
      invariant Matches(chunks, docId, kept, next)
      invariant next' == next + |chunks|
    {
      var entry := entries[j];
      ChunkStep(entries, j, chunks, docId, kept, next, next');
      if Strip(entry.block.text) != [] {
        chunks := chunks + [ChunkFor(docId, entry, Uuid(next'))];
        kept := kept + [entry];
        next' := next' + 1;
      }
      j := j + 1;
    }
    assert entries[..j] == entries;
  }

  lemma EntriesSnoc(ps: seq<Page>, i: nat)
    requires i < |ps|
    ensures Entries(ps[..i + 1]) == Entries(ps[..i]) + PageEntries(ps[i])
  {
    assert ps[..i + 1][..i] == ps[..i];
  }

  /** `SimpleTextSplitter.split`: the chunks of every page, in page order. The
      chunks are exactly those of the non-blank blocks, in reading order, and
      the identifiers are the next fresh serials. */
  method Split(doc: SuperJSON, next: nat) returns (chunks: seq<TextChunk>, next': nat)
    ensures Matches(chunks, doc.metadata.docId, Kept(Entries(doc.pages)), next)
    ensures next' == next + |chunks|
  {
    var pages := doc.pages;
    var docId := doc.metadata.docId;
    chunks := [];
    next' := next;
    var i := 0;
    while i < |pages|
      invariant 0 <= i <= |pages|
      invariant Matches(chunks, docId, Kept(Entries(pages[..i])), next)
      invariant next' == next + |chunks|
    {
      var pageChunks, after := ChunksFromPage(docId, pages[i], next');
      EntriesSnoc(pages, i);
      KeptAppend(Entries(pages[..i]), PageEntries(pages[i]));
      MatchesAppend(chunks, pageChunks, docId, Kept(Entries(pages[..i])), Kept(PageEntries(pages[i])), next);
      chunks := chunks + pageChunks;
      next' := after;
      i := i + 1;
    }
    assert pages[..i] == pages;
  }

  // ------------------------------------------------------------ properties

  /** No two chunks share an identifier. */
  lemma ChunkIdsDistinct(cs: seq<TextChunk>, docId: string, ls: seq<Located>, next: nat, a: nat, b: nat)
    requires Matches(cs, docId, ls, next) && a < b < |cs|
    ensures cs[a].id != cs[b].id
  {
  }

  /** Every chunk text is non-empty and neither starts nor ends with whitespace,
      and the chunk carries its block's page index, tool and document id. */
  lemma ChunkShape(cs: seq<TextChunk>, docId: string, ls: seq<Located>, next: nat, k: nat)
    requires Matches(cs, docId, Kept(ls), next) && k < |cs|
    ensures cs[k].text != [] && !IsSpace(cs[k].text[0]) && !IsSpace(cs[k].text[|cs[k].text| - 1])
    ensures cs[k].metadata["doc_id"] == cs[k].docId == docId
    ensures cs[k].metadata["tool"] == Kept(ls)[k].block.tool
    ensures cs[k].pageIndex == Kept(ls)[k].pageIndex
  {
  }

  /** The `page_index` metadata string is `str` of the chunk's page index,
      and it reads back as that index. */
  lemma PageIndexMetadataRoundTrip(cs: seq<TextChunk>, docId: string, ls: seq<Located>, next: nat, k: nat)
    requires Matches(cs, docId, ls, next) && k < |cs|
    ensures "page_index" in cs[k].metadata
    ensures cs[k].metadata["page_index"] == IntToString(cs[k].pageIndex)
    ensures ParseInt(cs[k].metadata["page_index"]) == Some(cs[k].pageIndex)
  {
    IntRoundTrip(cs[k].pageIndex);
  }

  /** There are never more chunks than blocks. */
  lemma ChunkCountBound(cs: seq<TextChunk>, docId: string, ps: seq<Page>, next: nat)
    requires Matches(cs, docId, Kept(Entries(ps)), next)
    ensures |cs| <= |AllBlocks(ps)|
  {
  }

  /** A block whose text is blank contributes no chunk; every other block does. */
  lemma {:induction false} KeptExactly(ls: seq<Located>, l: Located)
    ensures l in Kept(ls) <==> l in ls && Meaningful(l)
    decreases |ls|
  {
    if ls != [] {
      var n := |ls| - 1;
      var init := ls[..n];
      KeptExactly(init, l);
      assert ls == init + [ls[n]];
      assert l in ls <==> l in init || l == ls[n];
      var tail := if Meaningful(ls[n]) then [ls[n]] else [];
      assert Kept(ls) == Kept(init) + tail;
      assert l in Kept(ls) <==> l in Kept(init) || l in tail;
    }
  }

  /** Every entry listed for a page carries that page's index. */
  lemma {:induction false} EntriesOnTheirPage(ps: seq<Page>, k: nat)
    requires k < |Entries(ps)|
    ensures exists i :: 0 <= i < |ps| && Entries(ps)[k].pageIndex == ps[i].index && Entries(ps)[k].block in ps[i].blocks
    decreases |ps|
  {
    var n := |ps| - 1;
    var init := Entries(ps[..n]);
    AllBlocksLength(ps);
    if k < |init| {
      EntriesOnTheirPage(ps[..n], k);
      var i :| 0 <= i < n && init[k].pageIndex == ps[..n][i].index && init[k].block in ps[..n][i].blocks;
      assert ps[..n][i] == ps[i];
    } else {
      var j := k - |init|;
      assert Entries(ps)[k] == PageEntries(ps[n])[j];
      assert ps[n].blocks[j] in ps[n].blocks;
    }
  }

  lemma AllBlocksLength(ps: seq<Page>)
    requires ps != []
    ensures |AllBlocks(ps)| == |AllBlocks(ps[..|ps| - 1])| + |ps[|ps| - 1].blocks|
  {
  }
}
