/** The sliding-window chunker (`chunk_text`): every page's text is cut into
    windows of `maxChars` characters whose starts advance by
    `maxChars - overlap`; `chunk_id` counts emitted chunks across all pages of
    one call. */
module Chunking {
  import opened Text
  import opened Records

  /** Parameters for which the window loop advances. With `overlap >= maxChars`
      it never does (see `GuardStaysTrue`); a negative `maxChars` would make the
      slice end a negative, wrapping Python index. */
  predicate ValidParams(maxChars: int, overlap: int) {
    0 <= maxChars && overlap < maxChars
  }

  /** Python's `ceil(a / b)` for `a >= 0` and `b > 0`. */
  function CeilDiv(a: nat, b: nat): nat
    requires b > 0
  {
    (a + b - 1) / b
  }

  /** The text of the window starting at `start`: `text[start:start + maxChars]`. */
  function Window(text: string, start: nat, maxChars: nat): string
    requires start <= |text|
  {
    text[start..Min(start + maxChars, |text|)]
  }

  /** Where the `i`-th window starts when the first one starts at `start`
      and each later one `step` characters after the previous one. */
  function WindowStart(start: nat, i: nat, step: nat): nat {
    if i == 0 then start else WindowStart(start, i - 1, step) + step
  }

  lemma {:induction false} WindowStartIsLinear(start: nat, i: nat, step: nat)
    ensures WindowStart(start, i, step) == start + i * step
  {
    if i > 0 {
      WindowStartIsLinear(start, i - 1, step);
      assert (i - 1) * step + step == i * step;
    }
  }

  /** Counting windows from the second one is counting from one step later. */
  lemma {:induction false} WindowStartShift(start: nat, i: nat, step: nat)
    requires i > 0
    ensures WindowStart(start, i, step) == WindowStart(start + step, i - 1, step)
  {
    if i > 1 {
      WindowStartShift(start, i - 1, step);
    }
  }

  /** The chunks one page yields from offset `start` on, numbered from `nextId`;
      `PageChunkWindow` says which text each one holds. */
  function PageChunks(page: Page, start: nat, nextId: int, maxChars: int, overlap: int): (r: seq<Chunk>)
    requires ValidParams(maxChars, overlap)
    ensures start >= |page.text| <==> r == []
    ensures forall i :: 0 <= i < |r| ==> r[i].chunkId == nextId + i && r[i].pageNum == page.pageNum
    decreases |page.text| - start
  {
    if start >= |page.text| then []
    else
      var end := start + maxChars;
      [Chunk(nextId, page.pageNum, Window(page.text, start, maxChars))]
        + PageChunks(page, end - overlap, nextId + 1, maxChars, overlap)
  }

  /** The `i`-th chunk of a page is the window `text[s:s + maxChars]` whose
      start `s` lies `i` steps after `start`, and `s` is inside the text. */
  lemma {:induction false} PageChunkWindow(page: Page, start: nat, nextId: int, maxChars: int, overlap: int, i: nat)
    requires ValidParams(maxChars, overlap)
    requires i < |PageChunks(page, start, nextId, maxChars, overlap)|
    ensures WindowStart(start, i, maxChars - overlap) < |page.text|
    ensures PageChunks(page, start, nextId, maxChars, overlap)[i].text
            == Window(page.text, WindowStart(start, i, maxChars - overlap), maxChars)
    decreases i
  {
    if i > 0 {
      var step := maxChars - overlap;
      var rest := PageChunks(page, start + step, nextId + 1, maxChars, overlap);
      assert PageChunks(page, start, nextId, maxChars, overlap)[i] == rest[i - 1];
      PageChunkWindow(page, start + step, nextId + 1, maxChars, overlap, i - 1);
      WindowStartShift(start, i, step);
    }
  }

  /** A page of length `L` yields `ceil(L / (maxChars - overlap))` chunks. */
  lemma {:induction false} PageChunkCount(page: Page, start: nat, nextId: int, maxChars: int, overlap: int)
    requires ValidParams(maxChars, overlap)
    ensures start < |page.text| ==>
              |PageChunks(page, start, nextId, maxChars, overlap)| == CeilDiv(|page.text| - start, maxChars - overlap)
    decreases |page.text| - start
  {
    if start < |page.text| {
      var step := maxChars - overlap;
      PageChunkCount(page, start + step, nextId + 1, maxChars, overlap);
      CountStep(|page.text| - start, step);
    }
  }

  /** One window less when the remaining length shrinks by one step. */
  lemma CountStep(len: nat, step: nat)
    requires len > 0 && step > 0
    ensures len <= step ==> CeilDiv(len, step) == 1
    ensures len > step ==> CeilDiv(len, step) == 1 + CeilDiv(len - step, step)
  {
    if len <= step {
      DivUnique(len + step - 1, step, 1, len - 1);
    } else {
      var q := (len - step + step - 1) / step;
      var m := (len - step + step - 1) % step;
      assert len - 1 == q * step + m;
      assert len + step - 1 == (q + 1) * step + m by {
        assert (q + 1) * step == q * step + step;
      }
      DivUnique(len + step - 1, step, q + 1, m);
    }
  }

  /** Euclidean division has one quotient. */
  lemma DivUnique(n: int, b: int, q: int, m: int)
    requires b > 0 && 0 <= m < b && n == q * b + m
    ensures n / b == q
  {
    var q' := n / b;
    var m' := n % b;
    assert n == q' * b + m';
    if q' > q {
      assert (q' - q) * b == m - m';
      MulAtLeast(q' - q, b);
      assert false;
    } else if q' < q {
      assert (q - q') * b == m' - m;
      MulAtLeast(q - q', b);
      assert false;
    }
  }

  lemma MulAtLeast(k: int, b: int)
    requires k >= 1 && b > 0
    ensures k * b >= b
  {
    assert k * b == (k - 1) * b + b;
    assert (k - 1) * b >= 0;
  }

  /** The chunks of `pages`, numbered consecutively from `nextId`. */
  function ChunkPages(pages: seq<Page>, nextId: int, maxChars: int, overlap: int): (r: seq<Chunk>)
    requires ValidParams(maxChars, overlap)
    ensures forall i :: 0 <= i < |r| ==> r[i].chunkId == nextId + i
  {
    if |pages| == 0 then []
    else
      var first := PageChunks(pages[0], 0, nextId, maxChars, overlap);
      first + ChunkPages(pages[1..], nextId + |first|, maxChars, overlap)
  }

  /** `chunk_text(pages, max_chars, overlap)`. */
  function ChunkText(pages: seq<Page>, maxChars: int, overlap: int): (r: seq<Chunk>)
    requires ValidParams(maxChars, overlap)
    ensures forall i :: 0 <= i < |r| ==> r[i].chunkId == i
  {
    ChunkPages(pages, 0, maxChars, overlap)
  }
}

module ChunkingProperties {
  import opened Text
  import opened Records
  import opened Chunking

  /** Pages are processed in input order: a page's chunks follow all chunks of
      the pages before it, numbered on from where those stopped. */
  lemma {:induction false} ChunkPagesAppendPage(pages: seq<Page>, page: Page, nextId: int, maxChars: int, overlap: int)
    requires ValidParams(maxChars, overlap)
    ensures ChunkPages(pages + [page], nextId, maxChars, overlap)
            == ChunkPages(pages, nextId, maxChars, overlap)
               + PageChunks(page, 0, nextId + |ChunkPages(pages, nextId, maxChars, overlap)|, maxChars, overlap)
  {
    var all := pages + [page];
    if |pages| == 0 {
      assert all == [page] && all[1..] == [];
    } else {
      var first := PageChunks(pages[0], 0, nextId, maxChars, overlap);
      var id := nextId + |first|;
      assert all[0] == pages[0] && all[1..] == pages[1..] + [page];
      var rest := ChunkPages(all[1..], id, maxChars, overlap);
      var later := ChunkPages(pages[1..], id, maxChars, overlap);
      var tail := PageChunks(page, 0, id + |later|, maxChars, overlap);
      ChunkPagesAppendPage(pages[1..], page, id, maxChars, overlap);
      assert ChunkPages(pages, nextId, maxChars, overlap) == first + later;
      ConcatAssoc(ChunkPages(all, nextId, maxChars, overlap), first, rest, later, tail);
    }
  }

  /** Regrouping a concatenation. */
  lemma ConcatAssoc<T>(whole: seq<T>, first: seq<T>, rest: seq<T>, later: seq<T>, tail: seq<T>)
    requires whole == first + rest && rest == later + tail
    ensures whole == (first + later) + tail
  {
  }

  lemma ChunkTextAppendPage(pages: seq<Page>, page: Page, maxChars: int, overlap: int)
    requires ValidParams(maxChars, overlap)
    ensures ChunkText(pages + [page], maxChars, overlap)
            == ChunkText(pages, maxChars, overlap)
               + PageChunks(page, 0, |ChunkText(pages, maxChars, overlap)|, maxChars, overlap)
  {
    ChunkPagesAppendPage(pages, page, 0, maxChars, overlap);
  }

  /** Each chunk of one page carries that page's number and is a piece of its
      text at most `maxChars` long. */
  lemma PageChunksProvenance(page: Page, nextId: int, maxChars: int, overlap: int)
    requires ValidParams(maxChars, overlap)
    ensures forall c :: c in PageChunks(page, 0, nextId, maxChars, overlap) ==>
              |c.text| <= maxChars && c.pageNum == page.pageNum && IsInfix(c.text, page.text)
  {
    var r := PageChunks(page, 0, nextId, maxChars, overlap);
    forall c | c in r
      ensures |c.text| <= maxChars && c.pageNum == page.pageNum && IsInfix(c.text, page.text)
    {
      var i :| 0 <= i < |r| && r[i] == c;
      PageChunkWindow(page, 0, nextId, maxChars, overlap, i);
      var s := WindowStart(0, i, maxChars - overlap);
      assert StartsWith(page.text[s..], c.text);
    }
  }

  /** Every chunk of a call comes from one of its pages: it carries that page's
      number and is a contiguous piece of that page's text no longer than
      `maxChars`. */
  lemma {:induction false} ChunkPagesProvenance(pages: seq<Page>, nextId: int, maxChars: int, overlap: int)
    requires ValidParams(maxChars, overlap)
    ensures forall c :: c in ChunkPages(pages, nextId, maxChars, overlap) ==>
              |c.text| <= maxChars
              && exists p :: p in pages && c.pageNum == p.pageNum && IsInfix(c.text, p.text)
  {
    if |pages| > 0 {
      var first := PageChunks(pages[0], 0, nextId, maxChars, overlap);
      var later := ChunkPages(pages[1..], nextId + |first|, maxChars, overlap);
      assert ChunkPages(pages, nextId, maxChars, overlap) == first + later;
      PageChunksProvenance(pages[0], nextId, maxChars, overlap);
      ChunkPagesProvenance(pages[1..], nextId + |first|, maxChars, overlap);
      forall c: Chunk | c in first + later
        ensures |c.text| <= maxChars
        ensures exists p :: p in pages && c.pageNum == p.pageNum && IsInfix(c.text, p.text)
      {
        if c in first {
          assert pages[0] in pages;
        } else {
          var p :| p in pages[1..] && c.pageNum == p.pageNum && IsInfix(c.text, p.text);
          assert p in pages;
        }
      }
    }
  }

  lemma ChunkTextProvenance(pages: seq<Page>, maxChars: int, overlap: int)
    requires ValidParams(maxChars, overlap)
    ensures forall c :: c in ChunkText(pages, maxChars, overlap) ==>
              |c.text| <= maxChars
              && exists p :: p in pages && c.pageNum == p.pageNum && IsInfix(c.text, p.text)
  {
    ChunkPagesProvenance(pages, 0, maxChars, overlap);
  }

  /** Whether some chunk of `c` (windows starting at `start`, `maxChars - overlap`
      apart) holds the character at position `pos` of `text`, at the right place. */
  ghost predicate Covers(c: seq<Chunk>, text: string, start: nat, maxChars: int, overlap: int, pos: nat)
    requires overlap < maxChars
  {
    exists i :: 0 <= i < |c| &&
      var s := WindowStart(start, i, maxChars - overlap);
      s <= pos < s + |c[i].text| && pos < |text| && c[i].text[pos - s] == text[pos]
  }

  /** Coverage: with a non-negative overlap every character of the page lies
      inside at least one of its windows. */
  lemma {:induction false} PageCoverage(page: Page, start: nat, nextId: int, maxChars: int, overlap: int, pos: nat)
    requires 0 <= overlap < maxChars
    requires start <= pos < |page.text|
    ensures Covers(PageChunks(page, start, nextId, maxChars, overlap), page.text, start, maxChars, overlap, pos)
    decreases |page.text| - start
  {
    var step := maxChars - overlap;
    var r := PageChunks(page, start, nextId, maxChars, overlap);
    PageChunksStep(page, start, nextId, maxChars, overlap);
    if pos < start + step {
      var w := r[0].text;
      assert |w| == Min(start + maxChars, |page.text|) - start;
      assert w[pos - start] == page.text[pos];
      CoversAt(r, page.text, start, maxChars, overlap, pos, 0);
    } else {
      PageCoverage(page, start + step, nextId + 1, maxChars, overlap, pos);
      CoversShift(r, page.text, start, maxChars, overlap, pos);
    }
  }

  /** A position covered by the windows after the first is covered by all of
      them, the first one starting a step earlier. */
  lemma CoversShift(c: seq<Chunk>, text: string, start: nat, maxChars: int, overlap: int, pos: nat)
    requires 0 <= overlap < maxChars && |c| > 0
    requires Covers(c[1..], text, start + (maxChars - overlap), maxChars, overlap, pos)
    ensures Covers(c, text, start, maxChars, overlap, pos)
  {
    var step := maxChars - overlap;
    var rest := c[1..];
    var i :| 0 <= i < |rest| &&
      var s := WindowStart(start + step, i, step);
      s <= pos < s + |rest[i].text| && pos < |text| && rest[i].text[pos - s] == text[pos];
    assert c[i + 1] == rest[i];
    WindowStartShift(start, i + 1, step);
    CoversAt(c, text, start, maxChars, overlap, pos, i + 1);
  }

  /** One round of the window loop: the first chunk is the window at `start`,
      the others are the chunks from one step further on. */
  lemma PageChunksStep(page: Page, start: nat, nextId: int, maxChars: int, overlap: int)
    requires ValidParams(maxChars, overlap) && start < |page.text|
    ensures var r := PageChunks(page, start, nextId, maxChars, overlap);
            && |r| > 0
            && r[0].text == Window(page.text, start, maxChars)
            && r[1..] == PageChunks(page, start + maxChars - overlap, nextId + 1, maxChars, overlap)
  {
  }

  /** The chunk at index `i` is a witness for `Covers`. */
  lemma CoversAt(c: seq<Chunk>, text: string, start: nat, maxChars: int, overlap: int, pos: nat, i: nat)
    requires overlap < maxChars && i < |c|
    requires var s := WindowStart(start, i, maxChars - overlap);
             s <= pos < s + |c[i].text| && pos < |text| && c[i].text[pos - s] == text[pos]
    ensures Covers(c, text, start, maxChars, overlap, pos)
  {
  }

  lemma PageCoverageAll(page: Page, maxChars: int, overlap: int)
    requires 0 <= overlap < maxChars
    ensures forall pos :: 0 <= pos < |page.text| ==>
              Covers(PageChunks(page, 0, 0, maxChars, overlap), page.text, 0, maxChars, overlap, pos)
  {
    forall pos | 0 <= pos < |page.text|
      ensures Covers(PageChunks(page, 0, 0, maxChars, overlap), page.text, 0, maxChars, overlap, pos)
    {
      PageCoverage(page, 0, 0, maxChars, overlap, pos);
    }
  }

  /** A full-length window shares its last `overlap` characters with the next
      window's first `overlap` characters. */
  lemma {:induction false} ConsecutiveOverlap(page: Page, nextId: int, maxChars: int, overlap: int, i: nat)
    requires 0 <= overlap < maxChars
    requires i + 1 < |PageChunks(page, 0, nextId, maxChars, overlap)|
    ensures var r := PageChunks(page, 0, nextId, maxChars, overlap);
            |r[i].text| == maxChars ==>
              |r[i + 1].text| >= overlap && r[i].text[maxChars - overlap..] == r[i + 1].text[..overlap]
  {
    var step := maxChars - overlap;
    var s := WindowStart(0, i, step);
    NeighbourWindows(page, nextId, maxChars, overlap, i);
    var r := PageChunks(page, 0, nextId, maxChars, overlap);
    if |r[i].text| == maxChars {
      WindowsOverlap(page.text, s, maxChars, overlap);
    }
  }

  /** Chunks `i` and `i + 1` of a page are the windows one step apart. */
  lemma NeighbourWindows(page: Page, nextId: int, maxChars: int, overlap: int, i: nat)
    requires 0 <= overlap < maxChars
    requires i + 1 < |PageChunks(page, 0, nextId, maxChars, overlap)|
    ensures var s := WindowStart(0, i, maxChars - overlap);
            var r := PageChunks(page, 0, nextId, maxChars, overlap);
            && s + (maxChars - overlap) < |page.text|
            && r[i].text == Window(page.text, s, maxChars)
            && r[i + 1].text == Window(page.text, s + (maxChars - overlap), maxChars)
  {
    PageChunkWindow(page, 0, nextId, maxChars, overlap, i);
    PageChunkWindow(page, 0, nextId, maxChars, overlap, i + 1);
  }

  /** Two windows a step apart, the first of full length, share `overlap`
      characters. */
  lemma WindowsOverlap(text: string, s: nat, maxChars: int, overlap: int)
    requires 0 <= overlap < maxChars && s + maxChars - overlap <= |text|
    requires s <= |text| && |Window(text, s, maxChars)| == maxChars
    ensures var step := maxChars - overlap;
            var a := Window(text, s, maxChars);
            var b := Window(text, s + step, maxChars);
            |b| >= overlap && a[step..] == b[..overlap]
  {
    var step := maxChars - overlap;
    var a := Window(text, s, maxChars);
    var b := Window(text, s + step, maxChars);
    assert s + maxChars <= |text|;
    assert a == text[s..s + maxChars];
    assert a[step..] == text[s + step..s + maxChars];
    var e := Min(s + step + maxChars, |text|);
    assert b == text[s + step..e] && s + maxChars <= e;
    assert b[..overlap] == text[s + step..s + maxChars];
  }

  /** Undoes the chunking: keep the first `step` characters of every window but
      the last, then the whole last window. */
  function Reassemble(c: seq<Chunk>, step: nat): string {
    if |c| == 0 then ""
    else if |c| == 1 then c[0].text
    else c[0].text[..Min(step, |c[0].text|)] + Reassemble(c[1..], step)
  }

  /** Round trip: with `0 <= overlap < maxChars` the windows of a page, glued
      back without their overlaps, give the page text exactly. */
  lemma {:induction false} ReassembleFrom(page: Page, start: nat, nextId: int, maxChars: int, overlap: int)
    requires 0 <= overlap < maxChars
    requires start <= |page.text|
    ensures Reassemble(PageChunks(page, start, nextId, maxChars, overlap), maxChars - overlap) == page.text[start..]
    decreases |page.text| - start
  {
    var step := maxChars - overlap;
    var r := PageChunks(page, start, nextId, maxChars, overlap);
    if start < |page.text| {
      PageChunksStep(page, start, nextId, maxChars, overlap);
      WindowSplit(page.text, start, maxChars, step);
      if start + step < |page.text| {
        ReassembleFrom(page, start + step, nextId + 1, maxChars, overlap);
      }
    }
  }

  /** The window at `start` either reaches the end of the text or, cut after
      `step` characters, continues into the text from `start + step`. */
  lemma WindowSplit(text: string, start: nat, maxChars: int, step: int)
    requires 0 < step <= maxChars && start <= |text|
    ensures var w := Window(text, start, maxChars);
            && (start + step >= |text| ==> w == text[start..])
            && (start + step < |text| ==> |w| >= step && w[..step] + text[start + step..] == text[start..])
  {
    var w := Window(text, start, maxChars);
    var e := Min(start + maxChars, |text|);
    assert w == text[start..e];
    if start + step < |text| {
      assert start + step <= e && |w| == e - start;
      assert forall k :: 0 <= k < step ==> w[k] == text[start + k];
      assert w[..step] == text[start..start + step];
      assert text[start..] == text[start..start + step] + text[start + step..];
    }
  }

  lemma ReassemblePage(page: Page, maxChars: int, overlap: int)
    requires 0 <= overlap < maxChars
    ensures Reassemble(PageChunks(page, 0, 0, maxChars, overlap), maxChars - overlap) == page.text
  {
    ReassembleFrom(page, 0, 0, maxChars, overlap);
  }

  /** The loop variable `start` after `k` rounds of the window loop, for any
      parameters. */
  function LoopStart(k: nat, maxChars: int, overlap: int): int {
    if k == 0 then 0 else LoopStart(k - 1, maxChars, overlap) + (maxChars - overlap)
  }

  /** Without `overlap < maxChars` the loop never ends on non-empty text:
      `start` never grows, so the guard `start < len(text)` stays true. */
  lemma {:induction false} GuardStaysTrue(text: string, maxChars: int, overlap: int, k: nat)
    requires overlap >= maxChars && |text| > 0
    ensures LoopStart(k, maxChars, overlap) <= 0 < |text|
  {
    if k > 0 {
      GuardStaysTrue(text, maxChars, overlap, k - 1);
    }
  }

  /** With the default window of 800 and overlap of 200 a 700-character page
      still gives two chunks, a 600-character page one and a 2000-character
      page four. */
  lemma DefaultCounts(page: Page)
    ensures |page.text| == 600 ==> |PageChunks(page, 0, 0, 800, 200)| == 1
    ensures |page.text| == 700 ==> |PageChunks(page, 0, 0, 800, 200)| == 2
    ensures |page.text| == 2000 ==> |PageChunks(page, 0, 0, 800, 200)| == 4
    ensures |page.text| == 0 ==> PageChunks(page, 0, 0, 800, 200) == []
  {
    PageChunkCount(page, 0, 0, 800, 200);
  }
}
