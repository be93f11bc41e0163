/** Context assembly shared by `build_context_string` and
    `build_global_context`: every record becomes a tagged line, lines are taken
    in order until the first one that would push the running total of their
    lengths over the budget, and the taken lines are joined with a blank line.
    The separators are not counted against the budget. */
module ContextAssembly {
  import opened Text
  import opened Decimal
  import opened Records

  const Separator: string := "\n\n"

  /** `text.replace("\n", " ")`. */
  function ReplaceNewlines(t: string): (r: string)
    ensures |r| == |t|
    ensures forall i :: 0 <= i < |t| ==> r[i] == (if t[i] == '\n' then ' ' else t[i])
    ensures '\n' !in r
  {
    if |t| == 0 then "" else [if t[0] == '\n' then ' ' else t[0]] + ReplaceNewlines(t[1..])
  }

  /** The provenance tag `[source - p.N] `. */
  function Tag(source: string, pageNum: int): string {
    "[" + source + " - p." + IntToString(pageNum) + "] "
  }

  /** The line a record contributes to a context. */
  function Line(rec: Record): string {
    Tag(rec.source, rec.pageNum) + ReplaceNewlines(rec.text)
  }

  function Lines(recs: seq<Record>): (r: seq<string>)
    ensures |r| == |recs|
    ensures forall i :: 0 <= i < |recs| ==> r[i] == Line(recs[i])
  {
    seq(|recs|, i requires 0 <= i < |recs| => Line(recs[i]))
  }

  /** The greedy packing rule as a property of the accepted lines: they are a
      prefix of the candidates, their lengths fit the budget, and the first
      candidate left out would have overflowed it. */
  predicate GreedyPrefix(lines: seq<string>, maxChars: int, parts: seq<string>) {
    && |parts| <= |lines|
    && parts == lines[..|parts|]
    && (|parts| == 0 || TotalLength(parts) <= maxChars)
    && (|parts| < |lines| ==> TotalLength(parts) + |lines[|parts|]| > maxChars)
  }

  /** The packing rule, once: take lines while the running total stays within
      `maxChars`, stop at the first that does not fit. */
  function Pack(lines: seq<string>, maxChars: int): (parts: seq<string>)
    ensures GreedyPrefix(lines, maxChars, parts)
  {
    if |lines| == 0 || |lines[0]| > maxChars then []
    else
      var rest := Pack(lines[1..], maxChars - |lines[0]|);
      assert ([lines[0]] + rest)[1..] == rest;
      assert lines[..1 + |rest|] == [lines[0]] + lines[1..][..|rest|];
      [lines[0]] + rest
  }

  /** There is only one greedy prefix, so `Pack` is the only rule meeting it. */
  lemma GreedyPrefixUnique(lines: seq<string>, maxChars: int, a: seq<string>, b: seq<string>)
    requires GreedyPrefix(lines, maxChars, a) && GreedyPrefix(lines, maxChars, b)
    ensures a == b
  {
    PrefixesFit(lines, maxChars, a);
    PrefixesFit(lines, maxChars, b);
    NextOverflows(lines, maxChars, a);
    NextOverflows(lines, maxChars, b);
    assert |a| == |b|;
  }

  /** Every non-empty prefix of the accepted lines fits the budget. */
  lemma PrefixesFit(lines: seq<string>, maxChars: int, parts: seq<string>)
    requires GreedyPrefix(lines, maxChars, parts)
    ensures forall k :: 0 < k <= |parts| ==> TotalLength(lines[..k]) <= maxChars
  {
    forall k | 0 < k <= |parts|
      ensures TotalLength(lines[..k]) <= maxChars
    {
      assert parts == lines[..k] + parts[k..];
      TotalLengthAppend(lines[..k], parts[k..]);
    }
  }

  /** Adding the first left-out line overflows the budget. */
  lemma NextOverflows(lines: seq<string>, maxChars: int, parts: seq<string>)
    requires GreedyPrefix(lines, maxChars, parts)
    ensures |parts| < |lines| ==> TotalLength(lines[..|parts| + 1]) > maxChars
  {
    if |parts| < |lines| {
      assert lines[..|parts| + 1] == parts + [lines[|parts|]];
      TotalLengthAppend(parts, [lines[|parts|]]);
    }
  }

  /** The loop of the source: build each record's line, stop at the first
      whose length would take the running total over `maxChars`. */
  method PackRecords(recs: seq<Record>, maxChars: int) returns (parts: seq<string>)
    ensures GreedyPrefix(Lines(recs), maxChars, parts)
    ensures parts == Pack(Lines(recs), maxChars)
  {
    ghost var lines := Lines(recs);
    parts := [];
    var total := 0;
    var i := 0;
    var full := false;
    while i < |recs| && !full
      invariant 0 <= i <= |recs|
      invariant parts == lines[..i]
      invariant total == TotalLength(parts)
      invariant i == 0 || total <= maxChars
      invariant full ==> i < |recs| && total + |lines[i]| > maxChars
      decreases |recs| - i, if full then 0 else 1
    {
      var chunkStr := Tag(recs[i].source, recs[i].pageNum) + ReplaceNewlines(recs[i].text);
      assert chunkStr == lines[i];
      if total + |chunkStr| > maxChars {
        full := true;
      } else {
        TakeLine(lines, parts, i);
        parts := parts + [chunkStr];
        total := total + |chunkStr|;
        i := i + 1;
      }
    }
    assert GreedyPrefix(lines, maxChars, parts);
    GreedyPrefixUnique(lines, maxChars, parts, Pack(lines, maxChars));
  }

  /** Accepting the next line extends the prefix and its total by that line. */
  lemma TakeLine(lines: seq<string>, parts: seq<string>, i: nat)
    requires i < |lines| && parts == lines[..i]
    ensures lines[..i + 1] == parts + [lines[i]]
    ensures TotalLength(parts + [lines[i]]) == TotalLength(parts) + |lines[i]|
  {
    TotalLengthAppend(parts, [lines[i]]);
  }

  /** The context string for records in the given order. */
  function PackContext(recs: seq<Record>, maxChars: int): string {
    Join(Pack(Lines(recs), maxChars), Separator)
  }

  /** The source's loop followed by the join. */
  method AssembleContext(recs: seq<Record>, maxChars: int) returns (context: string)
    ensures context == PackContext(recs, maxChars)
  {
    var parts := PackRecords(recs, maxChars);
    context := Join(parts, Separator);
  }

  /** The context is empty exactly when there are no records or the first
      record's line alone is over the budget. */
  lemma PackContextEmpty(recs: seq<Record>, maxChars: int)
    ensures PackContext(recs, maxChars) == "" <==> |recs| == 0 || |Line(recs[0])| > maxChars
  {
    var parts := Pack(Lines(recs), maxChars);
    if |parts| > 0 {
      assert |parts[0]| > 0 by {
        assert parts[0] == Line(recs[0]);
        assert Line(recs[0])[0] == '[';
      }
    }
  }

  /** Length bound: the accepted lines fit the budget, and only the blank-line
      separators between them come on top. */
  lemma ContextLengthBound(recs: seq<Record>, maxChars: int)
    ensures var n := |Pack(Lines(recs), maxChars)|;
            n <= |recs| && (n > 0 ==> |PackContext(recs, maxChars)| <= maxChars + 2 * (n - 1))
  {
  }

  /** Stop at the first overflow: once a line does not fit, whatever follows it
      is never looked at, however short. */
  lemma StopsAtFirstOverflow(lines: seq<string>, maxChars: int, more: seq<string>)
    requires |Pack(lines, maxChars)| < |lines|
    ensures var k := |Pack(lines, maxChars)|;
            Pack(lines[..k + 1] + more, maxChars) == Pack(lines, maxChars)
  {
    var parts := Pack(lines, maxChars);
    var k := |parts|;
    var other := lines[..k + 1] + more;
    assert other[..k] == lines[..k];
    assert other[k] == lines[k];
    GreedyPrefixUnique(other, maxChars, parts, Pack(other, maxChars));
  }

  /** A non-empty context begins with the first record's provenance tag. */
  lemma ContextStartsWithTag(recs: seq<Record>, maxChars: int)
    requires |recs| > 0 && |Line(recs[0])| <= maxChars
    ensures StartsWith(PackContext(recs, maxChars), Tag(recs[0].source, recs[0].pageNum))
  {
    var parts := Pack(Lines(recs), maxChars);
    assert parts[0] == Line(recs[0]);
    assert Line(recs[0])[..|Tag(recs[0].source, recs[0].pageNum)|] == Tag(recs[0].source, recs[0].pageNum);
  }

  /** Lines of lengths 100, 100, 5000 and 5 against a budget of 250: the first
      two are joined by a blank line, and neither the third nor the short fourth
      is taken. */
  lemma TruncationExample(a: string, b: string, c: string, d: string)
    requires |a| == 100 && |b| == 100 && |c| == 5000 && |d| == 5
    ensures Pack([a, b, c, d], 250) == [a, b]
    ensures Join(Pack([a, b, c, d], 250), Separator) == a + "\n\n" + b
  {
    var lines := [a, b, c, d];
    assert TotalLength([a, b]) == 200 by {
      assert [b][1..] == [];
      assert TotalLength([b]) == |b| + TotalLength([]);
      assert [a, b][1..] == [b];
      assert TotalLength([a, b]) == |a| + TotalLength([b]);
    }
    assert GreedyPrefix(lines, 250, [a, b]);
    GreedyPrefixUnique(lines, 250, [a, b], Pack(lines, 250));
    assert Join([a, b], Separator) == a + Separator + Join([b], Separator) by {
      assert [a, b][1..] == [b];
    }
  }

  /** The dummy answer's entry for a record: the tag, the first 300 characters
      of the text with newlines made spaces, and an ellipsis. */
  function Snippet(rec: Record): string {
    Tag(rec.source, rec.pageNum) + ReplaceNewlines(rec.text[..Min(300, |rec.text|)]) + "..."
  }

  /** A snippet is the record's context line cut after 300 text characters,
      followed by an ellipsis. */
  lemma SnippetIsCutLine(rec: Record)
    ensures var cut := |Tag(rec.source, rec.pageNum)| + Min(300, |rec.text|);
            cut <= |Line(rec)| && Snippet(rec) == Line(rec)[..cut] + "..."
  {
    var k := Min(300, |rec.text|);
    var cutText := ReplaceNewlines(rec.text[..k]);
    assert forall i :: 0 <= i < k ==> cutText[i] == ReplaceNewlines(rec.text)[i];
    assert cutText == ReplaceNewlines(rec.text)[..k];
  }
}
