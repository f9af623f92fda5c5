/**
 * The ingestion service's chunker (apps/ingestion-service/src/chunker.ts):
 * cuts a text into windows of `chunkSize` characters, each starting
 * `chunkSize - overlap` characters after the previous one, for as long as
 * the start lies inside the text.
 */
module Chunker {
  import opened Wrappers
  import opened Js
  import opened Arith

  const DefaultChunkSize := 1000
  const DefaultOverlap := 200

  /** Where the `i`-th window starts: `i` steps of `chunkSize - overlap` from 0. */
  function ChunkStart(i: nat, chunkSize: int, overlap: int): (start: int)
    ensures chunkSize > overlap ==> i <= start
  {
    if i == 0 then 0 else ChunkStart(i - 1, chunkSize, overlap) + (chunkSize - overlap)
  }

  /** The start of window `i` is `i * step`. */
  lemma {:induction false} ChunkStartIsProduct(i: nat, chunkSize: int, overlap: int)
    ensures ChunkStart(i, chunkSize, overlap) == i * (chunkSize - overlap)
  {
    if i > 0 {
      ChunkStartIsProduct(i - 1, chunkSize, overlap);
    }
  }

  /** With a positive step, a later window starts at least one step later. */
  lemma {:induction false} StartsIncrease(i: nat, j: nat, chunkSize: int, overlap: int)
    requires chunkSize > overlap && i < j
    ensures ChunkStart(i, chunkSize, overlap) + (chunkSize - overlap) <= ChunkStart(j, chunkSize, overlap)
  {
    if i < j - 1 {
      StartsIncrease(i, j - 1, chunkSize, overlap);
    }
  }

  /** `n` windows start below `length` and the next does not exactly when `n == ceil(length / step)`. */
  lemma CountFromStarts(length: nat, chunkSize: int, overlap: int, n: nat)
    requires chunkSize > overlap
    requires length <= ChunkStart(n, chunkSize, overlap) && (n == 0 || ChunkStart(n - 1, chunkSize, overlap) < length)
    ensures n == CeilDiv(length, chunkSize - overlap)
  {
    ChunkStartIsProduct(n, chunkSize, overlap);
    if n > 0 {
      ChunkStartIsProduct(n - 1, chunkSize, overlap);
    }
    CeilDivUnique(length, chunkSize - overlap, n);
  }

  /** The converse: the window after the last of `ceil(length / step)` starts at or past `length`. */
  lemma StartsFromCount(length: nat, chunkSize: int, overlap: int)
    requires chunkSize > overlap
    ensures var n := CeilDiv(length, chunkSize - overlap);
            && length <= ChunkStart(n, chunkSize, overlap)
            && (n == 0 <==> length == 0)
            && (n > 0 ==> ChunkStart(n - 1, chunkSize, overlap) < length)
  {
    var n := CeilDiv(length, chunkSize - overlap);
    ChunkStartIsProduct(n, chunkSize, overlap);
    if n > 0 {
      ChunkStartIsProduct(n - 1, chunkSize, overlap);
    }
  }

  /** The `i`-th window: `text.slice(start, start + chunkSize)`. */
  function ChunkAt(text: string, i: nat, chunkSize: int, overlap: int): string {
    Slice(text, ChunkStart(i, chunkSize, overlap), ChunkStart(i, chunkSize, overlap) + chunkSize)
  }

  /**
   * `chunkText(text, chunkSize, overlap)`. An empty text gives no chunks
   * whatever the sizes; otherwise the step must be positive (with
   * `chunkSize <= overlap` the loop never ends), and there is one chunk per
   * start offset `0, step, 2 * step, ...` below the text's length, i.e.
   * `ceil(length / step)` of them, the `i`-th being the `i`-th window.
   */
  method ChunkText(text: string, chunkSize: int := DefaultChunkSize, overlap: int := DefaultOverlap)
    returns (chunks: seq<string>)
    requires text == "" || chunkSize > overlap
    ensures text == "" ==> chunks == []
    ensures chunkSize > overlap ==> |chunks| == CeilDiv(|text|, chunkSize - overlap)
    ensures forall i :: 0 <= i < |chunks| ==> chunks[i] == ChunkAt(text, i, chunkSize, overlap)
  {
    chunks := [];
    var start := 0;
    while start < |text|
      invariant start == ChunkStart(|chunks|, chunkSize, overlap)
      invariant chunks == [] || ChunkStart(|chunks| - 1, chunkSize, overlap) < |text|
      invariant forall i :: 0 <= i < |chunks| ==> chunks[i] == ChunkAt(text, i, chunkSize, overlap)
      decreases |text| - start
    {
      var end := start + chunkSize;
      chunks := chunks + [Slice(text, start, end)];
      start := start + (chunkSize - overlap);
    }
    if chunkSize > overlap {
      CountFromStarts(|text|, chunkSize, overlap, |chunks|);
    }
  }

  /**
   * With a positive size and a smaller overlap, every chunk `ChunkText`
   * returns is the non-empty piece of the text from its start offset up to
   * `chunkSize` characters further or the end of the text, whichever comes
   * first; so no chunk is longer than `chunkSize`.
   */
  lemma ChunkSpan(text: string, chunkSize: int, overlap: int, i: nat)
    requires 0 < chunkSize && overlap < chunkSize
    requires i < CeilDiv(|text|, chunkSize - overlap)
    ensures var start := ChunkStart(i, chunkSize, overlap);
            && start < |text|
            && ChunkAt(text, i, chunkSize, overlap)
                 == text[start..if start + chunkSize < |text| then start + chunkSize else |text|]
            && 0 < |ChunkAt(text, i, chunkSize, overlap)| <= chunkSize
  {
    var n := CeilDiv(|text|, chunkSize - overlap);
    StartsFromCount(|text|, chunkSize, overlap);
    if i < n - 1 {
      StartsIncrease(i, n - 1, chunkSize, overlap);
    }
  }

  /** The last chunk runs to the end of the text (for an overlap that is not negative). */
  lemma LastChunkReachesEnd(text: string, chunkSize: int, overlap: int)
    requires 0 <= overlap < chunkSize && text != ""
    ensures var n := CeilDiv(|text|, chunkSize - overlap);
            && n > 0 && ChunkStart(n - 1, chunkSize, overlap) < |text|
            && ChunkAt(text, n - 1, chunkSize, overlap) == text[ChunkStart(n - 1, chunkSize, overlap)..]
  {
    StartsFromCount(|text|, chunkSize, overlap);
  }

  /** The window holding offset `j`: the `j / step`-th. */
  lemma WindowOf(j: nat, chunkSize: int, overlap: int)
    requires chunkSize > overlap
    ensures var i := j / (chunkSize - overlap);
            ChunkStart(i, chunkSize, overlap) <= j < ChunkStart(i, chunkSize, overlap) + (chunkSize - overlap)
  {
    ChunkStartIsProduct(j / (chunkSize - overlap), chunkSize, overlap);
  }

  /**
   * No character is lost (for an overlap that is not negative): the
   * character at `j` is the `j - start`-th character of some chunk `i`
   * starting at `start`.
   */
  lemma EveryCharacterCovered(text: string, chunkSize: int, overlap: int, j: nat)
    requires 0 <= overlap < chunkSize && j < |text|
    ensures exists i: nat :: i < CeilDiv(|text|, chunkSize - overlap)
              && ChunkStart(i, chunkSize, overlap) <= j < ChunkStart(i, chunkSize, overlap) + |ChunkAt(text, i, chunkSize, overlap)|
              && ChunkAt(text, i, chunkSize, overlap)[j - ChunkStart(i, chunkSize, overlap)] == text[j]
  {
    var n := CeilDiv(|text|, chunkSize - overlap);
    var i: nat := j / (chunkSize - overlap);
    WindowOf(j, chunkSize, overlap);
    StartsFromCount(|text|, chunkSize, overlap);
    if i >= n {
      if i > n {
        StartsIncrease(n, i, chunkSize, overlap);
      }
      assert false;
    }
    ChunkSpan(text, chunkSize, overlap, i);
  }

  /**
   * Consecutive chunks share `overlap` characters: when chunk `i` is a full
   * window, its last `overlap` characters are the first `overlap`
   * characters of chunk `i + 1`.
   */
  lemma ConsecutiveChunksOverlap(text: string, chunkSize: int, overlap: int, i: nat)
    requires 0 <= overlap < chunkSize
    requires ChunkStart(i, chunkSize, overlap) + chunkSize <= |text|
    ensures var a, b := ChunkAt(text, i, chunkSize, overlap), ChunkAt(text, i + 1, chunkSize, overlap);
            |a| == chunkSize && |b| >= overlap && a[chunkSize - overlap..] == b[..overlap]
  {
    var start := ChunkStart(i, chunkSize, overlap);
    var a := ChunkAt(text, i, chunkSize, overlap);
    assert a == text[start..start + chunkSize];
    assert a[chunkSize - overlap..] == text[start + (chunkSize - overlap)..start + chunkSize];
  }

  /**
   * The loop goes on while the start is inside the text, even when the
   * previous chunk already reached the end: then the last chunk is a tail
   * of the one before it and adds no text. With the default sizes this
   * happens whenever the last chunk would hold at most 200 characters.
   */
  lemma TrailingChunkInsidePrevious(text: string, chunkSize: int, overlap: int)
    requires 0 <= overlap < chunkSize
    requires CeilDiv(|text|, chunkSize - overlap) >= 2
    requires |text| - ChunkStart(CeilDiv(|text|, chunkSize - overlap) - 1, chunkSize, overlap) <= overlap
    ensures var n := CeilDiv(|text|, chunkSize - overlap);
            && |ChunkAt(text, n - 2, chunkSize, overlap)| >= chunkSize - overlap
            && ChunkAt(text, n - 1, chunkSize, overlap) == ChunkAt(text, n - 2, chunkSize, overlap)[chunkSize - overlap..]
  {
    var n := CeilDiv(|text|, chunkSize - overlap);
    StartsFromCount(|text|, chunkSize, overlap);
    var start := ChunkStart(n - 2, chunkSize, overlap);
    assert ChunkAt(text, n - 2, chunkSize, overlap) == text[start..];
  }

  /**
   * A 2500-character text with the defaults gives four chunks, starting at
   * 0, 800, 1600 and 2400, and the fourth (100 characters) is the tail of
   * the third.
   */
  lemma DefaultsOn2500Characters(text: string)
    requires |text| == 2500
    ensures CeilDiv(|text|, DefaultChunkSize - DefaultOverlap) == 4
    ensures ChunkAt(text, 0, DefaultChunkSize, DefaultOverlap) == text[0..1000]
    ensures ChunkAt(text, 1, DefaultChunkSize, DefaultOverlap) == text[800..1800]
    ensures ChunkAt(text, 2, DefaultChunkSize, DefaultOverlap) == text[1600..2500]
    ensures ChunkAt(text, 3, DefaultChunkSize, DefaultOverlap) == text[2400..2500]
    ensures ChunkAt(text, 3, DefaultChunkSize, DefaultOverlap) == ChunkAt(text, 2, DefaultChunkSize, DefaultOverlap)[800..]
  {
    assert ChunkStart(3, DefaultChunkSize, DefaultOverlap) == 2400;
    TrailingChunkInsidePrevious(text, DefaultChunkSize, DefaultOverlap);
  }

  /**
   * The chunker with the evident intent: the same windows, but the loop
   * stops once a chunk reaches the end of the text. For a text longer than
   * the overlap this gives `ceil((length - overlap) / step)` chunks, and
   * only the last chunk reaches the end, so no chunk is a tail of the one
   * before it.
   */
  method ChunkTextToEnd(text: string, chunkSize: int := DefaultChunkSize, overlap: int := DefaultOverlap)
    returns (chunks: seq<string>)
    requires 0 <= overlap < chunkSize
    ensures text == "" ==> chunks == []
    ensures |text| > overlap ==> |chunks| == CeilDiv(|text| - overlap, chunkSize - overlap)
    ensures 0 < |text| <= overlap ==> |chunks| == 1
    ensures forall i :: 0 <= i < |chunks| ==> chunks[i] == ChunkAt(text, i, chunkSize, overlap)
    ensures forall i :: 0 <= i < |chunks| - 1 ==> ChunkStart(i, chunkSize, overlap) + chunkSize < |text|
    ensures chunks != [] ==> ChunkStart(|chunks| - 1, chunkSize, overlap) + chunkSize >= |text|
  {
    chunks := [];
    var start := 0;
    while start < |text|
      invariant start == ChunkStart(|chunks|, chunkSize, overlap)
      invariant chunks != [] ==> start + overlap < |text|
      invariant forall i :: 0 <= i < |chunks| ==> chunks[i] == ChunkAt(text, i, chunkSize, overlap)
      invariant forall i :: 0 <= i < |chunks| ==> ChunkStart(i, chunkSize, overlap) + chunkSize < |text|
      decreases |text| - start
    {
      var end := start + chunkSize;
      chunks := chunks + [Slice(text, start, end)];
      if end >= |text| {
        if |text| > overlap {
          CountFromStarts(|text| - overlap, chunkSize, overlap, |chunks|);
        }
        return;
      }
      start := start + (chunkSize - overlap);
    }
  }

  /** With the defaults, a 2500-character text now gives three chunks. */
  lemma ToEndOn2500Characters()
    ensures CeilDiv(2500 - DefaultOverlap, DefaultChunkSize - DefaultOverlap) == 3
  {
  }

  /**
   * With `chunkSize <= overlap` the start never moves forward: after any
   * number of rounds it is still at or before 0, so for a non-empty text the
   * loop's guard `start < text.length` holds forever and `chunkText` never
   * returns.
   */
  lemma {:induction false} StartNeverAdvances(text: string, chunkSize: int, overlap: int, i: nat)
    requires text != "" && chunkSize <= overlap
    ensures ChunkStart(i, chunkSize, overlap) <= 0 < |text|
  {
    if i > 0 {
      StartNeverAdvances(text, chunkSize, overlap, i - 1);
    }
  }

  /**
   * The chunker with its parameters checked: sizes that would make the loop
   * run forever are refused up front, and otherwise the chunks are those of
   * `ChunkText`.
   */
  method CheckedChunkText(text: string, chunkSize: int := DefaultChunkSize, overlap: int := DefaultOverlap)
    returns (r: Result<seq<string>, string>)
    ensures r.Failure? <==> chunkSize <= overlap
    ensures r.Success? ==>
              && |r.value| == CeilDiv(|text|, chunkSize - overlap)
              && forall i :: 0 <= i < |r.value| ==> r.value[i] == ChunkAt(text, i, chunkSize, overlap)
  {
    if chunkSize <= overlap {
      return Failure("overlap must be smaller than chunkSize");
    }
    var chunks := ChunkText(text, chunkSize, overlap);
    return Success(chunks);
  }
}
