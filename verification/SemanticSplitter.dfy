/** Splitting normalized text into overlapping chunks at semantic boundaries
    (knowledge/security_rag.py). */
module SemanticSplitter {
  import opened Prelude

  type Text = seq<char>

  datatype Chunk = Chunk(text: Text, start: nat, end: nat)

  // The characters Python's strip() removes.
  predicate IsSpace(c: char) {
    || c == ' ' || '\U{0009}' <= c <= '\U{000D}' || '\U{001C}' <= c <= '\U{001F}' || c == '\U{0085}' || c == '\U{00A0}'
    || c == '\U{1680}' || '\U{2000}' <= c <= '\U{200A}' || c == '\U{2028}' || c == '\U{2029}' || c == '\U{202F}'
    || c == '\U{205F}' || c == '\U{3000}'
  }

  const FENCE: Text := "```"
  const PARAGRAPH: Text := "\n\n"
  const LINE: Text := "\n"

  // What a chunk may end at, all tried; the last match of any of them wins.
  const BOUNDARIES: seq<Text> := ["\n\n", "\n- ", "\n* ", "\n|", "\n", ". ", "\U{3002}"]

  predicate Matches(text: Text, pattern: Text, i: int, start: nat, end: nat) {
    start <= i && i + |pattern| <= end <= |text| && text[i..i + |pattern|] == pattern
  }

  /** `text.rfind(pattern, start, end)`. */
  function RFind(text: Text, pattern: Text, start: nat, end: nat): (r: int)
    requires start <= end <= |text| && pattern != []
    ensures r == -1 || (start <= r <= end - |pattern| && text[r..r + |pattern|] == pattern)
    decreases end
  {
    if end < start + |pattern| then -1
    else if text[end - |pattern|..end] == pattern then end - |pattern|
    else RFind(text, pattern, start, end - 1)
  }

  lemma {:induction false} RFindIsLast(text: Text, pattern: Text, start: nat, end: nat, i: int)
    requires start <= end <= |text| && pattern != []
    ensures RFind(text, pattern, start, end) == -1 || Matches(text, pattern, RFind(text, pattern, start, end), start, end)
    ensures Matches(text, pattern, i, start, end) ==> i <= RFind(text, pattern, start, end)
    decreases end
  {
    if start + |pattern| <= end && text[end - |pattern|..end] != pattern { RFindIsLast(text, pattern, start, end - 1, i); }
  }

  /** `text.find(pattern, start, end)`. */
  function Find(text: Text, pattern: Text, start: nat, end: nat): (r: int)
    requires end <= |text| && pattern != []
    ensures r == -1 || start <= r <= end - |pattern|
    decreases |text| - start
  {
    if end < start + |pattern| then -1
    else if text[start..start + |pattern|] == pattern then start
    else Find(text, pattern, start + 1, end)
  }

  lemma {:induction false} FindIsFirst(text: Text, pattern: Text, start: nat, end: nat, i: int)
    requires end <= |text| && pattern != []
    ensures Find(text, pattern, start, end) == -1 || Matches(text, pattern, Find(text, pattern, start, end), start, end)
    ensures Matches(text, pattern, i, start, end) ==> 0 <= Find(text, pattern, start, end) <= i
    decreases |text| - start
  {
    if start + |pattern| <= end && text[start..start + |pattern|] != pattern { FindIsFirst(text, pattern, start + 1, end, i); }
  }

  /** `text[start:end].count(pattern)`: occurrences that do not overlap, from the left. */
  function Count(text: Text, pattern: Text, start: nat, end: nat): nat
    requires end <= |text| && pattern != []
    decreases |text| - start
  {
    var i := Find(text, pattern, start, end);
    if i == -1 then 0 else 1 + Count(text, pattern, i + |pattern|, end)
  }

  lemma BoundaryIsNotEmpty(b: nat)
    requires b < |BOUNDARIES|
    ensures BOUNDARIES[b] != []
  {}

  /** The last match of any of the first `n` boundaries, or -1. */
  function LastOf(text: Text, start: nat, end: nat, n: nat): (r: int)
    requires start <= end <= |text| && n <= |BOUNDARIES|
    ensures r == -1 || start <= r < end
  {
    if n == 0 then -1 else
    BoundaryIsNotEmpty(n - 1);
    Max(LastOf(text, start, end, n - 1), RFind(text, BOUNDARIES[n - 1], start, end))
  }

  function SplitPoint(text: Text, start: nat, end: nat): (r: int)
    requires start <= end <= |text|
    ensures r == -1 || start <= r < end
  {
    LastOf(text, start, end, |BOUNDARIES|)
  }

  /** A split point is a boundary, and no boundary in the range comes after it. */
  lemma {:induction false} LastOfIsLastBoundary(text: Text, start: nat, end: nat, n: nat, b: nat, i: int)
    requires start <= end <= |text| && b < n <= |BOUNDARIES|
    ensures LastOf(text, start, end, n) == -1
      || exists c :: 0 <= c < n && Matches(text, BOUNDARIES[c], LastOf(text, start, end, n), start, end)
    ensures Matches(text, BOUNDARIES[b], i, start, end) ==> i <= LastOf(text, start, end, n)
  {
    BoundaryIsNotEmpty(n - 1);
    RFindIsLast(text, BOUNDARIES[n - 1], start, end, i);
    if 1 < n { LastOfIsLastBoundary(text, start, end, n - 1, if b < n - 1 then b else 0, i); }
  }

  function OverlapStart(text: Text, end: nat, overlap: int): (r: nat)
    requires end <= |text|
    ensures r <= end && (overlap > 0 && end > 0 ==> r < end) && end - Max(0, overlap) <= r
  {
    if overlap <= 0 then end else
    var raw := Max(0, end - overlap);
    var paragraph := Find(text, PARAGRAPH, raw, end);
    if paragraph != -1 && paragraph + 2 < end then paragraph + 2 else
    var line := Find(text, LINE, raw, end);
    if line != -1 && line + 1 < end then line + 1 else raw
  }

  /** Moves the end of a chunk that would cut a code block: back to the fence if that is past
      the middle, else behind the closing fence if that is near. */
  function AvoidOpenFence(text: Text, start: nat, end: nat): (r: nat)
    requires start <= end <= |text|
    ensures start <= r <= |text| && r - start <= 5 * (end - start) / 4
    ensures end <= r || (start + (end - start) / 2 < r && r + 3 <= end && text[r..r + 3] == FENCE)
  {
    if Count(text, FENCE, start, end) % 2 == 0 then end else
    var open := RFind(text, FENCE, start, end);
    if open - start > (end - start) / 2 then open else
    var close := Find(text, FENCE, end, |text|);
    if close != -1 && close + 3 - start <= 5 * (end - start) / 4 then close + 3 else end
  }

  /** The end moved back behind the last boundary, if that is past the middle. */
  function BoundaryEnd(text: Text, start: nat, end: nat, chunkChars: nat): (r: nat)
    requires start <= end <= |text|
    ensures start <= r <= end && (r == end || start + chunkChars / 2 + 2 <= r)
  {
    var split := SplitPoint(text, start, end);
    if split > start + chunkChars / 2 then split + 1 else end
  }

  /** Where the chunk that begins at `start` ends. */
  function ChunkEnd(text: Text, start: nat, chunkChars: nat): (r: nat)
    requires start <= |text|
    ensures start <= r <= |text| && r - start <= 5 * chunkChars / 4
  {
    var end := Min(|text|, start + chunkChars);
    if end == |text| then end else
    var boundary := BoundaryEnd(text, start, end, chunkChars);
    if boundary < |text| then AvoidOpenFence(text, start, boundary) else boundary
  }

  /** The least a chunk can advance before the end of the text. */
  function LeastAdvance(chunkChars: nat): nat {
    if chunkChars <= 2 then chunkChars
    else if chunkChars <= 6 then chunkChars / 2 + 2
    else if chunkChars == 7 then 4
    else if chunkChars <= 11 then 5
    else (chunkChars / 2 + 2) / 2 + 1
  }

  /** A boundary does not begin like a fence, so a fence before one is three characters further back. */
  lemma {:induction false} BoundaryIsNoFence(text: Text, start: nat, end: nat, chunkChars: nat)
    requires start <= end <= |text|
    ensures var r := BoundaryEnd(text, start, end, chunkChars); r < end ==> text[r - 1] != '`'
  {
    var split := SplitPoint(text, start, end);
    if split != -1 {
      LastOfIsLastBoundary(text, start, end, |BOUNDARIES|, 0, 0);
      var c :| 0 <= c < |BOUNDARIES| && Matches(text, BOUNDARIES[c], split, start, end);
      assert text[split] == BOUNDARIES[c][0];
    }
  }

  lemma FenceChars(text: Text, at: nat)
    requires at + 3 <= |text| && text[at..at + 3] == FENCE
    ensures text[at + 2] == '`'
  {
    assert text[at + 2] == text[at..at + 3][2];
    assert FENCE[2] == '`';
  }

  /** A fence moves the end back to past the middle, leaving room for itself and what follows it. */
  lemma {:induction false} FenceLeavesRoom(text: Text, start: nat, end: nat)
    requires start <= end <= |text|
    ensures var r := AvoidOpenFence(text, start, end);
      r < end ==> (end - start) / 2 < r - start && r + 3 <= end && (text[end - 1] != '`' ==> r + 4 <= end)
  {
    var r := AvoidOpenFence(text, start, end);
    if r < end { FenceChars(text, r); }
  }

  lemma LeastIsLeast(chunkChars: nat, window: nat, advance: nat)
    requires window == chunkChars || chunkChars / 2 + 2 <= window <= chunkChars
    requires window <= advance || (window / 2 < advance && advance + 3 <= window && (window < chunkChars ==> advance + 4 <= window))
    ensures LeastAdvance(chunkChars) <= advance
  {}

  /** No chunk but the last is shorter than the least advance. */
  lemma {:induction false} ChunkAdvances(text: Text, start: nat, chunkChars: nat)
    requires start <= |text|
    ensures var r := ChunkEnd(text, start, chunkChars); r < |text| ==> r - start >= LeastAdvance(chunkChars)
  {
    var end := Min(|text|, start + chunkChars);
    var boundary := BoundaryEnd(text, start, end, chunkChars);
    var r := ChunkEnd(text, start, chunkChars);
    if r < |text| {
      BoundaryIsNoFence(text, start, end, chunkChars);
      FenceLeavesRoom(text, start, boundary);
      LeastIsLeast(chunkChars, boundary - start, r - start);
    }
  }

  // ----- stripping -----

  function LeadingSpace(text: Text): (n: nat)
    ensures n <= |text| && (forall i :: 0 <= i < n ==> IsSpace(text[i])) && (n < |text| ==> !IsSpace(text[n]))
  {
    if text == [] || !IsSpace(text[0]) then 0 else 1 + LeadingSpace(text[1..])
  }

  function TrailingSpace(text: Text): (n: nat)
    ensures n <= |text| && (forall i :: |text| - n <= i < |text| ==> IsSpace(text[i]))
    ensures n < |text| ==> !IsSpace(text[|text| - n - 1])
  {
    if text == [] || !IsSpace(text[|text| - 1]) then 0 else 1 + TrailingSpace(text[..|text| - 1])
  }

  /** `text.strip()`. */
  function Strip(text: Text): Text {
    var n, m := LeadingSpace(text), TrailingSpace(text);
    if n == |text| then [] else text[n..|text| - m]
  }

  /** Nothing is left exactly of blanks. */
  lemma StripIsEmptyIff(text: Text)
    ensures Strip(text) == [] <==> forall i :: 0 <= i < |text| ==> IsSpace(text[i])
  {
    if LeadingSpace(text) < |text| { assert !IsSpace(text[LeadingSpace(text)]); }
  }

  /** Stripping keeps every other character where it was, counted from the leading space. */
  lemma {:induction false} StripKeeps(text: Text, i: nat)
    requires i < |text| && !IsSpace(text[i])
    ensures 0 <= i - LeadingSpace(text) < |Strip(text)| && Strip(text)[i - LeadingSpace(text)] == text[i]
  {}

  // ----- the loop -----

  datatype Span = Span(start: nat, end: nat)

  /** Where the chunk that begins at a position ends, and where the one after it begins. */
  function EndRule(text: Text, chunkChars: nat): nat -> nat {
    (s: nat) => if s < |text| then ChunkEnd(text, s, chunkChars) else s
  }

  function StartRule(text: Text, overlap: int): nat -> nat {
    (e: nat) => if e < |text| then OverlapStart(text, e, overlap) else e
  }

  predicate Continues(length: nat, starts: nat -> nat, spans: seq<Span>, next: Span) {
    if spans == [] then next.start == 0 else spans[|spans| - 1].end < length && next.start == starts(spans[|spans| - 1].end)
  }

  /** The intervals the loop walks through: each ends where the rule says, the next begins at
      the overlap. */
  predicate Walk(length: nat, ends: nat -> nat, starts: nat -> nat, spans: seq<Span>) {
    spans != [] ==>
      var n := |spans| - 1;
      && spans[n].start < length && spans[n].end == ends(spans[n].start)
      && Walk(length, ends, starts, spans[..n]) && Continues(length, starts, spans[..n], spans[n])
  }

  /** A rule that goes on and not further than `most`, and one that never leaves a gap. */
  ghost predicate RulesOk(length: nat, ends: nat -> nat, starts: nat -> nat, most: nat) {
    && (forall s: nat :: s < length ==> s <= ends(s) <= length && ends(s) - s <= most)
    && (forall e: nat :: starts(e) <= e)
  }

  lemma TheRulesAreOk(text: Text, chunkChars: nat, overlap: int)
    ensures RulesOk(|text|, EndRule(text, chunkChars), StartRule(text, overlap), 5 * chunkChars / 4)
  {
    var ends, starts := EndRule(text, chunkChars), StartRule(text, overlap);
    forall s: nat | s < |text| ensures s <= ends(s) <= |text| && ends(s) - s <= 5 * chunkChars / 4 {
      assert ends(s) == ChunkEnd(text, s, chunkChars);
    }
    forall e: nat ensures starts(e) <= e {
      assert starts(e) == if e < |text| then OverlapStart(text, e, overlap) else e;
    }
  }

  function Body(text: Text, span: Span): Text
    requires span.start <= span.end <= |text|
  {
    Strip(text[span.start..span.end])
  }

  function Piece(text: Text, span: Span): seq<Chunk>
    requires span.start <= span.end <= |text|
  {
    if Body(text, span) == [] then [] else [Chunk(Body(text, span), span.start, span.end)]
  }

  /** What is emitted for the first `n` intervals: the non-blank ones, stripped, in order. */
  function Emitted(text: Text, spans: seq<Span>, n: nat): seq<Chunk>
    requires n <= |spans| && forall k :: 0 <= k < n ==> spans[k].start <= spans[k].end <= |text|
  {
    if n == 0 then [] else Emitted(text, spans, n - 1) + Piece(text, spans[n - 1])
  }

  lemma {:induction false} EmittedHas(text: Text, spans: seq<Span>, n: nat, k: nat, chunk: Chunk)
    requires n <= |spans| && forall j :: 0 <= j < n ==> spans[j].start <= spans[j].end <= |text|
    requires k < n && chunk in Piece(text, spans[k])
    ensures chunk in Emitted(text, spans, n)
  {
    var before, piece := Emitted(text, spans, n - 1), Piece(text, spans[n - 1]);
    assert Emitted(text, spans, n) == before + piece;
    if k < n - 1 { EmittedHas(text, spans, n - 1, k, chunk); }
  }

  lemma {:induction false} EmittedSame(text: Text, spans: seq<Span>, more: seq<Span>, n: nat)
    requires n <= |spans| && forall j :: 0 <= j < n ==> spans[j].start <= spans[j].end <= |text|
    ensures Emitted(text, spans, n) == Emitted(text, spans + more, n)
  {
    if n > 0 { EmittedSame(text, spans, more, n - 1); }
  }

  /** The loop makes progress on every text when the overlap is below the least advance. */
  lemma {:induction false} Advances(text: Text, chunkChars: nat, overlap: int, start: nat)
    requires start < |text| && overlap < LeastAdvance(chunkChars) && chunkChars > 0
    ensures start < ChunkEnd(text, start, chunkChars)
    ensures ChunkEnd(text, start, chunkChars) < |text| ==> start < OverlapStart(text, ChunkEnd(text, start, chunkChars), overlap)
  {
    ChunkAdvances(text, start, chunkChars);
  }

  lemma {:induction false} WalkIsInside(length: nat, ends: nat -> nat, starts: nat -> nat, most: nat, spans: seq<Span>)
    requires RulesOk(length, ends, starts, most) && Walk(length, ends, starts, spans)
    ensures forall k :: 0 <= k < |spans| ==> spans[k].start <= spans[k].end <= length && spans[k].end - spans[k].start <= most
  {
    if spans != [] { WalkIsInside(length, ends, starts, most, spans[..|spans| - 1]); }
  }

  /** A position before the end of a walk lies in one of its intervals. */
  lemma {:induction false} WalkCovers(length: nat, ends: nat -> nat, starts: nat -> nat, most: nat, spans: seq<Span>, i: nat)
    requires RulesOk(length, ends, starts, most) && Walk(length, ends, starts, spans)
    requires spans != [] && i < spans[|spans| - 1].end
    ensures exists k :: 0 <= k < |spans| && spans[k].start <= i < spans[k].end
  {
    var n := |spans| - 1;
    if i < spans[n].start {
      WalkCovers(length, ends, starts, most, spans[..n], i);
      var k :| 0 <= k < n && spans[..n][k].start <= i < spans[..n][k].end;
      assert spans[k].start <= i < spans[k].end;
    } else {
      assert spans[n].start <= i < spans[n].end;
    }
  }

  /** The chunk holds the character at position `i` of the text. */
  predicate Holds(text: Text, c: Chunk, i: nat) {
    c.start <= i < c.end <= |text| &&
    var j := i - c.start - LeadingSpace(text[c.start..c.end]);
    0 <= j < |c.text| && c.text[j] == text[i]
  }

  lemma BodyHolds(text: Text, span: Span, i: nat)
    requires span.start <= i < span.end <= |text| && !IsSpace(text[i])
    ensures Body(text, span) != [] && Holds(text, Chunk(Body(text, span), span.start, span.end), i)
  {
    StripKeeps(text[span.start..span.end], i - span.start);
  }

  /** The chunks are what the walk of this text emits. */
  ghost predicate Splits(text: Text, chunkChars: nat, overlap: int, spans: seq<Span>, chunks: seq<Chunk>) {
    && Walk(|text|, EndRule(text, chunkChars), StartRule(text, overlap), spans)
    && (forall k :: 0 <= k < |spans| ==> spans[k].start <= spans[k].end <= |text|)
    && chunks == Emitted(text, spans, |spans|)
  }

  lemma {:induction false} WalkOn(length: nat, ends: nat -> nat, starts: nat -> nat, spans: seq<Span>, span: Span)
    requires Walk(length, ends, starts, spans) && Continues(length, starts, spans, span)
    requires span.start < length && span.end == ends(span.start)
    ensures Walk(length, ends, starts, spans + [span])
  {
    assert (spans + [span])[..|spans|] == spans;
  }

  lemma {:induction false} SplitOn(text: Text, chunkChars: nat, overlap: int, spans: seq<Span>, chunks: seq<Chunk>, span: Span)
    requires Splits(text, chunkChars, overlap, spans, chunks) && Continues(|text|, StartRule(text, overlap), spans, span)
    requires span.start <= span.end <= |text| && span.start < |text| && span.end == EndRule(text, chunkChars)(span.start)
    ensures Splits(text, chunkChars, overlap, spans + [span],
      chunks + Piece(text, span))
  {
    WalkOn(|text|, EndRule(text, chunkChars), StartRule(text, overlap), spans, span);
    EmittedSame(text, spans, [span], |spans|);
  }

  /** A finished split loses no character but blanks: each is in an emitted chunk, and no chunk
      comes from more than five quarters of the chunk size. */
  lemma {:induction false} NothingIsLost(text: Text, chunkChars: nat, overlap: int, spans: seq<Span>, chunks: seq<Chunk>, i: nat)
    requires Done(text, chunkChars, overlap, spans, chunks)
    requires i < |text| && !IsSpace(text[i])
    ensures exists c :: c in chunks && c.end - c.start <= 5 * chunkChars / 4 && Holds(text, c, i)
  {
    var ends, starts := EndRule(text, chunkChars), StartRule(text, overlap);
    TheRulesAreOk(text, chunkChars, overlap);
    WalkIsInside(|text|, ends, starts, 5 * chunkChars / 4, spans);
    WalkCovers(|text|, ends, starts, 5 * chunkChars / 4, spans, i);
    var k :| 0 <= k < |spans| && spans[k].start <= i < spans[k].end;
    BodyHolds(text, spans[k], i);
    var chunk := Chunk(Body(text, spans[k]), spans[k].start, spans[k].end);
    assert chunk in Piece(text, spans[k]);
    EmittedHas(text, spans, |spans|, k, chunk);
  }

  method EndOfChunk(text: Text, start: nat, chunkChars: nat) returns (end: nat)
    requires start < |text|
    ensures start <= end <= |text| && end == ChunkEnd(text, start, chunkChars)
  {
    end := Min(|text|, start + chunkChars);
    if end < |text| {
      ghost var limit := end;
      var split := SplitPoint(text, start, end);
      if split > start + chunkChars / 2 { end := split + 1; }
      assert end == BoundaryEnd(text, start, limit, chunkChars);
      if end < |text| { end := AvoidOpenFence(text, start, end); }
    }
  }

  lemma RulesAt(text: Text, chunkChars: nat, overlap: int, start: nat, end: nat)
    requires start < |text| && end == ChunkEnd(text, start, chunkChars)
    ensures end == EndRule(text, chunkChars)(start)
    ensures end < |text| ==> OverlapStart(text, end, overlap) == StartRule(text, overlap)(end)
  {}

  // ----- when the loop ends -----

  /** A walk that reached the end of the text. */
  ghost predicate Finished(text: Text, chunkChars: nat, overlap: int, spans: seq<Span>) {
    && Walk(|text|, EndRule(text, chunkChars), StartRule(text, overlap), spans)
    && |spans| > 0 && spans[|spans| - 1].end == |text|
  }

  /** The loop ends on this text. */
  ghost predicate Ends(text: Text, chunkChars: nat, overlap: int) {
    |text| <= chunkChars || exists spans :: Finished(text, chunkChars, overlap, spans)
  }

  lemma {:induction false} WalkAt(length: nat, ends: nat -> nat, starts: nat -> nat, spans: seq<Span>, k: nat)
    requires Walk(length, ends, starts, spans) && k < |spans|
    ensures spans[k].start < length && spans[k].end == ends(spans[k].start)
    ensures Continues(length, starts, spans[..k], spans[k])
  {
    var n := |spans| - 1;
    if k < n {
      WalkAt(length, ends, starts, spans[..n], k);
      assert spans[..n][..k] == spans[..k];
    }
  }

  /** There is only one way to walk: what a walk goes on with, a finished one has already. */
  lemma {:induction false} WalkIsDetermined(length: nat, ends: nat -> nat, starts: nat -> nat, full: seq<Span>, n: nat, next: Span)
    requires Walk(length, ends, starts, full) && n <= |full| && full != [] && full[|full| - 1].end == length
    requires Continues(length, starts, full[..n], next)
    ensures n < |full| && full[n].start == next.start && full[n].end == ends(next.start) && full[..n] + [full[n]] == full[..n + 1]
  {
    assert full[..|full|] == full;
    if n < |full| { WalkAt(length, ends, starts, full, n); }
  }

  /** What holds at the top of the loop. */
  ghost predicate Going(text: Text, chunkChars: nat, overlap: int, full: seq<Span>, spans: seq<Span>, chunks: seq<Chunk>, start: nat) {
    && spans <= full && Splits(text, chunkChars, overlap, spans, chunks)
    && start < |text| && Continues(|text|, StartRule(text, overlap), spans, Span(start, start))
  }

  ghost predicate Done(text: Text, chunkChars: nat, overlap: int, spans: seq<Span>, chunks: seq<Chunk>) {
    Splits(text, chunkChars, overlap, spans, chunks) && |spans| > 0 && spans[|spans| - 1].end == |text|
  }

  /** One round of the loop: the chunk and its end. */
  method Cut(text: Text, start: nat, chunkChars: nat) returns (end: nat, piece: seq<Chunk>)
    requires start < |text|
    ensures start <= end <= |text| && end == ChunkEnd(text, start, chunkChars) && piece == Piece(text, Span(start, end))
  {
    end := EndOfChunk(text, start, chunkChars);
    var chunk := Strip(text[start..end]);
    piece := if chunk == [] then [] else [Chunk(chunk, start, end)];
  }

  lemma {:induction false} Round(text: Text, chunkChars: nat, overlap: int, full: seq<Span>, spans: seq<Span>, chunks: seq<Chunk>,
                                 start: nat, end: nat)
    requires Finished(text, chunkChars, overlap, full) && Going(text, chunkChars, overlap, full, spans, chunks, start)
    requires end == ChunkEnd(text, start, chunkChars)
    ensures |spans| < |full|
    ensures var chunks', spans' := chunks + Piece(text, Span(start, end)), spans + [Span(start, end)];
      if end < |text| then Going(text, chunkChars, overlap, full, spans', chunks', OverlapStart(text, end, overlap))
      else Done(text, chunkChars, overlap, spans', chunks')
  {
    RulesAt(text, chunkChars, overlap, start, end);
    WalkIsDetermined(|text|, EndRule(text, chunkChars), StartRule(text, overlap), full, |spans|, Span(start, start));
    SplitOn(text, chunkChars, overlap, spans, chunks, Span(start, end));
  }

  lemma {:induction false} FullWalk(text: Text, chunkChars: nat, overlap: int) returns (full: seq<Span>)
    requires Ends(text, chunkChars, overlap) && |text| > chunkChars
    ensures Finished(text, chunkChars, overlap, full) && Going(text, chunkChars, overlap, full, [], [], 0)
  {
    full :| Finished(text, chunkChars, overlap, full);
  }

  /** The loop. Where it ends, its chunks are those of the walk over the whole text. */
  method SplitSemanticText(text: Text, chunkChars: nat, overlapChars: int) returns (chunks: seq<Chunk>, ghost spans: seq<Span>)
    requires Ends(text, chunkChars, overlapChars)
    ensures |text| <= chunkChars ==> chunks == [Chunk(text, 0, |text|)]
    ensures |text| > chunkChars ==> Done(text, chunkChars, overlapChars, spans, chunks)
  {
    spans := [];
    if |text| <= chunkChars { return [Chunk(text, 0, |text|)], spans; }
    chunks := [];
    ghost var full := FullWalk(text, chunkChars, overlapChars);
    var start: nat := 0;
    while start < |text|
      invariant Going(text, chunkChars, overlapChars, full, spans, chunks, start)
      decreases |full| - |spans|
    {
      var end, piece := Cut(text, start, chunkChars);
      Round(text, chunkChars, overlapChars, full, spans, chunks, start, end);
      spans, chunks := spans + [Span(start, end)], chunks + piece;
      if end >= |text| { break; }
      start := OverlapStart(text, end, overlapChars);
    }
  }

  /** Every interval is past its start, and the next one starts later still. */
  ghost predicate Progress(length: nat, ends: nat -> nat, starts: nat -> nat) {
    forall s: nat :: s < length ==> s < ends(s) <= length && (ends(s) < length ==> s < starts(ends(s)) <= ends(s))
  }

  /** With progress every walk can be taken to the end. */
  lemma {:induction false} WalkToTheEnd(length: nat, ends: nat -> nat, starts: nat -> nat, spans: seq<Span>, start: nat) returns (full: seq<Span>)
    requires Progress(length, ends, starts) && start < length
    requires Walk(length, ends, starts, spans) && Continues(length, starts, spans, Span(start, start))
    ensures Walk(length, ends, starts, full) && |full| > 0 && full[|full| - 1].end == length
    decreases length - start
  {
    var span := Span(start, ends(start));
    WalkOn(length, ends, starts, spans, span);
    full := spans + [span];
    if span.end < length { full := WalkToTheEnd(length, ends, starts, full, starts(span.end)); }
  }

  lemma {:induction false} RulesProgress(text: Text, chunkChars: nat, overlap: int)
    requires chunkChars > 0 && overlap < LeastAdvance(chunkChars)
    ensures Progress(|text|, EndRule(text, chunkChars), StartRule(text, overlap))
  {
    var ends, starts := EndRule(text, chunkChars), StartRule(text, overlap);
    forall s: nat | s < |text| ensures s < ends(s) <= |text| && (ends(s) < |text| ==> s < starts(ends(s)) <= ends(s)) {
      Advances(text, chunkChars, overlap, s);
      RulesAt(text, chunkChars, overlap, s, ChunkEnd(text, s, chunkChars));
    }
  }

  /** A loop that comes back to the beginning never ends. */
  lemma {:induction false} ComingBackNeverEnds(length: nat, ends: nat -> nat, starts: nat -> nat, spans: seq<Span>)
    requires Walk(length, ends, starts, spans) && ends(0) < length && starts(ends(0)) == 0
    ensures forall k :: 0 <= k < |spans| ==> spans[k] == Span(0, ends(0))
  {
    if spans != [] { ComingBackNeverEnds(length, ends, starts, spans[..|spans| - 1]); }
  }

  // ----- the worst text -----

  /** The one boundary of the worst text, or -1. */
  function Stop(chunkChars: nat): int {
    if chunkChars <= 2 || 7 <= chunkChars <= 9 then -1
    else if 10 <= chunkChars <= 13 then 8
    else chunkChars / 2 + 1
  }

  /** Its one fence, or a position past its end. */
  function FenceAt(chunkChars: nat): nat {
    if chunkChars >= 7 then LeastAdvance(chunkChars) else chunkChars + 1
  }

  function Window(chunkChars: nat): nat {
    if Stop(chunkChars) == -1 then chunkChars else Stop(chunkChars) + 1
  }

  function Trap(chunkChars: nat): (text: Text)
    ensures |text| == chunkChars + 1
  {
    seq(chunkChars + 1, i => if FenceAt(chunkChars) <= i < FenceAt(chunkChars) + 3 then '`'
                             else if i == Stop(chunkChars) then '\U{3002}' else 'a')
  }

  lemma TrapAt(chunkChars: nat, i: nat)
    requires i <= chunkChars
    ensures Trap(chunkChars)[i] == if FenceAt(chunkChars) <= i < FenceAt(chunkChars) + 3 then '`'
                                   else if i == Stop(chunkChars) then '\U{3002}' else 'a'
  {}

  lemma StopIsInside(chunkChars: nat)
    ensures Stop(chunkChars) == -1 || 0 <= Stop(chunkChars) < chunkChars
    ensures Stop(chunkChars) == -1 || chunkChars < 7 || FenceAt(chunkChars) + 3 <= Stop(chunkChars)
    ensures Window(chunkChars) <= chunkChars
    ensures chunkChars < 7 ==> Window(chunkChars) == LeastAdvance(chunkChars)
  {}

  lemma BoundaryStart(c: nat)
    requires c < |BOUNDARIES|
    ensures BOUNDARIES[c] != [] && BOUNDARIES[c][0] in {'\n', '.', '\U{3002}'}
  {}

  lemma {:induction false} OnlyBoundary(text: Text, start: nat, end: nat, at: int)
    requires start <= end <= |text| && (at == -1 || Matches(text, BOUNDARIES[6], at, start, end))
    requires forall c, i :: 0 <= c < |BOUNDARIES| && Matches(text, BOUNDARIES[c], i, start, end) ==> i == at
    ensures SplitPoint(text, start, end) == at
  {
    LastOfIsLastBoundary(text, start, end, |BOUNDARIES|, 6, at);
  }

  lemma {:induction false} TrapBoundary(chunkChars: nat, c: nat, i: int)
    requires c < |BOUNDARIES| && Matches(Trap(chunkChars), BOUNDARIES[c], i, 0, chunkChars)
    ensures i == Stop(chunkChars)
  {
    BoundaryStart(c);
    TrapAt(chunkChars, i);
    assert Trap(chunkChars)[i] == Trap(chunkChars)[i..i + |BOUNDARIES[c]|][0];
  }

  lemma {:induction false} TrapSplit(chunkChars: nat)
    ensures SplitPoint(Trap(chunkChars), 0, chunkChars) == Stop(chunkChars)
  {
    var text, stop := Trap(chunkChars), Stop(chunkChars);
    StopIsInside(chunkChars);
    if stop != -1 {
      TrapAt(chunkChars, stop);
      assert text[stop..stop + 1] == BOUNDARIES[6];
    }
    forall c, i | 0 <= c < |BOUNDARIES| && Matches(text, BOUNDARIES[c], i, 0, chunkChars) ensures i == stop { TrapBoundary(chunkChars, c, i); }
    OnlyBoundary(text, 0, chunkChars, stop);
  }

  lemma {:induction false} NotFound(text: Text, pattern: Text, start: nat, end: nat)
    requires end <= |text| && pattern != [] && forall i :: start <= i < end ==> text[i] != pattern[0]
    ensures Find(text, pattern, start, end) == -1
    decreases |text| - start
  {
    if start + |pattern| <= end {
      assert text[start..start + |pattern|][0] == text[start];
      NotFound(text, pattern, start + 1, end);
    }
  }

  lemma {:induction false} FoundAt(text: Text, pattern: Text, start: nat, end: nat, at: nat)
    requires end <= |text| && pattern != [] && Matches(text, pattern, at, start, end)
    requires forall i :: start <= i < at ==> text[i] != pattern[0]
    ensures Find(text, pattern, start, end) == at
    decreases |text| - start
  {
    if start < at {
      assert text[start..start + |pattern|][0] == text[start];
      FoundAt(text, pattern, start + 1, end, at);
    }
  }

  lemma {:induction false} LastFoundAt(text: Text, pattern: Text, start: nat, end: nat, at: nat)
    requires start <= end <= |text| && pattern != [] && Matches(text, pattern, at, start, end)
    requires forall i :: at + |pattern| <= i < end ==> text[i] != pattern[|pattern| - 1]
    ensures RFind(text, pattern, start, end) == at
    decreases end
  {
    if at + |pattern| < end {
      assert text[end - |pattern|..end][|pattern| - 1] == text[end - 1];
      LastFoundAt(text, pattern, start, end - 1, at);
    }
  }

  lemma {:induction false} TrapFence(chunkChars: nat)
    requires chunkChars >= 7
    ensures var text, fence, end := Trap(chunkChars), FenceAt(chunkChars), Window(chunkChars);
      && end / 2 < fence && fence + 3 <= end <= chunkChars
      && Find(text, FENCE, 0, end) == fence == RFind(text, FENCE, 0, end) && Find(text, FENCE, fence + 3, end) == -1
  {
    var text, fence, end := Trap(chunkChars), FenceAt(chunkChars), Window(chunkChars);
    assert text[fence..fence + 3] == FENCE;
    FoundAt(text, FENCE, 0, end, fence);
    LastFoundAt(text, FENCE, 0, end, fence);
    NotFound(text, FENCE, fence + 3, end);
  }

  lemma {:induction false} TrapFenceMovesEnd(chunkChars: nat)
    ensures Window(chunkChars) <= chunkChars
    ensures AvoidOpenFence(Trap(chunkChars), 0, Window(chunkChars)) == LeastAdvance(chunkChars)
  {
    var text, end := Trap(chunkChars), Window(chunkChars);
    StopIsInside(chunkChars);
    if chunkChars >= 7 {
      TrapFence(chunkChars);
      assert Count(text, FENCE, FenceAt(chunkChars) + 3, end) == 0;
      assert Count(text, FENCE, 0, end) == 1;
    } else {
      forall i | 0 <= i < end ensures text[i] != '`' { TrapAt(chunkChars, i); }
      NotFound(text, FENCE, 0, end);
      assert Count(text, FENCE, 0, end) == 0;
    }
  }

  lemma {:induction false} TrapEnd(chunkChars: nat)
    ensures ChunkEnd(Trap(chunkChars), 0, chunkChars) == LeastAdvance(chunkChars) <= chunkChars
  {
    TrapSplit(chunkChars);
    TrapFenceMovesEnd(chunkChars);
  }

  /** On the worst text the loop comes back to the beginning. */
  lemma {:induction false} TrapHolds(chunkChars: nat, overlap: int)
    requires chunkChars == 0 || overlap >= LeastAdvance(chunkChars)
    ensures var text := Trap(chunkChars);
      && ChunkEnd(text, 0, chunkChars) < |text| && OverlapStart(text, ChunkEnd(text, 0, chunkChars), overlap) == 0
      && !Ends(text, chunkChars, overlap)
  {
    var text := Trap(chunkChars);
    TrapEnd(chunkChars);
    var end := LeastAdvance(chunkChars);
    NotFound(text, PARAGRAPH, 0, end);
    NotFound(text, LINE, 0, end);
    RulesAt(text, chunkChars, overlap, 0, end);
    forall spans ensures !Finished(text, chunkChars, overlap, spans) {
      if Finished(text, chunkChars, overlap, spans) {
        ComingBackNeverEnds(|text|, EndRule(text, chunkChars), StartRule(text, overlap), spans);
        assert false;
      }
    }
  }

  /** The loop ends on every text if and only if the overlap is below the least advance of the
      chunk size; otherwise there is a text on which it never leaves the beginning. */
  lemma {:induction false} EndsIff(chunkChars: nat, overlap: int)
    ensures (forall text: Text :: Ends(text, chunkChars, overlap)) <==> chunkChars > 0 && overlap < LeastAdvance(chunkChars)
  {
    if chunkChars > 0 && overlap < LeastAdvance(chunkChars) {
      forall text: Text ensures Ends(text, chunkChars, overlap) {
        if |text| > chunkChars {
          RulesProgress(text, chunkChars, overlap);
          var full := WalkToTheEnd(|text|, EndRule(text, chunkChars), StartRule(text, overlap), [], 0);
          assert Finished(text, chunkChars, overlap, full);
        }
      }
    } else {
      TrapHolds(chunkChars, overlap);
    }
  }
}
