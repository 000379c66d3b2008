/** The three document chunkers: fixed windows with overlap, packed paragraphs with overlap, packed sections. */
module Chunker {
  import opened Text
  import opened Collections

  datatype Chunk = Chunk(index: nat, content: string, tokenCount: nat)

  datatype Settings = Settings(strategy: string, size: int, overlap: int)

  datatype ChunkResult = Chunks(chunks: seq<Chunk>) | TooLarge

  const MAX_BYTES: nat := 10 * 1024 * 1024

  /** A quarter of the runes, rounded down. */
  function ApproxTokenCount(text: string): nat {
    |text| / 4
  }

  function NewChunker(strategy: string, size: int, overlap: int): Settings {
    var size' := if size <= 0 then 1000 else size;
    Settings(strategy, size', if overlap < 0 || overlap >= size' then 200 else overlap)
  }

  function Min(a: int, b: int): int {
    if a < b then a else b
  }

  // ---- Fixed windows -------------------------------------------------------------------------

  function Step(c: Settings): int {
    c.size - c.overlap
  }

  /** Where the cursor stands before window `i`. */
  function Start(c: Settings, i: nat): int {
    if i == 0 then 0 else Start(c, i - 1) + Step(c)
  }

  lemma {:induction false} StartIsMultiple(c: Settings, i: nat)
    ensures Start(c, i) == i * Step(c)
  {
    if i == 0 {
    } else {
      StartIsMultiple(c, i - 1);
      assert i * Step(c) == (i - 1) * Step(c) + Step(c);
    }
  }

  /** Chunk `i` is the window of at most `size` runes that starts at `i * (size - overlap)`. */
  ghost predicate IsWindow(c: Settings, content: string, i: nat, chunk: Chunk)
    requires 0 <= c.overlap < c.size
  {
    var start := Start(c, i);
    && 0 <= start < |content|
    && chunk == Chunk(i, content[start..Min(start + c.size, |content|)],
                      ApproxTokenCount(content[start..Min(start + c.size, |content|)]))
  }

  ghost predicate IsFixedChunking(c: Settings, content: string, chunks: seq<Chunk>)
    requires 0 <= c.overlap < c.size
  {
    && (forall i :: 0 <= i < |chunks| ==> IsWindow(c, content, i, chunks[i]))
    && Start(c, |chunks|) >= |content|
  }

  method FixedSize(c: Settings, content: string) returns (chunks: seq<Chunk>)
    requires content != "" ==> 0 <= c.overlap < c.size
    ensures content == "" ==> chunks == []
    ensures content != "" ==> IsFixedChunking(c, content, chunks)
  {
    chunks := [];
    if content == "" {
      return;
    }
    var start, index := 0, 0;
    while start < |content|
      invariant index == |chunks| && 0 <= start == Start(c, index)
      invariant forall i :: 0 <= i < |chunks| ==> IsWindow(c, content, i, chunks[i])
      decreases |content| - start
    {
      var end := start + c.size;
      if end > |content| {
        end := |content|;
      }
      var text := content[start..end];
      chunks := chunks + [Chunk(index, text, ApproxTokenCount(text))];
      index := index + 1;
      start := start + (c.size - c.overlap);
      if start >= |content| {
        break;
      }
    }
  }

  /** Number of windows: the content's length over the step, rounded up. */
  lemma FixedCount(c: Settings, content: string, chunks: seq<Chunk>)
    requires 0 <= c.overlap < c.size && content != "" && IsFixedChunking(c, content, chunks)
    ensures |chunks| == (|content| + Step(c) - 1) / Step(c)
  {
    var k, s, n := |chunks|, Step(c), |content|;
    assert k > 0;
    assert IsWindow(c, content, k - 1, chunks[k - 1]);
    StartIsMultiple(c, k - 1);
    StartIsMultiple(c, k);
    QuotientIs(n + s - 1, s, k);
  }

  lemma QuotientIs(x: int, s: int, k: int)
    requires s > 0 && k * s <= x < (k + 1) * s
    ensures x / s == k
  {
    var q, r := x / s, x % s;
    assert x == q * s + r;
    if q < k {
      MultiplesOrdered(q + 1, k, s);
    } else if q > k {
      MultiplesOrdered(k + 1, q, s);
    }
  }

  lemma MultiplesOrdered(a: int, b: int, s: nat)
    requires a <= b
    ensures a * s <= b * s
  {
  }

  lemma FixedBounds(c: Settings, content: string, chunks: seq<Chunk>)
    requires 0 <= c.overlap < c.size && IsFixedChunking(c, content, chunks)
    ensures forall i :: 0 <= i < |chunks| ==>
      && chunks[i].index == i && 0 < |chunks[i].content| <= c.size
      && chunks[i].tokenCount == |chunks[i].content| / 4
  {
  }

  /** Every chunk but the first without its leading `overlap` runes, end to end. */
  function Reassemble(chunks: seq<Chunk>, overlap: nat): string {
    if chunks == [] then ""
    else if |chunks| == 1 then chunks[0].content
    else
      var last := chunks[|chunks| - 1].content;
      Reassemble(chunks[..|chunks| - 1], overlap) + last[Min(overlap, |last|)..]
  }

  /** What a window adds behind the part it shares with the window before it. */
  lemma WindowSeam(content: string, start: nat, size: nat, overlap: nat)
    requires overlap < size && start < |content|
    ensures var last := content[start..Min(start + size, |content|)];
            content[..Min(start + overlap, |content|)] + last[Min(overlap, |last|)..]
            == content[..Min(start + size, |content|)]
  {
  }

  ghost predicate Covers(c: Settings, content: string, chunks: seq<Chunk>, k: nat)
    requires 0 <= c.overlap < c.size && 1 <= k <= |chunks|
  {
    && 0 <= Start(c, k - 1)
    && Reassemble(chunks[..k], c.overlap) == content[..Min(Start(c, k - 1) + c.size, |content|)]
  }

  lemma CoversOneMore(c: Settings, content: string, chunks: seq<Chunk>, k: nat)
    requires 0 <= c.overlap < c.size && 1 <= k < |chunks|
    requires Covers(c, content, chunks, k) && IsWindow(c, content, k, chunks[k])
    ensures Covers(c, content, chunks, k + 1)
  {
    ReassembleOneMore(chunks, k, c.overlap);
    assert Start(c, k) + c.overlap == Start(c, k - 1) + c.size;
    WindowSeam(content, Start(c, k), c.size, c.overlap);
  }

  lemma ReassembleOneMore(chunks: seq<Chunk>, k: nat, overlap: nat)
    requires 1 <= k < |chunks|
    ensures var next := chunks[k].content;
            Reassemble(chunks[..k + 1], overlap) == Reassemble(chunks[..k], overlap) + next[Min(overlap, |next|)..]
  {
    assert chunks[..k + 1][..k] == chunks[..k];
  }

  lemma {:induction false} FixedPrefix(c: Settings, content: string, chunks: seq<Chunk>, k: nat)
    requires 0 <= c.overlap < c.size && IsFixedChunking(c, content, chunks)
    requires 1 <= k <= |chunks|
    ensures Covers(c, content, chunks, k)
  {
    assert IsWindow(c, content, k - 1, chunks[k - 1]);
    if k == 1 {
    } else {
      FixedPrefix(c, content, chunks, k - 1);
      CoversOneMore(c, content, chunks, k - 1);
    }
  }

  /** Round trip: the content comes back. */
  lemma FixedRoundTrip(c: Settings, content: string, chunks: seq<Chunk>)
    requires 0 <= c.overlap < c.size && content != "" && IsFixedChunking(c, content, chunks)
    ensures Reassemble(chunks, c.overlap) == content
  {
    var k := |chunks|;
    FixedPrefix(c, content, chunks, k);
    assert chunks[..k] == chunks;
  }

  /** The cursor passes the end of a text of `n` runes. */
  ghost predicate Ends(c: Settings, n: nat) {
    exists k: nat :: Start(c, k) >= n
  }

  /** The cursor gets below zero, where slicing panics. */
  ghost predicate Panics(c: Settings, n: nat) {
    exists k: nat :: Start(c, k) < 0 && forall j: nat :: j < k ==> 0 <= Start(c, j) < n
  }

  /** The cursor stays inside the text for ever. */
  ghost predicate Loops(c: Settings, n: nat) {
    forall k: nat :: 0 <= Start(c, k) < n
  }

  /** What becomes of the loop on a non-empty text, by how the overlap compares to the size. */
  lemma FixedTerminatesIff(c: Settings, n: nat)
    requires n > 0
    ensures Ends(c, n) <==> c.overlap < c.size
    ensures Panics(c, n) <==> c.overlap > c.size
    ensures Loops(c, n) <==> c.overlap == c.size
  {
    assert Start(c, 0) == 0;
    if c.overlap < c.size {
      StartIsMultiple(c, n);
      MultiplesOrdered(1, Step(c), n);
      assert Start(c, n) >= n;
      forall k: nat ensures Start(c, k) >= 0 {
        StartIsMultiple(c, k);
        MultiplesOrdered(0, Step(c), k);
      }
    } else {
      forall k: nat ensures Start(c, k) <= 0 && (Step(c) == 0 ==> Start(c, k) == 0) {
        StartIsMultiple(c, k);
        MultiplesOrdered(Step(c), 0, k);
      }
      assert Start(c, 1) == Step(c);
    }
  }

  /** The constructor's default overlap of 200 repairs a bad overlap for sizes above 200, and for no other. */
  lemma NewChunkerProgressIff(strategy: string, size: int, overlap: int)
    ensures var c := NewChunker(strategy, size, overlap);
            && c.strategy == strategy && c.size > 0 && c.overlap >= 0
            && (size > 0 ==> c.size == size) && (size <= 0 ==> c.size == 1000)
            && (0 <= overlap < c.size ==> c.overlap == overlap)
            && (c.overlap < c.size <==> 0 <= overlap < c.size || c.size > 200)
            && (c.overlap == c.size <==> !(0 <= overlap < c.size) && c.size == 200)
            && (c.overlap > c.size <==> !(0 <= overlap < c.size) && c.size < 200)
  {
  }

  // ---- Paragraphs with overlap carried over --------------------------------------------------

  /** The end of the previous chunk that opens the next one. */
  function Tail(c: Settings, prev: string): string {
    if 0 < c.overlap < |prev| then prev[|prev| - c.overlap..] else ""
  }

  function Carry(c: Settings, prev: string): string {
    if Tail(c, prev) == "" then "" else Tail(c, prev) + BLANK
  }

  /** The paragraphs that do not have to share a chunk: alone, or all within the size. */
  ghost predicate Packed(c: Settings, carry: string, block: seq<string>) {
    && block != []
    && (|block| == 1 || ByteLen(carry) + ByteLen(Join(block)) <= c.size)
  }

  ghost predicate ChunkOf(c: Settings, carry: string, block: seq<string>, i: nat, chunk: Chunk) {
    && Packed(c, carry, block)
    && chunk == Chunk(i, TrimLeft(carry) + Join(block), ApproxTokenCount(carry + Join(block) + BLANK))
  }

  /** The next paragraph did not fit behind the block. */
  ghost predicate NoRoomFor(c: Settings, carry: string, block: seq<string>, next: string) {
    ByteLen(carry) + ByteLen(Join(block)) + 2 + ByteLen(next) > c.size
  }

  /** Chunks in the order they were cut, each with the block of paragraphs it was made from. */
  datatype Packing = Nothing | More(before: Packing, block: seq<string>, chunk: Chunk)

  function ChunksOf(packing: Packing): seq<Chunk> {
    match packing
    case Nothing => []
    case More(before, _, chunk) => ChunksOf(before) + [chunk]
  }

  function ParagraphsOf(packing: Packing): seq<string> {
    match packing
    case Nothing => []
    case More(before, block, _) => ParagraphsOf(before) + block
  }

  function Count(packing: Packing): (n: nat)
    ensures n == |ChunksOf(packing)|
  {
    match packing
    case Nothing => 0
    case More(before, _, _) => Count(before) + 1
  }

  /** The overlap with which the chunk after `packing` opens. */
  function CarryAfter(c: Settings, packing: Packing): string {
    if packing.Nothing? then "" else Carry(c, packing.chunk.content)
  }

  /** A greedy partition into consecutive blocks: no block could have taken the next paragraph as well. */
  ghost predicate IsPacking(c: Settings, packing: Packing) {
    match packing
    case Nothing => true
    case More(before, block, chunk) =>
      && IsPacking(c, before)
      && ChunkOf(c, CarryAfter(c, before), block, Count(before), chunk)
      && Trimmed(chunk.content)
      && FullBefore(c, before, block[0])
  }

  ghost predicate FullBefore(c: Settings, packing: Packing, next: string) {
    packing.More? ==> NoRoomFor(c, CarryAfter(c, packing.before), packing.block, next)
  }

  ghost predicate IsRecursiveChunking(c: Settings, paragraphs: seq<string>, chunks: seq<Chunk>) {
    exists packing :: IsPacking(c, packing) && ParagraphsOf(packing) == paragraphs && ChunksOf(packing) == chunks
  }

  /** The text in the builder, and what was cut before it. */
  ghost predicate Building(c: Settings, packing: Packing, open: seq<string>, current: string) {
    && IsPacking(c, packing)
    && AllTrimmed(open)
    && (if open == [] then current == "" && packing.Nothing?
        else
          && current == CarryAfter(c, packing) + Join(open) + BLANK
          && Packed(c, CarryAfter(c, packing), open)
          && FullBefore(c, packing, open[0]))
  }

  lemma BuilderBytes(c: Settings, carry: string, open: seq<string>, p: string)
    requires open != []
    ensures ByteLen(carry + Join(open) + BLANK) == ByteLen(carry) + ByteLen(Join(open)) + 2
    ensures ByteLen(Join(open + [p])) == ByteLen(Join(open)) + 2 + ByteLen(p)
    ensures carry + Join(open) + BLANK + p + BLANK == carry + Join(open + [p]) + BLANK
  {
    JoinAppend(open, p);
    ByteLenConcat(carry + Join(open), BLANK);
    ByteLenConcat(carry, Join(open));
    ByteLenBlank();
  }

  lemma ParagraphFits(c: Settings, packing: Packing, open: seq<string>, current: string, p: string)
    requires Building(c, packing, open, current) && Trimmed(p)
    requires ByteLen(current) + ByteLen(p) <= c.size
    ensures Building(c, packing, open + [p], current + p + BLANK)
  {
    if open == [] {
      assert open + [p] == [p];
      assert "" + Join([p]) == p == current + p;
    } else {
      BuilderBytes(c, CarryAfter(c, packing), open, p);
    }
  }

  /** The carried tail ends in the last rune of a trimmed chunk, so trimming never eats through it. */
  lemma FlushedText(c: Settings, prev: string, first: bool, open: seq<string>)
    requires open != [] && AllTrimmed(open) && (first || Trimmed(prev))
    ensures var carry := if first then "" else Carry(c, prev);
            && TrimSpace(carry + Join(open) + BLANK) == TrimLeft(carry) + Join(open)
            && Trimmed(TrimLeft(carry) + Join(open))
  {
    JoinTrimmed(open);
    var text := Join(open);
    var tail := if first then "" else Tail(c, prev);
    if tail == "" {
      assert "" + text == text;
      TrimAlone(text);
    } else {
      assert tail[|tail| - 1] == prev[|prev| - 1];
      TrimBehindTail(tail, text);
    }
  }

  lemma TrimAlone(text: string)
    requires Trimmed(text)
    ensures TrimSpace(text + BLANK) == TrimLeft("") + text == text
  {
    TrimLeftStops(text, BLANK);
    TrimRightBlank(text);
  }

  lemma TrimBehindTail(tail: string, text: string)
    requires tail != "" && !IsSpace(tail[|tail| - 1]) && Trimmed(text)
    ensures TrimLeft(tail + BLANK) == TrimLeft(tail) + BLANK
    ensures TrimSpace(tail + BLANK + text + BLANK) == TrimLeft(tail) + BLANK + text
    ensures Trimmed(TrimLeft(tail) + BLANK + text)
  {
    TrimLeftIsSuffix(tail);
    TrimLeftStops(tail, BLANK);
    TrimLeftStops(tail, BLANK + text + BLANK);
    Associates(tail, BLANK, text, BLANK);
    Associates(TrimLeft(tail), BLANK, text, BLANK);
    var result := TrimLeft(tail) + BLANK + text;
    assert result[|result| - 1] == text[|text| - 1];
    assert result[0] == TrimLeft(tail)[0];
    TrimRightBlank(result);
  }

  function Cut(packing: Packing, block: seq<string>, current: string): Packing {
    More(packing, block, Chunk(Count(packing), TrimSpace(current), ApproxTokenCount(current)))
  }

  lemma Flush(c: Settings, packing: Packing, open: seq<string>, current: string)
    requires Building(c, packing, open, current) && open != []
    ensures IsPacking(c, Cut(packing, open, current))
  {
    match packing
    case Nothing => FlushedText(c, "", true, open);
    case More(_, _, last) => FlushedText(c, last.content, false, open);
  }

  /** A paragraph that does not fit closes the chunk being built and opens the next one. */
  lemma FlushAndOpen(c: Settings, packing: Packing, open: seq<string>, current: string, p: string)
    requires Building(c, packing, open, current) && open != [] && Trimmed(p)
    requires ByteLen(current) + ByteLen(p) > c.size
    ensures var cut := Cut(packing, open, current);
            Building(c, cut, [p], CarryAfter(c, cut) + p + BLANK)
  {
    Flush(c, packing, open, current);
    BuilderBytes(c, CarryAfter(c, packing), open, p);
    assert Join([p]) == p;
  }

  /** Reset the builder and add the overlap from the end of the previous chunk. */
  method OpenWithOverlap(c: Settings, chunks: seq<Chunk>) returns (current: string)
    ensures current == if chunks == [] then "" else Carry(c, chunks[|chunks| - 1].content)
  {
    current := "";
    if |chunks| > 0 && c.overlap > 0 {
      var prev := chunks[|chunks| - 1].content;
      if |prev| > c.overlap {
        current := current + prev[|prev| - c.overlap..];
        current := current + BLANK;
      }
    }
  }

  lemma FirstParagraph(c: Settings, packing: Packing, p: string)
    requires Building(c, packing, [], "") && Trimmed(p)
    ensures Building(c, packing, [p], "" + p + BLANK)
  {
  }

  lemma Regroup<T>(a: seq<T>, b: seq<T>, x: T)
    ensures a + (b + [x]) == a + b + [x]
  {
  }

  method Recursive(c: Settings, paragraphs: seq<string>) returns (chunks: seq<Chunk>)
    requires AllTrimmed(paragraphs)
    ensures IsRecursiveChunking(c, paragraphs, chunks)
    ensures exists blocks :: Partitions(c, paragraphs, chunks, blocks)
  {
    chunks := [];
    var current, index := "", 0;
    ghost var packing, open: seq<string> := Nothing, [];
    for i := 0 to |paragraphs|
      invariant index == |chunks| && chunks == ChunksOf(packing)
      invariant ParagraphsOf(packing) + open == paragraphs[..i]
      invariant Building(c, packing, open, current)
    {
      var p := paragraphs[i];
      PrefixStep([], paragraphs, i);
      if ByteLen(current) + ByteLen(p) <= c.size {
        ParagraphFits(c, packing, open, current, p);
        Regroup(ParagraphsOf(packing), open, p);
        current := current + p;
        current := current + BLANK;
        open := open + [p];
      } else {
        if current != "" {
          FlushAndOpen(c, packing, open, current, p);
          packing := Cut(packing, open, current);
          chunks := chunks + [Chunk(index, TrimSpace(current), ApproxTokenCount(current))];
          index := index + 1;
          current := OpenWithOverlap(c, chunks);
        } else {
          FirstParagraph(c, packing, p);
        }
        current := current + p;
        current := current + BLANK;
        open := [p];
      }
    }
    assert paragraphs[..|paragraphs|] == paragraphs;
    if current != "" {
      Flush(c, packing, open, current);
      packing := Cut(packing, open, current);
      chunks := chunks + [Chunk(index, TrimSpace(current), ApproxTokenCount(current))];
    } else {
      assert paragraphs == ParagraphsOf(packing);
    }
    RecursiveChunksPartition(c, paragraphs, chunks);
  }

  // ---- What the paragraph chunks look like from outside --------------------------------------

  function BlocksOf(packing: Packing): seq<seq<string>> {
    match packing
    case Nothing => []
    case More(before, block, _) => BlocksOf(before) + [block]
  }

  /** `t` is what the chunk before hands over: its last `overlap` runes, if it has more of them than that. */
  ghost predicate HandsOver(c: Settings, chunks: seq<Chunk>, i: nat, front: string, t: string)
    requires i < |chunks|
  {
    if i > 0 && 0 < c.overlap < |chunks[i - 1].content| then chunks[i - 1].content == front + t && |t| == c.overlap
    else t == ""
  }

  /** The bytes in the builder behind what was handed over, before the last blank line. */
  function Built(t: string, block: seq<string>): int {
    (if t == "" then 0 else ByteLen(t) + 2) + ByteLen(Join(block))
  }

  /**
   Chunk `i` is the left-trimmed `t`, a blank line and its block, or the block alone if nothing is handed over. The
   block is one paragraph or fits behind `t`.
   */
  ghost predicate ChunkReads(c: Settings, t: string, block: seq<string>, i: nat, chunk: Chunk) {
    && block != []
    && chunk.index == i
    && chunk.content == (if t == "" then Join(block) else TrimLeft(t) + "\n\n" + Join(block))
    && chunk.tokenCount == ((if t == "" then 0 else |t| + 2) + |Join(block)| + 2) / 4
    && (|block| == 1 || Built(t, block) <= c.size)
  }

  /** The first paragraph of the next block would not have fitted too. */
  ghost predicate NoRoomBehind(c: Settings, t: string, block: seq<string>, next: seq<string>) {
    next != [] && Built(t, block) + 2 + ByteLen(next[0]) > c.size
  }

  ghost predicate ReadsBehind(c: Settings, blocks: seq<seq<string>>, chunks: seq<Chunk>, i: nat, t: string)
    requires |blocks| == |chunks| && i < |blocks|
  {
    && ChunkReads(c, t, blocks[i], i, chunks[i])
    && (i + 1 < |blocks| ==> NoRoomBehind(c, t, blocks[i], blocks[i + 1]))
  }

  ghost predicate Reads(c: Settings, blocks: seq<seq<string>>, chunks: seq<Chunk>, i: nat)
    requires |blocks| == |chunks| && i < |blocks|
  {
    exists front, t :: HandsOver(c, chunks, i, front, t) && ReadsBehind(c, blocks, chunks, i, t)
  }

  ghost predicate Partitions(c: Settings, paragraphs: seq<string>, chunks: seq<Chunk>, blocks: seq<seq<string>>) {
    && Flatten(blocks) == paragraphs
    && |blocks| == |chunks|
    && forall i :: 0 <= i < |blocks| ==> Reads(c, blocks, chunks, i)
  }

  function TailBefore(c: Settings, chunks: seq<Chunk>, i: nat): string
    requires i <= |chunks|
  {
    if i == 0 then "" else Tail(c, chunks[i - 1].content)
  }

  /** The carry the chunk after a packing opens with is the tail of the last chunk, and a blank line. */
  lemma CarryIsTail(c: Settings, packing: Packing)
    requires IsPacking(c, packing)
    ensures var t, carry := TailBefore(c, ChunksOf(packing), Count(packing)), CarryAfter(c, packing);
            && carry == (if t == "" then "" else t + BLANK)
            && TrimLeft(carry) == (if t == "" then "" else TrimLeft(t) + BLANK)
            && ByteLen(carry) == (if t == "" then 0 else ByteLen(t) + 2)
  {
    var t := TailBefore(c, ChunksOf(packing), Count(packing));
    ByteLenConcat(t, BLANK);
    ByteLenBlank();
    if t != "" {
      assert t[|t| - 1] == packing.chunk.content[|packing.chunk.content| - 1];
      TrimLeftStops(t, BLANK);
    }
  }

  lemma ChunkReadsBehind(c: Settings, carry: string, t: string, block: seq<string>, i: nat, chunk: Chunk)
    requires ChunkOf(c, carry, block, i, chunk)
    requires carry == (if t == "" then "" else t + BLANK)
    requires TrimLeft(carry) == (if t == "" then "" else TrimLeft(t) + BLANK)
    requires ByteLen(carry) == (if t == "" then 0 else ByteLen(t) + 2)
    ensures ChunkReads(c, t, block, i, chunk)
  {
    assert |carry + Join(block) + BLANK| == |carry| + |Join(block)| + 2;
    assert "" + Join(block) == Join(block);
  }

  lemma LastChunkReads(c: Settings, packing: Packing)
    requires IsPacking(c, packing) && packing.More?
    ensures var k := Count(packing.before);
            ChunkReads(c, TailBefore(c, ChunksOf(packing.before), k), packing.block, k, packing.chunk)
  {
    var k := Count(packing.before);
    CarryIsTail(c, packing.before);
    ChunkReadsBehind(c, CarryAfter(c, packing.before), TailBefore(c, ChunksOf(packing.before), k), packing.block, k,
                     packing.chunk);
  }

  lemma LastHasNoRoom(c: Settings, packing: Packing, next: seq<string>)
    requires IsPacking(c, packing) && packing.More? && next != [] && FullBefore(c, packing, next[0])
    ensures NoRoomBehind(c, TailBefore(c, ChunksOf(packing.before), Count(packing.before)), packing.block, next)
  {
    CarryIsTail(c, packing.before);
  }

  lemma LastPlaces(packing: Packing)
    requires packing.More?
    ensures var k := Count(packing.before);
            && |BlocksOf(packing)| == |ChunksOf(packing)| == k + 1
            && BlocksOf(packing)[k] == packing.block && ChunksOf(packing)[k] == packing.chunk
            && ChunksOf(packing)[..k] == ChunksOf(packing.before)
  {
    BlockCount(packing.before);
  }

  lemma {:induction false} BlockCount(packing: Packing)
    ensures |BlocksOf(packing)| == Count(packing)
    ensures Flatten(BlocksOf(packing)) == ParagraphsOf(packing)
  {
    match packing
    case Nothing =>
    case More(before, block, _) =>
      BlockCount(before);
      FlattenAppend(BlocksOf(before), block);
  }

  lemma TailOfPrefix(c: Settings, chunks: seq<Chunk>, k: nat, i: nat)
    requires i <= k <= |chunks|
    ensures TailBefore(c, chunks[..k], i) == TailBefore(c, chunks, i)
  {
  }

  lemma {:induction false} EveryChunkReads(c: Settings, packing: Packing, i: nat)
    requires IsPacking(c, packing) && i < Count(packing)
    ensures |BlocksOf(packing)| == Count(packing)
    ensures ReadsBehind(c, BlocksOf(packing), ChunksOf(packing), i, TailBefore(c, ChunksOf(packing), i))
  {
    var k := Count(packing.before);
    LastPlaces(packing);
    TailOfPrefix(c, ChunksOf(packing), k, i);
    if i == k {
      LastChunkReads(c, packing);
    } else {
      EveryChunkReads(c, packing.before, i);
      if i == k - 1 {
        LastPlaces(packing.before);
        TailOfPrefix(c, ChunksOf(packing.before), k - 1, i);
        LastHasNoRoom(c, packing.before, packing.block);
      }
    }
  }

  lemma TailIsHandedOver(c: Settings, chunks: seq<Chunk>, i: nat) returns (front: string)
    requires i < |chunks|
    ensures HandsOver(c, chunks, i, front, TailBefore(c, chunks, i))
  {
    front := "";
    if i > 0 && 0 < c.overlap < |chunks[i - 1].content| {
      front := chunks[i - 1].content[..|chunks[i - 1].content| - c.overlap];
    }
  }

  /**
   No paragraph is lost, split or moved: the chunks are the blocks of a partition of the paragraph list, each behind
   the end of the chunk before, and no block could have taken the next paragraph as well.
   */
  lemma RecursiveChunksPartition(c: Settings, paragraphs: seq<string>, chunks: seq<Chunk>)
    requires IsRecursiveChunking(c, paragraphs, chunks)
    ensures exists blocks :: Partitions(c, paragraphs, chunks, blocks)
  {
    var packing :| IsPacking(c, packing) && ParagraphsOf(packing) == paragraphs && ChunksOf(packing) == chunks;
    BlockCount(packing);
    forall i | 0 <= i < |chunks|
      ensures Reads(c, BlocksOf(packing), chunks, i)
    {
      EveryChunkReads(c, packing, i);
      var front := TailIsHandedOver(c, chunks, i);
    }
    assert Partitions(c, paragraphs, chunks, BlocksOf(packing));
  }

  /** A chunk is within the size, or one paragraph behind what was handed over: its bytes are bounded by theirs. */
  lemma ChunkBytesBounded(c: Settings, paragraphs: seq<string>, chunks: seq<Chunk>, blocks: seq<seq<string>>, i: nat,
                          longest: nat)
    requires Partitions(c, paragraphs, chunks, blocks) && i < |chunks|
    requires forall p :: p in paragraphs ==> ByteLen(p) <= longest
    ensures exists front, t ::
      && HandsOver(c, chunks, i, front, t)
      && (ByteLen(chunks[i].content) <= c.size
          || ByteLen(chunks[i].content) <= (if t == "" then 0 else ByteLen(t) + 2) + longest)
  {
    assert Reads(c, blocks, chunks, i);
    var front, t :| HandsOver(c, chunks, i, front, t) && ReadsBehind(c, blocks, chunks, i, t);
    ContentBytes(t, Join(blocks[i]));
    if |blocks[i]| == 1 {
      assert blocks[i] == [blocks[i][0]];
      FlattenHolds(blocks, i, 0);
    }
  }

  lemma ContentBytes(t: string, text: string)
    ensures ByteLen(TrimLeft(t) + BLANK + text) <= ByteLen(t) + 2 + ByteLen(text)
  {
    TrimLeftIsSuffix(t);
    ByteLenConcat(TrimLeft(t) + BLANK, text);
    ByteLenConcat(TrimLeft(t), BLANK);
    ByteLenBlank();
  }

  // ---- Sections ------------------------------------------------------------------------------

  /** The sections that survive trimming. */
  function Kept(sections: seq<string>): seq<string> {
    if sections == [] then []
    else
      var s := TrimSpace(sections[|sections| - 1]);
      Kept(sections[..|sections| - 1]) + if s == "" then [] else [s]
  }

  /** The separators are not counted when the next section is tried. */
  predicate SectionFits(c: Settings, block: seq<string>, s: string) {
    ByteLen(Join(block)) + ByteLen(s) <= c.size
  }

  predicate SectionsFit(c: Settings, block: seq<string>) {
    block != [] && (|block| == 1 || SectionFits(c, block[..|block| - 1], block[|block| - 1]))
  }

  ghost predicate IsSectionPacking(c: Settings, packing: Packing) {
    match packing
    case Nothing => true
    case More(before, block, chunk) =>
      && IsSectionPacking(c, before)
      && SectionsFit(c, block)
      && chunk == Chunk(Count(before), Join(block), ApproxTokenCount(Join(block)))
      && (before.More? ==> !SectionFits(c, before.block, block[0]))
  }

  ghost predicate IsSemanticChunking(c: Settings, sections: seq<string>, chunks: seq<Chunk>) {
    exists packing ::
      IsSectionPacking(c, packing) && ParagraphsOf(packing) == Kept(sections) && ChunksOf(packing) == chunks
  }

  ghost predicate BuildingSection(c: Settings, packing: Packing, open: seq<string>, current: string) {
    && IsSectionPacking(c, packing)
    && AllTrimmed(open)
    && current == Join(open)
    && (if open == [] then packing.Nothing?
        else SectionsFit(c, open) && (packing.More? ==> !SectionFits(c, packing.block, open[0])))
  }

  lemma SectionAppended(c: Settings, packing: Packing, open: seq<string>, current: string, s: string)
    requires BuildingSection(c, packing, open, current) && Trimmed(s)
    requires SectionFits(c, open, s)
    ensures BuildingSection(c, packing, open + [s], if current == "" then s else current + BLANK + s)
    ensures current == "" <==> open == []
  {
  }

  lemma SectionFlushed(c: Settings, packing: Packing, open: seq<string>, current: string, s: string)
    requires BuildingSection(c, packing, open, current) && Trimmed(s)
    requires !SectionFits(c, open, s)
    ensures current == "" <==> open == []
    ensures open == [] ==> BuildingSection(c, packing, [s], s)
    ensures open != [] ==> BuildingSection(c, Cut(packing, open, current), [s], s)
  {
    assert Join([s]) == s;
    SectionCut(c, packing, open, current);
  }

  lemma SectionCut(c: Settings, packing: Packing, open: seq<string>, current: string)
    requires BuildingSection(c, packing, open, current)
    ensures current == "" <==> open == []
    ensures open != [] ==> IsSectionPacking(c, Cut(packing, open, current))
  {
    if open != [] {
      JoinTrimmed(open);
      TrimmedStays(current);
    }
  }

  lemma KeptOneMore(sections: seq<string>, i: nat)
    requires i < |sections|
    ensures Kept(sections[..i + 1]) == Kept(sections[..i]) + if TrimSpace(sections[i]) == "" then []
      else [TrimSpace(sections[i])]
  {
    assert sections[..i + 1][..i] == sections[..i];
  }

  /** Per section: what it reads between the white space at its ends is kept, if there is anything. */
  lemma KeptOfSection(sections: seq<string>, i: nat, l: string, t: string, r: string)
    requires i < |sections| && sections[i] == l + t + r
    requires AllSpace(l) && AllSpace(r) && (t == "" || Trimmed(t))
    ensures Kept(sections[..i + 1]) == Kept(sections[..i]) + if t == "" then [] else [t]
  {
    KeptOneMore(sections, i);
    TrimSpaceIs(l, t, r);
  }

  method Semantic(c: Settings, sections: seq<string>) returns (chunks: seq<Chunk>)
    ensures IsSemanticChunking(c, sections, chunks)
    ensures exists blocks :: SectionPartition(c, sections, chunks, blocks)
  {
    chunks := [];
    var current, index := "", 0;
    ghost var packing, open: seq<string> := Nothing, [];
    for i := 0 to |sections|
      invariant index == |chunks| && chunks == ChunksOf(packing)
      invariant ParagraphsOf(packing) + open == Kept(sections[..i])
      invariant BuildingSection(c, packing, open, current)
    {
      var s := TrimSpace(sections[i]);
      KeptOneMore(sections, i);
      TrimSpaceTrims(sections[i]);
      if s == "" {
        continue;
      }
      if ByteLen(current) + ByteLen(s) <= c.size {
        SectionAppended(c, packing, open, current, s);
        Regroup(ParagraphsOf(packing), open, s);
        if current != "" {
          current := current + BLANK;
        }
        current := current + s;
        open := open + [s];
      } else {
        SectionFlushed(c, packing, open, current, s);
        if current != "" {
          packing := Cut(packing, open, current);
          chunks := chunks + [Chunk(index, TrimSpace(current), ApproxTokenCount(current))];
          index := index + 1;
        }
        current := s;
        open := [s];
      }
    }
    assert sections[..|sections|] == sections;
    SectionCut(c, packing, open, current);
    if current != "" {
      packing := Cut(packing, open, current);
      chunks := chunks + [Chunk(index, TrimSpace(current), ApproxTokenCount(current))];
    } else {
      assert ParagraphsOf(packing) + [] == ParagraphsOf(packing);
    }
    SemanticChunksPartition(c, sections, chunks);
  }

  /** What the size test saw of a block: everything but the last separator. */
  function TestedBytes(block: seq<string>): int
    requires block != []
  {
    ByteLen(Join(block[..|block| - 1])) + ByteLen(block[|block| - 1])
  }

  /**
   Chunk `i` is its block joined by blank lines; a block of several sections passed the test without its last
   separator, and the first section of the next block did not pass it.
   */
  ghost predicate SectionReads(c: Settings, blocks: seq<seq<string>>, chunks: seq<Chunk>, i: nat)
    requires |blocks| == |chunks| && i < |blocks|
  {
    && blocks[i] != []
    && chunks[i] == Chunk(i, Join(blocks[i]), |Join(blocks[i])| / 4)
    && (i + 1 < |blocks| ==> blocks[i + 1] != [] && ByteLen(Join(blocks[i])) + ByteLen(blocks[i + 1][0]) > c.size)
    && (|blocks[i]| > 1 ==>
       TestedBytes(blocks[i]) <= c.size && ByteLen(chunks[i].content) == TestedBytes(blocks[i]) + 2)
  }

  lemma {:induction false} EverySectionReads(c: Settings, packing: Packing, i: nat)
    requires IsSectionPacking(c, packing) && i < Count(packing)
    ensures |BlocksOf(packing)| == Count(packing)
    ensures SectionReads(c, BlocksOf(packing), ChunksOf(packing), i)
  {
    LastPlaces(packing);
    if i == Count(packing) - 1 {
      SectionBlockBytes(c, packing.block);
    } else {
      EverySectionReads(c, packing.before, i);
      if i == Count(packing) - 2 {
        LastPlaces(packing.before);
      }
    }
  }

  lemma SectionBlockBytes(c: Settings, block: seq<string>)
    requires SectionsFit(c, block)
    ensures |block| > 1 ==> TestedBytes(block) <= c.size && ByteLen(Join(block)) == TestedBytes(block) + 2
  {
    if |block| > 1 {
      InitAndLast(block);
      JoinAppend(block[..|block| - 1], block[|block| - 1]);
    }
  }

  ghost predicate SectionPartition(c: Settings, sections: seq<string>, chunks: seq<Chunk>, blocks: seq<seq<string>>) {
    && Flatten(blocks) == Kept(sections)
    && |blocks| == |chunks|
    && forall i :: 0 <= i < |blocks| ==> SectionReads(c, blocks, chunks, i)
  }

  /** No section is lost, split or moved, and no block could have taken the next section as well. */
  lemma SemanticChunksPartition(c: Settings, sections: seq<string>, chunks: seq<Chunk>)
    requires IsSemanticChunking(c, sections, chunks)
    ensures exists blocks :: SectionPartition(c, sections, chunks, blocks)
  {
    var packing :| IsSectionPacking(c, packing) && ParagraphsOf(packing) == Kept(sections) && ChunksOf(packing)
      == chunks;
    BlockCount(packing);
    forall i | 0 <= i < |chunks|
      ensures SectionReads(c, BlocksOf(packing), chunks, i)
    {
      EverySectionReads(c, packing, i);
    }
    assert SectionPartition(c, sections, chunks, BlocksOf(packing));
  }

  /** A chunk of several sections exceeds the size exactly when they only fitted without their last separator. */
  lemma SeparatorIsUncounted(c: Settings, blocks: seq<seq<string>>, chunks: seq<Chunk>, i: nat)
    requires |blocks| == |chunks| && i < |blocks| && SectionReads(c, blocks, chunks, i)
    ensures ByteLen(chunks[i].content) > c.size <==>
      if |blocks[i]| == 1 then ByteLen(blocks[i][0]) > c.size else TestedBytes(blocks[i]) > c.size - 2
    ensures ByteLen(chunks[i].content) <= c.size + 2 || |blocks[i]| == 1
  {
  }

  /** The uncounted separator shows: two sections packed together make a chunk two bytes longer than was tested. */
  lemma TwoSectionsTogether(c: Settings, a: string, b: string)
    requires Trimmed(a) && Trimmed(b) && ByteLen(a) + ByteLen(b) <= c.size
    ensures var text := a + BLANK + b;
            && IsSemanticChunking(c, [a, b], [Chunk(0, text, ApproxTokenCount(text))])
            && ByteLen(text) == ByteLen(a) + ByteLen(b) + 2
            && (ByteLen(text) > c.size <==> ByteLen(a) + ByteLen(b) > c.size - 2)
  {
    var text := a + BLANK + b;
    JoinAppend([a], b);
    assert [a] + [b] == [a, b];
    assert [a, b][..1] == [a];
    assert Join([a]) == a;
    assert Join([a, b]) == text;
    assert TestedBytes([a, b]) == ByteLen(a) + ByteLen(b);
    assert SectionFits(c, [a], b);
    assert SectionsFit(c, [a, b]);
    KeptBoth(a, b);
    var packing := More(Nothing, [a, b], Chunk(0, text, ApproxTokenCount(text)));
    assert Count(Nothing) == 0 && IsSectionPacking(c, Nothing);
    assert ParagraphsOf(packing) == [a, b];
    assert ChunksOf(packing) == [packing.chunk];
    assert IsSectionPacking(c, packing);
  }

  lemma KeptBoth(a: string, b: string)
    requires Trimmed(a) && Trimmed(b)
    ensures Kept([a, b]) == [a, b]
  {
    TrimmedStays(a);
    TrimmedStays(b);
    assert [a, b][..1] == [a] && [a][..0] == [];
    assert Kept([a]) == [a];
  }

  lemma {:induction false} BytesOfLetters(n: nat)
    ensures ByteLen(seq(n, _ => 'a')) == n
  {
    if n == 0 {
    } else {
      assert seq(n, _ => 'a')[1..] == seq(n - 1, _ => 'a');
      BytesOfLetters(n - 1);
    }
  }

  /** With sections that fit alone, every chunk fits. */
  ghost predicate KeepsSize(c: Settings) {
    forall sections, chunks: seq<Chunk>, i ::
      IsSemanticChunking(c, sections, chunks) && 0 <= i < |chunks| && AllFit(c, Kept(sections)) ==>
        ByteLen(chunks[i].content) <= c.size
  }

  ghost predicate AllFit(c: Settings, sections: seq<string>) {
    forall i :: 0 <= i < |sections| ==> ByteLen(sections[i]) <= c.size
  }

  lemma ByteLenPositive(s: string)
    requires s != ""
    ensures ByteLen(s) >= 1
  {
  }

  /** A section at most as large as the size, next to one of a single letter, makes a chunk that is too large. */
  lemma SizeIsExceeded(c: Settings)
    requires c.size >= 2
    ensures !KeepsSize(c)
  {
    var a, b := "a", seq(c.size - 1, _ => 'a');
    BytesOfLetters(c.size - 1);
    BytesOfLetters(1);
    assert a == seq(1, _ => 'a');
    assert Trimmed(a) && Trimmed(b);
    TwoSectionsTogether(c, a, b);
    KeptBoth(a, b);
    var text := a + BLANK + b;
    var chunks := [Chunk(0, text, ApproxTokenCount(text))];
    assert IsSemanticChunking(c, [a, b], chunks) && AllFit(c, Kept([a, b]));
    assert ByteLen(chunks[0].content) > c.size;
  }

  lemma {:induction false} SectionsOfChunks(c: Settings, packing: Packing, i: nat)
    requires IsSectionPacking(c, packing) && AllTrimmed(ParagraphsOf(packing)) && AllFit(c, ParagraphsOf(packing))
    requires c.size < 2 && i < Count(packing)
    ensures ByteLen(ChunksOf(packing)[i].content) <= c.size
  {
    PartsFit(c, ParagraphsOf(packing.before), packing.block);
    if i == Count(packing) - 1 {
      LoneSection(c, packing.block);
    } else {
      SectionsOfChunks(c, packing.before, i);
    }
  }

  lemma PartsFit(c: Settings, a: seq<string>, b: seq<string>)
    requires AllTrimmed(a + b) && AllFit(c, a + b)
    ensures AllTrimmed(a) && AllFit(c, a) && AllTrimmed(b) && AllFit(c, b)
  {
    assert forall k :: 0 <= k < |a| ==> (a + b)[k] == a[k];
    assert forall k :: 0 <= k < |b| ==> (a + b)[|a| + k] == b[k];
  }

  /** Every section has a byte at least. */
  lemma TwoBytes(block: seq<string>)
    requires |block| > 1 && AllTrimmed(block)
    ensures TestedBytes(block) >= 2
  {
    var init := block[..|block| - 1];
    assert AllTrimmed(init);
    JoinTrimmed(init);
    ByteLenPositive(Join(init));
    ByteLenPositive(block[|block| - 1]);
  }

  /** Two sections never fit into a size of less than two. */
  lemma LoneSection(c: Settings, block: seq<string>)
    requires SectionsFit(c, block) && c.size < 2 && AllTrimmed(block) && AllFit(c, block)
    ensures ByteLen(Join(block)) <= c.size
  {
    if |block| > 1 {
      TwoBytes(block);
    }
  }

  lemma {:induction false} KeptTrimmed(sections: seq<string>)
    ensures AllTrimmed(Kept(sections))
  {
    if sections == [] {
    } else {
      KeptTrimmed(sections[..|sections| - 1]);
      TrimSpaceTrims(sections[|sections| - 1]);
    }
  }

  /** The size is a bound on all chunks, for all sections that fit alone, only where nothing can be packed. */
  lemma SizeKeptIff(c: Settings)
    ensures KeepsSize(c) <==> c.size < 2
  {
    if c.size >= 2 {
      SizeIsExceeded(c);
    } else {
      forall sections, chunks: seq<Chunk>, i |
        IsSemanticChunking(c, sections, chunks) && 0 <= i < |chunks| && AllFit(c, Kept(sections))
        ensures ByteLen(chunks[i].content) <= c.size
      {
        var packing :|
          IsSectionPacking(c, packing) && ParagraphsOf(packing) == Kept(sections) && ChunksOf(packing) == chunks;
        KeptTrimmed(sections);
        SectionsOfChunks(c, packing, i);
      }
    }
  }

  // ---- The entry point -----------------------------------------------------------------------

  /** The two regular-expression splits, of which only the first has a contract. */
  datatype Splitter = Splitter(paragraphs: string -> seq<string>, sections: string -> seq<string>)

  method ChunkContent(c: Settings, content: string, split: Splitter) returns (r: ChunkResult)
    requires forall s :: AllTrimmed(split.paragraphs(s))
    requires c.strategy == "fixed" && content != "" && ByteLen(content) <= MAX_BYTES ==> 0 <= c.overlap < c.size
    ensures r.TooLarge? <==> ByteLen(content) > 10_485_760
    ensures r.Chunks? && content == "" ==> r.chunks == []
    ensures r.Chunks? && content != "" ==>
      match c.strategy
      case "fixed" => IsFixedChunking(c, content, r.chunks)
      case "semantic" => IsSemanticChunking(c, split.sections(content), r.chunks)
      case _ => IsRecursiveChunking(c, split.paragraphs(content), r.chunks)
  {
    if ByteLen(content) > MAX_BYTES {
      return TooLarge;
    }
    var chunks := [];
    if c.strategy == "fixed" {
      chunks := FixedSize(c, content);
    } else if content == "" {
    } else if c.strategy == "semantic" {
      chunks := Semantic(c, split.sections(content));
    } else {
      chunks := Recursive(c, split.paragraphs(content));
    }
    r := Chunks(chunks);
  }
}
