/**
 * The book's long-term memory: finished chapters are cut into overlapping
 * windows of words, each window is embedded, and the vectors go into a
 * nearest-neighbour index whose entries line up with a list of
 * {chapter, content} records. Embedding and index search are foreign
 * services, given to the model as functions.
 */
module SemanticMemory {
  import opened Wrappers
  import Text

  /** Words per chunk and words shared by consecutive chunks (`_split_text`'s defaults). */
  const ChunkSize: nat := 400
  const Overlap: nat := 50
  /** How far each chunk starts after the previous one. */
  const Stride: nat := 350

  /** Neighbours asked for by `search_relevant_context`. */
  const SearchK: nat := 4

  /** What a search answers when the memory cannot help. */
  const NoContext: string := "No hay contexto disponible en la memoria a largo plazo."

  /** What separates the retrieved chunks. */
  const Separator: string := "\n\n---\n\n"

  type Vector = seq<real>

  /** One metadata record: the chapter a chunk came from, and the chunk. */
  datatype ChunkMeta = ChunkMeta(chapter: int, content: string)

  /** The index and metadata files found on disk at start-up. */
  datatype Stored = Stored(vectors: seq<Vector>, records: seq<ChunkMeta>)

  function Min(a: int, b: int): int {
    if a <= b then a else b
  }

  // ---------------------------------------------------------------- the chunk layout

  /** How many windows a text of `w` words is cut into: one every `Stride` words. */
  function ChunkCount(w: nat): nat {
    (w + Stride - 1) / Stride
  }

  /** Chunk `k` starts inside the text. */
  lemma ChunkStartsInside(w: nat, k: nat)
    requires k < ChunkCount(w)
    ensures Stride * k < w
  {
    var n := ChunkCount(w);
    assert Stride * n <= w + Stride - 1;
    assert Stride * k <= Stride * (n - 1);
  }

  /** The words of chunk `k`: up to `ChunkSize` words from word `Stride * k` on. */
  function ChunkWords(words: seq<string>, k: nat): seq<string>
    requires k < ChunkCount(|words|)
  {
    ChunkStartsInside(|words|, k);
    words[Stride * k..Min(Stride * k + ChunkSize, |words|)]
  }

  /** The chunk texts of a word sequence. */
  function ChunkTexts(words: seq<string>): (cs: seq<string>)
    ensures |cs| == ChunkCount(|words|)
  {
    seq(ChunkCount(|words|), k requires 0 <= k < ChunkCount(|words|) => Text.Join(" ", ChunkWords(words, k)))
  }

  /** The number of chunks is the ceiling of words / 350: the last chunk starts inside the text. */
  lemma ChunkCountIsCeiling(w: nat)
    requires w > 0
    ensures ChunkCount(w) >= 1
    ensures Stride * (ChunkCount(w) - 1) < w <= Stride * ChunkCount(w)
  {
  }

  /** Each chunk starts at word 350·k, is not empty and holds at most 400 words; only a chunk near the end is shorter. */
  lemma ChunkLayout(words: seq<string>, k: nat)
    requires k < ChunkCount(|words|)
    ensures 1 <= |ChunkWords(words, k)| <= ChunkSize
    ensures ChunkWords(words, k) == words[Stride * k..Stride * k + |ChunkWords(words, k)|]
    ensures |ChunkWords(words, k)| < ChunkSize ==> Stride * k + |ChunkWords(words, k)| == |words|
  {
  }

  /** Consecutive chunks share 50 words: the tail of a full chunk is the head of the next one. */
  lemma ChunksOverlap(words: seq<string>, k: nat)
    requires k + 1 < ChunkCount(|words|)
    requires Stride * k + ChunkSize <= |words|
    ensures ChunkWords(words, k)[Stride..] == ChunkWords(words, k + 1)[..Overlap]
  {
    ChunkStartsInside(|words|, k + 1);
    var a := ChunkWords(words, k);
    var b := ChunkWords(words, k + 1);
    assert a == words[Stride * k..Stride * k + ChunkSize];
    assert Stride * (k + 1) == Stride * k + Stride;
    assert |b| >= Overlap;
    assert forall i :: 0 <= i < Overlap ==> a[Stride + i] == words[Stride * k + Stride + i] == b[i];
  }

  /** Each chunk, split on whitespace again, gives back exactly the words of its window. */
  lemma ChunkWordsRoundTrip(text: string, k: nat)
    requires k < |ChunkTexts(Text.Words(text))|
    ensures Text.Words(ChunkTexts(Text.Words(text))[k]) == ChunkWords(Text.Words(text), k)
  {
    var words := Text.Words(text);
    var c := ChunkWords(words, k);
    ChunkStartsInside(|words|, k);
    assert forall i :: 0 <= i < |c| ==> c[i] == words[Stride * k + i];
    Text.WordsOfJoin(c);
  }

  /** Blank text has no chunks, and text with a word has at least one. */
  lemma NoChunksIffBlank(text: string)
    ensures ChunkTexts(Text.Words(text)) == [] <==> Text.IsBlank(text)
  {
  }

  /** The first `Stride` words of a chunk (all of it when shorter): the part no other chunk starts with. */
  function Head(words: seq<string>, k: nat): seq<string>
    requires k < ChunkCount(|words|)
  {
    var c := ChunkWords(words, k);
    c[..Min(Stride, |c|)]
  }

  lemma HeadSlice(words: seq<string>, k: nat)
    requires k < ChunkCount(|words|)
    ensures Stride * k < |words|
    ensures Head(words, k) == words[Stride * k..Min(Stride * k + Stride, |words|)]
  {
    ChunkStartsInside(|words|, k);
  }

  /** The heads of the first `m` chunks. */
  function Heads(words: seq<string>, m: nat): (hs: seq<seq<string>>)
    requires m <= ChunkCount(|words|)
    ensures |hs| == m
    ensures forall k :: 0 <= k < m ==> hs[k] == Head(words, k)
  {
    if m == 0 then [] else Heads(words, m - 1) + [Head(words, m - 1)]
  }

  function Concat(xss: seq<seq<string>>): seq<string> {
    if xss == [] then [] else Concat(xss[..|xss| - 1]) + xss[|xss| - 1]
  }

  lemma SlicesJoin(words: seq<string>, a: nat, b: nat)
    requires a <= b <= |words|
    ensures words[..a] + words[a..b] == words[..b]
  {
  }

  lemma {:induction false} HeadsPrefix(words: seq<string>, m: nat)
    requires m <= ChunkCount(|words|)
    ensures Concat(Heads(words, m)) == words[..Min(Stride * m, |words|)]
  {
    if m > 0 {
      assert Concat(Heads(words, m)) == Concat(Heads(words, m - 1)) + Head(words, m - 1) by {
        assert Heads(words, m)[..m - 1] == Heads(words, m - 1);
      }
      HeadsPrefix(words, m - 1);
      HeadSlice(words, m - 1);
      var start := Stride * (m - 1);
      assert Stride * m == start + Stride;
      SlicesJoin(words, start, Min(start + Stride, |words|));
    }
  }

  /** Coverage: the heads of the chunks, in order, are exactly the text's words. */
  lemma ChunksCover(words: seq<string>)
    ensures Concat(Heads(words, ChunkCount(|words|))) == words
  {
    var n := ChunkCount(|words|);
    HeadsPrefix(words, n);
    if |words| > 0 {
      ChunkCountIsCeiling(|words|);
    }
    assert Min(Stride * n, |words|) == |words|;
    assert words[..|words|] == words;
  }

  /**
   * `_split_text`: the text's words, in windows of 400 starting every 350
   * words, each window joined with single spaces.
   */
  method SplitText(text: string) returns (chunks: seq<string>)
    ensures chunks == ChunkTexts(Text.Words(text))
  {
    if |text| == 0 {
      return [];
    }
    var words := Text.Words(text);
    if |words| == 0 {
      return [];
    }
    chunks := [];
    var i := 0;
    while i < |words|
      invariant i == Stride * |chunks|
      invariant |chunks| <= ChunkCount(|words|)
      invariant i < |words| ==> |chunks| < ChunkCount(|words|)
      invariant forall k :: 0 <= k < |chunks| ==> chunks[k] == Text.Join(" ", ChunkWords(words, k))
      decreases |words| - i
    {
      var end := i + ChunkSize;
      var chunkWords := words[i..Min(end, |words|)];
      chunks := chunks + [Text.Join(" ", chunkWords)];
      i := i + ChunkSize - Overlap;
    }
  }

  // ---------------------------------------------------------------- the memory

  /** The metadata records of a chapter's chunks, in chunk order. */
  function Records(chapter: int, chunks: seq<string>): (rs: seq<ChunkMeta>)
    ensures |rs| == |chunks|
    ensures forall k :: 0 <= k < |chunks| ==> rs[k] == ChunkMeta(chapter, chunks[k])
  {
    if chunks == [] then [] else Records(chapter, chunks[..|chunks| - 1]) + [ChunkMeta(chapter, chunks[|chunks| - 1])]
  }

  /** Python's `xs[i]` for a list of length `n`: negative indices count from the end. */
  predicate ValidIndex(i: int, n: nat) {
    -(n as int) <= i < n
  }

  function PyIndex(i: int, n: nat): (j: nat)
    requires ValidIndex(i, n)
    ensures j < n
  {
    if i < 0 then i + n else i
  }

  /**
   * The semantic memory of one project. `embed` is the embedding service
   * (None when the call raises); `nearest` is the index search, giving the ids
   * of the nearest vectors in order, -1 where the index has fewer than asked.
   */
  class Memory {
    /** Whether the embedding service answered at start-up. */
    const available: bool
    const embed: string -> Option<Vector>
    const nearest: (seq<Vector>, Vector, nat) -> seq<int>
    var index: Option<seq<Vector>>
    var metadata: seq<ChunkMeta>

    function Embed(s: string): Option<Vector> {
      embed(s)
    }

    function Nearest(vectors: seq<Vector>, q: Vector, k: nat): seq<int> {
      nearest(vectors, q, k)
    }

    /** The index holds one vector per metadata record. */
    predicate Aligned()
      reads this
    {
      |index.GetOr([])| == |metadata|
    }

    /** The memory cannot answer a search: no index, no service, or an empty index. */
    predicate Degraded()
      reads this
    {
      index.None? || !available || |index.value| == 0
    }

    /** Start-up: the stored index and records are loaded only when the service is available and they exist. */
    constructor (available: bool, stored: Option<Stored>,
                 embed: string -> Option<Vector>, nearest: (seq<Vector>, Vector, nat) -> seq<int>)
      ensures this.available == available && this.embed == embed && this.nearest == nearest
      ensures available && stored.Some? ==> index == Some(stored.value.vectors) && metadata == stored.value.records
      ensures !(available && stored.Some?) ==> index == None && metadata == []
      ensures (stored.Some? ==> |stored.value.vectors| == |stored.value.records|) ==> Aligned()
    {
      this.available := available;
      this.embed := embed;
      this.nearest := nearest;
      if available && stored.Some? {
        index := Some(stored.value.vectors);
        metadata := stored.value.records;
      } else {
        index := None;
        metadata := [];
      }
    }

    /** Every chunk can be embedded. */
    predicate Embeddable(chunks: seq<string>) {
      forall k :: 0 <= k < |chunks| ==> Embed(chunks[k]).Some?
    }

    function Embeddings(chunks: seq<string>): (vs: seq<Vector>)
      requires Embeddable(chunks)
      ensures |vs| == |chunks|
    {
      seq(|chunks|, k requires 0 <= k < |chunks| => Embed(chunks[k]).value)
    }

    /** The embedding loop of `add_chapter`: one call per chunk, in order; the first failure propagates. */
    method EmbedAll(chunks: seq<string>) returns (r: Option<seq<Vector>>)
      ensures r.Some? <==> Embeddable(chunks)
      ensures r.Some? ==> r.value == Embeddings(chunks)
    {
      var embeddings: seq<Vector> := [];
      var i := 0;
      while i < |chunks|
        invariant 0 <= i <= |chunks|
        invariant |embeddings| == i
        invariant forall k :: 0 <= k < i ==> Embed(chunks[k]).Some? && embeddings[k] == Embed(chunks[k]).value
      {
        var response := Embed(chunks[i]);
        if response.None? {
          return None;
        }
        embeddings := embeddings + [response.value];
        i := i + 1;
      }
      return Some(embeddings);
    }

    /** The metadata loop of `add_chapter`: one record per chunk, appended in order. */
    method AppendRecords(chapter: int, chunks: seq<string>)
      modifies this
      ensures metadata == old(metadata) + Records(chapter, chunks)
      ensures index == old(index)
    {
      var i := 0;
      while i < |chunks|
        invariant 0 <= i <= |chunks|
        invariant index == old(index)
        invariant metadata == old(metadata) + Records(chapter, chunks[..i])
      {
        assert chunks[..i + 1][..i] == chunks[..i];
        metadata := metadata + [ChunkMeta(chapter, chunks[i])];
        i := i + 1;
      }
      assert chunks[..i] == chunks;
    }

    /**
     * `add_chapter`: nothing happens when the service is unavailable or the
     * text has no words; an embedding failure propagates before anything
     * changes; otherwise one vector and one record per chunk are appended,
     * in chunk order, creating the index if there was none.
     */
    method AddChapter(chapter: int, text: string) returns (r: Result<()>)
      modifies this
      ensures !available || ChunkTexts(Text.Words(text)) == [] ==>
        r == Ok(()) && index == old(index) && metadata == old(metadata)
      ensures available && ChunkTexts(Text.Words(text)) != [] && !Embeddable(ChunkTexts(Text.Words(text))) ==>
        r == Raise(ServiceError) && index == old(index) && metadata == old(metadata)
      ensures var chunks := ChunkTexts(Text.Words(text));
        available && chunks != [] && Embeddable(chunks) ==>
        r == Ok(()) &&
        index == Some(old(index).GetOr([]) + Embeddings(chunks)) &&
        metadata == old(metadata) + Records(chapter, chunks)
      ensures old(Aligned()) ==> Aligned()
      ensures available && ChunkTexts(Text.Words(text)) != [] && r.Ok? ==> !Degraded()
    {
      if !available {
        return Ok(());
      }
      var chunks := SplitText(text);
      if chunks == [] {
        return Ok(());
      }
      var embeddings := EmbedAll(chunks);
      if embeddings.None? {
        return Raise(ServiceError);
      }
      if index.None? {
        index := Some([]);
      }
      assert index.value == old(index).GetOr([]);
      index := Some(index.value + embeddings.value);
      AppendRecords(chapter, chunks);
      r := Ok(());
    }

    /** The contents of the records the ids point at, in search order. */
    function Retrieved(ids: seq<int>): (cs: seq<string>)
      requires forall k :: 0 <= k < |ids| ==> ValidIndex(ids[k], |metadata|)
      reads this
      ensures |cs| == |ids|
    {
      var records := metadata;
      seq(|ids|, k requires 0 <= k < |ids| => records[PyIndex(ids[k], |records|)].content)
    }

    /**
     * `search_relevant_context`: the placeholder in degraded mode; otherwise
     * the records of the four nearest chunks joined with the separator. An
     * embedding failure or an id outside the records raises.
     */
    function Search(query: string): (r: Result<string>)
      reads this
      ensures Degraded() ==> r == Ok(NoContext)
      ensures !Degraded() && Embed(query).None? ==> r == Raise(ServiceError)
      ensures !Degraded() && Embed(query).Some? ==>
        var ids := Nearest(index.value, Embed(query).value, SearchK);
        if forall k :: 0 <= k < |ids| ==> ValidIndex(ids[k], |metadata|) then
          r.Ok? && (ids != [] ==> r.value == Text.Join(Separator, Retrieved(ids))) && (ids == [] ==> r.value == "")
        else r == Raise(IndexError)
    {
      if Degraded() then Ok(NoContext)
      else match Embed(query)
        case None => Raise(ServiceError)
        case Some(q) =>
          var ids := Nearest(index.value, q, SearchK);
          if forall k :: 0 <= k < |ids| ==> ValidIndex(ids[k], |metadata|) then Ok(Text.Join(Separator, Retrieved(ids)))
          else Raise(IndexError)
    }
  }

  /**
   * The padding id -1 that the index returns when it holds fewer vectors than
   * asked for reads, by Python's negative indexing, the last record: that
   * chunk is returned again in place of a missing neighbour.
   */
  lemma PaddingRepeatsLastRecord(m: Memory, ids: seq<int>, k: nat)
    requires forall j :: 0 <= j < |ids| ==> ValidIndex(ids[j], |m.metadata|)
    requires k < |ids| && ids[k] == -1
    ensures m.Retrieved(ids)[k] == m.metadata[|m.metadata| - 1].content
  {
  }
}
