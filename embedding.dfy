/**
 The document embedding pipeline of `embedding::embed`: split the text into
 chunks, embed every chunk on its own, weigh each chunk by its length in
 UTF-8 bytes, and aggregate with `mean`.

 The splitter and the embedding backend are opaque and are passed in: the
 splitter as a function from text to chunks, the backend as whether its
 model files load and the function it applies to a batch of texts.
 */
module Embedding {
  import opened Sums
  import opened VectorMean

  /** What the inference backend returns for a batch of texts. */
  datatype Inference = Embeddings(vectors: seq<Vector>) | InferenceError

  /** The embedding backend: whether `get_model` succeeds, and the model's
      `embed` applied to a batch. */
  datatype Backend = Backend(loads: bool, infer: seq<string> -> Inference)

  /** What `embed_a_chunk` does: return `Ok(vector)`, return `Err` because
      the model could not be loaded, or panic inside itself. */
  datatype ChunkOutcome =
    | ChunkVector(v: Vector)  // `Ok(embedding[0].to_vec())`
    | ModelLoadError          // `get_model()?` returned an error
    | InferencePanic          // `.unwrap()` on a failed inference
    | OutputIndexPanic        // `embedding[0]` on an empty output

  /** What mapping `embed_a_chunk(s).unwrap()` over the chunks does: every
      chunk embedded, or a panic at the first chunk that failed. */
  datatype Batch = AllEmbedded(vectors: seq<Vector>) | ChunkFailed(index: nat)

  /** What `embed` does: a panic while embedding chunk `index`, or whatever
      `mean` does with the chunk vectors and weights. */
  datatype EmbedOutcome = ChunkPanic(index: nat) | Aggregated(outcome: MeanOutcome)

  /** The number of bytes UTF-8 uses to encode `c`. */
  function Utf8Width(c: char): nat
  {
    if c as int < 0x80 then 1
    else if c as int < 0x800 then 2
    else if c as int < 0x1_0000 then 3
    else 4
  }

  /** `str::len`: the length of `s` in UTF-8 bytes. It lies between the
      number of characters and four times that, and equals the number of
      characters exactly when every character is ASCII. */
  function Utf8Length(s: string): (n: nat)
    ensures |s| <= n <= 4 * |s|
    ensures n == |s| <==> forall i :: 0 <= i < |s| ==> s[i] as int < 0x80
  {
    if |s| == 0 then 0
    else
      assert forall i :: 1 <= i < |s| ==> s[1..][i - 1] == s[i];
      Utf8Width(s[0]) + Utf8Length(s[1..])
  }

  /** `embed_a_chunk(text)`: a batch of one text is submitted, and element
      0 of the output is returned. */
  function EmbedAChunk(text: string, backend: Backend): (r: ChunkOutcome)
    ensures r.ChunkVector? <==>
      backend.loads && backend.infer([text]).Embeddings? && |backend.infer([text]).vectors| > 0
    ensures r.ChunkVector? ==> r.v == backend.infer([text]).vectors[0]
    ensures !backend.loads ==> r == ModelLoadError
    ensures backend.loads && backend.infer([text]).InferenceError? ==> r == InferencePanic
    ensures backend.loads && backend.infer([text]).Embeddings? && |backend.infer([text]).vectors| == 0 ==>
      r == OutputIndexPanic
  {
    if !backend.loads then ModelLoadError
    else
      match backend.infer([text])
      case InferenceError => InferencePanic
      case Embeddings(out) => if |out| == 0 then OutputIndexPanic else ChunkVector(out[0])
  }

  /** `chunks.iter().map(|s| embed_a_chunk(s).unwrap()).collect()`: the
      `i`-th vector is the `i`-th chunk's, and the first chunk that fails
      stops the whole batch. */
  function EmbedChunks(chunks: seq<string>, backend: Backend): (b: Batch)
    ensures b.AllEmbedded? <==>
      forall i :: 0 <= i < |chunks| ==> EmbedAChunk(chunks[i], backend).ChunkVector?
    ensures b.AllEmbedded? ==>
      && |b.vectors| == |chunks|
      && forall i :: 0 <= i < |chunks| ==> b.vectors[i] == EmbedAChunk(chunks[i], backend).v
    ensures b.ChunkFailed? ==>
      && b.index < |chunks|
      && !EmbedAChunk(chunks[b.index], backend).ChunkVector?
      && forall i :: 0 <= i < b.index ==> EmbedAChunk(chunks[i], backend).ChunkVector?
  {
    if |chunks| == 0 then AllEmbedded([])
    else
      match EmbedAChunk(chunks[0], backend)
      case ChunkVector(v) =>
        (match EmbedChunks(chunks[1..], backend)
         case AllEmbedded(vs) => AllEmbedded([v] + vs)
         case ChunkFailed(k) => ChunkFailed(k + 1))
      case _ => ChunkFailed(0)
  }

  /** `chunks.iter().map(|s| s.len() as f32).collect()`: one weight per
      chunk, in chunk order, each its length in UTF-8 bytes. */
  function ChunkWeights(chunks: seq<string>): (w: seq<real>)
    ensures |w| == |chunks|
    ensures forall i :: 0 <= i < |chunks| ==> w[i] == Utf8Length(chunks[i]) as real
    ensures forall i :: 0 <= i < |chunks| ==> |chunks[i]| as real <= w[i] && (w[i] == 0.0 <==> chunks[i] == "")
  {
    seq(|chunks|, i requires 0 <= i < |chunks| => Utf8Length(chunks[i]) as real)
  }

  /** `embed(text)`: split, embed every chunk, weigh, aggregate. */
  function Embed(text: string, split: string -> seq<string>, backend: Backend): (r: EmbedOutcome)
    ensures r.Aggregated? ==>
      forall i :: 0 <= i < |split(text)| ==> EmbedAChunk(split(text)[i], backend).ChunkVector?
    ensures r.ChunkPanic? ==>
      r.index < |split(text)| && !EmbedAChunk(split(text)[r.index], backend).ChunkVector?
  {
    var chunks := split(text);
    match EmbedChunks(chunks, backend)
    case ChunkFailed(i) => ChunkPanic(i)
    case AllEmbedded(vs) => Aggregated(Mean(vs, ChunkWeights(chunks)))
  }

  /** The total weight is never negative, and it is zero exactly when every
      chunk is the empty string. */
  lemma {:induction false} ChunkWeightTotal(chunks: seq<string>)
    ensures Sum(ChunkWeights(chunks)) >= 0.0
    ensures Sum(ChunkWeights(chunks)) == 0.0 <==> forall i :: 0 <= i < |chunks| ==> chunks[i] == ""
  {
    if |chunks| > 0 {
      ChunkWeightTotal(chunks[1..]);
      assert ChunkWeights(chunks)[1..] == ChunkWeights(chunks[1..]);
      assert forall i :: 1 <= i < |chunks| ==> chunks[1..][i - 1] == chunks[i];
    }
  }

  /** Element 0 of the backend's output for the one-element batch [text],
      or the empty vector when there is none. */
  function FirstOutput(text: string, backend: Backend): Vector
  {
    match backend.infer([text])
    case Embeddings(out) => if |out| > 0 then out[0] else []
    case InferenceError => []
  }

  /** The backend loads, and for every chunk it returns at least one vector,
      the first of which has `dim` entries. */
  predicate EmbedsWithDimension(backend: Backend, chunks: seq<string>, dim: nat)
  {
    && backend.loads
    && forall i :: 0 <= i < |chunks| ==>
         && backend.infer([chunks[i]]).Embeddings?
         && |backend.infer([chunks[i]]).vectors| > 0
         && |backend.infer([chunks[i]]).vectors[0]| == dim
  }

  /** A text that splits into no chunks makes `embed` panic at
      `embeddings[0]`, whatever the backend: no chunk is embedded, so the
      model is never loaded. */
  lemma EmbedOfNoChunks(text: string, split: string -> seq<string>, backend: Backend)
    requires split(text) == []
    ensures Embed(text, split, backend) == Aggregated(Panicked(IndexOutOfBounds))
  {
  }

  /** What `embed` returns for a backend of fixed dimension `dim` on a text
      with at least one chunk (see `EmbedOfNoChunks` for none): it panics
      on `dim == 0`; it returns
      non-finite entries when every chunk is empty; otherwise it returns a
      `dim`-entry vector whose entry `j` is the byte-length-weighted mean of
      entry `j` of the chunk vectors. Within the pipeline the source's
      aggregator and the corrected one agree. */
  lemma EmbedOfFixedDimension(text: string, split: string -> seq<string>, backend: Backend, dim: nat)
    requires EmbedsWithDimension(backend, split(text), dim)
    ensures split(text) != [] && dim == 0 ==>
      Embed(text, split, backend) == Aggregated(Panicked(ComputeMeanFailed))
    ensures split(text) != [] && dim > 0 && (forall i :: 0 <= i < |split(text)| ==> split(text)[i] == "") ==>
      Embed(text, split, backend) == Aggregated(NonFinite)
    ensures split(text) != [] ==>
      Embed(text, split, backend) ==
        Aggregated(CheckedMean(EmbedChunks(split(text), backend).vectors, ChunkWeights(split(text))))
    ensures dim > 0 && (exists i :: 0 <= i < |split(text)| && split(text)[i] != "") ==>
      && Embed(text, split, backend).Aggregated?
      && Embed(text, split, backend).outcome.Averaged?
      && |Embed(text, split, backend).outcome.v| == dim
      && forall j :: 0 <= j < dim ==>
           Embed(text, split, backend).outcome.v[j] ==
             ColumnSum(ChunkVectors(split(text), backend), ChunkWeights(split(text)), j)
               / Sum(ChunkWeights(split(text)))
  {
    var chunks := split(text);
    var b := EmbedChunks(chunks, backend);
    assert b.AllEmbedded?;
    var vs, w := b.vectors, ChunkWeights(chunks);
    assert vs == ChunkVectors(chunks, backend);
    assert Uniform(vs, dim);
    ChunkWeightTotal(chunks);
    if chunks != [] {
      MeanOfUniformRows(vs, w);
    }
  }

  /** The vectors `embed` averages when every chunk embeds: element 0 of
      the backend's output for each chunk, in chunk order. */
  function ChunkVectors(chunks: seq<string>, backend: Backend): seq<Vector>
  {
    seq(|chunks|, i requires 0 <= i < |chunks| => FirstOutput(chunks[i], backend))
  }

  /** A chunk that fails to embed means `embed` panics: at that chunk or at
      an earlier one, and never with a vector. */
  lemma EmbedAbortsOnChunkFailure(text: string, split: string -> seq<string>, backend: Backend, k: nat)
    requires k < |split(text)| && !EmbedAChunk(split(text)[k], backend).ChunkVector?
    ensures Embed(text, split, backend).ChunkPanic?
    ensures Embed(text, split, backend).index <= k
  {
  }

  /** A text that splits into one non-empty chunk embeds to exactly that
      chunk's vector. */
  lemma EmbedOfOneChunk(text: string, split: string -> seq<string>, backend: Backend, dim: nat)
    requires |split(text)| == 1 && split(text)[0] != ""
    requires dim > 0 && EmbedsWithDimension(backend, split(text), dim)
    ensures Embed(text, split, backend) == Aggregated(Averaged(FirstOutput(split(text)[0], backend)))
  {
    var c := split(text)[0];
    var vs := EmbedChunks(split(text), backend).vectors;
    assert vs == [FirstOutput(c, backend)];
    assert ChunkWeights(split(text)) == [Utf8Length(c) as real];
    MeanOfOne(FirstOutput(c, backend), Utf8Length(c) as real);
  }
}
