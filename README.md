# Document embedding: chunk-vector aggregation, modelled in Dafny

This project models the core of a small vector-search service. The service
reduces a text of any length to one fixed-dimension vector. It splits the text
into chunks and embeds each chunk with a sentence-embedding model (384 entries
for all-MiniLM-L6-v2). It then combines the chunk vectors into one document
vector: the mean of the chunk vectors, weighted by each chunk's length.

Both core files are pure, so both are modelled as functions and lemmas.

- `sums.dfy` (module `Sums`): finite sums of reals. Holds the proof that a sum
  does not depend on the order of its terms.
- `vector_mean.dfy` (module `VectorMean`): `vector_mean::mean`. It flattens the
  chunk vectors into one buffer and reshapes the buffer into an `n x d` matrix.
  `d` is the length of the first vector. It then takes the weighted mean down
  the rows. Each way the function can panic is an explicit outcome
  (`MeanOutcome.Panicked`), in the order the source meets them:
  - no vectors (`embeddings[0]`);
  - a buffer that does not hold exactly `n*d` entries (`from_shape_vec`);
  - an empty matrix, or a weight count other than `n` (`weighted_mean_axis`).

  Weights that sum to zero give the outcome `NonFinite`. The source does not
  panic there: every entry becomes a division by zero.
- `embedding.dfy` (module `Embedding`): `embedding::embed` and
  `embed_a_chunk`. The splitter and the embedding backend cannot be seen here,
  so they are parameters:
  - the splitter is a function from text to chunks;
  - the backend is a `Backend` value, saying whether `get_model` succeeds and
    giving the function the model applies to a batch of texts.

Components and weights are `real`. A chunk's weight is its length in UTF-8
bytes (`str::len`), written out in `Utf8Length`.

Facts about the code that the model keeps:
- `embed` has no empty-text fallback: text that splits into no chunks makes it
  panic at `embeddings[0]`, whatever the backend. See `EmbedOfNoChunks`.
- Weights are byte lengths, not character counts. `Utf8Length` states how the
  two differ.
- A zero total weight is not rejected. It gives non-finite entries.
- Vectors of different lengths are rejected only when their total length
  differs from `n*d` (see Findings).

`src/main.rs:94-99` calls `embedding::embed` with four arguments: the text, the
model, the tokenizer and the chunk token cap. `src/embedding.rs:6` defines
`embed` with one argument, the text. The model follows `embedding.rs`. That
version calls module functions (`splitter::split`, and
`embedding_model_factory::get_model` inside `embed_a_chunk`) that load their
files from disk on every call. The model passes the splitter and the backend
in as parameters instead.

## Model

| member | source | states |
|---|---|---|
| `Sums.SumByPermutation` | src/vector_mean.rs:20-22 | a weighted sum over reals is the same for any reordering of its terms (multiset equality of the terms) |
| `VectorMean.Flatten` | src/vector_mean.rs:15 | the flattened buffer holds as many entries as all rows together |
| `VectorMean.TotalLengthUniform` | src/vector_mean.rs:14-16 | `n` rows of `d` entries hold `n*d` entries in all |
| `VectorMean.Reshape` | src/vector_mean.rs:16-17 | reshaping a buffer of `n*d` entries gives `n` rows of `d` entries each |
| `VectorMean.ReshapeIndex` | src/vector_mean.rs:16-17 | row-major index law of the reshape: entry `(i, j)` is buffer entry `i*d + j`, which is in range |
| `VectorMean.ReshapeFlatten` | src/vector_mean.rs:14-17 | round trip: flattening rows of one common length `d` and reshaping to `n x d` gives back the rows |
| `VectorMean.FlattenReshape` | src/vector_mean.rs:15-17 | round trip: reshaping a buffer and flattening the result gives back the buffer |
| `VectorMean.FlattenIndex` | src/vector_mean.rs:14-16 | for rows of length `d`, the buffer has `n*d` entries and `flat[i*d + j] == rows[i][j]` |
| `VectorMean.WeightedSum` | src/vector_mean.rs:20-22 | the accumulated weighted rows have `d` entries, and entry `j` is `Σ_i w[i]*rows[i][j]` |
| `VectorMean.WeightedMean` | src/vector_mean.rs:20-26 | when the total weight is non-zero, the result has `d` entries and entry `j` is `Σ_i w[i]*rows[i][j] / Σ_i w[i]`, with no column moved |
| `VectorMean.Mean` | src/vector_mean.rs:11-27 | `mean` as written; a returned vector implies at least one row, one weight per row, a non-zero total weight, and a length equal to the first row's (at least 1) |
| `VectorMean.MeanRejectsShape` | src/vector_mean.rs:14-17 | whenever the rows do not hold `n*d` entries in all (`d` = first row's length), `mean` panics creating the array |
| `VectorMean.MeanRejectsTwoLengths` | src/vector_mean.rs:14-17 | two vectors of different lengths are never averaged: the array creation panics |
| `VectorMean.MeanOfUniformRows` | src/vector_mean.rs:11-27 | on rows of one length `d`: panic when `d == 0` or the weight count is not `n`; non-finite result when the weights sum to zero; otherwise a `d`-entry vector whose entry `j` is the weighted mean of column `j` of the original rows |
| `VectorMean.MeanIsWeightedMean` | src/vector_mean.rs:14-26 | for rows of one length `d > 0`, one weight per row and a non-zero total weight, `mean` returns the weighted mean of the original rows: the reshape changes nothing |
| `VectorMean.MeanOfOne` | src/vector_mean.rs:20-22 | one non-empty embedding with a non-zero weight is returned unchanged |
| `VectorMean.MeanOfEqualWeights` | src/vector_mean.rs:20-22 | equal non-zero weights give the plain arithmetic mean of the rows, column by column |
| `VectorMean.MeanPermutationInvariant` | src/vector_mean.rs:20-22 | reordering the (embedding, weight) pairs together leaves the outcome of `mean` unchanged, for rows of one common length |
| `VectorMean.RaggedRowsAreRecut` | src/vector_mean.rs:14-17 | as written: rows `[1,2]`, `[3]`, `[4,5,6]` with equal weights are not rejected; the buffer is re-cut into `[1,2]`, `[3,4]`, `[5,6]`, which average to `[3,4]` |
| `VectorMean.ReorderedRaggedRows` | src/vector_mean.rs:14-22 | as written: the rows `[1,2]`, `[4,5,6]`, `[3]` with equal weights are re-cut into `[1,2]`, `[4,5]`, `[6,3]` and average to `[11/3, 10/3]` |
| `VectorMean.RaggedMeanDependsOnOrder` | src/vector_mean.rs:14-22 | as written, on ragged rows the result depends on row order: the rows of `RaggedRowsAreRecut`, reordered, give a different outcome |
| `VectorMean.CheckedMean` | src/vector_mean.rs:11-27 | corrected aggregator: rows of different lengths fail with `DimensionMismatch`; a returned vector is the weighted mean of the original rows; on rows of one length it agrees with `Mean` |
| `Embedding.Utf8Length` | src/embedding.rs:9 | a chunk's weight `s.len()` is its UTF-8 byte length: at least its character count, at most four times it, and equal to it exactly when every character is ASCII |
| `Embedding.EmbedAChunk` | src/embedding.rs:13-17 | one-element batch; a vector is returned exactly when the model loads and inference gives at least one output, and it is element 0; a model that does not load gives `Err`; once it loads, failed inference gives the `.unwrap()` panic and an empty output gives the `embedding[0]` panic, never `Err` |
| `Embedding.EmbedChunks` | src/embedding.rs:8 | all chunks embed exactly when each one does; then vector `i` is chunk `i`'s, in chunk order, one per chunk; otherwise the panic is at the first chunk that fails |
| `Embedding.ChunkWeights` | src/embedding.rs:9 | one weight per chunk, in chunk order; weight `i` is the UTF-8 byte length of chunk `i`, at least its character count, and zero exactly when the chunk is empty |
| `Embedding.ChunkWeightTotal` | src/embedding.rs:9 | the total byte-length weight is never negative, and is zero exactly when every chunk is empty |
| `Embedding.Embed` | src/embedding.rs:6-11 | `embed` as written; reaching the aggregator means every chunk embedded; a chunk panic names a chunk that failed |
| `Embedding.EmbedOfNoChunks` | src/embedding.rs:7-10 | a text that splits into no chunks gives the `embeddings[0]` panic of `mean`, for every backend: no chunk is embedded, so `get_model` is never called |
| `Embedding.EmbedOfFixedDimension` | src/embedding.rs:6-11 | with a backend of fixed dimension `dim` and at least one chunk: `dim == 0` gives the compute-mean panic; all-empty chunks give a non-finite result; otherwise the result has `dim` entries, each the byte-length-weighted mean of the chunk vectors; the pipeline's result equals the corrected aggregator's |
| `Embedding.EmbedAbortsOnChunkFailure` | src/embedding.rs:8 | if any chunk fails to embed, `embed` panics at that chunk or an earlier one and returns no vector |
| `Embedding.EmbedOfOneChunk` | src/embedding.rs:6-11 | a text that splits into one non-empty chunk embeds to exactly that chunk's vector |

## Findings

| source | as written | input that shows it | evidently intended | confidence | as-written member | corrected member |
|---|---|---|---|---|---|---|
| src/vector_mean.rs:14-17 | only the total buffer length is compared with `n*d`, so rows of different lengths pass when their total fits | `[[1,2],[3],[4,5,6]]` with weights `[1,1,1]` returns `[3,4]` instead of failing | reject rows whose length differs from the first row's | medium (the source's comment says it converts the rows into a 2D array), not executed | `VectorMean.RaggedRowsAreRecut` | `VectorMean.CheckedMean` |

In the pipeline every chunk vector comes from a backend of one fixed
dimension. So `embed` cannot reach the discrepancy, and
`EmbedOfFixedDimension` proves that its result equals `CheckedMean`'s.

On such ragged inputs the source's result also depends on the order of the
rows (`RaggedMeanDependsOnOrder`). That is why `MeanPermutationInvariant` is
stated for rows of one length only.

## Left out

- HTTP server and handlers (`src/main.rs`: `main`, `add_doc`, `search`): web routing, environment variables, UUIDs and JSON payloads are glue around the core.
- Vector-store client (`src/qdrant_util.rs`): asynchronous network calls. The check-then-create of a collection acts on remote state.
- Model loading (`src/embedding_model_factory.rs`) is file I/O. `get_model()?` in `embed_a_chunk` becomes the flag `Backend.loads`. The model is reloaded on every `embed_a_chunk` call, which is treated as one fixed answer: a performance detail.
- Tokenizer loading (`src/tokenizer_factory.rs`) is not modelled. `splitter::split` loads its tokenizer with `Tokenizer::from_file(..).unwrap()` on every call, and that panics before any chunk is embedded when the file is missing. `split` is a total function here, so `EmbedOutcome` has no case for that panic. `get_model`/`get_tokenizer` in `src/main.rs` are not part of this model either.
- The splitter (`src/splitter.rs`) wraps a third-party text splitter whose code is not part of this model. It is a parameter `split: string -> seq<string>`. No token cap, coverage or non-overlap property is assumed of it.
- Model inference is a parameter `Backend.infer`. Only its output shape is assumed, and only in the lemmas that need it (`EmbedsWithDimension`).
- `f32` arithmetic: components and weights are reals, so rounding is not modelled. The cast `s.len() as f32` is taken as exact. That holds for chunks under 2^24 bytes; longer chunk weights would be rounded in the source, and the model does not bound chunk length. NaN and infinity are not modelled: a zero total weight gives the outcome `NonFinite` and no entries.
- The library behind `weighted_mean_axis` is not part of this model. The model assumes its checks: an empty array and a weight count other than the row count are both errors, which `expect` turns into the same panic. The model also assumes its result: the weighted column sums divided by the sum of the weights.
- `src/all_minilm_l6_v2/mod.rs` only declares constants: the collection name, the dimension 384 and the token cap 256. The dimension is the `dim` parameter of the pipeline lemmas. The token cap belongs to the splitter, which is not modelled.
- Concurrency: the source embeds chunks one after another. No concurrent use is modelled.
