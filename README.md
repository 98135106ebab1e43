# Retrieve-then-rerank product search, modelled in Dafny

This project models the sequential logic of a small product-search system built on a
Redis vector index:

- **The search CLI (`search.py`).** It reads a line and stops on `exit` or `quit`. Any
  other line is embedded and sent as a 10-nearest-neighbour query, and the first five
  hits are shown. Each hit is then flattened to one `key: value` string and scored by a
  cross-encoder with a limit of 5. The scores are matched back to the hits by position,
  up to the shorter of the two lists. The result is sorted by score, highest first, with
  Python's stable sort, and the first five are shown.
- **The embedding backfill (`vectorizer.py`).** The product keys are cut into batches of
  `BATCH_SIZE`. Each product becomes the text `name brand category description`, and
  each batch is embedded in one call. The vectors are written back key by key. A failed
  write is caught and the next key is tried; a failed embedding call is caught and the
  next batch is processed.

The Redis store, the embedding model and the cross-encoder are not modelled. They are
parameters: the store is a `map` from key to document; `embed`, `knn`, `rerank` and
`embedMany` are arbitrary functions; and a `fault` predicate says which writes the store
refuses. Scores are `real`, since the code only compares them.

Files and modules:

- `text.dfy` (`Text`): Python's `strip`, `lower`, `join` and `split(c)` on ASCII text.
- `documents.dfy` (`Documents`): documents as the ordered list of their `(key, value)`
  entries, and `dict.get`.
- `fusion.dfy` (`Fusion`): the positional zip, the in-place stable sort (an insertion sort
  over an `array`), a reference stable sort as a function, and the `{**doc, "score": s}`
  merge.
- `search.dfy` (`Search`): `join_fields`, the exit check, the two top-5 displays, one pass
  of the loop body, and the loop.
- `vectorizer.dfy` (`Vectorizer`): `prepare_texts`, the batch partition, the store writes
  and the `ProductStore` class whose `docs` map the backfill methods update.

## Where the code differs from what one would expect

The model follows the code in each of these cases.

- Ideally a reranker failure would fall back to the unreranked list. The code has no `try`
  in `search_loop`, so any exception from the embedder, the index or the reranker ends the
  program. The model has no fallback, and its external functions are total.
- An empty or whitespace-only query would naturally be skipped. The code strips the line
  and sends even the empty string on as a query. `Search.Classify` does the same.
- The fusion might be expected to check that there are no more scores than candidates. The
  code checks nothing and takes `min(len(results), len(reranked_scores))` pairs. The model
  does the same.
- The code ignores the documents the reranker returns and assumes that score `i` belongs to
  candidate `i`. The model makes the same assumption. It is right only if the reranker
  reports its scores in input order. The cross-encoder library is not part of this model,
  so the model cannot say whether that holds.

## Model

Defining functions (`Search.Classify`, `Search.JoinFields`, `Fusion.Zip`, `Fusion.Merged`,
`Vectorizer.ProductText`, `Vectorizer.Write`, `Vectorizer.WriteAll`, `Vectorizer.Batches`,
`Vectorizer.ProcessBatch`, `Vectorizer.ProcessBatches` and others) have no row of their own.
Each is listed through the lemmas that state its properties.

| member | source | states |
|---|---|---|
| `Text.TrimStart` | search.py:42 | `strip` drops exactly the leading whitespace: what is left is a suffix of the line, everything before it is whitespace, and it does not start with whitespace |
| `Text.TrimEnd` | search.py:42 | `strip` drops exactly the trailing whitespace: what is left is a prefix, everything after it is whitespace, and it does not end with whitespace |
| `Text.TrimIsSlice` | search.py:42 | the stripped line is one contiguous slice of the input with whitespace on both sides of it and non-whitespace at both of its ends |
| `Text.TrimIdempotent` | search.py:42 | stripping an already stripped query changes nothing |
| `Text.LowerMatchesIgnoringCase` | search.py:43 | `w.lower() == word` holds exactly when `w` spells the lower-case `word` letter by letter in either case |
| `Search.ClassifyIsCaseInsensitive` | search.py:42-44 | the loop stops exactly on `exit` or `quit` in any mix of cases, with any surrounding whitespace; any other line is a query equal to the stripped line |
| `Text.JoinAppend` | search.py:36 | `" ".join` of two non-empty lists is their two joins with one separator between |
| `Text.JoinLength` | search.py:36 | a joined text is as long as its pieces plus one separator between each two of them |
| `Text.SplitJoin` | vectorizer.py:40 | splitting a join on its separator gives the pieces back when no piece holds the separator |
| `Text.JoinSplit` | vectorizer.py:40 | joining the pieces of a split gives the text back, for every text |
| `Search.JoinFieldsAppend` | search.py:35-36 | `join_fields` is `""` for no fields and `key: value` for one field, and the text of two runs of fields is their texts with one space between; these three facts determine it |
| `Search.JoinFieldsLength` | search.py:35-36 | the rerank text of a document is its `key: value` pieces plus exactly one space between each two fields |
| `Search.RerankInputsAppend` | search.py:75 | the rerank inputs have one text per candidate in retrieval order: the inputs of a concatenation are the concatenation of the inputs, and a single candidate gives its `join_fields` text |
| `Search.Take` | search.py:67 | each display (also search.py:92) shows `min(5, len(list))` entries, the first ones of the list, in order |
| `Documents.Get` | vectorizer.py:36-39 | `get` returns the value of an entry stored under the key, or the default; for an absent key, the default |
| `Documents.GetFindsEntry` | vectorizer.py:36-39 | on a dict (distinct keys), `get` returns the value stored under the key |
| `Fusion.MergedLookup` | search.py:84 | in `{**results[i], "score": s}`, `"score"` reads as the rerank score even when the document already had a `score` field, every other key reads as in the document, and the keys keep their order, with `"score"` appended only if it was absent |
| `Fusion.SwapWithPrevious` | search.py:88 | one exchange of neighbouring entries: the two trade places, nothing else moves, and the entries stay a permutation |
| `Fusion.InsertIntoPrefix` | search.py:88 | one insertion pass leaves the first `i + 1` entries ordered, touches nothing after them and keeps a permutation |
| `Fusion.SortByScoreDescending` | search.py:88 | the in-place sort leaves a permutation of its input, sorted by descending score with equal scores in retrieval order, for input given in retrieval order |
| `Fusion.OrderedIsStableDescending` | search.py:88 | the order used is exactly non-increasing scores, with equal scores kept in retrieval order |
| `Fusion.Insert` | search.py:88 | reference sort: inserting an entry adds exactly that entry |
| `Fusion.StableSortByScore` | search.py:88 | the reference sort is a permutation of its input |
| `Fusion.InsertOrdered` | search.py:88 | inserting an entry with a new retrieval index into an ordered list keeps it ordered |
| `Fusion.StableSortByScoreOrdered` | search.py:88 | the reference sort of a list in retrieval order is ordered |
| `Fusion.OrderedPermutationUnique` | search.py:88 | two ordered permutations of the same entries are equal, so a stable descending sort has only one possible result |
| `Fusion.Fuse` | search.py:83-88 | the fused list has `min(len(results), len(scores))` entries and is a permutation of the zipped prefix. Entry `p` is `results[p]` with `scores[p]`, so candidates past the last score never appear. Scores are non-increasing, ties stay in retrieval order, and the list equals the reference stable sort |
| `Fusion.FusionDeterministic` | search.py:83-88 | the same results and scores always give the same fused list |
| `Fusion.FusionDropsUnscored` | search.py:83-88 | three candidates with scores `[0.9, 0.95]` give exactly `[candidate 2 (0.95), candidate 1 (0.9)]`; the third is dropped and gets no default score |
| `Search.RunQuery` | search.py:46-99 | no hits give the no-results outcome and nothing is reranked. Otherwise it shows the first `min(5, hits)` hits and the first five of the reference stable sort of the zipped hits and reranker scores, in non-increasing score order |
| `Search.SearchLoop` | search.py:39-100 | the loop answers every line up to the first `exit`/`quit`, in order, including lines that find nothing. It ends on that line, or when the input runs out, and answers no line after it |
| `Vectorizer.ProductTextIsJoin` | vectorizer.py:33-40 | a falsy product (a missing key, or the empty object with no field and no `embedding`) gives `""`; any other gives its name, brand, category and description joined by single spaces, `""` standing for a missing field |
| `Vectorizer.ProductTextSplitsBack` | vectorizer.py:36-40 | when no field holds a space, the text splits back into exactly name, brand, category, description |
| `Vectorizer.ProductTextWithoutFields` | vectorizer.py:33-40 | a truthy product with none of the four fields gives three spaces; a truthy product without any text field holds an `embedding` |
| `Vectorizer.PrepareTexts` | vectorizer.py:30-41 | one text per product, same length and order, text `i` being the text of product `i` alone |
| `Vectorizer.FetchAll` | vectorizer.py:27-28 | one product per key, in order: `None` exactly for a missing key, otherwise the whole stored object, its `embedding` included |
| `Vectorizer.WrittenProductIsTruthy` | vectorizer.py:28-46 | after a successful write the fetched product is the stored object with the new `embedding`, so it is truthy; one that had no text field now gives three spaces instead of `""` |
| `Vectorizer.EmbeddingOnlyProductText` | vectorizer.py:27-40 | a key holding only `{"embedding": [1.0]}` gives the text `"   "` |
| `Vectorizer.WriteAllFrame` | vectorizer.py:43-48 | the writes keep every key and every text field. A document changes only if its key is among the first `min(len(keys), len(embeddings))` keys and the store accepted the write |
| `Vectorizer.WriteAllStoresPairs` | vectorizer.py:44-46 | with distinct keys, each accepted write leaves `keys[j]` with `embeddings[j]` and its other fields unchanged |
| `Vectorizer.FailedWriteIsSkipped` | vectorizer.py:44-48 | a failed write (missing key or refused) does not stop the loop: the store ends as if that pair had not been in the lists |
| `Vectorizer.BatchesShape` | vectorizer.py:53-54 | every batch has between 1 and `BATCH_SIZE` keys, all but the last exactly `BATCH_SIZE`, and there are `ceil(n / BATCH_SIZE)` batches (as bounds on `count * BATCH_SIZE`) |
| `Vectorizer.BatchAt` | vectorizer.py:53-54 | batch `j` is the slice `keys[j*BATCH_SIZE : (j+1)*BATCH_SIZE]` clipped to the list, as taken at offset `j*BATCH_SIZE` of the `range` |
| `Vectorizer.BatchCount` | vectorizer.py:53 | the number of batches is `(n + BATCH_SIZE - 1) // BATCH_SIZE` |
| `Vectorizer.BatchesCoverKeys` | vectorizer.py:53-54 | the batches concatenated in order are the key list |
| `Vectorizer.ProcessBatchesAppend` | vectorizer.py:53-61 | running two lists of batches one after the other is running their concatenation |
| `Vectorizer.FailedBatchIsSkipped` | vectorizer.py:57-61 | a batch whose embedding call fails, on the texts read from the store as the earlier batches left it, does not stop the later batches: the store ends as if that batch had not been in the list |
| `Vectorizer.ProcessBatchesFrame` | vectorizer.py:50-61 | the whole backfill keeps every key and every text field, and leaves each document whose key was not scanned exactly as it was |
| `Vectorizer.ProductStore.SetEmbedding` | vectorizer.py:46-48 | a write succeeds exactly when the key exists and the store does not refuse it; on success only that document's embedding changes, on failure nothing does |
| `Vectorizer.ProductStore.UpdateEmbeddings` | vectorizer.py:43-48 | one attempt per pair of the zip, reported in order. Attempt `j` succeeds exactly when `keys[j]` exists and is not refused. The new store is the result of the writes over the zipped pairs |
| `Vectorizer.ProductStore.EmbedBatch` | vectorizer.py:54-61 | one batch: the embedding call succeeds or fails on the texts of the products fetched from the current store. On failure the store is unchanged; on success the embeddings are written back. Text fields never change |
| `Vectorizer.ProductStore.ProcessAllProducts` | vectorizer.py:50-61 | the batches are attempted in order, and a failed embedding call does not stop the later ones. Batch `j` reports whether its embedding call succeeded on the texts read from the store as batches `0..j-1` left it (an earlier batch can make an empty product truthy). The final store is the batches' effects applied in order, and a non-positive batch size leaves the store as it was |

## Left out

- `fake_product_loader.py`: random catalogue generation and Redis writes; nothing deterministic to state.
- Redis I/O: loading and creating the index (search.py:18-22), the scan (vectorizer.py:24-25) and the KNN query. Scanned keys and query results are inputs; the store is a `map`.
- The embedding model and the cross-encoder are the parameters `embed`, `embedMany` and `rerank`. The model does not claim that KNN results are sorted by distance; that is the store's promise.
- Printing: banners, emoji, the debug print of the raw scores, the `N/A` field defaults and the `{score:.4f}` formatting (search.py:98).
- Environment loading, `TOKENIZERS_PARALLELISM`, `tqdm`, `main`.
- Unicode: `strip` uses the ASCII subset of Python's whitespace, and `lower` changes only `A`-`Z`.
- A stored product keeps its `embedding` apart from its text fields, so the text fields are taken to hold no key named `embedding`.
- Document values are taken as text. JSON numbers and nulls, which Python would render with `str`, are not modelled.
- Scores are reals, so a NaN score, which would break the order Python's sort relies on, is not modelled.
- End of input: the loop stops when the lines run out. Python would raise `EOFError` from `input()` and end the program there.
- Search.RunQuery: the external calls never fail. In the source, an exception from them ends the program, and the model does not represent that.
- Vectorizer.ProductStore.SetEmbedding: the store refuses a write through a per-key predicate, so a key refused once is refused again. The store's real reasons, such as a lost connection, are not modelled.
- Vectorizer.ProductStore.ProcessAllProducts: fetching and text preparation (vectorizer.py:55-56) run outside the `try`, so their failures end the whole backfill rather than one batch. Examples are a Redis error in `json().get`, or a stored value that is truthy but not an object, on which `p.get` raises `AttributeError`. The model's fetch cannot fail and every stored value is an object, so this ending is not modelled.
- Vectorizer.WriteAllStoresPairs: stated for distinct keys only. A Redis scan can return a key twice, and the last accepted write for that key then wins; that case is not stated.
- Vectorizer.ProductStore.ProcessAllProducts: a `BATCH_SIZE` of 0 makes `range` raise `ValueError` before any batch. The model shows only the outcome: no batch runs and the store is unchanged.
