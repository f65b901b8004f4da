# Anime index ingestion, modelled in Dafny

The anime recommender answers queries from a vector collection of anime. An
offline ingestion job (`src/data_ingestion.py`) builds that collection, and this
project models the job:

1. **Keying.** `load_csv_into_dict` reads a CSV table and keys every row by the
   `anime_id` value it pops from the row. A later row with the same id replaces
   the earlier one.
2. **Joining.** `combine_csv_data` joins the anime metadata table with the
   collaborative-filtering and content-based embedding tables:
   - an anime missing from the collaborative table is skipped;
   - every other anime gets three metadata fields and two embeddings of parsed
     floats.
3. **Merging.** `get_weighted_merged_embeddings` concatenates the two
   embeddings. The collaborative half is multiplied by 2.
4. **Loading.** `ingest_data_into_collection` builds three index-aligned lists:
   ids, metadata and merged embeddings. It hands them to `collection.add` in
   slices of at most 5000 entries.

Module `PyDict` (`py_dict.dfy`) models the part of Python's `dict` the job
depends on:
- keys keep their insertion order;
- assigning to an existing key keeps its position;
- `pop` removes a key.

Module `DataIngestion` (`data_ingestion.dfy`) models the job itself:
- A table is a sequence of row dicts. Each row maps column names to cells in
  header order.
- Every exception the job can raise becomes an `Err` value:
  - `KeyError` for a missing column;
  - `KeyError` for an anime absent from the content table;
  - `ValueError` for a cell that `float()` rejects.
- Each of the four loops of the source is a method, proved against a
  specification:
  - `LoadCsvIntoDict` (lines 27-30) returns exactly the recursive function
    `Loaded`;
  - `CombineCsvData` (lines 35-47) returns exactly the recursive function
    `Combined`;
  - `BuildLists` (lines 59-62) states outright, position by position, which id,
    metadata and weighted embedding each list holds;
  - `IngestDataIntoCollection` (lines 63-69) makes exactly the calls of the
    ghost function `AddCalls`, one slice of the three lists per batch range.
  Lemmas then prove what `Loaded`, `Combined` and `AddCalls` guarantee.
- The vector collection is a `Collection` object that records the arguments of
  every `add` call. `IngestDataIntoCollection` is proved to make exactly the
  calls `AddCalls` describes. Lemmas show the following about those calls:
  - concatenated, they give back every id, embedding and metadata record
    exactly once, in dataset order;
  - within one call, position `k` of the three lists belongs to the same anime.

## Model

| member | source | states |
|---|---|---|
| `PyDict.Dict.Put` | src/data_ingestion.py:30 | `d[k] = v` keeps the dict well-formed: the value is replaced, a new key goes last and an existing key keeps its place |
| `PyDict.Dict.Pop` | src/data_ingestion.py:29 | `row.pop(k)` on a present key removes exactly that key and keeps the dict well-formed; the remaining keys keep their order, the popped key's position cut out |
| `PyDict.WithoutAt` | src/data_ingestion.py:29 | in a key order without repeats, leaving out the key at position `p` removes exactly that position |
| `PyDict.WithoutSpec` | src/data_ingestion.py:29 | removing a key from the key order keeps every other key and creates no duplicates |
| `PyDict.DedupSpec` | src/data_ingestion.py:30 | the key order produced by repeated assignment has no repeats and holds exactly the assigned keys |
| `DataIngestion.Loaded` | src/data_ingestion.py:27-30 | the dict built row by row is always well-formed |
| `DataIngestion.LoadCsvIntoDict` | src/data_ingestion.py:23-31 | the loop returns exactly `Loaded(rows)`: KeyError on the first row without `anime_id`, otherwise the keyed table |
| `DataIngestion.LoadedErrSticks` | src/data_ingestion.py:27-29 | once a row raises KeyError, later rows do not change the outcome |
| `DataIngestion.LoadedOutcome` | src/data_ingestion.py:28-29 | loading succeeds if and only if every row has an `anime_id`; otherwise the error is `KeyError("anime_id")` |
| `DataIngestion.LoadedKeys` | src/data_ingestion.py:27-30 | the keys are the file's ids without repeats, in order of first appearance; an id is a key if and only if some row carries it |
| `DataIngestion.LoadedStoredRows` | src/data_ingestion.py:28-30 | every stored row is a well-formed dict that no longer has the `anime_id` column |
| `DataIngestion.LastWinsSnoc` | src/data_ingestion.py:30 | assigning one more id keeps the last row of every id in the table |
| `DataIngestion.LoadedLastWinsInduction` | src/data_ingestion.py:27-30 | the stored value of every id is the stripped row of that id's last occurrence |
| `DataIngestion.LoadedLastWins` | src/data_ingestion.py:27-30 | for every row that no later row shares an id with, the table maps that id to the row minus its `anime_id` |
| `DataIngestion.IdColumnSnoc` | src/data_ingestion.py:28 | the id column of the file extends the id column of all but the last row |
| `DataIngestion.ParseFloatsSpec` | src/data_ingestion.py:44-45 | `[float(v) for ...]` succeeds if and only if every cell converts, and then gives one value per cell in order; otherwise it raises ValueError on the first cell that does not convert |
| `DataIngestion.MergeItemSpec` | src/data_ingestion.py:38-45 | merging one anime succeeds if and only if: "Name", "English name" and "Image URL" exist, both embedding rows convert, and the content table has the id. The metadata is copied. Each embedding is its row converted column by column. A missing "Name" raises `KeyError("Name")`. An id absent from the content table raises `KeyError(id)` |
| `DataIngestion.KeptIds` | src/data_ingestion.py:35-37 | the ids that survive the skip are ids of the metadata table that the collaborative table has |
| `DataIngestion.KeptIdsSpec` | src/data_ingestion.py:35-37 | an id survives the skip if and only if both tables have it; distinct input ids give distinct kept ids |
| `DataIngestion.Combined` | src/data_ingestion.py:35-47 | the joined dict built anime by anime is always well-formed |
| `DataIngestion.CombinedErrSticks` | src/data_ingestion.py:35-47 | once an anime fails to merge, later anime do not change the outcome |
| `DataIngestion.CombinedEntries` | src/data_ingestion.py:35-47 | a successful join holds exactly the anime both tables have, in metadata-table order, each stored with the item its merge produced |
| `DataIngestion.MergedBeforePrefix` | src/data_ingestion.py:35-47 | whether the first `i` kept anime merge depends only on those `i` ids |
| `DataIngestion.CombinedOutcome` | src/data_ingestion.py:35-47 | the join fails if and only if some kept anime fails to merge, and then with the error of the first such anime |
| `DataIngestion.CombineCsvData` | src/data_ingestion.py:33-49 | the loop returns exactly `Combined(anime.keys, ...)` |
| `DataIngestion.WeightedMerge` | src/data_ingestion.py:51-53 | the merged vector has length collaborative + content: the first part is each collaborative value times 2, then the content embedding unchanged |
| `DataIngestion.MergeRoundTrip` | src/data_ingestion.py:51-53 | both embeddings can be recovered from the merged vector, given the collaborative dimension |
| `DataIngestion.BuildLists` | src/data_ingestion.py:56-62 | the id list is the dataset's key order; position `k` of the metadata and embedding lists belongs to the id at position `k` |
| `DataIngestion.BatchRanges` | src/data_ingestion.py:63-64 | every range `[s, min(s + 5000, n))` lies inside `[start, n)`, is non-empty and holds at most 5000 indices |
| `DataIngestion.BatchRangesShape` | src/data_ingestion.py:63-64 | there are ceil((n - start) / 5000) ranges, and range `i` starts at `start + 5000 i` |
| `DataIngestion.BatchesTile` | src/data_ingestion.py:63-64 | over `[0, n)` the ranges number ceil(n / 5000); each is non-empty and at most 5000 long; they are contiguous from 0 to `n` |
| `DataIngestion.BatchOfIndex` | src/data_ingestion.py:63-64 | index `x < n` lies in batch `x / 5000` and in no other |
| `DataIngestion.Collection.constructor` | src/data_ingestion.py:80 | a new collection has received no `add` calls |
| `DataIngestion.Collection.Add` | src/data_ingestion.py:65-69 | an `add` call is recorded with its three arguments |
| `DataIngestion.IngestDataIntoCollection` | src/data_ingestion.py:55-70 | the collection receives exactly the calls `AddCalls(merged)`, in order: one per batch range, each carrying that range of the three lists |
| `DataIngestion.ConcatSlicesCons` | src/data_ingestion.py:65-69 | gluing slices together is the first slice followed by the rest |
| `DataIngestion.ConcatBatchSlices` | src/data_ingestion.py:63-69 | gluing together the batch slices of a list gives back the whole list |
| `DataIngestion.AddCallsReassemble` | src/data_ingestion.py:55-69 | the calls, concatenated, give back the whole id, embedding and metadata lists; every anime is added exactly once, in dataset order |
| `DataIngestion.AddCallsAligned` | src/data_ingestion.py:59-69 | each call carries 1 to 5000 entries, with three lists of equal length; position `k` of its metadata and embeddings belongs to the anime at position `k` of its ids |

## Left out

- Reading files and parsing CSV (src/data_ingestion.py:25-26). A table arrives
  as a sequence of row dicts in header order. Short rows, whose missing cells
  `csv.DictReader` fills with `None`, and long rows are not modelled.
- `float()` (src/data_ingestion.py:44-45) is the parameter `toFloat`, which
  returns `None` where Python raises ValueError. A `None` cell, which would
  raise TypeError, is not modelled.
- `str()` around the metadata cells (src/data_ingestion.py:40-42) is the
  identity, because cells are already strings.
- IEEE floating point: embeddings are reals, so `x * 2` is exact and the merge
  can be undone.
- The two `print` calls (src/data_ingestion.py:48, 70).
- `main` (src/data_ingestion.py:72-83), the file paths and `PersistentClient`.
  `create_collection` is the `Collection` constructor.
- What `collection.add` does inside the vector store: rejecting duplicate ids,
  persisting, indexing. The model only records the calls.
- The recommendation engine, the web layer and the rating adapters (`app.py`,
  `models.py`, `generate_anime_recommendations.py`). The engine's own source is
  not part of this model.
