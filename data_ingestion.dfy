/**
 * The offline job that builds the anime similarity index: it keys the rows of
 * three CSV tables by `anime_id`, joins item metadata with a collaborative and a
 * content-based embedding per anime, concatenates the two embeddings (the
 * collaborative half weighted by 2), and adds the result to a vector collection
 * in batches of at most 5000 entries.
 *
 * Reading the files, parsing CSV, `float()` and the vector store are outside
 * the model: a table arrives as a sequence of row dicts, `float()` is the
 * parameter `toFloat` (`None` where Python raises ValueError), and the store is
 * a `Collection` object that logs every `add` call.
 */
module DataIngestion {
  import opened PyDict

  const AnimeIdKey := "anime_id"
  const NameKey := "Name"
  const EnglishNameKey := "English name"
  const ImageUrlKey := "Image URL"

  /** Largest number of entries handed to one `add` call. */
  const MaxBatchSize: nat := 5000

  /** Factor applied to every collaborative-filtering coordinate. */
  const CollaborativeWeight: real := 2.0

  /** One CSV row: column name to cell text, columns in header order. */
  type Row = Dict<string, string>

  /** The exceptions the job can raise. */
  datatype Error =
    | KeyError(key: string)    // a missing column, or an id absent from the content table
    | ValueError(text: string) // a cell that `float()` rejects

  datatype Result<T> = Ok(value: T) | Err(error: Error)

  /** What `float()` makes of a cell: a number, or `None` where it raises ValueError. */
  datatype Option<T> = None | Some(value: T)

  /** The metadata stored with each vector: keys "Name", "English_name", "Image_url". */
  datatype Metadata = Metadata(name: string, englishName: string, imageUrl: string)

  /** One entry of the merged dataset. */
  datatype Item = Item(metadata: Metadata, collaborative: seq<real>, content: seq<real>)

  /** A table keyed by id whose rows are themselves well-formed dicts. */
  ghost predicate ValidTable(t: Dict<string, Row>) {
    t.Valid() && forall id :: id in t.entries ==> t.entries[id].Valid()
  }

  // ---------------------------------------------------------------------------
  // Row keying: load_csv_into_dict
  // ---------------------------------------------------------------------------

  ghost predicate HasIds(rows: seq<Row>) {
    forall i :: 0 <= i < |rows| ==> AnimeIdKey in rows[i].entries
  }

  /** The `anime_id` cell of every row, in file order. */
  function IdColumn(rows: seq<Row>): (ids: seq<string>)
    requires HasIds(rows)
  {
    seq(|rows|, i requires 0 <= i < |rows| => rows[i].entries[AnimeIdKey])
  }

  /** The id column of all rows extends the id column of all but the last. */
  lemma IdColumnSnoc(rows: seq<Row>)
    requires rows != [] && HasIds(rows)
    ensures HasIds(rows[..|rows| - 1])
    ensures IdColumn(rows) == IdColumn(rows[..|rows| - 1]) + [rows[|rows| - 1].entries[AnimeIdKey]]
  {
  }

  /** No row after position `i` carries the same id as row `i`. */
  ghost predicate LastWithItsId(ids: seq<string>, i: int)
    requires 0 <= i < |ids|
  {
    forall j :: i < j < |ids| ==> ids[j] != ids[i]
  }

  /**
   * The dict built from `rows` in file order: each row is keyed by the
   * `anime_id` it pops, and a later row with the same id replaces the earlier
   * one in place. A row without the column is a KeyError.
   */
  function Loaded(rows: seq<Row>): (r: Result<Dict<string, Row>>)
    ensures r.Ok? ==> r.value.Valid()
  {
    if rows == [] then Ok(Empty())
    else match Loaded(rows[..|rows| - 1])
      case Err(e) => Err(e)
      case Ok(d) =>
        var row := rows[|rows| - 1];
        if AnimeIdKey !in row.entries then Err(KeyError(AnimeIdKey))
        else Ok(d.Put(row.entries[AnimeIdKey], row.Pop(AnimeIdKey)))
  }

  /** Once a prefix of the rows fails, loading all of them fails with the same error. */
  lemma {:induction false} LoadedErrSticks(rows: seq<Row>, m: nat)
    requires m <= |rows| && Loaded(rows[..m]).Err?
    ensures Loaded(rows) == Loaded(rows[..m])
  {
    if m < |rows| {
      var init := rows[..|rows| - 1];
      assert init[..m] == rows[..m];
      LoadedErrSticks(init, m);
    } else {
      assert rows[..m] == rows;
    }
  }

  /** Loading succeeds exactly when every row has an `anime_id`; otherwise it raises KeyError for that column. */
  lemma {:induction false} LoadedOutcome(rows: seq<Row>)
    ensures Loaded(rows).Ok? <==> HasIds(rows)
    ensures Loaded(rows).Err? ==> Loaded(rows).error == KeyError(AnimeIdKey)
  {
    if rows != [] {
      var init := rows[..|rows| - 1];
      LoadedOutcome(init);
      assert forall i :: 0 <= i < |init| ==> init[i] == rows[i];
    }
  }

  /**
   * With every row present, the keys are the distinct ids in order of first
   * appearance, so exactly the ids of the file are keys.
   */
  lemma {:induction false} LoadedKeys(rows: seq<Row>)
    requires HasIds(rows)
    ensures Loaded(rows).Ok?
    ensures Loaded(rows).value.keys == Dedup(IdColumn(rows))
    ensures forall id :: id in Loaded(rows).value.entries <==> id in IdColumn(rows)
  {
    LoadedOutcome(rows);
    if rows != [] {
      var init := rows[..|rows| - 1];
      IdColumnSnoc(rows);
      LoadedKeys(init);
      var ids := IdColumn(rows);
      assert ids[..|ids| - 1] == IdColumn(init);
    }
    DedupSpec(IdColumn(rows));
  }

  /** Every stored row is a well-formed dict without the `anime_id` column. */
  lemma {:induction false} LoadedStoredRows(rows: seq<Row>)
    requires forall i :: 0 <= i < |rows| ==> rows[i].Valid()
    requires HasIds(rows)
    ensures Loaded(rows).Ok? && ValidTable(Loaded(rows).value)
    ensures forall id :: id in Loaded(rows).value.entries ==> AnimeIdKey !in Loaded(rows).value.entries[id].entries
  {
    LoadedOutcome(rows);
    if rows != [] {
      var init, row := rows[..|rows| - 1], rows[|rows| - 1];
      assert forall i :: 0 <= i < |init| ==> init[i] == rows[i];
      LoadedStoredRows(init);
      var d, d' := Loaded(init).value, Loaded(rows).value;
      var id := row.entries[AnimeIdKey];
      assert d' == d.Put(id, row.Pop(AnimeIdKey));
      forall k | k in d'.entries
        ensures d'.entries[k].Valid() && AnimeIdKey !in d'.entries[k].entries
      {
        if k != id { assert d'.entries[k] == d.entries[k]; }
      }
    }
  }

  /** Every row without its `anime_id` column, in file order. */
  function Stripped(rows: seq<Row>): (stripped: seq<Row>)
    requires HasIds(rows)
  {
    seq(|rows|, i requires 0 <= i < |rows| => rows[i].Pop(AnimeIdKey))
  }

  /** For every id, `m` holds the value paired with the id's last occurrence. */
  ghost predicate LastWins<V>(ids: seq<string>, vals: seq<V>, m: map<string, V>) {
    forall i :: 0 <= i < |ids| && i < |vals| && LastWithItsId(ids, i) ==> ids[i] in m && m[ids[i]] == vals[i]
  }

  /** Assigning one more id keeps the last occurrence of every id in charge. */
  lemma LastWinsSnoc<V>(ids: seq<string>, vals: seq<V>, m: map<string, V>, id: string, v: V)
    requires |vals| == |ids| && LastWins(ids, vals, m)
    ensures LastWins(ids + [id], vals + [v], m[id := v])
  {
    var ids', vals' := ids + [id], vals + [v];
    forall i | 0 <= i < |ids'| && i < |vals'| && LastWithItsId(ids', i)
      ensures ids'[i] in m[id := v] && m[id := v][ids'[i]] == vals'[i]
    {
      if i < |ids| {
        assert ids'[|ids|] == id;
        forall j | i < j < |ids| ensures ids[j] != ids[i] {
          assert ids[j] == ids'[j] && ids[i] == ids'[i];
        }
        assert LastWithItsId(ids, i);
        assert vals'[i] == vals[i] && ids'[i] == ids[i];
      }
    }
  }

  /** The last-wins property over the id column and the stripped rows, by induction on the rows. */
  lemma {:induction false} LoadedLastWinsInduction(rows: seq<Row>)
    requires HasIds(rows)
    ensures Loaded(rows).Ok? && LastWins(IdColumn(rows), Stripped(rows), Loaded(rows).value.entries)
  {
    LoadedOutcome(rows);
    if rows != [] {
      var init, row := rows[..|rows| - 1], rows[|rows| - 1];
      IdColumnSnoc(rows);
      assert Stripped(rows) == Stripped(init) + [row.Pop(AnimeIdKey)];
      LoadedLastWinsInduction(init);
      LastWinsSnoc(IdColumn(init), Stripped(init), Loaded(init).value.entries, row.entries[AnimeIdKey], row.Pop(AnimeIdKey));
    }
  }

  /** The row stored under an id is the last row of the file with that id, minus the id column. */
  lemma LoadedLastWins(rows: seq<Row>)
    requires HasIds(rows)
    ensures Loaded(rows).Ok?
    ensures forall i :: 0 <= i < |rows| && LastWithItsId(IdColumn(rows), i) ==>
      && IdColumn(rows)[i] in Loaded(rows).value.entries
      && Loaded(rows).value.entries[IdColumn(rows)[i]] == rows[i].Pop(AnimeIdKey)
  {
    LoadedLastWinsInduction(rows);
    var ids, stripped, m := IdColumn(rows), Stripped(rows), Loaded(rows).value.entries;
    forall i | 0 <= i < |rows| && LastWithItsId(ids, i)
      ensures ids[i] in m && m[ids[i]] == rows[i].Pop(AnimeIdKey)
    {
      assert stripped[i] == rows[i].Pop(AnimeIdKey);
    }
  }

  /**
   * Keys every row by its `anime_id` and stores the row without that column,
   * exactly as `Loaded` describes.
   */
  method LoadCsvIntoDict(rows: seq<Row>) returns (r: Result<Dict<string, Row>>)
    ensures r == Loaded(rows)
  {
    var result: Dict<string, Row> := Empty();
    for n := 0 to |rows|
      invariant Loaded(rows[..n]) == Ok(result)
    {
      assert rows[..n + 1][..n] == rows[..n];
      if AnimeIdKey !in rows[n].entries {
        LoadedErrSticks(rows, n + 1);
        return Err(KeyError(AnimeIdKey));
      }
      var id := rows[n].entries[AnimeIdKey];
      var row := rows[n].Pop(AnimeIdKey);
      result := result.Put(id, row);
    }
    assert rows[..|rows|] == rows;
    r := Ok(result);
  }

  // ---------------------------------------------------------------------------
  // Join and merge: combine_csv_data
  // ---------------------------------------------------------------------------

  /** Every cell of the row converts with `float()`. */
  ghost predicate AllFloats(cells: seq<string>, toFloat: string -> Option<real>) {
    forall j :: 0 <= j < |cells| ==> toFloat(cells[j]).Some?
  }

  /** `xs` holds one converted value per column of `row`, in column order. */
  ghost predicate ConvertedRow(row: Row, xs: seq<real>, toFloat: string -> Option<real>)
    requires row.Valid()
  {
    |xs| == |row.keys| && forall j :: 0 <= j < |xs| ==> toFloat(row.entries[row.keys[j]]) == Some(xs[j])
  }

  /**
   * `[float(v) for v in cells]`: every cell converted in order, or the
   * ValueError of the first cell that does not convert.
   */
  function ParseFloats(cells: seq<string>, toFloat: string -> Option<real>): (r: Result<seq<real>>) {
    if cells == [] then Ok([])
    else match toFloat(cells[0])
      case None => Err(ValueError(cells[0]))
      case Some(x) =>
        match ParseFloats(cells[1..], toFloat)
        case Err(e) => Err(e)
        case Ok(rest) => Ok([x] + rest)
  }

  /**
   * The conversion succeeds exactly when every cell converts, and then yields
   * one value per cell; otherwise it reports the first cell that does not.
   */
  lemma {:induction false} ParseFloatsSpec(cells: seq<string>, toFloat: string -> Option<real>)
    ensures var r := ParseFloats(cells, toFloat);
      && (r.Ok? <==> AllFloats(cells, toFloat))
      && (r.Ok? ==> |r.value| == |cells| && forall j :: 0 <= j < |cells| ==> toFloat(cells[j]) == Some(r.value[j]))
      && (r.Err? ==> exists j :: 0 <= j < |cells| && r.error == ValueError(cells[j]) && toFloat(cells[j]).None?
                                 && AllFloats(cells[..j], toFloat))
  {
    if cells != [] {
      var tail := cells[1..];
      ParseFloatsSpec(tail, toFloat);
      match toFloat(cells[0])
      case None =>
        assert AllFloats(cells[..0], toFloat);
      case Some(x) =>
        assert forall j :: 0 < j < |cells| ==> cells[j] == tail[j - 1];
        match ParseFloats(tail, toFloat)
        case Err(e) =>
          var j :| 0 <= j < |tail| && e == ValueError(tail[j]) && toFloat(tail[j]).None? && AllFloats(tail[..j], toFloat);
          assert cells[..j + 1] == [cells[0]] + tail[..j];
        case Ok(rest) =>
      }
  }

  /**
   * The body of the join loop for one kept id: the dict literal of three
   * metadata fields, then the two embedding rows converted column by column.
   * The first missing column, unconvertible cell, or an id missing from the
   * content table (KeyError, not a skip) aborts.
   */
  function MergeItem(id: string, attrs: Row, collaborativeRow: Row, content: Dict<string, Row>,
                     toFloat: string -> Option<real>): (r: Result<Item>)
    requires collaborativeRow.Valid() && ValidTable(content)
  {
    if NameKey !in attrs.entries then Err(KeyError(NameKey))
    else if EnglishNameKey !in attrs.entries then Err(KeyError(EnglishNameKey))
    else if ImageUrlKey !in attrs.entries then Err(KeyError(ImageUrlKey))
    else
      var metadata := Metadata(attrs.entries[NameKey], attrs.entries[EnglishNameKey], attrs.entries[ImageUrlKey]);
      match ParseFloats(collaborativeRow.Values(), toFloat)
      case Err(e) => Err(e)
      case Ok(collaborative) =>
        if id !in content.entries then Err(KeyError(id))
        else match ParseFloats(content.entries[id].Values(), toFloat)
          case Err(e) => Err(e)
          case Ok(contentEmbedding) => Ok(Item(metadata, collaborative, contentEmbedding))
  }

  /**
   * The merge succeeds exactly when the three metadata columns are present and
   * both embedding rows convert; it then copies the metadata and converts each
   * row column by column. A missing "Name" is the first error raised, and an id
   * absent from the content table raises KeyError with that id.
   */
  lemma MergeItemSpec(id: string, attrs: Row, collaborativeRow: Row, content: Dict<string, Row>,
                      toFloat: string -> Option<real>)
    requires collaborativeRow.Valid() && ValidTable(content)
    ensures var r := MergeItem(id, attrs, collaborativeRow, content, toFloat);
      && (r.Ok? <==>
            && NameKey in attrs.entries && EnglishNameKey in attrs.entries && ImageUrlKey in attrs.entries
            && AllFloats(collaborativeRow.Values(), toFloat)
            && id in content.entries
            && AllFloats(content.entries[id].Values(), toFloat))
      && (r.Ok? ==> r.value.metadata == Metadata(attrs.entries[NameKey], attrs.entries[EnglishNameKey], attrs.entries[ImageUrlKey]))
      && (r.Ok? ==> ConvertedRow(collaborativeRow, r.value.collaborative, toFloat))
      && (r.Ok? ==> ConvertedRow(content.entries[id], r.value.content, toFloat))
      && (NameKey !in attrs.entries ==> r == Err(KeyError(NameKey)))
      && (&& NameKey in attrs.entries && EnglishNameKey in attrs.entries && ImageUrlKey in attrs.entries
          && AllFloats(collaborativeRow.Values(), toFloat) && id !in content.entries
          ==> r == Err(KeyError(id)))
  {
    ParseFloatsSpec(collaborativeRow.Values(), toFloat);
    if id in content.entries {
      ParseFloatsSpec(content.entries[id].Values(), toFloat);
    }
  }

  /** The ids of `order` that also key `other`, in the order of `order`. */
  function KeptIds(order: seq<string>, other: map<string, Row>): (kept: seq<string>)
    ensures forall id :: id in kept ==> id in order && id in other
  {
    if order == [] then []
    else
      var init := order[..|order| - 1];
      var last := order[|order| - 1];
      assert forall id :: id in init ==> id in order;
      KeptIds(init, other) + if last in other then [last] else []
  }

  /** Exactly the ids of `order` that key `other` are kept, each as often as in `order`. */
  lemma {:induction false} KeptIdsSpec(order: seq<string>, other: map<string, Row>)
    ensures forall id :: id in KeptIds(order, other) <==> id in order && id in other
    ensures Distinct(order) ==> Distinct(KeptIds(order, other))
  {
    if order != [] {
      var init := order[..|order| - 1];
      var last := order[|order| - 1];
      KeptIdsSpec(init, other);
      assert order == init + [last];
      assert forall id :: id in order <==> id in init || id == last;
      assert Distinct(order) ==> last !in init;
    }
  }

  /** Every kept id before position `i` merges without error. */
  ghost predicate MergedBefore(kept: seq<string>, i: int, anime: Dict<string, Row>, collaborative: Dict<string, Row>,
                               content: Dict<string, Row>, toFloat: string -> Option<real>)
    requires ValidTable(collaborative) && ValidTable(content) && 0 <= i <= |kept|
    requires forall id :: id in kept ==> id in anime.entries && id in collaborative.entries
  {
    forall j :: 0 <= j < i ==>
      MergeItem(kept[j], anime.entries[kept[j]], collaborative.entries[kept[j]], content, toFloat).Ok?
  }

  /**
   * The join over the anime of `order`, in that order: skip an id the
   * collaborative table lacks, otherwise merge it and store the item under its
   * id; the first failing merge is the outcome.
   */
  function Combined(order: seq<string>, anime: Dict<string, Row>, collaborative: Dict<string, Row>,
                    content: Dict<string, Row>, toFloat: string -> Option<real>): (r: Result<Dict<string, Item>>)
    requires ValidTable(collaborative) && ValidTable(content)
    requires forall id :: id in order ==> id in anime.entries
    ensures r.Ok? ==> r.value.Valid()
  {
    if order == [] then Ok(Empty())
    else
      var init, id := order[..|order| - 1], order[|order| - 1];
      assert forall x :: x in init ==> x in order;
      match Combined(init, anime, collaborative, content, toFloat)
      case Err(e) => Err(e)
      case Ok(d) =>
        if id !in collaborative.entries then Ok(d)
        else match MergeItem(id, anime.entries[id], collaborative.entries[id], content, toFloat)
          case Err(e) => Err(e)
          case Ok(item) => Ok(d.Put(id, item))
  }

  /** Once a prefix of `order` fails, the whole join fails with the same error. */
  lemma {:induction false} CombinedErrSticks(order: seq<string>, m: nat, anime: Dict<string, Row>,
                                            collaborative: Dict<string, Row>, content: Dict<string, Row>,
                                            toFloat: string -> Option<real>)
    requires ValidTable(collaborative) && ValidTable(content)
    requires forall id :: id in order ==> id in anime.entries
    requires m <= |order|
    requires Combined(order[..m], anime, collaborative, content, toFloat).Err?
    ensures Combined(order, anime, collaborative, content, toFloat) == Combined(order[..m], anime, collaborative, content, toFloat)
  {
    if m < |order| {
      var init := order[..|order| - 1];
      assert init[..m] == order[..m];
      CombinedErrSticks(init, m, anime, collaborative, content, toFloat);
    } else {
      assert order[..m] == order;
    }
  }

  /**
   * On an `order` without repeats a successful join keeps exactly the ids the
   * collaborative table has, in the order of `order`, and stores under each
   * the item its merge produced.
   */
  lemma {:induction false} CombinedEntries(order: seq<string>, anime: Dict<string, Row>, collaborative: Dict<string, Row>,
                                           content: Dict<string, Row>, toFloat: string -> Option<real>)
    requires ValidTable(collaborative) && ValidTable(content)
    requires forall id :: id in order ==> id in anime.entries
    requires Distinct(order)
    ensures var r := Combined(order, anime, collaborative, content, toFloat);
      && (r.Ok? ==> r.value.keys == KeptIds(order, collaborative.entries))
      && (r.Ok? ==> forall id :: id in r.value.entries <==> id in order && id in collaborative.entries)
      && (r.Ok? ==> forall id :: id in r.value.entries ==>
            MergeItem(id, anime.entries[id], collaborative.entries[id], content, toFloat) == Ok(r.value.entries[id]))
  {
    if order != [] {
      var init, id := order[..|order| - 1], order[|order| - 1];
      assert order == init + [id];
      assert forall x :: x in order <==> x in init || x == id;
      assert Distinct(init) && id !in init;
      CombinedEntries(init, anime, collaborative, content, toFloat);
      match Combined(init, anime, collaborative, content, toFloat)
      case Err(e) =>
      case Ok(d) =>
        if id in collaborative.entries {
          var item := MergeItem(id, anime.entries[id], collaborative.entries[id], content, toFloat);
          if item.Ok? {
            var d' := d.Put(id, item.value);
            forall x | x in d'.entries
              ensures MergeItem(x, anime.entries[x], collaborative.entries[x], content, toFloat) == Ok(d'.entries[x])
            {
              if x != id { assert d'.entries[x] == d.entries[x]; }
            }
          }
        }
    }
  }

  /** Two kept sequences that agree up to `|kept0|` agree on which of their first ids merge. */
  lemma MergedBeforePrefix(kept0: seq<string>, kept: seq<string>, anime: Dict<string, Row>, collaborative: Dict<string, Row>,
                           content: Dict<string, Row>, toFloat: string -> Option<real>)
    requires ValidTable(collaborative) && ValidTable(content) && kept0 <= kept
    requires forall id :: id in kept ==> id in anime.entries && id in collaborative.entries
    ensures forall id :: id in kept0 ==> id in kept
    ensures forall i :: 0 <= i <= |kept0| ==>
      (MergedBefore(kept0, i, anime, collaborative, content, toFloat) <==> MergedBefore(kept, i, anime, collaborative, content, toFloat))
  {
  }

  /**
   * The join fails exactly when a kept id fails to merge, and then with the
   * error of the first such id.
   */
  lemma {:induction false} CombinedOutcome(order: seq<string>, anime: Dict<string, Row>, collaborative: Dict<string, Row>,
                                           content: Dict<string, Row>, toFloat: string -> Option<real>)
    requires ValidTable(collaborative) && ValidTable(content)
    requires forall id :: id in order ==> id in anime.entries
    ensures var r, kept := Combined(order, anime, collaborative, content, toFloat), KeptIds(order, collaborative.entries);
      && (r.Ok? <==> MergedBefore(kept, |kept|, anime, collaborative, content, toFloat))
      && (r.Err? ==>
            exists i :: && 0 <= i < |kept| && MergedBefore(kept, i, anime, collaborative, content, toFloat)
                        && MergeItem(kept[i], anime.entries[kept[i]], collaborative.entries[kept[i]], content, toFloat) == Err(r.error))
  {
    if order != [] {
      var init, id := order[..|order| - 1], order[|order| - 1];
      assert forall x :: x in init ==> x in order;
      CombinedOutcome(init, anime, collaborative, content, toFloat);
      var kept0, kept := KeptIds(init, collaborative.entries), KeptIds(order, collaborative.entries);
      MergedBeforePrefix(kept0, kept, anime, collaborative, content, toFloat);
      if id in collaborative.entries {
        assert kept[|kept0|] == id;
      }
    }
  }

  /**
   * Joins the metadata table with both embedding tables: an anime missing from
   * the collaborative table is skipped, every other one is merged, in the
   * metadata table's order, and the first failing merge aborts the join.
   */
  method CombineCsvData(anime: Dict<string, Row>, collaborative: Dict<string, Row>, content: Dict<string, Row>,
                        toFloat: string -> Option<real>) returns (r: Result<Dict<string, Item>>)
    requires anime.Valid() && ValidTable(collaborative) && ValidTable(content)
    ensures r == Combined(anime.keys, anime, collaborative, content, toFloat)
  {
    var result: Dict<string, Item> := Empty();
    for n := 0 to |anime.keys|
      invariant Combined(anime.keys[..n], anime, collaborative, content, toFloat) == Ok(result)
    {
      var id := anime.keys[n];
      assert anime.keys[..n + 1][..n] == anime.keys[..n];
      if id !in collaborative.entries {
        continue;
      }
      var item := MergeItem(id, anime.entries[id], collaborative.entries[id], content, toFloat);
      if item.Err? {
        CombinedErrSticks(anime.keys, n + 1, anime, collaborative, content, toFloat);
        return Err(item.error);
      }
      result := result.Put(id, item.value);
    }
    assert anime.keys[..|anime.keys|] == anime.keys;
    r := Ok(result);
  }

  // ---------------------------------------------------------------------------
  // Weighted merge: get_weighted_merged_embeddings
  // ---------------------------------------------------------------------------

  /** The collaborative embedding scaled by the weight, followed by the content embedding. */
  function WeightedMerge(collaborative: seq<real>, content: seq<real>): (v: seq<real>)
    ensures |v| == |collaborative| + |content|
    ensures forall i :: 0 <= i < |collaborative| ==> v[i] == CollaborativeWeight * collaborative[i]
    ensures v[|collaborative|..] == content
  {
    seq(|collaborative|, i requires 0 <= i < |collaborative| => collaborative[i] * CollaborativeWeight) + content
  }

  /** Undoes the merge given the collaborative dimension: unscale the head, keep the tail. */
  function SplitMerged(v: seq<real>, dimension: nat): (parts: (seq<real>, seq<real>))
    requires dimension <= |v|
  {
    (seq(dimension, i requires 0 <= i < dimension => v[i] / CollaborativeWeight), v[dimension..])
  }

  /** Nothing is lost in the merge: both embeddings can be recovered from it. */
  lemma MergeRoundTrip(collaborative: seq<real>, content: seq<real>)
    ensures SplitMerged(WeightedMerge(collaborative, content), |collaborative|) == (collaborative, content)
  {
    var v := WeightedMerge(collaborative, content);
    var head := SplitMerged(v, |collaborative|).0;
    forall i | 0 <= i < |collaborative| ensures head[i] == collaborative[i] {
      assert v[i] == CollaborativeWeight * collaborative[i];
    }
    assert head == collaborative;
  }

  // ---------------------------------------------------------------------------
  // Index-aligned lists: the first loop of ingest_data_into_collection
  // ---------------------------------------------------------------------------

  function MetadataList(merged: Dict<string, Item>): (ms: seq<Metadata>)
    requires merged.Valid()
    ensures |ms| == |merged.keys|
    ensures forall k :: 0 <= k < |ms| ==> ms[k] == merged.entries[merged.keys[k]].metadata
  {
    seq(|merged.keys|, k requires 0 <= k < |merged.keys| => merged.entries[merged.keys[k]].metadata)
  }

  function EmbeddingList(merged: Dict<string, Item>): (es: seq<seq<real>>)
    requires merged.Valid()
    ensures |es| == |merged.keys|
    ensures forall k :: 0 <= k < |es| ==>
      es[k] == WeightedMerge(merged.entries[merged.keys[k]].collaborative, merged.entries[merged.keys[k]].content)
  {
    seq(|merged.keys|, k requires 0 <= k < |merged.keys| =>
      WeightedMerge(merged.entries[merged.keys[k]].collaborative, merged.entries[merged.keys[k]].content))
  }

  /**
   * Walks the merged dataset once, in its order, appending each id, its
   * metadata and its weighted embedding to three lists; position `k` of all
   * three belongs to the same anime.
   */
  method BuildLists(merged: Dict<string, Item>) returns (ids: seq<string>, metadatas: seq<Metadata>, embeddings: seq<seq<real>>)
    requires merged.Valid()
    ensures ids == merged.keys
    ensures |metadatas| == |ids| && |embeddings| == |ids|
    ensures forall k :: 0 <= k < |ids| ==> metadatas[k] == merged.entries[ids[k]].metadata
    ensures forall k :: 0 <= k < |ids| ==>
      embeddings[k] == WeightedMerge(merged.entries[ids[k]].collaborative, merged.entries[ids[k]].content)
  {
    ids, metadatas, embeddings := [], [], [];
    for n := 0 to |merged.keys|
      invariant ids == merged.keys[..n]
      invariant |metadatas| == n && |embeddings| == n
      invariant forall k :: 0 <= k < n ==> metadatas[k] == merged.entries[ids[k]].metadata
      invariant forall k :: 0 <= k < n ==>
        embeddings[k] == WeightedMerge(merged.entries[ids[k]].collaborative, merged.entries[ids[k]].content)
    {
      var item := merged.entries[merged.keys[n]];
      ids := ids + [merged.keys[n]];
      metadatas := metadatas + [item.metadata];
      embeddings := embeddings + [WeightedMerge(item.collaborative, item.content)];
    }
  }

  // ---------------------------------------------------------------------------
  // Batching: the second loop of ingest_data_into_collection
  // ---------------------------------------------------------------------------

  /** The half-open index range `[start, end)`. */
  datatype Range = Range(start: nat, end: nat)

  function Min(a: nat, b: nat): nat {
    if a < b then a else b
  }

  /**
   * The ranges `[s, min(s + 5000, n))` for `s` in `range(start, n, 5000)`.
   */
  function BatchRanges(start: nat, n: nat): (rs: seq<Range>)
    ensures forall i :: 0 <= i < |rs| ==> start <= rs[i].start < rs[i].end <= n
    ensures forall i :: 0 <= i < |rs| ==> rs[i].end - rs[i].start <= MaxBatchSize
    decreases if start < n then n - start else 0
  {
    if start >= n then []
    else [Range(start, Min(start + MaxBatchSize, n))] + BatchRanges(start + MaxBatchSize, n)
  }

  /** The batches over `[0, n)`. */
  function Batches(n: nat): seq<Range> {
    BatchRanges(0, n)
  }

  /** Batch `i` starts at `i * 5000` and runs 5000 further or to `n`; there are ceil(n / 5000) of them. */
  lemma {:induction false} BatchRangesShape(start: nat, n: nat)
    ensures |BatchRanges(start, n)| == if start < n then (n - start + MaxBatchSize - 1) / MaxBatchSize else 0
    ensures forall i :: 0 <= i < |BatchRanges(start, n)| ==>
      BatchRanges(start, n)[i] == Range(start + i * MaxBatchSize, Min(start + i * MaxBatchSize + MaxBatchSize, n))
    decreases if start < n then n - start else 0
  {
    if start < n {
      var rs := BatchRanges(start, n);
      BatchRangesShape(start + MaxBatchSize, n);
      forall i | 1 <= i < |rs|
        ensures rs[i] == Range(start + i * MaxBatchSize, Min(start + i * MaxBatchSize + MaxBatchSize, n))
      {
        assert rs[i] == BatchRanges(start + MaxBatchSize, n)[i - 1];
        assert start + MaxBatchSize + (i - 1) * MaxBatchSize == start + i * MaxBatchSize;
      }
    }
  }

  /**
   * The batches over `[0, n)` number ceil(n / 5000), none when `n == 0`; each
   * is non-empty and at most 5000 long; the first starts at 0, each starts
   * where the previous ended, and the last ends at `n`.
   */
  lemma BatchesTile(n: nat)
    ensures |Batches(n)| == (n + MaxBatchSize - 1) / MaxBatchSize
    ensures forall i :: 0 <= i < |Batches(n)| ==>
      0 < Batches(n)[i].end - Batches(n)[i].start <= MaxBatchSize
    ensures n > 0 ==> Batches(n)[0].start == 0 && Batches(n)[|Batches(n)| - 1].end == n
    ensures forall i :: 0 < i < |Batches(n)| ==> Batches(n)[i].start == Batches(n)[i - 1].end
  {
    BatchRangesShape(0, n);
    var rs := Batches(n);
    if n > 0 {
      var last := |rs| - 1;
      assert rs[last].start == last * MaxBatchSize;
      assert rs[last].end == n;
    }
  }

  /** Index `x` of `[0, n)` lies in batch `x / 5000` and in no other. */
  lemma BatchOfIndex(n: nat, x: nat)
    requires x < n
    ensures x / MaxBatchSize < |Batches(n)|
    ensures forall i :: 0 <= i < |Batches(n)| ==>
      (Batches(n)[i].start <= x < Batches(n)[i].end <==> i == x / MaxBatchSize)
  {
    BatchRangesShape(0, n);
  }

  // ---------------------------------------------------------------------------
  // The collection and the batch loop
  // ---------------------------------------------------------------------------

  /** The arguments of one `collection.add` call. */
  datatype Batch = Batch(ids: seq<string>, embeddings: seq<seq<real>>, metadatas: seq<Metadata>)

  /** The vector store, seen only through the `add` calls it receives. */
  class Collection {
    ghost var added: seq<Batch>

    constructor ()
      ensures added == []
    {
      added := [];
    }

    method Add(ids: seq<string>, embeddings: seq<seq<real>>, metadatas: seq<Metadata>)
      modifies this
      ensures added == old(added) + [Batch(ids, embeddings, metadatas)]
    {
      added := added + [Batch(ids, embeddings, metadatas)];
    }
  }

  /** The `add` call for each range: the same slice of all three lists. */
  function SliceBatches(ids: seq<string>, embeddings: seq<seq<real>>, metadatas: seq<Metadata>, rs: seq<Range>): (bs: seq<Batch>)
    requires |embeddings| == |ids| && |metadatas| == |ids|
    requires forall i :: 0 <= i < |rs| ==> rs[i].start <= rs[i].end <= |ids|
    ensures |bs| == |rs|
  {
    seq(|rs|, i requires 0 <= i < |rs| =>
      Batch(ids[rs[i].start..rs[i].end], embeddings[rs[i].start..rs[i].end], metadatas[rs[i].start..rs[i].end]))
  }

  /** The `add` calls the job makes for a merged dataset, in call order. */
  ghost function AddCalls(merged: Dict<string, Item>): seq<Batch>
    requires merged.Valid()
  {
    SliceBatches(merged.keys, EmbeddingList(merged), MetadataList(merged), Batches(|merged.keys|))
  }

  /**
   * Builds the three lists and hands them to the collection one 5000-entry
   * slice at a time.
   */
  method IngestDataIntoCollection(merged: Dict<string, Item>, collection: Collection)
    requires merged.Valid()
    modifies collection
    ensures collection.added == old(collection.added) + AddCalls(merged)
  {
    var ids, metadatas, embeddings := BuildLists(merged);
    assert metadatas == MetadataList(merged);
    assert embeddings == EmbeddingList(merged);
    var n := |ids|;
    var start := 0;
    ghost var done: seq<Range> := [];
    while start < n
      invariant Batches(n) == done + BatchRanges(start, n)
      invariant forall i :: 0 <= i < |done| ==> done[i].start <= done[i].end <= n
      invariant collection.added == old(collection.added) + SliceBatches(ids, embeddings, metadatas, done)
      decreases n - start
    {
      var end := Min(start + MaxBatchSize, n);
      collection.Add(ids[start..end], embeddings[start..end], metadatas[start..end]);
      done := done + [Range(start, end)];
      start := start + MaxBatchSize;
    }
  }

  // ---------------------------------------------------------------------------
  // What the logged calls add up to
  // ---------------------------------------------------------------------------

  function Concat<T>(ss: seq<seq<T>>): seq<T> {
    if ss == [] then [] else ss[0] + Concat(ss[1..])
  }

  function Slices<T>(s: seq<T>, rs: seq<Range>): (parts: seq<seq<T>>)
    requires forall i :: 0 <= i < |rs| ==> rs[i].start <= rs[i].end <= |s|
    ensures |parts| == |rs|
  {
    seq(|rs|, i requires 0 <= i < |rs| => s[rs[i].start..rs[i].end])
  }

  /** Gluing slices together: the first slice, then the rest. */
  lemma ConcatSlicesCons<T>(s: seq<T>, rs: seq<Range>)
    requires rs != [] && forall i :: 0 <= i < |rs| ==> rs[i].start <= rs[i].end <= |s|
    ensures Concat(Slices(s, rs)) == s[rs[0].start..rs[0].end] + Concat(Slices(s, rs[1..]))
  {
    assert Slices(s, rs)[1..] == Slices(s, rs[1..]);
  }

  /** Gluing the batch slices of `s[start..]` back together gives `s[start..]`. */
  lemma {:induction false} ConcatBatchSlices<T>(s: seq<T>, start: nat)
    requires start <= |s|
    ensures Concat(Slices(s, BatchRanges(start, |s|))) == s[start..]
    decreases |s| - start
  {
    var rs := BatchRanges(start, |s|);
    if start < |s| {
      var next := start + MaxBatchSize;
      ConcatSlicesCons(s, rs);
      if next <= |s| {
        ConcatBatchSlices(s, next);
        assert s[start..] == s[start..next] + s[next..];
      } else {
        assert rs[1..] == [];
      }
    }
  }

  function IdsOf(bs: seq<Batch>): seq<seq<string>> {
    seq(|bs|, i requires 0 <= i < |bs| => bs[i].ids)
  }

  function EmbeddingsOf(bs: seq<Batch>): seq<seq<seq<real>>> {
    seq(|bs|, i requires 0 <= i < |bs| => bs[i].embeddings)
  }

  function MetadatasOf(bs: seq<Batch>): seq<seq<Metadata>> {
    seq(|bs|, i requires 0 <= i < |bs| => bs[i].metadatas)
  }

  /**
   * The logged calls, concatenated in call order, give back the whole id,
   * embedding and metadata lists: every anime is added exactly once, in the
   * merged dataset's order.
   */
  lemma AddCallsReassemble(merged: Dict<string, Item>)
    requires merged.Valid()
    ensures Concat(IdsOf(AddCalls(merged))) == merged.keys
    ensures Concat(EmbeddingsOf(AddCalls(merged))) == EmbeddingList(merged)
    ensures Concat(MetadatasOf(AddCalls(merged))) == MetadataList(merged)
    ensures Distinct(Concat(IdsOf(AddCalls(merged))))
  {
    var n := |merged.keys|;
    var calls := AddCalls(merged);
    ConcatBatchSlices(merged.keys, 0);
    ConcatBatchSlices(EmbeddingList(merged), 0);
    ConcatBatchSlices(MetadataList(merged), 0);
    assert IdsOf(calls) == Slices(merged.keys, Batches(n));
    assert EmbeddingsOf(calls) == Slices(EmbeddingList(merged), Batches(n));
    assert MetadatasOf(calls) == Slices(MetadataList(merged), Batches(n));
  }

  /**
   * Call `i` carries the range `Batches(n)[i]` of all three lists, so within
   * a call position `k` of ids, embeddings and metadata belongs to one anime.
   */
  lemma AddCallsAligned(merged: Dict<string, Item>, i: nat, k: nat)
    requires merged.Valid()
    requires i < |AddCalls(merged)| && k < |AddCalls(merged)[i].ids|
    ensures var b := AddCalls(merged)[i]; var id := b.ids[k];
      && 0 < |b.ids| <= MaxBatchSize
      && |b.embeddings| == |b.ids| && |b.metadatas| == |b.ids|
      && b.ids == merged.keys[Batches(|merged.keys|)[i].start..Batches(|merged.keys|)[i].end]
      && id in merged.entries
      && b.metadatas[k] == merged.entries[id].metadata
      && b.embeddings[k] == WeightedMerge(merged.entries[id].collaborative, merged.entries[id].content)
  {
  }
}
