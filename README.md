# Multi-source video dashboard: a Dafny model of its handlers

The dashboard back end answers three requests. The model covers each of them.

- **YouTube search** (`search_videos`, module `Search`).
  - A leading `#` is dropped from the query.
  - Result pages are followed while each carries a `nextPageToken`. Video ids are collected until the count reaches `max_results`.
  - The ids are sent to the statistics endpoint in slices of 50.
  - Each returned item becomes one normalised record: the first ten characters of `publishedAt`, missing counters as 0, the short `youtu.be` URL, platform `"YouTube"`, and the lowercased query as its keywords.
  - A truthy `error` in a search page aborts with 502. A failed statistics call skips that batch.
- **Spreadsheet upload** (`upload_excel`, module `Upload`).
  - Headers are stripped and lowercased. Empty cells become `""`.
  - Each row becomes a dictionary. A later column with the same name overwrites an earlier one.
  - The `manual_data` collection (class `ManualStore`) is replaced by the new rows, but only when there is at least one row.
  - A read failure becomes status 500 with its message.
- **Combined list** (`combined_videos`, module `Combined`).
  - The YouTube results are fetched only when `source` is `"all"` or `"youtube"`.
  - A stored record is kept when `start <= str(published) <= end` (string comparison) and the lowercased query is a substring of one of its stripped, lowercased, comma-separated keywords.
  - An empty channel is filled from the record's `id`.
  - The YouTube records and the kept records are concatenated and sorted ascending by `published`, stably. Mixing string and integer publish values makes Python's sort fail, which the server reports as status 500.

Modules `Text` and `Documents` give the Python string and dictionary semantics the handlers depend on:
- code-point lexicographic `<=`;
- `lower()`, `strip()` with Python's white-space set, `split(",")` and `in`;
- `str()` of a cell;
- `dict.get` with a default, and truthiness.

The imperative parts of the source are methods with loops, each proved equal to a specification function:
- the page loop (`CollectVideoIds` against `Paginate`);
- the batch loop (`FetchStatistics` against `Enrich` over `Chunks`);
- the filter loop (`FilterManual` against `KeptManual`);
- the upload, which updates `ManualStore.documents`.

Lemmas then state what the specification functions promise.

Behaviour of the code worth knowing (the model follows it, except in the last point):
- The combined list is sorted ascending, oldest first.
- Statistics items are kept as returned, so an id returned twice gives two records.
- An empty query matches every stored record in the date window (`EmptyQueryKeepsWindow`).
- Only the `channel` of a stored record gets a default; its other fields are returned as stored.
- Stored publish values are compared and returned as stored, whatever their length.
- A search error in the combined handler is returned as the combined handler's error.
- A `max_results` of zero or less still returns the first id of the first page (`NonPositiveCap`).
- A page whose `error` is the empty string is not a failure. It counts as a page with no items and no next token.
- The documents read back from the collection carry the database's `_id`, which the JSON reply cannot encode. Here the model does not follow the code: `Combined.Combined` is the intended reply and `Combined.CombinedAsWritten` the reply as written (see "## Findings").

## Model

| member | source | states |
|---|---|---|
| Text.LexLeReflexive | main.py:152 | every string is `<=` itself |
| Text.LexLeTotal | main.py:152 | any two strings are ordered one way or the other |
| Text.LexLeAntisymmetric | main.py:162 | two strings each `<=` the other are equal |
| Text.LexLeTransitive | main.py:152 | `<=` on strings is transitive |
| Text.ProperExtensionAbove | main.py:151-152 | a value that extends a date string (a time after the date) is above it, so it is outside a window ending on that date |
| Text.LowerIdempotent | main.py:147 | lowering is idempotent and leaves no upper-case ASCII letter |
| Text.StripSpec | main.py:155 | `strip()` yields one contiguous piece of the input; only white space is cut on either side, and the piece neither starts nor ends with white space |
| Text.Split | main.py:154 | `split(",")` yields at least one piece, and no piece contains the separator |
| Text.JoinSplit | main.py:154 | joining the pieces with the separator gives the input back |
| Text.ContainsIff | main.py:155 | `q in s` holds exactly when some slice of `s` equals `q` |
| Text.NatString | main.py:151 | `str(n)` of a natural number is a non-empty string of decimal digits |
| Text.ParseNatString | main.py:151 | reading `str(n)` back as a decimal gives `n` |
| Search.StripHash | main.py:86-87 | a query starting with `#` loses exactly that character; any other query is unchanged |
| Search.StripHashOnce | main.py:86-87 | only one leading `#` is removed |
| Search.FirstStop | main.py:106-108 | the page where the search stops for lack of a next token: it has none, and every earlier page has one |
| Search.TakeUntilCap | main.py:101-105 | one page extends the ids with a prefix of its items, never past the cap when starting below it, and with all items when the cap is not reached |
| Search.CollectVideoIds | main.py:88-108 | the page loop with its `total` counter returns exactly `Paginate` of the pages |
| Search.CollectedIds | main.py:88-108 | with a cap of at least 1, the ids are the first `max_results` ids of the pages up to the first one without a next token, in page order; at most the cap; a prefix of all ids |
| Search.NonPositiveCap | main.py:101-105 | with a cap of zero or less the result is the first id of the first page (or none), or that page's error |
| Search.PaginateFails | main.py:98-100 | a failed search fails with 502 and the message of an aborting page at or before the last page requested |
| Search.Paginate | main.py:88-108 | a failed search carries status 502; a successful one keeps the ids it already had, in front |
| Search.PaginateReachesFailure | main.py:98-106 | the first aborting page that is requested (the first page, or a later one reached below the cap) makes the search fail with 502 and its message |
| Search.Chunks | main.py:111-112 | there are no batches exactly when there are no ids, and the first batch is the first 50 ids (all of them when fewer) |
| Search.ChunksPartition | main.py:111-112 | the batches concatenate back to the ids, and each holds 1 to 50 ids |
| Search.ChunksAreSlices | main.py:111-112 | there are `ceil(n / 50)` batches, and batch `i` is the slice `ids[50*i : 50*i+50]` |
| Search.ToRecord | main.py:122-133 | a record keeps the item's id, title and channel title, links `https://youtu.be/<id>`, has as `published` the first ten characters of `publishedAt` (a prefix of it), keeps each counter the item has and gives 0 for a missing one, and carries platform `YouTube` and the given keywords |
| Search.BatchRecords | main.py:117-133 | a batch whose statistics call fails gives no record; one whose call succeeds gives one record per returned item |
| Search.Enrich | main.py:110-133 | when every statistics call fails there are no records |
| Search.EnrichAppend | main.py:110-119 | the records of consecutive batch lists are the records of each, in order |
| Search.FailedBatchSkipped | main.py:117-118 | a batch whose statistics call fails contributes nothing, and the other batches contribute as if it were absent |
| Search.EnrichFromItems | main.py:119-133 | every record comes from an item returned for a batch whose statistics call succeeded |
| Search.FetchStatistics | main.py:110-133 | the batch loop returns exactly the records of `Enrich` over the 50-id batches |
| Search.SearchResponse | main.py:134 | `total` equals the number of records returned |
| Search.EnrichRecord | main.py:110-133 | every record of the batches is the record of an item returned for one of them: the item's fields, `published` a prefix of the item's date, 0 for each missing counter |
| Search.SearchRecords | main.py:110-134 | every returned record has the hash-stripped, lowercased query as keywords, platform `YouTube`, its short URL and a `published` of at most ten characters, and is the record of an item returned for one of the 50-id batches of the collected ids, keeping its fields and giving 0 for each missing counter |
| Search.SearchVideos | main.py:85-134 | the handler returns exactly `SearchResponse`: the search error, or the records of the collected ids |
| Upload.NormalizeHeader | main.py:70 | a normalised header is never longer than the header |
| Upload.NormalizeHeaderIdempotent | main.py:70 | a normalised header has no upper-case letter, and normalising it again changes nothing |
| Upload.Columns | main.py:70 | one column name per header, each the normalised header at the same position |
| Upload.RowDocument | main.py:71-73 | a row's dictionary has at most one key per cell, and the name of the last column with a cell is always a key |
| Upload.RowDocumentKeys | main.py:71-73 | a row's dictionary has exactly the column names of the cells the row has |
| Upload.RowDocumentValue | main.py:71-73 | each key holds the cell of the last column with that name, an empty cell read as `""` |
| Upload.SheetDocuments | main.py:73 | one dictionary per data row |
| Upload.SheetDocumentKeys | main.py:70-73 | the keys of each row's dictionary are the normalised headers of the columns the row has cells for |
| Upload.RectangularSheetKeys | main.py:69-73 | in a rectangular sheet every row's dictionary has exactly the normalised headers as keys |
| Upload.AfterUpload | main.py:74-76 | an upload with rows becomes the collection; the collection is empty afterwards only when it was empty and the upload had no rows |
| Upload.UploadIdempotent | main.py:74-77 | a sheet with rows replaces the collection; an empty sheet leaves it as it was; uploading again changes nothing |
| Upload.ManualStore.constructor | main.py:23-25 | a new collection is empty; every handler takes the store in any state |
| Upload.ManualStore.UploadExcel | main.py:67-79 | an unreadable file fails with 500 and its message and leaves the collection; a readable one replies `ok` with the row count and leaves the collection as `AfterUpload` of it |
| Upload.UploadTwice | main.py:74-77 | the same file uploaded twice gives the same reply and the state after one upload |
| Combined.InWindow | main.py:151-152 | a record without a publish value is inside the window exactly when `start` is empty |
| Combined.Kept | main.py:151-155 | a record without keywords is kept exactly when it is inside the window and the query is empty |
| Combined.FillChannel | main.py:158-159 | the filled record always has a channel and has exactly the record's keys plus `channel`; a record with a truthy channel is unchanged |
| Combined.FillChannelSpec | main.py:158-159 | filling sets `channel`, only when it is missing, `""` or `0`, to the record's `id` (or `""`); it changes no other key |
| Combined.Filtered | main.py:150-156 | the filtered list is never longer than its input |
| Combined.KeptManual | main.py:145-156 | `filtered_manual` is never longer than the stored records |
| Combined.FilteredMembers | main.py:150-159 | a document is in the filtered list exactly when it is the channel-filled form of a record the test accepts; the list is no longer than the input |
| Combined.KeptManualMembers | main.py:150-156 | a document is in `filtered_manual` exactly when it is the channel-filled form of a stored record inside the window whose keywords contain the lowercased query |
| Combined.EmptyQueryKeepsWindow | main.py:154-155 | with an empty query, a record is kept exactly when it is inside the date window |
| Combined.FilterManual | main.py:145-159 | the loop over the stored records builds exactly `KeptManual` |
| Combined.KeyLeTotal | main.py:162 | any two sort keys are ordered one way or the other |
| Combined.KeyLeReflexive | main.py:162 | every key is `<=` itself |
| Combined.KeyLeTransitive | main.py:162 | the key order is transitive |
| Combined.KeyLeAntisymmetric | main.py:162 | two keys each `<=` the other are equal |
| Combined.Insert | main.py:162 | inserting makes the list one entry longer |
| Combined.SortByPublished | main.py:162 | the sort keeps the length of its input |
| Combined.InsertPermutes | main.py:162 | inserting adds exactly the one entry |
| Combined.InsertSorted | main.py:162 | inserting into a sorted list keeps it sorted |
| Combined.InsertWithKey | main.py:162 | the inserted entry goes before every entry with the same key |
| Combined.SortByPublishedSpec | main.py:162 | the sort yields a list sorted by `published` that is a permutation of its input, with entries of equal key in their original order |
| Combined.Combined | main.py:164 | `total` equals the number of entries returned |
| Combined.CombinedOrder | main.py:161-162 | the combined list is the YouTube records followed by the kept records, sorted ascending by `published`, permuted only, stably |
| Combined.CombinedManualEntries | main.py:150-162 | every stored record in the combined list is the channel-filled form of a stored record inside the window whose keywords contain the query |
| Combined.CombinedKeepsStoredRecords | main.py:150-162 | every kept stored record, channel filled, is in the combined list |
| Combined.ManualSourceIgnoresSearch | main.py:141-143 | for a source other than `all` or `youtube`, the search responses do not affect the result |
| Combined.TextDatesSort | main.py:161-162 | when every stored publish value is a string, the handler fails exactly when the search does |
| Combined.CombinedVideos | main.py:140-164 | the handler on the store's documents returns exactly `Combined` |
| Combined.CombinedAsWritten | main.py:146-164 | the reply as the code builds it returns every failure of the intended reply unchanged |
| Combined.AsWrittenNoStoredRecords | main.py:146-164 | as written, a successful reply never holds a stored record |
| Combined.StoredRecordBreaksReply | main.py:146-164 | for a request without YouTube whose one stored record passes the tests, the intended reply lists that record and the reply as written fails with 500 |
| Combined.StoredRecordExample | main.py:151-155 | such a record exists: one published on `b`, the window `a` to `c`, the empty query |

## Left out

- The HTTP layer is not modelled: FastAPI routing, CORS, static files, query-parameter parsing and the JSON response with its charset.
- Reading `YOUTUBE_API_KEY` and `MONGO_URI` at start-up is not modelled. It is configuration only.
- The network calls and the `yt` helper are left out. The model takes their results as inputs:
  - the search pages as a sequence of responses;
  - the statistics call as a function from a batch of ids to the items, or to a failure.
- The URLs with the query, the date bounds and the comma-joined batch are not built.
- `start` and `end` reach the search provider only inside the URL. The provider's date filtering is part of the page responses given.
- Search pages: the provider's chain of pages is given as a finite sequence that ends with a page without a next token (the `ChainEnds` requirement). Python loops forever only when, from some page on, every page has no items and a next token. The model demands the final page even when the cap stops the search first; that page is then never requested.
- Malformed provider items (a missing `id`, `snippet` or `statistics` key) raise `KeyError` in the source. The model's items are well formed.
- `int()` of a counter is modelled as a natural number or absent. Counters that are not numeric are not modelled.
- `fix` re-decoding of titles and channel names is modelled as the identity. It is a text-encoding repair with no effect on valid UTF-8.
- Lowercasing covers ASCII letters only (`Text.LowerChar`). Python's `lower()` also lowers other Unicode letters.
- Parsing the spreadsheet (pandas `read_excel`) is left out. The model takes the parsed header row and cells as input, or the parser's error message.
- A sheet row may be shorter than the header row in the model; its missing trailing cells give no keys. pandas always reads a rectangular sheet, the case `Upload.RectangularSheetKeys` states.
- Spreadsheet cells are text or whole numbers only. Floats, dates and timestamps as pandas renders them are not modelled.
- The Mongo collection is a sequence of documents. Not modelled:
  - the `_id` field the database adds, as a field; its effect on the combined reply is the finding below (`Combined.CombinedAsWritten`);
  - a database failure between `delete_many` and `insert_many`;
  - concurrent requests.
- `combined_videos` fills the channel on the dictionary it has already appended. The model appends the filled copy, which is the same value. Aliasing of stored documents across requests is not modelled.
- `list.sort` sorts a local list in place. It is modelled as a stable insertion sort on values, with no aliasing.
- The order in which Python's sort compares elements is not modelled. Only its result is, plus the fact that keys mixing `str` and `int` raise `TypeError`. Any comparison sort of such a list must compare an integer key with a string key.
- The `/` route that serves the front-end page is out of scope.

## Findings

| source | as written | input that shows it | evidently intended | confidence | as-written member | corrected member |
|---|---|---|---|---|---|---|
| main.py:146-164 | `find({})` returns each document with the database's `_id` object, and the JSON reply cannot encode that object, so any kept stored record makes the handler fail with 500 | `source` other than `all`/`youtube`, empty query, window `a` to `c`, one stored record published `b` (`Combined.StoredRecordBreaksReply`) | the reply lists the kept stored records (`Combined.CombinedKeepsStoredRecords`) | not executed | Combined.CombinedAsWritten | Combined.Combined |
