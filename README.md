# YouTube metadata read-through cache, modelled in Dafny

The `myutils` package keeps a local SQLite store of YouTube channels and
videos (`YouTubeDB`), and puts a read-through cache in front of the YouTube
Data API v3 (`YouTubeAPI`). A lookup checks the store first. On a miss it
asks the remote catalogue and inserts what comes back. A channel listing
pages through `search.list` by following `nextPageToken`, can refresh video
durations in batches of 50, and answers a date-window query from the store
whenever that window already holds rows.

This project models that core and proves what it promises:

- `wrappers.dfy` (`Wrappers`): `Option`.
- `collation.dfy` (`Collation`): the BINARY collation SQLite uses for `BETWEEN`
  and `ORDER BY` on TEXT (a total order: reflexive, total, antisymmetric,
  transitive), and the substring test behind `LIKE '%k%'`, proved equal to
  "occurs at some offset".
- `timestamps.dfy` (`Timestamps`): the two `to_utc_z` helpers and the
  `%Y-%m-%dT%H:%M:%SZ` rendering of a datetime.
  - A parser for that format is proved to be its inverse in both directions.
- `youtube_db.dfy` (`YouTubeDb`): class `YouTubeDB`.
  - The two tables are map fields, keyed by primary key.
  - The class invariant is the foreign key `videos.channel_id → channels`.
  - Each `INSERT OR IGNORE` and `UPDATE` statement is also written as a
    function on the maps (`ChannelInserted`, `VideoStored`,
    `DurationUpdated`). Their properties are lemmas about those functions.
  - The title search states its result in its own postcondition. The window
    query is specified by the relation `IsWindowResult`: the rows the answer
    must hold, in the order it must hold them.
  - The window query is a loop proved to return exactly the in-window rows,
    newest first, each once.
- `youtube_api.dfy` (`YouTubeApi`): class `YouTubeAPI`.
  - The remote API is an oracle value (`Remote`): a total function per
    endpoint from request to response.
  - A ghost request log `requests` records every remote call, so "a hit
    makes no remote call" is a statement about that log.
  - The paginated listing is given as a ghost sequence of pages. `IsListing`
    ties that sequence to the oracle: page k answers the request that carries
    page k-1's token. The sequence is proved to be unique.
  - Each loop of the source is a `while` loop. Most are proved against a fold
    over their input: `StoredAll`, `DetailsApplied`, `BatchesApplied`,
    `PagesSaved` and `PagesRequests`. The loop over a search page's items
    (`CollectSearchItems`) is proved against the comprehensions `SearchIds`
    and `SearchDicts`.
  - `get_video_with_cache` returns two different shapes. A hit returns the
    positional `SELECT *` tuple (`Cached`, a `VideoRecord`). A miss returns
    the dict it built (`Fetched`, a `VideoDict`).

Python truthiness is modelled as written:

- `if not next_page_token` stops on both `None` and `""`.
- `if results` treats an empty result list as a miss.

`INSERT OR IGNORE` follows SQLite:

- A NULL in a NOT NULL column skips the row.
- An existing primary key skips the row.
- A foreign-key violation is not covered by `OR IGNORE`. It raises
  `IntegrityError` and leaves the store unchanged.
  - The model returns `false` (`InsertVideo`) or `IntegrityError`
    (`GetVideoWithCache`) instead.

## Model

| member | source | states |
|---|---|---|
| Collation.LexLeReflexive | myutils/youtube_api/fetch_youtube_data.py:185-186 | every TEXT value is BETWEEN itself and itself |
| Collation.LexLeTotal | myutils/youtube_api/fetch_youtube_data.py:186 | any two `published_at` keys are comparable, so `ORDER BY published_at DESC` is well defined |
| Collation.LexLeAntisymmetric | myutils/youtube_api/fetch_youtube_data.py:186 | two keys each `<=` the other are equal |
| Collation.LexLeTransitive | myutils/youtube_api/fetch_youtube_data.py:185-186 | the BINARY collation is transitive |
| Collation.HasSubstringIff | myutils/youtube_api/youtube_db.py:93-95 | the executable test is true exactly when the keyword occurs in the title at some offset |
| Timestamps.FormatUtcZ | myutils/youtube_api/fetch_youtube_data.py:122-123 | a datetime renders as 20 characters with `-`, `-`, `T`, `:`, `:` and a final `Z` in the `YYYY-MM-DDTHH:MM:SSZ` positions |
| Timestamps.FormatThenParse | myutils/youtube_api/fetch_youtube_data.py:122-123 | parsing the rendering of any datetime gives that datetime back |
| Timestamps.ParseThenFormat | myutils/youtube_api/fetch_youtube_data.py:172-173 | every string the parser accepts is the rendering of the datetime it parses to |
| Timestamps.PassThroughUtcZKeepsStrings | myutils/youtube_api/fetch_youtube_data.py:121-124 | the listing's helper hands a str on untouched |
| Timestamps.AppendUtcZAppendsOnce | myutils/youtube_api/fetch_youtube_data.py:174-176 | the window helper returns a str ending in `Z` unchanged, otherwise appends exactly one `Z`; the result always ends in `Z` |
| Timestamps.AppendUtcZIdempotent | myutils/youtube_api/fetch_youtube_data.py:171-176 | applying the window helper to its own output changes nothing |
| Timestamps.UtcZHelpersAgreeOnDateTimes | myutils/youtube_api/fetch_youtube_data.py:171-173 | on a datetime both helpers give the same `YYYY-MM-DDTHH:MM:SSZ` text |
| Timestamps.AsTimeArg | myutils/youtube_api/fetch_youtube_data.py:195-199 | the normalised window bounds reach the listing's helper unchanged (it passes them through) |
| YouTubeDb.RowOf | myutils/youtube_api/youtube_db.py:31-33 | a dict becomes a row exactly when `title` and `channel_id`, the NOT NULL columns, are present |
| YouTubeDb.AsDict | myutils/youtube_api/fetch_youtube_data.py:58-59 | a stored row read column by column keeps its id and converts back to the same row |
| YouTubeDb.StoredRowReadsBackAsDict | myutils/youtube_api/fetch_youtube_data.py:78-91 | a dict that is stored reads back as itself, so the tuple a later hit returns holds the values of the dict the miss returned |
| YouTubeDb.InsertChannelKeepsExisting | myutils/youtube_api/youtube_db.py:52-55 | inserting an existing `channel_id` leaves `channels` unchanged, so the old title stays |
| YouTubeDb.InsertChannelAddsNew | myutils/youtube_api/youtube_db.py:52-55 | a new id with a title adds exactly that pair and no other key |
| YouTubeDb.InsertChannelSkipsNullTitle | myutils/youtube_api/youtube_db.py:25 | a NULL `channel_title` is silently skipped |
| YouTubeDb.InsertChannelIdempotent | myutils/youtube_api/youtube_db.py:52-55 | repeating a channel insert is a no-op |
| YouTubeDb.InsertChannelPreservesIntegrity | myutils/youtube_api/youtube_db.py:39 | inserting a channel keeps every video's channel present |
| YouTubeDb.InsertVideoKeepsExisting | myutils/youtube_api/youtube_db.py:62-76 | inserting an existing `video_id` succeeds and leaves `videos` unchanged |
| YouTubeDb.InsertVideoAddsNew | myutils/youtube_api/youtube_db.py:62-76 | a new complete dict whose channel is stored adds exactly its row |
| YouTubeDb.InsertVideoSkipsNullColumns | myutils/youtube_api/youtube_db.py:31-33 | a dict with no `title` or no `channel_id` is silently skipped, without error |
| YouTubeDb.InsertVideoRejectsUnknownChannel | myutils/youtube_api/youtube_db.py:39 | a new complete dict whose channel is not stored fails (IntegrityError) |
| YouTubeDb.InsertVideoIdempotent | myutils/youtube_api/youtube_db.py:62-76 | after a successful insert, repeating it succeeds and changes nothing |
| YouTubeDb.InsertVideoPreservesIntegrity | myutils/youtube_api/youtube_db.py:39 | a successful video insert keeps the foreign key intact |
| YouTubeDb.DurationUpdateTouchesOneField | myutils/youtube_api/youtube_db.py:83-86 | the update keeps the set of ids and every other row, changes only `duration` of the named row, and is a no-op for an absent id |
| YouTubeDb.DurationUpdatePreservesIntegrity | myutils/youtube_api/youtube_db.py:83-86 | a duration update keeps the foreign key intact |
| YouTubeDb.WindowResultEmptyIff | myutils/youtube_api/fetch_youtube_data.py:188-192 | a correct window answer is empty exactly when no stored row lies in the window |
| YouTubeDb.InsertionPoint | myutils/youtube_api/fetch_youtube_data.py:186 | the position returned is after every strictly newer row and at a row not newer |
| YouTubeDb.InsertKeepsNewestFirst | myutils/youtube_api/fetch_youtube_data.py:186 | inserting a row at its insertion point keeps a newest-first sequence newest first |
| YouTubeDb.InsertAtKeepsDistinct | myutils/youtube_api/fetch_youtube_data.py:184-186 | inserting a row with a new id keeps ids distinct |
| YouTubeDb.WindowStepSound | myutils/youtube_api/fetch_youtube_data.py:183-188 | considering one more stored row keeps the partial answer exact, distinct and newest first |
| YouTubeDb.YouTubeDB.constructor | myutils/youtube_api/youtube_db.py:9-11 | opening a store keeps what the file holds and establishes the invariant |
| YouTubeDb.YouTubeDB.InitDb | myutils/youtube_api/youtube_db.py:22-44 | `CREATE TABLE IF NOT EXISTS` changes no data and keeps the invariant, so re-running it is harmless |
| YouTubeDb.YouTubeDB.InsertChannel | myutils/youtube_api/youtube_db.py:49-57 | the new `channels` is the `INSERT OR IGNORE` result, `videos` unchanged, invariant kept |
| YouTubeDb.YouTubeDB.InsertVideo | myutils/youtube_api/youtube_db.py:59-78 | fails exactly on a foreign-key violation of a row that would be inserted, and then changes nothing; otherwise `videos` is the `INSERT OR IGNORE` result; `channels` unchanged |
| YouTubeDb.YouTubeDB.UpdateVideoDuration | myutils/youtube_api/youtube_db.py:80-88 | the new `videos` sets only the named row's duration; `channels` unchanged; invariant kept |
| YouTubeDb.YouTubeDB.SearchChannelsByTitle | myutils/youtube_api/youtube_db.py:90-98 | returns exactly the stored `(channel_id, channel_title)` pairs whose title contains the keyword, each once |
| YouTubeDb.YouTubeDB.QueryChannelVideos | myutils/youtube_api/fetch_youtube_data.py:181-188 | returns exactly the stored rows of the channel with `start <= published_at <= end` (none on a NULL operand), each once, newest first |
| YouTubeApi.DurationFailureIsNone | myutils/youtube_api/fetch_youtube_data.py:72-76 | in the single-video path a missing or unparsable duration yields `None`, not an error |
| YouTubeApi.ChunksFromFlatten | myutils/youtube_api/fetch_youtube_data.py:215-216 | the batches from offset i concatenate back to `ids[i:]` |
| YouTubeApi.ChunksFromSizes | myutils/youtube_api/fetch_youtube_data.py:215-216 | every batch holds 1 to 50 ids |
| YouTubeApi.ChunksFromCount | myutils/youtube_api/fetch_youtube_data.py:215-216 | there are ceil((n - i) / 50) batches from offset i |
| YouTubeApi.BatchesPartition | myutils/youtube_api/fetch_youtube_data.py:215-216 | the batches concatenate to the input, each holds 1 to 50 ids, and there are ceil(n/50) of them, one remote call each |
| YouTubeApi.DetailsAppliedEffect | myutils/youtube_api/fetch_youtube_data.py:223-233 | a batch response changes durations only, leaves rows it does not name unchanged, and gives a named row the parse of its last item (`None` when parsing fails) |
| YouTubeApi.BatchesAppliedKeepsRows | myutils/youtube_api/fetch_youtube_data.py:213-233 | a duration refresh keeps every row and every column but `duration`, and a row that no response of any batch names keeps its duration too |
| YouTubeApi.PagesRequestsWithoutDurations | myutils/youtube_api/fetch_youtube_data.py:126-139 | without durations the loop sends one search per page, the first with no token and page k with page k-1's `nextPageToken` |
| YouTubeApi.ListingsAgreeUpTo | myutils/youtube_api/fetch_youtube_data.py:129-139 | two listings of the same query agree page by page |
| YouTubeApi.ListingIsUnique | myutils/youtube_api/fetch_youtube_data.py:166-168 | the remote determines the listing: the loop stops at the first page without a next token |
| YouTubeApi.StoredAllEffect | myutils/youtube_api/fetch_youtube_data.py:160-161 | inserting dicts in turn keeps every old row, adds every complete dict, and adds nothing else |
| YouTubeApi.ListedSplit | myutils/youtube_api/fetch_youtube_data.py:143-145 | a video is listed on the pages so far iff it is listed on an earlier page or on the last one |
| YouTubeApi.PageStoredEffect | myutils/youtube_api/fetch_youtube_data.py:143-161 | one page's inserts keep old rows and add each listed video (and only those) with this channel and no duration |
| YouTubeApi.PagesSavedWithoutDurations | myutils/youtube_api/fetch_youtube_data.py:126-168 | a sync without durations keeps every old row, stores every video of every page, and adds only listed videos of that channel with `duration = None` |
| YouTubeApi.PagesSavedReachesEveryPage | myutils/youtube_api/fetch_youtube_data.py:126-168 | with durations on, every video of every page is stored and old rows change at most in `duration` |
| YouTubeApi.YouTubeAPI.constructor | myutils/youtube_api/fetch_youtube_data.py:41-43 | the cache starts over a valid store with an empty request log |
| YouTubeApi.YouTubeAPI.GetChannelWithCache | myutils/youtube_api/fetch_youtube_data.py:93-113 | a hit returns the stored pair with no remote call and no change; a miss sends one request and, when an item comes back, inserts and returns `(channel_id, title)`; otherwise returns None with the store unchanged |
| YouTubeApi.YouTubeAPI.GetVideoWithCache | myutils/youtube_api/fetch_youtube_data.py:50-91 | a hit returns the stored `SELECT *` tuple (not a dict) with no remote call and no change; a miss with no item returns None after one request; otherwise the channel read-through runs and the video is stored with exactly the fields built from the response, and that dict is returned, or IntegrityError when its channel stays unknown |
| YouTubeApi.YouTubeAPI.ApplyDetails | myutils/youtube_api/fetch_youtube_data.py:223-233 | the items of one response update durations in order; `channels` unchanged |
| YouTubeApi.YouTubeAPI.FetchAndUpdateVideoDetails | myutils/youtube_api/fetch_youtube_data.py:213-233 | sends one request per batch of `range(0, n, 50)`, in order, and applies each response's durations in turn; `channels` unchanged (with `BatchesAppliedKeepsRows`: only ids present in a response have their duration changed) |
| YouTubeApi.YouTubeAPI.CollectSearchItems | myutils/youtube_api/fetch_youtube_data.py:143-158 | collects the page's ids and the dicts to insert (this channel, `duration = None`), in listing order |
| YouTubeApi.YouTubeAPI.InsertAll | myutils/youtube_api/fetch_youtube_data.py:160-161 | inserts the dicts in order, none failing since their channel is stored |
| YouTubeApi.YouTubeAPI.SaveSearchPage | myutils/youtube_api/fetch_youtube_data.py:129-164 | one pass sends the search with the given token, stores the page's items and, if asked, refreshes their durations |
| YouTubeApi.YouTubeAPI.SaveListing | myutils/youtube_api/fetch_youtube_data.py:126-168 | the `while True` loop visits every page of the listing in order, passing each `nextPageToken` on, and stops on the page without one |
| YouTubeApi.YouTubeAPI.FetchAndSaveVideosFromChannel | myutils/youtube_api/fetch_youtube_data.py:115-168 | after the channel read-through, an unknown channel returns with no insert and no search; otherwise every page is saved; the request log is the channel request (on a miss) followed by the listing's requests |
| YouTubeApi.YouTubeAPI.GetChannelVideosWithCache | myutils/youtube_api/fetch_youtube_data.py:170-211 | returns the exact newest-first window answer; a non-empty local window means no remote call and no change; an empty one syncs that window with durations off, then re-queries |

## Left out

- The Google API client and its `call_api` dispatch are replaced by the `Remote` oracle. They are foreign calls.
- Transport failures, HTTP errors and quota errors raised by the client are not modelled.
- `isodate.parse_duration` and its float `total_seconds()` are an uninterpreted `string -> Option<int>` parameter. They are a foreign library and floating point.
- Connection handling, `commit`/`close`, `PRAGMA foreign_keys` mechanics and the two indexes are not modelled. They are storage plumbing; the indexes do not change any result.
- YouTubeDb.YouTubeDB.SearchChannelsByTitle: `LIKE` is modelled as plain case-sensitive substring containment. ASCII case folding and `%`/`_` inside the keyword acting as wildcards are not modelled.
- YouTubeDb.YouTubeDB.SearchChannelsByTitle: the row order of the result is left unspecified.
- `print` calls, `.env` loading, `os.getenv` and the `API_KEY` global are I/O and environment; they are not modelled.
- Responses are assumed well formed. A missing key in a response raises `KeyError` in the source and is not modelled. This includes a batch item without `contentDetails.duration`, which the batch path reads outside its `try`.
- A missing `items` key is treated as an empty list, as `.get("items", [])` does.
- Timestamps.FormatUtcZ: years are always four digits. glibc's `%Y` prints years below 1000 without zero padding. Time zones and fractional seconds are not modelled; a datetime is taken to the second.
- Timestamps.DateTime: every month admits days 1 to 31, so impossible dates such as February 30 are datetimes here. Python cannot build them, and `ParseUtcZ` accepts them. The round-trip lemmas hold over this larger set.
- Timestamps.TimeArg: arguments that are neither `datetime`, `str` nor `None` (for example a `date`) are not modelled.
- YouTubeDb.YouTubeDB.constructor: an existing database file is assumed to satisfy the foreign key already.
- SQLite allows NULL in a non-INTEGER primary key column. That case is not modelled; ids are always strings.
- YouTubeApi.YouTubeAPI.FetchAndSaveVideosFromChannel: when the channel is found, a listing whose token chain never ends is excluded by the `IsListing` precondition. On it the source's `while True` loop never returns. The precondition applies only when the search is actually reached. It does not apply to the unknown-channel return, nor to `GetChannelVideosWithCache` when the local window is non-empty.
- YouTubeApi.YouTubeAPI.SaveListing is the `while True` loop of `fetch_and_save_videos_from_channel` (lines 128-168), split out as a method of its own. SaveSearchPage is one pass of its body. CollectSearchItems, InsertAll and ApplyDetails are the inner `for` loops. None of them adds behaviour.
- The rest of the repository is not part of this model: `myutils/get_django_project.py`, `myutils/gas_api/use_gas.py`, `myutils/playsound.py`, `myutils/youtube_api/test_fetch.py` and `setup.py`.
