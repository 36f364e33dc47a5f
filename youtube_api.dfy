/**
 * The read-through cache in front of the remote video catalogue (class
 * YouTubeAPI). The remote service is an oracle: a fixed function from each
 * kind of request to its response. Every request the class sends is recorded
 * in the ghost log `requests`, which is how "no remote call" is stated.
 */
module YouTubeApi {
  import opened Wrappers
  import opened Timestamps
  import opened YouTubeDb

  // ---------------------------------------------------------------------------
  // Remote responses and requests.

  /** An item of `videos.list(part="snippet,contentDetails")`. */
  datatype VideoItem = VideoItem(
    title: string,
    channelId: string,
    publishedAt: Option<string>,
    duration: Option<string>,
    thumbnailDefault: Option<string>,
    thumbnailMedium: Option<string>,
    thumbnailHigh: Option<string>)

  /** An item of `channels.list(part="snippet")`. */
  datatype ChannelItem = ChannelItem(title: string)

  /** An item of `search.list(part="id,snippet", type="video")`. */
  datatype SearchItem = SearchItem(
    videoId: string,
    title: string,
    publishedAt: Option<string>,
    thumbnailDefault: Option<string>,
    thumbnailMedium: Option<string>,
    thumbnailHigh: Option<string>)

  datatype SearchPage = SearchPage(items: seq<SearchItem>, nextPageToken: Option<string>)

  /** An item of `videos.list(part="contentDetails")`: the id and the ISO 8601 duration. */
  datatype DetailItem = DetailItem(id: string, duration: string)

  /** The parameters of a channel listing that stay fixed from page to page. */
  datatype SearchQuery = SearchQuery(
    channelId: string,
    maxResults: int,
    publishedAfter: Option<string>,
    publishedBefore: Option<string>)

  datatype SearchRequest = SearchRequest(query: SearchQuery, pageToken: Option<string>)

  /** The remote catalogue: the `items` of each response, and the listing pages. */
  datatype Remote = Remote(
    videosList: string -> seq<VideoItem>,
    channelsList: string -> seq<ChannelItem>,
    search: SearchRequest -> SearchPage,
    videoDetails: seq<string> -> seq<DetailItem>)

  datatype Request =
    | VideoRequest(videoId: string)
    | ChannelRequest(channelId: string)
    | SearchCall(search: SearchRequest)
    | DetailsRequest(ids: seq<string>)

  /**
   * What get_video_with_cache yields. A hit returns the positional `SELECT *`
   * tuple, a miss the dict it built; otherwise None or a raised IntegrityError.
   */
  datatype VideoLookup = Cached(record: VideoRecord) | Fetched(video: VideoDict) | NotFound | IntegrityError

  // ---------------------------------------------------------------------------
  // Building the dicts handed to insert_video.

  /** The seconds of an ISO duration; a missing or unparsable one is None. */
  function ParsedDuration(parse: string -> Option<int>, iso: Option<string>): Option<int> {
    match iso
    case None => None
    case Some(s) => parse(s)
  }

  /** The dict get_video_with_cache builds from the first item of the response. */
  function VideoFromItem(videoId: string, item: VideoItem, parse: string -> Option<int>): VideoDict {
    VideoDict(videoId, Some(item.title), Some(item.channelId), item.publishedAt,
              ParsedDuration(parse, item.duration),
              item.thumbnailDefault, item.thumbnailMedium, item.thumbnailHigh)
  }

  /** The dict fetch_and_save_videos_from_channel builds from a listing item (no duration). */
  function VideoFromSearchItem(channelId: string, item: SearchItem): VideoDict {
    VideoDict(item.videoId, Some(item.title), Some(channelId), item.publishedAt, None,
              item.thumbnailDefault, item.thumbnailMedium, item.thumbnailHigh)
  }

  function SearchIds(items: seq<SearchItem>): (ids: seq<string>)
    ensures |ids| == |items|
  {
    seq(|items|, i requires 0 <= i < |items| => items[i].videoId)
  }

  function SearchDicts(channelId: string, items: seq<SearchItem>): (ds: seq<VideoDict>)
    ensures |ds| == |items|
  {
    seq(|items|, i requires 0 <= i < |items| => VideoFromSearchItem(channelId, items[i]))
  }

  lemma DurationFailureIsNone(videoId: string, item: VideoItem, parse: string -> Option<int>)
    requires item.duration.None? || parse(item.duration.value).None?
    ensures VideoFromItem(videoId, item, parse).duration.None?
  {
  }

  // ---------------------------------------------------------------------------
  // Splitting an id list into the batches of `range(0, len(ids), 50)`.

  const BatchSize: nat := 50

  /** Concatenation is associative. */
  lemma ConcatAssoc<T>(a: seq<T>, b: seq<T>, c: seq<T>)
    ensures (a + b) + c == a + (b + c)
  {
  }

  function Min(a: int, b: int): int {
    if a <= b then a else b
  }

  /** The slices `ids[i:i+50]`, `ids[i+50:i+100]`, ... up to the end. */
  function ChunksFrom(ids: seq<string>, i: nat): seq<seq<string>>
    decreases |ids| - i
  {
    if i >= |ids| then [] else [ids[i..Min(i + BatchSize, |ids|)]] + ChunksFrom(ids, i + BatchSize)
  }

  function Batches(ids: seq<string>): seq<seq<string>> {
    ChunksFrom(ids, 0)
  }

  function Flatten(chunks: seq<seq<string>>): seq<string> {
    if chunks == [] then [] else chunks[0] + Flatten(chunks[1..])
  }

  /** Each batch from `i` on is the next slice of at most 50 ids. */
  lemma ChunksFromHead(ids: seq<string>, i: nat)
    requires i < |ids|
    ensures ChunksFrom(ids, i) == [ids[i..Min(i + BatchSize, |ids|)]] + ChunksFrom(ids, i + BatchSize)
  {
  }

  /** The batches from `i` on put back together give `ids[i..]`. */
  lemma {:induction false} ChunksFromFlatten(ids: seq<string>, i: nat)
    requires i <= |ids|
    ensures Flatten(ChunksFrom(ids, i)) == ids[i..]
    decreases |ids| - i
  {
    if i < |ids| {
      var j := Min(i + BatchSize, |ids|);
      ChunksFromFlatten(ids, j);
      ChunksFromHead(ids, i);
      assert ChunksFrom(ids, i + BatchSize) == ChunksFrom(ids, j);
      assert ChunksFrom(ids, i)[1..] == ChunksFrom(ids, j);
      assert ids[i..] == ids[i..j] + ids[j..];
    }
  }

  /** Every batch from `i` on holds between 1 and 50 ids. */
  lemma {:induction false} ChunksFromSizes(ids: seq<string>, i: nat)
    ensures forall c :: c in ChunksFrom(ids, i) ==> 1 <= |c| <= BatchSize
    decreases |ids| - i
  {
    if i < |ids| {
      ChunksFromSizes(ids, i + BatchSize);
      ChunksFromHead(ids, i);
    }
  }

  /** There are ceil((n - i) / 50) batches from `i` on. */
  lemma {:induction false} ChunksFromCount(ids: seq<string>, i: nat)
    requires i <= |ids|
    ensures |ChunksFrom(ids, i)| == (|ids| - i + BatchSize - 1) / BatchSize
    decreases |ids| - i
  {
    if i < |ids| {
      var j := Min(i + BatchSize, |ids|);
      ChunksFromCount(ids, j);
      ChunksFromHead(ids, i);
      assert ChunksFrom(ids, i + BatchSize) == ChunksFrom(ids, j);
    }
  }

  /** The batches are 1 to 50 ids long, number ceil(n/50), and put back together give `ids`. */
  lemma BatchesPartition(ids: seq<string>)
    ensures Flatten(Batches(ids)) == ids
    ensures forall c :: c in Batches(ids) ==> 1 <= |c| <= BatchSize
    ensures |Batches(ids)| == (|ids| + BatchSize - 1) / BatchSize
  {
    ChunksFromFlatten(ids, 0);
    ChunksFromSizes(ids, 0);
    ChunksFromCount(ids, 0);
  }

  // ---------------------------------------------------------------------------
  // The effect of duration refreshes on the `videos` table.

  /** update_video_duration for each item of one response, in order. */
  ghost function DetailsApplied(videos: map<string, VideoRow>, parse: string -> Option<int>,
                                items: seq<DetailItem>): map<string, VideoRow>
  {
    if items == [] then videos
    else
      var last := items[|items| - 1];
      DurationUpdated(DetailsApplied(videos, parse, items[..|items| - 1]), last.id, parse(last.duration))
  }

  /** DetailsApplied for the response to each batch, in order. */
  ghost function BatchesApplied(videos: map<string, VideoRow>, remote: Remote, parse: string -> Option<int>,
                                chunks: seq<seq<string>>): map<string, VideoRow>
  {
    if chunks == [] then videos
    else
      DetailsApplied(BatchesApplied(videos, remote, parse, chunks[..|chunks| - 1]), parse,
                     remote.videoDetails(chunks[|chunks| - 1]))
  }

  function DetailRequests(chunks: seq<seq<string>>): (rs: seq<Request>)
    ensures |rs| == |chunks|
  {
    seq(|chunks|, i requires 0 <= i < |chunks| => DetailsRequest(chunks[i]))
  }

  /** One more batch extends the folds over the batches by that batch. */
  lemma BatchStep(videos: map<string, VideoRow>, remote: Remote, parse: string -> Option<int>,
                  done: seq<seq<string>>, ids: seq<string>, i: nat)
    requires i < |ids|
    ensures var batch := ids[i..Min(i + BatchSize, |ids|)];
            && done + ChunksFrom(ids, i) == (done + [batch]) + ChunksFrom(ids, i + BatchSize)
            && BatchesApplied(videos, remote, parse, done + [batch])
               == DetailsApplied(BatchesApplied(videos, remote, parse, done), parse, remote.videoDetails(batch))
            && DetailRequests(done + [batch]) == DetailRequests(done) + [DetailsRequest(batch)]
  {
    var batch := ids[i..Min(i + BatchSize, |ids|)];
    ChunksFromHead(ids, i);
    assert (done + [batch])[..|done|] == done;
  }

  ghost predicate SameButDuration(before: map<string, VideoRow>, after: map<string, VideoRow>) {
    && after.Keys == before.Keys
    && forall id :: id in before ==> after[id] == before[id].(duration := after[id].duration)
  }

  /**
   * Applying one response changes durations only; a row whose id is in no
   * item is unchanged; a row named by some item gets the parse of the last
   * such item.
   */
  lemma {:induction false} DetailsAppliedEffect(videos: map<string, VideoRow>, parse: string -> Option<int>,
                                                items: seq<DetailItem>)
    ensures SameButDuration(videos, DetailsApplied(videos, parse, items))
    ensures forall id :: id in videos && (forall j :: 0 <= j < |items| ==> items[j].id != id)
                         ==> DetailsApplied(videos, parse, items)[id] == videos[id]
    ensures forall j :: 0 <= j < |items| && items[j].id in videos
                        && (forall l :: j < l < |items| ==> items[l].id != items[j].id)
                        ==> DetailsApplied(videos, parse, items)[items[j].id].duration == parse(items[j].duration)
  {
    if items != [] {
      var init := items[..|items| - 1];
      DetailsAppliedEffect(videos, parse, init);
      var mid := DetailsApplied(videos, parse, init);
      var last := items[|items| - 1];
      var out := DetailsApplied(videos, parse, items);
      assert out == DurationUpdated(mid, last.id, parse(last.duration));
      forall j | 0 <= j < |items| && items[j].id in videos
                 && (forall l :: j < l < |items| ==> items[l].id != items[j].id)
        ensures out[items[j].id].duration == parse(items[j].duration)
      {
        if j < |items| - 1 {
          assert init[j] == items[j];
          assert forall l :: j < l < |init| ==> init[l].id != init[j].id by {
            forall l | j < l < |init| ensures init[l].id != init[j].id {
              assert init[l] == items[l];
            }
          }
          assert items[|items| - 1].id != items[j].id;
        }
      }
      forall id | id in videos && (forall j :: 0 <= j < |items| ==> items[j].id != id)
        ensures out[id] == videos[id]
      {
        assert forall j :: 0 <= j < |init| ==> init[j].id != id by {
          forall j | 0 <= j < |init| ensures init[j].id != id {
            assert init[j] == items[j];
          }
        }
        assert last.id != id;
      }
    }
  }

  /** Some item of the response to one of the batches names video `id`. */
  ghost predicate NamedInResponses(remote: Remote, chunks: seq<seq<string>>, id: string) {
    exists c, j :: 0 <= c < |chunks| && 0 <= j < |remote.videoDetails(chunks[c])|
                   && remote.videoDetails(chunks[c])[j].id == id
  }

  /**
   * A duration refresh keeps every row and every column other than `duration`,
   * and a row no response names keeps its duration too.
   */
  lemma {:induction false} BatchesAppliedKeepsRows(videos: map<string, VideoRow>, remote: Remote,
                                                   parse: string -> Option<int>, chunks: seq<seq<string>>)
    ensures SameButDuration(videos, BatchesApplied(videos, remote, parse, chunks))
    ensures forall id :: id in videos && !NamedInResponses(remote, chunks, id)
                         ==> BatchesApplied(videos, remote, parse, chunks)[id] == videos[id]
  {
    if chunks != [] {
      var init := chunks[..|chunks| - 1];
      var items := remote.videoDetails(chunks[|chunks| - 1]);
      BatchesAppliedKeepsRows(videos, remote, parse, init);
      var mid := BatchesApplied(videos, remote, parse, init);
      DetailsAppliedEffect(mid, parse, items);
      forall id | id in videos && !NamedInResponses(remote, chunks, id)
        ensures BatchesApplied(videos, remote, parse, chunks)[id] == videos[id]
      {
        forall j | 0 <= j < |items| ensures items[j].id != id {
          if items[j].id == id {
            assert NamedInResponses(remote, chunks, id) by {
              assert 0 <= |chunks| - 1 < |chunks|;
            }
          }
        }
      }
    }
  }

  // ---------------------------------------------------------------------------
  // The channel read-through and the paged listing.

  /** The `channels` table after get_channel_with_cache. */
  ghost function ChannelReadThrough(channels: map<string, string>, remote: Remote, id: string): map<string, string> {
    if id in channels || |remote.channelsList(id)| == 0 then channels
    else ChannelInserted(channels, id, Some(remote.channelsList(id)[0].title))
  }

  /** The requests get_channel_with_cache sends: one on a miss, none on a hit. */
  ghost function ChannelRequests(channels: map<string, string>, id: string): seq<Request> {
    if id in channels then [] else [ChannelRequest(id)]
  }

  /** Python truthiness of `nextPageToken`: None and "" both end the loop. */
  predicate HasNextPage(token: Option<string>) {
    token.Some? && token.value != ""
  }

  /** The page token sent for page `k`: none for the first page, the previous page's token after. */
  function TokenFor(pages: seq<SearchPage>, k: nat): Option<string>
    requires k < |pages|
  {
    if k == 0 then None else pages[k - 1].nextPageToken
  }

  /** The request carrying page k's token is answered with page k. */
  ghost predicate AnswersPage(search: SearchRequest -> SearchPage, q: SearchQuery, pages: seq<SearchPage>, k: nat)
    requires k < |pages|
  {
    search(SearchRequest(q, TokenFor(pages, k))) == pages[k]
  }

  /**
   * The remote listing for `q` is `pages`: the request carrying page k's token
   * is answered with page k, every page but the last carries a next token, and
   * the last one does not.
   */
  ghost predicate IsListing(search: SearchRequest -> SearchPage, q: SearchQuery, pages: seq<SearchPage>) {
    && |pages| > 0
    && (forall k :: 0 <= k < |pages| ==> AnswersPage(search, q, pages, k))
    && (forall k :: 0 <= k < |pages| - 1 ==> HasNextPage(pages[k].nextPageToken))
    && !HasNextPage(pages[|pages| - 1].nextPageToken)
  }

  /** insert_video for each dict, in order, none of them failing. */
  ghost function StoredAll(videos: map<string, VideoRow>, dicts: seq<VideoDict>): map<string, VideoRow> {
    if dicts == [] then videos else VideoStored(StoredAll(videos, dicts[..|dicts| - 1]), dicts[|dicts| - 1])
  }

  /** The `videos` table after one page: its items inserted, then (optionally) their durations refreshed. */
  ghost function PageSaved(videos: map<string, VideoRow>, remote: Remote, parse: string -> Option<int>,
                           channelId: string, page: SearchPage, getDuration: bool): map<string, VideoRow>
  {
    var stored := StoredAll(videos, SearchDicts(channelId, page.items));
    if getDuration then BatchesApplied(stored, remote, parse, Batches(SearchIds(page.items))) else stored
  }

  ghost function PageRequests(q: SearchQuery, token: Option<string>, page: SearchPage, getDuration: bool): seq<Request> {
    [SearchCall(SearchRequest(q, token))] + (if getDuration then DetailRequests(Batches(SearchIds(page.items))) else [])
  }

  ghost function PagesSaved(videos: map<string, VideoRow>, remote: Remote, parse: string -> Option<int>,
                            channelId: string, pages: seq<SearchPage>, getDuration: bool): map<string, VideoRow>
  {
    if pages == [] then videos
    else PageSaved(PagesSaved(videos, remote, parse, channelId, pages[..|pages| - 1], getDuration),
                   remote, parse, channelId, pages[|pages| - 1], getDuration)
  }

  ghost function PagesRequests(q: SearchQuery, pages: seq<SearchPage>, getDuration: bool): seq<Request> {
    if pages == [] then []
    else PagesRequests(q, pages[..|pages| - 1], getDuration)
         + PageRequests(q, TokenFor(pages, |pages| - 1), pages[|pages| - 1], getDuration)
  }

  /** Saving one more page extends the fold over the pages by that page. */
  lemma PagesPrefixStep(videos: map<string, VideoRow>, remote: Remote, parse: string -> Option<int>,
                        q: SearchQuery, pages: seq<SearchPage>, k: nat, getDuration: bool)
    requires k < |pages|
    ensures PagesSaved(videos, remote, parse, q.channelId, pages[..k + 1], getDuration)
            == PageSaved(PagesSaved(videos, remote, parse, q.channelId, pages[..k], getDuration),
                         remote, parse, q.channelId, pages[k], getDuration)
    ensures PagesRequests(q, pages[..k + 1], getDuration)
            == PagesRequests(q, pages[..k], getDuration) + PageRequests(q, TokenFor(pages, k), pages[k], getDuration)
  {
    assert pages[..k + 1][..k] == pages[..k];
    assert TokenFor(pages[..k + 1], k) == TokenFor(pages, k);
  }

  /** Without durations the loop sends one search per page, page k carrying page k-1's next token. */
  lemma {:induction false} PagesRequestsWithoutDurations(q: SearchQuery, pages: seq<SearchPage>)
    ensures |PagesRequests(q, pages, false)| == |pages|
    ensures forall k :: 0 <= k < |pages| ==>
              PagesRequests(q, pages, false)[k] == SearchCall(SearchRequest(q, TokenFor(pages, k)))
  {
    if pages != [] {
      var init := pages[..|pages| - 1];
      PagesRequestsWithoutDurations(q, init);
      forall k | 0 <= k < |init| ensures TokenFor(init, k) == TokenFor(pages, k) {
        if k > 0 {
          assert init[k - 1] == pages[k - 1];
        }
      }
    }
  }

  /** Two listings of the same query agree on their first k pages. */
  lemma {:induction false} ListingsAgreeUpTo(search: SearchRequest -> SearchPage, q: SearchQuery,
                                             p1: seq<SearchPage>, p2: seq<SearchPage>, k: nat)
    requires IsListing(search, q, p1) && IsListing(search, q, p2)
    requires k <= |p1| && k <= |p2|
    ensures p1[..k] == p2[..k]
  {
    if k > 0 {
      ListingsAgreeUpTo(search, q, p1, p2, k - 1);
      assert AnswersPage(search, q, p1, k - 1) && AnswersPage(search, q, p2, k - 1);
      if k > 1 {
        assert p1[k - 2] == p1[..k - 1][k - 2] && p2[k - 2] == p2[..k - 1][k - 2];
      }
      assert p1[..k] == p1[..k - 1] + [p1[k - 1]] && p2[..k] == p2[..k - 1] + [p2[k - 1]];
    }
  }

  /** The remote fixes the listing: the loop stops at the first page without a next token. */
  lemma ListingIsUnique(search: SearchRequest -> SearchPage, q: SearchQuery,
                        p1: seq<SearchPage>, p2: seq<SearchPage>)
    requires IsListing(search, q, p1) && IsListing(search, q, p2)
    ensures p1 == p2
  {
    var n := Min(|p1|, |p2|);
    ListingsAgreeUpTo(search, q, p1, p2, n);
    assert p1[n - 1] == p1[..n][n - 1] && p2[n - 1] == p2[..n][n - 1];
    assert |p1| == |p2|;
    assert p1 == p1[..n] && p2 == p2[..n];
  }

  /** The `videos` table after fetch_and_save_videos_from_channel. */
  ghost function SyncedVideos(channels: map<string, string>, videos: map<string, VideoRow>, remote: Remote,
                              parse: string -> Option<int>, channelId: string, pages: seq<SearchPage>,
                              getDuration: bool): map<string, VideoRow>
  {
    if channelId in ChannelReadThrough(channels, remote, channelId)
    then PagesSaved(videos, remote, parse, channelId, pages, getDuration)
    else videos
  }

  /** The requests fetch_and_save_videos_from_channel sends. */
  ghost function SyncRequests(channels: map<string, string>, remote: Remote, q: SearchQuery,
                              pages: seq<SearchPage>, getDuration: bool): seq<Request>
  {
    ChannelRequests(channels, q.channelId)
    + (if q.channelId in ChannelReadThrough(channels, remote, q.channelId)
       then PagesRequests(q, pages, getDuration) else [])
  }

  // ---------------------------------------------------------------------------
  // What a sync leaves in the store.

  /** Storing dicts keeps every old row, adds every complete dict, and adds nothing else. */
  lemma {:induction false} StoredAllEffect(videos: map<string, VideoRow>, dicts: seq<VideoDict>)
    ensures forall id :: id in videos ==> id in StoredAll(videos, dicts) && StoredAll(videos, dicts)[id] == videos[id]
    ensures forall i :: 0 <= i < |dicts| && RowOf(dicts[i]).Some? ==> dicts[i].videoId in StoredAll(videos, dicts)
    ensures forall id :: id in StoredAll(videos, dicts) && id !in videos
                         ==> exists i :: 0 <= i < |dicts| && dicts[i].videoId == id && RowOf(dicts[i]) == Some(StoredAll(videos, dicts)[id])
  {
    if dicts != [] {
      var init := dicts[..|dicts| - 1];
      StoredAllEffect(videos, init);
      var mid := StoredAll(videos, init);
      var out := StoredAll(videos, dicts);
      forall i | 0 <= i < |dicts| && RowOf(dicts[i]).Some? ensures dicts[i].videoId in out {
        if i < |init| {
          assert init[i] == dicts[i];
        }
      }
      forall id | id in out && id !in videos
        ensures exists i :: 0 <= i < |dicts| && dicts[i].videoId == id && RowOf(dicts[i]) == Some(out[id])
      {
        if id in mid {
          var i :| 0 <= i < |init| && init[i].videoId == id && RowOf(init[i]) == Some(mid[id]);
          assert dicts[i] == init[i];
        } else {
          assert dicts[|dicts| - 1].videoId == id;
        }
      }
    }
  }

  /** Video `id` is listed on one of the pages. */
  ghost predicate Listed(pages: seq<SearchPage>, id: string) {
    exists k :: 0 <= k < |pages| && id in SearchIds(pages[k].items)
  }

  /** A video is listed on `pages` iff it is listed before the last page or on the last page. */
  lemma ListedSplit(pages: seq<SearchPage>, id: string)
    requires pages != []
    ensures Listed(pages, id) <==> Listed(pages[..|pages| - 1], id) || id in SearchIds(pages[|pages| - 1].items)
  {
    var init := pages[..|pages| - 1];
    if Listed(pages, id) && id !in SearchIds(pages[|pages| - 1].items) {
      var k :| 0 <= k < |pages| && id in SearchIds(pages[k].items);
      assert init[k] == pages[k];
    }
    if Listed(init, id) {
      var k :| 0 <= k < |init| && id in SearchIds(init[k].items);
      assert init[k] == pages[k];
    }
    if id in SearchIds(pages[|pages| - 1].items) {
      assert 0 <= |pages| - 1 < |pages|;
    }
  }

  /** Every row a sync without durations adds is a listed video of that channel with no duration. */
  ghost predicate ListedRow(channelId: string, pages: seq<SearchPage>, id: string, row: VideoRow) {
    && row.channelId == channelId
    && row.duration.None?
    && Listed(pages, id)
  }

  /** Storing one page's search results keeps old rows, adds each listed video, and adds only those, without durations. */
  lemma PageStoredEffect(videos: map<string, VideoRow>, channelId: string, items: seq<SearchItem>)
    ensures var out := StoredAll(videos, SearchDicts(channelId, items));
            && (forall id :: id in videos ==> id in out && out[id] == videos[id])
            && (forall id :: id in SearchIds(items) ==> id in out)
            && (forall id :: id in out && id !in videos ==>
                  id in SearchIds(items) && out[id].channelId == channelId && out[id].duration.None?)
  {
    var dicts := SearchDicts(channelId, items);
    StoredAllEffect(videos, dicts);
    var out := StoredAll(videos, dicts);
    forall id | id in SearchIds(items) ensures id in out {
      var i :| 0 <= i < |items| && SearchIds(items)[i] == id;
      assert dicts[i].videoId == id && RowOf(dicts[i]).Some?;
    }
    forall id | id in out && id !in videos
      ensures id in SearchIds(items) && out[id].channelId == channelId && out[id].duration.None?
    {
      var i :| 0 <= i < |dicts| && dicts[i].videoId == id && RowOf(dicts[i]) == Some(out[id]);
      assert SearchIds(items)[i] == id;
    }
  }

  /** A sync without durations keeps every old row, adds every listed video, and adds nothing else. */
  lemma {:induction false} PagesSavedWithoutDurations(videos: map<string, VideoRow>, remote: Remote,
                                                      parse: string -> Option<int>, channelId: string,
                                                      pages: seq<SearchPage>)
    ensures var out := PagesSaved(videos, remote, parse, channelId, pages, false);
            && (forall id :: id in videos ==> id in out && out[id] == videos[id])
            && (forall id :: Listed(pages, id) ==> id in out)
            && (forall id :: id in out && id !in videos ==> ListedRow(channelId, pages, id, out[id]))
  {
    if pages != [] {
      var init := pages[..|pages| - 1];
      var page := pages[|pages| - 1];
      PagesSavedWithoutDurations(videos, remote, parse, channelId, init);
      var mid := PagesSaved(videos, remote, parse, channelId, init, false);
      PageStoredEffect(mid, channelId, page.items);
      var out := PagesSaved(videos, remote, parse, channelId, pages, false);
      assert out == StoredAll(mid, SearchDicts(channelId, page.items));
      forall id | Listed(pages, id) ensures id in out {
        ListedSplit(pages, id);
      }
      forall id | id in out && id !in videos ensures ListedRow(channelId, pages, id, out[id]) {
        ListedSplit(pages, id);
      }
    }
  }

  /** With durations on, a sync still reaches every listed video and only edits durations of old rows. */
  lemma {:induction false} PagesSavedReachesEveryPage(videos: map<string, VideoRow>, remote: Remote,
                                                      parse: string -> Option<int>, channelId: string,
                                                      pages: seq<SearchPage>, getDuration: bool)
    ensures var out := PagesSaved(videos, remote, parse, channelId, pages, getDuration);
            && (forall id :: id in videos ==> id in out && out[id] == videos[id].(duration := out[id].duration))
            && (forall id :: Listed(pages, id) ==> id in out)
  {
    if pages != [] {
      var init := pages[..|pages| - 1];
      var page := pages[|pages| - 1];
      PagesSavedReachesEveryPage(videos, remote, parse, channelId, init, getDuration);
      var mid := PagesSaved(videos, remote, parse, channelId, init, getDuration);
      PageStoredEffect(mid, channelId, page.items);
      var stored := StoredAll(mid, SearchDicts(channelId, page.items));
      BatchesAppliedKeepsRows(stored, remote, parse, Batches(SearchIds(page.items)));
      var out := PagesSaved(videos, remote, parse, channelId, pages, getDuration);
      assert out == if getDuration then BatchesApplied(stored, remote, parse, Batches(SearchIds(page.items))) else stored;
      forall id | Listed(pages, id) ensures id in out {
        ListedSplit(pages, id);
      }
    }
  }

  // ---------------------------------------------------------------------------

  class YouTubeAPI {
    const remote: Remote
    const parseDuration: string -> Option<int>
    const db: YouTubeDB
    ghost var requests: seq<Request>

    ghost predicate Valid()
      reads this, db
    {
      db.Valid()
    }

    constructor (remote: Remote, parseDuration: string -> Option<int>, db: YouTubeDB)
      requires db.Valid()
      ensures Valid()
      ensures this.remote == remote && this.parseDuration == parseDuration && this.db == db
      ensures requests == []
    {
      this.remote := remote;
      this.parseDuration := parseDuration;
      this.db := db;
      requests := [];
    }

    method GetChannelWithCache(channelId: string) returns (r: Option<(string, string)>)
      requires Valid()
      modifies this, db
      ensures Valid()
      ensures db.channels == ChannelReadThrough(old(db.channels), remote, channelId)
      ensures db.videos == old(db.videos)
      ensures requests == old(requests) + ChannelRequests(old(db.channels), channelId)
      ensures r.Some? <==> channelId in db.channels
      ensures r.Some? ==> r.value == (channelId, db.channels[channelId])
    {
      if channelId in db.channels {
        return Some((channelId, db.channels[channelId]));
      }
      var items := remote.channelsList(channelId);
      requests := requests + [ChannelRequest(channelId)];
      if |items| == 0 {
        return None;
      }
      var title := items[0].title;
      db.InsertChannel(channelId, Some(title));
      r := Some((channelId, title));
    }

    method GetVideoWithCache(videoId: string) returns (r: VideoLookup)
      requires Valid()
      modifies this, db
      ensures Valid()
      ensures videoId in old(db.videos) ==>
                && r == Cached(VideoRecord(videoId, old(db.videos)[videoId]))
                && db.videos == old(db.videos) && db.channels == old(db.channels)
                && requests == old(requests)
      ensures videoId !in old(db.videos) && |remote.videosList(videoId)| == 0 ==>
                && r == NotFound
                && db.videos == old(db.videos) && db.channels == old(db.channels)
                && requests == old(requests) + [VideoRequest(videoId)]
      ensures videoId !in old(db.videos) && |remote.videosList(videoId)| > 0 ==>
                var item := remote.videosList(videoId)[0];
                var video := VideoFromItem(videoId, item, parseDuration);
                && db.channels == ChannelReadThrough(old(db.channels), remote, item.channelId)
                && requests == old(requests) + [VideoRequest(videoId)] + ChannelRequests(old(db.channels), item.channelId)
                && (if item.channelId in db.channels
                    then r == Fetched(video) && db.videos == old(db.videos)[videoId := RowOf(video).value]
                    else r == IntegrityError && db.videos == old(db.videos))
    {
      if videoId in db.videos {
        return Cached(VideoRecord(videoId, db.videos[videoId]));
      }
      var items := remote.videosList(videoId);
      requests := requests + [VideoRequest(videoId)];
      if |items| == 0 {
        return NotFound;
      }
      var item := items[0];
      var video := VideoFromItem(videoId, item, parseDuration);
      var _ := GetChannelWithCache(item.channelId);
      var ok := db.InsertVideo(video);
      r := if ok then Fetched(video) else IntegrityError;
    }

    /** The inner `for item in response['items']` loop: one update_video_duration per item, in order. */
    method ApplyDetails(items: seq<DetailItem>)
      requires Valid()
      modifies db
      ensures Valid()
      ensures db.videos == DetailsApplied(old(db.videos), parseDuration, items)
      ensures db.channels == old(db.channels)
    {
      var j := 0;
      while j < |items|
        invariant j <= |items|
        invariant Valid() && db.channels == old(db.channels)
        invariant db.videos == DetailsApplied(old(db.videos), parseDuration, items[..j])
      {
        assert items[..j + 1][..j] == items[..j];
        db.UpdateVideoDuration(items[j].id, parseDuration(items[j].duration));
        j := j + 1;
      }
      assert items[..j] == items;
    }

    method FetchAndUpdateVideoDetails(videoIds: seq<string>)
      requires Valid()
      modifies this, db
      ensures Valid()
      ensures db.videos == BatchesApplied(old(db.videos), remote, parseDuration, Batches(videoIds))
      ensures db.channels == old(db.channels)
      ensures requests == old(requests) + DetailRequests(Batches(videoIds))
    {
      ghost var done: seq<seq<string>> := [];
      var i := 0;
      while i < |videoIds|
        invariant Valid() && db.channels == old(db.channels)
        invariant done + ChunksFrom(videoIds, i) == Batches(videoIds)
        invariant db.videos == BatchesApplied(old(db.videos), remote, parseDuration, done)
        invariant requests == old(requests) + DetailRequests(done)
        decreases |videoIds| - i
      {
        var batchIds := videoIds[i..Min(i + BatchSize, |videoIds|)];
        var items := remote.videoDetails(batchIds);
        requests := requests + [DetailsRequest(batchIds)];
        ApplyDetails(items);
        BatchStep(old(db.videos), remote, parseDuration, done, videoIds, i);
        done := done + [batchIds];
        i := i + BatchSize;
      }
      assert done == Batches(videoIds);
    }

    /** The `for item in response["items"]` loop: the listed ids and the dicts to insert, in listing order. */
    method CollectSearchItems(channelId: string, items: seq<SearchItem>)
      returns (videoIds: seq<string>, videosToInsert: seq<VideoDict>)
      ensures videoIds == SearchIds(items)
      ensures videosToInsert == SearchDicts(channelId, items)
    {
      videoIds := [];
      videosToInsert := [];
      var j := 0;
      while j < |items|
        invariant j <= |items|
        invariant videoIds == SearchIds(items[..j])
        invariant videosToInsert == SearchDicts(channelId, items[..j])
      {
        videoIds := videoIds + [items[j].videoId];
        videosToInsert := videosToInsert + [VideoFromSearchItem(channelId, items[j])];
        j := j + 1;
      }
      assert items[..j] == items;
    }

    /** The `for video in videos_to_insert` loop: insert_video on each dict, in order. */
    method InsertAll(dicts: seq<VideoDict>)
      requires Valid()
      requires forall m :: 0 <= m < |dicts| ==> dicts[m].channelId.Some? ==> dicts[m].channelId.value in db.channels
      modifies db
      ensures Valid()
      ensures db.channels == old(db.channels)
      ensures db.videos == StoredAll(old(db.videos), dicts)
    {
      var m := 0;
      while m < |dicts|
        invariant m <= |dicts|
        invariant Valid() && db.channels == old(db.channels)
        invariant db.videos == StoredAll(old(db.videos), dicts[..m])
      {
        assert dicts[..m + 1][..m] == dicts[..m];
        var ok := db.InsertVideo(dicts[m]);
        m := m + 1;
      }
      assert dicts[..m] == dicts;
    }

    /**
     * One pass of the listing loop: request the page for `pageToken`, insert
     * its items (no duration), then refresh their durations if asked.
     */
    method SaveSearchPage(q: SearchQuery, pageToken: Option<string>, getDuration: bool)
      returns (response: SearchPage)
      requires Valid() && q.channelId in db.channels
      modifies this, db
      ensures Valid()
      ensures response == remote.search(SearchRequest(q, pageToken))
      ensures db.channels == old(db.channels)
      ensures db.videos == PageSaved(old(db.videos), remote, parseDuration, q.channelId, response, getDuration)
      ensures requests == old(requests) + PageRequests(q, pageToken, response, getDuration)
    {
      var channelId := q.channelId;
      var request := SearchRequest(q, pageToken);
      response := remote.search(request);
      requests := requests + [SearchCall(request)];

      var videoIds, videosToInsert := CollectSearchItems(channelId, response.items);
      InsertAll(videosToInsert);

      if getDuration {
        FetchAndUpdateVideoDetails(videoIds);
        ConcatAssoc(old(requests), [SearchCall(request)], DetailRequests(Batches(videoIds)));
      }
    }

    /** The `while True` loop of fetch_and_save_videos_from_channel, once the channel is known. */
    method SaveListing(q: SearchQuery, getDuration: bool, ghost pages: seq<SearchPage>)
      requires Valid() && q.channelId in db.channels
      requires IsListing(remote.search, q, pages)
      modifies this, db
      ensures Valid()
      ensures db.channels == old(db.channels)
      ensures db.videos == PagesSaved(old(db.videos), remote, parseDuration, q.channelId, pages, getDuration)
      ensures requests == old(requests) + PagesRequests(q, pages, getDuration)
    {
      var nextPageToken: Option<string> := None;
      ghost var k := 0;
      while true
        invariant Valid() && q.channelId in db.channels
        invariant db.channels == old(db.channels)
        invariant 0 <= k < |pages| && nextPageToken == TokenFor(pages, k)
        invariant db.videos == PagesSaved(old(db.videos), remote, parseDuration, q.channelId, pages[..k], getDuration)
        invariant requests == old(requests) + PagesRequests(q, pages[..k], getDuration)
        decreases |pages| - k
      {
        var response := SaveSearchPage(q, nextPageToken, getDuration);
        assert AnswersPage(remote.search, q, pages, k);
        PagesPrefixStep(old(db.videos), remote, parseDuration, q, pages, k, getDuration);
        ConcatAssoc(old(requests), PagesRequests(q, pages[..k], getDuration),
                    PageRequests(q, nextPageToken, pages[k], getDuration));

        nextPageToken := response.nextPageToken;
        if !HasNextPage(nextPageToken) {
          assert pages[..k + 1] == pages;
          break;
        }
        k := k + 1;
      }
    }

    method FetchAndSaveVideosFromChannel(channelId: string, publishedAfter: TimeArg, publishedBefore: TimeArg,
                                         maxResults: int, getDuration: bool, ghost pages: seq<SearchPage>)
      requires Valid()
      requires channelId in ChannelReadThrough(db.channels, remote, channelId) ==>
                 IsListing(remote.search, SearchQuery(channelId, maxResults, PassThroughUtcZ(publishedAfter),
                                                      PassThroughUtcZ(publishedBefore)), pages)
      modifies this, db
      ensures Valid()
      ensures db.channels == ChannelReadThrough(old(db.channels), remote, channelId)
      ensures db.videos == SyncedVideos(old(db.channels), old(db.videos), remote, parseDuration, channelId,
                                        pages, getDuration)
      ensures requests == old(requests) + SyncRequests(old(db.channels), remote,
                                                       SearchQuery(channelId, maxResults, PassThroughUtcZ(publishedAfter),
                                                                   PassThroughUtcZ(publishedBefore)),
                                                       pages, getDuration)
    {
      var q := SearchQuery(channelId, maxResults, PassThroughUtcZ(publishedAfter), PassThroughUtcZ(publishedBefore));
      ghost var channels0, videos0, requests0 := db.channels, db.videos, requests;
      ghost var found := channelId in ChannelReadThrough(channels0, remote, channelId);
      ghost var synced := SyncedVideos(channels0, videos0, remote, parseDuration, channelId, pages, getDuration);
      ghost var sent := SyncRequests(channels0, remote, q, pages, getDuration);
      assert found ==> synced == PagesSaved(videos0, remote, parseDuration, channelId, pages, getDuration);
      assert !found ==> synced == videos0;
      assert sent == ChannelRequests(channels0, channelId) + (if found then PagesRequests(q, pages, getDuration) else []);
      var channelInfo := GetChannelWithCache(channelId);
      ghost var requests1 := requests;
      if channelInfo.None? {
        assert !found;
        return;
      }
      SaveListing(q, getDuration, pages);
      assert requests == requests1 + PagesRequests(q, pages, getDuration);
      ConcatAssoc(requests0, ChannelRequests(channels0, channelId), PagesRequests(q, pages, getDuration));
    }

    method GetChannelVideosWithCache(channelId: string, startDate: TimeArg, endDate: TimeArg,
                                     ghost pages: seq<SearchPage>)
      returns (rs: seq<VideoRecord>)
      requires Valid()
      requires WindowEmpty(db.videos, channelId, AppendUtcZ(startDate), AppendUtcZ(endDate))
               && channelId in ChannelReadThrough(db.channels, remote, channelId)
               ==> IsListing(remote.search, SearchQuery(channelId, 50, AppendUtcZ(startDate), AppendUtcZ(endDate)), pages)
      modifies this, db
      ensures Valid()
      ensures IsWindowResult(db.videos, channelId, AppendUtcZ(startDate), AppendUtcZ(endDate), rs)
      ensures !WindowEmpty(old(db.videos), channelId, AppendUtcZ(startDate), AppendUtcZ(endDate)) ==>
                && db.videos == old(db.videos) && db.channels == old(db.channels)
                && requests == old(requests)
      ensures WindowEmpty(old(db.videos), channelId, AppendUtcZ(startDate), AppendUtcZ(endDate)) ==>
                && db.channels == ChannelReadThrough(old(db.channels), remote, channelId)
                && db.videos == SyncedVideos(old(db.channels), old(db.videos), remote, parseDuration,
                                             channelId, pages, false)
                && requests == old(requests) + SyncRequests(old(db.channels), remote,
                                                            SearchQuery(channelId, 50, AppendUtcZ(startDate), AppendUtcZ(endDate)),
                                                            pages, false)
    {
      var start := AppendUtcZ(startDate);
      var end := AppendUtcZ(endDate);
      var results := db.QueryChannelVideos(channelId, start, end);
      WindowResultEmptyIff(db.videos, channelId, start, end, results);
      if |results| > 0 {
        return results;
      }
      FetchAndSaveVideosFromChannel(channelId, AsTimeArg(start), AsTimeArg(end), 50, false, pages);
      rs := db.QueryChannelVideos(channelId, start, end);
    }
  }
}
