/**
 * The local SQLite store of channels and videos (class YouTubeDB), with its
 * two tables held as maps keyed by primary key. Foreign keys are enforced on
 * every connection, and inserts are `INSERT OR IGNORE`.
 */
module YouTubeDb {
  import opened Wrappers
  import opened Collation

  /** A row of `videos`, without its primary key `video_id`. */
  datatype VideoRow = VideoRow(
    title: string,
    channelId: string,
    publishedAt: Option<string>,
    duration: Option<int>,
    thumbnailDefault: Option<string>,
    thumbnailMedium: Option<string>,
    thumbnailHigh: Option<string>)

  /** A row of `videos` as `SELECT *` returns it. */
  datatype VideoRecord = VideoRecord(videoId: string, row: VideoRow)

  /** The dict handed to insert_video: any field but `video_id` may be None. */
  datatype VideoDict = VideoDict(
    videoId: string,
    title: Option<string>,
    channelId: Option<string>,
    publishedAt: Option<string>,
    duration: Option<int>,
    thumbnailDefault: Option<string>,
    thumbnailMedium: Option<string>,
    thumbnailHigh: Option<string>)

  /** The row a dict becomes, or None when a NOT NULL column (`title`, `channel_id`) is None. */
  function RowOf(v: VideoDict): (r: Option<VideoRow>)
    ensures r.Some? <==> v.title.Some? && v.channelId.Some?
  {
    if v.title.Some? && v.channelId.Some? then
      Some(VideoRow(v.title.value, v.channelId.value, v.publishedAt, v.duration,
                    v.thumbnailDefault, v.thumbnailMedium, v.thumbnailHigh))
    else None
  }

  /** A `SELECT *` row of `videos`, read column by column into the dict shape the fetcher builds. */
  function AsDict(id: string, row: VideoRow): (v: VideoDict)
    ensures v.videoId == id && RowOf(v) == Some(row)
  {
    VideoDict(id, Some(row.title), Some(row.channelId), row.publishedAt, row.duration,
              row.thumbnailDefault, row.thumbnailMedium, row.thumbnailHigh)
  }

  /**
   * A dict that is stored reads back, field by field, as itself: the tuple a
   * later lookup returns holds exactly the values of the dict a miss returned.
   */
  lemma StoredRowReadsBackAsDict(v: VideoDict)
    requires RowOf(v).Some?
    ensures AsDict(v.videoId, RowOf(v).value) == v
  {
  }

  /** The foreign key `videos.channel_id REFERENCES channels(channel_id)`. */
  ghost predicate ReferentiallyIntact(channels: map<string, string>, videos: map<string, VideoRow>) {
    forall id :: id in videos ==> videos[id].channelId in channels
  }

  // ---------------------------------------------------------------------------
  // The effect of each statement on the tables, as values.

  /** `INSERT OR IGNORE INTO channels`: a NULL title or an existing key is ignored. */
  function ChannelInserted(channels: map<string, string>, id: string, title: Option<string>): map<string, string> {
    if title.None? || id in channels then channels else channels[id := title.value]
  }

  /**
   * `INSERT OR IGNORE INTO videos` fails only for a row that would be inserted
   * (no NULL in a NOT NULL column, a new key) whose channel is not stored:
   * OR IGNORE does not cover foreign-key violations.
   */
  predicate VideoInsertFails(channels: map<string, string>, videos: map<string, VideoRow>, v: VideoDict) {
    RowOf(v).Some? && v.videoId !in videos && RowOf(v).value.channelId !in channels
  }

  /** The `videos` table after an `INSERT OR IGNORE` that did not fail. */
  function VideoStored(videos: map<string, VideoRow>, v: VideoDict): map<string, VideoRow> {
    if RowOf(v).Some? && v.videoId !in videos then videos[v.videoId := RowOf(v).value] else videos
  }

  /** `UPDATE videos SET duration = ? WHERE video_id = ?`. */
  function DurationUpdated(videos: map<string, VideoRow>, id: string, d: Option<int>): map<string, VideoRow> {
    if id in videos then videos[id := videos[id].(duration := d)] else videos
  }

  lemma InsertChannelKeepsExisting(channels: map<string, string>, id: string, title: Option<string>)
    requires id in channels
    ensures ChannelInserted(channels, id, title) == channels
  {
  }

  lemma InsertChannelAddsNew(channels: map<string, string>, id: string, title: string)
    requires id !in channels
    ensures ChannelInserted(channels, id, Some(title)) == channels[id := title]
    ensures ChannelInserted(channels, id, Some(title)).Keys == channels.Keys + {id}
  {
  }

  lemma InsertChannelSkipsNullTitle(channels: map<string, string>, id: string)
    ensures ChannelInserted(channels, id, None) == channels
  {
  }

  lemma InsertChannelIdempotent(channels: map<string, string>, id: string, title: Option<string>)
    ensures var once := ChannelInserted(channels, id, title);
            ChannelInserted(once, id, title) == once
  {
  }

  lemma InsertChannelPreservesIntegrity(channels: map<string, string>, videos: map<string, VideoRow>,
                                        id: string, title: Option<string>)
    requires ReferentiallyIntact(channels, videos)
    ensures ReferentiallyIntact(ChannelInserted(channels, id, title), videos)
  {
  }

  lemma InsertVideoKeepsExisting(channels: map<string, string>, videos: map<string, VideoRow>, v: VideoDict)
    requires v.videoId in videos
    ensures !VideoInsertFails(channels, videos, v) && VideoStored(videos, v) == videos
  {
  }

  lemma InsertVideoAddsNew(channels: map<string, string>, videos: map<string, VideoRow>, v: VideoDict)
    requires v.videoId !in videos && v.title.Some? && v.channelId.Some? && v.channelId.value in channels
    ensures !VideoInsertFails(channels, videos, v)
    ensures VideoStored(videos, v) == videos[v.videoId := RowOf(v).value]
  {
  }

  lemma InsertVideoSkipsNullColumns(channels: map<string, string>, videos: map<string, VideoRow>, v: VideoDict)
    requires v.title.None? || v.channelId.None?
    ensures !VideoInsertFails(channels, videos, v) && VideoStored(videos, v) == videos
  {
  }

  lemma InsertVideoRejectsUnknownChannel(channels: map<string, string>, videos: map<string, VideoRow>, v: VideoDict)
    requires v.videoId !in videos && v.title.Some? && v.channelId.Some? && v.channelId.value !in channels
    ensures VideoInsertFails(channels, videos, v)
  {
  }

  lemma InsertVideoIdempotent(channels: map<string, string>, videos: map<string, VideoRow>, v: VideoDict)
    requires !VideoInsertFails(channels, videos, v)
    ensures var once := VideoStored(videos, v);
            !VideoInsertFails(channels, once, v) && VideoStored(once, v) == once
  {
  }

  lemma InsertVideoPreservesIntegrity(channels: map<string, string>, videos: map<string, VideoRow>, v: VideoDict)
    requires ReferentiallyIntact(channels, videos) && !VideoInsertFails(channels, videos, v)
    ensures ReferentiallyIntact(channels, VideoStored(videos, v))
  {
  }

  lemma DurationUpdateTouchesOneField(videos: map<string, VideoRow>, id: string, d: Option<int>)
    ensures DurationUpdated(videos, id, d).Keys == videos.Keys
    ensures forall k :: k in videos && k != id ==> DurationUpdated(videos, id, d)[k] == videos[k]
    ensures id in videos ==> DurationUpdated(videos, id, d)[id] == videos[id].(duration := d)
  {
  }

  lemma DurationUpdatePreservesIntegrity(channels: map<string, string>, videos: map<string, VideoRow>,
                                         id: string, d: Option<int>)
    requires ReferentiallyIntact(channels, videos)
    ensures ReferentiallyIntact(channels, DurationUpdated(videos, id, d))
  {
  }

  // ---------------------------------------------------------------------------
  // The channel/date-window query and its result order.

  /** `channel_id = ? AND published_at BETWEEN ? AND ?`: any NULL operand makes the test false. */
  predicate InWindow(row: VideoRow, channelId: string, start: Option<string>, end: Option<string>) {
    && row.channelId == channelId
    && row.publishedAt.Some? && start.Some? && end.Some?
    && LexLe(start.value, row.publishedAt.value)
    && LexLe(row.publishedAt.value, end.value)
  }

  function PublishedKey(r: VideoRecord): string {
    r.row.publishedAt.GetOr("")
  }

  /** `ORDER BY published_at DESC`; rows with equal keys may come in any order. */
  ghost predicate NewestFirst(rs: seq<VideoRecord>) {
    forall i, j :: 0 <= i < j < |rs| ==> LexLe(PublishedKey(rs[j]), PublishedKey(rs[i]))
  }

  ghost predicate DistinctIds(rs: seq<VideoRecord>) {
    forall i, j :: 0 <= i < j < |rs| ==> rs[i].videoId != rs[j].videoId
  }

  /** `rs` is a correct answer to the window query against `videos`. */
  ghost predicate IsWindowResult(videos: map<string, VideoRow>, channelId: string,
                                 start: Option<string>, end: Option<string>, rs: seq<VideoRecord>) {
    && (forall r :: r in rs ==> r.videoId in videos && videos[r.videoId] == r.row
                                && InWindow(r.row, channelId, start, end))
    && (forall id :: id in videos && InWindow(videos[id], channelId, start, end)
                     ==> VideoRecord(id, videos[id]) in rs)
    && DistinctIds(rs)
    && NewestFirst(rs)
  }

  ghost predicate WindowEmpty(videos: map<string, VideoRow>, channelId: string,
                              start: Option<string>, end: Option<string>) {
    forall id :: id in videos ==> !InWindow(videos[id], channelId, start, end)
  }

  lemma WindowResultEmptyIff(videos: map<string, VideoRow>, channelId: string,
                             start: Option<string>, end: Option<string>, rs: seq<VideoRecord>)
    requires IsWindowResult(videos, channelId, start, end, rs)
    ensures |rs| == 0 <==> WindowEmpty(videos, channelId, start, end)
  {
    if |rs| > 0 {
      assert rs[0] in rs;
    }
  }

  /** Where a row with key `key` goes in a newest-first sequence: before the first row not newer. */
  function InsertionPoint(rs: seq<VideoRecord>, key: string): (p: nat)
    ensures p <= |rs|
    ensures forall i :: 0 <= i < p ==> !LexLe(PublishedKey(rs[i]), key)
    ensures p < |rs| ==> LexLe(PublishedKey(rs[p]), key)
  {
    if |rs| == 0 || LexLe(PublishedKey(rs[0]), key) then 0
    else 1 + InsertionPoint(rs[1..], key)
  }

  lemma {:induction false} InsertKeepsNewestFirst(rs: seq<VideoRecord>, r: VideoRecord)
    requires NewestFirst(rs)
    ensures var p := InsertionPoint(rs, PublishedKey(r));
            NewestFirst(rs[..p] + [r] + rs[p..])
  {
    var k := PublishedKey(r);
    var p := InsertionPoint(rs, k);
    var out := rs[..p] + [r] + rs[p..];
    forall i, j | 0 <= i < j < |out|
      ensures LexLe(PublishedKey(out[j]), PublishedKey(out[i]))
    {
      if j < p {
        assert out[i] == rs[i] && out[j] == rs[j];
      } else if j == p {
        assert out[i] == rs[i] && out[j] == r;
        LexLeTotal(PublishedKey(rs[i]), k);
      } else {
        assert out[j] == rs[j - 1];
        if i < p {
          assert out[i] == rs[i];
        } else if i == p {
          assert out[i] == r;
          if j - 1 > p {
            LexLeTransitive(PublishedKey(rs[j - 1]), PublishedKey(rs[p]), k);
          }
        } else {
          assert out[i] == rs[i - 1];
        }
      }
    }
  }

  lemma InsertAtKeepsDistinct(rs: seq<VideoRecord>, r: VideoRecord, p: nat)
    requires p <= |rs| && DistinctIds(rs)
    requires forall x :: x in rs ==> x.videoId != r.videoId
    ensures DistinctIds(rs[..p] + [r] + rs[p..])
  {
    var out := rs[..p] + [r] + rs[p..];
    forall i, j | 0 <= i < j < |out| ensures out[i].videoId != out[j].videoId {
      if j < p {
        assert out[i] == rs[i] && out[j] == rs[j];
      } else if j == p {
        assert out[i] == rs[i] && out[j] == r;
      } else if i < p {
        assert out[i] == rs[i] && out[j] == rs[j - 1];
      } else if i == p {
        assert out[i] == r && out[j] == rs[j - 1];
      } else {
        assert out[i] == rs[i - 1] && out[j] == rs[j - 1];
      }
    }
  }

  /** IsWindowResult restricted to the rows whose keys are in `seen`. */
  ghost predicate WindowResultSoFar(videos: map<string, VideoRow>, seen: set<string>, channelId: string,
                                    start: Option<string>, end: Option<string>, rs: seq<VideoRecord>) {
    && (forall r :: r in rs ==> r.videoId in seen && r.videoId in videos && videos[r.videoId] == r.row
                                && InWindow(r.row, channelId, start, end))
    && (forall id :: id in seen && id in videos && InWindow(videos[id], channelId, start, end)
                     ==> VideoRecord(id, videos[id]) in rs)
    && DistinctIds(rs)
    && NewestFirst(rs)
  }

  /** Adding the row of one more key keeps the partial answer correct. */
  function WindowStep(videos: map<string, VideoRow>, id: string, channelId: string,
                      start: Option<string>, end: Option<string>, rs: seq<VideoRecord>): seq<VideoRecord>
    requires id in videos
  {
    if InWindow(videos[id], channelId, start, end) then
      var r := VideoRecord(id, videos[id]);
      var p := InsertionPoint(rs, PublishedKey(r));
      rs[..p] + [r] + rs[p..]
    else rs
  }

  lemma WindowStepSound(videos: map<string, VideoRow>, seen: set<string>, id: string, channelId: string,
                        start: Option<string>, end: Option<string>, rs: seq<VideoRecord>)
    requires id in videos && id !in seen
    requires WindowResultSoFar(videos, seen, channelId, start, end, rs)
    ensures WindowResultSoFar(videos, seen + {id}, channelId, start, end, WindowStep(videos, id, channelId, start, end, rs))
  {
    if InWindow(videos[id], channelId, start, end) {
      var r := VideoRecord(id, videos[id]);
      var p := InsertionPoint(rs, PublishedKey(r));
      InsertKeepsNewestFirst(rs, r);
      InsertAtKeepsDistinct(rs, r, p);
      assert rs == rs[..p] + rs[p..];
    }
  }

  // ---------------------------------------------------------------------------

  class YouTubeDB {
    var channels: map<string, string>
    var videos: map<string, VideoRow>

    ghost predicate Valid()
      reads this
    {
      ReferentiallyIntact(channels, videos)
    }

    /**
     * Opening the store file: `channels0`/`videos0` are what the file already
     * holds (both empty for a new file); _init_db then runs on it.
     */
    constructor (channels0: map<string, string>, videos0: map<string, VideoRow>)
      requires ReferentiallyIntact(channels0, videos0)
      ensures Valid()
      ensures channels == channels0 && videos == videos0
    {
      channels := channels0;
      videos := videos0;
      new;
      InitDb();
    }

    /** `CREATE TABLE IF NOT EXISTS` for both tables: existing data is untouched. */
    method InitDb()
      requires Valid()
      modifies this
      ensures Valid()
      ensures channels == old(channels) && videos == old(videos)
    {
    }

    method InsertChannel(channelId: string, channelTitle: Option<string>)
      requires Valid()
      modifies this
      ensures Valid()
      ensures channels == ChannelInserted(old(channels), channelId, channelTitle)
      ensures videos == old(videos)
    {
      if channelTitle.Some? && channelId !in channels {
        channels := channels[channelId := channelTitle.value];
      }
    }

    /** Returns false where SQLite raises IntegrityError; the tables are then unchanged. */
    method InsertVideo(video: VideoDict) returns (ok: bool)
      requires Valid()
      modifies this
      ensures Valid()
      ensures ok == !VideoInsertFails(old(channels), old(videos), video)
      ensures videos == if ok then VideoStored(old(videos), video) else old(videos)
      ensures channels == old(channels)
    {
      var row := RowOf(video);
      if row.None? || video.videoId in videos {
        ok := true;
      } else if row.value.channelId !in channels {
        ok := false;
      } else {
        videos := videos[video.videoId := row.value];
        ok := true;
      }
    }

    method UpdateVideoDuration(videoId: string, duration: Option<int>)
      requires Valid()
      modifies this
      ensures Valid()
      ensures videos == DurationUpdated(old(videos), videoId, duration)
      ensures channels == old(channels)
    {
      if videoId in videos {
        videos := videos[videoId := videos[videoId].(duration := duration)];
      }
    }

    /** `SELECT channel_id, channel_title FROM channels WHERE channel_title LIKE '%keyword%'`. */
    method SearchChannelsByTitle(keyword: string) returns (results: seq<(string, string)>)
      ensures forall p :: p in results ==> p.0 in channels && channels[p.0] == p.1 && ContainsSub(p.1, keyword)
      ensures forall id :: id in channels && ContainsSub(channels[id], keyword) ==> (id, channels[id]) in results
      ensures forall i, j :: 0 <= i < j < |results| ==> results[i].0 != results[j].0
    {
      results := [];
      var rest := channels.Keys;
      while rest != {}
        invariant rest <= channels.Keys
        invariant forall p :: p in results ==> p.0 in channels.Keys - rest && channels[p.0] == p.1 && ContainsSub(p.1, keyword)
        invariant forall id :: id in channels.Keys - rest && ContainsSub(channels[id], keyword) ==> (id, channels[id]) in results
        invariant forall i, j :: 0 <= i < j < |results| ==> results[i].0 != results[j].0
        decreases rest
      {
        var id :| id in rest;
        HasSubstringIff(channels[id], keyword);
        if HasSubstring(channels[id], keyword) {
          results := results + [(id, channels[id])];
        }
        rest := rest - {id};
      }
    }

    /**
     * `SELECT * FROM videos WHERE channel_id = ? AND published_at BETWEEN ? AND ?
     *  ORDER BY published_at DESC`.
     */
    method QueryChannelVideos(channelId: string, start: Option<string>, end: Option<string>)
      returns (rs: seq<VideoRecord>)
      ensures IsWindowResult(videos, channelId, start, end, rs)
    {
      rs := [];
      var rest := videos.Keys;
      while rest != {}
        invariant rest <= videos.Keys
        invariant WindowResultSoFar(videos, videos.Keys - rest, channelId, start, end, rs)
        decreases rest
      {
        var id :| id in rest;
        WindowStepSound(videos, videos.Keys - rest, id, channelId, start, end, rs);
        rs := WindowStep(videos, id, channelId, start, end, rs);
        assert videos.Keys - (rest - {id}) == (videos.Keys - rest) + {id};
        rest := rest - {id};
      }
    }
  }
}
