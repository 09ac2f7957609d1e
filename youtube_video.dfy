/**
 * items/google.youtube.video.js: what a YouTube video item downloads (`downloadLogic`)
 * and how the item is built from the API response and the archived URLs (`factory`).
 * `Storage.downloadUrl`, `Item.buildVideo` and `Autolinker.link` are not modelled: the
 * download tasks are described by the request they hand to `Storage.downloadUrl`, and
 * the other two are parameters. Dates are integer timestamps.
 */
module YouTubeVideo {
  import opened Wrappers

  /** One entry of `snippet.thumbnails`. */
  datatype Thumbnail = Thumbnail(url: string, width: int, height: int)

  /** The parts of a `playlistItems` entry that the item reads. `thumbnails` lists the
      values of `snippet.thumbnails` in the object's key order. */
  datatype Video = Video(
    videoId: string, title: string, channelTitle: string, description: string,
    publishedAt: int, duration: int, thumbnails: seq<Thumbnail>)

  /** The arguments a download task passes to `Storage.downloadUrl`. */
  datatype Download = Download(url: string, target: string, date: int, useYtdl: bool)

  function WatchUrl(videoId: string): string
  {
    "https://youtube.com/watch?v=" + videoId
  }

  function ThumbnailTarget(prefix: string, videoId: string): string
  {
    prefix + "/" + videoId + ".jpg"
  }

  function VideoTarget(prefix: string, videoId: string): string
  {
    prefix + "/" + videoId + ".mp4"
  }

  /** Both storage keys live under `prefix + "/"`, they never coincide, and each
      determines the video id, so different videos never share a key. */
  lemma TargetsAreDistinctKeys(prefix: string, videoId: string, otherId: string)
    ensures var jpg, mp4 := ThumbnailTarget(prefix, videoId), VideoTarget(prefix, videoId);
      && jpg[..|prefix| + 1] == prefix + "/" && mp4[..|prefix| + 1] == prefix + "/"
      && jpg != mp4
    ensures ThumbnailTarget(prefix, videoId) == ThumbnailTarget(prefix, otherId) ==> videoId == otherId
    ensures VideoTarget(prefix, videoId) == VideoTarget(prefix, otherId) ==> videoId == otherId
  {
    var jpg, mp4 := ThumbnailTarget(prefix, videoId), VideoTarget(prefix, videoId);
    var n := |prefix| + 1 + |videoId|;
    assert jpg[n + 1] == 'j' && mp4[n + 1] == 'm';
    if ThumbnailTarget(prefix, videoId) == ThumbnailTarget(prefix, otherId) {
      assert videoId == ThumbnailTarget(prefix, otherId)[|prefix| + 1..|ThumbnailTarget(prefix, otherId)| - 4];
    }
    if VideoTarget(prefix, videoId) == VideoTarget(prefix, otherId) {
      assert videoId == VideoTarget(prefix, otherId)[|prefix| + 1..|VideoTarget(prefix, otherId)| - 4];
    }
  }

  /** The thumbnail task's choice: copy the entries into an array, sort it by ascending
      width and `pop()` the last. Array.prototype.sort is stable on arrays this short, so
      the popped entry is the LAST one of maximal width; an empty list pops `undefined`,
      on which the task throws (None). */
  method BiggestThumbnail(thumbnails: seq<Thumbnail>) returns (t: Option<Thumbnail>)
    ensures t.None? <==> thumbnails == []
    ensures t.Some? ==> forall u :: u in thumbnails ==> u.width <= t.value.width
    ensures t.Some? ==> exists k :: 0 <= k < |thumbnails| && thumbnails[k] == t.value &&
                                    (forall j :: k < j < |thumbnails| ==> thumbnails[j].width < t.value.width)
  {
    if |thumbnails| == 0 {
      return None;
    }
    var best := 0;
    var i := 1;
    while i < |thumbnails|
      invariant 0 <= best < i <= |thumbnails|
      invariant forall j :: 0 <= j < i ==> thumbnails[j].width <= thumbnails[best].width
      invariant forall j :: best < j < i ==> thumbnails[j].width < thumbnails[best].width
    {
      if thumbnails[i].width >= thumbnails[best].width {
        best := i;
      }
      i := i + 1;
    }
    t := Some(thumbnails[best]);
  }

  /** The video task's request: the watch page, through youtube-dl. */
  function VideoDownload(prefix: string, video: Video): Download
  {
    Download(WatchUrl(video.videoId), VideoTarget(prefix, video.videoId), video.publishedAt, true)
  }

  /** `downloadLogic(prefix, obj, ...)`: the requests of its two tasks. The thumbnail is the
      widest one, fetched directly to `<prefix>/<id>.jpg`; the video is the watch page,
      fetched through youtube-dl to `<prefix>/<id>.mp4`; both carry the publication date. */
  method DownloadLogic(prefix: string, video: Video) returns (thumbnail: Option<Download>, clip: Download)
    ensures thumbnail.None? <==> video.thumbnails == []
    ensures thumbnail.Some? ==>
      && thumbnail.value.target == ThumbnailTarget(prefix, video.videoId)
      && !thumbnail.value.useYtdl && thumbnail.value.date == video.publishedAt
      && exists u :: u in video.thumbnails && u.url == thumbnail.value.url &&
                     (forall v :: v in video.thumbnails ==> v.width <= u.width)
    ensures clip.url == WatchUrl(video.videoId) && clip.target == VideoTarget(prefix, video.videoId)
    ensures clip.useYtdl && clip.date == video.publishedAt
  {
    var targetDate := video.publishedAt;
    var biggest := BiggestThumbnail(video.thumbnails);
    thumbnail := None;
    if biggest.Some? {
      thumbnail := Some(Download(biggest.value.url, ThumbnailTarget(prefix, video.videoId), targetDate, false));
    }
    clip := Download(WatchUrl(video.videoId), VideoTarget(prefix, video.videoId), targetDate, true);
  }

  // ---------------------------------------------------------------------------
  // description
  // ---------------------------------------------------------------------------

  predicate IsBreak(c: char)
  {
    c == '\n' || c == '\r'
  }

  /** The number of line-break characters at the start of `s`. */
  function BreakRun(s: string): (n: nat)
    ensures n <= |s|
    ensures forall i :: 0 <= i < n ==> IsBreak(s[i])
    ensures n < |s| ==> !IsBreak(s[n])
  {
    if s != [] && IsBreak(s[0]) then 1 + BreakRun(s[1..]) else 0
  }

  /** `description.replace(/[\n\r]{2,}/gim, '</p><p>')`: scanning from the left, every
      maximal run of two or more breaks becomes a paragraph break. */
  function JoinParagraphs(s: string): string
    decreases |s|
  {
    if s == [] then []
    else
      var n := BreakRun(s);
      if n >= 2 then "</p><p>" + JoinParagraphs(s[n..]) else [s[0]] + JoinParagraphs(s[1..])
  }

  /** `description.replace(/[\n\r]/gim, '<br/>')`: every break becomes a line break tag,
      so none is left. */
  function JoinLines(s: string): (r: string)
    ensures forall i :: 0 <= i < |r| ==> !IsBreak(r[i])
  {
    if s == [] then [] else (if IsBreak(s[0]) then "<br/>" else [s[0]]) + JoinLines(s[1..])
  }

  /** The two replacements in order. */
  function FormatDescription(s: string): string
  {
    JoinLines(JoinParagraphs(s))
  }

  /** A one-pass reading of the conversion: each maximal run of breaks becomes
      `</p><p>` when it is two or more long and `<br/>` when it is a single break. */
  function BreaksToHtml(s: string): string
    decreases |s|
  {
    if s == [] then []
    else
      var n := BreakRun(s);
      if n >= 2 then "</p><p>" + BreaksToHtml(s[n..])
      else if n == 1 then "<br/>" + BreaksToHtml(s[1..])
      else [s[0]] + BreaksToHtml(s[1..])
  }

  lemma {:induction false} JoinLinesAppend(a: string, b: string)
    ensures JoinLines(a + b) == JoinLines(a) + JoinLines(b)
  {
    if a != [] {
      assert (a + b)[1..] == a[1..] + b;
      JoinLinesAppend(a[1..], b);
    } else {
      assert a + b == b;
    }
  }

  /** `JoinLines` leaves a string without breaks alone. */
  lemma {:induction false} JoinLinesKeeps(s: string)
    requires forall i :: 0 <= i < |s| ==> !IsBreak(s[i])
    ensures JoinLines(s) == s
  {
    if s != [] {
      JoinLinesKeeps(s[1..]);
      assert s == [s[0]] + s[1..];
    }
  }

  lemma ParagraphTagUnchanged()
    ensures JoinLines("</p><p>") == "</p><p>"
  {
    var tag := "</p><p>";
    assert tag[0] == '<' && tag[1] == '/' && tag[2] == 'p' && tag[3] == '>';
    assert tag[4] == '<' && tag[5] == 'p' && tag[6] == '>';
    JoinLinesKeeps(tag);
  }

  /** The two successive replacements do exactly what the one-pass reading says. */
  lemma {:induction false} FormatDescriptionByRuns(s: string)
    ensures FormatDescription(s) == BreaksToHtml(s)
    decreases |s|
  {
    if s != [] {
      var n := BreakRun(s);
      if n >= 2 {
        JoinLinesAppend("</p><p>", JoinParagraphs(s[n..]));
        ParagraphTagUnchanged();
        FormatDescriptionByRuns(s[n..]);
      } else {
        JoinLinesAppend([s[0]], JoinParagraphs(s[1..]));
        assert JoinLines([s[0]]) == if IsBreak(s[0]) then "<br/>" else [s[0]];
        FormatDescriptionByRuns(s[1..]);
      }
    }
  }

  /** No line-break character survives the conversion. */
  lemma NoBreakSurvives(s: string)
    ensures forall i :: 0 <= i < |FormatDescription(s)| ==> !IsBreak(FormatDescription(s)[i])
  {
  }

  // ---------------------------------------------------------------------------
  // factory
  // ---------------------------------------------------------------------------

  /** What `Storage.downloadUrl` reported for one task. */
  datatype Archived = Archived(newUrl: string)

  /** The results of the two download tasks. */
  datatype Downloads = Downloads(thumbnail: Archived, video: Archived)

  /** The fields the item is constructed with. */
  datatype Item = Item(
    id: string, title: string, description: string, url: string, date: int,
    author: string, thumbnail: string, mediaUrl: string, duration: int)

  /** `factory(video, downloads)`, with `Item.buildVideo` and `Autolinker.link` as
      parameters. The item is the video's: its id, its watch URL, a title led by the
      channel, and the archived thumbnail and media URLs, which are also the ones the
      player in front of the converted description shows. */
  function Factory(video: Video, downloads: Downloads,
                   buildVideo: (string, string, int, int) -> string, autolink: string -> string): (item: Item)
    ensures item.id == video.videoId && item.url == WatchUrl(item.id)
    ensures item.author == video.channelTitle && item.title == item.author + ": " + video.title
    ensures item.thumbnail == downloads.thumbnail.newUrl && item.mediaUrl == downloads.video.newUrl
    ensures item.description ==
      buildVideo(item.mediaUrl, item.thumbnail, 640, 480) + "<p>" + autolink(BreaksToHtml(video.description)) + "</p>"
    ensures item.date == video.publishedAt && item.duration == video.duration
  {
    var player := buildVideo(downloads.video.newUrl, downloads.thumbnail.newUrl, 640, 480);
    var paragraphs := JoinParagraphs(video.description);
    var lines := JoinLines(paragraphs);
    FormatDescriptionByRuns(video.description);
    var linked := autolink(lines);
    var description := player + "<p>" + linked + "</p>";
    Item(video.videoId, video.channelTitle + ": " + video.title, description,
         WatchUrl(video.videoId), video.publishedAt, video.channelTitle,
         downloads.thumbnail.newUrl, downloads.video.newUrl, video.duration)
  }

  /** The item links to the page its video was archived from. */
  lemma ItemUrlIsVideoSource(prefix: string, video: Video, downloads: Downloads,
                             buildVideo: (string, string, int, int) -> string, autolink: string -> string)
    ensures Factory(video, downloads, buildVideo, autolink).url == VideoDownload(prefix, video).url
  {
  }
}
