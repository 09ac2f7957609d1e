# laundrysoft core, modelled in Dafny

Laundry is a command-line tool. It pulls media out of services such as Tumblr and YouTube
and turns each post into an *item*. It archives the media files of each item into an
Amazon S3 bucket. This project models and proves properties of three parts of the code:

- the helpers in `helpers.js`:
  - `shortenString` cuts text at word boundaries;
  - `isWhitespace` validates blank input;
  - `uploadUrl` copies a remote file into the bucket once and answers with its canonical
    `https://<bucket>.s3.amazonaws.com/<key>` URL;
  - `deleteBefore` pages through a bucket listing and deletes the objects last modified
    before a cutoff;
- the YouTube video item (`items/google.youtube.video.js`):
  - `downloadLogic` says what is archived and under which keys;
  - `factory` builds the item, converting the description's line breaks to HTML;
- the Tumblr dashboard washer (`washers/tumblr.dashboard.js`): `doInput` pages through
  the dashboard until it has enough posts.

Files:

- `wrappers.dfy`: `Option`.
- `helpers_text.dfy` (module `HelpersText`): JavaScript white space, `trim`, `lastIndexOf`,
  `isWhitespace` and `shortenString`.
- `helpers_storage.dfy` (module `HelpersStorage`): the bucket is a `class Bucket` whose
  `objects` map the two S3 helpers change. The collaborators' answers are arguments:
  - what `headObject`, youtube-dl, the HTTP server and `s3.upload` answer, as a
    `Collaborators` record;
  - the listing pages and the `deleteObjects` reply.

  Every request a helper makes is returned in order as a trace of `Call`s. The methods are
  proved equal to specification functions (`UploadPlan`, `Transfer`, `ListingRequests`,
  `Accumulated`, `ExpiredKeys`), and the lemmas are about those functions.
- `youtube_video.dfy` (module `YouTubeVideo`): the download requests and the item.
- `tumblr_dashboard.dfy` (module `TumblrDashboard`): the paging loop. That file also holds:
  - its specification `Fetch`;
  - a closed form of the whole run (`Received`, `Reply`, `Shaped`);
  - the lemmas about that run.

Some behaviours of the code are worth noting, and the model keeps them as written:

- `uploadUrl` treats every failed `headObject` request as "absent", not only a "not found"
  answer. So a transient error causes a fresh download (`HelpersStorage.Found`).
- When the download or upload fails after youtube-dl resolved the URL, `uploadUrl` hands
  back the resolved media URL, not the URL it was given. The reason is that `url` is
  reassigned at helpers.js:151.
- On a client error, the Tumblr washer hands the posts collected so far to its callback,
  together with the error. They are not discarded.
- Listing pages stop when a page's length is anything other than the page size. That
  includes a page longer than the page size.

## Model

| member | source | states |
|---|---|---|
| HelpersText.IsWhitespace | helpers.js:247-249 | true exactly when every character is JavaScript white space, so the empty string passes |
| HelpersText.Trim | helpers.js:15 | the result is empty exactly for an all-white-space input, and otherwise starts and ends with a non-space character |
| HelpersText.LastIndexOf | helpers.js:30 | -1 exactly when the character is absent, otherwise the position of its last occurrence |
| HelpersText.ShortenString | helpers.js:14-36 | the loop returns `Shortened(s, len)`: '' for blank input, the trimmed input when it fits, otherwise the cut prefix plus "…" |
| HelpersText.ShortenedWithinLength | helpers.js:25-35 | with `len >= 1` the result is never longer than `len` |
| HelpersText.ShortenedIsWordPrefix | helpers.js:25-35 | an over-long input gives `p + "…"`; `p` is a prefix of the trimmed input shorter than `len`; `p` is non-empty once `len >= 2`; `p` is either the hard cut of `len - 1` characters or ends just before a space, with no space between it and `len`; the hard cut happens only when no space lies below `len` |
| HelpersStorage.ResultUrlInjective | helpers.js:128 | within one bucket, different targets get different canonical URLs |
| HelpersStorage.ProtocolEndsInColon | helpers.js:163 | a parsed protocol always ends in ':' |
| HelpersStorage.TransportAsWrittenNeverHttp | helpers.js:163-164 | as written, `protocol === 'http'` never holds, so every URL is fetched with `https.request` |
| HelpersStorage.HttpUrlsUseHttp | helpers.js:163-164 | with the comparison against "http:", an http URL is fetched over http |
| HelpersStorage.HttpsUrlsUseHttps | helpers.js:163-164 | an https URL is fetched over https |
| HelpersStorage.UploadUrl | helpers.js:122-158 | the reply, the requests and the new bucket contents are those of `UploadPlan` with the transport as written (`TransportAsWritten`) |
| HelpersStorage.DoUpload | helpers.js:160-182 | the download-then-upload step, fetching over the transport as written, leaves the reply, the requests and the bucket as `Transfer` describes |
| HelpersStorage.DownloadsUseHttps | helpers.js:163-165 | as written, every download `uploadUrl` makes, a plain-http one included, goes through `https.request` |
| HelpersStorage.UploadDecisions | helpers.js:123-180 | an empty URL returns at once with no request; a found key answers the canonical URL after one HEAD request; an error is reported exactly when youtube-dl is used and fails, with its own error and no download or write; a rejected status or a failed upload hands back the fetched URL and keeps the bucket |
| HelpersStorage.UploadWritesOnlyTarget | helpers.js:171-180 | only the target key can be added or changed and no key is removed; a write happens only after an accepted status (200 or 302) and a successful upload, and then the reply is the canonical URL |
| HelpersStorage.RerunWritesNothing | helpers.js:136-142 | after a successful upload, a rerun with the same target whose HEAD succeeds makes one request, writes nothing and gives the same URL |
| HelpersStorage.ListingLength | helpers.js:210-212 | the paging makes requests up to and including the first reply that is not a full page of 100 |
| HelpersStorage.ListingRequests | helpers.js:195-199 | request `i` lists 100 keys under the prefix, after the last key of the first `i` pages |
| HelpersStorage.ListAll | helpers.js:190-216 | the loop's requests, accumulated entries and error are the closed forms: all pages concatenated in order, and the error of the last reply |
| HelpersStorage.ListingMarkers | helpers.js:199 | the first marker is ''; after each full page the next marker is that page's last key |
| HelpersStorage.Expired | helpers.js:219-221 | the entries last modified strictly before the date, with their multiplicity, and no others |
| HelpersStorage.ExpiredKeys | helpers.js:219-225 | every key of an expired entry is passed to `deleteObjects`, and only such keys |
| HelpersStorage.RetentionBoundary | helpers.js:220 | an entry stamped exactly at the date is kept; one stamped a unit earlier is deleted |
| HelpersStorage.DeleteBefore | helpers.js:186-244 | a listing error aborts with no delete and an unchanged bucket; no expired key means no delete; otherwise exactly the expired keys go to one `deleteObjects` call, which removes them on success and changes nothing on failure |
| YouTubeVideo.TargetsAreDistinctKeys | items/google.youtube.video.js:40-45 | both keys start with `prefix + "/"`; they differ; each determines the video id |
| YouTubeVideo.BiggestThumbnail | items/google.youtube.video.js:31-37 | none exactly for an empty list; otherwise an entry of maximal width, namely the last such entry, as a stable sort followed by `pop` picks it |
| YouTubeVideo.DownloadLogic | items/google.youtube.video.js:26-49 | the thumbnail task fetches the widest thumbnail directly to `<prefix>/<id>.jpg`; the video task fetches the watch page through youtube-dl to `<prefix>/<id>.mp4`; both use the publication date |
| YouTubeVideo.JoinLines | items/google.youtube.video.js:56 | no line break is left |
| YouTubeVideo.FormatDescriptionByRuns | items/google.youtube.video.js:55-56 | the two replacements turn each maximal run of two or more breaks into `</p><p>` and each single break into `<br/>` |
| YouTubeVideo.NoBreakSurvives | items/google.youtube.video.js:55-56 | no `\n` or `\r` survives the conversion |
| YouTubeVideo.Factory | items/google.youtube.video.js:52-73 | the id, watch URL, "channel: title" title, author, date and duration come from the video; the thumbnail and media URL are the archived ones; the description is the player over those same two URLs, followed by `<p>`, the autolinked run-by-run conversion and `</p>` |
| YouTubeVideo.ItemUrlIsVideoSource | items/google.youtube.video.js:46-64 | the item links to the page its video is archived from |
| TumblrDashboard.Converted | washers/tumblr.dashboard.js:46-48 | each raw post of a page is converted, in order |
| TumblrDashboard.PushAll | washers/tumblr.dashboard.js:46-48 | the `forEach` appends the converted page to the posts |
| TumblrDashboard.Fetch | washers/tumblr.dashboard.js:29-58 | each call adds one request and keeps the earlier ones as a prefix |
| TumblrDashboard.FetchPosts | washers/tumblr.dashboard.js:29-58 | the do-while loop's requests, posts and error are those of `Fetch` |
| TumblrDashboard.DoInput | washers/tumblr.dashboard.js:22-59 | `doInput` runs the loop with quantity 40 and limit 100 |
| TumblrDashboard.RunShape | washers/tumblr.dashboard.js:29-58 | call `i` asks for `min(limit, quantity - collected)` posts; every call but the last returned exactly `limit` posts and left fewer than `quantity` collected; the last call ends the run with its error and the earlier posts, or with its page appended and the repeat condition false |
| TumblrDashboard.FetchFrom | washers/tumblr.dashboard.js:29-58 | from any loop state that is on track, the rest of the run has that shape |
| TumblrDashboard.ReceivedInOrder | washers/tumblr.dashboard.js:46-48 | the collected posts are the earlier ones followed by the converted posts of the new page, in order |
| TumblrDashboard.SinceIdOfRequests | washers/tumblr.dashboard.js:31-34 | the first request has no `since_id`; each later one uses the id of the last post collected |
| TumblrDashboard.ReceivedFull | washers/tumblr.dashboard.js:46-55 | after `n` continued calls exactly `n * limit` posts are collected |
| TumblrDashboard.RunIsBounded | washers/tumblr.dashboard.js:54-56 | with two or more calls, `(calls - 1) * limit < quantity`; when no page exceeds `limit`, fewer than `quantity + limit` posts are collected |
| TumblrDashboard.DoInputCallsOnce | washers/tumblr.dashboard.js:24-55 | with 40 and 100 the client is called exactly once, with `limit: 40, since_id: null` |
| TumblrDashboard.ErrorKeepsCollected | washers/tumblr.dashboard.js:40-58 | on a client error the callback gets the error together with all posts collected before it |

## Left out

- `shortenUrl`, `jsonRequest`, `validateFile` and `validateDirectory` are left out. They are calls into the Google URL shortener, `request`, `mkdirp` and the file system.
- `cleanString` and `classNameFromFile` are left out. They wrap `chalk.stripColor` and `path.basename`, whose behaviour is not part of this model.
- The `_.merge` override is left out. It depends on the merge semantics of lodash.
- The washer constructor, `rss.js` and other static settings are left out. They build configuration objects and contain no logic.
- S3, youtube-dl and HTTP are given as their answers.
  - HTTP response streaming, the `ContentLength` header parsed with `parseInt` and upload progress events are not modelled.
  - A stored object records its source URL, content type and upload time instead of its bytes.
- `async.doWhilst`, `async.parallel` and all callback plumbing are modelled as sequential code. Concurrency between tasks is not modelled.
- An `error` event of the download request has no handler in the source. It is not modelled.
- `Storage.downloadUrl`, `Item.buildVideo`, `Autolinker.link`, `Items.Tumblr.Post.factory`, `beforeInput` and the Tumblr client are foreign code. They are parameters, or described by the arguments passed to them.
- `moment` dates are integer timestamps, so `isBefore` is `<`.
- Logging (`log.debug`) is left out.
- The `LAUNDRY_S3_BUCKET` environment variable is the bucket's `name`.
- Strings are sequences of code points, not UTF-16 units. A `len` or `limit` counted in code units differs for astral characters.
- `url.parse` is modelled only as far as the protocol goes. Its scheme characters are modelled ASCII-only.
- A falsy `url` is modelled as the empty string. `null` and `undefined` are not distinguished from it.
- HelpersStorage.DeleteBefore: the listing pages are an argument independent of the bucket's map. A successful `deleteObjects` is taken to remove every key it was given. The per-key errors S3 can report inside a successful reply are not modelled.
- HelpersStorage.ListAll: requires a script of replies that ends (`ListingEnds`). With a listing that always returned full pages, the source would never stop.
- HelpersStorage.UploadDecisions: states, like `UploadWritesOnlyTarget` and `RerunWritesNothing`, facts that hold for any choice of transport (the `transport` parameter of `UploadPlan`); `UploadUrl` fixes it to the comparison as written, `TransportAsWritten`, and `TransportOf` is the corrected comparison, used only by the lemmas of the finding below.
- YouTubeVideo.BiggestThumbnail: models the sort by its effect, as a stable sort. It also follows `for…in` key order. When the thumbnail list is empty the source throws on `thumbnail.url`; the model returns no thumbnail task instead.
- TumblrDashboard.FetchPosts: requires `limit >= 1`. With `limit` 0 the source would loop forever on empty pages. `doInput` uses 100.

## Findings

| source | as written | input that shows it | evidently intended | confidence | as-written member | corrected member |
|---|---|---|---|---|---|---|
| helpers.js:163-164 | `protocol === 'http'`, but `url.parse` returns the protocol with its colon (`'http:'`), so the test never holds | `"http://example.com/a.jpg"`, which is fetched with `https.request` | plain-http URLs fetched with `http.request` | high, not executed | HelpersStorage.TransportAsWrittenNeverHttp | HelpersStorage.HttpUrlsUseHttp |
