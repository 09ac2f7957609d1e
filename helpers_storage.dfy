/**
 * The S3 helpers of helpers.js: `uploadUrl`, which copies a remote resource into the
 * bucket once and answers with its canonical URL, and `deleteBefore`, which pages
 * through a listing and deletes the objects last modified before a cutoff.
 *
 * The bucket is an object whose key-to-object map the helpers change. What S3, youtube-dl
 * and the HTTP server answer is given to each call as an argument, and every request a
 * call makes is returned in order as a trace of `Call`s, so that "nothing was looked up"
 * and "nothing was written" are statements about that trace.
 */
module HelpersStorage {
  import opened Wrappers
  import HelpersText

  /** A stored object: where its bytes came from, its content type, its last-modified stamp. */
  datatype S3Object = S3Object(source: string, contentType: string, lastModified: int)

  /** The bucket named by LAUNDRY_S3_BUCKET and what it holds. */
  class Bucket {
    const name: string
    var objects: map<string, S3Object>

    constructor (name: string, objects: map<string, S3Object>)
      ensures this.name == name && this.objects == objects
    {
      this.name := name;
      this.objects := objects;
    }
  }

  /** Which of the two request functions fetches a URL. */
  datatype Transport = Http | Https

  /** A request made to S3, to youtube-dl or to a web server. */
  datatype Call =
    | HeadObject(key: string)
    | GetInfo(url: string)
    | HttpGet(url: string, transport: Transport)
    | PutObject(key: string)
    | ListObjects(prefix: string, maxKeys: int, marker: string)
    | DeleteObjects(keys: seq<string>)

  // ---------------------------------------------------------------------------
  // uploadUrl
  // ---------------------------------------------------------------------------

  /** What `ytdl.getInfo` answers: the direct media URL, or an error. */
  datatype Ytdl = Resolved(mediaUrl: string) | YtdlFailed(error: string)

  /** The final response of the download request. */
  datatype Response = Response(statusCode: int, contentType: string)

  /** The answers of the collaborators during one `uploadUrl` call: whether `headObject`
      fails although the object exists, what youtube-dl says, the download response,
      whether `s3.upload` fails, and the clock at the time of the upload. */
  datatype Collaborators = Collaborators(
    headFails: bool, ytdl: Ytdl, response: Response, uploadFails: bool, now: int)

  /** The value handed to `uploadUrl`'s callback: a URL, or the youtube-dl error. */
  datatype Reply = Url(url: string) | Failure(error: string)

  /** The reply, the requests made, and the bucket's contents afterwards. */
  datatype Upload = Upload(reply: Reply, calls: seq<Call>, objects: map<string, S3Object>)

  /** `util.format('https://%s.s3.amazonaws.com/%s', bucket, target)`. */
  function ResultUrl(bucket: string, target: string): string
  {
    "https://" + bucket + ".s3.amazonaws.com/" + target
  }

  /** For one bucket, different targets have different canonical URLs. */
  lemma ResultUrlInjective(bucket: string, t1: string, t2: string)
    requires ResultUrl(bucket, t1) == ResultUrl(bucket, t2)
    ensures t1 == t2
  {
    var n := |"https://" + bucket + ".s3.amazonaws.com/"|;
    assert t1 == ResultUrl(bucket, t1)[n..];
    assert t2 == ResultUrl(bucket, t2)[n..];
  }

  /** `headObject` answers with data only when the key exists and the request succeeds;
      every error, "not found" or not, leaves `data` undefined. */
  predicate Found(objects: map<string, S3Object>, target: string, env: Collaborators)
  {
    target in objects && !env.headFails
  }

  /** Only 200 and 302 count as a successful download. */
  predicate StatusAccepted(code: int)
  {
    code == 200 || code == 302
  }

  predicate IsSchemeChar(c: char)
  {
    ('a' <= c <= 'z') || ('A' <= c <= 'Z') || ('0' <= c <= '9') || c == '.' || c == '+' || c == '-'
  }

  /** The length of the longest prefix made of scheme characters. */
  function SchemeLength(s: string): (n: nat)
    ensures n <= |s|
    ensures forall i :: 0 <= i < n ==> IsSchemeChar(s[i])
    ensures n < |s| ==> !IsSchemeChar(s[n])
  {
    if s != [] && IsSchemeChar(s[0]) then 1 + SchemeLength(s[1..]) else 0
  }

  function LowerAscii(s: string): (r: string)
    ensures |r| == |s|
    ensures forall i :: 0 <= i < |s| ==> r[i] == if 'A' <= s[i] <= 'Z' then s[i] - 'A' + 'a' else s[i]
  {
    if s == [] then []
    else [if 'A' <= s[0] <= 'Z' then s[0] - 'A' + 'a' else s[0]] + LowerAscii(s[1..])
  }

  /** `require('url').parse(url).protocol`: the trimmed URL's leading
      `[a-z0-9.+-]+:`, lower-cased and WITH its colon, or null. */
  function Protocol(url: string): Option<string>
  {
    var rest := HelpersText.Trim(url);
    var n := SchemeLength(rest);
    if 0 < n < |rest| && rest[n] == ':' then Some(LowerAscii(rest[..n + 1])) else None
  }

  /** A protocol, when there is one, ends in a colon. */
  lemma ProtocolEndsInColon(url: string)
    ensures Protocol(url).Some? ==> |Protocol(url).value| >= 2 && Protocol(url).value[|Protocol(url).value| - 1] == ':'
  {
    var rest := HelpersText.Trim(url);
    var n := SchemeLength(rest);
    if 0 < n < |rest| && rest[n] == ':' {
      var p := LowerAscii(rest[..n + 1]);
      assert rest[..n + 1][n] == ':';
      assert p[n] == ':';
    }
  }

  /** The transport as helpers.js:163-164 chooses it: `protocol === 'http'`. */
  function TransportAsWritten(url: string): Transport
  {
    if Protocol(url) == Some("http") then Http else Https
  }

  /** As written, the comparison can never succeed, because the parsed protocol keeps its
      colon: every URL, a plain-http one included, goes to `https.request`. */
  lemma TransportAsWrittenNeverHttp(url: string)
    ensures TransportAsWritten(url) == Https
  {
    ProtocolEndsInColon(url);
    assert "http"[|"http"| - 1] == 'p';
  }

  /** The transport as evidently intended: plain http for "http:" URLs. */
  function TransportOf(url: string): Transport
  {
    if Protocol(url) == Some("http:") then Http else Https
  }

  /** An "http:" URL is fetched over plain http. */
  lemma HttpUrlsUseHttp(url: string)
    requires |url| >= 5 && url[..5] == "http:"
    ensures TransportOf(url) == Http
  {
    assert forall i :: 0 <= i < 5 ==> url[i] == "http:"[i];
    ProtocolOfScheme(url, 4);
    HttpIsLowerCase();
  }

  lemma HttpIsLowerCase()
    ensures LowerAscii("http:") == "http:"
  {
    var s := "http:";
    assert s[0] == 'h' && s[1] == 't' && s[2] == 't' && s[3] == 'p' && s[4] == ':';
    LowerAsciiOfLower(s);
  }

  /** An "https:" URL is fetched over https. */
  lemma HttpsUrlsUseHttps(url: string)
    requires |url| >= 6 && url[..6] == "https:"
    ensures TransportOf(url) == Https
  {
    assert forall i :: 0 <= i < 6 ==> url[i] == "https:"[i];
    ProtocolOfScheme(url, 5);
    assert |LowerAscii(url[..6])| != |"http:"|;
  }

  /** Lower-casing leaves a string without capitals alone. */
  lemma LowerAsciiOfLower(s: string)
    requires forall i :: 0 <= i < |s| ==> !('A' <= s[i] <= 'Z')
    ensures LowerAscii(s) == s
  {
    assert forall i :: 0 <= i < |s| ==> LowerAscii(s)[i] == s[i];
  }

  /** A URL that starts with a scheme and a colon has that scheme, lower-cased, as protocol. */
  lemma ProtocolOfScheme(url: string, m: nat)
    requires 0 < m < |url| && url[m] == ':'
    requires forall i :: 0 <= i < m ==> IsSchemeChar(url[i])
    ensures Protocol(url) == Some(LowerAscii(url[..m + 1]))
  {
    assert IsSchemeChar(url[0]);
    var rest := HelpersText.Trim(url);
    TrimKeepsPrefix(url, m + 1);
    assert rest[..m + 1] == url[..m + 1];
    assert rest[m] == ':';
    SchemeLengthAt(rest, m);
  }

  /** Trimming a string whose first character and whose n-th character are not white
      space leaves its first n characters alone. */
  lemma TrimKeepsPrefix(s: string, n: nat)
    requires 0 < n <= |s| && !HelpersText.IsSpaceChar(s[0]) && !HelpersText.IsSpaceChar(s[n - 1])
    ensures |HelpersText.Trim(s)| >= n && HelpersText.Trim(s)[..n] == s[..n]
  {
    var front := HelpersText.TrimStart(s);
    assert front == s;
    var r := HelpersText.TrimEnd(front);
    assert HelpersText.Trim(s) == r;
  }

  lemma SchemeLengthAt(s: string, m: nat)
    requires m < |s| && !IsSchemeChar(s[m])
    requires forall i :: 0 <= i < m ==> IsSchemeChar(s[i])
    ensures SchemeLength(s) == m
  {
  }

  /** The URL that is downloaded: youtube-dl's media URL when it is used, else `url`. */
  function Fetched(url: string, useYtdl: bool, env: Collaborators): string
  {
    if useYtdl && env.ytdl.Resolved? then env.ytdl.mediaUrl else url
  }

  /** What `Helpers.uploadUrl(url, useYTDL, target, callback)` does to a bucket named
      `bucket` holding `objects`, given the collaborators' answers. A falsy `url` is
      modelled as the empty string. */
  function UploadPlan(bucket: string, objects: map<string, S3Object>, url: string, useYtdl: bool,
                      target: string, env: Collaborators, transport: string -> Transport): Upload
  {
    if url == "" then Upload(Url(url), [], objects)
    else if Found(objects, target, env) then
      Upload(Url(ResultUrl(bucket, target)), [HeadObject(target)], objects)
    else if useYtdl && env.ytdl.YtdlFailed? then
      Upload(Failure(env.ytdl.error), [HeadObject(target), GetInfo(url)], objects)
    else
      Transfer(bucket, objects, Fetched(url, useYtdl, env), target, env, transport,
               [HeadObject(target)] + if useYtdl then [GetInfo(url)] else [])
  }

  /** `doUpload`: the download of `fetched` after the requests `calls`, and the upload. */
  function Transfer(bucket: string, objects: map<string, S3Object>, fetched: string, target: string,
                    env: Collaborators, transport: string -> Transport, calls: seq<Call>): Upload
  {
    var calls := calls + [HttpGet(fetched, transport(fetched))];
    if !StatusAccepted(env.response.statusCode) then
      Upload(Url(fetched), calls, objects)
    else if env.uploadFails then
      Upload(Url(fetched), calls + [PutObject(target)], objects)
    else
      var stored := S3Object(fetched, env.response.contentType, env.now);
      Upload(Url(ResultUrl(bucket, target)), calls + [PutObject(target)], objects[target := stored])
  }

  /** `Helpers.uploadUrl` on the bucket `b`. */
  method UploadUrl(b: Bucket, url: string, useYtdl: bool, target: string, env: Collaborators)
    returns (reply: Reply, calls: seq<Call>)
    modifies b
    ensures Upload(reply, calls, b.objects) == UploadPlan(b.name, old(b.objects), url, useYtdl, target, env, TransportAsWritten)
  {
    if url == "" {
      return Url(url), [];
    }
    var resultUrl := ResultUrl(b.name, target);
    calls := [HeadObject(target)];
    if Found(b.objects, target, env) {
      // already uploaded
      return Url(resultUrl), calls;
    }
    var source := url;
    if useYtdl {
      calls := calls + [GetInfo(source)];
      match env.ytdl
      case YtdlFailed(e) =>
        return Failure(e), calls;
      case Resolved(media) =>
        source := media;
    }
    assert source == Fetched(url, useYtdl, env);
    assert calls == [HeadObject(target)] + if useYtdl then [GetInfo(url)] else [];
    assert UploadPlan(b.name, b.objects, url, useYtdl, target, env, TransportAsWritten)
        == Transfer(b.name, b.objects, source, target, env, TransportAsWritten, calls);
    reply, calls := DoUpload(b, source, target, resultUrl, env, calls);
  }

  /** `doUpload`: downloads `source` and streams it to `target`. */
  method DoUpload(b: Bucket, source: string, target: string, resultUrl: string, env: Collaborators, before: seq<Call>)
    returns (reply: Reply, calls: seq<Call>)
    requires resultUrl == ResultUrl(b.name, target)
    modifies b
    ensures Upload(reply, calls, b.objects) == Transfer(b.name, old(b.objects), source, target, env, TransportAsWritten, before)
  {
    calls := before + [HttpGet(source, TransportAsWritten(source))];
    if !StatusAccepted(env.response.statusCode) {
      return Url(source), calls;
    }
    calls := calls + [PutObject(target)];
    if env.uploadFails {
      return Url(source), calls;
    }
    b.objects := b.objects[target := S3Object(source, env.response.contentType, env.now)];
    reply := Url(resultUrl);
  }

  /** How `uploadUrl` decides:
      - a falsy URL is handed back at once, with no request at all;
      - an object the HEAD request finds is answered with the canonical URL after that one
        request, and nothing is resolved, downloaded or written;
      - the callback gets an error exactly when youtube-dl is used and fails, and then gets
        youtube-dl's own error, and nothing is downloaded or written;
      - a download status other than 200 and 302 hands back the URL that was fetched
        (the youtube-dl one when it was used) and writes nothing;
      - a failed upload hands back that URL too, and the bucket keeps its contents. */
  lemma UploadDecisions(bucket: string, objects: map<string, S3Object>, url: string, useYtdl: bool,
                        target: string, env: Collaborators, transport: string -> Transport)
    ensures var u := UploadPlan(bucket, objects, url, useYtdl, target, env, transport);
      var fetched := Fetched(url, useYtdl, env);
      && (url == "" ==> u.calls == [] && u.reply == Url(url) && u.objects == objects)
      && (url != "" ==> |u.calls| >= 1 && u.calls[0] == HeadObject(target))
      && (url != "" && Found(objects, target, env) ==>
            u == Upload(Url(ResultUrl(bucket, target)), [HeadObject(target)], objects))
      && (u.reply.Failure? <==>
            url != "" && !Found(objects, target, env) && useYtdl && env.ytdl.YtdlFailed?)
      && (u.reply.Failure? ==>
            && u.reply.error == env.ytdl.error && u.objects == objects
            && forall c :: c in u.calls ==> !c.HttpGet? && !c.PutObject?)
      && (url != "" && !Found(objects, target, env) && !(useYtdl && env.ytdl.YtdlFailed?) &&
          !StatusAccepted(env.response.statusCode) ==>
            u.reply == Url(fetched) && u.objects == objects && PutObject(target) !in u.calls)
      && (url != "" && !Found(objects, target, env) && !(useYtdl && env.ytdl.YtdlFailed?) &&
          env.uploadFails ==>
            u.reply == Url(fetched) && u.objects == objects)
  {
  }

  /** With the comparison as written, every download `uploadUrl` makes, a plain-http one
      included, goes through `https.request`. */
  lemma DownloadsUseHttps(bucket: string, objects: map<string, S3Object>, url: string, useYtdl: bool,
                          target: string, env: Collaborators)
    ensures forall c :: c in UploadPlan(bucket, objects, url, useYtdl, target, env, TransportAsWritten).calls && c.HttpGet? ==>
              c.transport == Https
  {
    DownloadTransport(bucket, objects, url, useYtdl, target, env, TransportAsWritten);
    TransportAsWrittenNeverHttp(Fetched(url, useYtdl, env));
  }

  /** The one download `uploadUrl` can make is of the fetched URL, over the transport chosen for it. */
  lemma DownloadTransport(bucket: string, objects: map<string, S3Object>, url: string, useYtdl: bool,
                          target: string, env: Collaborators, transport: string -> Transport)
    ensures forall c :: c in UploadPlan(bucket, objects, url, useYtdl, target, env, transport).calls && c.HttpGet? ==>
              c == HttpGet(Fetched(url, useYtdl, env), transport(Fetched(url, useYtdl, env)))
  {
  }

  /** Only the target key is ever written, no key is ever removed, and a write happens
      only after an accepted download and a successful upload, whose callback then gets the
      canonical URL; afterwards the key holds the downloaded object. */
  lemma UploadWritesOnlyTarget(bucket: string, objects: map<string, S3Object>, url: string, useYtdl: bool,
                               target: string, env: Collaborators, transport: string -> Transport)
    ensures var u := UploadPlan(bucket, objects, url, useYtdl, target, env, transport);
      && objects.Keys <= u.objects.Keys <= objects.Keys + {target}
      && (forall k :: k in objects && k != target ==> u.objects[k] == objects[k])
      && (u.objects != objects ==>
            && url != "" && !Found(objects, target, env) && !(useYtdl && env.ytdl.YtdlFailed?)
            && StatusAccepted(env.response.statusCode) && !env.uploadFails
            && u.reply == Url(ResultUrl(bucket, target))
            && target in u.objects && u.objects[target].lastModified == env.now)
  {
  }

  /** Idempotent reruns: once an upload to `target` has succeeded, a second call with the
      same target (any URL, any youtube-dl setting) whose HEAD request succeeds makes that
      one request, writes nothing and answers with the same canonical URL. Over both calls
      exactly one object was written. */
  lemma RerunWritesNothing(bucket: string, objects: map<string, S3Object>, url: string, useYtdl: bool,
                           target: string, env: Collaborators, url2: string, useYtdl2: bool, env2: Collaborators,
                           transport: string -> Transport)
    requires var first := UploadPlan(bucket, objects, url, useYtdl, target, env, transport);
      PutObject(target) in first.calls && !env.uploadFails
    requires url2 != "" && !env2.headFails
    ensures var first := UploadPlan(bucket, objects, url, useYtdl, target, env, transport);
      var second := UploadPlan(bucket, first.objects, url2, useYtdl2, target, env2, transport);
      && first.reply == Url(ResultUrl(bucket, target))
      && target in first.objects
      && second == Upload(first.reply, [HeadObject(target)], first.objects)
  {
  }

  // ---------------------------------------------------------------------------
  // deleteBefore
  // ---------------------------------------------------------------------------

  /** `MaxKeys` of every listing request. */
  const PageSize: int := 100

  /** One entry of a listing: its key and its `LastModified` stamp. */
  datatype Entry = Entry(key: string, lastModified: int)

  /** What one `listObjects` request answers: a page of entries, or an error. */
  datatype ListReply = Listed(contents: seq<Entry>) | ListFailed(error: string)

  /** The listing goes on after a reply only when it is a page of exactly `PageSize` entries. */
  predicate IsFullPage(r: ListReply)
  {
    r.Listed? && |r.contents| == PageSize
  }

  /** A script of listing replies that ends: some reply stops the paging. Without one the
      source would list forever. */
  predicate ListingEnds(pages: seq<ListReply>)
  {
    exists i :: 0 <= i < |pages| && !IsFullPage(pages[i])
  }

  /** How many `listObjects` requests the paging makes: up to and including the first
      reply that is not a full page. */
  function ListingLength(pages: seq<ListReply>): (n: nat)
    requires ListingEnds(pages)
    ensures 1 <= n <= |pages|
    ensures !IsFullPage(pages[n - 1])
    ensures forall i :: 0 <= i < n - 1 ==> IsFullPage(pages[i])
  {
    if !IsFullPage(pages[0]) then 1
    else
      var i :| 0 <= i < |pages| && !IsFullPage(pages[i]);
      assert ListingEnds(pages[1..]) by {
        assert !IsFullPage(pages[1..][i - 1]);
      }
      1 + ListingLength(pages[1..])
  }

  function Contents(r: ListReply): seq<Entry>
  {
    if r.Listed? then r.contents else []
  }

  /** `objects = objects.concat(data.Contents)` over a run of replies: the entries of all
      pages, in order. */
  function Accumulated(pages: seq<ListReply>): seq<Entry>
  {
    if pages == [] then [] else Accumulated(pages[..|pages| - 1]) + Contents(pages[|pages| - 1])
  }

  /** The `Marker` of the next request: the key of the last object so far, or ''. */
  function Marker(objects: seq<Entry>): string
  {
    if |objects| > 0 then objects[|objects| - 1].key else ""
  }

  /** The first `n` listing requests made for `prefix` against the replies `pages`. */
  function ListingRequests(prefix: string, pages: seq<ListReply>, n: nat): (calls: seq<Call>)
    requires n <= |pages|
    ensures |calls| == n
    ensures forall i :: 0 <= i < n ==> calls[i] == ListObjects(prefix, PageSize, Marker(Accumulated(pages[..i])))
  {
    if n == 0 then []
    else ListingRequests(prefix, pages, n - 1) + [ListObjects(prefix, PageSize, Marker(Accumulated(pages[..n - 1])))]
  }

  lemma AccumulatedStep(pages: seq<ListReply>, i: nat)
    requires i < |pages|
    ensures Accumulated(pages[..i + 1]) == Accumulated(pages[..i]) + Contents(pages[i])
  {
    assert pages[..i + 1][..i] == pages[..i];
  }

  /** The listing loop of `Helpers.deleteBefore`: requests pages of `PageSize` keys under
      `prefix`, each after the last key accumulated so far, appends each page, and goes on
      while the last page was full. A listing error stops it. */
  method ListAll(prefix: string, pages: seq<ListReply>)
    returns (objects: seq<Entry>, requests: seq<Call>, error: Option<string>)
    requires ListingEnds(pages)
    ensures var n := ListingLength(pages);
      && requests == ListingRequests(prefix, pages, n)
      && objects == Accumulated(pages[..n])
      && error == (if pages[n - 1].ListFailed? then Some(pages[n - 1].error) else None)
  {
    ghost var n := ListingLength(pages);
    objects, requests, error := [], [], None;
    var lastCount := 0;
    var i := 0;
    var more := true;
    while more
      invariant 0 <= i <= n
      invariant more <==> i < n
      invariant requests == ListingRequests(prefix, pages, i)
      invariant objects == Accumulated(pages[..i])
      invariant error == (if i > 0 && pages[i - 1].ListFailed? then Some(pages[i - 1].error) else None)
      decreases n - i
    {
      requests := requests + [ListObjects(prefix, PageSize, Marker(objects))];
      AccumulatedStep(pages, i);
      match pages[i] {
        case ListFailed(e) =>
          error := Some(e);
          more := false;
        case Listed(c) =>
          objects := objects + c;
          lastCount := |c|;
          more := lastCount == PageSize;
      }
      i := i + 1;
    }
  }

  /** The first request starts at marker '', and after each full page the next request
      starts at the key of that page's last entry. */
  lemma ListingMarkers(prefix: string, pages: seq<ListReply>)
    requires ListingEnds(pages)
    ensures var n, calls := ListingLength(pages), ListingRequests(prefix, pages, ListingLength(pages));
      && calls[0].marker == ""
      && forall i :: 0 <= i < n - 1 ==> calls[i + 1].marker == pages[i].contents[PageSize - 1].key
  {
    var n := ListingLength(pages);
    forall i | 0 <= i < n - 1
      ensures Marker(Accumulated(pages[..i + 1])) == pages[i].contents[PageSize - 1].key
    {
      AccumulatedStep(pages, i);
    }
  }

  /** The entries last modified strictly before `date` (`moment(LastModified).isBefore(date)`),
      counted with their multiplicity. */
  function Expired(objects: seq<Entry>, date: int): (r: seq<Entry>)
    ensures |r| <= |objects|
    ensures forall e :: multiset(r)[e] == if e.lastModified < date then multiset(objects)[e] else 0
  {
    if objects == [] then []
    else
      var rest := Expired(objects[1..], date);
      assert objects == [objects[0]] + objects[1..];
      if objects[0].lastModified < date then [objects[0]] + rest else rest
  }

  /** The keys passed to `deleteObjects`: those of exactly the expired entries, which are
      all of them before the cutoff. */
  function ExpiredKeys(objects: seq<Entry>, date: int): (keys: seq<string>)
    ensures forall e :: e in objects && e.lastModified < date ==> e.key in keys
    ensures forall k :: k in keys ==> exists e :: e in objects && e.lastModified < date && e.key == k
  {
    var expired := Expired(objects, date);
    assert forall e :: e in expired <==> e in objects && e.lastModified < date by {
      forall e ensures e in expired <==> e in objects && e.lastModified < date {
        assert e in expired <==> multiset(expired)[e] > 0;
        assert e in objects <==> multiset(objects)[e] > 0;
      }
    }
    var keys := seq(|expired|, i requires 0 <= i < |expired| => expired[i].key);
    assert forall k :: k in keys ==> exists i :: 0 <= i < |expired| && expired[i].key == k;
    forall e | e in objects && e.lastModified < date ensures e.key in keys {
      var i :| 0 <= i < |expired| && expired[i] == e;
      assert keys[i] == e.key;
    }
    keys
  }

  /** The retention boundary: an object stamped exactly at the cutoff is kept, one stamped
      a moment earlier is deleted. */
  lemma RetentionBoundary(objects: seq<Entry>, date: int, e: Entry)
    requires e in objects
    ensures e.lastModified == date ==> e !in Expired(objects, date)
    ensures e.lastModified == date - 1 ==> e.key in ExpiredKeys(objects, date)
  {
    assert multiset(Expired(objects, date))[e] == if e.lastModified < date then multiset(objects)[e] else 0;
  }

  /** What `deleteObjects` answers. */
  datatype DeleteReply = DeleteOk | DeleteFailed(error: string)

  /** `Helpers.deleteBefore(prefix, date, callback)` on the bucket `b`; returns the error
      handed to the callback, if any. */
  method DeleteBefore(b: Bucket, prefix: string, date: int, pages: seq<ListReply>, reply: DeleteReply)
    returns (error: Option<string>, calls: seq<Call>)
    requires ListingEnds(pages)
    modifies b
    ensures var n := ListingLength(pages);
      var listed := Accumulated(pages[..n]);
      var keys := ExpiredKeys(listed, date);
      && |calls| >= n && calls[..n] == ListingRequests(prefix, pages, n)
      && (pages[n - 1].ListFailed? ==>
            error == Some(pages[n - 1].error) && calls == calls[..n] && b.objects == old(b.objects))
      && (pages[n - 1].Listed? && keys == [] ==>
            error == None && calls == calls[..n] && b.objects == old(b.objects))
      && (pages[n - 1].Listed? && keys != [] ==>
            && calls == calls[..n] + [DeleteObjects(keys)]
            && (reply.DeleteOk? ==> error == None && b.objects == old(b.objects) - set k | k in keys)
            && (reply.DeleteFailed? ==> error == Some(reply.error) && b.objects == old(b.objects)))
  {
    var objects, requests, listError := ListAll(prefix, pages);
    calls := requests;
    if listError.Some? {
      return listError, calls;
    }
    var keys := ExpiredKeys(objects, date);
    if |keys| == 0 {
      return None, calls;
    }
    calls := calls + [DeleteObjects(keys)];
    match reply
    case DeleteOk =>
      b.objects := b.objects - set k | k in keys;
      error := None;
    case DeleteFailed(e) =>
      error := Some(e);
  }
}
