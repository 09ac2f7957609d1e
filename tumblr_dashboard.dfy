/**
 * washers/tumblr.dashboard.js: `Dashboard.prototype.doInput`, which pages through the
 * user's Tumblr dashboard until it has enough posts.
 * The client, `Items.Tumblr.Post.factory` and the id of a converted post are foreign; they
 * are the fields of a `Feed`. `beforeInput` and the `log.debug` line are not modelled, and
 * the `async.doWhilst` callbacks become one sequential loop.
 */
module TumblrDashboard {
  import opened Wrappers

  /** The options of one `client.dashboard` call. `sinceId` is `null` (None) on the first
      call. */
  datatype Opts = Opts(limit: int, sinceId: Option<int>)

  /** What one `client.dashboard` call reports: the raw posts of the page, or `err`. */
  datatype Dashboard<R> = Page(posts: seq<R>) | ClientError(error: string)

  /** The collaborators of the washer. `client(n, opts)` is the reply to the call with
      index `n` (counting from 0) made with `opts`, so replies may depend on the history. */
  datatype Feed<!R, !T> = Feed(client: (nat, Opts) -> Dashboard<R>, convert: R -> T, id: T -> int)

  /** One run of the loop: the options of every call made, in order, and what reaches the
      final callback, `callback(err, posts)`. */
  datatype Run<T> = Run(requests: seq<Opts>, posts: seq<T>, error: Option<string>)

  /** The constants of `doInput`. */
  const Quantity: int := 40
  const Limit: int := 100

  function Min(a: int, b: int): int
  {
    if a <= b then a else b
  }

  /** `Items.Tumblr.Post.factory` applied to every raw post of a page, in order. */
  function Converted<R, T>(convert: R -> T, page: seq<R>): (items: seq<T>)
    ensures |items| == |page|
    ensures forall i :: 0 <= i < |page| ==> items[i] == convert(page[i])
  {
    if page == [] then [] else Converted(convert, page[..|page| - 1]) + [convert(page[|page| - 1])]
  }

  /** The options built before each call: no more than `limit` posts and no more than are
      still missing, newer than the last post collected so far. */
  function Request<T>(id: T -> int, quantity: int, limit: int, posts: seq<T>): Opts
  {
    Opts(Min(limit, quantity - |posts|), if |posts| > 0 then Some(id(posts[|posts| - 1])) else None)
  }

  function Missing(quantity: int, count: int): nat
  {
    if quantity - count < 0 then 0 else quantity - count
  }

  /** The rest of the loop once `requests` have been made and `posts` collected: make the
      next call; stop with the error on a client error; otherwise append the converted page
      and repeat only when the page held exactly `limit` posts and fewer than `quantity` are
      collected. */
  function Fetch<R, T>(feed: Feed<R, T>, quantity: int, limit: int, requests: seq<Opts>, posts: seq<T>): (r: Run<T>)
    requires limit >= 1
    ensures |r.requests| > |requests| && r.requests[..|requests|] == requests
    decreases Missing(quantity, |posts|)
  {
    var opts := Request(feed.id, quantity, limit, posts);
    var sent := requests + [opts];
    match feed.client(|requests|, opts)
    case ClientError(e) => Run(sent, posts, Some(e))
    case Page(page) =>
      var collected := posts + Converted(feed.convert, page);
      if |page| == limit && |collected| < quantity then Fetch(feed, quantity, limit, sent, collected)
      else Run(sent, collected, None)
  }

  /** The loop of `doInput` for any `quantity` and `limit`. */
  method FetchPosts<R, T>(feed: Feed<R, T>, quantity: int, limit: int)
    returns (requests: seq<Opts>, posts: seq<T>, error: Option<string>)
    requires limit >= 1
    ensures Run(requests, posts, error) == Fetch(feed, quantity, limit, [], [])
  {
    requests := [];
    posts := [];
    error := None;
    var more := true;
    while more
      invariant more ==> Fetch(feed, quantity, limit, requests, posts) == Fetch(feed, quantity, limit, [], [])
      invariant more ==> error == None
      invariant !more ==> Run(requests, posts, error) == Fetch(feed, quantity, limit, [], [])
      decreases if more then 1 + Missing(quantity, |posts|) else 0
    {
      var opts := Opts(Min(limit, quantity - |posts|), if |posts| > 0 then Some(feed.id(posts[|posts| - 1])) else None);
      var reply := feed.client(|requests|, opts);
      ghost var before, sent := posts, requests;
      requests := requests + [opts];
      if reply.ClientError? {
        error := Some(reply.error);
        more := false;
        assert Fetch(feed, quantity, limit, sent, before) == Run(requests, posts, error);
      } else {
        var page := reply.posts;
        posts := PushAll(feed.convert, posts, page);
        more := |page| == limit && |posts| < quantity;
        assert Fetch(feed, quantity, limit, sent, before) ==
          if more then Fetch(feed, quantity, limit, requests, posts) else Run(requests, posts, None);
      }
    }
  }

  /** `data.posts.forEach(post => posts.push(factory(post)))`. */
  method PushAll<R, T>(convert: R -> T, posts: seq<T>, page: seq<R>) returns (pushed: seq<T>)
    ensures pushed == posts + Converted(convert, page)
  {
    pushed := posts;
    var k := 0;
    while k < |page|
      invariant 0 <= k <= |page|
      invariant pushed == posts + Converted(convert, page[..k])
    {
      assert page[..k + 1][..k] == page[..k];
      pushed := pushed + [convert(page[k])];
      k := k + 1;
    }
    assert page[..k] == page;
  }

  /** `doInput(callback)`: the loop with at most 40 posts in pages of at most 100; the
      callback receives the error, if any, and the posts collected up to it. */
  method DoInput<R, T>(feed: Feed<R, T>) returns (error: Option<string>, posts: seq<T>, requests: seq<Opts>)
    ensures Run(requests, posts, error) == Fetch(feed, Quantity, Limit, [], [])
  {
    requests, posts, error := FetchPosts(feed, Quantity, Limit);
  }

  // ---------------------------------------------------------------------------
  // the run in closed form
  // ---------------------------------------------------------------------------

  /** The posts collected after the first `n` calls, assuming each of them returned a page. */
  ghost function Received<R, T>(feed: Feed<R, T>, quantity: int, limit: int, n: nat): seq<T>
    decreases n, 1
  {
    if n == 0 then []
    else
      var prior := Received(feed, quantity, limit, n - 1);
      match Reply(feed, quantity, limit, n - 1)
      case Page(page) => prior + Converted(feed.convert, page)
      case ClientError(_) => prior
  }

  /** The reply to call `n` made after the first `n` calls each returned a page. */
  ghost function Reply<R, T>(feed: Feed<R, T>, quantity: int, limit: int, n: nat): Dashboard<R>
    decreases n, 2
  {
    feed.client(n, Request(feed.id, quantity, limit, Received(feed, quantity, limit, n)))
  }

  /** Call `i` was followed by another one: it returned exactly `limit` posts and left fewer
      than `quantity` collected. */
  ghost predicate Continued<R, T>(feed: Feed<R, T>, quantity: int, limit: int, i: nat)
  {
    && Reply(feed, quantity, limit, i).Page?
    && |Reply(feed, quantity, limit, i).posts| == limit
    && |Received(feed, quantity, limit, i + 1)| < quantity
  }

  /** The state at the top of the loop after `|requests|` calls. */
  ghost predicate OnTrack<R, T>(feed: Feed<R, T>, quantity: int, limit: int, requests: seq<Opts>, posts: seq<T>)
  {
    && posts == Received(feed, quantity, limit, |requests|)
    && (forall i :: 0 <= i < |requests| ==>
          requests[i] == Request(feed.id, quantity, limit, Received(feed, quantity, limit, i)))
    && (forall i :: 0 <= i < |requests| ==> Continued(feed, quantity, limit, i))
  }

  /** What a run made of `n` calls looks like. */
  ghost predicate Shaped<R, T>(feed: Feed<R, T>, quantity: int, limit: int, r: Run<T>)
  {
    var n := |r.requests|;
    && n >= 1
    && (forall i :: 0 <= i < n ==>
          r.requests[i] == Request(feed.id, quantity, limit, Received(feed, quantity, limit, i)))
    && (forall i :: 0 <= i < n - 1 ==> Continued(feed, quantity, limit, i))
    && match Reply(feed, quantity, limit, n - 1)
       case ClientError(e) =>
         r.error == Some(e) && r.posts == Received(feed, quantity, limit, n - 1)
       case Page(page) =>
         && r.error == None && r.posts == Received(feed, quantity, limit, n)
         && !(|page| == limit && |r.posts| < quantity)
  }

  lemma {:induction false} FetchFrom<R, T>(feed: Feed<R, T>, quantity: int, limit: int, requests: seq<Opts>, posts: seq<T>)
    requires limit >= 1
    requires OnTrack(feed, quantity, limit, requests, posts)
    ensures Shaped(feed, quantity, limit, Fetch(feed, quantity, limit, requests, posts))
    decreases Missing(quantity, |posts|)
  {
    var n := |requests|;
    var opts := Request(feed.id, quantity, limit, posts);
    var sent := requests + [opts];
    NextRequest(feed, quantity, limit, requests, posts);
    match feed.client(n, opts)
    case ClientError(e) =>
      assert Fetch(feed, quantity, limit, requests, posts) == Run(sent, posts, Some(e));
      LastCall(feed, quantity, limit, requests, posts, Run(sent, posts, Some(e)));
    case Page(page) =>
      var collected := posts + Converted(feed.convert, page);
      assert collected == Received(feed, quantity, limit, n + 1);
      if |page| == limit && |collected| < quantity {
        assert Continued(feed, quantity, limit, n);
        assert Fetch(feed, quantity, limit, requests, posts) == Fetch(feed, quantity, limit, sent, collected);
        StepOnTrack(feed, quantity, limit, requests, posts);
        FetchFrom(feed, quantity, limit, sent, collected);
      } else {
        assert Fetch(feed, quantity, limit, requests, posts) == Run(sent, collected, None);
        LastCall(feed, quantity, limit, requests, posts, Run(sent, collected, None));
      }
  }

  /** A run that ends with the next call has the shape the closed form describes. */
  lemma LastCall<R, T>(feed: Feed<R, T>, quantity: int, limit: int, requests: seq<Opts>, posts: seq<T>, r: Run<T>)
    requires OnTrack(feed, quantity, limit, requests, posts)
    requires r.requests == requests + [Request(feed.id, quantity, limit, posts)]
    requires match Reply(feed, quantity, limit, |requests|)
      case ClientError(e) => r.error == Some(e) && r.posts == posts
      case Page(page) =>
        && r.error == None && r.posts == Received(feed, quantity, limit, |requests| + 1)
        && !(|page| == limit && |r.posts| < quantity)
    ensures Shaped(feed, quantity, limit, r)
  {
    NextRequest(feed, quantity, limit, requests, posts);
  }

  /** A continued call keeps the loop state on track. */
  lemma StepOnTrack<R, T>(feed: Feed<R, T>, quantity: int, limit: int, requests: seq<Opts>, posts: seq<T>)
    requires OnTrack(feed, quantity, limit, requests, posts)
    requires Continued(feed, quantity, limit, |requests|)
    ensures OnTrack(feed, quantity, limit, requests + [Request(feed.id, quantity, limit, posts)],
                    Received(feed, quantity, limit, |requests| + 1))
  {
    var sent := requests + [Request(feed.id, quantity, limit, posts)];
    NextRequest(feed, quantity, limit, requests, posts);
    forall i | 0 <= i < |sent|
      ensures Continued(feed, quantity, limit, i)
    {
      if i < |requests| {
        assert Continued(feed, quantity, limit, i);
      }
    }
  }

  /** The next call is made with the options the closed form predicts. */
  lemma NextRequest<R, T>(feed: Feed<R, T>, quantity: int, limit: int, requests: seq<Opts>, posts: seq<T>)
    requires OnTrack(feed, quantity, limit, requests, posts)
    ensures var sent := requests + [Request(feed.id, quantity, limit, posts)];
      && Reply(feed, quantity, limit, |requests|) == feed.client(|requests|, Request(feed.id, quantity, limit, posts))
      && forall i :: 0 <= i < |sent| ==> sent[i] == Request(feed.id, quantity, limit, Received(feed, quantity, limit, i))
  {
  }

  /** The run of the loop, call by call: call `i` asks for
      `min(limit, quantity - collected)` posts newer than the last one collected, every call
      but the last returned a full page of `limit` posts and left fewer than `quantity`
      collected, and the last one ends the loop: with its error and the posts collected
      before it, or with its page appended and the repeat condition false. */
  lemma RunShape<R, T>(feed: Feed<R, T>, quantity: int, limit: int)
    requires limit >= 1
    ensures Shaped(feed, quantity, limit, Fetch(feed, quantity, limit, [], []))
  {
    FetchFrom(feed, quantity, limit, [], []);
  }

  /** The collected posts are the converted posts of the pages received, in order. */
  lemma ReceivedInOrder<R, T>(feed: Feed<R, T>, quantity: int, limit: int, n: nat)
    requires n >= 1 && Reply(feed, quantity, limit, n - 1).Page?
    ensures var page := Reply(feed, quantity, limit, n - 1).posts;
      && |Received(feed, quantity, limit, n)| == |Received(feed, quantity, limit, n - 1)| + |page|
      && Received(feed, quantity, limit, n)[..|Received(feed, quantity, limit, n - 1)|] == Received(feed, quantity, limit, n - 1)
      && forall j :: 0 <= j < |page| ==>
           Received(feed, quantity, limit, n)[|Received(feed, quantity, limit, n - 1)| + j] == feed.convert(page[j])
  {
    var prior, page := Received(feed, quantity, limit, n - 1), Reply(feed, quantity, limit, n - 1).posts;
    var items := Converted(feed.convert, page);
    assert Received(feed, quantity, limit, n) == prior + items;
    assert forall j :: 0 <= j < |page| ==> (prior + items)[|prior| + j] == items[j];
  }

  /** The first call asks for `min(limit, quantity)` posts with no `since_id`; each later
      one asks for posts newer than the last post collected. */
  lemma SinceIdOfRequests<R, T>(feed: Feed<R, T>, quantity: int, limit: int)
    requires limit >= 1
    ensures var r := Fetch(feed, quantity, limit, [], []);
      && |r.requests| >= 1 && r.requests[0] == Opts(Min(limit, quantity), None)
      && forall i :: 1 <= i < |r.requests| ==>
           var prior := Received(feed, quantity, limit, i);
           prior != [] && r.requests[i].sinceId == Some(feed.id(prior[|prior| - 1]))
  {
    RunShape(feed, quantity, limit);
    var r := Fetch(feed, quantity, limit, [], []);
    forall i | 1 <= i < |r.requests|
      ensures Received(feed, quantity, limit, i) != []
    {
      assert Continued(feed, quantity, limit, i - 1);
    }
  }

  /** `|Received(n)| == n * limit` along a run of continued calls. */
  lemma {:induction false} ReceivedFull<R, T>(feed: Feed<R, T>, quantity: int, limit: int, n: nat)
    requires forall i :: 0 <= i < n ==> Continued(feed, quantity, limit, i)
    ensures |Received(feed, quantity, limit, n)| == n * limit
  {
    if n > 0 {
      ReceivedFull(feed, quantity, limit, n - 1);
      assert Continued(feed, quantity, limit, n - 1);
      assert n * limit == (n - 1) * limit + limit;
    }
  }

  /** The loop makes few calls: before the last call fewer than `quantity` posts were
      collected, so `(calls - 1) * limit < quantity` once there are two or more calls, and
      when no page exceeds `limit` fewer than `quantity + limit` posts are ever collected. */
  lemma RunIsBounded<R, T>(feed: Feed<R, T>, quantity: int, limit: int)
    requires limit >= 1 && quantity >= 1
    ensures var r := Fetch(feed, quantity, limit, [], []);
      && (|r.requests| >= 2 ==> (|r.requests| - 1) * limit < quantity)
      && ((forall n: nat, o: Opts :: feed.client(n, o).Page? ==> |feed.client(n, o).posts| <= limit) ==>
            |r.posts| < quantity + limit)
  {
    RunShape(feed, quantity, limit);
    var r := Fetch(feed, quantity, limit, [], []);
    var n := |r.requests|;
    ReceivedFull(feed, quantity, limit, n - 1);
    if n >= 2 {
      assert Continued(feed, quantity, limit, n - 2);
    }
    var before := Received(feed, quantity, limit, n - 1);
    assert |before| < quantity by {
      if n >= 2 {
        assert Continued(feed, quantity, limit, n - 2);
      }
    }
  }

  /** With the constants of `doInput`: the client is called exactly once, for 40 posts and
      with no `since_id`; the posts are that page's (or none on an error). */
  lemma DoInputCallsOnce<R, T>(feed: Feed<R, T>)
    ensures var r := Fetch(feed, Quantity, Limit, [], []);
      && r.requests == [Opts(40, None)]
      && match feed.client(0, Opts(40, None))
         case ClientError(e) => r.error == Some(e) && r.posts == []
         case Page(page) => r.error == None && r.posts == Converted(feed.convert, page)
  {
    assert Request(feed.id, Quantity, Limit, []) == Opts(40, None);
  }

  /** On a client error the callback still receives every post collected before it. */
  lemma ErrorKeepsCollected<R, T>(feed: Feed<R, T>, quantity: int, limit: int)
    requires limit >= 1
    ensures var r := Fetch(feed, quantity, limit, [], []);
      r.error.Some? ==>
        && |r.requests| >= 1
        && Reply(feed, quantity, limit, |r.requests| - 1).ClientError?
        && r.posts == Received(feed, quantity, limit, |r.requests| - 1)
        && |r.posts| == (|r.requests| - 1) * limit
  {
    RunShape(feed, quantity, limit);
    var r := Fetch(feed, quantity, limit, [], []);
    ReceivedFull(feed, quantity, limit, |r.requests| - 1);
  }
}
