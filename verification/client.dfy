/** The Last.fm client: signing and assembling requests, acquiring a session,
    and the paginated, retrying fetch of the scrobble history, the loved
    tracks and the friends list. HTTP is not modelled: a call takes the
    server's replies as a parameter, and returns the parameters it sends
    (`authenticate`) or every call of `get` it makes (the fetches). */
module Client {
  import opened Records
  import opened Signing
  import opened Pagination

  /* ---------------------------------------------------------------------
     Decimal rendering of page numbers (`page.to_string()`).
     --------------------------------------------------------------------- */

  function DigitChar(d: nat): char
    requires d < 10
  {
    ('0' as int + d) as char
  }

  /** `n.to_string()`: decimal digits, without a leading zero unless `n` is 0. */
  function DecimalString(n: nat): (s: string)
    ensures 0 < |s| && AllDigits(s)
    ensures s[0] == '0' ==> n == 0
  {
    if n < 10 then [DigitChar(n)] else DecimalString(n / 10) + [DigitChar(n % 10)]
  }

  predicate AllDigits(s: string)
  {
    forall i :: 0 <= i < |s| ==> '0' <= s[i] <= '9'
  }

  /** Reads a string of decimal digits back as a number. */
  function DecimalValue(s: string): nat
    requires AllDigits(s)
  {
    if s == [] then 0
    else DecimalValue(s[..|s| - 1]) * 10 + (s[|s| - 1] as int - '0' as int)
  }

  /** The page parameter names the page: reading it back gives the number. */
  lemma {:induction false} DecimalRoundTrip(n: nat)
    ensures AllDigits(DecimalString(n))
    ensures DecimalValue(DecimalString(n)) == n
  {
    if n >= 10 {
      DecimalRoundTrip(n / 10);
      var s := DecimalString(n / 10);
      assert (s + [DigitChar(n % 10)])[..|s|] == s;
    }
  }

  /** The call-specific parameters of a page request. */
  function PageParams(username: string, limit: string, page: nat): seq<Param>
  {
    [("user", username), ("limit", limit), ("page", DecimalString(page))]
  }

  /** A page request names the user and the page size, and its `page`
      parameter reads back as the page asked for. */
  lemma PageParamsNamePage(username: string, limit: string, page: nat)
    ensures var params := PageParams(username, limit, page);
      |params| == 3 && params[0] == ("user", username) && params[1] == ("limit", limit) &&
      params[2].0 == "page" && AllDigits(params[2].1) && DecimalValue(params[2].1) == page
  {
    DecimalRoundTrip(page);
  }

  /* ---------------------------------------------------------------------
     Decoded responses as replies of the shared fetch.
     --------------------------------------------------------------------- */

  /** `None` is a request or decoding failure; a decoded response is a page. */
  function Replies<R, T>(responses: seq<Option<R>>, toPage: R -> Reply<T>): (replies: seq<Reply<T>>)
    ensures |replies| == |responses|
    ensures forall i :: 0 <= i < |responses| && responses[i].None? ==> replies[i].NoPage?
  {
    seq(|responses|, i requires 0 <= i < |responses| =>
      if responses[i].Some? then toPage(responses[i].value) else NoPage)
  }

  function RecentTracksPage(response: RecentTracksResponse): Reply<Track>
  {
    Page(response.recentTracks.tracks, response.recentTracks.attributes.totalPages)
  }

  function LovedTracksPage(response: LovedTracksResponse): Reply<LovedTrack>
  {
    Page(response.lovedTracks.tracks, response.lovedTracks.attributes.totalPages)
  }

  function FriendsPage(response: FriendsResponse): Reply<Friend>
  {
    Page(response.friends.friends, response.friends.attributes.totalPages)
  }

  /** A decoded history page is a successful attempt carrying its tracks and
      its `totalPages`; a failed request or decoding is a failed attempt. */
  lemma RecentTracksDecoded(responses: seq<Option<RecentTracksResponse>>)
    ensures var replies := Replies(responses, RecentTracksPage);
      |replies| == |responses| &&
      forall i :: 0 <= i < |responses| ==>
        (replies[i].Page? <==> responses[i].Some?) &&
        (responses[i].Some? ==>
           replies[i].records == responses[i].value.recentTracks.tracks &&
           replies[i].totalPages == responses[i].value.recentTracks.attributes.totalPages)
  {
    var replies := Replies(responses, RecentTracksPage);
    forall i | 0 <= i < |responses|
      ensures replies[i] == if responses[i].Some? then RecentTracksPage(responses[i].value) else NoPage
    {
    }
  }

  /** A decoded loved-tracks page is a successful attempt carrying its tracks
      and its `totalPages`; a failed request or decoding is a failed attempt. */
  lemma LovedTracksDecoded(responses: seq<Option<LovedTracksResponse>>)
    ensures var replies := Replies(responses, LovedTracksPage);
      |replies| == |responses| &&
      forall i :: 0 <= i < |responses| ==>
        (replies[i].Page? <==> responses[i].Some?) &&
        (responses[i].Some? ==>
           replies[i].records == responses[i].value.lovedTracks.tracks &&
           replies[i].totalPages == responses[i].value.lovedTracks.attributes.totalPages)
  {
    var replies := Replies(responses, LovedTracksPage);
    forall i | 0 <= i < |responses|
      ensures replies[i] == if responses[i].Some? then LovedTracksPage(responses[i].value) else NoPage
    {
    }
  }

  /** A decoded friends page is a successful attempt carrying its friends and
      its `totalPages`; a failed request or decoding is a failed attempt. */
  lemma FriendsDecoded(responses: seq<Option<FriendsResponse>>)
    ensures var replies := Replies(responses, FriendsPage);
      |replies| == |responses| &&
      forall i :: 0 <= i < |responses| ==>
        (replies[i].Page? <==> responses[i].Some?) &&
        (responses[i].Some? ==>
           replies[i].records == responses[i].value.friends.friends &&
           replies[i].totalPages == responses[i].value.friends.attributes.totalPages)
  {
    var replies := Replies(responses, FriendsPage);
    forall i | 0 <= i < |responses|
      ensures replies[i] == if responses[i].Some? then FriendsPage(responses[i].value) else NoPage
    {
    }
  }

  /** A call of `get`: the API method and the call-specific parameters, which
      `get` completes and signs with `build_query` before sending. */
  datatype Call = Call(apiMethod: string, params: seq<Param>)

  /** The reply to the `auth.getMobileSession` call: the request failed, the
      body was not JSON, or the JSON body with its `session.key` (`None`
      when that is missing or not a string). */
  datatype AuthReply = PostFailed | NotJson | Json(sessionKey: Option<string>)

  class LastFM {
    const endpoint: string
    const apiKey: string
    const apiSecret: string
    /** The MD5 digest of a string, written in lower-case hexadecimal. */
    const hexDigest: string -> string
    var sessionKey: Option<string>

    constructor (apiKey: string, apiSecret: string, hexDigest: string -> string)
      ensures this.apiKey == apiKey && this.apiSecret == apiSecret && this.hexDigest == hexDigest
      ensures endpoint == "http://ws.audioscrobbler.com/2.0"
      ensures sessionKey == None
    {
      this.endpoint := "http://ws.audioscrobbler.com/2.0";
      this.apiKey := apiKey;
      this.apiSecret := apiSecret;
      this.hexDigest := hexDigest;
      this.sessionKey := None;
    }

    /** The digest of the pairs sorted by key, each key followed by its value,
        then the secret. */
    method GetSignature(query: seq<Param>) returns (signature: string)
      ensures signature == hexDigest(PreImage(SortByKey(query), apiSecret))
    {
      var sorted := SortByKey(query);
      var preImage := "";
      var i := 0;
      while i < |sorted|
        invariant 0 <= i <= |sorted|
        invariant preImage == Concat(sorted[..i])
      {
        ConcatStep(sorted, i);
        preImage := preImage + (sorted[i].0 + sorted[i].1);
        i := i + 1;
      }
      assert sorted[..i] == sorted;
      preImage := preImage + apiSecret;
      signature := hexDigest(preImage);
    }

    /** The caller's pairs, then `method`, `api_key`, the signature of all of
        these as `api_sig`, and `format=json`. */
    method BuildQuery(apiMethod: string, query: seq<Param>) returns (q: seq<Param>)
      ensures q == SignedQuery(apiKey, apiSecret, hexDigest, apiMethod, query)
    {
      ghost var unsigned := query + [("method", apiMethod), ("api_key", apiKey)];
      q := query;
      q := q + [("method", apiMethod)];
      q := q + [("api_key", apiKey)];
      assert q == unsigned;
      var signature := GetSignature(q);
      assert signature == Signature(hexDigest, apiSecret, unsigned);
      q := q + [("api_sig", signature)];
      q := q + [("format", "json")];
      assert q == unsigned + [("api_sig", signature), ("format", "json")];
    }

    /** Requests a session key for `username` and `password`. */
    method Authenticate(username: string, password: string, reply: AuthReply)
      returns (status: Outcome, form: seq<Param>)
      modifies this
      ensures form == SignedQuery(apiKey, apiSecret, hexDigest, "auth.getMobileSession",
                                  [("username", username), ("password", password)])
      ensures reply.Json? ==> sessionKey == reply.sessionKey
      ensures reply.Json? ==> (status == Pass <==> sessionKey.Some?)
      ensures reply.Json? && status.Fail? ==> status.error == AuthError
      ensures !reply.Json? ==> sessionKey == old(sessionKey) && status == Fail(TransportError)
    {
      form := BuildQuery("auth.getMobileSession", [("username", username), ("password", password)]);
      match reply {
        case PostFailed =>
          status := Fail(TransportError);
        case NotJson =>
          status := Fail(TransportError);
        case Json(key) =>
          sessionKey := key;
          if sessionKey.None? {
            status := Fail(AuthError);
          } else {
            status := Pass;
          }
      }
    }

    /** The query `get` sends for the page call
        `Call(apiMethod, PageParams(username, limit, page))`: the signed user,
        page size and page number, whose parameter reads back as the page. */
    method PageRequest(apiMethod: string, limit: string, username: string, page: nat)
      returns (query: seq<Param>)
      ensures query == SignedQuery(apiKey, apiSecret, hexDigest, apiMethod, PageParams(username, limit, page))
      ensures |query| == 7 && query[0] == ("user", username) && query[1] == ("limit", limit)
      ensures query[2].0 == "page" && AllDigits(query[2].1) && DecimalValue(query[2].1) == page
      ensures query[3] == ("method", apiMethod) && query[4] == ("api_key", apiKey)
    {
      query := BuildQuery(apiMethod, PageParams(username, limit, page));
      PageParamsNamePage(username, limit, page);
    }

    /** The shared fetch loop: calls `get` for page after page, retrying a
        failed page, until the page count passes the known total or three
        attempts in a row fail. `requests` lists the calls made, in order;
        `PageRequest` gives the query each of them sends. */
    method FetchPages<T>(apiMethod: string, limit: string, username: string, replies: seq<Reply<T>>)
      returns (r: FetchResult<T>, requests: seq<Call>)
      ensures IsRun(replies, |requests|, r)
      ensures forall i :: 0 <= i < |requests| ==>
        requests[i] == Call(apiMethod, PageParams(username, limit, RequestedPage(replies, i)))
    {
      var items: seq<T> := [];
      var page: nat := 1;
      var totalPages: nat := 0;
      var failures: nat := 0;
      requests := [];
      while true
        invariant |requests| <= |replies|
        invariant page == RequestedPage(replies, |requests|)
        invariant totalPages == KnownTotal(replies, |requests|)
        invariant failures == TrailingFailures(replies, |requests|)
        invariant items == Flatten(replies, |requests|)
        invariant forall m :: 0 < m <= |requests| ==> !Ends(replies, m)
        invariant forall i :: 0 <= i < |requests| ==>
          requests[i] == Call(apiMethod, PageParams(username, limit, RequestedPage(replies, i)))
        decreases |replies| - |requests|
      {
        if |requests| == |replies| {
          return Unanswered, requests;
        }
        var reply := replies[|requests|];
        requests := requests + [Call(apiMethod, PageParams(username, limit, page))];
        var success := false;
        if reply.Page? {
          items := items + reply.records;
          success := true;
          failures := 0;
          page := page + 1;
          if reply.totalPages > totalPages {
            totalPages := reply.totalPages;
          }
          if page > totalPages {
            return Ok(items), requests;
          }
        }
        if !success {
          failures := failures + 1;
          if failures >= MaxFailures {
            return Err(RequestError), requests;
          }
        }
      }
    }

    /** `user.getRecentTracks`, 200 tracks per page. */
    method RecentTracks(username: string, responses: seq<Option<RecentTracksResponse>>)
      returns (r: FetchResult<Track>, requests: seq<Call>)
      ensures IsRun(Replies(responses, RecentTracksPage), |requests|, r)
      ensures forall i :: 0 <= i < |requests| ==>
        requests[i] == Call("user.getRecentTracks", PageParams(username, "200", RequestedPage(Replies(responses, RecentTracksPage), i)))
    {
      r, requests := FetchPages("user.getRecentTracks", "200", username, Replies(responses, RecentTracksPage));
    }

    /** `user.getLovedTracks`, 200 tracks per page. */
    method LovedTracks(username: string, responses: seq<Option<LovedTracksResponse>>)
      returns (r: FetchResult<LovedTrack>, requests: seq<Call>)
      ensures IsRun(Replies(responses, LovedTracksPage), |requests|, r)
      ensures forall i :: 0 <= i < |requests| ==>
        requests[i] == Call("user.getLovedTracks", PageParams(username, "200", RequestedPage(Replies(responses, LovedTracksPage), i)))
    {
      r, requests := FetchPages("user.getLovedTracks", "200", username, Replies(responses, LovedTracksPage));
    }

    /** `user.getFriends`, 50 friends per page. */
    method Friends(username: string, responses: seq<Option<FriendsResponse>>)
      returns (r: FetchResult<Friend>, requests: seq<Call>)
      ensures IsRun(Replies(responses, FriendsPage), |requests|, r)
      ensures forall i :: 0 <= i < |requests| ==>
        requests[i] == Call("user.getFriends", PageParams(username, "50", RequestedPage(Replies(responses, FriendsPage), i)))
    {
      r, requests := FetchPages("user.getFriends", "50", username, Replies(responses, FriendsPage));
    }
  }
}
