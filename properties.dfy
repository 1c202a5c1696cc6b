/** What the handlers promise, one call at a time and over any sequence of
    requests served one after another. The create handler is async and
    pauses at its `await Log(...)` calls, so other requests may run between
    its insert and its response; serving in sequence is still exact, because
    create reads and writes the registry only in the synchronous stretch from
    the collision check to the insert, and its response uses only local values. */
module RegistryProperties {
  import opened UrlRegistry

  datatype Request =
    | CreateRequest(body: CreateBody, now: int, generated: string)
    | RedirectRequest(code: string, visit: Visit)
    | StatsRequest(code: string)

  datatype Response =
    | CreateResponse(created: Result<CreatedLink>)
    | RedirectResponse(target: Result<string>)
    | StatsResponse(stats: Result<StatsView>)

  /** The shortcode a request acts on: for a create, the supplied or the generated one. */
  function TargetCode(req: Request): string {
    match req
    case CreateRequest(body, _, generated) => ChosenCode(body.shortcode, generated)
    case RedirectRequest(code, _) => code
    case StatsRequest(code) => code
  }

  predicate Issued(resp: Response) {
    resp.CreateResponse? && resp.created.Ok?
  }

  function Serve(urls: Urls, req: Request): (r: (Response, Urls))
    ensures req.CreateRequest? ==> r == (CreateResponse(CreateStep(urls, req.body, req.now, req.generated).0), CreateStep(urls, req.body, req.now, req.generated).1)
    ensures req.RedirectRequest? ==> r == (RedirectResponse(RedirectStep(urls, req.code, req.visit).0), RedirectStep(urls, req.code, req.visit).1)
    ensures req.StatsRequest? ==> r == (StatsResponse(StatsOf(urls, req.code)), urls)
  {
    match req
    case CreateRequest(body, now, generated) =>
      var (r, m) := CreateStep(urls, body, now, generated); (CreateResponse(r), m)
    case RedirectRequest(code, visit) =>
      var (r, m) := RedirectStep(urls, code, visit); (RedirectResponse(r), m)
    case StatsRequest(code) => (StatsResponse(StatsOf(urls, code)), urls)
  }

  /** Serves `reqs` in order from `urls`: one response per request, and the final registry. */
  function Replay(urls: Urls, reqs: seq<Request>): (r: (seq<Response>, Urls))
    ensures |r.0| == |reqs|
    ensures forall j | 0 <= j < |reqs| :: reqs[j].CreateRequest? <==> r.0[j].CreateResponse?
    ensures forall j | 0 <= j < |reqs| :: reqs[j].RedirectRequest? <==> r.0[j].RedirectResponse?
    ensures forall j | 0 <= j < |reqs| :: reqs[j].StatsRequest? <==> r.0[j].StatsResponse?
    decreases |reqs|
  {
    if reqs == [] then ([], urls)
    else
      var (first, next) := Serve(urls, reqs[0]);
      var (rest, last) := Replay(next, reqs[1..]);
      ([first] + rest, last)
  }

  /** `after` is `before` with possibly more clicks appended and nothing else changed. */
  predicate Extends(before: UrlRecord, after: UrlRecord) {
    && after.originalUrl == before.originalUrl
    && after.expiry == before.expiry
    && after.createdAt == before.createdAt
    && |before.clicks| <= |after.clicks|
    && after.clicks[..|before.clicks|] == before.clicks
  }

  /** No key disappears and every stored record only gains clicks. */
  predicate Grows(before: Urls, after: Urls) {
    forall k | k in before :: k in after && Extends(before[k], after[k])
  }

  // ---- Create (backend/server.js:17-54) ----

  /** A missing, empty or non-http(s) url is rejected and nothing is stored. */
  lemma CreateRejectsInvalidUrl(urls: Urls, body: CreateBody, now: int, generated: string)
    ensures var (r, m) := CreateStep(urls, body, now, generated);
      (r == Err(InvalidUrl) <==> !IsWebUrl(body.url)) && (r == Err(InvalidUrl) ==> m == urls)
  {
  }

  lemma InvalidUrlExamples()
    ensures !IsWebUrl(None) && !IsWebUrl(Some("")) && !IsWebUrl(Some("ftp://x.com"))
    ensures !IsWebUrl(Some("http:/x")) && !IsWebUrl(Some("HTTP://x.com"))
    ensures IsWebUrl(Some("https://example.com")) && IsWebUrl(Some("http://"))
  {
    assert StartsWith("https://example.com", "https://");
    assert StartsWith("http://", "http://");
    assert "HTTP://x.com"[..7][0] == 'H' && "HTTP://x.com"[..8][0] == 'H';
    assert "http:/x"[..7][6] == 'x';
  }

  /** A missing or empty shortcode is replaced by the generated code, which has six characters. */
  lemma GeneratedCodeWhenNoShortcode(shortcode: Option<string>, generated: string)
    requires IsGeneratedCode(generated)
    ensures shortcode.None? || shortcode == Some("") ==> ChosenCode(shortcode, generated) == generated
    ensures shortcode.Some? && shortcode.value != "" ==> ChosenCode(shortcode, generated) == shortcode.value
    ensures ChosenCode(shortcode, generated) != ""
  {
  }

  /** With a valid url, create collides exactly when the chosen code (supplied or
      generated) is already stored; a collision leaves every record, clicks included, as it was. */
  lemma CreateCollidesIffStored(urls: Urls, body: CreateBody, now: int, generated: string)
    requires IsWebUrl(body.url)
    ensures var (r, m) := CreateStep(urls, body, now, generated);
      (r == Err(Collision) <==> ChosenCode(body.shortcode, generated) in urls)
      && (r == Err(Collision) ==> m == urls)
  {
  }

  /** Create succeeds exactly when the url is valid, the chosen code is not
      stored and the expiry is a valid Date; it never answers NotFound or
      Expired. A successful create adds exactly the chosen key, mapped to a
      fresh record expiring validity minutes (30 by default) after now, and
      returns the link host:port/code; every other entry is unchanged. */
  lemma CreateStoresFreshRecord(urls: Urls, body: CreateBody, now: int, generated: string)
    ensures var (r, m) := CreateStep(urls, body, now, generated);
      var code := ChosenCode(body.shortcode, generated);
      (r.Ok? <==> IsWebUrl(body.url) && code !in urls && ExpiryOf(now, body.validity).At?)
      && r != Err(NotFound) && r != Err(Expired)
    ensures var (r, m) := CreateStep(urls, body, now, generated);
      var code := ChosenCode(body.shortcode, generated);
      r.Ok? ==>
        && IsWebUrl(body.url)
        && code !in urls
        && m.Keys == urls.Keys + {code}
        && m[code] == UrlRecord(body.url.value, At(r.value.expiry), [], now)
        && r.value.expiry == now + ValidityMinutes(body.validity) * MsPerMinute
        && (body.validity.None? ==> r.value.expiry == now + 30 * 60000)
        && r.value.shortLink == "http://localhost:5000/" + code
        && (forall k | k in urls :: m[k] == urls[k])
  {
  }

  /** An expiry outside the Date range is still stored, the response is an
      internal error, and the stored record never expires. */
  lemma CreateWithUnrepresentableExpiry(urls: Urls, body: CreateBody, now: int, generated: string, later: Visit)
    ensures var (r, m) := CreateStep(urls, body, now, generated);
      var code := ChosenCode(body.shortcode, generated);
      var t := now + ValidityMinutes(body.validity) * MsPerMinute;
      (r == Err(InternalError) <==> IsWebUrl(body.url) && code !in urls && (t < -MaxTimeValue || MaxTimeValue < t))
      && (r == Err(InternalError) ==>
            m.Keys == urls.Keys + {code} && m[code] == UrlRecord(body.url.value, InvalidDate, [], now)
            && (forall k | k in urls :: m[k] == urls[k])
            && RedirectStep(m, code, later).0 == Ok(body.url.value))
  {
  }

  /** Distinct codes give distinct short links. */
  lemma ShortLinkInjective(a: string, b: string)
    ensures ShortLink(a) == ShortLink(b) <==> a == b
  {
    if ShortLink(a) == ShortLink(b) {
      var n := |LinkPrefix()|;
      assert a == ShortLink(a)[n..];
      assert b == ShortLink(b)[n..];
    }
  }

  // ---- Redirect (backend/server.js:57-71) ----

  lemma RedirectUnknownCode(urls: Urls, code: string, visit: Visit)
    requires code !in urls
    ensures RedirectStep(urls, code, visit) == (Err(NotFound), urls)
  {
  }

  /** Expired exactly when now is strictly after a valid expiry; then no click is recorded. */
  lemma RedirectExpiredIffPastExpiry(urls: Urls, code: string, visit: Visit)
    requires code in urls
    ensures var (r, m) := RedirectStep(urls, code, visit);
      (r == Err(Expired) <==> urls[code].expiry.At? && visit.now > urls[code].expiry.ms)
      && (r == Err(Expired) ==> m == urls)
      && (urls[code].expiry == At(visit.now) ==> r.Ok?)
  {
  }

  /** Once a link is expired it stays expired: a later redirect is refused too. */
  lemma ExpiredStaysExpired(urls: Urls, code: string, first: Visit, later: Visit)
    requires first.now <= later.now
    requires RedirectStep(urls, code, first).0 == Err(Expired)
    ensures RedirectStep(urls, code, later).0 == Err(Expired)
  {
  }

  /** A successful redirect returns the original url and appends exactly one click,
      "direct" when there is no referrer, at the end; nothing else changes. */
  lemma RedirectAppendsOneClick(urls: Urls, code: string, visit: Visit)
    ensures var (r, m) := RedirectStep(urls, code, visit);
      r.Ok? ==>
        && code in urls
        && r.value == urls[code].originalUrl
        && m.Keys == urls.Keys
        && m[code] == urls[code].(clicks := urls[code].clicks + [ClickOf(visit)])
        && ClickOf(visit).timestamp == visit.now && ClickOf(visit).location == visit.ip
        && (visit.referrer.Some? && visit.referrer.value != "" ==> ClickOf(visit).referrer == visit.referrer.value)
        && (visit.referrer.None? || visit.referrer == Some("") ==> ClickOf(visit).referrer == DirectReferrer)
        && (forall k | k in urls && k != code :: m[k] == urls[k])
  {
  }

  /** A link created at now with validity v redirects at any t <= now + v minutes
      and is expired at any later t. */
  lemma RedirectWithinValidity(urls: Urls, body: CreateBody, now: int, generated: string, visit: Visit)
    requires CreateStep(urls, body, now, generated).0.Ok?
    ensures var m := CreateStep(urls, body, now, generated).1;
      var r := RedirectStep(m, ChosenCode(body.shortcode, generated), visit).0;
      var deadline := now + ValidityMinutes(body.validity) * MsPerMinute;
      (r == Ok(body.url.value) <==> visit.now <= deadline)
      && (r == Err(Expired) <==> visit.now > deadline)
  {
  }

  // ---- Stats (backend/server.js:74-87) ----

  /** Stats reports the stored record whatever the time, with totalClicks == |clicks|. */
  lemma StatsReportsRecord(urls: Urls, code: string)
    ensures StatsOf(urls, code).Err? <==> code !in urls
    ensures code in urls ==>
      && StatsOf(urls, code).value.totalClicks == |urls[code].clicks|
      && StatsOf(urls, code).value.clicks == urls[code].clicks
      && StatsOf(urls, code).value.expiry == urls[code].expiry
      && StatsOf(urls, code).value.originalUrl == urls[code].originalUrl
      && StatsOf(urls, code).value.createdAt == urls[code].createdAt
  {
  }

  // ---- Sequences of requests ----

  lemma GrowsTransitive(a: Urls, b: Urls, c: Urls)
    requires Grows(a, b) && Grows(b, c)
    ensures Grows(a, c)
  {
  }

  /** Every request keeps every stored record and at most appends to its clicks. */
  lemma ServeGrows(urls: Urls, req: Request)
    ensures Grows(urls, Serve(urls, req).1)
  {
  }

  /** Records are never removed or rewritten: over any sequence of requests each
      stored record keeps its url, expiry and creation time, and its old clicks
      stay a prefix of its clicks. */
  lemma {:induction false} ReplayGrows(urls: Urls, reqs: seq<Request>)
    ensures Grows(urls, Replay(urls, reqs).1)
    decreases |reqs|
  {
    if reqs == [] {
      forall k | k in urls ensures k in urls && Extends(urls[k], urls[k]) {
        assert urls[k].clicks[..|urls[k].clicks|] == urls[k].clicks;
      }
    } else {
      var next := Serve(urls, reqs[0]).1;
      ServeGrows(urls, reqs[0]);
      ReplayGrows(next, reqs[1..]);
      GrowsTransitive(urls, next, Replay(next, reqs[1..]).1);
    }
  }

  /** Each create that succeeds in a sequence of requests took a code absent at the
      start, returned that code's link, and no two of them took the same code. */
  lemma {:induction false} IssuedCodesFresh(urls: Urls, reqs: seq<Request>)
    ensures var rs := Replay(urls, reqs).0;
      && (forall j | 0 <= j < |reqs| && Issued(rs[j]) ::
            TargetCode(reqs[j]) !in urls && rs[j].created.value.shortLink == ShortLink(TargetCode(reqs[j])))
      && (forall i, j | 0 <= i < j < |reqs| && Issued(rs[i]) && Issued(rs[j]) ::
            TargetCode(reqs[i]) != TargetCode(reqs[j]))
    decreases |reqs|
  {
    if reqs != [] {
      var (first, next) := Serve(urls, reqs[0]);
      var rest := Replay(next, reqs[1..]).0;
      var rs := Replay(urls, reqs).0;
      assert rs == [first] + rest;
      IssuedCodesFresh(next, reqs[1..]);
      ServeGrows(urls, reqs[0]);
      if Issued(first) {
        assert TargetCode(reqs[0]) in next;
      }
      forall j | 0 <= j < |reqs| && Issued(rs[j])
        ensures TargetCode(reqs[j]) !in urls && rs[j].created.value.shortLink == ShortLink(TargetCode(reqs[j]))
      {
        if j > 0 {
          assert rs[j] == rest[j - 1] && reqs[j] == reqs[1..][j - 1];
        }
      }
      forall i, j | 0 <= i < j < |reqs| && Issued(rs[i]) && Issued(rs[j])
        ensures TargetCode(reqs[i]) != TargetCode(reqs[j])
      {
        assert rs[j] == rest[j - 1] && reqs[j] == reqs[1..][j - 1];
        if i > 0 {
          assert rs[i] == rest[i - 1] && reqs[i] == reqs[1..][i - 1];
        }
      }
    }
  }

  /** Uniqueness: over any sequence of requests no short link is handed out twice. */
  lemma NoShortLinkIssuedTwice(urls: Urls, reqs: seq<Request>)
    ensures var rs := Replay(urls, reqs).0;
      forall i, j | 0 <= i < j < |rs| && Issued(rs[i]) && Issued(rs[j]) ::
        rs[i].created.value.shortLink != rs[j].created.value.shortLink
  {
    IssuedCodesFresh(urls, reqs);
    var rs := Replay(urls, reqs).0;
    forall i, j | 0 <= i < j < |rs| && Issued(rs[i]) && Issued(rs[j])
      ensures rs[i].created.value.shortLink != rs[j].created.value.shortLink
    {
      ShortLinkInjective(TargetCode(reqs[i]), TargetCode(reqs[j]));
    }
  }

  function RedirectRequests(code: string, visits: seq<Visit>): (reqs: seq<Request>)
    ensures |reqs| == |visits|
  {
    if visits == [] then [] else [RedirectRequest(code, visits[0])] + RedirectRequests(code, visits[1..])
  }

  function ClicksOf(visits: seq<Visit>): (clicks: seq<Click>)
    ensures |clicks| == |visits|
  {
    if visits == [] then [] else [ClickOf(visits[0])] + ClicksOf(visits[1..])
  }

  /** n redirects to a live code, in sequence, each return its url and append
      their clicks in call order; every other record is unchanged. */
  lemma {:induction false} RedirectsAppendInOrder(urls: Urls, code: string, visits: seq<Visit>)
    requires code in urls
    requires forall i | 0 <= i < |visits| :: !IsExpired(urls[code].expiry, visits[i].now)
    ensures var (rs, m) := Replay(urls, RedirectRequests(code, visits));
      && m.Keys == urls.Keys
      && m[code] == urls[code].(clicks := urls[code].clicks + ClicksOf(visits))
      && (forall k | k in urls && k != code :: m[k] == urls[k])
      && (forall i | 0 <= i < |rs| :: rs[i] == RedirectResponse(Ok(urls[code].originalUrl)))
    decreases |visits|
  {
    if visits != [] {
      var record := urls[code];
      var next := RedirectStep(urls, code, visits[0]).1;
      assert next == urls[code := record.(clicks := record.clicks + [ClickOf(visits[0])])];
      var reqs := RedirectRequests(code, visits);
      assert reqs[1..] == RedirectRequests(code, visits[1..]);
      RedirectsAppendInOrder(next, code, visits[1..]);
      var rest := Replay(next, reqs[1..]).0;
      var rs := Replay(urls, reqs).0;
      assert rs == [RedirectResponse(Ok(record.originalUrl))] + rest;
      assert record.clicks + [ClickOf(visits[0])] + ClicksOf(visits[1..]) == record.clicks + ClicksOf(visits);
    }
  }

  /** After n sequential redirects to a freshly created code, stats report n clicks. */
  lemma StatsCountRedirects(urls: Urls, code: string, visits: seq<Visit>)
    requires code in urls && urls[code].clicks == []
    requires forall i | 0 <= i < |visits| :: !IsExpired(urls[code].expiry, visits[i].now)
    ensures var m := Replay(urls, RedirectRequests(code, visits)).1;
      StatsOf(m, code).Ok? && StatsOf(m, code).value.totalClicks == |visits|
      && StatsOf(m, code).value.clicks == ClicksOf(visits)
  {
    RedirectsAppendInOrder(urls, code, visits);
  }

  /** Reads are idempotent: with no redirect to a stored code in between,
      any requests leave its statistics exactly as they were. */
  lemma {:induction false} StatsStableWithoutRedirect(urls: Urls, reqs: seq<Request>, code: string)
    requires code in urls
    requires forall i | 0 <= i < |reqs| :: reqs[i].RedirectRequest? ==> reqs[i].code != code
    ensures StatsOf(Replay(urls, reqs).1, code) == StatsOf(urls, code)
    decreases |reqs|
  {
    if reqs != [] {
      var next := Serve(urls, reqs[0]).1;
      assert next[code] == urls[code];
      assert forall i | 0 <= i < |reqs[1..]| :: reqs[1..][i] == reqs[i + 1];
      StatsStableWithoutRedirect(next, reqs[1..], code);
    }
  }
}
