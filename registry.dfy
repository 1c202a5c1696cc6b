/** The shortcode registry of the URL-shortening backend: the in-memory
    dictionary from shortcode to record, and the three request handlers that
    act on it (create, redirect, statistics). The clock, the random code
    generator and the request headers are parameters; HTTP responses are
    typed results. */
module UrlRegistry {

  datatype Option<+T> = None | Some(value: T)

  /** Failures a handler reports; the boundary maps them to 400, 400, 404, 410 and 500. */
  datatype Failure = InvalidUrl | Collision | NotFound | Expired | InternalError

  datatype Result<+T> = Ok(value: T) | Err(error: Failure)

  const Host := "http://localhost"
  /** The port 5000, as template interpolation renders it in a link. */
  const PortText := "5000"
  const DefaultValidityMinutes := 30
  const MsPerMinute := 60000
  /** The largest distance from the epoch, in milliseconds, a JavaScript Date can hold. */
  const MaxTimeValue := 8_640_000_000_000_000
  const GeneratedCodeLength := 6
  const HexDigits := "0123456789abcdef"
  const DirectReferrer := "direct"

  /** A JavaScript Date: a time value in milliseconds, or an Invalid Date. */
  datatype Instant = At(ms: int) | InvalidDate

  datatype Click = Click(timestamp: int, referrer: string, location: string)

  datatype UrlRecord = UrlRecord(originalUrl: string, expiry: Instant, clicks: seq<Click>, createdAt: int)

  type Urls = map<string, UrlRecord>

  /** The JSON body of a create request; None is a field the body leaves out. */
  datatype CreateBody = CreateBody(url: Option<string>, validity: Option<int>, shortcode: Option<string>)

  /** What a redirect request brings besides its shortcode: the time it is
      served, its Referer header and the caller's address. */
  datatype Visit = Visit(now: int, referrer: Option<string>, ip: string)

  datatype CreatedLink = CreatedLink(shortLink: string, expiry: int)

  datatype StatsView = StatsView(originalUrl: string, createdAt: int, expiry: Instant, totalClicks: nat, clicks: seq<Click>)

  predicate StartsWith(s: string, prefix: string) {
    |prefix| <= |s| && s[..|prefix|] == prefix
  }

  /** `s` starts with `scheme` followed by "://", read piece by piece as the regular expression does. */
  lemma SchemeThenSeparator(s: string, scheme: string)
    requires |scheme| <= |s|
    ensures StartsWith(s, scheme + "://") <==> s[..|scheme|] == scheme && StartsWith(s[|scheme|..], "://")
  {
    var n := |scheme|;
    if |s| >= n + 3 {
      assert s[..n + 3] == s[..n] + s[n..][..3];
    }
  }

  /** The guard of the create handler: the url is present, not empty and
      matches /^https?:\/\//. The body follows the regular expression
      (literal "http", an optional "s", literal "://"); the contract says
      which strings that accepts. */
  function IsWebUrl(url: Option<string>): (ok: bool)
    ensures ok <==> url.Some? && (StartsWith(url.value, "http://") || StartsWith(url.value, "https://"))
  {
    match url
    case None => false
    case Some(s) =>
      if s == [] || |s| < 4 || s[..4] != "http" then
        assert !StartsWith(s, "http://") && !StartsWith(s, "https://") by {
          if |s| >= 7 { assert s[..7][..4] == s[..4]; }
          if |s| >= 8 { assert s[..8][..4] == s[..4]; }
        }
        false
      else
        SchemeThenSeparator(s, "http");
        if |s| > 4 && s[4] == 's' then
          SchemeThenSeparator(s, "https");
          assert s[..5] == s[..4] + [s[4]];
          var rest := s[5..];
          |rest| >= 3 && rest[..3] == "://"
        else
          assert |s| >= 8 ==> s[..8][4] != 's';
          var rest := s[4..];
          |rest| >= 3 && rest[..3] == "://"
  }

  /** The first six characters of a version-4 UUID: lower-case hex digits. */
  predicate IsGeneratedCode(code: string) {
    |code| == GeneratedCodeLength && forall i | 0 <= i < |code| :: code[i] in HexDigits
  }

  /** A missing or empty shortcode is replaced by the generated one. */
  function ChosenCode(shortcode: Option<string>, generated: string): (code: string)
    ensures code == generated || (shortcode == Some(code) && code != "")
    ensures code == generated <== shortcode.None? || shortcode == Some("")
  {
    if shortcode.None? || shortcode.value == "" then generated else shortcode.value
  }

  /** `validity` is 30 when the body leaves it out; the handler never checks its sign. */
  function ValidityMinutes(validity: Option<int>): (minutes: int)
    ensures validity.None? ==> minutes == DefaultValidityMinutes
    ensures validity.Some? ==> minutes == validity.value
  {
    if validity.Some? then validity.value else DefaultValidityMinutes
  }

  /** `new Date(ms)`: a time value further than MaxTimeValue from the epoch is an Invalid Date. */
  function DateAt(ms: int): (d: Instant)
    ensures d.At? <==> -MaxTimeValue <= ms <= MaxTimeValue
    ensures d.At? ==> d.ms == ms
  {
    if -MaxTimeValue <= ms <= MaxTimeValue then At(ms) else InvalidDate
  }

  /** `new Date(Date.now() + validity * 60000)`. */
  function ExpiryOf(now: int, validity: Option<int>): (e: Instant)
    ensures e.At? <==> -MaxTimeValue <= now + ValidityMinutes(validity) * MsPerMinute <= MaxTimeValue
    ensures e.At? ==> e.ms == now + ValidityMinutes(validity) * MsPerMinute
  {
    DateAt(now + ValidityMinutes(validity) * MsPerMinute)
  }

  /** `now > expiry`; every comparison with an Invalid Date is false. */
  predicate IsExpired(expiry: Instant, now: int)
    ensures IsExpired(expiry, now) ==> expiry.At?
    ensures expiry.At? && now == expiry.ms ==> !IsExpired(expiry, now)
  {
    expiry.At? && now > expiry.ms
  }

  function LinkPrefix(): string {
    Host + ":" + PortText + "/"
  }

  function ShortLink(code: string): (link: string)
    ensures StartsWith(link, "http://localhost:5000/")
    ensures link[|"http://localhost:5000/"|..] == code
  {
    LinkPrefix() + code
  }

  /** The click event a redirect appends; an absent or empty Referer becomes "direct". */
  function ClickOf(visit: Visit): (click: Click)
    ensures click.timestamp == visit.now && click.location == visit.ip
    ensures click.referrer != ""
    ensures click.referrer == DirectReferrer || visit.referrer == Some(click.referrer)
    ensures visit.referrer.Some? && visit.referrer.value != "" ==> click.referrer == visit.referrer.value
  {
    var referrer := if visit.referrer.None? || visit.referrer.value == "" then DirectReferrer else visit.referrer.value;
    Click(visit.now, referrer, visit.ip)
  }

  /** POST /shorturls on the registry `urls`: the response and the registry afterwards.
      An expiry outside the Date range is stored, and then formatting it fails (500). */
  function CreateStep(urls: Urls, body: CreateBody, now: int, generated: string): (r: (Result<CreatedLink>, Urls))
    ensures r.0.Err? ==> r.0.error in {InvalidUrl, Collision, InternalError}
    ensures r.0.Ok? <==> IsWebUrl(body.url) && ChosenCode(body.shortcode, generated) !in urls && ExpiryOf(now, body.validity).At?
    ensures forall k | k in urls :: k in r.1 && r.1[k] == urls[k]
    ensures r.1.Keys <= urls.Keys + {ChosenCode(body.shortcode, generated)}
  {
    if !IsWebUrl(body.url) then (Err(InvalidUrl), urls)
    else
      var code := ChosenCode(body.shortcode, generated);
      if code in urls then (Err(Collision), urls)
      else
        var record := UrlRecord(body.url.value, ExpiryOf(now, body.validity), [], now);
        var stored := urls[code := record];
        match record.expiry
        case InvalidDate => (Err(InternalError), stored)
        case At(ms) => (Ok(CreatedLink(ShortLink(code), ms)), stored)
  }

  /** GET /:shortcode on the registry `urls`: the redirect target and the registry afterwards. */
  function RedirectStep(urls: Urls, code: string, visit: Visit): (r: (Result<string>, Urls))
    ensures r.0.Err? ==> r.0.error in {NotFound, Expired} && r.1 == urls
    ensures r.0.Ok? <==> code in urls && !IsExpired(urls[code].expiry, visit.now)
    ensures r.1.Keys == urls.Keys
    ensures forall k | k in urls && k != code :: r.1[k] == urls[k]
  {
    if code !in urls then (Err(NotFound), urls)
    else
      var record := urls[code];
      if IsExpired(record.expiry, visit.now) then (Err(Expired), urls)
      else (Ok(record.originalUrl), urls[code := record.(clicks := record.clicks + [ClickOf(visit)])])
  }

  /** GET /shorturls/:shortcode: the stored record's view, with no expiry check. */
  function StatsOf(urls: Urls, code: string): (r: Result<StatsView>)
    ensures r.Ok? <==> code in urls
    ensures r.Err? ==> r.error == NotFound
    ensures r.Ok? ==> r.value.totalClicks == |r.value.clicks| && r.value.clicks == urls[code].clicks
    ensures r.Ok? ==> r.value.originalUrl == urls[code].originalUrl && r.value.createdAt == urls[code].createdAt
    ensures r.Ok? ==> r.value.expiry == urls[code].expiry
  {
    if code !in urls then Err(NotFound)
    else
      var record := urls[code];
      Ok(StatsView(record.originalUrl, record.createdAt, record.expiry, |record.clicks|, record.clicks))
  }

  /** The module-level `urls` dictionary and the handlers that update it in place. */
  class Registry {
    var urls: Urls

    constructor()
      ensures urls == map[]
    {
      urls := map[];
    }

    method Create(body: CreateBody, now: int, generated: string) returns (res: Result<CreatedLink>)
      requires IsGeneratedCode(generated)
      modifies this
      ensures (res, urls) == CreateStep(old(urls), body, now, generated)
      ensures res.Err? && res.error != InternalError ==> urls == old(urls)
      ensures res.Ok? ==> urls.Keys == old(urls.Keys) + {ChosenCode(body.shortcode, generated)}
    {
      var validity := ValidityMinutes(body.validity);
      if !IsWebUrl(body.url) {
        return Err(InvalidUrl);
      }
      var shortcode := ChosenCode(body.shortcode, generated);
      if shortcode in urls {
        return Err(Collision);
      }
      var expiry := DateAt(now + validity * MsPerMinute);
      urls := urls[shortcode := UrlRecord(body.url.value, expiry, [], now)];
      if expiry.InvalidDate? {
        return Err(InternalError);
      }
      res := Ok(CreatedLink(ShortLink(shortcode), expiry.ms));
    }

    method Redirect(code: string, visit: Visit) returns (res: Result<string>)
      modifies this
      ensures (res, urls) == RedirectStep(old(urls), code, visit)
      ensures res.Ok? ==> code in old(urls) && |urls[code].clicks| == |old(urls)[code].clicks| + 1
    {
      if code !in urls {
        return Err(NotFound);
      }
      var record := urls[code];
      if IsExpired(record.expiry, visit.now) {
        return Err(Expired);
      }
      urls := urls[code := record.(clicks := record.clicks + [ClickOf(visit)])];
      res := Ok(record.originalUrl);
    }

    method Stats(code: string) returns (res: Result<StatsView>)
      ensures res == StatsOf(urls, code)
      ensures res.Ok? <==> code in urls
      ensures res.Ok? ==> res.value.totalClicks == |res.value.clicks| && res.value.clicks == urls[code].clicks
      ensures res.Ok? ==> res.value.originalUrl == urls[code].originalUrl && res.value.createdAt == urls[code].createdAt
      ensures res.Ok? ==> res.value.expiry == urls[code].expiry
    {
      if code !in urls {
        return Err(NotFound);
      }
      var record := urls[code];
      res := Ok(StatsView(record.originalUrl, record.createdAt, record.expiry, |record.clicks|, record.clicks));
    }
  }
}
