/** The registry is a plain JavaScript object, and `urls[shortcode]` also
    finds the properties every object inherits from Object.prototype. This
    module models that lookup as written, and shows where it parts from the
    own-key lookup that the rest of the model uses. */
module PrototypeKeys {
  import opened UrlRegistry

  /** The property names of Object.prototype. */
  const ObjectPrototypeKeys: set<string> := {
    "constructor", "__defineGetter__", "__defineSetter__", "hasOwnProperty",
    "__lookupGetter__", "__lookupSetter__", "isPrototypeOf", "propertyIsEnumerable",
    "toString", "valueOf", "__proto__", "toLocaleString"
  }

  /** What `urls[shortcode]` evaluates to: a stored record, an inherited
      property (a function or the prototype, always truthy), or undefined. */
  datatype Slot = Own(record: UrlRecord) | Inherited | Undefined

  /** The lookup at lines 30, 59 and 76 as written. */
  function LookupAsWritten(urls: Urls, code: string): (s: Slot)
    ensures s.Own? <==> code in urls
    ensures s.Own? ==> s.record == urls[code]
    ensures s.Inherited? <==> code !in urls && code in ObjectPrototypeKeys
  {
    if code in urls then Own(urls[code])
    else if code in ObjectPrototypeKeys then Inherited
    else Undefined
  }

  /** The truthiness test `if (urls[shortcode])` of the collision guard. */
  predicate CollidesAsWritten(urls: Urls, code: string)
    ensures CollidesAsWritten(urls, code) <==> code in urls || code in ObjectPrototypeKeys
  {
    !LookupAsWritten(urls, code).Undefined?
  }

  /** The redirect handler (lines 57-71) over the lookup as written. For an
      inherited name, `record.expiry` is undefined, so the comparison at line 62
      is false. Then `record.clicks.push` at line 64 throws, and Express answers 500. */
  function RedirectAsWritten(urls: Urls, code: string, visit: Visit): (r: (Result<string>, Urls))
    ensures r.1.Keys == urls.Keys
    ensures r.0.Err? ==> r.1 == urls
    ensures r.0 == Err(InternalError) <==> code !in urls && code in ObjectPrototypeKeys
    ensures code in urls || code !in ObjectPrototypeKeys ==> r == RedirectStep(urls, code, visit)
  {
    match LookupAsWritten(urls, code)
    case Undefined => (Err(NotFound), urls)
    case Inherited => (Err(InternalError), urls)
    case Own(record) =>
      if IsExpired(record.expiry, visit.now) then (Err(Expired), urls)
      else (Ok(record.originalUrl), urls[code := record.(clicks := record.clicks + [ClickOf(visit)])])
  }

  /** The stats handler (lines 74-87) over the lookup as written: for an
      inherited name `record.clicks.length` at line 84 throws (500). */
  function StatsAsWritten(urls: Urls, code: string): (r: Result<StatsView>)
    ensures r == Err(InternalError) <==> code !in urls && code in ObjectPrototypeKeys
    ensures code in urls || code !in ObjectPrototypeKeys ==> r == StatsOf(urls, code)
  {
    match LookupAsWritten(urls, code)
    case Undefined => Err(NotFound)
    case Inherited => Err(InternalError)
    case Own(record) => Ok(StatsView(record.originalUrl, record.createdAt, record.expiry, |record.clicks|, record.clicks))
  }

  /** On an empty registry, GET /toString and GET /shorturls/toString fail
      with 500 as written, where the corrected handlers answer NotFound. */
  lemma ToStringServerErrorAsWritten(visit: Visit)
    ensures RedirectAsWritten(map[], "toString", visit).0 == Err(InternalError)
    ensures RedirectStep(map[], "toString", visit).0 == Err(NotFound)
    ensures StatsAsWritten(map[], "toString") == Err(InternalError)
    ensures StatsOf(map[], "toString") == Err(NotFound)
  {
  }

  /** Away from the inherited names the lookup as written agrees with the
      corrected guard (map membership) used by CreateStep. */
  lemma CollidesAsWrittenAgreesOffPrototype(urls: Urls, code: string)
    requires code !in ObjectPrototypeKeys
    ensures CollidesAsWritten(urls, code) <==> code in urls
  {
  }

  /** On an empty registry the guard as written rejects "toString", which is
      not stored, while the corrected create accepts it. */
  lemma ToStringCollidesAsWritten()
    ensures CollidesAsWritten(map[], "toString")
    ensures CreateStep(map[], CreateBody(Some("https://example.com"), None, Some("toString")), 0, "a1b2c3").0
      == Ok(CreatedLink("http://localhost:5000/toString", 30 * 60000))
  {
    assert StartsWith("https://example.com", "https://");
    assert ShortLink("toString") == "http://localhost:5000/toString";
  }

  /** Generated codes are six hex digits, so the discrepancy only reaches codes the caller supplies. */
  lemma GeneratedCodesNeverInherited(generated: string)
    requires IsGeneratedCode(generated)
    ensures generated !in ObjectPrototypeKeys
  {
  }
}
