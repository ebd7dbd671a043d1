/**
 * The `/api/cpue` handler of the API server: validation of the `landingSites` query
 * parameter against the allow-list, the database query (an input here), and the
 * normalisation of the returned documents; plus the CORS origin setting.
 */
module ApiServer {
  import opened Wrappers
  import opened JsValues

  /** The 29 landing sites the API serves. */
  const VALID_LANDING_SITES: seq<string> := [
    "bwawani", "chole", "chwaka", "fumba", "jambiani", "jasini",
    "kigombe", "kizimkazi", "kukuu", "mangapwani", "matemwe", "mazizini",
    "mkinga", "mkoani", "mkokotoni", "mkumbuu", "moa", "msuka",
    "mtangani", "mvumoni_furaha", "ndumbani", "nungwi", "other_site", "sahare",
    "shumba_mjini", "tanga", "tongoni", "wesha", "wete"
  ]

  /** `VALID_LANDING_SITES.includes(v)`: only a string can be included. */
  predicate IsValidSite(v: JsValue) {
    v.JsString? && v.s in VALID_LANDING_SITES
  }

  /** `r` is `xs` with some elements left out, the rest in their order. */
  predicate IsSubsequence(r: seq<string>, xs: seq<JsValue>) {
    if r == [] then true
    else if xs == [] then false
    else if xs[0] == JsString(r[0]) then IsSubsequence(r[1..], xs[1..])
    else IsSubsequence(r, xs[1..])
  }

  /** How often `v` occurs in `xs`. */
  function Occurrences(xs: seq<JsValue>, v: JsValue): nat {
    if xs == [] then 0 else (if xs[0] == v then 1 else 0) + Occurrences(xs[1..], v)
  }

  /** The allow-list filter of the requested sites: the allowed site strings, in input order, repeats kept. */
  function FilterValidSites(xs: seq<JsValue>): (r: seq<string>)
    ensures forall s :: s in r ==> s in VALID_LANDING_SITES
    ensures r == [] <==> forall i :: 0 <= i < |xs| ==> !IsValidSite(xs[i])
  {
    if xs == [] then []
    else
      var rest := FilterValidSites(xs[1..]);
      assert forall i :: 1 <= i < |xs| ==> xs[i] == xs[1..][i - 1];
      if IsValidSite(xs[0]) then [xs[0].s] + rest else rest
  }

  /** The filter keeps input order: its result is a subsequence of the input. */
  lemma {:induction false} FilterValidSitesIsSubsequence(xs: seq<JsValue>)
    ensures IsSubsequence(FilterValidSites(xs), xs)
  {
    if xs != [] {
      FilterValidSitesIsSubsequence(xs[1..]);
      var rest := FilterValidSites(xs[1..]);
      if IsValidSite(xs[0]) {
        assert ([xs[0].s] + rest)[1..] == rest;
      } else {
        SubsequenceSkip(rest, xs);
      }
    }
  }

  /** Skipping one more input element keeps a subsequence a subsequence. */
  lemma SubsequenceSkip(r: seq<string>, xs: seq<JsValue>)
    requires xs != [] && IsSubsequence(r, xs[1..])
    ensures IsSubsequence(r, xs)
    decreases |xs|, 0
  {
    if r != [] && xs[0] == JsString(r[0]) {
      SubsequenceTail(r, xs[1..]);
    }
  }

  /** Dropping the first element of a subsequence keeps it a subsequence. */
  lemma SubsequenceTail(r: seq<string>, ys: seq<JsValue>)
    requires r != [] && IsSubsequence(r, ys)
    ensures IsSubsequence(r[1..], ys)
    decreases |ys|, 1
  {
    if ys[0] != JsString(r[0]) {
      SubsequenceTail(r, ys[1..]);
    }
    SubsequenceSkip(r[1..], ys);
  }

  /** Duplicates are kept: every allowed site occurs in the result as often as in the input. */
  lemma {:induction false} FilterValidSitesKeepsDuplicates(xs: seq<JsValue>, site: string)
    requires site in VALID_LANDING_SITES
    ensures multiset(FilterValidSites(xs))[site] == Occurrences(xs, JsString(site))
  {
    if xs != [] {
      FilterValidSitesKeepsDuplicates(xs[1..], site);
    }
  }

  const INVALID_FORMAT := "Invalid landing sites format"
  const NOT_AN_ARRAY := "Landing sites must be an array"
  const NO_VALID_SITES := "No valid landing sites provided"

  /** The decision on `landingSites`: a 400 with a message, or the sites to query. */
  datatype SitesCheck = Rejected(message: string) | Accepted(sites: seq<string>)

  /**
   * `JSON.parse(landingSites)`; `parse` stands for `JSON.parse` on a present string, with
   * `None` for a `SyntaxError`. A missing parameter is `JSON.parse(undefined)`, which throws.
   */
  function ParseLandingSites(param: Option<string>, parse: string -> Option<JsValue>): (r: Option<JsValue>)
    ensures param.None? ==> r.None?
  {
    match param
    case None => None
    case Some(text) => parse(text)
  }

  /** The three early returns of the handler, in their order. */
  function CheckLandingSites(parsed: Option<JsValue>): (r: SitesCheck)
    ensures parsed.None? ==> r == Rejected(INVALID_FORMAT)
    ensures parsed.Some? && !parsed.value.JsArray? ==> r == Rejected(NOT_AN_ARRAY)
    ensures parsed.Some? && parsed.value.JsArray? ==>
      (r == Rejected(NO_VALID_SITES) <==> forall i :: 0 <= i < |parsed.value.elems| ==> !IsValidSite(parsed.value.elems[i]))
    ensures r.Accepted? ==>
      parsed.Some? && parsed.value.JsArray? && r.sites != [] &&
      r.sites == FilterValidSites(parsed.value.elems)
    ensures (parsed.Some? && parsed.value.JsArray? &&
             exists i :: 0 <= i < |parsed.value.elems| && IsValidSite(parsed.value.elems[i])) ==>
      r == Accepted(FilterValidSites(parsed.value.elems))
  {
    match parsed
    case None => Rejected(INVALID_FORMAT)
    case Some(v) =>
      if !v.JsArray? then Rejected(NOT_AN_ARRAY)
      else
        var valid := FilterValidSites(v.elems);
        if valid == [] then Rejected(NO_VALID_SITES) else Accepted(valid)
  }

  /** A document of the `monthly-cpue` collection, as the handler reads it. */
  datatype DbRecord = DbRecord(id: JsValue, landingSite: JsValue, monthDate: JsValue, cpue: JsValue, catch: JsValue)

  /** A record of the response body. */
  datatype ApiRecord = ApiRecord(id: JsValue, landingSite: JsValue, monthDate: JsValue, cpue: Option<real>, catch: Option<real>)

  /** A field kept when it is a number, and null otherwise. */
  function NumberOrNull(v: JsValue): (r: Option<real>)
    ensures r.Some? <==> v.JsNumber?
    ensures r.Some? ==> r.value == v.n
  {
    if v.JsNumber? then Some(v.n) else None
  }

  /** One document as a response record: identity fields copied, `cpue` and `catch` kept only as numbers. */
  function NormaliseRecord(d: DbRecord): (r: ApiRecord)
    ensures r.id == d.id && r.landingSite == d.landingSite && r.monthDate == d.monthDate
    ensures (r.cpue.Some? <==> d.cpue.JsNumber?) && (r.cpue.Some? ==> r.cpue.value == d.cpue.n)
    ensures (r.catch.Some? <==> d.catch.JsNumber?) && (r.catch.Some? ==> r.catch.value == d.catch.n)
  {
    ApiRecord(d.id, d.landingSite, d.monthDate, NumberOrNull(d.cpue), NumberOrNull(d.catch))
  }

  /** The response records built from the documents: one per document, in order. */
  function NormaliseRecords(data: seq<DbRecord>): (r: seq<ApiRecord>)
    ensures |r| == |data|
    ensures forall i :: 0 <= i < |data| ==>
      r[i].id == data[i].id && r[i].landingSite == data[i].landingSite && r[i].monthDate == data[i].monthDate &&
      (r[i].cpue.Some? <==> data[i].cpue.JsNumber?) && (r[i].cpue.Some? ==> r[i].cpue.value == data[i].cpue.n) &&
      (r[i].catch.Some? <==> data[i].catch.JsNumber?) && (r[i].catch.Some? ==> r[i].catch.value == data[i].catch.n)
  {
    if data == [] then []
    else
      var rest := NormaliseRecords(data[1..]);
      assert forall i :: 1 <= i < |data| ==> data[i] == data[1..][i - 1];
      [NormaliseRecord(data[0])] + rest
  }

  /** A response record read back as a document, `null` where a number was missing. */
  function AsDocument(a: ApiRecord): DbRecord {
    DbRecord(a.id, a.landingSite, a.monthDate,
             if a.cpue.Some? then JsNumber(a.cpue.value) else JsNull,
             if a.catch.Some? then JsNumber(a.catch.value) else JsNull)
  }

  /** Normalising twice changes nothing more: a normalised record read back as a document normalises to itself. */
  lemma NormaliseIdempotent(d: DbRecord)
    ensures NormaliseRecord(AsDocument(NormaliseRecord(d))) == NormaliseRecord(d)
  {
  }

  /** The handler's reply: a JSON error with its status, or the records with 200. */
  datatype Reply = ErrorReply(status: int, error: string, message: string) | RecordsReply(records: seq<ApiRecord>)

  /**
   * `GET /api/cpue`. `query` stands for connecting and running
   * `find({landing_site: {$in: sites}}).sort({month_date: 1})`, with `Failure` for any thrown error.
   */
  function HandleCpue(param: Option<string>, parse: string -> Option<JsValue>,
                      query: seq<string> -> Result<seq<DbRecord>, string>): (reply: Reply)
    ensures reply.RecordsReply? <==>
      CheckLandingSites(ParseLandingSites(param, parse)).Accepted? &&
      query(CheckLandingSites(ParseLandingSites(param, parse)).sites).Success?
    ensures reply.RecordsReply? ==>
      reply.records == NormaliseRecords(query(CheckLandingSites(ParseLandingSites(param, parse)).sites).value)
    ensures CheckLandingSites(ParseLandingSites(param, parse)).Rejected? ==>
      reply == ErrorReply(400, "Invalid request", CheckLandingSites(ParseLandingSites(param, parse)).message)
    ensures (CheckLandingSites(ParseLandingSites(param, parse)).Accepted? &&
             query(CheckLandingSites(ParseLandingSites(param, parse)).sites).Failure?) ==>
      reply == ErrorReply(500, "Internal server error", "An unexpected error occurred")
  {
    match CheckLandingSites(ParseLandingSites(param, parse))
    case Rejected(message) => ErrorReply(400, "Invalid request", message)
    case Accepted(sites) =>
      match query(sites)
      case Failure(_) => ErrorReply(500, "Internal server error", "An unexpected error occurred")
      case Success(data) => RecordsReply(NormaliseRecords(data))
  }

  /** A rejected request is answered before the database is touched: the reply does not depend on `query`. */
  lemma RejectedBeforeDatabase(param: Option<string>, parse: string -> Option<JsValue>,
                               q1: seq<string> -> Result<seq<DbRecord>, string>,
                               q2: seq<string> -> Result<seq<DbRecord>, string>)
    requires CheckLandingSites(ParseLandingSites(param, parse)).Rejected?
    ensures HandleCpue(param, parse, q1) == HandleCpue(param, parse, q2)
    ensures HandleCpue(param, parse, q1).ErrorReply? && HandleCpue(param, parse, q1).status == 400
  {
  }

  /** A missing `landingSites` parameter is a format error. */
  lemma MissingParameterRejected(parse: string -> Option<JsValue>, query: seq<string> -> Result<seq<DbRecord>, string>)
    ensures HandleCpue(None, parse, query) == ErrorReply(400, "Invalid request", INVALID_FORMAT)
  {
  }

  /** One entry of the CORS `origin` option: an exact origin or the `*.vercel.app` pattern. */
  datatype CorsOrigin = ExactOrigin(url: string) | VercelAppPattern

  /** The CORS `origin` option: one origin string, or a list of origins. */
  datatype CorsSetting = SingleOrigin(url: string) | OriginList(origins: seq<CorsOrigin>)

  /** `getCorsOrigins`. */
  method GetCorsOrigins(env: Env) returns (setting: CorsSetting)
    ensures !IsProduction(env) ==> setting == SingleOrigin("http://localhost:3000")
    ensures IsProduction(env) ==>
      && setting.OriginList?
      && |setting.origins| == (if env.vercelUrl != "" then 3 else 2)
      && setting.origins[0] == ExactOrigin("https://worldfishcenter.github.io")
      && setting.origins[|setting.origins| - 1] == VercelAppPattern
      && (env.vercelUrl != "" ==> setting.origins[1] == ExactOrigin("https://" + env.vercelUrl))
  {
    if IsProduction(env) {
      var origins := [ExactOrigin("https://worldfishcenter.github.io")];
      if env.vercelUrl != "" {
        origins := origins + [ExactOrigin("https://" + env.vercelUrl)];
      }
      origins := origins + [VercelAppPattern];
      return OriginList(origins);
    }
    return SingleOrigin("http://localhost:3000");
  }
}
