/**
 * The REST client of satellite-api.js (`SatelliteManager`): how each logical
 * operation on the `Satellite_Fixed` list becomes an HTTP request
 * description, and how the response, or the reason no request was sent,
 * becomes a result or an error.
 *
 * The network is a parameter: every operation takes the `Response` the
 * platform would give and returns an `Outcome`, the request it issues (if
 * any) together with what the JavaScript promise resolves to or rejects
 * with. The anti-forgery token lookup is a parameter too: `Some(value)` when
 * the page holds the `__REQUESTDIGEST` element, `None` when it does not.
 */
module SatelliteApi {
  import opened Wrappers
  import opened Text
  import opened UriEncoding

  // ---------------------------------------------------------------------
  // The manager and its collection endpoint
  // ---------------------------------------------------------------------

  const ListName: string := "Satellite_Fixed"

  /** The three fields the constructor sets and no method changes. */
  datatype SatelliteManager = SatelliteManager(siteUrl: string, listName: string, listRestUrl: string)

  function NewSatelliteManager(siteUrl: string): (m: SatelliteManager)
    ensures m.siteUrl == siteUrl && m.listName == ListName
  {
    SatelliteManager(siteUrl, ListName, siteUrl + "/_api/web/lists/getbytitle('" + ListName + "')/items")
  }

  /** The collection endpoint is the site address followed by a fixed path. */
  lemma CollectionUrl(siteUrl: string)
    ensures NewSatelliteManager(siteUrl).listRestUrl
         == siteUrl + "/_api/web/lists/getbytitle('Satellite_Fixed')/items"
  {
  }

  /** Two managers share a collection endpoint only when they share a site. */
  lemma CollectionUrlDeterminesSite(a: string, b: string)
    requires NewSatelliteManager(a).listRestUrl == NewSatelliteManager(b).listRestUrl
    ensures a == b
  {
    var suffix := "/_api/web/lists/getbytitle('" + ListName + "')/items";
    var ua := NewSatelliteManager(a).listRestUrl;
    assert |a| == |b|;
    assert a == ua[..|a|];
    assert b == ua[..|b|];
  }

  // ---------------------------------------------------------------------
  // Records and the creation payload
  // ---------------------------------------------------------------------

  /**
   * The logical record a caller passes to `addSatellite`. A JavaScript
   * property that is missing, `undefined` or `''` is falsy; all three are the
   * empty string here.
   */
  datatype SatelliteData = SatelliteData(
    title: string, noradId: string, cosparId: string, missionType: string,
    status: string, orbitType: string, launchDate: string, sensorNames: string)

  datatype JsonValue = JString(s: string) | JNull

  /** A JSON object: its members by name. */
  type JsonObject = map<string, JsonValue>

  function Lookup(o: JsonObject, key: string): Option<JsonValue>
  {
    if key in o then Some(o[key]) else None
  }

  /** `value || fallback` on a string. */
  function OrDefault(value: string, fallback: string): (r: string)
    ensures value != "" ==> r == value
    ensures value == "" ==> r == fallback
  {
    if value != "" then value else fallback
  }

  /** The columns `addSatellite` refuses to post empty. */
  const RequiredColumns: set<string> := {"Title", "NORAD_ID", "COSPAR_ID"}

  /**
   * The pre-flight check of `addSatellite`: presence only, no format. It
   * passes exactly when none of the required columns would be posted empty.
   */
  predicate HasRequiredFields(d: SatelliteData)
    ensures HasRequiredFields(d) <==>
      forall k :: k in RequiredColumns ==> Lookup(BuildPayload(d), k) != Some(JString(""))
  {
    d.title != "" && d.noradId != "" && d.cosparId != ""
  }

  /** The body `addSatellite` posts: logical names mapped to the list's column names. */
  function BuildPayload(d: SatelliteData): (p: JsonObject)
    ensures p.Keys == {"Title", "NORAD_ID", "COSPAR_ID", "Mission_Type", "Status",
                       "Orbit_Type", "Launch_Date", "Sensor_Names"}
  {
    map[ "Title" := JString(d.title),
         "NORAD_ID" := JString(d.noradId),
         "COSPAR_ID" := JString(d.cosparId),
         "Mission_Type" := JString(OrDefault(d.missionType, "")),
         "Status" := JString(OrDefault(d.status, "Operational")),
         "Orbit_Type" := JString(OrDefault(d.orbitType, "")),
         "Launch_Date" := (if d.launchDate != "" then JString(d.launchDate) else JNull),
         "Sensor_Names" := JString(OrDefault(d.sensorNames, "")) ]
  }

  function StringMember(o: JsonObject, key: string): Option<string>
  {
    match Lookup(o, key)
    case Some(JString(s)) => Some(s)
    case _ => None
  }

  /**
   * Reads a record back from the list's column names, as a server that
   * stores the posted body would return it; a null `Launch_Date` reads as
   * no date.
   */
  function ReadPayload(o: JsonObject): Option<SatelliteData>
  {
    var launch := match Lookup(o, "Launch_Date")
      case Some(JString(s)) => Some(s)
      case Some(JNull) => Some("")
      case None => None;
    if && StringMember(o, "Title").Some? && StringMember(o, "NORAD_ID").Some?
       && StringMember(o, "COSPAR_ID").Some? && StringMember(o, "Mission_Type").Some?
       && StringMember(o, "Status").Some? && StringMember(o, "Orbit_Type").Some?
       && launch.Some? && StringMember(o, "Sensor_Names").Some?
    then Some(SatelliteData(
      StringMember(o, "Title").value, StringMember(o, "NORAD_ID").value,
      StringMember(o, "COSPAR_ID").value, StringMember(o, "Mission_Type").value,
      StringMember(o, "Status").value, StringMember(o, "Orbit_Type").value,
      launch.value, StringMember(o, "Sensor_Names").value))
    else None
  }

  /**
   * The payload carries every field of the record unchanged, except that a
   * missing status becomes "Operational".
   */
  lemma PayloadRoundTrip(d: SatelliteData)
    ensures ReadPayload(BuildPayload(d)) == Some(d.(status := OrDefault(d.status, "Operational")))
  {
  }

  /** The column each logical field goes to, and the defaults of the optional ones. */
  lemma PayloadColumns(d: SatelliteData)
    ensures Lookup(BuildPayload(d), "Title") == Some(JString(d.title))
    ensures Lookup(BuildPayload(d), "NORAD_ID") == Some(JString(d.noradId))
    ensures Lookup(BuildPayload(d), "COSPAR_ID") == Some(JString(d.cosparId))
    ensures Lookup(BuildPayload(d), "Mission_Type") == Some(JString(d.missionType))
    ensures Lookup(BuildPayload(d), "Status")
         == Some(JString(if d.status == "" then "Operational" else d.status))
    ensures Lookup(BuildPayload(d), "Orbit_Type") == Some(JString(d.orbitType))
    ensures Lookup(BuildPayload(d), "Launch_Date")
         == (if d.launchDate == "" then Some(JNull) else Some(JString(d.launchDate)))
    ensures Lookup(BuildPayload(d), "Sensor_Names") == Some(JString(d.sensorNames))
  {
  }

  // ---------------------------------------------------------------------
  // Requests and headers
  // ---------------------------------------------------------------------

  datatype Verb = GET | POST | PATCH | DELETE

  /** The `headers` object passed to `fetch`: header values by name. */
  type Headers = map<string, string>

  datatype Request = Request(verb: Verb, url: string, headers: Headers, body: Option<JsonObject>)

  function HeaderValue(hs: Headers, name: string): Option<string>
  {
    if name in hs then Some(hs[name]) else None
  }

  const JsonMediaType: string := "application/json"

  /** The header names a request of each verb sends. */
  function HeaderNames(verb: Verb): set<string>
  {
    match verb
    case GET => {"Accept", "Content-Type"}
    case POST => {"Accept", "Content-Type", "X-RequestDigest"}
    case PATCH => {"Accept", "Content-Type", "X-RequestDigest", "If-Match"}
    case DELETE => {"Accept", "X-RequestDigest", "If-Match"}
  }

  /**
   * Which headers each verb carries: every request accepts JSON; all but
   * DELETE declare a JSON body; every mutating verb carries the anti-forgery
   * token; PATCH and DELETE, and only they, carry the unconditional
   * `If-Match: *`. Together these fix the set of header names.
   */
  predicate HeadersFitVerb(verb: Verb, hs: Headers)
    ensures HeadersFitVerb(verb, hs) ==> hs.Keys == HeaderNames(verb)
  {
    && hs.Keys <= {"Accept", "Content-Type", "X-RequestDigest", "If-Match"}
    && HeaderValue(hs, "Accept") == Some(JsonMediaType)
    && (verb != DELETE <==> HeaderValue(hs, "Content-Type").Some?)
    && (verb != DELETE ==> HeaderValue(hs, "Content-Type") == Some(JsonMediaType))
    && (verb != GET <==> HeaderValue(hs, "X-RequestDigest").Some?)
    && (verb in {PATCH, DELETE} <==> HeaderValue(hs, "If-Match").Some?)
    && (verb in {PATCH, DELETE} ==> HeaderValue(hs, "If-Match") == Some("*"))
  }

  function ReadHeaders(): (hs: Headers)
    ensures HeadersFitVerb(GET, hs)
  {
    map["Accept" := JsonMediaType, "Content-Type" := JsonMediaType]
  }

  function PostHeaders(token: string): (hs: Headers)
    ensures HeadersFitVerb(POST, hs) && HeaderValue(hs, "X-RequestDigest") == Some(token)
  {
    map["Accept" := JsonMediaType, "Content-Type" := JsonMediaType, "X-RequestDigest" := token]
  }

  function PatchHeaders(token: string): (hs: Headers)
    ensures HeadersFitVerb(PATCH, hs) && HeaderValue(hs, "X-RequestDigest") == Some(token)
  {
    map["Accept" := JsonMediaType, "Content-Type" := JsonMediaType, "X-RequestDigest" := token,
        "If-Match" := "*"]
  }

  function DeleteHeaders(token: string): (hs: Headers)
    ensures HeadersFitVerb(DELETE, hs) && HeaderValue(hs, "X-RequestDigest") == Some(token)
  {
    map["Accept" := JsonMediaType, "X-RequestDigest" := token, "If-Match" := "*"]
  }

  // ---------------------------------------------------------------------
  // Responses, errors, outcomes
  // ---------------------------------------------------------------------

  /** The body of a non-ok response, as `response.json()` reads it. */
  datatype ErrorBody =
    | UnparsableBody(parseError: string)     // `response.json()` rejects with this message
    | ErrorJson(message: Option<string>)     // `error.error?.message`

  /** What the platform answers, as seen through `fetch`. */
  datatype Response<T> =
    | Ok(value: T)                           // `response.ok`, body parsed
    | OkUnparsable(parseError: string)       // `response.ok`, body not JSON
    | NotOk(body: ErrorBody, statusText: string)
    | NetworkFailure(reason: string)         // `fetch` itself rejects

  /** Why an operation rejects. */
  datatype ApiError =
    | MissingRequiredFields
    | DigestNotFound
    | Remote(message: string)                // a message composed by the client
    | Host(message: string)                  // an error of `fetch` or `response.json()`, rethrown

  /** The `message` of the `Error` each rejection carries. */
  function ErrorMessage(e: ApiError): (msg: string)
    ensures e.MissingRequiredFields? ==> msg == "Required fields missing: title, noradId, cosparId"
    ensures e.DigestNotFound? ==>
      msg == "Request digest not found. Ensure this script runs on a SharePoint page."
    ensures e.Remote? || e.Host? ==> msg == e.message
  {
    match e
    case MissingRequiredFields => "Required fields missing: title, noradId, cosparId"
    case DigestNotFound => "Request digest not found. Ensure this script runs on a SharePoint page."
    case Remote(msg) => msg
    case Host(msg) => msg
  }

  /** The request an operation issued (if any) and what its promise settles to. */
  datatype Outcome<T> = Outcome(request: Option<Request>, result: Result<T, ApiError>)

  const AddPrefix: string := "SharePoint API error: "
  const ListPrefix: string := "Failed to fetch satellites: "
  const GetPrefix: string := "Failed to fetch satellite: "
  const UpdatePrefix: string := "Failed to update satellite: "
  const DeletePrefix: string := "Failed to delete satellite: "

  /** `error.error?.message || response.statusText` */
  function ServerMessageOr(message: Option<string>, statusText: string): (r: string)
    ensures message.Some? && message.value != "" ==> r == message.value
    ensures message.None? || message.value == "" ==> r == statusText
    ensures r != "" <==> (message.Some? && message.value != "") || statusText != ""
  {
    if message.Some? && message.value != "" then message.value else statusText
  }

  /**
   * The error a non-ok response raises where the client reads the error
   * body (add, update): the server's message, else the status text.
   */
  function BodyError(prefix: string, body: ErrorBody, statusText: string): ApiError
  {
    match body
    case UnparsableBody(e) => Host(e)
    case ErrorJson(msg) => Remote(prefix + ServerMessageOr(msg, statusText))
  }

  /** Whether an operation reads the error body of a non-ok response. */
  datatype ErrorDetail = StatusTextOnly | ServerMessage

  function NotOkError(prefix: string, detail: ErrorDetail, body: ErrorBody, statusText: string): ApiError
  {
    match detail
    case StatusTextOnly => Remote(prefix + statusText)
    case ServerMessage => BodyError(prefix, body, statusText)
  }

  /** How an operation that parses the success body settles. */
  function Parsed<T>(resp: Response<T>, prefix: string, detail: ErrorDetail): Result<T, ApiError>
  {
    match resp
    case Ok(v) => Success(v)
    case OkUnparsable(e) => Failure(Host(e))
    case NotOk(body, statusText) => Failure(NotOkError(prefix, detail, body, statusText))
    case NetworkFailure(r) => Failure(Host(r))
  }

  /** How an operation that ignores the success body settles. */
  function Acknowledged<T>(resp: Response<T>, prefix: string, detail: ErrorDetail): Result<bool, ApiError>
  {
    match resp
    case Ok(_) => Success(true)
    case OkUnparsable(_) => Success(true)
    case NotOk(body, statusText) => Failure(NotOkError(prefix, detail, body, statusText))
    case NetworkFailure(r) => Failure(Host(r))
  }

  // ---------------------------------------------------------------------
  // URLs
  // ---------------------------------------------------------------------

  /** The options of `getSatellites`: `top` 0 and `filter` "" stand for absent. */
  datatype ListOptions = ListOptions(top: nat, filter: string)

  function EffectiveTop(top: nat): (n: nat)
    ensures n > 0
    ensures top != 0 ==> n == top
    ensures top == 0 ==> n == 100
  {
    if top != 0 then top else 100
  }

  /** The URL of the list query of `getSatellites`. */
  function ListUrl(m: SatelliteManager, options: ListOptions): (url: string)
    ensures |url| > |m.listRestUrl| && url[..|m.listRestUrl|] == m.listRestUrl
  {
    var url := m.listRestUrl + "?$top=" + NatToString(EffectiveTop(options.top));
    if options.filter != "" then url + "&$filter=" + EncodeUriComponent(options.filter) else url
  }

  /** What a server reads from a list query: the page cap and the decoded filter bytes. */
  datatype ListQuery = ListQuery(top: nat, filter: Option<seq<Byte>>)

  /** Reads the `$top` and `$filter` parameters of a list URL back. */
  function ParseListUrl(base: string, url: string): Option<ListQuery>
  {
    var head := base + "?$top=";
    if |head| <= |url| && url[..|head|] == head then
      var rest := url[|head|..];
      var i := IndexOf(rest, '&');
      var digits := rest[..i];
      var tail := rest[i..];
      var key := "&$filter=";
      if digits == [] || !AllDigits(digits) then None
      else if tail == [] then Some(ListQuery(ParseDecimal(digits), None))
      else if |key| <= |tail| && tail[..|key|] == key then
        match DecodeToBytes(tail[|key|..])
        case None => None
        case Some(bs) => Some(ListQuery(ParseDecimal(digits), Some(bs)))
      else None
    else None
  }

  /**
   * The list URL carries the page cap (100 when none is given) and, only
   * when a filter is given, exactly that filter: the encoded filter can
   * neither end the `$filter` parameter early nor add another.
   */
  lemma ListUrlRoundTrip(m: SatelliteManager, options: ListOptions)
    ensures ParseListUrl(m.listRestUrl, ListUrl(m, options))
         == Some(ListQuery(EffectiveTop(options.top),
                           if options.filter == "" then None else Some(Utf8Encode(options.filter))))
  {
    var base := m.listRestUrl;
    var head := base + "?$top=";
    var d := NatToString(EffectiveTop(options.top));
    var key := "&$filter=";
    var tail := if options.filter != "" then key + EncodeUriComponent(options.filter) else "";
    var url := ListUrl(m, options);
    assert url == head + (d + tail);
    assert url[..|head|] == head;
    var rest := url[|head|..];
    assert rest == d + tail;
    assert forall j :: 0 <= j < |d| ==> d[j] != '&';
    IndexOfAfterPrefix(d, tail, '&');
    var i := IndexOf(rest, '&');
    if options.filter == "" {
      assert i == |d|;
    } else {
      assert tail[0] == '&';
      assert i == |d|;
      assert rest[i..] == tail;
      assert tail[..|key|] == key;
      assert tail[|key|..] == EncodeUriComponent(options.filter);
      DecodeEncode(options.filter);
    }
    assert rest[..i] == d;
    ParseNatToString(EffectiveTop(options.top));
  }

  /** Reads the item id back from an item URL. */
  function ParseItemUrl(base: string, url: string): Option<nat>
  {
    var head := base + "(";
    if |head| < |url| && url[..|head|] == head && url[|url| - 1] == ')' then
      var digits := url[|head|..|url| - 1];
      if digits != [] && AllDigits(digits) then Some(ParseDecimal(digits)) else None
    else None
  }

  /**
   * The URL of one item: the collection endpoint followed by `(<id>)`. It
   * names exactly its item.
   */
  function ItemUrl(m: SatelliteManager, itemId: nat): (url: string)
    ensures |url| > |m.listRestUrl| && url[..|m.listRestUrl|] == m.listRestUrl
    ensures ParseItemUrl(m.listRestUrl, url) == Some(itemId)
  {
    var head := m.listRestUrl + "(";
    var d := NatToString(itemId);
    var url := head + d + ")";
    assert url[..|head|] == head;
    assert url[..|m.listRestUrl|] == m.listRestUrl;
    assert url[|head|..|url| - 1] == d;
    ParseNatToString(itemId);
    url
  }

  // ---------------------------------------------------------------------
  // Filters of the two search helpers
  // ---------------------------------------------------------------------

  /**
   * Reads a filter of the shape `open` literal `'` `close`, the literal
   * ending at its first quote.
   */
  function ReadQuoted(f: string, open: string, close: string): Option<string>
  {
    if |open| <= |f| && f[..|open|] == open then
      var rest := f[|open|..];
      var i := IndexOf(rest, '\'');
      if i < |rest| && rest[i + 1..] == close then Some(rest[..i]) else None
    else None
  }

  lemma QuotedRoundTrip(open: string, x: string, close: string)
    ensures ReadQuoted(open + x + "'" + close, open, close) == Some(x) <==> '\'' !in x
  {
    var f := open + x + "'" + close;
    assert f[..|open|] == open;
    var rest := f[|open|..];
    assert rest == x + ("'" + close);
    if '\'' !in x {
      IndexOfAfterPrefix(x, "'" + close, '\'');
      assert rest[..|x|] == x;
      assert rest[|x| + 1..] == close;
    }
  }

  function ReadNoradFilter(f: string): Option<string>
  {
    ReadQuoted(f, "NORAD_ID eq '", "")
  }

  function ReadTitleFilter(f: string): Option<string>
  {
    ReadQuoted(f, "substringof('", ", Title)")
  }

  /**
   * `searchByNORADId`'s filter. The argument is interpolated unescaped, so
   * the filter compares with exactly the given id iff the id holds no quote.
   */
  function NoradFilter(noradId: string): (f: string)
    ensures ReadNoradFilter(f) == Some(noradId) <==> '\'' !in noradId
  {
    var f := "NORAD_ID eq '" + noradId + "'";
    assert f == "NORAD_ID eq '" + noradId + "'" + "";
    QuotedRoundTrip("NORAD_ID eq '", noradId, "");
    f
  }

  /**
   * `searchByTitle`'s filter. The argument is interpolated unescaped, so the
   * filter searches for exactly the given text iff the text holds no quote.
   */
  function TitleFilter(title: string): (f: string)
    ensures ReadTitleFilter(f) == Some(title) <==> '\'' !in title
  {
    var f := "substringof('" + title + "', Title)";
    assert f == "substringof('" + title + "'" + ", Title)";
    QuotedRoundTrip("substringof('", title, ", Title)");
    f
  }

  // ---------------------------------------------------------------------
  // The operations
  // ---------------------------------------------------------------------

  /** `addSatellite(d)` */
  function AddSatellite<R>(m: SatelliteManager, d: SatelliteData, digest: Option<string>, resp: Response<R>)
    : (o: Outcome<R>)
    ensures o.request.Some? <==> HasRequiredFields(d) && digest.Some?
    ensures !HasRequiredFields(d) ==> o.result == Failure(MissingRequiredFields)
    ensures HasRequiredFields(d) && digest.None? ==> o.result == Failure(DigestNotFound)
    ensures o.request.Some? ==>
      && o.request.value.verb == POST && o.request.value.url == m.listRestUrl
      && HeadersFitVerb(o.request.value.verb, o.request.value.headers)
      && HeaderValue(o.request.value.headers, "X-RequestDigest") == digest
      && o.request.value.body == Some(BuildPayload(d))
    ensures o.request.Some? && resp.Ok? ==> o.result == Success(resp.value)
    ensures o.request.Some? && resp.NotOk? && resp.body.ErrorJson? ==>
      o.result.Failure? && ErrorMessage(o.result.error) == AddPrefix + ServerMessageOr(resp.body.message, resp.statusText)
    ensures o.request.Some? && resp.OkUnparsable? ==> o.result == Failure(Host(resp.parseError))
    ensures o.request.Some? && resp.NotOk? && resp.body.UnparsableBody? ==>
      o.result == Failure(Host(resp.body.parseError))
    ensures o.request.Some? && resp.NetworkFailure? ==> o.result == Failure(Host(resp.reason))
  {
    if !HasRequiredFields(d) then Outcome(None, Failure(MissingRequiredFields))
    else
      var payload := BuildPayload(d);
      match digest
      case None => Outcome(None, Failure(DigestNotFound))
      case Some(token) =>
        var req := Request(POST, m.listRestUrl, PostHeaders(token), Some(payload));
        Outcome(Some(req), Parsed(resp, AddPrefix, ServerMessage))
  }

  /** `getSatellites(options)` */
  function GetSatellites<R>(m: SatelliteManager, options: ListOptions, resp: Response<seq<R>>)
    : (o: Outcome<seq<R>>)
    ensures o.request.Some?
    ensures o.request.value.verb == GET && o.request.value.body == None
    ensures o.request.value.url == ListUrl(m, options) && HeadersFitVerb(o.request.value.verb, o.request.value.headers)
    ensures resp.Ok? ==> o.result == Success(resp.value)
    ensures resp.NotOk? ==> o.result == Failure(Remote(ListPrefix + resp.statusText))
    ensures resp.OkUnparsable? ==> o.result == Failure(Host(resp.parseError))
    ensures resp.NetworkFailure? ==> o.result == Failure(Host(resp.reason))
  {
    var req := Request(GET, ListUrl(m, options), ReadHeaders(), None);
    Outcome(Some(req), Parsed(resp, ListPrefix, StatusTextOnly))
  }

  /** `getSatelliteById(itemId)` */
  function GetSatelliteById<R>(m: SatelliteManager, itemId: nat, resp: Response<R>): (o: Outcome<R>)
    ensures o.request.Some?
    ensures o.request.value.verb == GET && o.request.value.body == None
    ensures o.request.value.url == ItemUrl(m, itemId) && HeadersFitVerb(o.request.value.verb, o.request.value.headers)
    ensures resp.Ok? ==> o.result == Success(resp.value)
    ensures resp.NotOk? ==> o.result == Failure(Remote(GetPrefix + resp.statusText))
    ensures resp.OkUnparsable? ==> o.result == Failure(Host(resp.parseError))
    ensures resp.NetworkFailure? ==> o.result == Failure(Host(resp.reason))
  {
    var req := Request(GET, ItemUrl(m, itemId), ReadHeaders(), None);
    Outcome(Some(req), Parsed(resp, GetPrefix, StatusTextOnly))
  }

  /** `updateSatellite(itemId, fields)`: `fields` uses the list's column names. */
  function UpdateSatellite<T>(m: SatelliteManager, itemId: nat, fields: JsonObject, digest: Option<string>,
                              resp: Response<T>): (o: Outcome<bool>)
    ensures o.request.Some? <==> digest.Some?
    ensures digest.None? ==> o.result == Failure(DigestNotFound)
    ensures o.request.Some? ==>
      && o.request.value.verb == PATCH && o.request.value.url == ItemUrl(m, itemId)
      && HeadersFitVerb(o.request.value.verb, o.request.value.headers)
      && HeaderValue(o.request.value.headers, "X-RequestDigest") == digest
      && o.request.value.body == Some(fields)
    ensures o.request.Some? && (resp.Ok? || resp.OkUnparsable?) ==> o.result == Success(true)
    ensures o.request.Some? && resp.NotOk? && resp.body.ErrorJson? ==>
      o.result.Failure? && ErrorMessage(o.result.error) == UpdatePrefix + ServerMessageOr(resp.body.message, resp.statusText)
    ensures o.request.Some? && resp.NotOk? && resp.body.UnparsableBody? ==>
      o.result == Failure(Host(resp.body.parseError))
    ensures o.request.Some? && resp.NetworkFailure? ==> o.result == Failure(Host(resp.reason))
  {
    match digest
    case None => Outcome(None, Failure(DigestNotFound))
    case Some(token) =>
      var req := Request(PATCH, ItemUrl(m, itemId), PatchHeaders(token), Some(fields));
      Outcome(Some(req), Acknowledged(resp, UpdatePrefix, ServerMessage))
  }

  /** `deleteSatellite(itemId)` */
  function DeleteSatellite<T>(m: SatelliteManager, itemId: nat, digest: Option<string>, resp: Response<T>)
    : (o: Outcome<bool>)
    ensures o.request.Some? <==> digest.Some?
    ensures digest.None? ==> o.result == Failure(DigestNotFound)
    ensures o.request.Some? ==>
      && o.request.value.verb == DELETE && o.request.value.url == ItemUrl(m, itemId)
      && HeadersFitVerb(o.request.value.verb, o.request.value.headers)
      && HeaderValue(o.request.value.headers, "X-RequestDigest") == digest
      && o.request.value.body == None
    ensures o.request.Some? && (resp.Ok? || resp.OkUnparsable?) ==> o.result == Success(true)
    ensures o.request.Some? && resp.NotOk? ==> o.result == Failure(Remote(DeletePrefix + resp.statusText))
    ensures o.request.Some? && resp.NetworkFailure? ==> o.result == Failure(Host(resp.reason))
  {
    match digest
    case None => Outcome(None, Failure(DigestNotFound))
    case Some(token) =>
      var req := Request(DELETE, ItemUrl(m, itemId), DeleteHeaders(token), None);
      Outcome(Some(req), Acknowledged(resp, DeletePrefix, StatusTextOnly))
  }

  /** `searchByNORADId(noradId)` */
  function SearchByNoradId<R>(m: SatelliteManager, noradId: string, resp: Response<seq<R>>)
    : (o: Outcome<seq<R>>)
    ensures o == GetSatellites(m, ListOptions(0, NoradFilter(noradId)), resp)
    ensures o.request.Some? && o.request.value.verb == GET
    ensures ParseListUrl(m.listRestUrl, o.request.value.url)
         == Some(ListQuery(100, Some(Utf8Encode("NORAD_ID eq '" + noradId + "'"))))
  {
    ListUrlRoundTrip(m, ListOptions(0, NoradFilter(noradId)));
    GetSatellites(m, ListOptions(0, NoradFilter(noradId)), resp)
  }

  /** `searchByTitle(title)` */
  function SearchByTitle<R>(m: SatelliteManager, title: string, resp: Response<seq<R>>)
    : (o: Outcome<seq<R>>)
    ensures o == GetSatellites(m, ListOptions(0, TitleFilter(title)), resp)
    ensures o.request.Some? && o.request.value.verb == GET
    ensures ParseListUrl(m.listRestUrl, o.request.value.url)
         == Some(ListQuery(100, Some(Utf8Encode("substringof('" + title + "', Title)"))))
  {
    ListUrlRoundTrip(m, ListOptions(0, TitleFilter(title)));
    GetSatellites(m, ListOptions(0, TitleFilter(title)), resp)
  }

  /** Get, update and delete of one item address the same URL, and distinct items distinct URLs. */
  lemma ItemOperationsShareUrl<R, T>(m: SatelliteManager, itemId: nat, other: nat, fields: JsonObject,
                                     token: string, r: Response<R>, t: Response<T>)
    ensures GetSatelliteById(m, itemId, r).request.value.url
         == UpdateSatellite(m, itemId, fields, Some(token), t).request.value.url
         == DeleteSatellite(m, itemId, Some(token), t).request.value.url
         == m.listRestUrl + "(" + NatToString(itemId) + ")"
    ensures other != itemId ==>
      GetSatelliteById(m, itemId, r).request.value.url != GetSatelliteById(m, other, r).request.value.url
  {
  }

  /** Changing one column of item 1 sends one unconditional PATCH to `(1)`. */
  lemma UpdateStatusExample<T>(m: SatelliteManager, token: string, resp: Response<T>)
    ensures var o := UpdateSatellite(m, 1, map["Status" := JString("Under Maintenance")], Some(token), resp);
      && o.request.Some? && o.request.value.verb == PATCH
      && o.request.value.url == m.listRestUrl + "(1)"
      && HeaderValue(o.request.value.headers, "If-Match") == Some("*")
  {
  }

  /** Deleting a missing item rejects with the status text the server sent. */
  lemma DeleteNotFoundExample(m: SatelliteManager, token: string, body: ErrorBody)
    ensures DeleteSatellite(m, 1, Some(token), Response<()>.NotOk(body, "Not Found")).result
         == Failure(Remote("Failed to delete satellite: Not Found"))
  {
    assert DeletePrefix + "Not Found" == "Failed to delete satellite: Not Found";
  }
}
