/** The UtilityAPI HTTP client with the network taken out: a request is answered by a
    `Transport`, a total function standing for the server. What is modelled is what the client
    does around that answer: the request it builds, how it classifies the status, how it decodes
    the meter listing and how it falls back when fetching one meter's summary. */
module Api {
  import opened Wrappers
  import opened Json
  import Text

  const DefaultBaseUrl := "https://utilityapi.com/api/v2"
  const MeterListLimit := 500
  const InvalidAuthMessage := "Invalid UtilityAPI API key"

  /** A constructed `UtilityAPIClient`: the key and the base URL after `rstrip("/")`. */
  datatype Client = Client(apiKey: string, baseUrl: string)

  /** The value of a query parameter (aiohttp renders both forms as text). */
  datatype QueryValue = QInt(i: int) | QText(s: string)

  datatype Request = Request(url: string, headers: map<string, string>, params: map<string, QueryValue>)

  /** What the server answers: the status, the body as text and the body decoded as JSON. */
  datatype Response = Response(status: int, text: string, body: Json)

  type Transport = Request -> Response

  /** `UtilityAPIError` and its subclass `InvalidAuthError`, with their messages. */
  datatype ApiError = InvalidAuthError(message: string) | UtilityAPIError(message: string)

  /** An exception leaving a client operation: an `ApiError` (both kinds are `UtilityAPIError`s,
      so a handler of the general error catches both), or `Malformed`, the `AttributeError` or
      `TypeError` Python raises when a listing entry is not an object or `meters` is a truthy
      value that is not a list. */
  datatype Raised = Api(error: ApiError) | Malformed

  /** One decoded meter (`UtilityAPIMeter`). */
  datatype Meter = Meter(id: string, archived: bool, meterLabel: Json, updated: Json, raw: map<string, Json>)

  /** The constructor with its default base URL, which has no trailing slash to strip. */
  function NewDefaultClient(apiKey: string): (c: Client)
    ensures c == Client(apiKey, DefaultBaseUrl)
  {
    var c := NewClient(apiKey, DefaultBaseUrl);
    assert c.baseUrl == DefaultBaseUrl by {
      assert DefaultBaseUrl[|DefaultBaseUrl| - 1] == '2';
    }
    c
  }

  /** The constructor: the base URL loses all trailing slashes and nothing else. */
  function NewClient(apiKey: string, baseUrl: string): (c: Client)
    ensures c.apiKey == apiKey
    ensures c.baseUrl == [] || c.baseUrl[|c.baseUrl| - 1] != '/'
    ensures |c.baseUrl| <= |baseUrl| && c.baseUrl == baseUrl[..|c.baseUrl|]
    ensures forall i :: |c.baseUrl| <= i < |baseUrl| ==> baseUrl[i] == '/'
  {
    Client(apiKey, Text.TrimRight(baseUrl, '/'))
  }

  /** `_headers`. */
  function Headers(c: Client): (h: map<string, string>)
    ensures h.Keys == {"Authorization", "Accept", "Content-Type", "User-Agent"}
  {
    map[
      "Authorization" := "Bearer " + c.apiKey,
      "Accept" := "application/json",
      "Content-Type" := "application/json",
      "User-Agent" := "HomeAssistant-UtilityAPI/0.1.0"
    ]
  }

  /** The bearer token carried by an Authorization header, if it has that form. */
  function BearerToken(h: map<string, string>): Option<string> {
    if "Authorization" in h && |h["Authorization"]| >= 7 && h["Authorization"][..7] == "Bearer "
    then Some(h["Authorization"][7..])
    else None
  }

  /** Every request carries exactly the client's key. */
  lemma HeadersCarryKey(c: Client)
    ensures BearerToken(Headers(c)) == Some(c.apiKey)
  {
    var a := "Bearer " + c.apiKey;
    assert a[..7] == "Bearer " && a[7..] == c.apiKey;
  }

  /** The URL `_get` requests: base, one slash, path without its leading slashes. */
  function Url(c: Client, path: string): (u: string)
    ensures |u| > |c.baseUrl| && u[..|c.baseUrl| + 1] == c.baseUrl + "/"
    ensures var p := u[|c.baseUrl| + 1..];
      && |p| <= |path| && p == path[|path| - |p|..]
      && (p == [] || p[0] != '/')
      && forall i :: 0 <= i < |path| - |p| ==> path[i] == '/'
  {
    c.baseUrl + "/" + Text.TrimLeft(path, '/')
  }

  /** `u` is `b`, one slash, then `p`, where `b` does not end and `p` does not start with a slash. */
  predicate JoinedByOneSlash(u: string, b: string, p: string) {
    u == b + "/" + p && (b == [] || b[|b| - 1] != '/') && (p == [] || p[0] != '/')
  }

  /** Exactly one slash separates base and path, however many the caller wrote. */
  lemma UrlOneSlash(apiKey: string, base: string, path: string, k: nat, m: nat)
    ensures var c := NewClient(apiKey, base);
      Url(NewClient(apiKey, base + seq(k, _ => '/')), seq(m, _ => '/') + path) == Url(c, path)
    ensures JoinedByOneSlash(Url(NewClient(apiKey, base), path), Text.TrimRight(base, '/'), Text.TrimLeft(path, '/'))
  {
    Text.TrimRightSuffix(base, '/', k);
    Text.TrimLeftPrefix(path, '/', m);
    var b := NewClient(apiKey, base).baseUrl;
    var p := Text.TrimLeft(path, '/');
    assert Url(NewClient(apiKey, base), path) == b + "/" + p;
    assert JoinedByOneSlash(Url(NewClient(apiKey, base), path), b, p);
  }

  /** The status checks of `_get`. */
  function Check(url: string, resp: Response): (r: Result<Json, ApiError>)
    ensures r.Err? <==> resp.status >= 400
    ensures r.Err? && r.error.InvalidAuthError? <==> resp.status == 401 || resp.status == 403
    ensures r.Ok? ==> r.value == resp.body
    ensures r.Err? && r.error.UtilityAPIError? ==>
      r.error.message == "GET " + url + " failed: " + Text.Decimal(resp.status) + " " + resp.text
  {
    if resp.status == 401 || resp.status == 403 then Err(InvalidAuthError(InvalidAuthMessage))
    else if resp.status >= 400 then
      Err(UtilityAPIError("GET " + url + " failed: " + Text.Decimal(resp.status) + " " + resp.text))
    else Ok(resp.body)
  }

  /** `_get(path, params)`. */
  function Get(c: Client, t: Transport, path: string, params: map<string, QueryValue>): (r: Result<Json, ApiError>)
    ensures var resp := t(Request(Url(c, path), Headers(c), params));
      && (r.Err? <==> resp.status >= 400)
      && (r.Err? && r.error.InvalidAuthError? <==> resp.status == 401 || resp.status == 403)
      && (r.Ok? ==> r.value == resp.body)
  {
    var url := Url(c, path);
    Check(url, t(Request(url, Headers(c), params)))
  }

  /** `validate`: a one-meter listing request, which fails exactly when its status does. */
  function Validate(c: Client, t: Transport): (r: Result<(), ApiError>)
    ensures var resp := t(Request(Url(c, "meters"), Headers(c), map["limit" := QInt(1)]));
      && (r.Err? <==> resp.status >= 400)
      && (r.Err? && r.error.InvalidAuthError? <==> resp.status == 401 || resp.status == 403)
  {
    match Get(c, t, "meters", map["limit" := QInt(1)])
    case Ok(_) => Ok(())
    case Err(e) => Err(e)
  }

  /** The query of `list_meters`. */
  function ListParams(archived: Option<bool>): (p: map<string, QueryValue>)
    ensures "limit" in p && p["limit"] == QInt(MeterListLimit)
    ensures "archived" in p <==> archived.Some?
    ensures archived.Some? ==> p["archived"] == QText(if archived.value then "true" else "false")
    ensures p.Keys <= {"limit", "archived"}
  {
    var p := map["limit" := QInt(MeterListLimit)];
    match archived
    case None => p
    case Some(b) =>
      var text := Text.Lower(ToStr(JBool(b)));
      assert text == if b then "true" else "false" by {
        if b {
          assert text[0] == 't' && text[1] == 'r' && text[2] == 'u' && text[3] == 'e';
        } else {
          assert text[0] == 'f' && text[1] == 'a' && text[2] == 'l' && text[3] == 's' && text[4] == 'e';
        }
      }
      p["archived" := QText(text)]
  }

  /** `meters_raw`: the entries of the listing payload, or `None` when iterating them would
      raise (`meters` truthy but not a list). */
  function RawMeters(data: Json): (r: Option<seq<Json>>)
    ensures data.JObject? && "meters" in data.fields && !Truthy(data.fields["meters"]) ==> r == Some([])
    ensures data.JObject? && "meters" in data.fields && data.fields["meters"].JArray? ==>
      r == Some(data.fields["meters"].items)
    ensures data.JArray? ==> r == Some(data.items)
    ensures !data.JArray? && !(data.JObject? && "meters" in data.fields) ==> r == Some([])
    ensures r.None? <==>
      (data.JObject? && "meters" in data.fields && Truthy(data.fields["meters"]) && !data.fields["meters"].JArray?)
  {
    if data.JObject? && "meters" in data.fields then
      var m := data.fields["meters"];
      if !Truthy(m) then Some([]) else if m.JArray? then Some(m.items) else None
    else if data.JArray? then Some(data.items)
    else Some([])
  }

  /** Builds one `UtilityAPIMeter` from a listing entry. */
  function DecodeMeter(m: map<string, Json>): (d: Meter)
    ensures d.raw == m
    ensures d.archived <==> "archived" in m && Truthy(m["archived"])
  {
    Meter(
      id := ToStr(Or(Or(Or(Lookup(m, "id"), Lookup(m, "meter_id")), Lookup(m, "uid")), JString(""))),
      archived := Truthy(LookupOr(m, "archived", JBool(false))),
      meterLabel := Or(Or(Lookup(m, "label"), Lookup(m, "name")), Lookup(m, "service_address")),
      updated := Or(Or(Lookup(m, "updated"), Lookup(m, "modified")), Lookup(m, "updated_at")),
      raw := m)
  }

  /** The fallback chains of `DecodeMeter`. */
  lemma DecodeMeterFields(m: map<string, Json>)
    ensures var d := DecodeMeter(m);
      && (Truthy(Lookup(m, "id")) ==> d.id == ToStr(m["id"]))
      && (!Truthy(Lookup(m, "id")) && Truthy(Lookup(m, "meter_id")) ==> d.id == ToStr(m["meter_id"]))
      && (!Truthy(Lookup(m, "id")) && !Truthy(Lookup(m, "meter_id")) && Truthy(Lookup(m, "uid")) ==>
            d.id == ToStr(m["uid"]))
      && (d.id == "" <==> !Truthy(Lookup(m, "id")) && !Truthy(Lookup(m, "meter_id")) && !Truthy(Lookup(m, "uid")))
      && (d.archived <==> "archived" in m && Truthy(m["archived"]))
      && (Truthy(Lookup(m, "label")) ==> d.meterLabel == m["label"])
      && (!Truthy(Lookup(m, "label")) && Truthy(Lookup(m, "name")) ==> d.meterLabel == m["name"])
      && (!Truthy(Lookup(m, "label")) && !Truthy(Lookup(m, "name")) ==> d.meterLabel == Lookup(m, "service_address"))
      && (Truthy(Lookup(m, "updated")) ==> d.updated == m["updated"])
      && (!Truthy(Lookup(m, "updated")) && Truthy(Lookup(m, "modified")) ==> d.updated == m["modified"])
      && (!Truthy(Lookup(m, "updated")) && !Truthy(Lookup(m, "modified")) ==> d.updated == Lookup(m, "updated_at"))
      && d.raw == m
  {
    var v := Or(Or(Or(Lookup(m, "id"), Lookup(m, "meter_id")), Lookup(m, "uid")), JString(""));
    assert ToStr(v) == "" <==> v == JString("");
  }

  /** The test of the final filter: the meter's id is not empty. */
  predicate HasId(m: Meter) {
    m.id != ""
  }

  /** `[m for m in meters if m.id]`. */
  function WithIds(ms: seq<Meter>): (r: seq<Meter>)
    ensures |r| <= |ms|
    ensures forall m :: m in r ==> m in ms && m.id != ""
    ensures forall m :: m in ms && m.id != "" ==> m in r
  {
    if ms == [] then []
    else (if HasId(ms[0]) then [ms[0]] else []) + WithIds(ms[1..])
  }

  /** Filtering keeps payload order: it distributes over concatenation. */
  lemma {:induction false} WithIdsAppend(a: seq<Meter>, b: seq<Meter>)
    ensures WithIds(a + b) == WithIds(a) + WithIds(b)
  {
    if a != [] {
      assert (a + b)[1..] == a[1..] + b;
      WithIdsAppend(a[1..], b);
    } else {
      assert a + b == b;
    }
  }

  predicate AllObjects(items: seq<Json>) {
    forall i :: 0 <= i < |items| ==> items[i].JObject?
  }

  function DecodeAll(items: seq<Json>): (ms: seq<Meter>)
    requires AllObjects(items)
    ensures |ms| == |items|
    ensures forall i :: 0 <= i < |items| ==> ms[i] == DecodeMeter(items[i].fields)
  {
    seq(|items|, i requires 0 <= i < |items| => DecodeMeter(items[i].fields))
  }

  /** The decoding half of `list_meters`, from the listing body to the meters. */
  function DecodeListing(data: Json): (r: Result<seq<Meter>, Raised>)
    ensures r.Err? ==> r.error == Malformed
    ensures r.Ok? ==> forall m :: m in r.value ==> m.id != "" && m == DecodeMeter(m.raw)
  {
    match RawMeters(data)
    case None => Err(Malformed)
    case Some(items) => if AllObjects(items) then Ok(WithIds(DecodeAll(items))) else Err(Malformed)
  }

  /** Tolerant decoding: an object with `meters` yields that list (`[]` when it is null or
      empty), a bare list yields itself, anything else yields no meters. */
  lemma DecodeListingShapes(data: Json)
    ensures data.JObject? && "meters" in data.fields && !Truthy(data.fields["meters"]) ==> DecodeListing(data) == Ok([])
    ensures !data.JArray? && !(data.JObject? && "meters" in data.fields) ==> DecodeListing(data) == Ok([])
    ensures data.JArray? && AllObjects(data.items) ==> DecodeListing(data) == Ok(WithIds(DecodeAll(data.items)))
    ensures data.JObject? && "meters" in data.fields && data.fields["meters"].JArray? && AllObjects(data.fields["meters"].items) ==>
      DecodeListing(data) == Ok(WithIds(DecodeAll(data.fields["meters"].items)))
    ensures DecodeListing(data).Err? <==> RawMeters(data).None? || !AllObjects(RawMeters(data).value)
  {
  }

  /** The spelled-out meaning of `list_meters`. */
  function Listing(c: Client, t: Transport, archived: Option<bool>): Result<seq<Meter>, Raised> {
    match Get(c, t, "meters", ListParams(archived))
    case Err(e) => Err(Api(e))
    case Ok(data) => DecodeListing(data)
  }

  /** Every listed meter has a nonempty id and is the decoding of a payload entry. */
  lemma ListingMeters(c: Client, t: Transport, archived: Option<bool>)
    requires Listing(c, t, archived).Ok?
    ensures forall m :: m in Listing(c, t, archived).value ==> m.id != "" && m == DecodeMeter(m.raw)
  {
    assert Get(c, t, "meters", ListParams(archived)).Ok?;
  }

  /** The decoding loop of `list_meters`: none when an entry is not an object. */
  method DecodeEntries(items: seq<Json>) returns (r: Option<seq<Meter>>)
    ensures r.Some? <==> AllObjects(items)
    ensures r.Some? ==> r.value == DecodeAll(items)
  {
    var meters: seq<Meter> := [];
    var i := 0;
    while i < |items|
      invariant 0 <= i <= |items|
      invariant forall j :: 0 <= j < i ==> items[j].JObject?
      invariant |meters| == i
      invariant forall j :: 0 <= j < i ==> meters[j] == DecodeMeter(items[j].fields)
    {
      if !items[i].JObject? {
        return None;
      }
      meters := meters + [DecodeMeter(items[i].fields)];
      i := i + 1;
    }
    return Some(meters);
  }

  /** `list_meters`: fetch the listing, decode every entry, then drop the ones without an id. */
  method ListMeters(c: Client, t: Transport, archived: Option<bool>) returns (r: Result<seq<Meter>, Raised>)
    ensures r == Listing(c, t, archived)
  {
    var data := Get(c, t, "meters", ListParams(archived));
    if data.Err? {
      return Err(Api(data.error));
    }
    var raw := RawMeters(data.value);
    if raw.None? {
      return Err(Malformed);
    }
    var decoded := DecodeEntries(raw.value);
    if decoded.None? {
      return Err(Malformed);
    }
    r := Ok(WithIds(decoded.value));
  }

  /** The first listed meter with the given id. */
  function FindMeter(ms: seq<Meter>, id: string): (r: Option<nat>)
    ensures r.Some? ==>
      (r.value < |ms| && ms[r.value].id == id && forall j :: 0 <= j < r.value ==> ms[j].id != id)
    ensures r.None? ==> forall j :: 0 <= j < |ms| ==> ms[j].id != id
  {
    if ms == [] then None
    else if ms[0].id == id then Some(0)
    else match FindMeter(ms[1..], id)
      case None => None
      case Some(k) => Some(k + 1)
  }

  function SummaryPath(meterId: string): string {
    "meters/" + meterId
  }

  /** Meter `k` is the first listed meter with id `id`. */
  predicate FirstWithId(ms: seq<Meter>, id: string, k: int) {
    0 <= k < |ms| && ms[k].id == id && forall j :: 0 <= j < k ==> ms[j].id != id
  }

  /** What `refresh_meter_summary` falls back to once the direct fetch gave no object: the raw
      record of the first listed meter with the id, else a record holding only the id. */
  function SummaryFromListing(listing: Result<seq<Meter>, Raised>, meterId: string): (r: Result<map<string, Json>, Raised>)
    ensures r.Err? <==> listing.Err?
    ensures listing.Err? ==> r == Err(listing.error)
    ensures listing.Ok? ==> forall k :: FirstWithId(listing.value, meterId, k) ==> r == Ok(listing.value[k].raw)
    ensures listing.Ok? && (forall j :: 0 <= j < |listing.value| ==> listing.value[j].id != meterId) ==>
      r == Ok(map["id" := JString(meterId)])
  {
    match listing
    case Err(e) => Err(e)
    case Ok(ms) =>
      match FindMeter(ms, meterId)
      case Some(k) =>
        assert FirstWithId(ms, meterId, k);
        assert forall k' :: FirstWithId(ms, meterId, k') ==> k' == k;
        Ok(ms[k].raw)
      case None => Ok(map["id" := JString(meterId)])
  }

  /** The spelled-out meaning of `refresh_meter_summary`. */
  function Summary(c: Client, t: Transport, meterId: string): Result<map<string, Json>, Raised> {
    var direct := Get(c, t, SummaryPath(meterId), map[]);
    if direct.Ok? && direct.value.JObject? then Ok(direct.value.fields)
    else SummaryFromListing(Listing(c, t, None), meterId)
  }

  /** A summary is the object the direct fetch returned, and otherwise (an error of either
      kind, or a body that is not an object) the fallback on the full listing. */
  lemma SummaryCases(c: Client, t: Transport, meterId: string)
    ensures var direct := Get(c, t, SummaryPath(meterId), map[]);
      && (direct.Ok? && direct.value.JObject? ==> Summary(c, t, meterId) == Ok(direct.value.fields))
      && (direct.Err? || !direct.value.JObject? ==>
            Summary(c, t, meterId) == SummaryFromListing(Listing(c, t, None), meterId))
  {
  }

  /** An authentication failure on the direct fetch is handled like any other API error: the
      summary comes from the listing. */
  lemma AuthFailureFallsBack(c: Client, t: Transport, meterId: string)
    requires t(Request(Url(c, SummaryPath(meterId)), Headers(c), map[])).status in {401, 403}
    ensures Summary(c, t, meterId) == SummaryFromListing(Listing(c, t, None), meterId)
  {
    var url := Url(c, SummaryPath(meterId));
    assert Get(c, t, SummaryPath(meterId), map[]).Err?;
  }

  /** A summary fetch fails only when the direct fetch gave no object and the listing failed. */
  lemma SummaryFailure(c: Client, t: Transport, meterId: string)
    requires Summary(c, t, meterId).Err?
    ensures Listing(c, t, None).Err?
    ensures Summary(c, t, meterId).error == Listing(c, t, None).error
  {
    var direct := Get(c, t, SummaryPath(meterId), map[]);
    assert !(direct.Ok? && direct.value.JObject?);
    assert Summary(c, t, meterId) == SummaryFromListing(Listing(c, t, None), meterId);
  }

  /** The search of the listing in `refresh_meter_summary`, with an early return. */
  method SearchListing(meters: seq<Meter>, meterId: string) returns (r: map<string, Json>)
    ensures Ok(r) == SummaryFromListing(Ok(meters), meterId)
  {
    var i := 0;
    while i < |meters|
      invariant 0 <= i <= |meters|
      invariant forall j :: 0 <= j < i ==> meters[j].id != meterId
    {
      if meters[i].id == meterId {
        assert FirstWithId(meters, meterId, i);
        return meters[i].raw;
      }
      i := i + 1;
    }
    return map["id" := JString(meterId)];
  }

  /** `refresh_meter_summary`: the direct fetch, then the listing fallback. */
  method RefreshMeterSummary(c: Client, t: Transport, meterId: string) returns (r: Result<map<string, Json>, Raised>)
    ensures r == Summary(c, t, meterId)
  {
    var data := Get(c, t, SummaryPath(meterId), map[]);
    if data.Ok? && data.value.JObject? {
      return Ok(data.value.fields);
    }
    var listing := ListMeters(c, t, None);
    if listing.Err? {
      return Err(listing.error);
    }
    var found := SearchListing(listing.value, meterId);
    r := Ok(found);
  }
}
