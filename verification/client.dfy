/**
 * The I/O-free logic of the REST client: resource names, URL assembly, the retry
 * schedule, reading records and page information out of a response body, and the
 * cursor loop that lists every record of an object.
 */
module Client {
  import opened Wrappers
  import opened JsonValue

  // ---------------------------------------------------------------------------
  // Resource names

  /** Irregular plurals of object names. */
  const ResourcePlurals: map<string, string> := map[
    "person" := "people", "gift" := "gifts", "company" := "companies", "opportunity" := "opportunities"]

  /** `getResourceName`: the irregular plural when there is one, else the name with an `s`. */
  function ResourceName(objectName: string): (r: string)
    ensures objectName in ResourcePlurals ==> r == ResourcePlurals[objectName]
    ensures objectName !in ResourcePlurals ==> r == objectName + "s"
  {
    if objectName in ResourcePlurals then ResourcePlurals[objectName] else objectName + "s"
  }

  /** The singular `extractRecords` tries: the resource without a final `s`. */
  function Singular(resource: string): (r: string)
    ensures |resource| > 0 && resource[|resource| - 1] == 's' ==> resource == r + "s"
    ensures !(|resource| > 0 && resource[|resource| - 1] == 's') ==> r == resource
  {
    if |resource| > 0 && resource[|resource| - 1] == 's' then resource[..|resource| - 1] else resource
  }

  /**
   * For an object without an irregular plural, and for gifts, the singular of its resource
   * name is the object name; for people it is not, so a `person` envelope is never read.
   */
  lemma SingularOfResourceName(objectName: string)
    ensures objectName !in ResourcePlurals || objectName == "gift" ==> Singular(ResourceName(objectName)) == objectName
    ensures Singular(ResourceName("person")) == "people"
  {
    var r := ResourceName(objectName);
    if objectName !in ResourcePlurals || objectName == "gift" {
      assert r == objectName + "s";
      assert r[..|r| - 1] == objectName;
    }
    assert "people"[5] == 'e';
  }

  // ---------------------------------------------------------------------------
  // URLs

  /** `s.replace(/\/+$/, '')`: the string without its trailing slashes. */
  function StripTrailingSlashes(s: string): (r: string)
    ensures |r| <= |s| && r == s[..|r|]
    ensures r == [] || r[|r| - 1] != '/'
    ensures forall i :: |r| <= i < |s| ==> s[i] == '/'
    decreases |s|
  {
    if |s| > 0 && s[|s| - 1] == '/' then StripTrailingSlashes(s[..|s| - 1]) else s
  }

  /** `s.replace(/^\/+/, '')`: the string without its leading slashes. */
  function StripLeadingSlashes(s: string): (r: string)
    ensures |r| <= |s| && r == s[|s| - |r|..]
    ensures r == [] || r[0] != '/'
    ensures forall i :: 0 <= i < |s| - |r| ==> s[i] == '/'
    decreases |s|
  {
    if |s| > 0 && s[0] == '/' then StripLeadingSlashes(s[1..]) else s
  }

  /** Stripping twice strips nothing more. */
  lemma StripIdempotent(s: string)
    ensures StripTrailingSlashes(StripTrailingSlashes(s)) == StripTrailingSlashes(s)
    ensures StripLeadingSlashes(StripLeadingSlashes(s)) == StripLeadingSlashes(s)
  {
  }

  /** The client keeps its key and its base URL without trailing slashes. */
  datatype TwentyClient = TwentyClient(apiKey: string, baseUrl: string)

  /** `new TwentyClient(apiKey, baseUrl)`. */
  function NewClient(apiKey: string, baseUrl: string): (c: TwentyClient)
    ensures c.apiKey == apiKey
    ensures c.baseUrl == [] || c.baseUrl[|c.baseUrl| - 1] != '/'
    ensures |c.baseUrl| <= |baseUrl| && baseUrl == c.baseUrl + baseUrl[|c.baseUrl|..]
  {
    TwentyClient(apiKey, StripTrailingSlashes(baseUrl))
  }

  predicate StartsWith(s: string, prefix: string) {
    |prefix| <= |s| && s[..|prefix|] == prefix
  }

  /** The URL `request` calls: an absolute `http…` path as it is, else base URL, one slash, and the path. */
  function RequestUrl(client: TwentyClient, resourcePath: string): (url: string)
    ensures StartsWith(resourcePath, "http") ==> url == resourcePath
  {
    if StartsWith(resourcePath, "http") then resourcePath
    else client.baseUrl + "/" + StripLeadingSlashes(resourcePath)
  }

  /**
   * However many slashes end the configured base URL and begin the resource path, the
   * request URL joins them with exactly one.
   */
  lemma RequestUrlJoinsWithOneSlash(apiKey: string, baseUrl: string, resourcePath: string)
    requires !StartsWith(resourcePath, "http")
    ensures var base := StripTrailingSlashes(baseUrl);
      var rest := StripLeadingSlashes(resourcePath);
      RequestUrl(NewClient(apiKey, baseUrl), resourcePath) == base + "/" + rest
      && (base == [] || base[|base| - 1] != '/') && (rest == [] || rest[0] != '/')
  {
  }

  // ---------------------------------------------------------------------------
  // Retries

  const MaxRetries: nat := 3
  const RetryBaseDelayMs: nat := 300
  const RetriableStatus: set<int> := {429, 500, 502, 503, 504}

  /** `response.ok`. */
  predicate IsOk(status: int) {
    200 <= status <= 299
  }

  /** What `fetchWithRetry` ends with: a successful response, or the failure it throws. */
  datatype FetchResult = Fetched(status: int) | RequestFailed(status: int)

  /**
   * `fetchWithRetry` from the given attempt, where `respond(k)` is the status of the k-th
   * call: the result and the delays slept before each further call.
   */
  function Retry(respond: nat -> int, attempt: nat): (r: (FetchResult, seq<nat>))
    requires 1 <= attempt <= MaxRetries
    ensures |r.1| <= MaxRetries - attempt
    ensures r.0.Fetched? <==> IsOk(r.0.status)
    decreases MaxRetries - attempt
  {
    var status := respond(attempt);
    if IsOk(status) then (Fetched(status), [])
    else if status in RetriableStatus && attempt < MaxRetries then
      var (result, delays) := Retry(respond, attempt + 1);
      (result, [RetryBaseDelayMs * attempt] + delays)
    else (RequestFailed(status), [])
  }

  /** `fetchWithRetry(url, init)`: the attempt counter starts at 1. */
  method FetchWithRetry(respond: nat -> int) returns (result: FetchResult, delays: seq<nat>)
    ensures (result, delays) == Retry(respond, 1)
  {
    var attempt := 1;
    delays := [];
    assert [] + Retry(respond, 1).1 == Retry(respond, 1).1;
    while true
      invariant 1 <= attempt <= MaxRetries
      invariant |delays| == attempt - 1
      invariant Retry(respond, 1).0 == Retry(respond, attempt).0
      invariant Retry(respond, 1).1 == delays + Retry(respond, attempt).1
      decreases MaxRetries - attempt
    {
      var status := respond(attempt);
      if IsOk(status) {
        assert delays + [] == delays;
        return Fetched(status), delays;
      }
      if status in RetriableStatus && attempt < MaxRetries {
        var rest := Retry(respond, attempt + 1).1;
        assert delays + ([RetryBaseDelayMs * attempt] + rest) == (delays + [RetryBaseDelayMs * attempt]) + rest;
        delays := delays + [RetryBaseDelayMs * attempt];
        attempt := attempt + 1;
      } else {
        assert delays + [] == delays;
        return RequestFailed(status), delays;
      }
    }
  }

  /**
   * From attempt `attempt`, the retry loop makes `|delays| + 1` calls, at most up to the
   * third; sleeps 300 ms times the attempt number before each further call; retries only
   * after a retriable, non-OK status; and ends with the status of its last call, returned
   * exactly when it is OK.
   */
  lemma {:induction false} RetrySchedule(respond: nat -> int, attempt: nat)
    requires 1 <= attempt <= MaxRetries
    ensures var (result, delays) := Retry(respond, attempt);
      && attempt + |delays| <= MaxRetries
      && (forall k :: 0 <= k < |delays| ==> delays[k] == RetryBaseDelayMs * (attempt + k))
      && (forall k :: attempt <= k < attempt + |delays| ==>
            !IsOk(respond(k)) && respond(k) in RetriableStatus)
      && result.status == respond(attempt + |delays|)
      && (result.Fetched? <==> IsOk(result.status))
    decreases MaxRetries - attempt
  {
    var status := respond(attempt);
    if !IsOk(status) && status in RetriableStatus && attempt < MaxRetries {
      RetrySchedule(respond, attempt + 1);
      var (result, delays) := Retry(respond, attempt + 1);
      assert Retry(respond, attempt).1 == [RetryBaseDelayMs * attempt] + delays;
      forall k | 0 < k <= |delays|
        ensures ([RetryBaseDelayMs * attempt] + delays)[k] == RetryBaseDelayMs * (attempt + k)
      {
        assert ([RetryBaseDelayMs * attempt] + delays)[k] == delays[k - 1];
      }
    }
  }

  /** A call is repeated only while it fails retriably and fewer than three calls were made. */
  lemma RetryStops(respond: nat -> int)
    ensures IsOk(respond(1)) ==> Retry(respond, 1) == (Fetched(respond(1)), [])
    ensures !IsOk(respond(1)) && respond(1) !in RetriableStatus ==>
      Retry(respond, 1) == (RequestFailed(respond(1)), [])
    ensures |Retry(respond, 1).1| <= 2
  {
    RetrySchedule(respond, 1);
  }

  /** Two 503 responses and then a 200: the third call succeeds after sleeping 300 and 600 ms. */
  lemma TwoOutagesThenSuccess(respond: nat -> int)
    requires respond(1) == 503 && respond(2) == 503 && respond(3) == 200
    ensures Retry(respond, 1) == (Fetched(200), [300, 600])
  {
    assert Retry(respond, 3) == (Fetched(200), []);
    assert [RetryBaseDelayMs * 2] + [] == [600];
    assert Retry(respond, 2) == (Fetched(200), [600]);
    assert [RetryBaseDelayMs * 1] + [600] == [300, 600];
  }

  /** Three 503 responses: the request fails with 503 after two retries. */
  lemma ThreeOutages(respond: nat -> int)
    requires respond(1) == 503 && respond(2) == 503 && respond(3) == 503
    ensures Retry(respond, 1) == (RequestFailed(503), [300, 600])
  {
    assert Retry(respond, 3) == (RequestFailed(503), []);
    assert [RetryBaseDelayMs * 2] + [] == [600];
    assert Retry(respond, 2) == (RequestFailed(503), [600]);
    assert [RetryBaseDelayMs * 1] + [600] == [300, 600];
  }

  // ---------------------------------------------------------------------------
  // Response bodies

  /**
   * The body `request` returns: `{}` for status 204 and for an empty text, else the parsed
   * JSON, or an error when it does not parse (`parse` stands for `JSON.parse`).
   */
  function ResponseBody(status: int, text: string, parse: string -> Option<Value>): (r: Result<Value, string>)
    ensures status == 204 || text == "" ==> r == Success(Obj(map[]))
    ensures r.Failure? <==> status != 204 && text != "" && parse(text).None?
  {
    if status == 204 || text == "" then Success(Obj(map[]))
    else if parse(text).None? then Failure("Failed to parse JSON response")
    else Success(parse(text).value)
  }

  /** `c.toUpperCase()` for one character (ASCII letters only). */
  function UpperCase(c: char): char {
    if 'a' <= c <= 'z' then (c as int - 32) as char else c
  }

  /** `resource.charAt(0).toUpperCase() + resource.slice(1)`. */
  function Capitalize(s: string): (r: string)
    ensures |r| == |s| && (|s| > 0 ==> r[0] == UpperCase(s[0]) && r[1..] == s[1..])
  {
    if s == [] then s else [UpperCase(s[0])] + s[1..]
  }

  /** The envelope keys `extractRecords` tries, in order. */
  function EnvelopeKeys(resource: string): (keys: seq<string>)
    ensures |keys| == 3 && keys[0] == resource
  {
    [resource, Singular(resource), "findMany" + Capitalize(resource)]
  }

  /** `body.data` when it is an object. */
  function Data(body: Value): (r: Option<Value>)
    ensures r.Some? ==> body.Obj? && IsObject(r.value) && r.value == Prop(body, "data")
  {
    if IsObject(body) && IsObject(Prop(body, "data")) then Some(Prop(body, "data")) else None
  }

  /**
   * `extractRecords`: the array under `data[resource]`, else under the singular, else under
   * `findMany<Resource>`, else none.
   */
  function ExtractRecords(body: Value, resource: string): (records: seq<Value>)
    ensures records != [] ==> Data(body).Some? && exists k :: 0 <= k < 3 && Prop(Data(body).value, EnvelopeKeys(resource)[k]) == Arr(records)
  {
    var data := Data(body);
    if data.None? then []
    else
      var keys := EnvelopeKeys(resource);
      var direct := Prop(data.value, keys[0]);
      var singular := Prop(data.value, keys[1]);
      var findMany := Prop(data.value, keys[2]);
      if direct.Arr? then direct.items
      else if singular.Arr? then singular.items
      else if findMany.Arr? then findMany.items
      else []
  }

  /**
   * The records are read from the first envelope key that holds an array, and none are
   * read when no key does.
   */
  lemma ExtractRecordsPrecedence(body: Value, resource: string, k: nat)
    requires Data(body).Some? && k < 3
    requires Prop(Data(body).value, EnvelopeKeys(resource)[k]).Arr?
    requires forall j :: 0 <= j < k ==> !Prop(Data(body).value, EnvelopeKeys(resource)[j]).Arr?
    ensures ExtractRecords(body, resource) == Prop(Data(body).value, EnvelopeKeys(resource)[k]).items
  {
  }

  lemma ExtractRecordsNone(body: Value, resource: string)
    requires Data(body).Some? ==> forall j :: 0 <= j < 3 ==> !Prop(Data(body).value, EnvelopeKeys(resource)[j]).Arr?
    ensures ExtractRecords(body, resource) == []
  {
  }

  /** A body `{ data: { <resource>: records } }` yields the records. */
  lemma ExtractRecordsOfEnvelope(resource: string, records: seq<Value>, rest: map<string, Value>)
    ensures ExtractRecords(Obj(rest["data" := Obj(map[resource := Arr(records)])]), resource) == records
  {
  }

  /** `extractPageInfo`: `body.pageInfo`, else `body.data.pageInfo`, when it is an object. */
  function ExtractPageInfo(body: Value): (r: Option<Value>)
    ensures r.Some? ==> IsObject(r.value)
    ensures IsObject(body) && IsObject(Prop(body, "pageInfo")) ==> r == Some(Prop(body, "pageInfo"))
  {
    if !IsObject(body) then None
    else if IsObject(Prop(body, "pageInfo")) then Some(Prop(body, "pageInfo"))
    else if IsObject(Prop(body, "data")) && IsObject(Prop(Prop(body, "data"), "pageInfo")) then
      Some(Prop(Prop(body, "data"), "pageInfo"))
    else None
  }

  /** One page of a listing. */
  datatype Page = Page(items: seq<Value>, hasNextPage: bool, nextCursor: Option<string>)

  /** A non-empty string property, for the `typeof x === 'string' && x` tests. */
  function CursorOf(pageInfo: Value, name: string): (r: Option<string>)
    ensures r.Some? ==> r.value != "" && Prop(pageInfo, name) == Str(r.value)
  {
    var v := Prop(pageInfo, name);
    if v.Str? && v.s != "" then Some(v.s) else None
  }

  /**
   * The page `listRecordsPage` derives from a response body: there is a next page when
   * the page info says so or carries a cursor; the cursor is `endCursor`, else `nextCursor`.
   */
  function ReadPage(body: Value, resource: string): (p: Page)
    ensures p.items == ExtractRecords(body, resource)
    ensures p.nextCursor.Some? ==> p.nextCursor.value != "" && p.hasNextPage
    ensures ExtractPageInfo(body).None? ==> !p.hasNextPage && p.nextCursor.None?
  {
    var pageInfo := ExtractPageInfo(body);
    if pageInfo.None? then Page(ExtractRecords(body, resource), false, None)
    else
      var info := pageInfo.value;
      var hasNextPage := Truthy(Prop(info, "hasNextPage")) || Truthy(Prop(info, "endCursor")) || Truthy(Prop(info, "nextCursor"));
      var endCursor := CursorOf(info, "endCursor");
      var nextCursor := if endCursor.Some? then endCursor else CursorOf(info, "nextCursor");
      Page(ExtractRecords(body, resource), hasNextPage, nextCursor)
  }

  /** `hasNext = page.hasNextPage && Boolean(page.nextCursor)`. */
  predicate Continues(p: Page) {
    p.hasNextPage && p.nextCursor.Some?
  }

  /** A page says there is more without giving a cursor: the listing stops there. */
  lemma NextPageWithoutCursorStops(items: seq<Value>, resource: string)
    ensures var p := ReadPage(Obj(map["data" := Obj(map[resource := Arr(items)]),
                                      "pageInfo" := Obj(map["hasNextPage" := Bool(true)])]), resource);
      p.hasNextPage && !Continues(p)
  {
  }

  /** The items of the given pages, in order. */
  function AllItems(pages: seq<Page>): (r: seq<Value>)
    decreases |pages|
  {
    if pages == [] then [] else AllItems(pages[..|pages| - 1]) + pages[|pages| - 1].items
  }

  /**
   * `listAllRecords(objectName)`, where `pages[k]` is the page `listRecordsPage` reads
   * (`ReadPage` of the k-th response body, for the object's resource name) when asked for
   * the k-th time. It returns the records, the cursor sent with each request (none with
   * the first), and whether a page that does not continue ended the listing before the
   * given pages ran out. The records are those of the pages requested, in order; every
   * page but the last one requested continues the listing.
   */
  method ListAllRecords(pages: seq<Page>)
    returns (records: seq<Value>, cursors: seq<Option<string>>, complete: bool)
    ensures |cursors| <= |pages|
    ensures |pages| > 0 ==> |cursors| > 0
    ensures records == AllItems(pages[..|cursors|])
    ensures forall k :: 0 <= k < |cursors| - 1 ==> Continues(pages[k])
    ensures complete <==> |cursors| > 0 && !Continues(pages[|cursors| - 1])
    ensures !complete ==> |cursors| == |pages|
    ensures |cursors| > 0 ==> cursors[0] == None
    ensures forall k :: 0 < k < |cursors| ==> cursors[k] == pages[k - 1].nextCursor
  {
    records := [];
    cursors := [];
    var cursor: Option<string> := None;
    var hasNext := true;
    var i := 0;
    while hasNext && i < |pages|
      invariant i == |cursors| <= |pages|
      invariant records == AllItems(pages[..i])
      invariant forall k :: 0 <= k < i - 1 ==> Continues(pages[k])
      invariant hasNext <==> i == 0 || Continues(pages[i - 1])
      invariant hasNext ==> cursor == if i == 0 then None else pages[i - 1].nextCursor
      invariant i > 0 ==> cursors[0] == None
      invariant forall k :: 0 < k < i ==> cursors[k] == pages[k - 1].nextCursor
    {
      cursors := cursors + [cursor];
      var page := pages[i];
      assert pages[..i + 1][..i] == pages[..i];
      records := records + page.items;
      hasNext := page.hasNextPage && page.nextCursor.Some?;
      cursor := if hasNext then page.nextCursor else None;
      i := i + 1;
    }
    complete := !hasNext;
  }
}
