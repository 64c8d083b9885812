/**
 * The HubSpot CRM API client (internal/hubspot/client.go): the shape of every
 * request it sends and the classification of every response it receives.
 *
 * The HTTP exchange itself, JSON encoding of request bodies and JSON decoding
 * of responses are not part of the model: what came back over the wire is an
 * `Exchange` value, and the decoded response is given alongside it.
 */
module HubSpot {
  import opened Wrappers
  import opened Text

  // ---------------------------------------------------------------------------
  // Constants
  // ---------------------------------------------------------------------------

  /** The production API host every client starts with. */
  const BaseUrl: string := "https://api.hubapi.com"

  /** The contacts collection; one contact lives at ContactsPath + "/" + id. */
  const ContactsPath: string := "/crm/v3/objects/contacts"

  const SearchPath: string := "/crm/v3/objects/contacts/search"

  /** The `properties` query parameter of list and get: one comma-separated value. */
  const RequestedProperties: string := "email,firstname,lastname,hs_lead_status,lifecyclestage"

  /** The `properties` field of a search body: the same five names, as a list. */
  const SearchedProperties: seq<string> := ["email", "firstname", "lastname", "hs_lead_status", "lifecyclestage"]

  // ---------------------------------------------------------------------------
  // Data model
  // ---------------------------------------------------------------------------

  /** A dynamically typed property value as JSON decodes it. Numbers are
      integer-valued here; fractional numbers are not modelled. */
  datatype PropValue = Str(s: string) | Num(n: int) | Bool(b: bool) | Null

  type Properties = map<string, PropValue>

  datatype Contact = Contact(id: string, properties: Properties, createdAt: string, updatedAt: string)

  datatype NextPage = NextPage(after: string)

  datatype Paging = Paging(next: Option<NextPage>)

  /** One page of a list or search: the contacts, and `paging.next.after` when
      the server has more. */
  datatype ContactResponse = ContactResponse(results: seq<Contact>, paging: Option<Paging>)

  /** The next-page cursor, present only when both `paging` and `paging.next` are. */
  function NextCursor(resp: ContactResponse): (cursor: Option<string>)
    ensures cursor.Some? <==> resp.paging.Some? && resp.paging.value.next.Some?
    ensures cursor.Some? ==> cursor.value == resp.paging.value.next.value.after
  {
    match resp.paging
    case None => None
    case Some(Paging(next)) =>
      match next
      case None => None
      case Some(NextPage(after)) => Some(after)
  }

  datatype Client = Client(apiKey: string, baseUrl: string)

  /** NewClient: the given API key, bound to the production host. */
  function NewClient(apiKey: string): (c: Client)
    ensures c.apiKey == apiKey && c.baseUrl == BaseUrl
  {
    Client(apiKey, BaseUrl)
  }

  // ---------------------------------------------------------------------------
  // Requests
  // ---------------------------------------------------------------------------

  datatype HttpMethod = GET | POST | PATCH | DELETE

  datatype Filter = Filter(propertyName: string, operator: string, value: string)

  datatype FilterGroup = FilterGroup(filters: seq<Filter>)

  /** The JSON request bodies the client sends, as records (`propertyNames`
      is the search body's `properties` list). */
  datatype Body =
    | PropertiesBody(properties: Properties)
    | SearchBody(filterGroups: seq<FilterGroup>, limit: int, propertyNames: seq<string>)

  /** One API call before transport: method, endpoint path, query parameters
      in the order they are added (their URL encoding is not modelled), and
      the optional body. */
  datatype ApiRequest = ApiRequest(verb: HttpMethod, path: string, query: seq<(string, string)>, body: Option<Body>)

  /** The first value of query parameter `key`, as `url.Values.Get` finds it. */
  function Param(query: seq<(string, string)>, key: string): (v: Option<string>)
    ensures v.None? <==> forall p :: p in query ==> p.0 != key
    ensures v.Some? ==> (key, v.value) in query
  {
    if query == [] then None
    else if query[0].0 == key then Some(query[0].1)
    else Param(query[1..], key)
  }

  /** Param finds the first parameter of that name: with `add` called several
      times for one name, the earliest value wins. */
  lemma {:induction false} ParamIsFirst(query: seq<(string, string)>, key: string, i: nat)
    requires i < |query| && query[i].0 == key
    requires forall l :: 0 <= l < i ==> query[l].0 != key
    ensures Param(query, key) == Some(query[i].1)
  {
    if i > 0 {
      ParamIsFirst(query[1..], key, i - 1);
    }
  }

  /** The path of one contact. */
  function ContactPath(id: string): string {
    ContactsPath + "/" + id
  }

  /** The contact id a path addresses, if it addresses one: the inverse of ContactPath. */
  function ContactIdOf(path: string): (id: Option<string>)
    ensures id.Some? ==> ContactPath(id.value) == path
  {
    var prefix := ContactsPath + "/";
    if prefix <= path then Some(path[|prefix|..]) else None
  }

  /** The query of ListContacts: `limit`, then `after` only when the cursor is
      non-empty, then the fixed property list. */
  function ListQuery(limitText: string, after: string): (q: seq<(string, string)>)
    ensures |q| == (if after == "" then 2 else 3)
    ensures q[0] == ("limit", limitText) && q[|q| - 1] == ("properties", RequestedProperties)
    ensures forall i, j :: 0 <= i < j < |q| ==> q[i].0 != q[j].0
  {
    [("limit", limitText)]
    + (if after != "" then [("after", after)] else [])
    + [("properties", RequestedProperties)]
  }

  /** Each parameter of the list query is found under its own name, the
      cursor exactly when it is non-empty, and no other name occurs. */
  lemma ListQueryParams(limitText: string, after: string)
    ensures var q := ListQuery(limitText, after);
      && Param(q, "limit") == Some(limitText)
      && Param(q, "after") == (if after == "" then None else Some(after))
      && Param(q, "properties") == Some(RequestedProperties)
      && (forall p :: p in q ==> p.0 == "limit" || p.0 == "after" || p.0 == "properties")
  {
    var q := ListQuery(limitText, after);
    var limitParam := ("limit", limitText);
    var propertiesParam := ("properties", RequestedProperties);
    if after == "" {
      assert q == [limitParam, propertiesParam];
      assert q[1..] == [propertiesParam] && q[1..][1..] == [];
    } else {
      assert q == [limitParam, ("after", after), propertiesParam];
      assert q[1..] == [("after", after), propertiesParam] && q[1..][1..] == [propertiesParam];
    }
  }

  /** ListContacts: GET on the collection with the list query. */
  function ListContactsRequest(limit: int, after: string): (r: ApiRequest)
    ensures r.verb == GET && r.path == ContactsPath && r.body == None
  {
    ApiRequest(GET, ContactsPath, ListQuery(Decimal(limit), after), None)
  }

  /** The parameters of a list request: `limit` always, as decimal text that
      reads back as the limit; `after` exactly when the cursor is non-empty,
      carrying it verbatim; the fixed property list; nothing else. */
  lemma ListContactsParams(limit: int, after: string)
    ensures var q := ListContactsRequest(limit, after).query;
      && Param(q, "limit") == Some(Decimal(limit))
      && ParseDecimal(Param(q, "limit").value) == Some(limit)
      && Param(q, "after") == (if after == "" then None else Some(after))
      && Param(q, "properties") == Some(RequestedProperties)
      && (forall p :: p in q ==> p.0 == "limit" || p.0 == "after" || p.0 == "properties")
  {
    ListQueryParams(Decimal(limit), after);
    DecimalRoundTrip(limit);
  }

  /** GetContact: GET on one contact, asking only for the fixed property list. */
  function GetContactRequest(id: string): (r: ApiRequest)
    ensures r.verb == GET && r.body == None
    ensures ContactIdOf(r.path) == Some(id)
    ensures r.query == [("properties", RequestedProperties)]
  {
    ApiRequest(GET, ContactPath(id), [("properties", RequestedProperties)], None)
  }

  /** CreateContact: POST of `{"properties": properties}` to the collection. */
  function CreateContactRequest(properties: Properties): (r: ApiRequest)
    ensures r.verb == POST && r.path == ContactsPath && r.query == []
    ensures r.body == Some(PropertiesBody(properties))
  {
    ApiRequest(POST, ContactsPath, [], Some(PropertiesBody(properties)))
  }

  /** UpdateContact: PATCH of `{"properties": properties}` to one contact. */
  function UpdateContactRequest(id: string, properties: Properties): (r: ApiRequest)
    ensures r.verb == PATCH && r.query == []
    ensures ContactIdOf(r.path) == Some(id)
    ensures r.body == Some(PropertiesBody(properties))
  {
    ApiRequest(PATCH, ContactPath(id), [], Some(PropertiesBody(properties)))
  }

  /** DeleteContact: DELETE on one contact, without body. */
  function DeleteContactRequest(id: string): (r: ApiRequest)
    ensures r.verb == DELETE && r.query == [] && r.body == None
    ensures ContactIdOf(r.path) == Some(id)
  {
    ApiRequest(DELETE, ContactPath(id), [], None)
  }

  /** The filter groups SearchContacts derives from a free-text query: a query
      holding `=` is split at its first `=` into a trimmed property name and a
      trimmed value compared with EQ; any other query is a trimmed value the
      `email` property must contain as a token. */
  function SearchFilterGroups(query: string): (groups: seq<FilterGroup>)
    ensures |groups| == 1 && |groups[0].filters| == 1
    ensures var f := groups[0].filters[0];
      && (f.operator == "EQ" <==> '=' in query)
      && ('=' !in query ==> f.propertyName == "email" && f.operator == "CONTAINS_TOKEN")
      && Trimmed(f.value)
  {
    if '=' in query then
      var parts := SplitFirst(query, '=');
      if |parts| == 2 then
        var property := TrimSpace(parts[0]);
        var value := TrimSpace(parts[1]);
        [FilterGroup([Filter(property, "EQ", value)])]
      else
        []
    else
      var value := TrimSpace(query);
      [FilterGroup([Filter("email", "CONTAINS_TOKEN", value)])]
  }

  /** The one filter a search query produces. */
  function QueryFilter(query: string): Filter {
    var groups := SearchFilterGroups(query);
    if |groups| == 1 && |groups[0].filters| == 1 then groups[0].filters[0] else Filter("", "", "")
  }

  /** SearchContacts: POST of the filter groups, the limit and the fixed
      property list to the search endpoint. */
  function SearchContactsRequest(query: string, limit: int): (r: ApiRequest)
    ensures r.verb == POST && r.path == SearchPath && r.query == []
    ensures r.body.Some? && r.body.value.SearchBody?
    ensures r.body.value.limit == limit && r.body.value.propertyNames == SearchedProperties
    ensures r.body.value.filterGroups == SearchFilterGroups(query)
  {
    ApiRequest(POST, SearchPath, [], Some(SearchBody(SearchFilterGroups(query), limit, SearchedProperties)))
  }

  /** Every search holds exactly one filter group with exactly one filter: the
      `len(parts) == 2` test that could leave the groups empty never fails. */
  lemma SearchHasOneFilter(query: string)
    ensures |SearchFilterGroups(query)| == 1
    ensures |SearchFilterGroups(query)[0].filters| == 1
    ensures SearchFilterGroups(query) == [FilterGroup([QueryFilter(query)])]
  {
  }

  /** A query with `=`: property name and value are the trimmed text on either
      side of the first `=`; later `=` characters stay in the value. */
  lemma SearchEqualityFilter(query: string)
    requires '=' in query
    ensures var parts := SplitFirst(query, '=');
      && '=' !in parts[0]
      && query == parts[0] + "=" + parts[1]
      && QueryFilter(query) == Filter(TrimSpace(parts[0]), "EQ", TrimSpace(parts[1]))
  {
  }

  /** A query without `=` searches the email property for the trimmed query. */
  lemma SearchEmailFilter(query: string)
    requires '=' !in query
    ensures QueryFilter(query) == Filter("email", "CONTAINS_TOKEN", TrimSpace(query))
  {
  }

  /** A query `key=rest` whose key holds no `=` searches for the trimmed key
      equal to the trimmed rest. */
  lemma SearchOfJoined(key: string, rest: string)
    requires '=' !in key
    ensures QueryFilter(key + "=" + rest) == Filter(TrimSpace(key), "EQ", TrimSpace(rest))
  {
    assert key + "=" + rest == key + ['='] + rest;
    SplitFirstOfJoined(key, '=', rest);
  }

  /** Writing an equality filter as `name=value` and searching for it gives the
      filter back, whatever white space surrounds either side. */
  lemma SearchEqualityRoundTrip(pad1: string, name: string, pad2: string, pad3: string, value: string, pad4: string)
    requires '=' !in name && Trimmed(name) && Trimmed(value)
    requires AllSpace(pad1) && AllSpace(pad2) && AllSpace(pad3) && AllSpace(pad4)
    ensures QueryFilter(pad1 + name + pad2 + "=" + pad3 + value + pad4) == Filter(name, "EQ", value)
  {
    NoSeparatorInSpace(pad1, '=');
    NoSeparatorInSpace(pad2, '=');
    var key := pad1 + name + pad2;
    var rest := pad3 + value + pad4;
    assert pad1 + name + pad2 + "=" + pad3 + value + pad4 == key + "=" + rest;
    SearchOfJoined(key, rest);
    TrimSpacePadded(pad1, name, pad2);
    TrimSpacePadded(pad3, value, pad4);
  }

  /** A trimmed, `=`-free text searched for comes back as the email token,
      whatever white space surrounds it. */
  lemma SearchEmailRoundTrip(pad1: string, text: string, pad2: string)
    requires '=' !in text && Trimmed(text) && AllSpace(pad1) && AllSpace(pad2)
    ensures QueryFilter(pad1 + text + pad2) == Filter("email", "CONTAINS_TOKEN", text)
  {
    NoSeparatorInSpace(pad1, '=');
    NoSeparatorInSpace(pad2, '=');
    TrimSpacePadded(pad1, text, pad2);
  }

  // ---------------------------------------------------------------------------
  // The shared request execution (doRequest)
  // ---------------------------------------------------------------------------

  /** What actually goes on the wire, up to the URL encoding of the query. */
  datatype HttpRequest = HttpRequest(verb: HttpMethod, url: string, query: seq<(string, string)>, headers: map<string, string>, body: Option<Body>)

  /** doRequest's request: the client's base URL followed by the endpoint, a
      JSON content type and the bearer credential. The content type is set on
      every request, with or without a body. */
  function Prepare(c: Client, req: ApiRequest): (h: HttpRequest)
    ensures h.verb == req.verb && h.query == req.query && h.body == req.body
    ensures h.url == c.baseUrl + req.path
    ensures h.headers.Keys == {"Content-Type", "Authorization"}
    ensures h.headers["Content-Type"] == "application/json"
  {
    var headers := map["Content-Type" := "application/json", "Authorization" := "Bearer " + c.apiKey];
    HttpRequest(req.verb, c.baseUrl + req.path, req.query, headers, req.body)
  }

  /** The credential carried by an `Authorization` header, if it is a bearer one. */
  function BearerToken(headers: map<string, string>): (token: Option<string>)
    ensures token.Some? ==> "Authorization" in headers && headers["Authorization"] == "Bearer " + token.value
  {
    if "Authorization" in headers && "Bearer " <= headers["Authorization"]
    then Some(headers["Authorization"][|"Bearer "|..])
    else None
  }

  /** Every request a client prepares carries its own API key as the bearer
      credential and goes to its base URL. */
  lemma EveryRequestAuthorized(c: Client, req: ApiRequest)
    ensures BearerToken(Prepare(c, req).headers) == Some(c.apiKey)
    ensures c.baseUrl <= Prepare(c, req).url
    ensures Prepare(c, req).url[|c.baseUrl|..] == req.path
  {
    var h := Prepare(c, req).headers["Authorization"];
    assert h[|"Bearer "|..] == c.apiKey;
  }

  /** A client made by NewClient talks to the production host with the key it
      was given. */
  lemma NewClientSendsKey(apiKey: string, req: ApiRequest)
    ensures BearerToken(Prepare(NewClient(apiKey), req).headers) == Some(apiKey)
    ensures Prepare(NewClient(apiKey), req).url == BaseUrl + req.path
  {
    EveryRequestAuthorized(NewClient(apiKey), req);
  }

  /** What came back from the transport: a response with its status and fully
      read body, a failure to send, or a failure to read the body. */
  datatype Exchange = Delivered(status: int, body: string) | SendFailed(cause: string) | ReadFailed(cause: string)

  datatype Error =
    | SendError(cause: string)
    | ReadError(cause: string)
    | ApiError(status: int, body: string)
    | DecodeError(cause: string)

  /** The text of each error as the client formats it: it ends with the cause
      (or, for an API error, the response body) verbatim, and only API errors
      start with `API error`. */
  function ErrorMessage(e: Error): (m: string)
    ensures e.ApiError? ==> |e.body| <= |m| && m[|m| - |e.body|..] == e.body
    ensures !e.ApiError? ==> |e.cause| <= |m| && m[|m| - |e.cause|..] == e.cause
    ensures e.ApiError? <==> "API error (status " <= m
  {
    match e
    case SendError(cause) =>
      var m := "failed to execute request: " + cause;
      assert m[0] == 'f';
      m
    case ReadError(cause) =>
      var m := "failed to read response: " + cause;
      assert m[0] == 'f';
      m
    case ApiError(status, body) => "API error (status " + Decimal(status) + "): " + body
    case DecodeError(cause) =>
      var m := "failed to unmarshal response: " + cause;
      assert m[0] == 'f';
      m
  }

  predicate IsSuccessStatus(status: int) {
    200 <= status < 300
  }

  /** doRequest's outcome: the raw body exactly when the status is in
      [200, 300); otherwise an API error carrying the status and the raw body;
      transport failures are passed on as they happened. */
  function Receive(ex: Exchange): (r: Result<string, Error>)
    ensures r.Success? <==> ex.Delivered? && IsSuccessStatus(ex.status)
    ensures r.Success? ==> r.value == ex.body
    ensures ex.Delivered? && !IsSuccessStatus(ex.status) ==> r == Failure(ApiError(ex.status, ex.body))
    ensures ex.SendFailed? ==> r == Failure(SendError(ex.cause))
    ensures ex.ReadFailed? ==> r == Failure(ReadError(ex.cause))
  {
    match ex
    case SendFailed(cause) => Failure(SendError(cause))
    case ReadFailed(cause) => Failure(ReadError(cause))
    case Delivered(status, body) =>
      if status < 200 || status >= 300 then Failure(ApiError(status, body)) else Success(body)
  }

  /** The message of an API error shows the status code in decimal and the
      response body verbatim. */
  lemma ApiErrorMessageShowsStatusAndBody(status: int, body: string)
    ensures ContainsInfix(ErrorMessage(ApiError(status, body)), Decimal(status))
    ensures ContainsInfix(ErrorMessage(ApiError(status, body)), body)
  {
    var prefix := "API error (status ";
    var m := ErrorMessage(ApiError(status, body));
    var d := Decimal(status);
    assert m == prefix + d + "): " + body;
    assert d <= m[|prefix|..];
    var k := |prefix| + |d| + 3;
    assert m[k..] == body;
    assert body <= m[k..];
  }

  /** Each operation's last step: a transport or status error is returned as it
      is; a successful body the JSON decoder rejects is a decoding error with
      the decoder's message; otherwise the decoded value is the result. */
  function Complete<T>(raw: Result<string, Error>, decoded: Result<T, string>): (r: Result<T, Error>)
    ensures raw.Failure? ==> r == Failure(raw.error)
    ensures raw.Success? && decoded.Failure? ==> r == Failure(DecodeError(decoded.error))
    ensures r.Success? <==> raw.Success? && decoded.Success?
    ensures r.Success? ==> r.value == decoded.value
  {
    match raw
    case Failure(e) => Failure(e)
    case Success(_) =>
      match decoded
      case Failure(cause) => Failure(DecodeError(cause))
      case Success(v) => Success(v)
  }
}
