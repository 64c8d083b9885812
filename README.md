# hsctl contacts core, modelled in Dafny

hsctl is a command-line client for the HubSpot CRM. This project models the
part of it that makes decisions, and proves what those decisions are:

- **The API client** (`internal/hubspot/client.go`, module `HubSpot`).
  - The exact request each operation sends: method, path, query parameters in
    the order they are added, and body. The operations are list, get, create,
    update, delete and search.
  - How the search query becomes a filter.
  - The headers every request carries.
  - How `doRequest` classifies a response: success exactly for a status in
    [200, 300), otherwise an API error holding the status and the raw body.
- **The `contacts` commands** (`cmd/contacts.go`, module `Contacts`).
  - The API-key precedence, the default page size and the delete
    confirmation.
  - The table value of a property (`getStringValue`).
  - How `create` and `update` build their property map: the named flags, then
    the `key1=value1,key2=value2` string, parsed in a loop that fills the map
    in place.
  - The `list --all` pagination loop.
  - What each command sends and returns.
- **The Go library functions those rely on** (module `Text`): `TrimSpace`
  with Go's white-space set, `SplitN(s, "=", 2)`, `Split`, `ToLower` and `%d`.
  Each is defined here and characterised by lemmas (uniqueness, round trips).

How the model is organised:

- Network, JSON decoding and the terminal are outside the model. A command
  takes the server's answers as parameters: one `Result` per client call, or a
  sequence of pages for `list`.
- A command returns the `ApiRequest`s it issued, in order. "The client is
  never called" is therefore a statement about that sequence.
- The two loops of `cmd/contacts.go` are methods with loop invariants:
  - the property-string loop is `Contacts.WritePairs`;
  - the pagination loop is `Contacts.FetchPages`.
  Each is proved against a recursive specification function (`ApplyEntries`,
  and `ListRequests` with `AllResults`). The properties of the loops are
  proved about those functions.

Files: `wrappers.dfy` (Option, Result), `text.dfy`, `hubspot_client.dfy`,
`contacts.dfy`.

`doRequest` sets `Content-Type: application/json` on every request, including
GET and DELETE requests that have no body, and the model does the same
(`HubSpot.Prepare`).

## Model

| member | source | states |
|---|---|---|
| HubSpot.NewClient | internal/hubspot/client.go:26-34 | the client holds the given API key and the base URL `https://api.hubapi.com` |
| HubSpot.NewClientSendsKey | internal/hubspot/client.go:89-95 | every request a new client prepares goes to `https://api.hubapi.com` + path and carries `Bearer ` + the key it was given |
| HubSpot.Prepare | internal/hubspot/client.go:89-95 | the prepared request keeps method, query and body, its URL is base URL + endpoint, and it has exactly the headers Content-Type (`application/json`) and Authorization |
| HubSpot.EveryRequestAuthorized | internal/hubspot/client.go:95 | the Authorization header of every prepared request is `Bearer ` followed by the client's own key, and the URL is the base URL followed by the endpoint |
| HubSpot.Receive | internal/hubspot/client.go:97-112 | success exactly when a response arrived with 200 <= status < 300, and then the raw body is the result; any other status gives ApiError(status, body); send and read failures give their own errors |
| HubSpot.ApiErrorMessageShowsStatusAndBody | internal/hubspot/client.go:108-110 | the API error message contains the status in decimal and the response body verbatim |
| HubSpot.ErrorMessage | internal/hubspot/client.go:99-136 | every client error text ends with its cause verbatim, and an API error's with the response body; only an API error's text starts with `API error (status ` |
| HubSpot.Complete | internal/hubspot/client.go:129-139 | a request error passes through unchanged; a body the decoder rejects becomes a decode error; success exactly when both steps succeed, with the decoded value |
| HubSpot.NextCursor | cmd/contacts.go:51-54 | a cursor exists exactly when both `paging` and `paging.next` are present, and it is `paging.next.after` |
| HubSpot.Param | internal/hubspot/client.go:118-123 | looking a parameter up (`url.Values.Get`) finds nothing exactly when no parameter has that name, and otherwise a value given under that name |
| HubSpot.ParamIsFirst | internal/hubspot/client.go:118-123 | the value found is the one of the first parameter with that name |
| HubSpot.ListQuery | internal/hubspot/client.go:118-123 | the list query has three parameters with a cursor and two without; `limit` comes first and `properties` last; no name is added twice |
| HubSpot.ListQueryParams | internal/hubspot/client.go:118-123 | the list query has `limit`, has `after` exactly when the cursor is non-empty and then holds the cursor verbatim, has the fixed five-property list, and has no other parameter |
| HubSpot.ListContactsParams | internal/hubspot/client.go:116-127 | a list request's `limit` parameter is the decimal text of the limit and reads back as that limit; `after` is present iff the cursor is non-empty; the property list is fixed; there are no other parameters |
| HubSpot.ListContactsRequest | internal/hubspot/client.go:116-129 | list is a GET on `/crm/v3/objects/contacts` without a body |
| HubSpot.GetContactRequest | internal/hubspot/client.go:143-150 | get is a GET on `/crm/v3/objects/contacts/` + id (the id reads back from the path) with only the fixed `properties` parameter and no body |
| HubSpot.CreateContactRequest | internal/hubspot/client.go:164-171 | create is a POST on the collection path, with no parameters and the body `{"properties": properties}` |
| HubSpot.UpdateContactRequest | internal/hubspot/client.go:185-192 | update is a PATCH on `/crm/v3/objects/contacts/` + id, with the body `{"properties": properties}` |
| HubSpot.DeleteContactRequest | internal/hubspot/client.go:206-209 | delete is a DELETE on `/crm/v3/objects/contacts/` + id, with no parameters and no body |
| HubSpot.SearchContactsRequest | internal/hubspot/client.go:215-261 | search is a POST on `/crm/v3/objects/contacts/search` whose body holds the filter groups of the query, the given limit and the five property names in order |
| HubSpot.SearchFilterGroups | internal/hubspot/client.go:219-253 | every query gives one filter group with one filter; the operator is EQ exactly when the query holds `=`, otherwise the filter is `email CONTAINS_TOKEN`; the value is trimmed |
| HubSpot.SearchHasOneFilter | internal/hubspot/client.go:219-253 | every query yields exactly one filter group holding exactly one filter |
| HubSpot.SearchEqualityFilter | internal/hubspot/client.go:221-238 | a query containing `=` yields an EQ filter: the property name is the trimmed text before the first `=`, and the value is the trimmed text after it, including any later `=` |
| HubSpot.SearchEmailFilter | internal/hubspot/client.go:239-253 | a query without `=` yields the filter `email CONTAINS_TOKEN` with the trimmed query as value |
| HubSpot.SearchOfJoined | internal/hubspot/client.go:221-238 | for `key=rest` with no `=` in key, the filter is trimmed key EQ trimmed rest |
| HubSpot.SearchEqualityRoundTrip | internal/hubspot/client.go:221-238 | writing `name=value`, with any surrounding white space, and searching it gives back the filter name EQ value |
| HubSpot.SearchEmailRoundTrip | internal/hubspot/client.go:239-253 | a trimmed text without `=`, with any surrounding white space, is searched as exactly that email token |
| Text.TrimSpace | internal/hubspot/client.go:225-226 | the trimmed text neither starts nor ends with white space (Go's `unicode.IsSpace` set) |
| Text.TrimSpaceUnique | internal/hubspot/client.go:225-226 | any infix of `s` that is trimmed and has only white space before and after it is the result of TrimSpace |
| Text.TrimSpaceOfTrimmed | cmd/contacts.go:120-121 | TrimSpace leaves a trimmed string unchanged, so it is idempotent |
| Text.TrimSpacePadded | cmd/contacts.go:120-121 | TrimSpace removes any white-space padding from both sides of a trimmed string |
| Text.IndexOf | cmd/contacts.go:118 | the first position of a character: none exactly when it is absent, otherwise a position holding it with no earlier occurrence |
| Text.SplitFirst | cmd/contacts.go:118 | `SplitN(s, sep, 2)` gives one part (s itself) exactly when sep is absent; otherwise two parts, the first free of sep, joining back to s |
| Text.SplitFirstOfJoined | cmd/contacts.go:118 | splitting `key + sep + rest` with a sep-free key gives back `[key, rest]` |
| Text.Split | cmd/contacts.go:116 | `Split` gives at least one piece, no piece holds the separator, and joining the pieces gives the input back |
| Text.SplitOfJoin | cmd/contacts.go:116 | splitting a join of separator-free pieces gives the pieces back |
| Text.ToLower | cmd/contacts.go:231 | the result has the same length and maps each character through the ASCII lower-casing |
| Text.Decimal | internal/hubspot/client.go:119 | the `%d` text starts with `-` exactly for a negative number, then has at least one digit and no leading zero unless the number is 0 |
| Text.DecimalRoundTrip | internal/hubspot/client.go:119 | the `%d` text of any integer reads back as that integer |
| Contacts.EffectiveLimit | cmd/contacts.go:32-35 | a limit of 0 becomes 100, any other limit is kept, and the result is never 0 |
| Contacts.GetApiKey | cmd/contacts.go:315-325 | the configured key wins when non-empty, else the environment value; the result is empty iff both are |
| Contacts.ConfirmsDeletion | cmd/contacts.go:231-234 | the deletion is confirmed exactly by `y` or `yes` in any mix of upper and lower case |
| Contacts.StringValue | cmd/contacts.go:378-391 | null gives "" and a string gives itself; the result is empty only for null or ""; a bool gives `true`/`false`; an integer gives decimal text that reads back as it (Go writes the same text for integers up to 2^53 in magnitude) |
| Contacts.FlagProperties | cmd/contacts.go:101-112 | each named flag puts its key, with its value as a string, exactly when the flag is non-empty; no other key appears |
| Contacts.ParsePair | cmd/contacts.go:118-123 | a pair gives an entry exactly when it contains `=`, and the entry is the trimmed text before the first `=` and the trimmed rest |
| Contacts.ParsePairRoundTrip | cmd/contacts.go:118-122 | `key=value` with no `=` in key and trimmed sides, with any white space around key and value, parses back to (key, value); the value may contain `=` |
| Contacts.ParsePairs | cmd/contacts.go:116-118 | one parsed entry per pair, in order |
| Contacts.AssembleProperties | cmd/contacts.go:94-125 | the map built in place equals the flag entries followed by the pairs of the property string, applied in order |
| Contacts.WritePairs | cmd/contacts.go:115-125 | the loop over the pairs leaves the map equal to the start map with every parsed pair written in order |
| Contacts.ApplyEntriesKeys | cmd/contacts.go:117-123 | after the pairs are written, the keys are those present before plus those some pair sets; no key appears from elsewhere and none is lost |
| Contacts.LastPairWins | cmd/contacts.go:117-123 | a key takes the value of the last pair that sets it, overriding earlier pairs and the named flags |
| Contacts.UnsetKeyKept | cmd/contacts.go:117-123 | a key no pair sets keeps its earlier presence and value |
| Contacts.AssembledPropertiesShape | cmd/contacts.go:101-125 | the assembled keys are exactly the non-empty named flags plus the pair keys; a flag no pair overrides keeps its value |
| Contacts.ApplyEntriesStrings | cmd/contacts.go:120-122 | every value the assembly writes is a string |
| Contacts.PropertyStringRoundTrip | cmd/contacts.go:114-125 | a property string written from well-formed pairs splits into those pairs, each parsed back as written |
| Contacts.MissingKeyMessageNamesSources | cmd/contacts.go:28 | the missing-key error names both the `HUBSPOT_API_KEY` variable and the `--api-key` flag |
| Contacts.CommandMessageNamesAction | cmd/contacts.go:128-133 | every other command error names what the command was doing |
| Contacts.FailedMessageEndsWithCause | cmd/contacts.go:46 | a failed call is reported with the client's own error text at its end |
| Contacts.Wrap | cmd/contacts.go:44-47 | a client error becomes "failed to ..." wrapping that error; a success passes its value through |
| Contacts.StopIndex | cmd/contacts.go:43-55 | the loop ends at the first answer that does not continue, and every earlier answer continues |
| Contacts.ListRequestAt | cmd/contacts.go:43-54 | request j asks for the page after cursor j (empty for the first request) with the same limit |
| Contacts.FetchPages | cmd/contacts.go:40-55 | requests: one per page up to the stopping page, each with the previous page's cursor; result: the stopping page's error, or every fetched page's contacts in page order |
| Contacts.ListContactsCommand | cmd/contacts.go:25-57 | no API key gives an error and no request; otherwise the pages are fetched with the effective limit, and a page error becomes "failed to list contacts" with no contacts |
| Contacts.OnePageWithoutAll | cmd/contacts.go:51-53 | without `--all`, the loop stops after the first page |
| Contacts.FetchesEveryPage | cmd/contacts.go:43-55 | with `--all` and a server whose pages name a next page iff they are not the last, every page is fetched |
| Contacts.FailureStops | cmd/contacts.go:44-47 | the loop stops at or before the first failed page |
| Contacts.CreateContactCommand | cmd/contacts.go:86-134 | no key gives an error and no request; an empty assembled map gives "at least one property is required to create a contact" and no request; otherwise exactly one create request with the assembled map |
| Contacts.UpdateContactCommand | cmd/contacts.go:146-195 | the same rules as create, with one update request for the given id |
| Contacts.DeleteContactCommand | cmd/contacts.go:207-244 | with a key, the requests are exactly: one delete with `--force`; otherwise a get, then a delete only if the get succeeded and the answer is y/yes; no key sends nothing |
| Contacts.QueryContactsCommand | cmd/contacts.go:252-273 | no key gives an error and no request; otherwise exactly one search with the query and the effective limit, and its contacts or its wrapped error |

## Left out

- HTTP transport is not modelled. This covers `http.NewRequest`, `client.Do`, the 30-second timeout and reading the body. Its outcome is the `Exchange` parameter of `HubSpot.Receive`.
- The `failed to create request` error (an invalid URL, e.g. an id with control characters) is not modelled. Ids are pasted into paths unescaped, as the code does.
- JSON encoding of request bodies is not modelled. Bodies are records, and the `failed to marshal request body` error cannot occur for them.
- JSON decoding is given as a parameter (`decoded` of `HubSpot.Complete`; the `Result` values passed to the commands).
- Percent-encoding and key ordering of `url.Values.Encode` are not modelled. Parameters are a sequence in the order they are added.
- `ListProperties`, the `contacts properties` command and `printProperties` are not modelled, because they only pass a response through to printing.
- Cobra command wiring, flag declarations and Viper configuration are not modelled. Flag values are parameters, and `GetApiKey` takes the configured and environment values.
- Table and JSON printing are not modelled. Nor is the stdin read of the confirmation, whose answer is a parameter, or the email shown in the prompt.
- cmd/version.go and cmd/root.go are not part of this model.
- Contacts.StringValue: numbers are integers (`Num(int)`) written in plain decimal. `FormatFloat(v, 'f', -1, 64)` writes the same text only for integers of magnitude up to 2^53, where every integer is an exact float64. Beyond that it writes the shortest digits that read back as the same float64, padded with zeros (2^60 gives `1152921504606847000`), and a model integer may have no float64 at all. Negative zero (`-0`), fractional numbers and the `%v` fallback for other JSON values (arrays, objects) are not modelled either, because they are floating-point formatting and an opaque library call.
- Text.ToLower: only ASCII letters are lower-cased. No other character lower-cases to `y`, `e` or `s`, so the y/yes decision is the same as with Go's full Unicode mapping.
- Text.TrimSpace: its own contract states only that the result is trimmed. That the result is exactly the infix left after cutting the white space is stated by `Text.TrimSpaceUnique`, which keeps each proof small.
- `--limit` values are unbounded integers, so Go's 64-bit `int` overflow is not modelled. The value is passed through unchanged, so this only matters past 2^63.
- The pagination model assumes the page sequence ends (`PageSourceEnds`). A server that names a next page forever makes the Go loop run forever, and that case is not modelled.
