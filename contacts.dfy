/**
 * The `contacts` commands (cmd/contacts.go): how each command turns its flags
 * into calls of the API client, and what it makes of the client's answers.
 *
 * A command's run is modelled by what it returns and by the requests it sends
 * through the client, in order. The client's answers (one per request) are
 * parameters; printing, prompting and flag parsing are not part of the model.
 */
module Contacts {
  import opened Wrappers
  import opened Text
  import opened HubSpot

  // ---------------------------------------------------------------------------
  // Small decision rules
  // ---------------------------------------------------------------------------

  /** The page size used by `list` and `query` when `--limit` is 0. */
  const DefaultLimit: int := 100

  /** Where a command looks for the API key: the environment variable and the flag. */
  const ApiKeyVariable: string := "HUBSPOT_API_KEY"
  const ApiKeyFlag: string := "--api-key"

  /** `--limit 0` means the default page size; every other value is kept. */
  function EffectiveLimit(limit: int): (r: int)
    ensures r != 0
    ensures limit != 0 ==> r == limit
    ensures limit == 0 ==> r == DefaultLimit
  {
    if limit == 0 then DefaultLimit else limit
  }

  /** getAPIKey: the `api-key` flag (or configuration) value when it is set,
      else the HUBSPOT_API_KEY environment value, else nothing. */
  function GetApiKey(configured: string, environment: string): (key: string)
    ensures key == "" <==> configured == "" && environment == ""
    ensures configured != "" ==> key == configured
    ensures configured == "" ==> key == environment
  {
    if configured != "" then configured
    else if environment != "" then environment
    else ""
  }

  /** The answer to the delete prompt accepts the deletion when, lower-cased,
      it reads `y` or `yes`: that is `y` and `yes` in any mix of cases, and
      nothing else. */
  predicate ConfirmsDeletion(answer: string)
    ensures ConfirmsDeletion(answer) <==>
      || (|answer| == 1 && answer[0] in "yY")
      || (|answer| == 3 && answer[0] in "yY" && answer[1] in "eE" && answer[2] in "sS")
  {
    var lower := ToLower(answer);
    lower == "y" || lower == "yes"
  }

  /** getStringValue for the value kinds the model has: nothing for a null,
      the string itself, `true`/`false`, and an integer in decimal. */
  function StringValue(v: PropValue): (s: string)
    ensures v.Str? ==> s == v.s
    ensures s == "" <==> v == Null || v == Str("")
    ensures v.Bool? ==> (s == "true" <==> v.b) && (s == "false" <==> !v.b)
    ensures v.Num? ==> ParseDecimal(s) == Some(v.n)
  {
    match v
    case Null => ""
    case Str(t) => t
    case Bool(b) => if b then "true" else "false"
    case Num(n) => DecimalRoundTrip(n); Decimal(n)
  }

  // ---------------------------------------------------------------------------
  // The property map of `create` and `update`
  // ---------------------------------------------------------------------------

  /** The flags `create` and `update` read: four named properties and the
      `key1=value1,key2=value2` property string. */
  datatype ContactFlags = ContactFlags(
    email: string, firstName: string, lastName: string, lifecycleStage: string, properties: string)

  /** The entries the named flags contribute: each one only when non-empty. */
  function FlagProperties(f: ContactFlags): (m: Properties)
    ensures m.Keys <= {"email", "firstname", "lastname", "lifecyclestage"}
    ensures ("email" in m <==> f.email != "") && ("email" in m ==> m["email"] == Str(f.email))
    ensures ("firstname" in m <==> f.firstName != "") && ("firstname" in m ==> m["firstname"] == Str(f.firstName))
    ensures ("lastname" in m <==> f.lastName != "") && ("lastname" in m ==> m["lastname"] == Str(f.lastName))
    ensures ("lifecyclestage" in m <==> f.lifecycleStage != "") && ("lifecyclestage" in m ==> m["lifecyclestage"] == Str(f.lifecycleStage))
  {
    var m0: Properties := map[];
    var m1 := if f.email != "" then m0["email" := Str(f.email)] else m0;
    var m2 := if f.firstName != "" then m1["firstname" := Str(f.firstName)] else m1;
    var m3 := if f.lastName != "" then m2["lastname" := Str(f.lastName)] else m2;
    if f.lifecycleStage != "" then m3["lifecyclestage" := Str(f.lifecycleStage)] else m3
  }

  /** One pair of the property string: split at its first `=`, both sides
      trimmed; a pair without `=` contributes nothing. */
  function ParsePair(pair: string): (kv: Option<(string, string)>)
    ensures kv.Some? <==> '=' in pair
    ensures kv.Some? ==> var parts := SplitFirst(pair, '=');
      && '=' !in parts[0] && pair == parts[0] + "=" + parts[1]
      && kv.value == (TrimSpace(parts[0]), TrimSpace(parts[1]))
  {
    var parts := SplitFirst(pair, '=');
    if |parts| == 2 then
      Some((TrimSpace(parts[0]), TrimSpace(parts[1])))
    else
      None
  }

  /** A pair written as `key=value`, with any white space around the key and
      around the value, is read back as (key, value) when the key holds no `=`
      and neither side has surrounding white space of its own; the value may
      hold `=`. */
  lemma ParsePairRoundTrip(pad1: string, key: string, pad2: string, pad3: string, value: string, pad4: string)
    requires '=' !in key && Trimmed(key) && Trimmed(value)
    requires AllSpace(pad1) && AllSpace(pad2) && AllSpace(pad3) && AllSpace(pad4)
    ensures ParsePair(pad1 + key + pad2 + "=" + pad3 + value + pad4) == Some((key, value))
  {
    var left := pad1 + key + pad2;
    var right := pad3 + value + pad4;
    NoSeparatorInSpace(pad1, '=');
    NoSeparatorInSpace(pad2, '=');
    assert '=' !in left;
    assert pad1 + key + pad2 + "=" + pad3 + value + pad4 == left + ['='] + right;
    SplitFirstOfJoined(left, '=', right);
    TrimSpacePadded(pad1, key, pad2);
    TrimSpacePadded(pad3, value, pad4);
  }

  /** A parsed pair: the key and value it sets, or nothing. */
  type Entry = Option<(string, string)>

  /** Each pair of a split property string, parsed. */
  function ParsePairs(pairs: seq<string>): (entries: seq<Entry>)
    ensures |entries| == |pairs|
    ensures forall j :: 0 <= j < |pairs| ==> entries[j] == ParsePair(pairs[j])
  {
    seq(|pairs|, j requires 0 <= j < |pairs| => ParsePair(pairs[j]))
  }

  /** Writing one parsed pair into `m`. */
  function Write(m: Properties, e: Entry): Properties {
    match e
    case None => m
    case Some((key, value)) => m[key := Str(value)]
  }

  /** `m` after the parsed pairs have been written into it one after the other. */
  function ApplyEntries(m: Properties, entries: seq<Entry>): Properties {
    if entries == [] then m
    else Write(ApplyEntries(m, entries[..|entries| - 1]), entries[|entries| - 1])
  }

  /** The keys that some parsed pair sets. */
  function EntryKeys(entries: seq<Entry>): set<string> {
    set e | e in entries && e.Some? :: e.value.0
  }

  /** The map create and update send: the named flags first, then the pairs
      of the property string (when it is non-empty) in order. */
  function AssembledProperties(f: ContactFlags): Properties {
    if f.properties != "" then ApplyEntries(FlagProperties(f), ParsePairs(Split(f.properties, ',')))
    else FlagProperties(f)
  }

  /** The part of create and update that fills the property map in place:
      the named flags, then the pairs of the property string. */
  method AssembleProperties(f: ContactFlags) returns (properties: Properties)
    ensures properties == AssembledProperties(f)
  {
    properties := map[];
    if f.email != "" {
      properties := properties["email" := Str(f.email)];
    }
    if f.firstName != "" {
      properties := properties["firstname" := Str(f.firstName)];
    }
    if f.lastName != "" {
      properties := properties["lastname" := Str(f.lastName)];
    }
    if f.lifecycleStage != "" {
      properties := properties["lifecyclestage" := Str(f.lifecycleStage)];
    }
    if f.properties != "" {
      properties := WritePairs(properties, Split(f.properties, ','));
    }
  }

  /** Writing one parsed pair, spelled out the way the loop of WritePairs does it. */
  lemma WriteParsedPair(m: Properties, pair: string)
    ensures var parts := SplitFirst(pair, '=');
      Write(m, ParsePair(pair)) == if |parts| == 2 then m[TrimSpace(parts[0]) := Str(TrimSpace(parts[1]))] else m
  {
  }

  /** The loop over the pairs of the property string: each pair holding `=`
      writes its trimmed key and value into the map, in order. */
  method WritePairs(start: Properties, pairs: seq<string>) returns (properties: Properties)
    ensures properties == ApplyEntries(start, ParsePairs(pairs))
  {
    ghost var entries := ParsePairs(pairs);
    properties := start;
    for i := 0 to |pairs|
      invariant properties == ApplyEntries(start, entries[..i])
    {
      assert entries[..i + 1][..i] == entries[..i];
      WriteParsedPair(properties, pairs[i]);
      var parts := SplitFirst(pairs[i], '=');
      if |parts| == 2 {
        var key := TrimSpace(parts[0]);
        var value := TrimSpace(parts[1]);
        properties := properties[key := Str(value)];
      }
    }
    assert entries[..|pairs|] == entries;
  }

  /** The keys after writing the pairs are those already there and those some
      pair sets: no other key appears and none disappears. */
  lemma {:induction false} ApplyEntriesKeys(m: Properties, entries: seq<Entry>)
    ensures ApplyEntries(m, entries).Keys == m.Keys + EntryKeys(entries)
  {
    if entries != [] {
      var init := entries[..|entries| - 1];
      var last := entries[|entries| - 1];
      ApplyEntriesKeys(m, init);
      assert entries == init + [last];
      assert EntryKeys(entries) == EntryKeys(init) + EntryKeys([last]);
    }
  }

  /** The last pair that sets a key decides its value, whatever was there before. */
  lemma {:induction false} LastPairWins(m: Properties, entries: seq<Entry>, j: nat, key: string, value: string)
    requires j < |entries| && entries[j] == Some((key, value))
    requires forall l :: j < l < |entries| ==> entries[l].None? || entries[l].value.0 != key
    ensures key in ApplyEntries(m, entries) && ApplyEntries(m, entries)[key] == Str(value)
  {
    if j < |entries| - 1 {
      LastPairWins(m, entries[..|entries| - 1], j, key, value);
    }
  }

  /** A key no pair sets keeps whatever it had before (or stays absent). */
  lemma {:induction false} UnsetKeyKept(m: Properties, entries: seq<Entry>, key: string)
    requires key !in EntryKeys(entries)
    ensures key in ApplyEntries(m, entries) <==> key in m
    ensures key in m ==> ApplyEntries(m, entries)[key] == m[key]
  {
    if entries != [] {
      var init := entries[..|entries| - 1];
      var last := entries[|entries| - 1];
      assert EntryKeys(init) <= EntryKeys(entries);
      UnsetKeyKept(m, init, key);
      if last.Some? {
        assert last in entries;
      }
    }
  }

  /** The assembled map holds exactly the non-empty named flags and the keys of
      the property string; a flag no pair mentions keeps its value. */
  lemma AssembledPropertiesShape(f: ContactFlags)
    ensures var entries := if f.properties != "" then ParsePairs(Split(f.properties, ',')) else [];
      && AssembledProperties(f).Keys == FlagProperties(f).Keys + EntryKeys(entries)
      && (forall key :: key in FlagProperties(f) && key !in EntryKeys(entries) ==>
            AssembledProperties(f)[key] == FlagProperties(f)[key])
  {
    var entries := if f.properties != "" then ParsePairs(Split(f.properties, ',')) else [];
    ApplyEntriesKeys(FlagProperties(f), entries);
    forall key | key in FlagProperties(f) && key !in EntryKeys(entries)
      ensures AssembledProperties(f)[key] == FlagProperties(f)[key]
    {
      UnsetKeyKept(FlagProperties(f), entries, key);
    }
  }

  /** Every value in the map is a string when every value before was. */
  lemma {:induction false} ApplyEntriesStrings(m: Properties, entries: seq<Entry>)
    requires forall key :: key in m ==> m[key].Str?
    ensures forall key :: key in ApplyEntries(m, entries) ==> ApplyEntries(m, entries)[key].Str?
  {
    if entries != [] {
      ApplyEntriesStrings(m, entries[..|entries| - 1]);
    }
  }

  /** A property string written from well-formed pairs splits into exactly
      those pairs, each read back as written. */
  lemma PropertyStringRoundTrip(entries: seq<(string, string)>)
    requires |entries| >= 1
    requires forall e :: e in entries ==>
      '=' !in e.0 && ',' !in e.0 && ',' !in e.1 && Trimmed(e.0) && Trimmed(e.1)
    ensures var pairs := Split(Join(seq(|entries|, j requires 0 <= j < |entries| => entries[j].0 + "=" + entries[j].1), ','), ',');
      && |pairs| == |entries|
      && forall j :: 0 <= j < |entries| ==> ParsePair(pairs[j]) == Some(entries[j])
  {
    var written := seq(|entries|, j requires 0 <= j < |entries| => entries[j].0 + "=" + entries[j].1);
    forall p | p in written ensures ',' !in p {
      var j :| 0 <= j < |written| && written[j] == p;
      assert entries[j] in entries;
    }
    SplitOfJoin(written, ',');
    forall j | 0 <= j < |entries| ensures ParsePair(written[j]) == Some(entries[j]) {
      assert entries[j] in entries;
      ParseUnpaddedPair(entries[j].0, entries[j].1);
    }
  }

  /** ParsePairRoundTrip without padding. */
  lemma ParseUnpaddedPair(key: string, value: string)
    requires '=' !in key && Trimmed(key) && Trimmed(value)
    ensures ParsePair(key + "=" + value) == Some((key, value))
  {
    assert "" + key + "" + "=" + "" + value + "" == key + "=" + value;
    ParsePairRoundTrip("", key, "", "", value, "");
  }

  // ---------------------------------------------------------------------------
  // Command outcomes
  // ---------------------------------------------------------------------------

  datatype CommandError =
    | MissingApiKey
    | NoProperties(action: string)
    | Failed(action: string, cause: Error)

  /** The text each command error is reported with. */
  function CommandMessage(e: CommandError): string {
    match e
    case MissingApiKey => "API key is required. Set " + ApiKeyVariable + " env var or use " + ApiKeyFlag + " flag"
    case NoProperties(action) => "at least one property is required to " + action + " a contact"
    case Failed(action, cause) => "failed to " + action + ": " + ErrorMessage(cause)
  }

  /** A missing key is reported with both ways to supply one: the environment
      variable and the flag. */
  lemma MissingKeyMessageNamesSources()
    ensures ContainsInfix(CommandMessage(MissingApiKey), ApiKeyVariable)
    ensures ContainsInfix(CommandMessage(MissingApiKey), ApiKeyFlag)
  {
    InfixesOfConcat("API key is required. Set ", ApiKeyVariable, " env var or use ", ApiKeyFlag, " flag");
  }

  /** Every other command error names what the command was doing. */
  lemma CommandMessageNamesAction(e: CommandError)
    requires !e.MissingApiKey?
    ensures ContainsInfix(CommandMessage(e), e.action)
  {
    match e
    case NoProperties(action) =>
      InfixOfConcat("at least one property is required to ", action, " a contact");
    case Failed(action, cause) =>
      var rest := ": " + ErrorMessage(cause);
      assert CommandMessage(e) == "failed to " + action + rest;
      InfixOfConcat("failed to ", action, rest);
  }

  /** A failed call is reported with the client's own error text at the end,
      so the cause, or the API's status and body, stay visible. */
  lemma FailedMessageEndsWithCause(action: string, cause: Error)
    ensures var m, detail := CommandMessage(Failed(action, cause)), ErrorMessage(cause);
      |detail| <= |m| && m[|m| - |detail|..] == detail
  {
    var m, detail := CommandMessage(Failed(action, cause)), ErrorMessage(cause);
    assert m == "failed to " + action + ": " + detail;
  }

  /** A client error, wrapped with what the command was doing. */
  function Wrap<T>(action: string, res: Result<T, Error>): (r: Result<T, CommandError>)
    ensures r.Success? <==> res.Success?
    ensures r.Success? ==> r.value == res.value
    ensures r.Failure? ==> r.error == Failed(action, res.error)
  {
    match res
    case Success(v) => Success(v)
    case Failure(e) => Failure(Failed(action, e))
  }

  // ---------------------------------------------------------------------------
  // `contacts list`: the pagination loop
  // ---------------------------------------------------------------------------

  /** After this answer, does `list` ask for another page? Only with `--all`,
      only after a successful page, and only if it names a next page. */
  predicate Continues(page: Result<ContactResponse, Error>, showAll: bool) {
    showAll && page.Success? && NextCursor(page.value).Some?
  }

  /** The server's answers to successive list requests. The last answer
      ends the loop: an error, no next page, or `--all` off. */
  predicate PageSourceEnds(pages: seq<Result<ContactResponse, Error>>, showAll: bool) {
    |pages| > 0 && !Continues(pages[|pages| - 1], showAll)
  }

  /** The index of the first answer from `from` on that ends the loop. */
  function StopIndex(pages: seq<Result<ContactResponse, Error>>, showAll: bool, from: nat): (stop: nat)
    requires PageSourceEnds(pages, showAll) && from < |pages|
    ensures from <= stop < |pages| && !Continues(pages[stop], showAll)
    ensures forall j :: from <= j < stop ==> Continues(pages[j], showAll)
    decreases |pages| - from
  {
    if !Continues(pages[from], showAll) then from else StopIndex(pages, showAll, from + 1)
  }

  /** The cursor of request `j`: empty for the first, then the next cursor of
      the page before. */
  function CursorFor(pages: seq<Result<ContactResponse, Error>>, j: nat): string
    requires j <= |pages|
  {
    if j == 0 then ""
    else if pages[j - 1].Success? && NextCursor(pages[j - 1].value).Some? then NextCursor(pages[j - 1].value).value
    else ""
  }

  /** The first `n` list requests. */
  function ListRequests(limit: int, pages: seq<Result<ContactResponse, Error>>, n: nat): (reqs: seq<ApiRequest>)
    requires n <= |pages|
    ensures |reqs| == n
  {
    if n == 0 then [] else ListRequests(limit, pages, n - 1) + [ListContactsRequest(limit, CursorFor(pages, n - 1))]
  }

  /** Request `j` of the list asks for the page after cursor `j`, with the same limit. */
  lemma {:induction false} ListRequestAt(limit: int, pages: seq<Result<ContactResponse, Error>>, n: nat, j: nat)
    requires j < n <= |pages|
    ensures ListRequests(limit, pages, n)[j] == ListContactsRequest(limit, CursorFor(pages, j))
  {
    var earlier := ListRequests(limit, pages, n - 1);
    assert ListRequests(limit, pages, n) == earlier + [ListContactsRequest(limit, CursorFor(pages, n - 1))];
    if j < n - 1 {
      ListRequestAt(limit, pages, n - 1, j);
      assert ListRequests(limit, pages, n)[j] == earlier[j];
    }
  }

  /** The contacts of the first `n` pages, in page order. */
  function AllResults(pages: seq<Result<ContactResponse, Error>>, n: nat): seq<Contact>
    requires n <= |pages| && forall j :: 0 <= j < n ==> pages[j].Success?
  {
    if n == 0 then [] else AllResults(pages, n - 1) + pages[n - 1].value.results
  }

  /** `contacts list`: after the API-key check, the pages are fetched with the
      effective limit. */
  method ListContactsCommand(apiKey: string, limitFlag: int, showAll: bool, pages: seq<Result<ContactResponse, Error>>)
    returns (r: Result<seq<Contact>, CommandError>, requests: seq<ApiRequest>)
    requires PageSourceEnds(pages, showAll)
    ensures apiKey == "" ==> r == Failure(MissingApiKey) && requests == []
    ensures apiKey != "" ==>
      var stop := StopIndex(pages, showAll, 0);
      && requests == ListRequests(EffectiveLimit(limitFlag), pages, stop + 1)
      && (pages[stop].Failure? ==> r == Failure(Failed("list contacts", pages[stop].error)))
      && (pages[stop].Success? ==> r == Success(AllResults(pages, stop + 1)))
  {
    if apiKey == "" {
      return Failure(MissingApiKey), [];
    }
    var limit := EffectiveLimit(limitFlag);
    var fetched;
    fetched, requests := FetchPages(limit, showAll, pages);
    r := Wrap("list contacts", fetched);
  }

  /** The pagination loop of `contacts list`: one request per page, the first
      without cursor and each later one with the previous page's cursor, until
      a page fails, has no next page, or `--all` is off. The result is every
      fetched page's contacts in order, or the first failure and no contacts. */
  method FetchPages(limit: int, showAll: bool, pages: seq<Result<ContactResponse, Error>>)
    returns (r: Result<seq<Contact>, Error>, requests: seq<ApiRequest>)
    requires PageSourceEnds(pages, showAll)
    ensures var stop := StopIndex(pages, showAll, 0);
      && requests == ListRequests(limit, pages, stop + 1)
      && (pages[stop].Failure? ==> r == Failure(pages[stop].error))
      && (pages[stop].Success? ==> r == Success(AllResults(pages, stop + 1)))
  {
    ghost var stop := StopIndex(pages, showAll, 0);
    var allContacts: seq<Contact> := [];
    var after := "";
    var i := 0;
    requests := [];
    while true
      invariant 0 <= i <= stop
      invariant after == CursorFor(pages, i)
      invariant allContacts == AllResults(pages, i)
      invariant requests == ListRequests(limit, pages, i)
      decreases stop - i
    {
      requests := requests + [ListContactsRequest(limit, after)];
      var page := pages[i];
      if page.Failure? {
        assert i == stop;
        return Failure(page.error), requests;
      }
      allContacts := allContacts + page.value.results;
      if !showAll || page.value.paging.None? || page.value.paging.value.next.None? {
        assert i == stop;
        break;
      }
      after := page.value.paging.value.next.value.after;
      i := i + 1;
    }
    r := Success(allContacts);
  }

  /** Without `--all`, exactly one page is fetched. */
  lemma OnePageWithoutAll(pages: seq<Result<ContactResponse, Error>>)
    requires |pages| > 0
    ensures PageSourceEnds(pages, false) && StopIndex(pages, false, 0) == 0
  {
  }

  /** A server with `n` pages, each but the last naming a next page: with
      `--all`, every page is fetched. */
  lemma {:induction false} FetchesEveryPage(pages: seq<Result<ContactResponse, Error>>, from: nat)
    requires from < |pages|
    requires forall j :: 0 <= j < |pages| ==> pages[j].Success?
    requires forall j :: 0 <= j < |pages| ==> (NextCursor(pages[j].value).Some? <==> j < |pages| - 1)
    ensures PageSourceEnds(pages, true) && StopIndex(pages, true, from) == |pages| - 1
    decreases |pages| - from
  {
    if from < |pages| - 1 {
      FetchesEveryPage(pages, from + 1);
    }
  }

  /** A failed page ends the loop at once: no later page is asked for. */
  lemma FailureStops(pages: seq<Result<ContactResponse, Error>>, showAll: bool, j: nat)
    requires PageSourceEnds(pages, showAll) && j < |pages| && pages[j].Failure?
    requires forall l :: 0 <= l < j ==> pages[l].Success?
    ensures StopIndex(pages, showAll, 0) <= j
  {
  }

  // ---------------------------------------------------------------------------
  // `contacts create` and `contacts update`
  // ---------------------------------------------------------------------------

  /** `contacts create`: after the API-key check, the assembled map must not
      be empty; only then is the contact created with it. */
  method CreateContactCommand(apiKey: string, flags: ContactFlags, created: Result<Contact, Error>)
    returns (r: Result<Contact, CommandError>, requests: seq<ApiRequest>)
    ensures apiKey == "" ==> r == Failure(MissingApiKey) && requests == []
    ensures apiKey != "" && AssembledProperties(flags) == map[] ==>
      r == Failure(NoProperties("create")) && requests == []
    ensures apiKey != "" && AssembledProperties(flags) != map[] ==>
      requests == [CreateContactRequest(AssembledProperties(flags))] && r == Wrap("create contact", created)
  {
    if apiKey == "" {
      return Failure(MissingApiKey), [];
    }
    var properties := AssembleProperties(flags);
    if |properties| == 0 {
      return Failure(NoProperties("create")), [];
    }
    requests := [CreateContactRequest(properties)];
    r := Wrap("create contact", created);
  }

  /** `contacts update`: the same map rules as create, sent to one contact. */
  method UpdateContactCommand(apiKey: string, id: string, flags: ContactFlags, updated: Result<Contact, Error>)
    returns (r: Result<Contact, CommandError>, requests: seq<ApiRequest>)
    ensures apiKey == "" ==> r == Failure(MissingApiKey) && requests == []
    ensures apiKey != "" && AssembledProperties(flags) == map[] ==>
      r == Failure(NoProperties("update")) && requests == []
    ensures apiKey != "" && AssembledProperties(flags) != map[] ==>
      requests == [UpdateContactRequest(id, AssembledProperties(flags))] && r == Wrap("update contact", updated)
  {
    if apiKey == "" {
      return Failure(MissingApiKey), [];
    }
    var properties := AssembleProperties(flags);
    if |properties| == 0 {
      return Failure(NoProperties("update")), [];
    }
    requests := [UpdateContactRequest(id, properties)];
    r := Wrap("update contact", updated);
  }

  // ---------------------------------------------------------------------------
  // `contacts delete` and `contacts query`
  // ---------------------------------------------------------------------------

  datatype Deletion = Deleted | Cancelled

  /** `contacts delete`: without `--force` the contact is fetched first and
      the answer to the prompt must confirm; only then is it deleted. */
  method DeleteContactCommand(apiKey: string, id: string, force: bool, fetched: Result<Contact, Error>,
                              answer: string, deleteError: Option<Error>)
    returns (r: Result<Deletion, CommandError>, requests: seq<ApiRequest>)
    ensures apiKey == "" ==> r == Failure(MissingApiKey) && requests == []
    ensures apiKey != "" ==>
      requests == (if force then [] else [GetContactRequest(id)])
                  + (if force || (fetched.Success? && ConfirmsDeletion(answer)) then [DeleteContactRequest(id)] else [])
    ensures DeleteContactRequest(id) in requests <==>
      apiKey != "" && (force || (fetched.Success? && ConfirmsDeletion(answer)))
    ensures apiKey != "" && !force ==> |requests| >= 1 && requests[0] == GetContactRequest(id)
    ensures apiKey != "" && !force && fetched.Failure? ==> r == Failure(Failed("get contact", fetched.error))
    ensures r == Success(Cancelled) <==> apiKey != "" && !force && fetched.Success? && !ConfirmsDeletion(answer)
    ensures r == Success(Deleted) <==> DeleteContactRequest(id) in requests && deleteError.None?
    ensures DeleteContactRequest(id) in requests && deleteError.Some? ==>
      r == Failure(Failed("delete contact", deleteError.value))
  {
    if apiKey == "" {
      return Failure(MissingApiKey), [];
    }
    requests := [];
    if !force {
      requests := requests + [GetContactRequest(id)];
      if fetched.Failure? {
        return Failure(Failed("get contact", fetched.error)), requests;
      }
      if ToLower(answer) != "y" && ToLower(answer) != "yes" {
        return Success(Cancelled), requests;
      }
    }
    requests := requests + [DeleteContactRequest(id)];
    if deleteError.Some? {
      return Failure(Failed("delete contact", deleteError.value)), requests;
    }
    r := Success(Deleted);
  }

  /** `contacts query`: one search with the query and the effective limit. */
  method QueryContactsCommand(apiKey: string, query: string, limitFlag: int, found: Result<ContactResponse, Error>)
    returns (r: Result<seq<Contact>, CommandError>, requests: seq<ApiRequest>)
    ensures apiKey == "" ==> r == Failure(MissingApiKey) && requests == []
    ensures apiKey != "" ==> requests == [SearchContactsRequest(query, EffectiveLimit(limitFlag))]
    ensures apiKey != "" && found.Success? ==> r == Success(found.value.results)
    ensures apiKey != "" && found.Failure? ==> r == Failure(Failed("search contacts", found.error))
  {
    if apiKey == "" {
      return Failure(MissingApiKey), [];
    }
    var limit := EffectiveLimit(limitFlag);
    requests := [SearchContactsRequest(query, limit)];
    match found {
      case Failure(e) => r := Failure(Failed("search contacts", e));
      case Success(resp) => r := Success(resp.results);
    }
  }
}
